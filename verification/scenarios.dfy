/**
 * Client code mirroring the repository's test programs: each method builds a
 * chain through the class interface and states what the test expects.
 */
module ChainScenarios {
  import opened EspEvents
  import opened Outcomes
  import opened ChainSpec
  import opened EspEventChains

  /**
   * Events A (15 ms, adds 2) and B (10 ms, adds 3) in the chain
   * [A, B, A, A, B, B]; runOnceStartFrom(2) fires positions 2..5 and adds
   * 2 + 2 + 3 + 3 to the counter, then the chain is stopped.
   */
  method RunOnceFromTwo() returns (fired: seq<nat>, count: nat, running: bool)
    ensures fired == [2, 3, 4, 5]
    ensures count == 10
    ensures !running
  {
    var a := MakeEvent(15, Callable(2));
    var b := MakeEvent(10, Callable(3));
    var chain := new EspEventChain.FromEvents(a, [b, a, a, b, b]);
    ghost var s0 := chain.State();
    assert s0.events[0].time != 0;
    NonzeroIffPositiveTotal(s0.events);
    var st := chain.RunOnceStartFrom(2);
    RunOnceStartFromFires(s0, 2, 4);
    var waits := chain.HandleTick(4);
    assert CallableFrom(s0.events, 6) == [];
    assert CallableFrom(s0.events, 5) == [5];
    assert CallableFrom(s0.events, 4) == [4, 5];
    assert CallableFrom(s0.events, 3) == [3, 4, 5];
    assert CallableFrom(s0.events, 2) == [2, 3, 4, 5];
    fired := chain.fired;
    count := 0;
    var i := 0;
    while i < |fired|
      invariant 0 <= i <= |fired|
      invariant count == [0, 2, 4, 7, 10][i]
    {
      count := count + chain.events[fired[i]].callback.id;
      i := i + 1;
    }
    running := chain.IsRunning();
  }

  /** A chain whose every delay is 0 refuses to start. */
  method AllZeroRefuses() returns (running: bool)
    ensures !running
  {
    var chain := new EspEventChain.FromEvents(MakeEvent(0, Callable(1)), [MakeEvent(0, Callable(2))]);
    var st := chain.Start();
    running := chain.IsRunning();
  }

  /** A started chain reports running; stop() clears it. */
  method StartThenStop() returns (before: bool, during: bool, after: bool)
    ensures !before && during && !after
  {
    var chain := new EspEventChain.FromEvents(MakeEvent(10, Callable(1)), []);
    before := chain.IsRunning();
    assert chain.events[0].time != 0;
    var st := chain.Start();
    during := chain.IsRunning();
    chain.Stop();
    after := chain.IsRunning();
  }

  /** Two events tagged "x": the lookup returns the later one. */
  method LookupFindsLater() returns (p: int, q: int)
    ensures p == 2
    ensures q == -1
  {
    var chain := new EspEventChain.FromEvents(MakeEvent(5, Empty, "x"), [MakeEvent(5, Empty, "y"), MakeEvent(5, Empty, "x")]);
    assert chain.events[2].handle == "x";
    p := chain.GetPositionFromHandle("x");
    q := chain.GetPositionFromHandle(NullHandle);
  }

  /** The chain keeps its own copy: changing the caller's event afterwards changes nothing. */
  method CopyIsIndependent() returns (stored: nat)
    ensures stored == 30
  {
    var e := new EspEvent(30, Callable(1));
    var chain := new EspEventChain();
    chain.PushBack(e);
    var self := e.SetTime(99);
    var t := chain.GetTimeOf(0);
    stored := t.value;
  }

  /** push_back/insert in the order of the fixed test give the delays [10, 0, 10, 0]. */
  method InsertOrder() returns (times: seq<nat>)
    ensures times == [10, 0, 10, 0]
  {
    var e1 := new EspEvent(0, Callable(1));
    var e2 := new EspEvent(10, Callable(2));
    var chain := new EspEventChain();
    chain.PushBack(e1);
    var st := chain.Insert(0, e2);
    chain.PushBack(e1);
    st := chain.Insert(chain.NumEvents() - 1, e2);
    var t0 := chain.GetTimeOf(0);
    var t1 := chain.GetTimeOf(1);
    var t2 := chain.GetTimeOf(2);
    var t3 := chain.GetTimeOf(3);
    times := [t0.value, t1.value, t2.value, t3.value];
  }
}
