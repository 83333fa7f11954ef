/**
 * The meaning of an event chain, stated on values: sums of delays, the scan
 * for the next callable event, one iteration of the scheduling loop and the
 * start transition. The class in esp_event_chain.dfy is proved against these.
 */
module ChainSpec {
  import opened EspEvents
  import opened Outcomes

  // ---------------------------------------------------------------------
  // Time sums
  // ---------------------------------------------------------------------

  /** The sum of the delays of the events in s. */
  function Sum(s: seq<Event>): (total: nat)
  {
    if s == [] then 0 else Sum(s[..|s| - 1]) + s[|s| - 1].time
  }

  /** Sums of concatenations add up. */
  lemma {:induction false} SumConcat(a: seq<Event>, b: seq<Event>)
    ensures Sum(a + b) == Sum(a) + Sum(b)
    decreases |b|
  {
    if b == [] {
      assert a + b == a;
    } else {
      var b' := b[..|b| - 1];
      assert (a + b)[..|a + b| - 1] == a + b';
      SumConcat(a, b');
    }
  }

  /** total_time_before(pos) + get_time_of(pos) == total_time_before(pos + 1). */
  lemma TotalTimeBeforeStep(s: seq<Event>, pos: nat)
    requires pos < |s|
    ensures Sum(s[..pos]) + s[pos].time == Sum(s[..pos + 1])
  {
    assert s[..pos + 1][..pos] == s[..pos];
  }

  /** Appending an event adds exactly its delay to the total. */
  lemma AppendTotal(s: seq<Event>, e: Event)
    ensures Sum(s + [e]) == Sum(s) + e.time
  {
    assert (s + [e])[..|s|] == s;
  }

  /** Inserting an event anywhere adds exactly its delay to the total. */
  lemma {:induction false} InsertTotal(s: seq<Event>, pos: nat, e: Event)
    requires pos <= |s|
    ensures Sum(s[..pos] + [e] + s[pos..]) == Sum(s) + e.time
  {
    SumConcat(s[..pos] + [e], s[pos..]);
    AppendTotal(s[..pos], e);
    SumConcat(s[..pos], s[pos..]);
    assert s[..pos] + s[pos..] == s;
  }

  /** Removing the event at pos subtracts exactly its delay from the total. */
  lemma {:induction false} RemoveTotal(s: seq<Event>, pos: nat)
    requires pos < |s|
    ensures Sum(s[..pos] + s[pos + 1..]) + s[pos].time == Sum(s)
  {
    var r := s[..pos] + s[pos + 1..];
    assert r[..pos] == s[..pos] && r[pos..] == s[pos + 1..];
    InsertTotal(r, pos, s[pos]);
    assert r[..pos] + [s[pos]] + r[pos..] == s;
  }

  /** Removing the event at pos and inserting it again at pos restores the chain. */
  lemma RemoveThenInsert(s: seq<Event>, pos: nat)
    requires pos < |s|
    ensures var r := s[..pos] + s[pos + 1..]; r[..pos] + [s[pos]] + r[pos..] == s
  {
    var r := s[..pos] + s[pos + 1..];
    assert r[..pos] == s[..pos] && r[pos..] == s[pos + 1..];
  }

  // ---------------------------------------------------------------------
  // The start guard
  // ---------------------------------------------------------------------

  /** containsNonzeroEvent: some event has a nonzero delay. */
  function ContainsNonzero(s: seq<Event>): (b: bool)
    ensures b <==> exists i :: 0 <= i < |s| && s[i].time != 0
  {
    if s == [] then false
    else if s[0].time != 0 then true
    else
      var b := ContainsNonzero(s[1..]);
      assert forall i :: 1 <= i < |s| ==> s[i] == s[1..][i - 1];
      b
  }

  /** The start guard refuses exactly the chains whose total time is 0. */
  lemma {:induction false} NonzeroIffPositiveTotal(s: seq<Event>)
    ensures ContainsNonzero(s) <==> Sum(s) > 0
    decreases |s|
  {
    if s != [] {
      var s' := s[..|s| - 1];
      NonzeroIffPositiveTotal(s');
      assert forall i :: 0 <= i < |s'| ==> s'[i] == s[i];
      if s[|s| - 1].time == 0 && Sum(s) == 0 {
        assert forall i :: 0 <= i < |s| ==> s[i].time == 0 by {
          forall i | 0 <= i < |s| ensures s[i].time == 0 {
            if i < |s'| {
              assert s'[i] == s[i];
            }
          }
        }
      }
    }
  }

  // ---------------------------------------------------------------------
  // Chain state and the scan for the next callable event
  // ---------------------------------------------------------------------

  /** The scheduling state of a chain: its events, the cursor and the two flags. */
  datatype ChainState = ChainState(events: seq<Event>, cursor: nat, started: bool, runOnce: bool)

  /** The first position after c whose event has a callback, or |s| if there is none. */
  function NextCallable(s: seq<Event>, c: nat): (j: nat)
    requires c < |s|
    ensures c < j <= |s|
    ensures j < |s| ==> s[j].HasCallback()
    ensures forall i :: c < i < j ==> !s[i].HasCallback()
    decreases |s| - c
  {
    if c + 1 == |s| then |s|
    else if s[c + 1].HasCallback() then c + 1
    else NextCallable(s, c + 1)
  }

  /**
   * advanceToNextCallable: move to the next event with a callback and report
   * true; past the end, move to 0 (whatever event 0 holds) and report whether
   * the chain keeps cycling.
   */
  function Advance(s: ChainState): (r: (ChainState, bool))
    requires s.cursor < |s.events|
    ensures r.0 == s.(cursor := r.0.cursor)
    ensures r.0.cursor < |s.events|
    ensures r.0.cursor > s.cursor ==>
              r.1 && s.events[r.0.cursor].HasCallback()
              && forall i :: s.cursor < i < r.0.cursor ==> !s.events[i].HasCallback()
    ensures r.0.cursor <= s.cursor ==>
              r.0.cursor == 0 && r.1 == !s.runOnce
              && forall i :: s.cursor < i < |s.events| ==> !s.events[i].HasCallback()
  {
    var j := NextCallable(s.events, s.cursor);
    if j < |s.events| then (s.(cursor := j), true) else (s.(cursor := 0), !s.runOnce)
  }

  // ---------------------------------------------------------------------
  // The scheduling loop
  // ---------------------------------------------------------------------

  /** What one iteration of the loop does: the new state, the indices whose callback ran, the next wait. */
  datatype Step = Step(state: ChainState, fired: seq<nat>, wait: nat)

  /**
   * One iteration of the `while (_started)` loop: run the current event, advance,
   * stop (clearing the run-once flag) when the advance fails, and wait the delay
   * of the event now under the cursor.
   */
  function Tick(s: ChainState): (r: Step)
    requires s.started && s.cursor < |s.events|
    ensures r.fired == if s.events[s.cursor].HasCallback() then [s.cursor] else []
    ensures r.state.events == s.events
    ensures r.state.cursor < |s.events| && r.wait == s.events[r.state.cursor].time
    ensures r.state.started <==> (r.state.cursor > s.cursor || !s.runOnce)
    ensures r.state.runOnce == (s.runOnce && r.state.started)
    ensures r.state.cursor > s.cursor ==>
              s.events[r.state.cursor].HasCallback()
              && forall i :: s.cursor < i < r.state.cursor ==> !s.events[i].HasCallback()
    ensures r.state.cursor <= s.cursor ==>
              r.state.cursor == 0 && forall i :: s.cursor < i < |s.events| ==> !s.events[i].HasCallback()
  {
    var fired := if s.events[s.cursor].HasCallback() then [s.cursor] else [];
    var (s1, more) := Advance(s);
    var s2 := if more then s1 else s1.(runOnce := false, started := false);
    Step(s2, fired, s.events[s2.cursor].time)
  }

  /** The result of running the loop: the final state, every firing and every wait. */
  datatype Progress = Progress(state: ChainState, fired: seq<nat>, waits: seq<nat>)

  /** The loop run for at most `ticks` iterations, or until the chain stops. */
  function Run(s: ChainState, ticks: nat): (r: Progress)
    requires s.started ==> s.cursor < |s.events|
    ensures r.state.events == s.events
    ensures r.state.started ==> r.state.cursor < |s.events|
    ensures |r.waits| <= ticks
    decreases ticks
  {
    if !s.started || ticks == 0 then Progress(s, [], [])
    else
      var t := Tick(s);
      var rest := Run(t.state, ticks - 1);
      Progress(rest.state, t.fired + rest.fired, [t.wait] + rest.waits)
  }

  /**
   * Regrouping of concatenated traces, a proof helper for the loop of
   * EspEventChain.HandleTick. It is a lemma of its own so that the loop body
   * does not reason about sequence contents.
   */
  lemma ConcatAssoc<T>(a: seq<T>, b: seq<T>, c: seq<T>)
    ensures a + (b + c) == (a + b) + c
  {
  }

  /** A running loop with iterations left performs one Tick, then runs on from its state. */
  lemma RunUnfold(s: ChainState, ticks: nat)
    requires s.started && s.cursor < |s.events| && ticks > 0
    ensures var t := Tick(s); var rest := Run(t.state, ticks - 1);
            Run(s, ticks) == Progress(rest.state, t.fired + rest.fired, [t.wait] + rest.waits)
  {
  }

  /** The positions from k to the end whose event has a callback, in increasing order. */
  function CallableFrom(s: seq<Event>, k: nat): (positions: seq<nat>)
    decreases |s| - k
  {
    if k >= |s| then []
    else (if s[k].HasCallback() then [k] else []) + CallableFrom(s, k + 1)
  }

  /** CallableFrom(s, k) lists each callable position of k .. |s|-1 once, in increasing order. */
  lemma {:induction false} CallableFromExactly(s: seq<Event>, k: nat)
    ensures forall x :: x in CallableFrom(s, k) <==> k <= x < |s| && s[x].HasCallback()
    ensures forall a, b :: 0 <= a < b < |CallableFrom(s, k)| ==> CallableFrom(s, k)[a] < CallableFrom(s, k)[b]
    decreases |s| - k
  {
    if k < |s| {
      CallableFromExactly(s, k + 1);
      var rest := CallableFrom(s, k + 1);
      forall b | 0 <= b < |rest| ensures k < rest[b] {
        assert rest[b] in rest;
      }
    }
  }

  /** Positions without a callback contribute nothing to CallableFrom. */
  lemma {:induction false} CallableFromSkip(s: seq<Event>, k: nat, j: nat)
    requires k <= j <= |s|
    requires forall i :: k <= i < j ==> !s[i].HasCallback()
    ensures CallableFrom(s, k) == CallableFrom(s, j)
    decreases j - k
  {
    if k < j {
      CallableFromSkip(s, k + 1, j);
    }
  }

  /**
   * A run-once pass from cursor c invokes exactly the callbacks of positions
   * c .. n-1 that have one, in order, and then leaves the chain stopped with
   * the run-once flag clear.
   */
  lemma {:induction false} RunOnceFiresSuffix(s: ChainState, ticks: nat)
    requires s.started && s.runOnce && s.cursor < |s.events|
    requires ticks >= |s.events| - s.cursor
    ensures Run(s, ticks).fired == CallableFrom(s.events, s.cursor)
    ensures !Run(s, ticks).state.started && !Run(s, ticks).state.runOnce
    decreases |s.events| - s.cursor
  {
    var t := Tick(s);
    var rest := Run(t.state, ticks - 1);
    assert Run(s, ticks) == Progress(rest.state, t.fired + rest.fired, [t.wait] + rest.waits);
    CallableFromUnfold(s.events, s.cursor);
    if t.state.started {
      CallableFromSkip(s.events, s.cursor + 1, t.state.cursor);
      RunOnceFiresSuffix(t.state, ticks - 1);
      assert rest.fired == CallableFrom(s.events, t.state.cursor);
    } else {
      CallableFromSkip(s.events, s.cursor + 1, |s.events|);
    }
  }

  /** CallableFrom takes position k, if callable, and continues at k + 1. */
  lemma CallableFromUnfold(s: seq<Event>, k: nat)
    requires k < |s|
    ensures CallableFrom(s, k) == (if s[k].HasCallback() then [k] else []) + CallableFrom(s, k + 1)
  {
  }

  /** Without the run-once flag the loop never stops by itself. */
  lemma {:induction false} CyclicKeepsRunning(s: ChainState, ticks: nat)
    requires s.started && !s.runOnce && s.cursor < |s.events|
    ensures Run(s, ticks).state.started && !Run(s, ticks).state.runOnce
    ensures |Run(s, ticks).waits| == ticks
    decreases ticks
  {
    if ticks > 0 {
      CyclicKeepsRunning(Tick(s).state, ticks - 1);
    }
  }

  // ---------------------------------------------------------------------
  // Starting and stopping
  // ---------------------------------------------------------------------

  /**
   * startFrom(pos) (once == false) and runOnceStartFrom(pos) (once == true):
   * position the cursor, set the run-once flag to `once`, and start unless the
   * cursor is at the end or every delay is 0. A position past the end is an error.
   */
  function Begin(s: ChainState, pos: nat, once: bool): (r: Result<ChainState>)
    requires !s.started
    ensures r.Err? <==> pos > |s.events|
    ensures r.Err? ==> r.error == InvalidPosition
    ensures r.Ok? ==> r.value.events == s.events && r.value.cursor == pos
    ensures r.Ok? ==> (r.value.started <==> pos < |s.events| && Sum(s.events) > 0)
    ensures r.Ok? ==> r.value.runOnce == once
    ensures r.Ok? ==> (r.value.started ==> r.value.cursor < |r.value.events|)
  {
    if pos > |s.events| then Err(InvalidPosition)
    else
      NonzeroIffPositiveTotal(s.events);
      var go := pos < |s.events| && ContainsNonzero(s.events);
      Ok(s.(cursor := pos, started := go, runOnce := once))
  }

  /** A plain start never inherits a run-once flag: once started it keeps cycling. */
  lemma {:induction false} StartNeverRunsOnce(s: ChainState, pos: nat, ticks: nat)
    requires !s.started
    requires Begin(s, pos, false).Ok? && Begin(s, pos, false).value.started
    ensures Run(Begin(s, pos, false).value, ticks).state.started
  {
    CyclicKeepsRunning(Begin(s, pos, false).value, ticks);
  }

  /** runOnceStartFrom(k) followed by the loop fires exactly the callable events k .. n-1, then stops with the run-once flag clear. */
  lemma {:induction false} RunOnceStartFromFires(s: ChainState, k: nat, ticks: nat)
    requires !s.started && k < |s.events| && Sum(s.events) > 0
    requires ticks >= |s.events| - k
    ensures Begin(s, k, true).Ok? && Begin(s, k, true).value.started
    ensures Run(Begin(s, k, true).value, ticks).fired == CallableFrom(s.events, k)
    ensures !Run(Begin(s, k, true).value, ticks).state.started
    ensures !Run(Begin(s, k, true).value, ticks).state.runOnce
  {
    RunOnceFiresSuffix(Begin(s, k, true).value, ticks);
  }
}
