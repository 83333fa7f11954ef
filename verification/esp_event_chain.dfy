/**
 * The event chain object: a vector of events, a cursor and the started and
 * run-once flags, updated in place. The scheduling methods and the time sums
 * are proved against the value semantics of module ChainSpec; the editing
 * methods and the getters state the new event sequence in terms of the old.
 */
module EspEventChains {
  import opened EspEvents
  import opened Outcomes
  import opened ChainSpec

  class EspEventChain {
    var events: seq<Event>
    var cursor: nat
    var started: bool
    var runOnceFlag: bool
    /**
     * The positions whose callback has run, in the order they ran: the
     * observable effect of the callbacks, which the source does not store.
     */
    var fired: seq<nat>

    /** The scheduling state as a value. */
    function State(): (s: ChainState)
      reads this
    {
      ChainState(events, cursor, started, runOnceFlag)
    }

    // -------------------------------------------------------------------
    // Construction and destruction
    // -------------------------------------------------------------------

    /** The default constructor: empty, stopped, run-once flag clear. */
    constructor ()
      ensures events == [] && !started && !runOnceFlag && fired == []
    {
      events := [];
      cursor := 0;
      started, runOnceFlag := false, false;
      fired := [];
    }

    /** The capacity constructor: storage is only reserved, so the chain is empty. */
    constructor WithCapacity(numEvents: nat)
      ensures events == [] && !started && !runOnceFlag && fired == []
    {
      events := [];
      cursor := 0;
      started, runOnceFlag := false, false;
      fired := [];
    }

    /** The populating constructor: copies of its arguments, in argument order. */
    constructor FromEvents(first: Event, rest: seq<Event>)
      ensures events == [first] + rest && |events| == |rest| + 1
      ensures !started && !runOnceFlag && fired == []
    {
      events := [first] + rest;
      cursor := 0;
      started, runOnceFlag := false, false;
      fired := [];
    }

    /** The destructor stops the chain. */
    method Destroy()
      modifies this
      ensures !started
      ensures events == old(events) && cursor == old(cursor) && runOnceFlag == old(runOnceFlag)
      ensures fired == old(fired)
    {
      Stop();
    }

    // -------------------------------------------------------------------
    // Queries
    // -------------------------------------------------------------------

    function NumEvents(): (n: nat)
      reads this
      ensures n == |events|
    {
      |events|
    }

    function IsRunning(): (b: bool)
      reads this
      ensures b == State().started
    {
      started
    }

    /** getTimeOf: the delay at pos; pos == numEvents() passes the position check but std::vector::at throws. */
    function GetTimeOf(pos: nat): (r: Result<nat>)
      reads this
      ensures r.Ok? <==> pos < |events|
      ensures r.Ok? ==> r.value == events[pos].time
      ensures pos == |events| ==> r == Err(OutOfRange)
      ensures pos > |events| ==> r == Err(InvalidPosition)
    {
      if pos > |events| then Err(InvalidPosition)
      else if pos == |events| then Err(OutOfRange)
      else Ok(events[pos].time)
    }

    /** getTotalTimeBefore: the sum of the delays of positions 0 .. k-1. */
    method GetTotalTimeBefore(k: nat) returns (r: Result<nat>)
      ensures k <= |events| ==> r == Ok(Sum(events[..k]))
      ensures k > |events| ==> r == Err(InvalidPosition)
    {
      if k == 0 {
        return Ok(0);
      }
      if k > |events| {
        return Err(InvalidPosition);
      }
      var total := 0;
      var pos := 0;
      while pos < k
        invariant 0 <= pos <= k
        invariant total == Sum(events[..pos])
      {
        var t := GetTimeOf(pos);
        TotalTimeBeforeStep(events, pos);
        total := total + t.value;
        pos := pos + 1;
      }
      r := Ok(total);
    }

    /** getTotalTime: the sum of every delay, 0 for an empty chain. */
    function GetTotalTime(): (t: nat)
      reads this
      ensures t == Sum(events)
      ensures |events| == 0 ==> t == 0
    {
      if |events| == 0 then 0
      else Sum(events[..|events| - 1]) + events[|events| - 1].time
    }

    /**
     * getIteratorFromHandle: the position of the LAST event whose handle equals
     * `handle`, or numEvents() when none does or `handle` is "null".
     */
    method GetIteratorFromHandle(handle: string) returns (it: nat)
      ensures it <= |events|
      ensures handle == NullHandle ==> it == |events|
      ensures it < |events| ==>
                events[it].handle == handle
                && forall j :: it < j < |events| ==> events[j].handle != handle
      ensures it == |events| && handle != NullHandle ==>
                forall j :: 0 <= j < |events| ==> events[j].handle != handle
    {
      it := |events|;
      if handle == NullHandle {
        return;
      }
      var pos := 0;
      while pos < |events|
        invariant 0 <= pos <= |events|
        invariant it == |events| || it < pos
        invariant it < |events| ==>
                    events[it].handle == handle
                    && forall j :: it < j < pos ==> events[j].handle != handle
        invariant it == |events| ==> forall j :: 0 <= j < pos ==> events[j].handle != handle
      {
        if events[pos].handle == handle {
          it := pos;
        }
        pos := pos + 1;
      }
    }

    /** getPositionFromHandle: the last matching position, or -1. */
    method GetPositionFromHandle(handle: string) returns (p: int)
      ensures -1 <= p < |events|
      ensures p == -1 <==>
                handle == NullHandle || forall j :: 0 <= j < |events| ==> events[j].handle != handle
      ensures p >= 0 ==>
                handle != NullHandle && events[p].handle == handle
                && forall j :: p < j < |events| ==> events[j].handle != handle
    {
      var it := GetIteratorFromHandle(handle);
      if it != |events| {
        p := it;
      } else {
        p := -1;
      }
    }

    // -------------------------------------------------------------------
    // Editing
    // -------------------------------------------------------------------

    /** push_back: appends a copy of the event. */
    method PushBack(e: EspEvent)
      modifies this
      ensures events == old(events) + [e.Value()]
      ensures cursor == old(cursor) && started == old(started) && runOnceFlag == old(runOnceFlag)
      ensures fired == old(fired)
    {
      events := events + [e.Value()];
    }

    /** emplace_back: constructs the event at the end of the chain. */
    method EmplaceBack(ms: nat, cb: Callback, handle: string := NullHandle)
      modifies this
      ensures events == old(events) + [MakeEvent(ms, cb, handle)]
      ensures cursor == old(cursor) && started == old(started) && runOnceFlag == old(runOnceFlag)
      ensures fired == old(fired)
    {
      events := events + [MakeEvent(ms, cb, handle)];
    }

    /** insert: pos == numEvents() appends; a position past the end is rejected. */
    method Insert(pos: nat, e: EspEvent) returns (st: Status)
      modifies this
      ensures st == (if pos <= old(|events|) then Done else Fail(InvalidPosition))
      ensures pos <= old(|events|) ==> events == old(events[..pos]) + [e.Value()] + old(events[pos..])
      ensures pos > old(|events|) ==> events == old(events)
      ensures cursor == old(cursor) && started == old(started) && runOnceFlag == old(runOnceFlag)
      ensures fired == old(fired)
    {
      if pos == |events| {
        events := events + [e.Value()];
        return Done;
      }
      if pos > |events| {
        return Fail(InvalidPosition);
      }
      events := events[..pos] + [e.Value()] + events[pos..];
      st := Done;
    }

    /** emplace: constructs the event at pos, 0 <= pos <= numEvents(). */
    method Emplace(pos: nat, ms: nat, cb: Callback, handle: string := NullHandle) returns (st: Status)
      modifies this
      ensures st == (if pos <= old(|events|) then Done else Fail(InvalidPosition))
      ensures pos <= old(|events|) ==>
                events == old(events[..pos]) + [MakeEvent(ms, cb, handle)] + old(events[pos..])
      ensures pos > old(|events|) ==> events == old(events)
      ensures cursor == old(cursor) && started == old(started) && runOnceFlag == old(runOnceFlag)
      ensures fired == old(fired)
    {
      if pos > |events| {
        return Fail(InvalidPosition);
      }
      events := events[..pos] + [MakeEvent(ms, cb, handle)] + events[pos..];
      st := Done;
    }

    /** remove: takes the event at pos out of the chain and returns it. */
    method Remove(pos: nat) returns (r: Result<Event>)
      modifies this
      ensures pos < old(|events|) ==>
                r == Ok(old(events[pos])) && events == old(events[..pos]) + old(events[pos + 1..])
      ensures pos == old(|events|) ==> r == Err(OutOfRange) && events == old(events)
      ensures pos > old(|events|) ==> r == Err(InvalidPosition) && events == old(events)
      ensures cursor == old(cursor) && started == old(started) && runOnceFlag == old(runOnceFlag)
      ensures fired == old(fired)
    {
      if pos > |events| {
        return Err(InvalidPosition);
      }
      if pos == |events| {
        return Err(OutOfRange);
      }
      var result := events[pos];
      events := events[..pos] + events[pos + 1..];
      r := Ok(result);
    }

    /** changeTimeOf: sets the delay at pos; every other field of every event is unchanged. */
    method ChangeTimeOf(pos: nat, ms: nat) returns (st: Status)
      modifies this
      ensures pos < old(|events|) ==> st == Done && events == old(events)[pos := old(events[pos]).WithTime(ms)]
      ensures pos == old(|events|) ==> st == Fail(OutOfRange) && events == old(events)
      ensures pos > old(|events|) ==> st == Fail(InvalidPosition) && events == old(events)
      ensures cursor == old(cursor) && started == old(started) && runOnceFlag == old(runOnceFlag)
      ensures fired == old(fired)
    {
      if pos > |events| {
        return Fail(InvalidPosition);
      }
      if pos == |events| {
        return Fail(OutOfRange);
      }
      events := events[pos := events[pos].WithTime(ms)];
      st := Done;
    }

    // -------------------------------------------------------------------
    // Scheduling
    // -------------------------------------------------------------------

    /** atEndOfChain */
    predicate AtEndOfChain()
      reads this
      ensures AtEndOfChain() <==> cursor >= |events|
    {
      cursor >= |events|
    }

    /** validCurrentEvent: the cursor is on an event that has a callback. */
    predicate ValidCurrentEvent()
      reads this
      ensures ValidCurrentEvent() <==> cursor < |events| && events[cursor].HasCallback()
    {
      !AtEndOfChain() && events[cursor].HasCallback()
    }

    /** setCurrentEventTo: moves the cursor; a position past the end is rejected. */
    method SetCurrentEventTo(pos: nat) returns (st: Status)
      modifies this`cursor
      ensures st == (if pos <= |events| then Done else Fail(InvalidPosition))
      ensures cursor == if pos <= |events| then pos else old(cursor)
    {
      if pos > |events| {
        return Fail(InvalidPosition);
      }
      cursor := pos;
      st := Done;
    }

    /** _start: refuses (a no-op) at the end of the chain or when every delay is 0. */
    method StartCurrent()
      requires !started
      modifies this`started
      ensures started <==> cursor < |events| && ContainsNonzero(events)
    {
      if AtEndOfChain() {
        return;
      }
      if !ContainsNonzero(events) {
        return;
      }
      started := true;
    }

    /** Common body of startFrom and runOnceStartFrom. */
    method Begin(pos: nat, once: bool) returns (st: Status)
      requires !started
      modifies this
      ensures var r := ChainSpec.Begin(old(State()), pos, once);
              (r.Err? ==> st == Fail(r.error) && State() == old(State()))
              && (r.Ok? ==> st == Done && State() == r.value)
      ensures fired == old(fired)
    {
      st := SetCurrentEventTo(pos);
      if st.Fail? {
        return;
      }
      runOnceFlag := once;
      StartCurrent();
    }

    /** startFrom: start cycling from pos. */
    method StartFrom(pos: nat) returns (st: Status)
      requires !started
      modifies this
      ensures var r := ChainSpec.Begin(old(State()), pos, false);
              (r.Err? ==> st == Fail(r.error) && State() == old(State()))
              && (r.Ok? ==> st == Done && State() == r.value)
      ensures fired == old(fired)
    {
      st := Begin(pos, false);
    }

    /** start: startFrom(0). */
    method Start() returns (st: Status)
      requires !started
      modifies this
      ensures st == Done
      ensures State() == ChainSpec.Begin(old(State()), 0, false).value
      ensures fired == old(fired)
    {
      st := StartFrom(0);
    }

    /** runOnceStartFrom: one pass from pos to the end of the chain. */
    method RunOnceStartFrom(pos: nat) returns (st: Status)
      requires !started
      modifies this
      ensures var r := ChainSpec.Begin(old(State()), pos, true);
              (r.Err? ==> st == Fail(r.error) && State() == old(State()))
              && (r.Ok? ==> st == Done && State() == r.value)
      ensures fired == old(fired)
    {
      st := Begin(pos, true);
    }

    /** runOnce: runOnceStartFrom(0). */
    method RunOnce() returns (st: Status)
      requires !started
      modifies this
      ensures st == Done
      ensures State() == ChainSpec.Begin(old(State()), 0, true).value
      ensures fired == old(fired)
    {
      st := RunOnceStartFrom(0);
    }

    /** stop: clears the started flag; a no-op when not running. */
    method Stop()
      modifies this`started
      ensures !started
    {
      if started {
        started := false;
      }
    }

    /** advanceToNextCallable, recursive as in the source. */
    method AdvanceToNextCallable() returns (more: bool)
      requires cursor < |events|
      modifies this`cursor
      ensures (State(), more) == Advance(old(State()))
      decreases |events| - cursor
    {
      cursor := cursor + 1;
      if ValidCurrentEvent() {
        return true;
      } else if !AtEndOfChain() {
        more := AdvanceToNextCallable();
        return;
      }
      cursor := 0;
      more := !runOnceFlag;
    }

    /** One iteration of the scheduling loop; returns the delay to wait before the next one. */
    method TickOnce() returns (wait: nat)
      requires started && cursor < |events|
      modifies this
      ensures var t := Tick(old(State()));
              State() == t.state && wait == t.wait && fired == old(fired) + t.fired
    {
      // runEvent: the callback runs only when one is stored
      if events[cursor].HasCallback() {
        fired := fired + [cursor];
      }
      var more := AdvanceToNextCallable();
      if !more {
        runOnceFlag := false;
        Stop();
      }
      var t := GetTimeOf(cursor);
      wait := t.value;
    }

    /**
     * The `while (_started)` loop of the scheduling task, run for at most
     * maxTicks iterations; returns the delay waited after each iteration.
     */
    method HandleTick(maxTicks: nat) returns (waits: seq<nat>)
      requires started ==> cursor < |events|
      modifies this
      ensures var r := Run(old(State()), maxTicks);
              State() == r.state && fired == old(fired) + r.fired && waits == r.waits
    {
      waits := [];
      ghost var trace: seq<nat> := [];
      var k := 0;
      while started && k < maxTicks
        invariant 0 <= k <= maxTicks
        invariant started ==> cursor < |events|
        invariant fired == old(fired) + trace
        invariant var rest := Run(State(), maxTicks - k);
                  Run(old(State()), maxTicks) == Progress(rest.state, trace + rest.fired, waits + rest.waits)
      {
        ghost var s := State();
        ghost var t := Tick(s);
        ghost var m := maxTicks - k;
        ghost var rest := Run(t.state, m - 1);
        RunUnfold(s, m);
        var wait := TickOnce();
        assert State() == t.state && wait == t.wait;
        ConcatAssoc(trace, t.fired, rest.fired);
        ConcatAssoc(waits, [wait], rest.waits);
        ConcatAssoc(old(fired), trace, t.fired);
        trace := trace + t.fired;
        waits := waits + [wait];
        k := k + 1;
      }
    }
  }
}
