/**
 * Behaviour of the source that contradicts its own documentation, modelled
 * as written, with the input that shows each discrepancy. The rest of the
 * model uses the corrected definitions (ChainSpec.Begin, EspEvents.DefaultEvent).
 */
module ChainFindings {
  import opened EspEvents
  import opened Outcomes
  import opened ChainSpec

  /**
   * startFrom and runOnceStartFrom as written: the position check lets
   * pos == numEvents() through, runOnceStartFrom sets the run-once flag and
   * nothing but a completed pass clears it, and _start looks only at
   * emptiness and at the delays.
   */
  function BeginAsWritten(s: ChainState, pos: nat, once: bool): (r: Result<ChainState>)
    requires !s.started
    ensures r.Err? <==> pos > |s.events|
    ensures r.Ok? ==> r.value.events == s.events && r.value.cursor == pos
    ensures r.Ok? ==> (r.value.started <==> Sum(s.events) > 0)
    ensures r.Ok? ==> r.value.runOnce == (s.runOnce || once)
  {
    if pos > |s.events| then Err(InvalidPosition)
    else
      NonzeroIffPositiveTotal(s.events);
      var go := |s.events| != 0 && ContainsNonzero(s.events);
      Ok(s.(cursor := pos, runOnce := s.runOnce || once, started := go))
  }

  /** A stopped chain of one event with the given delay and callback 1. */
  function OneEvent(time: nat): (s: ChainState)
  {
    ChainState([MakeEvent(time, Callable(1))], 0, false, false)
  }

  /**
   * startFrom(1) on a one-event chain is accepted and starts the chain with
   * the cursor at end(): the first loop iteration has no event to run.
   */
  lemma StartAtEndIsAccepted()
    ensures var r := BeginAsWritten(OneEvent(10), 1, false);
            r.Ok? && r.value.started && r.value.cursor == |r.value.events|
  {
    assert OneEvent(10).events[0].time != 0;
  }

  /** Corrected: the same call is refused and the chain stays stopped. */
  lemma StartAtEndIsRefused()
    ensures var r := Begin(OneEvent(10), 1, false);
            r.Ok? && !r.value.started
  {
  }

  /**
   * runOnce() on an all-zero chain is refused but leaves the run-once flag
   * set; after changeTimeOf(0, 10) a plain start() then behaves as a run-once
   * pass, and its first iteration stops the chain.
   */
  lemma StickyRunOnce()
    ensures var s1 := BeginAsWritten(OneEvent(0), 0, true).value;
            var s2 := s1.(events := [s1.events[0].WithTime(10)]);
            var s3 := BeginAsWritten(s2, 0, false).value;
            !s1.started && s1.runOnce
            && s3.started && s3.runOnce && !Tick(s3).state.started
  {
    var s1 := BeginAsWritten(OneEvent(0), 0, true).value;
    assert !ContainsNonzero(s1.events);
    var s2 := s1.(events := [s1.events[0].WithTime(10)]);
    assert s2.events[0].time != 0;
  }

  /** Corrected: start() clears the flag, so the same sequence keeps cycling. */
  lemma StartAfterRefusedRunOnceCycles()
    ensures var s1 := Begin(OneEvent(0), 0, true).value;
            var s2 := s1.(events := [s1.events[0].WithTime(10)]);
            var s3 := Begin(s2, 0, false).value;
            !s1.started && s3.started && !s3.runOnce && Tick(s3).state.started
  {
    var s1 := Begin(OneEvent(0), 0, true).value;
    var s2 := s1.(events := [s1.events[0].WithTime(10)]);
    assert s2.events[0].time != 0;
  }

  /** EspEvent() as written initialises only the delay: the handle is left unset. */
  function DefaultHandleAsWritten(): (h: Option<string>)
    ensures h != Some(NullHandle)
  {
    None
  }

  /** The default event's documented handle is "null", which the as-written constructor never stores. */
  lemma DefaultHandleDiffers()
    ensures DefaultHandleAsWritten() != Some(DefaultEvent().handle)
  {
  }
}
