/**
 * One timed event of a chain: a delay measured from the preceding event, an
 * optional callback and a text handle used for lookup.
 */
module EspEvents {
  import opened Outcomes

  /** Callbacks are abstract: a stored std::function is identified by a number. */
  type CallbackId = nat

  /** An empty std::function, or a callable one. */
  datatype Callback = Empty | Callable(id: CallbackId)

  /** The handle an event gets when none is supplied; it never matches a lookup. */
  const NullHandle: string := "null"

  /** The value of an event, as it is copied into a chain. */
  datatype Event = Event(time: nat, callback: Callback, handle: string) {

    /** operator bool: a callable function is stored. */
    predicate HasCallback() {
      callback.Callable?
    }

    /** The value setTime(ms) leaves behind: only the delay changes. */
    function WithTime(ms: nat): (e: Event)
      ensures e.time == ms
      ensures e.callback == callback && e.handle == handle
    {
      this.(time := ms)
    }

    /** The value setCallback(cb) leaves behind: only the callback changes. */
    function WithCallback(cb: Callback): (e: Event)
      ensures e.callback == cb && (e.HasCallback() <==> cb.Callable?)
      ensures e.time == time && e.handle == handle
    {
      this.(callback := cb)
    }
  }

  /** EspEvent(ms, cb, handle = "null"): stores its arguments unchanged. */
  function MakeEvent(ms: nat, cb: Callback, handle: string := NullHandle): (e: Event)
    ensures e.time == ms && e.callback == cb && e.handle == handle
    ensures e.HasCallback() <==> cb.Callable?
  {
    Event(ms, cb, handle)
  }

  /** EspEvent(): no callback, delay 0, and the documented default handle. */
  function DefaultEvent(): (e: Event)
    ensures e.time == 0 && !e.HasCallback()
    ensures e.handle == NullHandle
  {
    Event(0, Empty, NullHandle)
  }

  /** The callbacks runEvent invokes: the stored one exactly once, or none. */
  function Invocations(e: Event): (calls: seq<CallbackId>)
    ensures |calls| <= 1
    ensures |calls| == 1 <==> e.HasCallback()
    ensures forall id :: id in calls <==> e.callback == Callable(id)
  {
    match e.callback
    case Empty => []
    case Callable(id) => [id]
  }

  /** An event object whose delay and callback are updated in place. */
  class EspEvent {
    const handle: string
    var time: nat
    var callback: Callback

    /** The value a chain copies out of this object. */
    function Value(): (e: Event)
      reads this
    {
      Event(time, callback, handle)
    }

    constructor Default()
      ensures Value() == DefaultEvent()
    {
      handle := NullHandle;
      time := 0;
      callback := Empty;
    }

    constructor (ms: nat, cb: Callback, h: string := NullHandle)
      ensures Value() == MakeEvent(ms, cb, h)
    {
      handle := h;
      time := ms;
      callback := cb;
    }

    /** operator bool */
    predicate IsCallable()
      reads this
      ensures IsCallable() <==> callback != Empty
    {
      Value().HasCallback()
    }

    function GetTime(): (t: nat)
      reads this
      ensures t == Value().time
    {
      time
    }

    function GetHandle(): (h: string)
      reads this
      ensures h == Value().handle
    {
      handle
    }

    /** Calls the callback if one is stored; returns the calls made. */
    method RunEvent() returns (calls: seq<CallbackId>)
      ensures calls == Invocations(Value())
    {
      calls := [];
      if IsCallable() {
        calls := [callback.id];
      }
    }

    /** Sets the delay in place and returns this object for chaining. */
    method SetTime(ms: nat) returns (self: EspEvent)
      modifies this
      ensures self == this
      ensures Value() == old(Value()).WithTime(ms)
    {
      time := ms;
      self := this;
    }

    /** Replaces the callback in place and returns this object for chaining. */
    method SetCallback(cb: Callback) returns (self: EspEvent)
      modifies this
      ensures self == this
      ensures Value() == old(Value()).WithCallback(cb)
    {
      callback := cb;
      self := this;
    }
  }
}
