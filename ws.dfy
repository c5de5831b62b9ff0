/**
 * The part of the websocket library both servers use, and the timer bookkeeping their
 * handlers share. The library's `Sender` queues commands for its event loop; here it is an
 * object that records the effects it was asked for. Decoding UTF-8 and the library's own
 * frame validation are parameters.
 */
module Ws {
  import opened Wrappers

  /** A timeout's token, and the two the servers use. */
  datatype Token = Token(id: nat)
  const Ping: Token := Token(1)
  const Expire: Token := Token(2)

  /** The handle of a scheduled timeout, as the event loop hands it out. */
  datatype Timeout = Timeout(handle: nat)

  /** Milliseconds between pings, and of inactivity after a frame before the connection expires. */
  const PingInterval: nat := 5000
  const ActivityWindow: nat := 30000

  datatype CloseCode = Away

  /** The library's error kinds that the handlers can produce; the details of its own errors are not modelled. */
  datatype ErrorKind = Internal | Queue | Encoding
  datatype Error = Error(kind: ErrorKind, details: string)

  /** `ws::Result<()>`. */
  datatype Status = Done | Failed(error: Error)

  /** The error when the event loop no longer takes commands. */
  const QueueError: Error := Error(Queue, "")

  /** The error `from_utf8` gives, turned into a library error. */
  const EncodingError: Error := Error(Encoding, "")

  /** What `on_timeout` answers for a token it does not know. */
  const InvalidToken: Error := Error(Internal, "Invalid timeout token encountered!")

  datatype OpCode = PongCode | OtherCode
  datatype Frame = Frame(opcode: OpCode, payload: seq<bv8>)

  /** `ws::Result<Option<Frame>>`: the frame to pass on, or the error. */
  datatype FrameResult = Forward(frame: Option<Frame>) | Rejected(error: Error)

  /** The library's default frame validation. */
  type Validator = Frame -> FrameResult

  /** `std::str::from_utf8`: the text the bytes spell, if they are valid UTF-8. */
  type Utf8Decoder = seq<bv8> -> Option<string>

  datatype Message = TextMessage(text: string) | BinaryMessage(data: seq<bv8>)

  /** `Message::into_text`. */
  function IntoText(msg: Message, utf8: Utf8Decoder): (o: Option<string>)
    ensures msg.TextMessage? ==> o == Some(msg.text)
    ensures msg.BinaryMessage? ==> o == utf8(msg.data)
  {
    match msg
    case TextMessage(text) => Some(text)
    case BinaryMessage(data) => utf8(data)
  }

  /** A command given to the event loop. */
  datatype Effect =
    | Scheduled(delay: nat, token: Token)
    | Cancelled(timeout: Timeout)
    | Pinged
    | Sent(text: string)
    | Closed(code: CloseCode)
    | ShutDown

  /** `ws::Sender`: every command is queued while the event loop is running, and refused once it is not. */
  class Sender {
    const connected: bool
    var effects: seq<Effect>

    constructor (connected: bool)
      ensures this.connected == connected && effects == []
    {
      this.connected := connected;
      effects := [];
    }

    method Queue(e: Effect) returns (r: Status)
      modifies this
      ensures connected ==> r == Done && effects == old(effects) + [e]
      ensures !connected ==> r == Failed(QueueError) && effects == old(effects)
    {
      if connected {
        effects := effects + [e];
        return Done;
      }
      return Failed(QueueError);
    }
  }

  // ---------------------------------------------------------------------------------
  // The timer handlers, as functions of the held timeouts.
  // ---------------------------------------------------------------------------------

  /** The `ping_timeout` and `expire_timeout` fields. */
  datatype Slots = Slots(ping: Option<Timeout>, expire: Option<Timeout>)

  /** What a handler does: its result, the new fields and the commands it gave. */
  datatype Reaction<T> = Reaction(result: T, slots: Slots, effects: seq<Effect>)

  /** `on_open`: schedule the first ping and the expiry. */
  function OnOpen(connected: bool, slots: Slots, expireDelay: nat): Reaction<Status>
  {
    if connected then Reaction(Done, slots, [Scheduled(PingInterval, Ping), Scheduled(expireDelay, Expire)])
    else Reaction(Failed(QueueError), slots, [])
  }

  /**
   * `on_new_timeout`: hold the new handle in the slot of its token (the expiry's, or else
   * the ping's), cancelling the one held there before. If the cancel is refused the old
   * handle has been taken out and the new one is not held.
   */
  function OnNewTimeout(connected: bool, slots: Slots, token: Token, timeout: Timeout): Reaction<Status>
  {
    var held := if token == Expire then slots.expire else slots.ping;
    var cleared := if token == Expire then slots.(expire := None) else slots.(ping := None);
    var installed := if token == Expire then slots.(expire := Some(timeout)) else slots.(ping := Some(timeout));
    match held
    case None => Reaction(Done, installed, [])
    case Some(t) =>
      if connected then Reaction(Done, installed, [Cancelled(t)])
      else Reaction(Failed(QueueError), cleared, [])
  }

  /** `on_timeout`: a ping is sent and the next one scheduled; the expiry closes the connection. */
  function OnTimeout(connected: bool, slots: Slots, token: Token): Reaction<Status>
  {
    if token == Ping then
      if connected then Reaction(Done, slots.(ping := None), [Pinged, Scheduled(PingInterval, Ping)])
      else Reaction(Failed(QueueError), slots, [])
    else if token == Expire then
      if connected then Reaction(Done, slots, [Closed(Away)]) else Reaction(Failed(QueueError), slots, [])
    else Reaction(Failed(InvalidToken), slots, [])
  }

  /**
   * `on_frame`: a pong whose payload is not UTF-8 is an error; any other frame pushes the
   * expiry back and then goes through the default validation.
   */
  function OnFrame(connected: bool, slots: Slots, frame: Frame, utf8: Utf8Decoder, validate: Validator): Reaction<FrameResult>
  {
    if frame.opcode == PongCode && utf8(frame.payload).None? then Reaction(Rejected(EncodingError), slots, [])
    else if connected then Reaction(validate(frame), slots, [Scheduled(ActivityWindow, Expire)])
    else Reaction(Rejected(QueueError), slots, [])
  }

  /** The commands that cancel the held timeouts, the ping's first. */
  function CancelsOf(slots: Slots): seq<Effect>
  {
    (if slots.ping.Some? then [Cancelled(slots.ping.value)] else []) +
    (if slots.expire.Some? then [Cancelled(slots.expire.value)] else [])
  }

  /**
   * `on_close`: cancel and clear both slots, and shut the server down when `shutdown` is
   * set; a refused command is unwrapped, which panics.
   */
  function OnClose(connected: bool, slots: Slots, shutdown: bool): Reaction<Outcome<()>>
  {
    if connected then Reaction(Returned(()), Slots(None, None), CancelsOf(slots) + if shutdown then [ShutDown] else [])
    else if slots.ping.Some? then Reaction(Panicked(UnwrapPanic), slots.(ping := None), [])
    else if slots.expire.Some? then Reaction(Panicked(UnwrapPanic), Slots(None, None), [])
    else if shutdown then Reaction(Panicked(UnwrapPanic), slots, [])
    else Reaction(Returned(()), slots, [])
  }

  /** `on_error`: shut the server down. */
  function OnError(connected: bool, slots: Slots): Reaction<Outcome<()>>
  {
    if connected then Reaction(Returned(()), slots, [ShutDown]) else Reaction(Panicked(UnwrapPanic), slots, [])
  }

  // ---------------------------------------------------------------------------------
  // Properties of the handlers.
  // ---------------------------------------------------------------------------------

  /**
   * A new handle replaces the one of its kind: with the event loop running the slot of its
   * token holds it afterwards, the other slot is untouched and the only command is the
   * cancel of the handle it displaced; so at most one handle of each kind is ever held.
   */
  lemma NewTimeoutReplaces(connected: bool, slots: Slots, token: Token, timeout: Timeout)
    ensures var a := OnNewTimeout(connected, slots, token, timeout);
      && (token == Expire ==> a.slots.ping == slots.ping)
      && (token != Expire ==> a.slots.expire == slots.expire)
      && (connected ==>
            && a.result == Done
            && (token == Expire ==> a.slots.expire == Some(timeout) && a.effects == (if slots.expire.Some? then [Cancelled(slots.expire.value)] else []))
            && (token != Expire ==> a.slots.ping == Some(timeout) && a.effects == (if slots.ping.Some? then [Cancelled(slots.ping.value)] else [])))
  {
  }

  /** After `on_close` with the event loop running both slots are empty, and every handle held was cancelled. */
  lemma CloseClears(slots: Slots, shutdown: bool)
    ensures OnClose(true, slots, shutdown).slots == Slots(None, None)
    ensures forall t :: Cancelled(t) in OnClose(true, slots, shutdown).effects <==> (slots.ping == Some(t) || slots.expire == Some(t))
  {
  }

  /**
   * Every frame accepted past the UTF-8 check, pong or not, pushes the expiry back by the
   * activity window before it is validated, and leaves the fields alone.
   */
  lemma FrameRearms(slots: Slots, frame: Frame, utf8: Utf8Decoder, validate: Validator)
    requires frame.opcode != PongCode || utf8(frame.payload).Some?
    ensures OnFrame(true, slots, frame, utf8, validate) == Reaction(validate(frame), slots, [Scheduled(ActivityWindow, Expire)])
  {
  }

  // ---------------------------------------------------------------------------------
  // Runs of timer events.
  // ---------------------------------------------------------------------------------

  /** The timer events the event loop delivers: a new handle, a timeout firing, the close. */
  datatype TimerEvent = NewHandle(token: Token, timeout: Timeout) | Fired(token: Token) | Closing

  /** The fields after a run, the commands given and the handles dropped when their ping fired. */
  datatype Run = Run(slots: Slots, effects: seq<Effect>, dropped: seq<Timeout>)

  function Deliver(connected: bool, slots: Slots, ev: TimerEvent): Reaction<bool>
  {
    match ev
    case NewHandle(token, t) => var a := OnNewTimeout(connected, slots, token, t); Reaction(a.result.Done?, a.slots, a.effects)
    case Fired(token) => var a := OnTimeout(connected, slots, token); Reaction(a.result.Done?, a.slots, a.effects)
    case Closing => var a := OnClose(connected, slots, false); Reaction(a.result.Returned?, a.slots, a.effects)
  }

  /** The handles that leave the slots without a cancel: the ping's, when the ping fires. */
  function DroppedBy(slots: Slots, ev: TimerEvent): seq<Timeout>
  {
    if ev == Fired(Ping) && slots.ping.Some? then [slots.ping.value] else []
  }

  /** The events delivered in turn, with the event loop running. */
  function RunOf(slots: Slots, events: seq<TimerEvent>): Run
    decreases |events|
  {
    if events == [] then Run(slots, [], [])
    else
      var last := events[|events| - 1];
      var before := RunOf(slots, events[..|events| - 1]);
      var a := Deliver(true, before.slots, last);
      Run(a.slots, before.effects + a.effects, before.dropped + DroppedBy(before.slots, last))
  }

  /** The handles the loop handed to the server in a run. */
  function Handed(events: seq<TimerEvent>): multiset<Timeout>
  {
    if events == [] then multiset{}
    else
      var last := events[|events| - 1];
      Handed(events[..|events| - 1]) + if last.NewHandle? then multiset{last.timeout} else multiset{}
  }

  function Held(slots: Slots): multiset<Timeout>
  {
    (if slots.ping.Some? then multiset{slots.ping.value} else multiset{}) +
    (if slots.expire.Some? then multiset{slots.expire.value} else multiset{})
  }

  /** The handles cancelled by a sequence of commands. */
  function CancelledIn(effects: seq<Effect>): multiset<Timeout>
  {
    if effects == [] then multiset{}
    else
      var last := effects[|effects| - 1];
      CancelledIn(effects[..|effects| - 1]) + if last.Cancelled? then multiset{last.timeout} else multiset{}
  }

  lemma {:induction false} CancelledInAppend(a: seq<Effect>, b: seq<Effect>)
    ensures CancelledIn(a + b) == CancelledIn(a) + CancelledIn(b)
    decreases |b|
  {
    if b == [] {
      assert a + b == a;
    } else {
      assert (a + b)[..|a + b| - 1] == a + b[..|b| - 1];
      CancelledInAppend(a, b[..|b| - 1]);
    }
  }

  lemma CancelledInOne(e: Effect)
    ensures CancelledIn([e]) == if e.Cancelled? then multiset{e.timeout} else multiset{}
  {
    assert [e][..0] == [];
  }

  lemma CancelledInTwo(e: Effect, f: Effect)
    ensures CancelledIn([e, f]) == CancelledIn([e]) + CancelledIn([f])
  {
    assert [e, f] == [e] + [f];
    CancelledInAppend([e], [f]);
  }

  /** A new handle for the slot of `token` keeps the count: the old one, if any, is cancelled. */
  lemma NewHandleKeeps(slots: Slots, token: Token, t: Timeout)
    ensures var a := OnNewTimeout(true, slots, token, t);
      Held(slots) + multiset{t} == Held(a.slots) + CancelledIn(a.effects)
  {
    var a := OnNewTimeout(true, slots, token, t);
    if token == Expire {
      if slots.expire.Some? {
        assert a.effects == [Cancelled(slots.expire.value)];
        CancelledInOne(Cancelled(slots.expire.value));
      } else {
        assert a.effects == [];
      }
    } else {
      if slots.ping.Some? {
        assert a.effects == [Cancelled(slots.ping.value)];
        CancelledInOne(Cancelled(slots.ping.value));
      } else {
        assert a.effects == [];
      }
    }
  }

  /** A firing keeps the count: only the ping's handle leaves, dropped. */
  lemma FiredKeeps(slots: Slots, token: Token)
    ensures var a := OnTimeout(true, slots, token);
      Held(slots) == Held(a.slots) + CancelledIn(a.effects) + multiset(DroppedBy(slots, Fired(token)))
  {
    var a := OnTimeout(true, slots, token);
    if token == Ping {
      assert a.effects == [Pinged, Scheduled(PingInterval, Ping)];
      CancelledInTwo(Pinged, Scheduled(PingInterval, Ping));
      CancelledInOne(Pinged);
      CancelledInOne(Scheduled(PingInterval, Ping));
    } else if token == Expire {
      assert a.effects == [Closed(Away)];
      CancelledInOne(Closed(Away));
    } else {
      assert a.effects == [];
    }
  }

  /** The close keeps the count: both held handles are cancelled. */
  lemma CloseKeeps(slots: Slots)
    ensures var a := OnClose(true, slots, false);
      Held(slots) == Held(a.slots) + CancelledIn(a.effects)
  {
    var a := OnClose(true, slots, false);
    assert a.effects == CancelsOf(slots) + [];
    var p := if slots.ping.Some? then [Cancelled(slots.ping.value)] else [];
    var e := if slots.expire.Some? then [Cancelled(slots.expire.value)] else [];
    assert a.effects == p + e;
    CancelledInAppend(p, e);
    if slots.ping.Some? {
      CancelledInOne(Cancelled(slots.ping.value));
    }
    if slots.expire.Some? {
      CancelledInOne(Cancelled(slots.expire.value));
    }
  }

  /** One event keeps the count of handles: each one was held, is held, was cancelled or was dropped. */
  lemma DeliverKeeps(slots: Slots, ev: TimerEvent)
    ensures Held(slots) + (if ev.NewHandle? then multiset{ev.timeout} else multiset{}) ==
      Held(Deliver(true, slots, ev).slots) + CancelledIn(Deliver(true, slots, ev).effects) + multiset(DroppedBy(slots, ev))
  {
    match ev
    case NewHandle(token, t) =>
      NewHandleKeeps(slots, token, t);
      assert Deliver(true, slots, ev).slots == OnNewTimeout(true, slots, token, t).slots;
      assert Deliver(true, slots, ev).effects == OnNewTimeout(true, slots, token, t).effects;
      assert DroppedBy(slots, ev) == [];
    case Fired(token) =>
      FiredKeeps(slots, token);
      assert Deliver(true, slots, ev).slots == OnTimeout(true, slots, token).slots;
      assert Deliver(true, slots, ev).effects == OnTimeout(true, slots, token).effects;
    case Closing =>
      CloseKeeps(slots);
      assert Deliver(true, slots, ev).slots == OnClose(true, slots, false).slots;
      assert Deliver(true, slots, ev).effects == OnClose(true, slots, false).effects;
      assert DroppedBy(slots, ev) == [];
  }

  /**
   * No handle is lost while the event loop runs: each one the loop handed over, or that was
   * held at the start, is still held, was cancelled, or fired as the ping.
   */
  lemma {:induction false} HandlesConserved(slots: Slots, events: seq<TimerEvent>)
    ensures Held(slots) + Handed(events) ==
      Held(RunOf(slots, events).slots) + CancelledIn(RunOf(slots, events).effects) + multiset(RunOf(slots, events).dropped)
    decreases |events|
  {
    if events != [] {
      var init := events[..|events| - 1];
      var last := events[|events| - 1];
      var before := RunOf(slots, init);
      var a := Deliver(true, before.slots, last);
      HandlesConserved(slots, init);
      DeliverKeeps(before.slots, last);
      CancelledInAppend(before.effects, a.effects);
      Rebalance(Held(slots), Handed(init), if last.NewHandle? then multiset{last.timeout} else multiset{},
                Held(before.slots), CancelledIn(before.effects), multiset(before.dropped),
                Held(a.slots), CancelledIn(a.effects), multiset(DroppedBy(before.slots, last)));
    }
  }

  /** The bookkeeping step of the count: what was accounted for before, plus what one event accounts for. */
  lemma Rebalance<T>(h0: multiset<T>, hi: multiset<T>, x: multiset<T>, hb: multiset<T>, cb: multiset<T>, db: multiset<T>,
                     ha: multiset<T>, ca: multiset<T>, da: multiset<T>)
    requires h0 + hi == hb + cb + db
    requires hb + x == ha + ca + da
    ensures h0 + (hi + x) == ha + (cb + ca) + (db + da)
  {
    forall o
      ensures (h0 + (hi + x))[o] == (ha + (cb + ca) + (db + da))[o]
    {
      assert (h0 + hi)[o] == (hb + cb + db)[o];
      assert (hb + x)[o] == (ha + ca + da)[o];
    }
  }

  /** A run that ends with the close leaves no handle held. */
  lemma {:induction false} ClosedRunHoldsNothing(slots: Slots, events: seq<TimerEvent>)
    requires events != [] && events[|events| - 1] == Closing
    ensures RunOf(slots, events).slots == Slots(None, None)
  {
    CloseClears(RunOf(slots, events[..|events| - 1]).slots, false);
  }

  /**
   * Once the event loop refuses commands a handle is lost: a new handle arriving while its
   * token's slot holds one takes the old one out, sends no cancel for it and does not hold
   * the new one; the other slot is kept.
   */
  lemma {:induction false} LostWhenRefused(slots: Slots, token: Token, timeout: Timeout)
    requires (if token == Expire then slots.expire else slots.ping).Some?
    ensures var a := OnNewTimeout(false, slots, token, timeout);
      && a.result == Failed(QueueError) && a.effects == []
      && (token == Expire ==> a.slots == Slots(slots.ping, None))
      && (token != Expire ==> a.slots == Slots(None, slots.expire))
  {
  }
}
