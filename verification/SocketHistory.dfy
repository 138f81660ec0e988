// What became of a socket, told by what happened to it: the events of a run, and every call that
// its owner made in their course, with the socket as that call found it.
module SocketHistory {
  import opened Socket

  // ----- the calls of the owner ----------------------------------------------------------------

  datatype Found = Found(socket: Socket, action: Action)

  // A call, and those in the reply to it.
  ghost function CallsOf(limits: Limits, s: Socket, a: Action): seq<Found>
    decreases a, 0
  {
    [Found(s, a)] + if Overflows(limits, s, a) then CallsIn(limits, s, a.reply) else []
  }

  ghost function CallsIn(limits: Limits, s: Socket, script: seq<Action>): seq<Found>
    decreases script, 0
  {
    if script == [] then []
    else CallsOf(limits, s, script[0]) + CallsIn(limits, Act(limits, s, script[0]), script[1..])
  }

  // The owner is told of what was read, and then of the end.
  ghost function CallsAtRead(limits: Limits, s: Socket, e: Event): seq<Found>
    requires e.Received?
  {
    var n := if e.count > 0 then Play(limits, s, e.onData) else s;
    (if e.count > 0 then CallsIn(limits, s, e.onData) else [])
    + (if e.code != Success then CallsIn(limits, n, e.onEnd) else [])
  }

  ghost predicate Eases(limits: Limits, s: Socket, e: Event)
    requires e.Sent?
  {
    limits.congestion > 0 && |s.buffer| - e.count < limits.congestion
  }

  ghost function CallsAt(limits: Limits, s: Socket, e: Event): seq<Found>
    requires Enabled(s, e)
  {
    match e
    case Opened => []
    case Call(a) => CallsOf(limits, s, a)
    case Received(code, _, _, _) =>
      if code == Aborted || s.state == Closed then [] else CallsAtRead(limits, ReadEnded(s), e)
    case Sent(code, count, onEase) =>
      if code == Aborted || s.state == Closed || !Eases(limits, s, e) then []
      else CallsIn(limits, AfterConfirm(WriteEnded(s), count), onEase)
    case Flushed => []
    case TimedOut(reply) => CallsIn(limits, s, reply)
  }

  ghost function Calls(limits: Limits, s: Socket, run: seq<Event>): seq<Found>
    requires CanRun(limits, s, run)
    decreases run
  {
    if run == [] then [] else CallsAt(limits, s, run[0]) + Calls(limits, Step(limits, s, run[0]), run[1..])
  }

  // ----- what calls amount to ------------------------------------------------------------------

  // The call found the socket open for output.
  ghost predicate Takes(f: Found) {
    f.socket.state != Closed && f.socket.state != HalfClosedLocal
  }

  // Output takes its data unless the buffer is full.
  ghost function TakenBy(limits: Limits, f: Found): seq<byte> {
    if f.action.Output? && Takes(f) && !(limits.buffer > 0 && |f.socket.buffer| >= limits.buffer) then f.action.data
    else []
  }

  ghost function Taken(limits: Limits, calls: seq<Found>): seq<byte> {
    if calls == [] then [] else Taken(limits, calls[..|calls| - 1]) + TakenBy(limits, calls[|calls| - 1])
  }

  // The last call of the tap counts.
  ghost function PausedBy(was: bool, calls: seq<Found>): bool {
    if calls == [] then was
    else match calls[|calls| - 1].action
      case TapOpen => false
      case TapClose => true
      case _ => PausedBy(was, calls[..|calls| - 1])
  }

  // The first end that finds the socket open for output counts.
  ghost function EndedBy(was: Stored, calls: seq<Found>): Stored {
    if calls == [] then was
    else
      var before, f := EndedBy(was, calls[..|calls| - 1]), calls[|calls| - 1];
      if before == None && f.action.Finish? && Takes(f) then Some(f.action.ending) else before
  }

  // The owner closed the socket, or output overflowed.
  ghost predicate ClosesIt(limits: Limits, f: Found) {
    f.action.Shut? || Overflows(limits, f.socket, f.action)
  }

  ghost predicate ClosedBy(limits: Limits, calls: seq<Found>) {
    exists f :: f in calls && ClosesIt(limits, f)
  }

  lemma {:induction false} TwoParts(limits: Limits, a: seq<Found>, b: seq<Found>, paused: bool, eos: Stored)
    ensures Taken(limits, a + b) == Taken(limits, a) + Taken(limits, b)
    ensures PausedBy(paused, a + b) == PausedBy(PausedBy(paused, a), b)
    ensures EndedBy(eos, a + b) == EndedBy(EndedBy(eos, a), b)
    ensures ClosedBy(limits, a + b) <==> ClosedBy(limits, a) || ClosedBy(limits, b)
    decreases |b|
  {
    if b == [] {
      assert a + b == a;
    } else {
      var most, f := b[..|b| - 1], b[|b| - 1];
      assert (a + b)[..|a + b| - 1] == a + most && (a + b)[|a + b| - 1] == f;
      TwoParts(limits, a, most, paused, eos);
      Assoc(Taken(limits, a), Taken(limits, most), TakenBy(limits, f));
    }
    ClosedByParts(limits, a, b);
  }

  lemma Assoc(a: seq<byte>, b: seq<byte>, c: seq<byte>)
    ensures a + b + c == a + (b + c)
  {
  }

  lemma ClosedByParts(limits: Limits, a: seq<Found>, b: seq<Found>)
    ensures ClosedBy(limits, a + b) <==> ClosedBy(limits, a) || ClosedBy(limits, b)
  {
    assert forall f :: f in a + b <==> f in a || f in b;
  }

  // What calls do to a socket: no more than this.
  ghost predicate Follows(limits: Limits, s: Socket, n: Socket, calls: seq<Found>) {
    && n.accepted == s.accepted + Taken(limits, calls) && n.buffer == s.buffer + Taken(limits, calls)
    && n.paused == PausedBy(s.paused, calls) && n.eos == EndedBy(s.eos, calls)
    && n.state == (if ClosedBy(limits, calls) then Closed else s.state)
    && n.wasOpened == s.wasOpened && n.sending == s.sending && n.inflight == s.inflight
    && n.written == s.written && n.shutdowns == s.shutdowns
  }

  lemma FollowsNone(limits: Limits, s: Socket)
    ensures Follows(limits, s, s, [])
  {
    assert s.accepted + [] == s.accepted && s.buffer + [] == s.buffer;
  }

  lemma FollowsBoth(limits: Limits, s: Socket, t: Socket, n: Socket, a: seq<Found>, b: seq<Found>)
    requires Follows(limits, s, t, a) && Follows(limits, t, n, b)
    ensures Follows(limits, s, n, a + b)
  {
    TwoParts(limits, a, b, s.paused, s.eos);
    Assoc(s.accepted, Taken(limits, a), Taken(limits, b));
    Assoc(s.buffer, Taken(limits, a), Taken(limits, b));
  }

  lemma OneCall(limits: Limits, f: Found, paused: bool, eos: Stored)
    ensures Taken(limits, [f]) == TakenBy(limits, f) && (ClosedBy(limits, [f]) <==> ClosesIt(limits, f))
    ensures PausedBy(paused, [f]) == if f.action.TapOpen? then false else if f.action.TapClose? then true else paused
    ensures EndedBy(eos, [f]) == if eos == None && f.action.Finish? && Takes(f) then Some(f.action.ending) else eos
  {
    assert [f][..0] == [] && f in [f];
    assert PausedBy(paused, []) == paused && EndedBy(eos, []) == eos;
  }

  // As far as the calls of the owner are concerned, but for the state.
  ghost predicate Same(s: Socket, n: Socket) {
    && n.accepted == s.accepted && n.written == s.written && n.paused == s.paused && n.eos == s.eos
    && n.wasOpened == s.wasOpened && n.buffer == s.buffer
  }

  lemma ReceiveIsSame(s: Socket)
    ensures Same(s, AfterReceive(s)) && AfterReceive(s).state == s.state
    ensures AfterReceive(s).sending == s.sending && AfterReceive(s).inflight == s.inflight
    ensures AfterReceive(s).shutdowns == s.shutdowns
    ensures s.paused ==> AfterReceive(s).receiving == s.receiving
  {
  }

  lemma NeedFlushIsSame(s: Socket)
    ensures Same(s, AfterNeedFlush(s)) && AfterNeedFlush(s).state == s.state
    ensures AfterNeedFlush(s).sending == s.sending && AfterNeedFlush(s).inflight == s.inflight
    ensures AfterNeedFlush(s).shutdowns == s.shutdowns
  {
  }

  lemma CloseChangesNothing(s: Socket)
    ensures var n := AfterClose(s);
      && n.accepted == s.accepted && n.buffer == s.buffer && n.paused == s.paused && n.eos == s.eos
      && n.wasOpened == s.wasOpened && n.sending == s.sending && n.inflight == s.inflight
      && n.written == s.written && n.shutdowns == s.shutdowns && n.state == Closed
  {
  }

  lemma OutputFollows(limits: Limits, s: Socket, a: Action)
    requires a.Output? && !Overflows(limits, s, a)
    ensures Follows(limits, s, Act(limits, s, a), [Found(s, a)])
  {
    OneCall(limits, Found(s, a), s.paused, s.eos);
    assert s.buffer + [] == s.buffer && s.accepted + [] == s.accepted;
    if Takes(Found(s, a)) && a.data != [] {
      NeedFlushIsSame(s.(buffer := s.buffer + a.data, accepted := s.accepted + a.data));
    } else {
      assert a.data == [] ==> TakenBy(limits, Found(s, a)) == [];
      assert Act(limits, s, a) == s;
    }
  }

  lemma OverflowFollows(limits: Limits, s: Socket, a: Action)
    requires Overflows(limits, s, a)
    ensures Follows(limits, s, Act(limits, s, a), CallsOf(limits, s, a))
    decreases a, 0
  {
    var f := Found(s, a);
    OneCall(limits, f, s.paused, s.eos);
    FollowsNone(limits, s);
    PlayFollows(limits, s, a.reply);
    var t, more := Play(limits, s, a.reply), CallsIn(limits, s, a.reply);
    TwoParts(limits, [f], more, s.paused, s.eos);
    assert [] + Taken(limits, more) == Taken(limits, more);
    CloseChangesNothing(t);
  }

  lemma ShutFollows(limits: Limits, s: Socket)
    ensures Follows(limits, s, Act(limits, s, Shut), [Found(s, Shut)])
  {
    OneCall(limits, Found(s, Shut), s.paused, s.eos);
    assert s.buffer + [] == s.buffer && s.accepted + [] == s.accepted;
    CloseChangesNothing(s);
  }

  lemma FinishFollows(limits: Limits, s: Socket, ending: Ending)
    ensures Follows(limits, s, Act(limits, s, Finish(ending)), [Found(s, Finish(ending))])
  {
    var f := Found(s, Finish(ending));
    OneCall(limits, f, s.paused, s.eos);
    assert s.buffer + [] == s.buffer && s.accepted + [] == s.accepted;
    if Takes(f) {
      var n := if s.eos == None then s.(eos := Some(ending)) else s;
      NeedFlushIsSame(n);
    }
  }

  lemma TapFollows(limits: Limits, s: Socket, a: Action)
    requires a.TapOpen? || a.TapClose?
    ensures Follows(limits, s, Act(limits, s, a), [Found(s, a)])
  {
    OneCall(limits, Found(s, a), s.paused, s.eos);
    assert s.buffer + [] == s.buffer && s.accepted + [] == s.accepted;
    if a.TapOpen? {
      ReceiveIsSame(s.(paused := false));
    }
  }

  lemma ActFollows(limits: Limits, s: Socket, a: Action)
    ensures Follows(limits, s, Act(limits, s, a), CallsOf(limits, s, a))
    decreases a, 1
  {
    if Overflows(limits, s, a) {
      OverflowFollows(limits, s, a);
    } else {
      assert CallsOf(limits, s, a) == [Found(s, a)];
      if a.Output? {
        OutputFollows(limits, s, a);
      } else {
        match a
        case Shut => ShutFollows(limits, s);
        case Finish(ending) => FinishFollows(limits, s, ending);
        case _ => TapFollows(limits, s, a);
      }
    }
  }

  lemma {:induction false} PlayFollows(limits: Limits, s: Socket, script: seq<Action>)
    ensures Follows(limits, s, Play(limits, s, script), CallsIn(limits, s, script))
    decreases script, 0
  {
    if script == [] {
      FollowsNone(limits, s);
    } else {
      var t := Act(limits, s, script[0]);
      ActFollows(limits, s, script[0]);
      PlayFollows(limits, t, script[1..]);
      FollowsBoth(limits, s, t, Play(limits, t, script[1..]), CallsOf(limits, s, script[0]),
                  CallsIn(limits, t, script[1..]));
    }
  }

  // ----- what an event does --------------------------------------------------------------------

  // What the system confirms.
  ghost function ConfirmedAt(s: Socket, e: Event): seq<byte>
    requires Enabled(s, e)
  {
    if e.Sent? && e.code != Aborted && s.state != Closed then s.inflight[..e.count] else []
  }

  // Where an end leads when all was sent.
  ghost function Ended(state: State, eos: Stored): State {
    match eos
    case None => state
    case Some(Failed) => Closed
    case Some(NoError) =>
      if state == Open then HalfClosedLocal else if state == HalfClosedRemote then Closed else state
  }

  const LAST := Shutdown([], Some(NoError))

  ghost predicate CanSend(s: Socket) {
    (s.state == Open || s.state == HalfClosedRemote) && !s.sending
  }

  // A write is of all that is in the buffer.
  ghost predicate StartsWrite(s: Socket, n: Socket) {
    n.sending && n.inflight == s.buffer && s.buffer != []
  }

  // Nothing would be left in the buffer.
  ghost predicate AllSent(limits: Limits, s: Socket, e: Event)
    requires Enabled(s, e)
  {
    |s.buffer| + |Taken(limits, CallsAt(limits, s, e))| == |ConfirmedAt(s, e)|
  }

  // It comes to the point where an end is looked at.
  ghost predicate EndsAt(limits: Limits, s: Socket, e: Event)
    requires Enabled(s, e)
  {
    && AllSent(limits, s, e)
    && (e.Opened?
        || (e.Sent? && e.code == Success && s.state != Closed && !ClosedBy(limits, CallsAt(limits, s, e)))
        || (e.Flushed? && CanSend(s)))
  }

  // The next state. Opening aside, CLOSED is for good.
  ghost function StateAt(limits: Limits, s: Socket, e: Event): State
    requires Enabled(s, e)
  {
    if EndsAt(limits, s, e) then
      Ended(if e.Opened? then Open else s.state, EndedBy(s.eos, CallsAt(limits, s, e)))
    else if e.Opened? then Open
    else if s.state == Closed || ClosedBy(limits, CallsAt(limits, s, e)) then Closed
    else match e
      case Received(Success, _, _, _) => s.state
      case Received(Eof, _, _, _) =>
        if s.state == Open then HalfClosedRemote else if s.state == HalfClosedLocal then Closed else s.state
      case Received(_, _, _, _) => Closed
      case Sent(code, _, _) => if code != Success then Closed else s.state
      case TimedOut(_) => Closed
      case _ => s.state
  }

  ghost predicate Told(limits: Limits, s: Socket, e: Event, n: Socket)
    requires Enabled(s, e)
  {
    var calls := CallsAt(limits, s, e);
    && n.accepted == s.accepted + Taken(limits, calls) && n.written == s.written + ConfirmedAt(s, e)
    && n.paused == PausedBy(s.paused, calls) && n.eos == EndedBy(s.eos, calls)
    && n.wasOpened == (s.wasOpened || e.Opened?)
    && n.state == StateAt(limits, s, e) && WritesAll(s, e, n)
    && n.shutdowns == s.shutdowns +
       (if EndsAt(limits, s, e) && EndedBy(s.eos, calls) == Some(NoError) then [LAST] else [])
  }

  // A write that is started is of all that is in the buffer, and goes on until it has ended.
  ghost predicate WritesAll(s: Socket, e: Event, n: Socket) {
    && (n.sending && (e.Sent? || !s.sending) ==> n.inflight == n.buffer && n.buffer != [])
    && (!e.Sent? && s.sending ==> n.sending && n.inflight == s.inflight)
  }

  lemma CloseAsyncIsSame(s: Socket)
    ensures Same(s, AfterCloseAsync(s)) && AfterCloseAsync(s).state == s.state
    ensures AfterCloseAsync(s).receiving == s.receiving && AfterCloseAsync(s).sending == s.sending
    ensures AfterCloseAsync(s).inflight == s.inflight && AfterCloseAsync(s).shutdowns == s.shutdowns
  {
  }

  lemma CloseIsSame(s: Socket)
    ensures Same(s, AfterCloseNow(s)) && AfterCloseNow(s).state == Closed
    ensures AfterCloseNow(s).receiving == s.receiving && AfterCloseNow(s).sending == s.sending
    ensures AfterCloseNow(s).inflight == s.inflight && AfterCloseNow(s).shutdowns == s.shutdowns
    ensures Same(s, AfterClose(s)) && AfterClose(s).state == Closed
    ensures AfterClose(s).receiving == s.receiving && AfterClose(s).sending == s.sending
    ensures AfterClose(s).inflight == s.inflight && AfterClose(s).shutdowns == s.shutdowns
  {
    CloseAsyncIsSame(AfterCloseNow(s));
  }

  lemma ShutdownIsSame(s: Socket)
    ensures Same(s, AfterShutdown(s)) && AfterShutdown(s).state == s.state
    ensures AfterShutdown(s).receiving == s.receiving && AfterShutdown(s).sending == s.sending
    ensures AfterShutdown(s).inflight == s.inflight
    ensures AfterShutdown(s).shutdowns == s.shutdowns + if s.isOpen then [Shutdown(s.buffer, s.eos)] else []
  {
  }

  lemma SendEnds(s: Socket)
    requires CanSend(s) && s.buffer == [] && s.isOpen
    ensures var n := AfterSend(s);
      && Same(s, n) && n.receiving == s.receiving && n.state == Ended(s.state, s.eos)
      && n.sending == s.sending && n.inflight == s.inflight
      && n.shutdowns == s.shutdowns + (if s.eos == Some(NoError) then [LAST] else [])
  {
    if s.eos == Some(NoError) {
      ShutdownIsSame(s);
      CloseIsSame(AfterShutdown(s));
    } else if s.eos != None {
      CloseIsSame(s);
    }
  }

  lemma SendWrites(s: Socket)
    requires CanSend(s) && s.buffer != []
    ensures var n := AfterSend(s);
      && Same(s, n) && n.receiving == s.receiving && n.state == s.state && StartsWrite(s, n)
      && n.shutdowns == s.shutdowns
  {
  }

  lemma SendTells(s: Socket)
    requires CanSend(s) ==> s.isOpen
    ensures var n := AfterSend(s);
      && n.shutdowns == s.shutdowns + (if CanSend(s) && s.buffer == [] && s.eos == Some(NoError) then [LAST] else [])
      && Same(s, n) && n.receiving == s.receiving
      && n.state == (if CanSend(s) && s.buffer == [] then Ended(s.state, s.eos) else s.state)
      && (if CanSend(s) && s.buffer != [] then StartsWrite(s, n)
          else n.sending == s.sending && n.inflight == s.inflight)
  {
    if CanSend(s) {
      if s.buffer == [] {
        SendEnds(s);
      } else {
        SendWrites(s);
      }
    } else {
      assert AfterSend(s) == s;
    }
  }

  lemma SendOnTells(s: Socket)
    requires !s.sending && s.state != Idle && s.state != HalfClosedLocal && (s.isOpen <==> s.state != Closed)
    ensures var n := AfterSendOn(s);
      && n.shutdowns == s.shutdowns + (if CanSend(s) && s.buffer == [] && s.eos == Some(NoError) then [LAST] else [])
      && Same(s, n) && n.receiving == s.receiving
      && n.state == (if s.state != Closed && s.buffer == [] then Ended(s.state, s.eos)
                     else if s.state == Closed && s.buffer == [] then Closed else s.state)
      && (if CanSend(s) && s.buffer != [] then StartsWrite(s, n)
          else n.sending == s.sending && n.inflight == s.inflight)
  {
    if s.buffer != [] {
      SendTells(s);
    } else if s.eos == Some(NoError) {
      ShutdownIsSame(s);
      CloseIsSame(AfterShutdown(s));
    } else if s.eos != None {
      CloseIsSame(s);
    }
  }

  lemma EndTells(s: Socket, code: Code)
    requires code != Success
    ensures var n := AfterEnd(s, code);
      && Same(s, n) && n.receiving == s.receiving && n.sending == s.sending && n.inflight == s.inflight
      && n.shutdowns == s.shutdowns && n.state ==
        if code != Eof || s.state == HalfClosedLocal then Closed
        else if s.state == Open then HalfClosedRemote else s.state
  {
    CloseIsSame(s);
  }

  lemma PassingFollows(limits: Limits, s: Socket, e: Event)
    requires e.Received?
    ensures Follows(limits, s, AfterPassing(limits, s, e), CallsAtRead(limits, s, e))
  {
    var n := if e.count > 0 then Play(limits, s, e.onData) else s;
    var a := if e.count > 0 then CallsIn(limits, s, e.onData) else [];
    var b := if e.code != Success then CallsIn(limits, n, e.onEnd) else [];
    PlayFollows(limits, s, e.onData);
    PlayFollows(limits, n, e.onEnd);
    FollowsNone(limits, s);
    FollowsNone(limits, n);
    FollowsBoth(limits, s, n, AfterPassing(limits, s, e), a, b);
  }

  lemma NoCalls(limits: Limits, s: Socket)
    ensures Taken(limits, []) == [] && !ClosedBy(limits, [])
    ensures PausedBy(s.paused, []) == s.paused && EndedBy(s.eos, []) == s.eos
    ensures s.accepted + [] == s.accepted && s.written + [] == s.written && s.buffer + [] == s.buffer
    ensures s.shutdowns + [] == s.shutdowns
  {
  }

  lemma OpenTells(limits: Limits, s: Socket)
    requires Inv(s) && Enabled(s, Opened)
    ensures Told(limits, s, Opened, AfterOpen(s))
  {
    NoCalls(limits, s);
    var m := Opening(s);
    SendTells(m);
    var n := if m.eos == None then m else AfterSend(m);
    if n.state != Closed {
      NeedFlushIsSame(n);
      ReceiveIsSame(if n.buffer == [] then n else AfterNeedFlush(n));
    }
  }

  lemma CallTells(limits: Limits, s: Socket, a: Action)
    requires Inv(s)
    ensures Told(limits, s, Call(a), Act(limits, s, a))
  {
    ActFollows(limits, s, a);
    NoCalls(limits, s);
  }

  // A read that has ended for a socket that is closed tells nobody.
  lemma LateReadTells(limits: Limits, s: Socket, e: Event)
    requires Inv(s) && e.Received? && Enabled(s, e) && s.state == Closed
    ensures Told(limits, s, e, AfterOnReceive(limits, s, e))
  {
    NoCalls(limits, s);
    CloseAsyncIsSame(ReadEnded(s));
  }

  lemma ReadTells(limits: Limits, s: Socket, e: Event)
    requires Inv(s) && e.Received? && Enabled(s, e) && s.state != Closed
    ensures Told(limits, s, e, AfterOnReceive(limits, s, e))
  {
    var r := ReadEnded(s);
    var p := AfterPassing(limits, r, e);
    PassingFollows(limits, r, e);
    NoCalls(limits, s);
    var n := AfterInput(limits, r, e);
    if e.code == Success {
      ReceiveIsSame(p);
    } else {
      EndTells(p, e.code);
    }
    CloseAsyncIsSame(n);
  }

  lemma LateWriteTells(limits: Limits, s: Socket, e: Event)
    requires Inv(s) && e.Sent? && Enabled(s, e) && s.state == Closed
    ensures Told(limits, s, e, AfterOnSend(limits, s, e))
  {
    NoCalls(limits, s);
    CloseAsyncIsSame(WriteEnded(s).(inflight := []));
  }

  // What is left of the buffer.
  lemma EaseTells(limits: Limits, s: Socket, e: Event)
    requires Inv(s) && e.Sent? && Enabled(s, e) && s.state != Closed
    ensures var c := AfterConfirm(WriteEnded(s), e.count); var k := AfterEase(limits, c, e.onEase);
      && Follows(limits, c, k, CallsAt(limits, s, e))
      && |k.buffer| + e.count == |s.buffer| + |Taken(limits, CallsAt(limits, s, e))|
  {
    var c := AfterConfirm(WriteEnded(s), e.count);
    PlayFollows(limits, c, e.onEase);
    FollowsNone(limits, c);
  }

  ghost function Eased(limits: Limits, s: Socket, e: Event): Socket
    requires e.Sent? && Enabled(s, e)
  {
    AfterEase(limits, AfterConfirm(WriteEnded(s), e.count), e.onEase)
  }

  lemma EasedIsReady(limits: Limits, s: Socket, e: Event)
    requires Inv(s) && e.Sent? && Enabled(s, e) && s.state != Closed
    ensures var k := Eased(limits, s, e);
      !k.sending && k.state != Idle && k.state != HalfClosedLocal && (k.isOpen <==> k.state != Closed)
  {
    WriteEndedKeeps(s);
    ConfirmKeeps(WriteEnded(s), e.count);
    EaseKeeps(limits, AfterConfirm(WriteEnded(s), e.count), e.onEase);
  }

  lemma FailedWriteTells(limits: Limits, s: Socket, e: Event)
    requires Inv(s) && e.Sent? && Enabled(s, e) && s.state != Closed && e.code != Success
    ensures Told(limits, s, e, AfterOnSend(limits, s, e))
  {
    EasedIsReady(limits, s, e);
    EaseTells(limits, s, e);
    NoCalls(limits, s);
    CloseIsSame(Eased(limits, s, e));
    CloseAsyncIsSame(AfterOutput(limits, WriteEnded(s), e));
  }

  lemma GoodWriteTells(limits: Limits, s: Socket, e: Event)
    requires Inv(s) && e.Sent? && Enabled(s, e) && s.state != Closed && e.code == Success
    ensures Told(limits, s, e, AfterOnSend(limits, s, e))
  {
    EasedIsReady(limits, s, e);
    EaseTells(limits, s, e);
    NoCalls(limits, s);
    SendOnTells(Eased(limits, s, e));
    CloseAsyncIsSame(AfterOutput(limits, WriteEnded(s), e));
  }

  lemma WriteTells(limits: Limits, s: Socket, e: Event)
    requires Inv(s) && e.Sent? && Enabled(s, e) && s.state != Closed
    ensures Told(limits, s, e, AfterOnSend(limits, s, e))
  {
    if e.code == Success {
      GoodWriteTells(limits, s, e);
    } else {
      FailedWriteTells(limits, s, e);
    }
  }

  lemma FlushTells(limits: Limits, s: Socket)
    requires Inv(s) && Enabled(s, Flushed)
    ensures Told(limits, s, Flushed, AfterSend(s.(flush := false)))
  {
    NoCalls(limits, s);
    SendTells(s.(flush := false));
  }

  lemma TimeTells(limits: Limits, s: Socket, reply: seq<Action>)
    requires Inv(s) && Enabled(s, TimedOut(reply))
    ensures Told(limits, s, TimedOut(reply), AfterClose(Play(limits, s, reply)))
  {
    PlayFollows(limits, s, reply);
    CloseIsSame(Play(limits, s, reply));
    NoCalls(limits, s);
  }

  lemma StepTells(limits: Limits, s: Socket, e: Event)
    requires Inv(s) && Enabled(s, e)
    ensures Told(limits, s, e, Step(limits, s, e))
  {
    match e
    case Opened => OpenTells(limits, s);
    case Call(a) => CallTells(limits, s, a);
    case Received(_, _, _, _) =>
      if s.state == Closed {
        LateReadTells(limits, s, e);
      } else {
        ReadTells(limits, s, e);
      }
    case Sent(_, _, _) =>
      if s.state == Closed {
        LateWriteTells(limits, s, e);
      } else {
        WriteTells(limits, s, e);
      }
    case Flushed => FlushTells(limits, s);
    case TimedOut(reply) => TimeTells(limits, s, reply);
  }

  // ----- whole runs ----------------------------------------------------------------------------

  // Something that closes the socket: the owner, an overflow, a time-out, or a read or a write that
  // has failed.
  ghost predicate Breaks(limits: Limits, s: Socket, e: Event)
    requires Enabled(s, e)
  {
    || ClosedBy(limits, CallsAt(limits, s, e)) || e.TimedOut?
    || (e.Received? && e.code != Success && e.code != Eof && e.code != Aborted && s.state != Closed)
    || (e.Sent? && e.code != Success && e.code != Aborted && s.state != Closed)
  }

  ghost predicate Broken(limits: Limits, s: Socket, run: seq<Event>)
    requires CanRun(limits, s, run)
    decreases run
  {
    run != [] && (Breaks(limits, s, run[0]) || Broken(limits, Step(limits, s, run[0]), run[1..]))
  }

  // The peer has sent its end to a socket that was not closed.
  ghost predicate PeerEnded(limits: Limits, s: Socket, run: seq<Event>)
    requires CanRun(limits, s, run)
    decreases run
  {
    run != [] &&
    ((run[0].Received? && run[0].code == Eof && s.state != Closed)
     || PeerEnded(limits, Step(limits, s, run[0]), run[1..]))
  }

  ghost predicate HasOpened(run: seq<Event>) {
    exists e :: e in run && e.Opened?
  }

  ghost function Confirmed(limits: Limits, s: Socket, run: seq<Event>): seq<byte>
    requires CanRun(limits, s, run)
    decreases run
  {
    if run == [] then [] else ConfirmedAt(s, run[0]) + Confirmed(limits, Step(limits, s, run[0]), run[1..])
  }

  lemma {:induction false} OpenedFrom(limits: Limits, s: Socket, run: seq<Event>)
    requires Inv(s) && CanRun(limits, s, run)
    ensures After(limits, s, run).wasOpened == (s.wasOpened || HasOpened(run))
    decreases run
  {
    if run != [] {
      StepKeepsInv(limits, s, run[0]);
      StepTells(limits, s, run[0]);
      OpenedFrom(limits, Step(limits, s, run[0]), run[1..]);
      HasOpenedAt(run);
    }
  }

  lemma HasOpenedAt(run: seq<Event>)
    requires run != []
    ensures HasOpened(run) <==> run[0].Opened? || HasOpened(run[1..])
  {
    assert run == [run[0]] + run[1..];
    assert forall e :: e in run <==> e == run[0] || e in run[1..];
  }

  ghost predicate HistoryTells(limits: Limits, s: Socket, n: Socket, calls: seq<Found>, confirmed: seq<byte>) {
    && n.accepted == s.accepted + Taken(limits, calls) && n.written == s.written + confirmed
    && n.eos == EndedBy(s.eos, calls) && n.paused == PausedBy(s.paused, calls)
  }

  lemma HistoryTrans(limits: Limits, s: Socket, t: Socket, n: Socket, a: seq<Found>, b: seq<Found>,
                     c: seq<byte>, d: seq<byte>)
    requires HistoryTells(limits, s, t, a, c) && HistoryTells(limits, t, n, b, d)
    ensures HistoryTells(limits, s, n, a + b, c + d)
  {
    TwoParts(limits, a, b, s.paused, s.eos);
    Assoc(s.accepted, Taken(limits, a), Taken(limits, b));
    Assoc(s.written, c, d);
  }

  lemma {:induction false} HistoryFrom(limits: Limits, s: Socket, run: seq<Event>)
    requires Inv(s) && CanRun(limits, s, run)
    ensures HistoryTells(limits, s, After(limits, s, run), Calls(limits, s, run), Confirmed(limits, s, run))
    decreases run
  {
    if run == [] {
      NoCalls(limits, s);
    } else {
      var t, e := Step(limits, s, run[0]), run[0];
      StepKeepsInv(limits, s, e);
      StepTells(limits, s, e);
      HistoryFrom(limits, t, run[1..]);
      HistoryTrans(limits, s, t, After(limits, t, run[1..]), CallsAt(limits, s, e), Calls(limits, t, run[1..]),
                   ConfirmedAt(s, e), Confirmed(limits, t, run[1..]));
    }
  }

  // What was accepted is the data of all calls of output that found the socket open for output and
  // the buffer not full, and what was written is what the system has confirmed. The first end
  // given to it counts, and the last call of its tap.
  lemma HistoryIs(limits: Limits, run: seq<Event>)
    requires CanRun(limits, START, run)
    ensures var s, calls := Reached(limits, run), Calls(limits, START, run);
      && s.accepted == Taken(limits, calls) && s.written == Confirmed(limits, START, run)
      && s.eos == EndedBy(None, calls) && s.paused == PausedBy(false, calls) && s.wasOpened == HasOpened(run)
  {
    HistoryFrom(limits, START, run);
    OpenedFrom(limits, START, run);
    assert [] + Taken(limits, Calls(limits, START, run)) == Taken(limits, Calls(limits, START, run));
    assert [] + Confirmed(limits, START, run) == Confirmed(limits, START, run);
  }

  // What the state has to do with what was broken, and whether the peer has ended.
  ghost predicate Explained(s: Socket, broken: bool, ended: bool) {
    && (s.state == Closed ==> broken || (s.eos == Some(Failed) && s.buffer == []) || (ended && s.shutdowns != []))
    && (s.state == HalfClosedRemote ==> ended)
    && (ended ==> s.state == HalfClosedRemote || s.state == Closed)
    && (ended ==> s.wasOpened)
    && (broken && !s.late ==> s.state == Closed)
    && (!s.wasOpened && s.state == Closed ==> broken)
    && (s.late ==> broken)
    && (s.shutdowns != [] ==> s.eos == Some(NoError))
  }

  lemma {:induction false} ExplainedFrom(limits: Limits, s: Socket, run: seq<Event>, broken: bool, ended: bool)
    requires Inv(s) && CanRun(limits, s, run) && Explained(s, broken, ended)
    ensures Explained(After(limits, s, run), broken || Broken(limits, s, run), ended || PeerEnded(limits, s, run))
    decreases run
  {
    if run != [] {
      var n, e := Step(limits, s, run[0]), run[0];
      StepKeepsInv(limits, s, e);
      StepExplained(limits, s, e, broken, ended);
      ExplainedFrom(limits, n, run[1..], broken || Breaks(limits, s, e),
                    ended || (e.Received? && e.code == Eof && s.state != Closed));
    }
  }

  lemma {:induction false} EndStays(was: Stored, calls: seq<Found>)
    requires was != None
    ensures EndedBy(was, calls) == was
  {
    if calls != [] {
      EndStays(was, calls[..|calls| - 1]);
    }
  }

  // A socket that was closed by an end, or by both, stays so.
  lemma ClosedStays(limits: Limits, s: Socket, e: Event)
    requires Inv(s) && Enabled(s, e) && s.state == Closed && !e.Opened?
    ensures var n := Step(limits, s, e);
      && n.state == Closed && (s.eos != None ==> n.eos == s.eos) && (s.buffer == [] ==> n.buffer == [])
      && (s.shutdowns != [] ==> n.shutdowns != [])
  {
    StepKeepsInv(limits, s, e);
    StepTells(limits, s, e);
    LateStep(limits, s, e);
    if s.eos != None {
      EndStays(s.eos, CallsAt(limits, s, e));
    }
    var n := Step(limits, s, e);
    assert |n.written + n.buffer| == |n.accepted| && |s.written + s.buffer| == |s.accepted|;
  }

  lemma StepExplained(limits: Limits, s: Socket, e: Event, broken: bool, ended: bool)
    requires Inv(s) && Enabled(s, e) && Explained(s, broken, ended)
    ensures Explained(Step(limits, s, e), broken || Breaks(limits, s, e),
                      ended || (e.Received? && e.code == Eof && s.state != Closed))
  {
    StepKeepsInv(limits, s, e);
    StepTells(limits, s, e);
    LateStep(limits, s, e);
    var n := Step(limits, s, e);
    if s.eos != None {
      EndStays(s.eos, CallsAt(limits, s, e));
    }
    if s.state == Closed && !e.Opened? {
      ClosedStays(limits, s, e);
    } else if EndsAt(limits, s, e) {
      assert |n.written + n.buffer| == |n.accepted| && |s.written + s.buffer| == |s.accepted|;
    }
  }

  // When a socket is closed, and when it is half closed and by whom, in terms of what happened to
  // it. It is closed by what breaks it, unless it is opened after that; by an end with an error
  // when all before it was sent; or when both sides have ended. What breaks it and the two ends
  // do close it.
  lemma StateIs(limits: Limits, run: seq<Event>)
    requires CanRun(limits, START, run)
    ensures var s := Reached(limits, run);
      var broken, ended := Broken(limits, START, run), PeerEnded(limits, START, run);
      && (s.state == Closed ==> broken || (s.eos == Some(Failed) && s.buffer == []) || (ended && s.shutdowns != []))
      && (broken && !OpensLate(limits, START, run) ==> s.state == Closed)
      && (ended && s.shutdowns != [] ==> s.state == Closed)
      && (s.wasOpened && s.eos == Some(Failed) && s.buffer == [] && !s.sending && !s.flush ==>
           s.state == Closed)
      && (s.state != Closed ==>
           && (s.state == Idle <==> !s.wasOpened)
           && (s.state == HalfClosedRemote <==> ended)
           && (s.state == HalfClosedLocal <==> s.shutdowns != []))
  {
    RunKeepsInv(limits, START, run);
    ExplainedFrom(limits, START, run, false, false);
    LateIs(limits, START, run);
    OpenedLeavesIdle(limits, START, run);
  }

  // At the end of a peer, with callbacks that close nothing, an open socket is half closed, and
  // output is taken as before.
  lemma EofHalfCloses(limits: Limits, run: seq<Event>, e: Event, data: seq<byte>, reply: seq<Action>)
    requires CanRun(limits, START, run) && Reached(limits, run).state == Open && Enabled(Reached(limits, run), e)
    requires e.Received? && e.code == Eof && !ClosedBy(limits, CallsAt(limits, Reached(limits, run), e))
    ensures var n := Step(limits, Reached(limits, run), e);
      && n.state == HalfClosedRemote
      && (limits.buffer == 0 || |n.buffer| < limits.buffer ==>
           var m := Step(limits, n, Call(Output(data, reply)));
           m.state == HalfClosedRemote && m.accepted == n.accepted + data && (data != [] ==> m.sending || m.flush))
  {
    var s := Reached(limits, run);
    RunKeepsInv(limits, START, run);
    StepKeepsInv(limits, s, e);
    StepTells(limits, s, e);
    var n := Step(limits, s, e);
    var a := Output(data, reply);
    if limits.buffer == 0 || |n.buffer| < limits.buffer {
      StepKeepsInv(limits, n, Call(a));
      StepTells(limits, n, Call(a));
      assert CallsOf(limits, n, a) == [Found(n, a)];
      OneCall(limits, Found(n, a), n.paused, n.eos);
      var m := Step(limits, n, Call(a));
      assert |m.written + m.buffer| == |m.accepted| && |n.written + n.buffer| == |n.accepted|;
    }
  }

  // In every reachable state and for every event: what it confirms, how the next write is all of
  // the buffer, the next state and the shutdown, told by the calls it brings about.
  lemma NextIs(limits: Limits, run: seq<Event>, e: Event)
    requires CanRun(limits, START, run) && Enabled(Reached(limits, run), e)
    ensures Told(limits, Reached(limits, run), e, Step(limits, Reached(limits, run), e))
  {
    RunKeepsInv(limits, START, run);
    StepTells(limits, Reached(limits, run), e);
  }

  // ----- the tap -------------------------------------------------------------------------------

  ghost predicate NoTapOpens(calls: seq<Found>) {
    forall f :: f in calls ==> !f.action.TapOpen?
  }

  // A paused socket starts no read.
  ghost predicate Rests(s: Socket, n: Socket) {
    s.paused && !s.receiving ==> n.paused && !n.receiving
  }

  lemma NeedFlushRests(s: Socket)
    ensures Rests(s, AfterNeedFlush(s))
  {
  }

  lemma ActRests(limits: Limits, s: Socket, a: Action)
    requires NoTapOpens(CallsOf(limits, s, a))
    ensures Rests(s, Act(limits, s, a))
    decreases a, 0
  {
    assert CallsOf(limits, s, a)[0] == Found(s, a);
    if Overflows(limits, s, a) {
      assert forall f :: f in CallsIn(limits, s, a.reply) ==> f in CallsOf(limits, s, a);
      PlayRests(limits, s, a.reply);
      CloseIsSame(Play(limits, s, a.reply));
    } else {
      match a
      case Output(data, _) => NeedFlushRests(s.(buffer := s.buffer + data, accepted := s.accepted + data));
      case Finish(ending) => NeedFlushRests(if s.eos == None then s.(eos := Some(ending)) else s);
      case Shut => CloseIsSame(s);
      case _ =>
    }
  }

  lemma {:induction false} PlayRests(limits: Limits, s: Socket, script: seq<Action>)
    requires NoTapOpens(CallsIn(limits, s, script))
    ensures Rests(s, Play(limits, s, script))
    decreases script, 0
  {
    if script != [] {
      var t := Act(limits, s, script[0]);
      assert forall f :: f in CallsOf(limits, s, script[0]) || f in CallsIn(limits, t, script[1..]) ==>
        f in CallsIn(limits, s, script);
      ActRests(limits, s, script[0]);
      PlayRests(limits, t, script[1..]);
    }
  }

  lemma ReadRests(limits: Limits, s: Socket, e: Event)
    requires Inv(s) && e.Received? && Enabled(s, e) && s.paused && NoTapOpens(CallsAt(limits, s, e))
    ensures !AfterOnReceive(limits, s, e).receiving
  {
    var r := ReadEnded(s);
    if s.state != Closed {
      var n := if e.count > 0 then Play(limits, r, e.onData) else r;
      var a := if e.count > 0 then CallsIn(limits, r, e.onData) else [];
      var b := if e.code != Success then CallsIn(limits, n, e.onEnd) else [];
      assert forall f :: f in a || f in b ==> f in CallsAt(limits, s, e);
      if e.count > 0 {
        PlayRests(limits, r, e.onData);
      }
      if e.code != Success {
        PlayRests(limits, n, e.onEnd);
        EndTells(AfterPassing(limits, r, e), e.code);
      } else {
        ReceiveIsSame(n);
      }
      CloseAsyncIsSame(AfterInput(limits, r, e));
    } else {
      CloseAsyncIsSame(r);
    }
  }

  // While the tap is closed no read is started, whatever happens.
  lemma NoReadWhilePaused(limits: Limits, run: seq<Event>, e: Event)
    requires CanRun(limits, START, run) && Enabled(Reached(limits, run), e) && Reached(limits, run).paused
    requires NoTapOpens(CallsAt(limits, Reached(limits, run), e)) && (e.Received? || Reached(limits, run).readOps == 0)
    ensures Step(limits, Reached(limits, run), e).readOps == 0
  {
    var s := Reached(limits, run);
    RunKeepsInv(limits, START, run);
    StepKeepsInv(limits, s, e);
    match e
    case Opened =>
      SendTells(Opening(s));
      var n := if s.eos == None then Opening(s) else AfterSend(Opening(s));
      ReceiveIsSame(if n.buffer == [] then n else AfterNeedFlush(n));
    case Call(a) => ActRests(limits, s, a);
    case Received(_, _, _, _) => ReadRests(limits, s, e);
    case Sent(_, _, _) => WriteRests(limits, s, e);
    case Flushed => SendTells(s.(flush := false));
    case TimedOut(reply) =>
      PlayRests(limits, s, reply);
      CloseIsSame(Play(limits, s, reply));
  }

  lemma WriteRests(limits: Limits, s: Socket, e: Event)
    requires Inv(s) && e.Sent? && Enabled(s, e) && s.paused && !s.receiving && NoTapOpens(CallsAt(limits, s, e))
    ensures !AfterOnSend(limits, s, e).receiving
  {
    if s.state == Closed {
      CloseAsyncIsSame(WriteEnded(s).(inflight := []));
    } else {
      WriteEndedKeeps(s);
      ConfirmKeeps(WriteEnded(s), e.count);
      var c := AfterConfirm(WriteEnded(s), e.count);
      EaseKeeps(limits, c, e.onEase);
      if Eases(limits, s, e) {
        PlayRests(limits, c, e.onEase);
      }
      var k := AfterEase(limits, c, e.onEase);
      if e.code != Success {
        CloseIsSame(k);
      } else {
        SendOnTells(k);
      }
      CloseAsyncIsSame(AfterOutput(limits, WriteEnded(s), e));
    }
  }
}
