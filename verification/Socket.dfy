// The state machine of a TCP socket (src/socket.cpp), with the flush registration of
// src/input.cpp, over every run and every re-entrant callback.
module Socket {
  type byte = bv8

  datatype State = Idle | Open | HalfClosedRemote | HalfClosedLocal | Closed

  datatype Ending = NoError | Failed

  datatype Stored = None | Some(ending: Ending)

  // How an asynchronous operation ended.
  datatype Code = Success | Eof | Reset | Aborted | OtherError

  // What an owner may do from on_socket_input, or at any other time. `reply` is what its
  // on_socket_input does when it is told, amid output, that the buffer is full.
  datatype Action =
    | Output(data: seq<byte>, reply: seq<Action>)
    | Finish(ending: Ending)
    | Shut
    | TapOpen
    | TapClose

  datatype Event =
    | Opened
    | Call(action: Action)
    | Received(code: Code, count: nat, onData: seq<Action>, onEnd: seq<Action>)
    | Sent(code: Code, count: nat, onEase: seq<Action>)
    | Flushed
    | TimedOut(reply: seq<Action>)

  // A call of on_socket_close, and of shutdown for sending.
  datatype Fired = Fired(state: State, readOps: nat, writeOps: nat)
  datatype Shutdown = Shutdown(unsent: seq<byte>, eos: Stored)

  datatype Limits = Limits(buffer: nat, congestion: nat)

  datatype Socket = Socket(
    state: State,
    buffer: seq<byte>,
    eos: Stored,
    wasOpened: bool,
    receiving: bool,
    sending: bool,
    paused: bool,
    closed: bool,
    flush: bool,              // registered with an input context
    isOpen: bool,             // the system's socket
    readOps: nat,             // what the system has under way
    writeOps: nat,
    inflight: seq<byte>,      // what the system was given to write
    written: seq<byte>,       // what it has confirmed
    accepted: seq<byte>,      // all bytes taken by output
    fired: seq<Fired>,
    shutdowns: seq<Shutdown>,
    late: bool)               // it was opened when it was already closed

  const START :=
    Socket(Idle, [], None, false, false, false, false, false, false, true, 0, 0, [], [], [], [], [], false)

  // ----- the functions of the socket -----------------------------------------------------------

  function AfterReceive(s: Socket): Socket {
    if s.state != Open && s.state != HalfClosedLocal then s
    else if s.receiving || s.paused then s
    else s.(receiving := true, readOps := s.readOps + 1)
  }

  function AfterCloseAsync(s: Socket): Socket {
    if s.closed || s.receiving || s.sending || s.state != Closed then s
    else s.(closed := true, fired := if s.wasOpened then s.fired + [Fired(s.state, s.readOps, s.writeOps)] else s.fired)
  }

  // m_state = CLOSED; close_socket()
  function AfterCloseNow(s: Socket): Socket {
    s.(state := Closed, isOpen := false)
  }

  function AfterClose(s: Socket): Socket {
    AfterCloseAsync(AfterCloseNow(s))
  }

  function AfterShutdown(s: Socket): Socket {
    if s.isOpen then s.(shutdowns := s.shutdowns + [Shutdown(s.buffer, s.eos)]) else s
  }

  function AfterSend(s: Socket): Socket {
    if s.state != Open && s.state != HalfClosedRemote then s
    else if s.sending then s
    else if s.buffer == [] then
      if s.eos == None then s
      else if s.eos == Some(NoError) then
        var n := AfterShutdown(s);
        if n.state == Open then n.(state := HalfClosedLocal) else AfterClose(n)
      else AfterClose(s)
    else s.(sending := true, writeOps := s.writeOps + 1, inflight := s.buffer)
  }

  function AfterNeedFlush(s: Socket): Socket {
    if s.state == Idle then s else s.(flush := true)
  }

  // open() tests nothing. Its caller has connected the system's socket, which it opens first if
  // that is not open.
  function Opening(s: Socket): Socket {
    s.(state := Open, wasOpened := true, isOpen := true, late := s.late || s.state == Closed)
  }

  function AfterOpen(s: Socket): Socket {
    var n := Opening(s);
    var n := if n.eos == None then n else AfterSend(n);
    if n.state == Closed then n
    else AfterReceive(if n.buffer == [] then n else AfterNeedFlush(n))
  }

  function Act(limits: Limits, s: Socket, a: Action): Socket
    decreases a, 0
  {
    match a
    case Output(data, reply) =>
      if s.state == Closed || s.state == HalfClosedLocal || data == [] then s
      else if limits.buffer > 0 && |s.buffer| >= limits.buffer then AfterClose(Play(limits, s, reply))
      else AfterNeedFlush(s.(buffer := s.buffer + data, accepted := s.accepted + data))
    case Finish(ending) =>
      if s.state == Closed || s.state == HalfClosedLocal then s
      else AfterNeedFlush(if s.eos == None then s.(eos := Some(ending)) else s)
    case Shut => AfterClose(s)
    case TapOpen => AfterReceive(s.(paused := false))
    case TapClose => s.(paused := true)
  }

  // One callback after the other.
  function Play(limits: Limits, s: Socket, script: seq<Action>): Socket
    decreases script, 0
  {
    if script == [] then s
    else Play(limits, Act(limits, s, script[0]), script[1..])
  }

  function AfterEof(s: Socket): Socket {
    if s.state == Open then s.(state := HalfClosedRemote)
    else if s.state == HalfClosedLocal then AfterCloseNow(s)
    else s
  }

  // What came in is passed on, and then the end if there was one.
  function AfterPassing(limits: Limits, s: Socket, e: Event): Socket
    requires e.Received?
  {
    var n := if e.count > 0 then Play(limits, s, e.onData) else s;
    if e.code == Success then n else Play(limits, n, e.onEnd)
  }

  function AfterInput(limits: Limits, s: Socket, e: Event): Socket
    requires e.Received?
  {
    var n := AfterPassing(limits, s, e);
    if e.code == Success then AfterReceive(n) else AfterEnd(n, e.code)
  }

  function AfterEnd(s: Socket, code: Code): Socket {
    if code == Eof then AfterEof(s) else AfterCloseNow(s)
  }

  function ReadEnded(s: Socket): Socket {
    s.(receiving := false, readOps := if s.readOps > 0 then s.readOps - 1 else 0)
  }

  function AfterRead(limits: Limits, s: Socket, e: Event): Socket
    requires e.Received?
  {
    if e.code == Aborted || s.state == Closed then s else AfterInput(limits, s, e)
  }

  function AfterOnReceive(limits: Limits, s: Socket, e: Event): Socket
    requires e.Received?
  {
    AfterCloseAsync(AfterRead(limits, ReadEnded(s), e))
  }

  // What was sent leaves the buffer.
  function AfterConfirm(s: Socket, count: nat): Socket
    requires count <= |s.inflight| && s.inflight <= s.buffer
  {
    s.(buffer := s.buffer[count..], written := s.written + s.inflight[..count], inflight := [])
  }

  // m_congestion.end() opens the taps that were closed, this socket's own among them.
  function AfterEase(limits: Limits, s: Socket, onEase: seq<Action>): Socket {
    if limits.congestion > 0 && |s.buffer| < limits.congestion then Play(limits, s, onEase) else s
  }

  function AfterSendOn(s: Socket): Socket {
    if s.buffer != [] then AfterSend(s)
    else if s.eos == None then s
    else if s.eos != Some(NoError) then AfterCloseNow(s)
    else
      var n := AfterShutdown(s);
      if n.state == Open then n.(state := HalfClosedLocal)
      else if n.state == HalfClosedRemote then AfterCloseNow(n)
      else n
  }

  function AfterOutput(limits: Limits, s: Socket, e: Event): Socket
    requires e.Sent? && e.count <= |s.inflight| && s.inflight <= s.buffer
  {
    var n := AfterEase(limits, AfterConfirm(s, e.count), e.onEase);
    if e.code != Success then AfterCloseNow(n) else AfterSendOn(n)
  }

  function WriteEnded(s: Socket): Socket {
    s.(sending := false, writeOps := if s.writeOps > 0 then s.writeOps - 1 else 0)
  }

  function AfterWrite(limits: Limits, s: Socket, e: Event): Socket
    requires e.Sent? && e.count <= |s.inflight| && s.inflight <= s.buffer
  {
    if e.code == Aborted || s.state == Closed then s.(inflight := []) else AfterOutput(limits, s, e)
  }

  function AfterOnSend(limits: Limits, s: Socket, e: Event): Socket
    requires e.Sent? && e.count <= |s.inflight| && s.inflight <= s.buffer
  {
    AfterCloseAsync(AfterWrite(limits, WriteEnded(s), e))
  }

  // What may happen when: a socket is opened once, at any time, the system ends what it has under
  // way, and aborts only what was under way when the socket was closed.
  ghost predicate Enabled(s: Socket, e: Event) {
    match e
    case Opened => !s.wasOpened
    case Call(_) => true
    case Received(code, _, _, _) => s.readOps > 0 && (code == Aborted ==> !s.isOpen)
    case Sent(code, count, _) =>
      s.writeOps > 0 && count <= |s.inflight| && s.inflight <= s.buffer && (code == Aborted ==> !s.isOpen)
    case Flushed => s.flush
    case TimedOut(_) => s.wasOpened
  }

  function Step(limits: Limits, s: Socket, e: Event): Socket
    requires e.Sent? ==> e.count <= |s.inflight| && s.inflight <= s.buffer
  {
    match e
    case Opened => AfterOpen(s)
    case Call(a) => Act(limits, s, a)
    case Received(_, _, _, _) => AfterOnReceive(limits, s, e)
    case Sent(_, _, _) => AfterOnSend(limits, s, e)
    case Flushed => AfterSend(s.(flush := false))
    case TimedOut(reply) => AfterClose(Play(limits, s, reply))
  }

  ghost predicate CanRun(limits: Limits, s: Socket, run: seq<Event>)
    decreases run
  {
    run == [] || (Enabled(s, run[0]) && CanRun(limits, Step(limits, s, run[0]), run[1..]))
  }

  ghost function After(limits: Limits, s: Socket, run: seq<Event>): Socket
    requires CanRun(limits, s, run)
    decreases run
  {
    if run == [] then s else After(limits, Step(limits, s, run[0]), run[1..])
  }

  // ----- what every step keeps -----------------------------------------------------------------

  // At most one read and one write are under way, and the flags say which.
  ghost predicate Counted(s: Socket) {
    && s.readOps == (if s.receiving then 1 else 0)
    && s.writeOps == (if s.sending then 1 else 0)
    && (s.sending ==> s.inflight <= s.buffer)
    && (s.state == Idle ==> !s.wasOpened)
    && (!s.wasOpened ==> s.state == Idle || s.state == Closed)
    && (!s.wasOpened ==> !s.receiving && !s.sending && !s.flush && s.shutdowns == [])
    && (s.state == HalfClosedLocal ==> !s.sending)
    && (s.isOpen <==> s.state != Closed)
  }

  // What was confirmed and what is buffered is what was accepted.
  ghost predicate InOrder(s: Socket) {
    s.written + s.buffer == s.accepted
  }

  // Sending is shut down at most once, with nothing unsent, after an end without error.
  ghost predicate ShutOnce(s: Socket) {
    && (s.shutdowns == [] || s.shutdowns == [Shutdown([], Some(NoError))])
    && (s.state == Idle || s.state == Open || s.state == HalfClosedRemote ==> s.shutdowns == [])
    && (s.state == HalfClosedLocal ==> s.shutdowns != [])
    && (s.shutdowns != [] ==> s.buffer == [])
  }

  // on_socket_close was called once if close_async has decided, and not before. If it has
  // decided before the socket was opened, it never is.
  ghost predicate FiredOnce(s: Socket) {
    && (s.late ==> s.closed && s.wasOpened)
    && (s.closed && !s.late ==> s.state == Closed && !s.receiving && !s.sending)
    && s.fired == (if s.closed && s.wasOpened && !s.late then [Fired(Closed, 0, 0)] else [])
  }

  // close_async has decided as soon as it can.
  ghost predicate HandedOver(s: Socket) {
    s.state == Closed && !s.receiving && !s.sending ==> s.closed
  }

  ghost predicate Nearly(s: Socket) {
    Counted(s) && InOrder(s) && ShutOnce(s) && FiredOnce(s)
  }

  ghost predicate Base(s: Socket) {
    Nearly(s) && HandedOver(s)
  }

  // Whatever there is to send is being sent or waits for a flush.
  ghost predicate SendAwake(s: Socket) {
    (s.state == Open || s.state == HalfClosedRemote) && (s.buffer != [] || s.eos != None) ==> s.sending || s.flush
  }

  // Unless paused, a socket that can receive is receiving.
  ghost predicate ReceiveAwake(s: Socket) {
    (s.state == Open || s.state == HalfClosedLocal) && !s.paused ==> s.receiving
  }

  ghost predicate Inv(s: Socket) {
    Base(s) && SendAwake(s) && ReceiveAwake(s)
  }

  // Once closed, a socket stays closed, and nothing more is accepted or confirmed, unless it is
  // opened after that.
  ghost predicate StaysClosed(s: Socket, n: Socket) {
    && (s.state == Closed && n.late == s.late ==>
         n.state == Closed && n.written == s.written && n.accepted == s.accepted)
    && (s.closed ==> n.closed && n.fired == s.fired)
    && (s.wasOpened ==> n.wasOpened && n.late == s.late) && (s.late ==> n.late)
    && s.written <= n.written && s.accepted <= n.accepted
  }

  ghost predicate Kept(s: Socket, n: Socket) {
    && Base(n) && StaysClosed(s, n)
    && (SendAwake(s) ==> SendAwake(n))
    && (ReceiveAwake(s) ==> ReceiveAwake(n))
  }

  lemma CloseAsyncHandsOver(s: Socket)
    requires Nearly(s)
    ensures Base(AfterCloseAsync(s)) && StaysClosed(s, AfterCloseAsync(s))
    ensures SendAwake(s) ==> SendAwake(AfterCloseAsync(s))
    ensures ReceiveAwake(s) ==> ReceiveAwake(AfterCloseAsync(s))
  {
  }

  lemma CloseNowKeeps(s: Socket)
    requires Nearly(s)
    ensures Nearly(AfterCloseNow(s)) && StaysClosed(s, AfterCloseNow(s))
    ensures SendAwake(AfterCloseNow(s)) && ReceiveAwake(AfterCloseNow(s)) && AfterCloseNow(s).state == Closed
  {
  }

  lemma CloseKeeps(s: Socket)
    requires Base(s)
    ensures Kept(s, AfterClose(s)) && AfterClose(s).state == Closed && SendAwake(AfterClose(s))
    ensures ReceiveAwake(AfterClose(s))
  {
    CloseNowKeeps(s);
    CloseAsyncHandsOver(AfterCloseNow(s));
  }

  lemma ReceiveKeeps(s: Socket)
    requires Base(s)
    ensures Kept(s, AfterReceive(s)) && ReceiveAwake(AfterReceive(s)) && AfterReceive(s).state == s.state
  {
  }

  lemma ShutdownKeeps(s: Socket)
    requires Base(s) && s.state == Open && s.buffer == [] && s.eos == Some(NoError) && !s.sending
    ensures Kept(s, AfterShutdown(s).(state := HalfClosedLocal))
  {
  }

  // Shutting down as a prelude to closing.
  lemma ShutdownCloses(s: Socket)
    requires Base(s) && s.state == HalfClosedRemote && s.buffer == [] && s.eos == Some(NoError) && !s.sending
    ensures Nearly(AfterCloseNow(AfterShutdown(s))) && StaysClosed(s, AfterCloseNow(AfterShutdown(s)))
  {
  }

  lemma SendKeeps(s: Socket)
    requires Base(s)
    ensures Kept(s, AfterSend(s)) && SendAwake(AfterSend(s))
  {
    if (s.state == Open || s.state == HalfClosedRemote) && !s.sending && s.buffer == [] && s.eos != None {
      if s.eos != Some(NoError) {
        CloseKeeps(s);
      } else if s.state == Open {
        ShutdownKeeps(s);
      } else {
        ShutdownCloses(s);
        CloseAsyncHandsOver(AfterCloseNow(AfterShutdown(s)));
      }
    }
  }

  lemma AcceptKeeps(s: Socket, data: seq<byte>)
    requires Base(s) && s.state != Closed && s.state != HalfClosedLocal
    ensures Kept(s, AfterNeedFlush(s.(buffer := s.buffer + data, accepted := s.accepted + data)))
  {
    assert s.written + (s.buffer + data) == (s.written + s.buffer) + data;
  }

  lemma KeptTogether(s: Socket, t: Socket, n: Socket)
    requires Kept(s, t) && Kept(t, n)
    ensures Kept(s, n)
  {
  }

  lemma FinishKeeps(s: Socket, ending: Ending)
    requires Base(s) && s.state != Closed && s.state != HalfClosedLocal
    ensures Kept(s, AfterNeedFlush(if s.eos == None then s.(eos := Some(ending)) else s))
  {
  }

  lemma OverflowKeeps(limits: Limits, s: Socket, reply: seq<Action>)
    requires Base(s)
    ensures Kept(s, AfterClose(Play(limits, s, reply)))
    decreases reply, 1
  {
    PlayKeeps(limits, s, reply);
    CloseKeeps(Play(limits, s, reply));
    KeptTogether(s, Play(limits, s, reply), AfterClose(Play(limits, s, reply)));
  }

  lemma TapKeeps(s: Socket)
    requires Base(s)
    ensures Kept(s, AfterReceive(s.(paused := false))) && Kept(s, s.(paused := true))
  {
    var n := s.(paused := false);
    assert Base(n) && StaysClosed(s, n) && (SendAwake(s) ==> SendAwake(n));
    ReceiveKeeps(n);
  }

  lemma ActKeeps(limits: Limits, s: Socket, a: Action)
    requires Base(s)
    ensures Kept(s, Act(limits, s, a))
    decreases a, 0
  {
    match a
    case Output(data, reply) =>
      OverflowKeeps(limits, s, reply);
      if s.state != Closed && s.state != HalfClosedLocal {
        AcceptKeeps(s, data);
      }
    case Finish(ending) =>
      if s.state != Closed && s.state != HalfClosedLocal {
        FinishKeeps(s, ending);
      }
    case Shut => CloseKeeps(s);
    case TapOpen => TapKeeps(s);
    case TapClose => TapKeeps(s);
  }

  lemma {:induction false} PlayKeeps(limits: Limits, s: Socket, script: seq<Action>)
    requires Base(s)
    ensures Kept(s, Play(limits, s, script))
    decreases script, 0
  {
    if script != [] {
      var t := Act(limits, s, script[0]);
      ActKeeps(limits, s, script[0]);
      PlayKeeps(limits, t, script[1..]);
      KeptTogether(s, t, Play(limits, t, script[1..]));
    }
  }

  lemma OpenKeeps(s: Socket)
    requires Base(s) && !s.wasOpened
    ensures Kept(s, AfterOpen(s)) && SendAwake(AfterOpen(s)) && ReceiveAwake(AfterOpen(s))
  {
    var n := Opening(s);
    assert Base(n) && StaysClosed(s, n);
    SendKeeps(n);
    var m := if n.eos == None then n else AfterSend(n);
    if m.state != Closed {
      ReceiveKeeps(if m.buffer == [] then m else m.(flush := true));
    }
  }

  lemma OnEofKeeps(s: Socket)
    requires Base(s)
    ensures Nearly(AfterEof(s)) && StaysClosed(s, AfterEof(s)) && ReceiveAwake(AfterEof(s))
    ensures SendAwake(s) ==> SendAwake(AfterEof(s))
  {
    CloseNowKeeps(s);
  }

  lemma ReadEndedKeeps(s: Socket)
    requires Inv(s) && s.readOps > 0
    ensures Nearly(ReadEnded(s)) && SendAwake(ReadEnded(s)) && StaysClosed(s, ReadEnded(s))
    ensures s.state != Closed ==> HandedOver(ReadEnded(s))
  {
  }

  lemma PassingKeeps(limits: Limits, s: Socket, e: Event)
    requires Base(s) && e.Received?
    ensures Kept(s, AfterPassing(limits, s, e))
  {
    PlayKeeps(limits, s, e.onData);
    var n := if e.count > 0 then Play(limits, s, e.onData) else s;
    PlayKeeps(limits, n, e.onEnd);
    KeptTogether(s, n, Play(limits, n, e.onEnd));
  }

  lemma InputKeeps(limits: Limits, s: Socket, e: Event)
    requires Base(s) && SendAwake(s) && e.Received?
    ensures var n := AfterInput(limits, s, e);
      && Inv(AfterCloseAsync(n)) && StaysClosed(s, AfterCloseAsync(n))
  {
    PassingKeeps(limits, s, e);
    var n := AfterPassing(limits, s, e);
    if e.code == Success {
      ReceiveKeeps(n);
      CloseAsyncHandsOver(AfterReceive(n));
    } else {
      EndKeeps(n, e.code);
    }
  }

  lemma OnReceiveKeeps(limits: Limits, s: Socket, e: Event)
    requires Inv(s) && e.Received? && Enabled(s, e)
    ensures Inv(AfterOnReceive(limits, s, e)) && StaysClosed(s, AfterOnReceive(limits, s, e))
  {
    ReadEndedKeeps(s);
    if e.code == Aborted || s.state == Closed {
      CloseAsyncHandsOver(ReadEnded(s));
    } else {
      InputKeeps(limits, ReadEnded(s), e);
    }
  }

  lemma EndKeeps(s: Socket, code: Code)
    requires Base(s) && SendAwake(s)
    ensures Inv(AfterCloseAsync(AfterEnd(s, code))) && StaysClosed(s, AfterCloseAsync(AfterEnd(s, code)))
  {
    OnEofKeeps(s);
    CloseNowKeeps(s);
    CloseAsyncHandsOver(AfterEnd(s, code));
  }

  lemma ConfirmKeeps(s: Socket, count: nat)
    requires Base(s) && s.state != Closed && count <= |s.inflight| && s.inflight <= s.buffer && !s.sending
    ensures Base(AfterConfirm(s, count)) && StaysClosed(s, AfterConfirm(s, count))
    ensures ReceiveAwake(s) ==> ReceiveAwake(AfterConfirm(s, count))
  {
    assert s.inflight[..count] == s.buffer[..count];
    assert (s.written + s.buffer[..count]) + s.buffer[count..] == s.written + s.buffer;
  }

  // A callback starts no write, ends no read, opens nothing, and changes the state only to close
  // the socket.
  ghost predicate Steady(s: Socket, n: Socket) {
    && n.sending == s.sending && (s.receiving ==> n.receiving) && (n.state == s.state || n.state == Closed)
    && n.wasOpened == s.wasOpened && n.late == s.late
  }

  lemma CloseIsSteady(s: Socket, t: Socket)
    requires Steady(s, t)
    ensures Steady(s, AfterClose(t))
  {
  }

  lemma ReceiveIsSteady(s: Socket)
    ensures Steady(s, AfterReceive(s.(paused := false)))
  {
  }

  lemma QueueIsSteady(s: Socket, data: seq<byte>)
    ensures Steady(s, AfterNeedFlush(s.(buffer := s.buffer + data, accepted := s.accepted + data)))
  {
  }

  lemma FinishIsSteady(s: Socket, ending: Ending)
    ensures Steady(s, AfterNeedFlush(if s.eos == None then s.(eos := Some(ending)) else s))
  {
    var n := if s.eos == None then s.(eos := Some(ending)) else s;
    assert Steady(s, n);
  }

  lemma ActIsSteady(limits: Limits, s: Socket, a: Action)
    ensures Steady(s, Act(limits, s, a))
    decreases a, 0
  {
    match a
    case Output(data, reply) =>
      PlayIsSteady(limits, s, reply);
      CloseIsSteady(s, Play(limits, s, reply));
      QueueIsSteady(s, data);
    case Finish(ending) => FinishIsSteady(s, ending);
    case Shut => CloseIsSteady(s, s);
    case TapOpen => ReceiveIsSteady(s);
    case TapClose =>
  }

  lemma {:induction false} PlayIsSteady(limits: Limits, s: Socket, script: seq<Action>)
    ensures Steady(s, Play(limits, s, script))
    decreases script, 0
  {
    if script != [] {
      ActIsSteady(limits, s, script[0]);
      PlayIsSteady(limits, Act(limits, s, script[0]), script[1..]);
    }
  }

  lemma SendOnKeeps(s: Socket)
    requires Base(s) && ReceiveAwake(s) && !s.sending && s.state != Idle && s.state != HalfClosedLocal
    ensures Nearly(AfterSendOn(s)) && StaysClosed(s, AfterSendOn(s)) && SendAwake(AfterSendOn(s))
    ensures ReceiveAwake(AfterSendOn(s))
  {
    if s.buffer != [] {
      SendKeeps(s);
    } else if s.eos != None && s.eos != Some(NoError) {
      CloseNowKeeps(s);
    } else if s.eos != None {
      if s.state == Open {
        ShutdownKeeps(s);
      } else if s.state == HalfClosedRemote {
        ShutdownCloses(s);
      }
    }
  }

  lemma SentKeeps(s: Socket, code: Code)
    requires Base(s) && ReceiveAwake(s) && !s.sending && s.state != Idle && s.state != HalfClosedLocal
    ensures Inv(AfterCloseAsync(if code != Success then AfterCloseNow(s) else AfterSendOn(s)))
    ensures StaysClosed(s, AfterCloseAsync(if code != Success then AfterCloseNow(s) else AfterSendOn(s)))
  {
    SendOnKeeps(s);
    CloseNowKeeps(s);
    CloseAsyncHandsOver(if code != Success then AfterCloseNow(s) else AfterSendOn(s));
  }

  lemma EaseKeeps(limits: Limits, s: Socket, onEase: seq<Action>)
    requires Base(s)
    ensures Kept(s, AfterEase(limits, s, onEase)) && Steady(s, AfterEase(limits, s, onEase))
  {
    PlayKeeps(limits, s, onEase);
    PlayIsSteady(limits, s, onEase);
  }

  lemma WriteEndedKeeps(s: Socket)
    requires Inv(s) && s.writeOps > 0
    ensures var n := WriteEnded(s);
      && Nearly(n) && ReceiveAwake(n) && StaysClosed(s, n) && n.state != Idle && n.state != HalfClosedLocal
      && (n.state != Closed ==> HandedOver(n))
  {
  }

  lemma OnSendKeeps(limits: Limits, s: Socket, e: Event)
    requires Inv(s) && e.Sent? && Enabled(s, e)
    ensures Inv(AfterOnSend(limits, s, e)) && StaysClosed(s, AfterOnSend(limits, s, e))
  {
    WriteEndedKeeps(s);
    var n := WriteEnded(s);
    if e.code == Aborted || n.state == Closed {
      CloseAsyncHandsOver(n.(inflight := []));
    } else {
      ConfirmKeeps(n, e.count);
      EaseKeeps(limits, AfterConfirm(n, e.count), e.onEase);
      SentKeeps(AfterEase(limits, AfterConfirm(n, e.count), e.onEase), e.code);
    }
  }

  lemma FlushKeeps(s: Socket)
    requires Inv(s)
    ensures Inv(AfterSend(s.(flush := false))) && StaysClosed(s, AfterSend(s.(flush := false)))
  {
    SendKeeps(s.(flush := false));
  }

  lemma StepKeepsInv(limits: Limits, s: Socket, e: Event)
    requires Inv(s) && Enabled(s, e)
    ensures Inv(Step(limits, s, e)) && StaysClosed(s, Step(limits, s, e))
  {
    match e
    case Opened => OpenKeeps(s);
    case Call(a) => ActKeeps(limits, s, a);
    case Received(_, _, _, _) => OnReceiveKeeps(limits, s, e);
    case Sent(_, _, _) => OnSendKeeps(limits, s, e);
    case Flushed => FlushKeeps(s);
    case TimedOut(reply) => OverflowKeeps(limits, s, reply);
  }

  lemma {:induction false} RunKeepsInv(limits: Limits, s: Socket, run: seq<Event>)
    requires Inv(s) && CanRun(limits, s, run)
    ensures Inv(After(limits, s, run)) && StaysClosed(s, After(limits, s, run))
    decreases run
  {
    if run != [] {
      StepKeepsInv(limits, s, run[0]);
      RunKeepsInv(limits, Step(limits, s, run[0]), run[1..]);
    }
  }

  // ----- the runs of a socket ------------------------------------------------------------------

  // The state after a run from the beginning.
  ghost function Reached(limits: Limits, run: seq<Event>): Socket
    requires CanRun(limits, START, run)
  {
    After(limits, START, run)
  }

  // The socket is opened when it is already closed.
  ghost predicate OpensLate(limits: Limits, s: Socket, run: seq<Event>)
    requires CanRun(limits, s, run)
    decreases run
  {
    run != [] &&
    ((run[0].Opened? && s.state == Closed) || OpensLate(limits, Step(limits, s, run[0]), run[1..]))
  }

  lemma CloseAsyncIsNotLate(s: Socket)
    ensures AfterCloseAsync(s).late == s.late && AfterClose(s).late == s.late
  {
  }

  lemma SendIsNotLate(s: Socket)
    ensures AfterSend(s).late == s.late
  {
    if s.buffer == [] {
      CloseAsyncIsNotLate(if s.eos == Some(NoError) then AfterShutdown(s) else s);
    }
  }

  lemma ShutdownIsNotLate(s: Socket)
    ensures AfterShutdown(s).late == s.late && AfterShutdown(s).state == s.state
  {
  }

  lemma CloseNowIsNotLate(s: Socket)
    ensures AfterCloseNow(s).late == s.late
  {
  }

  lemma SendOnIsNotLate(s: Socket)
    ensures AfterSendOn(s).late == s.late
  {
    if s.buffer != [] {
      SendIsNotLate(s);
    } else if s.eos != None && s.eos != Some(NoError) {
      CloseNowIsNotLate(s);
    } else if s.eos != None {
      ShutdownIsNotLate(s);
      if s.state == HalfClosedRemote {
        CloseNowIsNotLate(AfterShutdown(s));
      }
    }
  }

  lemma EndIsNotLate(s: Socket, code: Code)
    ensures AfterEnd(s, code).late == s.late
  {
    CloseNowIsNotLate(s);
  }

  lemma ReceiveIsNotLate(s: Socket)
    ensures AfterReceive(s).late == s.late
  {
  }

  lemma PassingIsSteady(limits: Limits, s: Socket, e: Event)
    requires e.Received?
    ensures Steady(s, AfterPassing(limits, s, e))
  {
    PlayIsSteady(limits, s, e.onData);
    var n := if e.count > 0 then Play(limits, s, e.onData) else s;
    PlayIsSteady(limits, n, e.onEnd);
  }

  lemma InputIsNotLate(limits: Limits, s: Socket, e: Event)
    requires e.Received?
    ensures AfterInput(limits, s, e).late == s.late
  {
    PassingIsSteady(limits, s, e);
    ReceiveIsNotLate(AfterPassing(limits, s, e));
    EndIsNotLate(AfterPassing(limits, s, e), e.code);
  }

  lemma ReceivedIsNotLate(limits: Limits, s: Socket, e: Event)
    requires e.Received?
    ensures AfterOnReceive(limits, s, e).late == s.late
  {
    InputIsNotLate(limits, ReadEnded(s), e);
    CloseAsyncIsNotLate(AfterRead(limits, ReadEnded(s), e));
  }

  lemma EaseIsNotLate(limits: Limits, s: Socket, onEase: seq<Action>)
    ensures AfterEase(limits, s, onEase).late == s.late
  {
    PlayIsSteady(limits, s, onEase);
  }

  lemma SentIsNotLate(limits: Limits, s: Socket, e: Event)
    requires e.Sent? && e.count <= |s.inflight| && s.inflight <= s.buffer
    ensures AfterOnSend(limits, s, e).late == s.late
  {
    var n := AfterConfirm(WriteEnded(s), e.count);
    EaseIsNotLate(limits, n, e.onEase);
    SendOnIsNotLate(AfterEase(limits, n, e.onEase));
    CloseAsyncIsNotLate(AfterWrite(limits, WriteEnded(s), e));
  }

  lemma TimeoutIsNotLate(limits: Limits, s: Socket, reply: seq<Action>)
    ensures AfterClose(Play(limits, s, reply)).late == s.late
  {
    PlayIsSteady(limits, s, reply);
    CloseAsyncIsNotLate(Play(limits, s, reply));
  }

  lemma OpenIsLate(s: Socket)
    ensures AfterOpen(s).late == (s.late || s.state == Closed)
  {
    var n := Opening(s);
    SendIsNotLate(n);
    var m := if n.eos == None then n else AfterSend(n);
    ReceiveIsNotLate(if m.buffer == [] then m else AfterNeedFlush(m));
  }

  lemma LateStep(limits: Limits, s: Socket, e: Event)
    requires Enabled(s, e)
    ensures Step(limits, s, e).late == (s.late || (e.Opened? && s.state == Closed))
  {
    match e
    case Opened => OpenIsLate(s);
    case Call(a) => ActIsSteady(limits, s, a);
    case Received(_, _, _, _) => ReceivedIsNotLate(limits, s, e);
    case Sent(_, _, _) => SentIsNotLate(limits, s, e);
    case Flushed => SendIsNotLate(s.(flush := false));
    case TimedOut(reply) => TimeoutIsNotLate(limits, s, reply);
  }

  lemma {:induction false} LateIs(limits: Limits, s: Socket, run: seq<Event>)
    requires CanRun(limits, s, run)
    ensures After(limits, s, run).late == (s.late || OpensLate(limits, s, run))
    decreases run
  {
    if run != [] {
      LateStep(limits, s, run[0]);
      LateIs(limits, Step(limits, s, run[0]), run[1..]);
    }
  }

  // on_socket_close is called at most once, with the socket closed and nothing under way, and
  // it has been called as soon as a socket that was opened is in that state, unless it was
  // opened when it was already closed: then it is never called.
  lemma ClosesOnce(limits: Limits, run: seq<Event>)
    requires CanRun(limits, START, run)
    ensures var s := Reached(limits, run);
      s.fired ==
        if s.wasOpened && s.state == Closed && s.readOps == 0 && s.writeOps == 0 && !OpensLate(limits, START, run) then
          [Fired(Closed, 0, 0)]
        else
          []
  {
    RunKeepsInv(limits, START, run);
    LateIs(limits, START, run);
  }

  // Whatever comes next, a closed socket stays closed, unless it is opened then, and
  // on_socket_close is not called again.
  lemma ClosedIsNeverLeft(limits: Limits, run: seq<Event>, more: seq<Event>)
    requires CanRun(limits, START, run) && CanRun(limits, Reached(limits, run), more)
    ensures var s, n := Reached(limits, run), After(limits, Reached(limits, run), more);
      && (s.state == Closed && !OpensLate(limits, s, more) ==>
           n.state == Closed && n.written == s.written && n.accepted == s.accepted)
      && (s.fired != [] ==> n.fired == s.fired)
  {
    RunKeepsInv(limits, START, run);
    RunKeepsInv(limits, Reached(limits, run), more);
    LateIs(limits, Reached(limits, run), more);
  }

  // on_socket_close has been called just if it is due.
  ghost predicate ClosesRight(s: Socket) {
    s.fired ==
      if s.wasOpened && s.state == Closed && s.readOps == 0 && s.writeOps == 0 then [Fired(Closed, 0, 0)] else []
  }

  // So it is at every moment of a run, and no step of it leaves CLOSED.
  ghost predicate ClosesWell(limits: Limits, s: Socket, run: seq<Event>)
    requires CanRun(limits, s, run)
    decreases run
  {
    && ClosesRight(s)
    && (run != [] ==>
         var n := Step(limits, s, run[0]);
         (s.state == Closed ==> n.state == Closed) && ClosesWell(limits, n, run[1..]))
  }

  // Opening a closed socket leaves CLOSED, or closes it again without a call.
  lemma LateOpenIsWrong(limits: Limits, s: Socket)
    requires Inv(s) && !s.wasOpened && s.state == Closed
    ensures AfterOpen(s).state != Closed || !ClosesRight(AfterOpen(s))
  {
    OpenKeeps(s);
  }

  lemma {:induction false} ClosesWellFrom(limits: Limits, s: Socket, run: seq<Event>)
    requires Inv(s) && !s.late && CanRun(limits, s, run)
    ensures ClosesWell(limits, s, run) <==> !OpensLate(limits, s, run)
    decreases run
  {
    assert ClosesRight(s);
    if run != [] {
      var n := Step(limits, s, run[0]);
      StepKeepsInv(limits, s, run[0]);
      LateStep(limits, s, run[0]);
      if run[0].Opened? && s.state == Closed {
        LateOpenIsWrong(limits, s);
      } else {
        ClosesWellFrom(limits, n, run[1..]);
      }
    }
  }

  // Exactly the runs in which the socket is not opened late close well.
  lemma ClosesWellExactly(limits: Limits, run: seq<Event>)
    requires CanRun(limits, START, run)
    ensures ClosesWell(limits, START, run) <==> !OpensLate(limits, START, run)
  {
    ClosesWellFrom(limits, START, run);
  }

  // The output overflows the buffer.
  ghost predicate Overflows(limits: Limits, s: Socket, a: Action) {
    && a.Output? && a.data != [] && s.state != Closed && s.state != HalfClosedLocal
    && limits.buffer > 0 && |s.buffer| >= limits.buffer
  }

  // The owner closes the socket, or is told amid output that the buffer is full.
  ghost predicate Tells(limits: Limits, s: Socket, e: Event) {
    e.Call? && (e.action.Shut? || Overflows(limits, s, e.action))
  }

  // It opens the socket after that.
  ghost predicate OpensAfterClosing(limits: Limits, s: Socket, run: seq<Event>, told: bool)
    requires CanRun(limits, s, run)
    decreases run
  {
    run != [] &&
    if run[0].Opened? then told
    else OpensAfterClosing(limits, Step(limits, s, run[0]), run[1..], told || Tells(limits, s, run[0]))
  }

  // Before a socket is opened it is closed by nothing else.
  lemma UnopenedStep(limits: Limits, s: Socket, e: Event)
    requires Inv(s) && !s.wasOpened && Enabled(s, e) && !e.Opened?
    ensures var n := Step(limits, s, e);
      Inv(n) && !n.wasOpened && (n.state == Closed <==> s.state == Closed || Tells(limits, s, e))
  {
    StepKeepsInv(limits, s, e);
    assert e.Call?;
    ActIsSteady(limits, s, e.action);
    if e.action.Output? {
      PlayIsSteady(limits, s, e.action.reply);
    }
  }

  lemma {:induction false} OpenedOnce(limits: Limits, s: Socket, run: seq<Event>, told: bool)
    requires Inv(s) && s.wasOpened && CanRun(limits, s, run)
    ensures !OpensLate(limits, s, run) && !OpensAfterClosing(limits, s, run, told)
    decreases run
  {
    if run != [] {
      StepKeepsInv(limits, s, run[0]);
      OpenedOnce(limits, Step(limits, s, run[0]), run[1..], told || Tells(limits, s, run[0]));
    }
  }

  lemma {:induction false} OwnersViewFrom(limits: Limits, s: Socket, run: seq<Event>)
    requires Inv(s) && !s.wasOpened && CanRun(limits, s, run)
    ensures OpensLate(limits, s, run) <==> OpensAfterClosing(limits, s, run, s.state == Closed)
    decreases run
  {
    if run != [] {
      var n := Step(limits, s, run[0]);
      if run[0].Opened? {
        StepKeepsInv(limits, s, run[0]);
        OpenedOnce(limits, n, run[1..], false);
      } else {
        UnopenedStep(limits, s, run[0]);
        OwnersViewFrom(limits, n, run[1..]);
      }
    }
  }

  // What the owner can see of it: it opens the socket although it has closed it before or was
  // told of an overflow.
  lemma OwnersView(limits: Limits, run: seq<Event>)
    requires CanRun(limits, START, run)
    ensures OpensLate(limits, START, run) <==> OpensAfterClosing(limits, START, run, false)
  {
    OwnersViewFrom(limits, START, run);
  }

  lemma First(limits: Limits, s: Socket, e: Event, rest: seq<Event>)
    requires Enabled(s, e) && CanRun(limits, Step(limits, s, e), rest)
    ensures CanRun(limits, s, [e] + rest)
    ensures After(limits, s, [e] + rest) == After(limits, Step(limits, s, e), rest)
  {
    assert ([e] + rest)[1..] == rest;
  }

  // With room for one byte.
  const TIGHT := Limits(1, 0)
  const FILL := Call(Output([0], []))
  const OVERFLOWN := START.(buffer := [0], accepted := [0], state := Closed, isOpen := false, closed := true)

  lemma Overflow(rest: seq<Event>)
    requires CanRun(TIGHT, OVERFLOWN, rest)
    ensures CanRun(TIGHT, START, [FILL] + ([FILL] + rest))
    ensures Reached(TIGHT, [FILL] + ([FILL] + rest)) == After(TIGHT, OVERFLOWN, rest)
  {
    var s := START.(buffer := [0], accepted := [0]);
    assert Step(TIGHT, START, FILL) == s;
    assert Step(TIGHT, s, FILL) == OVERFLOWN;
    First(TIGHT, s, FILL, rest);
    First(TIGHT, START, FILL, [FILL] + rest);
  }

  lemma OpenOverflown(rest: seq<Event>)
    requires CanRun(TIGHT, AfterOpen(OVERFLOWN), rest)
    ensures CanRun(TIGHT, START, [FILL, FILL, Opened] + rest)
    ensures Reached(TIGHT, [FILL, FILL, Opened] + rest) == After(TIGHT, AfterOpen(OVERFLOWN), rest)
  {
    First(TIGHT, OVERFLOWN, Opened, rest);
    Overflow([Opened] + rest);
    assert [FILL, FILL, Opened] + rest == [FILL] + ([FILL] + ([Opened] + rest));
  }

  lemma CloseOverflown()
    ensures var aborted := Received(Aborted, 0, [], []);
      && CanRun(TIGHT, AfterOpen(OVERFLOWN), [Call(Shut), aborted])
      && var s := After(TIGHT, AfterOpen(OVERFLOWN), [Call(Shut), aborted]);
        s.wasOpened && s.state == Closed && s.readOps == 0 && s.writeOps == 0 && s.fired == []
  {
    var aborted := Received(Aborted, 0, [], []);
    var s := AfterOpen(OVERFLOWN);
    var n := AfterClose(s);
    First(TIGHT, n, aborted, []);
    First(TIGHT, s, Call(Shut), [aborted]);
    assert [Call(Shut)] + [aborted] == [Call(Shut), aborted];
  }

  // Two outputs before the socket is opened close it, and it is opened all the same. When its
  // owner closes it, and nothing is under way any more, on_socket_close is not called.
  lemma OpenedAfterOverflow()
    ensures CanRun(TIGHT, START, [FILL, FILL]) && Reached(TIGHT, [FILL, FILL]).state == Closed
    ensures CanRun(TIGHT, START, [FILL, FILL, Opened]) && Reached(TIGHT, [FILL, FILL, Opened]).state == Open
    ensures var run := [FILL, FILL, Opened, Call(Shut), Received(Aborted, 0, [], [])];
      && CanRun(TIGHT, START, run)
      && var s := Reached(TIGHT, run);
        s.wasOpened && s.state == Closed && s.readOps == 0 && s.writeOps == 0 && s.fired == []
  {
    Overflow([]);
    assert [FILL] + ([FILL] + []) == [FILL, FILL];
    OpenOverflown([]);
    assert [FILL, FILL, Opened] + [] == [FILL, FILL, Opened];
    CloseOverflown();
    var rest := [Call(Shut), Received(Aborted, 0, [], [])];
    OpenOverflown(rest);
    assert [FILL, FILL, Opened] + rest == [FILL, FILL, Opened, Call(Shut), Received(Aborted, 0, [], [])];
  }

  lemma OneReadOneWrite(limits: Limits, run: seq<Event>)
    requires CanRun(limits, START, run)
    ensures Reached(limits, run).readOps <= 1 && Reached(limits, run).writeOps <= 1
    ensures Reached(limits, run).writeOps == 1 ==> Reached(limits, run).inflight <= Reached(limits, run).buffer
  {
    RunKeepsInv(limits, START, run);
  }

  // What the system confirmed, and then the buffer, is all that output accepted. Sending is shut
  // down once at most, after an end without error, when all of it was confirmed.
  lemma BytesInOrder(limits: Limits, run: seq<Event>)
    requires CanRun(limits, START, run)
    ensures var s := Reached(limits, run);
      && s.written + s.buffer == s.accepted
      && (s.shutdowns == [] || (s.shutdowns == [Shutdown([], Some(NoError))] && s.written == s.accepted))
      && (s.state == HalfClosedLocal ==> s.shutdowns != [])
  {
    RunKeepsInv(limits, START, run);
  }

  lemma NoLostWakeUp(limits: Limits, run: seq<Event>)
    requires CanRun(limits, START, run)
    ensures SendAwake(Reached(limits, run)) && ReceiveAwake(Reached(limits, run))
  {
    RunKeepsInv(limits, START, run);
  }

  // An opened socket with nothing under way and no flush to come has closed and said so, is
  // paused with nothing left to send, or was closed by its peer and waits for its owner's end.
  lemma NothingIsStuck(limits: Limits, run: seq<Event>)
    requires CanRun(limits, START, run)
    requires var s := Reached(limits, run); s.wasOpened && s.readOps == 0 && s.writeOps == 0 && !s.flush
    ensures var s := Reached(limits, run);
      || s.fired == [Fired(Closed, 0, 0)]
      || (s.state == Closed && OpensLate(limits, START, run))
      || (s.paused && (s.state == Open || s.state == HalfClosedLocal) && s.buffer == [])
      || (s.state == HalfClosedRemote && s.buffer == [] && s.eos == None)
  {
    RunKeepsInv(limits, START, run);
    LateIs(limits, START, run);
    OpenedLeavesIdle(limits, START, run);
  }

  lemma {:induction false} OpenedLeavesIdle(limits: Limits, s: Socket, run: seq<Event>)
    requires Inv(s) && CanRun(limits, s, run) && (s.wasOpened ==> s.state != Idle)
    ensures var n := After(limits, s, run); n.wasOpened ==> n.state != Idle
    decreases run
  {
    if run != [] {
      StepKeepsInv(limits, s, run[0]);
      OpenedLeavesIdle(limits, Step(limits, s, run[0]), run[1..]);
    }
  }

  // ----- the hand-over -------------------------------------------------------------------------

  // The state when the owner has returned from the last callback that the function at work waits
  // for. The function uses the fields of the object after that.
  ghost function Midway(limits: Limits, s: Socket, e: Event): Socket
    requires e.Sent? ==> e.count <= |s.inflight| && s.inflight <= s.buffer
  {
    match e
    case Opened => if s.eos == None then Opening(s) else AfterSend(Opening(s))
    case Call(a) => if Overflows(limits, s, a) then Play(limits, s, a.reply) else s
    case Received(code, _, _, _) =>
      if code == Aborted || s.state == Closed then ReadEnded(s) else AfterPassing(limits, ReadEnded(s), e)
    case Sent(code, count, onEase) =>
      if code == Aborted || s.state == Closed then WriteEnded(s)
      else AfterEase(limits, AfterConfirm(WriteEnded(s), count), onEase)
    case Flushed => s
    case TimedOut(reply) => Play(limits, s, reply)
  }

  // on_socket_close, in which the owner lets go of the object, is called by nothing before that.
  ghost predicate HandsOverLast(limits: Limits, s: Socket, e: Event)
    requires e.Sent? ==> e.count <= |s.inflight| && s.inflight <= s.buffer
  {
    Midway(limits, s, e).fired == s.fired
  }

  ghost predicate Gone(s: Socket) {
    s.wasOpened && s.state == Closed && !s.receiving && !s.sending && !s.late
  }

  lemma PlayHandsOver(limits: Limits, s: Socket, script: seq<Action>)
    requires Base(s)
    ensures Play(limits, s, script).fired != s.fired <==> s.state != Closed && Gone(Play(limits, s, script))
  {
    PlayKeeps(limits, s, script);
    PlayIsSteady(limits, s, script);
  }

  lemma PassingHandsOver(limits: Limits, s: Socket, e: Event)
    requires Base(s) && s.state != Closed && e.Received?
    ensures AfterPassing(limits, s, e).fired != s.fired <==> Gone(AfterPassing(limits, s, e))
  {
    PassingKeeps(limits, s, e);
    PassingIsSteady(limits, s, e);
  }

  lemma EaseHandsOver(limits: Limits, s: Socket, onEase: seq<Action>)
    requires Base(s) && s.state != Closed
    ensures AfterEase(limits, s, onEase).fired != s.fired <==> Gone(AfterEase(limits, s, onEase))
  {
    PlayHandsOver(limits, s, onEase);
  }

  lemma OpenHandsOver(s: Socket)
    requires Base(s) && !s.wasOpened
    ensures AfterSend(Opening(s)).fired != s.fired <==> s.state != Closed && Gone(AfterSend(Opening(s)))
  {
    assert Base(Opening(s));
    SendKeeps(Opening(s));
    SendIsNotLate(Opening(s));
  }

  lemma StepHandsOver(limits: Limits, s: Socket, e: Event)
    requires Inv(s) && Enabled(s, e)
    ensures !HandsOverLast(limits, s, e) <==> s.state != Closed && Gone(Midway(limits, s, e))
  {
    match e
    case Opened => OpenHandsOver(s);
    case Call(a) =>
      if Overflows(limits, s, a) {
        PlayHandsOver(limits, s, a.reply);
      }
    case Received(code, _, _, _) =>
      ReadEndedKeeps(s);
      if s.state != Closed {
        PassingHandsOver(limits, ReadEnded(s), e);
      }
    case Sent(code, count, onEase) =>
      WriteEndedKeeps(s);
      if s.state != Closed {
        ConfirmKeeps(WriteEnded(s), count);
        EaseHandsOver(limits, AfterConfirm(WriteEnded(s), count), onEase);
      }
    case Flushed =>
    case TimedOut(reply) => PlayHandsOver(limits, s, reply);
  }

  // The object is used after on_socket_close exactly if the callbacks closed the socket with
  // nothing else under way.
  lemma HandOverIsLast(limits: Limits, run: seq<Event>, e: Event)
    requires CanRun(limits, START, run) && Enabled(Reached(limits, run), e)
    ensures !HandsOverLast(limits, Reached(limits, run), e) <==>
      var s, n := Reached(limits, run), Midway(limits, Reached(limits, run), e);
      && s.state != Closed && n.state == Closed && n.wasOpened && !n.receiving && !n.sending && !n.late
  {
    RunKeepsInv(limits, START, run);
    StepHandsOver(limits, Reached(limits, run), e);
  }

  // Whatever the owner does when a read has ended, it is not, exactly if a write is under way.
  lemma HandOverAfterRead(limits: Limits, run: seq<Event>, code: Code, count: nat)
    requires CanRun(limits, START, run) && Reached(limits, run).readOps > 0 && Reached(limits, run).state != Closed
    requires code != Aborted && (count > 0 || code != Success) && !OpensLate(limits, START, run)
    ensures (forall onData, onEnd ::
               HandsOverLast(limits, Reached(limits, run), Received(code, count, onData, onEnd)))
            <==> Reached(limits, run).writeOps == 1
  {
    var s := Reached(limits, run);
    RunKeepsInv(limits, START, run);
    LateIs(limits, START, run);
    forall onData, onEnd | s.sending
      ensures HandsOverLast(limits, s, Received(code, count, onData, onEnd))
    {
      StepHandsOver(limits, s, Received(code, count, onData, onEnd));
      PassingIsSteady(limits, ReadEnded(s), Received(code, count, onData, onEnd));
    }
    if !s.sending {
      ReadEndsIt(limits, s, code, count);
    }
  }

  lemma ReadEndsIt(limits: Limits, s: Socket, code: Code, count: nat)
    requires Inv(s) && s.readOps > 0 && !s.sending && s.state != Closed && !s.late
    requires code != Aborted && (count > 0 || code != Success)
    ensures !HandsOverLast(limits, s, Received(code, count, [Shut], [Shut]))
  {
    var e := Received(code, count, [Shut], [Shut]);
    StepHandsOver(limits, s, e);
    PlayShut(limits, ReadEnded(s));
    PlayShut(limits, AfterClose(ReadEnded(s)));
  }

  lemma PlayShut(limits: Limits, s: Socket)
    ensures Play(limits, s, [Shut]) == AfterClose(s)
    ensures AfterClose(s).state == Closed && AfterClose(s).late == s.late && AfterClose(s).wasOpened == s.wasOpened
    ensures AfterClose(s).receiving == s.receiving && AfterClose(s).sending == s.sending
  {
  }

  // Nor when a write has ended, exactly if the congestion does not end or a read is under way.
  lemma HandOverAfterWrite(limits: Limits, run: seq<Event>, code: Code, count: nat)
    requires CanRun(limits, START, run) && Reached(limits, run).writeOps > 0 && Reached(limits, run).state != Closed
    requires code != Aborted && count <= |Reached(limits, run).inflight| && !OpensLate(limits, START, run)
    requires Reached(limits, run).inflight <= Reached(limits, run).buffer
    ensures (forall onEase :: HandsOverLast(limits, Reached(limits, run), Sent(code, count, onEase)))
      <==> var s := Reached(limits, run);
        !(limits.congestion > 0 && |s.buffer| - count < limits.congestion) || s.readOps == 1
  {
    var s := Reached(limits, run);
    RunKeepsInv(limits, START, run);
    LateIs(limits, START, run);
    var n := AfterConfirm(WriteEnded(s), count);
    var eases := limits.congestion > 0 && |s.buffer| - count < limits.congestion;
    forall onEase | !eases || s.receiving
      ensures HandsOverLast(limits, s, Sent(code, count, onEase))
    {
      StepHandsOver(limits, s, Sent(code, count, onEase));
      PlayIsSteady(limits, n, onEase);
    }
    if eases && !s.receiving {
      StepHandsOver(limits, s, Sent(code, count, [Shut]));
      PlayShut(limits, n);
      assert !HandsOverLast(limits, s, Sent(code, count, [Shut]));
    }
  }

  // Nor when time is up, or the buffer overflows, exactly if a read or a write is under way.
  lemma HandOverAfterReply(limits: Limits, run: seq<Event>, data: seq<byte>)
    requires CanRun(limits, START, run) && Reached(limits, run).wasOpened && Reached(limits, run).state != Closed
    requires !OpensLate(limits, START, run)
    ensures (forall reply :: HandsOverLast(limits, Reached(limits, run), TimedOut(reply)))
      <==> var s := Reached(limits, run); s.readOps == 1 || s.writeOps == 1
    ensures (forall reply :: HandsOverLast(limits, Reached(limits, run), Call(Output(data, reply))))
      <==> var s := Reached(limits, run);
        !Overflows(limits, s, Output(data, [])) || s.readOps == 1 || s.writeOps == 1
  {
    var s := Reached(limits, run);
    RunKeepsInv(limits, START, run);
    LateIs(limits, START, run);
    forall reply
      ensures s.receiving || s.sending ==> Play(limits, s, reply).fired == s.fired
    {
      PlayHandsOver(limits, s, reply);
      PlayIsSteady(limits, s, reply);
    }
    PlayHandsOver(limits, s, [Shut]);
    PlayShut(limits, s);
    assert !s.receiving && !s.sending ==> !HandsOverLast(limits, s, TimedOut([Shut]));
    assert !s.receiving && !s.sending && Overflows(limits, s, Output(data, [])) ==>
        !HandsOverLast(limits, s, Call(Output(data, [Shut])));
  }

  // ----- the object ----------------------------------------------------------------------------

  // The fields of the object, the system's side of it, and what was seen of it so far.
  class SocketTCP {
    const limits: Limits
    var state: State
    var buffer: seq<byte>
    var eos: Stored
    var wasOpened: bool
    var receiving: bool
    var sending: bool
    var paused: bool
    var closed: bool
    var flush: bool
    var isOpen: bool
    var readOps: nat
    var writeOps: nat
    var inflight: seq<byte>
    ghost var written: seq<byte>
    ghost var accepted: seq<byte>
    ghost var fired: seq<Fired>
    ghost var shutdowns: seq<Shutdown>
    ghost var late: bool

    ghost function Abs(): Socket
      reads this
    {
      Socket(state, buffer, eos, wasOpened, receiving, sending, paused, closed, flush, isOpen, readOps, writeOps,
             inflight, written, accepted, fired, shutdowns, late)
    }

    constructor (limits: Limits)
      ensures Abs() == START && this.limits == limits
    {
      this.limits := limits;
      state, buffer, eos := Idle, [], None;
      wasOpened, receiving, sending, paused, closed, flush, isOpen := false, false, false, false, false, false, true;
      readOps, writeOps, inflight := 0, 0, [];
      written, accepted, fired, shutdowns, late := [], [], [], [], false;
    }

    method Open()
      modifies this
      ensures Abs() == AfterOpen(old(Abs()))
    {
      SetOpen();
      if eos != None {
        Send();
        if state == Closed {
          return;
        }
      }
      FlushAndReceive();
    }

    method SetOpen()
      modifies this
      ensures Abs() == Opening(old(Abs()))
    {
      late := late || state == Closed;
      state, wasOpened, isOpen := State.Open, true, true;
    }

    method FlushAndReceive()
      modifies this
      ensures Abs() == AfterReceive(if old(buffer) == [] then old(Abs()) else AfterNeedFlush(old(Abs())))
    {
      if buffer != [] {
        NeedFlush();
      }
      Receive();
    }

    method Output(data: seq<byte>, reply: seq<Action>)
      modifies this
      ensures Abs() == Act(limits, old(Abs()), Action.Output(data, reply))
      decreases reply, 1
    {
      if state == Closed || state == HalfClosedLocal || data == [] {
        return;
      }
      if limits.buffer > 0 && |buffer| >= limits.buffer {
        Input(reply);
        Close();
      } else {
        buffer, accepted := buffer + data, accepted + data;
        NeedFlush();
      }
    }

    method OutputEnd(ending: Ending)
      modifies this
      ensures Abs() == Act(limits, old(Abs()), Finish(ending))
    {
      if state == Closed || state == HalfClosedLocal {
        return;
      }
      if eos == None {
        eos := Some(ending);
      }
      NeedFlush();
    }

    method Close()
      modifies this
      ensures Abs() == AfterClose(old(Abs()))
    {
      state := Closed;
      CloseSocket();
      CloseAsync();
    }

    method Receive()
      modifies this
      ensures Abs() == AfterReceive(old(Abs()))
    {
      if (state != State.Open && state != HalfClosedLocal) || receiving || paused {
        return;
      }
      readOps := readOps + 1;
      receiving := true;
    }

    method Send()
      modifies this
      ensures Abs() == AfterSend(old(Abs()))
    {
      if (state != State.Open && state != HalfClosedRemote) || sending {
        return;
      }
      if buffer == [] {
        if eos != None {
          if eos == Some(NoError) {
            ShutdownSocket();
            if state == State.Open {
              state := HalfClosedLocal;
            } else {
              Close();
            }
          } else {
            Close();
          }
        }
        return;
      }
      writeOps, inflight := writeOps + 1, buffer;
      sending := true;
    }

    method ShutdownSocket()
      modifies this
      ensures Abs() == AfterShutdown(old(Abs()))
    {
      if isOpen {
        shutdowns := shutdowns + [Shutdown(buffer, eos)];
      }
    }

    method CloseSocket()
      modifies this
      ensures Abs() == old(Abs()).(isOpen := false)
    {
      if isOpen {
        isOpen := false;
      }
    }

    method CloseAsync()
      modifies this
      ensures Abs() == AfterCloseAsync(old(Abs()))
    {
      if closed || receiving || sending || state != Closed {
        return;
      }
      closed := true;
      if wasOpened {
        fired := fired + [Fired(state, readOps, writeOps)];
      }
    }

    method OnTapOpen()
      modifies this
      ensures Abs() == Act(limits, old(Abs()), TapOpen)
    {
      paused := false;
      Receive();
    }

    method OnTapClose()
      modifies this
      ensures Abs() == Act(limits, old(Abs()), TapClose)
    {
      paused := true;
    }

    method NeedFlush()
      modifies this
      ensures Abs() == AfterNeedFlush(old(Abs()))
    {
      if state != Idle {
        flush := true;
      }
    }

    method OnFlush()
      modifies this
      ensures Abs() == AfterSend(old(Abs()).(flush := false))
    {
      flush := false;
      Send();
    }

    method OnTick(reply: seq<Action>)
      modifies this
      ensures Abs() == AfterClose(Play(limits, old(Abs()), reply))
    {
      Input(reply);
      Close();
    }

    // What the owner does when its on_socket_input is called.
    method Input(script: seq<Action>)
      modifies this
      ensures Abs() == Play(limits, old(Abs()), script)
      decreases script, 0
    {
      if script != [] {
        Do(script[0]);
        Input(script[1..]);
      }
    }

    method Do(action: Action)
      modifies this
      ensures Abs() == Act(limits, old(Abs()), action)
      decreases action, 1
    {
      match action
      case Output(data, reply) => Output(data, reply);
      case Finish(ending) => OutputEnd(ending);
      case Shut => Close();
      case TapOpen => OnTapOpen();
      case TapClose => OnTapClose();
    }

    method OnReceive(code: Code, count: nat, onData: seq<Action>, onEnd: seq<Action>)
      requires readOps > 0
      modifies this
      ensures Abs() == AfterOnReceive(limits, old(Abs()), Received(code, count, onData, onEnd))
    {
      EndRead();
      OnRead(code, count, onData, onEnd);
      CloseAsync();
    }

    method EndRead()
      requires readOps > 0
      modifies this
      ensures Abs() == ReadEnded(old(Abs()))
    {
      receiving, readOps := false, readOps - 1;
    }

    method OnRead(code: Code, count: nat, onData: seq<Action>, onEnd: seq<Action>)
      modifies this
      ensures Abs() == AfterRead(limits, old(Abs()), Received(code, count, onData, onEnd))
    {
      if code != Aborted && state != Closed {
        OnInput(code, count, onData, onEnd);
      }
    }

    method OnInput(code: Code, count: nat, onData: seq<Action>, onEnd: seq<Action>)
      modifies this
      ensures Abs() == AfterInput(limits, old(Abs()), Received(code, count, onData, onEnd))
    {
      if count > 0 {
        Input(onData);
      }
      if code != Success {
        Input(onEnd);
        OnEnd(code);
      } else {
        Receive();
      }
    }

    method OnEnd(code: Code)
      modifies this
      ensures Abs() == AfterEnd(old(Abs()), code)
    {
      if code == Eof {
        if state == State.Open {
          state := HalfClosedRemote;
        } else if state == HalfClosedLocal {
          state := Closed;
          CloseSocket();
        }
      } else {
        state := Closed;
        CloseSocket();
      }
    }

    method OnSend(code: Code, count: nat, onEase: seq<Action>)
      requires writeOps > 0 && count <= |inflight| && inflight <= buffer
      modifies this
      ensures Abs() == AfterOnSend(limits, old(Abs()), Sent(code, count, onEase))
    {
      EndWrite();
      OnWrite(code, count, onEase);
      CloseAsync();
    }

    method EndWrite()
      requires writeOps > 0
      modifies this
      ensures Abs() == WriteEnded(old(Abs()))
    {
      sending, writeOps := false, writeOps - 1;
    }

    method OnWrite(code: Code, count: nat, onEase: seq<Action>)
      requires count <= |inflight| && inflight <= buffer
      modifies this
      ensures Abs() == AfterWrite(limits, old(Abs()), Sent(code, count, onEase))
    {
      if code != Aborted && state != Closed {
        OnOutput(code, count, onEase);
      } else {
        inflight := [];
      }
    }

    method OnOutput(code: Code, count: nat, onEase: seq<Action>)
      requires count <= |inflight| && inflight <= buffer
      modifies this
      ensures Abs() == AfterOutput(limits, old(Abs()), Sent(code, count, onEase))
    {
      Confirm(count);
      Ease(onEase);
      if code != Success {
        state := Closed;
        CloseSocket();
      } else {
        SendOn();
      }
    }

    method Confirm(count: nat)
      requires count <= |inflight| && inflight <= buffer
      modifies this
      ensures Abs() == AfterConfirm(old(Abs()), count)
    {
      written := written + inflight[..count];
      buffer, inflight := buffer[count..], [];
    }

    method Ease(onEase: seq<Action>)
      modifies this
      ensures Abs() == AfterEase(limits, old(Abs()), onEase)
    {
      if limits.congestion > 0 && |buffer| < limits.congestion {
        Input(onEase);
      }
    }

    method SendOn()
      modifies this
      ensures Abs() == AfterSendOn(old(Abs()))
    {
      if buffer == [] {
        if eos != None {
          if eos != Some(NoError) {
            state := Closed;
            CloseSocket();
          } else {
            ShutdownSocket();
            if state == State.Open {
              state := HalfClosedLocal;
            } else if state == HalfClosedRemote {
              state := Closed;
              CloseSocket();
            }
          }
        }
      } else {
        Send();
      }
    }

    // One thing that happens to the socket.
    method Serve(e: Event)
      requires Enabled(Abs(), e)
      modifies this
      ensures Abs() == Step(limits, old(Abs()), e)
    {
      match e
      case Opened => Open();
      case Call(action) => Do(action);
      case Received(code, count, onData, onEnd) => OnReceive(code, count, onData, onEnd);
      case Sent(code, count, onEase) => OnSend(code, count, onEase);
      case Flushed => OnFlush();
      case TimedOut(reply) => OnTick(reply);
    }

    method ServeOn(run: seq<Event>)
      requires CanRun(limits, Abs(), run)
      modifies this
      ensures Abs() == After(limits, old(Abs()), run)
      decreases run
    {
      if run != [] {
        Serve(run[0]);
        ServeOn(run[1..]);
      }
    }

    // Whatever happens to a new socket: on_socket_close is called once, as soon as the opened
    // socket is closed with nothing under way, and never if it was opened when already closed; no
    // byte accepted is lost or reordered, and no wake-up is lost.
    method Live(run: seq<Event>)
      requires Abs() == START && CanRun(limits, START, run)
      modifies this
      ensures Abs() == After(limits, START, run)
      ensures fired ==
        if wasOpened && state == Closed && readOps == 0 && writeOps == 0 && !OpensLate(limits, START, run) then
          [Fired(Closed, 0, 0)]
        else
          []
      ensures written + buffer == accepted && readOps <= 1 && writeOps <= 1
      ensures shutdowns == [] || (shutdowns == [Shutdown([], Some(NoError))] && written == accepted)
      ensures SendAwake(Abs()) && ReceiveAwake(Abs())
    {
      ServeOn(run);
      ClosesOnce(limits, run);
      BytesInOrder(limits, run);
      OneReadOneWrite(limits, run);
      NoLostWakeUp(limits, run);
    }
  }
}
