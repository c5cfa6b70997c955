/** The per-connection thread: the receive loop, its inner framing loop, idle detection and
    teardown, as functions of the server state. Reads are replaced by a sequence of events. */
module ChatSession {
  import opened PyStr
  import opened Framing
  import opened ChatProtocol

  /** One outcome of `conn.recv(4096)`: the bytes read (empty once the peer has closed), the
      one-second poll timing out, or any other error. `now` is the clock at that moment. */
  datatype RecvEvent = Data(bytes: string, now: int) | Timeout(now: int) | ReadError

  function SetBuffer(w: World, id: ClientId, b: string): (r: World)
    requires id in w.sessions
  {
    w.(sessions := w.sessions[id := w.sessions[id].(buffer := b)])
  }

  lemma SetBufferKeepsReady(w: World, id: ClientId, loggedIn: bool, b: string)
    requires id in w.sessions
    ensures Ready(w, id, loggedIn) ==> Ready(SetBuffer(w, id, b), id, loggedIn)
  {
    var r := SetBuffer(w, id, b);
    assert forall c :: c in w.sessions ==> r.sessions[c].username == w.sessions[c].username;
  }

  lemma SetBufferKeepsPresent(w: World, id: ClientId, loggedIn: bool, b: string)
    requires Present(w, id, loggedIn) && Routable(w)
    ensures Present(SetBuffer(w, id, b), id, loggedIn) && Routable(SetBuffer(w, id, b))
  {
  }

  /** What the thread of connection `id` leaves alone: the set of clients, every other
      client's buffer and idle clock, and every username once set. */
  ghost predicate Steady(w: World, w': World, id: ClientId) {
    && w'.sessions.Keys == w.sessions.Keys
    && w'.nextId == w.nextId
    && forall c :: c in w.sessions ==>
         && (c != id ==> w'.sessions[c].buffer == w.sessions[c].buffer)
         && (c != id ==> w'.sessions[c].lastActive == w.sessions[c].lastActive)
         && (w.sessions[c].username.Some? ==> w'.sessions[c].username == w.sessions[c].username)
  }

  lemma SteadyTrans(a: World, b: World, c: World, id: ClientId)
    requires Steady(a, b, id) && Steady(b, c, id)
    ensures Steady(a, c, id)
  {
  }

  /** A handler, which keeps every buffer and clock, keeps in particular those of the others. */
  lemma LocalsSteady(w: World, w': World, id: ClientId)
    requires KeepsLocals(w, w')
    ensures Steady(w, w', id)
  {
  }

  lemma SetBufferSteady(w: World, id: ClientId, b: string)
    requires id in w.sessions
    ensures Steady(w, SetBuffer(w, id, b), id)
  {
  }

  datatype Drained = Drained(world: World, loggedIn: bool, lines: seq<string>)

  /** One turn of the inner loop: cut the buffer at its first `\n`, strip the line, skip it
      when blank and dispatch it otherwise; `lines` holds the line dispatched, if any. What
      the turn does to the buffer is stated by `TurnFrames`. */
  function Turn(w: World, id: ClientId, loggedIn: bool): (r: Drained)
    requires Present(w, id, loggedIn) && Routable(w) && NL in w.sessions[id].buffer
    ensures Present(r.world, id, r.loggedIn) && Routable(r.world)
    ensures Ready(w, id, loggedIn) ==> Ready(r.world, id, r.loggedIn)
    ensures loggedIn ==> r.loggedIn
    ensures Steady(w, r.world, id)
  {
    var buf := w.sessions[id].buffer;
    var i := FirstNewline(buf);
    var w1 := SetBuffer(w, id, buf[i + 1..]);
    SetBufferKeepsPresent(w, id, loggedIn, buf[i + 1..]);
    SetBufferKeepsReady(w, id, loggedIn, buf[i + 1..]);
    SetBufferSteady(w, id, buf[i + 1..]);
    var line := Strip(buf[..i]);
    if line == [] then Drained(w1, loggedIn, [])
    else
      var s := Dispatch(w1, id, line, loggedIn);
      DispatchKeepsPresent(w1, id, line, loggedIn);
      DispatchKeepsReady(w1, id, line, loggedIn);
      DispatchKeepsLocals(w1, id, line, loggedIn);
      LocalsSteady(w1, s.world, id);
      SteadyTrans(w, w1, s.world, id);
      Drained(s.world, s.loggedIn, [line])
  }

  /** A turn takes the first line and its terminator out of the buffer, hands the line on
      when it is not blank, and leaves the idle clock alone. */
  lemma TurnFrames(w: World, id: ClientId, loggedIn: bool)
    requires Present(w, id, loggedIn) && Routable(w) && NL in w.sessions[id].buffer
    ensures var r := Turn(w, id, loggedIn);
      var buf := w.sessions[id].buffer;
      var i := FirstNewline(buf);
      && r.world.sessions[id].lastActive == w.sessions[id].lastActive
      && r.world.sessions[id].buffer == buf[i + 1..]
      && r.lines == (if Strip(buf[..i]) == [] then [] else [Strip(buf[..i])])
  {
    var buf := w.sessions[id].buffer;
    var i := FirstNewline(buf);
    var w1 := SetBuffer(w, id, buf[i + 1..]);
    var line := Strip(buf[..i]);
    if line != [] {
      SetBufferKeepsPresent(w, id, loggedIn, buf[i + 1..]);
      DispatchKeepsLocals(w1, id, line, loggedIn);
    }
  }

  /** The inner loop `while b"\n" in client.buffer`, turn after turn until no `\n` is left.
      The lines handed to the dispatcher are the stripped non-blank complete lines of the
      buffer, in arrival order; what stays buffered is the text after the last `\n`; the idle
      clock is not touched; a login is never undone, and every other session's buffer and
      clock are left alone. */
  function Drain(w: World, id: ClientId, loggedIn: bool): (r: Drained)
    requires Present(w, id, loggedIn) && Routable(w)
    ensures Present(r.world, id, r.loggedIn) && Routable(r.world)
    ensures loggedIn ==> r.loggedIn
    ensures Steady(w, r.world, id)
    ensures r.lines == Commands(w.sessions[id].buffer)
    ensures r.world.sessions[id].buffer == Leftover(w.sessions[id].buffer)
    ensures r.world.sessions[id].lastActive == w.sessions[id].lastActive
    decreases |w.sessions[id].buffer|
  {
    var buf := w.sessions[id].buffer;
    if NL !in buf then Drained(w, loggedIn, [])
    else
      var t := Turn(w, id, loggedIn);
      TurnFrames(w, id, loggedIn);
      var r := Drain(t.world, id, t.loggedIn);
      SteadyTrans(w, t.world, r.world, id);
      CommandsJoin(buf, t.world.sessions[id].buffer, t.lines, r.lines);
      LeftoverStep(buf, t.world.sessions[id].buffer, r.world.sessions[id].buffer);
      Drained(r.world, r.loggedIn, t.lines + r.lines)
  }

  /** Draining keeps the registry invariant and the connection live. */
  lemma {:induction false} DrainKeepsReady(w: World, id: ClientId, loggedIn: bool)
    requires Ready(w, id, loggedIn)
    ensures (ReadyPresent(w, id, loggedIn); var r := Drain(w, id, loggedIn); Ready(r.world, id, r.loggedIn))
    decreases |w.sessions[id].buffer|
  {
    ReadyPresent(w, id, loggedIn);
    if NL in w.sessions[id].buffer {
      var t := Turn(w, id, loggedIn);
      TurnFrames(w, id, loggedIn);
      DrainKeepsReady(t.world, id, t.loggedIn);
    }
  }

  /** A buffer that still holds a `\n` is drained by one turn and then by draining the rest. */
  lemma DrainStep(w: World, id: ClientId, loggedIn: bool)
    requires Present(w, id, loggedIn) && Routable(w) && NL in w.sessions[id].buffer
    ensures var t := Turn(w, id, loggedIn);
      && Drain(w, id, loggedIn).world == Drain(t.world, id, t.loggedIn).world
      && Drain(w, id, loggedIn).loggedIn == Drain(t.world, id, t.loggedIn).loggedIn
  {
  }

  datatype Received = Received(world: World, loggedIn: bool, stop: bool)

  /** What a read of `bytes` at time `now` does before the inner loop: refresh the idle clock
      and append to the buffer. */
  function Refresh(w: World, id: ClientId, bytes: string, now: int): (r: World)
    requires id in w.sessions
  {
    var c := w.sessions[id];
    w.(sessions := w.sessions[id := c.(lastActive := now, buffer := c.buffer + bytes)])
  }

  lemma RefreshKeeps(w: World, id: ClientId, loggedIn: bool, bytes: string, now: int)
    requires Present(w, id, loggedIn) && Routable(w)
    ensures Present(Refresh(w, id, bytes, now), id, loggedIn) && Routable(Refresh(w, id, bytes, now))
    ensures Steady(w, Refresh(w, id, bytes, now), id)
  {
  }

  lemma RefreshKeepsReady(w: World, id: ClientId, loggedIn: bool, bytes: string, now: int)
    requires Ready(w, id, loggedIn)
    ensures Ready(Refresh(w, id, bytes, now), id, loggedIn)
  {
    var r := Refresh(w, id, bytes, now);
    assert forall c :: c in w.sessions ==> r.sessions[c].username == w.sessions[c].username;
  }

  /** One pass of the outer `while True` loop: a timeout ends the loop, after sending
      `ERR idle-timeout`, only when strictly more than `idleTimeout` has passed since the
      last read; an error or an empty read ends it; any other read refreshes `last_active`,
      appends to the buffer and drains it. */
  function Receive(w: World, id: ClientId, ev: RecvEvent, loggedIn: bool, idleTimeout: int): (r: Received)
    requires Present(w, id, loggedIn) && Routable(w)
    ensures Present(r.world, id, r.loggedIn) && Routable(r.world)
    ensures loggedIn ==> r.loggedIn
    ensures Steady(w, r.world, id)
  {
    match ev
    case Timeout(now) =>
      if now - w.sessions[id].lastActive > idleTimeout then
        SendKeepsPresent(w, id, "ERR idle-timeout", id, loggedIn);
        SendKeepsLocals(w, id, "ERR idle-timeout");
        LocalsSteady(w, Send(w, id, "ERR idle-timeout"), id);
        Received(Send(w, id, "ERR idle-timeout"), loggedIn, true)
      else Received(w, loggedIn, false)
    case ReadError => Received(w, loggedIn, true)
    case Data(bytes, now) =>
      if bytes == [] then Received(w, loggedIn, true)
      else
        var w1 := Refresh(w, id, bytes, now);
        RefreshKeeps(w, id, loggedIn, bytes, now);
        var d := Drain(w1, id, loggedIn);
        SteadyTrans(w, w1, d.world, id);
        Received(d.world, d.loggedIn, false)
  }

  /** One pass of the outer loop keeps the registry invariant and the connection live. */
  lemma ReceiveKeepsReady(w: World, id: ClientId, ev: RecvEvent, loggedIn: bool, idleTimeout: int)
    requires Ready(w, id, loggedIn)
    ensures var r := Receive(w, id, ev, loggedIn, idleTimeout); Ready(r.world, id, r.loggedIn)
  {
    match ev
    case Timeout(now) =>
      SendKeepsInv(w, id, "ERR idle-timeout");
    case ReadError =>
    case Data(bytes, now) =>
      if bytes != [] {
        RefreshKeepsReady(w, id, loggedIn, bytes, now);
        DrainKeepsReady(Refresh(w, id, bytes, now), id, loggedIn);
      }
  }

  datatype Ran = Ran(world: World, loggedIn: bool, consumed: nat, stopped: bool)

  /** The outer loop fed with `events`: they are handled in order until one ends the loop
      (`stopped`, after `consumed` events) or they run out (all consumed). */
  function Run(w: World, id: ClientId, events: seq<RecvEvent>, loggedIn: bool, idleTimeout: int): (r: Ran)
    requires Present(w, id, loggedIn) && Routable(w)
    ensures Present(r.world, id, r.loggedIn) && Routable(r.world)
    ensures loggedIn ==> r.loggedIn
    ensures r.consumed <= |events|
    ensures !r.stopped ==> r.consumed == |events|
    ensures r.stopped ==> r.consumed > 0
    ensures Steady(w, r.world, id)
    decreases |events|
  {
    if events == [] then Ran(w, loggedIn, 0, false)
    else
      var s := Receive(w, id, events[0], loggedIn, idleTimeout);
      if s.stop then Ran(s.world, s.loggedIn, 1, true)
      else
        var r := Run(s.world, id, events[1..], s.loggedIn, idleTimeout);
        SteadyTrans(w, s.world, r.world, id);
        Ran(r.world, r.loggedIn, r.consumed + 1, r.stopped)
  }

  /** Event `i` is handled by one pass; the loop ends there or runs on the events after it. */
  lemma RunStep(w: World, id: ClientId, events: seq<RecvEvent>, i: nat, loggedIn: bool, idleTimeout: int)
    requires Present(w, id, loggedIn) && Routable(w) && i < |events|
    ensures var s := Receive(w, id, events[i], loggedIn, idleTimeout);
      var r := Run(w, id, events[i..], loggedIn, idleTimeout);
      && (s.stop ==> r.world == s.world && r.stopped && r.consumed == 1)
      && (!s.stop ==>
            var q := Run(s.world, id, events[i + 1..], s.loggedIn, idleTimeout);
            r.world == q.world && r.stopped == q.stopped && r.consumed == q.consumed + 1)
  {
    assert events[i..][0] == events[i] && events[i..][1..] == events[i + 1..];
  }

  /** The whole receive loop keeps the registry invariant and the connection live. */
  lemma {:induction false} RunKeepsReady(w: World, id: ClientId, events: seq<RecvEvent>, loggedIn: bool, idleTimeout: int)
    requires Ready(w, id, loggedIn)
    ensures var r := Run(w, id, events, loggedIn, idleTimeout); Ready(r.world, id, r.loggedIn)
    decreases |events|
  {
    if events != [] {
      var s := Receive(w, id, events[0], loggedIn, idleTimeout);
      ReceiveKeepsReady(w, id, events[0], loggedIn, idleTimeout);
      if !s.stop {
        RunKeepsReady(s.world, id, events[1..], s.loggedIn, idleTimeout);
      }
    }
  }

  datatype Finished = Finished(world: World, id: ClientId, consumed: nat, ended: bool)

  /** `client_thread`: connect at time `now`, run the receive loop, and when it ends tear
      the connection down (the `finally` clause). */
  function ClientThread(w: World, now: int, events: seq<RecvEvent>, idleTimeout: int): (r: Finished)
    requires Inv(w)
    ensures Inv(r.world)
    ensures r.id in r.world.sessions && r.id !in w.sessions
    ensures r.ended <==> r.id !in r.world.conns
    ensures r.ended ==> forall n :: n in r.world.clients ==> r.world.clients[n] != r.id
  {
    var c := Connect(w, now);
    ConnectKeepsInv(w, now);
    ReadyPresent(c.world, c.id, false);
    var run := Run(c.world, c.id, events, false, idleTimeout);
    RunKeepsReady(c.world, c.id, events, false, idleTimeout);
    if run.stopped then
      RemoveKeepsInv(run.world, c.id);
      UnregisterKeepsInv(run.world, c.id);
      Finished(Remove(run.world, c.id), c.id, run.consumed, true)
    else Finished(run.world, c.id, run.consumed, false)
  }

  datatype Abandoned = Abandoned(world: World, id: ClientId, consumed: nat, ended: bool, blocked: bool)

  /** `client_thread` with `remove_client` as written: when the loop ends while the client
      holds a name, the teardown stops inside `broadcast`, holding the global lock, after the
      name is deleted and before any notice is written (`blocked`). */
  function ClientThreadAsWritten(w: World, now: int, events: seq<RecvEvent>, idleTimeout: int): (r: Abandoned)
    requires Inv(w)
    ensures Inv(r.world)
    ensures r.id in r.world.sessions && r.id !in w.sessions
    ensures r.ended <==> r.id !in r.world.conns
    ensures r.blocked <==> r.ended && r.world.sessions[r.id].username.Some?
    ensures r.ended ==> forall n :: n in r.world.clients ==> r.world.clients[n] != r.id
  {
    var c := Connect(w, now);
    ConnectKeepsInv(w, now);
    ReadyPresent(c.world, c.id, false);
    var run := Run(c.world, c.id, events, false, idleTimeout);
    RunKeepsReady(c.world, c.id, events, false, idleTimeout);
    if run.stopped then
      UnregisterKeepsInv(run.world, c.id);
      var t := RemoveAsWritten(run.world, c.id);
      Abandoned(t.world, c.id, run.consumed, true, t.blocked)
    else Abandoned(run.world, c.id, run.consumed, false, false)
  }

  /** The two teardowns differ only in the notice: where the thread as written blocks, the
      corrected thread reaches the same state and then sends `INFO <name> disconnected` to
      the others; everywhere else the two threads end in the same state. */
  lemma TeardownsDiffer(w: World, now: int, events: seq<RecvEvent>, idleTimeout: int)
    requires Inv(w)
    ensures var a := ClientThreadAsWritten(w, now, events, idleTimeout);
      var c := ClientThread(w, now, events, idleTimeout);
      && a.id == c.id && a.consumed == c.consumed && a.ended == c.ended
      && (!a.blocked ==> a.world == c.world)
      && (a.blocked ==>
            c.world == Broadcast(a.world, "INFO " + a.world.sessions[a.id].username.value + " disconnected", Some(a.id)))
  {
  }
}
