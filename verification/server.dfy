/** The server as the program runs it: module-level state that the handlers update in place,
    and the global lock as a flag. Each method is proved to compute the corresponding
    function of ChatProtocol or ChatSession and to keep the registry invariant. */
module ChatServer {
  import opened PyStr
  import opened Framing
  import opened ChatProtocol
  import opened ChatSession

  class Server {
    var clients: map<string, ClientId>
    var order: seq<string>
    var conns: set<ClientId>
    var sessions: map<ClientId, Client>
    var nextId: ClientId
    /** The global `lock`: a plain, non-reentrant lock. */
    var lockHeld: bool

    ghost function State(): World
      reads this
    {
      World(clients, order, conns, sessions, nextId)
    }

    ghost predicate Valid()
      reads this
    {
      Inv(State())
    }

    /** The module state at import time: no clients, no connections, lock free. */
    constructor ()
      ensures State() == World(map[], [], {}, map[], 0) && !lockHeld && Valid()
    {
      clients := map[];
      order := [];
      conns := {};
      sessions := map[];
      nextId := 0;
      lockHeld := false;
    }

    /** `Client.send`: a `\n` is added unless the text already ends with one. */
    method Send(id: ClientId, text: string)
      requires id in sessions
      modifies this
      ensures State() == ChatProtocol.Send(old(State()), id, text)
      ensures lockHeld == old(lockHeld)
    {
      var line := text;
      if !EndsWith(line, "\n") {
        line := line + "\n";
      }
      sessions := sessions[id := sessions[id].(outbox := sessions[id].outbox + [line])];
    }

    /** `broadcast(text, exclude)`: under the lock, over a snapshot of `conns`. */
    method Broadcast(text: string, exclude: Option<ClientId>)
      requires !lockHeld
      modifies this
      ensures State() == ChatProtocol.Broadcast(old(State()), text, exclude)
      ensures !lockHeld
    {
      Acquire();
      ghost var w := State();
      ghost var targets := Targets(w, exclude);
      var pending := conns;
      while pending != {}
        invariant lockHeld
        invariant clients == w.clients && order == w.order && conns == w.conns && nextId == w.nextId
        invariant pending <= w.conns
        invariant sessions.Keys == w.sessions.Keys
        invariant forall c :: c in w.sessions ==>
          sessions[c] == if c in targets && c !in pending then Deliver(w.sessions[c], text) else w.sessions[c]
        decreases pending
      {
        var c :| c in pending;
        if c in sessions && Truthy(sessions[c].username) && exclude != Some(c) {
          Send(c, text);
        }
        pending := pending - {c};
      }
      Release();
    }

    /** `handle_login(line, client)`; `ok` is its return value. */
    method HandleLogin(id: ClientId, line: string) returns (ok: bool)
      requires Present(State(), id, false) && !lockHeld
      modifies this
      ensures State() == Login(old(State()), id, line).world && ok == Login(old(State()), id, line).loggedIn
      ensures !lockHeld
    {
      ghost var w := State();
      var parts := SplitWs(Strip(line), 1);
      if |parts| != 2 {
        LoginRefusesFormat(w, id, line);
        Send(id, "ERR invalid-login-format");
        return false;
      }
      var name := Strip(parts[1]);
      if name == [] {
        // `ERR invalid-username`: a part of a stripped split is never blank, so this
        // branch of `handle_login` is dead code.
        LoginNameNotBlank(line);
        assert false;
      }
      Acquire();
      if name in clients {
        LoginRefusesTaken(w, id, line);
        Send(id, "ERR username-taken");
        Release();
        return false;
      }
      RegisterName(id, name);
      Release();
      Send(id, "OK");
      Broadcast("INFO " + name + " connected", Some(id));
      ok := true;
      LoginRegisters(w, id, line, name);
    }

    /** The critical section of a successful `handle_login`: the name goes into `clients`
        and the client record gets it. */
    method RegisterName(id: ClientId, name: string)
      requires id in sessions && sessions[id].username.None?
      modifies this
      ensures State() == Register(old(State()), id, name) && lockHeld == old(lockHeld)
    {
      var client := sessions[id];
      clients, order, sessions := clients[name := id], order + [name], sessions[id := client.(username := Some(name))];
    }

    /** `with lock:` on entry. */
    method Acquire()
      requires !lockHeld
      modifies this
      ensures lockHeld && State() == old(State())
    {
      lockHeld := true;
    }

    /** `with lock:` on exit. */
    method Release()
      requires lockHeld
      modifies this
      ensures !lockHeld && State() == old(State())
    {
      lockHeld := false;
    }

    /** `handle_msg(line, client)`. */
    method HandleMsg(id: ClientId, line: string)
      requires Present(State(), id, true) && !lockHeld
      modifies this
      ensures State() == Msg(old(State()), id, line)
      ensures !lockHeld
    {
      var parts := SplitWs(line, 1);
      if |parts| < 2 {
        return;
      }
      var text := Strip(parts[1]);
      Broadcast("MSG " + sessions[id].username.value + " " + text, None);
    }

    /** `handle_dm(line, client)`: the lookup is made under the lock, the sends outside it. */
    method HandleDm(id: ClientId, line: string)
      requires Present(State(), id, true) && Routable(State()) && !lockHeld
      modifies this
      ensures State() == Dm(old(State()), id, line)
      ensures !lockHeld
    {
      var parts := SplitWs(line, 2);
      if |parts| < 3 {
        Send(id, "ERR dm-format");
        return;
      }
      var target := parts[1];
      var text := parts[2];
      Acquire();
      var found := target in clients;
      var targetId := if found then clients[target] else id;
      Release();
      if !found {
        Send(id, "ERR user-not-found");
        return;
      }
      var dm := "DM " + sessions[id].username.value + " " + text;
      Send(targetId, dm);
      Send(id, dm);
    }

    /** `handle_who(client)`: one `USER` line per name in dict order, under the lock. */
    method HandleWho(id: ClientId)
      requires Present(State(), id, true) && !lockHeld
      modifies this
      ensures State() == Who(old(State()), id)
      ensures !lockHeld
    {
      Acquire();
      SendRoster(id);
      Release();
    }

    /** The loop of `WHO`: one `USER <name>` line per registered name, in login order. */
    method SendRoster(id: ClientId)
      requires id in sessions
      modifies this
      ensures sessions == old(sessions)[id := old(sessions)[id].(outbox := old(sessions)[id].outbox + Roster(order))]
      ensures clients == old(clients) && order == old(order) && conns == old(conns)
      ensures nextId == old(nextId) && lockHeld == old(lockHeld)
    {
      ghost var before := sessions;
      ghost var out := sessions[id].outbox;
      var i := 0;
      assert Roster(order[..0]) == [] && out + [] == out;
      assert before[id].(outbox := out) == before[id];
      while i < |order|
        invariant 0 <= i <= |order|
        invariant clients == old(clients) && order == old(order) && conns == old(conns)
        invariant nextId == old(nextId) && lockHeld == old(lockHeld)
        invariant sessions == before[id := before[id].(outbox := out + Roster(order[..i]))]
      {
        SendUser(id, i, before, out);
        i := i + 1;
      }
      assert order[..i] == order;
    }

    /** One turn of the WHO loop: the next `USER <name>` line goes to the asker. */
    method SendUser(id: ClientId, i: nat, ghost before: map<ClientId, Client>, ghost out: seq<string>)
      requires i < |order| && id in before
      requires sessions == before[id := before[id].(outbox := out + Roster(order[..i]))]
      modifies this
      ensures clients == old(clients) && order == old(order) && conns == old(conns)
      ensures nextId == old(nextId) && lockHeld == old(lockHeld)
      ensures sessions == before[id := before[id].(outbox := out + Roster(order[..i + 1]))]
    {
      ghost var prev := out + Roster(order[..i]);
      ghost var line := Terminated("USER " + order[i]);
      RosterSnoc(order, i);
      SnocAssoc(out, Roster(order[..i]), line);
      Send(id, "USER " + order[i]);
      assert sessions == before[id := before[id].(outbox := prev + [line])];
    }

    /** `handle_ping(client)`. */
    method HandlePing(id: ClientId)
      requires id in sessions
      modifies this
      ensures State() == ChatProtocol.Send(old(State()), id, "PONG")
      ensures lockHeld == old(lockHeld)
    {
      Send(id, "PONG");
    }

    /** The branch of the receive loop that handles one stripped, non-blank line. */
    method Dispatch(id: ClientId, line: string, loggedIn: bool) returns (li: bool)
      requires Present(State(), id, loggedIn) && Routable(State()) && !lockHeld
      modifies this
      ensures State() == ChatProtocol.Dispatch(old(State()), id, line, loggedIn).world
      ensures li == ChatProtocol.Dispatch(old(State()), id, line, loggedIn).loggedIn
      ensures !lockHeld
    {
      var u := Upper(line);
      li := loggedIn;
      if !loggedIn {
        if StartsWith(u, "LOGIN ") {
          li := HandleLogin(id, line);
        } else {
          Send(id, "ERR please-login-first");
        }
      } else if StartsWith(u, "MSG ") {
        HandleMsg(id, line);
      } else if u == "WHO" {
        HandleWho(id);
      } else if StartsWith(u, "DM ") {
        HandleDm(id, line);
      } else if u == "PING" {
        HandlePing(id);
      } else {
        Send(id, "ERR unknown-command");
      }
    }

    /** The inner loop `while b"\n" in client.buffer`. */
    method ProcessBuffer(id: ClientId, loggedIn: bool) returns (li: bool)
      requires Present(State(), id, loggedIn) && Routable(State()) && !lockHeld
      modifies this
      ensures State() == Drain(old(State()), id, loggedIn).world
      ensures li == Drain(old(State()), id, loggedIn).loggedIn
      ensures !lockHeld
    {
      li := loggedIn;
      while NL in sessions[id].buffer
        invariant Present(State(), id, li) && Routable(State()) && !lockHeld
        invariant Drain(State(), id, li).world == Drain(old(State()), id, loggedIn).world
        invariant Drain(State(), id, li).loggedIn == Drain(old(State()), id, loggedIn).loggedIn
        decreases |sessions[id].buffer|
      {
        ghost var w := State();
        DrainStep(w, id, li);
        TurnFrames(w, id, li);
        li := TakeLine(id, li);
      }
    }

    /** One turn of the inner loop: cut the buffer at its first `\n`, strip the line, and
        dispatch it unless it is blank. */
    method TakeLine(id: ClientId, loggedIn: bool) returns (li: bool)
      requires Present(State(), id, loggedIn) && Routable(State()) && !lockHeld && NL in sessions[id].buffer
      modifies this
      ensures State() == Turn(old(State()), id, loggedIn).world
      ensures li == Turn(old(State()), id, loggedIn).loggedIn
      ensures !lockHeld
    {
      ghost var w := State();
      var buf := sessions[id].buffer;
      var i := FirstNewline(buf);
      var line := Strip(buf[..i]);
      sessions := sessions[id := sessions[id].(buffer := buf[i + 1..])];
      ghost var w1 := SetBuffer(w, id, buf[i + 1..]);
      assert State() == w1;
      SetBufferKeepsPresent(w, id, loggedIn, buf[i + 1..]);
      if line != [] {
        li := Dispatch(id, line, loggedIn);
      } else {
        li := loggedIn;
      }
    }

    /** One pass of the outer receive loop; `stop` says the loop ends. */
    method Receive(id: ClientId, ev: RecvEvent, loggedIn: bool, idleTimeout: int) returns (li: bool, stop: bool)
      requires Present(State(), id, loggedIn) && Routable(State()) && !lockHeld
      modifies this
      ensures State() == ChatSession.Receive(old(State()), id, ev, loggedIn, idleTimeout).world
      ensures li == ChatSession.Receive(old(State()), id, ev, loggedIn, idleTimeout).loggedIn
      ensures stop == ChatSession.Receive(old(State()), id, ev, loggedIn, idleTimeout).stop
      ensures !lockHeld
    {
      li := loggedIn;
      match ev
      case Timeout(now) =>
        if now - sessions[id].lastActive > idleTimeout {
          Send(id, "ERR idle-timeout");
          stop := true;
        } else {
          stop := false;
        }
      case ReadError =>
        stop := true;
      case Data(bytes, now) =>
        if bytes == [] {
          stop := true;
        } else {
          ghost var w := State();
          var c := sessions[id];
          sessions := sessions[id := c.(lastActive := now, buffer := c.buffer + bytes)];
          assert State() == Refresh(w, id, bytes, now);
          RefreshKeeps(w, id, loggedIn, bytes, now);
          li := ProcessBuffer(id, loggedIn);
          stop := false;
        }
    }

    /** The start of `client_thread`: a new client in `conns`, greeted with the banner. */
    method Connect(now: int) returns (id: ClientId)
      requires Valid()
      modifies this
      ensures State() == ChatProtocol.Connect(old(State()), now).world
      ensures id == ChatProtocol.Connect(old(State()), now).id
      ensures Ready(State(), id, false) && lockHeld == old(lockHeld)
    {
      ConnectKeepsInv(State(), now);
      id := nextId;
      nextId := nextId + 1;
      sessions := sessions[id := Client(None, [], now, [])];
      conns := conns + {id};
      Send(id, Welcome);
      assert sessions[id].outbox == [Terminated(Welcome)];
    }

    /** `remove_client` with the disconnect notice sent after the lock is released. */
    method RemoveClient(id: ClientId)
      requires Valid() && id in sessions && !lockHeld
      modifies this
      ensures State() == Remove(old(State()), id)
      ensures Valid() && id !in conns && !lockHeld
    {
      RemoveKeepsInv(State(), id);
      UnregisterKeepsInv(State(), id);
      Acquire();
      if id in conns {
        conns := conns - {id};
      }
      var u := sessions[id].username;
      var freed := Truthy(u) && u.value in clients && clients[u.value] == id;
      if freed {
        clients := clients - {u.value};
        order := RemoveName(order, u.value);
      }
      Release();
      if freed {
        Broadcast("INFO " + u.value + " disconnected", Some(id));
      }
    }

    /** `remove_client` as written: the notice is sent from inside the locked block, and
        `broadcast` needs the lock this thread already holds. `blocked` says the thread
        stops there for good with the lock held; no notice is written. */
    method RemoveClientAsWritten(id: ClientId) returns (blocked: bool)
      requires id in sessions && !lockHeld
      modifies this
      ensures State() == RemoveAsWritten(old(State()), id).world
      ensures blocked == RemoveAsWritten(old(State()), id).blocked
      ensures lockHeld == blocked
    {
      Acquire();
      if id in conns {
        conns := conns - {id};
      }
      var u := sessions[id].username;
      if Truthy(u) && u.value in clients && clients[u.value] == id {
        clients := clients - {u.value};
        order := RemoveName(order, u.value);
        // broadcast(...) would acquire the lock again here; it is held, so the thread waits
        // forever and never reaches the end of the block.
        assert lockHeld;
        return true;
      }
      Release();
      blocked := false;
    }

    /** `client_thread` fed with `events`: connect, run the receive loop until an event ends
        it or the events run out, and tear the connection down when it ended. */
    method ClientThread(now: int, events: seq<RecvEvent>, idleTimeout: int)
      returns (id: ClientId, consumed: nat, ended: bool)
      requires Valid() && !lockHeld
      modifies this
      ensures State() == ChatSession.ClientThread(old(State()), now, events, idleTimeout).world
      ensures id == ChatSession.ClientThread(old(State()), now, events, idleTimeout).id
      ensures consumed == ChatSession.ClientThread(old(State()), now, events, idleTimeout).consumed
      ensures ended == ChatSession.ClientThread(old(State()), now, events, idleTimeout).ended
      ensures Valid() && !lockHeld
    {
      id := Connect(now);
      ReadyPresent(State(), id, false);
      RunKeepsReady(State(), id, events, false, idleTimeout);
      var stop;
      consumed, stop := ReceiveLoop(id, events, idleTimeout);
      if stop {
        RemoveClient(id);
        ended := true;
      } else {
        ended := false;
      }
    }

    /** `client_thread` with `remove_client` as written: a thread whose client holds a name
        when the loop ends never comes back from the teardown, and the global lock stays held,
        so every later `handle_login`, `handle_who` or `broadcast` waits forever. */
    method ClientThreadAsWritten(now: int, events: seq<RecvEvent>, idleTimeout: int)
      returns (id: ClientId, consumed: nat, ended: bool, blocked: bool)
      requires Valid() && !lockHeld
      modifies this
      ensures State() == ChatSession.ClientThreadAsWritten(old(State()), now, events, idleTimeout).world
      ensures id == ChatSession.ClientThreadAsWritten(old(State()), now, events, idleTimeout).id
      ensures consumed == ChatSession.ClientThreadAsWritten(old(State()), now, events, idleTimeout).consumed
      ensures ended == ChatSession.ClientThreadAsWritten(old(State()), now, events, idleTimeout).ended
      ensures blocked == ChatSession.ClientThreadAsWritten(old(State()), now, events, idleTimeout).blocked
      ensures Valid() && lockHeld == blocked
    {
      id := Connect(now);
      ReadyPresent(State(), id, false);
      RunKeepsReady(State(), id, events, false, idleTimeout);
      var stop;
      consumed, stop := ReceiveLoop(id, events, idleTimeout);
      if stop {
        blocked := RemoveClientAsWritten(id);
        ended := true;
      } else {
        ended := false;
        blocked := false;
      }
    }

    /** The outer `while True` loop of `client_thread`, from login state "not logged in",
        over the events in order until one of them ends it. */
    method ReceiveLoop(id: ClientId, events: seq<RecvEvent>, idleTimeout: int) returns (consumed: nat, stop: bool)
      requires Present(State(), id, false) && Routable(State()) && !lockHeld
      modifies this
      ensures State() == Run(old(State()), id, events, false, idleTimeout).world
      ensures consumed == Run(old(State()), id, events, false, idleTimeout).consumed
      ensures stop == Run(old(State()), id, events, false, idleTimeout).stopped
      ensures !lockHeld
    {
      ghost var run := Run(State(), id, events, false, idleTimeout);
      var li := false;
      stop := false;
      var i := 0;
      while i < |events| && !stop
        invariant 0 <= i <= |events|
        invariant Present(State(), id, li) && Routable(State()) && !lockHeld
        invariant !stop ==> var rest := Run(State(), id, events[i..], li, idleTimeout);
          rest.world == run.world && rest.stopped == run.stopped && i + rest.consumed == run.consumed
        invariant stop ==> State() == run.world && run.stopped && i == run.consumed
      {
        RunStep(State(), id, events, i, li, idleTimeout);
        li, stop := Receive(id, events[i], li, idleTimeout);
        i := i + 1;
      }
      consumed := i;
      if !stop {
        assert events[i..] == [];
      }
    }
  }

  lemma SnocAssoc(a: seq<string>, b: seq<string>, x: string)
    ensures a + b + [x] == a + (b + [x])
  {
  }
}
