/** The chat server's shared state and its handlers, each as a function from the state before
    the handler runs to the state after it (every handler is one atomic step). The imperative
    `ChatServer.Server` class is proved to compute exactly these functions. */
module ChatProtocol {
  import opened PyStr

  datatype Option<T> = None | Some(value: T)

  /** The identity of a `Client` object: the server compares clients with `is`. */
  type ClientId = nat

  /** A `Client` record. Its socket is replaced by `outbox`: every text handed to `sendall`
      on this connection, in order. */
  datatype Client = Client(username: Option<string>, buffer: string, lastActive: int, outbox: seq<string>)

  /** The module-level state: the `clients` dict (name to client; `order` is the dict's
      insertion order, which WHO walks), the `conns` set of live connections, and every
      `Client` object created so far, with the next fresh identity. */
  datatype World = World(
    clients: map<string, ClientId>,
    order: seq<string>,
    conns: set<ClientId>,
    sessions: map<ClientId, Client>,
    nextId: ClientId)

  const Welcome: string := "Welcome! Please LOGIN <username>"

  /** Python truthiness of `client.username`: set and not empty. */
  predicate Truthy(u: Option<string>) {
    u.Some? && u.value != []
  }

  predicate NoDup(s: seq<string>) {
    forall i, j :: 0 <= i < j < |s| ==> s[i] != s[j]
  }

  /** The registry invariant: every name in `clients` belongs to a live connection whose
      `username` is that name, every live connection that has a name is the one registered
      under it (so names are unique among live connections), names are never empty, and
      `order` lists the dict's keys once each. */
  ghost predicate Inv(w: World) {
    && w.conns <= w.sessions.Keys
    && (forall id :: id in w.sessions ==> id < w.nextId)
    && (forall n :: n in w.clients ==>
          w.clients[n] in w.conns && w.sessions[w.clients[n]].username == Some(n))
    && (forall id :: id in w.conns && w.sessions[id].username.Some? ==>
          w.sessions[id].username.value in w.clients && w.clients[w.sessions[id].username.value] == id)
    && (forall id :: id in w.sessions && w.sessions[id].username.Some? ==>
          w.sessions[id].username.value != [] && IsStripped(w.sessions[id].username.value))
    && NoDup(w.order)
    && (forall n :: n in w.order <==> n in w.clients)
  }

  /** The state a connection's thread sees between two handlers: the invariant holds, the
      connection is live, and the thread's `logged_in` flag says whether it has a name. */
  ghost predicate Ready(w: World, id: ClientId, loggedIn: bool) {
    Inv(w) && id in w.conns && (loggedIn <==> w.sessions[id].username.Some?)
  }

  /** What a handler needs of its own connection: the client record exists and the thread's
      `logged_in` flag says whether it has a name. */
  predicate Present(w: World, id: ClientId, loggedIn: bool) {
    id in w.sessions && (loggedIn <==> w.sessions[id].username.Some?)
  }

  /** Every registered name belongs to a known client, so a DM can be routed. */
  predicate Routable(w: World) {
    forall n :: n in w.clients ==> w.clients[n] in w.sessions
  }

  /** What no handler touches: the set of clients, each client's buffer and idle clock, and a
      username once it is set. */
  ghost predicate KeepsLocals(w: World, w': World) {
    && w'.sessions.Keys == w.sessions.Keys
    && w'.nextId == w.nextId
    && forall c :: c in w.sessions ==>
         && w'.sessions[c].buffer == w.sessions[c].buffer
         && w'.sessions[c].lastActive == w.sessions[c].lastActive
         && (w.sessions[c].username.Some? ==> w'.sessions[c].username == w.sessions[c].username)
  }

  // ---------------------------------------------------------------------------
  // Sending

  /** The text `Client.send` writes: a `\n` is added unless the text already ends with one. */
  function Terminated(text: string): (line: string)
    ensures EndsWith(line, "\n")
    ensures StartsWith(line, text) && |line| <= |text| + 1
    ensures line == text <==> EndsWith(text, "\n")
  {
    if EndsWith(text, "\n") then text else text + "\n"
  }

  function Deliver(c: Client, text: string): Client {
    c.(outbox := c.outbox + [Terminated(text)])
  }

  /** `Client.send`: write failures are swallowed, so sending never fails. */
  function Send(w: World, id: ClientId, text: string): (r: World)
    requires id in w.sessions
  {
    w.(sessions := w.sessions[id := Deliver(w.sessions[id], text)])
  }

  /** The connections `broadcast` writes to: live, with a truthy username, not `exclude`. */
  function Targets(w: World, exclude: Option<ClientId>): set<ClientId> {
    set c | c in w.conns && c in w.sessions && Truthy(w.sessions[c].username) && exclude != Some(c)
  }

  /** `broadcast(text, exclude)`. */
  function Broadcast(w: World, text: string, exclude: Option<ClientId>): (r: World)
  {
    var t := Targets(w, exclude);
    w.(sessions := map c | c in w.sessions :: if c in t then Deliver(w.sessions[c], text) else w.sessions[c])
  }

  // ---------------------------------------------------------------------------
  // Handlers

  datatype Step = Step(world: World, loggedIn: bool)

  /** The critical section of a successful `handle_login`. */
  function Register(w: World, id: ClientId, name: string): (r: World)
    requires id in w.sessions && w.sessions[id].username.None?
  {
    w.(clients := w.clients[name := id],
       order := w.order + [name],
       sessions := w.sessions[id := w.sessions[id].(username := Some(name))])
  }

  /** `handle_login(line, client)`; `loggedIn` of the result is its return value. */
  function Login(w: World, id: ClientId, line: string): (r: Step)
    requires Present(w, id, false)
  {
    var parts := SplitWs(Strip(line), 1);
    if |parts| != 2 then Step(Send(w, id, "ERR invalid-login-format"), false)
    else
      var name := Strip(parts[1]);
      if name == [] then Step(Send(w, id, "ERR invalid-username"), false)
      else if name in w.clients then Step(Send(w, id, "ERR username-taken"), false)
      else
        var w1 := Send(Register(w, id, name), id, "OK");
        var w2 := Broadcast(w1, "INFO " + name + " connected", Some(id));
        Step(w2, true)
  }

  /** `handle_msg(line, client)`: no `exclude`, so the sender receives its own line. */
  function Msg(w: World, id: ClientId, line: string): (r: World)
    requires Present(w, id, true)
  {
    var parts := SplitWs(line, 1);
    if |parts| < 2 then w
    else Broadcast(w, "MSG " + w.sessions[id].username.value + " " + Strip(parts[1]), None)
  }

  /** `handle_dm(line, client)`: the same line goes to the target, then back to the sender. */
  function Dm(w: World, id: ClientId, line: string): (r: World)
    requires Present(w, id, true) && Routable(w)
  {
    var parts := SplitWs(line, 2);
    if |parts| < 3 then Send(w, id, "ERR dm-format")
    else if parts[1] !in w.clients then Send(w, id, "ERR user-not-found")
    else
      var dm := "DM " + w.sessions[id].username.value + " " + parts[2];
      Send(Send(w, w.clients[parts[1]], dm), id, dm)
  }

  /** The lines WHO writes, one per name, in the order given. */
  function Roster(names: seq<string>): (lines: seq<string>)
    ensures |lines| == |names|
    ensures forall k :: 0 <= k < |names| ==> lines[k] == Terminated("USER " + names[k])
  {
    if names == [] then [] else [Terminated("USER " + names[0])] + Roster(names[1..])
  }

  lemma {:induction false} RosterAppend(a: seq<string>, b: seq<string>)
    ensures Roster(a + b) == Roster(a) + Roster(b)
  {
    if a == [] {
      assert a + b == b;
    } else {
      assert (a + b)[0] == a[0];
      assert (a + b)[1..] == a[1..] + b;
      RosterAppend(a[1..], b);
    }
  }

  /** One more turn of the WHO loop adds the next name's line at the end. */
  lemma RosterSnoc(names: seq<string>, i: nat)
    requires i < |names|
    ensures Roster(names[..i + 1]) == Roster(names[..i]) + [Terminated("USER " + names[i])]
  {
    assert names[..i + 1] == names[..i] + [names[i]];
    RosterAppend(names[..i], [names[i]]);
    assert [names[i]][1..] == [];
  }

  /** `handle_who(client)`. */
  function Who(w: World, id: ClientId): (r: World)
    requires Present(w, id, true)
  {
    w.(sessions := w.sessions[id := w.sessions[id].(outbox := w.sessions[id].outbox + Roster(w.order))])
  }

  /** The branch of the receive loop that handles one stripped, non-blank line. */
  function Dispatch(w: World, id: ClientId, line: string, loggedIn: bool): (r: Step)
    requires Present(w, id, loggedIn) && Routable(w)
  {
    var u := Upper(line);
    if !loggedIn then
      if StartsWith(u, "LOGIN ") then Login(w, id, line)
      else Step(Send(w, id, "ERR please-login-first"), false)
    else if StartsWith(u, "MSG ") then Step(Msg(w, id, line), true)
    else if u == "WHO" then Step(Who(w, id), true)
    else if StartsWith(u, "DM ") then Step(Dm(w, id, line), true)
    else if u == "PING" then Step(Send(w, id, "PONG"), true)
    else Step(Send(w, id, "ERR unknown-command"), true)
  }

  // ---------------------------------------------------------------------------
  // Connection and teardown

  datatype Connected = Connected(world: World, id: ClientId)

  /** The start of `client_thread`: a new `Client`, added to `conns`, sent the banner. */
  function Connect(w: World, now: int): Connected {
    var id := w.nextId;
    var c := Client(None, [], now, [Terminated(Welcome)]);
    Connected(w.(conns := w.conns + {id}, sessions := w.sessions[id := c], nextId := id + 1), id)
  }

  /** `s` without `n`, otherwise in the same order. */
  function RemoveName(s: seq<string>, n: string): (r: seq<string>)
    ensures forall x :: x in r <==> x in s && x != n
    ensures NoDup(s) ==> NoDup(r)
  {
    if s == [] then []
    else if s[0] == n then RemoveName(s[1..], n)
    else
      var rest := RemoveName(s[1..], n);
      if NoDup(s) then NoDupCons(s, rest); [s[0]] + rest else [s[0]] + rest
  }

  /** Deleting a key that is not there changes nothing. */
  lemma {:induction false} RemoveNameAbsent(s: seq<string>, n: string)
    requires n !in s
    ensures RemoveName(s, n) == s
    decreases |s|
  {
    if s != [] {
      assert n !in s[1..];
      RemoveNameAbsent(s[1..], n);
      assert s == [s[0]] + s[1..];
    }
  }

  /** Deleting a key keeps the insertion order of the others: a name listed once is cut out
      at its place. */
  lemma {:induction false} RemoveNameAt(s: seq<string>, n: string)
    requires NoDup(s) && n in s
    ensures exists k :: 0 <= k < |s| && s[k] == n && RemoveName(s, n) == s[..k] + s[k + 1..]
    decreases |s|
  {
    var t := s[1..];
    NoDupTail(s);
    if s[0] == n {
      RemoveNameAbsent(t, n);
      assert RemoveName(s, n) == s[..0] + s[0 + 1..];
    } else {
      assert n in t;
      RemoveNameAt(t, n);
      var k :| 0 <= k < |t| && t[k] == n && RemoveName(t, n) == t[..k] + t[k + 1..];
      assert RemoveName(s, n) == [s[0]] + RemoveName(t, n);
      ConsSplice(s, k);
      assert s[k + 1] == n;
    }
  }

  /** Putting the head back in front of the tail with its `k`-th entry cut out is `s` with
      its `k + 1`-th entry cut out. */
  lemma ConsSplice(s: seq<string>, k: nat)
    requires k + 1 < |s|
    ensures [s[0]] + (s[1..][..k] + s[1..][k + 1..]) == s[..k + 1] + s[k + 2..]
  {
    assert s[1..][..k] == s[1..k + 1];
    assert s[1..][k + 1..] == s[k + 2..];
    assert [s[0]] + s[1..k + 1] == s[..k + 1];
  }

  lemma NoDupTail(s: seq<string>)
    requires s != [] && NoDup(s)
    ensures NoDup(s[1..]) && s[0] !in s[1..]
  {
    var t := s[1..];
    forall j | 0 <= j < |t| ensures t[j] != s[0] { assert t[j] == s[j + 1]; }
    forall i, j | 0 <= i < j < |t| ensures t[i] != t[j] { assert t[i] == s[i + 1] && t[j] == s[j + 1]; }
  }

  lemma NoDupCons(s: seq<string>, rest: seq<string>)
    requires s != [] && NoDup(s) && NoDup(rest)
    requires forall x :: x in rest ==> x in s[1..]
    ensures NoDup([s[0]] + rest)
  {
    assert s[0] !in s[1..] by {
      forall k | 0 <= k < |s[1..]| ensures s[1..][k] != s[0] {
        assert s[1..][k] == s[k + 1];
      }
    }
    var r := [s[0]] + rest;
    forall i, j | 0 <= i < j < |r| ensures r[i] != r[j] {
      if i == 0 { assert r[j] == rest[j - 1]; assert rest[j - 1] in rest; } else { assert r[i] == rest[i - 1] && r[j] == rest[j - 1]; }
    }
  }


  datatype Unregistered = Unregistered(world: World, freed: Option<string>)

  /** The critical section of `remove_client`: drop the connection from `conns`, and its
      name from `clients` when that name is registered to this very client. */
  function Unregister(w: World, id: ClientId): Unregistered
    requires id in w.sessions
  {
    var u := w.sessions[id].username;
    var w1 := w.(conns := w.conns - {id});
    if Truthy(u) && u.value in w.clients && w.clients[u.value] == id then
      Unregistered(w1.(clients := w.clients - {u.value}, order := RemoveName(w.order, u.value)), Some(u.value))
    else
      Unregistered(w1, None)
  }

  /** `remove_client` with the notice sent after the lock is released. */
  function Remove(w: World, id: ClientId): World
    requires id in w.sessions
  {
    var u := Unregister(w, id);
    if u.freed.Some? then Broadcast(u.world, "INFO " + u.freed.value + " disconnected", Some(id))
    else u.world
  }

  datatype Teardown = Teardown(world: World, blocked: bool)

  /** `remove_client` as written: the notice is sent by `broadcast`, which takes the global
      lock again while this thread still holds it. `blocked` says the thread stops there for
      good, holding the lock, before any notice is written. */
  function RemoveAsWritten(w: World, id: ClientId): Teardown
    requires id in w.sessions
  {
    var u := Unregister(w, id);
    Teardown(u.world, u.freed.Some?)
  }

  // ---------------------------------------------------------------------------
  // No handler touches another thread's buffer or clock, or a name once it is set

  lemma KeepsLocalsTrans(a: World, b: World, c: World)
    requires KeepsLocals(a, b) && KeepsLocals(b, c)
    ensures KeepsLocals(a, c)
  {
  }

  lemma SendKeepsLocals(w: World, id: ClientId, text: string)
    requires id in w.sessions
    ensures KeepsLocals(w, Send(w, id, text))
  {
  }

  lemma BroadcastKeepsLocals(w: World, text: string, exclude: Option<ClientId>)
    ensures KeepsLocals(w, Broadcast(w, text, exclude))
  {
  }

  lemma RegisterKeepsLocals(w: World, id: ClientId, name: string)
    requires id in w.sessions && w.sessions[id].username.None?
    ensures KeepsLocals(w, Register(w, id, name))
  {
  }

  /** The successful branch of `handle_login`: register, answer `OK`, announce. */
  lemma LoginRegisters(w: World, id: ClientId, line: string, name: string)
    requires Present(w, id, false)
    requires var parts := SplitWs(Strip(line), 1); |parts| == 2 && name == Strip(parts[1])
    requires name != [] && name !in w.clients
    ensures Login(w, id, line)
      == Step(Broadcast(Send(Register(w, id, name), id, "OK"), "INFO " + name + " connected", Some(id)), true)
  {
  }

  /** A name that comes out of the split is never blank, so `ERR invalid-username` is never
      sent. */
  lemma LoginNameNotBlank(line: string)
    requires |SplitWs(Strip(line), 1)| == 2
    ensures Strip(SplitWs(Strip(line), 1)[1]) != []
  {
    var p := SplitWs(Strip(line), 1)[1];
    StripEmpty(p);
    assert !IsSpace(p[0]);
  }

  /** The refusing branches of `handle_login`: a line that is not two words and a name that
      is already registered. (The blank-name branch cannot be taken; see `LoginNameNotBlank`.) */
  lemma LoginRefusesFormat(w: World, id: ClientId, line: string)
    requires Present(w, id, false) && |SplitWs(Strip(line), 1)| != 2
    ensures Login(w, id, line) == Step(Send(w, id, "ERR invalid-login-format"), false)
  {
  }

  lemma LoginRefusesTaken(w: World, id: ClientId, line: string)
    requires Present(w, id, false)
    requires var parts := SplitWs(Strip(line), 1); |parts| == 2 && Strip(parts[1]) != [] && Strip(parts[1]) in w.clients
    ensures Login(w, id, line) == Step(Send(w, id, "ERR username-taken"), false)
  {
  }

  lemma LoginKeepsLocals(w: World, id: ClientId, line: string)
    requires Present(w, id, false)
    ensures KeepsLocals(w, Login(w, id, line).world)
  {
    var parts := SplitWs(Strip(line), 1);
    if |parts| != 2 {
      SendKeepsLocals(w, id, "ERR invalid-login-format");
    } else {
      var name := Strip(parts[1]);
      if name == [] {
        SendKeepsLocals(w, id, "ERR invalid-username");
      } else if name in w.clients {
        SendKeepsLocals(w, id, "ERR username-taken");
      } else {
        var w0 := Register(w, id, name);
        var w1 := Send(w0, id, "OK");
        RegisterKeepsLocals(w, id, name);
        SendKeepsLocals(w0, id, "OK");
        BroadcastKeepsLocals(w1, "INFO " + name + " connected", Some(id));
        KeepsLocalsTrans(w, w0, w1);
        KeepsLocalsTrans(w, w1, Broadcast(w1, "INFO " + name + " connected", Some(id)));
      }
    }
  }

  lemma DmKeepsLocals(w: World, id: ClientId, line: string)
    requires Present(w, id, true) && Routable(w)
    ensures KeepsLocals(w, Dm(w, id, line))
  {
    var parts := SplitWs(line, 2);
    if |parts| < 3 {
      SendKeepsLocals(w, id, "ERR dm-format");
    } else if parts[1] !in w.clients {
      SendKeepsLocals(w, id, "ERR user-not-found");
    } else {
      var dm := "DM " + w.sessions[id].username.value + " " + parts[2];
      var w1 := Send(w, w.clients[parts[1]], dm);
      SendKeepsLocals(w, w.clients[parts[1]], dm);
      SendKeepsLocals(w1, id, dm);
      KeepsLocalsTrans(w, w1, Send(w1, id, dm));
    }
  }

  lemma MsgKeepsLocals(w: World, id: ClientId, line: string)
    requires Present(w, id, true)
    ensures KeepsLocals(w, Msg(w, id, line))
  {
    var parts := SplitWs(line, 1);
    if |parts| >= 2 {
      BroadcastKeepsLocals(w, "MSG " + w.sessions[id].username.value + " " + Strip(parts[1]), None);
    }
  }

  lemma WhoKeepsLocals(w: World, id: ClientId)
    requires Present(w, id, true)
    ensures KeepsLocals(w, Who(w, id))
  {
  }

  /** Dispatching a line changes only outboxes and, on a successful login, the sender's own
      name: the set of clients, every buffer and idle clock, and every name already set stay
      as they were. */
  lemma DispatchKeepsLocals(w: World, id: ClientId, line: string, loggedIn: bool)
    requires Present(w, id, loggedIn) && Routable(w)
    ensures KeepsLocals(w, Dispatch(w, id, line, loggedIn).world)
  {
    var u := Upper(line);
    var r := Dispatch(w, id, line, loggedIn);
    if !loggedIn {
      if StartsWith(u, "LOGIN ") {
        assert r == Login(w, id, line);
        LoginKeepsLocals(w, id, line);
      } else {
        assert r == Step(Send(w, id, "ERR please-login-first"), false);
        SendKeepsLocals(w, id, "ERR please-login-first");
      }
    } else if StartsWith(u, "MSG ") {
      assert r == Step(Msg(w, id, line), true);
      MsgKeepsLocals(w, id, line);
    } else if u == "WHO" {
      assert r == Step(Who(w, id), true);
      WhoKeepsLocals(w, id);
    } else if StartsWith(u, "DM ") {
      assert r == Step(Dm(w, id, line), true);
      DmKeepsLocals(w, id, line);
    } else if u == "PING" {
      assert r == Step(Send(w, id, "PONG"), true);
      SendKeepsLocals(w, id, "PONG");
    } else {
      assert r == Step(Send(w, id, "ERR unknown-command"), true);
      SendKeepsLocals(w, id, "ERR unknown-command");
    }
  }

  // ---------------------------------------------------------------------------
  // What a handler needs of its own connection is kept by every handler

  /** Between two handlers the invariant gives what a handler needs. */
  lemma ReadyPresent(w: World, id: ClientId, loggedIn: bool)
    requires Ready(w, id, loggedIn)
    ensures Present(w, id, loggedIn) && Routable(w)
  {
  }

  lemma SendKeepsPresent(w: World, to: ClientId, text: string, id: ClientId, loggedIn: bool)
    requires to in w.sessions && Present(w, id, loggedIn) && Routable(w)
    ensures Present(Send(w, to, text), id, loggedIn) && Routable(Send(w, to, text))
  {
  }

  lemma BroadcastKeepsPresent(w: World, text: string, exclude: Option<ClientId>, id: ClientId, loggedIn: bool)
    requires Present(w, id, loggedIn) && Routable(w)
    ensures Present(Broadcast(w, text, exclude), id, loggedIn) && Routable(Broadcast(w, text, exclude))
  {
  }

  lemma LoginKeepsPresent(w: World, id: ClientId, line: string)
    requires Present(w, id, false) && Routable(w)
    ensures var r := Login(w, id, line); Present(r.world, id, r.loggedIn) && Routable(r.world)
  {
    var parts := SplitWs(Strip(line), 1);
    if |parts| != 2 {
      SendKeepsPresent(w, id, "ERR invalid-login-format", id, false);
    } else {
      var name := Strip(parts[1]);
      if name == [] {
        SendKeepsPresent(w, id, "ERR invalid-username", id, false);
      } else if name in w.clients {
        SendKeepsPresent(w, id, "ERR username-taken", id, false);
      } else {
        var w0 := Register(w, id, name);
        var w1 := Send(w0, id, "OK");
        LoginRegisters(w, id, line, name);
        assert Present(w0, id, true) && Routable(w0);
        SendKeepsPresent(w0, id, "OK", id, true);
        BroadcastKeepsPresent(w1, "INFO " + name + " connected", Some(id), id, true);
      }
    }
  }

  lemma DmKeepsPresent(w: World, id: ClientId, line: string)
    requires Present(w, id, true) && Routable(w)
    ensures Present(Dm(w, id, line), id, true) && Routable(Dm(w, id, line))
  {
    var parts := SplitWs(line, 2);
    if |parts| < 3 {
      SendKeepsPresent(w, id, "ERR dm-format", id, true);
    } else if parts[1] !in w.clients {
      SendKeepsPresent(w, id, "ERR user-not-found", id, true);
    } else {
      var dm := "DM " + w.sessions[id].username.value + " " + parts[2];
      var w1 := Send(w, w.clients[parts[1]], dm);
      SendKeepsPresent(w, w.clients[parts[1]], dm, id, true);
      SendKeepsPresent(w1, id, dm, id, true);
    }
  }

  lemma MsgKeepsPresent(w: World, id: ClientId, line: string)
    requires Present(w, id, true) && Routable(w)
    ensures Present(Msg(w, id, line), id, true) && Routable(Msg(w, id, line))
  {
    var parts := SplitWs(line, 1);
    if |parts| >= 2 {
      BroadcastKeepsPresent(w, "MSG " + w.sessions[id].username.value + " " + Strip(parts[1]), None, id, true);
    }
  }

  lemma WhoKeepsPresent(w: World, id: ClientId)
    requires Present(w, id, true) && Routable(w)
    ensures Present(Who(w, id), id, true) && Routable(Who(w, id))
  {
  }

  /** Dispatching a line keeps the sender present, with the thread's flag set exactly when
      it has a name, and every registered name routable. */
  lemma DispatchKeepsPresent(w: World, id: ClientId, line: string, loggedIn: bool)
    requires Present(w, id, loggedIn) && Routable(w)
    ensures var r := Dispatch(w, id, line, loggedIn); Present(r.world, id, r.loggedIn) && Routable(r.world)
  {
    var u := Upper(line);
    var r := Dispatch(w, id, line, loggedIn);
    if !loggedIn {
      if StartsWith(u, "LOGIN ") {
        assert r == Login(w, id, line);
        LoginKeepsPresent(w, id, line);
      } else {
        assert r == Step(Send(w, id, "ERR please-login-first"), false);
        SendKeepsPresent(w, id, "ERR please-login-first", id, false);
      }
    } else if StartsWith(u, "MSG ") {
      assert r == Step(Msg(w, id, line), true);
      MsgKeepsPresent(w, id, line);
    } else if u == "WHO" {
      assert r == Step(Who(w, id), true);
      WhoKeepsPresent(w, id);
    } else if StartsWith(u, "DM ") {
      assert r == Step(Dm(w, id, line), true);
      DmKeepsPresent(w, id, line);
    } else if u == "PING" {
      assert r == Step(Send(w, id, "PONG"), true);
      SendKeepsPresent(w, id, "PONG", id, true);
    } else {
      assert r == Step(Send(w, id, "ERR unknown-command"), true);
      SendKeepsPresent(w, id, "ERR unknown-command", id, true);
    }
  }

  // ---------------------------------------------------------------------------
  // The registry invariant is kept by every step

  lemma SendKeepsInv(w: World, id: ClientId, text: string)
    requires Inv(w) && id in w.sessions
    ensures Inv(Send(w, id, text))
  {
    var r := Send(w, id, text);
    assert forall c :: c in w.sessions ==> r.sessions[c].username == w.sessions[c].username;
  }

  lemma BroadcastKeepsInv(w: World, text: string, exclude: Option<ClientId>)
    requires Inv(w)
    ensures Inv(Broadcast(w, text, exclude))
  {
    var r := Broadcast(w, text, exclude);
    assert forall c :: c in w.sessions ==> r.sessions[c].username == w.sessions[c].username;
  }

  lemma RegisterKeepsInv(w: World, id: ClientId, name: string)
    requires Ready(w, id, false) && name != [] && IsStripped(name) && name !in w.clients
    ensures Ready(Register(w, id, name), id, true)
  {
    var r := Register(w, id, name);
    forall n | n in w.clients ensures w.clients[n] != id {
    }
    assert forall i :: 0 <= i < |w.order| ==> w.order[i] in w.clients;
    assert forall n :: n in r.order <==> n in w.order || n == name;
  }

  lemma LoginKeepsReady(w: World, id: ClientId, line: string)
    requires Ready(w, id, false)
    ensures Ready(Login(w, id, line).world, id, Login(w, id, line).loggedIn)
  {
    var parts := SplitWs(Strip(line), 1);
    if |parts| != 2 {
      assert Login(w, id, line) == Step(Send(w, id, "ERR invalid-login-format"), false);
      SendKeepsReady(w, id, "ERR invalid-login-format", id, false);
    } else {
      var name := Strip(parts[1]);
      if name == [] {
        assert Login(w, id, line) == Step(Send(w, id, "ERR invalid-username"), false);
        SendKeepsReady(w, id, "ERR invalid-username", id, false);
      } else if name in w.clients {
        assert Login(w, id, line) == Step(Send(w, id, "ERR username-taken"), false);
        SendKeepsReady(w, id, "ERR username-taken", id, false);
      } else {
        var w0 := Register(w, id, name);
        var w1 := Send(w0, id, "OK");
        LoginRegisters(w, id, line, name);
        RegisterKeepsInv(w, id, name);
        SendKeepsReady(w0, id, "OK", id, true);
        BroadcastKeepsReady(w1, "INFO " + name + " connected", Some(id), id, true);
      }
    }
  }

  lemma DmKeepsReady(w: World, id: ClientId, line: string)
    requires Ready(w, id, true)
    ensures Ready(Dm(w, id, line), id, true)
  {
    var parts := SplitWs(line, 2);
    if |parts| < 3 {
      SendKeepsReady(w, id, "ERR dm-format", id, true);
    } else if parts[1] !in w.clients {
      SendKeepsReady(w, id, "ERR user-not-found", id, true);
    } else {
      var dm := "DM " + w.sessions[id].username.value + " " + parts[2];
      var w1 := Send(w, w.clients[parts[1]], dm);
      SendKeepsReady(w, w.clients[parts[1]], dm, id, true);
      SendKeepsReady(w1, id, dm, id, true);
    }
  }

  lemma WhoKeepsReady(w: World, id: ClientId)
    requires Ready(w, id, true)
    ensures Ready(Who(w, id), id, true)
  {
    var r := Who(w, id);
    assert forall c :: c in w.sessions ==> r.sessions[c].username == w.sessions[c].username;
  }

  lemma SendKeepsReady(w: World, to: ClientId, text: string, id: ClientId, loggedIn: bool)
    requires Ready(w, id, loggedIn) && to in w.sessions
    ensures Ready(Send(w, to, text), id, loggedIn)
  {
    SendKeepsInv(w, to, text);
  }

  lemma BroadcastKeepsReady(w: World, text: string, exclude: Option<ClientId>, id: ClientId, loggedIn: bool)
    requires Ready(w, id, loggedIn)
    ensures Ready(Broadcast(w, text, exclude), id, loggedIn)
  {
    BroadcastKeepsInv(w, text, exclude);
    assert Broadcast(w, text, exclude).sessions[id].username == w.sessions[id].username;
  }

  lemma MsgKeepsReady(w: World, id: ClientId, line: string)
    requires Ready(w, id, true)
    ensures Ready(Msg(w, id, line), id, true)
  {
    var parts := SplitWs(line, 1);
    if |parts| >= 2 {
      BroadcastKeepsReady(w, "MSG " + w.sessions[id].username.value + " " + Strip(parts[1]), None, id, true);
    }
  }

  /** Dispatching a line keeps the invariant, keeps the connection live, never logs it out,
      and leaves `logged_in` in step with the username. */
  lemma DispatchKeepsInv(w: World, id: ClientId, line: string, loggedIn: bool)
    requires Ready(w, id, loggedIn)
    ensures Ready(Dispatch(w, id, line, loggedIn).world, id, Dispatch(w, id, line, loggedIn).loggedIn)
    ensures loggedIn ==> Dispatch(w, id, line, loggedIn).loggedIn
  {
    var u := Upper(line);
    var r := Dispatch(w, id, line, loggedIn);
    if !loggedIn {
      if StartsWith(u, "LOGIN ") {
        assert r == Login(w, id, line);
        LoginKeepsReady(w, id, line);
      } else {
        assert r == Step(Send(w, id, "ERR please-login-first"), false);
        SendKeepsReady(w, id, "ERR please-login-first", id, false);
      }
    } else if StartsWith(u, "MSG ") {
      assert r == Step(Msg(w, id, line), true);
      MsgKeepsReady(w, id, line);
    } else if u == "WHO" {
      assert r == Step(Who(w, id), true);
      WhoKeepsReady(w, id);
    } else if StartsWith(u, "DM ") {
      assert r == Step(Dm(w, id, line), true);
      DmKeepsReady(w, id, line);
    } else if u == "PING" {
      assert r == Step(Send(w, id, "PONG"), true);
      SendKeepsReady(w, id, "PONG", id, true);
    } else {
      assert r == Step(Send(w, id, "ERR unknown-command"), true);
      SendKeepsReady(w, id, "ERR unknown-command", id, true);
    }
  }

  /** Dispatching a line between two handlers keeps the registry invariant. */
  lemma DispatchKeepsReady(w: World, id: ClientId, line: string, loggedIn: bool)
    requires Present(w, id, loggedIn) && Routable(w)
    ensures Ready(w, id, loggedIn) ==> Ready(Dispatch(w, id, line, loggedIn).world, id, Dispatch(w, id, line, loggedIn).loggedIn)
  {
    if Ready(w, id, loggedIn) {
      DispatchKeepsInv(w, id, line, loggedIn);
    }
  }

  lemma ConnectKeepsInv(w: World, now: int)
    requires Inv(w)
    ensures Ready(Connect(w, now).world, Connect(w, now).id, false)
  {
    var r := Connect(w, now);
    assert forall c :: c in w.sessions ==> r.world.sessions[c] == w.sessions[c];
  }

  lemma UnregisterKeepsInv(w: World, id: ClientId)
    requires Inv(w) && id in w.sessions
    ensures Inv(Unregister(w, id).world)
    ensures id !in Unregister(w, id).world.conns
  {
    var u := w.sessions[id].username;
    if Truthy(u) && u.value in w.clients && w.clients[u.value] == id {
      var r := Unregister(w, id).world;
      assert forall i :: 0 <= i < |w.order| ==> w.order[i] in w.clients;
      forall c | c in r.conns && r.sessions[c].username.Some?
        ensures r.sessions[c].username.value in r.clients
      {
        assert r.sessions[c].username.value != u.value;
      }
    }
  }

  lemma RemoveKeepsInv(w: World, id: ClientId)
    requires Inv(w) && id in w.sessions
    ensures Inv(Remove(w, id))
  {
    UnregisterKeepsInv(w, id);
    var u := Unregister(w, id);
    if u.freed.Some? {
      BroadcastKeepsInv(u.world, "INFO " + u.freed.value + " disconnected", Some(id));
    }
  }
}
