/** What the server promises its clients, stated over the handler functions: the exact lines
    each command writes and to whom, what stays unchanged, and how the registry evolves. */
module ChatProperties {
  import opened PyStr
  import opened Framing
  import opened ChatProtocol
  import opened ChatSession

  /** The registry and every other client are untouched, and client `id` received exactly
      `line` (its username, buffer and clock unchanged). */
  ghost predicate OnlyReply(w: World, w': World, id: ClientId, line: string) {
    && w'.clients == w.clients && w'.order == w.order && w'.conns == w.conns && w'.nextId == w.nextId
    && id in w.sessions && w'.sessions.Keys == w.sessions.Keys
    && w'.sessions[id] == w.sessions[id].(outbox := w.sessions[id].outbox + [line])
    && forall c :: c in w.sessions && c != id ==> w'.sessions[c] == w.sessions[c]
  }

  /** The registry is untouched, and `line` was written once to every live connection with a
      truthy username other than `exclude`, and to nobody else. */
  ghost predicate Announced(w: World, w': World, exclude: Option<ClientId>, line: string) {
    && w'.clients == w.clients && w'.order == w.order && w'.conns == w.conns && w'.nextId == w.nextId
    && w'.sessions.Keys == w.sessions.Keys
    && forall c :: c in w.sessions ==>
         w'.sessions[c] == w.sessions[c].(outbox := w.sessions[c].outbox +
           (if c in w.conns && Truthy(w.sessions[c].username) && exclude != Some(c) then [line] else []))
  }

  // ---------------------------------------------------------------------------
  // Client.send and broadcast

  /** Sending an already terminated text adds nothing more. */
  lemma TerminatedIdempotent(text: string)
    ensures Terminated(Terminated(text)) == Terminated(text)
  {
  }

  /** A text that does not end with `\n` gets exactly one appended. */
  lemma TerminatedPlain(text: string)
    requires text != [] && text[|text| - 1] != NL
    ensures Terminated(text) == text + "\n"
  {
    assert text[|text| - 1..] != "\n" by { assert text[|text| - 1..][0] == text[|text| - 1]; }
  }

  lemma TerminatedAfter(prefix: string, text: string)
    requires text != [] && !IsSpace(text[|text| - 1])
    ensures Terminated(prefix + text) == prefix + text + "\n"
  {
    var s := prefix + text;
    assert s[|s| - 1] == text[|text| - 1];
    TerminatedPlain(s);
  }

  lemma SendAppends(w: World, id: ClientId, text: string)
    requires id in w.sessions
    ensures OnlyReply(w, Send(w, id, text), id, Terminated(text))
  {
  }

  /** `broadcast` writes the terminated text to exactly its targets and changes nothing else. */
  lemma BroadcastReaches(w: World, text: string, exclude: Option<ClientId>)
    ensures Announced(w, Broadcast(w, text, exclude), exclude, Terminated(text))
  {
  }

  // ---------------------------------------------------------------------------
  // The two-phase dispatcher

  /** Before login, anything but a LOGIN line is answered with `ERR please-login-first` and
      changes nothing else. */
  lemma PleaseLoginFirst(w: World, id: ClientId, line: string)
    requires Present(w, id, false) && Routable(w) && !StartsWith(Upper(line), "LOGIN ")
    ensures !Dispatch(w, id, line, false).loggedIn
    ensures OnlyReply(w, Dispatch(w, id, line, false).world, id, "ERR please-login-first" + "\n")
  {
    SendAppends(w, id, "ERR please-login-first");
    TerminatedPlain("ERR please-login-first");
  }

  /** The flag becomes true only through a LOGIN line that `handle_login` accepted. */
  lemma LoginOnlyWayIn(w: World, id: ClientId, line: string)
    requires Present(w, id, false) && Routable(w) && Dispatch(w, id, line, false).loggedIn
    ensures StartsWith(Upper(line), "LOGIN ") && Login(w, id, line).loggedIn
  {
  }

  /** After login, a line that is no command is answered with `ERR unknown-command`. */
  lemma UnknownCommand(w: World, id: ClientId, line: string)
    requires Present(w, id, true) && Routable(w)
    requires !StartsWith(Upper(line), "MSG ") && Upper(line) != "WHO"
    requires !StartsWith(Upper(line), "DM ") && Upper(line) != "PING"
    ensures Dispatch(w, id, line, true).loggedIn
    ensures OnlyReply(w, Dispatch(w, id, line, true).world, id, "ERR unknown-command" + "\n")
  {
    SendAppends(w, id, "ERR unknown-command");
    TerminatedPlain("ERR unknown-command");
  }

  /** A second LOGIN is not a command any more: it is answered with `ERR unknown-command`. */
  lemma LoginAgainUnknown(w: World, id: ClientId, line: string)
    requires Present(w, id, true) && Routable(w) && StartsWith(Upper(line), "LOGIN ")
    ensures Dispatch(w, id, line, true).loggedIn
    ensures OnlyReply(w, Dispatch(w, id, line, true).world, id, "ERR unknown-command" + "\n")
  {
    LoginIsNoCommand(Upper(line));
    UnknownCommand(w, id, line);
  }

  lemma LoginIsNoCommand(u: string)
    requires StartsWith(u, "LOGIN ")
    ensures !StartsWith(u, "MSG ") && !StartsWith(u, "DM ") && u != "WHO" && u != "PING"
  {
    assert u[0] == 'L';
  }

  lemma PingPong(w: World, id: ClientId, line: string)
    requires Present(w, id, true) && Routable(w) && Upper(line) == "PING"
    ensures Dispatch(w, id, line, true).loggedIn
    ensures OnlyReply(w, Dispatch(w, id, line, true).world, id, "PONG" + "\n")
  {
    assert !StartsWith(Upper(line), "MSG ") && !StartsWith(Upper(line), "DM ");
    SendAppends(w, id, "PONG");
    TerminatedPlain("PONG");
  }

  // ---------------------------------------------------------------------------
  // handle_login

  /** A line that does not split into a keyword and a name is answered with
      `ERR invalid-login-format`, returns false and leaves the registry as it was. */
  lemma LoginMalformed(w: World, id: ClientId, line: string)
    requires Present(w, id, false) && |SplitWs(Strip(line), 1)| != 2
    ensures !Login(w, id, line).loggedIn
    ensures OnlyReply(w, Login(w, id, line).world, id, "ERR invalid-login-format" + "\n")
  {
    assert Login(w, id, line).world == Send(w, id, "ERR invalid-login-format");
    SendAppends(w, id, "ERR invalid-login-format");
    TerminatedPlain("ERR invalid-login-format");
  }

  /** A name already in `clients` is answered with `ERR username-taken`, returns false and
      leaves the registry as it was. */
  lemma LoginTaken(w: World, id: ClientId, line: string)
    requires Present(w, id, false)
    requires var parts := SplitWs(Strip(line), 1); |parts| == 2 && Strip(parts[1]) in w.clients
    ensures !Login(w, id, line).loggedIn
    ensures OnlyReply(w, Login(w, id, line).world, id, "ERR username-taken" + "\n")
  {
    LoginNameNotBlank(line);
    LoginRefusesTaken(w, id, line);
    SendAppends(w, id, "ERR username-taken");
    TerminatedPlain("ERR username-taken");
  }

  /** A free name is registered to this client and appended to the dict order, the client
      gets `OK`, and then every other named live connection gets `INFO <name> connected`. */
  lemma LoginSucceeds(w: World, id: ClientId, line: string, name: string)
    requires Present(w, id, false)
    requires |SplitWs(Strip(line), 1)| == 2 && name == Strip(SplitWs(Strip(line), 1)[1]) && name !in w.clients
    ensures var r := Login(w, id, line);
      && r.loggedIn
      && r.world.clients == w.clients[name := id] && r.world.order == w.order + [name]
      && r.world.conns == w.conns && r.world.sessions.Keys == w.sessions.Keys
      && r.world.sessions[id] == w.sessions[id].(username := Some(name), outbox := w.sessions[id].outbox + ["OK" + "\n"])
      && forall c :: c in w.sessions && c != id ==>
           r.world.sessions[c] == w.sessions[c].(outbox := w.sessions[c].outbox +
             (if c in w.conns && Truthy(w.sessions[c].username) then ["INFO " + name + " connected" + "\n"] else []))
  {
    LoginNameNotBlank(line);
    RegisterAnnounced(w, id, name);
  }

  lemma RegisterAnnounced(w: World, id: ClientId, name: string)
    requires id in w.sessions && w.sessions[id].username.None? && name != []
    ensures var r := Broadcast(Send(Register(w, id, name), id, "OK"), "INFO " + name + " connected", Some(id));
      && r.clients == w.clients[name := id] && r.order == w.order + [name]
      && r.conns == w.conns && r.sessions.Keys == w.sessions.Keys
      && r.sessions[id] == w.sessions[id].(username := Some(name), outbox := w.sessions[id].outbox + ["OK" + "\n"])
      && forall c :: c in w.sessions && c != id ==>
           r.sessions[c] == w.sessions[c].(outbox := w.sessions[c].outbox +
             (if c in w.conns && Truthy(w.sessions[c].username) then ["INFO " + name + " connected" + "\n"] else []))
  {
    var w0 := Register(w, id, name);
    var w1 := Send(w0, id, "OK");
    var info := "INFO " + name + " connected";
    TerminatedPlain("OK");
    SendAppends(w0, id, "OK");
    BroadcastReaches(w1, info, Some(id));
    TerminatedAfter("INFO " + name, " connected");
    var r := Broadcast(w1, info, Some(id));
    forall c | c in w.sessions && c != id
      ensures r.sessions[c] == w.sessions[c].(outbox := w.sessions[c].outbox +
        (if c in w.conns && Truthy(w.sessions[c].username) then [info + "\n"] else []))
    {
      assert w1.sessions[c] == w.sessions[c];
    }
  }

  /** The keywords LOGIN and MSG hold no whitespace before their trailing space. */
  lemma Keywords()
    ensures NoSpace("LOGIN "[..5]) && NoSpace("MSG "[..3])
  {
    assert "LOGIN "[..5] == "LOGIN";
    assert "MSG "[..3] == "MSG";
  }

  /** A stripped line whose upper-cased form starts with a keyword ending in one space
      splits once into the keyword as typed and the non-blank, stripped rest. */
  lemma KeywordSplit(line: string, kw: string)
    requires IsStripped(line) && StartsWith(Upper(line), kw)
    requires |kw| >= 2 && NoSpace(kw[..|kw| - 1]) && kw[|kw| - 1] == ' '
    ensures var k := |kw| - 1;
      && k < |line|
      && SplitWs(line, 1) == [line[..k], TrimLeft(line[k..])]
      && TrimLeft(line[k..]) != [] && IsStripped(TrimLeft(line[k..]))
      && Strip(TrimLeft(line[k..])) == TrimLeft(line[k..])
  {
    var k := |kw| - 1;
    UpperPrefixSpaces(line, kw);
    assert NoSpace(line[..k]) by {
      forall i | 0 <= i < k ensures !IsSpace(line[..k][i]) {
        assert !IsSpace(kw[..k][i]);
      }
    }
    assert IsSpace(line[k]);
    SplitOnceAtSpace(line, k);
    StripStripped(TrimLeft(line[k..]));
  }

  /** Through the dispatcher a LOGIN line is always well formed: the name is the rest of the
      line after the keyword, and the only possible answers are `OK` and
      `ERR username-taken`. */
  lemma DispatchedLogin(w: World, id: ClientId, line: string)
    requires Present(w, id, false) && Routable(w) && IsStripped(line) && StartsWith(Upper(line), "LOGIN ")
    ensures var name := TrimLeft(line[5..]);
      var r := Dispatch(w, id, line, false);
      && name != [] && IsStripped(name)
      && r.world.sessions.Keys == w.sessions.Keys
      && (r.loggedIn <==> name !in w.clients)
      && (r.loggedIn ==> r.world.sessions[id].username == Some(name))
      && r.world.sessions[id].outbox == w.sessions[id].outbox + [if r.loggedIn then "OK" + "\n" else "ERR username-taken" + "\n"]
  {
    var name := TrimLeft(line[5..]);
    assert name != [] && IsStripped(name) && |SplitWs(Strip(line), 1)| == 2 && Strip(SplitWs(Strip(line), 1)[1]) == name by {
      Keywords();
      KeywordSplit(line, "LOGIN ");
      StripStripped(line);
    }
    LoginDispatched(w, id, line);
    if name !in w.clients {
      LoginSucceeds(w, id, line, name);
    } else {
      LoginTaken(w, id, line);
    }
  }

  /** Before login, a LOGIN line goes to `handle_login`. */
  lemma LoginDispatched(w: World, id: ClientId, line: string)
    requires Present(w, id, false) && Routable(w) && StartsWith(Upper(line), "LOGIN ")
    ensures Dispatch(w, id, line, false) == Login(w, id, line)
  {
  }

  /** No two live connections hold the same name. */
  lemma NamesUnique(w: World, a: ClientId, b: ClientId)
    requires Inv(w) && a in w.conns && b in w.conns
    requires w.sessions[a].username.Some? && w.sessions[a].username == w.sessions[b].username
    ensures a == b
  {
  }

  /** While a live connection holds a name, a LOGIN for it is refused and the holder is left
      alone; once the holder has been removed, the same LOGIN succeeds. */
  lemma NameReleasedByRemove(w: World, id: ClientId, holder: ClientId, line: string)
    requires Ready(w, id, false) && holder in w.conns && w.sessions[holder].username.Some?
    requires var parts := SplitWs(Strip(line), 1);
      |parts| == 2 && Strip(parts[1]) == w.sessions[holder].username.value
    ensures !Login(w, id, line).loggedIn
    ensures Login(w, id, line).world.sessions[holder] == w.sessions[holder]
    ensures Ready(Remove(w, holder), id, false) && Login(Remove(w, holder), id, line).loggedIn
  {
    LoginTaken(w, id, line);
    RemoveKeepsInv(w, holder);
    RemoveFreesName(w, holder);
  }

  // ---------------------------------------------------------------------------
  // MSG, WHO, DM

  /** `MSG <text>` writes `MSG <sender> <text>` to every named live connection, the sender
      included, where `<text>` is the rest of the line with surrounding whitespace dropped. */
  lemma MsgEchoes(w: World, id: ClientId, line: string)
    requires Present(w, id, true) && Routable(w) && id in w.conns && Truthy(w.sessions[id].username)
    requires IsStripped(line) && StartsWith(Upper(line), "MSG ")
    ensures var text := TrimLeft(line[3..]);
      var out := "MSG " + w.sessions[id].username.value + " " + text + "\n";
      var r := Dispatch(w, id, line, true);
      && text != [] && IsStripped(text) && r.loggedIn
      && Announced(w, r.world, None, out)
      && r.world.sessions[id].outbox == w.sessions[id].outbox + [out]
  {
    var text := TrimLeft(line[3..]);
    assert text != [] && IsStripped(text) && |SplitWs(line, 1)| == 2 && Strip(SplitWs(line, 1)[1]) == text by {
      Keywords();
      KeywordSplit(line, "MSG ");
    }
    var prefix := "MSG " + w.sessions[id].username.value + " ";
    MsgBroadcasts(w, id, line, text);
    BroadcastEchoes(w, id, prefix, text);
  }

  /** A MSG line goes to `handle_msg`, which broadcasts the text after the keyword. */
  lemma MsgBroadcasts(w: World, id: ClientId, line: string, text: string)
    requires Present(w, id, true) && Routable(w) && StartsWith(Upper(line), "MSG ")
    requires |SplitWs(line, 1)| == 2 && Strip(SplitWs(line, 1)[1]) == text
    ensures Dispatch(w, id, line, true) == Step(Broadcast(w, "MSG " + w.sessions[id].username.value + " " + text, None), true)
  {
  }

  lemma BroadcastEchoes(w: World, id: ClientId, prefix: string, text: string)
    requires id in w.conns && id in w.sessions && Truthy(w.sessions[id].username)
    requires text != [] && !IsSpace(text[|text| - 1])
    ensures Announced(w, Broadcast(w, prefix + text, None), None, prefix + text + "\n")
    ensures Broadcast(w, prefix + text, None).sessions[id].outbox == w.sessions[id].outbox + [prefix + text + "\n"]
  {
    BroadcastReaches(w, prefix + text, None);
    TerminatedAfter(prefix, text);
  }

  /** `WHO` writes `USER <name>` for every registered name, in dict order, to the asker
      only; `order` holds each registered name exactly once. */
  lemma WhoLists(w: World, id: ClientId, line: string)
    requires Ready(w, id, true) && Upper(line) == "WHO"
    ensures var r := Dispatch(w, id, line, true);
      var before := w.sessions[id].outbox;
      var after := r.world.sessions[id].outbox;
      && r.loggedIn
      && r.world.clients == w.clients && r.world.order == w.order && r.world.conns == w.conns
      && r.world.sessions.Keys == w.sessions.Keys
      && |after| == |before| + |w.order| && after[..|before|] == before
      && (forall k :: 0 <= k < |w.order| ==> after[|before| + k] == "USER " + w.order[k] + "\n")
      && r.world.sessions[id] == w.sessions[id].(outbox := after)
      && (forall c :: c in w.sessions && c != id ==> r.world.sessions[c] == w.sessions[c])
  {
    ReadyPresent(w, id, true);
    OrderNamesStripped(w);
    WhoWrites(w, id, line);
  }

  lemma WhoWrites(w: World, id: ClientId, line: string)
    requires Present(w, id, true) && Routable(w) && Upper(line) == "WHO"
    requires forall k :: 0 <= k < |w.order| ==> w.order[k] != [] && !IsSpace(w.order[k][|w.order[k]| - 1])
    ensures var r := Dispatch(w, id, line, true);
      var before := w.sessions[id].outbox;
      var after := r.world.sessions[id].outbox;
      && r.loggedIn
      && r.world.clients == w.clients && r.world.order == w.order && r.world.conns == w.conns
      && r.world.sessions.Keys == w.sessions.Keys
      && |after| == |before| + |w.order| && after[..|before|] == before
      && (forall k :: 0 <= k < |w.order| ==> after[|before| + k] == "USER " + w.order[k] + "\n")
      && r.world.sessions[id] == w.sessions[id].(outbox := after)
      && (forall c :: c in w.sessions && c != id ==> r.world.sessions[c] == w.sessions[c])
  {
    WhoDispatched(w, id, line);
    WhoAppends(w, id);
    RosterAppended(w.sessions[id].outbox, w.order);
  }

  /** After login, a WHO line goes to `handle_who`. */
  lemma WhoDispatched(w: World, id: ClientId, line: string)
    requires Present(w, id, true) && Routable(w) && Upper(line) == "WHO"
    ensures Dispatch(w, id, line, true) == Step(Who(w, id), true)
  {
    assert !StartsWith(Upper(line), "MSG ");
  }

  /** Every name in the dict order is non-blank and stripped. */
  lemma OrderNamesStripped(w: World)
    requires Inv(w)
    ensures forall k :: 0 <= k < |w.order| ==> w.order[k] != [] && IsStripped(w.order[k])
  {
    forall k | 0 <= k < |w.order| ensures w.order[k] != [] && IsStripped(w.order[k]) {
      assert w.order[k] in w.order;
    }
  }

  /** `handle_who` appends the roster to the asker's outbox and touches nothing else. */
  lemma WhoAppends(w: World, id: ClientId)
    requires Present(w, id, true)
    ensures var r := Who(w, id);
      && r.sessions[id] == w.sessions[id].(outbox := w.sessions[id].outbox + Roster(w.order))
      && r.clients == w.clients && r.order == w.order && r.conns == w.conns
      && r.sessions.Keys == w.sessions.Keys
      && (forall c :: c in w.sessions && c != id ==> r.sessions[c] == w.sessions[c])
  {
  }

  /** The roster appended to an outbox keeps what was there and adds one line per name. */
  lemma RosterAppended(before: seq<string>, names: seq<string>)
    requires forall k :: 0 <= k < |names| ==> names[k] != [] && !IsSpace(names[k][|names[k]| - 1])
    ensures var after := before + Roster(names);
      && |after| == |before| + |names| && after[..|before|] == before
      && forall k :: 0 <= k < |names| ==> after[|before| + k] == "USER " + names[k] + "\n"
  {
    RosterLines(names);
    var after := before + Roster(names);
    assert after[..|before|] == before;
    forall k | 0 <= k < |names| ensures after[|before| + k] == "USER " + names[k] + "\n" {
      assert after[|before| + k] == Roster(names)[k];
    }
  }

  /** For non-blank names that do not end in whitespace, the roster lines are exactly
      `USER <name>` with one `\n`. */
  lemma RosterLines(names: seq<string>)
    requires forall k :: 0 <= k < |names| ==> names[k] != [] && !IsSpace(names[k][|names[k]| - 1])
    ensures forall k :: 0 <= k < |names| ==> Roster(names)[k] == "USER " + names[k] + "\n"
  {
    forall k | 0 <= k < |names| ensures Roster(names)[k] == "USER " + names[k] + "\n" {
      TerminatedAfter("USER ", names[k]);
    }
  }

  /** `DM <target> <text>` to a registered target writes the same line `DM <sender> <text>`
      to the target and then to the sender (twice to a sender writing to itself), and
      nothing else. */
  lemma DmDelivers(w: World, id: ClientId, target: string, text: string)
    requires Present(w, id, true) && Routable(w) && target in w.clients && target != [] && NoSpace(target)
    requires text != [] && IsStripped(text)
    ensures var line := "DM " + (target + " " + text);
      var dm := "DM " + w.sessions[id].username.value + " " + text + "\n";
      var t := w.clients[target];
      var r := Dispatch(w, id, line, true);
      && r.loggedIn
      && r.world.clients == w.clients && r.world.order == w.order && r.world.conns == w.conns
      && r.world.sessions.Keys == w.sessions.Keys
      && forall c :: c in w.sessions ==>
           r.world.sessions[c] == w.sessions[c].(outbox := w.sessions[c].outbox +
             (if c == t then [dm] else []) + (if c == id then [dm] else []))
  {
    var line := "DM " + (target + " " + text);
    DmLineParses(target, text);
    var t := w.clients[target];
    var prefix := "DM " + w.sessions[id].username.value + " ";
    assert Dispatch(w, id, line, true) == Step(Send(Send(w, t, prefix + text), id, prefix + text), true);
    TerminatedAfter(prefix, text);
    SendTwice(w, t, id, prefix + text, prefix + text + "\n");
  }

  /** After login, a line whose upper form starts with `DM ` goes to `handle_dm`. */
  lemma DmDispatched(w: World, id: ClientId, line: string)
    requires Present(w, id, true) && Routable(w) && StartsWith(Upper(line), "DM ")
    ensures Dispatch(w, id, line, true) == Step(Dm(w, id, line), true)
  {
    var u := Upper(line);
    assert u[..3] == "DM ";
    assert u[0] == 'D' && u[2] == ' ';
  }

  /** Any DM line the dispatcher hands on -- the keyword in any case, any whitespace between
      the words -- to a registered target writes the same line `DM <sender> <text>` to the
      target and then to the sender, and nothing else. */
  lemma DmEchoes(w: World, id: ClientId, line: string)
    requires Present(w, id, true) && Routable(w) && IsStripped(line) && StartsWith(Upper(line), "DM ")
    requires var p := SplitWs(line, 2); |p| == 3 && p[1] in w.clients
    ensures var p := SplitWs(line, 2);
      var dm := "DM " + w.sessions[id].username.value + " " + p[2] + "\n";
      var t := w.clients[p[1]];
      var r := Dispatch(w, id, line, true);
      && r.loggedIn
      && r.world.clients == w.clients && r.world.order == w.order && r.world.conns == w.conns
      && r.world.sessions.Keys == w.sessions.Keys
      && forall c :: c in w.sessions ==>
           r.world.sessions[c] == w.sessions[c].(outbox := w.sessions[c].outbox +
             (if c == t then [dm] else []) + (if c == id then [dm] else []))
  {
    var p := SplitWs(line, 2);
    DmDispatched(w, id, line);
    SplitKeepsLast(line, 2);
    var t := w.clients[p[1]];
    var prefix := "DM " + w.sessions[id].username.value + " ";
    assert Dm(w, id, line) == Send(Send(w, t, prefix + p[2]), id, prefix + p[2]);
    TerminatedAfter(prefix, p[2]);
    SendTwice(w, t, id, prefix + p[2], prefix + p[2] + "\n");
  }

  /** The DM line a client types is classified as DM and splits back into its three words. */
  lemma DmLineParses(target: string, text: string)
    requires target != [] && NoSpace(target) && text != [] && IsStripped(text)
    ensures var u := Upper("DM " + (target + " " + text));
      && !StartsWith(u, "MSG ") && u != "WHO" && StartsWith(u, "DM ")
      && SplitWs("DM " + (target + " " + text), 2) == ["DM", target, text]
  {
    DmClassified(target + " " + text);
    assert "DM " + (target + " " + text) == "DM" + " " + (target + " " + text);
    assert NoSpace("DM") by {
      forall i | 0 <= i < 2 ensures !IsSpace("DM"[i]) { }
    }
    SplitTwiceAtSpaces("DM", target, text);
  }

  lemma DmClassified(rest: string)
    ensures var u := Upper("DM " + rest);
      !StartsWith(u, "MSG ") && u != "WHO" && StartsWith(u, "DM ")
  {
    var line := "DM " + rest;
    var u := Upper(line);
    assert line[0] == 'D' && line[1] == 'M' && line[2] == ' ';
    assert u[0] == 'D' && u[1] == 'M' && u[2] == ' ';
    assert u[..3] == "DM ";
  }

  /** Two sends: the line goes to `t` and then to `id`. */
  lemma SendTwice(w: World, t: ClientId, id: ClientId, text: string, line: string)
    requires t in w.sessions && id in w.sessions && Terminated(text) == line
    ensures var r := Send(Send(w, t, text), id, text);
      && r.clients == w.clients && r.order == w.order && r.conns == w.conns
      && r.sessions.Keys == w.sessions.Keys
      && forall c :: c in w.sessions ==>
           r.sessions[c] == w.sessions[c].(outbox := w.sessions[c].outbox +
             (if c == t then [line] else []) + (if c == id then [line] else []))
  {
  }

  /** A DM with too few words is answered with `ERR dm-format` only. */
  lemma DmTooShort(w: World, id: ClientId, line: string)
    requires Present(w, id, true) && Routable(w) && |SplitWs(line, 2)| < 3
    ensures OnlyReply(w, Dm(w, id, line), id, "ERR dm-format" + "\n")
  {
    SendAppends(w, id, "ERR dm-format");
    TerminatedPlain("ERR dm-format");
  }

  /** A DM to a name nobody holds is answered with `ERR user-not-found`, to the sender only. */
  lemma DmUnknownTarget(w: World, id: ClientId, line: string)
    requires Present(w, id, true) && Routable(w)
    requires var parts := SplitWs(line, 2); |parts| == 3 && parts[1] !in w.clients
    ensures OnlyReply(w, Dm(w, id, line), id, "ERR user-not-found" + "\n")
  {
    SendAppends(w, id, "ERR user-not-found");
    TerminatedPlain("ERR user-not-found");
  }

  // ---------------------------------------------------------------------------
  // Teardown

  /** Removing a named live connection drops it from `conns`, frees its name (and only that
      name), keeps the dict order of the others, and notifies every other named live
      connection once with `INFO <name> disconnected`. */
  lemma RemoveFreesName(w: World, id: ClientId)
    requires Inv(w) && id in w.conns && w.sessions[id].username.Some?
    ensures var n := w.sessions[id].username.value;
      var r := Remove(w, id);
      && r.clients == w.clients - {n} && r.conns == w.conns - {id}
      && (forall m :: m in r.order <==> m in w.order && m != n)
      && (exists k :: 0 <= k < |w.order| && w.order[k] == n && r.order == w.order[..k] + w.order[k + 1..])
      && r.sessions.Keys == w.sessions.Keys && r.sessions[id] == w.sessions[id]
      && forall c :: c in w.sessions && c != id ==>
           r.sessions[c] == w.sessions[c].(outbox := w.sessions[c].outbox +
             (if c in w.conns && Truthy(w.sessions[c].username) then ["INFO " + n + " disconnected" + "\n"] else []))
  {
    var n := w.sessions[id].username.value;
    var u := Unregister(w, id);
    assert u.freed == Some(n);
    RemoveNameAt(w.order, n);
    var info := "INFO " + n + " disconnected";
    BroadcastReaches(u.world, info, Some(id));
    TerminatedAfter("INFO " + n, " disconnected");
    var r := Broadcast(u.world, info, Some(id));
    forall c | c in w.sessions && c != id
      ensures r.sessions[c] == w.sessions[c].(outbox := w.sessions[c].outbox +
        (if c in w.conns && Truthy(w.sessions[c].username) then [info + "\n"] else []))
    {
      assert u.world.sessions[c] == w.sessions[c];
    }
  }

  /** Removing a connection that never logged in only drops it from `conns`. */
  lemma RemoveAnonymous(w: World, id: ClientId)
    requires id in w.sessions && w.sessions[id].username.None?
    ensures Remove(w, id) == w.(conns := w.conns - {id})
  {
  }

  /** A second removal changes nothing. */
  lemma RemoveIdempotent(w: World, id: ClientId)
    requires id in w.sessions
    ensures Remove(Remove(w, id), id) == Remove(w, id)
  {
    var u := Unregister(w, id);
    if u.freed.Some? {
      var r := Remove(w, id);
      assert r.sessions[id] == w.sessions[id];
      assert u.freed.value !in r.clients;
    }
  }

  // ---------------------------------------------------------------------------
  // remove_client as written

  /** As written, removing a client that holds a registered name never finishes: the name is
      already gone from the registry, but the thread waits for the lock it holds itself and no
      disconnect notice reaches anyone. */
  lemma TeardownAsWrittenBlocks(w: World, id: ClientId)
    requires Inv(w) && id in w.conns && w.sessions[id].username.Some?
    ensures var t := RemoveAsWritten(w, id);
      && t.blocked
      && t.world.clients == w.clients - {w.sessions[id].username.value}
      && t.world.conns == w.conns - {id}
      && t.world.sessions == w.sessions
  {
  }

  /** Only the named case is affected: a client that never logged in is torn down in full. */
  lemma TeardownAsWrittenAnonymous(w: World, id: ClientId)
    requires id in w.sessions && w.sessions[id].username.None?
    ensures !RemoveAsWritten(w, id).blocked && RemoveAsWritten(w, id).world == Remove(w, id)
  {
  }

  /** Two clients, ann (0) and bob (1), both logged in. */
  function AnnAndBob(): World {
    World(map["ann" := 0, "bob" := 1], ["ann", "bob"], {0, 1},
          map[0 := Client(Some("ann"), [], 0, []), 1 := Client(Some("bob"), [], 0, [])], 2)
  }

  lemma AnnAndBobValid()
    ensures Inv(AnnAndBob())
  {
    var w := AnnAndBob();
    assert IsStripped("ann") && IsStripped("bob");
    assert forall n :: n in w.order <==> n in w.clients;
  }

  /** Ann disconnects. As written, her thread blocks and bob is never told; with the notice
      sent once the lock is released, bob receives `INFO ann disconnected`. */
  lemma DeadlockWitness()
    ensures RemoveAsWritten(AnnAndBob(), 0).blocked
    ensures RemoveAsWritten(AnnAndBob(), 0).world.sessions[1].outbox == []
    ensures Remove(AnnAndBob(), 0).sessions[1].outbox == ["INFO ann disconnected\n"]
  {
    var w := AnnAndBob();
    var u := Unregister(w, 0);
    assert u.freed == Some("ann");
    assert "INFO " + "ann" + " disconnected" == "INFO ann disconnected";
    NoticeReachesBob(u.world);
  }

  lemma NoticeReachesBob(v: World)
    requires 1 in v.conns && 1 in v.sessions && v.sessions[1].username == Some("bob")
    requires v.sessions[1].outbox == []
    ensures Broadcast(v, "INFO ann disconnected", Some(0)).sessions[1].outbox == ["INFO ann disconnected\n"]
  {
    assert 1 in Targets(v, Some(0));
    assert Terminated("INFO ann disconnected") == "INFO ann disconnected\n";
  }

  // ---------------------------------------------------------------------------
  // The receive loop

  /** A poll timeout ends the session exactly when strictly more than the idle limit has
      passed since the last read, and then `ERR idle-timeout` is the only thing sent; an
      earlier timeout changes nothing. */
  lemma IdleTimeoutStrict(w: World, id: ClientId, loggedIn: bool, now: int, idleTimeout: int)
    requires Present(w, id, loggedIn) && Routable(w)
    ensures var r := Receive(w, id, Timeout(now), loggedIn, idleTimeout);
      && (r.stop <==> now - w.sessions[id].lastActive > idleTimeout)
      && r.loggedIn == loggedIn
      && (r.stop ==> OnlyReply(w, r.world, id, "ERR idle-timeout" + "\n"))
      && (!r.stop ==> r.world == w)
  {
    if now - w.sessions[id].lastActive > idleTimeout {
      SendAppends(w, id, "ERR idle-timeout");
      TerminatedPlain("ERR idle-timeout");
    }
  }

  /** An empty read (the peer closed) and a read error end the session and send nothing. */
  lemma ClosedOrFailedStops(w: World, id: ClientId, loggedIn: bool, now: int, idleTimeout: int)
    requires Present(w, id, loggedIn) && Routable(w)
    ensures Receive(w, id, Data([], now), loggedIn, idleTimeout).stop
    ensures Receive(w, id, Data([], now), loggedIn, idleTimeout).world == w
    ensures Receive(w, id, ReadError, loggedIn, idleTimeout).stop
    ensures Receive(w, id, ReadError, loggedIn, idleTimeout).world == w
  {
  }

  /** Data refreshes the idle clock to the time of the read, keeps the session going, and
      leaves buffered only the unterminated tail of everything received so far. */
  lemma DataRefreshesClock(w: World, id: ClientId, loggedIn: bool, bytes: string, now: int, idleTimeout: int)
    requires Present(w, id, loggedIn) && Routable(w) && bytes != []
    ensures var r := Receive(w, id, Data(bytes, now), loggedIn, idleTimeout);
      && !r.stop
      && r.world.sessions[id].lastActive == now
      && r.world.sessions[id].buffer == Leftover(w.sessions[id].buffer + bytes)
      && NL !in r.world.sessions[id].buffer
  {
    RefreshKeeps(w, id, loggedIn, bytes, now);
  }
}
