# Chat relay server: a verified Dafny model

This project models the protocol engine of `chat_server.py`, a line-oriented TCP chat server.
Each connection is served by its own thread. The thread:

- greets the client with a banner;
- reads bytes into a buffer;
- cuts the buffer into `\n`-terminated lines, strips each one and skips blank ones;
- dispatches each line in one of two phases. Before login only `LOGIN <name>` is accepted. After
  login the commands are `MSG <text>`, `WHO`, `DM <user> <text>` and `PING`, and anything else is
  `ERR unknown-command`;
- ends on an empty read, a read error or an idle timeout, and then removes the client from the
  shared registry.

Sockets are replaced by a per-client `outbox`: every text handed to `sendall` is appended to it.
Time is an integer clock that is passed in. Each read is an event of a finite event sequence.

The model is layered as follows:

| file | module | contents |
|---|---|---|
| `pystr.dfy` | `PyStr` | the Python `str` operations the server uses, for ASCII: `strip`, `lstrip`, `rstrip`, `upper`, `startswith`, `endswith`, `split(None, n)` |
| `framing.dfy` | `Framing` | the inner `while b"\n" in buffer` loop as functions on the buffer: the lines cut out, the leftover, and the commands handed on |
| `protocol.dfy` | `ChatProtocol` | the shared state (`clients` dict with its insertion order, `conns` set, one record per `Client`, the id counter) and every handler as one atomic step from state to state; the registry invariant and its preservation |
| `session.dfy` | `ChatSession` | the per-connection thread: one inner-loop turn, the inner loop, one outer-loop pass, the outer loop over events, and the whole thread with its teardown |
| `properties.dfy` | `ChatProperties` | what the server promises its clients, stated over those functions |
| `server.dfy` | `ChatServer` | the server as the program runs it: a class whose fields are the module-level state, whose methods update them in place, with the global lock as a flag; each method is proved to compute the corresponding function |

The registry invariant (`ChatProtocol.Inv`) says the following:

- every name in `clients` belongs to a live connection that carries that name;
- every live named connection is registered under its name;
- names are non-blank and stripped;
- the dict order lists each registered name exactly once.

## Model

| member | source | states |
|---|---|---|
| ChatProtocol.Terminated | chat_server.py:25-32 | the text written ends in `\n`, begins with the given text and is at most one character longer; it equals the text exactly when the text already ends in `\n` |
| ChatProperties.TerminatedIdempotent | chat_server.py:28-29 | sending an already terminated text writes it unchanged |
| ChatProperties.TerminatedPlain | chat_server.py:28-29 | a text without a final `\n` gets exactly one appended |
| ChatProperties.SendAppends | chat_server.py:25-32 | `send` appends exactly one line to the one client's outbox; registry, other clients and every buffer and clock are unchanged; it never fails |
| ChatProperties.BroadcastReaches | chat_server.py:39-43 | `broadcast` writes the line once to exactly the live connections with a truthy name other than `exclude`, and changes nothing else |
| ChatServer.Server.Send | chat_server.py:25-32 | the in-place `send` computes `ChatProtocol.Send` |
| ChatServer.Server.Broadcast | chat_server.py:39-43 | the loop over the snapshot of `conns`, under the lock, computes `ChatProtocol.Broadcast` and releases the lock |
| Framing.FirstNewline | chat_server.py:135 | the cut position holds the first `\n` of the buffer |
| Framing.Leftover | chat_server.py:134-135 | after the inner loop the buffer holds no `\n` and is no longer than before |
| Framing.Lines | chat_server.py:134-135 | the lines the inner loop cuts out contain no `\n` |
| Framing.Reassemble | chat_server.py:133-135 | the lines taken out, each followed by `\n`, then the leftover, give back the buffer as it was before the loop |
| Framing.FrameJoin | chat_server.py:133-135 | framing inverts joining: terminator-free lines and a terminator-free tail are recovered exactly |
| Framing.ChunkedFraming | chat_server.py:132-135 | data arriving in two reads is framed exactly as if it had arrived in one: same lines in the same order, same leftover |
| Framing.CleanedAppend | chat_server.py:136-138 | stripping and skipping blank lines distributes over concatenation |
| Framing.ChunkedCommands | chat_server.py:132-138 | the commands dispatched do not depend on how the stream was split into reads |
| Framing.Cleaned | chat_server.py:136-138 | every line handed on is non-blank and stripped |
| PyStr.Strip | chat_server.py:136 | `strip()` yields a string with no whitespace at either end |
| PyStr.TrimLeftShape | chat_server.py:136 | `lstrip()` removes exactly a whitespace prefix |
| PyStr.TrimRightShape | chat_server.py:136 | `rstrip()` removes exactly a whitespace suffix |
| PyStr.StripIdempotent | chat_server.py:136 | `strip()` is idempotent |
| PyStr.StripEmpty | chat_server.py:136-137 | a line strips to nothing exactly when it is all whitespace |
| PyStr.SplitWs | chat_server.py:47 | `split(None, n)` yields at most n+1 non-empty parts, none starting with whitespace |
| PyStr.SplitOnceAtSpace | chat_server.py:47 | a stripped line split once at its first whitespace yields the first word and the left-stripped rest, which is non-blank and stripped |
| PyStr.SplitTwiceAtSpaces | chat_server.py:75 | `DM <user> <text>` splits back into its three words |
| PyStr.SplitKeepsLast | chat_server.py:75 | the last part of `split(None, n)` ends with the string's last character when that is not whitespace, so a DM text from a stripped line never ends in whitespace |
| PyStr.Upper | chat_server.py:140-151 | `upper()` keeps the length and maps each character |
| PyStr.UpperPrefixSpaces | chat_server.py:140-149 | where the upper-cased line matches a keyword, the line has whitespace exactly where the keyword has it |
| ChatProtocol.Roster | chat_server.py:90-93 | WHO writes one `USER <name>` line per name, in the given order |
| ChatProtocol.RosterSnoc | chat_server.py:92-93 | one more loop turn adds the next name's line at the end |
| ChatProtocol.RemoveName | chat_server.py:105 | deleting a name from the dict order keeps exactly the other names, and no name twice |
| ChatProtocol.RemoveNameAt | chat_server.py:105 | `del` keeps the insertion order of the other keys: a name listed once is cut out at its place |
| ChatProtocol.RemoveNameAbsent | chat_server.py:104-105 | deleting a name that is not listed changes nothing |
| ChatProtocol.SendKeepsInv | chat_server.py:25-32 | sending keeps the registry invariant |
| ChatProtocol.BroadcastKeepsInv | chat_server.py:39-43 | broadcasting keeps the registry invariant |
| ChatProtocol.RegisterKeepsInv | chat_server.py:55-60 | registering a free, non-blank, stripped name keeps the registry invariant |
| ChatProtocol.LoginKeepsReady | chat_server.py:46-63 | `handle_login` keeps the invariant and its return value says whether the client now has a name |
| ChatProtocol.LoginKeepsLocals | chat_server.py:46-63 | `handle_login` changes no buffer, clock or set name and adds or drops no client |
| ChatProtocol.MsgKeepsReady | chat_server.py:66-71 | `handle_msg` keeps the invariant |
| ChatProtocol.BroadcastKeepsReady | chat_server.py:39-43 | a broadcast keeps the invariant and the sender's name |
| ChatProtocol.DmKeepsReady | chat_server.py:74-87 | `handle_dm` keeps the invariant |
| ChatProtocol.WhoKeepsReady | chat_server.py:90-93 | `handle_who` keeps the invariant |
| ChatProtocol.DispatchKeepsInv | chat_server.py:139-154 | dispatching a line keeps the invariant and the connection live, and never resets `logged_in` |
| ChatProtocol.DispatchKeepsReady | chat_server.py:139-154 | when the invariant held before a line, it holds after |
| ChatProtocol.DispatchKeepsPresent | chat_server.py:139-154 | dispatching keeps the client record with its name in step with `logged_in`, and every registered name routable, whether or not the invariant held |
| ChatProtocol.DispatchKeepsLocals | chat_server.py:139-154 | dispatching changes no buffer, no idle clock and no name already set, and adds or drops no client |
| ChatProtocol.ConnectKeepsInv | chat_server.py:113-118 | after connecting, the invariant holds and the new connection is live and not logged in |
| ChatProtocol.UnregisterKeepsInv | chat_server.py:101-105 | the locked part of `remove_client` keeps the invariant and drops the connection |
| ChatProtocol.RemoveKeepsInv | chat_server.py:100-106 | the whole teardown keeps the invariant |
| ChatProperties.PleaseLoginFirst | chat_server.py:139-143 | before login, a line whose upper form does not start with `LOGIN ` gets exactly `ERR please-login-first`, and the registry and the flag are unchanged |
| ChatProperties.LoginOnlyWayIn | chat_server.py:139-141 | the flag turns true only through a LOGIN line that `handle_login` accepted |
| ChatProperties.UnknownCommand | chat_server.py:144-154 | after login, a line that is no command gets exactly `ERR unknown-command` |
| ChatProperties.LoginAgainUnknown | chat_server.py:144-154 | a second LOGIN after login gets `ERR unknown-command` and changes nothing else |
| ChatProperties.LoginIsNoCommand | chat_server.py:144-154 | an upper-cased line starting with `LOGIN ` matches none of the logged-in commands |
| ChatProperties.PingPong | chat_server.py:151-152 | through the dispatcher, `PING` gets exactly `PONG` from `handle_ping` (chat_server.py:96-97) |
| ChatProtocol.LoginNameNotBlank | chat_server.py:47-54 | when a stripped line splits into two parts, the second part stripped is never blank |
| ChatProperties.LoginMalformed | chat_server.py:47-50 | a line that does not split into two parts gets `ERR invalid-login-format`, returns false, and leaves the registry unchanged |
| ChatProperties.LoginTaken | chat_server.py:55-58 | a name already registered gets `ERR username-taken`, returns false, and leaves the registry unchanged |
| ChatProperties.LoginSucceeds | chat_server.py:55-63 | a free name is registered to this client and appended to the dict order; the client gets `OK`, then every other named live connection gets `INFO <name> connected`; the result is true |
| ChatProperties.RegisterAnnounced | chat_server.py:59-62 | the successful login's writes, per client |
| ChatProperties.KeywordSplit | chat_server.py:140-149 | a stripped line classified by a keyword splits once into the keyword's word and the left-stripped rest |
| ChatProperties.DispatchedLogin | chat_server.py:46-63 | through the dispatcher a LOGIN line only ever gets `OK` or `ERR username-taken`, for the name that follows the keyword |
| ChatProperties.NamesUnique | chat_server.py:55-60 | no two live connections hold the same name |
| ChatProperties.NameReleasedByRemove | chat_server.py:100-106 | a name held by a live connection is refused to others, and after the holder's corrected teardown it is free again |
| ChatProperties.MsgEchoes | chat_server.py:66-71 | `MSG <text>` writes `MSG <sender> <stripped text>` to every named live connection, the sender included |
| ChatProperties.BroadcastEchoes | chat_server.py:39-43 | the broadcast `handle_msg` makes with no `exclude` (chat_server.py:71) reaches the sender too |
| ChatProperties.WhoLists | chat_server.py:90-93 | `WHO` writes `USER <name>` for every registered name, in dict order, to the asker only |
| ChatProperties.WhoWrites | chat_server.py:90-93 | `WHO` appends exactly the `USER <name>` lines of the dict order to the asker's outbox and nothing else anywhere |
| ChatProperties.OrderNamesStripped | chat_server.py:51-59 | every name in the dict order is non-blank and stripped |
| ChatProperties.WhoAppends | chat_server.py:90-93 | WHO appends the roster to the asker and touches nothing else |
| ChatProperties.RosterAppended | chat_server.py:92-93 | the roster appended to an outbox keeps what was there and adds `USER <name>\n` per name, in order |
| ChatProperties.RosterLines | chat_server.py:92-93 | for stripped non-blank names the roster lines are exactly `USER <name>\n` |
| ChatProperties.DmEchoes | chat_server.py:74-87 | any stripped line classified as DM (keyword in any case, any whitespace between the words) that splits into three parts with a registered target writes the identical `DM <sender> <text>` line to the target and then to the sender, and nothing else |
| ChatProperties.DmDelivers | chat_server.py:79-87 | the line `DM <target> <text>` as a client types it gets that exact echo |
| ChatProperties.DmLineParses | chat_server.py:75-80 | the line `DM <user> <text>` is classified as DM and yields that target and text |
| ChatProperties.DmClassified | chat_server.py:145-150 | a line `DM <rest>` is neither MSG nor WHO and is classified as DM |
| ChatProperties.SendTwice | chat_server.py:86-87 | two sends put the line on the target's outbox and then on the sender's |
| ChatProperties.DmTooShort | chat_server.py:75-78 | fewer than three words gets `ERR dm-format`, to the sender only |
| ChatProperties.DmUnknownTarget | chat_server.py:81-85 | an unregistered target gets `ERR user-not-found`, to the sender only |
| ChatProperties.RemoveFreesName | chat_server.py:100-106 | removing a named live connection drops it from `conns`, frees its name and only that, cuts it out of the dict order at its place, and tells every other named live connection `INFO <name> disconnected` |
| ChatProperties.RemoveAnonymous | chat_server.py:100-104 | removing a connection that never logged in only drops it from `conns` |
| ChatProperties.RemoveIdempotent | chat_server.py:102-105 | a second removal changes nothing |
| ChatProperties.TeardownAsWrittenBlocks | chat_server.py:101-106 | as written, tearing down a named client leaves the thread blocked with the lock held (the nested `with lock` of chat_server.py:40), after deleting the name and before any notice |
| ChatProperties.TeardownAsWrittenAnonymous | chat_server.py:101-106 | as written, an anonymous client's teardown completes |
| ChatProperties.DeadlockWitness | chat_server.py:100-106 | with ann and bob logged in and ann leaving: as written bob is never told; corrected, bob gets `INFO ann disconnected` |
| ChatProperties.NoticeReachesBob | chat_server.py:106 | the corrected notice reaches bob |
| ChatProperties.IdleTimeoutStrict | chat_server.py:123-127 | a poll timeout ends the session exactly when strictly more than the idle limit has passed; `ERR idle-timeout` is then the only write, and otherwise nothing changes |
| ChatProperties.ClosedOrFailedStops | chat_server.py:128-131 | an empty read or a read error ends the session and writes nothing |
| ChatProperties.DataRefreshesClock | chat_server.py:132-135 | a non-empty read refreshes the idle clock to the time of the read, keeps the session going, and leaves buffered only the unterminated tail of everything received |
| ChatSession.SetBufferKeepsReady | chat_server.py:135 | rewriting a client's buffer keeps the invariant |
| ChatSession.Turn | chat_server.py:135-154 | one inner-loop turn keeps the client record with its name in step with `logged_in`, keeps every registered name routable, and, when it held, the registry invariant; it never resets `logged_in`; other clients' buffers and clocks and every set name are unchanged |
| ChatSession.TurnFrames | chat_server.py:135-138 | one turn leaves in the buffer the text after the first `\n`, hands on the stripped first line exactly when it is non-blank, and leaves the idle clock alone |
| ChatSession.Drain | chat_server.py:134-154 | the inner loop dispatches exactly the buffer's stripped non-blank complete lines, in order (`Framing.Commands`); the buffer left is the text after the last `\n` (`Framing.Leftover`); the idle clock is untouched; the client record stays, `logged_in` is never reset, and other clients' buffers and clocks and every set name are left alone |
| ChatSession.DrainKeepsReady | chat_server.py:134-154 | the inner loop keeps the registry invariant |
| ChatSession.Receive | chat_server.py:121-154 | one outer-loop pass keeps the client record and routing, never resets `logged_in`, and leaves other clients' buffers and clocks and every set name alone |
| ChatSession.ReceiveKeepsReady | chat_server.py:121-154 | one outer-loop pass keeps the registry invariant |
| ChatSession.Run | chat_server.py:120-154 | the outer loop over events stops at the first ending event or consumes them all, keeps the client record and routing, and never resets `logged_in` |
| ChatSession.RunKeepsReady | chat_server.py:120-154 | the outer loop keeps the registry invariant |
| ChatSession.ClientThread | chat_server.py:113-156 | with the corrected teardown: the thread's connection is fresh; after it the invariant holds; the connection is gone exactly when the loop ended, and then no name maps to it |
| ChatSession.ClientThreadAsWritten | chat_server.py:113-156 | with the teardown as written: the thread blocks exactly when the loop ended while its client held a name; the invariant holds, the connection is gone exactly when the loop ended, and then no name maps to it |
| ChatSession.TeardownsDiffer | chat_server.py:100-106 | the two threads agree except that, where the one as written blocks, the corrected one goes on to send `INFO <name> disconnected` |
| ChatServer.Server.constructor | chat_server.py:35-36 | the module state at import: empty registry, lock free, invariant true |
| ChatServer.Server.HandleLogin | chat_server.py:46-63 | the in-place `handle_login` computes `ChatProtocol.Login` and returns its flag; its `ERR invalid-username` branch is proved dead |
| ChatServer.Server.RegisterName | chat_server.py:59-60 | the two locked assignments compute `ChatProtocol.Register` |
| ChatServer.Server.HandleMsg | chat_server.py:66-71 | the in-place `handle_msg` computes `ChatProtocol.Msg` |
| ChatServer.Server.HandleDm | chat_server.py:74-87 | the in-place `handle_dm` computes `ChatProtocol.Dm`, looking up under the lock and sending outside it |
| ChatServer.Server.HandleWho | chat_server.py:90-93 | the in-place `handle_who` computes `ChatProtocol.Who` under the lock |
| ChatServer.Server.SendRoster | chat_server.py:92-93 | the WHO loop appends the roster of the dict order to the asker |
| ChatServer.Server.SendUser | chat_server.py:92-93 | one turn of the WHO loop appends the next name's `USER <name>` line to the asker and changes nothing else |
| ChatServer.Server.HandlePing | chat_server.py:96-97 | `handle_ping` sends `PONG` |
| ChatServer.Server.Dispatch | chat_server.py:139-154 | the in-place dispatcher computes `ChatProtocol.Dispatch` |
| ChatServer.Server.TakeLine | chat_server.py:135-154 | one in-place inner-loop turn computes `ChatSession.Turn` and shortens the buffer |
| ChatServer.Server.ProcessBuffer | chat_server.py:134-154 | the in-place inner loop computes `ChatSession.Drain` |
| ChatServer.Server.Receive | chat_server.py:121-154 | one in-place outer-loop pass computes `ChatSession.Receive` |
| ChatServer.Server.Connect | chat_server.py:114-118 | connecting computes `ChatProtocol.Connect`: a fresh live anonymous client greeted with the banner |
| ChatServer.Server.RemoveClient | chat_server.py:100-106 | the corrected teardown computes `ChatProtocol.Remove`, releasing the lock before the notice, keeps the invariant and drops the connection |
| ChatServer.Server.RemoveClientAsWritten | chat_server.py:100-106 | the teardown as written computes `ChatProtocol.RemoveAsWritten`: when a name is freed the method ends blocked with the lock still held |
| ChatServer.Server.ReceiveLoop | chat_server.py:120-154 | the in-place `while True` loop computes `ChatSession.Run` |
| ChatServer.Server.ClientThread | chat_server.py:113-156 | the in-place thread with the corrected teardown computes `ChatSession.ClientThread`, keeps the invariant and leaves the lock free |
| ChatServer.Server.ClientThreadAsWritten | chat_server.py:113-156 | the in-place thread as written computes `ChatSession.ClientThreadAsWritten` and ends with the lock held exactly when it blocked |

## Left out

- Start-up (`main`, argparse, binding, listening, accepting, spawning threads) and the environment configuration (chat_server.py:8-10, 159-177). This is I/O; the idle limit is a parameter instead.
- Real sockets. `sendall` becomes an append to the outbox. `recv` becomes an event. The one-second poll timeout, `conn.close()` and the swallowed exceptions (chat_server.py:30-32, 107-110, 116) are I/O only.
- Threads and the per-client `Client.lock` (chat_server.py:23, 27). Each handler is one atomic step. The unsynchronised `conns.add` (chat_server.py:115) is a concurrency matter and is modelled as part of the atomic connect. Only the global lock is kept, as a flag, to show the nested acquisition in `remove_client`.
- Clock values: `time.time()` floats are integer ticks passed in with each event.
- Encoding. Bytes and characters are the same `char` sequence. UTF-8 decoding, and the decode failure that would leave the loop through the `finally` teardown (chat_server.py:136, 155-156), are not modelled. `strip`, `split` and `upper` follow Python only on ASCII.
- ChatSession.Run: the thread's endless loop is fed a finite sequence of events. A run that uses up its events without an ending event stops without teardown.
- `Client` objects are records in a map keyed by a connection number. Identity comparison (`is`) is equality of these numbers.
- `chat_client.py` is not part of this model: it only copies between the terminal and the socket.
- The broadcast order within one `broadcast` call (the order of the `conns` snapshot) is not modelled. Each connection's outbox gets the line once, and the order between connections is unobservable in the model.
- In two places the code does not do what the server is meant to do, and the model follows the code:
  - a `MSG` is meant to reach every other logged-in client and not its sender, but `handle_msg` calls `broadcast` with no `exclude` (chat_server.py:71), so the sender gets its own line too;
  - the global lock is meant to guard only the registry and never to be held during a network write, but `handle_who` and `broadcast` call `send` inside `with lock:` (chat_server.py:40-43, 91-93).
- Two login errors are unreachable through the dispatcher. They appear only in `ChatProtocol.Login` and in `ChatServer.Server.HandleLogin`, whose blank-name branch is proved dead. A line that reaches `handle_login` is stripped and starts with `LOGIN ` (case-insensitive), so it always splits into two parts, and the second part stripped is never blank (`ChatProperties.DispatchedLogin`, `ChatProtocol.LoginNameNotBlank`). `ERR invalid-login-format` and `ERR invalid-username` therefore never reach a client from the receive loop.
- NameReleasedByRemove (ChatProperties.NameReleasedByRemove): the name is freed again only with the corrected teardown of the Findings row. As written, the holder's teardown keeps the global lock (`ChatServer.Server.RemoveClientAsWritten`), so a later LOGIN waits forever at chat_server.py:55 and never gets `OK`.
- ClientThread (ChatSession.ClientThread and ChatServer.Server.ClientThread): both end with the corrected teardown of the Findings row. The thread as written is `ChatSession.ClientThreadAsWritten` and `ChatServer.Server.ClientThreadAsWritten`: it never finishes the teardown of a named client, and the lock stays held.

## Findings

| source | as written | input that shows it | evidently intended | confidence | as-written member | corrected member |
|---|---|---|---|---|---|---|
| chat_server.py:100-106 | `remove_client` calls `broadcast` from inside `with lock:`; `broadcast` acquires the same non-reentrant `lock` (chat_server.py:40), so the thread blocks forever holding the lock, no disconnect notice is sent, and every later lock user stalls | two clients, ann and bob, both logged in; ann's connection closes (empty read), and her teardown frees the name `ann` | drop the client and its name under the lock, then release it and send `INFO <name> disconnected` to the other named live connections | not executed | ChatServer.Server.RemoveClientAsWritten, ChatProperties.TeardownAsWrittenBlocks, ChatProperties.DeadlockWitness, ChatSession.ClientThreadAsWritten | ChatServer.Server.RemoveClient, ChatProperties.RemoveFreesName, ChatSession.ClientThread, ChatSession.TeardownsDiffer |
