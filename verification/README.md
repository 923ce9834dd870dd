# simpleProxy in Dafny

simpleProxy is a single-threaded HTTP and CONNECT proxy around one epoll instance, with basic
authentication against a user table. This project models the parts of it that carry state and
arithmetic, and proves what they promise:

- the chained hash map, whose nodes are relinked in place when it doubles (`HashMap.dfy`), and the
  credential cache on top of it (`Auth.dfy`, `AuthCache.dfy`);
- the base64 codec (`Base64.dfy`);
- the configuration loader and rewriter, over the 511-character pieces that `fgets` hands them
  (`Config.dfy`, `ConfigProofs.dfy`), and the Host parser (`HostHeader.dfy`);
- the life of a client: its record and buffers (`Client.dfy`, `Connection.dfy`), the handlers, the
  registry, the accept loop, the timer and the event loop (`Proxy.dfy`).

Code that changes things step by step is a class, an array or a loop here, proved against
functions of values. For the proxy these functions are in `Lifecycle.dfy` (one event of one client),
`World.dfy` (all clients: arrival, event and tick) and `EventLoop.dfy` (what wakes the loop, and the
steps that it causes). What the proxy promises is proved about those functions in
`LifecycleProofs.dfy`, `Ownership.dfy`, `Dispatch.dfy` and `World.dfy`, for every step and then for
every run; `Proxies.Proxy.RunLoop` says that every run of the event loop is such a run, so the
theorems of `World.dfy` are about it. `Admission.dfy` shows that their hypotheses are met: it gives
runs in which a user gets through to its target, and one in which epoll refuses a target.

A function of values and the method that is proved against it could be wrong together, so what each
of them computes is also said without naming it, in literal text and numbers: the header, the
credentials and the row of the table behind an answer, and the answers of every history without a
cache (`AuthText.dfy`); the lines of a configuration file (`ConfigText.dfy`); the Host header
(`HostText.dfy`); the base64 alphabet, the vectors of RFC 4648 section 10 and the bytes of any
accepted text (`Base64Text.dfy`); and what each event does to its client, from the answers of the
kernel alone (`Outcomes.dfy`).

There are two invariants. `Worlds.Safe` holds in every run, whatever fails: no client has lost a byte
or reached a target without permission, slots are distinct, and every registration that carries data
leads to a live client and the side of it that it names, so that its events can be dispatched.
`Worlds.WorldOk` adds that every open descriptor has exactly one owner; it holds until the socket of a
target cannot be registered, and that event breaks it.

The kernel, the clock and the user table are nondeterministic: each call takes its answers from a
script (`Env`, `Arrival`, the two clock readings and the `Db` of a call), and every theorem holds for
all scripts. Ghost histories record every byte received from and sent to either side of a client.

Three promises are false of the code as it is, and are proved with the exact condition under
which they hold: the encoder never writes `=`, so it agrees with RFC 4648 exactly when three
divides the length (`Base64.EncodeIsRfc4648`); a configuration is read back from a rewritten file
exactly when the settings that the file names are clean and fit (`ConfigProofs.ReadsBackWhenClean`),
and rewriting is idempotent exactly when each setting prints as one line that fits
(`ConfigProofs.UpdateIsIdempotent`); and an event keeps the ownership of descriptors exactly when it
does not make its client connect to a target that is then not registered with its data: when epoll
refuses the socket the handler closes it and keeps its number (`Ownership.EventOwns`, `Worlds.StepKeeps`; the condition,
`Ownership.FailsToRegister`, speaks of the state before the event and of the answers to it). The run
in `Admissions.RefusalClosesAnother` shows what follows.

## Model

| member | source | states |
|---|---|---|
| HashMaps.Hash | src/core/collections/hashmap.c:47-53 | the wrapping 64-bit loop computes the bucket of a key, which is defined from the exact base-31 polynomial |
| HashMaps.WrapInvisible | src/core/collections/hashmap.c:47-53 | at every capacity 8·2^k that 64 bits can hold, the wrap-around does not show: the bucket is the exact polynomial modulo the capacity |
| HashMaps.DoublingSplitsBuckets | src/core/collections/hashmap.c:99-111 | doubling sends a node of bucket i to bucket i or to bucket i + old capacity, and nowhere else |
| HashMaps.PushHolds | src/core/collections/hashmap.c:140-141 | a new key at the head of its bucket leaves the chains holding exactly the map with that entry added |
| HashMaps.CutHolds | src/core/collections/hashmap.c:156-175 | a chain without one node leaves the chains holding exactly the map without its key, one entry smaller |
| HashMaps.MoveNext | src/core/collections/hashmap.c:105-114 | moving the next node of the old chains keeps the split: new chains hold exactly the entries moved so far, and the moved node is in no other place |
| HashMaps.MovedAll | src/core/collections/hashmap.c:103-115 | when the walk ends the new chains hold the whole map, and exactly the same nodes |
| HashMaps.Search | src/core/collections/hashmap.c:156-174 | the walk along a bucket finds the node of the key and its predecessor, or null exactly when no node of the chain has the key |
| HashMaps.HashMap.constructor | src/core/collections/hashmap.c:55-62 | a new map is empty and valid, with eight buckets |
| HashMaps.HashMap.Contains | src/core/collections/hashmap.c:83-93 | true exactly when the key is in the abstract map |
| HashMaps.HashMap.Get | src/core/collections/hashmap.c:179-193 | the lookup of the abstract map |
| HashMaps.HashMap.Push | src/core/collections/hashmap.c:108-111 | relinking a node to the head of a bucket changes that chain only, and keeps every chain linked to its null |
| HashMaps.HashMap.Relink | src/core/collections/hashmap.c:104-114 | walking one old chain while its nodes are pushed onto new ones terminates and moves exactly its nodes |
| HashMaps.HashMap.RelinkAll | src/core/collections/hashmap.c:103-115 | all old chains: the same map, the same nodes, the recounted size |
| HashMaps.HashMap.Rehash | src/core/collections/hashmap.c:95-117 | the map, the size and the set of nodes are unchanged, every node is in the bucket it has at twice the capacity |
| HashMaps.HashMap.Reserve | src/core/collections/hashmap.c:127-129 | the capacity doubles exactly when one more entry would exceed the load factor; one rehash is always enough, and the capacity stays 8·2^k |
| HashMaps.HashMap.Add | src/core/collections/hashmap.c:119-146 | insert-if-absent: a present key keeps its old value; validity (acyclic, disjoint, placed chains, unique keys, 4·size ≤ 3·capacity) is kept |
| HashMaps.HashMap.Insert | src/core/collections/hashmap.c:131-143 | the map with the new entry, and the size of the map |
| HashMaps.HashMap.Remove | src/core/collections/hashmap.c:149-177 | deletion of the key from the abstract map; nothing when it is absent |
| HashMaps.HashMap.UnlinkFirst | src/core/collections/hashmap.c:160-168 | taking the head node out of a chain cuts that chain and leaves the others |
| HashMaps.HashMap.UnlinkAfter | src/core/collections/hashmap.c:158-168 | taking out the node after a predecessor cuts that chain and leaves the others |
| Base64.Encode | src/core/util.c:15-37 | the loop writes the RFC 4648 section 4 encoding of the input completed with zero bytes to a multiple of three, and a terminator |
| Base64.WriteGroup | src/core/util.c:27-32 | one group is the four letters of its three octets; the tests for `=` never hold |
| Base64.EncodeIsRfc4648 | src/core/util.c:22-33 | that output is the standard's encoding of the input exactly when three divides its length |
| Base64.WrapLosesNothing | src/core/util.c:85-90 | 32-bit wrap-around of the accumulator never changes an emitted byte |
| Base64.ByteComplete | src/core/util.c:85-91 | the byte written after a character is the next eight bits of the exact sextet stream |
| Base64.Decode | src/core/util.c:39-97 | an error exactly for a bad length or a foreign character, else the leading bits of the sextets, eight at a time, without the padding; it writes past the program's own buffer exactly when it succeeds on a text that ends in two `=` |
| Base64.EmittedIsLocal | src/core/util.c:79-92 | each emitted byte depends on the four characters of its own group only |
| Base64.DecodeRfc4648 | src/core/util.c:39-97 | decoding the standard's padded encoding of any byte string gives back exactly that string |
| Base64.DecodeEncode | src/core/util.c:15-97 | decoding what the program encodes gives the input and completing zero bytes: the input exactly when three divides its length, and always the same C string |
| Base64Texts.AlphabetIs | src/core/util.c:16-61 | both tables are the alphabet of RFC 4648 section 4, given by character codes; `=` decodes as zero bits, and a character is foreign exactly when it is in neither |
| Base64Texts.AcceptedTexts | src/core/util.c:63-83 | the decoder accepts exactly the texts over that alphabet and `=` whose length four divides |
| Base64Texts.DecodedGroups | src/core/util.c:63-97 | the bytes of every accepted text, `=` anywhere: three for each group, from its 24 bits, without one for each `=` in the last two places |
| Base64Texts.TestVectors | src/core/util.c:15-37 | the encoding that the others are compared with gives the seven test vectors of RFC 4648 section 10 |
| Base64Texts.WithoutPadding | src/core/util.c:22-33 | the program writes `ZgAA` and `Zm8A` where the standard has `Zg==` and `Zm8=` |
| Auth.UserFromB64 | src/main/auth.c:14-53 | the pair that the scanner matches in the decoded C string, or nothing |
| Auth.ScanRoundTrip | src/main/auth.c:33-40 | scanning user:password gives the pair back exactly when both are non-empty, at most 255 bytes, NUL-free, the user has no colon and the password no white space |
| Auth.ExtractBasicAuthB64 | src/main/auth.c:55-92 | the pointer walk finds the credentials of the first proxy or plain authorization header, up to the end of its line |
| Auth.CredentialRoundTrip | src/main/auth.c:14-92 | a request whose first Proxy-Authorization header carries Basic and the standard's encoding of user:password (RFC 7617 section 2) is parsed back to that pair exactly when it can be scanned |
| AuthTexts.ScanIs | src/main/auth.c:33-40 | a text made of a user without colon, a colon, white space, a password without white space and a rest, both of 1 to 255 characters, gives that user and password, when the password ends before white space, at 255 characters or with the text |
| AuthTexts.ScanParts | src/main/auth.c:33-40 | and every text that gives a pair is made so |
| AuthTexts.CredentialsAre | src/main/auth.c:55-92 | for either header, with any white space before `Basic `, the credentials are the rest of the line: to a CR LF, without one to a line feed, without either to the end |
| AuthTexts.NoCredentials | src/main/auth.c:60-72 | no header, or one of another scheme, gives none |
| AuthCaches.AuthCache.constructor | src/main/auth.c:95 | no call has been made, and nothing is cached |
| AuthCaches.AuthCache.CreateCache | src/main/auth.c:95-98 | the first call makes an empty map, later ones keep it |
| AuthCaches.AuthCache.Consult | src/main/auth.c:103-156 | the answer and the new cache for one set of credentials: live entries answer, stale ones are dropped before the lookup, a match stores a new expiry |
| AuthCaches.AuthCache.HasValidAuth | src/main/auth.c:94-157 | one call appends itself to the history, answers as the history demands, and leaves the map equal to the cache of the whole history |
| AuthCaches.LookUp | src/main/auth.c:113-145 | true exactly when the table answers and has the password that the credentials carry (`AuthTexts.FirstUseIsLookedUp` says it of the rows of the table) |
| AuthCaches.EntryVouched | src/main/auth.c:150-153 | in every history, every cached entry was stored by a call that looked its credentials up and matched, and expires 3600 s after that |
| AuthCaches.GrantIsBacked | src/main/auth.c:103-111 | every granted call is backed by a match in that call or in an earlier one less than 3600 s before |
| AuthCaches.MatchIsStored | src/main/auth.c:108-153 | a new match always stores its own expiry, although add ignores keys that are present |
| AuthCaches.CacheIsTransparent | src/main/auth.c:94-157 | over a table that never changes and always answers, every answer in every history is that of the check without a cache |
| AuthCaches.RevocationTakesEffect | src/main/auth.c:105-145 | credentials that have not matched for an hour are refused |
| AuthTexts.FirstUseIsLookedUp | src/main/auth.c:113-156 | credentials that no earlier call carried are accepted exactly when the table answers and has their user with their password |
| AuthTexts.FirstCallIsLookedUp | src/main/auth.c:94-157 | the same for a single call: a grant is a row of the table, for every user that can be scanned |
| AuthTexts.AcceptedForAnHour | src/main/auth.c:103-156 | once accepted, credentials are accepted for 3600 seconds whatever the table says, and after that exactly when it has them |
| AuthTexts.GrantedIsRemembered | src/main/auth.c:94-157 | every answer of every history, without a cache map: granted exactly when the table has the pair now, or an earlier call with the same credentials looked them up and was accepted, and each use since then came less than 3600 s after; uses of other credentials do not matter |
| CString.AtoiDecimal | src/core/config.c:86-95 | `atoi` reads back what `%d` prints, for every int |
| CString.AtoiIs | src/core/config.c:86-95 | white space, one sign and digits are read; the value is exact within 32 bits, wraps from 2^31 to 2^32, and is -1 or 0 when it overflows 64 bits |
| CString.AtoiOfNoNumber | src/core/config.c:86-95 | text without digits is zero |
| CString.DecimalIs | src/core/config.c:164-166 | `%d` prints decimal digits, most significant first, after a minus sign |
| Configs.TrimNewline | src/core/config.c:13-18 | the loop leaves the C string without its trailing newlines and carriage returns |
| Configs.PrepareLine | src/core/config.c:42-56 | the in-place filter leaves the C string up to the first `#` without its white space |
| Configs.Fgets | src/core/config.c:67-68 | a piece ends at its newline, at 511 characters or at the end of the file |
| Configs.LoadBuffer | src/core/config.c:69-104 | one line of the loader, in the buffer, is the assignment that its text denotes |
| Configs.LoadText | src/core/config.c:67-105 | the loop over the pieces is the fold of the assignments |
| Configs.LoadConfig | src/core/config.c:58-109 | the defaults when the file cannot be opened, else what its text gives (`ConfigTexts` says it line by line) |
| Configs.RewriteBuffer | src/core/config.c:147-177 | one line of the rewriter, in the buffer, prints the new setting or the line as it was |
| Configs.UpdateConfigFile | src/core/config.c:145-178 | the loop writes the rewriting of the pieces, in order |
| ConfigTexts.TrimmedText | src/core/config.c:13-18 | a line feed or a carriage return at the end is dropped, and a text without one stays |
| ConfigTexts.PreparedText | src/core/config.c:42-56 | white space is dropped anywhere before the first `#`, the `#` with all that follows; other text stays |
| ConfigTexts.FgetsTakes | src/core/config.c:67-68 | the next piece of any file ends after its first line feed, or at 511 characters, or with the file |
| ConfigTexts.NothingIsLoaded | src/core/config.c:58-67 | a missing or an empty file gives zero ports and no strings |
| ConfigTexts.PortsAreLoaded | src/core/config.c:86-95 | a line `PORT=` and a number sets the port, a line `DB_PORT=` and a number the port of the database, for every int |
| ConfigTexts.StringsAreLoaded | src/core/config.c:88-101 | the lines `DB_HOST=`, `DB_DATABASE=`, `DB_USER=` and `DB_PASS=` set the string of that name, for text without NUL, `#` and white space on a line that fits |
| ConfigTexts.PortsAreRewritten | src/core/config.c:163-166 | a line that begins with `PORT=` or `DB_PORT=` and fits is printed with the new number of that name, whatever else it says |
| ConfigTexts.StringsAreRewritten | src/core/config.c:167-174 | and the four others with the new string of that name, or nothing |
| ConfigTexts.OtherLinesStay | src/core/config.c:71-104 | a comment, a line without `=` and one with another key change no setting and are copied |
| ConfigProofs.LoadUpdated | src/core/config.c:58-178 | when the settings that the file names are clean, loading the rewritten file gives the new value of every key that the loader would have read from the old one, and leaves the others |
| ConfigProofs.ReadsBackWhenClean | src/core/config.c:58-178 | a NUL-free file is read back exactly when the settings that it names have no white space, `#` or NUL and fit on their lines |
| ConfigProofs.UpdateThenLoad | src/core/config.c:58-178 | all NUL-free files are read back exactly when all settings of the configuration are clean |
| ConfigProofs.DirtyIsLost | src/core/config.c:42-109 | a setting that is not clean is not read back from the file that names its key alone |
| ConfigProofs.LoadedIsClean | src/core/config.c:67-105 | what the loader produces is clean |
| ConfigProofs.UpdateByLines | src/core/config.c:145-178 | splitting the rewritten file again gives exactly the rewritten pieces; lines that are no settings survive byte for byte, in order |
| ConfigProofs.UpdateIsIdempotent | src/core/config.c:145-178 | rewriting twice equals rewriting once, for every NUL-free file, exactly when every setting prints as one line that fits in the buffer |
| ConfigProofs.SplitLineGrows | src/core/config.c:145-178 | a setting that does not makes the file grow at every rewriting |
| HostHeaders.ParseHostPort | src/main/util.c:15-47 | the host and port that the first Host header denotes, or an error when there is none |
| HostHeaders.SplitValue | src/main/util.c:31-46 | the copy into the 256-byte buffer and the cut at the colon give the truncated value's host and port |
| HostHeaders.HostPortRoundTrip | src/main/util.c:15-47 | a first Host header rendered as h:p (RFC 9110 section 7.2) gives back (h, p) exactly when h has no colon, no carriage return and no leading blank, and the value fits in 255 characters or what is cut off does not matter |
| HostHeaders.HostRoundTrip | src/main/util.c:15-47 | without a colon it gives back (h, 80) exactly when h is plain and fits in 255 characters |
| HostTexts.HostPortIs | src/main/util.c:15-47 | for either spelling of the header, with any blanks before the value and any of the three line ends: the host is the value, cut to 255 characters and at its first colon, the port is what follows the colon, or 80 |
| HostTexts.NoHost | src/main/util.c:16-22 | there is no host exactly when neither spelling occurs |
| Connections.RecvIntoBuffer | src/main/connection.c:61-80 | the receive loop appends exactly the bytes that the kernel handed over, and reports how it ended |
| Connections.SendFromBuffer | src/main/connection.c:83-101 | what was sent and what is left in the buffer are what was there, in order |
| Connections.Shift | src/main/connection.c:89 | the move to the front keeps the unsent bytes |
| Clients.ClientState.constructor | src/main/client.c:10-41 | a new record is the new client of the model |
| Clients.ClientState.Grow | src/main/proxy.c:109-118 | reallocation doubles the capacity and keeps the bytes |
| Clients.ClientState.Take | src/main/proxy.c:137-138 | the received bytes are appended, and a terminator is written at the position after them |
| Clients.ClientState.Receive | src/main/proxy.c:120-143 | one recv and the search for the empty line |
| Clients.ClientState.ReadRequestNonblocking | src/main/proxy.c:108-144 | the reading step of the model |
| Clients.ClientState.PullFromClient | src/main/connection.c:122-126 | bytes, closed flag and clock as the model has them |
| Clients.ClientState.PushToTarget | src/main/connection.c:128-132 | the same for client to target, out |
| Clients.ClientState.PullFromTarget | src/main/connection.c:135-139 | the same for target to client, in |
| Clients.ClientState.PushToClient | src/main/connection.c:141-145 | the same for target to client, out |
| Clients.ClientState.ConnectionForward | src/main/connection.c:103-152 | the forwarding step of the model, and -1 exactly when both sides are closed (`Outcomes.ClientEvent` and `Outcomes.TargetEvent` say what it moves) |
| LifecycleProofs.ForwardConserves | src/main/connection.c:103-152 | forwarding loses and reorders no byte in either direction, through partial sends, errors, half-closes and full buffers |
| LifecycleProofs.ForwardOnlyMoves | src/main/connection.c:103-152 | forwarding changes bytes, flags and clock only; closed flags are never cleared |
| LifecycleProofs.TrafficKeepsAwake | src/main/connection.c:121-145 | while both sides are open, a client's clock is the time of its last event that moved a byte: of the later of two transfers, else of the one there was, else unchanged |
| LifecycleProofs.TerminatorOverruns | src/main/proxy.c:109-138 | the terminator lands past the end of the request buffer exactly when the recv fills all the room that the buffer has after growing |
| LifecycleProofs.FullRequestIsStuck | src/main/proxy.c:109-135 | every later read leaves a request buffer that a recv has filled as it is: it does not grow and the request is not completed |
| LifecycleProofs.EventKeepsOk | src/main/proxy.c:146-299 | every event, whatever the kernel and the user table answer, keeps byte conservation, authentication before any target activity, the target that the granted request names, at most one connection attempt and at most two tunnel answers |
| LifecycleProofs.EventAdvances | src/main/proxy.c:278-299 | every event moves its client forward through the states, histories only grow, its slot stays, and an expired client's events do nothing |
| LifecycleProofs.EventSettles | src/main/proxy.c:146-244 | no event leaves a client between two handlers |
| LifecycleProofs.TunnelMark | src/main/proxy.c:227-233 | when a tunnel begins to forward, exactly what it had sent before is discarded, and one answer more was sent |
| Outcomes.DrainIs | src/main/connection.c:61-80 | a receive loop takes all that is offered and fits, and reports a closed side exactly after an error, an orderly end with nothing before it, or when there was no room |
| Outcomes.FlushIs | src/main/connection.c:83-101 | a send loop puts out all that is accepted, and reports an error exactly when one comes before the end of the buffer |
| Outcomes.ClientEvent | src/main/connection.c:103-152 | an event on the client's socket reads what is offered as far as it fits and writes what waited for the client as far as it is accepted; which flag it sets, and that nothing else changes; closing begins exactly when both sides are closed |
| Outcomes.TargetEvent | src/main/connection.c:103-152 | the same for the target's socket |
| Outcomes.FirstAnswersMove | src/main/connection.c:121-145 | in particular the bytes of the first answer of each loop are moved, in all four transfers |
| Outcomes.ClosingEvent | src/main/proxy.c:246-261 | an event of a closing client expires it and closes and unregisters exactly its descriptors |
| Outcomes.ConnectFails | src/main/proxy.c:215-225 | a socket error closes both ends at once and expires the client; it is sent nothing, and no answer is counted |
| Outcomes.ConnectSucceeds | src/main/proxy.c:227-233 | without one it forwards: a tunnel is sent the 200 line and loses its input, a plain client keeps its request |
| Outcomes.BothEndsWatched | src/main/proxy.c:28-64 | and both ends are then watched for input and output, up to the first registration that fails |
| Outcomes.ReadIs | src/main/proxy.c:108-144 | the whole result of a read, for every answer of the kernel: data completes the request exactly when an empty line occurs in the C string of all that has come so far |
| Outcomes.ReadGivesUp | src/main/proxy.c:146-154 | a read that fails, or finds the end before any byte, closes and expires the client |
| Outcomes.ReadWaits | src/main/proxy.c:120-159 | one that finds nothing, an end after some bytes, or bytes without an empty line only keeps the bytes |
| Outcomes.RequestRefused | src/main/proxy.c:178-183 | a complete request that is refused is sent the 407 response, given in full, and its client is closed; nobody is connected to |
| Outcomes.RequestWithoutHost | src/main/proxy.c:165-173 | a granted request without a host is marked for closing and keeps its descriptor |
| Outcomes.RequestConnects | src/main/proxy.c:165-209 | a granted request with a host tries one connection: the record, the history and the kernel that it leaves, for every outcome of resolution, socket, connect and registration |
| Ownership.CloseOwns | src/main/proxy.c:246-261 | closing releases exactly the client's descriptors and registrations |
| Ownership.InitOwns | src/main/proxy.c:186-209 | connecting keeps ownership exactly when the socket that it makes is registered with its data |
| Ownership.EventOwns | src/main/proxy.c:186-261 | an event keeps its client the owner of its descriptors unless, and only unless, it makes the client connect and epoll refuses the socket or its data cannot be allocated; nobody else's descriptors or registrations are touched |
| Ownership.OwnsElsewhere | src/main/proxy.c:278-299 | an event of one client leaves every other the owner of what it owned |
| Ownership.EventDials | src/main/proxy.c:146-209 | an event tries a connection exactly when its client is about to, or is to be admitted, at once or after a read that completes its request; then one, else none |
| Dispatches.EventFound | src/main/proxy.c:28-64 | whatever has failed before, an event leaves the registrations that name its client at that client's own numbers, registers nothing for anybody else, and nothing without data while data can be allocated |
| Worlds.EveryEventIsEnabled | src/main/loop_handlers.c:74-82 | in every safe world an event can be dispatched exactly when its registration carries data: it leads to a live client whose state the handlers accept |
| Worlds.EventKeepsClients | src/main/proxy.c:278-299 | an event of one client keeps what holds of all of them |
| Worlds.EventKeepsTables | src/main/proxy.c:278-299 | an event keeps one owner for each descriptor and every registration with its owner, unless and only unless it fails to register the target that it connects to |
| Worlds.EventKeepsDispatching | src/main/proxy.c:278-299 | an event keeps every registration with data leading to a live client, whatever has failed |
| Worlds.ArriveKeepsTables | src/main/epoll_util.c:61-86 | an arrival keeps them |
| Worlds.TickKeepsPartition | src/main/loop_handlers.c:43-61 | after the timer every open descriptor still has one owner: those of freed clients are closed |
| Worlds.TickKeepsTables | src/main/loop_handlers.c:43-61 | and no registration names a freed client |
| Worlds.TickedOne | src/main/loop_handlers.c:43-61 | one visit: an expired client is freed with its descriptors, an idle one is marked and its registrations removed when both ends are there, any other is left alone |
| Worlds.TickedOneMore | src/main/client_registry.c:26-32 | visits to different clients add up to one tick |
| Worlds.IdleForTenSeconds | src/main/loop_handlers.c:47-60 | one visit in numbers: after ten seconds or more the client is marked, stays open, and is unregistered when it has a target; before, nothing changes |
| Worlds.ExpiredIsFreed | src/main/loop_handlers.c:51-53 | a visit to a client that had expired frees it and closes exactly its descriptors, whatever the time |
| Worlds.WholeTick | src/main/client_registry.c:26-32 | the same rule for every client in one tick |
| Worlds.ArrivalIs | src/main/client.c:10-41 | the literal record of a new client, watched for input only |
| Worlds.StepKeepsClients | src/main/loop_handlers.c:16-82 | arrival, event and tick keep byte conservation and admission of every client, whatever fails |
| Worlds.StepKeepsSafe | src/main/loop_handlers.c:16-82 | and distinct slots and safe dispatch, whatever fails |
| Worlds.StepKeeps | src/main/loop_handlers.c:16-82 | and one owner for each descriptor, unless and only unless the step is an event that fails to register the target that it connects to |
| Worlds.RunKeepsSafe | src/main/main.c:101-122 | every run keeps the clients' bytes and admission, the slots and the dispatch in order |
| Worlds.RunKeeps | src/main/main.c:101-122 | ownership holds along every run until an event fails to register its target, and not after that event |
| Worlds.RunIsSafe | src/main/loop_handlers.c:16-82 | as long as epoll takes the targets' sockets, with their data, every descriptor has one owner after every run |
| Worlds.RunCarries | src/main/proxy.c:197-206 | as long as the data of the targets can be allocated, every registration carries data, so that every event can be dispatched |
| Worlds.RunAdvances | src/main/proxy.c:278-299 | along every run a client only moves forward, and once expired it never changes |
| Worlds.OnlyUsersReachTargets | src/main/proxy.c:161-236 | in every run, a client with a target socket, a byte exchanged with a target, a connection attempt or a tunnel answer had its completed request granted, its target is the one that this request names, and the credentials decode to a user and password that were a row of the table in that call or in one less than 3600 s before |
| Worlds.NoByteIsLost | src/main/connection.c:61-152 | in every run, what a plain client sent is what its target got and what waits in the buffer, and the other way round once it is admitted |
| Worlds.NoTunnelledByteIsLost | src/main/connection.c:61-152 | along every run from forwarding on, the same for a tunnel, counted from where it began |
| Worlds.TunnelCarriesAll | src/main/proxy.c:227-236 | in every run, from the event in which a tunnel begins to forward: what its target got and what waits is exactly what the client has sent since that event, and what the client got after the answer is what the target sent |
| Worlds.IdleIsReaped | src/main/loop_handlers.c:43-72 | the tick that finds a client idle for ten seconds marks it and does not free it; by the next tick it is gone with its descriptors |
| Admissions.Understood | src/main/auth.c:55-92 | a well-formed request of a user is complete, names its host and port, and carries its user's credentials |
| Admissions.UserConnects | src/main/proxy.c:108-184 | a new client that sends it, for a user of the table, is admitted and connects, in every world |
| Admissions.ServedOrRefused | src/main/proxy.c:186-209 | what that event leaves: a connecting client with a registered socket, or, when epoll refuses it, a closing one that keeps the number of the closed socket |
| Admissions.SomebodyIsServed | src/main/auth.c:94-157 | every well-formed request can be met by a table and a kernel that serve it, so the runs below exist |
| Admissions.UserGetsThrough | src/main/proxy.c:146-236 | a run from the start, for plain requests and tunnels, in which such a client arrives, is admitted, connects and forwards |
| Admissions.RefusalClosesAnother | src/main/proxy.c:201-206 | a run from the start in which epoll refuses a target, a second client gets the number of the closed socket, and closing the first client closes it under the second |
| Proxies.Proxy.constructor | src/main/client_registry.c:6-10 | the empty registry satisfies the invariant and is the start of the runs |
| Proxies.Proxy.HandleClosing | src/main/proxy.c:246-265 | the closing step of the model |
| Proxies.Proxy.HandleForwarding | src/main/proxy.c:238-244 | the forwarding step of the model |
| Proxies.Proxy.RegisterForwardingFds | src/main/proxy.c:28-64 | the registrations of both ends, ended by the first failure |
| Proxies.Proxy.ConnectionConnect | src/main/connection.c:22-59 | the connection attempt of the model, with its result |
| Proxies.Proxy.HandleInitializeConnection | src/main/proxy.c:186-209 | the connecting step of the model, with the branch that keeps the closed descriptor |
| Proxies.Proxy.HandleConnecting | src/main/proxy.c:211-236 | the step to forwarding, or to closing on a socket error (`Outcomes.ConnectFails`, `Outcomes.ConnectSucceeds`) |
| Proxies.Proxy.HandleAuthenticating | src/main/proxy.c:161-184 | the authentication step of the model |
| Proxies.Proxy.Admit | src/main/proxy.c:165-177 | its branch for a granted request |
| Proxies.Proxy.FindTarget | src/main/proxy.c:167-176 | the kind of the request and its target |
| Proxies.Proxy.HandleReadingRequest | src/main/proxy.c:146-159 | the reading step of the model |
| Proxies.Proxy.HandleClient | src/main/proxy.c:278-299 | the mutual recursion of the handlers terminates, each call in a later state, and is the event step of the model |
| Proxies.Proxy.HandleClientEvent | src/main/loop_handlers.c:74-82 | one event of the loop, on a registration with data, is the event step, and the invariant holds after it |
| Proxies.Proxy.Dispatch | src/main/proxy.c:278-299 | all other clients are as they were |
| Proxies.Proxy.StateRegistryAdd | src/main/client_registry.c:12-20 | the first free slot, or -1 exactly when there is none |
| Proxies.Proxy.StateRegistryRemove | src/main/client_registry.c:22-24 | one slot is free again |
| Proxies.Proxy.FreeClientState | src/main/client.c:43-64 | exactly the client's descriptors are closed and unregistered |
| Proxies.Proxy.EpollRegisterClient | src/main/epoll_util.c:61-86 | a new registered client, or, on each failure, the descriptor closed and nothing else changed |
| Proxies.Proxy.AcceptOne | src/main/loop_handlers.c:17-40 | an arrival is admitted exactly when nothing fails and a slot is free; it takes the first such slot and is the arrival step, else everything is as before |
| Proxies.Proxy.RoomLeft | src/main/client_registry.c:12-20 | a slot is free exactly when fewer than 1024 clients are live |
| Proxies.Proxy.HandleListenerEvent | src/main/loop_handlers.c:16-41 | arrivals are admitted in order, up to the first that cannot be; the invariant holds |
| Proxies.Proxy.TimeoutCallback | src/main/loop_handlers.c:43-61 | the visit of the model (`Worlds.IdleForTenSeconds`, `Worlds.ExpiredIsFreed`); exactly the slot of a freed client becomes free |
| Proxies.Proxy.Reap | src/main/loop_handlers.c:51-53 | the expired client leaves the registry, its descriptors the kernel |
| Proxies.Proxy.Expire | src/main/loop_handlers.c:54-60 | the idle client is marked and no longer registered |
| Proxies.Proxy.ForEach | src/main/client_registry.c:26-32 | the loop over a registry that its own callback changes visits each client that was there once |
| Proxies.Proxy.HandleTimerEvent | src/main/loop_handlers.c:63-72 | one tick frees exactly the clients that had expired before it, with their slots, and is the tick step; a failed read changes nothing |
| Proxies.Proxy.HandleReady | src/main/main.c:108-119 | a registered descriptor's event is the event step, and there are no others; a registration without data cannot be dispatched |
| Proxies.Proxy.Handle | src/main/main.c:108-120 | what wakes the loop causes exactly the steps that answer it: a tick gives each client the reading of the clock for its slot |
| Proxies.Proxy.RunLoop | src/main/main.c:101-122 | every run of the event loop is a run of the steps, input by input in order, and keeps the invariant; it ends early only at a registration without data, which needs an allocation failure; ownership lasts as long as every target is registered |

## Left out

- Sockets, epoll, timerfd, DNS, signals and `main`: only the outcomes of the calls are there, as scripts. The kernel hands out no descriptor that is open, closing a descriptor removes its registration, and EPOLL_CTL_DEL of a descriptor that is not registered does nothing.
- Stale events: the loop takes events one at a time from the registrations there are, while the program walks a batch, in which an event may name a client that an earlier one has freed.
- After a refused target registration two clients may hold the same descriptor number. The histories are those of each record: what was received and sent under the numbers that it holds.
- A registration whose data could not be allocated: the program reads through its null pointer when it is reported, and the modelled loop ends there.
- The user table: a map from names to passwords that may change between calls and may not answer; SQL text, its truncation and the migrations are not part of this model.
- Memory that the program leaks (EpollData records, cached keys, credentials after a cache hit), allocation failure inside the map, which ends the program, and in the credential parser; `hashmap_free` and `hashmap_print`. Allocation failures on registration are modelled, because the descriptors depend on them.
- Mutexes of the map: one event loop calls it, so operations are atomic.
- The width of `capacity` and `size`: they are unbounded, and only the hash wraps. The load factor 0.75 is compared exactly, as 4·(size + 1) > 3·capacity, not in floating point.
- Bit operations are written as arithmetic with division and remainder.
- Base64.Decode: with two `=` the program writes one byte past its allocation; the array here has room for it, the contract says when it is used, and only the first `decoded_len` bytes are specified.
- Clients.ClientState.Take: when a recv fills the request buffer the program writes the terminator one past its end; the buffer here has a guard element for it, and LifecycleProofs.TerminatorOverruns says when it is used. The terminator matters only to the search for the empty line.
- Proxies.Proxy.HandleAuthenticating: the request handed on is the C string in the buffer as it was completed; the buffer beyond its length is not modelled.
- `closed` flags: a recv with no space left returns 0 and counts as closed, as in the program, so a set flag does not mean that the peer has closed. Liveness and fairness of forwarding are not claimed.
- `atoi` outside int: the C standard leaves it open; the model saturates to long and then truncates, as the GNU library does on 64-bit Linux.
- `sscanf` and `isspace` are those of the C locale; characters above 255 do not occur in C strings.
- Replacing the configuration file by remove and rename, and `save_config`, which omits DB_PORT: a file is its character sequence.
- Logging, printing, password prompts, the setup dialogue and packaging.
