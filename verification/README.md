# eNode-go: verified models

A Dafny model of the parts of the eNode-go eD2K server whose correctness rests on more than
one function: the TCP receive path and its handover to another process, the UDP rendezvous
registry and its wake-up protocol, foreign callbacks, the wire codec, the gossip peer table,
the LowID pool, the publish soft limit, the keyword filter and account access.

`dafny verify dfyconfig.toml` checks everything.

## How it is built

Code that updates state in place is a class whose methods are proved against functions on
values, and the promises are proved about those functions. Code that drops a lock in the
middle of an operation is a machine whose actions are the locked sections; its theorems hold
in every interleaving.

| file | what it models |
|---|---|
| `Bytes`, `Rc4` | bytes and little-endian numbers; the RC4 cipher as an object and as a keystream |
| `Framing`, `Pipeline`, `Delivery`, `Session` | packets out of a byte stream; sniffing, handshake, decryption in front of it; what any bytes come to, the login gate included; the session object that does it all |
| `Handoff`, `SessionHandoff` | parking, exporting and rebuilding a live session; the locks around it |
| `NatRegistry`, `NatExpiry` | rendezvous candidates with their reverse index; the wrapping clock over whole runs |
| `NatWake` | waking a target: callers, timers and REGISTERs racing over one batch of requesters |
| `NatCallback`, `NatNotices`, `NatQueue` | foreign callback batches and the keepalives that are believed; whole runs of them; who waits, read off the history |
| `Codec`, `Buffers`, `Search` | tags, file lists and search trees on values; the buffer and cursor that print and parse them |
| `Gossip` | peer admission, promotion, advertising and the parking schedule |
| `LowId`, `SoftLimit`, `Keywords`, `Accounts` | the ID pool, the in-place offer filter, whole-word matching, locked account writes |

The reference for the receive path is a machine that takes one byte at a time. The session
object handles whole reads; it is proved to do what the machine does, so how the bytes were
cut into reads cannot matter except where a theorem says it does.

## Where a promise does not hold as written

The code is modelled as it is. Each of these has an exact condition.

- Cutting a stream differently can be seen when a handler closes the session while more bytes
  of the same read follow: a packet among them is still dispatched, while in a later read it is
  not (`Framing.OneCut`, `Framing.CloseStillDispatches`).
- A client that sends anything right behind its key exchange, without waiting for the server's
  key, is closed when both arrive in one read and served when they do not. Cutting its stream
  is invisible exactly when no read runs past the key exchange (`Pipeline.PipeSplitInvariant`,
  `Pipeline.EarlyDataRefused`, `Pipeline.HandshakeAnyCut`).
- The cap of 4096 waiting targets is checked before the wake is sent and not again after it:
  with n callers between their sections at once up to 4095 + n targets can wait
  (`NatWake.WaitsBounded`, `NatWake.BoundReached`).
- The registry's clock wraps harmlessly exactly when the TTL plus the longest gap between two
  sweeps is below 2^32 ms (`NatExpiry.WrapHarmless`, `NatExpiry.WrapHarmful`).
- A grant of days to an account whose access does not end gives it an end
  (`Accounts.GrantShortens`).
- Grants, revocations and adjustments by days add up exactly when none of them extended access
  that had already run out; otherwise the account has more than the sum, never less
  (`Accounts.GrantsAddUp`).
- `ed2k/gossip.go` describes the state above "keyed" as reached only by answering an encrypted
  frame. The code promotes an entry on any well-formed description from its address, so one
  plain datagram is enough (`Gossip.DescribedWithoutKey`). Being at the admission bar implies a
  key exactly for addresses whose descriptions all come after they showed one
  (`Gossip.BarImpliesKey`).
- One accepted reply restores a parked peer for sure exactly when no other entry has its
  address; with two, the lookup by address may find the other one (`Gossip.ReplyRevives`,
  `Gossip.SharedAddressStaysParked`).
- A peer that answers every contact is never parked, except with a limit of one failure: then
  each contact parks it until it is heard again (`Gossip.AnsweringPeer`).

## Model

| member | source | states |
|---|---|---|
| `Bytes.NumberIs` | ed2k/buffer.go:174-199 | a number on the wire has its least significant byte first |
| `Rc4.CipheredConcat` | ed2k/crypt.go:59-77 | enciphering `a ++ b` is enciphering `a` and then `b` with the key where `a` left it |
| `Rc4.CipheredInvolution` | ed2k/crypt.go:59-77 | two keys in the same state undo each other on every input |
| `Rc4.AdvanceAdd` | ed2k/crypt.go:59-77 | stepping m + n times is stepping m times and then n |
| `Rc4.AdvancePermutation` | ed2k/crypt.go:59-77 | the table stays a permutation of 0..255 however long the key is used |
| `Rc4.CreatedPermutation` | ed2k/crypt.go:35-57 | a key made from any phrase, burned in or not, starts and stays a permutation |
| `Rc4.KeySchedule` | ed2k/crypt.go:50-54 | the schedule is 256 exchanges from the identity, each with j advanced by the table byte and the next phrase byte, the phrase repeated |
| `Rc4.Keystream` | ed2k/crypt.go:67-75 | byte i is exclusive-ored with the keystream byte of round i: x up by one, y by the byte there, the two exchanged, the byte at their sum |
| `Rc4.XorBit` | ed2k/crypt.go:73 | a bit of the result is set exactly where the two differ |
| `Rc4.DropBurnsIn` | ed2k/crypt.go:35-57 | dropping skips 1024 keystream bytes; an empty phrase leaves the identity |
| `Rc4.RC4Key.Create` | ed2k/crypt.go:35-57 | the in-place key schedule and the 1024-byte burn-in give the scheduled key value |
| `Rc4.RC4Key.Crypt` | ed2k/crypt.go:59-77 | the in-place loop returns the enciphered bytes and leaves the key exactly that far on; without a buffer it only advances |
| `Framing.StepConsistent` | ed2k/server_runtime.go:1123-1180 | between any two bytes a session is either gathering a header or inside a payload, and a close reason once set is never replaced |
| `Framing.FoldConcat` | ed2k/server_runtime.go:1123-1180 | framing `a ++ b` is framing `a` and then `b` |
| `Framing.FoldHeader` | ed2k/packet.go:337-369 | six bytes that complete a header, wherever they were cut, do what the header says, and the rest is framed after it |
| `Framing.FoldPayload` | ed2k/packet.go:373-388 | payload bytes that complete a packet dispatch exactly the declared bytes and leave the excess to be framed next |
| `Framing.FoldBody` | ed2k/packet.go:337-388 | the bytes behind a header give the packet, its excess, or a packet still waiting, as Init decides |
| `Framing.OneCut` | ed2k/server_runtime.go:1123-1180 | reading `a` and then `b` equals reading `a ++ b`, for every `b`, if and only if `a` does not end with a session a handler closed and framing did not |
| `Framing.CloseStillDispatches` | ed2k/server_runtime.go:1123-1180 | when a handler closes on the first of two packets, one read of both dispatches both and two reads dispatch only the first |
| `Framing.SplitInvariant` | ed2k/server_runtime.go:1123-1180 | for every stream and every cut into reads, unless a handler closes the session: same packets in the same order, same state, same replies, same close |
| `Framing.FramesRoundTrip` | ed2k/packet.go:337-388 | any list of packets the login gate and the size limits let through at their turn, login included, framed and concatenated, is dispatched back packet by packet, and the session ends closed exactly if a handler closed it |
| `Delivery.FoldExplained` | ed2k/server_runtime.go:1123-1180 | for every byte string and state: the bytes are the frames of packets the server takes, each dispatched once and in order, and a rest that is the packet under way or refused for a reason read off its bytes; what is written is what those handlers wrote and the refusal before login, at most once; the close is exactly theirs or that reason's |
| `Delivery.NothingElseBeforeLogin` | ed2k/server_runtime.go:1600-1641 | whatever arrives, plain or encrypted, in whatever reads: nothing is dispatched before login but packets of protocol 0xc5, logins and disconnects, of at most 64 KiB, and never anything above 2,000,000 bytes |
| `Pipeline.StepKeepsConsistent` | ed2k/tcpcrypt.go:57-98 | the crypt state, its buffered bytes, its keys and the framing state fit each other after every byte |
| `Pipeline.PlainChunk` | ed2k/server_runtime.go:1078-1121 | a read of plaintext in one piece does what its bytes do one at a time |
| `Pipeline.EncryptedChunk` | ed2k/tcpcrypt.go:209-214 | decrypting a read as a whole and framing it does what decrypting and framing byte by byte does, replies included |
| `Pipeline.NegotiatingChunk` | ed2k/tcpcrypt.go:57-98 | a read inside the client's encrypted reply: each byte is decrypted once and what follows the padding is framed |
| `Pipeline.UnknownChunk` | ed2k/tcpcrypt.go:57-98 | a read inside the key exchange gathers, or answers when it completes it exactly |
| `Pipeline.CheckExtends` | ed2k/tcpcrypt.go:189-207 | more bytes never change a verdict the handshake has given, only extend what is left over |
| `Pipeline.PipeSplitInvariant` | ed2k/server_runtime.go:1078-1180 | the whole receive path, from sniffing to dispatch: unless a handler closes the session, a cut into reads gives the packets, replies, keystream positions and close of any other if and only if no read runs past the key exchange |
| `Pipeline.EarlyDataRefused` | ed2k/tcpcrypt.go:57-98 | a read that holds the end of the key exchange and anything behind it fails the handshake, while the same bytes up to that end are accepted |
| `Pipeline.HandshakeCompletes` | ed2k/tcpcrypt.go:57-98 | a client with the same secret that makes its own two keys from it, with any padding, has exactly its bytes after the padding framed, and decrypts everything on the wire behind the server's public key, as one stream, to the sync block and the replies |
| `Pipeline.HandshakeRefuses` | ed2k/tcpcrypt.go:189-207 | a reply with another magic or method closes the session for that, an incomplete one waits, and neither is dispatched or answered |
| `Pipeline.KeysOf` | ed2k/tcpcrypt.go:158-165 | both keys come from the MD5 of the secret and 203 or 34, past 1024 bytes of their keystream |
| `Pipeline.PlainServed` | ed2k/server_runtime.go:1078-1121 | a client that speaks plaintext to the obfuscated listener is framed and answered in plaintext |
| `Pipeline.HandshakeAnyCut` | ed2k/tcpcrypt.go:57-98 | and this for every cut of request and reply into reads, as long as the reply starts its own read |
| `Pipeline.ReadsOfClosed` | ed2k/server_runtime.go:1012-1076 | a closed session is not read any more |
| `Session.Packet.Append` | ed2k/packet.go:373-388 | gathers payload; complete exactly when the declared size is reached, with what is beyond it as excess |
| `Session.Packet.Init` | ed2k/packet.go:337-369 | a header of size 0 or beyond the limit is refused, any other sets protocol, opcode and size and takes the payload that is there |
| `Session.TCPCrypt.ProcessRequest` | ed2k/tcpcrypt.go:57-98 | waits for the whole key exchange, refuses bytes behind it, else makes both keys from the shared secret and answers with the server's key and the enciphered sync block |
| `Session.TCPCrypt.ProcessReply` | ed2k/tcpcrypt.go:57-98 | decrypts what arrived once, then waits, fails, or switches to encrypting and returns what follows the padding |
| `Session.TCPCrypt.Decrypt` | ed2k/tcpcrypt.go:209-214 | the plaintext, and the receiving key as far on as the bytes |
| `Session.Framer.PreLoginHeaderAllowed` | ed2k/server_runtime.go:1600-1641 | before login exactly a header of at most 65537 bytes for protocol 0xc5, a login or a disconnect passes; a refusal closes the session and writes its message at most once |
| `Session.Framer.ProcessPacketData` | ed2k/server_runtime.go:1123-1180 | the recursive framing of a read, excess and all, equals taking its bytes one at a time, and terminates |
| `Session.TcpSession.WriteRaw` | ed2k/server_runtime.go:2235-2264 | appends to the wire, enciphered with the sending key from where it stood once the session encrypts |
| `Session.TcpSession.HandleBytes` | ed2k/server_runtime.go:1078-1121 | one read of the socket, in any state of the session, does what the byte machine does with those bytes |
| `Session.TcpSession.Run` | ed2k/server_runtime.go:1012-1076 | the read loop over any reads does what the byte machine does with them, until the session is closed |
| `Handoff.ExportApply` | ed2k/handoff.go:374-456 | exporting a session and applying it to a fresh one gives the session back, but for its history |
| `Handoff.HandoverInvisible` | ed2k/handoff.go:374-456 | whatever happens after the handover, received or written, happens in the successor as it would have in the predecessor: packets, decrypted bytes, wire |
| `Handoff.OneKeystream` | ed2k/server_runtime.go:2235-2264 | everything an encrypting session sends, replies and pushes in any order, is one run of its sending keystream |
| `Handoff.DoKeepsInv` | ed2k/handoff.go:135-229 | every action of reader, writers and parker keeps the parking invariant: a session parked in a round that has not ended is in that park, the held lock is the parker's, an export is the current state |
| `Handoff.StillWhileHeld` | ed2k/handoff.go:135-229 | while the parker holds the write lock, and for good after the handover, no step of the old process takes a read, handles a byte, writes, or moves a key |
| `Handoff.HandoverOverRuns` | ed2k/handoff.go:135-229 | over every interleaving: every byte taken from the socket was served, once and in order, before the export, and the successor, given the exported state, continues the stream as one process serving all events would have |
| `Handoff.DoLosesNothing` | ed2k/handoff.go:135-229 | after every step the bytes taken from the socket are those served followed by those still in the reader's hand, unless a read ran past the key exchange, and that closed the session |
| `Handoff.RoundsEnd` | ed2k/handoff.go:135-229 | from a session that is open both ends of a parking round are reached: the handover with its export, and the return to reading |
| `SessionHandoff.ExportState` | ed2k/handoff.go:374-415 | copies the stream state out of the session object, keystream positions included |
| `SessionHandoff.ImportCrypt` | ed2k/tcpcrypt.go:244-250 | the crypt object takes the exported state over, with key objects of its own |
| `SessionHandoff.ApplyState` | ed2k/handoff.go:418-456 | a session just built takes the exported state over, field by field |
| `SessionHandoff.HandOver` | ed2k/handoff.go:374-456 | the object rebuilt from the export of any open session stands exactly where the exported one stood |
| `NatRegistry.EndpointFaithful` | ed2k/nattraversal.go:1015-1034 | both spellings of an IPv4 share a key (section 2.5.5.2 of RFC 4291), nothing else does, the key tells the family and gives the address back |
| `NatRegistry.Registry.constructor` | ed2k/nattraversal.go:208-221 | an empty registry with the given TTL, or 90 s |
| `NatRegistry.Registry.SetSlot` | ed2k/nattraversal.go:1085-1106 | the old endpoint leaves the index, the endpoint's other holder loses its slot or its entry, the new one is indexed |
| `NatRegistry.Registry.Upsert` | ed2k/nattraversal.go:690-699 | registers the endpoint for its family, takes it from any other hash, keeps versions, and keeps index and slots exact inverses |
| `NatRegistry.Registry.TouchByAddr` | ed2k/nattraversal.go:712-733 | matches exactly the live candidate a scan of all slots would find, and refreshes only it |
| `NatRegistry.Registry.Get` | ed2k/nattraversal.go:738-750 | the live candidates of a hash per family, with when each was last seen, or none |
| `NatRegistry.Registry.Cleanup` | ed2k/nattraversal.go:752-769 | removes exactly the candidates past the TTL, entries left empty, and their index entries |
| `NatRegistry.FoundByIndex` | ed2k/nattraversal.go:712-733 | the index names an endpoint's one holder, in the slot of the endpoint's own family, exactly when it has one |
| `NatRegistry.UpsertShown` | ed2k/nattraversal.go:1085-1106 | registering keeps: index inverse to the filled slots, one owner per endpoint, own-family slots, no empty entry |
| `NatRegistry.SweepOneShown` | ed2k/nattraversal.go:752-769 | sweeping one entry keeps the same invariant |
| `NatRegistry.AgeIsTrue` | ed2k/nattraversal.go:1066-1077 | the modular age of anything heard less than a wrap ago is its true age, within 1 ms |
| `NatExpiry.WrapHarmless` | ed2k/nattraversal.go:1057-1077 | in every run whose sweeps are close enough, each lookup finds exactly what a registry that never sweeps and never wraps would find: nothing more than 1 ms past the TTL, everything 2 ms or more before it |
| `NatExpiry.WrapHarmful` | ed2k/nattraversal.go:1063-1072 | past the bound some run hands out a candidate that expired a wrap ago |
| `NatExpiry.RunAgrees` | ed2k/nattraversal.go:340-358 | over every run the swept registry and the ideal one differ only in candidates already too old |
| `NatExpiry.HolderIsLast` | ed2k/nattraversal.go:1085-1115 | over every run a hash holds an endpoint exactly when neither was registered again since, the hash elsewhere or the endpoint by another |
| `NatWake.AddWaiter` | ed2k/natwake.go:233-245 | a repeated requester replaces its entry, a new one is appended while fewer than four wait, else it is refused |
| `NatWake.AddedWaits` | ed2k/natwake.go:233-245 | waiters stay distinct and at most four, nobody else is lost, an accepted one is in |
| `NatWake.PairIntroduces` | ed2k/nattraversal.go:558-589 | both peers are told each other's endpoint in one common family, IPv6 when it is on and both have it; nothing when they share none |
| `NatWake.AnswerToOne` | ed2k/natwake.go:202-222 | a requester that shares a family with the target gets one datagram at its own candidate with the target's, its hash, version and the SYNC2's token, and the target one from its own socket with the requester's; otherwise the requester gets failure 0x01 where it asked from; its own through its SYNC2's socket |
| `NatWake.WakeOutbound` | ed2k/natwake.go:202-222 | of the datagrams of a finished wait exactly one is each requester's answer, in order |
| `NatWake.AnswersEachOnce` | ed2k/natwake.go:202-222 | for whatever the registry says of each: one answer each, addressed to it |
| `NatWake.ForwardsIntroduce` | ed2k/natwake.go:202-222 | whatever else is sent introduces one of them to the target |
| `NatWake.DoKeeps` | ed2k/natwake.go:69-197 | every locked section, timer and answer keeps the invariant over pending targets, batches, timers, accepted SYNC2s and answers |
| `NatWake.ExpireKeeps` | ed2k/natwake.go:182-197 | an expiry ends the wait it was armed for, and does nothing to a later one on the same target |
| `NatWake.RegistrationEndsWait` | ed2k/natwake.go:154-177 | a REGISTER ends the wait in a family it is for; the IPv4 one of a wait for both only restarts the timer, once |
| `NatWake.SecondWaits` | ed2k/natwake.go:133-146 | a SYNC2 past its wake waits for its target unless four others do |
| `NatWake.FirstWaits` | ed2k/natwake.go:104-122 | one for a target already woken waits at once, any other goes on exactly below 4096 targets |
| `NatWake.EveryWaiterAnswered` | ed2k/natwake.go:69-222 | whatever the interleaving, a SYNC2 told to wait is in its batch by its latest request; before the batch is answered no datagram was sent for it, and then exactly one answer to each requester, at its own address and through its own socket |
| `NatWake.AnsweredForever` | ed2k/natwake.go:154-197 | a batch is finished at most once: after its answers it never changes and nothing more is sent for it |
| `NatWake.WaitsBounded` | ed2k/natwake.go:104-144 | pending targets are at most 4095 plus the most callers ever between their two sections, with one to four requesters each |
| `NatWake.BoundReached` | ed2k/natwake.go:104-144 | for every n > 0 a run with n such callers reaches 4095 + n |
| `NatCallback.LiveForeign` | ed2k/natcallback.go:871-879 | the in-place filter keeps the requests of the last 19 s, in order |
| `NatCallback.Queue` | ed2k/natcallback.go:800-812 | a repeated requester moves to the end, the last three others stay, past four the oldest goes |
| `NatCallback.CallbackState.Sweep` | ed2k/natcallback.go:843-868 | at most once a window, drops stale requesters, named targets and keepalives, and what is left empty |
| `NatCallback.CallbackState.AllowForeignNamed` | ed2k/natcallback.go:712-734 | exactly when an address may name a target: again, or a new one with fewer than sixty in its window; never more than sixty are held, and sweeping cannot be seen |
| `NatCallback.NamesAreRecent` | ed2k/natcallback.go:712-734 | over every history the targets held for an address are those its allowed requests named in the last ten minutes, so at most sixty |
| `NatCallback.CallbackState.AddForeign` | ed2k/natcallback.go:784-814 | joins the live batch of the target or opens one with a fresh generation, and says which |
| `NatCallback.CallbackState.TakeForeign` | ed2k/natcallback.go:817-826 | removes the batch and returns its live requesters |
| `NatCallback.CallbackState.TakeForeignGen` | ed2k/natcallback.go:830-839 | the same, only for the generation asked for |
| `NatCallback.CallbackState.CheckKeepalive` | ed2k/natcallback.go:918-958 | a good proof is believed from anywhere; anything else only from the session's address, and plain only until an obfuscated one was believed; the session state follows |
| `NatCallback.CountersIncrease` | ed2k/natcallback.go:918-958 | between two token issues the accepted proof counters strictly increase |
| `NatCallback.NoReplay` | ed2k/natcallback.go:918-958 | no proof is believed twice under one token |
| `NatCallback.PlainRefused` | ed2k/natcallback.go:918-958 | once an obfuscated keepalive was believed, no plain one without a proof is |
| `NatCallback.FreshProofBelieved` | ed2k/natcallback.go:918-958 | a client that counts up is believed, from any address and however it is sent, and its counter kept |
| `NatCallback.PlainBelieved` | ed2k/natcallback.go:918-958 | a plain keepalive from the session's own address is believed as long as none came obfuscated |
| `NatCallback.ObfuscatedBelieved` | ed2k/natcallback.go:918-958 | an obfuscated one from there always, and it guards the session from then on |
| `NatNotices.NoticesHonest` | ed2k/natcallback.go:400-483 | over every run: each 0xa7 names the session's own IPv4 or one that same session proved; no requester is taken twice; batches hold at most four, all from different endpoints |
| `NatNotices.FallbackTakesItsBatch` | ed2k/natcallback.go:462-483 | a fallback timer takes only requests of the batch it was armed for |
| `NatNotices.KeepTheirs` | ed2k/natcallback.go:400-436 | an endpoint kept from a keepalive is the session's own or one it proved |
| `NatNotices.TakeInv` | ed2k/natcallback.go:817-839 | taking a batch takes requests that joined it and were never taken |
| `NatNotices.AddInv` | ed2k/natcallback.go:784-814 | a request joins the batch whose generation it is told |
| `NatQueue.QueueIsHistory` | ed2k/natcallback.go:784-839 | the live requesters of a target are exactly the last four that asked in the last 19 s since its batch was taken, each by its latest request, in that order |
| `NatQueue.WaitingExactly` | ed2k/natcallback.go:784-839 | and this in every run of the machine |
| `NatQueue.TellAnswersAll` | ed2k/natcallback.go:400-436 | a believed keepalive answers every one of them, in order, with the endpoint it came from |
| `NatQueue.NobodyForgotten` | ed2k/natcallback.go:313-392 | in every run a batch that waits has its own fallback timer running |
| `NatQueue.OwnAnswers` | ed2k/natcallback.go:462-483 | the fallback answers all of them from the target's own request of the last 19 s, exactly when it came from the session's address |
| `NatQueue.KeepaliveAnswers` | ed2k/natcallback.go:462-483 | and else from the session's keepalive of the last ten minutes, exactly when its address is the session's or proved |
| `NatQueue.KeepFollows` | ed2k/natcallback.go:400-436 | a believed keepalive is taken as the session's endpoint, with whether it is proved; any other changes nothing |
| `Codec.GuardsNeverReject` | ed2k/buffer.go:728-737 | the count guards change no result: every tag takes at least 2 bytes and every record at least 26, so a list that decodes is never refused for its count |
| `Codec.ReadPrintedTag` | ed2k/buffer.go:561-635 | a printed tag reads back as its name, value and type, leaving what follows |
| `Codec.ReadPrintedShortTag` | ed2k/buffer.go:576-594 | and so does one in the short form, with its strings sized by the type |
| `Codec.ReadSpelledTag` | ed2k/buffer.go:606-618 | a tag with a spelled-out name is consumed whole |
| `Codec.TagBytes` | ed2k/buffer.go:326-389 | the bytes of a written tag of each type |
| `Codec.ReadOtherValues` | ed2k/buffer.go:412-486 | floats, booleans, both kinds of blob and sized strings read from their own bytes and no further |
| `Codec.ReadBoolArray` | ed2k/buffer.go:466-478 | a boolean array is passed over whole |
| `Codec.FieldNames` | ed2k/buffer.go:488-558 | each field has one code and one spelling, and any other text names no field |
| `Codec.FieldValues` | ed2k/buffer.go:683-715 | a number too large for its field is cut to the largest, and a value of another type reads as none |
| `Codec.FieldTexts` | ed2k/buffer.go:683-695 | each text goes to its own field |
| `Codec.FileTagsSet` | ed2k/buffer.go:683-715 | reading a file's tags gives every field back, present or left out |
| `Codec.SizeWhole` | ed2k/buffer.go:704-711 | the 64-bit size comes back whole from the two tags it was split over |
| `Codec.FileListRoundTrip` | ed2k/buffer.go:755-812 | any list of files whose strings are under 65536 bytes, printed under its count, reads back as the files and leaves what follows |
| `Buffers.TagsLength` | ed2k/buffer.go:298-324 | counts exactly the bytes the tags print to |
| `Buffers.ItemSize` | ed2k/packet.go:81-118 | counts exactly the bytes the item prints to |
| `Buffers.Buffer.Put` | ed2k/buffer.go:165-227 | writes the bytes at the cursor when they fit and leaves what is behind them; otherwise changes nothing |
| `Buffers.Buffer.PutTag` | ed2k/buffer.go:326-389 | with room, writes exactly the printed tag; only a hash of the wrong length fails |
| `Buffers.Buffer.PutItem` | ed2k/packet.go:125-176 | with room, writes exactly the printed item; only a hash of the wrong length fails |
| `Buffers.MakePacket` | ed2k/packet.go:178-201 | fails exactly for a hash that is not 16 bytes; else the buffer is filled to its last byte with protocol, size and items |
| `Buffers.Buffer.GetTagValue` | ed2k/buffer.go:412-486 | reads the value of every tag type as the value form does, cursor included |
| `Buffers.Buffer.GetTag` | ed2k/buffer.go:561-635 | reads long, short and spelled-out tags as the value form does, cursor included |
| `Buffers.Buffer.GetFileTags` | ed2k/buffer.go:793-812 | reads a record's tags straight into its fields, with the same result as collecting them first |
| `Buffers.Buffer.GetFileList` | ed2k/buffer.go:755-789 | reads the records one by one with the same result as the value form |
| `Buffers.FileListThroughPacket` | ed2k/packet.go:288-331 | a file list packed by MakePacket over AddFile items comes out of GetFileList as the same files |
| `Search.ParseBounded` | ed2k/search.go:43-137 | every accepted tree has at most 24 levels and 64 leaves, as counted; success takes 2 x leaves - 1 calls, a refusal a bounded number |
| `Search.CallsBounded` | ed2k/search.go:35-137 | at most 155 calls for a buffer of any length |
| `Search.RoundTrip` | ed2k/search.go:43-173 | every tree within the limits, And, Or and AndNot written as 0, 1 and 2, parses back from its wire form to itself, consuming exactly its bytes; a tag type is its wire bytes as one number |
| `Search.OtherOperatorIsAnd` | ed2k/search.go:126-132 | any other operator byte is And |
| `Search.OtherTokenRefused` | ed2k/search.go:134-136 | any other token is refused |
| `Search.ParseSearchExpr` | ed2k/search.go:43-137 | the recursive parser over the cursor and the shared leaf counter does what the value form says |
| `Gossip.FrameInterferesWithNobody` | ed2k/gossip.go:387-549 | a frame from one address changes no entry at another; a list changes none and adds entries only at the lowest state, obfuscated and from a keyed sender |
| `Gossip.StatesOnlyRise` | ed2k/gossip.go:990-1001 | states never go back, and only an accepted frame from its own address raises an entry or changes its key |
| `Gossip.AdvertisedProvedItself` | ed2k/gossip.go:302-320 | over every run, whatever is above "seen", so whatever is advertised, sent an accepted frame from its own IP |
| `Gossip.QuietPeerKeeps` | ed2k/gossip.go:387-549 | a peer that sends nothing keeps state, key and name through any run of other peers' frames, and its failures grow by exactly its contacts |
| `Gossip.ParkingSchedule` | ed2k/gossip.go:862-887 | with frames arriving anywhere between the contacts of a round: a silent peer is taken into each round until its failures reach the limit and then into exactly every eighth, and is advertised exactly until then |
| `Gossip.ReplyRevives` | ed2k/gossip.go:479-549 | an accepted reply from a parked peer's address unparks it in every outcome if and only if no other entry has that address, and then keeps its state |
| `Gossip.SharedAddressStaysParked` | ed2k/gossip.go:976-984 | with two entries at one address an accepted description can leave the parked one parked |
| `Gossip.RegistrationRevives` | ed2k/gossip.go:443-470 | a registration unparks exactly the entry with its address and port, and touches no other |
| `Gossip.FailuresAreMissed` | ed2k/gossipclient.go:129-142 | for a peer alone at its address, in every run the failure count is the number of contacts since it was last heard, wherever its frames fall |
| `Gossip.AnsweringPeer` | ed2k/gossipclient.go:129-142 | such a peer that is heard between any two contacts is ever parked if and only if the limit is one and it is contacted |
| `Gossip.LoneLearns` | ed2k/gossip.go:443-549 | what each accepted frame does to the only entry at its address, field by field, and that it does no more |
| `Gossip.LonePeerLearns` | ed2k/gossip.go:443-549 | in every run such an entry's key and name are those of the last frame that brought one, and its state the highest reached |
| `Gossip.NamesShowable` | ed2k/gossip.go:1007-1030 | in every run no name or description in the table is over its length or holds a control character |
| `Gossip.NoLimitNeverWithdrawn` | ed2k/gossip.go:885-887 | without a limit an entry once advertised is advertised at every later point of the run |
| `Gossip.DescribedWithoutKey` | ed2k/gossipdispatch.go:188-203 | one well-formed description from a new peer's address makes it advertised with no key |
| `Gossip.BarImpliesKey` | ed2k/gossip.go:518-549 | for every event sequence: in all its runs an entry is at the admission bar only after its address showed a key, if and only if every description or list reply from that address comes after such a frame |
| `Gossip.GossipHandler.Admit` | ed2k/gossip.go:901-937 | exactly when an address is accepted, and that it enters at the lowest state |
| `Gossip.GossipHandler.FindByIP` | ed2k/gossip.go:976-984 | finds some entry at the address exactly when there is one |
| `Gossip.GossipHandler.MergePeerList` | ed2k/gossip.go:387-427 | merges every entry under the policy, or nothing when plain or from a sender without a key |
| `Gossip.GossipHandler.MergedFits` | ed2k/gossip.go:901-937 | a list brings in only usable addresses that are not ours and no client's of the last half hour, never beyond the table's size, and all of those when there is room |
| `Gossip.GossipHandler.NoteRegistration` | ed2k/gossip.go:443-470 | admits the source address with the announced port, and promotes it only when obfuscated |
| `Gossip.GossipHandler.NoteStatRes` | ed2k/gossip.go:479-513 | a matching reply updates one entry at its source; an extended one gives the only entry there its key, ports and flags and keys it |
| `Gossip.GossipHandler.NoteDescription` | ed2k/gossip.go:518-549 | a well-formed description updates one entry at its source; the only entry there has that name and is at the admission bar |
| `Gossip.GossipHandler.NoteVerified` | ed2k/gossip.go:646-657 | promotes one entry at the address to the top state; no other code of the server calls it |
| `Gossip.GossipHandler.AddSeeds` | ed2k/gossip.go:836-856 | adds exactly the new seeds that are not ours, at the lowest state |
| `Gossip.GossipHandler.ContactableForRound` | ed2k/gossip.go:862-876 | everything not parked, and everything in every eighth round |
| `Gossip.GossipHandler.RunRound` | ed2k/gossipclient.go:108-142 | is a run of the machine: the start of the round, then one contact for each peer it took, each counted as one failure |
| `Gossip.GossipHandler.Advertised` | ed2k/gossip.go:302-320 | exactly the entries at the admission bar that are not parked, once each, the newest verified first |
| `LowId.SpanCounts` | ed2k/lowidclients.go:187-199 | the span computed for a parity is the number of its IDs in the range |
| `LowId.FullIsExact` | ed2k/lowidclients.go:204-213 | when every held ID is in range the early "full" answer is given exactly when every ID of that parity is taken |
| `LowId.FullIsSafe` | ed2k/lowidclients.go:201-213 | with restored IDs outside the range, a half that is really full is still never called free |
| `LowId.LowIDClients.constructor` | ed2k/lowidclients.go:44-60 | a non-empty range within 1..0xffffff, as configured when that is one |
| `LowId.LowIDClients.Used` | ed2k/lowidclients.go:204-213 | the counters equal the number of held IDs of the parity |
| `LowId.LowIDClients.AddByKey` | ed2k/lowidclients.go:66-87 | hands out the first free probe, in range, of the parity and free before; fails exactly when LowIDs are off, the half counts as full, or every probe is taken |
| `LowId.FreeIsFound` | ed2k/lowidclients.go:66-87 | a hash that reaches every residue of the span probes a free ID whenever there is one |
| `LowId.LowIDClients.Obtainable` | ed2k/lowidclients.go:66-87 | with such a hash and every held ID in range, an ID is obtainable exactly when one of the parity is free |
| `LowId.LowIDClients.Restore` | ed2k/lowidclients.go:152-163 | takes an ID that is valid and free, in range or not |
| `LowId.LowIDClients.Remove` | ed2k/lowidclients.go:165-175 | frees the ID; the counters stay exact and never go below zero |
| `SoftLimit.WithinSoftLimit` | ed2k/server_runtime.go:3716-3750 | filtered in place, what passes is at the front in order, and kept plus skipped is the batch; the cheap early answer included |
| `SoftLimit.EarlyAnswerIsFull` | ed2k/server_runtime.go:3720-3723 | when everything fits even if all of it is new, the full loop would pass everything |
| `SoftLimit.LimitKept` | ed2k/server_runtime.go:3733-3749 | an offer never takes a session over the limit, and nothing is held back before it is reached |
| `SoftLimit.KnownPass` | ed2k/server_runtime.go:3737-3740 | a file the session already sources always passes |
| `SoftLimit.PassedExactly` | ed2k/server_runtime.go:3733-3749 | what passes is, in order, exactly the files sourced already or whose key came first while fewer than the limit were sourced or offered |
| `SoftLimit.RunWithinLimit` | ed2k/server_runtime.go:1812-1826 | no run of offers makes a session source more distinct files than the limit |
| `Keywords.Normalize` | contentfilter/keywords.go:137-173 | single-space-separated words with a space at each end, one space when there is no word |
| `Keywords.Pattern` | contentfilter/keywords.go:116-128 | the normalised keyword, without the space at an end in a continuous script; none exactly when there is no word |
| `Keywords.HeadFinds` | contentfilter/keywords.go:77-88 | a pattern with its leading space occurs in normalised text exactly where the keyword's words begin at a word |
| `Keywords.OpenFinds` | contentfilter/keywords.go:77-88 | one without it, exactly where they begin inside a word |
| `Keywords.WholeWords` | contentfilter/keywords.go:77-88 | for a keyword with no end in a continuous script: exactly when its words are consecutive whole words of the text |
| `Keywords.InsideWords` | contentfilter/keywords.go:116-128 | a keyword that is one word of a continuous script matches wherever a word of the text holds it |
| `Keywords.WordsAreRuns` | contentfilter/keywords.go:137-173 | the words are the longest runs of neighbours without a gap, where each rune is a mark or of the same kind of script as the one before |
| `Keywords.NewMatcher` | contentfilter/keywords.go:41-61 | splits at the bars and trims; refuses exactly an entry without a word, skips blank ones, compiles the rest |
| `Keywords.SplitJoins` | contentfilter/keywords.go:41-46 | splitting loses nothing and leaves no bar in an entry |
| `Keywords.TrimmedEnds` | contentfilter/keywords.go:43-46 | trimming takes exactly the white space at both ends |
| `Keywords.Matcher.Match` | contentfilter/keywords.go:77-88 | true exactly when some pattern occurs in the normalised text |
| `Keywords.Filter` | contentfilter/keywords.go:41-88 | keywords compiled and matched: true exactly when some keyword's words are in the text |
| `Accounts.Service.GrantAccess` | accounts/service.go:386-413 | extends from the later of now and the end, or removes the end, and closes the step that paid, no other |
| `Accounts.Service.RevokeAccess` | accounts/service.go:416-443 | takes days off the end, or ends access now; what has then run out reopens the step, and the state stored is the one evaluating comes to |
| `Accounts.Service.AdjustAccess` | accounts/service.go:482-510 | moves the end, never that of access without one, and stores the state evaluating comes to |
| `Accounts.Service.Disable` | accounts/service.go:447-477 | disables, or re-enables with the state evaluating comes to |
| `Accounts.Service.Evaluate` | accounts/service.go:277-366 | walks the steps and stores the state: disabled stays, expired exactly when the period has run out, active exactly when it has not and no configured step is open; the access end is untouched |
| `Accounts.Service.Authorize` | accounts/service.go:268-273 | answers what a full evaluation would, although it skips it for an account stored as active within its period |
| `Accounts.Service.SkipStep` | accounts/service.go:514-528 | closes a configured step of an account and stores the state evaluating comes to; refuses an unknown one |
| `Accounts.NothingToWalk` | accounts/service.go:277-312 | within its period an account with every step closed is left as it is by the walk |
| `Accounts.WalkedAt` | accounts/service.go:286-312 | what the walk makes of each step: closed ones stay, except a done renewable one of a lapsed account, and an open one is what its check says |
| `Accounts.OpenListed` | accounts/service.go:327-341 | the pending list is the open steps, each once, in configured order |
| `Accounts.WritesAreSerial` | accounts/service.go:277-510 | under every interleaving the stored account is the one its locked sections give one after the other |
| `Accounts.SettlingMovesNothing` | accounts/service.go:277-366 | Evaluate, wherever it falls among the writes, never changes the access end |
| `Accounts.DisabledUntilReenabled` | accounts/service.go:447-477 | the disabled state is left only by re-enabling |
| `Accounts.GrantsAddUp` | accounts/service.go:386-510 | grants, revocations and adjustments by days, in any order and among any settling: the end is never before their sum, and is the sum if and only if none extended access that had run out by then |
| `Accounts.GrantRuns` | accounts/service.go:393-402 | days granted run at least from now, and exactly from now for an account with no end or one that ran out |
| `Accounts.ForGood` | accounts/service.go:386-443 | access granted for good never runs out; access taken back altogether ends at once |
| `Accounts.GrantThenRevoke` | accounts/service.go:386-443 | revoking what was granted restores the end exactly when it had one that had not passed |
| `Accounts.GrantShortens` | accounts/service.go:393-402 | a grant never shortens access, except a grant of days where access had no end |

## Left out

- Sockets, deadlines, goroutine scheduling and logging: time is an argument, a timer is a step that may fire at any moment.
- Opcode handlers: a handler is any function from its state and a packet to a new state, bytes to write and whether to close; what each opcode does is not modelled.
- Diffie-Hellman, MD5, HMAC, FNV and NFKC: arbitrary functions; random padding and challenges are arguments.
- Session.TcpSession.HandleBytes: replies of one read go to the wire after the read's packets are handled, in the same order and with the same bytes; the interleaving with pushes from other goroutines is in `Handoff` only.
- Session.TcpSession.WriteRaw: a write error and its close are not modelled.
- Session.TcpSession.Run: deadlines and read errors are not modelled, and the reader's parking is in `Handoff`.
- SessionHandoff.ExportState: what the handlers use is one field, copied as a whole.
- SessionHandoff.ApplyState: the same.
- Handoff.ExportApply: only for the stream state, with what the handlers use as one field; the session fields the exported state does not carry, the socket duplication and the gob encoding are not modelled.
- Handoff.HandoverOverRuns: a session dropped because it did not park, or whose socket was gone, is not followed further.
- NatWake: the batches and callers are a machine on values rather than an object, because the lock is dropped midway; the wake packet itself, the login check and the session lookups before the first section are arguments of that section.
- `registerAllowed`, `handleRegister` and `handleSync2` of the rendezvous handler beyond the registry and the wake, and the byte layout of its datagrams.
- The rate limiters in front of foreign callbacks, the 0xa7 bytes and its resends.
- NatQueue.QueueIsHistory: the times of the requests do not go back; the code reads the clock before it takes the lock, so two that race can be queued a moment out of order.
- Codec.FileListRoundTrip: the metadata tags a search answer may carry are any list of tags without a field of their own.
- Packets larger than 4 GiB, the compression of packets, MakeUDPPacket.
- Search.RoundTrip: whether a term is a hash or a related-files search is an arbitrary predicate on its text.
- Gossip: the datagrams of a contact, challenges, the client-address table's own expiry, and the search and ed3k adverts of a peer.
- Gossip.GossipHandler.RunRound: contacts its peers in any order; the code sorts them by address.
- LowId.LowIDClients.AddByKey: whether FNV reaches every residue of the span is not modelled; `LowId.FreeIsFound` says what follows if it does.
- SoftLimit.WithinSoftLimit: storage is the set of files the session sources.
- Accounts.Service.Evaluate: its calls run one after the other here, each with one reading of the clock. Step records change outside the account lock, so `Accounts.WritesAreSerial` is about the account alone, and a check that itself grants access is not modelled: a check only reports.
- UDP encryption, the storage engines, the admin pages, configuration, bot detection and the updater.
