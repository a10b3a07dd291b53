# Verified model of the client protocol stack and the node services

This project models parts of a game server framework and its TypeScript SDK, and proves properties of the model:

- **Session layer** (`SessionSpec`, `SessionClient`, `RequestLife`, `SessionControl`, `SessionRun`, `SessionSafety`,
  `SessionReports`, `SessionReplay`, `SessionResend`, `SessionReturns`): the client that reconnects and resumes with two
  implicit counters. `SessionSpec` says what every event does to the client's fields, `SessionClient` is the object whose
  methods do it, `SessionRun` adds a server, which knows of the client what its frames say, and the network.
- **Wire codec** (`Bytes`, `Words`, `Schema`, `SprotoSpec`, `Placing`, `IntegerEncoder`, `StructLayout`, `SprotoEncoder`,
  `SprotoDecoder`, `SprotoRoundTrip`, `SprotoNormal`, `SprotoDepth`, `SprotoSafety`, `SprotoVersions`, `SprotoUpgrade`,
  `ZeroPack`, `WireExamples`, `CodecSpec`, `Codec`, `CodecLaws`): the schema-driven encoder that writes into one growing
  buffer in place, the decoder, readers and writers with other versions of the types, 0-packing, and the messages made of
  them.
- **Node services** (`DiscoverySpec`, `DiscoveryLaws`, `Discovery`; `NodeLeaseSpec`, `NodeLeaseLaws`, `NodeLease`): the
  lease with its local deadline, and the reconciliation of registrations with etcd.
- **Algorithms** (`HeapOrder`, `UniqueHeap`; `TracebackSpec`, `TracebackLaws`, `TracebackText`, `TracebackPrint`,
  `Traceback`; `Base64Url`, `Base64Bits`; `Doubles`, `JsonScan`, `JsonSyntax`, `JsonLaws`, `JsonRevive`; `CommandLine`,
  `LineBuffer`). `Options` and `Places` are shared.

Code that works step by step on buffers, fields or arrays is a method with loops on a class or an array, proved equal to a
function of its inputs or of the old state; what the code promises is then proved about that function. `dafny verify
dfyconfig.toml` checks everything.

## What is assumed of the surroundings

- Session: the server follows docs/guide/client_protocol.md and docs/design/entity_system.md: it counts and keeps
  every push and every reply to a business request, counts no handshake or ping reply, rotates the nonce on each login
  and resume, and replays from `recv`. It takes a resume only of the session it holds, with that session's role and
  present nonce and a count from what was acknowledged to what was sent, and what it acknowledges are the counts that
  pings and resumes carry, on this connection or late on one that the client gave up; a count out of range makes the
  session unresumable (lualib/skyext/entity/session.lua:224-260, 293-313). All of it is read off the client's frames.
  A login binds its session, which may push at once, before it answers (docs/design/entity_system.md:440-441). Only
  the packets of one session keep their order: the packets of two sessions and the replies to login and resume
  overtake each other as they like. That is more than the count of the client can take: a push that overtakes the
  login reply of its own session is lost from the count (`EarlyPushMiscounts`), and the reply to a resume given up, or
  a packet of an earlier session, is counted for the new one if it comes after the login reply
  (`AbandonedResumeMiscounts`). `OrderedDelivery` and `PingsAgree` say exactly when the count is right. Requests by
  the application are business requests, and a closed client is not started again.
- The documentation (docs/guide/client_protocol.md:139-151) has the client clear the nonce on any resume error; the code
  keeps it until the login succeeds or a ping disagrees (sdk/ts/src/session.ts:303-306). The model follows the code.
- Codec: types come from a well-formed schema with strictly increasing tags below 0x7fff; typed values; messages below
  2^32 bytes. Versions of a type are types of one schema. Where the browser's `alert` stands for an error in the decoder it is taken to end the decoding.
- Lease: etcd grants at least the time asked for, under an id it never used, a renewal lasts the granted time from the
  moment etcd handles it, and nobody else revokes the lease. Beats do not overlap.
- Discovery: a lease held is alive in etcd. Leases may be lost and replaced at any time, and calls may fail at any time.
  Beyond that `DiscoverySpec.Allowed` rules out five things: that the lease is lost or replaced between a `setnx` that
  writes the node key and its answer, that it is replaced during `revoke` so that the second `setnx` writes a key that
  names another lease than it hangs on, the announcement of a lease that was held before, and lost answers to `set` and to
  `delete`. For each of them a lemma shows what then goes wrong, and `QuietBeatIff` says exactly when a beat repairs a
  state. Another node may register under the same name whenever the key is free, on a lease of its own that etcd does not
  reuse, and publish any service.
- Command line: Microsoft's rules for `CommandLineToArgvW`, with two quotes inside a quotation read as a literal quote.
- JSON: `JSON.parse` gives the meaning of a JSON text, of members with one name the last, and rounds every integer to 53
  significant bits, the nearest, ties to even (IEEE 754, binary64).

## Model

| member | source | states |
|---|---|---|
| `SessionSafety.OrderedDelivery` | sdk/ts/src/session.ts:220-254 | In every reachable state, whatever disconnects, half-open connections, resumes, logins and overtakings came before: `recv` counts what came since the last login, and what came are exactly the first `recv` packets of the session's stream, in order, none lost, none repeated, if and only if no packet of the session came before the reply to its login and nothing else was counted after it |
| `SessionSafety.ReachKeepsInv` | sdk/ts/src/session.ts:294-338 | Every step of client, server and network keeps the invariant behind it: each session's packets under way continue its stream, a resumed session goes on where the client stands, nonces belong to their sessions, handshake replies have their entries or were overtaken by a login |
| `SessionSafety.NextKeepsInv` | sdk/ts/src/session.ts:341-391 | The same for one step from any state that satisfies the invariant |
| `SessionReports.ConnectAsks` | sdk/ts/src/session.ts:294-302 | In every reachable state a new connection sends a resume if and only if there is a nonce; it names the role of the session the client is logged in to, a nonce given out for it, and exactly the number of packets counted since that login |
| `SessionReports.PingReports` | sdk/ts/src/session.ts:409-421 | In every reachable state a ping goes out exactly when the client is online, open and awaits no other, and carries exactly the number of packets counted since the login |
| `SessionReports.ResumeFits` | lualib/skyext/entity/session.lua:224-260 | While the server has not rotated its nonce, the resume under way is for its session and role and from a packet it still keeps; it can be accepted if and only if the session is resumable and has sent that many, which is so whenever nothing but the packets of the session was counted |
| `SessionReports.OnlyHandledIsDropped` | lualib/skyext/entity/session.lua:293-313 | In every reachable state, however late the reports arrive: the server never drops more packets than were counted, and if nothing else was counted, those it dropped are the first ones that the client handled, and the session stays resumable |
| `SessionReports.NextKeepsReports` | lualib/skyext/entity/session.lua:224-313 | The invariant behind it: resumes ever sent are honest and older than the present nonce, reports under way rise from what is acknowledged to what is counted |
| `SessionSafety.PingsAgree` | sdk/ts/src/session.ts:409-438 | In every reachable state a ping reply that the heartbeat waits for keeps connection and nonce if and only if the session was resumed on this connection or as many of its packets came before the login reply as other things were counted after it, so in particular whenever there was neither; one given up on changes nothing of the two |
| `SessionSafety.DivergenceEndsInLogin` | sdk/ts/src/session.ts:409-438 | For every client with the invariant `Control`, which each reachable one has, online and waiting for a ping: the reply drops connection and nonce if and only if the counts differ; then the next connection sends a login and no resume |
| `SessionSafety.AbandonedResumeMiscounts` | sdk/ts/src/session.ts:239-254 | A concrete run in which the reply to an abandoned resume arrives after the login reply and is counted although the server did not count it |
| `SessionSafety.HandshakeReplyCount` | sdk/ts/src/session.ts:239-254 | What any response does to the count: one more without a pending entry, zero for the accepted login that is awaited, otherwise one more exactly for business requests |
| `SessionReplay.LostPacketComesBack` | sdk/ts/src/session.ts:294-312 | For any two pushes some run handles one, loses the other with its connection, resumes and has then handled both once: resumes do happen in the runs that the theorems are about |
| `SessionReplay.EarlyPushMiscounts` | sdk/ts/src/session.ts:316-338 | A push that overtakes its own login reply: the client is logged in with count 0 although it handled the push and the server counted it, and the next ping costs connection and nonce |
| `RequestLife.RequestsLive` | sdk/ts/src/session.ts:138-159 | Over the whole life of a client the ids issued are exactly the pending ones and the settled ones, each settled once; every frame carries the name and parameters first given to its id |
| `RequestLife.ResendsAreIdentical` | sdk/ts/src/session.ts:272-285 | Two frames with one id, at any two moments and on any connections, have the same name and parameters |
| `RequestLife.StepKeepsLife` | sdk/ts/src/session.ts:206-254 | Every event keeps that invariant and only adds to what was issued, sent and settled |
| `SessionResend.RequestsSettle` | sdk/ts/src/session.ts:220-292 | Over every run, whatever the network delivers: the promise of a business request is resolved by the next event if and only if that is a response with its id on the current connection, the accepted reply to the login the client waits for, or the end of the client; the response resolves it with what it carries, the others with null |
| `SessionResend.AcceptedResumeResends` | sdk/ts/src/session.ts:272-312 | In every state with the invariant `Control` an accepted resume sends each business request in flight once, in the order of the ids, and nothing else, and keeps exactly those pending |
| `SessionResend.InFlightIsSent` | sdk/ts/src/session.ts:206-218 | In every reachable online state each business request that is not settled has a frame on the current connection, with the name and parameters first given to it |
| `SessionResend.NothingIsForgotten` | sdk/ts/src/session.ts:340-391 | The same against server and network, where every connection starts without a frame |
| `SessionResend.RunKeepsControl` | sdk/ts/src/session.ts:294-438 | Over every run: an awaited handshake or ping is the request it was made as, the client is online exactly when it has a connection and no handshake under way, and an awaited ping went out on the current connection |
| `SessionReturns.GivenUpIff` | sdk/ts/src/session.ts:256-270 | A connection is given up exactly when its socket closes, on request, at the end, when the login comes to nothing, when the answer to a login or ping is no good and when the second ping in a row gets none |
| `SessionReturns.TwoMissesDrop` | sdk/ts/src/session.ts:430-436 | One unanswered ping is tolerated, the second in a row costs the connection and keeps role and nonce |
| `SessionReturns.AnswerResetsMisses` | sdk/ts/src/session.ts:422-429 | A ping answered with the right count keeps everything and forgets the misses before it |
| `SessionReturns.ClosedIsFinal` | sdk/ts/src/session.ts:177-194 | After `close` no run sends a frame or has a connection again |
| `SessionReturns.AlwaysComesBack` | sdk/ts/src/session.ts:340-402 | From every state any run leads to, unless closed, the client gets online by a login, and with role and nonce by a resume that keeps its count and its requests in flight |
| `SessionClient.SessionClient.Step` | sdk/ts/src/session.ts:341-391 | The object, event by event, goes through the states of the state machine and keeps the life invariant |
| `SessionClient.SessionClient.Request` | sdk/ts/src/session.ts:138-159 | Takes the next id, makes the entry pending and sends it, all before the first await |
| `SessionClient.SessionClient.Handle` | sdk/ts/src/session.ts:220-254 | Which packets count, which settle an entry, and which continuation goes on with it |
| `SessionClient.SessionClient.Drop` | sdk/ts/src/session.ts:258-270 | Only the current connection can be dropped |
| `SessionClient.SessionClient.ResendPending` | sdk/ts/src/session.ts:274-285 | The loop over the pending map gives up the handshake entries and sends every other entry again under its id, in the order of the ids |
| `SessionClient.SessionClient.FailPending` | sdk/ts/src/session.ts:287-292 | Every pending entry is settled with null and whoever waited goes on |
| `SessionClient.SessionClient.AfterResume` | sdk/ts/src/session.ts:294-312 | The rest of `tryResume` behind its await |
| `SessionClient.SessionClient.AfterLogin` | sdk/ts/src/session.ts:316-338 | The rest of `doLogin` behind its await: a login starts the count over |
| `SessionClient.SessionClient.Connected` | sdk/ts/src/session.ts:341-391 | `establish` from a new connection up to its first await |
| `SessionClient.SessionClient.AfterPing` | sdk/ts/src/session.ts:409-438 | The rest of `heartbeat` behind its await: reconciliation and the two tolerated misses |
| `SessionClient.SessionClient.Close` | sdk/ts/src/session.ts:177-194 | Closing settles everything and leaves the connection |
| `ZeroPack.UnpackPacked` | sdk/ts/src/sproto/sproto.ts:1116-1299 | For every byte string x, unpacking the packed x gives x and zero bytes behind it, the length a multiple of 8 and at most |x| + 8 |
| `ZeroPack.PackedSize` | sdk/ts/src/sproto/sproto.ts:1168-1238 | Packed size is at most 8 * ceil(|x| / 8) + 2 * ceil(|x| / 2048), and one stray byte exactly when the last pending chunk leaves one |
| `WireExamples.PackedExample` | sdk/ts/src/sproto/sproto.ts:1116-1152 | Two chunks with zeros byte by byte: each mask bit stands for its byte, the lowest for the first |
| `WireExamples.RunExample` | sdk/ts/src/sproto/sproto.ts:1168-1238 | Thirty equal nonzero bytes: one run of four chunks, the last filled up with two zeros |
| `ZeroPack.UnpackEmit` | sdk/ts/src/sproto/sproto.ts:1240-1299 | The induction behind it: a pending 0xff run of any length, its absorbed chunks, its flush at 256 chunks and at the end all unpack to the chunks they stand for |
| `ZeroPack.EmitSize` | sdk/ts/src/sproto/sproto.ts:1138-1151 | The two bytes of every 0xff run are paid for by the chunk that ends it, by 256 chunks or by the end of the input |
| `ZeroPack.PackSeg` | sdk/ts/src/sproto/sproto.ts:1116-1152 | The in-place packing of one chunk, by its three branches |
| `ZeroPack.WriteFf` | sdk/ts/src/sproto/sproto.ts:1154-1166 | The run header and its chunks, written behind what is already there |
| `ZeroPack.Pack` | sdk/ts/src/sproto/sproto.ts:1168-1238 | The in-place loop with its pending run and the final cut leaves exactly the packed form in the buffer |
| `ZeroPack.Unpack` | sdk/ts/src/sproto/sproto.ts:1240-1299 | The unpacking loop gives the unpacked form for every input, well-formed or not |
| `Schema.ImportType` | sdk/ts/src/sproto/sproto.ts:450-482 | Refuses tags that do not increase; otherwise `maxn` counts the records and `base` tells contiguous tags |
| `Schema.FindTag` | sdk/ts/src/sproto/sproto.ts:671-695 | The lookup method agrees with its definition, the tag just behind a contiguous table included |
| `Schema.FindsEveryField` | sdk/ts/src/sproto/sproto.ts:671-695 | Direct index or binary search, the lookup finds every field of every imported type by its tag |
| `Schema.FindIff` | sdk/ts/src/sproto/sproto.ts:671-695 | What the lookup answers for every type and tag: the field with that tag, an error exactly for the tag just behind a table without gaps, and unknown for all others |
| `SprotoNormal.DecodeEncode` | sdk/ts/src/sproto/sproto.ts:1330-1442 | For every imported schema and typed value that can be encoded, decoding its bytes gives its normal form and uses all of them; it gives the value itself if and only if the value is complete |
| `SprotoNormal.UnchangedIffComplete` | sdk/ts/src/sproto/sproto.ts:1564-1683 | A value is its own normal form exactly when every array is there, holds no null, and no key is foreign to the schema |
| `SprotoNormal.NormIsComplete` | sdk/ts/src/sproto/sproto.ts:1685-1784 | Normal forms are typed and complete, so normalising twice is normalising once |
| `SprotoNormal.NormFieldsAt` | sdk/ts/src/sproto/sproto.ts:1685-1784 | Field by field: missing arrays become empty, arrays end at their first null, nested structs are normal |
| `SprotoRoundTrip.StructRoundTrip` | sdk/ts/src/sproto/sproto.ts:1564-1683 | The round trip at any position, at any depth, whatever bytes follow, with the number of bytes used |
| `SprotoRoundTrip.IntArrayRoundTrip` | sdk/ts/src/sproto/sproto.ts:1052-1097 | Decoding the bytes of any nonempty sequence of int64 values gives the same integers |
| `SprotoRoundTrip.WordsFit` | sdk/ts/src/sproto/sproto.ts:466-480 | The header records written for any value never exceed `maxn` and are 16-bit words |
| `SprotoRoundTrip.StructWordsFit` | sdk/ts/src/sproto/sproto.ts:1330-1442 | So the records never reach the data behind the reserved header |
| `SprotoDepth.StructEncodes` | sdk/ts/src/sproto/sproto.ts:1444-1454 | A typed value fails to encode exactly when its structs nest more than 64 levels deep |
| `SprotoVersions.VersionsRead` | sdk/ts/src/sproto/sproto.ts:1564-1683 | Writer and reader with different versions of the types, each with fields of its own at any depth, a tag that both have meaning the same field: the reader gets exactly what it knows of every value and uses all its bytes, unless something written trips it, and then it throws |
| `SprotoVersions.MixIff` | sdk/ts/src/sproto/sproto.ts:671-676 | No value at all trips any reader if and only if no writer has a field whose tag is the one right behind a table without gaps of its reader |
| `SprotoUpgrade.OlderReads` | sdk/ts/src/sproto/sproto.ts:1564-1683 | A reader whose types are a part of the writer's gets what its own types would have made of the value, or throws where something trips it |
| `SprotoUpgrade.NewerReads` | sdk/ts/src/sproto/sproto.ts:1564-1683 | A reader that has all fields of the writer never throws and gets the value in the writer's normal form; arrays that the writer does not know are missing, not empty |
| `SprotoUpgrade.AppendedField` | sdk/ts/src/sproto/sproto.ts:671-676 | One field appended to any type: a reader without it throws if and only if the type had no gaps, the tag is the next one, and the message carries the field (an array always is); otherwise it gets its own normal form |
| `SprotoVersions.StructReads` | sdk/ts/src/sproto/sproto.ts:1564-1683 | The induction behind them, at any position and depth |
| `SprotoSafety.StructTyped` | sdk/ts/src/sproto/sproto.ts:1564-1683 | Whatever bytes arrive: what is decoded has the types of the schema, at every depth, and no more bytes were used than there are |
| `WireExamples.StructExample` | sdk/ts/src/sproto/sproto.ts:1330-1442 | One message byte by byte: a string, an integer and a boolean in the header, a skip over four tags, an array with a negative element |
| `IntegerEncoder.Widen` | sdk/ts/src/sproto/sproto.ts:908-919 | The in-place widening, last element first, turns the 4-byte form of any int32 sequence into its 8-byte form |
| `IntegerEncoder.WidenWord` | sdk/ts/src/sproto/sproto.ts:911-916 | One element of it: four bytes move up and the sign fills the upper four |
| `IntegerEncoder.EncodeIntegerArray` | sdk/ts/src/sproto/sproto.ts:866-951 | For any int64 sequence, wherever the first wide element stands: one width byte, 8 exactly when some element is outside int32, and every element in little-endian two's complement |
| `IntegerEncoder.EncodeInteger` | sdk/ts/src/sproto/sproto.ts:706-733 | Value first, size in front of it |
| `IntegerEncoder.SignExtends` | sdk/ts/src/sproto/sproto.ts:852-864 | The 8-byte form of an int32 is its 4-byte form and four sign bytes, and the sign is the top bit of the fourth byte |
| `StructLayout.PutRecord` | sdk/ts/src/sproto/sproto.ts:1403-1422 | A record goes behind the records there are and leaves header space, data and everything before the struct alone |
| `StructLayout.Finish` | sdk/ts/src/sproto/sproto.ts:1426-1441 | Count, move of the data up to the records and the cut leave exactly count, records and data, whether or not `maxn` was reached |
| `SprotoEncoder.EncodeStruct` | sdk/ts/src/sproto/sproto.ts:1330-1442 | What the in-place encoder leaves in the buffer behind what was there is the wire form, its result is the number of bytes, and -1 exactly when the value nests too deep |
| `SprotoEncoder.EncodeField` | sdk/ts/src/sproto/sproto.ts:1341-1397 | Missing, in the header word, or in the data section, with the bytes placed at the data index |
| `SprotoEncoder.EncodeArray` | sdk/ts/src/sproto/sproto.ts:953-1020 | The three kinds of arrays, each behind its size, up to the first null |
| `SprotoEncoder.EncodeElems` | sdk/ts/src/sproto/sproto.ts:992-1016 | Strings and structs one behind the other, each behind its own size |
| `SprotoEncoder.RecordsSuffice` | sdk/ts/src/sproto/sproto.ts:1399-1423 | One more field, written or not, stays within the records counted for it at import |
| `SprotoEncoder.Encode` | sdk/ts/src/sproto/sproto.ts:1862-1892 | `encode` gives the wire form or null |
| `SprotoDecoder.DecodeStruct` | sdk/ts/src/sproto/sproto.ts:1564-1683 | For every byte string the decoding loop gives what the definition of decoding says: value and bytes used, a negative code, or an exception |
| `SprotoDecoder.DecodeData` | sdk/ts/src/sproto/sproto.ts:1614-1672 | One field with data |
| `SprotoDecoder.DecodeElems` | sdk/ts/src/sproto/sproto.ts:1023-1050 | Elements behind their sizes until the bytes are used up |
| `SprotoDecoder.DecodeIntArray` | sdk/ts/src/sproto/sproto.ts:1064-1097 | Integers of the width in the first byte; any other width or a remainder is refused |
| `SprotoDecoder.Int64` | sdk/ts/src/sproto/sproto.ts:198-204 | Two 32-bit words make the signed 64-bit integer |
| `CodecLaws.RequestArrives` | sdk/ts/src/codec.ts:123-175 | A request packed under any nonzero tag and nonzero id is dispatched, for any padding, as a request with that name, that id and its arguments in normal form; no awaited reply is touched |
| `CodecLaws.ReplyArrives` | sdk/ts/src/sproto/sproto.ts:2043-2062 | An awaited reply is dispatched with its id and its result in normal form and is awaited no more |
| `CodecLaws.SecondCopy` | sdk/ts/src/codec.ts:123-135 | Bytes that were a response once are a response with the same id ever after, without their result and without any other effect |
| `CodecLaws.DispatchOnlySettles` | sdk/ts/src/sproto/sproto.ts:2011-2064 | No bytes at all make a reply awaited, and only a response ends the wait for one: its own |
| `CodecLaws.WhatArrives` | sdk/ts/src/sproto/sproto.ts:2011-2064 | For every byte string with a header: a nonzero known type makes a request of that protocol unless its arguments throw, no type or 0 and a session make a response to that session, and all else fails |
| `CodecLaws.MessageRead` | sdk/ts/src/sproto/sproto.ts:2011-2020 | Header, body and any number of padding bytes: the header is read exactly and what is left is the body and the padding |
| `CodecLaws.ZerosNeverThrow` | sdk/ts/src/sproto/sproto.ts:2021-2030 | A request without arguments arrives with none or with an empty object, by the padding |
| `Codec.QueryProto` | sdk/ts/src/sproto/sproto.ts:612-630 | The binary search agrees with looking at every protocol |
| `Codec.Host.Send` | sdk/ts/src/sproto/sproto.ts:1956-1995 | The reply is awaited from the moment the header is encoded, even if the body then fails |
| `Codec.Host.Respond` | sdk/ts/src/sproto/sproto.ts:1997-2009 | The packed reply |
| `Codec.Host.Dispatch` | sdk/ts/src/codec.ts:144-172 | Dispatch and its recovery agree with their definition for every byte string |
| `DiscoveryLaws.ReachedThenExact` | service/cluster_discovery.lua:265-297 | From every state that registrations, leases lost and replaced, old keys, failed calls and lost registration answers can bring about, one undisturbed beat with a live lease ends with exactly the registered services as this node's keys, on its lease and at its node revision |
| `DiscoveryLaws.OneBeatSuffices` | service/cluster_discovery.lua:676-686 | Such a beat does end |
| `DiscoveryLaws.QuietBeatIff` | service/cluster_discovery.lua:205-297 | From any state with a live lease in which this node's keys hang on one lease, reachable or not, an undisturbed beat ends exact if and only if the state was consistent: node key as in the books, no forgotten service, none wrongly called published |
| `DiscoveryLaws.RunKeepsInv` | service/cluster_discovery.lua:205-254 | In every such run the books describe etcd's keys, whatever is between a call and its answer |
| `DiscoveryLaws.QuietBeatEnds` | service/cluster_discovery.lua:285-297 | The loops over the services come to their end in any order |
| `DiscoveryLaws.SameLeaseAgain` | service/cluster_discovery.lua:250-254 | When the lost lease is announced again, the next beat ends exact if and only if nothing published was unregistered in between |
| `DiscoveryLaws.LostSetOrphans` | service/cluster_discovery.lua:186-223 | A `set` whose answer is lost, and the service unregistered before the next beat: the key stays however many beats follow |
| `DiscoveryLaws.LostDeletePhantoms` | service/cluster_discovery.lua:224-248 | A `delete` whose answer is lost, and the service registered again: it is never published again |
| `DiscoveryLaws.RegisteringKeepsInv` | service/cluster_discovery.lua:88-162 | An answer to the registration of the node leaves the books right if and only if a key it wrote names the lease it hangs on and that lease is still held |
| `DiscoveryLaws.LostLeaseStrays` | service/cluster_discovery.lua:88-110 | A lease lost while the node key is being written on it: under the next lease the node key is not written again |
| `DiscoveryLaws.ReplacedLeaseStrays` | service/cluster_discovery.lua:146-161 | A lease replaced while an older one is being revoked: the node key hangs on the new lease and names the one before, and the books do not match it |
| `DiscoveryLaws.StrayKeyBlocks` | service/cluster_discovery.lua:112-162 | Such a key keeps the next process of the node out: it revokes the lease the key names, not the one it hangs on, and every beat ends without a registration |
| `DiscoveryLaws.FaultRemains` | service/cluster_discovery.lua:205-248 | Those faults outlive any number of undisturbed beats |
| `DiscoveryLaws.RivalUntouched` | service/cluster_discovery.lua:112-136 | In every run: while the node key is that of another node under the same name, nothing the service does changes the key or ends its lease, and nothing is registered; the services are unchanged too if and only if the step does not end a `delete`, sent before the other node came, of a service that is there |
| `DiscoveryLaws.NothingToDo` | service/cluster_discovery.lua:205-297 | Once everything is registered, beats make no call and change nothing |
| `Discovery.Discovery.SetnxAnswered` | service/cluster_discovery.lua:88-110 | What the service does with the answer to `setnx` |
| `Discovery.Discovery.GetAnswered` | service/cluster_discovery.lua:112-136 | Adopt the own key, revoke the lease of an older one, leave another address alone |
| `Discovery.Discovery.RevokeAnswered` | service/cluster_discovery.lua:138-162 | The second `setnx` follows whatever `revoke` answered |
| `Discovery.Discovery.NextService` | service/cluster_discovery.lua:205-223 | A service is set unless it is known to be published at the current revision |
| `Discovery.Discovery.SetAnswered` | service/cluster_discovery.lua:205-223 | It counts as published at the revision it was set with |
| `Discovery.Discovery.NextStale` | service/cluster_discovery.lua:285-297 | A published service that is not registered any more is deleted |
| `Discovery.Discovery.DeleteAnswered` | service/cluster_discovery.lua:224-248 | It is forgotten once deleted |
| `Discovery.Discovery.OnLeaseLost` | service/cluster_discovery.lua:250-254 | All books are void |
| `Discovery.Discovery.Heartbeat` | service/cluster_discovery.lua:676-686 | Nothing without a lease; the node key first |
| `Discovery.Discovery.Register` | service/cluster_discovery.lua:628-638 | Every name of the list is registered |
| `Discovery.Discovery.Unregister` | service/cluster_discovery.lua:640-649 | Every name of the list is unregistered |
| `NodeLeaseLaws.GetIsAlive` | service/node_lease.lua:141-146 | In every run, under any delays, lost answers and calls in between, the lease that `get` hands out is alive in etcd with the 2 seconds of grace to spare |
| `NodeLeaseLaws.ToldIsAlive` | service/node_lease.lua:43-45 | The same for every deadline ever announced, however late a consumer looks at it, until the shutdown |
| `NodeLeaseLaws.HeldWhileConfirmed` | service/node_lease.lua:66-146 | In every run: `get` hands out a lease if and only if it is the one etcd confirmed last and less than 28 seconds have passed since that grant or renewal was asked for, however many renewals fail in between |
| `NodeLeaseLaws.RenewalMovesDeadline` | service/node_lease.lua:84-116 | A confirmed renewal of the held lease moves the deadline to 2 seconds less than the time granted, 28 at most, counted from the request, and announces exactly that |
| `NodeLeaseLaws.BeatRenews` | service/node_lease.lua:118-137 | A whole beat that etcd answers, however late: the lease held is kept, or a new one is held, for 28 seconds from the beat, and etcd keeps it longer |
| `NodeLeaseLaws.RunAnnounces` | service/node_lease.lua:43-45 | In every run the last announcement says lease, epoch and deadline of what is held, or that there is none, until the shutdown |
| `NodeLeaseLaws.EpochNamesLease` | service/node_lease.lua:66-79 | Two announcements have the same epoch exactly when they are of the same lease |
| `NodeLeaseLaws.DeadlineMoves` | service/node_lease.lua:84-116 | While a lease is kept its deadline never moves back, and only a confirmed renewal moves it |
| `NodeLeaseLaws.WhyLost` | service/node_lease.lua:118-137 | A lease is given up only past its deadline, when etcd says it is gone, or at the shutdown |
| `NodeLeaseLaws.ShutdownIsFinal` | service/node_lease.lua:151-170 | After the shutdown no run ever holds a lease again if and only if none was being granted at that moment |
| `NodeLeaseLaws.RunKeepsInv` | service/node_lease.lua:47-137 | Every step keeps the deadline 2 seconds ahead of etcd's expiry, for the lease held, the answers under way and all announcements |
| `NodeLease.NodeLease.Heartbeat` | service/node_lease.lua:118-137 | Which request a beat sends |
| `NodeLease.NodeLease.KeepaliveAnswered` | service/node_lease.lua:84-137 | What a beat does with an answer, the error after a loss in between included |
| `NodeLease.NodeLease.Failed` | service/node_lease.lua:84-137 | A failed request is tolerated until the deadline |
| `NodeLease.NodeLease.GrantAnswered` | service/node_lease.lua:66-79 | The deadline counts from the moment the request was sent |
| `NodeLease.NodeLease.Get` | service/node_lease.lua:141-146 | Being asked after the deadline loses the lease; what is handed out is alive |
| `NodeLease.NodeLease.Shutdown` | service/node_lease.lua:151-170 | The lease is dropped before it is revoked |
| `UniqueHeap.UniqueHeap.Insert` | lualib/binaryheap.lua:270-276 | Adds the payload with its value, or fails on one that is there; heap order and index stay right |
| `UniqueHeap.UniqueHeap.Update` | lualib/binaryheap.lua:260-262 | Changes one payload's value and nothing else, whichever way it has to move |
| `UniqueHeap.UniqueHeap.Remove` | lualib/binaryheap.lua:283-288 | Removes the payload and returns its value, or ignores one that is not there |
| `UniqueHeap.UniqueHeap.Pop` | lualib/binaryheap.lua:298-304 | Removes and returns a payload of least value |
| `UniqueHeap.UniqueHeap.Peek` | lualib/binaryheap.lua:310-312 | Shows a payload of least value |
| `UniqueHeap.UniqueHeap.RemoveAt` | lualib/binaryheap.lua:133-154 | The last value takes the place and finds its way up or down |
| `UniqueHeap.UniqueHeap.BubbleUp` | lualib/binaryheap.lua:70-80 | A value that may be out of order both ways ends no less than its parent, or everything is in order |
| `UniqueHeap.UniqueHeap.SinkDown` | lualib/binaryheap.lua:82-98 | A value that may be too great for its children ends in order |
| `UniqueHeap.UniqueHeap.Swap` | lualib/binaryheap.lua:345-350 | Values, payloads and index change places together: no payload changes its value |
| `UniqueHeap.UniqueHeap.Erase` | lualib/binaryheap.lua:352-357 | The last payload leaves arrays and index |
| `UniqueHeap.UniqueHeap.PopDue` | lualib/skyext/timer.lua:152-175 | The loop that pops what is due: what comes out is popped in order from the table before, all of it is due, and unless the batch is full nothing that stays is |
| `UniqueHeap.DrainSorts` | lualib/binaryheap.lua:298-304 | What repeated popping gives comes out once each, with its value, in order of the values; everything else stays, and none of it is less than what came out |
| `HeapOrder.TopIsMinimum` | lualib/binaryheap.lua:310-312 | In heap order under a strict weak order no value is less than the top |
| `UniqueHeap.SwapKeepsTable` | lualib/binaryheap.lua:345-350 | The swap keeps index and payloads inverse to each other |
| `TracebackLaws.BoundedIsPrefix` | lualib-src/traceback.c:91-104 | For every value, graph and bound: the bounded result is the unbounded result cut off at the bound, although the walk takes other branches once the buffer is full |
| `TracebackLaws.SerialisedSoundly` | lualib-src/traceback.c:218-303 | For every graph, cyclic or shared, no table is entered twice, and the two paths of every added line lead from the root to the same table |
| `TracebackLaws.TableCut` | lualib-src/traceback.c:218-303 | The induction behind the first: while there is room both runs are in the same state |
| `TracebackLaws.TableSound` | lualib-src/traceback.c:218-303 | The induction behind the second |
| `TracebackText.TextReadsBack` | lualib-src/traceback.c:127-197 | A printed string, read by the rules for Lua string literals, is the string; of a cut one, as much as fits and three dots |
| `TracebackText.BytesReadBack` | lualib-src/traceback.c:107-125 | Of a string printed in hexadecimal every two digits read as its byte |
| `TracebackText.PrintedAlike` | lualib-src/traceback.c:166-197 | Text that spells the hexadecimal form of bytes is printed like the bytes |
| `TracebackPrint.TablePrints` | lualib-src/traceback.c:218-303 | For every graph and all limits: what is printed of a table are its entries from the first on, joined by commas in braces, the tables mentioned again left out and named by one line each |
| `TracebackPrint.GraphPrints` | lualib-src/traceback.c:306-352 | The same from the root, and the lines behind it |
| `Traceback.Serializer.SerializeTable` | lualib-src/traceback.c:218-303 | The loop over the entries with its comma, its shrinking limit and the two tables it fills |
| `Traceback.Serializer.SerializeString` | lualib-src/traceback.c:166-197 | Escaped text or hexadecimal, cut at the string limit |
| `Traceback.Serializer.BufferAppend` | lualib-src/traceback.c:91-104 | As much as fits |
| `Traceback.Serializer.Serialize` | lualib-src/traceback.c:306-352 | The value and then the lines |
| `Base64Url.DecodeEncode` | lualib-src/crypto.c:30-97 | For every byte string, decoding what was encoded gives it back |
| `Base64Url.EncodeDecode` | lualib-src/crypto.c:59-97 | For every text that decodes, encoding the result gives the text without padding if and only if the bits dropped at its end are zeros and fewer than six |
| `Base64Bits.SameBits` | lualib-src/crypto.c:30-57 | For every byte string the text holds its bits, six to a character, the highest first, and two or four zeros to fill the last character |
| `Base64Url.DecodedSize` | lualib-src/crypto.c:68-92 | The decoder writes three bytes for four characters, rounded down |
| `Base64Url.Encode` | lualib-src/crypto.c:30-57 | The encoding loop, three bytes at a time, inside its buffer |
| `Base64Url.Decode` | lualib-src/crypto.c:59-97 | The decoding loop agrees with the definition for every text and any width of the accumulator from 16 bits on, and every byte lands inside the buffer |
| `Base64Url.Accumulates` | lualib-src/crypto.c:83-91 | The accumulator is never masked and wraps around: its low bits are right all the same |
| `JsonLaws.QuoteMarks` | sdk/ts/src/json.ts:21-86 | For every JSON text, blanks and all: the scan makes a marked string of every integer whose double is no safe integer and changes nothing else |
| `JsonRevive.MarkedIff` | sdk/ts/src/json.ts:74-78 | An integer is marked if and only if not all integers up to one more than it, of both signs, come through `JSON.parse` unchanged |
| `Doubles.SafeIff` | sdk/ts/src/json.ts:74 | The same of `Number.isSafeInteger` on the integers themselves |
| `Doubles.RoundIsNearest` | sdk/ts/src/json.ts:1-7 | What rounding gives has 53 bits and is at most half a unit away |
| `Doubles.NeighboursCollide` | sdk/ts/src/json.ts:1-7 | 2^53 and 2^53 + 1 are read as one number |
| `Doubles.LongIdIsLost` | sdk/ts/src/json.ts:1-3 | The id of seventeen digits that the source names is read as another |
| `JsonRevive.Revived` | sdk/ts/src/json.ts:88-99 | Reading the marked text, with every integer left in it rounded to a double, and reviving it gives the value with every integer exact if and only if no string value that is kept has the form of a mark; of members with one name the last is kept |
| `JsonRevive.EscapedMark` | sdk/ts/src/json.ts:88-99 | A text without U+E000 whose string, spelt by escapes, is taken for a mark and becomes an integer |
| `JsonScan.EraseRestores` | sdk/ts/src/json.ts:21-86 | For every text without U+E000, JSON or not, erasing the inserted marks restores it |
| `JsonScan.QuoteUnsafeIntegers` | sdk/ts/src/json.ts:21-86 | The scanning loop agrees with its definition |
| `JsonScan.ScanNumber` | sdk/ts/src/json.ts:46-74 | The longest number token, and whether it is more than an integer |
| `JsonScan.CopyString` | sdk/ts/src/json.ts:27-44 | A string literal is copied to its closing quote, escapes skipped |
| `CommandLine.ComeBackIff` | lualib-src/tool_process.c:127-141 | The arguments after the program name come back unchanged for every list of them if and only if the program name holds no quote |
| `CommandLine.NameComesBackIff` | lualib-src/tool_process.c:102-141 | The program that is started is the one listed first if and only if its name holds no quote and does not end in a backslash |
| `CommandLine.ArgumentsComeBack` | lualib-src/tool_process.c:102-125 | Any mix of backslash runs, quotes, blanks and empty arguments comes back |
| `CommandLine.ArgParses` | lualib-src/tool_process.c:102-125 | One quoted argument parses to itself and ends at its closing quote |
| `CommandLine.QuoteInName` | lualib-src/tool_process.c:127-141 | With a quote in its name and no arguments at all, the program is given one |
| `LineBuffer.LineBuffer.AppendChar` | lualib-src/tool_process.c:92-100 | The buffer doubles in time and stays terminated |
| `LineBuffer.LineBuffer.AppendArg` | lualib-src/tool_process.c:102-125 | Appends a space if needed and the quoted argument |
| `LineBuffer.BuildLine` | lualib-src/tool_process.c:127-141 | The whole line |

## Left out

- Doubles.RoundIsNearest: integers beyond the greatest double, which are read as infinite, and the sign of zero are not
  modelled; numbers with a fraction or an exponent stay texts.
- Floating point: double fields, decimal fixed-point fields and the MD5 constants; numbers and bigints are one integer type.
- I/O and hosts: sockets, HTTP, skynet messages, MongoDB, processes, OpenSSL, logging; timers are events in abstract time.
- Server session and entity manager: they appear only as the environment of the session layer, which may refuse any resume
  (an overflowing buffer, an entity that is gone or a gate that fails are part of that choice).
- Schema bundles as bytes: `importField`, `importProtocol` and malformed bundles; the model starts from type tables.
- UTF-8 in the codec: strings and binaries are byte strings (`encodeDeep` and `decodeDeep` are not part of the model); a
  boolean null from a strange peer is a missing field; whether a session id is a number or a bigint is decided by its
  value, not by the width it was sent in.
- SprotoEncoder.EncodeStruct: the refusal of tag gaps beyond 16 bits has no branch, since tags come from 16-bit words.
- SprotoDecoder.DecodeStruct: a position moves through one byte string where the source cuts slices off copies.
- ZeroPack.Pack: the limit of 2^30 bytes is not modelled; array holes and reads past the end are 0.
- Session: several roles in one process, the account service, the transport's own queue and `onState` callbacks.
- Discovery of other nodes: the watch streams and the cluster table are not modelled, nor is the shutdown command.
- Discovery's heartbeat and the lease's heartbeat are cut where they wait for etcd: one method for each stretch between two
  calls instead of one coroutine. A service registered while `pairs` runs over the table waits for the next beat.
- UniqueHeap.UniqueHeap.PopDue: the clock stands still and the callbacks leave the heap alone while the batch runs.
- The plain heap (positions instead of payloads) shares `BubbleUp`, `SinkDown` and `RemoveAt` and is not repeated.
- Traceback: which strings count as text is a parameter; keys with embedded zeros and `__tostring` with side effects are
  not modelled; characters stand for bytes.
- CommandLine.ArgumentsComeBack: arguments are sequences of characters; UTF-8 to UTF-16 is not part of this model.
- Small helpers: bin.ts, transport.ts, metrics, GM registry, account host rotation.
