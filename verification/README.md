# Verification of procpp's reactor, protocols and codecs

A Dafny model of the networking core of `ideas/procpp` (the single-threaded epoll reactor of `mixin_handler`, the
tunnels and the gateway that run on it, its protocol parsers, codecs and keyword index, and the message parser of
`http_proxy`), and of its two concurrent pieces, the thread pool and the partitioned dot product. `dafny verify
dfyconfig.toml` checks all of it.

## How it is built

Every stateful object of the source appears twice: as a class whose methods update its fields in place, branch for
branch as the source does, and as a value with functions that each method is proved to follow. The theorems are about
the functions, over all inputs and all runs.

- **Reader, Chunking, Bufferable.** A protocol's parser is a function from bytes to a value and the rest, "again" or "no
  good". One theorem says, for any parser whose decided results survive more input and consume something, that the
  way the network cuts a stream does not matter. SOA, RESP, HTTP and WebSocket each discharge that condition; their
  reading methods are proved equal to the functions.
- **Output.** `EventManager::write` against a kernel that takes any number of bytes, blocks, or fails.
- **Reactor, EventManager.** The callback tables and one batch of events. What callbacks do is an arbitrary finite tree
  of calls back into the reactor, each call carrying what the callbacks *it* fires do, so every terminating re-entrant
  behaviour is covered. Each registered callback has an identity, and the history of calls and removals is part of the
  state.
- **Tunnel, TunnelObject, Session.** `ITunnelLike` with `Proxy` and `Remote` as a machine over callbacks, the kernel
  choosing descriptor numbers, chunks, partial writes and hang-ups. `Session` is the worker at the other end of a
  `Remote`, and the composition of both.
- **TunnelReactor, GatewayReactor.** The tunnel's server is the reactor with roles for callbacks: every event of the tunnel
  machine is a move of the reactor whose callbacks make the calls the tunnel makes, over whole runs; so is the gateway's
  `close`.
- **Gateway, GatewayMachine, GatewayObject.** The upstream response parser, and the many-client request and response
  machine.
- **Soa, Redis, WebSocket, Http, HttpProxy.** The protocols' codecs and handlers.
- **Base64, Utf8, Trie.** The codecs and the index.
- **ThreadPool, Reduction.** Threads as interleaved steps, one per lock, unlock, wait, wake-up, load or store.

## Where the code keeps less

The code is modelled as it is. Where a natural claim about it is false, a lemma says so and the claim is proved under
the condition that decides it.

- A reply nobody registered for makes the Redis client drop the rest of its chunk, so chunking then matters
  (`RedisProtocol.SurplusBreaksChunking`); `RedisProtocol.AnswerExact` says exactly what one call does in either case, and
  `RedisProtocol.NoSurplusIff` that every reply finds its callback at every moment only in runs without such replies.
- `WebSocket::send` puts the fin bit and the opcode together by addition: a frame reads back as meant exactly when the
  opcode is below 16 (`WebSocketProtocol.SendRoundTripIff`).
- `Utf8::encode` accepts any 32-bit number but keeps 21 bits: the round trip holds exactly below 0x200000
  (`Utf8Codec.EncodeRoundTripIff`).
- The assertion at the end of `Base64::encode` fails exactly for the empty string, because of unsigned subtraction
  (`Base64Codec.AssertedUnlessEmpty`, `Base64Codec.Encode`).
- A handler that closes its own descriptor leaves an empty entry in `_fds` exactly if the event is also writable and
  does not count as a hang-up; if it does count as one, the descriptor is queued for closing twice
  (`Reactor.ClosedButRevived`).
- Bytes left in `_write_buf` by a hang-up go out first on the next connection with that number, and this does happen
  (`Tunnels.LeftoverReached`).
- A write that meets an error other than a broken pipe drops its bytes while the pair lives on. Each stream of each pair is
  faithful exactly when no write of that stream, the announcement included, lost anything since the client was accepted
  (`Tunnels.TunnelFidelity`, with `Tunnels.StepAccount` for one event); then it is exactly the received bytes if and only
  if nothing was left under the number before.
- Whatever bytes are lost, an event keeps all clients paired exactly when no connect fails inside `on_connect` and no pipe
  breaks while a new upstream is announced to or sent what was held back (`Tunnels.StepPairsIff`, `Tunnels.RunPairsIff`
  over runs). A connect that fails inside `on_connect` leaves its client watched without a partner
  (`Tunnels.SyncFailureOrphans`); a broken pipe while sending what was held back leaves the pair registered to a descriptor
  about to be closed (`Tunnels.BrokenFlushStaysPaired`). Pairing and all streams of all pairs together are kept exactly by
  the events that do neither and lose nothing (`Tunnels.StepKeepsIff`, `Tunnels.RunKeepsIff`).
- A server that answers from within its parsing loop goes on with the loop after a broken pipe has closed the client, and may
  then save a tail that the next connection under the number is fed first: exactly when an answer met a broken pipe and
  the bytes, which did not close the connection by themselves, end in an incomplete message (`Chunking.TailStays`).
- The gateway keeps an answered client's old remote in `_c2r`, and the kernel may hand that number out again
  (`Gateways.StaleRecord`). Closing a client closes nobody else exactly when the number on record for it is nobody's or
  its own remote's (`Gateways.CloseConfinedIff`). Otherwise it closes whoever has the number (`Gateways.StaleClose`): if
  that is the upstream of another client, the other client waits for ever (`Gateways.StarvedReached`,
  `Gateways.StarvedForEver`). Every waiting
  client has its upstream at every moment of a run exactly when no number is handed out while on record for another live
  client (`Gateways.RunSteadyIff`). The pipelining theorem holds in all runs.
- Answering a client into a broken pipe closes the client within the write, and with it the record of its request; the
  look-up that follows throws, which nothing catches. `Gateways.HaltsIff` says exactly what ends the program.

## Model

| member | source | states |
|---|---|---|
| Chunking.ChunkingDoesNotMatter | ideas/procpp/mixin_handler/StateMachine/Bufferable.cpp:4-24 | for any parser whose OK and NG results survive more input and which consumes something: two ways of cutting a stream give the same messages, saved bytes and decision to close |
| Chunking.ChunksAreOne | ideas/procpp/mixin_handler/StateMachine/Bufferable.cpp:4-24 | any chunks have the effect of their concatenation in one piece |
| Chunking.NextCall | ideas/procpp/mixin_handler/EventManager.cpp:388-405 | what one more READ callback delivers, saves and decides, put after what the earlier ones delivered, is what one parser of the whole stream would; it does not depend on the messages delivered before |
| Chunking.TailStays | ideas/procpp/mixin_handler/Protocol/Http.cpp:190-216 | for a handler that answers within its loop, in any chunks and with a broken pipe at any answer: the callbacks deliver and leave saved what one parser of the chunks they took would, and bytes stay saved for a closed connection if and only if an answer met a broken pipe, what came did not close the connection by itself, and it ends in an incomplete message |
| Chunking.FeedOnlyAdds | ideas/procpp/mixin_handler/Protocol/Soa.cpp:13-42 | later bytes never take back a delivered message |
| Chunking.DrainEncoded | ideas/procpp/mixin_handler/Protocol/Soa.cpp:13-42 | a stream of printed messages is delivered exactly, whatever follows it, if the parser reads back a printed message in front of anything |
| Bufferables.Bufferable.AppendBuf | ideas/procpp/mixin_handler/StateMachine/Bufferable.cpp:14-24 | the saved bytes come back in front of the new ones, once; no other descriptor's change |
| Bufferables.Bufferable.NeedBuf | ideas/procpp/mixin_handler/StateMachine/Bufferable.cpp:4-12 | the bytes are saved exactly when asked |
| Bufferables.Bufferable.GetBuf | ideas/procpp/mixin_handler/StateMachine/Bufferable.cpp:36-42 | the saved bytes, erased when asked |
| Bufferables.Bufferable.EraseBuf | ideas/procpp/mixin_handler/StateMachine/Bufferable.cpp:44-47 | nothing stays saved |
| Reader.TakeUntilExtends | ideas/procpp/mixin_handler/StreamReader.cpp:117-137 | a decided read_until is unchanged by more input |
| Reader.TakeWhileExtends | ideas/procpp/mixin_handler/StreamReader.cpp:73-93 | so is a decided read_up, the failing one included |
| Reader.TakeSizeExtends | ideas/procpp/mixin_handler/StreamReader.cpp:4-18 | so is a decided read_size |
| Reader.FindUnique | ideas/procpp/mixin_handler/StreamReader.cpp:123-134 | the scan stops at the first byte of the wanted kind, and only there |
| Reader.StreamReader.ReadSize | ideas/procpp/mixin_handler/StreamReader.cpp:4-18 | the next bytes and the moved offset, or AG with the offset unmoved |
| Reader.StreamReader.ReadPlain | ideas/procpp/mixin_handler/StreamReader.h:44-51 | one byte and the moved offset, or AG |
| Reader.StreamReader.PreadPlain | ideas/procpp/mixin_handler/StreamReader.h:53-59 | one byte, the offset unmoved |
| Reader.StreamReader.ReadNumber | ideas/procpp/mixin_handler/StreamReader.h:20-30 | a fixed-width integer in network order |
| Reader.StreamReader.ReadUp | ideas/procpp/mixin_handler/StreamReader.cpp:73-93 | the longest run of the given bytes that is followed by another byte; AG or NG as the source |
| Reader.StreamReader.ReadUntil | ideas/procpp/mixin_handler/StreamReader.cpp:117-137 | the bytes before the first of the given ones, which is eaten when asked; AG when there is none |
| SoaProtocol.PacketStable | ideas/procpp/mixin_handler/Protocol/Soa.cpp:51-64 | SOA parsing survives more input and consumes |
| SoaProtocol.PacketRoundTrip | ideas/procpp/mixin_handler/Protocol/Soa.cpp:51-89 | a printed packet in front of anything parses to itself and exactly itself |
| SoaProtocol.RequestsDelivered | ideas/procpp/mixin_handler/Protocol/Soa.cpp:8-43 | a stream of packets and an incomplete one, in any chunks, is delivered packet by packet, the incomplete tail saved |
| SoaProtocol.ParseRequest | ideas/procpp/mixin_handler/Protocol/Soa.cpp:51-64 | the reading method is the parser |
| SoaProtocol.SoaServer.OnMessage | ideas/procpp/mixin_handler/Protocol/Soa.cpp:8-43 | one call is one callback of TailStays: one feed of the chunking theorem, closed also by an answer's broken pipe; other clients' buffers are untouched |
| SoaProtocol.SoaServer.Serve | ideas/procpp/mixin_handler/Protocol/Soa.cpp:8-43 | the READ callbacks of one connection, from whatever was left saved under its number, are those of TailStays |
| SoaProtocol.RepliesMatched | ideas/procpp/mixin_handler/Protocol/Client/Soa.cpp:14-43 | a callback is called exactly for the first reply with its id; it stays registered exactly while no such reply has come; other replies go to the push hook |
| SoaProtocol.SoaClient.OnMessage | ideas/procpp/mixin_handler/Protocol/Client/Soa.cpp:6-63 | one call feeds the parser and dispatches every reply it yields |
| SoaProtocol.SoaClient.Serve | ideas/procpp/mixin_handler/Protocol/Client/Soa.cpp:6-63 | over all READ callbacks of one connection, the replies are those of the whole stream and are matched to callbacks as RepliesMatched says |
| SoaProtocol.SoaClient.DeliverReply | ideas/procpp/mixin_handler/Protocol/Client/Soa.cpp:21-38 | one reply consumes its callback or goes to the push hook |
| SoaProtocol.SoaClient.AddCallback | ideas/procpp/mixin_handler/Protocol/Client/Soa.cpp:73-77 | the callback is registered for that descriptor and id only |
| SoaProtocol.SoaClient.OnClose | ideas/procpp/mixin_handler/Protocol/Client/Soa.cpp:65-71 | the descriptor's bytes and callbacks are gone, no other's |
| RedisProtocol.ReplyStable | ideas/procpp/mixin_handler/Protocol/Client/Redis.cpp:65-124 | the recursive RESP parser survives more input, consumes, and terminates on every input |
| RedisProtocol.ReplyRoundTrip | ideas/procpp/mixin_handler/Protocol/Client/Redis.cpp:65-124 | every reply printed as the protocol prints it, arrays nested to any depth, parses back to itself and exactly itself |
| RedisProtocol.CommandRoundTrip | ideas/procpp/mixin_handler/Protocol/Client/Redis.h:46-63 | a command in front of anything parses as the array of exactly its arguments, CR and LF in them allowed, and nothing more is consumed |
| RedisProtocol.ElementsAreValues | ideas/procpp/mixin_handler/Protocol/Client/Redis.cpp:142-165 | the argument encodings are the replies they stand for |
| RedisProtocol.ParseResponse | ideas/procpp/mixin_handler/Protocol/Client/Redis.cpp:65-124 | the recursive reading method is the parser |
| RedisProtocol.ParseElements | ideas/procpp/mixin_handler/Protocol/Client/Redis.cpp:114-118 | so is its loop over array elements |
| RedisProtocol.AnswerExact | ideas/procpp/mixin_handler/Protocol/Client/Redis.cpp:26-60 | what one call does, with callbacks enough or too few |
| RedisProtocol.RepliesInOrder | ideas/procpp/mixin_handler/Protocol/Client/Redis.cpp:16-63 | for any interleaving of registrations and chunks without surplus replies: the i-th reply goes to the i-th callback, the others wait in order, no byte is lost |
| RedisProtocol.CallbacksKept | ideas/procpp/mixin_handler/Protocol/Client/Redis.cpp:32-39 | in every run each registered callback has fired or is waiting |
| RedisProtocol.NoSurplusIff | ideas/procpp/mixin_handler/Protocol/Client/Redis.cpp:26-44 | at every moment of a run every complete reply has gone to a callback if and only if there never were more replies than registrations |
| RedisProtocol.InterleavingDoesNotMatter | ideas/procpp/mixin_handler/Protocol/Client/Redis.cpp:16-63 | two such runs with the same registrations and the same stream end alike |
| RedisProtocol.SurplusBreaksChunking | ideas/procpp/mixin_handler/Protocol/Client/Redis.cpp:32-35 | with a surplus reply two chunkings of one stream end differently |
| RedisProtocol.RedisClient.OnMessage | ideas/procpp/mixin_handler/Protocol/Client/Redis.cpp:16-63 | one call is one step of that run; other descriptors are untouched |
| RedisProtocol.RedisClient.FireNext | ideas/procpp/mixin_handler/Protocol/Client/Redis.cpp:32-39 | the callback that has waited longest is taken, or none |
| RedisProtocol.RedisClient.Serve | ideas/procpp/mixin_handler/Protocol/Client/Redis.cpp:16-63 | the registrations and READ callbacks of one connection, in any order, are the run RepliesInOrder is about |
| RedisProtocol.RedisClient.AddCallback | ideas/procpp/mixin_handler/Protocol/Client/Redis.cpp:132-139 | the callback goes to the end of its descriptor's queue |
| RedisProtocol.RedisClient.OnClose | ideas/procpp/mixin_handler/Protocol/Client/Redis.cpp:126-130 | the descriptor's bytes and callbacks are gone, no other's |
| WebSocketProtocol.MaskTwice | ideas/procpp/mixin_handler/Protocol/WebSocket.cpp:118-122 | masking with the same key twice is the identity |
| WebSocketProtocol.MessageStable | ideas/procpp/mixin_handler/Protocol/WebSocket.cpp:79-127 | the fragment loop survives more input and consumes |
| WebSocketProtocol.SendParses | ideas/procpp/mixin_handler/Protocol/WebSocket.cpp:198-225 | what a sent frame parses to, for any opcode and flag |
| WebSocketProtocol.SendRoundTripIff | ideas/procpp/mixin_handler/Protocol/WebSocket.cpp:198-225 | it parses as meant if and only if the opcode is under 16 |
| WebSocketProtocol.WireRoundTrip | ideas/procpp/mixin_handler/Protocol/WebSocket.cpp:84-124 | a frame masked with any key, or not, parses to itself (sections 5.2 and 5.3 of RFC 6455) |
| WebSocketProtocol.SendIsShortest | ideas/procpp/mixin_handler/Protocol/WebSocket.cpp:205-219 | no byte string that parses to the frame is shorter than the one sent |
| WebSocketProtocol.MessageRoundTrip | ideas/procpp/mixin_handler/Protocol/WebSocket.cpp:79-127 | fragments, masked in any way, are one message with the first opcode and the joined payload (section 5.4 of RFC 6455) |
| WebSocketProtocol.ConversationDelivered | ideas/procpp/mixin_handler/Protocol/WebSocket.cpp:54-175 | a conversation so encoded, in any chunks, is delivered message by message, an incomplete tail saved |
| WebSocketProtocol.UnmaskInPlace | ideas/procpp/mixin_handler/Protocol/WebSocket.cpp:118-122 | the loop unmasks the buffer in place |
| WebSocketProtocol.ReadMessage | ideas/procpp/mixin_handler/Protocol/WebSocket.cpp:79-127 | the reading loop is the parser |
| WebSocketProtocol.WebSocket.OnMessage | ideas/procpp/mixin_handler/Protocol/WebSocket.cpp:54-175 | one call is one callback of TailStays: one feed of the chunking theorem, closed also by an answer's broken pipe; it writes the answers AnswersRead is about, in order, the close frame before closing included |
| WebSocketProtocol.AnswersRead | ideas/procpp/mixin_handler/Protocol/WebSocket.cpp:130-157 | what the peer reads back: a pong with the payload of its ping, a close frame with the status code of its own (1000 if it gave none), a close frame with code 1002 for an unknown opcode, and nothing else (section 5.5 of RFC 6455) |
| WebSocketProtocol.WebSocket.AnswerTo | ideas/procpp/mixin_handler/Protocol/WebSocket.cpp:130-157 | the switch over the opcode writes that answer and closes exactly after a close frame or an unknown opcode |
| WebSocketProtocol.WebSocket.Serve | ideas/procpp/mixin_handler/Protocol/WebSocket.cpp:54-175 | the READ callbacks of one connection, from whatever was left saved under its number, are those of TailStays, and answer all they deliver |
| WebSocketProtocol.WebSocket.Send | ideas/procpp/mixin_handler/Protocol/WebSocket.cpp:198-225 | the bytes the round trips are about |
| HttpProtocol.RequestStable | ideas/procpp/mixin_handler/Protocol/Http.cpp:73-151 | request parsing survives more input and consumes |
| HttpProtocol.RequestsChunkingIndependent | ideas/procpp/mixin_handler/Protocol/Http.cpp:179-222 | pipelined requests: chunking changes neither the requests served, nor the bytes kept, nor the decision to close |
| HttpProtocol.ReadRequest | ideas/procpp/mixin_handler/Protocol/Http.cpp:73-151 | the reading loops are the parser |
| HttpProtocol.Http.OnMessage | ideas/procpp/mixin_handler/Protocol/Http.cpp:179-222 | one call is one callback of TailStays: one feed of the chunking theorem, closed also by an answer's broken pipe; it ends by the exception of substr exactly when the last request served has no Connection header and a version shorter than five bytes |
| HttpProtocol.Http.Serve | ideas/procpp/mixin_handler/Protocol/Http.cpp:179-222 | the READ callbacks of one connection, from whatever was left saved under its number, are those of TailStays |
| HttpProxy.RewritePreservesMeaning | ideas/procpp/http_proxy/http.cpp:121-227 | whatever parses as a response is printed to something that parses completely, to the same response without Strict-Transport-Security |
| HttpProxy.RewriteIdempotent | ideas/procpp/http_proxy/http.cpp:121-227 | rewriting what was rewritten changes nothing |
| HttpProxy.ChunkedBodyJoined | ideas/procpp/http_proxy/http.cpp:229-252 | a chunked response becomes one with the chunks joined and a matching Content-Length, nothing after the last chunk consumed (section 3.6.1 of RFC 2616) |
| HttpProxy.ParsedIsGood | ideas/procpp/http_proxy/http.cpp:121-207 | what a parse guarantees: safe names and values, no Transfer-Encoding, a length that is the body's |
| HttpProxy.GoodPrints | ideas/procpp/http_proxy/http.cpp:219-227 | every such response prints to something that parses back to it |
| HttpProxy.HexRoundTrip | ideas/procpp/http_proxy/utils.cpp:75-81 | hex2long reads back a hexadecimal length |
| HttpProxy.ForwardPreservesMeaning | ideas/procpp/http_proxy/http.cpp:99-113 | a forwarded request, its headers printed in any order, parses completely, to the request without the proxy's own headers |
| HttpProxy.ReadChunks | ideas/procpp/http_proxy/http.cpp:229-252 | the chunk loop is the parser |
| HttpProxy.ReadResponse | ideas/procpp/http_proxy/http.cpp:121-207 | the reading loops are the parser |
| HttpProxy.ToString | ideas/procpp/http_proxy/http.cpp:219-227 | the printing loop is the printer |
| Base64Codec.EncodeIsReference | ideas/procpp/mixin_handler/Codec/Base64.cpp:19-51 | what the loop with the wrapping 32-bit accumulator writes is the encoding of section 4 of RFC 4648 |
| Base64Codec.Base64RoundTrip | ideas/procpp/mixin_handler/Codec/Base64.cpp:19-83 | decoding undoes encoding, for every byte string |
| Base64Codec.SkippedAnywhere | ideas/procpp/mixin_handler/Codec/Base64.cpp:63-67 | white space or '=' anywhere leaves the decoding unchanged |
| Base64Codec.AssertedUnlessEmpty | ideas/procpp/mixin_handler/Codec/Base64.cpp:48-49 | the final assertions hold if and only if the input is not empty |
| Base64Codec.Encode | ideas/procpp/http_proxy/utils.cpp:150-178 | the in-place loops write that encoding, 4*ceil(n/3) characters, every write in bounds, and meet the assertions unless the input is empty |
| Base64Codec.Draw | ideas/procpp/mixin_handler/Codec/Base64.cpp:35-39 | the inner loop writes the complete sextets of the accumulator |
| Base64Codec.Decode | ideas/procpp/http_proxy/utils.cpp:119-148 | the loop computes the decoding, empty when a character is illegal |
| Utf8Codec.EncodeRoundTrip | ideas/procpp/mixin_handler/Codec/Utf8.cpp:84-118 | an encoding in front of anything is one character and decodes to its code point, up to 0x1FFFFF |
| Utf8Codec.EncodeRoundTripIff | ideas/procpp/mixin_handler/Codec/Utf8.cpp:84-118 | and for no larger number |
| Utf8Codec.SegmentationRoundTrip | ideas/procpp/mixin_handler/Codec/Utf8.cpp:4-82 | repeated decoding of concatenated encodings gives exactly the characters and code points |
| Utf8Codec.DecodeCharLength | ideas/procpp/mixin_handler/Codec/Utf8.cpp:23-70 | the length and code point at any offset, 0 where no character begins |
| Utf8Codec.DecodeCharAt | ideas/procpp/mixin_handler/Codec/Utf8.cpp:72-82 | the character at an offset and the offset after it |
| Utf8Codec.Length | ideas/procpp/mixin_handler/Codec/Utf8.cpp:4-21 | the number of characters up to the first byte that begins none |
| TrieIndex.IndexExact | ideas/procpp/mixin_handler/DataStructure/Trie.cpp:4-28 | for decodable keywords, the index holds each non-empty keyword at its characters and nothing else |
| TrieIndex.NonOverlappingIsScan | ideas/procpp/mixin_handler/DataStructure/Trie.cpp:30-69 | the search without overlap is the scan over bytes that at each character boundary takes the longest keyword and jumps past it |
| TrieIndex.OverlappingIsNaive | ideas/procpp/mixin_handler/DataStructure/Trie.cpp:30-69 | the search with overlap finds exactly the non-empty keywords that are byte substrings, for well-formed UTF-8 |
| TrieIndex.OccursLater | ideas/procpp/mixin_handler/Codec/Utf8.cpp:23-70 | self-synchronisation: a well-formed keyword occurs at no byte inside a character |
| TrieIndex.PrefixIff | ideas/procpp/mixin_handler/DataStructure/Trie.cpp:44-58 | a decodable keyword begins a text exactly when its characters begin the text's |
| TrieIndex.Trie.constructor | ideas/procpp/mixin_handler/DataStructure/Trie.cpp:4-28 | the tree of nodes on the heap stands for the index of the keywords |
| TrieIndex.Trie.Insert | ideas/procpp/mixin_handler/DataStructure/Trie.cpp:16-26 | one keyword is added at its path, nothing else changed |
| TrieIndex.Trie.Step | ideas/procpp/mixin_handler/DataStructure/Trie.cpp:17-23 | the child for a character, added when missing, no value changed |
| TrieIndex.Trie.SetValue | ideas/procpp/mixin_handler/DataStructure/Trie.cpp:88-93 | the value at one path |
| TrieIndex.Trie.Walk | ideas/procpp/mixin_handler/DataStructure/Trie.cpp:38-58 | the inner loop finds the longest match at an offset, or all matches there |
| TrieIndex.Trie.Search | ideas/procpp/mixin_handler/DataStructure/Trie.cpp:30-69 | the nested loops return, sorted and without duplicates, what the two searches are specified to find |
| TrieIndex.FindKeywords | ideas/procpp/mixin_handler/DataStructure/Trie.cpp:4-69 | building the trie and searching gives the one sorted listing of what the leftmost-longest scan takes (decodable keywords), or of every non-empty keyword that occurs (well-formed keywords and text) |
| Ordered.SortedUnique | ideas/procpp/mixin_handler/DataStructure/Trie.cpp:64-68 | a sorted result without duplicates is determined by its elements |
| Output.OutputFidelity | ideas/procpp/mixin_handler/EventManager.cpp:189-232 | over any run of writes and writable events, whatever the kernel takes: what it took, then what is owed, is what was written; after a fatal error it has a prefix |
| Output.WriteAppends | ideas/procpp/mixin_handler/EventManager.cpp:199-232 | a write short of a fatal error adds exactly its data to the stream |
| Output.WriteExact | ideas/procpp/mixin_handler/EventManager.cpp:199-232 | unless the pipe breaks, the stream grows by exactly the data if and only if no other error comes before the last of it |
| Output.FinishExact | ideas/procpp/mixin_handler/EventManager.cpp:513-527 | the same of offering owed bytes again |
| Output.FinishKeeps | ideas/procpp/mixin_handler/EventManager.cpp:513-527 | offering owed bytes again changes nothing in the stream |
| Output.FatalIsPrefix | ideas/procpp/mixin_handler/EventManager.cpp:212-226 | even then what went out is a prefix |
| Output.WriteLoop | ideas/procpp/mixin_handler/EventManager.cpp:208-231 | the loop of ::write calls against any answers of the kernel |
| Reactor.CallbackFate | ideas/procpp/mixin_handler/EventManager.cpp:113-161 | in every run, whatever callbacks do: a callback is registered and has not ended, or ended once, and is never called after; CONNECT and CLOSE leave uncalled only for the permitted reasons |
| Reactor.RunStepsKeeps | ideas/procpp/mixin_handler/EventManager.cpp:324-462 | every registered callback is in the table or has ended, never both, after every batch and every call |
| Reactor.ExecKeeps | ideas/procpp/mixin_handler/EventManager.cpp:53-232 | every call from inside a callback keeps the account, keeps _current_cb equal to the current entry, and neither rewrites history nor closes a descriptor |
| Reactor.DispatchKeeps | ideas/procpp/mixin_handler/EventManager.cpp:334-453 | so does every event, CONNECT, READ, WRITE, ERROR and hang-up stages included |
| Reactor.UnwatchKeeps | ideas/procpp/mixin_handler/EventManager.cpp:113-135 | unwatch accounts for every callback of the entry, GAME_OVER being told after it is gone |
| Reactor.CloseTells | ideas/procpp/mixin_handler/EventManager.cpp:138-161 | close calls the CLOSE callback, and tells a waiting CONNECT callback GAME_OVER, whatever they do in turn |
| Reactor.HangupTells | ideas/procpp/mixin_handler/EventManager.cpp:433-451 | so does a hang-up |
| Reactor.UnwatchTells | ideas/procpp/mixin_handler/EventManager.cpp:129-132 | so does unwatch for CONNECT, unless asked to be quiet |
| Reactor.ConnectTells | ideas/procpp/mixin_handler/EventManager.cpp:345-386 | a connecting descriptor's event calls CONNECT, with OK when it is writable without error, hang-up or socket error, else with NG |
| Reactor.StagesTell | ideas/procpp/mixin_handler/EventManager.cpp:388-451 | an event's READ, WRITE, ERROR and CLOSE callbacks are called, in this order, each as the earlier ones left it; an error nobody handles is a hang-up |
| Reactor.OrderlyEnds | ideas/procpp/mixin_handler/EventManager.h:71-74 | nothing follows a callback's end, which has a permitted reason |
| Reactor.NoMisdelivery | ideas/procpp/mixin_handler/EventManager.cpp:334-341 | at its turn every event's descriptor still names the connection it was reported for, whatever the batch closed and opened |
| Reactor.ClosedAtTheEnd | ideas/procpp/mixin_handler/EventManager.cpp:455-460 | a queued descriptor stays open until the batch ends, and is closed then |
| Reactor.ClosedButRevived | ideas/procpp/mixin_handler/EventManager.cpp:388-451 | after a READ callback closed its own descriptor with nothing owed, the descriptor is in _fds at the end of the event if and only if the event is writable and no hang-up, and is queued again if it is both |
| EventManagers.EventManager.WatchAll | ideas/procpp/mixin_handler/EventManager.cpp:73-95 | the whole entry replaced, in _current_cb too unless re-watching |
| EventManagers.EventManager.WatchEvent | ideas/procpp/mixin_handler/EventManager.cpp:53-71 | one callback replaced, in _current_cb too |
| EventManagers.EventManager.AutoRewatch | ideas/procpp/mixin_handler/EventManager.cpp:97-110 | an entry for the descriptor, empty if there was none |
| EventManagers.EventManager.Unwatch | ideas/procpp/mixin_handler/EventManager.cpp:113-135 | its whole effect is that of Reactor.UnwatchFd, the subject of CallbackFate and UnwatchTells |
| EventManagers.EventManager.Close | ideas/procpp/mixin_handler/EventManager.cpp:138-161 | its whole effect is that of Reactor.CloseFd, the subject of CallbackFate and CloseTells |
| EventManagers.EventManager.Write | ideas/procpp/mixin_handler/EventManager.cpp:199-232 | its whole effect is that of Reactor.WriteFd, the subject of CallbackFate, and whose bytes OutputFidelity is about; the size returned too |
| EventManagers.EventManager.FinishWrite | ideas/procpp/mixin_handler/EventManager.cpp:513-527 | its whole effect is that of Reactor.FinishWriteBuf, the subject of CallbackFate; the result says whether nothing is left |
| EventManagers.EventManager.HandleEvent | ideas/procpp/mixin_handler/EventManager.cpp:335-386 | its whole effect is that of Reactor.Dispatch, the subject of ConnectTells and DispatchKeeps |
| EventManagers.EventManager.AfterConnect | ideas/procpp/mixin_handler/EventManager.cpp:388-451 | its whole effect is that of Reactor.Stages, the subject of StagesTell |
| EventManagers.EventManager.Writable | ideas/procpp/mixin_handler/EventManager.cpp:405-419 | its whole effect is that of Reactor.WriteStage, the subject of WriteTells and ClosedButRevived |
| EventManagers.EventManager.HangUp | ideas/procpp/mixin_handler/EventManager.cpp:433-451 | its whole effect is that of Reactor.HangupStage, the subject of HangupTells |
| EventManagers.EventManager.HandleEvents | ideas/procpp/mixin_handler/EventManager.cpp:324-462 | its whole effect is that of Reactor.HandleEvents, the subject of NoMisdelivery and ClosedAtTheEnd |
| EventManagers.EventManager.Exec | ideas/procpp/mixin_handler/Client.cpp:285-319 | its whole effect is that of Reactor.Exec, the subject of ExecKeeps; connect in its three outcomes included |
| Tunnels.TunnelFidelity | ideas/procpp/mixin_handler/Protocol/ITunnelLike.cpp:21-67 | in every run of structural events, for each live pair and each direction by itself: what was received is what the kernel took, then what is owed, then what the tunnel holds (nothing once connected), after what was owed under the number before, if and only if no write of that stream lost anything since the client was accepted; otherwise bytes are missing |
| Tunnels.TunnelPairing | ideas/procpp/mixin_handler/Protocol/ITunnelLike.cpp:3-19 | in every run of structural events, whatever bytes are lost, _c2r and _r2c are mutually inverse, both sides watched, and exactly the paired clients have a state |
| Tunnels.TunnelTeardown | ideas/procpp/mixin_handler/Protocol/ITunnelLike.cpp:42-81 | in every such run, losing either side in any way, also while connecting, clears both tables, the state and the buffer, unwatches and queues both descriptors, and touches no other pair |
| Tunnels.StepPairsIff | ideas/procpp/mixin_handler/Protocol/ITunnelLike.cpp:3-19 | an event keeps all clients paired if and only if it is no connect that fails at once and breaks no pipe while on_remote_connect writes, whatever its other writes lose |
| Tunnels.RunPairsIff | ideas/procpp/mixin_handler/Protocol/ITunnelLike.cpp:3-19 | after every prefix of a run all clients are paired if and only if every event was such at its turn |
| Tunnels.StepAccount | ideas/procpp/mixin_handler/EventManager.cpp:199-232 | over any such event, each stream of each pair that is there afterwards has lost something if and only if it had before or this event wrote to its receiver and lost bytes; a new pair starts with no loss |
| Tunnels.RunAccount | ideas/procpp/mixin_handler/EventManager.cpp:199-232 | so over runs, for each stream by itself |
| Tunnels.StepKeepsIff | ideas/procpp/mixin_handler/Protocol/Proxy.cpp:5-65 | an event keeps all pairs and all their streams together if and only if it is structural and loses nothing |
| Tunnels.RunKeepsIff | ideas/procpp/mixin_handler/Protocol/Proxy.cpp:5-65 | after every prefix of a run all pairs and all streams are whole if and only if every event was such at its turn |
| Tunnels.ConnectedEffect | ideas/procpp/mixin_handler/Protocol/Remote.cpp:48-74 | on connecting, if neither write loses bytes or closes the upstream, the id if there is one to send and then all that was held back go out, in this order |
| Tunnels.ConnectedShort | ideas/procpp/mixin_handler/Protocol/Remote.cpp:48-74 | otherwise the upstream has been queued for closing or its stream stays short of the id and what was held back |
| Tunnels.LeftoverReached | ideas/procpp/mixin_handler/EventManager.cpp:184-197 | any structural run with a connected pair goes on to one whose new client has lost nothing and is owed first what an old one under its number was |
| Tunnels.CloseTears | ideas/procpp/mixin_handler/Client.cpp:69-94 | closing either side, re-entrantly closing the other, GAME_OVER of a dialing remote included |
| Tunnels.SyncFailureOrphans | ideas/procpp/mixin_handler/Client.cpp:299-306 | after a connect that fails at once the client is watched without a partner and its bytes outlive it |
| Tunnels.BrokenFlushStaysPaired | ideas/procpp/mixin_handler/Client.cpp:76-83 | after a broken pipe at any point of announcing a client or flushing, the remote is queued for closing, watched again and still paired, and bytes held back are gone |
| TunnelOnReactor.StepRefines | ideas/procpp/mixin_handler/EventManager.cpp:324-462 | every event of the tunnel machine leaves its server as the reactor is left by the stage, connect or end of batch it stands for, the reactor's callbacks making the calls the tunnel's make |
| TunnelOnReactor.Reacts | ideas/procpp/mixin_handler/EventManager.cpp:324-462 | so over whole runs: every run of the tunnel is one of the reactor, with the same descriptors watched, queued, open and owed |
| TunnelOnReactor.CloseRefines | ideas/procpp/mixin_handler/EventManager.cpp:138-161 | close, with everything its callbacks close in turn, is the same in both |
| TunnelOnReactor.WriteRefines | ideas/procpp/mixin_handler/EventManager.cpp:199-232 | so is write, blocking and broken pipe included |
| GatewayOnReactor.CloseRefines | ideas/procpp/mixin_handler/EventManager.cpp:138-161 | the gateway's close, in any state and with everything its callbacks close in turn, is the reactor's |
| TunnelObjects.Tunnel.RegisterPairInfo | ideas/procpp/mixin_handler/Protocol/ITunnelLike.cpp:3-7 | its whole effect is that of Tunnels.Register, the subject of TunnelPairing |
| TunnelObjects.Tunnel.EraseClientInfo | ideas/procpp/mixin_handler/Protocol/ITunnelLike.cpp:9-19 | its whole effect is that of Tunnels.EraseInfo, the subject of TunnelTeardown |
| TunnelObjects.Tunnel.OnMessage | ideas/procpp/mixin_handler/Protocol/ITunnelLike.cpp:21-40 | its whole effect is that of Tunnels.OnMessage, the subject of TunnelFidelity |
| TunnelObjects.Tunnel.OnClose | ideas/procpp/mixin_handler/Protocol/ITunnelLike.cpp:42-54 | its whole effect is that of Tunnels.OnClose, the subject of TunnelTeardown |
| TunnelObjects.Tunnel.OnRemoteMessage | ideas/procpp/mixin_handler/Protocol/ITunnelLike.cpp:56-67 | its whole effect is that of Tunnels.Write, the subject of TunnelFidelity |
| TunnelObjects.Tunnel.OnRemoteClose | ideas/procpp/mixin_handler/Protocol/ITunnelLike.cpp:69-81 | its whole effect is that of Tunnels.OnRemoteClose, the subject of TunnelTeardown |
| TunnelObjects.Tunnel.OnRemoteConnect | ideas/procpp/mixin_handler/Protocol/Remote.cpp:48-65 | its whole effect is that of Tunnels.RemoteConnected, the subject of ConnectedEffect; Proxy is the case without an id |
| TunnelObjects.Tunnel.DialFailed | ideas/procpp/mixin_handler/Protocol/Proxy.cpp:58-63 | its whole effect is that of Tunnels.DialFailed, the subject of TunnelTeardown; with the wrapper's close |
| TunnelObjects.Tunnel.OnConnect | ideas/procpp/mixin_handler/Protocol/Proxy.cpp:5-42 | its whole effect is that of Tunnels.Accepted, the subject of TunnelPairing and SyncFailureOrphans; with accept, the connect in its three outcomes, and the watch that follows |
| TunnelObjects.Tunnel.SendSessionId | ideas/procpp/mixin_handler/ClientServer.cpp:57-68 | its whole effect is that of Tunnels.SendId, the subject of SessionHandOff |
| TunnelObjects.Tunnel.Unwatch | ideas/procpp/mixin_handler/ClientServer.cpp:25-46 | its whole effect is that of Tunnels.Unwatch, the subject of TunnelTeardown; the session goes with its client |
| TunnelObjects.Tunnel.Close | ideas/procpp/mixin_handler/EventManager.cpp:138-161 | its whole effect is that of Tunnels.Close, the subject of CloseTears |
| TunnelObjects.Tunnel.Write | ideas/procpp/mixin_handler/EventManager.cpp:199-232 | its whole effect is that of Tunnels.Write, the subject of TunnelFidelity |
| Sessions.SessionHandOff | ideas/procpp/mixin_handler/ClientServer.cpp:245-272 | through any structural run of a Remote master, for a client whose upstream stream lost nothing, and any run of a worker, chunked anywhere: the worker's id is the first four of the upstream bytes and its protocol has exactly the rest that has arrived; so, unless something was owed under the upstream's number before, it knows exactly the master's id and has exactly a prefix of the client's stream |
| Sessions.WorkerSettled | ideas/procpp/mixin_handler/ClientServer.cpp:70-84 | in every run of a worker: nothing before four bytes; then the id they spell, the waiting tasks run once in order, and the bytes after it; a reused number starts afresh |
| Sessions.MasterStream | ideas/procpp/mixin_handler/Protocol/Remote.cpp:53-65 | what the kernel took for the upstream begins what was owed under its number, then the id, once, then the client's bytes |
| SessionObjects.ClientServer.RecvSessionId | ideas/procpp/mixin_handler/ClientServer.cpp:70-84 | its whole effect is that of Sessions.RecvSessionId, the subject of WorkerSettled |
| SessionObjects.ClientServer.OnRead | ideas/procpp/mixin_handler/ClientServer.cpp:248-270 | its whole effect is that of Sessions.Message, the subject of WorkerSettled |
| SessionObjects.ClientServer.RunSessionTasks | ideas/procpp/mixin_handler/ClientServer.cpp:253-257 | its whole effect is that of Sessions.RunTasks, the subject of WorkerSettled |
| SessionObjects.ClientServer.AddSessionTask | ideas/procpp/mixin_handler/ClientServer.cpp:274-285 | its whole effect is that of Sessions.AddSessionTask, the subject of WorkerSettled; the result says whether it ran at once |
| SessionObjects.ClientServer.Unwatch | ideas/procpp/mixin_handler/ClientServer.cpp:25-46 | its whole effect is that of Sessions.Unwatch, the subject of WorkerSettled, if the base class found the descriptor watched, and none if not; the result says which |
| GatewayResponses.UpstreamExtends | ideas/procpp/mixin_handler/Protocol/HttpGateway.cpp:175-261 | the upstream response parser's decided results survive more input |
| GatewayResponses.ChunksExtend | ideas/procpp/mixin_handler/Protocol/Http.cpp:153-177 | so do those of the chunked body |
| GatewayResponses.ReadUpstream | ideas/procpp/mixin_handler/Protocol/HttpGateway.cpp:175-261 | the reading loops are the parser |
| Gateways.GatewayPipelining | ideas/procpp/mixin_handler/Protocol/HttpGateway.cpp:12-154 | in every run, broken pipes while answering included, for every client still served: the requests taken are in order the successive parses of the client's whole stream in any chunks, the i-th answer is to the i-th request from the one upstream that was sent it, at most one request is unanswered, and while none is, every complete request of the stream has been taken (section 8.1.2.2 of RFC 2616) |
| Gateways.OneUpstream | ideas/procpp/mixin_handler/Protocol/HttpGateway.cpp:85-86 | in every run a client has at most one upstream, only while waiting, and _r2c leads back through _c2r |
| Gateways.CloseKeeps | ideas/procpp/mixin_handler/Protocol/HttpGateway.cpp:90-102 | whatever is closed, the record being stale included, everything left stays in order; CloseConfinedIff and StaleClose say what is left |
| Gateways.RunKeeps | ideas/procpp/mixin_handler/Protocol/HttpGateway.cpp:7-173 | the invariant behind these, over every run |
| Gateways.RequestsAreDrained | ideas/procpp/mixin_handler/Protocol/HttpGateway.cpp:16-31 | one request per answer, the rest saved, takes the same requests as draining the stream |
| Gateways.ResponseChunking | ideas/procpp/mixin_handler/Protocol/HttpGateway.cpp:119-132 | two answers read from the beginning of one stream, cut in any two ways and in any two runs, give the same response |
| Gateways.StaleRecord | ideas/procpp/mixin_handler/Protocol/HttpGateway.cpp:147-173 | after an answer _c2r still names the closed remote while the kernel may hand out that number, to a new client for one |
| Gateways.CloseShrinks | ideas/procpp/mixin_handler/EventManager.cpp:138-161 | closing anything adds no descriptor, removes and queues the one closed, and changes neither the phase of those it leaves nor any connection |
| Gateways.CloseConfinedIff | ideas/procpp/mixin_handler/Protocol/HttpGateway.cpp:90-102 | closing a client closes nobody but its own remote if and only if the number on record for it is nobody's or its own remote's |
| Gateways.StaleClose | ideas/procpp/mixin_handler/Protocol/HttpGateway.cpp:90-102 | otherwise whoever has the number is closed: a client; the upstream of another client, which is left waiting for nobody; or an upstream still connecting, with its client |
| Gateways.StarvedReached | ideas/procpp/mixin_handler/Protocol/HttpGateway.cpp:147-153 | and this is reached in five events: an answer, the end of the batch, another client's request dialled for under the old number, its connecting, and the answered client's hanging up |
| Gateways.StarvedForEver | ideas/procpp/mixin_handler/Protocol/HttpGateway.cpp:19-21 | a client left waiting for nobody gets no answer in any run for as long as it stays connected |
| Gateways.StepSteadyIff | ideas/procpp/mixin_handler/Protocol/HttpGateway.cpp:85-86 | a step keeps every waiting client attended and every record its owner's if and only if the number it hands out, if it does, is on record for no other live client before it |
| Gateways.RunSteadyIff | ideas/procpp/mixin_handler/Protocol/HttpGateway.cpp:85-102 | after every prefix of a run each waiting client has its upstream and no record is a stranger's, if and only if no number was ever handed out while on record for another live client |
| Gateways.ExactlyOneUpstream | ideas/procpp/mixin_handler/Protocol/HttpGateway.cpp:85-102 | in such a run a waiting client has exactly one upstream |
| Gateways.HaltsIff | ideas/procpp/mixin_handler/Protocol/HttpGateway.cpp:142-145 | a step ends the program if and only if it answers a request without a Connection header and with a version shorter than five bytes, or answers any client into a broken pipe |
| GatewayObjects.HttpGateway.OnMessage | ideas/procpp/mixin_handler/Protocol/HttpGateway.cpp:12-46 | its whole effect is that of Gateways.OnMessage, the subject of GatewayPipelining |
| GatewayObjects.HttpGateway.ParseOne | ideas/procpp/mixin_handler/Protocol/HttpGateway.cpp:23-88 | its whole effect is that of Gateways.Parsed, the subject of GatewayPipelining |
| GatewayObjects.HttpGateway.OnClose | ideas/procpp/mixin_handler/Protocol/HttpGateway.cpp:90-102 | its whole effect is that of Gateways.OnClose, the subject of CloseKeeps, CloseConfinedIff and StaleClose |
| GatewayObjects.HttpGateway.OnRemoteConnect | ideas/procpp/mixin_handler/Protocol/HttpGateway.cpp:104-115 | its whole effect is that of Gateways.OnRemoteConnect, the subject of GatewayPipelining |
| GatewayObjects.HttpGateway.OnRemoteMessage | ideas/procpp/mixin_handler/Protocol/HttpGateway.cpp:117-154 | its whole effect is that of Gateways.OnRemoteMessage, the subject of GatewayPipelining, ResponseChunking and HaltsIff; with the re-entrant close of a broken write and the look-up after it |
| GatewayObjects.HttpGateway.OnRemoteClose | ideas/procpp/mixin_handler/Protocol/HttpGateway.cpp:156-166 | its whole effect is that of Gateways.OnRemoteClose, the subject of CloseKeeps |
| GatewayObjects.HttpGateway.CloseRemote | ideas/procpp/mixin_handler/Protocol/HttpGateway.cpp:168-173 | its whole effect is that of Gateways.CloseRemote, the subject of CloseKeeps and OneUpstream |
| ThreadPools.NoWakeupLost | ideas/procpp/mixin_handler/ThreadPool.cpp:21-50 | in every interleaving, spurious wake-ups included: with the mutex free and some worker asleep un-notified, no more tasks are queued than workers notified, so never all asleep with a task queued |
| ThreadPools.TasksOnceInOrder | ideas/procpp/mixin_handler/ThreadPool.cpp:21-50 | submitted tasks are the popped ones followed by the queue, in order; each popped task is held by one worker until it has run once |
| ThreadPools.MutualExclusion | ideas/procpp/mixin_handler/ThreadPool.cpp:23-50 | one thread at a time between lock and unlock, and never a pop from an empty queue |
| ThreadPools.RunKeeps | ideas/procpp/mixin_handler/ThreadPool.cpp:29-50 | the invariant behind these, over every interleaving |
| Reduction.AnyOrderSameResult | ideas/data_structure/thread.cpp:32-40 | however the threads' steps interleave, under the mutex or atomically, the result once all are done is the sequential dot product |
| Reduction.RunKeeps | ideas/data_structure/thread.cpp:88-95 | at every step the result and what threads still owe make the whole product |
| Reduction.Bounds | ideas/data_structure/thread.cpp:42-56 | consecutive segments exactly covering the range, all equal but the last, which takes the remainder |
| Reduction.DotProduct | ideas/data_structure/thread.cpp:33-36 | a thread's loop computes its part |
| Reduction.DotSplit | ideas/data_structure/thread.cpp:33-36 | adjacent parts add up |

## Left out

- Sockets, epoll, timers, signals, fork and daemons, logging and SSL (SSLConnection): the kernel is a source of events,
  descriptor numbers and answers to write.
- The epoll interest set and the results of epoll_ctl: which events epoll can still report is not modelled, so every open
  descriptor may be reported.
- Client::wait, which runs a nested handle_events inside a callback, and the blocking connect.
- The multi-address connect with dup2 and getaddrinfo: the gateway's connect is an attempt that succeeds or fails later, or
  fails at once.
- watch with re_watch on the descriptor being handled: the source calls it impossible, and connect uses it for numbers just handed out.
- HttpProxy.RewritePreservesMeaning: numbers read by atoi are mathematical integers, so for bodies of 2^31 bytes and more it says nothing about the code.
- RedisProtocol.CommandRoundTrip: atol is read the same way, and allocation for a huge announced length always succeeds.
- HttpProxy.HexRoundTrip: text with no hexadecimal digit reads as 0, which the library also stores on failure.
- Tunnels.TunnelFidelity: stated for runs of structural events only; Tunnels.RunPairsIff says that in the other runs a prefix ends with
  a client that is not properly paired.
- Gateways.RunSteadyIff: of a connect that is one attempt under one number; Client::connect by host name
  returns its placeholder descriptor even when all addresses fail at once, after which HttpGateway writes both tables for a
  client already closed.
- Gateways.ExactlyOneUpstream: of the same connect.
- TunnelObjects.Tunnel.OnRemoteConnect: a session task that has to wait for its id is dropped, where the source queues it; a
  master, which is what the model is of, gives every client its id on accepting it.
- Gateways.GatewayPipelining: ON_REQUEST_URI and ON_RESPONSE are taken to leave the request and response as they are, and the text of
  the forwarded packet and of the answer is not modelled.
- GatewayObjects.HttpGateway.OnRemoteConnect: the forwarding write is a record of the request, and its failing is not modelled.
- HttpProtocol.Http.OnMessage: the text of the responses written by the handler is not modelled, only that one may meet a broken pipe.
- SoaProtocol.SoaServer.OnMessage: the text of the responses written by the handler is not modelled, only that one may meet a broken pipe.
- WebSocketProtocol.WebSocket.OnMessage: which answer meets a broken pipe is a parameter; other write errors are not modelled.
- RedisProtocol.RedisClient.OnMessage: callbacks that register or close during the call are not modelled.
- SoaProtocol.SoaClient.OnMessage: callbacks that register or close during the call are not modelled.
- Utf8Codec.Length: the string is at most its own length, so the size_t arithmetic does not wrap.
- The WebSocket handshake. Close codes are in the byte order of a little-endian host, as the source writes them. Frames of control opcodes inside a fragmented message are read as the source
  reads them, as further fragments.
- Proxy's choice of an address in turn (_rr_index), keep-alive options and the EventHook numbering.
- Reduction.AnyOrderSameResult: mathematical integers, so int overflow in the sum is not modelled.
- ThreadPools.TasksOnceInOrder: the pool is never destroyed, and a task's own effects are not modelled.
- Global messages between workers, Socks, SoaProxy, Json, Utf16, the parser generators, and the rest of the repository: not part of this model.
