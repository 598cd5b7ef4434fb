# A verified model of the store-and-forward publish/subscribe broker

The system is a broker in the middle: publishers send UDP datagrams that start with a 50-byte
topic, subscribers hold TCP connections over which they subscribe to patterns (`+` is one level,
`*` is any number of levels), and a client that is away gets what it missed when it comes back, if
it asked for that. This project models the server, the byte stream to the subscriber and the
receiving end of the subscriber, and proves what a client ends up reading.

## How the model is built

| file | what it is |
|---|---|
| `Segments.dfy`, `Matcher.dfy` | splitting into levels and the wildcard matcher: the loop with its five variables, the recursive matcher that tries every expansion, and the meaning of a pattern as a cutting of the topic into pieces |
| `Patterns.dfy` | the same on texts, level by level, in bytes |
| `Bytes.dfy`, `Envelope.dfy`, `Frames.dfy`, `Wire.dfy` | little-endian integers, the envelope around a datagram, length-prefixed frames and the decoder of the subscriber, for any number of bytes each peek returns |
| `Subscriber.dfy` | the subscriber's reading side, imperative, over a socket that hands out bytes in pieces of any size |
| `Broker.dfy` | the broker as its users see it: client id -> connected?, patterns with their flags, queue. No descriptors, no pointers, no counts |
| `Order.dfy`, `Machine.dfy` | the server as a state machine over values: sessions, descriptors, address table, poll list, and the messages written to each connection, the latest on a descriptor number and the earlier ones |
| `Effects.dfy` | what each event does to the whole state, with the request types, field sizes and bytes of the wire written out |
| `Store.dfy`, `Server.dfy` | the server itself: client records and stored messages are objects, `new` and `delete` are a ghost set of live objects, and every handler updates maps, records and reference counts in place |
| `Rounds.dfy` | what one call of `poll` leads to: which entries get their turn, in which order, with which events |
| `Answers.dfy` | the same without the bookkeeping: which entries bring an event about, which event it is, and when the server stops, from what poll reported and the clients sent |
| `Waiting.dfy` | how many rounds a client that has something to say may have to wait |
| `ServerLoop.dfy` | the scan of the poll list while handlers remove and append entries, and the loop around `poll` |
| `Conduct.dfy` | which behaviour keeps descriptors and sessions together, exactly, with descriptor numbers reused in any way |
| `OneClient.dfy` | what the rest of the world must leave alone for one client to be served well, whatever becomes of the others |
| `Connections.dfy` | the successive connections of a client and what is written to them |
| `Guarantees.dfy`, `EndToEnd.dfy` | what all this says about the server's own heap and about the buffers a subscriber's parser is given |
| `Displays.dfy` | what the subscriber's parser shows of these buffers: sender, topic, type and payload of the datagrams that concerned the client |
| `Visits.dfy` | what goes wrong when a hang-up finds a stale record with the same descriptor number |

Three levels refine one another. Each handler of `Server.ServerState` is proved to keep the heap
invariant `Valid` and to make exactly one `Machine.Step` of its view; each `Machine.Step` performs
exactly one `Broker.Apply` on the sessions (`Machine.RunIsBrokerRun`); and `Broker.Delivery` says
what runs of the broker deliver. `Valid` holds the redundancy of the source: subscriber lists
against topic maps, reference counts against queues, the live heap against what is queued, and the
bytes on each connection against the messages written to it, and the open sockets against the poll
list.

## Where the code differs from what it promises

The code is modelled as it is. For each difference below there is a theorem with its exact
condition.

* A topic level that is literally `*` is compared for equality before the pattern's `*` is tried
  (server.cpp:46 before server.cpp:52), so it uses the `*` up as one level. A topic is routed by
  the documented rules against every pattern if and only if it has no such level
  (`Matcher.TopicRoutedExactlyIff`), and a pattern is applied by them to every topic if and only if
  the pattern has none (`Matcher.PatternAppliedExactlyIff`). Both speak of all strings the function
  can be given; a request or a datagram carries at most 50 bytes, and `Matcher.ShortWitness` shows a
  topic and a pattern of that size. A positive answer is always right.
* The subscriber takes a frame of 68 bytes, the size of `tcp_request_t`, for a control message
  (subscriber.cpp:31). Frames are read back exactly if and only if none has that length; when a
  peek may return fewer than four bytes, if and only if none has that length modulo 256
  (`Frames.RoundTripFullPeeks`, `Frames.RoundTripAnyPeeks`). `Frames.MistakenFrame` says what becomes
  of a frame that is mistaken: a wrong buffer, with the last bytes read as a further frame, or the
  end if its bytes 8 to 11 happen to be the word SHUTDOWN.
* The shutdown notice is sent without a length in front, so its first letters are read as a length:
  the branch that looks for SHUTDOWN (subscriber.cpp:39) is never reached by it. It loses no
  message, and the subscriber stops when the connection ends (`Frames.NoticeEndsTheStream`).
* A hang-up is attributed to the first client in id order whose record stores the descriptor
  number, connected or not, and the empty id stands for "nobody". In every run in which connections
  mind their own client, a hang-up marks its client if and only if the id is not empty and no
  smaller id stores the number at that moment (`Conduct.HangupMarksItsClientExactlyIff`).
  `Visits.SecondVisitorStays` shows how a reused number then leaves a client marked as connected
  without a connection, until an EXIT names it.
* Requests are obeyed for the id they name, whoever sends them. Subscribing for somebody else does
  not disturb descriptors or delivery. An EXIT does if it names another client than the one its
  connection claimed, or, on a connection that claimed none, a client that is connected; a second
  CONNECT on one connection always does. `Conduct.StepBoundExactlyIff` proves that these and the
  hang-ups above are all that can go wrong, event by event, and `Conduct.RunBoundExactlyIff` run by
  run.
* A connection that is closed because of a request leaves the scan's index where it is
  (server.cpp:226, 321, 400), so the entry behind it is passed over for this round; the wait this causes is bounded
  (`Waiting.HandledInTime`).
  `Rounds.RoundIsFair` says exactly which ready entries get their turn.

## Model

| member | source | states |
|---|---|---|
| Segments.SplitThenJoin | server.cpp:19-35 | the parts of a text join to the text, hold no slash, and are one more than its slashes |
| Segments.JoinThenSplit | server.cpp:19-35 | a slash-free list is the only one that joins to its text |
| Segments.SplitLoop | server.cpp:19-26 | the find/substr loop computes that split |
| Matcher.RecursionIsCutting | server.cpp:43-80 | trying every expansion of every `*` succeeds exactly when the topic can be cut into one piece per pattern level |
| Matcher.StepIsHonest | server.cpp:46-67 | each iteration keeps: a match of what is left is a match of the whole |
| Matcher.LaterStarSuffices | server.cpp:52-59 | the exchange argument: once a later `*` is reached, every match through the earlier one also passes through the later one |
| Matcher.StepLosesNothing | server.cpp:43-72 | if topic or pattern has no `*` level, an iteration keeps every match reachable, and giving up means there is none |
| Matcher.VerdictSound | server.cpp:43-80 | a true answer is right for all topics and patterns |
| Matcher.VerdictExact | server.cpp:43-80 | the loop with one backtrack point agrees with all expansions as soon as topic or pattern has no level `*` |
| Matcher.TopicMissesPattern | server.cpp:46-50 | every topic with a level `*` has a pattern it matches and is refused for |
| Matcher.PatternMissesTopic | server.cpp:46-50 | every pattern with a level `*` has a topic that matches it and is refused |
| Matcher.TopicRoutedExactlyIff | server.cpp:14-81 | right against all patterns if and only if the topic has no level `*` |
| Matcher.PatternAppliedExactlyIff | server.cpp:14-81 | right for all topics if and only if the pattern has no level `*` |
| Matcher.ShortWitness | server.cpp:46-50 | the topic `*/a/b` matches the pattern `*/b` and is refused |
| Matcher.RoutesSound | server.cpp:14-81 | the same soundness on whole strings |
| Matcher.WideningKeepsMatches | server.cpp:43-80 | replacing a pattern level by `*` loses no topic without a `*` level |
| Matcher.AdjacentStarsCollapse | server.cpp:43-80 | two adjacent `*` levels decide like one |
| Matcher.IterationsBounded | server.cpp:43-72 | the main loop runs fewer than (n+1)(m+1) times |
| Matcher.MatchLoop | server.cpp:37-80 | the imperative loop gives that answer within that bound |
| Matcher.TopicMatchesPattern | server.cpp:14-81 | the whole function: sound always, exact if topic or pattern has no level `*`; `Patterns` spells its answer out in bytes |
| Patterns.MeansByLevels | server.cpp:43-80 | topic and pattern of two levels or more, on texts: a first level `*` takes nothing or one level more, `+` and an equal level take one |
| Patterns.MeansOfOneLevel | server.cpp:43-80 | a topic of one level against a longer pattern |
| Patterns.MeansByOneLevel | server.cpp:43-80 | a pattern of one level: `*` means every topic, `+` every topic without a slash, any other text itself |
| Patterns.RoutesByLevels | server.cpp:46-50 | what the function answers when the pattern begins with `+` or an equal level: as for the rests; and no, when it begins with another text |
| Patterns.RoutesByOneLevel | server.cpp:14-81 | what it answers for a pattern of one level: `*` is refused exactly the longer topics that begin with a level `*` |
| Patterns.PlusIsOneLevel | server.cpp:46 | the pattern that is byte 43 takes exactly the topics without byte 47, and as a last level it takes any last level |
| Bytes.CutAtNulUnique | server.cpp:213-214 | reading a C string out of a field: the only NUL-free prefix followed by a NUL or nothing |
| Bytes.IntRoundTrip | server.cpp:140 | the four bytes of a length, the low one first, read back as that length |
| Bytes.PrefixOfInt | subscriber.cpp:24-25 | a peek of fewer bytes shows the length modulo the width |
| Envelope.RoutingAndDisplayAgree | common.cpp:50-83 | where the parts of an envelope lie; for every datagram the subscriber recovers address, type and payload, and shows the topic the server routed by |
| Envelope.RoutedTopicIs | server.cpp:123-126 | the routed topic is what the first 50 bytes begin with: up to the first 0, or all of them |
| Envelope.EnvelopeInjective | server.cpp:117-120 | an envelope determines address and datagram |
| Envelope.ParseInput | common.cpp:50-83 | the step-by-step extraction computes that parse |
| Frames.PeekedIs | subscriber.cpp:24-25 | the number a peek of 1 to 4 bytes shows, byte by byte |
| Frames.TakeIs | subscriber.cpp:22-64 | one call on any bytes, in literal bytes and lengths: the control branch, the length, the early ends |
| Frames.ControlIs | subscriber.cpp:31-47 | for every frame a peek shows as 68: it stops the subscriber if and only if bytes 8 to 11 of the message are 1, 0, 0, 0; otherwise the buffer is the four length bytes and the first 64 of the message |
| Frames.DecodeIs | subscriber.cpp:152-171 | call after call a buffer is given out and the reading goes on behind it, until a call stops |
| Frames.MistakenFrame | subscriber.cpp:31-47 | and then the last bytes of the message are read as the next frame |
| Frames.TakeFrame | subscriber.cpp:22-64 | a frame is taken whole unless the peek shows 68 |
| Frames.DecodeFrames | subscriber.cpp:22-64 | frames no peek mistakes are handed over one by one, whatever follows |
| Frames.CleanEndSpendsAll | subscriber.cpp:22-64 | conservation: a decoding that ends cleanly has spent every byte of the stream |
| Frames.MistakenFramesSpendLess | subscriber.cpp:31-47 | a list with a frame that is mistaken would spend fewer bytes than its encoding has |
| Frames.RoundTripAtWidth | subscriber.cpp:22-64 | for peeks of w bytes: exact round trip if and only if no length is 68 modulo 256^w |
| Frames.RoundTripFullPeeks | subscriber.cpp:22-64 | for full peeks: exact round trip if and only if no frame is 68 bytes long |
| Frames.RoundTripAnyPeeks | subscriber.cpp:22-64 | for all peeks: exact round trip if and only if no length is 68 modulo 256 |
| Frames.NoticeIs | server.cpp:180-184 | the 68 bytes of the notice, one by one |
| Frames.NoticeEndsTheStream | server.cpp:180-184 | a shutdown notice behind the frames loses none of them and is not recognised as one |
| Wire.StreamGrows | server.cpp:140-141 | writing length and bytes appends one frame |
| Subscriber.Socket.RecvAll | common.cpp:3-18 | whatever pieces recv returns, the buffer holds the next len bytes, or 0 is returned when the stream ends before |
| Subscriber.Socket.RecvString | subscriber.cpp:3-12 | the next len bytes, or the empty string |
| Subscriber.Socket.HandleServerMessage | subscriber.cpp:22-64 | one call consumes exactly what the decoder says for the number of bytes the peek returned (`Frames.TakeIs` spells that out) |
| Subscriber.Socket.Listen | subscriber.cpp:22-64 | calling it until it stops hands over exactly the decoding of the whole stream |
| Broker.AllPatterns | server.cpp:128-161 | uniting what each pattern gives, in any order, is the per-client rule: at once if connected and any pattern matches, stored if not and any matching pattern has the flag |
| Broker.OnePatternMore | server.cpp:132-160 | each further pattern adds its own connected and storing subscribers |
| Broker.RunTidy | server.cpp:237-245 | in every run a connected client has nothing stored |
| Broker.OneStepDelivers | server.cpp:132-161 | one operation turns queue and output into the old queue and what is newly due |
| Broker.Delivery | server.cpp:132-161 | over every run, sent followed by stored is what was stored at the start followed by everything due, in order |
| Broker.ExactlyOnceInOrder | server.cpp:128-161 | each publication is sent or stored exactly once if it concerned the client and never otherwise, all in order of publication |
| Broker.FlagIsLatest | server.cpp:285-308 | a client holds a pattern with a flag exactly when its latest accepted request about it was a SUBSCRIBE with that flag |
| Order.AtMostIs | server.h:26 | the order of the map's keys, byte by byte: a prefix comes first, otherwise the first byte that differs decides |
| Order.First | server.cpp:331-336 | a walk over the client map meets the least id first |
| Machine.BroadcastOneMore | server.cpp:137-143 | one more recipient is one more copy on its descriptor and nothing else |
| Machine.RunIsBrokerRun | server.cpp:358-407 | every run of the state machine is, for its sessions, a run of the broker, one operation per event |
| Machine.OpsNumbered | server.cpp:112-113 | the publications of a run carry increasing numbers |
| Machine.StepKeepsTables | server.cpp:83-345 | every step keeps poll list, address table and client records in step |
| Machine.TablesAlwaysAgree | server.cpp:83-408 | in every reachable state the descriptors are distinct, the client entries are exactly the keys of the address table, and the first three entries are where they were |
| Machine.LookUpFinds | server.cpp:229 | looking up the address of a client entry never inserts a default |
| Machine.HangupMarksExactly | server.cpp:327-345 | the session on the descriptor is marked if and only if its id is not empty and no smaller id stores the same number |
| Effects.SpellsOne | server.cpp:213-214 | every field spells exactly one text: up to its first 0, or all ten or fifty bytes |
| Effects.PaddedSpells | subscriber.cpp:88-93 | a text copied into a zeroed field is the text that is read there |
| Effects.SubscribeAdds | server.cpp:263-289 | type 1 for a known client: it holds exactly the text of the first 50 bytes with that flag, and nothing else changes |
| Effects.UnsubscribeRemoves | server.cpp:291-311 | type 2: it does not hold that text any more, and nothing else changes |
| Effects.ExitLeaves | server.cpp:313-323 | type 0: the client named is marked as gone, and the connection asked on is closed |
| Effects.ConnectRejected | server.cpp:221-226 | type 3 for a connected client: only the connection it came on is closed |
| Effects.ConnectReturns | server.cpp:227-246 | type 3 for a known client that is away: connected again with its patterns, on this descriptor, with everything stored written there |
| Effects.ConnectRecords | server.cpp:247-259 | type 3 for an unknown id: connected, with no patterns and nothing stored |
| Effects.OtherIgnored | server.cpp:216-324 | any other type changes nothing |
| Effects.AcceptOpens | server.cpp:83-99 | a new connection: its address, its entry at the end, an empty stream |
| Effects.HangupCloses | server.cpp:327-345 | a hang-up closes the connection and marks the record with its number whose id comes first byte by byte, unless that id is empty |
| Effects.DatagramSpreads | server.cpp:101-161 | a datagram with that topic text: one copy for each connected client with a matching pattern, on its descriptor; one at the end of the queue of each other client with a matching pattern that has the flag; nothing else |
| Effects.EnabledExactlyIff | server.cpp:83-123 | what can happen: a free number, an address of 4 and 2 bytes, at most 2999 bytes, an entry behind the first three |
| Effects.AddressIsLatest | server.cpp:95 | in every run the address kept for an open connection is that of the latest accept on its number |
| Conduct.StepServes | server.cpp:211-345 | whatever hang-ups go astray: if connections mind their own client, every open connection that claimed an id stays bound to that client, connected |
| Conduct.HangupMarksItsClientExactlyIff | server.cpp:327-345 | in every such run, numbers reused or not, a hang-up marks the client of its connection if and only if its id is not empty and no smaller id stores the number then |
| Conduct.StepBoundExactlyIff | server.cpp:83-345 | from a state in which descriptors and sessions belong together, an event leads to such a state if and only if it is harmless: an exact condition on CONNECT, EXIT and hang-up, none on anything else |
| Conduct.RunBoundExactlyIff | server.cpp:347-408 | a run keeps them together throughout if and only if all its events are harmless |
| Conduct.CleanConnectsSuffice | server.cpp:217-260 | it is enough that no accepted CONNECT comes on a number that a smaller id still stores |
| Conduct.HangupLeavesClaimed | server.cpp:327-345 | in a well-behaved run a hang-up does what the leaving of the client that claimed the connection does, and nothing if none did |
| Conduct.SessionSafety | server.cpp:217-345 | in a well-behaved run connected clients have distinct, open descriptors, and another record with the number of one belongs to a client that is away |
| Conduct.RejectionSparesOwner | server.cpp:221-226 | a duplicate CONNECT closes exactly the connection it came on; no record and no stream changes, and the client it named keeps its own, open descriptor |
| Connections.AcceptReaches | server.cpp:83-99 | a number given out again starts a new stream; what earlier connections were written stays as it is |
| OneClient.StepKeepsId | server.cpp:211-345 | an event that respects one client keeps it bound to its own open connection, however disturbed the others are |
| OneClient.WellBehavedSparesAll | server.cpp:347-408 | a well-behaved run leaves every client undisturbed |
| Connections.StepWrites | server.cpp:101-261 | one event that respects a client writes to its current connection exactly what the broker sends it, and nothing to its earlier ones |
| Connections.WrittenIsSent | server.cpp:137-143 | over every run that leaves a client undisturbed, what was written to its connections one after the other, also on reused numbers, is what the broker sent it |
| Store.RemovedHolds | server.cpp:301-304 | remove and erase take out exactly the client and add no repeats |
| Store.HoldersAfterHead | server.cpp:237-245 | taking the first message off a queue takes exactly that client out of its holders |
| Store.HoldersAfterGrowth | server.cpp:154-157 | storing a message for some clients makes exactly them its holders |
| Store.Contains | server.cpp:271-279 | the search loop finds exactly membership |
| Store.RemoveAll | server.cpp:301-304 | the in-place removal computes the removed list |
| Server.ServerState.constructor | server.cpp:347-355 | the server starts valid, with its three entries and nothing allocated |
| Server.ServerState.SendAll | common.cpp:20-32 | whatever part each send takes, the whole buffer is written once and in order |
| Server.ServerState.SendMessage | server.cpp:140-141 | length and bytes become one frame on the descriptor |
| Server.ServerState.OpenStream | server.cpp:86-98 | a new connection starts with an empty stream, and that of an earlier one on the number is kept |
| Server.ServerState.HandleNewConnection | server.cpp:83-99 | valid again, and exactly the accepting step |
| Server.ServerState.RemoveEntry | server.cpp:342-344 | closes the socket and drops it from both tables, so that the open sockets are still exactly those of the poll list |
| Server.ServerState.FindByFd | server.cpp:330-336 | the first record in id order (`Order.AtMostIs`) that stores the descriptor, or the empty id |
| Server.ServerState.HandleClientDisconnect | server.cpp:327-345 | valid again, and exactly the hang-up step |
| Server.ServerState.AddSubscription | server.cpp:270-286 | lists and topic maps agree again, without repeats, and the client's map has the flag |
| Server.ServerState.RemoveSubscription | server.cpp:298-308 | they agree again without the pattern |
| Server.ServerState.DropReference | server.cpp:241-243 | the count falls with the queue, and the message is freed exactly at its last reference |
| Server.ServerState.SendStored | server.cpp:237-244 | the queue goes out whole and in order, every message live until its own reference is dropped, and the counts are those of the emptied queue |
| Server.ServerState.OfferNow | server.cpp:137-143 | a connected client not yet served gets one copy, one already served none |
| Server.ServerState.OfferLater | server.cpp:144-158 | a disconnected client gets one reference at the end of its queue unless it has it, and the count follows |
| Server.ServerState.Distribute | server.cpp:134-159 | after a pattern's subscribers: its connected ones served, its storing ones given the message; the guard of line 135 never fires |
| Server.ServerState.DistributeAll | server.cpp:132-161 | whatever order the patterns are taken in, each client the message concerns is served or given it exactly once |
| Server.ServerState.HandOutOrDelete | server.cpp:128-166 | counts exact again, the message freed if and only if nobody queues it, sessions and streams as the broker says |
| Server.ServerState.ProcessUdpMessage | server.cpp:101-167 | valid again, and exactly the publishing step |
| Server.ServerState.Reattach | server.cpp:227-246 | the record takes the new descriptor, everything stored goes out on it in order, and the queue is empty |
| Server.ServerState.HandleConnect | server.cpp:227-259 | a client that is not connected takes the descriptor, with everything stored for it sent there, or is recorded anew |
| Server.ServerState.HandleMessage | server.cpp:217-261 | CONNECT: a duplicate is thrown out, a known client comes back, a new one is recorded |
| Server.ServerState.HandleClientRequest | server.cpp:211-325 | for arbitrary requests: valid again, and exactly the step of the request, which `Effects` spells out type by type |
| Server.ServerState.NotifyAll | server.cpp:177-186 | one notice behind the frames of each connected client, nothing elsewhere |
| Server.ServerState.CloseAll | server.cpp:188-193 | no socket stays open but standard input |
| Server.ServerState.ReleaseQueue | server.cpp:197-201 | one queue's references given up, the counts exact for the queues that remain |
| Server.ServerState.FreeAll | server.cpp:195-203 | the nested loops leave no live message and no live client, reading neither after its deletion |
| Server.ServerState.HandleServerCommand | server.cpp:169-209 | stops exactly on the word "exit", with notices sent, every socket closed and the heap empty; otherwise changes nothing |
| Rounds.ScanHandles | server.cpp:362-406 | taking a turn keeps the account of the entries done, including the one passed over behind a connection closed on request |
| Rounds.TurnsOnce | server.cpp:362-406 | no descriptor gets two turns in one scan |
| Rounds.GrownTurns | server.cpp:98 | the entry the listener appends gets no turn in its first scan |
| Rounds.RoundIsFair | server.cpp:362-406 | in a round without shutdown no descriptor is handled twice, and a ready one is handled if and only if the entry before it was not closed on request |
| Answers.HandledExactly | server.cpp:362-406 | the descriptors handled in a round are those its events are about |
| Answers.ThrownExactly | server.cpp:217-323 | those closed on request are those with an EXIT, or a CONNECT of a connected client |
| Answers.StopsExactlyIff | server.cpp:176 | the server stops exactly if the console is readable without an error and its line is the one word with the bytes 101, 120, 105, 116 |
| Answers.FeasibleExactlyIff | server.cpp:102-111 | a round may be any, but for the sizes of the datagram and its sender |
| Answers.EntryAnswered | server.cpp:362-406 | which entries bring an event about: a readable socket without an error; a client with anything to report, unless the entry before it was closed because of a request or the server stops |
| Answers.AnswerIs | server.cpp:366-402 | which event: the datagram received, the connection accepted, and for a client its request if it sent a whole one and did not hang up, and its hang-up otherwise |
| Answers.AnswersInOrder | server.cpp:362-406 | the events come in the order of the list, about polled entries only |
| Answers.OneAnswer | server.cpp:362-406 | no entry brings two about |
| Answers.RequestAnswered | server.cpp:388-401 | a whole request of a client that is not passed over is answered, once, and nothing else happens to its entry in that round |
| Waiting.Moves | server.cpp:362-406 | during a scan a client entry that is not handled keeps its place or moves up, and moves up if the one before it was closed on request |
| Waiting.HandledInTime | server.cpp:357-407 | a client entry at position i that has something to report in every round is handled within i - 2 rounds, unless the server stops first |
| Waiting.RunsAreChains | server.cpp:357-407 | every run of the server without a stop is a chain of rounds of that kind |
| ServerLoop.HandleClientEntry | server.cpp:366-402 | a client entry gives one event about its own descriptor: the request that was read if there is one and no hang-up, otherwise the hang-up; what happens to the list and the index |
| ServerLoop.HandleListener | server.cpp:381-383 | a new connection goes to the end of the list |
| ServerLoop.ScanStdin | server.cpp:384-387 | the scan stops at the console exactly if the line is "exit", with the entries before it done |
| ServerLoop.ServeRound | server.cpp:362-406 | the scan ends, and its events are exactly those of the round for the entries that get their turn, in the order of the list |
| ServerLoop.Serve | server.cpp:347-408 | for any rounds: the run is the one the rounds ask for, up to the first "exit"; the heap is valid, its view that of the run and its reference counts exact, or it is empty after the shutdown |
| ServerLoop.ValidCounts | server.cpp:144-166 | the counts kept by the handlers, spelt out: the live messages are those queued, each count is the positive number of clients queueing it, and no queue repeats one |
| Guarantees.HeapDelivery | server.cpp:132-161 | in every state the server reaches: sent to a client, followed by what its record points to, is what it was due, in order; a connected client's record points to nothing |
| Guarantees.OpenSockets | server.cpp:83-99 | in every state the server reaches the open sockets are exactly those of the poll list: none leaks, none in use is closed |
| Guarantees.SubscriptionsAgree | server.cpp:263-311 | in every such state list and map agree on each subscription, lists have no repeats, and the flag is that of the latest request |
| Broker.DueByTheRules | server.cpp:132-161 | when no published topic has a level `*`, a client is due exactly what the documented rules for patterns say |
| Frames.RightByChance | subscriber.cpp:31-47 | why exactness needs the end of the stream as well: a frame of 68 bytes whose buffer comes out right although it was mistaken |
| EndToEnd.HeardIsWritten | subscriber.cpp:22-64 | what the parser is given, connection after connection, is what was written, with or without a notice at the end |
| EndToEnd.EndToEndDelivery | server.cpp:101-261 | for every client the run leaves undisturbed, with descriptor numbers reused: the buffers its parser is given, followed by those still stored, are the envelopes it was due, each once and in order |
| EndToEnd.EndToEndShutdown | server.cpp:169-209 | the same after the shutdown, with what the last state had stored; that part is lost with the process |
| EndToEnd.NoticeReaches | server.cpp:177-186 | an undisturbed client that is connected at the shutdown gets one notice behind the frames of its last connection, and none anywhere else |
| EndToEnd.EndToEndByTheRules | server.cpp:101-261 | the same while the server runs, by the documented meaning of patterns, in runs whose topics have no level `*` |
| EndToEnd.LengthsDecide | server.cpp:111-120 | its hypothesis on the peeks holds for an undisturbed client if no envelope of the run has 68 bytes modulo 256 |
| EndToEnd.ClientReadsExactlyIff | subscriber.cpp:22-64 | all connections of a client are read to their clean ends for all peeks if and only if no message sent to it has 68 bytes modulo 256 |
| EndToEnd.ReadBackExactlyIff | subscriber.cpp:22-64 | the same for any single connection, whatever the clients do |
| Displays.DueEventsExactly | server.cpp:132-161 | the datagrams a client is due are those that came while it held a matching pattern and was connected or held it with the flag |
| Displays.DueEventsIncrease | server.cpp:132-161 | they are listed once each, in the order in which they came |
| Displays.EndToEndDisplay | common.cpp:50-83 | for an undisturbed client: what its parser shows of the buffers it is given, followed by those stored, is datagram by datagram the sender, the routed topic, the type and the payload of what it was due, all of it, in order |
| Displays.EndToEndDisplayShutdown | common.cpp:50-83 | the same after the shutdown, with what the last state had stored |
| Visits.VisitEnds | server.cpp:327-345 | with nobody else connected, a client that came and hung up stays marked as connected if and only if its id is empty or a smaller id stores its descriptor number |
| Visits.SecondVisitorStays | server.cpp:327-345 | two visitors on the same descriptor number: the second is left connected without a connection if and only if its id is the greater one |

The constants and definitions of the model are tied to the source's own numbers and bytes by
`Patterns` (the wildcards and the slash), `Frames.TakeIs` and `Frames.NoticeIs` (lengths and control
words), `Effects` (request types, field sizes, the first 0 of a field, every part of the state) and
`Answers` (poll's reports, the exit word), which name none of these constants.

The definitions the rows rest on: `Matcher.Advance` and `Matcher.Scan` (the loop),
`Matcher.MatchesFrom` and `Matcher.Matches` (the meaning), `Frames.Take` and `Frames.Decode` (the
subscriber), `Broker.Apply`, `Broker.Output` and `Broker.Due` (the broker), `Machine.Enabled`,
`Machine.OpOf` and `Machine.Step` (the state machine), `Rounds.Turns`, `Rounds.Reports` and
`Rounds.Served` (what rounds ask for), and `Conduct.WellBehaved` (every event is
harmless: a connection says CONNECT once; an EXIT names the client its connection claimed, or
nobody who is connected; a hang-up of a connection that claimed an id finds that
id non-empty and no smaller one with the same number). `OneClient.Undisturbed` is the same for a
single client: its own connections say CONNECT once and their hang-ups find it, nobody else says
EXIT for it, and it connects where nothing was written and no other connected record has the number.
That the invariants follow from `Valid` is not the point of a row such as `ServerLoop.ValidCounts`:
the work is in the handlers, each of which is proved to keep `Valid`.

## Left out

- Sockets, `poll`, `accept`, `setsockopt`, `fgets`, `strtok` and printing: what they yield is a parameter (`Rounds.Round`) or a free choice (the size of every piece `send` and `recv` handle, the bytes a peek returns).
- Failures of system calls: the source ends the process (`DIE`). A send to a descriptor that is no longer open is such a failure; `Conduct.SessionSafety` shows that none happens in well-behaved runs, and in other runs the model goes on writing to the stream of the last connection on that number.
- ServerLoop.Serve: finitely many calls of `poll`; a single datagram and a single request per ready descriptor and round, as in the source.
- ServerLoop.ServeRound: the source returns from inside the loop on shutdown; the model leaves the loop by its condition.
- Server.ServerState.FindByFd: the order of the client map is that of `std::map`; the map of subscriptions is walked in an arbitrary order, which is more general.
- EndToEnd.EndToEndDelivery: concerns clients that read each connection to its end; bytes that were written and never read are lost in the source as well, since the server keeps no acknowledgement.
- Subscriber.Socket.HandleServerMessage: a read that ends early is the end of the connection, and the allocation of as many bytes as a length says is assumed to succeed.
- Server.ServerState.constructor: is given three different descriptors, as `ServerLoop.Serve` is; the operating system never hands out the number of an open file.
- Machine.TablesAlwaysAgree: needs that `accept` returns no number that is open, which is what the operating system promises.
- The poll list is a field of the server's state object instead of a local passed by reference.
- Integers are unbounded: the reference count would have to exceed 2^31 clients to matter; lengths are kept below 2^31 by the receive buffer. Hosts are little-endian and `tcp_request_t` has 68 bytes.
- The layout of a request (id, topic, flag, type) is taken as already cut into fields; which bytes hold them is the compiler's business on both ends.
- INT, SHORT_REAL, FLOAT and STRING rendering of the payload: formatting and binary floating point, with no bearing on delivery.
- `string_to_argv`, `process_user_command`, both `main` functions, `configure_socket`: thin plumbing that would only add easy members.
- The globals `ids`, `topics` and `ips_ports` (server.cpp:5-7), which nothing uses.
- The test driver and the UDP client.
