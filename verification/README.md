# Verification model of jrpc and its chat server

This project models the outbound message pipeline of jrpc, a JSON-RPC server library on top of libwebsockets, and
the chat server that comes with it, and proves what they guarantee over whole runs.

There are two halves.

- **A state machine over server events.** `Pipeline` is the machine of all connections: queues, pending writable
  callbacks, what was accepted and what was written. Handlers are left open there: an event may come with any
  messages to any connections, so its theorems hold for every server built on the library. `ChatRoom` gives the chat
  application's handlers, and `ServerModel` puts them (or the library's default handlers) on top of the pipeline.
  `ServerInvariants`, `BroadcastOrder`, `NameAccounting` and `Replies` prove what holds in every run.
- **The program on its heap.** `MessageQueue`, `ConnectionBlock`, `Network` and `Server` are classes with the fields
  of the C structures: the linked list with its `first`, `last` and `next` pointers, the per-session blocks that are
  used again after a connection is closed, the map of chatters. Each method is proved to do what the machine does.
  `Server.JrpcServer.Serve` closes the gap: for any events, and however the choices left open may fall, the program goes
  through the run of the machine, so every theorem about runs of the machine is one about the program. `Network` keeps
  books on every message the allocator ever gave out, which `Serve` carries over the whole run.

The message queue is there twice more, on its own. `IndependentQueues` says what any number of queues used in any order
should be: independent sequences. `QueueHeap` proves it of the linked lists, messages moving from queue to queue with
stale `next` pointers, and `MessageLayout` and `QueueLayout` prove it of the bytes in memory, with `next` a word in the
header of a message and libwebsockets writing into the gaps before the payloads. `WireBytes` puts the pipeline and the
chat server on top of that memory: in every run, the bytes handed to libwebsockets are the printed bodies of the
machine's messages. `AlikeRuns` shows that whatever allocations turn out to fail, the run is one of the machine.

`Jansson` and `Rpc` hold the JSON values, the message builders and the classification of received texts, and
`ChatClient` the browser's side, up to what a page shows of the wire of its connection. `ReceivedTexts` and `PageTexts`
say what the server and the page do with any received text, field by field, and with which fields in the messages sent,
without the functions that the models are made of.

## How the model is set up

- A pointer to a connection is its address, a number. Addresses are used again.
- What the program leaves open is a `Choice`: the order in which a loop visits the hash map of chatters, and which
  allocations of messages succeed. It is given to the machine and to the methods of the program as an input, and
  theorems quantify over it. Where an allocation matters, the theorem says which: `Replies.AllGranted`,
  `BroadcastOrder.Missed` and `ServerInvariants.Reached` are about the messages to one connection only.
- The allocator of `QueueLayout` is advised where to put each allocation and grants it if there is room. The advice is
  an input that theorems quantify over; what was granted is recorded.
- libwebsockets is a pending flag and a log of what was written. It may deliver any event to an open connection at
  any time, a writable callback also without a request for one. A received text arrives whole; what it says when it
  is loaded is part of the event, `None` standing for a text that does not load.
- Each packet carries its origin: the position of the broadcast it belongs to, if any. This is bookkeeping that the
  program does not have; `ServerInvariants.Chronicled` ties it to the visible body. The same holds for the logs
  `accepted`, `ended` and `history`.
- A loaded text has no string with an embedded NUL, since jrpc loads texts without the flag that would allow one.
  So C strings and strings of the model agree.
- The loop of `announce` and the loop of `chat` differ only in the message; they are one method,
  `Server.JrpcServer.NotifyAll`.
- Callbacks for reasons the code does not handle do nothing but the tail: the event `Other`. Callbacks without a
  connection do nothing at all.
- libwebsockets is taken to know the protocol of every connection it makes a callback for.

## Results that are not what the documentation says

- The id of a response is documented to repeat that of the request. It does exactly when the id fits a C `int`;
  otherwise it is congruent modulo 2^32 (`Rpc.IdEcho`, with an input in `Rpc.IdNotRepeated`).
- For each request one response is promised. Each request with an integer id gets exactly one, in order, if and only
  if the allocations of the answers to that connection succeed (`Replies.OneResponsePerRequest`, and
  `Replies.DefaultServerSession` for the default handlers); a request that is never answered is in
  `Replies.UnansweredRequest`.

## Model

| member | source | states |
|---|---|---|
| Jansson.NarrowIsCongruent | lib/jrpc/protocol.c:56 | storing a 64-bit id in an `int` yields the one 32-bit integer congruent to it modulo 2^32 |
| Rpc.NotificationClassified | lib/jrpc/connection.c:94-105 | a built notification would be dispatched with the same method and params exactly when params is an array or object, and dropped otherwise |
| Rpc.ResponseNotDispatched | lib/jrpc/connection.c:65-92 | no response or error response is ever dispatched by a server, whatever its result contains |
| Rpc.IdEcho | lib/jrpc/protocol.c:54-57 | from dispatch through the builders, the id that comes back is congruent to the request's modulo 2^32 and equal to it if and only if it fits an `int` |
| Rpc.IdNotRepeated | README.md:68 | an id for which the documented promise to repeat the id fails |
| Pipeline.DeliverAllAt | lib/jrpc/connection.c:31-44 | any sequence of sends to any connections appends to each queue exactly the packets sent to it that had memory, in order |
| Pipeline.NextAt | lib/jrpc/protocol.c:87-137 | what an event does to a connection depends on that connection and the messages sent to it only |
| Pipeline.EstablishedAt | lib/jrpc/protocol.c:96-102 | an established connection starts from an empty queue whatever its address was used for |
| Pipeline.ClosedAt | lib/jrpc/protocol.c:103-109 | on close, what the handler still sends is accepted, and the whole remaining queue and nothing else is discarded |
| Pipeline.NetInvStep | lib/jrpc/protocol.c:87-137 | one event keeps: accepted = written ++ queued for open and written ++ discarded for closed connections, and a non-empty queue has a callback pending |
| Pipeline.NetInvRun | lib/jrpc/protocol.c:70-140 | conservation, FIFO order and no stranded message in every run, for any handlers |
| Pipeline.TailNeeded | lib/jrpc/protocol.c:134-137 | without the tail of the callback, a writable callback strands messages exactly when more than one was queued |
| Pipeline.TailRearms | lib/jrpc/protocol.c:134-137 | from any state, every callback leaves a further one pending if something is queued for its connection |
| Pipeline.PendingAfterCallback | lib/jrpc/protocol.c:116-137 | after a writable callback one is pending if and only if something is queued |
| Pipeline.NoIdleRequest | lib/jrpc/connection.c:36-40 | no callback is requested for a connection that nothing is sent to and that has nothing queued |
| Pipeline.StreamRun | lib/jrpc/protocol.c:116-123 | over any run in which a connection stays open: the stream of written and queued messages is only extended at its end, and each callback writes at most one and, of the original queue, exactly one message |
| Pipeline.DeliveredByCallback | lib/jrpc/protocol.c:116-137 | a message behind k others is written by exactly the (k+1)-th later writable callback, whatever else happens |
| Pipeline.Drained | lib/jrpc/protocol.c:116-137 | over any run without further sends to a connection that stays open, whatever else happens: w callbacks write exactly the first w queued messages, and of a queue that was not empty, a callback is pending if and only if something is left |
| Pipeline.DrainIsPossible | lib/jrpc/protocol.c:134-137 | n callbacks in a row are possible when n messages are queued, write them all and leave nothing pending |
| ServerModel.RunsThePipeline | lib/jrpc/protocol.c:70-140 | every run of a server is a run of the pipeline with the same events |
| ServerInvariants.FanOutDelivered | example/chat-server/main.cc:69-78 | for any order of a loop over the chatters, each gets the message exactly once, if there is memory for it |
| ServerInvariants.EveryoneIsVisited | example/chat-server/main.cc:69-78 | a loop visits every chatter once and nobody else; if no allocation in it fails, all of them are reached |
| ServerInvariants.EverythingCanHappen | lib/jrpc/protocol.c:87-137 | in every state each event is possible, with any memory, exactly when its address is open, or not in use if it is being established |
| ServerInvariants.SendsAreDue | example/chat-server/main.cc:82-196 | the handlers send each connection the answer it is owed and then the broadcast of the turn, and nothing else |
| ServerInvariants.ReceiveDelivered | lib/jrpc/protocol.c:49-64 | the same for received texts: requests are answered, chat lines broadcast, everything else ignored |
| ServerInvariants.HistoryGrows | example/chat-server/main.cc:64-79 | exactly the announcements and chat lines that are called for are broadcast |
| ServerInvariants.SendsAreLive | example/chat-server/main.cc:185-196 | no message of any handler goes to a connection that is not open |
| ServerInvariants.ChattersAfter | example/chat-server/main.cc:82-196 | how each event changes the map of chatters |
| ServerInvariants.WiredStep | example/chat-server/main.cc:179-196 | the chatters are the open connections, and each entry names its own key, after every event |
| ServerInvariants.NamesUniqueStep | example/chat-server/main.cc:50-62 | no two chatters share a non-empty name, after every event |
| ServerInvariants.LogsInvStep | example/chat-server/main.cc:64-79 | every log holds broadcasts in the order and with the content of the history, after every event |
| ServerInvariants.Reachable | example/chat-server/main.cc:113-196 | all invariants in every reachable state of the chat server |
| ServerInvariants.FreshStart | example/chat-server/main.cc:179-183 | a reused address starts with an empty queue and an empty name, and others are unaffected |
| BroadcastOrder.WireFollowsHistory | example/chat-server/main.cc:69-78 | in every run, failing allocations included, the notifications on any wire are a subsequence of one global history |
| BroadcastOrder.SameOrderForAll | example/chat-server/main.cc:148-157 | no two connections, open or closed, are written two broadcasts in opposite orders |
| BroadcastOrder.BroadcastDelivered | lib/jrpc/protocol.c:116-137 | every announcement and chat line is on the wire of every open connection that had memory for it, right where it was queued, once there was one callback more than messages before it |
| BroadcastOrder.CompleteRun | example/chat-server/main.cc:148-157 | a connection that stays open is sent exactly what enters the history, for any loop order, if and only if none of its own copies fails; failures elsewhere do not matter |
| BroadcastOrder.OnlyOwnFailuresCount | example/chat-server/main.cc:69-78 | nothing is missed if and only if, in each turn with a broadcast, the copy for the connection itself had memory |
| BroadcastOrder.JoinerSeesEverything | example/chat-server/main.cc:179-183 | from joining on, the notifications accepted for a connection are the history from there if and only if it missed nothing, and those written are then a prefix of it |
| BroadcastOrder.ResponseBeforeArrival | example/chat-server/main.cc:93-99 | a successful `set_name` queues the response and after it the requester's own announcement, each if there is memory for it, and nothing else |
| BroadcastOrder.ResponsePrecedesArrivalOnWire | example/chat-server/main.cc:93-99 | when both were queued, at any later time the announcement is on the wire only right behind that response |
| BroadcastOrder.FarewellNotWritten | example/chat-server/main.cc:185-196 | a leaver's farewell is queued to it, if there is memory, and discarded, never written to it, and enters the history for the others |
| BroadcastOrder.WholeSession | lib/jrpc/protocol.c:96-109 | the record of a whole session in which nothing was missed: broadcasts accepted are the history from joining to leaving, and those written a prefix without the farewell |
| NameAccounting.NamesAccountedFor | example/chat-server/main.cc:82-111 | for every name in every run, announced arrivals = announced departures + present holders + renames away (joins counting as arrivals of the empty name), and a non-empty name has at most one holder |
| NameAccounting.AccountingStep | example/chat-server/main.cc:185-196 | each event keeps the books of every name balanced |
| NameAccounting.RejectedNameChangesNothing | example/chat-server/main.cc:87-109 | a rejected `set_name`, for one's own current name too, changes no name and sends the error to the requester alone |
| NameAccounting.StaysUnused | example/chat-server/main.cc:50-62 | a name that nobody has stays so over any run in which nobody asks for it |
| NameAccounting.LeavingFreesTheName | example/chat-server/main.cc:185-196 | after a disconnect the name is unused, and whatever happens in between, the next request for it succeeds and its sender is the only holder |
| Replies.AnswersRun | lib/jrpc/protocol.c:49-64 | the responses accepted for a connection are, position by position, the answers to its requests that had memory |
| Replies.OneResponsePerRequest | README.md:34 | since a connection was established: responses accepted are the answers in order, responses written a prefix; there is one for each integer-id request, with its id, if and only if its answers had memory |
| Replies.AnsweredExactly | README.md:34 | never more answers than requests, and as many if and only if each had memory |
| Replies.UnansweredRequest | README.md:34 | a run in which a valid request leaves its connection without any message |
| Replies.ResponsesOfSession | lib/jrpc/protocol.c:96-109 | the record of a closed connection: the responses accepted are the answers to its requests, those written a prefix, complete with its ids if and only if each answer had memory |
| Replies.DefaultServerAnswers | lib/jrpc/protocol.c:142-148 | with the default handlers, each valid integer-id request for whose answer there is memory, and nothing else, is answered, with "not implemented" |
| Replies.DefaultServerSession | lib/jrpc/protocol.c:142-169 | for a whole connection: the wire is a prefix of the answers with memory, and all requests are answered if and only if each answer had memory |
| Replies.DefaultSessionRecord | lib/jrpc/protocol.c:96-109 | the same for the record of a closed connection of a server with the default handlers |
| ChatClient.ClientClassifies | example/chat-server/www/js/startup.js:115-128 | built notifications reach the client's notification handler with method and params, both kinds of responses its response handler |
| ChatClient.ResponsesShown | example/chat-server/www/js/startup.js:102-113 | a successful response shows nothing, an error exactly when it answers the client's own request, with its message or a default one |
| ChatClient.SetNameRoundTrip | example/chat-server/www/js/startup.js:83-113 | the answer to a request for a name is on the wire where it was queued once there was one callback more than messages before it, and makes the page show an error exactly when the name was in use |
| ChatClient.ChatDispatched | example/chat-server/www/js/startup.js:143-148 | a submitted line is dispatched as a notification and broadcast once under the sender's current name, with no answer to anybody |
| ChatClient.ChatDelivered | example/chat-server/main.cc:138-159 | in every later run, a chat line is on the wire of every open connection that had memory for it, right where it was queued, once there was one callback more than messages before it, under the sender's name at processing time |
| ChatClient.ChatRoundTrip | example/chat-server/www/js/startup.js:92-96 | the page of every such connection shows the line that the other page submitted, with name and text |
| ChatClient.StrangersAreNotHeard | example/chat-server/main.cc:161-177 | no notification from an address without a chatter changes anything or causes a message, in any state |
| ChatClient.StaysStranger | example/chat-server/main.cc:179-183 | an address without a chatter gets one only by being established, over any run |
| ChatClient.LeaversAreNotHeard | example/chat-server/main.cc:185-196 | however long ago a connection left: if it has not joined again, no chat line from it causes a message |
| ChatClient.NeverJoinedNotHeard | example/chat-server/main.cc:161-177 | the same for a connection that never joined |
| ChatClient.Page.OnMessage | example/chat-server/www/js/startup.js:115-128 | the page after a received text: the line shown, if any, and the connection given up exactly when an error is shown |
| ChatClient.Page.OnMessages | example/chat-server/www/js/startup.js:115-128 | the page after all texts that arrived over its connection |
| ChatClient.PageFollowsHistory | example/chat-server/www/js/startup.js:92-100 | in every run, a page that reads its wire shows, besides errors, lines of the one global history in the order of the history |
| ChatClient.PageShowsEverything | example/chat-server/www/js/startup.js:92-100 | if nothing was missed, these lines are those of all broadcasts since it joined, up to where its wire has come |
| MessageQueue.Queue.Init | lib/jrpc/queue.c:31-36 | an empty queue, whatever was in memory |
| MessageQueue.Queue.IsEmpty | lib/jrpc/queue.c:52-56 | looking at `first` alone tells whether the sequence is empty |
| MessageQueue.Queue.Append | lib/jrpc/queue.c:58-74 | the sequence with the message at its end, whatever stale `next` it comes with |
| MessageQueue.Queue.Dequeue | lib/jrpc/queue.c:76-91 | the first of the sequence or null, and the rest of the sequence |
| MessageQueue.Queue.Cleanup | lib/jrpc/queue.c:38-50 | terminates, gives back every reachable message once, none being read afterwards, and leaves a usable empty queue |
| MessageQueue.CreateMessage | lib/jrpc/message.c:44-60 | a new message, or null exactly when there is no memory; the allocator has given out that message and no other |
| IndependentQueues.EachIsFifo | lib/jrpc/queue.c:58-91 | over any interleaving of operations on any number of queues, each queue gives out what was put into it, in that order |
| IndependentQueues.HeldSince | lib/jrpc/queue.c:31-50 | what a queue holds is what was put in since its last init or cleanup, or what it started with, and not taken out |
| IndependentQueues.AnswerAt | lib/jrpc/queue.c:52-56 | at any point of any run, a queue is said to be empty if and only if as much was taken out as was in it or put in since its last init or cleanup; no other operation gives an answer |
| QueueHeap.Queues.Append | lib/jrpc/queue.c:58-74 | among many queues on one heap, a message that came out of any of them goes to the end of one, and the others do not change |
| QueueHeap.Queues.Dequeue | lib/jrpc/queue.c:76-91 | the first message of one queue is out of it, with the `next` it had there, and the others do not change |
| QueueHeap.Queues.Cleanup | lib/jrpc/queue.c:38-50 | all messages of one queue are given back, and no other message |
| QueueHeap.Queues.Disjoint | lib/jrpc/queue.c:58-74 | no message is in two queues at any time |
| QueueHeap.Queues.Perform | lib/jrpc/queue.c:31-91 | any run of init, append, dequeue, is_empty and cleanup on any number of queues does what it does to independent sequences, and gives the same answers |
| ConnectionBlock.Connection.Init | lib/jrpc/connection.c:46-57 | a connection as new, whatever was in its block |
| ConnectionBlock.Connection.Send | lib/jrpc/connection.c:31-44 | the message is queued and a callback requested, or nothing changes when there is no memory |
| ConnectionBlock.Connection.WriteOne | lib/jrpc/protocol.c:116-123 | the first message is written and then given back, and belongs to the connection no more; the others stay queued |
| ConnectionBlock.Connection.Cleanup | lib/jrpc/connection.c:59-63 | all that is queued is given back, and belongs to the connection no more |
| Network.Connections.Send | lib/jrpc/connection.c:31-44 | on a heap with any number of connections, only the addressed one changes; what the allocator has given out is what is in the books, one message more if there was memory |
| Network.Connections.Establish | lib/jrpc/protocol.c:96-101 | a connection is opened in a new or an old block, and the books on what was in that block before stay |
| Network.Connections.Cleanup | lib/jrpc/protocol.c:103-109 | the connection is gone, the record of it has its logs and its discarded queue, and exactly the messages queued are given back and booked as discarded |
| Network.Connections.WriteOne | lib/jrpc/protocol.c:116-123 | one connection's first message moves from its queue to its wire, is given back and booked so, and no other |
| Network.Connections.Rearm | lib/jrpc/protocol.c:134-137 | the tail requests a callback for a connection with queued messages |
| Network.Connections.Accounted | lib/jrpc/queue.c:38-50 | each message the allocator ever gave out is in exactly one place: in the queue of one connection, or written and given back, or discarded and given back |
| Server.JrpcServer.Respond | lib/jrpc/connection.c:65-75 | sends the response to the connection |
| Server.JrpcServer.RespondError | lib/jrpc/connection.c:77-92 | sends the error response to the connection |
| Server.JrpcServer.SendNotification | lib/jrpc/connection.c:94-105 | sends the notification to the connection |
| Server.JrpcServer.NameUsed | example/chat-server/main.cc:50-62 | the loop finds the name if and only if some chatter has it, in any order |
| Server.JrpcServer.NotifyAll | example/chat-server/main.cc:148-157 | the loop over the chatters, in whatever order, queues the message to each chatter for which there is memory, as the machine's broadcast does |
| Server.JrpcServer.Announce | example/chat-server/main.cc:64-79 | the same for announcements |
| Server.JrpcServer.SetName | example/chat-server/main.cc:82-111 | does what the machine's handler does, for every choice |
| Server.JrpcServer.GiveName | example/chat-server/main.cc:91-100 | sets the name, then responds, then announces, as the machine's rename does |
| Server.JrpcServer.OnMethod | example/chat-server/main.cc:113-136 | does what the machine's handler does, for every choice |
| Server.JrpcServer.SendChat | example/chat-server/main.cc:138-159 | does what the machine's handler does, for every choice |
| Server.JrpcServer.OnNotify | example/chat-server/main.cc:161-177 | does what the machine's handler does, for every choice |
| Server.JrpcServer.OnConnected | example/chat-server/main.cc:179-183 | does what the machine's handler does, for every choice |
| Server.JrpcServer.OnDisconnected | example/chat-server/main.cc:185-196 | does what the machine's handler does, for every choice |
| Server.JrpcServer.Process | lib/jrpc/protocol.c:35-68 | classifies and dispatches a received text as the machine does |
| Server.JrpcServer.Callback | lib/jrpc/protocol.c:70-140 | one event, with any choices, takes the program to the state the machine reaches, and keeps the program's invariant and the books; only a writable callback gives back a written message, and only a close discards |
| Server.JrpcServer.Serve | example/chat-server/main.cc:301-305 | any run of the machine is the run of the program with the same events and choices; over the run no message leaves the books, and each is in exactly one place |
| MessageLayout.SizeIsExact | lib/jrpc/message.c:47-48 | the allocation is exactly header, gap and payload if and only if the sum of the sizes does not wrap around |
| MessageLayout.ValueOfBytes | lib/jrpc/message.c:52-54 | a stored word reads back as the value stored |
| MessageLayout.Create | lib/jrpc/message.c:44-60 | header, gap and payload lie one after the other at the address; the header holds no successor, where the payload is, and its length; no other memory changes |
| MessageLayout.StaysLaidOut | lib/jrpc/message.c:52-54 | a message is unaffected by whatever is written outside of it, into its gap or into its `next` |
| QueueLayout.ChainUnique | lib/jrpc/queue.c:42-47 | following `next` from `first` finds one and the same list of messages, which ends |
| QueueLayout.Extended | lib/jrpc/queue.c:62-67 | storing the address of a message without successor in the `next` of the final one extends the list by that message |
| QueueLayout.Shortened | lib/jrpc/queue.c:79-88 | moving `first` on to the `next` of the first message leaves the rest of the list |
| QueueLayout.ByteQueues.Create | lib/jrpc/message.c:44-60 | a message is created if and only if the allocator answers with an address, and lies there with its text; no queue and no other message is affected |
| QueueLayout.ByteQueues.Append | lib/jrpc/queue.c:58-74 | the words in memory after an append make up the longer sequence of texts, and the other queues as before |
| QueueLayout.ByteQueues.Dequeue | lib/jrpc/queue.c:76-91 | the words in memory after a dequeue make up the shorter sequence, and the other queues as before |
| QueueLayout.ByteQueues.Cleanup | lib/jrpc/queue.c:38-50 | every message of the queue is given back once, its `next` read before, whatever is in its memory afterwards; the other queues are as before |
| QueueLayout.ByteQueues.Release | lib/jrpc/message.c:62-66 | memory that was given back may be overwritten and had again; no queue and no other message is affected |
| QueueLayout.ByteQueues.UseGap | lib/jrpc/protocol.c:120 | writing into the gap before any payload leaves all queues and all messages as they were |
| QueueLayout.ByteQueues.Rewrite | lib/jrpc/message.c:37-42 | writing up to `length` bytes where `data` points changes the text of that message, and no queue and no other message |
| QueueLayout.ByteQueues.WriteOne | lib/jrpc/protocol.c:116-123 | the bytes handed over are the text of the first message, even when a header is put before them; that message alone is given back |
| QueueLayout.ByteQueues.Perform | lib/jrpc/queue.c:31-91 | any run of operations on any number of queues in memory, with the gaps written into at any time, does what it does to independent sequences of texts, and stops only at a creation that the allocator did not grant |
| AlikeRuns.RechosenTurn | example/chat-server/main.cc:64-79 | whatever allocations succeed while a turn is handled, there is a choice under which the handlers make exactly those sends, with the same effect on the room |
| AlikeRuns.RechosenRun | example/chat-server/main.cc:82-196 | and so over whole runs, from states that differ in queues and logs only |
| AlikeRuns.ServerAddresses | example/chat-server/main.cc:179-196 | in every run of the chat server all messages go to open connections |
| AlikeRuns.Unfailed | lib/jrpc/connection.c:35-40 | a run is the one in which everything is stored if and only if every allocation of it was granted |
| AlikeRuns.UnfailingRun | example/chat-server/main.cc:69-78 | if every allocation of a run was granted, no connection misses a broadcast while it is open and every request is answered |
| WireBytes.ByteServer.Send | lib/jrpc/connection.c:31-44 | the printed body is queued in memory if and only if the allocator answers with an address, as the machine queues the message |
| WireBytes.ByteServer.Callback | lib/jrpc/protocol.c:70-140 | one event on the memory does what the machine does when exactly the messages are stored that the allocator granted |
| WireBytes.ByteServer.Serve | lib/jrpc/protocol.c:116-121 | over any run, what is in memory and what was handed over on the wires of open and closed connections are, byte for byte, the printed bodies of the machine's messages; stored is exactly what the allocator granted, and everything if it granted everything |
| WireBytes.ByteServer.ServeChat | example/chat-server/main.cc:301-305 | the same for the chat server: the bytes are those of a run of it with the same events, orders and failures; if the allocator granted everything, nobody missed a broadcast and every request was answered |
| ReceivedTexts.Classification | lib/jrpc/protocol.c:42-62 | for every text, by its fields: a request if and only if it is an object with a string method, structured params and an integer id, a notification if the id is missing or anything else, and nothing otherwise |
| ReceivedTexts.BuiltTexts | lib/jrpc/connection.c:65-105 | exactly which fields the built responses, errors and notifications have, with which values |
| ReceivedTexts.ChatTexts | example/chat-server/main.cc:64-79 | the same for announcements, chat lines and the result of a renaming |
| ReceivedTexts.NeitherIsIgnored | lib/jrpc/protocol.c:45-50 | a text that is neither request nor notification leaves the whole state as it was |
| ReceivedTexts.NameWithoutString | example/chat-server/main.cc:87-107 | a request for a name whose params are an object, empty, or start with no string gets "invalid params" and changes nothing else |
| ReceivedTexts.NameTaken | example/chat-server/main.cc:101-104 | a request for a name that some chatter has, the requester itself or an unnamed one too, gets "name already used" and changes nothing else |
| ReceivedTexts.NameGiven | example/chat-server/main.cc:89-99 | a request for a name that nobody has: the result with that name, the new name in the map, and the announcement to all |
| ReceivedTexts.OtherRequest | example/chat-server/main.cc:126-129 | any other request gets "not implemented" and changes nothing else |
| ReceivedTexts.ChatLineSent | example/chat-server/main.cc:138-159 | a chat line, whatever id that is no integer it has: one broadcast with name and line, and no answer |
| ReceivedTexts.OtherNotice | example/chat-server/main.cc:161-177 | any other notification leaves the whole state as it was |
| ReceivedTexts.StrangerAsks | example/chat-server/main.cc:131-135 | in any state, a request from an address without a chatter gets "invalid connection" |
| ReceivedTexts.NothingToDo | example/chat-server/main.cc:179-196 | inserting a chatter that is there and removing one that is not change nothing |
| ReceivedTexts.LeaveTold | example/chat-server/main.cc:185-196 | when a chatter leaves, those who stay are sent the announcement, and nothing else happens to them |
| ReceivedTexts.DefaultRequest | lib/jrpc/protocol.c:142-148 | with the default handlers each request gets "not implemented" and changes nothing else |
| ReceivedTexts.DefaultNotice | lib/jrpc/protocol.c:150-169 | with the default handlers a notification leaves the whole state as it was |
| PageTexts.SentTexts | example/chat-server/www/js/startup.js:83-90 | the fields of the two texts that a page sends |
| PageTexts.NoticeShown | example/chat-server/www/js/startup.js:92-101 | for every text with a string method: which line is shown, if any |
| PageTexts.AnswerShown | example/chat-server/www/js/startup.js:103-113 | for every other object: which error is shown, if any |

## Left out

- libwebsockets: TLS, HTTP, fragmentation, partial and failing writes; a write is an atomic addition to a log.
- The parser and printer of Jansson and its reference counts. Round trips assume, for the texts at hand, that loading
  inverts dumping. Failing allocations inside Jansson, which would leave out fields of a message, are not modelled
  either; only the allocation of a message fails.
- Server configuration, context creation and the copying of strings (`lib/jrpc/server.c`): they only set fields.
- The wakeup socket pair and its callback: operating system calls.
- `main`, options and signals of the chat server, and user data pointers.
- The page: of what it displays, only which line with which content; its DOM is not modelled.
- The handlers' own data, such as the map of chatters, is an object of `Server` or a value of the machine; only messages
  are laid out in memory.
