# SkyCurrent, verified

SkyCurrent passes messages between processes: over a shared-memory mesh in pages of 1024 bytes, and
through a gateway to websocket clients. Inside a process the messages wait in a linked message queue
(`lmq`) that any number of consumers walk and prune at the same time. This project models its four
delicate parts and proves what they promise, or exactly when they do.

`dafny verify dfyconfig.toml` checks everything.

## 1. The linked message queue

`Chains` is the `next` graph on its own. The program only ever rewrites it in three ways: it takes the
node behind a walker out, with or without pointing it back at the walker, and it appends a node.
`SoundGraph` says what all of them keep: every node reaches the tail, the chains of the root and of
every unclaimed message are in push order, and a chain that meets the chain of a newer unclaimed
message in any node passes that message.

`QueueMachine` is the queue as a machine of one pusher (`push` takes `&mut self`) and any number of
consumers. A step is what one party does while it holds the locks it needs, so the interleavings are
those of the locks:

- an iteration of the pruning loop is one step, between two of them the walker keeps the mutex and the
  payload lock of its current node, and the graph in between is visible to everybody else;
- a push is cut at every lock it gives up while it looks for the insertion point, and between linking
  and notifying;
- the ticket of a `Notified` is taken before the attempt, and is good once a later push has notified;
- dropping a consumer takes three steps: off the active list, off its node, and its tracker.

`QueueRuns` states what holds in every run, `SingleEnd` refines the runs to `MessageLog` (an append-only
log, the claimed messages, one cursor per consumer), `Delivery` says what consumers are handed,
`Revisits` when they are handed something again, and `CutOff` what a fork costs. `Calls` says how a call,
a wait and a push begin and end, and `Membership` who is on the table of consumers and what a message is
kept for, both told from the steps of a run. `Witnesses` has four concrete runs. `Walks` and `LinkQueue`
are the same code as one caller at a time runs it: objects that point at each other, updated in place,
with every method proved against the graph.

Where the code does less than its comments say:

- *Lost insertion point.* A walk that starts at the root or at a claimed message does not point back
  what it skips (`lmq/src/lib.rs:352-354`). If it skips the node that points at the tail, two nodes do,
  and a later push can be invisible from one of them: `Witnesses.APushCanBeLost`. This is the only way
  it can happen: `SingleEnd.StaysSingleEnded` says which steps break single-endedness, exactly, by the
  guard of that branch, and `SingleEnd.EveryoneSeesThePush` that a push is seen from everywhere exactly when
  the state is single-ended. A state of a run is single-ended exactly when no such step came before
  (`CutOff.SingleEndedExactlyWhen`): a fork is never undone. In runs without one the queue refines the
  log. In the others, a consumer whose chain ends elsewhere than pushes go never reaches any later
  message (`CutOff.CutOffForGood`).
- *Rewind.* "Visited once and in order of arrival" (`lmq/src/lib.rs:196`) fails for a consumer that
  stands on a claimed message which another one has pointed back: `Witnesses.AMessageCanComeTwice`. It
  holds in every run from the root and from an unclaimed message, both halves of it
  (`Revisits.OnceAndInOrderUnlessClaimed`), so a consumer that is never handed anything while it stands on
  a claimed message is handed its messages once each and in order (`Revisits.OnceEachInOrder`). In every
  run and from anywhere, a message comes again exactly when it is older than the message stood on
  (`Revisits.AgainExactlyWhenOlder`), and `Delivery.InOrderExactlyWhen` says exactly when that is.
- *Missed messages.* What a consumer has passed without being handed it is claimed, or on a chain that
  ends elsewhere than its own, in every run (`Delivery.NothingMissedOnItsEnd`). The same holds of a call
  that comes back empty (`Calls.CallEndsExactly`) and, with what is about to be announced, of a
  consumer that is parked (`Delivery.NothingWaitsUnannounced`).
- *Autodrop is lazy.* A message ahead of a dropped consumer is claimed only when somebody visits and
  leaves it; `Membership.DroppedExactlyWhen` says exactly when that drops it.

With a single consumer ever none of this arises (`Delivery.OneConsumerGetsAll`).

## 2. Fragments

`Pages` is the layout of a page and the arithmetic of chunks, `Layout` the same octet by octet in plain
numbers, `Receiver` what the receiver does with one page (an index, slice or subtraction out of range
is the outcome `Panic`), and `Reassembly` whole streams of pages of many messages, in any order and
with repetitions. The receiver is proved against an abstract one that only notes which chunks of which
message have come. `Mesh` and `Merging` are the sending loop and the merge table as the program has
them, with arrays filled in place.

The number of chunks is cut to 32 bits. `Pages.TotalLengthRecovered` says that this loses the length
exactly when there are 2^32 chunks or more, and `Wraparound` what then happens: a wanted message can be
put together from its pages exactly when it has fewer (`Wraparound.ArrivesExactlyWhen`), there are
messages that have as many (`Wraparound.AMessageIsTooLong`), and if the count reads zero each page is
taken for a whole payload with the id as its header size (`Wraparound.CountReadsZero`).

## 3. The combined receiver

`WaitBit` is the protocol between the receiver task and the actor thread of the mesh, interleaved at
every channel operation and every access to the bit, with frames arriving at the gateway at any time.
`WaitAttempts` says how an attempt and a wait begin, go on and end in it, and `WaitWitnesses` has three
runs. `Relay` and `RelayRuns` are the gateway: a websocket frame goes to the mesh page by page, comes
back among the pages of other senders, and is broadcast again. `Combined` is the receiver as an object
with its loops over responses and over backings, each attempt being `Relay.TryRecv`; `RelayAttempts`
shows that one attempt after the other is a run of the relay, and `Answers` says what the caller is
given. `ExactlyOnce` counts: if no page is repeated, each frame is broadcast as often as it was sent.

- A wait that ends with an error does not clear the bit (`skycurrent/src/backing/combined.rs:480`). From
  then on the bit is set for a request that is gone: `WaitBit.StuckExactlyAfterError`,
  `WaitBit.FailureIsFinal`, and the run in `WaitWitnesses.AWaitCanHang`.
- The documentation of `try_recv_stream` says that out-of-accessible is returned if all backings return
  it. It is also returned when the mesh comes first and is blocked, whatever the gateway holds:
  `Relay.OneMoveAnAttempt` has the exact condition, and `WaitWitnesses.AFrameCanBeHidden` a run in which
  it happens: a wait is given up, which leaves the mesh blocked, and then a frame comes.
- The wait on the gateway subscribes afresh (`skycurrent/src/backing/ws_gateway.rs:158-166`), and only
  when it is awaited. Whether a new subscriber is given what the channel still holds is up to the library,
  so the model has it as a parameter. If it is not, a frame that comes between an attempt and the wait
  wakes nobody: `WaitBit.FrameUnnoticedExactlyWhen` says exactly when a frame leaves the receiver parked,
  and `WaitWitnesses.AFrameCanGoUnnoticed` is a run.

## 4. UTF-8

`Utf8` is the loop that turns a JavaScript string into null-terminated UTF-8, against section 2 of
RFC 2781 and sections 3 and 4 of RFC 3629. The output is valid for every string, well-formed or not; it
stands for the string exactly when that is well-formed. `CharacterOrder` shows that both encodings keep the
order of characters.

## Model

| member | source | states |
|---|---|---|
| `Chains.PruneGrounded` | lmq/src/lib.rs:247-280 | One iteration of the pruning loop, pointing back or not, at any node, never builds a cycle: every node still reaches the tail. |
| `Chains.PruneOn` | lmq/src/lib.rs:328-354 | Exactly which node is on which chain after an iteration. |
| `Chains.AppendOn` | lmq/src/lib.rs:132-149 | A push adds its message to exactly the chains that pass through the insertion point. |
| `Chains.AppendPending` | lmq/src/lib.rs:132-149 | On those chains it comes last; what else can be reached, and in which order, is unchanged. |
| `Chains.PruneKeepsPending` | lmq/src/lib.rs:313-354 | Pruning loses nothing: the unclaimed messages reachable from any node are the same in the same order, but for the pruner's own message, put in once exactly on the chains that ran into the pruned node without passing the pruner. |
| `SoundGraph.PruneSound` | lmq/src/lib.rs:297-360 | An iteration that skips a claimed node keeps the order of all chains of unclaimed messages and keeps them joined. |
| `SoundGraph.AppendSound` | lmq/src/lib.rs:132-153 | So does a push. |
| `SoundGraph.ClaimSound` | lmq/src/lib.rs:71-73 | So does taking payloads. |
| `SoundGraph.ChainSorted` | lmq/src/lib.rs:196 | The chain of the root and of every unclaimed message is strictly increasing in push order. |
| `SoundGraph.AllNewerReachable` | lmq/src/lib.rs:227-245 | With one node pointing at the tail, every chain holds every newer unclaimed message. |
| `SoundGraph.PushReachesAll` | lmq/src/lib.rs:106-153 | A push is on every chain exactly when one node pointed at the tail. |
| `SoundGraph.PruneSingleEnded` | lmq/src/lib.rs:352-354 | An iteration leaves one node pointing at the tail exactly when it points back what it skips or does not skip the one that points there. |
| `SoundGraph.AppendSingleEnded` | lmq/src/lib.rs:147-149 | A push leaves one node pointing at the tail. |
| `SoundGraph.PruneJumps` | lmq/src/lib.rs:328-354 | Pruning keeps this: a chain that has gone back to an older node meets nothing between there and where it came from. |
| `SoundGraph.PruneEndsApart` | lmq/src/lib.rs:328-354 | Two chains that end in different nodes still do after an iteration. |
| `QueueMachine.StepRewrites` | lmq/src/lib.rs:106-400 | Every step of every party is one of the rewrites of the graph, under its precondition, or leaves the graph alone. |
| `QueueMachine.InvStart` | lmq/src/lib.rs:77-102 | The new queue satisfies the invariant. |
| `QueueMachine.IterationPrunes` | lmq/src/lib.rs:301-354 | In every interleaving, a walker's copy of its next node is still what its current node points at, the node it skips is claimed, what it found out about its own payload still holds, and the iteration is the pruning rewrite. |
| `QueueMachine.SettleKeepsInv` | lmq/src/lib.rs:390-399 | The autodrop check keeps the invariant. |
| `QueueMachine.StepKeepsInv` | lmq/src/lib.rs:106-400 | Every step of every party keeps the invariant: the sound graph, no two walkers on one node, and what each consumer may rely on. |
| `QueueRuns.NeverACycle` | lmq/src/lib.rs:247-280 | In every reachable state, between two iterations of an unfinished walk too, every node reaches the tail and no two nodes reach each other. |
| `QueueRuns.ChainsInPushOrder` | lmq/src/lib.rs:297-360 | In every reachable state the chains of the root and of unclaimed messages are in push order, and any two are parts of one chain or share no node. |
| `QueueRuns.BlockedByNearer` | lmq/src/lib.rs:284-303 | A walker that cannot lock the next node waits for a walker strictly nearer to the tail. |
| `QueueRuns.SomeWalkerCanStep` | lmq/src/lib.rs:284-303 | So one of the walkers can always step. |
| `QueueRuns.NoDeadlock` | lmq/src/lib.rs:119-145 | In every reachable state: while anybody holds a node lock somebody who holds one can step, and when nobody does everybody can have the lock they want; no other step waits for anyone. |
| `QueueRuns.NothingIsLost` | lmq/src/lib.rs:313-354 | Over every step of every run: what can be reached from a node stays reachable in the same order unless it is claimed; a push adds its message behind the insertion point; pruning may put the pruner in once. |
| `QueueRuns.GoneForGood` | lmq/src/lib.rs:71-73 | A payload that was taken never comes back. |
| `QueueRuns.TakenAtMostOnce` | lmq/src/lib.rs:71-73 | No payload is taken in two steps. |
| `QueueRuns.StoredOrTakenOnce` | lmq/src/lib.rs:71-73 | Conservation: a pushed message still holds exactly what was pushed and was never taken, or holds nothing and was taken in exactly one step. |
| `Membership.WhoIsThere` | lmq/src/lib.rs:162-182 | In every run, told from the steps made: a consumer is on the table exactly when it was created and not dropped, whoever else came and whatever it was doing, and alive exactly until its tracker is released. |
| `QueueRuns.PushDidBegin` | lmq/src/lib.rs:106-113 | Every message in the list comes from a push that began earlier in the run, with this payload. |
| `Membership.DroppedExactlyWhen` | lmq/src/lib.rs:378-400 | When somebody leaves an unclaimed message, it is taken exactly when every consumer that had been created and not dropped before its push began is gone, or has stood on it and then asked for the next one or been dropped. |
| `Membership.DroppedOnlyThen` | lmq/src/lib.rs:378-400 | A message is taken by anything but a claim only then: a consumer that was there when the push began keeps the message until it has left it or is gone. |
| `SingleEnd.StaysSingleEnded` | lmq/src/lib.rs:313-354 | From a single-ended state a step leads to a single-ended one exactly when it is not a walker with a claimed message skipping the node that points at the tail. |
| `SingleEnd.RunSingleEnded` | lmq/src/lib.rs:227-245 | Every state of a run without such a step is single-ended. |
| `CutOff.SingleEndedExactlyWhen` | lmq/src/lib.rs:227-245 | A state of a run is single-ended exactly when no step before it was such a step. |
| `CutOff.SeesThePush` | lmq/src/lib.rs:115-149 | A push will be on the chain of a node exactly when that chain ends where the push is linked. |
| `CutOff.CutOffForGood` | lmq/src/lib.rs:352-354 | A consumer whose chain ends elsewhere than the chain of `last`, and than a push on its way, never reaches and is never handed any message pushed from then on. |
| `SingleEnd.EveryoneSeesThePush` | lmq/src/lib.rs:106-153 | A push will be on the chain of every node exactly when the state is single-ended. |
| `SingleEnd.FirstBehind` | lmq/src/lib.rs:313-360 | In a single-ended state what a finished walk stops at is no later than the least newer unclaimed message, and newer if the walk began at the root or an unclaimed message. |
| `SingleEnd.StepRefines` | lmq/src/lib.rs:106-370 | From a single-ended state each step is one of the log: append, claim, register, nothing, or, exactly when a walk ends, a result or none. |
| `SingleEnd.RunsAreLogRuns` | lmq/src/lib.rs:106-370 | Refinement: a run without a fork is a run of the log with cursors. A result is the least unclaimed message after the cursor, or, from a claimed cursor, an unclaimed one that skips nothing; a walk that ends without one is a call of the log that may return none. |
| `Delivery.InOrderUnlessClaimed` | lmq/src/lib.rs:313-369 | In every state with the invariant, from the root or an unclaimed message, the message returned is newer than the one stood on. |
| `Delivery.InOrderExactlyWhen` | lmq/src/lib.rs:313-369 | From anywhere, it is newer exactly when no older unclaimed message can be reached. |
| `Revisits.AgainOnlyOlder` | lmq/src/lib.rs:196 | In every run, a message handed to a consumer for a second time is older than the one the consumer stands on. |
| `Revisits.OnceAndInOrderUnlessClaimed` | lmq/src/lib.rs:196 | Once and in order: in every run, from the root or an unclaimed message, the message returned is newer than the one stood on and was never handed to this consumer before. |
| `Revisits.AgainExactlyWhenOlder` | lmq/src/lib.rs:196 | In every run, from anywhere, what is returned was handed before exactly when it is older than the message stood on. |
| `Revisits.OnceEachInOrder` | lmq/src/lib.rs:196 | A consumer never handed anything while it stood on a claimed message was handed its messages once each and in push order. |
| `Delivery.NothingMissedOnItsEnd` | lmq/src/lib.rs:196 | In every run, no consumer ever passes an unclaimed message that it was not handed, unless the chain of the message ends elsewhere than its own. |
| `Delivery.NobodyMissesAnything` | lmq/src/lib.rs:227-245 | So in a run without a fork no consumer ever passes an unclaimed message that it was not handed. |
| `Calls.CallBegins` | lmq/src/lib.rs:222-303 | In every run a walk begins from between calls or with a ticket in hand, where the consumer stands. |
| `Calls.CallEndsExactly` | lmq/src/lib.rs:301-370 | In every run, however its walk ends: a call has handed out one unclaimed message of its own chain, on which the consumer now stands; or it has handed out nothing and moved nowhere, and every unclaimed message whose chain ends where the caller's does was handed to the caller before; then a plain call is over and `next` waits. |
| `Calls.EmptyWithoutFork` | lmq/src/lib.rs:227-245 | In a run without a fork, a call that hands out nothing leaves no unclaimed message that the caller was not handed. |
| `Calls.EmptyForTheOnlyOne` | lmq/src/lib.rs:106-370 | With one consumer ever, a call that hands out nothing was preceded by all messages there are. |
| `Calls.OthersLeaveAlone` | lmq/src/lib.rs:205-377 | A step of somebody else neither moves a consumer nor hands it anything, wakes it or ends its call. |
| `Calls.NextBegins` | lmq/src/lib.rs:207-214 | `next` is entered by taking a ticket between calls, and in no other way. |
| `Calls.NextEnds` | lmq/src/lib.rs:207-221 | `next` ends exactly when it has handed out a message, on which the consumer stands, or is cancelled while it waits. |
| `Calls.WokenExactlyWhen` | lmq/src/lib.rs:209-220 | A consumer that waits can go on exactly when a push has notified since it took its ticket. |
| `Calls.WakingTriesAgain` | lmq/src/lib.rs:208-220 | Having gone on it holds a new ticket and is about to try again from where it stood. |
| `Calls.HowAPushGoes` | lmq/src/lib.rs:106-157 | A push starts from the newest node there is, with the consumers on the table, and is over only when the waiters have been notified; no step of a consumer takes it further. |
| `Calls.ClaimTakes` | lmq/src/lib.rs:71-73 | A claim takes the one payload and changes nothing else. |
| `Delivery.NothingWaitsUnannounced` | lmq/src/lib.rs:207-221 | No lost wakeup: in every run, while a consumer is parked and unsignalled, every unclaimed message on its chain was handed to it already, or is linked and not yet announced. |
| `Delivery.OneConsumerGetsAll` | lmq/src/lib.rs:106-370 | With one consumer ever, in every run: it is handed every message exactly once in push order. |
| `Witnesses.APushCanBeLost` | lmq/src/lib.rs:352-354 | A reachable state in which a consumer that was handed nothing finds nothing although an unclaimed message was pushed, and its chain ends elsewhere than that of `last`. |
| `Witnesses.AMessageCanComeTwice` | lmq/src/lib.rs:196 | A reachable state in which a consumer was handed a message, a newer one, and the first again. |
| `Witnesses.AWaiterIsWoken` | lmq/src/lib.rs:207-221 | A run in which a consumer finds nothing and waits, a message is pushed, and the consumer is woken and handed the message. |
| `Witnesses.AMessageIsDropped` | lmq/src/lib.rs:378-400 | A run without a claim in which the last consumer a message waits for is dropped, and the message with it. |
| `Walks.WalkStep` | lmq/src/lib.rs:283-361 | Termination: each iteration brings the walker one node nearer to the tail and keeps what the walk relies on. |
| `Walks.WalkEndsAtFirst` | lmq/src/lib.rs:283-369 | A walk ends at the first unclaimed message of the chain as it was, and at the tail exactly when that chain is all claimed. |
| `Walks.WalkWrites` | lmq/src/lib.rs:313-354 | Exactly what a walk writes: its own `next`, and that of the nodes it skips if its own message is unclaimed. |
| `Walks.WalkSound` | lmq/src/lib.rs:297-360 | A whole walk keeps the order of the chains. |
| `Walks.WalkSingleEnded` | lmq/src/lib.rs:352-354 | A whole walk leaves one end exactly when it does not both skip something without pointing it back and end at the tail. |
| `LinkQueue.Node.CheckShouldNowAutodrop` | lmq/src/lib.rs:390-399 | The consumer is taken off the targets; the payload goes exactly when the remaining targets are all dead. |
| `LinkQueue.LinkMessageQueue.constructor` | lmq/src/lib.rs:77-102 | The root points at the tail, and is last. |
| `LinkQueue.LinkMessageQueue.FindInsertionPoint` | lmq/src/lib.rs:115-145 | From a `last` that may be pruned and point backwards, the loop ends, at the one node of that chain that points at the tail. |
| `LinkQueue.LinkMessageQueue.LinkBehind` | lmq/src/lib.rs:147-149 | The graph gains the new node behind the insertion point and nothing else changes. |
| `LinkQueue.LinkMessageQueue.Insert` | lmq/src/lib.rs:115-156 | The new node goes to the end of the chain of the old `last`, becomes `last`, and the waiters are told. |
| `LinkQueue.LinkMessageQueue.Push` | lmq/src/lib.rs:106-157 | The same for a new message, with the consumers registered now as its targets. |
| `LinkQueue.LinkMessageQueue.CreateConsumer` | lmq/src/lib.rs:162-182 | The consumer stands on the root and is registered under its id, whatever that is; consumers that are gone are no longer. |
| `LinkQueue.MessageConsumer.PruneNext` | lmq/src/lib.rs:328-359 | One iteration is the pruning rewrite, pointing back exactly when the current node is unclaimed, and goes on with the old `next` of the node taken out. |
| `LinkQueue.MessageConsumer.Walk` | lmq/src/lib.rs:299-361 | The loop ends with the graph of a whole walk. |
| `LinkQueue.MessageConsumer.TryNext` | lmq/src/lib.rs:223-370 | The autodrop check, then a whole walk: returns the first unclaimed message of the chain as it stands after the check and moves there, or returns nothing and stays exactly when there is none. |
| `LinkQueue.MessageConsumer.Drop` | lmq/src/lib.rs:378-387 | The consumer is off the list and off its node, whose payload goes exactly when the remaining targets are all dead. |
| `Bytes.LeDigit` | skycurrent/src/backing/iox2.rs:510-512 | The order of the octets: octet `j` of a written number is its quotient by 256 to the power `j`, modulo 256. |
| `Bytes.LeConcat` | skycurrent/src/backing/iox2.rs:356-359 | Read together, what comes first counts least: the rest counts 256 to the power of its length. |
| `Bytes.LeRoundTrip` | skycurrent/src/backing/iox2.rs:356-359 | With the octets in that order, a number written in `k` of them is read back exactly when it fits. |
| `Bytes.LeOnto` | skycurrent/src/backing/combined.rs:368 | Bytes read as a number and written again are the same bytes. |
| `Pages.ChunksFillBody` | skycurrent/src/backing/iox2.rs:526-535 | A fragmented payload has at least two chunks, and the last one ends where the payload ends, zero remainder included. |
| `Pages.ChunkInside` | skycurrent/src/backing/iox2.rs:395-407 | Chunks are not empty, lie behind the header inside the payload, and one ends where the next begins. |
| `Pages.ChunksApart` | skycurrent/src/backing/iox2.rs:395-407 | No two chunks overlap. |
| `Pages.ByteInChunk` | skycurrent/src/backing/iox2.rs:395-407 | Every byte of the body is in a chunk. |
| `Pages.WholePageReads` | skycurrent/src/backing/iox2.rs:508-518 | Reading the page of a small payload gives its length, its header size, a zero chunk count and the payload. |
| `Pages.FragmentPageReads` | skycurrent/src/backing/iox2.rs:536-546 | Reading a fragment gives what was written into it, counts cut to 32 bits, and all of it fits the page. |
| `Pages.TotalLengthRecovered` | skycurrent/src/backing/iox2.rs:375-376 | From any fragment the receiver's total length is the payload's exactly when there are fewer than 2^32 chunks. |
| `Layout.AcceptedExactlyWhen` | skycurrent/src/backing/iox2.rs:503-524 | Which payloads are sent as one page, which as fragments, and which are refused, in plain numbers; a header is too large exactly when the payload exceeds 1000 bytes and the header the 991 that the error names. |
| `Layout.WholeLayout` | skycurrent/src/backing/iox2.rs:508-513 | The page of a small payload octet by octet: length, eight zeros, header size, payload, zeros, each number with its lowest octet first. |
| `Layout.ChunkIsPiece` | skycurrent/src/backing/iox2.rs:526-535 | Number, place and length of the chunks and the remainder, by ordinary division: the body is cut at every multiple of the chunk size. |
| `Layout.FragmentLayout` | skycurrent/src/backing/iox2.rs:536-546 | Each fragment octet by octet: the five numbers at their offsets, lowest octet first, then the header, the piece of the body, zeros. |
| `Layout.PagesLayout` | skycurrent/src/backing/iox2.rs:503-559 | The pages of every accepted payload: one, or as many as there are pieces, in order, each with that layout. |
| `Wraparound.CountReadsZero` | skycurrent/src/backing/iox2.rs:356-367 | With a multiple of 2^32 chunks, exactly what the receiver does with any page: panic if the id exceeds the room, otherwise take the page for a whole payload of the remainder's length, if its first bytes are wanted. |
| `Wraparound.TooLongNeverArrives` | skycurrent/src/backing/iox2.rs:374-431 | With 2^32 chunks or more, whatever is completed from the pages of the message, in any order, is not its payload. |
| `Wraparound.ArrivesExactlyWhen` | skycurrent/src/backing/iox2.rs:503-559 | A wanted message can be put together from its pages exactly when it has fewer than 2^32 chunks. |
| `Wraparound.AMessageIsTooLong` | skycurrent/src/backing/iox2.rs:525-527 | There is a message, accepted by the sender, with 2^32 chunks. |
| `Receiver.FullWhenCounted` | skycurrent/src/backing/iox2.rs:419-421 | A count of as many chunks as there are means that all bits are set. |
| `Receiver.FullIsPayload` | skycurrent/src/backing/iox2.rs:421-426 | With every chunk in, the buffer is the payload. |
| `Receiver.NewEntryKnows` | skycurrent/src/backing/iox2.rs:383-392 | A new entry has the right size, the header, and no chunk. |
| `Receiver.PanicsExactlyWhen` | skycurrent/src/backing/iox2.rs:353-436 | Of any page whatever and any table: what makes the receiver panic, exactly, by the numbers on the page and the entry it goes to; an unwanted page changes nothing. |
| `Receiver.MergeWritesChunk` | skycurrent/src/backing/iox2.rs:400-416 | Merging fragment `i` is in bounds and writes chunk `i` at its place. |
| `Receiver.WithChunkKnows` | skycurrent/src/backing/iox2.rs:410-416 | Afterwards the entry knows that chunk and all those it knew, and counts them. |
| `Reassembly.ReceiveTracks` | skycurrent/src/backing/iox2.rs:353-431 | Any page of a payload with fewer than 2^32 chunks: no panic, the outcome of the abstract receiver, and each entry still knows exactly the chunks that have come, at least one and not all. |
| `Reassembly.OthersUntouched` | skycurrent/src/backing/iox2.rs:383-431 | A page leaves the entries of other messages as they are. |
| `Reassembly.StreamTracks` | skycurrent/src/backing/iox2.rs:377-431 | The merge-table invariant holds over every stream of pages. |
| `Reassembly.NotedIsCome` | skycurrent/src/backing/iox2.rs:394-421 | Until all chunks of a wanted message have come, its entry stands for exactly those that have. |
| `Reassembly.RoundTrip` | skycurrent/src/backing/iox2.rs:503-559 | Pages of a wanted message in any order, repeated, among pages of others: the page with the last missing chunk, and no page of it before, completes exactly the payload and header size sent, and the entry is removed. |
| `Reassembly.SentAloneArrives` | skycurrent/src/backing/iox2.rs:503-559 | A wanted message whose pages come just as they are sent is completed by the last page and by no other, and leaves no entry. |
| `Reassembly.TwiceOnlyIfSentTwice` | skycurrent/src/backing/iox2.rs:383-431 | A message that is completed a second time had every one of its pages come again since. |
| `Reassembly.NeverPanics` | skycurrent/src/backing/iox2.rs:353-431 | No page of a small payload, or of one with fewer than 2^32 chunks, makes the receiver panic; small payloads arrive as sent, and refused messages never complete. |
| `Mesh.FillWhole` | skycurrent/src/backing/iox2.rs:508-514 | The zeroed page filled field by field is the specified page of a small payload. |
| `Mesh.FillFragment` | skycurrent/src/backing/iox2.rs:536-546 | The same for fragment `i`. |
| `Mesh.ChunkIsNext` | skycurrent/src/backing/iox2.rs:526-528 | Cutting the body every chunk size, the rest being shorter, gives the specified chunks. |
| `Mesh.SendFragments` | skycurrent/src/backing/iox2.rs:526-558 | The loop sends the fragments in order. |
| `Mesh.SendStream` | skycurrent/src/backing/iox2.rs:503-559 | Exactly which payloads are refused and with which error; any other is sent as its pages, after what was on the channel. |
| `Merging.MergeAlloc.constructor` | skycurrent/src/backing/iox2.rs:383-392 | A fresh entry has the specified bitmap, count and buffer. |
| `Merging.MergeAlloc.Merge` | skycurrent/src/backing/iox2.rs:400-416 | Merges in place as specified, and changes nothing when the chunk would not fit. |
| `Merging.InsertedFirst` | skycurrent/src/backing/iox2.rs:379-398 | Making the entry before looking at the bit makes no difference to what is returned and kept. |
| `Merging.MergeTable.MergeFragment` | skycurrent/src/backing/iox2.rs:377-431 | The table of shared buffers does what the value specification says, and no two entries share storage. |
| `Merging.MergeTable.TryRecvStream` | skycurrent/src/backing/iox2.rs:353-451 | Takes one page if there is one and returns what the specification says of it; otherwise says so and changes nothing. |
| `WaitBit.StepKeepsInv` | skycurrent/src/backing/combined.rs:160-191 | Every step of the receiver and of the actor keeps the invariant. |
| `WaitBit.BitTellsOutstanding` | skycurrent/src/backing/combined.rs:434-443 | In every interleaving at most one wait request is queued, running or unacknowledged; outside the write-locked moment between sending and setting, the bit is set exactly when there is one or an error has been received. |
| `WaitBit.ResponsesNeverFill` | skycurrent/src/backing/combined.rs:173-175 | The response channel holds at most one response, so the actor never blocks on it. |
| `WaitBit.NeverBehindAWait` | skycurrent/src/backing/combined.rs:332-347 | A request for a message is never queued while a wait request is queued, running or unacknowledged. |
| `WaitBit.AnswerNearer` | skycurrent/src/backing/combined.rs:298-304 | While the receiver awaits an answer every step of the actor brings it nearer, none needs anything outside, and nobody delays it. |
| `WaitBit.TriesAreAnswered` | skycurrent/src/backing/combined.rs:298-304 | So over any run the actor makes no more steps before the answer than there were requests ahead, and two. |
| `WaitBit.StuckExactlyAfterError` | skycurrent/src/backing/combined.rs:444-491 | In every reachable state somebody can move, other than by giving up or sending something new, exactly unless the receiver waits after an error with nothing queued and nothing of the gateway noticed. |
| `WaitBit.FailureIsFinal` | skycurrent/src/backing/combined.rs:479-491 | After an error, until the next close, the bit stays set, no wait request is sent and the mesh is not asked. |
| `WaitBit.FrameUnnoticedExactlyWhen` | skycurrent/src/backing/ws_gateway.rs:158-166 | A frame that the gateway holds leaves the waiting receiver parked exactly when it was there before the wait began, none has come since, a new subscriber is not given what the channel holds, and the mesh has not responded. |
| `WaitAttempts.AttemptBegins` | skycurrent/src/backing/combined.rs:320-332 | An attempt begins between calls, with the backing that is to be asked first. |
| `WaitAttempts.AttemptEndsExactly` | skycurrent/src/backing/combined.rs:332-415 | In every interleaving an attempt ends exactly when it comes upon an error, an answer of the mesh that is not empty, or a frame, or when no round is left. |
| `WaitAttempts.AskedAtMostOnce` | skycurrent/src/backing/combined.rs:294 | No backing is asked twice in one attempt. |
| `WaitAttempts.NothingOnlyAfterAsking` | skycurrent/src/backing/combined.rs:334-415 | An attempt that comes upon nothing has asked the mesh, exactly unless it is blocked, and the gateway, exactly unless the mesh comes first and is blocked. |
| `WaitAttempts.WaitBegins` | skycurrent/src/backing/combined.rs:434-443 | A wait sends a request exactly when the bit is clear. |
| `WaitAttempts.WaitEndsExactly` | skycurrent/src/backing/combined.rs:444-483 | A wait ends exactly when it is given up, the gateway has something for it, a response is an error, or no more responses are there after one that cleared the bit. |
| `WaitAttempts.AnswerIsTheLast` | skycurrent/src/backing/combined.rs:170-172 | The answer the receiver reads is the one the actor gave last. |
| `WaitAttempts.ResponseIsTheLast` | skycurrent/src/backing/combined.rs:173-175 | The response on its way to the receiver is how the actor's last wait ended. |
| `WaitAttempts.FramesAreKept` | skycurrent/src/backing/combined.rs:308-313 | Every frame that came to the gateway is still there or was taken by one attempt. |
| `WaitAttempts.CloseBeginsAnew` | skycurrent/src/backing/combined.rs:529-614 | After a close everything but the gateway is as it was at first; an error is forgotten, and the mesh is in turn. |
| `WaitWitnesses.AWaitCanHang` | skycurrent/src/backing/combined.rs:480 | A run that ends with the receiver stuck after an error. |
| `WaitWitnesses.AFrameCanBeHidden` | skycurrent/src/backing/combined.rs:334-415 | A run in which an attempt finds nothing, and never asks the gateway, although that holds a frame. |
| `WaitWitnesses.AFrameCanGoUnnoticed` | skycurrent/src/backing/combined.rs:621-637 | A run in which a frame comes between an attempt and the wait, and only the mesh can end the wait. |
| `Relay.FrameRoundTrip` | skycurrent-ws-client/src/index.ts:137-149 | What a client framed is taken apart into the same payload and header size exactly when the header size fits 64 bits. |
| `Relay.UnframeRoundTrip` | skycurrent/src/backing/combined.rs:350-379 | What the gateway takes apart it frames again byte for byte. |
| `Layout.FrameLayout` | skycurrent-ws-client/src/index.ts:137-149 | A frame octet by octet: the payload, then the header size in eight octets, lowest first. |
| `Layout.RelayableExactlyWhen` | skycurrent/src/backing/combined.rs:362-395 | Which frames the relay survives, in plain numbers. |
| `Relay.DrainedKeeps` | skycurrent/src/backing/combined.rs:492-506 | Draining fails exactly when there is an error among the responses; otherwise it clears the bit exactly when there was any response, and touches no traffic. |
| `Relay.OneMoveAnAttempt` | skycurrent/src/backing/combined.rs:334-415 | An attempt takes one page with the bit clear, or one frame, or answers that there is nothing; traffic is unchanged exactly when it answers so or somebody dies of it; the exact condition under which it answers so. |
| `Relay.FailsExactlyWhen` | skycurrent/src/backing/combined.rs:320-332 | An attempt fails exactly when an error is among the responses, and then moves nothing; the backing in turn stays in turn. |
| `Relay.WhoAnswers` | skycurrent/src/backing/combined.rs:320-415 | Of every other attempt, from what is there before it: which backing answers, given who is in turn, whether time is up, whether the mesh is blocked, and who has something; and what is in turn after an attempt that finds nothing. |
| `Relay.DiesExactlyWhen` | skycurrent/src/backing/combined.rs:347-398 | The caller panics exactly when the gateway answers with a frame the relay does not survive, the actor exactly when the mesh answers with a page that panics it. |
| `Relay.ReturnsWhatItBroadcasts` | skycurrent/src/backing/combined.rs:348-360 | An attempt broadcasts exactly the frame of the message it returns, and nothing if it returns none; and the frame comes apart into that message again. |
| `RelayRuns.LaterPages` | skycurrent/src/backing/combined.rs:350-359 | What comes later on the mesh does not change what was received and broadcast before. |
| `RelayRuns.StepKeepsMesh` | skycurrent/src/backing/combined.rs:348-398 | Every step keeps the merge table and the broadcasts what the pages taken so far make them. |
| `RelayRuns.StepKeepsInbox` | skycurrent/src/backing/combined.rs:362-398 | Every step keeps all pages of every frame taken from the inbox on the mesh or on their way to it, with pages of others between them. |
| `RelayRuns.OnMeshIsEchoed` | skycurrent/src/backing/combined.rs:350-359 | A wanted message all of whose pages are on the mesh, in any order and among others, is broadcast. |
| `RelayRuns.EveryFrameComesBack` | skycurrent/src/backing/combined.rs:348-398 | In every run, pages repeated or not: when everything has been sent and taken, every wanted frame that came from the websocket is among the broadcasts, byte for byte. |
| `ExactlyOnce.EchoIsDue` | skycurrent/src/backing/combined.rs:350-359 | If no page is repeated, a page makes the gateway broadcast exactly what is due for it: the frame of a wanted whole payload, or of a wanted message of which it is the last page and all are there. |
| `ExactlyOnce.EveryFrameExactlyAsOften` | skycurrent/src/backing/combined.rs:348-398 | In every run in which no page is repeated, when everything has been sent and taken, the broadcasts are every wanted frame as often as it came, and every wanted and complete message of others. |
| `RelayRuns.NothingElseIsBroadcast` | skycurrent/src/backing/combined.rs:348-398 | Every broadcast frame is taken apart into a payload and header size that somebody sent. |
| `RelayAttempts.AttemptIsSteps` | skycurrent/src/backing/combined.rs:295-416 | Every attempt of the receiver that does not panic is some steps of the relay, or none, ending in the same state; the actor survives it. |
| `RelayAttempts.CourseIsRun` | skycurrent/src/backing/combined.rs:295-416 | Simulation: any sequence of attempts, with frames, pages of others and wait responses between them, ends where a run of the relay does in which the same frames came and the same pages were on the mesh. |
| `RelayAttempts.AttemptsBringFramesBack` | skycurrent/src/backing/combined.rs:348-398 | After any such sequence, pages repeated or not, with inbox and mesh empty, every wanted frame that came before is among the broadcasts, byte for byte. |
| `RelayAttempts.AttemptsBringFramesBackAsOften` | skycurrent/src/backing/combined.rs:348-398 | And if no page was repeated, exactly as often as it came. |
| `Answers.ReturnedIsBroadcast` | skycurrent/src/backing/combined.rs:348-360 | Over any sequence of attempts, the messages returned to the caller are, in order, those of the frames broadcast. |
| `Answers.ReturnedExactlyWhen` | skycurrent/src/backing/combined.rs:348-360 | A message has been returned exactly when its frame has been broadcast. |
| `Answers.CompleteIsReturned` | skycurrent/src/backing/combined.rs:295-360 | A wanted message that is complete on the mesh, from whomever, has been returned to the caller with its payload and header size by the time the mesh is empty. |
| `Answers.ReturnedWasSent` | skycurrent/src/backing/combined.rs:295-360 | And nothing else is: what the caller is given was sent by somebody, payload and header size, and was wanted. |
| `Combined.CombinedReceiver.WaitStreamDrain` | skycurrent/src/backing/combined.rs:492-506 | The loop handles the responses as specified, up to the first error. |
| `Combined.CombinedReceiver.AskMesh` | skycurrent/src/backing/combined.rs:348-360 | The object's turn of the mesh ends in the state and with the result of `Relay.FromMesh`, of which `Relay.ReturnsWhatItBroadcasts` and `Answers` say what the caller gets. |
| `Combined.CombinedReceiver.AskGateway` | skycurrent/src/backing/combined.rs:362-398 | Takes a frame, cuts it back to its payload and sends that over the mesh; panics exactly when it is too short or refused. |
| `Combined.CombinedReceiver.TryRecvStream` | skycurrent/src/backing/combined.rs:295-416 | The object's whole attempt, its two loops included, ends in the state and with the result of the attempt that `Relay.WhoAnswers`, `RelayAttempts` and `Answers` are about. |
| `Utf8.PointRoundTrip` | skycurrent-deno/mod.ts:104-127 | The octets of any character are what the grammar finds first, and stand for that character, whatever follows. |
| `Utf8.Utf8RoundTrip` | skycurrent-deno/mod.ts:100-132 | What is encoded is valid UTF-8 and decodes to the same characters. |
| `Utf8.PairUnits` | skycurrent-deno/mod.ts:115-121 | The character made of a surrogate and the next unit stands for those two exactly when they are a high and a low one. |
| `Utf8.PointsOfWellFormed` | skycurrent-deno/mod.ts:100-132 | The characters the loop takes a string for, encoded as UTF-16, are the string exactly when it is well-formed. |
| `Utf8.Utf8Zero` | skycurrent-deno/mod.ts:130 | There is a zero octet exactly when there is a zero character. |
| `Utf8.PointsZero` | skycurrent-deno/mod.ts:100-132 | A zero character needs a zero unit, and in well-formed text every zero unit is one. |
| `Utf8.EncodedText` | skycurrent-deno/mod.ts:100-132 | Together: for every string the octets are valid and decode to its characters, and hold no zero unless the string does. |
| `CharacterOrder.Utf8Order` | skycurrent-deno/mod.ts:104-127 | Section 1 of RFC 3629: octets are ordered lexicographically exactly as the characters they stand for. |
| `CharacterOrder.PairOrder` | skycurrent-deno/mod.ts:115-121 | Surrogate pairs are ordered as their characters, from the first character beyond 65535 to the last. |
| `Utf8.ToNullTerminatedUtf8` | skycurrent-deno/mod.ts:100-132 | The loop, which also advances over the unit after a surrogate and past the end, returns those octets and one zero. |

## Left out

- Membership.DroppedExactlyWhen: of the check, which runs only when somebody leaves the message. That somebody will is not promised.
- LinkQueue.MessageConsumer.TryNext: returns the node itself, where the program returns a clone of the node that shares the payload; the clone's own `next` and target map are never used.
- LinkQueue.MessageConsumer.TryNext: one caller at a time; the interleavings of several are those of `QueueMachine`, whose iterations are proved to be the same graph rewrites.
- QueueMachine.StepKeepsInv: a step is what happens under one set of locks. `handed` and `sent` are history that the program does not keep. Consumer ids are drawn at random in the program and distinct here; `LinkQueue` allows any.
- QueueMachine.StepKeepsInv: the table of active consumers is shared by all queues of a process. Only one queue is modelled; a consumer of another queue is one that is created here and never calls.
- Read guards held by users (`MessageRef`), and the second read lock in `NextMessage::read`: assumed not outstanding while a walker or pusher needs the lock.
- `blocking_next`, the build without autodrop, and the hasher: nothing that is not in `next`, `try_next` and plain hashing.
- Mesh.SendStream: one attempt per page that succeeds. The retry loop with its timed backoff, the notifications, and failures of the shared-memory library are not modelled; neither is drawing a random nonzero id, which is a parameter.
- The page channel: a sequence of pages between one publisher and one subscriber; `Reassembly` has any interleaving of senders.
- Reassembly.RoundTrip: for ids that differ between senders, and for messages of fewer than 2^32 chunks and 2^64 bytes, which is where the length is recovered at all. `should_collect` is a function of the header.
- Receiver.MergeWritesChunk: pages made by the matching sender; `Receiver.PanicsExactlyWhen` has any others.
- Receiver.PanicsExactlyWhen: overflow of 64-bit sums, and a buffer too large to allocate, are not modelled.
- Merging.MergeTable.TryRecvStream: after a panic nothing is said of the table, which belongs to the thread that has gone.
- WaitBit.StepKeepsInv: one task that calls `try_recv_stream`, `wait_stream` and `close`. With two tasks a request could slip in between reading the bit and sending. Sending on a closed channel changes nothing modelled. `failed` is history.
- WaitBit.FrameUnnoticedExactlyWhen: what a new subscriber is given is a parameter, because the channel library is not part of this model.
- WaitBit.StuckExactlyAfterError: whether the call that the actor makes to wait on the mesh ever returns is up to the library.
- RelayRuns.EveryFrameComesBack: frames that the mesh accepts and that have fewer than 2^32 chunks, relayed under ids that differ from those of other messages; frames of fewer than 8 bytes make the program panic, and so `AskGateway`. Pages may also be taken while a frame is being sent, which the program does not do.
- ExactlyOnce.EveryFrameExactlyAsOften: a repeated page can make a message complete again, which `Reassembly.TwiceOnlyIfSentTwice` limits. Drawing the same id twice repeats pages.
- RelayAttempts.AttemptsBringFramesBack: an attempt is not interrupted by others here; that their pages can come between those of a frame is in `RelayRuns`.
- Combined.CombinedReceiver.TryRecvStream: the build with both backings. The clock is the parameter `timeUp`, and handling of the responses between attempts is `WaitBit`.
- Broadcast lag, websocket upgrade, origin checks, reconnecting, and the queue in the websocket client: network plumbing around the frames.
- Utf8.ToNullTerminatedUtf8: numbers are 32-bit vectors, which is what JavaScript's bitwise operators work on; reading past the end of the string gives 0, which is what masking its result gives.
- C, wasm and Deno bindings, finalization registries, and handler registration in `lmq-capi`: thin wrappers.
