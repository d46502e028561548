# sweet-clib in Dafny

A model of the stateful parts of sweet-clib, and proofs of what they keep:

- the AVL search tree with lazy deletion (`AvlTree`, `AvlRuns`, `BisTree`);
- the Majordomo broker (`Frames`, `MdpBroker`, `MdpInvariants`, `MdpBrokerObject`, `MdpBrokerRuns`), what
  its peers see it do with each message and in which order it serves them (`MdpEffects`, `MdpTruth`,
  `MdpOrder`), its worker and client interfaces (`MdpApi`, `ClientCalls`), the system they form over lossy links
  (`MdpSystem`), what a client gets from it (`MdpDelivery`, `MdpStaging`, `MdpAbandoned`), the two interface
  objects as parts of that system (`MdpDeployed`, `MdpCaller`), and what a program that calls the client
  object time and again can rely on (`MdpSessions`);
- clone state replication and the message codec under it (`KvMsg`, `Clone`);
- the Paranoid Pirate queue (`PirateQueue`);
- the thread pool as interleaved steps under one lock and one condition variable, and the linked list
  with tail pointer it queues on (`ThreadPool`, `PoolShutdown`, `LinkedList`);
- the round-robin dispatcher of the process pool (`ProcessPool`);
- the chained hash table over linked buckets and the string hash used with it (`HashTable`, `BitOps`, `HashPjw`).

`Options`, `Allocation` and `CStrings` hold what several of these share.

`dafny verify dfyconfig.toml` checks everything.

## How it is built

Every operation is a function on values first, and the theorems are about those functions: over every
input, every run, or every reachable state. Where the C code updates things in place there is a class
whose methods do the same writes, and each method is proved to compute exactly its function. Linked
trees, lists and hash buckets are real objects with pointers. Which node sits where is a ghost value
(`Skeleton`, `Chain`, `Held`) handed along with the pointers.

The Majordomo system has abstract connections. `MdpDeployed` and `MdpCaller` put a worker and a client
object in the place of one of them, and show that every call of the object is a sequence of system steps
with the same frames on the link. So what holds in every reachable state holds of the real objects.

Failures are part of the model. Whether an allocation succeeds is a parameter. A failed C assertion, or
the use of a null or freed pointer, sets a `dead` flag in the broker and queue states and an `aborted`
result in the worker and client interfaces. The clock is a function from readings to values. It may
jump either way, except in the pirate queue, whose order needs it not to go back. Messages are sequences
of frames, a `zlist` is a sequence, a `zhash` a map. A hash table traversal yields its entries in any
order.

## Where the code surprises

The model follows the code, also where it is not what a reader expects.

- Several files do not compile as written (misspelt names, a doubled `else`, a field of the wrong object
  in lib/_structs/bistree.c:139). The plain meaning is modelled.
- Removing a hidden key from the search tree succeeds, and `size` counts hidden nodes
  (lib/_structs/bistree.c:275-278).
- The broker tests the prefix "mmi." on the sender's identity, not on the name of the service a READY
  asks for (lib/zeromq/MDP/mdbroker.c:111).
- The broker's purge stops at the first fresh worker, and heartbeats refresh a worker where it stands, so
  expired workers can remain. `ExpiredRemains` gives a run, `PurgeCompleteIffOrdered` says exactly when
  none do.
- The broker has no guard against a second REPLY from a waiting worker, nor against an unknown command
  from a stranger (`ListedTwice` gives a run). `InvIffCompliant` says exactly which messages it can take,
  and `ApiIsCompliant` that the repository's own worker and client send no others.
- `mdcli_send` keeps its socket when it gives a call up (lib/zeromq/MDP/mdcliapi.c:113-122). The next call on
  that connection cannot send, and receives the late reply to the first. `LateReplyCrashes` gives a run in
  which that reply fails the assertion on the service name. `AlwaysPassesIff`, `AlwaysOwnIff` and
  `AlwaysEchoIff` say exactly after which calls on a connection this cannot happen, and `NextCallSafeIff`
  after which calls of the client object, through all its redials.
- `kvmsg_sequence` shifts byte 5 by 26 where the encoder shifted by 16 (lib/zeromq/clone/kvsimple.c:151).
  Replication is therefore right exactly as long as stream and snapshot stay within one block of 2^24
  numbers (`FaithfulIffOneBlock`, `FaithfulIffBelowLimit`).
- `threadpool_destroy` sets the flag and broadcasts without the lock, so a thread between its test and
  its wait misses both. `BroadcastReachesAllIff` says exactly when none can, `MissedShutdown` gives a run,
  and `HangsIffThreads` says that any pool with a thread can hang there, whatever state it is destroyed in.
- It also frees the pool without waiting for callers of `threadpool_add_worker`. `StaleRun` gives a run in
  which one goes on with the freed pool; `StaleUseIff` says that only a pool on which every call has
  returned is safe to destroy.
- After sending a reply, `mdwrk_recv` keeps a pointer to an address frame it has given away
  (lib/zeromq/MDP/mdwrkapi.c:107). The model treats the address as gone.

## Model

| member | source | states |
|---|---|---|
| AvlTree.RotateLeft | lib/_structs/bistree.c:8-52 | from a subtree two levels too high on the left, both rotation shapes give a tree whose stored factors are again exact and within one, as high as the left subtree was |
| AvlTree.RotateRight | lib/_structs/bistree.c:54-98 | the mirror image for a subtree two levels too high on the right |
| AvlTree.RotateLeftKeeps | lib/_structs/bistree.c:8-52 | the rotation keeps the set of elements and the order, and no search can tell the two trees apart |
| AvlTree.RotateRightKeeps | lib/_structs/bistree.c:54-98 | the same for the right rotation |
| AvlTree.LeftMidway | lib/_structs/bistree.c:22-49 | a left-right rotation is two pivots about a tree in between |
| AvlTree.RightMidway | lib/_structs/bistree.c:68-95 | a right-left rotation is two pivots about a tree in between |
| AvlTree.AfterLeft | lib/_structs/bistree.c:188-206 | the left half on the way up: exact factors again, `balanced` clear exactly when this subtree grew a level, nothing changed on a nonzero return |
| AvlTree.AfterRight | lib/_structs/bistree.c:222-241 | the right half on the way up, with the same promise |
| AvlTree.Insert | lib/_structs/bistree.c:158-258 | every outcome has exact factors within one; 0 means the height grew by one if and only if `balanced` is clear; nonzero, failed allocation included, means tree unchanged and nothing destroyed |
| AvlTree.InsertRefines | lib/_structs/bistree.c:158-258 | insertion keeps the strict order and changes the slot (absent, hidden or live with a datum) of no key but its own, and that one as a map with hidden entries would |
| AvlTree.InsertReturns | lib/_structs/bistree.c:158-258 | the return code is 1 exactly on a live key, 0 on a hidden one, and 0 or -1 on an absent one according to the allocations |
| AvlTree.ReviveKeepsShape | lib/_structs/bistree.c:243-254 | reviving a hidden key changes neither shape nor factors, reports no growth, and destroys exactly the stale datum |
| AvlTree.InsertConserves | lib/_structs/bistree.c:158-258 | stored plus destroyed copies of any datum change by exactly one, for the inserted datum, exactly when the return code is 0 |
| AvlTree.InsertSize | lib/_structs/bistree.c:158-258 | a node is added exactly when a successful insert destroyed nothing |
| AvlTree.HideRefines | lib/_structs/bistree.c:260-280 | hiding keeps the order and turns only the slot of its own key from live to hidden; a hidden key stays hidden |
| AvlTree.HideKeepsShape | lib/_structs/bistree.c:260-280 | hiding changes neither shape nor factors |
| AvlTree.HideConserves | lib/_structs/bistree.c:260-280 | hiding removes no datum |
| AvlTree.OrderedIffAscending | lib/_structs/bistree.c:282-307 | the order invariant holds if and only if the inorder walk is strictly ascending under the callback |
| AvlTree.FindIffHolds | lib/_structs/bistree.c:282-307 | in an ordered tree the search meets a datum with a given mark if and only if a node anywhere holds them under an equal key |
| AvlTree.PostorderCounts | lib/_structs/bistree.c:100-156 | teardown visits each datum as often as it is stored, as many in all as there are nodes, hidden ones included |
| AvlTree.TeardownOrder | lib/_structs/bistree.c:100-156 | in teardown the data of every subtree go together: its left child's first, then its right child's, its own last |
| AvlRuns.Run | lib/_structs/bistree.c:326-338 | every tree reached by any sequence of inserts and removes, with any allocation failures, has exact factors within one |
| AvlRuns.RunRefinesMap | lib/_structs/bistree.c:326-344 | after any run the tree is ordered, and every search meets the slot that the list of calls alone predicts |
| AvlRuns.RunReturns | lib/_structs/bistree.c:326-338 | every return code of a run is the one that map predicts, 0 for removing a hidden key included |
| AvlRuns.LookupIffLastInsert | lib/_structs/bistree.c:282-307 | a lookup yields a datum if and only if some accepted insert of it under an equal key was followed by no remove of that key |
| AvlRuns.OwnershipConserved | lib/_structs/bistree.c:158-280 | at every point, copies destroyed plus copies stored equal accepted inserts, for every datum |
| AvlRuns.TeardownDestroysAccepted | lib/_structs/bistree.c:317-324 | over a run ending in destruction the callback gets each datum exactly once per accepted insert, a rejected one never |
| AvlRuns.SizeAtLeastFib | lib/_structs/bistree.c:158-258 | an exact tree of height h has at least Fib(h+2) - 1 nodes, hidden ones included |
| AvlRuns.Sparsest | lib/_structs/bistree.c:158-258 | that bound is met with equality by a balanced tree of every height, so it cannot be improved |
| AvlRuns.SearchIsLogarithmic | lib/_structs/bistree.c:260-307 | after any run, 2 to the number of comparisons of any search is at most (size + 1) squared |
| BisTree.RotateLeft | lib/_structs/bistree.c:8-52 | the pointer writes turn the linked nodes into exactly the rotated tree, with the same nodes |
| BisTree.RotateRight | lib/_structs/bistree.c:54-98 | the same for the right rotation |
| BisTree.RepairLeft | lib/_structs/bistree.c:193-206 | the switch on the factor leaves the nodes holding the repaired tree and the right flag |
| BisTree.RepairRight | lib/_structs/bistree.c:227-241 | the same on the right |
| BisTree.SearchTree.constructor | lib/_structs/bistree.c:309-315 | an empty tree with an empty history |
| BisTree.SearchTree.InsLeft | lib/_structs/bitree.c:23-51 | -1 and no change where the slot is taken, the tree is not empty, or malloc fails; otherwise one fresh leaf in the slot, nothing else changed |
| BisTree.SearchTree.InsRight | lib/_structs/bitree.c:53-81 | the same for the right slot; with no node given, the root of an empty tree, else -1 |
| BisTree.SearchTree.InsertAt | lib/_structs/bistree.c:158-258 | recursive insertion through node pointers: linked nodes, code, flag, size and destroyed data agree with the value-level insertion; a nonzero return leaves pointers alone |
| BisTree.SearchTree.HideAt | lib/_structs/bistree.c:260-280 | marks in place; -1 exactly on an absent key; as many comparisons as the search makes |
| BisTree.SearchTree.LookupAt | lib/_structs/bistree.c:282-307 | 0 with the stored datum exactly on a live key, else -1 with the query left as it was |
| BisTree.SearchTree.DestroyLeft | lib/_structs/bistree.c:100-126 | empties the slot, or the whole tree, takes its node count off `size` and destroys its data in postorder |
| BisTree.SearchTree.DestroyRight | lib/_structs/bistree.c:128-156 | the same for the right slot; with no node given, the whole tree |
| BisTree.SearchTree.Insert | lib/_structs/bistree.c:326-332 | the object stays the tree of its call history with this call appended, and returns the code of that call |
| BisTree.SearchTree.Remove | lib/_structs/bistree.c:334-338 | the same for removal; no node moves, `size` stays, logarithmically many comparisons |
| BisTree.SearchTree.Lookup | lib/_structs/bistree.c:340-344 | 0 exactly when the history leaves the key live, with its datum; logarithmically many comparisons; the tree as it was, so calls can follow one another |
| BisTree.SearchTree.Destroy | lib/_structs/bistree.c:317-324 | ends empty with size 0 and exactly the data of the teardown of its history destroyed |
| MdpInvariants.DeleteSound | lib/zeromq/MDP/mdbroker.c:281-295 | deleting a worker keeps both waiting lists in agreement and the counters exact |
| MdpInvariants.PurgeSound | lib/zeromq/MDP/mdbroker.c:187-200 | so does the purge, whatever the clock says |
| MdpInvariants.PurgeRemovesPrefix | lib/zeromq/MDP/mdbroker.c:187-200 | the purge removes exactly the longest prefix of workers found expired, each by its own clock reading |
| MdpInvariants.PurgeCompleteIffOrdered | lib/zeromq/MDP/mdbroker.c:135-137 | at a standing clock no expired worker is left if and only if no fresh worker stood before an expired one |
| MdpBrokerRuns.ExpiredRemains | lib/zeromq/MDP/mdbroker.c:187-200 | a run: two workers register, the first beats, and every clock reading of the next turn is past the expiry of the second, which the purge of that turn leaves listed |
| MdpInvariants.DispatchOneSound | lib/zeromq/MDP/mdbroker.c:248-254 | a dispatch goes to a worker that waits and is registered for that very service, and stops it waiting |
| MdpInvariants.DispatchLoopSettles | lib/zeromq/MDP/mdbroker.c:240-256 | after the loop no service has both a waiting worker and a request, and requests stay first-in first-out |
| MdpInvariants.DispatchInv | lib/zeromq/MDP/mdbroker.c:240-256 | dispatching restores the whole invariant from a state where only the service at hand may have both worker and request |
| MdpInvariants.WaitingInv | lib/zeromq/MDP/mdbroker.c:326-334 | making a worker wait and dispatching keeps the whole invariant |
| MdpInvariants.StrangerSound | lib/zeromq/MDP/mdbroker.c:131-143 | a message from a stranger leaves no trace but the disconnect it is sent |
| MdpInvariants.HeartbeatSound | lib/zeromq/MDP/mdbroker.c:135-140 | a heartbeat refreshes the expiry in place and keeps the lists in agreement |
| MdpInvariants.WorkerMsgInv | lib/zeromq/MDP/mdbroker.c:96-151 | every compliant worker message keeps the invariant |
| MdpInvariants.ClientMsgInv | lib/zeromq/MDP/mdbroker.c:153-185 | every client message of at least two frames keeps the invariant |
| MdpInvariants.TimerInv | lib/zeromq/MDP/mdbroker.c:378-386 | purge and heartbeats of the timer keep the invariant |
| MdpInvariants.TurnKeepsInv | lib/zeromq/MDP/mdbroker.c:343-387 | a turn of the main loop on a compliant message, or on none, keeps the invariant |
| MdpInvariants.RunInv | lib/zeromq/MDP/mdbroker.c:336-387 | in every state reached by compliant messages: no duplicates in the waiting list, registered workers only, its subsequence for each service is that service's list in order, counters exact, no service with both worker and request, accepted requests are those dispatched then those queued |
| MdpInvariants.MmiTruthful | lib/zeromq/MDP/mdbroker.c:163-174 | the code worked out for mmi.service is 200 if and only if a worker is bound to the named service; what is sent is the subject of `MdpEffects.MmiAnswer` |
| MdpInvariants.SecondReplyBreaks | lib/zeromq/MDP/mdbroker.c:122-130 | a second REPLY from a waiting worker leaves it listed twice or worse |
| MdpBrokerRuns.ListedTwice | lib/zeromq/MDP/mdbroker.c:122-130 | a run: a worker registers, replies unasked, and is listed twice, for the broker and for its service |
| MdpInvariants.UnknownCommandBreaks | lib/zeromq/MDP/mdbroker.c:144-147 | an unknown command from a stranger leaves a worker registered without service |
| MdpInvariants.InvIffCompliant | lib/zeromq/MDP/mdbroker.c:343-387 | from any invariant state the next turn keeps the invariant if and only if its message is compliant |
| MdpEffects.TimerSends | lib/zeromq/MDP/mdbroker.c:378-386 | said of the timer without its parts: when the deadline has passed, one heartbeat to each worker still waiting after the purge, in order, nothing else, and the next deadline 2500 ms after the last reading; before it, nothing changes but the clock reading |
| MdpEffects.MmiAnswer | lib/zeromq/MDP/mdbroker.c:163-181 | from a sound state a management request is answered by exactly one message, the request with its last frame replaced: 200 or 404 as a worker is bound to the service named there, 501 for any name under mmi but mmi.service; no worker, waiting list or log entry changes |
| MdpTruth.MmiTrue | lib/zeromq/MDP/mdbroker.c:163-181 | in every run of the whole system, every answer a client awaits from the management interface is the truth about the workers registered at the step that took its request |
| MdpEffects.TurnedAway | lib/zeromq/MDP/mdbroker.c:111-143 | a reply or heartbeat from someone not registered, and READY from a name under mmi, is answered with DISCONNECT and leaves no other trace; DISCONNECT from a stranger leaves none at all |
| MdpEffects.Unregisters | lib/zeromq/MDP/mdbroker.c:108-109 | DISCONNECT, or a second READY, unregisters its sender and takes it off every list, answered with DISCONNECT in the second case only; every other worker stays as it was |
| MdpEffects.ReadyRegisters | lib/zeromq/MDP/mdbroker.c:113-119 | a newcomer is registered for the service its READY names, for 7500 ms from the clock reading |
| MdpEffects.ForwardsReply | lib/zeromq/MDP/mdbroker.c:122-130 | a reply goes first thing to the client it is addressed to, under the name of the service of the worker that sent it |
| MdpEffects.ReceiveSpares | lib/zeromq/MDP/mdbroker.c:343-376 | a message unregisters nobody but its sender, and its sender only by READY or DISCONNECT, as long as no clock reading reaches the worker's expiry |
| MdpEffects.TurnKeeps | lib/zeromq/MDP/mdbroker.c:336-387 | a worker registered after a turn is the one it was, or its message in that turn was READY, REPLY or HEARTBEAT and it is kept for 7500 ms |
| MdpEffects.RunKeeps | lib/zeromq/MDP/mdbroker.c:336-387 | in every run each registered worker was heard, and expires 7500 ms after the first clock reading of the last turn that brought a READY, REPLY or HEARTBEAT from it |
| MdpEffects.RunTold | lib/zeromq/MDP/mdbroker.c:96-185 | in every run, from the messages alone: the requests accepted are those the messages brought, in order, none lost; the REQUEST messages sent are those the log says were given to workers, each to the worker it says |
| MdpEffects.TurnAdds | lib/zeromq/MDP/mdbroker.c:336-387 | in a turn the broker writes to registered workers, to whoever wrote to it, and to the client a reply is addressed to, and to no one else |
| MdpEffects.TurnBeats | lib/zeromq/MDP/mdbroker.c:343-386 | in every turn, with a message or without, the clock is read for the heartbeats after the message has been dealt with: past the deadline, each worker then waiting gets one, in order; otherwise nothing more is sent and the deadline stays |
| MdpEffects.RequestPurges | lib/zeromq/MDP/mdbroker.c:240-247 | a request first throws out every worker at the front of the list found expired, so that none of them is given it |
| MdpEffects.WaitingPurges | lib/zeromq/MDP/mdbroker.c:326-334 | so does a worker that goes back to waiting |
| MdpEffects.TimerPurges | lib/zeromq/MDP/mdbroker.c:378-379 | and so does the timer when heartbeats are due |
| MdpEffects.DispatchGives | lib/zeromq/MDP/mdbroker.c:246-254 | whoever is given a request is still registered after it, for that very service |
| MdpOrder.ServesLongestWaiting | lib/zeromq/MDP/mdbroker.c:240-256 | in every run the workers wait in the order of their last READY or REPLY, and in every turn a request given to a worker goes to the one waiting longest of those registered for that service |
| MdpBrokerObject.Broker.constructor | lib/zeromq/MDP/mdbroker.c:59-72 | no services, workers or waiting list; first heartbeat one interval ahead |
| MdpBrokerObject.Broker.Delete | lib/zeromq/MDP/mdbroker.c:281-295 | in any state, the new state is the value-level deletion of the old one, disconnect message included |
| MdpBrokerObject.Broker.PurgeExpired | lib/zeromq/MDP/mdbroker.c:187-200 | in any state the loop ends and computes the value-level purge, a freed worker at the head included |
| MdpBrokerObject.Broker.Dispatch | lib/zeromq/MDP/mdbroker.c:240-256 | in any state the loop ends and computes the value-level dispatch |
| MdpBrokerObject.Broker.Waiting | lib/zeromq/MDP/mdbroker.c:326-334 | back of both lists, fresh expiry, dispatch, as the value-level step; dead for a worker without service |
| MdpBrokerObject.Broker.OnReady | lib/zeromq/MDP/mdbroker.c:107-120 | the READY branch on any message, a missing service name included: the new state is that of the value-level branch |
| MdpBrokerObject.Broker.OnReply | lib/zeromq/MDP/mdbroker.c:122-133 | the REPLY branch on any message, one from a waiting or unbound worker included: the new state is that of the value-level branch |
| MdpBrokerObject.Broker.OnWorker | lib/zeromq/MDP/mdbroker.c:96-151 | on every message, malformed ones included, the new state is that of the value-level handler |
| MdpBrokerObject.Broker.OnClient | lib/zeromq/MDP/mdbroker.c:153-185 | on every message, too short ones included, the new state is that of the value-level handler, and from a sound state a management request is answered by exactly one message: the request itself with its last frame replaced by 200 or 404 as a worker is bound to the service named there, or by 501 for any other name under mmi |
| MdpBrokerObject.Broker.Turn | lib/zeromq/MDP/mdbroker.c:343-387 | one turn on any message or none: new state that of the value-level turn, and from an invariant state the invariant holds after it if and only if the message was compliant |
| MdpBrokerObject.Broker.HeartbeatWaiting | lib/zeromq/MDP/mdbroker.c:380-384 | the messages sent are one heartbeat frame by frame for each waiting worker, in list order, and no other |
| MdpBrokerObject.Broker.Beat | lib/zeromq/MDP/mdbroker.c:378-386 | when the deadline has passed exactly one heartbeat to each worker still waiting after the purge, in order; before it nothing is sent and nobody leaves the list; deadline as the value-level timer |
| MdpSystem.PurgeWired | lib/zeromq/MDP/mdbroker.c:187-200 | purging drops only workers that neither hold nor are being sent a request, so every request stays where the log says it is |
| MdpSystem.DispatchOneWired | lib/zeromq/MDP/mdbroker.c:248-254 | a dispatched request is the pending one of its client, moves to exactly one worker, and that worker holds no other |
| MdpSystem.ForwardWired | lib/zeromq/MDP/mdbroker.c:122-130 | a reply passed on is an accepted answer to the pending request of the client it is addressed to |
| MdpSystem.ClientMsgWired | lib/zeromq/MDP/mdbroker.c:153-185 | a request taken is queued, dispatched or answered by the management interface, never duplicated |
| MdpSystem.HelloWired | lib/zeromq/MDP/mdbroker.c:107-120 | READY on a new connection registers the worker for its own service with nothing else under way |
| MdpSystem.ReplyWired | lib/zeromq/MDP/mdbroker.c:122-133 | REPLY finds its worker registered and not waiting |
| MdpSystem.ReceiveInv | lib/zeromq/MDP/mdwrkapi.c:113-158 | receiving a broker message, after any losses, keeps the system invariant |
| MdpSystem.AnswerInv | lib/zeromq/MDP/mdwrkapi.c:102-108 | answering the request in hand keeps the system invariant |
| MdpSystem.SubmitInv | lib/zeromq/MDP/mdcliapi.c:81-82 | a call of the client keeps the system invariant, also where the socket refuses it because a given-up request is still unanswered |
| MdpSystem.TakeRequestInv | lib/zeromq/MDP/mdwrkapi.c:142-146 | taking a request unwraps exactly the address and body the broker wrapped, and keeps the system invariant |
| MdpSystem.DeliverInv | lib/zeromq/MDP/mdcliapi.c:92-111 | receiving a reply, or failing on it, keeps the system invariant |
| MdpSystem.ActInv | lib/zeromq/MDP/mdbroker.c:336-387 | every step of clients, workers, broker and lossy links keeps the system invariant |
| MdpSystem.ReachableInv | lib/zeromq/MDP/mdbroker.c:336-387 | the system invariant holds in every reachable state for any number of clients and workers, calls given up, reconnections, any clock and any losses |
| MdpSystem.ApiIsCompliant | lib/zeromq/MDP/mdwrkapi.c:99-176 | whatever the two programming interfaces put on a link is compliant for the broker in any reachable state |
| MdpSystem.WorkerGetsItsRequests | lib/zeromq/MDP/mdwrkapi.c:131-144 | any message reaching a worker passes its assertions, and a request it holds is the pending one, for its own service, of the client it will answer |
| MdpDelivery.ReachableBooks | lib/zeromq/MDP/mdcliapi.c:66-128 | in every reachable state the request pending on a client's socket is that of the first call since the last reply, and the log of its calls is one the interface can produce |
| MdpDelivery.DeliveryIff | lib/zeromq/MDP/mdcliapi.c:92-110 | whatever reaches a call has the size and header asserted, answers the first call since the last reply on that connection, and is followed by no second answer; it passes the assertion on the service if and only if that call asked for the same service, and answers this call's own request if and only if no earlier call is still without its reply |
| MdpDelivery.UnabandonedIsOwn | lib/zeromq/MDP/mdcliapi.c:92-110 | a call on a connection where none was given up unanswered passes all three assertions and gets an answer to its own request |
| MdpDelivery.EchoIff | lib/zeromq/MDP/mdworker.c:8-21 | with echo workers a call gets back, unchanged and leading empty frames included, the body of the first call since the last reply: its own if and only if the two agree |
| MdpStaging.EventStaged | lib/zeromq/MDP/mdcliapi.c:66-128 | in a calm system with any number of other clients, any next event of a client's calls can be brought about, with the reply then owed, if any, at its door |
| MdpAbandoned.ScriptStaged | lib/zeromq/MDP/mdcliapi.c:66-128 | every log of calls the interface can produce is the log of some run of the whole system, with the reply still owed, if any, at the client's door |
| MdpAbandoned.SomeRunMeets | lib/zeromq/MDP/mdcliapi.c:88-93 | so for every log that ends in a call there is a run in which a message reaches that call |
| MdpAbandoned.AlwaysPassesIff | lib/zeromq/MDP/mdcliapi.c:99-106 | a call passes the assertions in every run with its log, whatever workers, clock and network do, if and only if the first call since the last reply asked for the same service |
| MdpAbandoned.AlwaysOwnIff | lib/zeromq/MDP/mdcliapi.c:92-127 | a call gets the answer to its own request in every run with its log, whatever workers, clock and network do, if and only if no earlier call on that connection was given up and left unanswered |
| MdpAbandoned.AlwaysEchoIff | lib/zeromq/MDP/mdcliapi.c:92-127 | with echo workers a call gets its own body back in every run with its log if and only if the first call since the last reply had the same body |
| MdpAbandoned.LateReply | lib/zeromq/MDP/mdcliapi.c:112-127 | for any two requests there is a run in which the first is given up and the second call then receives the reply to the first |
| MdpAbandoned.LateReplyCrashes | lib/zeromq/MDP/mdcliapi.c:105-106 | a call for A is given up, and the next call, for B, fails its assertion on the late reply to A |
| MdpApi.MdWorker.constructor | lib/zeromq/MDP/mdwrkapi.c:55-71 | a new worker has one connection, whose first message is READY for its service |
| MdpApi.TurnedInv | lib/zeromq/MDP/mdwrkapi.c:113-172 | every turn of the loop keeps READY first and only once on each connection; the third silent poll in a row or a disconnect, and nothing else, opens a new one |
| MdpApi.ReceivedInv | lib/zeromq/MDP/mdwrkapi.c:99-176 | for every reply and every list of polls: one READY per connection, and an owed reply goes out first, to its own client, on the connection in use |
| MdpApi.AnswerGoesBack | lib/zeromq/MDP/mdwrkapi.c:102-146 | for any two calls in a row: the reply goes out, first thing, on the connection that was in use when its request arrived, to the client that request names |
| MdpApi.TurnSends | lib/zeromq/MDP/mdwrkapi.c:113-172 | what one poll sends, frame by frame: READY on the next connection if the worker reconnects, else a heartbeat on the one in use if its time is over, and nothing after a request |
| MdpApi.SilenceReconnects | lib/zeromq/MDP/mdwrkapi.c:160-166 | over any number of silent polls in a row, each third one since the last message opens the next connection, and no other: connections and liveness in closed form |
| MdpApi.MdWorker.SendToBroker | lib/zeromq/MDP/mdwrkapi.c:21-37 | in any state: the frames of one message on the connection in use, nothing else changed |
| MdpApi.MdWorker.Connect | lib/zeromq/MDP/mdwrkapi.c:39-53 | in any state: a new connection, one further on, whose first message is READY |
| MdpApi.MdWorker.Take | lib/zeromq/MDP/mdwrkapi.c:129-157 | a request is returned with the address to answer; a disconnect reconnects; any other command changes only the liveness |
| MdpApi.MdWorker.Miss | lib/zeromq/MDP/mdwrkapi.c:159-166 | the third silent poll in a row, and no other, reconnects |
| MdpApi.MdWorker.Pulse | lib/zeromq/MDP/mdwrkapi.c:168-171 | one heartbeat goes out, on the connection in use, exactly when it is due |
| MdpApi.MdWorker.Recv | lib/zeromq/MDP/mdwrkapi.c:99-176 | for every reply and every list of polls the object ends as the value-level `mdwrk_recv` does, returns its request, and aborts exactly where an assertion fails |
| MdpApi.RetriedCopies | lib/zeromq/MDP/mdcliapi.c:79-127 | for every list of polls at most `retries` copies go out, each on a connection of its own, the first refused if the socket still waits for a reply; after a reply the socket is free again |
| MdpApi.SendEnds | lib/zeromq/MDP/mdcliapi.c:79-127 | the whole call by its polls alone: every silent poll but the last one allowed opens a connection; the message that broke the silence in time is the reply, less its two header frames, or fails an assertion; otherwise NULL, with the socket still waiting exactly if the last thing done was a try |
| MdpApi.SendCopies | lib/zeromq/MDP/mdcliapi.c:79-127 | what the call sends, by its polls alone: one copy of the request per poll up to the one that broke the silence and up to `retries`, each on the next connection, less the first where the socket still waits for a reply |
| MdpApi.MdClient.constructor | lib/zeromq/MDP/mdcliapi.c:23-37 | one connection, nothing sent, no reply awaited |
| MdpApi.MdClient.Send | lib/zeromq/MDP/mdcliapi.c:66-128 | for every request and every list of polls the object ends as the value-level `mdcli_send` does, returns its reply, and aborts exactly where an assertion fails |
| MdpDeployed.MovedMirrors | lib/zeromq/MDP/mdwrkapi.c:99-176 | every call and every poll of the worker object, failed ones included, and every step of anyone else, leaves object and connection in agreement: what it sent last is what is on the link, the address it keeps is that of the request in hand; it aborts if and only if the program calls without the reply it owes or with one it does not owe |
| MdpDeployed.RequestIsHeld | lib/zeromq/MDP/mdwrkapi.c:142-146 | a request the object returns is, body and address, the one its connection then holds in the system |
| MdpDeployed.NewObject | lib/zeromq/MDP/mdwrkapi.c:55-71 | a new worker object agrees with its new connection |
| MdpDeployed.ObjectRefines | lib/zeromq/MDP/mdwrkapi.c:99-176 | whatever the worker object does among any others, in any order, is a run of the system in which the two agree until the program misuses it |
| MdpDeployed.ObjectIsCompliant | lib/zeromq/MDP/mdwrkapi.c:21-37 | the frames the worker object really sent and the link still holds are compliant for the broker as it then is |
| MdpDeployed.RecvIsMoves | lib/zeromq/MDP/mdwrkapi.c:99-176 | `mdwrk_recv` as a whole, on the polls those moves give it, aborts exactly on misuse, else leaves the object as the moves do and returns a request exactly when its connection then holds one: that body, for the client it will answer |
| MdpCaller.FailsIffMismatch | lib/zeromq/MDP/mdcliapi.c:66-128 | every call, try and poll of the client object, and every step of anyone else, leaves object and connection in agreement, unless it delivers a message answering a call for another service: then, and only then, it aborts |
| MdpCaller.NewObject | lib/zeromq/MDP/mdcliapi.c:23-37 | a new client object agrees with its new connection |
| MdpCaller.ObjectRefines | lib/zeromq/MDP/mdcliapi.c:66-128 | whatever the client object does among any others, in any order, is a run of the system in which the two agree until an assertion fails |
| MdpCaller.ObjectIsCompliant | lib/zeromq/MDP/mdcliapi.c:73-82 | the frames of a request the client object really sent and the link still holds are compliant for the broker as it then is |
| MdpCaller.SendIsMoves | lib/zeromq/MDP/mdcliapi.c:66-128 | `mdcli_send` as a whole, on the polls those moves give it, leaves the object as the moves do, aborts exactly when they do, and returns a reply exactly when they bring one, and that one |
| MdpCaller.ReplyFits | lib/zeromq/MDP/mdcliapi.c:92-110 | the reply it returns fits the request its connection owed, and that asked for the same service |
| MdpSessions.TracksAll | lib/zeromq/MDP/mdcliapi.c:66-128 | over any calls of the client object and any redials, the request its connection in use still owes is the one read off the calls and how they ended, and each call ended in one of the ways possible |
| MdpSessions.SessionPossible | lib/zeromq/MDP/mdcliapi.c:66-128 | every object in every run has made only calls that can end as they did |
| MdpSessions.SessionGoes | lib/zeromq/MDP/mdcliapi.c:66-128 | and every such sequence of calls, with any endings and redials, is made by the object in some run |
| MdpSessions.NextCallSafeIff | lib/zeromq/MDP/mdcliapi.c:66-128 | after any calls, ended as they did, the next call cannot fail an assertion in any system if and only if nothing is owed or it asks for the service owed |
| MdpSessions.NextCallAfter | lib/zeromq/MDP/mdcliapi.c:79-127 | after a reply the next call is always safe; after NULL from silent polls alone it is safe if and only if it asks for the service owed: with several tries that of the call just given up, with one that of the first call since the last reply |
| KvMsg.Encode | lib/zeromq/clone/kvsimple.c:160-179 | eight bytes, each within 0..255 |
| KvMsg.RoundTrip | lib/zeromq/clone/kvsimple.c:139-179 | with byte 5 shifted by 16, as the encoder implies, decoding undoes encoding for every 64-bit number |
| KvMsg.SeenIs | lib/zeromq/clone/kvsimple.c:139-179 | the decoder as written adds byte 5 once more, ten bits too high, in 64-bit arithmetic |
| KvMsg.SeenIffByteClear | lib/zeromq/clone/kvsimple.c:139-179 | it returns the number written if and only if bits 16 to 23 are zero |
| KvMsg.SeenIdempotent | lib/zeromq/clone/kvsimple.c:139-179 | decoding, encoding and decoding again changes nothing more |
| KvMsg.OrderedIffBelowLimit | lib/zeromq/clone/kvsimple.c:139-179 | the numbers up to n are read in strictly increasing order if and only if n is below 2^24 |
| KvMsg.SeenInBlock | lib/zeromq/clone/kvsimple.c:139-179 | every block of 2^24 numbers is read as the first one is, moved to its place |
| KvMsg.SeenIncreasesInBlock | lib/zeromq/clone/kvsimple.c:139-179 | within any block numbers are read in order |
| KvMsg.SeenDropsAtEdge | lib/zeromq/clone/kvsimple.c:139-179 | at the end of every block the number read drops |
| Clone.SnapshotRebuilds | lib/zeromq/clone/clonecli2.c:16-27 | storing a snapshot in any order rebuilds the table it was taken from |
| Clone.RunFaithful | lib/zeromq/clone/clonecli2.c:14-39 | in every run whose stream starts at most one past the snapshot and whose numbers are read in order, the replica holds exactly the first updates up to its position, and its number says which |
| Clone.DrainedIsComplete | lib/zeromq/clone/clonecli2.c:29-39 | once its stream is drained such a replica holds the whole published state |
| Clone.PublishedIs | lib/zeromq/clone/clonecli2.c:14-39 | in every run the history is the sequence of updates the events published, none lost and none made up |
| Clone.Converges | lib/zeromq/clone/clonecli2.c:14-39 | from the events alone: once a subscriber has joined, whatever came before, storing, loading any snapshot no older than the stream and receiving the rest leaves the replica with every update published and the number of the last |
| Clone.UpdateLost | lib/zeromq/clone/clonecli2.c:33-35 | in any run: a faithful replica that has read its whole stream drops the next update where its number is read as no newer, and is faithful no more unless that update changes nothing |
| Clone.UpdateLostAtEdge | lib/zeromq/clone/clonecli2.c:33-35 | wherever the stream is joined, a run to the end of that block of 2^24 numbers after which the next update has been delivered and dropped |
| Clone.FaithfulIffOneBlock | lib/zeromq/clone/clonecli2.c:14-39 | every timely run joined at number j with at most n updates is faithful if and only if j and n lie in the same block of 2^24 numbers |
| Clone.FaithfulIffBelowLimit | lib/zeromq/clone/clonecli2.c:14-39 | with the decoder as written, every timely run of at most n updates is faithful if and only if n is below 2^24 |
| Clone.FaithfulWhenExact | lib/zeromq/clone/clonecli2.c:14-39 | with the decoder the encoder implies, every timely run within the 64-bit range is faithful |
| Clone.StateManager.OnUpdate | lib/zeromq/clone/clonesrv2.c:65-71 | the number read becomes the manager's, and the table gains exactly that entry |
| Clone.StateManager.Snapshot | lib/zeromq/clone/clonesrv2.c:84-93 | every stored entry exactly once, in some order, then the closing message with the current number |
| Clone.StateManager.ManageNext | lib/zeromq/clone/clonesrv2.c:65-71 | storing the next published update is the run's own step |
| Clone.StateManager.SnapshotOf | lib/zeromq/clone/clonesrv2.c:73-94 | a snapshot taken in any run state is one the replica's load of that state accepts |
| Clone.Replica.LoadSnapshot | lib/zeromq/clone/clonecli2.c:16-27 | every message before the closing one, or before a receive that fails, is stored, over whatever the table held; the number is that of the closing message, or stays where there is none |
| Clone.Replica.OnUpdate | lib/zeromq/clone/clonecli2.c:33-38 | a newer update is applied with its number, any other changes nothing |
| Clone.Replica.LoadFrom | lib/zeromq/clone/clonecli2.c:14-27 | loading a snapshot of a run state is the run's own step |
| Clone.Replica.DeliverNext | lib/zeromq/clone/clonecli2.c:29-39 | receiving the next update is the run's own step |
| PirateQueue.WithoutPlace | lib/zeromq/reliable/ppqueue.c:37-50 | the loop removes the first entry with that identity, if any, and no other |
| PirateQueue.ReadyInv | lib/zeromq/reliable/ppqueue.c:37-50 | a message from a worker keeps the list free of duplicates, sorted by expiry and by when each was last heard |
| PirateQueue.PurgeInv | lib/zeromq/reliable/ppqueue.c:63-75 | the purge keeps all of that |
| PirateQueue.TurnInv | lib/zeromq/reliable/ppqueue.c:89-139 | so does a turn of the main loop |
| PirateQueue.RunInv | lib/zeromq/reliable/ppqueue.c:77-139 | with a non-decreasing clock the invariant holds after every sequence of inputs, and the assertion in the dispatch never fails |
| PirateQueue.PurgeRemovesExactlyExpired | lib/zeromq/reliable/ppqueue.c:63-75 | the purge leaves exactly the workers unexpired at its last clock reading, in order |
| PirateQueue.GivesLeastRecent | lib/zeromq/reliable/ppqueue.c:89-139 | in every turn of every run: a request taken goes to the listed worker heard from least recently, the message of that turn counted, strictly before every other; none is taken exactly when no worker was listed before the poll |
| PirateQueue.RunEarned | lib/zeromq/reliable/ppqueue.c:37-61 | in every run, for every identity: requests given to it, plus one if it is listed, are at most the messages heard from it |
| PirateQueue.ServedLeaves | lib/zeromq/reliable/ppqueue.c:52-61 | after any turn that takes a request, no entry of the list has the identity served |
| PirateQueue.RunDated | lib/zeromq/reliable/ppqueue.c:37-50 | in every run each listed worker expires exactly 3000 ms after the clock reading of the last turn in which it was heard |
| PirateQueue.RunHeard | lib/zeromq/reliable/ppqueue.c:89-139 | in every run the messages heard are those of the inputs, in order, none lost and none made up |
| PirateQueue.ListedIff | lib/zeromq/reliable/ppqueue.c:37-75 | in every run a worker is listed if and only if it was heard, has not been given a request since, and its three seconds were not over at the last clock reading |
| PirateQueue.BeatsAll | lib/zeromq/reliable/ppqueue.c:128-137 | in every turn, when the second is over, one heartbeat to each worker still listed after the dispatch, in order, and the next due a second later; otherwise none |
| PirateQueue.Queue.OnBackend | lib/zeromq/reliable/ppqueue.c:37-50 | find, remove and append in place compute the value-level step |
| PirateQueue.Queue.OnFrontend | lib/zeromq/reliable/ppqueue.c:52-61 | the head leaves the list, the rest stay in order, and that worker is given the request |
| PirateQueue.Queue.PurgeExpired | lib/zeromq/reliable/ppqueue.c:63-75 | the loop ends and computes the value-level purge |
| PirateQueue.Queue.SendBeats | lib/zeromq/reliable/ppqueue.c:130-135 | one heartbeat to each listed worker, in order, and no other |
| PirateQueue.Queue.Heartbeat | lib/zeromq/reliable/ppqueue.c:128-137 | one heartbeat to each listed worker, in order, and the deadline moved, exactly when it has passed; otherwise none |
| PirateQueue.Queue.LoopOnce | lib/zeromq/reliable/ppqueue.c:89-139 | one turn: invariant kept, for every pair of inputs |
| ThreadPool.SafeNext | lib/threadpool/threadpool.c:26-101 | every step of adders, threads and destroyer keeps mutual exclusion, the counter and what each thread knows while it holds the lock |
| ThreadPool.RunSafe | lib/threadpool/threadpool.c:26-101 | so in every reachable state of any number of threads and adders, spurious wake-ups included, the assertions before the dequeue hold |
| ThreadPool.CounterExactWhenFree | lib/threadpool/threadpool.c:26-98 | whenever the lock is free, up to the final drain, the counter is the queue's length |
| ThreadPool.NoLostWakeup | lib/threadpool/threadpool.c:26-99 | before shutdown, with a thread and a queued task, some thread is not waiting or some signal is still to come; more exactly, sleepers imply at least as many of these as queued tasks |
| ThreadPool.RunAccounts | lib/threadpool/threadpool.c:26-98 | in every reachable state the tasks added are those taken, then those drained, then the queue, in order; each thread has run exactly what it took but for the one in hand; which tasks those are by the calls made is the subject of `NothingLost` |
| ThreadPool.NothingLost | lib/threadpool/threadpool.c:26-39 | in every run that stays off a freed pool, from the calls alone: each task has been handed to `threadpool_add_worker` as often as it was added plus the calls still carrying it to the queue |
| ThreadPool.ReturnedAreQueued | lib/threadpool/threadpool.c:26-98 | in such a run, once every call has returned, the tasks of the calls are those taken, those discarded and those queued, each as often |
| ThreadPool.HistoriesGrow | lib/threadpool/threadpool.c:26-98 | along every run, what was added, taken by a thread or run only grows at the end |
| ThreadPool.WakesAtMostOne | lib/threadpool/threadpool.c:26-47 | a caller's signal wakes one thread whenever any sleeps, the broadcast wakes all, and no other step wakes more than one |
| ThreadPool.DestroyedPartition | lib/threadpool/threadpool.c:41-66 | in every run, once the pool is destroyed, the tasks taken, then those discarded, are the tasks added, in order, each taken by one thread, and every thread has run exactly what it took; with all calls returned these are the tasks of the calls, each as often |
| PoolShutdown.StaleUseIff | lib/threadpool/threadpool.c:41-66 | judged when `threadpool_destroy` is called in any safe state: no call of `threadpool_add_worker` already begun can come to touch the freed pool if and only if all of them have returned, whatever threads, queue and lock are at |
| PoolShutdown.StaleRun | lib/threadpool/threadpool.c:41-66 | a run without threads in which a call begun goes on after the pool is freed |
| PoolShutdown.StaleRunOneThread | lib/threadpool/threadpool.c:41-66 | such a run with a thread, which leaves properly |
| PoolShutdown.HangsIffThreads | lib/threadpool/threadpool.c:41-52 | judged at that call: some interleaving makes it wait for ever in the join, with all callers returned and short of a wake-up without a signal, if and only if the pool has a thread at all |
| ThreadPool.BroadcastReachesAllIff | lib/threadpool/threadpool.c:41-47 | after the unlocked broadcast no thread can ever wait again if and only if none stood between its test and its wait |
| ThreadPool.MissedShutdown | lib/threadpool/threadpool.c:41-52 | a run in which the only thread sleeps through the shutdown it is joined for |
| LinkedList.LinkBehind | lib/threadpool/list.c:48-54 | one element goes in behind another: one chain still, no element twice, all other values in place |
| LinkedList.UnlinkBehind | lib/threadpool/list.c:75-83 | the element behind another comes out, all other values in place |
| LinkedList.List.constructor | lib/threadpool/list.c:6-15 | empty, with or without a destroy callback |
| LinkedList.List.InsFront | lib/threadpool/list.c:32-58 | at the front, tail pointer included where the list was empty; -1 and no change where malloc fails |
| LinkedList.List.InsNext | lib/threadpool/list.c:32-58 | behind any element of the list, tail pointer included; -1 and no change where malloc fails |
| LinkedList.List.RemFront | lib/threadpool/list.c:60-90 | the first value comes out, tail pointer cleared with the last; -1 exactly on an empty list |
| LinkedList.List.RemNext | lib/threadpool/list.c:60-90 | the value behind any element comes out, tail pointer moved with the last; -1 exactly behind the tail |
| LinkedList.List.DestroyAll | lib/threadpool/list.c:17-30 | every value goes to the callback in order, if there is one, and nothing is left |
| LinkedList.List.Enqueue | lib/threadpool/queue.c:6-9 | appends at the end through the tail pointer; new elements are fresh, so calls can follow one another |
| LinkedList.List.Dequeue | lib/threadpool/queue.c:11-14 | takes from the front; -1 exactly on an empty queue; no element is gained |
| LinkedList.List.Peek | lib/threadpool/queue.h:15 | the first value, or none |
| ProcessPool.PickAliveIff | lib/processpool/processpool.h:328-343 | the search finds a live child if and only if there is one |
| ProcessPool.PickNearest | lib/processpool/processpool.h:328-337 | the child picked is the first live one from the counter on, going up and around: no live child is nearer |
| ProcessPool.PickSkips | lib/processpool/processpool.h:328-337 | a dead slot under the counter does not change the choice |
| ProcessPool.ServeWalks | lib/processpool/processpool.h:325-349 | successive dispatches walk the live slots in ring order |
| ProcessPool.EachOncePerRound | lib/processpool/processpool.h:325-349 | while the live set stays the same, as many dispatches in a row as there are live children reach each exactly once |
| ProcessPool.Parent.constructor | lib/processpool/processpool.h:117-144 | the dispatcher starts at slot 0, not stopped |
| ProcessPool.Parent.Dispatch | lib/processpool/processpool.h:325-349 | the loop ends; a live child is chosen and the counter becomes its slot plus one, modulo the number of slots, or the pool stops exactly when no child lives |
| ProcessPool.Parent.Reap | lib/processpool/processpool.h:368-394 | exactly the slots of reaped children are cleared, and the pool stops if and only if none is left |
| ProcessPool.Parent.MarkGone | lib/processpool/processpool.h:374-382 | exactly the slots holding that process id are cleared |
| HashTable.GetIffStored | lib/_structs/chtbl.c:162-177 | in a well placed table an element answers a query if and only if it is stored anywhere and matches it |
| HashTable.InsertRefines | lib/_structs/chtbl.c:65-83 | inserting binds its own key and no other, keeps each element in its bucket and no two matching, and counts one more |
| HashTable.RemoveRefines | lib/_structs/chtbl.c:105-131 | removing frees its own key and no other, and counts one less exactly when something matched |
| HashTable.RunRefinesMap | lib/_structs/chtbl.c:65-212 | after any run of calls the table is well placed and answers every query as the map read off the calls |
| HashTable.StoredByHash | lib/_structs/chtbl.c:65-83 | after any run every element is in the bucket numbered by its hash modulo the number of buckets |
| HashTable.DroppedFinds | lib/_structs/chtbl.c:105-131 | dropping the first match of a key from a bucket without matching pairs frees that key and no other |
| HashTable.FindIn | lib/_structs/chtbl.c:162-177 | the walk along a linked bucket finds its first match |
| HashTable.Seek | lib/_structs/chtbl.c:105-128 | the walk with `prev` one element behind stops at the first match, or at the end |
| HashTable.DropFrom | lib/_structs/chtbl.c:105-131 | exactly the first match leaves its linked bucket, at the front or behind `prev` |
| HashTable.PushRow | lib/_structs/chtbl.c:65-83 | one linked bucket grows at the front; no other bucket, and no list object, changes |
| HashTable.DropRow | lib/_structs/chtbl.c:105-131 | one linked bucket loses its first match; no other bucket, and no list object, changes |
| HashTable.EmptyLists | lib/_structs/chtbl.c:18-19 | as many empty lists as buckets, sharing nothing |
| HashTable.InitTable | lib/_structs/chtbl.c:8-27 | 0 and an empty table with the callbacks given, or -1 and none where the buckets cannot be allocated |
| HashTable.CHTbl.constructor | lib/_structs/chtbl.c:8-27 | an array of empty linked buckets with the callbacks given, size 0 |
| HashTable.CHTbl.Lookup | lib/_structs/chtbl.c:162-177 | 0 with the bound element exactly when the history binds the key, else -1; the walk is along the linked bucket |
| HashTable.CHTbl.FindKv | lib/_structs/chtbl.c:196-212 | the bound element, or the query itself |
| HashTable.CHTbl.Insert | lib/_structs/chtbl.c:65-83 | 1 exactly on a bound key, else 0 or -1 as malloc goes; the buckets stay those of the history, and size the sum of their lengths |
| HashTable.CHTbl.Remove | lib/_structs/chtbl.c:105-131 | 0 with the element that was bound, else -1; the buckets stay those of the history, and size the sum of their lengths |
| BitOps.BitByBit | lib/app/bns/bns_hash.c:14-18 | the bitwise operations on naturals used here are exclusive or and and of every single bit |
| CStrings.BeforeCut | lib/app/bns/bns_hash.c:11-12 | text is read up to its first NUL, whatever follows |
| HashPjw.AccumulatorBounded | lib/app/bns/bns_hash.c:11-19 | the accumulator stays below 2^28 through every string, signed characters included |
| HashPjw.StepIs | lib/app/bns/bns_hash.c:11-19 | in integer arithmetic, one character takes any accumulator to 16 times it plus the character modulo 2^32, with bits 4 to 7 flipped by the top four bits and those cleared |
| HashPjw.ShortStrings | lib/app/bns/bns_hash.c:3-22 | up to six characters below 128 are the digits of a number in base 16, and the hash is that number modulo 1024 |
| HashPjw.HashPjw | lib/app/bns/bns_hash.c:3-22 | the loop, step by step in 32-bit arithmetic, computes the hash of the string up to its NUL, the one `StepIs` and `ShortStrings` give in closed form |
| HashPjw.Pjw | lib/app/bns/bns_hash.c:3-22 | the hash is within 0..1023 |
| HashPjw.KvLawful | lib/app/bns/bns_hash.c:3-27 | hash and comparison of keys meet what the table asks: non-negative, an equivalence, equal hashes on matching keys |

## Left out

- Sockets, polling, epoll, signals and the CZMQ library itself: message parts, lists and tables only.
- Freeing memory: dropping the last reference stands for it; memory leaks are not modelled.
- Overflow of `size`, `cur_queue_size` and the other counters: they are unbounded integers.
- Liveness of the network and of the scheduler: nothing says a message ever arrives or a thread ever moves.
- MdpApi.MdWorker.Recv: one clock reading serves a whole turn of the loop, the loop is over a finite list of polls, and the address given away with a reply counts as gone.
- MdpApi.MdClient.Send: retry counts are not negative.
- MdpDeployed.MovedMirrors: one worker object among abstract connections; its replies have at least one frame and are ones its service may give.
- MdpCaller.FailsIffMismatch: one client object among abstract connections; its program asks with at least one body frame and a service name without NUL.
- MdpSystem.ReachableInv: connections have distinct identities, requests and replies have at least one body frame, and service names contain no NUL, as C strings cannot.
- MdpInvariants.WorkerMsgInv: a REPLY with nothing behind the client's address counts as compliant, so `zmsg_unwrap` is taken to survive popping the address alone; with no address at all, and likewise for a REQUEST without address at the worker, it is taken to fail.
- Clone.RunFaithful: update keys differ from the closing marker, as the publisher's decimal keys do, and a snapshot is taken and loaded in one step each; a snapshot cut short is modelled in `Replica.LoadSnapshot` only.
- Clone.FaithfulIffOneBlock: for numbers below 2^63 - 2^34, where the misread number cannot pass the top of the 64-bit range.
- PirateQueue.RunInv: which worker each request goes to and whom heartbeats reach; the frames passed between client and worker are left out.
- ThreadPool.BroadcastReachesAllIff: termination of the threads is not claimed, only when the broadcast reaches all of them.
- PoolShutdown.StaleUseIff: what a use of the freed pool does is not modelled; such a run stops there. New calls of `threadpool_add_worker` after that of `threadpool_destroy` are not considered.
- ThreadPool.RunSafe: the queue is a sequence there; its pointers are the subject of `LinkedList`.
- HashTable.CHTbl.Insert: the `_kv` variants are the same code with hash and comparison on the key. `chtbl_destroy` is left out.
- HashPjw.HashPjw: plain `char` is taken to be signed, as on the usual platforms.
- ProcessPool.Parent.Reap: forking, pipes and the children's own loop are left out.
- BisTree.SearchTree.InsRight: `bitree_rem_left`, `bitree_rem_right` and `bitree_merge` are not used by the search tree and are left out.
- The second copies of the list, the stack, the tree traversals, insertion sort and the string helpers: easy members.
- The game-data converters and the socket, libevent, curl, database and interpreter demonstrations.
