# A verified model of the attention broker, its trie, its queues and the node flood

The repository keeps an attention network in memory and connects nodes that talk to each other. This project
models four of its parts in Dafny and proves what their documentation promises, or exactly when the promise
holds.

* **The handle trie** (`Keys`, `TrieHeap`, `TriePath`, `Traversal`, `HandleTrie`, `TrieThreads`, `TrieSafety`,
  `TrieRuns`, `TrieTheorems`, `TrieVisits`, `TrieProgress`, `TrieAlphabet`, `TrieClash`). A 16-way trie with
  path-compressed leaves. `TrieHeap` states one flat invariant over a set of nodes (`Wf`) and the map the nodes stand for (`Abs`), and shows what each
  write of an insert does to both. `HandleTrie` is the trie as its classes, updated in place, against that map.
  `TrieThreads` is the same code as a machine of threads: a step of a thread goes from one lock operation to the
  next, any number of inserts, lookups and traversals interleave, and the theorems of `TrieTheorems` hold of every
  run. There a value is the sequence of the items merged into it, the most general merge.
* **The Hebbian network and token spreading** (`Sums`, `Hebbian`, `Spreading`, `Accounting`, `NetworkRuns`,
  `TokenLoss`, `TokenFlow`, `HebbianNetwork`, `HebbianNetworkUpdater`, `TokenSpreader`). `Hebbian` and `Spreading` say on values
  what a correlation and a stimulate request do; the latter as one simultaneous formula. The classes do it in place,
  node by node and in whatever order the nodes come, and are proved to reach those values. `Accounting` says where
  every token goes, `NetworkRuns` what holds after any run of requests.
* **Broadcast flooding** (`Flood`, `FloodProgress`, `MessageBroker`, `CacheNode`). Messages carry their path over a
  peer graph that may grow while they are under way. `MessageBroker` is one node's code; `Flood` is the network.
* **The request queue and its workers** (`RequestQueue`, `Workers`). A circular buffer that doubles when it is full,
  and the pool of threads, chosen by parity, that empty two of them until a flag tells them to stop.

## Where the promises need a condition

* *The trie is a map* (`HandleTrie.h:13-21`). `TLB` gives `a` and `A` the same slot while keys are compared by
  character. Over an alphabet in which two characters share a slot, lookups answer with another key's value, inserts
  run past the end of their key, and a split overwrites the leaf it has just made, so that a value is lost. Each of
  the three never happens, in any run, if and only if no two characters share a slot:
  `TrieAlphabet.MapLawNeedsInjectiveTable`, `TrieClashes.RangeNeedsInjectiveTable`,
  `TrieClashes.InsertsNeedInjectiveTable`. Lower case hexadecimal digits, and upper case ones, are such alphabets; a
  mix of both is not.
* *Counts and tokens of the network* inherit this, since nodes, neighbours and the changes of a request are kept in
  tries: after a request for two handles that differ in case only at their second character, the second node is
  gone. All of `NetworkRuns`, and the methods of the network, are about handles written in one alphabet without
  clashes (`Hebbian.Written`, `NetworkRuns.Clean`).
* *The total amount of tokens remains fixed* (`StimulusSpreader.h:79-81`). `Accounting.ConservedExactlyWhen` gives
  the condition for one request and `NetworkRuns.TokensOverRuns` for a run: wages of unknown handles are paid to
  nobody, and a node without neighbours sets a share aside that it delivers to nobody. `TokenLosses` has a run for
  each.
* *Both request queues will be processed before the threads stop* (`WorkerThreads.h:42-45`).
  `Workers.StopCanStrand` shows a run that leaves a request behind; `Workers.GracefulStopDrains` says exactly when
  none is left, `Workers.ServedIffNoticed` which requests are served when they keep arriving; if they never
  cease, a thread need not stop at all (`Workers.ArrivalsKeepBusy`).
* *A request is never re-sent to nodes that have already received it* (`MessageBroker.h:195-197`). A node executes a
  broadcast once per simple path that leads to it: `Flood.ExecutedExactly`, `FloodProgress.TriangleExecutesTwice`;
  once each exactly if simple paths are unique (`Flood.OnceIffOneRoute`), that is on trees with
  back edges (`Flood.OneRouteIffBranches`) such as the cache network.

## Model

| member | source | states |
|---|---|---|
| TrieHeap.PathsUnique | src/attention_broker_server/HandleTrie.cc:92-163 | Two nodes of a trie never stand for the same prefix |
| TrieHeap.LeafOnPath | src/attention_broker_server/HandleTrie.cc:177-192 | A leaf met on the searched path is the only leaf that can hold the key |
| TrieHeap.InnerOnPath | src/attention_broker_server/HandleTrie.cc:193-203 | Below an internal node on the searched path, the child in the key's slot is on the way to the key's leaf |
| TrieHeap.AddLeafOk | src/attention_broker_server/HandleTrie.cc:123-133 | A new leaf in a free slot keeps the invariant and binds exactly its key, which was unbound |
| TrieHeap.PushDownOk | src/attention_broker_server/HandleTrie.cc:97-105 | Pushing a leaf one level down keeps the invariant and the map, and writes only the leaf and its parent |
| TrieHeap.LeafUnderDepth | src/attention_broker_server/HandleTrie.cc:95-111 | A leaf that did not match is at the depth of the cursor, within the key, and differs from the key at or after it; where its character differs, its slot does, so the two slots of a split are distinct |
| TrieHeap.SplitIsTwoWrites | src/attention_broker_server/HandleTrie.cc:106-121 | With two distinct slots, a split is a push-down and a new leaf in one |
| TrieHeap.SplitOk | src/attention_broker_server/HandleTrie.cc:106-121 | A split keeps the invariant, binds exactly the new key and writes only the leaf and its parent |
| TrieHeap.SetValueOk | src/attention_broker_server/HandleTrie.cc:151-158 | A merge rebinds exactly its key |
| TriePath.InsertInRange | src/attention_broker_server/HandleTrie.cc:90-97 | At each loop head of an insert the cursor is below the key size, hence below 255; a leaf there has its suffix start at the cursor, differs from the key at or after it, and if right there, in the slot too |
| TriePath.LeafDiffersLater | src/attention_broker_server/HandleTrie.cc:97-105 | A leaf that differs from the key at or after the cursor, but not at it, differs after it, so a push-down can be repeated |
| Traversal.OpenInner | src/attention_broker_server/HandleTrie.cc:225-234 | Replacing a node on the stack by its children, highest slot first, loses no key and keeps the order |
| Traversal.FrontierStable | src/attention_broker_server/HandleTrie.cc:207-242 | Inserts by others, pushed-down leaves included, leave a traversal's promise in place |
| Traversal.OpeningSinks | src/attention_broker_server/HandleTrie.cc:213-238 | Opening an internal node lowers the weight of the stack, so a traversal ends |
| HandleTries.HandleTrie.constructor | src/attention_broker_server/HandleTrie.cc:65-74 | A new trie is the empty map |
| HandleTries.HandleTrie.Create | src/attention_broker_server/HandleTrie.cc:65-74 | Key sizes 1 to 255 are accepted, others are errors; the trie is empty and has the given merge |
| HandleTries.HandleTrie.PushOne | src/attention_broker_server/HandleTrie.cc:97-105 | One push-down in place keeps the map and leaves the leaf one level deeper and still unmatched |
| HandleTries.HandleTrie.FindPlace | src/attention_broker_server/HandleTrie.cc:86-163 | The insert loop keeps the map and ends at the key's own value object or at the place for a new leaf |
| HandleTries.HandleTrie.Insert | src/attention_broker_server/HandleTrie.cc:80-164 | Binds an absent key to the given object, or merges into the object the key has and keeps; touches no other key's object; a wrong length is an error without effect |
| HandleTries.HandleTrie.Lookup | src/attention_broker_server/HandleTrie.cc:166-205 | Answers the key's value object, or NULL for an unbound key; a wrong length is an error |
| HandleTries.HandleTrie.Traverse | src/attention_broker_server/HandleTrie.cc:207-242 | Visits in strictly ascending slot order, each with its value, up to the first key the visit function stops at, and misses none before it |
| HandleTries.LeafDecides | src/attention_broker_server/HandleTrie.cc:177-192 | Comparing from the cursor on decides whether the key is bound |
| HandleTries.InnerDecides | src/attention_broker_server/HandleTrie.cc:193-203 | An internal node leads on along the key or shows that it is unbound |
| TrieSafety.ExecKeepsInv | src/attention_broker_server/HandleTrie.cc:91-163 | Every step of every thread keeps the trie's shape, the locks and what each thread has found out, and changes the map only when an insert takes effect |
| TrieRuns.RunKeepsInv | src/attention_broker_server/HandleTrie.cc:80-242 | So they hold in every reachable state of any number of interleaved calls |
| TrieRuns.CallsAreStarted | src/attention_broker_server/HandleTrie.cc:80-242 | A call's progress belongs to the event that began it |
| TrieTheorems.LookupLinearizes | src/attention_broker_server/HandleTrie.cc:172-204 | A lookup's answer, hit or NULL, was true of the map at an instant during the call |
| TrieTheorems.InsertLinearizes | src/attention_broker_server/HandleTrie.cc:91-163 | An insert changes the map at one instant during the call, by exactly its key and value |
| TrieTheorems.MapIsTheLog | src/attention_broker_server/HandleTrie.h:13-21 | In every run each key maps to the merge, in order, of all values inserted under it |
| TrieTheorems.LogIsExact | src/attention_broker_server/HandleTrie.cc:80-164 | Those are the values of the inserts that took effect, each once |
| TrieTheorems.TraverseIsComplete | src/attention_broker_server/HandleTrie.cc:207-242 | Under concurrent inserts a traversal visits in ascending order, no key twice, only bound keys, and every key bound when it began; if it is stopped, every such key up to the one it is stopped at |
| TrieVisits.StopsWhenTold | src/attention_broker_server/HandleTrie.cc:217-223 | A traversal asks its visit function once for each key it visits, goes on while it answers false, and ends as stopped exactly if the last answer, and none before it, was true |
| TrieVisits.UnstoppedVisitsAll | src/attention_broker_server/HandleTrie.cc:213-242 | If the visit function never answers true, a traversal that returns has visited every key that was bound when it began |
| TrieVisits.RootStaysLocked | src/attention_broker_server/HandleTrie.cc:216-241 | A traversal that is to keep the root locked holds it from its first lock to its return |
| TrieVisits.RootKeepsOut | src/attention_broker_server/HandleTrie.cc:84-241 | Until it returns, no insert, lookup or traversal begun after that lock gets past the root |
| TrieTheorems.WaitsBelow | src/attention_broker_server/HandleTrie.cc:91-141 | A thread holds only nodes strictly above the one it waits for |
| TrieTheorems.HeldWhileWaiting | src/attention_broker_server/HandleTrie.cc:134-203 | A waiting insert holds just the parent of the node it waits for, a waiting lookup nothing, a waiting traversal nothing but a root it is to keep |
| TrieTheorems.WaitsForIsAcyclic | src/attention_broker_server/HandleTrie.cc:91-241 | Following who waits for whom leads strictly deeper |
| TrieTheorems.NoDeadlock | src/attention_broker_server/HandleTrie.cc:91-241 | While a call has not returned, some thread can take a step |
| TrieTheorems.ReturnedHoldsNothing | src/attention_broker_server/HandleTrie.cc:117-241 | A call that has returned holds no lock |
| TrieTheorems.WritesAreLocked | src/attention_broker_server/HandleTrie.cc:92-160 | Every existing node a step writes is locked by the thread that writes it |
| TrieTheorems.NeverWild | src/attention_broker_server/HandleTrie.cc:90-161 | No thread indexes out of bounds or follows a dangling pointer |
| TrieProgress.StepSinks | src/attention_broker_server/HandleTrie.cc:92-238 | Every step of a thread lowers what it still has to do, in a traversal too |
| TrieProgress.CallsAreBounded | src/attention_broker_server/HandleTrie.cc:92-238 | A call takes a bounded number of its thread's steps, whatever the others do |
| TrieAlphabet.CleanHasNoPhantoms | src/attention_broker_server/HandleTrie.h:94-112 | Without slot clashes no lookup answers for a key that was never inserted |
| TrieAlphabet.ClashMakesPhantom | src/attention_broker_server/HandleTrie.cc:176-192 | With a clash, a run in which one does |
| TrieAlphabet.MapLawNeedsInjectiveTable | src/attention_broker_server/HandleTrie.h:94-112 | The two together, as an equivalence, for every key size |
| TrieAlphabet.HexAlphabets | src/attention_broker_server/HandleTrie.h:95-110 | Hexadecimal digits of one case have no clash, `a` and `A` do |
| TrieAlphabet.SlotsOfDigits | src/attention_broker_server/HandleTrie.h:94-112 | The slot of a hexadecimal digit of either case is its value, that of any other character is 0 |
| TrieAlphabet.VisitsInStringOrder | src/attention_broker_server/HandleTrie.h:78-85 | On lower case handles the order of a traversal is the order of strings |
| TrieClashes.ClashRunsWild | src/attention_broker_server/HandleTrie.cc:92-105 | With a clash, for any key size, a run in which an insert goes past the end of its key |
| TrieClashes.RangeNeedsInjectiveTable | src/attention_broker_server/HandleTrie.cc:90-161 | No run over the alphabet leaves the range of its indices if and only if no two characters share a slot |
| TrieClashes.ClashLosesInsert | src/attention_broker_server/HandleTrie.cc:111-116 | With a clash, for any key size of at least 2, a run in which an insert has returned and a later lookup does not find its value |
| TrieClashes.CleanLosesNothing | src/attention_broker_server/HandleTrie.cc:80-205 | Without one, a lookup begun after an insert of its key has returned finds the value |
| TrieClashes.InsertsNeedInjectiveTable | src/attention_broker_server/HandleTrie.cc:80-205 | The two together, as an equivalence |
| RequestQueues.RequestQueue.constructor | src/commons/RequestQueue.cc:8-14 | A queue of any positive size starts empty |
| RequestQueues.RequestQueue.Enqueue | src/commons/RequestQueue.cc:20-29 | Appends the request at any fill level; the size doubles exactly when the queue is full |
| RequestQueues.RequestQueue.Dequeue | src/commons/RequestQueue.cc:31-41 | Answers and removes the oldest request; NULL and no change when empty |
| RequestQueues.RequestQueue.CopyInOrder | src/commons/RequestQueue.cc:66-73 | The copy loop, which tests at its end, copies exactly the queued requests in order |
| RequestQueues.RequestQueue.EnlargeRequestQueue | src/commons/RequestQueue.cc:65-80 | Doubling keeps the queued requests and their order |
| RequestQueues.FirstInFirstOut | src/commons/RequestQueue.h:10-18 | Of the queue as a sequence: the answers that are no NULL, followed by what is queued, are the arrivals in order |
| RequestQueues.Replay | src/commons/RequestQueue.cc:8-80 | The ring buffer refines that sequence: from any positive initial size, any operations give its answers and leave its contents |
| RequestQueues.EvenThreadCount.Next | src/attention_broker_server/RequestSelector.cc:28-61 | A thread of even number takes the oldest stimulus request, one of odd number the oldest correlation request, NULL if there is none; the other queue stays as it is |
| Workers.RequestsAreConserved | src/attention_broker_server/WorkerThreads.cc:46-86 | In every run each request is queued, held by a thread of its kind, or processed, as often as it was sent; requests are taken in the order in which they were sent |
| Workers.EventsAreRecorded | src/attention_broker_server/AttentionBrokerServer.cc:47-71 | What a queue has received is what clients sent of its kind, in order, and the flag is up exactly if it was raised |
| Workers.QueueIsServed | src/attention_broker_server/WorkerThreads.cc:60-84 | While the flag is down, one thread alone empties its queue, an even one the stimulus queue and an odd one the correlation queue, and processes all it takes, within two turns for each request and one more; it sleeps, polls again, and touches nothing else |
| Workers.EverythingCanBeServed | src/attention_broker_server/WorkerThreads.cc:60-84 | With two threads or more and the flag down, from every reachable state the threads can process all that was sent, of both kinds, each request once |
| Workers.RunKeeps | src/attention_broker_server/WorkerThreads.cc:46-86 | Requests are taken in the order in which they arrived |
| Workers.GracefulStopDrains | src/attention_broker_server/WorkerThreads.h:42-45 | With the flag up and no later arrivals, all is processed when the threads have gone, if and only if the queue was empty or a thread of the kind was not in its sleep when the flag went up |
| Workers.ServedIffNoticed | src/attention_broker_server/WorkerThreads.cc:61-84 | When the threads of a kind have gone, exactly the requests that arrived before some such thread's last empty poll were processed |
| Workers.StopIsBounded | src/attention_broker_server/WorkerThreads.cc:34-41 | With the flag up, whatever arrives, the threads take no more steps than they had left and two for each arrival; the joins return once arrivals cease |
| Workers.ArrivalsKeepBusy | src/attention_broker_server/WorkerThreads.cc:61-84 | While requests keep arriving, a thread need not leave, for any number of rounds with the flag up |
| Workers.ExitsNeedTheFlag | src/attention_broker_server/WorkerThreads.cc:76-84 | No thread leaves before the flag is up |
| Workers.StopCanStrand | src/attention_broker_server/WorkerThreads.cc:76-83 | In a pool of any size, a request that arrived before the flag went up can be left behind |
| Keys.BeforeIsTotal | src/attention_broker_server/HebbianNetworkUpdater.cc:48 | Of two different handles exactly one comes first, so each pair is joined once |
| Hebbian.CorrelationIsExact | src/attention_broker_server/HebbianNetworkUpdater.cc:37-55 | A request adds mult(a) to the count of a and mult(a)*mult(b) to the edge of distinct a and b; a handle of the wrong size ends it after the nodes before it; for handles over an alphabet without clashes |
| Hebbian.AddAsymmetricEdgeSound | src/attention_broker_server/HebbianNetwork.cc:36-53 | The arity counts the neighbours, and the largest arity stays the maximum |
| Hebbian.CorrelateSound | src/attention_broker_server/HebbianNetworkUpdater.cc:37-55 | A request keeps the graph sound: arities, largest arity, positive counts, no loops, no edge to a missing node |
| HebbianNetworks.HebbianNetwork.AddNode | src/attention_broker_server/HebbianNetwork.cc:32-34 | For a handle over the network's alphabet, the network's value becomes that of one added node; a known handle keeps its node object |
| HebbianNetworks.HebbianNetwork.LinkEnds | src/attention_broker_server/HebbianNetwork.cc:41-51 | A first-time edge gets its two ends and counts in the arity and the largest arity |
| HebbianNetworks.HebbianNetwork.AddAsymmetricEdge | src/attention_broker_server/HebbianNetwork.cc:36-53 | The network's value becomes that of one more on the edge; every edge object still knows its two ends |
| HebbianNetworks.HebbianNetwork.AddSymmetricEdge | src/attention_broker_server/HebbianNetwork.cc:55-58 | The same for both directions |
| HebbianNetworks.HebbianNetwork.GetNodeCount | src/attention_broker_server/HebbianNetwork.cc:64-71 | The node's count, zero for an unknown handle, an error for a wrong size |
| HebbianNetworks.HebbianNetwork.GetNodeImportance | src/attention_broker_server/HebbianNetwork.cc:73-80 | The node's importance, zero for an unknown handle, an error for a wrong size |
| HebbianNetworks.HebbianNetwork.GetAsymmetricEdgeCount | src/attention_broker_server/HebbianNetwork.cc:82-91 | The edge's count, zero if there is none; the second handle is checked only if the first one is a node |
| HebbianNetworks.HebbianNetwork.AlienateTokens | src/attention_broker_server/HebbianNetwork.cc:93-100 | Hands out all undistributed tokens and leaves none |
| HebbianNetworkUpdaters.ExactCountHebbianUpdater.Correlation | src/attention_broker_server/HebbianNetworkUpdater.cc:37-55 | For handles over the network's alphabet, the nested loops over the objects reach the value of the request; it fails exactly if a handle has not 32 characters |
| Spreading.RateIsBounded | src/attention_broker_server/StimulusSpreader.cc:65-68 | A spreading rate lies between the two bounds, at the lower one only for a node without neighbours |
| Spreading.SetAsideByArity | src/attention_broker_server/StimulusSpreader.cc:64-71 | Above the lower bound a node sets aside in proportion to its arity; a node of the largest arity sets aside the upper bound of its updated importance |
| Spreading.DeliveryIsByEdgeCounts | src/attention_broker_server/StimulusSpreader.cc:75-88 | The source's own count cancels: what a neighbour gets is in proportion to the edge counts alone |
| Spreading.DeliversAll | src/attention_broker_server/StimulusSpreader.cc:90-98 | A node delivers all it has set aside, or nothing if it has no neighbours |
| Spreading.WagesAddUp | src/attention_broker_server/StimulusSpreader.cc:108-118 | The wages of known handles are their counts' share of the pool |
| Spreading.SpreadAddsUp | src/attention_broker_server/StimulusSpreader.cc:55-98 | Consolidation and diffusion lose exactly what nodes without neighbours set aside |
| Accounting.TokensAreAccounted | src/attention_broker_server/StimulusSpreader.cc:121-150 | The exact total after a request: what wages leave unpaid and what isolated nodes set aside is gone |
| Accounting.SpreadIsNonNegative | src/attention_broker_server/StimulusSpreader.cc:121-150 | No importance becomes negative |
| Accounting.KnownIsPart | src/attention_broker_server/StimulusSpreader.cc:113-118 | The counts of known handles are at most all counts, and all of them exactly if every boosted handle is a node |
| Accounting.ConservedExactlyWhen | src/attention_broker_server/StimulusSpreader.h:79-81 | The total never grows, and stays fixed if and only if the pool is paid out in full and no isolated node sets anything aside |
| NetworkRuns.GraphIsAlwaysSound | src/attention_broker_server/HebbianNetwork.cc:36-58 | The graph is sound in every state a run of requests reaches |
| NetworkRuns.CountsAreExact | src/attention_broker_server/HebbianNetworkUpdater.cc:37-55 | After any run over an alphabet without clashes, node counts are sums of multiplicities and edge counts sums of their products; stimulate requests change neither |
| NetworkRuns.CorrelateKeepsImportances | src/attention_broker_server/HebbianNetworkUpdater.cc:37-55 | A correlation spends no token, changes no importance and gives a new node none |
| NetworkRuns.EdgesAreSymmetric | src/attention_broker_server/HebbianNetwork.cc:55-58 | Edge counts are the same both ways, and there is no edge from a node to itself |
| NetworkRuns.WeightsAreProbabilities | src/attention_broker_server/HebbianNetwork.h:19-24 | Without duplicates in requests every weight is above 0 and at most 1 |
| NetworkRuns.TokensOverRuns | src/attention_broker_server/StimulusSpreader.h:79-81 | Over any run of well-formed requests no importance is negative and the total never exceeds 1; it is 1 exactly if every request so far was lossless |
| NetworkRuns.TokensStayFixed | src/attention_broker_server/StimulusSpreader.h:79-81 | It is 1 while no node is isolated and all boosted handles are nodes |
| TokenLosses.UnknownHandleTakesAll | src/attention_broker_server/StimulusSpreader.cc:113-118 | A run in which a boosted handle that is no node takes all tokens with it |
| TokenLosses.IsolatedNodeLosesShare | src/attention_broker_server/StimulusSpreader.cc:65-71 | A run in which all boosted handles are nodes and one without neighbours loses a hundredth of all tokens |
| TokenFlows.TokensFlow | src/attention_broker_server/StimulusSpreader.cc:44-98 | Two correlations and two stimulations of three nodes, with the exact importances after each: rent, wages, a rate of 55 thousandths at half the largest arity, and who delivers to whom |
| TokenSpreaders.StimuliData.InsertChanges | src/attention_broker_server/StimulusSpreader.h:103-117 | Rent and wages of a handle add up over its inserts, and those of others stay |
| TokenSpreaders.TokenSpreader.CollectRents | src/attention_broker_server/StimulusSpreader.cc:44-53 | Each node is charged its rent once, and the total is their sum |
| TokenSpreaders.TokenSpreader.DistributeWages | src/attention_broker_server/StimulusSpreader.cc:103-119 | Each count becomes its part of the pool; a missing "SUM" or a key of the wrong size is an error |
| TokenSpreaders.TokenSpreader.ConsolidateNetwork | src/attention_broker_server/StimulusSpreader.cc:55-73 | The second traversal brings each node to what is planned for it: what it is to set aside and what it is to keep |
| TokenSpreaders.TokenSpreader.PlanIsFor | src/attention_broker_server/StimulusSpreader.cc:55-73 | What the formula wants of each node is what rent, wages and the rate of its arity make of its importance |
| TokenSpreaders.TokenSpreader.SumAllWeights | src/attention_broker_server/StimulusSpreader.cc:75-80 | Adds up the weights of a node's neighbours |
| TokenSpreaders.TokenSpreader.DeliverAll | src/attention_broker_server/StimulusSpreader.cc:82-88 | Each neighbour gains its portion, and no other node anything |
| TokenSpreaders.TokenSpreader.DiffuseAll | src/attention_broker_server/StimulusSpreader.cc:90-98 | Spreading in place, node after node in whatever order, gives every node what all the others send it |
| TokenSpreaders.TokenSpreader.SpreadStimuli | src/attention_broker_server/StimulusSpreader.cc:121-150 | The whole request reaches the simultaneous formula; it fails exactly if "SUM" is missing or another key has not 32 characters, and then only the undistributed tokens are gone |
| Flood.RunInv | src/atom_space_node/MessageBroker.cc:77-96 | In every state of a broadcast each message under way was sent once, along a simple path from the origin, by a node that executed it, and to none of the nodes that had received it before |
| Flood.ExecutedExactly | src/atom_space_node/MessageBroker.cc:72-110 | When no message is left, executions lie between the simple paths of the graph at the start and those at the end, each once; on a fixed graph they are those |
| Flood.PeersAreLearned | src/atom_space_node/MessageBroker.cc:128-132 | At any time a node knows exactly the peers it had at the start and those it was told of since |
| Flood.ExecutedIffSent | src/atom_space_node/MessageBroker.cc:77-96 | However the graph grows, when no message is left the executions are exactly the simple paths on which each node knew the next one when it took the message |
| Flood.LateJoinerIsReached | src/atom_space_node/MessageBroker.cc:85-95 | A peer that a node learns of before it takes the broadcast is sent it, and executes it along that path too |
| Flood.EveryoneIsReached | src/atom_space_node/MessageBroker.h:190-197 | When no message is left, every node that was reachable has executed the command; the origin never does |
| Flood.WalkHasSimplePath | src/atom_space_node/MessageBroker.cc:78-95 | Whoever can be reached can be reached along a simple path |
| Flood.OnceIffOneRoute | src/atom_space_node/MessageBroker.h:195-197 | On a fixed graph nobody executes twice if and only if simple paths are unique |
| Flood.OneRouteIffBranches | src/atom_space_node/MessageBroker.cc:78-95 | Simple paths are unique if and only if, from the origin on, every edge leads to a child or back to a node of the branch |
| Flood.OneRouteSuffices | src/atom_space_node/MessageBroker.h:195-197 | Unique simple paths suffice at any time, while the graph grows |
| FloodProgress.DeliverySinks | src/atom_space_node/MessageBroker.cc:77-96 | Taking a message lowers the load of the messages under way |
| FloodProgress.DeliveriesAreBounded | src/atom_space_node/MessageBroker.cc:77-96 | A broadcast among finitely many nodes causes a bounded number of deliveries, however they come to know each other |
| FloodProgress.RunsOut | src/atom_space_node/MessageBroker.cc:72-116 | Every broadcast can be run until no message is left |
| FloodProgress.TriangleExecutesTwice | src/atom_space_node/MessageBroker.h:195-197 | Three nodes that know each other: one executes the same broadcast twice |
| FloodProgress.JoinerExecutes | src/atom_space_node/MessageBroker.cc:85-132 | A run in which a node executes a broadcast although nobody knew it when the broadcast began |
| MessageBrokers.SynchronousGRPC.AddPeer | src/atom_space_node/MessageBroker.cc:128-132 | The peer is known from then on |
| MessageBrokers.SynchronousGRPC.Broadcast | src/atom_space_node/MessageBroker.cc:152-174 | One message to each peer and to nobody else, with the origin as visited: the start of the flood |
| MessageBrokers.SynchronousGRPC.Send | src/atom_space_node/MessageBroker.cc:176-196 | One message to a known peer; an unknown one is an error |
| MessageBrokers.SynchronousGRPC.ExecuteMessage | src/atom_space_node/MessageBroker.cc:210-217 | A received message joins the inbox |
| MessageBrokers.SynchronousGRPC.Handle | src/atom_space_node/MessageBroker.cc:76-110 | A message is dropped, or executed and, if it is a broadcast, sent once to each peer that it has not visited, as the step of the flood says |
| MessageBrokers.SynchronousGRPC.InboxTurn | src/atom_space_node/MessageBroker.cc:72-116 | An inbox thread takes the oldest message, executes it unless it is a broadcast that has been here, and sends a broadcast on with itself as visited; an empty inbox changes nothing |
| CacheNodes.CacheNodeServer.NodeJoinedNetwork | src/cache_node/CacheNode.cc:37-39 | The server gets to know the node |
| CacheNodes.CacheNodeClient.constructor | src/cache_node/CacheNode.cc:17-23 | A client knows exactly its server |
| CacheNodes.StarHasOneRouteEach | src/cache_node/CacheNode.cc:17-43 | In the cache network simple paths are unique |
| CacheNodes.StarExecutesOnce | src/cache_node/CacheNode.cc:17-43 | There no node executes a broadcast twice, joins included, and every node that knows and is known has executed it once |

## Left out

- Keys outside an alphabet without slot clashes: what a trie still guarantees for them. That it is no map then, and in which ways, is stated by `TrieAlphabet.MapLawNeedsInjectiveTable`, `TrieClashes.RangeNeedsInjectiveTable` and `TrieClashes.InsertsNeedInjectiveTable`.
- TrieTheorems.NeverWild: takes such an alphabet; the exact condition is `TrieClashes.RangeNeedsInjectiveTable`.
- HandleTries.HandleTrie.Lookup: takes such an alphabet; the exact condition is `TrieAlphabet.MapLawNeedsInjectiveTable`.
- HandleTries.HandleTrie.Insert: takes such an alphabet; the sequential class has no locks; they are in the machine of threads, where `TrieTheorems.WritesAreLocked` justifies taking the writes between two lock operations as one step. It requires that the value object is not in the trie yet, since the original deletes a merged object.
- HandleTries.HandleTrie.Traverse: the visit function is a pure answer per key; visit functions that change the values are modelled where they are written, in `TokenSpreader`.
- `TLB_INIT` is a function from characters to slots rather than an array filled in place; characters are Unicode scalars instead of bytes.
- HebbianNetworks.HebbianNetwork.AddAsymmetricEdge: both handles must be nodes and `node2` the node of the second one, as all callers in the repository arrange; a NULL `node2` would be stored.
- The tries inside a network are the maps they were proved to be, for handles over its alphabet: `nodes`, `neighbors` and the changes of a request are fields of type `map`, visited in an arbitrary order, which covers the trie's ascending one.
- RequestQueues.RequestQueue.constructor: an initial size of 0 is not modelled; the original then reads and writes outside its buffer, and divides by zero, at the first enqueue.
- TokenSpreaders.TokenSpreader.DistributeWages: a "SUM" of 0 beside other keys is a division by zero, see the next line.
- TokenSpreaders.TokenSpreader.SpreadStimuli: requests that would divide by zero (a "SUM" of 0 with other keys, a `largest_arity` of 0 with nodes) are not steps of the model; the original computes infinities or NaN.
- Floating point: importances, weights and rates are real numbers; rounding is not modelled. Counts and sizes are unbounded; overflow of `unsigned int` is not modelled.
- Overlapping requests: interleavings inside `correlation` and `spread_stimuli` are not modelled, a request is one step of `NetworkRuns`.
- Workers: NULL requests, and requests whose processing throws and so ends the process, are not modelled; the queue's operations are atomic, as its mutex makes them. The pool has 10 threads in the original and any number here.
- MessageBrokers.SynchronousGRPC.Send: an unknown peer leaves `peers_mutex` locked in the original, since the error is raised before the unlock; mutexes of the broker are not modelled.
- Message delivery is reliable and a remote call is the pair of its addressee and its message; the creation of gRPC channels, `ClientContext` reuse, servers and stubs are I/O. The command of a message is an opaque value that is executed or not.
- One broadcast is followed at a time: messages of different broadcasts do not influence each other.
- RPC rejection on shutdown, `LeadershipBroker`, message factories, hashing, stop watches, destructors, `to_string` methods and `select_hebbian_network` are small or I/O.
