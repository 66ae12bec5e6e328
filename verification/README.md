# A verified model of the far-edge kubelet's stateful core

A Dafny model of the parts of the far-edge kubelet that keep state and change it step by step, with
proofs of what they keep over every run.

- **The work queue** (`QueueSpec`, `QueueLaws`, `Queue`, `QueueProtocol`, `QueueSteps`, `QueueSafety`, `QueueDrain`,
  `QueueProgress`, `QueueTermination`, `QueueFate`). The delayed, de-duplicating queue is modelled three times over. `QueueSpec` says on values
  what each lock-held region does, for any type of pointer to the items being processed. `Queue` is the
  program: item objects updated in place, an ordered list, an index, a table of items being processed and
  backward scans, each region proved to do what `QueueSpec` says. `QueueProtocol` runs the same regions as
  atomic steps of N workers with their one-holder semaphore, the capacity-one wake-up channel, timers,
  cancellation, a clock, and anybody's enqueues and forgets in between. On top stand no lost wake-up,
  per-key exclusion, draining (every run left alone is bounded, and at rest only when the queue is empty), and the fate of a key that is called for while it is processed.
- **Port-forward streams** (`StreamPairs`, `StreamProtocol`, `StreamPairing`). The stream filter, the pair object with its
  `complete` channel, and the run loop interleaved with one monitor per pair.
- **Pods, packages and instance ids** (`NextGenGW`, `ProviderSpec`, `Provider`, `ProviderLaws`,
  `ProviderAccount`). The id list
  with its bisecting removal, the deployment with its nested rollback, and every sequence of CreatePod,
  UpdatePod and DeletePod in NextGenGW mode under arbitrary answers of the far edge. Success codes are those
  of section 12.1.2 of RFC 7252.
- **Variable expansion and environments** (`Expansion`, `ExpansionLaws`, `EnvironmentSpec`, `Environment`,
  `EnvironmentLaws`, `Services`). The cursor-and-checkpoint scanner against a token semantics; environment
  building as a table filled in place while a mapping closure reads it, against a left fold; and the choice
  of services a pod sees.
- **The monitor variable** (`MonitorSpec`, `Monitor`) and **the Leshan id search** (`PackageSearch`).

Conventions. A method that changes objects ensures that the abstract value of the new state is a
specification function of the old one; lemmas about those functions say what they are for. Time is one
integer clock. A zero time that the code uses for "none" is `None`. Answers of the outside world (handlers,
rate limiter, far edge, cluster, headers) are arbitrary parameters. A run is a sequence of labels of any
length; `Legal` says that every label was enabled when it was taken.

Four places where the code does something a reader of its documentation might not expect:

- A `$` before a byte from 0x80 on is not copied: converting the byte to a string reads it as a code point and
  encodes that in UTF-8, so expansion adds a byte (internal/expansion/expand.go:100). The model does the
  same; `ReencodedByteGrows` shows it at such inputs, and `IdentityExactly` says for which inputs expansion
  with no contexts is the identity.
- A key that is forgotten and then enqueued again while it is processed comes back at the earliest time of
  *all* enqueues, those before the forget included, because forgetting keeps `redirtiedAt`
  (internal/queue/queue.go:146-150). `ForgottenTimeReturns` shows it, and `FateAfterForget` says exactly when
  the calls before the forget do not matter: when none of them asks for an earlier time.
- A data and an error stream of one request id need not be paired. If the timeout takes the first one's pair
  out of the table before the run loop looks for the second one's, the second starts a pair of its own, and
  neither is launched (`TimeoutSeparates`); if the run loop has found the pair already, it is launched though it
  is gone (`TimeoutRaces`). `LaunchedExactly` says for every interleaving which pairs are launched.
- Uniqueness of images is checked against tracked pods only; one pod may install an image twice
  (`SameImageTwice`). `InstalledOnceExactly` and `CreateKeepsOnceExactly` say exactly when no image is
  installed twice: when no pod lists one twice.

## Model

| member | source | states |
|---|---|---|
| WorkQueue.QueueItem.constructor | internal/queue/queue.go:216-220 | a new item is planned for, and added, now, and carries no mark of redirtying, forgetting or retrying |
| WorkQueue.Queue.constructor | internal/queue/queue.go:93-109 | a new queue is empty and valid, with the default retry policy unless one is given |
| WorkQueue.Queue.Enqueue | internal/queue/queue.go:112-117 | the queue's value becomes that of a rate-limited insertion |
| WorkQueue.Queue.EnqueueWithoutRateLimit | internal/queue/queue.go:120-125 | the same without the rate limiter |
| WorkQueue.Queue.EnqueueWithoutRateLimitWithDelay | internal/queue/queue.go:267-271 | the same for a given delay |
| WorkQueue.Queue.Insert | internal/queue/queue.go:167-245 | redirties, brings forward or creates the item of the key on the value as specified, signals, keeps the index and the invariant, and returns an item of that key |
| WorkQueue.Queue.Redirty | internal/queue/queue.go:190-203 | changes exactly the processed object: the earlier time wins and takes its rate-limit flag along; a forget is undone |
| WorkQueue.Queue.ScanBack | internal/queue/queue.go:235-241 | the backward scan ends right behind the last item of the scanned part that is planned before the time |
| WorkQueue.Queue.Add | internal/queue/queue.go:235-244 | a new item lands in front of the first item not planned before it, and is indexed |
| WorkQueue.Queue.AdjustPosition | internal/queue/queue.go:247-264 | a later time changes nothing; otherwise the item moves to its ordered place with the new time, and the index still finds every item |
| WorkQueue.Queue.Forget | internal/queue/queue.go:128-152 | takes a queued key off list and index, or marks the processed object, or does nothing |
| WorkQueue.Queue.NextItem | internal/queue/queue.go:342-366 | decides by the same glance at the front as the step of the protocol: hands out the front item only when it is due, moving it to the processed table; else tells the exact positive wait before which nothing on the list is due |
| WorkQueue.Queue.Complete | internal/queue/queue.go:438-481 | drops the processed object and then forgets, retries, re-adds or ends the key on the value as specified; reports an error exactly when a failure is given up on and no forget came |
| WorkQueue.Queue.Len | internal/queue/queue.go:281-289 | counts every queued or processed key once; the consistency panic is unreachable |
| QueueLaws.PlaceIsSorted | internal/queue/queue.go:235-244 | ordered insertion keeps the list sorted and is a permutation of the old list with the new item |
| QueueLaws.PlaceIsSplice | internal/queue/queue.go:235-244 | recursive ordered insertion, which is what the value of the list is said to undergo, is a splice at the very position where the backward scan ends |
| QueueLaws.WithoutIsCut | internal/queue/queue.go:139-144 | recursive removal of a key is cutting out the one element the index names |
| QueueLaws.AdjustLaw | internal/queue/queue.go:247-264 | re-enqueueing a queued key keeps the list sorted with distinct keys and sets its time to the minimum of both, everything else unchanged |
| QueueLaws.PlaceGoesFirst | internal/queue/queue.go:235-244 | a new item stands in front of every item that is not planned earlier, so among equal times the last comer is first |
| QueueLaws.AdjustGoesFirst | internal/queue/queue.go:247-264 | so does an item brought forward or asked for at its own time; a later time leaves the list as it is |
| QueueLaws.InsertKeepsInv | internal/queue/queue.go:167-245 | enqueueing keeps order, distinct keys, and queued and processed keys apart |
| QueueLaws.ForgetKeepsInv | internal/queue/queue.go:139-151 | forgetting keeps them |
| QueueLaws.TakeKeepsInv | internal/queue/queue.go:358-363 | dequeuing keeps them |
| QueueLaws.CompleteKeepsInv | internal/queue/queue.go:441-480 | completing keeps them, whatever the retry policy says |
| QueueLaws.InsertOnMap | internal/queue/queue.go:167-245 | seen as a map from key to item, the list gains the key, or has its time lowered to the minimum, or is untouched while the key is processed |
| QueueLaws.EnqueuedTime | internal/queue/queue.go:162-233 | a new key is planned after the given delay, else the limiter's if rate limited, else at once; a queued key at the earlier of its own time and the call's, keeping its requeues; no other key changes |
| QueueLaws.ForgetOnMap | internal/queue/queue.go:139-151 | seen as a map, forgetting removes exactly the key |
| QueueLaws.TakeOnMap | internal/queue/queue.go:344-363 | a dequeue takes an item planned no later than any other, of a key not being processed, and removes exactly that key |
| QueueLaws.CompleteOnMap | internal/queue/queue.go:441-477 | completing changes the map at its own key only, which was absent, so what it puts back is always a new item |
| QueueLaws.LenCountsKeys | internal/queue/queue.go:281-289 | list and processed table never share a key, so the sum of their sizes counts keys |
| QueueProtocol.StepKeepsInv | internal/queue/queue.go:336-382 | every step of every worker and caller keeps one semaphore holder, one owner per dequeued object, and no lost wake-up |
| QueueProtocol.RunsKeepInv | internal/queue/queue.go:327-382 | so does every run, of any number of workers and any length |
| QueueProtocol.WakeUpKeepsInv | internal/queue/queue.go:348-375 | the one token is consumed by the only worker that can be parked |
| QueueProtocol.CompleteFrame | internal/queue/queue.go:441-477 | completing frees exactly one object and key, and signals whenever it changes the list |
| QueueSteps.GlanceExactly | internal/queue/queue.go:344-369 | the front is due if and only if some item is planned no later than now; otherwise a worker sleeps until exactly the first planned time, or without one if the list is empty |
| QueueSteps.LookTakesExactly | internal/queue/queue.go:342-382 | a look changes the processed table if and only if some item is due, and then takes the front item; otherwise the worker parks and nothing else changes |
| QueueSteps.NothingIsTakenEarly | internal/queue/queue.go:355-364 | over every run, a key that becomes processed was queued for a time that had come |
| QueueSteps.EnqueueQueues | internal/queue/queue.go:205-244 | after an enqueue an idle key is queued, a new one after the given delay, else the limiter's, else at once, a queued one no later than asked; no other key changes |
| QueueSteps.EnqueueMarks | internal/queue/queue.go:189-203 | after an enqueue of a processed key its object is to come back at the earlier of the times asked for, under that call's rate-limit flag, and is not forgotten; no other object changes |
| QueueSteps.ForgetRemoves | internal/queue/queue.go:139-151 | after a forget exactly the key is off the list, and a processed key's object is marked and keeps its times |
| QueueSteps.KeyStays | internal/queue/queue.go:112-203 | over every run, a key in the queue's care stays there until it is forgotten or a run of its handler ends |
| QueueSteps.StepsAreSeparate | internal/queue/queue.go:327-382 | a step moves no worker but its own, and only a tick moves the clock, never back |
| QueueSteps.ExitedOnlyAfterCancel | internal/queue/queue.go:327-353 | over every run, a worker leaves only after a cancellation |
| QueueSafety.NoWakeupIsLost | internal/queue/queue.go:182-187 | in every reachable state a parked worker has a token waiting, or nothing is planned before the deadline it sleeps until (or on an empty list: the list is still empty) |
| QueueSafety.DueItemEndsSleep | internal/queue/queue.go:346-375 | a parked worker can leave its sleep as soon as some queued item is due |
| QueueSafety.DueItemIsServed | internal/queue/queue.go:336-382 | while an item is due and a worker is not handling anything, at most three steps of the workers alone dequeue the front item |
| QueueSafety.KeysAreExclusive | internal/queue/queue.go:57-60 | in every reachable state no key is queued and processed at once, and no two workers hold the same key |
| QueueSafety.FinisherOwnsItsKey | internal/queue/queue.go:441-460 | the object a worker finishes is the one stored under its key, and the key is not queued, so a retry always creates a fresh item |
| QueueDrain.DefaultGivesUpAtMax | internal/queue/queue.go:496-502 | the default policy retries, with no delay of its own, exactly while fewer than 20 tries were made, so it gives up by the maximum and no earlier |
| QueueDrain.RunsStayBounded | internal/queue/queue.go:454-460 | under any policy that gives up by MaxRetries no item in the queue's care ever reaches MaxRetries requeues |
| QueueDrain.LeftStep | internal/queue/queue.go:416-481 | a key's potential is kept by every step of the workers and of callers for other keys, and strictly lowered by each completion of the key |
| QueueDrain.HandlerRunsAreBounded | internal/queue/queue.go:416-481 | without calls about a key, handler runs on it plus the remaining potential never exceed the initial potential |
| QueueDrain.HandlerRunsWithCalls | internal/queue/queue.go:128-203 | with any enqueues and forgets of the key in between, handler runs plus the remaining potential never exceed the initial potential and 21 for each enqueue |
| QueueDrain.TwentyRunsAtMost | internal/queue/queue.go:33-36 | an un-refreshed key has its handler run at most 20 times; 21 if it was already redirtied |
| QueueDrain.FailuresAreCounted | internal/queue/queue.go:448-463 | if the handler always fails and the policy does not give up before the maximum, each run spends exactly one unit of the potential |
| QueueDrain.GoneAfterTwentyFailures | internal/queue/queue.go:448-478 | under such a policy a fresh key whose handler always fails has left the queue if and only if its handler has run 20 times |
| QueueDrain.QueueDrains | internal/queue/queue.go:416-481 | with no outside calls at all, completions are at most the total potential of the keys present, less what is left of it |
| QueueProgress.QueueCanDrain | internal/queue/queue.go:327-382 | while one worker is left, whatever the handlers and the limiter answer and under any policy that gives up by the maximum, steps of the workers and the clock alone lead to an empty list and nothing being processed |
| QueueProgress.DrainsExactly | internal/queue/queue.go:327-481 | under policies that give up by the maximum, in every reachable state such a way exists if and only if the queue is empty already or a worker has not exited |
| QueueTermination.WorkIsSpent | internal/queue/queue.go:327-481 | left alone, every step of every worker, in any order and at any time, spends at least a unit of a potential of the state |
| QueueTermination.RunsAreBounded | internal/queue/queue.go:327-481 | so every run makes at most 9 times the keys' potential, plus 2, plus 7 per worker, steps of workers; the first term is at most 189 per key |
| QueueTermination.SomeoneCanMove | internal/queue/queue.go:336-382 | while the queue is not empty and a worker is left, some worker can make a step now or at a later time |
| QueueTermination.RestIsEmpty | internal/queue/queue.go:336-382 | a run that has come to rest, so that no worker can make a step however late it gets, has emptied the queue if a worker is left |
| QueueFate.ObjectRecordsCalls | internal/queue/queue.go:139-203 | while a worker is busy with an item, its object records exactly the calls about its key, in every interleaving |
| QueueFate.FateOfKey | internal/queue/queue.go:441-477 | the last call in the window decides whether the key is queued at completion; without calls it is queued exactly when the handler failed and retry was allowed; a re-added key is planned for the earliest enqueue of the window, a retried one after the policy's or the limiter's delay |
| QueueFate.DefaultBacksOff | internal/queue/queue.go:448-478 | under the default policy a failed key nobody called for comes back after the limiter's delay with one more requeue up to the nineteenth try, and is gone after the twentieth |
| QueueFate.SuccessEndsKey | internal/queue/queue.go:471-481 | a key nobody called for whose handler succeeded is neither queued nor processed, whatever the policy |
| QueueFate.DequeueOpensWindow | internal/queue/queue.go:354-363 | a look makes the worker busy with an item if and only if some item is due, and then with exactly the front item, not yet redirtied or forgotten |
| QueueFate.ForgetKeepsTimes | internal/queue/queue.go:146-150 | after a forget, the earliest time of all enqueues is that of the later ones if and only if no earlier one asks for an earlier time |
| QueueFate.FateAfterForget | internal/queue/queue.go:471-477 | the same for the planned time of the key that comes back, over every run |
| QueueFate.ForgottenTimeReturns | internal/queue/queue.go:139-203 | enqueued for an early time, forgotten, and enqueued for a later one while processed, a key comes back at the early time |
| StreamPairs.HttpStreamPair.constructor | internal/kubernetes/portforward/httpstream.go:275-280 | a new pair has no streams and an open channel |
| StreamPairs.HttpStreamPair.Add | internal/kubernetes/portforward/httpstream.go:286-308 | assigns the first stream of each type, refuses a second, closes the channel on completion, and tells when that would be a second close |
| StreamPairs.AcceptedExactly | internal/kubernetes/portforward/httpstream.go:77-104 | a stream is accepted if and only if its port header is the decimal of a number from 1 to 65535, with any number of leading zeros, and its type is data or error |
| StreamPairs.RejectedExactly | internal/kubernetes/portforward/httpstream.go:79-99 | each rejection is given for exactly its cause, the port's before the type's |
| StreamPairs.AnsweredExactly | internal/kubernetes/portforward/httpstream.go:286-308 | a stream is refused if and only if one of its type came before, completes the pair if and only if it is the first of its type and the other type came before, and else leaves it incomplete |
| StreamPairs.PairKeepsFirsts | internal/kubernetes/portforward/httpstream.go:286-308 | after any sequence of streams a pair holds the first of each type, its channel is closed exactly when it has both, and forwarding was launched exactly that once |
| StreamPairs.ClosedTwiceExactly | internal/kubernetes/portforward/httpstream.go:303-306 | a second close happens if and only if a stream of neither type reaches a full pair |
| StreamPairs.FilteredNeverClosesTwice | internal/kubernetes/portforward/httpstream.go:77-104 | streams admitted by the filter never cause it |
| StreamPairs.UnfilteredClosesTwice | internal/kubernetes/portforward/httpstream.go:92-99 | without the type check three streams do |
| StreamProtocol.RunsKeepInv | internal/kubernetes/portforward/httpstream.go:215-241 | every interleaving of run loop, monitors and timeouts keeps table and pairs consistent and never panics |
| StreamProtocol.TableIsWatchedPairs | internal/kubernetes/portforward/httpstream.go:122-152 | the table's pairs are exactly those with a live monitor, or one about to start, one per request id |
| StreamProtocol.MonitorFindsItsOwnPair | internal/kubernetes/portforward/httpstream.go:165-174 | a removal finds the very pair its monitor was started for, never nothing and never a successor, and takes only that one out |
| StreamProtocol.LaunchedOncePerPair | internal/kubernetes/portforward/httpstream.go:232-238 | in every interleaving a pair's channel is closed, and forwarding launched once, exactly when both streams are there |
| StreamPairing.StreamsArePaired | internal/kubernetes/portforward/httpstream.go:215-241 | while a pair is in the table or its timeout has not fired, forwarding was launched for it exactly when a data and an error stream of its request id were added since it was made, whichever pair they reached; the next rows give the condition without that proviso |
| StreamPairing.PairHoldsInTime | internal/kubernetes/portforward/httpstream.go:122-174 | in every interleaving, timeouts or not, a pair holds the first stream of each type among those added while it was in the table, or to itself after the run loop had found it there |
| StreamPairing.LaunchedExactly | internal/kubernetes/portforward/httpstream.go:215-241 | in every interleaving, forwarding was launched for a pair if and only if a data and an error stream came in time in that sense; counting all the streams added since it was made gives the same answer if and only if both types came in time whenever both came |
| StreamPairing.TimeoutSeparates | internal/kubernetes/portforward/httpstream.go:142-152 | a timeout between the two streams is an exception: both are in, and neither the old pair nor the new one is launched |
| StreamPairing.TimeoutRaces | internal/kubernetes/portforward/httpstream.go:142-174 | a timeout after the run loop has found the pair is none: the pair has timed out and is gone, and is launched |
| NextGenGW.Gateway.constructor | providers/fhpAicos/protocol/nextgengw/nextgengw.go:31 | the list of ids in use starts empty |
| NextGenGW.Gateway.Search | providers/fhpAicos/protocol/nextgengw/nextgengw.go:743 | bisection of an ascending list finds the boundary between smaller ids and the rest |
| NextGenGW.Gateway.RemovePackage | providers/fhpAicos/protocol/nextgengw/nextgengw.go:741-760 | a deletion confirmed by 2.02 removes exactly the id, anything else leaves the list and errs; the list stays ascending |
| NextGenGW.Gateway.DeployPackage | providers/fhpAicos/protocol/nextgengw/nextgengw.go:635-668 | gives out the id behind the last one in use, keeps the list ascending, and errs unless the replies are 2.01, 2.04, 2.04 and 2.04; a failure that created nothing or was taken back leaves the list as it was |
| NextGenGW.CutIsWithout | providers/fhpAicos/protocol/nextgengw/nextgengw.go:743-750 | on an ascending list, cutting at the bisected position removes exactly the id, if there |
| NextGenGW.FailedDeployment | providers/fhpAicos/protocol/nextgengw/nextgengw.go:643-666 | a failed deployment leaves the list as it was, or with the new id at its end exactly when the instance was created and its removal not confirmed |
| NextGenGW.DeploysExactly | providers/fhpAicos/protocol/nextgengw/nextgengw.go:638-667 | a deployment succeeds if and only if all four replies have their success codes, and what it leaves on the list in each case |
| PodProvider.Provider.constructor | providers/fhpAicos/fhpAicos.go:116-156 | a provider starts with no pods and no ids |
| PodProvider.Provider.IsInstalled | providers/fhpAicos/fhpAicos.go:458-466 | the scan over all pods and packages finds the image exactly if some tracked pod has it |
| PodProvider.Provider.CreatePod | providers/fhpAicos/fhpAicos.go:429-645 | deploys container by container up to the first failure, cleans up on failure, and tracks the pod exactly on success |
| PodProvider.Provider.RemoveAll | providers/fhpAicos/fhpAicos.go:534-549 | asks for every package's removal in order, going on after failures |
| PodProvider.Provider.UpdatePod | providers/fhpAicos/fhpAicos.go:648-668 | replaces the pod and keeps its packages; an unknown pod becomes tracked with none |
| PodProvider.Provider.DeletePod | providers/fhpAicos/fhpAicos.go:671-707 | errs for an unknown pod; else removes the packages and drops the pod whatever the removals answer |
| ProviderLaws.DeployAllShape | providers/fhpAicos/fhpAicos.go:453-514 | the loop gives consecutive new ids to a prefix of the containers, in order, and leaves at most one more id behind when it fails |
| ProviderLaws.FailedCreateLeaves | providers/fhpAicos/fhpAicos.go:534-553 | a failed CreatePod leaves the table as it was and the id list extended, in order, by exactly the new ids whose removal was not confirmed |
| ProviderLaws.FailedCreateRestores | providers/fhpAicos/fhpAicos.go:534-553 | if every removal is confirmed, a failed CreatePod changes nothing |
| ProviderLaws.SuccessfulCreate | providers/fhpAicos/fhpAicos.go:501-512 | a successful CreatePod adds one fresh consecutive id per container, matching the containers' images in order, none of them installed before |
| ProviderLaws.CreateSucceedsExactly | providers/fhpAicos/fhpAicos.go:453-532 | CreatePod succeeds if and only if no container's image is installed by a tracked pod, every file is fetched, every container's four replies have their success codes, and the adapter does not fail; the packages then are the files and images, in order, under the ids from the first free one on |
| ProviderLaws.UpdateExactly | providers/fhpAicos/fhpAicos.go:662-665 | an update replaces the pod under its key and keeps its packages; no other pod and no id changes |
| ProviderLaws.CreateThenDelete | providers/fhpAicos/fhpAicos.go:671-707 | deleting a pod just created gives all its ids back and nothing else |
| ProviderLaws.DeleteTakesConfirmed | providers/fhpAicos/fhpAicos.go:692-707 | deleting a tracked pod always drops it, and takes an id off the list if and only if it is that of one of its packages and the removal was confirmed |
| ProviderLaws.IdsStayDistinct | providers/fhpAicos/protocol/nextgengw/nextgengw.go:635-668 | after every sequence of calls the list ascends and the tracked packages have pairwise distinct ids on it |
| ProviderLaws.ImagesStayUnique | providers/fhpAicos/fhpAicos.go:458-466 | after every sequence of calls no two tracked pods share an image |
| ProviderLaws.UpdateMatchesExactly | providers/fhpAicos/fhpAicos.go:662-665 | an update keeps packages matching containers if and only if it keeps the images (of an untracked pod: none) |
| ProviderLaws.PackagesMatchContainers | providers/fhpAicos/fhpAicos.go:454-514 | after every sequence of calls with such updates each tracked pod's packages are its containers', in length, order and image |
| ProviderLaws.SameImageTwice | providers/fhpAicos/fhpAicos.go:458-466 | uniqueness does not extend into one pod: a pod with the same image in two containers is created with both |
| ProviderLaws.CreateRepeatsExactly | providers/fhpAicos/fhpAicos.go:454-512 | a successful CreatePod installs pairwise distinct images if and only if the pod lists pairwise distinct images |
| ProviderLaws.CreateKeepsOnceExactly | providers/fhpAicos/fhpAicos.go:454-553 | where no image was installed twice, none is after a CreatePod if and only if it fails or the pod lists none twice |
| ProviderLaws.InstalledOnceExactly | providers/fhpAicos/fhpAicos.go:458-466 | after every sequence of calls whose updates keep images, no image is installed twice, in one pod or in two, if and only if no tracked pod lists one twice |
| ProviderLaws.WithoutRepeatsInstalledOnce | providers/fhpAicos/fhpAicos.go:458-466 | whatever updates do, creating only pods without repeated images never installs an image twice |
| ProviderAccount.ListIsTrackedAndLost | providers/fhpAicos/protocol/nextgengw/nextgengw.go:635-751 | after every sequence of calls each id on the list is either that of a tracked package or lost, never both; lost are the ids of unconfirmed removals and of packages whose pod was overwritten |
| ProviderAccount.ListIsTrackedExactly | providers/fhpAicos/protocol/nextgengw/nextgengw.go:635-751 | the list is that of the tracked packages if and only if no call ever lost an id |
| ProviderAccount.LosesExactly | providers/fhpAicos/fhpAicos.go:453-707 | a call loses an id if and only if it is a failed creation with an unconfirmed removal or an instance left behind, a successful one that overwrites a pod's packages, or a deletion with an unconfirmed removal |
| ProviderAccount.ListIsTrackedCallByCall | providers/fhpAicos/protocol/nextgengw/nextgengw.go:635-751 | over every sequence of calls the list is that of the tracked packages if and only if no call was one of those |
| ProviderAccount.CarefulLosesNothing | providers/fhpAicos/fhpAicos.go:534-549 | if every removal is confirmed and no pod is created under a tracked key, nothing is lost and the list is that of the tracked packages |
| ProviderAccount.OverwritingLoses | providers/fhpAicos/fhpAicos.go:636 | two creations under one key and a successful deletion leave an id behind with no pod |
| Expansion.TokensCoverInput | internal/expansion/expand.go:38-73 | every input byte belongs to exactly one token, in order |
| Expansion.TryReadVariableName | internal/expansion/expand.go:81-102 | reads exactly the token that starts at the operator, and tells how many bytes it took |
| Expansion.Expand | internal/expansion/expand.go:38-73 | the cursor-and-checkpoint loop computes the tokens' meaning, with any mapping, whatever that mapping reads; substituted values are not scanned again |
| ExpansionLaws.FirstContextWins | internal/expansion/expand.go:22-34 | a name gets its value from the first context that knows it, and otherwise its reference back |
| ExpansionLaws.TextIsCopied | internal/expansion/expand.go:42-46 | text before the first `$` is copied |
| ExpansionLaws.ReferenceIsReplaced | internal/expansion/expand.go:51-64 | `$(name)`, up to the first `)`, becomes exactly what the mapping answers; the answer is not read again and what follows is read on its own |
| ExpansionLaws.EscapeIsHalved | internal/expansion/expand.go:83-85 | `$$` becomes `$` |
| ExpansionLaws.OpenReferenceIsCopied | internal/expansion/expand.go:86-95 | `$(` with no `)` to come is copied, and what follows is read on its own |
| ExpansionLaws.BareOperatorIsCopied | internal/expansion/expand.go:96-101 | `$` before another byte is copied with it, a byte from 0x80 on as the two bytes of its UTF-8 form |
| ExpansionLaws.LastOperatorIsCopied | internal/expansion/expand.go:42-73 | a `$` at the end is copied |
| ExpansionLaws.ExpandUndoesEscape | internal/expansion/expand.go:38-73 | doubling every operator and expanding returns the original, for all strings and mappings |
| ExpansionLaws.IdentityExactly | internal/expansion/expand.go:14-73 | with no contexts expansion is the identity if and only if no token is an escape or an operator before a byte beyond ASCII |
| ExpansionLaws.ReencodedByteGrows | internal/expansion/expand.go:100 | a `$` and a byte from 0x80 on become the `$` and the two bytes of its UTF-8 form; `$` and 0xC3 become `$`, 0xC3 and 0x83 |
| ExpansionLaws.UnresolvedMeans | internal/expansion/expand.go:22-34 | a mapping that gives every reference in the text back is as good as no contexts |
| ExpansionLaws.QuietIsInert | internal/expansion/expand.go:93-101 | which is so for every string without a doubled operator and without an operator before such a byte |
| ExpansionLaws.NoOperatorNoChange | internal/expansion/expand.go:42-72 | text without operators means itself under every mapping |
| Environment.Table.AddSource | internal/podutils/env.go:213-227 | the keys of one source are copied in with the same result whatever their order: those whose prefixed name is valid, under that name |
| Environment.AddFetched | internal/podutils/env.go:188-208 | what could not be read is skipped if optional and an error otherwise |
| Environment.MakeFromSources | internal/podutils/env.go:170-289 | the table is the left fold of the sources; the first failing mandatory source is the error |
| Environment.EnvironmentVariableValue | internal/podutils/env.go:334-363 | a literal is expanded against what the table holds at that moment; a reference is looked up in the order config map, secret, field |
| Environment.ValueFromKey | internal/podutils/env.go:366-417 | a missing object or key is no value if optional and otherwise the matching error |
| Environment.MakeEnvironment | internal/podutils/env.go:292-332 | with the closure reading the very table being filled, the result is the left fold of the entries, with service variables in the gaps |
| Environment.FillGaps | internal/podutils/env.go:324-329 | service variables fill in only names that are absent, in any order |
| Environment.ListEntries | internal/podutils/env.go:109-117 | the list spells out the environment: each name once, with its value |
| Environment.PopulateContainer | internal/podutils/env.go:91-120 | on success `envFrom` is empty and `env` spells out the environment; on failure the container is unchanged |
| Environment.PopulateEnvironmentVariables | internal/podutils/env.go:73-88 | init containers, then containers, are populated up to the first that fails; the rest is untouched |
| EnvironmentLaws.PrefixedExactly | internal/podutils/env.go:213-227 | a source brings a name with a value if and only if the name is valid and is the prefix before one of its keys with that value |
| EnvironmentLaws.FinalLookup | internal/podutils/env.go:91-117 | each name has the value of the last `env` entry that yields one, as given by the entries before it, else of the last source that brings it, else of the services, else is absent |
| EnvironmentLaws.LaterEntriesBuildOn | internal/podutils/env.go:312-321 | entries added later build on the environment before them and change no earlier entry's value |
| EnvironmentLaws.EntryReads | internal/podutils/env.go:308-321 | a plain entry is expanded with, for every name, the value of the last earlier entry that has one, else of the last source that brings it, else of the services, else the reference itself |
| EnvironmentLaws.ReferenceReads | internal/podutils/env.go:308-321 | so an entry that is one reference has exactly that value |
| EnvironmentLaws.EntryValueExactly | internal/podutils/env.go:334-482 | where each kind of entry takes its value, which is absent, and which error is given, a config map's key before a secret's, that before a field |
| EnvironmentLaws.SupplyExactly | internal/podutils/env.go:174-286 | a source brings all data of its config map, else of its secret, whose prefixed names are valid; nothing if optional and unreadable; else the matching error |
| EnvironmentLaws.FailsExactly | internal/podutils/env.go:170-332 | building fails if and only if the services cannot be listed, or a source names an unreadable object without calling it optional, or an entry names a missing key without calling it optional or a field without a value |
| EnvironmentLaws.FirstFailureIsReported | internal/podutils/env.go:91-103 | the error is that of the first failing source, else of the services, else of the first failing entry |
| EnvironmentLaws.SourceFailsExactly | internal/podutils/env.go:176-207 | a source brings an error if and only if it names an object that cannot be read and does not say optional |
| EnvironmentLaws.EntryFailsExactly | internal/podutils/env.go:334-482 | an entry fails, whatever the variables before it, if and only if it names a missing object or key and does not say optional, or a field without a value |
| EnvironmentLaws.AgainExactly | internal/podutils/env.go:91-120 | populating a populated container again changes nothing if and only if services bring no new name and each value means itself given the entries listed before it |
| EnvironmentLaws.AgainByTokens | internal/podutils/env.go:91-120 | where no value refers to a listed name or a service, populating again changes nothing if and only if services bring no new name and all tokens of all values are inert |
| EnvironmentLaws.TwiceIsOnce | internal/podutils/env.go:91-120 | so populating twice is populating once when no value has a `$` left and the services' names are the same, in whatever order the entries came out |
| EnvironmentLaws.EscapesWearOff | internal/podutils/env.go:334-340 | with a `$` left it need not be: twice-escaped text loses one escape at each pass |
| Services.ProjectServices | internal/podutils/env.go:137-157 | under each name the last service of the pod's own namespace is chosen, else the first master service of that name |
| Services.SeenExactly | internal/podutils/env.go:137-156 | which services are seen: with a cluster IP, and either `kubernetes` in `default`, or of the pod's own namespace with service links enabled |
| Services.ChosenByPosition | internal/podutils/env.go:145-156 | in any list the last own service of a name is chosen, without one the first master service, and without either none |
| Services.ChosenExactly | internal/podutils/env.go:145-156 | where names are unique per namespace, a service is chosen if and only if it is visible and, being a master service, not shadowed by an own one |
| Services.OrderDoesNotMatter | internal/podutils/env.go:137-157 | where names are unique per namespace, the choice does not depend on the order in which services are listed |
| Monitor.MonitorVariable.constructor | internal/lock/monitor.go:8-13 | a new variable has version 0 and an open channel |
| Monitor.MonitorVariable.Set | internal/lock/monitor.go:49-56 | raises the version, closes the current channel, which was open, and puts a new one in its place |
| Monitor.MonitorVariable.Subscribe | internal/lock/monitor.go:58-75 | a new subscription has read nothing and is ready exactly if a value was set |
| Monitor.MonitorVariable.NewValueReady | internal/lock/monitor.go:83-88 | the channel handed out is closed if and only if the subscription's last-read version is below the current one |
| Monitor.MonitorVariable.Value | internal/lock/monitor.go:90-100 | returns the current value and version, and catches the subscription up |
| MonitorSpec.ReadyExactlyWhenUnread | internal/lock/monitor.go:22-32 | after any operations by any number of subscribers, the version counts the values set, and a subscription's channel is closed if and only if a value was set that it has not read |
| MonitorSpec.StepKeepsInv | internal/lock/monitor.go:49-100 | every operation keeps the variable's channel open and all subscriptions consistent |
| MonitorSpec.ReadCatchesUp | internal/lock/monitor.go:83-100 | reading makes a subscription unready until the next value is set |
| PackageSearch.FindPackageId | providers/fhpAicos/protocol/leshan/leshan.go:126-146 | the search ends at the least id from 1000 on that is not listed, at most 1000 plus the list's length, for lists in any order and with duplicates |
| PackageSearch.RunIsNoLongerThanList | providers/fhpAicos/protocol/leshan/leshan.go:130-145 | the ids passed over are no more than the list is long |

## Left out

- The linked list is a sequence of item objects: moving an element is cutting and inserting at a position, and element identity is not modelled.
- Each lock-held region reads the clock once; the code reads `q.clock` and `time.Until`, and re-reads between computing a re-add delay and adding it.
- The rate limiter's delays and its `Forget`: `When` is an arbitrary non-negative number, asked for in every rate-limited insertion of a new key.
- Semaphore fairness and scheduling: that an enabled worker eventually moves is not claimed, only that it can, that left alone they move boundedly often, and that they rest only when the queue is empty.
- Contexts beyond "a cancelled worker may leave while waiting and gives the semaphore back"; the panics and the start-up of `Run`; `Empty` and `String`.
- Tracing, logging, event recording and error texts, everywhere.
- `requestID`'s guess for old clients: a stream carries the id it was given. Byte copying in `portForward` and the writes of `printError`.
- `removeStreamPair` reads the pair's streams without the pair's lock: this data race is not modelled.
- MQTT, HTTP and registry traffic and JSON decoding: each exchange is its arbitrary outcome.
- Leshan mode of CreatePod and DeletePod, and the `leshan.RemovePackage` call after a failed NextGenGW deployment, which does not touch the id list.
- The deployment of the communication adapter is one arbitrary outcome; pod status, annotations, runtime management and notifications are not modelled.
- Concurrent calls of UpdatePod and of DeletePod's existence check, which do not take the mutex: each provider call is one atomic step.
- `buildKeyFromNames` joins with `-` and may give two pods one key; the table is keyed by an abstract key and nothing relies on distinct pods having distinct keys.
- GetPod, GetPods, statistics, metrics, node conditions and capacity.
- `FromServices`, the environment variables of the chosen services: the service environment is an arbitrary map. Name validity is an arbitrary predicate, field paths an arbitrary partial function.
- The cluster does not change during one population: a config map read twice reads the same.
- The code writes the handling of a fetched config map and of a fetched secret out twice; here one method, `AddFetched`, serves both.
- Version numbers are unbounded: the wrap-around of 64-bit versions is not modelled.
- Instance ids and package ids are unbounded integers.
- The websocket and `waitForStreams` handlers, command-line options, the provider store, and the metrics and stats handlers.
