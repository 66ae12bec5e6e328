/**
 The queue drains: with a retry policy that gives up by MAX_RETRIES, every key has a potential that
 no step of the workers raises and every completion of the key lowers.
 */
module QueueDrain {
  import opened Options
  import opened QueueSpec
  import opened QueueLaws
  import opened QueueProtocol

  /** The retry policy gives up at the maximum at the latest, with whatever delay before that. */
  ghost predicate GivesUpByMax(retry: RetryFunc) {
    forall k, n: nat, t :: retry(k, n, t).Retry? ==> n < MAX_RETRIES
  }

  /** It gives up at the maximum and no earlier. */
  ghost predicate GivesUpAtMax(retry: RetryFunc) {
    forall k, n: nat, t :: retry(k, n, t).Retry? <==> n < MAX_RETRIES
  }

  lemma DefaultGivesUpAtMax()
    ensures GivesUpAtMax(DefaultRetry) && GivesUpByMax(DefaultRetry)
    ensures forall k, n, t :: DefaultRetry(k, n, t) == Retry(None) <==> n < 20
  {}

  ghost predicate Policed(l: Label) {
    l.Finish? ==> GivesUpByMax(l.retry)
  }

  ghost predicate AllPoliced(run: seq<Label>) {
    forall i | 0 <= i < |run| :: Policed(run[i])
  }

  /** No worker is told to give up before the maximum. */
  ghost predicate AllPersistent(run: seq<Label>) {
    forall i | 0 <= i < |run| && run[i].Finish? :: GivesUpAtMax(run[i].retry)
  }

  /** The potential of an item: how often its handler may still run before the key must be added afresh. */
  function Weight(item: Item): int {
    if item.redirtiedAt.Some? then MAX_RETRIES + 1 else MAX_RETRIES - item.requeues
  }

  function Left(q: State<nat>, k: Key): int
    requires Tracked(q)
  {
    if k in q.busy then Weight(q.heap[q.busy[k]])
    else if k in Contents(q.items) then Weight(Contents(q.items)[k])
    else 0
  }

  /** Every item in the queue's care has been requeued less often than the maximum. */
  ghost predicate Bounded(q: State<nat>) {
    && (forall k | k in Contents(q.items) :: Contents(q.items)[k].requeues < MAX_RETRIES)
    && (forall p | p in q.heap :: q.heap[p].requeues < MAX_RETRIES)
  }

  predicate Outside(l: Label, k: Key) {
    (l.Enqueue? || l.ForgetKey?) && l.key == k
  }

  /** Does `l` end a run of the handler on `k`? */
  predicate Ends(s: System, l: Label, k: Key) {
    l.Finish? && Enabled(s, l) && s.q.heap[s.workers[l.w].qi].key == k
  }

  /** How many runs of the handler on `k` end during `run`. */
  function HandlerRuns(s: System, run: seq<Label>, k: Key): nat
    requires Legal(s, run)
  {
    if run == [] then 0
    else
      var before := run[..|run| - 1];
      HandlerRuns(s, before, k) + if Ends(Exec(s, before), run[|run| - 1], k) then 1 else 0
  }

  // ---------- The requeue bound ----------

  lemma BoundedStep(s: System, l: Label)
    requires SystemInv(s) && Bounded(s.q) && Enabled(s, l) && Policed(l)
    ensures Bounded(Step(s, l).q)
  {
    hide Contents, Complete, Insert, Forget, LookStep, Inv, Bounded;
    match l
    case Look(w, p) => BoundedLook(s, w, p);
    case Finish(w, failed, retry, rate) =>
      BoundedFinish(s.q, s.workers[w].qi, failed, retry, s.clock, rate);
    case Enqueue(key, ratelimit, delay, rate) =>
      BoundedInsert(s.q, key, ratelimit, delay, s.clock, rate);
    case ForgetKey(key) =>
      BoundedForget(s.q, key);
    case WakeUp(w) => assert Bounded(s.q.(wake := false)) by { BoundedIgnoresWake(s.q); }
    case _ =>
  }

  lemma BoundedIgnoresWake(q: State<nat>)
    requires Bounded(q)
    ensures Bounded(q.(wake := false))
  {}

  lemma BoundedFinish(q: State<nat>, p: nat, failed: bool, retry: RetryFunc, now: int, rate: nat)
    requires Inv(q) && Bounded(q) && p in q.heap && GivesUpByMax(retry)
    ensures Bounded(Complete(q, p, failed, retry, now, rate))
  {
    hide Contents, Complete;
    CompleteOnMap(q, p, failed, retry, now, rate);
    CompleteFrame(q, p, failed, retry, now, rate);
  }

  lemma BoundedInsert(q: State<nat>, key: Key, ratelimit: bool, delay: Option<int>, now: int, rate: nat)
    requires Inv(q) && Bounded(q)
    ensures Bounded(Insert(q, key, ratelimit, delay, now, rate))
  {
    hide Contents, Insert;
    InsertOnMap(q, key, ratelimit, delay, now, rate);
    InsertFrame(q, key, ratelimit, delay, now, rate);
  }

  lemma BoundedForget(q: State<nat>, key: Key)
    requires Inv(q) && Bounded(q)
    ensures Bounded(Forget(q, key))
  {
    hide Contents, Forget;
    ForgetOnMap(q, key);
    ForgetFrame(q, key);
  }

  lemma BoundedLook(s: System, w: nat, p: nat)
    requires SystemInv(s) && Bounded(s.q) && Enabled(s, Look(w, p))
    ensures Bounded(LookStep(s, w, p).q)
  {
    hide Inv, Contents;
    if s.q.items != [] {
      TakeOnMap(s.q, p);
    }
  }

  /** Enqueueing changes at most the marks of the object being processed. */
  lemma InsertFrame(q: State<nat>, key: Key, ratelimit: bool, delay: Option<int>, now: int, rate: nat)
    requires Inv(q)
    ensures var q' := Insert(q, key, ratelimit, delay, now, rate);
            && q'.busy == q.busy && q'.heap.Keys == q.heap.Keys
            && (forall p | p in q.heap :: q'.heap[p].requeues == q.heap[p].requeues && q'.heap[p].key == q.heap[p].key)
            && (forall p | p in q.heap && q.heap[p].key != key :: q'.heap[p] == q.heap[p])
  {
    hide Enlist;
  }

  lemma ForgetFrame(q: State<nat>, key: Key)
    requires Inv(q)
    ensures var q' := Forget(q, key);
            && q'.busy == q.busy && q'.heap.Keys == q.heap.Keys
            && (forall p | p in q.heap :: q'.heap[p].requeues == q.heap[p].requeues && q'.heap[p].key == q.heap[p].key)
            && (forall p | p in q.heap && q.heap[p].key != key :: q'.heap[p] == q.heap[p])
  {}

  /** Under such a policy no item in the queue's care ever reaches the maximum. */
  lemma {:induction false} RunsStayBounded(s: System, run: seq<Label>)
    requires SystemInv(s) && Bounded(s.q) && Legal(s, run) && AllPoliced(run)
    ensures Bounded(Exec(s, run).q)
  {
    if run == [] {
    } else {
      var before := run[..|run| - 1];
      RunsStayBounded(s, before);
      RunsKeepInv(s, before);
      BoundedStep(Exec(s, before), run[|run| - 1]);
    }
  }

  // ---------- The potential of one key ----------

  /** Only a completion of `k` itself changes its potential, and it lowers it. */
  lemma LeftStep(s: System, l: Label, k: Key)
    requires SystemInv(s) && Bounded(s.q) && Enabled(s, l) && Policed(l) && !Outside(l, k)
    ensures Inv(Step(s, l).q)
    ensures if Ends(s, l, k) then Left(Step(s, l).q, k) < Left(s.q, k) else Left(Step(s, l).q, k) == Left(s.q, k)
  {
    hide Contents, Complete, Insert, Forget, LookStep, Inv;
    StepKeepsInv(s, l);
    match l
    case Look(w, p) => LeftLook(s, w, p, k);
    case Finish(w, failed, retry, rate) =>
      LeftFinish(s.q, s.workers[w].qi, failed, retry, s.clock, rate, k);
    case Enqueue(key, ratelimit, delay, rate) =>
      LeftInsert(s.q, key, ratelimit, delay, s.clock, rate, k);
    case ForgetKey(key) =>
      LeftForget(s.q, key, k);
    case _ =>
  }

  lemma LeftLook(s: System, w: nat, p: nat, k: Key)
    requires SystemInv(s) && Enabled(s, Look(w, p)) && Inv(LookStep(s, w, p).q)
    ensures Left(LookStep(s, w, p).q, k) == Left(s.q, k)
  {
    hide Inv, Contents;
    if Glance(s.q.items, s.clock).FrontDue? {
      TakeOnMap(s.q, p);
    }
  }

  lemma LeftInsert(q: State<nat>, key: Key, ratelimit: bool, delay: Option<int>, now: int, rate: nat, k: Key)
    requires Inv(q) && k != key && Inv(Insert(q, key, ratelimit, delay, now, rate))
    ensures Left(Insert(q, key, ratelimit, delay, now, rate), k) == Left(q, k)
  {
    hide Insert, Contents;
    InsertOnMap(q, key, ratelimit, delay, now, rate);
    InsertFrame(q, key, ratelimit, delay, now, rate);
  }

  lemma LeftForget(q: State<nat>, key: Key, k: Key)
    requires Inv(q) && k != key && Inv(Forget(q, key))
    ensures Left(Forget(q, key), k) == Left(q, k)
  {
    hide Forget, Contents;
    ForgetOnMap(q, key);
    ForgetFrame(q, key);
  }

  lemma LeftFinish(q: State<nat>, p: nat, failed: bool, retry: RetryFunc, now: int, rate: nat, k: Key)
    requires Inv(q) && Bounded(q) && p in q.heap && GivesUpByMax(retry)
    requires Inv(Complete(q, p, failed, retry, now, rate))
    ensures var q' := Complete(q, p, failed, retry, now, rate);
            if q.heap[p].key == k then Left(q', k) < Left(q, k) else Left(q', k) == Left(q, k)
  {
    hide Complete, Contents;
    CompleteOnMap(q, p, failed, retry, now, rate);
    CompleteFrame(q, p, failed, retry, now, rate);
  }

  /**
   While nobody enqueues or forgets `k`, the handler runs on `k` at most as often as its potential
   says; what the potential has lost is what bounds the rest of the run.
   */
  lemma {:induction false} HandlerRunsAreBounded(s: System, run: seq<Label>, k: Key)
    requires SystemInv(s) && Bounded(s.q) && Legal(s, run) && AllPoliced(run)
    requires forall i | 0 <= i < |run| :: !Outside(run[i], k)
    ensures Inv(Exec(s, run).q)
    ensures HandlerRuns(s, run, k) + Left(Exec(s, run).q, k) <= Left(s.q, k)
  {
    if run == [] {
    } else {
      var before := run[..|run| - 1];
      HandlerRunsAreBounded(s, before, k);
      RunsKeepInv(s, before);
      RunsStayBounded(s, before);
      LeftStep(Exec(s, before), run[|run| - 1], k);
    }
  }

  /** How often anyone enqueues `k` during a run. */
  function Enqueues(run: seq<Label>, k: Key): nat {
    if run == [] then 0
    else
      var last := run[|run| - 1];
      Enqueues(run[..|run| - 1], k) + if last.Enqueue? && last.key == k then 1 else 0
  }

  /** Forgetting a key does not raise its potential. */
  lemma LeftForgotten(q: State<nat>, k: Key)
    requires Inv(q) && Bounded(q) && Inv(Forget(q, k)) && Bounded(Forget(q, k))
    ensures Left(Forget(q, k), k) <= Left(q, k)
  {
    LeftIsZero(q, k);
    LeftIsZero(Forget(q, k), k);
    if k in q.busy {
      ForgetMarks(q, k);
    } else {
      ForgetUnlists(q, k);
    }
  }

  lemma ForgetMarks(q: State<nat>, k: Key)
    requires Inv(q) && k in q.busy
    ensures Tracked(Forget(q, k)) && Left(Forget(q, k), k) == Left(q, k)
  {
    BusyIsNotQueued(q);
  }

  lemma ForgetUnlists(q: State<nat>, k: Key)
    requires Inv(q) && k !in q.busy
    ensures Tracked(Forget(q, k)) && Left(Forget(q, k), k) == 0
  {
    hide Contents;
    ForgetOnMap(q, k);
  }

  /**
   However often anyone enqueues and forgets `k`, its handler runs at most as often as the potential says,
   and one run more than the maximum for each of the enqueues.
   */
  lemma {:induction false} HandlerRunsWithCalls(s: System, run: seq<Label>, k: Key)
    requires SystemInv(s) && Bounded(s.q) && Legal(s, run) && AllPoliced(run)
    ensures Inv(Exec(s, run).q)
    ensures HandlerRuns(s, run, k) + Left(Exec(s, run).q, k) <= Left(s.q, k) + 21 * Enqueues(run, k)
  {
    hide Inv, Left, Bounded, Step, Enabled, Policed;
    if run == [] {
      SystemHasInv(s);
    } else {
      var before, last := run[..|run| - 1], run[|run| - 1];
      var s' := Exec(s, before);
      HandlerRunsWithCalls(s, before, k);
      RunsKeepInv(s, before);
      RunsStayBounded(s, before);
      LeftStepAny(s', last, k);
    }
  }

  lemma SystemHasInv(s: System)
    requires SystemInv(s)
    ensures Inv(s.q)
  {}

  lemma LeftStepAny(s: System, l: Label, k: Key)
    requires SystemInv(s) && Bounded(s.q) && Enabled(s, l) && Policed(l)
    ensures Inv(s.q) && Inv(Step(s, l).q)
    ensures (if Ends(s, l, k) then 1 else 0) + Left(Step(s, l).q, k)
      <= Left(s.q, k) + if l.Enqueue? && l.key == k then 21 else 0
  {
    hide Inv, Left, Bounded, Insert, Forget, Complete, LookStep;
    SystemHasInv(s);
    StepKeepsInv(s, l);
    BoundedStep(s, l);
    if l.ForgetKey? && l.key == k {
      LeftForgotten(s.q, k);
    } else if l.Enqueue? && l.key == k {
      LeftIsZero(s.q, k);
      LeftAtMost(Step(s, l).q, k);
    } else {
      LeftStep(s, l, k);
    }
  }

  /** A key that was just enqueued, or redirtied: twenty runs, and one more chance if redirtied. */
  lemma TwentyRunsAtMost(s: System, run: seq<Label>, k: Key)
    requires SystemInv(s) && Bounded(s.q) && Legal(s, run) && AllPoliced(run)
    requires forall i | 0 <= i < |run| :: !Outside(run[i], k)
    ensures k !in s.q.busy ==> HandlerRuns(s, run, k) <= 20
    ensures k in s.q.busy && s.q.heap[s.q.busy[k]].redirtiedAt.None? ==> HandlerRuns(s, run, k) <= 20
    ensures HandlerRuns(s, run, k) <= 21
  {
    hide Inv, Exec, Left, Bounded;
    HandlerRunsAreBounded(s, run, k);
    RunsStayBounded(s, run);
    LeftIsZero(Exec(s, run).q, k);
    LeftAtMost(s.q, k);
  }

  lemma LeftAtMost(q: State<nat>, k: Key)
    requires Inv(q)
    ensures Left(q, k) <= MAX_RETRIES + 1
    ensures k !in q.busy || q.heap[q.busy[k]].redirtiedAt.None? ==> Left(q, k) <= MAX_RETRIES
    ensures k !in q.busy && Queued(q.items, k) ==> Left(q, k) == MAX_RETRIES - Lookup(q.items, k).requeues
  {
    hide Contents;
    ContentsAreLookups(q.items);
    if Queued(q.items, k) { QueuedIsUnmarked(q, k); }
  }

  lemma QueuedIsUnmarked(q: State<nat>, k: Key)
    requires Inv(q) && Queued(q.items, k)
    ensures Unmarked(Lookup(q.items, k)) && k !in q.busy
  {
    assert Lookup(q.items, k) == q.items[IndexOf(q.items, k)];
  }

  /** The potential is never negative, and zero exactly for keys the queue does not know. */
  lemma LeftIsZero(q: State<nat>, k: Key)
    requires Inv(q) && Bounded(q)
    ensures Left(q, k) >= 0
    ensures Left(q, k) == 0 <==> k !in q.busy && !Queued(q.items, k)
  {
    hide Contents;
    ContentsAreLookups(q.items);
  }

  // ---------- A handler that always fails ----------

  /** `k` is on the list, or being processed with nothing said about it since. */
  predicate Unbothered(q: State<nat>, k: Key)
    requires Tracked(q)
  {
    k in q.busy ==> Unmarked(q.heap[q.busy[k]])
  }

  lemma FailingFinish(q: State<nat>, p: nat, retry: RetryFunc, now: int, rate: nat, k: Key)
    requires Inv(q) && Bounded(q) && p in q.heap && GivesUpAtMax(retry)
    requires q.heap[p].key == k && Unbothered(q, k)
    requires Inv(Complete(q, p, true, retry, now, rate))
    ensures Left(Complete(q, p, true, retry, now, rate), k) == Left(q, k) - 1
  {
    hide Complete, Contents;
    CompleteOnMap(q, p, true, retry, now, rate);
    CompleteFrame(q, p, true, retry, now, rate);
  }

  lemma KeyOfBusy(q: State<nat>, k: Key)
    requires Inv(q)
    ensures k in q.busy ==> q.busy[k] in q.heap && q.heap[q.busy[k]].key == k
  {}

  lemma UnbotheredLook(s: System, w: nat, p: nat, k: Key)
    requires SystemInv(s) && Enabled(s, Look(w, p)) && Unbothered(s.q, k) && Inv(LookStep(s, w, p).q)
    ensures Unbothered(LookStep(s, w, p).q, k)
  {}

  lemma UnbotheredStep(s: System, l: Label, k: Key)
    requires SystemInv(s) && Enabled(s, l) && !Outside(l, k) && Unbothered(s.q, k)
    ensures Inv(Step(s, l).q) && Unbothered(Step(s, l).q, k)
  {
    hide Complete, Insert, Forget, LookStep, Contents, Inv, OneHolder, OneOwner, NoLostWakeup;
    StepKeepsInv(s, l);
    match l
    case Look(w, p) => UnbotheredLook(s, w, p, k);
    case Finish(w, failed, retry, rate) =>
      CompleteFrame(s.q, s.workers[w].qi, failed, retry, s.clock, rate);
    case Enqueue(key, ratelimit, delay, rate) =>
      InsertFrame(s.q, key, ratelimit, delay, s.clock, rate);
      KeyOfBusy(s.q, k);
    case ForgetKey(key) =>
      ForgetFrame(s.q, key);
      KeyOfBusy(s.q, k);
    case _ =>
  }

  /** Every run of the handler on `k` that ends during `run` fails. */
  ghost predicate AlwaysFails(s: System, run: seq<Label>, k: Key)
    requires Legal(s, run)
  {
    run == [] ||
    var before, last := run[..|run| - 1], run[|run| - 1];
    AlwaysFails(s, before, k) && (Ends(Exec(s, before), last, k) ==> last.failed)
  }

  /** Then each run spends exactly one unit of the potential. */
  lemma {:induction false} FailuresAreCounted(s: System, run: seq<Label>, k: Key)
    requires SystemInv(s) && Bounded(s.q) && Legal(s, run) && AllPoliced(run) && AllPersistent(run)
    requires forall i | 0 <= i < |run| :: !Outside(run[i], k)
    requires Unbothered(s.q, k) && AlwaysFails(s, run, k)
    ensures Inv(Exec(s, run).q) && Unbothered(Exec(s, run).q, k)
    ensures HandlerRuns(s, run, k) + Left(Exec(s, run).q, k) == Left(s.q, k)
  {
    if run == [] {
    } else {
      var before, last := run[..|run| - 1], run[|run| - 1];
      FailuresAreCounted(s, before, k);
      RunsKeepInv(s, before);
      RunsStayBounded(s, before);
      var s' := Exec(s, before);
      LeftStep(s', last, k);
      UnbotheredStep(s', last, k);
      if Ends(s', last, k) {
        FailingFinish(s'.q, s'.workers[last.w].qi, last.retry, s'.clock, last.rate, k);
      }
    }
  }

  /** A key enqueued once whose handler always fails leaves the queue after exactly twenty runs. */
  lemma GoneAfterTwentyFailures(s: System, run: seq<Label>, k: Key)
    requires SystemInv(s) && Bounded(s.q) && Legal(s, run) && AllPoliced(run) && AllPersistent(run)
    requires forall i | 0 <= i < |run| :: !Outside(run[i], k)
    requires Queued(s.q.items, k) && Lookup(s.q.items, k).requeues == 0 && AlwaysFails(s, run, k)
    ensures var q := Exec(s, run).q;
            HandlerRuns(s, run, k) == 20 <==> k !in q.busy && !Queued(q.items, k)
  {
    hide Inv, Exec, Left, Bounded, HandlerRuns, AlwaysFails;
    QueuedIsUnmarked(s.q, k);
    LeftAtMost(s.q, k);
    FailuresAreCounted(s, run, k);
    RunsStayBounded(s, run);
    LeftIsZero(Exec(s, run).q, k);
  }

  // ---------- The whole queue ----------

  function TotalLeft(q: State<nat>, ks: seq<Key>): int
    requires Tracked(q)
  {
    if ks == [] then 0 else Left(q, ks[0]) + TotalLeft(q, ks[1..])
  }

  function Finishes(run: seq<Label>): nat {
    if run == [] then 0 else Finishes(run[..|run| - 1]) + if run[|run| - 1].Finish? then 1 else 0
  }

  lemma {:induction false} TotalFalls(q: State<nat>, q': State<nat>, ks: seq<Key>, k: Key)
    requires Tracked(q) && Tracked(q')
    requires forall x | x in ks :: if x == k then Left(q', x) < Left(q, x) else Left(q', x) == Left(q, x)
    ensures TotalLeft(q', ks) <= TotalLeft(q, ks)
    ensures k in ks ==> TotalLeft(q', ks) < TotalLeft(q, ks)
  {
    if ks == [] {
    } else {
      TotalFalls(q, q', ks[1..], k);
    }
  }

  lemma {:induction false} TotalStays(q: State<nat>, q': State<nat>, ks: seq<Key>)
    requires Tracked(q) && Tracked(q')
    requires forall x | x in ks :: Left(q', x) == Left(q, x)
    ensures TotalLeft(q', ks) == TotalLeft(q, ks)
  {
    if ks == [] {
    } else {
      TotalStays(q, q', ks[1..]);
    }
  }

  /** With no outside calls at all the workers complete items only finitely often: at most the total potential. */
  lemma {:induction false} QueueDrains(s: System, run: seq<Label>, ks: seq<Key>)
    requires SystemInv(s) && Bounded(s.q) && Legal(s, run) && AllPoliced(run)
    requires forall i | 0 <= i < |run| :: !run[i].Enqueue? && !run[i].ForgetKey?
    requires forall k | k in s.q.busy || Queued(s.q.items, k) :: k in ks
    ensures Inv(Exec(s, run).q)
    ensures Finishes(run) + TotalLeft(Exec(s, run).q, ks) <= TotalLeft(s.q, ks)
  {
    if run == [] {
    } else {
      var before, last := run[..|run| - 1], run[|run| - 1];
      QueueDrains(s, before, ks);
      RunsKeepInv(s, before);
      RunsStayBounded(s, before);
      var s' := Exec(s, before);
      if last.Finish? {
        KeyWasThere(s, before, s'.q.heap[s'.workers[last.w].qi].key);
      }
      TotalStep(s', last, ks);
    }
  }

  lemma TotalStep(s: System, l: Label, ks: seq<Key>)
    requires SystemInv(s) && Bounded(s.q) && Enabled(s, l) && Policed(l) && !l.Enqueue? && !l.ForgetKey?
    requires l.Finish? ==> s.q.heap[s.workers[l.w].qi].key in ks
    ensures Inv(Step(s, l).q)
    ensures TotalLeft(Step(s, l).q, ks) + (if l.Finish? then 1 else 0) <= TotalLeft(s.q, ks)
  {
    hide Inv, Step, Left, Bounded, OneHolder, OneOwner, NoLostWakeup;
    StepKeepsInv(s, l);
    forall k
      ensures if Ends(s, l, k) then Left(Step(s, l).q, k) < Left(s.q, k) else Left(Step(s, l).q, k) == Left(s.q, k)
    {
      LeftStep(s, l, k);
    }
    if l.Finish? {
      TotalFalls(s.q, Step(s, l).q, ks, s.q.heap[s.workers[l.w].qi].key);
    } else {
      TotalStays(s.q, Step(s, l).q, ks);
    }
  }

  /** Without outside calls no key appears that was not there. */
  lemma KeyWasThere(s: System, run: seq<Label>, k: Key)
    requires SystemInv(s) && Bounded(s.q) && Legal(s, run) && AllPoliced(run)
    requires forall i | 0 <= i < |run| :: !Outside(run[i], k)
    requires k in Exec(s, run).q.busy || Queued(Exec(s, run).q.items, k)
    ensures k in s.q.busy || Queued(s.q.items, k)
  {
    HandlerRunsAreBounded(s, run, k);
    RunsStayBounded(s, run);
    LeftIsZero(Exec(s, run).q, k);
    LeftIsZero(s.q, k);
  }

  lemma {:induction false} TotalAtMost(q: State<nat>, ks: seq<Key>)
    requires Inv(q)
    ensures TotalLeft(q, ks) <= 21 * |ks|
  {
    hide Inv, Left;
    if ks == [] {
    } else {
      LeftAtMost(q, ks[0]);
      TotalAtMost(q, ks[1..]);
    }
  }
}
