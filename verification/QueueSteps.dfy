/**
 What the steps of the protocol do to a key, spelled out: when it is taken, what an enqueue and a forget leave,
 and which steps end its stay.
 */
module QueueSteps {
  import opened Options
  import opened QueueSpec
  import opened QueueLaws
  import opened QueueProtocol
  import opened QueueDrain

  // ---------- Looking at the front ----------

  /** The front is due exactly if some item is, and a worker that sleeps sleeps until the first of them is. */
  lemma GlanceExactly(items: seq<Item>, now: int)
    requires Sorted(items)
    ensures Glance(items, now).FrontDue? <==> exists i :: 0 <= i < |items| && items[i].plannedAt <= now
    ensures Glance(items, now).NothingThere? <==> items == []
    ensures Glance(items, now).NotBefore? ==>
      var time := Glance(items, now).time;
      && now < time && (forall i | 0 <= i < |items| :: time <= items[i].plannedAt)
      && exists i :: 0 <= i < |items| && items[i].plannedAt == time
  {
    if items != [] {
      assert items[0].plannedAt <= now || forall i | 0 <= i < |items| :: now < items[i].plannedAt;
    }
  }

  /** A look takes an item exactly if one is due; it is the front one, and otherwise nothing but the worker changes. */
  lemma LookTakesExactly(s: System, w: nat, p: nat)
    requires SystemInv(s) && Enabled(s, Look(w, p))
    ensures var s' := Step(s, Look(w, p));
      var due := exists i :: 0 <= i < |s.q.items| && s.q.items[i].plannedAt <= s.clock;
      && (s'.q.busy != s.q.busy <==> due)
      && (due ==> s'.q.busy == s.q.busy[s.q.items[0].key := p] && s'.workers == s.workers[w := Releasing(p)])
      && (!due ==> s'.q == s.q && s'.workers[w].Parked?)
  {
    hide OneHolder, OneOwner, NoLostWakeup;
    GlanceExactly(s.q.items, s.clock);
    if s.q.items != [] {
      assert s.q.items[0].key !in s.q.busy;
      assert s.q.items[0].key in s.q.busy[s.q.items[0].key := p];
    }
  }

  lemma BusyByLook(s: System, l: Label, k: Key)
    requires SystemInv(s) && Enabled(s, l) && k !in s.q.busy && k in Step(s, l).q.busy
    ensures l.Look? && k in Contents(s.q.items) && Contents(s.q.items)[k].plannedAt <= s.clock
  {
    hide Contents, Complete, Insert, Forget, OneHolder, OneOwner, NoLostWakeup;
    match l
    case Look(w, p) => if s.q.items != [] { TakeOnMap(s.q, p); }
    case Finish(w, failed, retry, rate) => CompleteFrame(s.q, s.workers[w].qi, failed, retry, s.clock, rate);
    case Enqueue(key, ratelimit, delay, rate) => InsertFrame(s.q, key, ratelimit, delay, s.clock, rate);
    case ForgetKey(key) => ForgetFrame(s.q, key);
    case _ =>
  }

  /** Over every run: no key is handed to a worker before the time it is planned for. */
  lemma NothingIsTakenEarly(s0: System, run: seq<Label>, l: Label, k: Key)
    requires Init(s0) && Legal(s0, run) && Enabled(Exec(s0, run), l)
    requires var s := Exec(s0, run); k !in s.q.busy && k in Step(s, l).q.busy
    ensures var s := Exec(s0, run);
      k in Contents(s.q.items) && Contents(s.q.items)[k].plannedAt <= s.clock
  {
    hide Step, Enabled, SystemInv, Contents;
    InitHasInv(s0);
    RunsKeepInv(s0, run);
    BusyByLook(Exec(s0, run), l, k);
  }

  // ---------- Enqueueing and forgetting ----------

  /**
   After an enqueue an idle key is queued: a new one after the delay that was given, else the limiter's, else at
   once; a queued one no later than the call asks.
   */
  lemma EnqueueQueues(s: System, key: Key, ratelimit: bool, delay: Option<int>, rate: nat)
    requires SystemInv(s) && key !in s.q.busy
    ensures var m := Contents(s.q.items);
      var m' := Contents(Step(s, Enqueue(key, ratelimit, delay, rate)).q.items);
      && m'.Keys == m.Keys + {key} && (forall k | k in m && k != key :: m'[k] == m[k])
      && (key !in m ==>
            m'[key].plannedAt - s.clock == match delay case Some(d) => d case None => if ratelimit then rate else 0)
      && (key in m ==> m'[key].plannedAt <= m[key].plannedAt)
      && (key in m && delay.None? ==> m'[key].plannedAt <= s.clock)
      && (key in m && delay.Some? ==> m'[key].plannedAt <= s.clock + delay.value)
  {
    hide Contents, OneHolder, OneOwner, NoLostWakeup;
    EnqueuedTime(s.q, key, ratelimit, delay, s.clock, rate);
  }

  /** After an enqueue of a key that is being processed its object is to come back, no later than the call asks. */
  lemma EnqueueMarks(s: System, key: Key, ratelimit: bool, delay: Option<int>, rate: nat)
    requires SystemInv(s) && key in s.q.busy
    ensures var q, q' := s.q, Step(s, Enqueue(key, ratelimit, delay, rate)).q;
      var at := match delay case Some(d) => s.clock + d case None => s.clock;
      var item, item' := q.heap[q.busy[key]], q'.heap[q.busy[key]];
      && q'.busy == q.busy && q'.items == q.items
      && !item'.forget
      && (item.redirtiedAt.None? || at < item.redirtiedAt.value ==>
            item'.redirtiedAt == Some(at) && item'.redirtiedWithRatelimit == ratelimit)
      && (item.redirtiedAt.Some? && item.redirtiedAt.value <= at ==>
            item'.redirtiedAt == item.redirtiedAt && item'.redirtiedWithRatelimit == item.redirtiedWithRatelimit)
      && forall p | p in q.heap && p != q.busy[key] :: p in q'.heap && q'.heap[p] == q.heap[p]
  {
    hide Enlist, OneHolder, OneOwner, NoLostWakeup;
  }

  /** After a forget the key is not queued; if it is being processed, its object is marked and keeps its times. */
  lemma ForgetRemoves(s: System, key: Key)
    requires SystemInv(s)
    ensures var q, q' := s.q, Step(s, ForgetKey(key)).q;
      && Contents(q'.items) == Contents(q.items) - {key} && q'.busy == q.busy
      && (key in q.busy ==>
            q.busy[key] in q'.heap && q'.heap[q.busy[key]] == q.heap[q.busy[key]].(forget := true))
      && forall p | p in q.heap && (key !in q.busy || p != q.busy[key]) :: p in q'.heap && q'.heap[p] == q.heap[p]
  {
    hide Contents, Without, OneHolder, OneOwner, NoLostWakeup;
    ForgetOnMap(s.q, key);
    BusyIsNotQueued(s.q);
  }

  // ---------- How long a key stays ----------

  /** The queue has the key in its care. */
  predicate Known(q: State<nat>, k: Key) {
    k in q.busy || k in Contents(q.items)
  }

  lemma KnownAfter(s: System, l: Label, k: Key)
    requires SystemInv(s) && Enabled(s, l) && Known(s.q, k) && l != ForgetKey(k) && !Ends(s, l, k)
    ensures Known(Step(s, l).q, k)
  {
    hide Contents, Complete, Insert, Forget, OneHolder, OneOwner, NoLostWakeup;
    match l
    case Look(w, p) => if s.q.items != [] { TakeOnMap(s.q, p); }
    case Finish(w, failed, retry, rate) =>
      CompleteOnMap(s.q, s.workers[w].qi, failed, retry, s.clock, rate);
      CompleteFrame(s.q, s.workers[w].qi, failed, retry, s.clock, rate);
    case Enqueue(key, ratelimit, delay, rate) =>
      InsertOnMap(s.q, key, ratelimit, delay, s.clock, rate);
      InsertFrame(s.q, key, ratelimit, delay, s.clock, rate);
    case ForgetKey(key) =>
      ForgetOnMap(s.q, key);
      ForgetFrame(s.q, key);
    case _ =>
  }

  /** Over every run: a key in the queue's care stays there until it is forgotten or a run of its handler ends. */
  lemma {:induction false} KeyStays(s: System, run: seq<Label>, k: Key)
    requires SystemInv(s) && Legal(s, run) && Known(s.q, k)
    requires HandlerRuns(s, run, k) == 0 && ForgetKey(k) !in run
    ensures Known(Exec(s, run).q, k)
  {
    hide Step, Enabled, SystemInv, Known;
    if run == [] {
    } else {
      var before, last := run[..|run| - 1], run[|run| - 1];
      KeyStays(s, before, k);
      RunsKeepInv(s, before);
      KnownAfter(Exec(s, before), last, k);
    }
  }

  // ---------- Workers and clock ----------

  /** A step moves no worker but its own, and only a tick moves the clock, never back. */
  lemma StepsAreSeparate(s: System, l: Label)
    requires Enabled(s, l)
    ensures var s' := Step(s, l);
      && |s'.workers| == |s.workers| && s.clock <= s'.clock && (s'.clock != s.clock ==> l == Tick(s'.clock))
      && (s'.cancelled <==> s.cancelled || l.Cancel?)
      && forall i | 0 <= i < |s.workers| && s'.workers[i] != s.workers[i] ::
           !l.Enqueue? && !l.ForgetKey? && !l.Cancel? && !l.Tick? && l.w == i
  {
    hide Complete, Insert, Forget, Take;
  }

  /** Over every run: workers leave only after a cancellation. */
  lemma {:induction false} ExitedOnlyAfterCancel(s: System, run: seq<Label>, w: nat)
    requires Legal(s, run) && !s.cancelled && w < |s.workers| && !s.workers[w].Exited?
    ensures |Exec(s, run).workers| == |s.workers|
    ensures Exec(s, run).cancelled <==> Cancel in run
    ensures Exec(s, run).workers[w].Exited? ==> Cancel in run
  {
    hide Complete, Insert, Forget, Take;
    if run == [] {
    } else {
      var before, last := run[..|run| - 1], run[|run| - 1];
      assert run == before + [last];
      ExitedOnlyAfterCancel(s, before, w);
      StepsAreSeparate(Exec(s, before), last);
    }
  }
}
