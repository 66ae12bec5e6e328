/** What every run of the queue's workers guarantees, whatever anyone enqueues or forgets meanwhile. */
module QueueSafety {
  import opened QueueSpec
  import opened QueueLaws
  import opened QueueProtocol

  // ---------- No wake-up is lost ----------

  /**
   A worker parked until `deadline` has a wake-up token waiting, or nothing on the list is planned
   before that deadline; a worker parked because the list was empty has a token or an empty list.
   */
  lemma NoWakeupIsLost(s0: System, run: seq<Label>, w: nat)
    requires Init(s0) && Legal(s0, run)
    requires var s := Exec(s0, run); w < |s.workers| && s.workers[w].Parked?
    ensures var s := Exec(s0, run); s.q.wake || NothingBefore(s.q.items, s.workers[w].deadline)
  {
    InitHasInv(s0);
    RunsKeepInv(s0, run);
  }

  /** So a parked worker never sleeps through an item that is due: it can leave its sleep at once. */
  lemma DueItemEndsSleep(s0: System, run: seq<Label>, w: nat, k: Key)
    requires Init(s0) && Legal(s0, run)
    requires var s := Exec(s0, run);
             && w < |s.workers| && s.workers[w].Parked?
             && Queued(s.q.items, k) && Lookup(s.q.items, k).plannedAt <= s.clock
    ensures var s := Exec(s0, run); Enabled(s, WakeUp(w)) || Enabled(s, TimerFires(w))
  {
    InitHasInv(s0);
    RunsKeepInv(s0, run);
    DueEndsSleep(Exec(s0, run), w, k);
  }

  // ---------- A due item is served ----------

  /**
   A due item never waits for anything but a worker that is free: if one is about to acquire the
   semaphore, looking, or parked, at most three steps of the workers alone, without the clock moving,
   dequeue the item at the front.
   */
  lemma DueItemIsServed(s: System, w: nat, k: Key) returns (run: seq<Label>)
    requires SystemInv(s)
    requires w < |s.workers| && (s.workers[w].Idle? || s.workers[w].Looking? || s.workers[w].Parked?)
    requires Queued(s.q.items, k) && Lookup(s.q.items, k).plannedAt <= s.clock
    ensures |run| <= 3 && Legal(s, run) && forall i | 0 <= i < |run| :: OfWorkers(run[i])
    ensures s.q.items != [] && Serves(s, k)
    ensures exists p :: p !in s.q.heap && Served(s, run, p)
  {
    hide SystemInv, Queued, Lookup, Step, Served;
    var p := FreshPointer(s.q.heap);
    if h :| 0 <= h < |s.workers| && Holds(s.workers[h]) {
      match s.workers[h]
      case Looking =>
        run := [Look(h, p)];
        ServedByLooking(s, h, p, k);
      case Parked(deadline) =>
        run := [if s.q.wake then WakeUp(h) else TimerFires(h), Look(h, p)];
        ServedByParked(s, h, p, k);
      case Releasing(qi) =>
        run := [Release(h), Acquire(w), Look(w, p)];
        ServedAfterRelease(s, h, w, p, k);
    } else {
      assert !Holds(s.workers[w]);
      run := [Acquire(w), Look(w, p)];
      ServedByIdle(s, w, p, k);
    }
  }

  /** A step of the workers in which none finishes or quits. */
  predicate OfWorkers(l: Label) {
    l.Acquire? || l.Look? || l.WakeUp? || l.TimerFires? || l.Release?
  }

  /** The run takes the front item off the list, under the pointer `p`. */
  ghost predicate Served(s: System, run: seq<Label>, p: nat)
    requires Legal(s, run) && s.q.items != []
  {
    Exec(s, run).q == Take(s.q, p) || Exec(s, run).q == Take(s.q, p).(wake := false)
  }

  lemma ServedByLooking(s: System, h: nat, p: nat, k: Key)
    requires SystemInv(s) && h < |s.workers| && s.workers[h].Looking? && p !in s.q.heap
    requires Queued(s.q.items, k) && Lookup(s.q.items, k).plannedAt <= s.clock
    ensures Legal(s, [Look(h, p)]) && s.q.items != [] && Served(s, [Look(h, p)], p) && Serves(s, k)
  {
    LookTakes(s, h, p, k);
    One(s, Look(h, p));
  }

  lemma ServedByParked(s: System, h: nat, p: nat, k: Key)
    requires SystemInv(s) && h < |s.workers| && s.workers[h].Parked? && p !in s.q.heap
    requires Queued(s.q.items, k) && Lookup(s.q.items, k).plannedAt <= s.clock
    ensures var run := [if s.q.wake then WakeUp(h) else TimerFires(h), Look(h, p)];
            Legal(s, run) && s.q.items != [] && Served(s, run, p) && Serves(s, k)
  {
    var out := if s.q.wake then WakeUp(h) else TimerFires(h);
    DueEndsSleep(s, h, k);
    StepKeepsInv(s, out);
    hide SystemInv, Queued, Lookup;
    LookTakes(Step(s, out), h, p, k);
    Two(s, out, Look(h, p));
  }

  lemma DueEndsSleep(s: System, h: nat, k: Key)
    requires SystemInv(s) && h < |s.workers| && s.workers[h].Parked?
    requires Queued(s.q.items, k) && Lookup(s.q.items, k).plannedAt <= s.clock
    ensures Enabled(s, WakeUp(h)) || Enabled(s, TimerFires(h))
  {}

  lemma ServedByIdle(s: System, w: nat, p: nat, k: Key)
    requires SystemInv(s) && w < |s.workers| && s.workers[w].Idle? && p !in s.q.heap
    requires forall i | 0 <= i < |s.workers| :: !Holds(s.workers[i])
    requires Queued(s.q.items, k) && Lookup(s.q.items, k).plannedAt <= s.clock
    ensures var run := [Acquire(w), Look(w, p)];
            Legal(s, run) && s.q.items != [] && Served(s, run, p) && Serves(s, k)
  {
    StepKeepsInv(s, Acquire(w));
    hide SystemInv, Queued, Lookup;
    LookTakes(Step(s, Acquire(w)), w, p, k);
    Two(s, Acquire(w), Look(w, p));
  }

  lemma ServedAfterRelease(s: System, h: nat, w: nat, p: nat, k: Key)
    requires SystemInv(s) && h < |s.workers| && s.workers[h].Releasing? && p !in s.q.heap
    requires w < |s.workers| && (s.workers[w].Idle? || s.workers[w].Looking? || s.workers[w].Parked?)
    requires Queued(s.q.items, k) && Lookup(s.q.items, k).plannedAt <= s.clock
    ensures var run := [Release(h), Acquire(w), Look(w, p)];
            Legal(s, run) && s.q.items != [] && Served(s, run, p) && Serves(s, k)
  {
    assert Holds(s.workers[h]);
    var s1 := Step(s, Release(h));
    StepKeepsInv(s, Release(h));
    var s2 := Step(s1, Acquire(w));
    StepKeepsInv(s1, Acquire(w));
    LookTakes(s2, w, p, k);
    Three(s, Release(h), Acquire(w), Look(w, p));
  }

  /** The front item goes to a worker before `k` does, or is that of `k`. */
  ghost predicate Serves(s: System, k: Key)
    requires s.q.items != [] && Queued(s.q.items, k)
  {
    s.q.items[0].key !in s.q.busy && s.q.items[0].plannedAt <= Lookup(s.q.items, k).plannedAt
  }

  lemma LookTakes(s: System, w: nat, p: nat, k: Key)
    requires SystemInv(s) && Enabled(s, Look(w, p))
    requires Queued(s.q.items, k) && Lookup(s.q.items, k).plannedAt <= s.clock
    ensures s.q.items != [] && Step(s, Look(w, p)).q == Take(s.q, p) && Serves(s, k)
  {
    var i := IndexOf(s.q.items, k);
    assert s.q.items[0].plannedAt <= s.q.items[i].plannedAt;
  }

  lemma One(s: System, a: Label)
    requires Enabled(s, a)
    ensures Legal(s, [a]) && Exec(s, [a]) == Step(s, a)
  {
    assert [a][..0] == [];
  }

  lemma Two(s: System, a: Label, b: Label)
    requires Enabled(s, a) && Enabled(Step(s, a), b)
    ensures Legal(s, [a, b]) && Exec(s, [a, b]) == Step(Step(s, a), b)
  {
    hide Step, Enabled;
    One(s, a);
    assert [a, b][..1] == [a];
  }

  lemma Three(s: System, a: Label, b: Label, c: Label)
    requires Enabled(s, a) && Enabled(Step(s, a), b) && Enabled(Step(Step(s, a), b), c)
    ensures Legal(s, [a, b, c]) && Exec(s, [a, b, c]) == Step(Step(Step(s, a), b), c)
  {
    hide Step, Enabled;
    Two(s, a, b);
    assert [a, b, c][..2] == [a, b];
  }

  lemma FreshPointer(heap: map<nat, Item>) returns (p: nat)
    ensures p !in heap
  {
    p := Above(heap.Keys);
  }

  lemma {:induction false} Above(ps: set<nat>) returns (n: nat)
    ensures forall p | p in ps :: p < n
  {
    if ps == {} {
      n := 0;
    } else {
      var p :| p in ps;
      var m := Above(ps - {p});
      assert ps == ps - {p} + {p};
      n := if p < m then m else p + 1;
    }
  }

  // ---------- A key is in one place and in one worker's hands ----------

  /** No key is both queued and being processed, and no two workers ever hold the same key. */
  lemma KeysAreExclusive(s0: System, run: seq<Label>)
    requires Init(s0) && Legal(s0, run)
    ensures var s := Exec(s0, run);
            && (forall k | k in s.q.busy :: !Queued(s.q.items, k))
            && (forall i, j, p, p' |
                  0 <= i < j < |s.workers| && Possesses(s.workers[i], p) && Possesses(s.workers[j], p') ::
                  p in s.q.heap && p' in s.q.heap && s.q.heap[p].key != s.q.heap[p'].key)
  {
    InitHasInv(s0);
    RunsKeepInv(s0, run);
    var s := Exec(s0, run);
    BusyIsNotQueued(s.q);
    forall i, j, p, p' | 0 <= i < j < |s.workers| && Possesses(s.workers[i], p) && Possesses(s.workers[j], p')
      ensures p in s.q.heap && p' in s.q.heap && s.q.heap[p].key != s.q.heap[p'].key
    {
      assert p != p';
    }
  }

  /**
   The item a worker finishes is the object stored under its key, its key is not on the list, and
   finishing is always possible; so putting the key back always makes a new item, whose requeue
   count is then the worker's to overwrite.
   */
  lemma FinisherOwnsItsKey(s0: System, run: seq<Label>, w: nat)
    requires Init(s0) && Legal(s0, run)
    requires var s := Exec(s0, run); w < |s.workers| && s.workers[w].Handling?
    ensures var q := Exec(s0, run).q; var p := Exec(s0, run).workers[w].qi;
            && CanFinish(q, p)
            && q.heap[p].key in q.busy && q.busy[q.heap[p].key] == p
            && !Queued(Drop(q, p).items, q.heap[p].key) && q.heap[p].key !in Drop(q, p).busy
  {
    InitHasInv(s0);
    RunsKeepInv(s0, run);
    var s := Exec(s0, run);
    var p := s.workers[w].qi;
    assert Possesses(s.workers[w], p);
    DropKeepsInv(s.q, p);
    KeysAreExclusive(s0, run);
  }
}
