/**
 The queue can always drain: from every state the invariant allows, whatever the handlers and the rate limiter
 answer, and under any retry policy that gives up by the maximum, the workers have a way to an empty queue.
 */
module QueueProgress {
  import opened QueueSpec
  import opened QueueLaws
  import opened QueueProtocol
  import opened QueueSafety
  import opened QueueDrain

  /** What a worker is answered when it finishes as step `i` of a run. */
  datatype Answers = Answers(fails: nat -> bool, rates: nat -> nat, retry: RetryFunc)

  /** The answers from step `n` on. */
  function From(h: Answers, n: nat): Answers {
    Answers((i: nat) => h.fails(i + n), (i: nat) => h.rates(i + n), h.retry)
  }

  /** Steps of the workers and of the clock alone, none of them quitting, finished as `h` answers. */
  ghost predicate Unaided(l: Label, i: nat, h: Answers) {
    || OfWorkers(l) || l.Tick?
    || (l.Finish? && l.failed == h.fails(i) && l.rate == h.rates(i) && l.retry == h.retry)
  }

  ghost predicate AllUnaided(run: seq<Label>, h: Answers) {
    forall i | 0 <= i < |run| :: Unaided(run[i], i, h)
  }

  ghost predicate Empty(q: State<nat>) {
    q.items == [] && q.busy == map[]
  }

  /** A state from which the workers go on: the invariants hold, and `ks` lists every key there is. */
  ghost predicate Ready(s: System, ks: seq<Key>) {
    && SystemInv(s) && Bounded(s.q)
    && (forall k | k in s.q.busy || Queued(s.q.items, k) :: k in ks)
    && exists w :: 0 <= w < |s.workers| && !s.workers[w].Exited?
  }

  // ---------- Runs one after the other ----------

  lemma {:induction false} RunsJoin(s: System, a: seq<Label>, b: seq<Label>)
    requires Legal(s, a) && Legal(Exec(s, a), b)
    ensures Legal(s, a + b) && Exec(s, a + b) == Exec(Exec(s, a), b)
  {
    hide Step, Enabled;
    if b == [] {
      assert a + b == a;
    } else {
      var n := |b| - 1;
      RunsJoin(s, a, b[..n]);
      assert (a + b)[..|a + b| - 1] == a + b[..n];
    }
  }

  lemma UnaidedJoins(a: seq<Label>, b: seq<Label>, h: Answers)
    requires AllUnaided(a, h) && AllUnaided(b, From(h, |a|))
    ensures AllUnaided(a + b, h)
  {
    forall i | 0 <= i < |a + b| ensures Unaided((a + b)[i], i, h) {
      if i >= |a| { assert Unaided(b[i - |a|], i - |a|, From(h, |a|)); }
    }
  }

  /** An unaided run keeps what the workers need, except that someone must be left to work. */
  lemma UnaidedKeeps(s: System, run: seq<Label>, h: Answers, ks: seq<Key>)
    requires Ready(s, ks) && Legal(s, run) && AllUnaided(run, h) && GivesUpByMax(h.retry)
    requires exists w :: 0 <= w < |Exec(s, run).workers| && !Exec(s, run).workers[w].Exited?
    ensures Ready(Exec(s, run), ks)
    ensures Finishes(run) + TotalLeft(Exec(s, run).q, ks) <= TotalLeft(s.q, ks)
  {
    forall i | 0 <= i < |run| ensures Policed(run[i]) && !run[i].Enqueue? && !run[i].ForgetKey? {
      assert Unaided(run[i], i, h);
    }
    RunsKeepInv(s, run);
    RunsStayBounded(s, run);
    QueueDrains(s, run, ks);
    var q := Exec(s, run).q;
    forall k | k in q.busy || Queued(q.items, k) ensures k in ks {
      KeyWasThere(s, run, k);
    }
  }

  lemma {:induction false} TotalIsNatural(q: State<nat>, ks: seq<Key>)
    requires Inv(q) && Bounded(q)
    ensures TotalLeft(q, ks) >= 0
  {
    hide Left, Inv, Bounded;
    if ks == [] {
    } else {
      LeftIsZero(q, ks[0]);
      TotalIsNatural(q, ks[1..]);
    }
  }

  lemma ReadyIsNatural(s: System, ks: seq<Key>)
    requires Ready(s, ks)
    ensures TotalLeft(s.q, ks) >= 0
  {
    TotalIsNatural(s.q, ks);
  }

  // ---------- One item further ----------

  /** Some worker has a dequeued item: it finishes it. */
  lemma FinishOne(s: System, h: Answers, ks: seq<Key>) returns (run: seq<Label>)
    requires Ready(s, ks) && s.q.busy != map[] && GivesUpByMax(h.retry)
    ensures Legal(s, run) && AllUnaided(run, h)
    ensures Ready(Exec(s, run), ks) && TotalLeft(Exec(s, run).q, ks) < TotalLeft(s.q, ks)
  {
    hide Inv, Step, Bounded, TotalLeft, GivesUpByMax;
    var w := SomeOwner(s);
    if s.workers[w].Releasing? {
      var finish := Finish(w, h.fails(1), h.retry, h.rates(1));
      run := [Release(w), finish];
      ReleaseThenFinish(s, w, finish);
      assert run[..1] == [Release(w)];
      assert Finishes(run) == Finishes(run[..1]) + 1;
    } else {
      var finish := Finish(w, h.fails(0), h.retry, h.rates(0));
      run := [finish];
      CanAlwaysFinish(s, w, finish);
      One(s, finish);
      assert run[..0] == [];
      assert Finishes(run) == Finishes(run[..0]) + 1;
    }
    assert !Exec(s, run).workers[w].Exited?;
    assert Finishes(run) == 1;
    UnaidedKeeps(s, run, h, ks);
  }

  lemma SomeOwner(s: System) returns (w: nat)
    requires SystemInv(s) && s.q.busy != map[]
    ensures w < |s.workers| && (s.workers[w].Releasing? || s.workers[w].Handling?)
  {
    var k :| k in s.q.busy;
    var p := s.q.busy[k];
    var i :| 0 <= i < |s.workers| && Possesses(s.workers[i], p);
    w := i;
  }

  lemma CanAlwaysFinish(s: System, w: nat, finish: Label)
    requires SystemInv(s) && w < |s.workers| && s.workers[w].Handling? && finish.Finish? && finish.w == w
    ensures Enabled(s, finish) && Step(s, finish).workers == s.workers[w := Idle]
  {
    assert Possesses(s.workers[w], s.workers[w].qi);
    DropKeepsInv(s.q, s.workers[w].qi);
  }

  lemma CanAlwaysRelease(s: System, w: nat)
    requires SystemInv(s) && w < |s.workers| && s.workers[w].Releasing?
    ensures Enabled(s, Release(w)) && SystemInv(Step(s, Release(w)))
    ensures Step(s, Release(w)).workers == s.workers[w := Handling(s.workers[w].qi)]
  {
    hide SystemInv;
    StepKeepsInv(s, Release(w));
  }

  lemma ReleaseThenFinish(s: System, w: nat, finish: Label)
    requires SystemInv(s) && w < |s.workers| && s.workers[w].Releasing? && finish.Finish? && finish.w == w
    ensures Legal(s, [Release(w), finish])
    ensures Exec(s, [Release(w), finish]).workers == s.workers[w := Idle]
  {
    hide SystemInv, Step, Enabled;
    CanAlwaysRelease(s, w);
    var s' := Step(s, Release(w));
    CanAlwaysFinish(s', w, finish);
    Two(s, Release(w), finish);
  }

  /** No worker has one: the clock moves to the first planned time if need be, and the front item is dequeued. */
  lemma TakeOne(s: System, h: Answers, ks: seq<Key>) returns (run: seq<Label>)
    requires Ready(s, ks) && s.q.busy == map[] && s.q.items != [] && GivesUpByMax(h.retry)
    ensures Legal(s, run) && AllUnaided(run, h)
    ensures Ready(Exec(s, run), ks) && TotalLeft(Exec(s, run).q, ks) <= TotalLeft(s.q, ks)
    ensures Exec(s, run).q.busy != map[]
  {
    hide SystemInv, Bounded, TotalLeft, Step, Enabled, GivesUpByMax, Queued, Lookup;
    var front := s.q.items[0];
    var tick := Tick(if s.clock < front.plannedAt then front.plannedAt else s.clock);
    var w :| 0 <= w < |s.workers| && !s.workers[w].Exited?;
    FrontIsDue(s, tick, w);
    var s' := Step(s, tick);
    var more := DueItemIsServed(s', w, front.key);
    One(s, tick);
    RunsJoin(s, [tick], more);
    run := [tick] + more;
    var p :| p !in s'.q.heap && Served(s', more, p);
    RunsKeepInv(s', more);
    TakenIsBusy(s', Exec(s', more), p);
    UnaidedKeeps(s, run, h, ks);
  }

  lemma FrontIsDue(s: System, tick: Label, w: nat)
    requires SystemInv(s) && s.q.busy == map[] && s.q.items != [] && tick.Tick?
    requires s.clock <= tick.to && s.q.items[0].plannedAt <= tick.to
    requires w < |s.workers| && !s.workers[w].Exited?
    ensures Enabled(s, tick) && SystemInv(Step(s, tick)) && Step(s, tick) == s.(clock := tick.to)
    ensures Queued(s.q.items, s.q.items[0].key) && Lookup(s.q.items, s.q.items[0].key) == s.q.items[0]
    ensures s.workers[w].Idle? || s.workers[w].Looking? || s.workers[w].Parked?
  {
    hide SystemInv;
    StepKeepsInv(s, tick);
    NoneBusy(s, w);
    assert IndexOf(s.q.items, s.q.items[0].key) == 0;
  }

  lemma NoneBusy(s: System, w: nat)
    requires SystemInv(s) && s.q.busy == map[]
    requires w < |s.workers| && !s.workers[w].Exited?
    ensures s.workers[w].Idle? || s.workers[w].Looking? || s.workers[w].Parked?
  {
    HeapIsBusy(s.q);
    OwnsObject(s.workers, s.q.heap, w);
  }

  lemma HeapIsBusy(q: State<nat>)
    requires Inv(q)
    ensures q.busy == map[] ==> q.heap.Keys == {}
  {
    assert forall p | p in q.heap :: q.heap[p].key in q.busy;
  }

  lemma OwnsObject(ws: seq<Worker>, heap: map<nat, Item>, w: nat)
    requires OneOwner(ws, heap) && w < |ws|
    ensures ws[w].Releasing? || ws[w].Handling? ==> ws[w].qi in heap
  {
    if ws[w].Releasing? || ws[w].Handling? {
      assert Possesses(ws[w], ws[w].qi);
    }
  }

  /** Once the front item is taken, a worker has it. */
  lemma TakenIsBusy(s: System, s': System, p: nat)
    requires SystemInv(s') && s.q.items != [] && (s'.q == Take(s.q, p) || s'.q == Take(s.q, p).(wake := false))
    ensures s'.q.busy != map[] && exists w :: 0 <= w < |s'.workers| && !s'.workers[w].Exited?
  {
    assert s.q.items[0].key in s'.q.busy;
    var w := SomeOwner(s');
    assert !s'.workers[w].Exited?;
  }

  // ---------- To the end ----------

  lemma {:induction false} DrainFrom(s: System, h: Answers, ks: seq<Key>) returns (run: seq<Label>)
    requires Ready(s, ks) && GivesUpByMax(h.retry)
    ensures Legal(s, run) && AllUnaided(run, h) && Empty(Exec(s, run).q)
    decreases TotalLeft(s.q, ks), s.q.busy == map[]
  {
    hide SystemInv, Bounded, GivesUpByMax, Step, Enabled;
    ReadyIsNatural(s, ks);
    if Empty(s.q) {
      run := [];
    } else {
      if s.q.busy == map[] {
        run := TakeOne(s, h, ks);
      } else {
        run := FinishOne(s, h, ks);
      }
      var rest := DrainFrom(Exec(s, run), From(h, |run|), ks);
      RunsJoin(s, run, rest);
      UnaidedJoins(run, rest, h);
      run := run + rest;
    }
  }

  lemma {:induction false} Listed(keys: set<Key>) returns (ks: seq<Key>)
    ensures forall k :: k in ks <==> k in keys
  {
    if keys == {} {
      ks := [];
    } else {
      var k :| k in keys;
      var others := Listed(keys - {k});
      ks := [k] + others;
    }
  }

  /**
   While one worker is left, whatever the handlers fail at and the limiter answers, and under any policy that
   gives up by the maximum, steps of the workers and of the clock alone lead to an empty list and nothing
   being processed.
   */
  lemma QueueCanDrain(s: System, w: nat, h: Answers) returns (run: seq<Label>)
    requires SystemInv(s) && Bounded(s.q) && GivesUpByMax(h.retry)
    requires w < |s.workers| && !s.workers[w].Exited?
    ensures Legal(s, run) && AllUnaided(run, h) && Empty(Exec(s, run).q)
  {
    var ks := Listed(s.q.busy.Keys + Keys(s.q.items));
    assert Ready(s, ks);
    run := DrainFrom(s, h, ks);
  }

  /** Without a worker nothing leaves the queue. */
  lemma {:induction false} NobodyDrains(s: System, run: seq<Label>, h: Answers)
    requires forall w | 0 <= w < |s.workers| :: s.workers[w].Exited?
    requires Legal(s, run) && AllUnaided(run, h)
    ensures Exec(s, run).q == s.q && Exec(s, run).workers == s.workers
  {
    if run == [] {
    } else {
      var before, last := run[..|run| - 1], run[|run| - 1];
      forall i | 0 <= i < |before| ensures Unaided(before[i], i, h) {
        assert Unaided(run[i], i, h);
      }
      NobodyDrains(s, before, h);
      assert Unaided(last, |before|, h);
    }
  }

  ghost predicate Drains(s: System, run: seq<Label>, h: Answers) {
    Legal(s, run) && AllUnaided(run, h) && Empty(Exec(s, run).q)
  }

  /**
   In every state that any run leads to, under policies that give up by the maximum, the queue can be drained
   exactly when it is empty already or a worker is left.
   */
  lemma DrainsExactly(s0: System, past: seq<Label>, h: Answers)
    requires Init(s0) && Legal(s0, past) && AllPoliced(past) && GivesUpByMax(h.retry)
    ensures var s := Exec(s0, past);
      (exists run :: Drains(s, run, h)) <==> Empty(s.q) || exists w :: 0 <= w < |s.workers| && !s.workers[w].Exited?
  {
    hide SystemInv, Bounded, Legal, Exec, Step, Enabled, GivesUpByMax, Policed;
    InitIsReady(s0);
    RunsKeepInv(s0, past);
    RunsStayBounded(s0, past);
    DrainsFromExactly(Exec(s0, past), h);
  }

  lemma InitIsReady(s: System)
    requires Init(s)
    ensures SystemInv(s) && Bounded(s.q)
  {
    InitHasInv(s);
  }

  lemma DrainsFromExactly(s: System, h: Answers)
    requires SystemInv(s) && Bounded(s.q) && GivesUpByMax(h.retry)
    ensures (exists run :: Drains(s, run, h))
      <==> Empty(s.q) || exists w :: 0 <= w < |s.workers| && !s.workers[w].Exited?
  {
    hide SystemInv, Bounded, Step, Enabled, GivesUpByMax;
    if w :| 0 <= w < |s.workers| && !s.workers[w].Exited? {
      var run := QueueCanDrain(s, w, h);
      assert Drains(s, run, h);
    } else {
      forall run | Drains(s, run, h) ensures Empty(s.q) {
        NobodyDrains(s, run, h);
      }
      assert Empty(s.q) ==> Drains(s, [], h);
    }
  }
}
