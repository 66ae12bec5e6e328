/**
 What becomes of a key that is enqueued or forgotten while it is being processed: the last of those
 calls decides whether it is queued afterwards, and the earliest enqueue decides when.
 */
module QueueFate {
  import opened Options
  import opened QueueSpec
  import opened QueueLaws
  import opened QueueProtocol
  import QueueSteps

  datatype Op = Enqueued(when: int, ratelimit: bool) | Forgotten

  /** The call `l` makes about `k` at time `now`, if any. */
  function CallOn(l: Label, now: int, k: Key): seq<Op> {
    if l.Enqueue? && l.key == k then [Enqueued(now + l.delay.GetOr(0), l.ratelimit)]
    else if l.ForgetKey? && l.key == k then [Forgotten]
    else []
  }

  /** The calls about `k` made during a run, in order. */
  function OpsOn(s: System, run: seq<Label>, k: Key): seq<Op>
    requires Legal(s, run)
  {
    if run == [] then []
    else
      var before := run[..|run| - 1];
      OpsOn(s, before, k) + CallOn(run[|run| - 1], Exec(s, before).clock, k)
  }

  /** The first of the enqueues with the smallest time. */
  function Earliest(ops: seq<Op>): (e: Option<Op>)
    ensures e.Some? ==> e.value.Enqueued? && e.value in ops
    ensures e.None? ==> forall op | op in ops :: op.Forgotten?
    ensures e.Some? ==> forall op | op in ops && op.Enqueued? :: e.value.when <= op.when
  {
    if ops == [] then None
    else
      var e, last := Earliest(ops[..|ops| - 1]), ops[|ops| - 1];
      assert ops == ops[..|ops| - 1] + [last];
      if last.Enqueued? && (e.None? || last.when < e.value.when) then Some(last) else e
  }

  /** An item as the calls leave it: forgotten if the last one was a forget, redirtied for the earliest enqueue. */
  ghost predicate MarkedBy(item: Item, base: Item, ops: seq<Op>) {
    && item.forget == (ops != [] && ops[|ops| - 1].Forgotten?)
    && (match Earliest(ops)
        case None => item.redirtiedAt.None?
        case Some(e) => item.redirtiedAt == Some(e.when) && item.redirtiedWithRatelimit == e.ratelimit)
    && item.key == base.key && item.requeues == base.requeues && item.originallyAdded == base.originallyAdded
  }

  ghost predicate Busy(s: System, w: nat, p: nat) {
    SystemInv(s) && w < |s.workers| && Possesses(s.workers[w], p) && p in s.q.heap
  }

  // ---------- One step seen from a busy worker ----------

  function After(item: Item, now: int, l: Label): Item {
    if l.Enqueue? && l.key == item.key then Redirty(item, now + l.delay.GetOr(0), l.ratelimit)
    else if l.ForgetKey? && l.key == item.key then item.(forget := true)
    else item
  }

  lemma ObjectStep(s: System, w: nat, p: nat, l: Label)
    requires Busy(s, w, p) && Enabled(s, l) && !(l.Finish? && l.w == w)
    ensures Busy(Step(s, l), w, p) && Step(s, l).q.heap[p] == After(s.q.heap[p], s.clock, l)
  {
    hide Complete, Insert, Forget, Inv, OneHolder, OneOwner, NoLostWakeup, Redirty, LookStep;
    StepKeepsInv(s, l);
    match l
    case Look(w', p') => ObjectLook(s, w, p, w', p');
    case Finish(w', failed, retry, rate) =>
      CompleteFrame(s.q, s.workers[w'].qi, failed, retry, s.clock, rate);
      OthersObject(s, w, p, w');
    case Enqueue(key, ratelimit, delay, rate) => ObjectInsert(s.q, p, key, ratelimit, delay, s.clock, rate);
    case ForgetKey(key) => ObjectForget(s.q, p, key);
    case _ =>
  }

  lemma OthersObject(s: System, w: nat, p: nat, w': nat)
    requires Busy(s, w, p) && w' < |s.workers| && w' != w && s.workers[w'].Handling?
    ensures s.workers[w'].qi != p
  {
    assert Possesses(s.workers[w'], s.workers[w'].qi);
  }

  lemma BusyIsTheirs(q: State<nat>, p: nat)
    requires Inv(q) && p in q.heap
    ensures q.heap[p].key in q.busy && q.busy[q.heap[p].key] == p && !Queued(q.items, q.heap[p].key)
  {
    BusyIsNotQueued(q);
  }

  lemma ObjectLook(s: System, w: nat, p: nat, w': nat, p': nat)
    requires Busy(s, w, p) && Enabled(s, Look(w', p'))
    ensures var s' := LookStep(s, w', p');
            w < |s'.workers| && Possesses(s'.workers[w], p) && p in s'.q.heap && s'.q.heap[p] == s.q.heap[p]
  {
    hide Inv, OneHolder, OneOwner, NoLostWakeup;
  }

  lemma ObjectInsert(q: State<nat>, p: nat, key: Key, ratelimit: bool, delay: Option<int>, now: int, rate: nat)
    requires Inv(q) && p in q.heap
    ensures var q' := Insert(q, key, ratelimit, delay, now, rate);
            && p in q'.heap
            && q'.heap[p] ==
                 if key == q.heap[p].key then Redirty(q.heap[p], now + delay.GetOr(0), ratelimit) else q.heap[p]
  {
    hide Enlist, Redirty;
    BusyIsTheirs(q, p);
  }

  lemma ObjectForget(q: State<nat>, p: nat, key: Key)
    requires Inv(q) && p in q.heap
    ensures var q' := Forget(q, key);
            && p in q'.heap
            && q'.heap[p] == if key == q.heap[p].key then q.heap[p].(forget := true) else q.heap[p]
  {
    BusyIsTheirs(q, p);
  }

  /** While a worker is busy with an item, its object records exactly the calls made about its key. */
  lemma {:induction false} ObjectRecordsCalls(s: System, w: nat, p: nat, run: seq<Label>)
    requires Busy(s, w, p) && Unmarked(s.q.heap[p]) && Legal(s, run)
    requires forall i | 0 <= i < |run| :: !(run[i].Finish? && run[i].w == w)
    ensures Busy(Exec(s, run), w, p)
    ensures MarkedBy(Exec(s, run).q.heap[p], s.q.heap[p], OpsOn(s, run, s.q.heap[p].key))
  {
    hide SystemInv, MarkedBy, Step, Enabled, After, Unmarked;
    if run == [] {
      MarkedByNothing(s.q.heap[p]);
    } else {
      var before, last := run[..|run| - 1], run[|run| - 1];
      ObjectRecordsCalls(s, w, p, before);
      ObjectStep(Exec(s, before), w, p, last);
      var s' := Exec(s, before);
      AfterRecords(s'.q.heap[p], s.q.heap[p], OpsOn(s, before, s.q.heap[p].key), s'.clock, last);
    }
  }

  lemma MarkedByNothing(item: Item)
    requires Unmarked(item)
    ensures MarkedBy(item, item, [])
  {}

  lemma AfterRecords(item: Item, base: Item, ops: seq<Op>, now: int, l: Label)
    requires MarkedBy(item, base, ops)
    ensures MarkedBy(After(item, now, l), base, ops + CallOn(l, now, base.key))
  {
    hide Redirty;
    if l.Enqueue? && l.key == item.key {
      MarkedByEnqueue(item, base, ops, Enqueued(now + l.delay.GetOr(0), l.ratelimit));
    } else if l.ForgetKey? && l.key == item.key {
      MarkedByForget(item, base, ops);
    } else {
      assert ops + [] == ops;
    }
  }

  lemma MarkedByEnqueue(item: Item, base: Item, ops: seq<Op>, op: Op)
    requires MarkedBy(item, base, ops) && op.Enqueued?
    ensures MarkedBy(Redirty(item, op.when, op.ratelimit), base, ops + [op])
  {
    assert (ops + [op])[..|ops|] == ops;
  }

  lemma MarkedByForget(item: Item, base: Item, ops: seq<Op>)
    requires MarkedBy(item, base, ops)
    ensures MarkedBy(item.(forget := true), base, ops + [Forgotten])
  {
    assert (ops + [Forgotten])[..|ops|] == ops;
  }

  // ---------- The fate of the key ----------

  /** A worker dequeues an item at `s`, anything happens during `run`, and then it finishes. */
  ghost predicate Window(s: System, w: nat, p: nat, run: seq<Label>, finish: Label) {
    && Busy(s, w, p) && Unmarked(s.q.heap[p])
    && Legal(s, run) && (forall i | 0 <= i < |run| :: !(run[i].Finish? && run[i].w == w))
    && finish.Finish? && finish.w == w && Enabled(Exec(s, run), finish)
  }

  predicate IsRetried(base: Item, finish: Label)
    requires finish.Finish?
  {
    finish.failed && finish.retry(base.key, base.requeues + 1, base.originallyAdded).Retry?
  }

  /**
   The last call decides: after a forget the key is gone, after an enqueue it is queued, and with no
   call it is queued exactly when the handler failed and the policy allowed a retry.
   */
  ghost predicate LastCallDecided(m: map<Key, Item>, base: Item, ops: seq<Op>, finish: Label)
    requires finish.Finish?
  {
    base.key in m <==> if ops == [] then IsRetried(base, finish) else ops[|ops| - 1].Enqueued?
  }

  /**
   A key that comes back because it was enqueued, not retried, is planned for the earliest time of all
   enqueues in the window, those before a forget included. A retried key is planned after the
   policy's delay or the rate limiter's, with one more requeue and its original time of addition.
   */
  ghost predicate EarliestCallTimed(back: Item, base: Item, ops: seq<Op>, finish: Label, now: int)
    requires finish.Finish?
  {
    if IsRetried(base, finish) then
      && var delay := finish.retry(base.key, base.requeues + 1, base.originallyAdded).delay;
      && back.plannedAt == now + delay.GetOr(finish.rate)
      && back.requeues == base.requeues + 1 && back.originallyAdded == base.originallyAdded
    else
      && Earliest(ops).Some? && back.plannedAt == Earliest(ops).value.when
      && back.requeues == 0 && back.addedViaRedirty
      && back.delayedViaRatelimit.Some? == Earliest(ops).value.ratelimit
  }

  lemma PutBackIsFate(qi: Item, base: Item, ops: seq<Op>, finish: Label, now: int)
    requires finish.Finish? && MarkedBy(qi, base, ops)
    ensures var back := PutBack(qi, finish.failed, finish.retry, now, finish.rate);
            && (back.Some? <==> if ops == [] then IsRetried(base, finish) else ops[|ops| - 1].Enqueued?)
            && (back.Some? ==> EarliestCallTimed(back.value, base, ops, finish, now))
  {}

  lemma FateOfKey(s: System, w: nat, p: nat, run: seq<Label>, finish: Label)
    requires Window(s, w, p, run, finish)
    ensures var base, end := s.q.heap[p], Exec(s, run);
            var ops, after := OpsOn(s, run, base.key), Step(end, finish).q;
            && base.key !in after.busy
            && LastCallDecided(Contents(after.items), base, ops, finish)
            && (base.key in Contents(after.items) ==>
                  EarliestCallTimed(Contents(after.items)[base.key], base, ops, finish, end.clock))
  {
    hide Inv, Complete, Contents, OneHolder, OneOwner, NoLostWakeup, MarkedBy, EarliestCallTimed, PutBack, IsRetried;
    ObjectRecordsCalls(s, w, p, run);
    var base, end := s.q.heap[p], Exec(s, run);
    BusyIsTheirs(end.q, p);
    PutBackIsFate(end.q.heap[p], base, OpsOn(s, run, base.key), finish, end.clock);
    CompleteOnMap(end.q, p, finish.failed, finish.retry, end.clock, finish.rate);
    CompleteFrame(end.q, p, finish.failed, finish.retry, end.clock, finish.rate);
    SameKey(end.q.heap[p], base, OpsOn(s, run, base.key));
  }

  lemma SameKey(item: Item, base: Item, ops: seq<Op>)
    requires MarkedBy(item, base, ops)
    ensures item.key == base.key
  {}

  /**
   Under the default policy, a key about which nobody called while its handler failed comes back after the rate
   limiter's delay, with one more requeue, up to the nineteenth time; the twentieth time it is gone.
   */
  lemma DefaultBacksOff(s: System, w: nat, p: nat, run: seq<Label>, finish: Label)
    requires Window(s, w, p, run, finish) && OpsOn(s, run, s.q.heap[p].key) == []
    requires finish.failed && finish.retry == DefaultRetry
    ensures var base, end := s.q.heap[p], Exec(s, run);
      var q := Step(end, finish).q;
      var m := Contents(q.items);
      && base.key !in q.busy
      && (base.requeues + 1 < 20 ==>
            && base.key in m
            && m[base.key].plannedAt == end.clock + finish.rate
            && m[base.key].requeues == base.requeues + 1 && m[base.key].originallyAdded == base.originallyAdded)
      && (base.requeues + 1 >= 20 ==> base.key !in m)
  {
    FateOfKey(s, w, p, run, finish);
    hide Step, Contents, Window;
  }

  /** A key about which nobody called while its handler succeeded is gone, whatever the policy. */
  lemma SuccessEndsKey(s: System, w: nat, p: nat, run: seq<Label>, finish: Label)
    requires Window(s, w, p, run, finish) && OpsOn(s, run, s.q.heap[p].key) == [] && !finish.failed
    ensures var q := Step(Exec(s, run), finish).q;
      s.q.heap[p].key !in q.busy && s.q.heap[p].key !in Contents(q.items)
  {
    FateOfKey(s, w, p, run, finish);
    hide Step, Contents, Window;
  }

  /**
   A look opens such a window exactly if some item is due: the worker is then busy with the front item, which
   nobody has marked yet.
   */
  lemma DequeueOpensWindow(s: System, w: nat, p: nat)
    requires SystemInv(s) && Enabled(s, Look(w, p))
    ensures var s' := Step(s, Look(w, p));
      && (Busy(s', w, p) <==> exists i :: 0 <= i < |s.q.items| && s.q.items[i].plannedAt <= s.clock)
      && (Busy(s', w, p) ==>
            s.q.items != [] && s'.q.heap[p] == s.q.items[0] && Unmarked(s'.q.heap[p]))
  {
    hide OneHolder, OneOwner, NoLostWakeup;
    StepKeepsInv(s, Look(w, p));
    QueueSteps.LookTakesExactly(s, w, p);
  }

  // ---------- Calls before a forget ----------

  /** The first enqueue with the smallest time, in two parts. */
  lemma {:induction false} EarliestOfBoth(a: seq<Op>, b: seq<Op>)
    ensures Earliest(a + b) ==
      if Earliest(b).None? then Earliest(a)
      else if Earliest(a).None? || Earliest(b).value.when < Earliest(a).value.when then Earliest(b)
      else Earliest(a)
  {
    if b == [] {
      assert a + b == a;
    } else {
      var n := |b| - 1;
      EarliestOfBoth(a, b[..n]);
      assert (a + b)[..|a + b| - 1] == a + b[..n];
    }
  }

  ghost predicate NoneBefore(ops: seq<Op>, time: int) {
    forall op | op in ops && op.Enqueued? :: time <= op.when
  }

  /** A forget does not take back the times of the enqueues before it: they count if they ask for an earlier one. */
  lemma ForgetKeepsTimes(a: seq<Op>, b: seq<Op>)
    requires Earliest(b).Some?
    ensures Earliest(a + [Forgotten] + b).Some?
    ensures Earliest(a + [Forgotten] + b).value.when == Earliest(b).value.when
      <==> NoneBefore(a, Earliest(b).value.when)
  {
    EarliestOfBoth(a + [Forgotten], b);
    EarliestOfBoth(a, [Forgotten]);
    assert Earliest([Forgotten]).None?;
  }

  /**
   A key that comes back because it was enqueued again after a forget is planned for the earliest of those
   later enqueues exactly when none of the enqueues before the forget asked for an earlier time.
   */
  lemma FateAfterForget(s: System, w: nat, p: nat, run: seq<Label>, finish: Label, a: seq<Op>, b: seq<Op>)
    requires Window(s, w, p, run, finish) && Earliest(b).Some?
    requires OpsOn(s, run, s.q.heap[p].key) == a + [Forgotten] + b
    requires s.q.heap[p].key in Contents(Step(Exec(s, run), finish).q.items) && !IsRetried(s.q.heap[p], finish)
    ensures Contents(Step(Exec(s, run), finish).q.items)[s.q.heap[p].key].plannedAt == Earliest(b).value.when
      <==> NoneBefore(a, Earliest(b).value.when)
  {
    FateOfKey(s, w, p, run, finish);
    hide Step, Contents, Window, IsRetried, NoneBefore, Earliest;
    ForgetKeepsTimes(a, b);
  }

  lemma BusyFinishes(s: System, w: nat, p: nat)
    requires Busy(s, w, p) && s.workers[w].Handling?
    ensures Enabled(s, Finish(w, false, DefaultRetry, 0))
  {
    DropKeepsInv(s.q, p);
  }

  /** Anyone may call at any time; the workers and the clock stay as they are. */
  lemma CallFromOutside(s: System, w: nat, p: nat, l: Label)
    requires Busy(s, w, p) && (l.Enqueue? || l.ForgetKey?)
    ensures Enabled(s, l) && Busy(Step(s, l), w, p)
    ensures Step(s, l).workers == s.workers && Step(s, l).clock == s.clock
  {
    hide Insert, Forget;
    ObjectStep(s, w, p, l);
  }

  /** The run ends in `s'`, and `ops` were the calls about `k`. */
  ghost predicate Leads(s: System, run: seq<Label>, s': System, ops: seq<Op>, k: Key) {
    Legal(s, run) && Exec(s, run) == s' && OpsOn(s, run, k) == ops
  }

  lemma NothingCalled(s: System, k: Key)
    ensures Leads(s, [], s, [], k)
  {}

  lemma CallAdded(s: System, run: seq<Label>, s': System, ops: seq<Op>, l: Label, k: Key)
    requires Leads(s, run, s', ops, k) && Enabled(s', l)
    ensures Leads(s, run + [l], Step(s', l), ops + CallOn(l, s'.clock, k), k)
  {
    hide Step, Enabled, CallOn;
    assert (run + [l])[..|run|] == run;
  }

  lemma ThreeCalls(s: System, w: nat, p: nat, run: seq<Label>, k: Key)
    requires Busy(s, w, p) && |run| == 3 && forall i | 0 <= i < 3 :: run[i].Enqueue? || run[i].ForgetKey?
    ensures Legal(s, run) && Busy(Exec(s, run), w, p)
    ensures Exec(s, run).workers == s.workers && Exec(s, run).clock == s.clock
    ensures OpsOn(s, run, k) == CallOn(run[0], s.clock, k) + CallOn(run[1], s.clock, k) + CallOn(run[2], s.clock, k)
  {
    hide Step, Enabled, Busy, CallOn;
    var s' := ThreeSteps(s, w, p, run, k);
  }

  lemma ThreeSteps(s: System, w: nat, p: nat, run: seq<Label>, k: Key) returns (s': System)
    requires Busy(s, w, p) && |run| == 3 && forall i | 0 <= i < 3 :: run[i].Enqueue? || run[i].ForgetKey?
    ensures Busy(s', w, p) && s'.workers == s.workers && s'.clock == s.clock
    ensures Leads(s, run, s', CallOn(run[0], s.clock, k) + CallOn(run[1], s.clock, k) + CallOn(run[2], s.clock, k), k)
  {
    hide Step, Enabled, Busy, CallOn, Leads;
    var ops0 := CallOn(run[0], s.clock, k);
    var ops1 := ops0 + CallOn(run[1], s.clock, k);
    CallFromOutside(s, w, p, run[0]);
    var s1 := Step(s, run[0]);
    CallFromOutside(s1, w, p, run[1]);
    var s2 := Step(s1, run[1]);
    CallFromOutside(s2, w, p, run[2]);
    s' := Step(s2, run[2]);
    NothingCalled(s, k);
    CallAdded(s, [], s, [], run[0], k);
    assert [] + ops0 == ops0;
    CallAdded(s, [] + [run[0]], s1, ops0, run[1], k);
    CallAdded(s, [] + [run[0]] + [run[1]], s2, ops1, run[2], k);
    assert run == [] + [run[0]] + [run[1]] + [run[2]];
  }

  /**
   So the forget does not cancel: enqueued for `early`, forgotten, and enqueued for `late`, all while it is
   processed, a key whose handler succeeds comes back at `early`.
   */
  lemma ForgottenTimeReturns(s: System, w: nat, p: nat, early: int, late: int)
    requires Busy(s, w, p) && s.workers[w].Handling? && Unmarked(s.q.heap[p])
    requires early < late
    ensures var k := s.q.heap[p].key;
      var run := EnqueueForgetEnqueue(s, k, early, late);
      var finish := Finish(w, false, DefaultRetry, 0);
      && Window(s, w, p, run, finish)
      && OpsOn(s, run, k) == [Enqueued(early, false), Forgotten, Enqueued(late, false)]
      && var m := Contents(Step(Exec(s, run), finish).q.items);
         k in m && m[k].plannedAt == early
  {
    hide Step, Contents, SystemInv, Complete, IsRetried, EnqueueForgetEnqueue, CallOn;
    var k := s.q.heap[p].key;
    var run, finish := EnqueueForgetEnqueue(s, k, early, late), Finish(w, false, DefaultRetry, 0);
    TheThreeCalls(s, k, early, late);
    ThreeCalls(s, w, p, run, k);
    BusyFinishes(Exec(s, run), w, p);
    EarliestOfThree(early, late);
    FateOfKey(s, w, p, run, finish);
    NotRetried(s.q.heap[p], finish);
  }

  function EnqueueForgetEnqueue(s: System, k: Key, early: int, late: int): seq<Label> {
    [Enqueue(k, false, Some(early - s.clock), 0), ForgetKey(k), Enqueue(k, false, Some(late - s.clock), 0)]
  }

  lemma TheThreeCalls(s: System, k: Key, early: int, late: int)
    ensures var run := EnqueueForgetEnqueue(s, k, early, late);
      && |run| == 3 && (forall i | 0 <= i < 3 :: (run[i].Enqueue? || run[i].ForgetKey?))
      && CallOn(run[0], s.clock, k) + CallOn(run[1], s.clock, k) + CallOn(run[2], s.clock, k)
         == [Enqueued(early, false), Forgotten, Enqueued(late, false)]
  {}

  lemma EarliestOfThree(early: int, late: int)
    requires early < late
    ensures Earliest([Enqueued(early, false), Forgotten, Enqueued(late, false)]) == Some(Enqueued(early, false))
  {
    var ops := [Enqueued(early, false), Forgotten, Enqueued(late, false)];
    assert ops[..2] == [ops[0], ops[1]] && ops[..2][..1] == [ops[0]] && [ops[0]][..0] == [];
    assert Earliest([ops[0]]) == Some(ops[0]);
    assert Earliest(ops[..2]) == Some(ops[0]);
  }

  lemma NotRetried(base: Item, finish: Label)
    requires finish.Finish? && !finish.failed
    ensures !IsRetried(base, finish)
  {}
}
