/**
 The workers come to an end: without outside calls every run of theirs, in whatever order, makes boundedly many
 steps, and one that can make no more has emptied the queue.
 */
module QueueTermination {
  import opened Options
  import opened QueueSpec
  import opened QueueLaws
  import opened QueueProtocol
  import opened QueueSafety
  import opened QueueDrain
  import opened QueueProgress

  predicate DueBy(items: seq<Item>, time: int) {
    items != [] && items[0].plannedAt <= time
  }

  /**
   How many steps a worker may make before it handles an item or parks for good: a look that finds nothing
   due is followed by sleep, and sleep until a time at which nothing is planned any more by one look in vain.
   */
  function Phase(w: Worker, items: seq<Item>, clock: int): nat {
    match w
    case Idle => 6
    case Looking => if DueBy(items, clock) then 2 else 5
    case Parked(None) => 4
    case Parked(Some(d)) => if DueBy(items, d) then 4 else 7
    case Releasing(_) => 1
    case Handling(_) => 0
    case Exited => 0
  }

  function Phases(ws: seq<Worker>, items: seq<Item>, clock: int): nat {
    if ws == [] then 0 else Phase(ws[0], items, clock) + Phases(ws[1..], items, clock)
  }

  /** The potential of a state: a completion costs nine, as it makes a worker idle and may leave a token. */
  function Work(s: System, ks: seq<Key>): int
    requires Tracked(s.q)
  {
    9 * TotalLeft(s.q, ks) + (if s.q.wake then 2 else 0) + Phases(s.workers, s.q.items, s.clock)
  }

  /** A step that a worker makes. */
  predicate ByWorker(l: Label) {
    OfWorkers(l) || l.Finish? || l.Quit?
  }

  predicate Outer(l: Label) {
    l.Enqueue? || l.ForgetKey?
  }

  function Steps(run: seq<Label>): nat {
    if run == [] then 0 else Steps(run[..|run| - 1]) + if ByWorker(run[|run| - 1]) then 1 else 0
  }

  // ---------- The phases ----------

  /** One worker's phase moves by at most `d`, and no other worker's grows. */
  lemma {:induction false} PhasesMove(
    ws: seq<Worker>, ws': seq<Worker>, items: seq<Item>, items': seq<Item>, clock: int, clock': int, w: nat, d: int)
    requires |ws'| == |ws| && w < |ws|
    requires forall i | 0 <= i < |ws| && i != w :: Phase(ws'[i], items', clock') <= Phase(ws[i], items, clock)
    requires Phase(ws'[w], items', clock') <= Phase(ws[w], items, clock) + d
    ensures Phases(ws', items', clock') <= Phases(ws, items, clock) + d
  {
    hide Phase;
    if w == 0 {
      PhasesFall(ws[1..], ws'[1..], items, items', clock, clock');
    } else {
      assert forall i | 0 <= i < |ws[1..]| :: ws[1..][i] == ws[i + 1] && ws'[1..][i] == ws'[i + 1];
      PhasesMove(ws[1..], ws'[1..], items, items', clock, clock', w - 1, d);
    }
  }

  lemma {:induction false} PhasesFall(
    ws: seq<Worker>, ws': seq<Worker>, items: seq<Item>, items': seq<Item>, clock: int, clock': int)
    requires |ws'| == |ws|
    requires forall i | 0 <= i < |ws| :: Phase(ws'[i], items', clock') <= Phase(ws[i], items, clock)
    ensures Phases(ws', items', clock') <= Phases(ws, items, clock)
  {
    hide Phase;
    if ws == [] {
    } else {
      assert forall i | 0 <= i < |ws[1..]| :: ws[1..][i] == ws[i + 1] && ws'[1..][i] == ws'[i + 1];
      PhasesFall(ws[1..], ws'[1..], items, items', clock, clock');
    }
  }

  lemma {:induction false} PhasesAtMost(ws: seq<Worker>, items: seq<Item>, clock: int)
    ensures Phases(ws, items, clock) <= 7 * |ws|
  {
    if ws == [] {
    } else {
      PhasesAtMost(ws[1..], items, clock);
    }
  }

  /** The front is there, and no later. */
  predicate FrontKept(items: seq<Item>, items': seq<Item>) {
    items != [] ==> items' != [] && items'[0].plannedAt <= items[0].plannedAt
  }

  lemma PhaseKept(w: Worker, items: seq<Item>, items': seq<Item>, clock: int, clock': int)
    requires FrontKept(items, items') && clock <= clock'
    ensures Phase(w, items', clock') <= Phase(w, items, clock)
  {}

  lemma CompleteKeepsFront(q: State<nat>, p: nat, failed: bool, retry: RetryFunc, now: int, rate: nat)
    requires Inv(q) && p in q.heap
    ensures FrontKept(q.items, Complete(q, p, failed, retry, now, rate).items)
  {
    hide Complete, Contents;
    var q' := Complete(q, p, failed, retry, now, rate);
    CompleteOnMap(q, p, failed, retry, now, rate);
    CompleteKeepsInv(q, p, failed, retry, now, rate);
    if q.items != [] {
      var front := q.items[0];
      ContentsMembers(q.items);
      assert front in q.items;
      ContentsMembers(q'.items);
      assert front in q'.items;
      FrontIsEarliest(q'.items);
    }
  }

  // ---------- Every step of a worker costs ----------

  lemma MoveCosts(s: System, l: Label)
    requires SystemInv(s) && Enabled(s, l) && ByWorker(l) && !l.Finish?
    ensures var s' := Step(s, l);
      (if s'.q.wake then 2 else 0) + Phases(s'.workers, s'.q.items, s'.clock) + 1
      <= (if s.q.wake then 2 else 0) + Phases(s.workers, s.q.items, s.clock)
  {
    hide Inv, OneOwner, NoLostWakeup, Take;
    var s', w := Step(s, l), l.w;
    MoverCosts(s, l);
    forall i | 0 <= i < |s.workers| && i != w
      ensures Phase(s'.workers[i], s'.q.items, s'.clock) <= Phase(s.workers[i], s.q.items, s.clock)
    {
      OthersPhase(s, l, i);
    }
    PhasesMove(s.workers, s'.workers, s.q.items, s'.q.items, s.clock, s'.clock, w, if l.WakeUp? then 1 else -1);
  }

  lemma MoverCosts(s: System, l: Label)
    requires SystemInv(s) && Enabled(s, l) && ByWorker(l) && !l.Finish?
    ensures var s' := Step(s, l);
      && |s'.workers| == |s.workers| && l.w < |s.workers|
      && Phase(s'.workers[l.w], s'.q.items, s'.clock) <=
           Phase(s.workers[l.w], s.q.items, s.clock) + (if l.WakeUp? then 1 else -1)
      && (s'.q.wake ==> s.q.wake) && (l.WakeUp? ==> s.q.wake && !s'.q.wake)
  {
    hide SystemInv;
  }

  /** Only a look takes an item off the list, and then no other worker looks or sleeps. */
  lemma OthersPhase(s: System, l: Label, i: nat)
    requires SystemInv(s) && Enabled(s, l) && ByWorker(l) && !l.Finish? && i < |s.workers| && i != l.w
    ensures Phase(Step(s, l).workers[i], Step(s, l).q.items, Step(s, l).clock)
      <= Phase(s.workers[i], s.q.items, s.clock)
  {
    hide Inv, OneOwner, NoLostWakeup;
    if l.Look? {
      assert Holds(s.workers[l.w]);
      assert !Holds(s.workers[i]);
    }
  }

  lemma FinishCosts(s: System, l: Label)
    requires SystemInv(s) && Enabled(s, l) && l.Finish?
    ensures var s' := Step(s, l);
      (if s'.q.wake then 2 else 0) + Phases(s'.workers, s'.q.items, s'.clock)
      <= (if s.q.wake then 2 else 0) + Phases(s.workers, s.q.items, s.clock) + 8
  {
    hide Inv, Complete, OneOwner, OneHolder, NoLostWakeup, FrontKept;
    var s' := Step(s, l);
    CompleteKeepsFront(s.q, s.workers[l.w].qi, l.failed, l.retry, s.clock, l.rate);
    CompleteFrame(s.q, s.workers[l.w].qi, l.failed, l.retry, s.clock, l.rate);
    forall i | 0 <= i < |s.workers| && i != l.w
      ensures Phase(s'.workers[i], s'.q.items, s'.clock) <= Phase(s.workers[i], s.q.items, s.clock)
    {
      PhaseKept(s.workers[i], s.q.items, s'.q.items, s.clock, s'.clock);
    }
    PhasesMove(s.workers, s'.workers, s.q.items, s'.q.items, s.clock, s'.clock, l.w, 6);
  }

  lemma OtherCosts(s: System, l: Label)
    requires Enabled(s, l) && (l.Tick? || l.Cancel?)
    ensures var s' := Step(s, l);
      (if s'.q.wake then 2 else 0) + Phases(s'.workers, s'.q.items, s'.clock)
      <= (if s.q.wake then 2 else 0) + Phases(s.workers, s.q.items, s.clock)
  {
    var s' := Step(s, l);
    forall i | 0 <= i < |s.workers|
      ensures Phase(s'.workers[i], s'.q.items, s'.clock) <= Phase(s.workers[i], s.q.items, s.clock)
    {
      PhaseKept(s.workers[i], s.q.items, s'.q.items, s.clock, s'.clock);
    }
    PhasesFall(s.workers, s'.workers, s.q.items, s'.q.items, s.clock, s'.clock);
  }

  lemma StepCosts(s: System, l: Label, ks: seq<Key>)
    requires SystemInv(s) && Bounded(s.q) && Enabled(s, l) && Policed(l) && !Outer(l)
    requires l.Finish? ==> s.q.heap[s.workers[l.w].qi].key in ks
    ensures Inv(s.q) && Inv(Step(s, l).q)
    ensures Work(Step(s, l), ks) + (if ByWorker(l) then 1 else 0) <= Work(s, ks)
  {
    hide Inv, Step, Enabled, Bounded, TotalLeft, Phases;
    SystemHasInv(s);
    TotalStep(s, l, ks);
    if l.Finish? {
      FinishCosts(s, l);
    } else if ByWorker(l) {
      MoveCosts(s, l);
    } else {
      OtherCosts(s, l);
    }
  }

  // ---------- Every run ends ----------

  ghost predicate LeftAlone(run: seq<Label>) {
    AllPoliced(run) && forall i | 0 <= i < |run| :: !Outer(run[i])
  }

  ghost predicate Lists(ks: seq<Key>, q: State<nat>) {
    forall k | k in q.busy || Queued(q.items, k) :: k in ks
  }

  /** Left alone, the workers spend a unit of work with every step, in any order and at any time. */
  lemma {:induction false} WorkIsSpent(s: System, run: seq<Label>, ks: seq<Key>)
    requires SystemInv(s) && Bounded(s.q) && Legal(s, run) && LeftAlone(run) && Lists(ks, s.q)
    ensures Inv(s.q) && Inv(Exec(s, run).q)
    ensures Steps(run) + Work(Exec(s, run), ks) <= Work(s, ks)
  {
    hide Inv, Step, Enabled, Bounded, Work, Policed;
    SystemHasInv(s);
    if run == [] {
    } else {
      var before, last := run[..|run| - 1], run[|run| - 1];
      var s' := Exec(s, before);
      WorkIsSpent(s, before, ks);
      RunsKeepInv(s, before);
      RunsStayBounded(s, before);
      if last.Finish? { FinisherWasListed(s, before, last, ks); }
      StepCosts(s', last, ks);
    }
  }

  lemma FinisherWasListed(s: System, run: seq<Label>, l: Label, ks: seq<Key>)
    requires SystemInv(s) && Bounded(s.q) && Legal(s, run) && LeftAlone(run) && Lists(ks, s.q)
    requires l.Finish? && Enabled(Exec(s, run), l)
    ensures Exec(s, run).q.heap[Exec(s, run).workers[l.w].qi].key in ks
  {
    hide Bounded, Step;
    RunsKeepInv(s, run);
    var s' := Exec(s, run);
    KeyWasThere(s, run, s'.q.heap[s'.workers[l.w].qi].key);
  }

  /** So no run of theirs is longer than this, ticks and cancellation aside. */
  lemma RunsAreBounded(s: System, run: seq<Label>, ks: seq<Key>)
    requires SystemInv(s) && Bounded(s.q) && Legal(s, run) && LeftAlone(run) && Lists(ks, s.q)
    ensures Inv(s.q) && Steps(run) <= 9 * TotalLeft(s.q, ks) + 2 + 7 * |s.workers|
    ensures Steps(run) <= 189 * |ks| + 2 + 7 * |s.workers|
  {
    hide Inv, Step, Enabled, Bounded, TotalLeft, Phases, Policed;
    WorkIsSpent(s, run, ks);
    RunsKeepInv(s, run);
    RunsStayBounded(s, run);
    TotalIsNatural(Exec(s, run).q, ks);
    TotalAtMost(s.q, ks);
    PhasesAtMost(s.workers, s.q.items, s.clock);
  }

  // ---------- And ends in emptiness ----------

  /** While the queue is not empty and a worker is left, some worker can make a step, now or later. */
  lemma SomeoneCanMove(s: System, w: nat, h: Answers) returns (to: int, l: Label)
    requires SystemInv(s) && !Empty(s.q) && w < |s.workers| && !s.workers[w].Exited?
    ensures s.clock <= to && ByWorker(l) && Unaided(l, 0, h) && Enabled(s.(clock := to), l)
  {
    hide SystemInv, Enabled, Step;
    to := s.clock;
    if s.q.busy != map[] {
      var v := SomeOwner(s);
      if s.workers[v].Releasing? {
        l := Release(v);
        CanAlwaysRelease(s, v);
      } else {
        l := Finish(v, h.fails(0), h.retry, h.rates(0));
        CanAlwaysFinish(s, v, l);
      }
      assert s.(clock := to) == s;
    } else {
      var front := s.q.items[0];
      to := if s.clock < front.plannedAt then front.plannedAt else s.clock;
      FrontIsDue(s, Tick(to), w);
      var run := DueItemIsServed(s.(clock := to), w, front.key);
      l := run[0];
      FirstIsEnabled(s.(clock := to), run);
    }
  }

  lemma {:induction false} FirstIsEnabled(s: System, run: seq<Label>)
    requires Legal(s, run) && run != []
    ensures Enabled(s, run[0])
  {
    hide Enabled, Step;
    if |run| == 1 {
      assert run[..0] == [];
    } else {
      FirstIsEnabled(s, run[..|run| - 1]);
    }
  }

  /** No worker can make a step, as `h` answers, however late it gets. */
  ghost predicate AtRest(s: System, h: Answers) {
    forall to, l | s.clock <= to && ByWorker(l) && Unaided(l, 0, h) :: !Enabled(s.(clock := to), l)
  }

  /** Every run that has come to rest, with a worker left, has emptied the queue. */
  lemma RestIsEmpty(s0: System, run: seq<Label>, w: nat, h: Answers)
    requires SystemInv(s0) && Legal(s0, run)
    requires var s := Exec(s0, run); AtRest(s, h) && w < |s.workers| && !s.workers[w].Exited?
    ensures Empty(Exec(s0, run).q)
  {
    hide SystemInv, Step, Enabled;
    RunsKeepInv(s0, run);
    var s := Exec(s0, run);
    if !Empty(s.q) {
      var to, l := SomeoneCanMove(s, w, h);
      assert false;
    }
  }
}
