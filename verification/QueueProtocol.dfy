/**
 N workers, their semaphore, the wake-up token and the queue, as interleaved atomic steps. Every
 lock-held region is one step; so is every acquisition or release of the semaphore and every way
 out of a worker's sleep. Anyone may enqueue or forget a key at any time, the handlers included.

 Time is one clock that only moves forward. A worker that parks records the planned time it will
 sleep until, or no time at all when it saw an empty list.
 */
module QueueProtocol {
  import opened Options
  import opened QueueSpec
  import opened QueueLaws

  datatype Worker =
    | Idle                              // about to acquire the semaphore
    | Looking                           // holds it, about to look at the front of the list
    | Parked(deadline: Option<int>)     // holds it, sleeping
    | Releasing(qi: nat)                // holds it, has dequeued an item
    | Handling(qi: nat)
    | Exited

  datatype System = System(q: State<nat>, workers: seq<Worker>, taken: bool, cancelled: bool, clock: int)

  datatype Label =
    | Acquire(w: nat)
    | Look(w: nat, p: nat)              // p: the pointer of the dequeued object, should there be one
    | WakeUp(w: nat)
    | TimerFires(w: nat)
    | Release(w: nat)
    | Finish(w: nat, failed: bool, retry: RetryFunc, rate: nat)
    | Quit(w: nat)
    | Enqueue(key: Key, ratelimit: bool, delay: Option<int>, rate: nat)
    | ForgetKey(key: Key)
    | Cancel
    | Tick(to: int)

  predicate Holds(w: Worker) {
    w.Looking? || w.Parked? || w.Releasing?
  }

  predicate Possesses(w: Worker, p: nat) {
    w == Releasing(p) || w == Handling(p)
  }

  predicate CanFinish(q: State<nat>, p: nat) {
    p in q.heap && Tracked(Drop(q, p))
  }

  predicate Enabled(s: System, l: Label) {
    match l
    case Acquire(w) => w < |s.workers| && s.workers[w].Idle? && !s.taken
    case Look(w, p) => w < |s.workers| && s.workers[w].Looking? && p !in s.q.heap
    case WakeUp(w) => w < |s.workers| && s.workers[w].Parked? && s.q.wake
    case TimerFires(w) =>
      && w < |s.workers| && s.workers[w].Parked?
      && s.workers[w].deadline.Some? && s.workers[w].deadline.value <= s.clock
    case Release(w) => w < |s.workers| && s.workers[w].Releasing?
    case Finish(w, failed, retry, rate) => w < |s.workers| && s.workers[w].Handling? && CanFinish(s.q, s.workers[w].qi)
    case Quit(w) => w < |s.workers| && (s.workers[w].Idle? || s.workers[w].Parked?) && s.cancelled
    case Enqueue(key, ratelimit, delay, rate) => Tracked(s.q)
    case ForgetKey(key) => Tracked(s.q)
    case Cancel => true
    case Tick(to) => s.clock <= to
  }

  function Step(s: System, l: Label): System
    requires Enabled(s, l)
  {
    match l
    case Acquire(w) => s.(workers := s.workers[w := Looking], taken := true)
    case Look(w, p) => LookStep(s, w, p)
    case WakeUp(w) => s.(q := s.q.(wake := false), workers := s.workers[w := Looking])
    case TimerFires(w) => s.(workers := s.workers[w := Looking])
    case Release(w) => s.(workers := s.workers[w := Handling(s.workers[w].qi)], taken := false)
    case Finish(w, failed, retry, rate) =>
      s.(q := Complete(s.q, s.workers[w].qi, failed, retry, s.clock, rate), workers := s.workers[w := Idle])
    case Quit(w) =>
      s.(workers := s.workers[w := Exited], taken := if s.workers[w].Parked? then false else s.taken)
    case Enqueue(key, ratelimit, delay, rate) => s.(q := Insert(s.q, key, ratelimit, delay, s.clock, rate))
    case ForgetKey(key) => s.(q := Forget(s.q, key))
    case Cancel => s.(cancelled := true)
    case Tick(to) => s.(clock := to)
  }

  /** The body of getNextItem's loop up to the unlock. */
  function LookStep(s: System, w: nat, p: nat): System
    requires w < |s.workers|
  {
    match Glance(s.q.items, s.clock)
    case NothingThere => s.(workers := s.workers[w := Parked(None)])
    case FrontDue => s.(q := Take(s.q, p), workers := s.workers[w := Releasing(p)])
    case NotBefore(time) => s.(workers := s.workers[w := Parked(Some(time))])
  }

  predicate Init(s: System) {
    s.q == State([], map[], map[], false) && !s.taken && forall i | 0 <= i < |s.workers| :: s.workers[i].Idle?
  }

  // ---------- Runs ----------

  function Exec(s: System, run: seq<Label>): System
    requires Legal(s, run)
    decreases |run|, 1
  {
    if run == [] then s else Step(Exec(s, run[..|run| - 1]), run[|run| - 1])
  }

  predicate Legal(s: System, run: seq<Label>)
    decreases |run|, 0
  {
    run == [] || (Legal(s, run[..|run| - 1]) && Enabled(Exec(s, run[..|run| - 1]), run[|run| - 1]))
  }

  // ---------- The invariant ----------

  /** The semaphore is taken exactly while one worker holds it. */
  ghost predicate OneHolder(ws: seq<Worker>, taken: bool) {
    && (forall i, j | 0 <= i < |ws| && 0 <= j < |ws| && Holds(ws[i]) && Holds(ws[j]) :: i == j)
    && (taken <==> exists i :: 0 <= i < |ws| && Holds(ws[i]))
  }

  /** Every dequeued object is in the possession of exactly one worker. */
  ghost predicate OneOwner(ws: seq<Worker>, heap: map<nat, Item>) {
    && (forall i, j, p | 0 <= i < |ws| && 0 <= j < |ws| && Possesses(ws[i], p) && Possesses(ws[j], p) :: i == j)
    && (forall i, p | 0 <= i < |ws| && Possesses(ws[i], p) :: p in heap)
    && (forall p | p in heap :: exists i :: 0 <= i < |ws| && Possesses(ws[i], p))
  }

  /** Nothing on the list is planned before the deadline. */
  ghost predicate NothingBefore(items: seq<Item>, deadline: Option<int>) {
    match deadline
    case None => items == []
    case Some(d) => forall i | 0 <= i < |items| :: d <= items[i].plannedAt
  }

  ghost predicate NoLostWakeup(ws: seq<Worker>, q: State<nat>) {
    forall i | 0 <= i < |ws| && ws[i].Parked? :: q.wake || NothingBefore(q.items, ws[i].deadline)
  }

  ghost predicate SystemInv(s: System) {
    && Inv(s.q)
    && OneHolder(s.workers, s.taken)
    && OneOwner(s.workers, s.q.heap)
    && NoLostWakeup(s.workers, s.q)
  }

  lemma InitHasInv(s: System)
    requires Init(s)
    ensures SystemInv(s)
  {}

  // ---------- One worker moves ----------

  /** A holder stays the holder. */
  lemma HolderMoves(ws: seq<Worker>, taken: bool, w: nat, to: Worker)
    requires OneHolder(ws, taken) && w < |ws| && Holds(ws[w]) && Holds(to)
    ensures OneHolder(ws[w := to], taken)
  {
    assert Holds(ws[w := to][w]);
  }

  lemma HolderLeaves(ws: seq<Worker>, taken: bool, w: nat, to: Worker)
    requires OneHolder(ws, taken) && w < |ws| && Holds(ws[w]) && !Holds(to)
    ensures OneHolder(ws[w := to], false)
  {
    var ws' := ws[w := to];
    forall i | 0 <= i < |ws'| ensures !Holds(ws'[i]) {
      if Holds(ws[i]) { assert i == w; }
    }
  }

  lemma HolderEnters(ws: seq<Worker>, w: nat, to: Worker)
    requires OneHolder(ws, false) && w < |ws| && Holds(to)
    ensures OneHolder(ws[w := to], true)
  {
    var ws' := ws[w := to];
    assert Holds(ws'[w]);
    forall i | 0 <= i < |ws'| && i != w ensures !Holds(ws'[i]) {
      assert !Holds(ws[i]);
    }
  }

  lemma OutsiderMoves(ws: seq<Worker>, taken: bool, w: nat, to: Worker)
    requires OneHolder(ws, taken) && w < |ws| && !Holds(ws[w]) && !Holds(to)
    ensures OneHolder(ws[w := to], taken)
  {
    if taken {
      var i :| 0 <= i < |ws| && Holds(ws[i]);
      assert Holds(ws[w := to][i]);
    }
  }

  /** A move that neither gains nor loses an object. */
  lemma OwnersStay(ws: seq<Worker>, heap: map<nat, Item>, w: nat, to: Worker)
    requires OneOwner(ws, heap) && w < |ws|
    requires forall p :: Possesses(ws[w], p) <==> Possesses(to, p)
    ensures OneOwner(ws[w := to], heap)
  {
    var ws' := ws[w := to];
    forall p | p in heap ensures exists i :: 0 <= i < |ws'| && Possesses(ws'[i], p) {
      var i :| 0 <= i < |ws| && Possesses(ws[i], p);
      assert Possesses(ws'[i], p);
    }
  }

  lemma OwnerGains(ws: seq<Worker>, heap: map<nat, Item>, w: nat, p: nat, item: Item)
    requires OneOwner(ws, heap) && w < |ws| && p !in heap && (forall x :: !Possesses(ws[w], x))
    ensures OneOwner(ws[w := Releasing(p)], heap[p := item])
  {
    var ws', heap' := ws[w := Releasing(p)], heap[p := item];
    assert Possesses(ws'[w], p);
    forall x | x in heap' ensures exists i :: 0 <= i < |ws'| && Possesses(ws'[i], x) {
      if x != p {
        var i :| 0 <= i < |ws| && Possesses(ws[i], x);
        assert Possesses(ws'[i], x);
      }
    }
  }

  lemma OwnerLoses(ws: seq<Worker>, heap: map<nat, Item>, heap': map<nat, Item>, w: nat)
    requires OneOwner(ws, heap) && w < |ws| && ws[w].Handling?
    requires heap'.Keys == heap.Keys - {ws[w].qi}
    ensures OneOwner(ws[w := Idle], heap')
  {
    var ws' := ws[w := Idle];
    assert Possesses(ws[w], ws[w].qi);
    forall x | x in heap' ensures exists i :: 0 <= i < |ws'| && Possesses(ws'[i], x) {
      var i :| 0 <= i < |ws| && Possesses(ws[i], x);
      assert Possesses(ws'[i], x);
    }
  }

  lemma SameOwners(ws: seq<Worker>, heap: map<nat, Item>, heap': map<nat, Item>)
    requires OneOwner(ws, heap) && heap'.Keys == heap.Keys
    ensures OneOwner(ws, heap')
  {}

  // ---------- Every step keeps the invariant ----------

  lemma LookKeepsInv(s: System, w: nat, p: nat)
    requires SystemInv(s) && Enabled(s, Look(w, p))
    ensures SystemInv(LookStep(s, w, p))
  {
    var s' := LookStep(s, w, p);
    HolderMoves(s.workers, s.taken, w, s'.workers[w]);
    if Glance(s.q.items, s.clock).FrontDue? {
      TakeKeepsInv(s.q, p);
      OwnerGains(s.workers, s.q.heap, w, p, s.q.items[0]);
    } else {
      OwnersStay(s.workers, s.q.heap, w, s'.workers[w]);
    }
  }

  lemma FinishKeepsInv(s: System, w: nat, failed: bool, retry: RetryFunc, rate: nat)
    requires SystemInv(s) && Enabled(s, Finish(w, failed, retry, rate))
    ensures SystemInv(Step(s, Finish(w, failed, retry, rate)))
  {
    hide Inv, Complete, OneHolder, OneOwner;
    var p := s.workers[w].qi;
    var q' := Complete(s.q, p, failed, retry, s.clock, rate);
    CompleteKeepsInv(s.q, p, failed, retry, s.clock, rate);
    CompleteFrame(s.q, p, failed, retry, s.clock, rate);
    OutsiderMoves(s.workers, s.taken, w, Idle);
    OwnerLoses(s.workers, s.q.heap, q'.heap, w);
  }

  /** Completing removes one object, and either leaves the list alone or signals. */
  lemma CompleteFrame(q: State<nat>, p: nat, failed: bool, retry: RetryFunc, now: int, rate: nat)
    requires Inv(q) && p in q.heap
    ensures var q' := Complete(q, p, failed, retry, now, rate);
            && q'.heap == q.heap - {p}
            && q'.busy == q.busy - {q.heap[p].key}
            && (q'.wake || (q'.items == q.items && q'.wake == q.wake))
  {
    hide Place, Adjust, Patch, Queued, Slot, IndexOf;
    DropKeepsInv(q, p);
  }

  lemma EnqueueKeepsInv(s: System, key: Key, ratelimit: bool, delay: Option<int>, rate: nat)
    requires SystemInv(s)
    ensures SystemInv(Step(s, Enqueue(key, ratelimit, delay, rate)))
  {
    hide Inv, Enlist, Redirty, OneHolder, OneOwner;
    InsertKeepsInv(s.q, key, ratelimit, delay, s.clock, rate);
    SameOwners(s.workers, s.q.heap, Insert(s.q, key, ratelimit, delay, s.clock, rate).heap);
  }

  lemma NothingBeforeWithout(items: seq<Item>, key: Key, deadline: Option<int>)
    requires NothingBefore(items, deadline)
    ensures NothingBefore(Without(items, key), deadline)
  {
    hide Without;
    WithoutIsCut(items, key);
  }

  lemma ForgetKeepsSystemInv(s: System, key: Key)
    requires SystemInv(s)
    ensures SystemInv(Step(s, ForgetKey(key)))
  {
    hide Inv, OneHolder, OneOwner, Without, NothingBefore, Queued;
    ForgetKeepsInv(s.q, key);
    forall i | 0 <= i < |s.workers| && s.workers[i].Parked? && NothingBefore(s.q.items, s.workers[i].deadline)
      ensures NothingBefore(Without(s.q.items, key), s.workers[i].deadline)
    {
      NothingBeforeWithout(s.q.items, key, s.workers[i].deadline);
    }
    SameOwners(s.workers, s.q.heap, Forget(s.q, key).heap);
  }

  lemma StepKeepsInv(s: System, l: Label)
    requires SystemInv(s) && Enabled(s, l)
    ensures SystemInv(Step(s, l))
  {
    hide Inv, OneHolder, OneOwner, Complete, Insert, Forget, LookStep;
    match l
    case Acquire(w) =>
      HolderEnters(s.workers, w, Looking);
      OwnersStay(s.workers, s.q.heap, w, Looking);
    case Look(w, p) =>
      LookKeepsInv(s, w, p);
    case WakeUp(w) =>
      WakeUpKeepsInv(s, w);
    case TimerFires(w) =>
      HolderMoves(s.workers, s.taken, w, Looking);
      OwnersStay(s.workers, s.q.heap, w, Looking);
    case Release(w) =>
      HolderLeaves(s.workers, s.taken, w, Handling(s.workers[w].qi));
      OwnersStay(s.workers, s.q.heap, w, Handling(s.workers[w].qi));
    case Finish(w, failed, retry, rate) =>
      FinishKeepsInv(s, w, failed, retry, rate);
    case Quit(w) =>
      if s.workers[w].Parked? {
        HolderLeaves(s.workers, s.taken, w, Exited);
      } else {
        OutsiderMoves(s.workers, s.taken, w, Exited);
      }
      OwnersStay(s.workers, s.q.heap, w, Exited);
    case Enqueue(key, ratelimit, delay, rate) =>
      EnqueueKeepsInv(s, key, ratelimit, delay, rate);
    case ForgetKey(key) =>
      ForgetKeepsSystemInv(s, key);
    case Cancel =>
    case Tick(to) =>
  }

  /** Only one worker can be parked, so the token it consumes was meant for it. */
  lemma WakeUpKeepsInv(s: System, w: nat)
    requires SystemInv(s) && Enabled(s, WakeUp(w))
    ensures SystemInv(Step(s, WakeUp(w)))
  {
    HolderMoves(s.workers, s.taken, w, Looking);
    OwnersStay(s.workers, s.q.heap, w, Looking);
    forall i | 0 <= i < |s.workers| && i != w ensures !s.workers[i].Parked? {
      assert Holds(s.workers[w]);
    }
  }

  /** The invariant holds after every run, of any length, with any number of workers. */
  lemma {:induction false} RunsKeepInv(s: System, run: seq<Label>)
    requires SystemInv(s) && Legal(s, run)
    ensures SystemInv(Exec(s, run))
  {
    if run == [] {
    } else {
      RunsKeepInv(s, run[..|run| - 1]);
      StepKeepsInv(Exec(s, run[..|run| - 1]), run[|run| - 1]);
    }
  }
}
