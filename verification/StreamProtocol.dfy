/**
 The stream handler as interleaved steps: the run loop that files each accepted stream under its
 pair, and one monitor per pair that waits for the pair or the timeout and then removes it.

 Pairs are objects known by numbers; the table maps a request id to its pair. Starting a monitor and
 adding the stream are separate steps of the run loop, and so are a monitor's waking and its removal
 of the pair, so every race between timeout, completion and further streams is a run of this model.
 */
module StreamProtocol {
  import opened StreamPairs

  datatype Loop =
    | Ready
    | Received(stream: Stream)
    | Created(stream: Stream, p: nat)   // a new pair, its monitor not yet started
    | Adding(stream: Stream, p: nat)
    | Stopped

  datatype Monitor = Waiting | Removing

  datatype System = System(
    pairs: map<string, nat>,
    objs: map<nat, Pair>,
    launched: map<nat, nat>,            // how often portForward was launched for each pair
    monitors: map<nat, Monitor>,
    loop: Loop,
    panicked: bool)                     // a channel closed twice, or a pair missing on removal

  datatype Label =
    | StreamArrives(stream: Stream)
    | GetPair(p: nat)                   // p: the object created, should there be no pair
    | StartMonitor
    | AddStep
    | Timeout(p: nat)
    | SeeComplete(p: nat)
    | Remove(p: nat)
    | ConnectionClosed

  predicate Enabled(s: System, l: Label) {
    match l
    case StreamArrives(stream) => s.loop.Ready? && Receive(stream).Accepted?
    case GetPair(p) => s.loop.Received? && p !in s.objs
    case StartMonitor => s.loop.Created?
    case AddStep => s.loop.Adding? && s.loop.p in s.objs && s.loop.p in s.launched
    case Timeout(p) => p in s.monitors && s.monitors[p].Waiting?
    case SeeComplete(p) => p in s.monitors && s.monitors[p].Waiting? && p in s.objs && s.objs[p].closed
    case Remove(p) => p in s.monitors && s.monitors[p].Removing? && p in s.objs
    case ConnectionClosed => s.loop.Ready?
  }

  function Step(s: System, l: Label): System
    requires Enabled(s, l)
  {
    match l
    case StreamArrives(stream) => s.(loop := Received(stream))
    case GetPair(p) =>
      var stream := s.loop.stream;
      var id := stream.requestID;
      if id in s.pairs then s.(loop := Adding(stream, s.pairs[id]))
      else s.(pairs := s.pairs[id := p], objs := s.objs[p := NewPair(id)], launched := s.launched[p := 0],
              loop := Created(stream, p))
    case StartMonitor =>
      s.(monitors := s.monitors[s.loop.p := Waiting], loop := Adding(s.loop.stream, s.loop.p))
    case AddStep =>
      var p := s.loop.p;
      var (pair, added) := AddStream(s.objs[p], s.loop.stream);
      s.(objs := s.objs[p := pair], loop := Ready, panicked := s.panicked || added.ClosedTwice?,
         launched := if added.Completed? then s.launched[p := s.launched[p] + 1] else s.launched)
    case Timeout(p) => s.(monitors := s.monitors[p := Removing])
    case SeeComplete(p) => s.(monitors := s.monitors[p := Removing])
    case Remove(p) =>
      var id := s.objs[p].requestID;
      s.(pairs := s.pairs - {id}, monitors := s.monitors - {p}, panicked := s.panicked || id !in s.pairs)
    case ConnectionClosed => s.(loop := Stopped)
  }

  const INITIAL := System(map[], map[], map[], map[], Ready, false)

  function Exec(s: System, run: seq<Label>): System
    requires Legal(s, run)
    decreases |run|, 1
  {
    if run == [] then s else Step(Exec(s, run[..|run| - 1]), run[|run| - 1])
  }

  predicate Legal(s: System, run: seq<Label>)
    decreases |run|, 0
  {
    run == [] || (Legal(s, run[..|run| - 1]) && Enabled(Exec(s, run[..|run| - 1]), run[|run| - 1]))
  }

  // ---------- The invariant ----------

  /** A pair has a live monitor, or the run loop is just about to start it. */
  predicate Watched(s: System, p: nat) {
    p in s.monitors || (s.loop.Created? && s.loop.p == p)
  }

  /** The pairs in the table are exactly the watched ones, each under its own request id. */
  ghost predicate TableInv(s: System) {
    && (forall id | id in s.pairs ::
          s.pairs[id] in s.objs && s.objs[s.pairs[id]].requestID == id && Watched(s, s.pairs[id]))
    && (forall p | p in s.monitors ::
          p in s.objs && s.objs[p].requestID in s.pairs && s.pairs[s.objs[p].requestID] == p)
    && (s.loop.Created? ==>
          (var p := s.loop.p;
           p !in s.monitors && p in s.objs && s.objs[p].requestID in s.pairs && s.pairs[s.objs[p].requestID] == p))
  }

  ghost predicate PairInv(s: System) {
    && (forall p | p in s.objs :: p in s.launched && s.objs[p].closed == Full(s.objs[p])
                                  && s.launched[p] == if s.objs[p].closed then 1 else 0)
    && (s.loop.Received? || s.loop.Created? || s.loop.Adding? ==> Typed(s.loop.stream))
    && (s.loop.Created? || s.loop.Adding? ==>
          s.loop.p in s.objs && s.objs[s.loop.p].requestID == s.loop.stream.requestID)
    && !s.panicked
  }

  lemma StepKeepsTable(s: System, l: Label)
    requires TableInv(s) && PairInv(s) && Enabled(s, l)
    ensures TableInv(Step(s, l))
  {}

  lemma StepKeepsPairs(s: System, l: Label)
    requires TableInv(s) && PairInv(s) && Enabled(s, l)
    ensures PairInv(Step(s, l))
  {}

  lemma {:induction false} RunsKeepInv(run: seq<Label>)
    requires Legal(INITIAL, run)
    ensures TableInv(Exec(INITIAL, run)) && PairInv(Exec(INITIAL, run))
  {
    if run == [] {
    } else {
      var before := run[..|run| - 1];
      RunsKeepInv(before);
      StepKeepsTable(Exec(INITIAL, before), run[|run| - 1]);
      StepKeepsPairs(Exec(INITIAL, before), run[|run| - 1]);
    }
  }

  // ---------- What every interleaving guarantees ----------

  /** The table and the watched pairs are in bijection through the request id. */
  lemma TableIsWatchedPairs(run: seq<Label>)
    requires Legal(INITIAL, run)
    ensures var s := Exec(INITIAL, run);
            && (forall p :: p in s.pairs.Values <==> Watched(s, p))
            && (forall id | id in s.pairs :: s.pairs[id] in s.objs && s.objs[s.pairs[id]].requestID == id)
            && (forall id, id' | id in s.pairs && id' in s.pairs && id != id' :: s.pairs[id] != s.pairs[id'])
  {
    RunsKeepInv(run);
  }

  /**
   A monitor about to remove its pair finds exactly that pair: the entry is there, it is not a later
   pair with the same request id, and the removal takes nothing else out. Nothing ever panics.
   */
  lemma MonitorFindsItsOwnPair(run: seq<Label>, p: nat)
    requires Legal(INITIAL, run)
    requires p in Exec(INITIAL, run).monitors
    ensures var s := Exec(INITIAL, run);
            && !s.panicked
            && p in s.objs && s.objs[p].requestID in s.pairs && s.pairs[s.objs[p].requestID] == p
            && (s.monitors[p].Removing? ==>
                 (Enabled(s, Remove(p)) && !Step(s, Remove(p)).panicked
                  && Step(s, Remove(p)).pairs.Values == s.pairs.Values - {p}))
  {
    RunsKeepInv(run);
    var s := Exec(INITIAL, run);
    if s.monitors[p].Removing? {
      var id, after := s.objs[p].requestID, Step(s, Remove(p)).pairs;
      forall x ensures x in after.Values <==> x in s.pairs.Values && x != p {
        if x in s.pairs.Values && x != p {
          var i :| i in s.pairs && s.pairs[i] == x;
          assert i in after && after[i] == x;
        }
        if x in after.Values {
          var i :| i in after && after[i] == x;
          assert s.pairs[i] == x && i != id;
        }
      }
    }
  }

  /** A pair's channel is closed, and portForward was launched for it once, exactly when it has both streams. */
  lemma LaunchedOncePerPair(run: seq<Label>, p: nat)
    requires Legal(INITIAL, run) && p in Exec(INITIAL, run).objs
    ensures var s := Exec(INITIAL, run);
            && s.objs[p].closed == Full(s.objs[p])
            && p in s.launched && s.launched[p] == (if Full(s.objs[p]) then 1 else 0)
            && !s.panicked
  {
    RunsKeepInv(run);
  }
}
