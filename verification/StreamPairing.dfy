/** Streams do get paired: what becomes of the streams of one request id once a pair for it is there. */
module StreamPairing {
  import opened Options
  import opened StreamPairs
  import opened StreamProtocol

  /** The streams of the pair's request id that were added, to whichever pair, since the pair was made. */
  function Since(run: seq<Label>, p: nat): seq<Stream>
    requires Legal(INITIAL, run)
  {
    if run == [] then []
    else
      var before, last := run[..|run| - 1], run[|run| - 1];
      var s := Exec(INITIAL, before);
      if p !in s.objs then []
      else Since(before, p) + AddedBy(s, last, s.objs[p].requestID)
  }

  function AddedBy(s: System, l: Label, id: string): seq<Stream>
    requires Enabled(s, l)
  {
    if l.AddStep? && s.loop.stream.requestID == id then [s.loop.stream] else []
  }

  /** The table has the pair under its request id. */
  predicate Filed(s: System, p: nat) {
    p in s.objs && s.objs[p].requestID in s.pairs && s.pairs[s.objs[p].requestID] == p
  }

  predicate TimedOut(run: seq<Label>, p: nat) {
    Timeout(p) in run
  }

  /** The pair holds the first stream of each type among those added since it was made. */
  predicate HoldsFirsts(o: Pair, since: seq<Stream>) {
    o.dataStream == FirstOf(since, DATA_TYPE) && o.errorStream == FirstOf(since, ERROR_TYPE)
  }

  /** The run loop is about to add a stream of the request id to another pair. */
  predicate AddsElsewhere(s: System, p: nat, id: string) {
    (s.loop.Created? || s.loop.Adding?) && s.loop.p != p && s.loop.stream.requestID == id
  }

  /** What holds of a pair, `timedOut` telling whether its timeout has fired. */
  ghost predicate Followed(s: System, p: nat, since: seq<Stream>, timedOut: bool)
    requires p in s.objs
  {
    var o := s.objs[p];
    && (Filed(s, p) || !timedOut ==> HoldsFirsts(o, since))
    && (Filed(s, p) || timedOut || Full(o))
    && (AddsElsewhere(s, p, o.requestID) ==> Full(o) || (timedOut && !Filed(s, p)))
    && (p in s.monitors && s.monitors[p].Removing? ==> timedOut || o.closed)
  }

  lemma StepFollows(s: System, l: Label, p: nat, since: seq<Stream>, timedOut: bool)
    requires TableInv(s) && PairInv(s) && Enabled(s, l) && p in s.objs && Followed(s, p, since, timedOut)
    ensures p in Step(s, l).objs
    ensures Followed(Step(s, l), p, since + AddedBy(s, l, s.objs[p].requestID), timedOut || l == Timeout(p))
  {
    hide HoldsFirsts;
    if l.AddStep? {
      AddFollows(s, p, since, timedOut);
    } else {
      assert since + [] == since;
    }
  }

  lemma AddFollows(s: System, p: nat, since: seq<Stream>, timedOut: bool)
    requires TableInv(s) && PairInv(s) && Enabled(s, AddStep) && p in s.objs && Followed(s, p, since, timedOut)
    ensures p in Step(s, AddStep).objs
    ensures Followed(Step(s, AddStep), p, since + AddedBy(s, AddStep, s.objs[p].requestID), timedOut)
  {
    hide HoldsFirsts;
    var stream := s.loop.stream;
    if stream.requestID == s.objs[p].requestID {
      if s.loop.p == p {
        AddKeepsFirsts(s.objs[p], stream, since);
      } else {
        FullKeepsFirsts(s.objs[p], stream, since);
      }
    } else {
      assert since + [] == since;
    }
  }

  lemma FirstOfLonger(since: seq<Stream>, stream: Stream, streamType: string)
    ensures FirstOf(since + [stream], streamType) ==
      if FirstOf(since, streamType).Some? then FirstOf(since, streamType)
      else if stream.streamType == streamType then Some(stream) else None
  {
    assert (since + [stream])[..|since|] == since;
  }

  lemma AddKeepsFirsts(o: Pair, stream: Stream, since: seq<Stream>)
    ensures HoldsFirsts(o, since) ==> HoldsFirsts(AddStream(o, stream).0, since + [stream])
  {
    FirstOfLonger(since, stream, DATA_TYPE);
    FirstOfLonger(since, stream, ERROR_TYPE);
  }

  lemma FullKeepsFirsts(o: Pair, stream: Stream, since: seq<Stream>)
    ensures Full(o) && HoldsFirsts(o, since) ==> HoldsFirsts(o, since + [stream])
  {
    FirstOfLonger(since, stream, DATA_TYPE);
    FirstOfLonger(since, stream, ERROR_TYPE);
  }

  lemma {:induction false} RunFollows(run: seq<Label>, p: nat)
    requires Legal(INITIAL, run) && p in Exec(INITIAL, run).objs
    ensures Followed(Exec(INITIAL, run), p, Since(run, p), TimedOut(run, p))
  {
    hide Followed, Step, Enabled, TableInv, PairInv;
    var before, last := run[..|run| - 1], run[|run| - 1];
    var s := Exec(INITIAL, before);
    RunsKeepInv(before);
    assert run == before + [last];
    if p in s.objs {
      RunFollows(before, p);
      StepFollows(s, last, p, Since(before, p), TimedOut(before, p));
    } else {
      NoMonitorYet(before, p);
      NewPairFollows(s, last, p);
    }
  }

  /** A monitor, and its timeout, comes after its pair. */
  lemma {:induction false} NoMonitorYet(run: seq<Label>, p: nat)
    requires Legal(INITIAL, run) && p !in Exec(INITIAL, run).objs
    ensures !TimedOut(run, p)
  {
    hide Step, Enabled, TableInv, PairInv;
    if run == [] {
    } else {
      var before, last := run[..|run| - 1], run[|run| - 1];
      assert run == before + [last];
      RunsKeepInv(before);
      NoTimeoutYet(Exec(INITIAL, before), last, p);
      NoMonitorYet(before, p);
    }
  }

  lemma NoTimeoutYet(s: System, l: Label, p: nat)
    requires TableInv(s) && Enabled(s, l) && p !in Step(s, l).objs
    ensures p !in s.objs && l != Timeout(p)
  {}

  lemma NewPairFollows(s: System, l: Label, p: nat)
    requires TableInv(s) && PairInv(s) && Enabled(s, l) && p !in s.objs && p in Step(s, l).objs
    ensures Followed(Step(s, l), p, [], false) && l != Timeout(p)
  {}

  predicate BothCame(since: seq<Stream>) {
    FirstOf(since, DATA_TYPE).Some? && FirstOf(since, ERROR_TYPE).Some?
  }

  /**
   In every interleaving, while a pair is in the table or its timeout has not fired, forwarding has been
   launched for it exactly when a data and an error stream of its request id were added since it was made.
   */
  lemma StreamsArePaired(run: seq<Label>, p: nat)
    requires Legal(INITIAL, run) && p in Exec(INITIAL, run).objs
    requires Filed(Exec(INITIAL, run), p) || !TimedOut(run, p)
    ensures p in Exec(INITIAL, run).launched
    ensures Exec(INITIAL, run).launched[p] == if BothCame(Since(run, p)) then 1 else 0
  {
    LaunchedOncePerPair(run, p);
    RunFollows(run, p);
  }

  // ---------- Exactly which pairs are launched ----------

  /** What is added when the pair is in the table, or to the pair itself. */
  function AddedInTime(s: System, l: Label, p: nat): seq<Stream>
    requires Enabled(s, l) && p in s.objs
  {
    if Filed(s, p) || (l.AddStep? && s.loop.p == p) then AddedBy(s, l, s.objs[p].requestID) else []
  }

  /**
   Of the streams added since the pair was made, those for which it was not too late: the pair was in the
   table, or the run loop had found it there before it went.
   */
  function InTime(run: seq<Label>, p: nat): seq<Stream>
    requires Legal(INITIAL, run)
  {
    if run == [] then []
    else
      var before, last := run[..|run| - 1], run[|run| - 1];
      var s := Exec(INITIAL, before);
      if p !in s.objs then []
      else InTime(before, p) + AddedInTime(s, last, p)
  }

  lemma StepHoldsInTime(s: System, l: Label, p: nat, since: seq<Stream>, timedOut: bool, inTime: seq<Stream>)
    requires TableInv(s) && PairInv(s) && Enabled(s, l) && p in s.objs
    requires Followed(s, p, since, timedOut) && HoldsFirsts(s.objs[p], inTime)
    ensures p in Step(s, l).objs && HoldsFirsts(Step(s, l).objs[p], inTime + AddedInTime(s, l, p))
  {
    hide HoldsFirsts, TableInv;
    assert inTime + [] == inTime;
    if l.AddStep? {
      if s.loop.p == p {
        AddKeepsFirsts(s.objs[p], s.loop.stream, inTime);
      } else {
        FullKeepsFirsts(s.objs[p], s.loop.stream, inTime);
      }
    }
  }

  /** In every interleaving, timeouts or not, a pair holds the first stream of each type that came in time. */
  lemma {:induction false} PairHoldsInTime(run: seq<Label>, p: nat)
    requires Legal(INITIAL, run) && p in Exec(INITIAL, run).objs
    ensures HoldsFirsts(Exec(INITIAL, run).objs[p], InTime(run, p))
  {
    hide Followed, HoldsFirsts, Step, Enabled, TableInv, PairInv;
    var before, last := run[..|run| - 1], run[|run| - 1];
    var s := Exec(INITIAL, before);
    RunsKeepInv(before);
    if p in s.objs {
      RunFollows(before, p);
      PairHoldsInTime(before, p);
      StepHoldsInTime(s, last, p, Since(before, p), TimedOut(before, p), InTime(before, p));
    } else {
      NewPairHoldsNothing(s, last, p);
    }
  }

  lemma NewPairHoldsNothing(s: System, l: Label, p: nat)
    requires TableInv(s) && PairInv(s) && Enabled(s, l) && p !in s.objs && p in Step(s, l).objs
    ensures HoldsFirsts(Step(s, l).objs[p], [])
  {}

  lemma FirstOfMore(some: seq<Stream>, all: seq<Stream>, more: seq<Stream>, streamType: string)
    requires |more| <= 1 && (FirstOf(some, streamType).Some? ==> FirstOf(all, streamType).Some?)
    ensures FirstOf(some + more, streamType).Some? ==> FirstOf(all + more, streamType).Some?
    ensures FirstOf(some, streamType).Some? ==> FirstOf(all + more, streamType).Some?
  {
    if more == [] {
      assert some + more == some && all + more == all;
    } else {
      assert more == [more[0]];
      FirstOfLonger(some, more[0], streamType);
      FirstOfLonger(all, more[0], streamType);
    }
  }

  /** What came in time came. */
  lemma {:induction false} InTimeCame(run: seq<Label>, p: nat, streamType: string)
    requires Legal(INITIAL, run)
    ensures FirstOf(InTime(run, p), streamType).Some? ==> FirstOf(Since(run, p), streamType).Some?
  {
    hide Step, Enabled;
    if run == [] {
    } else {
      var before, last := run[..|run| - 1], run[|run| - 1];
      var s := Exec(INITIAL, before);
      InTimeCame(before, p, streamType);
      if p in s.objs {
        var more := AddedBy(s, last, s.objs[p].requestID);
        FirstOfMore(InTime(before, p), Since(before, p), more, streamType);
        assert InTime(before, p) + [] == InTime(before, p);
      }
    }
  }

  /**
   In every interleaving, forwarding has been launched for a pair exactly when a data and an error stream of
   its request id came in time. So counting all the streams added since it was made gives the same answer
   exactly when both types came in time whenever both came.
   */
  lemma LaunchedExactly(run: seq<Label>, p: nat)
    requires Legal(INITIAL, run) && p in Exec(INITIAL, run).objs
    ensures p in Exec(INITIAL, run).launched
    ensures var n := Exec(INITIAL, run).launched[p];
      && n == (if BothCame(InTime(run, p)) then 1 else 0)
      && ((n == if BothCame(Since(run, p)) then 1 else 0) <==> (BothCame(Since(run, p)) ==> BothCame(InTime(run, p))))
  {
    LaunchedOncePerPair(run, p);
    PairHoldsInTime(run, p);
    InTimeCame(run, p, DATA_TYPE);
    InTimeCame(run, p, ERROR_TYPE);
  }

  // ---------- When a timeout gets in between ----------

  /** The run is possible and ends in `s`, with `since` added since the pair `q` was made. */
  ghost predicate Leads(run: seq<Label>, s: System, q: nat, since: seq<Stream>) {
    Legal(INITIAL, run) && Exec(INITIAL, run) == s && Since(run, q) == since
  }

  lemma Longer(run: seq<Label>, s: System, q: nat, since: seq<Stream>, l: Label)
    requires Leads(run, s, q, since) && Enabled(s, l)
    ensures Leads(run + [l], Step(s, l), q, if q in s.objs then since + AddedBy(s, l, s.objs[q].requestID) else [])
  {
    hide Step, Enabled;
    assert (run + [l])[..|run|] == run;
  }

  /** A stream arrives when its request id has no pair, and is added to a new one. */
  function Opening(stream: Stream, p: nat): seq<Label> {
    [StreamArrives(stream), GetPair(p), StartMonitor, AddStep]
  }

  function Opened(s: System, stream: Stream, p: nat): System {
    var o := AddStream(NewPair(stream.requestID), stream).0;
    s.(pairs := s.pairs[stream.requestID := p], objs := s.objs[p := o],
       launched := s.launched[p := if Full(o) then 1 else 0], monitors := s.monitors[p := Waiting])
  }

  predicate Opens(s: System, stream: Stream, p: nat) {
    s.loop.Ready? && stream.requestID !in s.pairs && p !in s.objs && Receive(stream).Accepted?
  }

  lemma OpeningRuns(run: seq<Label>, s: System, q: nat, since: seq<Stream>, stream: Stream, p: nat)
    requires Leads(run, s, q, since) && Opens(s, stream, p)
    requires p == q || (q in s.objs && s.objs[q].requestID == stream.requestID)
    ensures Leads(run + Opening(stream, p), Opened(s, stream, p), q, if p == q then [stream] else since + [stream])
  {
    hide Leads, Receive;
    var s1 := s.(loop := Received(stream));
    var s2 := s.(pairs := s.pairs[stream.requestID := p], objs := s.objs[p := NewPair(stream.requestID)],
                 launched := s.launched[p := 0], loop := Created(stream, p));
    var s3 := s2.(monitors := s2.monitors[p := Waiting], loop := Adding(stream, p));
    var came := if p == q then [] else since;
    Longer(run, s, q, since, StreamArrives(stream));
    Longer(run + [StreamArrives(stream)], s1, q, if p == q then [] else since + [], GetPair(p));
    assert since + [] + [] == since;
    Longer(run + [StreamArrives(stream)] + [GetPair(p)], s2, q, came, StartMonitor);
    assert came + [] == came && [] + [stream] == [stream];
    Longer(run + [StreamArrives(stream)] + [GetPair(p)] + [StartMonitor], s3, q, came, AddStep);
    assert Step(s3, AddStep) == Opened(s, stream, p);
    assert run + Opening(stream, p) == run + [StreamArrives(stream)] + [GetPair(p)] + [StartMonitor] + [AddStep];
  }

  /** The data stream has come, and its pair has gone. */
  function Gone(d: Stream): seq<Label> {
    [] + Opening(d, 0) + [Timeout(0)] + [Remove(0)]
  }

  lemma GoneRuns(d: Stream)
    requires Receive(d).Accepted? && d.streamType == DATA_TYPE
    ensures var o := Opened(INITIAL, d, 0);
      Leads(Gone(d), o.(pairs := map[], monitors := map[]), 0, [d]) && Timeout(0) in Gone(d)
  {
    hide Leads, Receive;
    WaitingRuns(d);
    var waiting := Opened(INITIAL, d, 0).(monitors := map[0 := Removing]);
    Longer([] + Opening(d, 0) + [Timeout(0)], waiting, 0, [d], Remove(0));
    assert Step(waiting, Remove(0)) == waiting.(pairs := map[], monitors := map[]) && [d] + [] == [d];
    assert Gone(d)[|Opening(d, 0)|] == Timeout(0);
  }

  lemma NoStepYet()
    ensures Leads([], INITIAL, 0, [])
  {}

  /**
   A timeout can separate two streams: if it fires and its pair is removed between a data and an
   error stream, both streams are in, and neither the old pair nor the new one is launched.
   */
  lemma TimeoutSeparates(d: Stream, e: Stream)
    requires Receive(d).Accepted? && Receive(e).Accepted? && d.requestID == e.requestID
    requires d.streamType == DATA_TYPE && e.streamType == ERROR_TYPE
    ensures var run := Gone(d) + Opening(e, 1);
      && Legal(INITIAL, run) && TimedOut(run, 0)
      && var s := Exec(INITIAL, run);
         && 0 in s.objs && !Filed(s, 0) && BothCame(Since(run, 0))
         && 0 in s.launched && s.launched[0] == 0
         && 1 in s.launched && s.launched[1] == 0
  {
    hide Receive, Step, Enabled, Gone, Opening;
    GoneRuns(d);
    OpeningRuns(Gone(d), Opened(INITIAL, d, 0).(pairs := map[], monitors := map[]), 0, [d], e, 1);
    BothAreIn(d, e);
  }

  lemma BothAreIn(d: Stream, e: Stream)
    requires d.streamType == DATA_TYPE && e.streamType == ERROR_TYPE
    ensures BothCame([d] + [e])
  {
    FirstOfLonger([], d, DATA_TYPE);
    FirstOfLonger([d], e, DATA_TYPE);
    FirstOfLonger([d], e, ERROR_TYPE);
    FirstOfLonger([], d, ERROR_TYPE);
    assert [] + [d] == [d];
  }

  /** The error stream is on its way to the pair that the timeout takes out of the table. */
  function Racing(d: Stream, e: Stream): seq<Label> {
    [] + Opening(d, 0) + [Timeout(0)] + [StreamArrives(e)] + [GetPair(1)] + [Remove(0)] + [AddStep]
  }

  /**
   A pair that has timed out and gone may be launched all the same: the run loop found it in time.
   */
  lemma TimeoutRaces(d: Stream, e: Stream)
    requires Receive(d).Accepted? && Receive(e).Accepted? && d.requestID == e.requestID
    requires d.streamType == DATA_TYPE && e.streamType == ERROR_TYPE
    ensures var run := Racing(d, e);
      && Legal(INITIAL, run) && TimedOut(run, 0)
      && var s := Exec(INITIAL, run);
         0 in s.objs && !Filed(s, 0) && 0 in s.launched && s.launched[0] == 1
  {
    hide Leads, Receive, Step, Enabled, Opening;
    var waiting := [] + Opening(d, 0) + [Timeout(0)];
    WaitingRuns(d);
    var s := RaceRuns(waiting, Opened(INITIAL, d, 0).(monitors := map[0 := Removing]), d, e);
    assert Racing(d, e)[|waiting| - 1] == Timeout(0);
    LeadsTo(Racing(d, e), s, 0, [d] + [e]);
  }

  lemma WaitingRuns(d: Stream)
    requires Receive(d).Accepted?
    ensures Leads([] + Opening(d, 0) + [Timeout(0)], Opened(INITIAL, d, 0).(monitors := map[0 := Removing]), 0, [d])
  {
    hide Leads, Receive;
    NoStepYet();
    OpeningRuns([], INITIAL, 0, [], d, 0);
    Longer([] + Opening(d, 0), Opened(INITIAL, d, 0), 0, [d], Timeout(0));
    assert Step(Opened(INITIAL, d, 0), Timeout(0)) == Opened(INITIAL, d, 0).(monitors := map[0 := Removing]);
    assert [d] + [] == [d];
  }

  lemma RaceRuns(run: seq<Label>, s: System, d: Stream, e: Stream) returns (s': System)
    requires Receive(e).Accepted? && d.requestID == e.requestID
    requires d.streamType == DATA_TYPE && e.streamType == ERROR_TYPE
    requires Leads(run, s, 0, [d]) && s == Opened(INITIAL, d, 0).(monitors := map[0 := Removing])
    ensures Leads(run + [StreamArrives(e)] + [GetPair(1)] + [Remove(0)] + [AddStep], s', 0, [d] + [e])
    ensures 0 in s'.objs && s'.pairs == map[] && 0 in s'.launched && s'.launched[0] == 1
  {
    hide Leads, Receive;
    assert [d] + [] == [d];
    Longer(run, s, 0, [d], StreamArrives(e));
    Longer(run + [StreamArrives(e)], s.(loop := Received(e)), 0, [d], GetPair(1));
    var s2 := s.(loop := Adding(e, 0));
    Longer(run + [StreamArrives(e)] + [GetPair(1)], s2, 0, [d], Remove(0));
    var s3 := s2.(pairs := map[], monitors := map[]);
    assert Step(s2, Remove(0)) == s3;
    Longer(run + [StreamArrives(e)] + [GetPair(1)] + [Remove(0)], s3, 0, [d], AddStep);
    s' := Step(s3, AddStep);
  }

  lemma LeadsTo(run: seq<Label>, s: System, q: nat, since: seq<Stream>)
    requires Leads(run, s, q, since)
    ensures Legal(INITIAL, run) && Exec(INITIAL, run) == s && Since(run, q) == since
  {}
}
