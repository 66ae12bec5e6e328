/**
 Pairing the data and error streams of a port-forward request, after
 internal/kubernetes/portforward/httpstream.go: the filter on incoming streams, the pair object with
 its `complete` channel, and what a pair makes of any sequence of streams.
 */
module StreamPairs {
  import opened Options

  const ERROR_TYPE := "error"
  const DATA_TYPE := "data"

  /** A stream with its port and type headers, and the request id that `requestID` computed for it. */
  datatype Stream = Stream(port: string, streamType: string, requestID: string)

  // ---------- The filter ----------

  predicate IsDigit(c: char) {
    '0' <= c <= '9'
  }

  function Decimal(digits: string): nat
    requires forall c | c in digits :: IsDigit(c)
  {
    if digits == [] then 0
    else
      var last := digits[|digits| - 1];
      assert last in digits && IsDigit(last);
      10 * Decimal(digits[..|digits| - 1]) + (last as int - '0' as int)
  }

  /** Parsing an unsigned 16-bit decimal: no sign, no empty string, no overflow. */
  function ParseUint16(s: string): Option<nat> {
    if s == [] || (exists c | c in s :: !IsDigit(c)) || Decimal(s) > 0xFFFF then None else Some(Decimal(s))
  }

  datatype Reception = Accepted | MissingPort | UnparsablePort | PortZero | MissingType | InvalidType

  function Receive(s: Stream): Reception {
    if |s.port| == 0 then MissingPort
    else if ParseUint16(s.port).None? then UnparsablePort
    else if ParseUint16(s.port).value < 1 then PortZero
    else if |s.streamType| == 0 then MissingType
    else if s.streamType != ERROR_TYPE && s.streamType != DATA_TYPE then InvalidType
    else Accepted
  }

  predicate Typed(s: Stream) {
    s.streamType == ERROR_TYPE || s.streamType == DATA_TYPE
  }

  /** The decimal rendering of a number. */
  function Digits(n: nat): string {
    (if n < 10 then [] else Digits(n / 10)) + [(n % 10 + '0' as int) as char]
  }

  function Zeros(n: nat): string {
    if n == 0 then [] else ['0'] + Zeros(n - 1)
  }

  function Padded(zeros: nat, n: nat): string {
    Zeros(zeros) + Digits(n)
  }

  /** The decimal rendering of `n`, with any number of zeros in front. */
  ghost predicate Names(port: string, n: nat) {
    exists zeros: nat :: port == Padded(zeros, n)
  }

  predicate AllDigits(s: string) {
    s != [] && forall c | c in s :: IsDigit(c)
  }

  function Digit(d: nat): (c: char)
    requires d < 10
    ensures IsDigit(c) && c as int - '0' as int == d
  {
    (d + '0' as int) as char
  }

  /** One more digit at the end. */
  lemma OneMoreDigit(front: string, d: nat)
    requires (forall c | c in front :: IsDigit(c)) && d < 10
    ensures AllDigits(front + [Digit(d)]) && Decimal(front + [Digit(d)]) == 10 * Decimal(front) + d
  {
    var s := front + [Digit(d)];
    assert s[..|s| - 1] == front;
  }

  lemma {:induction false} ZerosMore(n: nat)
    ensures Zeros(n + 1) == Zeros(n) + ['0']
  {
    if n == 0 {
    } else {
      ZerosMore(n - 1);
    }
  }

  lemma {:induction false} ZerosAreZero(n: nat)
    ensures (forall c | c in Zeros(n) :: IsDigit(c)) && Decimal(Zeros(n)) == 0
  {
    if n == 0 {
    } else {
      ZerosAreZero(n - 1);
      ZerosMore(n - 1);
      assert Digit(0) == '0';
      OneMoreDigit(Zeros(n - 1), 0);
    }
  }

  lemma PaddedDigit(zeros: nat, d: nat)
    requires d < 10
    ensures Padded(zeros, d) == Zeros(zeros) + [Digit(d)]
  {}

  lemma PaddedMore(zeros: nat, n: nat, d: nat)
    requires n > 0 && d < 10
    ensures Padded(zeros, 10 * n + d) == Padded(zeros, n) + [Digit(d)]
  {
    assert (10 * n + d) / 10 == n && (10 * n + d) % 10 == d;
  }

  /** Such a string reads back as its number. */
  lemma {:induction false} PaddedReadsBack(zeros: nat, n: nat)
    ensures AllDigits(Padded(zeros, n)) && Decimal(Padded(zeros, n)) == n
  {
    hide Padded;
    if n < 10 {
      ZerosAreZero(zeros);
      PaddedDigit(zeros, n);
      OneMoreDigit(Zeros(zeros), n);
    } else {
      PaddedReadsBack(zeros, n / 10);
      PaddedMore(zeros, n / 10, n % 10);
      OneMoreDigit(Padded(zeros, n / 10), n % 10);
    }
  }

  lemma LastDigit(s: string) returns (front: string, d: nat)
    requires AllDigits(s)
    ensures d < 10 && s == front + [Digit(d)] && Decimal(s) == 10 * Decimal(front) + d
    ensures (forall c | c in front :: IsDigit(c)) && (front == [] || AllDigits(front))
  {
    var last := s[|s| - 1];
    front := s[..|s| - 1];
    assert last in s && s == front + [last];
    d := last as int - '0' as int;
    assert Digit(d) == last;
    OneMoreDigit(front, d);
  }

  /** And every string of digits is one. */
  lemma {:induction false} DigitsAreNamed(s: string) returns (zeros: nat)
    requires AllDigits(s)
    ensures s == Padded(zeros, Decimal(s))
  {
    hide AllDigits, Padded, Digit;
    var front, d := LastDigit(s);
    if front == [] {
      zeros := 0;
      PaddedDigit(0, d);
    } else {
      zeros := DigitsAreNamed(front);
      zeros := DigitAfter(zeros, Decimal(front), d);
    }
  }

  lemma DigitAfter(zeros: nat, n: nat, d: nat) returns (more: nat)
    requires d < 10
    ensures Padded(zeros, n) + [Digit(d)] == Padded(more, 10 * n + d)
  {
    hide Padded;
    if n == 0 {
      more := zeros + 1;
      PaddedDigit(zeros, 0);
      ZerosMore(zeros);
      PaddedDigit(zeros + 1, d);
    } else {
      more := zeros;
      PaddedMore(zeros, n, d);
    }
  }

  /** A stream is accepted exactly if it names a port from 1 to 65535 in decimal and is of one of the two types. */
  lemma AcceptedExactly(s: Stream)
    ensures Receive(s).Accepted? <==>
      (s.streamType == "data" || s.streamType == "error") && exists n :: 1 <= n <= 65535 && Names(s.port, n)
  {
    if Receive(s).Accepted? {
      var zeros := DigitsAreNamed(s.port);
      assert Names(s.port, Decimal(s.port));
    }
    forall n, zeros: nat | 1 <= n <= 65535 && s.port == Padded(zeros, n) ensures ParseUint16(s.port) == Some(n) {
      PaddedReadsBack(zeros, n);
    }
  }

  /** What is wrong is told in order: first of the port, then of the type. */
  lemma RejectedExactly(s: Stream)
    ensures Receive(s) == MissingPort <==> s.port == ""
    ensures Receive(s) == UnparsablePort <==> s.port != "" && forall n | Names(s.port, n) :: 65535 < n
    ensures Receive(s) == PortZero <==> Names(s.port, 0)
    ensures Receive(s) == MissingType <==> s.streamType == "" && exists n :: 1 <= n <= 65535 && Names(s.port, n)
    ensures Receive(s) == InvalidType <==>
      s.streamType !in {"", "data", "error"} && exists n :: 1 <= n <= 65535 && Names(s.port, n)
  {
    hide Names;
    ParsedExactly(s.port);
  }

  lemma ParsedExactly(port: string)
    ensures forall n :: Names(port, n) && n <= 65535 <==> ParseUint16(port) == Some(n)
    ensures Names(port, 0) ==> port != ""
  {
    if AllDigits(port) {
      var zeros := DigitsAreNamed(port);
      assert Names(port, Decimal(port));
    }
    forall n, zeros: nat | port == Padded(zeros, n)
      ensures AllDigits(port) && Decimal(port) == n
    {
      PaddedReadsBack(zeros, n);
    }
  }

  // ---------- One pair ----------

  /** `closed`: the `complete` channel has been closed. */
  datatype Pair = Pair(requestID: string, dataStream: Option<Stream>, errorStream: Option<Stream>, closed: bool)

  datatype Added = Completed | Incomplete | Duplicate | ClosedTwice

  function NewPair(requestID: string): Pair {
    Pair(requestID, None, None, false)
  }

  function Assign(p: Pair, s: Stream): Pair {
    if s.streamType == ERROR_TYPE then p.(errorStream := Some(s))
    else if s.streamType == DATA_TYPE then p.(dataStream := Some(s))
    else p
  }

  predicate AlreadyAssigned(p: Pair, s: Stream) {
    || (s.streamType == ERROR_TYPE && p.errorStream.Some?)
    || (s.streamType == DATA_TYPE && p.dataStream.Some?)
  }

  predicate Full(p: Pair) {
    p.errorStream.Some? && p.dataStream.Some?
  }

  /** What `add` does; closing a closed channel panics, with the stream already assigned. */
  function AddStream(p: Pair, s: Stream): (Pair, Added) {
    if AlreadyAssigned(p, s) then (p, Duplicate)
    else
      var p' := Assign(p, s);
      if !Full(p') then (p', Incomplete)
      else if p'.closed then (p', ClosedTwice)
      else (p'.(closed := true), Completed)
  }

  class HttpStreamPair {
    const requestID: string
    var dataStream: Option<Stream>
    var errorStream: Option<Stream>
    var closed: bool

    constructor (requestID: string)
      ensures Value() == NewPair(requestID)
    {
      this.requestID := requestID;
      dataStream, errorStream, closed := None, None, false;
    }

    ghost function Value(): Pair
      reads this
    {
      Pair(requestID, dataStream, errorStream, closed)
    }

    method Add(stream: Stream) returns (r: Added)
      modifies this
      ensures (Value(), r) == AddStream(old(Value()), stream)
    {
      if stream.streamType == ERROR_TYPE {
        if errorStream.Some? {
          return Duplicate;
        }
        errorStream := Some(stream);
      } else if stream.streamType == DATA_TYPE {
        if dataStream.Some? {
          return Duplicate;
        }
        dataStream := Some(stream);
      }
      var complete := errorStream.Some? && dataStream.Some?;
      if !complete {
        return Incomplete;
      }
      if closed {
        return ClosedTwice;
      }
      closed := true;
      return Completed;
    }
  }

  // ---------- Any sequence of streams ----------

  function AddAll(p: Pair, ss: seq<Stream>): Pair {
    if ss == [] then p else AddStream(AddAll(p, ss[..|ss| - 1]), ss[|ss| - 1]).0
  }

  /** The result of adding the stream at `i`, after those before it. */
  function ResultAt(p: Pair, ss: seq<Stream>, i: nat): Added
    requires i < |ss|
  {
    AddStream(AddAll(p, ss[..i]), ss[i]).1
  }

  /** How often adding reported a complete pair, each time launching `portForward`. */
  function Launches(p: Pair, ss: seq<Stream>): nat {
    if ss == [] then 0
    else Launches(p, ss[..|ss| - 1]) + if ResultAt(p, ss, |ss| - 1).Completed? then 1 else 0
  }

  /** The first stream of a type. */
  function FirstOf(ss: seq<Stream>, streamType: string): Option<Stream> {
    if ss == [] then None
    else
      var before := FirstOf(ss[..|ss| - 1], streamType);
      if before.Some? then before
      else if ss[|ss| - 1].streamType == streamType then Some(ss[|ss| - 1])
      else None
  }

  /**
   Whatever comes in, filtered or not, a pair keeps the first stream of each type, its channel is closed
   exactly when it has both, and `portForward` has been launched exactly that once.
   */
  lemma {:induction false} PairKeepsFirsts(id: string, ss: seq<Stream>)
    ensures var p := AddAll(NewPair(id), ss);
            && p.dataStream == FirstOf(ss, DATA_TYPE) && p.errorStream == FirstOf(ss, ERROR_TYPE)
            && p.closed == Full(p) && p.requestID == id
            && Launches(NewPair(id), ss) == if p.closed then 1 else 0
  {
    if ss == [] {
    } else {
      PairKeepsFirsts(id, ss[..|ss| - 1]);
    }
  }

  /** The channel is closed a second time exactly by a stream of neither type that reaches a full pair. */
  lemma ClosedTwiceExactly(id: string, ss: seq<Stream>, i: nat)
    requires i < |ss|
    ensures ResultAt(NewPair(id), ss, i) == ClosedTwice <==>
            !Typed(ss[i]) && FirstOf(ss[..i], DATA_TYPE).Some? && FirstOf(ss[..i], ERROR_TYPE).Some?
  {
    PairKeepsFirsts(id, ss[..i]);
  }

  /** How each stream is answered: refused if there is one of its type, else completing the pair or not. */
  lemma AnsweredExactly(id: string, ss: seq<Stream>, i: nat)
    requires i < |ss|
    ensures var d, e := FirstOf(ss[..i], "data").Some?, FirstOf(ss[..i], "error").Some?;
      var answer, t := ResultAt(NewPair(id), ss, i), ss[i].streamType;
      && (answer == Duplicate <==> (t == "data" && d) || (t == "error" && e))
      && (answer == Completed <==> (t == "data" && !d && e) || (t == "error" && !e && d))
      && (answer == ClosedTwice <==> t != "data" && t != "error" && d && e)
      && (answer == Incomplete <==>
            (t == "data" && !d && !e) || (t == "error" && !d && !e) || (t != "data" && t != "error" && !(d && e)))
  {
    PairKeepsFirsts(id, ss[..i]);
  }

  /** The filter rules that out. */
  lemma FilteredNeverClosesTwice(id: string, ss: seq<Stream>, i: nat)
    requires i < |ss| && forall s | s in ss :: Receive(s).Accepted?
    ensures ResultAt(NewPair(id), ss, i) != ClosedTwice
  {
    assert ss[i] in ss;
    ClosedTwiceExactly(id, ss, i);
  }

  /** Without the filter it happens: a data stream, an error stream, and one of no type. */
  lemma UnfilteredClosesTwice(id: string)
    ensures var ss := [Stream("80", DATA_TYPE, id), Stream("80", ERROR_TYPE, id), Stream("80", "", id)];
            ResultAt(NewPair(id), ss, 2) == ClosedTwice && Receive(ss[2]) == MissingType
  {
    var d, e, n := Stream("80", DATA_TYPE, id), Stream("80", ERROR_TYPE, id), Stream("80", "", id);
    var ss := [d, e, n];
    assert [d][..0] == [] && [d, e][..1] == [d] && ss[..2] == [d, e];
    assert FirstOf([d], DATA_TYPE) == Some(d);
    assert FirstOf([d, e], DATA_TYPE) == Some(d);
    assert FirstOf([d], ERROR_TYPE) == None;
    assert FirstOf([d, e], ERROR_TYPE) == Some(e);
    assert Decimal("8") == 8 by { assert "8"[..0] == []; }
    assert Decimal("80") == 80 by { assert "80"[..1] == "8"; }
    ClosedTwiceExactly(id, ss, 2);
  }
}
