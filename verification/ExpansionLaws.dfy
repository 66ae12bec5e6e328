/** Round trips of expansion, and exactly when it leaves its input alone. */
module ExpansionLaws {
  import opened Expansion

  /** The input wrapped in the reference syntax. */
  function SyntaxWrap(name: Bytes): Bytes {
    [OPERATOR, OPENER] + name + [CLOSER]
  }

  /** The function MappingFuncFor returns: the first context that knows the name, or the reference itself. */
  function Resolve(contexts: seq<map<Bytes, Bytes>>, name: Bytes): Bytes {
    if contexts == [] then SyntaxWrap(name)
    else if name in contexts[0] then contexts[0][name]
    else Resolve(contexts[1..], name)
  }

  lemma {:induction false} FirstContextWins(contexts: seq<map<Bytes, Bytes>>, name: Bytes, i: nat)
    requires i <= |contexts| && forall j | 0 <= j < i :: name !in contexts[j]
    ensures i < |contexts| && name in contexts[i] ==> Resolve(contexts, name) == contexts[i][name]
    ensures i == |contexts| ==> Resolve(contexts, name) == SyntaxWrap(name)
  {
    if i == 0 {
    } else {
      FirstContextWins(contexts[1..], name, i - 1);
    }
  }

  // ---------- What each form of input becomes ----------

  /** Text before the first operator is copied. */
  lemma {:induction false} TextIsCopied(a: Bytes, b: Bytes, mapping: Bytes -> Bytes)
    requires 0x24 !in a
    ensures Meaning(a + b, mapping) == a + Meaning(b, mapping)
  {
    hide Meaning, First;
    if a == [] {
      assert a + b == b;
    } else {
      var s, rest := a + b, a[1..] + b;
      MeaningUnfolds(s, mapping);
      FirstIsLiteral(s);
      assert s[1..] == rest && a == [a[0]] + a[1..];
      TextIsCopied(a[1..], b, mapping);
    }
  }

  lemma FirstIsLiteral(s: Bytes)
    requires s != [] && s[0] != 0x24
    ensures First(s) == Literal(s[0])
  {}

  /** A reference becomes what the mapping answers for the name up to the first closer; the rest is read on its own. */
  lemma ReferenceIsReplaced(a: Bytes, name: Bytes, b: Bytes, mapping: Bytes -> Bytes)
    requires 0x24 !in a && 0x29 !in name
    ensures Meaning(a + ([0x24, 0x28] + name + [0x29] + b), mapping) == a + (mapping(name) + Meaning(b, mapping))
  {
    hide Meaning, First;
    var s := [0x24, 0x28] + name + [0x29] + b;
    TextIsCopied(a, s, mapping);
    FirstIsReference(name, b);
    MeaningUnfolds(s, mapping);
    assert s[|Source(Reference(name))|..] == b;
  }

  lemma FirstIsReference(name: Bytes, b: Bytes)
    requires 0x29 !in name
    ensures First([0x24, 0x28] + name + [0x29] + b) == Reference(name)
  {
    var s := [0x24, 0x28] + name + [0x29] + b;
    var i := Closer(s, 2);
    assert s[2 + |name|] == CLOSER;
    assert forall j | 2 <= j < 2 + |name| :: s[j] == name[j - 2];
    assert s[2..i] == name;
  }

  /** A doubled operator becomes one. */
  lemma EscapeIsHalved(b: Bytes, mapping: Bytes -> Bytes)
    ensures Meaning([0x24, 0x24] + b, mapping) == [0x24] + Meaning(b, mapping)
  {
    MeaningUnfolds([0x24, 0x24] + b, mapping);
    assert ([0x24, 0x24] + b)[2..] == b;
  }

  /** A reference that is never closed is copied as far as its opener, and the rest is read on its own. */
  lemma OpenReferenceIsCopied(b: Bytes, mapping: Bytes -> Bytes)
    requires 0x29 !in b
    ensures Meaning([0x24, 0x28] + b, mapping) == [0x24, 0x28] + Meaning(b, mapping)
  {
    hide Meaning;
    var s := [0x24, 0x28] + b;
    assert forall j | 2 <= j < |s| :: s[j] == b[j - 2];
    MeaningUnfolds(s, mapping);
    assert s[2..] == b;
  }

  /** An operator before a byte that means nothing is copied with it; a byte beyond ASCII comes out as two. */
  lemma BareOperatorIsCopied(c: Byte, b: Bytes, mapping: Bytes -> Bytes)
    requires c != 0x24 && c != 0x28
    ensures c < 0x80 ==> Meaning([0x24, c] + b, mapping) == [0x24, c] + Meaning(b, mapping)
    ensures c >= 0x80 ==> Meaning([0x24, c] + b, mapping) == [0x24, 0xC0 + c / 64, 0x80 + c % 64] + Meaning(b, mapping)
  {
    hide Meaning;
    MeaningUnfolds([0x24, c] + b, mapping);
    assert ([0x24, c] + b)[2..] == b;
  }

  /** A last operator is copied, and nothing becomes nothing. */
  lemma LastOperatorIsCopied(mapping: Bytes -> Bytes)
    ensures Meaning([0x24], mapping) == [0x24] && Meaning([], mapping) == []
  {
    MeaningUnfolds([0x24], mapping);
  }

  // ---------- Escaping ----------

  /** Double every operator. */
  function Escape(s: Bytes): Bytes {
    if s == [] then []
    else (if s[0] == OPERATOR then [OPERATOR, OPERATOR] else [s[0]]) + Escape(s[1..])
  }

  /** An escaped string expands to itself unescaped, under any mapping. */
  lemma {:induction false} ExpandUndoesEscape(s: Bytes, mapping: Bytes -> Bytes)
    ensures Meaning(Escape(s), mapping) == s
  {
    if s == [] {
    } else {
      ExpandUndoesEscape(s[1..], mapping);
      MeaningUnfolds(Escape(s), mapping);
      var n := |Source(First(Escape(s)))|;
      assert Escape(s)[n..] == Escape(s[1..]);
      assert s == [s[0]] + s[1..];
    }
  }

  // ---------- When nothing changes ----------

  /** A token that reads back as itself when every reference does. */
  predicate Inert(t: Token) {
    !t.Escaped? && (t.Bare? ==> t.b < 0x80)
  }

  predicate AllInert(ts: seq<Token>) {
    forall i | 0 <= i < |ts| :: Inert(ts[i])
  }

  lemma AllInertSplits(t: Token, ts: seq<Token>)
    ensures AllInert([t] + ts) <==> Inert(t) && AllInert(ts)
  {
    var all := [t] + ts;
    assert forall i | 0 <= i < |ts| :: all[i + 1] == ts[i];
    assert all[0] == t;
  }

  function Repeat(b: Byte, n: nat): Bytes {
    seq(n, _ => b)
  }

  /**
   Expanding with no contexts returns the input exactly when the input has no escaped operator, and no
   operator followed by a byte beyond ASCII outside a reference.
   */
  lemma {:induction false} IdentityExactly(s: Bytes)
    ensures Meaning(s, SyntaxWrap) == s <==> AllInert(Tokens(s))
  {
    if s == [] {
    } else {
      var t := First(s);
      var rest := s[|Source(t)|..];
      IdentityExactly(rest);
      MeaningUnfolds(s, SyntaxWrap);
      assert Tokens(s) == [t] + Tokens(rest);
      AllInertSplits(t, Tokens(rest));
      if Inert(t) {
        assert Render(t, SyntaxWrap) == Source(t);
      } else {
        ActiveTokenShows(s);
      }
    }
  }

  /** A first token that is not inert changes the whole input, whatever the rest does to make up for it. */
  lemma ActiveTokenShows(s: Bytes)
    requires s != [] && !Inert(First(s))
    ensures Meaning(s, SyntaxWrap) != s
  {
    hide Meaning, First, Repeat, Utf8;
    var t := First(s);
    var rest := s[|Source(t)|..];
    MeaningUnfolds(s, SyntaxWrap);
    if t.Escaped? {
      LostOperators(rest, 1);
      EscapeShows(Meaning(rest, SyntaxWrap), rest);
    } else {
      ExtraByte(rest);
      ReencodingShows(t.b, Meaning(rest, SyntaxWrap), rest);
    }
  }

  lemma EscapeShows(m: Bytes, rest: Bytes)
    requires m != Repeat(OPERATOR, 1) + rest
    ensures [OPERATOR] + m != [OPERATOR, OPERATOR] + rest
  {
    assert ([OPERATOR] + m)[1..] == m && ([OPERATOR, OPERATOR] + rest)[1..] == Repeat(OPERATOR, 1) + rest;
  }

  /** A byte beyond ASCII becomes two; the first can be the byte itself only for 0xC3, and then 0x83 is extra. */
  lemma ReencodingShows(b: Byte, m: Bytes, rest: Bytes)
    requires b >= 0x80 && [0x83] + m != rest
    ensures [OPERATOR] + Utf8(b) + m != [OPERATOR, b] + rest
  {
    var out, source := [OPERATOR] + Utf8(b) + m, [OPERATOR, b] + rest;
    assert out[1] == 0xC0 + b / 64 && source[1] == b;
    assert out[2] == 0x80 + b % 64;
    assert out[2..] == [out[2]] + m && source[2..] == rest;
  }

  /** No input expands to itself with operators in front. */
  lemma {:induction false} LostOperators(s: Bytes, n: nat)
    requires n > 0
    ensures Meaning(s, SyntaxWrap) != Repeat(OPERATOR, n) + s
  {
    hide Meaning, First, Repeat;
    if s == [] {
      MeaningOfNothing(SyntaxWrap);
      RepeatUnfolds(n);
    } else if First(s).Escaped? {
      var rest := s[|Source(First(s))|..];
      LostOperators(rest, n + 1);
      MeaningUnfolds(s, SyntaxWrap);
      EscapeShortens(Meaning(rest, SyntaxWrap), rest, n);
    } else {
      OtherStartShows(s, n);
    }
  }

  lemma RepeatUnfolds(n: nat)
    ensures Repeat(OPERATOR, n + 1) == [OPERATOR] + Repeat(OPERATOR, n)
    ensures Repeat(OPERATOR, n + 1) == Repeat(OPERATOR, n) + [OPERATOR]
    ensures |Repeat(OPERATOR, n)| == n
  {}

  lemma EscapeShortens(m: Bytes, rest: Bytes, n: nat)
    requires m != Repeat(OPERATOR, n + 1) + rest
    ensures [OPERATOR] + m != Repeat(OPERATOR, n) + ([OPERATOR, OPERATOR] + rest)
  {
    hide Repeat;
    RepeatUnfolds(n);
    RepeatUnfolds(n + 1);
    var more := Repeat(OPERATOR, n) + ([OPERATOR, OPERATOR] + rest);
    assert more == Repeat(OPERATOR, n) + [OPERATOR] + [OPERATOR] + rest;
    assert more == [OPERATOR] + (Repeat(OPERATOR, n + 1) + rest);
    assert ([OPERATOR] + m)[1..] == m && more[1..] == Repeat(OPERATOR, n + 1) + rest;
  }

  lemma OtherStartShows(s: Bytes, n: nat)
    requires n > 0 && s != [] && !First(s).Escaped?
    ensures Meaning(s, SyntaxWrap) != Repeat(OPERATOR, n) + s
  {
    hide Meaning;
    var t := First(s);
    var m, more := Meaning(s, SyntaxWrap), Repeat(OPERATOR, n) + s;
    MeaningUnfolds(s, SyntaxWrap);
    assert more[0] == OPERATOR;
    match t
    case Literal(b) => assert m[0] == b;
    case Trailing =>
      MeaningOfNothing(SyntaxWrap);
      assert s[1..] == [] && |m| == 1 && |more| > 1;
    case Reference(name) => assert m[1] == OPENER && more[1] == OPERATOR;
    case Unterminated => assert m[1] == OPENER && more[1] == OPERATOR;
    case Bare(b) => assert m[1] != OPERATOR && more[1] == OPERATOR;
  }

  /** No input is its own expansion with the byte 0x83 in front. */
  lemma {:induction false} ExtraByte(s: Bytes)
    ensures [0x83] + Meaning(s, SyntaxWrap) != s
  {
    if s == [] || s[0] != 0x83 {
    } else {
      MeaningUnfolds(s, SyntaxWrap);
      ExtraByte(s[1..]);
      var more := [0x83] + Meaning(s, SyntaxWrap);
      assert more[1..] == [0x83] + Meaning(s[1..], SyntaxWrap);
    }
  }

  /** To be checked without cutting tokens: no doubled operator, and no operator before a byte beyond ASCII. */
  predicate Quiet(s: Bytes) {
    forall i | 0 <= i < |s| - 1 && s[i] == OPERATOR :: s[i + 1] != OPERATOR && s[i + 1] < 0x80
  }

  lemma {:induction false} QuietIsInert(s: Bytes)
    requires Quiet(s)
    ensures AllInert(Tokens(s))
  {
    hide Quiet, Inert, First;
    if s == [] {
    } else {
      var t := First(s);
      var rest := s[|Source(t)|..];
      QuietStart(s);
      QuietIsInert(rest);
      AllInertSplits(t, Tokens(rest));
    }
  }

  lemma QuietStart(s: Bytes)
    requires Quiet(s) && s != []
    ensures Inert(First(s)) && Quiet(s[|Source(First(s))|..])
  {
    hide First, Inert;
    QuietFirst(s);
    QuietSuffix(s, |Source(First(s))|);
  }

  lemma QuietFirst(s: Bytes)
    requires Quiet(s) && s != []
    ensures Inert(First(s))
  {
    if s[0] == OPERATOR && |s| > 1 {
      assert s[1] != OPERATOR && s[1] < 0x80;
    }
  }

  lemma QuietSuffix(s: Bytes, n: nat)
    requires Quiet(s) && n <= |s|
    ensures Quiet(s[n..])
  {
    assert forall i | 0 <= i < |s[n..]| :: s[n..][i] == s[n + i];
  }

  /** Text without operators means itself under any mapping. */
  lemma {:induction false} NoOperatorNoChange(s: Bytes, mapping: Bytes -> Bytes)
    requires OPERATOR !in s
    ensures Meaning(s, mapping) == s
  {
    if s == [] {
    } else {
      MeaningUnfolds(s, mapping);
      NoOperatorNoChange(s[1..], mapping);
      assert s == [s[0]] + s[1..];
    }
  }

  /** References that resolve to themselves might as well be read with no contexts. */
  lemma UnresolvedMeans(s: Bytes, mapping: Bytes -> Bytes)
    requires forall i | 0 <= i < |Tokens(s)| && Tokens(s)[i].Reference? ::
      mapping(Tokens(s)[i].name) == SyntaxWrap(Tokens(s)[i].name)
    ensures Meaning(s, mapping) == Meaning(s, SyntaxWrap)
  {
    AgreeingRender(Tokens(s), mapping, SyntaxWrap);
  }

  lemma {:induction false} AgreeingRender(ts: seq<Token>, mapping: Bytes -> Bytes, other: Bytes -> Bytes)
    requires forall i | 0 <= i < |ts| && ts[i].Reference? :: mapping(ts[i].name) == other(ts[i].name)
    ensures RenderAll(ts, mapping) == RenderAll(ts, other)
  {
    if ts == [] {
    } else {
      AgreeingRender(ts[1..], mapping, other);
    }
  }

  /** Only the answers matter. */
  lemma AnswersDecide(s: Bytes, mapping: Bytes -> Bytes, other: Bytes -> Bytes)
    requires forall n :: mapping(n) == other(n)
    ensures Meaning(s, mapping) == Meaning(s, other)
  {
    AgreeingRender(Tokens(s), mapping, other);
  }

  /** A byte beyond ASCII after an operator makes the output one byte longer; 0xC3 is even kept, with 0x83 behind it. */
  lemma ReencodedByteGrows(b: Byte)
    requires b >= 0x80
    ensures Meaning([0x24, b], SyntaxWrap) == [0x24, 0xC0 + b / 64, 0x80 + b % 64]
    ensures b == 0xC3 ==> Meaning([0x24, b], SyntaxWrap) == [0x24, 0xC3, 0x83]
  {
    MeaningUnfolds([OPERATOR, b], SyntaxWrap);
    MeaningOfNothing(SyntaxWrap);
    assert [OPERATOR, b][2..] == [];
  }
}
