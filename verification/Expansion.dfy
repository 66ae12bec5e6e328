/**
 Expansion of `$(NAME)` references, after internal/expansion/expand.go. The meaning of an input is
 given by cutting it into tokens and rendering each on its own; the program's cursor-and-checkpoint
 loop computes that. Strings are sequences of bytes, as in the program.
 */
module Expansion {
  type Byte = x: int | 0 <= x < 256
  type Bytes = seq<Byte>

  const OPERATOR: Byte := 0x24 // $
  const OPENER: Byte := 0x28   // (
  const CLOSER: Byte := 0x29   // )

  // ---------- Tokens ----------

  datatype Token =
    | Literal(b: Byte)
    | Escaped                 // $$
    | Reference(name: Bytes)  // $(name)
    | Unterminated            // $( with no ) to come
    | Bare(b: Byte)           // $ and a byte that means nothing
    | Trailing                // $ at the very end

  /** The bytes a token was read from. */
  function Source(t: Token): Bytes {
    match t
    case Literal(b) => [b]
    case Escaped => [OPERATOR, OPERATOR]
    case Reference(name) => [OPERATOR, OPENER] + name + [CLOSER]
    case Unterminated => [OPERATOR, OPENER]
    case Bare(b) => [OPERATOR, b]
    case Trailing => [OPERATOR]
  }

  /** The position of the first closer at or after `from`, or the length of the input. */
  function Closer(s: Bytes, from: nat): (i: nat)
    requires from <= |s|
    ensures from <= i <= |s| && (i < |s| ==> s[i] == CLOSER)
    ensures forall j | from <= j < i :: s[j] != CLOSER
    decreases |s| - from
  {
    if from == |s| || s[from] == CLOSER then from else Closer(s, from + 1)
  }

  function First(s: Bytes): (t: Token)
    requires s != []
    ensures |Source(t)| <= |s| && s == Source(t) + s[|Source(t)|..]
  {
    if s[0] != OPERATOR then Literal(s[0])
    else if |s| == 1 then Trailing
    else if s[1] == OPERATOR then Escaped
    else if s[1] != OPENER then Bare(s[1])
    else
      var i := Closer(s, 2);
      if i == |s| then Unterminated
      else
        assert s == [OPERATOR, OPENER] + s[2..i] + [CLOSER] + s[i + 1..];
        Reference(s[2..i])
  }

  function Tokens(s: Bytes): seq<Token> {
    if s == [] then [] else [First(s)] + Tokens(s[|Source(First(s))|..])
  }

  function SourceAll(ts: seq<Token>): Bytes {
    if ts == [] then [] else Source(ts[0]) + SourceAll(ts[1..])
  }

  /** Every byte of the input is in exactly one token, in order. */
  lemma {:induction false} TokensCoverInput(s: Bytes)
    ensures SourceAll(Tokens(s)) == s
  {
    if s == [] {
    } else {
      var rest := s[|Source(First(s))|..];
      TokensCoverInput(rest);
      assert Tokens(s)[1..] == Tokens(rest);
    }
  }

  // ---------- Rendering ----------

  /** Converting a byte to a string reads it as a code point and encodes that. */
  function Utf8(b: Byte): Bytes {
    if b < 0x80 then [b] else [0xC0 + b / 64, 0x80 + b % 64]
  }

  /** What a token that is not a reference stands for. */
  function Plain(t: Token): Bytes
    requires !t.Reference?
  {
    match t
    case Literal(b) => [b]
    case Escaped => [OPERATOR]
    case Unterminated => [OPERATOR, OPENER]
    case Bare(b) => [OPERATOR] + Utf8(b)
    case Trailing => [OPERATOR]
  }

  function Render(t: Token, mapping: Bytes -> Bytes): Bytes
  {
    if t.Reference? then mapping(t.name) else Plain(t)
  }

  function RenderAll(ts: seq<Token>, mapping: Bytes -> Bytes): Bytes
  {
    if ts == [] then [] else Render(ts[0], mapping) + RenderAll(ts[1..], mapping)
  }

  /** The meaning of an input. */
  function Meaning(s: Bytes, mapping: Bytes -> Bytes): Bytes
  {
    RenderAll(Tokens(s), mapping)
  }

  lemma MeaningUnfolds(s: Bytes, mapping: Bytes -> Bytes)
    requires s != []
    ensures Meaning(s, mapping) == Render(First(s), mapping) + Meaning(s[|Source(First(s))|..], mapping)
  {
    assert Tokens(s)[1..] == Tokens(s[|Source(First(s))|..]);
  }

  // ---------- The program ----------

  method TryReadVariableName(input: Bytes) returns (read: Bytes, isVar: bool, advance: nat)
    requires input != []
    ensures var t := First([OPERATOR] + input);
            && advance == |Source(t)| - 1 && advance <= |input|
            && isVar == t.Reference?
            && read == if isVar then t.name else Plain(t)
  {
    var whole := [OPERATOR] + input;
    if input[0] == OPERATOR {
      return input[0..1], false, 1;
    } else if input[0] == OPENER {
      var i := 1;
      while i < |input|
        invariant 1 <= i <= |input|
        invariant forall j | 2 <= j < i + 1 :: whole[j] != CLOSER
      {
        if input[i] == CLOSER {
          assert whole[i + 1] == CLOSER;
          assert Closer(whole, 2) == i + 1;
          assert input[1..i] == whole[2..i + 1];
          return input[1..i], true, i + 1;
        }
        i := i + 1;
      }
      return [OPERATOR, OPENER], false, 1;
    } else {
      return [OPERATOR] + Utf8(input[0]), false, 1;
    }
  }

  /**
   The mapping may read anything that can change between calls; `answers` is what it answers during
   this one.
   */
  method Expand(input: Bytes, mapping: Bytes ~> Bytes, ghost answers: Bytes -> Bytes) returns (r: Bytes)
    requires forall n :: mapping.requires(n) && mapping(n) == answers(n)
    ensures r == Meaning(input, answers)
  {
    hide Meaning, First, Plain;
    var buf: Bytes := [];
    var checkpoint := 0;
    var cursor := 0;
    ghost var done: Bytes := []; // what the input so far has become
    assert input[0..] == input;
    while cursor < |input|
      invariant 0 <= checkpoint <= cursor <= |input|
      invariant done == buf + input[checkpoint..cursor]
      invariant Meaning(input, answers) == done + Meaning(input[cursor..], answers)
    {
      ghost var t, was := First(input[cursor..]), done;
      StepUnfolds(input, cursor, answers, done);
      done := was + Render(t, answers);
      if input[cursor] == OPERATOR && cursor + 1 < |input| {
        buf := buf + input[checkpoint..cursor];
        assert buf == was;
        TailIsRest(input, cursor);
        var read, isVar, advance := TryReadVariableName(input[cursor + 1..]);
        if isVar {
          buf := buf + mapping(read);
        } else {
          buf := buf + read;
        }
        cursor := cursor + advance;
        checkpoint := cursor + 1;
        assert buf == done && input[checkpoint..cursor + 1] == [];
      } else {
        OneMoreCopied(buf, input, checkpoint, cursor);
      }
      cursor := cursor + 1;
    }
    MeaningOfNothing(answers);
    assert input[cursor..] == [] && input[checkpoint..] == input[checkpoint..cursor];
    return buf + input[checkpoint..];
  }

  lemma TailIsRest(input: Bytes, cursor: nat)
    requires cursor < |input|
    ensures [input[cursor]] + input[cursor + 1..] == input[cursor..]
  {}

  lemma OneMoreCopied(buf: Bytes, input: Bytes, checkpoint: nat, cursor: nat)
    requires checkpoint <= cursor < |input|
    ensures buf + input[checkpoint..cursor] + [input[cursor]] == buf + input[checkpoint..cursor + 1]
  {}

  lemma MeaningOfNothing(mapping: Bytes -> Bytes)
    ensures Meaning([], mapping) == []
  {}

  /** One token further into the input. */
  lemma StepUnfolds(input: Bytes, cursor: nat, mapping: Bytes -> Bytes, done: Bytes)
    requires cursor < |input|
    ensures var t := First(input[cursor..]); var next := cursor + |Source(t)|;
            && next <= |input|
            && done + Meaning(input[cursor..], mapping) == done + Render(t, mapping) + Meaning(input[next..], mapping)
            && (input[cursor] != OPERATOR || cursor + 1 == |input| ==>
                  Render(t, mapping) == [input[cursor]] && |Source(t)| == 1)
  {
    hide Meaning, Tokens;
    var rest := input[cursor..];
    MeaningUnfolds(rest, mapping);
    assert rest[|Source(First(rest))|..] == input[cursor + |Source(First(rest))|..];
  }
}
