/** Normalisation of panel output before parsing (providers/smallhost/parsers.go). */
module OutputNormalizer {
  type Byte = bv8
  type Bytes = seq<Byte>

  const MAX_OUTPUT := 0x10_0000
  const ESC: Byte := 0x1b
  const LF: Byte := 0x0a
  const CR: Byte := 0x0d
  const TAB: Byte := 0x09

  predicate IsParam(b: Byte) { (0x30 <= b <= 0x39) || b == 0x3b }                 // [0-9;]

  predicate IsLetter(b: Byte) { (0x41 <= b <= 0x5a) || (0x61 <= b <= 0x7a) }      // [A-Za-z]

  /** Number of leading parameter bytes. */
  function ParamRun(s: Bytes): (n: nat)
    ensures n <= |s|
  {
    if s == [] || !IsParam(s[0]) then 0 else 1 + ParamRun(s[1..])
  }

  /** Length of the match of \x1b\[[0-9;]*[A-Za-z] at the front, or 0. */
  function EscapeLength(s: Bytes): (n: nat)
    ensures n <= |s|
  {
    if |s| < 3 || s[0] != ESC || s[1] != 0x5b then 0
    else
      var k := 2 + ParamRun(s[2..]);
      if k < |s| && IsLetter(s[k]) then k + 1 else 0
  }

  /** ReplaceAll of the escape pattern by nothing: leftmost matches, one pass. */
  function StripEscapes(s: Bytes): Bytes
    decreases |s|
  {
    if s == [] then []
    else if EscapeLength(s) > 0 then StripEscapes(s[EscapeLength(s)..])
    else [s[0]] + StripEscapes(s[1..])
  }

  function JoinCrLf(s: Bytes): Bytes
    decreases |s|
  {
    if s == [] then []
    else if |s| >= 2 && s[0] == CR && s[1] == LF then [LF] + JoinCrLf(s[2..])
    else [s[0]] + JoinCrLf(s[1..])
  }

  function CrToLf(s: Bytes): Bytes {
    if s == [] then [] else [if s[0] == CR then LF else s[0]] + CrToLf(s[1..])
  }

  predicate Printable(b: Byte) { b == LF || b == TAB || 0x20 <= b < 0x7f }

  predicate AllPrintable(s: Bytes) { forall i :: 0 <= i < |s| ==> Printable(s[i]) }

  datatype Result = Clean(bytes: Bytes) | TooLarge | NonPrintable(offset: nat)

  function Rewrite(raw: Bytes): Bytes { CrToLf(JoinCrLf(StripEscapes(raw))) }

  method StripAndNormalize(raw: Bytes) returns (r: Result)
    ensures r.TooLarge? <==> |raw| > MAX_OUTPUT
    ensures r.Clean? <==> |raw| <= MAX_OUTPUT && AllPrintable(Rewrite(raw))
    ensures r.Clean? ==> r.bytes == Rewrite(raw)
    ensures r.NonPrintable? ==> r.offset < |Rewrite(raw)| && !Printable(Rewrite(raw)[r.offset])
                                && AllPrintable(Rewrite(raw)[..r.offset])
  {
    if |raw| > MAX_OUTPUT { return TooLarge; }
    var clean := StripEscapes(raw);
    clean := JoinCrLf(clean);
    clean := CrToLf(clean);
    for i := 0 to |clean|
      invariant forall j :: 0 <= j < i ==> Printable(clean[j])
    {
      var b := clean[i];
      if b == LF || b == TAB { continue; }
      if b < 0x20 || b == 0x7f || b >= 0x80 { return NonPrintable(i); }
    }
    r := Clean(clean);
  }

  // -------------------------------------------------------------- properties

  lemma {:induction false} StripShrinks(s: Bytes)
    ensures |StripEscapes(s)| <= |s|
    decreases |s|
  {
    if s != [] {
      if EscapeLength(s) > 0 { StripShrinks(s[EscapeLength(s)..]); } else { StripShrinks(s[1..]); }
    }
  }

  lemma {:induction false} JoinShrinks(s: Bytes)
    ensures |JoinCrLf(s)| <= |s|
    decreases |s|
  {
    if s != [] {
      if |s| >= 2 && s[0] == CR && s[1] == LF { JoinShrinks(s[2..]); } else { JoinShrinks(s[1..]); }
    }
  }

  lemma {:induction false} CrToLfAt(s: Bytes)
    ensures |CrToLf(s)| == |s|
    ensures forall i :: 0 <= i < |s| ==> CrToLf(s)[i] == if s[i] == CR then LF else s[i]
  {
    if s != [] { CrToLfAt(s[1..]); }
  }

  /** Printable text holds no escape byte and no CR, so the rewriting leaves it alone. */
  lemma {:induction false} PrintableIsUntouched(s: Bytes)
    requires AllPrintable(s)
    ensures StripEscapes(s) == s && JoinCrLf(s) == s && CrToLf(s) == s
    decreases |s|
  {
    if s != [] {
      assert Printable(s[0]);
      PrintableIsUntouched(s[1..]);
      assert s == [s[0]] + s[1..];
    }
  }

  /** Whenever the raw output is accepted, the text handed on is no longer than it, holds
      only printable ASCII, tabs and newlines, and is accepted unchanged a second time. */
  lemma AcceptedOutputIsAFixedPoint(raw: Bytes)
    requires |raw| <= MAX_OUTPUT && AllPrintable(Rewrite(raw))
    ensures var out := Rewrite(raw);
            && |out| <= |raw|
            && (forall i :: 0 <= i < |out| ==> out[i] == LF || out[i] == TAB || 0x20 <= out[i] <= 0x7e)
            && |out| <= MAX_OUTPUT && AllPrintable(Rewrite(out)) && Rewrite(out) == out
  {
    StripShrinks(raw);
    JoinShrinks(StripEscapes(raw));
    CrToLfAt(JoinCrLf(StripEscapes(raw)));
    PrintableIsUntouched(Rewrite(raw));
  }

  /** One pass of stripping may splice a new escape sequence together, so stripping alone
      is not idempotent; the byte check is what rejects such output. */
  lemma SplicedEscapeIsRejected()
    ensures var raw: Bytes := [ESC, ESC, 0x5b, 0x6d, 0x5b, 0x6d];
            && StripEscapes(raw) == [ESC, 0x5b, 0x6d]
            && StripEscapes(StripEscapes(raw)) == []
            && !AllPrintable(Rewrite(raw))
  {
    var raw: Bytes := [ESC, ESC, 0x5b, 0x6d, 0x5b, 0x6d];
    var tail: Bytes := [0x5b, 0x6d];
    assert raw[1..] == [ESC, 0x5b, 0x6d, 0x5b, 0x6d];
    var seq3: Bytes := [ESC, 0x5b, 0x6d];
    assert EscapeLength(raw) == 0;
    var rest := raw[1..];
    assert rest[2..] == [0x6d, 0x5b, 0x6d];
    assert ParamRun(rest[2..]) == 0;
    assert EscapeLength(rest) == 3;
    assert rest[3..] == tail;
    assert tail[1..] == [0x6d];
    assert StripEscapes([0x6d]) == [0x6d];
    assert StripEscapes(tail) == tail;
    assert StripEscapes(raw) == [ESC] + tail == seq3;
    assert seq3[2..] == [0x6d];
    assert ParamRun(seq3[2..]) == 0;
    assert EscapeLength(seq3) == 3;
    assert seq3[3..] == [];
    assert Rewrite(raw)[0] == ESC;
  }

  // ---------------------------------------------------- what is taken out and what stays

  /** A piece of terminal output: text, or one complete escape sequence such as ESC "[1;31m". */
  datatype Piece = Text(bytes: Bytes) | Escape(params: Bytes, final: Byte)

  const DIGITS_AND_SEMICOLON: set<Byte> :=
    {0x30, 0x31, 0x32, 0x33, 0x34, 0x35, 0x36, 0x37, 0x38, 0x39, 0x3b}

  /** Text is free of the escape byte; a sequence has digits and semicolons and ends in a letter. */
  predicate WellFormed(p: Piece) {
    match p
    case Text(bytes) => forall i :: 0 <= i < |bytes| ==> bytes[i] != 0x1b
    case Escape(params, final) =>
      && (forall i :: 0 <= i < |params| ==> params[i] in DIGITS_AND_SEMICOLON)
      && ('A' as int <= final as int <= 'Z' as int || 'a' as int <= final as int <= 'z' as int)
  }

  function Render(p: Piece): Bytes {
    match p
    case Text(bytes) => bytes
    case Escape(params, final) => [0x1b, 0x5b] + params + [final]
  }

  function RenderAll(ps: seq<Piece>): Bytes { if ps == [] then [] else Render(ps[0]) + RenderAll(ps[1..]) }

  function TextOnly(ps: seq<Piece>): Bytes {
    if ps == [] then [] else (if ps[0].Text? then ps[0].bytes else []) + TextOnly(ps[1..])
  }

  lemma {:induction false} ParamsRun(params: Bytes, final: Byte, rest: Bytes)
    requires WellFormed(Escape(params, final))
    ensures ParamRun(params + [final] + rest) == |params|
    decreases |params|
  {
    var s := params + [final] + rest;
    if params != [] {
      assert params[0] in DIGITS_AND_SEMICOLON;
      assert IsParam(s[0]);
      assert s[1..] == params[1..] + [final] + rest;
      ParamsRun(params[1..], final, rest);
    } else {
      assert s[0] == final;
    }
  }

  lemma EscapeIsTaken(params: Bytes, final: Byte, rest: Bytes)
    requires WellFormed(Escape(params, final))
    ensures StripEscapes(Render(Escape(params, final)) + rest) == StripEscapes(rest)
  {
    var s := Render(Escape(params, final)) + rest;
    ParamsRun(params, final, rest);
    assert s[2..] == params + [final] + rest;
    assert s[2 + |params|] == final;
    assert EscapeLength(s) == |params| + 3;
    assert s[|params| + 3..] == rest;
  }

  lemma {:induction false} TextStays(bytes: Bytes, rest: Bytes)
    requires WellFormed(Text(bytes))
    ensures StripEscapes(bytes + rest) == bytes + StripEscapes(rest)
    decreases |bytes|
  {
    if bytes == [] {
      assert bytes + rest == rest;
    } else {
      var s := bytes + rest;
      assert EscapeLength(s) == 0;
      assert s[1..] == bytes[1..] + rest;
      TextStays(bytes[1..], rest);
      assert bytes == [bytes[0]] + bytes[1..];
    }
  }

  /** Whatever the text, however many complete escape sequences stand in it, at either end or next to
      each other: exactly they are taken out, and exactly the text stays. */
  lemma {:induction false} EscapesAreTakenOut(ps: seq<Piece>)
    requires forall i :: 0 <= i < |ps| ==> WellFormed(ps[i])
    ensures StripEscapes(RenderAll(ps)) == TextOnly(ps)
    decreases |ps|
  {
    if ps != [] {
      EscapesAreTakenOut(ps[1..]);
      match ps[0]
      case Text(bytes) => TextStays(bytes, RenderAll(ps[1..]));
      case Escape(params, final) => EscapeIsTaken(params, final, RenderAll(ps[1..]));
    }
  }

  /** Line ends, byte by byte and looking only back: a line feed right after a carriage return adds
      nothing, any other line end is one line feed, and all other bytes stay. */
  function UnixLines(s: Bytes): Bytes { if s == [] then [] else UnixLines(s[..|s| - 1]) + LastPart(s) }

  /** What the last byte adds. */
  function LastPart(s: Bytes): Bytes
    requires s != []
  {
    var n := |s| - 1;
    if s[n] == 0x0a && n > 0 && s[n - 1] == 0x0d then [] else if s[n] == 0x0d then [0x0a] else [s[n]]
  }

  /** What follows the first byte, or the first two if they are one line end. */
  function AfterFirst(s: Bytes): Bytes
    requires s != []
  {
    if s[0] == 0x0d && |s| > 1 && s[1] == 0x0a then s[2..] else s[1..]
  }

  lemma AfterFirstEnds(s: Bytes)
    requires |s| > 1 && AfterFirst(s) != []
    ensures var r := AfterFirst(s);
            r[..|r| - 1] == AfterFirst(s[..|s| - 1]) && LastPart(r) == LastPart(s)
  {
    var r, f := AfterFirst(s), s[..|s| - 1];
    assert r[|r| - 1] == s[|s| - 1];
    assert |r| > 1 ==> r[|r| - 2] == s[|s| - 2];
    if s[0] == 0x0d && s[1] == 0x0a {
      assert f[2..] == r[..|r| - 1];
    } else {
      assert f[1..] == r[..|r| - 1];
    }
  }

  lemma {:induction false} UnixLinesFront(s: Bytes)
    requires s != []
    ensures UnixLines(s) == FirstPart(s[0]) + UnixLines(AfterFirst(s))
    decreases |s|
  {
    if AfterFirst(s) == [] {
      OneLineEnd(s);
    } else {
      var f, r, head := s[..|s| - 1], AfterFirst(s), FirstPart(s[0]);
      UnixLinesFront(f);
      AfterFirstEnds(s);
      var front := UnixLines(AfterFirst(f));
      assert UnixLines(r) == front + LastPart(s);
      assert UnixLines(s) == head + front + LastPart(s);
      assert head + front + LastPart(s) == head + (front + LastPart(s));
    }
  }

  function FirstPart(b: Byte): Bytes { if b == 0x0d then [0x0a] else [b] }

  lemma OneLineEnd(s: Bytes)
    requires s != [] && AfterFirst(s) == []
    ensures UnixLines(s) == FirstPart(s[0])
  {
    assert UnixLines([s[0]]) == UnixLines([]) + LastPart([s[0]]) by { assert [s[0]][..0] == []; }
    if |s| == 2 { assert s[..1] == [s[0]]; } else { assert s == [s[0]]; }
  }

  /** The two replacements of the program give exactly that. */
  lemma {:induction false} LineEndsAreUnified(s: Bytes)
    ensures CrToLf(JoinCrLf(s)) == UnixLines(s)
    decreases |s|
  {
    if s != [] {
      UnixLinesFront(s);
      if |s| >= 2 && s[0] == CR && s[1] == LF {
        LineEndsAreUnified(s[2..]);
      } else {
        LineEndsAreUnified(s[1..]);
      }
    }
  }

  /** Nothing but complete sequences goes. */
  lemma OnlySequencesGo(s: Bytes)
    requires EscapeLength(s) > 0
    ensures exists params, final ::
              WellFormed(Escape(params, final)) && s[..EscapeLength(s)] == Render(Escape(params, final))
  {
    var n := EscapeLength(s);
    var params, final := s[2..n - 1], s[n - 1];
    ParamsAreParams(s[2..]);
    assert s[2..][..n - 3] == params;
    assert s[..n] == Render(Escape(params, final));
    assert WellFormed(Escape(params, final));
  }

  lemma {:induction false} ParamsAreParams(s: Bytes)
    ensures forall i :: 0 <= i < ParamRun(s) ==> s[i] in DIGITS_AND_SEMICOLON
  {
    if s != [] && IsParam(s[0]) {
      ParamsAreParams(s[1..]);
      assert s[0] in DIGITS_AND_SEMICOLON;
      assert forall i :: 1 <= i < ParamRun(s) ==> s[i] == s[1..][i - 1];
    }
  }

  /** Up to a mebibyte of printable ASCII with tabs and line feeds is accepted as it is; one byte more
      is too much, and any other byte is not accepted. */
  lemma PlainTextIsAccepted(raw: Bytes)
    ensures (forall i :: 0 <= i < |raw| ==> raw[i] == 0x09 || raw[i] == 0x0a || 32 <= raw[i] as int <= 126)
            <==> AllPrintable(raw)
    ensures AllPrintable(raw) ==> Rewrite(raw) == raw
    ensures |raw| <= 1024 * 1024 <==> |raw| <= MAX_OUTPUT
  {
    assert forall b: Byte :: Printable(b) <==> b == 0x09 || b == 0x0a || 32 <= b as int <= 126 by {
      forall b: Byte ensures Printable(b) <==> b == 0x09 || b == 0x0a || 32 <= b as int <= 126 {
        assert 0x20 <= b <==> 32 <= b as int;
        assert b < 0x7f <==> b as int <= 126;
      }
    }
    if AllPrintable(raw) { PrintableIsUntouched(raw); }
  }
}
