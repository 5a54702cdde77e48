/** The pass that escapes raw control characters inside the string literals of a JSON text. */
module Scanner {
  /** `in_string` and `escaped`; the second is only ever set inside a string. */
  datatype Mode = Outside | Inside | AfterBackslash

  function Step(m: Mode, c: char): Mode {
    match m
    case Outside => if c == '"' then Inside else Outside
    case Inside => if c == '\\' then AfterBackslash else if c == '"' then Outside else Inside
    case AfterBackslash => Inside
  }

  /** The mode after a text. */
  function Scan(m: Mode, text: string): Mode
    decreases |text|
  {
    if text == [] then m else Scan(Step(m, text[0]), text[1..])
  }

  predicate Control(c: char) {
    c == '\n' || c == '\r' || c == '\t'
  }

  /** What is written for one character that is read in a mode. */
  function Written(m: Mode, c: char): string {
    if m == Inside && Control(c)
    then ['\\', if c == '\n' then 'n' else if c == '\r' then 'r' else 't']
    else [c]
  }

  function Escaped(m: Mode, text: string): string
    decreases |text|
  {
    if text == [] then [] else Written(m, text[0]) + Escaped(Step(m, text[0]), text[1..])
  }

  lemma Associative(a: string, b: string, c: string)
    ensures a + (b + c) == a + b + c
  {
  }

  lemma {:induction false} EscapedSplits(m: Mode, a: string, b: string)
    ensures Escaped(m, a + b) == Escaped(m, a) + Escaped(Scan(m, a), b)
    decreases |a|
  {
    if a == [] {
      assert a + b == b;
    } else {
      var next, w := Step(m, a[0]), Written(m, a[0]);
      EscapedSplits(next, a[1..], b);
      assert (a + b)[1..] == a[1..] + b;
      Associative(w, Escaped(next, a[1..]), Escaped(Scan(m, a), b));
    }
  }

  lemma {:induction false} ScanSplits(m: Mode, a: string, b: string)
    ensures Scan(m, a + b) == Scan(Scan(m, a), b)
    decreases |a|
  {
    if a == [] {
      assert a + b == b;
    } else {
      ScanSplits(Step(m, a[0]), a[1..], b);
      assert (a + b)[1..] == a[1..] + b;
    }
  }

  lemma OneMore(text: string, i: nat)
    requires i < |text|
    ensures
      var m := Scan(Outside, text[..i]);
      && Scan(Outside, text[..i + 1]) == Step(m, text[i])
      && Escaped(Outside, text[..i + 1]) == Escaped(Outside, text[..i]) + Written(m, text[i])
  {
    var m := Scan(Outside, text[..i]);
    assert text[..i + 1] == text[..i] + [text[i]];
    ScanSplits(Outside, text[..i], [text[i]]);
    EscapedSplits(Outside, text[..i], [text[i]]);
    assert Scan(m, [text[i]]) == Step(m, text[i]);
    assert Escaped(m, [text[i]]) == Written(m, text[i]) + Escaped(Step(m, text[i]), []);
  }

  /** The mode that the two flags stand for. */
  function ModeOf(inString: bool, escaped: bool): Mode {
    if !inString then Outside else if escaped then AfterBackslash else Inside
  }

  /** `_escape_literal_control_chars`. */
  method EscapeLiteralControlChars(text: string) returns (out: string)
    ensures out == Escaped(Outside, text)
  {
    out := [];
    var inString, escaped := false, false;
    for i := 0 to |text|
      invariant !inString ==> !escaped
      invariant ModeOf(inString, escaped) == Scan(Outside, text[..i])
      invariant out == Escaped(Outside, text[..i])
    {
      var c := text[i];
      OneMore(text, i);
      if inString {
        if escaped {
          escaped := false;
        } else if c == '\\' {
          escaped := true;
        } else if c == '"' {
          inString := false;
        } else if c == '\n' {
          out := out + "\\n";
          continue;
        } else if c == '\r' {
          out := out + "\\r";
          continue;
        } else if c == '\t' {
          out := out + "\\t";
          continue;
        }
      } else if c == '"' {
        inString := true;
      }
      out := out + [c];
    }
    assert text[..|text|] == text;
  }

  // ---- the scanner stays in step

  lemma StepOverWritten(m: Mode, c: char)
    ensures Scan(m, Written(m, c)) == Step(m, c)
  {
    if m == Inside && Control(c) {
      var w := Written(m, c);
      assert w[1..] == [w[1]];
      assert Scan(AfterBackslash, [w[1]]) == Scan(Inside, []);
    } else {
      assert Scan(m, [c]) == Scan(Step(m, c), []);
    }
  }

  /** After every part of the text the scanner is in the mode it would have on the output. */
  lemma {:induction false} ScannerStaysInStep(m: Mode, text: string)
    ensures Scan(m, Escaped(m, text)) == Scan(m, text)
    decreases |text|
  {
    if text != [] {
      var next := Step(m, text[0]);
      ScannerStaysInStep(next, text[1..]);
      ScanSplits(m, Written(m, text[0]), Escaped(next, text[1..]));
      StepOverWritten(m, text[0]);
    }
  }

  // ---- no raw control characters are left

  /** A line feed, a carriage return or a tab. */
  const RAW: string := ['\n', '\r', '\t']

  /** No such character is read inside a literal, except directly after a backslash. */
  predicate Clean(m: Mode, text: string)
    decreases |text|
  {
    text != [] ==> !(m == Inside && text[0] in RAW) && Clean(Step(m, text[0]), text[1..])
  }

  /** The same, said of every place of the text. */
  lemma {:induction false} CleanEverywhere(m: Mode, text: string)
    ensures Clean(m, text) <==> forall i :: 0 <= i < |text| && text[i] in RAW ==> Scan(m, text[..i]) != Inside
    decreases |text|
  {
    if text != [] {
      var next, rest := Step(m, text[0]), text[1..];
      CleanEverywhere(next, rest);
      forall i | 0 < i < |text| ensures Scan(m, text[..i]) == Scan(next, rest[..i - 1]) {
        assert text[..i][1..] == rest[..i - 1];
      }
      assert text[..0] == [];
      if forall i :: 0 <= i < |text| && text[i] in RAW ==> Scan(m, text[..i]) != Inside {
        forall i | 0 <= i < |rest| && rest[i] in RAW ensures Scan(next, rest[..i]) != Inside {
          assert text[i + 1] == rest[i];
        }
      }
    }
  }

  lemma {:induction false} CleanSplits(m: Mode, a: string, b: string)
    ensures Clean(m, a + b) <==> Clean(m, a) && Clean(Scan(m, a), b)
    decreases |a|
  {
    if a == [] {
      assert a + b == b;
    } else {
      CleanSplits(Step(m, a[0]), a[1..], b);
      assert (a + b)[1..] == a[1..] + b;
    }
  }

  lemma {:induction false} NoRawControlIsLeft(m: Mode, text: string)
    ensures Clean(m, Escaped(m, text))
    decreases |text|
  {
    if text != [] {
      var next, w := Step(m, text[0]), Written(m, text[0]);
      NoRawControlIsLeft(next, text[1..]);
      StepOverWritten(m, text[0]);
      assert Clean(m, w) by {
        assert w[1..] == if |w| == 2 then [w[1]] else [];
      }
      CleanSplits(m, w, Escaped(next, text[1..]));
    }
  }

  /** Exactly the clean texts are left alone. */
  lemma {:induction false} UnchangedIffClean(m: Mode, text: string)
    ensures Escaped(m, text) == text <==> Clean(m, text)
    decreases |text|
  {
    if text != [] {
      var next := Step(m, text[0]);
      UnchangedIffClean(next, text[1..]);
      assert text == [text[0]] + text[1..];
      if m == Inside && Control(text[0]) {
        assert Escaped(m, text)[0] == '\\';
      } else {
        assert Escaped(m, text)[1..] == Escaped(next, text[1..]);
      }
    }
  }

  lemma Idempotent(m: Mode, text: string)
    ensures Escaped(m, Escaped(m, text)) == Escaped(m, text)
  {
    NoRawControlIsLeft(m, text);
    UnchangedIffClean(m, Escaped(m, text));
  }

  // ---- what the text says stays the same

  /** One character of the text outside its literals, or one character that a literal stands for. */
  datatype Token = Raw(c: char) | Quoted(c: char) | Escape(c: char)

  function EscapeToken(c: char): Token {
    if c == 'n' then Quoted('\n') else if c == 'r' then Quoted('\r') else if c == 't' then Quoted('\t') else Escape(c)
  }

  /** The lenient reading: a raw control character in a literal stands for itself. */
  function Read(m: Mode, text: string): seq<Token>
    decreases |text|
  {
    if text == [] then []
    else
      var c, rest := text[0], Read(Step(m, text[0]), text[1..]);
      match m
      case Outside => [Raw(c)] + rest
      case Inside => if c == '\\' then rest else if c == '"' then [Raw(c)] + rest else [Quoted(c)] + rest
      case AfterBackslash => [EscapeToken(c)] + rest
  }

  /** Nothing outside the literals changes, and every literal stands for the same characters. */
  lemma {:induction false} MeaningIsKept(m: Mode, text: string)
    ensures Read(m, Escaped(m, text)) == Read(m, text)
    decreases |text|
  {
    if text != [] {
      var next, w := Step(m, text[0]), Written(m, text[0]);
      var tail := Escaped(next, text[1..]);
      MeaningIsKept(next, text[1..]);
      assert (w + tail)[0] == w[0];
      if |w| == 2 {
        assert (w + tail)[1..] == [w[1]] + tail;
        assert ([w[1]] + tail)[1..] == tail;
      } else {
        assert (w + tail)[1..] == tail;
      }
    }
  }

  // ---- the same, literal by literal

  /** A character other than a quote or a backslash, or a backslash with the character after it. */
  predicate IsPiece(p: string) {
    (|p| == 1 && p[0] != '"' && p[0] != '\\') || (|p| == 2 && p[0] == '\\')
  }

  predicate ArePieces(pieces: seq<string>) {
    forall i :: 0 <= i < |pieces| ==> IsPiece(pieces[i])
  }

  function Flat(pieces: seq<string>): string {
    if pieces == [] then "" else pieces[0] + Flat(pieces[1..])
  }

  function FixedPiece(p: string): string {
    if p == ['\n'] then ['\\', 'n'] else if p == ['\r'] then ['\\', 'r'] else if p == ['\t'] then ['\\', 't'] else p
  }

  function Fixed(pieces: seq<string>): string {
    if pieces == [] then "" else FixedPiece(pieces[0]) + Fixed(pieces[1..])
  }

  lemma PieceIsFixed(p: string, rest: string)
    requires IsPiece(p)
    ensures Escaped(Inside, p + rest) == FixedPiece(p) + Escaped(Inside, rest)
  {
    if |p| == 1 {
      assert (p + rest)[1..] == rest;
    } else {
      var t := [p[1]] + rest;
      assert (p + rest)[1..] == t && t[1..] == rest;
      assert Escaped(AfterBackslash, t) == [p[1]] + Escaped(Inside, rest);
      assert p == [p[0]] + [p[1]];
    }
  }

  lemma {:induction false} PiecesAreFixed(pieces: seq<string>, rest: string)
    requires ArePieces(pieces)
    ensures Escaped(Inside, Flat(pieces) + rest) == Fixed(pieces) + Escaped(Inside, rest)
    decreases |pieces|
  {
    if pieces == [] {
      assert Flat(pieces) + rest == rest;
    } else {
      PiecesAreFixed(pieces[1..], rest);
      PieceIsFixed(pieces[0], Flat(pieces[1..]) + rest);
      Associative(pieces[0], Flat(pieces[1..]), rest);
      Associative(FixedPiece(pieces[0]), Fixed(pieces[1..]), Escaped(Inside, rest));
    }
  }

  /** A whole literal: exactly its raw line feeds, carriage returns and tabs are replaced by their escapes. */
  lemma LiteralIsFixed(pieces: seq<string>, rest: string)
    requires ArePieces(pieces)
    ensures Escaped(Outside, ['"'] + Flat(pieces) + ['"'] + rest) == ['"'] + Fixed(pieces) + ['"'] + Escaped(Outside, rest)
  {
    var tail := ['"'] + rest;
    InQuotes(Flat(pieces), rest);
    InQuotes(Fixed(pieces), Escaped(Outside, rest));
    QuoteFirst(Outside, Inside, Flat(pieces) + tail);
    PiecesAreFixed(pieces, tail);
    QuoteFirst(Inside, Outside, rest);
  }

  lemma InQuotes(inner: string, rest: string)
    ensures ['"'] + inner + ['"'] + rest == ['"'] + (inner + (['"'] + rest))
  {
  }

  lemma QuoteFirst(m: Mode, next: Mode, t: string)
    requires m != AfterBackslash && next == Step(m, '"')
    ensures Escaped(m, ['"'] + t) == ['"'] + Escaped(next, t)
  {
    assert (['"'] + t)[1..] == t;
  }

  /** Outside literals nothing is replaced. */
  lemma {:induction false} OutsideStays(plain: string, rest: string)
    requires '"' !in plain
    ensures Escaped(Outside, plain + rest) == plain + Escaped(Outside, rest)
    decreases |plain|
  {
    if plain == [] {
      assert plain + rest == rest;
    } else {
      OutsideStays(plain[1..], rest);
      assert (plain + rest)[1..] == plain[1..] + rest;
      Associative([plain[0]], plain[1..], Escaped(Outside, rest));
      assert plain == [plain[0]] + plain[1..];
    }
  }
}
