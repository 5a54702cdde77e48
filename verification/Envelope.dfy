/** Reading a JSON string that may still be arriving, and undoing its escapes. */
module Envelope {
  import opened Options

  /** A UTF-16 code unit. */
  type Unit = u: int | 0 <= u < 0x1_0000

  type Text = seq<Unit>

  const QUOTE: Unit := 0x22
  const BACKSLASH: Unit := 0x5C
  const LETTER_U: Unit := 0x75

  // ---- escapes

  /** The letter after a backslash that stands for one character. */
  function Simple(u: Unit): Option<Unit> {
    match u
    case 0x6E => Some(0x0A)
    case 0x72 => Some(0x0D)
    case 0x74 => Some(0x09)
    case 0x62 => Some(0x08)
    case 0x66 => Some(0x0C)
    case 0x22 => Some(0x22)
    case 0x5C => Some(0x5C)
    case 0x2F => Some(0x2F)
    case _ => None
  }

  predicate IsHex(u: Unit) {
    0x30 <= u <= 0x39 || 0x41 <= u <= 0x46 || 0x61 <= u <= 0x66
  }

  function HexDigit(u: Unit): (d: nat)
    requires IsHex(u)
    ensures d < 16
  {
    if u <= 0x39 then u - 0x30 else if u <= 0x46 then u - 0x41 + 10 else u - 0x61 + 10
  }

  predicate FourHex(t: Text) {
    |t| == 4 && IsHex(t[0]) && IsHex(t[1]) && IsHex(t[2]) && IsHex(t[3])
  }

  function HexValue(t: Text): Unit
    requires FourHex(t)
  {
    ((HexDigit(t[0]) * 16 + HexDigit(t[1])) * 16 + HexDigit(t[2])) * 16 + HexDigit(t[3])
  }

  /** A complete `\uXXXX` at the start of a text. */
  predicate UnicodeEscape(t: Text) {
    |t| >= 6 && t[0] == BACKSLASH && t[1] == LETTER_U && FourHex(t[2..6])
  }

  predicate SimpleEscape(t: Text) {
    |t| >= 2 && t[0] == BACKSLASH && Simple(t[1]).Some?
  }

  /** One unit of the result and the number of units it is spelled with. */
  datatype Spelled = Spelled(unit: Unit, length: nat)

  /** A backslash that starts neither kind of escape stays. */
  function First(t: Text): (r: Spelled)
    requires t != []
    ensures 1 <= r.length <= |t|
  {
    if UnicodeEscape(t) then Spelled(HexValue(t[2..6]), 6)
    else if SimpleEscape(t) then Spelled(Simple(t[1]).value, 2)
    else Spelled(t[0], 1)
  }

  function Decoded(t: Text): Text
    decreases |t|
  {
    if t == [] then [] else [First(t).unit] + Decoded(t[First(t).length..])
  }

  /** `out` is the decoded text before `index`. */
  predicate DecodedBefore(text: Text, index: nat, out: Text)
    requires index <= |text|
  {
    out + Decoded(text[index..]) == Decoded(text)
  }

  lemma DecodeOne(text: Text, index: nat, out: Text, u: Unit, k: nat)
    requires index < |text| && DecodedBefore(text, index, out)
    requires First(text[index..]) == Spelled(u, k)
    ensures index + k <= |text| && DecodedBefore(text, index + k, out + [u])
  {
    var t := text[index..];
    assert t[k..] == text[index + k..];
    Associative(out, [u], Decoded(t[k..]));
  }

  lemma Associative(a: Text, b: Text, c: Text)
    ensures a + (b + c) == a + b + c
  {
  }

  /** What the branches of the loop find out about the text from `index` on. */
  lemma FirstAt(text: Text, index: nat)
    requires index < |text|
    ensures
      var c := text[index];
      var hex := text[if index + 2 <= |text| then index + 2 else |text|..if index + 6 <= |text| then index + 6 else |text|];
      First(text[index..])
      == if c == BACKSLASH && index + 1 < |text| && text[index + 1] == LETTER_U && FourHex(hex) then Spelled(HexValue(hex), 6)
         else if c == BACKSLASH && index + 1 < |text| && Simple(text[index + 1]).Some?
         then Spelled(Simple(text[index + 1]).value, 2)
         else Spelled(c, 1)
  {
    var t := text[index..];
    if |t| >= 6 {
      assert t[2..6] == text[index + 2..index + 6];
    }
  }

  /** `decodeEscapes`. */
  method DecodeEscapes(text: Text) returns (out: Text)
    ensures out == Decoded(text)
  {
    out := [];
    var index := 0;
    while index < |text|
      invariant 0 <= index <= |text| && DecodedBefore(text, index, out)
    {
      var c := text[index];
      FirstAt(text, index);
      if c != BACKSLASH {
        DecodeOne(text, index, out, c, 1);
        out := out + [c];
        index := index + 1;
        continue;
      }
      if index + 1 >= |text| {
        DecodeOne(text, index, out, c, 1);
        out := out + [c];
        index := index + 1;
        break;
      }
      var next := text[index + 1];
      if next == LETTER_U {
        var hex := text[index + 2..if index + 6 <= |text| then index + 6 else |text|];
        if FourHex(hex) {
          DecodeOne(text, index, out, HexValue(hex), 6);
          out := out + [HexValue(hex)];
          index := index + 6;
          continue;
        }
      } else if Simple(next).Some? {
        DecodeOne(text, index, out, Simple(next).value, 2);
        out := out + [Simple(next).value];
        index := index + 2;
        continue;
      }
      DecodeOne(text, index, out, c, 1);
      out := out + [c];
      index := index + 1;
    }
    assert text[index..] == [];
  }

  // ---- the string

  /** What stands before the closing quote, or all there is. */
  function Body(t: Text): Text
    decreases |t|
  {
    if t == [] || t[0] == QUOTE then []
    else if t[0] == BACKSLASH && |t| > 1 then t[..2] + Body(t[2..])
    else t[..1] + Body(t[1..])
  }

  /** `out` is what was read before `index`. */
  predicate ReadBefore(source: Text, index: nat, out: Text)
    requires 1 <= index <= |source|
  {
    out + Body(source[index..]) == Body(source[1..])
  }

  lemma ReadNothing(source: Text)
    requires source != []
    ensures ReadBefore(source, 1, [])
  {
    assert [] + Body(source[1..]) == Body(source[1..]);
  }

  lemma ReadOne(source: Text, index: nat, out: Text)
    requires 1 <= index < |source| && ReadBefore(source, index, out)
    requires source[index] != QUOTE && (source[index] == BACKSLASH ==> index + 1 == |source|)
    ensures ReadBefore(source, index + 1, out + [source[index]])
  {
    var t := source[index..];
    assert t[1..] == source[index + 1..];
    assert t[..1] == [source[index]];
    Associative(out, t[..1], Body(t[1..]));
  }

  lemma ReadTwo(source: Text, index: nat, out: Text)
    requires 1 <= index && index + 1 < |source| && ReadBefore(source, index, out)
    requires source[index] == BACKSLASH
    ensures ReadBefore(source, index + 2, out + [source[index], source[index + 1]])
  {
    var t := source[index..];
    assert t[2..] == source[index + 2..];
    assert t[..2] == [source[index], source[index + 1]];
    Associative(out, t[..2], Body(t[2..]));
  }

  lemma ReadAll(source: Text, index: nat, out: Text)
    requires 1 <= index <= |source| && ReadBefore(source, index, out)
    requires index < |source| ==> source[index] == QUOTE
    ensures out == Body(source[1..])
  {
    assert Body(source[index..]) == [];
    assert out + [] == out;
  }

  /** `readString` on a text whose first unit is the opening quote. */
  method ReadString(source: Text) returns (out: Text)
    ensures out == if source == [] then [] else Body(source[1..])
  {
    out := [];
    if source == [] {
      return;
    }
    var index := 1;
    ReadNothing(source);
    while index < |source|
      invariant 1 <= index <= |source| && ReadBefore(source, index, out)
    {
      var c := source[index];
      if c == BACKSLASH {
        if index + 1 >= |source| {
          ReadOne(source, index, out);
          out := out + [c];
          index := index + 1;
          break;
        }
        var next := source[index + 1];
        ReadTwo(source, index, out);
        out := out + [c, next];
        index := index + 2;
        continue;
      }
      if c == QUOTE {
        ReadAll(source, index, out);
        return;
      }
      ReadOne(source, index, out);
      out := out + [c];
      index := index + 1;
    }
    ReadAll(source, index, out);
  }

  // ---- every way to escape a string (section 7 of RFC 8259)

  /** The two alphabets of hexadecimal digits; a digit is worth its position. */
  const UPPER_DIGITS: Text :=
    [0x30, 0x31, 0x32, 0x33, 0x34, 0x35, 0x36, 0x37, 0x38, 0x39, 0x41, 0x42, 0x43, 0x44, 0x45, 0x46]
  const LOWER_DIGITS: Text :=
    [0x30, 0x31, 0x32, 0x33, 0x34, 0x35, 0x36, 0x37, 0x38, 0x39, 0x61, 0x62, 0x63, 0x64, 0x65, 0x66]

  predicate Writes(x: Unit, d: nat) {
    d < 16 && (x == UPPER_DIGITS[d] || x == LOWER_DIGITS[d])
  }

  predicate WritesFour(p: Text, a: nat, b: nat, c: nat, d: nat) {
    |p| == 6 && Writes(p[2], a) && Writes(p[3], b) && Writes(p[4], c) && Writes(p[5], d)
  }

  /** A unit may be escaped by a letter, */
  predicate SpellsByLetter(p: Text, u: Unit) {
    || (p == [0x5C, 0x22] && u == 0x22)
    || (p == [0x5C, 0x5C] && u == 0x5C)
    || (p == [0x5C, 0x2F] && u == 0x2F)
    || (p == [0x5C, 0x62] && u == 0x08)
    || (p == [0x5C, 0x66] && u == 0x0C)
    || (p == [0x5C, 0x6E] && u == 0x0A)
    || (p == [0x5C, 0x72] && u == 0x0D)
    || (p == [0x5C, 0x74] && u == 0x09)
  }

  /** or by four hexadecimal digits of either case, */
  ghost predicate SpellsByDigits(p: Text, u: Unit) {
    && |p| == 6 && p[0] == 0x5C && p[1] == 0x75
    && exists a: nat, b: nat, c: nat, d: nat :: WritesFour(p, a, b, c, d) && u == 4096 * a + 256 * b + 16 * c + d
  }

  /** or stand for itself. */
  ghost predicate Spells(p: Text, u: Unit) {
    || (p == [u] && u >= 0x20 && u != 0x22 && u != 0x5C)
    || SpellsByLetter(p, u)
    || SpellsByDigits(p, u)
  }

  ghost predicate SpellsAll(pieces: seq<Text>, s: Text) {
    |pieces| == |s| && forall i :: 0 <= i < |s| ==> Spells(pieces[i], s[i])
  }

  function Flat(pieces: seq<Text>): Text {
    if pieces == [] then [] else pieces[0] + Flat(pieces[1..])
  }

  lemma DigitsAgree(x: Unit, d: nat)
    requires Writes(x, d)
    ensures IsHex(x) && HexDigit(x) == d
  {
    if d < 10 {
      assert UPPER_DIGITS[d] == 0x30 + d == LOWER_DIGITS[d];
    } else {
      assert UPPER_DIGITS[d] == 0x41 + (d - 10) && LOWER_DIGITS[d] == 0x61 + (d - 10);
    }
  }

  lemma HexIsWritten(x: Unit)
    requires IsHex(x)
    ensures Writes(x, HexDigit(x))
  {
    var d := HexDigit(x);
    if d < 10 {
      assert UPPER_DIGITS[d] == 0x30 + d;
    } else {
      assert UPPER_DIGITS[d] == 0x41 + (d - 10) && LOWER_DIGITS[d] == 0x61 + (d - 10);
    }
  }

  lemma DigitsRead(p: Text, u: Unit)
    requires SpellsByDigits(p, u)
    ensures UnicodeEscape(p) && HexValue(p[2..6]) == u
  {
    var a: nat, b: nat, c: nat, d: nat :| WritesFour(p, a, b, c, d) && u == 4096 * a + 256 * b + 16 * c + d;
    DigitsAgree(p[2], a);
    DigitsAgree(p[3], b);
    DigitsAgree(p[4], c);
    DigitsAgree(p[5], d);
  }

  lemma DigitsWritten(p: Text)
    requires |p| == 6 && UnicodeEscape(p)
    ensures SpellsByDigits(p, HexValue(p[2..6]))
  {
    forall i | 2 <= i < 6 ensures Writes(p[i], HexDigit(p[2..6][i - 2])) {
      HexIsWritten(p[i]);
    }
    var h := p[2..6];
    assert WritesFour(p, HexDigit(h[0]), HexDigit(h[1]), HexDigit(h[2]), HexDigit(h[3]));
  }

  lemma SpelledFirst(p: Text, u: Unit, rest: Text)
    requires Spells(p, u)
    ensures First(p + rest) == Spelled(u, |p|)
  {
    var t := p + rest;
    if SpellsByDigits(p, u) {
      DigitsRead(p, u);
      assert t[2..6] == p[2..6];
    } else if SpellsByLetter(p, u) {
      assert t[0] == p[0] && t[1] == p[1];
    }
  }

  lemma EscapeSpells(t: Text)
    requires t != [] && First(t).length > 1
    ensures Spells(t[..First(t).length], First(t).unit)
  {
    if UnicodeEscape(t) {
      assert t[..6][2..6] == t[2..6];
      DigitsWritten(t[..6]);
    } else {
      assert t[..2] == [t[0], t[1]];
      assert SpellsByLetter(t[..2], Simple(t[1]).value);
    }
  }

  ghost predicate StartsWithEscape(t: Text) {
    exists k: nat, u :: 2 <= k <= |t| && Spells(t[..k], u)
  }

  /** Where no escape starts the unit stands as it is, a lone backslash included. */
  lemma NothingElseIsDecoded(t: Text)
    requires t != [] && !StartsWithEscape(t)
    ensures Decoded(t) == [t[0]] + Decoded(t[1..])
  {
    if First(t).length > 1 {
      EscapeSpells(t);
    }
  }

  lemma DecodeSpelled(p: Text, u: Unit, rest: Text)
    requires Spells(p, u)
    ensures Decoded(p + rest) == [u] + Decoded(rest)
  {
    SpelledFirst(p, u, rest);
    assert (p + rest)[|p|..] == rest;
  }

  lemma {:induction false} DecodeAll(pieces: seq<Text>, s: Text, rest: Text)
    requires SpellsAll(pieces, s)
    ensures Decoded(Flat(pieces) + rest) == s + Decoded(rest)
    decreases |s|
  {
    if s == [] {
      assert Flat(pieces) + rest == rest;
      assert s + Decoded(rest) == Decoded(rest);
    } else {
      DecodeAll(pieces[1..], s[1..], rest);
      DecodeSpelled(pieces[0], s[0], Flat(pieces[1..]) + rest);
      Associative(pieces[0], Flat(pieces[1..]), rest);
      assert s == [s[0]] + s[1..];
      Associative([s[0]], s[1..], Decoded(rest));
    }
  }

  /** Neither quote nor backslash. */
  predicate Plain(t: Text) {
    forall i :: 0 <= i < |t| ==> t[i] != QUOTE && t[i] != BACKSLASH
  }

  lemma {:induction false} BodyOfPlain(t: Text, rest: Text)
    requires Plain(t)
    ensures Body(t + rest) == t + Body(rest)
    decreases |t|
  {
    if t == [] {
      assert t + rest == rest;
      assert t + Body(rest) == Body(rest);
    } else {
      BodyOfPlain(t[1..], rest);
      assert (t + rest)[1..] == t[1..] + rest;
      assert (t + rest)[..1] == t[..1];
      assert t + Body(rest) == t[..1] + (t[1..] + Body(rest));
    }
  }

  lemma BodyOfEscape(t: Text, rest: Text)
    requires |t| >= 2 && t[0] == BACKSLASH && Plain(t[2..])
    ensures Body(t + rest) == t + Body(rest)
  {
    BodyOfPlain(t[2..], rest);
    var all := t + rest;
    assert all[..2] == t[..2] && all[2..] == t[2..] + rest;
    Associative(t[..2], t[2..], Body(rest));
    assert t == t[..2] + t[2..];
  }

  lemma BodyOfSpelled(p: Text, u: Unit, rest: Text)
    requires Spells(p, u)
    ensures Body(p + rest) == p + Body(rest)
  {
    if |p| == 1 {
      BodyOfPlain(p, rest);
    } else {
      if SpellsByDigits(p, u) {
        DigitsRead(p, u);
        var h := p[2..6];
        assert FourHex(h);
        forall i | 0 <= i < |p[2..]| ensures p[2..][i] != QUOTE && p[2..][i] != BACKSLASH {
          assert p[2..][i] == h[i];
          assert i == 0 || i == 1 || i == 2 || i == 3;
        }
      }
      BodyOfEscape(p, rest);
    }
  }

  lemma {:induction false} BodyOfAll(pieces: seq<Text>, s: Text, rest: Text)
    requires SpellsAll(pieces, s)
    ensures Body(Flat(pieces) + rest) == Flat(pieces) + Body(rest)
    decreases |s|
  {
    if s == [] {
      assert Flat(pieces) + rest == rest;
      assert Flat(pieces) + Body(rest) == Body(rest);
    } else {
      BodyOfAll(pieces[1..], s[1..], rest);
      BodyOfSpelled(pieces[0], s[0], Flat(pieces[1..]) + rest);
      Associative(pieces[0], Flat(pieces[1..]), rest);
      Associative(pieces[0], Flat(pieces[1..]), Body(rest));
    }
  }

  /** `decodeEscapes(readString(body))`. */
  function ReadAndDecoded(source: Text): Text
    requires source != []
  {
    Decoded(Body(source[1..]))
  }

  /** Whatever follows the closing quote, the string comes back from every way to escape it. */
  lemma StringComesBack(s: Text, pieces: seq<Text>, rest: Text)
    requires SpellsAll(pieces, s)
    ensures ReadAndDecoded([QUOTE] + Flat(pieces) + [QUOTE] + rest) == s
  {
    var source := [QUOTE] + Flat(pieces) + [QUOTE] + rest;
    assert source[1..] == Flat(pieces) + ([QUOTE] + rest);
    BodyOfAll(pieces, s, [QUOTE] + rest);
    assert Flat(pieces) + [] == Flat(pieces);
    DecodeAll(pieces, s, []);
    assert s + [] == s;
  }

  // ---- a string that is still arriving

  /** A non-empty beginning of a spelling that is not all of it. */
  predicate Unfinished(t: Text) {
    || t == [BACKSLASH]
    || (2 <= |t| <= 5 && t[0] == BACKSLASH && t[1] == LETTER_U && forall i :: 2 <= i < |t| ==> IsHex(t[i]))
  }

  lemma PartOfSpelling(p: Text, u: Unit, k: nat)
    requires Spells(p, u) && 0 < k < |p|
    ensures Unfinished(p[..k])
  {
    if SpellsByDigits(p, u) {
      DigitsRead(p, u);
      forall i | 2 <= i < k ensures IsHex(p[i]) {
        assert p[i] == p[2..6][i - 2];
        assert i == 2 || i == 3 || i == 4;
      }
    }
  }

  lemma {:induction false} DecodeShort(t: Text)
    requires forall i :: 0 <= i < |t| ==> t[i] != BACKSLASH
    ensures Decoded(t) == t
    decreases |t|
  {
    if t != [] {
      DecodeShort(t[1..]);
      assert First(t) == Spelled(t[0], 1);
    }
  }

  lemma UnfinishedStays(t: Text)
    requires Unfinished(t)
    ensures Body(t) == t && Decoded(t) == t
  {
    assert First(t) == Spelled(t[0], 1);
    DecodeShort(t[1..]);
    if |t| > 1 {
      assert Plain(t[2..]);
      BodyOfEscape(t, []);
      assert t + [] == t;
    }
  }

  /**
   * After any cut of the escaped text the result is the string up to the last whole escape, followed
   * by the part of the next one that has arrived, as it stands.
   */
  lemma StringSoFar(s: Text, pieces: seq<Text>, part: Text)
    requires SpellsAll(pieces, s) && (part == [] || Unfinished(part))
    ensures ReadAndDecoded([QUOTE] + Flat(pieces) + part) == s + part
  {
    var source := [QUOTE] + Flat(pieces) + part;
    assert source[1..] == Flat(pieces) + part;
    BodyOfAll(pieces, s, part);
    DecodeAll(pieces, s, part);
    if part != [] {
      UnfinishedStays(part);
    }
  }

  /** Every cut falls between two spellings or inside one. */
  lemma {:induction false} WhereCut(s: Text, pieces: seq<Text>, c: nat) returns (k: nat, part: Text)
    requires SpellsAll(pieces, s) && c <= |Flat(pieces)|
    ensures k <= |s| && (part == [] || Unfinished(part))
    ensures Flat(pieces)[..c] == Flat(pieces[..k]) + part
    decreases |s|
  {
    if c == 0 {
      k, part := 0, [];
    } else if c < |pieces[0]| {
      k, part := 0, pieces[0][..c];
      PartOfSpelling(pieces[0], s[0], c);
      assert Flat(pieces)[..c] == [] + part;
    } else {
      var k', part' := WhereCut(s[1..], pieces[1..], c - |pieces[0]|);
      k, part := k' + 1, part';
      assert pieces[..k][1..] == pieces[1..][..k'];
      assert Flat(pieces)[..c] == pieces[0] + Flat(pieces[1..])[..c - |pieces[0]|];
      Associative(pieces[0], Flat(pieces[1..][..k']), part);
    }
  }

  /** For a cut at any place: so many whole units, and the part of an escape that has arrived. */
  lemma CutAnywhere(s: Text, pieces: seq<Text>, c: nat) returns (k: nat, part: Text)
    requires SpellsAll(pieces, s) && c <= |Flat(pieces)|
    ensures k <= |s| && (part == [] || Unfinished(part))
    ensures Flat(pieces)[..c] == Flat(pieces[..k]) + part
    ensures ReadAndDecoded([QUOTE] + Flat(pieces)[..c]) == s[..k] + part
  {
    k, part := WhereCut(s, pieces, c);
    StringSoFar(s[..k], pieces[..k], part);
    Associative([QUOTE], Flat(pieces[..k]), part);
  }

  // ---- trimming

  /** The white space of ECMAScript, as `\s` and `trim` know it. */
  predicate IsSpace(u: Unit) {
    || 0x09 <= u <= 0x0D || u == 0x20 || u == 0xA0 || u == 0x1680 || 0x2000 <= u <= 0x200A
    || u == 0x2028 || u == 0x2029 || u == 0x202F || u == 0x205F || u == 0x3000 || u == 0xFEFF
  }

  /** The same, listed: tab to carriage return, space, no-break space, and the other space separators. */
  const SPACES: Text :=
    [0x09, 0x0A, 0x0B, 0x0C, 0x0D, 0x20, 0xA0, 0x1680, 0x2000, 0x2001, 0x2002, 0x2003, 0x2004, 0x2005, 0x2006, 0x2007,
     0x2008, 0x2009, 0x200A, 0x2028, 0x2029, 0x202F, 0x205F, 0x3000, 0xFEFF]

  lemma SpacesAreListed(u: Unit)
    ensures IsSpace(u) <==> u in SPACES
  {
    if 0x09 <= u <= 0x0D {
      assert SPACES[u - 0x09] == u;
    } else if 0x2000 <= u <= 0x200A {
      assert SPACES[8 + u - 0x2000] == u;
    }
    assert SPACES[5] == 0x20 && SPACES[6] == 0xA0 && SPACES[7] == 0x1680;
    assert SPACES[19] == 0x2028 && SPACES[20] == 0x2029 && SPACES[21] == 0x202F;
    assert SPACES[22] == 0x205F && SPACES[23] == 0x3000 && SPACES[24] == 0xFEFF;
  }

  function TrimStart(t: Text): (r: Text)
    ensures |r| <= |t|
  {
    if t == [] || !IsSpace(t[0]) then t else TrimStart(t[1..])
  }

  function TrimEnd(t: Text): (r: Text)
    ensures |r| <= |t|
  {
    if t == [] || !IsSpace(t[|t| - 1]) then t else TrimEnd(t[..|t| - 1])
  }

  function Trim(t: Text): Text {
    TrimEnd(TrimStart(t))
  }

  lemma {:induction false} TrimEndOfMore(a: Text, b: Text)
    ensures TrimEnd(a) <= TrimEnd(a + b)
    decreases |a|
  {
    if a != [] && IsSpace(a[|a| - 1]) {
      TrimEndOfMore(a[..|a| - 1], a[|a| - 1..] + b);
      assert a[..|a| - 1] + (a[|a| - 1..] + b) == a + b;
    } else {
      TrimEndKeeps(a, b);
    }
  }

  lemma {:induction false} TrimEndKeeps(a: Text, b: Text)
    requires a != [] ==> !IsSpace(a[|a| - 1])
    ensures a <= TrimEnd(a + b)
    decreases |b|
  {
    if b == [] {
      assert a + b == a;
    } else if IsSpace(b[|b| - 1]) {
      TrimEndKeeps(a, b[..|b| - 1]);
      assert (a + b)[..|a + b| - 1] == a + b[..|b| - 1];
    }
  }

  lemma {:induction false} TrimStartOfMore(a: Text, b: Text)
    ensures TrimStart(a) == [] || TrimStart(a + b) == TrimStart(a) + b
    decreases |a|
  {
    if a != [] && IsSpace(a[0]) {
      TrimStartOfMore(a[1..], b);
      assert (a + b)[1..] == a[1..] + b;
    }
  }

  lemma {:induction false} TrimStartIsExact(t: Text) returns (before: Text)
    ensures t == before + TrimStart(t) && forall i :: 0 <= i < |before| ==> IsSpace(before[i])
    ensures TrimStart(t) != [] ==> !IsSpace(TrimStart(t)[0])
  {
    if t == [] || !IsSpace(t[0]) {
      before := [];
    } else {
      var rest := TrimStartIsExact(t[1..]);
      before := [t[0]] + rest;
      assert t == [t[0]] + t[1..];
    }
  }

  lemma {:induction false} TrimEndIsExact(t: Text) returns (behind: Text)
    ensures t == TrimEnd(t) + behind && forall i :: 0 <= i < |behind| ==> IsSpace(behind[i])
    ensures TrimEnd(t) != [] ==> !IsSpace(TrimEnd(t)[|TrimEnd(t)| - 1])
    decreases |t|
  {
    if t == [] || !IsSpace(t[|t| - 1]) {
      behind := [];
    } else {
      var rest := TrimEndIsExact(t[..|t| - 1]);
      behind := rest + [t[|t| - 1]];
      assert t == t[..|t| - 1] + [t[|t| - 1]];
    }
  }

  /** Trimming takes white space from both ends, all of it and nothing else. */
  lemma TrimIsExact(t: Text) returns (before: Text, behind: Text)
    ensures t == before + Trim(t) + behind
    ensures forall i :: 0 <= i < |before| ==> IsSpace(before[i])
    ensures forall i :: 0 <= i < |behind| ==> IsSpace(behind[i])
    ensures Trim(t) != [] ==> !IsSpace(Trim(t)[0]) && !IsSpace(Trim(t)[|Trim(t)| - 1])
  {
    before := TrimStartIsExact(t);
    var t1 := TrimStart(t);
    behind := TrimEndIsExact(t1);
    Associative(before, TrimEnd(t1), behind);
    if Trim(t) != [] {
      assert t1[0] == Trim(t)[0];
    }
  }

  /** A trimmed beginning is a beginning of the trimmed whole. */
  lemma TrimmedIsPrefix(a: Text, b: Text)
    ensures Trim(a) <= Trim(a + b)
  {
    TrimStartOfMore(a, b);
    if TrimStart(a) != [] {
      TrimEndOfMore(TrimStart(a), b);
    }
  }

  /** Cut between two escapes, the trimmed draft is a beginning of the final trimmed draft. */
  lemma DraftGrows(s: Text, pieces: seq<Text>, k: nat, rest: Text)
    requires SpellsAll(pieces, s) && k <= |s|
    ensures Trim(ReadAndDecoded([QUOTE] + Flat(pieces[..k])))
         <= Trim(ReadAndDecoded([QUOTE] + Flat(pieces) + [QUOTE] + rest))
  {
    StringComesBack(s, pieces, rest);
    assert SpellsAll(pieces[..k], s[..k]);
    StringSoFar(s[..k], pieces[..k], []);
    assert [QUOTE] + Flat(pieces[..k]) + [] == [QUOTE] + Flat(pieces[..k]);
    assert s[..k] + s[k..] == s && s[..k] + [] == s[..k];
    TrimmedIsPrefix(s[..k], s[k..]);
  }
}
