/** Finding the field with the answer at the top level of a JSON object that may still be arriving. */
module FieldFinder {
  import opened Envelope

  const OPEN_BRACE: Unit := 0x7B
  const CLOSE_BRACE: Unit := 0x7D
  const OPEN_BRACKET: Unit := 0x5B
  const CLOSE_BRACKET: Unit := 0x5D
  const COLON: Unit := 0x3A
  const COMMA: Unit := 0x2C

  /** "summary", "answer" and "text". */
  const SUMMARY: Text := [0x73, 0x75, 0x6D, 0x6D, 0x61, 0x72, 0x79]
  const ANSWER: Text := [0x61, 0x6E, 0x73, 0x77, 0x65, 0x72]
  const TEXT: Text := [0x74, 0x65, 0x78, 0x74]

  function Lower(u: Unit): Unit {
    if 0x41 <= u <= 0x5A then u + 0x20 else u
  }

  /** The code units of a text of ASCII characters. */
  function Codes(s: string): (t: Text)
    requires forall i :: 0 <= i < |s| ==> s[i] < 128 as char
    ensures |t| == |s| && forall i :: 0 <= i < |s| ==> t[i] == s[i] as int
  {
    seq(|s|, i requires 0 <= i < |s| => s[i] as int)
  }

  const CAPITALS := "ABCDEFGHIJKLMNOPQRSTUVWXYZ"
  const SMALL := "abcdefghijklmnopqrstuvwxyz"

  lemma WordsAndSigns()
    ensures SUMMARY == Codes("summary") && ANSWER == Codes("answer") && TEXT == Codes("text")
    ensures [QUOTE, BACKSLASH, COLON, COMMA] == Codes("\"\\:,")
    ensures [OPEN_BRACE, CLOSE_BRACE, OPEN_BRACKET, CLOSE_BRACKET] == Codes("{}[]")
  {
  }

  /** Capital letters become small ones, and nothing else changes. */
  lemma LowerIsSmall(u: Unit)
    ensures u !in Codes(CAPITALS) ==> Lower(u) == u
    ensures forall i :: 0 <= i < 26 && u == Codes(CAPITALS)[i] ==> Lower(u) == Codes(SMALL)[i]
  {
    if 0x41 <= u <= 0x5A {
      assert Codes(CAPITALS)[u - 0x41] == u;
    }
  }

  /** The word at the start of a text, in letters of either case. */
  predicate HasWord(t: Text, w: Text) {
    |t| >= |w| && forall i :: 0 <= i < |w| ==> Lower(t[i]) == w[i]
  }

  /** The length of the field name at the start of a text; 0 if there is none. */
  function Name(t: Text): (n: nat)
    ensures n <= |t|
  {
    if HasWord(t, SUMMARY) then |SUMMARY| else if HasWord(t, ANSWER) then |ANSWER|
    else if HasWord(t, TEXT) then |TEXT| else 0
  }

  function Spaces(t: Text): (n: nat)
    ensures n <= |t|
  {
    if t == [] || !IsSpace(t[0]) then 0 else 1 + Spaces(t[1..])
  }

  predicate IsColon(u: Unit) {
    u == COLON || u == 0xFF1A
  }

  /** `\s*[:：]\s*` from k on: where it ends, or 0 if it does not match. */
  function ColonEnd(t: Text, k: nat): (n: nat)
    requires k <= |t|
    ensures n <= |t|
  {
    var j := k + Spaces(t[k..]);
    if j < |t| && IsColon(t[j]) then j + 1 + Spaces(t[j + 1..]) else 0
  }

  predicate IsWhite(t: Text) {
    forall i :: 0 <= i < |t| ==> IsSpace(t[i])
  }

  lemma {:induction false} SpacesBefore(space: Text, tail: Text)
    requires IsWhite(space)
    ensures Spaces(space + tail) == |space| + Spaces(tail)
    decreases |space|
  {
    if space == [] {
      assert space + tail == tail;
    } else {
      assert (space + tail)[1..] == space[1..] + tail;
      SpacesBefore(space[1..], tail);
    }
  }

  /** A colon of either width, with white space on both sides. */
  lemma ColonIsFound(before: Text, c: Unit, behind: Text, rest: Text)
    requires IsWhite(before) && IsWhite(behind)
    requires (c == 0x3A || c == 0xFF1A) && (rest == [] || !IsSpace(rest[0]))
    ensures ColonEnd(before + ([c] + (behind + rest)), 0) == |before| + 1 + |behind|
  {
    var t := before + ([c] + (behind + rest));
    assert t[0..] == t;
    SpacesBefore(before, [c] + (behind + rest));
    assert t[|before| + 1..] == behind + rest;
    SpacesBefore(behind, rest);
  }

  /** `TOP_QUOTED_FIELD`: the length of the match at the start of a text, or 0. */
  function Quoted(t: Text): (n: nat)
    ensures n <= |t|
  {
    if t == [] || t[0] != QUOTE then 0
    else
      var k := 1 + Name(t[1..]);
      if k > 1 && k < |t| && t[k] == QUOTE then ColonEnd(t, k + 1) else 0
  }

  /** `TOP_BARE_FIELD`. */
  function Bare(t: Text): (n: nat)
    ensures n <= |t|
  {
    if Name(t) > 0 then ColonEnd(t, Name(t)) else 0
  }

  predicate Opens(u: Unit) {
    u == OPEN_BRACE || u == OPEN_BRACKET
  }

  predicate Closes(u: Unit) {
    u == CLOSE_BRACE || u == CLOSE_BRACKET
  }

  function Depth(depth: int, u: Unit): int {
    if Opens(u) then depth + 1 else if Closes(u) then depth - 1 else depth
  }

  /** The search outside of strings, at a depth of brackets; `at` counts the units already read. */
  function Find(t: Text, depth: int, at: nat): int
    decreases |t|
  {
    if t == [] then -1
    else if t[0] == QUOTE then
      if depth == 1 && Quoted(t) > 0 then at + Quoted(t) else InString(t[1..], false, depth, at + 1)
    else if depth == 1 && !Opens(t[0]) && Bare(t) > 0 then at + Bare(t)
    else Find(t[1..], Depth(depth, t[0]), at + 1)
  }

  function InString(t: Text, escaped: bool, depth: int, at: nat): int
    decreases |t|
  {
    if t == [] then -1
    else if escaped then InString(t[1..], false, depth, at + 1)
    else if t[0] == BACKSLASH then InString(t[1..], true, depth, at + 1)
    else if t[0] == QUOTE then Find(t[1..], depth, at + 1)
    else InString(t[1..], false, depth, at + 1)
  }

  function FieldEnd(text: Text): int {
    Find(text, 0, 0)
  }

  lemma {:induction false} FindStaysInText(t: Text, depth: int, at: nat)
    ensures Find(t, depth, at) == -1 || at <= Find(t, depth, at) <= at + |t|
    decreases |t|
  {
    if t != [] {
      FindStaysInText(t[1..], Depth(depth, t[0]), at + 1);
      StringStaysInText(t[1..], false, depth, at + 1);
    }
  }

  lemma {:induction false} StringStaysInText(t: Text, escaped: bool, depth: int, at: nat)
    ensures InString(t, escaped, depth, at) == -1 || at <= InString(t, escaped, depth, at) <= at + |t|
    decreases |t|
  {
    if t != [] {
      FindStaysInText(t[1..], depth, at + 1);
      StringStaysInText(t[1..], !escaped && t[0] == BACKSLASH, depth, at + 1);
    }
  }

  /** The search from a place of the text on. */
  function SearchFrom(text: Text, index: nat, inString: bool, escaped: bool, depth: int): int
    requires index <= |text|
  {
    if inString then InString(text[index..], escaped, depth, index) else Find(text[index..], depth, index)
  }

  lemma SearchStep(text: Text, index: nat, inString: bool, escaped: bool, depth: int)
    requires index < |text|
    ensures
      var c := text[index];
      SearchFrom(text, index, inString, escaped, depth)
      == if inString then
           SearchFrom(text, index + 1, escaped || c != QUOTE, !escaped && c == BACKSLASH, depth)
         else if c == QUOTE then
           if depth == 1 && Quoted(text[index..]) > 0 then index + Quoted(text[index..])
           else SearchFrom(text, index + 1, true, false, depth)
         else if depth == 1 && !Opens(c) && Bare(text[index..]) > 0 then index + Bare(text[index..])
         else SearchFrom(text, index + 1, false, false, Depth(depth, c))
  {
    assert text[index..][1..] == text[index + 1..];
  }

  /** A word in small and capital letters. */
  predicate IsWord(w: Text, name: string)
    requires forall i :: 0 <= i < |name| ==> name[i] < 128 as char
  {
    |w| == |name| && forall i :: 0 <= i < |w| ==> w[i] == name[i] as int || w[i] == name[i] as int - 32
  }

  /** A name without quotes at the top level is found as well, up to the value behind its colon. */
  lemma BareFieldIsFound(w: Text, name: string, before: Text, c: Unit, behind: Text, rest: Text)
    requires (name == "summary" || name == "answer" || name == "text") && IsWord(w, name)
    requires IsWhite(before) && IsWhite(behind)
    requires (c == 0x3A || c == 0xFF1A) && (rest == [] || !IsSpace(rest[0]))
    ensures FieldEnd([0x7B] + (w + (before + ([c] + (behind + rest))))) == 1 + |w| + |before| + 1 + |behind|
  {
    var x := before + ([c] + (behind + rest));
    NameOfWord(w, name, x);
    ColonIsFound(before, c, behind, rest);
    BareAfterBrace(w, x);
  }

  lemma BareAfterBrace(w: Text, x: Text)
    requires w != [] && Name(w + x) == |w| && ColonEnd(x, 0) > 0 && w[0] != QUOTE && !Opens(w[0])
    ensures FieldEnd([0x7B] + (w + x)) == 1 + |w| + ColonEnd(x, 0)
  {
    var t := w + x;
    ColonFurther(w, x);
    assert ([0x7B] + t)[1..] == t;
    assert Find([0x7B] + t, 0, 0) == Find(t, 1, 1);
  }

  lemma ColonFurther(w: Text, x: Text)
    requires ColonEnd(x, 0) > 0
    ensures ColonEnd(w + x, |w|) == |w| + ColonEnd(x, 0)
  {
    var t := w + x;
    assert t[|w|..] == x && x[0..] == x;
    var j := Spaces(x);
    assert t[|w| + j + 1..] == x[j + 1..];
  }

  lemma NameOfWord(w: Text, name: string, x: Text)
    requires (name == "summary" || name == "answer" || name == "text") && IsWord(w, name)
    ensures Name(w + x) == |w|
    ensures w != [] && w[0] != QUOTE && !Opens(w[0]) && !IsSpace(w[0])
  {
    WordsAndSigns();
    var t := w + x;
    assert t[0] == w[0];
    assert HasWord(t, Codes(name)) by {
      forall i | 0 <= i < |name| ensures Lower(t[i]) == Codes(name)[i] {
        assert t[i] == w[i];
      }
    }
  }

  /** `topLevelFieldEnd`. */
  method TopLevelFieldEnd(text: Text) returns (end: int)
    ensures end == FieldEnd(text)
  {
    var depth, inString, escaped := 0, false, false;
    for index := 0 to |text|
      invariant !inString ==> !escaped
      invariant SearchFrom(text, index, inString, escaped, depth) == FieldEnd(text)
    {
      var c := text[index];
      SearchStep(text, index, inString, escaped, depth);
      if inString {
        if escaped {
          escaped := false;
        } else if c == BACKSLASH {
          escaped := true;
        } else if c == QUOTE {
          inString := false;
        }
        continue;
      }
      if c == QUOTE {
        if depth == 1 {
          var quoted := Quoted(text[index..]);
          if quoted > 0 {
            return index + quoted;
          }
        }
        inString := true;
        continue;
      }
      if depth == 1 && !Opens(c) {
        var bare := Bare(text[index..]);
        if bare > 0 {
          return index + bare;
        }
      }
      if Opens(c) {
        depth := depth + 1;
      } else if Closes(c) {
        depth := depth - 1;
      }
    }
    end := -1;
  }
}
