/** From the raw answer of the model, as far as it has arrived, to the text a person reads. */
module HumanDraft {
  import opened Envelope
  import opened FieldFinder
  import opened Json
  import opened TopLevel

  /** "findings". */
  const FINDINGS: Text := [0x66, 0x69, 0x6E, 0x64, 0x69, 0x6E, 0x67, 0x73]

  const BACKTICK: Unit := 0x60

  // ---- the opening fence

  predicate InLabel(u: Unit) {
    0x41 <= u <= 0x5A || 0x61 <= u <= 0x7A || 0x30 <= u <= 0x39 || u == 0x5F || u == 0x2D
  }

  predicate IsBlank(u: Unit) {
    u == 0x20 || u == 0x09
  }

  function Labels(t: Text): (n: nat)
    ensures n <= |t|
  {
    if t == [] || !InLabel(t[0]) then 0 else 1 + Labels(t[1..])
  }

  function Blanks(t: Text): (n: nat)
    ensures n <= |t|
  {
    if t == [] || !IsBlank(t[0]) then 0 else 1 + Blanks(t[1..])
  }

  /** The line end `\r?\n` at the start of a text: its length, or 0. */
  function LineEnd(t: Text): (n: nat)
    ensures n <= |t|
  {
    if |t| > 0 && t[0] == 0x0A then 1 else if |t| > 1 && t[0] == 0x0D && t[1] == 0x0A then 2 else 0
  }

  /** What follows the three backticks of a fence line: its length, or 0. */
  function FenceEnd(t: Text): (n: nat)
    ensures n <= |t|
  {
    var k := Labels(t);
    var j := k + Blanks(t[k..]);
    if LineEnd(t[j..]) > 0 then j + LineEnd(t[j..]) else 0
  }

  function StripFence(raw: Text): Text {
    if |raw| < 3 || raw[..3] != [BACKTICK, BACKTICK, BACKTICK] then raw
    else
      var n := FenceEnd(raw[3..]);
      if n > 0 then raw[3 + n..] else raw
  }

  // ---- what the start of the text looks like

  function Brackets(t: Text): (n: nat)
    ensures n <= |t|
  {
    if t == [] || !Opens(t[0]) then 0 else 1 + Brackets(t[1..])
  }

  /** One unit that may be there. */
  function Optional(t: Text, k: nat, a: Unit, b: Unit): (n: nat)
    requires k <= |t|
    ensures k <= n <= |t|
  {
    if k < |t| && (t[k] == QUOTE || t[k] == a || t[k] == b) then k + 1 else k
  }

  /** Opening brackets with the white space behind them. */
  function AfterBrackets(head: Text): (k: nat)
    ensures k <= |head|
  {
    var b := Brackets(head);
    if b > 0 then b + Spaces(head[b..]) else 0
  }

  /** One more wrapper and white space. */
  function AfterWrapper(head: Text, k: nat): (n: nat)
    requires k <= |head|
    ensures k <= n <= |head|
  {
    var j := Optional(head, k, OPEN_BRACKET, OPEN_BRACE);
    j + Spaces(head[j..])
  }

  /** `SUMMARY_FIELD` up to the field name. */
  function NameStart(head: Text): (k: nat)
    ensures k <= |head|
  {
    AfterWrapper(head, AfterBrackets(head))
  }

  /** `SUMMARY_FIELD` behind the field name: the length of the match, or 0. */
  function ToValue(t: Text): (n: nat)
    ensures n <= |t|
  {
    ColonEnd(t, Optional(t, Spaces(t), CLOSE_BRACKET, CLOSE_BRACE))
  }

  /** The same at a place in a text: where the match ends, or 0. */
  function AfterName(head: Text, i: nat): (n: nat)
    requires i <= |head|
    ensures n <= |head|
  {
    var n := ToValue(head[i..]);
    if n > 0 then i + n else 0
  }

  /** `SUMMARY_FIELD` from the field name on. */
  function FromName(head: Text, k: nat): (n: nat)
    requires k <= |head|
    ensures n <= |head|
  {
    var n := Name(head[k..]);
    if n == 0 then 0 else AfterName(head, k + n)
  }

  /** `SUMMARY_FIELD`: the length of the match at the start, or 0. */
  function SummaryField(head: Text): (n: nat)
    ensures n <= |head|
  {
    FromName(head, NameStart(head))
  }

  predicate IsWrapper(u: Unit) {
    Opens(u) || u == QUOTE || u == 0x27 || IsSpace(u)
  }

  function Unwrapped(t: Text): Text {
    if t == [] || !IsWrapper(t[0]) then t else Unwrapped(t[1..])
  }

  /** One of the two starts with the other, in letters of either case. */
  predicate Agrees(t: Text, w: Text) {
    forall i :: 0 <= i < |t| && i < |w| ==> Lower(t[i]) == w[i]
  }

  /** `looksLikeEnvelope`. */
  predicate LooksLikeEnvelope(head: Text) {
    var t := Unwrapped(head);
    t == [] || Agrees(t, SUMMARY) || Agrees(t, ANSWER) || Agrees(t, TEXT) || Agrees(t, FINDINGS)
  }

  // ---- prose without quotes

  /** `FINDINGS_FIELD` at the start of a text. */
  predicate FindingsField(t: Text) {
    var k := AfterWrapper(t, 0);
    HasWord(t[k..], FINDINGS) && AfterName(t, k + |FINDINGS|) > 0
  }

  function BeforeFindings(t: Text): Text {
    if t == [] || FindingsField(t) then [] else [t[0]] + BeforeFindings(t[1..])
  }

  function StripTail(t: Text): Text {
    if t == [] then t
    else
      var u := t[|t| - 1];
      if u == COMMA || Closes(u) || IsSpace(u) then StripTail(t[..|t| - 1]) else t
  }

  function UpTo(t: Text, u: Unit): Text {
    if t == [] || t[0] == u then [] else [t[0]] + UpTo(t[1..], u)
  }

  const OPEN_CORNER: Unit := 0x300C
  const CLOSE_CORNER: Unit := 0x300D

  /** The text a person reads, from the start of the value on. */
  function DraftOf(body: Text): Text {
    if body != [] && body[0] == QUOTE then Trim(ReadAndDecoded(body))
    else if body != [] && body[0] == OPEN_CORNER then Trim(UpTo(body[1..], CLOSE_CORNER))
    else Trim(Decoded(StripTail(Trim(BeforeFindings(body)))))
  }

  /** A text that is shown as it is. */
  predicate IsProse(head: Text) {
    SummaryField(head) == 0 && !LooksLikeEnvelope(head)
  }

  /** Where the value to be read starts in a text that is no prose; negative without one. */
  function BodyStart(head: Text): (start: int)
    ensures start <= |head|
  {
    FindStaysInText(head, 0, 0);
    if SummaryField(head) > 0 then SummaryField(head) else FieldEnd(head)
  }

  /** What `humanDraft` gives for a text whose value starts at `end`. */
  function DraftFrom(head: Text, end: int): Text
    requires end <= |head|
  {
    if end < 0 then [] else DraftOf(head[end..])
  }

  /** `humanDraft`. */
  function Draft(raw: Text): Text {
    var unfenced := StripFence(raw);
    var head := TrimStart(unfenced);
    if head == [] then []
    else if IsProse(head) then Trim(unfenced)
    else DraftFrom(head, BodyStart(head))
  }

  // ---- a fence and white space in front do not matter

  predicate Solid(t: Text) {
    t == [] || !IsSpace(t[0])
  }

  lemma {:induction false} TrimLead(lead: Text, head: Text)
    requires AllSpace(lead) && Solid(head)
    ensures TrimStart(lead + head) == head
    decreases |lead|
  {
    if lead == [] {
      assert lead + head == head;
    } else {
      assert (lead + head)[1..] == lead[1..] + head;
      TrimLead(lead[1..], head);
    }
  }

  /** An opening fence line: three backticks, a label, blanks and a line end. */
  predicate IsFence(fence: Text, name: Text, blanks: Text, end: Text) {
    && fence == [BACKTICK, BACKTICK, BACKTICK] + (name + (blanks + end))
    && (forall i :: 0 <= i < |name| ==> InLabel(name[i])) && (forall i :: 0 <= i < |blanks| ==> IsBlank(blanks[i]))
    && (end == [0x0A] || end == [0x0D, 0x0A])
  }

  lemma {:induction false} LabelsBefore(name: Text, t: Text)
    requires (forall i :: 0 <= i < |name| ==> InLabel(name[i])) && (t == [] || !InLabel(t[0]))
    ensures Labels(name + t) == |name|
    decreases |name|
  {
    if name == [] {
      assert name + t == t;
    } else {
      assert (name + t)[1..] == name[1..] + t;
      LabelsBefore(name[1..], t);
    }
  }

  lemma {:induction false} BlanksBefore(blanks: Text, t: Text)
    requires (forall i :: 0 <= i < |blanks| ==> IsBlank(blanks[i])) && (t == [] || !IsBlank(t[0]))
    ensures Blanks(blanks + t) == |blanks|
    decreases |blanks|
  {
    if blanks == [] {
      assert blanks + t == t;
    } else {
      assert (blanks + t)[1..] == blanks[1..] + t;
      BlanksBefore(blanks[1..], t);
    }
  }

  lemma FenceEndsThere(name: Text, blanks: Text, end: Text, t: Text)
    requires (forall i :: 0 <= i < |name| ==> InLabel(name[i])) && (forall i :: 0 <= i < |blanks| ==> IsBlank(blanks[i]))
    requires end == [0x0A] || end == [0x0D, 0x0A]
    ensures FenceEnd(name + (blanks + (end + t))) == |name| + |blanks| + |end|
  {
    var all := name + (blanks + (end + t));
    LabelsBefore(name, blanks + (end + t));
    BlanksBefore(blanks, end + t);
    assert all[|name|..] == blanks + (end + t);
    assert all[|name| + |blanks|..] == end + t;
  }

  lemma FenceIsStripped(fence: Text, name: Text, blanks: Text, end: Text, t: Text)
    requires IsFence(fence, name, blanks, end)
    ensures StripFence(fence + t) == t
  {
    var raw := fence + t;
    assert raw[..3] == [BACKTICK, BACKTICK, BACKTICK];
    assert raw[3..] == name + (blanks + (end + t));
    FenceEndsThere(name, blanks, end, t);
    assert raw[3 + (|name| + |blanks| + |end|)..] == t;
  }

  // ---- the start of an envelope

  /** Behind brackets, quotes and white space the key starts with a name that an envelope can start with. */
  predicate LooksKey(key: Text) {
    var t := Unwrapped(key);
    HasWord(t, SUMMARY) || HasWord(t, ANSWER) || HasWord(t, TEXT) || HasWord(t, FINDINGS)
  }

  function WithoutLead(key: Text): Text {
    key[Spaces(key)..]
  }

  /** The key is a field name with white space around it. */
  predicate IsSpacedName(key: Text) {
    var x := WithoutLead(key);
    Name(x) > 0 && Spaces(x[Name(x)..]) == |x| - Name(x)
  }

  /** The key starts with a field name and has a colon of its own right behind it. */
  predicate HasOwnColon(key: Text) {
    var x := WithoutLead(key);
    Name(x) > 0 && ToValue(x[Name(x)..]) > 0
  }

  /** Where in such a key the value seems to start. */
  function OwnValue(key: Text): (n: nat)
    ensures n <= |key|
  {
    var x := WithoutLead(key);
    Spaces(key) + Name(x) + ToValue(x[Name(x)..])
  }

  /** The first key is a field name, or it only looks like one and is not taken for one. */
  predicate StartsEnvelope(members: Members) {
    && members.Member?
    && LooksKey(members.key)
    && (IsName(members.key) || (!IsSpacedName(members.key) && !HasOwnColon(members.key)))
  }

  /** The text before the first key. */
  function Opening(before: Text): Text {
    [OPEN_BRACE] + before + [QUOTE]
  }

  /** An object from its first key on. */
  function FromKey(before: Text, key: Text, more: Text): Text {
    Opening(before) + (key + ([QUOTE] + more))
  }

  lemma {:induction false} UnwrappedAfter(wrap: Text, t: Text)
    requires (forall i :: 0 <= i < |wrap| ==> IsWrapper(wrap[i])) && (t == [] || !IsWrapper(t[0]))
    ensures Unwrapped(wrap + t) == t
    decreases |wrap|
  {
    if wrap == [] {
      assert wrap + t == t;
    } else {
      assert (wrap + t)[1..] == wrap[1..] + t;
      UnwrappedAfter(wrap[1..], t);
    }
  }

  lemma {:induction false} UnwrappedOfMore(t: Text, x: Text)
    ensures Unwrapped(t + x) == if Unwrapped(t) != [] then Unwrapped(t) + x else Unwrapped(x)
    decreases |t|
  {
    if t == [] {
      assert t + x == x;
    } else {
      assert (t + x)[1..] == t[1..] + x;
      if IsWrapper(t[0]) {
        UnwrappedOfMore(t[1..], x);
      }
    }
  }

  /** The wrappers in front of a text. */
  lemma {:induction false} Wrapping(t: Text) returns (wrap: Text)
    ensures t == wrap + Unwrapped(t) && forall i :: 0 <= i < |wrap| ==> IsWrapper(wrap[i])
    decreases |t|
  {
    if t == [] || !IsWrapper(t[0]) {
      wrap := [];
    } else {
      wrap := Wrapping(t[1..]);
      wrap := [t[0]] + wrap;
    }
  }

  /** After every cut a text that starts with such a name behind its wrappers looks like an envelope. */
  lemma CutLooksLikeEnvelope(wrap: Text, x: Text, w: Text, c: nat)
    requires (forall i :: 0 <= i < |wrap| ==> IsWrapper(wrap[i])) && HasWord(x, w)
    requires w == SUMMARY || w == ANSWER || w == TEXT || w == FINDINGS
    requires c <= |wrap + x|
    ensures LooksLikeEnvelope((wrap + x)[..c])
  {
    if c <= |wrap| {
      assert (wrap + x)[..c] == wrap[..c] + [];
      UnwrappedAfter(wrap[..c], []);
    } else {
      var t := x[..c - |wrap|];
      assert (wrap + x)[..c] == wrap + t;
      assert Agrees(t, w);
      assert Lower(t[0]) == w[0];
      UnwrappedAfter(wrap, t);
    }
  }

  /** Behind a quote no such name goes on. */
  lemma AgreesBeforeQuote(t: Text, w: Text, more: Text)
    requires w == SUMMARY || w == ANSWER || w == TEXT || w == FINDINGS
    ensures Agrees(t + ([QUOTE] + more), w) <==> HasWord(t, w)
  {
    var all := t + ([QUOTE] + more);
    if HasWord(t, w) {
      assert forall i :: 0 <= i < |w| ==> all[i] == t[i];
    } else if |t| < |w| {
      assert all[|t|] == QUOTE && Lower(QUOTE) != w[|t|];
    } else {
      assert forall i :: 0 <= i < |w| ==> all[i] == t[i];
    }
  }

  lemma OpeningIsWrapping(before: Text)
    requires AllSpace(before)
    ensures forall i :: 0 <= i < |Opening(before)| ==> IsWrapper(Opening(before)[i])
  {
  }

  /** Whether an object looks like an envelope is decided by its first key. */
  lemma KeyDecides(before: Text, key: Text, mid: Text, x: Text)
    requires AllSpace(before) && AllSpace(mid)
    ensures LooksLikeEnvelope(FromKey(before, key, mid + ([COLON] + x))) <==> LooksKey(key)
  {
    var more := mid + ([COLON] + x);
    OpeningIsWrapping(before);
    UnwrappedOfMore(Opening(before), key + ([QUOTE] + more));
    UnwrappedAfter(Opening(before), []);
    assert Opening(before) + [] == Opening(before);
    UnwrappedOfMore(key, [QUOTE] + more);
    var t := Unwrapped(key);
    if t != [] {
      AgreesBeforeQuote(t, SUMMARY, more);
      AgreesBeforeQuote(t, ANSWER, more);
      AgreesBeforeQuote(t, TEXT, more);
      AgreesBeforeQuote(t, FINDINGS, more);
    } else {
      UnwrappedAfter([QUOTE] + mid, [COLON] + x);
      assert [QUOTE] + more == [QUOTE] + mid + ([COLON] + x);
      assert Lower(([COLON] + x)[0]) == COLON;
    }
  }

  lemma NameStartAfter(before: Text, t: Text)
    requires AllSpace(before)
    ensures NameStart(Opening(before) + t) == |Opening(before)| + Spaces(t)
  {
    var head := Opening(before) + t;
    assert head[1..] == before + ([QUOTE] + t);
    assert Brackets(head) == 1 by {
      assert head[1] == if before == [] then QUOTE else before[0];
    }
    SpacesBefore(before, [QUOTE] + t);
    assert head[|before| + 2..] == t;
  }

  lemma {:induction false} SpacesBeforeQuote(t: Text, more: Text)
    ensures Spaces(t + ([QUOTE] + more)) == Spaces(t)
    decreases |t|
  {
    if t != [] {
      assert (t + ([QUOTE] + more))[1..] == t[1..] + ([QUOTE] + more);
      if IsSpace(t[0]) {
        SpacesBeforeQuote(t[1..], more);
      }
    }
  }

  lemma NameBeforeAQuote(t: Text, more: Text)
    ensures Name(t + ([QUOTE] + more)) == Name(t)
  {
    WordBeforeQuote(t, SUMMARY, more);
    WordBeforeQuote(t, ANSWER, more);
    WordBeforeQuote(t, TEXT, more);
  }

  lemma ColonBeforeQuote(t: Text, more: Text)
    ensures ColonEnd(t + ([QUOTE] + more), 0) == ColonEnd(t, 0)
  {
    var all, j := t + ([QUOTE] + more), Spaces(t);
    assert all[0..] == all && t[0..] == t;
    SpacesBeforeQuote(t, more);
    if j < |t| {
      assert all[j + 1..] == t[j + 1..] + ([QUOTE] + more);
      SpacesBeforeQuote(t[j + 1..], more);
    }
  }

  /** Behind a field name that only white space follows in the key. */
  lemma ToValueOfSpace(y: Text, more: Text)
    requires Spaces(y) == |y|
    ensures ToValue(y + ([QUOTE] + more)) == if ColonEnd(more, 0) > 0 then |y| + 1 + ColonEnd(more, 0) else 0
  {
    var t := y + ([QUOTE] + more);
    SpacesBeforeQuote(y, more);
    assert t[|y| + 1..] == more;
    ColonLater(t, |y| + 1, more);
  }

  lemma ColonInFront(y: Text, o: nat, more: Text)
    requires o <= |y|
    ensures ColonEnd(y + ([QUOTE] + more), o) == ColonEnd(y, o)
  {
    assert (y + ([QUOTE] + more))[o..] == y[o..] + ([QUOTE] + more);
    ColonLater(y + ([QUOTE] + more), o, y[o..] + ([QUOTE] + more));
    ColonBeforeQuote(y[o..], more);
    ColonLater(y, o, y[o..]);
  }

  /** Behind a field name that something else follows in the key. */
  lemma ToValueOfOther(y: Text, more: Text)
    requires Spaces(y) < |y|
    ensures ToValue(y + ([QUOTE] + more)) == ToValue(y)
  {
    SpacesBeforeQuote(y, more);
    OptionalOfPart(y, [QUOTE] + more, Spaces(y), CLOSE_BRACKET, CLOSE_BRACE);
    ColonInFront(y, Optional(y, Spaces(y), CLOSE_BRACKET, CLOSE_BRACE), more);
  }

  /** What `SUMMARY_FIELD` makes of the rest x of the first key and the text behind it. */
  function FieldOf(x: Text, more: Text): nat {
    var n := Name(x);
    var y := x[n..];
    if n == 0 then 0
    else if Spaces(y) == |y| then if ColonEnd(more, 0) > 0 then |x| + 1 + ColonEnd(more, 0) else 0
    else if ToValue(y) > 0 then n + ToValue(y) else 0
  }

  lemma NameThenRest(x: Text, more: Text)
    ensures
      var t, n := x + ([QUOTE] + more), Name(x);
      Name(t) == n && t[n..] == x[n..] + ([QUOTE] + more)
  {
    NameBeforeAQuote(x, more);
  }

  lemma FromNameIs(head: Text, k: nat)
    requires k <= |head|
    ensures FromName(head, k) == if Name(head[k..]) > 0 then AfterName(head, k + Name(head[k..])) else 0
  {
  }

  lemma SummaryAt(head: Text, k: nat, x: Text, more: Text)
    requires k <= |head| && head[k..] == x + ([QUOTE] + more)
    ensures FromName(head, k) == if FieldOf(x, more) > 0 then k + FieldOf(x, more) else 0
  {
    var n := Name(x);
    NameThenRest(x, more);
    FromNameIs(head, k);
    Further(head, k, n);
    AfterNameAt(head, k + n, x[n..], more);
  }

  lemma Further(t: Text, k: nat, n: nat)
    requires k + n <= |t|
    ensures t[k + n..] == t[k..][n..]
  {
  }

  lemma AfterNameAt(head: Text, i: nat, y: Text, more: Text)
    requires i <= |head| && head[i..] == y + ([QUOTE] + more)
    ensures AfterName(head, i) ==
            if Spaces(y) == |y| then if ColonEnd(more, 0) > 0 then i + |y| + 1 + ColonEnd(more, 0) else 0
            else if ToValue(y) > 0 then i + ToValue(y) else 0
  {
    if Spaces(y) == |y| {
      ToValueOfSpace(y, more);
    } else {
      ToValueOfOther(y, more);
    }
  }

  lemma StartInKey(before: Text, key: Text, more: Text)
    requires AllSpace(before)
    ensures
      var head, k := FromKey(before, key, more), |before| + 2 + Spaces(key);
      NameStart(head) == k && head[k..] == WithoutLead(key) + ([QUOTE] + more)
  {
    NameStartAfter(before, key + ([QUOTE] + more));
    SpacesBeforeQuote(key, more);
    FromKeyOn(before, key, more, Spaces(key));
  }

  lemma FromKeyOn(before: Text, key: Text, more: Text, i: nat)
    requires i <= |key|
    ensures FromKey(before, key, more)[|before| + 2 + i..] == key[i..] + ([QUOTE] + more)
  {
  }

  lemma SummaryInKey(before: Text, key: Text, more: Text)
    requires AllSpace(before)
    ensures
      var n := FieldOf(WithoutLead(key), more);
      SummaryField(FromKey(before, key, more)) == if n > 0 then |before| + 2 + Spaces(key) + n else 0
  {
    StartInKey(before, key, more);
    SummaryFrom(FromKey(before, key, more), |before| + 2 + Spaces(key), WithoutLead(key), more);
  }

  lemma SummaryFrom(head: Text, k: nat, x: Text, more: Text)
    requires NameStart(head) == k && head[k..] == x + ([QUOTE] + more)
    ensures SummaryField(head) == if FieldOf(x, more) > 0 then k + FieldOf(x, more) else 0
  {
    SummaryAt(head, k, x, more);
  }

  /** `SUMMARY_FIELD` on an object, by its first key. */
  lemma SummaryOfKey(before: Text, key: Text, more: Text)
    requires AllSpace(before)
    ensures SummaryField(FromKey(before, key, more)) ==
            if IsSpacedName(key) then if ColonEnd(more, 0) > 0 then |before| + |key| + 3 + ColonEnd(more, 0) else 0
            else if HasOwnColon(key) then |before| + 2 + OwnValue(key)
            else 0
  {
    SummaryInKey(before, key, more);
  }

  /** A field name alone starts at once. */
  lemma NameIsSpacedName(key: Text)
    requires IsName(key)
    ensures IsSpacedName(key) && LooksKey(key)
  {
    NameIsSolid(key);
    assert WithoutLead(key) == key && key[|key|..] == [];
    assert Unwrapped(key) == key;
  }

  lemma NameIsSolid(t: Text)
    requires Name(t) > 0
    ensures t != [] && !IsSpace(t[0]) && !IsWrapper(t[0])
  {
    if HasWord(t, SUMMARY) {
      WordStarts(t, SUMMARY);
    } else if HasWord(t, ANSWER) {
      WordStarts(t, ANSWER);
    } else {
      WordStarts(t, TEXT);
    }
  }

  lemma {:induction false} UnwrappedAfterSpaces(t: Text)
    ensures Unwrapped(t) == Unwrapped(t[Spaces(t)..])
    decreases |t|
  {
    if t != [] && IsSpace(t[0]) {
      UnwrappedAfterSpaces(t[1..]);
      assert t[1..][Spaces(t[1..])..] == t[Spaces(t)..];
    } else {
      assert t[0..] == t;
    }
  }

  /** A first key that `SUMMARY_FIELD` takes for a field name looks like one. */
  lemma NamedKeyLooks(key: Text)
    requires Name(WithoutLead(key)) > 0
    ensures LooksKey(key)
  {
    UnwrappedAfterSpaces(key);
    NameIsSolid(WithoutLead(key));
    assert Unwrapped(WithoutLead(key)) == WithoutLead(key);
  }

  // ---- `SUMMARY_FIELD` on a part of a text

  lemma {:induction false} BracketsOfPart(p: Text, more: Text)
    requires Brackets(p) < |p|
    ensures Brackets(p + more) == Brackets(p)
    decreases |p|
  {
    assert (p + more)[1..] == p[1..] + more;
    if Opens(p[0]) {
      BracketsOfPart(p[1..], more);
    }
  }

  lemma SpacesInPart(p: Text, more: Text, k: nat)
    requires k <= |p| && k + Spaces(p[k..]) < |p|
    ensures Spaces((p + more)[k..]) == Spaces(p[k..])
  {
    assert (p + more)[k..] == p[k..] + more;
    SpacesOfPart(p[k..], more);
  }

  lemma AfterBracketsOfPart(p: Text, more: Text)
    requires AfterBrackets(p) < |p|
    ensures AfterBrackets(p + more) == AfterBrackets(p)
  {
    BracketsOfPart(p, more);
    if Brackets(p) > 0 {
      SpacesInPart(p, more, Brackets(p));
    }
  }

  lemma AfterWrapperOfPart(p: Text, more: Text, k: nat)
    requires k <= |p| && AfterWrapper(p, k) < |p|
    ensures AfterWrapper(p + more, k) == AfterWrapper(p, k)
  {
    OptionalOfPart(p, more, k, OPEN_BRACKET, OPEN_BRACE);
    SpacesInPart(p, more, Optional(p, k, OPEN_BRACKET, OPEN_BRACE));
  }

  lemma NameStartOfPart(p: Text, more: Text)
    requires NameStart(p) < |p|
    ensures NameStart(p + more) == NameStart(p)
  {
    AfterBracketsOfPart(p, more);
    AfterWrapperOfPart(p, more, AfterBrackets(p));
  }

  lemma OptionalOfPart(p: Text, more: Text, k: nat, a: Unit, b: Unit)
    requires k < |p|
    ensures Optional(p + more, k, a, b) == Optional(p, k, a, b)
  {
    assert (p + more)[k] == p[k];
  }

  lemma ToValueOfPart(p: Text, more: Text)
    requires ToValue(p) > 0
    ensures ToValue(p + more) > 0
  {
    var j := Spaces(p);
    var k := Optional(p, j, CLOSE_BRACKET, CLOSE_BRACE);
    ColonNeedsMore(p, k);
    SpacesOfPart(p, more);
    OptionalOfPart(p, more, j, CLOSE_BRACKET, CLOSE_BRACE);
    ColonOfPart(p, more, k);
  }

  lemma AfterNameOfPart(p: Text, more: Text, i: nat)
    requires i <= |p| && AfterName(p, i) > 0
    ensures AfterName(p + more, i) > 0
  {
    assert (p + more)[i..] == p[i..] + more;
    ToValueOfPart(p[i..], more);
  }

  lemma FromNameOfPart(p: Text, more: Text, k: nat)
    requires k <= |p| && FromName(p, k) > 0
    ensures k < |p| && FromName(p + more, k) > 0
  {
    FromNameIs(p, k);
    NameInPart(p, more, k);
    AfterNameOfPart(p, more, k + Name(p[k..]));
    FromNameIs(p + more, k);
  }

  lemma NameInPart(p: Text, more: Text, k: nat)
    requires k <= |p| && Name(p[k..]) > 0
    ensures Name((p + more)[k..]) == Name(p[k..])
  {
    NameOfPart(p[k..], more);
    assert (p + more)[k..] == p[k..] + more;
  }

  lemma SummaryOfPart(p: Text, more: Text)
    requires SummaryField(p) > 0
    ensures SummaryField(p + more) > 0
  {
    FromNameOfPart(p, more, NameStart(p));
    NameStartOfPart(p, more);
  }

  lemma ColonNeedsMore(t: Text, k: nat)
    requires k <= |t| && ColonEnd(t, k) > 0
    ensures k < |t|
  {
  }

  // ---- the draft of an envelope that is still arriving

  lemma CutFromKey(before: Text, key: Text, mid: Text, x: Text, c: nat)
    requires |before| + |key| + |mid| + 3 < c <= |before| + |key| + |mid| + 4 + |x|
    ensures FromKey(before, key, mid + ([COLON] + x))[..c]
         == FromKey(before, key, mid + ([COLON] + x[..c - (|before| + |key| + |mid| + 4)]))
  {
  }

  lemma CutBeforeColon(before: Text, key: Text, mid: Text, x: Text, c: nat)
    requires c <= |before| + |key| + |mid| + 3
    ensures FromKey(before, key, mid + x)[..c] == FromKey(before, key, mid)[..c]
  {
    var u := FromKey(before, key, mid);
    assert FromKey(before, key, mid + x) == u + x;
  }

  lemma SummaryBeforeColon(before: Text, key: Text, mid: Text, x: Text, c: nat)
    requires AllSpace(before) && IsBody(key) && IsSpacedName(key) && AllSpace(mid)
    requires c <= |before| + |key| + |mid| + 3
    ensures SummaryField(FromKey(before, key, mid + x)[..c]) == 0
  {
    var u := FromKey(before, key, mid);
    CutBeforeColon(before, key, mid, x, c);
    ColonAfterSpace(mid, []);
    assert mid + [] == mid;
    SummaryOfKey(before, key, mid);
    assert u[..c] + u[c..] == u;
    if SummaryField(u[..c]) > 0 {
      SummaryOfPart(u[..c], u[c..]);
    }
  }

  lemma SummaryBehindColon(before: Text, key: Text, mid: Text, gap: Text, tail: Text)
    requires AllSpace(before) && IsBody(key) && IsSpacedName(key) && AllSpace(mid) && AllSpace(gap) && Solid(tail)
    ensures SummaryField(FromKey(before, key, mid + ([COLON] + (gap + tail)))) == |before| + |key| + |mid| + |gap| + 4
  {
    ColonFound(mid, gap, tail);
    SummaryOfKey(before, key, mid + ([COLON] + (gap + tail)));
  }

  lemma CutInGap(before: Text, key: Text, mid: Text, gap: Text, tail: Text, j: nat)
    requires j <= |gap|
    ensures FromKey(before, key, mid + ([COLON] + (gap + tail)))[..|before| + |key| + |mid| + 4 + j]
         == FromKey(before, key, mid + ([COLON] + (gap[..j] + [])))
  {
    CutFromKey(before, key, mid, gap + tail, |before| + |key| + |mid| + 4 + j);
    assert (gap + tail)[..j] == gap[..j] + [];
  }

  lemma CutInTail(before: Text, key: Text, mid: Text, gap: Text, tail: Text, j: nat)
    requires j <= |tail|
    ensures FromKey(before, key, mid + ([COLON] + (gap + tail)))[..|before| + |key| + |mid| + |gap| + 4 + j]
         == FromKey(before, key, mid + ([COLON] + (gap + tail[..j])))
  {
    CutFromKey(before, key, mid, gap + tail, |before| + |key| + |mid| + |gap| + 4 + j);
    assert (gap + tail)[..|gap| + j] == gap + tail[..j];
  }

  lemma SummaryInGap(before: Text, key: Text, mid: Text, gap: Text, tail: Text, j: nat, c: nat)
    requires AllSpace(before) && IsBody(key) && IsSpacedName(key) && AllSpace(mid) && AllSpace(gap) && j <= |gap|
    requires c == |before| + |key| + |mid| + 4 + j
    ensures SummaryField(FromKey(before, key, mid + ([COLON] + (gap + tail)))[..c]) == c
  {
    CutInGap(before, key, mid, gap, tail, j);
    SummaryBehindColon(before, key, mid, gap[..j], []);
  }

  lemma SummaryInTail(before: Text, key: Text, mid: Text, gap: Text, tail: Text, j: nat, c: nat)
    requires AllSpace(before) && IsBody(key) && IsSpacedName(key) && AllSpace(mid) && AllSpace(gap)
    requires Solid(tail) && j <= |tail| && c == |before| + |key| + |mid| + |gap| + 4 + j
    ensures SummaryField(FromKey(before, key, mid + ([COLON] + (gap + tail)))[..c]) == |before| + |key| + |mid| + |gap| + 4
  {
    CutInTail(before, key, mid, gap, tail, j);
    SummaryBehindColon(before, key, mid, gap, tail[..j]);
  }

  /** `SUMMARY_FIELD` on a part of an object whose first key is a field name, with or without space. */
  lemma SummaryOfNameCut(before: Text, key: Text, mid: Text, gap: Text, tail: Text, c: nat)
    requires AllSpace(before) && IsBody(key) && IsSpacedName(key) && AllSpace(mid) && AllSpace(gap) && Solid(tail)
    requires c <= |before| + |key| + |mid| + |gap| + 4 + |tail|
    ensures
      var colon := |before| + |key| + |mid| + 3;
      SummaryField(FromKey(before, key, mid + ([COLON] + (gap + tail)))[..c])
      == if c <= colon then 0 else Min(c, colon + 1 + |gap|)
  {
    if c <= |before| + |key| + |mid| + 3 {
      SummaryBeforeColon(before, key, mid, [COLON] + (gap + tail), c);
    } else if c <= |before| + |key| + |mid| + |gap| + 4 {
      SummaryInGap(before, key, mid, gap, tail, c - (|before| + |key| + |mid| + 4), c);
    } else {
      SummaryInTail(before, key, mid, gap, tail, c - (|before| + |key| + |mid| + |gap| + 4), c);
    }
  }

  /** An object starts with its first key. */
  lemma ShowFromKey(members: Members, rest: Text) returns (more: Text)
    requires members.Member?
    ensures Show(Obj(members)) + rest == FromKey(members.before, members.key, more)
  {
    var m := members;
    var value, end := Show(m.value), ShowEnd(m.after, m.rest.NoMember?);
    more := ShowColon(m.mid, m.gap) + value + end + ShowMembers(m.rest) + [CLOSE_BRACE] + rest;
    StartOfObject(m.before, m.key, ShowColon(m.mid, m.gap), value, end, ShowMembers(m.rest), rest);
  }

  lemma StartOfObject(before: Text, key: Text, colon: Text, value: Text, end: Text, others: Text, rest: Text)
    ensures [OPEN_BRACE] + (before + ([QUOTE] + key + [QUOTE]) + colon + value + end + others) + [CLOSE_BRACE] + rest
         == FromKey(before, key, colon + value + end + others + [CLOSE_BRACE] + rest)
  {
  }

  lemma NameFromKey(before: Text, key: Text, mid: Text, t: Text)
    ensures [OPEN_BRACE] + (before + ShowString(key) + mid + t) == FromKey(before, key, mid + t)
  {
  }

  lemma SummaryOfOtherCut(before: Text, key: Text, more: Text, c: nat)
    requires AllSpace(before) && !IsSpacedName(key) && !HasOwnColon(key) && c <= |FromKey(before, key, more)|
    ensures SummaryField(FromKey(before, key, more)[..c]) == 0
  {
    var text := FromKey(before, key, more);
    SummaryOfKey(before, key, more);
    assert text[..c] + text[c..] == text;
    if SummaryField(text[..c]) > 0 {
      SummaryOfPart(text[..c], text[c..]);
    }
  }

  /** `SUMMARY_FIELD` and the field search never disagree on a part of an envelope. */
  lemma SummaryAgrees(members: Members, rest: Text, c: nat)
    requires WellFormedMembers(members) && !NoNames(members) && StartsEnvelope(members)
    requires c <= |Show(Obj(members)) + rest|
    ensures
      var n := SummaryField((Show(Obj(members)) + rest)[..c]);
      n == 0 || n == EndAfter(members, c)
  {
    var m := members;
    if IsName(m.key) {
      NameIsSpacedName(m.key);
      var tail := ObjectAroundField(members, rest);
      NameFromKey(m.before, m.key, m.mid, [COLON] + (m.gap + tail));
      SummaryOfNameCut(m.before, m.key, m.mid, m.gap, tail, c);
    } else {
      var more := ShowFromKey(members, rest);
      SummaryOfOtherCut(m.before, m.key, more, c);
    }
  }

  lemma Regrouped(a: Text, b: Text, c: Text, d: Text)
    ensures a + ((b + c) + d) == (a + b) + (c + d)
  {
  }

  lemma EnvelopeIsRecognised(members: Members, rest: Text, c: nat)
    requires WellFormedMembers(members) && members.Member? && LooksKey(members.key)
    requires c <= |Show(Obj(members)) + rest|
    ensures LooksLikeEnvelope((Show(Obj(members)) + rest)[..c])
  {
    var more := ShowFromKey(members, rest);
    var wrap := Wrapping(members.key);
    var t := Unwrapped(members.key);
    var w := StartingWord(t, [QUOTE] + more);
    OpeningIsWrapping(members.before);
    Regrouped(Opening(members.before), wrap, t, [QUOTE] + more);
    CutLooksLikeEnvelope(Opening(members.before) + wrap, t + ([QUOTE] + more), w, c);
  }

  lemma StartingWord(t: Text, more: Text) returns (w: Text)
    requires HasWord(t, SUMMARY) || HasWord(t, ANSWER) || HasWord(t, TEXT) || HasWord(t, FINDINGS)
    ensures w == SUMMARY || w == ANSWER || w == TEXT || w == FINDINGS
    ensures HasWord(t + more, w)
  {
    w := if HasWord(t, FINDINGS) then FINDINGS else if HasWord(t, SUMMARY) then SUMMARY
         else if HasWord(t, ANSWER) then ANSWER else TEXT;
    assert forall i :: 0 <= i < |t| ==> (t + more)[i] == t[i];
  }

  lemma DraftOfStart(raw: Text, head: Text, end: int)
    requires TrimStart(StripFence(raw)) == head && end <= |head|
    requires LooksLikeEnvelope(head) && FieldEnd(head) == end
    requires SummaryField(head) == 0 || SummaryField(head) == end
    ensures Draft(raw) == DraftFrom(head, end)
  {
  }

  lemma EmptyDraft()
    ensures DraftOf([]) == []
  {
  }

  lemma StringStartsThere(members: Members, rest: Text)
    requires WellFormedMembers(members) && !NoNames(members) && ValueOf(members).Str?
    ensures
      var text, start := Show(Obj(members)) + rest, ValueStart(members);
      start < |text| && text[start] == QUOTE
  {
    var tail := ObjectAroundField(members, rest);
    assert Show(ValueOf(members))[0] == QUOTE;
    AtTail([OPEN_BRACE], UpToColon(members), GapOf(members), tail);
  }

  lemma AtTail(a: Text, u: Text, g: Text, tail: Text)
    requires tail != []
    ensures (a + (u + ([COLON] + (g + tail))))[|a| + |u| + 1 + |g|] == tail[0]
  {
  }

  /** `raw` holds the object up to c, behind whatever is stripped in front. */
  ghost predicate Arrived(raw: Text, members: Members, rest: Text, c: nat) {
    c <= |Show(Obj(members)) + rest| && TrimStart(StripFence(raw)) == (Show(Obj(members)) + rest)[..c]
  }

  /** Every answer that has arrived up to c is shown as t. */
  ghost predicate ShownAs(members: Members, rest: Text, c: nat, t: Text) {
    forall raw :: Arrived(raw, members, rest, c) ==> Draft(raw) == t
  }

  /** Where the value of the first field name starts. */
  function ValueStart(members: Members): nat
    requires !NoNames(members)
  {
    2 + |UpToColon(members)| + |GapOf(members)|
  }

  /**
   * For every envelope whose answer is a string, and after every cut: nothing before the string
   * starts, then the string as far as it has arrived, and from its closing quote on the whole string,
   * whatever follows.
   */
  lemma DraftAfterCut(members: Members, rest: Text, c: nat)
    requires WellFormedMembers(members) && !NoNames(members) && StartsEnvelope(members)
    requires ValueOf(members).Str? && c <= |Show(Obj(members)) + rest|
    ensures
      var head, start := (Show(Obj(members)) + rest)[..c], ValueStart(members);
      ShownAs(members, rest, c, if c <= start then [] else Trim(ReadAndDecoded(head[start..])))
  {
    forall raw | Arrived(raw, members, rest, c)
      ensures Draft(raw)
           == if c <= ValueStart(members) then []
              else Trim(ReadAndDecoded((Show(Obj(members)) + rest)[..c][ValueStart(members)..]))
    {
      DraftOfArrived(raw, members, rest, c);
    }
  }

  lemma DraftOfArrived(raw: Text, members: Members, rest: Text, c: nat)
    requires WellFormedMembers(members) && !NoNames(members) && StartsEnvelope(members)
    requires ValueOf(members).Str? && Arrived(raw, members, rest, c)
    ensures Draft(raw)
         == if c <= ValueStart(members) then []
            else Trim(ReadAndDecoded((Show(Obj(members)) + rest)[..c][ValueStart(members)..]))
  {
    var text := Show(Obj(members)) + rest;
    EnvelopeIsRecognised(members, rest, c);
    SummaryAgrees(members, rest, c);
    FieldIsFound(members, rest, c);
    DraftOfStart(raw, text[..c], EndAfter(members, c));
    StringStartsThere(members, rest);
    ValueAfterCut(members, text, c);
  }

  lemma ValueAfterCut(members: Members, text: Text, c: nat)
    requires !NoNames(members) && c <= |text|
    requires
      var start := ValueStart(members);
      start < |text| && text[start] == QUOTE
    ensures
      var start := ValueStart(members);
      DraftFrom(text[..c], EndAfter(members, c))
      == if c <= start then [] else Trim(ReadAndDecoded(text[..c][start..]))
  {
    DraftAt(text, c, ValueStart(members), EndAfter(members, c));
  }

  lemma DraftAt(text: Text, c: nat, start: nat, end: int)
    requires c <= |text| && start < |text| && text[start] == QUOTE
    requires if c <= start then end < 0 || end == c else end == start
    ensures DraftFrom(text[..c], end) == if c <= start then [] else Trim(ReadAndDecoded(text[..c][start..]))
  {
    if end == c {
      EmptyDraft();
      assert text[..c][c..] == [];
    } else if end >= 0 {
      QuotedDraft(text[..c][start..]);
    }
  }

  lemma QuotedDraft(body: Text)
    requires body != [] && body[0] == QUOTE
    ensures DraftOf(body) == Trim(ReadAndDecoded(body))
  {
  }

  lemma FrontIsRemoved(fence: Text, name: Text, blanks: Text, end: Text, lead: Text, head: Text)
    requires IsFence(fence, name, blanks, end) && AllSpace(lead) && Solid(head)
    ensures TrimStart(StripFence(fence + (lead + head))) == head
    ensures head == [] || head[0] != BACKTICK ==> TrimStart(StripFence(lead + head)) == head
  {
    FenceIsStripped(fence, name, blanks, end, lead + head);
    TrimLead(lead, head);
    var raw := lead + head;
    if |raw| >= 3 && (head == [] || head[0] != BACKTICK) {
      assert raw[..3][0] == if lead == [] then head[0] else lead[0];
    }
  }

  /** A fence line and white space, or white space alone, may stand in front of the object. */
  lemma FrontDoesNotMatter(fence: Text, name: Text, blanks: Text, end: Text, lead: Text,
                           members: Members, rest: Text, c: nat)
    requires IsFence(fence, name, blanks, end) && AllSpace(lead) && c <= |Show(Obj(members)) + rest|
    ensures
      var head := (Show(Obj(members)) + rest)[..c];
      Arrived(fence + (lead + head), members, rest, c) && Arrived(lead + head, members, rest, c)
  {
    var head := (Show(Obj(members)) + rest)[..c];
    assert head == [] || head[0] == OPEN_BRACE;
    FrontIsRemoved(fence, name, blanks, end, lead, head);
  }

  /** The finished answer: the trimmed string, however it was escaped and whatever follows it. */
  lemma DraftOfEnvelope(members: Members, rest: Text, s: Text, pieces: seq<Text>)
    requires WellFormedMembers(members) && !NoNames(members) && StartsEnvelope(members)
    requires ValueOf(members) == Str(Flat(pieces)) && SpellsAll(pieces, s)
    ensures ShownAs(members, rest, |Show(Obj(members)) + rest|, Trim(s))
  {
    var text := Show(Obj(members)) + rest;
    assert text[..|text|] == text;
    DraftAfterCut(members, rest, |text|);
    var more := StringInText(members, rest, pieces);
    StringComesBack(s, pieces, more);
    StringStartsThere(members, rest);
  }

  lemma StringInText(members: Members, rest: Text, pieces: seq<Text>) returns (more: Text)
    requires WellFormedMembers(members) && !NoNames(members) && ValueOf(members) == Str(Flat(pieces))
    ensures
      var text, start := Show(Obj(members)) + rest, ValueStart(members);
      start <= |text| && text[start..] == [QUOTE] + Flat(pieces) + [QUOTE] + more
  {
    var tail := ObjectAroundField(members, rest);
    more := tail[|Show(ValueOf(members))|..];
    assert tail == Show(ValueOf(members)) + more;
    FromTail([OPEN_BRACE], UpToColon(members), GapOf(members), tail);
  }

  lemma FromTail(a: Text, u: Text, g: Text, tail: Text)
    ensures (a + (u + ([COLON] + (g + tail))))[|a| + |u| + 1 + |g|..] == tail
  {
  }

  lemma DraftOfCut(members: Members, rest: Text, pieces: seq<Text>, j: nat)
    requires WellFormedMembers(members) && !NoNames(members) && StartsEnvelope(members)
    requires ValueOf(members) == Str(Flat(pieces)) && j <= |Flat(pieces)|
    ensures ShownAs(members, rest, ValueStart(members) + 1 + j, Trim(ReadAndDecoded([QUOTE] + Flat(pieces)[..j])))
  {
    var more := StringInText(members, rest, pieces);
    CutIsShown(members, rest, Show(Obj(members)) + rest, Flat(pieces), more, j);
  }

  lemma CutIsShown(members: Members, rest: Text, text: Text, body: Text, more: Text, j: nat)
    requires WellFormedMembers(members) && !NoNames(members) && StartsEnvelope(members) && ValueOf(members).Str?
    requires text == Show(Obj(members)) + rest && ValueStart(members) <= |text| && j <= |body|
    requires text[ValueStart(members)..] == [QUOTE] + body + [QUOTE] + more
    ensures ShownAs(members, rest, ValueStart(members) + 1 + j, Trim(ReadAndDecoded([QUOTE] + body[..j])))
  {
    var c := ValueStart(members) + 1 + j;
    CutOfString(text, ValueStart(members), body, more, j);
    DraftAfterCut(members, rest, c);
    ShownAlike(members, rest, c, text[..c][ValueStart(members)..], [QUOTE] + body[..j]);
  }

  lemma ShownAlike(members: Members, rest: Text, c: nat, a: Text, b: Text)
    requires a == b && a != [] && a[0] == QUOTE && ShownAs(members, rest, c, Trim(ReadAndDecoded(a)))
    ensures ShownAs(members, rest, c, Trim(ReadAndDecoded(b)))
  {
  }

  /**
   * While the string arrives: after every cut inside it the draft shows the trimmed beginning of the
   * string and the part of an escape that has arrived; at the end of an escape that is a beginning of
   * the final draft.
   */
  lemma DraftOfPart(members: Members, rest: Text, s: Text, pieces: seq<Text>, j: nat) returns (k: nat, part: Text)
    requires WellFormedMembers(members) && !NoNames(members) && StartsEnvelope(members)
    requires ValueOf(members) == Str(Flat(pieces)) && SpellsAll(pieces, s) && j <= |Flat(pieces)|
    ensures k <= |s| && (part == [] || Unfinished(part)) && Flat(pieces)[..j] == Flat(pieces[..k]) + part
    ensures ShownAs(members, rest, ValueStart(members) + 1 + j, Trim(s[..k] + part))
    ensures part == [] ==> Trim(s[..k] + part) <= Trim(s)
  {
    DraftOfCut(members, rest, pieces, j);
    k, part := CutAnywhere(s, pieces, j);
    if part == [] {
      PartOfTrimmed(s, k);
    }
  }

  lemma PartOfTrimmed(s: Text, k: nat)
    requires k <= |s|
    ensures Trim(s[..k] + []) <= Trim(s)
  {
    assert s[..k] + s[k..] == s && s[..k] + [] == s[..k];
    TrimmedIsPrefix(s[..k], s[k..]);
  }

  lemma CutOfString(text: Text, start: nat, body: Text, more: Text, j: nat)
    requires start <= |text| && text[start..] == [QUOTE] + body + [QUOTE] + more && j <= |body|
    ensures start + 1 + j <= |text| && text[..start + 1 + j][start..] == [QUOTE] + body[..j]
  {
    assert text[..start + 1 + j][start..] == text[start..][..1 + j];
  }

  /** A round that says nothing to a person, only findings, gives no draft. */
  lemma NothingToSay(raw: Text, members: Members)
    requires WellFormedMembers(members) && NoNames(members) && StartsEnvelope(members)
    requires TrimStart(StripFence(raw)) == Show(Obj(members))
    ensures Draft(raw) == []
  {
    var text := Show(Obj(members));
    assert text + [] == text && text[..|text|] == text;
    NoFieldIsFound(members);
    EnvelopeIsRecognised(members, [], |text|);
    var more := ShowFromKey(members, []);
    SummaryOfOtherCut(members.before, members.key, more, |text|);
  }

  // ---- every object, whatever its first key

  /** Where the value of the first key starts. */
  function FirstValue(members: Members): nat
    requires members.Member?
  {
    |members.before| + |members.key| + |members.mid| + |members.gap| + 4
  }

  /** An object around the value of its first key. */
  lemma ObjectAroundFirst(members: Members, rest: Text) returns (tail: Text)
    requires WellFormedMembers(members) && members.Member?
    ensures Show(Obj(members)) + rest
         == FromKey(members.before, members.key, members.mid + ([COLON] + (members.gap + tail)))
    ensures Show(members.value) <= tail && Solid(tail) && tail != []
  {
    var m := members;
    var value, end := Show(m.value), ShowEnd(m.after, m.rest.NoMember?);
    ValueStartsSolid(m.value);
    tail := value + (end + (ShowMembers(m.rest) + ([CLOSE_BRACE] + rest)));
    StartOfObject(m.before, m.key, ShowColon(m.mid, m.gap), value, end, ShowMembers(m.rest), rest);
    AroundFirst(m.mid, m.gap, value, end, ShowMembers(m.rest), rest);
  }

  lemma AroundFirst(mid: Text, gap: Text, value: Text, end: Text, others: Text, rest: Text)
    ensures ShowColon(mid, gap) + value + end + others + [CLOSE_BRACE] + rest
         == mid + ([COLON] + (gap + (value + (end + (others + ([CLOSE_BRACE] + rest))))))
  {
  }

  lemma AtFirstValue(before: Text, key: Text, mid: Text, gap: Text, tail: Text)
    ensures FromKey(before, key, mid + ([COLON] + (gap + tail)))[|before| + |key| + |mid| + |gap| + 4..] == tail
  {
  }

  lemma EmptyIsProse(space: Text, rest: Text)
    requires AllSpace(space)
    ensures IsProse(Show(Obj(NoMember(space))) + rest)
  {
    var x := [CLOSE_BRACE] + rest;
    var head := [OPEN_BRACE] + (space + x);
    assert Show(Obj(NoMember(space))) + rest == head;
    UnwrappedAfter([OPEN_BRACE] + space, x);
    assert [OPEN_BRACE] + space + x == head;
    assert Lower(x[0]) == CLOSE_BRACE;
    NoNameInBraces(space, x);
  }

  lemma NoNameInBraces(space: Text, x: Text)
    requires AllSpace(space) && x != [] && x[0] == CLOSE_BRACE
    ensures SummaryField([OPEN_BRACE] + (space + x)) == 0
  {
    var head := [OPEN_BRACE] + (space + x);
    StartInBraces(space, x);
    assert head[1 + |space|..] == x;
    NoNameThere(head, 1 + |space|);
  }

  lemma NoNameThere(head: Text, k: nat)
    requires NameStart(head) == k && Name(head[k..]) == 0
    ensures SummaryField(head) == 0
  {
  }

  lemma StartInBraces(space: Text, x: Text)
    requires AllSpace(space) && x != [] && x[0] == CLOSE_BRACE
    ensures NameStart([OPEN_BRACE] + (space + x)) == 1 + |space|
  {
    var head := [OPEN_BRACE] + (space + x);
    assert head[1..] == space + x;
    assert Brackets(head) == 1 by {
      assert head[1] == if space == [] then CLOSE_BRACE else space[0];
    }
    SpacesBefore(space, x);
    assert Spaces(x) == 0 && head[1 + |space|..] == x;
  }

  /** Where `SUMMARY_FIELD` ends in an object; 0 without a match. */
  function ByFirstKey(members: Members): nat
    requires members.Member?
  {
    if IsSpacedName(members.key) then FirstValue(members)
    else if HasOwnColon(members.key) then |members.before| + 2 + OwnValue(members.key)
    else 0
  }

  lemma SummaryOfObject(members: Members, rest: Text)
    requires WellFormedMembers(members) && members.Member?
    ensures SummaryField(Show(Obj(members)) + rest) == ByFirstKey(members)
  {
    var m := members;
    var tail := ObjectAroundFirst(members, rest);
    ColonFound(m.mid, m.gap, tail);
    SummaryOfKey(m.before, m.key, m.mid + ([COLON] + (m.gap + tail)));
  }

  /** An object is shown as it is exactly when its first key does not start like a name of an envelope. */
  lemma ProseByKey(members: Members, rest: Text)
    requires WellFormedMembers(members)
    ensures IsProse(Show(Obj(members)) + rest) <==> members.NoMember? || !LooksKey(members.key)
  {
    var m := members;
    if m.NoMember? {
      EmptyIsProse(m.space, rest);
    } else {
      var tail := ObjectAroundFirst(members, rest);
      KeyDecides(m.before, m.key, m.mid, m.gap + tail);
      SummaryOfObject(members, rest);
      if IsSpacedName(m.key) || HasOwnColon(m.key) {
        NamedKeyLooks(m.key);
      }
    }
  }

  /**
   The exact condition for the draft to be read from the first field of the right name: the first key
   is that name, or starts like a name of an envelope without being taken for one.
   */
  lemma AnswerIsFound(members: Members, rest: Text)
    requires WellFormedMembers(members) && !NoNames(members)
    ensures
      var text := Show(Obj(members)) + rest;
      !IsProse(text) && BodyStart(text) == ValueStart(members) <==> StartsEnvelope(members)
  {
    ProseByKey(members, rest);
    SummaryOfObject(members, rest);
    SearchDecides(members, rest);
    FirstFieldDecides(members, Show(Obj(members)) + rest);
  }

  lemma FirstFieldDecides(members: Members, text: Text)
    requires !NoNames(members) && (IsProse(text) <==> !LooksKey(members.key))
    requires SummaryField(text) == ByFirstKey(members) && FieldEnd(text) == ValueStart(members)
    ensures !IsProse(text) && BodyStart(text) == ValueStart(members) <==> StartsEnvelope(members)
  {
    if IsName(members.key) {
      NameIsSpacedName(members.key);
    } else {
      FirstIsBefore(members);
    }
  }

  lemma FirstIsBefore(members: Members)
    requires !NoNames(members) && !IsName(members.key)
    ensures |members.before| + 2 + |members.key| < FirstValue(members) < ValueStart(members)
  {
  }

  /**
   What is shown of a text that starts with an object: the text as it is, or what is read from the
   value of the first key, from the inside of that key, from the first field of the right name, or nothing.
   */
  predicate DraftByKey(draft: Text, raw: Text, members: Members, text: Text) {
    if members.NoMember? || !LooksKey(members.key) then draft == Trim(StripFence(raw))
    else if ByFirstKey(members) > 0 then ByFirstKey(members) <= |text| && draft == DraftOf(text[ByFirstKey(members)..])
    else if NoNames(members) then text == Show(Obj(members)) ==> draft == []
    else ValueStart(members) <= |text| && draft == DraftOf(text[ValueStart(members)..])
  }

  /** The draft of any object, whatever its first key and whatever follows it. */
  lemma DraftOfObject(raw: Text, members: Members, rest: Text)
    requires WellFormedMembers(members) && TrimStart(StripFence(raw)) == Show(Obj(members)) + rest
    ensures DraftByKey(Draft(raw), raw, members, Show(Obj(members)) + rest)
    ensures members.Member? && IsSpacedName(members.key) ==>
              StartsAt(Show(Obj(members)) + rest, FirstValue(members), Show(members.value))
  {
    var m := members;
    ProseByKey(members, rest);
    SearchDecides(members, rest);
    if m.Member? {
      SummaryOfObject(members, rest);
      if IsSpacedName(m.key) {
        var tail := ObjectAroundFirst(members, rest);
        AtFirstValue(m.before, m.key, m.mid, m.gap, tail);
      }
    }
    KeyDecidesDraft(raw, members, Show(Obj(members)) + rest);
  }

  predicate StartsAt(text: Text, k: nat, part: Text) {
    k <= |text| && part <= text[k..]
  }

  lemma KeyDecidesDraft(raw: Text, members: Members, text: Text)
    requires TrimStart(StripFence(raw)) == text && Show(Obj(members)) <= text
    requires IsProse(text) <==> members.NoMember? || !LooksKey(members.key)
    requires members.Member? ==> SummaryField(text) == ByFirstKey(members)
    requires if NoNames(members) then text == Show(Obj(members)) ==> FieldEnd(text) == -1
             else FieldEnd(text) == ValueStart(members) <= |text|
    ensures DraftByKey(Draft(raw), raw, members, text)
  {
    assert Show(Obj(members))[0] == OPEN_BRACE;
    DraftOfText(raw, text);
  }

  lemma DraftOfText(raw: Text, text: Text)
    requires TrimStart(StripFence(raw)) == text != []
    ensures IsProse(text) ==> Draft(raw) == Trim(StripFence(raw))
    ensures !IsProse(text) && SummaryField(text) > 0 ==> Draft(raw) == DraftOf(text[SummaryField(text)..])
    ensures !IsProse(text) && SummaryField(text) == 0 ==> FieldEnd(text) <= |text|
    ensures !IsProse(text) && SummaryField(text) == 0 ==> Draft(raw) == DraftFrom(text, FieldEnd(text))
  {
    FindStaysInText(text, 0, 0);
  }

  lemma SearchDecides(members: Members, rest: Text)
    requires WellFormedMembers(members)
    ensures
      var text := Show(Obj(members)) + rest;
      if NoNames(members) then text == Show(Obj(members)) ==> FieldEnd(text) == -1
      else FieldEnd(text) == ValueStart(members) <= |text|
  {
    var text := Show(Obj(members)) + rest;
    if NoNames(members) {
      NoFieldIsFound(members);
      assert Show(Obj(members)) + [] == Show(Obj(members));
    } else {
      FieldIsFound(members, rest, |text|);
      assert text[..|text|] == text;
      var tail := ObjectAroundField(members, rest);
    }
  }

  /** White space around a field name in the first key does not hurt: the same holds after every cut. */
  lemma SpacedAnswerAfterCut(members: Members, rest: Text, c: nat)
    requires WellFormedMembers(members) && members.Member? && IsSpacedName(members.key)
    requires members.value.Str? && c <= |Show(Obj(members)) + rest|
    ensures
      var head, start := (Show(Obj(members)) + rest)[..c], FirstValue(members);
      ShownAs(members, rest, c, if c <= start then [] else Trim(ReadAndDecoded(head[start..])))
  {
    var text, m, start := Show(Obj(members)) + rest, members, FirstValue(members);
    var tail := ObjectAroundFirst(members, rest);
    AtFirstValue(m.before, m.key, m.mid, m.gap, tail);
    assert text[start] == tail[0] == QUOTE;
    NamedKeyLooks(m.key);
    EnvelopeIsRecognised(members, rest, c);
    SummaryOfNameCut(m.before, m.key, m.mid, m.gap, tail, c);
    if c <= |m.before| + |m.key| + |m.mid| + 3 {
      NotBeforeFirstColon(m.before, m.key, m.mid, [COLON] + (m.gap + tail), c);
    }
    DraftAt(text, c, start, BodyStart(text[..c]));
  }

  lemma NotBeforeFirstColon(before: Text, key: Text, mid: Text, x: Text, c: nat)
    requires AllSpace(before) && IsBody(key) && AllSpace(mid) && c <= |before| + |key| + |mid| + 3
    ensures FieldEnd(FromKey(before, key, mid + x)[..c]) == -1
  {
    var u := before + ShowString(key) + mid;
    NameFromKey(before, key, mid, x);
    NotBeforeColon(before, key, mid);
    NotInBeginning(FromKey(before, key, mid + x), u, x, c);
  }

  lemma NotInBeginning(text: Text, u: Text, x: Text, c: nat)
    requires text == [OPEN_BRACE] + (u + x) && NotIn(u, 1) && c <= 1 + |u|
    ensures FieldEnd(text[..c]) == -1
  {
    CutAfterBrace(text, u + x, c);
    if c > 0 {
      assert u[..c - 1] + u[c - 1..] == u && (u + x)[..c - 1] == u[..c - 1];
      assert Find(u, 1, 1) == -1;
      NotInPart(u[..c - 1], u[c - 1..], 1, 1);
    }
  }

  // ---- the first field, as loosely as it may be written

  /** The signs of a fence line, and those that may stand around a name. */
  lemma SignsAroundText(u: Unit)
    ensures [BACKTICK, BACKTICK, BACKTICK] == Codes("```") && FINDINGS == Codes("findings")
    ensures InLabel(u) <==> 'A' as int <= u <= 'Z' as int || 'a' as int <= u <= 'z' as int || '0' as int <= u <= '9' as int
                            || u in Codes("_-")
    ensures IsBlank(u) <==> u in Codes(" \t")
    ensures IsWrapper(u) <==> u in Codes("{[\"'") || IsSpace(u)
  {
    assert Codes("_-") == [0x5F, 0x2D] && Codes(" \t") == [0x20, 0x09] && Codes("{[\"'") == [0x7B, 0x5B, 0x22, 0x27];
  }

  lemma {:induction false} BracketsBefore(brackets: Text, t: Text)
    requires (forall i :: 0 <= i < |brackets| ==> brackets[i] == 0x7B || brackets[i] == 0x5B) && (t == [] || !Opens(t[0]))
    ensures Brackets(brackets + t) == |brackets|
    decreases |brackets|
  {
    if brackets == [] {
      assert brackets + t == t;
    } else {
      assert (brackets + t)[1..] == brackets[1..] + t;
      BracketsBefore(brackets[1..], t);
    }
  }

  lemma NameStartsThere(brackets: Text, gap: Text, wrapper: Text, space: Text, x: Text)
    requires (forall i :: 0 <= i < |brackets| ==> brackets[i] == 0x7B || brackets[i] == 0x5B)
    requires IsWhite(gap) && IsWhite(space) && (brackets == [] ==> gap == [])
    requires wrapper == [] || wrapper == [0x22] || (gap != [] && (wrapper == [0x5B] || wrapper == [0x7B]))
    requires brackets != [] && wrapper == [] ==> space == []
    requires x != [] && x[0] != QUOTE && !Opens(x[0]) && !IsSpace(x[0])
    ensures NameStart(brackets + (gap + (wrapper + (space + x)))) == |brackets| + |gap| + |wrapper| + |space|
  {
    var tail := space + x;
    var inner := wrapper + tail;
    assert tail[0] == if space != [] then space[0] else x[0];
    assert inner[0] == if wrapper != [] then wrapper[0] else tail[0];
    assert (gap + inner)[0] == if gap != [] then gap[0] else inner[0];
    SpacesBefore(space, x);
    BracketsBefore(brackets, gap + inner);
    NameStartsBehind(brackets, gap, wrapper, tail);
  }

  lemma NameStartsBehind(brackets: Text, gap: Text, wrapper: Text, tail: Text)
    requires IsWhite(gap) && tail != [] && if brackets == [] then gap == [] else Solid(wrapper + tail)
    requires Brackets(brackets + (gap + (wrapper + tail))) == |brackets|
    requires wrapper == [0x22] || wrapper == [0x5B] || wrapper == [0x7B] || (wrapper == [] && tail[0] != QUOTE && !Opens(tail[0]))
    ensures NameStart(brackets + (gap + (wrapper + tail))) == |brackets| + |gap| + |wrapper| + Spaces(tail)
  {
    BehindBrackets(brackets, gap, wrapper + tail);
    WrapperBehind(brackets + (gap + (wrapper + tail)), |brackets| + |gap|, wrapper, tail);
  }

  lemma BehindBrackets(brackets: Text, gap: Text, inner: Text)
    requires Brackets(brackets + (gap + inner)) == |brackets| && IsWhite(gap) && (brackets == [] ==> gap == [])
    requires brackets == [] || Solid(inner)
    ensures AfterBrackets(brackets + (gap + inner)) == |brackets| + |gap|
    ensures (brackets + (gap + inner))[|brackets| + |gap|..] == inner
  {
    assert (brackets + (gap + inner))[|brackets|..] == gap + inner;
    if brackets != [] {
      SpacesBefore(gap, inner);
    }
  }

  lemma WrapperBehind(head: Text, k: nat, wrapper: Text, tail: Text)
    requires k <= |head| && head[k..] == wrapper + tail && tail != []
    requires wrapper == [0x22] || wrapper == [0x5B] || wrapper == [0x7B] || (wrapper == [] && tail[0] != QUOTE && !Opens(tail[0]))
    ensures AfterWrapper(head, k) == k + |wrapper| + Spaces(tail)
  {
    assert head[k] == (wrapper + tail)[0];
    assert head[k + |wrapper|..] == tail;
  }

  lemma ValueBehindName(space: Text, closing: Text, gap: Text, c: Unit, behind: Text, rest: Text)
    requires IsWhite(space) && IsWhite(gap) && IsWhite(behind) && Solid(rest)
    requires closing in {[], [0x22], [0x5D], [0x7D]} && (closing == [] ==> gap == []) && (c == 0x3A || c == 0xFF1A)
    ensures ToValue(space + (closing + (gap + ([c] + (behind + rest)))))
         == |space| + |closing| + (|gap| + 1 + |behind|)
  {
    ColonIsFound(gap, c, behind, rest);
    ColonBehind(space, closing, gap + ([c] + (behind + rest)));
  }

  lemma ColonBehind(space: Text, closing: Text, colon: Text)
    requires IsWhite(space) && colon != [] && ColonEnd(colon, 0) > 0
    requires closing == [0x22] || closing == [0x5D] || closing == [0x7D] || (closing == [] && IsColon(colon[0]))
    ensures ToValue(space + (closing + colon)) == |space| + |closing| + ColonEnd(colon, 0)
  {
    ClosingFirst(closing, colon);
    SpacesBefore(space, closing + colon);
    OptionalFurther(space, closing + colon, CLOSE_BRACKET, CLOSE_BRACE);
    Associative(space, closing, colon);
    ColonFurther(space + closing, colon);
    ToValueFrom(space + (closing + colon), |space|, |space + closing|);
  }

  lemma ToValueFrom(t: Text, j: nat, k: nat)
    requires j <= k <= |t| && Spaces(t) == j && Optional(t, j, CLOSE_BRACKET, CLOSE_BRACE) == k
    ensures ToValue(t) == ColonEnd(t, k)
  {
  }

  lemma ClosingFirst(closing: Text, colon: Text)
    requires colon != []
    requires closing == [0x22] || closing == [0x5D] || closing == [0x7D] || (closing == [] && IsColon(colon[0]))
    ensures Spaces(closing + colon) == 0 && Optional(closing + colon, 0, CLOSE_BRACKET, CLOSE_BRACE) == |closing|
  {
    assert (closing + colon)[0] == if closing == [] then colon[0] else closing[0];
  }

  lemma OptionalFurther(front: Text, t: Text, a: Unit, b: Unit)
    requires t != []
    ensures Optional(front + t, |front|, a, b) == |front| + Optional(t, 0, a, b)
  {
    assert (front + t)[|front|] == t[0];
  }

  /**
   The first field may stand behind brackets and one quote or bracket more, its name in letters of
   either case, with white space everywhere, and a quote or bracket may follow the name.
   */
  lemma FirstFieldIsFound(brackets: Text, gap: Text, wrapper: Text, space: Text, w: Text, name: string,
                          mid: Text, closing: Text, between: Text, c: Unit, behind: Text, rest: Text)
    requires (forall i :: 0 <= i < |brackets| ==> brackets[i] == 0x7B || brackets[i] == 0x5B)
    requires IsWhite(gap) && IsWhite(space) && (brackets == [] ==> gap == [])
    requires wrapper == [] || wrapper == [0x22] || (gap != [] && (wrapper == [0x5B] || wrapper == [0x7B]))
    requires brackets != [] && wrapper == [] ==> space == []
    requires (name == "summary" || name == "answer" || name == "text") && IsWord(w, name)
    requires IsWhite(mid) && IsWhite(between) && IsWhite(behind) && Solid(rest)
    requires closing in {[], [0x22], [0x5D], [0x7D]} && (closing == [] ==> between == []) && (c == 0x3A || c == 0xFF1A)
    ensures
      var field := mid + (closing + (between + ([c] + (behind + rest))));
      SummaryField(brackets + (gap + (wrapper + (space + (w + field)))))
      == |brackets| + |gap| + |wrapper| + |space| + |w| + (|mid| + |closing| + (|between| + 1 + |behind|))
  {
    var field := mid + (closing + (between + ([c] + (behind + rest))));
    ValueBehindName(mid, closing, between, c, behind, rest);
    FieldBehindFront(brackets, gap, wrapper, space, w, name, field);
  }

  lemma FieldBehindFront(brackets: Text, gap: Text, wrapper: Text, space: Text, w: Text, name: string, field: Text)
    requires (forall i :: 0 <= i < |brackets| ==> brackets[i] == 0x7B || brackets[i] == 0x5B)
    requires IsWhite(gap) && IsWhite(space) && (brackets == [] ==> gap == [])
    requires wrapper == [] || wrapper == [0x22] || (gap != [] && (wrapper == [0x5B] || wrapper == [0x7B]))
    requires brackets != [] && wrapper == [] ==> space == []
    requires (name == "summary" || name == "answer" || name == "text") && IsWord(w, name) && ToValue(field) > 0
    ensures SummaryField(brackets + (gap + (wrapper + (space + (w + field)))))
         == |brackets| + |gap| + |wrapper| + |space| + |w| + ToValue(field)
  {
    NameOfWord(w, name, field);
    var x := w + field;
    assert x[0] == w[0];
    NameStartsThere(brackets, gap, wrapper, space, x);
    FourInFront(brackets, gap, wrapper, space, x);
    BehindFront(brackets + gap + wrapper + space, w, field);
    FieldBehind(brackets + (gap + (wrapper + (space + x))), |brackets + gap + wrapper + space|, |w|, x, field);
  }

  lemma FourInFront(a: Text, b: Text, c: Text, d: Text, x: Text)
    ensures a + (b + (c + (d + x))) == a + b + c + d + x
    ensures |a + b + c + d| == |a| + |b| + |c| + |d|
  {
  }

  lemma SummaryFieldAt(head: Text, k: nat, n: nat, x: Text)
    requires k + n <= |head| && NameStart(head) == k && head[k..] == x && Name(x) == n > 0
    ensures SummaryField(head) == AfterName(head, k + n)
  {
    FromNameIs(head, k);
  }

  lemma AfterNameIs(head: Text, i: nat, y: Text)
    requires i <= |head| && head[i..] == y && ToValue(y) > 0
    ensures AfterName(head, i) == i + ToValue(y)
  {
  }

  lemma BehindFront(front: Text, w: Text, field: Text)
    ensures (front + (w + field))[|front|..] == w + field
    ensures (front + (w + field))[|front| + |w|..] == field
  {
  }

  lemma FieldBehind(head: Text, k: nat, n: nat, x: Text, field: Text)
    requires k + n <= |head| && NameStart(head) == k && head[k..] == x && head[k + n..] == field
    requires Name(x) == n > 0 && ToValue(field) > 0
    ensures SummaryField(head) == k + n + ToValue(field)
  {
    SummaryFieldAt(head, k, n, x);
    AfterNameIs(head, k + n, field);
  }

  // ---- values that are not in straight quotes

  lemma {:induction false} UpToFirst(t: Text, u: Unit, rest: Text)
    requires u !in t && (rest == [] || rest[0] == u)
    ensures UpTo(t + rest, u) == t
  {
    if t == [] {
      assert t + rest == rest;
    } else {
      assert (t + rest)[1..] == t[1..] + rest;
      UpToFirst(t[1..], u, rest);
    }
  }

  /** A value between corner brackets, or behind the opening one as far as it has arrived. */
  lemma DraftInCorners(t: Text, rest: Text)
    requires 0x300D !in t && (rest == [] || rest[0] == 0x300D)
    ensures DraftOf([0x300C] + t + rest) == Trim(t)
  {
    var body := [0x300C] + t + rest;
    assert body[1..] == t + rest;
    UpToFirst(t, CLOSE_CORNER, rest);
  }

  /** The signs that may follow a value without being part of it. */
  predicate IsEnd(u: Unit) {
    u == 0x2C || u == 0x7D || u == 0x5D || IsSpace(u)
  }

  lemma {:induction false} StripTailOf(v: Text, tail: Text)
    requires v != [] && !IsEnd(v[|v| - 1]) && forall i :: 0 <= i < |tail| ==> IsEnd(tail[i])
    ensures StripTail(v + tail) == v
    decreases |tail|
  {
    var t := v + tail;
    if tail == [] {
      assert t == v;
    } else {
      assert t[..|t| - 1] == v + tail[..|tail| - 1];
      StripTailOf(v, tail[..|tail| - 1]);
    }
  }

  lemma {:induction false} TrimEndOfTail(v: Text, tail: Text) returns (n: nat)
    requires v != [] && !IsSpace(v[|v| - 1])
    ensures n <= |tail| && TrimEnd(v + tail) == v + tail[..n]
    decreases |tail|
  {
    var t := v + tail;
    if tail != [] && IsSpace(tail[|tail| - 1]) {
      assert t[..|t| - 1] == v + tail[..|tail| - 1];
      n := TrimEndOfTail(v, tail[..|tail| - 1]);
      assert tail[..|tail| - 1][..n] == tail[..n];
    } else {
      n := |tail|;
      assert tail[..n] == tail;
    }
  }

  lemma {:induction false} BeforeFirstFindings(t: Text, more: Text)
    requires forall i :: 0 <= i < |t| ==> !FindingsField(t[i..] + more)
    requires more == [] || FindingsField(more)
    ensures BeforeFindings(t + more) == t
    decreases |t|
  {
    if t == [] {
      assert t + more == more;
    } else {
      assert t[0..] == t;
      assert (t + more)[1..] == t[1..] + more;
      forall i | 0 <= i < |t[1..]| ensures !FindingsField(t[1..][i..] + more) {
        assert t[1..][i..] == t[i + 1..];
      }
      BeforeFirstFindings(t[1..], more);
    }
  }

  /** A value without quotes ends before the findings, and without the signs that may follow a value. */
  lemma DraftWithoutQuotes(v: Text, tail: Text, more: Text)
    requires v != [] && v[0] != 0x22 && v[0] != 0x300C && !IsSpace(v[0]) && !IsEnd(v[|v| - 1])
    requires forall i :: 0 <= i < |tail| ==> IsEnd(tail[i])
    requires forall i :: 0 <= i < |v + tail| ==> !FindingsField((v + tail)[i..] + more)
    requires more == [] || FindingsField(more)
    ensures DraftOf(v + tail + more) == Trim(Decoded(v))
  {
    BeforeFirstFindings(v + tail, more);
    var n := TrimEndOfTail(v, tail);
    StripTailOf(v, tail[..n]);
  }

  /** The field with the findings, as JSON writes it. */
  lemma FindingsAreRecognised(mid: Text, rest: Text)
    requires IsWhite(mid)
    ensures FindingsField([0x22] + Codes("findings") + [0x22] + mid + [0x3A] + rest)
  {
    var w := Codes("findings");
    assert w == FINDINGS;
    var t := [0x22] + w + [0x22] + mid + [0x3A] + rest;
    assert t[1..] == w + ([0x22] + mid + [0x3A] + rest);
    assert AfterWrapper(t, 0) == 1 by {
      assert t[1] == 0x66;
    }
    var x := [0x22] + (mid + ([0x3A] + rest));
    assert t[1 + |w|..] == x;
    QuoteThenColon(mid, rest);
  }

  lemma QuoteThenColon(mid: Text, rest: Text)
    requires IsWhite(mid)
    ensures ToValue([0x22] + (mid + ([0x3A] + rest))) > 0
  {
    var x := [0x22] + (mid + ([0x3A] + rest));
    assert Spaces(x) == 0;
    assert Optional(x, 0, CLOSE_BRACKET, CLOSE_BRACE) == 1;
    assert x[1..] == mid + ([0x3A] + rest);
    SpacesBefore(mid, [0x3A] + rest);
    assert x[1 + |mid|] == 0x3A;
  }
}
