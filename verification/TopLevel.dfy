/** The field search finds the first key of the right name at the top level, and nothing else. */
module TopLevel {
  import opened Envelope
  import opened FieldFinder
  import opened Json

  /** The text before the colon of the first key that is a field name. */
  function UpToColon(members: Members): Text
    requires !NoNames(members)
  {
    if IsName(members.key) then members.before + ShowString(members.key) + members.mid
    else
      ShowMember(members.before, members.key, members.mid, members.gap, Show(members.value), members.after, false)
      + UpToColon(members.rest)
  }

  /** The white space after that colon. */
  function GapOf(members: Members): Text
    requires !NoNames(members)
  {
    if IsName(members.key) then members.gap else GapOf(members.rest)
  }

  function ValueOf(members: Members): Value
    requires !NoNames(members)
  {
    if IsName(members.key) then members.value else ValueOf(members.rest)
  }

  /** What follows the value of that key, up to the closing brace. */
  function AfterValue(members: Members): Text
    requires !NoNames(members)
  {
    if IsName(members.key) then ShowEnd(members.after, members.rest.NoMember?) + ShowMembers(members.rest)
    else AfterValue(members.rest)
  }

  lemma {:induction false} MembersAroundField(members: Members)
    requires WellFormedMembers(members) && !NoNames(members)
    ensures ShowMembers(members)
         == UpToColon(members) + ([COLON] + (GapOf(members) + (Show(ValueOf(members)) + AfterValue(members))))
    ensures AllSpace(GapOf(members)) && WellFormed(ValueOf(members))
    decreases members
  {
    var m := members;
    if IsName(m.key) {
      AroundKey(m.before + ShowString(m.key), m.before, ShowString(m.key), m.mid, m.gap,
                Show(m.value), ShowEnd(m.after, m.rest.NoMember?), ShowMembers(m.rest));
    } else {
      MembersAroundField(m.rest);
      var head := ShowMember(m.before, m.key, m.mid, m.gap, Show(m.value), m.after, false);
      Associative(head, UpToColon(m.rest), [COLON] + (GapOf(m) + (Show(ValueOf(m)) + AfterValue(m))));
    }
  }

  lemma AroundKey(start: Text, before: Text, key: Text, mid: Text, gap: Text, value: Text, end: Text, rest: Text)
    requires start == before + key
    ensures before + key + (mid + [COLON] + gap) + value + end + rest
         == start + mid + ([COLON] + (gap + (value + (end + rest))))
  {
  }

  lemma ValueStartsSolid(v: Value)
    requires WellFormed(v)
    ensures Show(v) != [] && !IsSpace(Show(v)[0])
  {
  }

  // ---- found

  lemma ColonFound(mid: Text, gap: Text, tail: Text)
    requires AllSpace(mid) && AllSpace(gap) && (tail == [] || !IsSpace(tail[0]))
    ensures ColonEnd(mid + ([COLON] + (gap + tail)), 0) == |mid| + 1 + |gap|
  {
    var t := [COLON] + (gap + tail);
    ColonAfterSpace(mid, t);
    assert t[0..] == t && t[1..] == gap + tail;
    SpacesBefore(gap, tail);
  }

  lemma KeyFound(key: Text, mid: Text, gap: Text, tail: Text, at: nat)
    requires IsBody(key) && IsName(key) && AllSpace(mid) && AllSpace(gap) && (tail == [] || !IsSpace(tail[0]))
    ensures Find(ShowString(key) + (mid + ([COLON] + (gap + tail))), 1, at) == at + |key| + 2 + |mid| + 1 + |gap|
  {
    ColonFound(mid, gap, tail);
    QuotedString(key, mid + ([COLON] + (gap + tail)));
  }

  /** The search at the top level ends n units on, wherever the text stands. */
  ghost predicate EndsAfter(t: Text, n: nat) {
    forall at: nat :: Find(t, 1, at) == at + n
  }

  lemma FieldFoundHere(before: Text, key: Text, mid: Text, gap: Text, tail: Text)
    requires AllSpace(before) && IsBody(key) && IsName(key) && AllSpace(mid) && AllSpace(gap)
    requires tail == [] || !IsSpace(tail[0])
    ensures EndsAfter(before + ShowString(key) + mid + ([COLON] + (gap + tail)),
                      |before + ShowString(key) + mid| + 1 + |gap|)
  {
    var s, t := ShowString(key), mid + ([COLON] + (gap + tail));
    SkipCalm(before, 1, s + t);
    KeyEnds(key, mid, gap, tail);
    EndsBehind(before, s + t, |key| + 2 + |mid| + 1 + |gap|);
    FourTexts(before, s, mid, [COLON] + (gap + tail));
  }

  lemma KeyEnds(key: Text, mid: Text, gap: Text, tail: Text)
    requires IsBody(key) && IsName(key) && AllSpace(mid) && AllSpace(gap) && (tail == [] || !IsSpace(tail[0]))
    ensures EndsAfter(ShowString(key) + (mid + ([COLON] + (gap + tail))), |key| + 2 + |mid| + 1 + |gap|)
  {
    forall at: nat
      ensures Find(ShowString(key) + (mid + ([COLON] + (gap + tail))), 1, at) == at + (|key| + 2 + |mid| + 1 + |gap|)
    {
      KeyFound(key, mid, gap, tail, at);
    }
  }

  lemma FourTexts(a: Text, b: Text, c: Text, d: Text)
    ensures a + (b + (c + d)) == a + b + c + d
  {
  }

  lemma EndsBehind(head: Text, t: Text, n: nat)
    requires Skips(head, 1, t) && EndsAfter(t, n)
    ensures EndsAfter(head + t, |head| + n)
  {
    forall at: nat ensures Find(head + t, 1, at) == at + (|head| + n) {
      assert Find(t, 1, at + |head|) == at + |head| + n;
    }
  }

  /** With any white space after the colon the search ends behind it. */
  lemma {:induction false} FieldFound(members: Members, gap: Text, tail: Text)
    requires WellFormedMembers(members) && !NoNames(members)
    requires AllSpace(gap) && (tail == [] || !IsSpace(tail[0]))
    ensures EndsAfter(UpToColon(members) + ([COLON] + (gap + tail)), |UpToColon(members)| + 1 + |gap|)
    decreases members
  {
    var m := members;
    if IsName(m.key) {
      FieldFoundHere(m.before, m.key, m.mid, gap, tail);
    } else {
      var t, u := [COLON] + (gap + tail), UpToColon(m.rest);
      var head := ShowMember(m.before, m.key, m.mid, m.gap, Show(m.value), m.after, false);
      SkipFirst(m, u + t);
      FieldFound(m.rest, gap, tail);
      EndsBehind(head, u + t, |u| + 1 + |gap|);
      Associative(head, u, t);
    }
  }

  lemma SkipFirst(m: Members, tail: Text)
    requires m.Member? && WellFormedMembers(m) && !IsName(m.key)
    ensures Skips(ShowMember(m.before, m.key, m.mid, m.gap, Show(m.value), m.after, false), 1, tail)
  {
    NoColonAfterValue(m.after, false, tail);
    SkipValue(m.value, 1, ShowEnd(m.after, false) + tail);
    SkipMember(m.before, m.key, m.mid, m.gap, Show(m.value), m.after, false, 1, tail);
  }

  // ---- not found

  ghost predicate NotIn(t: Text, depth: int) {
    forall at: nat :: Find(t, depth, at) == -1
  }

  lemma SkipThenNothing(a: Text, b: Text, depth: int)
    requires Skips(a, depth, b) && NotIn(b, depth)
    ensures NotIn(a + b, depth)
  {
    forall at: nat ensures Find(a + b, depth, at) == -1 {
      assert Find(b, depth, at + |a|) == -1;
    }
  }

  lemma NotInSpace(space: Text, depth: int)
    requires AllSpace(space)
    ensures NotIn(space, depth)
  {
    SkipCalm(space, depth, []);
    SkipThenNothing(space, [], depth);
    assert space + [] == space;
  }

  lemma NotBeforeColon(before: Text, key: Text, mid: Text)
    requires AllSpace(before) && IsBody(key) && AllSpace(mid)
    ensures NotIn(before + ShowString(key) + mid, 1)
  {
    var s := ShowString(key);
    ColonAfterSpace(mid, []);
    assert mid + [] == mid;
    SkipCalm(before, 1, s + mid);
    SkipString(key, 1, mid);
    SkipBoth(before, s, 1, mid);
    NotInSpace(mid, 1);
    SkipThenNothing(before + s, mid, 1);
  }

  lemma {:induction false} NothingBeforeColon(members: Members)
    requires WellFormedMembers(members) && !NoNames(members)
    ensures NotIn(UpToColon(members), 1)
    decreases members
  {
    var m := members;
    if IsName(m.key) {
      NotBeforeColon(m.before, m.key, m.mid);
    } else {
      SkipFirst(m, UpToColon(m.rest));
      NothingBeforeColon(m.rest);
      SkipThenNothing(ShowMember(m.before, m.key, m.mid, m.gap, Show(m.value), m.after, false), UpToColon(m.rest), 1);
    }
  }

  lemma EnterObject(t: Text)
    ensures FieldEnd([OPEN_BRACE] + t) == Find(t, 1, 1)
  {
    assert ([OPEN_BRACE] + t)[1..] == t;
  }

  lemma NotAtEnd()
    ensures NotIn([CLOSE_BRACE], 1)
  {
    assert [CLOSE_BRACE][1..] == [];
  }

  /** Without such a key at the top level nothing is found, however deep the name occurs. */
  lemma NoFieldIsFound(members: Members)
    requires WellFormedMembers(members) && NoNames(members)
    ensures FieldEnd(Show(Obj(members))) == -1
  {
    var inner := ShowMembers(members);
    NoColonAt(CLOSE_BRACE, []);
    assert [CLOSE_BRACE] + [] == [CLOSE_BRACE];
    SkipMembers(members, 1, [CLOSE_BRACE]);
    NotAtEnd();
    SkipThenNothing(inner, [CLOSE_BRACE], 1);
    Associative([OPEN_BRACE], inner, [CLOSE_BRACE]);
    EnterObject(inner + [CLOSE_BRACE]);
  }

  // ---- a text that is cut

  lemma {:induction false} SpacesOfPart(p: Text, more: Text)
    ensures if Spaces(p) < |p| then Spaces(p + more) == Spaces(p) else Spaces(p + more) >= |p|
    decreases |p|
  {
    if p != [] && IsSpace(p[0]) {
      assert (p + more)[1..] == p[1..] + more;
      SpacesOfPart(p[1..], more);
    }
  }

  lemma ColonOfPart(p: Text, more: Text, k: nat)
    requires k <= |p| && ColonEnd(p, k) > 0
    ensures ColonEnd(p + more, k) > 0
  {
    assert (p + more)[k..] == p[k..] + more;
    SpacesOfPart(p[k..], more);
  }

  lemma WordStarts(t: Text, w: Text)
    requires HasWord(t, w) && w != []
    ensures t != [] && Lower(t[0]) == w[0]
  {
  }

  lemma NameOfPart(p: Text, more: Text)
    requires Name(p) > 0
    ensures Name(p + more) == Name(p)
  {
    var all := p + more;
    assert all[0] == p[0];
    if HasWord(p, SUMMARY) {
      assert HasWord(all, SUMMARY);
    } else if HasWord(p, ANSWER) {
      assert HasWord(all, ANSWER);
      WordStarts(p, ANSWER);
      assert !HasWord(all, SUMMARY);
    } else {
      assert HasWord(all, TEXT);
      WordStarts(p, TEXT);
      assert !HasWord(all, SUMMARY) && !HasWord(all, ANSWER);
    }
  }

  lemma QuotedOfPart(p: Text, more: Text)
    requires Quoted(p) > 0
    ensures Quoted(p + more) > 0
  {
    assert (p + more)[1..] == p[1..] + more;
    NameOfPart(p[1..], more);
    ColonOfPart(p, more, Name(p[1..]) + 2);
  }

  lemma BareOfPart(p: Text, more: Text)
    requires Bare(p) > 0
    ensures Bare(p + more) > 0
  {
    NameOfPart(p, more);
    ColonOfPart(p, more, Name(p));
  }

  /** What is not found in a text is not found in a part of it that has arrived. */
  lemma {:induction false} NotInPart(p: Text, more: Text, depth: int, at: nat)
    requires Find(p + more, depth, at) == -1
    ensures Find(p, depth, at) == -1
    decreases |p|
  {
    if p != [] {
      assert (p + more)[1..] == p[1..] + more;
      if p[0] == QUOTE {
        if depth == 1 && Quoted(p) > 0 {
          QuotedOfPart(p, more);
        } else {
          NotInPartOfString(p[1..], more, false, depth, at + 1);
        }
      } else if depth == 1 && !Opens(p[0]) && Bare(p) > 0 {
        BareOfPart(p, more);
      } else {
        NotInPart(p[1..], more, Depth(depth, p[0]), at + 1);
      }
    }
  }

  lemma {:induction false} NotInPartOfString(p: Text, more: Text, escaped: bool, depth: int, at: nat)
    requires InString(p + more, escaped, depth, at) == -1
    ensures InString(p, escaped, depth, at) == -1
    decreases |p|
  {
    if p != [] {
      assert (p + more)[1..] == p[1..] + more;
      if !escaped && p[0] == QUOTE {
        NotInPart(p[1..], more, depth, at + 1);
      } else {
        NotInPartOfString(p[1..], more, !escaped && p[0] == BACKSLASH, depth, at + 1);
      }
    }
  }

  function Min(a: int, b: int): int {
    if a <= b then a else b
  }

  /** Where the search ends when c units of an object have arrived. */
  function EndAfter(members: Members, c: nat): int
    requires !NoNames(members)
  {
    var colon := 1 + |UpToColon(members)|;
    if c <= colon then -1 else Min(c, colon + 1 + |GapOf(members)|)
  }

  /** A cut of the text after the opening brace. */
  lemma FoundInPart(members: Members, tail: Text, k: nat)
    requires WellFormedMembers(members) && !NoNames(members) && (tail == [] || !IsSpace(tail[0]))
    requires k <= |UpToColon(members)| + 1 + |GapOf(members)| + |tail|
    ensures Find((UpToColon(members) + ([COLON] + (GapOf(members) + tail)))[..k], 1, 1) == EndAfter(members, k + 1)
  {
    var u, gap := UpToColon(members), GapOf(members);
    GapIsSpace(members);
    var x := u + ([COLON] + (gap + tail));
    if k <= |u| {
      NothingBeforeColon(members);
      assert u[..k] + u[k..] == u && x[..k] == u[..k];
      assert Find(u, 1, 1) == -1;
      NotInPart(u[..k], u[k..], 1, 1);
    } else {
      var j := k - |u| - 1;
      if j <= |gap| {
        assert x[..k] == u + ([COLON] + (gap[..j] + []));
        FieldFound(members, gap[..j], []);
      } else {
        assert x[..k] == u + ([COLON] + (gap + tail[..j - |gap|]));
        FieldFound(members, gap, tail[..j - |gap|]);
      }
    }
  }

  lemma {:induction false} GapIsSpace(members: Members)
    requires WellFormedMembers(members) && !NoNames(members)
    ensures AllSpace(GapOf(members))
    decreases members
  {
    if !IsName(members.key) {
      GapIsSpace(members.rest);
    }
  }

  lemma ObjectAroundField(members: Members, rest: Text) returns (tail: Text)
    requires WellFormedMembers(members) && !NoNames(members)
    ensures tail != [] && !IsSpace(tail[0])
    ensures Show(Obj(members)) + rest
         == [OPEN_BRACE] + (UpToColon(members) + ([COLON] + (GapOf(members) + tail)))
    ensures Show(ValueOf(members)) <= tail
  {
    var u, g, v, a := UpToColon(members), GapOf(members), Show(ValueOf(members)), AfterValue(members);
    MembersAroundField(members);
    ValueStartsSolid(ValueOf(members));
    tail := v + (a + ([CLOSE_BRACE] + rest));
    AroundValue(u, g, v, a, rest);
    Enclosed(ShowMembers(members), rest);
  }

  lemma Enclosed(inner: Text, rest: Text)
    ensures [OPEN_BRACE] + inner + [CLOSE_BRACE] + rest == [OPEN_BRACE] + (inner + ([CLOSE_BRACE] + rest))
  {
  }

  lemma AroundValue(u: Text, g: Text, v: Text, a: Text, rest: Text)
    ensures u + ([COLON] + (g + (v + a))) + ([CLOSE_BRACE] + rest)
         == u + ([COLON] + (g + (v + (a + ([CLOSE_BRACE] + rest)))))
  {
  }

  lemma FoundInText(members: Members, text: Text, tail: Text, c: nat)
    requires WellFormedMembers(members) && !NoNames(members) && (tail == [] || !IsSpace(tail[0]))
    requires text == [OPEN_BRACE] + (UpToColon(members) + ([COLON] + (GapOf(members) + tail))) && c <= |text|
    ensures FieldEnd(text[..c]) == EndAfter(members, c)
  {
    CutAfterBrace(text, UpToColon(members) + ([COLON] + (GapOf(members) + tail)), c);
    if c > 0 {
      FoundInPart(members, tail, c - 1);
    }
  }

  /**
   * For every object with such a key, whatever follows it, and after every cut: nothing is found
   * until the colon has arrived; then the search ends behind the colon and the white space after it,
   * where the value starts.
   */
  lemma FieldIsFound(members: Members, rest: Text, c: nat)
    requires WellFormedMembers(members) && !NoNames(members) && c <= |Show(Obj(members)) + rest|
    ensures FieldEnd((Show(Obj(members)) + rest)[..c]) == EndAfter(members, c)
  {
    var tail := ObjectAroundField(members, rest);
    FoundInText(members, Show(Obj(members)) + rest, tail, c);
  }

  lemma CutAfterBrace(text: Text, x: Text, c: nat)
    requires text == [OPEN_BRACE] + x && c <= |text|
    ensures FieldEnd(text[..c]) == if c == 0 then -1 else Find(x[..c - 1], 1, 1)
  {
    if c > 0 {
      assert text[..c] == [OPEN_BRACE] + x[..c - 1];
      EnterObject(x[..c - 1]);
    }
  }

  /** The value of the first such key starts where the search ends. */
  lemma ValueStartsThere(members: Members, rest: Text)
    requires WellFormedMembers(members) && !NoNames(members)
    ensures
      var text := Show(Obj(members)) + rest;
      && 0 <= FieldEnd(text) <= |text|
      && Show(ValueOf(members)) <= text[FieldEnd(text)..]
  {
    var text := Show(Obj(members)) + rest;
    var tail := ObjectAroundField(members, rest);
    FieldIsFound(members, rest, |text|);
    assert text[..|text|] == text;
    assert text[FieldEnd(text)..] == tail;
  }
}
