/** The concrete syntax of JSON (RFC 8259), and what the field search does on it. */
module Json {
  import opened Envelope
  import opened FieldFinder

  // ---- syntax

  /** A value as it is written; strings and atoms keep their spelling. */
  datatype Value = Str(body: Text) | Atom(text: Text) | Arr(items: Items) | Obj(members: Members)

  /** The items up to the closing bracket; the white space of an empty array is at its end. */
  datatype Items = NoItem(space: Text) | Item(before: Text, value: Value, after: Text, rest: Items)

  datatype Members =
    | NoMember(space: Text)
    | Member(before: Text, key: Text, mid: Text, gap: Text, value: Value, after: Text, rest: Members)

  predicate IsJsonSpace(u: Unit) {
    u == 0x20 || u == 0x09 || u == 0x0A || u == 0x0D
  }

  predicate AllSpace(t: Text) {
    forall i :: 0 <= i < |t| ==> IsJsonSpace(t[i])
  }

  /** What may stand between quotes: every backslash has its partner, and no quote is bare. */
  predicate IsBody(t: Text)
    decreases |t|
  {
    if t == [] then true
    else if t[0] == BACKSLASH then |t| > 1 && IsBody(t[2..])
    else t[0] != QUOTE && IsBody(t[1..])
  }

  const TRUE: Text := [0x74, 0x72, 0x75, 0x65]
  const FALSE: Text := [0x66, 0x61, 0x6C, 0x73, 0x65]
  const NULL: Text := [0x6E, 0x75, 0x6C, 0x6C]

  /** The units numbers are written with. */
  predicate InNumber(u: Unit) {
    0x30 <= u <= 0x39 || u == 0x2B || u == 0x2D || u == 0x2E || u == 0x45 || u == 0x65
  }

  predicate IsAtom(t: Text) {
    t == TRUE || t == FALSE || t == NULL || (t != [] && forall i :: 0 <= i < |t| ==> InNumber(t[i]))
  }

  predicate WellFormed(v: Value) {
    match v
    case Str(body) => IsBody(body)
    case Atom(text) => IsAtom(text)
    case Arr(items) => WellFormedItems(items)
    case Obj(members) => WellFormedMembers(members)
  }

  predicate WellFormedItems(items: Items) {
    match items
    case NoItem(space) => AllSpace(space)
    case Item(before, value, after, rest) =>
      && AllSpace(before) && WellFormed(value) && AllSpace(after) && WellFormedItems(rest)
      && (rest.NoItem? ==> rest.space == [])
  }

  predicate WellFormedMembers(members: Members) {
    match members
    case NoMember(space) => AllSpace(space)
    case Member(before, key, mid, gap, value, after, rest) =>
      && AllSpace(before) && IsBody(key) && AllSpace(mid) && AllSpace(gap)
      && WellFormed(value) && AllSpace(after) && WellFormedMembers(rest)
      && (rest.NoMember? ==> rest.space == [])
  }

  function ShowString(body: Text): Text {
    [QUOTE] + body + [QUOTE]
  }

  function Show(v: Value): Text {
    match v
    case Str(body) => ShowString(body)
    case Atom(text) => text
    case Arr(items) => [OPEN_BRACKET] + ShowItems(items) + [CLOSE_BRACKET]
    case Obj(members) => [OPEN_BRACE] + ShowMembers(members) + [CLOSE_BRACE]
  }

  function ShowItems(items: Items): Text {
    match items
    case NoItem(space) => space
    case Item(before, value, after, rest) =>
      before + Show(value) + ShowEnd(after, rest.NoItem?) + ShowItems(rest)
  }

  /** What follows a value: white space, and a comma unless it is the last one. */
  function ShowEnd(after: Text, last: bool): Text {
    if last then after else after + [COMMA]
  }

  function ShowColon(mid: Text, gap: Text): Text {
    mid + [COLON] + gap
  }

  /** A member up to its value. */
  function ShowKey(before: Text, key: Text, mid: Text, gap: Text): Text {
    before + ShowString(key) + ShowColon(mid, gap)
  }

  /** A member with the comma that separates it from the next one. */
  function ShowMember(before: Text, key: Text, mid: Text, gap: Text, value: Text, after: Text, last: bool): Text {
    ShowKey(before, key, mid, gap) + value + ShowEnd(after, last)
  }

  function ShowMembers(members: Members): Text {
    match members
    case NoMember(space) => space
    case Member(before, key, mid, gap, value, after, rest) =>
      ShowMember(before, key, mid, gap, Show(value), after, rest.NoMember?) + ShowMembers(rest)
  }

  // ---- parts the search runs over

  /** No quote, no bracket, and no two letters that could start a field name. */
  predicate Calm(t: Text) {
    forall i :: 0 <= i < |t| ==> CalmAt(t, i)
  }

  predicate CalmAt(t: Text, i: nat)
    requires i < |t|
  {
    && t[i] != QUOTE && !Opens(t[i]) && !Closes(t[i])
    && (Lower(t[i]) == 0x73 ==> i + 1 < |t| && Lower(t[i + 1]) != 0x75)
    && (Lower(t[i]) == 0x61 ==> i + 1 < |t| && Lower(t[i + 1]) != 0x6E)
    && (Lower(t[i]) == 0x74 ==> i + 1 < |t| && Lower(t[i + 1]) != 0x65)
  }

  lemma NoNameInCalm(t: Text, tail: Text)
    requires t != [] && Calm(t)
    ensures Name(t + tail) == 0
  {
    var all := t + tail;
    assert CalmAt(t, 0);
    assert all[0] == t[0];
    assert |t| > 1 ==> all[1] == t[1];
  }

  /** The search gets from x to y, which is n units further, at the same depth. */
  ghost predicate Moves(x: Text, y: Text, n: nat, depth: int) {
    forall at: nat :: Find(x, depth, at) == Find(y, depth, at + n)
  }

  /** The search runs over a part of the text in front of a tail. */
  ghost predicate Skips(t: Text, depth: int, tail: Text) {
    Moves(t + tail, tail, |t|, depth)
  }

  lemma MovesOn(x: Text, y: Text, z: Text, n: nat, m: nat, depth: int)
    requires Moves(x, y, n, depth) && Moves(y, z, m, depth)
    ensures Moves(x, z, n + m, depth)
  {
    forall at: nat ensures Find(x, depth, at) == Find(z, depth, at + (n + m)) {
      assert Find(y, depth, at + n) == Find(z, depth, at + n + m);
    }
  }

  lemma SkipBoth(a: Text, b: Text, depth: int, tail: Text)
    requires Skips(a, depth, b + tail) && Skips(b, depth, tail)
    ensures Skips(a + b, depth, tail)
  {
    Associative(a, b, tail);
    MovesOn(a + (b + tail), b + tail, tail, |a|, |b|, depth);
  }

  lemma {:induction false} SkipCalmFrom(t: Text, depth: int, tail: Text, at: nat)
    requires Calm(t)
    ensures Find(t + tail, depth, at) == Find(tail, depth, at + |t|)
    decreases |t|
  {
    if t == [] {
      assert t + tail == tail;
    } else {
      NoNameInCalm(t, tail);
      assert CalmAt(t, 0);
      assert (t + tail)[1..] == t[1..] + tail;
      forall i | 0 <= i < |t[1..]| ensures CalmAt(t[1..], i) {
        assert CalmAt(t, i + 1);
      }
      SkipCalmFrom(t[1..], depth, tail, at + 1);
    }
  }

  lemma SkipCalm(t: Text, depth: int, tail: Text)
    requires Calm(t)
    ensures Skips(t, depth, tail)
  {
    forall at: nat ensures Find(t + tail, depth, at) == Find(tail, depth, at + |t|) {
      SkipCalmFrom(t, depth, tail, at);
    }
  }

  lemma AtomIsCalm(t: Text)
    requires IsAtom(t)
    ensures Calm(t)
  {
  }

  lemma {:induction false} SkipInString(body: Text, depth: int, tail: Text, at: nat)
    requires IsBody(body)
    ensures InString(body + ([QUOTE] + tail), false, depth, at) == Find(tail, depth, at + |body| + 1)
    decreases |body|
  {
    var all := body + ([QUOTE] + tail);
    if body == [] {
      assert all[1..] == tail;
    } else if body[0] == BACKSLASH {
      assert all[1..] == body[1..] + ([QUOTE] + tail);
      assert all[1..][1..] == body[2..] + ([QUOTE] + tail);
      SkipInString(body[2..], depth, tail, at + 2);
    } else {
      assert all[1..] == body[1..] + ([QUOTE] + tail);
      SkipInString(body[1..], depth, tail, at + 1);
    }
  }

  // ---- strings

  predicate NoColon(t: Text) {
    ColonEnd(t, 0) == 0
  }

  /** A field name and nothing else. */
  predicate IsName(key: Text) {
    Name(key) > 0 && Name(key) == |key|
  }

  lemma WordBeforeQuote(key: Text, w: Text, tail: Text)
    requires w == SUMMARY || w == ANSWER || w == TEXT
    ensures HasWord(key + ([QUOTE] + tail), w) <==> HasWord(key, w)
  {
    var all := key + ([QUOTE] + tail);
    if |key| < |w| {
      assert all[|key|] == QUOTE;
      assert w[|key|] != Lower(QUOTE);
    }
  }

  lemma {:induction false} QuoteAfterWord(key: Text, w: Text)
    requires IsBody(key) && |w| < |key|
    requires forall i :: 0 <= i < |w| ==> key[i] != BACKSLASH
    ensures key[|w|] != QUOTE
    decreases |key|
  {
    if w != [] {
      QuoteAfterWord(key[1..], w[1..]);
    }
  }

  lemma NameBeforeQuote(key: Text, tail: Text)
    requires IsBody(key)
    ensures
      var n := Name(key + ([QUOTE] + tail));
      n == Name(key) && (n > 0 && (key + ([QUOTE] + tail))[n] == QUOTE <==> IsName(key))
  {
    WordBeforeQuote(key, SUMMARY, tail);
    WordBeforeQuote(key, ANSWER, tail);
    WordBeforeQuote(key, TEXT, tail);
    var n := Name(key);
    if 0 < n < |key| {
      forall i | 0 <= i < n ensures key[i] != BACKSLASH {
        WordHasNoBackslash(key, i);
      }
      QuoteAfterWord(key, key[..n]);
    }
  }

  lemma WordHasNoBackslash(key: Text, i: nat)
    requires i < Name(key)
    ensures key[i] != BACKSLASH
  {
    if HasWord(key, SUMMARY) {
      assert Lower(key[i]) == SUMMARY[i];
    } else if HasWord(key, ANSWER) {
      assert Lower(key[i]) == ANSWER[i];
    } else {
      assert Lower(key[i]) == TEXT[i];
    }
  }

  lemma QuotedInside(inner: Text)
    ensures Quoted([QUOTE] + inner)
         == var n := Name(inner);
            if n > 0 && n < |inner| && inner[n] == QUOTE then ColonEnd([QUOTE] + inner, n + 2) else 0
  {
    assert ([QUOTE] + inner)[1..] == inner;
  }

  /** The regular expression for a quoted field matches a string if and only if it is a name before a colon. */
  lemma QuotedString(body: Text, tail: Text)
    requires IsBody(body)
    ensures Quoted(ShowString(body) + tail)
         == if IsName(body) && ColonEnd(tail, 0) > 0 then |body| + 2 + ColonEnd(tail, 0) else 0
  {
    var inner := body + ([QUOTE] + tail);
    StringBefore(body, tail);
    NameBeforeQuote(body, tail);
    QuotedInside(inner);
    if IsName(body) {
      ColonLater([QUOTE] + inner, |body| + 2, tail);
    }
  }

  lemma StringBefore(body: Text, tail: Text)
    ensures ShowString(body) + tail == [QUOTE] + (body + ([QUOTE] + tail))
    ensures ([QUOTE] + (body + ([QUOTE] + tail)))[|body| + 2..] == tail
  {
  }

  lemma ColonLater(t: Text, k: nat, tail: Text)
    requires k <= |t| && t[k..] == tail
    ensures ColonEnd(t, k) == if ColonEnd(tail, 0) > 0 then k + ColonEnd(tail, 0) else 0
  {
    assert tail[0..] == tail;
    var s := Spaces(tail);
    if s < |tail| {
      assert t[k + s] == tail[s];
      assert t[k + s + 1..] == tail[s + 1..];
    }
  }

  lemma SkipString(body: Text, depth: int, tail: Text)
    requires IsBody(body)
    requires depth == 1 && IsName(body) ==> NoColon(tail)
    ensures Skips(ShowString(body), depth, tail)
  {
    var inner := body + ([QUOTE] + tail);
    QuotedString(body, tail);
    StringBefore(body, tail);
    EnterString(inner, depth);
    LeaveString(body, depth, tail);
    ThroughString(ShowString(body), inner, depth, tail);
  }

  ghost predicate Enters(inner: Text, depth: int) {
    forall at: nat :: Find([QUOTE] + inner, depth, at) == InString(inner, false, depth, at + 1)
  }

  ghost predicate Leaves(inner: Text, n: nat, depth: int, tail: Text) {
    forall at: nat :: InString(inner, false, depth, at) == Find(tail, depth, at + n)
  }

  lemma EnterString(inner: Text, depth: int)
    requires depth == 1 ==> Quoted([QUOTE] + inner) == 0
    ensures Enters(inner, depth)
  {
    assert ([QUOTE] + inner)[1..] == inner;
  }

  lemma LeaveString(body: Text, depth: int, tail: Text)
    requires IsBody(body)
    ensures Leaves(body + ([QUOTE] + tail), |body| + 1, depth, tail)
  {
    forall at: nat ensures InString(body + ([QUOTE] + tail), false, depth, at) == Find(tail, depth, at + (|body| + 1)) {
      SkipInString(body, depth, tail, at);
    }
  }

  lemma ThroughString(t: Text, inner: Text, depth: int, tail: Text)
    requires t != [] && t + tail == [QUOTE] + inner
    requires Enters(inner, depth) && Leaves(inner, |t| - 1, depth, tail)
    ensures Skips(t, depth, tail)
  {
    forall at: nat ensures Find(t + tail, depth, at) == Find(tail, depth, at + |t|) {
      assert InString(inner, false, depth, at + 1) == Find(tail, depth, at + 1 + (|t| - 1));
    }
  }

  // ---- values

  lemma ColonAfterSpace(space: Text, tail: Text)
    requires AllSpace(space)
    ensures ColonEnd(space + tail, 0) == if ColonEnd(tail, 0) > 0 then |space| + ColonEnd(tail, 0) else 0
  {
    SpacesBefore(space, tail);
    assert (space + tail)[0..] == space + tail && tail[0..] == tail;
    var s := Spaces(tail);
    if s < |tail| {
      assert (space + tail)[|space| + s] == tail[s];
      assert (space + tail)[|space| + s + 1..] == tail[s + 1..];
    }
  }

  lemma NoColonAt(u: Unit, tail: Text)
    requires !IsSpace(u) && !IsColon(u)
    ensures NoColon([u] + tail)
  {
    assert ([u] + tail)[0..] == [u] + tail;
  }

  lemma SkipEnclosed(open: Unit, inner: Text, close: Unit, depth: int, tail: Text)
    requires Opens(open) && Closes(close) && depth >= 1
    requires Skips(inner, depth + 1, [close] + tail)
    ensures Skips([open] + inner + [close], depth, tail)
  {
    var t := inner + ([close] + tail);
    assert [open] + inner + [close] + tail == [open] + t;
    assert ([open] + t)[1..] == t && ([close] + tail)[1..] == tail;
    forall at: nat ensures Find([open] + t, depth, at) == Find(tail, depth, at + |[open] + inner + [close]|) {
      assert Find(t, depth + 1, at + 1) == Find([close] + tail, depth + 1, at + 1 + |inner|);
    }
  }

  /** The search runs over a whole value inside an object, whatever is in it. */
  lemma {:induction false} SkipValue(v: Value, depth: int, tail: Text)
    requires WellFormed(v) && depth >= 1
    requires depth == 1 ==> NoColon(tail)
    ensures Skips(Show(v), depth, tail)
    decreases v
  {
    match v
    case Str(body) =>
      SkipString(body, depth, tail);
    case Atom(text) =>
      AtomIsCalm(text);
      SkipCalm(text, depth, tail);
    case Arr(items) =>
      SkipItems(items, depth + 1, [CLOSE_BRACKET] + tail);
      SkipEnclosed(OPEN_BRACKET, ShowItems(items), CLOSE_BRACKET, depth, tail);
    case Obj(members) =>
      SkipMembers(members, depth + 1, [CLOSE_BRACE] + tail);
      SkipEnclosed(OPEN_BRACE, ShowMembers(members), CLOSE_BRACE, depth, tail);
  }

  lemma {:induction false} SkipItems(items: Items, depth: int, tail: Text)
    requires WellFormedItems(items) && depth >= 2
    ensures Skips(ShowItems(items), depth, tail)
    decreases items
  {
    match items
    case NoItem(space) =>
      SkipCalm(space, depth, tail);
    case Item(before, value, after, rest) =>
      var v, end, more := Show(value), ShowEnd(after, rest.NoItem?), ShowItems(rest);
      SkipCalm(before, depth, v + (end + (more + tail)));
      SkipValue(value, depth, end + (more + tail));
      SkipCalm(end, depth, more + tail);
      SkipItems(rest, depth, tail);
      SkipBoth(before, v, depth, end + (more + tail));
      SkipBoth(before + v, end, depth, more + tail);
      SkipBoth(before + v + end, more, depth, tail);
  }

  lemma SkipKey(before: Text, key: Text, mid: Text, gap: Text, depth: int, tail: Text)
    requires AllSpace(before) && IsBody(key) && AllSpace(mid) && AllSpace(gap)
    requires depth == 1 ==> !IsName(key)
    ensures Skips(ShowKey(before, key, mid, gap), depth, tail)
  {
    var s, colon := ShowString(key), ShowColon(mid, gap);
    SkipCalm(before, depth, s + (colon + tail));
    SkipString(key, depth, colon + tail);
    SkipCalm(colon, depth, tail);
    SkipBoth(before, s, depth, colon + tail);
    SkipBoth(before + s, colon, depth, tail);
  }

  /** No key of the list itself is a field name; keys inside its values may be. */
  predicate NoNames(members: Members) {
    members.Member? ==> !IsName(members.key) && NoNames(members.rest)
  }

  lemma NoColonAfterValue(after: Text, last: bool, t: Text)
    requires AllSpace(after) && (last ==> NoColon(t))
    ensures NoColon(ShowEnd(after, last) + t)
  {
    if last {
      ColonAfterSpace(after, t);
    } else {
      NoColonAt(COMMA, t);
      ColonAfterSpace(after, [COMMA] + t);
      assert after + [COMMA] + t == after + ([COMMA] + t);
    }
  }

  lemma {:induction false} SkipMembers(members: Members, depth: int, tail: Text)
    requires WellFormedMembers(members) && depth >= 1
    requires depth == 1 ==> NoNames(members) && NoColon(tail)
    ensures Skips(ShowMembers(members), depth, tail)
    decreases members
  {
    match members
    case NoMember(space) =>
      SkipCalm(space, depth, tail);
    case Member(before, key, mid, gap, value, after, rest) =>
      SkipMembers(rest, depth, tail);
      if depth == 1 {
        assert rest.NoMember? ==> ShowMembers(rest) + tail == tail;
        NoColonAfterValue(after, rest.NoMember?, ShowMembers(rest) + tail);
      }
      SkipValue(value, depth, ShowEnd(after, rest.NoMember?) + (ShowMembers(rest) + tail));
      SkipMember(before, key, mid, gap, Show(value), after, rest.NoMember?, depth, ShowMembers(rest) + tail);
      SkipBoth(ShowMember(before, key, mid, gap, Show(value), after, rest.NoMember?), ShowMembers(rest), depth, tail);
  }

  lemma SkipMember(before: Text, key: Text, mid: Text, gap: Text, value: Text, after: Text, last: bool,
                   depth: int, tail: Text)
    requires AllSpace(before) && IsBody(key) && AllSpace(mid) && AllSpace(gap) && AllSpace(after)
    requires Skips(value, depth, ShowEnd(after, last) + tail)
    requires depth == 1 ==> !IsName(key)
    ensures Skips(ShowMember(before, key, mid, gap, value, after, last), depth, tail)
  {
    var head, end := ShowKey(before, key, mid, gap), ShowEnd(after, last);
    SkipKey(before, key, mid, gap, depth, value + (end + tail));
    SkipCalm(end, depth, tail);
    SkipBoth(head, value, depth, end + tail);
    SkipBoth(head + value, end, depth, tail);
  }
}
