// JSON text (sections 2 to 7 of RFC 8259) as syntax trees, and the value scanner's behaviour on it.
module Json {
  import opened Options
  import opened ValueSpan

  datatype Json =
    | Scalar(text: string)                              // a literal name or a number
    | Str(body: string)
    | Arr(blank: string, elements: seq<Element>)        // `blank` stands between the brackets of an empty one
    | Obj(blank: string, members: seq<Member>)

  datatype Element = Element(before: string, value: Json, after: string)
  datatype Member = Member(before: string, key: string, beforeColon: string, afterColon: string, value: Json, after: string)

  predicate IsBlank(s: string) {
    forall i :: 0 <= i < |s| ==> s[i] in " \t\n\r"
  }

  // true, false, null and numbers are spelled with these.
  predicate IsScalar(s: string) {
    |s| > 0 && forall i :: 0 <= i < |s| ==> 'a' <= s[i] <= 'z' || '0' <= s[i] <= '9' || s[i] in "+-.E"
  }

  // The characters between a string's quotes: no bare quote, and every backslash escapes something.
  predicate IsBody(s: string) {
    s == [] || (s[0] != '"' && (if s[0] == '\\' then |s| >= 2 && IsBody(s[2..]) else IsBody(s[1..])))
  }

  predicate IsJson(j: Json) {
    match j
    case Scalar(text) => IsScalar(text)
    case Str(body) => IsBody(body)
    case Arr(blank, elements) =>
      && IsBlank(blank)
      && forall i :: 0 <= i < |elements| ==>
           IsBlank(elements[i].before) && IsJson(elements[i].value) && IsBlank(elements[i].after)
    case Obj(blank, members) =>
      && IsBlank(blank)
      && forall i :: 0 <= i < |members| ==>
           && IsBlank(members[i].before) && IsBody(members[i].key) && IsBlank(members[i].beforeColon)
           && IsBlank(members[i].afterColon) && IsJson(members[i].value) && IsBlank(members[i].after)
  }

  function Show(j: Json): string {
    match j
    case Scalar(text) => text
    case Str(body) => ShowString(body)
    case Arr(blank, elements) => "[" + (if elements == [] then blank else ShowElements(elements)) + "]"
    case Obj(blank, members) => "{" + (if members == [] then blank else ShowMembers(members)) + "}"
  }

  function ShowString(body: string): string {
    "\"" + body + "\""
  }

  function ShowElements(elements: seq<Element>): string
    requires elements != []
  {
    var e := elements[0];
    e.before + Show(e.value) + e.after + if |elements| == 1 then "" else "," + ShowElements(elements[1..])
  }

  function ShowMembers(members: seq<Member>): string
    requires members != []
  {
    ShowMember(members[0]) + if |members| == 1 then "" else "," + ShowMembers(members[1..])
  }

  function ShowMember(m: Member): string {
    m.before + ShowString(m.key) + m.beforeColon + ":" + m.afterColon + Show(m.value) + m.after
  }

  // ---- scanning -----------------------------------------------------------------------------------

  // Inside a container, outside strings.
  predicate Inside(s: Span) {
    s.end.None? && s.depth >= 1 && !s.inString && !s.escape
  }

  function Moved(s: Span, n: nat): Span {
    s.(pos := s.pos + n)
  }

  // Characters that mean nothing to the scanner inside a container.
  predicate Plain(s: string) {
    forall i :: 0 <= i < |s| ==> s[i] !in "\"{}[]"
  }

  // Text the scanner passes over inside a container, ending as it began.
  ghost predicate Inert(chunk: string) {
    forall s :: Inside(s) ==> Feed(s, chunk) == Moved(s, |chunk|)
  }

  lemma {:induction false} FeedPlain(s: Span, chunk: string)
    requires Inside(s) && Plain(chunk)
    ensures Feed(s, chunk) == Moved(s, |chunk|)
    decreases |chunk|
  {
    if chunk != [] {
      assert chunk[0] !in "\"{}[]";
      FeedPlain(Moved(s, 1), chunk[1..]);
    }
  }

  lemma PlainIsInert(chunk: string)
    requires Plain(chunk)
    ensures Inert(chunk)
  {
    forall s | Inside(s) { FeedPlain(s, chunk); }
  }

  lemma {:induction false} FeedBody(s: Span, body: string)
    requires s.end.None? && s.inString && !s.escape && IsBody(body)
    ensures Feed(s, body) == Moved(s, |body|)
    decreases |body|
  {
    if body != [] {
      if body[0] == '\\' {
        assert body[1..][1..] == body[2..];
        FeedBody(Moved(s, 2), body[2..]);
      } else {
        FeedBody(Moved(s, 1), body[1..]);
      }
    }
  }

  lemma StringIsInert(body: string)
    requires IsBody(body)
    ensures Inert(ShowString(body))
  {
    forall s | Inside(s) ensures Feed(s, ShowString(body)) == Moved(s, |ShowString(body)|) {
      OneString(s, body);
    }
  }

  lemma OneString(s: Span, body: string)
    requires IsBody(body) && Inside(s)
    ensures Feed(s, ShowString(body)) == Moved(s, |ShowString(body)|)
  {
    hide IsBody;
    var quoted := StepChar(s, '"');
    FeedBody(quoted, body);
    FeedConcat(quoted, body, "\"");
    assert ShowString(body)[1..] == body + "\"";
  }

  lemma InertConcat(a: string, b: string)
    requires Inert(a) && Inert(b)
    ensures Inert(a + b)
  {
    forall s | Inside(s) ensures Feed(s, a + b) == Moved(s, |a + b|) {
      FeedConcat(s, a, b);
      assert Inside(Moved(s, |a|));
    }
  }

  function Deeper(s: Span): Span {
    s.(depth := s.depth + 1, pos := s.pos + 1)
  }

  // A bracketed text closes the span it opened, or leaves an enclosing one as it was.
  lemma FeedBracketed(s: Span, opening: char, inner: string, closing: char)
    requires s.end.None? && !s.inString && !s.escape && s.depth >= 0
    requires opening in "{[" && closing in "}]" && Inert(inner)
    ensures var n := |inner| + 2;
      Feed(s, [opening] + inner + [closing])
      == if s.depth == 0 then Moved(s, n).(end := Some(s.pos + n)) else Moved(s, n)
  {
    var text := [opening] + inner + [closing];
    assert text[1..] == inner + [closing];
    assert StepChar(s, opening) == Deeper(s) && Inside(Deeper(s));
    assert Feed(s, text) == Feed(Deeper(s), inner + [closing]);
    FeedConcat(Deeper(s), inner, [closing]);
  }

  lemma BracketedIsInert(opening: char, inner: string, closing: char)
    requires opening in "{[" && closing in "}]" && Inert(inner)
    ensures Inert([opening] + inner + [closing])
  {
    forall s | Inside(s) { FeedBracketed(s, opening, inner, closing); }
  }

  // The text between a container's brackets.
  function Inner(j: Json): string
    requires j.Arr? || j.Obj?
  {
    if j.Arr? then if j.elements == [] then j.blank else ShowElements(j.elements)
    else if j.members == [] then j.blank else ShowMembers(j.members)
  }

  lemma InnerIsInert(j: Json)
    requires IsJson(j) && (j.Arr? || j.Obj?)
    ensures Inert(Inner(j))
    decreases j, 1
  {
    if j.Arr? && j.elements != [] {
      ElementsAreInert(j.elements);
    } else if j.Obj? && j.members != [] {
      MembersAreInert(j.members);
    } else {
      PlainIsInert(j.blank);
    }
  }

  /** Inside a container, a value leaves the scanner as it found it. */
  lemma {:induction false} ValueIsInert(j: Json)
    requires IsJson(j)
    ensures Inert(Show(j))
    decreases j, 2
  {
    match j
    case Scalar(text) => PlainIsInert(text);
    case Str(body) => StringIsInert(body);
    case Arr(_, _) => InnerIsInert(j); BracketedIsInert('[', Inner(j), ']');
    case Obj(_, _) => InnerIsInert(j); BracketedIsInert('{', Inner(j), '}');
  }

  lemma {:induction false} ElementsAreInert(elements: seq<Element>)
    requires elements != []
    requires forall i :: 0 <= i < |elements| ==>
      IsBlank(elements[i].before) && IsJson(elements[i].value) && IsBlank(elements[i].after)
    ensures Inert(ShowElements(elements))
    decreases elements, 0
  {
    hide Inert, IsJson, IsBlank;
    var e := elements[0];
    var head := e.before + Show(e.value) + e.after;
    BlankIsInert(e.before);
    ValueIsInert(e.value);
    BlankIsInert(e.after);
    InertThree(e.before, Show(e.value), e.after);
    if |elements| > 1 {
      Separators();
      ElementsAreInert(elements[1..]);
      InertConcat(",", ShowElements(elements[1..]));
      InertConcat(head, "," + ShowElements(elements[1..]));
    } else {
      assert head + "" == head;
    }
  }

  lemma MemberIsInert(m: Member)
    requires IsBlank(m.before) && IsBody(m.key) && IsBlank(m.beforeColon)
    requires IsBlank(m.afterColon) && IsJson(m.value) && IsBlank(m.after)
    ensures Inert(ShowMember(m))
    decreases m, 0
  {
    hide Inert, IsJson, Show, IsBlank, IsBody;
    BlankIsInert(m.before);
    StringIsInert(m.key);
    BlankIsInert(m.beforeColon);
    Separators();
    BlankIsInert(m.afterColon);
    ValueIsInert(m.value);
    BlankIsInert(m.after);
    var key := m.before + ShowString(m.key) + m.beforeColon;
    InertThree(m.before, ShowString(m.key), m.beforeColon);
    InertThree(key, ":", m.afterColon);
    InertThree(key + ":" + m.afterColon, Show(m.value), m.after);
  }

  lemma InertThree(a: string, b: string, c: string)
    requires Inert(a) && Inert(b) && Inert(c)
    ensures Inert(a + b + c)
  {
    InertConcat(a, b);
    InertConcat(a + b, c);
  }

  lemma {:induction false} MembersAreInert(members: seq<Member>)
    requires members != []
    requires forall i :: 0 <= i < |members| ==>
        && IsBlank(members[i].before) && IsBody(members[i].key) && IsBlank(members[i].beforeColon)
        && IsBlank(members[i].afterColon) && IsJson(members[i].value) && IsBlank(members[i].after)
    ensures Inert(ShowMembers(members))
    decreases members, 0
  {
    hide Inert, IsJson, IsBody, IsBlank;
    var head := ShowMember(members[0]);
    MemberIsInert(members[0]);
    if |members| > 1 {
      Separators();
      MembersAreInert(members[1..]);
      InertConcat(",", ShowMembers(members[1..]));
      InertConcat(head, "," + ShowMembers(members[1..]));
    } else {
      assert head + "" == head;
    }
  }

  lemma Separators()
    ensures Inert(",") && Inert(":")
  {
    PlainIsInert(",");
    PlainIsInert(":");
  }

  lemma BlankIsInert(blank: string)
    requires IsBlank(blank)
    ensures Inert(blank)
  {
    PlainIsInert(blank);
  }

  /** The span of an object or array ends exactly where its text does, whatever follows. */
  lemma SpanOfValue(text: string, start: nat, j: Json)
    requires IsJson(j) && (j.Obj? || j.Arr?)
    requires start + |Show(j)| <= |text| && text[start..start + |Show(j)|] == Show(j)
    ensures Advance(NewSpan(start), text).end == Some(start + |Show(j)|)
  {
    hide IsJson, Feed, Advance, Inert;
    InnerIsInert(j);
    var opening, closing := if j.Arr? then '[' else '{', if j.Arr? then ']' else '}';
    assert Show(j) == [opening] + Inner(j) + [closing];
    FeedBracketed(NewSpan(start), opening, Inner(j), closing);
    SpanOfText(text, start, Show(j));
  }

  // A span is decided by the text it closes on.
  lemma SpanOfText(text: string, start: nat, shown: string)
    requires start + |shown| <= |text| && text[start..start + |shown|] == shown
    requires Feed(NewSpan(start), shown).end.Some?
    ensures Advance(NewSpan(start), text) == Feed(NewSpan(start), shown)
  {
    hide Feed;
    var rest := text[start + |shown|..];
    assert text[start..] == shown + rest;
    FeedConcat(NewSpan(start), shown, rest);
    FeedClosed(Feed(NewSpan(start), shown), rest);
  }

  /** And it is still open on every shorter text. */
  lemma SpanStillOpen(text: string, start: nat, j: Json, n: nat)
    requires IsJson(j) && (j.Obj? || j.Arr?)
    requires start + |Show(j)| <= |text| && text[start..start + |Show(j)|] == Show(j)
    requires start <= n < start + |Show(j)|
    ensures Advance(NewSpan(start), text[..n]).end.None?
  {
    SpanOfValue(text, start, j);
    if Advance(NewSpan(start), text[..n]).end.Some? {
      ClosedIsFinal(NewSpan(start), text[..n], text);
    }
  }
}
