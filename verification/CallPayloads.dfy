// One printed call: a JSON object with a name and, before or after it or not at all, arguments, read back by an
// open call.
module CallPayloads {
  import opened Options
  import opened ValueSpan
  import opened KeyScan
  import opened Json
  import opened ToolCalls
  import opened ToolCallsPathFree

  /** A call as it may be printed: its members in either order, or the name alone, with any blanks between. */
  datatype Invocation =
    | NameFirst(name: Member, arguments: Member)
    | NameLast(arguments: Member, name: Member)
    | NameOnly(name: Member)

  function Members(c: Invocation): seq<Member> {
    match c
    case NameFirst(name, arguments) => [name, arguments]
    case NameLast(arguments, name) => [arguments, name]
    case NameOnly(name) => [name]
  }

  function Payload(c: Invocation): Json {
    Obj("", Members(c))
  }

  predicate IsMember(m: Member) {
    && IsBlank(m.before) && IsBody(m.key) && IsBlank(m.beforeColon)
    && IsBlank(m.afterColon) && IsJson(m.value) && IsBlank(m.after)
  }

  // Any JSON string may be a name (section 7 of RFC 8259, which has line feeds escaped).
  predicate IsName(name: string) {
    IsBody(name) && '\n' !in name
  }

  predicate NamesCall(m: Member) {
    IsMember(m) && m.key == "name" && m.value.Str? && IsName(m.value.body)
  }

  // Arguments go by either key and may be any JSON value.
  predicate GivesArguments(m: Member) {
    IsMember(m) && (m.key == "arguments" || m.key == "parameters")
  }

  predicate IsCall(c: Invocation) {
    NamesCall(c.name) && (!c.NameOnly? ==> GivesArguments(c.arguments))
  }

  // The characters that stand for a value: a literal or a number takes the blanks after it along.
  function Spelled(m: Member): string {
    if m.value.Scalar? then Show(m.value) + m.after else Show(m.value)
  }

  // The arguments a client is given: a string's content, any other value as it is spelled.
  function Given(p: Parser, c: Invocation): string {
    if c.NameOnly? then "" else if c.arguments.value.Str? then p.unquote(Show(c.arguments.value)) else Spelled(c.arguments)
  }

  // The call as it is reported.
  function Reported(p: Parser, index: nat, c: Invocation): Call
    requires IsCall(c)
  {
    Call(index, p.decodeName(c.name.value.body), if Given(p, c) == "" then "{}" else Given(p, c))
  }

  // ---- where the parts of a member stand ------------------------------------------------------------------

  function KeyFrom(a: nat, m: Member): nat { a + |m.before| }
  function ColonAt(a: nat, m: Member): nat { KeyFrom(a, m) + |m.key| + 2 + |m.beforeColon| }
  function ValueFrom(a: nat, m: Member): nat { ColonAt(a, m) + 1 + |m.afterColon| }
  function ValueTo(a: nat, m: Member): nat { ValueFrom(a, m) + |Show(m.value)| }
  function MemberTo(a: nat, m: Member): nat { ValueTo(a, m) + |m.after| }

  predicate MemberAt(text: string, a: nat, m: Member) {
    && At(text, a, m.before) && At(text, KeyFrom(a, m), ShowString(m.key))
    && At(text, KeyFrom(a, m) + |m.key| + 2, m.beforeColon) && At(text, ColonAt(a, m), ":")
    && At(text, ColonAt(a, m) + 1, m.afterColon) && At(text, ValueFrom(a, m), Show(m.value))
    && At(text, ValueTo(a, m), m.after)
  }

  lemma MemberParts(text: string, a: nat, m: Member)
    requires At(text, a, ShowMember(m))
    ensures MemberAt(text, a, m) && a + |ShowMember(m)| == MemberTo(a, m) <= |text|
  {
    hide Show, At;
    var key, value := ShowString(m.key), Show(m.value);
    var named := m.before + key + m.beforeColon;
    Halves(text, a, named + ":" + m.afterColon + value, m.after);
    Halves(text, a, named + ":" + m.afterColon, value);
    Halves(text, a, named + ":", m.afterColon);
    Halves(text, a, named, ":");
    Halves(text, a, m.before + key, m.beforeColon);
    Halves(text, a, m.before, key);
    Fits(text, ValueTo(a, m), m.after);
  }

  lemma OneMember(text: string, js: nat, m: Member)
    requires At(text, js, Show(Obj("", [m])))
    ensures var to := MemberTo(js + 1, m);
      && js < |text| && text[js] == '{' && MemberAt(text, js + 1, m) && to < |text| && text[to] == '}'
      && js + |Show(Obj("", [m]))| == to + 1
  {
    hide At, ShowMember;
    var shown := ShowMember(m);
    assert ShowMembers([m]) == shown + "";
    assert Show(Obj("", [m])) == "{" + (shown + "}");
    Bracketed(text, js, shown);
    MemberParts(text, js + 1, m);
  }

  lemma TwoShown(m: Member, n: Member)
    ensures Show(Obj("", [m, n])) == "{" + ((ShowMember(m) + ("," + ShowMember(n))) + "}")
  {
    hide ShowMember;
    var b := ShowMember(n);
    assert [m, n][1..] == [n];
    assert ShowMembers([n]) == b + "" == b;
    assert ShowMembers([m, n]) == ShowMember(m) + ("," + b);
  }

  lemma TwoMembers(text: string, js: nat, m: Member, n: Member)
    requires At(text, js, Show(Obj("", [m, n])))
    ensures var mid := MemberTo(js + 1, m);
      var to := MemberTo(mid + 1, n);
      && js < |text| && text[js] == '{' && MemberAt(text, js + 1, m) && mid < to < |text| && text[mid] == ','
      && MemberAt(text, mid + 1, n) && text[to] == '}' && js + |Show(Obj("", [m, n]))| == to + 1
  {
    hide At, ShowMember, Show, MemberAt;
    var a, b := ShowMember(m), ShowMember(n);
    TwoShown(m, n);
    Bracketed(text, js, a + ("," + b));
    Halves(text, js + 1, a, "," + b);
    MemberParts(text, js + 1, m);
    Halves(text, MemberTo(js + 1, m), ",", b);
    CharOf(text, MemberTo(js + 1, m), ",", 0);
    Fits(text, MemberTo(js + 1, m), ",");
    MemberParts(text, MemberTo(js + 1, m) + 1, n);
  }

  lemma Bracketed(text: string, js: nat, inner: string)
    requires At(text, js, "{" + (inner + "}"))
    ensures js + |inner| + 1 < |text| && text[js] == '{' && At(text, js + 1, inner) && text[js + 1 + |inner|] == '}'
  {
    Halves(text, js, "{", inner + "}");
    Halves(text, js + 1, inner, "}");
    CharOf(text, js, "{", 0);
    CharOf(text, js + 1 + |inner|, "}", 0);
  }

  lemma BlankChars(text: string, i: nat, s: string)
    requires At(text, i, s) && IsBlank(s)
    ensures i + |s| <= |text| && forall j :: i <= j < i + |s| ==> text[j] in " \t\n\r"
  {
    forall j | i <= j < i + |s| ensures text[j] in " \t\n\r" { CharOf(text, i, s, j - i); }
  }

  lemma QuotedChars(text: string, i: nat, s: string)
    requires At(text, i, ShowString(s))
    ensures i + |s| + 2 <= |text| && text[i] == '"' && text[i + |s| + 1] == '"' && At(text, i + 1, s)
    ensures forall j :: 0 <= j < |s| ==> text[i + 1 + j] == s[j]
  {
    assert ShowString(s) == "\"" + (s + "\"");
    Halves(text, i, "\"", s + "\"");
    Halves(text, i + 1, s, "\"");
    CharOf(text, i, "\"", 0);
    CharOf(text, i + 1 + |s|, "\"", 0);
    forall j | 0 <= j < |s| ensures text[i + 1 + j] == s[j] { CharOf(text, i + 1, s, j); }
  }

  // The characters of a member up to its value: blanks, a quoted key, blanks, a colon, blanks.
  predicate HeadChars(text: string, a: nat, m: Member) {
    var k := KeyFrom(a, m);
    && a <= k && k + |m.key| + 1 < ColonAt(a, m) < ValueFrom(a, m) < |text|
    && (forall i :: a <= i < k ==> text[i] in " \t\n\r")
    && text[k] == '"' && text[k + |m.key| + 1] == '"' && (forall i :: k < i <= k + |m.key| ==> text[i] == m.key[i - k - 1])
    && (forall i :: k + |m.key| + 2 <= i < ColonAt(a, m) ==> text[i] in " \t\n\r")
    && text[ColonAt(a, m)] == ':'
    && (forall i :: ColonAt(a, m) < i < ValueFrom(a, m) ==> text[i] in " \t\n\r")
    && !IsSpace(text[ValueFrom(a, m)]) && (text[ValueFrom(a, m)] == '"' <==> m.value.Str?)
  }

  lemma HeadOf(text: string, a: nat, m: Member)
    requires MemberAt(text, a, m) && IsMember(m)
    ensures HeadChars(text, a, m)
  {
    hide At, IsSpace, Show, IsJson;
    BlankChars(text, a, m.before);
    QuotedChars(text, KeyFrom(a, m), m.key);
    BlankChars(text, KeyFrom(a, m) + |m.key| + 2, m.beforeColon);
    CharOf(text, ColonAt(a, m), ":", 0);
    BlankChars(text, ColonAt(a, m) + 1, m.afterColon);
    FirstChar(m.value);
    CharOf(text, ValueFrom(a, m), Show(m.value), 0);
    Fits(text, ValueFrom(a, m), Show(m.value));
  }

  lemma FirstChar(j: Json)
    requires IsJson(j)
    ensures Show(j) != "" && !IsSpace(Show(j)[0]) && (Show(j)[0] == '"' <==> j.Str?)
  {}

  // ---- the keys are found where they stand -------------------------------------------------------------

  lemma SkipsBlanks(text: string, i: nat, k: nat, limit: nat)
    requires i <= k < limit <= |text| && !IsSpace(text[k]) && forall j :: i <= j < k ==> text[j] in " \t\n\r"
    ensures SkipSpace(text, i, limit) == k
  {
    SkipSpaceIs(text, i, k, limit);
  }

  lemma NoSpaces()
    ensures !IsSpace(':') && !IsSpace(',') && !IsSpace('}')
  {}

  // After the key stands its colon, and after that its value.
  lemma ColonFound(text: string, a: nat, m: Member, limit: nat)
    requires HeadChars(text, a, m) && ValueFrom(a, m) < limit <= |text|
    ensures AfterColon(text, KeyFrom(a, m) + |m.key| + 2, limit) == Some(ColonAt(a, m) + 1)
    ensures SkipSpace(text, ColonAt(a, m) + 1, limit) == ValueFrom(a, m)
  {
    hide IsSpace, SkipSpace;
    NoSpaces();
    SkipsBlanks(text, KeyFrom(a, m) + |m.key| + 2, ColonAt(a, m), limit);
    SkipsBlanks(text, ColonAt(a, m) + 1, ValueFrom(a, m), limit);
  }

  lemma KeyIsAt(text: string, a: nat, m: Member, key: string)
    requires HeadChars(text, a, m) && key == ShowString(m.key)
    ensures At(text, KeyFrom(a, m), key)
  {
    var k := KeyFrom(a, m);
    forall j | 0 <= j < |key| ensures text[k..k + |key|][j] == key[j] {
      if 0 < j < |key| - 1 { assert key[j] == m.key[j - 1] == text[k + j]; }
    }
    assert text[k..k + |key|] == key;
  }

  lemma ArgumentsStand(text: string, a: nat, m: Member, limit: nat)
    requires HeadChars(text, a, m) && ValueFrom(a, m) < limit <= |text| && (m.key == "arguments" || m.key == "parameters")
    ensures ArgumentsAt(text, KeyFrom(a, m), limit) == Some(ValueFrom(a, m))
  {
    hide ArgumentsAt, KeyAt, HeadChars, AfterColon, SkipSpace, IsSpace;
    KeyStands(text, a, m, limit);
    ColonFound(text, a, m, limit);
    ArgumentsIs(text, KeyFrom(a, m), limit, |m.key| + 2, ColonAt(a, m) + 1);
  }

  lemma ArgumentsIs(text: string, i: nat, limit: nat, n: nat, after: nat)
    requires limit <= |text| && KeyAt(text, i, limit) == n > 0 && AfterColon(text, i + n, limit) == Some(after)
    ensures ArgumentsAt(text, i, limit) == Some(SkipSpace(text, after, limit))
  {
    hide KeyAt, AfterColon, SkipSpace;
  }

  lemma KeyStands(text: string, a: nat, m: Member, limit: nat)
    requires HeadChars(text, a, m) && ValueFrom(a, m) < limit <= |text| && (m.key == "arguments" || m.key == "parameters")
    ensures KeyAt(text, KeyFrom(a, m), limit) == |m.key| + 2
  {
    var k := KeyFrom(a, m);
    KeyIsAt(text, a, m, ShowString(m.key));
    assert ShowString("arguments") == ARGUMENTS && ShowString("parameters") == PARAMETERS;
    assert text[k + 1] == m.key[0];
    hide At, IsSpace;
    if m.key == "parameters" { Differs(text, k, ARGUMENTS, 1); }
  }

  // Nothing but a key, and no other key than these, is taken for one.
  lemma NotAName(text: string, i: nat, limit: nat)
    requires limit <= |text| && i < |text| && (text[i] != '"' || (i + 1 < |text| && text[i + 1] != 'n'))
    ensures NameAt(text, i, limit).None?
  {
    if i + |NAME| <= limit && At(text, i, NAME) { NameShape(text, i, limit); }
  }

  lemma {:induction false} NoNameIn(text: string, from: nat, limit: nat)
    requires limit <= |text| && forall i :: from <= i < limit ==> NameAt(text, i, limit).None?
    ensures FindName(text, from, limit).None?
    decreases limit - from
  {
    if from < limit { NoNameIn(text, from + 1, limit); }
  }

  lemma {:induction false} NameFirstAt(text: string, from: nat, at: nat, limit: nat)
    requires from <= at < limit <= |text| && NameAt(text, at, limit).Some?
    requires forall i :: from <= i < at ==> NameAt(text, i, limit).None?
    ensures FindName(text, from, limit) == NameAt(text, at, limit)
    decreases at - from
  {
    if from < at { NameFirstAt(text, from + 1, at, limit); }
  }

  lemma {:induction false} NoArgumentsIn(text: string, from: nat, limit: nat)
    requires limit <= |text| && forall i :: from <= i < limit ==> ArgumentsAt(text, i, limit).None?
    ensures FindArguments(text, from, limit).None?
    decreases limit - from
  {
    if from < limit { NoArgumentsIn(text, from + 1, limit); }
  }

  // An arguments member holds no name before its value.
  lemma NoNameInHead(text: string, from: nat, a: nat, m: Member)
    requires HeadChars(text, a, m) && from <= a && (m.key == "arguments" || m.key == "parameters")
    requires forall i :: from <= i < a ==> text[i] != '"'
    ensures FindName(text, from, ValueFrom(a, m)).None?
  {
    var k, limit := KeyFrom(a, m), ValueFrom(a, m);
    forall i | from <= i < limit ensures NameAt(text, i, limit).None? {
      assert i == k ==> text[i + 1] == m.key[0];
      NotAName(text, i, limit);
    }
    NoNameIn(text, from, limit);
  }

  // A name's closing quote is found past whatever it escapes.
  lemma {:induction false} NameEnds(text: string, p: nat, name: string, limit: nat)
    requires At(text, p, name) && IsName(name) && p + |name| < limit <= |text| && text[p + |name|] == '"'
    ensures BodyEnd(text, p, limit) == Some(p + |name|)
    decreases |name|
  {
    if name != [] {
      CharOf(text, p, name, 0);
      if name[0] == '\\' {
        CharOf(text, p, name, 1);
        assert name[1] in name;
        assert name == name[..2] + name[2..];
        Halves(text, p, name[..2], name[2..]);
        NameEnds(text, p + 2, name[2..], limit);
      } else {
        assert name == name[..1] + name[1..];
        Halves(text, p, name[..1], name[1..]);
        NameEnds(text, p + 1, name[1..], limit);
      }
    }
  }

  // A name member's own value is what is found from any place before its key with no quote in between.
  lemma NameFound(text: string, from: nat, a: nat, m: Member, limit: nat)
    requires MemberAt(text, a, m) && NamesCall(m) && from <= a && ValueTo(a, m) <= limit <= |text|
    requires forall i :: from <= i < a ==> text[i] != '"'
    ensures FindName(text, from, limit) == Some(m.value.body)
  {
    HeadOf(text, a, m);
    NameStands(text, a, m, limit);
    hide MemberAt, IsName, NameAt;
    var k := KeyFrom(a, m);
    forall i | from <= i < k ensures NameAt(text, i, limit).None? { NotAName(text, i, limit); }
    NameFirstAt(text, from, k, limit);
  }

  lemma NameStands(text: string, a: nat, m: Member, limit: nat)
    requires MemberAt(text, a, m) && NamesCall(m) && HeadChars(text, a, m) && ValueTo(a, m) <= limit <= |text|
    ensures KeyFrom(a, m) < limit && NameAt(text, KeyFrom(a, m), limit) == Some(m.value.body)
  {
    hide NameAt, IsName, At, BodyEnd, HeadChars, NameOpens, ShowString;
    var v := ValueFrom(a, m);
    NameBody(text, v, m.value.body, limit);
    NameOpened(text, a, m, limit);
    NameIs(text, KeyFrom(a, m), limit, v + 1, v + 1 + |m.value.body|);
  }

  lemma NameBody(text: string, v: nat, name: string, limit: nat)
    requires At(text, v, ShowString(name)) && IsName(name) && v + |ShowString(name)| <= limit <= |text|
    ensures |ShowString(name)| == |name| + 2 && text[v + 1..v + 1 + |name|] == name
    ensures BodyEnd(text, v + 1, limit) == Some(v + 1 + |name|)
  {
    QuotedChars(text, v, name);
    hide IsName, At, BodyEnd;
    NameEnds(text, v + 1, name, limit);
    Spans(text, v + 1, name);
  }

  lemma NameIs(text: string, i: nat, limit: nat, p: nat, e: nat)
    requires limit <= |text| && NameOpens(text, i, limit) == Some(p) && BodyEnd(text, p, limit) == Some(e)
    ensures NameAt(text, i, limit) == Some(text[p..e])
  {}

  lemma NameOpened(text: string, a: nat, m: Member, limit: nat)
    requires HeadChars(text, a, m) && m.key == "name" && m.value.Str? && ValueFrom(a, m) < limit <= |text|
    ensures KeyFrom(a, m) < limit && NameOpens(text, KeyFrom(a, m), limit) == Some(ValueFrom(a, m) + 1)
  {
    KeyIsAt(text, a, m, NAME);
    ColonFound(text, a, m, limit);
    hide At, IsSpace, AfterColon, SkipSpace;
  }

  // ---- no key inside the name --------------------------------------------------------------------------------

  // What follows a quote inside a string's body is a body again.
  lemma {:induction false} AfterQuote(body: string, a: nat)
    requires IsBody(body) && a < |body| && body[a] == '"'
    ensures IsBody(body[a + 1..])
    decreases |body|
  {
    if body[0] == '\\' {
      if a == 1 {
        assert body[a + 1..] == body[2..];
      } else {
        AfterQuote(body[2..], a - 2);
        assert body[2..][a - 2 + 1..] == body[a + 1..];
      }
    } else {
      AfterQuote(body[1..], a - 1);
      assert body[1..][a - 1 + 1..] == body[a + 1..];
    }
  }

  // Without a backslash there is no quote.
  lemma {:induction false} NoPlainQuote(body: string, k: nat)
    requires IsBody(body) && k < |body| && forall j :: 0 <= j < k ==> body[j] != '\\'
    ensures body[k] != '"'
    decreases k
  {
    if k > 0 { NoPlainQuote(body[1..], k - 1); }
  }

  // Between a quote and the next quote, with no backslash on the way, there is exactly the body that stands
  // after the first.
  lemma NextQuote(text: string, i: nat, n: nat, rest: string)
    requires At(text, i + 1, rest) && IsBody(rest) && i + 1 + |rest| < |text| && text[i + 1 + |rest|] == '"'
    requires 2 <= n && i + n <= |text| && text[i + n - 1] == '"'
    requires forall j :: i < j < i + n - 1 ==> text[j] != '"' && text[j] != '\\'
    ensures n == |rest| + 2
  {
    hide At, IsBody;
    if n < |rest| + 2 {
      forall j | 0 <= j < n - 2 ensures rest[j] != '\\' { CharOf(text, i + 1, rest, j); }
      NoPlainQuote(rest, n - 2);
      CharOf(text, i + 1, rest, n - 2);
    }
  }

  lemma KeyEndsOnQuote(text: string, i: nat, rest: string, limit: nat)
    requires At(text, i + 1, rest) && IsBody(rest) && i + 2 + |rest| < limit <= |text|
    requires text[i + 1 + |rest|] == '"' && KeyAt(text, i, limit) > 0
    ensures i + KeyAt(text, i, limit) == i + 2 + |rest|
  {
    hide At, IsBody, KeyAt;
    KeyShape(text, i, limit);
    KeyHasNoBackslash(text, i, limit);
    NextQuote(text, i, KeyAt(text, i, limit), rest);
  }

  // Blanks, and then what separates or ends members.
  predicate EndsAt(text: string, from: nat, to: nat) {
    from <= to < |text| && text[to] in ",}" && forall i :: from <= i < to ==> text[i] in " \t\n\r"
  }

  // A quote in or before a name, followed by a body and the name's closing quote, does not start an arguments
  // key with its colon.
  lemma QuoteIsNoKey(text: string, i: nat, rest: string, to: nat, limit: nat)
    requires At(text, i + 1, rest) && IsBody(rest) && to < limit <= |text|
    requires i + 1 + |rest| < |text| && text[i + 1 + |rest|] == '"' && EndsAt(text, i + 2 + |rest|, to)
    ensures ArgumentsAt(text, i, limit).None?
  {
    hide KeyAt, At, IsBody, AfterColon;
    NoColon(text, i + 2 + |rest|, to, limit);
    if KeyAt(text, i, limit) > 0 { KeyEndsOnQuote(text, i, rest, limit); }
  }

  lemma NoColon(text: string, from: nat, to: nat, limit: nat)
    requires EndsAt(text, from, to) && to < limit <= |text|
    ensures AfterColon(text, from, limit).None?
  {
    hide IsSpace, SkipSpace;
    NoSpaces();
    SkipsBlanks(text, from, to, limit);
  }

  lemma KeyHasNoBackslash(text: string, i: nat, limit: nat)
    requires limit <= |text| && KeyAt(text, i, limit) > 0
    ensures forall j :: i <= j < i + KeyAt(text, i, limit) ==> text[j] != '\\'
  {
    var n := KeyAt(text, i, limit);
    var key := text[i..i + n];
    assert key == ARGUMENTS || key == PARAMETERS;
    assert forall j :: i <= j < i + n ==> text[j] == key[j - i];
  }

  lemma NoKeyInName(text: string, v: nat, name: string, to: nat, limit: nat, i: nat)
    requires At(text, v, ShowString(name)) && IsBody(name) && to < limit <= |text| && EndsAt(text, v + |name| + 2, to)
    requires v <= i <= v + |name|
    ensures ArgumentsAt(text, i, limit).None?
  {
    hide IsBody, At, ArgumentsAt, ShowString, EndsAt;
    QuotedChars(text, v, name);
    EndsInside(text, v + |name| + 2, to);
    if i == v {
      QuoteIsNoKey(text, i, name, to, limit);
    } else {
      var a := i - v - 1;
      if name[a] == '"' { InnerQuoteIsNoKey(text, v, name, a, to, limit); } else { NotAKey(text, i, limit); }
    }
  }

  lemma EndsInside(text: string, from: nat, to: nat)
    requires EndsAt(text, from, to)
    ensures from <= to < |text|
  {}

  lemma InnerQuoteIsNoKey(text: string, v: nat, name: string, a: nat, to: nat, limit: nat)
    requires At(text, v + 1, name) && IsBody(name) && a < |name| && name[a] == '"' && to < limit <= |text|
    requires v + 1 + |name| < |text| && text[v + 1 + |name|] == '"' && EndsAt(text, v + |name| + 2, to)
    ensures ArgumentsAt(text, v + 1 + a, limit).None?
  {
    hide IsBody, At, ArgumentsAt, EndsAt;
    var rest := name[a + 1..];
    AfterQuote(name, a);
    assert name == name[..a + 1] + rest;
    Halves(text, v + 1, name[..a + 1], rest);
    QuoteIsNoKey(text, v + 1 + a, rest, to, limit);
  }

  // A name member holds no arguments key.
  lemma NoKeyInMember(text: string, a: nat, m: Member, to: nat, limit: nat, i: nat)
    requires MemberAt(text, a, m) && NamesCall(m) && HeadChars(text, a, m)
    requires to < limit <= |text| && EndsAt(text, ValueTo(a, m), to) && a <= i <= to
    ensures ArgumentsAt(text, i, limit).None?
  {
    hide ArgumentsAt, IsName, At, IsSpace;
    var k, v, e := KeyFrom(a, m), ValueFrom(a, m), ValueTo(a, m);
    QuotedChars(text, v, m.value.body);
    if v <= i < e - 1 {
      assert IsBody(m.value.body) by { NameIsBody(m.value.body); }
      NoKeyInName(text, v, m.value.body, to, limit, i);
    } else if text[i] != '"' {
      NotAKey(text, i, limit);
    } else {
      QuotesOfName(text, a, m, to, i);
      NotAKeyEither(text, i, limit);
    }
  }

  lemma NameIsBody(name: string)
    requires IsName(name)
    ensures IsBody(name)
  {}

  // The quotes of a name member outside its value are followed by no key's first letter.
  lemma QuotesOfName(text: string, a: nat, m: Member, to: nat, i: nat)
    requires HeadChars(text, a, m) && m.key == "name" && m.value.Str? && EndsAt(text, ValueTo(a, m), to)
    requires a <= i <= to && text[i] == '"' && !(ValueFrom(a, m) <= i < ValueTo(a, m) - 1)
    ensures i + 1 < |text| && text[i + 1] != 'a' && text[i + 1] != 'p'
  {
    var k := KeyFrom(a, m);
    if i == k {
      assert text[k + 1] == m.key[0];
    } else if i == k + 5 {
      assert text[i + 1] in " \t\n\r" || text[i + 1] == ':';
    } else {
      assert i == ValueTo(a, m) - 1;
    }
  }

  // ---- where values end ------------------------------------------------------------------------------------

  lemma {:induction false} FeedScalar(s: Span, text: string)
    requires s.end.None? && s.depth == 0 && !s.inString && !s.escape
    requires forall i :: 0 <= i < |text| ==> text[i] !in "\"{}[],"
    ensures Feed(s, text) == Moved(s, |text|)
    decreases |text|
  {
    if text != [] {
      assert text[0] !in "\"{}[],";
      FeedScalar(Moved(s, 1), text[1..]);
    }
  }

  lemma StringEnds(text: string, at: nat, body: string)
    requires IsBody(body) && At(text, at, ShowString(body))
    ensures Advance(NewSpan(at), text).end == Some(at + |ShowString(body)|)
  {
    hide IsBody;
    var quoted := StepChar(NewSpan(at), '"');
    FeedBody(quoted, body);
    FeedConcat(quoted, body, "\"");
    assert ShowString(body)[1..] == body + "\"";
    SpanOfText(text, at, ShowString(body));
  }

  lemma ScalarEnds(text: string, at: nat, scalar: string, to: nat)
    requires IsScalar(scalar) && At(text, at, scalar) && EndsAt(text, at + |scalar|, to)
    ensures Advance(NewSpan(at), text).end == Some(to)
  {
    var spelled, closing := text[at..to], [text[to]];
    forall i | 0 <= i < |spelled| ensures spelled[i] !in "\"{}[]," {
      if i < |scalar| { CharOf(text, at, scalar, i); }
    }
    hide Advance, IsScalar;
    FeedScalar(NewSpan(at), spelled);
    FeedConcat(NewSpan(at), spelled, closing);
    assert text[at..at + |spelled + closing|] == spelled + closing;
    SpanOfText(text, at, spelled + closing);
  }

  // A member's value ends where its spelling does, whether another member follows or not.
  lemma ValueEnds(text: string, a: nat, m: Member, to: nat)
    requires IsMember(m) && MemberAt(text, a, m) && to == MemberTo(a, m) && EndsAt(text, ValueTo(a, m), to)
    ensures var s := ValueFrom(a, m);
      && Advance(NewSpan(s), text).end == Some(s + |Spelled(m)|) && ValueTo(a, m) <= s + |Spelled(m)| <= to
      && At(text, s, Spelled(m)) && Spelled(m) != ""
  {
    hide Advance, At, IsBody, IsScalar;
    FirstChar(m.value);
    var s := ValueFrom(a, m);
    Spans(text, s, Show(m.value));
    Joins(text, s, Show(m.value), m.after);
    match m.value
    case Scalar(scalar) => ScalarEnds(text, s, scalar, to);
    case Str(body) => StringEnds(text, s, body);
    case Arr(_, _) => SpanOfValue(text, s, m.value);
    case Obj(_, _) => SpanOfValue(text, s, m.value);
  }

  lemma MemberEnds(text: string, a: nat, m: Member, to: nat)
    requires IsMember(m) && MemberAt(text, a, m) && to == MemberTo(a, m) < |text| && text[to] in ",}"
    ensures EndsAt(text, ValueTo(a, m), to)
  {
    BlankChars(text, ValueTo(a, m), m.after);
  }

  lemma SpanEnds(text: string, at: nat, j: Json)
    requires IsJson(j) && j.Obj? && At(text, at, Show(j))
    ensures Advance(NewSpan(at), text).end == Some(at + |Show(j)|) && at + |Show(j)| <= |text|
  {
    hide IsJson, Advance, Show;
    SpanOfValue(text, at, j);
  }

  lemma BraceAt(text: string, at: nat, j: Json)
    requires j.Obj? && At(text, at, Show(j))
    ensures |Show(j)| >= 2 && at + |Show(j)| <= |text| && text[at] == '{'
  {
    StartsWithBrace(j);
    CharOf(text, at, Show(j), 0);
  }

  lemma StartsWithBrace(j: Json)
    requires j.Obj?
    ensures |Show(j)| >= 2 && Show(j)[0] == '{'
  {}

  lemma PayloadIsObject(c: Invocation)
    ensures Payload(c).Obj?
  {}

  lemma PayloadIsJson(c: Invocation)
    requires IsCall(c)
    ensures Payload(c).Obj? && IsJson(Payload(c))
  {
    hide IsBody, IsName;
    match c
    case NameFirst(m, n) => MembersAreJson([m, n]);
    case NameLast(m, n) => MembersAreJson([m, n]);
    case NameOnly(m) => MembersAreJson([m]);
  }

  lemma MembersAreJson(members: seq<Member>)
    requires forall i :: 0 <= i < |members| ==> IsMember(members[i])
    ensures IsJson(Obj("", members))
  {
    hide IsBody;
    assert forall i :: 0 <= i < |members| ==> IsMember(members[i]);
  }

  // ---- one call ------------------------------------------------------------------------------------------------

  // What an open call knows once its whole payload is there: its name, its end, and its arguments if it has any.
  predicate Knows(p: Parser, u: OpenCall, text: string, js: nat, index: nat, end: nat, c: Invocation)
    requires c.name.value.Str?
  {
    && u.index == index && u.jsonStart == js && u.obj.end == Some(end)
    && u.name == Some(p.decodeName(c.name.value.body)) && u.sentOpen
    && if c.NameOnly? then u.arguments.None? && !u.quoted && u.sent == 0
       else
         && u.arguments.Some? && u.arguments.value.end.Some? && u.arguments.value.end.value < end <= |text|
         && u.quoted == c.arguments.value.Str? && Raw(u.arguments.value, text) == Spelled(c.arguments)
         && u.sent == if u.quoted then 0 else |Spelled(c.arguments)|
  }

  lemma KnowsArguments(p: Parser, text: string, js: nat, index: nat, s: nat, e: nat, end: nat, name: string)
    requires js < s < e < end <= |text|
    requires Advance(NewSpan(js), text).end == Some(end) && Advance(NewSpan(s), text).end == Some(e)
    requires FindArguments(text, js, end) == Some(s)
    requires FindName(text, js, s) == Some(name) || (FindName(text, js, s).None? && FindName(text, e, end) == Some(name))
    ensures var u := UpdateCall(p, NewCall(index, js), text);
      && u.index == index && u.jsonStart == js && u.obj.end == Some(end) && u.name == Some(p.decodeName(name)) && u.sentOpen
      && u.arguments.Some? && u.arguments.value.end == Some(e) && u.quoted == (text[s] == '"')
      && Raw(u.arguments.value, text) == text[s..e] && u.sent == if u.quoted then 0 else e - s
  {
    hide FindArguments, FindName;
  }

  lemma KnowsNoArguments(p: Parser, text: string, js: nat, index: nat, end: nat, name: string)
    requires js < end <= |text| && Advance(NewSpan(js), text).end == Some(end)
    requires FindArguments(text, js, end).None? && FindName(text, js, end) == Some(name)
    ensures var u := UpdateCall(p, NewCall(index, js), text);
      && u.index == index && u.jsonStart == js && u.obj.end == Some(end) && u.name == Some(p.decodeName(name)) && u.sentOpen
      && u.arguments.None? && !u.quoted && u.sent == 0
  {
    hide FindArguments, FindName;
  }

  // After a name member, the arguments are found under their key.
  lemma ArgumentsAfterName(text: string, js: nat, m: Member, mid: nat, n: Member, limit: nat)
    requires MemberAt(text, js + 1, m) && NamesCall(m) && HeadChars(text, js + 1, m)
      && EndsAt(text, ValueTo(js + 1, m), mid)
    requires HeadChars(text, mid + 1, n) && (n.key == "arguments" || n.key == "parameters")
    requires js < |text| && text[js] == '{' && ValueFrom(mid + 1, n) < limit <= |text| && js < mid
    ensures FindArguments(text, js, limit) == Some(ValueFrom(mid + 1, n))
  {
    hide MemberAt, NamesCall, ArgumentsAt, FindArguments;
    var key := KeyFrom(mid + 1, n);
    ArgumentsStand(text, mid + 1, n, limit);
    forall i | js <= i < key ensures ArgumentsAt(text, i, limit).None? {
      if js + 1 <= i <= mid { NoKeyInMember(text, js + 1, m, mid, limit, i); } else { NotAKey(text, i, limit); }
    }
    ArgumentsFirstAt(text, js, key, limit);
  }

  // At the front, they are found there.
  lemma ArgumentsAtFront(text: string, js: nat, m: Member, limit: nat)
    requires HeadChars(text, js + 1, m) && (m.key == "arguments" || m.key == "parameters")
    requires js < |text| && text[js] == '{' && ValueFrom(js + 1, m) < limit <= |text|
    ensures FindArguments(text, js, limit) == Some(ValueFrom(js + 1, m))
    ensures FindName(text, js, ValueFrom(js + 1, m)).None?
  {
    hide ArgumentsAt, FindArguments, FindName;
    var key := KeyFrom(js + 1, m);
    ArgumentsStand(text, js + 1, m, limit);
    forall i | js <= i < key ensures ArgumentsAt(text, i, limit).None? { NotAKey(text, i, limit); }
    ArgumentsFirstAt(text, js, key, limit);
    NoNameInHead(text, js, js + 1, m);
  }

  lemma ReadsNameFirst(p: Parser, text: string, js: nat, index: nat, c: Invocation)
    requires c.NameFirst? && IsCall(c) && At(text, js, Show(Payload(c)))
    ensures Knows(p, UpdateCall(p, NewCall(index, js), text), text, js, index, js + |Show(Payload(c))|, c)
  {
    hide IsMember, IsName, At, HeadChars, MemberAt, Show, UpdateCall, FindName, FindArguments, ArgumentsAt, Advance, Raw;
    hide Spelled;
    var m, n, end := c.name, c.arguments, js + |Show(Payload(c))|;
    TwoMembers(text, js, m, n);
    var mid := MemberTo(js + 1, m);
    var s := ValueFrom(mid + 1, n);
    HeadOf(text, js + 1, m);
    HeadOf(text, mid + 1, n);
    MemberEnds(text, js + 1, m, mid);
    MemberEnds(text, mid + 1, n, end - 1);
    ValueEnds(text, mid + 1, n, end - 1);
    ArgumentsAfterName(text, js, m, mid, n, end);
    NameFound(text, js, js + 1, m, s);
    PayloadIsJson(c);
    SpanEnds(text, js, Payload(c));
    ValueIsThere(text, mid + 1, n);
    KnowsArguments(p, text, js, index, s, s + |Spelled(n)|, end, m.value.body);
    Spans(text, s, Spelled(n));
  }

  lemma ValueIsThere(text: string, a: nat, m: Member)
    requires HeadChars(text, a, m)
    ensures a < ValueFrom(a, m) < |text| && (text[ValueFrom(a, m)] == '"' <==> m.value.Str?)
  {}

  lemma ReadsNameLast(p: Parser, text: string, js: nat, index: nat, c: Invocation)
    requires c.NameLast? && IsCall(c) && At(text, js, Show(Payload(c)))
    ensures Knows(p, UpdateCall(p, NewCall(index, js), text), text, js, index, js + |Show(Payload(c))|, c)
  {
    hide IsMember, IsName, At, Show, UpdateCall, FindName, FindArguments, Advance, Raw, Spelled, Payload;
    var s, end := ValueFrom(js + 1, c.arguments), js + |Show(Payload(c))|;
    FoundInTurn(text, js, c);
    PayloadIsJson(c);
    SpanEnds(text, js, Payload(c));
    KnowsArguments(p, text, js, index, s, s + |Spelled(c.arguments)|, end, c.name.value.body);
    Spans(text, s, Spelled(c.arguments));
  }

  // With the arguments in front, they are found first, and the name after them.
  lemma FoundInTurn(text: string, js: nat, c: Invocation)
    requires c.NameLast? && IsCall(c) && At(text, js, Show(Payload(c)))
    ensures var n, end := c.arguments, js + |Show(Payload(c))|;
      var s := ValueFrom(js + 1, n);
      var e := s + |Spelled(n)|;
      && js < s < e < end <= |text| && At(text, s, Spelled(n)) && (text[s] == '"' <==> n.value.Str?)
      && Advance(NewSpan(s), text).end == Some(e) && FindArguments(text, js, end) == Some(s)
      && FindName(text, js, s).None? && FindName(text, e, end) == Some(c.name.value.body)
  {
    hide IsMember, IsName, At, HeadChars, MemberAt, Show, FindName, FindArguments, ArgumentsAt, Advance, Spelled;
    var n, m, end := c.arguments, c.name, js + |Show(Payload(c))|;
    TwoMembers(text, js, n, m);
    var mid, s := MemberTo(js + 1, n), ValueFrom(js + 1, n);
    var e := s + |Spelled(n)|;
    HeadOf(text, js + 1, n);
    MemberEnds(text, js + 1, n, mid);
    ValueEnds(text, js + 1, n, mid);
    ArgumentsAtFront(text, js, n, end);
    NameFound(text, e, mid + 1, m, end);
    ValueIsThere(text, js + 1, n);
  }

  lemma ReadsNameOnly(p: Parser, text: string, js: nat, index: nat, c: Invocation)
    requires c.NameOnly? && IsCall(c) && At(text, js, Show(Payload(c)))
    ensures Knows(p, UpdateCall(p, NewCall(index, js), text), text, js, index, js + |Show(Payload(c))|, c)
  {
    hide IsMember, IsName, At, HeadChars, MemberAt, Show, UpdateCall, FindName, FindArguments, ArgumentsAt, Advance, Raw;
    var m, end := c.name, js + |Show(Payload(c))|;
    OneMember(text, js, m);
    HeadOf(text, js + 1, m);
    MemberEnds(text, js + 1, m, end - 1);
    NameFound(text, js, js + 1, m, end);
    forall i | js <= i < end ensures ArgumentsAt(text, i, end).None? {
      if i == js { NotAKey(text, i, end); } else { NoKeyInMember(text, js + 1, m, end - 1, end, i); }
    }
    NoArgumentsIn(text, js, end);
    PayloadIsJson(c);
    SpanEnds(text, js, Payload(c));
    KnowsNoArguments(p, text, js, index, end, m.value.body);
  }

  /** A printed call's whole payload gives an open call its decoded name, its arguments, whichever side of the
      name and under whichever key they stand, and its end. */
  lemma CallRead(p: Parser, text: string, js: nat, index: nat, c: Invocation)
    requires IsCall(c) && At(text, js, Show(Payload(c)))
    ensures Knows(p, UpdateCall(p, NewCall(index, js), text), text, js, index, js + |Show(Payload(c))|, c)
  {
    hide NamesCall, GivesArguments, At, Show, UpdateCall, Knows;
    match c
    case NameFirst(_, _) => ReadsNameFirst(p, text, js, index, c);
    case NameLast(_, _) => ReadsNameLast(p, text, js, index, c);
    case NameOnly(_) => ReadsNameOnly(p, text, js, index, c);
  }

  // What the client has been sent when the call is about to close.
  function SentEarly(c: Invocation): string {
    if c.NameOnly? || c.arguments.value.Str? then "" else Spelled(c.arguments)
  }

  lemma SentSo(p: Parser, assembled: seq<string>, u: OpenCall, text: string, js: nat, index: nat, end: nat, c: Invocation)
    requires c.name.value.Str? && Knows(p, u, text, js, index, end, c)
    ensures Deltas(assembled, NewCall(index, js), u, text) == assembled + [SentEarly(c)]
  {
    hide Raw, Spelled;
    var begun := assembled + [""];
    assert begun[..|begun| - 1] == assembled;
    if !c.NameOnly? {
      var shown := Spelled(c.arguments);
      assert "" + shown[0..|shown|] == shown;
    }
  }

  lemma ClosesNamed(p: Parser, st: Stream, text: string, js: nat, index: nat, end: nat, before: seq<string>,
                    c: Invocation, final: bool)
    requires st.open.Some? && st.cursor <= end <= |text| && st.assembled == before + [SentEarly(c)]
    requires IsCall(c) && Knows(p, st.open.value, text, js, index, end, c)
    ensures Close(p, st, text, final)
         == (st.(open := None, cursor := end, trailing := Some(end), assembled := before + [Given(p, c)],
                 calls := st.calls + [Reported(p, index, c)]), true)
  {
    hide Raw, Show, Spelled;
    assert st.assembled[..|st.assembled| - 1] == before;
    assert "" + Given(p, c)[0..] == Given(p, c);
    if !c.NameOnly? && c.arguments.value.Str? { StringSpelled(c.arguments); }
  }

  lemma StringSpelled(m: Member)
    requires m.value.Str?
    ensures Spelled(m) == Show(m.value)
  {}

  /** A printed call opens, fills and closes in one go, with its own name and arguments. */
  lemma CallCloses(p: Parser, st: Stream, text: string, c: Invocation, final: bool)
    requires IsCall(c) && At(text, st.cursor, Show(Payload(c)))
    requires st.nextIndex > 0 && st.open == Some(NewCall(st.nextIndex - 1, st.cursor)) && st.trailing.None?
    ensures var end, u := st.cursor + |Show(Payload(c))|, UpdateOpen(p, st, text);
      && u.open.Some? && u.open.value.obj.end == Some(end) && Contained(u.open.value, text) && u.cursor <= |text|
      && Close(p, u, text, final)
         == (st.(open := None, calls := st.calls + [Reported(p, st.nextIndex - 1, c)], cursor := end,
                 trailing := Some(end), assembled := st.assembled + [Given(p, c)]), true)
  {
    hide UpdateCall, Show, Raw, Deltas, Close, Payload, At, Given, Reported, SentEarly, IsMember, Spelled;
    var end, index := st.cursor + |Show(Payload(c))|, st.nextIndex - 1;
    CallRead(p, text, st.cursor, index, c);
    Spans(text, st.cursor, Show(Payload(c)));
    var u := UpdateCall(p, st.open.value, text);
    SentSo(p, st.assembled, u, text, st.cursor, index, end, c);
    ClosesNamed(p, UpdateOpen(p, st, text), text, st.cursor, index, end, st.assembled, c, final);
  }

  // ---- steps of the loop ------------------------------------------------------------------------------------------

  lemma ThroughSeek(p: Parser, st: Stream, text: string, next: Stream, js: nat, final: bool)
    requires Ready(st, text) && st.open.None? && Seek(p, st, text, final) == Start(next, js)
    ensures Ready(OpenAt(next, js), text)
    ensures Interpret(p, st, text, final) == Interpret(p, OpenAt(next, js), text, final)
    ensures !final && Clean(p, OpenAt(next, js), text) ==> Clean(p, st, text)
  {
    hide Seek;
  }

  lemma SameSeek(p: Parser, st: Stream, other: Stream, text: string, final: bool)
    requires Ready(st, text) && Ready(other, text) && st.open.None? && other.open.None?
    requires Seek(p, st, text, final) == Seek(p, other, text, final)
    ensures Interpret(p, st, text, final) == Interpret(p, other, text, final)
    ensures !final && Clean(p, other, text) ==> Clean(p, st, text)
  {
    hide Seek;
  }

  lemma ThroughClose(p: Parser, st: Stream, text: string, closed: Stream, final: bool)
    requires Ready(st, text) && st.open.Some? && UpdateOpen(p, st, text).cursor <= |text|
    requires UpdateOpen(p, st, text).open.value.obj.end.Some?
      && Close(p, UpdateOpen(p, st, text), text, final) == (closed, true)
    ensures Ready(closed, text) && Interpret(p, st, text, final) == Interpret(p, closed, text, final)
    ensures !final && Clean(p, closed, text) && Contained(UpdateOpen(p, st, text).open.value, text) ==> Clean(p, st, text)
  {
    hide UpdateCall, Contained, Deltas;
    ObjectEndsLater(st.open.value.obj, st.cursor, text);
  }

  // The stream once a call standing at its cursor has been read.
  function Told(p: Parser, st: Stream, c: Invocation): Stream
    requires IsCall(c)
  {
    var end := st.cursor + |Show(Payload(c))|;
    st.(calls := st.calls + [Reported(p, st.nextIndex, c)], assembled := st.assembled + [Given(p, c)],
        nextIndex := st.nextIndex + 1, cursor := end, open := None, trailing := Some(end))
  }

  /** From where a call is found, the loop reads it whole. */
  lemma ReadsCallAt(p: Parser, st: Stream, text: string, next: Stream, js: nat, c: Invocation, final: bool)
    requires Ready(st, text) && st.open.None? && IsCall(c) && Seek(p, st, text, final) == Start(next, js)
    requires At(text, js, Show(Payload(c)))
    ensures var told := Told(p, next.(cursor := js), c);
      && Ready(told, text) && Interpret(p, st, text, final) == Interpret(p, told, text, final)
      && (!final && Clean(p, told, text) ==> Clean(p, st, text))
  {
    hide Seek, UpdateOpen, UpdateCall, Close, Contained, Show, Payload, IsMember, At, Interpret, Clean, Given,
      Reported, Ready;
    ThroughSeek(p, st, text, next, js, final);
    var begun := OpenAt(next, js);
    CallCloses(p, begun, text, c, final);
    var closed := Close(p, UpdateOpen(p, begun, text), text, final).0;
    ThroughClose(p, begun, text, closed, final);
  }

  // ---- prose ----------------------------------------------------------------------------------------------------

  // Between calls, with nothing held back.
  predicate AtGap(st: Stream, text: string) {
    st.open.None? && st.trailing.None? && !st.region && st.cursor <= |text|
  }

  predicate NoMarker(p: Parser, text: string) {
    forall i :: 0 <= i < |text| ==> !At(text, i, p.Marker())
  }

  // An occurrence inside the prose is one of the prose's own.
  lemma OwnMarker(p: Parser, text: string, c: nat, prose: string, i: nat)
    requires At(text, c, prose) && c <= i && i + |p.Marker()| <= c + |prose| && NoMarker(p, prose)
    ensures !At(text, i, p.Marker())
  {
    var marker := p.Marker();
    if At(text, i, marker) {
      forall k | 0 <= k < |marker| ensures prose[i - c + k] == marker[k] {
        CharOf(text, i, marker, k);
        CharOf(text, c, prose, i - c + k);
      }
      assert prose[i - c..i - c + |marker|] == marker;
      assert At(prose, i - c, marker);
    }
  }

  lemma MarkerOnce(p: Parser, k: nat)
    requires 0 < k < |p.Marker()|
    ensures p.Marker()[k] != p.Marker()[0]
  {}

  lemma MarkerAfterProse(p: Parser, text: string, c: nat, prose: string)
    requires At(text, c, prose) && NoMarker(p, prose) && At(text, c + |prose|, p.Marker())
    ensures Find(text, p.Marker(), c) == Some(c + |prose|)
  {
    hide At, NoMarker;
    var at, marker := c + |prose|, p.Marker();
    CharOf(text, at, marker, 0);
    Spans(text, at, marker);
    forall i | c <= i < at ensures !At(text, i, marker) {
      if i + |marker| <= at {
        OwnMarker(p, text, c, prose, i);
      } else {
        MarkerOnce(p, at - i);
        Differs(text, i, marker, at - i);
      }
    }
    FindIs(text, marker, c, at);
  }

  lemma NoMarkerAfter(p: Parser, text: string, c: nat, prose: string, from: nat)
    requires c <= from && At(text, c, prose) && c + |prose| == |text| && NoMarker(p, prose)
    ensures Find(text, p.Marker(), from).None?
  {
    forall i | from <= i ensures !At(text, i, p.Marker()) {
      if i + |p.Marker()| <= |text| { OwnMarker(p, text, c, prose, i); }
    }
  }

  // The last stretch of prose: part of it is held back until the text is finished.
  lemma ReadsProse(p: Parser, st: Stream, text: string, prose: string)
    requires AtGap(st, text) && At(text, st.cursor, prose) && st.cursor + |prose| == |text| && NoMarker(p, prose)
    ensures Clean(p, st, text)
    ensures var pushed := Interpret(p, st, text, false);
      var r := Interpret(p, pushed, text, true);
      r.content == st.content + prose && r.calls == st.calls && r.assembled == st.assembled
  {
    NoMarkerAfter(p, text, st.cursor, prose, st.cursor);
    var e := SafeEnd(p, st, text, false);
    var pushed := EmitContent(st, text, e);
    assert Seek(p, st, text, false) == Stop(pushed);
    NoMarkerAfter(p, text, st.cursor, prose, pushed.cursor);
    hide Find, At, NoMarker;
    assert Seek(p, pushed, text, true) == Stop(EmitContent(pushed, text, |text|));
    EmitTwice(st, text, text, e, |text|);
    assert text[st.cursor..] == prose by { Spans(text, st.cursor, prose); }
    assert st.content + "" == st.content;
  }

  // The object after a marker starts at the first brace.
  lemma BraceAfter(text: string, at: nat, js: nat)
    requires at <= js < |text| && text[js] == '{' && forall i :: at <= i < js ==> text[i] != '{'
    ensures Find(text, "{", at) == Some(js)
  {
    forall i | at <= i < js ensures !At(text, i, "{") { Differs(text, i, "{", 0); }
    FindIs(text, "{", at, js);
  }

  // And between calls, the search gives what stands before the marker as content and starts at that brace.
  lemma SeeksMarker(p: Parser, st: Stream, text: string, at: nat, js: nat, final: bool)
    requires AtGap(st, text) && Find(text, p.Marker(), st.cursor) == Some(at) && Find(text, "{", at) == Some(js)
    ensures st.cursor <= at <= |text|
    ensures Seek(p, st, text, final) == Start(st.(content := st.content + text[st.cursor..at], cursor := at), js)
  {
    hide Find;
    assert FindCall(p, text, st.cursor) == Some(Found(at, js));
    assert st.content + "" == st.content;
  }
}
