// First-occurrence scanners over a growing text: a literal marker, and the two keys a call is read
// by. Each says what an occurrence is and that seeing more text never moves the first one. A name
// matches with its whole string value, an arguments key with the colon and the spaces after it.
module KeyScan {
  import opened Options
  import opened ValueSpan

  // ---- literals -----------------------------------------------------------------------------------

  predicate At(text: string, i: nat, pattern: string) {
    i + |pattern| <= |text| && text[i..i + |pattern|] == pattern
  }

  // The first occurrence of `pattern` at or after `from`.
  function Find(text: string, pattern: string, from: nat): (r: Option<nat>)
    ensures r.Some? ==> from <= r.value && At(text, r.value, pattern)
    ensures r.Some? ==> forall i :: from <= i < r.value ==> !At(text, i, pattern)
    ensures r.None? ==> forall i :: from <= i ==> !At(text, i, pattern)
    decreases |text| - from
  {
    if from + |pattern| > |text| then None
    else if text[from..from + |pattern|] == pattern then Some(from)
    else if from == |text| then None
    else Find(text, pattern, from + 1)
  }

  lemma FindIs(text: string, pattern: string, from: nat, at: nat)
    requires from <= at && At(text, at, pattern)
    requires forall i :: from <= i < at ==> !At(text, i, pattern)
    ensures Find(text, pattern, from) == Some(at)
  {}

  lemma CharOf(text: string, i: nat, pattern: string, k: nat)
    requires At(text, i, pattern) && k < |pattern|
    ensures text[i + k] == pattern[k]
  {
    assert text[i..i + |pattern|][k] == pattern[k];
  }

  lemma Differs(text: string, i: nat, pattern: string, k: nat)
    requires k < |pattern| && i + k < |text| && text[i + k] != pattern[k]
    ensures !At(text, i, pattern)
  {
    if At(text, i, pattern) { CharOf(text, i, pattern, k); }
  }

  lemma AtGrows(t1: string, t2: string, i: nat, pattern: string)
    requires t1 <= t2
    ensures At(t1, i, pattern) ==> At(t2, i, pattern)
    ensures i + |pattern| <= |t1| && At(t2, i, pattern) ==> At(t1, i, pattern)
  {
    if i + |pattern| <= |t1| {
      assert t1[i..i + |pattern|] == t2[i..i + |pattern|];
    }
  }

  lemma FindGrows(t1: string, t2: string, pattern: string, from: nat)
    requires t1 <= t2 && Find(t1, pattern, from).Some?
    ensures Find(t2, pattern, from) == Find(t1, pattern, from)
  {
    var at := Find(t1, pattern, from).value;
    AtGrows(t1, t2, at, pattern);
    forall i | from <= i < at ensures !At(t2, i, pattern) {
      AtGrows(t1, t2, i, pattern);
    }
    FindIs(t2, pattern, from, at);
  }

  // Searching can start later when nothing lies in between.
  lemma FindSkips(text: string, pattern: string, from: nat, later: nat)
    requires from <= later && forall i :: from <= i < later ==> !At(text, i, pattern)
    ensures Find(text, pattern, from) == Find(text, pattern, later)
  {
    var r := Find(text, pattern, later);
    if r.Some? {
      FindIs(text, pattern, from, r.value);
    }
  }

  // ---- texts made of pieces ----------------------------------------------------------------------

  lemma Within(text: string, at: nat, whole: string, k: nat, part: string)
    requires At(text, at, whole) && At(whole, k, part)
    ensures At(text, at + k, part)
  {
    var there := text[at..at + |whole|];
    forall i | 0 <= i < |part| ensures text[at + k + i] == part[i] {
      assert there[k + i] == whole[k..k + |part|][i];
    }
    assert text[at + k..at + k + |part|] == part;
  }

  lemma Halves(text: string, c: nat, a: string, b: string)
    requires At(text, c, a + b)
    ensures At(text, c, a) && At(text, c + |a|, b)
  {
    Within(text, c, a + b, 0, a);
    Within(text, c, a + b, |a|, b);
  }

  lemma Joins(text: string, c: nat, a: string, b: string)
    requires At(text, c, a) && At(text, c + |a|, b)
    ensures At(text, c, a + b)
  {
    assert text[c..c + |a + b|] == text[c..c + |a|] + text[c + |a|..c + |a| + |b|];
  }

  lemma Spans(text: string, at: nat, pattern: string)
    requires At(text, at, pattern)
    ensures at + |pattern| <= |text| && text[at..at + |pattern|] == pattern
  {}

  lemma Fits(text: string, at: nat, pattern: string)
    requires At(text, at, pattern)
    ensures at + |pattern| <= |text|
  {}

  lemma EmptyAt(text: string, c: nat)
    requires c <= |text|
    ensures At(text, c, "")
  {}

  // ---- whitespace ---------------------------------------------------------------------------------

  // What `\s` matches in a str pattern.
  predicate IsSpace(c: char) {
    || '\t' <= c <= '\r' || '\U{1c}' <= c <= ' ' || c == '\U{85}' || c == '\U{a0}' || c == '\U{1680}'
    || '\U{2000}' <= c <= '\U{200a}' || c == '\U{2028}' || c == '\U{2029}' || c == '\U{202f}'
    || c == '\U{205f}' || c == '\U{3000}'
  }

  function SkipSpace(text: string, i: nat, limit: nat): (k: nat)
    requires limit <= |text|
    ensures i <= k && (i <= limit ==> k <= limit)
    ensures forall j :: i <= j < k ==> j < limit && IsSpace(text[j])
    ensures k < limit ==> !IsSpace(text[k])
    decreases limit - i
  {
    if i < limit && IsSpace(text[i]) then SkipSpace(text, i + 1, limit) else i
  }

  lemma SkipSpaceIs(text: string, i: nat, k: nat, limit: nat)
    requires i <= k < limit <= |text| && !IsSpace(text[k])
    requires forall j :: i <= j < k ==> IsSpace(text[j])
    ensures SkipSpace(text, i, limit) == k
  {}

  lemma SkipSpaceGrows(t1: string, t2: string, i: nat, l1: nat, l2: nat)
    requires t1 <= t2 && l1 <= |t1| && l1 <= l2 <= |t2| && SkipSpace(t1, i, l1) < l1
    ensures SkipSpace(t2, i, l2) == SkipSpace(t1, i, l1)
  {
    SkipSpaceIs(t2, i, SkipSpace(t1, i, l1), l2);
  }

  // ---- "arguments": and "parameters": ---------------------------------------------------------------

  const ARGUMENTS := "\"arguments\""
  const PARAMETERS := "\"parameters\""
  const NAME := "\"name\""

  // The position after a colon that follows optional space at `j`.
  function AfterColon(text: string, j: nat, limit: nat): (r: Option<nat>)
    requires limit <= |text|
    ensures r.Some? ==> j < r.value <= limit && text[r.value - 1] == ':'
    ensures r.Some? ==> forall i :: j <= i < r.value - 1 ==> IsSpace(text[i])
  {
    var k := SkipSpace(text, j, limit);
    if k < limit && text[k] == ':' then Some(k + 1) else None
  }

  function KeyAt(text: string, i: nat, limit: nat): nat
    requires limit <= |text|
  {
    if i + |ARGUMENTS| <= limit && At(text, i, ARGUMENTS) then |ARGUMENTS|
    else if i + |PARAMETERS| <= limit && At(text, i, PARAMETERS) then |PARAMETERS|
    else 0
  }

  // Where the value starts of an arguments key found at exactly `i`.
  function ArgumentsAt(text: string, i: nat, limit: nat): (r: Option<nat>)
    requires limit <= |text|
    ensures r.Some? ==> i < r.value <= limit
  {
    var n := KeyAt(text, i, limit);
    if n == 0 then None
    else
      var colon := AfterColon(text, i + n, limit);
      if colon.None? then None else Some(SkipSpace(text, colon.value, limit))
  }

  function FindArguments(text: string, from: nat, limit: nat): (r: Option<nat>)
    requires limit <= |text|
    ensures r.Some? ==> from < r.value <= limit
    decreases limit - from
  {
    if limit <= from then None
    else if ArgumentsAt(text, from, limit).Some? then ArgumentsAt(text, from, limit)
    else FindArguments(text, from + 1, limit)
  }

  // ---- "name": "..." ---------------------------------------------------------------------------------

  // The closing quote of a string whose body starts at `p`; a backslash takes the next character with
  // it, which must not be a newline.
  function BodyEnd(text: string, p: nat, limit: nat): (r: Option<nat>)
    requires limit <= |text|
    ensures r.Some? ==> p <= r.value < limit && text[r.value] == '"'
    decreases limit - p
  {
    if limit <= p then None
    else if text[p] == '"' then Some(p)
    else if text[p] == '\\' then
      if p + 1 < limit && text[p + 1] != '\n' then BodyEnd(text, p + 2, limit) else None
    else BodyEnd(text, p + 1, limit)
  }

  // Where the value's body starts of a name key found at exactly `i`.
  function NameOpens(text: string, i: nat, limit: nat): (r: Option<nat>)
    requires limit <= |text|
    ensures r.Some? ==> i + |NAME| < r.value - 1 < limit && text[r.value - 1] == '"'
  {
    if !(i + |NAME| <= limit && At(text, i, NAME)) then None
    else
      var colon := AfterColon(text, i + |NAME|, limit);
      if colon.None? then None
      else
        var q := SkipSpace(text, colon.value, limit);
        if q < limit && text[q] == '"' then Some(q + 1) else None
  }

  // The raw characters between the quotes of that value.
  function NameAt(text: string, i: nat, limit: nat): (r: Option<string>)
    requires limit <= |text|
  {
    var p := NameOpens(text, i, limit);
    if p.None? then None
    else
      var e := BodyEnd(text, p.value, limit);
      if e.None? then None else Some(text[p.value..e.value])
  }

  function FindName(text: string, from: nat, limit: nat): Option<string>
    requires limit <= |text|
    decreases limit - from
  {
    if limit <= from then None
    else if NameAt(text, from, limit).Some? then NameAt(text, from, limit)
    else FindName(text, from + 1, limit)
  }

  lemma NotAKey(text: string, i: nat, limit: nat)
    requires limit <= |text| && i < limit && text[i] != '"'
    ensures ArgumentsAt(text, i, limit).None?
  {
    if KeyAt(text, i, limit) > 0 { KeyShape(text, i, limit); }
  }

  lemma NotAKeyEither(text: string, i: nat, limit: nat)
    requires limit <= |text| && i + 1 < limit && text[i + 1] != 'a' && text[i + 1] != 'p'
    ensures ArgumentsAt(text, i, limit).None?
  {
    if KeyAt(text, i, limit) > 0 { KeyShape(text, i, limit); }
  }

  lemma {:induction false} ArgumentsFirstAt(text: string, from: nat, at: nat, limit: nat)
    requires from <= at < limit <= |text| && ArgumentsAt(text, at, limit).Some?
    requires forall i :: from <= i < at ==> ArgumentsAt(text, i, limit).None?
    ensures FindArguments(text, from, limit) == ArgumentsAt(text, at, limit)
    decreases at - from
  {
    if from < at { ArgumentsFirstAt(text, from + 1, at, limit); }
  }

  lemma {:induction false} BodyEndIs(text: string, p: nat, e: nat, limit: nat)
    requires p <= e < limit <= |text| && text[e] == '"'
    requires forall i :: p <= i < e ==> text[i] != '"' && text[i] != '\\'
    ensures BodyEnd(text, p, limit) == Some(e)
    decreases e - p
  {
    if p < e { BodyEndIs(text, p + 1, e, limit); }
  }

  // ---- growing text never moves what was found --------------------------------------------------------

  lemma AfterColonGrows(t1: string, t2: string, j: nat, l1: nat, l2: nat)
    requires t1 <= t2 && l1 <= |t1| && l1 <= l2 <= |t2| && AfterColon(t1, j, l1).Some?
    ensures AfterColon(t2, j, l2) == AfterColon(t1, j, l1)
  {
    SkipSpaceGrows(t1, t2, j, l1, l2);
  }

  lemma KeyAtGrows(t1: string, t2: string, i: nat, l1: nat, l2: nat)
    requires t1 <= t2 && l1 <= |t1| && l1 <= l2 <= |t2| && KeyAt(t1, i, l1) > 0
    ensures KeyAt(t2, i, l2) == KeyAt(t1, i, l1)
  {
    AtGrows(t1, t2, i, ARGUMENTS);
    AtGrows(t1, t2, i, PARAMETERS);
    if At(t1, i, PARAMETERS) && At(t2, i, ARGUMENTS) {
      assert PARAMETERS[1] == t1[i..i + |PARAMETERS|][1] == t1[i + 1];
      assert ARGUMENTS[1] == t2[i..i + |ARGUMENTS|][1] == t2[i + 1];
    }
  }

  // A key whose match was cut off cannot hide one that starts later and is complete.
  lemma ArgumentsDoNotOverlap(t1: string, t2: string, i: nat, l2: nat, m: nat)
    requires t1 <= t2 && |t1| <= l2 <= |t2| && i < m
    requires ArgumentsAt(t2, i, l2).Some? && ArgumentsAt(t1, m, |t1|).Some?
    ensures ArgumentsAt(t1, i, |t1|).Some?
  {
    KeyShape(t1, m, |t1|);
    ColonWasThere(t1, t2, i, l2);
  }

  lemma ColonWasThere(t1: string, t2: string, i: nat, l2: nat)
    requires t1 <= t2 && |t1| <= l2 <= |t2| && ArgumentsAt(t2, i, l2).Some?
    requires AfterColon(t2, i + KeyAt(t2, i, l2), l2).value <= |t1|
    ensures ArgumentsAt(t1, i, |t1|).Some?
  {
    hide KeyAt, SkipSpace, AfterColon;
    KeyWasThere(t1, t2, i, l2);
    AfterColonWas(t1, t2, i + KeyAt(t2, i, l2), l2);
  }

  lemma KeyWasThere(t1: string, t2: string, i: nat, l2: nat)
    requires t1 <= t2 && |t1| <= l2 <= |t2| && KeyAt(t2, i, l2) > 0 && i + KeyAt(t2, i, l2) <= |t1|
    ensures KeyAt(t1, i, |t1|) == KeyAt(t2, i, l2)
  {
    hide At;
    AtGrows(t1, t2, i, ARGUMENTS);
    AtGrows(t1, t2, i, PARAMETERS);
  }

  lemma AfterColonWas(t1: string, t2: string, j: nat, l2: nat)
    requires t1 <= t2 && |t1| <= l2 <= |t2| && AfterColon(t2, j, l2).Some? && AfterColon(t2, j, l2).value <= |t1|
    ensures AfterColon(t1, j, |t1|).Some?
  {
    hide SkipSpace;
    SkipSpaceIs(t1, j, AfterColon(t2, j, l2).value - 1, |t1|);
  }

  lemma KeyShape(text: string, i: nat, limit: nat)
    requires limit <= |text| && KeyAt(text, i, limit) > 0
    ensures var n := KeyAt(text, i, limit);
      && 2 <= n && i + n <= limit && text[i] == '"' && text[i + n - 1] == '"' && (text[i + 1] == 'a' || text[i + 1] == 'p')
      && forall j :: i < j < i + n - 1 ==> text[j] != '"'
  {
    var n := KeyAt(text, i, limit);
    var key := text[i..i + n];
    assert key == ARGUMENTS || key == PARAMETERS;
    assert forall j :: i <= j < i + n ==> text[j] == key[j - i];
  }

  lemma {:induction false} FindArgumentsGrows(t1: string, t2: string, from: nat, l2: nat)
    requires t1 <= t2 && |t1| <= l2 <= |t2|
    requires FindArguments(t1, from, |t1|).Some? && FindArguments(t1, from, |t1|).value < |t1|
    ensures FindArguments(t2, from, l2) == FindArguments(t1, from, |t1|)
    decreases |t1| - from
  {
    if ArgumentsAt(t1, from, |t1|).Some? {
      KeyAtGrows(t1, t2, from, |t1|, l2);
      AfterColonGrows(t1, t2, from + KeyAt(t1, from, |t1|), |t1|, l2);
      SkipSpaceGrows(t1, t2, AfterColon(t1, from + KeyAt(t1, from, |t1|), |t1|).value, |t1|, l2);
    } else {
      FindArgumentsGrows(t1, t2, from + 1, l2);
      var m := ArgumentsFoundAt(t1, from + 1, |t1|);
      if ArgumentsAt(t2, from, l2).Some? {
        ArgumentsDoNotOverlap(t1, t2, from, l2, m);
      }
    }
  }

  // Where the first arguments key starts.
  function ArgumentsFoundAt(text: string, from: nat, limit: nat): (m: nat)
    requires limit <= |text| && FindArguments(text, from, limit).Some?
    ensures from <= m < limit && ArgumentsAt(text, m, limit) == FindArguments(text, from, limit)
    decreases limit - from
  {
    if ArgumentsAt(text, from, limit).Some? then from else ArgumentsFoundAt(text, from + 1, limit)
  }

  lemma {:induction false} BodyEndGrows(t1: string, t2: string, p: nat, l1: nat, l2: nat)
    requires t1 <= t2 && l1 <= |t1| && l1 <= l2 <= |t2| && BodyEnd(t1, p, l1).Some?
    ensures BodyEnd(t2, p, l2) == BodyEnd(t1, p, l1)
    decreases l1 - p
  {
    if t1[p] == '"' {
    } else if t1[p] == '\\' {
      BodyEndGrows(t1, t2, p + 2, l1, l2);
    } else {
      BodyEndGrows(t1, t2, p + 1, l1, l2);
    }
  }

  // A closing quote that was already there was already found.
  lemma {:induction false} BodyEndWasThere(t1: string, t2: string, p: nat, l1: nat, l2: nat)
    requires t1 <= t2 && l1 <= |t1| && l1 <= l2 <= |t2|
    requires BodyEnd(t2, p, l2).Some? && BodyEnd(t2, p, l2).value < l1
    ensures BodyEnd(t1, p, l1) == BodyEnd(t2, p, l2)
    decreases l2 - p
  {
    if t2[p] == '"' {
    } else if t2[p] == '\\' {
      BodyEndWasThere(t1, t2, p + 2, l1, l2);
    } else {
      BodyEndWasThere(t1, t2, p + 1, l1, l2);
    }
  }

  // A quote inside a string body is an escaped one, and reading resumes right after it.
  lemma {:induction false} EscapedQuote(text: string, p: nat, m: nat, limit: nat)
    requires limit <= |text| && p <= m && BodyEnd(text, p, limit).Some? && m < BodyEnd(text, p, limit).value
    requires text[m] == '"'
    ensures BodyEnd(text, p, limit) == BodyEnd(text, m + 1, limit)
    decreases m - p
  {
    if text[p] == '\\' {
      if m >= p + 2 {
        EscapedQuote(text, p + 2, m, limit);
      }
    } else {
      EscapedQuote(text, p + 1, m, limit);
    }
  }

  lemma NameShape(text: string, i: nat, limit: nat)
    requires limit <= |text| && i + |NAME| <= limit && At(text, i, NAME)
    ensures text[i] == '"' && text[i + 5] == '"'
    ensures text[i + 1] == 'n' && text[i + 2] == 'a' && text[i + 3] == 'm' && text[i + 4] == 'e'
  {
    var key := text[i..i + 6];
    assert forall j :: i <= j < i + 6 ==> text[j] == key[j - i];
  }

  lemma BodyOfName(text: string, m: nat, limit: nat)
    requires limit <= |text| && m + |NAME| <= limit && At(text, m, NAME)
    ensures BodyEnd(text, m + 1, limit) == Some(m + 5)
  {
    NameShape(text, m, limit);
    assert BodyEnd(text, m + 3, limit) == BodyEnd(text, m + 4, limit) == Some(m + 5);
  }

  lemma NamesDoNotOverlap(t1: string, t2: string, i: nat, l2: nat, m: nat)
    requires t1 <= t2 && |t1| <= l2 <= |t2| && i < m
    requires NameAt(t2, i, l2).Some? && m + |NAME| <= |t1| && At(t1, m, NAME)
    ensures NameAt(t1, i, |t1|).Some?
  {
    AtGrows(t1, t2, m, NAME);
    NameClosesBefore(t2, i, l2, m);
    NameWasThere(t1, t2, i, l2);
  }

  // The closing quote of the name found at `i`.
  function NameEnd(text: string, i: nat, limit: nat): nat
    requires limit <= |text| && NameAt(text, i, limit).Some?
  {
    BodyEnd(text, NameOpens(text, i, limit).value, limit).value
  }

  // Another name key further on starts only after this one's value has closed, or inside its last quote.
  lemma NameClosesBefore(text: string, i: nat, limit: nat, m: nat)
    requires limit <= |text| && i < m && m + |NAME| <= limit
    requires NameAt(text, i, limit).Some? && At(text, m, NAME)
    ensures NameEnd(text, i, limit) < m + |NAME|
  {
    var p := NameOpens(text, i, limit).value;
    NameShape(text, i, limit);
    NameShape(text, m, limit);
    BodyOfName(text, m, limit);
    if p <= m < NameEnd(text, i, limit) {
      EscapedQuote(text, p, m, limit);
    }
  }

  lemma NameWasThere(t1: string, t2: string, i: nat, l2: nat)
    requires t1 <= t2 && |t1| <= l2 <= |t2|
    requires NameAt(t2, i, l2).Some? && NameEnd(t2, i, l2) < |t1|
    ensures NameAt(t1, i, |t1|).Some?
  {
    BodyEndWasThere(t1, t2, NameOpens(t2, i, l2).value, |t1|, l2);
  }

  lemma {:induction false} FindNameGrows(t1: string, t2: string, from: nat, l2: nat)
    requires t1 <= t2 && |t1| <= l2 <= |t2| && FindName(t1, from, |t1|).Some?
    ensures FindName(t2, from, l2) == FindName(t1, from, |t1|)
    decreases |t1| - from
  {
    if NameAt(t1, from, |t1|).Some? {
      NameAtGrows(t1, t2, from, |t1|, l2);
    } else {
      FindNameGrows(t1, t2, from + 1, l2);
      var m := NameFoundAt(t1, from + 1, |t1|);
      if NameAt(t2, from, l2).Some? {
        NamesDoNotOverlap(t1, t2, from, l2, m);
      }
    }
  }

  function NameFoundAt(text: string, from: nat, limit: nat): (m: nat)
    requires limit <= |text| && FindName(text, from, limit).Some?
    ensures from <= m && m + |NAME| <= limit && At(text, m, NAME)
    decreases limit - from
  {
    if NameAt(text, from, limit).Some? then from else NameFoundAt(text, from + 1, limit)
  }

  lemma NameOpensGrows(t1: string, t2: string, i: nat, l1: nat, l2: nat)
    requires t1 <= t2 && l1 <= |t1| && l1 <= l2 <= |t2| && NameOpens(t1, i, l1).Some?
    ensures NameOpens(t2, i, l2) == NameOpens(t1, i, l1)
  {
    AtGrows(t1, t2, i, NAME);
    AfterColonGrows(t1, t2, i + |NAME|, l1, l2);
    SkipSpaceGrows(t1, t2, AfterColon(t1, i + |NAME|, l1).value, l1, l2);
  }

  lemma NameAtGrows(t1: string, t2: string, i: nat, l1: nat, l2: nat)
    requires t1 <= t2 && l1 <= |t1| && l1 <= l2 <= |t2| && NameAt(t1, i, l1).Some?
    ensures NameAt(t2, i, l2) == NameAt(t1, i, l1)
  {
    NameOpensGrows(t1, t2, i, l1, l2);
    var p := NameOpens(t1, i, l1).value;
    BodyEndGrows(t1, t2, p, l1, l2);
    var e := BodyEnd(t1, p, l1).value;
    assert t1[p..e] == t2[p..e];
  }

  // ---- only the text below the limit matters ------------------------------------------------------------

  lemma {:induction false} SkipSpaceLocal(t1: string, t2: string, i: nat, limit: nat)
    requires limit <= |t1| && t1 <= t2
    ensures SkipSpace(t1, i, limit) == SkipSpace(t2, i, limit)
    decreases limit - i
  {
    if i < limit && IsSpace(t1[i]) { SkipSpaceLocal(t1, t2, i + 1, limit); }
  }

  lemma {:induction false} BodyEndLocal(t1: string, t2: string, p: nat, limit: nat)
    requires limit <= |t1| && t1 <= t2
    ensures BodyEnd(t1, p, limit) == BodyEnd(t2, p, limit)
    decreases limit - p
  {
    if p < limit {
      BodyEndLocal(t1, t2, p + 1, limit);
      BodyEndLocal(t1, t2, p + 2, limit);
    }
  }

  lemma AfterColonLocal(t1: string, t2: string, j: nat, limit: nat)
    requires limit <= |t1| && t1 <= t2
    ensures AfterColon(t1, j, limit) == AfterColon(t2, j, limit)
  {
    SkipSpaceLocal(t1, t2, j, limit);
  }

  lemma KeyAtLocal(t1: string, t2: string, i: nat, limit: nat)
    requires limit <= |t1| && t1 <= t2
    ensures KeyAt(t1, i, limit) == KeyAt(t2, i, limit)
  {
    AtGrows(t1, t2, i, ARGUMENTS);
    AtGrows(t1, t2, i, PARAMETERS);
  }

  lemma ArgumentsAtLocal(t1: string, t2: string, i: nat, limit: nat)
    requires limit <= |t1| && t1 <= t2
    ensures ArgumentsAt(t1, i, limit) == ArgumentsAt(t2, i, limit)
  {
    KeyAtLocal(t1, t2, i, limit);
    var n := KeyAt(t1, i, limit);
    AfterColonLocal(t1, t2, i + n, limit);
    var colon := AfterColon(t1, i + n, limit);
    if colon.Some? {
      SkipSpaceLocal(t1, t2, colon.value, limit);
    }
  }

  lemma {:induction false} FindArgumentsLocal(t1: string, t2: string, from: nat, limit: nat)
    requires limit <= |t1| && t1 <= t2
    ensures FindArguments(t1, from, limit) == FindArguments(t2, from, limit)
    decreases limit - from
  {
    if from < limit {
      ArgumentsAtLocal(t1, t2, from, limit);
      FindArgumentsLocal(t1, t2, from + 1, limit);
    }
  }

  lemma NameOpensLocal(t1: string, t2: string, i: nat, limit: nat)
    requires limit <= |t1| && t1 <= t2
    ensures NameOpens(t1, i, limit) == NameOpens(t2, i, limit)
  {
    AtGrows(t1, t2, i, NAME);
    AfterColonLocal(t1, t2, i + |NAME|, limit);
    var colon := AfterColon(t1, i + |NAME|, limit);
    if colon.Some? {
      SkipSpaceLocal(t1, t2, colon.value, limit);
    }
  }

  lemma NameAtLocal(t1: string, t2: string, i: nat, limit: nat)
    requires limit <= |t1| && t1 <= t2
    ensures NameAt(t1, i, limit) == NameAt(t2, i, limit)
  {
    NameOpensLocal(t1, t2, i, limit);
    var p := NameOpens(t1, i, limit);
    if p.Some? {
      BodyEndLocal(t1, t2, p.value, limit);
      var e := BodyEnd(t1, p.value, limit);
      assert e.Some? ==> t1[p.value..e.value] == t2[p.value..e.value];
    }
  }

  lemma {:induction false} FindNameLocal(t1: string, t2: string, from: nat, limit: nat)
    requires limit <= |t1| && t1 <= t2
    ensures FindName(t1, from, limit) == FindName(t2, from, limit)
    decreases limit - from
  {
    if from < limit {
      NameAtLocal(t1, t2, from, limit);
      FindNameLocal(t1, t2, from + 1, limit);
    }
  }
}
