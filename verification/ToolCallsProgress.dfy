// What a client has been sent at any moment: content is held back no longer than a marker could take to show,
// an object that turns out to be no call is content after all, and a call's name and arguments are passed on
// as they arrive.
module ToolCallsProgress {
  import opened Options
  import opened ValueSpan
  import opened KeyScan
  import opened Json
  import opened ToolCalls
  import opened ToolCallsPathFree
  import opened CallPayloads

  // ---- content ------------------------------------------------------------------------------------------

  ghost predicate NoMarkerFrom(p: Parser, text: string, from: nat) {
    forall i: nat :: from <= i ==> !At(text, i, p.Marker())
  }

  lemma NoneFound(text: string, pattern: string, from: nat)
    requires forall i :: from <= i ==> !At(text, i, pattern)
    ensures Find(text, pattern, from).None?
  {}

  /** Between calls, a push sends all but the last so many characters, and finishing sends those. */
  lemma HoldsBack(p: Parser, st: Stream, text: string)
    requires AtGap(st, text) && NoMarkerFrom(p, text, st.cursor)
    ensures var pushed := Push(p, st, text);
      && pushed.content == st.content + text[st.cursor..pushed.cursor] && pushed.calls == st.calls && pushed.open.None?
      && pushed.cursor == (if st.cursor + p.hold <= |text| then |text| - p.hold else st.cursor)
      && Finish(p, st, text).content == st.content + text[st.cursor..]
  {
    NoneFound(text, p.Marker(), st.cursor);
    hide Find, NoMarkerFrom;
    assert st.content + "" == st.content;
  }

  /** With a marker in the text and its object not begun, everything before the marker is sent. */
  lemma SendsUpToMarker(p: Parser, st: Stream, text: string, m: nat)
    requires AtGap(st, text) && st.cursor <= m && At(text, m, p.Marker())
    requires (forall i :: st.cursor <= i < m ==> !At(text, i, p.Marker())) && forall i :: m <= i < |text| ==> text[i] != '{'
    ensures var pushed := Push(p, st, text);
      && pushed.content == st.content + text[st.cursor..m] && pushed.cursor == m && pushed.open.None?
      && pushed.calls == st.calls
  {
    FindIs(text, p.Marker(), st.cursor, m);
    forall i | m <= i ensures !At(text, i, "{") {
      if i < |text| { Differs(text, i, "{", 0); }
    }
    NoneFound(text, "{", m);
    hide Find;
    assert st.content + "" == st.content;
  }

  // ---- an object that is no call --------------------------------------------------------------------------

  lemma Nameless(p: Parser, text: string, js: nat, index: nat, end: nat)
    requires Advance(NewSpan(js), text).end == Some(end) && js < end <= |text|
    requires forall i :: js <= i && i + |NAME| <= end ==> !At(text, i, NAME)
    ensures var u := UpdateCall(p, NewCall(index, js), text); u.name.None? && !u.sentOpen && u.obj.end == Some(end)
  {
    forall from: nat, limit: nat | js <= from && limit <= end ensures FindName(text, from, limit).None? {
      forall i | from <= i < limit ensures NameAt(text, i, limit).None? {}
      NoNameIn(text, from, limit);
    }
    LocatedAfter(text, js, Limit(Advance(NewSpan(js), text), text));
    hide FindName, FindArguments, Advance;
  }

  lemma LocatedAfter(text: string, js: nat, limit: nat)
    requires limit <= |text|
    ensures var a := LocateArguments(text, js, limit);
      a.Some? ==> js < a.value.start <= limit && a.value == NewSpan(a.value.start)
  {}

  /** A printed object with no name in it is passed on as content, character for character; it uses up no
      number and leaves the calls and the fragments as they were. */
  lemma NamelessIsContent(p: Parser, st: Stream, text: string, next: Stream, js: nat, j: Json)
    requires Ready(st, text) && st.open.None? && Seek(p, st, text, false) == Start(next, js) && next.cursor <= js
    requires IsJson(j) && j.Obj? && At(text, js, Show(j))
    requires forall i :: js <= i && i + |NAME| <= js + |Show(j)| ==> !At(text, i, NAME)
    ensures var end := js + |Show(j)|;
      var after := next.(content := next.content + Show(j), cursor := end, open := None, trailing := None);
      && Ready(after, text) && Interpret(p, st, text, false) == Interpret(p, after, text, false)
  {
    hide Seek, UpdateCall, IsJson, Show, At, Advance, Interpret;
    SpanEnds(text, js, j);
    BraceAt(text, js, j);
    var end, begun := js + |Show(j)|, OpenAt(next, js);
    Nameless(p, text, js, next.nextIndex, end);
    ThroughSeek(p, st, text, next, js, false);
    Spans(text, js, Show(j));
    var after := next.(content := next.content + Show(j), cursor := end, open := None, trailing := None);
    ClosesNameless(p, begun, text, end);
    assert Close(p, UpdateOpen(p, begun, text), text, false) == (after, true);
    ThroughClose(p, begun, text, after, false);
  }

  lemma ClosesNameless(p: Parser, st: Stream, text: string, end: nat)
    requires st.open.Some? && st.cursor < end <= |text| && st.nextIndex > 0
    requires var u := UpdateCall(p, st.open.value, text); u.name.None? && !u.sentOpen && u.obj.end == Some(end)
    ensures Close(p, UpdateOpen(p, st, text), text, false)
         == (st.(content := st.content + text[st.cursor..end], cursor := end, open := None, trailing := None,
                 nextIndex := st.nextIndex - 1), true)
  {
    hide UpdateCall, Raw;
  }

  // ---- a call as it arrives ---------------------------------------------------------------------------------

  function Min(a: int, b: int): int { if a <= b then a else b }

  // A value that closes at `e` in the whole text stands, in the part that has arrived, up to there or as far as
  // the part goes.
  lemma RawInTime(full: string, t: string, s: nat, e: nat)
    requires t <= full && s <= |t| && s <= e && Advance(NewSpan(s), full).end == Some(e)
    ensures Raw(Advance(NewSpan(s), t), t) == full[s..Min(|t|, e)]
    ensures e < |t| ==> Advance(NewSpan(s), t).end == Some(e)
  {
    var r := Advance(NewSpan(s), t);
    AdvanceResumes(NewSpan(s), t, full);
    if r.end.Some? {
      ClosedIsFinal(NewSpan(s), t, full);
      assert e <= |t|;
    } else {
      assert r.pos == |t| && |t| <= e;
    }
    hide Advance, Feed;
    assert t[s..Min(|t|, e)] == full[s..Min(|t|, e)];
  }

  // The parts of a member that have arrived stand where they will.
  lemma HeadInTime(full: string, t: string, a: nat, m: Member)
    requires t <= full && HeadChars(full, a, m) && ValueFrom(a, m) < |t|
    ensures HeadChars(t, a, m)
  {
    hide IsSpace, Show;
    assert forall i :: 0 <= i < |t| ==> t[i] == full[i];
  }

  lemma AtInTime(full: string, t: string, i: nat, part: string)
    requires t <= full && At(full, i, part) && i + |part| <= |t|
    ensures At(t, i, part)
  {
    AtGrows(t, full, i, part);
  }

  // The member as far as its value.
  function Bare(m: Member): Member {
    m.(after := "")
  }

  lemma ValueInTime(full: string, t: string, a: nat, m: Member)
    requires t <= full && MemberAt(full, a, m) && ValueTo(a, m) <= |t|
    ensures MemberAt(t, a, Bare(m)) && MemberTo(a, Bare(m)) == ValueTo(a, m) == ValueTo(a, Bare(m))
    ensures ValueFrom(a, Bare(m)) == ValueFrom(a, m)
  {
    hide At, Show;
    AtInTime(full, t, a, m.before);
    AtInTime(full, t, KeyFrom(a, m), ShowString(m.key));
    AtInTime(full, t, KeyFrom(a, m) + |m.key| + 2, m.beforeColon);
    AtInTime(full, t, ColonAt(a, m), ":");
    AtInTime(full, t, ColonAt(a, m) + 1, m.afterColon);
    AtInTime(full, t, ValueFrom(a, m), Show(m.value));
    EmptyAt(t, ValueTo(a, m));
  }

  lemma BareNames(m: Member)
    requires NamesCall(m)
    ensures NamesCall(Bare(m)) && Bare(m).value == m.value && Bare(m).key == m.key
  {
    hide IsName, IsBody;
  }

  // What an open call knows of a part of its payload in which its name has closed.
  predicate KnowsSoFar(p: Parser, u: OpenCall, t: string, name: string, quoted: bool, arrived: string) {
    && u.obj.end.None? && u.name == Some(p.decodeName(name)) && u.sentOpen
    && (u.arguments.None? ==> arrived == "" && u.sent == 0)
    && (u.arguments.Some? ==>
          u.quoted == quoted && Raw(u.arguments.value, t) == arrived && u.sent == if quoted then 0 else |arrived|)
  }

  // With the arguments begun.
  lemma KnowsPart(p: Parser, t: string, js: nat, index: nat, s: nat, name: string)
    requires js < s < |t| && Advance(NewSpan(js), t).end.None? && FindArguments(t, js, |t|) == Some(s)
    requires || FindName(t, js, s) == Some(name)
             || (FindName(t, js, s).None? && Advance(NewSpan(s), t).end.Some?
                 && FindName(t, Advance(NewSpan(s), t).end.value, |t|) == Some(name))
    ensures var u := UpdateCall(p, NewCall(index, js), t);
      KnowsSoFar(p, u, t, name, t[s] == '"', Raw(Advance(NewSpan(s), t), t))
  {
    hide FindArguments, FindName;
  }

  // Before they have.
  lemma KnowsNone(p: Parser, t: string, js: nat, index: nat, name: string, quoted: bool)
    requires js < |t| && Advance(NewSpan(js), t).end.None? && FindName(t, js, |t|) == Some(name)
    requires FindArguments(t, js, |t|).None? || FindArguments(t, js, |t|).value >= |t|
    ensures var u := UpdateCall(p, NewCall(index, js), t);
      KnowsSoFar(p, u, t, name, quoted, "")
  {
    hide FindArguments, FindName;
    assert LocateArguments(t, js, |t|).None?;
  }

  // Where a printed call at `js` has its name's closing quote, and where its arguments start if the name is first.
  function NameTo(c: Invocation, js: nat): nat {
    ValueTo(if c.NameLast? then MemberTo(js + 1, c.arguments) + 1 else js + 1, c.name)
  }

  function ArgumentsFrom(c: Invocation, js: nat): nat
    requires c.NameFirst?
  {
    ValueFrom(MemberTo(js + 1, c.name) + 1, c.arguments)
  }

  predicate Quoted(c: Invocation) {
    !c.NameOnly? && c.arguments.value.Str?
  }

  // What is there of the arguments once `n` characters are, the name's closing quote among them.
  function Arrived(c: Invocation, js: nat, n: nat): string {
    match c
    case NameOnly(_) => ""
    case NameLast(arguments, _) => Spelled(arguments)
    case NameFirst(_, arguments) =>
      if n <= ArgumentsFrom(c, js) then ""
      else Spelled(arguments)[..Min(n - ArgumentsFrom(c, js), |Spelled(arguments)|)]
  }

  lemma StillOpen(full: string, t: string, js: nat, c: Invocation)
    requires IsCall(c) && At(full, js, Show(Payload(c))) && t <= full && js <= |t| < js + |Show(Payload(c))|
    ensures Advance(NewSpan(js), t).end.None?
  {
    hide Show, IsCall, Advance, IsJson;
    PayloadIsJson(c);
    assert full[..|t|] == t;
    SpanStillOpen(full, js, Payload(c), |t|);
  }

  lemma NameLastInTime(p: Parser, full: string, t: string, js: nat, index: nat, c: Invocation)
    requires c.NameLast? && IsCall(c) && At(full, js, Show(Payload(c))) && t <= full
    requires NameTo(c, js) <= |t| < js + |Show(Payload(c))|
    ensures KnowsSoFar(p, UpdateCall(p, NewCall(index, js), t), t, c.name.value.body, Quoted(c), Arrived(c, js, |t|))
  {
    hide IsMember, IsName, At, HeadChars, MemberAt, Show, UpdateCall, FindName, FindArguments, ArgumentsAt, Advance, Raw;
    hide Spelled, KnowsSoFar;
    var n, m, end := c.arguments, c.name, js + |Show(Payload(c))|;
    TwoMembers(full, js, n, m);
    var mid, s := MemberTo(js + 1, n), ValueFrom(js + 1, n);
    var e := s + |Spelled(n)|;
    HeadOf(full, js + 1, n);
    MemberEnds(full, js + 1, n, mid);
    ValueEnds(full, js + 1, n, mid);
    HeadInTime(full, t, js + 1, n);
    EndsInTime(full, t, ValueTo(js + 1, n), mid);
    assert t[js] == full[js];
    ValueIsThere(t, js + 1, n);
    ArgumentsAtFront(t, js, n, |t|);
    RawInTime(full, t, s, e);
    ValueInTime(full, t, mid + 1, m);
    BareNames(m);
    NameFound(t, e, mid + 1, Bare(m), |t|);
    StillOpen(full, t, js, c);
    KnowsPart(p, t, js, index, s, m.value.body);
    Spans(full, s, Spelled(n));
  }

  lemma EndsInTime(full: string, t: string, from: nat, to: nat)
    requires t <= full && EndsAt(full, from, to) && to < |t|
    ensures EndsAt(t, from, to) && forall i :: from <= i <= to ==> t[i] != '"'
  {
    forall i | from <= i <= to ensures t[i] == full[i] && t[i] in " \t\n\r,}" {}
  }

  lemma NameFirstInTime(p: Parser, full: string, t: string, js: nat, index: nat, c: Invocation)
    requires c.NameFirst? && IsCall(c) && At(full, js, Show(Payload(c))) && t <= full
    requires ArgumentsFrom(c, js) < |t| < js + |Show(Payload(c))|
    ensures KnowsSoFar(p, UpdateCall(p, NewCall(index, js), t), t, c.name.value.body, Quoted(c), Arrived(c, js, |t|))
  {
    hide IsMember, IsName, At, HeadChars, MemberAt, Show, UpdateCall, FindName, FindArguments, ArgumentsAt, Advance, Raw;
    hide Spelled, KnowsSoFar;
    var m, n, end := c.name, c.arguments, js + |Show(Payload(c))|;
    TwoMembers(full, js, m, n);
    var mid, s := MemberTo(js + 1, m), ArgumentsFrom(c, js);
    HeadOf(full, js + 1, m);
    HeadOf(full, mid + 1, n);
    MemberEnds(full, js + 1, m, mid);
    MemberEnds(full, mid + 1, n, end - 1);
    ValueEnds(full, mid + 1, n, end - 1);
    ValueIsThere(full, mid + 1, n);
    HeadInTime(full, t, js + 1, m);
    HeadInTime(full, t, mid + 1, n);
    MemberInTime(full, t, js + 1, m);
    EndsInTime(full, t, ValueTo(js + 1, m), mid);
    assert t[js] == full[js];
    ArgumentsAfterName(t, js, m, mid, n, |t|);
    NameFound(t, js, js + 1, m, s);
    RawInTime(full, t, s, s + |Spelled(n)|);
    StillOpen(full, t, js, c);
    KnowsPart(p, t, js, index, s, m.value.body);
    PartOf(full, s, Spelled(n), Min(|t| - s, |Spelled(n)|));
  }

  lemma PartOf(full: string, s: nat, whole: string, k: nat)
    requires At(full, s, whole) && k <= |whole|
    ensures s + k <= |full| && full[s..s + k] == whole[..k]
  {
    assert full[s..s + |whole|][..k] == full[s..s + k];
  }

  lemma MemberInTime(full: string, t: string, a: nat, m: Member)
    requires t <= full && MemberAt(full, a, m) && MemberTo(a, m) <= |t|
    ensures MemberAt(t, a, m)
  {
    hide At, Show;
    ValueInTime(full, t, a, m);
    AtInTime(full, t, ValueTo(a, m), m.after);
  }

  // The arguments have not begun, or there are none.
  lemma NameAloneInTime(p: Parser, full: string, t: string, js: nat, index: nat, c: Invocation)
    requires (c.NameFirst? ==> |t| <= ArgumentsFrom(c, js)) && !c.NameLast?
    requires IsCall(c) && At(full, js, Show(Payload(c))) && t <= full
    requires NameTo(c, js) <= |t| < js + |Show(Payload(c))|
    ensures KnowsSoFar(p, UpdateCall(p, NewCall(index, js), t), t, c.name.value.body, Quoted(c), Arrived(c, js, |t|))
  {
    hide IsMember, IsName, At, HeadChars, MemberAt, Show, UpdateCall, FindName, FindArguments, Advance, Raw;
    hide KnowsSoFar;
    var m, end := c.name, js + |Show(Payload(c))|;
    NameStandsFirst(full, js, c);
    WhereArguments(full, js, c);
    ValueInTime(full, t, js + 1, m);
    BareNames(m);
    assert t[js] == full[js];
    NameFound(t, js, js + 1, Bare(m), |t|);
    var found := FindArguments(t, js, |t|);
    if found.Some? && found.value < |t| { FindArgumentsGrows(t, full, js, end); }
    StillOpen(full, t, js, c);
    KnowsNone(p, t, js, index, m.value.body, Quoted(c));
  }

  lemma NameStandsFirst(full: string, js: nat, c: Invocation)
    requires !c.NameLast? && At(full, js, Show(Payload(c)))
    ensures MemberAt(full, js + 1, c.name) && js + |Show(Payload(c))| <= |full| && full[js] == '{'
    ensures js < ValueTo(js + 1, c.name)
  {
    hide At, MemberAt, Show;
    if c.NameFirst? { TwoMembers(full, js, c.name, c.arguments); } else { OneMember(full, js, c.name); }
  }

  lemma WhereArguments(full: string, js: nat, c: Invocation)
    requires !c.NameLast? && IsCall(c) && At(full, js, Show(Payload(c)))
    ensures js + |Show(Payload(c))| <= |full|
    ensures FindArguments(full, js, js + |Show(Payload(c))|) == if c.NameFirst? then Some(ArgumentsFrom(c, js)) else None
  {
    hide IsMember, IsName, At, HeadChars, MemberAt, Show, FindArguments, ArgumentsAt, EndsAt, Spelled, Advance;
    var m, end := c.name, js + |Show(Payload(c))|;
    if c.NameFirst? {
      var n := c.arguments;
      TwoMembers(full, js, m, n);
      var mid := MemberTo(js + 1, m);
      HeadOf(full, js + 1, m);
      HeadOf(full, mid + 1, n);
      MemberEnds(full, js + 1, m, mid);
      MemberEnds(full, mid + 1, n, end - 1);
      ValueIsThere(full, mid + 1, n);
      ValueEnds(full, mid + 1, n, end - 1);
      ArgumentsAfterName(full, js, m, mid, n, end);
    } else {
      NoArgumentsAtAll(full, js, c);
    }
  }

  lemma NoArgumentsAtAll(full: string, js: nat, c: Invocation)
    requires c.NameOnly? && IsCall(c) && At(full, js, Show(Payload(c)))
    ensures js + |Show(Payload(c))| <= |full| && FindArguments(full, js, js + |Show(Payload(c))|).None?
  {
    hide IsMember, IsName, At, HeadChars, MemberAt, Show, FindArguments, ArgumentsAt;
    var m, end := c.name, js + |Show(Payload(c))|;
    OneMember(full, js, m);
    HeadOf(full, js + 1, m);
    MemberEnds(full, js + 1, m, end - 1);
    forall i | js <= i < end ensures ArgumentsAt(full, i, end).None? {
      if i == js { NotAKey(full, i, end); } else { NoKeyInMember(full, js + 1, m, end - 1, end, i); }
    }
    NoArgumentsIn(full, js, end);
  }

  /** From the moment a printed call's name has closed until its object does, the stream knows the name, and has
      sent every character of the arguments that has arrived, unless they are a string, which is not sent before
      it can be decoded. */
  lemma StreamsInTime(p: Parser, st: Stream, full: string, t: string, next: Stream, js: nat, c: Invocation)
    requires Ready(st, t) && st.open.None? && Seek(p, st, t, false) == Start(next, js)
    requires IsCall(c) && At(full, js, Show(Payload(c))) && t <= full && NameTo(c, js) <= |t| < js + |Show(Payload(c))|
    ensures var r := Push(p, st, t);
      && r.content == next.content && r.calls == next.calls && r.cursor == js
      && r.open.Some? && r.open.value.index == next.nextIndex && r.open.value.name == Some(p.decodeName(c.name.value.body))
      && r.assembled == next.assembled
         + [if Quoted(c) then "" else Arrived(c, js, |t|)]
  {
    hide Seek, Show, At, UpdateCall, Arrived, Raw, IsMember, IsName, GivesArguments, NameTo, ArgumentsFrom, Deltas;
    ThroughSeek(p, st, t, next, js, false);
    if c.NameLast? {
      NameLastInTime(p, full, t, js, next.nextIndex, c);
    } else if c.NameFirst? && ArgumentsFrom(c, js) < |t| {
      NameFirstInTime(p, full, t, js, next.nextIndex, c);
    } else {
      NameAloneInTime(p, full, t, js, next.nextIndex, c);
    }
    var u := UpdateCall(p, NewCall(next.nextIndex, js), t);
    KeepsIndex(p, NewCall(next.nextIndex, js), t);
    SendsArrived(p, next.assembled, u, t, js, next.nextIndex, c.name.value.body, Quoted(c), Arrived(c, js, |t|));
  }

  lemma KeepsIndex(p: Parser, c: OpenCall, t: string)
    ensures UpdateCall(p, c, t).index == c.index
  {}

  lemma SendsArrived(p: Parser, assembled: seq<string>, u: OpenCall, t: string, js: nat, index: nat, name: string,
                     quoted: bool, arrived: string)
    requires KnowsSoFar(p, u, t, name, quoted, arrived)
    ensures Deltas(assembled, NewCall(index, js), u, t) == assembled + [if quoted then "" else arrived]
  {
    hide Raw;
    var begun := assembled + [""];
    assert begun[..|begun| - 1] == assembled;
    assert "" + arrived[0..|arrived|] == arrived;
  }
}
