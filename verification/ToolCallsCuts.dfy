// Exactly when the cut matters: when some argument value runs past its object's end.
module ToolCallsCuts {
  import opened Options
  import opened ValueSpan
  import opened KeyScan
  import opened ToolCalls
  import opened ToolCallsPathFree
  import Json

  // ---- looking back from a longer text --------------------------------------------------------------

  lemma FindBack(t1: string, t2: string, pattern: string, from: nat)
    requires t1 <= t2 && Find(t2, pattern, from).Some? && Find(t2, pattern, from).value + |pattern| <= |t1|
    ensures Find(t1, pattern, from) == Find(t2, pattern, from)
  {
    var at := Find(t2, pattern, from).value;
    AtGrows(t1, t2, at, pattern);
    forall i | from <= i < at ensures !At(t1, i, pattern) { AtGrows(t1, t2, i, pattern); }
    FindIs(t1, pattern, from, at);
  }

  lemma {:induction false} SkipBack(t1: string, t2: string, i: nat)
    requires t1 <= t2 && i <= |t1| && Skip(t2, i) < |t1|
    ensures Skip(t1, i) == Skip(t2, i)
    decreases |t1| - i
  {
    if t2[i] in ", \t\r\n" { SkipBack(t1, t2, i + 1); }
  }

  lemma BraceAfterMarker(p: Parser, text: string, cursor: nat)
    requires FindCall(p, text, cursor).Some? && FindCall(p, text, cursor).value.Found?
    ensures var f := FindCall(p, text, cursor).value;
      && Find(text, p.Marker(), cursor) == Some(f.contentEnd) && Find(text, "{", f.contentEnd) == Some(f.jsonStart)
      && f.contentEnd + |p.Marker()| <= f.jsonStart && text[f.contentEnd] !in ", \t\r\n"
  {
    hide Find, At;
    var f, marker := FindCall(p, text, cursor).value, p.Marker();
    CharOf(text, f.contentEnd, marker, 0);
    CharOf(text, f.jsonStart, "{", 0);
    Spans(text, f.contentEnd, marker);
    if f.jsonStart < f.contentEnd + |marker| {
      CharOf(text, f.contentEnd, marker, f.jsonStart - f.contentEnd);
    }
  }

  lemma MarkerBack(p: Parser, st: Stream, t1: string, t2: string)
    requires t1 <= t2 && st.cursor <= |t1|
    requires SeekMarker(p, st, t2, false).Start? && SeekMarker(p, st, t2, false).jsonStart < |t1|
    ensures SeekMarker(p, st, t1, false) == SeekMarker(p, st, t2, false)
  {
    BraceAfterMarker(p, t2, st.cursor);
    var f := FindCall(p, t2, st.cursor).value;
    FindBack(t1, t2, p.Marker(), st.cursor);
    FindBack(t1, t2, "{", f.contentEnd);
    EmitSame(st, t1, t2, f.contentEnd);
  }

  lemma RegionBack(p: Parser, st: Stream, t1: string, t2: string)
    requires t1 <= t2 && st.cursor <= |t1|
    requires SeekRegion(p, st, t2, false).Start? && SeekRegion(p, st, t2, false).jsonStart < |t1|
    ensures SeekRegion(p, st, t1, false) == SeekRegion(p, st, t2, false)
  {
    hide SeekMarker, Skip, Find;
    if !st.region {
      MarkerBack(p, st, t1, t2);
    } else if NextInRegion(p, t2, st.cursor).Some? {
      SkipBack(t1, t2, st.cursor);
    } else {
      var resumed := st.(cursor := AfterRegion(p, t2, st.cursor), region := false);
      if p.family.Mistral? {
        SkipBack(t1, t2, st.cursor);
      }
      MarkerBack(p, resumed, t1, t2);
    }
  }

  lemma SeekBack(p: Parser, st: Stream, t1: string, t2: string)
    requires t1 <= t2 && Ready(st, t1) && st.open.None?
    requires Seek(p, st, t2, false).Start? && Seek(p, st, t2, false).jsonStart < |t1|
    ensures Seek(p, st, t1, false) == Seek(p, st, t2, false)
  {
    hide SeekRegion, Find;
    if st.trailing.None? {
      RegionBack(p, st, t1, t2);
    } else {
      var resumed := AfterCall(p, t2, st.trailing.value, false);
      if p.family.Hermes? {
        FindBack(t1, t2, HERMES_END, st.trailing.value);
      }
      RegionBack(p, st.(cursor := Max(st.cursor, resumed.value), trailing := None, region := true), t1, t2);
    }
  }

  // An object's span is known as soon as its closing bracket has arrived.
  lemma ClosesByThen(cursor: nat, t1: string, t2: string)
    requires t1 <= t2 && cursor < |t1| && t2[cursor] == '{'
    requires Advance(NewSpan(cursor), t2).end.Some? && Advance(NewSpan(cursor), t2).end.value <= |t1|
    ensures Advance(NewSpan(cursor), t1) == Advance(NewSpan(cursor), t2)
  {
    hide Feed;
    var r := Advance(NewSpan(cursor), t1);
    ObjectEndsLater(NewSpan(cursor), cursor, t1);
    AdvanceResumes(NewSpan(cursor), t1, t2);
    if r.end.None? {
      OpenStaysOpen(r, t2[r.pos..]);
    }
  }

  // ---- calls only accumulate ------------------------------------------------------------------------

  lemma {:induction false} CallsGrow(p: Parser, st: Stream, text: string, final: bool)
    requires Ready(st, text)
    ensures st.calls <= Interpret(p, st, text, final).calls
    decreases |text| - st.cursor, if st.open.Some? then 0 else 1
  {
    hide UpdateCall, Seek;
    if st.open.Some? {
      var updated := UpdateOpen(p, st, text);
      ObjectEndsLater(st.open.value.obj, st.cursor, text);
      UpdatedOpen(p, st, text);
      if updated.open.value.obj.end.Some? || final {
        var (closed, again) := Close(p, updated, text, final);
        if again { CallsGrow(p, closed, text, final); }
      }
    } else {
      var sought := Seek(p, st, text, final);
      if sought.Start? { CallsGrow(p, OpenAt(sought.st, sought.jsonStart), text, final); }
    }
  }

  // ---- a value that overruns its object -----------------------------------------------------------------

  // What json.loads guarantees of the string decoder: a string cut short before its closing quote is
  // handed back as it is, and no longer text decodes to it (shown for cuts holding a closing bracket).
  ghost predicate DecoderSound(p: Parser) {
    forall s: nat, torn: string, longer: string ::
      torn != "" && torn[0] == '"' && ('}' in torn || ']' in torn) && Feed(NewSpan(s), torn).end.None? && torn < longer
      ==> p.unquote(torn) == torn && p.unquote(longer) != torn
  }

  function Shown(arguments: string): string {
    if arguments == "" then "{}" else arguments
  }

  lemma TornValue(s: nat, t1: string, t2: string)
    requires t1 <= t2 && s < |t1| && RawEnd(Advance(NewSpan(s), t2), t2) > |t1|
    ensures Feed(NewSpan(s), t1[s..]).end.None?
    ensures Raw(Advance(NewSpan(s), t1), t1) == t1[s..] < Raw(Advance(NewSpan(s), t2), t2)
  {
    hide Feed;
    AdvanceResumes(NewSpan(s), t1, t2);
    SliceGrows(NewSpan(s), t1, t2);
    if Advance(NewSpan(s), t1).end.Some? {
      ClosedIsFinal(NewSpan(s), t1, t2);
    }
  }

  lemma OverrunShows(p: Parser, u1: OpenCall, u2: OpenCall, t1: string, t2: string)
    requires DecoderSound(p) && t1 <= t2 && t1 != "" && t1[|t1| - 1] in "}]"
    requires u1.arguments.Some? && u2.arguments.Some? && u1.quoted == u2.quoted && ArgumentsOf(u1, u2, t1, t2)
    requires RawEnd(u2.arguments.value, t2) > |t1|
    ensures Shown(FinalArguments(p, u1, t1)) != Shown(FinalArguments(p, u2, t2))
  {
    hide Feed, Raw, Advance;
    var s := u1.arguments.value.start;
    TornValue(s, t1, t2);
    var torn, longer := t1[s..], Raw(u2.arguments.value, t2);
    if u1.quoted {
      assert torn[0] == '"' && torn[|torn| - 1] == t1[|t1| - 1];
      assert p.unquote(torn) == torn && p.unquote(longer) != torn;
    }
  }

  // The cut right at the end of an object whose argument value runs on.
  lemma CutAtOverrun(p: Parser, st: Stream, text: string, n: nat)
    requires DecoderSound(p) && Startable(st, text) && st.open.Some? && n <= |text|
    requires var u := UpdateCall(p, st.open.value, text);
      u.obj.end.Some? && !Contained(u, text) && n == u.obj.end.value
    ensures st.cursor < n
    ensures var t1 := text[..n];
      var closed1, closed2 := Close(p, UpdateOpen(p, st, t1), t1, false).0,
        Close(p, UpdateOpen(p, st, text), text, false).0;
      && UpdateCall(p, st.open.value, t1).obj.end.Some? && |closed1.calls| == |closed2.calls| == |st.calls| + 1
      && closed1.calls[|st.calls|] != closed2.calls[|st.calls|]
  {
    hide UpdateCall, Raw, Deltas, Advance, FinalArguments, DecoderSound, ArgumentsOf;
    var c, t1 := st.open.value, text[..n];
    UpdatedObject(p, c, text);
    UpdatedObject(p, c, t1);
    ObjectEndsLater(c.obj, st.cursor, text);
    ClosesByThen(st.cursor, t1, text);
    ClosedCall(p, c, t1, text);
    OverrunShows(p, UpdateCall(p, c, t1), UpdateCall(p, c, text), t1, text);
  }

  // How the loop goes on after closing a call.
  lemma PushCloses(p: Parser, st: Stream, text: string)
    requires Ready(st, text) && st.open.Some? && UpdateCall(p, st.open.value, text).obj.end.Some?
    ensures var closed := Close(p, UpdateOpen(p, st, text), text, false).0;
      Ready(closed, text) && Push(p, st, text) == Push(p, closed, text)
  {
    hide UpdateCall, Deltas;
    UpdatedObject(p, st.open.value, text);
    ObjectEndsLater(st.open.value.obj, st.cursor, text);
  }

  lemma ClosedNotClean(p: Parser, st: Stream, text: string)
    requires Ready(st, text) && st.open.Some? && !Clean(p, st, text)
    ensures var u := UpdateCall(p, st.open.value, text);
      && u.obj.end.Some? && u.obj.end.value <= |text|
      && (Contained(u, text) ==>
            var closed := Close(p, UpdateOpen(p, st, text), text, false).0;
            && Ready(closed, text) && !Clean(p, closed, text) && closed.open.None?
               && st.cursor < u.obj.end.value <= closed.cursor
            && |text| - closed.cursor < |text| - st.cursor
            && (closed.trailing.Some? ==> closed.trailing.value <= closed.cursor))
  {
    hide UpdateCall, Deltas, Contained, Advance;
    UpdatedOpen(p, st, text);
    UpdatedObject(p, st.open.value, text);
    ObjectEndsLater(st.open.value.obj, st.cursor, text);
  }

  /** If some call's arguments overrun its object, cutting the text at that object's end changes the
      calls a client is left with. */
  lemma {:induction false} CutThatMatters(p: Parser, st: Stream, text: string) returns (n: nat)
    requires p.Valid() && DecoderSound(p) && Startable(st, text) && !Clean(p, st, text)
    requires st.trailing.Some? ==> st.trailing.value <= st.cursor
    ensures st.cursor < n <= |text| && Ready(st, text[..n]) && Ready(Push(p, st, text[..n]), text)
    ensures Push(p, Push(p, st, text[..n]), text).calls != Push(p, st, text).calls
    decreases |text| - st.cursor, if st.open.Some? then 0 else 1
  {
    hide UpdateCall, Deltas, Seek, Contained, Close, DecoderSound, Interpret, Clean;
    if st.open.Some? {
      ClosedNotClean(p, st, text);
      var u := UpdateCall(p, st.open.value, text);
      PushCloses(p, st, text);
      var closed := Close(p, UpdateOpen(p, st, text), text, false).0;
      if Contained(u, text) {
        n := CutThatMatters(p, closed, text);
        ClosedBy(p, st, text, n);
        CloseStable(p, st, text[..n], text);
        PushCloses(p, st, text[..n]);
      } else {
        n := u.obj.end.value;
        CutAtOverrun(p, st, text, n);
        var t1 := text[..n];
        PushCloses(p, st, t1);
        var closed1 := Close(p, UpdateOpen(p, st, t1), t1, false).0;
        CallsGrow(p, closed1, t1, false);
        CallsGrow(p, Push(p, st, t1), text, false);
        CallsGrow(p, closed, text, false);
      }
    } else {
      NotCleanSeeks(p, st, text);
      var sought := Seek(p, st, text, false);
      n := CutThatMatters(p, OpenAt(sought.st, sought.jsonStart), text);
      SeekBack(p, st, text[..n], text);
      PushSeeks(p, st, text);
      PushSeeks(p, st, text[..n]);
    }
  }

  lemma NotCleanSeeks(p: Parser, st: Stream, text: string)
    requires Ready(st, text) && st.open.None? && !Clean(p, st, text)
    ensures var sought := Seek(p, st, text, false);
      && sought.Start? && Startable(OpenAt(sought.st, sought.jsonStart), text)
      && !Clean(p, OpenAt(sought.st, sought.jsonStart), text) && OpenAt(sought.st, sought.jsonStart).trailing.None?
      && st.cursor <= sought.jsonStart
  {
    hide Seek;
  }

  lemma PushSeeks(p: Parser, st: Stream, text: string)
    requires Ready(st, text) && st.open.None? && Seek(p, st, text, false).Start?
    ensures var sought := Seek(p, st, text, false);
      && Ready(OpenAt(sought.st, sought.jsonStart), text)
      && Push(p, st, text) == Push(p, OpenAt(sought.st, sought.jsonStart), text)
  {
    hide Seek;
  }

  lemma ClosedBy(p: Parser, st: Stream, text: string, n: nat)
    requires Startable(st, text) && st.open.Some? && n <= |text|
    requires var u := UpdateCall(p, st.open.value, text); u.obj.end.Some? && u.obj.end.value < n
    ensures st.cursor < n && UpdateCall(p, st.open.value, text[..n]).obj.end.Some?
  {
    hide Advance;
    UpdatedObject(p, st.open.value, text);
    ObjectEndsLater(st.open.value.obj, st.cursor, text);
    ClosesByThen(st.cursor, text[..n], text);
  }

  /** No cut of a text matters if and only if every call it closes keeps its arguments inside its object. */
  lemma CutsAgreeExactly(p: Parser, text: string)
    requires p.Valid() && DecoderSound(p)
    ensures (forall texts: seq<string> :: Growing(texts) && texts != [] && texts[|texts| - 1] == text
               ==> PushAll(p, texts) == Push(p, INITIAL, text))
       <==> Clean(p, INITIAL, text)
  {
    hide Push, Clean, DecoderSound;
    if Clean(p, INITIAL, text) {
      forall texts: seq<string> | Growing(texts) && texts != [] && texts[|texts| - 1] == text
        ensures PushAll(p, texts) == Push(p, INITIAL, text)
      {
        PathIndependent(p, texts);
      }
    } else {
      var n := CutThatMatters(p, INITIAL, text);
      var texts := [text[..n], text];
      assert texts[..1] == [text[..n]] && [text[..n]][..0] == [];
      assert PushAll(p, texts) == Push(p, Push(p, INITIAL, text[..n]), text);
    }
  }

  // ---- a text whose cuts disagree ---------------------------------------------------------------------

  // A stray quote puts the object's scanner inside strings where the value's scanner is outside them.
  const HEAD := "<tool_call>"
  const NAMED := "{\"name\":\"f\",\""
  const KEY := "\"arguments\":"
  const VALUE := "5\""
  const REST := "} ok\""
  const OVERRUN := HEAD + (NAMED + (KEY + (VALUE + REST)))

  lemma Pieces()
    ensures |OVERRUN| == 43 && At(OVERRUN, 0, HEAD) && At(OVERRUN, 11, NAMED) && At(OVERRUN, 24, KEY)
    ensures At(OVERRUN, 36, VALUE) && At(OVERRUN, 38, REST) && At(OVERRUN, 24, ARGUMENTS) && At(OVERRUN, 12, NAME)
    ensures OVERRUN[36..] == VALUE + REST
  {
    var a, b, c := VALUE + REST, KEY + (VALUE + REST), NAMED + (KEY + (VALUE + REST));
    assert OVERRUN[0..43] == HEAD + c;
    Halves(OVERRUN, 0, HEAD, c);
    Halves(OVERRUN, 11, NAMED, b);
    Halves(OVERRUN, 24, KEY, a);
    Halves(OVERRUN, 36, VALUE, REST);
    Within(OVERRUN, 24, KEY, 0, ARGUMENTS);
    Within(OVERRUN, 11, NAMED, 1, NAME);
    assert OVERRUN[36..] == OVERRUN[36..43];
  }

  lemma CharAt(i: nat)
    requires 11 <= i < 24
    ensures |OVERRUN| == 43 && OVERRUN[i] == NAMED[i - 11]
  {
    Pieces();
    CharOf(OVERRUN, 11, NAMED, i - 11);
  }

  const INNER := Json.ShowString("name") + ":" + Json.ShowString("f") + "," + Json.ShowString("") + "arguments"
    + Json.ShowString(":5")

  lemma InnerInert()
    ensures Json.Inert(INNER)
  {
    Json.StringIsInert("name");
    Json.Separators();
    Json.StringIsInert("f");
    Json.StringIsInert("");
    Json.PlainIsInert("arguments");
    assert Json.IsBody(":5"[1..]);
    Json.StringIsInert(":5");
    hide Json.Inert, Json.ShowString;
    var name, f, none, five := Json.ShowString("name"), Json.ShowString("f"), Json.ShowString(""), Json.ShowString(":5");
    Json.InertThree(name, ":", f);
    Json.InertThree(name + ":" + f, ",", none);
    Json.InertThree(name + ":" + f + "," + none, "arguments", five);
  }

  lemma InnerText()
    ensures "{" + INNER + "}" == NAMED + (KEY + (VALUE + "}")) && |INNER| == 26
  {
    var left, right := "{" + INNER + "}", NAMED + (KEY + (VALUE + "}"));
    assert |left| == |right|;
    forall i | 0 <= i < |left| ensures left[i] == right[i] {
      if i < 13 { assert left[i] == NAMED[i]; } else { assert left[i] == (KEY + (VALUE + "}"))[i - 13]; }
    }
  }

  lemma ObjectEnds()
    ensures Advance(NewSpan(11), OVERRUN).end == Some(39)
  {
    hide Feed;
    Pieces();
    InnerInert();
    InnerText();
    Within(OVERRUN, 38, REST, 0, "}");
    hide At;
    Joins(OVERRUN, 36, VALUE, "}");
    Joins(OVERRUN, 24, KEY, VALUE + "}");
    Joins(OVERRUN, 11, NAMED, KEY + (VALUE + "}"));
    Json.FeedBracketed(NewSpan(11), '{', INNER, '}');
    Spans(OVERRUN, 11, "{" + INNER + "}");
    Json.SpanOfText(OVERRUN, 11, "{" + INNER + "}");
  }

  lemma ValueRunsOn()
    ensures Advance(NewSpan(36), OVERRUN).end == Some(43)
  {
    Pieces();
    var s0 := NewSpan(36);
    var s1 := StepChar(s0, '5');
    var s2 := StepChar(s1, '"');
    assert "5\""[1..] == "\"";
    assert Feed(s0, VALUE) == s2;
    FeedConcat(s0, VALUE, REST);
    var b := "} ok";
    assert Json.IsBody(b[4..]) && b[1..][1..] == b[2..] && b[2..][1..] == b[3..] && b[3..][1..] == b[4..];
    assert Json.IsBody(b[3..]) && Json.IsBody(b[2..]) && Json.IsBody(b[1..]) && Json.IsBody(b);
    Json.FeedBody(s2, b);
    FeedConcat(s2, b, "\"");
    assert REST == b + "\"";
  }

  lemma KeyFound()
    ensures FindArguments(OVERRUN, 11, 39) == Some(36)
  {
    var text := OVERRUN;
    Pieces();
    forall i | 11 <= i < 24 ensures ArgumentsAt(text, i, 39).None? {
      CharAt(i);
      if i == 23 {
        CharOf(text, 24, KEY, 0);
        NotAKeyEither(text, i, 39);
      } else {
        CharAt(i + 1);
        if text[i] != '"' { NotAKey(text, i, 39); } else { NotAKeyEither(text, i, 39); }
      }
    }
    CharOf(text, 24, KEY, 11);
    CharOf(text, 36, VALUE, 0);
    SkipSpaceIs(text, 35, 35, 39);
    SkipSpaceIs(text, 36, 36, 39);
    ArgumentsFirstAt(text, 11, 24, 39);
  }

  lemma NameIsF()
    ensures FindName(OVERRUN, 11, 36) == Some("f")
  {
    var text := OVERRUN;
    Pieces();
    forall i | 11 <= i < 24 ensures text[i] == NAMED[i - 11] { CharAt(i); }
    if At(text, 11, NAME) { NameShape(text, 11, 36); }
    assert NameAt(text, 11, 36).None?;
    SkipSpaceIs(text, 18, 18, 36);
    SkipSpaceIs(text, 19, 19, 36);
    assert NameOpens(text, 12, 36) == Some(20);
    BodyEndIs(text, 20, 21, 36);
    assert text[20..21] == "f";
    assert NameAt(text, 12, 36) == Some("f");
  }

  lemma CallOverruns(p: Parser)
    ensures var u := UpdateCall(p, NewCall(0, 11), OVERRUN); u.obj.end == Some(39) && !Contained(u, OVERRUN)
  {
    Pieces();
    ObjectEnds();
    ValueRunsOn();
    KeyFound();
    NameIsF();
    hide Advance, FindArguments, FindName, At;
  }

  lemma OverrunIsNotClean(p: Parser)
    requires p.family.Hermes? && p.Valid()
    ensures !Clean(p, INITIAL, OVERRUN)
  {
    var text := OVERRUN;
    Pieces();
    CharAt(11);
    forall i | 0 <= i < 11 ensures !At(text, i, "{") {
      CharOf(text, 0, HEAD, i);
      Differs(text, i, "{", 0);
    }
    FindIs(text, "<tool_call>", 0, 0);
    FindIs(text, "{", 0, 11);
    CallOverruns(p);
    assert Seek(p, INITIAL, text, false) == Start(INITIAL, 11);
  }

  /** The stray quote makes the parser's answer depend on how the text arrived: cut in one place, it leaves
      other calls. */
  lemma OverrunExample(p: Parser) returns (n: nat)
    requires p.family.Hermes? && p.Valid() && DecoderSound(p)
    ensures n <= |OVERRUN| && Growing([OVERRUN[..n], OVERRUN])
    ensures PushAll(p, [OVERRUN[..n], OVERRUN]).calls != Push(p, INITIAL, OVERRUN).calls
  {
    hide Push, Clean, DecoderSound;
    OverrunIsNotClean(p);
    n := CutThatMatters(p, INITIAL, OVERRUN);
    var texts := [OVERRUN[..n], OVERRUN];
    assert texts[..1] == [OVERRUN[..n]] && [OVERRUN[..n]][..0] == [];
    assert PushAll(p, texts) == Push(p, Push(p, INITIAL, OVERRUN[..n]), OVERRUN);
  }
}
