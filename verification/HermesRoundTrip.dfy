// Reading Hermes calls inverts printing them: texts come back as content, calls as calls, in order,
// whatever pieces the printed text arrives in.
module HermesRoundTrip {
  import opened Options
  import opened KeyScan
  import opened Json
  import opened ToolCalls
  import opened ToolCallsPathFree
  import opened CallPayloads

  // A call stands between its markers with any blanks around it.
  datatype Segment = Prose(body: string) | Invoke(before: string, call: Invocation, after: string)

  // ---- printing -------------------------------------------------------------------------------------

  const OPENING := "<tool_call>"

  function PrintCall(s: Segment): string
    requires s.Invoke?
  {
    OPENING + s.before + Show(Payload(s.call)) + s.after + HERMES_END
  }

  function PrintSegment(s: Segment): string {
    if s.Prose? then s.body else PrintCall(s)
  }

  function Print(segments: seq<Segment>): string {
    if segments == [] then "" else PrintSegment(segments[0]) + Print(segments[1..])
  }

  function ProseOf(segments: seq<Segment>): string {
    if segments == [] then ""
    else (if segments[0].Prose? then segments[0].body else "") + ProseOf(segments[1..])
  }

  function CallsOf(p: Parser, segments: seq<Segment>, index: nat): seq<Call>
    requires Printable(segments)
  {
    if segments == [] then []
    else if segments[0].Prose? then CallsOf(p, segments[1..], index)
    else [Reported(p, index, segments[0].call)] + CallsOf(p, segments[1..], index + 1)
  }

  predicate IsInvoke(s: Segment) {
    s.Invoke? && IsBlank(s.before) && IsCall(s.call) && IsBlank(s.after)
  }

  predicate Printable(segments: seq<Segment>) {
    forall i :: 0 <= i < |segments| && segments[i].Invoke? ==> IsInvoke(segments[i])
  }

  // No stretch of prose, joined up across adjacent segments, spells the opening marker.
  predicate MarkerFree(p: Parser, pending: string, segments: seq<Segment>)
    decreases |segments|
  {
    if segments == [] then NoMarker(p, pending)
    else if segments[0].Prose? then MarkerFree(p, pending + segments[0].body, segments[1..])
    else NoMarker(p, pending) && MarkerFree(p, "", segments[1..])
  }

  // ---- one call ---------------------------------------------------------------------------------------

  // Where the pieces of a printed call stand.
  lemma CallPieces(text: string, at: nat, s: Segment)
    requires s.Invoke? && At(text, at, PrintCall(s))
    ensures var shown, js := Show(Payload(s.call)), at + 11 + |s.before|;
      && At(text, at, OPENING) && At(text, at + 11, s.before) && At(text, js, shown) && At(text, js + |shown|, s.after)
      && At(text, js + |shown| + |s.after|, HERMES_END) && at + |PrintCall(s)| == js + |shown| + |s.after| + 12
  {
    hide Show, At;
    var shown := Show(Payload(s.call));
    Halves(text, at, OPENING + s.before + shown + s.after, HERMES_END);
    Halves(text, at, OPENING + s.before + shown, s.after);
    Halves(text, at, OPENING + s.before, shown);
    Halves(text, at, OPENING, s.before);
  }

  lemma BraceFound(text: string, at: nat, before: string)
    requires At(text, at, OPENING) && At(text, at + 11, before) && IsBlank(before)
    requires at + 11 + |before| < |text| && text[at + 11 + |before|] == '{'
    ensures Find(text, "{", at) == Some(at + 11 + |before|)
  {
    BlankChars(text, at + 11, before);
    forall i | at <= i < at + 11 + |before| ensures text[i] != '{' {
      if i < at + 11 { CharOf(text, at, OPENING, i - at); }
    }
    BraceAfter(text, at, at + 11 + |before|);
  }

  lemma CloserFound(text: string, end: nat, after: string)
    requires At(text, end, after) && IsBlank(after) && At(text, end + |after|, HERMES_END)
    ensures Find(text, HERMES_END, end) == Some(end + |after|)
  {
    BlankChars(text, end, after);
    Fits(text, end + |after|, HERMES_END);
    forall i | end <= i < end + |after| ensures !At(text, i, HERMES_END) { Differs(text, i, HERMES_END, 0); }
    FindIs(text, HERMES_END, end, end + |after|);
  }

  // The stream once it has read `prose` and then one printed call.
  function AfterBoth(p: Parser, st: Stream, prose: string, s: Segment): Stream
    requires IsInvoke(s)
  {
    st.(content := st.content + prose, calls := st.calls + [Reported(p, st.nextIndex, s.call)],
        assembled := st.assembled + [Given(p, s.call)], nextIndex := st.nextIndex + 1,
        cursor := st.cursor + |prose| + |PrintCall(s)|)
  }

  lemma SeekFindsCall(p: Parser, st: Stream, text: string, prose: string, s: Segment, final: bool)
    requires p.family.Hermes? && AtGap(st, text) && At(text, st.cursor, prose) && NoMarker(p, prose)
    requires IsInvoke(s) && At(text, st.cursor + |prose|, PrintCall(s))
    ensures var at := st.cursor + |prose|;
      var js := at + 11 + |s.before|;
      && Seek(p, st, text, final) == Start(st.(content := st.content + prose, cursor := at), js)
      && At(text, js, Show(Payload(s.call))) && js < |text| && text[js] == '{'
  {
    hide Show, Find, PrintCall, Payload, NoMarker, At, IsCall, Seek;
    var at := st.cursor + |prose|;
    CallPieces(text, at, s);
    PayloadIsObject(s.call);
    BraceAt(text, at + 11 + |s.before|, Payload(s.call));
    MarkerAfterProse(p, text, st.cursor, prose);
    BraceFound(text, at, s.before);
    Spans(text, st.cursor, prose);
    SeeksMarker(p, st, text, at, at + 11 + |s.before|, final);
  }

  lemma StepsOver(p: Parser, st: Stream, text: string, end: nat, after: string, final: bool)
    requires p.family.Hermes? && st.open.None? && st.trailing == Some(end) && st.cursor == end
    requires At(text, end, after) && IsBlank(after) && At(text, end + |after|, HERMES_END)
    ensures Seek(p, st, text, final)
         == Seek(p, st.(trailing := None, region := false, cursor := end + |after| + 12), text, final)
  {
    hide SeekMarker, Find;
    CloserFound(text, end, after);
  }

  /** One stretch of prose and one printed call are read whole. */
  lemma ReadsCall(p: Parser, st: Stream, text: string, prose: string, s: Segment, final: bool)
    requires p.family.Hermes? && IsInvoke(s)
    requires AtGap(st, text) && At(text, st.cursor, prose) && NoMarker(p, prose)
    requires At(text, st.cursor + |prose|, PrintCall(s))
    ensures var next := AfterBoth(p, st, prose, s);
      && AtGap(next, text)
      && Interpret(p, st, text, final) == Interpret(p, next, text, final)
      && (!final && Clean(p, next, text) ==> Clean(p, st, text))
  {
    hide Seek, Contained, Show, PrintCall, Payload, IsCall, NoMarker, At, Interpret, Clean, Given, Reported;
    var next, at := AfterBoth(p, st, prose, s), st.cursor + |prose|;
    var js := at + 11 + |s.before|;
    CallPieces(text, at, s);
    SeekFindsCall(p, st, text, prose, s, final);
    ReadsCallAt(p, st, text, st.(content := st.content + prose, cursor := at), js, s.call, final);
    var told := Told(p, st.(content := st.content + prose, cursor := js), s.call);
    StepsOver(p, told, text, told.cursor, s.after, final);
    Fits(text, told.cursor + |s.after|, HERMES_END);
    SameSeek(p, told, next, text, final);
  }

  // ---- whole texts -------------------------------------------------------------------------------------

  lemma PrintIs(segments: seq<Segment>)
    requires segments != []
    ensures Print(segments) == PrintSegment(segments[0]) + Print(segments[1..])
    ensures segments[0].Prose? ==> PrintSegment(segments[0]) == segments[0].body
    ensures segments[0].Invoke? ==> PrintSegment(segments[0]) == PrintCall(segments[0])
  {
    hide PrintCall;
  }

  lemma PrintCons(segments: seq<Segment>, text: string, c: nat, pending: string)
    requires segments != [] && At(text, c, pending) && At(text, c + |pending|, Print(segments))
    ensures segments[0].Prose? ==>
      var joined := pending + segments[0].body;
      At(text, c, joined) && At(text, c + |joined|, Print(segments[1..]))
      && |joined| + |Print(segments[1..])| == |pending| + |Print(segments)|
    ensures segments[0].Invoke? ==>
      var printed := PrintCall(segments[0]);
      At(text, c + |pending|, printed) && At(text, c + |pending| + |printed|, Print(segments[1..]))
      && |printed| + |Print(segments[1..])| == |Print(segments)|
  {
    hide PrintCall, PrintSegment, Print, At;
    PrintIs(segments);
    var head, rest := PrintSegment(segments[0]), Print(segments[1..]);
    Halves(text, c + |pending|, head, rest);
    Joins(text, c, pending, head);
  }

  lemma {:induction false} ReadsAll(p: Parser, st: Stream, text: string, pending: string, segments: seq<Segment>)
    requires p.family.Hermes? && Printable(segments) && MarkerFree(p, pending, segments) && AtGap(st, text)
    requires At(text, st.cursor, pending) && At(text, st.cursor + |pending|, Print(segments))
    requires st.cursor + |pending| + |Print(segments)| == |text|
    ensures Clean(p, st, text)
    ensures var r := Interpret(p, Interpret(p, st, text, false), text, true);
      && r.content == st.content + (pending + ProseOf(segments))
      && r.calls == st.calls + CallsOf(p, segments, st.nextIndex)
    decreases |segments|
  {
    hide Interpret, Clean, At, IsCall, NoMarker, Show, PrintCall, Reported, Given;
    if segments == [] {
      ReadsProse(p, st, text, pending);
      assert pending + "" == pending;
    } else {
      PrintCons(segments, text, st.cursor, pending);
      if segments[0].Prose? {
        var body := segments[0].body;
        ReadsAll(p, st, text, pending + body, segments[1..]);
        assert (pending + body) + ProseOf(segments[1..]) == pending + (body + ProseOf(segments[1..]));
      } else {
        ReadsCall(p, st, text, pending, segments[0], false);
        var next := AfterBoth(p, st, pending, segments[0]);
        EmptyAt(text, next.cursor);
        ReadsAll(p, next, text, "", segments[1..]);
        assert (st.content + pending) + ("" + ProseOf(segments[1..]))
          == st.content + (pending + ("" + ProseOf(segments[1..])));
        var call := Reported(p, st.nextIndex, segments[0].call);
        assert (st.calls + [call]) + CallsOf(p, segments[1..], st.nextIndex + 1)
            == st.calls + ([call] + CallsOf(p, segments[1..], st.nextIndex + 1));
      }
    }
  }

  /** Print any prose and calls, each with its arguments after its name, before it or left out, and stream the
      text in any cut: the content is the prose and the calls are the calls in order, each name decoded from its
      spelling and the arguments character for character, or decoded when they are a string. */
  lemma RoundTrip(p: Parser, segments: seq<Segment>, texts: seq<string>)
    requires p.family.Hermes? && p.Valid() && Printable(segments) && MarkerFree(p, "", segments)
    requires Growing(texts) && texts != [] && texts[|texts| - 1] == Print(segments)
    ensures var st := Finish(p, PushAll(p, texts), Print(segments));
      && st.content == ProseOf(segments)
      && st.calls == CallsOf(p, segments, 0)
  {
    hide Interpret, Clean, Print, Printable, MarkerFree;
    var text := Print(segments);
    EmptyAt(text, 0);
    assert At(text, 0, text) by { assert text[0..|text|] == text; }
    ReadsAll(p, INITIAL, text, "", segments);
    PathIndependent(p, texts);
    assert "" + ("" + ProseOf(segments)) == ProseOf(segments);
    assert [] + CallsOf(p, segments, 0) == CallsOf(p, segments, 0);
  }
}
