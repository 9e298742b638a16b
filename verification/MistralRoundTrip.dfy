// Reading Mistral calls inverts printing them: one marker, then an array of calls.
module MistralRoundTrip {
  import opened Options
  import opened KeyScan
  import opened Json
  import opened ToolCalls
  import opened ToolCallsPathFree
  import opened CallPayloads

  // A call in its place in the array, and an array after its marker, with any blanks between.
  datatype Slot = Slot(before: string, call: Invocation, after: string)

  datatype Segment = Prose(body: string) | Batch(gap: string, calls: seq<Slot>)

  // ---- printing -------------------------------------------------------------------------------------

  const MARKER := "[TOOL_CALLS]"

  function PrintOne(c: Slot): string {
    c.before + Show(Payload(c.call)) + c.after
  }

  function PrintCalls(calls: seq<Slot>): string
    requires calls != []
  {
    PrintOne(calls[0]) + if |calls| == 1 then "]" else "," + PrintCalls(calls[1..])
  }

  function PrintBatch(s: Segment): string
    requires s.Batch? && s.calls != []
  {
    MARKER + s.gap + "[" + PrintCalls(s.calls)
  }

  function PrintSegment(s: Segment): string
    requires s.Batch? ==> s.calls != []
  {
    if s.Prose? then s.body else PrintBatch(s)
  }

  function Print(segments: seq<Segment>): string
    requires Printable(segments)
  {
    if segments == [] then "" else PrintSegment(segments[0]) + Print(segments[1..])
  }

  function ProseOf(segments: seq<Segment>): string {
    if segments == [] then ""
    else (if segments[0].Prose? then segments[0].body else "") + ProseOf(segments[1..])
  }

  function ReportedAll(p: Parser, calls: seq<Slot>, index: nat): seq<Call>
    requires AreCalls(calls)
  {
    if calls == [] then [] else [Reported(p, index, calls[0].call)] + ReportedAll(p, calls[1..], index + 1)
  }

  function GivenAll(p: Parser, calls: seq<Slot>): seq<string> {
    if calls == [] then [] else [Given(p, calls[0].call)] + GivenAll(p, calls[1..])
  }

  function CallsOf(p: Parser, segments: seq<Segment>, index: nat): seq<Call>
    requires Printable(segments)
  {
    if segments == [] then []
    else if segments[0].Prose? then CallsOf(p, segments[1..], index)
    else ReportedAll(p, segments[0].calls, index) + CallsOf(p, segments[1..], index + |segments[0].calls|)
  }

  predicate IsSlot(c: Slot) {
    IsBlank(c.before) && IsCall(c.call) && IsBlank(c.after)
  }

  predicate AreCalls(calls: seq<Slot>) {
    forall i :: 0 <= i < |calls| ==> IsSlot(calls[i])
  }

  predicate Printable(segments: seq<Segment>) {
    forall i :: 0 <= i < |segments| && segments[i].Batch? ==>
      IsBlank(segments[i].gap) && segments[i].calls != [] && AreCalls(segments[i].calls)
  }

  // No stretch of prose, joined up across adjacent segments, spells the opening marker.
  predicate MarkerFree(p: Parser, pending: string, segments: seq<Segment>)
    decreases |segments|
  {
    if segments == [] then NoMarker(p, pending)
    else if segments[0].Prose? then MarkerFree(p, pending + segments[0].body, segments[1..])
    else NoMarker(p, pending) && MarkerFree(p, "", segments[1..])
  }

  // ---- one batch ---------------------------------------------------------------------------------------

  lemma BraceFound(text: string, at: nat, gap: string, before: string)
    requires At(text, at, MARKER) && At(text, at + 12, gap) && IsBlank(gap) && At(text, at + 12 + |gap|, "[")
    requires At(text, at + 13 + |gap|, before) && IsBlank(before)
    requires at + 13 + |gap| + |before| < |text| && text[at + 13 + |gap| + |before|] == '{'
    ensures Find(text, "{", at) == Some(at + 13 + |gap| + |before|)
  {
    hide At, IsBlank;
    BlankChars(text, at + 12, gap);
    BlankChars(text, at + 13 + |gap|, before);
    CharOf(text, at + 12 + |gap|, "[", 0);
    var js := at + 13 + |gap| + |before|;
    forall i | at <= i < js ensures text[i] != '{' {
      if i < at + 12 { CharOf(text, at, MARKER, i - at); }
    }
    BraceAfter(text, at, js);
  }

  // Where the parts of one printed call stand.
  lemma OneCall(text: string, from: nat, c: Slot)
    requires At(text, from, PrintOne(c))
    ensures var shown, js := Show(Payload(c.call)), from + |c.before|;
      && At(text, from, c.before) && At(text, js, shown) && js < |text| && text[js] == '{'
      && At(text, js + |shown|, c.after) && from + |PrintOne(c)| == js + |shown| + |c.after|
  {
    hide Show, Payload, At;
    var shown := Show(Payload(c.call));
    Halves(text, from, c.before + shown, c.after);
    Halves(text, from, c.before, shown);
    PayloadIsObject(c.call);
    BraceAt(text, from + |c.before|, Payload(c.call));
  }

  // The first of some printed calls, and what follows it.
  lemma FirstCall(text: string, from: nat, calls: seq<Slot>)
    requires calls != [] && At(text, from, PrintCalls(calls))
    ensures var shown, js := Show(Payload(calls[0].call)), from + |calls[0].before|;
      var end := js + |shown|;
      var next := end + |calls[0].after|;
      && At(text, from, calls[0].before) && At(text, js, shown) && js < |text| && text[js] == '{'
      && At(text, end, calls[0].after) && next < |text|
      && if |calls| == 1 then text[next] == ']' && from + |PrintCalls(calls)| == next + 1
         else
           && text[next] == ',' && At(text, next + 1, PrintCalls(calls[1..]))
           && from + |PrintCalls(calls)| == next + 1 + |PrintCalls(calls[1..])|
  {
    hide Show, Payload, At, PrintOne;
    var one := PrintOne(calls[0]);
    var rest := if |calls| == 1 then "]" else "," + PrintCalls(calls[1..]);
    Halves(text, from, one, rest);
    OneCall(text, from, calls[0]);
    CharOf(text, from + |one|, rest, 0);
    Fits(text, from + |one|, rest);
    if |calls| > 1 { Halves(text, from + |one|, ",", PrintCalls(calls[1..])); }
  }

  // Over blanks and commas to what stands after them.
  lemma {:induction false} SkipsTo(text: string, i: nat, k: nat)
    requires i <= k < |text| && text[k] !in ", \t\r\n" && forall j :: i <= j < k ==> text[j] in ", \t\r\n"
    ensures Skip(text, i) == k
    decreases k - i
  {
    if i < k { SkipsTo(text, i + 1, k); }
  }

  // After a call, over the comma and the blanks to the next.
  lemma SeekNext(p: Parser, st: Stream, text: string, after: string, before: string, final: bool)
    requires p.family.Mistral? && st.open.None? && st.trailing == Some(st.cursor) && st.cursor <= |text|
    requires At(text, st.cursor, after) && IsBlank(after) && IsBlank(before)
    requires var comma := st.cursor + |after|;
      var js := comma + 1 + |before|;
      js < |text| && text[comma] == ',' && At(text, comma + 1, before) && text[js] == '{'
    ensures Seek(p, st, text, final) == Start(st.(trailing := None, region := true), st.cursor + |after| + 1 + |before|)
  {
    hide SeekMarker;
    BlankChars(text, st.cursor, after);
    BlankChars(text, st.cursor + |after| + 1, before);
    SkipsTo(text, st.cursor, st.cursor + |after| + 1 + |before|);
  }

  // After the last call, over the blanks and the closing bracket.
  lemma SeekOut(p: Parser, st: Stream, text: string, after: string, final: bool)
    requires p.family.Mistral? && st.open.None? && st.trailing == Some(st.cursor) && st.cursor + |after| < |text|
    requires At(text, st.cursor, after) && IsBlank(after) && text[st.cursor + |after|] == ']'
    ensures Seek(p, st, text, final)
         == Seek(p, st.(trailing := None, region := false, cursor := st.cursor + |after| + 1), text, final)
  {
    hide SeekMarker;
    BlankChars(text, st.cursor, after);
    SkipsTo(text, st.cursor, st.cursor + |after|);
  }

  // The stream once a batch of calls standing at `from` has been read.
  function AfterCalls(p: Parser, st: Stream, from: nat, calls: seq<Slot>): Stream
    requires calls != [] && AreCalls(calls)
  {
    st.(calls := st.calls + ReportedAll(p, calls, st.nextIndex), assembled := st.assembled + GivenAll(p, calls),
        nextIndex := st.nextIndex + |calls|, cursor := from + |PrintCalls(calls)|, open := None, trailing := None,
        region := false)
  }

  lemma AfterFirst(p: Parser, next: Stream, from: nat, js: nat, calls: seq<Slot>, rest: nat)
    requires |calls| > 1 && AreCalls(calls) && from + |PrintCalls(calls)| == rest + |PrintCalls(calls[1..])|
    ensures var told := Told(p, next.(cursor := js), calls[0].call);
      AfterCalls(p, told.(trailing := None, region := true), rest, calls[1..]) == AfterCalls(p, next, from, calls)
  {
    hide Show, Payload, Reported, Given, PrintCalls, ReportedAll, GivenAll, IsCall;
    FirstReported(p, calls, next.nextIndex);
    Associates(next.calls, [Reported(p, next.nextIndex, calls[0].call)], ReportedAll(p, calls[1..], next.nextIndex + 1));
    Associates(next.assembled, [Given(p, calls[0].call)], GivenAll(p, calls[1..]));
  }

  lemma FirstReported(p: Parser, calls: seq<Slot>, index: nat)
    requires calls != [] && AreCalls(calls)
    ensures ReportedAll(p, calls, index) == [Reported(p, index, calls[0].call)] + ReportedAll(p, calls[1..], index + 1)
    ensures GivenAll(p, calls) == [Given(p, calls[0].call)] + GivenAll(p, calls[1..])
  {
    hide Reported, Given, IsCall;
  }

  /** From where the first of a batch is found, the loop reads all of it. */
  lemma {:induction false} ReadsCalls(p: Parser, st: Stream, text: string, next: Stream, from: nat,
                                      calls: seq<Slot>, final: bool)
    requires p.family.Mistral? && calls != [] && AreCalls(calls) && Ready(st, text) && st.open.None?
    requires Seek(p, st, text, final) == Start(next, from + |calls[0].before|) && At(text, from, PrintCalls(calls))
    ensures var after := AfterCalls(p, next, from, calls);
      && AtGap(after, text) && Interpret(p, st, text, final) == Interpret(p, after, text, final)
      && (!final && Clean(p, after, text) ==> Clean(p, st, text))
    decreases |calls|
  {
    hide Seek, Show, Payload, At, Interpret, Clean, Given, Reported, IsCall, PrintCalls, IsBlank;
    FirstCall(text, from, calls);
    assert IsSlot(calls[0]);
    var c, js := calls[0].call, from + |calls[0].before|;
    ReadsCallAt(p, st, text, next, js, c, final);
    var told := Told(p, next.(cursor := js), c);
    if |calls| == 1 {
      SeekOut(p, told, text, calls[0].after, final);
      var after := AfterCalls(p, next, from, calls);
      OneReported(p, calls, next.nextIndex);
      assert after == told.(trailing := None, region := false, cursor := told.cursor + |calls[0].after| + 1);
      SameSeek(p, told, after, text, final);
    } else {
      var rest := told.cursor + |calls[0].after| + 1;
      FirstCall(text, rest, calls[1..]);
      assert IsSlot(calls[1]);
      SeekNext(p, told, text, calls[0].after, calls[1].before, final);
      ReadsCalls(p, told, text, told.(trailing := None, region := true), rest, calls[1..], final);
      AfterFirst(p, next, from, js, calls, rest);
    }
  }

  lemma OneReported(p: Parser, calls: seq<Slot>, index: nat)
    requires |calls| == 1 && AreCalls(calls)
    ensures ReportedAll(p, calls, index) == [Reported(p, index, calls[0].call)]
    ensures GivenAll(p, calls) == [Given(p, calls[0].call)]
  {
    hide Reported, Given, IsCall;
    assert calls[1..] == [];
  }

  predicate IsBatch(s: Segment) {
    s.Batch? && IsBlank(s.gap) && s.calls != [] && AreCalls(s.calls)
  }

  lemma BatchPieces(text: string, at: nat, s: Segment)
    requires s.Batch? && s.calls != [] && At(text, at, PrintBatch(s))
    ensures var open := at + 12 + |s.gap|;
      && At(text, at, MARKER) && At(text, at + 12, s.gap) && At(text, open, "[") && At(text, open + 1, PrintCalls(s.calls))
      && at + |PrintBatch(s)| == open + 1 + |PrintCalls(s.calls)|
  {
    hide At, PrintCalls;
    Halves(text, at, MARKER + s.gap + "[", PrintCalls(s.calls));
    Halves(text, at, MARKER + s.gap, "[");
    Halves(text, at, MARKER, s.gap);
  }

  lemma SeekFindsBatch(p: Parser, st: Stream, text: string, prose: string, s: Segment, final: bool)
    requires p.family.Mistral? && AtGap(st, text) && At(text, st.cursor, prose) && NoMarker(p, prose) && IsBatch(s)
    requires At(text, st.cursor + |prose|, PrintBatch(s))
    ensures var at := st.cursor + |prose|;
      var from := at + 13 + |s.gap|;
      && Seek(p, st, text, final) == Start(st.(content := st.content + prose, cursor := at), from + |s.calls[0].before|)
      && At(text, from, PrintCalls(s.calls)) && at + |PrintBatch(s)| == from + |PrintCalls(s.calls)|
  {
    hide Find, NoMarker, At, PrintCalls, IsCall, IsBlank, Seek, PrintBatch, Show;
    var at := st.cursor + |prose|;
    assert IsSlot(s.calls[0]);
    BatchPieces(text, at, s);
    FirstCall(text, at + 13 + |s.gap|, s.calls);
    MarkerAfterProse(p, text, st.cursor, prose);
    BraceFound(text, at, s.gap, s.calls[0].before);
    Spans(text, st.cursor, prose);
    SeeksMarker(p, st, text, at, at + 13 + |s.gap| + |s.calls[0].before|, final);
  }

  // The stream once it has read `prose` and then one batch.
  function AfterBatch(p: Parser, st: Stream, prose: string, s: Segment): Stream
    requires IsBatch(s)
  {
    var at := st.cursor + |prose|;
    AfterCalls(p, st.(content := st.content + prose, cursor := at), at + 13 + |s.gap|, s.calls)
  }

  lemma ReadsBatch(p: Parser, st: Stream, text: string, prose: string, s: Segment)
    requires p.family.Mistral? && IsBatch(s)
    requires AtGap(st, text) && At(text, st.cursor, prose) && NoMarker(p, prose)
    requires At(text, st.cursor + |prose|, PrintBatch(s))
    ensures var next := AfterBatch(p, st, prose, s);
      && AtGap(next, text) && Interpret(p, st, text, false) == Interpret(p, next, text, false)
      && (Clean(p, next, text) ==> Clean(p, st, text))
      && next.content == st.content + prose && next.calls == st.calls + ReportedAll(p, s.calls, st.nextIndex)
      && next.nextIndex == st.nextIndex + |s.calls| && next.cursor == st.cursor + |prose| + |PrintBatch(s)|
  {
    hide Interpret, Clean, At, AreCalls, NoMarker, PrintCalls, Reported, Given, Seek, ReportedAll, GivenAll, PrintBatch;
    SeekFindsBatch(p, st, text, prose, s, false);
    var at := st.cursor + |prose|;
    ReadsCalls(p, st, text, st.(content := st.content + prose, cursor := at), at + 13 + |s.gap|, s.calls, false);
  }

  // ---- whole texts -------------------------------------------------------------------------------------

  lemma PrintIs(segments: seq<Segment>)
    requires segments != [] && Printable(segments)
    ensures Print(segments) == PrintSegment(segments[0]) + Print(segments[1..])
    ensures segments[0].Prose? ==> PrintSegment(segments[0]) == segments[0].body
    ensures segments[0].Batch? ==> PrintSegment(segments[0]) == PrintBatch(segments[0])
  {
    hide PrintCalls, IsCall;
  }

  lemma PrintsNothing()
    ensures Print([]) == ""
  {}

  lemma PrintCons(segments: seq<Segment>, text: string, c: nat, pending: string)
    requires segments != [] && Printable(segments) && At(text, c, pending) && At(text, c + |pending|, Print(segments))
    ensures segments[0].Prose? ==>
      var joined := pending + segments[0].body;
      At(text, c, joined) && At(text, c + |joined|, Print(segments[1..]))
      && |joined| + |Print(segments[1..])| == |pending| + |Print(segments)|
    ensures segments[0].Batch? ==>
      var printed := PrintBatch(segments[0]);
      At(text, c + |pending|, printed) && At(text, c + |pending| + |printed|, Print(segments[1..]))
      && |printed| + |Print(segments[1..])| == |Print(segments)|
  {
    hide PrintCalls, PrintSegment, Print, At, IsCall;
    PrintIs(segments);
    var head, rest := PrintSegment(segments[0]), Print(segments[1..]);
    Halves(text, c + |pending|, head, rest);
    Joins(text, c, pending, head);
  }

  lemma {:induction false} ReadsAll(p: Parser, st: Stream, text: string, pending: string, segments: seq<Segment>)
    requires p.family.Mistral? && Printable(segments) && MarkerFree(p, pending, segments) && AtGap(st, text)
    requires At(text, st.cursor, pending) && At(text, st.cursor + |pending|, Print(segments))
    requires st.cursor + |pending| + |Print(segments)| == |text|
    ensures Clean(p, st, text)
    ensures var r := Interpret(p, Interpret(p, st, text, false), text, true);
      && r.content == st.content + (pending + ProseOf(segments))
      && r.calls == st.calls + CallsOf(p, segments, st.nextIndex)
    decreases |segments|
  {
    hide Interpret, Clean, At, NoMarker, AfterBatch, ReportedAll, Print, Printable, MarkerFree, AreCalls;
    if segments == [] {
      PrintsNothing();
      ReadsLast(p, st, text, pending);
    } else {
      Rest(p, pending, segments);
      PrintCons(segments, text, st.cursor, pending);
      if segments[0].Prose? {
        ReadsAll(p, st, text, pending + segments[0].body, segments[1..]);
        Associates(pending, segments[0].body, ProseOf(segments[1..]));
      } else {
        var calls := segments[0].calls;
        ReadsBatch(p, st, text, pending, segments[0]);
        var next := AfterBatch(p, st, pending, segments[0]);
        EmptyAt(text, next.cursor);
        ReadsAll(p, next, text, "", segments[1..]);
        Associates(st.content, pending, "" + ProseOf(segments[1..]));
        Associates(st.calls, ReportedAll(p, calls, st.nextIndex), CallsOf(p, segments[1..], st.nextIndex + |calls|));
      }
    }
  }

  lemma Associates<T>(a: seq<T>, b: seq<T>, c: seq<T>)
    ensures (a + b) + c == a + (b + c)
  {}

  lemma Rest(p: Parser, pending: string, segments: seq<Segment>)
    requires segments != [] && Printable(segments) && MarkerFree(p, pending, segments)
    ensures Printable(segments[1..])
    ensures segments[0].Prose? ==> MarkerFree(p, pending + segments[0].body, segments[1..])
    ensures segments[0].Batch? ==>
      IsBatch(segments[0]) && NoMarker(p, pending) && MarkerFree(p, "", segments[1..])
  {
    hide NoMarker, IsCall;
  }

  lemma ReadsLast(p: Parser, st: Stream, text: string, pending: string)
    requires MarkerFree(p, pending, []) && AtGap(st, text) && At(text, st.cursor, pending)
      && st.cursor + |pending| == |text|
    ensures Clean(p, st, text)
    ensures var r := Interpret(p, Interpret(p, st, text, false), text, true);
      r.content == st.content + (pending + ProseOf([])) && r.calls == st.calls + CallsOf(p, [], st.nextIndex)
  {
    hide Interpret, Clean, At, NoMarker;
    ReadsProse(p, st, text, pending);
    assert pending + "" == pending;
  }

  /** Print any prose and batches of calls and stream the text in any cut: the content is the prose, without
      the markers and brackets, and the calls are the calls of all batches in order. */
  lemma RoundTrip(p: Parser, segments: seq<Segment>, texts: seq<string>)
    requires p.family.Mistral? && p.Valid() && Printable(segments) && MarkerFree(p, "", segments)
    requires Growing(texts) && texts != [] && texts[|texts| - 1] == Print(segments)
    ensures var st := Finish(p, PushAll(p, texts), Print(segments));
      && st.content == ProseOf(segments)
      && st.calls == CallsOf(p, segments, 0)
  {
    hide Interpret, Clean, Print, Printable, MarkerFree;
    var text := Print(segments);
    EmptyAt(text, 0);
    assert At(text, 0, text) by { assert text[0..|text|] == text; }
    ReadsAll(p, INITIAL, text, "", segments);
    PathIndependent(p, texts);
    assert "" + ("" + ProseOf(segments)) == ProseOf(segments);
    assert [] + CallsOf(p, segments, 0) == CallsOf(p, segments, 0);
  }
}
