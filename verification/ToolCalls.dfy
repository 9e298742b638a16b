// Reading tool calls out of growing text: the Hermes and Mistral syntaxes and the stream's state machine.
module ToolCalls {
  import opened Options
  import opened ValueSpan
  import opened KeyScan

  datatype Family = Hermes | Mistral

  /** A syntax, how many trailing characters are not safe to emit, and the two JSON string decoders. */
  datatype Parser = Parser(family: Family, hold: nat, decodeName: string -> string, unquote: string -> string) {
    function Marker(): string {
      if family.Hermes? then "<tool_call>" else "[TOOL_CALLS]"
    }

    predicate Valid() {
      hold >= |Marker()|
    }
  }

  const HERMES_END := "</tool_call>"

  datatype Found = Found(contentEnd: nat, jsonStart: nat) | Pending(contentEnd: nat)

  function Max(a: nat, b: nat): nat { if a >= b then a else b }

  // ---- the syntaxes -------------------------------------------------------------------------------

  function FindCall(p: Parser, text: string, cursor: nat): (r: Option<Found>)
    ensures r.Some? ==> cursor <= r.value.contentEnd <= |text|
    ensures r.Some? && r.value.Found? ==>
      r.value.contentEnd < r.value.jsonStart < |text| && text[r.value.jsonStart] == '{'
  {
    var at := Find(text, p.Marker(), cursor);
    if at.None? then None
    else
      var brace := Find(text, "{", at.value);
      if brace.None? then Some(Pending(at.value))
      else
        CharOf(text, brace.value, "{", 0);
        CharOf(text, at.value, p.Marker(), 0);
        Some(Found(at.value, brace.value))
  }

  function AfterCall(p: Parser, text: string, position: nat, final: bool): (r: Option<nat>)
    requires position <= |text|
    ensures r.Some? ==> position <= r.value <= |text|
  {
    if p.family.Mistral? then Some(position)
    else
      var at := Find(text, HERMES_END, position);
      if at.Some? then Some(at.value + |HERMES_END|)
      else if final then Some(position) else None
  }

  function Skip(text: string, i: nat): (k: nat)
    requires i <= |text|
    ensures i <= k <= |text|
    ensures forall j :: i <= j < k ==> text[j] in ", \t\r\n"
    ensures k < |text| ==> text[k] !in ", \t\r\n"
    decreases |text| - i
  {
    if i < |text| && text[i] in ", \t\r\n" then Skip(text, i + 1) else i
  }

  function NextInRegion(p: Parser, text: string, position: nat): (r: Option<Found>)
    requires position <= |text|
    ensures r.Some? ==> r.value.contentEnd == position
    ensures r.Some? && r.value.Found? ==>
      position <= r.value.jsonStart < |text| && text[r.value.jsonStart] == '{'
  {
    if p.family.Hermes? then None
    else
      var index := Skip(text, position);
      if index >= |text| then Some(Pending(position))
      else if text[index] == '{' then Some(Found(position, index)) else None
  }

  function AfterRegion(p: Parser, text: string, position: nat): (r: nat)
    requires position <= |text|
    ensures position <= r <= |text|
  {
    if p.family.Hermes? then position
    else
      var index := Skip(text, position);
      if index < |text| && text[index] == ']' then index + 1 else position
  }

  // ---- one open call ------------------------------------------------------------------------------

  datatype OpenCall = OpenCall(index: nat, jsonStart: nat, obj: Span, arguments: Option<Span>, quoted: bool,
                               name: Option<string>, sentOpen: bool, sent: nat)

  function NewCall(index: nat, jsonStart: nat): OpenCall {
    OpenCall(index, jsonStart, NewSpan(jsonStart), None, false, None, false, 0)
  }

  // The raw text of a value, up to its end or to what has arrived.
  function Raw(s: Span, text: string): string {
    var e := if s.end.Some? then s.end.value else |text|;
    if s.start <= e <= |text| then text[s.start..e] else ""
  }

  function Limit(obj: Span, text: string): (l: nat)
    ensures l <= |text|
  {
    if obj.end.Some? && obj.end.value <= |text| then obj.end.value else |text|
  }

  // Searched only outside the arguments value.
  function ReadName(p: Parser, text: string, jsonStart: nat, arguments: Option<Span>, limit: nat): Option<string>
    requires limit <= |text|
  {
    var window := if arguments.Some? && arguments.value.start <= |text| then arguments.value.start else limit;
    var before := FindName(text, jsonStart, window);
    var raw := if before.None? && arguments.Some? && arguments.value.end.Some?
               then FindName(text, arguments.value.end.value, limit) else before;
    if raw.Some? then Some(p.decodeName(raw.value)) else None
  }

  // The arguments span, once its first character has arrived.
  function LocateArguments(text: string, jsonStart: nat, limit: nat): Option<Span>
    requires limit <= |text|
  {
    var e := FindArguments(text, jsonStart, limit);
    if e.Some? && e.value < |text| then Some(NewSpan(e.value)) else None
  }

  function UpdateCall(p: Parser, c: OpenCall, text: string): OpenCall {
    var obj := Advance(c.obj, text);
    var located := if c.arguments.Some? then c.arguments else LocateArguments(text, c.jsonStart, Limit(obj, text));
    var quoted := if c.arguments.Some? || located.None? then c.quoted
                  else located.value.start < |text| && text[located.value.start] == '"';
    var arguments := if located.Some? then Some(Advance(located.value, text)) else None;
    var name := if c.name.Some? then c.name else ReadName(p, text, c.jsonStart, arguments, Limit(obj, text));
    var sentOpen := c.sentOpen || name.Some?;
    var sent := if sentOpen && arguments.Some? && !quoted then Max(c.sent, |Raw(arguments.value, text)|) else c.sent;
    OpenCall(c.index, c.jsonStart, obj, arguments, quoted, name, sentOpen, sent)
  }

  // ---- the stream -----------------------------------------------------------------------------------

  datatype Call = Call(index: nat, name: string, arguments: string)

  /** `assembled[i]` is what a client gets by concatenating the argument fragments sent for call i. */
  datatype Stream = Stream(content: string, calls: seq<Call>, cursor: nat, open: Option<OpenCall>, region: bool,
                           trailing: Option<nat>, nextIndex: nat, assembled: seq<string>)

  const INITIAL := Stream("", [], 0, None, false, None, 0, [])

  function EmitContent(st: Stream, text: string, end: nat): (r: Stream)
    requires end <= |text|
    ensures r.cursor == Max(st.cursor, end)
  {
    if end <= st.cursor then st else st.(content := st.content + text[st.cursor..end], cursor := end)
  }

  function SafeEnd(p: Parser, st: Stream, text: string, final: bool): (e: nat)
    requires st.cursor <= |text|
    ensures st.cursor <= e <= |text|
  {
    if final then |text| else if |text| >= p.hold then Max(st.cursor, |text| - p.hold) else st.cursor
  }

  // Append to what the client has assembled for the call opened last.
  function Append(assembled: seq<string>, fragment: string): (r: seq<string>)
    requires |assembled| > 0
    ensures |r| == |assembled|
  {
    assembled[..|assembled| - 1] + [assembled[|assembled| - 1] + fragment]
  }

  // The deltas owed for the open call as it goes from `c` to `u`.
  function Deltas(assembled: seq<string>, c: OpenCall, u: OpenCall, text: string): seq<string> {
    var begun := if u.sentOpen && !c.sentOpen then assembled + [""] else assembled;
    if u.sentOpen && u.sent > c.sent && |begun| > 0 && u.arguments.Some? && u.sent <= |Raw(u.arguments.value, text)|
    then Append(begun, Raw(u.arguments.value, text)[c.sent..u.sent])
    else begun
  }

  function UpdateOpen(p: Parser, st: Stream, text: string): Stream
    requires st.open.Some?
  {
    var u := UpdateCall(p, st.open.value, text);
    st.(open := Some(u), assembled := Deltas(st.assembled, st.open.value, u, text))
  }

  function FinalArguments(p: Parser, c: OpenCall, text: string): string {
    if c.arguments.None? then "" else if c.quoted then p.unquote(Raw(c.arguments.value, text))
    else Raw(c.arguments.value, text)
  }

  // Finish the open call; the flag says whether the loop carries on.
  function Close(p: Parser, st: Stream, text: string, final: bool): (r: (Stream, bool))
    requires st.open.Some? && st.cursor <= |text|
    ensures r.0.open.None? && st.cursor <= r.0.cursor <= |text| && (r.0.trailing.Some? ==> r.0.trailing.value <= |text|)
    ensures r.0.cursor == Max(st.cursor, Limit(st.open.value.obj, text))
  {
    var c := st.open.value;
    var end := Limit(c.obj, text);
    if c.name.None? then
      (EmitContent(st.(open := None, nextIndex := if st.nextIndex > 0 then st.nextIndex - 1 else 0, trailing := None),
                   text, end), !final)
    else
      var arguments := FinalArguments(p, c, text);
      var assembled := if |arguments| > c.sent && |st.assembled| > 0
                       then Append(st.assembled, arguments[c.sent..]) else st.assembled;
      (st.(open := None, calls := st.calls + [Call(c.index, c.name.value, if arguments == "" then "{}" else arguments)],
           cursor := Max(st.cursor, end), trailing := Some(end), assembled := assembled), true)
  }

  datatype Sought = Stop(st: Stream) | Start(st: Stream, jsonStart: nat)

  // Act on the marker search from the cursor.
  function Act(p: Parser, st: Stream, found: Option<Found>, text: string, final: bool): (r: Sought)
    requires st.cursor <= |text|
    requires found.Some? ==> found.value.contentEnd <= |text|
    requires found.Some? && found.value.Found? ==>
      st.cursor <= found.value.jsonStart < |text| && text[found.value.jsonStart] == '{'
    ensures st.cursor <= r.st.cursor <= |text| && r.st.open == st.open && r.st.trailing == st.trailing
    ensures r.st.calls == st.calls && r.st.assembled == st.assembled && r.st.nextIndex == st.nextIndex
    ensures r.Start? ==> r.jsonStart < |text| && text[r.jsonStart] == '{' && st.cursor <= r.jsonStart
  {
    if found.None? then Stop(EmitContent(st, text, SafeEnd(p, st, text, final)))
    else
      var emitted := EmitContent(st, text, found.value.contentEnd);
      if found.value.Pending? then Stop(if final then EmitContent(emitted, text, |text|) else emitted)
      else Start(emitted, found.value.jsonStart)
  }

  function SeekMarker(p: Parser, st: Stream, text: string, final: bool): (r: Sought)
    requires st.cursor <= |text|
    ensures r.st.region == st.region
    ensures st.cursor <= r.st.cursor <= |text| && r.st.open == st.open && r.st.trailing == st.trailing
    ensures r.st.calls == st.calls && r.st.assembled == st.assembled && r.st.nextIndex == st.nextIndex
    ensures r.Start? ==> r.jsonStart < |text| && text[r.jsonStart] == '{' && st.cursor <= r.jsonStart
  {
    Act(p, st, FindCall(p, text, st.cursor), text, final)
  }

  function SeekRegion(p: Parser, st: Stream, text: string, final: bool): (r: Sought)
    requires st.cursor <= |text|
    ensures st.cursor <= r.st.cursor <= |text| && r.st.open == st.open && r.st.trailing == st.trailing
    ensures r.st.calls == st.calls && r.st.assembled == st.assembled && r.st.nextIndex == st.nextIndex
    ensures r.Start? ==> r.jsonStart < |text| && text[r.jsonStart] == '{' && st.cursor <= r.jsonStart
  {
    if !st.region then SeekMarker(p, st, text, final)
    else
      var found := NextInRegion(p, text, st.cursor);
      if found.Some? then Act(p, st, found, text, final)
      else SeekMarker(p, st.(cursor := AfterRegion(p, text, st.cursor), region := false), text, final)
  }

  // With no call open: step over what closed the last one, then look for the next.
  function Seek(p: Parser, st: Stream, text: string, final: bool): (r: Sought)
    requires st.cursor <= |text| && st.open.None? && (st.trailing.Some? ==> st.trailing.value <= |text|)
    ensures st.cursor <= r.st.cursor <= |text| && r.st.open.None? && (r.st.trailing.Some? ==> r.st.trailing.value <= |text|)
    ensures r.Start? ==> r.jsonStart < |text| && text[r.jsonStart] == '{' && st.cursor <= r.jsonStart
    ensures r.Start? ==> r.st.trailing.None?
    ensures r.st.calls == st.calls && r.st.assembled == st.assembled && r.st.nextIndex == st.nextIndex
  {
    if st.trailing.None? then SeekRegion(p, st, text, final)
    else
      var resumed := AfterCall(p, text, st.trailing.value, final);
      if resumed.None? then Stop(st)
      else SeekRegion(p, st.(cursor := Max(st.cursor, resumed.value), trailing := None, region := true), text, final)
  }

  function OpenAt(st: Stream, jsonStart: nat): Stream {
    st.(open := Some(NewCall(st.nextIndex, jsonStart)), nextIndex := st.nextIndex + 1, cursor := jsonStart)
  }

  // What the loop keeps: everything before the cursor has been read, and an open call starts at it.
  predicate Ready(st: Stream, text: string) {
    && st.cursor <= |text|
    && (st.trailing.Some? ==> st.trailing.value <= |text|)
    && (st.open.Some? ==> OpenReady(st.open.value, st.cursor, text))
  }

  predicate OpenReady(c: OpenCall, cursor: nat, text: string) {
    && c.jsonStart == cursor < |text| && text[cursor] == '{'
    && c.obj.start == cursor && c.obj.end.None? && c.obj.pos <= |text|
    && (c.obj == NewSpan(cursor) || (c.obj.depth >= 1 && cursor < c.obj.pos))
  }

  lemma ObjectEndsLater(obj: Span, cursor: nat, text: string)
    requires cursor < |text| && text[cursor] == '{' && obj.end.None? && obj.start == cursor
    requires obj.pos <= |text|
    requires obj == NewSpan(cursor) || (obj.depth >= 1 && cursor < obj.pos)
    ensures var r := Advance(obj, text);
      && cursor < Limit(r, text)
      && (r.end.None? ==> r.depth >= 1 && cursor < r.pos <= |text|)
      && (r.end.Some? ==> r.end.value <= |text| && text[r.end.value - 1] in "}]")
  {
    if obj == NewSpan(cursor) {
      var next := StepChar(obj, '{');
      assert text[cursor..][1..] == text[cursor + 1..];
      OpenStaysOpen(next, text[cursor + 1..]);
    } else {
      OpenStaysOpen(obj, text[obj.pos..]);
    }
  }

  /** The stream after interpreting whatever has arrived. */
  function Interpret(p: Parser, st: Stream, text: string, final: bool): (r: Stream)
    requires Ready(st, text)
    ensures Ready(r, text)
    decreases |text| - st.cursor, if st.open.Some? then 0 else 1
  {
    if st.open.Some? then
      var updated := UpdateOpen(p, st, text);
      ObjectEndsLater(st.open.value.obj, st.cursor, text);
      if updated.open.value.obj.end.None? && !final then updated
      else
        var (closed, again) := Close(p, updated, text, final);
        if again then Interpret(p, closed, text, final) else closed
    else
      var sought := Seek(p, st, text, final);
      if sought.Stop? then sought.st else Interpret(p, OpenAt(sought.st, sought.jsonStart), text, final)
  }

  function Push(p: Parser, st: Stream, text: string): Stream
    requires Ready(st, text)
  {
    Interpret(p, st, text, false)
  }

  function Finish(p: Parser, st: Stream, text: string): Stream
    requires Ready(st, text)
  {
    Interpret(p, st, text, true)
  }
}
