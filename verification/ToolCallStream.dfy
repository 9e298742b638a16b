// The stream object itself, updated in place, and what finishing it leaves unread.
module ToolCallStream {
  import opened Options
  import opened ValueSpan
  import opened ToolCalls
  import opened ToolCallsPathFree
  import opened KeyScan
  import Json

  // What acting on a search needs of it.
  predicate CanAct(st: Stream, found: Option<Found>, text: string) {
    && st.cursor <= |text|
    && (found.Some? ==> found.value.contentEnd <= |text|)
    && (found.Some? && found.value.Found? ==>
          st.cursor <= found.value.jsonStart < |text| && text[found.value.jsonStart] == '{')
  }

  lemma SeekIsStep(p: Parser, st: Stream, text: string, final: bool)
    requires Ready(st, text) && st.open.None?
    ensures var sought := Seek(p, st, text, final);
      var next := if sought.Start? then OpenAt(sought.st, sought.jsonStart) else sought.st;
      && Ready(next, text) && st.cursor <= next.cursor
      && Interpret(p, st, text, final) == if sought.Start? then Interpret(p, next, text, final) else next
  {
    hide Seek;
  }

  /** Content and calls read so far from one growing text. */
  class Reader {
    const parser: Parser
    var content: string
    var calls: seq<Call>
    var cursor: nat
    var open: Option<OpenCall>
    var region: bool
    var trailing: Option<nat>
    var nextIndex: nat
    var assembled: seq<string>

    function State(): Stream
      reads this
    {
      Stream(content, calls, cursor, open, region, trailing, nextIndex, assembled)
    }

    constructor (parser: Parser)
      ensures this.parser == parser && State() == INITIAL
    {
      this.parser := parser;
      content, calls, cursor, open, region := "", [], 0, None, false;
      trailing, nextIndex, assembled := None, 0, [];
    }

    method EmitContent(text: string, end: nat)
      requires end <= |text|
      modifies this`content, this`cursor
      ensures State() == ToolCalls.EmitContent(old(State()), text, end)
    {
      if end <= cursor {
        return;
      }
      content, cursor := content + text[cursor..end], end;
    }

    // Finish the open call, emitting whatever is still owed; says whether the loop should carry on.
    method Close(text: string, final: bool) returns (again: bool)
      requires open.Some? && cursor <= |text|
      modifies this
      ensures (State(), again) == ToolCalls.Close(parser, old(State()), text, final)
    {
      var call := open.value;
      var end := Limit(call.obj, text);
      open := None;
      if call.name.None? {
        nextIndex := if nextIndex > 0 then nextIndex - 1 else 0;
        trailing := None;
        EmitContent(text, end);
        return !final;
      }
      var arguments := FinalArguments(parser, call, text);
      if |arguments| > call.sent && |assembled| > 0 {
        assembled := Append(assembled, arguments[call.sent..]);
      }
      calls := calls + [Call(call.index, call.name.value, if arguments == "" then "{}" else arguments)];
      cursor, trailing := Max(cursor, end), Some(end);
      return true;
    }

    // Advance the open call.
    method StepOpen(text: string, final: bool) returns (again: bool)
      requires Ready(State(), text) && open.Some?
      modifies this
      ensures Ready(State(), text) && |text| - cursor <= |text| - old(cursor)
      ensures again ==> open.None? && cursor > old(cursor)
      ensures Interpret(parser, old(State()), text, final)
           == if again then Interpret(parser, State(), text, final) else State()
    {
      hide UpdateCall, Deltas, ToolCalls.Close, Advance;
      ObjectEndsLater(open.value.obj, cursor, text);
      ghost var before := State();
      UpdatedOpen(parser, before, text);
      var updated := UpdateCall(parser, open.value, text);
      assembled := Deltas(assembled, open.value, updated, text);
      open := Some(updated);
      assert State() == UpdateOpen(parser, before, text);
      if updated.obj.end.None? && !final {
        return false;
      }
      again := Close(text, final);
    }

    // With no call open: step over what closed the last one and find the next, if that can be done yet.
    method Look(text: string, final: bool) returns (held: bool, found: Option<Found>)
      requires Ready(State(), text) && open.None?
      modifies this`cursor, this`trailing, this`region
      ensures held ==> State() == old(State()) && ToolCalls.Seek(parser, State(), text, final) == Stop(State())
      ensures !held ==> CanAct(State(), found, text)
      ensures !held ==> ToolCalls.Seek(parser, old(State()), text, final) == Act(parser, State(), found, text, final)
    {
      hide FindCall, NextInRegion, AfterRegion, AfterCall, Act;
      if trailing.Some? {
        var resumed := AfterCall(parser, text, trailing.value, final);
        if resumed.None? {
          return true, None;
        }
        cursor, trailing, region := Max(cursor, resumed.value), None, true;
      }
      if region {
        found := NextInRegion(parser, text, cursor);
        if found.Some? {
          return false, found;
        }
        cursor, region := AfterRegion(parser, text, cursor), false;
      }
      found := FindCall(parser, text, cursor);
      return false, found;
    }

    // Look for the next call; says whether one was opened.
    method Seek(text: string, final: bool) returns (again: bool)
      requires Ready(State(), text) && open.None?
      modifies this
      ensures var sought := ToolCalls.Seek(parser, old(State()), text, final);
        && again == sought.Start?
        && State() == if again then OpenAt(sought.st, sought.jsonStart) else sought.st
    {
      hide ToolCalls.EmitContent, ToolCalls.Seek;
      var held, found := Look(text, final);
      if held {
        return false;
      }
      if found.None? {
        EmitContent(text, SafeEnd(parser, State(), text, final));
        return false;
      }
      EmitContent(text, found.value.contentEnd);
      if found.value.Pending? {
        if final {
          EmitContent(text, |text|);
        }
        return false;
      }
      open, nextIndex, cursor := Some(NewCall(nextIndex, found.value.jsonStart)), nextIndex + 1, found.value.jsonStart;
      return true;
    }

    method Run(text: string, final: bool)
      requires Ready(State(), text)
      modifies this
      ensures State() == Interpret(parser, old(State()), text, final) && Ready(State(), text)
    {
      hide Interpret;
      var again := true;
      while again
        invariant Ready(State(), text)
        invariant Interpret(parser, old(State()), text, final)
               == if again then Interpret(parser, State(), text, final) else State()
        decreases again, |text| - cursor, if open.Some? then 0 else 1
      {
        if open.Some? {
          again := StepOpen(text, final);
        } else {
          SeekIsStep(parser, State(), text, final);
          again := Seek(text, final);
        }
      }
    }

    /** Interpret whatever has arrived. */
    method Push(text: string)
      requires Ready(State(), text)
      modifies this
      ensures State() == ToolCalls.Push(parser, old(State()), text) && Ready(State(), text)
    {
      Run(text, false);
    }

    /** No more text is coming: flush what is held and close what is open. */
    method Finish(text: string)
      requires Ready(State(), text)
      modifies this
      ensures State() == ToolCalls.Finish(parser, old(State()), text) && Ready(State(), text)
    {
      Run(text, true);
    }
  }

  // ---- what finishing leaves unread ---------------------------------------------------------------------

  // Finishing closes no unnamed object before the end of the text.
  predicate NamedThrough(p: Parser, st: Stream, text: string)
    requires Ready(st, text)
    decreases |text| - st.cursor, if st.open.Some? then 0 else 1
  {
    if st.open.Some? then
      var updated := UpdateOpen(p, st, text);
      ObjectEndsLater(st.open.value.obj, st.cursor, text);
      if updated.open.value.name.None? then Limit(updated.open.value.obj, text) == |text|
      else NamedThrough(p, Close(p, updated, text, true).0, text)
    else
      var sought := Seek(p, st, text, true);
      sought.Start? ==> NamedThrough(p, OpenAt(sought.st, sought.jsonStart), text)
  }

  /** Finishing reads the whole text if and only if it closes no unnamed object short of its end: such
      an object ends the loop, and what follows it is never emitted. */
  lemma {:induction false} FinishReadsAllExactly(p: Parser, st: Stream, text: string)
    requires Ready(st, text)
    ensures Finish(p, st, text).cursor == |text| <==> NamedThrough(p, st, text)
    decreases |text| - st.cursor, if st.open.Some? then 0 else 1
  {
    hide UpdateCall, Seek, Deltas;
    if st.open.Some? {
      var updated := UpdateOpen(p, st, text);
      ObjectEndsLater(st.open.value.obj, st.cursor, text);
      UpdatedOpen(p, st, text);
      if updated.open.value.name.Some? {
        FinishReadsAllExactly(p, Close(p, updated, text, true).0, text);
      }
    } else {
      var sought := Seek(p, st, text, true);
      if sought.Start? {
        FinishReadsAllExactly(p, OpenAt(sought.st, sought.jsonStart), text);
      } else {
        FinalSeekReadsAll(p, st, text);
      }
    }
  }

  lemma FinalSeekReadsAll(p: Parser, st: Stream, text: string)
    requires Ready(st, text) && st.open.None? && Seek(p, st, text, true).Stop?
    ensures Seek(p, st, text, true).st.cursor == |text|
  {
    hide FindCall, NextInRegion, AfterRegion;
  }

  // A push stops only on an open object that has not closed or where no call is in sight.
  lemma {:induction false} PushRests(p: Parser, st: Stream, text: string)
    requires p.Valid() && Ready(st, text)
    ensures var r := Push(p, st, text);
      && (r.open.Some? ==> Advance(r.open.value.obj, text).end.None?)
      && (r.open.None? ==> Seek(p, r, text, false).Stop?)
    decreases |text| - st.cursor, if st.open.Some? then 0 else 1
  {
    hide UpdateCall, Seek, Deltas;
    if st.open.Some? {
      var updated := UpdateOpen(p, st, text);
      ObjectEndsLater(st.open.value.obj, st.cursor, text);
      UpdatedOpen(p, st, text);
      if updated.open.value.obj.end.None? {
        AdvanceResumes(st.open.value.obj, text, text);
      } else {
        PushRests(p, Close(p, updated, text, false).0, text);
      }
    } else {
      var sought := Seek(p, st, text, false);
      if sought.Start? {
        PushRests(p, OpenAt(sought.st, sought.jsonStart), text);
      } else {
        SeekStop(p, st, text, text);
      }
    }
  }

  /** Finishing a text that has been pushed reads all of it, unless an end marker is still awaited. */
  lemma FinishAfterPush(p: Parser, st: Stream, text: string)
    requires p.Valid() && Ready(st, text) && Push(p, st, text).trailing.None?
    ensures Finish(p, Push(p, st, text), text).cursor == |text|
  {
    hide UpdateCall, Deltas, Interpret, FindCall, NextInRegion, AfterRegion;
    var pushed := Push(p, st, text);
    PushRests(p, st, text);
    if pushed.open.Some? {
      UpdatedOpen(p, pushed, text);
      var updated := UpdateOpen(p, pushed, text);
      ObjectEndsLater(pushed.open.value.obj, pushed.cursor, text);
    }
    FinishReadsAllExactly(p, pushed, text);
  }

  // ---- a text finished short -----------------------------------------------------------------------------

  const OPENER := "<tool_call>"
  const UNNAMED := "{\"x\":1}"
  const SHORT := OPENER + (UNNAMED + " tail")

  lemma ShortChars()
    ensures |SHORT| == 23 && At(SHORT, 0, OPENER) && At(SHORT, 11, UNNAMED)
    ensures SHORT[11] == '{' && SHORT[12] == '"' && SHORT[13] == 'x' && SHORT[14] == '"' && SHORT[15] == ':'
    ensures SHORT[16] == '1' && SHORT[17] == '}'
    ensures forall i :: 0 <= i < 11 ==> SHORT[i] != '{'
  {
    assert SHORT[0..23] == OPENER + (UNNAMED + " tail");
    Halves(SHORT, 0, OPENER, UNNAMED + " tail");
    Halves(SHORT, 11, UNNAMED, " tail");
    var a := SHORT[11..18];
    assert forall i :: 11 <= i < 18 ==> SHORT[i] == a[i - 11];
    forall i | 0 <= i < 11 ensures SHORT[i] != '{' { CharOf(SHORT, 0, OPENER, i); }
  }

  lemma {:induction false} NothingNamed(i: nat)
    requires 11 <= i <= 18
    ensures |SHORT| == 23 && FindName(SHORT, i, 18).None? && FindArguments(SHORT, i, 18).None?
    decreases 18 - i
  {
    ShortChars();
    if i < 18 {
      NothingNamed(i + 1);
      if At(SHORT, i, NAME) { NameShape(SHORT, i, |SHORT|); }
      assert NameAt(SHORT, i, 18).None?;
      if KeyAt(SHORT, i, 18) > 0 { KeyShape(SHORT, i, 18); }
    }
  }

  lemma UnnamedEnds()
    ensures Advance(NewSpan(11), SHORT).end == Some(18)
  {
    ShortChars();
    var j := Json.Obj("", [Json.Member("", "x", "", "", Json.Scalar("1"), "")]);
    assert Json.IsBody("x") && Json.IsJson(Json.Scalar("1")) && Json.IsBlank("") by { assert "x"[1..] == ""; }
    assert Json.IsJson(j);
    assert Json.Show(Json.Scalar("1")) == "1";
    assert Json.ShowMember(j.members[0]) == "" + Json.ShowString("x") + "" + ":" + "" + "1" + "" == "\"x\":1";
    assert Json.ShowMembers(j.members) == Json.ShowMember(j.members[0]) + "" == "\"x\":1";
    assert Json.Show(j) == UNNAMED;
    Json.SpanOfValue(SHORT, 11, j);
  }

  /** It does happen: a text that was never pushed, finished with a closed unnamed object in it, is left unread
      after that object. */
  lemma FinishStopsShort(p: Parser)
    requires p.family.Hermes?
    ensures Ready(INITIAL, SHORT) && Finish(p, INITIAL, SHORT).cursor < |SHORT|
  {
    ShortChars();
    FindIs(SHORT, OPENER, 0, 0);
    forall i | 0 <= i < 11 ensures !At(SHORT, i, "{") { Differs(SHORT, i, "{", 0); }
    FindIs(SHORT, "{", 0, 11);
    assert Seek(p, INITIAL, SHORT, true) == Start(INITIAL, 11);
    UnnamedEnds();
    NothingNamed(11);
    hide Find, FindName, FindArguments, Advance, Seek, Deltas;
    var begun := OpenAt(INITIAL, 11);
    assert UpdateOpen(p, begun, SHORT).open.value.name.None?;
    assert !NamedThrough(p, INITIAL, SHORT);
    FinishReadsAllExactly(p, INITIAL, SHORT);
  }
}
