// Pushing a growing text in any cut leaves the stream where pushing it once does.
module ToolCallsPathFree {
  import opened Options
  import opened ValueSpan
  import opened KeyScan
  import opened ToolCalls

  // ---- what was located stays located ---------------------------------------------------------------

  lemma ArgumentsEndOnSpaceOrColon(text: string, from: nat, limit: nat)
    requires limit <= |text| && FindArguments(text, from, limit).Some?
    ensures var e := FindArguments(text, from, limit).value; text[e - 1] == ':' || IsSpace(text[e - 1])
  {
    hide FindArguments, ArgumentsFoundAt, KeyAt, AfterColon, SkipSpace;
    var m := ArgumentsFoundAt(text, from, limit);
    var colon := AfterColon(text, m + KeyAt(text, m, limit), limit).value;
    assert SkipSpace(text, colon, limit) == FindArguments(text, from, limit).value;
  }

  // A key whose value had not begun to arrive does not begin below what had arrived.
  lemma {:induction false} ArgumentsNotYet(t1: string, t2: string, from: nat, l2: nat)
    requires t1 <= t2 && |t1| <= l2 <= |t2|
    requires FindArguments(t1, from, |t1|).None? || FindArguments(t1, from, |t1|).value == |t1|
    requires FindArguments(t2, from, l2).Some?
    ensures FindArguments(t2, from, l2).value >= |t1|
    decreases |t1| - from
  {
    hide ArgumentsAt;
    if from < |t1| {
      if ArgumentsAt(t1, from, |t1|).Some? {
        KeyNotYet(t1, t2, from, l2);
      } else if ArgumentsAt(t2, from, l2).Some? {
        ValueNotYet(t1, t2, from, l2);
      } else {
        ArgumentsNotYet(t1, t2, from + 1, l2);
      }
    }
  }

  lemma KeyNotYet(t1: string, t2: string, i: nat, l2: nat)
    requires t1 <= t2 && |t1| <= l2 <= |t2| && ArgumentsAt(t1, i, |t1|) == Some(|t1|)
    ensures ArgumentsAt(t2, i, l2).Some? && ArgumentsAt(t2, i, l2).value >= |t1|
  {
    var n := KeyAt(t1, i, |t1|);
    KeyAtGrows(t1, t2, i, |t1|, l2);
    AfterColonGrows(t1, t2, i + n, |t1|, l2);
  }

  lemma ValueNotYet(t1: string, t2: string, i: nat, l2: nat)
    requires t1 <= t2 && |t1| <= l2 <= |t2|
    requires ArgumentsAt(t1, i, |t1|).None? && ArgumentsAt(t2, i, l2).Some?
    ensures ArgumentsAt(t2, i, l2).value >= |t1|
  {
    if AfterColon(t2, i + KeyAt(t2, i, l2), l2).value <= |t1| {
      ColonWasThere(t1, t2, i, l2);
    }
  }

  lemma LocateGrows(t1: string, t2: string, js: nat, l2: nat)
    requires t1 <= t2 && |t1| <= l2 <= |t2| && LocateArguments(t1, js, |t1|).Some?
    ensures LocateArguments(t2, js, l2) == LocateArguments(t1, js, |t1|)
  {
    FindArgumentsGrows(t1, t2, js, l2);
  }

  // ---- the name ----------------------------------------------------------------------------------------

  lemma NameStays(p: Parser, t1: string, t2: string, js: nat, a1: Option<Span>, a2: Option<Span>, l2: nat)
    requires t1 <= t2 && |t1| <= l2 <= |t2|
    requires ReadName(p, t1, js, a1, |t1|).Some?
    requires a1.None? && a2.Some? ==> |t1| <= a2.value.start
    requires a1.Some? ==> a2.Some? && a1.value.start == a2.value.start <= |t1|
    requires a1.Some? && a1.value.end.Some? ==> a2.value.end == a1.value.end
    ensures ReadName(p, t2, js, a2, l2) == ReadName(p, t1, js, a1, |t1|)
  {
    if a1.Some? {
      FindNameLocal(t1, t2, js, a1.value.start);
      if FindName(t1, js, a1.value.start).None? {
        FindNameGrows(t1, t2, a1.value.end.value, l2);
      }
    } else {
      var window := if a2.Some? && a2.value.start <= |t2| then a2.value.start else l2;
      FindNameGrows(t1, t2, js, window);
    }
  }

  // ---- one open call, read in two steps -----------------------------------------------------------------

  predicate Fresh(c: OpenCall, cursor: nat) {
    c == NewCall(c.index, cursor)
  }

  lemma LimitGrows(obj: Span, t1: string, t2: string)
    requires t1 <= t2 && obj.pos <= |t1| && obj.end.None? && Advance(obj, t1).end.None?
    ensures Limit(Advance(obj, t2), t2) >= |t1|
  {
    AdvanceResumes(obj, t1, t2);
  }

  lemma ArgumentsTwice(p: Parser, c: OpenCall, t1: string, t2: string)
    requires t1 <= t2 && Fresh(c, c.jsonStart) && c.jsonStart <= |t1| && UpdateCall(p, c, t1).obj.end.None?
    ensures var u1, u2 := UpdateCall(p, c, t1), UpdateCall(p, c, t2);
      && Advance(u1.obj, t2) == u2.obj
      && UpdateCall(p, u1, t2).arguments == u2.arguments
      && UpdateCall(p, u1, t2).quoted == u2.quoted
      && (u1.arguments.Some? ==>
            && u2.arguments == Some(Advance(u1.arguments.value, t2)) && u1.quoted == u2.quoted
            && u1.arguments.value.start < |t1| && u1.arguments.value.pos <= |t1|
            && u1.arguments.value == Advance(NewSpan(u1.arguments.value.start), t1)
            && u2.arguments.value == Advance(NewSpan(u1.arguments.value.start), t2))
      && (u1.arguments.None? && u2.arguments.Some? ==> |t1| <= u2.arguments.value.start)
  {
    hide ReadName, Raw;
    AdvanceResumes(c.obj, t1, t2);
    LimitGrows(c.obj, t1, t2);
    var l2 := Limit(Advance(c.obj, t2), t2);
    var located := LocateArguments(t1, c.jsonStart, |t1|);
    if located.Some? {
      LocateGrows(t1, t2, c.jsonStart, l2);
      AdvanceResumes(located.value, t1, t2);
    } else if FindArguments(t2, c.jsonStart, l2).Some? {
      ArgumentsNotYet(t1, t2, c.jsonStart, l2);
    }
  }

  lemma NameTwice(p: Parser, c: OpenCall, t1: string, t2: string)
    requires t1 <= t2 && Fresh(c, c.jsonStart) && c.jsonStart <= |t1| && UpdateCall(p, c, t1).obj.end.None?
    ensures UpdateCall(p, UpdateCall(p, c, t1), t2).name == UpdateCall(p, c, t2).name
    ensures UpdateCall(p, c, t1).name.Some? ==> UpdateCall(p, c, t2).name == UpdateCall(p, c, t1).name
  {
    hide ReadName, Raw, LocateArguments;
    var u1, u2 := UpdateCall(p, c, t1), UpdateCall(p, c, t2);
    ArgumentsTwice(p, c, t1, t2);
    LimitGrows(c.obj, t1, t2);
    if u1.name.Some? {
      if u1.arguments.Some? && u1.arguments.value.end.Some? {
        ClosedIsFinal(NewSpan(u1.arguments.value.start), t1, t2);
      }
      NameStays(p, t1, t2, c.jsonStart, u1.arguments, u2.arguments, Limit(u2.obj, t2));
    }
  }

  lemma RawGrows(s: nat, t1: string, t2: string)
    requires t1 <= t2 && s <= |t1|
    ensures Raw(Advance(NewSpan(s), t1), t1) <= Raw(Advance(NewSpan(s), t2), t2)
  {
    SliceGrows(NewSpan(s), t1, t2);
  }

  lemma UpdateTwice(p: Parser, c: OpenCall, t1: string, t2: string)
    requires t1 <= t2 && Fresh(c, c.jsonStart) && c.jsonStart <= |t1| && UpdateCall(p, c, t1).obj.end.None?
    ensures UpdateCall(p, UpdateCall(p, c, t1), t2) == UpdateCall(p, c, t2)
    ensures var u1, u2 := UpdateCall(p, c, t1), UpdateCall(p, c, t2);
      && (u1.sentOpen ==> u2.sentOpen) && u1.sent <= u2.sent
      && (u1.sent > 0 ==> u1.arguments.Some? && u2.arguments.Some? && u1.sent == |Raw(u1.arguments.value, t1)|
                          && u2.sent == |Raw(u2.arguments.value, t2)|
                          && Raw(u1.arguments.value, t1) <= Raw(u2.arguments.value, t2))
  {
    hide ReadName, Raw, LocateArguments, Advance;
    ArgumentsTwice(p, c, t1, t2);
    NameTwice(p, c, t1, t2);
    var u1 := UpdateCall(p, c, t1);
    if u1.arguments.Some? {
      RawGrows(u1.arguments.value.start, t1, t2);
    }
  }

  lemma AppendTwice(a: seq<string>, r1: string, r2: string)
    requires |a| > 0
    ensures Append(Append(a, r1), r2) == Append(a, r1 + r2)
  {
    var last := a[|a| - 1];
    assert (last + r1) + r2 == last + (r1 + r2);
  }

  lemma DeltasTwice(p: Parser, a: seq<string>, c: OpenCall, t1: string, t2: string)
    requires t1 <= t2 && Fresh(c, c.jsonStart) && c.jsonStart <= |t1| && UpdateCall(p, c, t1).obj.end.None?
    ensures var u1, u2 := UpdateCall(p, c, t1), UpdateCall(p, c, t2);
      Deltas(Deltas(a, c, u1, t1), u1, u2, t2) == Deltas(a, c, u2, t2)
  {
    var u1, u2 := UpdateCall(p, c, t1), UpdateCall(p, c, t2);
    UpdateTwice(p, c, t1, t2);
    FreshSends(p, c, t1);
    DeltasJoin(a, c, u1, u2, t1, t2);
  }

  lemma FreshSends(p: Parser, c: OpenCall, text: string)
    requires Fresh(c, c.jsonStart)
    ensures var u := UpdateCall(p, c, text);
      u.sent > 0 ==> u.sentOpen && u.arguments.Some? && u.sent == |Raw(u.arguments.value, text)|
  {
    hide ReadName, Raw, LocateArguments, Advance;
  }

  lemma DeltasJoin(a: seq<string>, c: OpenCall, u1: OpenCall, u2: OpenCall, t1: string, t2: string)
    requires Fresh(c, c.jsonStart)
    requires u1.sent > 0 ==> u1.sentOpen && u1.arguments.Some? && u1.sent == |Raw(u1.arguments.value, t1)|
    requires u1.sentOpen ==> u2.sentOpen
    requires u1.sent <= u2.sent
    requires u1.sent > 0 ==> u2.arguments.Some? && u2.sent == |Raw(u2.arguments.value, t2)|
                             && Raw(u1.arguments.value, t1) <= Raw(u2.arguments.value, t2)
    ensures Deltas(Deltas(a, c, u1, t1), u1, u2, t2) == Deltas(a, c, u2, t2)
  {
    hide Raw;
    if u1.sent > 0 {
      var r1, r2 := Raw(u1.arguments.value, t1), Raw(u2.arguments.value, t2);
      AppendTwice(a + [""], r1, r2[u1.sent..]);
      assert r1 + r2[u1.sent..] == r2 == r2[0..u2.sent] && r1 == r1[0..u1.sent];
      assert r2[u1.sent..u2.sent] == r2[u1.sent..];
      if u2.sent == u1.sent {
        assert r1 == r2;
      }
    }
  }

  // ---- a call that closes ---------------------------------------------------------------------------------

  function RawEnd(s: Span, text: string): nat {
    if s.end.Some? then s.end.value else |text|
  }

  // What a client is sent as the arguments of a closed call lies inside the call's object.
  predicate Contained(u: OpenCall, text: string) {
    && u.obj.end.Some?
    && (u.name.Some? && u.arguments.Some? ==> RawEnd(u.arguments.value, text) <= u.obj.end.value)
  }

  // Whether or not the argument value has closed within it, a text that holds the object's end decides
  // everything about the call but how far that value reaches.
  lemma ClosedCall(p: Parser, c: OpenCall, t1: string, t2: string)
    requires t1 <= t2 && Fresh(c, c.jsonStart) && c.jsonStart < |t1| && t1[c.jsonStart] == '{'
    requires UpdateCall(p, c, t1).obj.end.Some?
    ensures var u1, u2 := UpdateCall(p, c, t1), UpdateCall(p, c, t2);
      && u1.obj == u2.obj && u1.obj.end.value <= |t1| && u1.quoted == u2.quoted && u1.name == u2.name
      && u1.arguments.Some? == u2.arguments.Some?
      && (u1.arguments.Some? ==> ArgumentsOf(u1, u2, t1, t2))
  {
    hide FindName, FindArguments;
    ClosedIsFinal(c.obj, t1, t2);
    ObjectEndsLater(c.obj, c.jsonStart, t1);
    var limit := Limit(Advance(c.obj, t1), t1);
    FindArgumentsLocal(t1, t2, c.jsonStart, limit);
    var e := FindArguments(t1, c.jsonStart, limit);
    if e.Some? {
      ArgumentsEndOnSpaceOrColon(t1, c.jsonStart, limit);
      AdvanceResumes(NewSpan(e.value), t1, t2);
      FindNameLocal(t1, t2, c.jsonStart, e.value);
      SecondSearch(e.value, t1, t2, limit);
    } else {
      FindNameLocal(t1, t2, c.jsonStart, limit);
    }
  }

  // The two readings of one argument value.
  predicate ArgumentsOf(u1: OpenCall, u2: OpenCall, t1: string, t2: string)
    requires u1.arguments.Some? && u2.arguments.Some?
  {
    var s := u1.arguments.value.start;
    && s < |t1| && u1.obj.end.Some? && s < u1.obj.end.value
    && u1.arguments.value == Advance(NewSpan(s), t1) && u2.arguments.value == Advance(NewSpan(s), t2)
    && u1.quoted == (t1[s] == '"')
  }

  // A value still open where the object has ended leaves nothing to search for a name after it.
  lemma SecondSearch(s: nat, t1: string, t2: string, limit: nat)
    requires t1 <= t2 && s <= |t1| && limit <= |t1|
    ensures var a1, a2 := Advance(NewSpan(s), t1), Advance(NewSpan(s), t2);
      && (a1.end.Some? ==> a2 == a1 && FindName(t1, a1.end.value, limit) == FindName(t2, a1.end.value, limit))
      && (a1.end.None? && a2.end.Some? ==> FindName(t2, a2.end.value, limit) == None)
  {
    var a1, a2 := Advance(NewSpan(s), t1), Advance(NewSpan(s), t2);
    if a1.end.Some? {
      ClosedIsFinal(NewSpan(s), t1, t2);
      FindNameLocal(t1, t2, a1.end.value, limit);
    } else {
      AdvanceResumes(NewSpan(s), t1, t2);
    }
  }

  lemma RawSettled(s: nat, t1: string, t2: string, limit: nat)
    requires t1 <= t2 && s <= |t1| && limit <= |t1| && RawEnd(Advance(NewSpan(s), t2), t2) <= limit
    ensures Raw(Advance(NewSpan(s), t1), t1) == Raw(Advance(NewSpan(s), t2), t2)
    ensures RawEnd(Advance(NewSpan(s), t1), t1) <= limit
  {
    AdvanceResumes(NewSpan(s), t1, t2);
    var a1, a2 := Advance(NewSpan(s), t1), Advance(NewSpan(s), t2);
    var e := RawEnd(a2, t2);
    assert t1[s..e] == t2[s..e];
  }

  // The deltas owed when a call is read for the first time.
  lemma FirstDeltas(p: Parser, a: seq<string>, c: OpenCall, text: string)
    requires Fresh(c, c.jsonStart)
    ensures var u := UpdateCall(p, c, text);
      && u.sentOpen == u.name.Some? && u.index == c.index
      && u.sent == (if u.name.Some? && u.arguments.Some? && !u.quoted then |Raw(u.arguments.value, text)| else 0)
      && Deltas(a, c, u, text) == (if u.name.None? then a
                                   else if u.sent > 0 then Append(a + [""], Raw(u.arguments.value, text)) else a + [""])
  {
    hide ReadName, Raw, LocateArguments, Advance;
    var u := UpdateCall(p, c, text);
    if u.sent > 0 {
      var r := Raw(u.arguments.value, text);
      assert r[0..u.sent] == r;
    }
  }

  lemma CloseStable(p: Parser, st: Stream, t1: string, t2: string)
    requires t1 <= t2 && Ready(st, t1) && st.open.Some? && Fresh(st.open.value, st.cursor)
    requires UpdateCall(p, st.open.value, t1).obj.end.Some?
    requires Contained(UpdateCall(p, st.open.value, t2), t2)
    ensures Contained(UpdateCall(p, st.open.value, t1), t1)
    ensures Close(p, UpdateOpen(p, st, t1), t1, false) == Close(p, UpdateOpen(p, st, t2), t2, false)
  {
    hide UpdateCall, Raw, Deltas, Append, Advance, Close, Fresh;
    var c := st.open.value;
    var u1, u2 := UpdateCall(p, c, t1), UpdateCall(p, c, t2);
    ClosedCall(p, c, t1, t2);
    FirstDeltas(p, st.assembled, c, t1);
    FirstDeltas(p, st.assembled, c, t2);
    if u1.arguments.Some? && u1.name.Some? {
      RawSettled(u1.arguments.value.start, t1, t2, u1.obj.end.value);
    }
    ClosesAlike(p, UpdateOpen(p, st, t1), UpdateOpen(p, st, t2), t1, t2);
  }

  lemma ClosesAlike(p: Parser, st1: Stream, st2: Stream, t1: string, t2: string)
    requires t1 <= t2 && st1.open.Some? && st2.open.Some? && st1.cursor <= |t1|
    requires st2 == st1.(open := st2.open)
    requires var u1, u2 := st1.open.value, st2.open.value;
      && u1.obj == u2.obj && u1.obj.end.Some? && u1.obj.end.value <= |t1| && u1.quoted == u2.quoted && u1.name == u2.name
      && u1.index == u2.index
      && u1.arguments.Some? == u2.arguments.Some? && u1.sent == u2.sent
      && (u1.name.Some? && u1.arguments.Some? ==> Raw(u1.arguments.value, t1) == Raw(u2.arguments.value, t2))
    ensures Close(p, st1, t1, false) == Close(p, st2, t2, false)
  {
    hide Raw;
    EmitSame(st1.(open := None, nextIndex := if st1.nextIndex > 0 then st1.nextIndex - 1 else 0, trailing := None),
             t1, t2, st1.open.value.obj.end.value);
  }

  lemma EmitSame(st: Stream, t1: string, t2: string, end: nat)
    requires t1 <= t2 && end <= |t1|
    ensures EmitContent(st, t1, end) == EmitContent(st, t2, end)
  {
    if end > st.cursor {
      assert t1[st.cursor..end] == t2[st.cursor..end];
    }
  }

  // ---- between calls -----------------------------------------------------------------------------------------

  lemma EmitTwice(st: Stream, t1: string, t2: string, a: nat, b: nat)
    requires t1 <= t2 && a <= |t1| && b <= |t2| && (a <= b || a <= st.cursor)
    ensures EmitContent(EmitContent(st, t1, a), t2, b) == EmitContent(st, t2, b)
  {
    if st.cursor < a {
      assert t1[st.cursor..a] + t2[a..b] == t2[st.cursor..b];
      assert (st.content + t1[st.cursor..a]) + t2[a..b] == st.content + (t1[st.cursor..a] + t2[a..b]);
      assert a == b ==> t1[st.cursor..a] == t2[st.cursor..b];
    }
  }

  lemma MarkerStart(p: Parser, st: Stream, t1: string, t2: string)
    requires t1 <= t2 && st.cursor <= |t1| && SeekMarker(p, st, t1, false).Start?
    ensures SeekMarker(p, st, t2, false) == SeekMarker(p, st, t1, false)
  {
    FindGrows(t1, t2, p.Marker(), st.cursor);
    var at := Find(t1, p.Marker(), st.cursor).value;
    FindGrows(t1, t2, "{", at);
    EmitSame(st, t1, t2, at);
  }

  // Text withheld because a marker might begin in it is never passed over.
  lemma NothingPassed(p: Parser, st: Stream, t1: string, t2: string)
    requires p.Valid() && t1 <= t2 && st.cursor <= |t1| && FindCall(p, t1, st.cursor).None?
    ensures var later := SafeEnd(p, st, t1, false);
      Find(t2, p.Marker(), later) == Find(t2, p.Marker(), st.cursor)
  {
    var later := SafeEnd(p, st, t1, false);
    forall i | st.cursor <= i < later ensures !At(t2, i, p.Marker()) {
      AtGrows(t1, t2, i, p.Marker());
    }
    FindSkips(t2, p.Marker(), st.cursor, later);
  }

  lemma MarkerStop(p: Parser, st: Stream, t1: string, t2: string)
    requires p.Valid() && t1 <= t2 && st.cursor <= |t1| && SeekMarker(p, st, t1, false).Stop?
    ensures SeekMarker(p, SeekMarker(p, st, t1, false).st, t2, false) == SeekMarker(p, st, t2, false)
  {
    hide Find;
    var found := FindCall(p, t1, st.cursor);
    var a := if found.None? then SafeEnd(p, st, t1, false) else found.value.contentEnd;
    if found.None? {
      NothingPassed(p, st, t1, t2);
    } else {
      FindGrows(t1, t2, p.Marker(), st.cursor);
      FindIs(t2, p.Marker(), a, a);
    }
    var next := FindCall(p, t2, st.cursor);
    assert next == FindCall(p, t2, a);
    EmitTwice(st, t1, t2, a, if next.None? then SafeEnd(p, st, t2, false) else next.value.contentEnd);
  }

  lemma RegionSettled(p: Parser, t1: string, t2: string, position: nat)
    requires t1 <= t2 && position <= |t1|
    requires NextInRegion(p, t1, position).None? || NextInRegion(p, t1, position).value.Found?
    ensures NextInRegion(p, t2, position) == NextInRegion(p, t1, position)
    ensures AfterRegion(p, t2, position) == AfterRegion(p, t1, position)
  {
  }

  lemma RegionStart(p: Parser, st: Stream, t1: string, t2: string)
    requires t1 <= t2 && st.cursor <= |t1| && SeekRegion(p, st, t1, false).Start?
    ensures SeekRegion(p, st, t2, false) == SeekRegion(p, st, t1, false)
  {
    if !st.region {
      MarkerStart(p, st, t1, t2);
    } else {
      RegionSettled(p, t1, t2, st.cursor);
      if NextInRegion(p, t1, st.cursor).None? {
        MarkerStart(p, st.(cursor := AfterRegion(p, t1, st.cursor), region := false), t1, t2);
      }
    }
  }

  lemma RegionStop(p: Parser, st: Stream, t1: string, t2: string)
    requires p.Valid() && t1 <= t2 && st.cursor <= |t1| && SeekRegion(p, st, t1, false).Stop?
    ensures SeekRegion(p, SeekRegion(p, st, t1, false).st, t2, false) == SeekRegion(p, st, t2, false)
  {
    hide SeekMarker, FindCall, Skip, AfterRegion;
    if !st.region {
      MarkerStop(p, st, t1, t2);
    } else if NextInRegion(p, t1, st.cursor).None? {
      RegionSettled(p, t1, t2, st.cursor);
      MarkerStop(p, st.(cursor := AfterRegion(p, t1, st.cursor), region := false), t1, t2);
    }
  }

  lemma SeekStart(p: Parser, st: Stream, t1: string, t2: string)
    requires t1 <= t2 && Ready(st, t1) && st.open.None? && Seek(p, st, t1, false).Start?
    ensures Seek(p, st, t2, false) == Seek(p, st, t1, false)
  {
    var next := st;
    if st.trailing.Some? {
      if p.family.Hermes? {
        FindGrows(t1, t2, HERMES_END, st.trailing.value);
      }
      next := st.(cursor := Max(st.cursor, AfterCall(p, t1, st.trailing.value, false).value), trailing := None,
        region := true);
    }
    RegionStart(p, next, t1, t2);
  }

  lemma SeekStop(p: Parser, st: Stream, t1: string, t2: string)
    requires p.Valid() && t1 <= t2 && Ready(st, t1) && st.open.None? && Seek(p, st, t1, false).Stop?
    ensures Seek(p, Seek(p, st, t1, false).st, t2, false) == Seek(p, st, t2, false)
  {
    if st.trailing.None? {
      RegionStop(p, st, t1, t2);
    } else {
      var resumed := AfterCall(p, t1, st.trailing.value, false);
      if resumed.Some? {
        if p.family.Hermes? {
          FindGrows(t1, t2, HERMES_END, st.trailing.value);
        }
        RegionStop(p, st.(cursor := Max(st.cursor, resumed.value), trailing := None, region := true), t1, t2);
      }
    }
  }

  // ---- whole pushes -----------------------------------------------------------------------------------------------

  // Between pushes of one text, an open call has either just been opened or is read up to that text.
  predicate Startable(st: Stream, text: string) {
    Ready(st, text) && (st.open.Some? ==> Fresh(st.open.value, st.cursor))
  }

  // Every call that pushing `text` closes keeps its argument value inside its object.
  predicate Clean(p: Parser, st: Stream, text: string)
    requires Ready(st, text)
    decreases |text| - st.cursor, if st.open.Some? then 0 else 1
  {
    if st.open.Some? then
      var updated := UpdateOpen(p, st, text);
      ObjectEndsLater(st.open.value.obj, st.cursor, text);
      updated.open.value.obj.end.None? ||
      (Contained(updated.open.value, text) &&
       var (closed, again) := Close(p, updated, text, false);
       again ==> Clean(p, closed, text))
    else
      var sought := Seek(p, st, text, false);
      sought.Start? ==> Clean(p, OpenAt(sought.st, sought.jsonStart), text)
  }

  // An open call that has read `t1` without closing.
  lemma OpenTwice(p: Parser, st: Stream, t1: string, t2: string)
    requires t1 <= t2 && Startable(st, t1) && st.open.Some?
    requires UpdateOpen(p, st, t1).open.value.obj.end.None?
    ensures Ready(UpdateOpen(p, st, t1), t2)
    ensures UpdateOpen(p, UpdateOpen(p, st, t1), t2) == UpdateOpen(p, st, t2)
  {
    hide UpdateCall, Deltas, ReadName, Raw, LocateArguments;
    var c := st.open.value;
    UpdateTwice(p, c, t1, t2);
    DeltasTwice(p, st.assembled, c, t1, t2);
    UpdatedObject(p, c, t1);
    ObjectEndsLater(c.obj, st.cursor, t1);
  }

  lemma UpdatedObject(p: Parser, c: OpenCall, text: string)
    ensures UpdateCall(p, c, text).obj == Advance(c.obj, text)
    ensures UpdateCall(p, c, text).jsonStart == c.jsonStart && UpdateCall(p, c, text).index == c.index
  {}

  /** Interpreting a prefix first changes nothing. */
  lemma {:induction false} PushTwice(p: Parser, st: Stream, t1: string, t2: string)
    requires p.Valid() && t1 <= t2 && Startable(st, t1) && Ready(st, t2) && Clean(p, st, t2)
    ensures Push(p, Push(p, st, t1), t2) == Push(p, st, t2)
    ensures Clean(p, st, t1)
    decreases |t1| - st.cursor, if st.open.Some? then 0 else 1
  {
    hide UpdateCall, UpdateOpen, Deltas, Seek, Contained;
    if st.open.Some? {
      var updated := UpdateOpen(p, st, t1);
      ObjectEndsLater(st.open.value.obj, st.cursor, t1);
      UpdatedOpen(p, st, t1);
      UpdatedOpen(p, st, t2);
      if updated.open.value.obj.end.None? {
        OpenTwice(p, st, t1, t2);
        UpdatedOpen(p, updated, t2);
      } else {
        ClosedIsFinal(st.open.value.obj, t1, t2);
        CloseStable(p, st, t1, t2);
        var (closed, again) := Close(p, updated, t1, false);
        PushTwice(p, closed, t1, t2);
      }
    } else {
      var sought := Seek(p, st, t1, false);
      if sought.Stop? {
        SeekStop(p, st, t1, t2);
      } else {
        SeekStart(p, st, t1, t2);
        PushTwice(p, OpenAt(sought.st, sought.jsonStart), t1, t2);
      }
    }
  }

  lemma UpdatedOpen(p: Parser, st: Stream, text: string)
    requires st.open.Some?
    ensures var u := UpdateOpen(p, st, text);
      && u.open == Some(UpdateCall(p, st.open.value, text)) && u.open.value.obj == Advance(st.open.value.obj, text)
      && u.open.value.jsonStart == st.open.value.jsonStart
      && u.cursor == st.cursor && u.trailing == st.trailing
  {}

  predicate Growing(texts: seq<string>) {
    forall i, j :: 0 <= i <= j < |texts| ==> texts[i] <= texts[j]
  }

  function PushAll(p: Parser, texts: seq<string>): (st: Stream)
    requires Growing(texts)
    ensures texts != [] ==> Ready(st, texts[|texts| - 1])
    ensures texts == [] ==> st == INITIAL
  {
    if texts == [] then INITIAL
    else
      var before := PushAll(p, texts[..|texts| - 1]);
      Push(p, before, texts[|texts| - 1])
  }

  /** Path independence: however a text is cut into growing prefixes, pushing them all leaves exactly
      the state that pushing the whole text does, provided no argument value outruns its object. */
  lemma {:induction false} PathIndependent(p: Parser, texts: seq<string>)
    requires p.Valid() && Growing(texts) && texts != []
    requires Clean(p, INITIAL, texts[|texts| - 1])
    ensures PushAll(p, texts) == Push(p, INITIAL, texts[|texts| - 1])
    decreases |texts|
  {
    hide Push, Clean;
    var n := |texts| - 1;
    if n > 0 {
      PushTwice(p, INITIAL, texts[n - 1], texts[n]);
      PathIndependent(p, texts[..n]);
    }
  }

  // ---- what the client assembles --------------------------------------------------------------------------------

  // The fragments sent so far for an open call.
  function SentSoFar(u: OpenCall, text: string): string {
    if u.sent > 0 && u.arguments.Some? && u.sent <= |Raw(u.arguments.value, text)|
    then Raw(u.arguments.value, text)[..u.sent] else ""
  }

  // Indices count up from zero, every closed call's fragments add up to its arguments, and an open
  // call's add up to what has arrived of them.
  predicate Assembled(p: Parser, st: Stream, text: string) {
    && |st.assembled| == |st.calls| + (if st.open.Some? && st.open.value.sentOpen then 1 else 0)
    && st.nextIndex == |st.calls| + (if st.open.Some? then 1 else 0)
    && (forall k :: 0 <= k < |st.calls| ==> AssembledCall(st.calls[k], k, st.assembled[k]))
    && (st.open.Some? ==> AssembledOpen(p, st, st.open.value, text))
  }

  predicate AssembledCall(c: Call, k: nat, fragments: string) {
    c.index == k && c.arguments == if fragments == "" then "{}" else fragments
  }

  predicate AssembledOpen(p: Parser, st: Stream, u: OpenCall, text: string)
    requires |st.assembled| == |st.calls| + (if u.sentOpen then 1 else 0)
  {
    && u.index == |st.calls|
    && (Fresh(u, st.cursor) || u == UpdateCall(p, NewCall(u.index, st.cursor), text))
    && (u.sentOpen ==> st.assembled[|st.calls|] == SentSoFar(u, text))
  }

  lemma DeltasAre(p: Parser, a: seq<string>, c: OpenCall, text: string)
    requires Fresh(c, c.jsonStart)
    ensures var u := UpdateCall(p, c, text);
      Deltas(a, c, u, text) == if u.sentOpen then a + [SentSoFar(u, text)] else a
  {
    FreshSends(p, c, text);
    hide UpdateCall, Raw;
    var u := UpdateCall(p, c, text);
    if u.sent > 0 {
      var r := Raw(u.arguments.value, text);
      assert "" + r[0..u.sent] == r[..u.sent];
    }
  }

  // Updating an open call comes to the same as updating it from when it was opened.
  lemma UpdateFromFresh(p: Parser, st: Stream, t1: string, t2: string)
    requires t1 <= t2 && Ready(st, t1) && st.open.Some? && Assembled(p, st, t1)
    ensures var c := NewCall(st.open.value.index, st.cursor);
      UpdateOpen(p, st, t2) == st.(open := Some(UpdateCall(p, c, t2)),
                                   assembled := Deltas(st.assembled[..|st.calls|], c, UpdateCall(p, c, t2), t2))
  {
    hide UpdateCall, Deltas, SentSoFar, AssembledCall, Raw, Advance;
    var u, c, a := st.open.value, NewCall(st.open.value.index, st.cursor), st.assembled[..|st.calls|];
    UpdatedObject(p, c, t1);
    if u == c {
      assert st.assembled == a;
    } else {
      UpdateTwice(p, c, t1, t2);
      DeltasTwice(p, a, c, t1, t2);
      DeltasAre(p, a, c, t1);
      assert st.assembled == Deltas(a, c, u, t1);
    }
  }

  lemma UpdateAssembles(p: Parser, st: Stream, t1: string, t2: string)
    requires t1 <= t2 && Ready(st, t1) && st.open.Some? && Assembled(p, st, t1)
    ensures Assembled(p, UpdateOpen(p, st, t2), t2)
    ensures UpdateOpen(p, st, t2).open.value == UpdateCall(p, NewCall(st.open.value.index, st.cursor), t2)
  {
    hide UpdateCall, UpdateOpen, Deltas, SentSoFar, AssembledCall, Raw, Advance;
    var c := NewCall(st.open.value.index, st.cursor);
    UpdateFromFresh(p, st, t1, t2);
    DeltasAre(p, st.assembled[..|st.calls|], c, t2);
    UpdatedObject(p, c, t2);
  }

  lemma CloseAssembles(p: Parser, st: Stream, text: string, final: bool)
    requires st.cursor <= |text| && st.open.Some? && Assembled(p, st, text)
    requires st.open.value == UpdateCall(p, NewCall(st.open.value.index, st.cursor), text)
    ensures Assembled(p, Close(p, st, text, final).0, text)
  {
    hide UpdateCall, Raw, FinalArguments, SentSoFar, Append, AssembledCall, Advance, Limit;
    var u := st.open.value;
    NamedIsSent(p, NewCall(u.index, st.cursor), text);
    if u.name.Some? {
      LastFragment(p, st, u, text);
      var arguments := FinalArguments(p, u, text);
      ClosedAssembled(Call(u.index, u.name.value, if arguments == "" then "{}" else arguments), |st.calls|, arguments);
    }
  }

  lemma ClosedAssembled(c: Call, k: nat, arguments: string)
    requires c.index == k && c.arguments == if arguments == "" then "{}" else arguments
    ensures AssembledCall(c, k, arguments)
  {}

  lemma LastFragment(p: Parser, st: Stream, u: OpenCall, text: string)
    requires |st.assembled| > 0 && st.assembled[|st.assembled| - 1] == SentSoFar(u, text)
    requires u.arguments.Some? && !u.quoted ==> u.sent == |Raw(u.arguments.value, text)|
    requires u.arguments.None? || u.quoted ==> u.sent == 0
    ensures var arguments := FinalArguments(p, u, text);
      var r := if |arguments| > u.sent then Append(st.assembled, arguments[u.sent..]) else st.assembled;
      r == st.assembled[..|st.assembled| - 1] + [arguments]
  {
    hide Raw;
    var arguments := FinalArguments(p, u, text);
    assert "" + arguments[0..] == arguments;
    assert st.assembled == st.assembled[..|st.assembled| - 1] + [st.assembled[|st.assembled| - 1]];
    if u.arguments.Some? && !u.quoted {
      assert arguments[..|arguments|] == arguments;
    }
  }

  lemma NamedIsSent(p: Parser, c: OpenCall, text: string)
    requires Fresh(c, c.jsonStart)
    ensures var u := UpdateCall(p, c, text);
      && u.sentOpen == u.name.Some?
      && (u.sentOpen && u.arguments.Some? && !u.quoted ==> u.sent == |Raw(u.arguments.value, text)|)
      && (u.arguments.None? || u.quoted ==> u.sent == 0)
  {
    hide ReadName, Raw, LocateArguments, Advance;
  }

  /** Interpreting keeps the client's assembly in step with the calls. */
  lemma {:induction false} InterpretAssembles(p: Parser, st: Stream, t1: string, t2: string, final: bool)
    requires t1 <= t2 && Ready(st, t1) && Assembled(p, st, t1) && Ready(st, t2)
    ensures Assembled(p, Interpret(p, st, t2, final), t2)
    decreases |t2| - st.cursor, if st.open.Some? then 0 else 1
  {
    hide UpdateCall, Seek;
    if st.open.Some? {
      var updated := UpdateOpen(p, st, t2);
      ObjectEndsLater(st.open.value.obj, st.cursor, t2);
      UpdatedOpen(p, st, t2);
      UpdateAssembles(p, st, t1, t2);
      if updated.open.value.obj.end.Some? || final {
        CloseAssembles(p, updated, t2, final);
        var (closed, again) := Close(p, updated, t2, final);
        if again {
          InterpretAssembles(p, closed, t2, t2, final);
        }
      }
    } else {
      var sought := Seek(p, st, t2, final);
      if sought.Start? {
        InterpretAssembles(p, OpenAt(sought.st, sought.jsonStart), t2, t2, final);
      }
    }
  }

  /** In every cut of every text, finished or not, concatenating the fragments sent for a call gives
      that call's arguments, and the calls are numbered in order. */
  lemma {:induction false} FragmentsAddUp(p: Parser, texts: seq<string>)
    requires Growing(texts) && texts != []
    ensures var st, text := PushAll(p, texts), texts[|texts| - 1];
      Assembled(p, st, text) && Assembled(p, Finish(p, st, text), text)
    decreases |texts|
  {
    hide Assembled, Push, Finish, Interpret;
    var n := |texts| - 1;
    var before := PushAll(p, texts[..n]);
    var from := if n > 0 then texts[n - 1] else "";
    if n > 0 {
      FragmentsAddUp(p, texts[..n]);
    } else {
      NothingAssembled(p);
    }
    PushAssembles(p, before, from, texts[n]);
    PushAssembles(p, PushAll(p, texts), texts[n], texts[n]);
  }

  lemma PushAssembles(p: Parser, st: Stream, t1: string, t2: string)
    requires t1 <= t2 && Ready(st, t1) && Assembled(p, st, t1) && Ready(st, t2)
    ensures Assembled(p, Push(p, st, t2), t2) && Assembled(p, Finish(p, st, t2), t2)
  {
    InterpretAssembles(p, st, t1, t2, false);
    InterpretAssembles(p, st, t1, t2, true);
  }

  lemma NothingAssembled(p: Parser)
    ensures Assembled(p, INITIAL, "")
  {}
}
