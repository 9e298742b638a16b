// Streaming decoded text up to a stop sequence: what is held back, what is sent, and that nothing at or
// past the stop ever leaves.
module StopSink {
  import opened Options
  import opened KeyScan

  const PARTIAL := '\U{FFFD}'

  predicate AllPartial(t: string, from: nat) {
    forall i :: from <= i < |t| ==> t[i] == PARTIAL
  }

  // Without trailing replacement characters.
  function Stable(t: string): (s: string)
    ensures s <= t && (s != "" ==> s[|s| - 1] != PARTIAL)
    ensures AllPartial(t, |s|)
  {
    if t == "" || t[|t| - 1] != PARTIAL then t else Stable(t[..|t| - 1])
  }

  // Where the earliest stop sequence begins.
  function FirstStop(text: string, stops: seq<string>): (r: Option<nat>)
    ensures r.Some? ==> exists i :: 0 <= i < |stops| && At(text, r.value, stops[i])
    ensures forall i, at :: 0 <= i < |stops| && At(text, at, stops[i]) ==> r.Some? && r.value <= at
    decreases |stops|
  {
    if stops == [] then None
    else
      var here, rest := Find(text, stops[0], 0), FirstStop(text, stops[1..]);
      assert rest.Some? ==> exists i :: 1 <= i < |stops| && At(text, rest.value, stops[i]) by {
        if rest.Some? {
          var i :| 0 <= i < |stops| - 1 && At(text, rest.value, stops[1..][i]);
          assert At(text, rest.value, stops[i + 1]);
        }
      }
      assert forall i, at :: 1 <= i < |stops| && At(text, at, stops[i]) ==> At(text, at, stops[1..][i - 1]);
      if here.Some? && (rest.None? || here.value <= rest.value) then here else rest
  }

  // The length of the longest stop sequence.
  function HoldBack(stops: seq<string>): (h: nat)
    ensures forall i :: 0 <= i < |stops| ==> |stops[i]| <= h
    ensures stops == [] ==> h == 0
    ensures stops != [] ==> exists i :: 0 <= i < |stops| && |stops[i]| == h
  {
    if stops == [] then 0
    else
      var rest := HoldBack(stops[1..]);
      assert forall i :: 1 <= i < |stops| ==> stops[i] == stops[1..][i - 1];
      assert |stops| > 1 ==> exists i :: 1 <= i < |stops| && |stops[i]| == rest by {
        if |stops| > 1 {
          var i :| 0 <= i < |stops[1..]| && |stops[1..][i]| == rest;
          assert |stops[i + 1]| == rest;
        }
      }
      if |stops[0]| > rest then |stops[0]| else rest
  }

  // ---- the sink -------------------------------------------------------------------------------------

  /** `sent` is every delta so far, joined up. */
  datatype Sink = Sink(text: string, emitted: nat, sent: string, stopped: bool, finished: bool)

  const FRESH := Sink("", 0, "", false, false)

  // Slices that, like the original's, are empty past the end.
  function From(text: string, at: nat): string {
    if at <= |text| then text[at..] else ""
  }

  function Between(text: string, a: nat, b: nat): string
    requires a < b ==> b <= |text|
  {
    if a < b then text[a..b] else ""
  }

  // How far it is safe to send.
  function SafeLimit(text: string, emitted: nat, hold: nat): (l: nat)
    ensures emitted <= l && (emitted < l ==> l <= |Stable(text)|)
  {
    var limit := |Stable(text)| as int - hold as int;
    if limit > emitted then limit else emitted
  }

  function Flushed(s: Sink): Sink {
    if s.finished then s
    else s.(sent := s.sent + Stable(From(s.text, s.emitted)), emitted := |s.text|, finished := true)
  }

  // The decoded text is now `text`.
  function PutText(stops: seq<string>, s: Sink, text: string): Sink {
    var at := FirstStop(text, stops);
    if at.Some? then
      var cut := if s.emitted < at.value then s.emitted else at.value;
      Flushed(s.(text := text[..at.value], emitted := cut, stopped := true))
    else
      var limit := SafeLimit(text, s.emitted, HoldBack(stops));
      s.(text := text, sent := s.sent + Between(text, s.emitted, limit), emitted := limit)
  }

  // Text only ever loses a tail of replacement characters.
  predicate Appends(before: string, after: string) {
    Stable(before) <= after
  }

  // A sink that is still going: no stop yet, everything sent is settled, and as much as the longest stop
  // is still held.
  predicate Running(stops: seq<string>, s: Sink) {
    && !s.stopped && !s.finished && FirstStop(s.text, stops).None?
    && s.emitted <= |Stable(s.text)| && s.sent == s.text[..s.emitted]
    && s.emitted == Ahead(s.text, HoldBack(stops))
  }

  // What can have been sent of a text with `hold` characters held back.
  function Ahead(text: string, hold: nat): (n: nat)
    ensures n <= |Stable(text)|
  {
    if |Stable(text)| > hold then |Stable(text)| - hold else 0
  }

  lemma StableGrows(before: string, after: string)
    requires Appends(before, after)
    ensures Stable(before) <= Stable(after)
  {
    var a, b := Stable(before), Stable(after);
    assert a != "" ==> after[|a| - 1] == a[|a| - 1] != PARTIAL;
  }

  // Nothing of a stop that has just completed had been sent.
  lemma StopIsHeld(stops: seq<string>, s: Sink, text: string)
    requires Running(stops, s) && Appends(s.text, text) && FirstStop(text, stops).Some?
    ensures s.emitted <= FirstStop(text, stops).value
    ensures s.emitted > 0 ==> s.emitted < FirstStop(text, stops).value
  {
    var at := FirstStop(text, stops).value;
    var i :| 0 <= i < |stops| && At(text, at, stops[i]);
    var stable := Stable(s.text);
    if at + |stops[i]| <= |stable| {
      assert s.text[at..at + |stops[i]|] == text[at..at + |stops[i]|];
      assert At(s.text, at, stops[i]);
    }
  }

  lemma PutStops(stops: seq<string>, s: Sink, text: string)
    requires Running(stops, s) && Appends(s.text, text) && FirstStop(text, stops).Some?
    ensures s.emitted <= |Stable(text)| && s.emitted <= FirstStop(text, stops).value
    ensures var r, at := PutText(stops, s, text), FirstStop(text, stops).value;
      && r.stopped && r.finished && r.text == text[..at]
      && r.sent == text[..s.emitted] + Stable(text[s.emitted..at]) && |r.sent| <= at && r.sent <= text[..at]
  {
    StableGrows(s.text, text);
    StopIsHeld(stops, s, text);
    hide FirstStop, HoldBack, Ahead, Stable;
    assert s.text[..s.emitted] == text[..s.emitted];
    var at := FirstStop(text, stops).value;
    assert text[..at][s.emitted..] == text[s.emitted..at];
    PrefixJoin(text, s.emitted, at, Stable(text[s.emitted..at]));
  }

  lemma PrefixJoin(text: string, e: nat, at: nat, p: string)
    requires e <= at <= |text| && p <= text[e..at]
    ensures text[..e] + p <= text[..at] && |text[..e] + p| <= at
  {
    assert text[..at] == text[..e] + text[e..at];
  }

  lemma PutGoesOn(stops: seq<string>, s: Sink, text: string)
    requires Running(stops, s) && Appends(s.text, text) && FirstStop(text, stops).None?
    ensures s.emitted <= |Stable(text)|
    ensures Running(stops, PutText(stops, s, text)) && PutText(stops, s, text).text == text
  {
    StableGrows(s.text, text);
    hide FirstStop, HoldBack, Stable, Appends;
    assert s.text[..s.emitted] == text[..s.emitted];
    Extends(text, s.emitted, Ahead(text, HoldBack(stops)));
  }

  lemma Extends(text: string, e: nat, limit: nat)
    requires e <= limit <= |text|
    ensures text[..e] + text[e..limit] == text[..limit]
  {}

  /** One put: either the sink goes on with its promise intact, or it has stopped, and then it has sent
      the text before the stop, what it held back less trailing replacement characters. */
  lemma PutKeepsPromise(stops: seq<string>, s: Sink, text: string)
    requires Running(stops, s) && Appends(s.text, text)
    ensures s.emitted <= |Stable(text)|
    ensures var r := PutText(stops, s, text);
      && (FirstStop(text, stops).None? ==> Running(stops, r) && r.text == text)
      && (FirstStop(text, stops).Some? ==>
            var at := FirstStop(text, stops).value;
            && r.stopped && r.finished && r.text == text[..at] && s.emitted <= at
            && r.sent == text[..s.emitted] + Stable(text[s.emitted..at]) && |r.sent| <= at && r.sent <= text[..at])
  {
    hide FirstStop, HoldBack, Stable, Running, PutText;
    if FirstStop(text, stops).Some? {
      PutStops(stops, s, text);
    } else {
      PutGoesOn(stops, s, text);
    }
  }

  // ---- whole runs ---------------------------------------------------------------------------------------

  predicate Growing(texts: seq<string>) {
    && (texts != [] ==> Appends("", texts[0]))
    && forall i :: 0 <= i < |texts| - 1 ==> Appends(texts[i], texts[i + 1])
  }

  // The puts of a run, ended by its first stop.
  function RunSink(stops: seq<string>, texts: seq<string>): (r: Sink)
    requires Growing(texts)
    ensures r.stopped || Running(stops, r) || (texts == [] && r == FRESH)
    ensures texts != [] && !r.stopped ==> r.text == texts[|texts| - 1] && FirstStop(r.text, stops).None?
    decreases |texts|
  {
    if texts == [] then FRESH
    else
      var n := |texts| - 1;
      var before := RunSink(stops, texts[..n]);
      if before.stopped then before
      else if n == 0 then FirstPut(stops, texts[0]); PutText(stops, FRESH, texts[0])
      else PutKeepsPromise(stops, before, texts[n]); PutText(stops, before, texts[n])
  }

  lemma FirstPut(stops: seq<string>, text: string)
    ensures var r := PutText(stops, FRESH, text);
      && (FirstStop(text, stops).None? ==> Running(stops, r) && r.text == text)
      && (FirstStop(text, stops).Some? ==>
            var at := FirstStop(text, stops).value;
            r.stopped && r.finished && r.text == text[..at] && r.sent == Stable(text[..at]))
  {
    hide FirstStop, HoldBack, Stable;
    var at := FirstStop(text, stops);
    if at.Some? {
      assert text[..at.value][0..] == text[..at.value];
      assert "" + Stable(text[..at.value]) == Stable(text[..at.value]);
    } else {
      assert "" + text[0..SafeLimit(text, 0, HoldBack(stops))] == text[..SafeLimit(text, 0, HoldBack(stops))];
    }
  }

  // The text before the stop, as much of it as had been sent when the stop arrived and the rest without
  // trailing replacement characters.
  function Delivered(text: string, sentFirst: nat): string
    requires sentFirst <= |text|
  {
    text[..sentFirst] + Stable(text[sentFirst..])
  }

  // How much had been sent before the last of these texts arrived.
  function SentBefore(stops: seq<string>, texts: seq<string>): nat
    requires texts != []
  {
    if |texts| == 1 then 0 else Ahead(texts[|texts| - 2], HoldBack(stops))
  }

  /** If the last text is the first to contain a stop, the deltas add up to the text before it less
      trailing replacement characters of what was held, whatever sizes the puts came in, and no character
      at or past the stop's start was ever among them. */
  lemma StopsCleanly(stops: seq<string>, texts: seq<string>)
    requires Growing(texts) && texts != [] && FirstStop(texts[|texts| - 1], stops).Some?
    requires forall i :: 0 <= i < |texts| - 1 ==> FirstStop(texts[i], stops).None?
    ensures var text, at, r := texts[|texts| - 1], FirstStop(texts[|texts| - 1], stops).value, RunSink(stops, texts);
      && r.stopped && r.text == text[..at]
      && SentBefore(stops, texts) <= at && r.sent == Delivered(text[..at], SentBefore(stops, texts))
      && r.sent <= text[..at]
  {
    hide FirstStop, HoldBack, Stable, PutText;
    var n := |texts| - 1;
    var text, at := texts[n], FirstStop(texts[n], stops).value;
    NotStopped(stops, texts[..n]);
    if n == 0 {
      FirstPut(stops, text);
      assert text[..at][..0] == "" && text[..at][0..] == text[..at];
      assert Delivered(text[..at], 0) == Stable(text[..at]);
    } else {
      var before := RunSink(stops, texts[..n]);
      PutKeepsPromise(stops, before, text);
      var e := before.emitted;
      assert text[..at][..e] == text[..e] && text[..at][e..] == text[e..at];
    }
  }

  lemma {:induction false} NotStopped(stops: seq<string>, texts: seq<string>)
    requires Growing(texts) && forall i :: 0 <= i < |texts| ==> FirstStop(texts[i], stops).None?
    ensures !RunSink(stops, texts).stopped
    ensures texts != [] ==> Running(stops, RunSink(stops, texts)) && RunSink(stops, texts).text == texts[|texts| - 1]
    decreases |texts|
  {
    if texts != [] {
      var n := |texts| - 1;
      NotStopped(stops, texts[..n]);
      if n == 0 { FirstPut(stops, texts[0]); } else { PutKeepsPromise(stops, RunSink(stops, texts[..n]), texts[n]); }
    }
  }

  /** A run that ends by itself delivers its whole text the same way. */
  lemma EndsCleanly(stops: seq<string>, texts: seq<string>)
    requires Growing(texts) && texts != [] && forall i :: 0 <= i < |texts| ==> FirstStop(texts[i], stops).None?
    ensures var text, r := texts[|texts| - 1], RunSink(stops, texts);
      && r.emitted == Ahead(text, HoldBack(stops)) && r.emitted <= |r.text| && r.emitted <= |text|
      && Flushed(r).sent == Delivered(text, Ahead(text, HoldBack(stops)))
      && Flushed(r).sent == Stable(text)
  {
    NotStopped(stops, texts);
    var text := texts[|texts| - 1];
    var e := Ahead(text, HoldBack(stops));
    TailOfStable(text, e);
  }

  // Beyond these many characters nothing is held back.
  predicate HeldBy(stops: seq<string>, held: nat) {
    && (stops == [] ==> held == 0)
    && (stops != [] ==>
          exists i :: 0 <= i < |stops| && |stops[i]| == held && forall j :: 0 <= j < |stops| ==> |stops[j]| <= held)
  }

  /** While it goes on, a client has been sent everything settled but as many characters as the longest stop
      sequence has, and everything settled when there is none. */
  lemma SentSoFar(stops: seq<string>, texts: seq<string>, held: nat)
    requires Growing(texts) && texts != [] && (forall i :: 0 <= i < |texts| ==> FirstStop(texts[i], stops).None?)
    requires HeldBy(stops, held)
    ensures var settled, r := Stable(texts[|texts| - 1]), RunSink(stops, texts);
      !r.stopped && !r.finished && r.sent == if |settled| > held then settled[..|settled| - held] else ""
  {
    NotStopped(stops, texts);
    LongestIs(stops, held);
    hide FirstStop, HoldBack, RunSink;
    assert RunSink(stops, texts).text == texts[|texts| - 1];
  }

  lemma LongestIs(stops: seq<string>, held: nat)
    requires HeldBy(stops, held)
    ensures HoldBack(stops) == held
  {}

  // ---- replacement characters in the text itself ------------------------------------------------------------

  lemma {:induction false} StableJoin(head: string, tail: string)
    ensures Stable(head + tail) == if Stable(tail) != "" then head + Stable(tail) else Stable(head)
    decreases |tail|
  {
    if tail == "" {
      assert head + tail == head;
    } else {
      var n := |tail| - 1;
      assert (head + tail)[..|head + tail| - 1] == head + tail[..n];
      StableJoin(head, tail[..n]);
    }
  }

  lemma StableOfSplit(text: string, e: nat)
    requires e <= |text|
    ensures Stable(text[e..]) != "" ==> Delivered(text, e) == Stable(text)
    ensures Stable(text[e..]) == "" ==> Delivered(text, e) == text[..e] && Stable(text) == Stable(text[..e])
  {
    hide Stable;
    StableJoin(text[..e], text[e..]);
    assert text[..e] + text[e..] == text;
  }

  lemma NothingSettled(text: string, e: nat)
    requires e <= |text|
    ensures Stable(text[e..]) == "" <==> AllPartial(text, e)
  {
    var tail := text[e..];
    if Stable(tail) == "" {
      forall i | e <= i < |text| ensures text[i] == PARTIAL { assert tail[i - e] == PARTIAL; }
    } else {
      var k := |Stable(tail)| - 1;
      assert tail[k] == text[e + k];
    }
  }

  lemma TailOfStable(text: string, e: nat)
    requires e <= |Stable(text)|
    ensures Delivered(text, e) == Stable(text)
  {
    StableOfSplit(text, e);
    var k := |Stable(text)| - 1;
    assert e <= k ==> text[e..][k - e] == text[k] != PARTIAL;
    assert text[..|Stable(text)|] == Stable(text);
  }

  /** What is delivered is the text without its trailing replacement characters, unless the part sent
      early already ended in one and only such characters followed. */
  lemma DeliveredExactly(text: string, e: nat)
    requires e <= |text|
    ensures Delivered(text, e) == Stable(text)
       <==> !(e > 0 && text[e - 1] == PARTIAL && AllPartial(text, e))
  {
    hide Stable, Delivered, AllPartial;
    StableOfSplit(text, e);
    NothingSettled(text, e);
    EndsSettled(text[..e]);
  }

  lemma EndsSettled(text: string)
    ensures Stable(text) == text <==> !(text != "" && text[|text| - 1] == PARTIAL)
  {}

  /** Which can happen: here one such character is sent before the stop is seen. */
  lemma PartialLeftIn()
    ensures var early, late := ['a', PARTIAL, PARTIAL, 'S', 'T', 'O'], ['a', PARTIAL, PARTIAL, 'S', 'T', 'O', 'P'];
      && Growing([early, late])
      && RunSink(["STOP"], [early, late]).sent == ['a', PARTIAL] != Stable(late[..3]) == ['a']
  {
    var early, late := ['a', PARTIAL, PARTIAL, 'S', 'T', 'O'], ['a', PARTIAL, PARTIAL, 'S', 'T', 'O', 'P'];
    var stops, texts := ["STOP"], [early, late];
    assert Stable(early) == early && Stable("") == "";
    assert stops[1..] == [] && HoldBack(stops) == 4;
    forall i | 0 <= i < 3 ensures !At(late, i, "STOP") && !At(early, i, "STOP") {
      Differs(late, i, "STOP", 0);
      Differs(early, i, "STOP", 0);
    }
    assert late[3..7] == "STOP";
    FindIs(late, "STOP", 0, 3);
    assert FirstStop(late, stops) == Some(3);
    assert FirstStop(early, stops) == None;
    StopsCleanly(stops, texts);
    LeftIn();
    assert late[..3] == ['a', PARTIAL, PARTIAL];
  }

  lemma LeftIn()
    ensures Delivered(['a', PARTIAL, PARTIAL], 2) == ['a', PARTIAL] && Stable(['a', PARTIAL, PARTIAL]) == ['a']
  {
    var t := ['a', PARTIAL, PARTIAL];
    assert t[2..] == [PARTIAL] && [PARTIAL][..0] == "" && Stable([PARTIAL]) == Stable("") == "";
    assert t[..2] == ['a', PARTIAL] && ['a', PARTIAL][..1] == ['a'];
    assert Stable(['a']) == ['a'] && Stable(['a', PARTIAL]) == Stable(['a']) && Stable(t) == Stable(t[..2]);
  }

  // A tokenizer whose text for more tokens only ever loses a tail of replacement characters.
  ghost predicate AppendsOnly(decode: seq<nat> -> string) {
    decode([]) == "" && forall segment, ids :: Stable(decode(segment)) <= decode(segment + ids)
  }

  /** With such a tokenizer the decoder's text grows as the sink needs it to, newlines committed or not. */
  lemma DecoderAppends(decode: seq<nat> -> string, committed: string, segment: seq<nat>, ids: seq<nat>)
    requires AppendsOnly(decode)
    ensures Appends(committed + decode(segment), committed + decode(segment + ids))
  {
    var text, d := committed + decode(segment), decode(segment);
    assert text[..|committed|] == committed && text[|committed|..] == d;
    StableOfSplit(text, |committed|);
    assert Stable(d) <= decode(segment + ids);
    if Stable(d) == "" {
      assert Stable(committed) <= committed;
    }
  }

  // ---- the decoder --------------------------------------------------------------------------------------------

  // A newline is a boundary nothing is rendered across.
  predicate EndsLine(t: string) {
    t != "" && t[|t| - 1] == '\n'
  }

  // What the decoder has committed, and the tokens it still decodes together.
  datatype Decoded = Decoded(committed: string, segment: seq<nat>)

  function DecodeMore(decode: seq<nat> -> string, d: Decoded, ids: seq<nat>): Decoded {
    var line := decode(d.segment + ids);
    if EndsLine(line) then Decoded(d.committed + line, []) else Decoded(d.committed, d.segment + ids)
  }

  function TextOf(decode: seq<nat> -> string, d: Decoded): string {
    d.committed + decode(d.segment)
  }

  // The decoder after some steps' tokens, and the text there was after each step that brought any.
  function DecodeAll(decode: seq<nat> -> string, steps: seq<seq<nat>>): Decoded {
    if steps == [] then Decoded("", [])
    else
      var before, ids := DecodeAll(decode, steps[..|steps| - 1]), steps[|steps| - 1];
      if ids == [] then before else DecodeMore(decode, before, ids)
  }

  function TextsOf(decode: seq<nat> -> string, steps: seq<seq<nat>>): seq<string> {
    if steps == [] then []
    else
      var before, ids := steps[..|steps| - 1], steps[|steps| - 1];
      TextsOf(decode, before)
        + if ids == [] then [] else [TextOf(decode, DecodeMore(decode, DecodeAll(decode, before), ids))]
  }

  lemma MoreText(decode: seq<nat> -> string, d: Decoded, ids: seq<nat>)
    requires AppendsOnly(decode)
    ensures TextOf(decode, DecodeMore(decode, d, ids)) == d.committed + decode(d.segment + ids)
    ensures Appends(TextOf(decode, d), TextOf(decode, DecodeMore(decode, d, ids)))
  {
    DecoderAppends(decode, d.committed, d.segment, ids);
    hide Appends;
    var line := decode(d.segment + ids);
    assert d.committed + line + "" == d.committed + line;
  }

  /** Whatever pieces the tokens come in, the texts are ones the sink can be given. */
  lemma {:induction false} TextsGrow(decode: seq<nat> -> string, steps: seq<seq<nat>>)
    requires AppendsOnly(decode)
    ensures var texts := TextsOf(decode, steps);
      && Growing(texts)
      && TextOf(decode, DecodeAll(decode, steps)) == if texts == [] then "" else texts[|texts| - 1]
    decreases |steps|
  {
    hide Appends, AppendsOnly, DecodeMore;
    if steps == [] {
      NothingDecoded(decode);
    } else {
      var before, ids := steps[..|steps| - 1], steps[|steps| - 1];
      TextsGrow(decode, before);
      MoreText(decode, DecodeAll(decode, before), ids);
      if ids != [] {
        GrowsBy(TextsOf(decode, before), TextOf(decode, DecodeMore(decode, DecodeAll(decode, before), ids)));
      }
    }
  }

  lemma NothingDecoded(decode: seq<nat> -> string)
    requires AppendsOnly(decode)
    ensures TextOf(decode, Decoded("", [])) == "" && Appends("", "")
  {}

  lemma GrowsBy(texts: seq<string>, text: string)
    requires Growing(texts) && Appends(if texts == [] then "" else texts[|texts| - 1], text)
    ensures Growing(texts + [text])
  {
    hide Appends;
  }

  function Flat(pieces: seq<seq<nat>>): seq<nat> {
    if pieces == [] then [] else Flat(pieces[..|pieces| - 1]) + pieces[|pieces| - 1]
  }

  function LinesText(decode: seq<nat> -> string, lines: seq<seq<nat>>): string {
    if lines == [] then "" else LinesText(decode, lines[..|lines| - 1]) + decode(lines[|lines| - 1])
  }

  // All tokens so far, cut after those on which the decoded piece ended a line and nowhere else a step ended.
  predicate CutInLines(decode: seq<nat> -> string, steps: seq<seq<nat>>, lines: seq<seq<nat>>) {
    var d := DecodeAll(decode, steps);
    && Flat(steps) == Flat(lines) + d.segment
    && d.committed == LinesText(decode, lines)
    && (forall i :: 0 <= i < |lines| ==> EndsLine(decode(lines[i])))
    && (d.segment != [] ==> !EndsLine(decode(d.segment)))
  }

  /** The text is the decoded pieces joined up, each of them but the last one ending a line: what came before a
      newline is never decoded again. */
  lemma {:induction false} DecodedInLines(decode: seq<nat> -> string, steps: seq<seq<nat>>) returns (lines: seq<seq<nat>>)
    ensures CutInLines(decode, steps, lines)
    ensures TextOf(decode, DecodeAll(decode, steps)) == LinesText(decode, lines) + decode(DecodeAll(decode, steps).segment)
    decreases |steps|
  {
    if steps == [] {
      lines := [];
    } else {
      hide CutInLines, EndsLine;
      var before, ids := steps[..|steps| - 1], steps[|steps| - 1];
      lines := DecodedInLines(decode, before);
      StepInLines(decode, steps, lines);
      if ids != [] && EndsLine(decode(DecodeAll(decode, before).segment + ids)) {
        lines := lines + [DecodeAll(decode, before).segment + ids];
      }
      LinesAre(decode, steps, lines);
    }
  }

  lemma LinesAre(decode: seq<nat> -> string, steps: seq<seq<nat>>, lines: seq<seq<nat>>)
    requires CutInLines(decode, steps, lines)
    ensures DecodeAll(decode, steps).committed == LinesText(decode, lines)
  {}

  lemma StepInLines(decode: seq<nat> -> string, steps: seq<seq<nat>>, lines: seq<seq<nat>>)
    requires steps != [] && CutInLines(decode, steps[..|steps| - 1], lines)
    ensures var d, ids := DecodeAll(decode, steps[..|steps| - 1]), steps[|steps| - 1];
      CutInLines(decode, steps, if ids != [] && EndsLine(decode(d.segment + ids)) then lines + [d.segment + ids] else lines)
  {
    hide EndsLine, LinesText;
    var d, ids := DecodeAll(decode, steps[..|steps| - 1]), steps[|steps| - 1];
    assert Flat(steps) == (Flat(lines) + d.segment) + ids == Flat(lines) + (d.segment + ids);
    if ids == [] {
      assert d.segment + ids == d.segment;
    } else if EndsLine(decode(d.segment + ids)) {
      LineMore(decode, lines, d.segment + ids);
      assert Flat(lines + [d.segment + ids]) + [] == Flat(lines + [d.segment + ids]);
    }
  }

  lemma LineMore(decode: seq<nat> -> string, lines: seq<seq<nat>>, line: seq<nat>)
    ensures LinesText(decode, lines + [line]) == LinesText(decode, lines) + decode(line)
    ensures Flat(lines + [line]) == Flat(lines) + line
  {
    assert (lines + [line])[..|lines|] == lines;
  }

  lemma RunStep(stops: seq<string>, texts: seq<string>, text: string)
    requires Growing(texts) && Growing(texts + [text]) && !RunSink(stops, texts).stopped
    ensures RunSink(stops, texts + [text]) == PutText(stops, RunSink(stops, texts), text)
  {
    hide PutText, FirstStop, Appends;
    assert (texts + [text])[..|texts|] == texts;
  }

  // None of these texts has a stop.
  predicate GoesOn(stops: seq<string>, texts: seq<string>) {
    forall i :: 0 <= i < |texts| ==> FirstStop(texts[i], stops).None?
  }

  /** What a client has been sent once a run is over: the text before the first stop, as `StopsCleanly` has
      it, or the whole text without trailing replacement characters. */
  predicate SentAll(stops: seq<string>, texts: seq<string>, s: Sink) {
    if s.stopped then
      && texts != [] && GoesOn(stops, texts[..|texts| - 1])
      && var text, at := texts[|texts| - 1], FirstStop(texts[|texts| - 1], stops);
        && at.Some? && at.value <= |text| && SentBefore(stops, texts) <= at.value
        && s.sent == Delivered(text[..at.value], SentBefore(stops, texts)) && s.sent <= text[..at.value]
    else GoesOn(stops, texts) && s.sent == if texts == [] then "" else Stable(texts[|texts| - 1])
  }

  lemma RunEnds(stops: seq<string>, texts: seq<string>)
    requires Growing(texts) && GoesOn(stops, texts)
    ensures !RunSink(stops, texts).stopped && !RunSink(stops, texts).finished
    ensures SentAll(stops, texts, Flushed(RunSink(stops, texts)))
  {
    NotStopped(stops, texts);
    if texts != [] { EndsCleanly(stops, texts); }
    hide FirstStop, HoldBack, RunSink;
  }

  lemma RunStops(stops: seq<string>, texts: seq<string>, text: string)
    requires Growing(texts + [text]) && GoesOn(stops, texts) && FirstStop(text, stops).Some?
    ensures RunSink(stops, texts + [text]).stopped && RunSink(stops, texts + [text]).finished
    ensures SentAll(stops, texts + [text], RunSink(stops, texts + [text]))
  {
    var all := texts + [text];
    assert all[..|texts|] == texts;
    hide RunSink, PutText, FirstStop, HoldBack, SafeLimit, Stable;
    StopsCleanly(stops, all);
    StoppedIsFinished(stops, all);
  }

  lemma {:induction false} StoppedIsFinished(stops: seq<string>, texts: seq<string>)
    requires Growing(texts) && RunSink(stops, texts).stopped
    ensures RunSink(stops, texts).finished
    decreases |texts|
  {
    hide FirstStop, HoldBack, Stable, SafeLimit;
    if texts != [] && RunSink(stops, texts[..|texts| - 1]).stopped {
      StoppedIsFinished(stops, texts[..|texts| - 1]);
    }
  }

  function Tokens(steps: seq<seq<nat>>): nat {
    if steps == [] then 0 else Tokens(steps[..|steps| - 1]) + |steps[|steps| - 1]|
  }

  // The sink, the decoder and the token count after some steps, none of which completed a stop.
  ghost predicate Streaming(decode: seq<nat> -> string, stops: seq<string>, steps: seq<seq<nat>>, s: Sink, line: Decoded,
                            count: nat) {
    var texts := TextsOf(decode, steps);
    && Growing(texts) && GoesOn(stops, texts) && s == RunSink(stops, texts)
    && line == DecodeAll(decode, steps) && count == Tokens(steps)
  }

  lemma NothingStreamed(decode: seq<nat> -> string, stops: seq<string>)
    ensures Streaming(decode, stops, [], FRESH, Decoded("", []), 0)
  {}

  lemma StreamStep(decode: seq<nat> -> string, stops: seq<string>, steps: seq<seq<nat>>, ids: seq<nat>, s: Sink,
                   line: Decoded, count: nat, s2: Sink, line2: Decoded)
    requires AppendsOnly(decode) && Streaming(decode, stops, steps, s, line, count)
    requires ids == [] ==> s2 == s && line2 == line
    requires ids != [] ==>
      && s2 == PutText(stops, s, line.committed + decode(line.segment + ids))
      && line2 == DecodeMore(decode, line, ids)
    ensures var text, all := line.committed + decode(line.segment + ids), steps + [ids];
      if ids != [] && FirstStop(text, stops).Some?
      then s2.stopped && s2.finished && SentAll(stops, TextsOf(decode, all), s2) && count + |ids| == Tokens(all)
      else Streaming(decode, stops, all, s2, line2, count + |ids|)
  {
    hide AppendsOnly, PutText, FirstStop, DecodeMore, SentAll, RunSink, TextOf, Growing, GoesOn, TextsOf, DecodeAll,
      Tokens;
    var texts, all := TextsOf(decode, steps), steps + [ids];
    AllButLast(decode, steps, ids);
    TextsGrow(decode, all);
    if ids != [] {
      var text := line.committed + decode(line.segment + ids);
      MoreText(decode, line, ids);
      RunEnds(stops, texts);
      RunStep(stops, texts, text);
      if FirstStop(text, stops).Some? { RunStops(stops, texts, text); } else { GoesOnMore(stops, texts, text); }
    }
  }

  lemma AllButLast(decode: seq<nat> -> string, steps: seq<seq<nat>>, ids: seq<nat>)
    ensures var all, before := steps + [ids], DecodeAll(decode, steps);
      && Tokens(all) == Tokens(steps) + |ids|
      && DecodeAll(decode, all) == (if ids == [] then before else DecodeMore(decode, before, ids))
      && (ids == [] ==> TextsOf(decode, all) == TextsOf(decode, steps))
      && (ids != [] ==> TextsOf(decode, all) == TextsOf(decode, steps) + [TextOf(decode, DecodeMore(decode, before, ids))])
  {
    hide DecodeMore, TextOf;
    assert (steps + [ids])[..|steps|] == steps;
  }

  lemma GoesOnMore(stops: seq<string>, texts: seq<string>, text: string)
    requires GoesOn(stops, texts) && FirstStop(text, stops).None?
    ensures GoesOn(stops, texts + [text])
  {
    hide FirstStop;
  }

  lemma StreamEnds(decode: seq<nat> -> string, stops: seq<string>, steps: seq<seq<nat>>, s: Sink, line: Decoded, count: nat)
    requires Streaming(decode, stops, steps, s, line, count)
    ensures !s.stopped && !Flushed(s).stopped && Flushed(s).finished && SentAll(stops, TextsOf(decode, steps), Flushed(s))
    ensures count == Tokens(steps)
  {
    hide RunSink, SentAll, FirstStop, Growing;
    RunEnds(stops, TextsOf(decode, steps));
  }

  // ---- the objects ----------------------------------------------------------------------------------------

  /** Token ids in, printable text out. `decode` is the tokenizer. */
  class StreamDecoder {
    const decode: seq<nat> -> string
    const holdBack: nat
    var committed: string
    var segment: seq<nat>
    var text: string
    var emitted: nat

    constructor (decode: seq<nat> -> string, holdBack: nat)
      ensures this.decode == decode && this.holdBack == holdBack
      ensures committed == "" && segment == [] && text == "" && emitted == 0
    {
      this.decode, this.holdBack := decode, holdBack;
      committed, segment, text, emitted := "", [], "", 0;
    }

    method Push(ids: seq<nat>)
      modifies this`committed, this`segment, this`text
      ensures text == old(committed) + decode(old(segment) + ids)
      ensures var decoded := decode(old(segment) + ids);
        && committed == (if EndsLine(decoded) then text else old(committed))
        && segment == if EndsLine(decoded) then [] else old(segment) + ids
    {
      segment := segment + ids;
      var decoded := decode(segment);
      if EndsLine(decoded) {
        committed := committed + decoded;
        segment := [];
        decoded := "";
      }
      text := committed + decoded;
    }

    // The next chunk that is safe to send.
    method Take() returns (chunk: string)
      modifies this`emitted
      ensures emitted == SafeLimit(text, old(emitted), holdBack) && chunk == Between(text, old(emitted), emitted)
    {
      var limit: int := |text|;
      while limit > emitted && text[limit - 1] == PARTIAL
        invariant |Stable(text)| <= limit <= |text| && text == old(text) && emitted == old(emitted)
      {
        limit := limit - 1;
      }
      assert limit <= emitted || limit == |Stable(text)|;
      limit := limit - holdBack;
      if limit < emitted {
        limit := emitted;
      }
      chunk := Between(text, emitted, limit);
      emitted := limit;
    }

    method Flush() returns (chunk: string)
      modifies this`emitted
      ensures chunk == Stable(From(text, old(emitted))) && emitted == |text|
    {
      chunk := Stable(From(text, emitted));
      emitted := |text|;
    }

    method Truncate(length: nat)
      requires length <= |text|
      modifies this`text, this`emitted
      ensures text == old(text[..length]) && emitted == if old(emitted) < length then old(emitted) else length
    {
      text := text[..length];
      if |text| < emitted {
        emitted := |text|;
      }
    }
  }

  /** The streamer a generation writes its tokens to, for a request without tools. */
  class Streamer {
    const stops: seq<string>
    const decoder: StreamDecoder
    var promptSeen: bool
    var tokenCount: nat
    var stopped: bool
    var finished: bool
    var deltas: seq<string>

    function Joined(ds: seq<string>): string {
      if ds == [] then "" else Joined(ds[..|ds| - 1]) + ds[|ds| - 1]
    }

    function State(): Sink
      reads this, decoder
    {
      Sink(decoder.text, decoder.emitted, Joined(deltas), stopped, finished)
    }

    constructor (stops: seq<string>, decode: seq<nat> -> string)
      ensures this.stops == stops && fresh(decoder) && decoder.decode == decode && decoder.holdBack == HoldBack(stops)
      ensures decoder.committed == "" && decoder.segment == [] && State() == FRESH && !promptSeen && tokenCount == 0
    {
      this.stops := stops;
      decoder := new StreamDecoder(decode, HoldBack(stops));
      promptSeen, tokenCount, stopped, finished, deltas := false, 0, false, false, [];
    }

    method Send(text: string)
      modifies this`deltas
      ensures Joined(deltas) == Joined(old(deltas)) + text
    {
      if text != "" {
        deltas := deltas + [text];
        assert deltas[..|deltas| - 1] == old(deltas);
      } else {
        assert Joined(deltas) + "" == Joined(deltas);
      }
    }

    function Line(): Decoded
      reads decoder
    {
      Decoded(decoder.committed, decoder.segment)
    }

    // The text a put will leave the decoder with.
    function NextText(ids: seq<nat>): string
      reads this, decoder
    {
      decoder.committed + decoder.decode(decoder.segment + ids)
    }

    /** One step's tokens; the first call brings the prompt and is dropped. Says whether to stop generating. */
    method Put(ids: seq<nat>) returns (stop: bool)
      requires decoder.holdBack == HoldBack(stops)
      modifies this, decoder
      ensures promptSeen && (stop <==> old(promptSeen) && ids != [] && FirstStop(old(NextText(ids)), stops).Some?)
      ensures tokenCount == old(tokenCount) + (if old(promptSeen) then |ids| else 0)
      ensures old(promptSeen) && ids != [] ==>
        State() == PutText(stops, old(State()), old(NextText(ids)))
          && Line() == DecodeMore(decoder.decode, old(Line()), ids)
      ensures !old(promptSeen) || ids == [] ==> State() == old(State()) && Line() == old(Line())
    {
      hide FirstStop, HoldBack, Stable, SafeLimit;
      if !promptSeen {
        promptSeen := true;
        return false;
      }
      if ids == [] {
        return false;
      }
      tokenCount := tokenCount + |ids|;
      decoder.Push(ids);
      var at := FirstStop(decoder.text, stops);
      if at.Some? {
        decoder.Truncate(at.value);
        stopped := true;
        End();
        return true;
      }
      var chunk := decoder.Take();
      Send(chunk);
      return false;
    }

    // Flush what is held, once.
    method End()
      modifies this`finished, this`deltas, decoder`emitted
      ensures State() == Flushed(old(State()))
    {
      if finished {
        return;
      }
      finished := true;
      var chunk := decoder.Flush();
      Send(chunk);
    }

    /** What both generation loops do with a streamer: the prompt, each step's tokens until one completes a
        stop, then the end. Whatever pieces the tokens come in, a client is sent exactly what it should be. */
    method Deliver(prompt: seq<nat>, steps: seq<seq<nat>>) returns (n: nat)
      requires State() == FRESH && !promptSeen && Line() == Decoded("", []) && tokenCount == 0
      requires decoder.holdBack == HoldBack(stops) && AppendsOnly(decoder.decode)
      modifies this, decoder
      ensures n <= |steps| && finished && (!stopped ==> n == |steps|)
      ensures SentAll(stops, TextsOf(decoder.decode, steps[..n]), State())
      ensures tokenCount == Tokens(steps[..n])
    {
      hide AppendsOnly, PutText, FirstStop, SentAll, Streaming, Flushed, DecodeMore, TextsOf, Tokens, HoldBack;
      var _ := Put(prompt);
      n := 0;
      NothingStreamed(decoder.decode, stops);
      while n < |steps|
        invariant 0 <= n <= |steps| && promptSeen
        invariant Streaming(decoder.decode, stops, steps[..n], State(), Line(), tokenCount)
      {
        ghost var s, line, count := State(), Line(), tokenCount;
        assert steps[..n + 1] == steps[..n] + [steps[n]];
        var stop := Put(steps[n]);
        StreamStep(decoder.decode, stops, steps[..n], steps[n], s, line, count, State(), Line());
        n := n + 1;
        if stop {
          return;
        }
      }
      assert steps[..n] == steps;
      StreamEnds(decoder.decode, stops, steps, State(), Line(), tokenCount);
      End();
    }
  }
}
