// Where one JSON value starts and ends inside a text that is still growing.
module ValueSpan {
  import opened Options

  /** The scanner's state: `end` is None until the value has closed. */
  datatype Span = Span(start: nat, end: Option<nat>, pos: nat, depth: int, inString: bool, escape: bool)

  function NewSpan(start: nat): Span {
    Span(start, None, start, 0, false, false)
  }

  // One character, read at `s.pos`.
  function StepChar(s: Span, c: char): Span {
    if s.inString then
      if s.escape then s.(escape := false, pos := s.pos + 1)
      else if c == '\\' then s.(escape := true, pos := s.pos + 1)
      else if c == '"' then
        if s.depth == 0 then s.(inString := false, end := Some(s.pos + 1), pos := s.pos + 1)
        else s.(inString := false, pos := s.pos + 1)
      else s.(pos := s.pos + 1)
    else if c == '"' then s.(inString := true, pos := s.pos + 1)
    else if c == '{' || c == '[' then s.(depth := s.depth + 1, pos := s.pos + 1)
    else if c == '}' || c == ']' then
      if s.depth == 1 then s.(depth := 0, end := Some(s.pos + 1), pos := s.pos + 1)
      else if s.depth < 1 then s.(depth := s.depth - 1, end := Some(s.pos))
      else s.(depth := s.depth - 1, pos := s.pos + 1)
    else if c == ',' && s.depth == 0 then s.(end := Some(s.pos))
    else s.(pos := s.pos + 1)
  }

  // The characters of `chunk`, until the value closes.
  function Feed(s: Span, chunk: string): (r: Span)
    ensures r.start == s.start && s.pos <= r.pos <= s.pos + |chunk|
    ensures s.end.None? && r.end.Some? ==> r.end.value == r.pos
    ensures s.end.None? && r.end.None? ==> r.pos == s.pos + |chunk|
    decreases |chunk|
  {
    if chunk == [] || s.end.Some? then s else Feed(StepChar(s, chunk[0]), chunk[1..])
  }

  function Advance(s: Span, text: string): (r: Span)
    ensures r.start == s.start && s.pos <= r.pos
    ensures s.pos <= |text| ==> r.pos <= |text|
    ensures s.end.None? && r.end.Some? && s.pos <= |text| ==> r.end.value == r.pos
    ensures s.end.None? && r.end.None? && s.pos <= |text| ==> r.pos == |text|
  {
    if s.end.Some? || |text| < s.pos then s else Feed(s, text[s.pos..])
  }

  function Slice(s: Span, text: string): string
    requires s.start <= |text| && (s.end.Some? ==> s.start <= s.end.value <= |text|)
  {
    text[s.start..if s.end.Some? then s.end.value else |text|]
  }

  lemma {:induction false} FeedConcat(s: Span, a: string, b: string)
    ensures Feed(s, a + b) == Feed(Feed(s, a), b)
    decreases |a|
  {
    if a == [] {
      assert a + b == b;
    } else if s.end.None? {
      assert (a + b)[1..] == a[1..] + b;
      FeedConcat(StepChar(s, a[0]), a[1..], b);
    }
  }

  // Resuming costs nothing: scanning a prefix first leaves the scanner where scanning the whole does.
  lemma AdvanceResumes(s: Span, t1: string, t2: string)
    requires t1 <= t2 && s.pos <= |t1|
    ensures Advance(Advance(s, t1), t2) == Advance(s, t2)
  {
    var r := Advance(s, t1);
    if s.end.None? {
      var a, b := t1[s.pos..], t2[|t1|..];
      assert t2[s.pos..] == a + b;
      FeedConcat(s, a, b);
      if r.end.Some? {
        FeedClosed(r, b);
      }
    }
  }

  lemma FeedNothing(s: Span)
    ensures Feed(s, "") == s
  {}

  lemma FeedClosed(s: Span, chunk: string)
    requires s.end.Some?
    ensures Feed(s, chunk) == s
  {}

  lemma FeedStep(s: Span, text: string, index: nat)
    requires s.end.None? && index < |text|
    ensures Feed(s, text[index..]) == Feed(StepChar(s, text[index]), text[index + 1..])
  {
    hide StepChar;
    assert text[index..][1..] == text[index + 1..];
  }

  // A closed value does not reopen however much text follows.
  lemma ClosedIsFinal(s: Span, t1: string, t2: string)
    requires t1 <= t2 && s.pos <= |t1| && Advance(s, t1).end.Some?
    ensures Advance(s, t2) == Advance(s, t1)
  {
    AdvanceResumes(s, t1, t2);
  }

  // Until it closes, what has arrived of a value is a prefix of what it will be.
  lemma SliceGrows(s: Span, t1: string, t2: string)
    requires t1 <= t2 && s.pos <= |t1| && s.start <= s.pos && (s.end.Some? ==> s.end.value == s.pos)
    ensures Slice(Advance(s, t1), t1) <= Slice(Advance(s, t2), t2)
  {
    AdvanceResumes(s, t1, t2);
  }

  // An object or array at depth d > 0 stays below its closing character until that character.
  lemma {:induction false} OpenStaysOpen(s: Span, chunk: string)
    requires s.end.None? && s.depth >= 1
    ensures var r := Feed(s, chunk);
      && (r.end.None? ==> r.depth >= 1)
      && (r.end.Some? ==> s.pos < r.pos && !r.inString && chunk[r.pos - 1 - s.pos] in "}]")
    decreases |chunk|
  {
    if chunk != [] {
      var s' := StepChar(s, chunk[0]);
      if s'.end.None? {
        OpenStaysOpen(s', chunk[1..]);
      } else {
        FeedClosed(s', chunk[1..]);
      }
    }
  }

  /** The scanner as the object the stream keeps: its fields move forward as text arrives. */
  class Tracker {
    const start: nat
    var end: Option<nat>
    var pos: nat
    var depth: int
    var inString: bool
    var escape: bool

    function State(): Span
      reads this
    {
      Span(start, end, pos, depth, inString, escape)
    }

    constructor (start: nat)
      ensures State() == NewSpan(start)
    {
      this.start := start;
      end, pos, depth, inString, escape := None, start, 0, false, false;
    }

    method Scan(text: string)
      requires pos <= |text|
      modifies this
      ensures State() == Advance(old(State()), text)
    {
      hide Feed;
      if end.Some? {
        return;
      }
      var index := pos;
      ghost var s0 := State();
      ghost var s := s0;
      assert text[pos..pos] == [];
      while index < |text|
        invariant s0.pos <= index <= |text| && end.None? && pos == s0.pos
        invariant s == Span(start, None, index, depth, inString, escape)
        invariant Feed(s0, text[s0.pos..]) == Feed(s, text[index..])
      {
        var c := text[index];
        FeedStep(s, text, index);
        s := StepChar(s, c);
        if inString {
          if escape {
            escape := false;
          } else if c == '\\' {
            escape := true;
          } else if c == '"' {
            inString := false;
            if depth == 0 {
              end, pos := Some(index + 1), index + 1;
              FeedClosed(s, text[index + 1..]);
              return;
            }
          }
        } else if c == '"' {
          inString := true;
        } else if c in "{[" {
          depth := depth + 1;
        } else if c in "}]" {
          depth := depth - 1;
          if depth == 0 {
            end, pos := Some(index + 1), index + 1;
            FeedClosed(s, text[index + 1..]);
            return;
          }
          if depth < 0 {
            end, pos := Some(index), index;
            FeedClosed(s, text[index + 1..]);
            return;
          }
        } else if c == ',' && depth == 0 {
          end, pos := Some(index), index;
          FeedClosed(s, text[index + 1..]);
          return;
        }
        index := index + 1;
      }
      pos := index;
      FeedNothing(s);
    }
  }
}
