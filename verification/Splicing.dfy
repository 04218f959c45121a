/**
 Replacing attachment tags in a prompt one after the other, with a running offset
 (github/index.ts, the download loop of getUserPrompt). Downloads succeed or fail as given.
 */
module Splicing {

  /** A found tag; url "" stands for a missing capture group. */
  datatype Match = Match(index: nat, tag: string, url: string, filename: string, downloaded: bool)

  datatype PromptFile = PromptFile(filename: string, start: nat, end: nat, replacement: string)

  function Clamp(k: int, n: nat): (r: nat)
    ensures r <= n
    ensures 0 <= k <= n ==> r == k
  {
    if k < 0 then (if n + k < 0 then 0 else n + k) else if k > n then n else k
  }

  /** String.prototype.slice */
  function Slice(s: string, from: int, to: int): string {
    var a, b := Clamp(from, |s|), Clamp(to, |s|);
    if a < b then s[a..b] else ""
  }

  /** Negative positions count from the end, and those out of range are moved to the nearer end. */
  lemma SliceFromEnd(s: string, k: nat)
    ensures Slice(s, 0 - k, |s|) == if k == 0 || k >= |s| then s else s[|s| - k..]
    ensures Slice(s, 0, 0 - k) == if 0 < k < |s| then s[..|s| - k] else ""
    ensures Slice(s, 0, |s| + k) == s && Slice(s, |s| + k, |s|) == ""
  {
  }

  predicate Replaced(m: Match) {
    m.url != "" && m.downloaded
  }

  function Replacement(m: Match): string {
    "@" + m.filename
  }

  /** The assignment to prompt for one downloaded match. */
  function SpliceOne(prompt: string, offset: int, m: Match): string {
    Slice(prompt, 0, m.index + offset) + Replacement(m) + Slice(prompt, m.index + offset + |m.tag|, |prompt|)
  }

  function Growth(m: Match): int {
    if Replaced(m) then |Replacement(m)| - |m.tag| else 0
  }

  function Spliced(prompt: string, offset: int, m: Match): string {
    if Replaced(m) then SpliceOne(prompt, offset, m) else prompt
  }

  /** The loop from match i on. */
  function SpliceFrom(prompt: string, offset: int, matches: seq<Match>, i: nat): string
    requires i <= |matches|
    decreases |matches| - i
  {
    if i == |matches| then prompt
    else SpliceFrom(Spliced(prompt, offset, matches[i]), offset + Growth(matches[i]), matches, i + 1)
  }

  /** What is recorded for a replaced match: positions without the offset. */
  function FileOf(m: Match): PromptFile {
    PromptFile(m.filename, m.index, m.index + |Replacement(m)|, Replacement(m))
  }

  /** The records of the first i matches. */
  function Recorded(matches: seq<Match>, i: nat): seq<PromptFile>
    requires i <= |matches|
  {
    if i == 0 then []
    else Recorded(matches, i - 1) + (if Replaced(matches[i - 1]) then [FileOf(matches[i - 1])] else [])
  }

  /** The loop, having reached match i with this text and offset. */
  predicate Reached(input: string, matches: seq<Match>, i: nat, prompt: string, offset: int)
    requires i <= |matches|
  {
    SpliceFrom(prompt, offset, matches, i) == SpliceFrom(input, 0, matches, 0)
  }

  lemma ReachNext(input: string, matches: seq<Match>, i: nat, prompt: string, offset: int)
    requires i < |matches| && Reached(input, matches, i, prompt, offset)
    ensures if Replaced(matches[i])
            then Reached(input, matches, i + 1, SpliceOne(prompt, offset, matches[i]),
                         offset + |Replacement(matches[i])| - |matches[i].tag|)
            else Reached(input, matches, i + 1, prompt, offset)
  {
  }

  lemma ReachedEnd(input: string, matches: seq<Match>, prompt: string, offset: int)
    requires Reached(input, matches, |matches|, prompt, offset)
    ensures prompt == SpliceFrom(input, 0, matches, 0)
  {
  }

  method ReplaceTags(input: string, matches: seq<Match>) returns (prompt: string, files: seq<PromptFile>)
    ensures prompt == SpliceFrom(input, 0, matches, 0)
    ensures files == Recorded(matches, |matches|)
  {
    prompt, files := input, [];
    var offset := 0;
    for i := 0 to |matches|
      invariant Reached(input, matches, i, prompt, offset)
      invariant files == Recorded(matches, i)
    {
      var m := matches[i];
      ReachNext(input, matches, i, prompt, offset);
      if m.url == "" { continue; }
      if !m.downloaded { continue; }
      prompt := SpliceOne(prompt, offset, m);
      offset := offset + |Replacement(m)| - |m.tag|;
      files := files + [FileOf(m)];
    }
    ReachedEnd(input, matches, prompt, offset);
  }

  // ----- simultaneous substitution -----

  /** The tag stands where its match says, not before position `from`. */
  predicate Placed(input: string, m: Match, from: nat) {
    from <= m.index && m.index + |m.tag| <= |input| && input[m.index..m.index + |m.tag|] == m.tag
  }

  /** The downloaded matches from i on are ascending and do not overlap; the others may be anywhere. */
  predicate WellPlaced(input: string, matches: seq<Match>, i: nat, from: nat)
    requires i <= |matches|
    decreases |matches| - i
  {
    if i == |matches| then true
    else if Replaced(matches[i]) then
      Placed(input, matches[i], from) && WellPlaced(input, matches, i + 1, matches[i].index + |matches[i].tag|)
    else WellPlaced(input, matches, i + 1, from)
  }

  /** The input from a position on with every downloaded tag from match i on replaced at once. */
  function Substitute(input: string, matches: seq<Match>, i: nat, from: nat): string
    requires i <= |matches| && from <= |input| && WellPlaced(input, matches, i, from)
    decreases |matches| - i
  {
    if i == |matches| then input[from..]
    else if Replaced(matches[i]) then
      var m := matches[i];
      input[from..m.index] + (Replacement(m) + Substitute(input, matches, i + 1, m.index + |m.tag|))
    else Substitute(input, matches, i + 1, from)
  }

  predicate TagAt(prompt: string, at: int, tag: string) {
    0 <= at && at + |tag| <= |prompt| && prompt[at..at + |tag|] == tag
  }

  /** At every splice the current text holds the original tag at the shifted position. */
  predicate TagsInPlace(prompt: string, offset: int, matches: seq<Match>, i: nat)
    requires i <= |matches|
    decreases |matches| - i
  {
    i < |matches| ==>
      && (Replaced(matches[i]) ==> TagAt(prompt, matches[i].index + offset, matches[i].tag))
      && TagsInPlace(Spliced(prompt, offset, matches[i]), offset + Growth(matches[i]), matches, i + 1)
  }

  /** The current text is what is done plus the rest of the input, which starts at position `from`. */
  predicate Progress(input: string, from: nat, done: string, prompt: string, offset: int) {
    from <= |input| && prompt == done + input[from..] && offset == |done| - from
  }

  function DoneAfter(input: string, from: nat, done: string, m: Match): string
    requires from <= m.index <= |input|
  {
    done + (input[from..m.index] + Replacement(m))
  }

  /** The same substitution with the finished text carried along. */
  function Accumulate(input: string, matches: seq<Match>, i: nat, from: nat, done: string): string
    requires i <= |matches| && from <= |input| && WellPlaced(input, matches, i, from)
    decreases |matches| - i
  {
    if i == |matches| then done + input[from..]
    else if Replaced(matches[i]) then
      Accumulate(input, matches, i + 1, matches[i].index + |matches[i].tag|, DoneAfter(input, from, done, matches[i]))
    else Accumulate(input, matches, i + 1, from, done)
  }

  lemma Assoc(a: string, b: string, c: string)
    ensures a + b + c == a + (b + c)
  {
  }

  lemma {:induction false} AccumulateIsSubstitute(input: string, matches: seq<Match>, i: nat, from: nat, done: string)
    requires i <= |matches| && from <= |input| && WellPlaced(input, matches, i, from)
    ensures Accumulate(input, matches, i, from, done) == done + Substitute(input, matches, i, from)
    decreases |matches| - i
  {
    if i < |matches| && Replaced(matches[i]) {
      var m := matches[i];
      var end, gap := m.index + |m.tag|, input[from..m.index];
      AccumulateIsSubstitute(input, matches, i + 1, end, DoneAfter(input, from, done, m));
      var rest := Substitute(input, matches, i + 1, end);
      Assoc(done, gap + Replacement(m), rest);
      Assoc(gap, Replacement(m), rest);
    } else if i < |matches| {
      AccumulateIsSubstitute(input, matches, i + 1, from, done);
    }
  }

  lemma SplitAtTag(input: string, m: Match, from: nat)
    requires from <= |input| && Placed(input, m, from)
    ensures input[from..] == input[from..m.index] + (m.tag + input[m.index + |m.tag|..])
  {
  }

  lemma TagBehind(before: string, tag: string, rest: string)
    ensures TagAt(before + (tag + rest), |before|, tag)
  {
  }

  /** A splice replaces the tag and nothing around it. */
  lemma SpliceOneIs(prompt: string, offset: int, m: Match, before: string, rest: string)
    requires prompt == before + (m.tag + rest) && |before| == m.index + offset
    ensures SpliceOne(prompt, offset, m) == before + (Replacement(m) + rest)
  {
    var at := m.index + offset;
    assert prompt[..at] == before && prompt[at + |m.tag|..] == rest;
    assert Slice(prompt, 0, at) == before;
    assert Slice(prompt, at + |m.tag|, |prompt|) == rest;
    Assoc(before, Replacement(m), rest);
  }

  /** At a placed match the text holds the tag at the shifted position, and a splice replaces just that. */
  lemma SpliceStep(input: string, m: Match, from: nat, done: string, prompt: string, offset: int)
    requires Progress(input, from, done, prompt, offset) && Placed(input, m, from)
    ensures TagAt(prompt, m.index + offset, m.tag)
    ensures Progress(input, m.index + |m.tag|, DoneAfter(input, from, done, m), SpliceOne(prompt, offset, m),
                     offset + |Replacement(m)| - |m.tag|)
  {
    var gap, rest := input[from..m.index], input[m.index + |m.tag|..];
    SplitAtTag(input, m, from);
    Assoc(done, gap, m.tag + rest);
    TagBehind(done + gap, m.tag, rest);
    SpliceOneIs(prompt, offset, m, done + gap, rest);
    Assoc(done + gap, Replacement(m), rest);
    Assoc(done, gap, Replacement(m));
  }

  /** Where one iteration leads: to a state with the same splices ahead and the same substitution to come. */
  lemma {:induction false} Iterate(input: string, matches: seq<Match>, i: nat, from: nat, done: string,
                                   prompt: string, offset: int)
    returns (end: nat, more: string, next: string, shift: int)
    requires i < |matches| && Progress(input, from, done, prompt, offset) && WellPlaced(input, matches, i, from)
    ensures Progress(input, end, more, next, shift) && WellPlaced(input, matches, i + 1, end)
    ensures Accumulate(input, matches, i, from, done) == Accumulate(input, matches, i + 1, end, more)
    ensures next == Spliced(prompt, offset, matches[i]) && shift == offset + Growth(matches[i])
    ensures Replaced(matches[i]) ==> TagAt(prompt, matches[i].index + offset, matches[i].tag)
  {
    var m := matches[i];
    if Replaced(m) {
      SpliceStep(input, m, from, done, prompt, offset);
      end, more := m.index + |m.tag|, DoneAfter(input, from, done, m);
      next, shift := SpliceOne(prompt, offset, m), offset + |Replacement(m)| - |m.tag|;
    } else {
      end, more, next, shift := from, done, prompt, offset;
    }
  }

  lemma {:induction false} SplicesAccumulate(input: string, matches: seq<Match>, i: nat, from: nat, done: string,
                                             prompt: string, offset: int)
    requires i <= |matches| && Progress(input, from, done, prompt, offset) && WellPlaced(input, matches, i, from)
    ensures SpliceFrom(prompt, offset, matches, i) == Accumulate(input, matches, i, from, done)
    ensures TagsInPlace(prompt, offset, matches, i)
    decreases |matches| - i
  {
    if i < |matches| {
      var end, more, next, shift := Iterate(input, matches, i, from, done, prompt, offset);
      SplicesAccumulate(input, matches, i + 1, end, more, next, shift);
    }
  }

  /**
   When the downloaded matches do not overlap, the repeated in-place splices are the simultaneous substitution,
   whichever downloads fail.
   */
  lemma {:induction false} SplicingIsSubstitution(input: string, matches: seq<Match>)
    requires WellPlaced(input, matches, 0, 0)
    ensures SpliceFrom(input, 0, matches, 0) == Substitute(input, matches, 0, 0)
    ensures TagsInPlace(input, 0, matches, 0)
  {
    assert "" + input[0..] == input;
    SplicesAccumulate(input, matches, 0, 0, "", input, 0);
    AccumulateIsSubstitute(input, matches, 0, 0, "");
    assert "" + Substitute(input, matches, 0, 0) == Substitute(input, matches, 0, 0);
  }

  // ----- overlapping matches -----

  /** Each downloaded tag stands where its match says, in the order of the list. */
  ghost predicate InOrder(input: string, matches: seq<Match>) {
    && (forall i :: 0 <= i < |matches| && Replaced(matches[i]) ==> Placed(input, matches[i], 0))
    && (forall i, j :: 0 <= i < j < |matches| && Replaced(matches[i]) && Replaced(matches[j]) ==>
          matches[i].index <= matches[j].index)
  }

  /** The match starts inside the tag of an earlier downloaded match. */
  ghost predicate Overlaps(matches: seq<Match>, j: nat)
    requires j < |matches|
  {
    exists i :: 0 <= i < j && Replaced(matches[i]) && matches[j].index < matches[i].index + |matches[i].tag|
  }

  /** No text of the input that ends at or before the position is the tag. */
  ghost predicate NoCopyBefore(input: string, tag: string, end: nat) {
    forall a :: !(a + |tag| <= end && TagAt(input, a, tag))
  }

  /** The tag cannot be mistaken for anything in or around a replacement, nor for a copy before an earlier tag. */
  ghost predicate Unmistakable(input: string, matches: seq<Match>, j: nat)
    requires j < |matches|
  {
    && matches[j].tag != "" && '@' !in matches[j].tag
    && forall i :: 0 <= i < j && Replaced(matches[i]) ==>
         matches[j].tag[0] !in Replacement(matches[i]) && NoCopyBefore(input, matches[j].tag, matches[i].index)
  }

  /** The tag does not start inside the finished text, whatever follows it. */
  ghost predicate NoStart(done: string, tag: string) {
    forall rest, a :: a < |done| ==> !TagAt(done + rest, a, tag)
  }

  lemma TagAtSuffix(before: string, rest: string, a: int, tag: string)
    requires a >= |before|
    ensures TagAt(before + rest, a, tag) <==> TagAt(rest, a - |before|, tag)
  {
    if 0 <= a && a + |tag| <= |before + rest| {
      assert (before + rest)[a..a + |tag|] == rest[a - |before|..a - |before| + |tag|];
    }
  }

  lemma OtherCharacter(text: string, a: int, tag: string, k: nat)
    requires k < |tag| && 0 <= a + k < |text| && text[a + k] != tag[k]
    ensures !TagAt(text, a, tag)
  {
    if 0 <= a && a + |tag| <= |text| {
      assert text[a..a + |tag|][k] == text[a + k];
    }
  }

  /** A tag that starts in the gap or in the replacement would be a copy in the gap, or hold a forbidden character. */
  lemma NoStartInPiece(gap: string, replacement: string, rest: string, a: int, tag: string)
    requires tag != "" && '@' !in tag && replacement != "" && replacement[0] == '@' && tag[0] !in replacement
    requires forall b :: !TagAt(gap, b, tag)
    requires 0 <= a < |gap| + |replacement|
    ensures !TagAt(gap + (replacement + rest), a, tag)
  {
    var text := gap + (replacement + rest);
    if a >= |gap| {
      assert text[a] == replacement[a - |gap|];
      OtherCharacter(text, a, tag, 0);
    } else if a + |tag| > |gap| {
      assert text[|gap|] == replacement[0];
      OtherCharacter(text, a, tag, |gap| - a);
    } else {
      assert !TagAt(gap, a, tag);
      assert text[a..a + |tag|] == gap[a..a + |tag|];
    }
  }

  lemma SliceOfSlice(s: string, from: nat, end: nat, b: nat, n: nat)
    requires from <= end <= |s| && b + n <= end - from
    ensures s[from..end][b..b + n] == s[from + b..from + b + n]
  {
    var t := s[from..end];
    var u, v := t[b..b + n], s[from + b..from + b + n];
    forall k | 0 <= k < n ensures u[k] == v[k] {
      assert t[b + k] == s[from + (b + k)];
    }
    assert u == v;
  }

  lemma NoCopyInGap(input: string, from: nat, end: nat, tag: string, b: int)
    requires from <= end <= |input| && NoCopyBefore(input, tag, end)
    ensures !TagAt(input[from..end], b, tag)
  {
    if 0 <= b && b + |tag| <= end - from {
      assert !TagAt(input, from + b, tag);
      SliceOfSlice(input, from, end, b, |tag|);
    }
  }

  lemma NoStartAfter(input: string, from: nat, done: string, m: Match, tag: string)
    requires from <= m.index <= |input| && NoStart(done, tag)
    requires tag != "" && '@' !in tag && tag[0] !in Replacement(m) && NoCopyBefore(input, tag, m.index)
    ensures NoStart(DoneAfter(input, from, done, m), tag)
  {
    var gap := input[from..m.index];
    forall rest, a | a < |DoneAfter(input, from, done, m)|
      ensures !TagAt(DoneAfter(input, from, done, m) + rest, a, tag)
    {
      Assoc(done, gap + Replacement(m), rest);
      Assoc(gap, Replacement(m), rest);
      var tail := gap + (Replacement(m) + rest);
      if a < |done| {
        assert !TagAt(done + tail, a, tag);
      } else {
        TagAtSuffix(done, tail, a, tag);
        forall b ensures !TagAt(gap, b, tag) {
          NoCopyInGap(input, from, m.index, tag, b);
        }
        NoStartInPiece(gap, Replacement(m), rest, a - |done|, tag);
      }
    }
  }

  /** The position where the input goes on is the end of the last downloaded match, if there was one. */
  ghost predicate EndOf(matches: seq<Match>, i: nat, from: nat)
    requires i <= |matches|
  {
    from == 0 || exists p :: 0 <= p < i && Replaced(matches[p]) && from == matches[p].index + |matches[p].tag|
  }

  lemma EndMeansOverlap(matches: seq<Match>, i: nat, from: nat)
    requires i < |matches| && EndOf(matches, i, from) && matches[i].index < from
    ensures Overlaps(matches, i)
  {
  }

  /** Every later overlapping match is unmistakable, and its tag starts nowhere in the finished text. */
  ghost predicate Guarded(input: string, matches: seq<Match>, i: nat, done: string) {
    forall j :: i <= j < |matches| && Replaced(matches[j]) && Overlaps(matches, j) ==>
      Unmistakable(input, matches, j) && NoStart(done, matches[j].tag)
  }

  lemma {:induction false} GuardedAfter(input: string, matches: seq<Match>, i: nat, from: nat, done: string)
    requires i < |matches| && Replaced(matches[i]) && from <= matches[i].index <= |input|
    requires Guarded(input, matches, i, done)
    ensures Guarded(input, matches, i + 1, DoneAfter(input, from, done, matches[i]))
  {
    forall j | i + 1 <= j < |matches| && Replaced(matches[j]) && Overlaps(matches, j)
      ensures NoStart(DoneAfter(input, from, done, matches[i]), matches[j].tag)
    {
      NoStartAfter(input, from, done, matches[i], matches[j].tag);
    }
  }

  /** One splice before the first overlap: a miss further on is a miss of the whole. */
  lemma {:induction false} SpliceOn(input: string, matches: seq<Match>, i: nat, from: nat, done: string,
                                    prompt: string, offset: int)
    returns (more: string, next: string, shift: int)
    requires i < |matches| && Replaced(matches[i]) && Placed(input, matches[i], from)
    requires Progress(input, from, done, prompt, offset) && Guarded(input, matches, i, done)
    ensures Progress(input, matches[i].index + |matches[i].tag|, more, next, shift)
    ensures Guarded(input, matches, i + 1, more)
    ensures !TagsInPlace(next, shift, matches, i + 1) ==> !TagsInPlace(prompt, offset, matches, i)
  {
    var m := matches[i];
    SpliceStep(input, m, from, done, prompt, offset);
    GuardedAfter(input, matches, i, from, done);
    more, next := DoneAfter(input, from, done, m), SpliceOne(prompt, offset, m);
    shift := offset + |Replacement(m)| - |m.tag|;
  }

  lemma {:induction false} OverlapIsMissed(input: string, matches: seq<Match>, i: nat, from: nat, done: string,
                                           prompt: string, offset: int)
    requires i <= |matches| && Progress(input, from, done, prompt, offset) && InOrder(input, matches)
    requires EndOf(matches, i, from) && Guarded(input, matches, i, done)
    requires !WellPlaced(input, matches, i, from)
    ensures !TagsInPlace(prompt, offset, matches, i)
    decreases |matches| - i
  {
    var m := matches[i];
    if !Replaced(m) {
      SkipsFailed(input, matches, i, from, done, prompt, offset);
      OverlapIsMissed(input, matches, i + 1, from, done, prompt, offset);
    } else if from <= m.index {
      PlacedOn(input, matches, i, from);
      var more, next, shift := SpliceOn(input, matches, i, from, done, prompt, offset);
      OverlapIsMissed(input, matches, i + 1, m.index + |m.tag|, more, next, shift);
    } else {
      EndMeansOverlap(matches, i, from);
      MissedHere(input, matches, i, from, done, prompt, offset);
    }
  }

  /** A tag that starts before the position where the input goes on is not found at its shifted position. */
  lemma {:induction false} MissedHere(input: string, matches: seq<Match>, i: nat, from: nat, done: string,
                                      prompt: string, offset: int)
    requires i < |matches| && Replaced(matches[i]) && matches[i].index < from
    requires Progress(input, from, done, prompt, offset) && NoStart(done, matches[i].tag)
    ensures !TagsInPlace(prompt, offset, matches, i)
  {
    assert !TagAt(done + input[from..], matches[i].index + offset, matches[i].tag);
  }

  lemma {:induction false} PlacedOn(input: string, matches: seq<Match>, i: nat, from: nat)
    requires i < |matches| && Replaced(matches[i]) && InOrder(input, matches) && from <= matches[i].index
    requires !WellPlaced(input, matches, i, from)
    ensures Placed(input, matches[i], from)
    ensures !WellPlaced(input, matches, i + 1, matches[i].index + |matches[i].tag|)
    ensures EndOf(matches, i + 1, matches[i].index + |matches[i].tag|)
  {
  }

  lemma {:induction false} SkipsFailed(input: string, matches: seq<Match>, i: nat, from: nat, done: string,
                                       prompt: string, offset: int)
    requires i < |matches| && !Replaced(matches[i])
    requires !WellPlaced(input, matches, i, from) && Guarded(input, matches, i, done) && EndOf(matches, i, from)
    ensures !WellPlaced(input, matches, i + 1, from) && Guarded(input, matches, i + 1, done)
    ensures EndOf(matches, i + 1, from)
    ensures TagsInPlace(prompt, offset, matches, i) <==> TagsInPlace(prompt, offset, matches, i + 1)
  {
  }

  /**
   When overlapping tags cannot be mistaken, every splice meets its own tag exactly when no two downloaded matches
   overlap.
   */
  lemma {:induction false} SplicesMeetTheirTagsIff(input: string, matches: seq<Match>)
    requires InOrder(input, matches)
    requires forall j :: 0 <= j < |matches| && Replaced(matches[j]) && Overlaps(matches, j) ==>
               Unmistakable(input, matches, j)
    ensures TagsInPlace(input, 0, matches, 0) <==> WellPlaced(input, matches, 0, 0)
  {
    if WellPlaced(input, matches, 0, 0) {
      SplicingIsSubstitution(input, matches);
    } else {
      assert "" + input[0..] == input;
      OverlapIsMissed(input, matches, 0, 0, "", input, 0);
    }
  }

  lemma {:induction false} WellPlacedFrom(input: string, matches: seq<Match>, i: nat, from: nat)
    requires i <= |matches| && InOrder(input, matches) && !WellPlaced(input, matches, i, from)
    requires EndOf(matches, i, from)
    ensures exists j :: i <= j < |matches| && Replaced(matches[j]) && Overlaps(matches, j)
    decreases |matches| - i
  {
    var m := matches[i];
    if !Replaced(m) {
      WellPlacedFrom(input, matches, i + 1, from);
    } else if from <= m.index {
      WellPlacedFrom(input, matches, i + 1, m.index + |m.tag|);
    } else {
      EndMeansOverlap(matches, i, from);
    }
  }

  lemma {:induction false} OverlapIsNotWellPlaced(input: string, matches: seq<Match>, i: nat, from: nat, p: nat, j: nat)
    requires i <= p < j < |matches| && Replaced(matches[p]) && Replaced(matches[j])
    requires matches[j].index < matches[p].index + |matches[p].tag|
    ensures !WellPlaced(input, matches, i, from)
    decreases p - i
  {
    if i < p {
      if Replaced(matches[i]) {
        OverlapIsNotWellPlaced(input, matches, i + 1, matches[i].index + |matches[i].tag|, p, j);
      } else {
        OverlapIsNotWellPlaced(input, matches, i + 1, from, p, j);
      }
    } else {
      StartsTooEarly(input, matches, p + 1, matches[p].index + |matches[p].tag|, j);
    }
  }

  lemma {:induction false} StartsTooEarly(input: string, matches: seq<Match>, i: nat, from: nat, j: nat)
    requires i <= j < |matches| && Replaced(matches[j]) && matches[j].index < from
    ensures !WellPlaced(input, matches, i, from)
    decreases j - i
  {
    if i < j {
      if Replaced(matches[i]) && from <= matches[i].index {
        StartsTooEarly(input, matches, i + 1, matches[i].index + |matches[i].tag|, j);
      } else if !Replaced(matches[i]) {
        StartsTooEarly(input, matches, i + 1, from, j);
      }
    }
  }

  /** For matches in order, being well placed is that no downloaded match overlaps an earlier one. */
  lemma {:induction false} WellPlacedIffNoOverlap(input: string, matches: seq<Match>)
    requires InOrder(input, matches)
    ensures WellPlaced(input, matches, 0, 0)
            <==> forall j :: 0 <= j < |matches| && Replaced(matches[j]) ==> !Overlaps(matches, j)
  {
    if !WellPlaced(input, matches, 0, 0) {
      WellPlacedFrom(input, matches, 0, 0);
    } else {
      forall j | 0 <= j < |matches| && Replaced(matches[j]) ensures !Overlaps(matches, j) {
        if Overlaps(matches, j) {
          var p :| 0 <= p < j && Replaced(matches[p]) && matches[j].index < matches[p].index + |matches[p].tag|;
          OverlapIsNotWellPlaced(input, matches, 0, 0, p, j);
        }
      }
    }
  }

  /** A linked image: the link is replaced first, and the splice for the image inside it hits the text before. */
  lemma LinkedImageIsMissed()
    ensures var link := Match(11, "[<i>](v)", "v", "v", true);
            var image := Match(12, "<i>", "u", "u", true);
            var input := "please see [<i>](v)";
            && InOrder(input, [link, image])
            && SpliceOne(input, 0, link) == "please see @v"
            && !TagsInPlace(input, 0, [link, image], 0)
  {
    var link := Match(11, "[<i>](v)", "v", "v", true);
    var image := Match(12, "<i>", "u", "u", true);
    var input, matches := "please see [<i>](v)", [link, image];
    assert input[11..19] == "[<i>](v)" && input[12..15] == "<i>";
    assert input[..11] == "please see ";
    var next := SpliceOne(input, 0, link);
    assert Slice(input, 0, 11) == "please see " && Slice(input, 19, 19) == "";
    assert next == "please see @v";
    OtherCharacter(next, 6, "<i>", 0);
    assert Growth(link) == -6;
    assert !TagsInPlace(next, -6, matches, 1);
  }

  // ----- recorded positions -----

  function TotalGrowth(matches: seq<Match>, i: nat, k: nat): int
    requires i <= k <= |matches|
    decreases k - i
  {
    if i == k then 0 else Growth(matches[i]) + TotalGrowth(matches, i + 1, k)
  }

  predicate StandsAfter(text: string, before: string, piece: string, after: string) {
    text == before + (piece + after)
  }

  lemma StandsLater(text: string, before: string, piece: string, after: string, gap: string, first: string)
    requires StandsAfter(text, before, piece, after)
    ensures StandsAfter(gap + (first + text), gap + (first + before), piece, after)
  {
    Assoc(first, before, piece + after);
    Assoc(gap, first + before, piece + after);
  }

  lemma {:induction false} Unfold(input: string, matches: seq<Match>, i: nat, from: nat)
    returns (gap: string, rest: string)
    requires i < |matches| && Replaced(matches[i]) && from <= |input| && WellPlaced(input, matches, i, from)
    ensures Substitute(input, matches, i, from) == gap + (Replacement(matches[i]) + rest)
    ensures |gap| == matches[i].index - from
    ensures rest == Substitute(input, matches, i + 1, matches[i].index + |matches[i].tag|)
  {
    var m := matches[i];
    gap, rest := input[from..m.index], Substitute(input, matches, i + 1, m.index + |m.tag|);
  }

  /** Where a replacement ends up: at its recorded start plus the growth of the matches before it. */
  lemma {:induction false} ReplacementPosition(input: string, matches: seq<Match>, i: nat, from: nat, k: nat)
    returns (before: string, after: string)
    requires i <= k < |matches| && from <= |input| && WellPlaced(input, matches, i, from) && Replaced(matches[k])
    ensures StandsAfter(Substitute(input, matches, i, from), before, Replacement(matches[k]), after)
    ensures |before| == matches[k].index - from + TotalGrowth(matches, i, k)
    decreases k - i
  {
    var m := matches[i];
    if !Replaced(m) {
      before, after := ReplacementPosition(input, matches, i + 1, from, k);
    } else {
      var gap, rest := Unfold(input, matches, i, from);
      if i == k {
        before, after := gap, rest;
      } else {
        before, after := ReplacementPosition(input, matches, i + 1, m.index + |m.tag|, k);
        StandsLater(rest, before, Replacement(matches[k]), after, gap, Replacement(m));
        before := gap + (Replacement(m) + before);
      }
    }
  }

  lemma {:induction false} RecordedEach(matches: seq<Match>, i: nat, k: nat)
    requires k < i <= |matches| && Replaced(matches[k])
    ensures FileOf(matches[k]) in Recorded(matches, i)
  {
    if k < i - 1 {
      RecordedEach(matches, i - 1, k);
    }
  }

  /** The recorded start, without offset, is where the replacement stands iff the text before kept its length. */
  lemma {:induction false} RecordedStartIsRightIff(input: string, matches: seq<Match>, k: nat) returns (position: nat)
    requires WellPlaced(input, matches, 0, 0) && k < |matches| && Replaced(matches[k])
    ensures TagAt(SpliceFrom(input, 0, matches, 0), position, FileOf(matches[k]).replacement)
    ensures position == FileOf(matches[k]).start + TotalGrowth(matches, 0, k)
    ensures position == FileOf(matches[k]).start <==> TotalGrowth(matches, 0, k) == 0
    ensures var file := FileOf(matches[k]);
            && file in Recorded(matches, |matches|) && file.filename == matches[k].filename
            && file.replacement == "@" + file.filename && file.end == file.start + |file.replacement|
  {
    RecordedEach(matches, |matches|, k);
    SplicingIsSubstitution(input, matches);
    var before, after := ReplacementPosition(input, matches, 0, 0, k);
    position := |before|;
    TagBehind(before, Replacement(matches[k]), after);
  }
}
