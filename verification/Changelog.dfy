/**
 Revert cancellation in the changelog (script/raw-changelog.ts, reverted). The insertion-ordered map from
 message to commit is a sequence of commits with distinct messages.
 */
module Changelog {
  datatype Commit = Commit(message: string, hash: string)

  predicate IsLineEnd(c: char) {
    c == '\n' || c == '\r' || c == '\U{2028}' || c == '\U{2029}'
  }

  /** What .+ matches in full. */
  predicate IsOneLine(s: string) {
    s != [] && forall i :: 0 <= i < |s| ==> !IsLineEnd(s[i])
  }

  const OPENING := "Revert \""

  function Wrap(message: string): string {
    OPENING + message + "\""
  }

  /** The message matches /^Revert "(.+)"$/. */
  predicate IsRevert(message: string) {
    && |message| > |OPENING| + 1
    && message[..|OPENING|] == OPENING
    && message[|message| - 1] == '"'
    && IsOneLine(message[|OPENING|..|message| - 1])
  }

  function Inner(message: string): (r: string)
    requires IsRevert(message)
    ensures Wrap(r) == message && |r| < |message|
  {
    message[|OPENING|..|message| - 1]
  }

  /** A wrapped message is recognised as its revert exactly when the message is one non-empty line. */
  lemma WrapIsRevert(message: string)
    ensures IsRevert(Wrap(message)) <==> IsOneLine(message)
    ensures IsOneLine(message) ==> Inner(Wrap(message)) == message
  {
    var w := Wrap(message);
    assert w[|OPENING|..|w| - 1] == message;
    assert w[..|OPENING|] == OPENING;
  }

  // ----- the ordered map -----

  predicate Has(seen: seq<Commit>, message: string) {
    seen != [] && (seen[0].message == message || Has(seen[1..], message))
  }

  function Delete(seen: seq<Commit>, message: string): seq<Commit> {
    if seen == [] then []
    else if seen[0].message == message then seen[1..]
    else [seen[0]] + Delete(seen[1..], message)
  }

  /** Map.set: a known key keeps its place. */
  function Put(seen: seq<Commit>, c: Commit): seq<Commit> {
    if seen == [] then [c]
    else if seen[0].message == c.message then [c] + seen[1..]
    else [seen[0]] + Put(seen[1..], c)
  }

  /** The key a commit cancels if it is there. */
  function Opposite(message: string): string {
    if IsRevert(message) then Inner(message) else Wrap(message)
  }

  function Process(seen: seq<Commit>, c: Commit): seq<Commit> {
    if Has(seen, Opposite(c.message)) then Delete(seen, Opposite(c.message)) else Put(seen, c)
  }

  function Reverted(commits: seq<Commit>): seq<Commit> {
    if commits == [] then []
    else Process(Reverted(commits[..|commits| - 1]), commits[|commits| - 1])
  }

  method ComputeReverted(commits: seq<Commit>) returns (result: seq<Commit>)
    ensures result == Reverted(commits)
  {
    var seen: seq<Commit> := [];
    for i := 0 to |commits|
      invariant seen == Reverted(commits[..i])
    {
      assert commits[..i + 1][..i] == commits[..i];
      var commit := commits[i];
      if IsRevert(commit.message) {
        var msg := Inner(commit.message);
        if Has(seen, msg) {
          seen := Delete(seen, msg);
        } else {
          seen := Put(seen, commit);
        }
        continue;
      }
      var revert := Wrap(commit.message);
      if Has(seen, revert) {
        seen := Delete(seen, revert);
        continue;
      }
      seen := Put(seen, commit);
    }
    assert commits[..|commits|] == commits;
    result := seen;
  }

  // ----- distinct messages -----

  predicate Distinct(seen: seq<Commit>) {
    seen == [] || (!Has(seen[1..], seen[0].message) && Distinct(seen[1..]))
  }

  lemma {:induction false} DeleteHas(seen: seq<Commit>, gone: string, message: string)
    requires Distinct(seen)
    ensures Has(Delete(seen, gone), message) <==> Has(seen, message) && message != gone
    ensures Distinct(Delete(seen, gone))
    ensures |Delete(seen, gone)| == |seen| - (if Has(seen, gone) then 1 else 0)
  {
    if seen != [] {
      DeleteHas(seen[1..], gone, message);
      DeleteHas(seen[1..], gone, seen[0].message);
      assert ([seen[0]] + Delete(seen[1..], gone))[1..] == Delete(seen[1..], gone);
    }
  }

  lemma {:induction false} PutHas(seen: seq<Commit>, c: Commit, message: string)
    requires Distinct(seen)
    ensures Has(Put(seen, c), message) <==> Has(seen, message) || message == c.message
    ensures Distinct(Put(seen, c))
    ensures |Put(seen, c)| == |seen| + (if Has(seen, c.message) then 0 else 1)
  {
    if seen == [] {
      assert [c][1..] == [];
    } else {
      PutHas(seen[1..], c, message);
      PutHas(seen[1..], c, seen[0].message);
      assert ([seen[0]] + Put(seen[1..], c))[1..] == Put(seen[1..], c);
      assert ([c] + seen[1..])[1..] == seen[1..];
    }
  }

  lemma ProcessHas(seen: seq<Commit>, c: Commit, message: string)
    requires Distinct(seen)
    ensures Distinct(Process(seen, c))
    ensures Has(Process(seen, c), message)
            <==> if Has(seen, Opposite(c.message)) then Has(seen, message) && message != Opposite(c.message)
                 else Has(seen, message) || message == c.message
  {
    DeleteHas(seen, Opposite(c.message), message);
    PutHas(seen, c, message);
  }

  lemma {:induction false} RevertedDistinct(commits: seq<Commit>)
    ensures Distinct(Reverted(commits))
  {
    if commits != [] {
      RevertedDistinct(commits[..|commits| - 1]);
      ProcessHas(Reverted(commits[..|commits| - 1]), commits[|commits| - 1], "");
    }
  }

  /** The message and its own revert are both left. */
  predicate LeftTogether(commits: seq<Commit>, message: string) {
    Has(Reverted(commits), message) && Has(Reverted(commits), Wrap(message))
  }

  /** A plain message and its own revert are never both left, whatever the other commits are. */
  lemma {:induction false} NoMessageWithItsRevert(commits: seq<Commit>, message: string)
    requires !IsRevert(message) && IsOneLine(message)
    ensures !LeftTogether(commits, message)
  {
    if commits != [] {
      var before, c := commits[..|commits| - 1], commits[|commits| - 1];
      NoMessageWithItsRevert(before, message);
      RevertedDistinct(before);
      ProcessHas(Reverted(before), c, message);
      ProcessHas(Reverted(before), c, Wrap(message));
      WrapIsRevert(message);
    }
  }

  lemma SplitLast(commits: seq<Commit>)
    requires commits != []
    ensures commits[..|commits| - 1] + [commits[|commits| - 1]] == commits
  {
  }

  lemma RevertedSnoc(before: seq<Commit>, c: Commit)
    ensures Reverted(before + [c]) == Process(Reverted(before), c)
  {
    assert (before + [c])[..|before|] == before;
  }

  lemma RevertedOne(c: Commit)
    ensures Reverted([c]) == [c]
  {
    RevertedSnoc([], c);
    assert [] + [c] == [c];
  }

  lemma Cancelled(first: Commit, second: Commit)
    requires Opposite(second.message) == first.message
    ensures Reverted([first, second]) == []
  {
    RevertedOne(first);
    RevertedSnoc([first], second);
    assert [first] + [second] == [first, second] && [first][1..] == [];
  }

  /** Two commits, newest first, neither of which cancels the other. */
  lemma {:induction false} BothStay(first: Commit, second: Commit)
    requires first.message != second.message && Opposite(second.message) != first.message
    ensures Reverted([first, second]) == [first, second]
  {
    RevertedOne(first);
    RevertedSnoc([first], second);
    assert [first] + [second] == [first, second] && [first][1..] == [];
    assert !Has([first], Opposite(second.message));
    assert Put([first], second) == [first] + Put([], second);
  }

  /**
   Of any other message there are commits that leave it with its revert: of a revert, the revert of it and then
   the revert; of a message that is empty or spans lines, the message and then its revert.
   */
  lemma MessageLeftWithItsRevert(message: string) returns (commits: seq<Commit>)
    requires IsRevert(message) || !IsOneLine(message)
    ensures LeftTogether(commits, message)
  {
    WrapIsRevert(message);
    assert |Wrap(message)| > |message|;
    var plain, wrapped := Commit(message, ""), Commit(Wrap(message), "");
    if IsRevert(message) {
      commits := [wrapped, plain];
      BothStay(wrapped, plain);
    } else {
      commits := [plain, wrapped];
      assert |Opposite(wrapped.message)| > |message|;
      BothStay(plain, wrapped);
    }
    assert commits[1..] == [commits[1]] && commits[1..][1..] == [];
  }

  /** No commits leave a message with its own revert exactly when it is one non-empty line and not itself a revert. */
  lemma NeverLeftWithItsRevertIff(message: string)
    ensures (forall commits :: !LeftTogether(commits, message)) <==> IsOneLine(message) && !IsRevert(message)
  {
    if IsOneLine(message) && !IsRevert(message) {
      forall commits: seq<Commit>
        ensures !LeftTogether(commits, message)
      {
        NoMessageWithItsRevert(commits, message);
      }
    } else {
      var commits := MessageLeftWithItsRevert(message);
    }
  }

  // ----- conservation -----

  function Cancellations(commits: seq<Commit>): nat {
    if commits == [] then 0
    else
      var before, c := commits[..|commits| - 1], commits[|commits| - 1];
      Cancellations(before) + (if Has(Reverted(before), Opposite(c.message)) then 1 else 0)
  }

  function Overwrites(commits: seq<Commit>): nat {
    if commits == [] then 0
    else
      var before, c := commits[..|commits| - 1], commits[|commits| - 1];
      var seen := Reverted(before);
      Overwrites(before) + (if !Has(seen, Opposite(c.message)) && Has(seen, c.message) then 1 else 0)
  }

  /** Every commit is in the result, gone in a pair, or replaced by a later one with the same message. */
  lemma {:induction false} CommitsAreAccountedFor(commits: seq<Commit>)
    ensures |commits| == |Reverted(commits)| + 2 * Cancellations(commits) + Overwrites(commits)
  {
    if commits != [] {
      var before, c := commits[..|commits| - 1], commits[|commits| - 1];
      CommitsAreAccountedFor(before);
      RevertedDistinct(before);
      DeleteHas(Reverted(before), Opposite(c.message), "");
      PutHas(Reverted(before), c, "");
    }
  }

  // ----- families -----

  /** The message at the bottom of all nested reverts. */
  function Base(message: string): string
    decreases |message|
  {
    if IsRevert(message) then Base(Inner(message)) else message
  }

  /** The commits whose message is of a certain kind. */
  function Select(commits: seq<Commit>, keep: string -> bool): seq<Commit> {
    if commits == [] then []
    else if keep(commits[0].message) then [commits[0]] + Select(commits[1..], keep)
    else Select(commits[1..], keep)
  }

  function OfFamily(base: string): string -> bool {
    message => Base(message) == base
  }

  function Family(commits: seq<Commit>, base: string): seq<Commit> {
    Select(commits, OfFamily(base))
  }

  /** The same selection, read from the back. */
  lemma {:induction false} SelectSnoc(commits: seq<Commit>, c: Commit, keep: string -> bool)
    ensures Select(commits + [c], keep) == Select(commits, keep) + (if keep(c.message) then [c] else [])
  {
    if commits == [] {
      assert ([] + [c])[1..] == [];
    } else {
      assert (commits + [c])[1..] == commits[1..] + [c];
      SelectSnoc(commits[1..], c, keep);
    }
  }

  lemma {:induction false} SelectHas(seen: seq<Commit>, keep: string -> bool, message: string)
    requires keep(message)
    ensures Has(Select(seen, keep), message) <==> Has(seen, message)
  {
    if seen != [] {
      SelectHas(seen[1..], keep, message);
      assert ([seen[0]] + Select(seen[1..], keep))[1..] == Select(seen[1..], keep);
    }
  }

  lemma {:induction false} SelectDelete(seen: seq<Commit>, keep: string -> bool, message: string)
    ensures Select(Delete(seen, message), keep)
         == if keep(message) then Delete(Select(seen, keep), message) else Select(seen, keep)
  {
    if seen != [] {
      var rest := Select(seen[1..], keep);
      SelectDelete(seen[1..], keep, message);
      assert ([seen[0]] + rest)[1..] == rest;
      assert ([seen[0]] + Delete(seen[1..], message))[1..] == Delete(seen[1..], message);
    }
  }

  lemma {:induction false} SelectPut(seen: seq<Commit>, keep: string -> bool, c: Commit)
    ensures Select(Put(seen, c), keep)
         == if keep(c.message) then Put(Select(seen, keep), c) else Select(seen, keep)
  {
    if seen == [] {
      assert [c][1..] == [];
    } else {
      var rest := Select(seen[1..], keep);
      SelectPut(seen[1..], keep, c);
      assert ([seen[0]] + rest)[1..] == rest;
      assert ([c] + seen[1..])[1..] == seen[1..];
      assert ([seen[0]] + Put(seen[1..], c))[1..] == Put(seen[1..], c);
    }
  }

  /** A commit, processed on the whole or on its family alone: the same, if what it cancels is of its family. */
  lemma {:induction false} SelectProcess(seen: seq<Commit>, keep: string -> bool, c: Commit)
    requires keep(Opposite(c.message)) == keep(c.message)
    ensures Select(Process(seen, c), keep)
         == if keep(c.message) then Process(Select(seen, keep), c) else Select(seen, keep)
  {
    SelectDelete(seen, keep, Opposite(c.message));
    SelectPut(seen, keep, c);
    if keep(c.message) {
      SelectHas(seen, keep, Opposite(c.message));
    }
  }

  lemma {:induction false} SelectRevertedSnoc(before: seq<Commit>, c: Commit, keep: string -> bool)
    requires keep(Opposite(c.message)) == keep(c.message)
    requires SelectsAlike(before, keep)
    ensures SelectsAlike(before + [c], keep)
  {
    RevertedSnoc(before, c);
    SelectProcess(Reverted(before), keep, c);
    SelectSnoc(before, c, keep);
    if keep(c.message) {
      RevertedSnoc(Select(before, keep), c);
    } else {
      assert Select(before, keep) + [] == Select(before, keep);
    }
  }

  /** Cancelling the selected commits is selecting from what is left of all. */
  predicate SelectsAlike(commits: seq<Commit>, keep: string -> bool) {
    Select(Reverted(commits), keep) == Reverted(Select(commits, keep))
  }

  predicate Closed(commits: seq<Commit>, keep: string -> bool) {
    commits == [] || (var c := commits[|commits| - 1];
                      keep(Opposite(c.message)) == keep(c.message) && Closed(commits[..|commits| - 1], keep))
  }

  lemma {:induction false} SelectReverted(commits: seq<Commit>, keep: string -> bool)
    requires Closed(commits, keep)
    ensures SelectsAlike(commits, keep)
  {
    if commits != [] {
      var before, c := commits[..|commits| - 1], commits[|commits| - 1];
      SelectReverted(before, keep);
      SplitLast(commits);
      SelectRevertedSnoc(before, c, keep);
    }
  }

  /** A commit and the message it may cancel are in one family, if the message is one non-empty line. */
  lemma OppositeInFamily(message: string)
    requires IsOneLine(message)
    ensures Base(Opposite(message)) == Base(message)
  {
    WrapIsRevert(message);
  }

  /** Cancellation works family by family: the others can be left out without changing the result. */
  lemma FamiliesAreIndependent(commits: seq<Commit>, base: string)
    requires forall i :: 0 <= i < |commits| ==> IsOneLine(commits[i].message)
    ensures Family(Reverted(commits), base) == Reverted(Family(commits, base))
  {
    OneLinersAreClosed(commits, base);
    SelectReverted(commits, OfFamily(base));
  }

  lemma {:induction false} OneLinersAreClosed(commits: seq<Commit>, base: string)
    requires forall i :: 0 <= i < |commits| ==> IsOneLine(commits[i].message)
    ensures Closed(commits, OfFamily(base))
  {
    if commits != [] {
      OppositeInFamily(commits[|commits| - 1].message);
      OneLinersAreClosed(commits[..|commits| - 1], base);
    }
  }

  /** The condition is needed: a plain message that is empty or spans lines cancels a commit of another family. */
  lemma OtherMessagesCrossFamilies(message: string, older: string, newer: string)
    requires !IsRevert(message) && !IsOneLine(message)
    ensures var commits := [Commit(Wrap(message), newer), Commit(message, older)];
            && Reverted(commits) == []
            && Base(Wrap(message)) != Base(message)
            && Reverted(Family(commits, message)) == [Commit(message, older)]
  {
    var first, second := Commit(Wrap(message), newer), Commit(message, older);
    var commits := [first, second];
    WrapIsRevert(message);
    assert |first.message| > |message|;
    Cancelled(first, second);
    RevertedOne(second);
    LongerThanItsBase(message);
    LongerThanItsBase(first.message);
    OnlySecondSelected(first, second, OfFamily(message));
  }

  lemma {:induction false} OnlySecondSelected(first: Commit, second: Commit, keep: string -> bool)
    requires !keep(first.message) && keep(second.message)
    ensures Select([first, second], keep) == [second]
  {
    assert [first, second][1..] == [second] && [second][1..] == [];
    assert Select([second], keep) == [second] + Select([], keep);
  }

  lemma LongerThanItsBase(message: string)
    ensures |Base(message)| <= |message|
    ensures !IsRevert(message) ==> Base(message) == message
    decreases |message|
  {
    if IsRevert(message) {
      LongerThanItsBase(Inner(message));
    }
  }

  // ----- which commit stands for a message -----

  function Newest(commits: seq<Commit>, message: string): (r: seq<Commit>)
    ensures |r| <= 1
  {
    if commits == [] then []
    else if commits[|commits| - 1].message == message then [commits[|commits| - 1]]
    else Newest(commits[..|commits| - 1], message)
  }

  /** The entry of a message in the ordered map. */
  function EntryOf(seen: seq<Commit>, message: string): (r: seq<Commit>)
    ensures |r| <= 1
  {
    if seen == [] then []
    else if seen[0].message == message then [seen[0]]
    else EntryOf(seen[1..], message)
  }

  lemma {:induction false} EntryAfterDelete(seen: seq<Commit>, gone: string, message: string)
    requires message != gone
    ensures EntryOf(Delete(seen, gone), message) == EntryOf(seen, message)
  {
    if seen != [] && seen[0].message != gone {
      EntryAfterDelete(seen[1..], gone, message);
      assert ([seen[0]] + Delete(seen[1..], gone))[1..] == Delete(seen[1..], gone);
    }
  }

  lemma {:induction false} EntryAfterPut(seen: seq<Commit>, c: Commit, message: string)
    ensures EntryOf(Put(seen, c), message) == if message == c.message then [c] else EntryOf(seen, message)
  {
    if seen == [] {
      assert [c][1..] == [];
    } else if seen[0].message == c.message {
      assert ([c] + seen[1..])[1..] == seen[1..];
    } else {
      EntryAfterPut(seen[1..], c, message);
      assert ([seen[0]] + Put(seen[1..], c))[1..] == Put(seen[1..], c);
    }
  }

  lemma AbsentMessageIsNotLeft(commits: seq<Commit>, message: string)
    requires forall i :: 0 <= i < |commits| ==> commits[i].message != message
    ensures !Has(Reverted(commits), message)
  {
    RevertedAreCommits(commits);
    var seen := Reverted(commits);
    forall k | 0 <= k < |seen| ensures seen[k].message != message {
      assert seen[k] in commits;
    }
    if Has(seen, message) {
      var k := HasAt(seen, message);
    }
  }

  lemma EntryAfterProcess(seen: seq<Commit>, c: Commit, message: string)
    requires Opposite(c.message) != message && !Has(seen, Opposite(message))
    ensures EntryOf(Process(seen, c), message) == if c.message == message then [c] else EntryOf(seen, message)
  {
    EntryAfterDelete(seen, Opposite(c.message), message);
    EntryAfterPut(seen, c, message);
  }

  /**
   A message that nothing in the list cancels, nor is cancelled by, is kept, and stands for the last commit that
   carries it.
   */
  lemma {:induction false} RepeatedMessageKeepsLastCommit(commits: seq<Commit>, message: string)
    requires forall i :: 0 <= i < |commits| ==>
               commits[i].message != Opposite(message) && Opposite(commits[i].message) != message
    ensures EntryOf(Reverted(commits), message) == Newest(commits, message)
  {
    if commits != [] {
      var before, c := commits[..|commits| - 1], commits[|commits| - 1];
      RepeatedMessageKeepsLastCommit(before, message);
      AbsentMessageIsNotLeft(before, Opposite(message));
      EntryAfterProcess(Reverted(before), c, message);
    }
  }

  lemma {:induction false} HasAt(seen: seq<Commit>, message: string) returns (k: nat)
    requires Has(seen, message)
    ensures k < |seen| && seen[k].message == message
  {
    if seen[0].message == message {
      k := 0;
    } else {
      k := HasAt(seen[1..], message);
      k := k + 1;
    }
  }

  lemma {:induction false} DeleteKeepsOnly(seen: seq<Commit>, message: string)
    ensures forall c :: c in Delete(seen, message) ==> c in seen
  {
    if seen != [] && seen[0].message != message {
      DeleteKeepsOnly(seen[1..], message);
    }
  }

  lemma {:induction false} PutAddsOnly(seen: seq<Commit>, new': Commit)
    ensures forall c :: c in Put(seen, new') ==> c in seen || c == new'
  {
    if seen != [] && seen[0].message != new'.message {
      PutAddsOnly(seen[1..], new');
    }
  }

  /** Every commit in the result is one of the commits given. */
  lemma {:induction false} RevertedAreCommits(commits: seq<Commit>)
    ensures forall c :: c in Reverted(commits) ==> c in commits
  {
    if commits != [] {
      var before, last := commits[..|commits| - 1], commits[|commits| - 1];
      RevertedAreCommits(before);
      DeleteKeepsOnly(Reverted(before), Opposite(last.message));
      PutAddsOnly(Reverted(before), last);
      assert commits == before + [last];
    }
  }
}
