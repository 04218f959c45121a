/**
 Comment stripping, statement splitting and the execution guard
 (dataworks_agent/api_clients/destructive_guard.py). What makes a statement forbidden is an arbitrary predicate.
 */
module SqlGuard {
  import opened Values
  import opened Text

  // ----- scanning -----

  predicate StartsLineComment(s: string) {
    |s| >= 2 && s[0] == '-' && s[1] == '-'
  }

  predicate StartsBlockComment(s: string) {
    |s| >= 2 && s[0] == '/' && s[1] == '*'
  }

  /** From the first newline on. */
  function AfterLine(s: string): (r: string)
    ensures |r| <= |s| && (r != [] ==> r[0] == '\n')
    ensures s != [] && s[0] != '\n' ==> |r| < |s|
  {
    if s == [] || s[0] == '\n' then s else AfterLine(s[1..])
  }

  /** What follows the first comment end. */
  function AfterClose(s: string): (r: Option<string>)
    ensures r.Some? ==> |r.value| + 2 <= |s|
  {
    if |s| < 2 then None
    else if s[0] == '*' && s[1] == '/' then Some(s[2..])
    else AfterClose(s[1..])
  }

  /** re.sub("--[^\n]*", " ") */
  function StripLines(s: string): string
    decreases |s|
  {
    if s == [] then []
    else if StartsLineComment(s) then [' '] + StripLines(AfterLine(s))
    else [s[0]] + StripLines(s[1..])
  }

  predicate StartsClosedBlock(s: string) {
    StartsBlockComment(s) && AfterClose(s[2..]).Some?
  }

  /** re.sub of the shortest closed block comments by " " */
  function StripBlocks(s: string): string
    decreases |s|
  {
    if s == [] then []
    else if StartsClosedBlock(s) then [' '] + StripBlocks(AfterClose(s[2..]).value)
    else [s[0]] + StripBlocks(s[1..])
  }

  function StripComments(sql: string): string {
    StripBlocks(StripLines(sql))
  }

  // ----- nothing is left to strip -----

  predicate HasLineComment(s: string) {
    s != [] && (StartsLineComment(s) || HasLineComment(s[1..]))
  }

  predicate HasClosedBlock(s: string) {
    s != [] && (StartsClosedBlock(s) || HasClosedBlock(s[1..]))
  }

  lemma {:induction false} LinesAreStripped(s: string)
    ensures !HasLineComment(StripLines(s))
    ensures StripLines(s) != [] && s != [] ==> StripLines(s)[0] == s[0] || StripLines(s)[0] == ' '
    decreases |s|
  {
    if s != [] {
      var rest := if StartsLineComment(s) then AfterLine(s) else s[1..];
      LinesAreStripped(rest);
      assert StripLines(s)[1..] == StripLines(rest);
    }
  }

  lemma {:induction false} NoLinesToStrip(s: string)
    requires !HasLineComment(s)
    ensures StripLines(s) == s
  {
    if s != [] {
      NoLinesToStrip(s[1..]);
    }
  }

  lemma {:induction false} NoBlocksToStrip(s: string)
    requires !HasClosedBlock(s)
    ensures StripBlocks(s) == s
  {
    if s != [] {
      NoBlocksToStrip(s[1..]);
    }
  }

  lemma {:induction false} NoCloseNoBlock(s: string)
    requires AfterClose(s).None?
    ensures !HasClosedBlock(s)
    decreases |s|
  {
    if |s| >= 2 {
      NoCloseNoBlock(s[1..]);
      CloseInTail(s, 2);
    }
  }

  lemma {:induction false} CloseInTail(s: string, k: nat)
    requires k <= |s| && AfterClose(s).None?
    ensures AfterClose(s[k..]).None?
    decreases k
  {
    if k > 0 && s != [] {
      if |s| >= 2 {
        CloseInTail(s[1..], k - 1);
        assert s[1..][k - 1..] == s[k..];
      }
    }
  }

  lemma {:induction false} BlocksAreStripped(s: string)
    ensures !HasClosedBlock(StripBlocks(s))
    ensures s != [] ==> StripBlocks(s) != [] && (StripBlocks(s)[0] == s[0] || StripBlocks(s)[0] == ' ')
    decreases |s|
  {
    if s != [] {
      var r := StripBlocks(s);
      var rest := if StartsClosedBlock(s) then AfterClose(s[2..]).value else s[1..];
      BlocksAreStripped(rest);
      assert r[1..] == StripBlocks(rest);
      if StartsBlockComment(r) {
        assert s[0] == '/' && s[1] == '*';
        NoCloseNoBlock(s[2..]);
        NoBlocksToStrip(s[2..]);
        assert s[1..][1..] == s[2..];
        assert r[2..] == r[1..][1..] == s[2..];
      }
    }
  }

  lemma {:induction false} LineFreeTail(s: string, k: nat)
    requires !HasLineComment(s) && k <= |s|
    ensures !HasLineComment(s[k..])
    decreases k
  {
    if k > 0 {
      LineFreeTail(s[1..], k - 1);
      assert s[1..][k - 1..] == s[k..];
    }
  }

  lemma {:induction false} AfterCloseIsTail(s: string)
    requires AfterClose(s).Some?
    ensures AfterClose(s).value == s[|s| - |AfterClose(s).value|..]
  {
    if !(s[0] == '*' && s[1] == '/') {
      AfterCloseIsTail(s[1..]);
    }
  }

  lemma {:induction false} BlocksKeepLineFree(s: string)
    requires !HasLineComment(s)
    ensures !HasLineComment(StripBlocks(s))
    decreases |s|
  {
    if s != [] {
      var r := StripBlocks(s);
      var rest := if StartsClosedBlock(s) then AfterClose(s[2..]).value else s[1..];
      if StartsClosedBlock(s) {
        AfterCloseIsTail(s[2..]);
        LineFreeTail(s, |s| - |rest|);
        assert s[2..][|s| - 2 - |rest|..] == s[|s| - |rest|..];
      }
      BlocksKeepLineFree(rest);
      BlocksAreStripped(rest);
      assert r[1..] == StripBlocks(rest);
    }
  }

  /** The stripped text has no line comment and no closed block comment, and stripping again changes nothing. */
  lemma StrippingIsComplete(sql: string)
    ensures !HasLineComment(StripComments(sql)) && !HasClosedBlock(StripComments(sql))
    ensures StripComments(StripComments(sql)) == StripComments(sql)
  {
    var t := StripComments(sql);
    LinesAreStripped(sql);
    BlocksKeepLineFree(StripLines(sql));
    BlocksAreStripped(StripLines(sql));
    NoLinesToStrip(t);
    NoBlocksToStrip(t);
  }

  // ----- statements -----

  /** str.split(";") */
  function Split(s: string): (r: seq<string>)
    ensures r != []
  {
    if s == [] then [[]]
    else if s[0] == ';' then [[]] + Split(s[1..])
    else Prepend(s[0], Split(s[1..]))
  }

  function NonBlank(parts: seq<string>): seq<string> {
    if parts == [] then []
    else (if Strip(parts[0]) != [] then [Strip(parts[0])] else []) + NonBlank(parts[1..])
  }

  function SplitStatements(sql: string): seq<string> {
    NonBlank(Split(sql))
  }

  function Join(a: string, b: string): string {
    a + ";" + b
  }

  function Prepend(c: char, parts: seq<string>): seq<string>
    requires parts != []
  {
    [[c] + parts[0]] + parts[1..]
  }

  lemma PrependAppend(c: char, p: seq<string>, q: seq<string>)
    requires p != []
    ensures Prepend(c, p + q) == Prepend(c, p) + q
  {
    assert (p + q)[1..] == p[1..] + q;
  }

  lemma {:induction false} SplitJoin(a: string, b: string)
    ensures Split(Join(a, b)) == Split(a) + Split(b)
  {
    JoinTail(a, b);
    if a != [] {
      SplitJoin(a[1..], b);
      if a[0] == ';' {
        assert [[]] + (Split(a[1..]) + Split(b)) == [[]] + Split(a[1..]) + Split(b);
      } else {
        PrependAppend(a[0], Split(a[1..]), Split(b));
      }
    }
  }

  lemma JoinTail(a: string, b: string)
    ensures Join(a, b) != []
    ensures a == [] ==> Join(a, b)[0] == ';' && Join(a, b)[1..] == b
    ensures a != [] ==> Join(a, b)[0] == a[0] && Join(a, b)[1..] == Join(a[1..], b)
  {
    if a == [] {
      assert Join(a, b)[1..] == b;
    } else {
      assert Join(a, b)[1..] == Join(a[1..], b);
    }
  }

  lemma {:induction false} NonBlankAppend(p: seq<string>, q: seq<string>)
    ensures NonBlank(p + q) == NonBlank(p) + NonBlank(q)
  {
    if p == [] {
      assert p + q == q;
    } else {
      assert (p + q)[1..] == p[1..] + q;
      NonBlankAppend(p[1..], q);
    }
  }

  /** The statements of a joined script are those of its parts, in order. */
  lemma StatementsOfJoin(a: string, b: string)
    ensures SplitStatements(Join(a, b)) == SplitStatements(a) + SplitStatements(b)
  {
    SplitJoin(a, b);
    NonBlankAppend(Split(a), Split(b));
  }

  // ----- stripping a joined script -----

  /** The text stops inside a line comment. */
  predicate EndsInLine(s: string)
    decreases |s|
  {
    s != [] && if StartsLineComment(s) then AfterLine(s) == [] || EndsInLine(AfterLine(s)) else EndsInLine(s[1..])
  }

  /** The text stops inside a block comment that it opened. */
  predicate EndsInBlock(s: string)
    decreases |s|
  {
    s != []
    && if StartsBlockComment(s) then AfterClose(s[2..]).None? || EndsInBlock(AfterClose(s[2..]).value)
       else EndsInBlock(s[1..])
  }

  lemma {:induction false} AfterLineJoin(a: string, b: string)
    ensures AfterLine(Join(a, b)) == if AfterLine(a) == [] then AfterLine(b) else Join(AfterLine(a), b)
  {
    if a == [] {
      assert Join(a, b)[1..] == b;
    } else if a[0] != '\n' {
      assert Join(a, b)[1..] == Join(a[1..], b);
      AfterLineJoin(a[1..], b);
    }
  }

  /** An open line comment swallows the separator and the rest of its line; otherwise the parts are independent. */
  lemma {:induction false} StripLinesJoin(a: string, b: string)
    ensures StripLines(Join(a, b)) == JoinedLines(a, b, StripLines(a))
    decreases |a|
  {
    JoinTail(a, b);
    if a == [] {
    } else if StartsLineComment(a) {
      assert Join(a, b)[1] == a[1];
      AfterLineJoin(a, b);
      if AfterLine(a) != [] {
        StripLinesJoin(AfterLine(a), b);
        ConsJoin(' ', StripLines(AfterLine(a)), StripLines(b));
      }
    } else {
      assert |a| == 1 ==> Join(a, b)[1] == ';';
      assert |a| > 1 ==> Join(a, b)[1] == a[1];
      StripLinesJoin(a[1..], b);
      ConsJoin(a[0], StripLines(a[1..]), StripLines(b));
    }
  }

  /** The stripped first part, then what the second part contributes. */
  function JoinedLines(a: string, b: string, stripped: string): string {
    if EndsInLine(a) then stripped + StripLines(AfterLine(b)) else Join(stripped, StripLines(b))
  }

  lemma StripLinesJoinsIff(a: string, b: string)
    ensures StripLines(Join(a, b)) == Join(StripLines(a), StripLines(b)) <==> !EndsInLine(a)
  {
    StripLinesJoin(a, b);
    if EndsInLine(a) {
      var tail := StripLines(AfterLine(b));
      assert AfterLine(b) != [] ==> tail[0] == '\n';
      assert StripLines(a) + tail != Join(StripLines(a), StripLines(b)) by {
        assert Join(StripLines(a), StripLines(b))[|StripLines(a)|] == ';';
        assert tail != [] ==> (StripLines(a) + tail)[|StripLines(a)|] == tail[0];
      }
    }
  }

  lemma {:induction false} AfterCloseJoin(a: string, b: string)
    ensures AfterClose(Join(a, b))
         == if AfterClose(a).Some? then Some(Join(AfterClose(a).value, b)) else AfterClose(b)
  {
    var joined := Join(a, b);
    if a == [] {
      assert joined[1..] == b;
    } else if |a| >= 2 && a[0] == '*' && a[1] == '/' {
      assert joined[2..] == Join(a[2..], b);
    } else {
      assert joined[1..] == Join(a[1..], b);
      AfterCloseJoin(a[1..], b);
      assert |a| == 1 ==> joined[1] == ';';
      assert |joined| >= 2;
    }
  }

  /** Block comments are stripped part by part unless the first part opens one that the second closes. */
  lemma {:induction false} StripBlocksJoin(a: string, b: string)
    ensures StripBlocks(Join(a, b)) == Join(StripBlocks(a), StripBlocks(b))
            <==> !(EndsInBlock(a) && AfterClose(b).Some?)
    decreases |a|
  {
    var joined := Join(a, b);
    if a == [] {
      assert joined[1..] == b;
      assert Join([], StripBlocks(b)) == [';'] + StripBlocks(b);
    } else if StartsBlockComment(a) {
      assert joined[2..] == Join(a[2..], b);
      AfterCloseJoin(a[2..], b);
      if AfterClose(a[2..]).Some? {
        var rest := AfterClose(a[2..]).value;
        StripBlocksJoin(rest, b);
        ConsJoin(' ', StripBlocks(rest), StripBlocks(b));
        SameTail(' ', StripBlocks(Join(rest, b)), Join(StripBlocks(rest), StripBlocks(b)));
      } else if AfterClose(b).Some? {
        assert StripBlocks(joined)[0] == ' ' && StripBlocks(a)[0] == '/';
      } else {
        UnclosedStays(a, b);
      }
    } else {
      assert joined[1..] == Join(a[1..], b);
      assert |a| == 1 ==> joined[1] == ';';
      StripBlocksJoin(a[1..], b);
      ConsJoin(a[0], StripBlocks(a[1..]), StripBlocks(b));
      SameTail(a[0], StripBlocks(Join(a[1..], b)), Join(StripBlocks(a[1..]), StripBlocks(b)));
    }
  }

  lemma ConsJoin(c: char, a: string, b: string)
    ensures Join([c] + a, b) == [c] + Join(a, b)
  {
  }

  lemma SameTail(c: char, s: string, t: string)
    ensures [c] + s == [c] + t <==> s == t
  {
    assert ([c] + s)[1..] == s && ([c] + t)[1..] == t;
  }

  /** An opened comment that nothing closes is left as it is. */
  lemma UnclosedStays(a: string, b: string)
    requires StartsBlockComment(a) && AfterClose(a[2..]).None? && AfterClose(b).None?
    ensures StripBlocks(Join(a, b)) == Join(StripBlocks(a), StripBlocks(b))
  {
    var joined := Join(a, b);
    assert joined[2..] == Join(a[2..], b);
    AfterCloseJoin(a[2..], b);
    NoBlockFrom(a);
    NoBlockFrom(joined);
    NoCloseNoBlock(b);
    NoBlocksToStrip(a);
    NoBlocksToStrip(b);
    NoBlocksToStrip(joined);
  }

  lemma NoBlockFrom(s: string)
    requires StartsBlockComment(s) && AfterClose(s[2..]).None?
    ensures !HasClosedBlock(s)
  {
    NoCloseNoBlock(s[2..]);
    assert s[1..][1..] == s[2..];
    assert !StartsBlockComment(s[1..]);
  }

  // ----- the guard -----

  predicate AllAllowed(statements: seq<string>, forbidden: string -> bool) {
    forall i :: 0 <= i < |statements| ==> !forbidden(statements[i])
  }

  predicate Accepts(sql: string, forbidden: string -> bool) {
    AllAllowed(SplitStatements(StripComments(sql)), forbidden)
  }

  method FirstForbidden(statements: seq<string>, forbidden: string -> bool) returns (rejected: Option<nat>)
    ensures rejected.None? <==> AllAllowed(statements, forbidden)
    ensures rejected.Some? ==> && rejected.value < |statements| && forbidden(statements[rejected.value])
                               && AllAllowed(statements[..rejected.value], forbidden)
  {
    for i := 0 to |statements|
      invariant AllAllowed(statements[..i], forbidden)
    {
      if forbidden(statements[i]) { return Some(i); }
    }
    assert statements[..|statements|] == statements;
    rejected := None;
  }

  /** Rejects at the first forbidden statement. */
  method GuardSql(sql: string, forbidden: string -> bool) returns (rejected: Option<nat>)
    ensures rejected.None? <==> Accepts(sql, forbidden)
    ensures rejected.Some? ==>
              && rejected.value < |SplitStatements(StripComments(sql))|
              && forbidden(SplitStatements(StripComments(sql))[rejected.value])
              && AllAllowed(SplitStatements(StripComments(sql))[..rejected.value], forbidden)
  {
    var cleaned := StripComments(sql);
    var statements := SplitStatements(cleaned);
    rejected := FirstForbidden(statements, forbidden);
  }

  lemma AllAllowedAppend(p: seq<string>, q: seq<string>, forbidden: string -> bool)
    ensures AllAllowed(p + q, forbidden) <==> AllAllowed(p, forbidden) && AllAllowed(q, forbidden)
  {
    if AllAllowed(p + q, forbidden) {
      forall i | 0 <= i < |p| ensures !forbidden(p[i]) { assert (p + q)[i] == p[i]; }
      forall i | 0 <= i < |q| ensures !forbidden(q[i]) { assert (p + q)[|p| + i] == q[i]; }
    }
  }

  /** A part that leaves no comment open can be judged on its own. */
  predicate LeavesNothingOpen(a: string, b: string) {
    !EndsInLine(a) && !(EndsInBlock(StripLines(a)) && AfterClose(StripLines(b)).Some?)
  }

  /** Then the guard accepts the joined script exactly when it accepts both parts. */
  lemma GuardOfJoin(a: string, b: string, forbidden: string -> bool)
    requires LeavesNothingOpen(a, b)
    ensures Accepts(Join(a, b), forbidden) <==> Accepts(a, forbidden) && Accepts(b, forbidden)
  {
    StripLinesJoinsIff(a, b);
    StripBlocksJoin(StripLines(a), StripLines(b));
    StatementsOfJoin(StripComments(a), StripComments(b));
    AllAllowedAppend(SplitStatements(StripComments(a)), SplitStatements(StripComments(b)), forbidden);
  }

  predicate OpensBlock(s: string) {
    s != [] && (StartsBlockComment(s) || OpensBlock(s[1..]))
  }

  lemma {:induction false} CommentFreeLeavesNothingOpen(a: string)
    requires !HasLineComment(a) && !OpensBlock(a)
    ensures !EndsInLine(a) && !EndsInBlock(a)
  {
    if a != [] {
      CommentFreeLeavesNothingOpen(a[1..]);
    }
  }

  /** In particular on comment-free text. */
  lemma GuardOfCommentFreeJoin(a: string, b: string, forbidden: string -> bool)
    requires !HasLineComment(a) && !OpensBlock(a)
    ensures Accepts(Join(a, b), forbidden) <==> Accepts(a, forbidden) && Accepts(b, forbidden)
  {
    CommentFreeLeavesNothingOpen(a);
    NoLinesToStrip(a);
    GuardOfJoin(a, b, forbidden);
  }

  // ----- text in quotes -----

  /** The quote that is open after a character; doubling a quote inside a literal closes and reopens it. */
  function NextQuote(open: Option<char>, c: char): Option<char> {
    if open.None? then (if c == '\'' || c == '"' then Some(c) else None)
    else if c == open.value then None
    else open
  }

  /** str.split, were it to respect literals. */
  function SplitOutside(s: string, open: Option<char>): (r: seq<string>)
    ensures r != []
  {
    if s == [] then [[]]
    else if s[0] == ';' && open.None? then [[]] + SplitOutside(s[1..], None)
    else Prepend(s[0], SplitOutside(s[1..], NextQuote(open, s[0])))
  }

  predicate SemicolonInLiteral(s: string, open: Option<char>) {
    s != []
    && if s[0] == ';' then open.Some? || SemicolonInLiteral(s[1..], None)
       else SemicolonInLiteral(s[1..], NextQuote(open, s[0]))
  }

  lemma SamePrepend(c: char, p: seq<string>, q: seq<string>)
    requires p != [] && q != []
    ensures Prepend(c, p) == Prepend(c, q) <==> p == q
  {
    if Prepend(c, p) == Prepend(c, q) {
      assert Prepend(c, p)[0] == [c] + p[0] && Prepend(c, q)[0] == [c] + q[0];
      SameTail(c, p[0], q[0]);
      assert Prepend(c, p)[1..] == p[1..] && Prepend(c, q)[1..] == q[1..];
      assert p == [p[0]] + p[1..] && q == [q[0]] + q[1..];
    }
  }

  /** The text is cut as if literals were respected exactly when no literal holds a semicolon. */
  lemma {:induction false} SplitRespectsLiteralsIff(s: string, open: Option<char>)
    ensures Split(s) == SplitOutside(s, open) <==> !SemicolonInLiteral(s, open)
  {
    if s == [] {
    } else if s[0] != ';' {
      SplitRespectsLiteralsIff(s[1..], NextQuote(open, s[0]));
      SamePrepend(s[0], Split(s[1..]), SplitOutside(s[1..], NextQuote(open, s[0])));
    } else if open.None? {
      SplitRespectsLiteralsIff(s[1..], None);
      assert ([[]] + Split(s[1..]))[1..] == Split(s[1..]);
      assert ([[]] + SplitOutside(s[1..], None))[1..] == SplitOutside(s[1..], None);
    } else {
      assert Split(s)[0] == [] && SplitOutside(s, open)[0] != [];
    }
  }

  // ----- what splitting does -----

  function JoinAll(parts: seq<string>): string
    requires parts != []
  {
    if |parts| == 1 then parts[0] else Join(parts[0], JoinAll(parts[1..]))
  }

  /** The parts hold no semicolon, and joined by semicolons they are the text again. */
  lemma {:induction false} SplitCutsAtSemicolons(s: string)
    ensures forall i :: 0 <= i < |Split(s)| ==> ';' !in Split(s)[i]
    ensures JoinAll(Split(s)) == s
  {
    if s != [] {
      SplitCutsAtSemicolons(s[1..]);
      var rest := Split(s[1..]);
      if s[0] == ';' {
        assert ([[]] + rest)[1..] == rest;
        assert Join([], s[1..]) == [';'] + s[1..];
      } else {
        var parts := Prepend(s[0], rest);
        assert parts[1..] == rest[1..];
        assert [s[0]] + s[1..] == s;
        if |rest| > 1 {
          assert Join([s[0]] + rest[0], JoinAll(rest[1..])) == [s[0]] + Join(rest[0], JoinAll(rest[1..]));
        }
      }
    }
  }

  /** The statements are the parts that are not blank, stripped, in order. */
  lemma {:induction false} StatementsAreStripped(parts: seq<string>)
    ensures forall statement :: statement in NonBlank(parts) <==>
              statement != [] && exists i :: 0 <= i < |parts| && Strip(parts[i]) == statement
  {
    if parts != [] {
      StatementsAreStripped(parts[1..]);
      forall statement
        ensures statement in NonBlank(parts) <==>
                  statement != [] && exists i :: 0 <= i < |parts| && Strip(parts[i]) == statement
      {
        if i :| 0 <= i < |parts| && Strip(parts[i]) == statement && i > 0 {
          assert parts[1..][i - 1] == parts[i];
        }
        if i :| 0 <= i < |parts[1..]| && Strip(parts[1..][i]) == statement {
          assert parts[i + 1] == parts[1..][i];
        }
      }
    }
  }
}
