/** Comment stripping in two passes against one scan that knows literals and both kinds of comments. */
module SqlScanner {
  import opened Values
  import opened SqlGuard

  /** Each comment becomes a space. A block comment that nothing closes is text. */
  function OnePass(s: string, open: Option<char>): string
    decreases |s|
  {
    if s == [] then []
    else if open.None? && StartsLineComment(s) then [' '] + OnePass(AfterLine(s), None)
    else if open.None? && StartsClosedBlock(s) then [' '] + OnePass(AfterClose(s[2..]).value, None)
    else [s[0]] + OnePass(s[1..], NextQuote(open, s[0]))
  }

  /** The first comment end of the text does not stand in a line comment. */
  predicate CloseSurvives(r: string)
    decreases |r|
  {
    |r| >= 2
    && if r[0] == '*' && r[1] == '/' then true
       else if StartsLineComment(r) then AfterClose(AfterLine(r)) == AfterClose(r) && CloseSurvives(AfterLine(r))
       else CloseSurvives(r[1..])
  }

  /**
   The scan meets no comment mark in a literal that the passes would obey, and no block comment whose end a line
   comment inside it would hide.
   */
  predicate PlainComments(s: string, open: Option<char>)
    decreases |s|
  {
    if s == [] then true
    else if StartsLineComment(s) then open.None? && PlainComments(AfterLine(s), None)
    else if StartsBlockComment(s) && open.Some? then
      AfterClose(StripLines(s[2..])).None? && PlainComments(s[1..], NextQuote(open, s[0]))
    else if StartsClosedBlock(s) then CloseSurvives(s[2..]) && PlainComments(AfterClose(s[2..]).value, None)
    else PlainComments(s[1..], NextQuote(open, s[0]))
  }

  // ----- the same passes, with every character marked by its place in the script -----

  /** A character of the stripped text, with how much of the script was left where it was read. */
  datatype Mark = Mark(c: char, left: nat)

  function TextOf(marks: seq<Mark>): (r: string)
    ensures |r| == |marks| && forall i :: 0 <= i < |marks| ==> r[i] == marks[i].c
  {
    seq(|marks|, i requires 0 <= i < |marks| => marks[i].c)
  }

  function MarkLines(s: string): seq<Mark>
    decreases |s|
  {
    if s == [] then []
    else if StartsLineComment(s) then [Mark(' ', |s|)] + MarkLines(AfterLine(s))
    else [Mark(s[0], |s|)] + MarkLines(s[1..])
  }

  function MarkBlocks(marks: seq<Mark>): seq<Mark>
    decreases |marks|
  {
    if marks == [] then []
    else if StartsClosedBlock(TextOf(marks)) then [Mark(' ', marks[0].left)] + MarkBlocks(AfterBlock(marks))
    else [marks[0]] + MarkBlocks(marks[1..])
  }

  /** What follows the block comment that the marked text starts with. */
  function AfterBlock(marks: seq<Mark>): (r: seq<Mark>)
    requires StartsClosedBlock(TextOf(marks))
    ensures |r| < |marks|
  {
    marks[|marks| - |AfterClose(TextOf(marks)[2..]).value|..]
  }

  function MarkOnePass(s: string, open: Option<char>): seq<Mark>
    decreases |s|
  {
    if s == [] then []
    else if open.None? && StartsLineComment(s) then [Mark(' ', |s|)] + MarkOnePass(AfterLine(s), None)
    else if open.None? && StartsClosedBlock(s) then [Mark(' ', |s|)] + MarkOnePass(AfterClose(s[2..]).value, None)
    else [Mark(s[0], |s|)] + MarkOnePass(s[1..], NextQuote(open, s[0]))
  }

  lemma TextOfCons(m: Mark, marks: seq<Mark>)
    ensures TextOf([m] + marks) == [m.c] + TextOf(marks)
  {
  }

  lemma TextOfDrop(marks: seq<Mark>, k: nat)
    requires k <= |marks|
    ensures TextOf(marks[k..]) == TextOf(marks)[k..]
  {
  }

  lemma {:induction false} MarkLinesText(s: string)
    ensures TextOf(MarkLines(s)) == StripLines(s)
    decreases |s|
  {
    if s != [] {
      var rest := if StartsLineComment(s) then AfterLine(s) else s[1..];
      MarkLinesText(rest);
      TextOfCons(if StartsLineComment(s) then Mark(' ', |s|) else Mark(s[0], |s|), MarkLines(rest));
    }
  }

  lemma TailOfTail(s: string)
    requires StartsClosedBlock(s)
    ensures AfterClose(s[2..]).value == s[|s| - |AfterClose(s[2..]).value|..]
  {
    var rest := AfterClose(s[2..]).value;
    AfterCloseIsTail(s[2..]);
    assert s[2..][|s| - 2 - |rest|..] == s[|s| - |rest|..];
  }

  lemma {:induction false} MarkBlocksText(marks: seq<Mark>)
    ensures TextOf(MarkBlocks(marks)) == StripBlocks(TextOf(marks))
    decreases |marks|
  {
    if marks != [] {
      var s := TextOf(marks);
      if StartsClosedBlock(s) {
        var k := |marks| - |AfterClose(s[2..]).value|;
        TailOfTail(s);
        TextOfDrop(marks, k);
        MarkBlocksText(marks[k..]);
        TextOfCons(Mark(' ', marks[0].left), MarkBlocks(marks[k..]));
      } else {
        TextOfDrop(marks, 1);
        MarkBlocksText(marks[1..]);
        TextOfCons(marks[0], MarkBlocks(marks[1..]));
      }
    }
  }

  lemma {:induction false} MarkOnePassText(s: string, open: Option<char>)
    ensures TextOf(MarkOnePass(s, open)) == OnePass(s, open)
    decreases |s|
  {
    if s == [] {
    } else if open.None? && StartsLineComment(s) {
      MarkOnePassText(AfterLine(s), None);
      TextOfCons(Mark(' ', |s|), MarkOnePass(AfterLine(s), None));
    } else if open.None? && StartsClosedBlock(s) {
      MarkOnePassText(AfterClose(s[2..]).value, None);
      TextOfCons(Mark(' ', |s|), MarkOnePass(AfterClose(s[2..]).value, None));
    } else {
      MarkOnePassText(s[1..], NextQuote(open, s[0]));
      TextOfCons(Mark(s[0], |s|), MarkOnePass(s[1..], NextQuote(open, s[0])));
    }
  }

  // ----- comment ends that survive the line pass -----

  lemma {:induction false} AfterLineIsTail(s: string)
    ensures AfterLine(s) == s[|s| - |AfterLine(s)|..]
  {
    if s != [] && s[0] != '\n' {
      AfterLineIsTail(s[1..]);
      assert s[1..][|s| - 1 - |AfterLine(s)|..] == s[|s| - |AfterLine(s)|..];
    }
  }

  /** A comment end in a tail of the text is one in the text, where there may be an earlier one. */
  lemma {:induction false} CloseOfTail(s: string, k: nat)
    requires k <= |s| && AfterClose(s[k..]).Some?
    ensures AfterClose(s).Some? && |AfterClose(s[k..]).value| <= |AfterClose(s).value|
    decreases k
  {
    if k > 0 {
      assert s[1..][k - 1..] == s[k..];
      CloseOfTail(s[1..], k - 1);
    } else {
      assert s[0..] == s;
    }
  }

  lemma SameTails(s: string, a: string, b: string)
    requires |a| == |b| <= |s| && a == s[|s| - |a|..] && b == s[|s| - |b|..]
    ensures a == b
  {
  }

  /** The two first characters after the line pass, when the text does not start with a line comment. */
  lemma StripLinesStart(s: string)
    requires s != [] && !StartsLineComment(s)
    ensures StripLines(s) == [s[0]] + StripLines(s[1..])
    ensures |s| > 1 && s[1] != '-' ==> StripLines(s[1..]) == [s[1]] + StripLines(s[2..])
    ensures |StripLines(s)| > 1 ==> |s| > 1 && (StripLines(s)[1] == s[1] || StripLines(s)[1] == ' ')
  {
    if |s| > 1 {
      assert s[1..][1..] == s[2..];
      assert StripLines(s)[1] == StripLines(s[1..])[0];
    }
  }

  ghost predicate EndsWith(marks: seq<Mark>, tail: seq<Mark>) {
    |tail| <= |marks| && marks[|marks| - |tail|..] == tail
  }

  lemma EndsWithCons(m: Mark, marks: seq<Mark>, tail: seq<Mark>)
    requires EndsWith(marks, tail)
    ensures EndsWith([m] + marks, tail)
  {
  }

  /** The comment end after the line pass is followed by what the pass makes of x. */
  ghost predicate ClosesBefore(r: string, x: string) {
    AfterClose(StripLines(r)) == Some(StripLines(x)) && EndsWith(MarkLines(r), MarkLines(x))
  }

  /** It is the first comment end of the text, if that survives, or else a later one. */
  ghost predicate FirstIfSurvives(r: string, x: string) {
    && AfterClose(r).Some? && |x| <= |AfterClose(r).value|
    && (CloseSurvives(r) <==> x == AfterClose(r).value)
    && (x != AfterClose(r).value ==> |x| < |AfterClose(r).value|)
  }

  lemma {:induction false} ClosesHere(r: string)
    requires |r| >= 2 && r[0] == '*' && r[1] == '/'
    ensures ClosesBefore(r, r[2..]) && FirstIfSurvives(r, r[2..])
  {
    StripLinesStart(r);
    var t := StripLines(r);
    assert r[1..][1..] == r[2..];
    assert t == ['*'] + (['/'] + StripLines(r[2..]));
    assert t[2..] == StripLines(r[2..]);
    var marks := MarkLines(r[2..]);
    EndsWithCons(Mark('/', |r| - 1), marks, marks);
    EndsWithCons(Mark('*', |r|), [Mark('/', |r| - 1)] + marks, marks);
  }

  /** A comment end further on, past one that the text does not start with. */
  lemma CloseFurtherOn(t: string, c: char, rest: string)
    requires t == [c] + rest && !(c == '*' && rest != [] && rest[0] == '/')
    ensures AfterClose(t) == AfterClose(rest)
  {
    assert t[1..] == rest;
  }

  lemma {:induction false} ClosesBeforeAfterLine(r: string, x: string)
    requires StartsLineComment(r) && ClosesBefore(AfterLine(r), x)
    ensures ClosesBefore(r, x)
  {
    CloseFurtherOn(StripLines(r), ' ', StripLines(AfterLine(r)));
    EndsWithCons(Mark(' ', |r|), MarkLines(AfterLine(r)), MarkLines(x));
  }

  lemma {:induction false} ClosesBeforeAfterChar(r: string, x: string)
    requires r != [] && !StartsLineComment(r) && !(|r| >= 2 && r[0] == '*' && r[1] == '/')
    requires ClosesBefore(r[1..], x)
    ensures ClosesBefore(r, x)
  {
    StripLinesStart(r);
    CloseFurtherOn(StripLines(r), r[0], StripLines(r[1..]));
    EndsWithCons(Mark(r[0], |r|), MarkLines(r[1..]), MarkLines(x));
  }

  lemma {:induction false} FirstAfterLine(r: string, x: string)
    requires StartsLineComment(r) && FirstIfSurvives(AfterLine(r), x)
    ensures FirstIfSurvives(r, x)
  {
    var a := AfterLine(r);
    AfterLineIsTail(r);
    CloseOfTail(r, |r| - |a|);
    var ca, cr := AfterClose(a).value, AfterClose(r).value;
    AfterCloseIsTail(a);
    AfterCloseIsTail(r);
    TailsCompose(r, a, ca);
    if |ca| == |cr| {
      SameTails(r, ca, cr);
    }
  }

  lemma TailsCompose(s: string, a: string, b: string)
    requires |b| <= |a| <= |s| && a == s[|s| - |a|..] && b == a[|a| - |b|..]
    ensures b == s[|s| - |b|..]
  {
  }

  lemma {:induction false} SurvivingClose(r: string) returns (x: string)
    requires AfterClose(StripLines(r)).Some?
    ensures ClosesBefore(r, x) && FirstIfSurvives(r, x)
    decreases |r|
  {
    if |r| >= 2 && r[0] == '*' && r[1] == '/' {
      x := r[2..];
      ClosesHere(r);
    } else if StartsLineComment(r) {
      CloseFurtherOn(StripLines(r), ' ', StripLines(AfterLine(r)));
      x := SurvivingClose(AfterLine(r));
      ClosesBeforeAfterLine(r, x);
      FirstAfterLine(r, x);
    } else {
      StripLinesStart(r);
      CloseFurtherOn(StripLines(r), r[0], StripLines(r[1..]));
      x := SurvivingClose(r[1..]);
      ClosesBeforeAfterChar(r, x);
    }
  }

  lemma {:induction false} SurvivorCloses(r: string)
    requires CloseSurvives(r)
    ensures AfterClose(StripLines(r)).Some?
    decreases |r|
  {
    if r[0] == '*' && r[1] == '/' {
      ClosesHere(r);
    } else if StartsLineComment(r) {
      SurvivorCloses(AfterLine(r));
      CloseFurtherOn(StripLines(r), ' ', StripLines(AfterLine(r)));
    } else {
      SurvivorCloses(r[1..]);
      StripLinesStart(r);
      CloseFurtherOn(StripLines(r), r[0], StripLines(r[1..]));
    }
  }

  // ----- the passes against the scan -----

  lemma SameMarksTail(m: Mark, s: seq<Mark>, t: seq<Mark>)
    ensures [m] + s == [m] + t <==> s == t
  {
    assert ([m] + s)[1..] == s && ([m] + t)[1..] == t;
  }

  lemma DifferentHeads(m: Mark, n: Mark, s: seq<Mark>, t: seq<Mark>)
    requires m != n
    ensures [m] + s != [n] + t
  {
    assert ([m] + s)[0] == m && ([n] + t)[0] == n;
  }

  ghost predicate SameMarks(s: string, open: Option<char>) {
    MarkBlocks(MarkLines(s)) == MarkOnePass(s, open)
  }

  lemma {:induction false} AtLineComment(s: string, open: Option<char>)
    requires StartsLineComment(s)
    requires SameMarks(AfterLine(s), None) <==> PlainComments(AfterLine(s), None)
    ensures SameMarks(s, open) <==> PlainComments(s, open)
  {
    var m, rest := Mark(' ', |s|), MarkLines(AfterLine(s));
    assert ([m] + rest)[1..] == rest;
    assert TextOf([m] + rest)[0] == ' ';
    if open.None? {
      SameMarksTail(m, MarkBlocks(rest), MarkOnePass(AfterLine(s), None));
    } else {
      DifferentHeads(m, Mark('-', |s|), MarkBlocks(rest), MarkOnePass(s[1..], NextQuote(open, s[0])));
    }
  }

  /** Whether a block comment starts is not changed by the line pass; what follows its start is stripped for itself. */
  lemma {:induction false} BlockAfterLines(s: string)
    requires s != [] && !StartsLineComment(s)
    ensures StartsBlockComment(StripLines(s)) <==> StartsBlockComment(s)
    ensures StartsBlockComment(s) ==> StripLines(s)[2..] == StripLines(s[2..])
  {
    StripLinesStart(s);
    if StartsBlockComment(s) {
      assert StripLines(s) == ['/'] + (['*'] + StripLines(s[2..]));
    }
  }

  lemma {:induction false} CopiedByBoth(s: string, open: Option<char>)
    requires s != [] && !StartsLineComment(s) && !StartsClosedBlock(StripLines(s))
    requires !(open.None? && StartsClosedBlock(s))
    ensures SameMarks(s, open) <==> SameMarks(s[1..], NextQuote(open, s[0]))
  {
    var m, rest := Mark(s[0], |s|), MarkLines(s[1..]);
    MarkLinesText(s);
    assert ([m] + rest)[1..] == rest;
    SameMarksTail(m, MarkBlocks(rest), MarkOnePass(s[1..], NextQuote(open, s[0])));
  }

  lemma MarkLinesHead(x: string)
    ensures x == [] <==> MarkLines(x) == []
    ensures x != [] ==> MarkLines(x)[0].left == |x|
  {
  }

  lemma MarkBlocksHead(marks: seq<Mark>)
    ensures marks == [] <==> MarkBlocks(marks) == []
    ensures marks != [] ==> MarkBlocks(marks)[0].left == marks[0].left
  {
  }

  lemma MarkOnePassHead(s: string, open: Option<char>)
    ensures s == [] <==> MarkOnePass(s, open) == []
    ensures s != [] ==> MarkOnePass(s, open)[0].left == |s|
  {
  }

  /** What the block pass leaves of a block comment that is closed after the line pass. */
  lemma {:induction false} ClosedByPasses(s: string, x: string)
    requires StartsBlockComment(s) && ClosesBefore(s[2..], x)
    ensures MarkBlocks(MarkLines(s)) == [Mark(' ', |s|)] + MarkBlocks(MarkLines(x))
  {
    BlockAfterLines(s);
    MarkLinesText(s);
    MarkLinesText(x);
    assert s[1..][1..] == s[2..];
    var rest := MarkLines(s[2..]);
    EndsWithCons(Mark('*', |s| - 1), rest, MarkLines(x));
    EndsWithCons(Mark('/', |s|), [Mark('*', |s| - 1)] + rest, MarkLines(x));
    SkipBlock(MarkLines(s), MarkLines(x));
  }

  lemma {:induction false} SkipBlock(marks: seq<Mark>, tail: seq<Mark>)
    requires marks != [] && EndsWith(marks, tail) && StartsClosedBlock(TextOf(marks))
    requires |AfterClose(TextOf(marks)[2..]).value| == |tail|
    ensures MarkBlocks(marks) == [Mark(' ', marks[0].left)] + MarkBlocks(tail)
  {
    assert AfterBlock(marks) == tail;
  }

  lemma {:induction false} AtClosedBlock(s: string, x: string)
    requires StartsBlockComment(s) && ClosesBefore(s[2..], x) && FirstIfSurvives(s[2..], x)
    requires x == AfterClose(s[2..]).value ==> (SameMarks(x, None) <==> PlainComments(x, None))
    ensures SameMarks(s, None) <==> PlainComments(s, None)
  {
    var rest := AfterClose(s[2..]).value;
    ClosedByPasses(s, x);
    SameMarksTail(Mark(' ', |s|), MarkBlocks(MarkLines(x)), MarkOnePass(rest, None));
    if x != rest {
      MarkLinesHead(x);
      MarkBlocksHead(MarkLines(x));
      MarkOnePassHead(rest, None);
    }
  }

  /** Closed for the passes but in a literal, or closed for the scan but not for the passes. */
  lemma {:induction false} AtDisputedBlock(s: string, open: Option<char>)
    requires StartsBlockComment(s)
    requires AfterClose(StripLines(s[2..])).Some? <==> open.Some?
    requires open.None? ==> AfterClose(s[2..]).Some?
    ensures !SameMarks(s, open) && !PlainComments(s, open)
  {
    BlockAfterLines(s);
    MarkLinesText(s);
    if open.Some? {
      var x := SurvivingClose(s[2..]);
      ClosedByPasses(s, x);
      DifferentHeads(Mark(' ', |s|), Mark('/', |s|), MarkBlocks(MarkLines(x)),
                     MarkOnePass(s[1..], NextQuote(open, s[0])));
    } else {
      if CloseSurvives(s[2..]) {
        SurvivorCloses(s[2..]);
      }
      DifferentHeads(Mark('/', |s|), Mark(' ', |s|), MarkBlocks(MarkLines(s)[1..]),
                     MarkOnePass(AfterClose(s[2..]).value, None));
    }
  }

  lemma {:induction false} PassesScanAlikeIff(s: string, open: Option<char>)
    ensures SameMarks(s, open) <==> PlainComments(s, open)
    decreases |s|
  {
    if s == [] {
    } else if StartsLineComment(s) {
      PassesScanAlikeIff(AfterLine(s), None);
      AtLineComment(s, open);
    } else if !StartsBlockComment(s) {
      BlockAfterLines(s);
      PassesScanAlikeIff(s[1..], NextQuote(open, s[0]));
      CopiedByBoth(s, open);
    } else {
      AtBlock(s, open);
    }
  }

  lemma {:induction false} AtBlock(s: string, open: Option<char>)
    requires StartsBlockComment(s)
    ensures SameMarks(s, open) <==> PlainComments(s, open)
    decreases |s|, 0
  {
    BlockAfterLines(s);
    if AfterClose(StripLines(s[2..])).Some? && open.None? {
      var x := SurvivingClose(s[2..]);
      if x == AfterClose(s[2..]).value {
        PassesScanAlikeIff(x, None);
      }
      AtClosedBlock(s, x);
    } else if AfterClose(StripLines(s[2..])).Some? || (open.None? && AfterClose(s[2..]).Some?) {
      AtDisputedBlock(s, open);
    } else {
      PassesScanAlikeIff(s[1..], NextQuote(open, s[0]));
      CopiedByBoth(s, open);
    }
  }

  /**
   The passes read every character of the stripped text from where the scan reads it exactly when the comments are
   plain; then they strip what is meant to be stripped.
   */
  lemma StripsAsMeantIff(sql: string)
    ensures MarkBlocks(MarkLines(sql)) == MarkOnePass(sql, None) <==> PlainComments(sql, None)
    ensures TextOf(MarkBlocks(MarkLines(sql))) == StripComments(sql)
    ensures PlainComments(sql, None) ==> StripComments(sql) == OnePass(sql, None)
  {
    PassesScanAlikeIff(sql, None);
    MarkLinesText(sql);
    MarkBlocksText(MarkLines(sql));
    MarkOnePassText(sql, None);
  }

  /** With plain comments, the script is cut into the statements meant exactly when no literal holds a semicolon. */
  lemma CutsAsMeantIff(sql: string)
    requires PlainComments(sql, None)
    ensures Split(StripComments(sql)) == SplitOutside(OnePass(sql, None), None)
            <==> !SemicolonInLiteral(OnePass(sql, None), None)
  {
    StripsAsMeantIff(sql);
    SplitRespectsLiteralsIff(OnePass(sql, None), None);
  }

  /** Two dashes stand in the text before its first comment end. */
  predicate DashesBeforeClose(r: string) {
    |r| >= 2 && !(r[0] == '*' && r[1] == '/') && (StartsLineComment(r) || DashesBeforeClose(r[1..]))
  }

  lemma {:induction false} DashlessCloseSurvives(r: string)
    requires AfterClose(r).Some? && !DashesBeforeClose(r)
    ensures CloseSurvives(r)
  {
    if !(r[0] == '*' && r[1] == '/') {
      DashlessCloseSurvives(r[1..]);
    }
  }

  /** Dashes in a block comment hide its end and what follows on the line: the statement behind it is lost. */
  lemma DashesHideTheClose()
    ensures StripComments("/*--*/D") == "/* " && OnePass("/*--*/D", None) == " D"
    ensures !PlainComments("/*--*/D", None)
  {
    var s := "/*--*/D";
    assert s[1..] == "*--*/D" && s[2..] == "--*/D";
    assert s[1..][1..] == s[2..];
    LineOnly("--*/D");
    assert StripLines(s[2..]) == [' '] + StripLines("");
    assert StripLines(s[1..]) == ['*'] + StripLines(s[2..]);
    assert StripLines(s) == ['/'] + StripLines(s[1..]) == "/* ";
    assert "/* "[1..] == "* " && "/* "[2..] == " " && "* "[1..] == " " && " "[1..] == "";
    NoBlocksToStrip("/* ");
    CloseAt("--*/D", 2);
    assert AfterClose(s[2..]) == Some("D");
    assert OnePass("D", None) == ['D'] + OnePass("", NextQuote(None, 'D')) by { assert "D"[1..] == ""; }
    StripsAsMeantIff(s);
  }

  lemma {:induction false} LineOnly(s: string)
    requires forall i :: 0 <= i < |s| ==> s[i] != '\n'
    ensures AfterLine(s) == ""
  {
    if s != [] {
      LineOnly(s[1..]);
    }
  }

  lemma {:induction false} CloseAt(s: string, k: nat)
    requires k + 2 <= |s| && s[k] == '*' && s[k + 1] == '/'
    requires forall i :: 0 <= i < k ==> !(s[i] == '*' && s[i + 1] == '/')
    ensures AfterClose(s) == Some(s[k + 2..])
  {
    if k > 0 {
      CloseAt(s[1..], k - 1);
      assert s[1..][k + 1..] == s[k + 2..];
    }
  }
}
