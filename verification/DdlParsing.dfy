/**
 Cutting a file of table definitions into one block per table: the one-pass parser
 (scripts/deploy_dwd.py) and the parser for a single table (scripts/rebuild_dwd_root.py). The file is given
 as its lines; `tableOf` is the pattern that names the table of a stripped drop line.
 */
module DdlParsing {
  import opened Values
  import opened Text

  /** A parsed table, as the lines of its definition. */
  datatype Table = Table(name: string, body: seq<string>) {
    function Ddl(): string {
      DdlText(body)
    }
  }

  /** A lone ";" is never a drop line, which starts with the word drop. */
  datatype LineKind = Drop(name: string) | End | Other

  function KindOf(line: string, tableOf: string -> Option<string>): LineKind {
    var stripped := Strip(line);
    if stripped == ";" then End
    else if tableOf(stripped).Some? then Drop(tableOf(stripped).value)
    else Other
  }

  /** How a line that is not blank is read does not depend on its indentation. */
  lemma IndentationDoesNotCount(left: string, line: string, right: string, tableOf: string -> Option<string>)
    requires AllSpace(left) && AllSpace(right) && Strip(line) != []
    ensures KindOf(left + line + right, tableOf) == KindOf(line, tableOf)
    ensures KindOf(left + ";" + right, tableOf) == End
  {
    StripIgnores(left, line, right);
    assert Strip(";") == ";";
    StripIgnores(left, ";", right);
  }

  function Reader(tableOf: string -> Option<string>): string -> LineKind {
    line => KindOf(line, tableOf)
  }

  function Kinds(lines: seq<string>, kindOf: string -> LineKind): (r: seq<LineKind>)
    ensures |r| == |lines| && forall i :: 0 <= i < |lines| ==> r[i] == kindOf(lines[i])
  {
    seq(|lines|, i requires 0 <= i < |lines| => kindOf(lines[i]))
  }

  function JoinLines(lines: seq<string>): string {
    if lines == [] then ""
    else if |lines| == 1 then lines[0]
    else lines[0] + "\n" + JoinLines(lines[1..])
  }

  function DdlText(lines: seq<string>): string {
    Strip(JoinLines(lines))
  }

  /** The text of a table is its lines without the white space around them. */
  lemma DdlTextCuts(lines: seq<string>) returns (left: string, right: string)
    ensures JoinLines(lines) == left + DdlText(lines) + right && AllSpace(left) && AllSpace(right)
    ensures DdlText(lines) != [] ==> !IsSpace(DdlText(lines)[0]) && !IsSpace(DdlText(lines)[|DdlText(lines)| - 1])
  {
    left, right := StripCuts(JoinLines(lines));
  }

  /** Joined lines are joined by line feeds. */
  lemma {:induction false} JoinLinesAppend(a: seq<string>, b: seq<string>)
    requires a != [] && b != []
    ensures JoinLines(a + b) == JoinLines(a) + "\n" + JoinLines(b)
  {
    if |a| == 1 {
      assert (a + b)[1..] == b;
    } else {
      assert (a + b)[1..] == a[1..] + b;
      JoinLinesAppend(a[1..], b);
    }
  }

  // ----- the blocks, read off the lines -----

  /** The lines from first up to last belong to the table. */
  datatype Block = Block(name: string, first: nat, last: nat)

  /** The block of an earlier drop line ends before the next drop line, after a lone ";", or with the file. */
  function BlockEnd(kinds: seq<LineKind>, i: nat): (r: nat)
    requires i <= |kinds|
    ensures i <= r <= |kinds|
    decreases |kinds| - i
  {
    if i == |kinds| || kinds[i].Drop? then i
    else if kinds[i].End? then i + 1
    else BlockEnd(kinds, i + 1)
  }

  function Blocks(kinds: seq<LineKind>, i: nat): (r: seq<Block>)
    requires i <= |kinds|
    ensures forall k :: 0 <= k < |r| ==> i <= r[k].first < r[k].last <= |kinds|
    decreases |kinds| - i
  {
    if i == |kinds| then []
    else
      match kinds[i]
      case Drop(name) => [Block(name, i, BlockEnd(kinds, i + 1))] + Blocks(kinds, i + 1)
      case _ => Blocks(kinds, i + 1)
  }

  predicate WithinLines(blocks: seq<Block>, n: nat) {
    forall k :: 0 <= k < |blocks| ==> blocks[k].first <= blocks[k].last <= n
  }

  function TablesOf(lines: seq<string>, blocks: seq<Block>): (r: seq<Table>)
    requires WithinLines(blocks, |lines|)
    ensures |r| == |blocks|
    ensures forall k :: 0 <= k < |blocks| ==>
              r[k] == Table(blocks[k].name, lines[blocks[k].first..blocks[k].last])
  {
    seq(|blocks|, k requires 0 <= k < |blocks| =>
      Table(blocks[k].name, lines[blocks[k].first..blocks[k].last]))
  }

  function DropLines(kinds: seq<LineKind>, i: nat): nat
    requires i <= |kinds|
    decreases |kinds| - i
  {
    if i == |kinds| then 0 else (if kinds[i].Drop? then 1 else 0) + DropLines(kinds, i + 1)
  }

  /** Plain lines, then at most a lone ";"; and after that a drop line, the end of the file, or anything if closed. */
  lemma {:induction false} BlockEndSpec(kinds: seq<LineKind>, i: nat)
    requires i <= |kinds|
    ensures var end := BlockEnd(kinds, i);
            && (forall k :: i <= k < end - 1 ==> kinds[k].Other?)
            && (i < end ==> !kinds[end - 1].Drop?)
            && (end < |kinds| ==> kinds[end].Drop? || (i < end && kinds[end - 1].End?))
    decreases |kinds| - i
  {
    if i < |kinds| && kinds[i].Other? {
      BlockEndSpec(kinds, i + 1);
    }
  }

  /** One block per drop line, starting there; blocks follow one another without overlap. */
  lemma {:induction false} BlocksSpec(kinds: seq<LineKind>, i: nat)
    requires i <= |kinds|
    ensures var bs := Blocks(kinds, i);
            && |bs| == DropLines(kinds, i)
            && (forall k :: 0 <= k < |bs| ==> kinds[bs[k].first] == Drop(bs[k].name))
            && (forall k :: 0 <= k < |bs| - 1 ==> bs[k].last <= bs[k + 1].first)
            && (bs != [] ==> BlockEnd(kinds, i) <= bs[0].first)
    decreases |kinds| - i
  {
    if i < |kinds| {
      BlocksSpec(kinds, i + 1);
    }
  }

  // ----- the one-pass parser -----

  /** The table being collected, finished. */
  function Finished(current: Option<string>, collected: seq<string>): seq<Table> {
    if current.Some? then [Table(current.value, collected)] else []
  }

  /** The tables still to be appended from line i on. */
  function Remaining(lines: seq<string>, kinds: seq<LineKind>, i: nat, current: Option<string>,
                     collected: seq<string>): seq<Table>
    requires i <= |lines| == |kinds|
    decreases |lines| - i
  {
    if i == |lines| then Finished(current, collected)
    else
      match kinds[i]
      case Drop(name) => Finished(current, collected) + Remaining(lines, kinds, i + 1, Some(name), [lines[i]])
      case End => Finished(current, collected + [lines[i]]) + Remaining(lines, kinds, i + 1, None, [])
      case Other =>
        Remaining(lines, kinds, i + 1, current, if current.Some? then collected + [lines[i]] else collected)
  }

  lemma TablesOfFirst(lines: seq<string>, b: Block, bs: seq<Block>)
    requires b.first <= b.last <= |lines| && WithinLines(bs, |lines|)
    ensures WithinLines([b] + bs, |lines|)
    ensures TablesOf(lines, [b] + bs) == [Table(b.name, lines[b.first..b.last])] + TablesOf(lines, bs)
  {
  }

  lemma Extend(lines: seq<string>, first: nat, i: nat)
    requires first <= i < |lines|
    ensures lines[i..i + 1] == [lines[i]] && lines[first..i] + [lines[i]] == lines[first..i + 1]
  {
  }

  /** What an open block and the blocks from line i on amount to. */
  function Expected(lines: seq<string>, kinds: seq<LineKind>, i: nat, current: Option<string>, first: nat): seq<Table>
    requires first <= i <= |lines| == |kinds|
  {
    Finished(current, lines[first..BlockEnd(kinds, i)]) + TablesOf(lines, Blocks(kinds, i))
  }

  lemma {:induction false} ExpectedAtDrop(lines: seq<string>, kinds: seq<LineKind>, i: nat, current: Option<string>,
                                          first: nat)
    requires first <= i < |lines| == |kinds| && kinds[i].Drop?
    ensures Expected(lines, kinds, i, current, first)
         == Finished(current, lines[first..i]) + Expected(lines, kinds, i + 1, Some(kinds[i].name), i)
  {
    TablesOfFirst(lines, Block(kinds[i].name, i, BlockEnd(kinds, i + 1)), Blocks(kinds, i + 1));
  }

  lemma {:induction false} ExpectedAtEnd(lines: seq<string>, kinds: seq<LineKind>, i: nat, current: Option<string>,
                                         first: nat)
    requires first <= i < |lines| == |kinds| && kinds[i].End?
    ensures Expected(lines, kinds, i, current, first)
         == Finished(current, lines[first..i + 1]) + Expected(lines, kinds, i + 1, None, i)
  {
    assert Expected(lines, kinds, i + 1, None, i) == TablesOf(lines, Blocks(kinds, i + 1));
  }

  /** The lines collected for the open table. */
  function Collected(lines: seq<string>, i: nat, current: Option<string>, first: nat): seq<string>
    requires first <= i <= |lines|
  {
    if current.Some? then lines[first..i] else []
  }

  /** Collecting line by line yields slices of the file: the open block up to its end, then the later blocks. */
  predicate YieldsBlocks(lines: seq<string>, kinds: seq<LineKind>, i: nat, current: Option<string>, first: nat)
    requires first <= i <= |lines| == |kinds|
  {
    Remaining(lines, kinds, i, current, Collected(lines, i, current, first))
    == Expected(lines, kinds, i, current, first)
  }

  lemma {:induction false} DropYieldsBlocks(lines: seq<string>, kinds: seq<LineKind>, i: nat, current: Option<string>,
                                            first: nat)
    requires first <= i < |lines| == |kinds| && kinds[i].Drop?
    requires YieldsBlocks(lines, kinds, i + 1, Some(kinds[i].name), i)
    ensures YieldsBlocks(lines, kinds, i, current, first)
  {
    Extend(lines, first, i);
    ExpectedAtDrop(lines, kinds, i, current, first);
  }

  lemma {:induction false} EndYieldsBlocks(lines: seq<string>, kinds: seq<LineKind>, i: nat, current: Option<string>,
                                           first: nat)
    requires first <= i < |lines| == |kinds| && kinds[i].End? && YieldsBlocks(lines, kinds, i + 1, None, i)
    ensures YieldsBlocks(lines, kinds, i, current, first)
  {
    Extend(lines, first, i);
    ExpectedAtEnd(lines, kinds, i, current, first);
  }

  lemma {:induction false} OtherYieldsBlocks(lines: seq<string>, kinds: seq<LineKind>, i: nat, current: Option<string>,
                                             first: nat)
    requires first <= i < |lines| == |kinds| && kinds[i].Other? && YieldsBlocks(lines, kinds, i + 1, current, first)
    ensures YieldsBlocks(lines, kinds, i, current, first)
  {
    Extend(lines, first, i);
  }

  lemma {:induction false} RemainingIsBlocks(lines: seq<string>, kinds: seq<LineKind>, i: nat,
                                             current: Option<string>, first: nat)
    requires first <= i <= |lines| == |kinds|
    ensures YieldsBlocks(lines, kinds, i, current, first)
    decreases |lines| - i
  {
    if i < |lines| {
      match kinds[i]
      case Drop(name) =>
        RemainingIsBlocks(lines, kinds, i + 1, Some(name), i);
        DropYieldsBlocks(lines, kinds, i, current, first);
      case End =>
        RemainingIsBlocks(lines, kinds, i + 1, None, i);
        EndYieldsBlocks(lines, kinds, i, current, first);
      case Other =>
        RemainingIsBlocks(lines, kinds, i + 1, current, first);
        OtherYieldsBlocks(lines, kinds, i, current, first);
    }
  }

  lemma FinishedFirst(tables: seq<Table>, current: Option<string>, collected: seq<string>, rest: seq<Table>)
    ensures tables + (Finished(current, collected) + rest)
         == (if current.Some? then tables + [Table(current.value, collected)] else tables) + rest
  {
    if current.None? {
      assert [] + rest == rest;
    }
  }

  /** What is collected and what is still to come make up the result. */
  ghost predicate Ahead(lines: seq<string>, kinds: seq<LineKind>, i: nat, tables: seq<Table>,
                        current: Option<string>, collected: seq<string>, all: seq<Table>)
    requires i <= |lines| == |kinds|
  {
    && tables + Remaining(lines, kinds, i, current, collected) == all
    && (current.Some? <==> collected != [])
  }

  lemma CollectLine(lines: seq<string>, kinds: seq<LineKind>, i: nat, tables: seq<Table>, current: Option<string>,
                    collected: seq<string>, all: seq<Table>)
    requires i < |lines| == |kinds| && Ahead(lines, kinds, i, tables, current, collected, all)
    ensures kinds[i].Drop? ==>
              Ahead(lines, kinds, i + 1,
                    if current.Some? then tables + [Table(current.value, collected)] else tables,
                    Some(kinds[i].name), [lines[i]], all)
    ensures kinds[i].End? && current.Some? ==>
              Ahead(lines, kinds, i + 1, tables + [Table(current.value, collected + [lines[i]])], None, [], all)
    ensures kinds[i].Other? && current.Some? ==>
              Ahead(lines, kinds, i + 1, tables, current, collected + [lines[i]], all)
    ensures !kinds[i].Drop? && current.None? ==> Ahead(lines, kinds, i + 1, tables, current, collected, all)
  {
    match kinds[i]
    case Drop(name) =>
      FinishedFirst(tables, current, collected, Remaining(lines, kinds, i + 1, Some(name), [lines[i]]));
    case End =>
      FinishedFirst(tables, current, collected + [lines[i]], Remaining(lines, kinds, i + 1, None, []));
    case Other =>
  }

  lemma CollectEnd(lines: seq<string>, kinds: seq<LineKind>, tables: seq<Table>, current: Option<string>,
                   collected: seq<string>, all: seq<Table>)
    requires |lines| == |kinds| && Ahead(lines, kinds, |lines|, tables, current, collected, all)
    ensures all == if current.Some? then tables + [Table(current.value, collected)] else tables
  {
    FinishedFirst(tables, current, collected, []);
  }

  method ParseDdlFile(lines: seq<string>, tableOf: string -> Option<string>) returns (tables: seq<Table>)
    ensures tables == TablesOf(lines, Blocks(Kinds(lines, Reader(tableOf)), 0))
  {
    tables := [];
    var current: Option<string>, collected: seq<string> := None, [];
    ghost var kinds := Kinds(lines, Reader(tableOf));
    RemainingIsBlocks(lines, kinds, 0, None, 0);
    ghost var all := TablesOf(lines, Blocks(kinds, 0));
    assert Expected(lines, kinds, 0, None, 0) == all;
    for i := 0 to |lines|
      invariant Ahead(lines, kinds, i, tables, current, collected, all)
    {
      var kind := KindOf(lines[i], tableOf);
      assert kind == kinds[i];
      CollectLine(lines, kinds, i, tables, current, collected, all);
      if kind.Drop? {
        if current.Some? && collected != [] {
          tables := tables + [Table(current.value, collected)];
        }
        current, collected := Some(kind.name), [lines[i]];
      } else if current.Some? {
        collected := collected + [lines[i]];
        if kind.End? {
          tables := tables + [Table(current.value, collected)];
          current, collected := None, [];
        }
      }
    }
    CollectEnd(lines, kinds, tables, current, collected, all);
    if current.Some? && collected != [] {
      tables := tables + [Table(current.value, collected)];
    }
  }

  // ----- the single-table parser -----

  function FirstDrop(kinds: seq<LineKind>, i: nat): (r: Option<nat>)
    requires i <= |kinds|
    ensures r.Some? ==> i <= r.value < |kinds| && kinds[r.value].Drop?
    decreases |kinds| - i
  {
    if i == |kinds| then None else if kinds[i].Drop? then Some(i) else FirstDrop(kinds, i + 1)
  }

  function FirstEnd(kinds: seq<LineKind>, i: nat): (r: Option<nat>)
    requires i <= |kinds|
    ensures r.Some? ==> i <= r.value < |kinds| && kinds[r.value].End?
    decreases |kinds| - i
  {
    if i == |kinds| then None else if kinds[i].End? then Some(i) else FirstEnd(kinds, i + 1)
  }

  /** The range of lines parse_ddl returns: the first drop line to the first lone ";" after it. */
  function SingleBlock(kinds: seq<LineKind>): (r: Option<(nat, nat)>)
    ensures r.Some? ==> r.value.0 <= r.value.1 <= |kinds|
  {
    var start := FirstDrop(kinds, 0);
    if start.None? then None
    else if FirstEnd(kinds, start.value).None? then None
    else Some((start.value, FirstEnd(kinds, start.value).value + 1))
  }

  method FindDrop(lines: seq<string>, kindOf: string -> LineKind) returns (start: Option<nat>)
    ensures start == FirstDrop(Kinds(lines, kindOf), 0)
  {
    ghost var kinds := Kinds(lines, kindOf);
    for i := 0 to |lines|
      invariant FirstDrop(kinds, 0) == FirstDrop(kinds, i)
    {
      var kind := kindOf(lines[i]);
      if kind.Drop? {
        return Some(i);
      }
    }
    start := None;
  }

  method FindEnd(lines: seq<string>, kindOf: string -> LineKind, start: nat) returns (end: Option<nat>)
    requires start <= |lines|
    ensures end == FirstEnd(Kinds(lines, kindOf), start)
  {
    ghost var kinds := Kinds(lines, kindOf);
    for j := start to |lines|
      invariant FirstEnd(kinds, start) == FirstEnd(kinds, j)
    {
      var kind := kindOf(lines[j]);
      if kind.End? {
        return Some(j);
      }
    }
    end := None;
  }

  method FindTable(lines: seq<string>, kindOf: string -> LineKind) returns (range: Option<(nat, nat)>)
    ensures range == SingleBlock(Kinds(lines, kindOf))
  {
    var start := FindDrop(lines, kindOf);
    if start.None? {
      return None;
    }
    var end := FindEnd(lines, kindOf, start.value);
    range := if end.None? then None else Some((start.value, end.value + 1));
  }

  method ParseDdl(lines: seq<string>, tableOf: string -> Option<string>) returns (ddl: Option<string>)
    ensures match SingleBlock(Kinds(lines, Reader(tableOf)))
            case None => ddl == None
            case Some(range) => ddl == Some(DdlText(lines[range.0..range.1]))
  {
    var range := FindTable(lines, Reader(tableOf));
    ddl := if range.None? then None else Some(DdlText(lines[range.value.0..range.value.1]));
  }

  lemma {:induction false} FirstBlockStart(kinds: seq<LineKind>, i: nat)
    requires i <= |kinds| && FirstDrop(kinds, i).Some?
    ensures var d := FirstDrop(kinds, i).value;
            && Blocks(kinds, i) != []
            && Blocks(kinds, i)[0] == Block(kinds[d].name, d, BlockEnd(kinds, d + 1))
    decreases |kinds| - i
  {
    if !kinds[i].Drop? {
      FirstBlockStart(kinds, i + 1);
    }
  }

  lemma {:induction false} EndsTogetherIff(kinds: seq<LineKind>, i: nat)
    requires i <= |kinds| && FirstEnd(kinds, i).Some?
    ensures BlockEnd(kinds, i) == FirstEnd(kinds, i).value + 1
            <==> forall k :: i <= k < FirstEnd(kinds, i).value ==> !kinds[k].Drop?
    decreases |kinds| - i
  {
    if !kinds[i].End? {
      EndsTogetherIff(kinds, i + 1);
    }
  }

  /**
   When the single-table parser finds a table, its lines are those of the first block of the one-pass parser
   exactly when no other drop line comes before the lone ";".
   */
  lemma ParsersAgreeIff(kinds: seq<LineKind>)
    requires SingleBlock(kinds).Some?
    ensures var (start, end) := SingleBlock(kinds).value;
            && Blocks(kinds, 0) != [] && Blocks(kinds, 0)[0].first == start
            && (Blocks(kinds, 0)[0].last == end <==> forall k :: start < k < end ==> !kinds[k].Drop?)
  {
    var start := FirstDrop(kinds, 0).value;
    FirstBlockStart(kinds, 0);
    assert FirstEnd(kinds, start) == FirstEnd(kinds, start + 1);
    EndsTogetherIff(kinds, start + 1);
  }

  /** Then the text of the first table of the one-pass parser is the text the single-table parser returns. */
  lemma FirstTableText(lines: seq<string>, kinds: seq<LineKind>)
    requires |lines| == |kinds| && SingleBlock(kinds).Some?
    requires var (start, end) := SingleBlock(kinds).value; forall k :: start < k < end ==> !kinds[k].Drop?
    ensures var (start, end) := SingleBlock(kinds).value;
            var tables := TablesOf(lines, Blocks(kinds, 0));
            tables != [] && tables[0].Ddl() == DdlText(lines[start..end])
  {
    ParsersAgreeIff(kinds);
  }
}
