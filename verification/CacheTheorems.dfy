/** What the cache keeps over every sequence of operations. */
module CacheTheorems {
  import opened Values
  import opened Cache

  // ----- stack inclusion -----

  /** Equal but for the access count, which only the hits of each cache move. */
  ghost predicate Same<V>(a: Entry<V>, b: Entry<V>) {
    b == a.(accessCount := b.accessCount)
  }

  /** The small dictionary is an order-preserving subsequence of the large one, with equal entries. */
  ghost predicate Within<V>(small: seq<Entry<V>>, large: seq<Entry<V>>) {
    || small == []
    || (large != []
        && ((Same(small[0], large[0]) && Within(small[1..], large[1..])) || Within(small, large[1..])))
  }

  ghost predicate Included<V>(small: State<V>, large: State<V>) {
    && 1 <= small.maxSize <= large.maxSize && small.defaultTtl == large.defaultTtl
    && UniqueKeys(small.entries) && UniqueKeys(large.entries)
    && |large.entries| <= large.maxSize && |small.entries| <= small.maxSize
    && small.maxSize - |small.entries| <= large.maxSize - |large.entries|
    && Within(small.entries, large.entries)
  }

  lemma {:induction false} WithinTail<V>(small: seq<Entry<V>>, large: seq<Entry<V>>)
    requires Within(small, large) && small != []
    ensures large != [] && Within(small[1..], large[1..]) && Within(small[1..], large)
  {
    if !(Same(small[0], large[0]) && Within(small[1..], large[1..])) {
      WithinTail(small, large[1..]);
    }
  }

  lemma {:induction false} WithinDrop<V>(small: seq<Entry<V>>, large: seq<Entry<V>>, cut: Cut)
    requires Within(small, large)
    ensures Within(Drop(small, cut), Drop(large, cut))
    ensures |small| - |Drop(small, cut)| <= |large| - |Drop(large, cut)|
    decreases |large|
  {
    if small != [] {
      var rest := Drop(large[1..], cut);
      assert ([large[0]] + rest)[1..] == rest;
      if Same(small[0], large[0]) && Within(small[1..], large[1..]) {
        WithinDrop(small[1..], large[1..], cut);
        assert ([small[0]] + Drop(small[1..], cut))[1..] == Drop(small[1..], cut);
      } else {
        WithinDrop(small, large[1..], cut);
      }
    }
  }

  lemma {:induction false} WithinAppend<V>(small: seq<Entry<V>>, large: seq<Entry<V>>, e: Entry<V>, f: Entry<V>)
    requires Within(small, large)
    ensures Within(small, large + [f])
    ensures Same(e, f) ==> Within(small + [e], large + [f])
    decreases |large|
  {
    if large == [] {
      assert small + [e] == [e] && large + [f] == [f];
      assert [e][1..] == [] && [f][1..] == [];
    } else {
      assert (large + [f])[1..] == large[1..] + [f];
      if small == [] {
        WithinAppend([], large[1..], e, f);
        assert [] + [e] == [e];
      } else {
        assert (small + [e])[1..] == small[1..] + [e];
        if Same(small[0], large[0]) && Within(small[1..], large[1..]) {
          WithinAppend(small[1..], large[1..], e, f);
        } else {
          WithinAppend(small, large[1..], e, f);
        }
      }
    }
  }

  /** What the small cache finds, the large cache finds too. */
  lemma {:induction false} WithinFind<V>(small: seq<Entry<V>>, large: seq<Entry<V>>, key: string)
    requires Within(small, large) && UniqueKeys(large) && HasKey(small, key)
    ensures Find(large, key).Some? && Same(Find(small, key).value, Find(large, key).value)
    decreases |large|
  {
    if Same(small[0], large[0]) && Within(small[1..], large[1..]) {
      if small[0].key != key {
        WithinFind(small[1..], large[1..], key);
      }
    } else {
      WithinFind(small, large[1..], key);
    }
  }

  lemma {:induction false} DropShrinks<V>(entries: seq<Entry<V>>, key: string)
    requires HasKey(entries, key)
    ensures |Drop(entries, ByKey(key))| < |entries|
  {
    if entries[0].key != key {
      DropShrinks(entries[1..], key);
    }
  }

  lemma {:induction false} DropUniqueShrinksByOne<V>(entries: seq<Entry<V>>, key: string)
    requires UniqueKeys(entries)
    ensures |Drop(entries, ByKey(key))| == |entries| - (if HasKey(entries, key) then 1 else 0)
  {
    if entries != [] {
      if entries[0].key == key {
        DropAbsent(entries[1..], key);
      } else {
        DropUniqueShrinksByOne(entries[1..], key);
      }
    }
  }

  lemma RemovalKeepsInclusion<V>(small: State<V>, large: State<V>, cut: Cut)
    requires Included(small, large)
    ensures Included(RemoveStep(small, cut), RemoveStep(large, cut))
  {
    WithinDrop(small.entries, large.entries, cut);
    DropUnique(small.entries, cut);
    DropUnique(large.entries, cut);
  }

  lemma GetKeepsInclusion<V>(small: State<V>, large: State<V>, key: string, now: real)
    requires Included(small, large)
    ensures Included(GetStep(small, key, now).0, GetStep(large, key, now).0)
    ensures GetStep(small, key, now).0.hits - small.hits <= GetStep(large, key, now).0.hits - large.hits
    ensures GetStep(small, key, now).0.hits > small.hits ==> GetStep(small, key, now).1 == GetStep(large, key, now).1
  {
    var s, l := Drop(small.entries, ByKey(key)), Drop(large.entries, ByKey(key));
    GetUnique(small, key, now);
    GetUnique(large, key, now);
    WithinDrop(small.entries, large.entries, ByKey(key));
    DropUniqueShrinksByOne(small.entries, key);
    DropUniqueShrinksByOne(large.entries, key);
    var found := Find(large.entries, key);
    if HasKey(small.entries, key) {
      WithinFind(small.entries, large.entries, key);
      var e := Find(small.entries, key).value;
      WithinAppend(s, l, e.(accessCount := e.accessCount + 1),
                   found.value.(accessCount := found.value.accessCount + 1));
    } else {
      DropAbsent(small.entries, key);
      if found.Some? {
        WithinAppend(s, l, found.value, found.value.(accessCount := found.value.accessCount + 1));
      }
    }
  }

  lemma SetKeepsInclusion<V>(small: State<V>, large: State<V>, key: string, value: Option<V>, ttl: Option<real>,
                             tags: seq<string>, now: real)
    requires Included(small, large)
    ensures Included(SetStep(small, key, value, ttl, tags, None, now).0,
                     SetStep(large, key, value, ttl, tags, None, now).0)
  {
    var s, l := Drop(small.entries, ByKey(key)), Drop(large.entries, ByKey(key));
    SetUnique(small, key, value, ttl, tags, None, now);
    SetUnique(large, key, value, ttl, tags, None, now);
    WithinDrop(small.entries, large.entries, ByKey(key));
    var e := Entry(key, value, now, if ttl.Some? then ttl.value else small.defaultTtl, tags, 0);
    WithinAppend(s, l, e, e);
    if |s| >= small.maxSize {
      WithinTail(s, l);
      WithinAppend(s[1..], l, e, e);
      WithinAppend(s[1..], l[1..], e, e);
    }
  }

  ghost predicate Unchecked<V>(op: Op<V>) {
    op.Set? ==> op.minEpoch.None?
  }

  lemma StepKeepsInclusion<V>(small: State<V>, large: State<V>, op: Op<V>)
    requires Included(small, large) && Unchecked(op)
    ensures Included(Step(small, op), Step(large, op))
    ensures Step(small, op).hits - small.hits <= Step(large, op).hits - large.hits
  {
    match op
    case Get(key, now) => GetKeepsInclusion(small, large, key, now);
    case Set(key, value, ttl, tags, minEpoch, now) => SetKeepsInclusion(small, large, key, value, ttl, tags, now);
    case Delete(key) =>
      RemovalKeepsInclusion(small, large, ByKey(key));
      if !HasKey(small.entries, key) {
        DropAbsent(small.entries, key);
      }
      if !HasKey(large.entries, key) {
        DropAbsent(large.entries, key);
      }
    case Remove(cut) => RemovalKeepsInclusion(small, large, cut);
  }

  lemma {:induction false} RunsKeepInclusion<V>(small: State<V>, large: State<V>, ops: seq<Op<V>>)
    requires Included(small, large)
    requires forall i :: 0 <= i < |ops| ==> Unchecked(ops[i])
    ensures Included(Run(small, ops), Run(large, ops))
    ensures Run(small, ops).hits - small.hits <= Run(large, ops).hits - large.hits
    decreases |ops|
  {
    if ops != [] {
      StepKeepsInclusion(small, large, ops[0]);
      RunsKeepInclusion(Step(small, ops[0]), Step(large, ops[0]), ops[1..]);
    }
  }

  /** The stack property: on every trace the smaller cache stays inside the larger, and hits no more often. */
  lemma StackInclusion<V>(n: int, m: int, defaultTtl: real, ops: seq<Op<V>>, key: string)
    requires 1 <= n <= m
    requires forall i :: 0 <= i < |ops| ==> Unchecked(ops[i])
    ensures Included(Run(Empty(n, defaultTtl), ops), Run(Empty(m, defaultTtl), ops))
    ensures Run(Empty<V>(n, defaultTtl), ops).hits <= Run(Empty<V>(m, defaultTtl), ops).hits
    ensures var small, large := Run(Empty(n, defaultTtl), ops).entries, Run(Empty(m, defaultTtl), ops).entries;
            HasKey(small, key) ==> HasKey(large, key) && Same(Find(small, key).value, Find(large, key).value)
  {
    RunsKeepInclusion(Empty(n, defaultTtl), Empty(m, defaultTtl), ops);
    var small, large := Run(Empty(n, defaultTtl), ops).entries, Run(Empty(m, defaultTtl), ops).entries;
    if HasKey(small, key) {
      WithinFind(small, large, key);
    }
  }

  // ----- size, and what is evicted -----

  /** With room for nothing, nothing is ever kept; otherwise the bound holds. */
  ghost predicate Bounded<V>(s: State<V>) {
    UniqueKeys(s.entries) && |s.entries| <= if s.maxSize < 1 then 0 else s.maxSize
  }

  lemma StepKeepsBounded<V>(s: State<V>, op: Op<V>)
    requires Bounded(s)
    ensures Bounded(Step(s, op)) && Step(s, op).maxSize == s.maxSize && Step(s, op).defaultTtl == s.defaultTtl
  {
    StepUnique(s, op);
    if op.Get? && HasKey(s.entries, op.key) {
      DropShrinks(s.entries, op.key);
    }
  }

  lemma {:induction false} RunsKeepBounded<V>(s: State<V>, ops: seq<Op<V>>)
    requires Bounded(s)
    ensures Bounded(Run(s, ops)) && Run(s, ops).maxSize == s.maxSize && Run(s, ops).defaultTtl == s.defaultTtl
    decreases |ops|
  {
    if ops != [] {
      StepKeepsBounded(s, ops[0]);
      RunsKeepBounded(Step(s, ops[0]), ops[1..]);
    }
  }

  lemma {:induction false} RunSnoc<V>(s: State<V>, ops: seq<Op<V>>, op: Op<V>)
    ensures Run(s, ops + [op]) == Step(Run(s, ops), op)
    decreases |ops|
  {
    if ops == [] {
      assert ([] + [op])[1..] == [];
    } else {
      assert (ops + [op])[1..] == ops[1..] + [op];
      RunSnoc(Step(s, ops[0]), ops[1..], op);
    }
  }

  /** A hit or a stored write on the key. */
  ghost predicate Touches<V>(s: State<V>, op: Op<V>, key: string) {
    || (op.Get? && op.key == key && Find(s.entries, key).Some? && !IsExpired(Find(s.entries, key).value, op.now))
    || (op.Set? && op.key == key
        && SetStep(s, op.key, op.value, op.ttl, op.tags, op.minEpoch, op.now).1 == Stored)
  }

  /** The time of the last touch of a key in the run, or -1. */
  ghost function LastTouch<V>(s: State<V>, ops: seq<Op<V>>, key: string): int {
    if ops == [] then -1
    else
      var n := |ops| - 1;
      if Touches(Run(s, ops[..n]), ops[n], key) then n else LastTouch(s, ops[..n], key)
  }

  lemma {:induction false} LastTouchBelow<V>(s: State<V>, ops: seq<Op<V>>, key: string)
    ensures LastTouch(s, ops, key) < |ops|
  {
    if ops != [] {
      LastTouchBelow(s, ops[..|ops| - 1], key);
    }
  }

  ghost predicate AllLater<V>(entries: seq<Entry<V>>, touched: string -> int, since: int) {
    entries == [] || (since < touched(entries[0].key) && AllLater(entries[1..], touched, since))
  }

  /** Oldest touch first. */
  ghost predicate Ascending<V>(entries: seq<Entry<V>>, touched: string -> int) {
    entries == [] || (AllLater(entries[1..], touched, touched(entries[0].key)) && Ascending(entries[1..], touched))
  }

  lemma {:induction false} LaterDrop<V>(entries: seq<Entry<V>>, touched: string -> int, since: int, cut: Cut)
    requires AllLater(entries, touched, since)
    ensures AllLater(Drop(entries, cut), touched, since)
  {
    if entries != [] {
      LaterDrop(entries[1..], touched, since, cut);
    }
  }

  lemma {:induction false} AscendingDrop<V>(entries: seq<Entry<V>>, touched: string -> int, cut: Cut)
    requires Ascending(entries, touched)
    ensures Ascending(Drop(entries, cut), touched)
  {
    if entries != [] {
      AscendingDrop(entries[1..], touched, cut);
      LaterDrop(entries[1..], touched, touched(entries[0].key), cut);
    }
  }

  lemma {:induction false} LaterAgree<V>(entries: seq<Entry<V>>, touched: string -> int, now: string -> int, since: int)
    requires AllLater(entries, touched, since)
    requires forall key :: HasKey(entries, key) ==> touched(key) == now(key)
    ensures AllLater(entries, now, since)
  {
    if entries != [] {
      assert HasKey(entries, entries[0].key);
      assert forall key :: HasKey(entries[1..], key) ==> HasKey(entries, key);
      LaterAgree(entries[1..], touched, now, since);
    }
  }

  lemma {:induction false} AscendingAgree<V>(entries: seq<Entry<V>>, touched: string -> int, now: string -> int)
    requires Ascending(entries, touched)
    requires forall key :: HasKey(entries, key) ==> touched(key) == now(key)
    ensures Ascending(entries, now)
  {
    if entries != [] {
      assert HasKey(entries, entries[0].key);
      assert forall key :: HasKey(entries[1..], key) ==> HasKey(entries, key);
      LaterAgree(entries[1..], touched, now, touched(entries[0].key));
      AscendingAgree(entries[1..], touched, now);
    }
  }

  lemma {:induction false} LaterAppend<V>(entries: seq<Entry<V>>, e: Entry<V>, touched: string -> int, since: int)
    requires AllLater(entries, touched, since) && since < touched(e.key)
    ensures AllLater(entries + [e], touched, since)
  {
    if entries == [] {
      assert ([] + [e])[1..] == [];
    } else {
      assert (entries + [e])[1..] == entries[1..] + [e];
      LaterAppend(entries[1..], e, touched, since);
    }
  }

  lemma {:induction false} AscendingAppend<V>(entries: seq<Entry<V>>, e: Entry<V>, touched: string -> int)
    requires Ascending(entries, touched)
    requires forall key :: HasKey(entries, key) ==> touched(key) < touched(e.key)
    ensures Ascending(entries + [e], touched)
  {
    if entries == [] {
      assert ([] + [e])[1..] == [];
    } else {
      assert (entries + [e])[1..] == entries[1..] + [e];
      assert HasKey(entries, entries[0].key);
      assert forall key :: HasKey(entries[1..], key) ==> HasKey(entries, key);
      AscendingAppend(entries[1..], e, touched);
      LaterAppend(entries[1..], e, touched, touched(entries[0].key));
    }
  }

  ghost function TouchTimes<V>(s: State<V>, ops: seq<Op<V>>): string -> int {
    key => LastTouch(s, ops, key)
  }

  /** Moving a touched entry to the end keeps the order, the touch being the latest event. */
  lemma TouchedLast<V>(others: seq<Entry<V>>, e: Entry<V>, before: string -> int, after: string -> int, n: int)
    requires Ascending(others, before) && !HasKey(others, e.key)
    requires forall key :: key != e.key ==> after(key) == before(key)
    requires after(e.key) == n && forall key :: before(key) < n
    ensures Ascending(others + [e], after)
    ensures others != [] ==> Ascending(others[1..] + [e], after)
  {
    AscendingAgree(others, before, after);
    AscendingAppend(others, e, after);
    if others != [] {
      assert forall key :: HasKey(others[1..], key) ==> HasKey(others, key);
      AscendingAppend(others[1..], e, after);
    }
  }

  /** In every run from empty the dictionary lists its entries by the time of their last touch. */
  lemma {:induction false} OrderIsRecency<V>(maxSize: int, defaultTtl: real, ops: seq<Op<V>>)
    ensures var s0 := Empty<V>(maxSize, defaultTtl);
            UniqueKeys(Run(s0, ops).entries) && Ascending(Run(s0, ops).entries, TouchTimes(s0, ops))
  {
    var s0 := Empty<V>(maxSize, defaultTtl);
    if ops != [] {
      var n := |ops| - 1;
      var op := ops[n];
      OrderIsRecency<V>(maxSize, defaultTtl, ops[..n]);
      RunSnoc(s0, ops[..n], op);
      assert ops == ops[..n] + [op];
      RecencyStep(s0, ops[..n], op, ops);
    }
  }

  lemma RecencyStep<V>(s0: State<V>, before: seq<Op<V>>, op: Op<V>, ops: seq<Op<V>>)
    requires ops == before + [op]
    requires UniqueKeys(Run(s0, before).entries) && Ascending(Run(s0, before).entries, TouchTimes(s0, before))
    ensures var next := Step(Run(s0, before), op);
            UniqueKeys(next.entries) && Ascending(next.entries, TouchTimes(s0, ops))
  {
    var s := Run(s0, before);
    var n := |before|;
    assert ops[..n] == before && ops[n] == op;
    var then', now' := TouchTimes(s0, before), TouchTimes(s0, ops);
    StepUnique(s, op);
    forall key ensures then'(key) < n { LastTouchBelow(s0, before, key); }
    match op
    case Get(key, now) =>
      GetRecency(s, key, now, then', now', n);
    case Set(key, value, ttl, tags, minEpoch, now) =>
      SetRecency(s, op, then', now', n);
    case Delete(key) =>
      AscendingAgree(s.entries, then', now');
      AscendingDrop(s.entries, now', ByKey(key));
    case Remove(cut) =>
      AscendingAgree(s.entries, then', now');
      AscendingDrop(s.entries, now', cut);
  }

  lemma GetRecency<V>(s: State<V>, key: string, now: real, then': string -> int, now': string -> int, n: int)
    requires UniqueKeys(s.entries) && Ascending(s.entries, then') && forall other :: then'(other) < n
    requires forall other :: now'(other) == if Touches(s, Get(key, now), other) then n else then'(other)
    ensures Ascending(Step(s, Get(key, now)).entries, now')
  {
    AscendingDrop(s.entries, then', ByKey(key));
    DropRemoves(s.entries, key);
    var found := Find(s.entries, key);
    if found.Some? && !IsExpired(found.value, now) {
      var touched := found.value.(accessCount := found.value.accessCount + 1);
      TouchedLast(Drop(s.entries, ByKey(key)), touched, then', now', n);
    } else {
      AscendingAgree(s.entries, then', now');
      AscendingDrop(s.entries, now', ByKey(key));
    }
  }

  lemma SetRecency<V>(s: State<V>, op: Op<V>, then': string -> int, now': string -> int, n: int)
    requires op.Set? && UniqueKeys(s.entries) && Ascending(s.entries, then') && forall other :: then'(other) < n
    requires forall other :: now'(other) == if Touches(s, op, other) then n else then'(other)
    ensures Ascending(Step(s, op).entries, now')
  {
    AscendingDrop(s.entries, then', ByKey(op.key));
    DropRemoves(s.entries, op.key);
    if SetStep(s, op.key, op.value, op.ttl, op.tags, op.minEpoch, op.now).1 == Stored {
      var ttl := if op.ttl.Some? then op.ttl.value else s.defaultTtl;
      TouchedLast(Drop(s.entries, ByKey(op.key)), Entry(op.key, op.value, op.now, ttl, op.tags, 0), then', now', n);
    } else {
      AscendingAgree(s.entries, then', now');
    }
  }

  lemma {:induction false} LaterMeansLess<V>(entries: seq<Entry<V>>, touched: string -> int, since: int, key: string)
    requires AllLater(entries, touched, since) && HasKey(entries, key)
    ensures since < touched(key)
  {
    if entries[0].key != key {
      LaterMeansLess(entries[1..], touched, since, key);
    }
  }

  /** A write into a full cache evicts the entry touched longest ago, and only that one. */
  lemma EvictedIsLeastRecentlyTouched<V>(maxSize: int, defaultTtl: real, ops: seq<Op<V>>, op: Op<V>, other: string)
    requires maxSize >= 1 && op.Set? && op.minEpoch.None?
    requires var s := Run(Empty<V>(maxSize, defaultTtl), ops);
             |Drop(s.entries, ByKey(op.key))| >= maxSize && HasKey(Drop(s.entries, ByKey(op.key)), other)
    ensures var s0 := Empty<V>(maxSize, defaultTtl);
            var s := Run(s0, ops);
            var others := Drop(s.entries, ByKey(op.key));
            && others != []
            && (HasKey(Step(s, op).entries, other) <==> other != others[0].key)
            && (other != others[0].key ==> LastTouch(s0, ops, others[0].key) < LastTouch(s0, ops, other))
  {
    var s0 := Empty<V>(maxSize, defaultTtl);
    var s := Run(s0, ops);
    OrderIsRecency<V>(maxSize, defaultTtl, ops);
    RunsKeepBounded(s0, ops);
    var others := Drop(s.entries, ByKey(op.key));
    AscendingDrop(s.entries, TouchTimes(s0, ops), ByKey(op.key));
    DropUnique(s.entries, ByKey(op.key));
    DropRemoves(s.entries, op.key);
    var e := Entry(op.key, op.value, op.now, if op.ttl.Some? then op.ttl.value else s.defaultTtl, op.tags, 0);
    AppendHasKey(others[1..], e, other);
    if other != others[0].key {
      LaterMeansLess(others[1..], TouchTimes(s0, ops), TouchTimes(s0, ops)(others[0].key), other);
    }
  }

  // ----- stale writes -----

  /** The delete calls on the key in a run that returned True. */
  ghost function EffectiveDeletes<V>(s: State<V>, ops: seq<Op<V>>, key: string): nat
    decreases |ops|
  {
    if ops == [] then 0
    else
      (if ops[0].Delete? && ops[0].key == key && DeleteStep(s, key).1 then 1 else 0)
      + EffectiveDeletes(Step(s, ops[0]), ops[1..], key)
  }

  lemma {:induction false} EpochCountsDeletes<V>(s: State<V>, ops: seq<Op<V>>, key: string)
    ensures EpochOf(Run(s, ops), key) == EpochOf(s, key) + EffectiveDeletes(s, ops, key)
    decreases |ops|
  {
    if ops != [] {
      EpochCountsDeletes(Step(s, ops[0]), ops[1..], key);
    }
  }

  /** A write that carries a peeked epoch is refused exactly when a delete of its key succeeded since the peek. */
  lemma StaleWriteRefusedIff<V>(s: State<V>, ops: seq<Op<V>>, key: string, value: Option<V>, ttl: Option<real>,
                                tags: seq<string>, now: real)
    ensures SetStep(Run(s, ops), key, value, ttl, tags, Some(EpochOf(s, key)), now).1 == Refused
            <==> EffectiveDeletes(s, ops, key) > 0
  {
    EpochCountsDeletes(s, ops, key);
  }

  /** get_or_set drops what the factory produced exactly in that case, and then changes only the counter. */
  lemma GetOrSetRefusesIff<V>(s: State<V>, key: string, produced: Option<V>, ttl: Option<real>, now: real,
                              later: real, between: seq<Op<V>>, meanwhile: seq<Op<V>>)
    requires GetStep(s, key, now).1.None?
    ensures var peeked := Run(GetStep(s, key, now).0, between);
            var before := Run(peeked, meanwhile);
            var final := GetOrSetStep(s, key, produced, ttl, now, later, between, meanwhile);
            && final.1 == produced
            && (final.0.staleWrites == before.staleWrites + 1 <==> EffectiveDeletes(peeked, meanwhile, key) > 0)
            && (EffectiveDeletes(peeked, meanwhile, key) > 0 ==>
                  final.0 == before.(staleWrites := before.staleWrites + 1))
  {
    StaleWriteRefusedIff(Run(GetStep(s, key, now).0, between), meanwhile, key, produced, ttl, [], later);
  }

  /**
   While a key is absent no delete of it counts. After a miss, therefore, deletes go unnoticed and the
   stale value is stored, unless somebody sets the key in between.
   */
  lemma {:induction false} AbsentKeyDeletesUnnoticed<V>(s: State<V>, ops: seq<Op<V>>, key: string)
    requires !HasKey(s.entries, key)
    requires forall i :: 0 <= i < |ops| && ops[i].Set? ==> ops[i].key != key
    ensures EffectiveDeletes(s, ops, key) == 0
    decreases |ops|
  {
    if ops != [] {
      StaysAbsent(s, ops[0], key);
      AbsentKeyDeletesUnnoticed(Step(s, ops[0]), ops[1..], key);
    }
  }

  lemma StaysAbsent<V>(s: State<V>, op: Op<V>, key: string)
    requires !HasKey(s.entries, key) && (op.Set? ==> op.key != key)
    ensures !HasKey(Step(s, op).entries, key)
  {
    match op
    case Get(k, now) =>
      DropKeepsAbsent(s.entries, ByKey(k), key);
      var found := Find(s.entries, k);
      if found.Some? {
        assert k != key;
        AppendHasKey(Drop(s.entries, ByKey(k)), found.value.(accessCount := found.value.accessCount + 1), key);
      }
    case Set(k, value, ttl, tags, minEpoch, now) =>
      DropKeepsAbsent(s.entries, ByKey(k), key);
      var others := Drop(s.entries, ByKey(k));
      var e := Entry(k, value, now, if ttl.Some? then ttl.value else s.defaultTtl, tags, 0);
      AppendHasKey(others, e, key);
      if others != [] {
        AppendHasKey(others[1..], e, key);
      }
    case Delete(k) => DropKeepsAbsent(s.entries, ByKey(k), key);
    case Remove(cut) => DropKeepsAbsent(s.entries, cut, key);
  }

  lemma {:induction false} ExpiredMissRemoves<V>(s: State<V>, key: string, now: real)
    requires Find(s.entries, key).None? || IsExpired(Find(s.entries, key).value, now)
    ensures !HasKey(GetStep(s, key, now).0.entries, key)
  {
    DropRemoves(s.entries, key);
  }

  lemma {:induction false} FindAppended<V>(entries: seq<Entry<V>>, e: Entry<V>)
    requires !HasKey(entries, e.key)
    ensures Find(entries + [e], e.key) == Some(e)
  {
    if entries == [] {
      assert [] + [e] == [e];
    } else {
      assert (entries + [e])[1..] == entries[1..] + [e];
      FindAppended(entries[1..], e);
    }
  }

  /** What a write that is not refused stores is what the cache holds. */
  lemma StoredIsFound<V>(s: State<V>, key: string, value: Option<V>, ttl: Option<real>, tags: seq<string>,
                         minEpoch: Option<int>, now: real)
    requires s.maxSize >= 1 && !IsStale(s, key, minEpoch)
    ensures Find(SetStep(s, key, value, ttl, tags, minEpoch, now).0.entries, key)
         == Some(Entry(key, value, now, if ttl.Some? then ttl.value else s.defaultTtl, tags, 0))
  {
    var others := Drop(s.entries, ByKey(key));
    var e := Entry(key, value, now, if ttl.Some? then ttl.value else s.defaultTtl, tags, 0);
    DropRemoves(s.entries, key);
    FindAppended(others, e);
    if others != [] {
      FindAppended(others[1..], e);
    }
  }

  lemma {:induction false} RunKeepsSettings<V>(s: State<V>, ops: seq<Op<V>>)
    ensures Run(s, ops).maxSize == s.maxSize && Run(s, ops).defaultTtl == s.defaultTtl
    decreases |ops|
  {
    if ops != [] {
      RunKeepsSettings(Step(s, ops[0]), ops[1..]);
    }
  }

  lemma {:induction false} RunStaysAbsent<V>(s: State<V>, ops: seq<Op<V>>, key: string)
    requires !HasKey(s.entries, key)
    requires forall i :: 0 <= i < |ops| && ops[i].Set? ==> ops[i].key != key
    ensures !HasKey(Run(s, ops).entries, key)
    decreases |ops|
  {
    if ops != [] {
      StaysAbsent(s, ops[0], key);
      RunStaysAbsent(Step(s, ops[0]), ops[1..], key);
    }
  }

  /**
   So after a miss the value of the factory is in the cache afterwards, however often the key is deleted while it
   is computed, unless somebody else sets the key.
   */
  lemma DeleteAfterMissIsNotNoticed<V>(s: State<V>, key: string, produced: Option<V>, ttl: Option<real>, now: real,
                                       later: real, between: seq<Op<V>>, meanwhile: seq<Op<V>>)
    requires s.maxSize >= 1
    requires Find(s.entries, key).None? || IsExpired(Find(s.entries, key).value, now)
    requires forall i :: 0 <= i < |between| && between[i].Set? ==> between[i].key != key
    requires forall i :: 0 <= i < |meanwhile| && meanwhile[i].Set? ==> meanwhile[i].key != key
    ensures var found := Find(GetOrSetStep(s, key, produced, ttl, now, later, between, meanwhile).0.entries, key);
            found.Some? && found.value.value == produced && found.value.createdAt == later
  {
    var missed := GetStep(s, key, now).0;
    var peeked := Run(missed, between);
    ExpiredMissRemoves(s, key, now);
    RunStaysAbsent(missed, between, key);
    AbsentKeyDeletesUnnoticed(peeked, meanwhile, key);
    EpochCountsDeletes(peeked, meanwhile, key);
    RunKeepsSettings(missed, between);
    RunKeepsSettings(peeked, meanwhile);
    StoredIsFound(Run(peeked, meanwhile), key, produced, ttl, [], Some(EpochOf(peeked, key)), later);
  }
}
