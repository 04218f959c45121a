/** A read of the cache returns the last write while that is alive and in the working set. */
module CacheReads {
  import opened Values
  import opened Text
  import opened Cache
  import opened CacheTheorems

  // ----- which entries a removal leaves -----

  /** A source names its own key and the keys below it; with a star it names all keys that start with the rest of it. */
  ghost predicate Names(source: string, key: string) {
    if '*' in source then exists rest :: key == WithoutStars(source) + rest
    else key == source || exists rest :: key == source + (":" + rest)
  }

  /** The removal leaves an entry with this key, written at this time with this life and these tags. */
  ghost predicate Spares(cut: Cut, key: string, time: real, life: real, tags: seq<string>) {
    match cut
    case ByKey(other) => other != key
    case ByExpiry(now) => now <= time + life
    case ByPattern(matches) => !matches(key)
    case BySource(source) => !Names(source, key)
    case ByTags(listed) => forall tag :: tag in listed ==> tag !in tags
    case All => false
  }

  lemma StartsWithIff(s: string, prefix: string)
    ensures StartsWith(s, prefix) <==> exists rest :: s == prefix + rest
  {
    if StartsWith(s, prefix) {
      assert s == prefix + s[|prefix|..];
    }
  }

  lemma NamesIff(source: string, key: string)
    ensures Names(source, key) <==>
              if '*' in source then StartsWith(key, WithoutStars(source))
              else key == source || StartsWith(key, source + ":")
  {
    StartsWithIff(key, WithoutStars(source));
    StartsWithIff(key, source + ":");
    if rest :| key == source + (":" + rest) {
      assert key == source + ":" + rest;
    }
    if rest :| key == source + ":" + rest {
      assert key == source + (":" + rest);
    }
  }

  lemma SparesIff<V>(cut: Cut, e: Entry<V>)
    ensures Spares(cut, e.key, e.createdAt, e.ttl, e.tags) <==> !Takes(cut, e)
  {
    if cut.BySource? {
      NamesIff(cut.source, e.key);
    } else if cut.ByTags? {
      assert forall tag :: tag in cut.tags <==> exists i :: 0 <= i < |cut.tags| && cut.tags[i] == tag;
    }
  }

  lemma {:induction false} DropLeaves<V>(entries: seq<Entry<V>>, cut: Cut, e: Entry<V>)
    ensures e in Drop(entries, cut) <==> e in entries && !Takes(cut, e)
  {
    if entries != [] {
      DropLeaves(entries[1..], cut, e);
    }
  }

  /** Exactly the entries it spares are left by a removal. */
  lemma RemovalLeavesIff<V>(s: State<V>, cut: Cut, e: Entry<V>)
    ensures e in RemoveStep(s, cut).entries <==>
              e in s.entries && Spares(cut, e.key, e.createdAt, e.ttl, e.tags)
  {
    DropLeaves(s.entries, cut, e);
    SparesIff(cut, e);
  }

  // ----- the entry of a key through other operations -----

  /** The operation neither writes, nor deletes, nor removes the key, and a read of it comes within its life. */
  ghost predicate LeavesAlone<V>(op: Op<V>, key: string, time: real, life: real, tags: seq<string>) {
    match op
    case Get(other, now) => other == key ==> now <= time + life
    case Set(other, _, _, _, _, _) => other != key
    case Delete(other) => other != key
    case Remove(cut) => Spares(cut, key, time, life, tags)
  }

  /** The cache holds the value under the key, written at this time with this life and these tags. */
  ghost predicate Holds<V>(s: State<V>, key: string, value: Option<V>, time: real, life: real, tags: seq<string>) {
    var found := Find(s.entries, key);
    found.Some? && found.value == Entry(key, value, time, life, tags, found.value.accessCount)
  }

  lemma {:induction false} FindThroughDrop<V>(entries: seq<Entry<V>>, cut: Cut, key: string)
    requires HasKey(entries, key) && !Takes(cut, Find(entries, key).value)
    ensures Find(Drop(entries, cut), key) == Find(entries, key)
  {
    if entries[0].key != key {
      FindThroughDrop(entries[1..], cut, key);
    }
  }

  lemma {:induction false} FindBefore<V>(entries: seq<Entry<V>>, last: Entry<V>, key: string)
    requires last.key != key
    ensures Find(entries + [last], key) == Find(entries, key)
  {
    if entries == [] {
      assert ([] + [last])[1..] == [];
    } else {
      assert (entries + [last])[1..] == entries[1..] + [last];
      FindBefore(entries[1..], last, key);
    }
  }

  lemma TouchedIsFound<V>(entries: seq<Entry<V>>, touched: Entry<V>)
    ensures Find(Drop(entries, ByKey(touched.key)) + [touched], touched.key) == Some(touched)
  {
    DropRemoves(entries, touched.key);
    FindAppended(Drop(entries, ByKey(touched.key)), touched);
  }

  lemma ReadKeepsEntry<V>(s: State<V>, other: string, now: real, key: string, value: Option<V>, time: real, life: real,
                          tags: seq<string>)
    requires Holds(s, key, value, time, life, tags) && (other == key ==> now <= time + life)
    ensures Holds(GetStep(s, other, now).0, key, value, time, life, tags)
  {
    if other == key {
      OwnReadKeepsEntry(s, now, key, value, time, life, tags);
    } else {
      OtherReadKeepsEntry(s, other, now, key);
    }
  }

  /** A read leaves the entries alone, or takes one out, or puts it behind the others. */
  lemma EntriesAfterRead<V>(s: State<V>, other: string, now: real) returns (last: seq<Entry<V>>)
    ensures var entries := GetStep(s, other, now).0.entries;
            entries == s.entries || entries == Drop(s.entries, ByKey(other)) + last
    ensures last == [] || (|last| == 1 && last[0].key == other)
  {
    last := [];
    if HasKey(s.entries, other) && !IsExpired(Find(s.entries, other).value, now) {
      var e := Find(s.entries, other).value;
      last := [e.(accessCount := e.accessCount + 1)];
    }
  }

  lemma OtherReadKeepsEntry<V>(s: State<V>, other: string, now: real, key: string)
    requires HasKey(s.entries, key) && other != key
    ensures Find(GetStep(s, other, now).0.entries, key) == Find(s.entries, key)
  {
    var last := EntriesAfterRead(s, other, now);
    FindThroughDrop(s.entries, ByKey(other), key);
    if last == [] {
      assert Drop(s.entries, ByKey(other)) + last == Drop(s.entries, ByKey(other));
    } else {
      assert last == [last[0]];
      FindBefore(Drop(s.entries, ByKey(other)), last[0], key);
    }
  }

  lemma OwnReadKeepsEntry<V>(s: State<V>, now: real, key: string, value: Option<V>, time: real, life: real,
                             tags: seq<string>)
    requires Holds(s, key, value, time, life, tags) && now <= time + life
    ensures Holds(GetStep(s, key, now).0, key, value, time, life, tags)
  {
    var e := Find(s.entries, key).value;
    TouchedIsFound(s.entries, e.(accessCount := e.accessCount + 1));
  }

  /** A write under another key either keeps the entry or evicts it as the oldest of the others. */
  lemma WriteKeepsEntry<V>(s: State<V>, op: Op<V>, key: string, value: Option<V>, time: real, life: real,
                           tags: seq<string>)
    requires op.Set? && op.key != key && Holds(s, key, value, time, life, tags)
    ensures var others := Drop(s.entries, ByKey(op.key));
            || Holds(Step(s, op), key, value, time, life, tags)
            || (others != [] && others[0].key == key && |others| >= s.maxSize
                && Step(s, op).entries != [] && Step(s, op).entries[..|others| - 1] == others[1..])
  {
    var others := Drop(s.entries, ByKey(op.key));
    var e := Entry(op.key, op.value, op.now, if op.ttl.Some? then op.ttl.value else s.defaultTtl, op.tags, 0);
    FindThroughDrop(s.entries, ByKey(op.key), key);
    FindBefore(others, e, key);
    FindBefore(others[1..], e, key);
  }

  lemma StepKeepsEntry<V>(s: State<V>, op: Op<V>, key: string, value: Option<V>, time: real, life: real,
                          tags: seq<string>)
    requires Holds(s, key, value, time, life, tags) && LeavesAlone(op, key, time, life, tags)
    requires !op.Set?
    ensures Holds(Step(s, op), key, value, time, life, tags)
  {
    match op
    case Get(other, now) => ReadKeepsEntry(s, other, now, key, value, time, life, tags);
    case Delete(other) => FindThroughDrop(s.entries, ByKey(other), key);
    case Remove(cut) =>
      SparesIff(cut, Find(s.entries, key).value);
      FindThroughDrop(s.entries, cut, key);
  }

  // ----- eviction -----

  ghost function KeySet<V>(entries: seq<Entry<V>>): set<string> {
    set e | e in entries :: e.key
  }

  /** The keys touched after the key, which stand behind it. */
  ghost function Younger<V>(entries: seq<Entry<V>>, key: string): set<string> {
    if entries == [] then {}
    else if entries[0].key == key then KeySet(entries[1..])
    else Younger(entries[1..], key)
  }

  /** The key the operation reads or writes, if it is another one. */
  function Used<V>(op: Op<V>, key: string): set<string> {
    if (op.Get? || op.Set?) && op.key != key then {op.key} else {}
  }

  /** The other keys that the operations read or write. */
  function OthersUsed<V>(ops: seq<Op<V>>, key: string): set<string> {
    if ops == [] then {}
    else Used(ops[0], key) + OthersUsed(ops[1..], key)
  }

  lemma {:induction false} KeySetSize<V>(entries: seq<Entry<V>>)
    requires UniqueKeys(entries)
    ensures |KeySet(entries)| == |entries|
  {
    if entries != [] {
      KeySetSize(entries[1..]);
      KeySetCons(entries);
      KeySetHas(entries[1..], entries[0].key);
    } else {
      assert KeySet(entries) == {};
    }
  }

  lemma KeySetCons<V>(entries: seq<Entry<V>>)
    requires entries != []
    ensures KeySet(entries) == {entries[0].key} + KeySet(entries[1..])
  {
    assert entries == [entries[0]] + entries[1..];
  }

  lemma {:induction false} KeySetHas<V>(entries: seq<Entry<V>>, key: string)
    ensures key in KeySet(entries) <==> HasKey(entries, key)
  {
    if entries != [] {
      KeySetCons(entries);
      KeySetHas(entries[1..], key);
    }
  }

  lemma KeySetDrop<V>(entries: seq<Entry<V>>, cut: Cut)
    ensures KeySet(Drop(entries, cut)) <= KeySet(entries)
  {
    forall e | e in Drop(entries, cut) ensures e in entries {
      DropLeaves(entries, cut, e);
    }
  }

  lemma {:induction false} YoungerDrop<V>(entries: seq<Entry<V>>, cut: Cut, key: string)
    requires HasKey(entries, key) && !Takes(cut, Find(entries, key).value)
    ensures Younger(Drop(entries, cut), key) <= Younger(entries, key)
  {
    if entries[0].key == key {
      KeySetDrop(entries[1..], cut);
    } else {
      YoungerDrop(entries[1..], cut, key);
    }
  }

  lemma {:induction false} YoungerAppend<V>(entries: seq<Entry<V>>, last: Entry<V>, key: string)
    ensures Younger(entries + [last], key)
         == if HasKey(entries, key) then Younger(entries, key) + {last.key} else {}
  {
    if entries == [] {
      assert ([] + [last])[1..] == [];
    } else {
      assert (entries + [last])[1..] == entries[1..] + [last];
      YoungerAppend(entries[1..], last, key);
      assert KeySet(entries[1..] + [last]) == KeySet(entries[1..]) + {last.key};
    }
  }

  lemma YoungerAfterRead<V>(s: State<V>, other: string, now: real, key: string)
    requires HasKey(s.entries, key) && HasKey(GetStep(s, other, now).0.entries, key)
    ensures Younger(GetStep(s, other, now).0.entries, key) <= Younger(s.entries, key) + ({other} - {key})
  {
    if HasKey(s.entries, other) {
      var e := Find(s.entries, other).value;
      if other != key {
        YoungerDrop(s.entries, ByKey(other), key);
      } else {
        DropRemoves(s.entries, key);
      }
      YoungerAppend(Drop(s.entries, ByKey(other)), e.(accessCount := e.accessCount + 1), key);
    }
  }

  lemma YoungerAfterWrite<V>(s: State<V>, op: Op<V>, key: string)
    requires UniqueKeys(s.entries) && HasKey(s.entries, key) && op.Set? && op.key != key
    requires HasKey(Step(s, op).entries, key)
    ensures Younger(Step(s, op).entries, key) <= Younger(s.entries, key) + {op.key}
  {
    var others := Drop(s.entries, ByKey(op.key));
    var e := Entry(op.key, op.value, op.now, if op.ttl.Some? then op.ttl.value else s.defaultTtl, op.tags, 0);
    YoungerDrop(s.entries, ByKey(op.key), key);
    DropUnique(s.entries, ByKey(op.key));
    FindThroughDrop(s.entries, ByKey(op.key), key);
    YoungerAppend(others, e, key);
    YoungerAppend(others[1..], e, key);
    AppendHasKey(others[1..], e, key);
  }

  /** Behind the key after an operation stand only keys that stood there before or were just used. */
  lemma StepYounger<V>(s: State<V>, op: Op<V>, key: string, time: real, life: real, tags: seq<string>)
    requires UniqueKeys(s.entries) && HasKey(s.entries, key) && LeavesAlone(op, key, time, life, tags)
    requires HasKey(Step(s, op).entries, key) && (op.Remove? ==> !Takes(op.cut, Find(s.entries, key).value))
    ensures Younger(Step(s, op).entries, key) <= Younger(s.entries, key) + Used(op, key)
  {
    match op
    case Get(other, now) => YoungerAfterRead(s, other, now, key);
    case Set(_, _, _, _, _, _) => YoungerAfterWrite(s, op, key);
    case Delete(other) => YoungerDrop(s.entries, ByKey(other), key);
    case Remove(cut) => YoungerDrop(s.entries, cut, key);
  }

  /** An eviction of the key needs as many other keys behind it as the cache has places, the new one included. */
  lemma EvictionNeedsOthers<V>(s: State<V>, op: Op<V>, key: string, value: Option<V>, time: real, life: real,
                               tags: seq<string>)
    requires UniqueKeys(s.entries) && Holds(s, key, value, time, life, tags) && op.Set? && op.key != key
    ensures || Holds(Step(s, op), key, value, time, life, tags)
            || |Younger(s.entries, key) + {op.key}| >= s.maxSize
  {
    WriteKeepsEntry(s, op, key, value, time, life, tags);
    var others := Drop(s.entries, ByKey(op.key));
    if others != [] && others[0].key == key && |others| >= s.maxSize {
      DropUnique(s.entries, ByKey(op.key));
      DropRemoves(s.entries, op.key);
      KeySetSize(others[1..]);
      KeySetHas(others[1..], op.key);
      YoungerDrop(s.entries, ByKey(op.key), key);
      assert |KeySet(others[1..]) + {op.key}| == |others|;
      SubsetSize(KeySet(others[1..]) + {op.key}, Younger(s.entries, key) + {op.key});
    }
  }

  lemma {:induction false} SubsetSize(a: set<string>, b: set<string>)
    requires a <= b
    ensures |a| <= |b|
  {
    if a != {} {
      var x :| x in a;
      SubsetSize(a - {x}, b - {x});
    }
  }

  lemma StepKeepsRecent<V>(s: State<V>, op: Op<V>, used: set<string>, key: string, value: Option<V>, time: real,
                           life: real, tags: seq<string>)
    requires UniqueKeys(s.entries) && Holds(s, key, value, time, life, tags) && LeavesAlone(op, key, time, life, tags)
    requires Younger(s.entries, key) <= used && |used + Used(op, key)| < s.maxSize
    ensures Holds(Step(s, op), key, value, time, life, tags)
    ensures Younger(Step(s, op).entries, key) <= used + Used(op, key)
  {
    if op.Set? {
      EvictionNeedsOthers(s, op, key, value, time, life, tags);
      SubsetSize(Younger(s.entries, key) + {op.key}, used + {op.key});
    } else {
      StepKeepsEntry(s, op, key, value, time, life, tags);
    }
    if op.Remove? {
      SparesIff(op.cut, Find(s.entries, key).value);
    }
    StepYounger(s, op, key, time, life, tags);
  }

  /** While fewer other keys than there are places have been used, the entry stays. */
  lemma {:induction false} RunKeepsEntry<V>(s: State<V>, ops: seq<Op<V>>, used: set<string>, key: string,
                                            value: Option<V>, time: real, life: real, tags: seq<string>)
    requires UniqueKeys(s.entries) && Holds(s, key, value, time, life, tags)
    requires forall i :: 0 <= i < |ops| ==> LeavesAlone(ops[i], key, time, life, tags)
    requires Younger(s.entries, key) <= used && |used + OthersUsed(ops, key)| < s.maxSize
    ensures Holds(Run(s, ops), key, value, time, life, tags)
    decreases |ops|
  {
    if ops != [] {
      var now := used + Used(ops[0], key);
      assert now + OthersUsed(ops[1..], key) == used + OthersUsed(ops, key);
      SubsetSize(now, used + OthersUsed(ops, key));
      StepKeepsRecent(s, ops[0], used, key, value, time, life, tags);
      StepUnique(s, ops[0]);
      StepKeepsSize(s, ops[0]);
      RunKeepsEntry(Step(s, ops[0]), ops[1..], now, key, value, time, life, tags);
    }
  }

  lemma StepKeepsSize<V>(s: State<V>, op: Op<V>)
    ensures Step(s, op).maxSize == s.maxSize
  {
  }

  /** As long as the key is there, so is its entry. */
  lemma {:induction false} RunKeepsEntryIfPresent<V>(s: State<V>, ops: seq<Op<V>>, key: string, value: Option<V>,
                                                     time: real, life: real, tags: seq<string>)
    requires UniqueKeys(s.entries) && Holds(s, key, value, time, life, tags)
    requires forall i :: 0 <= i < |ops| ==> LeavesAlone(ops[i], key, time, life, tags)
    requires HasKey(Run(s, ops).entries, key)
    ensures Holds(Run(s, ops), key, value, time, life, tags)
    decreases |ops|
  {
    if ops != [] {
      var op := ops[0];
      if !HasKey(Step(s, op).entries, key) {
        RunStaysAbsent(Step(s, op), ops[1..], key);
      }
      StepUnique(s, op);
      if op.Set? {
        PresentAfterWrite(s, op, key, value, time, life, tags);
      } else {
        StepKeepsEntry(s, op, key, value, time, life, tags);
      }
      RunKeepsEntryIfPresent(Step(s, op), ops[1..], key, value, time, life, tags);
    }
  }

  lemma PresentAfterWrite<V>(s: State<V>, op: Op<V>, key: string, value: Option<V>, time: real, life: real,
                             tags: seq<string>)
    requires UniqueKeys(s.entries) && Holds(s, key, value, time, life, tags) && op.Set? && op.key != key
    requires HasKey(Step(s, op).entries, key)
    ensures Holds(Step(s, op), key, value, time, life, tags)
  {
    var others := Drop(s.entries, ByKey(op.key));
    var e := Entry(op.key, op.value, op.now, if op.ttl.Some? then op.ttl.value else s.defaultTtl, op.tags, 0);
    DropUnique(s.entries, ByKey(op.key));
    FindThroughDrop(s.entries, ByKey(op.key), key);
    FindBefore(others, e, key);
    FindBefore(others[1..], e, key);
    AppendHasKey(others[1..], e, key);
  }

  // ----- reads -----

  lemma ReadHeld<V>(s: State<V>, key: string, value: Option<V>, time: real, life: real, tags: seq<string>, now: real)
    requires Holds(s, key, value, time, life, tags)
    ensures var (after, read) := GetStep(s, key, now);
            if now <= time + life then read == value && Holds(after, key, value, time, life, tags)
            else read == None && !HasKey(after.entries, key)
  {
    DropRemoves(s.entries, key);
    if now <= time + life {
      ReadKeepsEntry(s, key, now, key, value, time, life, tags);
    }
  }

  lemma WriteIsLast<V>(s: State<V>, key: string, value: Option<V>, ttl: Option<real>, tags: seq<string>,
                       minEpoch: Option<int>, time: real)
    requires UniqueKeys(s.entries) && SetStep(s, key, value, ttl, tags, minEpoch, time).1 == Stored
    ensures var after := SetStep(s, key, value, ttl, tags, minEpoch, time).0;
            && UniqueKeys(after.entries) && after.maxSize == s.maxSize
            && Holds(after, key, value, time, if ttl.Some? then ttl.value else s.defaultTtl, tags)
            && Younger(after.entries, key) == {}
  {
    SetUnique(s, key, value, ttl, tags, minEpoch, time);
    var others := Drop(s.entries, ByKey(key));
    var e := Entry(key, value, time, if ttl.Some? then ttl.value else s.defaultTtl, tags, 0);
    DropRemoves(s.entries, key);
    FindAppended(others, e);
    YoungerAppend(others, e, key);
    if others != [] {
      FindAppended(others[1..], e);
      YoungerAppend(others[1..], e, key);
    }
  }

  /**
   A read returns the value last written under its key exactly while that is within its life, provided nothing
   removed the key in between: nothing evicted it, that is, which is certain when fewer other keys than there are
   places were used since the write. Past its life nothing is returned and the key is gone.
   */
  lemma ReadReturnsLastWrite<V>(s: State<V>, key: string, value: Option<V>, ttl: Option<real>, tags: seq<string>,
                                minEpoch: Option<int>, time: real, between: seq<Op<V>>, now: real)
    requires UniqueKeys(s.entries) && SetStep(s, key, value, ttl, tags, minEpoch, time).1 == Stored
    requires var life := if ttl.Some? then ttl.value else s.defaultTtl;
             forall i :: 0 <= i < |between| ==> LeavesAlone(between[i], key, time, life, tags)
    ensures var life := if ttl.Some? then ttl.value else s.defaultTtl;
            var before := Run(SetStep(s, key, value, ttl, tags, minEpoch, time).0, between);
            var (after, read) := GetStep(before, key, now);
            && (now <= time + life && HasKey(before.entries, key) ==> read == value && HasKey(after.entries, key))
            && (now > time + life || !HasKey(before.entries, key) ==> read == None && !HasKey(after.entries, key))
            && (|OthersUsed(between, key)| < s.maxSize ==> HasKey(before.entries, key))
  {
    var life := if ttl.Some? then ttl.value else s.defaultTtl;
    var written := SetStep(s, key, value, ttl, tags, minEpoch, time).0;
    WriteIsLast(s, key, value, ttl, tags, minEpoch, time);
    assert {} + OthersUsed(between, key) == OthersUsed(between, key);
    if |OthersUsed(between, key)| < s.maxSize {
      RunKeepsEntry(written, between, {}, key, value, time, life, tags);
    }
    if HasKey(Run(written, between).entries, key) {
      RunKeepsEntryIfPresent(written, between, key, value, time, life, tags);
      ReadHeld(Run(written, between), key, value, time, life, tags, now);
    }
  }

  /** After a delete of the key, or a removal that does not spare it, nothing is read until it is written again. */
  lemma RemovedReadsNothing<V>(s: State<V>, key: string, value: Option<V>, time: real, life: real, tags: seq<string>,
                               removal: Op<V>, between: seq<Op<V>>, now: real)
    requires UniqueKeys(s.entries) && Holds(s, key, value, time, life, tags)
    requires removal == Delete(key) || (removal.Remove? && !Spares(removal.cut, key, time, life, tags))
    requires forall i :: 0 <= i < |between| && between[i].Set? ==> between[i].key != key
    ensures GetStep(Run(Step(s, removal), between), key, now).1 == None
  {
    DropRemoves(s.entries, key);
    if removal.Remove? {
      SparesIff(removal.cut, Find(s.entries, key).value);
      TakenIsGone(s.entries, removal.cut, key);
    }
    RunStaysAbsent(Step(s, removal), between, key);
  }

  lemma {:induction false} TakenIsGone<V>(entries: seq<Entry<V>>, cut: Cut, key: string)
    requires UniqueKeys(entries) && HasKey(entries, key) && Takes(cut, Find(entries, key).value)
    ensures !HasKey(Drop(entries, cut), key)
  {
    if entries[0].key == key {
      DropKeepsAbsent(entries[1..], cut, key);
    } else {
      TakenIsGone(entries[1..], cut, key);
    }
  }

  /** get_or_set returns a live stored value and then neither runs the factory nor writes. */
  lemma GetOrSetReturnsStored<V>(s: State<V>, key: string, value: V, time: real, life: real, tags: seq<string>,
                                 produced: Option<V>, ttl: Option<real>, now: real, later: real,
                                 between: seq<Op<V>>, meanwhile: seq<Op<V>>)
    requires Holds(s, key, Some(value), time, life, tags) && now <= time + life
    ensures var (after, read) := GetOrSetStep(s, key, produced, ttl, now, later, between, meanwhile);
            && read == Some(value) && Holds(after, key, Some(value), time, life, tags)
            && after.entries == Drop(s.entries, ByKey(key)) + [Find(after.entries, key).value]
            && after == s.(entries := after.entries, hits := s.hits + 1)
  {
    ReadHeld(s, key, Some(value), time, life, tags, now);
    var touched := Find(s.entries, key).value;
    DropRemoves(s.entries, key);
    FindAppended(Drop(s.entries, ByKey(key)), touched.(accessCount := touched.accessCount + 1));
  }

  /** After a miss get_or_set returns what the factory produced, and later reads do, while it is the last write. */
  lemma GetOrSetStoresProduced<V>(s: State<V>, key: string, produced: Option<V>, ttl: Option<real>, now: real,
                                  later: real, next: real)
    requires UniqueKeys(s.entries) && s.maxSize >= 1
    requires Find(s.entries, key).None? || now > Find(s.entries, key).value.createdAt + Find(s.entries, key).value.ttl
    ensures var (after, read) := GetOrSetStep(s, key, produced, ttl, now, later, [], []);
            && read == produced
            && (next <= later + (if ttl.Some? then ttl.value else s.defaultTtl) ==>
                  GetStep(after, key, next).1 == produced)
  {
    var missed := GetStep(s, key, now).0;
    GetUnique(s, key, now);
    ReadReturnsLastWrite(missed, key, produced, ttl, [], Some(EpochOf(missed, key)), later, [], next);
  }

  // ----- the counters -----

  /** The reads in the run that find a live entry. */
  ghost function HitReads<V>(s: State<V>, ops: seq<Op<V>>): nat
    decreases |ops|
  {
    if ops == [] then 0
    else
      (if ops[0].Get? && Find(s.entries, ops[0].key).Some?
          && ops[0].now <= Find(s.entries, ops[0].key).value.createdAt + Find(s.entries, ops[0].key).value.ttl
       then 1 else 0)
      + HitReads(Step(s, ops[0]), ops[1..])
  }

  function Reads<V>(ops: seq<Op<V>>): nat {
    if ops == [] then 0 else (if ops[0].Get? then 1 else 0) + Reads(ops[1..])
  }

  /** Hits count the reads that found a live entry, misses the others. */
  lemma {:induction false} CountersCountReads<V>(s: State<V>, ops: seq<Op<V>>)
    ensures Run(s, ops).hits == s.hits + HitReads(s, ops)
    ensures Run(s, ops).hits + Run(s, ops).misses == s.hits + s.misses + Reads(ops)
    decreases |ops|
  {
    if ops != [] {
      CountersCountReads(Step(s, ops[0]), ops[1..]);
    }
  }

  /** The hits an entry has had since its write are counted with it. */
  lemma HitIsCounted<V>(s: State<V>, key: string, now: real)
    requires Find(s.entries, key).Some?
    requires now <= Find(s.entries, key).value.createdAt + Find(s.entries, key).value.ttl
    ensures Find(GetStep(s, key, now).0.entries, key).Some?
    ensures Find(GetStep(s, key, now).0.entries, key).value.accessCount
         == Find(s.entries, key).value.accessCount + 1
  {
    var e := Find(s.entries, key).value;
    TouchedIsFound(s.entries, e.(accessCount := e.accessCount + 1));
  }
}
