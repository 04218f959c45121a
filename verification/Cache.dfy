/**
 The in-memory cache: least recently used eviction, time to live, and delete epochs that refuse stale
 writes (dataworks_agent/cache/manager.py). The ordered dictionary is a sequence of entries, oldest first.
 */
module Cache {
  import opened Values
  import opened Text

  /** None as a value is a stored Python None. */
  datatype Entry<V> = Entry(key: string, value: Option<V>, createdAt: real, ttl: real, tags: seq<string>,
                            accessCount: nat)

  predicate IsExpired<V>(e: Entry<V>, now: real) {
    now - e.createdAt > e.ttl
  }

  /** Which entries a bulk removal takes; a compiled pattern is an arbitrary predicate on keys. */
  datatype Cut =
    | ByKey(key: string)
    | ByExpiry(now: real)
    | ByPattern(matches: string -> bool)
    | BySource(source: string)
    | ByTags(tags: seq<string>)
    | All

  function WithoutStars(s: string): string {
    if s == [] then [] else (if s[0] == '*' then [] else [s[0]]) + WithoutStars(s[1..])
  }

  predicate Takes<V>(cut: Cut, e: Entry<V>) {
    match cut
    case ByKey(key) => e.key == key
    case ByExpiry(now) => IsExpired(e, now)
    case ByPattern(matches) => matches(e.key)
    case BySource(source) =>
      if '*' in source then StartsWith(e.key, WithoutStars(source))
      else e.key == source || StartsWith(e.key, source + ":")
    case ByTags(tags) => exists i :: 0 <= i < |tags| && tags[i] in e.tags
    case All => true
  }

  /** The entries a removal leaves, in order. */
  function Drop<V>(entries: seq<Entry<V>>, cut: Cut): (r: seq<Entry<V>>)
    ensures |r| <= |entries|
  {
    if entries == [] then []
    else
      var rest := Drop(entries[1..], cut);
      if Takes(cut, entries[0]) then rest else [entries[0]] + rest
  }

  predicate HasKey<V>(entries: seq<Entry<V>>, key: string) {
    entries != [] && (entries[0].key == key || HasKey(entries[1..], key))
  }

  /** dict.get */
  function Find<V>(entries: seq<Entry<V>>, key: string): (r: Option<Entry<V>>)
    ensures r.Some? <==> HasKey(entries, key)
    ensures r.Some? ==> r.value in entries && r.value.key == key
  {
    if entries == [] then None
    else if entries[0].key == key then Some(entries[0])
    else Find(entries[1..], key)
  }

  predicate UniqueKeys<V>(entries: seq<Entry<V>>) {
    entries == [] || (!HasKey(entries[1..], entries[0].key) && UniqueKeys(entries[1..]))
  }

  // ----- the cache as a value -----

  datatype State<V> = State(entries: seq<Entry<V>>, maxSize: int, defaultTtl: real, epochs: map<string, nat>,
                            hits: nat, misses: nat, staleWrites: nat)

  function Empty<V>(maxSize: int, defaultTtl: real): State<V> {
    State([], maxSize, defaultTtl, map[], 0, 0, 0)
  }

  function EpochOf<V>(s: State<V>, key: string): nat {
    if key in s.epochs then s.epochs[key] else 0
  }

  datatype SetOutcome = Stored | Refused | KeyErrorRaised

  function GetStep<V>(s: State<V>, key: string, now: real): (State<V>, Option<V>) {
    var found := Find(s.entries, key);
    if found.None? then (s.(misses := s.misses + 1), None)
    else if IsExpired(found.value, now) then
      (s.(entries := Drop(s.entries, ByKey(key)), misses := s.misses + 1), None)
    else
      var touched := found.value.(accessCount := found.value.accessCount + 1);
      (s.(entries := Drop(s.entries, ByKey(key)) + [touched], hits := s.hits + 1), touched.value)
  }

  predicate IsStale<V>(s: State<V>, key: string, minEpoch: Option<int>) {
    minEpoch.Some? && EpochOf(s, key) > minEpoch.value
  }

  function SetStep<V>(s: State<V>, key: string, value: Option<V>, ttl: Option<real>, tags: seq<string>,
                          minEpoch: Option<int>, now: real): (State<V>, SetOutcome) {
    if IsStale(s, key, minEpoch) then (s.(staleWrites := s.staleWrites + 1), Refused)
    else
      var others := Drop(s.entries, ByKey(key));
      if |others| >= s.maxSize && others == [] then (s.(entries := others), KeyErrorRaised)
      else
        var kept := if |others| >= s.maxSize then others[1..] else others;
        var life := if ttl.Some? then ttl.value else s.defaultTtl;
        (s.(entries := kept + [Entry(key, value, now, life, tags, 0)]), Stored)
  }

  function DeleteStep<V>(s: State<V>, key: string): (State<V>, bool) {
    if HasKey(s.entries, key)
    then (s.(entries := Drop(s.entries, ByKey(key)), epochs := s.epochs[key := EpochOf(s, key) + 1]), true)
    else (s, false)
  }

  function RemoveStep<V>(s: State<V>, cut: Cut): State<V> {
    s.(entries := Drop(s.entries, cut))
  }

  // ----- the operations as one alphabet -----

  datatype Op<V> =
    | Get(key: string, now: real)
    | Set(key: string, value: Option<V>, ttl: Option<real>, tags: seq<string>, minEpoch: Option<int>, now: real)
    | Delete(key: string)
    | Remove(cut: Cut)

  function Step<V>(s: State<V>, op: Op<V>): State<V> {
    match op
    case Get(key, now) => GetStep(s, key, now).0
    case Set(key, value, ttl, tags, minEpoch, now) => SetStep(s, key, value, ttl, tags, minEpoch, now).0
    case Delete(key) => DeleteStep(s, key).0
    case Remove(cut) => RemoveStep(s, cut)
  }

  function Run<V>(s: State<V>, ops: seq<Op<V>>): State<V>
    decreases |ops|
  {
    if ops == [] then s else Run(Step(s, ops[0]), ops[1..])
  }

  // ----- removals and keys -----

  lemma {:induction false} DropKeepsAbsent<V>(entries: seq<Entry<V>>, cut: Cut, key: string)
    requires !HasKey(entries, key)
    ensures !HasKey(Drop(entries, cut), key)
  {
    if entries != [] {
      DropKeepsAbsent(entries[1..], cut, key);
    }
  }

  lemma {:induction false} DropUnique<V>(entries: seq<Entry<V>>, cut: Cut)
    requires UniqueKeys(entries)
    ensures UniqueKeys(Drop(entries, cut))
  {
    if entries != [] {
      DropUnique(entries[1..], cut);
      DropKeepsAbsent(entries[1..], cut, entries[0].key);
    }
  }

  lemma {:induction false} DropAbsent<V>(entries: seq<Entry<V>>, key: string)
    requires !HasKey(entries, key)
    ensures Drop(entries, ByKey(key)) == entries
  {
    if entries != [] {
      DropAbsent(entries[1..], key);
    }
  }

  lemma {:induction false} DropRemoves<V>(entries: seq<Entry<V>>, key: string)
    ensures !HasKey(Drop(entries, ByKey(key)), key)
  {
    if entries != [] {
      DropRemoves(entries[1..], key);
    }
  }

  lemma {:induction false} DropAppend<V>(a: seq<Entry<V>>, b: seq<Entry<V>>, cut: Cut)
    ensures Drop(a + b, cut) == Drop(a, cut) + Drop(b, cut)
  {
    if a == [] {
      assert a + b == b;
    } else {
      assert (a + b)[1..] == a[1..] + b;
      DropAppend(a[1..], b, cut);
    }
  }

  lemma {:induction false} AtHasKey<V>(entries: seq<Entry<V>>, i: nat)
    requires i < |entries|
    ensures HasKey(entries, entries[i].key)
  {
    if i > 0 {
      AtHasKey(entries[1..], i - 1);
    }
  }

  /** Deleting at a position is removing that key. */
  lemma {:induction false} DropAt<V>(entries: seq<Entry<V>>, i: nat)
    requires UniqueKeys(entries) && i < |entries|
    ensures Drop(entries, ByKey(entries[i].key)) == entries[..i] + entries[i + 1..]
  {
    if i == 0 {
      DropAbsent(entries[1..], entries[0].key);
    } else {
      DropAt(entries[1..], i - 1);
      AtHasKey(entries[1..], i - 1);
      assert entries[..i] == [entries[0]] + entries[1..][..i - 1];
      assert entries[1..][i..] == entries[i + 1..];
    }
  }

  lemma {:induction false} AppendHasKey<V>(entries: seq<Entry<V>>, e: Entry<V>, key: string)
    ensures HasKey(entries + [e], key) <==> HasKey(entries, key) || e.key == key
  {
    if entries == [] {
      assert ([] + [e])[1..] == [];
    } else {
      assert (entries + [e])[1..] == entries[1..] + [e];
      AppendHasKey(entries[1..], e, key);
    }
  }

  lemma {:induction false} AppendUnique<V>(entries: seq<Entry<V>>, e: Entry<V>)
    requires UniqueKeys(entries) && !HasKey(entries, e.key)
    ensures UniqueKeys(entries + [e])
  {
    if entries == [] {
      assert ([] + [e])[1..] == [];
    } else {
      assert (entries + [e])[1..] == entries[1..] + [e];
      AppendUnique(entries[1..], e);
      AppendHasKey(entries[1..], e, entries[0].key);
    }
  }

  // ----- every step keeps the keys unique -----

  lemma GetUnique<V>(s: State<V>, key: string, now: real)
    requires UniqueKeys(s.entries)
    ensures UniqueKeys(GetStep(s, key, now).0.entries)
  {
    var found := Find(s.entries, key);
    DropUnique(s.entries, ByKey(key));
    DropRemoves(s.entries, key);
    if found.Some? {
      AppendUnique(Drop(s.entries, ByKey(key)), found.value.(accessCount := found.value.accessCount + 1));
    }
  }

  lemma SetUnique<V>(s: State<V>, key: string, value: Option<V>, ttl: Option<real>, tags: seq<string>,
                         minEpoch: Option<int>, now: real)
    requires UniqueKeys(s.entries)
    ensures UniqueKeys(SetStep(s, key, value, ttl, tags, minEpoch, now).0.entries)
  {
    var others := Drop(s.entries, ByKey(key));
    DropUnique(s.entries, ByKey(key));
    DropRemoves(s.entries, key);
    var fresh' := Entry(key, value, now, if ttl.Some? then ttl.value else s.defaultTtl, tags, 0);
    AppendUnique(others, fresh');
    if others != [] {
      AppendUnique(others[1..], fresh');
    }
  }

  lemma StepUnique<V>(s: State<V>, op: Op<V>)
    requires UniqueKeys(s.entries)
    ensures UniqueKeys(Step(s, op).entries)
  {
    match op
    case Get(key, now) => GetUnique(s, key, now);
    case Set(key, value, ttl, tags, minEpoch, now) => SetUnique(s, key, value, ttl, tags, minEpoch, now);
    case Delete(key) => DropUnique(s.entries, ByKey(key));
    case Remove(cut) => DropUnique(s.entries, cut);
  }

  // ----- the class -----

  class CacheManager<V> {
    var entries: seq<Entry<V>>
    const maxSize: int
    const defaultTtl: real
    var epochs: map<string, nat>
    var hits: nat
    var misses: nat
    var staleWrites: nat

    ghost predicate Valid()
      reads this
    {
      UniqueKeys(entries)
    }

    ghost function Abs(): State<V>
      reads this
    {
      State(entries, maxSize, defaultTtl, epochs, hits, misses, staleWrites)
    }

    constructor (maxSize: int, defaultTtl: real)
      ensures Valid() && Abs() == Empty(maxSize, defaultTtl)
    {
      this.entries, this.maxSize, this.defaultTtl := [], maxSize, defaultTtl;
      this.epochs, this.hits, this.misses, this.staleWrites := map[], 0, 0, 0;
    }

    /** The position of a key in the dictionary order. */
    method IndexOf(key: string) returns (index: Option<nat>)
      ensures index.None? ==> Find(entries, key) == None
      ensures index.Some? ==> index.value < |entries| && Find(entries, key) == Some(entries[index.value])
    {
      var i := 0;
      while i < |entries|
        invariant i <= |entries|
        invariant Find(entries, key) == Find(entries[i..], key)
      {
        if entries[i].key == key { return Some(i); }
        assert entries[i..][1..] == entries[i + 1..];
        i := i + 1;
      }
      index := None;
    }

    /** del self._cache[key] */
    method DeleteAt(i: nat)
      requires Valid() && i < |entries|
      modifies this`entries
      ensures Valid() && entries == Drop(old(entries), ByKey(old(entries[i].key)))
    {
      DropAt(entries, i);
      DropUnique(entries, ByKey(entries[i].key));
      entries := entries[..i] + entries[i + 1..];
    }

    method GetValue(key: string, now: real) returns (value: Option<V>)
      requires Valid()
      modifies this
      ensures Valid() && (Abs(), value) == GetStep(old(Abs()), key, now)
    {
      GetUnique(Abs(), key, now);
      var index := IndexOf(key);
      if index.None? {
        misses := misses + 1;
        return None;
      }
      var entry := entries[index.value];
      DeleteAt(index.value);
      if IsExpired(entry, now) {
        misses := misses + 1;
        return None;
      }
      entries := entries + [entry.(accessCount := entry.accessCount + 1)];
      hits := hits + 1;
      value := entry.value;
    }

    method SetValue(key: string, value: Option<V>, ttl: Option<real>, tags: seq<string>, minEpoch: Option<int>,
                    now: real) returns (outcome: SetOutcome)
      requires Valid()
      modifies this
      ensures Valid() && (Abs(), outcome) == SetStep(old(Abs()), key, value, ttl, tags, minEpoch, now)
      ensures outcome == Refused ==> Abs() == old(Abs()).(staleWrites := old(staleWrites) + 1)
    {
      SetUnique(Abs(), key, value, ttl, tags, minEpoch, now);
      var life := if ttl.Some? then ttl.value else defaultTtl;
      if minEpoch.Some? {
        var current := if key in epochs then epochs[key] else 0;
        if current > minEpoch.value {
          staleWrites := staleWrites + 1;
          return Refused;
        }
      }
      var index := IndexOf(key);
      if index.Some? {
        DeleteAt(index.value);
      } else {
        DropAbsent(entries, key);
      }
      if |entries| >= maxSize {
        if entries == [] { return KeyErrorRaised; }
        entries := entries[1..];
      }
      entries := entries + [Entry(key, value, now, life, tags, 0)];
      outcome := Stored;
    }

    method DeleteKey(key: string) returns (existed: bool)
      requires Valid()
      modifies this
      ensures Valid() && (Abs(), existed) == DeleteStep(old(Abs()), key)
    {
      var index := IndexOf(key);
      existed := index.Some?;
      if existed {
        DeleteAt(index.value);
        epochs := epochs[key := (if key in epochs then epochs[key] else 0) + 1];
      }
    }

    method PeekInvalidationEpoch(key: string) returns (epoch: nat)
      ensures epoch == EpochOf(Abs(), key)
    {
      epoch := if key in epochs then epochs[key] else 0;
    }

    method CollectKeys(cut: Cut) returns (doomed: seq<string>)
      ensures doomed == Doomed(entries, cut)
    {
      doomed := [];
      for i := 0 to |entries|
        invariant doomed == Doomed(entries[..i], cut)
      {
        assert entries[..i + 1] == entries[..i] + [entries[i]];
        DoomedAppend(entries[..i], entries[i], cut);
        if Takes(cut, entries[i]) {
          doomed := doomed + [entries[i].key];
        }
      }
      assert entries[..|entries|] == entries;
    }

    /** clear, cleanup_expired and the invalidations: collect the doomed keys, then delete them one by one. */
    method RemoveWhere(cut: Cut) returns (count: nat)
      requires Valid()
      modifies this
      ensures Valid() && Abs() == RemoveStep(old(Abs()), cut)
      ensures count == |old(entries)| - |entries|
    {
      ghost var was := entries;
      var doomed := CollectKeys(cut);
      count := |doomed|;
      DropKeysNone(was);
      for k := 0 to |doomed|
        invariant Valid() && Abs() == old(Abs()).(entries := entries)
        invariant entries == DropKeys(was, Elements(doomed[..k]))
      {
        DropNextDoomed(was, cut, k);
        var index := IndexOf(doomed[k]);
        DeleteAt(index.value);
      }
      assert doomed[..|doomed|] == doomed;
      DropDoomed(was, cut);
    }

    /** One operation of the alphabet, as another thread or the factory may perform it. */
    method Apply(op: Op<V>)
      requires Valid()
      modifies this
      ensures Valid() && Abs() == Step(old(Abs()), op)
    {
      match op {
        case Get(key, now) => var value := GetValue(key, now);
        case Set(key, value, ttl, tags, minEpoch, now) =>
          var outcome := SetValue(key, value, ttl, tags, minEpoch, now);
        case Delete(key) => var existed := DeleteKey(key);
        case Remove(cut) => var count := RemoveWhere(cut);
      }
    }

    /** Operations of other threads, one after the other. */
    method ApplyAll(ops: seq<Op<V>>)
      requires Valid()
      modifies this
      ensures Valid() && Abs() == Run(old(Abs()), ops)
    {
      for i := 0 to |ops|
        invariant Valid() && Run(Abs(), ops[i..]) == Run(old(Abs()), ops)
      {
        assert ops[i..][1..] == ops[i + 1..];
        Apply(ops[i]);
      }
    }

    /**
     The factory returns `produced`. Every call takes the lock for itself: others may come in between the read and
     the peek, and again while the factory runs.
     */
    method GetOrSet(key: string, produced: Option<V>, ttl: Option<real>, now: real, later: real,
                    between: seq<Op<V>>, meanwhile: seq<Op<V>>) returns (value: Option<V>)
      requires Valid()
      modifies this
      ensures Valid()
      ensures (Abs(), value) == GetOrSetStep(old(Abs()), key, produced, ttl, now, later, between, meanwhile)
    {
      value := GetValue(key, now);
      if value.Some? { return; }
      ApplyAll(between);
      var minEpoch := PeekInvalidationEpoch(key);
      ApplyAll(meanwhile);
      value := produced;
      var outcome := SetValue(key, value, ttl, [], Some(minEpoch), later);
    }
  }

  function GetOrSetStep<V>(s: State<V>, key: string, produced: Option<V>, ttl: Option<real>, now: real, later: real,
                           between: seq<Op<V>>, meanwhile: seq<Op<V>>): (State<V>, Option<V>) {
    var (missed, value) := GetStep(s, key, now);
    if value.Some? then (missed, value)
    else
      var peeked := Run(missed, between);
      (SetStep(Run(peeked, meanwhile), key, produced, ttl, [], Some(EpochOf(peeked, key)), later).0, produced)
  }

  // ----- deleting a list of keys -----

  function Doomed<V>(entries: seq<Entry<V>>, cut: Cut): seq<string> {
    if entries == [] then []
    else (if Takes(cut, entries[0]) then [entries[0].key] else []) + Doomed(entries[1..], cut)
  }

  function Elements(keys: seq<string>): set<string> {
    set k | k in keys
  }

  function DropKeys<V>(entries: seq<Entry<V>>, keys: set<string>): seq<Entry<V>> {
    if entries == [] then []
    else (if entries[0].key in keys then [] else [entries[0]]) + DropKeys(entries[1..], keys)
  }

  lemma {:induction false} DoomedAppend<V>(entries: seq<Entry<V>>, last: Entry<V>, cut: Cut)
    ensures Doomed(entries + [last], cut) == Doomed(entries, cut) + (if Takes(cut, last) then [last.key] else [])
  {
    if entries == [] {
      assert ([] + [last])[1..] == [];
    } else {
      assert (entries + [last])[1..] == entries[1..] + [last];
      DoomedAppend(entries[1..], last, cut);
    }
  }

  lemma {:induction false} DropKeysStep<V>(entries: seq<Entry<V>>, keys: set<string>, key: string)
    ensures Drop(DropKeys(entries, keys), ByKey(key)) == DropKeys(entries, keys + {key})
  {
    if entries != [] {
      DropKeysStep(entries[1..], keys, key);
      var head := if entries[0].key in keys then [] else [entries[0]];
      DropAppend(head, DropKeys(entries[1..], keys), ByKey(key));
    }
  }

  lemma {:induction false} DropKeysNone<V>(entries: seq<Entry<V>>)
    ensures DropKeys(entries, Elements([])) == entries
  {
    if entries != [] {
      DropKeysNone(entries[1..]);
    }
  }

  lemma {:induction false} DropKeysKeeps<V>(entries: seq<Entry<V>>, keys: set<string>, key: string)
    requires key !in keys && HasKey(entries, key)
    ensures HasKey(DropKeys(entries, keys), key)
  {
    var rest := DropKeys(entries[1..], keys);
    assert ([entries[0]] + rest)[1..] == rest && [] + rest == rest;
    if entries[0].key != key {
      DropKeysKeeps(entries[1..], keys, key);
    }
  }

  lemma {:induction false} DropKeysIgnores<V>(entries: seq<Entry<V>>, keys: set<string>, key: string)
    requires !HasKey(entries, key)
    ensures DropKeys(entries, keys + {key}) == DropKeys(entries, keys)
  {
    if entries != [] {
      DropKeysIgnores(entries[1..], keys, key);
    }
  }

  lemma {:induction false} DoomedHaveKeys<V>(entries: seq<Entry<V>>, cut: Cut, k: nat)
    requires k < |Doomed(entries, cut)|
    ensures HasKey(entries, Doomed(entries, cut)[k])
  {
    if Takes(cut, entries[0]) {
      if k > 0 {
        DoomedHaveKeys(entries[1..], cut, k - 1);
      }
    } else {
      DoomedHaveKeys(entries[1..], cut, k);
    }
  }

  lemma {:induction false} DoomedDistinct<V>(entries: seq<Entry<V>>, cut: Cut, j: nat, k: nat)
    requires UniqueKeys(entries) && j < k < |Doomed(entries, cut)|
    ensures Doomed(entries, cut)[j] != Doomed(entries, cut)[k]
  {
    if Takes(cut, entries[0]) {
      DoomedHaveKeys(entries[1..], cut, k - 1);
      if j > 0 {
        DoomedDistinct(entries[1..], cut, j - 1, k - 1);
      }
    } else {
      DoomedDistinct(entries[1..], cut, j, k);
    }
  }

  /** The k-th doomed key is still there when the ones before it are gone. */
  lemma DoomedPresent<V>(entries: seq<Entry<V>>, cut: Cut, k: nat)
    requires UniqueKeys(entries) && k < |Doomed(entries, cut)|
    ensures HasKey(DropKeys(entries, Elements(Doomed(entries, cut)[..k])), Doomed(entries, cut)[k])
  {
    var doomed := Doomed(entries, cut);
    forall j | 0 <= j < k ensures doomed[j] != doomed[k] {
      DoomedDistinct(entries, cut, j, k);
    }
    DoomedHaveKeys(entries, cut, k);
    assert doomed[k] !in Elements(doomed[..k]);
    DropKeysKeeps(entries, Elements(doomed[..k]), doomed[k]);
  }

  lemma DropNextDoomed<V>(entries: seq<Entry<V>>, cut: Cut, k: nat)
    requires UniqueKeys(entries) && k < |Doomed(entries, cut)|
    ensures var doomed := Doomed(entries, cut);
            && HasKey(DropKeys(entries, Elements(doomed[..k])), doomed[k])
            && Drop(DropKeys(entries, Elements(doomed[..k])), ByKey(doomed[k]))
            == DropKeys(entries, Elements(doomed[..k + 1]))
  {
    var doomed := Doomed(entries, cut);
    DoomedPresent(entries, cut, k);
    assert Elements(doomed[..k + 1]) == Elements(doomed[..k]) + {doomed[k]};
    DropKeysStep(entries, Elements(doomed[..k]), doomed[k]);
  }

  /** Deleting the doomed keys one by one is the removal. */
  lemma {:induction false} DropDoomed<V>(entries: seq<Entry<V>>, cut: Cut)
    requires UniqueKeys(entries)
    ensures DropKeys(entries, Elements(Doomed(entries, cut))) == Drop(entries, cut)
    ensures |Doomed(entries, cut)| == |entries| - |Drop(entries, cut)|
  {
    if entries != [] {
      var e, rest := entries[0], entries[1..];
      var keys := Elements(Doomed(rest, cut));
      DropDoomed(rest, cut);
      if Takes(cut, e) {
        assert Elements([e.key] + Doomed(rest, cut)) == keys + {e.key};
        DropKeysIgnores(rest, keys, e.key);
      } else {
        assert [] + Doomed(rest, cut) == Doomed(rest, cut);
        DoomedKeysPresent(rest, cut, e.key);
      }
    }
  }

  lemma DoomedKeysPresent<V>(entries: seq<Entry<V>>, cut: Cut, key: string)
    requires !HasKey(entries, key)
    ensures key !in Elements(Doomed(entries, cut))
  {
    var doomed := Doomed(entries, cut);
    forall k | 0 <= k < |doomed| ensures doomed[k] != key {
      DoomedHaveKeys(entries, cut, k);
    }
  }
}
