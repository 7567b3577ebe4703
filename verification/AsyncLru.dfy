/** The single-flight, size-bounded cache: the state behind its lock, and its worker protocol. */
module AsyncLru {
  import opened Results

  // Keys, values and broadcast channels are identified by numbers.
  type Key = nat
  type Value = nat
  type Channel = nat

  /** A value with the size memoized when it was added, or a receiver for one being generated. */
  datatype CacheResult = Ready(value: Value, size: nat, added: int) | Waiting(channel: Channel)

  datatype Slot = Slot(key: Key, result: CacheResult)

  /** Slots from least to most recently used. */
  type Cache = seq<Slot>

  datatype Inner = Inner(cache: Cache, currentSize: nat, maxSize: nat)

  datatype Outcome = Built(value: Value, size: nat) | Failed

  /** What a generator hands back: an unordered map, so each key at most once. */
  datatype Entry = Entry(key: Key, outcome: Outcome)

  // ----- The LRU map -----

  function SizeOf(r: CacheResult): nat {
    if r.Ready? then r.size else 0
  }

  function ReadySize(cache: Cache): nat {
    if cache == [] then 0 else SizeOf(cache[0].result) + ReadySize(cache[1..])
  }

  function Lookup(cache: Cache, key: Key): Option<CacheResult> {
    if cache == [] then None
    else if cache[0].key == key then Some(cache[0].result)
    else Lookup(cache[1..], key)
  }

  function SizeAt(cache: Cache, key: Key): nat {
    match Lookup(cache, key)
    case None => 0
    case Some(r) => SizeOf(r)
  }

  function Without(cache: Cache, key: Key): Cache {
    if cache == [] then []
    else (if cache[0].key == key then [] else [cache[0]]) + Without(cache[1..], key)
  }

  /** Insert or replace, making the key the most recently used. */
  function Put(cache: Cache, key: Key, result: CacheResult): Cache {
    Without(cache, key) + [Slot(key, result)]
  }

  /** A hit makes the key the most recently used. */
  function Touch(cache: Cache, key: Key): Cache {
    match Lookup(cache, key)
    case None => cache
    case Some(r) => Put(cache, key, r)
  }

  ghost predicate Distinct(cache: Cache) {
    forall i, j :: 0 <= i < j < |cache| ==> cache[i].key != cache[j].key
  }

  lemma {:induction false} LookupFinds(cache: Cache, key: Key, r: CacheResult)
    requires Distinct(cache)
    ensures Lookup(cache, key) == Some(r) <==> Slot(key, r) in cache
  {
    if cache != [] {
      LookupFinds(cache[1..], key, r);
      assert cache == [cache[0]] + cache[1..];
      assert forall slot :: slot in cache[1..] ==> slot.key != cache[0].key;
    }
  }

  lemma {:induction false} WithoutMembers(cache: Cache, key: Key)
    ensures forall slot :: slot in Without(cache, key) <==> slot in cache && slot.key != key
  {
    if cache != [] {
      WithoutMembers(cache[1..], key);
      assert cache == [cache[0]] + cache[1..];
    }
  }

  lemma {:induction false} WithoutDistinct(cache: Cache, key: Key)
    requires Distinct(cache)
    ensures Distinct(Without(cache, key))
  {
    if cache != [] {
      var rest := Without(cache[1..], key);
      WithoutDistinct(cache[1..], key);
      WithoutMembers(cache[1..], key);
      forall i | 0 <= i < |rest|
        ensures rest[i].key != cache[0].key
      {
        assert rest[i] in rest;
      }
    }
  }

  lemma {:induction false} WithoutAbsent(cache: Cache, key: Key)
    requires forall i :: 0 <= i < |cache| ==> cache[i].key != key
    ensures Without(cache, key) == cache && Lookup(cache, key) == None
  {
    if cache != [] {
      WithoutAbsent(cache[1..], key);
    }
  }

  lemma {:induction false} WithoutSize(cache: Cache, key: Key)
    requires Distinct(cache)
    ensures ReadySize(cache) == ReadySize(Without(cache, key)) + SizeAt(cache, key)
  {
    if cache != [] {
      var rest := Without(cache[1..], key);
      if cache[0].key == key {
        WithoutAbsent(cache[1..], key);
        assert [] + rest == rest;
      } else {
        WithoutSize(cache[1..], key);
        assert ([cache[0]] + rest)[1..] == rest;
      }
    }
  }

  lemma {:induction false} SizeOfConcat(a: Cache, b: Cache)
    ensures ReadySize(a + b) == ReadySize(a) + ReadySize(b)
  {
    if a == [] {
      assert a + b == b;
    } else {
      assert (a + b)[1..] == a[1..] + b;
      SizeOfConcat(a[1..], b);
    }
  }

  lemma PutFacts(cache: Cache, key: Key, result: CacheResult)
    requires Distinct(cache)
    ensures Distinct(Put(cache, key, result))
    ensures forall slot :: slot in Put(cache, key, result) <==>
                             slot == Slot(key, result) || (slot in cache && slot.key != key)
    ensures ReadySize(Put(cache, key, result)) + SizeAt(cache, key) == ReadySize(cache) + SizeOf(result)
  {
    WithoutMembers(cache, key);
    WithoutDistinct(cache, key);
    WithoutSize(cache, key);
    var rest := Without(cache, key);
    SizeOfConcat(rest, [Slot(key, result)]);
    assert forall i :: 0 <= i < |rest| ==> rest[i] in rest;
  }

  lemma TouchFacts(cache: Cache, key: Key)
    requires Distinct(cache)
    ensures Distinct(Touch(cache, key))
    ensures forall slot :: slot in Touch(cache, key) <==> slot in cache
    ensures ReadySize(Touch(cache, key)) == ReadySize(cache)
  {
    if Lookup(cache, key).Some? {
      var r := Lookup(cache, key).value;
      LookupFinds(cache, key, r);
      PutFacts(cache, key, r);
      forall slot | slot in cache && slot.key == key
        ensures slot == Slot(key, r)
      {
        LookupFinds(cache, key, slot.result);
      }
    }
  }

  lemma {:induction false} WithoutConcat(a: Cache, b: Cache, key: Key)
    ensures Without(a + b, key) == Without(a, key) + Without(b, key)
  {
    if a == [] {
      assert a + b == b;
    } else {
      assert (a + b)[1..] == a[1..] + b;
      WithoutConcat(a[1..], b, key);
    }
  }

  lemma MiddleKeyIsAlone(before: Cache, slot: Slot, after: Cache)
    requires Distinct(before + [slot] + after)
    ensures forall i :: 0 <= i < |before| ==> before[i].key != slot.key
    ensures forall i :: 0 <= i < |after| ==> after[i].key != slot.key
  {
    var cache, k := before + [slot] + after, |before|;
    assert cache[k] == slot;
    forall i | 0 <= i < |before|
      ensures before[i].key != slot.key
    {
      assert cache[i] == before[i];
    }
    forall i | 0 <= i < |after|
      ensures after[i].key != slot.key
    {
      assert cache[k + 1 + i] == after[i];
    }
  }

  /** Writing a key moves it behind all the others, which keep their order. */
  lemma PutMovesToBack(before: Cache, slot: Slot, after: Cache, result: CacheResult)
    requires Distinct(before + [slot] + after)
    ensures Put(before + [slot] + after, slot.key, result) == before + after + [Slot(slot.key, result)]
  {
    MiddleKeyIsAlone(before, slot, after);
    WithoutConcat(before + [slot], after, slot.key);
    WithoutConcat(before, [slot], slot.key);
    WithoutAbsent(before, slot.key);
    WithoutAbsent(after, slot.key);
    assert Without([slot], slot.key) == [];
    assert before + [] == before;
  }

  /** A hit moves the slot behind all the others, which keep their order. */
  lemma TouchMovesToBack(before: Cache, slot: Slot, after: Cache)
    requires Distinct(before + [slot] + after)
    ensures Touch(before + [slot] + after, slot.key) == before + after + [slot]
  {
    var cache := before + [slot] + after;
    assert cache[|before|] == slot;
    LookupFinds(cache, slot.key, slot.result);
    PutMovesToBack(before, slot, after, slot.result);
  }

  // ----- Trimming -----

  /** Evicts from the least recently used end; `None` is the panic on an empty cache or a negative size. */
  function Trim(cache: Cache, size: nat, maxSize: nat): Option<(Cache, nat)> {
    if size <= maxSize then Some((cache, size))
    else if cache == [] || SizeOf(cache[0].result) > size then None
    else Trim(cache[1..], size - SizeOf(cache[0].result), maxSize)
  }

  /** How many slots trimming evicts: the fewest that make the rest fit beside the leaked size. */
  function Evictions(cache: Cache, leaked: nat, maxSize: nat): nat {
    if cache == [] || ReadySize(cache) + leaked <= maxSize then 0 else 1 + Evictions(cache[1..], leaked, maxSize)
  }

  /** Trimming panics exactly when sizes that belong to no slot already exceed the limit. */
  lemma {:induction false} TrimPanicsIffLeakTooLarge(cache: Cache, leaked: nat, maxSize: nat)
    ensures Trim(cache, ReadySize(cache) + leaked, maxSize).None? <==> leaked > maxSize
  {
    if cache != [] && ReadySize(cache) + leaked > maxSize {
      TrimPanicsIffLeakTooLarge(cache[1..], leaked, maxSize);
    }
  }

  /**
   Trimming evicts the shortest least-recently-used prefix that makes room, so the survivors are
   the most recently used slots.
   */
  lemma {:induction false} TrimKeepsMostRecent(cache: Cache, leaked: nat, maxSize: nat)
    requires leaked <= maxSize
    ensures var n := Evictions(cache, leaked, maxSize);
            && n <= |cache|
            && Trim(cache, ReadySize(cache) + leaked, maxSize) == Some((cache[n..], ReadySize(cache[n..]) + leaked))
            && ReadySize(cache[n..]) + leaked <= maxSize
  {
    if cache != [] && ReadySize(cache) + leaked > maxSize {
      var rest := cache[1..];
      var m := Evictions(rest, leaked, maxSize);
      TrimKeepsMostRecent(rest, leaked, maxSize);
      assert Trim(cache, ReadySize(cache) + leaked, maxSize) == Trim(rest, ReadySize(rest) + leaked, maxSize);
      assert Evictions(cache, leaked, maxSize) == m + 1 && cache[m + 1..] == rest[m..];
    } else {
      assert Evictions(cache, leaked, maxSize) == 0 && cache[0..] == cache;
    }
  }

  /** No shorter prefix would have made room. */
  lemma {:induction false} TrimEvictsNoMore(cache: Cache, leaked: nat, maxSize: nat, m: nat)
    requires m < Evictions(cache, leaked, maxSize)
    ensures m < |cache| && ReadySize(cache[m..]) + leaked > maxSize
  {
    if m == 0 {
      assert cache[0..] == cache;
    } else {
      TrimEvictsNoMore(cache[1..], leaked, maxSize, m - 1);
      assert cache[1..][m - 1..] == cache[m..];
    }
  }

  // ----- Operations under the lock -----

  /** `None` is a panic: a size below zero, or trimming with nothing left to evict. */
  function Update(inner: Inner, key: Key, outcome: Outcome, now: int): Option<Inner> {
    match outcome
    case Failed => Some(inner.(cache := Without(inner.cache, key)))
    case Built(value, size) =>
      var replaced := SizeAt(inner.cache, key);
      if inner.currentSize + size < replaced then None
      else
        match Trim(Put(inner.cache, key, Ready(value, size, now)), inner.currentSize + size - replaced, inner.maxSize)
        case None => None
        case Some(trimmed) => Some(Inner(trimmed.0, trimmed.1, inner.maxSize))
  }

  /** `None` is the panic on dropping a ready value. */
  function DropWaiting(inner: Inner, key: Key): Option<Inner> {
    match Lookup(inner.cache, key)
    case Some(Ready(_, _, _)) => None
    case _ => Some(inner.(cache := Without(inner.cache, key)))
  }

  /** The size an update makes the counter forget: that of a ready value popped by the error branch. */
  function Leak(inner: Inner, key: Key, outcome: Outcome): nat {
    if outcome.Failed? then SizeAt(inner.cache, key) else 0
  }

  /** The counter is the size of the ready slots plus everything leaked, and within the limit. */
  ghost predicate Balanced(inner: Inner, leaked: nat) {
    Distinct(inner.cache) && inner.currentSize == ReadySize(inner.cache) + leaked && inner.currentSize <= inner.maxSize
  }

  /** No update panics, whatever happened before, and each leaves the ledger balanced. */
  lemma UpdateStaysBalanced(inner: Inner, leaked: nat, key: Key, outcome: Outcome, now: int)
    requires Balanced(inner, leaked)
    ensures Update(inner, key, outcome, now).Some?
    ensures Balanced(Update(inner, key, outcome, now).value, leaked + Leak(inner, key, outcome))
  {
    if outcome.Built? {
      var cache := Put(inner.cache, key, Ready(outcome.value, outcome.size, now));
      PutFacts(inner.cache, key, Ready(outcome.value, outcome.size, now));
      TrimKeepsMostRecent(cache, leaked, inner.maxSize);
    } else {
      WithoutSize(inner.cache, key);
      WithoutDistinct(inner.cache, key);
    }
  }

  /** An update touches its own key and otherwise only evicts. */
  lemma UpdateOnlyEvictsOthers(inner: Inner, leaked: nat, key: Key, outcome: Outcome, now: int, slot: Slot)
    requires Balanced(inner, leaked)
    requires Update(inner, key, outcome, now).Some?
    requires slot in Update(inner, key, outcome, now).value.cache
    ensures (slot in inner.cache && slot.key != key)
            || (outcome.Built? && slot == Slot(key, Ready(outcome.value, outcome.size, now)))
  {
    if outcome.Built? {
      var cache := Put(inner.cache, key, Ready(outcome.value, outcome.size, now));
      PutFacts(inner.cache, key, Ready(outcome.value, outcome.size, now));
      TrimKeepsMostRecent(cache, leaked, inner.maxSize);
      assert slot in cache;
    } else {
      WithoutMembers(inner.cache, key);
    }
  }

  /** Trimming keeps the most recently used slot exactly when it fits beside what has leaked. */
  lemma LastStaysIffItFits(rest: Cache, slot: Slot, leaked: nat, maxSize: nat)
    requires leaked <= maxSize
    ensures var cache := rest + [slot];
            Evictions(cache, leaked, maxSize) <= |rest| <==> SizeOf(slot.result) + leaked <= maxSize
  {
    var cache := rest + [slot];
    var n, m := Evictions(cache, leaked, maxSize), |rest|;
    TrimKeepsMostRecent(cache, leaked, maxSize);
    assert cache[m..] == [slot] && ReadySize([slot]) == SizeOf(slot.result);
    if n <= m {
      assert cache[n..] == rest[n..] + [slot];
      SizeOfConcat(rest[n..], [slot]);
    } else {
      TrimEvictsNoMore(cache, leaked, maxSize, m);
    }
  }

  lemma BuiltIsTrimmed(inner: Inner, leaked: nat, key: Key, value: Value, size: nat, now: int)
    requires Balanced(inner, leaked)
    ensures var cache := Put(inner.cache, key, Ready(value, size, now));
            var n := Evictions(cache, leaked, inner.maxSize);
            && n <= |cache|
            && Update(inner, key, Built(value, size), now).Some?
            && Update(inner, key, Built(value, size), now).value.cache == cache[n..]
  {
    PutFacts(inner.cache, key, Ready(value, size, now));
    TrimKeepsMostRecent(Put(inner.cache, key, Ready(value, size, now)), leaked, inner.maxSize);
  }

  /** A new value stays in the cache exactly when it fits beside what has leaked: leaks shrink the cache for good. */
  lemma NewValueStaysIffItFits(inner: Inner, leaked: nat, key: Key, value: Value, size: nat, now: int)
    requires Balanced(inner, leaked)
    ensures Update(inner, key, Built(value, size), now).Some?
    ensures Slot(key, Ready(value, size, now)) in Update(inner, key, Built(value, size), now).value.cache
            <==> size + leaked <= inner.maxSize
  {
    var slot := Slot(key, Ready(value, size, now));
    var rest := Without(inner.cache, key);
    BuiltIsTrimmed(inner, leaked, key, value, size, now);
    LastStaysIffItFits(rest, slot, leaked, inner.maxSize);
    var n := Evictions(rest + [slot], leaked, inner.maxSize);
    assert n <= |rest| ==> (rest + [slot])[n..][|rest| - n] == slot;
  }

  class CacheState {
    var cache: Cache
    var currentSize: nat
    const maxSize: nat

    function State(): Inner
      reads this
    {
      Inner(cache, currentSize, maxSize)
    }

    constructor (maxSize: nat)
      ensures State() == Inner([], 0, maxSize)
    {
      this.cache := [];
      this.currentSize := 0;
      this.maxSize := maxSize;
    }

    /** Removes and returns what is at the key. */
    method Pop(key: Key) returns (r: Option<CacheResult>)
      modifies `cache
      ensures r == Lookup(old(cache), key) && cache == Without(old(cache), key)
    {
      r := Lookup(cache, key);
      cache := Without(cache, key);
    }

    method TrimToSize() returns (ok: bool)
      modifies this
      ensures ok <==> Trim(old(cache), old(currentSize), maxSize).Some?
      ensures ok ==> (cache, currentSize) == Trim(old(cache), old(currentSize), maxSize).value
    {
      while currentSize > maxSize
        invariant Trim(cache, currentSize, maxSize) == Trim(old(cache), old(currentSize), maxSize)
        decreases |cache|
      {
        if cache == [] {
          return false;
        }
        var evicted := cache[0].result;
        if SizeOf(evicted) > currentSize {
          return false;
        }
        cache := cache[1..];
        currentSize := currentSize - SizeOf(evicted);
      }
      return true;
    }

    method UpdateValue(key: Key, outcome: Outcome, now: int) returns (ok: bool)
      modifies this
      ensures ok <==> Update(old(State()), key, outcome, now).Some?
      ensures ok ==> State() == Update(old(State()), key, outcome, now).value
    {
      match outcome
      case Built(value, size) =>
        currentSize := currentSize + size;
        var previous := Pop(key);
        cache := cache + [Slot(key, Ready(value, size, now))];
        if previous.Some? {
          if SizeOf(previous.value) > currentSize {
            return false;
          }
          currentSize := currentSize - SizeOf(previous.value);
        }
        ok := TrimToSize();
      case Failed =>
        var _ := Pop(key);
        ok := true;
    }

    method DropIfWaiting(key: Key) returns (ok: bool)
      modifies this
      ensures ok <==> DropWaiting(old(State()), key).Some?
      ensures ok ==> State() == DropWaiting(old(State()), key).value
    {
      var value := Pop(key);
      ok := !(value.Some? && value.value.Ready?);
    }
  }
}
