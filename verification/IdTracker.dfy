/** The on-disk table between search index ids and Convex ids. */
module IdTracker {
  import opened Results
  import opened Bytes

  const ID_TABLE_VERSION: byte := 1

  type ConvexId = id: ByteString | |id| == 16 witness seq(16, _ => 0)

  datatype TrackerError = NonContiguous | IndexNotBuilt | TooLarge | WrongVersion | WrongLength | UnexpectedEnd

  datatype Tracker = Tracker(byIndexId: map<nat, ConvexId>, byConvexId: map<ConvexId, nat>)

  // ----- The in-memory tracker -----

  function Insert(t: Tracker, indexId: nat, convexId: ConvexId): Tracker {
    Tracker(t.byIndexId[indexId := convexId], t.byConvexId[convexId := indexId])
  }

  function Get<K, V>(m: map<K, V>, k: K): Option<V> {
    if k in m then Some(m[k]) else None
  }

  /** The two maps are inverse to each other. */
  ghost predicate Inverse(t: Tracker) {
    && (forall i :: i in t.byIndexId ==> Get(t.byConvexId, t.byIndexId[i]) == Some(i))
    && (forall c :: c in t.byConvexId ==> Get(t.byIndexId, t.byConvexId[c]) == Some(c))
  }

  lemma InverseAgrees(t: Tracker, id: ConvexId, indexId: nat)
    requires Inverse(t)
    ensures Get(t.byConvexId, id) == Some(indexId) <==> Get(t.byIndexId, indexId) == Some(id)
  {
  }

  /** Inserting keeps the maps inverse exactly when neither id is already paired with another. */
  lemma InsertInverseIff(t: Tracker, indexId: nat, convexId: ConvexId)
    requires Inverse(t)
    ensures Inverse(Insert(t, indexId, convexId)) <==> CanPair(t, indexId, convexId)
  {
    if CanPair(t, indexId, convexId) {
      PairingStaysInverse(t, indexId, convexId);
    } else {
      RepairingBreaksInverse(t, indexId, convexId);
    }
  }

  /** Neither id is already paired with another. */
  predicate CanPair(t: Tracker, indexId: nat, convexId: ConvexId) {
    && (indexId in t.byIndexId ==> t.byIndexId[indexId] == convexId)
    && (convexId in t.byConvexId ==> t.byConvexId[convexId] == indexId)
  }

  lemma PairingStaysInverse(t: Tracker, indexId: nat, convexId: ConvexId)
    requires Inverse(t) && CanPair(t, indexId, convexId)
    ensures Inverse(Insert(t, indexId, convexId))
  {
  }

  lemma RepairingBreaksInverse(t: Tracker, indexId: nat, convexId: ConvexId)
    requires Inverse(t) && !CanPair(t, indexId, convexId)
    ensures !Inverse(Insert(t, indexId, convexId))
  {
    var t' := Insert(t, indexId, convexId);
    if indexId in t.byIndexId && t.byIndexId[indexId] != convexId {
      var c := t.byIndexId[indexId];
      assert c in t'.byConvexId && Get(t'.byIndexId, t'.byConvexId[c]) != Some(c);
    } else {
      var i := t.byConvexId[convexId];
      assert i in t'.byIndexId && Get(t'.byConvexId, t'.byIndexId[i]) != Some(i);
    }
  }

  /** A pair of ids to insert. */
  datatype Pair = Pair(indexId: nat, convexId: ConvexId)

  function InsertAll(t: Tracker, pairs: seq<Pair>): Tracker
    decreases |pairs|
  {
    if pairs == [] then t else InsertAll(Insert(t, pairs[0].indexId, pairs[0].convexId), pairs[1..])
  }

  ghost predicate DistinctIds(pairs: seq<Pair>) {
    forall i, j :: 0 <= i < j < |pairs| ==>
      pairs[i].indexId != pairs[j].indexId && pairs[i].convexId != pairs[j].convexId
  }

  /** None of the ids is in the tracker yet. */
  ghost predicate New(t: Tracker, pairs: seq<Pair>) {
    forall i :: 0 <= i < |pairs| ==> pairs[i].indexId !in t.byIndexId && pairs[i].convexId !in t.byConvexId
  }

  lemma RestStaysNew(t: Tracker, pairs: seq<Pair>)
    requires pairs != [] && DistinctIds(pairs) && New(t, pairs)
    ensures DistinctIds(pairs[1..]) && New(Insert(t, pairs[0].indexId, pairs[0].convexId), pairs[1..])
  {
  }

  lemma {:induction false} InsertingDistinctIds(t: Tracker, pairs: seq<Pair>)
    requires Inverse(t) && DistinctIds(pairs) && New(t, pairs)
    ensures Inverse(InsertAll(t, pairs))
    ensures |InsertAll(t, pairs).byIndexId| == |t.byIndexId| + |pairs|
    decreases |pairs|
  {
    if pairs != [] {
      assert pairs[0].indexId !in t.byIndexId && pairs[0].convexId !in t.byConvexId;
      InsertInverseIff(t, pairs[0].indexId, pairs[0].convexId);
      RestStaysNew(t, pairs);
      InsertingDistinctIds(Insert(t, pairs[0].indexId, pairs[0].convexId), pairs[1..]);
    }
  }

  /** A tracker built from distinct ids holds exactly the inserted pairs. */
  lemma {:induction false} InsertedPairs(t: Tracker, pairs: seq<Pair>, indexId: nat, id: ConvexId)
    requires DistinctIds(pairs) && New(t, pairs)
    ensures Get(InsertAll(t, pairs).byIndexId, indexId) == Some(id) <==>
            Get(t.byIndexId, indexId) == Some(id) || Pair(indexId, id) in pairs
    decreases |pairs|
  {
    if pairs != [] {
      assert pairs[0].indexId !in t.byIndexId;
      RestStaysNew(t, pairs);
      InsertedPairs(Insert(t, pairs[0].indexId, pairs[0].convexId), pairs[1..], indexId, id);
      assert pairs == [pairs[0]] + pairs[1..];
      assert Pair(indexId, id) in pairs[1..] ==> indexId != pairs[0].indexId;
    }
  }

  /** The last index id is one less than their number. */
  predicate LastIsCountLessOne(m: map<nat, ConvexId>) {
    |m| > 0 ==> |m| - 1 in m && forall i | i in m.Keys :: i <= |m| - 1
  }

  function Below(n: nat): (r: set<nat>)
    ensures |r| == n && forall i: nat :: i in r <==> i < n
  {
    if n == 0 then {} else Below(n - 1) + {n - 1}
  }

  lemma {:induction false} SubsetOfSameSize(a: set<nat>, b: set<nat>)
    requires a <= b && |a| == |b|
    ensures a == b
  {
    if x :| x in a {
      SubsetOfSameSize(a - {x}, b - {x});
    }
  }

  /** That check alone makes the index ids exactly 0, 1, 2, ... */
  lemma LastCheckMeansContiguous(m: map<nat, ConvexId>)
    ensures LastIsCountLessOne(m) <==> forall i: nat :: i in m <==> i < |m|
  {
    if LastIsCountLessOne(m) {
      assert |m.Keys| == |m|;
      SubsetOfSameSize(m.Keys, Below(|m|));
    }
    if forall i: nat :: i in m <==> i < |m| {
      assert |m| > 0 ==> |m| - 1 in m;
    }
  }

  // ----- The perfect hash -----

  function NextPowerOfTwo(n: nat): nat {
    if n <= 1 then 1 else 2 * NextPowerOfTwo((n + 1) / 2)
  }

  function TrailingZeros(x: nat): nat
    requires x > 0
  {
    if x % 2 == 1 then 0 else 1 + TrailingZeros(x / 2)
  }

  lemma {:induction false} NextPowerPositive(n: nat)
    ensures NextPowerOfTwo(n) > 0
  {
    if n > 1 {
      NextPowerPositive((n + 1) / 2);
    }
  }

  /** How many bits the index stores per entry. */
  function IndexIdBits(n: nat): nat {
    NextPowerPositive(n);
    TrailingZeros(NextPowerOfTwo(n))
  }

  /** Those bits hold every index id, and one fewer would not. */
  lemma {:induction false} BitsHoldEveryIndex(n: nat)
    ensures n <= Pow(2, IndexIdBits(n)) == NextPowerOfTwo(n)
    ensures IndexIdBits(n) > 0 ==> Pow(2, IndexIdBits(n) - 1) < n
  {
    if n > 1 {
      var half := (n + 1) / 2;
      BitsHoldEveryIndex(half);
      NextPowerPositive(half);
      assert NextPowerOfTwo(n) / 2 == NextPowerOfTwo(half);
      assert IndexIdBits(n) == IndexIdBits(half) + 1;
    }
  }

  /**
   The index of a built table: built keys get their position, cut to the stored bits; what it
   answers for any other key is arbitrary.
   */
  datatype Index = Index(ids: seq<ConvexId>, bits: nat, noise: ConvexId -> nat) {
    function Lookup(id: ConvexId): nat {
      PowPositive(bits);
      (if id in ids then PositionOf(ids, id) else noise(id)) % Pow(2, bits)
    }
  }

  lemma {:induction false} PowPositive(n: nat)
    ensures Pow(2, n) > 0
  {
    if n > 0 {
      PowPositive(n - 1);
    }
  }

  function PositionOf(ids: seq<ConvexId>, id: ConvexId): (i: nat)
    requires id in ids
    ensures i < |ids| && ids[i] == id
  {
    if ids[0] == id then 0 else 1 + PositionOf(ids[1..], id)
  }

  predicate Distinct(ids: seq<ConvexId>) {
    forall i, j | 0 <= i < j < |ids| :: ids[i] != ids[j]
  }

  // ----- The file -----

  /** A file: its own bytes, then the index section, whose encoding of `indexLen` bytes is left abstract. */
  datatype IdTable = IdTable(bytes: ByteString, index: Index, indexLen: nat)

  function IdBytes(ids: seq<ConvexId>): ByteString {
    if ids == [] then [] else ids[0] + IdBytes(ids[1..])
  }

  function Ids(m: map<nat, ConvexId>): seq<ConvexId>
    requires forall i: nat :: i < |m| ==> i in m
  {
    seq(|m|, i requires 0 <= i < |m| => m[i])
  }

  /** Writes the tracker; `noise` and `indexLen` are what the hash construction happens to produce. */
  function Write(t: Tracker, noise: ConvexId -> nat, indexLen: nat): Result<IdTable, TrackerError> {
    if !LastIsCountLessOne(t.byIndexId) then Failure(NonContiguous)
    else
      LastCheckMeansContiguous(t.byIndexId);
      var ids := Ids(t.byIndexId);
      if !Distinct(ids) then Failure(IndexNotBuilt)
      else if |ids| >= U32_LIMIT || indexLen >= U32_LIMIT then Failure(TooLarge)
      else Success(IdTable(Header(ID_TABLE_VERSION, |ids|, indexLen) + IdBytes(ids), Index(ids, IndexIdBits(|ids|), noise), indexLen))
  }

  datatype StaticTracker = StaticTracker(count: nat, idBuf: ByteString, index: Index)

  function Load(fileLen: nat, table: IdTable): Result<StaticTracker, TrackerError> {
    var bytes := table.bytes;
    if |bytes| < 1 then Failure(UnexpectedEnd)
    else if bytes[0] != ID_TABLE_VERSION then Failure(WrongVersion)
    else if |bytes| < 9 then Failure(UnexpectedEnd)
    else
      var count := FromLittleEndian(bytes[1..5]);
      var indexLen := FromLittleEndian(bytes[5..9]);
      if 1 + 4 + 4 + 16 * count + indexLen != fileLen then Failure(WrongLength)
      else if |bytes| < 9 + 16 * count then Failure(UnexpectedEnd)
      else Success(StaticTracker(count, bytes[9..9 + 16 * count], table.index))
  }

  ghost predicate Loaded(s: StaticTracker) {
    |s.idBuf| == 16 * s.count
  }

  function ConvexIdAt(s: StaticTracker, indexId: nat): Option<ConvexId>
    requires Loaded(s)
  {
    if indexId >= s.count then None else Some(s.idBuf[indexId * 16..(indexId + 1) * 16])
  }

  function LookupId(s: StaticTracker, id: ConvexId): Option<nat>
    requires Loaded(s)
  {
    var indexId := s.index.Lookup(id);
    var found := ConvexIdAt(s, indexId);
    if found != Some(id) then None else Some(indexId % U32_LIMIT)
  }

  // ----- Write, then load -----

  lemma SliceOfRest(head: ByteString, rest: ByteString, lo: nat, hi: nat)
    requires lo <= hi <= |rest|
    ensures (head + rest)[|head| + lo..|head| + hi] == rest[lo..hi]
  {
  }

  lemma {:induction false} IdBytesSlices(ids: seq<ConvexId>, i: nat)
    requires i < |ids|
    ensures |IdBytes(ids)| == 16 * |ids|
    ensures IdBytes(ids)[i * 16..(i + 1) * 16] == ids[i]
  {
    var rest := IdBytes(ids[1..]);
    IdBytesLength(ids);
    IdBytesLength(ids[1..]);
    if i == 0 {
      assert IdBytes(ids)[0..16] == ids[0];
    } else {
      IdBytesSlices(ids[1..], i - 1);
      SliceOfRest(ids[0], rest, (i - 1) * 16, i * 16);
    }
  }

  lemma {:induction false} IdBytesLength(ids: seq<ConvexId>)
    ensures |IdBytes(ids)| == 16 * |ids|
  {
    if ids != [] {
      IdBytesLength(ids[1..]);
    }
  }

  /** What was written loads, with the same count, ids and index. */
  lemma WrittenTableLoads(ids: seq<ConvexId>, index: Index, indexLen: nat)
    requires |ids| < U32_LIMIT && indexLen < U32_LIMIT
    ensures var table := IdTable(Header(ID_TABLE_VERSION, |ids|, indexLen) + IdBytes(ids), index, indexLen);
            Load(|table.bytes| + indexLen, table) == Success(StaticTracker(|ids|, IdBytes(ids), index))
  {
    IdBytesLength(ids);
    HeaderRoundTrip(ID_TABLE_VERSION, |ids|, indexLen, IdBytes(ids));
    var bytes := Header(ID_TABLE_VERSION, |ids|, indexLen) + IdBytes(ids);
    assert bytes[9..9 + 16 * |ids|] == bytes[9..];
  }

  /** A file loads exactly when it is a header and the ids it announces, with the announced length in all. */
  lemma LoadAcceptsExactly(fileLen: nat, table: IdTable, s: StaticTracker)
    ensures Load(fileLen, table) == Success(s) <==>
            && s.index == table.index && s.count < U32_LIMIT && |s.idBuf| == 16 * s.count
            && exists indexLen: nat ::
                 && indexLen < U32_LIMIT && fileLen == 9 + 16 * s.count + indexLen
                 && Header(ID_TABLE_VERSION, s.count, indexLen) + s.idBuf <= table.bytes
  {
    var bytes := table.bytes;
    if Load(fileLen, table) == Success(s) {
      LoadedIsWellFormed(fileLen, table, s);
    }
    forall indexLen: nat | && s.index == table.index && s.count < U32_LIMIT && |s.idBuf| == 16 * s.count
                           && indexLen < U32_LIMIT && fileLen == 9 + 16 * s.count + indexLen
                           && Header(ID_TABLE_VERSION, s.count, indexLen) + s.idBuf <= bytes
      ensures Load(fileLen, table) == Success(s)
    {
      WellFormedLoads(table, s, indexLen);
    }
  }

  lemma LoadedIsWellFormed(fileLen: nat, table: IdTable, s: StaticTracker)
    requires Load(fileLen, table) == Success(s)
    ensures s.index == table.index && s.count < U32_LIMIT && |s.idBuf| == 16 * s.count
    ensures exists indexLen: nat ::
              && indexLen < U32_LIMIT && fileLen == 9 + 16 * s.count + indexLen
              && Header(ID_TABLE_VERSION, s.count, indexLen) + s.idBuf <= table.bytes
  {
    var bytes := table.bytes;
    var indexLen := FromLittleEndian(bytes[5..9]);
    BytesRoundTrip(bytes[1..5]);
    BytesRoundTrip(bytes[5..9]);
    FourBytesLimit();
    var n := 9 + 16 * s.count;
    assert bytes[..n] == [bytes[0]] + bytes[1..5] + bytes[5..9] + bytes[9..n];
    assert Header(ID_TABLE_VERSION, s.count, indexLen) + s.idBuf == bytes[..n];
  }

  lemma WellFormedLoads(table: IdTable, s: StaticTracker, indexLen: nat)
    requires s.index == table.index && s.count < U32_LIMIT && |s.idBuf| == 16 * s.count && indexLen < U32_LIMIT
    requires Header(ID_TABLE_VERSION, s.count, indexLen) + s.idBuf <= table.bytes
    ensures Load(9 + 16 * s.count + indexLen, table) == Success(s)
  {
    var n := 9 + 16 * s.count;
    var rest := s.idBuf + table.bytes[n..];
    HeaderRoundTrip(ID_TABLE_VERSION, s.count, indexLen, rest);
    assert table.bytes == table.bytes[..n] + table.bytes[n..];
    assert table.bytes == Header(ID_TABLE_VERSION, s.count, indexLen) + rest;
    assert table.bytes[9..n] == rest[..16 * s.count] == s.idBuf;
  }

  lemma IndexFindsPosition(ids: seq<ConvexId>, noise: ConvexId -> nat, id: ConvexId)
    requires id in ids
    ensures Index(ids, IndexIdBits(|ids|), noise).Lookup(id) == PositionOf(ids, id)
  {
    BitsHoldEveryIndex(|ids|);
    SmallRemainder(PositionOf(ids, id), Pow(2, IndexIdBits(|ids|)));
  }

  lemma ConvexIdAtIsExact(ids: seq<ConvexId>, index: Index, i: nat)
    ensures var s := StaticTracker(|ids|, IdBytes(ids), index);
            Loaded(s) && ConvexIdAt(s, i) == if i < |ids| then Some(ids[i]) else None
  {
    IdBytesLength(ids);
    if i < |ids| {
      IdBytesSlices(ids, i);
    }
  }

  /** Lookup finds the position of present ids and rejects absent ones, whatever the hash answers for them. */
  lemma LookupIsExact(ids: seq<ConvexId>, noise: ConvexId -> nat, id: ConvexId)
    requires |ids| < U32_LIMIT
    ensures var s := StaticTracker(|ids|, IdBytes(ids), Index(ids, IndexIdBits(|ids|), noise));
            && Loaded(s)
            && LookupId(s, id) == if id in ids then Some(PositionOf(ids, id)) else None
  {
    var index := Index(ids, IndexIdBits(|ids|), noise);
    var i := index.Lookup(id);
    ConvexIdAtIsExact(ids, index, i);
    if id in ids {
      IndexFindsPosition(ids, noise, id);
      SmallRemainder(i, U32_LIMIT);
    }
  }

  lemma SmallRemainder(x: nat, m: nat)
    requires x < m
    ensures x % m == x
  {
  }

  /** Positions among the written ids are the in-memory index ids. */
  lemma PositionsAreIndexIds(t: Tracker, id: ConvexId)
    requires Inverse(t) && forall i: nat :: i in t.byIndexId <==> i < |t.byIndexId|
    ensures var ids := Ids(t.byIndexId);
            Get(t.byConvexId, id) == if id in ids then Some(PositionOf(ids, id)) else None
  {
    var ids := Ids(t.byIndexId);
    if id in ids {
      InverseAgrees(t, id, PositionOf(ids, id));
    }
    if id in t.byConvexId {
      assert ids[t.byConvexId[id]] == id;
    }
  }

  /** The tracker can be written, and loading the file gives `s`. */
  ghost predicate Reloads(t: Tracker, noise: ConvexId -> nat, indexLen: nat, s: StaticTracker) {
    && Write(t, noise, indexLen).Success?
    && var table := Write(t, noise, indexLen).value;
       Load(|table.bytes| + table.indexLen, table) == Success(s)
  }

  lemma ReloadedTracker(t: Tracker, noise: ConvexId -> nat, indexLen: nat)
    requires Write(t, noise, indexLen).Success?
    ensures forall i: nat :: i in t.byIndexId <==> i < |t.byIndexId|
    ensures var ids := Ids(t.byIndexId);
            && |ids| < U32_LIMIT
            && Reloads(t, noise, indexLen, StaticTracker(|ids|, IdBytes(ids), Index(ids, IndexIdBits(|ids|), noise)))
  {
    LastCheckMeansContiguous(t.byIndexId);
    var ids := Ids(t.byIndexId);
    WrittenTableLoads(ids, Index(ids, IndexIdBits(|ids|), noise), indexLen);
  }

  /**
   Writing a tracker whose maps are inverse and loading the file gives a static tracker that agrees
   with the in-memory maps on every id in both directions, present or absent.
   */
  lemma TrackerRoundTrip(t: Tracker, noise: ConvexId -> nat, indexLen: nat) returns (s: StaticTracker)
    requires Inverse(t) && Write(t, noise, indexLen).Success?
    ensures Reloads(t, noise, indexLen, s) && Loaded(s) && s.count == |t.byIndexId|
    ensures forall id: ConvexId :: LookupId(s, id) == Get(t.byConvexId, id)
    ensures forall indexId: nat :: ConvexIdAt(s, indexId) == Get(t.byIndexId, indexId)
  {
    ReloadedTracker(t, noise, indexLen);
    var ids := Ids(t.byIndexId);
    var index := Index(ids, IndexIdBits(|ids|), noise);
    s := StaticTracker(|ids|, IdBytes(ids), index);
    IdBytesLength(ids);
    forall id: ConvexId
      ensures LookupId(s, id) == Get(t.byConvexId, id)
    {
      LookupIsExact(ids, noise, id);
      PositionsAreIndexIds(t, id);
    }
    forall indexId: nat
      ensures ConvexIdAt(s, indexId) == Get(t.byIndexId, indexId)
    {
      ConvexIdAtIsExact(ids, index, indexId);
    }
  }

  /** A written table starts with the version byte 1 and two little-endian lengths, then the ids in index order. */
  lemma TableLayout(t: Tracker, noise: ConvexId -> nat, indexLen: nat, i: nat)
    requires Write(t, noise, indexLen).Success? && i in t.byIndexId
    ensures var bytes := Write(t, noise, indexLen).value.bytes;
            && |bytes| == 9 + 16 * |t.byIndexId|
            && bytes[..9] == [1] + LittleEndian(|t.byIndexId|, 4) + LittleEndian(indexLen, 4)
            && i < |t.byIndexId| && bytes[9 + i * 16..9 + (i + 1) * 16] == t.byIndexId[i]
  {
    LastCheckMeansContiguous(t.byIndexId);
    var ids := Ids(t.byIndexId);
    IdBytesSlices(ids, i);
    SliceOfRest(Header(ID_TABLE_VERSION, |ids|, indexLen), IdBytes(ids), i * 16, (i + 1) * 16);
  }

  /** A tracker is written exactly when its index ids have no gap, no two share a Convex id and the sizes fit. */
  lemma WriteSucceedsIff(t: Tracker, noise: ConvexId -> nat, indexLen: nat)
    ensures Write(t, noise, indexLen).Success? <==>
            && (forall i: nat :: i in t.byIndexId <==> i < |t.byIndexId|)
            && (forall i, j :: i in t.byIndexId && j in t.byIndexId && t.byIndexId[i] == t.byIndexId[j] ==> i == j)
            && |t.byIndexId| < U32_LIMIT && indexLen < U32_LIMIT
  {
    var m := t.byIndexId;
    LastCheckMeansContiguous(m);
    if LastIsCountLessOne(m) {
      var ids := Ids(m);
      assert forall i :: 0 <= i < |ids| ==> ids[i] == m[i];
      if Distinct(ids) {
        forall i, j | i in m && j in m && m[i] == m[j]
          ensures i == j
        {
          assert ids[i] == ids[j];
        }
      }
    }
  }

  /** A tracker with inverse maps is refused only for gaps in its index ids or for size. */
  lemma WriteFailsOnlyForGapsOrSize(t: Tracker, noise: ConvexId -> nat, indexLen: nat)
    requires Inverse(t)
    ensures Write(t, noise, indexLen).Success? <==>
            && (forall i: nat :: i in t.byIndexId <==> i < |t.byIndexId|)
            && |t.byIndexId| < U32_LIMIT && indexLen < U32_LIMIT
  {
    LastCheckMeansContiguous(t.byIndexId);
    if LastIsCountLessOne(t.byIndexId) {
      var ids := Ids(t.byIndexId);
      forall i, j | 0 <= i < j < |ids|
        ensures ids[i] != ids[j]
      {
        assert Get(t.byConvexId, t.byIndexId[i]) == Some(i) && Get(t.byConvexId, t.byIndexId[j]) == Some(j);
      }
    }
  }

  /**
   A tracker built from pairs with distinct ids on both sides, written and loaded, finds exactly those
   pairs in both directions.
   */
  lemma BuiltTrackerRoundTrip(pairs: seq<Pair>, noise: ConvexId -> nat, indexLen: nat) returns (s: StaticTracker)
    requires DistinctIds(pairs)
    requires Write(InsertAll(Tracker(map[], map[]), pairs), noise, indexLen).Success?
    ensures Reloads(InsertAll(Tracker(map[], map[]), pairs), noise, indexLen, s) && Loaded(s) && s.count == |pairs|
    ensures forall id: ConvexId, indexId: nat :: LookupId(s, id) == Some(indexId) <==> Pair(indexId, id) in pairs
    ensures forall id: ConvexId, indexId: nat :: ConvexIdAt(s, indexId) == Some(id) <==> Pair(indexId, id) in pairs
  {
    var t := InsertAll(Tracker(map[], map[]), pairs);
    InsertingDistinctIds(Tracker(map[], map[]), pairs);
    s := TrackerRoundTrip(t, noise, indexLen);
    forall id: ConvexId, indexId: nat
      ensures Get(t.byConvexId, id) == Some(indexId) <==> Pair(indexId, id) in pairs
      ensures Get(t.byIndexId, indexId) == Some(id) <==> Pair(indexId, id) in pairs
    {
      InsertedPairs(Tracker(map[], map[]), pairs, indexId, id);
      InverseAgrees(t, id, indexId);
    }
  }

  // ----- The tracker object -----

  class MemoryIdTracker {
    var byIndexId: map<nat, ConvexId>
    var byConvexId: map<ConvexId, nat>

    function State(): Tracker
      reads this
    {
      Tracker(byIndexId, byConvexId)
    }

    constructor ()
      ensures State() == Tracker(map[], map[]) && Inverse(State())
    {
      byIndexId := map[];
      byConvexId := map[];
    }

    method InsertPair(indexId: nat, convexId: ConvexId)
      modifies this
      ensures State() == Insert(old(State()), indexId, convexId)
    {
      byIndexId := byIndexId[indexId := convexId];
      byConvexId := byConvexId[convexId := indexId];
    }

    /** The bytes of the table before its index section. */
    method WriteIds() returns (out: ByteString)
      requires forall i: nat :: i < |byIndexId| ==> i in byIndexId
      ensures out == IdBytes(Ids(byIndexId))
    {
      out := [];
      ghost var ids := Ids(byIndexId);
      var i := 0;
      while i < |byIndexId|
        invariant 0 <= i <= |byIndexId|
        invariant out + IdBytes(ids[i..]) == IdBytes(ids)
      {
        assert ids[i..][1..] == ids[i + 1..];
        assert out + (ids[i] + IdBytes(ids[i + 1..])) == out + ids[i] + IdBytes(ids[i + 1..]);
        out := out + byIndexId[i];
        i := i + 1;
      }
      assert out + [] == out;
    }

    method WriteIdTracker(noise: ConvexId -> nat, indexLen: nat) returns (r: Result<IdTable, TrackerError>)
      ensures r == Write(State(), noise, indexLen)
    {
      if !LastIsCountLessOne(byIndexId) {
        return Failure(NonContiguous);
      }
      LastCheckMeansContiguous(byIndexId);
      var ids := Ids(byIndexId);
      if !Distinct(ids) {
        return Failure(IndexNotBuilt);
      }
      if |ids| >= U32_LIMIT || indexLen >= U32_LIMIT {
        return Failure(TooLarge);
      }
      var body := WriteIds();
      return Success(IdTable(Header(ID_TABLE_VERSION, |ids|, indexLen) + body, Index(ids, IndexIdBits(|ids|), noise), indexLen));
    }
  }
}
