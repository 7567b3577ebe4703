/** Retention of multi-version index rows: which rows a sweep drops and why no retained read notices. */
module IndexRetention {
  import opened Results
  import opened Bytes

  /** Rows are compared field by field in declaration order; the first four fields are the primary key. */
  datatype IndexEntry = IndexEntry(
    indexId: ByteString,
    keyPrefix: ByteString,
    keySha256: ByteString,
    ts: nat,
    keySuffix: Option<ByteString>,
    deleted: bool)

  datatype RetentionError = OutOfOrder

  predicate PrimaryLess(a: IndexEntry, b: IndexEntry) {
    || LexLess(a.indexId, b.indexId)
    || (a.indexId == b.indexId &&
        (|| LexLess(a.keyPrefix, b.keyPrefix)
         || (a.keyPrefix == b.keyPrefix &&
             (|| LexLess(a.keySha256, b.keySha256)
              || (a.keySha256 == b.keySha256 && a.ts < b.ts)))))
  }

  predicate SamePrimary(a: IndexEntry, b: IndexEntry) {
    a.indexId == b.indexId && a.keyPrefix == b.keyPrefix && a.keySha256 == b.keySha256 && a.ts == b.ts
  }

  predicate SuffixLess(a: Option<ByteString>, b: Option<ByteString>) {
    b.Some? && (a.None? || LexLess(a.value, b.value))
  }

  /** The derived total order. */
  predicate Less(a: IndexEntry, b: IndexEntry) {
    || PrimaryLess(a, b)
    || (SamePrimary(a, b) &&
        (|| SuffixLess(a.keySuffix, b.keySuffix)
         || (a.keySuffix == b.keySuffix && !a.deleted && b.deleted)))
  }

  /** Judges one row from itself, its successor and the oldest retained snapshot. */
  function IsExpired(row: IndexEntry, minSnapshot: nat, next: Option<IndexEntry>): Result<bool, RetentionError> {
    if next.Some? && !Less(row, next.value) then Failure(OutOfOrder)
    else if row.ts >= minSnapshot then Success(false)
    else if row.deleted then Success(true)
    else match next
      case None => Success(false)
      case Some(n) => Success(SameKey(row, n) && n.ts <= minSnapshot)
  }

  /** The test for "another revision of this key": index and hash only, neither prefix nor suffix. */
  predicate SameKey(a: IndexEntry, b: IndexEntry) {
    a.indexId == b.indexId && a.keySha256 == b.keySha256
  }

  // ----- Logs and reads -----

  ghost predicate Sorted(log: seq<IndexEntry>) {
    forall i, j {:trigger PrimaryLess(log[i], log[j])} :: 0 <= i < j < |log| ==> PrimaryLess(log[i], log[j])
  }

  predicate HashesAgree(a: IndexEntry, b: IndexEntry) {
    a.keySha256 == b.keySha256 ==> a.keyPrefix == b.keyPrefix && a.keySuffix == b.keySuffix
  }

  ghost predicate HashDeterminesKey(log: seq<IndexEntry>) {
    forall i, j {:trigger HashesAgree(log[i], log[j])} :: 0 <= i < j < |log| ==> HashesAgree(log[i], log[j])
  }

  ghost predicate Valid(log: seq<IndexEntry>) {
    Sorted(log) && HashDeterminesKey(log)
  }

  datatype Key = Key(indexId: ByteString, sha256: ByteString)

  function KeyOf(row: IndexEntry): Key {
    Key(row.indexId, row.keySha256)
  }

  predicate VisibleAt(row: IndexEntry, key: Key, snapshot: nat) {
    KeyOf(row) == key && row.ts <= snapshot
  }

  /** The rows left after dropping the given positions. */
  function Survivors(log: seq<IndexEntry>, dropped: set<nat>): seq<IndexEntry> {
    if log == [] then []
    else
      var n := |log| - 1;
      Survivors(log[..n], dropped) + (if n in dropped then [] else [log[n]])
  }

  /** A read of `key` at `snapshot`: the latest revision not newer than it, nothing if that is a tombstone. */
  function Read(log: seq<IndexEntry>, key: Key, snapshot: nat): Option<IndexEntry> {
    if log == [] then None
    else
      var last := log[|log| - 1];
      if VisibleAt(last, key, snapshot) then (if last.deleted then None else Some(last))
      else Read(log[..|log| - 1], key, snapshot)
  }

  function Next(log: seq<IndexEntry>, i: nat): Option<IndexEntry>
    requires i < |log|
  {
    if i + 1 < |log| then Some(log[i + 1]) else None
  }

  predicate Marked(log: seq<IndexEntry>, minSnapshot: nat, i: nat)
    requires i < |log|
  {
    IsExpired(log[i], minSnapshot, Next(log, i)) == Success(true)
  }

  /** The positions a sweep marks, each judged against its successor in the original log. */
  function Expired(log: seq<IndexEntry>, minSnapshot: nat): set<nat> {
    set i: nat | i < |log| && Marked(log, minSnapshot, i)
  }

  function Collect(log: seq<IndexEntry>, minSnapshot: nat): seq<IndexEntry> {
    Survivors(log, Expired(log, minSnapshot))
  }

  // ----- The order of a valid log -----

  /** A sweep over a sorted log never meets the out-of-order error, and every adjacent inversion triggers it. */
  lemma SweepFailsExactlyOnInversion(log: seq<IndexEntry>, minSnapshot: nat, i: nat)
    requires i < |log|
    ensures Sorted(log) ==> IsExpired(log[i], minSnapshot, Next(log, i)).Success?
    ensures i + 1 < |log| && PrimaryLess(log[i + 1], log[i]) ==>
              IsExpired(log[i], minSnapshot, Next(log, i)) == Failure(OutOfOrder)
  {
    if i + 1 < |log| {
      var a, b := log[i], log[i + 1];
      assert Sorted(log) ==> PrimaryLess(a, b);
      LexAsymmetric(a.indexId, b.indexId);
      LexAsymmetric(a.keyPrefix, b.keyPrefix);
      LexAsymmetric(a.keySha256, b.keySha256);
    }
  }

  /** Revisions of one key sit next to each other, oldest first. */
  lemma RevisionsAreAdjacent(log: seq<IndexEntry>, i: nat, j: nat, k: nat)
    requires Valid(log)
    requires i <= j <= k < |log| && SameKey(log[i], log[k])
    ensures SameKey(log[i], log[j])
    ensures i < j ==> log[i].ts < log[j].ts
    ensures j < k ==> log[j].ts < log[k].ts
  {
    var a, b, c := log[i], log[j], log[k];
    assert i < k ==> HashesAgree(a, c);
    assert i < j ==> PrimaryLess(a, b);
    assert j < k ==> PrimaryLess(b, c);
    LexAsymmetric(a.indexId, b.indexId);
    LexAsymmetric(a.keyPrefix, b.keyPrefix);
    LexAsymmetric(a.keySha256, b.keySha256);
    LexAsymmetric(a.indexId, a.indexId);
    LexAsymmetric(a.keyPrefix, a.keyPrefix);
    LexAsymmetric(a.keySha256, a.keySha256);
  }

  // ----- Reads by position -----

  /** The last surviving position visible to the read, -1 if there is none. */
  function Latest(log: seq<IndexEntry>, dropped: set<nat>, key: Key, snapshot: nat): (r: int)
    ensures -1 <= r < |log|
    ensures r >= 0 ==> r !in dropped && VisibleAt(log[r], key, snapshot)
    ensures forall i :: r < i < |log| && VisibleAt(log[i], key, snapshot) ==> i in dropped
  {
    if log == [] then -1
    else
      var n := |log| - 1;
      if n !in dropped && VisibleAt(log[n], key, snapshot) then n
      else Latest(log[..n], dropped, key, snapshot)
  }

  function RowAt(log: seq<IndexEntry>, i: int): Option<IndexEntry>
    requires -1 <= i < |log|
  {
    if i == -1 || log[i].deleted then None else Some(log[i])
  }

  lemma {:induction false} ReadOfSurvivors(log: seq<IndexEntry>, dropped: set<nat>, key: Key, snapshot: nat)
    ensures Read(Survivors(log, dropped), key, snapshot) == RowAt(log, Latest(log, dropped, key, snapshot))
  {
    if log != [] {
      var n := |log| - 1;
      var init := Survivors(log[..n], dropped);
      ReadOfSurvivors(log[..n], dropped, key, snapshot);
      if n in dropped {
        assert init + [] == init;
      } else {
        ReadOfLast(init, log[n], key, snapshot);
      }
    }
  }

  lemma ReadOfLast(init: seq<IndexEntry>, row: IndexEntry, key: Key, snapshot: nat)
    ensures Read(init + [row], key, snapshot) ==
            if !VisibleAt(row, key, snapshot) then Read(init, key, snapshot)
            else if row.deleted then None
            else Some(row)
  {
    assert (init + [row])[..|init|] == init;
  }

  lemma {:induction false} NothingDropped(log: seq<IndexEntry>)
    ensures Survivors(log, {}) == log
  {
    if log != [] {
      NothingDropped(log[..|log| - 1]);
    }
  }

  /** `Read` finds the live row with the greatest admissible timestamp of its key, if and only if there is one. */
  lemma ReadIsLatestLiveRevision(log: seq<IndexEntry>, key: Key, snapshot: nat, i: nat)
    requires Valid(log) && i < |log|
    ensures Read(log, key, snapshot) == Some(log[i]) <==>
            && VisibleAt(log[i], key, snapshot)
            && !log[i].deleted
            && forall j :: 0 <= j < |log| && VisibleAt(log[j], key, snapshot) ==> log[j].ts <= log[i].ts
  {
    NothingDropped(log);
    ReadOfSurvivors(log, {}, key, snapshot);
    var r := Latest(log, {}, key, snapshot);
    if r >= 0 {
      forall j | 0 <= j < r && VisibleAt(log[j], key, snapshot)
        ensures log[j].ts < log[r].ts
      {
        RevisionsAreAdjacent(log, j, j, r);
      }
    }
  }

  // ----- Which deletions are invisible -----

  ghost predicate ReadsPreserved(log: seq<IndexEntry>, dropped: set<nat>, minSnapshot: nat) {
    forall key: Key, snapshot: nat :: snapshot >= minSnapshot ==>
      Read(Survivors(log, dropped), key, snapshot) == Read(log, key, snapshot)
  }

  /** Row `j` is what a read at the oldest retained snapshot finds for its key. */
  predicate NewestAtMin(log: seq<IndexEntry>, minSnapshot: nat, j: nat)
    requires j < |log|
  {
    j + 1 == |log| || !SameKey(log[j], log[j + 1]) || log[j + 1].ts > minSnapshot
  }

  /** Below every dropped deciding tombstone, each surviving live row is still covered by a surviving tombstone. */
  ghost predicate TombstonesCover(log: seq<IndexEntry>, dropped: set<nat>, minSnapshot: nat) {
    forall i: nat, j: nat {:trigger log[i], log[j]} ::
      && i < j < |log| && SameKey(log[i], log[j])
      && j in dropped && log[j].deleted && NewestAtMin(log, minSnapshot, j)
      && i !in dropped && !log[i].deleted
      ==> exists k: nat :: i < k < j && k !in dropped && log[k].deleted
  }

  /** The expiry test on a sorted log, without the order check. */
  predicate Superseded(log: seq<IndexEntry>, minSnapshot: nat, i: nat)
    requires i < |log|
  {
    log[i].ts < minSnapshot && (log[i].deleted || !NewestAtMin(log, minSnapshot, i))
  }

  lemma LatestKeptStaysLatest(log: seq<IndexEntry>, dropped: set<nat>, key: Key, snapshot: nat)
    requires var j := Latest(log, {}, key, snapshot); j == -1 || j !in dropped
    ensures Latest(log, dropped, key, snapshot) == Latest(log, {}, key, snapshot)
  {
  }

  /** A superseded row that a retained read finds can only be the deciding tombstone of its key. */
  lemma DroppedLatestIsTombstone(log: seq<IndexEntry>, minSnapshot: nat, key: Key, snapshot: nat)
    requires snapshot >= minSnapshot
    requires var j := Latest(log, {}, key, snapshot); j >= 0 && Superseded(log, minSnapshot, j)
    ensures var j := Latest(log, {}, key, snapshot); log[j].deleted && NewestAtMin(log, minSnapshot, j)
  {
    var j := Latest(log, {}, key, snapshot);
    if j + 1 < |log| {
      assert !VisibleAt(log[j + 1], key, snapshot);
    }
  }

  /** Under a covering deletion the read falls back on a tombstone or on nothing. */
  lemma CoveredFallsOnTombstone(log: seq<IndexEntry>, dropped: set<nat>, minSnapshot: nat, key: Key, snapshot: nat, j: nat)
    requires Valid(log) && TombstonesCover(log, dropped, minSnapshot)
    requires j < |log| && j in dropped && VisibleAt(log[j], key, snapshot)
    requires log[j].deleted && NewestAtMin(log, minSnapshot, j)
    requires forall k :: j < k < |log| ==> !VisibleAt(log[k], key, snapshot)
    ensures RowAt(log, Latest(log, dropped, key, snapshot)) == None
  {
    var i := Latest(log, dropped, key, snapshot);
    if i >= 0 {
      assert i < j && SameKey(log[i], log[j]);
      forall k | i < k < j
        ensures k in dropped
      {
        RevisionsAreAdjacent(log, i, k, j);
        assert VisibleAt(log[k], key, snapshot);
      }
    }
  }

  lemma CoveredDeletionIsInvisible(log: seq<IndexEntry>, dropped: set<nat>, minSnapshot: nat, key: Key, snapshot: nat)
    requires Valid(log) && TombstonesCover(log, dropped, minSnapshot)
    requires forall i :: i in dropped ==> i < |log| && Superseded(log, minSnapshot, i)
    requires snapshot >= minSnapshot
    ensures Read(Survivors(log, dropped), key, snapshot) == Read(log, key, snapshot)
  {
    NothingDropped(log);
    ReadOfSurvivors(log, {}, key, snapshot);
    ReadOfSurvivors(log, dropped, key, snapshot);
    var j := Latest(log, {}, key, snapshot);
    if j >= 0 && j in dropped {
      DroppedLatestIsTombstone(log, minSnapshot, key, snapshot);
      CoveredFallsOnTombstone(log, dropped, minSnapshot, key, snapshot, j);
    } else {
      LatestKeptStaysLatest(log, dropped, key, snapshot);
    }
  }

  lemma LatestIs(log: seq<IndexEntry>, dropped: set<nat>, key: Key, snapshot: nat, j: nat)
    requires j < |log| && j !in dropped && VisibleAt(log[j], key, snapshot)
    requires forall k: nat :: j < k < |log| && VisibleAt(log[k], key, snapshot) ==> k in dropped
    ensures Latest(log, dropped, key, snapshot) == j
  {
  }

  lemma NewerRevisionsInvisible(log: seq<IndexEntry>, minSnapshot: nat, j: nat, k: nat)
    requires Valid(log) && j < k < |log| && NewestAtMin(log, minSnapshot, j)
    ensures !VisibleAt(log[k], KeyOf(log[j]), minSnapshot)
  {
    if SameKey(log[j], log[k]) {
      RevisionsAreAdjacent(log, j, j + 1, k);
    }
  }

  /** A deciding tombstone hides its key at the start of the window. */
  lemma TombstoneHides(log: seq<IndexEntry>, minSnapshot: nat, j: nat)
    requires Valid(log) && j < |log| && log[j].ts < minSnapshot && log[j].deleted && NewestAtMin(log, minSnapshot, j)
    ensures Read(log, KeyOf(log[j]), minSnapshot) == None
    ensures forall k: nat :: j < k < |log| ==> !VisibleAt(log[k], KeyOf(log[j]), minSnapshot)
  {
    var key := KeyOf(log[j]);
    forall k: nat | j < k < |log|
      ensures !VisibleAt(log[k], key, minSnapshot)
    {
      NewerRevisionsInvisible(log, minSnapshot, j, k);
    }
    NothingDropped(log);
    ReadOfSurvivors(log, {}, key, minSnapshot);
    LatestIs(log, {}, key, minSnapshot, j);
  }

  /** Without it, the live rows below show through. */
  lemma UncoveredShowsThrough(log: seq<IndexEntry>, dropped: set<nat>, key: Key, snapshot: nat, i: nat, j: nat)
    requires i < j < |log| && i !in dropped && j in dropped && VisibleAt(log[i], key, snapshot)
    requires forall k: nat :: j < k < |log| ==> !VisibleAt(log[k], key, snapshot)
    requires forall k: nat :: i <= k < j && k !in dropped ==> !log[k].deleted
    ensures Read(Survivors(log, dropped), key, snapshot).Some?
  {
    ReadOfSurvivors(log, dropped, key, snapshot);
    assert i <= Latest(log, dropped, key, snapshot) < j;
  }

  lemma UncoveredDeletionResurrects(log: seq<IndexEntry>, dropped: set<nat>, minSnapshot: nat, i: nat, j: nat)
    requires Valid(log)
    requires i < j < |log| && SameKey(log[i], log[j]) && log[j].ts < minSnapshot
    requires j in dropped && log[j].deleted && NewestAtMin(log, minSnapshot, j)
    requires i !in dropped && !log[i].deleted
    requires forall k: nat :: i < k < j && k !in dropped ==> !log[k].deleted
    ensures Read(log, KeyOf(log[j]), minSnapshot) == None
    ensures Read(Survivors(log, dropped), KeyOf(log[j]), minSnapshot).Some?
  {
    RevisionsAreAdjacent(log, i, i, j);
    TombstoneHides(log, minSnapshot, j);
    UncoveredShowsThrough(log, dropped, KeyOf(log[j]), minSnapshot, i, j);
  }

  /**
   Any set of marked rows may be deleted without a retained read noticing exactly when the
   tombstones in it still cover the older rows left behind.
   */
  lemma DeletionInvisibleIffCovered(log: seq<IndexEntry>, dropped: set<nat>, minSnapshot: nat)
    requires Valid(log) && dropped <= Expired(log, minSnapshot)
    ensures ReadsPreserved(log, dropped, minSnapshot) <==> TombstonesCover(log, dropped, minSnapshot)
  {
    forall i | i in dropped
      ensures i < |log| && Superseded(log, minSnapshot, i)
    {
      assert Marked(log, minSnapshot, i);
    }
    if TombstonesCover(log, dropped, minSnapshot) {
      forall key: Key, snapshot: nat | snapshot >= minSnapshot
        ensures Read(Survivors(log, dropped), key, snapshot) == Read(log, key, snapshot)
      {
        CoveredDeletionIsInvisible(log, dropped, minSnapshot, key, snapshot);
      }
    } else {
      var i: nat, j: nat :| i < j < |log| && SameKey(log[i], log[j])
        && j in dropped && log[j].deleted && NewestAtMin(log, minSnapshot, j)
        && i !in dropped && !log[i].deleted
        && !exists k: nat :: i < k < j && k !in dropped && log[k].deleted;
      UncoveredDeletionResurrects(log, dropped, minSnapshot, i, j);
    }
  }

  // ----- The sweep -----

  function ExpiredBefore(log: seq<IndexEntry>, minSnapshot: nat, done: nat): set<nat> {
    set i | i in Expired(log, minSnapshot) && i < done
  }

  /** Stopping the sweep after any number of rows, in primary-key order, leaves every retained read unchanged. */
  lemma InterruptedSweepIsInvisible(log: seq<IndexEntry>, minSnapshot: nat, done: nat)
    requires Valid(log) && done <= |log|
    ensures ReadsPreserved(log, ExpiredBefore(log, minSnapshot, done), minSnapshot)
  {
    var dropped := ExpiredBefore(log, minSnapshot, done);
    forall i: nat, j: nat | i < j < |log| && SameKey(log[i], log[j]) && j in dropped && !log[i].deleted
      ensures i in dropped
    {
      RevisionsAreAdjacent(log, i, i + 1, j);
      SweepFailsExactlyOnInversion(log, minSnapshot, i);
      assert Marked(log, minSnapshot, j) && Marked(log, minSnapshot, i);
    }
    DeletionInvisibleIffCovered(log, dropped, minSnapshot);
  }

  /** A whole sweep changes no read at a retained snapshot. */
  lemma RetentionIsInvisible(log: seq<IndexEntry>, minSnapshot: nat, key: Key, snapshot: nat)
    requires Valid(log) && snapshot >= minSnapshot
    ensures Read(Collect(log, minSnapshot), key, snapshot) == Read(log, key, snapshot)
  {
    InterruptedSweepIsInvisible(log, minSnapshot, |log|);
    assert ExpiredBefore(log, minSnapshot, |log|) == Expired(log, minSnapshot);
  }

  /** What a sweep is for: rows inside the window, plus the one live row per key that the window starts from. */
  predicate Needed(log: seq<IndexEntry>, minSnapshot: nat, row: IndexEntry) {
    row.ts >= minSnapshot || Read(log, KeyOf(row), minSnapshot) == Some(row)
  }

  function NeededRows(rows: seq<IndexEntry>, log: seq<IndexEntry>, minSnapshot: nat): seq<IndexEntry> {
    if rows == [] then []
    else
      var n := |rows| - 1;
      NeededRows(rows[..n], log, minSnapshot) + (if Needed(log, minSnapshot, rows[n]) then [rows[n]] else [])
  }

  /** The local test on a row and its successor decides the global question whether the row is needed. */
  lemma MarkedIffNotNeeded(log: seq<IndexEntry>, minSnapshot: nat, i: nat)
    requires Valid(log) && i < |log|
    ensures Marked(log, minSnapshot, i) <==> !Needed(log, minSnapshot, log[i])
  {
    var row := log[i];
    var key := KeyOf(row);
    SweepFailsExactlyOnInversion(log, minSnapshot, i);
    ReadIsLatestLiveRevision(log, key, minSnapshot, i);
    if row.ts < minSnapshot && !row.deleted {
      if i + 1 < |log| && SameKey(row, log[i + 1]) && log[i + 1].ts <= minSnapshot {
        RevisionsAreAdjacent(log, i, i + 1, i + 1);
        assert VisibleAt(log[i + 1], key, minSnapshot);
      } else {
        forall j | 0 <= j < |log| && VisibleAt(log[j], key, minSnapshot)
          ensures log[j].ts <= row.ts
        {
          if j < i {
            RevisionsAreAdjacent(log, j, j, i);
          } else if i < j {
            RevisionsAreAdjacent(log, i, i + 1, j);
          }
        }
      }
    }
  }

  lemma {:induction false} SurvivorsAreNeededRows(log: seq<IndexEntry>, minSnapshot: nat, n: nat)
    requires Valid(log) && n <= |log|
    ensures Survivors(log[..n], Expired(log, minSnapshot)) == NeededRows(log[..n], log, minSnapshot)
  {
    if n > 0 {
      SurvivorsAreNeededRows(log, minSnapshot, n - 1);
      MarkedIffNotNeeded(log, minSnapshot, n - 1);
      assert log[..n][..n - 1] == log[..n - 1];
    }
  }

  /** A sweep keeps exactly the needed rows, in their order. */
  lemma CollectKeepsExactlyNeeded(log: seq<IndexEntry>, minSnapshot: nat)
    requires Valid(log)
    ensures Collect(log, minSnapshot) == NeededRows(log, log, minSnapshot)
  {
    SurvivorsAreNeededRows(log, minSnapshot, |log|);
    assert log[..|log|] == log;
  }

  lemma {:induction false} SurvivorsStayValid(log: seq<IndexEntry>, dropped: set<nat>)
    requires Valid(log)
    ensures Valid(Survivors(log, dropped))
    ensures forall r :: r in Survivors(log, dropped) <==> exists i :: 0 <= i < |log| && i !in dropped && log[i] == r
  {
    if log != [] {
      var n := |log| - 1;
      forall i, j | 0 <= i < j < n
        ensures PrimaryLess(log[..n][i], log[..n][j]) && HashesAgree(log[..n][i], log[..n][j])
      {
        assert PrimaryLess(log[i], log[j]) && HashesAgree(log[i], log[j]);
      }
      SurvivorsStayValid(log[..n], dropped);
      var init := Survivors(log[..n], dropped);
      forall i | 0 <= i < |init|
        ensures PrimaryLess(init[i], log[n]) && HashesAgree(init[i], log[n])
      {
        assert init[i] in init;
        var j :| 0 <= j < n && log[j] == init[i];
        assert PrimaryLess(log[j], log[n]) && HashesAgree(log[j], log[n]);
      }
    }
  }

  lemma {:induction false} NeededAmongSurvivors(
    log: seq<IndexEntry>, dropped: set<nat>, swept: seq<IndexEntry>, minSnapshot: nat, n: nat)
    requires n <= |log|
    requires forall key :: Read(swept, key, minSnapshot) == Read(log, key, minSnapshot)
    requires forall i :: i in dropped && i < |log| ==> !Needed(log, minSnapshot, log[i])
    ensures NeededRows(Survivors(log[..n], dropped), swept, minSnapshot) == NeededRows(log[..n], log, minSnapshot)
  {
    if n > 0 {
      NeededAmongSurvivors(log, dropped, swept, minSnapshot, n - 1);
      assert log[..n][..n - 1] == log[..n - 1];
      var init := Survivors(log[..n - 1], dropped);
      if n - 1 in dropped {
        assert init + [] == init;
        assert NeededRows(log[..n - 1], log, minSnapshot) + [] == NeededRows(log[..n - 1], log, minSnapshot);
      } else {
        assert (init + [log[n - 1]])[..|init|] == init;
      }
    }
  }

  lemma NotNeededLater(log: seq<IndexEntry>, m1: nat, m2: nat, i: nat)
    requires Valid(log) && i < |log| && m1 <= m2 && Marked(log, m1, i)
    ensures !Needed(log, m2, log[i])
  {
    MarkedIffNotNeeded(log, m1, i);
    ReadIsLatestLiveRevision(log, KeyOf(log[i]), m1, i);
    ReadIsLatestLiveRevision(log, KeyOf(log[i]), m2, i);
  }

  /**
   A sweep may stop anywhere and be taken up later, at the same or a newer snapshot, judging rows
   against whatever successors are left: the outcome is that of one uninterrupted sweep.
   */
  lemma ResumedSweepCompletes(log: seq<IndexEntry>, m1: nat, done: nat, m2: nat)
    requires Valid(log) && m1 <= m2 && done <= |log|
    ensures var left := Survivors(log, ExpiredBefore(log, m1, done));
            Valid(left) && Collect(left, m2) == Collect(log, m2)
  {
    var dropped := ExpiredBefore(log, m1, done);
    var left := Survivors(log, dropped);
    SurvivorsStayValid(log, dropped);
    CollectKeepsExactlyNeeded(left, m2);
    CollectKeepsExactlyNeeded(log, m2);
    InterruptedSweepIsInvisible(log, m1, done);
    forall i | i in dropped && i < |log|
      ensures !Needed(log, m2, log[i])
    {
      NotNeededLater(log, m1, m2, i);
    }
    NeededAmongSurvivors(log, dropped, left, m2, |log|);
    assert log[..|log|] == log;
  }

  /** Sweeping at one snapshot and later at a newer one leaves what a single sweep at the newer one leaves. */
  lemma SweepsCompose(log: seq<IndexEntry>, m1: nat, m2: nat)
    requires Valid(log) && m1 <= m2
    ensures Collect(Collect(log, m1), m2) == Collect(log, m2)
  {
    ResumedSweepCompletes(log, m1, |log|, m2);
    assert ExpiredBefore(log, m1, |log|) == Expired(log, m1);
  }

  /** After a sweep each key keeps at most one row older than the window: a live one that a read at its start returns. */
  lemma OldRowsAreVisible(log: seq<IndexEntry>, minSnapshot: nat, a: IndexEntry, b: IndexEntry)
    requires Valid(log)
    requires a in Collect(log, minSnapshot) && a.ts < minSnapshot
    requires b in Collect(log, minSnapshot) && b.ts < minSnapshot && SameKey(a, b)
    ensures a == b && !a.deleted
    ensures Read(Collect(log, minSnapshot), KeyOf(a), minSnapshot) == Some(a)
  {
    SurvivorsStayValid(log, Expired(log, minSnapshot));
    RetentionIsInvisible(log, minSnapshot, KeyOf(a), minSnapshot);
    var i :| 0 <= i < |log| && i !in Expired(log, minSnapshot) && log[i] == a;
    var j :| 0 <= j < |log| && j !in Expired(log, minSnapshot) && log[j] == b;
    MarkedIffNotNeeded(log, minSnapshot, i);
    MarkedIffNotNeeded(log, minSnapshot, j);
    ReadIsLatestLiveRevision(log, KeyOf(a), minSnapshot, i);
  }

  // ----- Why the assumptions are there -----

  function Row(prefix: byte, sha: byte, ts: nat, deleted: bool): IndexEntry {
    IndexEntry([1], [prefix], [sha], ts, None, deleted)
  }

  /** Deleting the tombstone before the row it hides brings the row back. */
  lemma TombstoneFirstResurrects()
    ensures var log := [Row(7, 9, 1, false), Row(7, 9, 2, true)];
            && Valid(log)
            && Expired(log, 3) == {0, 1}
            && Read(log, KeyOf(log[0]), 3) == None
            && Read(Survivors(log, {1}), KeyOf(log[0]), 3) == Some(log[0])
  {
    var log := [Row(7, 9, 1, false), Row(7, 9, 2, true)];
    assert Marked(log, 3, 0) && Marked(log, 3, 1);
    UncoveredDeletionResurrects(log, {1}, 3, 0, 1);
    assert Survivors(log[..1], {1}) == [log[0]];
    assert Survivors(log, {1}) == [log[0]];
  }

  /** If two keys shared a hash, the sweep would drop a live row. */
  lemma HashCollisionLosesRow()
    ensures var log := [Row(7, 9, 1, false), Row(8, 9, 2, false)];
            Sorted(log) && !HashDeterminesKey(log) && log[0] !in Collect(log, 3)
  {
    var log := [Row(7, 9, 1, false), Row(8, 9, 2, false)];
    assert LexLess([7], [8]);
    assert Marked(log, 3, 0) && !Marked(log, 3, 1);
    assert Survivors(log[..1], Expired(log, 3)) == [];
    assert !HashesAgree(log[0], log[1]);
  }

  // ----- Splitting keys -----

  const MAX_INDEX_KEY_PREFIX_LEN: nat := 2500

  datatype SplitKey = SplitKey(prefix: ByteString, suffix: Option<ByteString>)

  function Split(key: ByteString): SplitKey {
    if |key| > MAX_INDEX_KEY_PREFIX_LEN then
      SplitKey(key[..MAX_INDEX_KEY_PREFIX_LEN], Some(key[MAX_INDEX_KEY_PREFIX_LEN..]))
    else
      SplitKey(key, None)
  }

  function Joined(split: SplitKey): ByteString {
    split.prefix + (if split.suffix.Some? then split.suffix.value else [])
  }

  /** Splitting loses nothing, and prefix-then-suffix order is the order of the whole keys. */
  lemma SplitEmbedsOrder(a: ByteString, b: ByteString)
    ensures Joined(Split(a)) == a
    ensures |Split(a).prefix| <= 2500 && (|a| <= 2500 ==> Split(a).prefix == a)
    ensures Split(a).suffix.Some? <==> |a| > 2500
    ensures Split(a).suffix.Some? ==> |Split(a).prefix| == 2500
    ensures LexLess(a, b) <==>
            var x, y := Split(a), Split(b);
            LexLess(x.prefix, y.prefix) || (x.prefix == y.prefix && SuffixLess(x.suffix, y.suffix))
  {
    var n := MAX_INDEX_KEY_PREFIX_LEN;
    LexAsymmetric(a, a);
    if |a| > n && |b| > n {
      assert a == a[..n] + a[n..] && b == b[..n] + b[n..];
      LexSplit(a[..n], a[n..], b[..n], b[n..]);
    } else if |a| > n {
      LexAgainstShort(a[..n], a[n..], b);
      assert a == a[..n] + a[n..];
    } else if |b| > n {
      LexAgainstShort(b[..n], b[n..], a);
      assert b == b[..n] + b[n..];
    }
  }

  /**
   Rows of different indexes sort by index; rows of one index whose keys differ within the prefix sort as
   the whole keys do; keys with one prefix sort by hash, and revisions of one key by timestamp.
   */
  lemma RowsSortByKey(x: IndexEntry, y: IndexEntry, a: ByteString, b: ByteString)
    requires Split(a) == SplitKey(x.keyPrefix, x.keySuffix) && Split(b) == SplitKey(y.keyPrefix, y.keySuffix)
    ensures x.indexId != y.indexId ==> (PrimaryLess(x, y) <==> LexLess(x.indexId, y.indexId))
    ensures x.indexId == y.indexId && x.keyPrefix != y.keyPrefix ==> (PrimaryLess(x, y) <==> LexLess(a, b))
    ensures x.indexId == y.indexId && x.keyPrefix == y.keyPrefix && x.keySha256 != y.keySha256 ==>
              (PrimaryLess(x, y) <==> LexLess(x.keySha256, y.keySha256))
    ensures x.indexId == y.indexId && x.keyPrefix == y.keyPrefix && x.keySha256 == y.keySha256 ==>
              (PrimaryLess(x, y) <==> x.ts < y.ts)
  {
    SplitEmbedsOrder(a, b);
    LexAsymmetric(x.indexId, x.indexId);
    LexAsymmetric(x.keyPrefix, x.keyPrefix);
    LexAsymmetric(x.keySha256, x.keySha256);
  }

  /** The derived order is total: of two different rows exactly one comes before the other. */
  lemma OrderIsTotal(x: IndexEntry, y: IndexEntry)
    ensures Less(x, y) ==> x != y && !Less(y, x)
    ensures x != y ==> Less(x, y) || Less(y, x)
  {
    FieldsCompare(x.indexId, y.indexId);
    FieldsCompare(x.keyPrefix, y.keyPrefix);
    FieldsCompare(x.keySha256, y.keySha256);
    if x.keySuffix.Some? && y.keySuffix.Some? {
      FieldsCompare(x.keySuffix.value, y.keySuffix.value);
    }
  }

  /** Rows with one primary key: no suffix comes before any suffix, suffixes sort as bytes, and live sorts before deleted. */
  lemma TiesBreakBySuffixThenDeleted(x: IndexEntry, y: IndexEntry)
    requires SamePrimary(x, y)
    ensures x.keySuffix.None? && y.keySuffix.Some? ==> Less(x, y)
    ensures x.keySuffix.Some? && y.keySuffix.Some? && x.keySuffix != y.keySuffix ==>
              (Less(x, y) <==> LexLess(x.keySuffix.value, y.keySuffix.value))
    ensures x.keySuffix == y.keySuffix ==> (Less(x, y) <==> !x.deleted && y.deleted)
  {
    FieldsCompare(x.indexId, y.indexId);
    FieldsCompare(x.keyPrefix, y.keyPrefix);
    FieldsCompare(x.keySha256, y.keySha256);
    if x.keySuffix.Some? {
      FieldsCompare(x.keySuffix.value, x.keySuffix.value);
    }
  }

  lemma FieldsCompare(a: ByteString, b: ByteString)
    ensures a == b || LexLess(a, b) || LexLess(b, a)
    ensures !(LexLess(a, b) && LexLess(b, a)) && (a == b ==> !LexLess(a, b))
  {
    LexTotal(a, b);
    LexAsymmetric(a, b);
  }

  /** The sweep refuses a row exactly when its successor is the same row or comes before it. */
  lemma RefusedIffNotBefore(row: IndexEntry, minSnapshot: nat, next: Option<IndexEntry>)
    ensures IsExpired(row, minSnapshot, next) == Failure(OutOfOrder) <==>
            next.Some? && (next.value == row || Less(next.value, row))
  {
    if next.Some? {
      OrderIsTotal(row, next.value);
    }
  }

  /** A tail beyond the length of the other key only matters on a tie. */
  lemma {:induction false} LexAgainstShort(head: ByteString, tail: ByteString, other: ByteString)
    requires |other| <= |head| && tail != []
    ensures LexLess(head + tail, other) <==> LexLess(head, other)
    ensures LexLess(other, head + tail) <==> LexLess(other, head) || other == head
    decreases |head|
  {
    if head == [] {
      assert head + tail == tail;
    } else if other != [] {
      assert (head + tail)[1..] == head[1..] + tail;
      LexAgainstShort(head[1..], tail, other[1..]);
    }
  }
}
