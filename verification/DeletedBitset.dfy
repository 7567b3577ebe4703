/** The on-disk bitset of deleted documents. */
module DeletedBitset {
  import opened Results
  import opened Bytes

  const DELETED_BITSET_VERSION: byte := 1

  const BLOCK_BITS: nat := 64

  const BLOCK_BYTES: nat := 8

  datatype BitsetError = AlreadyDeleted | Inconsistent | TooManyBits | WrongVersion | BadCount | WrongLength | UnexpectedEnd

  datatype Bitset = Bitset(deleted: seq<bool>, numDeleted: nat)

  function CountOnes(bits: seq<bool>): nat {
    if bits == [] then 0 else (if bits[0] then 1 else 0) + CountOnes(bits[1..])
  }

  function Zeros(n: nat): seq<bool> {
    seq(n, _ => false)
  }

  // ----- Operations on the bits -----

  function Resize(b: Bitset, size: nat): Bitset {
    b.(deleted := if size <= |b.deleted| then b.deleted[..size] else b.deleted + Zeros(size - |b.deleted|))
  }

  /** Ids past the end count as deleted. */
  predicate IsDeleted(b: Bitset, id: nat) {
    id >= |b.deleted| || b.deleted[id]
  }

  function Delete(b: Bitset, id: nat): Result<Bitset, BitsetError> {
    if IsDeleted(b, id) then Failure(AlreadyDeleted)
    else Success(Bitset(b.deleted[id := true], b.numDeleted + 1))
  }

  predicate Consistent(b: Bitset) {
    b.numDeleted == CountOnes(b.deleted)
  }

  lemma {:induction false} CountConcat(a: seq<bool>, b: seq<bool>)
    ensures CountOnes(a + b) == CountOnes(a) + CountOnes(b)
  {
    if a == [] {
      assert a + b == b;
    } else {
      assert (a + b)[1..] == a[1..] + b;
      CountConcat(a[1..], b);
    }
  }

  lemma {:induction false} CountZero(bits: seq<bool>)
    ensures CountOnes(bits) == 0 <==> forall i :: 0 <= i < |bits| ==> !bits[i]
    ensures CountOnes(bits) <= |bits|
  {
    if bits != [] {
      CountZero(bits[1..]);
      assert forall i :: 0 < i < |bits| ==> bits[i] == bits[1..][i - 1];
    }
  }

  lemma {:induction false} CountSet(bits: seq<bool>, i: nat)
    requires i < |bits| && !bits[i]
    ensures CountOnes(bits[i := true]) == CountOnes(bits) + 1
  {
    assert bits == bits[..i] + [false] + bits[i + 1..];
    assert bits[i := true] == bits[..i] + [true] + bits[i + 1..];
    CountConcat(bits[..i], [false]);
    CountConcat(bits[..i] + [false], bits[i + 1..]);
    CountConcat(bits[..i], [true]);
    CountConcat(bits[..i] + [true], bits[i + 1..]);
  }

  /** A deletion sets exactly one clear bit and keeps the count right. */
  lemma DeleteStaysConsistent(b: Bitset, id: nat)
    requires Consistent(b)
    ensures Delete(b, id).Failure? <==> IsDeleted(b, id)
    ensures Delete(b, id).Success? ==>
              var b' := Delete(b, id).value;
              Consistent(b') && forall j: nat :: IsDeleted(b', j) <==> IsDeleted(b, j) || j == id
  {
    if !IsDeleted(b, id) {
      CountSet(b.deleted, id);
    }
  }

  lemma NoneSetFrom(bits: seq<bool>, k: nat)
    requires k <= |bits|
    ensures CountOnes(bits[k..]) == 0 <==> forall i :: k <= i < |bits| ==> !bits[i]
  {
    var tail := bits[k..];
    CountZero(tail);
    assert forall i :: 0 <= i < |tail| ==> tail[i] == bits[k + i];
    if CountOnes(tail) == 0 {
      forall i | k <= i < |bits|
        ensures !bits[i]
      {
        assert bits[i] == tail[i - k];
      }
    }
  }

  /** Resizing keeps the count right exactly when no set bit is cut off. */
  lemma ResizeConsistentIff(b: Bitset, size: nat)
    requires Consistent(b)
    ensures Consistent(Resize(b, size)) <==> forall i :: size <= i < |b.deleted| ==> !b.deleted[i]
  {
    if size <= |b.deleted| {
      assert b.deleted == b.deleted[..size] + b.deleted[size..];
      CountConcat(b.deleted[..size], b.deleted[size..]);
      NoneSetFrom(b.deleted, size);
    } else {
      CountConcat(b.deleted, Zeros(size - |b.deleted|));
      CountZero(Zeros(size - |b.deleted|));
    }
  }

  // ----- Blocks of 64 bits -----

  /** The word whose bits, least significant first, are these. */
  function Word(bits: seq<bool>): nat {
    if bits == [] then 0 else (if bits[0] then 1 else 0) + 2 * Word(bits[1..])
  }

  function WordBits(x: nat, n: nat): (bits: seq<bool>)
    ensures |bits| == n
  {
    if n == 0 then [] else [x % 2 == 1] + WordBits(x / 2, n - 1)
  }

  /** The raw words of a bit vector; unused bits of the last word are clear. */
  function Words(bits: seq<bool>): seq<nat>
    decreases |bits|
  {
    if bits == [] then []
    else if |bits| <= BLOCK_BITS then [Word(bits)]
    else [Word(bits[..BLOCK_BITS])] + Words(bits[BLOCK_BITS..])
  }

  function BlockCount(bits: nat): nat {
    (bits + 63) / 64
  }

  function BitsOfWords(words: seq<nat>): seq<bool> {
    if words == [] then [] else WordBits(words[0], BLOCK_BITS) + BitsOfWords(words[1..])
  }

  function BytesOfWords(words: seq<nat>): ByteString {
    if words == [] then [] else LittleEndian(words[0], BLOCK_BYTES) + BytesOfWords(words[1..])
  }

  function ReadWords(bytes: ByteString, n: nat): seq<nat>
    requires |bytes| >= 8 * n
    decreases n
  {
    if n == 0 then [] else [FromLittleEndian(bytes[..8])] + ReadWords(bytes[8..], n - 1)
  }

  // ----- The file -----

  function Write(b: Bitset): Result<ByteString, BitsetError> {
    if !Consistent(b) then Failure(Inconsistent)
    else if |b.deleted| >= U32_LIMIT then Failure(TooManyBits)
    else Success(Header(DELETED_BITSET_VERSION, |b.deleted|, b.numDeleted) + BytesOfWords(Words(b.deleted)))
  }

  function Load(fileLen: nat, bytes: ByteString): Result<Bitset, BitsetError> {
    if |bytes| < 1 then Failure(UnexpectedEnd)
    else if bytes[0] != DELETED_BITSET_VERSION then Failure(WrongVersion)
    else if |bytes| < 9 then Failure(UnexpectedEnd)
    else
      var numBits := FromLittleEndian(bytes[1..5]);
      var numDeleted := FromLittleEndian(bytes[5..9]);
      if numDeleted > numBits then Failure(BadCount)
      else if 9 + 8 * BlockCount(numBits) != fileLen then Failure(WrongLength)
      else if |bytes| < 9 + 8 * BlockCount(numBits) then Failure(UnexpectedEnd)
      else
        var b := Resize(Bitset(BitsOfWords(ReadWords(bytes[9..], BlockCount(numBits))), numDeleted), numBits);
        if Consistent(b) then Success(b) else Failure(BadCount)
  }

  // ----- Round trips of the pieces -----

  lemma {:induction false} ZeroBits(n: nat)
    ensures WordBits(0, n) == Zeros(n)
  {
    if n > 0 {
      ZeroBits(n - 1);
      assert [false] + Zeros(n - 1) == Zeros(n);
    }
  }

  lemma LowestBit(bit: bool, rest: nat, n: nat)
    requires n > 0
    ensures WordBits((if bit then 1 else 0) + 2 * rest, n) == [bit] + WordBits(rest, n - 1)
  {
    var x := (if bit then 1 else 0) + 2 * rest;
    assert x / 2 == rest && (x % 2 == 1 <==> bit);
  }

  lemma {:induction false} WordRoundTrip(bits: seq<bool>, n: nat)
    requires |bits| <= n
    ensures WordBits(Word(bits), n) == bits + Zeros(n - |bits|)
  {
    if bits == [] {
      ZeroBits(n);
      assert bits + Zeros(n) == Zeros(n);
    } else {
      WordRoundTrip(bits[1..], n - 1);
      LowestBit(bits[0], Word(bits[1..]), n);
      assert [bits[0]] + (bits[1..] + Zeros(n - |bits|)) == bits + Zeros(n - |bits|);
    }
  }

  lemma {:induction false} WordBound(bits: seq<bool>)
    ensures Word(bits) < Pow(2, |bits|)
  {
    if bits != [] {
      WordBound(bits[1..]);
    }
  }

  lemma {:induction false} PowMonotone(m: nat, n: nat)
    requires m <= n
    ensures Pow(2, m) <= Pow(2, n)
    decreases n
  {
    if m < n {
      PowMonotone(m, n - 1);
    }
  }

  lemma EightBitsAreAByte(n: nat)
    ensures Pow(2, n + 8) == 256 * Pow(2, n)
  {
    assert Pow(2, n + 2) == 4 * Pow(2, n);
    assert Pow(2, n + 4) == 4 * Pow(2, n + 2);
    assert Pow(2, n + 6) == 4 * Pow(2, n + 4);
    assert Pow(2, n + 8) == 4 * Pow(2, n + 6);
  }

  lemma {:induction false} BytesHoldBits(k: nat)
    ensures Pow(2, 8 * k) == Pow(256, k)
  {
    if k > 0 {
      BytesHoldBits(k - 1);
      EightBitsAreAByte(8 * (k - 1));
    }
  }

  lemma WordFits(bits: seq<bool>)
    requires |bits| <= BLOCK_BITS
    ensures Word(bits) < Pow(256, BLOCK_BYTES)
  {
    WordBound(bits);
    PowMonotone(|bits|, BLOCK_BITS);
    BytesHoldBits(BLOCK_BYTES);
  }

  lemma {:induction false} WordsFacts(bits: seq<bool>)
    ensures |Words(bits)| == BlockCount(|bits|)
    ensures forall i :: 0 <= i < |Words(bits)| ==> Words(bits)[i] < Pow(256, BLOCK_BYTES)
    decreases |bits|
  {
    if bits != [] {
      if |bits| <= BLOCK_BITS {
        WordFits(bits);
      } else {
        WordFits(bits[..BLOCK_BITS]);
        WordsFacts(bits[BLOCK_BITS..]);
      }
    }
  }

  lemma BlockCountFacts(n: nat)
    ensures n <= 64 * BlockCount(n)
    ensures 0 < n <= 64 ==> BlockCount(n) == 1
    ensures n > 64 ==> BlockCount(n) == 1 + BlockCount(n - 64)
  {
  }

  function Padding(n: nat): seq<bool> {
    BlockCountFacts(n);
    Zeros(64 * BlockCount(n) - n)
  }

  lemma SplitAppend(bits: seq<bool>, k: nat, more: seq<bool>)
    requires k <= |bits|
    ensures bits[..k] + (bits[k..] + more) == bits + more
  {
  }

  lemma BitsOfCons(x: nat, rest: seq<nat>)
    ensures BitsOfWords([x] + rest) == WordBits(x, BLOCK_BITS) + BitsOfWords(rest)
  {
    assert ([x] + rest)[1..] == rest;
  }

  lemma OneWordRoundTrip(bits: seq<bool>)
    requires 0 < |bits| <= BLOCK_BITS
    ensures BitsOfWords(Words(bits)) == bits + Padding(|bits|)
  {
    BlockCountFacts(|bits|);
    WordRoundTrip(bits, BLOCK_BITS);
    BitsOfCons(Word(bits), []);
  }

  lemma FullWordRoundTrip(bits: seq<bool>)
    requires |bits| == BLOCK_BITS
    ensures WordBits(Word(bits), BLOCK_BITS) == bits
  {
    WordRoundTrip(bits, BLOCK_BITS);
    assert bits + Zeros(0) == bits;
  }

  lemma PaddingRepeats(n: nat)
    requires n > 64
    ensures Padding(n) == Padding(n - 64)
  {
    BlockCountFacts(n);
  }

  lemma NextWordRoundTrip(bits: seq<bool>)
    requires |bits| > BLOCK_BITS
    requires BitsOfWords(Words(bits[BLOCK_BITS..])) == bits[BLOCK_BITS..] + Padding(|bits| - BLOCK_BITS)
    ensures BitsOfWords(Words(bits)) == bits + Padding(|bits|)
  {
    var head, tail := bits[..BLOCK_BITS], bits[BLOCK_BITS..];
    assert Words(bits) == [Word(head)] + Words(tail);
    BitsOfCons(Word(head), Words(tail));
    FullWordRoundTrip(head);
    PaddingRepeats(|bits|);
    SplitAppend(bits, BLOCK_BITS, Padding(|bits|));
  }

  /** Reading the words back gives the bits, padded with clear bits to whole words. */
  lemma {:induction false} WordsRoundTrip(bits: seq<bool>)
    ensures BitsOfWords(Words(bits)) == bits + Padding(|bits|)
    decreases |bits|
  {
    if bits == [] {
      assert bits + Padding(0) == [];
    } else if |bits| <= BLOCK_BITS {
      OneWordRoundTrip(bits);
    } else {
      WordsRoundTrip(bits[BLOCK_BITS..]);
      NextWordRoundTrip(bits);
    }
  }

  lemma {:induction false} BytesOfWordsLength(words: seq<nat>)
    ensures |BytesOfWords(words)| == 8 * |words|
  {
    if words != [] {
      BytesOfWordsLength(words[1..]);
    }
  }

  lemma {:induction false} ReadWordsBack(words: seq<nat>)
    requires forall i :: 0 <= i < |words| ==> words[i] < Pow(256, BLOCK_BYTES)
    ensures |BytesOfWords(words)| == 8 * |words|
    ensures ReadWords(BytesOfWords(words), |words|) == words
  {
    BytesOfWordsLength(words);
    if words != [] {
      ReadWordsBack(words[1..]);
      LittleEndianRoundTrip(words[0], BLOCK_BYTES);
      assert BytesOfWords(words)[..8] == LittleEndian(words[0], BLOCK_BYTES);
      assert BytesOfWords(words)[8..] == BytesOfWords(words[1..]);
    }
  }

  /**
   Every consistent bitset of fewer than 2^32 bits is written as 9 bytes and 8 for each started
   block of 64 bits, and loading that file gives the same bits and count back.
   */
  lemma FileRoundTrip(b: Bitset)
    requires Consistent(b) && |b.deleted| < U32_LIMIT
    ensures Write(b).Success?
    ensures |Write(b).value| == 9 + 8 * BlockCount(|b.deleted|)
    ensures Load(|Write(b).value|, Write(b).value) == Success(b)
  {
    var words := Words(b.deleted);
    CountZero(b.deleted);
    WordsFacts(b.deleted);
    ReadWordsBack(words);
    WordsRoundTrip(b.deleted);
    HeaderRoundTrip(DELETED_BITSET_VERSION, |b.deleted|, b.numDeleted, BytesOfWords(words));
    assert Resize(Bitset(BitsOfWords(words), b.numDeleted), |b.deleted|) == b;
  }

  // ----- Every bitset the operations can reach -----

  datatype Edit = Grow(size: nat) | DeleteDocument(id: nat)

  function AfterEdit(b: Bitset, e: Edit): Bitset {
    match e
    case Grow(size) => if size >= |b.deleted| then Resize(b, size) else b
    case DeleteDocument(id) => if Delete(b, id).Success? then Delete(b, id).value else b
  }

  function AfterEdits(b: Bitset, edits: seq<Edit>): Bitset
    decreases |edits|
  {
    if edits == [] then b else AfterEdits(AfterEdit(b, edits[0]), edits[1..])
  }

  lemma {:induction false} EditsStayConsistent(b: Bitset, edits: seq<Edit>)
    requires Consistent(b)
    ensures Consistent(AfterEdits(b, edits))
    decreases |edits|
  {
    if edits != [] {
      if edits[0].Grow? {
        ResizeConsistentIff(b, edits[0].size);
      } else {
        DeleteStaysConsistent(b, edits[0].id);
      }
      EditsStayConsistent(AfterEdit(b, edits[0]), edits[1..]);
    }
  }

  function Grown(size: nat, e: Edit): nat {
    if e.Grow? && e.size > size then e.size else size
  }

  /** The size reached after some edits: it only grows. */
  function SizeAfter(size: nat, edits: seq<Edit>): nat
    decreases |edits|
  {
    if edits == [] then size else SizeAfter(Grown(size, edits[0]), edits[1..])
  }

  /** Some edit deletes the document when its id is below the size then reached. */
  ghost predicate DeletedBy(size: nat, edits: seq<Edit>, id: nat) {
    exists k :: 0 <= k < |edits| && edits[k] == DeleteDocument(id) && id < SizeAfter(size, edits[..k])
  }

  lemma DeletedByFirst(size: nat, edits: seq<Edit>, id: nat)
    requires edits != []
    ensures DeletedBy(size, edits, id) <==>
            (edits[0] == DeleteDocument(id) && id < size) || DeletedBy(Grown(size, edits[0]), edits[1..], id)
  {
    var size', rest := Grown(size, edits[0]), edits[1..];
    forall k | 0 < k <= |edits|
      ensures SizeAfter(size, edits[..k]) == SizeAfter(size', rest[..k - 1])
    {
      assert edits[..k][1..] == rest[..k - 1] && edits[..k][0] == edits[0];
    }
    if k :| 0 <= k < |edits| && edits[k] == DeleteDocument(id) && id < SizeAfter(size, edits[..k]) {
      if k == 0 {
        assert edits[..0] == [];
      } else {
        assert rest[k - 1] == edits[k];
      }
    }
    if edits[0] == DeleteDocument(id) && id < size {
      assert edits[..0] == [];
    }
    if k :| 0 <= k < |rest| && rest[k] == DeleteDocument(id) && id < SizeAfter(size', rest[..k]) {
      assert edits[k + 1] == rest[k] && SizeAfter(size, edits[..k + 1]) == SizeAfter(size', rest[..k]);
    }
  }

  predicate BitAt(b: Bitset, id: nat) {
    id < |b.deleted| && b.deleted[id]
  }

  lemma EditSetsBit(b: Bitset, e: Edit, id: nat)
    ensures |AfterEdit(b, e).deleted| == Grown(|b.deleted|, e)
    ensures BitAt(AfterEdit(b, e), id) <==> BitAt(b, id) || (e == DeleteDocument(id) && id < |b.deleted|)
  {
  }

  lemma {:induction false} EditsSetBits(b: Bitset, edits: seq<Edit>, id: nat)
    ensures |AfterEdits(b, edits).deleted| == SizeAfter(|b.deleted|, edits)
    ensures BitAt(AfterEdits(b, edits), id) <==> BitAt(b, id) || DeletedBy(|b.deleted|, edits, id)
    decreases |edits|
  {
    if edits != [] {
      EditSetsBit(b, edits[0], id);
      DeletedByFirst(|b.deleted|, edits, id);
      EditsSetBits(AfterEdit(b, edits[0]), edits[1..], id);
    }
  }

  /**
   Over every edit sequence from a new bitset: an id reads as deleted, and deleting it fails, exactly when
   it lies past the final size or was deleted when it was below the size then reached.
   */
  lemma DeletedIffPastEndOrDeleted(size: nat, edits: seq<Edit>, id: nat)
    ensures var b := AfterEdits(Bitset(Zeros(size), 0), edits);
            && (IsDeleted(b, id) <==> id >= SizeAfter(size, edits) || DeletedBy(size, edits, id))
            && (Delete(b, id) == Failure(AlreadyDeleted) <==> id >= SizeAfter(size, edits) || DeletedBy(size, edits, id))
  {
    EditsSetBits(Bitset(Zeros(size), 0), edits, id);
  }

  /** Every refusal is one of the checks: version, header, counts, length or a short read, the first that fails. */
  lemma LoadRefusals(fileLen: nat, bytes: ByteString)
    ensures Load(fileLen, bytes) == Failure(WrongVersion) <==> bytes != [] && bytes[0] != 1
    ensures bytes == [] || (bytes[0] == 1 && |bytes| < 9) ==> Load(fileLen, bytes) == Failure(UnexpectedEnd)
    ensures |bytes| >= 9 && bytes[0] == 1 ==>
              var numBits, numDeleted := FromLittleEndian(bytes[1..5]), FromLittleEndian(bytes[5..9]);
              var length := 9 + 8 * BlockCount(numBits);
              && (numDeleted > numBits ==> Load(fileLen, bytes) == Failure(BadCount))
              && (Load(fileLen, bytes) == Failure(WrongLength) <==> numDeleted <= numBits && fileLen != length)
              && (Load(fileLen, bytes) == Failure(UnexpectedEnd) <==> numDeleted <= numBits && fileLen == length && |bytes| < length)
              && (Load(fileLen, bytes).Success? ==> |Load(fileLen, bytes).value.deleted| == numBits
                                                    && CountOnes(Load(fileLen, bytes).value.deleted) == numDeleted)
  {
    if |bytes| >= 9 {
      var numBits := FromLittleEndian(bytes[1..5]);
      BlockCountFacts(numBits);
      if |bytes| >= 9 + 8 * BlockCount(numBits) {
        BitsRead(bytes[9..], BlockCount(numBits));
      }
    }
  }

  lemma {:induction false} BitsRead(bytes: ByteString, n: nat)
    requires |bytes| >= 8 * n
    ensures |BitsOfWords(ReadWords(bytes, n))| == 64 * n
    decreases n
  {
    if n > 0 {
      BitsRead(bytes[8..], n - 1);
      assert ReadWords(bytes, n)[1..] == ReadWords(bytes[8..], n - 1);
    }
  }

  /** A written file is the version byte 1, the number of bits, the number deleted and the blocks, all little-endian. */
  lemma FileLayout(b: Bitset)
    requires Write(b).Success?
    ensures Write(b).value == [1] + LittleEndian(|b.deleted|, 4) + LittleEndian(CountOnes(b.deleted), 4) + BytesOfWords(Words(b.deleted))
  {
  }

  /** What is written loads back unchanged, and exactly the consistent bitsets below the size limit are written. */
  lemma WrittenIffLoadable(b: Bitset)
    ensures Write(b).Success? <==> b.numDeleted == CountOnes(b.deleted) && |b.deleted| < U32_LIMIT
    ensures Write(b).Success? ==> Load(|Write(b).value|, Write(b).value) == Success(b)
  {
    if Consistent(b) && |b.deleted| < U32_LIMIT {
      FileRoundTrip(b);
    }
  }

  /** Every bitset reached from a new one by growing and deleting counts its set bits and survives its file. */
  lemma ReachableFileRoundTrip(size: nat, edits: seq<Edit>)
    requires |AfterEdits(Bitset(Zeros(size), 0), edits).deleted| < U32_LIMIT
    ensures var b := AfterEdits(Bitset(Zeros(size), 0), edits);
            && b.numDeleted == CountOnes(b.deleted)
            && Write(b).Success? && |Write(b).value| == 9 + 8 * BlockCount(|b.deleted|)
            && Load(|Write(b).value|, Write(b).value) == Success(b)
  {
    CountZero(Zeros(size));
    EditsStayConsistent(Bitset(Zeros(size), 0), edits);
    FileRoundTrip(AfterEdits(Bitset(Zeros(size), 0), edits));
  }

  // ----- Which files survive loading and rewriting -----

  lemma {:induction false} WordBitsRoundTrip(x: nat, n: nat)
    requires x < Pow(2, n)
    ensures Word(WordBits(x, n)) == x
  {
    if n > 0 {
      WordBitsRoundTrip(x / 2, n - 1);
      assert WordBits(x, n)[1..] == WordBits(x / 2, n - 1);
    }
  }

  lemma {:induction false} BitsDetermineWords(a: seq<nat>, b: seq<nat>)
    requires |a| == |b| && BitsOfWords(a) == BitsOfWords(b)
    requires forall i :: 0 <= i < |a| ==> a[i] < Pow(256, BLOCK_BYTES) && b[i] < Pow(256, BLOCK_BYTES)
    ensures a == b
  {
    if a != [] {
      BytesHoldBits(BLOCK_BYTES);
      WordBitsRoundTrip(a[0], BLOCK_BITS);
      WordBitsRoundTrip(b[0], BLOCK_BITS);
      assert WordBits(a[0], BLOCK_BITS) == BitsOfWords(a)[..64] == BitsOfWords(b)[..64] == WordBits(b[0], BLOCK_BITS);
      assert BitsOfWords(a[1..]) == BitsOfWords(a)[64..] == BitsOfWords(b)[64..] == BitsOfWords(b[1..]);
      BitsDetermineWords(a[1..], b[1..]);
    }
  }

  lemma {:induction false} ReadWordsFacts(bytes: ByteString, n: nat)
    requires |bytes| == 8 * n
    ensures |ReadWords(bytes, n)| == n && |BitsOfWords(ReadWords(bytes, n))| == 64 * n
    ensures forall i :: 0 <= i < n ==> ReadWords(bytes, n)[i] < Pow(256, BLOCK_BYTES)
    ensures BytesOfWords(ReadWords(bytes, n)) == bytes
    decreases n
  {
    if n > 0 {
      var words := ReadWords(bytes, n);
      ReadWordsFacts(bytes[8..], n - 1);
      BytesRoundTrip(bytes[..8]);
      assert words[1..] == ReadWords(bytes[8..], n - 1);
      assert bytes == bytes[..8] + bytes[8..];
    }
  }

  /** The padding behind the last bit of a file's words is clear. */
  predicate PaddingClear(words: seq<nat>, numBits: nat) {
    forall i :: numBits <= i < |BitsOfWords(words)| ==> !BitsOfWords(words)[i]
  }

  lemma WordsSurviveIffPaddingClear(words: seq<nat>, numBits: nat)
    requires |words| == BlockCount(numBits) && |BitsOfWords(words)| == 64 * |words|
    requires forall i :: 0 <= i < |words| ==> words[i] < Pow(256, BLOCK_BYTES)
    ensures numBits <= |BitsOfWords(words)|
    ensures Words(BitsOfWords(words)[..numBits]) == words <==> PaddingClear(words, numBits)
  {
    var bits := BitsOfWords(words)[..numBits];
    var padding := Padding(numBits);
    BlockCountFacts(numBits);
    WordsRoundTrip(bits);
    WordsFacts(bits);
    if PaddingClear(words, numBits) {
      assert BitsOfWords(words) == bits + padding;
      BitsDetermineWords(Words(bits), words);
    }
    if Words(bits) == words {
      assert BitsOfWords(words) == bits + padding;
    }
  }

  lemma LoadedHeader(bytes: ByteString)
    requires Load(|bytes|, bytes).Success?
    ensures |bytes| >= 9
    ensures var b := Load(|bytes|, bytes).value;
            && |bytes[9..]| == 8 * BlockCount(|b.deleted|)
            && bytes == Header(DELETED_BITSET_VERSION, |b.deleted|, b.numDeleted) + bytes[9..]
            && |b.deleted| < U32_LIMIT && b.numDeleted <= |b.deleted|
  {
    var numBits := FromLittleEndian(bytes[1..5]);
    ReadWordsFacts(bytes[9..], BlockCount(numBits));
    BlockCountFacts(numBits);
    BytesRoundTrip(bytes[1..5]);
    BytesRoundTrip(bytes[5..9]);
    FourBytesLimit();
    assert bytes == [bytes[0]] + bytes[1..5] + bytes[5..9] + bytes[9..];
  }

  /** A whole file that loads is rewritten unchanged exactly when the unused bits of its last block are clear. */
  lemma RewriteIffPaddingClear(bytes: ByteString)
    requires Load(|bytes|, bytes).Success?
    ensures |bytes| >= 9
    ensures var b := Load(|bytes|, bytes).value;
            && Consistent(b)
            && |bytes[9..]| == 8 * BlockCount(|b.deleted|)
            && (Write(b) == Success(bytes) <==>
                PaddingClear(ReadWords(bytes[9..], BlockCount(|b.deleted|)), |b.deleted|))
  {
    var b := Load(|bytes|, bytes).value;
    var n := BlockCount(|b.deleted|);
    LoadedHeader(bytes);
    var words := ReadWords(bytes[9..], n);
    ReadWordsFacts(bytes[9..], n);
    WordsSurviveIffPaddingClear(words, |b.deleted|);
    WordsFacts(b.deleted);
    ReadWordsBack(Words(b.deleted));
    SameHeaderSameRest(b, BytesOfWords(Words(b.deleted)), bytes[9..]);
  }

  lemma SameHeaderSameRest(b: Bitset, x: ByteString, y: ByteString)
    ensures var h := Header(DELETED_BITSET_VERSION, |b.deleted|, b.numDeleted); h + x == h + y <==> x == y
  {
    var h := Header(DELETED_BITSET_VERSION, |b.deleted|, b.numDeleted);
    assert (h + x)[|h|..] == x && (h + y)[|h|..] == y;
  }

  // ----- The bitset object -----

  class DeletedIds {
    var deleted: seq<bool>
    var numDeleted: nat

    function State(): Bitset
      reads this
    {
      Bitset(deleted, numDeleted)
    }

    constructor (count: nat)
      ensures State() == Bitset(Zeros(count), 0) && Consistent(State())
    {
      deleted := Zeros(count);
      numDeleted := 0;
      CountZero(Zeros(count));
    }

    method ResizeTo(size: nat)
      modifies `deleted
      ensures State() == Resize(old(State()), size)
    {
      deleted := if size <= |deleted| then deleted[..size] else deleted + Zeros(size - |deleted|);
    }

    method DeleteId(id: nat) returns (r: Result<(), BitsetError>)
      requires Consistent(State())
      modifies this
      ensures Consistent(State())
      ensures r.Success? <==> id < |old(deleted)| && !old(deleted)[id]
      ensures deleted == if r.Success? then old(deleted)[id := true] else old(deleted)
      ensures r.Failure? <==> IsDeleted(old(State()), id)
      ensures State() == if r.Success? then Delete(old(State()), id).value else old(State())
    {
      DeleteStaysConsistent(State(), id);
      if id >= |deleted| || deleted[id] {
        return Failure(AlreadyDeleted);
      }
      deleted := deleted[id := true];
      numDeleted := numDeleted + 1;
      return Success(());
    }

    method WriteTo() returns (r: Result<ByteString, BitsetError>)
      ensures r == Write(State())
    {
      if numDeleted != CountOnes(deleted) {
        return Failure(Inconsistent);
      }
      if |deleted| >= U32_LIMIT {
        return Failure(TooManyBits);
      }
      var out := Header(DELETED_BITSET_VERSION, |deleted|, numDeleted);
      var words := Words(deleted);
      var i := 0;
      while i < |words|
        invariant 0 <= i <= |words|
        invariant out + BytesOfWords(words[i..]) == Header(DELETED_BITSET_VERSION, |deleted|, numDeleted) + BytesOfWords(words)
      {
        assert words[i..][1..] == words[i + 1..];
        assert out + (LittleEndian(words[i], BLOCK_BYTES) + BytesOfWords(words[i + 1..]))
            == out + LittleEndian(words[i], BLOCK_BYTES) + BytesOfWords(words[i + 1..]);
        out := out + LittleEndian(words[i], BLOCK_BYTES);
        i := i + 1;
      }
      assert out + [] == out;
      return Success(out);
    }

    /** Fills the buffer of words from the reader. */
    static method ReadWordsInto(bytes: ByteString, n: nat) returns (words: seq<nat>)
      requires |bytes| >= 8 * n
      ensures words == ReadWords(bytes, n)
    {
      words := [];
      var i := 0;
      while i < n
        invariant 0 <= i <= n
        invariant words + ReadWords(bytes[8 * i..], n - i) == ReadWords(bytes, n)
      {
        var rest := bytes[8 * i..];
        assert rest[8..] == bytes[8 * (i + 1)..];
        assert words + ([FromLittleEndian(rest[..8])] + ReadWords(rest[8..], n - i - 1))
            == words + [FromLittleEndian(rest[..8])] + ReadWords(rest[8..], n - i - 1);
        words := words + [FromLittleEndian(rest[..8])];
        i := i + 1;
      }
      assert words + [] == words;
    }

    static method LoadFrom(fileLen: nat, bytes: ByteString) returns (r: Result<Bitset, BitsetError>)
      ensures r == Load(fileLen, bytes)
    {
      if |bytes| < 1 {
        return Failure(UnexpectedEnd);
      }
      if bytes[0] != DELETED_BITSET_VERSION {
        return Failure(WrongVersion);
      }
      if |bytes| < 9 {
        return Failure(UnexpectedEnd);
      }
      var numBits := FromLittleEndian(bytes[1..5]);
      var numDeleted := FromLittleEndian(bytes[5..9]);
      if numDeleted > numBits {
        return Failure(BadCount);
      }
      var numBlocks := BlockCount(numBits);
      if 9 + 8 * numBlocks != fileLen {
        return Failure(WrongLength);
      }
      if |bytes| < 9 + 8 * numBlocks {
        return Failure(UnexpectedEnd);
      }
      var words := ReadWordsInto(bytes[9..], numBlocks);
      var b := Resize(Bitset(BitsOfWords(words), numDeleted), numBits);
      if CountOnes(b.deleted) != numDeleted {
        return Failure(BadCount);
      }
      return Success(b);
    }
  }
}
