/** Multipart uploads: numbering, unordered completion and the final part list. */
module S3Upload {
  import opened Results
  import opened Bytes

  const MAX_PART_NUMBER: nat := 10000

  datatype UploadError = PartNumberOutOfRange | UploadFailed | StreamFailed

  datatype Part = Part(number: nat, chunk: ByteString)

  predicate ValidPartNumber(v: nat) {
    1 <= v <= MAX_PART_NUMBER
  }

  /** `started` lists the chunks that were given a number, in order; the code keeps no such list. */
  datatype Upload = Upload(uploaded: seq<Part>, next: nat, started: seq<ByteString>)

  function Fresh(): Upload {
    Upload([], 1, [])
  }

  /** How a parallel write ends: all parts uploaded, in this completion order, or an error after some were started. */
  datatype Ending = Completed(order: seq<nat>) | Aborted(mapped: nat)

  /** A chunk, or an error of the incoming stream. */
  type Item = Option<ByteString>

  // ----- Specification -----

  /** The last number is never handed out: moving past it fails first. */
  predicate CanStart(u: Upload) {
    ValidPartNumber(u.next + 1)
  }

  function Start(u: Upload, chunk: ByteString): Upload {
    if CanStart(u) then u.(next := u.next + 1, started := u.started + [chunk]) else u
  }

  function StartAll(u: Upload, items: seq<Item>): Upload
    decreases |items|
  {
    if items == [] then u
    else
      var before := StartAll(u, items[..|items| - 1]);
      var item := items[|items| - 1];
      if item.Some? then Start(before, item.value) else before
  }

  function AfterWrite(u: Upload, chunk: ByteString, uploads: bool): Upload {
    if CanStart(u) && uploads then Start(u, chunk).(uploaded := u.uploaded + [Part(u.next, chunk)])
    else Start(u, chunk)
  }

  ghost predicate Permutation(order: seq<nat>, n: nat) {
    && |order| == n
    && (forall i :: 0 <= i < n ==> order[i] < n)
    && (forall i, j :: 0 <= i < j < n ==> order[i] != order[j])
  }

  /** Success needs every item to be a chunk, every chunk to get a number and every upload to finish. */
  ghost predicate Possible(u: Upload, items: seq<Item>, ending: Ending) {
    match ending
    case Completed(order) =>
      && Permutation(order, |items|)
      && (forall i :: 0 <= i < |items| ==> items[i].Some?)
      && u.next + |items| <= MAX_PART_NUMBER
    case Aborted(mapped) => mapped <= |items|
  }

  function Numbered(items: seq<Item>, first: nat, order: seq<nat>): seq<Part>
    requires forall i :: 0 <= i < |order| ==> order[i] < |items| && items[order[i]].Some?
  {
    seq(|order|, i requires 0 <= i < |order| => Part(first + order[i], items[order[i]].value))
  }

  ghost function AfterParallel(u: Upload, items: seq<Item>, ending: Ending): Upload
    requires Possible(u, items, ending)
  {
    match ending
    case Completed(order) =>
      StartAll(u, items).(uploaded := u.uploaded + Numbered(items, u.next, order))
    case Aborted(mapped) => StartAll(u, items[..mapped])
  }

  function Insert(part: Part, parts: seq<Part>): seq<Part> {
    if parts == [] || part.number < parts[0].number then [part] + parts
    else [parts[0]] + Insert(part, parts[1..])
  }

  /** The part list sent to complete the upload. */
  function SortedParts(parts: seq<Part>): seq<Part> {
    if parts == [] then [] else Insert(parts[|parts| - 1], SortedParts(parts[..|parts| - 1]))
  }

  // ----- The upload object -----

  class MultipartUpload {
    var uploaded: seq<Part>
    var next: nat
    ghost var started: seq<ByteString>

    ghost function State(): Upload
      reads this
    {
      Upload(uploaded, next, started)
    }

    constructor ()
      ensures State() == Fresh()
    {
      uploaded := [];
      next := 1;
      started := [];
    }

    method NextPartNumber() returns (r: Result<nat, UploadError>)
      modifies `next
      ensures r == if CanStart(old(State())) then Success(old(next)) else Failure(PartNumberOutOfRange)
      ensures next == if r.Success? then old(next) + 1 else old(next)
    {
      if !ValidPartNumber(next + 1) {
        return Failure(PartNumberOutOfRange);
      }
      r := Success(next);
      next := next + 1;
    }

    method StartWrite(data: ByteString) returns (r: Result<Part, UploadError>)
      modifies `next, `started
      ensures State() == Start(old(State()), data)
      ensures r == if CanStart(old(State())) then Success(Part(old(next), data)) else Failure(PartNumberOutOfRange)
    {
      var number :- NextPartNumber();
      started := started + [data];
      return Success(Part(number, data));
    }

    method Write(data: ByteString, uploads: bool) returns (r: Result<(), UploadError>)
      modifies this
      ensures State() == AfterWrite(old(State()), data, uploads)
      ensures r.Success? <==> CanStart(old(State())) && uploads
    {
      var part :- StartWrite(data);
      if !uploads {
        return Failure(UploadFailed);
      }
      uploaded := uploaded + [part];
      return Success(());
    }

    method TryWriteParallel(items: seq<Item>, ending: Ending) returns (r: Result<(), UploadError>)
      requires Possible(State(), items, ending)
      modifies this
      ensures State() == AfterParallel(old(State()), items, ending)
      ensures r.Success? <==> ending.Completed?
    {
      var mapped := if ending.Completed? then |items| else ending.mapped;
      var parts: seq<Part> := [];
      ghost var u := State();
      var i := 0;
      while i < mapped
        invariant 0 <= i <= mapped && uploaded == u.uploaded
        invariant State() == StartAll(u, items[..i])
        invariant ending.Completed? ==> next == u.next + i
        invariant ending.Completed? ==> |parts| == i && forall j :: 0 <= j < i ==> parts[j] == Part(u.next + j, items[j].value)
      {
        assert items[..i + 1][..i] == items[..i];
        if items[i].Some? {
          var part := StartWrite(items[i].value);
          if part.Success? {
            parts := parts + [part.value];
          }
        }
        i := i + 1;
      }
      match ending
      case Aborted(_) =>
        return Failure(UploadFailed);
      case Completed(order) =>
        assert items[..|items|] == items;
        var finished := seq(|order|, j requires 0 <= j < |order| => parts[order[j]]);
        assert finished == Numbered(items, u.next, order);
        uploaded := uploaded + finished;
        return Success(());
    }

    method Complete() returns (parts: seq<Part>)
      ensures parts == SortedParts(uploaded)
    {
      parts := [];
      var i := 0;
      while i < |uploaded|
        invariant 0 <= i <= |uploaded|
        invariant parts == SortedParts(uploaded[..i])
      {
        assert uploaded[..i + 1][..i] == uploaded[..i];
        parts := Insert(uploaded[i], parts);
        i := i + 1;
      }
      assert uploaded[..|uploaded|] == uploaded;
    }
  }

  // ----- What every run keeps -----

  /** Each part carries the chunk that was started under its number. */
  ghost predicate Recorded(parts: seq<Part>, started: seq<ByteString>) {
    forall i :: 0 <= i < |parts| ==>
      1 <= parts[i].number <= |started| && started[parts[i].number - 1] == parts[i].chunk
  }

  ghost predicate DistinctNumbers(parts: seq<Part>) {
    forall i, j :: 0 <= i < j < |parts| ==> parts[i].number != parts[j].number
  }

  ghost predicate Inv(u: Upload) {
    u.next == |u.started| + 1 <= MAX_PART_NUMBER && Recorded(u.uploaded, u.started) && DistinctNumbers(u.uploaded)
  }

  datatype Event = Write(chunk: ByteString, uploads: bool) | Parallel(items: seq<Item>, ending: Ending)

  ghost predicate CanHappen(u: Upload, e: Event) {
    e.Parallel? ==> Possible(u, e.items, e.ending)
  }

  ghost function After(u: Upload, e: Event): Upload
    requires CanHappen(u, e)
  {
    match e
    case Write(chunk, uploads) => AfterWrite(u, chunk, uploads)
    case Parallel(items, ending) => AfterParallel(u, items, ending)
  }

  predicate Succeeds(u: Upload, e: Event) {
    match e
    case Write(_, uploads) => CanStart(u) && uploads
    case Parallel(_, ending) => ending.Completed?
  }

  /** The call succeeds, or fails before any part got a number. */
  ghost predicate LosesNothing(u: Upload, e: Event)
    requires CanHappen(u, e)
  {
    Succeeds(u, e) || After(u, e).started == u.started
  }

  /** The chunks a call was given. */
  function ChunksOf(e: Event): seq<ByteString> {
    match e
    case Write(chunk, _) => [chunk]
    case Parallel(items, _) =>
      seq(|items|, i requires 0 <= i < |items| => if items[i].Some? then items[i].value else [])
  }

  lemma {:induction false} StartAllFacts(u: Upload, items: seq<Item>)
    requires Inv(u)
    ensures Inv(StartAll(u, items))
    ensures u.started <= StartAll(u, items).started && StartAll(u, items).uploaded == u.uploaded
    decreases |items|
  {
    if items != [] {
      StartAllFacts(u, items[..|items| - 1]);
    }
  }

  lemma {:induction false} StartAllChunks(u: Upload, items: seq<Item>)
    requires Inv(u) && u.next + |items| <= MAX_PART_NUMBER
    requires forall i :: 0 <= i < |items| ==> items[i].Some?
    ensures StartAll(u, items).started == u.started + ChunksOf(Parallel(items, Aborted(0)))
    ensures StartAll(u, items).next == u.next + |items|
    decreases |items|
  {
    if items != [] {
      var n := |items| - 1;
      StartAllChunks(u, items[..n]);
      assert ChunksOf(Parallel(items, Aborted(0))) == ChunksOf(Parallel(items[..n], Aborted(0))) + [items[n].value];
    }
  }

  /** The chunks among some items of a stream. */
  function ChunksAmong(items: seq<Item>): seq<ByteString> {
    if items == [] then []
    else
      var item := items[|items| - 1];
      ChunksAmong(items[..|items| - 1]) + if item.Some? then [item.value] else []
  }

  function AtMost9999(started: seq<ByteString>): seq<ByteString> {
    if |started| <= 9999 then started else started[..9999]
  }

  /** Every chunk reached is given the next number, also by a call that then fails, until the numbers run out. */
  lemma {:induction false} StartedAreSpent(u: Upload, items: seq<Item>)
    requires Inv(u)
    ensures StartAll(u, items).started == AtMost9999(u.started + ChunksAmong(items))
    decreases |items|
  {
    if items == [] {
      assert u.started + [] == u.started;
    } else {
      var n := |items| - 1;
      var before, item := u.started + ChunksAmong(items[..n]), items[n];
      StartedAreSpent(u, items[..n]);
      StartAllFacts(u, items[..n]);
      if item.Some? {
        assert u.started + (ChunksAmong(items[..n]) + [item.value]) == before + [item.value];
      } else {
        assert ChunksAmong(items[..n]) + [] == ChunksAmong(items[..n]);
      }
    }
  }

  /** A failed call has spent the numbers of the chunks it reached and recorded none of them. */
  lemma FailedCallSpendsNumbers(u: Upload, e: Event)
    requires Inv(u) && CanHappen(u, e) && !Succeeds(u, e)
    ensures After(u, e).uploaded == u.uploaded
    ensures e.Write? ==> After(u, e).started == AtMost9999(u.started + [e.chunk])
    ensures e.Parallel? ==> After(u, e).started == AtMost9999(u.started + ChunksAmong(e.items[..e.ending.mapped]))
  {
    if e.Parallel? {
      StartedAreSpent(u, e.items[..e.ending.mapped]);
      StartAllFacts(u, e.items[..e.ending.mapped]);
    }
  }

  lemma RecordedGrows(parts: seq<Part>, started: seq<ByteString>, more: seq<ByteString>)
    requires Recorded(parts, started)
    ensures Recorded(parts, started + more)
  {
  }

  lemma NumberedFacts(items: seq<Item>, started: seq<ByteString>, order: seq<nat>)
    requires Permutation(order, |items|) && forall i :: 0 <= i < |items| ==> items[i].Some?
    ensures var added := Numbered(items, |started| + 1, order);
            && Recorded(added, started + ChunksOf(Parallel(items, Completed(order))))
            && DistinctNumbers(added)
            && forall i :: 0 <= i < |added| ==> added[i].number > |started|
  {
  }

  lemma DistinctConcat(a: seq<Part>, b: seq<Part>, n: nat)
    requires DistinctNumbers(a) && DistinctNumbers(b)
    requires forall i :: 0 <= i < |a| ==> a[i].number <= n
    requires forall i :: 0 <= i < |b| ==> b[i].number > n
    ensures DistinctNumbers(a + b)
  {
  }

  lemma AddedStayRecorded(parts: seq<Part>, started: seq<ByteString>, added: seq<Part>, chunks: seq<ByteString>)
    requires Recorded(parts, started) && DistinctNumbers(parts)
    requires Recorded(added, started + chunks) && DistinctNumbers(added)
    requires forall i :: 0 <= i < |added| ==> added[i].number > |started|
    ensures Recorded(parts + added, started + chunks) && DistinctNumbers(parts + added)
  {
    RecordedGrows(parts, started, chunks);
    DistinctConcat(parts, added, |started|);
  }

  lemma ParallelKeepsInv(u: Upload, items: seq<Item>, order: seq<nat>)
    requires Inv(u) && Possible(u, items, Completed(order))
    ensures Inv(AfterParallel(u, items, Completed(order)))
    ensures AfterParallel(u, items, Completed(order)).started == u.started + ChunksOf(Parallel(items, Completed(order)))
  {
    var chunks := ChunksOf(Parallel(items, Completed(order)));
    assert chunks == ChunksOf(Parallel(items, Aborted(0)));
    StartAllChunks(u, items);
    NumberedFacts(items, u.started, order);
    AddedStayRecorded(u.uploaded, u.started, Numbered(items, u.next, order), chunks);
  }

  /** A call keeps numbers distinct and matched to their chunks, also when it fails. */
  lemma EventKeepsInv(u: Upload, e: Event)
    requires Inv(u) && CanHappen(u, e)
    ensures Inv(After(u, e))
    ensures Succeeds(u, e) ==> After(u, e).started == u.started + ChunksOf(e)
    ensures Succeeds(u, e) ==> |After(u, e).uploaded| - |u.uploaded| == |ChunksOf(e)|
    ensures !Succeeds(u, e) ==> After(u, e).uploaded == u.uploaded
    ensures |After(u, e).uploaded| - |u.uploaded| <= |After(u, e).started| - |u.started|
    ensures |After(u, e).uploaded| - |u.uploaded| == |After(u, e).started| - |u.started| <==> LosesNothing(u, e)
  {
    match e
    case Write(chunk, uploads) =>
    case Parallel(items, ending) =>
      match ending
      case Completed(order) => ParallelKeepsInv(u, items, order);
      case Aborted(mapped) => StartAllFacts(u, items[..mapped]);
  }

  // ----- Completing -----

  ghost predicate StrictlyOrdered(parts: seq<Part>) {
    forall i, j :: 0 <= i < j < |parts| ==> parts[i].number < parts[j].number
  }

  lemma {:induction false} InsertFacts(part: Part, parts: seq<Part>)
    requires StrictlyOrdered(parts)
    requires forall i :: 0 <= i < |parts| ==> parts[i].number != part.number
    ensures StrictlyOrdered(Insert(part, parts)) && |Insert(part, parts)| == |parts| + 1
    ensures forall p :: p in Insert(part, parts) <==> p == part || p in parts
  {
    if parts != [] && part.number >= parts[0].number {
      InsertFacts(part, parts[1..]);
      var rest := Insert(part, parts[1..]);
      assert parts == [parts[0]] + parts[1..];
      forall i | 0 <= i < |rest|
        ensures parts[0].number < rest[i].number
      {
        assert rest[i] in rest;
      }
    }
  }

  lemma {:induction false} SortFacts(parts: seq<Part>)
    requires DistinctNumbers(parts)
    ensures StrictlyOrdered(SortedParts(parts)) && |SortedParts(parts)| == |parts|
    ensures forall p :: p in SortedParts(parts) <==> p in parts
  {
    if parts != [] {
      var n := |parts| - 1;
      SortFacts(parts[..n]);
      var sorted := SortedParts(parts[..n]);
      assert parts == parts[..n] + [parts[n]];
      forall i | 0 <= i < |sorted|
        ensures sorted[i].number != parts[n].number
      {
        assert sorted[i] in sorted;
      }
      InsertFacts(parts[n], sorted);
    }
  }

  /** As many ordered numbers as there are numbers leave no gap. */
  lemma {:induction false} NoGaps(parts: seq<Part>, n: nat, i: nat)
    requires StrictlyOrdered(parts) && |parts| == n && i < n
    requires forall j :: 0 <= j < n ==> 1 <= parts[j].number <= n
    ensures parts[i].number == i + 1
  {
    AtLeast(parts, i);
    AtMost(parts, n, i);
  }

  lemma {:induction false} AtLeast(parts: seq<Part>, i: nat)
    requires StrictlyOrdered(parts) && i < |parts|
    requires forall j :: 0 <= j < |parts| ==> 1 <= parts[j].number
    ensures parts[i].number >= i + 1
  {
    if i > 0 {
      AtLeast(parts, i - 1);
    }
  }

  lemma {:induction false} AtMost(parts: seq<Part>, n: nat, i: nat)
    requires StrictlyOrdered(parts) && |parts| == n && i < n
    requires forall j :: 0 <= j < n ==> parts[j].number <= n
    ensures parts[i].number <= i + 1
    decreases n - i
  {
    if i + 1 < n {
      AtMost(parts, n, i + 1);
    }
  }

  /** All started chunks with consecutive numbers from one. */
  function InStreamOrder(chunks: seq<ByteString>): seq<Part> {
    seq(|chunks|, i requires 0 <= i < |chunks| => Part(i + 1, chunks[i]))
  }

  lemma SortedIsNumbered(sorted: seq<Part>, started: seq<ByteString>)
    requires StrictlyOrdered(sorted) && Recorded(sorted, started) && |sorted| == |started|
    ensures sorted == InStreamOrder(started)
  {
    forall i | 0 <= i < |sorted|
      ensures sorted[i] == Part(i + 1, started[i])
    {
      NoGaps(sorted, |sorted|, i);
    }
  }

  lemma SortStaysRecorded(parts: seq<Part>, started: seq<ByteString>)
    requires Recorded(parts, started) && DistinctNumbers(parts)
    ensures Recorded(SortedParts(parts), started)
  {
    SortFacts(parts);
    var sorted := SortedParts(parts);
    forall i | 0 <= i < |sorted|
      ensures 1 <= sorted[i].number <= |started| && started[sorted[i].number - 1] == sorted[i].chunk
    {
      assert sorted[i] in sorted;
    }
  }

  /**
   Whatever order the uploads completed in, the list sent to complete is the started chunks in
   stream order numbered from one, exactly when no started part was lost to a failed call.
   */
  lemma CompletedListIsStreamOrder(u: Upload)
    requires Inv(u)
    ensures SortedParts(u.uploaded) == InStreamOrder(u.started) <==> |u.uploaded| == |u.started|
    ensures StrictlyOrdered(SortedParts(u.uploaded))
  {
    SortFacts(u.uploaded);
    SortStaysRecorded(u.uploaded, u.started);
    if |u.uploaded| == |u.started| {
      SortedIsNumbered(SortedParts(u.uploaded), u.started);
    }
  }

  // ----- Whole uploads -----

  /** A sequence of calls, each of which may succeed or fail. */
  ghost predicate Feasible(u: Upload, events: seq<Event>)
    decreases |events|
  {
    events == [] || (CanHappen(u, events[0]) && Feasible(After(u, events[0]), events[1..]))
  }

  ghost function Final(u: Upload, events: seq<Event>): Upload
    requires Feasible(u, events)
    decreases |events|
  {
    if events == [] then u else Final(After(u, events[0]), events[1..])
  }

  ghost predicate AllSucceed(u: Upload, events: seq<Event>)
    requires Feasible(u, events)
    decreases |events|
  {
    events == [] || (Succeeds(u, events[0]) && AllSucceed(After(u, events[0]), events[1..]))
  }

  ghost predicate AllLoseNothing(u: Upload, events: seq<Event>)
    requires Feasible(u, events)
    decreases |events|
  {
    events == [] || (LosesNothing(u, events[0]) && AllLoseNothing(After(u, events[0]), events[1..]))
  }

  lemma {:induction false} RunsKeepInv(u: Upload, events: seq<Event>)
    requires Inv(u) && Feasible(u, events)
    ensures Inv(Final(u, events))
    ensures |Final(u, events).uploaded| - |u.uploaded| <= |Final(u, events).started| - |u.started|
    ensures |Final(u, events).uploaded| - |u.uploaded| == |Final(u, events).started| - |u.started| <==> AllLoseNothing(u, events)
    decreases |events|
  {
    if events != [] {
      EventKeepsInv(u, events[0]);
      RunsKeepInv(After(u, events[0]), events[1..]);
    }
  }

  /**
   Over any mix of sequential and parallel writes, failed ones included: recorded numbers are distinct and
   carry the chunks they were given to, at most 9999 parts are ever started, and the next start fails
   exactly then.
   */
  lemma NumbersStayDistinct(events: seq<Event>)
    requires Feasible(Fresh(), events)
    ensures var u := Final(Fresh(), events);
            && DistinctNumbers(u.uploaded) && Recorded(u.uploaded, u.started)
            && |u.started| <= 9999 && (CanStart(u) <==> |u.started| < 9999)
  {
    RunsKeepInv(Fresh(), events);
  }

  /**
   Over any such mix the completed list is every started chunk in stream order, numbered from one,
   exactly when no call failed after giving out a number.
   */
  lemma CompletedListIffNothingLost(events: seq<Event>)
    requires Feasible(Fresh(), events)
    ensures var u := Final(Fresh(), events);
            SortedParts(u.uploaded) == InStreamOrder(u.started) <==> AllLoseNothing(Fresh(), events)
  {
    RunsKeepInv(Fresh(), events);
    CompletedListIsStreamOrder(Final(Fresh(), events));
  }

  function Input(events: seq<Event>): seq<ByteString>
    decreases |events|
  {
    if events == [] then [] else ChunksOf(events[0]) + Input(events[1..])
  }

  function Concat(chunks: seq<ByteString>): ByteString {
    if chunks == [] then [] else chunks[0] + Concat(chunks[1..])
  }

  function Contents(parts: seq<Part>): ByteString {
    if parts == [] then [] else parts[0].chunk + Contents(parts[1..])
  }

  lemma {:induction false} RunStartsInput(u: Upload, events: seq<Event>)
    requires Inv(u) && |u.uploaded| == |u.started| && Feasible(u, events) && AllSucceed(u, events)
    ensures Inv(Final(u, events)) && |Final(u, events).uploaded| == |Final(u, events).started|
    ensures Final(u, events).started == u.started + Input(events)
    decreases |events|
  {
    if events == [] {
      assert u.started + [] == u.started;
    } else {
      EventKeepsInv(u, events[0]);
      RunStartsInput(After(u, events[0]), events[1..]);
      assert u.started + ChunksOf(events[0]) + Input(events[1..]) == u.started + (ChunksOf(events[0]) + Input(events[1..]));
    }
  }

  lemma {:induction false} ContentsInOrder(parts: seq<Part>, chunks: seq<ByteString>)
    requires |parts| == |chunks| && forall i :: 0 <= i < |parts| ==> parts[i].chunk == chunks[i]
    ensures Contents(parts) == Concat(chunks)
  {
    if parts != [] {
      ContentsInOrder(parts[1..], chunks[1..]);
    }
  }

  lemma FreshRunStartsInput(events: seq<Event>)
    requires Feasible(Fresh(), events) && AllSucceed(Fresh(), events)
    ensures var u := Final(Fresh(), events);
            Inv(u) && |u.uploaded| == |u.started| && u.started == Input(events)
  {
    RunStartsInput(Fresh(), events);
  }

  /** Any mix of successful sequential and parallel writes, completing in any order, yields the input. */
  lemma UploadedObjectIsTheInput(events: seq<Event>)
    requires Feasible(Fresh(), events) && AllSucceed(Fresh(), events)
    ensures SortedParts(Final(Fresh(), events).uploaded) == InStreamOrder(Input(events))
    ensures Contents(SortedParts(Final(Fresh(), events).uploaded)) == Concat(Input(events))
  {
    FreshRunStartsInput(events);
    CompletedListIsStreamOrder(Final(Fresh(), events));
    ContentsInOrder(InStreamOrder(Input(events)), Input(events));
  }
}
