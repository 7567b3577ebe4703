/** The client pool: clients with bounded concurrency, created only when all existing ones are full. */
module ClientPool {
  import opened Results

  /** Per client, how many borrowers it has: its reference count less the one the pool holds. */
  type Borrowers = seq<nat>

  function Total(clients: Borrowers): nat {
    if clients == [] then 0 else clients[0] + Total(clients[1..])
  }

  /** The first client with room, or one past the end. */
  function FirstFree(clients: Borrowers, maxConcurrency: nat): (r: nat)
    ensures r <= |clients|
    ensures forall i :: 0 <= i < r ==> clients[i] >= maxConcurrency
    ensures r < |clients| ==> clients[r] < maxConcurrency
  {
    if clients == [] || clients[0] < maxConcurrency then 0 else 1 + FirstFree(clients[1..], maxConcurrency)
  }

  function Borrow(clients: Borrowers, maxConcurrency: nat): Borrowers {
    var i := FirstFree(clients, maxConcurrency);
    if i < |clients| then clients[i := clients[i] + 1] else clients + [1]
  }

  predicate CanReturn(clients: Borrowers, i: nat) {
    i < |clients| && clients[i] > 0
  }

  function Return(clients: Borrowers, i: nat): Borrowers
    requires CanReturn(clients, i)
  {
    clients[i := clients[i] - 1]
  }

  datatype PoolError = NotPositive

  class Pool {
    var clients: Borrowers
    const maxConcurrency: nat

    constructor (maxConcurrency: nat)
      ensures clients == [] && this.maxConcurrency == maxConcurrency
    {
      this.clients := [];
      this.maxConcurrency := maxConcurrency;
    }

    static method Create(maxConcurrency: nat) returns (r: Result<Pool, PoolError>)
      ensures r.Success? <==> maxConcurrency > 0
      ensures r.Success? ==> fresh(r.value) && r.value.clients == [] && r.value.maxConcurrency == maxConcurrency
    {
      if maxConcurrency == 0 {
        return Failure(NotPositive);
      }
      var pool := new Pool(maxConcurrency);
      return Success(pool);
    }

    method Get() returns (client: nat)
      modifies this
      ensures client == FirstFree(old(clients), maxConcurrency)
      ensures clients == Borrow(old(clients), maxConcurrency)
      ensures |clients| == if client < |old(clients)| then |old(clients)| else |old(clients)| + 1
      ensures client < |clients| && forall i :: 0 <= i < |clients| ==>
                clients[i] == (if i < |old(clients)| then old(clients)[i] else 0) + (if i == client then 1 else 0)
    {
      var i := 0;
      while i < |clients|
        invariant 0 <= i <= |clients| && clients == old(clients)
        invariant forall j :: 0 <= j < i ==> clients[j] >= maxConcurrency
      {
        if clients[i] < maxConcurrency {
          FirstFreeIsFirst(clients, maxConcurrency, i);
          clients := clients[i := clients[i] + 1];
          return i;
        }
        i := i + 1;
      }
      FirstFreeIsFirst(clients, maxConcurrency, i);
      clients := clients + [1];
      return |clients| - 1;
    }

    method Drop(i: nat)
      requires CanReturn(clients, i)
      modifies this
      ensures clients == Return(old(clients), i)
    {
      clients := clients[i := clients[i] - 1];
    }
  }

  lemma FirstFreeIsFirst(clients: Borrowers, maxConcurrency: nat, i: nat)
    requires i <= |clients|
    requires forall j :: 0 <= j < i ==> clients[j] >= maxConcurrency
    requires i < |clients| ==> clients[i] < maxConcurrency
    ensures FirstFree(clients, maxConcurrency) == i
  {
  }

  // ----- Runs -----

  datatype Event = Borrowed | Returned(client: nat)

  ghost predicate Feasible(clients: Borrowers, maxConcurrency: nat, events: seq<Event>)
    decreases |events|
  {
    events == [] ||
    match events[0]
    case Borrowed => Feasible(Borrow(clients, maxConcurrency), maxConcurrency, events[1..])
    case Returned(i) => CanReturn(clients, i) && Feasible(Return(clients, i), maxConcurrency, events[1..])
  }

  function After(clients: Borrowers, maxConcurrency: nat, events: seq<Event>): Borrowers
    requires Feasible(clients, maxConcurrency, events)
    decreases |events|
  {
    if events == [] then clients
    else match events[0]
      case Borrowed => After(Borrow(clients, maxConcurrency), maxConcurrency, events[1..])
      case Returned(i) => After(Return(clients, i), maxConcurrency, events[1..])
  }

  function Max(a: nat, b: nat): nat {
    if a < b then b else a
  }

  /** The most simultaneous borrows of a run, counted from the events alone. */
  function Peak(current: nat, events: seq<Event>): nat
    decreases |events|
  {
    if events == [] then current
    else match events[0]
      case Borrowed => Max(current, Peak(current + 1, events[1..]))
      case Returned(_) => Max(current, Peak(if current > 0 then current - 1 else 0, events[1..]))
  }

  /** What `n` clients can carry. */
  function Capacity(n: nat, maxConcurrency: nat): nat {
    if n == 0 then 0 else maxConcurrency + Capacity(n - 1, maxConcurrency)
  }

  /** `n` clients are the fewest that can carry `peak` borrows. */
  predicate Fewest(n: nat, peak: nat, maxConcurrency: nat) {
    peak <= Capacity(n, maxConcurrency) && (n == 0 || Capacity(n - 1, maxConcurrency) < peak)
  }

  lemma {:induction false} CapacityIsProduct(n: nat, maxConcurrency: nat)
    ensures Capacity(n, maxConcurrency) == n * maxConcurrency
  {
    if n > 0 {
      CapacityIsProduct(n - 1, maxConcurrency);
      assert n * maxConcurrency == (n - 1) * maxConcurrency + maxConcurrency;
    }
  }

  lemma QuotientIsUnique(x: nat, d: nat, q: nat)
    requires d > 0 && q * d <= x < q * d + d
    ensures x / d == q
  {
    var k := x / d;
    assert x == k * d + x % d;
    assert k < q ==> (k + 1) * d <= q * d;
    assert k > q ==> (q + 1) * d <= k * d;
  }

  /** The fewest is the rounded-up quotient. */
  lemma FewestIsCeiling(n: nat, peak: nat, maxConcurrency: nat)
    requires maxConcurrency > 0 && Fewest(n, peak, maxConcurrency)
    ensures n == (peak + maxConcurrency - 1) / maxConcurrency
  {
    CapacityIsProduct(n, maxConcurrency);
    QuotientIsUnique(peak + maxConcurrency - 1, maxConcurrency, n);
  }

  lemma {:induction false} TotalUpdate(clients: Borrowers, i: nat, n: nat)
    requires i < |clients|
    ensures Total(clients[i := n]) + clients[i] == Total(clients) + n
  {
    if i == 0 {
      assert clients[i := n][1..] == clients[1..];
    } else {
      assert clients[i := n][1..] == clients[1..][i - 1 := n];
      TotalUpdate(clients[1..], i - 1, n);
    }
  }

  lemma {:induction false} TotalAppend(clients: Borrowers, n: nat)
    ensures Total(clients + [n]) == Total(clients) + n
  {
    if clients != [] {
      assert (clients + [n])[1..] == clients[1..] + [n];
      TotalAppend(clients[1..], n);
    }
  }

  ghost predicate Bounded(clients: Borrowers, maxConcurrency: nat) {
    forall i :: 0 <= i < |clients| ==> clients[i] <= maxConcurrency
  }

  lemma {:induction false} TotalBounds(clients: Borrowers, maxConcurrency: nat)
    requires Bounded(clients, maxConcurrency)
    ensures Total(clients) <= Capacity(|clients|, maxConcurrency)
    ensures FirstFree(clients, maxConcurrency) == |clients| <==> Total(clients) == Capacity(|clients|, maxConcurrency)
  {
    if clients != [] {
      TotalBounds(clients[1..], maxConcurrency);
    }
  }

  lemma BorrowCounts(clients: Borrowers, maxConcurrency: nat)
    requires maxConcurrency > 0 && Bounded(clients, maxConcurrency)
    ensures Bounded(Borrow(clients, maxConcurrency), maxConcurrency)
    ensures Total(Borrow(clients, maxConcurrency)) == Total(clients) + 1
  {
    var i := FirstFree(clients, maxConcurrency);
    if i < |clients| {
      TotalUpdate(clients, i, clients[i] + 1);
    } else {
      TotalAppend(clients, 1);
    }
  }

  /** A client is created only when the existing ones are full, so the clients stay the fewest for the peak. */
  lemma BorrowStaysFewest(clients: Borrowers, maxConcurrency: nat, peak: nat)
    requires maxConcurrency > 0 && Bounded(clients, maxConcurrency)
    requires Total(clients) <= peak && Fewest(|clients|, peak, maxConcurrency)
    ensures Fewest(|Borrow(clients, maxConcurrency)|, Max(peak, Total(clients) + 1), maxConcurrency)
  {
    var n := |clients|;
    TotalBounds(clients, maxConcurrency);
    assert Capacity(n + 1, maxConcurrency) == maxConcurrency + Capacity(n, maxConcurrency);
    if FirstFree(clients, maxConcurrency) < n {
      assert |Borrow(clients, maxConcurrency)| == n;
    } else {
      assert |Borrow(clients, maxConcurrency)| == n + 1;
    }
  }

  /**
   Over every sequence of borrows and drops no client has more borrowers than allowed, and the
   clients created are exactly as many as the peak of simultaneous borrows requires.
   */
  lemma {:induction false} CreatesOnlyWhatThePeakNeeds(
    clients: Borrowers, maxConcurrency: nat, events: seq<Event>, peak: nat)
    requires maxConcurrency > 0 && Bounded(clients, maxConcurrency)
    requires Total(clients) <= peak && Fewest(|clients|, peak, maxConcurrency)
    requires Feasible(clients, maxConcurrency, events)
    ensures Bounded(After(clients, maxConcurrency, events), maxConcurrency)
    ensures Fewest(|After(clients, maxConcurrency, events)|, Max(peak, Peak(Total(clients), events)), maxConcurrency)
    decreases |events|
  {
    if events != [] {
      match events[0]
      case Borrowed =>
        BorrowCounts(clients, maxConcurrency);
        BorrowStaysFewest(clients, maxConcurrency, peak);
        CreatesOnlyWhatThePeakNeeds(
          Borrow(clients, maxConcurrency), maxConcurrency, events[1..], Max(peak, Total(clients) + 1));
        PeakAtLeast(Total(clients) + 1, events[1..]);
        assert Max(peak, Peak(Total(clients), events)) == Max(Max(peak, Total(clients) + 1), Peak(Total(clients) + 1, events[1..]));
      case Returned(i) =>
        TotalUpdate(clients, i, clients[i] - 1);
        CreatesOnlyWhatThePeakNeeds(Return(clients, i), maxConcurrency, events[1..], peak);
        assert Max(peak, Peak(Total(clients), events)) == Max(peak, Peak(Total(clients) - 1, events[1..]));
    }
  }

  lemma PeakAtLeast(current: nat, events: seq<Event>)
    ensures Peak(current, events) >= current
  {
  }

  /** For a fresh pool: the number of clients created is the peak divided by the concurrency, rounded up. */
  lemma ClientsCreatedIsCeilingOfPeak(maxConcurrency: nat, events: seq<Event>)
    requires maxConcurrency > 0 && Feasible([], maxConcurrency, events)
    ensures |After([], maxConcurrency, events)| == (Peak(0, events) + maxConcurrency - 1) / maxConcurrency
    ensures Bounded(After([], maxConcurrency, events), maxConcurrency)
  {
    CreatesOnlyWhatThePeakNeeds([], maxConcurrency, events, 0);
    FewestIsCeiling(|After([], maxConcurrency, events)|, Peak(0, events), maxConcurrency);
  }
}
