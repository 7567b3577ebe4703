/** The adaptive FIFO/LIFO queue with controlled delay, and the channel built on it. */
module CoDel {
  import opened Results

  datatype QueueFull = QueueFull

  datatype Entry<T> = Entry(item: T, deadline: int)

  datatype Queue<T> = Queue(
    buffer: seq<Entry<T>>,
    capacity: nat,
    lastTimeEmpty: int,
    idleExpiration: nat,
    congestedExpiration: nat)

  /** What a pop yields: the item, and whether its deadline had passed. */
  datatype Popped<T> = Popped(item: T, expired: bool)

  /** The clock readings one `push` makes, in order. */
  datatype PushClock = PushClock(emptied: int, tested: int, stamped: int) {
    predicate From(start: int) {
      start <= emptied <= tested <= stamped
    }
  }

  /** The clock readings one `pop` makes, in order. */
  datatype PopClock = PopClock(now: int, checked: int, tested: int, after: int) {
    predicate From(start: int) {
      start <= now <= checked <= tested <= after
    }
  }

  // ----- Specification of the operations -----

  predicate Idle<T>(q: Queue<T>, now: int) {
    q.lastTimeEmpty + q.idleExpiration > now
  }

  function TouchIfEmpty<T>(q: Queue<T>, now: int): Queue<T> {
    if q.buffer == [] then q.(lastTimeEmpty := now) else q
  }

  function AfterPush<T>(q: Queue<T>, item: T, c: PushClock): Result<Queue<T>, QueueFull> {
    if |q.buffer| >= q.capacity then Failure(QueueFull)
    else
      var touched := TouchIfEmpty(q, c.emptied);
      var expiration := if Idle(touched, c.tested) then q.idleExpiration else q.congestedExpiration;
      Success(touched.(buffer := q.buffer + [Entry(item, c.stamped + expiration)]))
  }

  /** An expired head is drained first; otherwise the mode decides which end is served. */
  predicate TakesFront<T>(q: Queue<T>, c: PopClock)
    requires q.buffer != []
  {
    q.buffer[0].deadline < c.now || Idle(q, c.tested)
  }

  function Served<T>(q: Queue<T>, c: PopClock): Entry<T>
    requires q.buffer != []
  {
    if TakesFront(q, c) then q.buffer[0] else q.buffer[|q.buffer| - 1]
  }

  function AfterPop<T>(q: Queue<T>, c: PopClock): Queue<T> {
    if q.buffer == [] then TouchIfEmpty(q, c.after)
    else
      var rest := if TakesFront(q, c) then q.buffer[1..] else q.buffer[..|q.buffer| - 1];
      TouchIfEmpty(q.(buffer := rest), c.after)
  }

  function PopResult<T>(q: Queue<T>, c: PopClock): Option<Popped<T>> {
    if q.buffer == [] then None
    else Some(Popped(Served(q, c).item, Served(q, c).deadline < c.now))
  }

  // ----- What the operations do, field by field -----

  /**
   A pop of a nonempty queue drains an expired head first; otherwise it serves the oldest item while the
   queue was empty recently enough, and the newest one when it was not. An empty queue yields nothing.
   */
  lemma PopServes<T>(q: Queue<T>, c: PopClock)
    ensures q.buffer == [] ==> PopResult(q, c) == None && AfterPop(q, c) == q.(lastTimeEmpty := c.after)
    ensures q.buffer != [] ==>
              var first, last := q.buffer[0], q.buffer[|q.buffer| - 1];
              && AfterPop(q, c) == q.(buffer := AfterPop(q, c).buffer, lastTimeEmpty := AfterPop(q, c).lastTimeEmpty)
              && AfterPop(q, c).lastTimeEmpty == (if |q.buffer| == 1 then c.after else q.lastTimeEmpty)
              && (first.deadline < c.now ==>
                    PopResult(q, c) == Some(Popped(first.item, true)) && AfterPop(q, c).buffer == q.buffer[1..])
              && (first.deadline >= c.now && q.lastTimeEmpty + q.idleExpiration > c.tested ==>
                    PopResult(q, c) == Some(Popped(first.item, false)) && AfterPop(q, c).buffer == q.buffer[1..])
              && (first.deadline >= c.now && q.lastTimeEmpty + q.idleExpiration <= c.tested ==>
                    && PopResult(q, c) == Some(Popped(last.item, last.deadline < c.now))
                    && AfterPop(q, c).buffer == q.buffer[..|q.buffer| - 1])
  {
  }

  /**
   A push into a full queue is refused. An empty queue counts as emptied just now; the deadline is the last
   clock reading plus the idle expiration if the queue was empty recently enough, and plus the congested one
   if not.
   */
  lemma PushStores<T>(q: Queue<T>, item: T, c: PushClock)
    ensures AfterPush(q, item, c) == Failure(QueueFull) <==> |q.buffer| >= q.capacity
    ensures |q.buffer| < q.capacity ==>
              var emptied := if q.buffer == [] then c.emptied else q.lastTimeEmpty;
              && AfterPush(q, item, c).Success?
              && AfterPush(q, item, c).value.lastTimeEmpty == emptied
              && AfterPush(q, item, c).value == q.(buffer := AfterPush(q, item, c).value.buffer, lastTimeEmpty := emptied)
              && (emptied + q.idleExpiration > c.tested ==>
                    AfterPush(q, item, c).value.buffer == q.buffer + [Entry(item, c.stamped + q.idleExpiration)])
              && (emptied + q.idleExpiration <= c.tested ==>
                    AfterPush(q, item, c).value.buffer == q.buffer + [Entry(item, c.stamped + q.congestedExpiration)])
  {
  }

  // ----- The queue object -----

  class CoDelQueue<T> {
    var buffer: seq<Entry<T>>
    const capacity: nat
    var lastTimeEmpty: int
    const idleExpiration: nat
    const congestedExpiration: nat

    function State(): Queue<T>
      reads this
    {
      Queue(buffer, capacity, lastTimeEmpty, idleExpiration, congestedExpiration)
    }

    constructor (now: int, capacity: nat, idleExpiration: nat, congestedExpiration: nat)
      ensures State() == Queue([], capacity, now, idleExpiration, congestedExpiration)
    {
      this.buffer := [];
      this.capacity := capacity;
      this.lastTimeEmpty := now;
      this.idleExpiration := idleExpiration;
      this.congestedExpiration := congestedExpiration;
    }

    method UpdateLastTimeEmpty(now: int)
      modifies this
      ensures State() == TouchIfEmpty(old(State()), now)
    {
      if |buffer| == 0 {
        lastTimeEmpty := now;
      }
    }

    method IsIdle(checked: int, tested: int) returns (idle: bool)
      modifies this
      ensures State() == TouchIfEmpty(old(State()), checked)
      ensures idle == Idle(State(), tested)
    {
      UpdateLastTimeEmpty(checked);
      idle := lastTimeEmpty + idleExpiration > tested;
    }

    method Push(item: T, first: int, c: PushClock) returns (r: Result<(), QueueFull>)
      requires c.From(first)
      modifies this
      ensures r.Failure? <==> AfterPush(old(State()), item, c).Failure?
      ensures r.Success? ==> State() == AfterPush(old(State()), item, c).value
      ensures r.Failure? ==> State() == old(State())
    {
      if |buffer| >= capacity {
        return Failure(QueueFull);
      }
      UpdateLastTimeEmpty(first);
      var idle := IsIdle(c.emptied, c.tested);
      var expiration := if idle then idleExpiration else congestedExpiration;
      buffer := buffer + [Entry(item, c.stamped + expiration)];
      return Success(());
    }

    method PopFront(after: int) returns (r: Option<Entry<T>>)
      modifies this
      ensures old(buffer) == [] ==> r == None && State() == TouchIfEmpty(old(State()), after)
      ensures old(buffer) != [] ==> r == Some(old(buffer)[0])
                                    && State() == TouchIfEmpty(old(State()).(buffer := old(buffer)[1..]), after)
    {
      if |buffer| == 0 {
        r := None;
      } else {
        r := Some(buffer[0]);
        buffer := buffer[1..];
      }
      UpdateLastTimeEmpty(after);
    }

    method PopBack(after: int) returns (r: Option<Entry<T>>)
      modifies this
      ensures old(buffer) == [] ==> r == None && State() == TouchIfEmpty(old(State()), after)
      ensures old(buffer) != [] ==>
                r == Some(old(buffer)[|old(buffer)| - 1])
                && State() == TouchIfEmpty(old(State()).(buffer := old(buffer)[..|old(buffer)| - 1]), after)
    {
      if |buffer| == 0 {
        r := None;
      } else {
        r := Some(buffer[|buffer| - 1]);
        buffer := buffer[..|buffer| - 1];
      }
      UpdateLastTimeEmpty(after);
    }

    method Pop(c: PopClock) returns (r: Option<Popped<T>>)
      modifies this
      ensures State() == AfterPop(old(State()), c)
      ensures r == PopResult(old(State()), c)
    {
      var taken: Option<Entry<T>>;
      if |buffer| > 0 && buffer[0].deadline < c.now {
        taken := PopFront(c.after);
      } else {
        var idle := IsIdle(c.checked, c.tested);
        if idle {
          taken := PopFront(c.after);
        } else {
          taken := PopBack(c.after);
        }
      }
      match taken
      case None => r := None;
      case Some(e) => r := Some(Popped(e.item, e.deadline < c.now));
    }
  }

  // ----- Runs, with a record of every accepted push -----

  datatype Event<T> = PushEvent(item: T, push: PushClock) | PopEvent(pop: PopClock)

  /** One accepted push: what was stored and which expiration was applied. */
  datatype Ticket<T> = Ticket(item: T, deadline: int, idle: bool)

  /** A queue with its past: all tickets, those still buffered and those popped, by ticket number. */
  datatype Past<T> = Past(q: Queue<T>, tickets: seq<Ticket<T>>, buffered: seq<nat>, popped: seq<nat>, clock: int)

  type Run<T> = r: Past<T> | |r.buffered| == |r.q.buffer| witness Past(Queue([], 0, 0, 0, 0), [], [], [], 0)

  predicate InTime<T>(start: int, e: Event<T>) {
    match e
    case PushEvent(_, c) => c.From(start)
    case PopEvent(c) => c.From(start)
  }

  function Finish<T>(e: Event<T>): int {
    match e
    case PushEvent(_, c) => c.stamped
    case PopEvent(c) => c.after
  }

  function Start<T>(now: int, capacity: nat, idleExpiration: nat, congestedExpiration: nat): Run<T> {
    Past(Queue([], capacity, now, idleExpiration, congestedExpiration), [], [], [], now)
  }

  function Step<T>(r: Run<T>, e: Event<T>): Run<T> {
    match e
    case PushEvent(item, c) =>
      (match AfterPush(r.q, item, c)
       case Failure(_) => r.(clock := c.stamped)
       case Success(q') =>
         var idle := Idle(TouchIfEmpty(r.q, c.emptied), c.tested);
         Past(q', r.tickets + [Ticket(item, q'.buffer[|r.q.buffer|].deadline, idle)],
             r.buffered + [|r.tickets|], r.popped, c.stamped))
    case PopEvent(c) =>
      var q' := AfterPop(r.q, c);
      if r.q.buffer == [] then r.(q := q', clock := c.after)
      else
        var n := |r.buffered| - 1;
        var front := TakesFront(r.q, c);
        Past(q', r.tickets, if front then r.buffered[1..] else r.buffered[..n],
            r.popped + [if front then r.buffered[0] else r.buffered[n]], c.after)
  }

  ghost predicate Matches<T>(r: Run<T>) {
    && |r.buffered| == |r.q.buffer| <= r.q.capacity
    && (forall i :: 0 <= i < |r.buffered| ==>
          && r.buffered[i] < |r.tickets|
          && r.q.buffer[i] == Entry(r.tickets[r.buffered[i]].item, r.tickets[r.buffered[i]].deadline))
    && (forall i, j :: 0 <= i < j < |r.buffered| ==> r.buffered[i] < r.buffered[j])
  }

  /** Every accepted push is buffered or popped, exactly once. */
  ghost predicate Conserved<T>(r: Run<T>) {
    && (forall i :: 0 <= i < |r.popped| ==> r.popped[i] < |r.tickets|)
    && (forall n: nat :: (multiset(r.buffered) + multiset(r.popped))[n] == if n < |r.tickets| then 1 else 0)
  }

  /** The items of the tickets recorded as popped. */
  ghost function PoppedItems<T>(r: Run<T>): seq<T>
    requires Conserved(r)
  {
    seq(|r.popped|, i requires 0 <= i < |r.popped| => r.tickets[r.popped[i]].item)
  }

  function TicketAt<T>(r: Run<T>, i: nat): Ticket<T>
    requires i < |r.buffered| && r.buffered[i] < |r.tickets|
  {
    r.tickets[r.buffered[i]]
  }

  /** A run of idle-deadline items, then a run of congested-deadline items, each with ordered deadlines. */
  ghost predicate TwoRuns<T>(r: Run<T>)
    requires Matches(r)
  {
    forall i, j :: 0 <= i < j < |r.buffered| ==>
      && (TicketAt(r, j).idle ==> TicketAt(r, i).idle)
      && (TicketAt(r, i).idle == TicketAt(r, j).idle ==> TicketAt(r, i).deadline <= TicketAt(r, j).deadline)
  }

  ghost predicate Timely<T>(r: Run<T>)
    requires Matches(r)
  {
    && r.q.lastTimeEmpty <= r.clock
    && forall i :: 0 <= i < |r.buffered| ==>
         var t := TicketAt(r, i);
         if t.idle then r.q.lastTimeEmpty + r.q.idleExpiration <= t.deadline <= r.clock + r.q.idleExpiration
         else !Idle(r.q, r.clock) && t.deadline <= r.clock + r.q.congestedExpiration
  }

  ghost predicate Inv<T>(r: Run<T>) {
    Matches(r) && Conserved(r) && TwoRuns(r) && Timely(r)
  }

  lemma StepKeepsInv<T>(r: Run<T>, e: Event<T>)
    requires Inv(r) && InTime(r.clock, e)
    ensures Inv(Step(r, e)) && Step(r, e).clock == Finish(e)
  {
    match e
    case PushEvent(item, c) =>
      PushKeepsInv(r, item, c);
    case PopEvent(c) =>
      PopKeepsInv(r, c);
  }

  lemma PushConserves<T>(r: Run<T>, item: T, c: PushClock)
    requires Conserved(r)
    ensures Conserved(Step(r, PushEvent(item, c)))
  {
    var r' := Step(r, PushEvent(item, c));
    if |r.q.buffer| < r.q.capacity {
      var number: nat := |r.tickets|;
      assert multiset(r'.buffered) == multiset(r.buffered) + multiset{number};
      forall n: nat
        ensures (multiset(r'.buffered) + multiset(r'.popped))[n] == if n < |r'.tickets| then 1 else 0
      {
        assert (multiset(r.buffered) + multiset(r.popped))[n] == if n < |r.tickets| then 1 else 0;
      }
    }
  }

  lemma PushKeepsShape<T>(r: Run<T>, item: T, c: PushClock)
    requires Matches(r) && TwoRuns(r) && Timely(r) && c.From(r.clock)
    ensures Matches(Step(r, PushEvent(item, c))) && TwoRuns(Step(r, PushEvent(item, c)))
  {
    var r' := Step(r, PushEvent(item, c));
    assert Matches(r');
    assert forall i :: 0 <= i < |r.buffered| ==> TicketAt(r', i) == TicketAt(r, i);
  }

  lemma PushKeepsInv<T>(r: Run<T>, item: T, c: PushClock)
    requires Inv(r) && c.From(r.clock)
    ensures Inv(Step(r, PushEvent(item, c)))
  {
    var r' := Step(r, PushEvent(item, c));
    PushConserves(r, item, c);
    PushKeepsShape(r, item, c);
    assert forall i :: 0 <= i < |r.buffered| ==> TicketAt(r', i) == TicketAt(r, i);
  }

  lemma PopMovesNumber<T>(r: Run<T>, c: PopClock)
    requires r.q.buffer != []
    ensures var r' := Step(r, PopEvent(c));
            && multiset(r'.buffered) + multiset(r'.popped) == multiset(r.buffered) + multiset(r.popped)
            && |r'.popped| == |r.popped| + 1 && r'.popped[|r.popped|] in r.buffered
  {
    var n := |r.buffered| - 1;
    if TakesFront(r.q, c) {
      assert r.buffered == [r.buffered[0]] + r.buffered[1..];
    } else {
      assert r.buffered == r.buffered[..n] + [r.buffered[n]];
    }
  }

  lemma BufferedInRange<T>(r: Run<T>, number: nat)
    requires Conserved(r) && number in r.buffered
    ensures number < |r.tickets|
  {
    assert number in multiset(r.buffered);
    assert (multiset(r.buffered) + multiset(r.popped))[number] > 0;
  }

  lemma PopConserves<T>(r: Run<T>, c: PopClock)
    requires Conserved(r)
    ensures Conserved(Step(r, PopEvent(c)))
  {
    if r.q.buffer != [] {
      PopMovesNumber(r, c);
      BufferedInRange(r, Step(r, PopEvent(c)).popped[|r.popped|]);
    }
  }

  /** Dropping tickets at either end keeps the shape of the rest. */
  lemma SliceKeepsShape<T>(r: Run<T>, r': Run<T>, shift: nat)
    requires Matches(r) && TwoRuns(r)
    requires r'.tickets == r.tickets && r'.q.capacity == r.q.capacity && |r'.buffered| + shift <= |r.buffered|
    requires forall i :: 0 <= i < |r'.buffered| ==>
               r'.buffered[i] == r.buffered[i + shift] && r'.q.buffer[i] == r.q.buffer[i + shift]
    ensures Matches(r') && TwoRuns(r')
    ensures forall i :: 0 <= i < |r'.buffered| ==> TicketAt(r', i) == TicketAt(r, i + shift)
  {
    assert Matches(r');
    assert forall i :: 0 <= i < |r'.buffered| ==> TicketAt(r', i) == TicketAt(r, i + shift);
  }

  lemma PopKeepsInv<T>(r: Run<T>, c: PopClock)
    requires Inv(r) && c.From(r.clock)
    ensures Inv(Step(r, PopEvent(c)))
  {
    var r' := Step(r, PopEvent(c));
    PopConserves(r, c);
    SliceKeepsShape(r, r', if r.q.buffer != [] && TakesFront(r.q, c) then 1 else 0);
  }

  ghost predicate Admissible<T>(clock: int, es: seq<Event<T>>)
    decreases |es|
  {
    es == [] || (InTime(clock, es[0]) && Admissible(Finish(es[0]), es[1..]))
  }

  function After<T>(r: Run<T>, es: seq<Event<T>>): Run<T>
    decreases |es|
  {
    if es == [] then r else After(Step(r, es[0]), es[1..])
  }

  /** Every run over a non-decreasing clock keeps the whole invariant. */
  lemma {:induction false} RunsKeepInv<T>(r: Run<T>, es: seq<Event<T>>)
    requires Inv(r) && Admissible(r.clock, es)
    ensures Inv(After(r, es)) && After(r, es).clock >= r.clock
    decreases |es|
  {
    if es != [] {
      StepKeepsInv(r, es[0]);
      RunsKeepInv(Step(r, es[0]), es[1..]);
    }
  }

  // ----- What holds in every reachable queue -----

  /** A run of pushes and pops from an empty queue, over a non-decreasing clock. */
  ghost predicate FreshRun<T>(s: Run<T>, es: seq<Event<T>>) {
    && s == Start(s.clock, s.q.capacity, s.q.idleExpiration, s.q.congestedExpiration)
    && Admissible(s.clock, es)
  }

  /** Every reachable queue has the whole invariant. */
  lemma ReachableInv<T>(s: Run<T>, es: seq<Event<T>>)
    requires FreshRun(s, es)
    ensures Inv(s) && Inv(After(s, es))
  {
    RunsKeepInv(s, es);
  }

  /** Idle-deadline items before `split`, congested-deadline items from there on, deadlines ordered in each part. */
  ghost predicate SplitsAt<T>(r: Run<T>, split: nat)
    requires Matches(r)
  {
    && split <= |r.q.buffer|
    && (forall i :: 0 <= i < |r.q.buffer| ==> (TicketAt(r, i).idle <==> i < split))
    && (forall i, j :: 0 <= i < j < split ==> r.q.buffer[i].deadline <= r.q.buffer[j].deadline)
    && (forall i, j :: split <= i < j < |r.q.buffer| ==> r.q.buffer[i].deadline <= r.q.buffer[j].deadline)
  }

  /** Every reachable buffer is within capacity and splits that way. */
  lemma BufferIsTwoRuns<T>(s: Run<T>, es: seq<Event<T>>) returns (split: nat)
    requires FreshRun(s, es)
    ensures Matches(After(s, es)) && |After(s, es).q.buffer| <= After(s, es).q.capacity
    ensures SplitsAt(After(s, es), split)
  {
    var r := After(s, es);
    ReachableInv(s, es);
    split := SplitPoint(r, |r.q.buffer|);
    SplitOrdered(r, split);
  }

  lemma SplitOrdered<T>(r: Run<T>, split: nat)
    requires Matches(r) && TwoRuns(r) && split <= |r.q.buffer|
    requires forall i :: 0 <= i < |r.q.buffer| ==> (TicketAt(r, i).idle <==> i < split)
    ensures SplitsAt(r, split)
  {
    assert forall i :: 0 <= i < |r.q.buffer| ==> r.q.buffer[i].deadline == TicketAt(r, i).deadline;
  }

  lemma {:induction false} SplitPoint<T>(r: Run<T>, n: nat) returns (split: nat)
    requires Matches(r) && TwoRuns(r) && n <= |r.q.buffer|
    ensures split <= n && forall i :: 0 <= i < n ==> (TicketAt(r, i).idle <==> i < split)
  {
    if n == 0 || TicketAt(r, n - 1).idle {
      split := n;
    } else {
      split := SplitPoint(r, n - 1);
    }
  }

  lemma IdleLeavesNothingExpired<T>(r: Run<T>, now: int)
    requires Inv(r) && now >= r.clock && Idle(r.q, now)
    ensures forall i :: 0 <= i < |r.q.buffer| ==> r.q.buffer[i].deadline > now
  {
    forall i | 0 <= i < |r.q.buffer|
      ensures r.q.buffer[i].deadline > now
    {
      assert TicketAt(r, i).idle;
    }
  }

  /** Whenever a reachable queue tests idle, every buffered deadline still lies ahead. */
  lemma IdleMeansNothingExpired<T>(s: Run<T>, es: seq<Event<T>>, now: int)
    requires FreshRun(s, es) && now >= After(s, es).clock && Idle(After(s, es).q, now)
    ensures var buffer := After(s, es).q.buffer;
            forall i :: 0 <= i < |buffer| ==> buffer[i].deadline > now
  {
    ReachableInv(s, es);
    IdleLeavesNothingExpired(After(s, es), now);
  }

  ghost predicate NeverEmptied<T>(r: Run<T>, es: seq<Event<T>>)
    decreases |es|
  {
    r.q.buffer != [] && (es == [] || NeverEmptied(Step(r, es[0]), es[1..]))
  }

  lemma {:induction false} CongestionOutlasts<T>(r: Run<T>, es: seq<Event<T>>, now: int)
    requires Inv(r) && Admissible(r.clock, es) && NeverEmptied(r, es)
    requires !Idle(r.q, r.clock) && now >= After(r, es).clock
    ensures !Idle(After(r, es).q, now)
    decreases |es|
  {
    if es != [] {
      StepKeepsInv(r, es[0]);
      CongestionOutlasts(Step(r, es[0]), es[1..], now);
    }
  }

  /** A reachable queue that is congested stays congested until it has been emptied. */
  lemma CongestionPersists<T>(s: Run<T>, before: seq<Event<T>>, es: seq<Event<T>>, now: int)
    requires FreshRun(s, before)
    requires var r := After(s, before);
             Admissible(r.clock, es) && NeverEmptied(r, es) && !Idle(r.q, r.clock) && now >= After(r, es).clock
    ensures !Idle(After(After(s, before), es).q, now)
  {
    ReachableInv(s, before);
    CongestionOutlasts(After(s, before), es, now);
  }

  /** And emptying it ends the congestion, for as long as the idle expiration lasts. */
  lemma EmptyingRestoresIdle<T>(r: Run<T>, c: PopClock, now: int)
    requires |r.q.buffer| == 1 && c.after <= now < c.after + r.q.idleExpiration
    ensures Idle(AfterPop(r.q, c), now)
  {
    assert r.q.buffer[1..] == [] && r.q.buffer[..0] == [];
  }

  // ----- What goes in comes out, once -----

  function Outputs<T>(r: Run<T>, es: seq<Event<T>>): seq<Option<Popped<T>>>
    decreases |es|
  {
    if es == [] then []
    else
      (if es[0].PopEvent? then [PopResult(r.q, es[0].pop)] else []) + Outputs(Step(r, es[0]), es[1..])
  }

  /** The items among what the pops returned. */
  function Delivered<T>(outputs: seq<Option<Popped<T>>>): seq<T> {
    if outputs == [] then []
    else (if outputs[0].Some? then [outputs[0].value.item] else []) + Delivered(outputs[1..])
  }

  function AcceptedNow<T>(r: Run<T>, e: Event<T>): seq<T> {
    if e.PushEvent? && AfterPush(r.q, e.item, e.push).Success? then [e.item] else []
  }

  function DeliveredNow<T>(r: Run<T>, e: Event<T>): seq<T> {
    if e.PopEvent? && PopResult(r.q, e.pop).Some? then [PopResult(r.q, e.pop).value.item] else []
  }

  /** The items of the pushes that were not refused. */
  function Accepted<T>(r: Run<T>, es: seq<Event<T>>): seq<T>
    decreases |es|
  {
    if es == [] then [] else AcceptedNow(r, es[0]) + Accepted(Step(r, es[0]), es[1..])
  }

  lemma DeliveredFirst<T>(r: Run<T>, es: seq<Event<T>>)
    requires es != []
    ensures Delivered(Outputs(r, es)) == DeliveredNow(r, es[0]) + Delivered(Outputs(Step(r, es[0]), es[1..]))
  {
    var later := Outputs(Step(r, es[0]), es[1..]);
    if es[0].PopEvent? {
      assert ([PopResult(r.q, es[0].pop)] + later)[1..] == later;
    } else {
      assert [] + later == later;
    }
  }

  function Items<T>(q: Queue<T>): seq<T> {
    seq(|q.buffer|, i requires 0 <= i < |q.buffer| => q.buffer[i].item)
  }

  ghost function TicketItems<T>(tickets: seq<Ticket<T>>): seq<T> {
    seq(|tickets|, i requires 0 <= i < |tickets| => tickets[i].item)
  }

  /**
   `delivered` and `left` are the accepted items, each exactly once: `order` and `rest` give the place
   of every item among the accepted ones.
   */
  ghost predicate Distributed<T>(accepted: seq<T>, delivered: seq<T>, order: seq<nat>, left: seq<T>, rest: seq<nat>) {
    && |order| == |delivered| && |rest| == |left|
    && (forall k :: 0 <= k < |order| ==> order[k] < |accepted| && delivered[k] == accepted[order[k]])
    && (forall k :: 0 <= k < |rest| ==> rest[k] < |accepted| && left[k] == accepted[rest[k]])
    && (forall n: nat :: (multiset(rest) + multiset(order))[n] == if n < |accepted| then 1 else 0)
  }

  lemma {:induction false} TicketsAreAccepted<T>(r: Run<T>, es: seq<Event<T>>)
    ensures TicketItems(After(r, es).tickets) == TicketItems(r.tickets) + Accepted(r, es)
    decreases |es|
  {
    if es == [] {
      assert TicketItems(r.tickets) + [] == TicketItems(r.tickets);
    } else {
      var r' := Step(r, es[0]);
      StepAccepts(r, es[0]);
      TicketsAreAccepted(r', es[1..]);
      ConcatAssociates(TicketItems(r.tickets), AcceptedNow(r, es[0]), Accepted(r', es[1..]));
    }
  }

  lemma ConcatAssociates<T>(a: seq<T>, b: seq<T>, c: seq<T>)
    ensures (a + b) + c == a + (b + c)
  {
  }

  lemma StepAccepts<T>(r: Run<T>, e: Event<T>)
    ensures TicketItems(Step(r, e).tickets) == TicketItems(r.tickets) + AcceptedNow(r, e)
  {
    assert TicketItems(r.tickets) + [] == TicketItems(r.tickets);
  }

  /** One event: the ticket number recorded as popped is that of the item handed to the receiver. */
  lemma StepDelivers<T>(r: Run<T>, e: Event<T>)
    requires Inv(r) && InTime(r.clock, e)
    ensures Inv(Step(r, e))
    ensures PoppedItems(Step(r, e)) == PoppedItems(r) + DeliveredNow(r, e)
  {
    StepKeepsInv(r, e);
  }

  /** A run: the items of the ticket numbers recorded as popped are what the pops returned, in order. */
  lemma {:induction false} RunDelivers<T>(r: Run<T>, es: seq<Event<T>>)
    requires Inv(r) && Admissible(r.clock, es)
    ensures Inv(After(r, es))
    ensures PoppedItems(After(r, es)) == PoppedItems(r) + Delivered(Outputs(r, es))
    decreases |es|
  {
    if es == [] {
      assert PoppedItems(r) + [] == PoppedItems(r);
    } else {
      var r' := Step(r, es[0]);
      StepKeepsInv(r, es[0]);
      StepDelivers(r, es[0]);
      RunDelivers(r', es[1..]);
      DeliveredFirst(r, es);
      ConcatAssociates(PoppedItems(r), DeliveredNow(r, es[0]), Delivered(Outputs(r', es[1..])));
    }
  }

  /**
   From an empty queue, over every run: what the pops returned and what is still buffered are the
   accepted items, each exactly once.
   */
  lemma EveryItemOnce<T>(s: Run<T>, es: seq<Event<T>>)
    requires FreshRun(s, es)
    ensures var r := After(s, es);
            Distributed(Accepted(s, es), Delivered(Outputs(s, es)), r.popped, Items(r.q), r.buffered)
  {
    ReachableInv(s, es);
    RunDelivers(s, es);
    TicketsAreAccepted(s, es);
    TicketsAreDistributed(After(s, es));
    assert PoppedItems(s) == [] && TicketItems(s.tickets) == [];
    assert [] + Delivered(Outputs(s, es)) == Delivered(Outputs(s, es)) && [] + Accepted(s, es) == Accepted(s, es);
  }

  lemma TicketsAreDistributed<T>(r: Run<T>)
    requires Inv(r)
    ensures Distributed(TicketItems(r.tickets), PoppedItems(r), r.popped, Items(r.q), r.buffered)
  {
  }

  /** The number, among the accepted items, of the item a pop of a nonempty queue returns. */
  ghost function Taken<T>(r: Run<T>, c: PopClock): nat
    requires r.q.buffer != []
  {
    Step(r, PopEvent(c)).popped[|r.popped|]
  }

  /**
   The pop returns the oldest accepted item still buffered if that item is past its deadline, flagged so,
   or if the queue is idle; and the newest one otherwise.
   */
  ghost predicate OldestOrNewest<T>(r: Run<T>, c: PopClock)
    requires r.q.buffer != [] && Matches(r)
  {
    var oldest, taken, result := r.buffered[0], Taken(r, c), PopResult(r.q, c);
    && (forall i :: 0 <= i < |r.buffered| ==> oldest <= r.buffered[i])
    && taken in r.buffered && taken < |r.tickets|
    && result == Some(Popped(r.tickets[taken].item, r.tickets[taken].deadline < c.now))
    && (r.tickets[oldest].deadline < c.now || r.q.lastTimeEmpty + r.q.idleExpiration > c.tested ==> taken == oldest)
    && (r.tickets[oldest].deadline >= c.now && r.q.lastTimeEmpty + r.q.idleExpiration <= c.tested ==>
          forall i :: 0 <= i < |r.buffered| ==> r.buffered[i] <= taken)
  }

  lemma PopObeysOrder<T>(r: Run<T>, c: PopClock)
    requires Matches(r) && r.q.buffer != []
    ensures OldestOrNewest(r, c)
  {
    var n := |r.buffered| - 1;
    var i := if TakesFront(r.q, c) then 0 else n;
    assert Taken(r, c) == r.buffered[i] && Served(r.q, c) == r.q.buffer[i];
    assert r.q.buffer[i] == Entry(r.tickets[r.buffered[i]].item, r.tickets[r.buffered[i]].deadline);
  }

  /** That holds of every pop in every run; in particular nothing overtakes an expired head. */
  lemma PopTakesOldestOrNewest<T>(s: Run<T>, es: seq<Event<T>>, c: PopClock)
    requires FreshRun(s, es) && After(s, es).q.buffer != []
    ensures Matches(After(s, es)) && OldestOrNewest(After(s, es), c)
  {
    ReachableInv(s, es);
    PopObeysOrder(After(s, es), c);
  }

  /** As multisets: buffered before + accepted = returned + buffered after. */
  lemma {:induction false} ItemsConserved<T>(r: Run<T>, es: seq<Event<T>>)
    ensures multiset(Items(r.q)) + multiset(Accepted(r, es))
         == multiset(Delivered(Outputs(r, es))) + multiset(Items(After(r, es).q))
    decreases |es|
  {
    if es != [] {
      var r' := Step(r, es[0]);
      StepConserves(r, es[0]);
      ItemsConserved(r', es[1..]);
      DeliveredFirst(r, es);
      assert multiset(Accepted(r, es)) == multiset(AcceptedNow(r, es[0])) + multiset(Accepted(r', es[1..]));
      BalancesChain(multiset(Items(r.q)), multiset(AcceptedNow(r, es[0])), multiset(DeliveredNow(r, es[0])),
                    multiset(Items(r'.q)), multiset(Accepted(r', es[1..])),
                    multiset(Delivered(Outputs(r', es[1..]))), multiset(Items(After(r, es).q)));
    }
  }

  lemma BalancesChain<T>(
    a: multiset<T>, in1: multiset<T>, out1: multiset<T>, b: multiset<T>, in2: multiset<T>, out2: multiset<T>, c: multiset<T>)
    requires a + in1 == out1 + b && b + in2 == out2 + c
    ensures a + (in1 + in2) == (out1 + out2) + c
  {
    assert a + (in1 + in2) == (a + in1) + in2;
    assert (out1 + b) + in2 == out1 + (b + in2);
    assert out1 + (out2 + c) == (out1 + out2) + c;
  }

  /** A queue found empty has handed out every accepted item exactly once. */
  lemma EmptiedMeansAllDelivered<T>(s: Run<T>, es: seq<Event<T>>)
    requires FreshRun(s, es) && After(s, es).q.buffer == []
    ensures Distributed(Accepted(s, es), Delivered(Outputs(s, es)), After(s, es).popped, [], [])
    ensures multiset(Delivered(Outputs(s, es))) == multiset(Accepted(s, es))
  {
    EveryItemOnce(s, es);
    ItemsConserved(s, es);
    var accepted, delivered := multiset(Accepted(s, es)), multiset(Delivered(Outputs(s, es)));
    assert Items(After(s, es).q) == [] && After(s, es).buffered == [] && Items(s.q) == [];
    assert multiset{} + accepted == accepted && delivered + multiset{} == delivered;
  }

  lemma StepConserves<T>(r: Run<T>, e: Event<T>)
    ensures multiset(Items(r.q)) + multiset(AcceptedNow(r, e))
         == multiset(DeliveredNow(r, e)) + multiset(Items(Step(r, e).q))
  {
    match e
    case PushEvent(item, c) =>
      PushAppends(r.q, item, c);
    case PopEvent(c) =>
      PopMovesItem(r.q, c);
  }

  lemma PopMovesItem<T>(q: Queue<T>, c: PopClock)
    ensures q.buffer == [] ==> Items(AfterPop(q, c)) == Items(q)
    ensures q.buffer != [] ==> multiset(Items(q)) == multiset{Served(q, c).item} + multiset(Items(AfterPop(q, c)))
  {
    var items, items' := Items(q), Items(AfterPop(q, c));
    if q.buffer != [] {
      if TakesFront(q, c) {
        assert items == [items[0]] + items';
      } else {
        assert items == items' + [items[|items| - 1]];
      }
    }
  }

  // ----- Idle runs are plain FIFO -----

  /** The plain bounded FIFO queue. */
  function FifoOutputs<T>(items: seq<T>, capacity: nat, es: seq<Event<T>>): seq<Option<Popped<T>>>
    decreases |es|
  {
    if es == [] then []
    else match es[0]
      case PushEvent(item, _) =>
        FifoOutputs(if |items| < capacity then items + [item] else items, capacity, es[1..])
      case PopEvent(_) =>
        if items == [] then [None] + FifoOutputs(items, capacity, es[1..])
        else [Some(Popped(items[0], false))] + FifoOutputs(items[1..], capacity, es[1..])
  }

  ghost predicate PopsFindIdle<T>(r: Run<T>, es: seq<Event<T>>)
    decreases |es|
  {
    es != [] ==>
      && (es[0].PopEvent? && r.q.buffer != [] ==> Idle(r.q, es[0].pop.tested))
      && PopsFindIdle(Step(r, es[0]), es[1..])
  }

  lemma IdlePopTakesOldest<T>(r: Run<T>, c: PopClock)
    requires Inv(r) && c.From(r.clock) && r.q.buffer != [] && Idle(r.q, c.tested)
    ensures PopResult(r.q, c) == Some(Popped(Items(r.q)[0], false))
    ensures Items(AfterPop(r.q, c)) == Items(r.q)[1..]
  {
    IdleLeavesNothingExpired(r, c.tested);
  }

  lemma PushAppends<T>(q: Queue<T>, item: T, c: PushClock)
    ensures AfterPush(q, item, c).Success? <==> |Items(q)| < q.capacity
    ensures AfterPush(q, item, c).Success? ==> Items(AfterPush(q, item, c).value) == Items(q) + [item]
  {
  }

  lemma {:induction false} IdlePopsAreFifo<T>(r: Run<T>, es: seq<Event<T>>)
    requires Inv(r) && Admissible(r.clock, es) && PopsFindIdle(r, es)
    ensures Outputs(r, es) == FifoOutputs(Items(r.q), r.q.capacity, es)
    decreases |es|
  {
    if es != [] {
      var r' := Step(r, es[0]);
      StepKeepsInv(r, es[0]);
      IdlePopsAreFifo(r', es[1..]);
      match es[0]
      case PushEvent(item, c) =>
        PushAppends(r.q, item, c);
        assert [] + Outputs(r', es[1..]) == Outputs(r', es[1..]);
      case PopEvent(c) =>
        if r.q.buffer != [] {
          IdlePopTakesOldest(r, c);
        } else {
          assert Items(r.q) == [] && Items(r'.q) == [];
        }
    }
  }

  /** From an empty queue, a run whose pops all find it idle yields what a plain FIFO queue yields, with nothing expired. */
  lemma IdleRunsAreFifo<T>(s: Run<T>, es: seq<Event<T>>)
    requires FreshRun(s, es) && PopsFindIdle(s, es)
    ensures Outputs(s, es) == FifoOutputs([], s.q.capacity, es)
  {
    ReachableInv(s, es);
    IdlePopsAreFifo(s, es);
    assert Items(s.q) == [];
  }

  function PushAt(item: int, now: int): Event<int> {
    PushEvent(item, PushClock(now, now, now))
  }

  function PopAt(now: int): Event<int> {
    PopEvent(PopClock(now, now, now, now))
  }

  /** In congested mode the newest item is served even when its deadline has passed behind a live head. */
  lemma CongestedPopCanExpire()
    ensures var r := After(Start(0, 5, 10, 1), [PushAt(1, 0), PushAt(2, 5), PopAt(6), PushAt(3, 11)]);
            PopResult(r.q, PopAt(13).pop) == Some(Popped(3, true)) && AfterPop(r.q, PopAt(13).pop).buffer == [Entry(2, 15)]
  {
    var r1 := Step(Start(0, 5, 10, 1), PushAt(1, 0));
    var r2 := Step(r1, PushAt(2, 5));
    var r3 := Step(r2, PopAt(6));
    var r4 := Step(r3, PushAt(3, 11));
    assert r2.q.buffer == [Entry(1, 10), Entry(2, 15)];
    assert r3.q.buffer == [Entry(2, 15)];
    assert r4.q.buffer == [Entry(2, 15), Entry(3, 12)];
    var es := [PushAt(1, 0), PushAt(2, 5), PopAt(6), PushAt(3, 11)];
    assert es[1..] == [PushAt(2, 5), PopAt(6), PushAt(3, 11)];
    assert es[1..][1..] == [PopAt(6), PushAt(3, 11)];
    assert es[1..][1..][1..] == [PushAt(3, 11)];
    assert After(Start(0, 5, 10, 1), es) == After(r3, [PushAt(3, 11)]) == r4;
  }

  // ----- The channel: counted senders around the queue -----

  datatype PollOutcome<T> = Item(popped: Popped<T>) | Closed | Pending

  function Poll<T>(q: Queue<T>, senders: nat, c: PopClock): PollOutcome<T> {
    match PopResult(q, c)
    case Some(p) => Item(p)
    case None => if senders == 0 then Closed else Pending
  }

  /** A receiver gets what a pop yields; on an empty queue it is told closed exactly when no sender is left. */
  lemma PollAnswers<T>(q: Queue<T>, senders: nat, c: PopClock)
    ensures Poll(q, senders, c) == Closed <==> q.buffer == [] && senders == 0
    ensures Poll(q, senders, c) == Pending <==> q.buffer == [] && senders > 0
    ensures forall p :: Poll(q, senders, c) == Item(p) <==> PopResult(q, c) == Some(p)
  {
  }

  class CoDelChannel<T> {
    const queue: CoDelQueue<T>
    var senders: nat

    constructor (queue: CoDelQueue<T>)
      ensures this.queue == queue && senders == 1
    {
      this.queue := queue;
      this.senders := 1;
    }

    method CloneSender()
      requires senders > 0
      modifies this
      ensures senders == old(senders) + 1
    {
      senders := senders + 1;
    }

    /** Reports whether the last sender went, which wakes every receiver. */
    method DropSender() returns (wakeAll: bool)
      requires senders > 0
      modifies this
      ensures senders == old(senders) - 1
      ensures wakeAll <==> senders == 0
    {
      senders := senders - 1;
      wakeAll := senders == 0;
    }

    method TrySend(item: T, first: int, c: PushClock) returns (r: Result<(), QueueFull>)
      requires senders > 0 && c.From(first)
      modifies queue
      ensures r.Failure? <==> AfterPush(old(queue.State()), item, c).Failure?
      ensures queue.State() == if r.Success? then AfterPush(old(queue.State()), item, c).value else old(queue.State())
    {
      r := queue.Push(item, first, c);
    }

    method PollNext(c: PopClock) returns (r: PollOutcome<T>)
      modifies queue
      ensures queue.State() == AfterPop(old(queue.State()), c)
      ensures r == Poll(old(queue.State()), senders, c)
    {
      var popped := queue.Pop(c);
      match popped
      case Some(p) => r := Item(p);
      case None => r := if senders == 0 then Closed else Pending;
    }
  }

  datatype ChannelEvent<T> = CloneSender | DropSender | OnQueue(e: Event<T>)

  /** Only a live sender can be cloned, dropped or sent on. */
  predicate Possible<T>(senders: nat, e: ChannelEvent<T>) {
    senders > 0 || (e.OnQueue? && e.e.PopEvent?)
  }

  function SendersAfter<T>(senders: nat, e: ChannelEvent<T>): nat
    requires Possible(senders, e)
  {
    match e
    case CloneSender => senders + 1
    case DropSender => senders - 1
    case OnQueue(_) => senders
  }

  function RunAfter<T>(r: Run<T>, e: ChannelEvent<T>): Run<T> {
    if e.OnQueue? then Step(r, e.e) else r
  }

  ghost predicate StaysClosed<T>(r: Run<T>, senders: nat, es: seq<ChannelEvent<T>>)
    decreases |es|
  {
    && (forall c :: Poll(r.q, senders, c) == Closed)
    && (es != [] && Possible(senders, es[0]) ==> StaysClosed(RunAfter(r, es[0]), SendersAfter(senders, es[0]), es[1..]))
  }

  /** Each event is possible with the senders then left. */
  predicate AllPossible<T>(senders: nat, es: seq<ChannelEvent<T>>)
    decreases |es|
  {
    es == [] || (Possible(senders, es[0]) && AllPossible(SendersAfter(senders, es[0]), es[1..]))
  }

  function SendersLeft<T>(senders: nat, es: seq<ChannelEvent<T>>): nat
    requires AllPossible(senders, es)
    decreases |es|
  {
    if es == [] then senders else SendersLeft(SendersAfter(senders, es[0]), es[1..])
  }

  /** How often an event of the given kind occurs. */
  function Clones<T>(es: seq<ChannelEvent<T>>): nat {
    if es == [] then 0 else (if es[0].CloneSender? then 1 else 0) + Clones(es[1..])
  }

  function Drops<T>(es: seq<ChannelEvent<T>>): nat {
    if es == [] then 0 else (if es[0].DropSender? then 1 else 0) + Drops(es[1..])
  }

  /** The senders left are those at the start and the clones, less the dropped ones. */
  lemma {:induction false} SendersAreCounted<T>(senders: nat, es: seq<ChannelEvent<T>>)
    requires AllPossible(senders, es)
    ensures SendersLeft(senders, es) == senders + Clones(es) - Drops(es)
    decreases |es|
  {
    if es != [] {
      SendersAreCounted(SendersAfter(senders, es[0]), es[1..]);
    }
  }

  /** What the channel's events do to its queue. */
  function QueueEvents<T>(es: seq<ChannelEvent<T>>): seq<Event<T>> {
    if es == [] then [] else (if es[0].OnQueue? then [es[0].e] else []) + QueueEvents(es[1..])
  }

  /**
   A receiver told that the channel is closed has been handed every accepted item exactly once, in
   the order given by `popped`, and the channel stays closed.
   */
  lemma ClosedAfterDeliveringAll<T>(s: Run<T>, es: seq<ChannelEvent<T>>, c: PopClock, later: seq<ChannelEvent<T>>)
    requires AllPossible(1, es) && FreshRun(s, QueueEvents(es))
    requires Poll(After(s, QueueEvents(es)).q, SendersLeft(1, es), c) == Closed
    ensures var r := After(s, QueueEvents(es));
            var accepted, delivered := Accepted(s, QueueEvents(es)), Delivered(Outputs(s, QueueEvents(es)));
            && Distributed(accepted, delivered, r.popped, [], [])
            && multiset(delivered) == multiset(accepted)
            && StaysClosed(r, SendersLeft(1, es), later)
  {
    EmptiedMeansAllDelivered(s, QueueEvents(es));
    EmptyStaysClosed(After(s, QueueEvents(es)), SendersLeft(1, es), later);
  }

  lemma {:induction false} EmptyStaysClosed<T>(r: Run<T>, senders: nat, es: seq<ChannelEvent<T>>)
    requires r.q.buffer == [] && senders == 0
    ensures StaysClosed(r, senders, es)
    decreases |es|
  {
    if es != [] && Possible(senders, es[0]) {
      EmptyStaysClosed(RunAfter(r, es[0]), senders, es[1..]);
    }
  }
}
