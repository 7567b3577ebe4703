/** The in-memory log of function executions: bounded, timestamped, streamed by cursor. */
module FunctionLog {
  import opened Results

  // Executions and progress reports are identified by numbers; times are cursors with a strict successor.
  datatype Part = Completion(execution: nat) | Progress(report: nat)

  datatype Logged = Logged(time: int, part: Part)

  /** A registered stream call, with the cursor it is waiting on. */
  datatype Waiter = Waiter(cursor: int)

  datatype State = State(log: seq<Logged>, completions: nat, waiters: seq<Waiter>, maxExecutions: nat)

  datatype Streamed = Streamed(executions: seq<nat>, cursor: int)

  datatype ClockError = BeforeEpoch

  // ----- Specification -----

  function CountCompletions(log: seq<Logged>): nat {
    if log == [] then 0 else (if log[0].part.Completion? then 1 else 0) + CountCompletions(log[1..])
  }

  ghost predicate Increasing(log: seq<Logged>) {
    forall i, j :: 0 <= i < j < |log| ==> log[i].time < log[j].time
  }

  /** The clock, unless it is not past the newest entry. */
  function NextTime(log: seq<Logged>, now: int): int {
    if log != [] && log[|log| - 1].time + 1 > now then log[|log| - 1].time + 1 else now
  }

  /** Drops entries from the front until few enough completions are left. */
  function Evict(log: seq<Logged>, maxExecutions: nat): seq<Logged> {
    if CountCompletions(log) <= maxExecutions then log else Evict(log[1..], maxExecutions)
  }

  function AfterLogging(s: State, part: Part, now: int): State {
    var grown := s.log + [Logged(NextTime(s.log, now), part)];
    var kept := if part.Completion? then Evict(grown, s.maxExecutions) else grown;
    State(kept, CountCompletions(kept), [], s.maxExecutions)
  }

  /** Everything newer than the cursor, by a plain scan. */
  function Newer(log: seq<Logged>, cursor: int): seq<Logged> {
    if log == [] then []
    else (if log[0].time > cursor then [log[0]] else []) + Newer(log[1..], cursor)
  }

  function Executions(log: seq<Logged>): seq<nat> {
    if log == [] then []
    else (if log[0].part.Completion? then [log[0].part.execution] else []) + Executions(log[1..])
  }

  /** `None` means nothing is newer, and the call waits. */
  function StreamOnce(log: seq<Logged>, cursor: int): Option<Streamed> {
    if Newer(log, cursor) == [] then None
    else Some(Streamed(Executions(Newer(log, cursor)), if log == [] then cursor else log[|log| - 1].time))
  }

  function AfterStream(s: State, cursor: int): State {
    if StreamOnce(s.log, cursor).None? then s.(waiters := s.waiters + [Waiter(cursor)]) else s
  }

  /** The counter counts, the bound holds, times increase and nobody waits for something already there. */
  ghost predicate Inv(s: State) {
    && s.maxExecutions >= 1
    && Increasing(s.log)
    && s.completions == CountCompletions(s.log) <= s.maxExecutions
    && forall i :: 0 <= i < |s.waiters| ==> StreamOnce(s.log, s.waiters[i].cursor).None?
  }

  // ----- Facts about the pieces -----

  /** On increasing times the newer entries are a suffix. */
  lemma {:induction false} NewerIsSuffix(log: seq<Logged>, cursor: int, k: nat)
    requires k <= |log|
    requires forall i :: 0 <= i < |log| ==> (log[i].time > cursor <==> k <= i)
    ensures Newer(log, cursor) == log[k..]
  {
    if log != [] {
      NewerIsSuffix(log[1..], cursor, if k == 0 then 0 else k - 1);
      if k == 0 {
        assert log[0..] == log == [log[0]] + log[1..];
        assert log[1..][0..] == log[1..];
      } else {
        assert log[1..][k - 1..] == log[k..];
      }
    }
  }

  lemma {:induction false} NewerEmptyIff(log: seq<Logged>, cursor: int)
    ensures Newer(log, cursor) == [] <==> forall i :: 0 <= i < |log| ==> log[i].time <= cursor
  {
    if log != [] {
      NewerEmptyIff(log[1..], cursor);
      assert forall i :: 0 < i < |log| ==> log[i] == log[1..][i - 1];
    }
  }

  lemma {:induction false} CountConcat(a: seq<Logged>, b: seq<Logged>)
    ensures CountCompletions(a + b) == CountCompletions(a) + CountCompletions(b)
  {
    if a == [] {
      assert a + b == b;
    } else {
      assert (a + b)[1..] == a[1..] + b;
      CountConcat(a[1..], b);
    }
  }

  /** How many entries eviction drops. */
  function EvictCount(log: seq<Logged>, maxExecutions: nat): nat {
    if CountCompletions(log) <= maxExecutions then 0 else 1 + EvictCount(log[1..], maxExecutions)
  }

  /** Eviction drops the shortest prefix that brings the completions within the bound. */
  lemma {:induction false} EvictDropsPrefix(log: seq<Logged>, maxExecutions: nat)
    ensures var n := EvictCount(log, maxExecutions);
            && n <= |log| && Evict(log, maxExecutions) == log[n..]
            && CountCompletions(log[n..]) <= maxExecutions
            && (forall m :: 0 <= m < n ==> CountCompletions(log[m..]) > maxExecutions)
  {
    if CountCompletions(log) <= maxExecutions {
      assert log[0..] == log;
    } else {
      EvictDropsPrefix(log[1..], maxExecutions);
      var n := EvictCount(log, maxExecutions);
      assert log[1..][n - 1..] == log[n..];
      forall m | 0 <= m < n
        ensures CountCompletions(log[m..]) > maxExecutions
      {
        if m == 0 {
          assert log[0..] == log;
        } else {
          assert log[m..] == log[1..][m - 1..];
        }
      }
    }
  }

  /** Logging a completion keeps it exactly when at least one execution may be kept. */
  lemma NewestSurvivesIffBoundPositive(log: seq<Logged>, newest: Logged, maxExecutions: nat)
    requires newest.part.Completion?
    ensures EvictCount(log + [newest], maxExecutions) <= |log| <==> maxExecutions >= 1
  {
    var grown := log + [newest];
    var n := EvictCount(grown, maxExecutions);
    EvictDropsPrefix(grown, maxExecutions);
    assert grown[|log|..] == [newest] && CountCompletions([newest]) == 1;
    if n <= |log| {
      assert grown[n..] == log[n..] + [newest];
      CountConcat(log[n..], [newest]);
    }
  }

  // ----- The log object -----

  class FunctionExecutionLog {
    var log: seq<Logged>
    var completions: nat
    var waiters: seq<Waiter>
    const maxExecutions: nat

    function Contents(): State
      reads this
    {
      State(log, completions, waiters, maxExecutions)
    }

    constructor (maxExecutions: nat)
      requires maxExecutions >= 1
      ensures Contents() == State([], 0, [], maxExecutions) && Inv(Contents())
    {
      this.log := [];
      this.completions := 0;
      this.waiters := [];
      this.maxExecutions := maxExecutions;
    }

    method NextEntryTime(now: int) returns (r: Result<int, ClockError>)
      ensures r == if now < 0 then Failure(BeforeEpoch) else Success(NextTime(log, now))
    {
      if now < 0 {
        return Failure(BeforeEpoch);
      }
      var next := now;
      if |log| > 0 {
        var lowerBound := log[|log| - 1].time + 1;
        if lowerBound > next {
          next := lowerBound;
        }
      }
      return Success(next);
    }

    method LogExecution(execution: nat, now: int) returns (r: Result<(), ClockError>)
      requires Inv(Contents())
      modifies this
      ensures Inv(Contents())
      ensures r.Failure? <==> now < 0
      ensures Contents() == if r.Failure? then old(Contents()) else AfterLogging(old(Contents()), Completion(execution), now)
    {
      var time :- NextEntryTime(now);
      LoggingKeepsInv(Contents(), Completion(execution), now);
      var entry := Logged(time, Completion(execution));
      ghost var grown := log + [entry];
      CountConcat(log, [entry]);
      log := log + [entry];
      completions := completions + 1;
      while completions > maxExecutions
        invariant completions == CountCompletions(log)
        invariant Evict(log, maxExecutions) == Evict(grown, maxExecutions)
        invariant waiters == old(waiters)
        decreases |log|
      {
        var front := log[0];
        log := log[1..];
        if front.part.Completion? {
          completions := completions - 1;
        }
      }
      waiters := [];
      return Success(());
    }

    method LogProgress(report: nat, now: int) returns (r: Result<(), ClockError>)
      requires Inv(Contents())
      modifies this
      ensures Inv(Contents())
      ensures r.Failure? <==> now < 0
      ensures Contents() == if r.Failure? then old(Contents()) else AfterLogging(old(Contents()), Progress(report), now)
    {
      var time :- NextEntryTime(now);
      LoggingKeepsInv(Contents(), Progress(report), now);
      var entry := Logged(time, Progress(report));
      CountConcat(log, [entry]);
      log := log + [entry];
      waiters := [];
      return Success(());
    }

    /** Binary search for the first entry newer than the cursor. */
    method PartitionPoint(cursor: int) returns (k: nat)
      requires Increasing(log)
      ensures k <= |log|
      ensures forall i :: 0 <= i < |log| ==> (log[i].time > cursor <==> k <= i)
    {
      var lo, hi := 0, |log|;
      while lo < hi
        invariant 0 <= lo <= hi <= |log|
        invariant forall i :: 0 <= i < lo ==> log[i].time <= cursor
        invariant forall i :: hi <= i < |log| ==> log[i].time > cursor
      {
        var mid := (lo + hi) / 2;
        if log[mid].time <= cursor {
          lo := mid + 1;
        } else {
          hi := mid;
        }
      }
      k := lo;
    }

    method CollectExecutions(first: nat) returns (entries: seq<nat>)
      requires first <= |log|
      ensures entries == Executions(log[first..])
    {
      entries := [];
      var i := first;
      while i < |log|
        invariant first <= i <= |log|
        invariant entries + Executions(log[i..]) == Executions(log[first..])
      {
        assert log[i..][1..] == log[i + 1..];
        if log[i].part.Completion? {
          assert entries + ([log[i].part.execution] + Executions(log[i + 1..]))
              == (entries + [log[i].part.execution]) + Executions(log[i + 1..]);
          entries := entries + [log[i].part.execution];
        }
        i := i + 1;
      }
      assert entries + [] == entries;
    }

    /** One pass of the stream loop: deliver, or register a waiter. */
    method Stream(cursor: int) returns (r: Option<Streamed>)
      requires Inv(Contents())
      modifies this
      ensures Inv(Contents())
      ensures r == StreamOnce(old(log), cursor)
      ensures Contents() == AfterStream(old(Contents()), cursor)
    {
      var first := PartitionPoint(cursor);
      NewerIsSuffix(log, cursor, first);
      if first < |log| {
        var entries := CollectExecutions(first);
        r := Some(Streamed(entries, log[|log| - 1].time));
      } else {
        waiters := waiters + [Waiter(cursor)];
        r := None;
      }
    }
  }

  lemma GrownIncreasing(log: seq<Logged>, part: Part, now: int)
    requires Increasing(log)
    ensures Increasing(log + [Logged(NextTime(log, now), part)])
  {
    var grown := log + [Logged(NextTime(log, now), part)];
    assert forall i :: 0 <= i < |log| ==> log[i].time <= log[|log| - 1].time;
  }

  lemma SuffixIncreasing(log: seq<Logged>, n: nat)
    requires Increasing(log) && n <= |log|
    ensures Increasing(log[n..])
  {
    assert forall i :: 0 <= i < |log| - n ==> log[n..][i] == log[n + i];
  }

  /** What logging leaves is a suffix of the grown log that ends in the new entry. */
  lemma LoggingKeepsSuffix(s: State, part: Part, now: int) returns (n: nat)
    requires Inv(s)
    ensures var grown := s.log + [Logged(NextTime(s.log, now), part)];
            n <= |s.log| && AfterLogging(s, part, now).log == grown[n..] && CountCompletions(grown[n..]) <= s.maxExecutions
  {
    var newest := Logged(NextTime(s.log, now), part);
    var grown := s.log + [newest];
    if part.Completion? {
      n := EvictCount(grown, s.maxExecutions);
      EvictDropsPrefix(grown, s.maxExecutions);
      NewestSurvivesIffBoundPositive(s.log, newest, s.maxExecutions);
    } else {
      n := 0;
      assert grown[0..] == grown;
      CountConcat(s.log, [newest]);
    }
  }

  /** An entry gets the least time that is neither before the clock nor before or at any entry there is. */
  lemma NextTimeIsLeast(log: seq<Logged>, now: int, t: int)
    requires Increasing(log)
    ensures NextTime(log, now) >= now && forall i :: 0 <= i < |log| ==> log[i].time < NextTime(log, now)
    ensures t >= now && (forall i :: 0 <= i < |log| ==> log[i].time < t) ==> t >= NextTime(log, now)
  {
    if log != [] {
      assert forall i :: 0 <= i < |log| ==> log[i].time <= log[|log| - 1].time;
    }
  }

  /** Logging keeps the invariant, in particular across clocks that jump backwards. */
  lemma LoggingKeepsInv(s: State, part: Part, now: int)
    requires Inv(s)
    ensures Inv(AfterLogging(s, part, now))
    ensures AfterLogging(s, part, now).log != []
    ensures var kept := AfterLogging(s, part, now).log;
            kept[|kept| - 1] == Logged(NextTime(s.log, now), part)
    ensures AfterLogging(s, part, now).waiters == []
  {
    GrownIncreasing(s.log, part, now);
    var n := LoggingKeepsSuffix(s, part, now);
    SuffixIncreasing(s.log + [Logged(NextTime(s.log, now), part)], n);
  }

  // ----- Runs: everything ever logged, and a reader that follows the returned cursors -----

  /** The state and all entries ever logged. */
  datatype History = History(state: State, all: seq<Logged>)

  datatype Event =
    | LogPart(part: Part, now: int)
    | OtherStream(otherCursor: int)
    | Follow

  function Evicted(h: History): nat {
    if |h.state.log| <= |h.all| then |h.all| - |h.state.log| else 0
  }

  /** The log is what is left of the entries ever logged, and never loses the newest. */
  ghost predicate HistoryInv(h: History) {
    && Inv(h.state)
    && Increasing(h.all)
    && |h.state.log| <= |h.all| && h.state.log == h.all[Evicted(h)..]
    && (h.all != [] ==> h.state.log != [])
  }

  /** One event; `cursor` is the reader's, used by its own calls. */
  function Next(h: History, cursor: int, e: Event): History {
    match e
    case LogPart(part, now) =>
      if now < 0 then h
      else History(AfterLogging(h.state, part, now), h.all + [Logged(NextTime(h.state.log, now), part)])
    case OtherStream(c) => h.(state := AfterStream(h.state, c))
    case Follow => h.(state := AfterStream(h.state, cursor))
  }

  function NextCursor(h: History, cursor: int, e: Event): int {
    if e.Follow? && StreamOnce(h.state.log, cursor).Some? then StreamOnce(h.state.log, cursor).value.cursor else cursor
  }

  /** What the reader receives in one event. */
  function Received(h: History, cursor: int, e: Event): seq<nat> {
    if e.Follow? && StreamOnce(h.state.log, cursor).Some? then StreamOnce(h.state.log, cursor).value.executions else []
  }

  /** What the reader receives over a run, call after call. */
  function Delivered(h: History, cursor: int, events: seq<Event>): seq<nat>
    decreases |events|
  {
    if events == [] then []
    else
      Received(h, cursor, events[0])
      + Delivered(Next(h, cursor, events[0]), NextCursor(h, cursor, events[0]), events[1..])
  }

  function Final(h: History, cursor: int, events: seq<Event>): History
    decreases |events|
  {
    if events == [] then h
    else Final(Next(h, cursor, events[0]), NextCursor(h, cursor, events[0]), events[1..])
  }

  /** When the reader called: how many entries had been logged and how many evicted by then. */
  datatype Call = Call(logged: nat, evicted: nat)

  function Calls(h: History, cursor: int, events: seq<Event>): seq<Call>
    decreases |events|
  {
    if events == [] then []
    else
      (if events[0].Follow? then [Call(|h.all|, Evicted(h))] else [])
      + Calls(Next(h, cursor, events[0]), NextCursor(h, cursor, events[0]), events[1..])
  }

  lemma StreamKeepsHistory(h: History, cursor: int)
    requires HistoryInv(h)
    ensures HistoryInv(h.(state := AfterStream(h.state, cursor)))
  {
  }

  lemma OtherEventKeepsHistory(h: History, cursor: int, e: Event)
    requires HistoryInv(h) && !(e.LogPart? && e.now >= 0)
    ensures HistoryInv(Next(h, cursor, e))
  {
    if e.OtherStream? {
      StreamKeepsHistory(h, e.otherCursor);
    } else if e.Follow? {
      StreamKeepsHistory(h, cursor);
    }
  }

  lemma NewestIsLast(h: History, part: Part, now: int)
    requires HistoryInv(h)
    ensures Increasing(h.all + [Logged(NextTime(h.state.log, now), part)])
  {
    if h.all != [] {
      var last := |h.all| - 1;
      assert h.state.log[|h.state.log| - 1] == h.all[last];
      assert forall i :: 0 <= i < last ==> h.all[i].time < h.all[last].time;
    }
  }

  /** A suffix of a suffix that gained an entry is a suffix of the whole that gained it. */
  lemma GrownSuffix(all: seq<Logged>, log: seq<Logged>, e: nat, newest: Logged, n: nat)
    requires e <= |all| && log == all[e..] && n <= |log|
    ensures |(log + [newest])[n..]| == |all + [newest]| - (e + n)
    ensures (log + [newest])[n..] == (all + [newest])[e + n..]
  {
  }

  lemma SuffixIsHistory(state: State, all: seq<Logged>, e: nat)
    requires Inv(state) && Increasing(all)
    requires e <= |all| && state.log == all[e..] && state.log != []
    ensures HistoryInv(History(state, all))
  {
    assert Evicted(History(state, all)) == e;
  }

  lemma LoggedIsSuffix(h: History, part: Part, now: int) returns (e: nat)
    requires HistoryInv(h)
    ensures var all := h.all + [Logged(NextTime(h.state.log, now), part)];
            e <= |all| && AfterLogging(h.state, part, now).log == all[e..]
  {
    var n := LoggingKeepsSuffix(h.state, part, now);
    GrownSuffix(h.all, h.state.log, Evicted(h), Logged(NextTime(h.state.log, now), part), n);
    e := Evicted(h) + n;
  }

  lemma LoggingKeepsHistory(h: History, cursor: int, part: Part, now: int)
    requires HistoryInv(h) && now >= 0
    ensures HistoryInv(Next(h, cursor, LogPart(part, now)))
  {
    var state, all := AfterLogging(h.state, part, now), h.all + [Logged(NextTime(h.state.log, now), part)];
    NewestIsLast(h, part, now);
    LoggingKeepsInv(h.state, part, now);
    var e := LoggedIsSuffix(h, part, now);
    SuffixIsHistory(state, all, e);
    assert Next(h, cursor, LogPart(part, now)) == History(state, all);
  }

  lemma {:induction false} LogOnlyGrows(h: History, cursor: int, events: seq<Event>)
    ensures h.all <= Final(h, cursor, events).all
    decreases |events|
  {
    if events != [] {
      var h' := Next(h, cursor, events[0]);
      assert h.all <= h'.all;
      LogOnlyGrows(h', NextCursor(h, cursor, events[0]), events[1..]);
    }
  }

  lemma {:induction false} RunsStaySound(h: History, cursor: int, events: seq<Event>)
    requires HistoryInv(h)
    ensures HistoryInv(Final(h, cursor, events))
    decreases |events|
  {
    if events != [] {
      var h' := Next(h, cursor, events[0]);
      if events[0].LogPart? && events[0].now >= 0 {
        LoggingKeepsHistory(h, cursor, events[0].part, events[0].now);
      } else {
        OtherEventKeepsHistory(h, cursor, events[0]);
      }
      RunsStaySound(h', NextCursor(h, cursor, events[0]), events[1..]);
    }
  }

  /**
   Over every run the log stays a sound suffix of everything logged, which only grows: the counter
   counts the completions kept, at most the bound, times increase, the newest entry is kept and no
   registered waiter has an entry newer than its cursor.
   */
  lemma RunsKeepInv(h: History, cursor: int, events: seq<Event>)
    requires HistoryInv(h)
    ensures HistoryInv(Final(h, cursor, events))
    ensures h.all <= Final(h, cursor, events).all
  {
    RunsStaySound(h, cursor, events);
    LogOnlyGrows(h, cursor, events);
  }

  // ----- Times follow the clock, and blocked calls stay registered -----

  /** A part that was logged, with the clock reading it was given. */
  datatype Reading = Reading(part: Part, now: int)

  function ReadingsNow(e: Event): seq<Reading> {
    if e.LogPart? && e.now >= 0 then [Reading(e.part, e.now)] else []
  }

  /** The parts logged in a run with their clock readings; a clock before the epoch logs nothing. */
  function Readings(events: seq<Event>): seq<Reading> {
    if events == [] then [] else ReadingsNow(events[0]) + Readings(events[1..])
  }

  /**
   The entry is the part that was logged; it carries its clock reading when that is past the entry before
   it, and otherwise the time right after that entry.
   */
  predicate Stamped(all: seq<Logged>, i: nat, r: Reading)
    requires i < |all|
  {
    && all[i].part == r.part
    && all[i].time >= r.now
    && (i == 0 || all[i - 1].time < r.now ==> all[i].time == r.now)
    && (i > 0 && all[i - 1].time >= r.now ==> all[i].time == all[i - 1].time + 1)
  }

  ghost predicate Clocked(all: seq<Logged>, readings: seq<Reading>) {
    |all| == |readings| && forall i :: 0 <= i < |all| ==> Stamped(all, i, readings[i])
  }

  lemma ClockedGrows(all: seq<Logged>, readings: seq<Reading>, newest: Logged, r: Reading)
    requires Clocked(all, readings) && Stamped(all + [newest], |all|, r)
    ensures Clocked(all + [newest], readings + [r])
  {
    forall i | 0 <= i < |all|
      ensures Stamped(all + [newest], i, (readings + [r])[i])
    {
      assert Stamped(all, i, readings[i]);
    }
  }

  lemma LoggingFollowsClock(h: History, part: Part, now: int)
    requires HistoryInv(h)
    ensures Stamped(h.all + [Logged(NextTime(h.state.log, now), part)], |h.all|, Reading(part, now))
  {
    if h.all != [] {
      assert h.state.log[|h.state.log| - 1] == h.all[|h.all| - 1];
    }
  }

  lemma NextFollowsClock(h: History, cursor: int, e: Event, past: seq<Reading>)
    requires HistoryInv(h) && Clocked(h.all, past)
    ensures Clocked(Next(h, cursor, e).all, past + ReadingsNow(e))
  {
    if e.LogPart? && e.now >= 0 {
      LoggingFollowsClock(h, e.part, e.now);
      ClockedGrows(h.all, past, Logged(NextTime(h.state.log, e.now), e.part), Reading(e.part, e.now));
    } else {
      assert past + [] == past;
    }
  }

  lemma ReadingsFirst(past: seq<Reading>, events: seq<Event>)
    requires events != []
    ensures past + Readings(events) == past + ReadingsNow(events[0]) + Readings(events[1..])
  {
  }

  lemma {:induction false} RunsFollowClock(h: History, cursor: int, events: seq<Event>, past: seq<Reading>)
    requires HistoryInv(h) && Clocked(h.all, past)
    ensures Clocked(Final(h, cursor, events).all, past + Readings(events))
    decreases |events|
  {
    if events == [] {
      assert past + [] == past;
    } else {
      var e, h' := events[0], Next(h, cursor, events[0]);
      if e.LogPart? && e.now >= 0 {
        LoggingKeepsHistory(h, cursor, e.part, e.now);
      } else {
        OtherEventKeepsHistory(h, cursor, e);
      }
      NextFollowsClock(h, cursor, e, past);
      ReadingsFirst(past, events);
      RunsFollowClock(h', NextCursor(h, cursor, e), events[1..], past + ReadingsNow(e));
    }
  }

  /** Nothing in the log is newer than the cursor, so a call with it has to wait. */
  ghost predicate Blocks(h: History, cursor: int) {
    forall i :: 0 <= i < |h.state.log| ==> h.state.log[i].time <= cursor
  }

  /** The calls blocked since a part was last logged, after those blocked before. */
  ghost function Blocked(h: History, cursor: int, events: seq<Event>, before: seq<Waiter>): seq<Waiter>
    decreases |events|
  {
    if events == [] then before
    else
      var now := match events[0]
        case LogPart(_, now) => if now >= 0 then [] else before
        case OtherStream(c) => if Blocks(h, c) then before + [Waiter(c)] else before
        case Follow => if Blocks(h, cursor) then before + [Waiter(cursor)] else before;
      Blocked(Next(h, cursor, events[0]), NextCursor(h, cursor, events[0]), events[1..], now)
  }

  /** From any state, the registered waiters are the calls blocked since a part was last logged. */
  lemma {:induction false} WaitersAreTheBlocked(h: History, cursor: int, events: seq<Event>)
    ensures Final(h, cursor, events).state.waiters == Blocked(h, cursor, events, h.state.waiters)
    decreases |events|
  {
    if events != [] {
      match events[0]
      case LogPart(_, _) =>
        WaitersAreTheBlocked(Next(h, cursor, events[0]), NextCursor(h, cursor, events[0]), events[1..]);
      case OtherStream(c) =>
        NewerEmptyIff(h.state.log, c);
        WaitersAreTheBlocked(Next(h, cursor, events[0]), NextCursor(h, cursor, events[0]), events[1..]);
      case Follow =>
        NewerEmptyIff(h.state.log, cursor);
        WaitersAreTheBlocked(Next(h, cursor, events[0]), NextCursor(h, cursor, events[0]), events[1..]);
    }
  }

  // ----- Reference: which positions a follower must see -----

  function Max(a: nat, b: nat): nat {
    if a < b then b else a
  }

  /** Positions of completions among entries `lo..hi`. */
  function Positions(all: seq<Logged>, lo: nat, hi: nat): seq<nat>
    decreases hi - lo
  {
    if lo >= hi || lo >= |all| then []
    else (if all[lo].part.Completion? then [lo] else []) + Positions(all, lo + 1, hi)
  }

  /** At each call, the completions logged since the last one and not evicted before it. */
  function Expected(all: seq<Logged>, from: nat, calls: seq<Call>): seq<nat>
    decreases |calls|
  {
    if calls == [] then []
    else
      Positions(all, Max(from, calls[0].evicted), calls[0].logged)
      + Expected(all, Max(from, calls[0].logged), calls[1..])
  }

  function ExecutionAt(all: seq<Logged>, p: nat): nat {
    if p < |all| && all[p].part.Completion? then all[p].part.execution else 0
  }

  function ExecutionsAt(all: seq<Logged>, positions: seq<nat>): seq<nat> {
    if positions == [] then [] else [ExecutionAt(all, positions[0])] + ExecutionsAt(all, positions[1..])
  }

  lemma {:induction false} ExecutionsAtConcat(all: seq<Logged>, a: seq<nat>, b: seq<nat>)
    ensures ExecutionsAt(all, a + b) == ExecutionsAt(all, a) + ExecutionsAt(all, b)
  {
    if a == [] {
      assert a + b == b;
    } else {
      assert (a + b)[1..] == a[1..] + b;
      ExecutionsAtConcat(all, a[1..], b);
    }
  }

  lemma {:induction false} PositionsMembers(all: seq<Logged>, lo: nat, hi: nat, p: nat)
    ensures p in Positions(all, lo, hi) <==> lo <= p < hi && p < |all| && all[p].part.Completion?
    decreases hi - lo
  {
    if lo < hi && lo < |all| {
      var rest := Positions(all, lo + 1, hi);
      PositionsMembers(all, lo + 1, hi, p);
      if all[lo].part.Completion? {
        assert Positions(all, lo, hi) == [lo] + rest;
        MemberOfCons(lo, rest, p);
      } else {
        assert Positions(all, lo, hi) == rest;
      }
    }
  }

  lemma MemberOfCons(first: nat, rest: seq<nat>, p: nat)
    ensures p in [first] + rest <==> p == first || p in rest
  {
  }

  lemma {:induction false} PositionsOrdered(all: seq<Logged>, lo: nat, hi: nat)
    ensures forall i, j :: 0 <= i < j < |Positions(all, lo, hi)| ==> Positions(all, lo, hi)[i] < Positions(all, lo, hi)[j]
    decreases hi - lo
  {
    if lo < hi && lo < |all| {
      PositionsOrdered(all, lo + 1, hi);
      var rest := Positions(all, lo + 1, hi);
      forall i | 0 <= i < |rest|
        ensures lo < rest[i]
      {
        PositionsMembers(all, lo + 1, hi, rest[i]);
      }
    }
  }

  lemma PositionsFacts(all: seq<Logged>, lo: nat, hi: nat)
    ensures forall p: nat :: p in Positions(all, lo, hi) <==> lo <= p < hi && p < |all| && all[p].part.Completion?
    ensures forall i, j :: 0 <= i < j < |Positions(all, lo, hi)| ==> Positions(all, lo, hi)[i] < Positions(all, lo, hi)[j]
  {
    PositionsOrdered(all, lo, hi);
    forall p: nat
      ensures p in Positions(all, lo, hi) <==> lo <= p < hi && p < |all| && all[p].part.Completion?
    {
      PositionsMembers(all, lo, hi, p);
    }
  }

  lemma {:induction false} PositionsCarryExecutions(all: seq<Logged>, lo: nat, hi: nat)
    requires lo <= hi <= |all|
    ensures Executions(all[lo..hi]) == ExecutionsAt(all, Positions(all, lo, hi))
    decreases hi - lo
  {
    if lo < hi {
      PositionsCarryExecutions(all, lo + 1, hi);
      assert all[lo..hi][1..] == all[lo + 1..hi];
      var rest := Positions(all, lo + 1, hi);
      if all[lo].part.Completion? {
        assert ([lo] + rest)[1..] == rest;
      } else {
        assert [] + rest == rest;
      }
    }
  }

  /** The first call that comes late enough for position `p` finds it not yet evicted. */
  ghost predicate SeenInTime(p: nat, calls: seq<Call>)
    decreases |calls|
  {
    calls != [] && if p < calls[0].logged then calls[0].evicted <= p else SeenInTime(p, calls[1..])
  }

  /** The expected positions come in order, without duplicates, and are exactly those logged after `from` and seen in time. */
  lemma {:induction false} ExpectedIsExact(all: seq<Logged>, from: nat, calls: seq<Call>)
    ensures forall p: nat :: p in Expected(all, from, calls) <==>
              from <= p < |all| && all[p].part.Completion? && SeenInTime(p, calls)
    ensures forall i, j :: 0 <= i < j < |Expected(all, from, calls)| ==>
              Expected(all, from, calls)[i] < Expected(all, from, calls)[j]
    decreases |calls|
  {
    if calls != [] {
      var first := Positions(all, Max(from, calls[0].evicted), calls[0].logged);
      var rest := Expected(all, Max(from, calls[0].logged), calls[1..]);
      PositionsFacts(all, Max(from, calls[0].evicted), calls[0].logged);
      ExpectedIsExact(all, Max(from, calls[0].logged), calls[1..]);
      forall i, j | 0 <= i < |first| && 0 <= j < |rest|
        ensures first[i] < rest[j]
      {
        assert first[i] in first && rest[j] in rest;
      }
    }
  }

  // ----- Following cursors delivers exactly that -----

  /** The entries up to the cursor are those before position `from`. */
  ghost predicate CursorAt(all: seq<Logged>, cursor: int, from: nat) {
    forall i :: 0 <= i < |all| ==> (all[i].time <= cursor <==> i < from)
  }

  lemma NewerOfSuffix(all: seq<Logged>, cursor: int, from: nat, e: nat)
    requires CursorAt(all, cursor, from) && e <= |all|
    ensures Newer(all[e..], cursor) == if Max(from, e) < |all| then all[Max(from, e)..] else []
  {
    var log, lo := all[e..], Max(from, e);
    forall i | 0 <= i < |log|
      ensures log[i].time > cursor <==> lo <= e + i
    {
      assert log[i] == all[e + i];
    }
    if lo < |all| {
      NewerIsSuffix(log, cursor, lo - e);
      assert log[lo - e..] == all[lo..];
    } else {
      NewerEmptyIff(log, cursor);
    }
  }

  lemma NewerThanCursor(h: History, cursor: int, from: nat)
    requires HistoryInv(h) && CursorAt(h.all, cursor, from)
    ensures Newer(h.state.log, cursor) ==
            if Max(from, Evicted(h)) < |h.all| then h.all[Max(from, Evicted(h))..] else []
  {
    NewerOfSuffix(h.all, cursor, from, Evicted(h));
  }

  lemma CursorInPrefix(some: seq<Logged>, all: seq<Logged>, cursor: int, from: nat)
    requires some <= all && CursorAt(all, cursor, from)
    ensures CursorAt(some, cursor, from)
  {
    assert forall i :: 0 <= i < |some| ==> some[i] == all[i];
  }

  lemma CursorAtEntry(all: seq<Logged>, k: nat)
    requires Increasing(all) && 0 < k <= |all|
    ensures CursorAt(all, all[k - 1].time, k)
  {
  }

  lemma ReceivedIsNewer(h: History, cursor: int)
    ensures Received(h, cursor, Follow) == Executions(Newer(h.state.log, cursor))
  {
  }

  lemma RangeExecutions(some: seq<Logged>, all: seq<Logged>, lo: nat)
    requires some <= all
    ensures Executions(if lo < |some| then some[lo..] else []) == ExecutionsAt(all, Positions(all, lo, |some|))
  {
    if lo < |some| {
      assert some[lo..] == all[lo..|some|];
      PositionsCarryExecutions(all, lo, |some|);
    }
  }

  lemma OneCallDelivers(h: History, cursor: int, all: seq<Logged>, from: nat)
    requires HistoryInv(h) && h.all <= all && CursorAt(all, cursor, from)
    ensures Received(h, cursor, Follow) == ExecutionsAt(all, Positions(all, Max(from, Evicted(h)), |h.all|))
  {
    CursorInPrefix(h.all, all, cursor, from);
    NewerThanCursor(h, cursor, from);
    ReceivedIsNewer(h, cursor);
    RangeExecutions(h.all, all, Max(from, Evicted(h)));
  }

  lemma OneCallMovesCursor(h: History, cursor: int, all: seq<Logged>, from: nat)
    requires HistoryInv(h) && h.all <= all && Increasing(all) && CursorAt(all, cursor, from)
    ensures CursorAt(all, NextCursor(h, cursor, Follow), Max(from, |h.all|))
  {
    CursorInPrefix(h.all, all, cursor, from);
    NewerThanCursor(h, cursor, from);
    var n := |h.all|;
    if Max(from, Evicted(h)) < n {
      assert NextCursor(h, cursor, Follow) == h.state.log[|h.state.log| - 1].time == all[n - 1].time;
      CursorAtEntry(all, n);
    } else {
      assert NextCursor(h, cursor, Follow) == cursor;
      assert Max(from, n) == from;
    }
  }

  /**
   A reader that keeps calling `stream` with the cursor it was last given receives, over any run,
   the executions at exactly the expected positions of everything logged.
   */
  lemma {:induction false} FollowingCursorsIsExact(h: History, cursor: int, events: seq<Event>, from: nat)
    requires HistoryInv(h) && CursorAt(Final(h, cursor, events).all, cursor, from)
    ensures Delivered(h, cursor, events) ==
            ExecutionsAt(Final(h, cursor, events).all, Expected(Final(h, cursor, events).all, from, Calls(h, cursor, events)))
    decreases |events|
  {
    if events != [] {
      var all := Final(h, cursor, events).all;
      var calls := Calls(h, cursor, events);
      var h', cursor' := Next(h, cursor, events[0]), NextCursor(h, cursor, events[0]);
      RunsKeepInv(h, cursor, events);
      if events[0].LogPart? && events[0].now >= 0 {
        LoggingKeepsHistory(h, cursor, events[0].part, events[0].now);
      } else {
        OtherEventKeepsHistory(h, cursor, events[0]);
      }
      var rest := Calls(h', cursor', events[1..]);
      if events[0].Follow? {
        OneCallDelivers(h, cursor, all, from);
        OneCallMovesCursor(h, cursor, all, from);
        FollowingCursorsIsExact(h', cursor', events[1..], Max(from, |h.all|));
        assert calls == [Call(|h.all|, Evicted(h))] + rest && calls[1..] == rest;
        ExecutionsAtConcat(all, Positions(all, Max(from, Evicted(h)), |h.all|), Expected(all, Max(from, |h.all|), rest));
      } else {
        FollowingCursorsIsExact(h', cursor', events[1..], from);
        assert calls == rest;
      }
    }
  }

  function Position(all: seq<Logged>, cursor: int): nat {
    if all == [] || all[|all| - 1].time <= cursor then |all| else Position(all[..|all| - 1], cursor)
  }

  lemma {:induction false} CursorHasPosition(all: seq<Logged>, cursor: int)
    requires Increasing(all)
    ensures CursorAt(all, cursor, Position(all, cursor))
  {
    if all != [] && all[|all| - 1].time > cursor {
      var init := all[..|all| - 1];
      CursorHasPosition(init, cursor);
      assert Position(init, cursor) <= |init| by {
        PositionInRange(init, cursor);
      }
      assert forall i :: 0 <= i < |init| ==> init[i] == all[i];
    }
  }

  lemma {:induction false} PositionInRange(all: seq<Logged>, cursor: int)
    ensures Position(all, cursor) <= |all|
  {
    if all != [] && all[|all| - 1].time > cursor {
      PositionInRange(all[..|all| - 1], cursor);
    }
  }

  function Empty(maxExecutions: nat): History {
    History(State([], 0, [], maxExecutions), [])
  }

  /**
   The counter counts the completions kept, at most the bound, times increase, the newest entry is kept
   and no registered waiter has an entry newer than its cursor.
   */
  ghost predicate SoundLog(h: History, maxExecutions: nat) {
    && h.state.completions == CountCompletions(h.state.log) <= maxExecutions
    && Increasing(h.state.log)
    && (h.all != [] ==> h.state.log != [] && h.state.log[|h.state.log| - 1] == h.all[|h.all| - 1])
    && (forall w, i :: 0 <= w < |h.state.waiters| && 0 <= i < |h.state.log| ==>
          h.state.log[i].time <= h.state.waiters[w].cursor)
  }

  lemma InvMeansSound(h: History)
    requires HistoryInv(h)
    ensures SoundLog(h, h.state.maxExecutions)
  {
    WaitersAreCurrent(h.state);
  }

  /** From an empty log that holds over every run of logging and streaming. */
  lemma ReachableLogIsSound(maxExecutions: nat, cursor: int, events: seq<Event>)
    requires maxExecutions >= 1
    ensures SoundLog(Final(Empty(maxExecutions), cursor, events), maxExecutions)
  {
    RunsKeepInv(Empty(maxExecutions), cursor, events);
    BoundIsFixed(Empty(maxExecutions), cursor, events);
    InvMeansSound(Final(Empty(maxExecutions), cursor, events));
  }

  /** From an empty log, over every run, every entry carries its clock reading or the next time after its predecessor. */
  lemma TimesFollowTheClock(maxExecutions: nat, cursor: int, events: seq<Event>)
    requires maxExecutions >= 1
    ensures Clocked(Final(Empty(maxExecutions), cursor, events).all, Readings(events))
  {
    RunsFollowClock(Empty(maxExecutions), cursor, events, []);
    assert [] + Readings(events) == Readings(events);
  }

  lemma WaitersAreCurrent(s: State)
    requires Inv(s)
    ensures forall w, i :: 0 <= w < |s.waiters| && 0 <= i < |s.log| ==> s.log[i].time <= s.waiters[w].cursor
  {
    forall w, i | 0 <= w < |s.waiters| && 0 <= i < |s.log|
      ensures s.log[i].time <= s.waiters[w].cursor
    {
      NewerEmptyIff(s.log, s.waiters[w].cursor);
    }
  }

  lemma {:induction false} BoundIsFixed(h: History, cursor: int, events: seq<Event>)
    ensures Final(h, cursor, events).state.maxExecutions == h.state.maxExecutions
    decreases |events|
  {
    if events != [] {
      BoundIsFixed(Next(h, cursor, events[0]), NextCursor(h, cursor, events[0]), events[1..]);
    }
  }

  /**
   A follower starting at `cursor` receives, in log order and without duplicates, exactly the executions
   completed after it and not evicted before its first call after they were logged.
   */
  ghost predicate FollowsExactly(h: History, cursor: int, events: seq<Event>) {
    var all := Final(h, cursor, events).all;
    var calls := Calls(h, cursor, events);
    var ps := Expected(all, Position(all, cursor), calls);
    && Delivered(h, cursor, events) == ExecutionsAt(all, ps)
    && (forall i, j :: 0 <= i < j < |ps| ==> ps[i] < ps[j])
    && (forall p: nat :: p in ps <==>
          p < |all| && all[p].time > cursor && all[p].part.Completion? && SeenInTime(p, calls))
  }

  lemma SoundLogIsFollowed(h: History, cursor: int, events: seq<Event>)
    requires HistoryInv(h)
    ensures FollowsExactly(h, cursor, events)
  {
    var all := Final(h, cursor, events).all;
    RunsKeepInv(h, cursor, events);
    var from := Position(all, cursor);
    CursorHasPosition(all, cursor);
    FollowingCursorsIsExact(h, cursor, events, from);
    ExpectedIsExact(all, from, Calls(h, cursor, events));
  }

  /**
   Whatever a fresh log has been through before, a follower starting at any cursor receives in log order
   and without duplicates exactly the executions completed after that cursor that were not evicted before
   its first call after they were logged.
   */
  lemma FollowerSeesAllButTheEvicted(
    maxExecutions: nat, earlier: int, before: seq<Event>, cursor: int, events: seq<Event>)
    requires maxExecutions >= 1
    ensures FollowsExactly(Final(Empty(maxExecutions), earlier, before), cursor, events)
  {
    RunsKeepInv(Empty(maxExecutions), earlier, before);
    SoundLogIsFollowed(Final(Empty(maxExecutions), earlier, before), cursor, events);
  }
}
