/** Gets, the request queue and the generating tasks of the cache, interleaved at the lock. */
module AsyncLruProtocol {
  import opened Results
  import opened AsyncLru
  import opened Traces

  /** What a channel's receivers are sent: the outcome generated for their key, or that the request expired. */
  datatype Message = Generated(outcome: Outcome) | TimedOut

  /**
   A request owns the sending half of its channel from the moment it is queued: it waits in the
   queue, is dropped when it expired there, or has its generator run, applies the generated entries
   one by one and broadcasts when it has applied its own key.
   */
  datatype Stage =
    | Queued
    | Dropping
    | Generating
    | Applying(pending: seq<Entry>)
    | Broadcasting(pending: seq<Entry>, message: Message)

  /**
   `channels[c]` is the key channel `c` was created for, `jobs` the requests whose sending half is
   still alive, `broadcasts` the channels that have broadcast and `messages` what each of them sent.
   `leaked` is a ledger of the sizes of ready values popped by failed updates; the code keeps no such
   record.
   */
  datatype State = State(
    inner: Inner,
    leaked: nat,
    channels: seq<Key>,
    jobs: map<Channel, Stage>,
    broadcasts: seq<Channel>,
    messages: seq<Message>)

  datatype Step =
    | Get(key: Key, accepted: bool)
    | Take(c: Channel, expired: bool)
    | Drop(c: Channel)
    | Generate(c: Channel, results: seq<Entry>)
    | ApplyNext(c: Channel, now: int)
    | Broadcast(c: Channel)
    | Finish(c: Channel)

  datatype Status = Hit(value: Value) | Receiver(channel: Channel) | QueueFull

  ghost predicate UniqueKeys(entries: seq<Entry>) {
    forall i, j :: 0 <= i < j < |entries| ==> entries[i].key != entries[j].key
  }

  ghost predicate Mentions(entries: seq<Entry>, key: Key) {
    exists i :: 0 <= i < |entries| && entries[i].key == key
  }

  ghost predicate Enabled(s: State, step: Step) {
    match step
    case Get(_, _) => true
    case Take(c, _) => c in s.jobs && s.jobs[c].Queued?
    case Drop(c) => c in s.jobs && c < |s.channels| && s.jobs[c].Dropping?
    case Generate(c, results) => c in s.jobs && s.jobs[c].Generating? && UniqueKeys(results)
    case ApplyNext(c, _) => c in s.jobs && c < |s.channels| && s.jobs[c].Applying? && s.jobs[c].pending != []
    case Broadcast(c) => c in s.jobs && s.jobs[c].Broadcasting?
    case Finish(c) => c in s.jobs && s.jobs[c] == Applying([])
  }

  /** What `get_sync` returns to its caller. */
  function GetStatus(s: State, key: Key, accepted: bool): Status {
    match Lookup(s.inner.cache, key)
    case Some(Ready(value, _, _)) => Hit(value)
    case Some(Waiting(c)) => Receiver(c)
    case None => if accepted then Receiver(|s.channels|) else QueueFull
  }

  /** The state after a step; `None` is a panic. */
  ghost function Apply(s: State, step: Step): Option<State>
    requires Enabled(s, step)
  {
    match step
    case Get(key, accepted) =>
      if Lookup(s.inner.cache, key).Some? then
        Some(s.(inner := s.inner.(cache := Touch(s.inner.cache, key))))
      else if accepted then
        var c := |s.channels|;
        Some(s.(inner := s.inner.(cache := Put(s.inner.cache, key, Waiting(c))),
                channels := s.channels + [key],
                jobs := s.jobs[c := Queued]))
      else
        Some(s)
    case Take(c, expired) =>
      Some(s.(jobs := s.jobs[c := if expired then Dropping else Generating]))
    case Drop(c) =>
      (match DropWaiting(s.inner, s.channels[c])
       case None => None
       case Some(inner) => Some(s.(inner := inner, jobs := s.jobs[c := Broadcasting([], TimedOut)])))
    case Generate(c, results) =>
      Some(s.(jobs := s.jobs[c := Applying(results)]))
    case ApplyNext(c, now) =>
      var entry := s.jobs[c].pending[0];
      var rest := s.jobs[c].pending[1..];
      (match Update(s.inner, entry.key, entry.outcome, now)
       case None => None
       case Some(inner) =>
         Some(s.(inner := inner,
                 leaked := s.leaked + Leak(s.inner, entry.key, entry.outcome),
                 jobs := s.jobs[c := if entry.key == s.channels[c] then Broadcasting(rest, Generated(entry.outcome))
                                     else Applying(rest)])))
    case Broadcast(c) =>
      Some(s.(jobs := s.jobs[c := Applying(s.jobs[c].pending)],
              broadcasts := s.broadcasts + [c], messages := s.messages + [s.jobs[c].message]))
    case Finish(c) =>
      Some(s.(jobs := s.jobs - {c}))
  }

  function Start(maxSize: nat): State {
    State(Inner([], 0, maxSize), 0, [], map[], [], [])
  }

  // ----- What holds in every run -----

  /** A waiting slot sits at the key its channel was made for, and that channel has nothing behind it yet. */
  ghost predicate SlotSound(s: State, slot: Slot) {
    slot.result.Waiting? ==>
      var c := slot.result.channel;
      c < |s.channels| && s.channels[c] == slot.key && c !in s.broadcasts && (c in s.jobs ==> !s.jobs[c].Broadcasting?)
  }

  ghost predicate JobSound(s: State, c: Channel)
    requires c in s.jobs
  {
    && c < |s.channels|
    && (s.jobs[c].Applying? || s.jobs[c].Broadcasting? ==> UniqueKeys(s.jobs[c].pending))
    && (s.jobs[c].Broadcasting? ==> c !in s.broadcasts && !Mentions(s.jobs[c].pending, s.channels[c]))
    && (c in s.broadcasts ==> s.jobs[c].Applying? && !Mentions(s.jobs[c].pending, s.channels[c]))
  }

  ghost predicate Inv(s: State) {
    && Balanced(s.inner, s.leaked)
    && (forall slot :: slot in s.inner.cache ==> SlotSound(s, slot))
    && (forall c :: c in s.jobs ==> JobSound(s, c))
    && (forall i :: 0 <= i < |s.broadcasts| ==> s.broadcasts[i] < |s.channels|)
    && (forall i, j :: 0 <= i < j < |s.broadcasts| ==> s.broadcasts[i] != s.broadcasts[j])
  }

  lemma GetKeepsInv(s: State, key: Key, accepted: bool)
    requires Inv(s)
    ensures Inv(Apply(s, Get(key, accepted)).value)
  {
    var s' := Apply(s, Get(key, accepted)).value;
    TouchFacts(s.inner.cache, key);
    if Lookup(s.inner.cache, key).None? && accepted {
      PutFacts(s.inner.cache, key, Waiting(|s.channels|));
      forall c | c in s'.jobs
        ensures JobSound(s', c)
      {
        assert c in s.jobs ==> JobSound(s, c);
      }
      forall slot | slot in s'.inner.cache
        ensures SlotSound(s', slot)
      {
        assert slot in s.inner.cache ==> SlotSound(s, slot);
      }
    }
  }

  lemma DropKeepsInv(s: State, c: Channel)
    requires Inv(s) && Enabled(s, Drop(c)) && Apply(s, Drop(c)).Some?
    ensures Inv(Apply(s, Drop(c)).value)
  {
    var s' := Apply(s, Drop(c)).value;
    var key := s.channels[c];
    WithoutMembers(s.inner.cache, key);
    WithoutDistinct(s.inner.cache, key);
    WithoutSize(s.inner.cache, key);
    assert s' == s.(inner := s'.inner, jobs := s.jobs[c := Broadcasting([], TimedOut)]);
    assert JobSound(s, c);
    forall x | x in s'.jobs
      ensures JobSound(s', x)
    {
      assert JobSound(s, x);
    }
    forall slot | slot in s'.inner.cache
      ensures SlotSound(s', slot)
    {
      assert SlotSound(s, slot);
    }
  }

  lemma ApplyNextKeepsInv(s: State, c: Channel, now: int)
    requires Inv(s) && Enabled(s, ApplyNext(c, now))
    ensures Apply(s, ApplyNext(c, now)).Some?
    ensures Inv(Apply(s, ApplyNext(c, now)).value)
  {
    var entry := s.jobs[c].pending[0];
    UpdateStaysBalanced(s.inner, s.leaked, entry.key, entry.outcome, now);
    var s' := Apply(s, ApplyNext(c, now)).value;
    assert JobSound(s, c);
    forall x | x in s'.jobs
      ensures JobSound(s', x)
    {
      assert JobSound(s, x);
      if x == c {
        var rest := s.jobs[c].pending[1..];
        assert UniqueKeys(rest);
        assert forall i :: 0 <= i < |rest| ==> rest[i] == s.jobs[c].pending[i + 1];
      }
    }
    forall slot | slot in s'.inner.cache
      ensures SlotSound(s', slot)
    {
      UpdateOnlyEvictsOthers(s.inner, s.leaked, entry.key, entry.outcome, now, slot);
      assert slot in s.inner.cache ==> SlotSound(s, slot);
    }
  }

  lemma JobStepKeepsInv(s: State, step: Step)
    requires Inv(s) && Enabled(s, step)
    requires step.Take? || step.Generate? || step.Broadcast? || step.Finish?
    ensures Apply(s, step).Some? && Inv(Apply(s, step).value)
  {
    var s' := Apply(s, step).value;
    assert JobSound(s, step.c);
    forall x | x in s'.jobs
      ensures JobSound(s', x)
    {
      assert JobSound(s, x);
    }
    forall slot | slot in s'.inner.cache
      ensures SlotSound(s', slot)
    {
      assert SlotSound(s, slot);
    }
  }

  /** Only dropping an expired request can panic; every other step succeeds and keeps the invariant. */
  lemma StepKeepsInv(s: State, step: Step)
    requires Inv(s) && Enabled(s, step)
    ensures !step.Drop? ==> Apply(s, step).Some?
    ensures Apply(s, step).Some? ==> Inv(Apply(s, step).value)
  {
    match step
    case Get(key, accepted) => GetKeepsInv(s, key, accepted);
    case Drop(c) =>
      if Apply(s, step).Some? {
        DropKeepsInv(s, c);
      }
    case ApplyNext(c, now) => ApplyNextKeepsInv(s, c, now);
    case _ => JobStepKeepsInv(s, step);
  }

  ghost predicate Feasible(s: State, steps: seq<Step>)
    decreases |steps|
  {
    steps == [] || (Enabled(s, steps[0]) && Apply(s, steps[0]).Some? && Feasible(Apply(s, steps[0]).value, steps[1..]))
  }

  ghost function After(s: State, steps: seq<Step>): State
    requires Feasible(s, steps)
    decreases |steps|
  {
    if steps == [] then s else After(Apply(s, steps[0]).value, steps[1..])
  }

  lemma {:induction false} RunsKeepInv(s: State, steps: seq<Step>)
    requires Inv(s) && Feasible(s, steps)
    ensures Inv(After(s, steps))
    decreases |steps|
  {
    if steps != [] {
      StepKeepsInv(s, steps[0]);
      RunsKeepInv(Apply(s, steps[0]).value, steps[1..]);
    }
  }

  /**
   Over every interleaving of gets, prefetches, failures, expiries and evictions the size counter
   equals the ready sizes plus the ledger and is within the limit, so no later update can panic.
   */
  lemma SizeLedgerBalances(maxSize: nat, steps: seq<Step>, key: Key, outcome: Outcome, now: int)
    requires Feasible(Start(maxSize), steps)
    ensures var s := After(Start(maxSize), steps);
            && s.inner.currentSize == ReadySize(s.inner.cache) + s.leaked <= s.inner.maxSize
            && Update(s.inner, key, outcome, now).Some?
            && (s.leaked == 0 ==> s.inner.currentSize == ReadySize(s.inner.cache))
  {
    RunsKeepInv(Start(maxSize), steps);
    var s := After(Start(maxSize), steps);
    UpdateStaysBalanced(s.inner, s.leaked, key, outcome, now);
  }

  /** A receiver is only ever handed out before its channel broadcasts, and no channel broadcasts twice. */
  lemma ReceiversPredateBroadcast(maxSize: nat, steps: seq<Step>, key: Key, accepted: bool)
    requires Feasible(Start(maxSize), steps)
    ensures var s := After(Start(maxSize), steps);
            && (GetStatus(s, key, accepted).Receiver? ==> GetStatus(s, key, accepted).channel !in s.broadcasts)
            && (forall slot :: slot in s.inner.cache && slot.result.Waiting? ==> slot.result.channel !in s.broadcasts)
            && (forall i, j :: 0 <= i < j < |s.broadcasts| ==> s.broadcasts[i] != s.broadcasts[j])
  {
    RunsKeepInv(Start(maxSize), steps);
    var s := After(Start(maxSize), steps);
    assert forall slot :: slot in s.inner.cache ==> SlotSound(s, slot);
    match Lookup(s.inner.cache, key)
    case Some(Waiting(c)) =>
      LookupFinds(s.inner.cache, key, Waiting(c));
      assert SlotSound(s, Slot(key, Waiting(c)));
    case _ =>
      assert forall i :: 0 <= i < |s.broadcasts| ==> s.broadcasts[i] != |s.channels|;
  }

  // ----- No receiver is stranded, if generators answer for their own key -----

  /** The request still has its own key to apply. */
  ghost predicate Outstanding(s: State, c: Channel) {
    && c in s.jobs && c < |s.channels|
    && !s.jobs[c].Broadcasting?
    && (s.jobs[c].Applying? ==> Mentions(s.jobs[c].pending, s.channels[c]))
  }

  ghost predicate Attended(s: State) {
    forall slot :: slot in s.inner.cache && slot.result.Waiting? ==> Outstanding(s, slot.result.channel)
  }

  ghost predicate AnswersOwnKey(s: State, step: Step) {
    step.Generate? && step.c < |s.channels| ==> Mentions(step.results, s.channels[step.c])
  }

  lemma OutstandingSurvives(s: State, step: Step, c: Channel)
    requires Inv(s) && Enabled(s, step) && Apply(s, step).Some? && AnswersOwnKey(s, step)
    requires Outstanding(s, c)
    requires !((step.Drop? || step.ApplyNext?) && step.c == c)
    ensures Outstanding(Apply(s, step).value, c)
  {
    var s' := Apply(s, step).value;
    assert s'.channels[c] == s.channels[c];
    assert JobSound(s, c);
    if step.Finish? {
      assert s.jobs[step.c] == Applying([]);
      assert step.c != c;
    }
  }

  lemma ApplyingAnotherKeyStaysOutstanding(s: State, c: Channel, now: int)
    requires Inv(s) && Enabled(s, ApplyNext(c, now)) && Outstanding(s, c)
    requires s.jobs[c].pending[0].key != s.channels[c] && Apply(s, ApplyNext(c, now)).Some?
    ensures Outstanding(Apply(s, ApplyNext(c, now)).value, c)
  {
    var p := s.jobs[c].pending;
    var i :| 0 <= i < |p| && p[i].key == s.channels[c];
    assert p[1..][i - 1] == p[i];
  }

  lemma StepKeepsAttended(s: State, step: Step)
    requires Inv(s) && Attended(s) && Enabled(s, step) && Apply(s, step).Some? && AnswersOwnKey(s, step)
    ensures Attended(Apply(s, step).value)
  {
    var s' := Apply(s, step).value;
    forall slot | slot in s'.inner.cache && slot.result.Waiting?
      ensures Outstanding(s', slot.result.channel)
    {
      var x := slot.result.channel;
      if step.Get? {
        TouchFacts(s.inner.cache, step.key);
        PutFacts(s.inner.cache, step.key, Waiting(|s.channels|));
        if slot in s.inner.cache {
          OutstandingSurvives(s, step, x);
        }
      } else if step.ApplyNext? {
        var entry := s.jobs[step.c].pending[0];
        UpdateOnlyEvictsOthers(s.inner, s.leaked, entry.key, entry.outcome, step.now, slot);
        assert SlotSound(s, slot);
        if step.c == x {
          ApplyingAnotherKeyStaysOutstanding(s, x, step.now);
        } else {
          OutstandingSurvives(s, step, x);
        }
      } else if step.Drop? {
        WithoutMembers(s.inner.cache, s.channels[step.c]);
        assert SlotSound(s, slot);
        OutstandingSurvives(s, step, x);
      } else {
        OutstandingSurvives(s, step, x);
      }
    }
  }

  /** A generated map strands receivers exactly when it omits the requested key while that key still waits on this request. */
  lemma GenerateStrandsIff(s: State, c: Channel, results: seq<Entry>)
    requires Inv(s) && Attended(s) && Enabled(s, Generate(c, results))
    ensures Attended(Apply(s, Generate(c, results)).value) <==>
            Mentions(results, s.channels[c]) || Slot(s.channels[c], Waiting(c)) !in s.inner.cache
  {
    var s' := Apply(s, Generate(c, results)).value;
    assert JobSound(s, c);
    if Mentions(results, s.channels[c]) {
      StepKeepsAttended(s, Generate(c, results));
    } else {
      assert !Outstanding(s', c);
      forall slot | slot in s.inner.cache && slot.result.Waiting? && slot.result.channel != c
        ensures Outstanding(s', slot.result.channel)
      {
        assert Outstanding(s, slot.result.channel);
      }
      forall slot | slot in s.inner.cache && slot.result == Waiting(c)
        ensures slot == Slot(s.channels[c], Waiting(c))
      {
        assert SlotSound(s, slot);
      }
    }
  }

  ghost predicate AllAnswerOwnKey(s: State, steps: seq<Step>)
    requires Feasible(s, steps)
    decreases |steps|
  {
    steps == [] || (AnswersOwnKey(s, steps[0]) && AllAnswerOwnKey(Apply(s, steps[0]).value, steps[1..]))
  }

  /** The channel has broadcast, is about to, or has a request that still has its key to apply. */
  ghost predicate Resolving(s: State, c: Channel) {
    c in s.broadcasts || (c in s.jobs && s.jobs[c].Broadcasting?) || Outstanding(s, c)
  }

  ghost predicate AllResolving(s: State) {
    forall c: Channel :: c < |s.channels| ==> Resolving(s, c)
  }

  lemma StepKeepsResolving(s: State, step: Step, c: Channel)
    requires Inv(s) && Enabled(s, step) && Apply(s, step).Some? && AnswersOwnKey(s, step)
    requires c < |Apply(s, step).value.channels|
    requires c < |s.channels| ==> Resolving(s, c)
    ensures Resolving(Apply(s, step).value, c)
  {
    var s' := Apply(s, step).value;
    if c < |s.channels| && c !in s.broadcasts {
      if s.jobs[c].Broadcasting? {
        if step.Broadcast? && step.c == c {
          assert s'.broadcasts[|s.broadcasts|] == c;
        }
      } else if step.ApplyNext? && step.c == c {
        if s.jobs[c].pending[0].key != s.channels[c] {
          ApplyingAnotherKeyStaysOutstanding(s, c, step.now);
        }
      } else if !(step.Drop? && step.c == c) {
        OutstandingSurvives(s, step, c);
      }
    }
  }

  lemma {:induction false} RunsKeepResolving(s: State, steps: seq<Step>)
    requires Inv(s) && Attended(s) && AllResolving(s) && Feasible(s, steps) && AllAnswerOwnKey(s, steps)
    ensures Inv(After(s, steps)) && Attended(After(s, steps)) && AllResolving(After(s, steps))
    decreases |steps|
  {
    if steps != [] {
      var s' := Apply(s, steps[0]).value;
      StepKeepsInv(s, steps[0]);
      StepKeepsAttended(s, steps[0]);
      forall c: Channel | c < |s'.channels|
        ensures Resolving(s', c)
      {
        StepKeepsResolving(s, steps[0], c);
      }
      RunsKeepResolving(s', steps[1..]);
    }
  }

  /** No task has anything left to do: only a new get can happen. */
  ghost predicate Quiet(s: State) {
    forall step: Step :: Enabled(s, step) ==> step.Get?
  }

  /** A live task always has a next step. */
  lemma JobCanGoOn(s: State, c: Channel) returns (step: Step)
    requires Inv(s) && c in s.jobs
    ensures Enabled(s, step) && !step.Get?
  {
    assert JobSound(s, c);
    match s.jobs[c]
    case Queued => step := Take(c, false);
    case Dropping => step := Drop(c);
    case Generating => step := Generate(c, []);
    case Applying(pending) => step := if pending == [] then Finish(c) else ApplyNext(c, 0);
    case Broadcasting(_, _) => step := Broadcast(c);
  }

  /**
   In runs whose generators always include the requested key, every channel ever handed out has
   broadcast or has a request that will, evicted slots included; a waiting slot always has such a
   request; and once no task can go on, every channel has broadcast.
   */
  lemma NoStrandedReceivers(maxSize: nat, steps: seq<Step>, c: Channel)
    requires Feasible(Start(maxSize), steps) && AllAnswerOwnKey(Start(maxSize), steps)
    requires c < |After(Start(maxSize), steps).channels|
    ensures Resolving(After(Start(maxSize), steps), c)
    ensures Attended(After(Start(maxSize), steps))
    ensures Quiet(After(Start(maxSize), steps)) ==> c in After(Start(maxSize), steps).broadcasts
  {
    RunsKeepResolving(Start(maxSize), steps);
    if c in After(Start(maxSize), steps).jobs {
      var step := JobCanGoOn(After(Start(maxSize), steps), c);
    }
  }

  // ----- Single flight -----

  /** Generators produce the requested key only, and trimming evicts no waiting slot. */
  ghost predicate Disciplined(s: State, step: Step) {
    && (step.Generate? && step.c < |s.channels| ==> |step.results| == 1 && step.results[0].key == s.channels[step.c])
    && (step.ApplyNext? && Enabled(s, step) && Apply(s, step).Some? ==>
          forall slot :: slot in s.inner.cache && slot.result.Waiting? && slot.key != s.channels[step.c]
                         ==> slot in Apply(s, step).value.inner.cache)
  }

  ghost predicate SingleFlight(s: State) {
    && s.leaked == 0
    && (forall c: Channel :: Outstanding(s, c) ==> Slot(s.channels[c], Waiting(c)) in s.inner.cache)
    && (forall c :: c in s.jobs && s.jobs[c].Applying? && s.jobs[c].pending != [] ==>
          c < |s.channels| && |s.jobs[c].pending| == 1 && s.jobs[c].pending[0].key == s.channels[c])
    && (forall c :: c in s.jobs && s.jobs[c].Broadcasting? ==> s.jobs[c].pending == [])
  }

  /** Under that discipline a key is waiting exactly for its one outstanding request, and dropping never panics. */
  lemma WaitingIffOneOutstanding(s: State, key: Key, c: Channel)
    requires Inv(s) && Attended(s) && SingleFlight(s)
    ensures Lookup(s.inner.cache, key) == Some(Waiting(c)) <==> Outstanding(s, c) && s.channels[c] == key
    ensures forall d: Channel :: Outstanding(s, c) && Outstanding(s, d) && s.channels[c] == s.channels[d] ==> c == d
    ensures Enabled(s, Drop(c)) ==> Apply(s, Drop(c)).Some?
    ensures s.inner.currentSize == ReadySize(s.inner.cache)
  {
    LookupFinds(s.inner.cache, key, Waiting(c));
    if Slot(key, Waiting(c)) in s.inner.cache {
      assert SlotSound(s, Slot(key, Waiting(c)));
    }
    if Outstanding(s, c) {
      LookupFinds(s.inner.cache, s.channels[c], Waiting(c));
      forall d: Channel | Outstanding(s, d) && s.channels[c] == s.channels[d]
        ensures c == d
      {
        LookupFinds(s.inner.cache, s.channels[d], Waiting(d));
      }
    }
    if Enabled(s, Drop(c)) {
      assert Outstanding(s, c);
    }
  }

  lemma OutstandingWasOutstanding(s: State, step: Step, x: Channel)
    requires Inv(s) && SingleFlight(s) && Enabled(s, step) && Apply(s, step).Some? && Disciplined(s, step)
    requires Outstanding(Apply(s, step).value, x)
    ensures (step.Get? && x == |s.channels| && x !in s.jobs) || (Outstanding(s, x) && s.channels[x] == Apply(s, step).value.channels[x])
    ensures (step.ApplyNext? || step.Drop?) ==> x != step.c
  {
    if x in s.jobs {
      assert JobSound(s, x);
    }
  }

  lemma StepKeepsSlots(s: State, step: Step, x: Channel)
    requires Inv(s) && SingleFlight(s) && Enabled(s, step) && Apply(s, step).Some? && Disciplined(s, step)
    requires Outstanding(Apply(s, step).value, x)
    ensures Slot(Apply(s, step).value.channels[x], Waiting(x)) in Apply(s, step).value.inner.cache
  {
    OutstandingWasOutstanding(s, step, x);
    if step.Get? {
      TouchFacts(s.inner.cache, step.key);
      PutFacts(s.inner.cache, step.key, Waiting(|s.channels|));
      if Outstanding(s, x) {
        LookupFinds(s.inner.cache, s.channels[x], Waiting(x));
      }
    } else if step.Drop? || step.ApplyNext? {
      var slot := Slot(s.channels[x], Waiting(x));
      assert slot in s.inner.cache;
      if s.channels[x] == s.channels[step.c] {
        assert Outstanding(s, step.c) by {
          if step.ApplyNext? {
            assert s.jobs[step.c].pending[0].key == s.channels[step.c];
          }
        }
        LookupFinds(s.inner.cache, s.channels[x], Waiting(x));
        LookupFinds(s.inner.cache, s.channels[x], Waiting(step.c));
      }
      WithoutMembers(s.inner.cache, s.channels[step.c]);
    }
  }

  lemma StepKeepsSingleFlight(s: State, step: Step)
    requires Inv(s) && SingleFlight(s) && Enabled(s, step) && Apply(s, step).Some? && Disciplined(s, step)
    ensures SingleFlight(Apply(s, step).value)
  {
    var s' := Apply(s, step).value;
    forall x: Channel | Outstanding(s', x)
      ensures Slot(s'.channels[x], Waiting(x)) in s'.inner.cache
    {
      StepKeepsSlots(s, step, x);
    }
    if step.ApplyNext? {
      var c := step.c;
      var entry := s.jobs[c].pending[0];
      assert Outstanding(s, c);
      LookupFinds(s.inner.cache, s.channels[c], Waiting(c));
      assert Leak(s.inner, entry.key, entry.outcome) == 0;
    }
    forall c | c in s'.jobs && s'.jobs[c].Applying? && s'.jobs[c].pending != []
      ensures c < |s'.channels| && |s'.jobs[c].pending| == 1 && s'.jobs[c].pending[0].key == s'.channels[c]
    {
      if c in s.jobs {
        assert JobSound(s, c);
      }
    }
  }

  ghost predicate AllDisciplined(s: State, steps: seq<Step>)
    requires Feasible(s, steps)
    decreases |steps|
  {
    steps == [] || (Disciplined(s, steps[0]) && AllDisciplined(Apply(s, steps[0]).value, steps[1..]))
  }

  /**
   In single-key runs that evict no waiting slot each value is generated once at a time, the drop
   panic is unreachable and the counter is exact.
   */
  lemma {:induction false} DisciplinedRunsAreSingleFlight(s: State, steps: seq<Step>)
    requires Inv(s) && Attended(s) && SingleFlight(s)
    requires Feasible(s, steps) && AllDisciplined(s, steps)
    ensures Inv(After(s, steps)) && Attended(After(s, steps)) && SingleFlight(After(s, steps))
    decreases |steps|
  {
    if steps != [] {
      StepKeepsInv(s, steps[0]);
      if steps[0].Generate? {
        assert JobSound(s, steps[0].c);
        assert steps[0].results[0].key == s.channels[steps[0].c];
      }
      StepKeepsAttended(s, steps[0]);
      StepKeepsSingleFlight(s, steps[0]);
      DisciplinedRunsAreSingleFlight(Apply(s, steps[0]).value, steps[1..]);
    }
  }

  /**
   From an empty cache, in single-key runs that evict no waiting slot: no step panics, in particular no
   drop, a key is waiting exactly for its one outstanding request, and the counter is exact.
   */
  lemma DisciplinedRunsNeverPanic(maxSize: nat, steps: seq<Step>, step: Step, key: Key, c: Channel)
    requires Feasible(Start(maxSize), steps) && AllDisciplined(Start(maxSize), steps)
    ensures var s := After(Start(maxSize), steps);
            && (Enabled(s, step) ==> Apply(s, step).Some?)
            && (Lookup(s.inner.cache, key) == Some(Waiting(c)) <==> Outstanding(s, c) && s.channels[c] == key)
            && (forall d: Channel :: Outstanding(s, c) && Outstanding(s, d) && s.channels[c] == s.channels[d] ==> c == d)
            && s.inner.currentSize == ReadySize(s.inner.cache)
  {
    var s := After(Start(maxSize), steps);
    DisciplinedRunsAreSingleFlight(Start(maxSize), steps);
    WaitingIffOneOutstanding(s, key, c);
    if Enabled(s, step) {
      StepKeepsInv(s, step);
      if step.Drop? {
        WaitingIffOneOutstanding(s, key, step.c);
      }
    }
  }

  // ----- When dropping an expired request panics -----

  /** Dropping an expired request panics exactly when its key has become ready in the meantime. */
  lemma DropPanicsIffReady(s: State, c: Channel)
    requires Inv(s) && Enabled(s, Drop(c))
    ensures Apply(s, Drop(c)) == None <==>
            exists slot :: slot in s.inner.cache && slot.key == s.channels[c] && slot.result.Ready?
  {
    var key := s.channels[c];
    match Lookup(s.inner.cache, key)
    case Some(r) =>
      LookupFinds(s.inner.cache, key, r);
      forall slot | slot in s.inner.cache && slot.key == key
        ensures slot == Slot(key, r)
      {
        LookupFinds(s.inner.cache, key, slot.result);
      }
    case None =>
      forall slot | slot in s.inner.cache
        ensures slot.key != key
      {
        LookupFinds(s.inner.cache, slot.key, slot.result);
      }
  }

  /** The step puts a built value under the key that request `c` was made for. */
  ghost predicate Fills(s: State, step: Step, c: Channel)
    requires Enabled(s, step)
  {
    && step.ApplyNext? && c < |s.channels|
    && s.jobs[step.c].pending[0].key == s.channels[c] && s.jobs[step.c].pending[0].outcome.Built?
  }

  function NewSlot(entry: Entry, now: int): Slot
    requires entry.outcome.Built?
  {
    Slot(entry.key, Ready(entry.outcome.value, entry.outcome.size, now))
  }

  /** From here to the end of the run the slot is neither evicted nor replaced nor failed. */
  ghost predicate Stays(s: State, steps: seq<Step>, slot: Slot)
    requires Feasible(s, steps)
    decreases |steps|
  {
    slot in s.inner.cache && (steps == [] || Stays(Apply(s, steps[0]).value, steps[1..], slot))
  }

  /** Somewhere in the run, after request `c` was made, a value was built under its key and has stayed since. */
  ghost predicate FilledAndStayed(s: State, steps: seq<Step>, c: Channel)
    requires Feasible(s, steps)
    decreases |steps|
  {
    steps != [] &&
    var s' := Apply(s, steps[0]).value;
    || (Fills(s, steps[0], c) && Stays(s', steps[1..], NewSlot(s.jobs[steps[0].c].pending[0], steps[0].now)))
    || FilledAndStayed(s', steps[1..], c)
  }

  /** A ready value for the key of `c` is there already and stays to the end of the run. */
  ghost predicate ReadyAndStays(s: State, steps: seq<Step>, c: Channel)
    requires Feasible(s, steps)
  {
    c < |s.channels| && exists slot: Slot :: slot.key == s.channels[c] && slot.result.Ready? && Stays(s, steps, slot)
  }

  /** A ready slot appears under the key of `c` only by being built there. */
  lemma ReadySlotWasBuilt(s: State, step: Step, c: Channel, slot: Slot)
    requires Inv(s) && Enabled(s, step) && Apply(s, step).Some?
    requires var s' := Apply(s, step).value;
             c < |s'.channels| && slot in s'.inner.cache && slot.key == s'.channels[c] && slot.result.Ready?
    ensures c < |s.channels| && s.channels[c] == slot.key
    ensures slot in s.inner.cache || (Fills(s, step, c) && slot == NewSlot(s.jobs[step.c].pending[0], step.now))
  {
    match step
    case Get(key, accepted) =>
      TouchFacts(s.inner.cache, key);
      PutFacts(s.inner.cache, key, Waiting(|s.channels|));
    case Drop(d) =>
      WithoutMembers(s.inner.cache, s.channels[d]);
    case ApplyNext(d, now) =>
      var entry := s.jobs[d].pending[0];
      UpdateOnlyEvictsOthers(s.inner, s.leaked, entry.key, entry.outcome, now, slot);
    case _ =>
  }

  lemma ReadyBeforeOrBuilt(s: State, steps: seq<Step>, c: Channel)
    requires Inv(s) && Feasible(s, steps) && steps != []
    requires ReadyAndStays(Apply(s, steps[0]).value, steps[1..], c)
    ensures ReadyAndStays(s, steps, c)
            || (Fills(s, steps[0], c)
                && Stays(Apply(s, steps[0]).value, steps[1..], NewSlot(s.jobs[steps[0].c].pending[0], steps[0].now)))
  {
    var s' := Apply(s, steps[0]).value;
    var slot: Slot :| slot.key == s'.channels[c] && slot.result.Ready? && Stays(s', steps[1..], slot);
    ReadySlotWasBuilt(s, steps[0], c, slot);
    if slot in s.inner.cache {
      assert Stays(s, steps, slot);
    }
  }

  lemma {:induction false} ReadyIffFilled(s: State, steps: seq<Step>, c: Channel)
    requires Inv(s) && Feasible(s, steps)
    ensures ReadyAndStays(After(s, steps), [], c) <==> FilledAndStayed(s, steps, c) || ReadyAndStays(s, steps, c)
    decreases |steps|
  {
    if steps != [] {
      var s' := Apply(s, steps[0]).value;
      StepKeepsInv(s, steps[0]);
      ReadyIffFilled(s', steps[1..], c);
      if ReadyAndStays(s', steps[1..], c) {
        ReadyBeforeOrBuilt(s, steps, c);
      }
      if ReadyAndStays(s, steps, c) {
        var slot: Slot :| slot.key == s.channels[c] && slot.result.Ready? && Stays(s, steps, slot);
        assert s'.channels[c] == s.channels[c] && Stays(s', steps[1..], slot);
      }
      if Fills(s, steps[0], c) {
        assert s'.channels == s.channels;
      }
    }
  }

  /**
   Over every run: dropping an expired request panics exactly when, since the request was made, some
   generated map built a value under its key and that value has stayed in the cache ever since.
   */
  lemma DropPanicsIffFilledSince(maxSize: nat, steps: seq<Step>, c: Channel)
    requires Feasible(Start(maxSize), steps) && Enabled(After(Start(maxSize), steps), Drop(c))
    ensures Apply(After(Start(maxSize), steps), Drop(c)) == None <==> FilledAndStayed(Start(maxSize), steps, c)
  {
    var s := After(Start(maxSize), steps);
    RunsKeepInv(Start(maxSize), steps);
    DropPanicsIffReady(s, c);
    ReadyIffFilled(Start(maxSize), steps, c);
    if slot :| slot in s.inner.cache && slot.key == s.channels[c] && slot.result.Ready? {
      assert Stays(s, [], slot);
    }
  }

  // ----- What gets and receivers are given -----

  /** In the past some generator for request `c` returned this entry. */
  ghost predicate Returned(past: seq<Step>, c: Channel, entry: Entry) {
    exists results :: Generate(c, results) in past && entry in results
  }

  /** The message of channel `c` is what the generator of its request returned for `key`, or the request expired. */
  ghost predicate Justified(past: seq<Step>, c: Channel, key: Key, message: Message) {
    match message
    case Generated(outcome) => Returned(past, c, Entry(key, outcome))
    case TimedOut => Take(c, true) in past
  }

  ghost predicate JobTraced(past: seq<Step>, s: State, c: Channel)
    requires c in s.jobs
  {
    match s.jobs[c]
    case Queued => true
    case Dropping => Take(c, true) in past
    case Generating => true
    case Applying(pending) => forall e :: e in pending ==> Returned(past, c, e)
    case Broadcasting(pending, message) =>
      && (forall e :: e in pending ==> Returned(past, c, e))
      && c < |s.channels| && Justified(past, c, s.channels[c], message)
  }

  ghost predicate SlotTraced(past: seq<Step>, slot: Slot) {
    slot.result.Ready? ==> exists c :: Returned(past, c, Entry(slot.key, Built(slot.result.value, slot.result.size)))
  }

  ghost predicate Traced(past: seq<Step>, s: State) {
    && (forall c :: c in s.jobs ==> JobTraced(past, s, c))
    && (forall slot :: slot in s.inner.cache ==> SlotTraced(past, slot))
    && |s.messages| == |s.broadcasts|
    && (forall i :: 0 <= i < |s.broadcasts| ==>
          s.broadcasts[i] < |s.channels| && Justified(past, s.broadcasts[i], s.channels[s.broadcasts[i]], s.messages[i]))
  }

  lemma ReturnedGrows(past: seq<Step>, step: Step, c: Channel, entry: Entry)
    requires Returned(past, c, entry)
    ensures Returned(past + [step], c, entry)
  {
    var results :| Generate(c, results) in past && entry in results;
    assert Generate(c, results) in past + [step];
  }

  lemma JustifiedGrows(past: seq<Step>, step: Step, c: Channel, key: Key, message: Message)
    requires Justified(past, c, key, message)
    ensures Justified(past + [step], c, key, message)
  {
    if message.Generated? {
      ReturnedGrows(past, step, c, Entry(key, message.outcome));
    }
  }

  lemma JobStaysTraced(past: seq<Step>, s: State, step: Step, c: Channel)
    requires Inv(s) && Traced(past, s) && Enabled(s, step) && Apply(s, step).Some? && c in Apply(s, step).value.jobs
    ensures JobTraced(past + [step], Apply(s, step).value, c)
  {
    var past' := past + [step];
    var s' := Apply(s, step).value;
    assert step in past';
    if c in s.jobs {
      assert JobSound(s, c) && JobTraced(past, s, c);
      if s.jobs[c].Applying? || s.jobs[c].Broadcasting? {
        forall e | e in s.jobs[c].pending
          ensures Returned(past', c, e)
        {
          ReturnedGrows(past, step, c, e);
        }
      }
      if s.jobs[c].Broadcasting? {
        JustifiedGrows(past, step, c, s.channels[c], s.jobs[c].message);
      }
    }
  }

  lemma SlotStaysTraced(past: seq<Step>, s: State, step: Step, slot: Slot)
    requires Inv(s) && Traced(past, s) && Enabled(s, step) && Apply(s, step).Some?
    requires slot in Apply(s, step).value.inner.cache && slot.result.Ready?
    ensures SlotTraced(past + [step], slot)
  {
    var entry := SlotOrigin(s, step, slot);
    if slot in s.inner.cache {
      assert SlotTraced(past, slot);
    } else {
      assert JobTraced(past, s, step.c) && entry in s.jobs[step.c].pending;
    }
    var c :| Returned(past, c, entry);
    ReturnedGrows(past, step, c, entry);
  }

  lemma SlotOrigin(s: State, step: Step, slot: Slot) returns (entry: Entry)
    requires Inv(s) && Enabled(s, step) && Apply(s, step).Some?
    requires slot in Apply(s, step).value.inner.cache && slot.result.Ready?
    ensures entry == Entry(slot.key, Built(slot.result.value, slot.result.size))
    ensures slot in s.inner.cache || (step.ApplyNext? && entry == s.jobs[step.c].pending[0])
  {
    entry := Entry(slot.key, Built(slot.result.value, slot.result.size));
    match step
    case Get(key, accepted) =>
      TouchFacts(s.inner.cache, key);
      PutFacts(s.inner.cache, key, Waiting(|s.channels|));
    case Drop(d) =>
      WithoutMembers(s.inner.cache, s.channels[d]);
    case ApplyNext(d, now) =>
      var next := s.jobs[d].pending[0];
      UpdateOnlyEvictsOthers(s.inner, s.leaked, next.key, next.outcome, now, slot);
    case _ =>
  }

  lemma StepStaysTraced(past: seq<Step>, s: State, step: Step)
    requires Inv(s) && Traced(past, s) && Enabled(s, step) && Apply(s, step).Some?
    ensures Traced(past + [step], Apply(s, step).value)
  {
    var s' := Apply(s, step).value;
    forall c | c in s'.jobs
      ensures JobTraced(past + [step], s', c)
    {
      JobStaysTraced(past, s, step, c);
    }
    forall slot | slot in s'.inner.cache
      ensures SlotTraced(past + [step], slot)
    {
      if slot.result.Ready? {
        SlotStaysTraced(past, s, step, slot);
      }
    }
    forall i | 0 <= i < |s'.broadcasts|
      ensures s'.broadcasts[i] < |s'.channels|
      ensures Justified(past + [step], s'.broadcasts[i], s'.channels[s'.broadcasts[i]], s'.messages[i])
    {
      if i < |s.broadcasts| {
        JustifiedGrows(past, step, s.broadcasts[i], s.channels[s.broadcasts[i]], s.messages[i]);
      } else {
        assert JobTraced(past, s, step.c);
        JustifiedGrows(past, step, step.c, s.channels[step.c], s.jobs[step.c].message);
      }
    }
  }

  lemma {:induction false} RunsStayTraced(past: seq<Step>, s: State, steps: seq<Step>, all: seq<Step>)
    requires Inv(s) && Traced(past, s) && Feasible(s, steps) && all == past + steps
    ensures Traced(all, After(s, steps))
    decreases |steps|
  {
    if steps == [] {
      assert all == past;
    } else {
      StepKeepsInv(s, steps[0]);
      StepStaysTraced(past, s, steps[0]);
      assert all == past + [steps[0]] + steps[1..];
      RunsStayTraced(past + [steps[0]], Apply(s, steps[0]).value, steps[1..], all);
    }
  }

  lemma StartIsTraced(maxSize: nat)
    ensures Traced([], Start(maxSize))
  {
  }

  lemma ReachableIsTraced(maxSize: nat, steps: seq<Step>)
    requires Feasible(Start(maxSize), steps)
    ensures Inv(After(Start(maxSize), steps)) && Traced(steps, After(Start(maxSize), steps))
  {
    RunsKeepInv(Start(maxSize), steps);
    StartIsTraced(maxSize);
    RunsStayTraced([], Start(maxSize), steps, steps);
  }

  /**
   Over every run: what a channel broadcasts is the outcome its own request's generator returned for
   the key the channel was made for, or the expiry of that request.
   */
  lemma BroadcastsAreGenerated(maxSize: nat, steps: seq<Step>, i: nat)
    requires Feasible(Start(maxSize), steps)
    requires i < |After(Start(maxSize), steps).broadcasts|
    ensures var s := After(Start(maxSize), steps);
            && |s.messages| == |s.broadcasts| && s.broadcasts[i] < |s.channels|
            && Justified(steps, s.broadcasts[i], s.channels[s.broadcasts[i]], s.messages[i])
  {
    ReachableIsTraced(maxSize, steps);
  }

  /** And a value a get finds ready is one that some generator built for that key. */
  lemma HitsAreGenerated(maxSize: nat, steps: seq<Step>, key: Key, accepted: bool) returns (c: Channel, size: nat)
    requires Feasible(Start(maxSize), steps)
    requires GetStatus(After(Start(maxSize), steps), key, accepted).Hit?
    ensures Returned(steps, c, Entry(key, Built(GetStatus(After(Start(maxSize), steps), key, accepted).value, size)))
  {
    var s := After(Start(maxSize), steps);
    ReachableIsTraced(maxSize, steps);
    var ready := Lookup(s.inner.cache, key).value;
    LookupFinds(s.inner.cache, key, ready);
    assert SlotTraced(steps, Slot(key, ready));
    size := ready.size;
    c :| Returned(steps, c, Entry(key, Built(ready.value, size)));
  }

  /** No request has had its generator run twice, and those that had are applying its results or done. */
  ghost predicate RunOnce(past: seq<Step>, s: State) {
    && (forall i :: 0 <= i < |past| && past[i].Generate? ==>
          past[i].c < |s.channels| && (past[i].c in s.jobs ==> s.jobs[past[i].c].Applying? || s.jobs[past[i].c].Broadcasting?))
    && (forall i, j :: 0 <= i < j < |past| && past[i].Generate? && past[j].Generate? ==> past[i].c != past[j].c)
  }

  lemma StepKeepsRunOnce(past: seq<Step>, s: State, step: Step)
    requires Inv(s) && RunOnce(past, s) && Enabled(s, step) && Apply(s, step).Some?
    ensures RunOnce(past + [step], Apply(s, step).value)
  {
    assert step.Generate? ==> JobSound(s, step.c);
  }

  lemma {:induction false} RunsKeepRunOnce(past: seq<Step>, s: State, steps: seq<Step>, all: seq<Step>)
    requires Inv(s) && RunOnce(past, s) && Feasible(s, steps) && all == past + steps
    ensures RunOnce(all, After(s, steps))
    decreases |steps|
  {
    if steps == [] {
      assert all == past;
    } else {
      StepKeepsInv(s, steps[0]);
      StepKeepsRunOnce(past, s, steps[0]);
      assert all == past + [steps[0]] + steps[1..];
      RunsKeepRunOnce(past + [steps[0]], Apply(s, steps[0]).value, steps[1..], all);
    }
  }

  /** Over every run the generator of a request runs at most once, so what it returned is unambiguous. */
  lemma GeneratorRunsOnce(maxSize: nat, steps: seq<Step>, i: nat, j: nat)
    requires Feasible(Start(maxSize), steps) && i < j < |steps| && steps[i].Generate? && steps[j].Generate?
    ensures steps[i].c != steps[j].c
  {
    RunsKeepRunOnce([], Start(maxSize), steps, steps);
  }

  /** The entries a step makes the task of request `c` apply. */
  ghost function AppliedNow(s: State, step: Step, c: Channel): seq<Entry>
    requires Enabled(s, step)
  {
    if step.ApplyNext? && step.c == c then [s.jobs[c].pending[0]] else []
  }

  ghost function Applied(s: State, steps: seq<Step>, c: Channel): seq<Entry>
    requires Feasible(s, steps)
    decreases |steps|
  {
    if steps == [] then [] else AppliedNow(s, steps[0], c) + Applied(Apply(s, steps[0]).value, steps[1..], c)
  }

  function ReturnedNow(step: Step, c: Channel): seq<Entry> {
    if step.Generate? && step.c == c then step.results else []
  }

  /** What the generator of request `c` returned in a run. */
  function ReturnedBy(steps: seq<Step>, c: Channel): seq<Entry> {
    if steps == [] then [] else ReturnedNow(steps[0], c) + ReturnedBy(steps[1..], c)
  }

  function PendingOf(s: State, c: Channel): seq<Entry> {
    if c in s.jobs && (s.jobs[c].Applying? || s.jobs[c].Broadcasting?) then s.jobs[c].pending else []
  }

  lemma StepAppliesInOrder(s: State, step: Step, c: Channel)
    requires Inv(s) && Enabled(s, step) && Apply(s, step).Some?
    ensures AppliedNow(s, step, c) + PendingOf(Apply(s, step).value, c) == PendingOf(s, c) + ReturnedNow(step, c)
  {
    if c in s.jobs {
      assert JobSound(s, c);
    }
    if step.ApplyNext? && step.c == c {
      assert [s.jobs[c].pending[0]] + s.jobs[c].pending[1..] == s.jobs[c].pending + [];
    } else if !step.Generate? {
      assert PendingOf(Apply(s, step).value, c) == PendingOf(s, c);
    }
  }

  lemma {:induction false} RunAppliesInOrder(s: State, steps: seq<Step>, c: Channel)
    requires Inv(s) && Feasible(s, steps)
    ensures Applied(s, steps, c) + PendingOf(After(s, steps), c) == PendingOf(s, c) + ReturnedBy(steps, c)
    decreases |steps|
  {
    if steps != [] {
      var s' := Apply(s, steps[0]).value;
      StepKeepsInv(s, steps[0]);
      StepAppliesInOrder(s, steps[0], c);
      RunAppliesInOrder(s', steps[1..], c);
      Reassociate(AppliedNow(s, steps[0], c), Applied(s', steps[1..], c), PendingOf(After(s, steps), c),
                  PendingOf(s', c), PendingOf(s, c), ReturnedNow(steps[0], c), ReturnedBy(steps[1..], c));
    }
  }

  lemma Reassociate(a: seq<Entry>, b: seq<Entry>, end: seq<Entry>, mid: seq<Entry>, start: seq<Entry>, x: seq<Entry>, y: seq<Entry>)
    requires b + end == mid + y && a + mid == start + x
    ensures (a + b) + end == start + (x + y)
  {
    assert (a + b) + end == a + (b + end);
    assert a + (mid + y) == (a + mid) + y;
    assert (start + x) + y == start + (x + y);
  }

  /**
   Over every run: the entries a task has applied are, in order, a prefix of what its generator returned,
   the rest still pending, also behind the broadcast; once the task has finished it has applied all of them.
   */
  lemma EveryEntryIsApplied(maxSize: nat, steps: seq<Step>, c: Channel)
    requires Feasible(Start(maxSize), steps)
    ensures Applied(Start(maxSize), steps, c) + PendingOf(After(Start(maxSize), steps), c) == ReturnedBy(steps, c)
    ensures c !in After(Start(maxSize), steps).jobs ==> Applied(Start(maxSize), steps, c) == ReturnedBy(steps, c)
  {
    RunAppliesInOrder(Start(maxSize), steps, c);
    assert [] + ReturnedBy(steps, c) == ReturnedBy(steps, c);
    assert Applied(Start(maxSize), steps, c) + [] == Applied(Start(maxSize), steps, c);
  }

  /** How far a request is from being done, and how much it has left to do in its last stage. */
  function StageOf(s: State, c: Channel): nat {
    if c !in s.jobs then 0
    else match s.jobs[c]
      case Queued => 3
      case Dropping => 2
      case Generating => 2
      case Applying(_) => 1
      case Broadcasting(_, _) => 1
  }

  function LeftToDo(s: State, c: Channel): nat {
    2 * |PendingOf(s, c)| + if c in s.jobs && s.jobs[c].Broadcasting? then 1 else 0
  }

  /**
   Every step of a task brings it closer to its end and touches no other task: the stages go down, and within
   the last one each step lowers what is left, so a task is done after at most two steps per returned entry
   and one more.
   */
  lemma TaskMakesProgress(s: State, step: Step, other: Channel)
    requires Inv(s) && Enabled(s, step) && Apply(s, step).Some? && !step.Get?
    ensures var s' := Apply(s, step).value;
            && (StageOf(s', step.c) < StageOf(s, step.c)
                || (StageOf(s', step.c) == StageOf(s, step.c) == 1 && LeftToDo(s', step.c) < LeftToDo(s, step.c)))
            && (other != step.c ==> StageOf(s', other) == StageOf(s, other) && PendingOf(s', other) == PendingOf(s, other))
  {
  }

  /** What `get_sync` answers and does, told by what the cache holds under the key. */
  ghost predicate AnswersFor(s: State, key: Key, accepted: bool, s': State) {
    match GetStatus(s, key, accepted)
    case Hit(value) =>
      && s'.jobs == s.jobs
      && exists size, added :: Slot(key, Ready(value, size, added)) in s.inner.cache
    case Receiver(c) =>
      && c < |s'.channels| && s'.channels[c] == key && Slot(key, Waiting(c)) in s'.inner.cache
      && (Slot(key, Waiting(c)) in s.inner.cache ==> s'.jobs == s.jobs)
      && (Slot(key, Waiting(c)) !in s.inner.cache ==> accepted && Absent(s, key) && s'.jobs == s.jobs[c := Queued] && c !in s.jobs)
    case QueueFull => s' == s && !accepted && Absent(s, key)
  }

  ghost predicate Absent(s: State, key: Key) {
    forall slot :: slot in s.inner.cache ==> slot.key != key
  }

  lemma MissAnswers(s: State, key: Key, accepted: bool)
    requires Inv(s) && Lookup(s.inner.cache, key).None?
    ensures AnswersFor(s, key, accepted, Apply(s, Get(key, accepted)).value)
  {
    PutFacts(s.inner.cache, key, Waiting(|s.channels|));
    LookupNoneIff(s.inner.cache, key);
    assert |s.channels| in s.jobs ==> JobSound(s, |s.channels|);
  }

  lemma FoundAnswers(s: State, key: Key, accepted: bool)
    requires Inv(s) && Lookup(s.inner.cache, key).Some?
    ensures AnswersFor(s, key, accepted, Apply(s, Get(key, accepted)).value)
  {
    var r := Lookup(s.inner.cache, key).value;
    TouchFacts(s.inner.cache, key);
    LookupFinds(s.inner.cache, key, r);
    assert SlotSound(s, Slot(key, r));
    if r.Ready? {
      assert Slot(key, Ready(r.value, r.size, r.added)) in s.inner.cache;
    }
  }

  /**
   Over every run: a hit is a ready value under the key; a receiver belongs to the channel made for that key,
   which is what the cache then holds there; a full queue is reported on a refused miss and changes nothing;
   only an accepted miss makes a request.
   */
  lemma GetAnswersForItsKey(maxSize: nat, steps: seq<Step>, key: Key, accepted: bool)
    requires Feasible(Start(maxSize), steps)
    ensures var s := After(Start(maxSize), steps);
            AnswersFor(s, key, accepted, Apply(s, Get(key, accepted)).value)
  {
    var s := After(Start(maxSize), steps);
    RunsKeepInv(Start(maxSize), steps);
    if Lookup(s.inner.cache, key).Some? {
      FoundAnswers(s, key, accepted);
    } else {
      MissAnswers(s, key, accepted);
    }
  }

  lemma LookupNoneIff(cache: Cache, key: Key)
    requires Distinct(cache)
    ensures Lookup(cache, key) == None <==> forall slot :: slot in cache ==> slot.key != key
  {
    if Lookup(cache, key).Some? {
      LookupFinds(cache, key, Lookup(cache, key).value);
    }
    forall slot | slot in cache
      ensures Lookup(cache, slot.key).Some?
    {
      LookupFinds(cache, slot.key, slot.result);
    }
  }

  // ----- Recency -----

  /** The key a step uses: one that is asked for, or one that is generated. */
  function UsedNow(s: State, step: Step): seq<Key> {
    match step
    case Get(key, _) => [key]
    case ApplyNext(c, _) =>
      if c in s.jobs && s.jobs[c].Applying? && s.jobs[c].pending != [] then [s.jobs[c].pending[0].key] else []
    case _ => []
  }

  /** The keys used in a run, in order. */
  ghost function Uses(s: State, steps: seq<Step>): seq<Key>
    requires Feasible(s, steps)
    decreases |steps|
  {
    if steps == [] then [] else UsedNow(s, steps[0]) + Uses(Apply(s, steps[0]).value, steps[1..])
  }

  /** Slots are in the order in which their keys were last used. */
  ghost predicate ByLastUse(cache: Cache, uses: seq<Key>) {
    && (forall i :: 0 <= i < |cache| ==> LastIndex(uses, cache[i].key) >= 0)
    && (forall i, j :: 0 <= i < j < |cache| ==> LastIndex(uses, cache[i].key) < LastIndex(uses, cache[j].key))
  }

  lemma OrderOfRest(cache: Cache, uses: seq<Key>)
    requires cache != [] && ByLastUse(cache, uses)
    ensures ByLastUse(cache[1..], uses)
    ensures forall slot :: slot in cache[1..] ==> LastIndex(uses, cache[0].key) < LastIndex(uses, slot.key)
  {
    var rest := cache[1..];
    assert forall i :: 0 <= i < |rest| ==> rest[i] == cache[i + 1];
  }

  lemma OrderWithFirst(slot: Slot, rest: Cache, uses: seq<Key>)
    requires ByLastUse(rest, uses) && LastIndex(uses, slot.key) >= 0
    requires forall other :: other in rest ==> LastIndex(uses, slot.key) < LastIndex(uses, other.key)
    ensures ByLastUse([slot] + rest, uses)
  {
    var all := [slot] + rest;
    forall j | 0 < j < |all|
      ensures LastIndex(uses, slot.key) < LastIndex(uses, all[j].key)
    {
      assert all[j] == rest[j - 1] && rest[j - 1] in rest;
    }
    forall i, j | 0 < i < j < |all|
      ensures LastIndex(uses, all[i].key) < LastIndex(uses, all[j].key)
    {
      assert all[i] == rest[i - 1] && all[j] == rest[j - 1];
    }
  }

  lemma {:induction false} WithoutKeepsOrder(cache: Cache, key: Key, uses: seq<Key>)
    requires ByLastUse(cache, uses)
    ensures ByLastUse(Without(cache, key), uses)
  {
    if cache != [] {
      OrderOfRest(cache, uses);
      WithoutKeepsOrder(cache[1..], key, uses);
      WithoutMembers(cache[1..], key);
      if cache[0].key == key {
        assert [] + Without(cache[1..], key) == Without(cache[1..], key);
      } else {
        OrderWithFirst(cache[0], Without(cache[1..], key), uses);
      }
    }
  }

  /** Using a key that is not in the cache changes no other key's last use. */
  lemma OtherUseKeepsOrder(cache: Cache, uses: seq<Key>, key: Key)
    requires ByLastUse(cache, uses) && forall i :: 0 <= i < |cache| ==> cache[i].key != key
    ensures ByLastUse(cache, uses + [key])
  {
    forall i | 0 <= i < |cache|
      ensures LastIndex(uses + [key], cache[i].key) == LastIndex(uses, cache[i].key)
    {
      LastIndexAfter(uses, key, cache[i].key);
    }
  }

  lemma WithoutUsedKeepsOrder(cache: Cache, uses: seq<Key>, key: Key)
    requires ByLastUse(cache, uses)
    ensures ByLastUse(Without(cache, key), uses + [key])
    ensures forall i :: 0 <= i < |Without(cache, key)| ==> Without(cache, key)[i].key != key
  {
    var rest := Without(cache, key);
    WithoutKeepsOrder(cache, key, uses);
    WithoutMembers(cache, key);
    assert forall i :: 0 <= i < |rest| ==> rest[i] in rest;
    OtherUseKeepsOrder(rest, uses, key);
  }

  lemma PutKeepsOrder(cache: Cache, uses: seq<Key>, key: Key, result: CacheResult)
    requires ByLastUse(cache, uses)
    ensures ByLastUse(Put(cache, key, result), uses + [key])
  {
    WithoutUsedKeepsOrder(cache, uses, key);
    LastIndexAfter(uses, key, key);
    var rest := Without(cache, key);
    forall i | 0 <= i < |rest|
      ensures LastIndex(uses + [key], rest[i].key) < |uses|
    {
      LastIndexAfter(uses, key, rest[i].key);
    }
  }

  lemma GetKeepsOrder(s: State, uses: seq<Key>, key: Key, accepted: bool)
    requires Inv(s) && ByLastUse(s.inner.cache, uses)
    ensures ByLastUse(Apply(s, Get(key, accepted)).value.inner.cache, uses + [key])
  {
    match Lookup(s.inner.cache, key)
    case Some(r) =>
      PutKeepsOrder(s.inner.cache, uses, key, r);
    case None =>
      PutKeepsOrder(s.inner.cache, uses, key, Waiting(|s.channels|));
      LookupNoneIff(s.inner.cache, key);
      OtherUseKeepsOrder(s.inner.cache, uses, key);
  }

  lemma UpdateKeepsOrder(inner: Inner, leaked: nat, uses: seq<Key>, key: Key, outcome: Outcome, now: int)
    requires Balanced(inner, leaked) && ByLastUse(inner.cache, uses) && Update(inner, key, outcome, now).Some?
    ensures ByLastUse(Update(inner, key, outcome, now).value.cache, uses + [key])
  {
    match outcome
    case Failed =>
      WithoutUsedKeepsOrder(inner.cache, uses, key);
    case Built(value, size) =>
      PutKeepsOrder(inner.cache, uses, key, Ready(value, size, now));
      BuiltIsTrimmed(inner, leaked, key, value, size, now);
  }

  lemma StepKeepsOrder(s: State, uses: seq<Key>, step: Step)
    requires Inv(s) && ByLastUse(s.inner.cache, uses) && Enabled(s, step) && Apply(s, step).Some?
    ensures ByLastUse(Apply(s, step).value.inner.cache, uses + UsedNow(s, step))
  {
    match step
    case Get(key, accepted) => GetKeepsOrder(s, uses, key, accepted);
    case ApplyNext(c, now) =>
      UpdateKeepsOrder(s.inner, s.leaked, uses, s.jobs[c].pending[0].key, s.jobs[c].pending[0].outcome, now);
    case Drop(c) =>
      WithoutKeepsOrder(s.inner.cache, s.channels[c], uses);
      assert uses + [] == uses;
    case _ =>
      assert uses + [] == uses;
  }

  lemma UsesFirst(s: State, uses: seq<Key>, steps: seq<Step>)
    requires Feasible(s, steps) && steps != []
    ensures uses + Uses(s, steps) == uses + UsedNow(s, steps[0]) + Uses(Apply(s, steps[0]).value, steps[1..])
  {
  }

  lemma {:induction false} RunsKeepOrder(s: State, uses: seq<Key>, steps: seq<Step>)
    requires Inv(s) && ByLastUse(s.inner.cache, uses) && Feasible(s, steps)
    ensures ByLastUse(After(s, steps).inner.cache, uses + Uses(s, steps))
    decreases |steps|
  {
    if steps == [] {
      assert uses + [] == uses;
    } else {
      StepKeepsInv(s, steps[0]);
      StepKeepsOrder(s, uses, steps[0]);
      UsesFirst(s, uses, steps);
      RunsKeepOrder(Apply(s, steps[0]).value, uses + UsedNow(s, steps[0]), steps[1..]);
    }
  }

  /** Over every run the cache lists its slots in the order in which their keys were last asked for or generated. */
  lemma CacheIsByLastUse(maxSize: nat, steps: seq<Step>)
    requires Feasible(Start(maxSize), steps)
    ensures ByLastUse(After(Start(maxSize), steps).inner.cache, Uses(Start(maxSize), steps))
  {
    RunsKeepOrder(Start(maxSize), [], steps);
    assert [] + Uses(Start(maxSize), steps) == Uses(Start(maxSize), steps);
  }

  lemma SuffixWasUsedLater(cache: Cache, uses: seq<Key>, n: nat, evicted: Slot, kept: Slot)
    requires ByLastUse(cache, uses) && n <= |cache|
    requires evicted in cache && evicted !in cache[n..] && kept in cache[n..]
    ensures LastIndex(uses, evicted.key) < LastIndex(uses, kept.key)
  {
    var i :| 0 <= i < |cache| && cache[i] == evicted;
    var j :| 0 <= j < |cache[n..]| && cache[n..][j] == kept;
    assert cache[n + j] == kept;
    assert forall x :: n <= x < |cache| ==> cache[x] == cache[n..][x - n];
  }

  /** A slot that an update evicts was last used before every slot that it keeps. */
  lemma UpdateEvictsOldest(inner: Inner, leaked: nat, uses: seq<Key>, key: Key, outcome: Outcome, now: int, evicted: Slot, kept: Slot)
    requires Balanced(inner, leaked) && ByLastUse(inner.cache, uses) && Update(inner, key, outcome, now).Some?
    requires evicted in inner.cache && evicted.key != key && evicted !in Update(inner, key, outcome, now).value.cache
    requires kept in Update(inner, key, outcome, now).value.cache
    ensures LastIndex(uses + [key], evicted.key) < LastIndex(uses + [key], kept.key)
  {
    WithoutMembers(inner.cache, key);
    if outcome.Built? {
      var ready := Ready(outcome.value, outcome.size, now);
      var cache := Put(inner.cache, key, ready);
      PutKeepsOrder(inner.cache, uses, key, ready);
      BuiltIsTrimmed(inner, leaked, key, outcome.value, outcome.size, now);
      SuffixWasUsedLater(cache, uses + [key], Evictions(cache, leaked, inner.maxSize), evicted, kept);
    }
  }

  /** Over every run, applying an entry evicts in order of last use: what goes was used before all that stays. */
  lemma EvictsLeastRecentlyUsed(maxSize: nat, steps: seq<Step>, c: Channel, now: int, evicted: Slot, kept: Slot)
    requires Feasible(Start(maxSize), steps)
    requires var s := After(Start(maxSize), steps);
             && Enabled(s, ApplyNext(c, now)) && Apply(s, ApplyNext(c, now)).Some?
             && evicted in s.inner.cache && evicted.key != s.jobs[c].pending[0].key
             && evicted !in Apply(s, ApplyNext(c, now)).value.inner.cache
             && kept in Apply(s, ApplyNext(c, now)).value.inner.cache
    ensures var uses := Uses(Start(maxSize), steps) + [After(Start(maxSize), steps).jobs[c].pending[0].key];
            LastIndex(uses, evicted.key) < LastIndex(uses, kept.key)
  {
    var s := After(Start(maxSize), steps);
    RunsKeepInv(Start(maxSize), steps);
    CacheIsByLastUse(maxSize, steps);
    UpdateEvictsOldest(s.inner, s.leaked, Uses(Start(maxSize), steps), s.jobs[c].pending[0].key,
                       s.jobs[c].pending[0].outcome, now, evicted, kept);
  }

  // ----- Why the discipline is needed -----

  lemma {:induction false} Extend(s: State, steps: seq<Step>, step: Step)
    requires Feasible(s, steps) && Enabled(After(s, steps), step) && Apply(After(s, steps), step).Some?
    ensures Feasible(s, steps + [step])
    ensures After(s, steps + [step]) == Apply(After(s, steps), step).value
    decreases |steps|
  {
    var all := steps + [step];
    if steps == [] {
      assert all[1..] == [];
    } else {
      assert all[1..] == steps[1..] + [step];
      Extend(Apply(s, steps[0]).value, steps[1..], step);
    }
  }

  lemma OneRequested(maxSize: nat)
    ensures Feasible(Start(maxSize), [Get(1, true)])
    ensures After(Start(maxSize), [Get(1, true)]) ==
            State(Inner([Slot(1, Waiting(0))], 0, maxSize), 0, [1], map[0 := Queued], [], [])
  {
    assert Put([], 1, Waiting(0)) == [Slot(1, Waiting(0))];
    Extend(Start(maxSize), [], Get(1, true));
    assert [] + [Get(1, true)] == [Get(1, true)];
  }

  lemma BothRequested(maxSize: nat)
    ensures Feasible(Start(maxSize), [Get(1, true), Get(2, true)])
    ensures After(Start(maxSize), [Get(1, true), Get(2, true)]) ==
            State(Inner([Slot(1, Waiting(0)), Slot(2, Waiting(1))], 0, maxSize), 0, [1, 2],
                  map[0 := Queued, 1 := Queued], [], [])
  {
    OneRequested(maxSize);
    WithoutAbsent([Slot(1, Waiting(0))], 2);
    assert Put([Slot(1, Waiting(0))], 2, Waiting(1)) == [Slot(1, Waiting(0)), Slot(2, Waiting(1))];
    Extend(Start(maxSize), [Get(1, true)], Get(2, true));
    assert [Get(1, true)] + [Get(2, true)] == [Get(1, true), Get(2, true)];
  }

  /** Two keys requested and the first request taken up: both slots waiting, channels 0 and 1. */
  lemma TwoRequested(maxSize: nat)
    ensures var steps := [Get(1, true), Get(2, true), Take(0, false)];
            && Feasible(Start(maxSize), steps)
            && After(Start(maxSize), steps) ==
               State(Inner([Slot(1, Waiting(0)), Slot(2, Waiting(1))], 0, maxSize), 0, [1, 2],
                     map[0 := Generating, 1 := Queued], [], [])
  {
    BothRequested(maxSize);
    Extend(Start(maxSize), [Get(1, true), Get(2, true)], Take(0, false));
    assert [Get(1, true), Get(2, true)] + [Take(0, false)] == [Get(1, true), Get(2, true), Take(0, false)];
  }

  /** The first request's generator then prefetches the second key. */
  lemma SecondPrefetched()
    ensures var results := [Entry(2, Built(7, 3)), Entry(1, Built(8, 1))];
            var steps := [Get(1, true), Get(2, true), Take(0, false)] + [Generate(0, results)] + [ApplyNext(0, 0)];
            && Feasible(Start(10), steps)
            && After(Start(10), steps) ==
               State(Inner([Slot(1, Waiting(0)), Slot(2, Ready(7, 3, 0))], 3, 10), 0, [1, 2],
                     map[0 := Applying([Entry(1, Built(8, 1))]), 1 := Queued], [], [])
  {
    var results := [Entry(2, Built(7, 3)), Entry(1, Built(8, 1))];
    var steps := [Get(1, true), Get(2, true), Take(0, false)];
    TwoRequested(10);
    Extend(Start(10), steps, Generate(0, results));
    FillSecond(0, 10, 3);
    Extend(Start(10), steps + [Generate(0, results)], ApplyNext(0, 0));
  }

  lemma FillSecond(c: Channel, maxSize: nat, size: nat)
    requires size <= maxSize
    ensures Update(Inner([Slot(1, Waiting(c)), Slot(2, Waiting(1))], 0, maxSize), 2, Built(7, size), 0)
            == Some(Inner([Slot(1, Waiting(c)), Slot(2, Ready(7, size, 0))], size, maxSize))
  {
    var cache := [Slot(1, Waiting(c)), Slot(2, Waiting(1))];
    assert cache[1..][1..] == [];
    assert Without(cache[1..], 2) == [];
    assert Lookup(cache[1..], 2) == Some(Waiting(1));
    assert Without(cache, 2) == [Slot(1, Waiting(c))];
    assert Put(cache, 2, Ready(7, size, 0)) == [Slot(1, Waiting(c)), Slot(2, Ready(7, size, 0))];
  }

  /** A prefetch that fills the slot of a queued request makes the expiry of that request panic. */
  lemma PrefetchThenExpiryPanics()
    ensures exists steps :: && Feasible(Start(10), steps)
                            && Enabled(After(Start(10), steps), Drop(1))
                            && Apply(After(Start(10), steps), Drop(1)) == None
  {
    SecondPrefetched();
    var results := [Entry(2, Built(7, 3)), Entry(1, Built(8, 1))];
    var steps := [Get(1, true), Get(2, true), Take(0, false)] + [Generate(0, results)] + [ApplyNext(0, 0)];
    assert Lookup(After(Start(10), steps).inner.cache, 2) == Some(Ready(7, 3, 0));
    ExpiryOfReadyPanics(Start(10), steps, 1);
  }

  lemma FailSecond()
    ensures var inner := Inner([Slot(1, Waiting(0)), Slot(2, Ready(7, 3, 0))], 3, 10);
            && Update(inner, 2, Failed, 0) == Some(Inner([Slot(1, Waiting(0))], 3, 10))
            && Leak(inner, 2, Failed) == 3
    ensures ReadySize([Slot(1, Waiting(0))]) == 0
  {
    var cache := [Slot(1, Waiting(0)), Slot(2, Ready(7, 3, 0))];
    assert cache[1..] == [Slot(2, Ready(7, 3, 0))] && cache[1..][1..] == [];
    assert Without(cache[1..], 2) == [];
    assert Without(cache, 2) == [Slot(1, Waiting(0))];
    assert Lookup(cache[1..], 2) == Some(Ready(7, 3, 0));
  }

  /** When a key was prefetched and its own request then fails, the ready value is popped without giving its size back. */
  lemma FailureAfterPrefetchLeaks()
    ensures exists steps :: && Feasible(Start(10), steps)
                            && var s := After(Start(10), steps);
                               s.leaked == 3 && s.inner.currentSize == 3 && ReadySize(s.inner.cache) == 0
  {
    SecondPrefetched();
    FailSecond();
    var results := [Entry(2, Built(7, 3)), Entry(1, Built(8, 1))];
    var steps := [Get(1, true), Get(2, true), Take(0, false)] + [Generate(0, results)] + [ApplyNext(0, 0)];
    var steps' := RunSecond(Start(10), steps, 1, Failed);
    var s := After(Start(10), steps');
    assert s.leaked == 3 && s.inner.currentSize == 3 && ReadySize(s.inner.cache) == 0;
  }

  /** Takes a queued request for key 2, generates the outcome and applies it. */
  lemma RunSecond(s0: State, steps: seq<Step>, c: Channel, outcome: Outcome) returns (steps': seq<Step>)
    requires Feasible(s0, steps)
    requires var s := After(s0, steps);
             && c in s.jobs && s.jobs[c] == Queued && c < |s.channels| && s.channels[c] == 2
             && Update(s.inner, 2, outcome, 0).Some?
    ensures Feasible(s0, steps')
    ensures var s := After(s0, steps);
            After(s0, steps') == s.(inner := Update(s.inner, 2, outcome, 0).value,
                                    leaked := s.leaked + Leak(s.inner, 2, outcome),
                                    jobs := s.jobs[c := Broadcasting([], Generated(outcome))])
  {
    Extend(s0, steps, Take(c, false));
    steps' := steps + [Take(c, false)];
    Extend(s0, steps', Generate(c, [Entry(2, outcome)]));
    steps' := steps' + [Generate(c, [Entry(2, outcome)])];
    Extend(s0, steps', ApplyNext(c, 0));
    steps' := steps' + [ApplyNext(c, 0)];
    assert [Entry(2, outcome)][1..] == [];
    assert After(s0, steps').jobs == After(s0, steps).jobs[c := Broadcasting([], Generated(outcome))];
  }

  /** A generator that leaves out the requested key leaves its waiters a channel nobody will ever broadcast on. */
  lemma OmittedKeyStrandsReceivers(maxSize: nat)
    ensures exists steps :: && Feasible(Start(maxSize), steps)
                            && var s := After(Start(maxSize), steps);
                               GetStatus(s, 1, true) == Receiver(0) && 0 !in s.jobs && 0 !in s.broadcasts
  {
    var s0 := Start(maxSize);
    var steps := [Get(1, true), Get(2, true), Take(0, false)];
    TwoRequested(maxSize);
    Extend(s0, steps, Generate(0, []));
    steps := steps + [Generate(0, [])];
    Extend(s0, steps, Finish(0));
    steps := steps + [Finish(0)];
    var s := After(s0, steps);
    assert GetStatus(s, 1, true) == Receiver(0) && 0 !in s.jobs && 0 !in s.broadcasts;
  }

  lemma OversizedEmptiesCache()
    ensures Update(Inner([Slot(1, Waiting(0)), Slot(2, Waiting(1))], 0, 1), 1, Built(8, 2), 0) == Some(Inner([], 0, 1))
  {
    var cache := [Slot(1, Waiting(0)), Slot(2, Waiting(1))];
    WithoutAbsent(cache[1..], 1);
    var put := Put(cache, 1, Ready(8, 2, 0));
    assert put == [Slot(2, Waiting(1)), Slot(1, Ready(8, 2, 0))];
    assert put[1..][1..] == [];
    assert Trim(put[1..], 2, 1) == Some(([], 0));
  }

  /** An oversized value evicts every slot, waiting ones included. */
  lemma OversizedEvictsWaiting()
    ensures var steps := [Get(1, true), Get(2, true), Take(0, false)]
                         + [Generate(0, [Entry(1, Built(8, 2))])] + [ApplyNext(0, 0)];
            && Feasible(Start(1), steps)
            && After(Start(1), steps) ==
               State(Inner([], 0, 1), 0, [1, 2], map[0 := Broadcasting([], Generated(Built(8, 2))), 1 := Queued], [], [])
  {
    var steps := [Get(1, true), Get(2, true), Take(0, false)];
    var results := [Entry(1, Built(8, 2))];
    TwoRequested(1);
    Extend(Start(1), steps, Generate(0, results));
    OversizedEmptiesCache();
    assert results[1..] == [];
    Extend(Start(1), steps + [Generate(0, results)], ApplyNext(0, 0));
  }

  /** The evicted key is then requested again while its first request is still queued. */
  lemma RequestedAgain(steps: seq<Step>) returns (steps': seq<Step>)
    requires Feasible(Start(1), steps)
    requires After(Start(1), steps) == State(Inner([], 0, 1), 0, [1, 2], map[0 := Broadcasting([], Generated(Built(8, 2))), 1 := Queued], [], [])
    ensures Feasible(Start(1), steps')
    ensures After(Start(1), steps') == State(Inner([Slot(2, Waiting(2))], 0, 1), 0, [1, 2, 2],
                                             map[0 := Broadcasting([], Generated(Built(8, 2))), 1 := Queued, 2 := Queued], [], [])
  {
    assert Put([], 2, Waiting(2)) == [Slot(2, Waiting(2))];
    Extend(Start(1), steps, Get(2, true));
    steps' := steps + [Get(2, true)];
  }

  lemma FillsSecondAgain()
    ensures Update(Inner([Slot(2, Waiting(2))], 0, 1), 2, Built(7, 1), 0) == Some(Inner([Slot(2, Ready(7, 1, 0))], 1, 1))
  {
    assert Put([Slot(2, Waiting(2))], 2, Ready(7, 1, 0)) == [Slot(2, Ready(7, 1, 0))];
  }

  lemma ExpiryOfReadyPanics(s0: State, steps: seq<Step>, c: Channel)
    requires Feasible(s0, steps)
    requires var s := After(s0, steps);
             && c in s.jobs && s.jobs[c] == Queued && c < |s.channels|
             && Lookup(s.inner.cache, s.channels[c]).Some? && Lookup(s.inner.cache, s.channels[c]).value.Ready?
    ensures Feasible(s0, steps + [Take(c, true)])
    ensures Enabled(After(s0, steps + [Take(c, true)]), Drop(c))
    ensures Apply(After(s0, steps + [Take(c, true)]), Drop(c)) == None
  {
    Extend(s0, steps, Take(c, true));
  }

  /** Without any prefetch, evicting a waiting slot lets a second request for its key start and panic on expiry. */
  lemma EvictedWaiterThenExpiryPanics()
    ensures exists steps :: && Feasible(Start(1), steps)
                            && Enabled(After(Start(1), steps), Drop(2))
                            && Apply(After(Start(1), steps), Drop(2)) == None
  {
    OversizedEvictsWaiting();
    var steps := RequestedAgain([Get(1, true), Get(2, true), Take(0, false)]
                                + [Generate(0, [Entry(1, Built(8, 2))])] + [ApplyNext(0, 0)]);
    FillsSecondAgain();
    steps := RunSecond(Start(1), steps, 1, Built(7, 1));
    ExpiryOfReadyPanics(Start(1), steps, 2);
  }
}
