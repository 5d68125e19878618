/**
 The two caches of the Proxmox inventory as a state machine.

 Callers read the clock before they wait for the snapshot lock. The one that holds the lock
 collects rows and loads their details in parallel through the cache of details. Time may
 pass between any two steps, every load and every collection can fail.
 */
module InventoryCache {
  import opened Wrappers

  type CallId = nat

  datatype Key = Key(node: string, vmid: int)

  // A row of the list of machines; `running` decides whether the guest agent is asked.
  datatype Row = Row(key: Key, running: bool)

  // What was observed of a machine, from which row and during which collection.
  datatype Observation = Observation(collection: nat, row: Row, config: bool, agent: bool)

  datatype Detail = Detail(at: real, observation: Observation)

  datatype Snapshot = Snapshot(collection: nat, rows: seq<Row>, details: seq<Option<Observation>>)

  datatype Cached = Cached(at: real, snapshot: Snapshot)

  datatype Load = Reading(now: real) | Fetching | Loaded(result: Option<Observation>)

  datatype Collection = Collection(call: CallId, entry: real, number: nat, rows: seq<Row>, loads: map<nat, Load>)

  // A snapshot handed to a caller; `at` is when it was taken into the cache.
  datatype Answer = Answer(entry: real, at: real, served: bool, snapshot: Snapshot)

  datatype State = State(
    clock: real,
    cached: Option<Cached>,
    details: map<Key, Detail>,
    waiting: map<CallId, real>,
    collecting: Option<Collection>,
    started: nat,
    answers: seq<Answer>)

  const INIT := State(0.0, None, map[], map[], None, 0, [])

  datatype Step =
    | Tick(passed: real)
    | Enter(call: CallId)
    | Lock(call: CallId, rows: seq<Row>)
    | StartLoad(row: nat)
    | LookUp(row: nat)
    | Store(row: nat, config: bool, agent: bool)
    | FailLoad(row: nat)
    | Finish
    | Fail

  predicate Live(ttl: real, now: real, at: real) {
    now - at <= ttl
  }

  // The cached snapshot is served to a caller that entered at `entry`.
  predicate Serves(ttl: real, s: State, entry: real) {
    s.cached.Some? && Live(ttl, entry, s.cached.value.at)
  }

  predicate AllLoaded(c: Collection) {
    forall i :: i in c.loads ==> c.loads[i].Loaded?
  }

  predicate EveryRowLoaded(c: Collection) {
    forall i :: 0 <= i < |c.rows| ==> i in c.loads && c.loads[i].Loaded?
  }

  function WithLoad(s: State, i: nat, load: Load): State
    requires s.collecting.Some?
  {
    s.(collecting := Some(s.collecting.value.(loads := s.collecting.value.loads[i := load])))
  }

  predicate LoadIs(s: State, i: nat, fetching: bool) {
    && s.collecting.Some? && i in s.collecting.value.loads && i < |s.collecting.value.rows|
    && (if fetching then s.collecting.value.loads[i].Fetching? else s.collecting.value.loads[i].Reading?)
  }

  function ApplyLock(ttl: real, s: State, call: CallId, rows: seq<Row>): State {
    if s.collecting.Some? || call !in s.waiting then s
    else
      var entry := s.waiting[call];
      var left := s.(waiting := s.waiting - {call});
      if Serves(ttl, s, entry) then
        left.(answers := s.answers + [Answer(entry, s.cached.value.at, true, s.cached.value.snapshot)])
      else
        left.(collecting := Some(Collection(call, entry, s.started, rows, map[])), started := s.started + 1)
  }

  function ApplyLookUp(ttl: real, s: State, i: nat): State {
    if !LoadIs(s, i, false) then s
    else
      var c := s.collecting.value;
      var key := c.rows[i].key;
      if key in s.details && Live(ttl, c.loads[i].now, s.details[key].at)
      then WithLoad(s, i, Loaded(Some(s.details[key].observation)))
      else WithLoad(s, i, Fetching)
  }

  function ApplyStore(s: State, i: nat, config: bool, agent: bool): State {
    if !LoadIs(s, i, true) then s
    else
      var c := s.collecting.value;
      var observation := Observation(c.number, c.rows[i], config, c.rows[i].running && agent);
      WithLoad(s.(details := s.details[c.rows[i].key := Detail(s.clock, observation)]), i, Loaded(Some(observation)))
  }

  function Taken(c: Collection): Snapshot
    requires EveryRowLoaded(c)
  {
    Snapshot(c.number, c.rows, seq(|c.rows|, i requires 0 <= i < |c.rows| => c.loads[i].result))
  }

  function Apply(ttl: real, s: State, step: Step): State {
    match step
    case Tick(passed) => if passed < 0.0 then s else s.(clock := s.clock + passed)
    case Enter(call) => if call in s.waiting then s else s.(waiting := s.waiting[call := s.clock])
    case Lock(call, rows) => ApplyLock(ttl, s, call, rows)
    case StartLoad(i) =>
      if s.collecting.None? || i >= |s.collecting.value.rows| || i in s.collecting.value.loads then s
      else WithLoad(s, i, Reading(s.clock))
    case LookUp(i) => ApplyLookUp(ttl, s, i)
    case Store(i, config, agent) => ApplyStore(s, i, config, agent)
    case FailLoad(i) => if LoadIs(s, i, false) || LoadIs(s, i, true) then WithLoad(s, i, Loaded(None)) else s
    case Finish =>
      if s.collecting.None? || !EveryRowLoaded(s.collecting.value) then s
      else
        var c := s.collecting.value;
        s.(collecting := None, cached := Some(Cached(s.clock, Taken(c))),
           answers := s.answers + [Answer(c.entry, s.clock, false, Taken(c))])
    case Fail => if s.collecting.Some? && AllLoaded(s.collecting.value) then s.(collecting := None) else s
  }

  function Run(ttl: real, steps: seq<Step>): State {
    if steps == [] then INIT else Apply(ttl, Run(ttl, steps[..|steps| - 1]), steps[|steps| - 1])
  }

  // ----- what is promised

  // Every detail of the snapshot was loaded during the snapshot's own collection.
  predicate Own(snapshot: Snapshot) {
    forall i :: 0 <= i < |snapshot.details| ==>
      snapshot.details[i].Some? ==> snapshot.details[i].value.collection == snapshot.collection
  }

  predicate AllOwn(s: State) {
    forall k :: 0 <= k < |s.answers| ==> Own(s.answers[k].snapshot)
  }

  // A caller entering now would start a collection that still finds a live detail.
  ghost predicate Exposed(ttl: real, s: State) {
    && s.collecting.None?
    && (s.cached.Some? ==> !Live(ttl, s.clock, s.cached.value.at))
    && exists key :: key in s.details && Live(ttl, s.clock, s.details[key].at)
  }

  // ----- what every step keeps

  predicate Consistent(snapshot: Snapshot) {
    && |snapshot.details| == |snapshot.rows|
    && forall i :: 0 <= i < |snapshot.rows| && snapshot.details[i].Some? ==>
         && snapshot.details[i].value.row.key == snapshot.rows[i].key
         && (snapshot.details[i].value.collection == snapshot.collection ==> snapshot.details[i].value.row in snapshot.rows)
  }

  predicate DetailFits(s: State, key: Key) {
    key in s.details ==>
      && s.details[key].at <= s.clock
      && s.details[key].observation.row.key == key
      && s.details[key].observation.collection < s.started
      && (s.collecting.Some? && s.details[key].observation.collection == s.collecting.value.number ==>
            s.details[key].observation.row in s.collecting.value.rows)
  }

  predicate LoadFits(c: Collection, clock: real, i: nat) {
    i in c.loads ==>
      && i < |c.rows|
      && (c.loads[i].Reading? ==> c.loads[i].now <= clock)
      && (c.loads[i].Loaded? && c.loads[i].result.Some? ==>
            && c.loads[i].result.value.row.key == c.rows[i].key
            && (c.loads[i].result.value.collection == c.number ==> c.loads[i].result.value.row in c.rows))
  }

  predicate AnswerFits(ttl: real, clock: real, a: Answer) {
    && Consistent(a.snapshot)
    && a.at <= clock
    && (if a.served then Live(ttl, a.entry, a.at) else a.entry <= a.at)
  }

  ghost predicate Inv(ttl: real, s: State) {
    && (forall key :: DetailFits(s, key))
    && (s.cached.Some? ==> s.cached.value.at <= s.clock && Consistent(s.cached.value.snapshot))
    && (s.collecting.Some? ==>
          && s.collecting.value.number + 1 == s.started
          && s.collecting.value.entry <= s.clock
          && forall i :: LoadFits(s.collecting.value, s.clock, i))
    && (forall call :: call in s.waiting ==> s.waiting[call] <= s.clock)
    && (forall k :: 0 <= k < |s.answers| ==> AnswerFits(ttl, s.clock, s.answers[k]))
  }

  lemma DetailsKeep(ttl: real, s: State, step: Step)
    requires Inv(ttl, s)
    ensures forall key :: DetailFits(Apply(ttl, s, step), key)
  {
    var s' := Apply(ttl, s, step);
    forall key ensures DetailFits(s', key) { assert DetailFits(s, key); }
  }

  lemma LoadsKeep(ttl: real, s: State, step: Step)
    requires Inv(ttl, s) && Apply(ttl, s, step).collecting.Some?
    ensures forall i :: LoadFits(Apply(ttl, s, step).collecting.value, Apply(ttl, s, step).clock, i)
  {
    var s' := Apply(ttl, s, step);
    if s.collecting.Some? {
      forall i: nat ensures LoadFits(s'.collecting.value, s'.clock, i) {
        assert LoadFits(s.collecting.value, s.clock, i);
        if i < |s.collecting.value.rows| { assert DetailFits(s, s.collecting.value.rows[i].key); }
      }
    }
  }

  lemma TakenIsConsistent(c: Collection, clock: real)
    requires EveryRowLoaded(c) && forall i :: LoadFits(c, clock, i)
    ensures Consistent(Taken(c))
  {
    forall i | 0 <= i < |c.rows| && c.loads[i].result.Some?
      ensures c.loads[i].result.value.row.key == c.rows[i].key
      ensures c.loads[i].result.value.collection == c.number ==> c.loads[i].result.value.row in c.rows
    {
      assert LoadFits(c, clock, i);
    }
  }

  lemma AnswersKeep(ttl: real, s: State, step: Step)
    requires Inv(ttl, s)
    ensures var s' := Apply(ttl, s, step);
            && (s'.cached.Some? ==> s'.cached.value.at <= s'.clock && Consistent(s'.cached.value.snapshot))
            && (forall k :: 0 <= k < |s'.answers| ==> AnswerFits(ttl, s'.clock, s'.answers[k]))
  {
    if step.Finish? && s.collecting.Some? && EveryRowLoaded(s.collecting.value) { TakenIsConsistent(s.collecting.value, s.clock); }
    hide Consistent, EveryRowLoaded, Taken, LoadFits, DetailFits, ApplyStore, ApplyLookUp;
  }

  lemma StepKeeps(ttl: real, s: State, step: Step)
    requires Inv(ttl, s)
    ensures Inv(ttl, Apply(ttl, s, step))
  {
    var s' := Apply(ttl, s, step);
    DetailsKeep(ttl, s, step);
    if s'.collecting.Some? { LoadsKeep(ttl, s, step); }
    AnswersKeep(ttl, s, step);
    hide LoadFits, DetailFits, AnswerFits, EveryRowLoaded, AllLoaded, Serves, Taken, Live;
  }

  lemma {:induction false} RunKeeps(ttl: real, steps: seq<Step>)
    ensures Inv(ttl, Run(ttl, steps))
  {
    if steps != [] {
      RunKeeps(ttl, steps[..|steps| - 1]);
      StepKeeps(ttl, Run(ttl, steps[..|steps| - 1]), steps[|steps| - 1]);
    }
  }

  // A snapshot from the cache is at most the TTL old when its caller enters; any other was
  // collected after its caller entered.
  lemma AnswersAreRecent(ttl: real, steps: seq<Step>, k: nat)
    requires k < |Run(ttl, steps).answers|
    ensures var a := Run(ttl, steps).answers[k];
            if a.served then a.entry - a.at <= ttl else a.entry <= a.at
  {
    RunKeeps(ttl, steps);
  }

  // ----- own details, as long as no state is exposed

  // No detail of another collection can be served to the running one.
  ghost predicate Guarded(ttl: real, s: State) {
    s.collecting.Some? ==>
      var c := s.collecting.value;
      && (forall key :: key in s.details ==> s.details[key].observation.collection == c.number || !Live(ttl, s.clock, s.details[key].at))
      && (forall i, key :: i in c.loads && c.loads[i].Reading? && key in s.details ==>
            s.details[key].observation.collection == c.number || !Live(ttl, c.loads[i].now, s.details[key].at))
      && (forall i :: i in c.loads && c.loads[i].Loaded? && c.loads[i].result.Some? ==> c.loads[i].result.value.collection == c.number)
  }

  lemma StepGuards(ttl: real, s: State, step: Step)
    requires Inv(ttl, s) && Guarded(ttl, s) && AllOwn(s) && (s.cached.Some? ==> Own(s.cached.value.snapshot))
    requires !Exposed(ttl, s)
    ensures var s' := Apply(ttl, s, step);
            Guarded(ttl, s') && AllOwn(s') && (s'.cached.Some? ==> Own(s'.cached.value.snapshot))
  {
    OwnStays(ttl, s, step);
    hide Apply, Guarded, AllOwn, Own;
  }

  lemma OwnStays(ttl: real, s: State, step: Step)
    requires Guarded(ttl, s) && AllOwn(s) && (s.cached.Some? ==> Own(s.cached.value.snapshot))
    ensures var s' := Apply(ttl, s, step);
            AllOwn(s') && (s'.cached.Some? ==> Own(s'.cached.value.snapshot))
  {
  }

  ghost predicate NeverExposed(ttl: real, steps: seq<Step>) {
    forall n :: 0 <= n <= |steps| ==> !Exposed(ttl, Run(ttl, steps[..n]))
  }

  lemma {:induction false} GuardedRun(ttl: real, steps: seq<Step>)
    requires NeverExposed(ttl, steps)
    ensures var s := Run(ttl, steps);
            Guarded(ttl, s) && AllOwn(s) && (s.cached.Some? ==> Own(s.cached.value.snapshot))
  {
    if steps != [] {
      var init := steps[..|steps| - 1];
      assert forall n :: 0 <= n <= |init| ==> init[..n] == steps[..n];
      GuardedRun(ttl, init);
      assert steps[..|init|] == init;
      RunKeeps(ttl, init);
      StepGuards(ttl, Run(ttl, init), steps[|init|]);
    }
  }

  // In a run without exposed states no snapshot holds a detail of an earlier collection.
  lemma OwnDetails(ttl: real, steps: seq<Step>, k: nat)
    requires NeverExposed(ttl, steps) && k < |Run(ttl, steps).answers|
    ensures Own(Run(ttl, steps).answers[k].snapshot)
  {
    GuardedRun(ttl, steps);
  }

  // With one row per machine each detail was then loaded from the very row it stands for.
  lemma OwnDetailsFitRows(ttl: real, steps: seq<Step>, k: nat, i: nat)
    requires NeverExposed(ttl, steps) && k < |Run(ttl, steps).answers|
    requires var rows := Run(ttl, steps).answers[k].snapshot.rows;
             && i < |rows|
             && forall a, b :: 0 <= a < b < |rows| ==> rows[a].key != rows[b].key
    ensures var snapshot := Run(ttl, steps).answers[k].snapshot;
            && |snapshot.details| == |snapshot.rows|
            && (snapshot.details[i].Some? ==> snapshot.details[i].value.row == snapshot.rows[i])
  {
    OwnDetails(ttl, steps, k);
    RunKeeps(ttl, steps);
    assert AnswerFits(ttl, Run(ttl, steps).clock, Run(ttl, steps).answers[k]);
  }

  // ----- from an exposed state an old detail can be returned

  lemma Then(ttl: real, steps: seq<Step>, step: Step)
    ensures Run(ttl, steps + [step]) == Apply(ttl, Run(ttl, steps), step)
  {
    assert (steps + [step])[..|steps|] == steps;
  }

  lemma FiveSteps(ttl: real, steps: seq<Step>, a: Step, b: Step, c: Step, d: Step, e: Step)
    ensures Run(ttl, steps + [a, b, c, d, e])
            == Apply(ttl, Apply(ttl, Apply(ttl, Apply(ttl, Apply(ttl, Run(ttl, steps), a), b), c), d), e)
  {
    Then(ttl, steps, a);
    Then(ttl, steps + [a], b);
    Then(ttl, steps + [a] + [b], c);
    Then(ttl, steps + [a] + [b] + [c], d);
    Then(ttl, steps + [a] + [b] + [c] + [d], e);
    hide Run, Apply;
    assert steps + [a, b, c, d, e] == steps + [a] + [b] + [c] + [d] + [e];
  }

  lemma ExposedStateLeaks(ttl: real, steps: seq<Step>)
    requires Exposed(ttl, Run(ttl, steps))
    ensures exists more: seq<Step> :: Fail !in more && !AllOwn(Run(ttl, steps + more))
  {
    RunKeeps(ttl, steps);
    var s := Run(ttl, steps);
    var key :| key in s.details && Live(ttl, s.clock, s.details[key].at);
    var call := Unused(s.waiting.Keys);
    var more := [Enter(call), Lock(call, [Row(key, true)]), StartLoad(0), LookUp(0), Finish];
    FiveSteps(ttl, steps, Enter(call), Lock(call, [Row(key, true)]), StartLoad(0), LookUp(0), Finish);
    LeakFrom(ttl, s, key, call);
    hide Run, Apply, AllOwn, Inv;
    assert !AllOwn(Run(ttl, steps + more));
  }

  lemma LeakFrom(ttl: real, s: State, key: Key, call: CallId)
    requires Inv(ttl, s) && s.collecting.None? && (s.cached.Some? ==> !Live(ttl, s.clock, s.cached.value.at))
    requires key in s.details && Live(ttl, s.clock, s.details[key].at) && call !in s.waiting
    ensures var one := Apply(ttl, Apply(ttl, s, Enter(call)), Lock(call, [Row(key, true)]));
            !AllOwn(Apply(ttl, Apply(ttl, Apply(ttl, one, StartLoad(0)), LookUp(0)), Finish))
  {
    var entered := Apply(ttl, s, Enter(call));
    var one := Apply(ttl, entered, Lock(call, [Row(key, true)]));
    assert one.collecting == Some(Collection(call, s.clock, s.started, [Row(key, true)], map[]));
    var two := Apply(ttl, Apply(ttl, one, StartLoad(0)), LookUp(0));
    assert two.collecting.value.loads == map[0 := Loaded(Some(s.details[key].observation))];
    var three := Apply(ttl, two, Finish);
    assert DetailFits(s, key);
    assert three.answers[|s.answers|].snapshot.details[0] == Some(s.details[key].observation);
  }

  // A collection that fails after it stored a detail exposes the cache, for every TTL.
  lemma FailureExposes(ttl: real)
    requires ttl >= 0.0
    ensures exists steps :: Exposed(ttl, Run(ttl, steps))
  {
    var key := Key("node", 100);
    var rows := [Row(key, true)];
    var five := [Enter(0), Lock(0, rows), StartLoad(0), LookUp(0), Store(0, true, true)];
    FiveSteps(ttl, [], Enter(0), Lock(0, rows), StartLoad(0), LookUp(0), Store(0, true, true));
    assert [] + five == five && Run(ttl, []) == INIT;
    var steps := five + [Fail];
    Then(ttl, five, Fail);
    hide Run;
    var s := Run(ttl, steps);
    assert key in s.details && s.details[key].at == 0.0 && s.clock == 0.0;
  }

  // ----- collections that finish once they have stored a detail

  predicate FailsAfterStore(s: State, step: Step) {
    && step.Fail? && s.collecting.Some?
    && exists key :: key in s.details && s.details[key].observation.collection == s.collecting.value.number
  }

  ghost predicate Settled(s: State) {
    forall key :: key in s.details ==>
      || (s.collecting.Some? && s.details[key].observation.collection == s.collecting.value.number)
      || (s.cached.Some? && s.details[key].at <= s.cached.value.at)
  }

  lemma StepSettles(ttl: real, s: State, step: Step)
    requires Inv(ttl, s) && Settled(s) && !FailsAfterStore(s, step)
    ensures Settled(Apply(ttl, s, step))
  {
    var s' := Apply(ttl, s, step);
    forall key | key in s'.details
      ensures (s'.collecting.Some? && s'.details[key].observation.collection == s'.collecting.value.number)
              || (s'.cached.Some? && s'.details[key].at <= s'.cached.value.at)
    {
      assert DetailFits(s, key);
    }
  }

  lemma {:induction false} SettledRun(ttl: real, steps: seq<Step>)
    requires forall n :: 0 <= n < |steps| ==> !FailsAfterStore(Run(ttl, steps[..n]), steps[n])
    ensures Settled(Run(ttl, steps))
  {
    if steps != [] {
      var init := steps[..|steps| - 1];
      assert forall n :: 0 <= n < |init| ==> init[..n] == steps[..n] && init[n] == steps[n];
      SettledRun(ttl, init);
      assert steps[..|init|] == init;
      RunKeeps(ttl, init);
      StepSettles(ttl, Run(ttl, init), steps[|init|]);
    }
  }

  // When every collection that stored a detail finishes, no state is ever exposed.
  lemma FinishedCollectionsNeverExpose(ttl: real, steps: seq<Step>)
    requires forall n :: 0 <= n < |steps| ==> !FailsAfterStore(Run(ttl, steps[..n]), steps[n])
    ensures NeverExposed(ttl, steps)
  {
    forall n | 0 <= n <= |steps| ensures !Exposed(ttl, Run(ttl, steps[..n])) {
      assert forall m :: 0 <= m < n ==> steps[..n][..m] == steps[..m] && steps[..n][m] == steps[m];
      SettledRun(ttl, steps[..n]);
    }
  }

  // ----- exactly the states from which an old detail can be returned

  // A live detail is newer than the snapshot, so it will outlive it.
  ghost predicate Tainted(ttl: real, s: State) {
    exists key :: key in s.details && Live(ttl, s.clock, s.details[key].at)
                  && (s.cached.Some? ==> s.cached.value.at < s.details[key].at)
  }

  // From here on every collection that stores a detail finishes.
  ghost predicate Finishing(ttl: real, steps: seq<Step>, more: seq<Step>) {
    forall n :: 0 <= n < |more| ==> !FailsAfterStore(Run(ttl, steps + more[..n]), more[n])
  }

  ghost predicate CanLeak(ttl: real, steps: seq<Step>) {
    exists more :: Finishing(ttl, steps, more) && !AllOwn(Run(ttl, steps + more))
  }

  // Each detail is of the running collection, dead, or no newer than the snapshot.
  ghost predicate Untainted(ttl: real, s: State) {
    forall key :: key in s.details ==>
      || (s.collecting.Some? && s.details[key].observation.collection == s.collecting.value.number)
      || !Live(ttl, s.clock, s.details[key].at)
      || (s.cached.Some? && s.details[key].at <= s.cached.value.at)
  }

  lemma StepUntainted(ttl: real, s: State, step: Step)
    requires Inv(ttl, s) && Untainted(ttl, s) && !FailsAfterStore(s, step)
    ensures Untainted(ttl, Apply(ttl, s, step))
  {
    var s' := Apply(ttl, s, step);
    forall key | key in s'.details
      ensures || (s'.collecting.Some? && s'.details[key].observation.collection == s'.collecting.value.number)
              || !Live(ttl, s'.clock, s'.details[key].at)
              || (s'.cached.Some? && s'.details[key].at <= s'.cached.value.at)
    {
      assert DetailFits(s, key);
    }
  }

  // The snapshot in the cache was handed to the caller that collected it.
  lemma {:induction false} CachedWasAnswered(ttl: real, steps: seq<Step>)
    ensures var s := Run(ttl, steps);
            s.cached.Some? ==> exists k :: 0 <= k < |s.answers| && s.answers[k].snapshot == s.cached.value.snapshot
  {
    if steps != [] {
      var n := |steps| - 1;
      CachedWasAnswered(ttl, steps[..n]);
      CachedStaysAnswered(ttl, Run(ttl, steps[..n]), steps[n]);
    }
  }

  lemma CachedStaysAnswered(ttl: real, s: State, step: Step)
    requires s.cached.Some? ==> exists k :: 0 <= k < |s.answers| && s.answers[k].snapshot == s.cached.value.snapshot
    ensures var s' := Apply(ttl, s, step);
            s'.cached.Some? ==> exists k :: 0 <= k < |s'.answers| && s'.answers[k].snapshot == s'.cached.value.snapshot
  {
    var s' := Apply(ttl, s, step);
    if s.cached.Some? && s'.cached == s.cached {
      var k :| 0 <= k < |s.answers| && s.answers[k].snapshot == s.cached.value.snapshot;
      assert s'.answers[k].snapshot == s'.cached.value.snapshot;
    } else if s'.cached.Some? {
      assert s'.answers[|s.answers|].snapshot == s'.cached.value.snapshot;
    }
  }

  lemma FinishingBefore(ttl: real, steps: seq<Step>, more: seq<Step>)
    requires Finishing(ttl, steps, more) && more != []
    ensures Finishing(ttl, steps, more[..|more| - 1])
    ensures !FailsAfterStore(Run(ttl, steps + more[..|more| - 1]), more[|more| - 1])
  {
    hide Run, FailsAfterStore;
    var init := more[..|more| - 1];
    assert forall n :: 0 <= n < |init| ==> init[..n] == more[..n] && init[n] == more[n];
  }

  lemma {:induction false} UntaintedNeverLeaks(ttl: real, steps: seq<Step>, more: seq<Step>)
    requires Run(ttl, steps).collecting.None? && AllOwn(Run(ttl, steps)) && !Tainted(ttl, Run(ttl, steps))
    requires Finishing(ttl, steps, more)
    ensures var s := Run(ttl, steps + more);
            Untainted(ttl, s) && Guarded(ttl, s) && AllOwn(s) && (s.cached.Some? ==> Own(s.cached.value.snapshot))
    decreases |more|
  {
    if more == [] {
      assert steps + more == steps;
      CachedWasAnswered(ttl, steps);
    } else {
      hide Apply, Inv, Guarded, AllOwn, Own, Finishing, FailsAfterStore;
      var n := |more| - 1;
      assert (steps + more)[..|steps + more| - 1] == steps + more[..n];
      var before := Run(ttl, steps + more[..n]);
      FinishingBefore(ttl, steps, more);
      UntaintedNeverLeaks(ttl, steps, more[..n]);
      RunKeeps(ttl, steps + more[..n]);
      StepUntainted(ttl, before, more[n]);
      StepGuards(ttl, before, more[n]);
    }
  }

  // Time passes until the snapshot is too old and the detail is not.
  lemma TaintedExposes(ttl: real, steps: seq<Step>)
    requires Run(ttl, steps).collecting.None? && Tainted(ttl, Run(ttl, steps))
    ensures exists passed :: Exposed(ttl, Run(ttl, steps + [Tick(passed)]))
  {
    var s := Run(ttl, steps);
    var key :| key in s.details && Live(ttl, s.clock, s.details[key].at)
               && (s.cached.Some? ==> s.cached.value.at < s.details[key].at);
    var passed := s.details[key].at + ttl - s.clock;
    Then(ttl, steps, Tick(passed));
    hide Run;
    var later := Run(ttl, steps + [Tick(passed)]);
    assert key in later.details && Live(ttl, later.clock, later.details[key].at);
    assert Exposed(ttl, later);
  }

  // An idle cache that has returned own details only can return an old one, though every later
  // collection that stores a detail finishes, exactly when it holds a live detail that is newer
  // than its snapshot.
  lemma LeaksExactlyWhenTainted(ttl: real, steps: seq<Step>)
    requires Run(ttl, steps).collecting.None? && AllOwn(Run(ttl, steps))
    ensures CanLeak(ttl, steps) <==> Tainted(ttl, Run(ttl, steps))
  {
    hide Run, Exposed, AllOwn;
    if Tainted(ttl, Run(ttl, steps)) {
      TaintedExposes(ttl, steps);
      var passed :| Exposed(ttl, Run(ttl, steps + [Tick(passed)]));
      ExposedStateLeaks(ttl, steps + [Tick(passed)]);
      var rest: seq<Step> :| Fail !in rest && !AllOwn(Run(ttl, steps + [Tick(passed)] + rest));
      var more := [Tick(passed)] + rest;
      assert steps + more == steps + [Tick(passed)] + rest;
      assert forall n :: 0 <= n < |more| ==> more[n] != Fail;
      assert Finishing(ttl, steps, more);
    } else {
      forall more | Finishing(ttl, steps, more) ensures AllOwn(Run(ttl, steps + more)) {
        UntaintedNeverLeaks(ttl, steps, more);
      }
    }
  }
}
