/**
 Where the details of a snapshot come from: every observation was stored by one load, and says
 what that load found.
 */
module InventoryLoads {
  import opened Wrappers
  import opened InventoryCache

  // Step `n` stores what the load of row `i` found in collection `number`.
  ghost predicate StoredAt(ttl: real, steps: seq<Step>, n: nat, number: nat, i: nat, row: Row, config: bool, agent: bool) {
    && n < |steps| && steps[n] == Store(i, config, agent)
    && Stores(Run(ttl, steps[..n]), number, i, row)
  }

  predicate Stores(s: State, number: nat, i: nat, row: Row) {
    && s.collecting.Some? && s.collecting.value.number == number
    && i < |s.collecting.value.rows| && s.collecting.value.rows[i] == row
    && i in s.collecting.value.loads && s.collecting.value.loads[i].Fetching?
  }

  // The observation has the flags that a load of its row found; the agent is asked of running
  // machines only.
  ghost predicate FromStore(ttl: real, steps: seq<Step>, o: Observation) {
    exists n: nat, i: nat, config, agent ::
      StoredAt(ttl, steps, n, o.collection, i, o.row, config, agent) && o.config == config && o.agent == (o.row.running && agent)
  }

  // The observation occurs in the state.
  ghost predicate Held(s: State, o: Observation) {
    || (exists key :: key in s.details && s.details[key].observation == o)
    || (s.collecting.Some? && exists i :: i in s.collecting.value.loads && s.collecting.value.loads[i] == Loaded(Some(o)))
    || (s.cached.Some? && Some(o) in s.cached.value.snapshot.details)
    || (exists k :: 0 <= k < |s.answers| && Some(o) in s.answers[k].snapshot.details)
  }

  lemma StoreHolds(s: State, i: nat, config: bool, agent: bool, o: Observation)
    requires Held(ApplyStore(s, i, config, agent), o) && !Held(s, o)
    ensures Stores(s, o.collection, i, o.row) && o.config == config && o.agent == (o.row.running && agent)
  {
  }

  lemma TakenHolds(c: Collection, o: Observation)
    requires EveryRowLoaded(c) && Some(o) in Taken(c).details
    ensures exists i :: i in c.loads && c.loads[i] == Loaded(Some(o))
  {
    var k :| 0 <= k < |c.rows| && c.loads[k].result == Some(o);
    assert k in c.loads;
  }

  // No other step brings in an observation.
  lemma OthersHold(ttl: real, s: State, step: Step, o: Observation)
    requires !step.Store? && Held(Apply(ttl, s, step), o)
    ensures Held(s, o)
  {
    var s' := Apply(ttl, s, step);
    if step.Finish? && s.collecting.Some? && EveryRowLoaded(s.collecting.value) {
      var c := s.collecting.value;
      if Some(o) in Taken(c).details { TakenHolds(c, o); }
      hide Taken, EveryRowLoaded;
      if k :| 0 <= k < |s'.answers| && Some(o) in s'.answers[k].snapshot.details {
        assert k == |s.answers| || s'.answers[k] == s.answers[k];
      }
    } else if step.Lock? {
      LockHolds(ttl, s, step.call, step.rows, o);
    }
  }

  lemma LockHolds(ttl: real, s: State, call: CallId, rows: seq<Row>, o: Observation)
    requires Held(ApplyLock(ttl, s, call, rows), o)
    ensures Held(s, o)
  {
    var s' := ApplyLock(ttl, s, call, rows);
    if k :| 0 <= k < |s'.answers| && Some(o) in s'.answers[k].snapshot.details {
      assert k == |s.answers| || s'.answers[k] == s.answers[k];
    }
  }

  lemma FromStoreOn(ttl: real, steps: seq<Step>, o: Observation)
    requires steps != [] && FromStore(ttl, steps[..|steps| - 1], o)
    ensures FromStore(ttl, steps, o)
  {
    hide Run, Stores;
    var init := steps[..|steps| - 1];
    var n: nat, i: nat, config, agent :|
      StoredAt(ttl, init, n, o.collection, i, o.row, config, agent) && o.config == config && o.agent == (o.row.running && agent);
    assert init[..n] == steps[..n] && init[n] == steps[n];
    assert StoredAt(ttl, steps, n, o.collection, i, o.row, config, agent);
  }

  // Every observation, wherever it is, was stored by a load and has the flags it found.
  lemma {:induction false} HeldWasStored(ttl: real, steps: seq<Step>, o: Observation)
    requires Held(Run(ttl, steps), o)
    ensures FromStore(ttl, steps, o)
  {
    hide Apply, Held, Stores;
    if steps == [] {
      NothingHeld(o);
    } else {
      var n := |steps| - 1;
      var s := Run(ttl, steps[..n]);
      if Held(s, o) {
        HeldWasStored(ttl, steps[..n], o);
        FromStoreOn(ttl, steps, o);
      } else {
        NewIsStored(ttl, s, steps[n], o);
        assert StoredAt(ttl, steps, n, o.collection, steps[n].row, o.row, steps[n].config, steps[n].agent);
      }
    }
  }

  lemma NothingHeld(o: Observation)
    ensures !Held(INIT, o)
  {
  }

  lemma NewIsStored(ttl: real, s: State, step: Step, o: Observation)
    requires Held(Apply(ttl, s, step), o) && !Held(s, o)
    ensures step.Store? && Stores(s, o.collection, step.row, o.row) && o.config == step.config && o.agent == (o.row.running && step.agent)
  {
    if step.Store? {
      StoreHolds(s, step.row, step.config, step.agent, o);
    } else {
      OthersHold(ttl, s, step, o);
    }
    hide Held, Stores, ApplyStore;
  }

  // ----- what was stored stays in its collection

  // Snapshots are of collections that have ended.
  ghost predicate Ended(s: State) {
    && (forall k :: 0 <= k < |s.answers| ==> s.answers[k].snapshot.collection < s.started)
    && (s.cached.Some? ==> s.cached.value.snapshot.collection < s.started)
    && (s.collecting.Some? ==>
          && s.collecting.value.number + 1 == s.started
          && (forall k :: 0 <= k < |s.answers| ==> s.answers[k].snapshot.collection < s.collecting.value.number)
          && (s.cached.Some? ==> s.cached.value.snapshot.collection < s.collecting.value.number))
  }

  lemma StepEnded(ttl: real, s: State, step: Step)
    requires Ended(s)
    ensures Ended(Apply(ttl, s, step))
  {
  }

  lemma {:induction false} RunEnded(ttl: real, steps: seq<Step>)
    ensures Ended(Run(ttl, steps))
  {
    hide Apply;
    if steps != [] {
      RunEnded(ttl, steps[..|steps| - 1]);
      StepEnded(ttl, Run(ttl, steps[..|steps| - 1]), steps[|steps| - 1]);
    }
  }

  // The snapshot, if it is of the collection, has the observation at row `i`.
  predicate Shows(snapshot: Snapshot, number: nat, i: nat, o: Observation) {
    snapshot.collection == number ==>
      i < |snapshot.rows| && i < |snapshot.details| && snapshot.rows[i] == o.row && snapshot.details[i] == Some(o)
  }

  ghost predicate Kept(s: State, number: nat, i: nat, o: Observation) {
    && number < s.started
    && (s.collecting.Some? && s.collecting.value.number == number ==>
          && i < |s.collecting.value.rows| && s.collecting.value.rows[i] == o.row
          && i in s.collecting.value.loads && s.collecting.value.loads[i] == Loaded(Some(o)))
    && (s.cached.Some? ==> Shows(s.cached.value.snapshot, number, i, o))
    && (forall k :: 0 <= k < |s.answers| ==> Shows(s.answers[k].snapshot, number, i, o))
  }

  lemma StoredIsKept(ttl: real, s: State, number: nat, i: nat, row: Row, config: bool, agent: bool)
    requires Ended(s) && Stores(s, number, i, row)
    ensures Kept(Apply(ttl, s, Store(i, config, agent)), number, i, Observation(number, row, config, row.running && agent))
  {
  }

  lemma StepKeeps(ttl: real, s: State, step: Step, number: nat, i: nat, o: Observation)
    requires Kept(s, number, i, o)
    ensures Kept(Apply(ttl, s, step), number, i, o)
  {
    if step.Finish? && s.collecting.Some? && EveryRowLoaded(s.collecting.value) {
      assert Shows(Taken(s.collecting.value), number, i, o);
      hide Shows, Taken;
    }
  }

  lemma {:induction false} KeptSince(ttl: real, steps: seq<Step>, n: nat, number: nat, i: nat, row: Row, config: bool, agent: bool)
    requires StoredAt(ttl, steps, n, number, i, row, config, agent)
    ensures Kept(Run(ttl, steps), number, i, Observation(number, row, config, row.running && agent))
    decreases |steps|
  {
    hide Apply, Kept, Stores, Ended;
    var last := |steps| - 1;
    var init := steps[..last];
    if n == last {
      RunEnded(ttl, init);
      StoredIsKept(ttl, Run(ttl, init), number, i, row, config, agent);
    } else {
      assert init[..n] == steps[..n] && init[n] == steps[n];
      KeptSince(ttl, init, n, number, i, row, config, agent);
      StepKeeps(ttl, Run(ttl, init), steps[last], number, i, Observation(number, row, config, row.running && agent));
    }
  }

  // ----- the details of a snapshot are what its loads found

  // Row `i` of the snapshot was loaded in the snapshot's own collection, and the load found this.
  ghost predicate Found(ttl: real, steps: seq<Step>, snapshot: Snapshot, i: nat, config: bool, agent: bool)
    requires i < |snapshot.rows|
  {
    exists n: nat :: StoredAt(ttl, steps, n, snapshot.collection, i, snapshot.rows[i], config, agent)
  }

  // In a run without exposed states, with one row per machine: a returned snapshot has a detail
  // for a row exactly when a load of that very row has stored one in the collection, and its
  // flags are what that load found.
  lemma DetailsAreLoads(ttl: real, steps: seq<Step>, k: nat, i: nat, config: bool)
    requires NeverExposed(ttl, steps) && k < |Run(ttl, steps).answers|
    requires var rows := Run(ttl, steps).answers[k].snapshot.rows;
             && i < |rows|
             && forall a, b :: 0 <= a < b < |rows| ==> rows[a].key != rows[b].key
    ensures var snapshot := Run(ttl, steps).answers[k].snapshot;
            && |snapshot.details| == |snapshot.rows|
            && forall found: bool ::
                 (exists agent :: Found(ttl, steps, snapshot, i, config, agent) && found == (snapshot.rows[i].running && agent))
                 <==> snapshot.details[i] == Some(Observation(snapshot.collection, snapshot.rows[i], config, found))
  {
    hide Apply, NeverExposed, Inv;
    OwnDetailsFitRows(ttl, steps, k, i);
    OwnDetails(ttl, steps, k);
    var s := Run(ttl, steps);
    var snapshot := s.answers[k].snapshot;
    forall found: bool
      ensures (exists agent :: Found(ttl, steps, snapshot, i, config, agent) && found == (snapshot.rows[i].running && agent))
              <==> snapshot.details[i] == Some(Observation(snapshot.collection, snapshot.rows[i], config, found))
    {
      var o := Observation(snapshot.collection, snapshot.rows[i], config, found);
      if agent :| Found(ttl, steps, snapshot, i, config, agent) && found == (snapshot.rows[i].running && agent) {
        FoundIsShown(ttl, steps, k, i, config, agent);
      }
      if snapshot.details[i] == Some(o) {
        ShownIsFound(ttl, steps, k, i, o);
      }
    }
  }

  lemma FoundIsShown(ttl: real, steps: seq<Step>, k: nat, i: nat, config: bool, agent: bool)
    requires k < |Run(ttl, steps).answers| && i < |Run(ttl, steps).answers[k].snapshot.rows|
    requires Found(ttl, steps, Run(ttl, steps).answers[k].snapshot, i, config, agent)
    ensures var snapshot := Run(ttl, steps).answers[k].snapshot;
            i < |snapshot.details|
            && snapshot.details[i] == Some(Observation(snapshot.collection, snapshot.rows[i], config, snapshot.rows[i].running && agent))
  {
    hide Apply;
    var snapshot := Run(ttl, steps).answers[k].snapshot;
    var n: nat :| StoredAt(ttl, steps, n, snapshot.collection, i, snapshot.rows[i], config, agent);
    KeptSince(ttl, steps, n, snapshot.collection, i, snapshot.rows[i], config, agent);
    assert Shows(snapshot, snapshot.collection, i, Observation(snapshot.collection, snapshot.rows[i], config, snapshot.rows[i].running && agent));
  }

  lemma ShownIsFound(ttl: real, steps: seq<Step>, k: nat, i: nat, o: Observation)
    requires k < |Run(ttl, steps).answers|
    requires var snapshot := Run(ttl, steps).answers[k].snapshot;
             && i < |snapshot.rows| && i < |snapshot.details| && snapshot.details[i] == Some(o)
             && o.collection == snapshot.collection && o.row == snapshot.rows[i]
             && forall a, b :: 0 <= a < b < |snapshot.rows| ==> snapshot.rows[a].key != snapshot.rows[b].key
    ensures exists agent :: Found(ttl, steps, Run(ttl, steps).answers[k].snapshot, i, o.config, agent) && o.agent == (o.row.running && agent)
  {
    hide Apply;
    var snapshot := Run(ttl, steps).answers[k].snapshot;
    assert Some(o) in snapshot.details;
    assert Held(Run(ttl, steps), o);
    hide Held, Stores;
    HeldWasStored(ttl, steps, o);
    var n: nat, j: nat, config, agent :|
      StoredAt(ttl, steps, n, o.collection, j, o.row, config, agent) && o.config == config && o.agent == (o.row.running && agent);
    KeptSince(ttl, steps, n, o.collection, j, o.row, config, agent);
    assert Shows(snapshot, o.collection, j, Observation(o.collection, o.row, config, o.row.running && agent));
    assert j == i by { assert snapshot.rows[j].key == snapshot.rows[i].key; }
    assert Found(ttl, steps, snapshot, i, o.config, agent);
  }

  // ----- failed loads

  // Step `n` fails the load of row `i` in collection `number`, before or after the lookup.
  ghost predicate FailedAt(ttl: real, steps: seq<Step>, n: nat, number: nat, i: nat) {
    && n < |steps| && steps[n] == FailLoad(i)
    && Fails(Run(ttl, steps[..n]), number, i)
  }

  predicate Fails(s: State, number: nat, i: nat) {
    && s.collecting.Some? && s.collecting.value.number == number && i < |s.collecting.value.rows|
    && i in s.collecting.value.loads && !s.collecting.value.loads[i].Loaded?
  }

  // The collection has no detail for row `i`.
  predicate Lacks(snapshot: Snapshot, number: nat, i: nat) {
    snapshot.collection == number ==> i < |snapshot.rows| && i < |snapshot.details| && snapshot.details[i].None?
  }

  ghost predicate Lost(s: State, number: nat, i: nat) {
    && number < s.started
    && (s.collecting.Some? && s.collecting.value.number == number ==>
          i < |s.collecting.value.rows| && i in s.collecting.value.loads && s.collecting.value.loads[i] == Loaded(None))
    && (s.cached.Some? ==> Lacks(s.cached.value.snapshot, number, i))
    && (forall k :: 0 <= k < |s.answers| ==> Lacks(s.answers[k].snapshot, number, i))
  }

  lemma FailedIsLost(ttl: real, s: State, number: nat, i: nat)
    requires Ended(s) && Fails(s, number, i)
    ensures Lost(Apply(ttl, s, FailLoad(i)), number, i)
  {
  }

  lemma StepLoses(ttl: real, s: State, step: Step, number: nat, i: nat)
    requires Lost(s, number, i)
    ensures Lost(Apply(ttl, s, step), number, i)
  {
    if step.Finish? && s.collecting.Some? && EveryRowLoaded(s.collecting.value) {
      assert Lacks(Taken(s.collecting.value), number, i);
      hide Lacks, Taken;
    }
  }

  lemma {:induction false} LostSince(ttl: real, steps: seq<Step>, n: nat, number: nat, i: nat)
    requires FailedAt(ttl, steps, n, number, i)
    ensures Lost(Run(ttl, steps), number, i)
    decreases |steps|
  {
    hide Apply, Lost, Fails, Ended;
    var last := |steps| - 1;
    var init := steps[..last];
    if n == last {
      RunEnded(ttl, init);
      FailedIsLost(ttl, Run(ttl, init), number, i);
    } else {
      assert init[..n] == steps[..n] && init[n] == steps[n];
      LostSince(ttl, init, n, number, i);
      StepLoses(ttl, Run(ttl, init), steps[last], number, i);
    }
  }

  // The collection ended without a detail for row `i`.
  ghost predicate Absent(s: State, number: nat, i: nat) {
    || (s.collecting.Some? && s.collecting.value.number == number && i in s.collecting.value.loads
        && s.collecting.value.loads[i] == Loaded(None))
    || (s.cached.Some? && IsAbsent(s.cached.value.snapshot, number, i))
    || (exists k :: 0 <= k < |s.answers| && IsAbsent(s.answers[k].snapshot, number, i))
  }

  predicate IsAbsent(snapshot: Snapshot, number: nat, i: nat) {
    snapshot.collection == number && i < |snapshot.details| && snapshot.details[i].None?
  }

  lemma NewlyAbsent(ttl: real, s: State, step: Step, number: nat, i: nat)
    requires Absent(Apply(ttl, s, step), number, i) && !Absent(s, number, i)
    ensures step == FailLoad(i) && Fails(s, number, i)
  {
    var s' := Apply(ttl, s, step);
    AnswersStay(ttl, s, step);
    assert forall k :: 0 <= k < |s.answers| ==> s'.answers[k] == s.answers[k];
  }

  lemma {:induction false} AbsentWasFailed(ttl: real, steps: seq<Step>, number: nat, i: nat) returns (n: nat)
    requires Absent(Run(ttl, steps), number, i)
    ensures FailedAt(ttl, steps, n, number, i)
  {
    hide Apply, Absent, Fails;
    if steps == [] {
      NothingAbsent(number, i);
    }
    var last := |steps| - 1;
    var init := steps[..last];
    if Absent(Run(ttl, init), number, i) {
      n := AbsentWasFailed(ttl, init, number, i);
      assert init[..n] == steps[..n] && init[n] == steps[n];
    } else {
      NewlyAbsent(ttl, Run(ttl, init), steps[last], number, i);
      n := last;
    }
  }

  lemma NothingAbsent(number: nat, i: nat)
    ensures !Absent(INIT, number, i)
  {
  }

  // A returned snapshot lacks the detail of a row exactly when the load of that row failed in the
  // snapshot's collection.
  lemma MissingExactlyWhenFailed(ttl: real, steps: seq<Step>, k: nat, i: nat)
    requires k < |Run(ttl, steps).answers| && i < |Run(ttl, steps).answers[k].snapshot.details|
    ensures var snapshot := Run(ttl, steps).answers[k].snapshot;
            snapshot.details[i].None? <==> exists n: nat :: FailedAt(ttl, steps, n, snapshot.collection, i)
  {
    hide Apply, Fails;
    var snapshot := Run(ttl, steps).answers[k].snapshot;
    if snapshot.details[i].None? {
      assert IsAbsent(snapshot, snapshot.collection, i);
      var n := AbsentWasFailed(ttl, steps, snapshot.collection, i);
    }
    if n: nat :| FailedAt(ttl, steps, n, snapshot.collection, i) {
      LostSince(ttl, steps, n, snapshot.collection, i);
      assert Lacks(snapshot, snapshot.collection, i);
    }
  }

  // ----- every call is waiting, collecting, answered or failed

  function Arrivals(ttl: real, steps: seq<Step>): nat {
    if steps == [] then 0
    else
      var n := |steps| - 1;
      Arrivals(ttl, steps[..n]) + if steps[n].Enter? && steps[n].call !in Run(ttl, steps[..n]).waiting then 1 else 0
  }

  function Failures(ttl: real, steps: seq<Step>): nat {
    if steps == [] then 0
    else
      var n := |steps| - 1;
      Failures(ttl, steps[..n]) + if steps[n].Fail? && CanFail(Run(ttl, steps[..n])) then 1 else 0
  }

  predicate CanFail(s: State) {
    s.collecting.Some? && forall i :: i in s.collecting.value.loads ==> s.collecting.value.loads[i].Loaded?
  }

  function Underway(s: State): nat {
    |s.waiting| + |s.answers| + if s.collecting.Some? then 1 else 0
  }

  lemma StepConserves(ttl: real, s: State, step: Step)
    ensures Underway(Apply(ttl, s, step)) + (if step.Fail? && CanFail(s) then 1 else 0)
            == Underway(s) + (if step.Enter? && step.call !in s.waiting then 1 else 0)
  {
    hide Taken, EveryRowLoaded, Serves;
    if step.Lock? && s.collecting.None? && step.call in s.waiting {
      assert |s.waiting - {step.call}| == |s.waiting| - 1 by {
        assert s.waiting == (s.waiting - {step.call})[step.call := s.waiting[step.call]];
      }
    }
  }

  // No call is lost or answered twice: those that arrived are waiting, collecting, answered or
  // failed, and each once.
  lemma {:induction false} CallsAreConserved(ttl: real, steps: seq<Step>)
    ensures Arrivals(ttl, steps) == Underway(Run(ttl, steps)) + Failures(ttl, steps)
  {
    if steps != [] {
      hide Apply, Underway;
      var n := |steps| - 1;
      CallsAreConserved(ttl, steps[..n]);
      StepConserves(ttl, Run(ttl, steps[..n]), steps[n]);
    } else {
      NobodyUnderway();
    }
  }

  lemma NobodyUnderway()
    ensures Underway(INIT) == 0
  {
  }

  // The cache holds the snapshot that was collected last.
  ghost predicate LastCollected(s: State, j: nat) {
    && j < |s.answers| && !s.answers[j].served && s.cached == Some(Cached(s.answers[j].at, s.answers[j].snapshot))
    && forall m :: j < m < |s.answers| ==> s.answers[m].served
  }

  ghost predicate CacheFits(s: State) {
    if s.cached.None? then s.answers == [] else exists j: nat :: LastCollected(s, j)
  }

  lemma FinishCaches(ttl: real, s: State)
    requires s.collecting.Some? && EveryRowLoaded(s.collecting.value)
    ensures LastCollected(Apply(ttl, s, Finish), |s.answers|)
  {
    hide Taken;
  }

  lemma CacheStays(ttl: real, s: State, step: Step, j: nat)
    requires LastCollected(s, j) && !(step.Finish? && s.collecting.Some? && EveryRowLoaded(s.collecting.value))
    ensures LastCollected(Apply(ttl, s, step), j)
  {
    hide Taken, EveryRowLoaded, ApplyStore, ApplyLookUp;
    if step.Store? || step.LookUp? { LoadCaches(ttl, s, step); }
  }

  lemma LoadCaches(ttl: real, s: State, step: Step)
    requires step.Store? || step.LookUp?
    ensures Apply(ttl, s, step).cached == s.cached && Apply(ttl, s, step).answers == s.answers
  {
  }

  lemma NothingStays(ttl: real, s: State, step: Step)
    requires s.cached.None? && s.answers == [] && !(step.Finish? && s.collecting.Some? && EveryRowLoaded(s.collecting.value))
    ensures Apply(ttl, s, step).cached.None? && Apply(ttl, s, step).answers == []
  {
    hide Taken, EveryRowLoaded;
  }

  lemma StepCaches(ttl: real, s: State, step: Step)
    requires CacheFits(s)
    ensures CacheFits(Apply(ttl, s, step))
  {
    hide Apply, LastCollected;
    if step.Finish? && s.collecting.Some? && EveryRowLoaded(s.collecting.value) {
      FinishCaches(ttl, s);
      LastIsCached(Apply(ttl, s, step), |s.answers|);
    } else if s.cached.Some? {
      var j: nat :| LastCollected(s, j);
      CacheStays(ttl, s, step, j);
      LastIsCached(Apply(ttl, s, step), j);
    } else {
      NothingStays(ttl, s, step);
    }
  }

  lemma LastIsCached(s: State, j: nat)
    requires LastCollected(s, j)
    ensures CacheFits(s)
  {
  }

  lemma {:induction false} RunCaches(ttl: real, steps: seq<Step>)
    ensures CacheFits(Run(ttl, steps))
  {
    hide Apply, CacheFits;
    if steps != [] {
      RunCaches(ttl, steps[..|steps| - 1]);
      StepCaches(ttl, Run(ttl, steps[..|steps| - 1]), steps[|steps| - 1]);
    } else {
      NothingCached();
    }
  }

  lemma NothingCached()
    ensures CacheFits(INIT)
  {
  }

  // A caller that is served from the cache gets the snapshot that was collected last before it.
  lemma {:induction false} ServedIsLastCollected(ttl: real, steps: seq<Step>, k: nat)
    requires k < |Run(ttl, steps).answers| && Run(ttl, steps).answers[k].served
    ensures exists j: nat ::
              && j < k && !Run(ttl, steps).answers[j].served
              && Run(ttl, steps).answers[j].snapshot == Run(ttl, steps).answers[k].snapshot
              && Run(ttl, steps).answers[j].at == Run(ttl, steps).answers[k].at
              && forall m :: j < m < k ==> Run(ttl, steps).answers[m].served
  {
    hide CacheFits;
    if steps != [] {
      var n := |steps| - 1;
      var s := Run(ttl, steps[..n]);
      RunCaches(ttl, steps[..n]);
      if k < |s.answers| {
        AnswersStay(ttl, s, steps[n]);
        hide Apply;
        ServedIsLastCollected(ttl, steps[..n], k);
      } else {
        ServedNow(ttl, s, steps[n]);
      }
    }
  }

  lemma AnswersStay(ttl: real, s: State, step: Step)
    ensures s.answers <= Apply(ttl, s, step).answers && |Apply(ttl, s, step).answers| <= |s.answers| + 1
  {
    hide Taken, EveryRowLoaded;
  }

  lemma ServedNow(ttl: real, s: State, step: Step)
    requires CacheFits(s) && |Apply(ttl, s, step).answers| > |s.answers| && Apply(ttl, s, step).answers[|s.answers|].served
    ensures var s' := Apply(ttl, s, step);
            && |s'.answers| == |s.answers| + 1 && s.answers <= s'.answers
            && exists j: nat :: LastCollected(s, j)
                 && s'.answers[j].snapshot == s'.answers[|s.answers|].snapshot && s'.answers[j].at == s'.answers[|s.answers|].at
  {
    hide Taken, EveryRowLoaded;
    var j: nat :| LastCollected(s, j);
  }
}
