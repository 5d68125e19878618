/**
 When a mutation is admitted under the stored connection: exactly when, with which refusal
 otherwise, and that nothing is ever admitted in another way.
 */
module RegistrationAdmission {
  import opened Wrappers
  import opened Operations
  import opened RegistrationRows
  import opened RegistrationInvariant
  import opened RegistrationProtocol
  import opened RegistrationSafety
  import opened RegistrationTheorems

  // The source and the revision a process would use now.
  predicate IsSelection(connection: Option<Connection>, selection: Selection) {
    match connection
    case None => selection.source == LegacyEnv && selection.revision.None?
    case Some(c) => selection.source == c.source && selection.revision == c.activeRevision
  }

  predicate PinAllows(connection: Option<Connection>, pin: Option<Selection>) {
    pin.Some? ==> IsSelection(connection, pin.value)
  }

  // The connection names a credential that is in use.
  predicate NamesCredential(db: Db) {
    db.connection.Some? && db.connection.value.activeRevision.Some?
    && db.connection.value.activeRevision.value in db.credentials
    && db.credentials[db.connection.value.activeRevision.value].state == InUse
  }

  predicate CredentialOpens(db: Db, decrypts: bool)
    requires NamesCredential(db)
  {
    decrypts && db.credentials[db.connection.value.activeRevision.value].ciphertext.Some?
  }

  // Without a connection row anything is admitted; under the environment's credential the
  // connection has to be open; a managed connection also needs its credential and the scope.
  predicate Admissible(db: Db, pin: Option<Selection>, sameCluster: bool, inScope: bool, decrypts: bool) {
    && PinAllows(db.connection, pin)
    && (db.connection.Some? ==> sameCluster && db.connection.value.admission == Open)
    && (db.connection.Some? && db.connection.value.source == Managed ==>
          NamesCredential(db) && inScope && CredentialOpens(db, decrypts))
  }

  // A mutation is admitted if and only if it is admissible, and then under the selection of the
  // connection.
  lemma AdmittedExactlyWhen(db: Db, pin: Option<Selection>, sameCluster: bool, inScope: bool, decrypts: bool)
    ensures var r := Admit(db, pin, sameCluster, inScope, decrypts);
            && (r.Ok? <==> Admissible(db, pin, sameCluster, inScope, decrypts))
            && (r.Ok? ==> IsSelection(db.connection, r.value))
  {
  }

  // Every refusal has one cause.
  lemma RefusalCauses(db: Db, pin: Option<Selection>, sameCluster: bool, inScope: bool, decrypts: bool)
    ensures var r := Admit(db, pin, sameCluster, inScope, decrypts);
            var open := PinAllows(db.connection, pin) && db.connection.Some? && sameCluster && db.connection.value.admission == Open;
            var managed := open && db.connection.value.source == Managed;
            && (r == Err(RestartRequired) <==> !PinAllows(db.connection, pin))
            && (r == Err(AdmissionClosed) <==> PinAllows(db.connection, pin) && db.connection.Some? && !open)
            && (r == Err(CredentialUnavailable) <==> managed && !NamesCredential(db))
            && (r == Err(ScopeNotSelected) <==> managed && NamesCredential(db) && !inScope)
            && (r == Err(KeyUnavailable) <==> managed && NamesCredential(db) && inScope && !CredentialOpens(db, decrypts))
  {
  }

  // ----- over every run

  // The step admits work for the process, and all checks have passed.
  predicate AdmitsChecked(s: State, step: Step, p: ProcessId, w: WorkId, selection: Selection) {
    && step.AdmitWork? && step.process == p && step.work == w
    && IsSelection(s.db.connection, selection)
    && Admissible(s.db, if p in s.pins then Some(s.pins[p]) else None, step.sameCluster, step.inScope, step.decrypts)
  }

  lemma WorkAdmits(s: State, step: Step, p: ProcessId, w: WorkId, selection: Selection)
    requires IsWork(step) && Admitted(p, w, selection) in ApplyWork(s, step).log && Admitted(p, w, selection) !in s.log
    ensures AdmitsChecked(s, step, p, w, selection)
  {
    if step.AdmitWork? { AdmittedExactlyWhen(s.db, PinOf(s, step.process), step.sameCluster, step.inScope, step.decrypts); }
    hide Admit, Admissible, IsSelection;
  }

  lemma StepAdmits(s: State, step: Step, p: ProcessId, w: WorkId, selection: Selection)
    requires Inv(s) && Admitted(p, w, selection) in Apply(s, step).log && Admitted(p, w, selection) !in s.log
    ensures AdmitsChecked(s, step, p, w, selection)
  {
    hide Inv, AdmitsChecked;
    if IsWork(step) {
      hide ApplyWork;
      WorkAdmits(s, step, p, w, selection);
    } else {
      hide Apply;
      OnlyWorkAdmits(s, step);
    }
  }

  lemma OnlyWorkAdmits(s: State, step: Step)
    requires Inv(s) && !IsWork(step)
    ensures forall p, w, selection :: Admitted(p, w, selection) in Apply(s, step).log ==> Admitted(p, w, selection) in s.log
  {
    hide Inv;
    if step.ActivateAttempt? || step.RequestRevocation? {
      SwitchLog(s, step);
      hide Apply;
    } else if IsCommit(step) {
      hide Apply, Evolves;
      PlainStep(s, step);
    } else if step.PrepareAttempt? {
      PrepareLeavesWork(s, step.request, step.keyAvailable, step.newId);
    } else {
      hide Apply;
      if step.SendRequest? { SideEffect(s, step); } else { QuietEffect(s, step); }
    }
  }

  lemma SwitchLog(s: State, step: Step)
    requires step.ActivateAttempt? || step.RequestRevocation?
    ensures forall p, w, selection :: Admitted(p, w, selection) in Apply(s, step).log ==> Admitted(p, w, selection) in s.log
  {
    hide Activate, BeginRevoke;
  }

  // Whatever was admitted was admitted by a step at which all checks passed.
  lemma {:induction false} AdmittedOnlyChecked(steps: seq<Step>, p: ProcessId, w: WorkId, selection: Selection)
    requires Admitted(p, w, selection) in Run(steps).log
    ensures exists n: nat :: n < |steps| && AdmitsChecked(Run(steps[..n]), steps[n], p, w, selection)
  {
    hide Apply, Inv, AdmitsChecked;
    if steps != [] {
      var n := |steps| - 1;
      var init := steps[..n];
      if Admitted(p, w, selection) in Run(init).log {
        AdmittedOnlyChecked(init, p, w, selection);
        var m: nat :| m < n && AdmitsChecked(Run(init[..m]), init[m], p, w, selection);
        assert init[..m] == steps[..m] && init[m] == steps[m];
      } else {
        RunKeeps(init);
        StepAdmits(Run(init), steps[n], p, w, selection);
      }
    }
  }

  // Under a managed connection in particular nothing is admitted without the cluster, the scope
  // and the decryption having been checked, and the credential in use having been found.
  lemma ManagedAdmissionIsChecked(steps: seq<Step>, p: ProcessId, w: WorkId, selection: Selection)
    requires Admitted(p, w, selection) in Run(steps).log && selection.source == Managed
    ensures exists n: nat :: n < |steps| && steps[n].AdmitWork? && steps[n].process == p && steps[n].work == w
                             && steps[n].sameCluster && steps[n].inScope && steps[n].decrypts
                             && NamesCredential(Run(steps[..n]).db)
  {
    AdmittedOnlyChecked(steps, p, w, selection);
    hide Run;
  }

  // ----- what becomes of work

  predicate Over(status: Status) {
    status in {Succeeded, Blocked, Rejected, Expired, Failed, Cancelled}
  }

  // The work has not come to an end, or still holds a lock or awaits recovery.
  predicate Underway(work: Work) {
    (work.status.Some? && !Over(work.status.value)) || work.lockOpen || work.recoveryOpen
  }

  lemma UnderwayExactly(work: Work)
    ensures Underway(work) <==> work.Unfinished()
  {
  }

  // Work is planned when it is new, and taken up again exactly when it has expired and left no lock
  // and no recovery behind.
  lemma WorkBeginsExactly(s: State, w: WorkId)
    ensures Apply(s, CreateWork(w)) == s.(db := s.db.(work :=
              if w in s.db.work then s.db.work else s.db.work[w := Work(None, Some(Planned), false, false)]))
    ensures Apply(s, ReopenWork(w)) == s.(db := s.db.(work :=
              if w in s.db.work && s.db.work[w].status == Some(Expired) && !s.db.work[w].lockOpen && !s.db.work[w].recoveryOpen
              then s.db.work[w := Work(s.db.work[w].admitted, Some(NeedsReconciliation), false, false)]
              else s.db.work))
  {
  }

  // It moves on only while it is underway, along the transition table, and without taking a lock or
  // another admission.
  lemma WorkProgressesExactly(s: State, w: WorkId, next: Work)
    ensures var work, work' := s.db.work, Apply(s, ProgressWork(w, next)).db.work;
            && Apply(s, ProgressWork(w, next)) == s.(db := s.db.(work := work'))
            && work' == if w in work && Underway(work[w]) && next.admitted == work[w].admitted && (next.lockOpen ==> work[w].lockOpen)
                           && (next.status == work[w].status
                               || (next.status.Some? && if work[w].status.None? then next.status == Some(Planned)
                                                        else TransitionAllowed(work[w].status.value, next.status.value)))
                        then work[w := next] else work
  {
    hide TransitionAllowed;
  }

  // An admission pins the selection of a running process, and, when it is admissible, records the
  // selection and opens the lock.
  lemma WorkAdmitsExactly(s: State, p: ProcessId, w: WorkId, sameCluster: bool, inScope: bool, decrypts: bool)
    ensures var s' := Apply(s, AdmitWork(p, w, sameCluster, inScope, decrypts));
            var pin := if p in s.pins then Some(s.pins[p]) else None;
            var selection := SelectionOf(s.db.connection);
            if p in s.crashed then s' == s
            else
              && s'.pins == (if p in s.pins then s.pins else s.pins[p := selection])
              && if Admissible(s.db, pin, sameCluster, inScope, decrypts)
                 then s'.log == s.log + [Admitted(p, w, selection)] && w in s'.db.work && s'.db == s.db.(work := s.db.work[w := s'.db.work[w]])
                      && s'.db.work[w].admitted == Some(selection) && s'.db.work[w].lockOpen
                      && (w in s.db.work ==> s'.db.work[w].status == s.db.work[w].status && s'.db.work[w].recoveryOpen == s.db.work[w].recoveryOpen)
                      && (w !in s.db.work ==> s'.db.work[w].status.None? && !s'.db.work[w].recoveryOpen)
                 else s'.log == s.log && s'.db == s.db
  {
    var pin := PinOf(s, p);
    AdmittedExactlyWhen(s.db, pin, sameCluster, inScope, decrypts);
    hide Admit, Admissible;
  }

  // A process that selects a credential is pinned to the present selection, once.
  lemma SelectPins(s: State, p: ProcessId)
    ensures var s' := Apply(s, SelectCredential(p));
            && s' == s.(pins := s'.pins)
            && (p in s.crashed || p in s.pins ==> s'.pins == s.pins)
            && (p !in s.crashed && p !in s.pins ==>
                  p in s'.pins && s'.pins == s.pins[p := s'.pins[p]] && IsSelection(s.db.connection, s'.pins[p]))
  {
  }
}
