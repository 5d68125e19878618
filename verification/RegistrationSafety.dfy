/**
 What holds in every state that a run of the registration protocol can reach.
 */
module RegistrationSafety {
  import opened Wrappers
  import opened Operations
  import opened RegistrationRows
  import opened RegistrationInvariant
  import opened RegistrationProtocol

  // ----- facts about the log

  // The event is in the log at most once.
  ghost predicate Once(log: seq<Event>, e: Event) {
    forall i, j :: 0 <= i < j < |log| ==> !(log[i] == e && log[j] == e)
  }

  ghost predicate MarkedIn(log: seq<Event>, k: TokenRequest, a: AttemptId) {
    exists c :: Marked(k, a, c) in log
  }

  // Every such request was sent after its durable marker had been committed.
  ghost predicate Preceded(log: seq<Event>, k: TokenRequest, a: AttemptId) {
    forall i :: 0 <= i < |log| && log[i] == Requested(k, a) ==> MarkedIn(log[..i], k, a)
  }

  function Activations(log: seq<Event>): nat {
    if log == [] then 0 else Activations(log[..|log| - 1]) + if log[|log| - 1].Activated? then 1 else 0
  }

  lemma OnceExtends(log: seq<Event>, x: Event, e: Event)
    requires Once(log, e) && (x == e ==> e !in log)
    ensures Once(log + [x], e)
  {
  }

  lemma PrecededExtends(log: seq<Event>, x: Event, k: TokenRequest, a: AttemptId)
    requires Preceded(log, k, a) && (x == Requested(k, a) ==> MarkedIn(log, k, a))
    ensures Preceded(log + [x], k, a)
  {
    var log' := log + [x];
    forall i | 0 <= i < |log'| && log'[i] == Requested(k, a) ensures MarkedIn(log'[..i], k, a) {
      assert log'[..i] == log[..i];
      if i == |log| { assert log[..i] == log; }
    }
  }

  // ----- the invariant

  // The phases before the durable marker of a token request.
  predicate NotYet(k: TokenRequest, p: Phase) {
    match k
    case IssueToken => PreDispatch(p)
    case RevokeToken => !Revoking(p)
  }

  ghost predicate RequestFits(s: State, k: TokenRequest, a: AttemptId) {
    && Once(s.log, Requested(k, a))
    && Preceded(s.log, k, a)
    && (forall c, d :: Marked(k, a, c) in s.log && Marked(k, a, d) in s.log ==> c == d)
    && (MarkedIn(s.log, k, a) ==>
          && a in s.db.attempts
          && s.db.attempts[a].intent.mode == Issue
          && !NotYet(k, s.db.attempts[a].phase))
  }

  predicate NeedsIssueMode(p: Point) {
    p.LoginRead? || p.MfaRead? || p.PlanRead? || p.ConfirmChecked? || p.MarkerCommitted? || p.RevokeObserved?
  }

  predicate PointFits(p: Point, mode: Mode) {
    && (Asked(p).Some? ==> LegalMove(mode, Asked(p).value.seen, Asked(p).value.move))
    && (NeedsIssueMode(p) ==> mode == Issue)
    && (p.PlanRead? ==> PreDispatch(p.seen))
  }

  predicate CallFits(s: State, c: CallId) {
    c in s.calls ==>
      var call := s.calls[c];
      && call.attempt in s.db.attempts
      && PointFits(call.at, s.db.attempts[call.attempt].intent.mode)
      && (call.at.MarkerCommitted? ==>
            && Marked(call.at.request, call.attempt, c) in s.log
            && Requested(call.at.request, call.attempt) !in s.log)
  }

  predicate ContextFits(s: State, key: (ProcessId, AttemptId)) {
    key in s.contexts ==> key.1 in s.db.attempts && s.db.attempts[key.1].intent.mode == Issue
  }

  // A process has only admitted under its pin, and no pinned credential is still pending.
  ghost predicate PinFits(s: State, p: ProcessId) {
    && (forall w, selection :: Admitted(p, w, selection) in s.log ==> p in s.pins && s.pins[p] == selection)
    && (p in s.pins && s.pins[p].revision.Some? ==>
          && s.pins[p].revision.value in s.db.credentials
          && s.db.credentials[s.pins[p].revision.value].state != Pending)
  }

  predicate ActivationFits(s: State, a: AttemptId) {
    Activated(a) in s.log <==> a in s.history && s.history[a].activated
  }

  predicate VersionFits(s: State) {
    match s.db.connection
    case None => Activations(s.log) == 0
    case Some(c) => c.version == 1 + Activations(s.log)
  }

  ghost predicate Inv(s: State) {
    && RowsFit(s.db, s.history)
    && (forall k, a :: RequestFits(s, k, a))
    && (forall c :: CallFits(s, c))
    && (forall key :: ContextFits(s, key))
    && (forall p :: PinFits(s, p))
    && (forall a :: ActivationFits(s, a))
    && VersionFits(s)
  }

  // ----- how the rows may change

  predicate AttemptEvolves(db: Db, db': Db, a: AttemptId) {
    a in db.attempts ==>
      && a in db'.attempts
      && db'.attempts[a].intent == db.attempts[a].intent
      && db'.attempts[a].key == db.attempts[a].key
      && db'.attempts[a].actor == db.attempts[a].actor
      && (PreDispatch(db'.attempts[a].phase) ==> PreDispatch(db.attempts[a].phase))
      && (Revoking(db.attempts[a].phase) ==> Revoking(db'.attempts[a].phase))
  }

  predicate CredentialEvolves(db: Db, db': Db, r: RevisionId) {
    r in db.credentials ==>
      r in db'.credentials && (db'.credentials[r].state == Pending ==> db.credentials[r].state == Pending)
  }

  ghost predicate Evolves(db: Db, db': Db) {
    && (forall a :: AttemptEvolves(db, db', a))
    && (forall r :: CredentialEvolves(db, db', r))
  }

  lemma RequestKept(s: State, s': State, k: TokenRequest, a: AttemptId)
    requires RequestFits(s, k, a) && AttemptEvolves(s.db, s'.db, a)
    requires s'.log == s.log || (|s'.log| > 0 && s'.log == s.log + [s'.log[|s'.log| - 1]]
                                 && !s'.log[|s'.log| - 1].Marked? && !s'.log[|s'.log| - 1].Requested?)
    ensures RequestFits(s', k, a)
  {
    if s'.log != s.log {
      var x := s'.log[|s'.log| - 1];
      OnceExtends(s.log, x, Requested(k, a));
      PrecededExtends(s.log, x, k, a);
      assert forall c :: Marked(k, a, c) in s'.log <==> Marked(k, a, c) in s.log;
    }
  }

  lemma CallKept(s: State, s': State, c: CallId)
    requires CallFits(s, c)
    requires c in s'.calls ==> c in s.calls && s'.calls[c] == s.calls[c]
    requires c in s'.calls ==> AttemptEvolves(s.db, s'.db, s'.calls[c].attempt)
    requires s.log <= s'.log
    requires c in s'.calls && s'.calls[c].at.MarkerCommitted? ==>
      Requested(s'.calls[c].at.request, s'.calls[c].attempt) in s'.log ==> Requested(s'.calls[c].at.request, s'.calls[c].attempt) in s.log
    ensures CallFits(s', c)
  {
    if c in s'.calls && s'.calls[c].at.MarkerCommitted? {
      var i :| 0 <= i < |s.log| && s.log[i] == Marked(s'.calls[c].at.request, s'.calls[c].attempt, c);
      assert s'.log[i] == s.log[i];
    }
  }

  lemma PinKept(s: State, s': State, p: ProcessId)
    requires PinFits(s, p) && s'.log == s.log
    requires forall r :: CredentialEvolves(s.db, s'.db, r)
    requires p in s.pins ==> p in s'.pins && s'.pins[p] == s.pins[p]
    requires p in s'.pins && p !in s.pins ==> s'.pins[p] == SelectionOf(s'.db.connection) && ConnectionCoherent(s'.db)
    ensures PinFits(s', p)
  {
    if p in s.pins && s.pins[p].revision.Some? {
      assert CredentialEvolves(s.db, s'.db, s.pins[p].revision.value);
    }
  }

  // ----- steps that leave the stored rows alone

  // Only calls, contexts, pins and crashes differ, and whatever is new still fits.
  ghost predicate SameRows(s: State, s': State) {
    && s'.db == s.db && s'.history == s.history && s'.log == s.log
    && (forall p :: p in s.pins ==> p in s'.pins && s'.pins[p] == s.pins[p])
    && (forall p :: p in s'.pins && p !in s.pins ==> s'.pins[p] == SelectionOf(s.db.connection))
  }

  lemma SameRowsKeep(s: State, s': State)
    requires Inv(s) && SameRows(s, s')
    requires forall c :: CallFits(s', c)
    requires forall key :: ContextFits(s', key)
    ensures Inv(s')
  {
    forall k, a ensures RequestFits(s', k, a) { assert RequestFits(s, k, a); RequestKept(s, s', k, a); }
    forall p ensures PinFits(s', p) {
      assert PinFits(s, p);
      forall r ensures CredentialEvolves(s.db, s'.db, r) {}
      PinKept(s, s', p);
    }
    forall a ensures ActivationFits(s', a) { assert ActivationFits(s, a); }
  }

  lemma StartPointFits(s: State, step: Step, row: Attempt)
    requires IsStart(step)
    requires (step.caller.process, step.caller.attempt) in s.contexts ==> row.intent.mode == Issue
    ensures var p := StartPoint(s, step, row);
            p.Some? ==> PointFits(p.value, row.intent.mode) && !p.value.MarkerCommitted?
  {
  }

  lemma StartKeeps(s: State, step: Step)
    requires Inv(s) && IsStart(step)
    ensures Inv(ApplyStart(s, step))
  {
    var s' := ApplyStart(s, step);
    var caller := step.caller;
    if s' != s {
      assert ContextFits(s, (caller.process, caller.attempt));
      StartPointFits(s, step, s.db.attempts[caller.attempt]);
      forall c ensures CallFits(s', c) { assert CallFits(s, c); }
      forall key ensures ContextFits(s', key) { assert ContextFits(s, key); }
      SameRowsKeep(s, s');
    }
  }

  lemma AnswerPointFits(db: Db, h: Histories, step: Step, call: Call)
    requires IsAnswer(step) && Awaits(call.at, step)
    requires call.attempt in db.attempts && AttemptFits(db, h, call.attempt)
    requires PointFits(call.at, db.attempts[call.attempt].intent.mode)
    ensures var p := AnswerPoint(db, step, call);
            p.Some? ==> PointFits(p.value, db.attempts[call.attempt].intent.mode) && !p.value.MarkerCommitted?
  {
    hide StatusOf, LiveStatus, Owned, PendingCredential;
    if !step.ObserveToken? { hide AttemptFits; }
  }

  lemma AnswerKeeps(s: State, step: Step)
    requires Inv(s) && IsAnswer(step)
    ensures Inv(ApplyAnswer(s, step))
  {
    var s' := ApplyAnswer(s, step);
    if s' != s {
      var call := s.calls[step.call];
      assert CallFits(s, step.call) && AttemptFits(s.db, s.history, call.attempt);
      AnswerPointFits(s.db, s.history, step, call);
      forall c ensures CallFits(s', c) { assert CallFits(s, c); }
      forall key ensures ContextFits(s', key) { assert ContextFits(s, key); }
      SameRowsKeep(s, s');
    }
  }

  // Steps that end calls, drop contexts or pin a selection, and change nothing else.
  lemma QuietShape(s: State, step: Step)
    requires step.EndCall? || step.DropContext? || step.Crash? || step.SelectCredential?
    ensures var s' := Apply(s, step);
            && SameRows(s, s')
            && (forall c :: c in s'.calls ==> c in s.calls && s'.calls[c] == s.calls[c])
            && (forall key :: key in s'.contexts ==> key in s.contexts)
  {
    hide ApplyPrepare, ApplyStart, ApplyAnswer, ApplyAdvance, ApplySend, ApplyStore, ApplyActivate, ApplyBeginRevoke,
         ApplyFinishRevoke, ApplyWork;
  }

  lemma QuietKeeps(s: State, step: Step)
    requires Inv(s)
    requires step.EndCall? || step.DropContext? || step.Crash? || step.SelectCredential?
    ensures Inv(Apply(s, step))
  {
    hide Apply;
    var s' := Apply(s, step);
    QuietShape(s, step);
    forall c ensures CallFits(s', c) { assert CallFits(s, c); }
    forall key ensures ContextFits(s', key) { assert ContextFits(s, key); }
    SameRowsKeep(s, s');
  }

  // ----- how each transaction changes the rows

  lemma PrepareEvolves(db: Db, request: Request, keyAvailable: bool, newId: AttemptId)
    requires Prepare(db, request, keyAvailable, newId).Ok?
    ensures Evolves(db, Prepare(db, request, keyAvailable, newId).value.db)
  {
  }

  lemma AdvanceEvolves(db: Db, a: AttemptId, actor: ActorId, version: nat, seen: Phase, move: Move)
    requires Advance(db, a, actor, version, {seen}, move).Ok?
    requires LegalMove(db.attempts[a].intent.mode, seen, move)
    ensures var db' := Advance(db, a, actor, version, {seen}, move).value;
            && Evolves(db, db')
            && db'.connection == db.connection
            && db.attempts[a].phase == seen && db'.attempts[a].phase == move.phase
  {
  }

  lemma StageEvolves(db: Db, a: AttemptId, actor: ActorId, version: nat,
                     ciphertext: string, tokenId: string, keyAvailable: bool, newId: RevisionId)
    requires StageSecret(db, a, actor, version, ciphertext, tokenId, keyAvailable, newId).Ok?
    ensures var db' := StageSecret(db, a, actor, version, ciphertext, tokenId, keyAvailable, newId).value;
            Evolves(db, db') && db'.connection == db.connection
  {
  }

  lemma ActivateEvolves(db: Db, a: AttemptId, actor: ActorId, version: nat, decrypts: bool, pin: Option<Selection>)
    requires Activate(db, a, actor, version, decrypts, pin).Ok?
    ensures Evolves(db, Activate(db, a, actor, version, decrypts, pin).value)
  {
  }

  lemma BeginRevokeEvolves(db: Db, a: AttemptId, actor: ActorId, version: nat)
    requires BeginRevoke(db, a, actor, version).Ok?
    ensures var db' := BeginRevoke(db, a, actor, version).value;
            && Evolves(db, db')
            && !Revoking(db.attempts[a].phase) && db'.attempts[a].phase == RevocationPending
            && db.attempts[a].intent.mode == Issue
            && (db.connection.None? <==> db'.connection.None?)
            && (db.connection.Some? ==> db'.connection.value.version == db.connection.value.version)
  {
  }

  lemma FinishRevokeEvolves(db: Db, a: AttemptId, actor: ActorId, version: nat)
    requires FinishRevoke(db, a, actor, version).Ok?
    ensures var db' := FinishRevoke(db, a, actor, version).value;
            Evolves(db, db') && db'.connection == db.connection
  {
  }

  // ----- steps that commit

  // A commit that sends nothing and marks nothing keeps every fact about requests and calls.
  lemma CommitKeeps(s: State, s': State, c0: CallId)
    requires Inv(s) && Evolves(s.db, s'.db) && s'.log == s.log
    requires CallFits(s', c0)
    requires forall c :: c in s'.calls && c != c0 ==> c in s.calls && s'.calls[c] == s.calls[c]
    requires forall key :: key in s'.contexts ==> key in s.contexts
    ensures (forall k, a :: RequestFits(s', k, a)) && (forall c :: CallFits(s', c)) && (forall key :: ContextFits(s', key))
  {
    forall k, a ensures RequestFits(s', k, a) {
      assert RequestFits(s, k, a) && AttemptEvolves(s.db, s'.db, a);
      RequestKept(s, s', k, a);
    }
    forall c ensures CallFits(s', c) {
      assert CallFits(s, c);
      if c != c0 && c in s'.calls {
        assert AttemptEvolves(s.db, s'.db, s.calls[c].attempt);
        CallKept(s, s', c);
      }
    }
    forall key ensures ContextFits(s', key) {
      assert ContextFits(s, key) && AttemptEvolves(s.db, s'.db, key.1);
    }
  }

  lemma PinsKept(s: State, s': State)
    requires forall p :: PinFits(s, p)
    requires Evolves(s.db, s'.db) && s'.log == s.log && s'.pins == s.pins
    ensures forall p :: PinFits(s', p)
  {
    forall p ensures PinFits(s', p) { assert PinFits(s, p); PinKept(s, s', p); }
  }

  lemma PrepareStepKeeps(s: State, request: Request, keyAvailable: bool, newId: AttemptId)
    requires Inv(s)
    ensures Inv(ApplyPrepare(s, request, keyAvailable, newId))
  {
    var s' := ApplyPrepare(s, request, keyAvailable, newId);
    if s' != s {
      PrepareKeeps(s.db, s.history, request, keyAvailable, newId);
      PrepareEvolves(s.db, request, keyAvailable, newId);
      var c0: CallId := 0;
      assert CallFits(s, c0);
      if c0 in s.calls { assert AttemptEvolves(s.db, s'.db, s.calls[c0].attempt); }
      CommitKeeps(s, s', c0);
      PinsKept(s, s');
      forall a ensures ActivationFits(s', a) { assert ActivationFits(s, a); }
    }
  }

  lemma EndKeeps(s: State, c: CallId)
    requires Inv(s)
    ensures Inv(Ended(s, c))
  {
    QuietKeeps(s, EndCall(c));
  }

  // A call commits `db` and goes on at `p`.
  lemma CommittedKeeps(s: State, c: CallId, db: Db, contexts: map<(ProcessId, AttemptId), Context>, version: nat, p: Option<Point>)
    requires Inv(s) && c in s.calls && RowsFit(db, s.history) && Evolves(s.db, db) && db.connection == s.db.connection
    requires p.Some? && s.calls[c].attempt in s.db.attempts ==>
      PointFits(p.value, s.db.attempts[s.calls[c].attempt].intent.mode) && !p.value.MarkerCommitted?
    requires forall key :: key in contexts ==> key in s.contexts
    ensures Inv(At(s.(db := db, contexts := contexts), c, version, p))
  {
    var s' := At(s.(db := db, contexts := contexts), c, version, p);
    assert CallFits(s, c) && AttemptEvolves(s.db, db, s.calls[c].attempt);
    CommitKeeps(s, s', c);
    PinsKept(s, s');
    forall a ensures ActivationFits(s', a) { assert ActivationFits(s, a); }
  }

  // Where a call goes on after it has stored the secret.
  function StorePoint(p: Point): Point {
    if p == IssueSent then SecretStored else ImportStored
  }

  lemma StoreShape(s: State, c: CallId, ciphertext: string, tokenId: string, keyAvailable: bool, newRevision: RevisionId)
    requires Standing(s, c, IssueSent) || Standing(s, c, ImportMarked)
    requires StageSecret(s.db, s.calls[c].attempt, s.calls[c].actor, s.calls[c].version, ciphertext, tokenId, keyAvailable, newRevision).Ok?
    ensures var call := s.calls[c];
            var r := StageSecret(s.db, call.attempt, call.actor, call.version, ciphertext, tokenId, keyAvailable, newRevision);
            ApplyStore(s, c, ciphertext, tokenId, keyAvailable, newRevision)
              == At(s.(db := r.value, contexts := s.contexts), c, call.version + 1, Some(StorePoint(call.at)))
  {
    hide StageSecret;
  }

  lemma StoreCommits(s: State, c: CallId, ciphertext: string, tokenId: string, keyAvailable: bool, newRevision: RevisionId)
    requires Inv(s) && RowsFit(s.db, s.history) && (Standing(s, c, IssueSent) || Standing(s, c, ImportMarked))
    requires StageSecret(s.db, s.calls[c].attempt, s.calls[c].actor, s.calls[c].version, ciphertext, tokenId, keyAvailable, newRevision).Ok?
    ensures Inv(ApplyStore(s, c, ciphertext, tokenId, keyAvailable, newRevision))
  {
    hide StageSecret, ApplyStore, Inv, RowsFit, Evolves;
    var call := s.calls[c];
    var r := StageSecret(s.db, call.attempt, call.actor, call.version, ciphertext, tokenId, keyAvailable, newRevision);
    StoreShape(s, c, ciphertext, tokenId, keyAvailable, newRevision);
    StageSecretKeeps(s.db, s.history, call.attempt, call.actor, call.version, ciphertext, tokenId, keyAvailable, newRevision);
    StageEvolves(s.db, call.attempt, call.actor, call.version, ciphertext, tokenId, keyAvailable, newRevision);
    CommittedKeeps(s, c, r.value, s.contexts, call.version + 1, Some(StorePoint(call.at)));
  }

  lemma StoreStepKeeps(s: State, c: CallId, ciphertext: string, tokenId: string, keyAvailable: bool, newRevision: RevisionId)
    requires Inv(s)
    ensures Inv(ApplyStore(s, c, ciphertext, tokenId, keyAvailable, newRevision))
  {
    assert RowsFit(s.db, s.history);
    hide Inv, RowsFit, StageSecret;
    if Standing(s, c, IssueSent) || Standing(s, c, ImportMarked) {
      var call := s.calls[c];
      if StageSecret(s.db, call.attempt, call.actor, call.version, ciphertext, tokenId, keyAvailable, newRevision).Ok? {
        StoreCommits(s, c, ciphertext, tokenId, keyAvailable, newRevision);
      } else {
        EndKeeps(s, c);
      }
    }
  }

  lemma FinishRevokeStepKeeps(s: State, c: CallId)
    requires Inv(s)
    ensures Inv(ApplyFinishRevoke(s, c))
  {
    if Standing(s, c, AbsenceObserved) {
      var call := s.calls[c];
      var r := FinishRevoke(s.db, call.attempt, call.actor, call.version);
      if r.Ok? {
        FinishRevokeKeeps(s.db, s.history, call.attempt, call.actor, call.version);
        FinishRevokeEvolves(s.db, call.attempt, call.actor, call.version);
        CommittedKeeps(s, c, r.value, s.contexts - {(call.process, call.attempt)}, call.version, None);
      } else {
        EndKeeps(s, c);
      }
    }
  }

  lemma OnwardFits(p: Point, mode: Mode)
    requires PointFits(p, mode) && Asked(p).Some? && !p.ConfirmChecked?
    ensures Onward(p).Some? ==> PointFits(Onward(p).value, mode) && !Onward(p).value.MarkerCommitted?
  {
  }

  function AdvanceResult(s: State, c: CallId): Result<Db, SetupError>
    requires c in s.calls && Asked(s.calls[c].at).Some?
  {
    var call := s.calls[c];
    var ask := Asked(call.at).value;
    Advance(s.db, call.attempt, call.actor, call.version, {ask.seen}, ask.move)
  }

  function AdvanceContexts(s: State, c: CallId): map<(ProcessId, AttemptId), Context>
    requires c in s.calls
  {
    var call := s.calls[c];
    if call.at.CancelRead? then s.contexts - {(call.process, call.attempt)} else s.contexts
  }

  lemma PlainAdvanceShape(s: State, c: CallId)
    requires c in s.calls && !s.calls[c].at.ConfirmChecked?
    ensures Asked(s.calls[c].at).None? ==> ApplyAdvance(s, c) == s
    ensures Asked(s.calls[c].at).Some? ==>
      var r, call := AdvanceResult(s, c), s.calls[c];
      ApplyAdvance(s, c) == if r.Err? then Ended(s, c)
                            else At(s.(db := r.value, contexts := AdvanceContexts(s, c)), c, call.version + 1, Onward(call.at))
  {
    hide Advance, Asked, Onward;
  }

  lemma PlainAdvanceKeeps(s: State, c: CallId)
    requires Inv(s) && c in s.calls && !s.calls[c].at.ConfirmChecked?
    ensures Inv(ApplyAdvance(s, c))
  {
    PlainAdvanceShape(s, c);
    if Asked(s.calls[c].at).Some? {
      var call := s.calls[c];
      var ask := Asked(call.at).value;
      assert CallFits(s, c);
      hide Inv, Asked, Onward, Advance, Evolves, RowsFit, ApplyAdvance, At;
      var r := AdvanceResult(s, c);
      if r.Ok? {
        AdvanceKeeps(s.db, s.history, call.attempt, call.actor, call.version, ask.seen, ask.move);
        AdvanceEvolves(s.db, call.attempt, call.actor, call.version, ask.seen, ask.move);
        OnwardFits(call.at, s.db.attempts[call.attempt].intent.mode);
        CommittedKeeps(s, c, r.value, AdvanceContexts(s, c), call.version + 1, Onward(call.at));
      } else {
        EndKeeps(s, c);
      }
    }
  }

  lemma MarkerRequests(s: State, s': State, k: TokenRequest, c: CallId)
    requires Inv(s) && c in s.calls && RowsFit(s'.db, s'.history) && Evolves(s.db, s'.db)
    requires s'.pins == s.pins && s'.contexts == s.contexts
    requires c in s'.calls && s'.calls == s.calls[c := s'.calls[c]] && s'.calls[c].attempt == s.calls[c].attempt && s'.calls[c].at == MarkerCommitted(k)
    requires s'.log == s.log + [Marked(k, s.calls[c].attempt, c)]
    requires var a := s.calls[c].attempt;
             a in s.db.attempts && a in s'.db.attempts && NotYet(k, s.db.attempts[a].phase)
             && !NotYet(k, s'.db.attempts[a].phase) && s.db.attempts[a].intent.mode == Issue
    ensures forall k', a :: RequestFits(s', k', a)
  {
    hide RowsFit, CallFits, ContextFits, PinFits, ActivationFits, VersionFits;
    var x := Marked(k, s.calls[c].attempt, c);
    forall k', a ensures RequestFits(s', k', a) {
      assert RequestFits(s, k', a) && AttemptEvolves(s.db, s'.db, a);
      OnceExtends(s.log, x, Requested(k', a));
      PrecededExtends(s.log, x, k', a);
      assert forall d :: Marked(k', a, d) in s'.log <==> Marked(k', a, d) in s.log || Marked(k', a, d) == x;
      if (k', a) == (k, s.calls[c].attempt) { assert forall d :: Marked(k, a, d) !in s.log; }
    }
  }

  lemma MarkerCalls(s: State, s': State, k: TokenRequest, c: CallId)
    requires Inv(s) && c in s.calls && RowsFit(s'.db, s'.history) && Evolves(s.db, s'.db)
    requires s'.pins == s.pins && s'.contexts == s.contexts
    requires c in s'.calls && s'.calls == s.calls[c := s'.calls[c]] && s'.calls[c].attempt == s.calls[c].attempt && s'.calls[c].at == MarkerCommitted(k)
    requires s'.log == s.log + [Marked(k, s.calls[c].attempt, c)]
    requires var a := s.calls[c].attempt;
             a in s.db.attempts && a in s'.db.attempts && NotYet(k, s.db.attempts[a].phase)
             && !NotYet(k, s'.db.attempts[a].phase) && s.db.attempts[a].intent.mode == Issue
    ensures forall d :: CallFits(s', d)
  {
    hide RowsFit, ContextFits, PinFits, ActivationFits, VersionFits;
    var x := Marked(k, s.calls[c].attempt, c);
    forall d ensures CallFits(s', d) {
      assert CallFits(s, d) && RequestFits(s, k, s.calls[c].attempt);
      if d == c {
        if Requested(k, s.calls[c].attempt) in s.log { RequestedWasMarked(s.log, k, s.calls[c].attempt); }
        assert AttemptEvolves(s.db, s'.db, s.calls[c].attempt);
        assert x in s'.log;
      } else if d in s'.calls {
        assert AttemptEvolves(s.db, s'.db, s.calls[d].attempt);
        CallKept(s, s', d);
      }
    }
  }

  // Committing the durable marker of a request that was not marked before.
  lemma MarkerKeeps(s: State, s': State, k: TokenRequest, c: CallId)
    requires Inv(s) && c in s.calls && RowsFit(s'.db, s'.history) && Evolves(s.db, s'.db)
    requires s'.pins == s.pins && s'.contexts == s.contexts
    requires c in s'.calls && s'.calls == s.calls[c := s'.calls[c]] && s'.calls[c].attempt == s.calls[c].attempt && s'.calls[c].at == MarkerCommitted(k)
    requires s'.log == s.log + [Marked(k, s.calls[c].attempt, c)]
    requires var a := s.calls[c].attempt;
             a in s.db.attempts && a in s'.db.attempts && NotYet(k, s.db.attempts[a].phase)
             && !NotYet(k, s'.db.attempts[a].phase) && s.db.attempts[a].intent.mode == Issue
    requires s.db.connection.Some? <==> s'.db.connection.Some?
    requires s.db.connection.Some? ==> s'.db.connection.value.version == s.db.connection.value.version
    requires forall a :: a in s.history ==> a in s'.history && s'.history[a].activated == s.history[a].activated
    requires s'.history.Keys == s.history.Keys
    ensures Inv(s')
  {
    MarkerRequests(s, s', k, c);
    MarkerCalls(s, s', k, c);
    hide RequestFits, CallFits, RowsFit;
    forall key ensures ContextFits(s', key) { assert ContextFits(s, key) && AttemptEvolves(s.db, s'.db, key.1); }
    forall p ensures PinFits(s', p) {
      assert PinFits(s, p);
      assert forall w, selection :: Admitted(p, w, selection) in s'.log <==> Admitted(p, w, selection) in s.log;
      if p in s.pins && s.pins[p].revision.Some? { assert CredentialEvolves(s.db, s'.db, s.pins[p].revision.value); }
    }
    forall a ensures ActivationFits(s', a) {
      assert ActivationFits(s, a);
      assert Activated(a) in s'.log <==> Activated(a) in s.log;
    }
    assert s'.log[..|s'.log| - 1] == s.log;
  }

  lemma RequestedWasMarked(log: seq<Event>, k: TokenRequest, a: AttemptId)
    requires Preceded(log, k, a) && Requested(k, a) in log
    ensures MarkedIn(log, k, a)
  {
    var i :| 0 <= i < |log| && log[i] == Requested(k, a);
    var c :| Marked(k, a, c) in log[..i];
    assert Marked(k, a, c) in log;
  }

  lemma AdvanceStepKeeps(s: State, c: CallId)
    requires Inv(s)
    ensures Inv(ApplyAdvance(s, c))
  {
    if c in s.calls {
      if !s.calls[c].at.ConfirmChecked? {
        PlainAdvanceKeeps(s, c);
      } else {
        var call := s.calls[c];
        var ask := Asked(s.calls[c].at).value;
        assert CallFits(s, c);
        AdvanceKeeps(s.db, s.history, call.attempt, call.actor, call.version, ask.seen, ask.move);
        if Advance(s.db, call.attempt, call.actor, call.version, {ask.seen}, ask.move).Ok? {
          AdvanceEvolves(s.db, call.attempt, call.actor, call.version, ask.seen, ask.move);
          MarkerKeeps(s, ApplyAdvance(s, c), IssueToken, c);
        } else {
          EndKeeps(s, c);
        }
      }
    }
  }

  lemma BeginRevokeStepKeeps(s: State, c: CallId)
    requires Inv(s)
    ensures Inv(ApplyBeginRevoke(s, c))
  {
    if Standing(s, c, RevokeObserved) {
      var call := s.calls[c];
      BeginRevokeKeeps(s.db, s.history, call.attempt, call.actor, call.version);
      if BeginRevoke(s.db, call.attempt, call.actor, call.version).Ok? {
        BeginRevokeEvolves(s.db, call.attempt, call.actor, call.version);
        MarkerKeeps(s, ApplyBeginRevoke(s, c), RevokeToken, c);
      } else {
        EndKeeps(s, c);
      }
    }
  }

  lemma SendKeeps(s: State, c: CallId)
    requires Inv(s)
    ensures Inv(ApplySend(s, c))
  {
    var s' := ApplySend(s, c);
    if c in s.calls && s.calls[c].at.MarkerCommitted? {
      var call := s.calls[c];
      var k0, a0 := call.at.request, call.attempt;
      var x := Requested(k0, a0);
      assert CallFits(s, c);
      forall k, a ensures RequestFits(s', k, a) {
        assert RequestFits(s, k, a);
        if k == k0 && a == a0 { assert MarkedIn(s.log, k, a); }
        OnceExtends(s.log, x, Requested(k, a));
        PrecededExtends(s.log, x, k, a);
        assert forall d :: Marked(k, a, d) in s'.log <==> Marked(k, a, d) in s.log;
      }
      forall d ensures CallFits(s', d) {
        assert CallFits(s, d) && RequestFits(s, k0, a0);
        if d != c && d in s'.calls { CallKept(s, s', d); }
      }
      forall key ensures ContextFits(s', key) { assert ContextFits(s, key); }
      forall p ensures PinFits(s', p) {
        assert PinFits(s, p);
        assert forall w, selection :: Admitted(p, w, selection) in s'.log <==> Admitted(p, w, selection) in s.log;
      }
      forall a ensures ActivationFits(s', a) {
        assert ActivationFits(s, a);
        assert Activated(a) in s'.log <==> Activated(a) in s.log;
      }
      assert s'.log[..|s'.log| - 1] == s.log;
    }
  }

  lemma ActivateCommits(s: State, c: CallId, decrypts: bool)
    requires Inv(s) && Standing(s, c, ReadyToActivate)
    requires Activate(s.db, s.calls[c].attempt, s.calls[c].actor, s.calls[c].version, decrypts, PinOf(s, s.calls[c].process)).Ok?
    ensures Inv(ApplyActivate(s, c, decrypts))
  {
    var call := s.calls[c];
    var db := Activate(s.db, call.attempt, call.actor, call.version, decrypts, PinOf(s, call.process)).value;
    var s' := ApplyActivate(s, c, decrypts);
    ActivateKeeps(s.db, s.history, call.attempt, call.actor, call.version, decrypts, PinOf(s, call.process));
    ActivateEvolves(s.db, call.attempt, call.actor, call.version, decrypts, PinOf(s, call.process));
    ActivateSwitches(s.db, call.attempt, call.actor, call.version, decrypts, PinOf(s, call.process));
    assert s'.db == db && s'.log == s.log + [Activated(call.attempt)];
    hide Activate, ApplyActivate, RowsFit;
    forall k, a ensures RequestFits(s', k, a) {
      assert RequestFits(s, k, a) && AttemptEvolves(s.db, s'.db, a);
      RequestKept(s, s', k, a);
    }
    forall d ensures CallFits(s', d) {
      assert CallFits(s, d);
      if d in s'.calls {
        assert AttemptEvolves(s.db, s'.db, s.calls[d].attempt);
        CallKept(s, s', d);
      }
    }
    forall key ensures ContextFits(s', key) { assert ContextFits(s, key) && AttemptEvolves(s.db, s'.db, key.1); }
    forall p ensures PinFits(s', p) {
      assert PinFits(s, p);
      assert forall w, selection :: Admitted(p, w, selection) in s'.log <==> Admitted(p, w, selection) in s.log;
      if p in s'.pins && s'.pins[p].revision.Some? { assert CredentialEvolves(s.db, s'.db, s'.pins[p].revision.value); }
    }
    forall a ensures ActivationFits(s', a) { assert ActivationFits(s, a); }
    assert s'.log[..|s'.log| - 1] == s.log;
  }

  lemma ActivateSwitches(db: Db, a: AttemptId, actor: ActorId, version: nat, decrypts: bool, pin: Option<Selection>)
    requires Activate(db, a, actor, version, decrypts, pin).Ok?
    ensures var db' := Activate(db, a, actor, version, decrypts, pin).value;
            && db.connection.Some? && db'.connection.Some?
            && db'.connection.value.version == db.connection.value.version + 1
            && PinAfter(pin, SelectionOf(db.connection)) == SelectionOf(db.connection)
            && UnfinishedWork(db) == {} && db'.work == db.work
            && db'.connection.value.activeRevision == db.attempts[a].revision
            && db'.connection.value.admission == Open && db'.connection.value.source == Managed
            && db.attempts[a].revision.Some? && db.attempts[a].revision.value in db.credentials
            && db.credentials[db.attempts[a].revision.value].state == Pending
  {
  }

  lemma ActivateStepKeeps(s: State, c: CallId, decrypts: bool)
    requires Inv(s)
    ensures Inv(ApplyActivate(s, c, decrypts))
  {
    hide Inv, Activate;
    if Standing(s, c, ReadyToActivate) {
      var call := s.calls[c];
      if Activate(s.db, call.attempt, call.actor, call.version, decrypts, PinOf(s, call.process)).Ok? {
        ActivateCommits(s, c, decrypts);
      } else {
        EndKeeps(s, c);
      }
    }
  }

  // Work items are no part of the registration rows.
  lemma WorkLeavesRows(db: Db, h: Histories, work: map<WorkId, Work>)
    requires RowsFit(db, h)
    ensures RowsFit(db.(work := work), h)
  {
    var db' := db.(work := work);
    forall a ensures AttemptFits(db', h, a) { assert AttemptFits(db, h, a); }
    forall a, b ensures PairFits(db', a, b) { assert PairFits(db, a, b); }
    forall r ensures CredentialCoherent(db', r) { assert CredentialCoherent(db, r); }
    forall op ensures OperationOwned(db', op) { assert OperationOwned(db, op); }
  }

  // Only work items, one pin and one admission under that pin differ.
  lemma WorkKeeps(s: State, s': State, p: ProcessId, admission: Option<Event>)
    requires Inv(s) && s'.db == s.db.(work := s'.db.work) && s'.history == s.history
    requires s'.calls == s.calls && s'.contexts == s.contexts
    requires s'.pins == s.pins || s'.pins == Pinned(s, p).pins
    requires s'.log == if admission.Some? then s.log + [admission.value] else s.log
    requires admission.Some? ==>
      admission.value.Admitted? && admission.value.process == p && p in s'.pins && admission.value.selection == s'.pins[p]
    ensures Inv(s')
  {
    WorkLeavesRows(s.db, s.history, s'.db.work);
    assert ConnectionCoherent(s.db);
    hide RowsFit;
    forall k, a ensures RequestFits(s', k, a) { assert RequestFits(s, k, a); RequestKept(s, s', k, a); }
    forall d ensures CallFits(s', d) { assert CallFits(s, d); CallKept(s, s', d); }
    forall key ensures ContextFits(s', key) { assert ContextFits(s, key); }
    forall q ensures PinFits(s', q) {
      assert PinFits(s, q);
      assert forall w, selection :: Admitted(q, w, selection) in s'.log <==>
        Admitted(q, w, selection) in s.log || Some(Admitted(q, w, selection)) == admission;
    }
    forall a ensures ActivationFits(s', a) {
      assert ActivationFits(s, a);
      assert Activated(a) in s'.log <==> Activated(a) in s.log;
    }
    assert admission.Some? ==> s'.log[..|s'.log| - 1] == s.log;
  }

  lemma AdmitPinned(db: Db, pin: Option<Selection>, sameCluster: bool, inScope: bool, decrypts: bool)
    requires Admit(db, pin, sameCluster, inScope, decrypts).Ok?
    ensures var selection := Admit(db, pin, sameCluster, inScope, decrypts).value;
            && selection == SelectionOf(db.connection) && PinAfter(pin, selection) == selection
            && (db.connection.Some? ==> db.connection.value.admission == Open)
  {
  }

  lemma WorkStepKeeps(s: State, step: Step)
    requires Inv(s)
    requires step.CreateWork? || step.AdmitWork? || step.ProgressWork? || step.ReopenWork?
    ensures Inv(ApplyWork(s, step))
  {
    hide Inv, Admit, CanReopen, WorkProgress;
    var s' := ApplyWork(s, step);
    if step.AdmitWork? {
      var p := step.process;
      var r := Admit(s.db, PinOf(s, p), step.sameCluster, step.inScope, step.decrypts);
      if r.Ok? { AdmitPinned(s.db, PinOf(s, p), step.sameCluster, step.inScope, step.decrypts); }
      WorkKeeps(s, s', p, if p !in s.crashed && r.Ok? then Some(Admitted(p, step.work, r.value)) else None);
    } else {
      WorkKeeps(s, s', 0, None);
    }
  }

  // ----- every step keeps the invariant

  predicate CallStep(step: Step) {
    step.AdvancePhase? || step.SendRequest? || step.StoreSecret? || step.ActivateAttempt? || step.RequestRevocation? || step.CompleteRevocation?
  }

  lemma CallStepKeeps(s: State, step: Step)
    requires Inv(s) && CallStep(step)
    ensures Inv(Apply(s, step))
  {
    hide Inv, ApplyPrepare, ApplyStart, ApplyAnswer, ApplyAdvance, ApplySend, ApplyStore, ApplyActivate, ApplyBeginRevoke,
         ApplyFinishRevoke, ApplyWork, Pinned;
    match step
    case AdvancePhase(c) => AdvanceStepKeeps(s, c);
    case SendRequest(c) => SendKeeps(s, c);
    case StoreSecret(c, ciphertext, tokenId, keyAvailable, newRevision) => StoreStepKeeps(s, c, ciphertext, tokenId, keyAvailable, newRevision);
    case ActivateAttempt(c, decrypts) => ActivateStepKeeps(s, c, decrypts);
    case RequestRevocation(c) => BeginRevokeStepKeeps(s, c);
    case CompleteRevocation(c) => FinishRevokeStepKeeps(s, c);
  }

  lemma StepKeeps(s: State, step: Step)
    requires Inv(s)
    ensures Inv(Apply(s, step))
  {
    if CallStep(step) {
      hide Inv, Apply;
      CallStepKeeps(s, step);
    } else if step.EndCall? || step.DropContext? || step.Crash? || step.SelectCredential? {
      hide Inv, Apply;
      QuietKeeps(s, step);
    } else {
      hide Inv, ApplyPrepare, ApplyStart, ApplyAnswer, ApplyAdvance, ApplySend, ApplyStore, ApplyActivate, ApplyBeginRevoke,
           ApplyFinishRevoke, ApplyWork, Pinned;
      if step.PrepareAttempt? {
        PrepareStepKeeps(s, step.request, step.keyAvailable, step.newId);
      } else if IsStart(step) {
        StartKeeps(s, step);
      } else if IsAnswer(step) {
        AnswerKeeps(s, step);
      } else {
        WorkStepKeeps(s, step);
      }
    }
  }

  lemma {:induction false} RunKeeps(steps: seq<Step>)
    ensures Inv(Run(steps))
  {
    if steps != [] {
      hide Inv;
      RunKeeps(steps[..|steps| - 1]);
      StepKeeps(Run(steps[..|steps| - 1]), steps[|steps| - 1]);
    }
  }
}
