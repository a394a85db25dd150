/** The joint invariant over the six tables, and that every transaction keeps it. */
module ProtocolInvariant {
  import opened Common
  import opened Protocol

  /** A task nobody holds, a task under a worker's lease, and a task whose result is in. */
  predicate RowOk(db: Tables, t: Id)
    requires t in db.tasks
  {
    var k := db.tasks[t];
    match k.status
    case Open =>
      k.owner.None? && k.claim.None? && k.lease.None? && k.claimedAt.None? && k.submitted.None? && t !in db.jobs
    case Claimed =>
      k.owner.Some? && k.claim.Some? && k.lease.Some? && k.claimedAt.Some? && k.submitted.None? && t !in db.jobs
    case _ =>
      k.owner.Some? && k.claim.Some? && k.lease.None? && SubmissionOk(db, t)
  }

  /** Exactly one job (jobs are keyed by task), for the submitted message, which is a stored RESULT from owner
      to creator carrying the task's claim id; the job is finished exactly when the task is. */
  predicate SubmissionOk(db: Tables, t: Id)
    requires t in db.tasks
  {
    var k := db.tasks[t];
    && t in db.jobs
    && k.submitted == Some(db.jobs[t].message)
    && db.jobs[t].message in db.messages
    && (db.jobs[t].done <==> k.status in {Completed, Failed})
    && var m := db.messages[db.jobs[t].message];
       && m.kind == Result
       && m.task == Some(t)
       && m.claim == k.claim
       && k.owner == Some(m.sender)
       && m.recipient == k.createdBy
  }

  predicate JobOk(job: Job) {
    && 0 <= job.attempts <= MAX_ATTEMPTS
    && (job.attempt != NO_ID <==> job.lease.Some?)
    && (job.attempt != NO_ID ==> 1 <= job.attempts && !job.done)
  }

  /** An alert that is out, or being sent, belongs to a job that has used up its attempts. */
  predicate AlertOk(db: Tables, t: Id)
    requires t in db.alerts
  {
    var a := db.alerts[t];
    && t in db.jobs
    && (a.sent ==> a.token == NO_ID)
    && (a.token != NO_ID <==> a.lease.Some?)
    && (a.sent || a.token != NO_ID ==> db.jobs[t].attempts == MAX_ATTEMPTS)
  }

  /** A stored RESULT for a task is the one the task accepted. */
  predicate MessageOk(db: Tables, m: Id)
    requires m in db.messages
  {
    && db.messages[m].number < db.nextSeq
    && (db.messages[m].kind == Result && db.messages[m].task.Some? ==>
          var t := db.messages[m].task.value;
          t in db.tasks && db.tasks[t].submitted == Some(m))
  }

  function LastVerdict(rows: seq<Verification>, t: Id): Option<Verdict> {
    if rows == [] then None
    else if rows[|rows| - 1].task == t then Some(rows[|rows| - 1].verdict)
    else LastVerdict(rows[..|rows| - 1], t)
  }

  /** A verdict is the creator's, on the accepted RESULT of somebody else. */
  predicate VerificationOk(db: Tables, v: Verification) {
    && v.task in db.tasks
    && var k := db.tasks[v.task];
       && k.submitted == Some(v.target)
       && k.createdBy == v.verifier
       && k.owner.Some? && k.owner.value != v.verifier
  }

  predicate StatusTold(status: Status, last: Option<Verdict>) {
    match status
    case Completed => last == Some(Verified)
    case Failed => last == Some(Rejected)
    case Submitted => last == None || last == Some(Inconclusive)
    case _ => last == None
  }

  ghost predicate Rows(db: Tables) {
    && (forall t {:trigger RowOk(db, t)} | t in db.tasks :: RowOk(db, t))
    && (forall t | t in db.jobs :: t in db.tasks && JobOk(db.jobs[t]))
    && (forall t {:trigger AlertOk(db, t)} | t in db.alerts :: AlertOk(db, t))
    && (forall m {:trigger MessageOk(db, m)} | m in db.messages :: MessageOk(db, m))
  }

  ghost predicate Numbered(db: Tables) {
    forall m, n | m in db.messages && n in db.messages && m != n :: db.messages[m].number != db.messages[n].number
  }

  ghost predicate Keyed(db: Tables) {
    forall t, u | t in db.tasks && u in db.tasks && t != u && db.tasks[t].key.Some? ::
      db.tasks[t].createdBy != db.tasks[u].createdBy || db.tasks[t].key != db.tasks[u].key
  }

  /** The verdicts of a task: inconclusive ones first, at most one conclusive one, which is last and decides. */
  ghost predicate Told(db: Tables) {
    && (forall i | 0 <= i < |db.verifications| :: VerificationOk(db, db.verifications[i]))
    && (forall i, j | 0 <= i < j < |db.verifications| && db.verifications[i].task == db.verifications[j].task ::
          db.verifications[i].verdict == Inconclusive)
    && (forall t | t in db.tasks :: StatusTold(db.tasks[t].status, LastVerdict(db.verifications, t)))
  }

  ghost predicate Joint(db: Tables) {
    Rows(db) && Numbered(db) && Keyed(db) && Told(db)
  }

  lemma LastVerdictSnoc(rows: seq<Verification>, v: Verification, t: Id)
    ensures LastVerdict(rows + [v], t) == if v.task == t then Some(v.verdict) else LastVerdict(rows, t)
  {
    assert (rows + [v])[..|rows|] == rows;
  }

  lemma LastVerdictAbsent(rows: seq<Verification>, t: Id)
    requires forall i | 0 <= i < |rows| :: rows[i].task != t
    ensures LastVerdict(rows, t) == None
  {
  }

  lemma {:induction false} LastVerdictEarlier(rows: seq<Verification>, t: Id, i: nat)
    requires i < |rows| && rows[i].task == t
    requires forall i, j | 0 <= i < j < |rows| && rows[i].task == rows[j].task :: rows[i].verdict == Inconclusive
    ensures LastVerdict(rows, t).Some?
    ensures rows[i].verdict != Inconclusive ==> LastVerdict(rows, t) == Some(rows[i].verdict)
  {
    if rows[|rows| - 1].task != t {
      LastVerdictEarlier(rows[..|rows| - 1], t, i);
    }
  }

  // ----- what the transactions other than a verdict leave alone -----

  /** Nobody's verdict is touched: creators and keys stay, and only tasks without a submission are rewritten. */
  predicate TaskMoves(k: Task, k': Task) {
    && k'.createdBy == k.createdBy && k'.key == k.key
    && (k' == k || (k.submitted.None? && k.status in {Open, Claimed} && k'.status in {Open, Claimed, Submitted}))
  }

  ghost predicate TasksMove(db: Tables, db': Tables) {
    && db'.verifications == db.verifications
    && (forall t {:trigger t in db'.tasks} | t in db.tasks :: t in db'.tasks && TaskMoves(db.tasks[t], db'.tasks[t]))
  }

  lemma ToldFrame(db: Tables, db': Tables)
    requires Told(db) && TasksMove(db, db')
    requires forall t | t in db'.tasks && t !in db.tasks :: db'.tasks[t].status == Open
    ensures Told(db')
  {
    forall i | 0 <= i < |db.verifications| ensures VerificationOk(db', db.verifications[i]) {
      assert VerificationOk(db, db.verifications[i]);
    }
    forall t | t in db'.tasks ensures StatusTold(db'.tasks[t].status, LastVerdict(db.verifications, t)) {
      if t in db.tasks {
        assert StatusTold(db.tasks[t].status, LastVerdict(db.verifications, t));
      } else {
        forall i | 0 <= i < |db.verifications| ensures db.verifications[i].task != t {
          assert VerificationOk(db, db.verifications[i]);
        }
        LastVerdictAbsent(db.verifications, t);
      }
    }
  }

  lemma SameTasksKeep(db: Tables, db': Tables)
    requires Joint(db) && Rows(db')
    requires db'.tasks == db.tasks && db'.messages == db.messages && db'.verifications == db.verifications
    ensures Joint(db')
  {
    ToldFrame(db, db');
  }

  /** The delays, in seconds. */
  lemma BackoffIs()
    ensures Backoff(1) == 60 && Backoff(2) == 120 && Backoff(3) == 240 && Backoff(4) == 480 && Backoff(5) == 960
    ensures forall n | n < 1 :: Backoff(n) == 60
    ensures forall n | n > 5 :: Backoff(n) == 960
  {
    assert Pow2(4) == 16 && Pow2(3) == 8 && Pow2(2) == 4 && Pow2(1) == 2 && Pow2(0) == 1;
  }

  // ----- tasks -----

  /** The queue and the operator's side do not write the task table. */
  lemma TasksUntouched(db: Tables, op: Op)
    requires op.OpGrant? || op.OpRetry? || op.OpLeaseAlert? || op.OpAckAlert? || op.OpReopen?
    ensures Apply(db, op).tables.tasks == db.tasks
  {
  }

  lemma CreateKeepsRows(db: Tables, id: Id, k: Task)
    requires Rows(db) && id !in db.tasks
    requires k.status == Open && k.owner.None? && k.claim.None? && k.lease.None? && k.claimedAt.None? && k.submitted.None?
    ensures Rows(db.(tasks := db.tasks[id := k]))
  {
    var db' := db.(tasks := db.tasks[id := k]);
    forall t | t in db'.tasks ensures RowOk(db', t) {
      assert t != id ==> RowOk(db, t);
    }
    forall m | m in db.messages ensures MessageOk(db', m) {
      assert MessageOk(db, m);
    }
    forall t | t in db.alerts ensures AlertOk(db', t) {
      assert AlertOk(db, t);
    }
  }

  lemma CreateKeeps(db: Tables, now: int, id: Id, createdBy: Id, key: Option<string>)
    requires Joint(db) && id !in db.tasks
    ensures Joint(Create(db, now, id, createdBy, key).tables)
  {
    if !exists t :: KeyTaken(db, createdBy, key, t) {
      AddedKeeps(db, id, Task(Open, None, None, None, None, None, createdBy, key, now));
    }
  }

  lemma AddedKeeps(db: Tables, id: Id, k: Task)
    requires Joint(db) && id !in db.tasks
    requires k.status == Open && k.owner.None? && k.claim.None? && k.lease.None? && k.claimedAt.None? && k.submitted.None?
    requires forall t :: !KeyTaken(db, k.createdBy, k.key, t)
    ensures Joint(db.(tasks := db.tasks[id := k]))
  {
    var db' := db.(tasks := db.tasks[id := k]);
    CreateKeepsRows(db, id, k);
    ToldFrame(db, db');
    forall t | t in db.tasks && k.key.Some? ensures db.tasks[t].createdBy != k.createdBy || db.tasks[t].key != k.key {
      assert !KeyTaken(db, k.createdBy, k.key, t);
    }
  }

  lemma RequeueKeepsRows(db: Tables, now: int)
    requires Rows(db)
    ensures Rows(Requeue(db, now).tables)
  {
    var db' := Requeue(db, now).tables;
    forall t | t in db'.tasks ensures RowOk(db', t) {
      assert RowOk(db, t);
    }
    forall m | m in db.messages ensures MessageOk(db', m) {
      assert MessageOk(db, m);
      if db.messages[m].kind == Result && db.messages[m].task.Some? {
        assert RowOk(db, db.messages[m].task.value);
      }
    }
    forall t | t in db.alerts ensures AlertOk(db', t) {
      assert AlertOk(db, t);
    }
  }

  lemma RequeueKeeps(db: Tables, now: int)
    requires Joint(db)
    ensures Joint(Requeue(db, now).tables)
  {
    RequeueKeepsRows(db, now);
    forall t | t in db.tasks && Stale(db.tasks[t], now) ensures db.tasks[t].submitted.None? {
      assert RowOk(db, t);
    }
    ToldFrame(db, Requeue(db, now).tables);
  }

  /** Rewriting one unsubmitted row into a well-formed claimed row keeps everything. */
  lemma ClaimedRowKeepsRows(db: Tables, t: Id, k: Task)
    requires Rows(db) && t in db.tasks && db.tasks[t].status in {Open, Claimed}
    requires k.status == Claimed && k.owner.Some? && k.claim.Some? && k.lease.Some? && k.claimedAt.Some? && k.submitted.None?
    ensures Rows(db.(tasks := db.tasks[t := k]))
  {
    var db' := db.(tasks := db.tasks[t := k]);
    assert RowOk(db, t);
    forall u | u in db'.tasks ensures RowOk(db', u) {
      assert RowOk(db, u);
    }
    forall m | m in db.messages ensures MessageOk(db', m) {
      assert MessageOk(db, m);
    }
    forall u | u in db.alerts ensures AlertOk(db', u) {
      assert AlertOk(db, u);
    }
  }

  lemma ClaimedRowKeeps(db: Tables, t: Id, k: Task)
    requires Joint(db) && t in db.tasks && db.tasks[t].status in {Open, Claimed}
    requires k.status == Claimed && k.owner.Some? && k.claim.Some? && k.lease.Some? && k.claimedAt.Some? && k.submitted.None?
    requires k.createdBy == db.tasks[t].createdBy && k.key == db.tasks[t].key
    ensures Joint(db.(tasks := db.tasks[t := k]))
  {
    assert RowOk(db, t);
    ClaimedRowKeepsRows(db, t, k);
    ToldFrame(db, db.(tasks := db.tasks[t := k]));
  }

  lemma ExtendKeeps(db: Tables, now: int, t: Id, agent: Id, claim: Id)
    requires Joint(db)
    ensures Joint(Extend(db, now, t, agent, claim).tables)
  {
    if Holds(db, now, t, agent, claim) {
      assert RowOk(db, t);
      ClaimedRowKeeps(db, t, db.tasks[t].(lease := Some(now + TASK_LEASE)));
    }
  }

  lemma TakeKeeps(db: Tables, now: int, t: Id, agent: Id, claim: Id)
    requires Joint(db)
    ensures Joint(Take(db, now, t, agent, claim).tables)
  {
    if t in db.tasks && db.tasks[t].status == Open {
      ClaimedRowKeeps(db, t, Take(db, now, t, agent, claim).tables.tasks[t]);
    }
  }

  // ----- messages -----

  /** The insert into verification_jobs never meets an existing row: a held task has no job. */
  lemma NoJobCollision(db: Tables, now: int, m: Message)
    requires Joint(db) && Acceptable(db, now, m)
    ensures m.task.value !in db.jobs
  {
    assert RowOk(db, m.task.value);
  }

  lemma NumbersKeep(db: Tables, id: Id, m: Message)
    requires Rows(db) && Numbered(db) && id !in db.messages
    ensures Numbered(Stored(db, id, m))
  {
    forall x | x in db.messages ensures db.messages[x].number < db.nextSeq {
      assert MessageOk(db, x);
    }
  }

  lemma OtherMessageKeepsRows(db: Tables, id: Id, m: Message)
    requires Rows(db) && id !in db.messages
    requires m.kind == Other || m.task.None?
    ensures Rows(Stored(db, id, m))
  {
    var db' := Stored(db, id, m);
    forall t | t in db'.tasks ensures RowOk(db', t) {
      assert RowOk(db, t);
    }
    forall t | t in db.alerts ensures AlertOk(db', t) {
      assert AlertOk(db, t);
    }
    forall x | x in db'.messages ensures MessageOk(db', x) {
      assert x != id ==> MessageOk(db, x);
    }
  }

  /** A result is taken: the task is submitted, the message stored and the job queued together. */
  lemma AcceptanceKeepsRows(db: Tables, received: int, now: int, id: Id, m: Message)
    requires Rows(db) && Acceptable(db, now, m) && m.kind == Result && id !in db.messages
    ensures Rows(Submitting(Stored(db, id, m), received, id, m.task.value))
  {
    var t := m.task.value;
    var db' := Submitting(Stored(db, id, m), received, id, t);
    assert RowOk(db, t);
    assert SubmissionOk(db', t);
    forall u | u in db'.tasks ensures RowOk(db', u) {
      assert RowOk(db, u);
    }
    forall u | u in db.alerts ensures AlertOk(db', u) {
      assert AlertOk(db, u);
    }
    forall x | x in db'.messages ensures MessageOk(db', x) {
      assert x != id ==> MessageOk(db, x);
    }
  }

  lemma AcceptanceKeeps(db: Tables, received: int, now: int, id: Id, m: Message)
    requires Joint(db) && Acceptable(db, now, m) && m.kind == Result && id !in db.messages
    ensures Joint(Submitting(Stored(db, id, m), received, id, m.task.value))
  {
    AcceptanceKeepsRows(db, received, now, id, m);
    NumbersKeep(db, id, m);
    assert RowOk(db, m.task.value);
    ToldFrame(db, Submitting(Stored(db, id, m), received, id, m.task.value));
  }

  lemma OtherMessageKeeps(db: Tables, id: Id, m: Message)
    requires Joint(db) && id !in db.messages
    requires m.kind == Other || m.task.None?
    ensures Joint(Stored(db, id, m))
  {
    OtherMessageKeepsRows(db, id, m);
    NumbersKeep(db, id, m);
    ToldFrame(db, Stored(db, id, m));
  }

  lemma PostKeeps(db: Tables, received: int, now: int, id: Id, m: Message)
    requires Joint(db)
    ensures Joint(Post(db, received, now, id, m).tables)
  {
    if Post(db, received, now, id, m).note.Some? {
      AcceptanceKeeps(db, received, now, id, m);
    } else if Post(db, received, now, id, m).reply == Done {
      OtherMessageKeeps(db, id, m);
    }
  }

  // ----- the verification queue -----

  /** Rewriting one job of a submitted task keeps everything, if its alert still fits. */
  lemma JobRowKeeps(db: Tables, db': Tables, t: Id)
    requires Joint(db)
    requires t in db.jobs && t in db'.jobs && JobOk(db'.jobs[t])
    requires db'.jobs[t].message == db.jobs[t].message && db'.jobs[t].done == db.jobs[t].done
    requires db' == db.(jobs := db.jobs[t := db'.jobs[t]], alerts := db'.alerts, retries := db'.retries)
    requires forall u {:trigger AlertOk(db', u)} | u in db'.alerts :: AlertOk(db', u)
    ensures Joint(db')
  {
    forall u | u in db'.tasks ensures RowOk(db', u) {
      assert RowOk(db, u);
    }
    forall m | m in db.messages ensures MessageOk(db', m) {
      assert MessageOk(db, m);
    }
    SameTasksKeep(db, db');
  }

  lemma GrantKeeps(db: Tables, now: int, viewer: Id, access: set<Id>, attempt: Id)
    requires Joint(db) && attempt != NO_ID
    ensures Joint(Grant(db, now, viewer, access, attempt).tables)
  {
    var tx := Grant(db, now, viewer, access, attempt);
    if tx.reply.Handed? {
      forall u | u in db.alerts ensures AlertOk(tx.tables, u) {
        assert AlertOk(db, u);
      }
      JobRowKeeps(db, tx.tables, tx.reply.task);
    }
  }

  lemma VerdictKeepsRows(db: Tables, now: int, r: Review, rows: seq<Verification>)
    requires Rows(db) && r.task in db.tasks && db.tasks[r.task].status == Submitted && r.task in db.jobs
    ensures Rows(db.(jobs := db.jobs[r.task := Settled(db.jobs[r.task], now, r.verdict)], verifications := rows,
                     tasks := db.tasks[r.task := db.tasks[r.task].(status := Judged(Submitted, r.verdict))]))
  {
    var db' := db.(jobs := db.jobs[r.task := Settled(db.jobs[r.task], now, r.verdict)], verifications := rows,
                   tasks := db.tasks[r.task := db.tasks[r.task].(status := Judged(Submitted, r.verdict))]);
    assert RowOk(db, r.task);
    forall t | t in db'.tasks ensures RowOk(db', t) {
      assert RowOk(db, t);
    }
    forall m | m in db.messages ensures MessageOk(db', m) {
      assert MessageOk(db, m);
    }
    forall t | t in db.alerts ensures AlertOk(db', t) {
      assert AlertOk(db, t);
    }
  }

  /** One more verdict, by the creator on the accepted result of somebody else, on a task still waiting for one. */
  lemma VerdictKeepsTold(db: Tables, db': Tables, v: Verification)
    requires Told(db) && VerificationOk(db, v) && db.tasks[v.task].status == Submitted
    requires db'.verifications == db.verifications + [v]
    requires db'.tasks == db.tasks[v.task := db.tasks[v.task].(status := Judged(Submitted, v.verdict))]
    ensures Told(db')
  {
    forall i | 0 <= i < |db'.verifications| ensures VerificationOk(db', db'.verifications[i]) {
      assert i < |db.verifications| ==> VerificationOk(db, db.verifications[i]);
    }
    assert StatusTold(Submitted, LastVerdict(db.verifications, v.task));
    forall i | 0 <= i < |db.verifications| && db.verifications[i].task == v.task
      ensures db.verifications[i].verdict == Inconclusive
    {
      LastVerdictEarlier(db.verifications, v.task, i);
    }
    forall t | t in db'.tasks ensures StatusTold(db'.tasks[t].status, LastVerdict(db'.verifications, t)) {
      assert StatusTold(db.tasks[t].status, LastVerdict(db.verifications, t));
      LastVerdictSnoc(db.verifications, v, t);
    }
  }

  /** A review that meets no objection comes from the creator, who is not the worker, about the accepted result. */
  lemma ReviewerIsTheOtherParty(db: Tables, now: int, visible: bool, r: Review)
    requires Rows(db) && Objection(db, visible, r).None?
    ensures r.task in db.jobs
    ensures VerificationOk(db, Verification(r.id, r.task, r.verifier, r.target, r.verdict, now))
    ensures db.tasks[r.task].status == Submitted
  {
    assert RowOk(db, r.task) && MessageOk(db, r.target);
  }

  lemma VerifyKeeps(db: Tables, now: int, visible: bool, r: Review)
    requires Joint(db)
    ensures Joint(Verify(db, now, visible, r).tables)
  {
    var db' := Verify(db, now, visible, r).tables;
    if Verify(db, now, visible, r).note.Some? {
      ReviewerIsTheOtherParty(db, now, visible, r);
      VerdictKeepsRows(db, now, r, db'.verifications);
      VerdictKeepsTold(db, db', Verification(r.id, r.task, r.verifier, r.target, r.verdict, now));
    }
  }

  // ----- the operator's side -----

  lemma RetryKeeps(db: Tables, now: int, update: int, t: Id)
    requires Joint(db)
    ensures Joint(Retry(db, now, update, t).tables)
  {
    var tx := Retry(db, now, update, t);
    if tx.note.Some? {
      forall u | u in tx.tables.alerts ensures AlertOk(tx.tables, u) {
        assert AlertOk(db, u);
      }
      JobRowKeeps(db, tx.tables, t);
    }
  }

  lemma AlertRowsKeep(db: Tables, alerts: map<Id, Alert>)
    requires Joint(db)
    requires forall u {:trigger AlertOk(db.(alerts := alerts), u)} | u in alerts :: AlertOk(db.(alerts := alerts), u)
    ensures Joint(db.(alerts := alerts))
  {
    var db' := db.(alerts := alerts);
    forall u | u in db'.tasks ensures RowOk(db', u) {
      assert RowOk(db, u);
    }
    forall m | m in db.messages ensures MessageOk(db', m) {
      assert MessageOk(db, m);
    }
    SameTasksKeep(db, db');
  }

  lemma AlertChosen(db: Tables, now: int, token: Id) returns (t: Id)
    requires LeaseAlert(db, now, token).note.Some?
    ensures Alertable(db, now, WithAlertRows(db, now), t)
    ensures LeaseAlert(db, now, token) == SendingAlert(db, now, WithAlertRows(db, now), t, token)
  {
    t := LeaseAlert(db, now, token).reply.task;
  }

  predicate RowsAdded(alerts: map<Id, Alert>, rows: map<Id, Alert>) {
    && (forall u | u in alerts :: u in rows && rows[u] == alerts[u])
    && (forall u | u in rows && u !in alerts :: rows[u] == Alert(false, None, NO_ID))
  }

  lemma RowsAreAdded(db: Tables, now: int)
    ensures RowsAdded(db.alerts, WithAlertRows(db, now))
  {
  }

  lemma SendingKeeps(db: Tables, rows: map<Id, Alert>, t: Id, a: Alert)
    requires Joint(db) && RowsAdded(db.alerts, rows) && rows.Keys <= db.jobs.Keys
    requires t in rows && !a.sent && a.token != NO_ID && a.lease.Some? && db.jobs[t].attempts == MAX_ATTEMPTS
    ensures Joint(db.(alerts := rows[t := a]))
  {
    var alerts := rows[t := a];
    forall u | u in alerts ensures AlertOk(db.(alerts := alerts), u) {
      assert u in db.alerts ==> AlertOk(db, u);
    }
    AlertRowsKeep(db, alerts);
  }

  lemma LeaseAlertKeeps(db: Tables, now: int, token: Id)
    requires Joint(db) && token != NO_ID
    ensures Joint(LeaseAlert(db, now, token).tables)
  {
    if LeaseAlert(db, now, token).note.Some? {
      var t := AlertChosen(db, now, token);
      var rows := WithAlertRows(db, now);
      RowsAreAdded(db, now);
      assert JobOk(db.jobs[t]);
      forall u | u in rows ensures u in db.jobs {
        assert u in db.alerts ==> AlertOk(db, u);
      }
      SendingKeeps(db, rows, t, rows[t].(token := token, lease := Some(now + ALERT_LEASE)));
    }
  }

  lemma AckAlertKeeps(db: Tables, now: int, t: Id, token: Id)
    requires Joint(db) && token != NO_ID
    ensures Joint(AckAlert(db, now, t, token).tables)
  {
    var alerts := AckAlert(db, now, t, token).tables.alerts;
    forall u | u in alerts ensures AlertOk(db.(alerts := alerts), u) {
      assert AlertOk(db, u);
    }
    AlertRowsKeep(db, alerts);
  }

  /** Reopening the database changes nothing at all: every submitted task already has its job. */
  lemma ReopenKeepsJobs(db: Tables)
    requires Rows(db)
    ensures Reopen(db).tables == db
  {
    forall t | t in db.tasks && db.tasks[t].status == Submitted ensures t in db.jobs {
      assert RowOk(db, t);
    }
    assert Reopen(db).tables.jobs == db.jobs;
  }

  // ----- every transaction -----

  lemma StepKeepsJoint(w: World, op: Op)
    requires Joint(w.db) && w.db.tasks.Keys <= w.drawn && Allowed(w, op)
    ensures Joint(Step(w, op).db)
  {
    var db := w.db;
    match op
    case OpCreate(at, id, createdBy, key) => CreateKeeps(db, at, id, createdBy, key);
    case OpRequeue(at) => RequeueKeeps(db, at);
    case OpExtend(at, task, agent, claim) => ExtendKeeps(db, at, task, agent, claim);
    case OpTake(at, task, agent, id) => TakeKeeps(db, at, task, agent, id);
    case OpPost(at, received, id, message) => PostKeeps(db, received, at, id, message);
    case OpGrant(at, viewer, access, id) => GrantKeeps(db, at, viewer, access, id);
    case OpVerify(at, visible, review) => VerifyKeeps(db, at, visible, review);
    case OpRetry(at, update, task) => RetryKeeps(db, at, update, task);
    case OpLeaseAlert(at, id) => LeaseAlertKeeps(db, at, id);
    case OpAckAlert(at, task, token) => AckAlertKeeps(db, at, task, token);
    case OpReopen(at) => ReopenKeepsJobs(db);
  }

  lemma StepKeepsDrawn(w: World, op: Op)
    requires w.db.tasks.Keys <= w.drawn
    ensures Step(w, op).db.tasks.Keys <= Step(w, op).drawn
  {
  }

  /** The joint invariant holds in every reachable state. */
  lemma {:induction false} JointAlways(ops: seq<Op>)
    requires Legal(ops)
    ensures Joint(Run(ops).db)
    ensures Run(ops).db.tasks.Keys <= Run(ops).drawn
  {
    if ops != [] {
      var before := ops[..|ops| - 1];
      JointAlways(before);
      StepKeepsJoint(Run(before), ops[|ops| - 1]);
      StepKeepsDrawn(Run(before), ops[|ops| - 1]);
    }
  }
}
