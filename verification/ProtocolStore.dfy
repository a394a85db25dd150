/** The stores over the six tables, transaction by transaction. A ghost trace records the run so far, so that what
    is proved about runs holds of every valid store. */
module ProtocolStore {
  import opened Common
  import opened Protocol
  import opened ProtocolInvariant
  import opened ProtocolAnswers
  import Least
  import TextOrder
  import WorkerLeases
  import Attempts
  import Alerts
  import Results

  class Store {
    var tasks: map<Id, Task>
    var messages: map<Id, Message>
    var nextSeq: nat
    var jobs: map<Id, Job>
    var verifications: seq<Verification>
    var alerts: map<Id, Alert>
    var retries: map<int, Id>

    ghost var trace: seq<Op>

    function View(): Tables
      reads this
    {
      Tables(tasks, messages, nextSeq, jobs, verifications, alerts, retries)
    }

    ghost predicate Valid()
      reads this
    {
      Legal(trace) && Run(trace).db == View()
    }

    ghost function World(): World
      reads this
    {
      Run(trace)
    }

    /** What is proved about runs holds of a valid store: the joint invariant, the leases, the attempts and their
        accounts, the alerts, and the retry ledger. */
    lemma Sound(t: Id)
      requires Valid()
      ensures Joint(View())
      ensures WorkerLeases.Disjoint(World().log) && WorkerLeases.NeverShortened(World().log)
      ensures WorkerLeases.Inside(World().log) && WorkerLeases.Final(World().log)
      ensures Attempts.HistoryOk(World().log)
      ensures Attempts.Tally(World().log, t, Attempts.Grants) ==
                MAX_ATTEMPTS * Attempts.Tally(World().log, t, Attempts.Refills) + if t in jobs then jobs[t].attempts else 0
      ensures Alerts.AlertHistory(World().log)
      ensures Attempts.Tally(World().log, t, Attempts.Sent) <= Attempts.Tally(World().log, t, Attempts.Refills) + 1
      ensures Results.LedgerTold(World())
    {
      JointAlways(trace);
      WorkerLeases.GoodAlways(trace);
      Attempts.GoodAlways(trace);
      assert Attempts.Balanced(World(), t);
      Alerts.AlertsAlways(trace);
      Alerts.AlertsSentAtMost(trace, t);
      Results.LedgerAlways(trace);
    }

    constructor ()
      ensures Valid() && trace == [] && View() == EMPTY
    {
      tasks, messages, nextSeq, jobs, verifications, alerts, retries := map[], map[], 1, map[], [], map[], map[];
      trace := [];
    }

    /** Records a transaction in the trace once the fields hold what it leaves. */
    ghost method Commit(op: Op)
      requires Legal(trace) && Allowed(Run(trace), op) && Apply(Run(trace).db, op).tables == View()
      modifies this`trace
      ensures Valid() && trace == old(trace) + [op]
    {
      Results.LegalSnoc(trace, op);
      trace := trace + [op];
    }

    method RequeueExpired(now: int)
      requires Valid() && World().clock <= now
      modifies this
      ensures Valid() && trace == old(trace) + [OpRequeue(now)]
      ensures View() == Requeue(old(View()), now).tables
      ensures tasks.Keys == old(tasks).Keys
      ensures forall t | t in tasks ::
                if old(tasks)[t].status == Claimed && old(tasks)[t].lease.Some? && old(tasks)[t].lease.value <= now
                then tasks[t].status == Open && tasks[t].owner == None && tasks[t].claim == None && tasks[t].lease == None
                else tasks[t] == old(tasks)[t]
    {
      assert forall t | t in tasks && tasks[t].status == Claimed :: tasks[t].claim.Some? by {
        ClaimsAreNamed();
      }
      tasks := map t | t in tasks :: if Stale(tasks[t], now) then Freed(tasks[t]) else tasks[t];
      Commit(OpRequeue(now));
    }

    lemma ClaimsAreNamed()
      requires Valid()
      ensures forall t | t in tasks && tasks[t].status == Claimed :: tasks[t].claim.Some? && tasks[t].lease.Some?
    {
      JointAlways(trace);
      forall t | t in tasks && tasks[t].status == Claimed ensures tasks[t].claim.Some? && tasks[t].lease.Some? {
        assert RowOk(View(), t);
      }
    }

    /** The heartbeat: requeue what has expired, then extend the lease of a claim that is still live. */
    method Heartbeat(before: int, now: int, t: Id, agent: Id, claim: Id) returns (ok: bool)
      requires Valid() && World().clock <= before <= now
      modifies this
      ensures Valid() && trace == old(trace) + [OpRequeue(before), OpExtend(now, t, agent, claim)]
      ensures ok <==>
                && t in old(tasks) && old(tasks)[t].status == Claimed && old(tasks)[t].owner == Some(agent)
                && old(tasks)[t].claim == Some(claim) && old(tasks)[t].lease.Some? && now < old(tasks)[t].lease.value
      ensures View() == var freed := Requeue(old(View()), before).tables;
                        if ok then freed.(tasks := freed.tasks[t := old(tasks)[t].(lease := Some(now + TASK_LEASE))]) else freed
    {
      RequeueExpired(before);
      ok := ExtendLease(now, t, agent, claim);
      Commit(OpExtend(now, t, agent, claim));
      assert trace == old(trace) + [OpRequeue(before), OpExtend(now, t, agent, claim)];
    }

    method ExtendLease(now: int, t: Id, agent: Id, claim: Id) returns (ok: bool)
      modifies this`tasks
      ensures ok <==> Holds(old(View()), now, t, agent, claim)
      ensures View() == Extend(old(View()), now, t, agent, claim).tables
      ensures tasks == if ok then old(tasks)[t := old(tasks)[t].(lease := Some(now + TASK_LEASE))] else old(tasks)
    {
      ok := t in tasks && tasks[t].status == Claimed && tasks[t].owner == Some(agent) && tasks[t].claim == Some(claim)
            && tasks[t].lease.Some? && tasks[t].lease.value > now;
      if ok {
        tasks := tasks[t := tasks[t].(lease := Some(now + TASK_LEASE))];
      }
    }

    method CreateTask(now: int, id: Id, createdBy: Id, key: Option<string>) returns (task: Id)
      requires Valid() && World().clock <= now && id !in World().drawn && id != NO_ID
      modifies this
      ensures Valid() && trace == old(trace) + [OpCreate(now, id, createdBy, key)]
      ensures task in tasks && tasks[task].createdBy == createdBy && tasks[task].key == key
      ensures task == id || View() == old(View())
      ensures task == id <==> forall t :: !KeyTaken(old(View()), createdBy, key, t)
    {
      ghost var db := View();
      assert tasks.Keys <= World().drawn by {
        JointAlways(trace);
      }
      task := InsertTask(now, id, createdBy, key);
      assert Create(db, now, id, createdBy, key).tables == View() by {
        CreateIs(db, now, id, createdBy, key, task);
      }
      Commit(OpCreate(now, id, createdBy, key));
    }

    method InsertTask(now: int, id: Id, createdBy: Id, key: Option<string>) returns (task: Id)
      requires id !in tasks
      modifies this`tasks
      ensures if task == id then forall t :: !KeyTaken(old(View()), createdBy, key, t)
              else KeyTaken(old(View()), createdBy, key, task)
      ensures tasks == if task == id then old(tasks)[id := Task(Open, None, None, None, None, None, createdBy, key, now)] else old(tasks)
    {
      var same := set t | t in tasks && tasks[t].createdBy == createdBy && key.Some? && tasks[t].key == key;
      if same != {} {
        task :| task in same;
      } else {
        assert forall t :: KeyTaken(View(), createdBy, key, t) ==> t in same;
        tasks := tasks[id := Task(Open, None, None, None, None, None, createdBy, key, now)];
        task := id;
      }
    }

    /** Claiming: requeue, look the task up in the claimer's scope, then compare and swap. */
    method Claim(first: int, second: int, now: int, visible: bool, t: Id, agent: Id, claim: Id) returns (reply: Reply)
      requires Valid() && World().clock <= first <= second <= now
      requires claim !in World().drawn && claim != NO_ID
      modifies this
      ensures Valid()
      ensures reply in {NotFound, Conflict, Done}
      ensures reply == NotFound <==> !visible || t !in old(tasks)
      ensures reply == Done <==>
                && visible && t in old(tasks)
                && (old(tasks)[t].status == Open
                    || (old(tasks)[t].status == Claimed && old(tasks)[t].lease.Some? && old(tasks)[t].lease.value <= second))
      ensures reply == Done ==> t in tasks && tasks[t].status == Claimed && tasks[t].owner == Some(agent)
                                && tasks[t].claim == Some(claim) && tasks[t].lease == Some(now + 300)
      ensures var freed := Requeue(Requeue(old(View()), first).tables, second).tables;
              View() == if reply == Done then Take(freed, now, t, agent, claim).tables else freed
    {
      RequeueExpired(first);
      RequeueExpired(second);
      if !visible || t !in tasks {
        return NotFound;
      }
      var ok := CompareAndSwap(now, t, agent, claim);
      reply := if ok then Done else Conflict;
    }

    method CompareAndSwap(now: int, t: Id, agent: Id, claim: Id) returns (ok: bool)
      requires Valid() && World().clock <= now && claim !in World().drawn && claim != NO_ID
      modifies this
      ensures Valid() && trace == old(trace) + [OpTake(now, t, agent, claim)]
      ensures ok <==> t in old(tasks) && old(tasks)[t].status == Open
      ensures ok ==> t in tasks && Holds(View(), now, t, agent, claim) && tasks[t].lease == Some(now + TASK_LEASE)
      ensures View() == Take(old(View()), now, t, agent, claim).tables
      ensures !ok ==> View() == old(View())
    {
      ok := t in tasks && tasks[t].status == Open;
      if ok {
        tasks := tasks[t := tasks[t].(status := Claimed, owner := Some(agent), claimedAt := Some(now),
                   lease := Some(now + TASK_LEASE), claim := Some(claim), submitted := None)];
      }
      Commit(OpTake(now, t, agent, claim));
    }

    /** Store a message; a RESULT for a task goes in together with the submission and the job, or not at all. */
    method Insert(received: int, now: int, id: Id, m: Message) returns (isNew: bool, reply: Reply)
      requires Valid() && World().clock <= now
      modifies this
      ensures Valid() && trace == old(trace) + [OpPost(now, received, id, m)]
      ensures reply == Post(old(View()), received, now, id, m).reply
      ensures View() == Post(old(View()), received, now, id, m).tables
      ensures isNew <==> reply == Done
    {
      isNew, reply := InsertRows(received, now, id, m);
      Commit(OpPost(now, received, id, m));
    }

    method InsertRows(received: int, now: int, id: Id, m: Message) returns (isNew: bool, reply: Reply)
      modifies this`tasks, this`messages, this`nextSeq, this`jobs
      ensures reply == Post(old(View()), received, now, id, m).reply
      ensures View() == Post(old(View()), received, now, id, m).tables
      ensures isNew <==> reply == Done
    {
      var undo := View();
      isNew := id !in messages;
      if isNew {
        messages, nextSeq := messages[id := m.(number := nextSeq)], nextSeq + 1;
      }
      reply := if isNew then Done else if messages[id].sender == m.sender then Nothing else Conflict;
      if isNew && m.kind == Result && m.task.Some? {
        reply := Submit(received, now, id, m);
        if reply != Done {
          isNew, tasks, messages, nextSeq := false, undo.tasks, undo.messages, undo.nextSeq;
        }
      }
    }

    /** Accept a RESULT just stored: the task first, then the queue; a failure leaves the undoing to the caller. */
    method Submit(received: int, now: int, id: Id, m: Message) returns (reply: Reply)
      requires m.task.Some?
      modifies this`tasks, this`jobs
      ensures reply == if m.claim.None? || m.claim.value == NO_ID then Invalid
                       else if !Acceptable(old(View()), now, m) then Conflict
                       else if m.task.value in old(jobs) then Internal
                       else Done
      ensures reply == Done ==> View() == Submitting(old(View()), received, id, m.task.value)
      ensures reply != Done ==> jobs == old(jobs)
    {
      var t := m.task.value;
      if m.claim.None? || m.claim.value == NO_ID {
        return Invalid;
      }
      if !(t in tasks && tasks[t].status == Claimed && tasks[t].owner == Some(m.sender)
           && tasks[t].createdBy == m.recipient && tasks[t].claim == m.claim
           && tasks[t].lease.Some? && tasks[t].lease.value > now) {
        return Conflict;
      }
      tasks := tasks[t := tasks[t].(status := Submitted, submitted := Some(id), lease := None)];
      if t in jobs {
        return Internal;
      }
      jobs := jobs[t := Job(id, 0, received, NO_ID, None, false)];
      return Done;
    }

    /** Hand out the job that has been due longest among those the viewer may verify. */
    method ClaimVerification(now: int, viewer: Id, access: set<Id>, attempt: Id) returns (handed: Option<Id>)
      requires Valid() && World().clock <= now && attempt !in World().drawn && attempt != NO_ID
      modifies this
      ensures Valid() && trace == old(trace) + [OpGrant(now, viewer, access, attempt)]
      ensures handed.None? <==> forall t :: !Ready(old(View()), now, viewer, access, t)
      ensures handed.None? ==> View() == old(View())
      ensures handed.Some? ==>
                && Ready(old(View()), now, viewer, access, handed.value)
                && forall u | Ready(old(View()), now, viewer, access, u) :: Sooner(old(jobs), handed.value, u)
      ensures handed.Some? ==>
                && FirstDue(old(View()), now, viewer, access, handed.value)
                && View() == old(View()).(jobs := old(jobs)[handed.value := Attempted(old(jobs)[handed.value], now, attempt)])
    {
      ghost var db := View();
      assert Rows(db) by {
        JointAlways(trace);
      }
      handed := TakeJob(now, viewer, access, attempt);
      assert Grant(db, now, viewer, access, attempt).tables == View() by {
        GrantIs(db, now, viewer, access, attempt, handed);
      }
      DueIsReady(trace, now, viewer, access);
      Commit(OpGrant(now, viewer, access, attempt));
    }

    method TakeJob(now: int, viewer: Id, access: set<Id>, attempt: Id) returns (handed: Option<Id>)
      modifies this`jobs
      ensures handed.None? <==> forall t :: !Due(old(View()), now, viewer, access, t)
      ensures handed.None? ==> jobs == old(jobs)
      ensures handed.Some? ==>
                && FirstDue(old(View()), now, viewer, access, handed.value)
                && jobs == old(jobs)[handed.value := Attempted(old(jobs)[handed.value], now, attempt)]
                && var j, n := old(jobs)[handed.value], old(jobs)[handed.value].attempts + 1;
                   jobs[handed.value] == Job(j.message, n, now + 300 + Backoff(n), attempt, Some(now + 300), j.done)
    {
      var db := View();
      OneFirstDue(db, now, viewer, access);
      var due := set t | t in jobs && Due(db, now, viewer, access, t);
      if due == {} {
        handed := None;
        assert forall t :: Due(db, now, viewer, access, t) ==> t in due;
      } else {
        ghost var first :| FirstDue(db, now, viewer, access, first);
        assert first in due;
        var t :| t in due && forall u | u in due :: Sooner(db.jobs, t, u);
        forall u | u in db.jobs && Due(db, now, viewer, access, u) ensures Sooner(db.jobs, t, u) {
          assert u in due;
        }
        var n := jobs[t].attempts + 1;
        jobs := jobs[t := jobs[t].(attempts := n, attempt := attempt, lease := Some(now + VERIFICATION_LEASE),
                  nextAt := now + VERIFICATION_LEASE + Backoff(n))];
        handed := Some(t);
      }
    }

    /** Record a verdict: the job is settled first, then the row is written and the task moved; all or nothing. */
    method VerifyTask(now: int, visible: bool, r: Review) returns (reply: Reply)
      requires Valid() && World().clock <= now && r.id !in World().drawn && r.id != NO_ID
      modifies this
      ensures Valid() && trace == old(trace) + [OpVerify(now, visible, r)]
      ensures reply == Verify(old(View()), now, visible, r).reply
      ensures View() == Verify(old(View()), now, visible, r).tables
      ensures reply == Done && r.task in old(jobs) ==>
                && r.task in jobs && jobs[r.task].nextAt == now + Backoff(old(jobs)[r.task].attempts)
                && jobs[r.task].attempt == NO_ID && jobs[r.task].lease == None
                && (jobs[r.task].done <==> r.verdict != Inconclusive)
                && r.task in tasks && (tasks[r.task].status == Completed <==> r.verdict == Verified)
                && (tasks[r.task].status == Failed <==> r.verdict == Rejected)
      ensures reply != Done ==> View() == old(View())
    {
      reply := RecordVerdict(now, visible, r);
      Commit(OpVerify(now, visible, r));
    }

    method RecordVerdict(now: int, visible: bool, r: Review) returns (reply: Reply)
      modifies this`jobs, this`verifications, this`tasks
      ensures reply == Verify(old(View()), now, visible, r).reply
      ensures View() == Verify(old(View()), now, visible, r).tables
      ensures reply == Done && r.task in old(jobs) ==>
                && r.task in jobs && jobs[r.task].nextAt == now + Backoff(old(jobs)[r.task].attempts)
                && jobs[r.task].attempt == NO_ID && jobs[r.task].lease == None
                && (jobs[r.task].done <==> r.verdict != Inconclusive)
                && r.task in tasks && (tasks[r.task].status == Completed <==> r.verdict == Verified)
                && (tasks[r.task].status == Failed <==> r.verdict == Rejected)
      ensures reply != Done ==> View() == old(View())
    {
      var objection := Objection(View(), visible, r);
      if objection.Some? {
        return objection.value;
      }
      reply := FinishJob(now, r);
      if reply == Done {
        verifications := verifications + [Verification(r.id, r.task, r.verifier, r.target, r.verdict, now)];
        var status := tasks[r.task].status;
        match r.verdict {
          case Verified => status := Completed;
          case Rejected => status := Failed;
          case Inconclusive =>
        }
        if status != tasks[r.task].status {
          tasks := tasks[r.task := tasks[r.task].(status := status)];
        }
        assert tasks == old(tasks)[r.task := old(tasks)[r.task].(status := Judged(old(tasks)[r.task].status, r.verdict))];
      }
    }

    /** The attempt fence, and settling the job behind it. */
    method FinishJob(now: int, r: Review) returns (reply: Reply)
      modifies this`jobs
      ensures reply == if r.task !in old(jobs) then (if r.attempt == NO_ID then Done else Internal)
                       else if Fenced(old(jobs)[r.task], now, r.attempt) then Done else Conflict
      ensures jobs == if reply == Done && r.task in old(jobs)
                      then var j := old(jobs)[r.task];
                           old(jobs)[r.task := Job(j.message, j.attempts, now + Backoff(j.attempts), NO_ID, None, r.verdict != Inconclusive)]
                      else old(jobs)
    {
      if r.task !in jobs {
        return if r.attempt == NO_ID then Done else Internal;
      }
      var job := jobs[r.task];
      if r.attempt != NO_ID {
        if job.attempt != r.attempt || Over(job.lease, now) {
          return Conflict;
        }
      } else if job.attempt != NO_ID && !Over(job.lease, now) {
        return Conflict;
      }
      jobs := jobs[r.task := job.(done := r.verdict != Inconclusive, attempt := NO_ID, lease := None,
                     nextAt := now + Backoff(job.attempts))];
      return Done;
    }

    method RetryVerification(now: int, update: int, t: Id) returns (reply: Reply)
      requires Valid() && World().clock <= now
      modifies this
      ensures Valid() && trace == old(trace) + [OpRetry(now, update, t)]
      ensures reply == Done <==> update !in old(retries) && Spent(old(View()), now, t)
      ensures reply == Nothing <==> update in old(retries) && old(retries)[update] == t
      ensures View() == Retry(old(View()), now, update, t).tables
      ensures reply != Done ==> View() == old(View())
    {
      SpentIsExhausted(trace, now, t);
      if update in retries {
        reply := if retries[update] == t then Nothing else Conflict;
      } else if !Exhausted(View(), now, t) {
        reply := Conflict;
      } else {
        jobs := jobs[t := jobs[t].(attempts := 0, nextAt := now, attempt := NO_ID, lease := None)];
        retries := retries[update := t];
        if t in alerts {
          alerts := alerts[t := Alert(false, None, NO_ID)];
        }
        reply := Done;
      }
      Commit(OpRetry(now, update, t));
    }

    /** Lease the first alert that is due; the rows for spent jobs are inserted in the same transaction. */
    method ClaimAlert(now: int, token: Id) returns (handed: Option<Id>)
      requires Valid() && World().clock <= now && token !in World().drawn && token != NO_ID
      modifies this
      ensures Valid() && trace == old(trace) + [OpLeaseAlert(now, token)]
      ensures handed.None? ==> View() == old(View())
      ensures FirstUnreported(old(View()), now, handed)
      ensures handed.Some? ==> handed.value in alerts && alerts[handed.value] == Alert(false, Some(now + 120), token)
    {
      ghost var before := trace;
      handed := LeaseFirst(now, token);
      AlertHandedIs(before, now, token, handed);
    }

    method LeaseFirst(now: int, token: Id) returns (handed: Option<Id>)
      requires Valid() && World().clock <= now && token !in World().drawn && token != NO_ID
      modifies this
      ensures Valid() && trace == old(trace) + [OpLeaseAlert(now, token)]
      ensures handed.Some? ==> handed.value in alerts && alerts[handed.value] == Alert(false, Some(now + 120), token)
      ensures handed.None? ==> View() == old(View())
      ensures handed.None? ==> forall t :: !Alertable(old(View()), now, WithAlertRows(old(View()), now), t)
      ensures handed.Some? ==>
                var rows := WithAlertRows(old(View()), now);
                && FirstAlertable(old(View()), now, rows, handed.value)
                && View() == SendingAlert(old(View()), now, rows, handed.value, token).tables
    {
      ghost var db := View();
      handed := TakeAlert(now, token);
      LeaseAlertIs(db, now, token, handed);
      Commit(OpLeaseAlert(now, token));
    }

    method TakeAlert(now: int, token: Id) returns (handed: Option<Id>)
      modifies this`alerts
      ensures handed.Some? ==> handed.value in alerts && alerts[handed.value] == Alert(false, Some(now + 120), token)
      ensures handed.None? ==> alerts == old(alerts)
      ensures handed.None? ==> forall t :: !Alertable(old(View()), now, WithAlertRows(old(View()), now), t)
      ensures handed.Some? ==>
                var rows := WithAlertRows(old(View()), now);
                && FirstAlertable(old(View()), now, rows, handed.value)
                && View() == SendingAlert(old(View()), now, rows, handed.value, token).tables
    {
      var db := View();
      var rows := WithAlertRows(db, now);
      alerts := rows;
      handed := FirstAlert(db, now, rows);
      if handed.None? {
        NothingToRollBack(db, now);
      } else {
        var t := handed.value;
        alerts := alerts[t := alerts[t].(token := token, lease := Some(now + ALERT_LEASE))];
      }
    }

    method FirstAlert(db: Tables, now: int, rows: map<Id, Alert>) returns (handed: Option<Id>)
      ensures handed.None? <==> forall t :: !Alertable(db, now, rows, t)
      ensures handed.Some? ==> FirstAlertable(db, now, rows, handed.value)
    {
      OneFirstAlertable(db, now, rows);
      var due := set t | t in rows && Alertable(db, now, rows, t);
      assert forall t :: Alertable(db, now, rows, t) <==> t in due;
      if due == {} {
        return None;
      }
      ghost var first :| FirstAlertable(db, now, rows, first);
      assert first in due;
      var t :| t in due && forall u | u in due :: TextOrder.AtMost(t.text, u.text);
      return Some(t);
    }

    /** An acknowledgement inside a run, where only tokens that were handed out are acknowledged. */
    method AcknowledgeAlert(now: int, t: Id, token: Id)
      requires Valid() && World().clock <= now && token != NO_ID
      modifies this
      ensures Valid() && trace == old(trace) + [OpAckAlert(now, t, token)]
      ensures View() == AckAlert(old(View()), now, t, token).tables
    {
      MarkAlertSent(t, token);
      Commit(OpAckAlert(now, t, token));
    }

    method MarkAlertSent(t: Id, token: Id)
      modifies this`alerts
      ensures alerts == if t in old(alerts) && old(alerts)[t].token == token then old(alerts)[t := Alert(true, None, NO_ID)]
                        else old(alerts)
    {
      if t in alerts && alerts[t].token == token {
        alerts := alerts[t := Alert(true, None, NO_ID)];
      }
    }

    /** Opening the database again: the backfill finds nothing to add. */
    method OpenAgain(now: int)
      requires Valid() && World().clock <= now
      modifies this
      ensures Valid() && trace == old(trace) + [OpReopen(now)]
      ensures View() == old(View())
    {
      ghost var db := View();
      assert Rows(db) by {
        JointAlways(trace);
      }
      ReopenKeepsJobs(db);
      Backfill();
      BackfillIs(db, jobs);
      Commit(OpReopen(now));
    }

    /** Adds a fresh job for exactly the submitted tasks that have none; no old job is touched. */
    method Backfill()
      modifies this`jobs
      ensures forall t :: t in jobs <==> t in old(jobs) || Unqueued(old(View()), t)
      ensures forall t | t in old(jobs) :: t in jobs && jobs[t] == old(jobs)[t]
      ensures forall t | Unqueued(old(View()), t) :: t in jobs && jobs[t] == FirstJob(tasks[t])
    {
      var missing := map t | t in tasks && t !in jobs && tasks[t].status == Submitted && tasks[t].submitted.Some?
                       :: Job(tasks[t].submitted.value, 0, tasks[t].createdAt, NO_ID, None, false);
      jobs := jobs + missing;
    }
  }

  /** A submitted task that has no job. */
  predicate Unqueued(db: Tables, t: Id) {
    t in db.tasks && t !in db.jobs && db.tasks[t].status == Submitted && db.tasks[t].submitted.Some?
  }

  function FirstJob(task: Task): Job
    requires task.submitted.Some?
  {
    Job(task.submitted.value, 0, task.createdAt, NO_ID, None, false)
  }

  /** The jobs the backfill leaves are those of the reopened tables. */
  lemma BackfillIs(db: Tables, jobs: map<Id, Job>)
    requires forall t :: t in jobs <==> t in db.jobs || Unqueued(db, t)
    requires forall t | t in db.jobs :: t in jobs && jobs[t] == db.jobs[t]
    requires forall t | Unqueued(db, t) :: t in jobs && jobs[t] == FirstJob(db.tasks[t])
    ensures Reopen(db).tables == db.(jobs := jobs)
  {
    assert Reopen(db).tables.jobs == jobs;
  }
}
