/** What each transaction answers and writes, said of the columns alone and with the constants spelled out: when a
    request succeeds, what the row holds then, and who is handed what. */
module ProtocolAnswers {
  import opened Common
  import opened Protocol
  import opened ProtocolInvariant
  import Least
  import TextOrder

  // ----- the rows the queue picks -----

  lemma SoonerOrders(jobs: map<Id, Job>, s: set<Id>)
    requires s <= jobs.Keys
    ensures Least.Orders(s, (t, u) => Sooner(jobs, t, u))
  {
    forall x, y | x in s && y in s
      ensures Sooner(jobs, x, y) || Sooner(jobs, y, x)
      ensures Sooner(jobs, x, y) && Sooner(jobs, y, x) ==> x == y
    {
      TextOrder.Total(x.text, y.text);
    }
    forall x, y, z | x in s && y in s && z in s && Sooner(jobs, x, y) && Sooner(jobs, y, z)
      ensures Sooner(jobs, x, z)
    {
      if jobs[x].nextAt == jobs[y].nextAt == jobs[z].nextAt {
        TextOrder.Chain(x.text, y.text, z.text);
      }
    }
  }

  lemma TextOrders(s: set<Id>)
    ensures Least.Orders(s, (t: Id, u: Id) => TextOrder.AtMost(t.text, u.text))
  {
    forall x, y | x in s && y in s
      ensures TextOrder.AtMost(x.text, y.text) || TextOrder.AtMost(y.text, x.text)
      ensures TextOrder.AtMost(x.text, y.text) && TextOrder.AtMost(y.text, x.text) ==> x == y
    {
      TextOrder.Total(x.text, y.text);
    }
    forall x, y, z | x in s && y in s && z in s && TextOrder.AtMost(x.text, y.text) && TextOrder.AtMost(y.text, z.text)
      ensures TextOrder.AtMost(x.text, z.text)
    {
      TextOrder.Chain(x.text, y.text, z.text);
    }
  }

  /** Exactly one row is first in the queue when some job is due. */
  lemma OneFirstDue(db: Tables, now: int, viewer: Id, access: set<Id>)
    ensures (exists t :: FirstDue(db, now, viewer, access, t)) <==> exists t :: Due(db, now, viewer, access, t)
    ensures forall t, u | FirstDue(db, now, viewer, access, t) && FirstDue(db, now, viewer, access, u) :: t == u
  {
    var s := set t | t in db.jobs && Due(db, now, viewer, access, t);
    var leq := (t, u) => Sooner(db.jobs, t, u);
    SoonerOrders(db.jobs, s);
    forall t ensures Least.IsLeast(s, leq, t) <==> FirstDue(db, now, viewer, access, t) {
      if Least.IsLeast(s, leq, t) {
        forall u | u in db.jobs && Due(db, now, viewer, access, u) ensures Sooner(db.jobs, t, u) {
          assert u in s && leq(t, u);
        }
      }
      if FirstDue(db, now, viewer, access, t) {
        forall u | u in s ensures leq(t, u) {
          assert Sooner(db.jobs, t, u);
        }
      }
    }
    if t :| Due(db, now, viewer, access, t) {
      assert t in s;
      Least.Exists(s, leq);
    }
    forall t, u | FirstDue(db, now, viewer, access, t) && FirstDue(db, now, viewer, access, u) ensures t == u {
      Least.Unique(s, leq, t, u);
    }
  }

  lemma OneFirstAlertable(db: Tables, now: int, rows: map<Id, Alert>)
    ensures (exists t :: FirstAlertable(db, now, rows, t)) <==> exists t :: Alertable(db, now, rows, t)
    ensures forall t, u | FirstAlertable(db, now, rows, t) && FirstAlertable(db, now, rows, u) :: t == u
  {
    var s := set t | t in rows && Alertable(db, now, rows, t);
    var leq := (t: Id, u: Id) => TextOrder.AtMost(t.text, u.text);
    TextOrders(s);
    forall t ensures Least.IsLeast(s, leq, t) <==> FirstAlertable(db, now, rows, t) {
      if Least.IsLeast(s, leq, t) {
        forall u | u in rows && Alertable(db, now, rows, u) ensures TextOrder.AtMost(t.text, u.text) {
          assert u in s && leq(t, u);
        }
      }
    }
    if t :| Alertable(db, now, rows, t) {
      assert t in s;
      Least.Exists(s, leq);
    }
    forall t, u | FirstAlertable(db, now, rows, t) && FirstAlertable(db, now, rows, u) ensures t == u {
      Least.Unique(s, leq, t, u);
    }
  }

  /** When no alert is due, the rows just inserted were none: giving up without a commit loses nothing. */
  lemma NothingToRollBack(db: Tables, now: int)
    requires forall t :: !Alertable(db, now, WithAlertRows(db, now), t)
    ensures WithAlertRows(db, now) == db.alerts
  {
    forall t | t in db.jobs && Exhausted(db, now, t) ensures t in db.alerts {
      assert t !in db.alerts ==> Alertable(db, now, WithAlertRows(db, now), t);
    }
  }

  /** What the grant comes to once the first due row is known. */
  lemma GrantIs(db: Tables, now: int, viewer: Id, access: set<Id>, attempt: Id, handed: Option<Id>)
    requires Rows(db)
    requires handed.Some? ==> FirstDue(db, now, viewer, access, handed.value)
    requires handed.None? ==> forall t :: !Due(db, now, viewer, access, t)
    ensures Grant(db, now, viewer, access, attempt).tables ==
              if handed.Some? then db.(jobs := db.jobs[handed.value := Attempted(db.jobs[handed.value], now, attempt)]) else db
  {
    OneFirstDue(db, now, viewer, access);
    if handed.Some? {
      assert RowOk(db, handed.value);
    }
  }

  /** What leasing an alert comes to once the first due row is known. */
  lemma LeaseAlertIs(db: Tables, now: int, token: Id, handed: Option<Id>)
    requires handed.Some? ==> FirstAlertable(db, now, WithAlertRows(db, now), handed.value)
    requires handed.None? ==> forall t :: !Alertable(db, now, WithAlertRows(db, now), t)
    ensures LeaseAlert(db, now, token).tables ==
              if handed.Some? then SendingAlert(db, now, WithAlertRows(db, now), handed.value, token).tables else db
  {
    OneFirstAlertable(db, now, WithAlertRows(db, now));
  }

  /** What creating a task comes to once the outcome of the insert is known. */
  lemma CreateIs(db: Tables, now: int, id: Id, createdBy: Id, key: Option<string>, task: Id)
    requires id !in db.tasks
    requires if task == id then forall t :: !KeyTaken(db, createdBy, key, t) else KeyTaken(db, createdBy, key, task)
    ensures Create(db, now, id, createdBy, key).tables ==
              if task == id then db.(tasks := db.tasks[id := Task(Open, None, None, None, None, None, createdBy, key, now)]) else db
  {
  }

  // ----- claims -----

  /** A claim is taken back exactly when its lease is over at that second; nothing else is touched. */
  lemma RequeueExactly(ops: seq<Op>, now: int, t: Id)
    requires Legal(ops) && t in Run(ops).db.tasks
    ensures var k := Run(ops).db.tasks[t];
            var k' := Requeue(Run(ops).db, now).tables.tasks[t];
            if k.status == Claimed && k.lease.Some? && k.lease.value <= now
            then && k'.status == Open && k'.owner == None && k'.claim == None && k'.lease == None && k'.claimedAt == None
                 && k'.submitted == None && k'.createdBy == k.createdBy && k'.key == k.key && k'.createdAt == k.createdAt
            else k' == k
    ensures var db := Run(ops).db;
            Requeue(db, now).tables == db.(tasks := Requeue(db, now).tables.tasks)
            && Requeue(db, now).tables.tasks.Keys == db.tasks.Keys
  {
    JointAlways(ops);
    assert RowOk(Run(ops).db, t);
  }

  /** An open task goes to whoever asks, for five minutes; a claimed one does from the second its lease is over, once
      requeued; anything else is refused and changes nothing. */
  lemma TakenExactly(ops: seq<Op>, freed: int, now: int, t: Id, agent: Id, claim: Id)
    requires Legal(ops)
    ensures var db, tx := Run(ops).db, Take(Requeue(Run(ops).db, freed).tables, now, t, agent, claim);
            && (tx.reply == Done <==>
                  t in db.tasks && (db.tasks[t].status == Open
                                    || (db.tasks[t].status == Claimed && db.tasks[t].lease.Some? && db.tasks[t].lease.value <= freed)))
            && (tx.reply != Done ==> tx.reply == Conflict && tx.tables == Requeue(db, freed).tables)
            && (tx.reply == Done ==>
                  && t in tx.tables.tasks
                  && tx.tables == Requeue(db, freed).tables.(tasks := Requeue(db, freed).tables.tasks[t := tx.tables.tasks[t]])
                  && tx.tables.tasks[t] == Task(Claimed, Some(agent), Some(claim), Some(now), Some(now + 300), None,
                                                db.tasks[t].createdBy, db.tasks[t].key, db.tasks[t].createdAt))
  {
    JointAlways(ops);
    if t in Run(ops).db.tasks {
      RequeueExactly(ops, freed, t);
      assert RowOk(Run(ops).db, t);
    }
  }

  /** A heartbeat succeeds exactly for the owner naming its claim before the lease is over, and moves only the lease. */
  lemma ExtendedExactly(db: Tables, now: int, t: Id, agent: Id, claim: Id)
    ensures var tx := Extend(db, now, t, agent, claim);
            if t in db.tasks && db.tasks[t].status == Claimed && db.tasks[t].owner == Some(agent) && db.tasks[t].claim == Some(claim)
               && db.tasks[t].lease.Some? && now < db.tasks[t].lease.value
            then tx.reply == Done && tx.tables == db.(tasks := db.tasks[t := db.tasks[t].(lease := Some(now + 300))])
            else tx.reply == Conflict && tx.tables == db
  {
  }

  /** A task is created unless its creator has one with the key, and then that one is the answer. */
  lemma CreatedExactly(db: Tables, now: int, id: Id, createdBy: Id, key: Option<string>, t: Id)
    requires id !in db.tasks
    ensures var tx := Create(db, now, id, createdBy, key);
            && (tx.reply == Done <==> key == None || forall u | u in db.tasks :: db.tasks[u].createdBy != createdBy || db.tasks[u].key != key)
            && (tx.reply == Done ==> tx.tables == db.(tasks := db.tasks[id := Task(Open, None, None, None, None, None, createdBy, key, now)]))
            && (tx.reply != Done ==> tx.tables == db)
            && (tx.reply == Existing(t) ==> t in db.tasks && db.tasks[t].createdBy == createdBy && db.tasks[t].key == key)
  {
    assert forall u | u in db.tasks && key.Some? && db.tasks[u].createdBy == createdBy && db.tasks[u].key == key :: KeyTaken(db, createdBy, key, u);
  }

  // ----- messages -----

  /** The answers to a message: a known id is a repeat for its sender and taken for anybody else; a RESULT for a task
      needs a claim id, and is accepted exactly from the owner, for the creator, on that live claim; any other message
      is just stored. */
  lemma PostedExactly(ops: seq<Op>, received: int, now: int, id: Id, m: Message)
    requires Legal(ops)
    ensures var db, reply := Run(ops).db, Post(Run(ops).db, received, now, id, m).reply;
            var report := m.kind == Result && m.task.Some?;
            && (id in db.messages ==> reply == if db.messages[id].sender == m.sender then Nothing else Conflict)
            && (id !in db.messages && !report ==> reply == Done)
            && (id !in db.messages && report && (m.claim == None || m.claim == Some(NO_ID)) ==> reply == Invalid)
            && (id !in db.messages && report && m.claim != None && m.claim != Some(NO_ID) ==>
                  var t := m.task.value;
                  reply == if t in db.tasks && db.tasks[t].status == Claimed && db.tasks[t].owner == Some(m.sender)
                              && db.tasks[t].claim == m.claim && db.tasks[t].createdBy == m.recipient
                              && db.tasks[t].lease.Some? && now < db.tasks[t].lease.value
                           then Done else Conflict)
  {
    JointAlways(ops);
    if Acceptable(Run(ops).db, now, m) {
      NoJobCollision(Run(ops).db, now, m);
    }
  }

  /** What a message leaves behind when it goes in. */
  lemma PostedLeaves(db: Tables, received: int, now: int, id: Id, m: Message)
    requires Post(db, received, now, id, m).reply == Done
    ensures var db' := Post(db, received, now, id, m).tables;
            && db'.messages == db.messages[id := Message(m.kind, m.sender, m.recipient, m.task, m.claim, db.nextSeq)]
            && db'.nextSeq == db.nextSeq + 1
            && db'.verifications == db.verifications && db'.alerts == db.alerts && db'.retries == db.retries
            && (!(m.kind == Result && m.task.Some?) ==> db'.tasks == db.tasks && db'.jobs == db.jobs)
            && (m.kind == Result && m.task.Some? ==>
                  var t := m.task.value;
                  && t in db.tasks
                  && db'.tasks == db.tasks[t := db.tasks[t].(status := Submitted, submitted := Some(id), lease := None)]
                  && db'.jobs == db.jobs[t := Job(id, 0, received, NO_ID, None, false)])
  {
    if m.kind == Result && m.task.Some? {
      ReportLeaves(db, received, now, id, m);
    }
  }

  lemma ReportLeaves(db: Tables, received: int, now: int, id: Id, m: Message)
    requires Post(db, received, now, id, m).reply == Done && m.kind == Result && m.task.Some?
    ensures m.task.value in db.tasks
    ensures Post(db, received, now, id, m).tables == Submitting(Stored(db, id, m), received, id, m.task.value)
  {
  }

  // ----- the verification queue -----

  /** Ready for its creator: what the queue's query asks of task and job. */
  ghost predicate Ready(db: Tables, now: int, viewer: Id, access: set<Id>, t: Id) {
    && t in db.tasks && t in db.jobs && t in access
    && db.tasks[t].status == Submitted
    && db.tasks[t].createdBy == viewer && db.tasks[t].owner != Some(viewer)
    && db.jobs[t].attempts < 5 && db.jobs[t].nextAt <= now
    && (db.jobs[t].lease.None? || db.jobs[t].lease.value <= now)
  }

  /** A job is handed only to the creator of a submitted task somebody else worked on, and only a ready one. */
  lemma OnlyTheCreatorIsHanded(ops: seq<Op>, now: int, viewer: Id, access: set<Id>, attempt: Id, t: Id)
    requires Legal(ops) && Grant(Run(ops).db, now, viewer, access, attempt).reply == Handed(t)
    ensures Ready(Run(ops).db, now, viewer, access, t)
    ensures forall u | Ready(Run(ops).db, now, viewer, access, u) ::
              var j, k := Run(ops).db.jobs[t], Run(ops).db.jobs[u];
              j.nextAt < k.nextAt || (j.nextAt == k.nextAt && TextOrder.AtMost(t.text, u.text))
  {
    var db := Run(ops).db;
    forall u | Ready(db, now, viewer, access, u)
      ensures var j, k := db.jobs[t], db.jobs[u];
              j.nextAt < k.nextAt || (j.nextAt == k.nextAt && TextOrder.AtMost(t.text, u.text))
    {
      ReadyIsDue(ops, now, viewer, access, u);
      assert Sooner(db.jobs, t, u);
    }
  }

  lemma ReadyIsDue(ops: seq<Op>, now: int, viewer: Id, access: set<Id>, t: Id)
    requires Legal(ops) && Ready(Run(ops).db, now, viewer, access, t)
    ensures Due(Run(ops).db, now, viewer, access, t)
  {
    JointAlways(ops);
    assert RowOk(Run(ops).db, t);
  }

  lemma DueIsReady(ops: seq<Op>, now: int, viewer: Id, access: set<Id>)
    requires Legal(ops)
    ensures forall t :: Due(Run(ops).db, now, viewer, access, t) <==> Ready(Run(ops).db, now, viewer, access, t)
  {
    forall t | Ready(Run(ops).db, now, viewer, access, t) ensures Due(Run(ops).db, now, viewer, access, t) {
      ReadyIsDue(ops, now, viewer, access, t);
    }
  }

  /** While some job is ready for the viewer, its poll hands out the first of them; otherwise nothing. */
  lemma TheReadyAreHanded(ops: seq<Op>, now: int, viewer: Id, access: set<Id>, attempt: Id)
    requires Legal(ops)
    ensures if exists t :: Ready(Run(ops).db, now, viewer, access, t)
            then Grant(Run(ops).db, now, viewer, access, attempt).reply.Handed?
            else Grant(Run(ops).db, now, viewer, access, attempt) == Refuse(Run(ops).db, Nothing)
  {
    var db := Run(ops).db;
    OneFirstDue(db, now, viewer, access);
    if t :| Ready(db, now, viewer, access, t) {
      ReadyIsDue(ops, now, viewer, access, t);
      MessageIsThere(ops);
    } else if t :| Due(db, now, viewer, access, t) {
      assert Ready(db, now, viewer, access, t);
    }
  }

  lemma MessageIsThere(ops: seq<Op>)
    requires Legal(ops)
    ensures forall t | t in Run(ops).db.jobs && t in Run(ops).db.tasks && Run(ops).db.tasks[t].status == Submitted ::
              Run(ops).db.jobs[t].message in Run(ops).db.messages
  {
    JointAlways(ops);
    forall t | t in Run(ops).db.jobs && t in Run(ops).db.tasks && Run(ops).db.tasks[t].status == Submitted
      ensures Run(ops).db.jobs[t].message in Run(ops).db.messages
    {
      assert RowOk(Run(ops).db, t);
    }
  }

  /** The stamps a grant writes: five minutes for the attempt, and its delay after that before the next. */
  lemma GrantedLeaves(db: Tables, now: int, viewer: Id, access: set<Id>, attempt: Id, t: Id)
    requires Grant(db, now, viewer, access, attempt).reply == Handed(t)
    ensures t in db.jobs
    ensures var j, n := db.jobs[t], db.jobs[t].attempts + 1;
            var delay := if n <= 1 then 60 else if n == 2 then 120 else if n == 3 then 240 else if n == 4 then 480 else 960;
            Grant(db, now, viewer, access, attempt).tables ==
              db.(jobs := db.jobs[t := Job(j.message, n, now + 300 + delay, attempt, Some(now + 300), j.done)])
  {
    BackoffIs();
  }

  // ----- verdicts -----

  /** A verdict is recorded exactly when the task is seen and SUBMITTED, the reviewer is its creator and did not send the
      named RESULT, which is the accepted one, and either the attempt named is the current one before its lease is over,
      or none is named and no attempt is running. */
  lemma VerdictExactly(ops: seq<Op>, now: int, visible: bool, r: Review)
    requires Legal(ops)
    ensures var db := Run(ops).db;
            Verify(db, now, visible, r).reply == Done <==>
              && visible && r.task in db.tasks && db.tasks[r.task].status == Submitted
              && db.tasks[r.task].createdBy == r.verifier && db.tasks[r.task].owner != Some(r.verifier)
              && db.tasks[r.task].submitted == Some(r.target)
              && r.task in db.jobs
              && var j := db.jobs[r.task];
                 var running := j.attempt != NO_ID && j.lease.Some? && now < j.lease.value;
                 if r.attempt == NO_ID then !running else running && j.attempt == r.attempt
  {
    var db := Run(ops).db;
    JointAlways(ops);
    if r.task in db.tasks {
      assert RowOk(db, r.task);
    }
    if Objection(db, visible, r).None? {
      ReviewerIsTheOtherParty(db, now, visible, r);
    }
    UnobjectedExactly(db, visible, r);
  }

  /** Nothing speaks against a review exactly when it is the creator's, on the accepted RESULT of somebody else. */
  lemma UnobjectedExactly(db: Tables, visible: bool, r: Review)
    requires r.task in db.tasks ==> RowOk(db, r.task)
    requires Objection(db, visible, r).None? ==> db.tasks[r.task].owner != Some(r.verifier)
    ensures Objection(db, visible, r).None? <==>
              && visible && r.task in db.tasks && db.tasks[r.task].status == Submitted
              && db.tasks[r.task].createdBy == r.verifier && db.tasks[r.task].owner != Some(r.verifier)
              && db.tasks[r.task].submitted == Some(r.target)
  {
  }

  /** What a verdict leaves: its row, the task's status, and the job done or due again after its delay. */
  lemma VerdictLeaves(db: Tables, now: int, visible: bool, r: Review)
    requires Verify(db, now, visible, r).reply == Done && r.task in db.jobs
    ensures r.task in db.tasks
    ensures var db', j, k := Verify(db, now, visible, r).tables, db.jobs[r.task], db.tasks[r.task];
            var n := j.attempts;
            var delay := if n <= 1 then 60 else if n == 2 then 120 else if n == 3 then 240 else if n == 4 then 480 else 960;
            && db'.jobs == db.jobs[r.task := Job(j.message, n, now + delay, NO_ID, None, r.verdict != Inconclusive)]
            && db'.tasks == db.tasks[r.task := if r.verdict == Verified then k.(status := Completed)
                                               else if r.verdict == Rejected then k.(status := Failed) else k]
            && db'.verifications == db.verifications + [Verification(r.id, r.task, r.verifier, r.target, r.verdict, now)]
            && db'.messages == db.messages && db'.nextSeq == db.nextSeq && db'.alerts == db.alerts && db'.retries == db.retries
  {
    BackoffIs();
  }

  /** The answers to a verdict that is not recorded, in the order of the checks. */
  lemma VerdictRefused(db: Tables, now: int, visible: bool, r: Review)
    requires Verify(db, now, visible, r).reply != Done
    ensures var reply := Verify(db, now, visible, r).reply;
            && Verify(db, now, visible, r).tables == db
            && (!visible || r.task !in db.tasks <==> reply == NotFound)
            && (reply == Denied ==> db.tasks[r.task].createdBy != r.verifier)
            && (reply == Invalid ==>
                  || r.target !in db.messages || db.messages[r.target].kind != Result || db.messages[r.target].task != Some(r.task)
                  || db.messages[r.target].sender == r.verifier)
            && (visible && r.task in db.tasks && db.tasks[r.task].status != Submitted ==> reply == Conflict)
            && (visible && r.task in db.tasks && db.tasks[r.task].status == Submitted && r.target !in db.messages ==> reply == Invalid)
            && (visible && r.task in db.tasks && db.tasks[r.task].status == Submitted && db.tasks[r.task].submitted == Some(r.target)
                && r.target in db.messages && db.messages[r.target].kind == Result && db.messages[r.target].task == Some(r.task)
                && db.messages[r.target].sender != r.verifier ==>
                  reply == if db.tasks[r.task].createdBy != r.verifier then Denied
                           else if r.task !in db.jobs then Internal else Conflict)
  {
  }

  /** A task without a job, as older databases have them, takes a verdict that names no attempt; one that does is an error. */
  lemma VerdictWithoutJob(db: Tables, now: int, r: Review)
    requires r.task in db.tasks && r.task !in db.jobs && db.tasks[r.task].status == Submitted
    requires db.tasks[r.task].createdBy == r.verifier && db.tasks[r.task].submitted == Some(r.target)
    requires r.target in db.messages && db.messages[r.target].kind == Result && db.messages[r.target].task == Some(r.task)
    requires db.messages[r.target].sender != r.verifier
    ensures Verify(db, now, true, r).reply == if r.attempt == NO_ID then Done else Internal
    ensures Verify(db, now, true, r).tables.jobs == db.jobs
  {
  }

  /** Opening a database gives each submitted task without a job a first one, due since the task was created; jobs there are
      stay as they are. */
  lemma ReopenedExactly(db: Tables, t: Id)
    ensures var jobs := Reopen(db).tables.jobs;
            && Reopen(db).tables == db.(jobs := jobs)
            && (t in db.jobs ==> t in jobs && jobs[t] == db.jobs[t])
            && (t !in db.jobs ==>
                  if t in db.tasks && db.tasks[t].status == Submitted && db.tasks[t].submitted.Some?
                  then t in jobs && jobs[t] == Job(db.tasks[t].submitted.value, 0, db.tasks[t].createdAt, NO_ID, None, false)
                  else t !in jobs)
  {
  }

  /** A target of the creator's own task that is not its accepted RESULT is refused. */
  lemma OnlyTheAccepted(db: Tables, now: int, visible: bool, r: Review)
    requires r.task in db.tasks && db.tasks[r.task].submitted != Some(r.target)
    ensures Verify(db, now, visible, r).reply != Done
  {
  }

  // ----- the operator's side -----

  /** Out of attempts: all five are used and none of them is running. */
  ghost predicate Spent(db: Tables, now: int, t: Id) {
    && t in db.tasks && t in db.jobs && db.tasks[t].status == Submitted
    && db.jobs[t].attempts >= 5 && (db.jobs[t].lease.None? || db.jobs[t].lease.value <= now)
  }

  lemma SpentIsExhausted(ops: seq<Op>, now: int, t: Id)
    requires Legal(ops)
    ensures Spent(Run(ops).db, now, t) <==> Exhausted(Run(ops).db, now, t)
  {
    JointAlways(ops);
    if t in Run(ops).db.tasks {
      assert RowOk(Run(ops).db, t);
    }
  }

  /** An operator's retry succeeds exactly for an unused update on a spent job, which starts a new round at once with its
      alert row, if there is one, as new. */
  lemma RetriedExactly(ops: seq<Op>, now: int, update: int, t: Id)
    requires Legal(ops)
    ensures var db, tx := Run(ops).db, Retry(Run(ops).db, now, update, t);
            && (tx.reply == Done <==> update !in db.retries && Spent(db, now, t))
            && (tx.reply == Nothing <==> update in db.retries && db.retries[update] == t)
            && (tx.reply !in {Done, Nothing} ==> tx.reply == Conflict)
            && (tx.reply != Done ==> tx.tables == db)
            && (tx.reply == Done ==>
                  && t in db.jobs
                  && tx.tables == db.(jobs := db.jobs[t := Job(db.jobs[t].message, 0, now, NO_ID, None, db.jobs[t].done)],
                                      retries := db.retries[update := t],
                                      alerts := if t in db.alerts then db.alerts[t := Alert(false, None, NO_ID)] else db.alerts))
  {
    SpentIsExhausted(ops, now, t);
  }

  /** Waiting for an alert: spent, not yet reported as sent in this round, and no lease on the sending is running. */
  ghost predicate Unreported(db: Tables, now: int, t: Id) {
    && Spent(db, now, t)
    && (t in db.alerts ==> !db.alerts[t].sent && (db.alerts[t].lease.None? || db.alerts[t].lease.value <= now))
  }

  lemma UnreportedIsAlertable(ops: seq<Op>, now: int, t: Id)
    requires Legal(ops)
    ensures Unreported(Run(ops).db, now, t) <==> Alertable(Run(ops).db, now, WithAlertRows(Run(ops).db, now), t)
  {
    SpentIsExhausted(ops, now, t);
  }

  lemma AlertableIsUnreported(ops: seq<Op>, now: int)
    requires Legal(ops)
    ensures forall t :: Alertable(Run(ops).db, now, WithAlertRows(Run(ops).db, now), t) <==> Unreported(Run(ops).db, now, t)
  {
    forall t ensures Alertable(Run(ops).db, now, WithAlertRows(Run(ops).db, now), t) <==> Unreported(Run(ops).db, now, t) {
      UnreportedIsAlertable(ops, now, t);
    }
  }

  /** The first job waiting for an alert, or none when none waits. */
  ghost predicate FirstUnreported(db: Tables, now: int, handed: Option<Id>) {
    match handed
    case None => forall t :: !Unreported(db, now, t)
    case Some(t) => Unreported(db, now, t) && forall u | Unreported(db, now, u) :: TextOrder.AtMost(t.text, u.text)
  }

  /** What it means that this alert, or none, was picked. */
  lemma AlertHandedIs(ops: seq<Op>, now: int, token: Id, handed: Option<Id>)
    requires Legal(ops)
    requires var db, rows := Run(ops).db, WithAlertRows(Run(ops).db, now);
             && (handed.None? ==> forall t :: !Alertable(db, now, rows, t))
             && (handed.Some? ==> FirstAlertable(db, now, rows, handed.value))
    ensures FirstUnreported(Run(ops).db, now, handed)
  {
    AlertableIsUnreported(ops, now);
  }

  /** While some job waits for an alert, the first of them by its id is handed out for two minutes under the new token,
      again when such a lease has run out; otherwise nothing happens. */
  lemma AlertedExactly(ops: seq<Op>, now: int, token: Id)
    requires Legal(ops)
    ensures var db, tx := Run(ops).db, LeaseAlert(Run(ops).db, now, token);
            if exists t :: Unreported(db, now, t)
            then && tx.reply.Handed?
                 && var t := tx.reply.task;
                    && Unreported(db, now, t)
                    && (forall u | Unreported(db, now, u) :: TextOrder.AtMost(t.text, u.text))
                    && t in tx.tables.alerts && tx.tables.alerts[t] == Alert(false, Some(now + 120), token)
                    && tx.tables == db.(alerts := tx.tables.alerts)
                    && (forall u | u in db.alerts && u != t :: u in tx.tables.alerts && tx.tables.alerts[u] == db.alerts[u])
                    && (forall u | u in tx.tables.alerts && u !in db.alerts && u != t ::
                          Spent(db, now, u) && tx.tables.alerts[u] == Alert(false, None, NO_ID))
            else tx == Refuse(db, Nothing)
  {
    var db := Run(ops).db;
    var rows := WithAlertRows(db, now);
    forall t ensures Unreported(db, now, t) <==> Alertable(db, now, rows, t)
             ensures Spent(db, now, t) <==> Exhausted(db, now, t) {
      UnreportedIsAlertable(ops, now, t);
      SpentIsExhausted(ops, now, t);
    }
    OneFirstAlertable(db, now, rows);
    if t :| Unreported(db, now, t) {
      assert Alertable(db, now, rows, t);
      AlertChosenIs(db, now, token);
    }
  }

  lemma AlertChosenIs(db: Tables, now: int, token: Id)
    requires exists t :: FirstAlertable(db, now, WithAlertRows(db, now), t)
    ensures LeaseAlert(db, now, token).reply.Handed?
    ensures var t := LeaseAlert(db, now, token).reply.task;
            FirstAlertable(db, now, WithAlertRows(db, now), t)
            && LeaseAlert(db, now, token) == SendingAlert(db, now, WithAlertRows(db, now), t, token)
  {
  }
}
