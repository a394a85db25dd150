/** What a reachable state says about results and verdicts, and what can still become of a task. */
module Results {
  import opened Common
  import opened Protocol
  import opened ProtocolInvariant

  // ----- results -----

  /** At most one RESULT is ever stored for a task, and it is the accepted one. */
  lemma OneResultPerTask(ops: seq<Op>, m: Id, n: Id)
    requires Legal(ops) && m in Run(ops).db.messages && n in Run(ops).db.messages
    requires Run(ops).db.messages[m].kind == Result && Run(ops).db.messages[n].kind == Result
    requires Run(ops).db.messages[m].task.Some? && Run(ops).db.messages[m].task == Run(ops).db.messages[n].task
    ensures m == n
    ensures var t := Run(ops).db.messages[m].task.value;
            && t in Run(ops).db.tasks && t in Run(ops).db.jobs
            && Run(ops).db.tasks[t].submitted == Some(m) && Run(ops).db.jobs[t].message == m
            && Run(ops).db.tasks[t].claim == Run(ops).db.messages[m].claim
  {
    JointAlways(ops);
    assert MessageOk(Run(ops).db, m) && MessageOk(Run(ops).db, n);
    assert RowOk(Run(ops).db, Run(ops).db.messages[m].task.value);
  }

  /** A post either goes through as a whole or leaves every table alone; the enqueue cannot fail on its key; and a
      message id that is already stored has no effect, whoever sends it again. */
  lemma PostIsAtomic(ops: seq<Op>, received: int, now: int, id: Id, m: Message)
    requires Legal(ops)
    ensures var db, tx := Run(ops).db, Post(Run(ops).db, received, now, id, m);
            && tx.reply in {Done, Nothing, Conflict, Invalid}
            && (tx.reply != Done ==> tx.tables == db)
            && (id in db.messages ==> tx.tables == db && tx.note == None)
            && (tx.reply == Done ==> tx.tables.messages == db.messages[id := m.(number := db.nextSeq)])
            && (tx.reply == Done && m.kind == Result && m.task.Some? ==>
                  && m.task.value in db.tasks && db.tasks[m.task.value].status == Claimed
                  && m.task.value in tx.tables.tasks && tx.tables.tasks[m.task.value].status == Submitted
                  && tx.tables.tasks[m.task.value].submitted == Some(id)
                  && tx.tables.jobs == db.jobs[m.task.value := Job(id, 0, received, NO_ID, None, false)])
  {
    var db := Run(ops).db;
    assert Acceptable(db, now, m) ==> m.task.value !in db.jobs by {
      JointAlways(ops);
      if Acceptable(db, now, m) {
        NoJobCollision(db, now, m);
      }
    }
    PostReplies(db, received, now, id, m);
    if m.kind == Result && m.task.Some? {
      PostSubmits(db, received, now, id, m);
    }
  }

  lemma PostReplies(db: Tables, received: int, now: int, id: Id, m: Message)
    requires Acceptable(db, now, m) ==> m.task.value !in db.jobs
    ensures var tx := Post(db, received, now, id, m);
            && tx.reply in {Done, Nothing, Conflict, Invalid}
            && (tx.reply != Done ==> tx.tables == db)
            && (id in db.messages ==> tx.tables == db && tx.note == None)
            && (tx.reply == Done ==> tx.tables.messages == db.messages[id := m.(number := db.nextSeq)])
  {
  }

  lemma PostSubmits(db: Tables, received: int, now: int, id: Id, m: Message)
    requires m.kind == Result && m.task.Some?
    ensures var tx := Post(db, received, now, id, m);
            tx.reply == Done ==>
              && m.task.value in db.tasks && db.tasks[m.task.value].status == Claimed
              && m.task.value in tx.tables.tasks && tx.tables.tasks[m.task.value].status == Submitted
              && tx.tables.tasks[m.task.value].submitted == Some(id)
              && tx.tables.jobs == db.jobs[m.task.value := Job(id, 0, received, NO_ID, None, false)]
  {
  }

  /** The queue never hands out a job whose message is missing. */
  lemma GrantNeverBreaks(ops: seq<Op>, now: int, viewer: Id, access: set<Id>, attempt: Id)
    requires Legal(ops)
    ensures Grant(Run(ops).db, now, viewer, access, attempt).reply != Internal
  {
    var db := Run(ops).db;
    JointAlways(ops);
    forall t | t in db.jobs && t in db.tasks && db.tasks[t].status == Submitted ensures db.jobs[t].message in db.messages {
      assert RowOk(db, t);
    }
  }

  /** A verdict always finds its job; the only internal failure left is a review naming a message that belongs to
      no task. */
  lemma ReviewBreaksExactly(ops: seq<Op>, now: int, visible: bool, r: Review)
    requires Legal(ops)
    ensures Verify(Run(ops).db, now, visible, r).reply == Internal <==>
              && visible && r.task in Run(ops).db.tasks && Run(ops).db.tasks[r.task].status == Submitted
              && r.target in Run(ops).db.messages && Run(ops).db.messages[r.target].task.None?
  {
    JointAlways(ops);
    if Objection(Run(ops).db, visible, r).None? {
      ReviewerIsTheOtherParty(Run(ops).db, now, visible, r);
    }
  }

  /** It does happen, from every reachable state with a submitted task: anybody's note without a task is enough. */
  lemma ReviewBreaks(ops: seq<Op>, t: Id, note: Id, m: Message, now: int, r: Review) returns (more: seq<Op>)
    requires Legal(ops) && t in Run(ops).db.tasks && Run(ops).db.tasks[t].status == Submitted
    requires note !in Run(ops).db.messages && m.task.None?
    requires r.task == t && r.target == note
    ensures more == ops + [OpPost(Run(ops).clock, 0, note, m)] && Legal(more)
    ensures Verify(Run(more).db, now, true, r).reply == Internal
  {
    var db, op := Run(ops).db, OpPost(Run(ops).clock, 0, note, m);
    NoteBreaks(db, op, now, r);
    LegalSnoc(ops, op);
    more := ops + [op];
  }

  lemma NoteBreaks(db: Tables, op: Op, now: int, r: Review)
    requires op.OpPost? && op.messageId !in db.messages && op.message.task.None?
    requires r.task in db.tasks && db.tasks[r.task].status == Submitted && r.target == op.messageId
    ensures Verify(Apply(db, op).tables, now, true, r).reply == Internal
  {
  }

  /** And such states are reachable: b claims a's task and reports on it. */
  lemma Submits(a: Id, b: Id, t: Id, claim: Id, result: Id) returns (ops: seq<Op>)
    requires t != claim && t != NO_ID && claim != NO_ID
    ensures Legal(ops) && t in Run(ops).db.tasks && Run(ops).db.tasks[t].status == Submitted
    ensures Run(ops).db.messages.Keys == {result}
  {
    ops := Creates(a, t);
    ops := Claims(ops, b, t, claim);
    ops := Reports(ops, b, t, claim, result);
  }

  lemma Creates(a: Id, t: Id) returns (ops: seq<Op>)
    requires t != NO_ID
    ensures Legal(ops) && Run(ops).drawn == {t} && Run(ops).db.tasks.Keys == {t} && Run(ops).db.tasks[t].status == Open
    ensures Run(ops).db.messages == map[] && Run(ops).db.jobs == map[]
  {
    var create := OpCreate(0, t, a, None);
    ops := [];
    LegalSnoc(ops, create);
    ops := ops + [create];
  }

  lemma Reports(ops: seq<Op>, b: Id, t: Id, claim: Id, result: Id) returns (more: seq<Op>)
    requires Legal(ops) && Holds(Run(ops).db, Run(ops).clock, t, b, claim) && claim != NO_ID
    requires t !in Run(ops).db.jobs && result !in Run(ops).db.messages
    ensures Legal(more) && t in Run(more).db.tasks && Run(more).db.tasks[t].status == Submitted
    ensures Run(more).db.messages.Keys == Run(ops).db.messages.Keys + {result}
  {
    var now := Run(ops).clock;
    var report := Message(Result, b, Run(ops).db.tasks[t].createdBy, Some(t), Some(claim), 0);
    ReportGoesIn(Run(ops).db, 0, now, result, report);
    LegalSnoc(ops, OpPost(now, 0, result, report));
    more := ops + [OpPost(now, 0, result, report)];
  }

  /** Any open task can be claimed. */
  lemma Claims(ops: seq<Op>, b: Id, t: Id, claim: Id) returns (more: seq<Op>)
    requires Legal(ops) && t in Run(ops).db.tasks && Run(ops).db.tasks[t].status == Open
    requires claim !in Run(ops).drawn && claim != NO_ID
    ensures more == ops + [OpTake(Run(ops).clock, t, b, claim)] && Legal(more)
    ensures Holds(Run(more).db, Run(more).clock, t, b, claim)
    ensures Run(more).db.tasks[t].createdBy == Run(ops).db.tasks[t].createdBy
    ensures Run(more).db.messages == Run(ops).db.messages && Run(more).db.jobs == Run(ops).db.jobs
  {
    LegalSnoc(ops, OpTake(Run(ops).clock, t, b, claim));
    more := ops + [OpTake(Run(ops).clock, t, b, claim)];
  }

  lemma ReportGoesIn(db: Tables, received: int, now: int, id: Id, m: Message)
    requires Acceptable(db, now, m) && m.kind == Result && m.claim != Some(NO_ID)
    requires id !in db.messages && m.task.value !in db.jobs
    ensures var db' := Post(db, received, now, id, m).tables;
            && m.task.value in db'.tasks && db'.tasks[m.task.value].status == Submitted
            && db'.messages.Keys == db.messages.Keys + {id}
  {
  }

  lemma ReopenChangesNothing(ops: seq<Op>)
    requires Legal(ops)
    ensures Reopen(Run(ops).db).tables == Run(ops).db
  {
    JointAlways(ops);
    ReopenKeepsJobs(Run(ops).db);
  }

  // ----- verdicts -----

  lemma {:induction false} LastVerdictStored(rows: seq<Verification>, t: Id)
    requires LastVerdict(rows, t).Some?
    ensures exists k | 0 <= k < |rows| :: rows[k].task == t && rows[k].verdict == LastVerdict(rows, t).value
  {
    if rows[|rows| - 1].task != t {
      LastVerdictStored(rows[..|rows| - 1], t);
    }
  }

  /** The verdicts of a task are inconclusive up to at most one conclusive one, which is last; the task is COMPLETED
      exactly when a verified verdict is stored and FAILED exactly when a rejected one is; each verdict is by the
      creator, who is not the worker, on the accepted result. */
  lemma VerdictHistory(ops: seq<Op>, t: Id)
    requires Legal(ops) && t in Run(ops).db.tasks
    ensures var db := Run(ops).db; var rows := db.verifications;
            && (db.tasks[t].status == Completed <==> exists k | 0 <= k < |rows| :: rows[k].task == t && rows[k].verdict == Verified)
            && (db.tasks[t].status == Failed <==> exists k | 0 <= k < |rows| :: rows[k].task == t && rows[k].verdict == Rejected)
            && (forall i, j | 0 <= i < j < |rows| && rows[i].task == t && rows[j].task == t :: rows[i].verdict == Inconclusive)
            && (forall k | 0 <= k < |rows| && rows[k].task == t ::
                  && rows[k].verifier == db.tasks[t].createdBy && db.tasks[t].owner != Some(rows[k].verifier)
                  && db.tasks[t].submitted == Some(rows[k].target))
  {
    JointAlways(ops);
    var db := Run(ops).db;
    var rows := db.verifications;
    assert Told(db);
    assert StatusTold(db.tasks[t].status, LastVerdict(rows, t));
    if LastVerdict(rows, t).Some? {
      LastVerdictStored(rows, t);
    }
    forall k | 0 <= k < |rows| && rows[k].task == t
      ensures VerificationOk(db, rows[k])
      ensures rows[k].verdict != Inconclusive ==> LastVerdict(rows, t) == Some(rows[k].verdict)
    {
      LastVerdictEarlier(rows, t, k);
    }
  }

  // ----- what can still become of a task -----

  /** The one row a post or a review can rewrite, and when. */
  lemma PostTouches(db: Tables, received: int, now: int, id: Id, m: Message)
    ensures var tx := Post(db, received, now, id, m);
            tx.tables.tasks == db.tasks
            || (&& m.task.Some? && m.task.value in db.tasks && db.tasks[m.task.value].status == Claimed
                && m.task.value in tx.tables.tasks
                && tx.tables.tasks == db.tasks[m.task.value :=
                     db.tasks[m.task.value].(status := Submitted, submitted := Some(id), lease := None)])
  {
  }

  lemma ReviewTouches(db: Tables, now: int, visible: bool, r: Review)
    ensures var tx := Verify(db, now, visible, r);
            tx.tables.tasks == db.tasks
            || (&& Objection(db, visible, r).None? && r.task in db.tasks
                && tx.tables.tasks == db.tasks[r.task := db.tasks[r.task].(status := Judged(Submitted, r.verdict))])
  {
  }

  lemma OthersTouch(db: Tables, op: Op)
    requires !op.OpPost? && !op.OpVerify? && Drawn(op) !! db.tasks.Keys
    ensures forall t {:trigger t in db.tasks} | t in db.tasks ::
              && t in Apply(db, op).tables.tasks
              && Apply(db, op).tables.tasks[t].createdBy == db.tasks[t].createdBy
              && Apply(db, op).tables.tasks[t].key == db.tasks[t].key
              && (db.tasks[t].status in {Submitted, Completed, Failed} ==> Apply(db, op).tables.tasks[t] == db.tasks[t])
  {
    if !(op.OpCreate? || op.OpRequeue? || op.OpExtend? || op.OpTake?) {
      TasksUntouched(db, op);
    }
  }

  /** Once a result is in, the only thing that rewrites the task is a conclusive verdict, and that needs a creator
      who is not the worker. */
  lemma SubmittedStep(w: World, op: Op, t: Id)
    requires Rows(w.db) && w.db.tasks.Keys <= w.drawn && Allowed(w, op)
    requires t in w.db.tasks && w.db.tasks[t].status in {Submitted, Completed, Failed}
    ensures t in Step(w, op).db.tasks
    ensures Step(w, op).db.tasks[t] != w.db.tasks[t] ==>
              w.db.tasks[t].status == Submitted && w.db.tasks[t].owner != Some(w.db.tasks[t].createdBy)
  {
    if op.OpVerify? {
      ReviewTouches(w.db, op.at, op.visible, op.review);
      if Objection(w.db, op.visible, op.review).None? {
        ReviewerIsTheOtherParty(w.db, op.at, op.visible, op.review);
      }
    } else if op.OpPost? {
      PostTouches(w.db, op.received, op.at, op.messageId, op.message);
    } else {
      OthersTouch(w.db, op);
    }
  }

  /** A verdict is final: the row of a COMPLETED or FAILED task is the same in every later state. And a task whose
      worker is its creator never leaves SUBMITTED. */
  lemma {:induction false} NothingComesAfter(ops: seq<Op>, k: nat, t: Id)
    requires Legal(ops) && k <= |ops| && t in Run(ops[..k]).db.tasks
    requires var task := Run(ops[..k]).db.tasks[t];
             || task.status in {Completed, Failed}
             || (task.status == Submitted && task.owner == Some(task.createdBy))
    ensures t in Run(ops).db.tasks && Run(ops).db.tasks[t] == Run(ops[..k]).db.tasks[t]
    decreases |ops|
  {
    if k == |ops| {
      assert ops[..k] == ops;
    } else {
      var before := ops[..|ops| - 1];
      assert before[..k] == ops[..k];
      NothingComesAfter(before, k, t);
      JointAlways(before);
      SubmittedStep(Run(before), ops[|ops| - 1], t);
    }
  }

  /** There is always another identifier to draw. */
  lemma AnotherId(drawn: set<Id>) returns (id: Id)
    ensures id !in drawn && id != NO_ID
  {
    var n := LongerThanAll(drawn);
    id := Id(seq(n + 1, _ => 'x'));
    assert |id.text| == n + 1;
  }

  lemma {:induction false} LongerThanAll(drawn: set<Id>) returns (n: nat)
    ensures forall id | id in drawn :: |id.text| <= n
  {
    if drawn == {} {
      n := 0;
    } else {
      var id :| id in drawn;
      var m := LongerThanAll(drawn - {id});
      n := if m < |id.text| then |id.text| else m;
    }
  }

  lemma LegalSnoc(ops: seq<Op>, op: Op)
    requires Legal(ops) && Allowed(Run(ops), op)
    ensures Legal(ops + [op]) && Run(ops + [op]) == Step(Run(ops), op)
  {
    assert (ops + [op])[..|ops|] == ops;
  }

  /** When no attempt is live, the creator's own verdict on somebody else's result goes through. */
  lemma CreatorDecides(db: Tables, now: int, t: Id, id: Id)
    requires Rows(db) && t in db.tasks && db.tasks[t].status == Submitted
    requires db.tasks[t].owner != Some(db.tasks[t].createdBy)
    requires t in db.jobs && Over(db.jobs[t].lease, now)
    ensures var tx := Verify(db, now, true, Review(id, t, db.tasks[t].createdBy, NO_ID, db.jobs[t].message, Verified));
            t in tx.tables.tasks && tx.tables.tasks[t].status == Completed
  {
    assert RowOk(db, t);
  }

  /** As far as the store goes, and given the creator's access, a submitted task can still be completed exactly when
      its worker is not its creator; `Platform` adds what the handlers ask of the task's project. */
  lemma CompletableExactly(ops: seq<Op>, t: Id)
    requires Legal(ops) && t in Run(ops).db.tasks && Run(ops).db.tasks[t].status == Submitted
    ensures (exists more :: Legal(ops + more) && t in Run(ops + more).db.tasks && Run(ops + more).db.tasks[t].status == Completed)
            <==> Run(ops).db.tasks[t].owner != Some(Run(ops).db.tasks[t].createdBy)
  {
    if Run(ops).db.tasks[t].owner == Some(Run(ops).db.tasks[t].createdBy) {
      forall more | Legal(ops + more) ensures t in Run(ops + more).db.tasks && Run(ops + more).db.tasks[t].status == Submitted {
        assert (ops + more)[..|ops|] == ops;
        NothingComesAfter(ops + more, |ops|, t);
      }
    } else {
      JointAlways(ops);
      var op := CompletingStep(Run(ops), t);
      LegalSnoc(ops, op);
    }
  }

  lemma CompletingStep(w: World, t: Id) returns (op: Op)
    requires Rows(w.db) && t in w.db.tasks && w.db.tasks[t].status == Submitted
    requires w.db.tasks[t].owner != Some(w.db.tasks[t].createdBy)
    ensures Allowed(w, op)
    ensures op.OpVerify? && op.visible && op.review.task == t && op.review.verifier == w.db.tasks[t].createdBy
    ensures t in Step(w, op).db.tasks && Step(w, op).db.tasks[t].status == Completed
  {
    assert RowOk(w.db, t);
    var id := AnotherId(w.drawn);
    var lease := w.db.jobs[t].lease;
    var at := if lease.Some? && lease.value > w.clock then lease.value else w.clock;
    op := OpVerify(at, true, Review(id, t, w.db.tasks[t].createdBy, NO_ID, w.db.jobs[t].message, Verified));
    CreatorDecides(w.db, at, t, id);
  }

  // ----- idempotent creation -----

  lemma CreatorsStay(w: World, op: Op, t: Id)
    requires w.db.tasks.Keys <= w.drawn && Allowed(w, op) && t in w.db.tasks
    ensures t in Step(w, op).db.tasks
    ensures Step(w, op).db.tasks[t].createdBy == w.db.tasks[t].createdBy && Step(w, op).db.tasks[t].key == w.db.tasks[t].key
  {
    if op.OpVerify? {
      ReviewTouches(w.db, op.at, op.visible, op.review);
    } else if op.OpPost? {
      PostTouches(w.db, op.received, op.at, op.messageId, op.message);
    } else {
      OthersTouch(w.db, op);
    }
  }

  lemma {:induction false} CreatorsStayAlways(ops: seq<Op>, k: nat, t: Id)
    requires Legal(ops) && k <= |ops| && t in Run(ops[..k]).db.tasks
    ensures t in Run(ops).db.tasks
    ensures Run(ops).db.tasks[t].createdBy == Run(ops[..k]).db.tasks[t].createdBy
    ensures Run(ops).db.tasks[t].key == Run(ops[..k]).db.tasks[t].key
  {
    if k == |ops| {
      assert ops[..k] == ops;
    } else {
      var before := ops[..|ops| - 1];
      assert before[..k] == ops[..k];
      CreatorsStayAlways(before, k, t);
      JointAlways(before);
      CreatorsStay(Run(before), ops[|ops| - 1], t);
    }
  }

  /** Creating again with the same creator and key, at any later time, returns the first task and changes nothing. */
  lemma CreateIsIdempotent(ops: seq<Op>, k: nat, t: Id, now: int, id: Id)
    requires Legal(ops) && k <= |ops| && t in Run(ops[..k]).db.tasks && Run(ops[..k]).db.tasks[t].key.Some?
    ensures var first := Run(ops[..k]).db.tasks[t];
            Create(Run(ops).db, now, id, first.createdBy, first.key) == Refuse(Run(ops).db, Existing(t))
  {
    var first := Run(ops[..k]).db.tasks[t];
    CreatorsStayAlways(ops, k, t);
    JointAlways(ops);
    assert KeyTaken(Run(ops).db, first.createdBy, first.key, t);
    forall u | KeyTaken(Run(ops).db, first.createdBy, first.key, u) ensures u == t {
      assert Keyed(Run(ops).db);
    }
  }

  // ----- repeated deliveries of an operator's retry -----

  predicate Repeated(db: Tables, op: Op) {
    op.OpRetry? && op.update in db.retries
  }

  /** The run with every delivery of an update left out that arrives after that update succeeded. */
  ghost function WithoutRepeats(ops: seq<Op>): seq<Op> {
    if ops == [] then []
    else
      var before := ops[..|ops| - 1];
      if Repeated(Run(before).db, ops[|ops| - 1]) then WithoutRepeats(before)
      else WithoutRepeats(before) + [ops[|ops| - 1]]
  }

  /** Leaving the repeats out gives a legal run with the same tables and the same history. */
  lemma {:induction false} RepeatsHaveNoEffect(ops: seq<Op>)
    requires Legal(ops)
    ensures Legal(WithoutRepeats(ops))
    ensures var w, v := Run(ops), Run(WithoutRepeats(ops));
            v.db == w.db && v.log == w.log && v.drawn == w.drawn && v.clock <= w.clock
  {
    if ops != [] {
      var before := ops[..|ops| - 1];
      RepeatsHaveNoEffect(before);
      if !Repeated(Run(before).db, ops[|ops| - 1]) {
        LegalSnoc(WithoutRepeats(before), ops[|ops| - 1]);
      }
    }
  }

  predicate InLedger(db: Tables, e: Event)
    requires e.Refilled?
  {
    e.update in db.retries && db.retries[e.update] == e.task
  }

  ghost predicate LedgerTold(w: World) {
    && (forall i | 0 <= i < |w.log| && w.log[i].Refilled? :: InLedger(w.db, w.log[i]))
    && (forall i, j | 0 <= i < j < |w.log| && w.log[i].Refilled? && w.log[j].Refilled? :: w.log[i].update != w.log[j].update)
    && (forall u | u in w.db.retries :: exists i | 0 <= i < |w.log| :: w.log[i].Refilled? && w.log[i].update == u)
  }

  lemma LedgerStep(w: World, op: Op)
    ensures var w' := Step(w, op);
            if op.OpRetry? && Apply(w.db, op).note.Some?
            then && w'.log == w.log + [Refilled(op.task, op.update, op.at)] && op.update !in w.db.retries
                 && w'.db.retries == w.db.retries[op.update := op.task]
            else && w'.db.retries == w.db.retries
                 && (w'.log == w.log || (|w'.log| == |w.log| + 1 && w.log <= w'.log && !w'.log[|w.log|].Refilled?))
  {
    if !op.OpRetry? {
      OthersWriteNoRetries(w.db, op);
    }
  }

  lemma OthersWriteNoRetries(db: Tables, op: Op)
    requires !op.OpRetry?
    ensures Apply(db, op).tables.retries == db.retries
    ensures Apply(db, op).note.Some? ==> !Apply(db, op).note.value.Refilled?
  {
    match op
    case OpVerify(_, _, _) =>
    case OpPost(_, _, _, _) =>
    case _ =>
  }

  lemma LedgerKept(w: World, w': World)
    requires LedgerTold(w) && w.log <= w'.log && |w'.log| <= |w.log| + 1
    requires if |w'.log| > |w.log| && w'.log[|w.log|].Refilled?
             then var e := w'.log[|w.log|]; e.update !in w.db.retries && w'.db.retries == w.db.retries[e.update := e.task]
             else w'.db.retries == w.db.retries
    ensures LedgerTold(w')
  {
    forall i | 0 <= i < |w'.log| && w'.log[i].Refilled? ensures InLedger(w'.db, w'.log[i]) {
      assert i < |w.log| ==> InLedger(w.db, w.log[i]);
    }
    forall u | u in w'.db.retries ensures exists i | 0 <= i < |w'.log| :: w'.log[i].Refilled? && w'.log[i].update == u {
      if u in w.db.retries {
        var i :| 0 <= i < |w.log| && w.log[i].Refilled? && w.log[i].update == u;
        assert w'.log[i] == w.log[i];
      }
    }
    forall i, j | 0 <= i < j < |w'.log| && w'.log[i].Refilled? && w'.log[j].Refilled? ensures w'.log[i].update != w'.log[j].update {
      assert InLedger(w.db, w.log[i]);
    }
  }

  /** The ledger lists exactly the updates that refilled a round, and each did so once. */
  lemma {:induction false} LedgerAlways(ops: seq<Op>)
    requires Legal(ops)
    ensures LedgerTold(Run(ops))
  {
    if ops != [] {
      var before := ops[..|ops| - 1];
      LedgerAlways(before);
      LedgerStep(Run(before), ops[|ops| - 1]);
      LedgerKept(Run(before), Run(ops));
    }
  }
}
