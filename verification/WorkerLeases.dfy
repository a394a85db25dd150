/** Worker leases over whole runs: the claims on a task follow one another without overlap, and only the claim
    that currently holds the task can extend its lease or hand in the result. */
module WorkerLeases {
  import opened Common
  import opened Protocol
  import opened ProtocolInvariant

  predicate Writes(e: Event, t: Id, claim: Id) {
    e.Leased? && e.task == t && e.claim == claim
  }

  predicate Opens(e: Event, t: Id) {
    e.Leased? && e.task == t && e.opening
  }

  // ----- what the history of a run satisfies -----

  /** Spans of different claims are disjoint and ordered: whatever was written for earlier claims on a task has
      run out by the time a new claim opens, and the new claim id was never seen before. */
  ghost predicate Disjoint(log: seq<Event>) {
    forall i, j | 0 <= i < j < |log| && log[i].Leased? && log[j].Leased? && log[j].opening ::
      log[i].claim != log[j].claim && (log[i].task == log[j].task ==> log[i].until <= log[j].at)
  }

  /** A later write for the same claim never shortens its lease. */
  ghost predicate NeverShortened(log: seq<Event>) {
    forall i, j | 0 <= i < j < |log| && log[i].Leased? && log[j].Leased?
                  && log[i].task == log[j].task && log[i].claim == log[j].claim ::
      log[i].until <= log[j].until
  }

  /** A heartbeat or an accepted result falls inside the span of the claim it names: after the claim opened,
      strictly before an expiry written for it, and with no other claim opened in between. */
  ghost predicate InsideAt(log: seq<Event>, k: int)
    requires 0 <= k < |log| && (log[k].Leased? || log[k].Accepted?)
  {
    && (exists i | 0 <= i < k :: Writes(log[i], log[k].task, log[k].claim) && log[i].opening && log[i].at <= log[k].at)
    && (exists i | 0 <= i < k :: Writes(log[i], log[k].task, log[k].claim) && log[k].at < log[i].until)
    && (forall i, j | 0 <= i < j < k && Writes(log[i], log[k].task, log[k].claim) :: !Opens(log[j], log[k].task))
  }

  ghost predicate Inside(log: seq<Event>) {
    forall k | 0 <= k < |log| && (log[k].Accepted? || (log[k].Leased? && !log[k].opening)) :: InsideAt(log, k)
  }

  /** After a result is accepted the task is never leased again. */
  ghost predicate Final(log: seq<Event>) {
    forall i, j | 0 <= i < j < |log| && log[i].Accepted? && (log[j].Leased? || log[j].Accepted?) ::
      log[i].task != log[j].task
  }

  // ----- how the history and the tables hang together -----

  ghost predicate Linked(w: World) {
    && (forall i | 0 <= i < |w.log| && w.log[i].Leased? :: WriteLinked(w, w.log[i]))
    && (forall i, j | 0 <= i < j < |w.log| && w.log[i].Leased? && Opens(w.log[j], w.log[i].task) ::
          w.log[i].task in w.db.tasks && w.db.tasks[w.log[i].task].claim != Some(w.log[i].claim))
    && (forall t | t in w.db.tasks && w.db.tasks[t].status == Claimed :: CurrentLinked(w, t))
    && (forall i | 0 <= i < |w.log| && w.log[i].Accepted? ::
          w.log[i].task in w.db.tasks && w.db.tasks[w.log[i].task].status !in {Open, Claimed})
  }

  predicate WriteLinked(w: World, e: Event)
    requires e.Leased?
  {
    && e.claim in w.drawn
    && e.task in w.db.tasks
    && e.at <= w.clock
    && var k := w.db.tasks[e.task];
       if k.claim == Some(e.claim)
       then k.status == Claimed ==> k.lease.Some? && e.until <= k.lease.value
       else e.until <= w.clock
  }

  ghost predicate CurrentLinked(w: World, t: Id)
    requires t in w.db.tasks && w.db.tasks[t].status == Claimed
  {
    var k := w.db.tasks[t];
    && k.claim.Some? && k.lease.Some?
    && k.lease.value <= w.clock + TASK_LEASE
    && (exists i | 0 <= i < |w.log| :: Writes(w.log[i], t, k.claim.value) && w.log[i].opening && w.log[i].at <= w.clock)
    && (exists i | 0 <= i < |w.log| :: Writes(w.log[i], t, k.claim.value) && w.log[i].until == k.lease.value)
  }

  ghost predicate Good(w: World) {
    Linked(w) && Disjoint(w.log) && NeverShortened(w.log) && Inside(w.log) && Final(w.log)
  }

  // ----- preservation -----

  predicate Worker(note: Option<Event>) {
    note.Some? && (note.value.Leased? || note.value.Accepted?)
  }

  /** What a transaction that neither writes a worker lease nor accepts a result does to the tasks. */
  predicate QuietMove(k: Task, k': Task, now: int) {
    && (k'.claim == k.claim || (Stale(k, now) && k'.claim == None))
    && (k'.status == Claimed ==> k' == k)
    && (k.status !in {Open, Claimed} ==> k'.status !in {Open, Claimed})
  }

  ghost predicate QuietTasks(db: Tables, db': Tables, now: int) {
    && (forall t | t in db.tasks :: t in db'.tasks && QuietMove(db.tasks[t], db'.tasks[t], now))
    && (forall t | t in db'.tasks && t !in db.tasks :: db'.tasks[t].status == Open)
  }

  lemma VerifyMovesQuietly(db: Tables, now: int, visible: bool, r: Review)
    ensures QuietTasks(db, Verify(db, now, visible, r).tables, now)
  {
  }

  lemma PostMovesQuietly(db: Tables, received: int, now: int, id: Id, m: Message)
    requires Post(db, received, now, id, m).note.None?
    ensures QuietTasks(db, Post(db, received, now, id, m).tables, now)
  {
    assert Post(db, received, now, id, m).tables.tasks == db.tasks;
  }

  lemma QuietEffect(db: Tables, op: Op)
    requires Drawn(op) !! db.tasks.Keys
    requires !Worker(Apply(db, op).note)
    ensures QuietTasks(db, Apply(db, op).tables, op.at)
  {
    match op
    case OpVerify(at, visible, review) => VerifyMovesQuietly(db, at, visible, review);
    case OpPost(at, received, id, message) => PostMovesQuietly(db, received, at, id, message);
    case OpRequeue(_) =>
    case OpCreate(_, _, _, _) =>
    case OpExtend(_, _, _, _) => assert Apply(db, op).tables == db;
    case OpTake(_, _, _, _) => assert Apply(db, op).tables == db;
    case _ => TasksUntouched(db, op);
  }

  lemma QuietStepKeepsLinked(w: World, w': World)
    requires Linked(w) && QuietTasks(w.db, w'.db, w'.clock)
    requires w.clock <= w'.clock && w.drawn <= w'.drawn
    requires w'.log == w.log || (|w'.log| == |w.log| + 1 && w.log <= w'.log && !Worker(Some(w'.log[|w.log|])))
    ensures Linked(w')
  {
    forall i | 0 <= i < |w'.log| && w'.log[i].Leased? ensures WriteLinked(w', w'.log[i]) {
      assert WriteLinked(w, w.log[i]);
    }
    forall t | t in w'.db.tasks && w'.db.tasks[t].status == Claimed ensures CurrentLinked(w', t) {
      assert CurrentLinked(w, t);
      CurrentGrows(w, w', t);
    }
  }

  lemma CurrentGrows(w: World, w': World, t: Id)
    requires t in w.db.tasks && w.db.tasks[t].status == Claimed && CurrentLinked(w, t)
    requires t in w'.db.tasks && w'.db.tasks[t] == w.db.tasks[t]
    requires w.log <= w'.log && w.clock <= w'.clock
    ensures CurrentLinked(w', t)
  {
    var c := w.db.tasks[t].claim.value;
    var i :| 0 <= i < |w.log| && Writes(w.log[i], t, c) && w.log[i].opening && w.log[i].at <= w.clock;
    assert w'.log[i] == w.log[i];
    var j :| 0 <= j < |w.log| && Writes(w.log[j], t, c) && w.log[j].until == w.db.tasks[t].lease.value;
    assert w'.log[j] == w.log[j];
  }

  /** A task's row is rewritten by a transaction that writes a lease for `claim`. */
  predicate LeaseMove(w: World, w': World, e: Event)
    requires e.Leased?
  {
    && e.task in w.db.tasks
    && w'.db.tasks == w.db.tasks[e.task := w.db.tasks[e.task].(
         status := Claimed, claim := Some(e.claim), lease := Some(e.until),
         owner := if e.task in w'.db.tasks then w'.db.tasks[e.task].owner else None,
         claimedAt := if e.task in w'.db.tasks then w'.db.tasks[e.task].claimedAt else None)]
    && w'.log == w.log + [e]
    && w.clock <= e.at == w'.clock && e.until == e.at + TASK_LEASE
    && w.drawn <= w'.drawn
  }

  lemma OpeningKeepsLinked(w: World, w': World, e: Event)
    requires Linked(w) && e.Leased? && e.opening && LeaseMove(w, w', e)
    requires w.db.tasks[e.task].status == Open && w.db.tasks[e.task].claim.None?
    requires e.claim !in w.drawn && e.claim in w'.drawn
    ensures Linked(w')
  {
    forall i | 0 <= i < |w'.log| && w'.log[i].Leased? ensures WriteLinked(w', w'.log[i]) {
      if i < |w.log| {
        assert WriteLinked(w, w.log[i]);
      }
    }
    forall t | t in w'.db.tasks && w'.db.tasks[t].status == Claimed ensures CurrentLinked(w', t) {
      if t == e.task {
        assert Writes(w'.log[|w.log|], t, e.claim);
      } else {
        assert CurrentLinked(w, t);
        CurrentGrows(w, w', t);
      }
    }
    forall i, j | 0 <= i < j < |w'.log| && w'.log[i].Leased? && Opens(w'.log[j], w'.log[i].task)
      ensures w'.db.tasks[w'.log[i].task].claim != Some(w'.log[i].claim)
    {
      assert WriteLinked(w, w.log[i]);
      assert j < |w.log| ==> Opens(w.log[j], w.log[i].task);
    }
  }

  lemma RenewalKeepsLinked(w: World, w': World, e: Event)
    requires Linked(w) && e.Leased? && !e.opening && LeaseMove(w, w', e)
    requires w.db.tasks[e.task].status == Claimed && w.db.tasks[e.task].claim == Some(e.claim)
    ensures Linked(w')
  {
    assert CurrentLinked(w, e.task);
    forall i | 0 <= i < |w'.log| && w'.log[i].Leased? ensures WriteLinked(w', w'.log[i]) {
      if i < |w.log| {
        assert WriteLinked(w, w.log[i]);
      } else {
        var j :| 0 <= j < |w.log| && Writes(w.log[j], e.task, e.claim);
        assert WriteLinked(w, w.log[j]);
      }
    }
    forall t | t in w'.db.tasks && w'.db.tasks[t].status == Claimed ensures CurrentLinked(w', t) {
      assert CurrentLinked(w, t);
      if t == e.task {
        RenewedCurrent(w, w', e);
      } else {
        CurrentGrows(w, w', t);
      }
    }
    forall i, j | 0 <= i < j < |w'.log| && w'.log[i].Leased? && Opens(w'.log[j], w'.log[i].task)
      ensures w'.log[i].task in w'.db.tasks && w'.db.tasks[w'.log[i].task].claim != Some(w'.log[i].claim)
    {
      assert Opens(w.log[j], w.log[i].task);
    }
  }

  lemma RenewedCurrent(w: World, w': World, e: Event)
    requires e.Leased? && !e.opening && LeaseMove(w, w', e)
    requires w.db.tasks[e.task].status == Claimed && w.db.tasks[e.task].claim == Some(e.claim)
    requires CurrentLinked(w, e.task)
    ensures CurrentLinked(w', e.task)
  {
    var i :| 0 <= i < |w.log| && Writes(w.log[i], e.task, e.claim) && w.log[i].opening && w.log[i].at <= w.clock;
    assert w'.log[i] == w.log[i];
    assert Writes(w'.log[|w.log|], e.task, e.claim);
  }

  lemma AcceptanceKeepsLinked(w: World, w': World, e: Event)
    requires Linked(w) && e.Accepted? && w'.log == w.log + [e]
    requires w.clock <= w'.clock && w.drawn <= w'.drawn
    requires e.task in w.db.tasks && w.db.tasks[e.task].status == Claimed
    requires w'.db.tasks == w.db.tasks[e.task := w.db.tasks[e.task].(status := Submitted, lease := None, submitted := Some(e.message))]
    ensures Linked(w')
  {
    forall i | 0 <= i < |w'.log| && w'.log[i].Leased? ensures WriteLinked(w', w'.log[i]) {
      assert WriteLinked(w, w.log[i]);
    }
    forall t | t in w'.db.tasks && w'.db.tasks[t].status == Claimed ensures CurrentLinked(w', t) {
      assert CurrentLinked(w, t);
      CurrentGrows(w, w', t);
    }
    forall i, j | 0 <= i < j < |w'.log| && w'.log[i].Leased? && Opens(w'.log[j], w'.log[i].task)
      ensures w'.log[i].task in w'.db.tasks && w'.db.tasks[w'.log[i].task].claim != Some(w'.log[i].claim)
    {
      assert Opens(w.log[j], w.log[i].task);
    }
  }

  /** A use of a claim is allowed only to the claim that currently holds the task. */
  lemma UseIsInside(w: World, t: Id, claim: Id, now: int, e: Event)
    requires Linked(w) && w.clock <= now
    requires t in w.db.tasks && w.db.tasks[t].status == Claimed && w.db.tasks[t].claim == Some(claim)
    requires w.db.tasks[t].lease.Some? && now < w.db.tasks[t].lease.value
    requires (e.Leased? || e.Accepted?) && e.task == t && e.claim == claim && e.at == now
    ensures InsideAt(w.log + [e], |w.log|)
  {
    var log := w.log + [e];
    assert CurrentLinked(w, t);
    var i :| 0 <= i < |w.log| && Writes(w.log[i], t, claim) && w.log[i].opening && w.log[i].at <= w.clock;
    assert log[i] == w.log[i];
    var j :| 0 <= j < |w.log| && Writes(w.log[j], t, claim) && w.log[j].until == w.db.tasks[t].lease.value;
    assert log[j] == w.log[j];
  }

  lemma InsideGrows(log: seq<Event>, e: Event)
    requires Inside(log)
    requires (e.Accepted? || (e.Leased? && !e.opening)) ==> InsideAt(log + [e], |log|)
    ensures Inside(log + [e])
  {
    var log' := log + [e];
    forall k | 0 <= k < |log'| && (log'[k].Accepted? || (log'[k].Leased? && !log'[k].opening)) ensures InsideAt(log', k) {
      if k < |log| {
        assert InsideAt(log, k);
        var i :| 0 <= i < k && Writes(log[i], log[k].task, log[k].claim) && log[i].opening && log[i].at <= log[k].at;
        assert log'[i] == log[i];
        var j :| 0 <= j < k && Writes(log[j], log[k].task, log[k].claim) && log[k].at < log[j].until;
        assert log'[j] == log[j];
      }
    }
  }

  /** Every write so far, seen against a new event of the same task. */
  lemma EarlierWrites(w: World, w': World, e: Event, i: int)
    requires Linked(w) && Linked(w') && w'.log == w.log + [e]
    requires e.Leased? && (e.opening ==> e.claim !in w.drawn)
    requires w.clock <= e.at && e.task in w.db.tasks
    requires e.opening ==> w.db.tasks[e.task].claim.None?
    requires e.task in w'.db.tasks && w'.db.tasks[e.task].status == Claimed
    requires w'.db.tasks[e.task].claim == Some(e.claim) && w'.db.tasks[e.task].lease == Some(e.until)
    requires 0 <= i < |w.log| && w.log[i].Leased?
    ensures e.opening ==> w.log[i].claim != e.claim && (w.log[i].task == e.task ==> w.log[i].until <= e.at)
    ensures w.log[i].task == e.task && w.log[i].claim == e.claim ==> w.log[i].until <= e.until
  {
    assert WriteLinked(w, w.log[i]);
    assert WriteLinked(w', w'.log[i]);
  }

  /** The history stays well formed when a transaction adds `e`, seen against the tables it leaves. */
  lemma HistoryGrows(log: seq<Event>, e: Event)
    requires Disjoint(log) && NeverShortened(log)
    requires forall i | 0 <= i < |log| && log[i].Leased? && e.Leased? ::
               && (e.opening ==> log[i].claim != e.claim && (log[i].task == e.task ==> log[i].until <= e.at))
               && (log[i].task == e.task && log[i].claim == e.claim ==> log[i].until <= e.until)
    ensures Disjoint(log + [e]) && NeverShortened(log + [e])
  {
  }

  lemma FinalGrows(w: World, w': World, e: Event)
    requires Good(w) && WorkerStep(w, w', e)
    ensures Final(w'.log)
  {
  }

  /** How the three worker transactions leave their task, and when each may act. */
  ghost predicate WorkerStep(w: World, w': World, e: Event) {
    && w'.log == w.log + [e]
    && w.clock <= e.at == w'.clock && w.drawn <= w'.drawn
    && Worker(Some(e))
    && e.task in w.db.tasks
    && var k := w.db.tasks[e.task];
       && (e.Leased? ==> LeaseMove(w, w', e))
       && (e.Leased? && e.opening ==>
             k.status == Open && k.claim.None? && e.claim !in w.drawn && e.claim in w'.drawn)
       && (!(e.Leased? && e.opening) ==>
             k.status == Claimed && k.claim == Some(e.claim) && k.lease.Some? && e.at < k.lease.value)
       && (e.Accepted? ==>
             w'.db.tasks == w.db.tasks[e.task := k.(status := Submitted, lease := None, submitted := Some(e.message))])
  }

  lemma TakeEffect(w: World, op: Op)
    requires Joint(w.db) && Allowed(w, op) && op.OpTake? && Worker(Apply(w.db, op).note)
    ensures WorkerStep(w, Step(w, op), Apply(w.db, op).note.value)
  {
    assert RowOk(w.db, op.task);
  }

  lemma ExtendEffect(w: World, op: Op)
    requires Joint(w.db) && Allowed(w, op) && op.OpExtend? && Worker(Apply(w.db, op).note)
    ensures WorkerStep(w, Step(w, op), Apply(w.db, op).note.value)
  {
  }

  lemma AcceptEffect(w: World, op: Op)
    requires Joint(w.db) && Allowed(w, op) && op.OpPost? && Worker(Apply(w.db, op).note)
    ensures WorkerStep(w, Step(w, op), Apply(w.db, op).note.value)
  {
  }

  lemma WorkerEffect(w: World, op: Op)
    requires Joint(w.db) && Allowed(w, op) && Worker(Apply(w.db, op).note)
    ensures WorkerStep(w, Step(w, op), Apply(w.db, op).note.value)
  {
    match op
    case OpTake(_, _, _, _) => TakeEffect(w, op);
    case OpExtend(_, _, _, _) => ExtendEffect(w, op);
    case OpPost(_, _, _, _) => AcceptEffect(w, op);
  }

  lemma WorkerStepKeepsGood(w: World, w': World, e: Event)
    requires Good(w) && WorkerStep(w, w', e)
    ensures Good(w')
  {
    if e.Accepted? {
      AcceptanceKeepsLinked(w, w', e);
    } else if e.opening {
      OpeningKeepsLinked(w, w', e);
    } else {
      RenewalKeepsLinked(w, w', e);
    }
    if !(e.Leased? && e.opening) {
      UseIsInside(w, e.task, e.claim, e.at, e);
    }
    forall i | 0 <= i < |w.log| && w.log[i].Leased? && e.Leased?
      ensures e.opening ==> w.log[i].claim != e.claim && (w.log[i].task == e.task ==> w.log[i].until <= e.at)
      ensures w.log[i].task == e.task && w.log[i].claim == e.claim ==> w.log[i].until <= e.until
    {
      EarlierWrites(w, w', e, i);
    }
    HistoryGrows(w.log, e);
    FinalGrows(w, w', e);
    InsideGrows(w.log, e);
  }

  lemma StepKeepsGood(w: World, op: Op)
    requires Joint(w.db) && Good(w) && w.db.tasks.Keys <= w.drawn && Allowed(w, op)
    ensures Good(Step(w, op))
  {
    var note := Apply(w.db, op).note;
    if Worker(note) {
      WorkerEffect(w, op);
      WorkerStepKeepsGood(w, Step(w, op), note.value);
    } else {
      QuietEffect(w.db, op);
      QuietStepKeepsGood(w, Step(w, op), note);
    }
  }

  lemma QuietStepKeepsGood(w: World, w': World, note: Option<Event>)
    requires Good(w) && !Worker(note) && QuietTasks(w.db, w'.db, w'.clock)
    requires w.clock <= w'.clock && w.drawn <= w'.drawn
    requires w'.log == if note.Some? then w.log + [note.value] else w.log
    ensures Good(w')
  {
    QuietStepKeepsLinked(w, w');
    if note.Some? {
      InsideGrows(w.log, note.value);
      QuietHistory(w.log, note.value);
    }
  }

  lemma QuietHistory(log: seq<Event>, e: Event)
    requires Disjoint(log) && NeverShortened(log) && Final(log) && !e.Leased? && !e.Accepted?
    ensures Disjoint(log + [e]) && NeverShortened(log + [e]) && Final(log + [e])
  {
  }

  lemma {:induction false} GoodAlways(ops: seq<Op>)
    requires Legal(ops)
    ensures Good(Run(ops))
  {
    if ops != [] {
      var before := ops[..|ops| - 1];
      GoodAlways(before);
      JointAlways(before);
      StepKeepsGood(Run(before), ops[|ops| - 1]);
    }
  }

  /** Lease exclusion over whole runs. */
  lemma LeaseExclusion(ops: seq<Op>)
    requires Legal(ops)
    ensures Disjoint(Run(ops).log)
    ensures NeverShortened(Run(ops).log)
    ensures Inside(Run(ops).log)
    ensures Final(Run(ops).log)
  {
    GoodAlways(ops);
  }

  /** A heartbeat or RESULT naming a claim that a later one has replaced on the task changes nothing. */
  lemma SupersededClaimIsPowerless(ops: seq<Op>, i: nat, j: nat, now: int, received: int, agent: Id, id: Id, m: Message)
    requires Legal(ops)
    requires i < j < |Run(ops).log|
    requires Run(ops).log[i].Leased? && Opens(Run(ops).log[j], Run(ops).log[i].task)
    requires m.kind == Result && m.task == Some(Run(ops).log[i].task) && m.claim == Some(Run(ops).log[i].claim)
    ensures var db := Run(ops).db;
            && Extend(db, now, Run(ops).log[i].task, agent, Run(ops).log[i].claim) == Refuse(db, Conflict)
            && Post(db, received, now, id, m).tables == db
            && Post(db, received, now, id, m).reply != Done
  {
    var db, t, claim := Run(ops).db, Run(ops).log[i].task, Run(ops).log[i].claim;
    assert t in db.tasks && db.tasks[t].claim != Some(claim) by {
      GoodAlways(ops);
    }
    WrongClaim(db, t, claim, now, received, agent, id, m);
  }

  lemma WrongClaim(db: Tables, t: Id, claim: Id, now: int, received: int, agent: Id, id: Id, m: Message)
    requires t in db.tasks && db.tasks[t].claim != Some(claim)
    requires m.kind == Result && m.task == Some(t) && m.claim == Some(claim)
    ensures Extend(db, now, t, agent, claim) == Refuse(db, Conflict)
    ensures Post(db, received, now, id, m).tables == db && Post(db, received, now, id, m).reply != Done
  {
  }
}
