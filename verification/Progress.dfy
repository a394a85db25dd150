/** What a creator may count on: from which second on its job is handed out again, and after how many polls. */
module Progress {
  import opened Common
  import opened Protocol
  import opened ProtocolInvariant
  import opened Attempts
  import opened ProtocolAnswers
  import Results
  import TextOrder

  // ----- from when on -----

  /** The last grant, verdict or retry of the task so far. */
  ghost predicate LastClose(log: seq<Event>, i: nat, t: Id) {
    i < |log| && Closes(log[i], t) && forall m | i < m < |log| :: !Closes(log[m], t)
  }

  /** What that event left in the job's row. */
  predicate TimedBy(job: Job, e: Event) {
    match e
    case Granted(_, a, n, at, _) =>
      job.attempts == n && job.attempt == a && job.lease == Some(at + 300) && job.nextAt == at + 300 + Backoff(n)
    case Decided(_, _, v, at) =>
      job.attempt == NO_ID && job.lease == None && job.nextAt == at + Backoff(job.attempts) && (v != Inconclusive <==> job.done)
    case Refilled(_, _, at) =>
      job.attempts == 0 && job.attempt == NO_ID && job.lease == None && job.nextAt == at
    case _ => true
  }

  ghost predicate Timed(w: World) {
    forall i: nat, t | LastClose(w.log, i, t) :: t in w.db.jobs && TimedBy(w.db.jobs[t], w.log[i])
  }

  lemma StepKeepsTimed(w: World, w': World, e: Event)
    requires Timed(w) && JobStep(w, w', e)
    ensures Timed(w')
  {
    forall i: nat, t | LastClose(w'.log, i, t) ensures t in w'.db.jobs && TimedBy(w'.db.jobs[t], w'.log[i]) {
      assert w'.log[|w.log|] == e;
      if i < |w.log| {
        EarlierClose(w.log, e, i, t);
      }
    }
  }

  lemma EarlierClose(log: seq<Event>, e: Event, i: nat, t: Id)
    requires LastClose(log + [e], i, t) && i < |log|
    ensures LastClose(log, i, t) && !Closes(e, t) && (log + [e])[i] == log[i]
  {
    assert (log + [e])[|log|] == e;
    forall m | i < m < |log| ensures !Closes(log[m], t) {
      assert (log + [e])[m] == log[m];
    }
  }

  lemma {:induction false} TimedAlways(ops: seq<Op>)
    requires Legal(ops)
    ensures Timed(Run(ops))
  {
    if ops != [] {
      var before, op := ops[..|ops| - 1], ops[|ops| - 1];
      TimedAlways(before);
      JointAlways(before);
      if Apply(Run(before).db, op).note.Some? {
        Effect(Run(before), op);
        StepKeepsTimed(Run(before), Run(ops), Apply(Run(before).db, op).note.value);
      } else {
        SilentEffect(Run(before), op);
      }
    }
  }

  /** The second from which on the job is to be handed out again. */
  function Resumes(job: Job, e: Event): int {
    var n := job.attempts;
    var delay := if n <= 1 then 60 else if n == 2 then 120 else if n == 3 then 240 else if n == 4 then 480 else 960;
    match e
    case Granted(_, _, _, at, _) => at + 300 + delay
    case Decided(_, _, _, at) => at + delay
    case Refilled(_, _, at) => at
    case _ => 0
  }

  /** A submitted task of somebody else's making with attempts left is ready for its creator exactly from then on: 300 s
      and the delay after an attempt nobody answered, the delay after an inconclusive verdict, at once after a retry. */
  lemma ReadyExactlyFrom(ops: seq<Op>, i: nat, t: Id, now: int, access: set<Id>)
    requires Legal(ops) && LastClose(Run(ops).log, i, t)
    requires t in Run(ops).db.tasks && t in Run(ops).db.jobs && t in access
    requires Run(ops).db.tasks[t].status == Submitted && Run(ops).db.tasks[t].owner != Some(Run(ops).db.tasks[t].createdBy)
    requires Run(ops).db.jobs[t].attempts < 5
    ensures Ready(Run(ops).db, now, Run(ops).db.tasks[t].createdBy, access, t) <==>
              now >= Resumes(Run(ops).db.jobs[t], Run(ops).log[i])
  {
    TimedAlways(ops);
    BackoffIs();
  }

  // ----- after how many polls -----

  /** The ready jobs that come no later than this one. */
  ghost function Ahead(db: Tables, now: int, viewer: Id, access: set<Id>, t: Id): set<Id> {
    set u | u in db.jobs && Ready(db, now, viewer, access, u) && Sooner(db.jobs, u, t)
  }

  /** Polls of one viewer at one moment, nothing in between. */
  ghost predicate LegalPolls(ops: seq<Op>, now: int, viewer: Id, access: set<Id>, ids: seq<Id>)
    decreases |ids|
  {
    ids == [] ||
    (Allowed(Run(ops), OpGrant(now, viewer, access, ids[0]))
     && LegalPolls(ops + [OpGrant(now, viewer, access, ids[0])], now, viewer, access, ids[1..]))
  }

  ghost predicate Served(ops: seq<Op>, now: int, viewer: Id, access: set<Id>, ids: seq<Id>, t: Id)
    decreases |ids|
  {
    ids != [] &&
    (Grant(Run(ops).db, now, viewer, access, ids[0]).reply == Handed(t)
     || Served(ops + [OpGrant(now, viewer, access, ids[0])], now, viewer, access, ids[1..], t))
  }

  /** A poll that hands out another job takes it out of the way. */
  lemma PollShortens(db: Tables, now: int, viewer: Id, access: set<Id>, attempt: Id, t: Id, u: Id)
    requires Ready(db, now, viewer, access, t) && Ready(db, now, viewer, access, u) && u != t && Sooner(db.jobs, u, t)
    ensures var db' := db.(jobs := db.jobs[u := Attempted(db.jobs[u], now, attempt)]);
            && Ready(db', now, viewer, access, t)
            && Ahead(db', now, viewer, access, t) == Ahead(db, now, viewer, access, t) - {u}
            && u in Ahead(db, now, viewer, access, t)
  {
    var db' := db.(jobs := db.jobs[u := Attempted(db.jobs[u], now, attempt)]);
    assert !Ready(db', now, viewer, access, u);
    forall v ensures v in Ahead(db', now, viewer, access, t) <==> v in Ahead(db, now, viewer, access, t) - {u} {
      assert v != u ==> (Ready(db', now, viewer, access, v) <==> Ready(db, now, viewer, access, v));
    }
  }

  /** A ready job is handed out within as many polls as there are ready jobs that come no later. */
  lemma {:induction false} ServedWithin(ops: seq<Op>, now: int, viewer: Id, access: set<Id>, ids: seq<Id>, t: Id)
    requires Legal(ops) && Ready(Run(ops).db, now, viewer, access, t) && LegalPolls(ops, now, viewer, access, ids)
    requires |ids| >= |Ahead(Run(ops).db, now, viewer, access, t)|
    ensures Served(ops, now, viewer, access, ids, t)
    decreases |ids|
  {
    var db := Run(ops).db;
    ItselfAhead(db, now, viewer, access, t);
    TheReadyAreHanded(ops, now, viewer, access, ids[0]);
    var u := Grant(db, now, viewer, access, ids[0]).reply.task;
    if u != t {
      OnlyTheCreatorIsHanded(ops, now, viewer, access, ids[0], u);
      PollShortens(db, now, viewer, access, ids[0], t, u);
      Results.LegalSnoc(ops, OpGrant(now, viewer, access, ids[0]));
      ServedWithin(ops + [OpGrant(now, viewer, access, ids[0])], now, viewer, access, ids[1..], t);
    }
  }

  lemma ItselfAhead(db: Tables, now: int, viewer: Id, access: set<Id>, t: Id)
    requires Ready(db, now, viewer, access, t)
    ensures t in Ahead(db, now, viewer, access, t) && |Ahead(db, now, viewer, access, t)| > 0
  {
    assert t in Ahead(db, now, viewer, access, t);
  }
}
