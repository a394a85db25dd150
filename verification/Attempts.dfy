/** Verification attempts over whole runs: how many are granted, how far apart, and which may decide. */
module Attempts {
  import opened Common
  import opened Protocol
  import opened ProtocolInvariant

  datatype Tallied = Grants | Refills | Sent

  predicate Counts(e: Event, t: Id, what: Tallied) {
    match what
    case Grants => e.Granted? && e.task == t
    case Refills => e.Refilled? && e.task == t
    case Sent => e.AlertSent? && e.task == t
  }

  /** How often something happened to task `t`. */
  function Tally(log: seq<Event>, t: Id, what: Tallied): (n: nat)
    ensures n <= |log|
  {
    if log == [] then 0
    else Tally(log[..|log| - 1], t, what) + if Counts(log[|log| - 1], t, what) then 1 else 0
  }

  lemma TallySnoc(log: seq<Event>, e: Event, t: Id, what: Tallied)
    ensures Tally(log + [e], t, what) == Tally(log, t, what) + if Counts(e, t, what) then 1 else 0
  {
    assert (log + [e])[..|log|] == log;
  }

  predicate Grant1(e: Event, t: Id, attempt: Id) {
    e.Granted? && e.task == t && e.attempt == attempt
  }

  /** Ends the right of earlier attempts on `t` to decide. */
  predicate Closes(e: Event, t: Id) {
    (e.Granted? || e.Decided? || e.Refilled?) && e.task == t
  }

  predicate DecidedBy(e: Event, t: Id, attempt: Id) {
    e.Decided? && e.task == t && e.attempt == attempt
  }

  // ----- what the history of a run satisfies -----

  ghost predicate SameRound(log: seq<Event>, t: Id, i: int, j: int)
    requires 0 <= i <= j <= |log|
  {
    forall m | i < m < j :: !(log[m].Refilled? && log[m].task == t)
  }

  ghost predicate NoVerdict(log: seq<Event>, t: Id, i: int, j: int)
    requires 0 <= i <= j <= |log|
  {
    forall m | i < m < j :: !(log[m].Decided? && log[m].task == t)
  }

  /** 60 * (2^b - 2^a) seconds: the delays after attempts a+1, ..., b added up. */
  function Delays(a: nat, b: nat): int {
    60 * (Pow2(b) - Pow2(a))
  }

  /** Within a round, grants are numbered upwards and spaced by the backoff, verdicts or not; attempts nobody
      answers are spaced by their leases on top of it. */
  ghost predicate SpacedAt(log: seq<Event>, i: int, j: int)
    requires 0 <= i < j < |log| && log[i].Granted? && log[j].Granted?
  {
    SameRound(log, log[i].task, i, j) ==>
      && 1 <= log[i].number < log[j].number
      && log[i].at + Delays(log[i].number - 1, log[j].number - 1) <= log[j].at
      && (NoVerdict(log, log[i].task, i, j) ==>
            log[i].at + VERIFICATION_LEASE * (log[j].number - log[i].number)
              + Delays(log[i].number - 1, log[j].number - 1) <= log[j].at)
  }

  ghost predicate Spaced(log: seq<Event>) {
    forall i, j | 0 <= i < j < |log| && log[i].Granted? && log[j].Granted? && log[i].task == log[j].task ::
      SpacedAt(log, i, j)
  }

  /** The number an attempt carries is determined by the history before it. */
  ghost predicate Ordinal(log: seq<Event>) {
    forall k | 0 <= k < |log| && log[k].Granted? ::
      log[k].number == Tally(log[..k], log[k].task, Grants) - MAX_ATTEMPTS * Tally(log[..k], log[k].task, Refills) + 1
  }

  ghost predicate DistinctAttempts(log: seq<Event>) {
    forall i, j | 0 <= i < j < |log| && log[i].Granted? && log[j].Granted? :: log[i].attempt != log[j].attempt
  }

  /** A fenced verdict comes from the latest attempt on the task, inside its lease, before anything else touched
      the job. */
  ghost predicate FencedAt(log: seq<Event>, k: int)
    requires 0 <= k < |log| && log[k].Decided?
  {
    exists i | 0 <= i < k && Grant1(log[i], log[k].task, log[k].attempt) ::
      log[i].at <= log[k].at < log[i].until && forall m | i < m < k :: !Closes(log[m], log[k].task)
  }

  ghost predicate FencedVerdicts(log: seq<Event>) {
    forall k | 0 <= k < |log| && log[k].Decided? && log[k].attempt != NO_ID :: FencedAt(log, k)
  }

  ghost predicate OneVerdictEach(log: seq<Event>) {
    forall i, j | 0 <= i < j < |log| && log[i].Decided? && log[j].Decided? && log[i].attempt != NO_ID ::
      log[i].attempt != log[j].attempt
  }

  /** No attempt on `t` granted in `log` is still live at `now`: each has run out or has given its verdict. */
  ghost predicate Undisturbed(log: seq<Event>, t: Id, now: int) {
    forall i | 0 <= i < |log| && log[i].Granted? && log[i].task == t ::
      log[i].until <= now || Answered(log, i)
  }

  ghost predicate Answered(log: seq<Event>, i: int)
    requires 0 <= i < |log| && log[i].Granted?
  {
    exists m | i < m < |log| :: DecidedBy(log[m], log[i].task, log[i].attempt)
  }

  /** Steps that must wait for a live attempt: the next grant, a manual verdict, an operator's retry, an alert. */
  predicate MustWait(e: Event) {
    e.Granted? || e.Refilled? || e.AlertLeased? || (e.Decided? && e.attempt == NO_ID)
  }

  ghost predicate LiveAttemptsRespected(log: seq<Event>) {
    forall k | 0 <= k < |log| && MustWait(log[k]) :: Undisturbed(log[..k], log[k].task, log[k].at)
  }

  // ----- how the history and the job table hang together -----

  predicate GrantLinked(w: World, e: Event)
    requires e.Granted?
  {
    && e.attempt in w.drawn && e.attempt != NO_ID
    && e.task in w.db.jobs
    && 1 <= e.number <= MAX_ATTEMPTS
    && e.at <= w.clock && e.until == e.at + VERIFICATION_LEASE
  }

  ghost predicate CurrentLinked(w: World, t: Id)
    requires t in w.db.jobs && w.db.jobs[t].attempt != NO_ID
  {
    exists i | 0 <= i < |w.log| ::
      Grant1(w.log[i], t, w.db.jobs[t].attempt) && w.db.jobs[t].lease == Some(w.log[i].until)
  }

  ghost predicate LivenessLinked(w: World, i: int)
    requires 0 <= i < |w.log| && w.log[i].Granted? && w.log[i].task in w.db.jobs
  {
    var job := w.db.jobs[w.log[i].task];
    w.log[i].until <= w.clock || (job.attempt == w.log[i].attempt && job.lease == Some(w.log[i].until))
    || Answered(w.log, i)
  }

  /** The earliest next grant, measured from a grant of the current round. */
  ghost predicate RoundLinked(w: World, i: int)
    requires 0 <= i < |w.log| && w.log[i].Granted? && w.log[i].task in w.db.jobs
  {
    var e := w.log[i];
    var job := w.db.jobs[e.task];
    SameRound(w.log, e.task, i, |w.log|) ==>
      Bounded(e.at, e.number, job, w.clock, NoVerdict(w.log, e.task, i, |w.log|))
  }

  ghost predicate Balanced(w: World, t: Id) {
    Tally(w.log, t, Grants) ==
      MAX_ATTEMPTS * Tally(w.log, t, Refills) + if t in w.db.jobs then w.db.jobs[t].attempts else 0
  }

  ghost predicate Linked(w: World) {
    && (forall i | 0 <= i < |w.log| && w.log[i].Granted? :: GrantLinked(w, w.log[i]))
    && (forall i | 0 <= i < |w.log| && w.log[i].Granted? :: LivenessLinked(w, i) && RoundLinked(w, i))
    && (forall i, j | 0 <= i < j < |w.log| && w.log[i].Granted? && Closes(w.log[j], w.log[i].task) ::
          w.log[i].task in w.db.jobs && w.db.jobs[w.log[i].task].attempt != w.log[i].attempt)
    && (forall t | t in w.db.jobs && w.db.jobs[t].attempt != NO_ID :: CurrentLinked(w, t))
    && (forall t :: Balanced(w, t))
  }

  ghost predicate HistoryOk(log: seq<Event>) {
    && Spaced(log) && Ordinal(log)
    && DistinctAttempts(log) && FencedVerdicts(log) && OneVerdictEach(log) && LiveAttemptsRespected(log)
  }

  ghost predicate Good(w: World) {
    Linked(w) && HistoryOk(w.log)
  }

  // ----- the five ways a transaction can touch a job -----

  /** What the note of a transaction says about the job table. */
  ghost predicate JobStep(w: World, w': World, e: Event) {
    && w'.log == w.log + [e]
    && w.clock <= w'.clock && w.drawn <= w'.drawn
    && match e
       case Accepted(t, _, m, _) => t !in w.db.jobs && t in w'.db.jobs && w'.db.jobs == w.db.jobs[t := w'.db.jobs[t]]
                                    && w'.db.jobs[t].attempts == 0 && w'.db.jobs[t].attempt == NO_ID
       case Granted(t, a, n, at, until) =>
         && t in w.db.jobs && at == w'.clock && until == at + VERIFICATION_LEASE
         && n == w.db.jobs[t].attempts + 1 && 1 <= n <= MAX_ATTEMPTS
         && w.db.jobs[t].nextAt <= at && Over(w.db.jobs[t].lease, at)
         && a !in w.drawn && a in w'.drawn && a != NO_ID
         && w'.db.jobs == w.db.jobs[t := Attempted(w.db.jobs[t], at, a)]
       case Decided(t, a, v, at) =>
         && t in w.db.jobs && at == w'.clock && Fenced(w.db.jobs[t], at, a)
         && w'.db.jobs == w.db.jobs[t := Settled(w.db.jobs[t], at, v)]
       case Refilled(t, u, at) =>
         && t in w.db.jobs && at == w'.clock && Over(w.db.jobs[t].lease, at)
         && w.db.jobs[t].attempts == MAX_ATTEMPTS
         && w'.db.jobs == w.db.jobs[t := w.db.jobs[t].(attempts := 0, nextAt := at, attempt := NO_ID, lease := None)]
       case AlertLeased(t, _, at) =>
         && t in w.db.jobs && at == w'.clock && Over(w.db.jobs[t].lease, at)
         && w'.db.jobs == w.db.jobs
       case _ => w'.db.jobs == w.db.jobs
  }

  lemma PostEffect(w: World, op: Op)
    requires Allowed(w, op) && op.OpPost? && Apply(w.db, op).note.Some?
    ensures JobStep(w, Step(w, op), Apply(w.db, op).note.value)
  {
  }

  lemma GrantEffect(w: World, op: Op)
    requires Joint(w.db) && Allowed(w, op) && op.OpGrant? && Apply(w.db, op).note.Some?
    ensures JobStep(w, Step(w, op), Apply(w.db, op).note.value)
  {
  }

  lemma VerifyEffect(w: World, op: Op)
    requires Joint(w.db) && Allowed(w, op) && op.OpVerify? && Apply(w.db, op).note.Some?
    ensures JobStep(w, Step(w, op), Apply(w.db, op).note.value)
  {
    assert RowOk(w.db, op.review.task);
  }

  lemma RetryEffect(w: World, op: Op)
    requires Joint(w.db) && Allowed(w, op) && op.OpRetry? && Apply(w.db, op).note.Some?
    ensures JobStep(w, Step(w, op), Apply(w.db, op).note.value)
  {
  }

  lemma LeaseAlertEffect(w: World, op: Op)
    requires Allowed(w, op) && op.OpLeaseAlert? && Apply(w.db, op).note.Some?
    ensures JobStep(w, Step(w, op), Apply(w.db, op).note.value)
  {
  }

  lemma Effect(w: World, op: Op)
    requires Joint(w.db) && Allowed(w, op) && Apply(w.db, op).note.Some?
    ensures JobStep(w, Step(w, op), Apply(w.db, op).note.value)
  {
    match op
    case OpPost(_, _, _, _) => PostEffect(w, op);
    case OpGrant(_, _, _, _) => GrantEffect(w, op);
    case OpVerify(_, _, _) => VerifyEffect(w, op);
    case OpRetry(_, _, _) => RetryEffect(w, op);
    case OpLeaseAlert(_, _) => LeaseAlertEffect(w, op);
    case _ =>
  }

  lemma SilentPost(db: Tables, received: int, now: int, id: Id, m: Message)
    requires Post(db, received, now, id, m).note.None?
    ensures Post(db, received, now, id, m).tables.jobs == db.jobs
  {
  }

  lemma SilentVerify(db: Tables, now: int, visible: bool, r: Review)
    requires Verify(db, now, visible, r).note.None?
    ensures Verify(db, now, visible, r).tables == db
  {
  }

  lemma SilentEffect(w: World, op: Op)
    requires Joint(w.db) && Apply(w.db, op).note.None?
    ensures Step(w, op).db.jobs == w.db.jobs && Step(w, op).log == w.log
  {
    match op
    case OpReopen(_) => ReopenKeepsJobs(w.db);
    case OpPost(at, received, id, m) => SilentPost(w.db, received, at, id, m);
    case OpVerify(at, visible, review) => SilentVerify(w.db, at, visible, review);
    case _ => SilentOther(w.db, op);
  }

  lemma SilentOther(db: Tables, op: Op)
    requires !op.OpReopen? && !op.OpPost? && !op.OpVerify? && Apply(db, op).note.None?
    ensures Apply(db, op).tables.jobs == db.jobs
  {
  }

  // ----- preservation -----

  lemma SilentKeepsGood(w: World, w': World)
    requires Good(w) && w'.db.jobs == w.db.jobs && w'.log == w.log && w.clock <= w'.clock && w.drawn <= w'.drawn
    ensures Good(w')
  {
    forall i | 0 <= i < |w.log| && w.log[i].Granted?
      ensures GrantLinked(w', w.log[i]) && LivenessLinked(w', i)
      ensures RoundLinked(w', i)
    {
      assert GrantLinked(w, w.log[i]) && LivenessLinked(w, i);
      SilentRound(w, w', i);
    }
    forall t | t in w'.db.jobs && w'.db.jobs[t].attempt != NO_ID ensures CurrentLinked(w', t) {
      assert CurrentLinked(w, t);
    }
    forall t ensures Balanced(w', t) {
      assert Balanced(w, t);
    }
  }

  lemma SilentRound(w: World, w': World, i: int)
    requires w'.db.jobs == w.db.jobs && w'.log == w.log && w.clock <= w'.clock
    requires 0 <= i < |w.log| && w.log[i].Granted? && w.log[i].task in w.db.jobs && RoundLinked(w, i)
    ensures RoundLinked(w', i)
  {
  }

  lemma StepBalances(w: World, w': World, e: Event, t: Id)
    requires JobStep(w, w', e) && Balanced(w, t)
    ensures Balanced(w', t)
  {
    TallySnoc(w.log, e, t, Grants);
    TallySnoc(w.log, e, t, Refills);
  }

  lemma AnsweredGrows(log: seq<Event>, e: Event, i: int)
    requires 0 <= i < |log| && log[i].Granted? && Answered(log, i)
    ensures Answered(log + [e], i)
  {
    var m :| i < m < |log| && DecidedBy(log[m], log[i].task, log[i].attempt);
    assert (log + [e])[m] == log[m];
  }

  lemma LivenessKept(w: World, w': World, e: Event, i: int)
    requires JobStep(w, w', e)
    requires 0 <= i < |w.log| && w.log[i].Granted? && GrantLinked(w, w.log[i]) && LivenessLinked(w, i)
    ensures LivenessLinked(w', i)
  {
    if Answered(w.log, i) {
      AnsweredGrows(w.log, e, i);
    } else if e.Decided? && e.task == w.log[i].task && w.clock < w.log[i].until && w'.clock < w.log[i].until {
      assert DecidedBy(w'.log[|w.log|], w.log[i].task, w.log[i].attempt);
    }
  }

  lemma DelaysStep(a: nat, b: nat)
    ensures Delays(a, b + 1) == Delays(a, b) + 60 * Pow2(b)
    ensures a <= b ==> Pow2(a) <= Pow2(b)
    ensures b < MAX_ATTEMPTS ==> Backoff(b + 1) == 60 * Pow2(b)
  {
    if a < b {
      DelaysStep(a, b - 1);
    }
  }

  lemma NoVerdictBefore(log: seq<Event>, e: Event, t: Id, i: int)
    requires 0 <= i < |log| && NoVerdict(log + [e], t, i, |log| + 1)
    ensures NoVerdict(log, t, i, |log|) && !(e.Decided? && e.task == t)
  {
    forall m | i < m < |log| ensures !(log[m].Decided? && log[m].task == t) {
      assert (log + [e])[m] == log[m];
    }
    assert (log + [e])[|log|] == e;
  }

  lemma SameRoundBefore(log: seq<Event>, e: Event, t: Id, i: int)
    requires 0 <= i < |log| && SameRound(log + [e], t, i, |log| + 1)
    ensures SameRound(log, t, i, |log|) && !(e.Refilled? && e.task == t)
  {
    forall m | i < m < |log| ensures !(log[m].Refilled? && log[m].task == t) {
      assert (log + [e])[m] == log[m];
    }
    assert (log + [e])[|log|] == e;
  }

  /** What the bound on the next grant comes to for a grant `number` made at `at`. */
  predicate Bounded(at: int, number: int, job: Job, clock: int, silent: bool) {
    && 1 <= number <= job.attempts <= MAX_ATTEMPTS
    && at + Delays(number - 1, job.attempts - 1) <= clock
    && at + Delays(number - 1, job.attempts) <= job.nextAt
    && (silent ==> at + VERIFICATION_LEASE * (job.attempts - number + 1) + Delays(number - 1, job.attempts) <= job.nextAt)
  }

  lemma GrantKeepsBound(at: int, number: int, job: Job, clock: int, silent: bool, now: int, attempt: Id)
    requires Bounded(at, number, job, clock, silent) && job.attempts < MAX_ATTEMPTS && job.nextAt <= now
    ensures Bounded(at, number, Attempted(job, now, attempt), now, silent)
  {
    RoundArithmetic(number, job.attempts);
  }

  lemma VerdictKeepsBound(at: int, number: int, job: Job, clock: int, silent: bool, now: int, verdict: Verdict)
    requires Bounded(at, number, job, clock, silent) && clock <= now
    ensures Bounded(at, number, Settled(job, now, verdict), now, false)
  {
    RoundArithmetic(number, job.attempts);
  }

  lemma RoundKept(w: World, w': World, e: Event, i: int)
    requires JobStep(w, w', e)
    requires 0 <= i < |w.log| && w.log[i].Granted? && GrantLinked(w, w.log[i]) && RoundLinked(w, i)
    ensures RoundLinked(w', i)
  {
    var g := w.log[i];
    var t := g.task;
    if SameRound(w'.log, t, i, |w'.log|) {
      SameRoundBefore(w.log, e, t, i);
      var silent := NoVerdict(w'.log, t, i, |w'.log|);
      if silent {
        NoVerdictBefore(w.log, e, t, i);
      }
      if e.Granted? && e.task == t {
        GrantKeepsBound(g.at, g.number, w.db.jobs[t], w.clock, silent, e.at, e.attempt);
      } else if e.Decided? && e.task == t {
        assert w'.log[|w.log|] == e;
        VerdictKeepsBound(g.at, g.number, w.db.jobs[t], w.clock, NoVerdict(w.log, t, i, |w.log|), e.at, e.verdict);
      }
    }
  }

  lemma RoundArithmetic(n: int, attempts: int)
    requires 1 <= n <= attempts <= MAX_ATTEMPTS
    ensures Delays(n - 1, attempts) == Delays(n - 1, attempts - 1) + Backoff(attempts)
    ensures attempts < MAX_ATTEMPTS ==> Delays(n - 1, attempts + 1) == Delays(n - 1, attempts) + Backoff(attempts + 1)
    ensures Delays(n - 1, attempts - 1) >= 0
  {
    DelaysStep(n - 1, attempts - 1);
    if attempts < MAX_ATTEMPTS {
      DelaysStep(n - 1, attempts);
    }
  }

  lemma NewGrantLinked(w: World, w': World, e: Event)
    requires JobStep(w, w', e) && e.Granted?
    ensures GrantLinked(w', e) && LivenessLinked(w', |w.log|) && RoundLinked(w', |w.log|)
  {
    DelaysStep(e.number - 1, e.number - 1);
  }

  lemma StepKeepsLinked(w: World, w': World, e: Event)
    requires Linked(w) && JobStep(w, w', e)
    ensures Linked(w')
  {
    forall i | 0 <= i < |w'.log| && w'.log[i].Granted?
      ensures GrantLinked(w', w'.log[i]) && LivenessLinked(w', i) && RoundLinked(w', i)
    {
      if i < |w.log| {
        assert GrantLinked(w, w.log[i]);
        LivenessKept(w, w', e, i);
        RoundKept(w, w', e, i);
      } else {
        NewGrantLinked(w, w', e);
      }
    }
    StepKeepsClosed(w, w', e);
    StepKeepsCurrent(w, w', e);
    forall t ensures Balanced(w', t) {
      StepBalances(w, w', e, t);
    }
  }

  lemma StepKeepsClosed(w: World, w': World, e: Event)
    requires Linked(w) && JobStep(w, w', e)
    ensures forall i, j | 0 <= i < j < |w'.log| && w'.log[i].Granted? && Closes(w'.log[j], w'.log[i].task) ::
              w'.log[i].task in w'.db.jobs && w'.db.jobs[w'.log[i].task].attempt != w'.log[i].attempt
  {
    forall i, j | 0 <= i < j < |w'.log| && w'.log[i].Granted? && Closes(w'.log[j], w'.log[i].task)
      ensures w'.log[i].task in w'.db.jobs && w'.db.jobs[w'.log[i].task].attempt != w'.log[i].attempt
    {
      assert GrantLinked(w, w.log[i]);
      assert j < |w.log| ==> Closes(w.log[j], w.log[i].task);
    }
  }

  lemma StepKeepsCurrent(w: World, w': World, e: Event)
    requires Linked(w) && JobStep(w, w', e)
    ensures forall t | t in w'.db.jobs && w'.db.jobs[t].attempt != NO_ID :: CurrentLinked(w', t)
  {
    forall t | t in w'.db.jobs && w'.db.jobs[t].attempt != NO_ID ensures CurrentLinked(w', t) {
      if e.Granted? && e.task == t {
        assert Grant1(w'.log[|w.log|], t, e.attempt);
      } else {
        assert CurrentLinked(w, t);
        var i :| 0 <= i < |w.log| && Grant1(w.log[i], t, w.db.jobs[t].attempt) && w.db.jobs[t].lease == Some(w.log[i].until);
        assert w'.log[i] == w.log[i];
      }
    }
  }

  lemma NewGrantSpaced(w: World, w': World, e: Event, i: int)
    requires JobStep(w, w', e) && e.Granted?
    requires 0 <= i < |w.log| && w.log[i].Granted? && w.log[i].task == e.task && RoundLinked(w, i)
    ensures SpacedAt(w'.log, i, |w.log|)
  {
    PrefixAgrees(w.log, e, e.task, i, |w.log|);
  }

  lemma OldGrantSpaced(log: seq<Event>, e: Event, i: int, j: int)
    requires 0 <= i < j < |log| && log[i].Granted? && log[j].Granted? && SpacedAt(log, i, j)
    ensures SpacedAt(log + [e], i, j)
  {
    PrefixAgrees(log, e, log[i].task, i, j);
  }

  lemma StepKeepsSpaced(w: World, w': World, e: Event)
    requires Linked(w) && Spaced(w.log) && JobStep(w, w', e)
    ensures Spaced(w'.log)
  {
    forall i, j | 0 <= i < j < |w'.log| && w'.log[i].Granted? && w'.log[j].Granted? && w'.log[i].task == w'.log[j].task
      ensures SpacedAt(w'.log, i, j)
    {
      if j < |w.log| {
        OldGrantSpaced(w.log, e, i, j);
      } else {
        NewGrantSpaced(w, w', e, i);
      }
    }
  }

  lemma PrefixAgrees(log: seq<Event>, e: Event, t: Id, i: int, j: int)
    requires 0 <= i <= j <= |log|
    ensures SameRound(log + [e], t, i, j) <==> SameRound(log, t, i, j)
    ensures NoVerdict(log + [e], t, i, j) <==> NoVerdict(log, t, i, j)
  {
    forall m | i < m < j ensures (log + [e])[m] == log[m] {
    }
  }

  lemma StepKeepsOrdinal(w: World, w': World, e: Event)
    requires Linked(w) && Ordinal(w.log) && JobStep(w, w', e)
    ensures Ordinal(w'.log)
  {
    forall k | 0 <= k < |w'.log| && w'.log[k].Granted?
      ensures w'.log[k].number == Tally(w'.log[..k], w'.log[k].task, Grants)
                                  - MAX_ATTEMPTS * Tally(w'.log[..k], w'.log[k].task, Refills) + 1
    {
      if k < |w.log| {
        assert w'.log[..k] == w.log[..k];
      } else {
        assert w'.log[..k] == w.log;
        assert Balanced(w, e.task);
      }
    }
  }

  lemma StepKeepsDistinct(w: World, w': World, e: Event)
    requires Linked(w) && DistinctAttempts(w.log) && JobStep(w, w', e)
    ensures DistinctAttempts(w'.log)
  {
    forall i | 0 <= i < |w.log| && w.log[i].Granted? ensures w.log[i].attempt in w.drawn {
      assert GrantLinked(w, w.log[i]);
    }
  }

  lemma NewVerdictFenced(w: World, w': World, e: Event)
    requires Linked(w) && JobStep(w, w', e) && e.Decided? && e.attempt != NO_ID
    ensures FencedAt(w'.log, |w.log|)
  {
    assert CurrentLinked(w, e.task);
    var i :| 0 <= i < |w.log| && Grant1(w.log[i], e.task, e.attempt) && w.db.jobs[e.task].lease == Some(w.log[i].until);
    assert GrantLinked(w, w.log[i]);
    assert Grant1(w'.log[i], e.task, e.attempt);
    forall m | i < m < |w.log| ensures !Closes(w'.log[m], e.task) {
      assert w'.log[m] == w.log[m];
    }
  }

  lemma StepKeepsFenced(w: World, w': World, e: Event)
    requires Linked(w) && FencedVerdicts(w.log) && JobStep(w, w', e)
    ensures FencedVerdicts(w'.log)
  {
    forall k | 0 <= k < |w'.log| && w'.log[k].Decided? && w'.log[k].attempt != NO_ID ensures FencedAt(w'.log, k) {
      if k < |w.log| {
        assert FencedAt(w.log, k);
        var i :| 0 <= i < k && Grant1(w.log[i], w.log[k].task, w.log[k].attempt)
                 && w.log[i].at <= w.log[k].at < w.log[i].until
                 && forall m | i < m < k :: !Closes(w.log[m], w.log[k].task);
        assert Grant1(w'.log[i], w'.log[k].task, w'.log[k].attempt);
        forall m | i < m < k ensures !Closes(w'.log[m], w'.log[k].task) {
          assert w'.log[m] == w.log[m];
        }
      } else {
        NewVerdictFenced(w, w', e);
      }
    }
  }

  lemma StepKeepsOneVerdict(w: World, w': World, e: Event)
    requires Linked(w) && DistinctAttempts(w.log) && FencedVerdicts(w.log) && OneVerdictEach(w.log) && JobStep(w, w', e)
    ensures OneVerdictEach(w'.log)
  {
    if e.Decided? && e.attempt != NO_ID {
      assert CurrentLinked(w, e.task);
      var c :| 0 <= c < |w.log| && Grant1(w.log[c], e.task, e.attempt);
      forall k | 0 <= k < |w.log| && w.log[k].Decided? && w.log[k].attempt != NO_ID ensures w.log[k].attempt != e.attempt {
        assert FencedAt(w.log, k);
        var i :| 0 <= i < k && Grant1(w.log[i], w.log[k].task, w.log[k].attempt);
        assert Closes(w.log[k], w.log[i].task);
        assert w.log[k].attempt == e.attempt ==> i == c;
      }
    }
  }

  lemma StepRespectsLive(w: World, w': World, e: Event)
    requires Linked(w) && LiveAttemptsRespected(w.log) && JobStep(w, w', e)
    ensures LiveAttemptsRespected(w'.log)
  {
    forall k | 0 <= k < |w'.log| && MustWait(w'.log[k]) ensures Undisturbed(w'.log[..k], w'.log[k].task, w'.log[k].at) {
      if k < |w.log| {
        assert w'.log[..k] == w.log[..k];
      } else {
        assert w'.log[..k] == w.log;
        forall i | 0 <= i < |w.log| && w.log[i].Granted? && w.log[i].task == e.task
          ensures w.log[i].until <= e.at || Answered(w.log, i)
        {
          assert GrantLinked(w, w.log[i]) && LivenessLinked(w, i);
        }
      }
    }
  }

  lemma StepKeepsGood(w: World, op: Op)
    requires Joint(w.db) && Good(w) && Allowed(w, op)
    ensures Good(Step(w, op))
  {
    var w' := Step(w, op);
    var note := Apply(w.db, op).note;
    if note.Some? {
      Effect(w, op);
      NotedKeepsGood(w, w', note.value);
    } else {
      SilentEffect(w, op);
      SilentKeepsGood(w, w');
    }
  }

  lemma NotedKeepsGood(w: World, w': World, e: Event)
    requires Good(w) && JobStep(w, w', e)
    ensures Good(w')
  {
    StepKeepsLinked(w, w', e);
    StepKeepsSpaced(w, w', e);
    StepKeepsOrdinal(w, w', e);
    StepKeepsDistinct(w, w', e);
    StepKeepsFenced(w, w', e);
    StepKeepsOneVerdict(w, w', e);
    StepRespectsLive(w, w', e);
  }

  lemma {:induction false} GoodAlways(ops: seq<Op>)
    requires Legal(ops)
    ensures Good(Run(ops))
  {
    if ops != [] {
      var before := ops[..|ops| - 1];
      GoodAlways(before);
      JointAlways(before);
      StepKeepsGood(Run(before), ops[|ops| - 1]);
    }
  }

  // ----- the results -----

  /** Exact accounting: for every job, grants ever made = 5 * operator retries + the attempts counter, in 0..5. */
  lemma ExactAccounting(ops: seq<Op>, t: Id)
    requires Legal(ops) && t in Run(ops).db.jobs
    ensures 0 <= Run(ops).db.jobs[t].attempts <= MAX_ATTEMPTS
    ensures Tally(Run(ops).log, t, Grants) == MAX_ATTEMPTS * Tally(Run(ops).log, t, Refills) + Run(ops).db.jobs[t].attempts
    ensures Ordinal(Run(ops).log)
  {
    GoodAlways(ops);
    JointAlways(ops);
    assert Balanced(Run(ops), t);
  }

  /** Each attempt decides at most once, only while its lease is live and nothing newer happened to its job; and a
      live attempt holds up the next grant, a manual verdict, a retry and an alert. */
  lemma AttemptFencing(ops: seq<Op>)
    requires Legal(ops)
    ensures DistinctAttempts(Run(ops).log) && FencedVerdicts(Run(ops).log) && OneVerdictEach(Run(ops).log)
    ensures LiveAttemptsRespected(Run(ops).log)
  {
    GoodAlways(ops);
  }

  lemma BackoffSpacing(ops: seq<Op>)
    requires Legal(ops)
    ensures Spaced(Run(ops).log)
  {
    GoodAlways(ops);
  }

  /** From the first to the fifth grant of a round at least 15 minutes pass, and at least 35 when every attempt
      dies without a verdict. */
  lemma FifthGrant(ops: seq<Op>, i: nat, j: nat)
    requires Legal(ops) && i < j < |Run(ops).log|
    requires Run(ops).log[i].Granted? && Run(ops).log[j].Granted? && Run(ops).log[i].task == Run(ops).log[j].task
    requires SameRound(Run(ops).log, Run(ops).log[i].task, i, j)
    requires Run(ops).log[i].number == 1 && Run(ops).log[j].number == MAX_ATTEMPTS
    ensures Run(ops).log[i].at + 900 <= Run(ops).log[j].at
    ensures NoVerdict(Run(ops).log, Run(ops).log[i].task, i, j) ==> Run(ops).log[i].at + 2100 <= Run(ops).log[j].at
  {
    GoodAlways(ops);
    assert SpacedAt(Run(ops).log, i, j);
    assert Pow2(0) == 1 && Pow2(1) == 2 && Pow2(2) == 4 && Pow2(3) == 8 && Pow2(4) == 16;
    assert Delays(0, 4) == 900;
  }
}
