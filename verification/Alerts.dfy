/** Alerts about exhausted verifications, over whole runs: who may acknowledge, and how often one goes out. */
module Alerts {
  import opened Common
  import opened Protocol
  import opened ProtocolInvariant
  import opened Attempts

  predicate LeasedAlert(e: Event, t: Id, token: Id) {
    e.AlertLeased? && e.task == t && e.token == token
  }

  /** Takes the right to acknowledge away from every earlier token for `t`. */
  predicate Ends(e: Event, t: Id) {
    (e.AlertLeased? || e.AlertSent? || e.Refilled?) && e.task == t
  }

  predicate Settles(e: Event, t: Id) {
    (e.AlertSent? || e.Refilled?) && e.task == t
  }

  // ----- what the history of a run satisfies -----

  ghost predicate Unsettled(log: seq<Event>, t: Id, i: int, j: int)
    requires 0 <= i <= j <= |log|
  {
    forall m | i < m < j :: !Settles(log[m], t)
  }

  /** An effective acknowledgement carries the latest token handed out for its task, in the same round. */
  ghost predicate AckedAt(log: seq<Event>, k: int)
    requires 0 <= k < |log| && log[k].AlertSent?
  {
    exists i | 0 <= i < k && LeasedAlert(log[i], log[k].task, log[k].token) :: forall m | i < m < k :: !Ends(log[m], log[k].task)
  }

  ghost predicate Acked(log: seq<Event>) {
    forall k | 0 <= k < |log| && log[k].AlertSent? :: AckedAt(log, k)
  }

  /** Tokens differ, and while an alert is neither acknowledged nor overtaken by a retry its lease excludes others. */
  ghost predicate TokensApart(log: seq<Event>) {
    forall i, j | 0 <= i < j < |log| && log[i].AlertLeased? && log[j].AlertLeased? ::
      log[i].token != log[j].token
      && (log[i].task == log[j].task && Unsettled(log, log[i].task, i, j) ==> log[i].at + ALERT_LEASE <= log[j].at)
  }

  /** Once an alert has gone out, nothing more is sent for the task until an operator retries it. */
  ghost predicate OncePerRound(log: seq<Event>) {
    forall i, j | 0 <= i < j < |log| && log[i].AlertSent? && (log[j].AlertLeased? || log[j].AlertSent?) && log[i].task == log[j].task ::
      !SameRound(log, log[i].task, i, j)
  }

  /** Alerts and retries concern a task whose round has had all its five grants. */
  ghost predicate Spent(log: seq<Event>) {
    forall k | 0 <= k < |log| && (log[k].AlertLeased? || log[k].Refilled?) ::
      Tally(log[..k], log[k].task, Grants) == MAX_ATTEMPTS * (Tally(log[..k], log[k].task, Refills) + 1)
  }

  // ----- how the history and the alert table hang together -----

  ghost predicate TokenLinked(w: World, i: int)
    requires 0 <= i < |w.log| && w.log[i].AlertLeased?
  {
    var e := w.log[i];
    && e.token in w.drawn && e.token != NO_ID
    && e.task in w.db.alerts
    && (Unsettled(w.log, e.task, i, |w.log|) ==>
          w.db.alerts[e.task].lease.Some? && e.at + ALERT_LEASE <= w.db.alerts[e.task].lease.value)
  }

  ghost predicate CurrentToken(w: World, t: Id)
    requires t in w.db.alerts && w.db.alerts[t].token != NO_ID
  {
    exists i | 0 <= i < |w.log| :: LeasedAlert(w.log[i], t, w.db.alerts[t].token)
  }

  predicate SentFlag(w: World, t: Id) {
    t in w.db.alerts && w.db.alerts[t].sent
  }

  ghost predicate SentOften(w: World, t: Id) {
    Tally(w.log, t, Sent) <= Tally(w.log, t, Refills) + if SentFlag(w, t) then 1 else 0
  }

  ghost predicate AlertsLinked(w: World) {
    && (forall i | 0 <= i < |w.log| && w.log[i].AlertLeased? :: TokenLinked(w, i))
    && (forall t | t in w.db.alerts && w.db.alerts[t].token != NO_ID :: CurrentToken(w, t))
    && (forall i, j | 0 <= i < j < |w.log| && w.log[i].AlertLeased? && Ends(w.log[j], w.log[i].task) ::
          w.log[i].task in w.db.alerts && w.db.alerts[w.log[i].task].token != w.log[i].token)
    && (forall i | 0 <= i < |w.log| && w.log[i].AlertSent? && SameRound(w.log, w.log[i].task, i, |w.log|) ::
          SentFlag(w, w.log[i].task))
    && (forall t :: SentOften(w, t))
  }

  ghost predicate AlertHistory(log: seq<Event>) {
    Acked(log) && TokensApart(log) && OncePerRound(log) && Spent(log)
  }

  ghost predicate AlertsGood(w: World) {
    AlertsLinked(w) && AlertHistory(w.log)
  }

  // ----- what a transaction does to the alerts -----

  ghost predicate AlertStep(w: World, w': World, e: Event) {
    && w'.log == w.log + [e]
    && w.clock <= w'.clock && w.drawn <= w'.drawn
    && match e
       case AlertLeased(t, k, at) =>
         && at == w'.clock && k !in w.drawn && k in w'.drawn && k != NO_ID
         && t in w.db.jobs && w.db.jobs[t].attempts == MAX_ATTEMPTS
         && (t in w.db.alerts ==> !w.db.alerts[t].sent && Over(w.db.alerts[t].lease, at))
         && t in w'.db.alerts && w'.db.alerts[t] == Alert(false, Some(at + ALERT_LEASE), k)
         && (forall u | u in w.db.alerts && u != t :: u in w'.db.alerts && w'.db.alerts[u] == w.db.alerts[u])
         && (forall u | u in w'.db.alerts && u !in w.db.alerts && u != t :: w'.db.alerts[u] == Alert(false, None, NO_ID))
       case AlertSent(t, k, at) =>
         && at == w'.clock
         && t in w.db.alerts && w.db.alerts[t].token == k && k != NO_ID && !w.db.alerts[t].sent
         && w'.db.alerts == w.db.alerts[t := Alert(true, None, NO_ID)]
       case Refilled(t, _, at) =>
         && at == w'.clock
         && t in w.db.jobs && w.db.jobs[t].attempts == MAX_ATTEMPTS
         && w'.db.alerts == if t in w.db.alerts then w.db.alerts[t := Alert(false, None, NO_ID)] else w.db.alerts
       case _ => w'.db.alerts == w.db.alerts
  }

  lemma SendingEffect(w: World, w': World, rows: map<Id, Alert>, t: Id, token: Id)
    requires RowsAdded(w.db.alerts, rows)
    requires t in rows && !rows[t].sent && Over(rows[t].lease, w'.clock)
    requires t in w.db.jobs && w.db.jobs[t].attempts == MAX_ATTEMPTS
    requires w.clock <= w'.clock && w'.drawn == w.drawn + {token} && token !in w.drawn && token != NO_ID
    requires w'.db.alerts == rows[t := Alert(false, Some(w'.clock + ALERT_LEASE), token)]
    requires w'.log == w.log + [AlertLeased(t, token, w'.clock)]
    ensures AlertStep(w, w', AlertLeased(t, token, w'.clock))
  {
  }

  lemma LeaseAlertEffect(w: World, op: Op)
    requires Joint(w.db) && Allowed(w, op) && op.OpLeaseAlert? && Apply(w.db, op).note.Some?
    ensures AlertStep(w, Step(w, op), Apply(w.db, op).note.value)
  {
    var t := AlertChosen(w.db, op.at, op.id);
    assert w.db.jobs[t].attempts == MAX_ATTEMPTS by {
      assert JobOk(w.db.jobs[t]);
    }
    ChosenEffect(w, op, t);
  }

  lemma ChosenEffect(w: World, op: Op, t: Id)
    requires Allowed(w, op) && op.OpLeaseAlert? && Alertable(w.db, op.at, WithAlertRows(w.db, op.at), t)
    requires w.db.jobs[t].attempts == MAX_ATTEMPTS
    requires Apply(w.db, op) == SendingAlert(w.db, op.at, WithAlertRows(w.db, op.at), t, op.id)
    ensures Apply(w.db, op).note == Some(AlertLeased(t, op.id, op.at))
    ensures AlertStep(w, Step(w, op), AlertLeased(t, op.id, op.at))
  {
    RowsAreAdded(w.db, op.at);
    SendingEffect(w, Step(w, op), WithAlertRows(w.db, op.at), t, op.id);
  }

  lemma AckEffect(w: World, op: Op)
    requires Joint(w.db) && Allowed(w, op) && op.OpAckAlert? && Apply(w.db, op).note.Some?
    ensures AlertStep(w, Step(w, op), Apply(w.db, op).note.value)
  {
    assert AlertOk(w.db, op.task);
  }

  lemma RetryEffect(w: World, op: Op)
    requires Joint(w.db) && Allowed(w, op) && op.OpRetry? && Apply(w.db, op).note.Some?
    ensures AlertStep(w, Step(w, op), Apply(w.db, op).note.value)
  {
  }

  lemma OtherEffect(w: World, op: Op)
    requires Joint(w.db) && Allowed(w, op) && !op.OpLeaseAlert? && !op.OpAckAlert? && !op.OpRetry?
    requires Apply(w.db, op).note.Some?
    ensures AlertStep(w, Step(w, op), Apply(w.db, op).note.value)
  {
    var e := Apply(w.db, op).note.value;
    assert !e.AlertLeased? && !e.AlertSent? && !e.Refilled?;
    AlertsUntouched(w.db, op);
  }

  lemma AlertsUntouched(db: Tables, op: Op)
    requires !op.OpLeaseAlert? && !op.OpAckAlert? && !op.OpRetry?
    ensures Apply(db, op).tables.alerts == db.alerts
  {
  }

  lemma AlertsSilent(db: Tables, op: Op)
    requires Apply(db, op).note.None?
    ensures Apply(db, op).tables.alerts == db.alerts
  {
    if !op.OpLeaseAlert? && !op.OpAckAlert? && !op.OpRetry? {
      AlertsUntouched(db, op);
    }
  }

  lemma AlertEffect(w: World, op: Op)
    requires Joint(w.db) && Allowed(w, op) && Apply(w.db, op).note.Some?
    ensures AlertStep(w, Step(w, op), Apply(w.db, op).note.value)
  {
    match op
    case OpLeaseAlert(_, _) => LeaseAlertEffect(w, op);
    case OpAckAlert(_, _, _) => AckEffect(w, op);
    case OpRetry(_, _, _) => RetryEffect(w, op);
    case _ => OtherEffect(w, op);
  }

  // ----- preservation -----

  lemma UnsettledGrows(log: seq<Event>, e: Event, t: Id, i: int)
    requires 0 <= i < |log|
    ensures Unsettled(log + [e], t, i, |log| + 1) <==> Unsettled(log, t, i, |log|) && !Settles(e, t)
    ensures SameRound(log + [e], t, i, |log| + 1) <==> SameRound(log, t, i, |log|) && !(e.Refilled? && e.task == t)
  {
    var log' := log + [e];
    assert log'[|log|] == e;
    forall m | i < m < |log| ensures log'[m] == log[m] {
    }
  }

  lemma UnsettledPrefix(log: seq<Event>, e: Event, t: Id, i: int, j: int)
    requires 0 <= i <= j <= |log|
    ensures Unsettled(log + [e], t, i, j) <==> Unsettled(log, t, i, j)
    ensures SameRound(log + [e], t, i, j) <==> SameRound(log, t, i, j)
  {
    forall m | i < m < j ensures (log + [e])[m] == log[m] {
    }
  }

  lemma StepKeepsTokens(w: World, w': World, e: Event)
    requires AlertsLinked(w) && AlertStep(w, w', e)
    ensures forall i | 0 <= i < |w'.log| && w'.log[i].AlertLeased? :: TokenLinked(w', i)
  {
    forall i | 0 <= i < |w'.log| && w'.log[i].AlertLeased? ensures TokenLinked(w', i) {
      if i < |w.log| {
        assert TokenLinked(w, i);
        UnsettledGrows(w.log, e, w.log[i].task, i);
      }
    }
  }

  lemma StepKeepsCurrentToken(w: World, w': World, e: Event)
    requires AlertsLinked(w) && AlertStep(w, w', e)
    ensures forall t | t in w'.db.alerts && w'.db.alerts[t].token != NO_ID :: CurrentToken(w', t)
  {
    forall t | t in w'.db.alerts && w'.db.alerts[t].token != NO_ID ensures CurrentToken(w', t) {
      if e.AlertLeased? && e.task == t {
        assert LeasedAlert(w'.log[|w.log|], t, e.token);
      } else {
        assert CurrentToken(w, t);
        var i :| 0 <= i < |w.log| && LeasedAlert(w.log[i], t, w.db.alerts[t].token);
        assert w'.log[i] == w.log[i];
      }
    }
  }

  lemma StepKeepsEnded(w: World, w': World, e: Event)
    requires AlertsLinked(w) && AlertStep(w, w', e)
    ensures forall i, j | 0 <= i < j < |w'.log| && w'.log[i].AlertLeased? && Ends(w'.log[j], w'.log[i].task) ::
              w'.log[i].task in w'.db.alerts && w'.db.alerts[w'.log[i].task].token != w'.log[i].token
  {
    forall i, j | 0 <= i < j < |w'.log| && w'.log[i].AlertLeased? && Ends(w'.log[j], w'.log[i].task)
      ensures w'.log[i].task in w'.db.alerts && w'.db.alerts[w'.log[i].task].token != w'.log[i].token
    {
      assert TokenLinked(w, i);
      assert j < |w.log| ==> Ends(w.log[j], w.log[i].task);
    }
  }

  lemma StepKeepsSentFlag(w: World, w': World, e: Event)
    requires AlertsLinked(w) && AlertStep(w, w', e)
    ensures forall i | 0 <= i < |w'.log| && w'.log[i].AlertSent? && SameRound(w'.log, w'.log[i].task, i, |w'.log|) ::
              SentFlag(w', w'.log[i].task)
  {
    forall i | 0 <= i < |w'.log| && w'.log[i].AlertSent? && SameRound(w'.log, w'.log[i].task, i, |w'.log|)
      ensures SentFlag(w', w'.log[i].task)
    {
      if i < |w.log| {
        UnsettledGrows(w.log, e, w.log[i].task, i);
        assert SentFlag(w, w.log[i].task);
      }
    }
  }

  lemma StepKeepsSentOften(w: World, w': World, e: Event, t: Id)
    requires SentOften(w, t) && AlertStep(w, w', e)
    ensures SentOften(w', t)
  {
    TallySnoc(w.log, e, t, Sent);
    TallySnoc(w.log, e, t, Refills);
  }

  lemma StepKeepsSent(w: World, w': World, e: Event)
    requires AlertsLinked(w) && AlertStep(w, w', e)
    ensures forall i | 0 <= i < |w'.log| && w'.log[i].AlertSent? && SameRound(w'.log, w'.log[i].task, i, |w'.log|) ::
              SentFlag(w', w'.log[i].task)
    ensures forall t :: SentOften(w', t)
  {
    StepKeepsSentFlag(w, w', e);
    forall t ensures SentOften(w', t) {
      StepKeepsSentOften(w, w', e, t);
    }
  }

  lemma StepKeepsAcked(w: World, w': World, e: Event)
    requires AlertsLinked(w) && Acked(w.log) && AlertStep(w, w', e)
    ensures Acked(w'.log)
  {
    forall k | 0 <= k < |w'.log| && w'.log[k].AlertSent? ensures AckedAt(w'.log, k) {
      if k < |w.log| {
        assert AckedAt(w.log, k);
        var i :| 0 <= i < k && LeasedAlert(w.log[i], w.log[k].task, w.log[k].token)
                 && forall m | i < m < k :: !Ends(w.log[m], w.log[k].task);
        assert LeasedAlert(w'.log[i], w'.log[k].task, w'.log[k].token);
        forall m | i < m < k ensures !Ends(w'.log[m], w'.log[k].task) {
          assert w'.log[m] == w.log[m];
        }
      } else {
        NewAck(w, w', e);
      }
    }
  }

  lemma NewAck(w: World, w': World, e: Event)
    requires AlertsLinked(w) && AlertStep(w, w', e) && e.AlertSent?
    ensures AckedAt(w'.log, |w.log|)
  {
    assert CurrentToken(w, e.task);
    var i :| 0 <= i < |w.log| && LeasedAlert(w.log[i], e.task, e.token);
    assert LeasedAlert(w'.log[i], e.task, e.token);
    forall m | i < m < |w.log| ensures !Ends(w'.log[m], e.task) {
      assert w'.log[m] == w.log[m];
    }
  }

  lemma StepKeepsApart(w: World, w': World, e: Event)
    requires AlertsLinked(w) && TokensApart(w.log) && AlertStep(w, w', e)
    ensures TokensApart(w'.log)
  {
    forall i, j | 0 <= i < j < |w'.log| && w'.log[i].AlertLeased? && w'.log[j].AlertLeased?
      ensures w'.log[i].token != w'.log[j].token
      ensures w'.log[i].task == w'.log[j].task && Unsettled(w'.log, w'.log[i].task, i, j) ==>
                w'.log[i].at + ALERT_LEASE <= w'.log[j].at
    {
      assert TokenLinked(w, i);
      UnsettledPrefix(w.log, e, w.log[i].task, i, j);
    }
  }

  lemma StepKeepsOnce(w: World, w': World, e: Event)
    requires AlertsLinked(w) && OncePerRound(w.log) && AlertStep(w, w', e)
    ensures OncePerRound(w'.log)
  {
    forall i, j | 0 <= i < j < |w'.log| && w'.log[i].AlertSent? && (w'.log[j].AlertLeased? || w'.log[j].AlertSent?)
                  && w'.log[i].task == w'.log[j].task
      ensures !SameRound(w'.log, w'.log[i].task, i, j)
    {
      UnsettledPrefix(w.log, e, w.log[i].task, i, j);
      assert j == |w.log| ==> SameRound(w.log, w.log[i].task, i, |w.log|) ==> SentFlag(w, w.log[i].task);
    }
  }

  lemma StepKeepsSpent(w: World, w': World, e: Event)
    requires Linked(w) && Spent(w.log) && AlertStep(w, w', e)
    ensures Spent(w'.log)
  {
    forall k | 0 <= k < |w'.log| && (w'.log[k].AlertLeased? || w'.log[k].Refilled?)
      ensures Tally(w'.log[..k], w'.log[k].task, Grants) == MAX_ATTEMPTS * (Tally(w'.log[..k], w'.log[k].task, Refills) + 1)
    {
      if k < |w.log| {
        assert w'.log[..k] == w.log[..k];
      } else {
        assert w'.log[..k] == w.log;
        assert Balanced(w, e.task);
      }
    }
  }

  lemma NotedKeepsAlerts(w: World, w': World, e: Event)
    requires Linked(w) && AlertsGood(w) && AlertStep(w, w', e)
    ensures AlertsGood(w')
  {
    StepKeepsTokens(w, w', e);
    StepKeepsCurrentToken(w, w', e);
    StepKeepsEnded(w, w', e);
    StepKeepsSent(w, w', e);
    StepKeepsAcked(w, w', e);
    StepKeepsApart(w, w', e);
    StepKeepsOnce(w, w', e);
    StepKeepsSpent(w, w', e);
  }

  lemma SilentKeepsAlerts(w: World, w': World)
    requires AlertsGood(w) && w'.db.alerts == w.db.alerts && w'.log == w.log && w.drawn <= w'.drawn
    ensures AlertsGood(w')
  {
    forall i | 0 <= i < |w'.log| && w'.log[i].AlertLeased? ensures TokenLinked(w', i) {
      assert TokenLinked(w, i);
    }
    forall t | t in w'.db.alerts && w'.db.alerts[t].token != NO_ID ensures CurrentToken(w', t) {
      assert CurrentToken(w, t);
    }
    forall t ensures SentOften(w', t) {
      assert SentOften(w, t);
    }
    forall i | 0 <= i < |w'.log| && w'.log[i].AlertSent? && SameRound(w'.log, w'.log[i].task, i, |w'.log|)
      ensures SentFlag(w', w'.log[i].task)
    {
      assert SentFlag(w, w.log[i].task);
    }
  }

  lemma {:induction false} AlertsAlways(ops: seq<Op>)
    requires Legal(ops)
    ensures AlertsGood(Run(ops))
  {
    if ops != [] {
      var before := ops[..|ops| - 1];
      var op := ops[|ops| - 1];
      AlertsAlways(before);
      GoodAlways(before);
      JointAlways(before);
      if Apply(Run(before).db, op).note.Some? {
        AlertEffect(Run(before), op);
        NotedKeepsAlerts(Run(before), Run(ops), Apply(Run(before).db, op).note.value);
      } else {
        AlertsSilent(Run(before).db, op);
        SilentKeepsAlerts(Run(before), Run(ops));
      }
    }
  }

  // ----- the results -----

  lemma AlertFencing(ops: seq<Op>)
    requires Legal(ops)
    ensures AlertHistory(Run(ops).log)
    ensures forall t | t in Run(ops).db.alerts && (Run(ops).db.alerts[t].sent || Run(ops).db.alerts[t].token != NO_ID) ::
              t in Run(ops).db.jobs && Run(ops).db.jobs[t].attempts == MAX_ATTEMPTS
  {
    AlertsAlways(ops);
    JointAlways(ops);
    forall t | t in Run(ops).db.alerts ensures AlertOk(Run(ops).db, t) {
    }
  }

  /** An acknowledgement whose token was overtaken by a new lease, an acknowledgement or a retry changes nothing. */
  lemma StaleAckIsPowerless(ops: seq<Op>, i: nat, j: nat, now: int)
    requires Legal(ops) && i < j < |Run(ops).log|
    requires Run(ops).log[i].AlertLeased? && Ends(Run(ops).log[j], Run(ops).log[i].task)
    ensures AckAlert(Run(ops).db, now, Run(ops).log[i].task, Run(ops).log[i].token) == Refuse(Run(ops).db, Done)
  {
    AlertsAlways(ops);
  }

  /** The empty token is no token: acknowledging with it would mark an alert as sent exactly when its row waits to be
      leased, so callers must not, and the one caller never does. */
  lemma EmptyTokenExactly(ops: seq<Op>, now: int, t: Id)
    requires Legal(ops)
    ensures AckAlert(Run(ops).db, now, t, NO_ID).tables != Run(ops).db <==>
              t in Run(ops).db.alerts && Run(ops).db.alerts[t] == Alert(false, None, NO_ID)
  {
    assert t in Run(ops).db.alerts ==> AlertOk(Run(ops).db, t) by {
      JointAlways(ops);
    }
    EmptyAck(Run(ops).db, now, t);
  }

  lemma EmptyAck(db: Tables, now: int, t: Id)
    requires t in db.alerts ==> AlertOk(db, t)
    ensures AckAlert(db, now, t, NO_ID).tables != db <==> t in db.alerts && db.alerts[t] == Alert(false, None, NO_ID)
  {
    if t in db.alerts && db.alerts[t].token == NO_ID {
      assert AckAlert(db, now, t, NO_ID).tables.alerts[t] == Alert(true, None, NO_ID);
      assert db.alerts[t := db.alerts[t]] == db.alerts;
    }
  }

  /** An alert is sent at most once more often than the operator retried the task. */
  lemma AlertsSentAtMost(ops: seq<Op>, t: Id)
    requires Legal(ops)
    ensures Tally(Run(ops).log, t, Sent) <= Tally(Run(ops).log, t, Refills) + 1
  {
    AlertsAlways(ops);
    assert SentOften(Run(ops), t);
  }
}
