/** The task, claim and verification protocol: the tables it keeps and one function per transaction.

    Each function maps the tables before a transaction to the tables after it, the reply its caller
    gets and the entry the transaction adds to the history of the run (if it changes a lease, an
    attempt or a verdict). Stamps are whole seconds; a `None` stamp is the empty or NULL column, which
    sorts below every stamp. What a caller may see is decided elsewhere and arrives as a parameter. */
module Protocol {
  import opened Common
  import TextOrder

  const TASK_LEASE := 300
  const VERIFICATION_LEASE := 300
  const ALERT_LEASE := 120
  const MAX_ATTEMPTS := 5

  datatype Status = Open | Claimed | Submitted | Completed | Failed

  datatype Kind = Result | Other

  datatype Verdict = Verified | Rejected | Inconclusive

  datatype Task = Task(
    status: Status, owner: Option<Id>, claim: Option<Id>, claimedAt: Option<int>, lease: Option<int>,
    submitted: Option<Id>, createdBy: Id, key: Option<string>, createdAt: int)

  /** `claim` is what the payload says: `None` when it is not a RESULT payload at all. */
  datatype Message = Message(
    kind: Kind, sender: Id, recipient: Id, task: Option<Id>, claim: Option<Id>, number: nat)

  datatype Job = Job(message: Id, attempts: int, nextAt: int, attempt: Id, lease: Option<int>, done: bool)

  datatype Verification = Verification(id: Id, task: Id, verifier: Id, target: Id, verdict: Verdict, at: int)

  datatype Alert = Alert(sent: bool, lease: Option<int>, token: Id)

  datatype Tables = Tables(
    tasks: map<Id, Task>,
    messages: map<Id, Message>,
    nextSeq: nat,
    jobs: map<Id, Job>,
    verifications: seq<Verification>,
    alerts: map<Id, Alert>,
    retries: map<int, Id>)

  /** What a transaction reports to its caller. */
  datatype Reply =
    | Done
    | Nothing
    | Existing(id: Id)
    | Handed(task: Id)
    | NotFound
    | Conflict
    | Invalid
    | Denied
    | Internal

  /** The history of a run: every change of a worker lease, a verification attempt, a verdict or an alert. */
  datatype Event =
    | Leased(task: Id, claim: Id, opening: bool, at: int, until: int)
    | Accepted(task: Id, claim: Id, message: Id, at: int)
    | Granted(task: Id, attempt: Id, number: int, at: int, until: int)
    | Decided(task: Id, attempt: Id, verdict: Verdict, at: int)
    | Refilled(task: Id, update: int, at: int)
    | AlertLeased(task: Id, token: Id, at: int)
    | AlertSent(task: Id, token: Id, at: int)

  datatype Tx = Tx(tables: Tables, reply: Reply, note: Option<Event>)

  function Refuse(db: Tables, reply: Reply): Tx {
    Tx(db, reply, None)
  }

  const EMPTY := Tables(map[], map[], 1, map[], [], map[], map[])

  predicate Over(lease: Option<int>, now: int) {
    lease.None? || lease.value <= now
  }

  function Pow2(n: nat): (p: nat)
    ensures p >= 1
  {
    if n == 0 then 1 else 2 * Pow2(n - 1)
  }

  /** Delay in seconds after attempt number `attempts`: one minute, doubled each time, clamped to 1..5. */
  function Backoff(attempts: int): (delay: int)
    ensures 60 <= delay <= 960
  {
    var n := if attempts < 1 then 1 else if attempts > MAX_ATTEMPTS then MAX_ATTEMPTS else attempts;
    assert Pow2(4) == 16 && Pow2(3) == 8 && Pow2(2) == 4 && Pow2(1) == 2;
    60 * Pow2(n - 1)
  }

  // ----- tasks -----

  predicate Stale(task: Task, now: int) {
    task.status == Claimed && (task.claim.None? || (task.lease.Some? && task.lease.value <= now))
  }

  function Freed(task: Task): Task {
    task.(status := Open, owner := None, claimedAt := None, lease := None, claim := None, submitted := None)
  }

  function Requeue(db: Tables, now: int): Tx {
    Tx(db.(tasks := map t | t in db.tasks :: if Stale(db.tasks[t], now) then Freed(db.tasks[t]) else db.tasks[t]),
       Done, None)
  }

  predicate Holds(db: Tables, now: int, t: Id, agent: Id, claim: Id) {
    && t in db.tasks
    && db.tasks[t].status == Claimed
    && db.tasks[t].owner == Some(agent)
    && db.tasks[t].claim == Some(claim)
    && db.tasks[t].lease.Some?
    && db.tasks[t].lease.value > now
  }

  /** The heartbeat's own statement; the requeue before it is a transaction of its own. */
  function Extend(db: Tables, now: int, t: Id, agent: Id, claim: Id): Tx {
    if Holds(db, now, t, agent, claim) then
      Tx(db.(tasks := db.tasks[t := db.tasks[t].(lease := Some(now + TASK_LEASE))]), Done,
         Some(Leased(t, claim, false, now, now + TASK_LEASE)))
    else
      Refuse(db, Conflict)
  }

  predicate KeyTaken(db: Tables, createdBy: Id, key: Option<string>, t: Id) {
    t in db.tasks && key.Some? && db.tasks[t].createdBy == createdBy && db.tasks[t].key == key
  }

  ghost function Create(db: Tables, now: int, id: Id, createdBy: Id, key: Option<string>): Tx {
    if exists t :: KeyTaken(db, createdBy, key, t) then
      var t :| KeyTaken(db, createdBy, key, t);
      Refuse(db, Existing(t))
    else
      Tx(db.(tasks := db.tasks[id := Task(Open, None, None, None, None, None, createdBy, key, now)]), Done, None)
  }

  /** The compare-and-swap from OPEN to CLAIMED. */
  function Take(db: Tables, now: int, t: Id, agent: Id, claim: Id): Tx {
    if t in db.tasks && db.tasks[t].status == Open then
      Tx(db.(tasks := db.tasks[t := db.tasks[t].(status := Claimed, owner := Some(agent), claimedAt := Some(now),
           lease := Some(now + TASK_LEASE), claim := Some(claim), submitted := None)]), Done,
         Some(Leased(t, claim, true, now, now + TASK_LEASE)))
    else
      Refuse(db, Conflict)
  }

  // ----- messages -----

  predicate Acceptable(db: Tables, now: int, m: Message) {
    && m.task.Some?
    && m.claim.Some?
    && Holds(db, now, m.task.value, m.sender, m.claim.value)
    && db.tasks[m.task.value].createdBy == m.recipient
  }

  function Stored(db: Tables, id: Id, m: Message): Tables {
    db.(messages := db.messages[id := m.(number := db.nextSeq)], nextSeq := db.nextSeq + 1)
  }

  function Submitting(db: Tables, received: int, id: Id, t: Id): Tables
    requires t in db.tasks
  {
    db.(tasks := db.tasks[t := db.tasks[t].(status := Submitted, submitted := Some(id), lease := None)],
        jobs := db.jobs[t := Job(id, 0, received, NO_ID, None, false)])
  }

  /** Store message `id`. A RESULT for a task is stored only together with the task's move to SUBMITTED and
      the verification job; `received` is the clock read before the transaction, `now` the one inside it. */
  function Post(db: Tables, received: int, now: int, id: Id, m: Message): Tx {
    if id in db.messages then
      Refuse(db, if db.messages[id].sender == m.sender then Nothing else Conflict)
    else if m.kind == Other || m.task.None? then
      Tx(Stored(db, id, m), Done, None)
    else if m.claim.None? || m.claim.value == NO_ID then
      Refuse(db, Invalid)
    else if !Acceptable(db, now, m) then
      Refuse(db, Conflict)
    else if m.task.value in db.jobs then
      Refuse(db, Internal)
    else
      Tx(Submitting(Stored(db, id, m), received, id, m.task.value), Done,
         Some(Accepted(m.task.value, m.claim.value, id, now)))
  }

  // ----- the verification queue -----

  predicate Due(db: Tables, now: int, viewer: Id, access: set<Id>, t: Id) {
    && t in db.jobs && t in db.tasks
    && !db.jobs[t].done
    && db.jobs[t].attempts < MAX_ATTEMPTS
    && db.jobs[t].nextAt <= now
    && Over(db.jobs[t].lease, now)
    && db.tasks[t].status == Submitted
    && db.tasks[t].submitted == Some(db.jobs[t].message)
    && db.tasks[t].createdBy == viewer
    && db.tasks[t].owner.Some? && db.tasks[t].owner.value != viewer
    && t in access
  }

  predicate Sooner(jobs: map<Id, Job>, t: Id, u: Id) {
    t in jobs && u in jobs
    && (jobs[t].nextAt < jobs[u].nextAt || (jobs[t].nextAt == jobs[u].nextAt && TextOrder.AtMost(t.text, u.text)))
  }

  /** The row of ORDER BY next_at, task_id LIMIT 1. */
  predicate FirstDue(db: Tables, now: int, viewer: Id, access: set<Id>, t: Id) {
    Due(db, now, viewer, access, t) && forall u | u in db.jobs && Due(db, now, viewer, access, u) :: Sooner(db.jobs, t, u)
  }

  function Attempted(job: Job, now: int, attempt: Id): Job {
    var n := job.attempts + 1;
    job.(attempts := n, attempt := attempt, lease := Some(now + VERIFICATION_LEASE),
         nextAt := now + VERIFICATION_LEASE + Backoff(n))
  }

  ghost function Grant(db: Tables, now: int, viewer: Id, access: set<Id>, attempt: Id): Tx {
    if exists t :: FirstDue(db, now, viewer, access, t) then
      var t :| FirstDue(db, now, viewer, access, t);
      if db.jobs[t].message !in db.messages then
        Refuse(db, Internal)
      else
        Tx(db.(jobs := db.jobs[t := Attempted(db.jobs[t], now, attempt)]), Handed(t),
           Some(Granted(t, attempt, db.jobs[t].attempts + 1, now, now + VERIFICATION_LEASE)))
    else
      Refuse(db, Nothing)
  }

  /** Whether a verdict naming `attempt` (empty for a manual one) passes the attempt fence. */
  predicate Fenced(job: Job, now: int, attempt: Id) {
    if attempt != NO_ID then job.attempt == attempt && !Over(job.lease, now)
    else job.attempt == NO_ID || Over(job.lease, now)
  }

  function Settled(job: Job, now: int, verdict: Verdict): Job {
    job.(done := verdict != Inconclusive, attempt := NO_ID, lease := None, nextAt := now + Backoff(job.attempts))
  }

  function Judged(status: Status, verdict: Verdict): Status {
    match verdict
    case Verified => Completed
    case Rejected => Failed
    case Inconclusive => status
  }

  datatype Review = Review(id: Id, task: Id, verifier: Id, attempt: Id, target: Id, verdict: Verdict)

  /** Why a review is turned away before the attempt fence is consulted, in the order the checks are made. */
  function Objection(db: Tables, visible: bool, r: Review): Option<Reply> {
    if !visible || r.task !in db.tasks then Some(NotFound)
    else if db.tasks[r.task].status != Submitted then Some(Conflict)
    else if r.target !in db.messages then Some(Invalid)
    else if db.messages[r.target].task.None? then Some(Internal)
    else if db.messages[r.target].kind != Result then Some(Invalid)
    else if db.messages[r.target].task != Some(r.task) then Some(Invalid)
    else if db.messages[r.target].sender == r.verifier then Some(Invalid)
    else if db.tasks[r.task].createdBy != r.verifier then Some(Denied)
    else if db.tasks[r.task].submitted != Some(r.target) then Some(Conflict)
    else None
  }

  function Verify(db: Tables, now: int, visible: bool, r: Review): Tx {
    var objection := Objection(db, visible, r);
    if objection.Some? then Refuse(db, objection.value)
    else if r.task !in db.jobs && r.attempt != NO_ID then Refuse(db, Internal)
    else if r.task in db.jobs && !Fenced(db.jobs[r.task], now, r.attempt) then Refuse(db, Conflict)
    else
      var task := db.tasks[r.task];
      Tx(db.(
           jobs := if r.task in db.jobs then db.jobs[r.task := Settled(db.jobs[r.task], now, r.verdict)] else db.jobs,
           verifications := db.verifications + [Verification(r.id, r.task, r.verifier, r.target, r.verdict, now)],
           tasks := db.tasks[r.task := task.(status := Judged(task.status, r.verdict))]), Done,
         Some(Decided(r.task, r.attempt, r.verdict, now)))
  }

  // ----- the operator's side -----

  predicate Exhausted(db: Tables, now: int, t: Id) {
    && t in db.jobs && t in db.tasks
    && !db.jobs[t].done
    && db.jobs[t].attempts >= MAX_ATTEMPTS
    && Over(db.jobs[t].lease, now)
    && db.tasks[t].status == Submitted
    && db.tasks[t].submitted == Some(db.jobs[t].message)
  }

  function Retry(db: Tables, now: int, update: int, t: Id): Tx {
    if update in db.retries then
      Refuse(db, if db.retries[update] == t then Nothing else Conflict)
    else if !Exhausted(db, now, t) then
      Refuse(db, Conflict)
    else
      Tx(db.(
           jobs := db.jobs[t := db.jobs[t].(attempts := 0, nextAt := now, attempt := NO_ID, lease := None)],
           retries := db.retries[update := t],
           alerts := if t in db.alerts then db.alerts[t := Alert(false, None, NO_ID)] else db.alerts), Done,
         Some(Refilled(t, update, now)))
  }

  /** INSERT OR IGNORE of a row for every exhausted job. */
  function WithAlertRows(db: Tables, now: int): map<Id, Alert> {
    (map t | t in db.jobs && Exhausted(db, now, t) :: Alert(false, None, NO_ID)) + db.alerts
  }

  predicate Alertable(db: Tables, now: int, alerts: map<Id, Alert>, t: Id) {
    t in alerts && !alerts[t].sent && Over(alerts[t].lease, now) && Exhausted(db, now, t)
  }

  predicate FirstAlertable(db: Tables, now: int, alerts: map<Id, Alert>, t: Id) {
    Alertable(db, now, alerts, t) && forall u | u in alerts && Alertable(db, now, alerts, u) :: TextOrder.AtMost(t.text, u.text)
  }

  function SendingAlert(db: Tables, now: int, rows: map<Id, Alert>, t: Id, token: Id): Tx
    requires t in rows
  {
    Tx(db.(alerts := rows[t := rows[t].(token := token, lease := Some(now + ALERT_LEASE))]), Handed(t),
       Some(AlertLeased(t, token, now)))
  }

  ghost function LeaseAlert(db: Tables, now: int, token: Id): Tx {
    var rows := WithAlertRows(db, now);
    if exists t :: FirstAlertable(db, now, rows, t) then
      var t :| FirstAlertable(db, now, rows, t);
      SendingAlert(db, now, rows, t, token)
    else
      Refuse(db, Nothing)
  }

  function AckAlert(db: Tables, now: int, t: Id, token: Id): Tx {
    if t in db.alerts && db.alerts[t].token == token then
      Tx(db.(alerts := db.alerts[t := Alert(true, None, NO_ID)]), Done, Some(AlertSent(t, token, now)))
    else
      Refuse(db, Done)
  }

  /** What opening the database adds to the queue: a job for each submitted task that has none. */
  function Reopen(db: Tables): Tx {
    Tx(db.(jobs := (map t | t in db.tasks && db.tasks[t].status == Submitted && db.tasks[t].submitted.Some?
                      :: Job(db.tasks[t].submitted.value, 0, db.tasks[t].createdAt, NO_ID, None, false)) + db.jobs),
       Done, None)
  }

  // ----- steps -----

  /** One transaction with the clock it read, the identifiers it drew and what the caller supplied. */
  datatype Op =
    | OpCreate(at: int, id: Id, createdBy: Id, key: Option<string>)
    | OpRequeue(at: int)
    | OpExtend(at: int, task: Id, agent: Id, claim: Id)
    | OpTake(at: int, task: Id, agent: Id, id: Id)
    | OpPost(at: int, received: int, messageId: Id, message: Message)
    | OpGrant(at: int, viewer: Id, access: set<Id>, id: Id)
    | OpVerify(at: int, visible: bool, review: Review)
    | OpRetry(at: int, update: int, task: Id)
    | OpLeaseAlert(at: int, id: Id)
    | OpAckAlert(at: int, task: Id, token: Id)
    | OpReopen(at: int)

  ghost function Apply(db: Tables, op: Op): Tx {
    match op
    case OpCreate(at, id, createdBy, key) => Create(db, at, id, createdBy, key)
    case OpRequeue(at) => Requeue(db, at)
    case OpExtend(at, task, agent, claim) => Extend(db, at, task, agent, claim)
    case OpTake(at, task, agent, id) => Take(db, at, task, agent, id)
    case OpPost(at, received, id, message) => Post(db, received, at, id, message)
    case OpGrant(at, viewer, access, id) => Grant(db, at, viewer, access, id)
    case OpVerify(at, visible, review) => Verify(db, at, visible, review)
    case OpRetry(at, update, task) => Retry(db, at, update, task)
    case OpLeaseAlert(at, id) => LeaseAlert(db, at, id)
    case OpAckAlert(at, task, token) => AckAlert(db, at, task, token)
    case OpReopen(at) => Reopen(db)
  }

  /** The identifiers a transaction draws from the generator. */
  function Drawn(op: Op): set<Id> {
    match op
    case OpCreate(_, id, _, _) => {id}
    case OpTake(_, _, _, id) => {id}
    case OpGrant(_, _, _, id) => {id}
    case OpLeaseAlert(_, id) => {id}
    case OpVerify(_, _, review) => {review.id}
    case _ => {}
  }

  /** A run's state: the tables, the latest clock reading, the identifiers drawn so far and the history. */
  datatype World = World(db: Tables, clock: int, drawn: set<Id>, log: seq<Event>)

  const START := World(EMPTY, 0, {}, [])

  /** The environment's side of a step: the clock does not run backwards between commits, drawn identifiers
      are new and not empty, and only a token that was handed out (never the empty one) is acknowledged. */
  predicate Allowed(w: World, op: Op) {
    && w.clock <= op.at
    && Drawn(op) !! w.drawn + {NO_ID}
    && (op.OpAckAlert? ==> op.token != NO_ID)
  }

  ghost function Step(w: World, op: Op): World {
    var tx := Apply(w.db, op);
    World(tx.tables, op.at, w.drawn + Drawn(op), if tx.note.Some? then w.log + [tx.note.value] else w.log)
  }

  ghost function Run(ops: seq<Op>): World {
    if ops == [] then START else Step(Run(ops[..|ops| - 1]), ops[|ops| - 1])
  }

  ghost predicate Legal(ops: seq<Op>) {
    ops == [] || (Legal(ops[..|ops| - 1]) && Allowed(Run(ops[..|ops| - 1]), ops[|ops| - 1]))
  }
}
