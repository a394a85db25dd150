/** The protocol and the projects together. A handler first reads the task's project and the caller's membership, one
    after the other, and only then calls the store, which looks at neither; so other requests run in between, and the
    project may be archived there. A call under way remembers what it has already been told. */
module Platform {
  import opened Common
  import Protocol
  import ProtocolInvariant
  import Results
  import Ownership
  import Inbox

  /** What a call is about. */
  datatype Target = ForTask(task: Id) | InProject(project: Id)

  /** A call that found its project active; `owns` is whether it read there that the caller is the owner, `cleared`
      whether it has found the caller to be a member since. */
  datatype Call = Call(agent: Id, target: Target, owns: bool, cleared: bool)

  /** `projectOf` is the project of each task that has one. */
  datatype World = World(protocol: Protocol.World, projects: Ownership.World, projectOf: map<Id, Id>, calls: map<nat, Call>)

  const START := World(Protocol.START, Ownership.START, map[], map[])

  /** `Enter` reads the project, `Clear` the membership; `Work` is the store's transaction, made by `call` (and, when
      it sends a message to another agent, with the recipient checked as `peer`); `Drop` is any other refusal. */
  datatype Op =
    | Govern(request: Ownership.Op)
    | Enter(call: nat, agent: Id, target: Target)
    | Clear(call: nat)
    | Drop(call: nat)
    | Work(op: Protocol.Op, call: nat, peer: nat)

  // ----- the checks -----

  predicate StillActive(db: Ownership.Tables, project: Id) {
    project in db.projects && db.projects[project].active
  }

  predicate CanRead(db: Ownership.Tables, project: Id, agent: Id) {
    project in db.projects && (db.projects[project].closed ==> Ownership.IsActive(db, project, agent))
  }

  /** The first check; a task without a project needs none. */
  predicate MayEnter(w: World, target: Target) {
    match target
    case ForTask(t) => t in w.protocol.db.tasks && Accepts(w, t)
    case InProject(p) => StillActive(w.projects.db, p)
  }

  /** The task's project, if it has one, is active. */
  predicate Accepts(w: World, t: Id) {
    t in w.projectOf ==> StillActive(w.projects.db, w.projectOf[t])
  }

  predicate Sees(w: World, t: Id, agent: Id) {
    t in w.projectOf ==> CanRead(w.projects.db, w.projectOf[t], agent)
  }

  /** The second check: creating a task is open to the owner as well, member or not. */
  predicate Clears(w: World, call: Call) {
    match call.target
    case ForTask(t) => Sees(w, t, call.agent)
    case InProject(p) => CanRead(w.projects.db, p, call.agent) || call.owns
  }

  predicate Owns(db: Ownership.Tables, target: Target, agent: Id) {
    target.InProject? && target.project in db.projects && db.projects[target.project].owner == agent
  }

  predicate Cleared(w: World, call: nat, agent: Id, target: Target) {
    call in w.calls && w.calls[call].agent == agent && w.calls[call].target == target && w.calls[call].cleared
  }

  /** A message about a task: the recipient of a direct one is checked like the sender, and a broadcast stays out of
      closed projects (which projects are closed never changes). */
  predicate MayReach(w: World, t: Id, recipient: Id, peer: nat) {
    t in w.projectOf ==>
      if recipient == Inbox.BROADCAST
      then w.projectOf[t] in w.projects.db.projects && !w.projects.db.projects[w.projectOf[t]].closed
      else Cleared(w, peer, recipient, ForTask(t))
  }

  /** Whether the call has come as far as this transaction. The queue checks project and membership in its own query. */
  predicate Reaches(w: World, op: Protocol.Op, call: nat, peer: nat) {
    match op
    case OpCreate(_, _, createdBy, _) =>
      && createdBy in w.projects.db.agents
      && (call in w.calls ==> w.calls[call].target.InProject? && Cleared(w, call, createdBy, w.calls[call].target))
    case OpExtend(_, t, agent, _) => Cleared(w, call, agent, ForTask(t))
    case OpTake(_, t, agent, _) => Cleared(w, call, agent, ForTask(t))
    case OpPost(_, _, _, m) =>
      m.task.Some? ==> Cleared(w, call, m.sender, ForTask(m.task.value)) && MayReach(w, m.task.value, m.recipient, peer)
    case OpGrant(_, viewer, access, _) =>
      forall t | t in w.protocol.db.tasks :: t in access <==> Accepts(w, t) && Sees(w, t, viewer)
    case OpVerify(_, _, review) => Cleared(w, call, review.verifier, ForTask(review.task))
    case _ => true
  }

  // ----- runs -----

  /** A call that creates a task does so in its project, one that is not under way in none. */
  function Placed(w: World, op: Protocol.Op, call: nat, reply: Protocol.Reply): map<Id, Id> {
    if op.OpCreate? && reply == Protocol.Done && call in w.calls && w.calls[call].target.InProject?
    then w.projectOf[op.id := w.calls[call].target.project]
    else w.projectOf
  }

  /** The calls a transaction uses up: those of handlers, not of the requeue, the queue or the operator's side. */
  function UsedUp(op: Protocol.Op, call: nat, peer: nat): set<nat> {
    if op.OpPost? && op.message.task.Some? then {call, peer}
    else if op.OpCreate? || op.OpExtend? || op.OpTake? || op.OpVerify? then {call}
    else {}
  }

  ghost function Step(w: World, op: Op): World {
    match op
    case Govern(request) => w.(projects := Ownership.Step(w.projects, request))
    case Enter(call, agent, target) =>
      if MayEnter(w, target) then w.(calls := w.calls[call := Call(agent, target, Owns(w.projects.db, target, agent), false)])
      else w
    case Clear(call) =>
      if call !in w.calls then w
      else if Clears(w, w.calls[call]) then w.(calls := w.calls[call := w.calls[call].(cleared := true)])
      else w.(calls := w.calls - {call})
    case Drop(call) => w.(calls := w.calls - {call})
    case Work(op, call, peer) =>
      if Reaches(w, op, call, peer) then
        World(Protocol.Step(w.protocol, op), w.projects, Placed(w, op, call, Protocol.Apply(w.protocol.db, op).reply),
              w.calls - UsedUp(op, call, peer))
      else w
  }

  predicate Allowed(w: World, op: Op) {
    match op
    case Govern(request) => Ownership.Allowed(w.projects, request)
    case Enter(call, _, _) => call !in w.calls
    case Work(op, _, _) => Protocol.Allowed(w.protocol, op)
    case _ => true
  }

  ghost function Run(ops: seq<Op>): World {
    if ops == [] then START else Step(Run(ops[..|ops| - 1]), ops[|ops| - 1])
  }

  ghost predicate Legal(ops: seq<Op>) {
    ops == [] || (Legal(ops[..|ops| - 1]) && Allowed(Run(ops[..|ops| - 1]), ops[|ops| - 1]))
  }

  lemma LegalSnoc(ops: seq<Op>, op: Op)
    requires Legal(ops) && Allowed(Run(ops), op)
    ensures Legal(ops + [op]) && Run(ops + [op]) == Step(Run(ops), op)
  {
    assert (ops + [op])[..|ops|] == ops;
  }

  // ----- what the checks ask -----

  /** A call about a task gets under way exactly when the task exists and its project, if it has one, is active; one that
      creates a task in a project exactly when the project is active. It remembers who owned the project then. */
  lemma EnteredExactly(w: World, call: nat, agent: Id, target: Target)
    requires call !in w.calls
    ensures var w', db := Step(w, Enter(call, agent, target)), w.projects.db;
            && (call in w'.calls <==>
                  match target
                  case ForTask(t) =>
                    && t in w.protocol.db.tasks
                    && (t in w.projectOf ==> w.projectOf[t] in db.projects && db.projects[w.projectOf[t]].active)
                  case InProject(p) => p in db.projects && db.projects[p].active)
            && (call in w'.calls ==>
                  w'.calls[call] == Call(agent, target, target.InProject? && db.projects[target.project].owner == agent, false))
            && w' == w.(calls := w'.calls)
  {
  }

  /** It goes on exactly when the task is in no project, or the project is open, or the caller has an active row there;
      for creating also when the caller owned the project. */
  lemma ClearedExactly(w: World, call: nat)
    requires call in w.calls
    ensures var w', db, c := Step(w, Clear(call)), w.projects.db, w.calls[call];
            var inside := (p: Id) =>
              p in db.projects && (!db.projects[p].closed
                                   || (Ownership.Seat(p, c.agent) in db.members
                                       && db.members[Ownership.Seat(p, c.agent)].status == Ownership.Active));
            && (call in w'.calls <==>
                  match c.target
                  case ForTask(t) => t !in w.projectOf || inside(w.projectOf[t])
                  case InProject(p) => inside(p) || c.owns)
            && (call in w'.calls ==> w'.calls[call] == c.(cleared := true))
            && w' == w.(calls := w'.calls)
  {
  }

  /** A claim, a heartbeat, a review and a message about a task reach the store only in a call of their agent about that
      task that has gone through both checks; and they do then, but for a message to somebody else. */
  lemma ReachedExactly(w: World, op: Protocol.Op, call: nat, peer: nat)
    ensures var through := (c: nat, agent: Id, t: Id) =>
              c in w.calls && w.calls[c].agent == agent && w.calls[c].target == ForTask(t) && w.calls[c].cleared;
            Reaches(w, op, call, peer) <==>
              match op
              case OpExtend(_, t, agent, _) => through(call, agent, t)
              case OpTake(_, t, agent, _) => through(call, agent, t)
              case OpVerify(_, _, review) => through(call, review.verifier, review.task)
              case OpPost(_, _, _, m) =>
                m.task == None
                || (through(call, m.sender, m.task.value)
                    && (m.task.value !in w.projectOf
                        || (m.recipient != Id("broadcast") && through(peer, m.recipient, m.task.value))
                        || (m.recipient == Id("broadcast") && w.projectOf[m.task.value] in w.projects.db.projects
                            && !w.projects.db.projects[w.projectOf[m.task.value]].closed)))
              case OpGrant(_, viewer, access, _) => forall t | t in w.protocol.db.tasks :: t in access <==> QueueAdmits(w, t, viewer)
              case OpCreate(_, _, createdBy, _) =>
                && createdBy in w.projects.db.agents
                && (call in w.calls ==> w.calls[call].target.InProject? && w.calls[call].agent == createdBy && w.calls[call].cleared)
              case _ => true
  {
    if op.OpGrant? {
      forall t ensures QueueAdmits(w, t, op.viewer) <==> Accepts(w, t) && Sees(w, t, op.viewer) {
      }
    }
  }

  /** The queue's own condition on the project: none, or active and open to the viewer. */
  predicate QueueAdmits(w: World, t: Id, viewer: Id) {
    var db := w.projects.db;
    t in w.projectOf ==>
      && w.projectOf[t] in db.projects && db.projects[w.projectOf[t]].active
      && (db.projects[w.projectOf[t]].closed ==>
            var seat := Ownership.Seat(w.projectOf[t], viewer);
            seat in db.members && db.members[seat].status == Ownership.Active)
  }

  // ----- both halves are runs of their own -----

  ghost function Transactions(ops: seq<Op>): seq<Protocol.Op> {
    if ops == [] then []
    else
      var before, op := ops[..|ops| - 1], ops[|ops| - 1];
      if op.Work? && Reaches(Run(before), op.op, op.call, op.peer) then Transactions(before) + [op.op] else Transactions(before)
  }

  ghost function Requests(ops: seq<Op>): seq<Ownership.Op> {
    if ops == [] then []
    else
      var before, op := ops[..|ops| - 1], ops[|ops| - 1];
      if op.Govern? then Requests(before) + [op.request] else Requests(before)
  }

  /** Everything proved about runs of the protocol and of the projects holds of the two together. */
  lemma {:induction false} BothAreRuns(ops: seq<Op>)
    requires Legal(ops)
    ensures Protocol.Legal(Transactions(ops)) && Protocol.Run(Transactions(ops)) == Run(ops).protocol
    ensures Ownership.Legal(Requests(ops)) && Ownership.Run(Requests(ops)) == Run(ops).projects
  {
    if ops != [] {
      var before, op := ops[..|ops| - 1], ops[|ops| - 1];
      BothAreRuns(before);
      if op.Govern? {
        Ownership.LegalSnoc(Requests(before), op.request);
      } else if op.Work? && Reaches(Run(before), op.op, op.call, op.peer) {
        Results.LegalSnoc(Transactions(before), op.op);
      }
    }
  }

  // ----- where tasks are -----

  predicate TargetKnown(w: World, target: Target) {
    match target
    case ForTask(t) => t in w.protocol.db.tasks
    case InProject(p) => p in w.projects.db.projects
  }

  /** Tasks are placed in existing projects, their creators are registered, and calls are about something. */
  ghost predicate WellPlaced(w: World) {
    && (forall t | t in w.projectOf :: t in w.protocol.db.tasks && w.projectOf[t] in w.projects.db.projects)
    && (forall t | t in w.protocol.db.tasks :: w.protocol.db.tasks[t].createdBy in w.projects.db.agents)
    && (forall c | c in w.calls :: TargetKnown(w, w.calls[c].target))
    && w.protocol.db.tasks.Keys <= w.protocol.drawn
  }

  lemma RequestKeeps(db: Ownership.Tables, request: Ownership.Op)
    ensures forall p | p in db.projects :: p in Ownership.Outcome(db, request).db.projects
    ensures db.agents <= Ownership.Outcome(db, request).db.agents
  {
  }

  lemma TasksKept(db: Protocol.Tables, op: Protocol.Op)
    requires Protocol.Drawn(op) !! db.tasks.Keys
    ensures forall t {:trigger t in db.tasks} | t in db.tasks ::
              t in Protocol.Apply(db, op).tables.tasks
              && Protocol.Apply(db, op).tables.tasks[t].createdBy == db.tasks[t].createdBy
  {
    if op.OpVerify? {
      Results.ReviewTouches(db, op.at, op.visible, op.review);
    } else if op.OpPost? {
      Results.PostTouches(db, op.received, op.at, op.messageId, op.message);
    } else {
      Results.OthersTouch(db, op);
    }
  }

  lemma TasksAdded(db: Protocol.Tables, op: Protocol.Op)
    ensures forall t | t in Protocol.Apply(db, op).tables.tasks && t !in db.tasks ::
              op.OpCreate? && t == op.id && Protocol.Apply(db, op).tables.tasks[t].createdBy == op.createdBy
    ensures op.OpCreate? && Protocol.Apply(db, op).reply == Protocol.Done ==> op.id in Protocol.Apply(db, op).tables.tasks
  {
    if op.OpVerify? {
      Results.ReviewTouches(db, op.at, op.visible, op.review);
    } else if op.OpPost? {
      Results.PostTouches(db, op.received, op.at, op.messageId, op.message);
    } else if op.OpGrant? || op.OpLeaseAlert? || op.OpAckAlert? || op.OpRetry? || op.OpReopen? {
      ProtocolInvariant.TasksUntouched(db, op);
    }
  }

  /** Where a task is never changes. */
  lemma PlacesKept(w: World, op: Op)
    requires Allowed(w, op) && w.protocol.db.tasks.Keys <= w.protocol.drawn
    requires forall t | t in w.projectOf :: t in w.protocol.db.tasks
    ensures forall t | t in w.protocol.db.tasks :: t in Step(w, op).projectOf <==> t in w.projectOf
    ensures forall t | t in w.projectOf :: t in Step(w, op).projectOf && Step(w, op).projectOf[t] == w.projectOf[t]
  {
    assert op.Work? && op.op.OpCreate? ==> op.op.id in Protocol.Drawn(op.op);
  }

  lemma StepKeepsPlaced(w: World, op: Op)
    requires WellPlaced(w) && Allowed(w, op) && Step(w, op).protocol.db.tasks.Keys <= Step(w, op).protocol.drawn
    ensures WellPlaced(Step(w, op))
  {
    if op.Govern? {
      RequestKeepsPlaced(w, op.request);
    } else if op.Work? {
      if Reaches(w, op.op, op.call, op.peer) {
        WorkKeepsPlaced(w, op.op, op.call, op.peer, Protocol.Step(w.protocol, op.op));
      }
    } else {
      CallKeepsPlaced(w, op);
    }
  }

  lemma RequestKeepsPlaced(w: World, request: Ownership.Op)
    requires WellPlaced(w)
    ensures WellPlaced(Step(w, Govern(request)))
  {
    RequestKeeps(w.projects.db, request);
  }

  lemma CallKeepsPlaced(w: World, op: Op)
    requires WellPlaced(w) && (op.Enter? || op.Clear? || op.Drop?)
    ensures WellPlaced(Step(w, op))
  {
  }

  lemma WorkKeepsPlaced(w: World, op: Protocol.Op, call: nat, peer: nat, after: Protocol.World)
    requires WellPlaced(w) && Protocol.Allowed(w.protocol, op) && Reaches(w, op, call, peer)
    requires after == Protocol.Step(w.protocol, op) && after.db.tasks.Keys <= after.drawn
    ensures WellPlaced(World(after, w.projects, Placed(w, op, call, Protocol.Apply(w.protocol.db, op).reply),
                             w.calls - UsedUp(op, call, peer)))
  {
    TasksKept(w.protocol.db, op);
    TasksAdded(w.protocol.db, op);
    WorkKeepsKnown(w, op, call, peer, after);
  }

  lemma WorkKeepsKnown(w: World, op: Protocol.Op, call: nat, peer: nat, after: Protocol.World)
    requires forall c | c in w.calls :: TargetKnown(w, w.calls[c].target)
    requires forall t | t in w.protocol.db.tasks :: t in after.db.tasks
    ensures forall places, c | c in w.calls - UsedUp(op, call, peer) ::
              TargetKnown(World(after, w.projects, places, w.calls - UsedUp(op, call, peer)), w.calls[c].target)
  {
  }

  lemma {:induction false} PlacedAlways(ops: seq<Op>)
    requires Legal(ops)
    ensures WellPlaced(Run(ops))
    ensures ProtocolInvariant.Rows(Run(ops).protocol.db)
  {
    BothAreRuns(ops);
    ProtocolInvariant.JointAlways(Transactions(ops));
    if ops != [] {
      PlacedAlways(ops[..|ops| - 1]);
      StepKeepsPlaced(Run(ops[..|ops| - 1]), ops[|ops| - 1]);
    }
  }

  // ----- an archived project's tasks -----

  /** The calls under way about a task. */
  ghost function CallsOn(w: World, t: Id): set<nat> {
    set c | c in w.calls && w.calls[c].target == ForTask(t)
  }

  ghost predicate UnderWay(w: World, t: Id, agent: Id) {
    exists c :: c in CallsOn(w, t) && w.calls[c].agent == agent
  }

  /** Once the project is archived it stays so, and no further call about its task gets under way. */
  lemma ArchivedStep(w: World, op: Op, t: Id)
    requires WellPlaced(w) && Allowed(w, op) && t in w.protocol.db.tasks && !Accepts(w, t)
    ensures t in Step(w, op).protocol.db.tasks && !Accepts(Step(w, op), t)
    ensures CallsOn(Step(w, op), t) <= CallsOn(w, t)
    ensures forall c | c in CallsOn(Step(w, op), t) :: Step(w, op).calls[c].agent == w.calls[c].agent
  {
    PlacesKept(w, op);
    ProjectStaysArchived(w, op, w.projectOf[t]);
    NoNewCalls(w, op, t);
    if op.Work? && Reaches(w, op.op, op.call, op.peer) {
      TasksKept(w.protocol.db, op.op);
    }
  }

  lemma ProjectStaysArchived(w: World, op: Op, project: Id)
    requires Allowed(w, op) && project in w.projects.db.projects && !StillActive(w.projects.db, project)
    ensures !StillActive(Step(w, op).projects.db, project)
  {
    if op.Govern? {
      Ownership.TitleEffect(w.projects.db, op.request, project);
    }
  }

  lemma NoNewCalls(w: World, op: Op, t: Id)
    requires Allowed(w, op) && !Accepts(w, t)
    ensures CallsOn(Step(w, op), t) <= CallsOn(w, t)
    ensures forall c | c in CallsOn(Step(w, op), t) :: Step(w, op).calls[c].agent == w.calls[c].agent
  {
  }

  /** A change to a task's row other than the requeue of an expired claim. */
  predicate Alters(row: Protocol.Task, row': Protocol.Task) {
    row' != row && !(row.status == Protocol.Claimed && row' == Protocol.Freed(row))
  }

  ghost predicate AltersRow(w: World, op: Op, t: Id)
    requires t in w.protocol.db.tasks
  {
    t in Step(w, op).protocol.db.tasks && Alters(w.protocol.db.tasks[t], Step(w, op).protocol.db.tasks[t])
  }

  /** Who rewrites the row of a task. */
  lemma RowChanges(db: Protocol.Tables, op: Protocol.Op, t: Id)
    requires t in db.tasks && Protocol.Drawn(op) !! db.tasks.Keys
    ensures t in Protocol.Apply(db, op).tables.tasks
    ensures Alters(db.tasks[t], Protocol.Apply(db, op).tables.tasks[t]) ==>
              match op
              case OpExtend(_, u, _, _) => u == t
              case OpTake(_, u, _, _) => u == t
              case OpPost(_, _, _, m) => m.task == Some(t)
              case OpVerify(_, _, review) => review.task == t
              case _ => false
  {
    if op.OpVerify? {
      Results.ReviewTouches(db, op.at, op.visible, op.review);
    } else if op.OpPost? {
      Results.PostTouches(db, op.received, op.at, op.messageId, op.message);
    } else if op.OpGrant? || op.OpLeaseAlert? || op.OpAckAlert? || op.OpRetry? || op.OpReopen? {
      ProtocolInvariant.TasksUntouched(db, op);
    }
  }

  /** Whoever alters the row does so in a cleared call about the task, which that uses up. */
  lemma AlteringUsesUp(w: World, op: Op, t: Id)
    requires Allowed(w, op) && w.protocol.db.tasks.Keys <= w.protocol.drawn && t in w.protocol.db.tasks && AltersRow(w, op, t)
    ensures op.Work? && op.call in CallsOn(w, t) && w.calls[op.call].cleared
    ensures op.call !in Step(w, op).calls
  {
    RowChanges(w.protocol.db, op.op, t);
  }

  /** How often the row was altered from the k-th step on. */
  ghost function Alterations(ops: seq<Op>, k: nat, t: Id): nat
    requires k <= |ops|
    decreases |ops|
  {
    if |ops| == k then 0
    else
      var before, op := ops[..|ops| - 1], ops[|ops| - 1];
      Alterations(before, k, t) + if t in Run(before).protocol.db.tasks && AltersRow(Run(before), op, t) then 1 else 0
  }

  /** From the moment its project is archived no further call about a task gets under way, and those that were alter
      its row at most once each; other than that only an expired claim is requeued. */
  lemma {:induction false} ArchivedSettles(ops: seq<Op>, k: nat, t: Id)
    requires Legal(ops) && k <= |ops| && t in Run(ops[..k]).protocol.db.tasks && !Accepts(Run(ops[..k]), t)
    ensures t in Run(ops).protocol.db.tasks && !Accepts(Run(ops), t)
    ensures CallsOn(Run(ops), t) <= CallsOn(Run(ops[..k]), t)
    ensures forall c | c in CallsOn(Run(ops), t) :: Run(ops).calls[c].agent == Run(ops[..k]).calls[c].agent
    ensures Alterations(ops, k, t) + |CallsOn(Run(ops), t)| <= |CallsOn(Run(ops[..k]), t)|
    decreases |ops|
  {
    if k == |ops| {
      assert ops[..k] == ops;
    } else {
      var before, op := ops[..|ops| - 1], ops[|ops| - 1];
      assert before[..k] == ops[..k];
      ArchivedSettles(before, k, t);
      PlacedAlways(before);
      ArchivedStep(Run(before), op, t);
      if AltersRow(Run(before), op, t) {
        AlteringUsesUp(Run(before), op, t);
        Fewer(CallsOn(Run(ops), t), CallsOn(Run(before), t), op.call);
      } else {
        NoMore(CallsOn(Run(ops), t), CallsOn(Run(before), t));
      }
    }
  }

  lemma {:induction false} NoMore(a: set<nat>, b: set<nat>)
    requires a <= b
    ensures |a| <= |b|
  {
    if a != {} {
      var c :| c in a;
      NoMore(a - {c}, b - {c});
    }
  }

  lemma Fewer(a: set<nat>, b: set<nat>, c: nat)
    requires a <= b && c in b && c !in a
    ensures |a| < |b|
  {
    NoMore(a, b - {c});
  }

  // ----- which tasks can still be completed -----

  /** What a SUBMITTED row needs to change: a verdict of its creator, who is not its owner. */
  lemma OnlyTheCreatorDecides(db: Protocol.Tables, drawn: set<Id>, op: Protocol.Op, t: Id)
    requires ProtocolInvariant.Rows(db) && db.tasks.Keys <= drawn && Protocol.Drawn(op) !! drawn
    requires t in db.tasks && db.tasks[t].status == Protocol.Submitted
    ensures t in Protocol.Apply(db, op).tables.tasks
    ensures Protocol.Apply(db, op).tables.tasks[t] != db.tasks[t] ==>
              && op.OpVerify? && op.review.task == t && op.review.verifier == db.tasks[t].createdBy
              && db.tasks[t].owner != Some(db.tasks[t].createdBy)
  {
    if op.OpVerify? {
      Results.ReviewTouches(db, op.at, op.visible, op.review);
      if Protocol.Objection(db, op.visible, op.review).None? {
        ProtocolInvariant.ReviewerIsTheOtherParty(db, op.at, op.visible, op.review);
      }
    } else if op.OpPost? {
      Results.PostTouches(db, op.received, op.at, op.messageId, op.message);
    } else {
      Results.OthersTouch(db, op);
    }
  }

  /** A submitted task whose worker is its creator, or one of an archived project about which no call of its creator
      is under way. */
  ghost predicate Stuck(w: World, t: Id) {
    && t in w.protocol.db.tasks && w.protocol.db.tasks[t].status == Protocol.Submitted
    && var row := w.protocol.db.tasks[t];
       row.owner == Some(row.createdBy) || (!Accepts(w, t) && !UnderWay(w, t, row.createdBy))
  }

  lemma StuckStep(w: World, op: Op, t: Id)
    requires WellPlaced(w) && ProtocolInvariant.Rows(w.protocol.db) && Allowed(w, op)
    requires Stuck(w, t)
    ensures Stuck(Step(w, op), t) && Step(w, op).protocol.db.tasks[t] == w.protocol.db.tasks[t]
  {
    if op.Work? && Reaches(w, op.op, op.call, op.peer) {
      OnlyTheCreatorDecides(w.protocol.db, w.protocol.drawn, op.op, t);
      assert op.op.OpVerify? && op.op.review.task == t ==> op.call in CallsOn(w, t);
    }
    if !Accepts(w, t) {
      ArchivedStep(w, op, t);
    }
  }

  lemma {:induction false} StuckStays(ops: seq<Op>, k: nat, t: Id)
    requires Legal(ops) && k <= |ops| && Stuck(Run(ops[..k]), t)
    ensures Stuck(Run(ops), t) && Run(ops).protocol.db.tasks[t] == Run(ops[..k]).protocol.db.tasks[t]
    decreases |ops|
  {
    if k == |ops| {
      assert ops[..k] == ops;
    } else {
      var before, op := ops[..|ops| - 1], ops[|ops| - 1];
      assert before[..k] == ops[..k];
      StuckStays(before, k, t);
      PlacedAlways(before);
      StuckStep(Run(before), op, t);
    }
  }

  /** In any project, archived or not, a registered agent is able to become a reader, with the owner's help and its
      own; nothing else of the platform changes. */
  lemma BecomesReader(ops: seq<Op>, project: Id, agent: Id) returns (more: seq<Op>)
    requires Legal(ops) && agent in Run(ops).projects.db.agents && project in Run(ops).projects.db.projects
    ensures Legal(more) && ops <= more && OnlyMembers(Run(ops), Run(more))
    ensures CanRead(Run(more).projects.db, project, agent)
  {
    more := ops;
    var db := Run(ops).projects.db;
    if !CanRead(db, project, agent) {
      var owner, seat := db.projects[project].owner, Ownership.Seat(project, agent);
      if seat !in db.members || db.members[seat].status != Ownership.Invited {
        var invite := Ownership.OpInvite(owner, project, agent, false, 0);
        Invites(db, project, agent);
        more := Governed(more, invite);
      }
      var now := Run(more).projects.db;
      var decider := if now.members[seat].invitedBy.Some? then agent else owner;
      Decides(now, project, agent, decider);
      more := Governed(more, Ownership.OpDecide(decider, project, agent, true, 0));
    }
  }

  lemma Governed(ops: seq<Op>, request: Ownership.Op) returns (more: seq<Op>)
    requires Legal(ops) && !request.OpCreate?
    ensures Legal(more) && ops <= more
    ensures Run(more).projects.db == Ownership.Outcome(Run(ops).projects.db, request).db
    ensures Run(more).protocol == Run(ops).protocol && Run(more).projectOf == Run(ops).projectOf && Run(more).calls == Run(ops).calls
  {
    LegalSnoc(ops, Govern(request));
    more := ops + [Govern(request)];
  }

  predicate OnlyMembers(w: World, w': World) {
    && w'.protocol == w.protocol && w'.projectOf == w.projectOf && w'.calls == w.calls
    && w'.projects.db.projects == w.projects.db.projects
  }

  lemma Invites(db: Ownership.Tables, project: Id, agent: Id)
    requires project in db.projects && db.projects[project].closed && agent in db.agents
    requires !Ownership.IsActive(db, project, agent)
    requires Ownership.Seat(project, agent) in db.members ==>
               db.members[Ownership.Seat(project, agent)].status != Ownership.Invited
    ensures var db' := Ownership.Invite(db, db.projects[project].owner, project, agent, false, 0).db;
            && db'.projects == db.projects && db'.agents == db.agents && Ownership.Seat(project, agent) in db'.members
            && db'.members[Ownership.Seat(project, agent)].status == Ownership.Invited
  {
  }

  lemma Decides(db: Ownership.Tables, project: Id, agent: Id, decider: Id)
    requires project in db.projects && Ownership.Seat(project, agent) in db.members
    requires db.members[Ownership.Seat(project, agent)].status == Ownership.Invited
    requires decider == if db.members[Ownership.Seat(project, agent)].invitedBy.Some? then agent else db.projects[project].owner
    ensures var db' := Ownership.Decide(db, decider, project, agent, true, 0).db;
            db'.projects == db.projects && Ownership.IsActive(db', project, agent)
  {
  }

  /** `more` continues the run and brings the task to COMPLETED. */
  ghost predicate Completes(ops: seq<Op>, more: seq<Op>, t: Id) {
    && ops <= more && Legal(more)
    && t in Run(more).protocol.db.tasks && Run(more).protocol.db.tasks[t].status == Protocol.Completed
  }

  /** A submitted task can still be completed exactly when its worker is not its creator and its project, if it has
      one, is active or was when a call of the creator about it got under way: otherwise no run brings it there; and
      if so the creator, let back into the project where necessary, is able to do it, seeing the task at the end. */
  lemma CompletableExactly(ops: seq<Op>, t: Id)
    requires Legal(ops)
    requires t in Run(ops).protocol.db.tasks && Run(ops).protocol.db.tasks[t].status == Protocol.Submitted
    ensures var row := Run(ops).protocol.db.tasks[t];
            var hope := row.owner != Some(row.createdBy) && (Accepts(Run(ops), t) || UnderWay(Run(ops), t, row.createdBy));
            && ((exists more :: Completes(ops, more, t)) <==> hope)
            && (hope ==> exists more :: Completes(ops, more, t) && Sees(Run(more), t, row.createdBy))
  {
    var w := Run(ops);
    var row := w.protocol.db.tasks[t];
    if Stuck(w, t) {
      forall more | ops <= more && Legal(more) ensures !Completes(ops, more, t) {
        assert more[..|ops|] == ops;
        StuckStays(more, |ops|, t);
      }
    } else {
      var more := Completion(ops, t);
      assert Completes(ops, more, t) && Sees(Run(more), t, row.createdBy);
    }
  }

  lemma Completion(ops: seq<Op>, t: Id) returns (more: seq<Op>)
    requires Legal(ops) && t in Run(ops).protocol.db.tasks && Run(ops).protocol.db.tasks[t].status == Protocol.Submitted
    requires !Stuck(Run(ops), t)
    ensures Completes(ops, more, t) && Sees(Run(more), t, Run(ops).protocol.db.tasks[t].createdBy)
  {
    var w := Run(ops);
    var creator := w.protocol.db.tasks[t].createdBy;
    assert WellPlaced(w) && ProtocolInvariant.Rows(w.protocol.db) by {
      PlacedAlways(ops);
    }
    var seen := ops;
    if t in w.projectOf {
      seen := BecomesReader(ops, w.projectOf[t], creator);
    }
    var entered, call := GetsUnderWay(seen, t, creator);
    more := CallCompletes(entered, t, call);
  }

  /** A call of the creator that is under way, and sees the task, completes it. */
  lemma CallCompletes(ops: seq<Op>, t: Id, call: nat) returns (more: seq<Op>)
    requires Legal(ops) && ProtocolInvariant.Rows(Run(ops).protocol.db) && call in CallsOn(Run(ops), t)
    requires t in Run(ops).protocol.db.tasks && Run(ops).protocol.db.tasks[t].status == Protocol.Submitted
    requires Run(ops).protocol.db.tasks[t].owner != Some(Run(ops).protocol.db.tasks[t].createdBy)
    requires Run(ops).calls[call].agent == Run(ops).protocol.db.tasks[t].createdBy
    requires Sees(Run(ops), t, Run(ops).calls[call].agent)
    ensures Completes(ops, more, t) && Sees(Run(more), t, Run(ops).calls[call].agent)
  {
    LegalSnoc(ops, Clear(call));
    var cleared := ops + [Clear(call)];
    var op := Results.CompletingStep(Run(ops).protocol, t);
    LegalSnoc(cleared, Work(op, call, call));
    more := cleared + [Work(op, call, call)];
    ReviewGoesThrough(Run(cleared), op, call);
  }

  lemma ReviewGoesThrough(w: World, op: Protocol.Op, call: nat)
    requires op.OpVerify? && Cleared(w, call, op.review.verifier, ForTask(op.review.task))
    ensures Step(w, Work(op, call, call)).protocol == Protocol.Step(w.protocol, op)
    ensures Step(w, Work(op, call, call)).projectOf == w.projectOf && Step(w, Work(op, call, call)).projects == w.projects
  {
  }

  lemma {:induction false} FreshCall(calls: set<nat>) returns (call: nat)
    ensures forall c | c in calls :: c < call
  {
    if calls == {} {
      call := 0;
    } else {
      var c :| c in calls;
      var rest := FreshCall(calls - {c});
      call := if rest <= c then c + 1 else rest;
      assert forall d | d in calls :: d == c || d in calls - {c};
    }
  }

  /** Either a call is under way already, or a new one gets under way. */
  lemma GetsUnderWay(ops: seq<Op>, t: Id, agent: Id) returns (more: seq<Op>, call: nat)
    requires Legal(ops) && t in Run(ops).protocol.db.tasks
    requires Accepts(Run(ops), t) || UnderWay(Run(ops), t, agent)
    ensures Legal(more) && ops <= more
    ensures Run(more).protocol == Run(ops).protocol && Run(more).projects == Run(ops).projects
    ensures Run(more).projectOf == Run(ops).projectOf
    ensures call in CallsOn(Run(more), t) && Run(more).calls[call].agent == agent
  {
    more := ops;
    if UnderWay(Run(ops), t, agent) {
      call :| call in CallsOn(Run(ops), t) && Run(ops).calls[call].agent == agent;
    } else {
      call := FreshCall(Run(ops).calls.Keys);
      LegalSnoc(ops, Enter(call, agent, ForTask(t)));
      more := ops + [Enter(call, agent, ForTask(t))];
    }
  }

  lemma OwnerLeaves(ops: seq<Op>, project: Id) returns (more: seq<Op>)
    requires Legal(ops) && StillActive(Run(ops).projects.db, project) && !Run(ops).projects.db.projects[project].closed
    ensures Legal(more) && ops <= more && !StillActive(Run(more).projects.db, project)
    ensures Run(more).protocol == Run(ops).protocol && Run(more).projectOf == Run(ops).projectOf && Run(more).calls == Run(ops).calls
  {
    var db := Run(ops).projects.db;
    var leave := Ownership.OpRemove(db.projects[project].owner, project, db.projects[project].owner);
    Ownership.DepartureLeavesSomeoneOrArchives(db, project);
    more := Governed(ops, leave);
  }

  /** It does happen: from every reachable state with a SUBMITTED task in an active open project, whose worker is not its
      creator, the creator's review gets past its check, the owner leaves, the project is archived, and then the review
      completes the task. */
  lemma LateReview(ops: seq<Op>, t: Id) returns (more: seq<Op>)
    requires Legal(ops) && t in Run(ops).projectOf && Accepts(Run(ops), t)
    requires !Run(ops).projects.db.projects[Run(ops).projectOf[t]].closed
    requires t in Run(ops).protocol.db.tasks && Run(ops).protocol.db.tasks[t].status == Protocol.Submitted
    requires Run(ops).protocol.db.tasks[t].owner != Some(Run(ops).protocol.db.tasks[t].createdBy)
    ensures Completes(ops, more, t)
    ensures more != [] && more[|more| - 1].Work?
    ensures var w := Run(more[..|more| - 1]);
            !Accepts(w, t) && Cleared(w, more[|more| - 1].call, Run(ops).protocol.db.tasks[t].createdBy, ForTask(t))
  {
    var w := Run(ops);
    var project, creator := w.projectOf[t], w.protocol.db.tasks[t].createdBy;
    assert ProtocolInvariant.Rows(w.protocol.db) by {
      PlacedAlways(ops);
    }
    var entered, call := GetsUnderWay(ops, t, creator);
    LegalSnoc(entered, Clear(call));
    var cleared := entered + [Clear(call)];
    var archived := OwnerLeaves(cleared, project);
    var op := Results.CompletingStep(w.protocol, t);
    LegalSnoc(archived, Work(op, call, call));
    more := archived + [Work(op, call, call)];
    ReviewGoesThrough(Run(archived), op, call);
    assert more[..|more| - 1] == archived;
  }
}
