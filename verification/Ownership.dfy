/** Project ownership by consent: nomination and acceptance, departure and succession, roles, and the membership
    rows behind them. Each request handler is one step. */
module Ownership {
  import opened Common
  import Least
  import TextOrder

  datatype Project = Project(owner: Id, pending: Option<Id>, active: bool, closed: bool, listed: bool, applications: bool)

  datatype Status = Invited | Active | Revoked | Left | Reviewer

  datatype Member = Member(status: Status, coordinator: bool, invitedBy: Option<Id>, joinedAt: Option<int>)

  datatype Seat = Seat(project: Id, agent: Id)

  datatype Tables = Tables(agents: set<Id>, projects: map<Id, Project>, members: map<Seat, Member>)

  datatype Reply = Done | NotFound | Denied | Invalid | Conflict

  datatype Tx = Tx(db: Tables, reply: Reply)

  const EMPTY := Tables({}, map[], map[])

  // ----- who may see and do what -----

  predicate IsActive(db: Tables, project: Id, agent: Id) {
    Seat(project, agent) in db.members && db.members[Seat(project, agent)].status == Active
  }

  predicate Coordinates(db: Tables, project: Id, agent: Id) {
    IsActive(db, project, agent) && db.members[Seat(project, agent)].coordinator
  }

  predicate CanAdminister(db: Tables, project: Id, agent: Id) {
    project in db.projects && (db.projects[project].owner == agent || Coordinates(db, project, agent))
  }

  /** Whether the project may be acknowledged to exist. */
  predicate Seen(db: Tables, project: Id, agent: Id) {
    && project in db.projects
    && (|| !db.projects[project].closed
        || IsActive(db, project, agent)
        || db.projects[project].owner == agent
        || db.projects[project].listed)
  }

  // ----- succession -----

  /** A missing date comes first in the order of the column. */
  predicate JoinedBefore(a: Option<int>, b: Option<int>) {
    b.Some? && (a.None? || a.value < b.value)
  }

  predicate Senior(db: Tables, project: Id, a: Id, b: Id) {
    && Seat(project, a) in db.members && Seat(project, b) in db.members
    && var joined, joined' := db.members[Seat(project, a)].joinedAt, db.members[Seat(project, b)].joinedAt;
       JoinedBefore(joined, joined') || (joined == joined' && TextOrder.AtMost(a.text, b.text))
  }

  /** The first of the active coordinators other than the owner, in the order of the query. */
  ghost predicate Heir(db: Tables, project: Id, s: Id) {
    && project in db.projects && s != db.projects[project].owner && Coordinates(db, project, s)
    && forall c | Seat(project, c) in db.members && Coordinates(db, project, c) && c != db.projects[project].owner ::
         Senior(db, project, s, c)
  }

  ghost function Successor(db: Tables, project: Id): Option<Id>
    requires project in db.projects
  {
    if db.projects[project].closed && exists s :: Heir(db, project, s) then
      var s :| Heir(db, project, s);
      Some(s)
    else None
  }

  // ----- the stores' writes -----

  function Seated(db: Tables, project: Id, agent: Id, m: Member): Tables {
    db.(members := db.members[Seat(project, agent) := m])
  }

  /** Writes the status of a row if there is one. */
  function WithStatus(db: Tables, project: Id, agent: Id, status: Status): Tables {
    if Seat(project, agent) in db.members then
      Seated(db, project, agent, db.members[Seat(project, agent)].(status := status))
    else db
  }

  function Titled(db: Tables, project: Id, p: Project): Tables {
    db.(projects := db.projects[project := p])
  }

  /** The outgoing owner of a closed project stays on: an existing row keeps everything but its status. */
  function StayOn(db: Tables, project: Id, agent: Id, at: int): Tables {
    if Seat(project, agent) in db.members then WithStatus(db, project, agent, Active)
    else Seated(db, project, agent, Member(Active, false, None, Some(at)))
  }

  function Succeeded(p: Project, successor: Option<Id>): Project {
    if successor.None? then p.(active := false, pending := None) else p.(owner := successor.value, pending := None)
  }

  // ----- the handlers -----

  function Create(db: Tables, caller: Id, project: Id, closed: bool, listed: Option<bool>, applications: Option<bool>, at: int): Tx {
    if !closed && (listed.Some? || applications.Some?) then Tx(db, Invalid)
    else
      var created := Titled(db, project,
        Project(caller, None, true, closed, if listed.Some? then listed.value else !closed,
                applications.Some? && applications.value));
      Tx(if closed then Seated(created, project, caller, Member(Active, false, None, Some(at))) else created, Done)
  }

  /** An invitation, or (without an inviter) an application. */
  function Ask(db: Tables, project: Id, agent: Id, inviter: Option<Id>, reviewer: bool, at: int): Tx {
    var seat := Seat(project, agent);
    if seat in db.members && (db.members[seat].status == Active || db.members[seat].status == Invited) then Tx(db, Conflict)
    else
      Tx(Seated(db, project, agent,
           if reviewer then Member(Reviewer, false, inviter, Some(at)) else Member(Invited, false, inviter, None)), Done)
  }

  function Invite(db: Tables, caller: Id, project: Id, agent: Id, reviewer: bool, at: int): Tx {
    if !Seen(db, project, caller) then Tx(db, NotFound)
    else if !CanAdminister(db, project, caller) then Tx(db, Denied)
    else if !db.projects[project].closed then Tx(db, Invalid)
    else if agent !in db.agents then Tx(db, NotFound)
    else Ask(db, project, agent, Some(caller), reviewer, at)
  }

  function Apply(db: Tables, caller: Id, project: Id, at: int): Tx {
    if !Seen(db, project, caller) then Tx(db, NotFound)
    else if !db.projects[project].closed then Tx(db, Invalid)
    else if !db.projects[project].applications then Tx(db, Denied)
    else Ask(db, project, caller, None, false, at)
  }

  function Decide(db: Tables, caller: Id, project: Id, agent: Id, accept: bool, at: int): Tx {
    var seat := Seat(project, agent);
    if seat !in db.members || project !in db.projects then Tx(db, NotFound)
    else
      var m := db.members[seat];
      if caller != agent && !CanAdminister(db, project, caller) then Tx(db, NotFound)
      else if m.invitedBy.Some? && caller != agent then Tx(db, Denied)
      else if m.invitedBy.None? && !CanAdminister(db, project, caller) then Tx(db, Denied)
      else if m.status != Invited then Tx(db, Conflict)
      else if !accept then Tx(db.(members := db.members - {seat}), Done)
      else Tx(Seated(db, project, agent, m.(status := Active, joinedAt := Some(at))), Done)
  }

  ghost function Remove(db: Tables, caller: Id, project: Id, agent: Id): Tx {
    if !Seen(db, project, caller) then Tx(db, NotFound)
    else if caller != agent && !CanAdminister(db, project, caller) then Tx(db, Denied)
    else
      var p := db.projects[project];
      if agent == p.owner then
        if caller != agent then Tx(db, Denied)
        else Tx(WithStatus(Titled(db, project, Succeeded(p, Successor(db, project))), project, agent, Left), Done)
      else if Seat(project, agent) !in db.members then Tx(db, NotFound)
      else Tx(WithStatus(db, project, agent, if caller == agent then Left else Revoked), Done)
  }

  function SetRole(db: Tables, caller: Id, project: Id, agent: Id, coordinator: bool): Tx {
    if !Seen(db, project, caller) then Tx(db, NotFound)
    else if db.projects[project].owner != caller then Tx(db, Denied)
    else if agent == db.projects[project].owner then Tx(db, Invalid)
    else if Seat(project, agent) !in db.members then Tx(db, NotFound)
    else if !IsActive(db, project, agent) then Tx(db, Conflict)
    else Tx(Seated(db, project, agent, db.members[Seat(project, agent)].(coordinator := coordinator)), Done)
  }

  function Transfer(db: Tables, caller: Id, project: Id, nominee: Id): Tx {
    if !Seen(db, project, caller) then Tx(db, NotFound)
    else if db.projects[project].owner != caller then Tx(db, Denied)
    else if nominee == db.projects[project].owner then Tx(db, Invalid)
    else if nominee !in db.agents then Tx(db, NotFound)
    else if db.projects[project].closed && !IsActive(db, project, nominee) then Tx(db, Invalid)
    else if !db.projects[project].active then Tx(db, Conflict)
    else Tx(Titled(db, project, db.projects[project].(pending := Some(nominee))), Done)
  }

  function DecideTransfer(db: Tables, caller: Id, project: Id, accept: bool, at: int): Tx {
    if project !in db.projects then Tx(db, NotFound)
    else
      var p := db.projects[project];
      if p.pending.None? then Tx(db, Conflict)
      else if caller != p.pending.value && caller != p.owner then Tx(db, NotFound)
      else if !accept || caller == p.owner then Tx(Titled(db, project, p.(pending := None)), Done)
      else
        var handed := Titled(db, project, p.(owner := caller, pending := None));
        Tx(if p.closed then StayOn(handed, project, p.owner, at) else handed, Done)
  }

  // ----- steps -----

  datatype Op =
    | OpRegister(caller: Id)
    | OpCreate(caller: Id, project: Id, closed: bool, listed: Option<bool>, applications: Option<bool>, at: int)
    | OpInvite(caller: Id, project: Id, agent: Id, reviewer: bool, at: int)
    | OpApply(caller: Id, project: Id, at: int)
    | OpDecide(caller: Id, project: Id, agent: Id, accept: bool, at: int)
    | OpRemove(caller: Id, project: Id, agent: Id)
    | OpSetRole(caller: Id, project: Id, agent: Id, coordinator: bool)
    | OpTransfer(caller: Id, project: Id, nominee: Id)
    | OpDecideTransfer(caller: Id, project: Id, accept: bool, at: int)

  ghost function Outcome(db: Tables, op: Op): Tx {
    match op
    case OpRegister(agent) => Tx(db.(agents := db.agents + {agent}), Done)
    case OpCreate(caller, project, closed, listed, applications, at) =>
      Create(db, caller, project, closed, listed, applications, at)
    case OpInvite(caller, project, agent, reviewer, at) => Invite(db, caller, project, agent, reviewer, at)
    case OpApply(caller, project, at) => Apply(db, caller, project, at)
    case OpDecide(caller, project, agent, accept, at) => Decide(db, caller, project, agent, accept, at)
    case OpRemove(caller, project, agent) => Remove(db, caller, project, agent)
    case OpSetRole(caller, project, agent, coordinator) => SetRole(db, caller, project, agent, coordinator)
    case OpTransfer(caller, project, nominee) => Transfer(db, caller, project, nominee)
    case OpDecideTransfer(caller, project, accept, at) => DecideTransfer(db, caller, project, accept, at)
  }

  /** A request that succeeded, and the tables it found. */
  datatype Entry = Entry(op: Op, db: Tables)

  datatype World = World(db: Tables, log: seq<Entry>)

  const START := World(EMPTY, [])

  /** New projects get new identifiers. */
  predicate Allowed(w: World, op: Op) {
    op.OpCreate? ==>
      && op.project !in w.db.projects
      && forall seat | seat in w.db.members :: seat.project != op.project
  }

  ghost function Step(w: World, op: Op): World {
    var tx := Outcome(w.db, op);
    World(tx.db, if tx.reply == Done then w.log + [Entry(op, w.db)] else w.log)
  }

  ghost function Run(ops: seq<Op>): World {
    if ops == [] then START else Step(Run(ops[..|ops| - 1]), ops[|ops| - 1])
  }

  ghost predicate Legal(ops: seq<Op>) {
    ops == [] || (Legal(ops[..|ops| - 1]) && Allowed(Run(ops[..|ops| - 1]), ops[|ops| - 1]))
  }

  lemma RefusedChangesNothing(db: Tables, op: Op)
    ensures Outcome(db, op).reply != Done ==> Outcome(db, op).db == db
  {
  }

  // ----- what the history says -----

  /** Requests that decide anew who owns or is to own the project. */
  predicate TouchesTitle(e: Entry, project: Id) {
    && !e.op.OpRegister? && e.op.project == project
    && (|| e.op.OpCreate? || e.op.OpTransfer? || e.op.OpDecideTransfer?
        || (e.op.OpRemove? && project in e.db.projects && e.op.agent == e.db.projects[project].owner))
  }

  /** Requests that decide anew what role a row holds. */
  predicate TouchesRole(e: Entry, seat: Seat) {
    match e.op
    case OpCreate(caller, project, _, _, _, _) => Seat(project, caller) == seat
    case OpInvite(_, project, agent, _, _) => Seat(project, agent) == seat
    case OpApply(caller, project, _) => Seat(project, caller) == seat
    case OpDecide(_, project, agent, accept, _) => Seat(project, agent) == seat && !accept
    case OpSetRole(_, project, agent, _) => Seat(project, agent) == seat
    case _ => false
  }

  /** `owner`, who owned the project then, nominated `nominee`, and nothing has touched the title since. */
  ghost predicate Nomination(log: seq<Entry>, j: nat, project: Id, owner: Id, nominee: Id) {
    && j < |log|
    && log[j].op == OpTransfer(owner, project, nominee)
    && project in log[j].db.projects && log[j].db.projects[project].owner == owner
    && forall i | j < i < |log| :: !TouchesTitle(log[i], project)
  }

  /** The owner of that time made the agent a coordinator, and nothing has touched the role since. */
  ghost predicate Appointment(log: seq<Entry>, j: nat, seat: Seat) {
    && j < |log|
    && log[j].op.OpSetRole? && log[j].op.project == seat.project && log[j].op.agent == seat.agent && log[j].op.coordinator
    && seat.project in log[j].db.projects && log[j].db.projects[seat.project].owner == log[j].op.caller
    && forall i | j < i < |log| :: !TouchesRole(log[i], seat)
  }

  /** The project's side was an administrator's invitation, or the agent's side was its own application. */
  predicate Asking(e: Entry, seat: Seat, inviter: Option<Id>) {
    match inviter
    case Some(b) =>
      && e.op.OpInvite? && e.op.caller == b && Seat(e.op.project, e.op.agent) == seat
      && CanAdminister(e.db, seat.project, b)
    case None => e.op.OpApply? && Seat(e.op.project, e.op.caller) == seat
  }

  /** The other side said yes. */
  predicate Answer(e: Entry, seat: Seat, inviter: Option<Id>) {
    && e.op.OpDecide? && Seat(e.op.project, e.op.agent) == seat && e.op.accept
    && match inviter
       case Some(_) => e.op.caller == seat.agent
       case None => CanAdminister(e.db, seat.project, e.op.caller)
  }

  /** Owners sit in what they create, and stay on when they hand over. */
  predicate OwnersSeat(e: Entry, seat: Seat) {
    || (e.op.OpCreate? && e.op.closed && Seat(e.op.project, e.op.caller) == seat)
    || (e.op.OpDecideTransfer? && e.op.project == seat.project && e.op.accept && e.op.caller != seat.agent
        && seat.project in e.db.projects && e.db.projects[seat.project].closed
        && e.db.projects[seat.project].owner == seat.agent)
  }

  /** Requests that write or delete the row's status. */
  predicate TouchesSeat(e: Entry, seat: Seat) {
    || OwnersSeat(e, seat)
    || (e.op.OpApply? && Seat(e.op.project, e.op.caller) == seat)
    || ((e.op.OpInvite? || e.op.OpDecide? || e.op.OpRemove?) && Seat(e.op.project, e.op.agent) == seat)
  }

  /** The row was asked for, and nothing has touched it since. */
  ghost predicate Asked(log: seq<Entry>, seat: Seat, inviter: Option<Id>) {
    exists i | 0 <= i < |log| :: Asking(log[i], seat, inviter) && Untouched(log, i, seat)
  }

  ghost predicate Untouched(log: seq<Entry>, i: nat, seat: Seat) {
    forall k | i < k < |log| :: !TouchesSeat(log[k], seat)
  }

  /** Both sides agreed, in either order, or the agent owned the project; and nothing has touched the row since. */
  ghost predicate Admitted(log: seq<Entry>, seat: Seat) {
    exists j | 0 <= j < |log| :: Admits(log, j, seat) && Untouched(log, j, seat)
  }

  ghost predicate Admits(log: seq<Entry>, j: nat, seat: Seat)
    requires j < |log|
  {
    || OwnersSeat(log[j], seat)
    || exists inviter :: Answer(log[j], seat, inviter) && Asked(log[..j], seat, inviter)
  }

  // ----- the invariant -----

  ghost predicate PendingOk(w: World, project: Id)
    requires project in w.db.projects
  {
    var p := w.db.projects[project];
    p.pending.Some? ==>
      && p.active && p.pending.value != p.owner
      && exists j :: Nomination(w.log, j, project, p.owner, p.pending.value)
  }

  ghost predicate RoleOk(w: World, seat: Seat)
    requires seat in w.db.members
  {
    w.db.members[seat].coordinator ==> exists j :: Appointment(w.log, j, seat)
  }

  ghost predicate SeatOk(w: World, seat: Seat)
    requires seat in w.db.members
  {
    var m := w.db.members[seat];
    && (m.status == Invited ==> Asked(w.log, seat, m.invitedBy))
    && (m.status == Active ==> Admitted(w.log, seat))
  }

  ghost predicate Titles(w: World) {
    forall project {:trigger PendingOk(w, project)} | project in w.db.projects :: PendingOk(w, project)
  }

  ghost predicate Roles(w: World) {
    forall seat {:trigger RoleOk(w, seat)} | seat in w.db.members :: RoleOk(w, seat)
  }

  ghost predicate Seats(w: World) {
    forall seat {:trigger SeatOk(w, seat)} | seat in w.db.members :: SeatOk(w, seat)
  }

  // ----- one more entry -----

  lemma NominationStands(log: seq<Entry>, e: Entry, project: Id, owner: Id, nominee: Id)
    requires exists j :: Nomination(log, j, project, owner, nominee)
    requires !TouchesTitle(e, project)
    ensures exists j :: Nomination(log + [e], j, project, owner, nominee)
  {
    var j :| Nomination(log, j, project, owner, nominee);
    assert Nomination(log + [e], j, project, owner, nominee);
  }

  lemma AppointmentStands(log: seq<Entry>, e: Entry, seat: Seat)
    requires exists j :: Appointment(log, j, seat)
    requires !TouchesRole(e, seat)
    ensures exists j :: Appointment(log + [e], j, seat)
  {
    var j :| Appointment(log, j, seat);
    assert Appointment(log + [e], j, seat);
  }

  lemma AskedStands(log: seq<Entry>, e: Entry, seat: Seat, inviter: Option<Id>)
    requires Asking(e, seat, inviter) || (Asked(log, seat, inviter) && !TouchesSeat(e, seat))
    ensures Asked(log + [e], seat, inviter)
  {
    if Asking(e, seat, inviter) {
      assert Asking((log + [e])[|log|], seat, inviter) && Untouched(log + [e], |log|, seat);
    } else {
      var i :| 0 <= i < |log| && Asking(log[i], seat, inviter) && Untouched(log, i, seat);
      assert Asking((log + [e])[i], seat, inviter) && Untouched(log + [e], i, seat);
    }
  }

  lemma AdmittedStands(log: seq<Entry>, e: Entry, seat: Seat)
    requires Admitted(log, seat) && !TouchesSeat(e, seat)
    ensures Admitted(log + [e], seat)
  {
    var j :| 0 <= j < |log| && Admits(log, j, seat) && Untouched(log, j, seat);
    assert (log + [e])[j] == log[j] && (log + [e])[..j] == log[..j];
    assert Admits(log + [e], j, seat) && Untouched(log + [e], j, seat);
  }

  lemma AdmittedNow(log: seq<Entry>, e: Entry, seat: Seat, inviter: Option<Id>)
    requires OwnersSeat(e, seat) || (Answer(e, seat, inviter) && Asked(log, seat, inviter))
    ensures Admitted(log + [e], seat)
  {
    assert (log + [e])[|log|] == e && (log + [e])[..|log|] == log;
    assert Admits(log + [e], |log|, seat) && Untouched(log + [e], |log|, seat);
  }

  // ----- every request keeps the invariant -----

  /** The five ways a request leaves an existing project. */
  lemma TitleEffect(db: Tables, op: Op, project: Id)
    requires project in db.projects && (op.OpCreate? ==> op.project != project)
    ensures project in Outcome(db, op).db.projects
    ensures var p, q := db.projects[project], Outcome(db, op).db.projects[project];
            || q == p
            || (op.OpTransfer? && op.caller == p.owner && p.active && op.nominee != p.owner && q == p.(pending := Some(op.nominee)))
            || (op.OpDecideTransfer? && p.pending.Some? && (op.caller == p.owner || op.caller == p.pending.value) && q == p.(pending := None))
            || (op.OpDecideTransfer? && op.accept && p.pending == Some(op.caller) && q == p.(owner := op.caller, pending := None))
            || (op == OpRemove(p.owner, project, p.owner) && q == Succeeded(p, Successor(db, project)))
  {
  }

  lemma StepKeepsTitles(w: World, op: Op)
    requires Titles(w) && Allowed(w, op) && Outcome(w.db, op).reply == Done
    ensures Titles(Step(w, op))
  {
    var w', e := Step(w, op), Entry(op, w.db);
    forall project | project in w'.db.projects ensures PendingOk(w', project) {
      if TouchesTitle(e, project) {
        if op.OpTransfer? {
          assert w'.log[|w.log|] == e;
          assert Nomination(w'.log, |w.log|, project, op.caller, op.nominee);
        }
      } else {
        assert w'.db.projects[project] == w.db.projects[project];
        assert PendingOk(w, project);
        if w.db.projects[project].pending.Some? {
          NominationStands(w.log, e, project, w.db.projects[project].owner, w.db.projects[project].pending.value);
        }
      }
    }
  }

  lemma StepKeepsRoles(w: World, op: Op)
    requires Roles(w) && Allowed(w, op) && Outcome(w.db, op).reply == Done
    ensures Roles(Step(w, op))
  {
    var w', e := Step(w, op), Entry(op, w.db);
    forall seat | seat in w'.db.members ensures RoleOk(w', seat) {
      if w'.db.members[seat].coordinator {
        if TouchesRole(e, seat) {
          assert w'.log[|w.log|] == e;
          assert Appointment(w'.log, |w.log|, seat);
        } else {
          assert RoleOk(w, seat);
          AppointmentStands(w.log, e, seat);
        }
      }
    }
  }

  /** A row that reads "invited" or "active" read so before and was not touched, or this request is the reason. */
  lemma SeatBefore(db: Tables, op: Op, seat: Seat)
    requires Outcome(db, op).reply == Done && seat in Outcome(db, op).db.members
    ensures var m := Outcome(db, op).db.members[seat];
            && (m.status == Invited ==>
                  || (seat in db.members && db.members[seat].status == Invited && db.members[seat].invitedBy == m.invitedBy
                      && !TouchesSeat(Entry(op, db), seat))
                  || Asking(Entry(op, db), seat, m.invitedBy))
            && (m.status == Active ==>
                  || (seat in db.members && db.members[seat].status == Active && !TouchesSeat(Entry(op, db), seat))
                  || OwnersSeat(Entry(op, db), seat)
                  || (seat in db.members && db.members[seat].status == Invited
                      && Answer(Entry(op, db), seat, db.members[seat].invitedBy)))
  {
  }

  lemma StepKeepsSeats(w: World, op: Op)
    requires Seats(w) && Outcome(w.db, op).reply == Done
    ensures Seats(Step(w, op))
  {
    var w', e := Step(w, op), Entry(op, w.db);
    forall seat | seat in w'.db.members ensures SeatOk(w', seat) {
      var m := w'.db.members[seat];
      SeatBefore(w.db, op, seat);
      assert seat in w.db.members ==> SeatOk(w, seat);
      if m.status == Invited {
        AskedStands(w.log, e, seat, m.invitedBy);
      } else if m.status == Active {
        if seat in w.db.members && w.db.members[seat].status == Active && !TouchesSeat(e, seat) {
          AdmittedStands(w.log, e, seat);
        } else {
          AdmittedNow(w.log, e, seat, if seat in w.db.members then w.db.members[seat].invitedBy else None);
        }
      }
    }
  }

  lemma {:induction false} Always(ops: seq<Op>)
    requires Legal(ops)
    ensures Titles(Run(ops)) && Roles(Run(ops)) && Seats(Run(ops))
  {
    if ops != [] {
      var w, op := Run(ops[..|ops| - 1]), ops[|ops| - 1];
      Always(ops[..|ops| - 1]);
      RefusedChangesNothing(w.db, op);
      if Outcome(w.db, op).reply == Done {
        StepKeepsTitles(w, op);
        StepKeepsRoles(w, op);
        StepKeepsSeats(w, op);
      }
    }
  }

  // ----- the results -----

  /** If the request changes the owner, then it is the standing nominee of the present owner accepting, or the owner
      leaving a closed project, which goes to the heir. */
  ghost predicate ByConsent(w: World, op: Op, project: Id) {
    project in w.db.projects ==>
      && project in Outcome(w.db, op).db.projects
      && var was, becomes := w.db.projects[project].owner, Outcome(w.db, op).db.projects[project].owner;
         was != becomes ==>
           || (op.OpDecideTransfer? && op.accept && op.caller == becomes && exists j :: Nomination(w.log, j, project, was, becomes))
           || (op == OpRemove(was, project, was) && w.db.projects[project].closed && Heir(w.db, project, becomes))
  }

  lemma OwnerChangesByConsent(ops: seq<Op>, op: Op, project: Id)
    requires Legal(ops) && Allowed(Run(ops), op)
    ensures ByConsent(Run(ops), op, project)
  {
    if project in Run(ops).db.projects {
      Always(ops);
      TitleEffect(Run(ops).db, op, project);
      assert PendingOk(Run(ops), project);
    }
  }

  /** What is pending was nominated by the present owner, concerns someone else, and only an active project has it. */
  lemma PendingIsTheOwnersWord(ops: seq<Op>, project: Id)
    requires Legal(ops) && project in Run(ops).db.projects && Run(ops).db.projects[project].pending.Some?
    ensures Run(ops).db.projects[project].active
    ensures Run(ops).db.projects[project].pending.value != Run(ops).db.projects[project].owner
    ensures exists j :: Nomination(Run(ops).log, j, project, Run(ops).db.projects[project].owner, Run(ops).db.projects[project].pending.value)
  {
    Always(ops);
    assert PendingOk(Run(ops), project);
  }

  /** Whoever holds the coordinator's role was given it by the owner of that time, and nothing took it since. */
  lemma RolesComeFromOwners(ops: seq<Op>, seat: Seat)
    requires Legal(ops) && seat in Run(ops).db.members && Run(ops).db.members[seat].coordinator
    ensures exists j :: Appointment(Run(ops).log, j, seat)
  {
    Always(ops);
    assert RoleOk(Run(ops), seat);
  }

  /** Nobody is an active member without both an administrator's and the agent's own act, except as an owner. */
  lemma MembershipByConsent(ops: seq<Op>, seat: Seat)
    requires Legal(ops) && seat in Run(ops).db.members && Run(ops).db.members[seat].status == Active
    ensures Admitted(Run(ops).log, seat)
  {
    Always(ops);
    assert SeatOk(Run(ops), seat);
  }

  lemma SeniorOrders(db: Tables, project: Id, s: set<Id>)
    requires forall c | c in s :: Seat(project, c) in db.members
    ensures Least.Orders(s, (a, b) => Senior(db, project, a, b))
  {
    forall x, y | x in s && y in s
      ensures Senior(db, project, x, y) || Senior(db, project, y, x)
      ensures Senior(db, project, x, y) && Senior(db, project, y, x) ==> x == y
    {
      TextOrder.Total(x.text, y.text);
    }
    forall x, y, z | x in s && y in s && z in s && Senior(db, project, x, y) && Senior(db, project, y, z)
      ensures Senior(db, project, x, z)
    {
      if db.members[Seat(project, x)].joinedAt == db.members[Seat(project, y)].joinedAt == db.members[Seat(project, z)].joinedAt {
        TextOrder.Chain(x.text, y.text, z.text);
      }
    }
  }

  function Candidates(db: Tables, project: Id): set<Id>
    requires project in db.projects
  {
    set seat | seat in db.members && seat.project == project && Coordinates(db, project, seat.agent)
               && seat.agent != db.projects[project].owner :: seat.agent
  }

  lemma HeirIsLeast(db: Tables, project: Id, s: Id)
    requires project in db.projects
    ensures Heir(db, project, s) <==> Least.IsLeast(Candidates(db, project), (a, b) => Senior(db, project, a, b), s)
  {
    forall c ensures c in Candidates(db, project) <==> Coordinates(db, project, c) && c != db.projects[project].owner {
      if Coordinates(db, project, c) {
        assert Seat(project, c) in db.members;
      }
    }
    if Least.IsLeast(Candidates(db, project), (a, b) => Senior(db, project, a, b), s) {
      forall c | Seat(project, c) in db.members && Coordinates(db, project, c) && c != db.projects[project].owner
        ensures Senior(db, project, s, c)
      {
        assert c in Candidates(db, project);
      }
    }
  }

  /** There is exactly one heir when there is another active coordinator at all. */
  lemma OneHeir(db: Tables, project: Id)
    requires project in db.projects
    ensures (exists s :: Heir(db, project, s)) <==> exists c :: Coordinates(db, project, c) && c != db.projects[project].owner
    ensures forall s, t | Heir(db, project, s) && Heir(db, project, t) :: s == t
  {
    var leq := (a, b) => Senior(db, project, a, b);
    SeniorOrders(db, project, Candidates(db, project));
    if c :| Coordinates(db, project, c) && c != db.projects[project].owner {
      assert Seat(project, c) in db.members && c in Candidates(db, project);
      Least.Exists(Candidates(db, project), leq);
      var s :| Least.IsLeast(Candidates(db, project), leq, s);
      HeirIsLeast(db, project, s);
    }
    forall s, t | Heir(db, project, s) && Heir(db, project, t) ensures s == t {
      HeirIsLeast(db, project, s);
      HeirIsLeast(db, project, t);
      Least.Unique(Candidates(db, project), leq, s, t);
    }
  }

  /** A departure never leaves the departed in charge: a closed project with another active coordinator goes to the
      heir and keeps its status, any other is archived; either way nothing stays pending. */
  ghost predicate DepartsInOrder(db: Tables, project: Id)
    requires project in db.projects
  {
    var o := db.projects[project].owner;
    var tx := Remove(db, o, project, o);
    && tx.reply == Done && project in tx.db.projects
    && !IsActive(tx.db, project, o)
    && var before, after := db.projects[project], tx.db.projects[project];
       && after.pending.None?
       && if before.closed && exists c :: Coordinates(db, project, c) && c != o
          then after.owner != o && Heir(db, project, after.owner) && after.active == before.active
               && Coordinates(tx.db, project, after.owner)
          else after.owner == o && !after.active
  }

  lemma DepartureLeavesSomeoneOrArchives(db: Tables, project: Id)
    requires project in db.projects
    ensures DepartsInOrder(db, project)
  {
    OneHeir(db, project);
  }

  /** Withdrawing undoes nominating: the tables are as before the offer, and the nominee is too late to accept. */
  lemma WithdrawalUndoesNomination(db: Tables, owner: Id, project: Id, nominee: Id, accept: bool, at: int, late: int)
    requires Transfer(db, owner, project, nominee).reply == Done && db.projects[project].pending.None?
    ensures var offered := Transfer(db, owner, project, nominee).db;
            && DecideTransfer(offered, owner, project, accept, at) == Tx(db, Done)
            && DecideTransfer(offered, nominee, project, false, at) == Tx(db, Done)
            && DecideTransfer(db, nominee, project, true, late) == Tx(db, Conflict)
  {
    var offered := Transfer(db, owner, project, nominee).db;
    assert offered.projects[project := db.projects[project]] == db.projects;
  }

  /** An archived project stays archived, whoever owns it, and nothing is ever pending for it. */
  lemma {:induction false} ArchivedStays(ops: seq<Op>, k: nat, project: Id)
    requires Legal(ops) && k <= |ops| && project in Run(ops[..k]).db.projects && !Run(ops[..k]).db.projects[project].active
    ensures project in Run(ops).db.projects && !Run(ops).db.projects[project].active
    ensures Run(ops).db.projects[project].pending.None?
    decreases |ops|
  {
    if k == |ops| {
      assert ops[..k] == ops;
      Always(ops);
      assert PendingOk(Run(ops), project);
    } else {
      var before, op := ops[..|ops| - 1], ops[|ops| - 1];
      assert before[..k] == ops[..k];
      ArchivedStays(before, k, project);
      TitleEffect(Run(before).db, op, project);
    }
  }

  /** Requests of anyone but the owner and the nominee leave the project's row as it is. */
  lemma OnlyOwnerAndNominee(ops: seq<Op>, op: Op, project: Id)
    requires Legal(ops) && Allowed(Run(ops), op) && project in Run(ops).db.projects
    requires op.caller != Run(ops).db.projects[project].owner
    requires Some(op.caller) != Run(ops).db.projects[project].pending
    ensures project in Step(Run(ops), op).db.projects
    ensures Step(Run(ops), op).db.projects[project] == Run(ops).db.projects[project]
  {
    TitleEffect(Run(ops).db, op, project);
  }

  lemma LegalSnoc(ops: seq<Op>, op: Op)
    requires Legal(ops) && Allowed(Run(ops), op)
    ensures Legal(ops + [op]) && Run(ops + [op]) == Step(Run(ops), op)
  {
    assert (ops + [op])[..|ops|] == ops;
  }
}
