/** The project and membership stores and the handlers over them. A ghost trace records the requests so far. */
module OwnershipStore {
  import opened Common
  import opened Ownership
  import opened Tenure
  import Least

  /** In the order of the query, nobody twice. */
  ghost predicate Ranked(db: Tables, project: Id, list: seq<Id>) {
    forall i, j | 0 <= i < j < |list| :: list[i] != list[j] && Senior(db, project, list[i], list[j])
  }

  class Store {
    var agents: set<Id>
    var projects: map<Id, Project>
    var members: map<Seat, Member>
    ghost var trace: seq<Op>

    function View(): Tables
      reads this
    {
      Tables(agents, projects, members)
    }

    ghost predicate Valid()
      reads this
    {
      Legal(trace) && Run(trace).db == View()
    }

    constructor ()
      ensures Valid() && trace == [] && View() == EMPTY
    {
      agents, projects, members, trace := {}, map[], map[], [];
    }

    ghost method Commit(op: Op)
      requires Legal(trace) && Allowed(Run(trace), op) && Outcome(Run(trace).db, op).db == View()
      modifies this`trace
      ensures Valid() && trace == old(trace) + [op]
    {
      ghost var longer := trace + [op];
      assert Legal(longer) && Run(longer).db == View() by {
        LegalSnoc(trace, op);
      }
      trace := longer;
    }

    /** What holds of every run holds of a valid store: of its projects, of its rows, and of the next request. */
    lemma Sound(project: Id, seat: Seat, op: Op)
      requires Valid()
      ensures project in projects ==> PendingOk(Run(trace), project) && DepartsInOrder(View(), project)
      ensures seat in members ==> RoleOk(Run(trace), seat) && SeatOk(Run(trace), seat)
      ensures Allowed(Run(trace), op) ==> ByConsent(Run(trace), op, project)
    {
      Always(trace);
      if project in projects {
        DepartureLeavesSomeoneOrArchives(View(), project);
      }
      if Allowed(Run(trace), op) {
        OwnerChangesByConsent(trace, op, project);
      }
    }

    /** And of what earlier requests left: an archived project stays archived; a closed one is owned by an active
        member unless somebody accepted from outside; and its heir is the longest-standing coordinator unless an
        undated owner was taken over from. */
    lemma Lasting(project: Id, k: nat, s: Id)
      requires Valid() && k <= |trace|
      ensures project in Run(trace[..k]).db.projects && !Run(trace[..k]).db.projects[project].active ==>
                project in projects && !projects[project].active && projects[project].pending.None?
      ensures (project in projects && forall e | e in Run(trace).log :: !AcceptsFromOutside(e.db, e.op, project)) ==>
                OwnerSeated(View(), project)
      ensures (Heir(View(), project, s) && forall e | e in Run(trace).log :: !SeatsUndatedOwner(e.db, e.op, project)) ==>
                LongestStanding(View(), project, s)
    {
      if project in Run(trace[..k]).db.projects && !Run(trace[..k]).db.projects[project].active {
        ArchivedStays(trace, k, project);
      }
      if project in projects && forall e | e in Run(trace).log :: !AcceptsFromOutside(e.db, e.op, project) {
        OwnerIsMemberUnless(trace, project);
      }
      if Heir(View(), project, s) && forall e | e in Run(trace).log :: !SeatsUndatedOwner(e.db, e.op, project) {
        HeirIsLongestStandingUnless(trace, project, s);
      }
    }

    // ----- the project store -----

    method Nominate(project: Id, nominee: Id) returns (reply: Reply)
      modifies this`projects
      ensures reply == Done <==> project in old(projects) && old(projects)[project].active
      ensures reply != Done ==> reply == Conflict && projects == old(projects)
      ensures reply == Done ==> projects == old(projects)[project := old(projects)[project].(pending := Some(nominee))]
    {
      if project !in projects || !projects[project].active {
        return Conflict;
      }
      projects := projects[project := projects[project].(pending := Some(nominee))];
      return Done;
    }

    method AcceptTransfer(project: Id, newOwner: Id, at: int) returns (reply: Reply)
      modifies this`projects, this`members
      ensures reply == NotFound <==> project !in old(projects)
      ensures reply == Conflict <==> project in old(projects) && old(projects)[project].pending != Some(newOwner)
      ensures reply in {Done, NotFound, Conflict}
      ensures reply != Done ==> projects == old(projects) && members == old(members)
      ensures reply == Done ==>
                && var p := old(projects)[project];
                   && projects == old(projects)[project := p.(owner := newOwner, pending := None)]
                   && View() == if p.closed then StayOn(old(View()).(projects := projects), project, p.owner, at)
                                else old(View()).(projects := projects)
    {
      if project !in projects {
        return NotFound;
      }
      var p := projects[project];
      if p.pending != Some(newOwner) {
        return Conflict;
      }
      projects := projects[project := p.(owner := newOwner, pending := None)];
      if p.closed {
        var seat := Seat(project, p.owner);
        var m := Member(Active, false, None, Some(at));
        if seat in members {
          m := members[seat].(status := Active);
        }
        members := members[seat := m];
      }
      return Done;
    }

    method CancelTransfer(project: Id)
      requires project in projects
      modifies this`projects
      ensures projects == old(projects)[project := old(projects)[project].(pending := None)]
    {
      projects := projects[project := projects[project].(pending := None)];
    }

    method Succeed(project: Id, successor: Option<Id>)
      requires project in projects
      modifies this`projects
      ensures projects == old(projects)[project := Succeeded(old(projects)[project], successor)]
    {
      if successor.None? {
        projects := projects[project := projects[project].(active := false)];
      } else {
        projects := projects[project := projects[project].(owner := successor.value)];
      }
      projects := projects[project := projects[project].(pending := None)];
    }

    // ----- the membership store -----

    method AskIn(project: Id, agent: Id, inviter: Option<Id>, reviewer: bool, at: int) returns (reply: Reply)
      modifies this`members
      ensures View() == Ask(old(View()), project, agent, inviter, reviewer, at).db
      ensures reply == Ask(old(View()), project, agent, inviter, reviewer, at).reply
      ensures reply == Conflict <==> Seat(project, agent) in old(members) && old(members)[Seat(project, agent)].status in {Active, Invited}
      ensures reply == Done ==> Seat(project, agent) in members && !members[Seat(project, agent)].coordinator
                                && !IsActive(View(), project, agent)
    {
      var seat := Seat(project, agent);
      if seat in members && members[seat].status in {Active, Invited} {
        return Conflict;
      }
      var status, joined := Invited, None;
      if reviewer {
        status, joined := Reviewer, Some(at);
      }
      members := members[seat := Member(status, false, inviter, joined)];
      return Done;
    }

    /** Declining deletes the row, accepting dates it. */
    method Resolve(project: Id, agent: Id, accept: bool, at: int) returns (reply: Reply)
      modifies this`members
      ensures reply == NotFound <==> Seat(project, agent) !in old(members)
      ensures reply == Conflict <==> Seat(project, agent) in old(members) && old(members)[Seat(project, agent)].status != Invited
      ensures reply in {Done, NotFound, Conflict}
      ensures reply != Done ==> members == old(members)
      ensures reply == Done && !accept ==> members == old(members) - {Seat(project, agent)}
      ensures reply == Done && accept ==>
                members == old(members)[Seat(project, agent) :=
                             old(members)[Seat(project, agent)].(status := Active, joinedAt := Some(at))]
    {
      var seat := Seat(project, agent);
      if seat !in members {
        return NotFound;
      }
      if members[seat].status != Invited {
        return Conflict;
      }
      if !accept {
        members := members - {seat};
      } else {
        members := members[seat := members[seat].(status := Active, joinedAt := Some(at))];
      }
      return Done;
    }

    method SetStatus(project: Id, agent: Id, status: Status) returns (reply: Reply)
      modifies this`members
      ensures reply == if Seat(project, agent) in old(members) then Done else NotFound
      ensures View() == WithStatus(old(View()), project, agent, status)
    {
      var seat := Seat(project, agent);
      if seat !in members {
        return NotFound;
      }
      members := members[seat := members[seat].(status := status)];
      return Done;
    }

    method AssignRole(project: Id, agent: Id, coordinator: bool) returns (reply: Reply)
      modifies this`members
      ensures reply == Done <==> IsActive(old(View()), project, agent)
      ensures reply == NotFound <==> Seat(project, agent) !in old(members)
      ensures reply in {Done, NotFound, Conflict}
      ensures reply != Done ==> members == old(members)
      ensures reply == Done ==>
                members == old(members)[Seat(project, agent) := old(members)[Seat(project, agent)].(coordinator := coordinator)]
    {
      var seat := Seat(project, agent);
      if IsActive(View(), project, agent) {
        members := members[seat := members[seat].(coordinator := coordinator)];
        return Done;
      }
      return if seat in members then Conflict else NotFound;
    }

    /** The active coordinators, in the order of the query. */
    method Coordinators(project: Id) returns (list: seq<Id>)
      ensures forall c :: c in list <==> Coordinates(View(), project, c)
      ensures Ranked(View(), project, list)
    {
      list := [];
      var rest := set seat | seat in members && seat.project == project && Coordinates(View(), project, seat.agent) :: seat.agent;
      assert forall c | Coordinates(View(), project, c) :: Seat(project, c) in members && c in rest;
      while rest != {}
        invariant forall c :: Coordinates(View(), project, c) <==> c in list || c in rest
        invariant forall c | c in rest :: c !in list
        invariant Ranked(View(), project, list)
        invariant forall c, d | c in list && d in rest :: Senior(View(), project, c, d)
        decreases rest
      {
        var c := First(project, rest);
        list, rest := list + [c], rest - {c};
      }
    }

    method First(project: Id, rest: set<Id>) returns (c: Id)
      requires rest != {} && forall d | d in rest :: Seat(project, d) in members
      ensures c in rest && forall d | d in rest :: Senior(View(), project, c, d)
    {
      MostSenior(View(), project, rest);
      c :| c in rest && forall d | d in rest :: Senior(View(), project, c, d);
    }

    // ----- the handlers -----

    /** Passes over the departing owner, who may still be marked a coordinator. */
    method SuccessorFor(project: Id) returns (successor: Option<Id>)
      requires project in projects
      ensures successor == Successor(View(), project)
    {
      OneHeir(View(), project);
      if !projects[project].closed {
        return None;
      }
      var list := Coordinators(project);
      for i := 0 to |list|
        invariant forall k | 0 <= k < i :: list[k] == projects[project].owner
      {
        if list[i] != projects[project].owner {
          assert Heir(View(), project, list[i]) by {
            Heads(View(), project, list, i);
          }
          return Some(list[i]);
        }
      }
      return None;
    }

    method RegisterAgent(agent: Id)
      requires Valid()
      modifies this
      ensures Valid() && trace == old(trace) + [OpRegister(agent)]
      ensures View() == old(View()).(agents := old(agents) + {agent})
    {
      agents := agents + {agent};
      Commit(OpRegister(agent));
    }

    method CreateProject(caller: Id, project: Id, closed: bool, listed: Option<bool>, applications: Option<bool>, at: int)
      returns (reply: Reply)
      requires Valid() && Allowed(Run(trace), OpCreate(caller, project, closed, listed, applications, at))
      modifies this
      ensures Valid() && trace == old(trace) + [OpCreate(caller, project, closed, listed, applications, at)]
      ensures reply == Done <==> closed || (listed.None? && applications.None?)
      ensures reply != Done ==> View() == old(View())
      ensures reply == Done ==>
                && CanAdminister(View(), project, caller) && (closed ==> IsActive(View(), project, caller))
                && projects[project].owner == caller && projects[project].active && projects[project].pending.None?
                && projects[project].listed == if listed.Some? then listed.value else !closed
      ensures View() == Create(old(View()), caller, project, closed, listed, applications, at).db
    {
      reply := Done;
      if !closed && (listed.Some? || applications.Some?) {
        reply := Invalid;
      } else {
        var shown, policy := !closed, false;
        if listed.Some? {
          shown := listed.value;
        }
        if applications.Some? {
          policy := applications.value;
        }
        projects := projects[project := Project(caller, None, true, closed, shown, policy)];
        if closed {
          members := members[Seat(project, caller) := Member(Active, false, None, Some(at))];
        }
      }
      Commit(OpCreate(caller, project, closed, listed, applications, at));
    }

    method HandleInvite(caller: Id, project: Id, agent: Id, reviewer: bool, at: int) returns (reply: Reply)
      requires Valid()
      modifies this
      ensures Valid() && trace == old(trace) + [OpInvite(caller, project, agent, reviewer, at)]
      ensures View() == Invite(old(View()), caller, project, agent, reviewer, at).db
      ensures reply == Invite(old(View()), caller, project, agent, reviewer, at).reply
      ensures reply == Done ==>
                && CanAdminister(old(View()), project, caller) && agent in agents
                && !IsActive(old(View()), project, agent) && !IsActive(View(), project, agent)
    {
      if !Seen(View(), project, caller) {
        reply := NotFound;
      } else if !CanAdminister(View(), project, caller) {
        reply := Denied;
      } else if !projects[project].closed {
        reply := Invalid;
      } else if agent !in agents {
        reply := NotFound;
      } else {
        reply := AskIn(project, agent, Some(caller), reviewer, at);
      }
      Commit(OpInvite(caller, project, agent, reviewer, at));
    }

    method HandleApply(caller: Id, project: Id, at: int) returns (reply: Reply)
      requires Valid()
      modifies this
      ensures Valid() && trace == old(trace) + [OpApply(caller, project, at)]
      ensures View() == Apply(old(View()), caller, project, at).db
      ensures reply == Apply(old(View()), caller, project, at).reply
      ensures reply == Done ==> !IsActive(old(View()), project, caller) && !IsActive(View(), project, caller)
    {
      if !Seen(View(), project, caller) {
        reply := NotFound;
      } else if !projects[project].closed {
        reply := Invalid;
      } else if !projects[project].applications {
        reply := Denied;
      } else {
        reply := AskIn(project, caller, None, false, at);
      }
      Commit(OpApply(caller, project, at));
    }

    method HandleDecideMembership(caller: Id, project: Id, agent: Id, accept: bool, at: int) returns (reply: Reply)
      requires Valid()
      modifies this
      ensures Valid() && trace == old(trace) + [OpDecide(caller, project, agent, accept, at)]
      ensures View() == Decide(old(View()), caller, project, agent, accept, at).db
      ensures reply == Decide(old(View()), caller, project, agent, accept, at).reply
      ensures reply == Done ==>
                && (accept <==> IsActive(View(), project, agent)) && !IsActive(old(View()), project, agent)
                && (if old(members)[Seat(project, agent)].invitedBy.Some? then caller == agent
                    else CanAdminister(old(View()), project, caller))
    {
      var seat := Seat(project, agent);
      if seat !in members || project !in projects {
        reply := NotFound;
      } else {
        var invited, mayAdmin := members[seat].invitedBy.Some?, CanAdminister(View(), project, caller);
        if caller != agent && !mayAdmin {
          reply := NotFound;
        } else if invited && caller != agent {
          reply := Denied;
        } else if !invited && !mayAdmin {
          reply := Denied;
        } else {
          reply := Resolve(project, agent, accept, at);
        }
      }
      Commit(OpDecide(caller, project, agent, accept, at));
    }

    /** An owner who leaves hands over to the heir or archives the project; the owner's row need not exist. */
    method HandleRemoveMembership(caller: Id, project: Id, agent: Id) returns (reply: Reply)
      requires Valid()
      modifies this
      ensures Valid() && trace == old(trace) + [OpRemove(caller, project, agent)]
      ensures View() == Remove(old(View()), caller, project, agent).db
      ensures reply == Remove(old(View()), caller, project, agent).reply
      ensures reply == Done ==>
                && !IsActive(View(), project, agent)
                && (caller == agent || (CanAdminister(old(View()), project, caller) && agent != old(projects)[project].owner))
    {
      if !Seen(View(), project, caller) {
        reply := NotFound;
      } else if caller != agent && !CanAdminister(View(), project, caller) {
        reply := Denied;
      } else if caller != agent && agent == projects[project].owner {
        reply := Denied;
      } else if agent == projects[project].owner {
        var successor := SuccessorFor(project);
        Succeed(project, successor);
        var _ := SetStatus(project, agent, Left);
        reply := Done;
      } else {
        reply := SetStatus(project, agent, if caller == agent then Left else Revoked);
      }
      Commit(OpRemove(caller, project, agent));
    }

    method HandleSetRole(caller: Id, project: Id, agent: Id, coordinator: bool) returns (reply: Reply)
      requires Valid()
      modifies this
      ensures Valid() && trace == old(trace) + [OpSetRole(caller, project, agent, coordinator)]
      ensures View() == SetRole(old(View()), caller, project, agent, coordinator).db
      ensures reply == SetRole(old(View()), caller, project, agent, coordinator).reply
      ensures reply == Done <==> project in old(projects) && old(projects)[project].owner == caller != agent
                                 && IsActive(old(View()), project, agent)
      ensures reply == Done ==> (coordinator <==> Coordinates(View(), project, agent))
    {
      if !Seen(View(), project, caller) {
        reply := NotFound;
      } else if projects[project].owner != caller {
        reply := Denied;
      } else if agent == projects[project].owner {
        reply := Invalid;
      } else {
        reply := AssignRole(project, agent, coordinator);
      }
      Commit(OpSetRole(caller, project, agent, coordinator));
    }

    method HandleTransfer(caller: Id, project: Id, nominee: Id) returns (reply: Reply)
      requires Valid()
      modifies this
      ensures Valid() && trace == old(trace) + [OpTransfer(caller, project, nominee)]
      ensures View() == Transfer(old(View()), caller, project, nominee).db
      ensures reply == Transfer(old(View()), caller, project, nominee).reply
      ensures forall p | p in old(projects) :: p in projects && projects[p].owner == old(projects)[p].owner
      ensures reply == Done ==>
                && old(projects)[project].owner == caller != nominee && projects[project].pending == Some(nominee)
                && projects[project].active
    {
      if !Seen(View(), project, caller) {
        reply := NotFound;
      } else if projects[project].owner != caller {
        reply := Denied;
      } else if nominee == projects[project].owner {
        reply := Invalid;
      } else if nominee !in agents {
        reply := NotFound;
      } else if projects[project].closed && !IsActive(View(), project, nominee) {
        reply := Invalid;
      } else {
        reply := Nominate(project, nominee);
      }
      Commit(OpTransfer(caller, project, nominee));
    }

    method HandleDecideTransfer(caller: Id, project: Id, accept: bool, at: int) returns (reply: Reply)
      requires Valid()
      modifies this
      ensures Valid() && trace == old(trace) + [OpDecideTransfer(caller, project, accept, at)]
      ensures View() == DecideTransfer(old(View()), caller, project, accept, at).db
      ensures reply == DecideTransfer(old(View()), caller, project, accept, at).reply
      ensures reply == Done ==>
                && projects[project].pending.None? && old(projects)[project].pending.Some?
                && caller in {old(projects)[project].owner, old(projects)[project].pending.value}
                && projects[project].owner == if accept then caller else old(projects)[project].owner
    {
      ghost var db := View();
      if project !in projects {
        reply := NotFound;
      } else if projects[project].pending.None? {
        reply := Conflict;
      } else if caller != projects[project].pending.value && caller != projects[project].owner {
        reply := NotFound;
      } else if !accept || caller == projects[project].owner {
        CancelTransfer(project);
        reply := Done;
      } else {
        reply := AcceptTransfer(project, caller, at);
      }
      if reply == Done {
        DecidedMeans(db, caller, project, accept, at);
      }
      Commit(OpDecideTransfer(caller, project, accept, at));
    }
  }

  /** What it means that a pending transfer was decided. */
  lemma DecidedMeans(db: Tables, caller: Id, project: Id, accept: bool, at: int)
    requires DecideTransfer(db, caller, project, accept, at).reply == Done
    ensures var after := DecideTransfer(db, caller, project, accept, at).db;
            && project in db.projects && db.projects[project].pending.Some?
            && project in after.projects && after.projects[project].pending.None?
            && caller in {db.projects[project].owner, db.projects[project].pending.value}
            && after.projects[project].owner == if accept then caller else db.projects[project].owner
  {
  }

  lemma MostSenior(db: Tables, project: Id, s: set<Id>)
    requires s != {} && forall d | d in s :: Seat(project, d) in db.members
    ensures exists c :: c in s && forall d | d in s :: Senior(db, project, c, d)
  {
    var leq := (a, b) => Senior(db, project, a, b);
    SeniorOrders(db, project, s);
    Least.Exists(s, leq);
    var c :| Least.IsLeast(s, leq, c);
    forall d | d in s ensures Senior(db, project, c, d) {
      assert leq(c, d);
    }
  }

  /** The first name on the ranked list that is not the owner's is the heir. */
  lemma Heads(db: Tables, project: Id, list: seq<Id>, i: nat)
    requires project in db.projects && Ranked(db, project, list) && i < |list|
    requires forall c :: c in list <==> Coordinates(db, project, c)
    requires forall k | 0 <= k < i :: list[k] == db.projects[project].owner
    requires list[i] != db.projects[project].owner
    ensures Heir(db, project, list[i])
  {
    assert list[i] in list;
    forall c | Seat(project, c) in db.members && Coordinates(db, project, c) && c != db.projects[project].owner
      ensures Senior(db, project, list[i], c)
    {
      var k :| 0 <= k < |list| && list[k] == c;
      if k == i {
        SeniorSelf(db, project, c);
      }
    }
  }

  lemma SeniorSelf(db: Tables, project: Id, c: Id)
    requires Seat(project, c) in db.members
    ensures Senior(db, project, c, c)
  {
  }
}
