/** What each request about a project answers and writes, said of the columns alone. */
module OwnershipAnswers {
  import opened Common
  import opened Ownership
  import TextOrder

  /** Has a row that reads "active". */
  predicate Sits(db: Tables, project: Id, agent: Id) {
    Seat(project, agent) in db.members && db.members[Seat(project, agent)].status == Active
  }

  /** Has a row that reads "active" or "invited". */
  predicate Pending(db: Tables, project: Id, agent: Id) {
    Seat(project, agent) in db.members && db.members[Seat(project, agent)].status in {Active, Invited}
  }

  /** The owner, or an active coordinator. */
  predicate Administers(db: Tables, project: Id, agent: Id) {
    && project in db.projects
    && (db.projects[project].owner == agent
        || (Sits(db, project, agent) && db.members[Seat(project, agent)].coordinator))
  }

  /** The project exists and is open, listed, or the caller's own or its owner's. */
  predicate Known(db: Tables, project: Id, agent: Id) {
    && project in db.projects
    && (!db.projects[project].closed || db.projects[project].listed || db.projects[project].owner == agent || Sits(db, project, agent))
  }

  lemma CreatedExactly(db: Tables, caller: Id, project: Id, closed: bool, listed: Option<bool>, applications: Option<bool>, at: int)
    ensures var tx := Create(db, caller, project, closed, listed, applications, at);
            if closed || (listed == None && applications == None)
            then && tx.reply == Done
                 && tx.db == db.(projects := db.projects[project :=
                                   Project(caller, None, true, closed,
                                           if closed then listed == Some(true) else true, closed && applications == Some(true))],
                                 members := if closed then db.members[Seat(project, caller) := Member(Active, false, None, Some(at))]
                                            else db.members)
            else tx == Tx(db, Invalid)
  {
  }

  /** An administrator of a closed project invites a registered agent who is neither a member nor asked already; a reviewer
      is let in at once. */
  lemma InvitedExactly(db: Tables, caller: Id, project: Id, agent: Id, reviewer: bool, at: int)
    ensures var tx := Invite(db, caller, project, agent, reviewer, at);
            && (tx.reply == Done <==>
                  && Administers(db, project, caller) && db.projects[project].closed
                  && agent in db.agents && !Pending(db, project, agent))
            && (tx.reply == NotFound <==>
                  || !Known(db, project, caller)
                  || (Administers(db, project, caller) && db.projects[project].closed && agent !in db.agents))
            && (tx.reply == Denied <==> Known(db, project, caller) && !Administers(db, project, caller))
            && (tx.reply == Invalid <==> Administers(db, project, caller) && !db.projects[project].closed)
            && tx.db == if tx.reply != Done then db
                        else db.(members := db.members[Seat(project, agent) :=
                                   if reviewer then Member(Reviewer, false, Some(caller), Some(at))
                                   else Member(Invited, false, Some(caller), None)])
  {
  }

  /** Anyone who may know of a closed project that takes applications applies, unless a member or asked already. */
  lemma AppliedExactly(db: Tables, caller: Id, project: Id, at: int)
    ensures var tx := Apply(db, caller, project, at);
            && (tx.reply == Done <==>
                  && Known(db, project, caller) && db.projects[project].closed && db.projects[project].applications
                  && !Pending(db, project, caller))
            && (tx.reply == NotFound <==> !Known(db, project, caller))
            && (tx.reply == Invalid <==> Known(db, project, caller) && !db.projects[project].closed)
            && (tx.reply == Denied <==>
                  Known(db, project, caller) && db.projects[project].closed && !db.projects[project].applications)
            && tx.db == if tx.reply != Done then db
                        else db.(members := db.members[Seat(project, caller) := Member(Invited, false, None, None)])
  {
  }

  /** A row that reads "invited" is decided by its agent if the project asked, by an administrator if the agent did. */
  lemma DecidedExactly(db: Tables, caller: Id, project: Id, agent: Id, accept: bool, at: int)
    ensures var tx, seat := Decide(db, caller, project, agent, accept, at), Seat(project, agent);
            && (tx.reply == Done <==>
                  && project in db.projects && seat in db.members && db.members[seat].status == Invited
                  && (if db.members[seat].invitedBy.Some? then caller == agent else Administers(db, project, caller)))
            && (tx.reply == NotFound <==>
                  project !in db.projects || seat !in db.members || (caller != agent && !Administers(db, project, caller)))
            && tx.db == if tx.reply != Done then db
                        else if accept then db.(members := db.members[seat := db.members[seat].(status := Active, joinedAt := Some(at))])
                        else db.(members := db.members - {seat})
  {
  }

  /** Members leave by themselves and are removed by administrators, the owner by nobody else. */
  lemma RemovedExactly(db: Tables, caller: Id, project: Id, agent: Id)
    ensures var tx, seat := Remove(db, caller, project, agent), Seat(project, agent);
            && (tx.reply == Done <==>
                  && Known(db, project, caller)
                  && (if agent == db.projects[project].owner then caller == agent
                      else seat in db.members && (caller == agent || Administers(db, project, caller))))
            && (tx.reply == Denied <==>
                  && Known(db, project, caller) && caller != agent
                  && (!Administers(db, project, caller) || agent == db.projects[project].owner))
            && (tx.reply != Done ==> tx.db == db)
            && (tx.reply == Done ==>
                  && tx.db.agents == db.agents
                  && (seat !in db.members ==> tx.db.members == db.members)
                  && (seat in db.members ==>
                        tx.db.members ==
                          db.members[seat := db.members[seat].(status := if caller == agent then Left else Revoked)])
                  && (agent != db.projects[project].owner ==> tx.db.projects == db.projects)
                  && (agent == db.projects[project].owner ==>
                        && tx.db.projects.Keys == db.projects.Keys
                        && (forall p | p in db.projects && p != project :: tx.db.projects[p] == db.projects[p])
                        && var before, after := db.projects[project], tx.db.projects[project];
                           && after.closed == before.closed && after.listed == before.listed
                           && after.applications == before.applications && after.pending == None
                           && (after.owner != agent ==> after.active == before.active)))
  {
  }

  lemma RoleSetExactly(db: Tables, caller: Id, project: Id, agent: Id, coordinator: bool)
    ensures var tx, seat := SetRole(db, caller, project, agent, coordinator), Seat(project, agent);
            && (tx.reply == Done <==>
                  project in db.projects && db.projects[project].owner == caller != agent && Sits(db, project, agent))
            && (tx.reply == NotFound <==>
                  !Known(db, project, caller)
                  || (db.projects[project].owner == caller != agent && seat !in db.members))
            && (tx.reply == Conflict <==>
                  && project in db.projects && db.projects[project].owner == caller != agent
                  && seat in db.members && !Sits(db, project, agent))
            && tx.db == if tx.reply != Done then db
                        else db.(members := db.members[seat := db.members[seat].(coordinator := coordinator)])
  {
  }

  /** The owner of an active project nominates another registered agent, in a closed one a member. */
  lemma NominatedExactly(db: Tables, caller: Id, project: Id, nominee: Id)
    ensures var tx := Transfer(db, caller, project, nominee);
            && (tx.reply == Done <==>
                  && project in db.projects && db.projects[project].owner == caller != nominee && nominee in db.agents
                  && db.projects[project].active && (db.projects[project].closed ==> Sits(db, project, nominee)))
            && (tx.reply == Denied <==> Known(db, project, caller) && db.projects[project].owner != caller)
            && tx.db == if tx.reply != Done then db
                        else db.(projects := db.projects[project := db.projects[project].(pending := Some(nominee))])
  {
  }

  /** A pending nomination is taken up by the nominee, and dropped by the nominee or the owner; in a closed project the one
      who hands over keeps or gets an active row. */
  lemma TransferDecidedExactly(db: Tables, caller: Id, project: Id, accept: bool, at: int)
    ensures var tx := DecideTransfer(db, caller, project, accept, at);
            && (tx.reply == Done <==>
                  && project in db.projects && db.projects[project].pending.Some?
                  && (caller == db.projects[project].pending.value || caller == db.projects[project].owner))
            && (tx.reply == Conflict <==> project in db.projects && db.projects[project].pending == None)
            && (tx.reply != Done ==> tx.db == db)
            && (tx.reply == Done ==>
                  var p := db.projects[project];
                  var seat := Seat(project, p.owner);
                  if accept && caller != p.owner
                  then && tx.db.projects == db.projects[project := p.(owner := caller, pending := None)]
                       && tx.db.agents == db.agents
                       && tx.db.members ==
                            if !p.closed then db.members
                            else if seat in db.members then db.members[seat := db.members[seat].(status := Active)]
                            else db.members[seat := Member(Active, false, None, Some(at))]
                  else tx.db == db.(projects := db.projects[project := p.(pending := None)]))
  {
  }

  /** The heir, said of the columns: another active coordinator than the owner, and first by joining date, a missing one
      before all others, then by identifier. */
  lemma HeirExactly(db: Tables, project: Id, s: Id)
    requires project in db.projects
    ensures Heir(db, project, s) <==>
              && s != db.projects[project].owner && Sits(db, project, s) && db.members[Seat(project, s)].coordinator
              && forall c | Sits(db, project, c) && db.members[Seat(project, c)].coordinator && c != db.projects[project].owner ::
                   var a, b := db.members[Seat(project, s)].joinedAt, db.members[Seat(project, c)].joinedAt;
                   || (a == None && b != None)
                   || (a.Some? && b.Some? && a.value < b.value)
                   || (a == b && TextOrder.AtMost(s.text, c.text))
  {
    forall c ensures Sits(db, project, c) <==> IsActive(db, project, c) {
    }
    if Heir(db, project, s) {
      forall c | Sits(db, project, c) && db.members[Seat(project, c)].coordinator && c != db.projects[project].owner
        ensures Senior(db, project, s, c)
      {
        assert Seat(project, c) in db.members;
      }
    }
  }
}
