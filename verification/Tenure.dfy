/** Two things one expects of a closed project and the code keeps only up to a condition: its owner is an active
    member, and the coordinator who inherits is the longest-standing one. */
module Tenure {
  import opened Common
  import opened Ownership

  // ----- is the owner a member? -----

  predicate OwnerSeated(db: Tables, project: Id) {
    project in db.projects && (db.projects[project].closed && db.projects[project].active ==>
                                 IsActive(db, project, db.projects[project].owner))
  }

  /** The nominee accepts although it is no longer, or not yet again, an active member. */
  predicate AcceptsFromOutside(db: Tables, op: Op, project: Id) {
    && project in db.projects && db.projects[project].closed
    && op.OpDecideTransfer? && op.project == project && op.accept
    && db.projects[project].pending == Some(op.caller) && op.caller != db.projects[project].owner
    && !IsActive(db, project, op.caller)
  }

  /** Starting from an owner with an active row, a request leaves one exactly when it is not an acceptance from
      outside (an archived project aside, where the departed owner keeps the title). */
  lemma OwnerSeatedStep(db: Tables, op: Op, project: Id)
    requires OwnerSeated(db, project) && (op.OpCreate? ==> op.project != project)
    requires project in Outcome(db, op).db.projects && Outcome(db, op).db.projects[project].active
    requires db.projects[project].closed && db.projects[project].active
    ensures OwnerSeated(Outcome(db, op).db, project) <==> !AcceptsFromOutside(db, op, project)
  {
    TitleEffect(db, op, project);
    var owner := db.projects[project].owner;
    if op == OpRemove(owner, project, owner) {
      DepartureLeavesSomeoneOrArchives(db, project);
    } else {
      OwnersRowStays(db, op, project, owner);
    }
  }

  /** The row of an active owner loses that status only by the owner's own departure. */
  lemma OwnersRowStays(db: Tables, op: Op, project: Id, owner: Id)
    requires project in db.projects && db.projects[project].owner == owner && IsActive(db, project, owner)
    requires op != OpRemove(owner, project, owner) && (op.OpCreate? ==> op.project != project)
    ensures IsActive(Outcome(db, op).db, project, owner)
  {
  }

  /** While no nominee has accepted from outside, every active closed project has an owner who is an active member. */
  lemma {:induction false} OwnerIsMemberUnless(ops: seq<Op>, project: Id)
    requires Legal(ops) && project in Run(ops).db.projects
    requires forall i | 0 <= i < |Run(ops).log| :: !AcceptsFromOutside(Run(ops).log[i].db, Run(ops).log[i].op, project)
    ensures OwnerSeated(Run(ops).db, project)
  {
    var before, op := ops[..|ops| - 1], ops[|ops| - 1];
    var w := Run(before);
    assert Run(ops) == Step(w, op);
    RefusedChangesNothing(w.db, op);
    if project in w.db.projects {
      forall i | 0 <= i < |w.log| ensures !AcceptsFromOutside(w.log[i].db, w.log[i].op, project) {
        assert Run(ops).log[i] == w.log[i];
      }
      OwnerIsMemberUnless(before, project);
      if Outcome(w.db, op).reply == Done {
        assert Run(ops).log[|w.log|] == Entry(op, w.db);
        TitleEffect(w.db, op, project);
        if w.db.projects[project].closed && w.db.projects[project].active && Run(ops).db.projects[project].active {
          OwnerSeatedStep(w.db, op, project);
        }
      }
    }
  }

  // ----- is the heir the longest-standing coordinator? -----

  predicate Undated(db: Tables, seat: Seat) {
    seat in db.members && db.members[seat].joinedAt.None?
  }

  /** Every active member of the project has a joining date. */
  ghost predicate Dated(db: Tables, project: Id) {
    forall a :: IsActive(db, project, a) ==> !Undated(db, Seat(project, a))
  }

  /** The other active coordinators, the heir among them. */
  predicate InLine(db: Tables, project: Id, c: Id) {
    project in db.projects && c != db.projects[project].owner && Coordinates(db, project, c)
  }

  /** `s` has a joining date, no later than that of any coordinator in line who has one. */
  ghost predicate LongestStanding(db: Tables, project: Id, s: Id) {
    && InLine(db, project, s) && !Undated(db, Seat(project, s))
    && forall c | InLine(db, project, c) && !Undated(db, Seat(project, c)) ::
         db.members[Seat(project, s)].joinedAt.value <= db.members[Seat(project, c)].joinedAt.value
  }

  /** The heir is the longest-standing coordinator exactly when no coordinator in line lacks a date. */
  lemma HeirIsLongestStandingExactly(db: Tables, project: Id, s: Id)
    requires Heir(db, project, s)
    ensures LongestStanding(db, project, s) <==> forall c | InLine(db, project, c) :: !Undated(db, Seat(project, c))
  {
    assert InLine(db, project, s);
    forall c | InLine(db, project, c) ensures Senior(db, project, s, c) {
      assert Seat(project, c) in db.members;
    }
  }

  /** The pending nominee of a closed project takes over from an owner whose own row lacks a date: the row becomes
      active as it is. */
  predicate SeatsUndatedOwner(db: Tables, op: Op, project: Id) {
    && project in db.projects && db.projects[project].closed
    && op.OpDecideTransfer? && op.project == project && op.accept
    && db.projects[project].pending == Some(op.caller) && op.caller != db.projects[project].owner
    && Undated(db, Seat(project, db.projects[project].owner))
  }

  /** A row that is active and dated after a request, or one that is active without a date: how it came about. */
  lemma DateBefore(db: Tables, op: Op, project: Id, a: Id)
    requires IsActive(Outcome(db, op).db, project, a)
    ensures Undated(Outcome(db, op).db, Seat(project, a)) ==>
              || (IsActive(db, project, a) && Undated(db, Seat(project, a)))
              || (SeatsUndatedOwner(db, op, project) && a == db.projects[project].owner)
  {
  }

  lemma OwnerStaysOn(db: Tables, op: Op, project: Id)
    requires SeatsUndatedOwner(db, op, project)
    ensures IsActive(Outcome(db, op).db, project, db.projects[project].owner)
    ensures Undated(Outcome(db, op).db, Seat(project, db.projects[project].owner))
  {
  }

  /** From a project whose active members all have dates, a request leaves one without exactly in that case. */
  lemma DatedStep(db: Tables, op: Op, project: Id)
    requires Dated(db, project)
    ensures Dated(Outcome(db, op).db, project) <==> !SeatsUndatedOwner(db, op, project)
  {
    var db' := Outcome(db, op).db;
    if SeatsUndatedOwner(db, op, project) {
      OwnerStaysOn(db, op, project);
    } else {
      forall a | IsActive(db', project, a) ensures !Undated(db', Seat(project, a)) {
        DateBefore(db, op, project, a);
      }
    }
  }

  /** While no undated owner has been taken over from, every active member has a date. */
  lemma {:induction false} DatedUnless(ops: seq<Op>, project: Id)
    requires Legal(ops)
    requires forall i | 0 <= i < |Run(ops).log| :: !SeatsUndatedOwner(Run(ops).log[i].db, Run(ops).log[i].op, project)
    ensures Dated(Run(ops).db, project)
  {
    if ops != [] {
      var before, op := ops[..|ops| - 1], ops[|ops| - 1];
      var w := Run(before);
      assert Run(ops) == Step(w, op);
      RefusedChangesNothing(w.db, op);
      forall i | 0 <= i < |w.log| ensures !SeatsUndatedOwner(w.log[i].db, w.log[i].op, project) {
        assert Run(ops).log[i] == w.log[i];
      }
      DatedUnless(before, project);
      if Outcome(w.db, op).reply == Done {
        assert Run(ops).log[|w.log|] == Entry(op, w.db);
        DatedStep(w.db, op, project);
      }
    }
  }

  /** In such a run whoever inherits is the longest-standing coordinator. */
  lemma HeirIsLongestStandingUnless(ops: seq<Op>, project: Id, s: Id)
    requires Legal(ops) && Heir(Run(ops).db, project, s)
    requires forall i | 0 <= i < |Run(ops).log| :: !SeatsUndatedOwner(Run(ops).log[i].db, Run(ops).log[i].op, project)
    ensures LongestStanding(Run(ops).db, project, s)
  {
    DatedUnless(ops, project);
    HeirIsLongestStandingExactly(Run(ops).db, project, s);
  }

  // ----- both do happen -----

  lemma OneMore(ops: seq<Op>, db: Tables, op: Op) returns (more: seq<Op>)
    requires Legal(ops) && Run(ops).db == db && !op.OpCreate?
    ensures Legal(more) && Run(more).db == Outcome(db, op).db && more == ops + [op]
  {
    LegalSnoc(ops, op);
    more := ops + [op];
  }

  ghost predicate Owns(db: Tables, project: Id, a: Id) {
    && project in db.projects && db.projects[project].owner == a
    && db.projects[project].closed && db.projects[project].active
  }

  /** The owner invites somebody new, who accepts. */
  lemma Joins(ops: seq<Op>, db: Tables, a: Id, x: Id, project: Id, at: int) returns (more: seq<Op>)
    requires Legal(ops) && Run(ops).db == db && Owns(db, project, a)
    requires x in db.agents && Seat(project, x) !in db.members
    ensures Legal(more) && ops <= more && OpDecide(x, project, x, true, at) in more
    ensures Run(more).db == Seated(db, project, x, Member(Active, false, Some(a), Some(at)))
  {
    var invited := Seated(db, project, x, Member(Invited, false, Some(a), None));
    more := OneMore(ops, db, OpInvite(a, project, x, false, at - 1));
    more := OneMore(more, invited, OpDecide(x, project, x, true, at));
  }

  /** The owner nominates a member, who leaves and then accepts. */
  lemma TakenFromOutside(ops: seq<Op>, db: Tables, a: Id, x: Id, project: Id, at: int) returns (more: seq<Op>)
    requires Legal(ops) && Run(ops).db == db && Owns(db, project, a) && x != a
    requires x in db.agents && IsActive(db, project, x) && IsActive(db, project, a)
    ensures Legal(more) && ops <= more
    ensures Run(more).db == WithStatus(Titled(db, project, db.projects[project].(owner := x, pending := None)), project, x, Left)
  {
    var nominated := Titled(db, project, db.projects[project].(pending := Some(x)));
    var left := WithStatus(nominated, project, x, Left);
    more := OneMore(ops, db, OpTransfer(a, project, x));
    more := OneMore(more, nominated, OpRemove(x, project, x));
    more := OneMore(more, left, OpDecideTransfer(x, project, true, at));
    var m := left.members[Seat(project, a)];
    assert left.members[Seat(project, a) := m.(status := Active)] == left.members;
  }

  /** The owner, whose own row may be anything, hands over to a member. */
  lemma HandsOver(ops: seq<Op>, db: Tables, a: Id, x: Id, project: Id, at: int) returns (more: seq<Op>)
    requires Legal(ops) && Run(ops).db == db && Owns(db, project, a) && x != a
    requires x in db.agents && IsActive(db, project, x) && Seat(project, a) in db.members
    ensures Legal(more) && ops <= more
    ensures Run(more).db == WithStatus(Titled(db, project, db.projects[project].(owner := x, pending := None)), project, a, Active)
  {
    var nominated := Titled(db, project, db.projects[project].(pending := Some(x)));
    more := OneMore(ops, db, OpTransfer(a, project, x));
    more := OneMore(more, nominated, OpDecideTransfer(x, project, true, at));
  }

  /** A member is nominated, leaves, and then accepts: the owner is not an active member. */
  lemma OwnerOutside(a: Id, b: Id, project: Id) returns (ops: seq<Op>)
    requires a != b
    ensures Legal(ops) && project in Run(ops).db.projects && Run(ops).db.projects[project].owner == b
    ensures !OwnerSeated(Run(ops).db, project)
  {
    ops := Founded(a, b, b, project);
    ops := Joins(ops, Run(ops).db, a, b, project, 2);
    ops := TakenFromOutside(ops, Run(ops).db, a, b, project, 3);
  }

  lemma Appoints(ops: seq<Op>, db: Tables, a: Id, x: Id, project: Id) returns (more: seq<Op>)
    requires Legal(ops) && Run(ops).db == db && Owns(db, project, a) && x != a && IsActive(db, project, x)
    ensures Legal(more) && ops <= more
    ensures Run(more).db == Seated(db, project, x, db.members[Seat(project, x)].(coordinator := true))
  {
    more := OneMore(ops, db, OpSetRole(a, project, x, true));
  }

  lemma Founded(a: Id, b: Id, c: Id, project: Id) returns (ops: seq<Op>)
    ensures Legal(ops)
    ensures Run(ops).db == Tables({a, b, c}, map[project := Project(a, None, true, true, false, false)],
                                  map[Seat(project, a) := Member(Active, false, None, Some(0))])
  {
    ops := OneMore([], EMPTY, OpRegister(a));
    ops := OneMore(ops, EMPTY.(agents := {a}), OpRegister(b));
    ops := OneMore(ops, EMPTY.(agents := {a, b}), OpRegister(c));
    LegalSnoc(ops, OpCreate(a, project, true, None, None, 0));
    ops := ops + [OpCreate(a, project, true, None, None, 0)];
  }

  /** b, who joined at 4, is nominated, leaves and accepts, invites itself, hands the project back before answering,
      and is appointed next to c, who joined at 2 and never left. b inherits. */
  lemma LaterComerInherits(a: Id, b: Id, c: Id, project: Id) returns (ops: seq<Op>)
    requires a != b && a != c && b != c
    ensures Legal(ops) && Heir(Run(ops).db, project, b) && InLine(Run(ops).db, project, c)
    ensures Undated(Run(ops).db, Seat(project, b)) && !LongestStanding(Run(ops).db, project, b)
    ensures Run(ops).db.members[Seat(project, c)].joinedAt == Some(2)
    ensures OpDecide(b, project, b, true, 4) in ops
  {
    ops := Founded(a, b, c, project);
    ops := Joins(ops, Run(ops).db, a, c, project, 2);
    ops := Joins(ops, Run(ops).db, a, b, project, 4);
    ops := TakenFromOutside(ops, Run(ops).db, a, b, project, 5);
    ops := InvitesItself(ops, Run(ops).db, b, project, 6);
    ops := HandsOver(ops, Run(ops).db, b, a, project, 7);
    ops := Appoints(ops, Run(ops).db, a, b, project);
    ops := Appoints(ops, Run(ops).db, a, c, project);
    var db := Run(ops).db;
    assert db.members.Keys == {Seat(project, a), Seat(project, b), Seat(project, c)};
    UndatedInherits(db, a, b, c, project);
  }

  lemma UndatedInherits(db: Tables, a: Id, b: Id, c: Id, project: Id)
    requires Owns(db, project, a) && InLine(db, project, b) && InLine(db, project, c)
    requires Undated(db, Seat(project, b)) && !Undated(db, Seat(project, c))
    requires db.members.Keys == {Seat(project, a), Seat(project, b), Seat(project, c)}
    ensures Heir(db, project, b) && !LongestStanding(db, project, b)
  {
  }

  lemma InvitesItself(ops: seq<Op>, db: Tables, a: Id, project: Id, at: int) returns (more: seq<Op>)
    requires Legal(ops) && Run(ops).db == db && Owns(db, project, a) && a in db.agents
    requires Seat(project, a) in db.members && db.members[Seat(project, a)].status == Left
    ensures Legal(more) && ops <= more
    ensures Run(more).db == Seated(db, project, a, Member(Invited, false, Some(a), None))
  {
    more := OneMore(ops, db, OpInvite(a, project, a, false, at));
  }
}
