/** Shared knowledge: entries that supersede one another form versioned, doubly linked chains. */
module Knowledge {
  import opened Common

  datatype Status = Proposed | Reviewed | Archived

  datatype Entry = Entry(
    project: Option<Id>, task: Option<Id>, supersedes: Option<Id>, supersededBy: Option<Id>, version: nat, status: Status)

  /** `projects` says of each project whether it is active. */
  datatype Tables = Tables(projects: map<Id, bool>, entries: map<Id, Entry>)

  datatype Reply = Done | NotFound | Invalid | Conflict | Internal

  datatype Request = Request(supersedes: Option<Id>, project: Option<Id>, task: Option<Id>)

  datatype Tx = Tx(tables: Tables, reply: Reply)

  /** Why the predecessor may not be replaced, in the order the checks are made. */
  function Objection(db: Tables, visible: bool, r: Request): Option<Reply> {
    if r.supersedes.None? then None
    else if !visible || r.supersedes.value !in db.entries then Some(NotFound)
    else
      var previous := db.entries[r.supersedes.value];
      if previous.project != r.project || previous.task != r.task then Some(Invalid)
      else if previous.project.Some? && previous.project.value !in db.projects then Some(Internal)
      else if previous.project.Some? && !db.projects[previous.project.value] then Some(Conflict)
      else if previous.supersededBy.Some? then Some(Conflict)
      else None
  }

  function Added(db: Tables, id: Id, r: Request): Tables
    requires r.supersedes.Some? ==> r.supersedes.value in db.entries
  {
    var entry := Entry(r.project, r.task, r.supersedes, None,
                       if r.supersedes.Some? then db.entries[r.supersedes.value].version + 1 else 1, Proposed);
    var linked := if r.supersedes.None? then db.entries
                  else db.entries[r.supersedes.value :=
                         db.entries[r.supersedes.value].(supersededBy := Some(id), status := Archived)];
    db.(entries := linked[id := entry])
  }

  function Create(db: Tables, id: Id, visible: bool, r: Request): Tx {
    var objection := Objection(db, visible, r);
    if objection.Some? then Tx(db, objection.value)
    else if r.project.Some? && r.project.value !in db.projects then Tx(db, Invalid)
    else Tx(Added(db, id, r), Done)
  }

  function Review(db: Tables, id: Id, visible: bool): Tx {
    if !visible || id !in db.entries then Tx(db, NotFound)
    else if db.entries[id].status != Proposed then Tx(db, Conflict)
    else Tx(db.(entries := db.entries[id := db.entries[id].(status := Reviewed)]), Done)
  }

  datatype Op =
    | SetProject(project: Id, active: bool)
    | Publish(id: Id, visible: bool, request: Request)
    | Approve(id: Id, visible: bool)

  function Apply(db: Tables, op: Op): Tx {
    match op
    case SetProject(project, active) => Tx(db.(projects := db.projects[project := active]), Done)
    case Publish(id, visible, request) => Create(db, id, visible, request)
    case Approve(id, visible) => Review(db, id, visible)
  }

  const EMPTY := Tables(map[], map[])

  /** New entries get new identifiers. */
  predicate Allowed(db: Tables, op: Op) {
    op.Publish? ==> op.id !in db.entries
  }

  function Run(ops: seq<Op>): Tables {
    if ops == [] then EMPTY else Apply(Run(ops[..|ops| - 1]), ops[|ops| - 1]).tables
  }

  ghost predicate Legal(ops: seq<Op>) {
    ops == [] || (Legal(ops[..|ops| - 1]) && Allowed(Run(ops[..|ops| - 1]), ops[|ops| - 1]))
  }

  // ----- the invariant -----

  /** What ties an entry to the one before it. */
  predicate BackOk(db: Tables, e: Id)
    requires e in db.entries
  {
    var entry := db.entries[e];
    match entry.supersedes
    case None => entry.version == 1
    case Some(p) =>
      && p in db.entries
      && db.entries[p].supersededBy == Some(e)
      && entry.version == db.entries[p].version + 1
      && entry.project == db.entries[p].project && entry.task == db.entries[p].task
  }

  /** What ties an entry to the one after it; superseded is the same as archived. */
  predicate ForthOk(db: Tables, e: Id)
    requires e in db.entries
  {
    var entry := db.entries[e];
    && (entry.supersededBy.Some? <==> entry.status == Archived)
    && (entry.supersededBy.Some? ==>
          entry.supersededBy.value in db.entries && db.entries[entry.supersededBy.value].supersedes == Some(e))
  }

  ghost predicate Chained(db: Tables) {
    forall e | e in db.entries :: BackOk(db, e) && ForthOk(db, e)
  }

  lemma AddedKeepsChained(db: Tables, id: Id, visible: bool, r: Request)
    requires Chained(db) && id !in db.entries && Objection(db, visible, r).None?
    ensures Chained(Added(db, id, r))
  {
    var db' := Added(db, id, r);
    forall e | e in db'.entries ensures BackOk(db', e) && ForthOk(db', e) {
      assert e in db.entries ==> BackOk(db, e) && ForthOk(db, e);
    }
  }

  lemma StepKeepsChained(db: Tables, op: Op)
    requires Chained(db) && Allowed(db, op)
    ensures Chained(Apply(db, op).tables)
  {
    var db' := Apply(db, op).tables;
    if op.Publish? {
      if Apply(db, op).reply == Done {
        AddedKeepsChained(db, op.id, op.visible, op.request);
      }
    } else {
      forall e | e in db'.entries ensures BackOk(db', e) && ForthOk(db', e) {
        assert BackOk(db, e) && ForthOk(db, e);
      }
    }
  }

  lemma {:induction false} ChainedAlways(ops: seq<Op>)
    requires Legal(ops)
    ensures Chained(Run(ops))
  {
    if ops != [] {
      ChainedAlways(ops[..|ops| - 1]);
      StepKeepsChained(Run(ops[..|ops| - 1]), ops[|ops| - 1]);
    }
  }

  // ----- chains -----

  /** The entry `n` steps back, if the chain is that long. */
  function Back(db: Tables, e: Id, n: nat): Option<Id>
    decreases n
  {
    if e !in db.entries then None
    else if n == 0 then Some(e)
    else if db.entries[e].supersedes.None? then None
    else Back(db, db.entries[e].supersedes.value, n - 1)
  }

  /** Walking back takes exactly version - 1 steps, through falling versions of one project and task, and ends at
      version 1; so no chain returns to where it was. */
  lemma {:induction false} WalkingBack(db: Tables, e: Id, n: nat)
    requires Chained(db) && e in db.entries
    ensures db.entries[e].version >= 1
    ensures Back(db, e, n).Some? <==> n < db.entries[e].version
    ensures Back(db, e, n).Some? ==>
              var b := Back(db, e, n).value;
              && b in db.entries && db.entries[b].version == db.entries[e].version - n
              && db.entries[b].project == db.entries[e].project && db.entries[b].task == db.entries[e].task
              && (n > 0 ==> b != e && db.entries[b].status == Archived)
              && (db.entries[b].supersedes.None? <==> db.entries[b].version == 1)
    decreases n
  {
    assert BackOk(db, e);
    VersionPositive(db, e, db.entries[e].version);
    if db.entries[e].supersedes.Some? {
      var p := db.entries[e].supersedes.value;
      VersionPositive(db, p, db.entries[p].version);
      if n > 0 {
        WalkingBack(db, p, n - 1);
        assert ForthOk(db, p);
      }
    }
  }

  lemma {:induction false} VersionPositive(db: Tables, e: Id, v: nat)
    requires Chained(db) && e in db.entries && db.entries[e].version == v
    ensures v >= 1
    decreases v
  {
    assert BackOk(db, e);
  }

  /** The first entry of the chain. */
  function Root(db: Tables, e: Id): Option<Id> {
    if e !in db.entries || db.entries[e].version == 0 then None else Back(db, e, db.entries[e].version - 1)
  }

  lemma RootOfPrevious(db: Tables, e: Id)
    requires Chained(db) && e in db.entries
    ensures Root(db, e).Some?
    ensures db.entries[e].supersedes.Some? ==> Root(db, e) == Root(db, db.entries[e].supersedes.value)
    ensures db.entries[e].supersedes.None? ==> Root(db, e) == Some(e)
  {
    assert BackOk(db, e);
    WalkingBack(db, e, db.entries[e].version - 1);
    if db.entries[e].supersedes.Some? {
      VersionPositive(db, db.entries[e].supersedes.value, db.entries[db.entries[e].supersedes.value].version);
    }
  }

  /** Chains do not fork: one entry per root and version. */
  lemma {:induction false} NoFork(db: Tables, a: Id, b: Id)
    requires Chained(db) && a in db.entries && b in db.entries
    requires Root(db, a) == Root(db, b) && db.entries[a].version == db.entries[b].version
    ensures a == b
    decreases db.entries[a].version
  {
    assert BackOk(db, a) && BackOk(db, b);
    RootOfPrevious(db, a);
    RootOfPrevious(db, b);
    if db.entries[a].version > 1 {
      NoFork(db, db.entries[a].supersedes.value, db.entries[b].supersedes.value);
    } else {
      Unversioned(db, a);
      Unversioned(db, b);
    }
  }

  lemma Unversioned(db: Tables, a: Id)
    requires Chained(db) && a in db.entries && db.entries[a].version <= 1
    ensures db.entries[a].supersedes.None?
  {
    assert BackOk(db, a);
    if db.entries[a].supersedes.Some? {
      VersionPositive(db, db.entries[a].supersedes.value, db.entries[db.entries[a].supersedes.value].version);
    }
  }

  lemma {:induction false} VersionsBounded(db: Tables, ids: set<Id>) returns (most: nat)
    requires ids <= db.entries.Keys
    ensures forall e | e in ids :: db.entries[e].version <= most
  {
    if ids == {} {
      most := 0;
    } else {
      var e :| e in ids;
      var rest := VersionsBounded(db, ids - {e});
      most := if rest < db.entries[e].version then db.entries[e].version else rest;
    }
  }

  lemma {:induction false} TipFrom(db: Tables, e: Id, most: nat) returns (tip: Id)
    requires Chained(db) && e in db.entries
    requires forall x | x in db.entries :: db.entries[x].version <= most
    ensures tip in db.entries && db.entries[tip].status != Archived && Root(db, tip) == Root(db, e)
    decreases most - db.entries[e].version
  {
    assert ForthOk(db, e);
    if db.entries[e].supersededBy.None? {
      tip := e;
    } else {
      var next := db.entries[e].supersededBy.value;
      assert BackOk(db, next);
      RootOfPrevious(db, next);
      tip := TipFrom(db, next, most);
    }
  }

  lemma TipsEqual(db: Tables, a: Id, b: Id)
    requires Chained(db) && a in db.entries && b in db.entries && Root(db, a) == Root(db, b)
    requires db.entries[a].status != Archived && db.entries[b].status != Archived
    requires db.entries[a].version <= db.entries[b].version
    ensures a == b
  {
    var n := db.entries[b].version - db.entries[a].version;
    WalkingBack(db, a, 0);
    WalkingBack(db, b, n);
    var c := Back(db, b, n).value;
    RootOfBack(db, b, n);
    NoFork(db, a, c);
  }

  lemma {:induction false} RootOfBack(db: Tables, e: Id, n: nat)
    requires Chained(db) && e in db.entries && n < db.entries[e].version
    ensures Back(db, e, n).Some? && Root(db, Back(db, e, n).value) == Root(db, e)
    decreases n
  {
    WalkingBack(db, e, n);
    if n > 0 {
      assert BackOk(db, e);
      RootOfPrevious(db, e);
      RootOfBack(db, db.entries[e].supersedes.value, n - 1);
    }
  }

  /** Every chain has exactly one unarchived entry: the one nothing supersedes. */
  lemma OneTip(ops: seq<Op>, e: Id)
    requires Legal(ops) && e in Run(ops).entries
    ensures exists tip :: IsTip(Run(ops), e, tip)
    ensures forall a, b | IsTip(Run(ops), e, a) && IsTip(Run(ops), e, b) :: a == b
  {
    var db := Run(ops);
    ChainedAlways(ops);
    var most := VersionsBounded(db, db.entries.Keys);
    var tip := TipFrom(db, e, most);
    assert IsTip(db, e, tip);
    forall a, b | IsTip(db, e, a) && IsTip(db, e, b) ensures a == b {
      if db.entries[a].version <= db.entries[b].version {
        TipsEqual(db, a, b);
      } else {
        TipsEqual(db, b, a);
      }
    }
  }

  predicate IsTip(db: Tables, e: Id, tip: Id) {
    tip in db.entries && db.entries[tip].status != Archived && Root(db, tip) == Root(db, e)
  }

  /** The two links are inverse in every reachable state. */
  lemma LinksAreInverse(ops: seq<Op>, a: Id, b: Id)
    requires Legal(ops) && a in Run(ops).entries && b in Run(ops).entries
    ensures Run(ops).entries[b].supersedes == Some(a) <==> Run(ops).entries[a].supersededBy == Some(b)
  {
    ChainedAlways(ops);
    assert BackOk(Run(ops), b) && ForthOk(Run(ops), a);
  }

  /** History is append-only: what an entry is a version of never changes, and a link forward, once set, stays. */
  lemma {:induction false} LinksStay(ops: seq<Op>, k: nat, e: Id)
    requires Legal(ops) && k <= |ops| && e in Run(ops[..k]).entries
    ensures e in Run(ops).entries
    ensures var before, now := Run(ops[..k]).entries[e], Run(ops).entries[e];
            && now.project == before.project && now.task == before.task
            && now.supersedes == before.supersedes && now.version == before.version
            && (before.supersededBy.Some? ==> now == before)
    decreases |ops|
  {
    if k == |ops| {
      assert ops[..k] == ops;
    } else {
      var before := ops[..|ops| - 1];
      assert before[..k] == ops[..k];
      LinksStay(before, k, e);
      ChainedAlways(before);
      assert ForthOk(Run(before), e);
    }
  }

  // ----- what a request comes to -----

  /** An entry goes in exactly when its project, if it has one, exists, and what it supersedes, if anything, is seen, is
      of the same project and task, is not superseded, and is not in an archived project. */
  lemma PublishedExactly(db: Tables, id: Id, visible: bool, r: Request)
    ensures var reply := Create(db, id, visible, r).reply;
            && (reply == Done <==>
                  && (r.project.Some? ==> r.project.value in db.projects)
                  && (r.supersedes.Some? ==>
                        && visible && r.supersedes.value in db.entries
                        && db.entries[r.supersedes.value].project == r.project && db.entries[r.supersedes.value].task == r.task
                        && db.entries[r.supersedes.value].supersededBy == None
                        && (r.project.Some? ==> db.projects[r.project.value])))
            && (reply == NotFound <==> r.supersedes.Some? && (!visible || r.supersedes.value !in db.entries))
            && (reply != Done ==> Create(db, id, visible, r).tables == db)
  {
  }

  /** The new entry is the next version of what it supersedes, or a first version, and proposed; the superseded one keeps
      everything but its link and status; no other entry changes. */
  lemma PublishedLeaves(db: Tables, id: Id, visible: bool, r: Request)
    requires id !in db.entries && Create(db, id, visible, r).reply == Done
    ensures var db' := Create(db, id, visible, r).tables;
            && db'.projects == db.projects && id in db'.entries
            && (r.supersedes.Some? ==> r.supersedes.value in db.entries)
            && db'.entries[id] == Entry(r.project, r.task, r.supersedes, None,
                                        if r.supersedes.Some? then db.entries[r.supersedes.value].version + 1 else 1, Proposed)
            && db'.entries.Keys == db.entries.Keys + {id}
            && forall e | e in db.entries ::
                 db'.entries[e] == if r.supersedes == Some(e) then db.entries[e].(supersededBy := Some(id), status := Archived)
                                   else db.entries[e]
  {
  }

  /** Only a seen, proposed entry is reviewed, and only its status changes. */
  lemma ReviewedExactly(db: Tables, id: Id, visible: bool)
    ensures var tx := Review(db, id, visible);
            if visible && id in db.entries && db.entries[id].status == Proposed
            then tx.reply == Done && tx.tables == db.(entries := db.entries[id := db.entries[id].(status := Reviewed)])
            else tx.reply == (if visible && id in db.entries then Conflict else NotFound) && tx.tables == db
  {
  }

  // ----- the store -----

  class Store {
    var projects: map<Id, bool>
    var entries: map<Id, Entry>
    ghost var trace: seq<Op>

    function View(): Tables
      reads this
    {
      Tables(projects, entries)
    }

    ghost predicate Valid()
      reads this
    {
      Legal(trace) && Run(trace) == View()
    }

    constructor ()
      ensures Valid() && trace == [] && View() == EMPTY
    {
      projects, entries, trace := map[], map[], [];
    }

    ghost method Commit(op: Op)
      requires Legal(trace) && Allowed(Run(trace), op) && Apply(Run(trace), op).tables == View()
      modifies this`trace
      ensures Valid() && trace == old(trace) + [op]
    {
      assert (trace + [op])[..|trace|] == trace;
      trace := trace + [op];
    }

    /** The project table belongs to another store; this is how its changes reach this one. */
    method NoteProject(project: Id, active: bool)
      requires Valid()
      modifies this
      ensures Valid() && trace == old(trace) + [SetProject(project, active)]
      ensures View() == old(View()).(projects := old(projects)[project := active])
    {
      projects := projects[project := active];
      Commit(SetProject(project, active));
    }

    /** The new entry goes in, and its predecessor is linked to it and archived, or nothing happens. */
    method CreateEntry(id: Id, visible: bool, r: Request) returns (reply: Reply)
      requires Valid() && id !in entries
      modifies this
      ensures Valid() && trace == old(trace) + [Publish(id, visible, r)]
      ensures reply == Create(old(View()), id, visible, r).reply
      ensures View() == Create(old(View()), id, visible, r).tables
      ensures reply != Done ==> View() == old(View())
      ensures reply == Done ==> id in entries && entries[id].status == Proposed && entries[id].supersededBy.None?
      ensures reply == Done && r.supersedes.Some? ==>
                r.supersedes.value in entries && entries[r.supersedes.value].supersededBy == Some(id)
    {
      var version := 1;
      var objection := Objection(View(), visible, r);
      if objection.Some? {
        reply := objection.value;
      } else {
        if r.supersedes.Some? {
          version := entries[r.supersedes.value].version + 1;
        }
        if r.project.Some? && r.project.value !in projects {
          reply := Invalid;
        } else {
          ghost var before := View();
          entries := entries[id := Entry(r.project, r.task, r.supersedes, None, version, Proposed)];
          if r.supersedes.Some? {
            entries := entries[r.supersedes.value := entries[r.supersedes.value].(supersededBy := Some(id), status := Archived)];
          }
          reply := Done;
          assert entries == Added(before, id, r).entries;
        }
      }
      Commit(Publish(id, visible, r));
    }

    method ReviewEntry(id: Id, visible: bool) returns (reply: Reply)
      requires Valid()
      modifies this
      ensures Valid() && trace == old(trace) + [Approve(id, visible)]
      ensures reply == Done <==> visible && id in old(entries) && old(entries)[id].status == Proposed
      ensures View() == Review(old(View()), id, visible).tables
      ensures reply != Done ==> View() == old(View())
    {
      if visible && id in entries && entries[id].status == Proposed {
        entries := entries[id := entries[id].(status := Reviewed)];
        reply := Done;
      } else {
        reply := if visible && id in entries then Conflict else NotFound;
      }
      Commit(Approve(id, visible));
    }
  }
}
