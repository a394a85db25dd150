/** Credentials: issue, rotate, revoke and the operator's revoke-all, and what any interleaving of them leaves behind.
    A token stands for its hash: the hash is taken to be injective and the plaintext is never stored. */
module Credentials {
  import opened Common

  datatype Credential = Credential(agent: Id, token: Id, active: bool, rotatedFrom: Option<Id>)

  datatype Action = RotatedOut | RevokedOne | RevokedAllOf

  /** An audit row; a revoke-all names no single credential. */
  datatype Audit = Audit(actor: Id, agent: Id, credential: Id, action: Action)

  const OPERATOR := Id("telegram-operator")
  const EVERY := Id("*")

  datatype Tables = Tables(
    agents: set<Id>, credentials: map<Id, Credential>, audit: seq<Audit>, updates: map<int, Id>)

  datatype Reply = Done | Nothing | Conflict | NotFound | Internal

  datatype Op =
    | Register(agent: Id)
    | Issue(agent: Id, id: Id, token: Id)
    | Rotate(presented: Id, id: Id, token: Id)
    | RevokeCurrent(presented: Id)
    | RevokeAgent(update: int, agent: Id)

  /** What happened to credentials, in order. */
  datatype Event =
    | Born(credential: Id)
    | Rotated(from: Id, credential: Id, agent: Id)
    | Revoked(credential: Id, agent: Id)
    | RevokedAll(agent: Id, update: int)

  datatype Tx = Tx(tables: Tables, reply: Reply, note: Option<Event>)

  const EMPTY := Tables({}, map[], [], map[])

  predicate Presents(db: Tables, token: Id, c: Id) {
    c in db.credentials && db.credentials[c].token == token && db.credentials[c].active
  }

  function Retired(c: Credential): Credential {
    c.(active := false)
  }

  function Replace(db: Tables, from: Id, id: Id, token: Id): Tables
    requires from in db.credentials
  {
    var agent := db.credentials[from].agent;
    db.(credentials := db.credentials[from := Retired(db.credentials[from])]
                                     [id := Credential(agent, token, true, Some(from))],
        audit := db.audit + [Audit(agent, agent, from, RotatedOut)])
  }

  function Retire(db: Tables, c: Id): Tables
    requires c in db.credentials
  {
    db.(credentials := db.credentials[c := Retired(db.credentials[c])],
        audit := db.audit + [Audit(db.credentials[c].agent, db.credentials[c].agent, c, RevokedOne)])
  }

  function RetireAll(db: Tables, update: int, agent: Id): Tables {
    db.(credentials := map c | c in db.credentials ::
          if db.credentials[c].agent == agent then Retired(db.credentials[c]) else db.credentials[c],
        audit := db.audit + [Audit(OPERATOR, agent, EVERY, RevokedAllOf)],
        updates := db.updates[update := agent])
  }

  ghost function Apply(db: Tables, op: Op): Tx {
    match op
    case Register(agent) => Tx(db.(agents := db.agents + {agent}), Done, None)
    case Issue(agent, id, token) =>
      if agent !in db.agents then Tx(db, Internal, None)
      else Tx(db.(credentials := db.credentials[id := Credential(agent, token, true, None)]), Done, Some(Born(id)))
    case Rotate(presented, id, token) =>
      if exists c :: Presents(db, presented, c) then
        var c :| Presents(db, presented, c);
        Tx(Replace(db, c, id, token), Done, Some(Rotated(c, id, db.credentials[c].agent)))
      else Tx(db, Conflict, None)
    case RevokeCurrent(presented) =>
      if exists c :: Presents(db, presented, c) then
        var c :| Presents(db, presented, c);
        Tx(Retire(db, c), Done, Some(Revoked(c, db.credentials[c].agent)))
      else Tx(db, Conflict, None)
    case RevokeAgent(update, agent) =>
      if update in db.updates then Tx(db, if db.updates[update] == agent then Nothing else Conflict, None)
      else if agent !in db.agents then Tx(db, NotFound, None)
      else Tx(RetireAll(db, update, agent), Done, Some(RevokedAll(agent, update)))
  }

  datatype World = World(db: Tables, drawn: set<Id>, log: seq<Event>)

  const START := World(EMPTY, {}, [])

  function Drawn(op: Op): seq<Id> {
    match op
    case Issue(_, id, token) => [id, token]
    case Rotate(_, id, token) => [id, token]
    case _ => []
  }

  /** Identifiers and tokens are drawn afresh. */
  predicate Allowed(w: World, op: Op) {
    (forall i | 0 <= i < |Drawn(op)| :: Drawn(op)[i] !in w.drawn)
    && (|Drawn(op)| == 2 ==> Drawn(op)[0] != Drawn(op)[1])
  }

  ghost function Step(w: World, op: Op): World {
    var tx := Apply(w.db, op);
    World(tx.tables, w.drawn + (set x | x in Drawn(op)), if tx.note.Some? then w.log + [tx.note.value] else w.log)
  }

  ghost function Run(ops: seq<Op>): World {
    if ops == [] then START else Step(Run(ops[..|ops| - 1]), ops[|ops| - 1])
  }

  ghost predicate Legal(ops: seq<Op>) {
    ops == [] || (Legal(ops[..|ops| - 1]) && Allowed(Run(ops[..|ops| - 1]), ops[|ops| - 1]))
  }

  // ----- the invariant -----

  predicate Births(e: Event, c: Id) {
    (e.Born? || e.Rotated?) && e.credential == c
  }

  /** Ends credential `c` of `agent`. */
  predicate Kills(e: Event, c: Id, agent: Id) {
    (e.Rotated? && e.from == c) || (e.Revoked? && e.credential == c) || (e.RevokedAll? && e.agent == agent)
  }

  /** What the audit table should say about the history. */
  function AuditOf(log: seq<Event>): seq<Audit> {
    if log == [] then []
    else AuditOf(log[..|log| - 1]) + match log[|log| - 1]
                                     case Born(_) => []
                                     case Rotated(from, _, agent) => [Audit(agent, agent, from, RotatedOut)]
                                     case Revoked(c, agent) => [Audit(agent, agent, c, RevokedOne)]
                                     case RevokedAll(agent, _) => [Audit(OPERATOR, agent, EVERY, RevokedAllOf)]
  }

  ghost predicate Killed(log: seq<Event>, i: int, c: Id, agent: Id)
    requires 0 <= i < |log|
  {
    exists j | i < j < |log| :: Kills(log[j], c, agent)
  }

  /** Credential `c` was born at `i`; it is inactive exactly when something ended it since. */
  ghost predicate BirthOk(w: World, i: int, c: Id)
    requires 0 <= i < |w.log|
  {
    && c in w.db.credentials
    && (!w.db.credentials[c].active <==> Killed(w.log, i, c, w.db.credentials[c].agent))
    && (w.db.credentials[c].rotatedFrom == if w.log[i].Rotated? then Some(w.log[i].from) else None)
    && (w.log[i].Rotated? ==> w.db.credentials[c].agent == w.log[i].agent)
  }

  predicate ParentOk(db: Tables, c: Id)
    requires c in db.credentials && db.credentials[c].rotatedFrom.Some?
  {
    var p := db.credentials[c].rotatedFrom.value;
    && p in db.credentials
    && db.credentials[p].agent == db.credentials[c].agent
    && !db.credentials[p].active
  }

  ghost predicate BornEarlier(log: seq<Event>, i: int, c: Id)
    requires 0 <= i <= |log|
  {
    exists j | 0 <= j < i :: Births(log[j], c)
  }

  predicate IsBirth(e: Event) {
    e.Born? || e.Rotated?
  }

  /** Every credential has exactly one birth, after its parent's, and its row agrees with the history. */
  ghost predicate Births1(w: World) {
    && (forall c {:trigger BornEarlier(w.log, |w.log|, c)} | c in w.db.credentials :: BornEarlier(w.log, |w.log|, c))
    && (forall i {:trigger BirthOk(w, i, w.log[i].credential)} | 0 <= i < |w.log| && IsBirth(w.log[i]) ::
          BirthOk(w, i, w.log[i].credential))
    && (forall i, j {:trigger Births(w.log[j], w.log[i].credential)} | 0 <= i < j < |w.log| && IsBirth(w.log[i]) ::
          !Births(w.log[j], w.log[i].credential))
    && (forall i {:trigger BornEarlier(w.log, i, w.log[i].from)} | 0 <= i < |w.log| && w.log[i].Rotated? ::
          BornEarlier(w.log, i, w.log[i].from))
  }

  /** Parents are of the same agent and revoked; tokens are distinct; no credential has two successors. */
  ghost predicate Lineage(db: Tables) {
    && (forall c | c in db.credentials && db.credentials[c].rotatedFrom.Some? :: ParentOk(db, c))
    && (forall c, d | c in db.credentials && d in db.credentials && c != d ::
          && db.credentials[c].token != db.credentials[d].token
          && (db.credentials[c].rotatedFrom.Some? ==> db.credentials[c].rotatedFrom != db.credentials[d].rotatedFrom))
  }

  ghost predicate Known(w: World) {
    forall c | c in w.db.credentials :: c in w.drawn && w.db.credentials[c].token in w.drawn
  }

  ghost predicate Sound(w: World) {
    Known(w) && Births1(w) && Lineage(w.db) && w.db.audit == AuditOf(w.log)
  }

  // ----- what a transaction does -----

  ghost predicate CredentialStep(w: World, w': World, e: Event) {
    && w'.log == w.log + [e] && w.drawn <= w'.drawn
    && match e
       case Born(c) =>
         && c !in w.drawn && c in w'.drawn && c in w'.db.credentials
         && w'.db.credentials == w.db.credentials[c := w'.db.credentials[c]]
         && w'.db.credentials[c].active && w'.db.credentials[c].rotatedFrom.None?
         && w'.db.credentials[c].token !in w.drawn && w'.db.credentials[c].token in w'.drawn
         && w'.db.audit == w.db.audit
       case Rotated(p, c, agent) =>
         && c !in w.drawn && c in w'.drawn && c in w'.db.credentials
         && p in w.db.credentials && w.db.credentials[p].active && w.db.credentials[p].agent == agent
         && w'.db.credentials == w.db.credentials[p := Retired(w.db.credentials[p])][c := w'.db.credentials[c]]
         && w'.db.credentials[c] == Credential(agent, w'.db.credentials[c].token, true, Some(p))
         && w'.db.credentials[c].token !in w.drawn && w'.db.credentials[c].token in w'.drawn
         && w'.db.audit == w.db.audit + [Audit(agent, agent, p, RotatedOut)]
       case Revoked(c, agent) =>
         && c in w.db.credentials && w.db.credentials[c].agent == agent
         && w'.db.credentials == w.db.credentials[c := Retired(w.db.credentials[c])]
         && w'.db.audit == w.db.audit + [Audit(agent, agent, c, RevokedOne)]
       case RevokedAll(agent, update) =>
         && w'.db.credentials == RetireAll(w.db, update, agent).credentials
         && w'.db.audit == w.db.audit + [Audit(OPERATOR, agent, EVERY, RevokedAllOf)]
  }

  lemma Effect(w: World, op: Op)
    requires Allowed(w, op)
    ensures var note := Apply(w.db, op).note;
            if note.Some? then CredentialStep(w, Step(w, op), note.value)
            else Step(w, op).db.credentials == w.db.credentials && Step(w, op).db.audit == w.db.audit
                 && Step(w, op).log == w.log
  {
    if |Drawn(op)| == 2 {
      assert Drawn(op)[0] in Drawn(op) && Drawn(op)[1] in Drawn(op);
    }
  }

  // ----- preservation -----

  lemma KilledGrows(log: seq<Event>, e: Event, i: int, c: Id, agent: Id)
    requires 0 <= i < |log|
    ensures Killed(log + [e], i, c, agent) <==> Killed(log, i, c, agent) || Kills(e, c, agent)
  {
    var log' := log + [e];
    assert log'[|log|] == e;
    if Killed(log, i, c, agent) {
      var j :| i < j < |log| && Kills(log[j], c, agent);
      assert Kills(log'[j], c, agent);
    }
    if Killed(log', i, c, agent) {
      var j :| i < j < |log'| && Kills(log'[j], c, agent);
      assert j < |log| ==> Kills(log[j], c, agent);
    }
  }

  lemma BornEarlierGrows(log: seq<Event>, e: Event, i: int, c: Id)
    requires 0 <= i <= |log| && BornEarlier(log, i, c)
    ensures BornEarlier(log + [e], i, c) && BornEarlier(log + [e], |log| + 1, c)
  {
    var j :| 0 <= j < i && Births(log[j], c);
    assert Births((log + [e])[j], c);
  }

  /** Rows that existed before are retired by exactly the events that end them. */
  lemma OldRow(w: World, w': World, e: Event, c: Id)
    requires CredentialStep(w, w', e) && Known(w) && c in w.db.credentials
    ensures c in w'.db.credentials
    ensures w'.db.credentials[c] ==
              if Kills(e, c, w.db.credentials[c].agent) then Retired(w.db.credentials[c]) else w.db.credentials[c]
  {
  }

  lemma OldBirth(w: World, w': World, e: Event, i: int)
    requires CredentialStep(w, w', e) && Known(w)
    requires 0 <= i < |w.log| && IsBirth(w.log[i]) && BirthOk(w, i, w.log[i].credential)
    ensures BirthOk(w', i, w.log[i].credential)
  {
    var c := w.log[i].credential;
    OldRow(w, w', e, c);
    KilledGrows(w.log, e, i, c, w.db.credentials[c].agent);
  }

  lemma StepKeepsBirths(w: World, w': World, e: Event)
    requires CredentialStep(w, w', e) && Known(w) && Births1(w)
    ensures Births1(w')
  {
    forall c | c in w'.db.credentials ensures BornEarlier(w'.log, |w'.log|, c) {
      if c in w.db.credentials {
        BornEarlierGrows(w.log, e, |w.log|, c);
      } else {
        assert Births(w'.log[|w.log|], c);
      }
    }
    forall i | 0 <= i < |w'.log| && IsBirth(w'.log[i]) ensures BirthOk(w', i, w'.log[i].credential) {
      if i < |w.log| {
        OldBirth(w, w', e, i);
      }
    }
    forall i, j | 0 <= i < j < |w'.log| && IsBirth(w'.log[i]) ensures !Births(w'.log[j], w'.log[i].credential) {
      assert BirthOk(w, i, w.log[i].credential);
    }
    forall i | 0 <= i < |w'.log| && w'.log[i].Rotated? ensures BornEarlier(w'.log, i, w'.log[i].from) {
      BornEarlierGrows(w.log, e, i, w'.log[i].from);
    }
  }

  lemma StepKeepsLineage(w: World, w': World, e: Event)
    requires CredentialStep(w, w', e) && Known(w) && Lineage(w.db)
    ensures Lineage(w'.db)
  {
    forall c | c in w.db.credentials
      ensures c in w'.db.credentials && w'.db.credentials[c].token == w.db.credentials[c].token
      ensures w'.db.credentials[c].rotatedFrom == w.db.credentials[c].rotatedFrom
      ensures w'.db.credentials[c].agent == w.db.credentials[c].agent
      ensures w'.db.credentials[c].active ==> w.db.credentials[c].active
    {
      OldRow(w, w', e, c);
    }
    forall c | c in w'.db.credentials && w'.db.credentials[c].rotatedFrom.Some? ensures ParentOk(w'.db, c) {
      if c in w.db.credentials {
        assert ParentOk(w.db, c);
      }
    }
    if e.Rotated? {
      forall d | d in w.db.credentials ensures w.db.credentials[d].rotatedFrom != Some(e.from) {
        assert w.db.credentials[d].rotatedFrom.Some? ==> ParentOk(w.db, d);
      }
    }
  }

  lemma StepKeepsSound(w: World, op: Op)
    requires Sound(w) && Allowed(w, op)
    ensures Sound(Step(w, op))
  {
    Effect(w, op);
    var w' := Step(w, op);
    if Apply(w.db, op).note.Some? {
      var e := Apply(w.db, op).note.value;
      NotedKeepsSound(w, w', e);
    } else {
      SilentKeepsSound(w, w');
    }
  }

  lemma NotedKeepsSound(w: World, w': World, e: Event)
    requires Sound(w) && CredentialStep(w, w', e)
    ensures Sound(w')
  {
    StepKeepsBirths(w, w', e);
    StepKeepsLineage(w, w', e);
    AuditGrows(w.log, e);
    StepKeepsKnown(w, w', e);
  }

  lemma AuditGrows(log: seq<Event>, e: Event)
    ensures AuditOf(log + [e]) == AuditOf(log) + AuditOf([e])
  {
    assert (log + [e])[..|log|] == log && [e][..0] == [];
  }

  lemma StepKeepsKnown(w: World, w': World, e: Event)
    requires CredentialStep(w, w', e) && Known(w)
    ensures Known(w')
  {
    forall c | c in w'.db.credentials ensures c in w'.drawn && w'.db.credentials[c].token in w'.drawn {
      if c in w.db.credentials {
        OldRow(w, w', e, c);
      }
    }
  }

  lemma SilentKeepsSound(w: World, w': World)
    requires Sound(w) && w'.db.credentials == w.db.credentials && w'.db.audit == w.db.audit
    requires w'.log == w.log && w.drawn <= w'.drawn
    ensures Sound(w')
  {
    forall i | 0 <= i < |w'.log| && IsBirth(w'.log[i]) ensures BirthOk(w', i, w'.log[i].credential) {
      assert BirthOk(w, i, w.log[i].credential);
    }
    forall c | c in w'.db.credentials && w'.db.credentials[c].rotatedFrom.Some? ensures ParentOk(w'.db, c) {
      assert ParentOk(w.db, c);
    }
  }

  lemma {:induction false} SoundAlways(ops: seq<Op>)
    requires Legal(ops)
    ensures Sound(Run(ops))
  {
    if ops != [] {
      SoundAlways(ops[..|ops| - 1]);
      StepKeepsSound(Run(ops[..|ops| - 1]), ops[|ops| - 1]);
    }
  }

  // ----- the results -----

  /** `a` is reached from `c` by following rotated_from `n` times. */
  predicate Ancestor(db: Tables, a: Id, c: Id, n: nat)
    decreases n
  {
    c in db.credentials
    && if n == 0 then a == c
       else db.credentials[c].rotatedFrom.Some? && Ancestor(db, a, db.credentials[c].rotatedFrom.value, n - 1)
  }

  /** `n` generations back, the birth lies at least `n` events back. */
  lemma {:induction false} AncestorBornEarlier(w: World, a: Id, c: Id, n: nat, j: nat)
    requires Births1(w) && Ancestor(w.db, a, c, n)
    requires j < |w.log| && Births(w.log[j], c)
    ensures n <= j && BornEarlier(w.log, j - n + 1, a)
    decreases n
  {
    if n > 0 {
      assert BirthOk(w, j, c);
      var k := ParentBirth(w, j);
      AncestorBornEarlier(w, a, w.log[j].from, n - 1, k);
      var i :| 0 <= i < k - n + 2 && Births(w.log[i], a);
      assert i < j - n + 1;
    }
  }

  lemma ParentBirth(w: World, j: nat) returns (k: nat)
    requires Births1(w) && j < |w.log| && w.log[j].Rotated?
    ensures k < j && Births(w.log[k], w.log[j].from)
  {
    assert BornEarlier(w.log, j, w.log[j].from);
    k :| 0 <= k < j && Births(w.log[k], w.log[j].from);
  }

  /** Following rotated_from never comes back to where it was, stays with one agent, and meets only revoked
      credentials; a credential is the predecessor of at most one. */
  lemma {:induction false} PathsAreSimple(ops: seq<Op>, a: Id, c: Id, n: nat)
    requires Legal(ops) && Ancestor(Run(ops).db, a, c, n)
    ensures a in Run(ops).db.credentials && Run(ops).db.credentials[a].agent == Run(ops).db.credentials[c].agent
    ensures n > 0 ==> a != c && !Run(ops).db.credentials[a].active
    ensures forall d | d in Run(ops).db.credentials && n == 1 && Run(ops).db.credentials[d].rotatedFrom == Some(a) :: d == c
    decreases n
  {
    var w := Run(ops);
    SoundAlways(ops);
    if n > 0 {
      assert ParentOk(w.db, c);
      PathsAreSimple(ops, a, w.db.credentials[c].rotatedFrom.value, n - 1);
      NoReturn(w, a, c, n);
    }
  }

  lemma NoReturn(w: World, a: Id, c: Id, n: nat)
    requires Sound(w) && Ancestor(w.db, a, c, n) && n > 0
    ensures a != c
  {
    assert BornEarlier(w.log, |w.log|, c);
    var j :| 0 <= j < |w.log| && Births(w.log[j], c);
    AncestorBornEarlier(w, a, c, n, j);
    var i :| 0 <= i < j - n + 1 && Births(w.log[i], a);
    assert !Births(w.log[j], w.log[i].credential);
  }

  /** A credential is revoked exactly when an audited event since its birth ended it, and the audit table is the
      history's own record. */
  lemma RevokedExactly(ops: seq<Op>, c: Id)
    requires Legal(ops) && c in Run(ops).db.credentials
    ensures Run(ops).db.audit == AuditOf(Run(ops).log)
    ensures BornEarlier(Run(ops).log, |Run(ops).log|, c)
    ensures forall i | 0 <= i < |Run(ops).log| && Births(Run(ops).log[i], c) ::
              (!Run(ops).db.credentials[c].active <==> Killed(Run(ops).log, i, c, Run(ops).db.credentials[c].agent))
  {
    SoundAlways(ops);
    var w := Run(ops);
    forall i | 0 <= i < |w.log| && Births(w.log[i], c) ensures BirthOk(w, i, c) {
      assert IsBirth(w.log[i]);
    }
  }

  /** A set of revoked credentials that contains the successors of its members. */
  ghost predicate Dead(db: Tables, s: set<Id>) {
    && (forall c | c in s :: c in db.credentials && !db.credentials[c].active)
    && (forall d | d in db.credentials && db.credentials[d].rotatedFrom.Some? && db.credentials[d].rotatedFrom.value in s :: d in s)
  }

  lemma DeadStays(w: World, op: Op, s: set<Id>)
    requires Sound(w) && Allowed(w, op) && Dead(w.db, s)
    ensures Dead(Step(w, op).db, s)
  {
    Effect(w, op);
    var w' := Step(w, op);
    if Apply(w.db, op).note.Some? {
      var e := Apply(w.db, op).note.value;
      forall c | c in w.db.credentials
        ensures c in w'.db.credentials && w'.db.credentials[c].rotatedFrom == w.db.credentials[c].rotatedFrom
        ensures w'.db.credentials[c].active ==> w.db.credentials[c].active
      {
        OldRow(w, w', e, c);
      }
    }
  }

  lemma {:induction false} DeadStaysAlways(ops: seq<Op>, k: nat, s: set<Id>)
    requires Legal(ops) && k <= |ops| && Dead(Run(ops[..k]).db, s)
    ensures Dead(Run(ops).db, s)
    decreases |ops|
  {
    if k == |ops| {
      assert ops[..k] == ops;
    } else {
      var before := ops[..|ops| - 1];
      assert before[..k] == ops[..k];
      DeadStaysAlways(before, k, s);
      SoundAlways(before);
      DeadStays(Run(before), ops[|ops| - 1], s);
    }
  }

  lemma {:induction false} DeadDescendants(db: Tables, s: set<Id>, a: Id, d: Id, n: nat)
    requires Dead(db, s) && a in s && Ancestor(db, a, d, n)
    ensures d in s
    decreases n
  {
    if n > 0 {
      DeadDescendants(db, s, a, db.credentials[d].rotatedFrom.value, n - 1);
    }
  }

  /** After a revoke-all that was not a repeat, no descendant of a credential the agent had then is ever active. */
  lemma RevokeAllIsLasting(ops: seq<Op>, k: nat, a: Id, d: Id, n: nat)
    requires Legal(ops) && 0 < k <= |ops|
    requires ops[k - 1].RevokeAgent? && Apply(Run(ops[..k - 1]).db, ops[k - 1]).reply == Done
    requires a in Run(ops[..k]).db.credentials && Run(ops[..k]).db.credentials[a].agent == ops[k - 1].agent
    requires Ancestor(Run(ops).db, a, d, n)
    ensures !Run(ops).db.credentials[d].active
    ensures d in Run(ops[..k]).db.credentials
  {
    assert ops[..k][..k - 1] == ops[..k - 1];
    LegalPrefix(ops, k - 1);
    SoundAlways(ops[..k - 1]);
    var s := RevokeAllKills(Run(ops[..k - 1]), ops[k - 1]);
    DeadStaysAlways(ops, k, s);
    DeadDescendants(Run(ops).db, s, a, d, n);
  }

  lemma RevokeAllKills(w: World, op: Op) returns (s: set<Id>)
    requires Lineage(w.db) && op.RevokeAgent? && Apply(w.db, op).reply == Done
    ensures Dead(Step(w, op).db, s)
    ensures forall c :: c in s <==> c in Step(w, op).db.credentials && Step(w, op).db.credentials[c].agent == op.agent
  {
    var db := Step(w, op).db;
    s := set c | c in db.credentials && db.credentials[c].agent == op.agent;
    forall d | d in db.credentials && db.credentials[d].rotatedFrom.Some? && db.credentials[d].rotatedFrom.value in s
      ensures d in s
    {
      assert ParentOk(w.db, d);
    }
  }

  lemma {:induction false} LegalPrefix(ops: seq<Op>, k: nat)
    requires Legal(ops) && k <= |ops|
    ensures Legal(ops[..k])
  {
    if k == |ops| {
      assert ops[..k] == ops;
    } else {
      assert ops[..|ops| - 1][..k] == ops[..k];
      LegalPrefix(ops[..|ops| - 1], k);
    }
  }

  /** A revoked credential stays revoked. */
  lemma RevokedStays(ops: seq<Op>, k: nat, c: Id)
    requires Legal(ops) && k <= |ops|
    requires c in Run(ops[..k]).db.credentials && !Run(ops[..k]).db.credentials[c].active
    ensures c in Run(ops).db.credentials && !Run(ops).db.credentials[c].active
    decreases |ops|
  {
    if k == |ops| {
      assert ops[..k] == ops;
    } else {
      var before := ops[..|ops| - 1];
      assert before[..k] == ops[..k];
      RevokedStays(before, k, c);
      SoundAlways(before);
      Effect(Run(before), ops[|ops| - 1]);
      if Apply(Run(before).db, ops[|ops| - 1]).note.Some? {
        OldRow(Run(before), Run(ops), Apply(Run(before).db, ops[|ops| - 1]).note.value, c);
      }
    }
  }

  // ----- repeated deliveries -----

  predicate Repeated(db: Tables, op: Op) {
    op.RevokeAgent? && op.update in db.updates
  }

  /** The run without the deliveries of an update that arrive after it succeeded. */
  ghost function WithoutRepeats(ops: seq<Op>): seq<Op> {
    if ops == [] then []
    else
      var before := ops[..|ops| - 1];
      if Repeated(Run(before).db, ops[|ops| - 1]) then WithoutRepeats(before)
      else WithoutRepeats(before) + [ops[|ops| - 1]]
  }

  lemma RepeatIsNothing(w: World, op: Op)
    requires Repeated(w.db, op)
    ensures Step(w, op) == w
  {
  }

  lemma LegalSnoc(ops: seq<Op>, op: Op)
    requires Legal(ops) && Allowed(Run(ops), op)
    ensures Legal(ops + [op]) && Run(ops + [op]) == Step(Run(ops), op)
  {
    assert (ops + [op])[..|ops|] == ops;
  }

  /** Leaving the repeats out changes nothing: the same tables, and the same history. */
  lemma {:induction false} RepeatsHaveNoEffect(ops: seq<Op>)
    requires Legal(ops)
    ensures Legal(WithoutRepeats(ops)) && Run(WithoutRepeats(ops)) == Run(ops)
  {
    if ops != [] {
      var before, op := ops[..|ops| - 1], ops[|ops| - 1];
      RepeatsHaveNoEffect(before);
      if Repeated(Run(before).db, op) {
        RepeatIsNothing(Run(before), op);
      } else {
        LegalSnoc(WithoutRepeats(before), op);
      }
    }
  }

  // ----- what a request comes to -----

  /** Rotating needs the token of an active credential: that one is revoked, an active one of the same agent with the new
      token follows it, and the agent's own act is in the audit. */
  lemma RotatedExactly(w: World, presented: Id, id: Id, token: Id, c: Id)
    requires Lineage(w.db) && id !in w.db.credentials
    requires c in w.db.credentials && w.db.credentials[c].token == presented && w.db.credentials[c].active
    ensures var tx, row := Apply(w.db, Rotate(presented, id, token)), w.db.credentials[c];
            && tx.reply == Done
            && tx.tables == w.db.(credentials := w.db.credentials[c := Credential(row.agent, presented, false, row.rotatedFrom)]
                                                                 [id := Credential(row.agent, token, true, Some(c))],
                                  audit := w.db.audit + [Audit(row.agent, row.agent, c, RotatedOut)])
  {
    assert Presents(w.db, presented, c);
    OneHolderOnly(w.db, presented, c);
  }

  lemma OneHolderOnly(db: Tables, token: Id, c: Id)
    requires Lineage(db) && Presents(db, token, c)
    ensures forall d | Presents(db, token, d) :: d == c
  {
    forall d | Presents(db, token, d) ensures d == c {
      OneHolder(db, token, c, d);
    }
  }

  /** Revoking the presented credential, likewise. */
  lemma RevokedCurrentExactly(w: World, presented: Id, c: Id)
    requires Lineage(w.db)
    requires c in w.db.credentials && w.db.credentials[c].token == presented && w.db.credentials[c].active
    ensures var tx, row := Apply(w.db, RevokeCurrent(presented)), w.db.credentials[c];
            && tx.reply == Done
            && tx.tables == w.db.(credentials := w.db.credentials[c := Credential(row.agent, presented, false, row.rotatedFrom)],
                                  audit := w.db.audit + [Audit(row.agent, row.agent, c, RevokedOne)])
  {
    assert Presents(w.db, presented, c);
    OneHolderOnly(w.db, presented, c);
  }

  /** Without an active credential of that token both are refused. */
  lemma NothingPresented(db: Tables, presented: Id, id: Id, token: Id)
    requires forall c | c in db.credentials :: db.credentials[c].token != presented || !db.credentials[c].active
    ensures Apply(db, Rotate(presented, id, token)) == Tx(db, Conflict, None)
    ensures Apply(db, RevokeCurrent(presented)) == Tx(db, Conflict, None)
  {
    assert forall c :: !Presents(db, presented, c);
  }

  /** The operator's revoke-all: once per update, for a registered agent, it revokes exactly that agent's credentials and
      says so in the audit in the operator's name. */
  lemma RevokedAllExactly(db: Tables, update: int, agent: Id, c: Id)
    ensures var tx := Apply(db, RevokeAgent(update, agent));
            && (tx.reply == Done <==> update !in db.updates && agent in db.agents)
            && (tx.reply == NotFound <==> update !in db.updates && agent !in db.agents)
            && (tx.reply == Nothing <==> update in db.updates && db.updates[update] == agent)
            && (tx.reply == Conflict <==> update in db.updates && db.updates[update] != agent)
            && (tx.reply != Done ==> tx.tables == db)
            && (tx.reply == Done ==>
                  && tx.tables.agents == db.agents && tx.tables.updates == db.updates[update := agent]
                  && tx.tables.audit == db.audit + [Audit(Id("telegram-operator"), agent, Id("*"), RevokedAllOf)]
                  && tx.tables.credentials.Keys == db.credentials.Keys
                  && (c in db.credentials ==>
                        tx.tables.credentials[c] == if db.credentials[c].agent == agent then db.credentials[c].(active := false)
                                                    else db.credentials[c]))
  {
  }

  /** A credential is issued to a registered agent only, and starts its own lineage. */
  lemma IssuedExactly(db: Tables, agent: Id, id: Id, token: Id)
    ensures Apply(db, Register(agent)).tables == db.(agents := db.agents + {agent})
    ensures var tx := Apply(db, Issue(agent, id, token));
            if agent in db.agents
            then tx.reply == Done && tx.tables == db.(credentials := db.credentials[id := Credential(agent, token, true, None)])
            else tx.reply == Internal && tx.tables == db
  {
  }

  // ----- the operator's ledger -----

  predicate InLedger(db: Tables, e: Event)
    requires e.RevokedAll?
  {
    e.update in db.updates && db.updates[e.update] == e.agent
  }

  /** The ledger lists exactly the updates that revoked all credentials of an agent, with that agent, and each did so
      once. */
  ghost predicate LedgerTold(w: World) {
    && (forall i | 0 <= i < |w.log| && w.log[i].RevokedAll? :: InLedger(w.db, w.log[i]))
    && (forall i, j | 0 <= i < j < |w.log| && w.log[i].RevokedAll? && w.log[j].RevokedAll? :: w.log[i].update != w.log[j].update)
    && (forall u | u in w.db.updates :: InHistory(w.log, u))
  }

  ghost predicate InHistory(log: seq<Event>, u: int) {
    exists i | 0 <= i < |log| :: log[i].RevokedAll? && log[i].update == u
  }

  lemma HistoryGrows(log: seq<Event>, e: Event, u: int)
    requires InHistory(log, u) || (e.RevokedAll? && e.update == u)
    ensures InHistory(log + [e], u)
  {
    if InHistory(log, u) {
      var i :| 0 <= i < |log| && log[i].RevokedAll? && log[i].update == u;
      assert (log + [e])[i] == log[i];
    } else {
      assert (log + [e])[|log|] == e;
    }
  }

  /** Only a revoke-all that succeeds writes the ledger, and it says so in the history. */
  lemma LedgerStep(db: Tables, op: Op)
    ensures var tx := Apply(db, op);
            if tx.note.Some? && tx.note.value.RevokedAll?
            then && op.RevokeAgent? && tx.note.value == RevokedAll(op.agent, op.update) && op.update !in db.updates
                 && tx.tables.updates == db.updates[op.update := op.agent]
            else tx.tables.updates == db.updates
  {
  }

  lemma {:induction false} LedgerAlways(ops: seq<Op>)
    requires Legal(ops)
    ensures LedgerTold(Run(ops))
  {
    if ops != [] {
      var before, op := Run(ops[..|ops| - 1]), ops[|ops| - 1];
      LedgerAlways(ops[..|ops| - 1]);
      LedgerStep(before.db, op);
      LedgerKept(before, Run(ops), Apply(before.db, op).note);
    }
  }

  lemma LedgerKept(w: World, w': World, note: Option<Event>)
    requires LedgerTold(w) && w'.log == if note.Some? then w.log + [note.value] else w.log
    requires if note.Some? && note.value.RevokedAll?
             then note.value.update !in w.db.updates && w'.db.updates == w.db.updates[note.value.update := note.value.agent]
             else w'.db.updates == w.db.updates
    ensures LedgerTold(w')
  {
    forall i | 0 <= i < |w'.log| && w'.log[i].RevokedAll? ensures InLedger(w'.db, w'.log[i]) {
      assert i < |w.log| ==> InLedger(w.db, w.log[i]);
    }
    forall i, j | 0 <= i < j < |w'.log| && w'.log[i].RevokedAll? && w'.log[j].RevokedAll?
      ensures w'.log[i].update != w'.log[j].update
    {
      assert InLedger(w.db, w.log[i]);
    }
    forall u | u in w'.db.updates ensures InHistory(w'.log, u) {
      if note.Some? {
        HistoryGrows(w.log, note.value, u);
      }
    }
  }

  // ----- the store -----

  /** The active credential a token belongs to is unique. */
  lemma OneHolder(db: Tables, token: Id, c: Id, d: Id)
    requires Lineage(db) && Presents(db, token, c) && Presents(db, token, d)
    ensures c == d
  {
  }

  class Store {
    var agents: set<Id>
    var credentials: map<Id, Credential>
    var audit: seq<Audit>
    var updates: map<int, Id>

    ghost var trace: seq<Op>

    function View(): Tables
      reads this
    {
      Tables(agents, credentials, audit, updates)
    }

    ghost predicate Valid()
      reads this
    {
      Legal(trace) && Run(trace).db == View()
    }

    ghost function World(): World
      reads this
    {
      Run(trace)
    }

    constructor ()
      ensures Valid() && trace == [] && View() == EMPTY
    {
      agents, credentials, audit, updates := {}, map[], [], map[];
      trace := [];
    }

    ghost method Commit(op: Op)
      requires Legal(trace) && Allowed(Run(trace), op) && Apply(Run(trace).db, op).tables == View()
      modifies this`trace
      ensures Valid() && trace == old(trace) + [op]
    {
      LegalSnoc(trace, op);
      trace := trace + [op];
    }

    method RegisterAgent(agent: Id)
      requires Valid()
      modifies this
      ensures Valid() && trace == old(trace) + [Register(agent)]
      ensures View() == old(View()).(agents := old(agents) + {agent})
    {
      agents := agents + {agent};
      Commit(Register(agent));
    }

    method IssueTo(agent: Id, id: Id, token: Id) returns (ok: bool)
      requires Valid() && Allowed(World(), Issue(agent, id, token))
      modifies this
      ensures Valid() && trace == old(trace) + [Issue(agent, id, token)]
      ensures ok <==> agent in old(agents)
      ensures ok ==> Presents(View(), token, id) && credentials[id].agent == agent
      ensures View() == Apply(old(View()), Issue(agent, id, token)).tables
    {
      ok := agent in agents;
      if ok {
        credentials := credentials[id := Credential(agent, token, true, None)];
      }
      Commit(Issue(agent, id, token));
    }

    /** A token finds its credential exactly while that credential is active. */
    method Lookup(token: Id) returns (c: Option<Id>)
      requires Valid()
      ensures c.Some? ==> Presents(View(), token, c.value)
      ensures c.None? ==> forall d :: !Presents(View(), token, d)
      ensures forall d :: Presents(View(), token, d) ==> c == Some(d)
    {
      SoundAlways(trace);
      var found := set d | d in credentials && Presents(View(), token, d);
      forall d | Presents(View(), token, d) ensures d in found {
      }
      if found == {} {
        return None;
      }
      var d :| d in found;
      forall e | Presents(View(), token, e) ensures e == d {
        OneHolder(View(), token, d, e);
      }
      return Some(d);
    }

    method RotateToken(presented: Id, id: Id, token: Id) returns (ok: bool)
      requires Valid() && Allowed(World(), Rotate(presented, id, token))
      modifies this
      ensures Valid() && trace == old(trace) + [Rotate(presented, id, token)]
      ensures ok <==> exists c :: Presents(old(View()), presented, c)
      ensures ok ==> forall c | Presents(old(View()), presented, c) :: View() == Replace(old(View()), c, id, token)
      ensures !ok ==> View() == old(View())
    {
      var c := Lookup(presented);
      ok := c.Some?;
      if ok {
        var agent := credentials[c.value].agent;
        credentials := credentials[c.value := credentials[c.value].(active := false)];
        credentials := credentials[id := Credential(agent, token, true, c)];
        audit := audit + [Audit(agent, agent, c.value, RotatedOut)];
      }
      Commit(Rotate(presented, id, token));
    }

    method RevokeToken(presented: Id) returns (ok: bool)
      requires Valid()
      modifies this
      ensures Valid() && trace == old(trace) + [RevokeCurrent(presented)]
      ensures ok <==> exists c :: Presents(old(View()), presented, c)
      ensures ok ==> forall c | Presents(old(View()), presented, c) :: View() == Retire(old(View()), c)
      ensures !ok ==> View() == old(View())
    {
      var c := Lookup(presented);
      ok := c.Some?;
      if ok {
        var agent := credentials[c.value].agent;
        credentials := credentials[c.value := credentials[c.value].(active := false)];
        audit := audit + [Audit(agent, agent, c.value, RevokedOne)];
      }
      Commit(RevokeCurrent(presented));
    }

    method RevokeAllOf(update: int, agent: Id) returns (reply: Reply)
      requires Valid()
      modifies this
      ensures Valid() && trace == old(trace) + [RevokeAgent(update, agent)]
      ensures reply == Done <==> update !in old(updates) && agent in old(agents)
      ensures reply == Nothing <==> update in old(updates) && old(updates)[update] == agent
      ensures reply != Done ==> View() == old(View())
      ensures reply == Done ==>
                && updates == old(updates)[update := agent]
                && (forall c | c in credentials && credentials[c].agent == agent :: !credentials[c].active)
                && View() == RetireAll(old(View()), update, agent)
    {
      reply := RevokeRows(update, agent);
      Commit(RevokeAgent(update, agent));
    }

    method RevokeRows(update: int, agent: Id) returns (reply: Reply)
      modifies this`credentials, this`audit, this`updates
      ensures reply == Done <==> update !in old(updates) && agent in old(agents)
      ensures reply == Nothing <==> update in old(updates) && old(updates)[update] == agent
      ensures View() == if reply == Done then RetireAll(old(View()), update, agent) else old(View())
    {
      if update in updates {
        return if updates[update] == agent then Nothing else Conflict;
      }
      if agent !in agents {
        return NotFound;
      }
      credentials := map c | c in credentials ::
        if credentials[c].agent == agent then credentials[c].(active := false) else credentials[c];
      audit := audit + [Audit(OPERATOR, agent, EVERY, RevokedAllOf)];
      updates := updates[update := agent];
      return Done;
    }
  }
}
