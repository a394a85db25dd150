/** Replies of the operator: one webhook delivery stores the inbox message, marks the request answered and enters the
    update in the ledger, all or nothing. */
module OperatorReplies {
  import opened Common

  datatype Status = Pending | Sent | Answered | Failed

  datatype Request = Request(agent: Id, status: Status, telegram: Option<int>, reply: Option<string>, answeredAt: Option<int>)

  /** An ANSWER of the platform, in the order the inbox numbers them. */
  datatype Message = Message(id: Id, recipient: Id, answer: string, replyTo: Id, at: int)

  datatype Update = Update(agent: Id, message: Id)

  datatype Tables = Tables(requests: map<Id, Request>, messages: seq<Message>, updates: map<int, Update>)

  datatype Reply = Done | Delivered(agent: Id) | Already(agent: Id) | NotFound | Internal

  datatype Tx = Tx(db: Tables, reply: Reply)

  const EMPTY := Tables(map[], [], map[])

  predicate Names(db: Tables, telegram: int, request: Id) {
    request in db.requests && db.requests[request].telegram == Some(telegram)
  }

  function Answering(db: Tables, update: int, request: Id, answer: string, id: Id, at: int): Tables
    requires request in db.requests
  {
    var agent := db.requests[request].agent;
    Tables(
      db.requests[request := db.requests[request].(status := Answered, reply := Some(answer), answeredAt := Some(at))],
      db.messages + [Message(id, agent, answer, request, at)],
      db.updates[update := Update(agent, id)])
  }

  ghost function Deliver(db: Tables, update: int, telegram: int, answer: string, id: Id, at: int): Tx {
    if update in db.updates then Tx(db, Already(db.updates[update].agent))
    else if exists request :: Names(db, telegram, request) then
      var request :| Names(db, telegram, request);
      Tx(Answering(db, update, request, answer, id, at), Delivered(db.requests[request].agent))
    else Tx(db, NotFound)
  }

  /** The column is UNIQUE: another row with the number makes the statement fail; no row at all is no error. */
  function Link(db: Tables, request: Id, telegram: int): Tx {
    if request !in db.requests then Tx(db, Done)
    else if exists r | r in db.requests :: r != request && Names(db, telegram, r) then Tx(db, Internal)
    else Tx(db.(requests := db.requests[request := db.requests[request].(status := Sent, telegram := Some(telegram))]), Done)
  }

  datatype Op =
    | OpCreate(id: Id, agent: Id)
    | OpLink(request: Id, telegram: int)
    | OpFail(request: Id)
    | OpDeliver(update: int, telegram: int, answer: string, id: Id, at: int)

  ghost function Apply(db: Tables, op: Op): Tx {
    match op
    case OpCreate(id, agent) => Tx(db.(requests := db.requests[id := Request(agent, Pending, None, None, None)]), Done)
    case OpLink(request, telegram) => Link(db, request, telegram)
    case OpFail(request) =>
      Tx(if request in db.requests then db.(requests := db.requests[request := db.requests[request].(status := Failed)]) else db, Done)
    case OpDeliver(update, telegram, answer, id, at) => Deliver(db, update, telegram, answer, id, at)
  }

  datatype World = World(db: Tables, drawn: set<Id>)

  const START := World(EMPTY, {})

  predicate Allowed(w: World, op: Op) {
    (op.OpCreate? || op.OpDeliver?) ==> op.id !in w.drawn
  }

  ghost function Step(w: World, op: Op): World {
    World(Apply(w.db, op).db, if op.OpCreate? || op.OpDeliver? then w.drawn + {op.id} else w.drawn)
  }

  ghost function Run(ops: seq<Op>): World {
    if ops == [] then START else Step(Run(ops[..|ops| - 1]), ops[|ops| - 1])
  }

  ghost predicate Legal(ops: seq<Op>) {
    ops == [] || (Legal(ops[..|ops| - 1]) && Allowed(Run(ops[..|ops| - 1]), ops[|ops| - 1]))
  }

  // ----- the invariant -----

  /** The latest answer to a request. */
  function LastAnswer(messages: seq<Message>, request: Id): Option<string> {
    if messages == [] then None
    else if messages[|messages| - 1].replyTo == request then Some(messages[|messages| - 1].answer)
    else LastAnswer(messages[..|messages| - 1], request)
  }

  ghost predicate ReplyOk(db: Tables, request: Id)
    requires request in db.requests
  {
    && (db.requests[request].status == Answered ==> db.requests[request].reply.Some?)
    && db.requests[request].reply == LastAnswer(db.messages, request)
  }

  ghost predicate Replies(db: Tables) {
    forall r {:trigger ReplyOk(db, r)} | r in db.requests :: ReplyOk(db, r)
  }

  /** The number of a sent message names at most one request. */
  ghost predicate OneEach(db: Tables) {
    forall n, r, s | Names(db, n, r) && Names(db, n, s) :: r == s
  }

  ghost predicate Recorded(db: Tables, m: Message) {
    exists u :: u in db.updates && db.updates[u] == Update(m.recipient, m.id)
  }

  ghost predicate MessageOk(db: Tables, m: Message) {
    Recorded(db, m) && m.replyTo in db.requests && db.requests[m.replyTo].agent == m.recipient
  }

  /** The message an update produced. */
  predicate Produced(db: Tables, u: int, i: int) {
    u in db.updates && 0 <= i < |db.messages| && db.messages[i].id == db.updates[u].message && db.messages[i].recipient == db.updates[u].agent
  }

  ghost predicate Produces(db: Tables, u: int) {
    exists i :: Produced(db, u, i)
  }

  ghost predicate Answers(db: Tables) {
    && (forall i | 0 <= i < |db.messages| :: MessageOk(db, db.messages[i]))
    && (forall u {:trigger Produces(db, u)} | u in db.updates :: Produces(db, u))
    && (forall u, v | u in db.updates && v in db.updates && db.updates[u].message == db.updates[v].message :: u == v)
  }

  ghost predicate Ledger(db: Tables) {
    Replies(db) && OneEach(db) && Answers(db)
  }

  ghost predicate Fresh(w: World) {
    && (forall request | request in w.db.requests :: request in w.drawn)
    && (forall i | 0 <= i < |w.db.messages| :: w.db.messages[i].id in w.drawn)
    && (forall u | u in w.db.updates :: w.db.updates[u].message in w.drawn)
    && (forall i, j | 0 <= i < j < |w.db.messages| :: w.db.messages[i].id != w.db.messages[j].id)
  }

  lemma {:induction false} NoAnswerYet(messages: seq<Message>, request: Id)
    requires forall i | 0 <= i < |messages| :: messages[i].replyTo != request
    ensures LastAnswer(messages, request) == None
  {
    if messages != [] {
      NoAnswerYet(messages[..|messages| - 1], request);
    }
  }

  lemma AnsweringKeepsReplies(db: Tables, update: int, request: Id, answer: string, id: Id, at: int)
    requires Replies(db) && request in db.requests
    ensures Replies(Answering(db, update, request, answer, id, at))
  {
    var db' := Answering(db, update, request, answer, id, at);
    assert db'.messages[..|db.messages|] == db.messages;
    forall r | r in db'.requests ensures ReplyOk(db', r) {
      assert ReplyOk(db, r);
    }
  }

  /** An answered update stays answered, an old message stays recorded. */
  lemma MoreKeepsAnswers(db: Tables, db': Tables, u: int, i: int)
    requires db.messages <= db'.messages
    requires forall v | v in db.updates :: v in db'.updates && db'.updates[v] == db.updates[v]
    requires forall r | r in db.requests :: r in db'.requests && db'.requests[r].agent == db.requests[r].agent
    ensures u in db.updates && Produces(db, u) ==> Produces(db', u)
    ensures 0 <= i < |db.messages| && MessageOk(db, db.messages[i]) ==> MessageOk(db', db'.messages[i])
  {
    if u in db.updates && Produces(db, u) {
      var k :| Produced(db, u, k);
      assert Produced(db', u, k);
    }
    if 0 <= i < |db.messages| && MessageOk(db, db.messages[i]) {
      var v :| v in db.updates && db.updates[v] == Update(db.messages[i].recipient, db.messages[i].id);
      assert db'.updates[v] == Update(db'.messages[i].recipient, db'.messages[i].id);
    }
  }

  lemma AnsweringKeepsAnswers(db: Tables, drawn: set<Id>, update: int, request: Id, answer: string, id: Id, at: int)
    requires Answers(db) && Fresh(World(db, drawn)) && id !in drawn
    requires request in db.requests && update !in db.updates
    ensures Answers(Answering(db, update, request, answer, id, at))
  {
    var db' := Answering(db, update, request, answer, id, at);
    var n := |db.messages|;
    assert db'.messages[n] == Message(id, db.requests[request].agent, answer, request, at);
    assert Produced(db', update, n);
    assert Recorded(db', db'.messages[n]) by {
      assert db'.updates[update] == Update(db'.messages[n].recipient, db'.messages[n].id);
    }
    forall i | 0 <= i < n ensures MessageOk(db', db'.messages[i]) {
      MoreKeepsAnswers(db, db', update, i);
    }
    forall u | u in db'.updates ensures Produces(db', u) {
      MoreKeepsAnswers(db, db', u, 0);
    }
    NewUpdateIsApart(db, drawn, update, Update(db.requests[request].agent, id));
  }

  lemma NewUpdateIsApart(db: Tables, drawn: set<Id>, update: int, entry: Update)
    requires Answers(db) && Fresh(World(db, drawn)) && entry.message !in drawn
    ensures var updates := db.updates[update := entry];
            forall u, v | u in updates && v in updates && updates[u].message == updates[v].message :: u == v
  {
  }

  lemma OtherKeepsAnswers(db: Tables, db': Tables)
    requires Answers(db) && db'.messages == db.messages && db'.updates == db.updates
    requires forall r | r in db.requests :: r in db'.requests && db'.requests[r].agent == db.requests[r].agent
    ensures Answers(db')
  {
    forall i | 0 <= i < |db'.messages| ensures MessageOk(db', db'.messages[i]) {
      MoreKeepsAnswers(db, db', 0, i);
    }
    forall u | u in db'.updates ensures Produces(db', u) {
      MoreKeepsAnswers(db, db', u, 0);
    }
  }

  lemma OtherKeepsReplies(w: World, op: Op)
    requires Replies(w.db) && Answers(w.db) && Fresh(w) && Allowed(w, op) && !op.OpDeliver?
    ensures Replies(Step(w, op).db)
  {
    var db, db' := w.db, Step(w, op).db;
    if op.OpCreate? {
      forall i | 0 <= i < |db.messages| ensures db.messages[i].replyTo != op.id {
        assert MessageOk(db, db.messages[i]);
      }
      NoAnswerYet(db.messages, op.id);
    }
    forall r | r in db'.requests ensures ReplyOk(db', r) {
      assert r in db.requests ==> ReplyOk(db, r);
    }
  }

  lemma OtherKeepsOneEach(db: Tables, op: Op)
    requires OneEach(db) && !op.OpDeliver? && (op.OpCreate? ==> op.id !in db.requests)
    ensures OneEach(Apply(db, op).db)
  {
    var db' := Apply(db, op).db;
    forall n, r, s | Names(db', n, r) && Names(db', n, s) ensures r == s {
      if op.OpLink? && db' != db {
        assert r != op.request ==> Names(db, n, r);
        assert s != op.request ==> Names(db, n, s);
      } else {
        assert Names(db, n, r) && Names(db, n, s);
      }
    }
  }

  lemma DeliverKeepsLedger(db: Tables, drawn: set<Id>, update: int, telegram: int, answer: string, id: Id, at: int)
    requires Ledger(db) && Fresh(World(db, drawn)) && id !in drawn
    ensures Ledger(Deliver(db, update, telegram, answer, id, at).db)
    ensures Fresh(World(Deliver(db, update, telegram, answer, id, at).db, drawn + {id}))
  {
    if update !in db.updates && exists request :: Names(db, telegram, request) {
      var request :| Names(db, telegram, request);
      forall r | Names(db, telegram, r) ensures r == request {
      }
      var db' := Answering(db, update, request, answer, id, at);
      assert Deliver(db, update, telegram, answer, id, at).db == db';
      AnsweringKeepsReplies(db, update, request, answer, id, at);
      AnsweringKeepsAnswers(db, drawn, update, request, answer, id, at);
      forall n, r, s | Names(db', n, r) && Names(db', n, s) ensures r == s {
        assert Names(db, n, r) && Names(db, n, s);
      }
    }
  }

  lemma StepKeepsLedger(w: World, op: Op)
    requires Ledger(w.db) && Fresh(w) && Allowed(w, op)
    ensures Ledger(Step(w, op).db) && Fresh(Step(w, op))
  {
    if op.OpDeliver? {
      DeliverKeepsLedger(w.db, w.drawn, op.update, op.telegram, op.answer, op.id, op.at);
    } else {
      OtherKeepsReplies(w, op);
      OtherKeepsOneEach(w.db, op);
      OtherKeepsAnswers(w.db, Step(w, op).db);
    }
  }

  lemma {:induction false} LedgerAlways(ops: seq<Op>)
    requires Legal(ops)
    ensures Ledger(Run(ops).db) && Fresh(Run(ops))
  {
    if ops != [] {
      LedgerAlways(ops[..|ops| - 1]);
      StepKeepsLedger(Run(ops[..|ops| - 1]), ops[|ops| - 1]);
    }
  }

  // ----- what a request comes to -----

  /** A reply to a message that was sent for a request answers that request, once per update: the answer goes into the inbox
      of the agent who asked, naming the request, and the ledger says so. */
  lemma DeliveredExactly(db: Tables, update: int, telegram: int, answer: string, id: Id, at: int, r: Id)
    requires OneEach(db) && r in db.requests && db.requests[r].telegram == Some(telegram)
    ensures var tx, row := Deliver(db, update, telegram, answer, id, at), db.requests[r];
            if update in db.updates then tx == Tx(db, Already(db.updates[update].agent))
            else && tx.reply == Delivered(row.agent)
                 && tx.db == Tables(db.requests[r := Request(row.agent, Answered, row.telegram, Some(answer), Some(at))],
                                    db.messages + [Message(id, row.agent, answer, r, at)],
                                    db.updates[update := Update(row.agent, id)])
  {
    assert Names(db, telegram, r);
  }

  /** A reply to any other message is turned away, unless its update is known. */
  lemma NotLinked(db: Tables, update: int, telegram: int, answer: string, id: Id, at: int)
    requires forall r | r in db.requests :: db.requests[r].telegram != Some(telegram)
    ensures Deliver(db, update, telegram, answer, id, at) ==
              Tx(db, if update in db.updates then Already(db.updates[update].agent) else NotFound)
  {
    assert forall r :: !Names(db, telegram, r);
  }

  /** The number of a sent message is written to an existing request unless another one has it. */
  lemma LinkedExactly(db: Tables, request: Id, telegram: int)
    ensures var taken := exists r :: r in db.requests && r != request && db.requests[r].telegram == Some(telegram);
            Link(db, request, telegram) ==
              if request !in db.requests then Tx(db, Done)
              else if taken then Tx(db, Internal)
              else Tx(db.(requests := db.requests[request := db.requests[request].(status := Sent, telegram := Some(telegram))]), Done)
  {
    if r :| r in db.requests && r != request && db.requests[r].telegram == Some(telegram) {
      assert Names(db, telegram, r);
    }
  }

  // ----- the results -----

  /** Updates and answers correspond one to one: every update in the ledger has exactly one answer in the inbox and
      every answer exactly one update; the answer went to the agent the ledger names, who had made the request. */
  lemma OneAnswerPerUpdate(ops: seq<Op>)
    requires Legal(ops)
    ensures forall u | u in Run(ops).db.updates :: Produces(Run(ops).db, u)
    ensures forall i | 0 <= i < |Run(ops).db.messages| :: Comes(Run(ops).db, i)
    ensures forall u, i, v, j | Produced(Run(ops).db, u, i) && Produced(Run(ops).db, v, j) :: u == v <==> i == j
  {
    var db := Run(ops).db;
    LedgerAlways(ops);
    forall i | 0 <= i < |db.messages| ensures Comes(db, i) {
      assert MessageOk(db, db.messages[i]);
      var u :| u in db.updates && db.updates[u] == Update(db.messages[i].recipient, db.messages[i].id);
      assert Produced(db, u, i);
    }
  }

  /** Some update is behind this answer, and it answers a request of its recipient. */
  ghost predicate Comes(db: Tables, i: nat) {
    && i < |db.messages|
    && (exists u :: Produced(db, u, i))
    && db.messages[i].replyTo in db.requests && db.requests[db.messages[i].replyTo].agent == db.messages[i].recipient
  }

  /** What a request shows as its reply is the last answer in the inbox, and there is none while it shows none;
      a number of a sent message names at most one request. */
  lemma ReplyIsLastAnswer(ops: seq<Op>, request: Id)
    requires Legal(ops) && request in Run(ops).db.requests
    ensures Run(ops).db.requests[request].reply == LastAnswer(Run(ops).db.messages, request)
    ensures Run(ops).db.requests[request].status == Answered ==> Run(ops).db.requests[request].reply.Some?
    ensures forall other, n | Names(Run(ops).db, n, request) && Names(Run(ops).db, n, other) :: other == request
  {
    LedgerAlways(ops);
    assert ReplyOk(Run(ops).db, request);
  }

  // ----- an answer is final -----

  /** What the one caller of the two bookkeeping statements sees to: it runs one of them, right after creating the
      request, while the row is still pending and linked to no sent message. */
  predicate Untimely(db: Tables, op: Op) {
    (op.OpLink? || op.OpFail?) && !(op.request in db.requests && db.requests[op.request].status == Pending
                                    && db.requests[op.request].telegram.None?)
  }

  ghost predicate Timely(ops: seq<Op>) {
    ops == [] || (Timely(ops[..|ops| - 1]) && !Untimely(Run(ops[..|ops| - 1]).db, ops[|ops| - 1]))
  }

  /** The row says "answered" exactly when it shows a reply, and an unlinked row is pending or failed. */
  predicate Settled(db: Tables, request: Id)
    requires request in db.requests
  {
    var row := db.requests[request];
    (row.status == Answered <==> row.reply.Some?) && (row.telegram.None? ==> row.status in {Pending, Failed})
  }

  lemma TimelyStep(db: Tables, op: Op, request: Id)
    requires request in db.requests && Settled(db, request) && !Untimely(db, op) && (op.OpCreate? ==> op.id != request)
    ensures request in Apply(db, op).db.requests && Settled(Apply(db, op).db, request)
    ensures db.requests[request].status == Answered ==> Apply(db, op).db.requests[request].status == Answered
  {
  }

  /** The statements by themselves do not see to it: one of them takes an answered request back to "sent" or "failed"
      exactly when it runs on an answered row and is not refused. */
  lemma UntimelyExactly(db: Tables, op: Op, request: Id)
    requires request in db.requests && db.requests[request].status == Answered && (op.OpCreate? ==> op.id != request)
    ensures request in Apply(db, op).db.requests
    ensures Apply(db, op).db.requests[request].status != Answered <==>
              (op.OpLink? || op.OpFail?) && op.request == request && Apply(db, op).reply == Done
  {
  }

  lemma {:induction false} SettledAlways(ops: seq<Op>, request: Id)
    requires Legal(ops) && Timely(ops) && request in Run(ops).db.requests
    ensures Settled(Run(ops).db, request)
  {
    if ops != [] {
      var before, op := ops[..|ops| - 1], ops[|ops| - 1];
      LedgerAlways(before);
      if request in Run(before).db.requests {
        SettledAlways(before, request);
        TimelyStep(Run(before).db, op, request);
      }
    }
  }

  /** With that caller a request is answered exactly when it shows a reply, and that is final: from then on it stays
      answered and shows one. */
  lemma {:induction false} AnsweredIsFinal(ops: seq<Op>, k: nat, request: Id)
    requires Legal(ops) && Timely(ops) && k <= |ops| && request in Run(ops[..k]).db.requests
    ensures request in Run(ops).db.requests
    ensures Run(ops).db.requests[request].status == Answered <==> Run(ops).db.requests[request].reply.Some?
    ensures Run(ops[..k]).db.requests[request].status == Answered ==> Run(ops).db.requests[request].status == Answered
    decreases |ops|
  {
    if k == |ops| {
      assert ops[..k] == ops;
      SettledAlways(ops, request);
    } else {
      var before, op := ops[..|ops| - 1], ops[|ops| - 1];
      assert before[..k] == ops[..k];
      AnsweredIsFinal(before, k, request);
      SettledAlways(before, request);
      LedgerAlways(before);
      TimelyStep(Run(before).db, op, request);
    }
  }

  // ----- repeated deliveries -----

  predicate Repeated(db: Tables, op: Op) {
    op.OpDeliver? && op.update in db.updates
  }

  /** The run without the deliveries of an update that arrive after it succeeded. */
  ghost function WithoutRepeats(ops: seq<Op>): seq<Op> {
    if ops == [] then []
    else
      var before := ops[..|ops| - 1];
      if Repeated(Run(before).db, ops[|ops| - 1]) then WithoutRepeats(before)
      else WithoutRepeats(before) + [ops[|ops| - 1]]
  }

  lemma LegalSnoc(ops: seq<Op>, op: Op)
    requires Legal(ops) && Allowed(Run(ops), op)
    ensures Legal(ops + [op]) && Run(ops + [op]) == Step(Run(ops), op)
  {
    assert (ops + [op])[..|ops|] == ops;
  }

  /** Leaving the repeats out gives the same tables; identifiers drawn for a repeat are simply unused. */
  lemma {:induction false} RepeatsHaveNoEffect(ops: seq<Op>)
    requires Legal(ops)
    ensures Legal(WithoutRepeats(ops)) && Run(WithoutRepeats(ops)).db == Run(ops).db
    ensures Run(WithoutRepeats(ops)).drawn <= Run(ops).drawn
  {
    if ops != [] {
      var before, op := ops[..|ops| - 1], ops[|ops| - 1];
      RepeatsHaveNoEffect(before);
      if !Repeated(Run(before).db, op) {
        LegalSnoc(WithoutRepeats(before), op);
      }
    }
  }

  /** A delivered update stays in the ledger, and every repeat of it is answered with the same agent. */
  lemma {:induction false} RepeatNamesTheSameAgent(ops: seq<Op>, k: nat, update: int, telegram: int, answer: string, id: Id, at: int)
    requires Legal(ops) && k <= |ops| && update in Run(ops[..k]).db.updates
    ensures Deliver(Run(ops).db, update, telegram, answer, id, at) == Tx(Run(ops).db, Already(Run(ops[..k]).db.updates[update].agent))
    decreases |ops|
  {
    if k == |ops| {
      assert ops[..k] == ops;
    } else {
      assert ops[..|ops| - 1][..k] == ops[..k];
      RepeatNamesTheSameAgent(ops[..|ops| - 1], k, update, telegram, answer, id, at);
    }
  }

  // ----- the store -----

  class Store {
    var requests: map<Id, Request>
    var messages: seq<Message>
    var updates: map<int, Update>
    ghost var trace: seq<Op>

    function View(): Tables
      reads this
    {
      Tables(requests, messages, updates)
    }

    ghost predicate Valid()
      reads this
    {
      Legal(trace) && Run(trace).db == View()
    }

    constructor ()
      ensures Valid() && trace == [] && View() == EMPTY
    {
      requests, messages, updates, trace := map[], [], map[], [];
    }

    ghost method Commit(op: Op)
      requires Legal(trace) && Allowed(Run(trace), op) && Apply(Run(trace).db, op).db == View()
      modifies this`trace
      ensures Valid() && trace == old(trace) + [op]
    {
      LegalSnoc(trace, op);
      trace := trace + [op];
    }

    method CreateRequest(id: Id, agent: Id)
      requires Valid() && id !in Run(trace).drawn
      modifies this
      ensures Valid() && trace == old(trace) + [OpCreate(id, agent)]
      ensures View() == old(View()).(requests := old(requests)[id := Request(agent, Pending, None, None, None)])
    {
      requests := requests[id := Request(agent, Pending, None, None, None)];
      Commit(OpCreate(id, agent));
    }

    method SetTelegramMessage(request: Id, telegram: int) returns (reply: Reply)
      requires Valid()
      modifies this
      ensures Valid() && trace == old(trace) + [OpLink(request, telegram)]
      ensures reply == Internal <==> request in old(requests) && exists r :: r != request && Names(old(View()), telegram, r)
      ensures View() == Link(old(View()), request, telegram).db && reply == Link(old(View()), request, telegram).reply
    {
      reply := Done;
      if request in requests {
        if exists r | r in requests :: r != request && requests[r].telegram == Some(telegram) {
          reply := Internal;
        } else {
          requests := requests[request := requests[request].(status := Sent, telegram := Some(telegram))];
        }
      }
      Commit(OpLink(request, telegram));
    }

    method SetFailed(request: Id)
      requires Valid()
      modifies this
      ensures Valid() && trace == old(trace) + [OpFail(request)]
      ensures messages == old(messages) && updates == old(updates) && requests.Keys == old(requests).Keys
      ensures forall r | r in requests ::
                requests[r] == if r == request then old(requests)[r].(status := Failed) else old(requests)[r]
    {
      if request in requests {
        requests := requests[request := requests[request].(status := Failed)];
      }
      Commit(OpFail(request));
    }

    /** The message, the request's row and the ledger's row appear together, at the first delivery only. */
    method DeliverReply(update: int, telegram: int, answer: string, id: Id, at: int) returns (reply: Reply)
      requires Valid() && id !in Run(trace).drawn
      modifies this
      ensures Valid() && trace == old(trace) + [OpDeliver(update, telegram, answer, id, at)]
      ensures reply.Already? <==> update in old(updates)
      ensures reply == NotFound <==> update !in old(updates) && forall r :: !Names(old(View()), telegram, r)
      ensures reply.Already? || reply.NotFound? || reply.Delivered?
      ensures !reply.Delivered? ==> View() == old(View())
      ensures reply.Already? ==> reply.agent == old(updates)[update].agent
      ensures reply.Delivered? ==>
                exists r :: (Names(old(View()), telegram, r) && reply.agent == old(requests)[r].agent
                             && View() == Answering(old(View()), update, r, answer, id, at))
    {
      if update in updates {
        reply := Already(updates[update].agent);
      } else {
        var found := set r | r in requests && requests[r].telegram == Some(telegram);
        if found == {} {
          assert forall r :: !Names(View(), telegram, r) by {
            forall r ensures !Names(View(), telegram, r) {
              assert r !in found;
            }
          }
          reply := NotFound;
        } else {
          LedgerAlways(trace);
          var request :| request in found;
          assert Names(View(), telegram, request);
          assert forall r | Names(View(), telegram, r) :: r == request;
          var agent := requests[request].agent;
          messages := messages + [Message(id, agent, answer, request, at)];
          requests := requests[request := requests[request].(status := Answered, reply := Some(answer), answeredAt := Some(at))];
          updates := updates[update := Update(agent, id)];
          reply := Delivered(agent);
        }
      }
      Commit(OpDeliver(update, telegram, answer, id, at));
    }
  }
}
