/** How an agent gathers the evidence for a verdict on a submitted RESULT. The platform, the download and the judgement
    itself are arbitrary functions: each is consulted at most once per artifact or job. */
module Evidence {
  import opened Common

  const MAX_ARTIFACTS := 8
  const VERIFIED := "verified"
  const INCONCLUSIVE := "inconclusive"
  const SUCCESS := "success"

  datatype Artifact = Artifact(id: Id, task: Option<Id>, createdBy: Id, expiresAt: Option<int>)

  datatype Payload = Payload(artifacts: seq<Id>, status: string)

  /** The claimed job: its task and the RESULT, whose payload may fail to parse. */
  datatype Job = Job(
    task: Id, createdBy: Id, awaiting: bool, submitted: Id, message: Id, sender: Id, payload: Option<Payload>)

  datatype Input = Input(payload: Payload, artifacts: seq<Artifact>, contents: seq<string>)

  /** `clock` is the time read when an artifact was looked at. */
  datatype Outside = Outside(
    lookUp: Id -> Option<Artifact>, clock: Id -> int, download: Artifact -> Option<string>, judge: Input -> Option<string>)

  datatype Outcome = Refused | Failed | Submitted(verdict: string, evidence: seq<Id>)

  // ----- deduplication in order -----

  function Dedup(ids: seq<Id>): seq<Id> {
    if ids == [] then []
    else
      var before, last := ids[..|ids| - 1], ids[|ids| - 1];
      if last in before then Dedup(before) else Dedup(before) + [last]
  }

  lemma {:induction false} DedupHas(ids: seq<Id>, x: Id)
    ensures x in Dedup(ids) <==> x in ids
  {
    if ids != [] {
      var before, last := ids[..|ids| - 1], ids[|ids| - 1];
      DedupHas(before, x);
      assert ids == before + [last];
    }
  }

  ghost predicate Distinct(ids: seq<Id>) {
    forall i, j | 0 <= i < j < |ids| :: ids[i] != ids[j]
  }

  lemma {:induction false} DedupDistinct(ids: seq<Id>)
    ensures Distinct(Dedup(ids))
  {
    if ids != [] {
      var before, last := ids[..|ids| - 1], ids[|ids| - 1];
      DedupDistinct(before);
      DedupHas(before, last);
      if last !in before {
        forall i | 0 <= i < |Dedup(before)| ensures Dedup(before)[i] != last {
          assert Dedup(before)[i] in Dedup(before);
        }
      }
    }
  }

  /** Where an element first occurs. */
  function First(ids: seq<Id>, x: Id): (i: nat)
    requires x in ids
    ensures i < |ids| && ids[i] == x && x !in ids[..i]
  {
    if ids[0] == x then 0 else First(ids[1..], x) + 1
  }

  lemma FirstIsLeast(ids: seq<Id>, x: Id, k: nat)
    requires k < |ids| && ids[k] == x
    ensures First(ids, x) <= k
  {
    var i := First(ids, x);
    forall j | 0 <= j < i ensures ids[j] != x {
      assert ids[..i][j] == ids[j];
    }
  }

  lemma FirstOfPrefix(ids: seq<Id>, n: nat, x: Id)
    requires n <= |ids| && x in ids[..n]
    ensures First(ids, x) == First(ids[..n], x)
  {
    var i := First(ids[..n], x);
    FirstIsLeast(ids, x, i);
    var j := First(ids, x);
    assert ids[..n][j] == x;
    FirstIsLeast(ids[..n], x, j);
  }

  /** The kept elements stand in the order of their first occurrences. */
  lemma {:induction false} DedupInOrder(ids: seq<Id>, i: nat, j: nat)
    requires i < j < |Dedup(ids)|
    ensures Dedup(ids)[i] in ids && Dedup(ids)[j] in ids
    ensures First(ids, Dedup(ids)[i]) < First(ids, Dedup(ids)[j])
  {
    var before, last := ids[..|ids| - 1], ids[|ids| - 1];
    assert ids == before + [last];
    DedupHas(before, Dedup(ids)[i]);
    DedupHas(before, Dedup(ids)[j]);
    FirstOfPrefix(ids, |before|, Dedup(ids)[i]);
    if j < |Dedup(before)| {
      DedupInOrder(before, i, j);
      FirstOfPrefix(ids, |before|, Dedup(ids)[j]);
    } else {
      assert ids[..First(ids, last)] <= before;
    }
  }

  /** Deduplication in order is the only list of the same elements, without repeats, in the order of their first
      occurrences. */
  lemma OnlyDedup(ids: seq<Id>, list: seq<Id>)
    requires forall x :: x in list <==> x in ids
    requires ByFirst(ids, list)
    ensures list == Dedup(ids)
  {
    forall x ensures x in Dedup(ids) <==> x in ids {
      DedupHas(ids, x);
    }
    forall i, j | 0 <= i < j < |Dedup(ids)| ensures First(ids, Dedup(ids)[i]) < First(ids, Dedup(ids)[j]) {
      DedupInOrder(ids, i, j);
    }
    SameOrder(ids, list, Dedup(ids));
  }

  ghost predicate ByFirst(ids: seq<Id>, list: seq<Id>) {
    && (forall x | x in list :: x in ids)
    && forall i, j | 0 <= i < j < |list| :: First(ids, list[i]) < First(ids, list[j])
  }

  lemma LastIsGreatest(ids: seq<Id>, list: seq<Id>, x: Id)
    requires ByFirst(ids, list) && x in list
    ensures First(ids, x) <= First(ids, list[|list| - 1])
    ensures x in list[..|list| - 1] <==> First(ids, x) < First(ids, list[|list| - 1])
  {
    var k :| 0 <= k < |list| && list[k] == x;
    if k < |list| - 1 {
      assert list[..|list| - 1][k] == x;
    }
    if x in list[..|list| - 1] {
      var j :| 0 <= j < |list| - 1 && list[..|list| - 1][j] == x;
      assert list[j] == x;
    }
  }

  lemma SameMembersEmpty(a: seq<Id>, b: seq<Id>)
    requires forall x :: x in a <==> x in b
    ensures a == [] <==> b == []
  {
    assert a != [] ==> a[0] in a;
    assert b != [] ==> b[0] in b;
  }

  lemma {:induction false} SameOrder(ids: seq<Id>, a: seq<Id>, b: seq<Id>)
    requires forall x :: x in a <==> x in b
    requires ByFirst(ids, a) && ByFirst(ids, b)
    ensures a == b
  {
    SameMembersEmpty(a, b);
    if a != [] {
      SameLast(ids, a, b);
      var front, front', last := a[..|a| - 1], b[..|b| - 1], a[|a| - 1];
      assert a == front + [last] && b == front' + [last];
      SameFronts(ids, front, front', last);
      SameOrder(ids, front, front');
    }
  }

  lemma SameLast(ids: seq<Id>, a: seq<Id>, b: seq<Id>)
    requires a != [] && b != [] && (forall x :: x in a <==> x in b) && ByFirst(ids, a) && ByFirst(ids, b)
    ensures a[|a| - 1] == b[|b| - 1]
  {
    var x, y := a[|a| - 1], b[|b| - 1];
    assert x in a && y in b;
    LastIsGreatest(ids, a, y);
    LastIsGreatest(ids, b, x);
    assert ids[First(ids, x)] == ids[First(ids, y)];
  }

  lemma SameFronts(ids: seq<Id>, a: seq<Id>, b: seq<Id>, last: Id)
    requires (forall x :: x in a + [last] <==> x in b + [last]) && ByFirst(ids, a + [last]) && ByFirst(ids, b + [last])
    ensures (forall x :: x in a <==> x in b) && ByFirst(ids, a) && ByFirst(ids, b)
  {
    LastIsNew(ids, a, last);
    LastIsNew(ids, b, last);
    forall x ensures x in a <==> x in b {
      assert x in a + [last] <==> x in b + [last];
    }
  }

  lemma LastIsNew(ids: seq<Id>, front: seq<Id>, last: Id)
    requires ByFirst(ids, front + [last])
    ensures ByFirst(ids, front) && last !in front
  {
    var list := front + [last];
    forall x | x in front ensures x in ids {
      assert x in list;
    }
    forall i, j | 0 <= i < j < |front| ensures First(ids, front[i]) < First(ids, front[j]) {
      assert front[i] == list[i] && front[j] == list[j];
    }
    forall i | 0 <= i < |front| ensures front[i] != last {
      assert front[i] == list[i] && last == list[|front|];
    }
  }

  lemma {:induction false} DedupOfPrefix(ids: seq<Id>, n: nat)
    requires n <= |ids|
    ensures Dedup(ids[..n]) <= Dedup(ids)
  {
    if n == |ids| {
      assert ids[..n] == ids;
    } else {
      assert ids[..|ids| - 1][..n] == ids[..n];
      DedupOfPrefix(ids[..|ids| - 1], n);
    }
  }

  lemma DedupSnoc(ids: seq<Id>, n: nat)
    requires n < |ids|
    ensures Dedup(ids[..n + 1]) == if ids[n] in ids[..n] then Dedup(ids[..n]) else Dedup(ids[..n]) + [ids[n]]
  {
    assert ids[..n + 1][..n] == ids[..n];
  }

  // ----- what counts as evidence -----

  /** Registered for this task by the worker, and not expired when looked at. */
  predicate InScope(o: Outside, job: Job, id: Id) {
    match o.lookUp(id)
    case None => false
    case Some(a) =>
      && a.id == id && a.task == Some(job.task) && a.createdBy == job.sender
      && (a.expiresAt.Some? ==> a.expiresAt.value > o.clock(id))
  }

  predicate Usable(o: Outside, job: Job, id: Id) {
    InScope(o, job, id) && o.download(o.lookUp(id).value).Some?
  }

  /** The usable ones, in order. */
  function Kept(o: Outside, job: Job, ids: seq<Id>): seq<Id> {
    if ids == [] then []
    else
      Kept(o, job, ids[..|ids| - 1]) + if Usable(o, job, ids[|ids| - 1]) then [ids[|ids| - 1]] else []
  }

  predicate AllUsable(o: Outside, job: Job, ids: seq<Id>) {
    forall i | 0 <= i < |ids| :: Usable(o, job, ids[i])
  }

  function Looked(o: Outside, job: Job, ids: seq<Id>): seq<Artifact> {
    if ids == [] then []
    else
      Looked(o, job, ids[..|ids| - 1])
      + if InScope(o, job, ids[|ids| - 1]) then [o.lookUp(ids[|ids| - 1]).value] else []
  }

  function Read(o: Outside, job: Job, ids: seq<Id>): seq<string> {
    if ids == [] then []
    else
      Read(o, job, ids[..|ids| - 1])
      + if Usable(o, job, ids[|ids| - 1]) then [o.download(o.lookUp(ids[|ids| - 1]).value).value] else []
  }

  lemma {:induction false} AllKept(o: Outside, job: Job, ids: seq<Id>)
    ensures |Kept(o, job, ids)| <= |ids|
    ensures Kept(o, job, ids) == ids <==> AllUsable(o, job, ids)
    ensures AllUsable(o, job, ids) ==> |Looked(o, job, ids)| == |ids| == |Read(o, job, ids)|
  {
    if ids != [] {
      var before, last := ids[..|ids| - 1], ids[|ids| - 1];
      AllKept(o, job, before);
      assert ids == before + [last];
      if Usable(o, job, last) {
        assert Kept(o, job, ids)[..|Kept(o, job, ids)| - 1] == Kept(o, job, before);
        assert Kept(o, job, ids) == ids ==> Kept(o, job, before) == before;
      }
      assert AllUsable(o, job, ids) <==> AllUsable(o, job, before) && Usable(o, job, last);
    }
  }

  lemma {:induction false} KeptHas(o: Outside, job: Job, ids: seq<Id>, x: Id)
    ensures x in Kept(o, job, ids) <==> x in ids && Usable(o, job, x)
  {
    if ids != [] {
      KeptHas(o, job, ids[..|ids| - 1], x);
      assert ids == ids[..|ids| - 1] + [ids[|ids| - 1]];
    }
  }

  // ----- the run of one job -----

  /** The job is this agent's own task, waiting on just this RESULT. */
  predicate Proper(self: Id, job: Job) {
    job.createdBy == self && job.awaiting && job.submitted == job.message
  }

  /** Few enough artifacts, every one of them usable. */
  predicate Available(o: Outside, job: Job, ids: seq<Id>) {
    |ids| <= MAX_ARTIFACTS && AllUsable(o, job, ids)
  }

  function Considered(ids: seq<Id>): seq<Id> {
    if |ids| <= MAX_ARTIFACTS then ids else ids[..MAX_ARTIFACTS]
  }

  function Everything(o: Outside, job: Job, payload: Payload): Input {
    Input(payload, Looked(o, job, Dedup(payload.artifacts)), Read(o, job, Dedup(payload.artifacts)))
  }

  /** When a "verified" verdict may go out. */
  predicate Supported(self: Id, o: Outside, job: Job) {
    && Proper(self, job) && job.payload.Some?
    && job.payload.value.status == SUCCESS
    && Available(o, job, Dedup(job.payload.value.artifacts))
    && o.judge(Everything(o, job, job.payload.value)) == Some(VERIFIED)
  }

  /** The same, said of the platform's answers: the agent's own task awaits this very RESULT, which reports success and
      names at most eight different artifacts; each is registered under its id for the task by the sender, has not
      expired and downloads; and the judgement on it all is "verified". */
  lemma SupportedExactly(self: Id, o: Outside, job: Job)
    ensures Supported(self, o, job) <==>
              && job.createdBy == self && job.awaiting && job.submitted == job.message
              && job.payload.Some?
              && var payload := job.payload.value;
                 && payload.status == "success"
                 && |set x | x in payload.artifacts| <= 8
                 && (forall x | x in payload.artifacts ::
                       && o.lookUp(x).Some?
                       && var a := o.lookUp(x).value;
                          && a.id == x && a.task == Some(job.task) && a.createdBy == job.sender
                          && (a.expiresAt == None || o.clock(x) < a.expiresAt.value)
                          && o.download(a).Some?)
                 && o.judge(Everything(o, job, payload)) == Some("verified")
  {
    if job.payload.Some? {
      var ids := job.payload.value.artifacts;
      DedupCounts(ids);
      forall x ensures x in Dedup(ids) <==> x in ids {
        DedupHas(ids, x);
      }
      assert AllUsable(o, job, Dedup(ids)) <==> forall x | x in ids :: Usable(o, job, x);
    }
  }

  lemma {:induction false} DedupCounts(ids: seq<Id>)
    ensures |Dedup(ids)| == |set x | x in ids|
  {
    if ids != [] {
      var before, last := ids[..|ids| - 1], ids[|ids| - 1];
      DedupCounts(before);
      assert ids == before + [last];
      var all, fewer := set x | x in ids, set x | x in before;
      assert all == fewer + {last};
      if last in before {
        assert all == fewer;
      }
    }
  }

  /** The judgement is on everything that was looked up and downloaded, in the order of the evidence. */
  lemma {:induction false} EverythingIs(o: Outside, job: Job, ids: seq<Id>, i: nat)
    requires AllUsable(o, job, ids) && i < |ids|
    ensures |Looked(o, job, ids)| == |ids| == |Read(o, job, ids)|
    ensures o.lookUp(ids[i]) == Some(Looked(o, job, ids)[i])
    ensures o.download(Looked(o, job, ids)[i]) == Some(Read(o, job, ids)[i])
  {
    var before := ids[..|ids| - 1];
    AllKept(o, job, ids);
    AllKept(o, job, before);
    if i < |before| {
      EverythingIs(o, job, before, i);
    }
  }

  /** At most eight different artifacts of the RESULT, each in scope and downloaded. */
  ghost predicate Sourced(o: Outside, job: Job, ids: seq<Id>, evidence: seq<Id>) {
    && |evidence| <= MAX_ARTIFACTS
    && Distinct(evidence)
    && forall x | x in evidence :: x in ids && Usable(o, job, x)
  }

  lemma {:induction false} KeptDistinct(o: Outside, job: Job, ids: seq<Id>)
    requires Distinct(ids)
    ensures Distinct(Kept(o, job, ids))
  {
    if ids != [] {
      var before, last := ids[..|ids| - 1], ids[|ids| - 1];
      KeptDistinct(o, job, before);
      KeptHas(o, job, before, last);
      forall i | 0 <= i < |Kept(o, job, before)| ensures Kept(o, job, before)[i] != last {
        assert Kept(o, job, before)[i] in Kept(o, job, before);
      }
    }
  }

  lemma KeptSourced(o: Outside, job: Job, ids: seq<Id>)
    ensures Sourced(o, job, ids, Kept(o, job, Considered(Dedup(ids))))
  {
    var considered := Considered(Dedup(ids));
    AllKept(o, job, considered);
    DedupDistinct(ids);
    KeptDistinct(o, job, considered);
    forall x | x in Kept(o, job, considered) ensures x in ids && Usable(o, job, x) {
      KeptHas(o, job, considered, x);
      DedupHas(ids, x);
    }
  }

  method VerifyJob(self: Id, o: Outside, job: Job) returns (outcome: Outcome)
    ensures outcome == Refused <==> !Proper(self, job)
    ensures Proper(self, job) && job.payload.None? ==> outcome == Failed
    ensures Proper(self, job) && job.payload.Some? ==>
              var ids := Dedup(job.payload.value.artifacts);
              if !Available(o, job, ids) then outcome == Submitted(INCONCLUSIVE, Kept(o, job, Considered(ids)))
              else match o.judge(Everything(o, job, job.payload.value))
                   case None => outcome == Failed
                   case Some(verdict) =>
                     outcome == Submitted(
                       if verdict == VERIFIED && job.payload.value.status != SUCCESS then INCONCLUSIVE else verdict, ids)
    ensures outcome.Submitted? && outcome.verdict == VERIFIED <==> Supported(self, o, job)
    ensures outcome.Submitted? && outcome.verdict == VERIFIED ==> outcome.evidence == Dedup(job.payload.value.artifacts)
    ensures outcome.Submitted? ==> job.payload.Some? && Sourced(o, job, job.payload.value.artifacts, outcome.evidence)
  {
    if job.createdBy != self {
      return Refused;
    }
    if !job.awaiting || job.submitted != job.message {
      return Refused;
    }
    if job.payload.None? {
      return Failed;
    }
    var payload := job.payload.value;
    var artifacts, contents, evidence, unavailable := Collect(o, job, payload.artifacts);
    var verdict := INCONCLUSIVE;
    AllKept(o, job, Dedup(payload.artifacts));
    KeptSourced(o, job, payload.artifacts);
    if !unavailable {
      var judged := o.judge(Input(payload, artifacts, contents));
      if judged.None? {
        return Failed;
      }
      verdict := judged.value;
      if verdict == VERIFIED && payload.status != SUCCESS {
        verdict := INCONCLUSIVE;
      }
    }
    return Submitted(verdict, evidence);
  }

  /** Goes through the list once, skipping repeats; the ninth different artifact ends it. */
  method Collect(o: Outside, job: Job, ids: seq<Id>)
    returns (artifacts: seq<Artifact>, contents: seq<string>, evidence: seq<Id>, unavailable: bool)
    ensures unavailable <==> !Available(o, job, Dedup(ids))
    ensures evidence == Kept(o, job, Considered(Dedup(ids)))
    ensures artifacts == Looked(o, job, Considered(Dedup(ids)))
    ensures contents == Read(o, job, Considered(Dedup(ids)))
  {
    artifacts, contents, evidence, unavailable := [], [], [], false;
    var seen: set<Id> := {};
    var i := 0;
    while i < |ids|
      invariant i <= |ids|
      invariant Gathered(o, job, ids[..i], seen, artifacts, contents, evidence, unavailable)
    {
      var id := ids[i];
      if id !in seen {
        if |seen| == MAX_ARTIFACTS {
          unavailable := true;
          TooMany(o, job, ids, i, seen, artifacts, contents, evidence);
          return;
        }
        var found, content := Examine(o, job, id);
        Another(o, job, ids, i, seen, artifacts, contents, evidence, unavailable, found, content);
        seen := seen + {id};
        artifacts := if found.Some? then artifacts + [found.value] else artifacts;
        contents := if content.Some? then contents + [content.value] else contents;
        evidence := if content.Some? then evidence + [id] else evidence;
        unavailable := unavailable || content.None?;
      } else {
        Again(o, job, ids, i, seen, artifacts, contents, evidence, unavailable);
      }
      i := i + 1;
    }
    assert ids[..i] == ids;
    Finished(o, job, ids, seen, artifacts, contents, evidence, unavailable);
  }

  method Examine(o: Outside, job: Job, id: Id) returns (found: Option<Artifact>, content: Option<string>)
    ensures found == if InScope(o, job, id) then o.lookUp(id) else None
    ensures content == if Usable(o, job, id) then o.download(o.lookUp(id).value) else None
  {
    found, content := o.lookUp(id), None;
    if found.None? || found.value.id != id || found.value.task != Some(job.task) || found.value.createdBy != job.sender
       || (found.value.expiresAt.Some? && found.value.expiresAt.value <= o.clock(id))
    {
      return None, None;
    }
    content := o.download(found.value);
  }

  /** What holds of the collection after the artifacts `ids`. */
  ghost predicate Gathered(
    o: Outside, job: Job, ids: seq<Id>, seen: set<Id>, artifacts: seq<Artifact>, contents: seq<string>, evidence: seq<Id>,
    unavailable: bool)
  {
    && (forall x :: x in seen <==> x in ids)
    && |seen| == |Dedup(ids)| <= MAX_ARTIFACTS
    && artifacts == Looked(o, job, Dedup(ids))
    && contents == Read(o, job, Dedup(ids))
    && evidence == Kept(o, job, Dedup(ids))
    && (unavailable <==> !AllUsable(o, job, Dedup(ids)))
  }

  lemma Member(ids: seq<Id>, i: nat, seen: set<Id>)
    requires i < |ids| && forall x :: x in seen <==> x in ids[..i]
    ensures forall x :: x in seen + {ids[i]} <==> x in ids[..i + 1]
  {
    assert ids[..i + 1] == ids[..i] + [ids[i]];
  }

  lemma Again(o: Outside, job: Job, ids: seq<Id>, i: nat, seen: set<Id>, artifacts: seq<Artifact>, contents: seq<string>,
              evidence: seq<Id>, unavailable: bool)
    requires i < |ids| && ids[i] in seen && Gathered(o, job, ids[..i], seen, artifacts, contents, evidence, unavailable)
    ensures Gathered(o, job, ids[..i + 1], seen, artifacts, contents, evidence, unavailable)
  {
    DedupSnoc(ids, i);
    MemberAgain(ids, i, seen);
  }

  lemma MemberAgain(ids: seq<Id>, i: nat, seen: set<Id>)
    requires i < |ids| && ids[i] in seen && forall x :: x in seen <==> x in ids[..i]
    ensures forall x :: x in seen <==> x in ids[..i + 1]
  {
    assert ids[..i + 1] == ids[..i] + [ids[i]];
  }

  lemma Another(o: Outside, job: Job, ids: seq<Id>, i: nat, seen: set<Id>, artifacts: seq<Artifact>, contents: seq<string>,
                evidence: seq<Id>, unavailable: bool, found: Option<Artifact>, content: Option<string>)
    requires i < |ids| && ids[i] !in seen && |seen| < MAX_ARTIFACTS
    requires Gathered(o, job, ids[..i], seen, artifacts, contents, evidence, unavailable)
    requires found == if InScope(o, job, ids[i]) then o.lookUp(ids[i]) else None
    requires content == if Usable(o, job, ids[i]) then o.download(o.lookUp(ids[i]).value) else None
    ensures Gathered(o, job, ids[..i + 1], seen + {ids[i]},
                     if found.Some? then artifacts + [found.value] else artifacts,
                     if content.Some? then contents + [content.value] else contents,
                     if content.Some? then evidence + [ids[i]] else evidence,
                     unavailable || content.None?)
  {
    var had, id := Dedup(ids[..i]), ids[i];
    DedupSnoc(ids, i);
    Member(ids, i, seen);
    assert Dedup(ids[..i + 1]) == had + [id];
    OneMore(o, job, had, id);
  }

  lemma Finished(o: Outside, job: Job, ids: seq<Id>, seen: set<Id>, artifacts: seq<Artifact>, contents: seq<string>,
                 evidence: seq<Id>, unavailable: bool)
    requires Gathered(o, job, ids, seen, artifacts, contents, evidence, unavailable)
    ensures unavailable <==> !Available(o, job, Dedup(ids))
    ensures evidence == Kept(o, job, Considered(Dedup(ids)))
    ensures artifacts == Looked(o, job, Considered(Dedup(ids)))
    ensures contents == Read(o, job, Considered(Dedup(ids)))
  {
  }

  /** The artifact one too many: what was gathered before it is all that is considered. */
  lemma TooMany(o: Outside, job: Job, ids: seq<Id>, i: nat, seen: set<Id>, artifacts: seq<Artifact>, contents: seq<string>,
                evidence: seq<Id>)
    requires i < |ids| && ids[i] !in seen && |seen| == MAX_ARTIFACTS
    requires exists unavailable :: Gathered(o, job, ids[..i], seen, artifacts, contents, evidence, unavailable)
    ensures !Available(o, job, Dedup(ids))
    ensures evidence == Kept(o, job, Considered(Dedup(ids)))
    ensures artifacts == Looked(o, job, Considered(Dedup(ids)))
    ensures contents == Read(o, job, Considered(Dedup(ids)))
  {
    DedupSnoc(ids, i);
    DedupOfPrefix(ids, i + 1);
    assert Considered(Dedup(ids)) == Dedup(ids[..i]);
  }

  lemma OneMore(o: Outside, job: Job, had: seq<Id>, id: Id)
    ensures AllUsable(o, job, had + [id]) <==> AllUsable(o, job, had) && Usable(o, job, id)
    ensures Looked(o, job, had + [id]) == if InScope(o, job, id) then Looked(o, job, had) + [o.lookUp(id).value] else Looked(o, job, had)
    ensures Read(o, job, had + [id]) ==
              if Usable(o, job, id) then Read(o, job, had) + [o.download(o.lookUp(id).value).value] else Read(o, job, had)
    ensures Kept(o, job, had + [id]) == if Usable(o, job, id) then Kept(o, job, had) + [id] else Kept(o, job, had)
  {
    assert (had + [id])[..|had|] == had && (had + [id])[|had|] == id;
    if AllUsable(o, job, had + [id]) {
      forall k | 0 <= k < |had| ensures Usable(o, job, had[k]) {
        assert Usable(o, job, (had + [id])[k]);
      }
    }
  }
}
