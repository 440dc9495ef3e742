/**
 What the device's code lets a process do with its upload queue (crates/rizzy-client/src/sync.rs,
 sync/heal.rs, crates/rizzy-cli/src/device.rs): `Uploads` says what a step does to file, memory and server,
 this module when the code takes it. Nothing is sent before a Fetch. While that Fetch showed the server behind,
 only healing goes out. After a stale answer either all stale ops that were surely never stored are issued
 again in one go, or, while a stale op that may have been served waits above the server's head, none is.
 */
module UploadGate {
  import opened Base
  import opened CacheRows
  import opened Uploads

  /** The vault's epoch: the statements that are below it, and the rows under which the device issues them again. */
  datatype Epoch = Epoch(stale: Blob -> bool, anew: Blob -> OpRow)

  /** What is issued again is not stale. */
  ghost predicate Renews(e: Epoch) {
    forall statement: Blob :: !e.stale(e.anew(statement).statement)
  }

  /** What the last Fetch of this process showed: the server's head of the own chain, and whether it was behind. */
  datatype View = View(head: nat, behind: bool)

  /** A process with its system; `seen` is the head the answer to a Fetch in flight will show. */
  datatype Process = Process(sys: System, seen: nat, view: Option<View>)

  /** A stale op that may have been served and waits above the server's head for a healing request. */
  predicate Awaits(e: Epoch, m: Memory, rows: seq<OpRow>, head: nat, k: nat) {
    k < |rows| && m.acked <= k && head <= k && e.stale(rows[k].statement) && MayHaveBeenServed(m, k)
  }

  /** The plan of the stale answer at hand names such an op. */
  predicate Republishes(e: Epoch, m: Memory, rows: seq<OpRow>, head: nat) {
    && m.staleFrom.Some? && m.staleFrom.value < |rows| && e.stale(rows[m.staleFrom.value].statement)
    && exists k | m.staleFrom.value <= k < |rows| :: Awaits(e, m, rows, head, k)
  }

  /** The re-issues of the next upload: none without a stale answer, otherwise the plan, whole. */
  predicate IsPlan(e: Epoch, m: Memory, rows: seq<OpRow>, head: nat, reissues: map<nat, OpRow>) {
    if m.staleFrom.None? then reissues == map[]
    else
      var from := m.staleFrom.value;
      && from < |rows| && e.stale(rows[from].statement) && !Republishes(e, m, rows, head)
      && (forall k | k in reissues :: InPlan(e, m, rows, k) && reissues[k] == e.anew(rows[k].statement))
      && (forall k | from <= k < |rows| && InPlan(e, m, rows, k) :: k in reissues)
  }

  predicate InPlan(e: Epoch, m: Memory, rows: seq<OpRow>, k: nat) {
    m.staleFrom.Some? && m.staleFrom.value <= k < |rows| && e.stale(rows[k].statement) && !MayHaveBeenServed(m, k)
  }

  /** The own part of a healing request: from the head on, up to the first op that is not for it. */
  predicate IsRange(m: Memory, rows: seq<OpRow>, from: nat, n: nat) {
    && n > 0 && from + n <= |rows|
    && (forall k | from <= k < from + n :: MayHaveBeenServed(m, k))
    && (from + n < |rows| ==> !MayHaveBeenServed(m, from + n))
  }

  /** Every op that is not acknowledged, as far as one request holds them. */
  function BatchSize(m: Memory, rows: seq<OpRow>): nat
    requires m.acked <= |rows|
  {
    if |rows| - m.acked < MAX_RECORDS then |rows| - m.acked else MAX_RECORDS
  }

  /** The refusals of an honest server: stale records of an upload; a healing request has no such check. */
  function Refusals(e: Epoch, request: Request): nat -> Option<Refusal> {
    match request
    case Upload(position, records) =>
      (k: nat) => if position <= k < position + |records| && e.stale(records[k - position]) then Some(Stale) else None
    case _ => (k: nat) => None
  }

  /** When the code takes a step, with an honest server: everything but restores, other devices and removal. */
  ghost predicate Gate(e: Epoch, p: Process, a: Action) {
    match a
    case Crash | Open | PrepareFetch | Send | Answer | Lost => true
    case Edit(_) => p.view.Some? ==> !p.view.value.behind
    case ForgetStale =>
      p.sys.phase.Idle? && p.view.Some? && !p.view.value.behind &&
      var m, rows := p.sys.phase.mem, p.sys.file.rows;
      m.staleFrom.Some? ==> m.staleFrom.value < |rows| && e.stale(rows[m.staleFrom.value].statement)
    case Handle(refuse) =>
      p.sys.phase.InFlight? && forall k: nat :: refuse(k) == Refusals(e, p.sys.phase.request)(k)
    case PrepareUpload(reissues, n) =>
      p.sys.phase.Idle? && p.view.Some? && !p.view.value.behind &&
      var m, rows := p.sys.phase.mem, p.sys.file.rows;
      m.acked <= |rows| && n == BatchSize(m, rows) && IsPlan(e, m, rows, p.view.value.head, reissues)
    case PrepareHeal(from, n) =>
      p.sys.phase.Idle? && p.view.Some? && from == p.view.value.head && n <= MAX_RECORDS &&
      var m, rows := p.sys.phase.mem, p.sys.file.rows;
      IsRange(m, rows, from, n) && (p.view.value.behind || Republishes(e, m, rows, from))
    case _ => false
  }

  predicate Fetching(p: Process) {
    p.sys.phase.InFlight? && p.sys.phase.request.Fetch?
  }

  /** The process after a step: a Fetch shows the head of when it was handled. */
  function After(p: Process, a: Action, t: System): Process {
    match a
    case Crash | Open => Process(t, p.seen, None)
    case Handle(_) => if Fetching(p) then Process(t, |p.sys.server.stored|, p.view) else p.(sys := t)
    case Answer =>
      if Fetching(p) then Process(t, p.seen, Some(View(p.seen, p.seen < p.sys.phase.mem.acked))) else p.(sys := t)
    case _ => p.(sys := t)
  }

  ghost predicate Goes(e: Epoch, p: Process, q: Process) {
    exists a :: Gate(e, p, a) && Next(p.sys, a, q.sys) && q == After(p, a, q.sys)
  }

  ghost predicate GoesOn(e: Epoch, path: seq<Process>, i: nat)
    requires 0 < i < |path|
  {
    Goes(e, path[i - 1], path[i])
  }

  ghost predicate IsPath(e: Epoch, path: seq<Process>) {
    |path| > 0 && forall i: nat :: 0 < i < |path| ==> GoesOn(e, path, i)
  }

  /** `q` is reached from `p` by steps the code takes. */
  ghost predicate Reached(e: Epoch, p: Process, q: Process) {
    exists path :: IsPath(e, path) && path[0] == p && path[|path| - 1] == q
  }

  lemma ReachedSelf(e: Epoch, p: Process)
    ensures Reached(e, p, p)
  {
    assert IsPath(e, [p]);
  }

  lemma ReachedThen(e: Epoch, p: Process, q: Process, r: Process)
    requires Reached(e, p, q) && Goes(e, q, r)
    ensures Reached(e, p, r)
  {
    var path :| IsPath(e, path) && path[0] == p && path[|path| - 1] == q;
    var longer := path + [r];
    forall i: nat | 0 < i < |longer|
      ensures GoesOn(e, longer, i)
    {
      if i < |path| {
        assert GoesOn(e, path, i);
      } else {
        assert longer[i - 1] == q && longer[i] == r;
      }
    }
    assert IsPath(e, longer) && longer[0] == p && longer[|longer| - 1] == r;
  }

  // ---------- what an answer changes ----------

  predicate TakenAt(results: seq<UploadResult>, i: int) {
    0 <= i < |results| && Taken(results[i])
  }

  predicate LeftOutAt(results: seq<UploadResult>, i: int) {
    0 <= i < |results| && !Taken(results[i])
  }

  /** What the results of an upload from position `k` on do to the op at `x`. */
  ghost predicate AnsweredAt(d: Device, k: nat, results: seq<UploadResult>, g: Id, after: Device, x: nat) {
    var m, m' := d.mem, after.mem;
    && |after.rows| == |d.rows|
    && (x < |d.rows| ==>
        after.rows[x] == if TakenAt(results, x - k) then d.rows[x].(own := Acknowledged) else d.rows[x])
    && m'.last == m.last && m'.leaving == m.leaving && m'.acked >= m.acked
    && (TakenAt(results, x - k) ==> x < m'.acked && x !in m'.unanswered && x !in m'.answered)
    && (x in m'.unanswered ==> x in m.unanswered && m'.unanswered[x] == m.unanswered[x])
    && (x in m.unanswered && x >= m'.acked && (m.unanswered[x] != g || !LeftOutAt(results, x - k)) ==>
        x in m'.unanswered)
    && (LeftOutAt(results, x - k) ==> x in m'.answered && m'.answered[x] == g)
    && (!(k <= x < k + |results|) && x in m.answered ==> x in m'.answered && m'.answered[x] == m.answered[x])
    && (LeftOutAt(results, x - k) && x in m'.unanswered ==> m'.unanswered[x] != g)
    && (x in m'.answered && !LeftOutAt(results, x - k) ==> x in m.answered)
  }

  /** Where the acknowledged ops and the stale answers end. */
  predicate AnsweredBelow(d: Device, k: nat, results: seq<UploadResult>, after: Device, x: nat) {
    && (d.mem.acked <= x && (forall i | 0 <= i < |results| && Taken(results[i]) :: k + i < x) ==> after.mem.acked <= x)
    && ((d.mem.staleFrom.Some? ==> d.mem.staleFrom.value <= x) &&
        (forall i | 0 <= i < |results| && results[i] == UploadResult.Rejected(Stale) :: k + i <= x) ==>
          (after.mem.staleFrom.Some? ==> after.mem.staleFrom.value <= x))
    && (d.mem.staleFrom.Some? && d.mem.staleFrom.value <= k ==> after.mem.staleFrom == d.mem.staleFrom)
    && (d.mem.staleFrom.None? && results != [] && results[0] == UploadResult.Rejected(Stale) ==>
          after.mem.staleFrom == Some(k))
  }

  lemma {:induction false} AnswersEach(d: Device, k: nat, results: seq<UploadResult>, g: Id, x: nat)
    requires k + |results| <= |d.rows| && Answered(d, k, results, g).Some?
    ensures AnsweredAt(d, k, results, g, Answered(d, k, results, g).value, x)
    decreases |results|
  {
    if results == [] {
    } else {
      var next := if Taken(results[0]) then Acknowledge(d, k).value else NotStored(d, k, results[0], g);
      var rest := results[1..];
      AnswersEach(next, k + 1, rest, g, x);
      assert x > k ==> (TakenAt(results, x - k) <==> TakenAt(rest, x - (k + 1)));
      assert x > k ==> (LeftOutAt(results, x - k) <==> LeftOutAt(rest, x - (k + 1)));
    }
  }

  lemma {:induction false} AnswersBelow(d: Device, k: nat, results: seq<UploadResult>, g: Id, x: nat)
    requires k + |results| <= |d.rows| && Answered(d, k, results, g).Some?
    ensures AnsweredBelow(d, k, results, Answered(d, k, results, g).value, x)
    decreases |results|
  {
    if results == [] {
    } else {
      var next := if Taken(results[0]) then Acknowledge(d, k).value else NotStored(d, k, results[0], g);
      var rest := results[1..];
      AnswersBelow(next, k + 1, rest, g, x);
      assert forall i | 0 <= i < |rest| :: rest[i] == results[i + 1];
      assert (forall i | 0 <= i < |results| && Taken(results[i]) :: k + i < x) ==>
        forall i | 0 <= i < |rest| && Taken(rest[i]) :: k + 1 + i < x;
      assert (forall i | 0 <= i < |results| && results[i] == UploadResult.Rejected(Stale) :: k + i <= x) ==>
        forall i | 0 <= i < |rest| && rest[i] == UploadResult.Rejected(Stale) :: k + 1 + i <= x;
    }
  }

  /** What the acceptance of a healing request up to `top` does to the op at `x`. */
  ghost predicate HealedAt(d: Device, top: nat, after: Device, x: nat) {
    var m, m' := d.mem, after.mem;
    && |after.rows| == |d.rows| && m'.acked == Max(m.acked, top)
    && (x < |d.rows| ==> after.rows[x] == if m.acked <= x < top then d.rows[x].(own := Acknowledged) else d.rows[x])
    && m'.last == m.last && m'.leaving == m.leaving && m'.staleFrom == m.staleFrom
    && (x >= m'.acked ==> (x in m'.unanswered <==> x in m.unanswered))
    && (x in m'.unanswered ==> x in m.unanswered && m'.unanswered[x] == m.unanswered[x])
  }

  lemma {:induction false} HealsEach(d: Device, top: nat, x: nat)
    requires top <= |d.rows| && AckedUpTo(d, top).Some?
    ensures HealedAt(d, top, AckedUpTo(d, top).value, x)
    decreases top - d.mem.acked
  {
    if d.mem.acked < top {
      HealsEach(Acknowledge(d, d.mem.acked).value, top, x);
    }
  }

  // ---------- when nothing is left to do ----------

  /** Everything the device wrote is acknowledged on disk, and is what the server's chain holds. */
  ghost predicate AllAcknowledged(t: System) {
    && (forall k :: 0 <= k < |t.file.rows| ==> t.file.rows[k].own.Acknowledged?)
    && t.server.stored == Statements(t.file.rows)
  }

  /** A process that does not run can start, and get everything acknowledged in the end. */
  ghost predicate CanFinish(e: Epoch, s: System) {
    exists q :: Reached(e, Process(s, 0, None), q) && AllAcknowledged(q.sys)
  }

  // ---------- when it cannot be done ----------

  /** Sent before the present state of the server: it may have been stored, and lost in a restore. */
  predicate Possibly(s: System, k: nat)
    requires |s.server.eras| > 0 && k < |s.file.rows|
  {
    s.file.rows[k].own.Sent? && s.file.rows[k].sentGeneration != Some(Current(s.server))
  }

  predicate StaleAbove(e: Epoch, s: System, k: nat)
    requires k < |s.file.rows|
  {
    |s.server.stored| <= k && !s.file.rows[k].own.Acknowledged? && e.stale(s.file.rows[k].statement)
  }

  /** A stale op that cannot have been stored stands before a stale one that can. */
  predicate BlockedAt(e: Epoch, s: System, j: nat, k: nat)
    requires |s.server.eras| > 0
  {
    j < k < |s.file.rows| && StaleAbove(e, s, j) && StaleAbove(e, s, k) && !Possibly(s, j) && Possibly(s, k)
  }

  ghost predicate Blocked(e: Epoch, s: System)
    requires |s.server.eras| > 0
  {
    exists j, k :: BlockedAt(e, s, j, k)
  }

  predicate GivenBack(s: System, k: nat)
    requires |s.server.eras| > 0 && k < |s.file.rows|
  {
    s.file.rows[k].own.Acknowledged? || Possibly(s, k)
  }

  /** A restore took more own ops than one healing request holds. */
  predicate TooLong(s: System)
    requires |s.server.eras| > 0
  {
    && |s.server.stored| + MAX_RECORDS < |s.file.rows| && s.file.rows[|s.server.stored|].own.Acknowledged?
    && forall k | |s.server.stored| <= k <= |s.server.stored| + MAX_RECORDS :: GivenBack(s, k)
  }

  // --- two stale ops in the wrong order ---

  /** What the process knows of the two, and what it has under way. */
  ghost predicate StaysBlocked(e: Epoch, p: Process, j: nat, k: nat) {
    var s := p.sys;
    && Inv(s) && BlockedAt(e, s, j, k)
    && (p.view.Some? ==> p.view.value.head <= j) && (Fetching(p) && s.phase.reply.Some? ==> p.seen <= j)
    && (!s.phase.Down? ==> KnowsBoth(s.phase.mem, p.view, Current(s.server), j, k))
    && UnderWay(s.phase, Current(s.server), j)
  }

  /** The memory has no plan that leaves the first of them out, and knows which was never stored. */
  predicate KnowsBoth(m: Memory, view: Option<View>, g: Id, j: nat, k: nat) {
    && !m.leaving && (m.staleFrom.Some? ==> m.staleFrom.value <= j)
    && k in m.unanswered && m.unanswered[k] != g && (j in m.unanswered ==> m.unanswered[j] == g)
    && (view.Some? ==> m.last == Some(g))
  }

  predicate UnderWay(phase: Phase, g: Id, j: nat) {
    && (phase.Prepared? || phase.InFlight? ==>
          (phase.request.Heal? ==> phase.request.position + |phase.request.records| <= j))
    && (phase.InFlight? && phase.reply.Some? ==> ReplyStays(phase.request, phase.reply.value, j, g))
  }

  /** No answer says that the op at `j` is stored, and one that is refused as stale comes no later. */
  predicate ReplyStays(request: Request, reply: Reply, j: nat, g: Id) {
    match (request, reply)
    case (_, Fetched(h)) => h == g
    case (Upload(position, _), Uploaded(h, results)) =>
      && h == g
      && (forall i | 0 <= i < |results| && Taken(results[i]) :: position + i < j)
      && (forall i | 0 <= i < |results| && results[i] == UploadResult.Rejected(Stale) :: position + i <= j)
    case (_, Healed(h)) => h == g
    case _ => true
  }

  lemma BlockedStaysQuiet(e: Epoch, p: Process, a: Action, q: Process, j: nat, k: nat)
    requires StaysBlocked(e, p, j, k) && Gate(e, p, a) && Next(p.sys, a, q.sys) && q == After(p, a, q.sys)
    requires a.Crash? || a.Edit? || a.PrepareFetch? || a.ForgetStale? || a.Send? || a.Lost?
    ensures StaysBlocked(e, q, j, k)
  {
    StepKeepsInv(p.sys, a, q.sys);
    hide Inv, RequestInv;
  }

  lemma BlockedStaysOpen(e: Epoch, p: Process, q: Process, j: nat, k: nat)
    requires StaysBlocked(e, p, j, k) && Next(p.sys, Open, q.sys) && q == After(p, Open, q.sys)
    ensures StaysBlocked(e, q, j, k)
  {
    StepKeepsInv(p.sys, Open, q.sys);
    assert RowInv(p.sys.server, p.sys.file, k);
  }

  /** The op that was never stored has no place in the request, as it is no op the server may have served. */
  lemma BlockedStaysHealing(e: Epoch, p: Process, from: nat, n: nat, q: Process, j: nat, k: nat)
    requires StaysBlocked(e, p, j, k) && Gate(e, p, PrepareHeal(from, n))
    requires Next(p.sys, PrepareHeal(from, n), q.sys) && q == After(p, PrepareHeal(from, n), q.sys)
    ensures StaysBlocked(e, q, j, k)
  {
    StepKeepsInv(p.sys, PrepareHeal(from, n), q.sys);
    assert OpInv(p.sys.server, p.sys.file.rows, p.sys.phase.mem, j);
    assert !MayHaveBeenServed(p.sys.phase.mem, j);
  }

  /** The plan names the other op, so nothing is issued again. */
  lemma NoPlanWhileBlocked(e: Epoch, p: Process, reissues: map<nat, OpRow>, n: nat, j: nat, k: nat)
    requires StaysBlocked(e, p, j, k) && Gate(e, p, PrepareUpload(reissues, n))
    ensures p.sys.phase.mem.staleFrom.None? && reissues == map[]
    ensures p.sys.phase.mem.acked <= j
  {
    var s, m := p.sys, p.sys.phase.mem;
    assert OpInv(s.server, s.file.rows, m, j) && OpInv(s.server, s.file.rows, m, k);
    if m.staleFrom.Some? {
      assert Awaits(e, m, s.file.rows, p.view.value.head, k);
    }
  }

  /** A mark keeps statement and first generation, and gives an unsent row the present one. */
  lemma MarkedAt(m: Memory, rows: seq<OpRow>, n: nat, k: nat)
    requires Markable(m, rows, n) && k < |rows|
    ensures
      var row := MarkedRows(m, rows, n)[k];
      && row.statement == rows[k].statement && (row.own.Acknowledged? <==> rows[k].own.Acknowledged?)
      && (row == rows[k] ||
          (m.acked <= k < m.acked + n && row.own.Sent? && row.sentGeneration == Or(rows[k].sentGeneration, m.last)))
  {
    MarkedRow(m, rows, n, k);
  }

  /** An upload without re-issues. */
  lemma MarksOnly(s: System, n: nat, t: System)
    requires Next(s, PrepareUpload(map[], n), t) && s.phase.mem.staleFrom.None?
    ensures
      var m, rows := s.phase.mem, s.file.rows;
      && Markable(m, rows, n) && t.server == s.server && t.file == s.file.(rows := MarkedRows(m, rows, n))
      && t.phase == Prepared(MarkedMemory(m, n), Batch(m, MarkedRows(m, rows, n), n))
  {
    var m, rows := s.phase.mem, s.file.rows;
    assert Reissued(m, rows, map[]) == rows;
    assert AfterReissue(m, map[]) == m;
  }

  lemma MarksKeepBlocked(e: Epoch, s: System, view: View, n: nat, t: System, j: nat, k: nat)
    requires |s.server.eras| > 0 && s.phase.Idle? && BlockedAt(e, s, j, k)
    requires KnowsBoth(s.phase.mem, Some(view), Current(s.server), j, k) && s.phase.mem.staleFrom.None?
    requires s.file.rows[j].own.Unsent? ==> s.file.rows[j].sentGeneration.None?
    requires s.file.rows[k].sentGeneration.Some? && Markable(s.phase.mem, s.file.rows, n)
    requires t.server == s.server && t.file == s.file.(rows := MarkedRows(s.phase.mem, s.file.rows, n))
    requires t.phase == Prepared(MarkedMemory(s.phase.mem, n), Batch(s.phase.mem, t.file.rows, n))
    ensures BlockedAt(e, t, j, k) && KnowsBoth(t.phase.mem, Some(view), Current(t.server), j, k)
    ensures UnderWay(t.phase, Current(t.server), j)
  {
    MarkedAt(s.phase.mem, s.file.rows, n, j);
    MarkedAt(s.phase.mem, s.file.rows, n, k);
    hide MarkedRows, Markable;
  }

  lemma BlockedStaysUpload(e: Epoch, p: Process, reissues: map<nat, OpRow>, n: nat, q: Process, j: nat, k: nat)
    requires StaysBlocked(e, p, j, k) && Gate(e, p, PrepareUpload(reissues, n))
    requires Next(p.sys, PrepareUpload(reissues, n), q.sys) && q == After(p, PrepareUpload(reissues, n), q.sys)
    ensures StaysBlocked(e, q, j, k)
  {
    var s := p.sys;
    NoPlanWhileBlocked(e, p, reissues, n, j, k);
    assert RowInv(s.server, s.file, j) && RowInv(s.server, s.file, k);
    StepKeepsInv(s, PrepareUpload(reissues, n), q.sys);
    MarksOnly(s, n, q.sys);
    hide Inv, Next, MarkedRows, Markable, BlockedAt, KnowsBoth, UnderWay;
    MarksKeepBlocked(e, s, p.view.value, n, q.sys, j, k);
  }

  lemma BlockedStaysHandle(e: Epoch, p: Process, refuse: nat -> Option<Refusal>, q: Process, j: nat, k: nat)
    requires StaysBlocked(e, p, j, k) && Gate(e, p, Handle(refuse))
    requires Next(p.sys, Handle(refuse), q.sys) && q == After(p, Handle(refuse), q.sys)
    ensures StaysBlocked(e, q, j, k)
  {
    var s, request := p.sys, p.sys.phase.request;
    StepKeepsInv(s, Handle(refuse), q.sys);
    if !request.Fetch? {
      NeverTaken(e, s, refuse, j);
    }
    hide Inv, RequestInv, Receive;
  }

  /** Whatever the records are, the chain stays below a stale op that it does not hold. */
  lemma NeverTaken(e: Epoch, s: System, refuse: nat -> Option<Refusal>, j: nat)
    requires Inv(s) && s.phase.InFlight? && !s.phase.request.Fetch?
    requires forall k: nat :: refuse(k) == Refusals(e, s.phase.request)(k)
    requires |s.server.stored| <= j < |s.file.rows| && e.stale(s.file.rows[j].statement)
    requires s.phase.request.Heal? ==> s.phase.request.position + |s.phase.request.records| <= j
    ensures
      var request := s.phase.request;
      var r := Receive(s.server.stored, request.position, request.records, refuse);
      && |r.0| <= j
      && (forall i | 0 <= i < |r.1| && Taken(r.1[i]) :: request.position + i < j)
      && (forall i | 0 <= i < |r.1| && r.1[i] == UploadResult.Rejected(Stale) :: request.position + i <= j)
  {
    var request := s.phase.request;
    if request.position <= j < request.position + |request.records| {
      var i := j - request.position;
      assert InUpload(s.file.rows, s.phase.mem, request.position + i, request.records[i]);
    }
    StopsBefore(s.server.stored, request.position, request.records, refuse, j);
  }

  lemma {:induction false} StopsBefore(stored: seq<Blob>, position: nat, records: seq<Blob>,
                                       refuse: nat -> Option<Refusal>, j: nat)
    requires |stored| <= j && (position <= j < position + |records| ==> refuse(j) == Some(Stale))
    ensures
      var r := Receive(stored, position, records, refuse);
      && |r.0| <= j
      && (forall i | 0 <= i < |r.1| && Taken(r.1[i]) :: position + i < j)
      && (forall i | 0 <= i < |r.1| && r.1[i] == UploadResult.Rejected(Stale) :: position + i <= j)
    decreases |records|
  {
    var r := Receive(stored, position, records, refuse);
    if records == [] {
    } else if Taken(r.1[0]) {
      var next := if position < |stored| then stored else stored + [records[0]];
      StopsBefore(next, position + 1, records[1..], refuse, j);
      var rest := Receive(next, position + 1, records[1..], refuse);
      assert r == (rest.0, [r.1[0]] + rest.1);
    } else {
      assert forall i | 1 <= i < |r.1| :: r.1[i] == NotProcessed;
    }
  }

  lemma BlockedStaysAnswer(e: Epoch, p: Process, q: Process, j: nat, k: nat)
    requires StaysBlocked(e, p, j, k) && Next(p.sys, Answer, q.sys) && q == After(p, Answer, q.sys)
    ensures StaysBlocked(e, q, j, k)
  {
    var s := p.sys;
    assert OpInv(s.server, s.file.rows, s.phase.mem, j) && OpInv(s.server, s.file.rows, s.phase.mem, k);
    StepKeepsInv(s, Answer, q.sys);
    AnswerKeepsBlocked(e, s, p.view, q.sys, j, k);
    hide Inv, KnowsBoth, BlockedAt;
  }

  lemma AnswerKeepsBlocked(e: Epoch, s: System, view: Option<View>, t: System, j: nat, k: nat)
    requires |s.server.eras| > 0 && BlockedAt(e, s, j, k) && Next(s, Answer, t)
    requires KnowsBoth(s.phase.mem, view, Current(s.server), j, k) && UnderWay(s.phase, Current(s.server), j)
    requires s.phase.mem.acked <= j
    ensures BlockedAt(e, t, j, k) && KnowsBoth(t.phase.mem, view, Current(t.server), j, k)
    ensures Fetching(Process(s, 0, view)) ==> t.phase.mem.last == Some(Current(t.server))
  {
    var request, reply, m := s.phase.request, s.phase.reply.value, s.phase.mem;
    if request.Upload? && reply.Uploaded? {
      var d := Device(s.file.rows, m.(last := Some(reply.generation)));
      AnswersEach(d, request.position, reply.results, reply.generation, j);
      AnswersEach(d, request.position, reply.results, reply.generation, k);
      AnswersBelow(d, request.position, reply.results, reply.generation, j);
    } else if request.Heal? && reply.Healed? {
      var d := Device(s.file.rows, m.(last := Some(reply.generation)));
      HealsEach(d, request.position + |request.records|, j);
      HealsEach(d, request.position + |request.records|, k);
    }
  }

  lemma BlockedStays(e: Epoch, p: Process, a: Action, q: Process, j: nat, k: nat)
    requires StaysBlocked(e, p, j, k) && Gate(e, p, a) && Next(p.sys, a, q.sys) && q == After(p, a, q.sys)
    ensures StaysBlocked(e, q, j, k)
  {
    match a
    case Open => BlockedStaysOpen(e, p, q, j, k);
    case PrepareHeal(from, n) => BlockedStaysHealing(e, p, from, n, q, j, k);
    case PrepareUpload(reissues, n) => BlockedStaysUpload(e, p, reissues, n, q, j, k);
    case Handle(refuse) => BlockedStaysHandle(e, p, refuse, q, j, k);
    case Answer => BlockedStaysAnswer(e, p, q, j, k);
    case _ => BlockedStaysQuiet(e, p, a, q, j, k);
  }

  lemma {:induction false} PathStaysBlocked(e: Epoch, path: seq<Process>, i: nat, j: nat, k: nat)
    requires IsPath(e, path) && StaysBlocked(e, path[0], j, k) && i < |path|
    ensures StaysBlocked(e, path[i], j, k)
  {
    if i > 0 {
      PathStaysBlocked(e, path, i - 1, j, k);
      assert GoesOn(e, path, i);
      var a :| Gate(e, path[i - 1], a) && Next(path[i - 1].sys, a, path[i].sys) &&
          path[i] == After(path[i - 1], a, path[i].sys);
      BlockedStays(e, path[i - 1], a, path[i], j, k);
    }
  }

  /** No process ever gets past the two, however often it starts again and whatever it edits. */
  lemma BlockedNeverFinishes(e: Epoch, s: System)
    requires Inv(s) && s.phase.Down? && Blocked(e, s)
    ensures !CanFinish(e, s)
  {
    var j, k :| BlockedAt(e, s, j, k);
    var p := Process(s, 0, None);
    forall q | Reached(e, p, q)
      ensures !AllAcknowledged(q.sys)
    {
      var path :| IsPath(e, path) && path[0] == p && path[|path| - 1] == q;
      PathStaysBlocked(e, path, |path| - 1, j, k);
    }
  }

  // --- more than one healing request holds ---

  /** The process sees the server behind at `h`, and would send back more than it may. */
  ghost predicate StaysTooLong(p: Process, h: nat) {
    var s := p.sys;
    && Inv(s) && |s.server.stored| == h && TooLong(s)
    && (p.view.Some? ==> p.view.value == View(h, true)) && (Fetching(p) && s.phase.reply.Some? ==> p.seen == h)
    && (!s.phase.Down? ==>
          && KnowsTooLong(s.phase.mem, Current(s.server), h)
          && (p.view.Some? ==> s.phase.mem.last == Some(Current(s.server))))
    && (s.phase.Prepared? || s.phase.InFlight? ==> s.phase.request.Fetch?)
    && (s.phase.InFlight? && s.phase.reply.Some? ==> s.phase.reply.value == Fetched(Current(s.server)))
  }

  predicate KnowsTooLong(m: Memory, g: Id, h: nat) {
    m.acked > h && forall k | h <= k <= h + MAX_RECORDS :: k < m.acked || (k in m.unanswered && m.unanswered[k] != g)
  }

  lemma TooLongStays(e: Epoch, p: Process, a: Action, q: Process, h: nat)
    requires StaysTooLong(p, h) && Gate(e, p, a) && Next(p.sys, a, q.sys) && q == After(p, a, q.sys)
    ensures StaysTooLong(q, h)
  {
    var s := p.sys;
    StepKeepsInv(s, a, q.sys);
    assert !a.PrepareHeal?;
    if a.Open? {
      forall k | h <= k <= h + MAX_RECORDS
        ensures k < q.sys.phase.mem.acked ||
                  (k in q.sys.phase.mem.unanswered && q.sys.phase.mem.unanswered[k] != Current(s.server))
      {
        assert GivenBack(s, k) && RowInv(s.server, s.file, k) && OpInv(s.server, s.file.rows, q.sys.phase.mem, k);
      }
      assert OpInv(s.server, s.file.rows, q.sys.phase.mem, h);
    }
    forall k | h <= k <= h + MAX_RECORDS
      ensures GivenBack(q.sys, k)
    {
      assert GivenBack(s, k);
    }
  }

  lemma {:induction false} PathStaysTooLong(e: Epoch, path: seq<Process>, i: nat, h: nat)
    requires IsPath(e, path) && StaysTooLong(path[0], h) && i < |path|
    ensures StaysTooLong(path[i], h)
  {
    if i > 0 {
      PathStaysTooLong(e, path, i - 1, h);
      assert GoesOn(e, path, i);
      var a :| Gate(e, path[i - 1], a) && Next(path[i - 1].sys, a, path[i].sys) &&
          path[i] == After(path[i - 1], a, path[i].sys);
      TooLongStays(e, path[i - 1], a, path[i], h);
    }
  }

  /** A loss that does not fit into one healing request is never given back by this device. */
  lemma TooLongNeverFinishes(e: Epoch, s: System)
    requires Inv(s) && s.phase.Down? && TooLong(s)
    ensures !CanFinish(e, s)
  {
    var p, h := Process(s, 0, None), |s.server.stored|;
    forall q | Reached(e, p, q)
      ensures !AllAcknowledged(q.sys)
    {
      var path :| IsPath(e, path) && path[0] == p && path[|path| - 1] == q;
      PathStaysTooLong(e, path, |path| - 1, h);
    }
  }
}
