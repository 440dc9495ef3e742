/**
 When the upload protocol gets stuck, and when not: a process that starts gets every own op acknowledged in the
 end, whatever was lost, restored or refused before, if and only if no stale op that was surely never stored
 stands before a stale one that may have been, and no restore took more than one healing request gives back
 (crates/rizzy-cli/src/device.rs, crates/rizzy-client/src/sync.rs, sync/heal.rs).
 */
module UploadProgress {
  import opened Base
  import opened CacheRows
  import opened Uploads
  import opened UploadGate

  // ---------- every op that was sent is in reach of one request ----------

  predicate Within(rows: seq<OpRow>) {
    forall k | 0 <= k < |rows| && rows[k].own.Sent? :: k < Acked(rows) + MAX_RECORDS
  }

  lemma {:induction false} AckedAtLeast(rows: seq<OpRow>, n: nat)
    requires n <= |rows| && forall k | 0 <= k < n :: rows[k].own.Acknowledged?
    ensures Acked(rows) >= n
  {
    if n > 0 {
      AckedAtLeast(rows[1..], n - 1);
    }
  }

  lemma {:induction false} AckedAre(rows: seq<OpRow>, k: nat)
    requires k < Acked(rows)
    ensures rows[k].own.Acknowledged?
  {
    if k > 0 {
      AckedAre(rows[1..], k - 1);
    }
  }

  lemma WithinCarries(before: seq<OpRow>, after: seq<OpRow>)
    requires Within(before) && |before| <= |after|
    requires forall k | 0 <= k < |before| && before[k].own.Acknowledged? :: after[k].own.Acknowledged?
    requires forall k | 0 <= k < |after| && after[k].own.Sent? ::
               k < Acked(before) + MAX_RECORDS || (k < |before| && before[k].own.Sent?)
    ensures Within(after)
  {
    forall k | 0 <= k < Acked(before)
      ensures after[k].own.Acknowledged?
    {
      AckedAre(before, k);
    }
    AckedAtLeast(after, Acked(before));
  }

  lemma AckedIsAcked(s: System)
    requires Inv(s) && !s.phase.Down?
    ensures Acked(s.file.rows) == s.phase.mem.acked
  {
    var rows, m := s.file.rows, s.phase.mem;
    forall k | 0 <= k < |rows|
      ensures rows[k].own.Acknowledged? <==> k < m.acked
    {
      assert OpInv(s.server, rows, m, k);
    }
    AckedAtLeast(rows, m.acked);
    if Acked(rows) > m.acked {
      AckedAre(rows, m.acked);
    }
  }

  lemma MarkingStaysWithin(s: System, m: Memory, rows: seq<OpRow>, n: nat)
    requires Within(rows) && m.acked == Acked(rows) && n <= MAX_RECORDS && Markable(m, rows, n)
    ensures Within(MarkedRows(m, rows, n))
  {
    var marked := MarkedRows(m, rows, n);
    forall k | 0 <= k < |rows|
      ensures rows[k].own.Acknowledged? ==> marked[k].own.Acknowledged?
      ensures marked[k].own.Sent? ==> k < m.acked + n || rows[k].own.Sent?
    {
      MarkedAt(m, rows, n, k);
    }
    WithinCarries(rows, marked);
  }

  lemma ReissuingStaysWithin(m: Memory, rows: seq<OpRow>, reissues: map<nat, OpRow>)
    requires Within(rows) && Reissuable(m, rows, reissues)
    ensures Within(Reissued(m, rows, reissues))
  {
    WithinCarries(rows, Reissued(m, rows, reissues));
  }

  lemma AnswersKeepLength(s: System, t: System)
    requires Next(s, Answer, t)
    ensures |t.file.rows| == |s.file.rows|
  {
    var request, reply, m := s.phase.request, s.phase.reply.value, s.phase.mem;
    if request.Upload? && reply.Uploaded? {
      var d := Device(s.file.rows, m.(last := Some(reply.generation)));
      AnsweredKeepsLength(d, request.position, reply.results, reply.generation);
    } else if request.Heal? && reply.Healed? {
      AckedUpToKeepsLength(Device(s.file.rows, m.(last := Some(reply.generation))),
          request.position + |request.records|);
    }
  }

  lemma AnsweringStaysWithin(s: System, t: System)
    requires Inv(s) && Next(s, Answer, t) && Within(s.file.rows)
    ensures Within(t.file.rows)
  {
    var request, reply, m := s.phase.request, s.phase.reply.value, s.phase.mem;
    AnswersKeepLength(s, t);
    forall k: nat | k < |s.file.rows|
      ensures t.file.rows[k] == s.file.rows[k] || t.file.rows[k] == s.file.rows[k].(own := Acknowledged)
    {
      if request.Upload? && reply.Uploaded? {
        var d := Device(s.file.rows, m.(last := Some(reply.generation)));
        AnswersEach(d, request.position, reply.results, reply.generation, k);
      } else if request.Heal? && reply.Healed? {
        HealsEach(Device(s.file.rows, m.(last := Some(reply.generation))), request.position + |request.records|, k);
      }
    }
    WithinCarries(s.file.rows, t.file.rows);
  }

  lemma StepStaysWithin(s: System, a: Action, t: System)
    requires Inv(s) && Next(s, a, t) && Within(s.file.rows)
    ensures Within(t.file.rows)
  {
    match a
    case Edit(row) => WithinCarries(s.file.rows, t.file.rows);
    case PrepareUpload(reissues, n) =>
      AckedIsAcked(s);
      var m, rows := AfterReissue(s.phase.mem, reissues), Reissued(s.phase.mem, s.file.rows, reissues);
      ReissuingStaysWithin(s.phase.mem, s.file.rows, reissues);
      ReissuingKeepsAcked(s, reissues);
      MarkingStaysWithin(s, m, rows, n);
    case PrepareLast(n) =>
      AckedIsAcked(s);
      MarkingStaysWithin(s, s.phase.mem.(leaving := true), s.file.rows, n);
    case Answer => AnsweringStaysWithin(s, t);
    case _ =>
  }

  lemma ReissuingKeepsAcked(s: System, reissues: map<nat, OpRow>)
    requires Inv(s) && s.phase.Idle? && !s.phase.mem.leaving && Reissuable(s.phase.mem, s.file.rows, reissues)
    ensures Acked(Reissued(s.phase.mem, s.file.rows, reissues)) == s.phase.mem.acked
  {
    var rows := Reissued(s.phase.mem, s.file.rows, reissues);
    ReissueKeepsInv(s.server, s.file, s.phase.mem, reissues);
    AckedIsAcked(s.(file := s.file.(rows := rows), phase := Idle(AfterReissue(s.phase.mem, reissues))));
  }

  lemma {:induction false} RunStaysWithin(run: seq<System>, i: nat)
    requires IsRun(run) && i < |run|
    ensures Within(run[i].file.rows)
  {
    if i > 0 {
      RunStaysWithin(run, i - 1);
      RunKeepsInv(run, i - 1);
      assert StepAt(run, i);
      var a :| Next(run[i - 1], a, run[i]);
      StepStaysWithin(run[i - 1], a, run[i]);
    }
  }

  // ---------- one request and its answer ----------

  ghost predicate Sound(p: Process) {
    Inv(p.sys) && Within(p.sys.file.rows)
  }

  lemma Going(e: Epoch, s: Process, p: Process, a: Action, t: System) returns (q: Process)
    requires Reached(e, s, p) && Sound(p) && Gate(e, p, a) && Next(p.sys, a, t)
    ensures q == After(p, a, t) && Reached(e, s, q) && Sound(q)
  {
    q := After(p, a, t);
    StepKeepsInv(p.sys, a, t);
    StepStaysWithin(p.sys, a, t);
    assert Goes(e, p, q);
    ReachedThen(e, s, p, q);
  }

  /** What the server makes of the request at hand. */
  function ServedTo(e: Epoch, s: System): (seq<Blob>, Reply)
    requires |s.server.eras| > 0 && s.phase.Prepared?
  {
    Handled(s.server, s.phase.request, Refusals(e, s.phase.request))
  }

  /** A prepared request is sent, handled and answered, and no guard refuses the commit of the answer. */
  lemma Exchanged(e: Epoch, s: Process, p: Process) returns (q: Process)
    requires Reached(e, s, p) && Sound(p) && p.sys.phase.Prepared?
    ensures Reached(e, s, q) && Sound(q) && q.sys.phase.Idle? &&
              q.sys.server == Grown(p.sys.server, ServedTo(e, p.sys).0)
    ensures Applied(p.sys.file.rows, p.sys.phase.mem, p.sys.phase.request, ServedTo(e, p.sys).1)
            == Some(Device(q.sys.file.rows, q.sys.phase.mem))
    ensures q.view == if p.sys.phase.request.Fetch? then
                        Some(View(|p.sys.server.stored|, |p.sys.server.stored| < p.sys.phase.mem.acked))
                      else p.view
  {
    var u, m, request := p.sys, p.sys.phase.mem, p.sys.phase.request;
    var served := ServedTo(e, u);
    var sent := Going(e, s, p, Send, u.(phase := InFlight(m, request, None)));
    var t := sent.sys.(server := Grown(u.server, served.0), phase := InFlight(m, request, Some(served.1)));
    var handled := Going(e, s, sent, Handle(Refusals(e, request)), t);
    AppliedKeepsInv(t.server, t.file, m, request, served.1);
    var d := Applied(u.file.rows, m, request, served.1).value;
    q := Going(e, s, handled, Answer, t.(file := File(d.rows, d.mem.last), phase := Idle(d.mem)));
  }

  // ---------- a process that just fetched ----------

  /** Memory and rows note the same generation of an op's first send, from the first unacknowledged op on. */
  predicate Synced(rows: seq<OpRow>, m: Memory) {
    forall k | m.acked <= k < |rows| && rows[k].own.Sent? ::
      k in m.unanswered && Some(m.unanswered[k]) == rows[k].sentGeneration
  }

  ghost predicate Ready(p: Process) {
    var s := p.sys;
    && Sound(p) && s.phase.Idle? && s.phase.mem.last == Some(Current(s.server))
    && !s.phase.mem.leaving && s.phase.mem.staleFrom.None? && Synced(s.file.rows, s.phase.mem)
    && p.view == Some(View(|s.server.stored|, |s.server.stored| < s.phase.mem.acked))
  }

  lemma StartsAgain(e: Epoch, s: Process, p: Process) returns (q: Process)
    requires Reached(e, s, p) && Sound(p)
    ensures Reached(e, s, q) && Ready(q) && q.sys.file.rows == p.sys.file.rows && q.sys.server.eras == p.sys.server.eras
    ensures q.sys.server.stored == p.sys.server.stored && q.sys.phase.mem.acked == Acked(p.sys.file.rows)
  {
    var down := Going(e, s, p, Crash, p.sys.(phase := Down));
    var idle := Going(e, s, down, Open, down.sys.(phase := Idle(Loaded(down.sys.file))));
    var asked := Going(e, s, idle, PrepareFetch, idle.sys.(phase := Prepared(idle.sys.phase.mem, Fetch)));
    q := Exchanged(e, s, asked);
    forall k | 0 <= k < |p.sys.file.rows| && p.sys.file.rows[k].own.Sent?
      ensures p.sys.file.rows[k].sentGeneration.Some?
    {
      assert RowInv(p.sys.server, p.sys.file, k);
    }
  }

  // ---------- what happens to the ops on the way ----------

  /** A stale op may have been issued again where it was never acknowledged; every other op is as it was. */
  predicate KeepsOp(e: Epoch, before: OpRow, after: OpRow) {
    && (after.statement == before.statement ||
        (e.stale(before.statement) && after.statement == e.anew(before.statement).statement))
    && (before.own.Acknowledged? ==> after.own.Acknowledged? && after.statement == before.statement)
  }

  /** An op that is still stale and not acknowledged is as possible as before. */
  predicate StaysAsPossible(e: Epoch, u: System, t: System, k: nat)
    requires |u.server.eras| > 0 && |t.server.eras| > 0 && k < |u.file.rows| == |t.file.rows|
  {
    !t.file.rows[k].own.Acknowledged? && e.stale(t.file.rows[k].statement) ==>
      t.file.rows[k].statement == u.file.rows[k].statement && (Possibly(t, k) <==> Possibly(u, k))
  }

  ghost predicate Evolves(e: Epoch, u: System, t: System) {
    && |u.server.eras| > 0 && t.server.eras == u.server.eras && u.server.stored <= t.server.stored
    && |t.file.rows| == |u.file.rows|
    && forall k | 0 <= k < |u.file.rows| :: KeepsOp(e, u.file.rows[k], t.file.rows[k]) && StaysAsPossible(e, u, t, k)
  }

  lemma EvolvesThrough(e: Epoch, u: System, v: System, t: System)
    requires Renews(e) && Evolves(e, u, v) && Evolves(e, v, t)
    ensures Evolves(e, u, t)
  {
    forall k | 0 <= k < |u.file.rows|
      ensures KeepsOp(e, u.file.rows[k], t.file.rows[k]) && StaysAsPossible(e, u, t, k)
    {
      assert KeepsOp(e, u.file.rows[k], v.file.rows[k]) && KeepsOp(e, v.file.rows[k], t.file.rows[k]);
      assert StaysAsPossible(e, u, v, k) && StaysAsPossible(e, v, t, k);
      assert !e.stale(e.anew(u.file.rows[k].statement).statement);
    }
  }

  lemma NotBlockedLater(e: Epoch, u: System, t: System)
    requires Evolves(e, u, t) && !Blocked(e, u)
    ensures !Blocked(e, t)
  {
    forall j: nat, k: nat
      ensures !BlockedAt(e, t, j, k)
    {
      if BlockedAt(e, t, j, k) {
        assert KeepsOp(e, u.file.rows[j], t.file.rows[j]) && KeepsOp(e, u.file.rows[k], t.file.rows[k]);
        assert StaysAsPossible(e, u, t, j) && StaysAsPossible(e, u, t, k);
        assert BlockedAt(e, u, j, k);
      }
    }
  }

  // ---------- healing ----------

  /** How far a healing request from `from` on goes. */
  lemma {:induction false} FindsRange(m: Memory, rows: seq<OpRow>, from: nat) returns (n: nat)
    requires from < |rows| && MayHaveBeenServed(m, from)
    ensures IsRange(m, rows, from, n)
    decreases |rows| - from
  {
    if from + 1 < |rows| && MayHaveBeenServed(m, from + 1) {
      var rest := FindsRange(m, rows, from + 1);
      n := rest + 1;
    } else {
      n := 1;
    }
  }

  /** The answer to a healing request that leaves no gap to the server's chain. */
  lemma HealingIsTaken(e: Epoch, s: System)
    requires Inv(s) && s.phase.Prepared? && s.phase.request.Heal? && s.phase.request.position <= |s.server.stored|
    ensures ServedTo(e, s).1 == Healed(Current(s.server)) && s.server.stored <= ServedTo(e, s).0
    ensures |ServedTo(e, s).0| == Max(|s.server.stored|, s.phase.request.position + |s.phase.request.records|)
  {
    var request := s.phase.request;
    forall i | 0 <= i < |request.records| && request.position + i < |s.server.stored|
      ensures s.server.stored[request.position + i] == request.records[i]
    {
      RecordsAgree(s.server, s.file, s.phase.mem, request, i);
    }
    AllAreTaken(s.server.stored, request.position, request.records, Refusals(e, request));
    ReceivedFromDevice(s.server, s.file, s.phase.mem, request, Refusals(e, request));
  }

  lemma {:induction false} AllAreTaken(stored: seq<Blob>, position: nat, records: seq<Blob>,
                                       refuse: nat -> Option<Refusal>)
    requires position <= |stored| && forall k: nat :: refuse(k).None?
    requires forall i :: 0 <= i < |records| && position + i < |stored| ==> stored[position + i] == records[i]
    ensures
      var r := Receive(stored, position, records, refuse);
      AllTaken(r.1) && |r.1| == |records| && |r.0| == Max(|stored|, position + |records|)
    decreases |records|
  {
    if records == [] {
    } else {
      var held := position < |stored|;
      assert held ==> stored[position + 0] == records[0];
      var next := if held then stored else stored + [records[0]];
      forall i | 0 <= i < |records[1..]| && position + 1 + i < |next|
        ensures next[position + 1 + i] == records[1..][i]
      {
        assert position + (i + 1) < |stored|;
      }
      AllAreTaken(next, position + 1, records[1..], refuse);
    }
  }

  /** The ops before `top` are acknowledged, and the rest is untouched. */
  predicate HealedRows(u: System, t: System, top: nat) {
    && |t.file.rows| == |u.file.rows| && t.server.eras == u.server.eras && u.server.stored <= t.server.stored
    && (forall k | 0 <= k < |u.file.rows| :: t.file.rows[k] == u.file.rows[k]
                                        || (k < top && t.file.rows[k] == u.file.rows[k].(own := Acknowledged)))
  }

  lemma HealedEvolves(e: Epoch, u: System, t: System, top: nat)
    requires |u.server.eras| > 0 && HealedRows(u, t, top)
    ensures Evolves(e, u, t)
  {
  }

  /** The acceptance of a healing request, row by row. */
  lemma HealedUpTo(u: System, t: System, top: nat, g: Id)
    requires t.phase.Idle? && u.phase.Idle? && top <= |u.file.rows|
    requires t.server.eras == u.server.eras && u.server.stored <= t.server.stored
    requires AckedUpTo(Device(u.file.rows, u.phase.mem.(last := Some(g))), top)
               == Some(Device(t.file.rows, t.phase.mem))
    ensures HealedRows(u, t, top) && t.phase.mem.acked == Max(u.phase.mem.acked, top)
  {
    var d := Device(u.file.rows, u.phase.mem.(last := Some(g)));
    HealsEach(d, top, 0);
    forall k | 0 <= k < |u.file.rows|
      ensures t.file.rows[k] == u.file.rows[k] || (k < top && t.file.rows[k] == u.file.rows[k].(own := Acknowledged))
    {
      HealsEach(d, top, k);
    }
  }

  lemma AsksToHeal(e: Epoch, s: Process, p: Process, n: nat) returns (q: Process)
    requires Reached(e, s, p) && Sound(p) && p.sys.phase.Idle? && p.sys.phase.mem.last.Some?
    requires p.view.Some? && p.view.value.head == |p.sys.server.stored| &&
               Gate(e, p, PrepareHeal(|p.sys.server.stored|, n))
    ensures Reached(e, s, q) && Sound(q) && q.sys.server == p.sys.server && q.sys.file == p.sys.file
    ensures q.sys.phase.Prepared? && q.sys.phase.mem == p.sys.phase.mem && q.sys.phase.request.Heal?
    ensures q.sys.phase.request.position == |p.sys.server.stored| && |q.sys.phase.request.records| == n
    ensures |p.sys.server.stored| + n <= |p.sys.file.rows|
  {
    hide FileInv, PhaseInv, Within, Reached, Republishes;
    var u, from := p.sys, |p.sys.server.stored|;
    var records := Statements(u.file.rows[from..from + n]);
    var t := u.(phase := Prepared(u.phase.mem, Heal(from, records)));
    assert Next(u, PrepareHeal(from, n), t);
    q := Going(e, s, p, PrepareHeal(from, n), t);
  }

  /** A healing request the code allows is accepted. */
  lemma HealsRange(e: Epoch, s: Process, p: Process, n: nat) returns (q: Process)
    requires Reached(e, s, p) && Sound(p) && p.sys.phase.Idle? && p.sys.phase.mem.last.Some?
    requires p.view.Some? && p.view.value.head == |p.sys.server.stored| &&
               Gate(e, p, PrepareHeal(|p.sys.server.stored|, n))
    ensures Reached(e, s, q) && Sound(q) && q.sys.phase.Idle?
    ensures HealedRows(p.sys, q.sys, |p.sys.server.stored| + n)
    ensures q.sys.phase.mem.acked == Max(p.sys.phase.mem.acked, |p.sys.server.stored| + n)
    ensures |q.sys.server.stored| == |p.sys.server.stored| + n
  {
    hide FileInv, PhaseInv, Within, Reached, Republishes;
    var u, from := p.sys, |p.sys.server.stored|;
    var asked := AsksToHeal(e, s, p, n);
    HealingIsTaken(e, asked.sys);
    hide Gate, Receive, Refusals, Inv, Within, Reached, Sound, AckedUpTo, HealedRows;
    q := Exchanged(e, s, asked);
    HealedUpTo(u, q.sys, from + n, Current(u.server));
  }

  /** It is accepted, and the process starts again. */
  lemma HealsAndStarts(e: Epoch, s: Process, p: Process, n: nat) returns (q: Process)
    requires Reached(e, s, p) && Sound(p) && p.sys.phase.Idle? && p.sys.phase.mem.last.Some?
    requires p.view.Some? && p.view.value.head == |p.sys.server.stored| &&
               Gate(e, p, PrepareHeal(|p.sys.server.stored|, n))
    ensures Reached(e, s, q) && Ready(q) && HealedRows(p.sys, q.sys, |p.sys.server.stored| + n)
    ensures q.sys.phase.mem.acked == Max(p.sys.phase.mem.acked, |p.sys.server.stored| + n)
    ensures |q.sys.server.stored| == |p.sys.server.stored| + n
  {
    var healed := HealsRange(e, s, p, n);
    AckedIsAcked(healed.sys);
    hide Sound, Gate, Ready;
    q := StartsAgain(e, s, healed);
  }

  /** A server that is behind gets back what it lost, unless that is too much for one request. */
  lemma CatchesUp(e: Epoch, s: Process, p: Process) returns (q: Process)
    requires Reached(e, s, p) && Ready(p) && !TooLong(p.sys)
    ensures Reached(e, s, q) && Ready(q) && q.sys.phase.mem.acked <= |q.sys.server.stored|
    ensures HealedRows(p.sys, q.sys, Max(|p.sys.server.stored|, q.sys.phase.mem.acked))
  {
    var u, m, h := p.sys, p.sys.phase.mem, |p.sys.server.stored|;
    if m.acked <= h {
      q := p;
    } else {
      var n := FindsRange(m, u.file.rows, h);
      if n > MAX_RECORDS {
        TooMuchToSend(p, n);
      }
      q := HealsAndStarts(e, s, p, n);
      assert m.acked <= h + n by {
        assert h + n < |u.file.rows| ==> !MayHaveBeenServed(m, h + n);
      }
    }
  }

  lemma TooMuchToSend(p: Process, n: nat)
    requires Ready(p) && |p.sys.server.stored| < p.sys.phase.mem.acked
    requires IsRange(p.sys.phase.mem, p.sys.file.rows, |p.sys.server.stored|, n) && n > MAX_RECORDS
    ensures TooLong(p.sys)
  {
    var u, m, h := p.sys, p.sys.phase.mem, |p.sys.server.stored|;
    forall k | h <= k <= h + MAX_RECORDS
      ensures GivenBack(u, k)
    {
      assert MayHaveBeenServed(m, k) && OpInv(u.server, u.file.rows, m, k);
    }
    assert OpInv(u.server, u.file.rows, m, h);
  }

  // ---------- one upload ----------

  predicate CanMark(u: System, reissues: map<nat, OpRow>) {
    && u.phase.Idle? && u.phase.mem.acked <= |u.file.rows| && Reissuable(u.phase.mem, u.file.rows, reissues)
    && var m, n := AfterReissue(u.phase.mem, reissues), BatchSize(u.phase.mem, u.file.rows);
       Markable(m, Reissued(u.phase.mem, u.file.rows, reissues), n)
  }

  /** The rows an upload marks, and the memory it leaves with. */
  function Marks(u: System, reissues: map<nat, OpRow>): Device
    requires CanMark(u, reissues)
  {
    var m, n := AfterReissue(u.phase.mem, reissues), BatchSize(u.phase.mem, u.file.rows);
    Device(MarkedRows(m, Reissued(u.phase.mem, u.file.rows, reissues), n), MarkedMemory(m, n))
  }

  /** The code may send the next upload, with these re-issues. */
  ghost predicate MaySend(e: Epoch, p: Process, reissues: map<nat, OpRow>) {
    var s := p.sys;
    && Sound(p) && s.phase.Idle? && !s.phase.mem.leaving && s.phase.mem.last == Some(Current(s.server))
    && s.phase.mem.acked < |s.file.rows| && s.phase.mem.acked <= |s.server.stored|
    && Reissuable(s.phase.mem, s.file.rows, reissues)
    && Gate(e, p, PrepareUpload(reissues, BatchSize(s.phase.mem, s.file.rows)))
  }

  lemma CanBeMarked(e: Epoch, p: Process, reissues: map<nat, OpRow>)
    requires MaySend(e, p, reissues)
    ensures CanMark(p.sys, reissues)
  {
    var s := p.sys;
    var rows := Reissued(s.phase.mem, s.file.rows, reissues);
    ReissueKeepsInv(s.server, s.file, s.phase.mem, reissues);
    UnacknowledgedAreMarkable(s.server, s.file.(rows := rows), AfterReissue(s.phase.mem, reissues),
        BatchSize(s.phase.mem, s.file.rows));
  }

  lemma AsksToUpload(e: Epoch, s: Process, p: Process, reissues: map<nat, OpRow>) returns (q: Process)
    requires Reached(e, s, p) && MaySend(e, p, reissues)
    ensures Reached(e, s, q) && Sound(q) && q.sys.server == p.sys.server && q.view == p.view
    ensures CanMark(p.sys, reissues)
    ensures
      var d, k, n := Marks(p.sys, reissues), p.sys.phase.mem.acked, BatchSize(p.sys.phase.mem, p.sys.file.rows);
      && k + n <= |d.rows| && q.sys.file.rows == d.rows
      && q.sys.phase == Prepared(d.mem, Upload(k, Statements(d.rows[k..k + n])))
  {
    hide FileInv, PhaseInv, Within, Reached, Republishes, IsPlan;
    CanBeMarked(e, p, reissues);
    var u, n := p.sys, BatchSize(p.sys.phase.mem, p.sys.file.rows);
    var d := Marks(u, reissues);
    var t := u.(file := u.file.(rows := d.rows),
        phase := Prepared(d.mem, Batch(AfterReissue(u.phase.mem, reissues), d.rows, n)));
    assert Next(u, PrepareUpload(reissues, n), t);
    q := Going(e, s, p, PrepareUpload(reissues, n), t);
  }

  /** The first `c` records are taken, and the next is stale. */
  predicate StopsAt(results: seq<UploadResult>, c: nat) {
    && c <= |results| && (forall i | 0 <= i < c :: Taken(results[i]))
    && (c < |results| ==> results[c] == UploadResult.Rejected(Stale))
    && (forall i | c < i < |results| :: results[i] == NotProcessed)
  }

  /** An honest server takes the records up to the first stale one it does not hold. */
  lemma {:induction false} ReceivesHonestly(e: Epoch, stored: seq<Blob>, position: nat, records: seq<Blob>,
                                            refuse: nat -> Option<Refusal>)
    returns (c: nat)
    requires position <= |stored|
    requires forall i :: 0 <= i < |records| ==>
               refuse(position + i) == if e.stale(records[i]) then Some(Stale) else None
    requires forall i :: 0 <= i < |records| && position + i < |stored| ==> stored[position + i] == records[i]
    ensures
      var r := Receive(stored, position, records, refuse);
      && |r.1| == |records| && StopsAt(r.1, c) && stored <= r.0 && |r.0| == Max(|stored|, position + c)
      && (c < |records| ==> e.stale(records[c]) && |stored| <= position + c)
    decreases |records|
  {
    c := 0;
    if records != [] {
      assert refuse(position + 0) == if e.stale(records[0]) then Some(Stale) else None;
      var held := position < |stored|;
      assert held ==> stored[position + 0] == records[0];
      if held || !e.stale(records[0]) {
        var next := if held then stored else stored + [records[0]];
        forall i | 0 <= i < |records[1..]|
          ensures refuse(position + 1 + i) == if e.stale(records[1..][i]) then Some(Stale) else None
          ensures position + 1 + i < |next| ==> next[position + 1 + i] == records[1..][i]
        {
          assert refuse(position + (i + 1)) == if e.stale(records[i + 1]) then Some(Stale) else None;
          assert position + (i + 1) < |stored| ==> stored[position + (i + 1)] == records[i + 1];
        }
        var rest := ReceivesHonestly(e, next, position + 1, records[1..], refuse);
        c := rest + 1;
      }
    }
  }

  /** What an upload of `n` ops from `k` on, of which `c` were taken, leaves of the op at `x`. */
  ghost predicate UploadedAt(d: Device, k: nat, n: nat, c: nat, g: Id, t: System, x: nat) {
    t.phase.Idle? && var m, m' := d.mem, t.phase.mem;
    && |t.file.rows| == |d.rows|
    && (x < |d.rows| ==> t.file.rows[x] == if k <= x < k + c then d.rows[x].(own := Acknowledged) else d.rows[x])
    && (k <= x < k + c ==> x < m'.acked) &&
        (x in m'.unanswered ==> x in m.unanswered && m'.unanswered[x] == m.unanswered[x])
    && (x in m.unanswered && x >= m'.acked && m.unanswered[x] != g ==> x in m'.unanswered)
    && (k + c <= x < k + n ==> x in m'.answered && m'.answered[x] == g)
    && (k + c <= x < k + n && x in m'.unanswered ==> m'.unanswered[x] != g)
  }

  /** And of the memory as a whole. */
  predicate UploadedAll(d: Device, k: nat, n: nat, c: nat, g: Id, t: System) {
    t.phase.Idle? && var m, m' := d.mem, t.phase.mem;
    && c <= n && m'.last == Some(g) && m'.leaving == m.leaving && m.acked <= m'.acked <= k + c
    && (c == 0 && n > 0 && m.staleFrom.None? ==> m'.staleFrom == Some(k))
  }

  lemma AppliesResults(d: Device, k: nat, results: seq<UploadResult>, c: nat, g: Id, t: System)
    requires t.phase.Idle? && k + |results| <= |d.rows| && d.mem.last == Some(g) && d.mem.acked == k &&
               StopsAt(results, c)
    requires Answered(d, k, results, g) == Some(Device(t.file.rows, t.phase.mem))
    ensures UploadedAll(d, k, |results|, c, g, t) && forall x: nat :: UploadedAt(d, k, |results|, c, g, t, x)
  {
    AnswersBelow(d, k, results, g, k + c);
    AnswersEach(d, k, results, g, 0);
    forall x: nat
      ensures UploadedAt(d, k, |results|, c, g, t, x)
    {
      AnswersEach(d, k, results, g, x);
    }
  }

  /** The whole of it: file and memory as marked, and the server before. */
  ghost predicate Uploaded(e: Epoch, d: Device, sv: Server, k: nat, n: nat, c: nat, t: System) {
    && |sv.eras| > 0 && t.server.eras == sv.eras && k + n <= |d.rows|
    && UploadedAll(d, k, n, c, Current(sv), t) && (forall x: nat :: UploadedAt(d, k, n, c, Current(sv), t, x))
    && sv.stored <= t.server.stored && |t.server.stored| == Max(|sv.stored|, k + c)
    && (c < n ==> e.stale(d.rows[k + c].statement) && |sv.stored| <= k + c)
  }

  lemma ServesBatch(e: Epoch, u: System) returns (c: nat)
    requires Inv(u) && u.phase.Prepared? && u.phase.request.Upload? && u.phase.request.position <= |u.server.stored|
    ensures
      var request, served := u.phase.request, ServedTo(e, u);
      && served.1.Uploaded? && served.1.generation == Current(u.server) && |served.1.results| == |request.records|
      && StopsAt(served.1.results, c) && u.server.stored <= served.0 &&
          |served.0| == Max(|u.server.stored|, request.position + c)
      && (c < |request.records| ==> e.stale(request.records[c]) && |u.server.stored| <= request.position + c)
  {
    var request := u.phase.request;
    forall i | 0 <= i < |request.records| && request.position + i < |u.server.stored|
      ensures u.server.stored[request.position + i] == request.records[i]
    {
      RecordsAgree(u.server, u.file, u.phase.mem, request, i);
    }
    c := ReceivesHonestly(e, u.server.stored, request.position, request.records, Refusals(e, request));
  }

  lemma AnswersBatch(e: Epoch, s: Process, asked: Process) returns (q: Process, c: nat)
    requires Reached(e, s, asked) && Sound(asked) && asked.sys.phase.Prepared? && asked.sys.phase.request.Upload?
    requires
      var u, request := asked.sys, asked.sys.phase.request;
      && request.position == u.phase.mem.acked <= |u.server.stored| && u.phase.mem.last == Some(Current(u.server))
      && request.position + |request.records| <= |u.file.rows|
      && request.records == Statements(u.file.rows[request.position..request.position + |request.records|])
    ensures Reached(e, s, q) && Sound(q) && q.view == asked.view
    ensures
      var u, request := asked.sys, asked.sys.phase.request;
      Uploaded(e, Device(u.file.rows, u.phase.mem), u.server, request.position, |request.records|, c, q.sys)
  {
    var u, request := asked.sys, asked.sys.phase.request;
    c := ServesBatch(e, u);
    assert |u.server.eras| > 0;
    hide Sound, Inv, Reached, Receive, Within;
    q := Exchanged(e, s, asked);
    var g := Current(u.server);
    var d := Device(u.file.rows, u.phase.mem);
    assert d.mem.(last := Some(g)) == d.mem;
    AppliesResults(d, request.position, ServedTo(e, u).1.results, c, g, q.sys);
    hide UploadedAt, UploadedAll, StopsAt;
  }

  /** One upload the code may send, and its answer. */
  lemma UploadsBatch(e: Epoch, s: Process, p: Process, reissues: map<nat, OpRow>) returns (q: Process, c: nat)
    requires Reached(e, s, p) && MaySend(e, p, reissues)
    ensures Reached(e, s, q) && Sound(q) && q.view == p.view && CanMark(p.sys, reissues)
    ensures
      var u := p.sys;
      Uploaded(e, Marks(u, reissues), u.server, u.phase.mem.acked, BatchSize(u.phase.mem, u.file.rows), c, q.sys)
  {
    hide FileInv, PhaseInv, Within, Reached, Republishes, IsPlan, Uploaded;
    var asked := AsksToUpload(e, s, p, reissues);
    q, c := AnswersBatch(e, s, asked);
  }

  /** Every re-issue is of a stale op, as the device issues it again. */
  predicate OnlyStale(e: Epoch, rows: seq<OpRow>, reissues: map<nat, OpRow>) {
    forall k | k in reissues :: k < |rows| && e.stale(rows[k].statement) && reissues[k] == e.anew(rows[k].statement)
  }

  /** What an upload made of the row at `k`. */
  lemma MarkedFrom(u: System, reissues: map<nat, OpRow>, k: nat)
    requires CanMark(u, reissues) && k < |u.file.rows|
    ensures
      var before, row := u.file.rows[k], Marks(u, reissues).rows[k];
      && |Marks(u, reissues).rows| == |u.file.rows| && (before.own.Acknowledged? <==> row.own.Acknowledged?)
      && row.statement == (if k in reissues then reissues[k].statement else before.statement)
      && (k in reissues ==> !before.own.Acknowledged?)
      && (k !in reissues ==>
          row == before || (row.own.Sent? && row.sentGeneration == Or(before.sentGeneration, u.phase.mem.last)))
  {
    var m, rows := AfterReissue(u.phase.mem, reissues), Reissued(u.phase.mem, u.file.rows, reissues);
    MarkedAt(m, rows, BatchSize(u.phase.mem, u.file.rows), k);
  }

  lemma BatchEvolvesAt(e: Epoch, u: System, reissues: map<nat, OpRow>, c: nat, t: System, k: nat)
    requires Renews(e) && Inv(u) && CanMark(u, reissues) && u.phase.mem.last == Some(Current(u.server))
    requires OnlyStale(e, u.file.rows, reissues) && k < |u.file.rows| == |t.file.rows| && t.server.eras == u.server.eras
    requires Uploaded(e, Marks(u, reissues), u.server, u.phase.mem.acked, BatchSize(u.phase.mem, u.file.rows), c, t)
    ensures KeepsOp(e, u.file.rows[k], t.file.rows[k]) && StaysAsPossible(e, u, t, k)
  {
    var d := Marks(u, reissues);
    assert UploadedAt(d, u.phase.mem.acked, BatchSize(u.phase.mem, u.file.rows), c, Current(u.server), t, k);
    assert RowInv(u.server, u.file, k);
    MarkedFrom(u, reissues, k);
    hide Marks, Inv, RowInv, CanMark, UploadedAll, Uploaded;
    assert !e.stale(e.anew(u.file.rows[k].statement).statement);
  }

  lemma BatchEvolves(e: Epoch, u: System, reissues: map<nat, OpRow>, c: nat, t: System)
    requires Renews(e) && Inv(u) && CanMark(u, reissues) && u.phase.mem.last == Some(Current(u.server))
    requires OnlyStale(e, u.file.rows, reissues)
    requires Uploaded(e, Marks(u, reissues), u.server, u.phase.mem.acked, BatchSize(u.phase.mem, u.file.rows), c, t)
    ensures Evolves(e, u, t)
  {
    assert UploadedAt(Marks(u, reissues), u.phase.mem.acked, BatchSize(u.phase.mem, u.file.rows), c,
        Current(u.server), t, 0);
    assert |t.file.rows| == |u.file.rows|;
    forall k | 0 <= k < |u.file.rows|
      ensures KeepsOp(e, u.file.rows[k], t.file.rows[k]) && StaysAsPossible(e, u, t, k)
    {
      BatchEvolvesAt(e, u, reissues, c, t, k);
    }
  }

  // ---------- after a refusal ----------

  /** The upload of a process that just started was refused at its first record. */
  ghost predicate Refused(e: Epoch, p: Process, q: Process) {
    var u := p.sys;
    && Ready(p) && Sound(q) && q.view == p.view && CanMark(u, map[]) && u.phase.mem.acked < |u.file.rows|
    && u.phase.mem.acked == |u.server.stored|
    && Uploaded(e, Marks(u, map[]), u.server, u.phase.mem.acked, BatchSize(u.phase.mem, u.file.rows), 0, q.sys)
  }

  lemma NoReissues(u: System)
    requires CanMark(u, map[])
    ensures
      var d, m, n := Marks(u, map[]), u.phase.mem, BatchSize(u.phase.mem, u.file.rows);
      && d.mem.acked == m.acked && d.mem.leaving == m.leaving && d.mem.staleFrom.None? && d.mem.last == m.last &&
          m.last.Some?
      && d.mem.unanswered == Noted(m.unanswered, m.acked, n, m.last.value)
  {
    assert AfterReissue(u.phase.mem, map[]) == u.phase.mem.(staleFrom := None);
  }

  /** The memory then says of an op that it may have been served exactly where the rows do. */
  lemma MaybeIsPossibly(e: Epoch, p: Process, q: Process, x: nat)
    requires Refused(e, p, q) && p.sys.phase.mem.acked <= x < |p.sys.file.rows|
    ensures MayHaveBeenServed(q.sys.phase.mem, x) <==> Possibly(p.sys, x)
    ensures q.sys.phase.mem.acked == p.sys.phase.mem.acked && |q.sys.file.rows| == |p.sys.file.rows|
  {
    var u, m, n, g := p.sys, p.sys.phase.mem, BatchSize(p.sys.phase.mem, p.sys.file.rows), Current(p.sys.server);
    assert OpInv(u.server, u.file.rows, m, x);
    NoReissues(u);
    MarkedFrom(u, map[], x);
    assert UploadedAt(Marks(u, map[]), m.acked, n, 0, g, q.sys, x);
  }

  /** The plan of the refusal: every stale op from the front on that was surely never stored. */
  function Plan(e: Epoch, u: System): map<nat, OpRow>
    requires u.phase.Idle?
  {
    map k: nat | k < |u.file.rows| && InPlan(e, u.phase.mem, u.file.rows, k) :: e.anew(u.file.rows[k].statement)
  }

  /** Where nothing blocks and the op at the front was never stored, no stale op may have been served. */
  lemma NoneAwaits(e: Epoch, p: Process, q: Process, x: nat)
    requires Refused(e, p, q) && !Blocked(e, p.sys) && !Possibly(p.sys, p.sys.phase.mem.acked)
    requires e.stale(p.sys.file.rows[p.sys.phase.mem.acked].statement)
    requires p.sys.phase.mem.acked <= x < |p.sys.file.rows| && e.stale(p.sys.file.rows[x].statement)
    ensures !MayHaveBeenServed(q.sys.phase.mem, x)
  {
    var u, k := p.sys, p.sys.phase.mem.acked;
    MaybeIsPossibly(e, p, q, x);
    assert OpInv(u.server, u.file.rows, u.phase.mem, k) && OpInv(u.server, u.file.rows, u.phase.mem, x);
    if Possibly(u, x) {
      assert BlockedAt(e, u, k, x);
    }
  }

  /** The guards admit the plan whole: what it names was never sent, or refused in this generation just now. */
  lemma PlanIsAdmitted(e: Epoch, p: Process, q: Process)
    requires Refused(e, p, q)
    ensures Reissuable(q.sys.phase.mem, q.sys.file.rows, Plan(e, q.sys))
  {
    var m, rows := q.sys.phase.mem, q.sys.file.rows;
    forall k | k in Plan(e, q.sys)
      ensures m.staleFrom.Some? && m.staleFrom.value <= k < |rows| && !MayHaveBeenServed(m, k)
      ensures ReissueRow(rows[k], Plan(e, q.sys)[k], if k in m.answered then Some(m.answered[k]) else None).Some?
    {
      PlanIsAdmittedAt(e, p, q, k);
    }
  }

  lemma PlanIsAdmittedAt(e: Epoch, p: Process, q: Process, k: nat)
    requires Refused(e, p, q) && InPlan(e, q.sys.phase.mem, q.sys.file.rows, k)
    ensures
      var m := q.sys.phase.mem;
      ReissueRow(q.sys.file.rows[k], Plan(e, q.sys)[k], if k in m.answered then Some(m.answered[k]) else None).Some?
  {
    var u, m, n, g := p.sys, p.sys.phase.mem, BatchSize(p.sys.phase.mem, p.sys.file.rows), Current(p.sys.server);
    AckedIsAcked(u);
    NoReissues(u);
    assert UploadedAt(Marks(u, map[]), m.acked, n, 0, g, q.sys, k);
    assert OpInv(u.server, u.file.rows, m, k) && RowInv(u.server, u.file, k);
    MarkedFrom(u, map[], k);
    MaybeIsPossibly(e, p, q, k);
    OutsideIsUntouched(u, k);
  }

  /** Only the batch is marked. */
  lemma OutsideIsUntouched(u: System, k: nat)
    requires CanMark(u, map[]) && k < |u.file.rows|
    ensures
      var m, n, row := u.phase.mem, BatchSize(u.phase.mem, u.file.rows), Marks(u, map[]).rows[k];
      !(m.acked <= k < m.acked + n) ==> row == u.file.rows[k]
  {
    assert Reissued(u.phase.mem, u.file.rows, map[]) == u.file.rows;
    MarkedAt(AfterReissue(u.phase.mem, map[]), u.file.rows, BatchSize(u.phase.mem, u.file.rows), k);
  }

  lemma RefusalSays(e: Epoch, p: Process, q: Process)
    requires Refused(e, p, q)
    ensures
      var m, k := q.sys.phase.mem, p.sys.phase.mem.acked;
      && q.sys.phase.Idle? && m.staleFrom == Some(k) && !m.leaving && m.acked == k &&
          m.last == Some(Current(q.sys.server))
      && |q.sys.file.rows| == |p.sys.file.rows| && |q.sys.server.stored| == k && q.sys.server.eras == p.sys.server.eras
      && forall x | 0 <= x < |p.sys.file.rows| :: q.sys.file.rows[x].statement == p.sys.file.rows[x].statement
  {
    var u, m, n := p.sys, p.sys.phase.mem, BatchSize(p.sys.phase.mem, p.sys.file.rows);
    NoReissues(u);
    forall x | 0 <= x < |u.file.rows|
      ensures |q.sys.file.rows| == |u.file.rows| && q.sys.file.rows[x].statement == u.file.rows[x].statement
    {
      MarkedFrom(u, map[], x);
      assert UploadedAt(Marks(u, map[]), m.acked, n, 0, Current(u.server), q.sys, x);
    }
    assert UploadedAt(Marks(u, map[]), m.acked, n, 0, Current(u.server), q.sys, m.acked);
  }

  /** What stands in the way of the plan: nothing. */
  ghost predicate Unblocked(e: Epoch, p: Process) {
    |p.sys.server.eras| > 0 && p.sys.phase.Idle? && p.sys.phase.mem.acked < |p.sys.file.rows| && !Blocked(e, p.sys) &&
    !Possibly(p.sys, p.sys.phase.mem.acked) && e.stale(p.sys.file.rows[p.sys.phase.mem.acked].statement)
  }

  lemma MaySendPlan(e: Epoch, p: Process, q: Process)
    requires Refused(e, p, q) && Unblocked(e, p)
    ensures MaySend(e, q, Plan(e, q.sys)) && OnlyStale(e, q.sys.file.rows, Plan(e, q.sys))
  {
    var m, rows, k := q.sys.phase.mem, q.sys.file.rows, p.sys.phase.mem.acked;
    PlanIsAdmitted(e, p, q);
    RefusalSays(e, p, q);
    forall x | k <= x < |rows|
      ensures !Awaits(e, m, rows, k, x)
    {
      if e.stale(rows[x].statement) {
        NoneAwaits(e, p, q, x);
      }
    }
    assert IsPlan(e, m, rows, k, Plan(e, q.sys));
  }

  /** What the plan left as it was is not stale, and what it issued again is not either. */
  lemma NothingStale(e: Epoch, p: Process, q: Process, x: nat)
    requires Renews(e) && Refused(e, p, q) && Unblocked(e, p) && CanMark(q.sys, Plan(e, q.sys))
    requires p.sys.phase.mem.acked <= x < |q.sys.file.rows|
    ensures x < |Marks(q.sys, Plan(e, q.sys)).rows| && !e.stale(Marks(q.sys, Plan(e, q.sys)).rows[x].statement)
  {
    hide FileInv, PhaseInv, Within, Uploaded;
    RefusalSays(e, p, q);
    MarkedFrom(q.sys, Plan(e, q.sys), x);
    if x in Plan(e, q.sys) {
      assert !e.stale(e.anew(q.sys.file.rows[x].statement).statement);
    } else if e.stale(q.sys.file.rows[x].statement) {
      NoneAwaits(e, p, q, x);
    }
  }

  /** A batch of which no record is stale is taken whole. */
  lemma TakesWhole(e: Epoch, d: Device, sv: Server, k: nat, n: nat, c: nat, t: System)
    requires Uploaded(e, d, sv, k, n, c, t) && n > 0 && forall x | k <= x < k + n :: !e.stale(d.rows[x].statement)
    ensures t.phase.Idle? && k < t.phase.mem.acked <= |t.server.stored|
  {
    assert UploadedAt(d, k, n, c, Current(sv), t, k);
  }

  /** No record of it is stale, so all are taken. */
  lemma WholeBatch(e: Epoch, p: Process, q: Process, c: nat, t: System)
    requires Renews(e) && Refused(e, p, q) && Unblocked(e, p) && CanMark(q.sys, Plan(e, q.sys))
    requires Uploaded(e, Marks(q.sys, Plan(e, q.sys)), q.sys.server, q.sys.phase.mem.acked,
               BatchSize(q.sys.phase.mem, q.sys.file.rows), c, t)
    ensures t.phase.Idle? && t.phase.mem.acked > p.sys.phase.mem.acked && t.phase.mem.acked <= |t.server.stored|
  {
    var k, n, d := p.sys.phase.mem.acked, BatchSize(q.sys.phase.mem, q.sys.file.rows), Marks(q.sys, Plan(e, q.sys));
    RefusalSays(e, p, q);
    hide Refused, Uploaded, Marks, CanMark, Plan, Renews, Blocked;
    forall x | k <= x < k + n
      ensures x < |d.rows| && !e.stale(d.rows[x].statement)
    {
      NothingStale(e, p, q, x);
    }
    TakesWhole(e, d, q.sys.server, k, n, c, t);
  }

  lemma SendsPlan(e: Epoch, s: Process, p: Process, q: Process) returns (t: Process)
    requires Renews(e) && Reached(e, s, q) && Refused(e, p, q) && Unblocked(e, p)
    ensures Reached(e, s, t) && Sound(t) && Evolves(e, q.sys, t.sys)
    ensures t.sys.phase.Idle? && p.sys.phase.mem.acked < t.sys.phase.mem.acked <= |t.sys.server.stored|
  {
    var reissues := Plan(e, q.sys);
    MaySendPlan(e, p, q);
    hide FileInv, PhaseInv, Within, Reached, Republishes, IsPlan, Uploaded, Plan, Unblocked;
    RefusalSays(e, p, q);
    assert Inv(q.sys);
    hide Refused;
    var c;
    t, c := UploadsBatch(e, s, q, reissues);
    hide MaySend, CanMark, OnlyStale, Evolves, Inv;
    WholeBatch(e, p, q, c, t.sys);
    BatchEvolves(e, q.sys, reissues, c, t.sys);
  }

  /** The refused op was never stored: every stale op is issued again, and the whole batch is taken. */
  lemma Renewed(e: Epoch, s: Process, p: Process, q: Process) returns (t: Process)
    requires Renews(e) && Reached(e, s, q) && Refused(e, p, q) && Unblocked(e, p)
    ensures Reached(e, s, t) && Ready(t) && Evolves(e, q.sys, t.sys)
    ensures p.sys.phase.mem.acked < t.sys.phase.mem.acked <= |t.sys.server.stored|
  {
    var sent := SendsPlan(e, s, p, q);
    AckedIsAcked(sent.sys);
    hide Refused, Unblocked, Sound, Reached, Ready, KeepsOp;
    t := StartsAgain(e, s, sent);
    SameRowsEvolve(e, q.sys, sent.sys, t.sys);
  }

  lemma SameRowsEvolve(e: Epoch, u: System, v: System, t: System)
    requires Evolves(e, u, v) && t.file.rows == v.file.rows && t.server.eras == v.server.eras &&
               t.server.stored == v.server.stored
    ensures Evolves(e, u, t)
  {
    forall k | 0 <= k < |u.file.rows|
      ensures KeepsOp(e, u.file.rows[k], t.file.rows[k]) && StaysAsPossible(e, u, t, k)
    {
      assert StaysAsPossible(e, u, v, k);
    }
  }

  /** The refused op may have been served: it is given back, and what follows it as far as that goes. */
  lemma GivenBackFirst(e: Epoch, s: Process, p: Process, q: Process) returns (t: Process)
    requires Reached(e, s, q) && Refused(e, p, q) && Possibly(p.sys, p.sys.phase.mem.acked)
    requires e.stale(p.sys.file.rows[p.sys.phase.mem.acked].statement)
    ensures Reached(e, s, t) && Ready(t) && Evolves(e, q.sys, t.sys)
    ensures p.sys.phase.mem.acked < t.sys.phase.mem.acked <= |t.sys.server.stored|
  {
    var k := p.sys.phase.mem.acked;
    var n := MayBeGivenBack(e, p, q);
    hide Refused, Gate, Reached, Evolves, HealedRows, Sound;
    t := HealsAndStarts(e, s, q, n);
    HealedEvolves(e, q.sys, t.sys, k + n);
  }

  /** The range to give back begins with the refused op, and the rules let it go out. */
  lemma MayBeGivenBack(e: Epoch, p: Process, q: Process) returns (n: nat)
    requires Refused(e, p, q) && Possibly(p.sys, p.sys.phase.mem.acked)
    requires e.stale(p.sys.file.rows[p.sys.phase.mem.acked].statement)
    ensures n > 0 && Gate(e, q, PrepareHeal(|q.sys.server.stored|, n))
    ensures Sound(q) && |q.sys.server.eras| > 0 && q.sys.phase.Idle? && q.sys.phase.mem.last.Some?
    ensures q.view.Some? && q.view.value.head == |q.sys.server.stored| == q.sys.phase.mem.acked == p.sys.phase.mem.acked
  {
    var m, rows, k := q.sys.phase.mem, q.sys.file.rows, p.sys.phase.mem.acked;
    RefusalSays(e, p, q);
    MaybeIsPossibly(e, p, q, k);
    n := FindsRange(m, rows, k);
    RangeFits(q, k, n);
    assert Awaits(e, m, rows, k, k);
  }

  /** What may have been served and is not acknowledged was sent, so it is in reach of one request. */
  lemma RangeFits(q: Process, from: nat, n: nat)
    requires Sound(q) && q.sys.phase.Idle? && q.sys.phase.mem.acked == from &&
               IsRange(q.sys.phase.mem, q.sys.file.rows, from, n)
    ensures n <= MAX_RECORDS
  {
    var u, k := q.sys, from + n - 1;
    AckedIsAcked(u);
    assert MayHaveBeenServed(u.phase.mem, k) && OpInv(u.server, u.file.rows, u.phase.mem, k);
  }

  // ---------- from one start to the next ----------

  lemma MaySendFirst(e: Epoch, p: Process)
    requires Ready(p) && p.sys.phase.mem.acked < |p.sys.file.rows| && p.sys.phase.mem.acked <= |p.sys.server.stored|
    ensures MaySend(e, p, map[])
  {
  }

  /** One command of a process that just started: it sends what is queued, and does what the answer asks for. */
  lemma OneRound(e: Epoch, s: Process, p: Process) returns (t: Process)
    requires Renews(e) && Reached(e, s, p) && Ready(p) && !Blocked(e, p.sys)
    requires p.sys.phase.mem.acked < |p.sys.file.rows| && p.sys.phase.mem.acked <= |p.sys.server.stored|
    ensures Reached(e, s, t) && Ready(t) && Evolves(e, p.sys, t.sys)
    ensures p.sys.phase.mem.acked < t.sys.phase.mem.acked <= |t.sys.server.stored|
  {
    var u := p.sys;
    MaySendFirst(e, p);
    var q, c := UploadsBatch(e, s, p, map[]);
    BatchEvolves(e, u, map[], c, q.sys);
    if c > 0 {
      t := GoesOnAfter(e, s, p, q, c);
      SameRowsEvolve(e, u, q.sys, t.sys);
    } else {
      FrontIsStale(e, p, q);
      hide Ready, Reached, Evolves, MaySend, CanMark, Uploaded;
      if Possibly(u, u.phase.mem.acked) {
        t := GivenBackFirst(e, s, p, q);
      } else {
        t := Renewed(e, s, p, q);
      }
      EvolvesThrough(e, u, q.sys, t.sys);
    }
  }

  /** Some of the batch was taken: the next process takes it from there. */
  lemma GoesOnAfter(e: Epoch, s: Process, p: Process, q: Process, c: nat) returns (t: Process)
    requires Reached(e, s, q) && Sound(q) && Ready(p) && c > 0 && CanMark(p.sys, map[])
    requires p.sys.phase.mem.acked < |p.sys.file.rows|
    requires Uploaded(e, Marks(p.sys, map[]), p.sys.server, p.sys.phase.mem.acked,
               BatchSize(p.sys.phase.mem, p.sys.file.rows), c, q.sys)
    ensures Reached(e, s, t) && Ready(t) && p.sys.phase.mem.acked < t.sys.phase.mem.acked <= |t.sys.server.stored|
    ensures t.sys.file.rows == q.sys.file.rows && t.sys.server.eras == q.sys.server.eras &&
              t.sys.server.stored == q.sys.server.stored
  {
    var u, n := p.sys, BatchSize(p.sys.phase.mem, p.sys.file.rows);
    assert UploadedAt(Marks(u, map[]), u.phase.mem.acked, n, c, Current(u.server), q.sys, u.phase.mem.acked);
    AckedIsAcked(q.sys);
    hide Ready, Sound, Reached, Uploaded;
    t := StartsAgain(e, s, q);
  }

  lemma FrontIsStale(e: Epoch, p: Process, q: Process)
    requires Ready(p) && Sound(q) && q.view == p.view && MaySend(e, p, map[]) && CanMark(p.sys, map[])
    requires Uploaded(e, Marks(p.sys, map[]), p.sys.server, p.sys.phase.mem.acked,
               BatchSize(p.sys.phase.mem, p.sys.file.rows), 0, q.sys)
    ensures Refused(e, p, q) && e.stale(p.sys.file.rows[p.sys.phase.mem.acked].statement)
  {
    hide FileInv, PhaseInv, Within;
    MarkedFrom(p.sys, map[], p.sys.phase.mem.acked);
  }

  /** Command by command to the end of the chain. */
  lemma {:induction false} RestIsAcknowledged(e: Epoch, s: Process, p: Process) returns (t: Process)
    requires Renews(e) && Reached(e, s, p) && Ready(p) && !Blocked(e, p.sys) &&
               p.sys.phase.mem.acked <= |p.sys.server.stored|
    ensures Reached(e, s, t) && Sound(t) && AllAcknowledged(t.sys) && Evolves(e, p.sys, t.sys)
    decreases |p.sys.file.rows| - p.sys.phase.mem.acked
  {
    if p.sys.phase.mem.acked == |p.sys.file.rows| {
      t := p;
      WholeChain(t.sys);
    } else {
      var next := OneRound(e, s, p);
      NotBlockedLater(e, p.sys, next.sys);
      ReadyIsWithinRows(next);
      assert |next.sys.file.rows| == |p.sys.file.rows|;
      hide Ready, Reached, Evolves, AllAcknowledged, Sound, Blocked;
      t := RestIsAcknowledged(e, s, next);
      EvolvesThrough(e, p.sys, next.sys, t.sys);
    }
  }

  lemma ReadyIsWithinRows(p: Process)
    requires Ready(p)
    ensures p.sys.phase.mem.acked <= |p.sys.file.rows|
  {
  }

  lemma WholeChain(t: System)
    requires Inv(t) && t.phase.Idle? && t.phase.mem.acked == |t.file.rows| <= |t.server.stored|
    ensures AllAcknowledged(t)
  {
    if |t.server.stored| > |t.file.rows| {
      StoredAreTheRows(t.server, t.file.rows, |t.file.rows|);
    }
    forall i | 0 <= i < |t.server.stored|
      ensures t.server.stored[i] == Statements(t.file.rows)[i]
    {
      StoredAreTheRows(t.server, t.file.rows, i);
    }
    forall k | 0 <= k < |t.file.rows|
      ensures t.file.rows[k].own.Acknowledged?
    {
      assert OpInv(t.server, t.file.rows, t.phase.mem, k);
    }
  }

  // ---------- the exact condition ----------

  /** What the server holds keeps its statement, and so does what was acknowledged; only stale ops got a new one. */
  ghost predicate Kept(e: Epoch, s: System, t: System) {
    && t.server.eras == s.server.eras && s.server.stored <= t.server.stored && |t.file.rows| == |s.file.rows|
    && (forall k | 0 <= k < |s.file.rows| :: KeepsOp(e, s.file.rows[k], t.file.rows[k]))
    && forall k | 0 <= k < |s.server.stored| ::
         k < |s.file.rows| && t.file.rows[k].statement == s.file.rows[k].statement
  }

  lemma EvolvedIsKept(e: Epoch, s: System, t: System)
    requires Inv(s) && Inv(t) && Evolves(e, s, t)
    ensures Kept(e, s, t)
  {
    forall k | 0 <= k < |s.server.stored|
      ensures k < |s.file.rows| && t.file.rows[k].statement == s.file.rows[k].statement
    {
      StoredAreTheRows(s.server, s.file.rows, k);
      StoredAreTheRows(t.server, t.file.rows, k);
    }
  }

  lemma SameIsEvolved(e: Epoch, s: System, t: System)
    requires |s.server.eras| > 0 && t.file.rows == s.file.rows && t.server.eras == s.server.eras &&
               t.server.stored == s.server.stored
    ensures Evolves(e, s, t) && (Blocked(e, t) <==> Blocked(e, s)) && (TooLong(t) <==> TooLong(s))
  {
    assert forall j: nat, k: nat :: BlockedAt(e, t, j, k) <==> BlockedAt(e, s, j, k);
    assert forall k: nat | k < |s.file.rows| :: GivenBack(t, k) <==> GivenBack(s, k);
  }

  /** Where nothing blocks, the way is there. */
  lemma Finishes(e: Epoch, s: System) returns (t: Process)
    requires Renews(e) && Inv(s) && Within(s.file.rows) && s.phase.Down? && !Blocked(e, s) && !TooLong(s)
    ensures Reached(e, Process(s, 0, None), t) && AllAcknowledged(t.sys) && Kept(e, s, t.sys)
  {
    var p := Process(s, 0, None);
    ReachedSelf(e, p);
    var started := StartsAgain(e, p, p);
    SameIsEvolved(e, s, started.sys);
    hide Within, FileInv, PhaseInv, Reached, Blocked, TooLong, Evolves;
    var caught := CatchesUp(e, p, started);
    HealedEvolves(e, started.sys, caught.sys, Max(|s.server.stored|, caught.sys.phase.mem.acked));
    NotBlockedLater(e, started.sys, caught.sys);
    t := RestIsAcknowledged(e, p, caught);
    EvolvesThrough(e, started.sys, caught.sys, t.sys);
    EvolvesThrough(e, s, started.sys, t.sys);
    EvolvedIsKept(e, s, t.sys);
  }

  /**
   The upload protocol does not always get there. In every state of every run, a process that starts can get
   all own ops acknowledged, by the steps its code takes, if and only if no stale op that was surely never
   stored stands before a stale one that may have been, both above the server's chain, and the server did not
   lose more than one healing request gives back. Both can be read off the rows and the server's head.
   */
  lemma FinishesUnlessBlocked(e: Epoch, run: seq<System>, i: nat)
    requires Renews(e) && IsRun(run) && i < |run| && run[i].phase.Down?
    ensures |run[i].server.eras| > 0
    ensures CanFinish(e, run[i]) <==> !Blocked(e, run[i]) && !TooLong(run[i])
  {
    RunKeepsInv(run, i);
    RunStaysWithin(run, i);
    if Blocked(e, run[i]) {
      BlockedNeverFinishes(e, run[i]);
    } else if TooLong(run[i]) {
      TooLongNeverFinishes(e, run[i]);
    } else {
      var t := Finishes(e, run[i]);
    }
  }
}
