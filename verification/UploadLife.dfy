/**
 The whole life of a device's upload queue: the device moves by the steps its code takes, at whatever
 vault epoch it has adopted by then, while the server is restored, healed by other devices and answers as
 it likes. What the code then never sends is proved for every state of every such life.
 */
module UploadLife {
  import opened Base
  import opened CacheRows
  import opened Uploads
  import opened UploadGate
  import opened UploadProgress

  /** In a `Quiet` world the server is restored, and honest otherwise; in any world it answers as it likes. */
  datatype World = Quiet | Any

  /** What is not the device's doing. */
  predicate Outside(w: World, a: Action) {
    a.Restore? || (w.Any? && (a.OthersHeal? || a.Handle?))
  }

  ghost predicate MovesBy(w: World, e: Epoch, p: Process, a: Action, q: Process) {
    (Outside(w, a) || Gate(e, p, a)) && Next(p.sys, a, q.sys) && q == After(p, a, q.sys)
  }

  ghost predicate Moves(w: World, p: Process, q: Process) {
    exists e, a :: MovesBy(w, e, p, a, q)
  }

  ghost predicate MovesAt(w: World, life: seq<Process>, i: nat)
    requires 0 < i < |life|
  {
    Moves(w, life[i - 1], life[i])
  }

  ghost predicate IsLife(w: World, life: seq<Process>) {
    && |life| > 0 && Init(life[0].sys) && life[0].view.None?
    && forall i: nat :: 0 < i < |life| ==> MovesAt(w, life, i)
  }

  /** The process is at the end of a life that began with a new device. */
  ghost predicate Lived(w: World, p: Process) {
    exists life :: IsLife(w, life) && life[|life| - 1] == p
  }

  lemma Begins(w: World, p: Process)
    requires Init(p.sys) && p.view.None?
    ensures Lived(w, p)
  {
    assert IsLife(w, [p]);
  }

  /** One more step of a life. */
  lemma Act(w: World, e: Epoch, p: Process, a: Action, q: Process)
    requires Lived(w, p) && MovesBy(w, e, p, a, q)
    ensures Lived(w, q)
  {
    hide MovesBy;
    assert Moves(w, p, q);
    var life :| IsLife(w, life) && life[|life| - 1] == p;
    var longer := life + [q];
    forall i: nat | 0 < i < |longer|
      ensures MovesAt(w, longer, i)
    {
      if i < |life| {
        assert MovesAt(w, life, i);
      } else {
        assert longer[i - 1] == p && longer[i] == q;
      }
    }
    assert IsLife(w, longer);
  }

  // ---------- what is never sent ----------

  /** Whatever is on its way, the code asked for it: an upload is the whole batch, a healing request the whole range. */
  predicate RequestFits(p: Process) {
    p.sys.phase.Prepared? || p.sys.phase.InFlight? ==>
      var m, rows := p.sys.phase.mem, p.sys.file.rows;
      match p.sys.phase.request
      case Fetch => true
      case Upload(position, records) =>
        p.view.Some? && !p.view.value.behind && m.staleFrom.None? &&
        position == m.acked <= |rows| && |records| == BatchSize(m, rows)
      case Heal(from, records) =>
        p.view.Some? && from == p.view.value.head && IsRange(m, rows, from, |records|) && |records| <= MAX_RECORDS
  }

  /** The head a Fetch showed is one the device holds ops up to. */
  predicate HeadIsHeld(p: Process) {
    (p.view.Some? ==> p.view.value.head <= |p.sys.file.rows|) &&
    (Fetching(p) && p.sys.phase.reply.Some? ==> p.seen <= |p.sys.file.rows|)
  }

  ghost predicate LifeInv(p: Process) {
    Inv(p.sys) && Within(p.sys.file.rows) && (!p.sys.phase.Down? ==> !p.sys.phase.mem.leaving) &&
    RequestFits(p) && HeadIsHeld(p)
  }

  lemma MovesKeepRows(p: Process, a: Action, q: Process)
    requires LifeInv(p) && Next(p.sys, a, q.sys) && !a.PrepareLast?
    ensures |p.sys.file.rows| <= |q.sys.file.rows|
    ensures !q.sys.phase.Down? ==> !q.sys.phase.mem.leaving
  {
    if a.Answer? {
      AnswersKeepLength(p.sys, q.sys);
      AnswerKeepsStaying(p.sys, q.sys);
    }
  }

  lemma AnswerKeepsStaying(s: System, t: System)
    requires Inv(s) && Next(s, Answer, t)
    ensures t.phase.mem.leaving == s.phase.mem.leaving
  {
    var request, reply, m := s.phase.request, s.phase.reply.value, s.phase.mem;
    match (request, reply)
    case (Upload(position, _), Uploaded(g, results)) =>
      AnswersEach(Device(s.file.rows, m.(last := Some(g))), position, results, g, 0);
    case (Heal(position, records), Healed(g)) =>
      HealsEach(Device(s.file.rows, m.(last := Some(g))), position + |records|, 0);
    case _ =>
  }

  lemma MovesKeepHead(w: World, e: Epoch, p: Process, a: Action, q: Process)
    requires LifeInv(p) && MovesBy(w, e, p, a, q)
    ensures HeadIsHeld(q)
  {
    MovesKeepRows(p, a, q);
    if a.Handle? && Fetching(p) {
      StoredIsHeld(p.sys);
    }
  }

  lemma StoredIsHeld(s: System)
    requires Inv(s)
    ensures |s.server.stored| <= |s.file.rows|
  {
    if s.server.stored != [] {
      assert Acceptance(|s.server.stored| - 1, s.server.stored[|s.server.stored| - 1]) in s.server.accepted;
    }
  }

  lemma MovesKeepRequests(w: World, e: Epoch, p: Process, a: Action, q: Process)
    requires LifeInv(p) && MovesBy(w, e, p, a, q)
    ensures RequestFits(q)
  {
    if a.PrepareUpload? {
      assert |q.sys.phase.request.records| == a.n;
    }
  }

  lemma MovesKeepLifeInv(w: World, e: Epoch, p: Process, a: Action, q: Process)
    requires LifeInv(p) && MovesBy(w, e, p, a, q)
    ensures LifeInv(q)
  {
    StepKeepsInv(p.sys, a, q.sys);
    StepStaysWithin(p.sys, a, q.sys);
    MovesKeepRows(p, a, q);
    MovesKeepHead(w, e, p, a, q);
    MovesKeepRequests(w, e, p, a, q);
  }

  lemma {:induction false} LifeKeepsInv(w: World, life: seq<Process>, i: nat)
    requires IsLife(w, life) && i < |life|
    ensures LifeInv(life[i]) && Reachable(life[i].sys)
  {
    if i == 0 {
      InitIsReachable(life[0].sys);
      ReachableMeetsInv(life[0].sys);
    } else {
      LifeKeepsInv(w, life, i - 1);
      assert MovesAt(w, life, i);
      var e, a :| MovesBy(w, e, life[i - 1], a, life[i]);
      MovesKeepLifeInv(w, e, life[i - 1], a, life[i]);
      Advance(life[i - 1].sys, a, life[i].sys);
    }
  }

  /** A life is a run of the protocol, so what is proved of runs holds in it, with what the code adds. */
  lemma LivedFacts(w: World, p: Process)
    requires Lived(w, p)
    ensures Reachable(p.sys) && LifeInv(p)
  {
    var life :| IsLife(w, life) && life[|life| - 1] == p;
    LifeKeepsInv(w, life, |life| - 1);
  }

  /**
   No healing request of any life leaves a gap or goes too far: it starts at the head the last Fetch
   showed, and ends only before an op that was surely never stored, or with the last op.
   */
  lemma HealsWholeRanges(w: World, p: Process)
    requires Lived(w, p) && (p.sys.phase.Prepared? || p.sys.phase.InFlight?) && p.sys.phase.request.Heal?
    ensures
      var m, from, n := p.sys.phase.mem, p.sys.phase.request.position, |p.sys.phase.request.records|;
      0 < n <= MAX_RECORDS && p.view.Some? && from == p.view.value.head && from + n <= |p.sys.file.rows| &&
      (forall k :: from <= k < from + n ==> MayHaveBeenServed(m, k)) &&
      (from + n < |p.sys.file.rows| ==> !MayHaveBeenServed(m, from + n))
  {
    LivedFacts(w, p);
  }

  /**
   No upload of any life leaves a process that has not fetched, or that saw the server behind; it starts at
   the first op not acknowledged, and holds all that are left or as many as a request may.
   */
  lemma UploadsWholeBatches(w: World, p: Process)
    requires Lived(w, p) && (p.sys.phase.Prepared? || p.sys.phase.InFlight?) && p.sys.phase.request.Upload?
    ensures
      var m, position, n := p.sys.phase.mem, p.sys.phase.request.position, |p.sys.phase.request.records|;
      p.view.Some? && !p.view.value.behind && position == m.acked &&
      (position + n == |p.sys.file.rows| || (position + n < |p.sys.file.rows| && n == MAX_RECORDS))
  {
    LivedFacts(w, p);
  }
}
