/**
 What the bodies of a rotation say (crates/rizzy-client/src/rotation.rs), over every run of the
 commit protocol: each body that ever left was computed on a state the server held, with the device
 set, the epoch and the vaults of that moment, and all bodies of one rotation carry the same new key
 and the same changes. A commit of this device therefore takes over the device set it found.
 */
module RotationBodies {
  import opened Base
  import opened CommitProtocol

  /** The body is what a rotation makes of the state and the vaults the server holds in `s`. */
  predicate BuiltOn(s: System, c: Commit) {
    var base := Current(s.history);
    c.state.stateSeq == base.stateSeq + 1 && c.state.epoch == base.epoch + 1 &&
    c.state.deviceSet == base.deviceSet && c.half == Half(c.state.key, s.vaults)
  }

  ghost predicate BuiltBefore(run: Run, i: nat, c: Commit)
    requires i < |run|
  {
    exists j :: 0 <= j < i && BuiltOn(run[j], c)
  }

  /** The bodies a state holds: the pending one, the one being sent, and those that left. */
  ghost predicate Holds(s: System, c: Commit) {
    s.file.pending == Some(c) || (HasFlight(s.phase) && s.phase.f.commit == c) ||
    exists d :: d in s.departures && d.body == c
  }

  predicate HasFlight(phase: Phase) {
    phase.Built? || phase.Persisted? || phase.Sent? || phase.Conflicted? || phase.Refused? || phase.Landed?
  }

  /** Two bodies of one rotation differ only in what they were built on. */
  predicate SameRotation(c: Commit, d: Commit) {
    c.state.key == d.state.key ==>
      c.state == d.state.(stateSeq := c.state.stateSeq, deviceSet := c.state.deviceSet)
  }

  ghost predicate AllBuilt(run: Run, i: nat)
    requires i < |run|
  {
    forall c :: Holds(run[i], c) ==> BuiltBefore(run, i, c)
  }

  ghost predicate OneRotationEach(s: System) {
    (forall c :: Holds(s, c) ==> c.state.key.Mine? && c.state.key.rotation < s.nextRotation) &&
    (forall c, d :: Holds(s, c) && Holds(s, d) ==> SameRotation(c, d))
  }

  // ---------- one step ----------

  /** A step brings in one new body at most, and that one is built on the state before it. */
  ghost predicate BringsIn(s: System, t: System, body: Commit) {
    (forall c :: Holds(t, c) ==> Holds(s, c) || c == body) && (Holds(s, body) || BuiltOn(s, body))
  }

  ghost predicate NoNewBody(s: System, t: System) {
    forall c :: Holds(t, c) ==> Holds(s, c)
  }

  lemma OnlyTheseBringIn(s: System, a: Action, t: System)
    requires Inv(s) && Next(s, a, t) && !a.Begin? && !a.RetryOnView?
    ensures NoNewBody(s, t) && t.nextRotation == s.nextRotation
  {
  }

  lemma RebuildBringsIn(s: System, buildable: bool, t: System)
    requires Inv(s) && Next(s, RetryOnView(buildable), t)
    ensures if t.phase.Built? then BringsIn(s, t, t.phase.f.commit) else NoNewBody(s, t)
  {
  }

  lemma BeginBringsIn(s: System, rest: nat, t: System)
    requires Next(s, Begin(rest), t)
    ensures t.phase.Built? && BringsIn(s, t, t.phase.f.commit)
  {
  }

  lemma StepBringsIn(s: System, a: Action, t: System) returns (c: Commit)
    requires Inv(s) && Next(s, a, t)
    ensures NoNewBody(s, t) || BringsIn(s, t, c)
  {
    hide Inv, Next, BringsIn, NoNewBody;
    c := Commit(Current(s.history), Half(Genesis, 0));
    match a
    case Begin(rest) =>
      BeginBringsIn(s, rest, t);
      c := t.phase.f.commit;
    case RetryOnView(buildable) =>
      RebuildBringsIn(s, buildable, t);
      if t.phase.Built? {
        c := t.phase.f.commit;
      }
    case _ => OnlyTheseBringIn(s, a, t);
  }

  /** A new body of a rotation already known, or of one begun just now. */
  lemma JoinsItsRotation(s: System, t: System, body: Commit, from: Commit)
    requires OneRotationEach(s) && BringsIn(s, t, body) && Holds(s, from)
    requires t.nextRotation == s.nextRotation && body.state.key == from.state.key && SameRotation(body, from)
    ensures OneRotationEach(t)
  {
    hide Holds, BuiltOn;
  }

  lemma BeginsItsRotation(s: System, t: System, body: Commit)
    requires OneRotationEach(s) && BringsIn(s, t, body)
    requires t.nextRotation == s.nextRotation + 1 && body.state.key == Mine(s.nextRotation)
    ensures OneRotationEach(t)
  {
    hide Holds, BuiltOn;
  }

  lemma RebuildJoins(s: System, buildable: bool, t: System)
    requires Inv(s) && OneRotationEach(s) && Next(s, RetryOnView(buildable), t)
    ensures OneRotationEach(t)
  {
    if t.phase.Built? {
      assert Holds(s, s.phase.f.commit);
      JoinsItsRotation(s, t, t.phase.f.commit, s.phase.f.commit);
    } else {
      assert NoNewBody(s, t);
    }
  }

  lemma BeginJoins(s: System, rest: nat, t: System)
    requires OneRotationEach(s) && Next(s, Begin(rest), t)
    ensures OneRotationEach(t)
  {
    hide OneRotationEach;
    BeginsItsRotation(s, t, t.phase.f.commit);
  }

  lemma OthersKeepThem(s: System, t: System)
    requires OneRotationEach(s) && NoNewBody(s, t) && t.nextRotation == s.nextRotation
    ensures OneRotationEach(t)
  {
    hide Holds;
  }

  lemma StepKeepsOneRotation(s: System, a: Action, t: System)
    requires Inv(s) && OneRotationEach(s) && Next(s, a, t)
    ensures OneRotationEach(t)
  {
    hide Inv, OneRotationEach, Next, NoNewBody, BringsIn, Holds, BuiltOn, SameRotation;
    match a
    case Begin(rest) => BeginJoins(s, rest, t);
    case RetryOnView(buildable) => RebuildJoins(s, buildable, t);
    case _ =>
      OnlyTheseBringIn(s, a, t);
      OthersKeepThem(s, t);
  }

  // ---------- every run ----------

  lemma {:induction false} RunFits(run: Run, i: nat)
    requires i < |run|
    ensures AllBuilt(run, i) && OneRotationEach(run[i]) && Inv(run[i])
  {
    RunKeepsInv(run, i);
    if i > 0 {
      RunFits(run, i - 1);
      assert StepAt(run, i);
      var a :| Next(run[i - 1], a, run[i]);
      StepKeepsOneRotation(run[i - 1], a, run[i]);
      var body := StepBringsIn(run[i - 1], a, run[i]);
      forall c | Holds(run[i], c)
        ensures BuiltBefore(run, i, c)
      {
        if Holds(run[i - 1], c) {
          assert BuiltBefore(run, i - 1, c);
        }
      }
    }
  }

  /**
   Every body that ever left the device was computed on one state the server held before: one above
   its `stateSeq` and epoch, with its device set, and with the half of the vaults as they were then.
   */
  lemma EveryBodyIsBuiltOnAHeldState(run: Run, i: nat, d: Departure)
    requires i < |run| && d in run[i].departures
    ensures exists j :: 0 <= j < i && BuiltOn(run[j], d.body)
  {
    RunFits(run, i);
    assert Holds(run[i], d.body);
  }

  /** All bodies of one rotation carry the same new key and the same changes. */
  lemma BodiesOfARotationAgree(run: Run, i: nat, d: Departure, e: Departure)
    requires i < |run| && d in run[i].departures && e in run[i].departures
    requires d.body.state.key == e.body.state.key
    ensures d.body.state.rest == e.body.state.rest
  {
    RunFits(run, i);
    assert Holds(run[i], d.body) && Holds(run[i], e.body);
    assert SameRotation(d.body, e.body);
  }

  // ---------- what the server's states make of it ----------

  lemma {:induction false} HistoryGrows(run: Run, j: nat, i: nat)
    requires j <= i < |run|
    ensures run[j].history <= run[i].history
  {
    if j < i {
      HistoryGrows(run, j, i - 1);
      assert StepAt(run, i);
    }
  }

  /** A body built on an earlier state and taken now was built on the state it is taken over. */
  lemma TakenWhereBuilt(run: Run, j: nat, i: nat, c: Commit)
    requires j <= i < |run| && BuiltOn(run[j], c) && Accepts(Current(run[i].history), c.state)
    ensures Current(run[j].history) == Current(run[i].history)
  {
    var past, now := run[j].history, run[i].history;
    HistoryGrows(run, j, i);
    RunKeepsInv(run, i);
    Ascending(now, |past| - 1, |now| - 1);
  }

  /** One of this device's states against the one before it. */
  predicate TakesOver(h: History, k: nat)
    requires k < |h|
  {
    h[k].author.ThisDevice? ==>
      k > 0 && h[k].state.key.Mine? &&
      h[k].state == h[k - 1].state.(stateSeq := h[k - 1].state.stateSeq + 1, epoch := h[k - 1].state.epoch + 1,
                                    key := h[k].state.key, rest := h[k].state.rest)
  }

  lemma AppliedTakesOver(run: Run, i: nat, c: Commit)
    requires 0 < i < |run| && InFlight(run[i - 1]) == Some(c) && Takes(run[i - 1], c)
    ensures TakesOver(run[i - 1].history + [Entry(c.state, ThisDevice)], |run[i - 1].history|)
  {
    RunFits(run, i - 1);
    assert Holds(run[i - 1], c);
    var j :| 0 <= j < i - 1 && BuiltOn(run[j], c);
    TakenWhereBuilt(run, j, i - 1, c);
  }

  /**
   Every state this device ever committed has the device set of the state before it: nothing of an
   enrolment or a removal made elsewhere is lost, however often the rotation was rebuilt.
   */
  lemma {:induction false} OwnCommitsKeepTheDeviceSet(run: Run, i: nat, k: nat)
    requires i < |run| && k < |run[i].history|
    ensures TakesOver(run[i].history, k)
  {
    if i == 0 {
      assert run[0].history[k] in run[0].history;
    } else {
      assert StepAt(run, i);
      var a :| Next(run[i - 1], a, run[i]);
      if k < |run[i - 1].history| {
        OwnCommitsKeepTheDeviceSet(run, i - 1, k);
      } else if a.ServerApplies? {
        AppliedTakesOver(run, i, InFlight(run[i - 1]).value);
      }
    }
  }

  /** A rebuilt body is one the server takes as long as nobody commits and no vault changes. */
  lemma RebuiltIsTaken(run: Run, i: nat, buildable: bool, t: System)
    requires i < |run| && Next(run[i], RetryOnView(buildable), t) && t.phase.Built?
    ensures Takes(t, t.phase.f.commit) && t.phase.f.base == Current(t.history)
    ensures t.phase.f.rebuilds == run[i].phase.f.rebuilds + 1
  {
    RunKeepsInv(run, i);
  }

  /** The retry rule in a reachable state, read off its outcome. */
  lemma ConflictFacts(s: System, buildable: bool)
    requires Reachable(s) && s.phase.Conflicted?
    ensures
      var f, view := s.phase.f, Current(s.history);
      var verdict := OnStateConflict(f, view, s.vaults, buildable);
      !verdict.GoReadOnly? &&
      (verdict.Committed? <==> view == f.commit.state) &&
      (verdict.Rebuilt? <==>
         view != f.commit.state && f.rebuilds < MAX_REBUILDS && buildable &&
         view == f.base.(stateSeq := view.stateSeq, deviceSet := view.deviceSet)) &&
      (verdict.Rebuilt? ==>
         var c := verdict.flight.commit;
         BuiltOn(s, c) && Takes(s, c) && verdict.flight.base == view && verdict.flight.rebuilds == f.rebuilds + 1 &&
         c.state.key == f.commit.state.key && SameRotation(c, f.commit))
  {
    ReachableMeetsInv(s);
    HonestRetry(s, buildable);
  }
}
