/**
 The commit protocol of an enrolled device: a key rotation is persisted, sent, and settled across
 crashes, lost answers, refusals and the commits of other devices (crates/rizzy-cli/src/device.rs).

 One `System` holds the server's committed states, the device file and the phase the process is in.
 `Next` gives its atomic steps; everything is proved for every run of those steps. Keys are ideal:
 a rotation draws a key nobody else has. One assumption about the transport: a request is applied
 only between its send and its outcome. A refusal is trusted less than the client trusts it: a
 refused commit may have been applied, as long as no other device commits before the re-read.
 */
module CommitProtocol {
  import opened Base
  import opened CommitErrors

  /** The account key: the one of signup, one this device drew, or one another device drew. */
  datatype Key = Genesis | Mine(rotation: nat) | Elsewhere(n: nat)

  /**
   A signed account state. `rest` stands for every field a commit of another device may change
   besides the device set and the account key. Equal states are equal signed bytes.
   */
  datatype AccountState = AccountState(stateSeq: nat, epoch: nat, key: Key, deviceSet: nat, rest: nat)

  /** A vault half: the account key it is sealed under, and what of the vaults it was computed on. */
  datatype Half = Half(key: Key, vaults: nat)

  /** The body of one commit request: the signed state, and the vault half it carries. */
  datatype Commit = Commit(state: AccountState, half: Half)

  // ---------- the server ----------

  datatype Author = ThisDevice | OtherDevice

  datatype Entry = Entry(state: AccountState, author: Author)

  /** Every state the server committed, oldest first. */
  type History = h: seq<Entry> | |h| > 0 witness [Entry(AccountState(1, 0, Genesis, 0, 0), OtherDevice)]

  function Current(h: History): AccountState {
    h[|h| - 1].state
  }

  /** The compare-and-swap on `seq`, and the account-key step the server classifies. */
  predicate Accepts(held: AccountState, next: AccountState) {
    next.stateSeq == held.stateSeq + 1 &&
    if next.epoch == held.epoch then next.key == held.key
    else next.epoch == held.epoch + 1 && next.key != held.key
  }

  predicate RotatesAt(h: History, i: nat) {
    0 < i < |h| && h[i].state.epoch != h[i - 1].state.epoch
  }

  predicate LinkAt(h: History, i: int)
    requires 0 < i < |h|
  {
    Accepts(h[i - 1].state, h[i].state)
  }

  ghost predicate Chained(h: History) {
    forall i :: 0 < i < |h| ==> LinkAt(h, i)
  }

  /** The server committed `state`, sent by this device. */
  predicate Applied(h: History, state: AccountState) {
    exists i :: 0 <= i < |h| && h[i] == Entry(state, ThisDevice)
  }

  /** The epochs at which the server holds a key grant for this device: a rotator grants itself none. */
  function Grants(h: History): set<nat> {
    set i: nat | i < |h| && RotatesAt(h, i) && h[i].author.OtherDevice? :: h[i].state.epoch
  }

  /** The grants lead from the key at `epoch` to the current one. */
  predicate GrantsFrom(h: History, epoch: nat) {
    forall e :: epoch < e <= Current(h).epoch ==> e in Grants(h)
  }

  // ---------- the device ----------

  /** The device file: the pinned state, whose key the record wraps, and the pending commit. */
  datatype File = File(pin: AccountState, pending: Option<Commit>)

  /** A rotation in memory: what it was built on, the body to send, and how often it was rebuilt. */
  datatype Flight = Flight(base: AccountState, commit: Commit, rebuilds: nat)

  const MAX_REBUILDS := 5

  /** The loser's comparison of the state it built on with the one the server holds. */
  datatype CasRetry = Rollback | Fork | Reapply | Restart

  function Retry(base: AccountState, current: AccountState): CasRetry {
    if current.stateSeq < base.stateSeq then Rollback
    else if current.stateSeq == base.stateSeq then if current == base then Reapply else Fork
    else if current.(stateSeq := base.stateSeq, deviceSet := base.deviceSet) == base then Reapply
    else Restart
  }

  /** What the retry rule decides after a `state_conflict`. */
  datatype Verdict = Rebuilt(flight: Flight) | Committed | GoReadOnly | GiveUp

  /**
   The retry rule, on the served state and the vaults as they are then. `buildable` is false when the
   rebuild itself fails.
   */
  function OnStateConflict(f: Flight, view: AccountState, vaults: nat, buildable: bool): Verdict {
    if view == f.commit.state then Committed
    else
      match Retry(f.base, view)
      case Rollback | Fork => GoReadOnly
      case Restart => GiveUp
      case Reapply =>
        if f.rebuilds >= MAX_REBUILDS || !buildable then GiveUp
        else if view.stateSeq == f.base.stateSeq then
          Rebuilt(f.(commit := f.commit.(half := Half(f.commit.state.key, vaults)), rebuilds := f.rebuilds + 1))
        else
          var state := f.commit.state.(stateSeq := view.stateSeq + 1, deviceSet := view.deviceSet);
          Rebuilt(Flight(view, Commit(state, Half(state.key, vaults)), f.rebuilds + 1))
  }

  /**
   Whether the served state is built on the pending commit: it is the commit's state, or its key
   verifies it, or the epoch is past the pending one and no grant of that epoch is there. An answer
   below or beside the pinned state verifies under no key.
   */
  predicate PendingApplied(file: File, view: AccountState, grants: set<nat>)
    requires file.pending.Some?
  {
    var pending := file.pending.value.state;
    view == pending ||
    (!(view.stateSeq < file.pin.stateSeq || (view.stateSeq == file.pin.stateSeq && view != file.pin)) &&
     if view.epoch > pending.epoch then pending.epoch !in grants
     else view.epoch == pending.epoch && view.key == pending.key)
  }

  /** Where the process is. A crash, or an error that ends the command, leads to `Down`. */
  datatype Phase =
    | Down                   // no process
    | Idle                   // settled or started; nothing in flight
    | Built(f: Flight)       // begun or rebuilt, not yet on disk
    | Persisted(f: Flight)   // on disk, not yet sent
    | Sent(f: Flight)
    | Conflicted(f: Flight)  // answered `state_conflict`
    | Refused(f: Flight)     // answered another refusal
    | Landed(f: Flight)      // acknowledged, not yet finalised
    | Doomed                 // the pending record is about to be dropped
    | Found                  // a pending record found at start
    | Unapplied              // found not applied; about to be resent
    | Resent
    | Reread                 // the resend was refused; the state is read once more
    | Settled                // found applied, not yet finalised

  /** A body that left the device, with the file as it was then. */
  datatype Departure = Departure(body: Commit, file: File)

  /** `vaults` is what the account's vaults hold, as far as a vault half depends on it. */
  datatype System = System(history: History, vaults: nat, file: File, phase: Phase, nextRotation: nat,
                           departures: seq<Departure>)

  // ---------- the steps ----------

  datatype Answer = Done | Failed(e: CliError)

  datatype Action =
    | Crash
    | OtherCommits(state: AccountState)
    | ServerApplies
    | Open
    | VaultsChange(vaults: nat)
    | Begin(rest: nat)
    | Persist
    | Send
    | Answered(answer: Answer)
    | ReadFails
    | RetryOnView(buildable: bool)
    | ConfirmRefusal
    | Abandon
    | Finish
    | SettleRead
    | Resend
    | LoginRefused
    | Promote
    | Refresh

  /** The body in flight. */
  function InFlight(s: System): Option<Commit> {
    match s.phase
    case Sent(f) => Some(f.commit)
    case Resent => s.file.pending
    case _ => None
  }

  /** The server takes a body that is next to its state, with the half of the vaults as they are. */
  predicate Takes(s: System, c: Commit) {
    Accepts(Current(s.history), c.state) && c.half == Half(c.state.key, s.vaults)
  }

  /** A refused body is in fact the server's current state, and the device has not re-read it yet. */
  predicate RefusedYetHeld(s: System) {
    (s.phase.Conflicted? || s.phase.Refused?) && Current(s.history) == s.phase.f.commit.state
  }

  predicate RefusedBy(answer: Answer) {
    answer.Failed? && RefusesCommit(answer.e)
  }

  /** The phase an answer to the body of a rotation leads to. */
  function AfterAnswer(f: Flight, answer: Answer): Phase {
    match answer
    case Done => Landed(f)
    case Failed(e) =>
      if e == Server(StateConflict) then Conflicted(f)
      else if RestartsRegistration(e) then Idle  // a rotation has no registration to restart
      else if RefusesCommit(e) then Refused(f)
      else Idle
  }

  /** The phase an answer to a resent body leads to. */
  function AfterResend(answer: Answer): Phase {
    match answer
    case Done => Settled
    case Failed(e) => if RefusesCommit(e) then Reread else Down
  }

  ghost predicate Next(s: System, a: Action, t: System) {
    match a
    case Crash => t == s.(phase := Down)

    case OtherCommits(state) =>
      Accepts(Current(s.history), state) &&
      (state.epoch != Current(s.history).epoch ==> !state.key.Mine?) &&
      !RefusedYetHeld(s) &&
      t == s.(history := s.history + [Entry(state, OtherDevice)])

    case ServerApplies =>
      InFlight(s).Some? && Takes(s, InFlight(s).value) &&
      t == s.(history := s.history + [Entry(InFlight(s).value.state, ThisDevice)])

    case Open =>
      s.phase.Down? && t == s.(phase := if s.file.pending.Some? then Found else Idle)

    case VaultsChange(vaults) => t == s.(vaults := vaults)

    case Begin(rest) =>
      s.phase.Idle? &&
      // `check_reauth`: the re-authentication's account still has the device's key.
      var base := Current(s.history);
      base.key == s.file.pin.key && base.epoch == s.file.pin.epoch &&
      var state := AccountState(base.stateSeq + 1, base.epoch + 1, Mine(s.nextRotation), base.deviceSet, rest);
      t == s.(phase := Built(Flight(base, Commit(state, Half(state.key, s.vaults)), 0)),
          nextRotation := s.nextRotation + 1)

    case Persist =>
      s.phase.Built? &&
      t == s.(phase := Persisted(s.phase.f), file := s.file.(pending := Some(s.phase.f.commit)))

    case Send =>
      s.phase.Persisted? &&
      t == s.(phase := Sent(s.phase.f), departures := s.departures + [Departure(s.phase.f.commit, s.file)])

    case Answered(answer) =>
      (s.phase.Sent? || s.phase.Resent?) &&
      var body := InFlight(s);
      body.Some? &&
      (answer.Done? ==> Applied(s.history, body.value.state)) &&
      (s.phase.Sent? && RefusedBy(answer) && Applied(s.history, body.value.state) ==>
         Current(s.history) == body.value.state) &&
      t == s.(phase := if s.phase.Sent? then AfterAnswer(s.phase.f, answer) else AfterResend(answer))

    case ReadFails =>
      if s.phase.Conflicted? || s.phase.Refused? || s.phase.Landed? then t == s.(phase := Idle)
      else (s.phase.Found? || s.phase.Unapplied? || s.phase.Reread? || s.phase.Settled?) &&
           t == s.(phase := Down)

    case RetryOnView(buildable) =>
      s.phase.Conflicted? &&
      t == s.(phase :=
        match OnStateConflict(s.phase.f, Current(s.history), s.vaults, buildable)
        case Rebuilt(f) => Built(f)
        case Committed => Landed(s.phase.f)
        case GoReadOnly => Idle
        case GiveUp => Doomed)

    case ConfirmRefusal =>
      s.phase.Refused? && s.file.pending.Some? &&
      t == s.(phase :=
        if Current(s.history) == s.file.pending.value.state then Landed(s.phase.f) else Doomed)

    case Abandon =>
      s.phase.Doomed? && t == s.(phase := Idle, file := s.file.(pending := None))

    case Finish =>
      s.phase.Landed? && t == s.(phase := Idle, file := File(s.phase.f.commit.state, None))

    case SettleRead =>
      (s.phase.Found? || s.phase.Reread?) && s.file.pending.Some? &&
      t == s.(phase :=
        if PendingApplied(s.file, Current(s.history), Grants(s.history)) then Settled
        else if s.phase.Found? then Unapplied
        else Doomed)

    case Resend =>
      s.phase.Unapplied? && s.file.pending.Some? &&
      t == s.(phase := Resent, departures := s.departures + [Departure(s.file.pending.value, s.file)])

    case LoginRefused => s.phase.Unapplied? && t == s.(phase := Doomed)

    case Promote =>
      s.phase.Settled? && s.file.pending.Some? &&
      GrantsFrom(s.history, s.file.pending.value.state.epoch) &&
      t == s.(phase := Idle, file := File(Current(s.history), None))

    case Refresh =>
      s.phase.Idle? && s.file.pending.None? && GrantsFrom(s.history, s.file.pin.epoch) &&
      t == s.(file := File(Current(s.history), None))
  }

  ghost predicate Step(s: System, t: System) {
    exists a :: Next(s, a, t)
  }

  /** A device enrolled in an account: nothing pending, the pin at a committed state. */
  ghost predicate Init(s: System) {
    Chained(s.history) &&
    (forall e :: e in s.history ==> e.author.OtherDevice? && !e.state.key.Mine?) &&
    s.file == File(Current(s.history), None) &&
    s.phase.Down? && s.nextRotation == 0 && s.departures == []
  }

  ghost predicate StepAt(run: seq<System>, i: nat)
    requires 0 < i < |run|
  {
    Step(run[i - 1], run[i])
  }

  type Run = r: seq<System> | |r| > 0 && Init(r[0]) && (forall i: nat :: 0 < i < |r| ==> StepAt(r, i))
    ghost witness [System([Entry(AccountState(1, 0, Genesis, 0, 0), OtherDevice)], 0,
                          File(AccountState(1, 0, Genesis, 0, 0), None), Down, 0, [])]

  // ---------- what holds in every reachable state ----------

  /** The account key the server holds can be reached from the file alone. */
  ghost predicate Recoverable(s: System) {
    GrantsFrom(s.history, s.file.pin.epoch) ||
    (s.file.pending.Some? && Applied(s.history, s.file.pending.value.state) &&
     GrantsFrom(s.history, s.file.pending.value.state.epoch))
  }

  /** Every rotation of this device the server applied is finalised in the file, or pending in it. */
  ghost predicate KeysKept(s: System) {
    forall i | 0 <= i < |s.history| && s.history[i].author.ThisDevice? ::
      s.history[i].state.epoch <= s.file.pin.epoch ||
      (s.file.pending.Some? && s.file.pending.value.state == s.history[i].state)
  }

  /** No two committed states come from one rotation of this device. */
  ghost predicate OneBodyPerRotation(h: History) {
    forall i, j | 0 <= i < |h| && 0 <= j < |h| && h[i].author.ThisDevice? && h[j].author.ThisDevice? ::
      h[i].state.key == h[j].state.key ==> i == j
  }

  /** Every body that ever left was on disk as the pending commit when it left. */
  ghost predicate DepartedFromDisk(s: System) {
    forall d :: d in s.departures ==> d.file.pending == Some(d.body)
  }

  // ---------- the invariant ----------

  /** No rotation of this device above the pinned epoch was applied. */
  ghost predicate NothingAhead(s: System) {
    forall i | 0 <= i < |s.history| && s.history[i].author.ThisDevice? ::
      s.history[i].state.epoch <= s.file.pin.epoch
  }

  /** Entries of this device rotate to a key it drew; no other entry introduces such a key. */
  ghost predicate AuthorInv(h: History, i: int, nextRotation: nat)
    requires 0 <= i < |h|
  {
    (h[i].author.ThisDevice? ==> RotatesAt(h, i) && h[i].state.key.Mine?) &&
    (h[i].state.key.Mine? ==> h[i].state.key.rotation < nextRotation) &&
    (h[i].author.OtherDevice? && h[i].state.key.Mine? ==> i > 0 && !RotatesAt(h, i))
  }

  ghost predicate AuthorsInv(h: History, nextRotation: nat) {
    forall i :: 0 <= i < |h| ==> AuthorInv(h, i, nextRotation)
  }

  ghost predicate Unused(h: History, key: Key) {
    forall i :: 0 <= i < |h| ==> h[i].state.key != key
  }

  ghost predicate CommitInv(s: System, c: Commit) {
    c.state.key.Mine? && c.state.key.rotation < s.nextRotation &&
    (forall i | 0 <= i < |s.history| && s.history[i].author.ThisDevice? ::
       s.history[i].state.key == c.state.key ==> s.history[i].state == c.state) &&
    (Unused(s.history, c.state.key) || Applied(s.history, c.state))
  }

  ghost predicate FileInv(s: System) {
    (exists i :: 0 <= i < |s.history| && s.history[i].state == s.file.pin) &&
    KeysKept(s) &&
    (s.file.pending.Some? ==> CommitInv(s, s.file.pending.value) && s.file.pending.value.state.stateSeq > 0)
  }

  ghost predicate FlightInv(s: System, f: Flight) {
    CommitInv(s, f.commit) &&
    f.commit.state.stateSeq == f.base.stateSeq + 1 && f.commit.state.epoch == f.base.epoch + 1 &&
    f.commit.state.deviceSet == f.base.deviceSet && f.base.epoch == s.file.pin.epoch && f.base.key == s.file.pin.key &&
    (exists i :: 0 <= i < |s.history| && s.history[i].state == f.base)
  }

  ghost predicate PhaseInv(s: System) {
    match s.phase
    case Down | Idle => true
    case Built(f) => FlightInv(s, f) && NothingAhead(s) && Unused(s.history, f.commit.state.key)
    case Persisted(f) => FlightInv(s, f) && NothingAhead(s) && s.file.pending == Some(f.commit)
    case Sent(f) => FlightInv(s, f) && s.file.pending == Some(f.commit)
    case Conflicted(f) =>
      FlightInv(s, f) && s.file.pending == Some(f.commit) &&
      (NothingAhead(s) || Current(s.history) == f.commit.state)
    case Refused(f) =>
      FlightInv(s, f) && s.file.pending == Some(f.commit) &&
      (NothingAhead(s) || Current(s.history) == f.commit.state)
    case Landed(f) => FlightInv(s, f) && s.file.pending == Some(f.commit) && Applied(s.history, f.commit.state)
    case Doomed => NothingAhead(s)
    case Found => s.file.pending.Some?
    case Unapplied => s.file.pending.Some? && NothingAhead(s)
    case Resent => s.file.pending.Some?
    case Reread => s.file.pending.Some?
    case Settled => s.file.pending.Some? && Applied(s.history, s.file.pending.value.state)
  }

  /** A pending commit rotates exactly one epoch past the pinned key. */
  ghost predicate PendingIsNext(file: File) {
    file.pending.Some? ==> file.pending.value.state.epoch == file.pin.epoch + 1
  }

  ghost predicate Inv(s: System) {
    Chained(s.history) && AuthorsInv(s.history, s.nextRotation) && OneBodyPerRotation(s.history) &&
    FileInv(s) && PendingIsNext(s.file) && PhaseInv(s) && DepartedFromDisk(s)
  }

  // ---------- histories ----------

  lemma {:induction false} Ascending(h: History, i: nat, j: nat)
    requires Chained(h) && i <= j < |h|
    ensures h[j].state.stateSeq == h[i].state.stateSeq + (j - i)
    ensures h[i].state.epoch <= h[j].state.epoch
    ensures h[i].state.epoch == h[j].state.epoch ==> h[i].state.key == h[j].state.key
    decreases j - i
  {
    if i < j {
      Ascending(h, i, j - 1);
      assert LinkAt(h, j);
    }
  }

  /** The entry that introduced epoch `e`. */
  lemma {:induction false} Introduced(h: History, i: nat, j: nat, e: nat) returns (k: nat)
    requires Chained(h) && i <= j < |h| && h[i].state.epoch < e <= h[j].state.epoch
    ensures i < k <= j && RotatesAt(h, k) && h[k].state.epoch == e
    decreases j - i
  {
    assert i < j;
    assert LinkAt(h, j);
    if h[j - 1].state.epoch < e {
      k := j;
    } else {
      k := Introduced(h, i, j - 1, e);
    }
  }

  lemma CurrentIsAhead(h: History, state: AccountState)
    requires Chained(h) && Accepts(Current(h), state)
    ensures Chained(h + [Entry(state, OtherDevice)]) && Chained(h + [Entry(state, ThisDevice)])
    ensures forall i :: 0 <= i < |h| ==> h[i].state.stateSeq < state.stateSeq && h[i].state.epoch <= state.epoch
  {
    forall i | 0 <= i < |h|
      ensures h[i].state.stateSeq < state.stateSeq && h[i].state.epoch <= state.epoch
    {
      Ascending(h, i, |h| - 1);
    }
    forall author, i | 0 < i <= |h|
      ensures LinkAt(h + [Entry(state, author)], i)
    {
      if i < |h| {
        assert LinkAt(h, i);
      }
    }
  }

  // ---------- every step keeps the invariant ----------

  lemma OtherCommitsKeepsInv(s: System, t: System, state: AccountState)
    requires Inv(s) && Next(s, OtherCommits(state), t)
    ensures Inv(t)
  {
    CurrentIsAhead(s.history, state);
    OtherKeepsHistory(s, t, state);
    OtherKeepsFile(s, t, state);
    OtherKeepsPhase(s, t, state);
  }

  lemma OtherKeepsHistory(s: System, t: System, state: AccountState)
    requires Inv(s) && Next(s, OtherCommits(state), t)
    ensures Chained(t.history) && AuthorsInv(t.history, t.nextRotation) && OneBodyPerRotation(t.history)
    ensures NothingAhead(s) ==> NothingAhead(t)
  {
    var h, h' := s.history, t.history;
    CurrentIsAhead(h, state);
    forall i | 0 <= i < |h'|
      ensures AuthorInv(h', i, t.nextRotation)
    {
      assert AuthorInv(h, if i < |h| then i else i - 1, s.nextRotation);
    }
  }

  lemma OtherKeepsFile(s: System, t: System, state: AccountState)
    requires Inv(s) && Next(s, OtherCommits(state), t)
    ensures FileInv(t)
  {
    var i :| 0 <= i < |s.history| && s.history[i].state == s.file.pin;
    assert t.history[i].state == t.file.pin;
    if s.file.pending.Some? {
      OtherKeepsCommitInv(s, t, s.file.pending.value, state);
    }
  }

  lemma OtherKeepsPhase(s: System, t: System, state: AccountState)
    requires Inv(s) && Next(s, OtherCommits(state), t)
    ensures PhaseInv(t)
  {
    OtherKeepsHistory(s, t, state);
    KeepsApplied(s.history, t.history);
    if s.phase.Built? || s.phase.Persisted? || s.phase.Sent? || s.phase.Conflicted? || s.phase.Refused? ||
        s.phase.Landed? {
      var f := s.phase.f;
      OtherKeepsCommitInv(s, t, f.commit, state);
      var i :| 0 <= i < |s.history| && s.history[i].state == f.base;
      assert t.history[i].state == f.base;
    }
  }

  /** No other device commits the very state this device was refused. */
  lemma OtherIsNotTheRefused(s: System, t: System, state: AccountState)
    requires Inv(s) && Next(s, OtherCommits(state), t)
    ensures !RefusedYetHeld(t)
  {
    if s.phase.Conflicted? || s.phase.Refused? {
      var c := s.phase.f.commit;
      NothingAheadMeansUnused(s, c);
      OtherKeepsCommitInv(s, t, c, state);
      assert t.history[|t.history| - 1].state == Current(t.history);
    }
  }

  lemma KeepsApplied(h: History, h': History)
    requires h <= h'
    ensures forall st :: Applied(h, st) ==> Applied(h', st)
  {
    forall st | Applied(h, st)
      ensures Applied(h', st)
    {
      var i :| 0 <= i < |h| && h[i] == Entry(st, ThisDevice);
      assert h'[i] == Entry(st, ThisDevice);
    }
  }

  /** Another device's commit never introduces a key of this device. */
  lemma OtherKeepsCommitInv(s: System, t: System, c: Commit, state: AccountState)
    requires Inv(s) && Next(s, OtherCommits(state), t) && CommitInv(s, c)
    ensures CommitInv(t, c)
    ensures Unused(s.history, c.state.key) ==> Unused(t.history, c.state.key)
  {
    var h := s.history;
    KeepsApplied(h, t.history);
    if Unused(h, c.state.key) {
      assert Current(h).key != c.state.key;
      assert state.key != c.state.key;
    }
  }

  /** What the server applies is the pending commit, and no body of its rotation was applied before. */
  lemma ServerAppliesKeepsInv(s: System, t: System)
    requires Inv(s) && Next(s, ServerApplies, t)
    ensures Inv(t)
  {
    var c := s.file.pending.value;
    assert InFlight(s) == Some(c);
    CurrentIsAhead(s.history, c.state);
    NotAppliedBefore(s, c);
    AppliesKeepsHistory(s, t, c);
    AppliesKeepsFile(s, t, c);
    if s.phase.Sent? {
      var f := s.phase.f;
      var i :| 0 <= i < |s.history| && s.history[i].state == f.base;
      assert t.history[i].state == f.base;
    }
  }

  lemma NotAppliedBefore(s: System, c: Commit)
    requires Inv(s) && CommitInv(s, c) && Accepts(Current(s.history), c.state)
    ensures Unused(s.history, c.state.key)
  {
    CurrentIsAhead(s.history, c.state);
  }

  lemma AppliesKeepsHistory(s: System, t: System, c: Commit)
    requires Inv(s) && Next(s, ServerApplies, t) && InFlight(s) == Some(c)
    requires CommitInv(s, c) && Unused(s.history, c.state.key)
    ensures Chained(t.history) && AuthorsInv(t.history, t.nextRotation) && OneBodyPerRotation(t.history)
  {
    var h, h' := s.history, t.history;
    CurrentIsAhead(h, c.state);
    forall i | 0 <= i < |h'|
      ensures AuthorInv(h', i, t.nextRotation)
    {
      assert AuthorInv(h, if i < |h| then i else i - 1, s.nextRotation);
    }
  }

  lemma AppliesKeepsFile(s: System, t: System, c: Commit)
    requires Inv(s) && Next(s, ServerApplies, t) && s.file.pending == Some(c)
    requires Unused(s.history, c.state.key)
    ensures FileInv(t) && CommitInv(t, c) && Applied(t.history, c.state)
  {
    var i :| 0 <= i < |s.history| && s.history[i].state == s.file.pin;
    assert t.history[i].state == t.file.pin;
    assert t.history[|s.history|] == Entry(c.state, ThisDevice);
  }

  /** An answer is read as the protocol assumes: a refusal of an applied body finds it still current. */
  lemma AnsweredKeepsInv(s: System, t: System, answer: Answer)
    requires Inv(s) && Next(s, Answered(answer), t)
    ensures Inv(t)
  {
    if s.phase.Sent? {
      var c := s.phase.f.commit;
      if !Applied(s.history, c.state) {
        forall i | 0 <= i < |s.history| && s.history[i].author.ThisDevice?
          ensures s.history[i].state.epoch <= s.file.pin.epoch
        {
          assert s.history[i] == Entry(s.history[i].state, ThisDevice);
        }
      }
    }
  }

  lemma RetryKeepsInv(s: System, t: System, buildable: bool)
    requires Inv(s) && Next(s, RetryOnView(buildable), t)
    ensures Inv(t)
  {
    var f, view := s.phase.f, Current(s.history);
    if view == f.commit.state {
      AppliedIfCurrent(s, f.commit);
    } else {
      NothingAheadMeansUnused(s, f.commit);
      assert s.history[|s.history| - 1].state == view;
    }
  }

  lemma AppliedIfCurrent(s: System, c: Commit)
    requires Inv(s) && CommitInv(s, c) && Current(s.history) == c.state
    ensures Applied(s.history, c.state)
  {
    assert s.history[|s.history| - 1].state.key == c.state.key;
  }

  lemma NothingAheadMeansUnused(s: System, c: Commit)
    requires CommitInv(s, c) && NothingAhead(s) && c.state.epoch == s.file.pin.epoch + 1
    ensures Unused(s.history, c.state.key)
  {
    assert !Applied(s.history, c.state);
  }

  /** A begun rotation draws a fresh key while the server still holds the device's. */
  lemma BeginKeepsInv(s: System, t: System, rest: nat)
    requires Inv(s) && Next(s, Begin(rest), t)
    ensures Inv(t)
  {
    var h, c := s.history, t.phase.f.commit;
    forall i | 0 <= i < |h|
      ensures AuthorInv(h, i, t.nextRotation) && h[i].state.key != c.state.key
      ensures h[i].state.epoch <= s.file.pin.epoch
    {
      Ascending(h, i, |h| - 1);
      assert AuthorInv(h, i, s.nextRotation);
    }
    assert AuthorsInv(h, t.nextRotation);
    assert NothingAhead(t) && Unused(h, c.state.key) && CommitInv(t, c);
    assert h[|h| - 1].state == t.phase.f.base;
    assert FileInv(t);
  }

  lemma PersistKeepsInv(s: System, t: System)
    requires Inv(s) && Next(s, Persist, t)
    ensures Inv(t)
  {
    var i :| 0 <= i < |s.history| && s.history[i].state == s.file.pin;
    assert t.history[i].state == t.file.pin;
  }

  /** The state adopted as the new pin is at or past every applied rotation of this device. */
  lemma AdoptKeepsInv(s: System, t: System, i: nat)
    requires Inv(s) && i < |s.history| && t == s.(phase := Idle, file := File(s.history[i].state, None))
    requires s.file.pin.epoch <= s.history[i].state.epoch
    requires s.file.pending.Some? && Applied(s.history, s.file.pending.value.state) ==>
               s.file.pending.value.state.epoch <= s.history[i].state.epoch
    ensures Inv(t)
  {
    forall j | 0 <= j < |s.history| && s.history[j].author.ThisDevice?
      ensures s.history[j].state.epoch <= t.file.pin.epoch
    {
      if s.file.pin.epoch < s.history[j].state.epoch {
        assert s.history[j] == Entry(s.file.pending.value.state, ThisDevice);
        assert Applied(s.history, s.file.pending.value.state);
      }
    }
  }

  lemma FinishKeepsInv(s: System, t: System)
    requires Inv(s) && Next(s, Finish, t)
    ensures Inv(t)
  {
    var i :| 0 <= i < |s.history| && s.history[i] == Entry(s.phase.f.commit.state, ThisDevice);
    AdoptKeepsInv(s, t, i);
  }

  lemma FollowKeepsInv(s: System, t: System)
    requires Inv(s) && (Next(s, Promote, t) || Next(s, Refresh, t))
    ensures Inv(t)
  {
    var h := s.history;
    var i :| 0 <= i < |h| && h[i].state == s.file.pin;
    Ascending(h, i, |h| - 1);
    if s.phase.Settled? {
      var k :| 0 <= k < |h| && h[k] == Entry(s.file.pending.value.state, ThisDevice);
      Ascending(h, k, |h| - 1);
    }
    AdoptKeepsInv(s, t, |h| - 1);
  }

  // ---------- the settling rule ----------

  /**
   The settling rule is exact in every reachable state: it says "applied" if and only if the server
   committed the pending body, however many commits, rotations included, came after it.
   */
  lemma PendingAppliedIsExact(s: System)
    requires Inv(s) && s.file.pending.Some?
    ensures PendingApplied(s.file, Current(s.history), Grants(s.history)) <==>
            Applied(s.history, s.file.pending.value.state)
  {
    var h, c := s.history, s.file.pending.value;
    PinIsNotAhead(s);
    if Applied(h, c.state) {
      AppliedIsSeen(s, c);
    } else {
      UnappliedIsSeen(s, c);
    }
  }

  /** An honest answer is neither a rollback nor a fork of the pin. */
  lemma PinIsNotAhead(s: System)
    requires Inv(s)
    ensures s.file.pin.stateSeq <= Current(s.history).stateSeq
    ensures s.file.pin.stateSeq == Current(s.history).stateSeq ==> s.file.pin == Current(s.history)
    ensures s.file.pin.epoch <= Current(s.history).epoch
  {
    var i :| 0 <= i < |s.history| && s.history[i].state == s.file.pin;
    Ascending(s.history, i, |s.history| - 1);
  }

  lemma EpochHasOneRotation(h: History, i: nat, j: nat)
    requires Chained(h) && RotatesAt(h, i) && RotatesAt(h, j) && h[i].state.epoch == h[j].state.epoch
    ensures i == j
  {
    assert LinkAt(h, i) && LinkAt(h, j);
    Ascending(h, if i < j then i else j - 1, if i < j then j - 1 else j - 1);
    Ascending(h, if j < i then j else i - 1, i - 1);
  }

  lemma AppliedIsSeen(s: System, c: Commit)
    requires Inv(s) && s.file.pending == Some(c) && Applied(s.history, c.state)
    ensures PendingApplied(s.file, Current(s.history), Grants(s.history))
  {
    var h := s.history;
    PinIsNotAhead(s);
    var k :| 0 <= k < |h| && h[k] == Entry(c.state, ThisDevice);
    Ascending(h, k, |h| - 1);
    assert AuthorInv(h, k, s.nextRotation);
    if c.state.epoch in Grants(h) {
      var i: nat :| i < |h| && RotatesAt(h, i) && h[i].author.OtherDevice? && h[i].state.epoch == c.state.epoch;
      EpochHasOneRotation(h, i, k);
      assert false;
    }
  }

  lemma UnappliedIsSeen(s: System, c: Commit)
    requires Inv(s) && s.file.pending == Some(c) && !Applied(s.history, c.state)
    ensures !PendingApplied(s.file, Current(s.history), Grants(s.history))
  {
    var h := s.history;
    assert Unused(h, c.state.key);
    assert h[|h| - 1].state == Current(h);
    if Current(h).epoch > c.state.epoch {
      var i :| 0 <= i < |h| && h[i].state == s.file.pin;
      var k := Introduced(h, i, |h| - 1, c.state.epoch);
      assert !(h[k] == Entry(c.state, ThisDevice));
      assert h[k].state.epoch in Grants(h);
    }
  }

  lemma SettleReadKeepsInv(s: System, t: System)
    requires Inv(s) && Next(s, SettleRead, t)
    ensures Inv(t)
  {
    PendingAppliedIsExact(s);
    if !Applied(s.history, s.file.pending.value.state) {
      forall i | 0 <= i < |s.history| && s.history[i].author.ThisDevice?
        ensures s.history[i].state.epoch <= s.file.pin.epoch
      {
        assert s.history[i] == Entry(s.history[i].state, ThisDevice);
      }
    }
  }

  /** The steps that change the phase only, or drop a pending record found not applied. */
  lemma PhaseStepKeepsInv(s: System, a: Action, t: System)
    requires Inv(s) && Next(s, a, t)
    requires a.Crash? || a.Open? || a.Send? || a.ReadFails? || a.ConfirmRefusal? || a.Abandon? || a.Resend? ||
               a.LoginRefused?
    ensures Inv(t)
  {
    assert FileInv(t) by {
      var i :| 0 <= i < |s.history| && s.history[i].state == s.file.pin;
      assert t.history[i].state == t.file.pin;
    }
    if a.ConfirmRefusal? && Current(s.history) == s.phase.f.commit.state {
      AppliedIfCurrent(s, s.phase.f.commit);
    }
  }

  /** What the vaults hold matters to the halves alone. */
  lemma VaultsChangeKeepsInv(s: System, vaults: nat)
    requires Inv(s)
    ensures Inv(s.(vaults := vaults))
  {
    var t := s.(vaults := vaults);
    assert forall c :: CommitInv(s, c) ==> CommitInv(t, c);
    assert forall f :: FlightInv(s, f) ==> FlightInv(t, f);
  }

  /** Every atomic step, a crash included, keeps the invariant. */
  lemma StepKeepsInv(s: System, t: System)
    requires Inv(s) && Step(s, t)
    ensures Inv(t)
  {
    hide Inv;
    var a :| Next(s, a, t);
    match a
    case OtherCommits(state) => OtherCommitsKeepsInv(s, t, state);
    case ServerApplies => ServerAppliesKeepsInv(s, t);
    case VaultsChange(vaults) => VaultsChangeKeepsInv(s, vaults);
    case Begin(rest) => BeginKeepsInv(s, t, rest);
    case Persist => PersistKeepsInv(s, t);
    case Answered(answer) => AnsweredKeepsInv(s, t, answer);
    case RetryOnView(buildable) => RetryKeepsInv(s, t, buildable);
    case Finish => FinishKeepsInv(s, t);
    case SettleRead => SettleReadKeepsInv(s, t);
    case Promote => FollowKeepsInv(s, t);
    case Refresh => FollowKeepsInv(s, t);
    case _ => PhaseStepKeepsInv(s, a, t);
  }

  lemma {:induction false} RunKeepsInv(run: Run, i: nat)
    requires i < |run|
    ensures Inv(run[i])
  {
    if i == 0 {
      InitMeetsInv(run[0]);
    } else {
      RunKeepsInv(run, i - 1);
      assert StepAt(run, i);
      StepKeepsInv(run[i - 1], run[i]);
    }
  }

  lemma InitMeetsInv(s: System)
    requires Init(s)
    ensures Inv(s)
  {
    var h := s.history;
    forall i | 0 <= i < |h|
      ensures AuthorInv(h, i, 0) && !h[i].state.key.Mine? && h[i].author.OtherDevice?
    {
      assert h[i] in h;
    }
    assert h[|h| - 1].state == s.file.pin;
  }

  // ---------- the main results ----------

  /** What the invariant says about the file: the current account key is within reach. */
  lemma InvIsRecoverable(s: System)
    requires Inv(s)
    ensures Recoverable(s)
  {
    var h := s.history;
    if s.file.pending.Some? && Applied(h, s.file.pending.value.state) {
      GrantsBeyond(s, s.file.pending.value.state.epoch);
    } else {
      GrantsBeyond(s, s.file.pin.epoch);
    }
  }

  lemma EntryIsApplied(h: History, k: int)
    ensures 0 <= k < |h| && h[k].author.ThisDevice? ==> Applied(h, h[k].state)
  {
    assert 0 <= k < |h| && h[k].author.ThisDevice? ==> h[k] == Entry(h[k].state, ThisDevice);
  }

  lemma GrantsBeyond(s: System, from: nat)
    requires Inv(s) && s.file.pin.epoch <= from
    requires s.file.pending.Some? && Applied(s.history, s.file.pending.value.state) ==>
               s.file.pending.value.state.epoch <= from
    ensures GrantsFrom(s.history, from)
  {
    var h := s.history;
    forall e | from < e <= Current(h).epoch
      ensures e in Grants(h)
    {
      var i :| 0 <= i < |h| && h[i].state == s.file.pin;
      var k := Introduced(h, i, |h| - 1, e);
      EntryIsApplied(h, k);
    }
  }

  /**
   A rotation never locks the device out: in every reachable state every applied rotation of this
   device is finalised or pending in the file, and the current account key can be reached from it.
   */
  lemma NeverLockedOut(run: Run, i: nat)
    requires i < |run|
    ensures KeysKept(run[i]) && Recoverable(run[i])
  {
    RunKeepsInv(run, i);
    InvIsRecoverable(run[i]);
  }

  /** At most one body of one rotation is ever applied, and every body sent was on disk first. */
  lemma OneBodyAppliedAndAllFromDisk(run: Run, i: nat)
    requires i < |run|
    ensures OneBodyPerRotation(run[i].history) && DepartedFromDisk(run[i])
  {
    RunKeepsInv(run, i);
  }

  /** The settling rule answers the question it is asked, in every reachable state. */
  lemma SettlingIsExact(run: Run, i: nat)
    requires i < |run| && run[i].file.pending.Some?
    ensures PendingApplied(run[i].file, Current(run[i].history), Grants(run[i].history)) <==>
            Applied(run[i].history, run[i].file.pending.value.state)
  {
    RunKeepsInv(run, i);
    PendingAppliedIsExact(run[i]);
  }

  lemma HonestRetry(s: System, buildable: bool)
    requires Inv(s) && s.phase.Conflicted?
    ensures !OnStateConflict(s.phase.f, Current(s.history), s.vaults, buildable).GoReadOnly?
  {
    var h, f := s.history, s.phase.f;
    var k :| 0 <= k < |h| && h[k].state == f.base;
    Ascending(h, k, |h| - 1);
  }

  /** Against an honest server the retry rule never takes the device read-only. */
  lemma RetryNeverAlarms(run: Run, i: nat, buildable: bool)
    requires i < |run| && run[i].phase.Conflicted?
    ensures !OnStateConflict(run[i].phase.f, Current(run[i].history), run[i].vaults, buildable).GoReadOnly?
  {
    RunKeepsInv(run, i);
    HonestRetry(run[i], buildable);
  }

  /**
   The re-read after a refusal of a body that was in fact applied finds it if and only if no other
   device committed in between; otherwise the record dropped was the only copy of an applied key.
   */
  lemma RereadMustComeFirst(s: System, t: System)
    requires Inv(s) && s.phase.Refused? && RefusedYetHeld(s)
    requires s.history <= t.history && Chained(t.history) && t == s.(history := t.history)
    ensures Current(t.history) == s.file.pending.value.state <==> t.history == s.history
    ensures !KeysKept(t.(file := t.file.(pending := None)))
  {
    var h, c := s.history, s.phase.f.commit;
    Ascending(t.history, |h| - 1, |t.history| - 1);
    AppliedIfCurrent(s, c);
    var i :| 0 <= i < |h| && h[i] == Entry(c.state, ThisDevice);
    assert t.history[i] == h[i];
  }

  // ---------- runs of this device ----------

  ghost predicate IsPath(path: seq<System>) {
    |path| > 0 && forall i: nat :: 0 < i < |path| ==> StepAt(path, i)
  }

  /** `t` is reached from `s` by atomic steps. */
  ghost predicate Reached(s: System, t: System) {
    exists path :: IsPath(path) && path[0] == s && path[|path| - 1] == t
  }

  lemma ReachedSelf(s: System)
    ensures Reached(s, s)
  {
    assert IsPath([s]);
  }

  lemma ReachedNext(s: System, a: Action, t: System)
    requires Next(s, a, t)
    ensures Reached(s, t)
  {
    var path := [s, t];
    assert Step(path[0], path[1]);
    assert IsPath(path) && path[|path| - 1] == t;
  }

  lemma ReachedThen(s: System, t: System, u: System)
    requires Reached(s, t) && Reached(t, u)
    ensures Reached(s, u)
  {
    var p :| IsPath(p) && p[0] == s && p[|p| - 1] == t;
    var q :| IsPath(q) && q[0] == t && q[|q| - 1] == u;
    var path := p + q[1..];
    forall i: nat | 0 < i < |path|
      ensures StepAt(path, i)
    {
      if i < |p| {
        assert StepAt(p, i);
      } else {
        assert StepAt(q, i - |p| + 1);
      }
    }
    assert IsPath(path) && path[0] == s && path[|path| - 1] == u;
  }

  lemma {:induction false} ReachedKeepsInv(s: System, t: System)
    requires Inv(s) && Reached(s, t)
    ensures Inv(t)
  {
    var path :| IsPath(path) && path[0] == s && path[|path| - 1] == t;
    PathKeepsInv(path, |path| - 1);
  }

  lemma {:induction false} PathKeepsInv(path: seq<System>, i: nat)
    requires IsPath(path) && Inv(path[0]) && i < |path|
    ensures Inv(path[i])
  {
    if i > 0 {
      PathKeepsInv(path, i - 1);
      assert StepAt(path, i);
      StepKeepsInv(path[i - 1], path[i]);
    }
  }

  /** One more step of this device and its server. */
  lemma ReachedStep(s: System, t: System, a: Action, u: System)
    requires Reached(s, t) && Next(t, a, u)
    ensures Reached(s, u)
  {
    ReachedNext(t, a, u);
    ReachedThen(s, t, u);
  }

  /** Nothing is pending, and the record wraps the server's current key. */
  predicate AllSettled(t: System) {
    t.phase.Idle? && t.file == File(Current(t.history), None)
  }

  /** The history is as it was, or the pending body joined it, which it does where the server takes it. */
  predicate SettledFrom(s: System, t: System) {
    && (t.history == s.history
        || (s.file.pending.Some? && t.history == s.history + [Entry(s.file.pending.value.state, ThisDevice)]))
    && (s.file.pending.Some? && Takes(s, s.file.pending.value) ==> t.history != s.history)
  }

  /**
   No reachable state is a dead end: from every one, a process that starts again and is let through by the
   network reaches a state in which nothing is pending and its record wraps the server's current key. A body
   that was not applied is resent: it joins the history where the server still accepts it, and is dropped
   after the refusal otherwise.
   */
  lemma AlwaysSettles(s: System) returns (t: System)
    requires Inv(s)
    ensures Reached(s, t) && AllSettled(t) && SettledFrom(s, t)
  {
    var down := s.(phase := Down);
    ReachedNext(s, Crash, down);
    ReachedKeepsInv(s, down);
    InvIsRecoverable(down);
    if s.file.pending.None? {
      var idle := s.(phase := Idle);
      ReachedStep(s, down, Open, idle);
      t := idle.(file := File(Current(s.history), None));
      ReachedStep(s, idle, Refresh, t);
    } else {
      var found := s.(phase := Found);
      ReachedStep(s, down, Open, found);
      ReachedKeepsInv(s, found);
      t := SettlesPending(found);
      ReachedThen(s, found, t);
    }
  }

  lemma SettlesPending(s: System) returns (t: System)
    requires Inv(s) && s.phase.Found? && s.file.pending.Some?
    ensures Reached(s, t) && AllSettled(t) && SettledFrom(s, t)
  {
    PendingAppliedIsExact(s);
    ReachedSelf(s);
    var pending := s.file.pending.value.state;
    if Applied(s.history, pending) {
      var settled := s.(phase := Settled);
      ReachedStep(s, s, SettleRead, settled);
      t := Promotes(s, settled);
      AppliedAreNotAccepted(s.history, pending);
    } else {
      var unapplied := s.(phase := Unapplied);
      ReachedStep(s, s, SettleRead, unapplied);
      var resent := unapplied.(phase := Resent, departures := s.departures + [Departure(s.file.pending.value, s.file)]);
      ReachedStep(s, unapplied, Resend, resent);
      if Takes(s, s.file.pending.value) {
        var applied := resent.(history := s.history + [Entry(pending, ThisDevice)]);
        ReachedStep(s, resent, ServerApplies, applied);
        var settled := applied.(phase := Settled);
        assert applied.history[|s.history|] == Entry(pending, ThisDevice);
        ReachedStep(s, applied, Answered(Done), settled);
        t := Promotes(s, settled);
      } else {
        t := DropsRefused(s, resent);
      }
    }
  }

  /** The server holds the pending body: it becomes the record. */
  lemma Promotes(s: System, settled: System) returns (t: System)
    requires Inv(s) && Reached(s, settled) && settled.phase.Settled? && settled.file.pending.Some?
    requires Applied(settled.history, settled.file.pending.value.state)
    ensures Reached(s, t) && AllSettled(t) && t.history == settled.history
  {
    ReachedKeepsInv(s, settled);
    GrantsBeyond(settled, settled.file.pending.value.state.epoch);
    t := settled.(phase := Idle, file := File(Current(settled.history), None));
    ReachedStep(s, settled, Promote, t);
  }

  /** The server refuses the pending body: it is read once more that it was not applied, and dropped. */
  lemma DropsRefused(s: System, resent: System) returns (t: System)
    requires Inv(s) && Reached(s, resent) && resent.phase.Resent? && resent.file.pending.Some?
    requires !Applied(resent.history, resent.file.pending.value.state)
    ensures Reached(s, t) && AllSettled(t) && t.history == resent.history
  {
    var reread, doomed := resent.(phase := Reread), resent.(phase := Doomed);
    ReachedStep(s, resent, Answered(Failed(Server(StateConflict))), reread);
    ReachedKeepsInv(s, reread);
    PendingAppliedIsExact(reread);
    InvIsRecoverable(reread);
    ReachedStep(s, reread, SettleRead, doomed);
    var idle := doomed.(phase := Idle, file := doomed.file.(pending := None));
    ReachedStep(s, doomed, Abandon, idle);
    t := idle.(file := File(Current(idle.history), None));
    ReachedStep(s, idle, Refresh, t);
  }

  /** What was applied is not accepted again: the sequence number went on. */
  lemma AppliedAreNotAccepted(h: History, state: AccountState)
    requires Chained(h) && Applied(h, state)
    ensures !Accepts(Current(h), state)
  {
    var i :| 0 <= i < |h| && h[i] == Entry(state, ThisDevice);
    Ascending(h, i, |h| - 1);
  }

  /**
   Where the record goes after a `state_conflict`: it is dropped exactly when the retry has to start again, or
   when it can be rebuilt no more. The limit of rebuilds is such a case.
   */
  lemma ConflictDropsTheRecord(s: System, t: System, buildable: bool)
    requires Inv(s) && s.phase.Conflicted? && Next(s, RetryOnView(buildable), t)
    ensures
      var f, view := s.phase.f, Current(s.history);
      && (t.phase.Doomed? <==>
            view != f.commit.state &&
            (Retry(f.base, view).Restart? ||
                (Retry(f.base, view).Reapply? && (f.rebuilds >= MAX_REBUILDS || !buildable))))
      && (t.phase.Doomed? ==> NothingAhead(t) && Next(t, Abandon, t.(phase := Idle, file := File(t.file.pin, None))))
      && (!t.phase.Doomed? ==> t.file == s.file && t.file.pending == Some(f.commit))
  {
    StepKeepsInv(s, t);
    HonestRetry(s, buildable);
  }

  /** At the limit, another device's change of the device set is enough: the record is dropped, not kept. */
  lemma LimitDropsTheRecord(s: System, buildable: bool) returns (t: System)
    requires Inv(s) && s.phase.Conflicted? && s.phase.f.rebuilds >= MAX_REBUILDS
    requires Current(s.history) != s.phase.f.commit.state && Current(s.history).stateSeq > s.phase.f.base.stateSeq
    requires Current(s.history).(stateSeq := s.phase.f.base.stateSeq, deviceSet := s.phase.f.base.deviceSet)
               == s.phase.f.base
    ensures s.file.pending == Some(s.phase.f.commit)
    ensures Reached(s, t) && t.phase.Idle? && t.file == File(s.file.pin, None)
  {
    var doomed := s.(phase := Doomed);
    ReachedNext(s, RetryOnView(buildable), doomed);
    t := doomed.(phase := Idle, file := File(s.file.pin, None));
    ReachedStep(s, doomed, Abandon, t);
  }

  // ---------- copies that arrive late ----------

  /** A copy of a body that left before is applied now, whatever became of the request: no step of this protocol. */
  predicate Lands(s: System, d: Departure, t: System) {
    && d in s.departures && Takes(s, d.body) && d.body.state.key != Current(s.history).key
    && t == s.(history := s.history + [Entry(d.body.state, ThisDevice)])
  }

  /** Such a copy leaves the device its keys if and only if the record of that body is still pending. */
  lemma LateCopyNeedsTheRecord(s: System, d: Departure, t: System)
    requires Inv(s) && Lands(s, d, t)
    ensures KeysKept(t) <==> s.file.pending.Some? && s.file.pending.value.state == d.body.state
  {
    var h, state := s.history, d.body.state;
    var i :| 0 <= i < |h| && h[i].state == s.file.pin;
    Ascending(h, i, |h| - 1);
    assert t.history[|h|] == Entry(state, ThisDevice) && state.epoch > s.file.pin.epoch;
    forall k | 0 <= k < |h| && h[k].author.ThisDevice?
      ensures t.history[k] == h[k]
    {
    }
  }

  /** A body is on its way, the process dies, and a later one finds it not applied. */
  lemma LeavesACopy(start: System, body: Commit) returns (s: System)
    requires Init(start)
    requires var base := Current(start.history);
      body == Commit(AccountState(base.stateSeq + 1, base.epoch + 1, Mine(0), base.deviceSet, 0),
                     Half(Mine(0), start.vaults))
    ensures Reached(start, s)
    ensures var file := File(Current(start.history), Some(body));
      s == start.(phase := Unapplied, file := file, nextRotation := 1, departures := [Departure(body, file)])
  {
    hide Reached;
    ReachedSelf(start);
    var base := Current(start.history);
    var idle := start.(phase := Idle);
    ReachedStep(start, start, Open, idle);
    var built := idle.(phase := Built(Flight(base, body, 0)), nextRotation := 1);
    ReachedStep(start, idle, Begin(0), built);
    var saved := built.(phase := Persisted(Flight(base, body, 0)), file := File(base, Some(body)));
    ReachedStep(start, built, Persist, saved);
    var d := Departure(body, saved.file);
    var sent := saved.(phase := Sent(Flight(base, body, 0)), departures := [d]);
    ReachedStep(start, saved, Send, sent);
    var found := sent.(phase := Found);
    ReachedStep(start, sent, Crash, sent.(phase := Down));
    ReachedStep(start, sent.(phase := Down), Open, found);
    s := found.(phase := Unapplied);
    ReachedStep(start, found, SettleRead, s);
  }

  /** A login that is refused while such a copy is on its way drops the record: then the copy locks the device out. */
  lemma RefusedLoginMissesTheCopy(start: System) returns (s: System, t: System)
    requires Init(start)
    ensures Reached(start, s) && s.file == File(Current(start.history), None)
    ensures (exists d :: Lands(s, d, t)) && !KeysKept(t) && !Recoverable(t)
  {
    hide Reached;
    var base := Current(start.history);
    var body := Commit(AccountState(base.stateSeq + 1, base.epoch + 1, Mine(0), base.deviceSet, 0),
                       Half(Mine(0), start.vaults));
    var unapplied := LeavesACopy(start, body);
    var d := unapplied.departures[0];
    var doomed := unapplied.(phase := Doomed);
    ReachedStep(start, unapplied, LoginRefused, doomed);
    s := doomed.(phase := Idle, file := File(base, None));
    ReachedStep(start, doomed, Abandon, s);
    t := s.(history := s.history + [Entry(body.state, ThisDevice)]);
    assert forall i :: 0 <= i < |start.history| ==> start.history[i] in start.history;
    assert Lands(s, d, t);
    assert t.history[|s.history|] == Entry(body.state, ThisDevice);
    assert (base.epoch + 1) !in Grants(t.history) by {
      NoGrantOfOwn(s.history, body.state);
    }
  }

  /** A rotation grants its own device nothing, and no earlier one has its epoch. */
  lemma NoGrantOfOwn(h: History, state: AccountState)
    requires Chained(h) && state.epoch == Current(h).epoch + 1
    ensures state.epoch !in Grants(h + [Entry(state, ThisDevice)])
  {
    var h' := h + [Entry(state, ThisDevice)];
    forall i: nat | i < |h'| && RotatesAt(h', i) && h'[i].author.OtherDevice?
      ensures h'[i].state.epoch != state.epoch
    {
      Ascending(h, i, |h| - 1);
    }
  }

  /** A body was refused since another device changed the device set, and nothing of this device was ever applied. */
  ghost predicate JustBehind(s: System) {
    && s.phase.Conflicted? && s.file.pending == Some(s.phase.f.commit)
    && var f, view := s.phase.f, Current(s.history);
       && f.commit.state.epoch == f.base.epoch + 1 && view.stateSeq == f.base.stateSeq + 1
       && view.(stateSeq := f.base.stateSeq, deviceSet := f.base.deviceSet) == f.base
       && forall i :: 0 <= i < |s.history| ==> s.history[i].author.OtherDevice?
  }

  /** A body built on the current state is sent, and another device is faster. */
  lemma LosesTheRace(start: System, s: System) returns (t: System)
    requires Reached(start, s) && s.phase.Built? && s.phase.f.base == Current(s.history)
    requires s.phase.f.commit.state.epoch == s.phase.f.base.epoch + 1
    requires forall i :: 0 <= i < |s.history| ==> s.history[i].author.OtherDevice?
    ensures Reached(start, t) && JustBehind(t) && t.phase.f == s.phase.f && t.file.pin == s.file.pin
  {
    hide Reached;
    var f, view := s.phase.f, Current(s.history);
    var saved := s.(phase := Persisted(f), file := s.file.(pending := Some(f.commit)));
    ReachedStep(start, s, Persist, saved);
    var sent := saved.(phase := Sent(f), departures := s.departures + [Departure(f.commit, saved.file)]);
    ReachedStep(start, saved, Send, sent);
    var other := view.(stateSeq := view.stateSeq + 1, deviceSet := view.deviceSet + 1);
    var late := sent.(history := s.history + [Entry(other, OtherDevice)]);
    ReachedStep(start, sent, OtherCommits(other), late);
    t := late.(phase := Conflicted(f));
    ReachedStep(start, late, Answered(Failed(Server(StateConflict))), t);
  }

  /** It is rebuilt, and loses again, up to the limit. */
  lemma LosesToTheLimit(start: System, s: System) returns (t: System)
    requires Reached(start, s) && JustBehind(s) && s.phase.f.rebuilds <= MAX_REBUILDS
    ensures Reached(start, t) && JustBehind(t) && t.phase.f.rebuilds == MAX_REBUILDS && t.file.pin == s.file.pin
    decreases MAX_REBUILDS - s.phase.f.rebuilds
  {
    if s.phase.f.rebuilds == MAX_REBUILDS {
      t := s;
    } else {
      var f, view := s.phase.f, Current(s.history);
      var state := f.commit.state.(stateSeq := view.stateSeq + 1, deviceSet := view.deviceSet);
      var built := s.(phase := Built(Flight(view, Commit(state, Half(state.key, s.vaults)), f.rebuilds + 1)));
      ReachedStep(start, s, RetryOnView(true), built);
      var next := LosesTheRace(start, built);
      t := LosesToTheLimit(start, next);
    }
  }

  /** From every enrolled device there is a run that loses the race at the limit, and drops the record. */
  lemma LimitIsReached(start: System) returns (s: System, t: System)
    requires Init(start)
    ensures Reached(start, s) && s.phase.Conflicted? && s.phase.f.rebuilds == MAX_REBUILDS
    ensures s.file.pending == Some(s.phase.f.commit)
    ensures Reached(s, t) && t.phase.Idle? && t.file == File(s.file.pin, None)
  {
    ReachedSelf(start);
    var base := Current(start.history);
    assert forall i :: 0 <= i < |start.history| ==> start.history[i] in start.history;
    var idle := start.(phase := Idle);
    ReachedStep(start, start, Open, idle);
    var state := AccountState(base.stateSeq + 1, base.epoch + 1, Mine(0), base.deviceSet, 0);
    var built := idle.(phase := Built(Flight(base, Commit(state, Half(state.key, start.vaults)), 0)),
        nextRotation := 1);
    ReachedStep(start, idle, Begin(0), built);
    var first := LosesTheRace(start, built);
    s := LosesToTheLimit(start, first);
    InitMeetsInv(start);
    ReachedKeepsInv(start, s);
    t := LimitDropsTheRecord(s, true);
  }

  /** `s` is a state of some run of an enrolled device. */
  ghost predicate Reachable(s: System) {
    exists start :: Init(start) && Reached(start, s)
  }

  lemma InitIsReachable(s: System)
    requires Init(s)
    ensures Reachable(s)
  {
    ReachedSelf(s);
  }

  lemma ReachableMeetsInv(s: System)
    requires Reachable(s)
    ensures Inv(s)
  {
    var start :| Init(start) && Reached(start, s);
    InitMeetsInv(start);
    ReachedKeepsInv(start, s);
  }

  /** One more step of a run. */
  lemma Advance(before: System, a: Action, after: System)
    requires Reachable(before) && Next(before, a, after)
    ensures Reachable(after)
  {
    var start :| Init(start) && Reached(start, before);
    ReachedNext(before, a, after);
    ReachedThen(start, before, after);
  }

  /** What each phase guarantees about the server and the file. */
  lemma PhaseFacts(s: System)
    requires Reachable(s)
    ensures s.phase.Doomed? || s.phase.Unapplied? ==> NothingAhead(s)
    ensures s.phase.Landed? ==> Applied(s.history, s.phase.f.commit.state)
    ensures s.phase.Landed? || s.phase.Refused? || s.phase.Sent? || s.phase.Conflicted? ==>
              s.file.pending == Some(s.phase.f.commit)
    ensures s.phase.Found? || s.phase.Unapplied? || s.phase.Resent? || s.phase.Reread? || s.phase.Settled? ==>
              s.file.pending.Some?
    ensures s.phase.Settled? ==>
              Applied(s.history, s.file.pending.value.state) && GrantsFrom(s.history, s.file.pending.value.state.epoch)
    ensures s.file.pending.None? ==> GrantsFrom(s.history, s.file.pin.epoch) && NothingAhead(s)
  {
    ReachableMeetsInv(s);
    InvIsRecoverable(s);
    if s.phase.Settled? {
      GrantsBeyond(s, s.file.pending.value.state.epoch);
    }
  }

  lemma OtherIsNotTheRefusedWhereReachable(s: System, state: AccountState)
    requires Reachable(s) && Next(s, OtherCommits(state), s.(history := s.history + [Entry(state, OtherDevice)]))
    ensures !RefusedYetHeld(s.(history := s.history + [Entry(state, OtherDevice)]))
  {
    ReachableMeetsInv(s);
    OtherIsNotTheRefused(s, s.(history := s.history + [Entry(state, OtherDevice)]), state);
  }

  /** A body not sent in this process, or found not applied, is not what the server holds. */
  lemma UnsentIsUnapplied(s: System)
    requires Reachable(s) && (s.phase.Built? || s.phase.Unapplied?)
    ensures s.phase.Built? ==> !Applied(s.history, s.phase.f.commit.state)
    ensures s.phase.Unapplied? ==> s.file.pending.Some? && !Applied(s.history, s.file.pending.value.state)
  {
    ReachableMeetsInv(s);
  }

  /** The key of the next rotation is not the one the account has. */
  lemma FreshKeyIsAnother(s: System)
    requires Reachable(s)
    ensures Current(s.history).key != Mine(s.nextRotation)
  {
    ReachableMeetsInv(s);
    assert AuthorInv(s.history, |s.history| - 1, s.nextRotation);
  }
}
