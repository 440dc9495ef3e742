/**
 The device's own code for the commit protocol, in its imperative form: the loop of `send_rotation`
 around committed writes, `settle_pending`, and what they call (crates/rizzy-cli/src/device.rs).

 The server, the other devices and the network are the nondeterministic choices `*` of this module;
 a crash may cut any method short between two atomic steps. Every method is proved to move only by
 the steps of `CommitProtocol`, so the results proved there hold at every point of its execution.
 In a `calm` host nothing goes wrong: for it the contracts say what each method then achieves.
 */
module CommitHost {
  import opened Base
  import opened CommitErrors
  import opened CommitProtocol
  import opened RotationBodies

  /** How a method ended: it succeeded, it returned an error, or the process died in it. */
  datatype Outcome = Success | Failure | Crashed

  method AnyState() returns (state: AccountState)
  {
    var stateSeq: nat, epoch: nat, n: nat, deviceSet: nat, rest: nat := *, *, *, *, *;
    var key: Key := *;
    state := AccountState(stateSeq, epoch,
        match key case Genesis => Genesis case Mine(_) => Mine(n) case Elsewhere(_) => Elsewhere(n), deviceSet, rest);
  }

  /** One device with its file, and the server it talks to. */
  class Host {
    /** No crash, no failed read, nobody else at work, and the server answers every request. */
    const calm: bool
    /** The server's committed states. */
    var history: History
    /** What the server holds of the vaults. */
    var vaults: nat
    /** The device file. */
    var file: File
    /** `self.pending_commit`: the stored body, as the process knows it. */
    var pendingCommit: Option<Commit>
    /** How many rotations this device began: each draws a key of its own. */
    var begun: nat

    ghost var phase: Phase
    ghost var departures: seq<Departure>

    ghost function State(): System
      reads this
    {
      System(history, vaults, file, phase, begun, departures)
    }

    /** An enrolled device, no process running. */
    constructor (account: AccountState, held: nat, calm: bool)
      requires account.key == Genesis
      ensures Init(State()) && Reachable(State()) && this.calm == calm && file.pin == account && vaults == held
    {
      this.calm := calm;
      vaults := held;
      history := [Entry(account, OtherDevice)];
      file := File(account, None);
      pendingCommit := None;
      begun := 0;
      phase := Down;
      departures := [];
      new;
      InitIsReachable(State());
    }

    /** Other devices commit any number of changes, and write to the vaults. */
    method OthersCommit()
      requires Reachable(State()) && !RefusedYetHeld(State())
      modifies this`history, this`vaults
      ensures Reachable(State()) && !RefusedYetHeld(State()) && old(history) <= history
      ensures calm ==> history == old(history) && vaults == old(vaults)
    {
      if calm {
        return;
      }
      var held: nat := *;
      ghost var unwritten := State();
      vaults := held;
      Advance(unwritten, VaultsChange(held), State());
      var rounds: nat := *;
      while rounds > 0
        invariant Reachable(State()) && !RefusedYetHeld(State()) && old(history) <= history
      {
        var state := AnyState();
        if Accepts(Current(history), state) && (state.epoch != Current(history).epoch ==> !state.key.Mine?) {
          ghost var before := State();
          OtherIsNotTheRefusedWhereReachable(before, state);
          history := history + [Entry(state, OtherDevice)];
          Advance(before, OtherCommits(state), State());
        }
        rounds := rounds - 1;
      }
    }

    /** The process may die here, with everything it holds in memory. */
    method MayCrash() returns (dead: bool)
      requires Reachable(State())
      modifies this`phase, this`pendingCommit
      ensures Reachable(State())
      ensures if dead then phase.Down? else phase == old(phase) && pendingCommit == old(pendingCommit)
      ensures calm ==> !dead
    {
      dead := *;
      dead := dead && !calm;
      if dead {
        pendingCommit := None;
        phase := Down;
        Advance(old(State()), Crash, State());
      }
    }

    /** An answer could not be had: the command ends, and what is saved stays saved. */
    ghost method EndUnanswered()
      requires Reachable(State())
      requires phase.Conflicted? || phase.Refused? || phase.Landed? ||
               phase.Found? || phase.Unapplied? || phase.Reread? || phase.Settled?
      modifies this`phase
      ensures Reachable(State())
      ensures phase == if old(phase.Conflicted? || phase.Refused? || phase.Landed?) then Idle else Down
    {
      phase := if phase.Conflicted? || phase.Refused? || phase.Landed? then Idle else Down;
      Advance(old(State()), ReadFails, State());
    }

    /** Record and body go to the file together; `Depart` needs the phase this leads to. */
    method PersistRotation(f: Flight)
      requires Reachable(State()) && phase == Built(f)
      modifies this`file, this`pendingCommit, this`phase
      ensures Reachable(State())
      ensures phase == Persisted(f) && file == old(file).(pending := Some(f.commit)) && pendingCommit == Some(f.commit)
    {
      file := file.(pending := Some(f.commit));
      pendingCommit := Some(f.commit);
      phase := Persisted(f);
      Advance(old(State()), Persist, State());
    }

    /** The body leaves the device, unless the process dies first. */
    method Depart() returns (dead: bool)
      requires Reachable(State()) && (phase.Persisted? || (phase.Unapplied? && file.pending.Some?))
      modifies this`phase, this`pendingCommit, this`departures
      ensures Reachable(State())
      ensures if dead then phase.Down? else pendingCommit == old(pendingCommit)
      ensures !dead && old(phase).Persisted? ==> phase == Sent(old(phase).f)
      ensures !dead && old(phase).Unapplied? ==> phase.Resent?
      ensures calm ==> !dead
    {
      dead := MayCrash();
      if !dead {
        ghost var before := State();
        if phase.Persisted? {
          departures := departures + [Departure(phase.f.commit, file)];
          phase := Sent(phase.f);
          Advance(before, Send, State());
        } else {
          departures := departures + [Departure(file.pending.value, file)];
          phase := Resent;
          Advance(before, Resend, State());
        }
      }
    }

    /**
     The body travels to the server and an answer comes back, or none does. The server may take the
     body at any moment in between, before, after or instead of other devices' commits.
     */
    method Exchange(body: Commit) returns (answer: Answer)
      requires Reachable(State()) && InFlight(State()) == Some(body)
      modifies this`history, this`vaults, this`phase
      ensures Reachable(State()) && old(history) <= history
      ensures phase == if old(phase).Sent? then AfterAnswer(old(phase).f, answer) else AfterResend(answer)
      ensures calm ==> vaults == old(vaults) &&
                       history == if old(Takes(State(), body)) then old(history) + [Entry(body.state, ThisDevice)]
                       else old(history)
      ensures calm ==> answer == if Applied(history, body.state) then Done else Failed(Server(StateConflict))
    {
      hide Reachable;
      OthersCommit();
      Arrive(body);
      var promptly: bool := *;
      if !promptly {
        OthersCommit();
      }
      answer := AnyAnswer(body.state);
      if calm {
        answer := if Applied(history, body.state) then Done else Failed(Server(StateConflict));
      }
      ghost var before := State();
      phase := if phase.Sent? then AfterAnswer(phase.f, answer) else AfterResend(answer);
      Advance(before, Answered(answer), State());
    }

    /** The request reaches the server, or is lost. */
    method Arrive(body: Commit)
      requires Reachable(State()) && InFlight(State()) == Some(body)
      modifies this`history
      ensures Reachable(State())
      ensures history == old(history) ||
              (old(Takes(State(), body)) && history == old(history) + [Entry(body.state, ThisDevice)])
      ensures calm && old(Takes(State(), body)) ==> history != old(history)
    {
      hide Reachable;
      var reaches: bool := *;
      if (reaches || calm) && Accepts(Current(history), body.state) && body.half == Half(body.state.key, vaults) {
        ghost var before := State();
        history := history + [Entry(body.state, ThisDevice)];
        Advance(before, ServerApplies, State());
      }
    }

    /** Any answer the transport assumption allows: a refusal of an applied body finds it current. */
    method AnyAnswer(state: AccountState) returns (answer: Answer)
      ensures answer.Done? ==> Applied(history, state)
      ensures RefusedBy(answer) && Applied(history, state) ==> Current(history) == state
    {
      answer := *;
      if answer.Done? && !Applied(history, state) {
        answer := Failed(Network);
      }
      if RefusedBy(answer) && Applied(history, state) && Current(history) != state {
        answer := Failed(Network);
      }
    }

    /** Empties the pending record in the file and in memory; `Doomed` is the only phase that may. */
    method AbandonPending()
      requires Reachable(State()) && phase.Doomed?
      modifies this`file, this`pendingCommit, this`phase
      ensures Reachable(State())
      ensures phase.Idle? && file == old(file).(pending := None) && pendingCommit == None
      ensures NothingAhead(State())
    {
      PhaseFacts(State());
      pendingCommit := None;
      file := file.(pending := None);
      phase := Idle;
      Advance(old(State()), Abandon, State());
    }

    /**
     The re-read after a refusal: `Some(true)` when the stored commit is what the server holds, `None`
     when nothing could be read.
     */
    method CommitLanded(ghost f: Flight) returns (landed: Option<bool>)
      requires Reachable(State()) && phase == Refused(f) && pendingCommit == Some(f.commit)
      modifies this`phase
      ensures Reachable(State())
      ensures match landed
              case None => phase.Idle?
              case Some(true) => phase == Landed(f) && Applied(history, f.commit.state)
              case Some(false) => phase.Doomed? && NothingAhead(State())
      ensures calm ==> landed == Some(Current(history) == f.commit.state)
    {
      var served: bool := *;
      if !served && !calm {
        EndUnanswered();
        return None;
      }
      PhaseFacts(State());
      landed := Some(Current(history) == pendingCommit.value.state);
      phase := if landed.value then Landed(f) else Doomed;
      Advance(old(State()), ConfirmRefusal, State());
      PhaseFacts(State());
    }

    /** One send: the body is on disk before it leaves, and nothing is concluded from a lost answer. */
    method Post(f: Flight) returns (answer: Answer, dead: bool)
      requires Reachable(State()) && phase == Built(f)
      modifies this
      ensures Reachable(State()) && begun == old(begun)
      ensures if dead then phase.Down?
              else phase == AfterAnswer(f, answer) && file == old(file).(pending := Some(f.commit)) &&
                   pendingCommit == file.pending && (answer.Done? ==> Applied(history, f.commit.state))
      ensures calm ==> !dead && vaults == old(vaults)
      ensures calm ==> if old(Takes(State(), f.commit)) then
                         answer.Done? && history == old(history) + [Entry(f.commit.state, ThisDevice)]
                       else answer == Failed(Server(StateConflict)) && history == old(history) &&
                            !Applied(history, f.commit.state)
    {
      hide Reachable;
      UnsentIsUnapplied(State());
      PersistRotation(f);
      answer := Failed(Network);
      dead := Depart();
      if !dead {
        answer := Exchange(f.commit);
        assert calm && history != old(history) ==> history[|old(history)|] == Entry(f.commit.state, ThisDevice);
        dead := MayCrash();
        PhaseFacts(State());
      }
    }

    /** A refused body that the re-read does not find is dropped; without the re-read it stays. */
    method AnswerRefusal(f: Flight) returns (landed: Option<bool>)
      requires Reachable(State()) && phase == Refused(f) && pendingCommit == Some(f.commit)
      modifies this`file, this`pendingCommit, this`phase
      ensures Reachable(State())
      ensures landed != Some(false) ==> file == old(file) && file.pending.Some?
      ensures landed == Some(false) ==> file == old(file).(pending := None) && NothingAhead(State())
      ensures if landed == Some(true) then phase == Landed(f) && Applied(history, f.commit.state) else phase.Idle?
      ensures calm ==> landed == Some(Current(history) == f.commit.state)
    {
      PhaseFacts(State());
      landed := CommitLanded(f);
      if landed == Some(false) {
        AbandonPending();
      }
    }

    /**
     The retry rule on what the server now serves. A failed Fetch or read counts as `GoReadOnly`: the
     command ends and nothing is dropped.
     */
    method AnswerConflict(flight: Flight) returns (verdict: Verdict)
      requires Reachable(State()) && phase == Conflicted(flight)
      modifies this`history, this`vaults, this`phase
      ensures Reachable(State())
      ensures match verdict
              case Rebuilt(f) =>
                phase == Built(f) && f.rebuilds == flight.rebuilds + 1 <= MAX_REBUILDS &&
                f.base == Current(history) && Takes(State(), f.commit) && BuiltOn(State(), f.commit) &&
                f.commit.state.key == flight.commit.state.key && SameRotation(f.commit, flight.commit)
              case Committed => phase == Landed(flight) && Applied(history, flight.commit.state)
              case GoReadOnly => phase.Idle? && file.pending.Some?
              case GiveUp => phase.Doomed?
      ensures calm ==> history == old(history) && vaults == old(vaults)
      ensures calm ==> (verdict.Committed? <==> Current(history) == flight.commit.state)
      ensures calm && !verdict.Committed? ==>
                if Rebuildable(flight, Current(history)) then verdict.Rebuilt? else verdict.GiveUp?
    {
      PhaseFacts(State());
      if Current(history) != flight.commit.state {
        OthersCommit();
      }
      var served: bool := *;
      if !served && !calm {
        EndUnanswered();
        return GoReadOnly;
      }
      var buildable: bool := *;
      buildable := buildable || calm;
      ghost var before := State();
      ConflictFacts(before, buildable);
      verdict := OnStateConflict(flight, Current(history), vaults, buildable);
      phase :=
        match verdict
        case Rebuilt(f) => Built(f)
        case Committed => Landed(flight)
        case GoReadOnly => Idle
        case GiveUp => Doomed;
      Advance(before, RetryOnView(buildable), State());
      PhaseFacts(State());
    }

    /** The rebuild limit is not reached, and nothing but the device set was changed by others. */
    ghost predicate Rebuildable(f: Flight, view: AccountState) {
      f.rebuilds < MAX_REBUILDS && view == f.base.(stateSeq := view.stateSeq, deviceSet := view.deviceSet)
    }

    /**
     The send loop, which rebuilds on a conflict. On `Success` the server holds the
     rotation; on `Failure` the pending record is gone only if the server never applied it. `last` is the
     last answer, and `read` says whether the account could be read after it: the record goes exactly when a
     refusal is the last answer and the account was read.
     */
    method SendRotation(first: Flight) returns (r: Outcome, sent: Flight, ghost last: Answer, ghost read: bool)
      requires Reachable(State()) && phase == Built(first)
      modifies this
      ensures Reachable(State())
      ensures match r
              case Success => phase == Landed(sent) && Applied(history, sent.commit.state)
              case Failure => phase.Idle? && (file.pending.None? ==> NothingAhead(State()))
              case Crashed => phase.Down?
      ensures r.Failure? ==> last.Failed? && (file.pending.None? <==> RefusesCommit(last.e) && read)
      ensures r.Success? ==> last.Done? || (RefusesCommit(last.e) && read)
      ensures sent.commit.state.key == first.commit.state.key && SameRotation(sent.commit, first.commit)
      ensures calm ==> r == if old(Takes(State(), first.commit) || Rebuildable(first, Current(history))) then Success
                            else Failure
      ensures calm && r.Success? ==> history == old(history) + [Entry(sent.commit.state, ThisDevice)]
      ensures calm && r.Failure? ==> history == old(history) && file == old(file).(pending := None)
      ensures calm && old(Takes(State(), first.commit)) ==> sent == first
    {
      hide Reachable, NothingAhead, BuiltOn, Host.Rebuildable;
      sent, last, read := first, Done, true;
      while true
        invariant Reachable(State()) && phase == Built(sent)
        invariant sent.commit.state.key == first.commit.state.key && SameRotation(sent.commit, first.commit)
        invariant calm ==> history == old(history) && vaults == old(vaults) && file.pin == old(file.pin)
        invariant calm && sent != first ==> Takes(State(), sent.commit)
        invariant calm && sent != first ==> old(!Takes(State(), first.commit) && Rebuildable(first, Current(history)))
        decreases MAX_REBUILDS - sent.rebuilds
      {
        var answer, dead := Post(sent);
        last := answer;
        if dead {
          return Crashed, sent, last, read;
        }
        if answer.Done? {
          return Success, sent, last, read;
        } else if answer.e == Server(StateConflict) {
          var verdict := AnswerConflict(sent);
          match verdict {
            case Rebuilt(f) => sent := f;
            case Committed => return Success, sent, last, read;
            case GoReadOnly => return Failure, sent, last, false;
            case GiveUp =>
              AbandonPending();
              return Failure, sent, last, read;
          }
        } else if RefusesCommit(answer.e) {
          var landed := AnswerRefusal(sent);
          if landed == Some(true) {
            return Success, sent, last, read;
          }
          return Failure, sent, last, landed == Some(false);
        } else {
          // `setup_retired`, or an unknown outcome: the pending record stays.
          return Failure, sent, last, read;
        }
      }
    }

    /** The acknowledged state becomes the pin and the record goes, both or neither. */
    method FinishRotation(f: Flight) returns (r: Outcome)
      requires Reachable(State()) && phase == Landed(f)
      modifies this`file, this`phase, this`pendingCommit
      ensures Reachable(State())
      ensures match r
              case Success => phase.Idle? && file == File(f.commit.state, None)
              case Failure => phase.Idle? && file == old(file)
              case Crashed => phase.Down? && file == old(file)
      ensures calm ==> r.Success?
    {
      var dead := MayCrash();
      if dead {
        return Crashed;
      }
      var finalises: bool := *;
      if !finalises && !calm {
        EndUnanswered();
        return Failure;
      }
      pendingCommit := None;
      file := File(f.commit.state, None);
      phase := Idle;
      Advance(old(State()), Finish, State());
      return Success;
    }

    /** The account still has the key of this device's record. */
    ghost predicate KeyIsCurrent(s: System) {
      Current(s.history).key == s.file.pin.key && Current(s.history).epoch == s.file.pin.epoch
    }

    /** A key rotation over a fresh re-authentication. */
    method Rotate() returns (r: Outcome)
      requires Reachable(State()) && phase.Idle?
      modifies this
      ensures Reachable(State())
      ensures match r
              case Success =>
                phase.Idle? && file.pending.None? && Applied(history, file.pin) && file.pin.key == Mine(old(begun))
              case Failure => phase.Idle?
              case Crashed => phase.Down?
      ensures calm ==> r == if old(KeyIsCurrent(State())) then Success else Failure
      ensures calm && r.Success? ==> history == old(history) + [Entry(file.pin, ThisDevice)]
      ensures calm && r.Failure? ==> history == old(history) && file == old(file)
    {
      OthersCommit();
      var flight := BuildRotation();
      if flight.None? {
        return Failure;
      }
      var sent;
      ghost var last, read;
      r, sent, last, read := SendRotation(flight.value);
      if r.Success? {
        r := FinishRotation(sent);
      }
    }

    /** `check_reauth` and the first body: the account must still have the key this device holds. */
    method BuildRotation() returns (flight: Option<Flight>)
      requires Reachable(State()) && phase.Idle?
      modifies this`phase, this`begun
      ensures Reachable(State())
      ensures flight.Some? <==> KeyIsCurrent(State())
      ensures if flight.Some? then phase == Built(flight.value) else phase.Idle?
      ensures flight.Some? ==> flight.value.base == Current(history) && flight.value.rebuilds == 0
      ensures flight.Some? ==>
                Takes(State(), flight.value.commit) && BuiltOn(State(), flight.value.commit) &&
                flight.value.commit.state.key == Mine(old(begun)) && begun == old(begun) + 1
    {
      var base := Current(history);
      if base.key != file.pin.key || base.epoch != file.pin.epoch {
        return None;
      }
      var rest: nat := *;
      var state := AccountState(base.stateSeq + 1, base.epoch + 1, Mine(begun), base.deviceSet, rest);
      flight := Some(Flight(base, Commit(state, Half(state.key, vaults)), 0));
      ghost var before := State();
      FreshKeyIsAnother(before);
      begun := begun + 1;
      phase := Built(flight.value);
      Advance(before, Begin(rest), State());
    }

    /** A process found a pending record: after it nothing is pending, or the file is as it was. */
    method SettlePending() returns (r: Outcome)
      requires Reachable(State()) && phase.Found? && file.pending.Some? && pendingCommit == file.pending
      modifies this
      ensures Reachable(State())
      ensures match r
              case Success => phase.Idle? && file.pending.None?
              case Failure => phase.Down? && file == old(file)
              case Crashed => phase.Down?
      ensures r.Success? && Applied(history, old(file).pending.value.state) ==> file == File(Current(history), None)
      ensures calm ==> r.Success? && (Applied(history, old(file).pending.value.state) <==>
                         old(Applied(history, file.pending.value.state) || Takes(State(), file.pending.value)))
    {
      var dead := MayCrash();
      if dead {
        return Crashed;
      }
      PhaseFacts(State());
      var applied := Settled();
      if applied.None? {
        return Failure;
      }
      if applied == Some(false) {
        var held;
        r, held := ResendPending();
        if !r.Success? || !held {
          return;
        }
      }
      r := Promote();
    }

    /** What the settling rule says of the pending body; `None` when nothing could be read. */
    method Settled() returns (applied: Option<bool>)
      requires Reachable(State()) && (phase.Found? || phase.Reread?) && file.pending.Some?
      modifies this`phase
      ensures Reachable(State())
      ensures match applied
              case None => phase.Down?
              case Some(true) => phase.Settled?
              case Some(false) => phase == if old(phase).Found? then Unapplied else Doomed
      ensures applied.Some? ==> applied.value == Applied(history, file.pending.value.state)
      ensures calm ==> applied.Some?
    {
      var served: bool := *;
      if !served && !calm {
        EndUnanswered();
        return None;
      }
      ReachableMeetsInv(State());
      PendingAppliedIsExact(State());
      applied := Some(PendingApplied(file, Current(history), Grants(history)));
      phase := if applied.value then Phase.Settled else if phase.Found? then Unapplied else Doomed;
      Advance(old(State()), SettleRead, State());
    }

    /**
     Resends the stored body over a fresh login. On `Success`, either the server holds it (`held`), or
     it was never applied and is dropped.
     */
    method ResendPending() returns (r: Outcome, held: bool)
      requires Reachable(State()) && phase.Unapplied? && file.pending.Some? && pendingCommit == file.pending
      modifies this
      ensures Reachable(State())
      ensures r.Success? ==> if held then phase.Settled? else phase.Idle? && file.pending.None?
      ensures !r.Success? ==> phase.Down?
      ensures r.Failure? || held ==> file == old(file)
      ensures r.Success? ==> (held <==> Applied(history, old(file).pending.value.state))
      ensures calm ==> r.Success? && (held <==> old(Takes(State(), file.pending.value)))
    {
      hide Reachable;
      PhaseFacts(State());
      UnsentIsUnapplied(State());
      var login: Option<bool> := *;
      login := if calm then Some(true) else login;
      match login {
        case None =>  // the login failed in another way: what is saved stays
          EndUnanswered();
          return Failure, false;
        case Some(false) =>  // the credentials were changed elsewhere since
          phase := Doomed;
          Advance(old(State()), LoginRefused, State());
          AbandonPending();
          return Success, false;
        case Some(true) =>
      }
      var body := pendingCommit.value;
      var dead := Depart();
      if dead {
        return Crashed, false;
      }
      var answer := Exchange(body);
      assert calm && |history| > |old(history)| ==> history[|old(history)|] == Entry(body.state, ThisDevice);
      if answer.Failed? && !RefusesCommit(answer.e) {
        return Failure, false;
      }
      PhaseFacts(State());
      if answer.Failed? {
        OthersCommit();
        var applied := Settled();
        if applied.None? {
          return Failure, false;
        }
        if applied == Some(false) {
          AbandonPending();
          return Success, false;
        }
      }
      return Success, true;
    }

    /** Pin and keys move to what the server holds, together. */
    method Promote() returns (r: Outcome)
      requires Reachable(State()) && phase.Settled?
      modifies this
      ensures Reachable(State())
      ensures match r
              case Success => phase.Idle? && file == File(Current(history), None)
              case Failure => phase.Down? && file == old(file)
              case Crashed => phase.Down? && file == old(file)
      ensures old(history) <= history
      ensures calm ==> r.Success? && history == old(history)
    {
      OthersCommit();
      PhaseFacts(State());
      var dead := MayCrash();
      if dead {
        return Crashed;
      }
      var adopted: bool := *;
      if !adopted && !calm {
        EndUnanswered();
        return Failure;
      }
      ghost var before := State();
      pendingCommit := None;
      file := File(Current(history), None);
      phase := Idle;
      Advance(before, CommitProtocol.Promote, State());
      return Success;
    }

    /** Opens the cache and goes online: a pending rotation is settled, or the answer adopted. */
    method Online() returns (r: Outcome)
      requires Reachable(State()) && phase.Down?
      modifies this
      ensures Reachable(State())
      ensures r.Success? ==> phase.Idle? && file.pending.None?
      ensures !r.Success? ==> phase.Down?
      ensures r.Failure? && old(file).pending.None? ==> file == old(file)
      ensures r.Success? &&
              (old(file).pending.Some? ==> Applied(history, old(file).pending.value.state)) ==>
                file == File(Current(history), None)
      ensures calm ==> r.Success?
    {
      pendingCommit := file.pending;
      phase := if file.pending.Some? then Found else Idle;
      Advance(old(State()), Open, State());
      if file.pending.Some? {
        r := SettlePending();
      } else {
        OthersCommit();
        PhaseFacts(State());
        ghost var before := State();
        var adopted: bool := *;
        if !adopted && !calm {
          // To the file, a start that cannot read the account's state is a process that ends.
          phase := Down;
          Advance(before, Crash, State());
          return Failure;
        }
        file := File(Current(history), None);
        Advance(before, Refresh, State());
        var dead := MayCrash();
        r := if dead then Crashed else Success;
      }
    }

    /** A device used for as long as anyone likes: whatever happens, it is never locked out. */
    method Live()
      requires Reachable(State())
      modifies this
      ensures Reachable(State()) && KeysKept(State()) && Recoverable(State())
    {
      var commands: nat := *;
      while commands > 0
        invariant Reachable(State())
      {
        commands := commands - 1;
        var dead := MayCrash();
        if dead {
          var r := Online();
          if r.Success? {
            r := Rotate();
          }
        }
      }
      ReachableMeetsInv(State());
      InvIsRecoverable(State());
    }
  }
}
