/**
 A signup and its device file: the stage-2 file is written before the commit leaves, kept while the
 outcome is open, resent by later runs, and rebuilt when the server retired the login setup it was
 registered under (crates/rizzy-cli/src/enrol.rs, crates/rizzy-cli/src/device.rs,
 crates/rizzy-domain-auth/src/signup.rs).

 `Valid` holds at every point of every run: crashes, lost answers, and copies of a body that reach
 the server long after their sender gave up. A signup that was ever registered always has its file.
 In a `calm` run nothing goes wrong, and the contracts say that the signup then succeeds.
 */
module Signup {
  import opened Base
  import opened CommitErrors

  /** A `register/finish` body: the setup its registration started under, and everything else in it. */
  datatype Body = Body(setup: nat, content: nat)

  /** The device file: none, stage 2 with the exact body, or finalised. */
  datatype File = Absent | StageTwo(body: Body) | Committed

  datatype Answer = Done | Failed(error: CliError)

  // ---------- the server ----------

  /**
   What the server makes of a body: the registered one afterwards, and the answer. `refuse` stands for
   the checks made first (the signed objects against the clock, the reservation of the name); then a
   repeat succeeds whatever its setup; then the setup must not be retired.
   */
  function Handle(registered: Option<Body>, retired: set<nat>, body: Body, refuse: Option<ErrorCode>)
    : (Option<Body>, Answer)
  {
    if refuse.Some? then (registered, Failed(Server(refuse.value)))
    else if registered.Some? then
      (registered, if registered.value.content == body.content then Done else Failed(Server(InvalidRequest)))
    else if body.setup in retired then (registered, Failed(Server(SetupRetired)))
    else (Some(body), Done)
  }

  /** The checks made first never answer `setup_retired`. */
  predicate Checks(refuse: Option<ErrorCode>) {
    refuse.Some? ==> !refuse.value.SetupRetired?
  }

  /** What each answer proves about the server, however the body got there. */
  lemma AnswersProve(registered: Option<Body>, retired: set<nat>, body: Body, refuse: Option<ErrorCode>)
    requires Checks(refuse)
    ensures
      var (after, answer) := Handle(registered, retired, body, refuse);
      (answer.Done? <==> after.Some? && after.value.content == body.content && refuse.None?) &&
      (answer.Failed? ==> after == registered) &&
      (answer.Failed? && RestartsRegistration(answer.error) <==>
         registered.None? && body.setup in retired && refuse.None?) &&
      (answer.Failed? && RestartsRegistration(answer.error) ==>
         forall later, code: Option<ErrorCode> :: retired <= later ==> Handle(None, later, body, code).0 == None)
  {
  }

  datatype Departure = Departure(body: Body, file: File)

  datatype Outcome = Success | Failure(error: CliError) | Crashed

  /** A refusal proves that the handled copy was not applied; it says nothing of earlier copies. */
  predicate Refused(answer: Answer) {
    answer.Failed? && RefusesCommit(answer.error)
  }

  predicate Restarts(answer: Answer) {
    answer.Failed? && RestartsRegistration(answer.error)
  }

  /** One signup: its device file, the server, and the copies of its bodies on the way. */
  class SignupRun {
    /** No crash, no lost answer, no setup retired meanwhile, and no check of the server refuses. */
    const calm: bool
    var registered: Option<Body>
    var retired: set<nat>
    var copies: multiset<Body>
    var file: File
    /** The setup a new registration starts under, and how many bodies were built. */
    var currentSetup: nat
    var built: nat

    ghost var everApplied: set<Body>
    ghost var departures: seq<Departure>

    /** Every registered body is in the file or finalised, and no other copy can be applied any more. */
    ghost predicate Valid()
      reads this
    {
      everApplied == (if registered.Some? then {registered.value} else {}) &&
      (registered.Some? ==> file.Committed? || file == StageTwo(registered.value)) &&
      (file.Committed? ==> registered.Some?) &&
      (forall c :: c in copies ==> registered.Some? || file == StageTwo(c) || c.setup in retired) &&
      (file.StageTwo? ==> file.body.content < built) &&
      (forall d :: d in departures ==> d.file == StageTwo(d.body)) &&
      (forall setup :: setup in retired ==> setup < currentSetup)
    }

    constructor (setup: nat, calm: bool)
      ensures Valid() && file.Absent? && copies == multiset{} && departures == []
      ensures registered.None? && retired == {} && currentSetup == setup && built == 0 && this.calm == calm
    {
      this.calm := calm;
      registered, retired, copies, file, currentSetup, built := None, {}, multiset{}, Absent, setup, 0;
      everApplied, departures := {}, [];
    }

    /** The server handles one copy. */
    method Receive(body: Body) returns (answer: Answer, ghost refuse: Option<ErrorCode>)
      requires Valid() && body in copies
      modifies this`registered, this`copies, this`everApplied
      ensures Valid() && copies == old(copies) - multiset{body} && Checks(refuse)
      ensures (registered, answer) == Handle(old(registered), retired, body, refuse)
      ensures calm ==> refuse.None?
    {
      var checks: bool, code: ErrorCode := *, *;
      var said := if checks && !code.SetupRetired? && !calm then Some(code) else None;
      refuse := said;
      AnswersProve(registered, retired, body, refuse);
      var handled := Handle(registered, retired, body, said);
      answer := handled.1;
      if handled.0 != registered {
        everApplied := {body};
      }
      registered := handled.0;
      copies := copies - multiset{body};
    }

    /** What the world leaves alone: nothing is registered that was not on its way under a live setup. */
    twostate predicate OnlyLiveCopies()
      reads this
    {
      old(retired) <= retired && copies <= old(copies) &&
      (old(registered).Some? || copies == old(copies) ==> registered == old(registered)) &&
      (registered != old(registered) ==>
          registered.Some? && registered.value in old(copies) && registered.value.setup !in old(retired))
    }

    /** Copies on the way reach the server, and setups are retired, any number of times. */
    method World()
      requires Valid()
      modifies this`registered, this`retired, this`copies, this`currentSetup, this`everApplied
      ensures Valid() && OnlyLiveCopies()
      ensures calm ==> registered == old(registered) && retired == old(retired) && copies == old(copies) &&
                       currentSetup == old(currentSetup)
    {
      if calm {
        return;
      }
      var rounds: nat := *;
      while rounds > 0
        invariant Valid() && OnlyLiveCopies()
      {
        var retire: bool := *;
        if retire {
          retired := retired + {currentSetup};
          currentSetup := currentSetup + 1;
        } else if copies != multiset{} {
          var c :| c in copies;
          var answer;
          ghost var refuse;
          ghost var before := copies;
          answer, refuse := Receive(c);
          assert copies != before;
        }
        rounds := rounds - 1;
      }
    }

    /**
     Sends the body of the file. The copy may be handled at once, late or never, and its answer may be
     lost; a crash may come first.
     */
    method Post(body: Body) returns (answer: Answer, dead: bool)
      requires Valid() && file == StageTwo(body)
      modifies this`registered, this`retired, this`copies, this`currentSetup, this`everApplied, this`departures
      ensures Valid() && departures == old(departures) + [Departure(body, file)]
      ensures !dead && answer.Done? ==> registered == Some(body)
      ensures !dead && Restarts(answer) ==>
                registered.None? && body.setup in retired && forall c :: c in copies ==> c.setup in retired
      ensures !dead && Refused(answer) && old(copies) == multiset{} && old(registered).None? ==>
                registered.None? && copies == multiset{}
      ensures calm ==> !dead && currentSetup == old(currentSetup) && retired == old(retired) &&
                       (registered, answer) == Handle(old(registered), retired, body, None)
    {
      departures := departures + [Departure(body, file)];
      copies := copies + multiset{body};
      answer, dead := Failed(Network), *;
      dead := dead && !calm;
      if !dead {
        answer := Travels(body);
        dead := *;
        dead := dead && !calm;
      }
    }

    /** A copy on its way reaches the server, or does not yet. */
    method Travels(body: Body) returns (answer: Answer)
      requires Valid() && file == StageTwo(body) && body in copies
      modifies this`registered, this`retired, this`copies, this`currentSetup, this`everApplied
      ensures Valid()
      ensures answer.Done? ==> registered == Some(body)
      ensures Restarts(answer) ==>
                registered.None? && body.setup in retired && forall c :: c in copies ==> c.setup in retired
      ensures Refused(answer) && old(copies) == multiset{body} && old(registered).None? ==>
                registered.None? && copies == multiset{}
      ensures calm ==> currentSetup == old(currentSetup) && retired == old(retired) &&
                       (registered, answer) == Handle(old(registered), retired, body, None)
    {
      World();
      answer := Failed(Network);
      var reaches: bool := *;
      if (reaches || calm) && body in copies {
        assert old(copies) == multiset{body} ==> copies == multiset{body};
        answer := Handled(body);
      }
    }

    /** A sent copy is handled, and its answer comes back unless it is lost. */
    method Handled(body: Body) returns (answer: Answer)
      requires Valid() && file == StageTwo(body) && body in copies
      modifies this`registered, this`retired, this`copies, this`currentSetup, this`everApplied
      ensures Valid()
      ensures answer.Done? ==> registered == Some(body)
      ensures Restarts(answer) ==>
                registered.None? && body.setup in retired && forall c :: c in copies ==> c.setup in retired
      ensures Refused(answer) && old(copies) == multiset{body} && old(registered).None? ==>
                registered.None? && copies == multiset{}
      ensures calm ==> currentSetup == old(currentSetup) && retired == old(retired) &&
                       (registered, answer) == Handle(old(registered), retired, body, None)
    {
      ghost var held, way := registered, copies;
      ghost var refuse;
      answer, refuse := Receive(body);
      AnswersProve(held, retired, body, refuse);
      assert way == multiset{body} ==> copies == multiset{};
      label Answered:
      World();
      var lost: bool := *;
      if lost && !calm {
        answer := Failed(Network);
      }
    }

    /** `register/start` and the building of a body under the setup it was answered with. */
    method Build() returns (body: Body)
      requires Valid()
      modifies this`built
      ensures Valid() && built == old(built) + 1 && body == Body(currentSetup, old(built))
    {
      body := Body(currentSetup, built);
      built := built + 1;
    }

    /** Signs up: the stage-2 file first, then the commit; only an API refusal removes the file again. */
    method SignUp() returns (r: Outcome)
      requires Valid() && file.Absent? && copies == multiset{}
      modifies this
      ensures Valid()
      ensures r.Success? ==> file.Committed?
      ensures file.Absent? ==> everApplied == {} && copies == multiset{}
      ensures r.Failure? && !RefusesCommit(r.error) ==> file.StageTwo?
      ensures calm ==> r.Success? && registered == Some(Body(old(currentSetup), old(built)))
    {
      var body := Build();
      var dead: bool := *;
      if dead && !calm {
        return Crashed;
      }
      file := StageTwo(body);
      dead := *;
      if dead && !calm {
        return Crashed;
      }
      var answer;
      answer, dead := Post(body);
      if dead {
        return Crashed;
      }
      match answer
      case Done =>
        file := Committed;
        return Success;
      case Failed(e) =>
        if RefusesCommit(e) {
          file := Absent;
        }
        return Failure(e);
    }

    /** A body refused with `setup_retired` is rebuilt under a new registration, stored over the old one, and resent. */
    method RestartPendingSignup(stored: Body) returns (answer: Answer, dead: bool)
      requires Valid() && file == StageTwo(stored) && registered.None?
      requires forall c :: c in copies ==> c.setup in retired
      modifies this
      ensures Valid() && file.StageTwo?
      ensures !dead && answer.Done? ==> registered == Some(file.body)
      ensures calm ==> !dead && answer.Done? && registered == Some(Body(old(currentSetup), old(built)))
    {
      answer, dead := Failed(Network), *;
      dead := dead && !calm;
      if dead {
        return;
      }
      var body := Build();
      file := StageTwo(body);
      answer, dead := Post(body);
    }

    /** Opens a stage-2 file: its body is resent, restarted at most once, and finalised when it is registered. */
    method Open() returns (r: Outcome)
      requires Valid() && file.StageTwo?
      modifies this
      ensures Valid() && !file.Absent?
      ensures r.Success? <==> file.Committed?
      ensures calm ==> r.Success? &&
                       registered == if old(registered).Some? then old(registered)
                                     else if old(file.body.setup) in old(retired) then
                                       Some(Body(old(currentSetup), old(built)))
                                     else Some(old(file.body))
    {
      var answer, dead := Post(file.body);
      if dead {
        return Crashed;
      }
      if Restarts(answer) {
        answer, dead := RestartPendingSignup(file.body);
        if dead {
          return Crashed;
        }
      }
      match answer
      case Failed(e) => return Failure(e);
      case Done =>
        dead := *;
        if dead && !calm {
          return Crashed;
        }
        file := Committed;
        return Success;
    }
  }

  /**
   A whole life of a signup: it is made once, and its file is opened by later runs as often as need be.
   Whatever was ever registered is in the file or finalised, and every body that left was on disk.
   */
  method Live(setup: nat, runs: nat, calm: bool) returns (s: SignupRun)
    ensures s.Valid()
    ensures s.registered.Some? ==> s.file.Committed? || s.file == StageTwo(s.registered.value)
    ensures s.file.Absent? ==> s.everApplied == {}
    ensures |s.everApplied| <= 1
    ensures forall d :: d in s.departures ==> d.file == StageTwo(d.body)
    ensures calm ==> s.file.Committed? && s.registered == Some(Body(setup, 0))
  {
    s := new SignupRun(setup, calm);
    var first := s.SignUp();
    var i := 0;
    while i < runs && s.file.StageTwo?
      invariant s.Valid() && fresh(s) && (s.file.Absent? ==> s.everApplied == {})
      invariant calm ==> s.calm && s.file.Committed? && s.registered == Some(Body(setup, 0))
    {
      s.World();
      var outcome := s.Open();
      i := i + 1;
    }
  }
}
