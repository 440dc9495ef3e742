/**
 The core Worker of the web vault and the UI thread's client of it (apps/web/src/core-worker.ts,
 apps/web/src/core-client.ts). Calls run one at a time from a queue; `lock` jumps the queue, and may
 run at any await of another call. Every method here is one uninterrupted stretch of code, and the callers may
 run them in any order, so what `Valid` says holds over all interleavings.
 */
module CoreWorker {
  import opened Base

  class VaultSession {
    var locked: bool

    constructor ()
      ensures !locked
    {
      locked := false;
    }
  }

  datatype Method = Login | SignupStart | SignupCancel | SignupLogin | Lock | Other

  datatype Call = Call(id: nat, method_: Method)

  /** How a call was answered. */
  datatype Outcome = Value | Code(code: string)

  const LOCKED := Code("locked")
  const WRONG_STATE := Code("wrong_state")
  const CORE_CRASHED := Code("core_crashed")

  /** What the UI thread sends: a call, or something that is none, with or without an id to answer. */
  datatype ToWorker = Called(call: Call) | Malformed(id: Option<nat>)

  /** The id a message names. */
  function Named(message: ToWorker): set<nat> {
    match message
    case Called(call) => {call.id}
    case Malformed(id) => if id.Some? then {id.value} else {}
  }

  /** A call being served, and the number of locks when its run began. */
  datatype Run = Run(call: Call, epoch: nat)

  function Ids(calls: seq<Call>): set<nat> {
    set c | c in calls :: c.id
  }

  lemma TakeFirst(queue: seq<Call>)
    requires queue != [] && forall i, j :: 0 <= i < j < |queue| ==> queue[i].id != queue[j].id
    ensures Ids(queue) == {queue[0].id} + Ids(queue[1..]) && queue[0] in queue
    ensures forall c :: c in queue[1..] ==> c in queue && c.id != queue[0].id
  {
    var rest := queue[1..];
    assert queue == [queue[0]] + rest;
    assert forall i :: 0 <= i < |rest| ==> rest[i] == queue[i + 1];
    forall id | id in Ids(queue)
      ensures id in {queue[0].id} + Ids(rest)
    {
      var c :| c in queue && c.id == id;
      assert c == queue[0] || c in rest;
    }
  }

  class Worker {
    var session: VaultSession?
    /** Whether a signup is under way. */
    var signup: bool
    var crashed: bool
    /** The number of locks so far; `created` compares a session's with it. */
    var lockEpoch: nat
    var queue: seq<Call>
    var running: Option<Run>

    ghost var received: set<nat>
    ghost var answered: map<nat, Outcome>
    /** Every session a login ever produced, with the number of locks when its run began. */
    ghost var created: map<VaultSession, nat>
    /** The sessions an instance that crashed was left with: no call reaches them any more. */
    ghost var abandoned: set<VaultSession>

    /** A session that can be used belongs to a login no lock came after; every other one is locked. */
    ghost predicate SessionsAreSafe()
      reads this, created.Keys
    {
      (session != null ==> session in created && created[session] == lockEpoch && !crashed) &&
      (forall s :: s in created && s != session && s !in abandoned ==> s.locked) &&
      (abandoned != {} ==> crashed) &&
      // Only a lock traps beside a call in progress, and it counts itself first.
      (crashed && running.Some? ==> running.value.epoch < lockEpoch)
    }

    /** Every call is queued, being served, or answered, and it is only one of them. */
    ghost predicate EachCallOnce()
      reads this
    {
      received == Ids(queue) + (if running.Some? then {running.value.call.id} else {}) + answered.Keys &&
      (forall i, j :: 0 <= i < j < |queue| ==> queue[i].id != queue[j].id) &&
      (forall c :: c in queue ==> c.id !in answered && (running.Some? ==> c.id != running.value.call.id)) &&
      (running.Some? ==> running.value.call.id !in answered && running.value.epoch <= lockEpoch)
    }

    ghost predicate Valid()
      reads this, created.Keys
    {
      SessionsAreSafe() && EachCallOnce()
    }

    constructor ()
      ensures Valid() && session == null && !crashed && received == {} && answered == map[]
    {
      session, signup, crashed, lockEpoch, queue, running := null, false, false, 0, [], None;
      received, answered, created, abandoned := {}, map[], map[], {};
    }

    /** Ends the run of the call in progress with its answer. */
    method Answer(outcome: Outcome)
      requires Valid() && running.Some?
      modifies this`running, this`answered
      ensures Valid() && running.None? && answered == old(answered)[old(running).value.call.id := outcome]
    {
      answered := answered[running.value.call.id := outcome];
      running := None;
    }

    /** A lock is served when it comes: beside a call in progress, and past those that wait. */
    method Lock(id: nat) returns (trapped: bool)
      requires Valid() && id !in received
      modifies this, session
      ensures Valid() && received == old(received) + {id} && queue == old(queue) && running == old(running)
      ensures answered == old(answered)[id := if old(crashed) || trapped then CORE_CRASHED else Value]
      ensures session == null && crashed == (old(crashed) || trapped) && created == old(created)
      ensures !trapped ==> signup == old(signup)
      ensures !old(crashed) ==> lockEpoch == old(lockEpoch) + 1
      ensures !old(crashed) && old(session) != null && !trapped ==> old(session).locked
    {
      trapped := false;
      received := received + {id};
      if crashed {
        answered := answered[id := CORE_CRASHED];
        return;
      }
      lockEpoch := lockEpoch + 1;
      if session != null {
        trapped := *;
        if trapped {
          // The locking itself trapped: the instance is in an unknown state.
          Crash();
          answered := answered[id := CORE_CRASHED];
          return;
        }
        session.locked := true;
      }
      session := null;
      answered := answered[id := Value];
    }

    /** A message other than a lock: a call waits its turn, and what is no message is answered so if it has an id. */
    method Receive(message: ToWorker)
      requires Valid() && Named(message) !! received
      requires message.Called? ==> !message.call.method_.Lock?
      modifies this`queue, this`received, this`answered
      ensures Valid() && received == old(received) + Named(message)
      ensures message.Called? ==> queue == old(queue) + [message.call] && answered == old(answered)
      ensures message.Malformed? ==> queue == old(queue)
      ensures message.Malformed? ==> answered == old(answered) + (map id | id in Named(message) :: Code(BAD_MESSAGE))
    {
      received := received + Named(message);
      match message
      case Called(call) => queue := queue + [call];
      case Malformed(id) =>
        if id.Some? {
          answered := answered[id.value := Code(BAD_MESSAGE)];
        }
    }

    /** A throw that is no error of the core: nothing is served any more. */
    method Crash()
      modifies this`crashed, this`session, this`signup, this`abandoned
      ensures crashed && session == null && !signup
      ensures abandoned == old(abandoned) + (if old(session) != null then {old(session)} else {})
    {
      if session != null {
        abandoned := abandoned + {session};
      }
      crashed := true;
      session := null;
      signup := false;
    }

    /** The next call of the queue begins to run, up to its first await. */
    method StartNext()
      requires Valid() && running.None? && queue != []
      modifies this`queue, this`running, this`answered, this`signup
      ensures Valid() && queue == old(queue)[1..]
      ensures crashed ==> running.None? && answered == old(answered)[old(queue)[0].id := CORE_CRASHED]
      ensures running.Some? ==> running.value == Run(old(queue)[0], lockEpoch)
      ensures !crashed ==>
                var call := old(queue)[0];
                if call.method_.SignupLogin? && !old(signup) then
                  running.None? && answered == old(answered)[call.id := WRONG_STATE] && !signup
                else
                  running.Some? && answered == old(answered) &&
                  signup == (old(signup) && !call.method_.SignupLogin? && !call.method_.SignupStart? &&
                             !call.method_.SignupCancel?)
    {
      var call := queue[0];
      TakeFirst(queue);
      queue := queue[1..];
      if crashed {
        answered := answered[call.id := CORE_CRASHED];
        return;
      }
      running := Some(Run(call, lockEpoch));
      if call.method_.SignupLogin? {
        if signup {
          signup := false;
        } else {
          Answer(WRONG_STATE);
        }
      } else if call.method_.SignupStart? || call.method_.SignupCancel? {
        signup := false;
      }
    }

    /**
     The server accepted the login in progress: the new session is installed, or locked at once. Locking it, or
     the session before it, may trap; then neither can be reached.
     */
    method LoginCompletes() returns (next: VaultSession, trapped: bool)
      requires Valid() && running.Some? &&
                 (running.value.call.method_.Login? || running.value.call.method_.SignupLogin?)
      modifies this, session
      ensures Valid() && fresh(next) && running.None? && lockEpoch == old(lockEpoch)
      ensures created == old(created)[next := old(running).value.epoch]
      ensures trapped ==> crashed && session == null &&
                          answered == old(answered)[old(running).value.call.id := CORE_CRASHED]
      ensures !trapped && old(running).value.epoch == old(lockEpoch) ==>
                session == next && !next.locked && (old(session) != null ==> old(session).locked) &&
                answered == old(answered)[old(running).value.call.id := Value]
      ensures !trapped && old(running).value.epoch != old(lockEpoch) ==>
                session == old(session) && next.locked &&
                    answered == old(answered)[old(running).value.call.id := LOCKED]
    {
      next := new VaultSession();
      trapped := false;
      if running.value.epoch != lockEpoch {
        trapped := *;
        if !trapped {
          next.locked := true;
          created := created[next := running.value.epoch];
          Answer(LOCKED);
        }
      } else {
        if session != null {
          trapped := *;
        }
        if !trapped {
          if session != null {
            session.locked := true;
          }
          created := created[next := running.value.epoch];
          session := next;
          Answer(Value);
        }
      }
      if trapped {
        LoginTraps(next);
      }
    }

    /** The login in progress traps, and its session is never reached. */
    method LoginTraps(next: VaultSession)
      requires Valid() && running.Some? && next !in created
      modifies this
      ensures Valid() && crashed && session == null && running.None? && lockEpoch == old(lockEpoch)
      ensures created == old(created)[next := old(running).value.epoch]
      ensures answered == old(answered)[old(running).value.call.id := CORE_CRASHED]
    {
      created := created[next := running.value.epoch];
      answered := answered[running.value.call.id := CORE_CRASHED];
      running := None;
      Crash();
      abandoned := abandoned + {next};
    }

    /** The call in progress ends: a signup was started, another call returned, or an error of the core. */
    method RunEnds(outcome: Outcome)
      requires Valid() && running.Some?
      modifies this`running, this`answered, this`signup
      ensures Valid() && running.None? && answered == old(answered)[old(running).value.call.id := outcome]
      ensures signup == (old(signup) || (old(running).value.call.method_.SignupStart? && outcome.Value?))
    {
      if running.value.call.method_.SignupStart? && outcome.Value? {
        signup := true;
      }
      Answer(outcome);
    }

    /** The call in progress traps. */
    method RunTraps()
      requires Valid() && running.Some?
      modifies this
      ensures Valid() && crashed && session == null && running.None?
      ensures answered == old(answered)[old(running).value.call.id := CORE_CRASHED]
    {
      ghost var id := running.value.call.id;
      answered := answered[id := CORE_CRASHED];
      running := None;
      Crash();
    }
  }

  // ---------- the UI thread ----------

  datatype Settled = Resolved | Rejected(code: string)

  /** A message of the Worker. */
  datatype Message = Result(id: nat, ok: bool, code: string) | AskTotp(id: nat) | Other

  const BAD_MESSAGE := "bad_message"

  class CoreClient {
    /** The calls not settled yet. */
    var pending: set<nat>
    var next: nat
    var dead: Option<string>

    /** How each call was settled, and the messages received so far. */
    ghost var settled: map<nat, Settled>
    ghost var messages: seq<Message>

    /** The answer a settled call was given: its own, or the code of the dead Worker. */
    ghost predicate OwnAnswer(id: nat)
      requires id in settled
      reads this
    {
      (exists m :: m in messages && m.Result? && m.id == id && settled[id] == SettledBy(m)) ||
      (exists code :: code in failures && settled[id] == Rejected(code))
    }

    /** The codes the client was failed with. */
    ghost var failures: set<string>

    ghost predicate Valid()
      reads this
    {
      next >= 1 &&
      (forall id :: id in pending || id in settled <==> 1 <= id < next) &&
      (forall id :: id in pending ==> id !in settled) &&
      (dead.Some? ==> pending == {} && dead.value in failures) &&
      forall id :: id in settled ==> OwnAnswer(id)
    }

    constructor ()
      ensures Valid() && pending == {} && settled == map[] && dead.None?
    {
      pending, next, dead := {}, 1, None;
      settled, messages, failures := map[], [], {};
    }

    /** Sends one call; a dead Worker rejects it at once. */
    method Call() returns (id: nat, sent: bool)
      requires Valid()
      modifies this
      ensures Valid() && id == old(next) && next == id + 1 && dead == old(dead)
      ensures sent <==> dead.None?
      ensures if sent then pending == old(pending) + {id} && settled == old(settled)
              else pending == old(pending) && settled == old(settled)[id := Rejected(dead.value)]
    {
      id := next;
      next := next + 1;
      sent := dead.None?;
      if sent {
        pending := pending + {id};
      } else {
        settled := settled[id := Rejected(dead.value)];
      }
    }

    /** One message of the Worker: it settles the call it names, if that call is still pending. */
    method Receive(m: Message)
      requires Valid()
      modifies this
      ensures Valid() && next == old(next) && dead == old(dead)
      ensures m.Result? && m.id in old(pending) ==>
                pending == old(pending) - {m.id} && settled == old(settled)[m.id := SettledBy(m)] &&
                (settled[m.id].Resolved? <==> m.ok) && (!m.ok && m.code != "" ==> settled[m.id] == Rejected(m.code))
      ensures !(m.Result? && m.id in old(pending)) ==> pending == old(pending) && settled == old(settled)
    {
      messages := messages + [m];
      assert m in messages && forall n :: n in old(messages) ==> n in messages;
      if m.Result? && m.id in pending {
        pending := pending - {m.id};
        settled := settled[m.id := SettledBy(m)];
      }
      assert forall id :: id in old(settled) ==> old(OwnAnswer(id));
    }

    /** From here on every call is rejected with this code, those that wait for an answer at once. */
    method Fail(code: string)
      requires Valid()
      modifies this
      ensures Valid() && dead == Some(code) && pending == {} && next == old(next)
      ensures settled.Keys == old(settled.Keys) + old(pending)
      ensures forall id :: id in old(pending) ==> id in settled && settled[id] == Rejected(code)
      ensures forall id :: id in old(settled) ==> id in settled && settled[id] == old(settled)[id]
    {
      dead := Some(code);
      failures := failures + {code};
      settled := settled + map id | id in pending :: Rejected(code);
      pending := {};
    }
  }

  /** How a result settles its call; a refusal without a code counts as a bad message. */
  function SettledBy(m: Message): Settled
    requires m.Result?
  {
    if m.ok then Resolved else Rejected(if m.code == "" then BAD_MESSAGE else m.code)
  }
}
