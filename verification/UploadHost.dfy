/**
 The device's upload code in its imperative form: the loop of `upload` around committed writes, the
 loops that mark a batch sent and apply an answer, and what they call (crates/rizzy-cli/src/device.rs,
 crates/rizzy-client/src/sync.rs).

 The server's restores, other devices' healing and the network are the nondeterministic choices `*`;
 a crash may cut any method short between two commits. Every step a method takes is one of `Uploads`
 that `UploadGate` lets the code take, so the results proved in these modules and in `UploadLife` hold at
 every point of its execution. For a `calm` device nothing goes wrong, and the contracts say what is done.
 */
module UploadHost {
  import opened Base
  import opened CacheRows
  import opened Uploads
  import opened UploadGate
  import opened UploadLife
  import opened UploadProgress

  datatype Outcome = Success | Failure | Crashed

  datatype CallOutcome = Replied(reply: Reply, head: nat) | Unanswered | Died

  /** What `upload_request` returns, its writes committed. */
  datatype Built = Request(request: Request) | Nothing | VaultKeyRotated | HealingRequired | FetchRequired | Refused

  method AnyId() returns (id: Id)
  {
    var bytes: Blob := [];
    while |bytes| < 16
      invariant |bytes| <= 16
    {
      var b: Byte := *;
      bytes := bytes + [b];
    }
    id := bytes;
  }

  /** The server's rules refuse at most one record of a request: nothing after it is processed. */
  method AnyRefusal() returns (refuse: nat -> Option<Refusal>)
  {
    var at: nat := *;
    var any: bool, refusal: Refusal := *, *;
    refuse := k => if any && k == at then Some(refusal) else None;
  }

  /** `record_sent` for `n` ops from `from` on: an earlier send without an answer stays noted. */
  method NoteSent(unanswered: map<nat, Id>, from: nat, n: nat, generation: Id) returns (noted: map<nat, Id>)
    ensures noted == Noted(unanswered, from, n, generation)
  {
    noted := unanswered;
    var i := 0;
    while i < n
      invariant 0 <= i <= n
      invariant Noted(noted, from + i, n - i, generation) == Noted(unanswered, from, n, generation)
    {
      if from + i !in noted {
        noted := noted[from + i := generation];
      }
      i := i + 1;
    }
  }

  /** `journal_sent`: each row the upload carries is marked sent. */
  method JournalSent(m: Memory, rows: seq<OpRow>, n: nat) returns (marked: seq<OpRow>)
    requires Markable(m, rows, n)
    ensures marked == MarkedRows(m, rows, n)
  {
    marked := rows;
    var k := m.acked;
    while k < m.acked + n
      invariant m.acked <= k <= m.acked + n && |marked| == |rows|
      invariant forall j :: m.acked <= j < k ==> marked[j] == SentRow(rows[j], m.last).value
      invariant forall j :: 0 <= j < |rows| && !(m.acked <= j < k) ==> marked[j] == rows[j]
    {
      marked := marked[k := SentRow(rows[k], m.last).value];
      k := k + 1;
    }
  }

  /** Applies the results of an upload one by one; `None` when a guard would refuse the commit. */
  method ApplyResults(d: Device, position: nat, results: seq<UploadResult>, generation: Id) returns (r: Option<Device>)
    requires position + |results| <= |d.rows|
    ensures r == Answered(d, position, results, generation)
  {
    var now := d;
    var i := 0;
    while i < |results|
      invariant 0 <= i <= |results| && |now.rows| == |d.rows|
      invariant Answered(now, position + i, results[i..], generation) == Answered(d, position, results, generation)
    {
      assert results[i..][1..] == results[i + 1..];
      if Taken(results[i]) {
        var next := Acknowledge(now, position + i);
        if next.None? {
          return None;
        }
        now := next.value;
      } else {
        now := NotStored(now, position + i, results[i], generation);
      }
      i := i + 1;
    }
    r := Some(now);
  }

  /** One device with its file, and the server it talks to. */
  class Uploader {
    /** No crash, no restore, nobody else heals, every request is answered, and refused for a stale epoch only. */
    const calm: bool
    /** The vault's epochs, one after the other. */
    const epochs: nat -> Epoch

    var server: Server
    /** The op rows and the generation on disk. */
    var file: File
    /** `self.vault.log`, and what `self.vault` keeps beside it. */
    var mem: Memory
    /** `server_heads` and `server_behind`: what the last Fetch of this process showed. */
    var view: Option<View>
    /** The number of the epoch this device has adopted. */
    var adopted: nat

    ghost var phase: Phase
    ghost var seen: nat

    ghost function State(): System
      reads this
    {
      System(server, file, phase)
    }

    ghost function Now(): Process
      reads this
    {
      Process(State(), seen, view)
    }

    function Epoch_(): Epoch
      reads this
    {
      epochs(adopted)
    }

    ghost predicate Valid()
      reads this
    {
      Lived(Any, Now()) && (!phase.Down? ==> phase.mem == mem)
    }

    /** An opened device with nothing in flight. */
    ghost predicate Ready()
      reads this
    {
      Valid() && phase == Idle(mem)
    }

    /** The step from `before` is one the code may take, or not the device's. */
    ghost method Take(before: Process, a: Action)
      requires Lived(Any, before) && MovesBy(Any, Epoch_(), before, a, Now())
      ensures Lived(Any, Now())
    {
      Act(Any, Epoch_(), before, a, Now());
    }

    constructor (generation: Id, calm: bool, epochs: nat -> Epoch)
      ensures Valid() && phase.Down? && this.calm == calm && this.epochs == epochs && file == File([], None)
    {
      this.calm := calm;
      this.epochs := epochs;
      server := Server([generation], [], {[]}, {});
      file := File([], None);
      mem := Memory(map[], None, map[], None, 0, false);
      view := None;
      adopted := 0;
      phase := Down;
      seen := 0;
      new;
      Begins(Any, Now());
    }

    /** The server is restored, and other devices heal it, any number of times. */
    method World()
      requires Valid()
      modifies this`server
      ensures Valid() && (calm ==> server == old(server))
    {
      hide Lived;
      var rounds: nat := *;
      while rounds > 0 && !calm
        invariant Valid() && (calm ==> server == old(server))
      {
        ghost var before := Now();
        LivedBasics(before);
        var restore: bool := *;
        if restore {
          var generation := AnyId();
          if generation !in server.eras && server.past != {} {
            var chain :| chain in server.past;
            server := server.(eras := server.eras + [generation], stored := chain);
            Take(before, Restore(chain, generation));
          }
        } else if server.accepted != {} {
          var a :| a in server.accepted;
          if a.position == |server.stored| {
            server := Grown(server, server.stored + [a.statement]);
            Take(before, OthersHeal(a.statement));
          }
        }
        rounds := rounds - 1;
      }
    }

    /** The process may die here, with everything it holds in memory. */
    method MayCrash() returns (dead: bool)
      requires Valid()
      modifies this`phase, this`view
      ensures Valid() && if dead then phase.Down? else phase == old(phase) && view == old(view)
      ensures calm ==> !dead
    {
      dead := *;
      dead := dead && !calm;
      if dead {
        Die();
      }
    }

    /** The process ends; what is committed stays. */
    method Die()
      requires Valid()
      modifies this`phase, this`view
      ensures Valid() && phase.Down?
    {
      hide Lived;
      LivedBasics(Now());
      phase := Down;
      view := None;
      Take(old(Now()), Crash);
    }

    /** Starts a process on the file: what it knows of earlier sends is what the rows say. */
    method Open()
      requires Valid() && phase.Down?
      modifies this`phase, this`mem, this`view
      ensures Ready() && mem == Loaded(file) && view.None?
    {
      hide Lived;
      LivedBasics(Now());
      mem := Loaded(file);
      phase := Idle(mem);
      view := None;
      Take(old(Now()), Uploads.Open);
    }

    /** Runs an edit: a new own op, committed before the method returns, unless the vault is read-only. */
    method Edit(row: OpRow) returns (written: bool)
      requires Ready() && row.own.Unsent? && row.sentGeneration.None?
      modifies this`file
      ensures Ready() && written == !(view.Some? && view.value.behind)
      ensures file == if written then old(file).(rows := old(file.rows) + [row]) else old(file)
    {
      hide Lived;
      if view.Some? && view.value.behind {
        return false;
      }
      LivedBasics(Now());
      file := file.(rows := file.rows + [row]);
      Take(old(Now()), Uploads.Edit(row));
      return true;
    }

    /** The account answer of a rotation elsewhere is processed: a later epoch is adopted, or nothing could be read. */
    method Refresh() returns (r: Outcome)
      requires Ready()
      modifies this`adopted
      ensures Ready() && !r.Crashed? && adopted >= old(adopted)
      ensures calm ==> r.Success? && adopted == old(adopted)
    {
      var served: bool, later: nat := *, *;
      if !served && !calm {
        return Failure;
      }
      if !calm {
        adopted := adopted + later;
      }
      return Success;
    }

    /** The request reaches the server, which handles it. */
    method Arrives(request: Request) returns (reply: Reply, head: nat)
      requires Valid() && phase == InFlight(mem, request, None)
      modifies this`server, this`phase, this`seen
      ensures Valid() && phase == InFlight(mem, request, Some(reply)) && Fits(request, reply)
      ensures request.Fetch? ==> head == seen == |old(server).stored|
      ensures calm ==> |old(server).eras| > 0 && server.eras == old(server).eras &&
                       (server.stored, reply) == Handled(old(server), request, Refusals(Epoch_(), request))
    {
      hide Lived;
      ghost var before := Now();
      LivedBasics(before);
      var refuse := AnyRefusal();
      if calm {
        refuse := Refusals(Epoch_(), request);
      }
      head := |server.stored|;
      var (stored, reply') := Handled(server, request, refuse);
      reply := reply';
      HandledFits(server, request, refuse);
      server := Grown(server, stored);
      phase := InFlight(mem, request, Some(reply));
      seen := if request.Fetch? then head else seen;
      Take(before, Handle(refuse));
    }

    /** One exchange: the request may be handled or lost, and so may its answer. */
    method Call(request: Request) returns (out: CallOutcome)
      requires Valid() && phase == Prepared(mem, request)
      modifies this`server, this`phase, this`view, this`seen
      ensures Valid()
      ensures match out
              case Replied(reply, head) =>
                phase == InFlight(mem, request, Some(reply)) && Fits(request, reply) && view == old(view) &&
                (request.Fetch? ==> head == seen)
              case Unanswered => phase == Idle(mem) && view == old(view)
              case Died => phase.Down?
      ensures calm ==> out.Replied? && |old(server).eras| > 0 && server.eras == old(server).eras &&
                       (server.stored, out.reply) == Handled(old(server), request, Refusals(Epoch_(), request)) &&
                       (request.Fetch? ==> out.head == |old(server).stored|)
    {
      hide Lived, Handled;
      var dead := MayCrash();
      if dead {
        return Died;
      }
      ghost var before := Now();
      LivedBasics(before);
      phase := InFlight(mem, request, None);
      Take(before, Send);
      World();
      dead := MayCrash();
      if dead {
        return Died;
      }
      var reaches: bool := *;
      if reaches || calm {
        var reply, head := Arrives(request);
        World();
        dead := MayCrash();
        if dead {
          return Died;
        }
        var answered: bool := *;
        if answered || calm {
          return Replied(reply, head);
        }
      }
      before := Now();
      LivedBasics(before);
      phase := Idle(mem);
      Take(before, Lost);
      return Unanswered;
    }

    /** The applied reply is committed: rows and memory move together, or the process dies. */
    method Conclude(d: Device, request: Request, reply: Reply, head: nat) returns (dead: bool)
      requires Valid() && phase == InFlight(mem, request, Some(reply))
      requires Applied(file.rows, mem, request, reply) == Some(d) && (request.Fetch? ==> head == seen)
      modifies this`file, this`mem, this`phase, this`view
      ensures Valid()
      ensures if dead then phase.Down? && file == old(file) && mem == old(mem)
              else phase == Idle(mem) && file.rows == d.rows && mem == d.mem &&
                   view == if request.Fetch? then Some(View(head, head < old(mem.acked))) else old(view)
      ensures calm ==> !dead
    {
      hide Lived, Applied;
      dead := MayCrash();
      if !dead {
        ghost var before := Now();
        LivedBasics(before);
        view := if request.Fetch? then Some(View(head, head < mem.acked)) else view;
        file := File(d.rows, d.mem.last);
        mem := d.mem;
        phase := Idle(mem);
        Take(before, Answer);
      }
    }

    /** A complete Fetch. */
    method FetchNow() returns (r: Outcome)
      requires Ready()
      modifies this
      ensures Valid() && if r.Crashed? then phase.Down? else Ready()
      ensures file.rows == old(file.rows) && adopted == old(adopted)
      ensures match r
              case Success => view.Some? && mem == old(mem).(last := mem.last) && mem.last.Some?
              case Failure => view == old(view) && mem == old(mem)
              case Crashed => mem == old(mem)
      ensures calm ==> r.Success? && Fresh() && server.stored == old(server.stored) && server.eras == old(server.eras)
    {
      hide Lived;
      ghost var before := Now();
      LivedBasics(before);
      phase := Prepared(mem, Fetch);
      Take(before, PrepareFetch);
      var out := Call(Fetch);
      match out
      case Died => return Crashed;
      case Unanswered => return Failure;
      case Replied(reply, head) =>
        var d := Device(file.rows, mem.(last := Some(reply.generation)));
        var dead := Conclude(d, Fetch, reply, head);
        return if dead then Crashed else Success;
    }

    /** What the process knows of the server is how the server is. */
    ghost predicate Fresh()
      reads this
    {
      |server.eras| > 0 && mem.last == Some(Current(server)) &&
      view == Some(View(|server.stored|, |server.stored| < mem.acked))
    }

    // ---------- the own chain after a restore ----------

    /** `stale_republish`: whether the plan of a stale answer names an op to send back first. */
    method StaleRepublish(head: nat) returns (some: bool)
      requires mem.acked <= |file.rows|
      ensures some <==> Republishes(Epoch_(), mem, file.rows, head)
    {
      if mem.staleFrom.None? || mem.staleFrom.value >= |file.rows| ||
         !Epoch_().stale(file.rows[mem.staleFrom.value].statement) {
        return false;
      }
      var k: nat := mem.staleFrom.value;
      while k < |file.rows|
        invariant mem.staleFrom.value <= k <= |file.rows|
        invariant forall j | mem.staleFrom.value <= j < k :: !Awaits(Epoch_(), mem, file.rows, head, j)
      {
        if mem.acked <= k && head <= k && Epoch_().stale(file.rows[k].statement) && MayHaveBeenServed(mem, k) {
          assert Awaits(Epoch_(), mem, file.rows, head, k);
          return true;
        }
        k := k + 1;
      }
      return false;
    }

    /** `needs_healing`. */
    ghost predicate NeedsHealing()
      reads this
    {
      view.Some? && (view.value.behind || Republishes(Epoch_(), mem, file.rows, view.value.head))
    }

    /** `own_range`: the own ops from the server's head on that may have been served, up to the first that is not. */
    method HealRange(from: nat) returns (n: nat)
      ensures n == 0 <==> !(from < |file.rows| && MayHaveBeenServed(mem, from))
      ensures n > 0 ==> IsRange(mem, file.rows, from, n)
    {
      n := 0;
      while from + n < |file.rows| && MayHaveBeenServed(mem, from + n)
        invariant n > 0 ==> from + n <= |file.rows|
        invariant forall k :: from <= k < from + n ==> MayHaveBeenServed(mem, k)
      {
        n := n + 1;
      }
      assert n > 0 ==> MayHaveBeenServed(mem, from);
    }

    /** `healing_request`: building it writes nothing. */
    method HealingRequest(from: nat, n: nat) returns (request: Request)
      requires Ready() && mem.last.Some? && NeedsHealing() && from == view.value.head
      requires IsRange(mem, file.rows, from, n) && n <= MAX_RECORDS
      modifies this`phase
      ensures Valid() && phase == Prepared(mem, request)
      ensures request == Heal(from, Statements(file.rows[from..from + n]))
    {
      hide Lived, Republishes;
      ghost var before := Now();
      LivedBasics(before);
      request := Heal(from, Statements(file.rows[from..from + n]));
      phase := Prepared(mem, request);
      assert Gate(Epoch_(), before, PrepareHeal(from, n));
      Take(before, PrepareHeal(from, n));
    }

    /** What a call of `HealNow` finds to do: nothing, a range to send back, or more or less than it can send. */
    ghost predicate MustHeal(n: nat)
      reads this
    {
      NeedsHealing() && IsRange(mem, file.rows, view.value.head, n)
    }

    /**
     Heals the own chain if the last Fetch calls for it, and fetches again. After success the vault is
     not read-only; a range that fits into one request was sent back, and acknowledged to its last op.
     */
    method HealNow() returns (r: Outcome)
      requires Ready() && view.Some? && mem.last.Some?
      modifies this
      ensures Valid() && |file.rows| == old(|file.rows|) && adopted == old(adopted)
      ensures if r.Crashed? then phase.Down? else Ready() && view.Some? && mem.last.Some? && mem.acked >= old(mem.acked)
      ensures Statements(file.rows) == old(Statements(file.rows)) && mem.staleFrom == old(mem.staleFrom)
      ensures r.Success? ==> !view.value.behind
      ensures old(!NeedsHealing()) ==> r.Success?
      ensures (forall n: nat :: !old(MustHeal(n))) ==>
                Now() == old(Now()) && r == if view.value.behind then Failure else Success
      ensures forall n: nat :: old(MustHeal(n)) ==>
                (n > MAX_RECORDS ==> r.Failure? && Now() == old(Now())) &&
                (r.Success? ==> n <= MAX_RECORDS && mem.acked >= old(view.value.head) + n && !NeedsHealing()) &&
                (calm && n <= MAX_RECORDS && old(view.value.head <= |server.stored|) ==>
                   !r.Crashed? && (r.Success? <==> !NeedsHealing()) && Fresh() &&
                   mem.acked == Max(old(mem.acked), old(view.value.head) + n) && server.eras == old(server.eras) &&
                   |server.stored| == Max(old(|server.stored|), old(view.value.head) + n))
    {
      hide Lived;
      LivedBasics(Now());
      var republish := StaleRepublish(view.value.head);
      if !view.value.behind && !republish {
        return Success;
      }
      var n := HealRange(view.value.head);
      if n == 0 {
        // Nothing of the own chain to send back: an error only for a server that is behind.
        return if view.value.behind then Failure else Success;
      }
      assert MustHeal(n);
      if n > MAX_RECORDS {
        return Failure;
      }
      r := SendBack(n);
    }

    /** The range goes out, its acceptance is committed, and a Fetch shows whether it was enough. */
    method SendBack(n: nat) returns (r: Outcome)
      requires Ready() && mem.last.Some? && MustHeal(n) && n <= MAX_RECORDS
      modifies this
      ensures Valid() && |file.rows| == old(|file.rows|) && adopted == old(adopted)
      ensures if r.Crashed? then phase.Down? else Ready() && view.Some? && mem.last.Some? && mem.acked >= old(mem.acked)
      ensures Statements(file.rows) == old(Statements(file.rows)) && mem.staleFrom == old(mem.staleFrom)
      ensures r.Success? ==> mem.acked >= old(view.value.head) + n && !NeedsHealing()
      ensures calm && old(view.value.head <= |server.stored|) ==>
                !r.Crashed? && (r.Success? <==> !NeedsHealing()) && Fresh() &&
                mem.acked == Max(old(mem.acked), old(view.value.head) + n) && server.eras == old(server.eras) &&
                |server.stored| == Max(old(|server.stored|), old(view.value.head) + n)
    {
      hide Lived;
      var request := HealingRequest(view.value.head, n);
      LivedBasics(Now());
      if calm && view.value.head <= |server.stored| {
        HealingIsAccepted(Epoch_(), Now());
      }
      var out := Call(request);
      match out
      case Died => return Crashed;
      case Unanswered => return Failure;
      case Replied(reply, head) =>
        HealFacts(Now());
        var dead := Conclude(Applied(file.rows, mem, request, reply).value, request, reply, head);
        if dead {
          return Crashed;
        }
        if reply.HealRefused? {
          return Failure;
        }
        var fetched := FetchNow();
        if !fetched.Success? {
          return fetched;
        }
        LivedBasics(Now());
        var more := StaleRepublish(view.value.head);
        return if view.value.behind || more then Failure else Success;
    }

    method FetchAndHeal() returns (r: Outcome)
      requires Ready()
      modifies this
      ensures Valid() && |file.rows| == old(|file.rows|) && adopted == old(adopted)
      ensures if r.Crashed? then phase.Down? else Ready() && mem.acked >= old(mem.acked)
      ensures r.Success? ==> view.Some? && !view.value.behind && mem.last.Some?
    {
      r := FetchNow();
      if r.Success? {
        r := HealNow();
      }
    }

    // ---------- the upload ----------

    /**
     What a stale answer asks for: the later ops still below the new epoch are re-issued, except those that may
     have been accepted, of which one above the server's head waits for healing.
     */
    method StalePlan(head: nat) returns (reissues: map<nat, OpRow>, waiting: bool, admitted: bool)
      requires mem.staleFrom.Some? && mem.staleFrom.value < |file.rows| && mem.acked <= |file.rows|
      requires Epoch_().stale(file.rows[mem.staleFrom.value].statement)
      ensures waiting <==> Republishes(Epoch_(), mem, file.rows, head)
      ensures !waiting ==> IsPlan(Epoch_(), mem, file.rows, head, reissues)
      ensures admitted <==> Reissuable(mem, file.rows, reissues)
    {
      hide Lived;
      waiting := StaleRepublish(head);
      reissues, admitted := map[], true;
      var k: nat := mem.staleFrom.value;
      while k < |file.rows|
        invariant mem.staleFrom.value <= k <= |file.rows|
        invariant forall j | j in reissues ::
                    (j < k && InPlan(Epoch_(), mem, file.rows, j) &&
                        reissues[j] == Epoch_().anew(file.rows[j].statement))
        invariant forall j | mem.staleFrom.value <= j < k && InPlan(Epoch_(), mem, file.rows, j) :: j in reissues
        invariant admitted <==> Reissuable(mem, file.rows, reissues)
      {
        if Epoch_().stale(file.rows[k].statement) && !MayHaveBeenServed(mem, k) {
          var row := Epoch_().anew(file.rows[k].statement);
          var stale := if k in mem.answered then Some(mem.answered[k]) else None;
          admitted := admitted && ReissueRow(file.rows[k], row, stale).Some?;
          reissues := reissues[k := row];
        }
        k := k + 1;
      }
    }

    /**
     `reissue_stale` and `upload_request`, and the commit of what they wrote. A read-only vault uploads
     nothing; before the new vault key is adopted, or a healing request has gone out, nothing is re-issued.
     */
    method UploadRequest() returns (built: Built, ghost reissues: map<nat, OpRow>)
      requires Ready() && view.Some?
      modifies this`file, this`mem, this`phase, this`view
      ensures Valid() && |file.rows| == old(|file.rows|) && mem.acked == old(mem.acked)
      ensures !phase.Down? ==> view == old(view)
      ensures match built
              case Request(request) =>
                phase == Prepared(mem, request) && request.Upload? && |request.records| > 0 &&
                old(mem.acked <= |file.rows| &&
                  Gate(Epoch_(), Now(), PrepareUpload(reissues, BatchSize(mem, file.rows)))) &&
                Next(old(State()), PrepareUpload(reissues, |request.records|), State())
              case Nothing =>
                Ready() && file == old(file) &&
                (if view.value.behind then mem == old(mem) else mem.acked == |file.rows|)
              case VaultKeyRotated => Now() == old(Now()) && Ready() && !view.value.behind && !AtNewEpoch()
              case HealingRequired => Now() == old(Now()) && Ready() && !view.value.behind && NeedsHealing()
              case FetchRequired => Now() == old(Now()) && Ready() && !view.value.behind && mem.last.None?
              case Refused =>
                phase.Down? && file == old(file) && old(mem.staleFrom.Some? && !view.value.behind &&
                !Reissuable(mem, file.rows, reissues) && IsPlan(Epoch_(), mem, file.rows, view.value.head, reissues))
      ensures old(!view.value.behind && mem.last.Some? && AtNewEpoch() && !NeedsHealing()) ==>
                built.Request? || built.Nothing? || built.Refused?
      ensures old(!view.value.behind && Welcome(Epoch_(), State())) ==>
                (built.Request? || built.Nothing?) && Welcome(Epoch_(), State())
    {
      hide Lived;
      reissues := map[];
      ghost var before := Now();
      LivedBasics(before);
      if view.value.behind {
        return Nothing, reissues;
      }
      if mem.last.None? {
        return FetchRequired, reissues;
      }
      var plan: map<nat, OpRow> := map[];
      if mem.staleFrom.Some? {
        if mem.staleFrom.value >= |file.rows| || !Epoch_().stale(file.rows[mem.staleFrom.value].statement) {
          return VaultKeyRotated, reissues;
        }
        var waiting, admitted;
        plan, waiting, admitted := StalePlan(view.value.head);
        reissues := plan;
        if waiting {
          return HealingRequired, reissues;
        }
        if !admitted {
          Die();
          return Refused, reissues;
        }
      }
      if mem.acked == |file.rows| {
        mem := mem.(staleFrom := None);
        phase := Idle(mem);
        Take(before, ForgetStale);
        return Nothing, reissues;
      }
      ghost var head := view.value.head;
      var request := CommitUpload(plan);
      if old(Welcome(Epoch_(), State())) {
        StaysWelcome(Epoch_(), before.sys, head, plan, |request.records|, State());
      }
      return Request(request), reissues;
    }

    /** No stale answer is left over from an epoch that is not adopted yet. */
    ghost predicate AtNewEpoch()
      reads this
    {
      mem.staleFrom.Some? ==>
        mem.staleFrom.value < |file.rows| && Epoch_().stale(file.rows[mem.staleFrom.value].statement)
    }

    /** The re-issues and the marks, in one transaction committed before the request leaves. */
    method CommitUpload(reissues: map<nat, OpRow>) returns (request: Request)
      requires Ready() && mem.last.Some? && mem.acked < |file.rows| && view.Some? && !view.value.behind
      requires Reissuable(mem, file.rows, reissues) && IsPlan(Epoch_(), mem, file.rows, view.value.head, reissues)
      modifies this`file, this`mem, this`phase
      ensures Valid() && |file.rows| == old(|file.rows|) && mem.acked == old(mem.acked)
      ensures phase == Prepared(mem, request) && request.Upload? &&
                |request.records| == old(BatchSize(mem, file.rows)) > 0
      ensures Next(old(State()), PrepareUpload(reissues, |request.records|), State())
    {
      hide Lived, Reissued, MarkedRows, Reissuable, Noted, IsPlan;
      ghost var before := Now();
      var n := BatchSize(mem, file.rows);
      var m, rows := AfterReissue(mem, reissues), Reissued(mem, file.rows, reissues);
      MarkableAfterReissue(before, reissues, n);
      var noted := NoteSent(m.unanswered, m.acked, n, m.last.value);
      var marked := JournalSent(m, rows, n);
      request := Batch(m, marked, n);
      file := file.(rows := marked);
      mem := m.(unanswered := noted);
      phase := Prepared(mem, request);
      UploadIsAStep(before, reissues, n, Now());
      Take(before, PrepareUpload(reissues, n));
    }

    /** Sends a prepared upload and applies its answer. `done` is set when every record was taken. */
    method Exchange(request: Request) returns (r: Outcome, stale: bool, done: bool)
      requires Valid() && phase == Prepared(mem, request) && request.Upload? && |request.records| > 0
      modifies this
      ensures Valid() && |file.rows| == old(|file.rows|) && adopted == old(adopted)
      ensures if r.Crashed? then phase.Down? else Ready() && mem.acked >= old(mem.acked) && view == old(view)
      ensures r.Success? ==> mem.last.Some? && (done ==> mem.acked > old(mem.acked))
      ensures calm ==>
                r.Success? && |old(server).eras| > 0 && server.eras == old(server).eras &&
                var (stored, reply) := Handled(old(server), request, Refusals(Epoch_(), request));
                server.stored == stored && reply.Uploaded? &&
                Applied(old(file.rows), old(mem), request, reply) == Some(Device(file.rows, mem)) &&
                (stale <==> Rejected(Stale) in reply.results) && (done <==> NoneRejected(reply.results))
      ensures calm && old(Welcome(Epoch_(), State())) ==> done && !stale && Welcome(Epoch_(), State())
    {
      hide Lived;
      stale, done := false, false;
      RequestIsNext(Now());
      if calm && Welcome(Epoch_(), State()) {
        WelcomeIsTaken(Epoch_(), Now());
      }
      hide Welcome;
      var out := Call(request);
      match out
      case Died => r := Crashed;
      case Unanswered => r := Failure;
      case Replied(reply, head) =>
        AnswerFacts(Now());
        stale := Rejected(Stale) in reply.results;
        done := NoneRejected(reply.results);
        var now := Device(file.rows, mem.(last := Some(reply.generation)));
        var applied := ApplyResults(now, request.position, reply.results, reply.generation);
        var dead := Conclude(applied.value, request, reply, head);
        r := if dead then Crashed else Success;
    }

    /**
     Uploads everything queued. Success means that every own op is acknowledged, in memory and on disk,
     unless the vault is read-only. Whether a later process gets further, `UploadProgress` says.
     */
    method Upload() returns (r: Outcome)
      requires Ready() && view.Some? && mem.last.Some?
      modifies this
      ensures Valid() && |file.rows| == old(|file.rows|)
      ensures if r.Crashed? then phase.Down? else phase.Down? || Ready()
      ensures r.Success? ==> Ready() && (old(view.value.behind) || AllSaved())
      ensures calm && old(!view.value.behind && Welcome(Epoch_(), State())) ==>
                r.Success? && mem.acked <= |server.stored| && server.eras == old(server.eras)
    {
      hide Lived, Reissuable, IsPlan, Handled, Refusals, Applied, Welcome, Gate, Next;
      ghost var welcome := calm && !view.value.behind && Welcome(Epoch_(), State());
      var followed, healed := false, false;
      while true
        invariant Ready() && view.Some? && |file.rows| == old(|file.rows|)
        invariant !old(view.value.behind) ==> !view.value.behind
        invariant old(view.value.behind) ==> view == old(view)
        invariant welcome ==> Welcome(Epoch_(), State()) && server.eras == old(server.eras)
        invariant mem.last.Some?
        decreases !followed, !healed, |file.rows| - mem.acked
      {
        LivedBasics(Now());
        if welcome {
          WelcomeFacts(Epoch_(), State());
        }
        var built, reissues := UploadRequest();
        match built
        case Nothing =>
          if !view.value.behind {
            AllAreSaved(Now());
          }
          return Success;
        case VaultKeyRotated =>
          if followed {
            return Failure;
          }
          followed := true;
          var refreshed := Refresh();
          if !refreshed.Success? {
            return Failure;
          }
        case HealingRequired =>
          if healed {
            return Failure;
          }
          healed := true;
          var back := FetchAndHeal();
          if !back.Success? {
            return back;
          }
        case Request(request) =>
          var sent, stale, done := Exchange(request);
          if !sent.Success? {
            return sent;
          }
          if stale && !followed {
            followed := true;
            var refreshed := Refresh();
            if !refreshed.Success? {
              return Failure;
            }
          } else if !done {
            return Failure;
          }
        case _ => return Failure;
      }
    }

    /** Everything the device wrote is acknowledged, in memory and on disk. */
    ghost predicate AllSaved()
      reads this
    {
      mem.acked == |file.rows| && forall k :: 0 <= k < |file.rows| ==> file.rows[k].own.Acknowledged?
    }

    /**
     Fetch, healing, upload, Fetch. Success means that the server has acknowledged all there is; and when nothing
     goes wrong, the queue holds nothing stale and the loss fits into one request, it is a success.
     */
    method Sync() returns (r: Outcome)
      requires Ready()
      modifies this
      ensures Valid() && |file.rows| == old(|file.rows|)
      ensures if r.Crashed? then phase.Down? else phase.Down? || Ready()
      ensures r.Success? ==> Ready() && AllSaved()
      ensures calm &&
                old(|server.eras| > 0 && mem == Loaded(file) && !TooLong(State()) && NoneStale(Epoch_(), State())) ==>
                r.Success? && server.stored == Statements(file.rows) && server.eras == old(server.eras)
    {
      hide Lived;
      ghost var smooth := calm && |server.eras| > 0 && mem == Loaded(file) && !TooLong(State()) &&
                          NoneStale(Epoch_(), State());
      ghost var loaded := mem;
      LivedBasics(Now());
      r := FetchNow();
      if !r.Success? {
        return;
      }
      if smooth {
        SameLoss(old(State()), State());
        ghost var n := LossFits(Now(), loaded);
        assert mem.staleFrom.None? && (NeedsHealing() <==> view.value.behind);
        assert view.value.behind ==> MustHeal(n);
      }
      ghost var fetched := file.rows;
      r := HealNow();
      if !r.Success? {
        return;
      }
      assert smooth ==> Welcome(Epoch_(), State()) by {
        SameStatements(fetched, file.rows);
      }
      r := Upload();
      if !r.Success? {
        return;
      }
      if smooth {
        HoldsAll(Now());
      }
      r := FetchNow();
    }
  }

  // ---------- what the methods rest on ----------

  lemma LivedBasics(p: Process)
    requires Lived(Any, p)
    ensures |p.sys.server.eras| > 0 && (!p.sys.phase.Down? ==> p.sys.phase.mem.acked <= |p.sys.file.rows|)
  {
    LivedFacts(Any, p);
  }

  /** Whether a loss is too long depends on the rows and the server's chain alone. */
  lemma SameLoss(s: System, t: System)
    requires |s.server.eras| > 0 && t.server.eras == s.server.eras && t.server.stored == s.server.stored
    requires t.file.rows == s.file.rows
    ensures TooLong(t) <==> TooLong(s)
  {
    assert forall k | 0 <= k < |s.file.rows| :: GivenBack(t, k) <==> GivenBack(s, k);
  }

  /** What is left to send can be marked sent, re-issued or not. */
  lemma MarkableAfterReissue(p: Process, reissues: map<nat, OpRow>, n: nat)
    requires Lived(Any, p) && p.sys.phase.Idle? && p.sys.phase.mem.last.Some?
    requires Reissuable(p.sys.phase.mem, p.sys.file.rows, reissues)
    requires n > 0 && p.sys.phase.mem.acked + n <= |p.sys.file.rows|
    ensures Markable(AfterReissue(p.sys.phase.mem, reissues), Reissued(p.sys.phase.mem, p.sys.file.rows, reissues), n)
  {
    LivedFacts(Any, p);
    var s, m := p.sys, p.sys.phase.mem;
    ReissueKeepsInv(s.server, s.file, m, reissues);
    UnacknowledgedAreMarkable(s.server, s.file.(rows := Reissued(m, s.file.rows, reissues)),
                              AfterReissue(m, reissues), n);
  }

  lemma UploadIsAStep(p: Process, reissues: map<nat, OpRow>, n: nat, q: Process)
    requires Lived(Any, p) && p.sys.phase.Idle? && n <= MAX_RECORDS
    requires Reissuable(p.sys.phase.mem, p.sys.file.rows, reissues)
    requires
      var m := AfterReissue(p.sys.phase.mem, reissues);
      var rows := Reissued(p.sys.phase.mem, p.sys.file.rows, reissues);
      Markable(m, rows, n) &&
      q.sys == p.sys.(file := p.sys.file.(rows := MarkedRows(m, rows, n)),
                      phase := Prepared(MarkedMemory(m, n), Batch(m, MarkedRows(m, rows, n), n)))
    ensures Next(p.sys, PrepareUpload(reissues, n), q.sys)
  {
    LivedFacts(Any, p);
  }

  /** A prepared upload is of ops that are all there. */
  lemma RequestIsNext(p: Process)
    requires Lived(Any, p) && p.sys.phase.Prepared? && p.sys.phase.request.Upload?
    ensures p.sys.phase.request.position == p.sys.phase.mem.acked
    ensures p.sys.phase.mem.acked + |p.sys.phase.request.records| <= |p.sys.file.rows|
  {
    LivedFacts(Any, p);
  }

  /** An upload's answer always commits; with no rejection it acknowledges more ops than before. */
  lemma AnswerFacts(p: Process)
    requires Lived(Any, p) && p.sys.phase.InFlight? && p.sys.phase.request.Upload? && p.sys.phase.reply.Some?
    requires Fits(p.sys.phase.request, p.sys.phase.reply.value) && |p.sys.phase.request.records| > 0
    ensures
      var m, request, reply := p.sys.phase.mem, p.sys.phase.request, p.sys.phase.reply.value;
      var d := Applied(p.sys.file.rows, m, request, reply);
      request.position + |reply.results| <= |p.sys.file.rows| &&
      d == Answered(Device(p.sys.file.rows, m.(last := Some(reply.generation))), request.position, reply.results,
                    reply.generation) &&
      d.Some? && |d.value.rows| == |p.sys.file.rows| && d.value.mem.acked >= m.acked && d.value.mem.last.Some? &&
      (NoneRejected(reply.results) ==> d.value.mem.acked > m.acked)
  {
    LivedFacts(Any, p);
    var s, m, request, reply := p.sys, p.sys.phase.mem, p.sys.phase.request, p.sys.phase.reply.value;
    AppliedKeepsInv(s.server, s.file, m, request, reply);
    var now := Device(s.file.rows, m.(last := Some(reply.generation)));
    AnsweredKeepsLength(now, request.position, reply.results, reply.generation);
    AnswersEach(now, request.position, reply.results, reply.generation, 0);
    if NoneRejected(reply.results) {
      AllTakenAreAcked(now, request.position, reply.results, reply.generation);
    }
  }

  /** So does the answer to a healing request. */
  lemma HealReplyApplies(p: Process)
    requires Lived(Any, p) && p.sys.phase.InFlight? && p.sys.phase.request.Heal? && p.sys.phase.reply.Some?
    ensures
      var m, request, reply := p.sys.phase.mem, p.sys.phase.request, p.sys.phase.reply.value;
      request.position + |request.records| <= |p.sys.file.rows| && Applied(p.sys.file.rows, m, request, reply).Some?
  {
    LivedFacts(Any, p);
    var s, m, request, reply := p.sys, p.sys.phase.mem, p.sys.phase.request, p.sys.phase.reply.value;
    AppliedKeepsInv(s.server, s.file, m, request, reply);
  }

  /** An accepted healing request acknowledges every op up to the last one sent, and changes nothing else. */
  lemma HealFacts(p: Process)
    requires Lived(Any, p) && p.sys.phase.InFlight? && p.sys.phase.request.Heal? && p.sys.phase.reply.Some?
    requires Fits(p.sys.phase.request, p.sys.phase.reply.value)
    ensures
      var m, request, reply := p.sys.phase.mem, p.sys.phase.request, p.sys.phase.reply.value;
      var d := Applied(p.sys.file.rows, m, request, reply);
      d.Some? && |d.value.rows| == |p.sys.file.rows| && d.value.mem.last.Some? == (m.last.Some? || reply.Healed?) &&
      d.value.mem.acked == (if reply.Healed? then Max(m.acked, request.position + |request.records|) else m.acked) &&
      d.value.mem.staleFrom == m.staleFrom && Statements(d.value.rows) == Statements(p.sys.file.rows)
  {
    hide Lived, AckedUpTo;
    HealReplyApplies(p);
    var s, m, request, reply := p.sys, p.sys.phase.mem, p.sys.phase.request, p.sys.phase.reply.value;
    if reply.Healed? {
      HealingKeeps(Device(s.file.rows, m.(last := Some(reply.generation))), request.position + |request.records|);
    }
  }

  lemma HealingKeeps(d: Device, top: nat)
    requires top <= |d.rows| && AckedUpTo(d, top).Some?
    ensures
      var after := AckedUpTo(d, top).value;
      |after.rows| == |d.rows| && after.mem.last == d.mem.last && after.mem.acked == Max(d.mem.acked, top) &&
      after.mem.staleFrom == d.mem.staleFrom && Statements(after.rows) == Statements(d.rows)
  {
    HealsEach(d, top, 0);
    forall k | 0 <= k < |d.rows|
      ensures AckedUpTo(d, top).value.rows[k].statement == d.rows[k].statement
    {
      HealsEach(d, top, k);
    }
    hide AckedUpTo;
  }

  /** A healing request that starts no higher than the server's chain ends is accepted. */
  lemma HealingIsAccepted(e: Epoch, p: Process)
    requires Lived(Any, p) && p.sys.phase.Prepared? && p.sys.phase.request.Heal? && |p.sys.server.eras| > 0
    requires p.sys.phase.request.position <= |p.sys.server.stored|
    ensures
      var request := p.sys.phase.request;
      var (stored, reply) := Handled(p.sys.server, request, Refusals(e, request));
      reply == Healed(Current(p.sys.server)) &&
      |stored| == Max(|p.sys.server.stored|, request.position + |request.records|)
  {
    LivedFacts(Any, p);
    HealingIsTaken(e, p.sys);
  }

  lemma AllAreSaved(p: Process)
    requires Lived(Any, p) && p.sys.phase.Idle? && p.sys.phase.mem.acked == |p.sys.file.rows|
    ensures forall k :: 0 <= k < |p.sys.file.rows| ==> p.sys.file.rows[k].own.Acknowledged?
  {
    LivedFacts(Any, p);
    forall k | 0 <= k < |p.sys.file.rows|
      ensures p.sys.file.rows[k].own.Acknowledged?
    {
      AllAckedOnDisk(p.sys, k);
    }
  }

  /** A process that opened the file and fetched: unless the loss is too long, what it may send back is enough. */
  lemma LossFits(p: Process, loaded: Memory) returns (n: nat)
    requires Lived(Any, p) && p.sys.phase.Idle? && |p.sys.server.eras| > 0 && !TooLong(p.sys)
    requires loaded == Loaded(File(p.sys.file.rows, loaded.last))
    requires p.sys.phase.mem == loaded.(last := Some(Current(p.sys.server)))
    requires p.view == Some(View(|p.sys.server.stored|, |p.sys.server.stored| < p.sys.phase.mem.acked))
    ensures p.view.value.behind ==>
              IsRange(p.sys.phase.mem, p.sys.file.rows, |p.sys.server.stored|, n) && n <= MAX_RECORDS &&
              p.sys.phase.mem.acked <= |p.sys.server.stored| + n
  {
    n := 0;
    LivedFacts(Any, p);
    var m, rows, h := p.sys.phase.mem, p.sys.file.rows, |p.sys.server.stored|;
    forall k | m.acked <= k < |rows| && rows[k].own.Sent?
      ensures k in m.unanswered && Some(m.unanswered[k]) == rows[k].sentGeneration
    {
      assert RowInv(p.sys.server, p.sys.file, k);
    }
    if p.view.value.behind {
      assert m.acked <= |rows|;
      n := FindsRange(m, rows, h);
      if n > MAX_RECORDS {
        TooMuchToSend(p, n);
      }
      assert h + n < |rows| ==> !MayHaveBeenServed(m, h + n);
    }
  }

  lemma SameStatements(before: seq<OpRow>, after: seq<OpRow>)
    requires Statements(after) == Statements(before)
    ensures |after| == |before| && forall k :: 0 <= k < |after| ==> after[k].statement == before[k].statement
  {
    assert |Statements(after)| == |after| && |Statements(before)| == |before|;
    assert forall k :: 0 <= k < |after| ==> Statements(after)[k] == Statements(before)[k];
  }

  /** When all is acknowledged and the server has no less, its chain is what the device wrote. */
  lemma HoldsAll(p: Process)
    requires Lived(Any, p) && !p.sys.phase.Down?
    requires p.sys.phase.mem.acked == |p.sys.file.rows| <= |p.sys.server.stored|
    ensures p.sys.server.stored == Statements(p.sys.file.rows)
  {
    LivedFacts(Any, p);
    StoredIsHeld(p.sys);
    forall k | 0 <= k < |p.sys.server.stored|
      ensures p.sys.server.stored[k] == p.sys.file.rows[k].statement
    {
      StoredAreTheRows(p.sys.server, p.sys.file.rows, k);
    }
  }

  // ---------- a queue the server takes as it is ----------

  /** No op that is left to upload is stale. */
  predicate NoneStale(e: Epoch, s: System) {
    !s.phase.Down? && forall k :: s.phase.mem.acked <= k < |s.file.rows| ==> !e.stale(s.file.rows[k].statement)
  }

  /** The server holds all that is acknowledged, and nothing left is stale. */
  predicate Welcome(e: Epoch, s: System) {
    NoneStale(e, s) && s.phase.mem.staleFrom.None? && s.phase.mem.last.Some? &&
    s.phase.mem.acked <= |s.server.stored|
  }

  lemma WelcomeFacts(e: Epoch, s: System)
    requires Welcome(e, s)
    ensures s.phase.mem.staleFrom.None? && s.phase.mem.acked <= |s.server.stored|
  {
  }

  lemma StaysWelcome(e: Epoch, s: System, head: nat, reissues: map<nat, OpRow>, n: nat, t: System)
    requires Welcome(e, s) && s.phase.Idle? && Next(s, PrepareUpload(reissues, n), t)
    requires IsPlan(e, s.phase.mem, s.file.rows, head, reissues)
    ensures Welcome(e, t)
  {
    MarksOnly(s, n, t);
    forall k | 0 <= k < |s.file.rows|
      ensures t.file.rows[k].statement == s.file.rows[k].statement
    {
      MarkedAt(s.phase.mem, s.file.rows, n, k);
    }
  }

  lemma {:induction false} TakenChangesNoStatement(d: Device, k: nat, results: seq<UploadResult>, g: Id)
    requires k + |results| <= |d.rows| && Answered(d, k, results, g).Some? && AllTaken(results)
    ensures
      var after := Answered(d, k, results, g).value;
      |after.rows| == |d.rows| && after.mem.staleFrom == d.mem.staleFrom && after.mem.last == d.mem.last &&
      forall x :: 0 <= x < |d.rows| ==> after.rows[x].statement == d.rows[x].statement
    decreases |results|
  {
    if results != [] {
      assert forall i :: 0 <= i < |results[1..]| ==> results[1..][i] == results[i + 1];
      TakenChangesNoStatement(Acknowledge(d, k).value, k + 1, results[1..], g);
    }
  }

  lemma WelcomeIsStored(e: Epoch, s: System)
    requires Inv(s) && s.phase.Prepared? && s.phase.request.Upload? && Welcome(e, s)
    ensures s.phase.request.position == s.phase.mem.acked
    ensures s.phase.mem.acked + |s.phase.request.records| <= |s.file.rows|
    ensures
      var (stored, reply) := Handled(s.server, s.phase.request, Refusals(e, s.phase.request));
      reply.Uploaded? && AllTaken(reply.results) && |reply.results| == |s.phase.request.records| &&
      |stored| == Max(|s.server.stored|, s.phase.mem.acked + |reply.results|)
  {
    var request := s.phase.request;
    forall i | 0 <= i < |request.records|
      ensures !e.stale(request.records[i])
    {
      assert InUpload(s.file.rows, s.phase.mem, request.position + i, request.records[i]);
    }
    var c := ServesBatch(e, s);
  }

  lemma TakenStaysWelcome(e: Epoch, s: System, stored: seq<Blob>, reply: Reply, d: Device, t: System)
    requires s.phase.Prepared? && Welcome(e, s) && reply.Uploaded? && AllTaken(reply.results)
    requires s.phase.mem.acked + |reply.results| <= |s.file.rows|
    requires |stored| == Max(|s.server.stored|, s.phase.mem.acked + |reply.results|)
    requires Answered(Device(s.file.rows, s.phase.mem.(last := Some(reply.generation))), s.phase.mem.acked,
                      reply.results, reply.generation) == Some(d)
    requires t.phase == Idle(d.mem) && t.file.rows == d.rows && t.server.stored == stored
    ensures Welcome(e, t)
  {
    var k, now := s.phase.mem.acked, Device(s.file.rows, s.phase.mem.(last := Some(reply.generation)));
    TakenChangesNoStatement(now, k, reply.results, reply.generation);
    AnswersBelow(now, k, reply.results, reply.generation, k + |reply.results|);
    AllTakenAreAcked(now, k, reply.results, reply.generation);
  }

  /** The whole batch is taken, and what is left is as welcome. */
  lemma WelcomeIsTaken(e: Epoch, p: Process)
    requires Lived(Any, p) && p.sys.phase.Prepared? && p.sys.phase.request.Upload? && Welcome(e, p.sys)
    ensures
      var s, request := p.sys, p.sys.phase.request;
      |s.server.eras| > 0 &&
      var (stored, reply) := Handled(s.server, request, Refusals(e, request));
      var d := Applied(s.file.rows, s.phase.mem, request, reply);
      reply.Uploaded? && AllTaken(reply.results) &&
      forall t: System :: d.Some? && t.phase == Idle(d.value.mem) && t.file.rows == d.value.rows &&
                          t.server.stored == stored
                          ==> Welcome(e, t)
  {
    LivedFacts(Any, p);
    var s, request := p.sys, p.sys.phase.request;
    WelcomeIsStored(e, s);
    var (stored, reply) := Handled(s.server, request, Refusals(e, request));
    var d := Applied(s.file.rows, s.phase.mem, request, reply);
    hide Inv, Handled, Welcome, Answered, LifeInv, Lived;
    forall t: System | d.Some? && t.phase == Idle(d.value.mem) && t.file.rows == d.value.rows &&
        t.server.stored == stored
      ensures Welcome(e, t)
    {
      TakenStaysWelcome(e, s, stored, reply, d.value, t);
    }
  }

  /** The reply is one the server gives to such a request; a record left out follows a rejected one. */
  ghost predicate Fits(request: Request, reply: Reply) {
    match (request, reply)
    case (Fetch, Fetched(_)) => true
    case (Upload(_, records), Uploaded(_, results)) =>
      |results| == |records| && (NoneRejected(results) ==> AllTaken(results))
    case (Heal(_, _), Healed(_)) => true
    case (Heal(_, _), HealRefused) => true
    case _ => false
  }

  lemma HandledFits(sv: Server, request: Request, refuse: nat -> Option<Refusal>)
    requires |sv.eras| > 0
    ensures Fits(request, Handled(sv, request, refuse).1)
  {
    if request.Upload? {
      LeftOutMeansRejected(sv.stored, request.position, request.records, refuse);
    }
  }
}
