/**
 The upload protocol of one device in one vault: edits, uploads, lost answers, crashes, restore
 healing and re-issues after a stale answer, against a server that may be restored from a backup at
 any time (crates/rizzy-cli/src/device.rs, crates/rizzy-client/src/sync.rs,
 crates/rizzy-sync/src/causal/own.rs, crates/rizzy-domain-vault/src/upload.rs).

 The main result is that no device ever equivocates: over every run the server never accepts two
 statements at one position of the device's chain. The ops of the vault are numbered by their
 position in the chain. Assumed of the world: a request is handled at most once, between its send and
 its outcome; every restore draws a generation never drawn before; nobody rolls the device file back.
 */
module Uploads {
  import opened Base
  import opened CacheRows

  /** The most records of one request. */
  const MAX_RECORDS := 4096

  // ---------- the server ----------

  datatype Acceptance = Acceptance(position: nat, statement: Blob)

  /**
   The restore generations drawn so far, newest last; the device's chain as stored now; every chain a
   backup may hold; and every acceptance there ever was, lost ones included.
   */
  datatype Server = Server(eras: seq<Id>, stored: seq<Blob>, past: set<seq<Blob>>, accepted: set<Acceptance>)

  function Current(sv: Server): Id
    requires |sv.eras| > 0
  {
    sv.eras[|sv.eras| - 1]
  }

  datatype Refusal = Stale | Invalid | PrevSeq | Conflict

  datatype UploadResult = Stored | AlreadyStored | Rejected(refusal: Refusal) | NotProcessed

  predicate Taken(r: UploadResult) {
    r.Stored? || r.AlreadyStored?
  }

  function NoneProcessed(n: nat): (r: seq<UploadResult>)
    ensures |r| == n && forall i :: 0 <= i < n ==> r[i] == NotProcessed
  {
    seq(n, _ => NotProcessed)
  }

  /**
   The records of one upload, in order, the first at `position`. A record that is stored is told from another
   one at its place; then come the rules `refuse` stands for, with the chain check between what is refused as
   invalid and what is refused otherwise, as stale. The device's own records always pass the signature check
   that precedes all this. Nothing is processed after the first rejection.
   */
  function Receive(stored: seq<Blob>, position: nat, records: seq<Blob>, refuse: nat -> Option<Refusal>)
    : (seq<Blob>, seq<UploadResult>)
    decreases |records|
  {
    if records == [] then (stored, [])
    else if position < |stored| then
      if stored[position] != records[0] then (stored, [Rejected(Conflict)] + NoneProcessed(|records| - 1))
      else
        var rest := Receive(stored, position + 1, records[1..], refuse);
        (rest.0, [AlreadyStored] + rest.1)
    else if position > |stored| && refuse(position) != Some(Invalid) then
      (stored, [Rejected(PrevSeq)] + NoneProcessed(|records| - 1))
    else if refuse(position).Some? then
      (stored, [Rejected(refuse(position).value)] + NoneProcessed(|records| - 1))
    else
      var rest := Receive(stored + [records[0]], position + 1, records[1..], refuse);
      (rest.0, [UploadResult.Stored] + rest.1)
  }

  /** The server after its chain grew to `stored`. */
  function Grown(sv: Server, stored: seq<Blob>): Server {
    sv.(stored := stored, past := sv.past + {stored},
        accepted := sv.accepted + (set i | 0 <= i < |stored| :: Acceptance(i, stored[i])))
  }

  // ---------- the device ----------

  /**
   What the process holds besides the rows: per op sent without an answer, the generation before its
   first send; the last generation seen; per op answered without being stored, the answer's generation;
   the lowest op answered stale and not re-issued yet; how many ops are acknowledged; and whether it is
   uploading for the last time before the device is removed.
   */
  datatype Memory = Memory(unanswered: map<nat, Id>, last: Option<Id>, answered: map<nat, Id>,
                           staleFrom: Option<nat>, acked: nat, leaving: bool)

  /** The op rows of the file in chain order, and the stored generation. */
  datatype File = File(rows: seq<OpRow>, generation: Option<Id>)

  datatype Request =
    | Fetch
    | Upload(position: nat, records: seq<Blob>)
    | Heal(position: nat, records: seq<Blob>)

  datatype Reply =
    | Fetched(generation: Id)
    | Uploaded(generation: Id, results: seq<UploadResult>)
    | Healed(generation: Id)
    | HealRefused

  datatype Phase =
    | Down
    | Idle(mem: Memory)
    | Prepared(mem: Memory, request: Request)
    | InFlight(mem: Memory, request: Request, reply: Option<Reply>)

  datatype System = System(server: Server, file: File, phase: Phase)

  /** The op was acknowledged, or a restore came after it was first sent. */
  predicate MayHaveBeenServed(m: Memory, k: nat) {
    k < m.acked || (k in m.unanswered && Some(m.unanswered[k]) != m.last)
  }

  function Statements(rows: seq<OpRow>): (r: seq<Blob>)
    ensures |r| == |rows| && forall i :: 0 <= i < |r| ==> r[i] == rows[i].statement
  {
    seq(|rows|, i requires 0 <= i < |rows| => rows[i].statement)
  }

  /** The number of leading acknowledged rows. */
  function Acked(rows: seq<OpRow>): (n: nat)
    ensures n <= |rows|
  {
    if rows != [] && rows[0].own.Acknowledged? then 1 + Acked(rows[1..]) else 0
  }

  /** The memory a load rebuilds from the file. */
  function Loaded(file: File): Memory {
    var sent := map k: nat | k < |file.rows| && file.rows[k].own.Sent? && file.rows[k].sentGeneration.Some?
                  :: file.rows[k].sentGeneration.value;
    Memory(sent, file.generation, map[], None, Acked(file.rows), false)
  }

  /** The re-issues of a step, by position. */
  predicate Reissuable(m: Memory, rows: seq<OpRow>, reissues: map<nat, OpRow>) {
    forall k :: k in reissues ==>
      m.staleFrom.Some? && m.staleFrom.value <= k < |rows| && !MayHaveBeenServed(m, k) &&
      ReissueRow(rows[k], reissues[k], if k in m.answered then Some(m.answered[k]) else None).Some?
  }

  function Reissued(m: Memory, rows: seq<OpRow>, reissues: map<nat, OpRow>): (r: seq<OpRow>)
    requires Reissuable(m, rows, reissues)
    ensures |r| == |rows|
  {
    seq(|rows|, k requires 0 <= k < |rows| =>
      if k in reissues then
        ReissueRow(rows[k], reissues[k], if k in m.answered then Some(m.answered[k]) else None).value
      else rows[k])
  }

  function AfterReissue(m: Memory, reissues: map<nat, OpRow>): Memory {
    m.(unanswered := m.unanswered - reissues.Keys, answered := m.answered - reissues.Keys, staleFrom := None)
  }

  /** `n` rows from the first unacknowledged one can be marked sent. */
  predicate Markable(m: Memory, rows: seq<OpRow>, n: nat) {
    m.last.Some? && n > 0 && m.acked + n <= |rows| &&
    forall k :: m.acked <= k < m.acked + n ==> SentRow(rows[k], m.last).Some?
  }

  function MarkedRows(m: Memory, rows: seq<OpRow>, n: nat): (r: seq<OpRow>)
    requires Markable(m, rows, n)
    ensures |r| == |rows|
  {
    seq(|rows|, k requires 0 <= k < |rows| =>
      if m.acked <= k < m.acked + n then SentRow(rows[k], m.last).value else rows[k])
  }

  /** The ops from `k` on are noted as sent under `g`, unless an earlier send is unanswered. */
  function Noted(unanswered: map<nat, Id>, k: nat, n: nat, g: Id): (r: map<nat, Id>)
    ensures forall j :: j in r <==> j in unanswered || k <= j < k + n
    ensures forall j :: j in r ==> r[j] == if j in unanswered then unanswered[j] else g
    decreases n
  {
    if n == 0 then unanswered
    else Noted(if k in unanswered then unanswered else unanswered[k := g], k + 1, n - 1, g)
  }

  function MarkedMemory(m: Memory, n: nat): Memory
    requires m.last.Some?
  {
    m.(unanswered := Noted(m.unanswered, m.acked, n, m.last.value))
  }

  /** The request of the marked rows. */
  function Batch(m: Memory, rows: seq<OpRow>, n: nat): Request
    requires m.acked + n <= |rows|
  {
    Upload(m.acked, Statements(rows[m.acked..m.acked + n]))
  }

  datatype Device = Device(rows: seq<OpRow>, mem: Memory)

  /** The op at `k` is acknowledged, in memory and on disk; `None` when the guard refuses. */
  function Acknowledge(d: Device, k: nat): Option<Device>
    requires k < |d.rows|
  {
    var row := AckRow(d.rows[k]);
    if row.None? then None
    else
      var acked := Max(d.mem.acked, k + 1);
      var open := map j | j in d.mem.unanswered && j >= acked :: d.mem.unanswered[j];
      Some(Device(d.rows[k := row.value],
                  d.mem.(acked := acked, unanswered := open, answered := d.mem.answered - {k})))
  }

  /** The op at `k` was answered without being stored. */
  function NotStored(d: Device, k: nat, r: UploadResult, generation: Id): Device {
    var m := d.mem;
    var open := if k in m.unanswered && m.unanswered[k] == generation then m.unanswered - {k} else m.unanswered;
    var stale := if r != Rejected(Stale) then m.staleFrom
                 else if m.staleFrom.Some? && m.staleFrom.value <= k then m.staleFrom
                 else Some(k);
    d.(mem := m.(unanswered := open, answered := m.answered[k := generation], staleFrom := stale))
  }

  /** The results of an upload, one after the other from position `k`. */
  function Answered(d: Device, k: nat, results: seq<UploadResult>, generation: Id): Option<Device>
    requires k + |results| <= |d.rows|
    decreases |results|
  {
    if results == [] then Some(d)
    else if Taken(results[0]) then
      var next := Acknowledge(d, k);
      if next.None? then None else Answered(next.value, k + 1, results[1..], generation)
    else Answered(NotStored(d, k, results[0], generation), k + 1, results[1..], generation)
  }

  /** Every op before `top` is acknowledged, from the first unacknowledged one on. */
  function AckedUpTo(d: Device, top: nat): Option<Device>
    requires top <= |d.rows|
    decreases top - d.mem.acked
  {
    if d.mem.acked >= top then Some(d)
    else
      var next := Acknowledge(d, d.mem.acked);
      if next.None? then None else AckedUpTo(next.value, top)
  }

  // ---------- the steps ----------

  datatype Action =
    | Crash
    | Restore(chain: seq<Blob>, generation: Id)
    | OthersHeal(statement: Blob)
    | Open
    | Edit(row: OpRow)
    | PrepareFetch
    | PrepareUpload(reissues: map<nat, OpRow>, n: nat)
    | ForgetStale
    | PrepareLast(lastN: nat)
    | PrepareHeal(from: nat, healN: nat)
    | Send
    | Handle(refuse: nat -> Option<Refusal>)
    | Answer
    | Lost

  /** What the server makes of a request: its chain afterwards, and the reply. */
  function Handled(sv: Server, request: Request, refuse: nat -> Option<Refusal>): (seq<Blob>, Reply)
    requires |sv.eras| > 0
  {
    match request
    case Fetch => (sv.stored, Fetched(Current(sv)))
    case Upload(position, records) =>
      var (stored, results) := Receive(sv.stored, position, records, refuse);
      (stored, Uploaded(Current(sv), results))
    case Heal(position, records) =>
      // One atomic request: a refusal of any record refuses all of it.
      var (stored, results) := Receive(sv.stored, position, records, refuse);
      if forall i :: 0 <= i < |results| ==> Taken(results[i]) then (stored, Healed(Current(sv)))
      else (sv.stored, HealRefused)
  }

  /** The device once the reply was applied and committed, `None` when a guard refuses the commit. */
  function Applied(rows: seq<OpRow>, m: Memory, request: Request, reply: Reply): Option<Device> {
    match (request, reply)
    case (Fetch, Fetched(generation)) => Some(Device(rows, m.(last := Some(generation))))
    case (Upload(position, _), Uploaded(generation, results)) =>
      if position + |results| > |rows| then None
      else Answered(Device(rows, m.(last := Some(generation))), position, results, generation)
    case (Heal(position, records), Healed(generation)) =>
      if position + |records| > |rows| then None
      else AckedUpTo(Device(rows, m.(last := Some(generation))), position + |records|)
    case (Heal(_, _), HealRefused) => Some(Device(rows, m))
    case _ => None
  }

  ghost predicate Next(s: System, a: Action, t: System) {
    |s.server.eras| > 0 &&
    match a
    case Crash => t == s.(phase := Down)

    case Restore(chain, generation) =>
      chain in s.server.past && generation !in s.server.eras &&
      t == s.(server := s.server.(eras := s.server.eras + [generation], stored := chain))

    case OthersHeal(statement) =>
      Acceptance(|s.server.stored|, statement) in s.server.accepted &&
      t == s.(server := Grown(s.server, s.server.stored + [statement]))

    case Open => s.phase.Down? && t == s.(phase := Idle(Loaded(s.file)))

    case Edit(row) =>
      s.phase.Idle? && row.own.Unsent? && row.sentGeneration.None? &&
      t == s.(file := s.file.(rows := s.file.rows + [row]))

    case PrepareFetch => s.phase.Idle? && t == s.(phase := Prepared(s.phase.mem, Fetch))

    case PrepareUpload(reissues, n) =>
      s.phase.Idle? && !s.phase.mem.leaving && n <= MAX_RECORDS &&
      Reissuable(s.phase.mem, s.file.rows, reissues) &&
      var rows, m := Reissued(s.phase.mem, s.file.rows, reissues), AfterReissue(s.phase.mem, reissues);
      Markable(m, rows, n) &&
      var marked := MarkedRows(m, rows, n);
      t == s.(file := s.file.(rows := marked), phase := Prepared(MarkedMemory(m, n), Batch(m, marked, n)))

    case ForgetStale =>
      s.phase.Idle? && s.phase.mem.acked == |s.file.rows| &&
      t == s.(phase := Idle(s.phase.mem.(staleFrom := None)))

    case PrepareLast(n) =>
      s.phase.Idle? && n <= MAX_RECORDS &&
      var m := s.phase.mem.(leaving := true);
      Markable(m, s.file.rows, n) &&
      var marked := MarkedRows(m, s.file.rows, n);
      t == s.(file := s.file.(rows := marked), phase := Prepared(MarkedMemory(m, n), Batch(m, marked, n)))

    case PrepareHeal(from, n) =>
      s.phase.Idle? && s.phase.mem.last.Some? && n > 0 && from + n <= |s.file.rows| &&
      (forall k :: from <= k < from + n ==> MayHaveBeenServed(s.phase.mem, k)) &&
      t == s.(phase := Prepared(s.phase.mem, Heal(from, Statements(s.file.rows[from..from + n]))))

    case Send => s.phase.Prepared? && t == s.(phase := InFlight(s.phase.mem, s.phase.request, None))

    case Handle(refuse) =>
      s.phase.InFlight? && s.phase.reply.None? &&
      var (stored, reply) := Handled(s.server, s.phase.request, refuse);
      t == s.(server := Grown(s.server, stored), phase := s.phase.(reply := Some(reply)))

    case Answer =>
      s.phase.InFlight? && s.phase.reply.Some? &&
      var d := Applied(s.file.rows, s.phase.mem, s.phase.request, s.phase.reply.value);
      d.Some? &&
      t == s.(file := File(d.value.rows, d.value.mem.last), phase := Idle(d.value.mem))

    case Lost => s.phase.InFlight? && t == s.(phase := Idle(s.phase.mem))
  }

  ghost predicate Step(s: System, t: System) {
    exists a :: Next(s, a, t)
  }

  /** A new device in a vault whose server holds nothing of it. */
  ghost predicate Init(s: System) {
    |s.server.eras| == 1 && s.server.stored == [] && s.server.past == {[]} && s.server.accepted == {} &&
    s.file == File([], None) && s.phase == Down
  }

  ghost predicate StepAt(run: seq<System>, i: nat)
    requires 0 < i < |run|
  {
    Step(run[i - 1], run[i])
  }

  ghost predicate IsRun(run: seq<System>) {
    |run| > 0 && Init(run[0]) && forall i: nat :: 0 < i < |run| ==> StepAt(run, i)
  }

  // ---------- what holds in every reachable state ----------

  /** The op at `k` was never accepted, not even by a server state a restore has lost since. */
  predicate Never(sv: Server, k: nat) {
    forall a :: a in sv.accepted ==> a.position != k
  }

  predicate NeverOrStored(sv: Server, k: nat) {
    k < |sv.stored| || Never(sv, k)
  }

  /** `g` was drawn no later than `h`. */
  predicate NotAfter(eras: seq<Id>, g: Id, h: Id) {
    exists i, j :: 0 <= i <= j < |eras| && eras[i] == g && eras[j] == h
  }

  predicate Distinct(eras: seq<Id>) {
    forall i, j :: 0 <= i < j < |eras| ==> eras[i] != eras[j]
  }

  /** Every op of a chain was accepted. */
  predicate AcceptedChain(sv: Server, chain: seq<Blob>) {
    forall i :: 0 <= i < |chain| ==> Acceptance(i, chain[i]) in sv.accepted
  }

  ghost predicate ServerInv(sv: Server) {
    |sv.eras| > 0 && Distinct(sv.eras) &&
    AcceptedChain(sv, sv.stored) && (forall chain :: chain in sv.past ==> AcceptedChain(sv, chain))
  }

  /** What the server ever accepted is what the file holds, and is marked as sent there. */
  predicate AcceptedAreHeld(sv: Server, rows: seq<OpRow>) {
    forall a :: a in sv.accepted ==>
      a.position < |rows| && rows[a.position].statement == a.statement && !rows[a.position].own.Unsent?
  }

  ghost predicate RowInv(sv: Server, file: File, k: nat)
    requires k < |file.rows| && |sv.eras| > 0
  {
    var row := file.rows[k];
    !row.own.Served? && (row.own.Unsent? <==> row.sentGeneration.None?) &&
    (row.sentGeneration.Some? ==>
       file.generation.Some? && NotAfter(sv.eras, row.sentGeneration.value, file.generation.value)) &&
    (row.own.Sent? && row.sentGeneration == Some(Current(sv)) ==> NeverOrStored(sv, k))
  }

  predicate AckedFirst(rows: seq<OpRow>) {
    forall i, j :: 0 <= i < j < |rows| && rows[j].own.Acknowledged? ==> rows[i].own.Acknowledged?
  }

  ghost predicate FileInv(sv: Server, file: File)
    requires |sv.eras| > 0
  {
    AcceptedAreHeld(sv, file.rows) && AckedFirst(file.rows) &&
    (file.generation.Some? ==> file.generation.value in sv.eras) &&
    forall k :: 0 <= k < |file.rows| ==> RowInv(sv, file, k)
  }

  /** What the memory says of the op at `k` is true of the server. */
  ghost predicate OpInv(sv: Server, rows: seq<OpRow>, m: Memory, k: nat)
    requires k < |rows| && |sv.eras| > 0
  {
    (rows[k].own.Acknowledged? <==> k < m.acked) &&
    (k in m.unanswered ==>
       rows[k].own.Sent? && m.last.Some? && NotAfter(sv.eras, m.unanswered[k], m.last.value) &&
       (m.unanswered[k] == Current(sv) ==> NeverOrStored(sv, k))) &&
    (rows[k].own.Sent? && k !in m.unanswered ==> Never(sv, k))
  }

  /** From the op answered stale on, what was not surely lost in a restore was never accepted. */
  predicate StaleInv(sv: Server, rows: seq<OpRow>, m: Memory) {
    !m.leaving && m.staleFrom.Some? ==>
      forall k | m.staleFrom.value <= k < |rows| :: MayHaveBeenServed(m, k) || Never(sv, k)
  }

  ghost predicate MemoryInv(sv: Server, file: File, m: Memory)
    requires |sv.eras| > 0
  {
    m.last == file.generation && m.acked <= |file.rows| &&
    (forall k :: k in m.unanswered ==> k < |file.rows|) &&
    (forall k :: 0 <= k < |file.rows| ==> OpInv(sv, file.rows, m, k)) &&
    StaleInv(sv, file.rows, m)
  }

  predicate InUpload(rows: seq<OpRow>, m: Memory, k: nat, record: Blob) {
    k < |rows| && record == rows[k].statement && rows[k].own.Sent? && k in m.unanswered
  }

  predicate InHealing(rows: seq<OpRow>, m: Memory, k: nat, record: Blob) {
    k < |rows| && record == rows[k].statement && MayHaveBeenServed(m, k)
  }

  /** The records of a request are the rows, all sent; no stale answer waits while an upload is out. */
  ghost predicate RequestInv(rows: seq<OpRow>, m: Memory, request: Request) {
    match request
    case Fetch => true
    case Upload(position, records) =>
      position == m.acked && position + |records| <= |rows| && (m.leaving || m.staleFrom.None?) &&
      forall i :: 0 <= i < |records| ==> InUpload(rows, m, position + i, records[i])
    case Heal(position, records) =>
      position + |records| <= |rows| && records != [] &&
      forall i :: 0 <= i < |records| ==> InHealing(rows, m, position + i, records[i])
  }

  /** From `k` on, an op whose first unanswered send was under `g` was never accepted. */
  predicate NeverFrom(sv: Server, m: Memory, k: nat, g: Id) {
    forall j :: j in m.unanswered && j >= k && m.unanswered[j] == g ==> Never(sv, j)
  }

  /** What the results say of the ops from position `k` on is true of the server. */
  ghost predicate ResultsInv(sv: Server, m: Memory, k: nat, results: seq<UploadResult>, g: Id) {
    (forall i, j :: 0 <= i < j < |results| && Taken(results[j]) ==> Taken(results[i])) &&
    (forall i :: 0 <= i < |results| && !Taken(results[i]) ==> NeverFrom(sv, m, k + i, g))
  }

  ghost predicate ReplyInv(sv: Server, rows: seq<OpRow>, m: Memory, request: Request, reply: Reply)
    requires |sv.eras| > 0
  {
    match (request, reply)
    case (Fetch, Fetched(g)) => g in sv.eras && (m.last.Some? ==> NotAfter(sv.eras, m.last.value, g))
    case (Upload(position, records), Uploaded(g, results)) =>
      g in sv.eras && (m.last.Some? ==> NotAfter(sv.eras, m.last.value, g)) &&
      |results| == |records| && ResultsInv(sv, m, position, results, g)
    case (Heal(position, records), Healed(g)) =>
      g in sv.eras && (m.last.Some? ==> NotAfter(sv.eras, m.last.value, g)) &&
      position + |records| <= |rows| && forall k :: 0 <= k < position + |records| ==> !rows[k].own.Unsent?
    case (Heal(_, _), HealRefused) => true
    case _ => false
  }

  ghost predicate PhaseInv(s: System)
    requires |s.server.eras| > 0
  {
    match s.phase
    case Down => true
    case Idle(m) => MemoryInv(s.server, s.file, m)
    case Prepared(m, request) => MemoryInv(s.server, s.file, m) && RequestInv(s.file.rows, m, request)
    case InFlight(m, request, reply) =>
      MemoryInv(s.server, s.file, m) && RequestInv(s.file.rows, m, request) &&
      (reply.Some? ==> ReplyInv(s.server, s.file.rows, m, request, reply.value))
  }

  ghost predicate Inv(s: System) {
    ServerInv(s.server) && FileInv(s.server, s.file) && PhaseInv(s)
  }

  // ---------- every step keeps it ----------

  lemma NotAfterGrows(eras: seq<Id>, g: Id, h: Id, next: Id)
    requires NotAfter(eras, g, h)
    ensures NotAfter(eras + [next], g, h) && g in eras && h in eras
  {
    var i, j :| 0 <= i <= j < |eras| && eras[i] == g && eras[j] == h;
    assert (eras + [next])[i] == g && (eras + [next])[j] == h;
  }

  lemma NotAfterIsAnOrder(eras: seq<Id>, f: Id, g: Id, h: Id)
    requires Distinct(eras) && NotAfter(eras, f, g) && NotAfter(eras, g, h)
    ensures NotAfter(eras, f, h) && (f == h ==> f == g)
  {
    var i, j :| 0 <= i <= j < |eras| && eras[i] == f && eras[j] == g;
    var j', k :| 0 <= j' <= k < |eras| && eras[j'] == g && eras[k] == h;
    assert j == j';
    assert eras[i] == f && eras[k] == h;
  }

  lemma CurrentIsLast(sv: Server, g: Id)
    requires |sv.eras| > 0 && g in sv.eras
    ensures NotAfter(sv.eras, g, Current(sv))
  {
    var i :| 0 <= i < |sv.eras| && sv.eras[i] == g;
  }

  // --- the server alone ---

  lemma RestoreKeepsInv(s: System, t: System, chain: seq<Blob>, generation: Id)
    requires Inv(s) && Next(s, Restore(chain, generation), t)
    ensures Inv(t)
  {
    var sv, sv' := s.server, t.server;
    forall g, h | NotAfter(sv.eras, g, h)
      ensures NotAfter(sv'.eras, g, h) && g != Current(sv') && h in sv'.eras
    {
      NotAfterGrows(sv.eras, g, h, generation);
    }
    assert forall k :: Never(sv, k) <==> Never(sv', k);
    if !s.phase.Down? {
      RestoreKeepsMemory(sv, sv', s.file, s.phase.mem);
    }
    forall k | 0 <= k < |s.file.rows|
      ensures RowInv(sv', s.file, k)
    {
      assert RowInv(sv, s.file, k);
    }
    if s.phase.InFlight? && s.phase.reply.Some? {
      RestoreKeepsReply(sv, sv', s.file.rows, s.phase.mem, s.phase.request, s.phase.reply.value);
    }
  }

  lemma RestoreKeepsReply(sv: Server, sv': Server, rows: seq<OpRow>, m: Memory, request: Request, reply: Reply)
    requires |sv.eras| > 0 && |sv'.eras| > 0 && ReplyInv(sv, rows, m, request, reply)
    requires forall k :: Never(sv, k) <==> Never(sv', k)
    requires forall g, h :: NotAfter(sv.eras, g, h) ==> NotAfter(sv'.eras, g, h)
    requires forall g :: g in sv.eras ==> g in sv'.eras
    ensures ReplyInv(sv', rows, m, request, reply)
  {
    if request.Upload? && reply.Uploaded? {
      forall i | 0 <= i < |reply.results| && !Taken(reply.results[i])
        ensures NeverFrom(sv', m, request.position + i, reply.generation)
      {
        assert NeverFrom(sv, m, request.position + i, reply.generation);
      }
    }
  }

  lemma RestoreKeepsMemory(sv: Server, sv': Server, file: File, m: Memory)
    requires |sv.eras| > 0 && |sv'.eras| > 0 && MemoryInv(sv, file, m)
    requires forall k :: Never(sv, k) <==> Never(sv', k)
    requires forall g, h :: NotAfter(sv.eras, g, h) ==> NotAfter(sv'.eras, g, h) && g != Current(sv')
    ensures MemoryInv(sv', file, m)
  {
    forall k | 0 <= k < |file.rows|
      ensures OpInv(sv', file.rows, m, k)
    {
      assert OpInv(sv, file.rows, m, k);
    }
  }

  /** The chain grows by what was accepted before. */
  lemma OthersHealKeepsInv(s: System, t: System, statement: Blob)
    requires Inv(s) && Next(s, OthersHeal(statement), t)
    ensures Inv(t)
  {
    var sv, sv' := s.server, t.server;
    assert sv'.accepted == sv.accepted;
    assert forall k :: Never(sv, k) <==> Never(sv', k);
    if !s.phase.Down? {
      var m := s.phase.mem;
      forall k | 0 <= k < |s.file.rows|
        ensures OpInv(sv', s.file.rows, m, k)
      {
        assert OpInv(sv, s.file.rows, m, k);
      }
    }
    forall k | 0 <= k < |s.file.rows|
      ensures RowInv(sv', s.file, k)
    {
      assert RowInv(sv, s.file, k);
    }
    assert forall m, k, g :: NeverFrom(sv, m, k, g) <==> NeverFrom(sv', m, k, g);
  }

  // --- the device alone ---

  lemma {:induction false} AckedCounts(rows: seq<OpRow>)
    requires AckedFirst(rows)
    ensures forall k :: 0 <= k < |rows| ==> (rows[k].own.Acknowledged? <==> k < Acked(rows))
  {
    if rows == [] {
    } else if rows[0].own.Acknowledged? {
      AckedCounts(rows[1..]);
      forall k | 0 <= k < |rows|
        ensures rows[k].own.Acknowledged? <==> k < Acked(rows)
      {
        assert k > 0 ==> rows[k] == rows[1..][k - 1];
      }
    }
  }

  lemma OpenKeepsInv(s: System, t: System)
    requires Inv(s) && Next(s, Open, t)
    ensures Inv(t)
  {
    var sv, file, m := s.server, s.file, Loaded(s.file);
    AckedCounts(file.rows);
    forall k | 0 <= k < |file.rows|
      ensures OpInv(sv, file.rows, m, k)
    {
      assert RowInv(sv, file, k);
    }
  }

  lemma EditKeepsInv(s: System, t: System, row: OpRow)
    requires Inv(s) && Next(s, Edit(row), t)
    ensures Inv(t)
  {
    var sv, file, file', m := s.server, s.file, t.file, s.phase.mem;
    forall k | 0 <= k < |file'.rows|
      ensures RowInv(sv, file', k) && OpInv(sv, file'.rows, m, k)
    {
      if k < |file.rows| {
        assert RowInv(sv, file, k) && OpInv(sv, file.rows, m, k);
      }
    }
    assert Never(sv, |file.rows|);
  }

  /** The guards admit a re-issue only of an op the server never accepted. */
  lemma ReissuedWereNeverAccepted(sv: Server, file: File, m: Memory, reissues: map<nat, OpRow>, k: nat)
    requires |sv.eras| > 0 && FileInv(sv, file) && MemoryInv(sv, file, m)
    requires !m.leaving && Reissuable(m, file.rows, reissues) && k in reissues
    ensures Never(sv, k)
  {
    assert m.staleFrom.value <= k < |file.rows|;
  }

  lemma ReissueKeepsInv(sv: Server, file: File, m: Memory, reissues: map<nat, OpRow>)
    requires ServerInv(sv) && FileInv(sv, file) && MemoryInv(sv, file, m)
    requires !m.leaving && Reissuable(m, file.rows, reissues)
    ensures
      var file' := file.(rows := Reissued(m, file.rows, reissues));
      FileInv(sv, file') && MemoryInv(sv, file', AfterReissue(m, reissues))
  {
    var file' := file.(rows := Reissued(m, file.rows, reissues));
    var m' := AfterReissue(m, reissues);
    forall k | k in reissues
      ensures Never(sv, k) && k < |file.rows| && file'.rows[k].own.Unsent? && file'.rows[k].sentGeneration.None?
      ensures !file.rows[k].own.Acknowledged?
    {
      ReissuedWereNeverAccepted(sv, file, m, reissues, k);
      assert RowInv(sv, file, k);
    }
    forall k | 0 <= k < |file.rows|
      ensures RowInv(sv, file', k) && OpInv(sv, file'.rows, m', k)
    {
      assert RowInv(sv, file, k) && OpInv(sv, file.rows, m, k);
    }
    forall a | a in sv.accepted
      ensures a.position < |file'.rows| && file'.rows[a.position].statement == a.statement
      ensures !file'.rows[a.position].own.Unsent?
    {
      assert a.position !in reissues;
    }
  }

  lemma MarkKeepsOp(sv: Server, file: File, m: Memory, n: nat, k: nat)
    requires ServerInv(sv) && FileInv(sv, file) && MemoryInv(sv, file, m)
    requires Markable(m, file.rows, n) && k < |file.rows|
    ensures RowInv(sv, file.(rows := MarkedRows(m, file.rows, n)), k)
    ensures OpInv(sv, MarkedRows(m, file.rows, n), MarkedMemory(m, n), k)
  {
    assert RowInv(sv, file, k) && OpInv(sv, file.rows, m, k);
    var i :| 0 <= i < |sv.eras| && sv.eras[i] == m.last.value;
    assert NotAfter(sv.eras, m.last.value, m.last.value);
    if file.rows[k].own.Unsent? {
      assert Never(sv, k);
    }
  }

  lemma MarkedRow(m: Memory, rows: seq<OpRow>, n: nat, k: nat)
    requires Markable(m, rows, n) && k < |rows|
    ensures
      var row := MarkedRows(m, rows, n)[k];
      row.statement == rows[k].statement && (row.own.Acknowledged? <==> rows[k].own.Acknowledged?) &&
      (row.own.Unsent? ==> rows[k].own.Unsent?) && (m.acked <= k < m.acked + n ==> row.own.Sent?)
  {
    if m.acked <= k < m.acked + n {
      assert SentRow(rows[k], m.last).Some?;
    }
  }

  lemma MarkKeepsFile(sv: Server, file: File, m: Memory, n: nat)
    requires ServerInv(sv) && FileInv(sv, file) && MemoryInv(sv, file, m) && Markable(m, file.rows, n)
    ensures FileInv(sv, file.(rows := MarkedRows(m, file.rows, n)))
  {
    var rows := MarkedRows(m, file.rows, n);
    forall k | 0 <= k < |file.rows|
      ensures RowInv(sv, file.(rows := rows), k)
    {
      MarkKeepsOp(sv, file, m, n, k);
    }
    forall a | a in sv.accepted
      ensures a.position < |rows| && rows[a.position].statement == a.statement && !rows[a.position].own.Unsent?
    {
      MarkedRow(m, file.rows, n, a.position);
    }
    forall i, j | 0 <= i < j < |rows| && rows[j].own.Acknowledged?
      ensures rows[i].own.Acknowledged?
    {
      MarkedRow(m, file.rows, n, i);
      MarkedRow(m, file.rows, n, j);
    }
  }

  lemma MarkKeepsMemory(sv: Server, file: File, m: Memory, n: nat)
    requires ServerInv(sv) && FileInv(sv, file) && MemoryInv(sv, file, m)
    requires Markable(m, file.rows, n) && (m.leaving || m.staleFrom.None?)
    ensures MemoryInv(sv, file.(rows := MarkedRows(m, file.rows, n)), MarkedMemory(m, n))
  {
    forall k | 0 <= k < |file.rows|
      ensures OpInv(sv, MarkedRows(m, file.rows, n), MarkedMemory(m, n), k)
    {
      MarkKeepsOp(sv, file, m, n, k);
    }
  }

  lemma MarkKeepsInv(sv: Server, file: File, m: Memory, n: nat)
    requires ServerInv(sv) && FileInv(sv, file) && MemoryInv(sv, file, m)
    requires Markable(m, file.rows, n) && (m.leaving || m.staleFrom.None?)
    ensures
      var file' := file.(rows := MarkedRows(m, file.rows, n));
      FileInv(sv, file') && MemoryInv(sv, file', MarkedMemory(m, n)) &&
      RequestInv(file'.rows, MarkedMemory(m, n), Batch(m, file'.rows, n))
  {
    MarkMakesRequest(m, file.rows, n);
    hide ServerInv, FileInv, MemoryInv;
    MarkKeepsFile(sv, file, m, n);
    MarkKeepsMemory(sv, file, m, n);
  }

  lemma MarkMakesRequest(m: Memory, before: seq<OpRow>, n: nat)
    requires Markable(m, before, n) && (m.leaving || m.staleFrom.None?)
    ensures var rows := MarkedRows(m, before, n); RequestInv(rows, MarkedMemory(m, n), Batch(m, rows, n))
  {
    var rows := MarkedRows(m, before, n);
    var records := Statements(rows[m.acked..m.acked + n]);
    forall i | 0 <= i < |records|
      ensures InUpload(rows, MarkedMemory(m, n), m.acked + i, records[i])
    {
      MarkedRow(m, before, n, m.acked + i);
    }
  }

  lemma PrepareUploadKeepsInv(s: System, t: System, reissues: map<nat, OpRow>, n: nat)
    requires Inv(s) && Next(s, PrepareUpload(reissues, n), t)
    ensures Inv(t)
  {
    var m := s.phase.mem;
    ReissueKeepsInv(s.server, s.file, m, reissues);
    MarkKeepsInv(s.server, s.file.(rows := Reissued(m, s.file.rows, reissues)), AfterReissue(m, reissues), n);
  }

  lemma PrepareLastKeepsInv(s: System, t: System, n: nat)
    requires Inv(s) && Next(s, PrepareLast(n), t)
    ensures Inv(t)
  {
    var m := s.phase.mem.(leaving := true);
    forall k | 0 <= k < |s.file.rows|
      ensures OpInv(s.server, s.file.rows, m, k)
    {
      assert OpInv(s.server, s.file.rows, s.phase.mem, k);
    }
    MarkKeepsInv(s.server, s.file, m, n);
  }

  // --- the exchange ---

  /** A record is taken exactly when its position is stored then, and is no conflict unless a rule says so. */
  predicate RecordWell(r: UploadResult, k: nat, length: nat, refuse: nat -> Option<Refusal>) {
    (Taken(r) <==> k < length) && (r == Rejected(Conflict) ==> refuse(k) == Some(Conflict))
  }

  predicate IsRecord(statement: Blob, i: int, records: seq<Blob>) {
    0 <= i < |records| && statement == records[i]
  }

  /** What the server does with the records of a chain it agrees with. */
  ghost predicate ReceivedWell(stored: seq<Blob>, position: nat, records: seq<Blob>, refuse: nat -> Option<Refusal>,
                               after: seq<Blob>, results: seq<UploadResult>)
  {
    stored <= after && |results| == |records| &&
    (forall j :: |stored| <= j < |after| ==> IsRecord(after[j], j - position, records)) &&
    (forall i :: 0 <= i < |results| ==> RecordWell(results[i], position + i, |after|, refuse))
  }

  /** One record was taken before the rest. */
  lemma OneMoreReceived(stored: seq<Blob>, next: seq<Blob>, position: nat, records: seq<Blob>,
                        refuse: nat -> Option<Refusal>,
                        after: seq<Blob>, rest: seq<UploadResult>, head: UploadResult)
    requires records != [] && Taken(head) && position < |next|
    requires next == stored || (position == |stored| && next == stored + [records[0]])
    requires ReceivedWell(next, position + 1, records[1..], refuse, after, rest)
    ensures ReceivedWell(stored, position, records, refuse, after, [head] + rest)
  {
    var results := [head] + rest;
    assert stored <= next && next <= after;
    assert stored <= after by {
      forall j | 0 <= j < |stored|
        ensures stored[j] == after[j]
      {
        assert stored[j] == next[j] == after[j];
      }
    }
    forall j | |stored| <= j < |after|
      ensures IsRecord(after[j], j - position, records)
    {
      if j >= |next| {
        assert IsRecord(after[j], j - (position + 1), records[1..]);
        assert records[1..][j - (position + 1)] == records[j - position];
      } else {
        assert after[j] == next[j];
      }
    }
    forall i | 0 <= i < |results|
      ensures RecordWell(results[i], position + i, |after|, refuse)
    {
      if i > 0 {
        assert results[i] == rest[i - 1] && RecordWell(rest[i - 1], position + 1 + (i - 1), |after|, refuse);
      }
    }
  }

  lemma {:induction false} ReceiveFacts(stored: seq<Blob>, position: nat, records: seq<Blob>,
                                        refuse: nat -> Option<Refusal>)
    requires forall i :: 0 <= i < |records| && position + i < |stored| ==> stored[position + i] == records[i]
    ensures
      var r := Receive(stored, position, records, refuse);
      ReceivedWell(stored, position, records, refuse, r.0, r.1)
    decreases |records|
  {
    if records == [] {
    } else {
      var r := Receive(stored, position, records, refuse);
      var held := position < |stored|;
      if held || (refuse(position).None? && position == |stored|) {
        assert held ==> stored[position + 0] == records[0];
        var next := if held then stored else stored + [records[0]];
        var head := if held then AlreadyStored else UploadResult.Stored;
        forall i | 0 <= i < |records[1..]| && position + 1 + i < |next|
          ensures next[position + 1 + i] == records[1..][i]
        {
          assert records[1..][i] == records[i + 1];
          assert position + (i + 1) < |stored|;
        }
        ReceiveFacts(next, position + 1, records[1..], refuse);
        var rest := Receive(next, position + 1, records[1..], refuse);
        OneMoreReceived(stored, next, position, records, refuse, rest.0, rest.1, head);
        assert r == (rest.0, [head] + rest.1);
      } else {
        assert r.0 == stored && |r.1| == |records| && r.1[0].Rejected?;
        assert forall i :: 1 <= i < |records| ==> r.1[i] == NotProcessed;
      }
    }
  }

  lemma GrownAccepts(sv: Server, after: seq<Blob>, a: Acceptance)
    requires AcceptedChain(sv, sv.stored) && sv.stored <= after
    ensures a in Grown(sv, after).accepted <==>
            a in sv.accepted || (|sv.stored| <= a.position < |after| && a.statement == after[a.position])
  {
    if a.position < |after| && a.statement == after[a.position] {
      assert a == Acceptance(a.position, after[a.position]);
    }
  }

  predicate MayBeAccepted(rows: seq<OpRow>, m: Memory, j: nat, statement: Blob) {
    j < |rows| && statement == rows[j].statement && !rows[j].own.Unsent? &&
    (j in m.unanswered || j < m.acked) && (m.leaving || m.staleFrom.None? || MayHaveBeenServed(m, j))
  }

  /** The records a request may add to the chain. */
  ghost predicate MayGrow(sv: Server, rows: seq<OpRow>, m: Memory, after: seq<Blob>) {
    sv.stored <= after &&
    forall j :: |sv.stored| <= j < |after| ==> MayBeAccepted(rows, m, j, after[j])
  }

  lemma GrowthKeepsInv(sv: Server, file: File, m: Memory, after: seq<Blob>)
    requires ServerInv(sv) && FileInv(sv, file) && MemoryInv(sv, file, m) && MayGrow(sv, file.rows, m, after)
    ensures
      var sv' := Grown(sv, after);
      ServerInv(sv') && FileInv(sv', file) && MemoryInv(sv', file, m)
  {
    var sv' := Grown(sv, after);
    forall a: Acceptance
      ensures a in sv'.accepted <==>
              a in sv.accepted || (|sv.stored| <= a.position < |after| && a.statement == after[a.position])
    {
      GrownAccepts(sv, after, a);
    }
    forall k: nat | Never(sv, k) && !(|sv.stored| <= k < |after|)
      ensures Never(sv', k)
    {
    }
    forall a | a in sv'.accepted
      ensures a.position < |file.rows| && file.rows[a.position].statement == a.statement
      ensures !file.rows[a.position].own.Unsent?
    {
      assert a !in sv.accepted ==> MayBeAccepted(file.rows, m, a.position, after[a.position]);
    }
    forall k | 0 <= k < |file.rows|
      ensures RowInv(sv', file, k) && OpInv(sv', file.rows, m, k)
      ensures MayHaveBeenServed(m, k) || Never(sv, k) ==>
                m.leaving || m.staleFrom.None? || MayHaveBeenServed(m, k) || Never(sv', k)
    {
      assert RowInv(sv, file, k) && OpInv(sv, file.rows, m, k);
      assert |sv.stored| <= k < |after| ==> MayBeAccepted(file.rows, m, k, after[k]);
    }
  }

  /** A chain the server holds is a prefix of the rows. */
  lemma StoredAreTheRows(sv: Server, rows: seq<OpRow>, i: nat)
    requires AcceptedChain(sv, sv.stored) && AcceptedAreHeld(sv, rows) && i < |sv.stored|
    ensures i < |rows| && sv.stored[i] == rows[i].statement && !rows[i].own.Unsent?
  {
    assert Acceptance(i, sv.stored[i]) in sv.accepted;
  }

  /** The server's chain agrees with the records of a request, which are the rows. */
  lemma RecordsAgree(sv: Server, file: File, m: Memory, request: Request, i: nat)
    requires ServerInv(sv) && FileInv(sv, file) && RequestInv(file.rows, m, request) && !request.Fetch?
    requires i < |request.records| && request.position + i < |sv.stored|
    ensures sv.stored[request.position + i] == request.records[i]
  {
    var k := request.position + i;
    StoredAreTheRows(sv, file.rows, k);
    assert request.Upload? ==> InUpload(file.rows, m, k, request.records[i]);
    assert request.Heal? ==> InHealing(file.rows, m, k, request.records[i]);
  }

  lemma ReceivedFromDevice(sv: Server, file: File, m: Memory, request: Request, refuse: nat -> Option<Refusal>)
    requires ServerInv(sv) && FileInv(sv, file) && MemoryInv(sv, file, m)
    requires RequestInv(file.rows, m, request) && !request.Fetch?
    ensures
      var r := Receive(sv.stored, request.position, request.records, refuse);
      ReceivedWell(sv.stored, request.position, request.records, refuse, r.0, r.1) && MayGrow(sv, file.rows, m, r.0)
  {
    forall i | 0 <= i < |request.records| && request.position + i < |sv.stored|
      ensures sv.stored[request.position + i] == request.records[i]
    {
      RecordsAgree(sv, file, m, request, i);
    }
    ReceiveFacts(sv.stored, request.position, request.records, refuse);
    var after := Receive(sv.stored, request.position, request.records, refuse).0;
    forall j | |sv.stored| <= j < |after|
      ensures MayBeAccepted(file.rows, m, j, after[j])
    {
      var i := j - request.position;
      assert IsRecord(after[j], i, request.records);
      if request.Upload? {
        assert InUpload(file.rows, m, request.position + i, request.records[i]);
      } else {
        assert InHealing(file.rows, m, request.position + i, request.records[i]);
        assert OpInv(sv, file.rows, m, j);
      }
    }
  }

  lemma UploadHandled(sv: Server, file: File, m: Memory, position: nat, records: seq<Blob>,
                      refuse: nat -> Option<Refusal>)
    requires ServerInv(sv) && FileInv(sv, file) && MemoryInv(sv, file, m)
    requires RequestInv(file.rows, m, Upload(position, records))
    ensures
      var h := Handled(sv, Upload(position, records), refuse);
      MayGrow(sv, file.rows, m, h.0) &&
      ReplyInv(Grown(sv, h.0), file.rows, m, Upload(position, records), h.1)
  {
    ReceivedFromDevice(sv, file, m, Upload(position, records), refuse);
    var r := Receive(sv.stored, position, records, refuse);
    var after, results := r.0, r.1;
    GrowthKeepsInv(sv, file, m, after);
    var sv' := Grown(sv, after);
    if m.last.Some? {
      CurrentIsLast(sv, m.last.value);
    }
    forall i | 0 <= i < |results| && !Taken(results[i])
      ensures NeverFrom(sv', m, position + i, Current(sv))
    {
      assert RecordWell(results[i], position + i, |after|, refuse);
      forall j | j in m.unanswered && j >= position + i && m.unanswered[j] == Current(sv)
        ensures Never(sv', j)
      {
        assert OpInv(sv', file.rows, m, j);
      }
    }
    forall i, j | 0 <= i < j < |results| && Taken(results[j])
      ensures Taken(results[i])
    {
      assert RecordWell(results[i], position + i, |after|, refuse);
      assert RecordWell(results[j], position + j, |after|, refuse);
    }
    assert ResultsInv(sv', m, position, results, Current(sv));
  }

  lemma HealHandled(sv: Server, file: File, m: Memory, position: nat, records: seq<Blob>,
                    refuse: nat -> Option<Refusal>)
    requires ServerInv(sv) && FileInv(sv, file) && MemoryInv(sv, file, m)
    requires RequestInv(file.rows, m, Heal(position, records))
    ensures
      var h := Handled(sv, Heal(position, records), refuse);
      MayGrow(sv, file.rows, m, h.0) &&
      ReplyInv(Grown(sv, h.0), file.rows, m, Heal(position, records), h.1)
  {
    ReceivedFromDevice(sv, file, m, Heal(position, records), refuse);
    var h := Handled(sv, Heal(position, records), refuse);
    if m.last.Some? {
      CurrentIsLast(sv, m.last.value);
    }
    if h.1.Healed? {
      var after, results := h.0, Receive(sv.stored, position, records, refuse).1;
      GrowthKeepsInv(sv, file, m, after);
      var top := position + |records| - 1;
      assert Taken(results[|records| - 1]) && RecordWell(results[|records| - 1], top, |after|, refuse);
      forall k | 0 <= k <= top
        ensures k < |file.rows| && !file.rows[k].own.Unsent?
      {
        StoredAreTheRows(Grown(sv, after), file.rows, k);
      }
    }
  }

  lemma HandleKeepsInv(s: System, t: System, refuse: nat -> Option<Refusal>)
    requires Inv(s) && Next(s, Handle(refuse), t)
    ensures Inv(t)
  {
    var sv, file, m := s.server, s.file, s.phase.mem;
    match s.phase.request
    case Fetch =>
      GrowthKeepsInv(sv, file, m, sv.stored);
      if m.last.Some? {
        CurrentIsLast(sv, m.last.value);
      }
    case Upload(position, records) =>
      UploadHandled(sv, file, m, position, records, refuse);
      GrowthKeepsInv(sv, file, m, Handled(sv, s.phase.request, refuse).0);
    case Heal(position, records) =>
      HealHandled(sv, file, m, position, records, refuse);
      GrowthKeepsInv(sv, file, m, Handled(sv, s.phase.request, refuse).0);
  }

  /** The file and the memory agree with the server. */
  ghost predicate DeviceInv(sv: Server, file: File, m: Memory) {
    ServerInv(sv) && FileInv(sv, file) && MemoryInv(sv, file, m)
  }

  /** A later generation was seen. */
  lemma ObserveKeepsInv(sv: Server, file: File, m: Memory, g: Id)
    requires DeviceInv(sv, file, m) && g in sv.eras && (m.last.Some? ==> NotAfter(sv.eras, m.last.value, g))
    ensures DeviceInv(sv, file.(generation := Some(g)), m.(last := Some(g)))
  {
    var file', m' := file.(generation := Some(g)), m.(last := Some(g));
    forall k | 0 <= k < |file.rows|
      ensures RowInv(sv, file', k) && OpInv(sv, file.rows, m', k)
      ensures MayHaveBeenServed(m, k) ==> MayHaveBeenServed(m', k)
    {
      assert RowInv(sv, file, k) && OpInv(sv, file.rows, m, k);
      if file.rows[k].sentGeneration.Some? {
        NotAfterIsAnOrder(sv.eras, file.rows[k].sentGeneration.value, m.last.value, g);
      }
      if k in m.unanswered {
        NotAfterIsAnOrder(sv.eras, m.unanswered[k], m.last.value, g);
      }
    }
  }

  lemma AcknowledgeKeepsInv(sv: Server, file: File, m: Memory)
    requires DeviceInv(sv, file, m) && m.acked < |file.rows| && file.rows[m.acked].own.Sent?
    ensures
      var d := Acknowledge(Device(file.rows, m), m.acked);
      d.Some? && DeviceInv(sv, file.(rows := d.value.rows), d.value.mem) && d.value.mem.acked == m.acked + 1 &&
      d.value.mem.last == m.last && d.value.rows == file.rows[m.acked := AckRow(file.rows[m.acked]).value] &&
      forall j, g :: NeverFrom(sv, m, j, g) ==> NeverFrom(sv, d.value.mem, j, g)
  {
    var d := Acknowledge(Device(file.rows, m), m.acked).value;
    var file', m' := file.(rows := d.rows), d.mem;
    forall k | 0 <= k < |file.rows|
      ensures RowInv(sv, file', k) && OpInv(sv, file'.rows, m', k)
    {
      assert RowInv(sv, file, k) && OpInv(sv, file.rows, m, k);
    }
    forall i, j | 0 <= i < j < |file'.rows| && file'.rows[j].own.Acknowledged?
      ensures file'.rows[i].own.Acknowledged?
    {
      assert OpInv(sv, file'.rows, m', i) && OpInv(sv, file'.rows, m', j);
    }
  }

  lemma NotStoredKeepsInv(sv: Server, file: File, m: Memory, k: nat, r: UploadResult, g: Id)
    requires DeviceInv(sv, file, m) && m.last == Some(g) && k < |file.rows| && NeverFrom(sv, m, k, g)
    ensures
      var d := NotStored(Device(file.rows, m), k, r, g);
      d.rows == file.rows && DeviceInv(sv, file, d.mem) && d.mem.last == m.last && d.mem.acked == m.acked &&
      forall j :: NeverFrom(sv, m, j, g) ==> NeverFrom(sv, d.mem, j, g)
  {
    var m' := NotStored(Device(file.rows, m), k, r, g).mem;
    forall j | 0 <= j < |file.rows|
      ensures OpInv(sv, file.rows, m', j)
      ensures j >= k ==> MayHaveBeenServed(m', j) || Never(sv, j)
      ensures MayHaveBeenServed(m, j) ==> MayHaveBeenServed(m', j) || Never(sv, j)
    {
      assert OpInv(sv, file.rows, m, j) && RowInv(sv, file, j);
      if j >= k && j !in m'.unanswered && j >= m.acked && file.rows[j].own.Unsent? {
        assert Never(sv, j);
      }
    }
  }

  lemma {:induction false} AnsweredKeepsInv(sv: Server, file: File, m: Memory, k: nat, results: seq<UploadResult>,
                                            g: Id)
    requires DeviceInv(sv, file, m) && m.last == Some(g) && k + |results| <= |file.rows|
    requires ResultsInv(sv, m, k, results, g)
    requires forall i :: k <= i < k + |results| ==> file.rows[i].own.Sent?
    requires |results| > 0 && Taken(results[0]) ==> m.acked == k
    ensures
      var d := Answered(Device(file.rows, m), k, results, g);
      d.Some? && DeviceInv(sv, file.(rows := d.value.rows), d.value.mem)
    decreases |results|
  {
    if results == [] {
      assert file.(rows := file.rows) == file;
    } else {
      var rest := results[1..];
      assert forall i :: 0 <= i < |rest| ==> rest[i] == results[i + 1];
      if Taken(results[0]) {
        AcknowledgeKeepsInv(sv, file, m);
        var d := Acknowledge(Device(file.rows, m), k).value;
        assert ResultsInv(sv, d.mem, k + 1, rest, g);
        AnsweredKeepsInv(sv, file.(rows := d.rows), d.mem, k + 1, rest, g);
      } else {
        assert NeverFrom(sv, m, k + 0, g);
        NotStoredKeepsInv(sv, file, m, k, results[0], g);
        var d := NotStored(Device(file.rows, m), k, results[0], g);
        assert ResultsInv(sv, d.mem, k + 1, rest, g);
        AnsweredKeepsInv(sv, file, d.mem, k + 1, rest, g);
      }
    }
  }

  lemma {:induction false} AckedUpToKeepsInv(sv: Server, file: File, m: Memory, top: nat)
    requires DeviceInv(sv, file, m) && top <= |file.rows|
    requires forall k :: 0 <= k < top ==> !file.rows[k].own.Unsent?
    ensures
      var d := AckedUpTo(Device(file.rows, m), top);
      d.Some? && DeviceInv(sv, file.(rows := d.value.rows), d.value.mem) && d.value.mem.last == m.last
    decreases top - m.acked
  {
    if m.acked >= top {
      assert file.(rows := file.rows) == file;
    } else {
      assert RowInv(sv, file, m.acked) && OpInv(sv, file.rows, m, m.acked);
      AcknowledgeKeepsInv(sv, file, m);
      var d := Acknowledge(Device(file.rows, m), m.acked).value;
      AckedUpToKeepsInv(sv, file.(rows := d.rows), d.mem, top);
    }
  }

  /** No guard ever refuses the commit of an answer, and the invariant survives it. */
  lemma AppliedKeepsInv(sv: Server, file: File, m: Memory, request: Request, reply: Reply)
    requires DeviceInv(sv, file, m) && RequestInv(file.rows, m, request)
    requires ReplyInv(sv, file.rows, m, request, reply)
    ensures
      var d := Applied(file.rows, m, request, reply);
      d.Some? && DeviceInv(sv, File(d.value.rows, d.value.mem.last), d.value.mem)
  {
    match (request, reply)
    case (Fetch, Fetched(g)) => ObserveKeepsInv(sv, file, m, g);
    case (Upload(position, records), Uploaded(g, results)) =>
      ObserveKeepsInv(sv, file, m, g);
      assert ResultsInv(sv, m.(last := Some(g)), position, results, g) by {
        assert forall j :: NeverFrom(sv, m, j, g) ==> NeverFrom(sv, m.(last := Some(g)), j, g);
      }
      forall i | position <= i < position + |results|
        ensures file.rows[i].own.Sent?
      {
        assert InUpload(file.rows, m, position + (i - position), records[i - position]);
      }
      AnsweredKeepsInv(sv, file.(generation := Some(g)), m.(last := Some(g)), position, results, g);
    case (Heal(position, records), Healed(g)) =>
      ObserveKeepsInv(sv, file, m, g);
      AckedUpToKeepsInv(sv, file.(generation := Some(g)), m.(last := Some(g)), position + |records|);
    case (Heal(_, _), HealRefused) => assert File(file.rows, m.last) == file;
  }

  lemma PrepareHealKeepsInv(s: System, t: System, from: nat, n: nat)
    requires Inv(s) && Next(s, PrepareHeal(from, n), t)
    ensures Inv(t)
  {
  }

  lemma AnswerKeepsInv(s: System, t: System)
    requires Inv(s) && Next(s, Answer, t)
    ensures Inv(t)
  {
    AppliedKeepsInv(s.server, s.file, s.phase.mem, s.phase.request, s.phase.reply.value);
  }

  lemma QuietStepKeepsInv(s: System, a: Action, t: System)
    requires Inv(s) && Next(s, a, t)
    requires a.Crash? || a.PrepareFetch? || a.ForgetStale? || a.Send? || a.Lost?
    ensures Inv(t)
  {
    if a.ForgetStale? {
      forall k | 0 <= k < |s.file.rows|
        ensures OpInv(t.server, t.file.rows, t.phase.mem, k)
      {
        assert OpInv(s.server, s.file.rows, s.phase.mem, k);
      }
    }
  }

  lemma StepKeepsInv(s: System, a: Action, t: System)
    requires Inv(s) && Next(s, a, t)
    ensures Inv(t)
  {
    match a
    case Restore(chain, generation) => RestoreKeepsInv(s, t, chain, generation);
    case OthersHeal(statement) => OthersHealKeepsInv(s, t, statement);
    case Open => OpenKeepsInv(s, t);
    case Edit(row) => EditKeepsInv(s, t, row);
    case PrepareUpload(reissues, n) => PrepareUploadKeepsInv(s, t, reissues, n);
    case PrepareLast(n) => PrepareLastKeepsInv(s, t, n);
    case PrepareHeal(from, n) => PrepareHealKeepsInv(s, t, from, n);
    case Handle(refuse) => HandleKeepsInv(s, t, refuse);
    case Answer => AnswerKeepsInv(s, t);
    case _ => QuietStepKeepsInv(s, a, t);
  }

  lemma {:induction false} RunKeepsInv(run: seq<System>, i: nat)
    requires IsRun(run) && i < |run|
    ensures Inv(run[i])
  {
    if i > 0 {
      RunKeepsInv(run, i - 1);
      assert StepAt(run, i);
      var a :| Next(run[i - 1], a, run[i]);
      StepKeepsInv(run[i - 1], a, run[i]);
    }
  }

  // ---------- the results ----------

  /** The device never equivocates: at most one statement was ever accepted at a position of its chain. */
  lemma NeverEquivocates(run: seq<System>, i: nat, a: Acceptance, b: Acceptance)
    requires IsRun(run) && i < |run|
    requires a in run[i].server.accepted && b in run[i].server.accepted && a.position == b.position
    ensures a == b
  {
    RunKeepsInv(run, i);
  }

  /** What was ever accepted is in the file, still under the statement that was accepted, and marked as sent. */
  lemma AcceptedStayInTheFile(run: seq<System>, i: nat, a: Acceptance)
    requires IsRun(run) && i < |run| && a in run[i].server.accepted
    ensures
      var rows := run[i].file.rows;
      a.position < |rows| && rows[a.position].statement == a.statement && WasSent(rows[a.position].own)
  {
    RunKeepsInv(run, i);
    assert RowInv(run[i].server, run[i].file, a.position);
  }

  predicate WasSent(own: Own) {
    own.Sent? || own.Acknowledged?
  }

  /** An honest server never answers a conflict of its own accord, so the alarm of an outdated device is never false. */
  lemma NeverAFalseConflict(run: seq<System>, i: nat, refuse: nat -> Option<Refusal>)
    requires IsRun(run) && i < |run| && run[i].phase.InFlight? && run[i].phase.request.Upload?
    requires |run[i].server.eras| > 0
    requires forall k: nat :: refuse(k) != Some(Conflict)
    ensures
      var h := Handled(run[i].server, run[i].phase.request, refuse);
      h.1.Uploaded? && Rejected(Conflict) !in h.1.results
  {
    RunKeepsInv(run, i);
    var s := run[i];
    var request := s.phase.request;
    forall j | 0 <= j < |s.server.stored|
      ensures j < |s.file.rows| && s.server.stored[j] == s.file.rows[j].statement
    {
      StoredAreTheRows(s.server, s.file.rows, j);
    }
    ReceiveFacts(s.server.stored, request.position, request.records, refuse);
  }

  /**
   The generation on disk is enough: when the server answers, under the very generation of the first
   send, that it does not hold an op, it never accepted that op, in this or any lost state.
   */
  lemma SameGenerationIsProof(run: seq<System>, i: nat, k: nat)
    requires IsRun(run) && i < |run| && k < |run[i].file.rows|
    requires run[i].file.rows[k].own.Sent? && |run[i].server.eras| > 0
    requires run[i].file.rows[k].sentGeneration == Some(Current(run[i].server)) && k >= |run[i].server.stored|
    ensures Never(run[i].server, k)
  {
    RunKeepsInv(run, i);
    assert RowInv(run[i].server, run[i].file, k);
  }

  /** The commit of an answer is never refused: the process always gets past it. */
  lemma AnswersAlwaysCommit(run: seq<System>, i: nat)
    requires IsRun(run) && i < |run| && run[i].phase.InFlight? && run[i].phase.reply.Some?
    ensures exists t :: Next(run[i], Answer, t)
  {
    RunKeepsInv(run, i);
    var s := run[i];
    AppliedKeepsInv(s.server, s.file, s.phase.mem, s.phase.request, s.phase.reply.value);
    var d := Applied(s.file.rows, s.phase.mem, s.phase.request, s.phase.reply.value).value;
    assert Next(s, Answer, s.(file := File(d.rows, d.mem.last), phase := Idle(d.mem)));
  }

  // ---------- reachable states, for the code in its own form ----------

  ghost predicate Reachable(s: System) {
    exists run :: IsRun(run) && run[|run| - 1] == s
  }

  lemma InitIsReachable(s: System)
    requires Init(s)
    ensures Reachable(s)
  {
    assert IsRun([s]);
  }

  lemma ReachableMeetsInv(s: System)
    requires Reachable(s)
    ensures Inv(s)
  {
    var run :| IsRun(run) && run[|run| - 1] == s;
    RunKeepsInv(run, |run| - 1);
  }

  /** One more step of a run. */
  lemma Advance(s: System, a: Action, t: System)
    requires Reachable(s) && Next(s, a, t)
    ensures Reachable(t)
  {
    var run :| IsRun(run) && run[|run| - 1] == s;
    var longer := run + [t];
    forall i: nat | 0 < i < |longer|
      ensures StepAt(longer, i)
    {
      if i < |run| {
        assert StepAt(run, i);
      } else {
        assert Next(longer[i - 1], a, longer[i]);
      }
    }
    assert IsRun(longer);
  }

  predicate NoneRejected(results: seq<UploadResult>) {
    forall i :: 0 <= i < |results| ==> !results[i].Rejected?
  }

  predicate AllTaken(results: seq<UploadResult>) {
    forall i :: 0 <= i < |results| ==> Taken(results[i])
  }

  /** Where not every record was taken, one was rejected. */
  lemma {:induction false} LeftOutMeansRejected(stored: seq<Blob>, position: nat, records: seq<Blob>,
                                                refuse: nat -> Option<Refusal>)
    ensures
      var results := Receive(stored, position, records, refuse).1;
      |results| == |records| && (NoneRejected(results) ==> AllTaken(results))
    decreases |records|
  {
    if records == [] {
    } else {
      var held := position < |stored|;
      var results := Receive(stored, position, records, refuse).1;
      if Taken(results[0]) {
        var next := if held then stored else stored + [records[0]];
        var rest := Receive(next, position + 1, records[1..], refuse).1;
        LeftOutMeansRejected(next, position + 1, records[1..], refuse);
        assert results == [results[0]] + rest;
        if NoneRejected(results) {
          assert forall i :: 0 <= i < |rest| ==> rest[i] == results[i + 1];
          assert forall i :: 0 < i < |results| ==> results[i] == rest[i - 1];
        }
      } else {
        assert results[0].Rejected?;
      }
    }
  }

  /** An upload of which every record was taken acknowledges them all. */
  lemma {:induction false} AllTakenAreAcked(d: Device, k: nat, results: seq<UploadResult>, g: Id)
    requires k + |results| <= |d.rows| && Answered(d, k, results, g).Some?
    requires AllTaken(results)
    ensures Answered(d, k, results, g).value.mem.acked >= if results == [] then d.mem.acked else k + |results|
    decreases |results|
  {
    if results == [] {
    } else {
      var next := Acknowledge(d, k).value;
      assert forall i :: 0 <= i < |results[1..]| ==> results[1..][i] == results[i + 1];
      AllTakenAreAcked(next, k + 1, results[1..], g);
    }
  }

  lemma {:induction false} AnsweredKeepsLength(d: Device, k: nat, results: seq<UploadResult>, g: Id)
    requires k + |results| <= |d.rows| && Answered(d, k, results, g).Some?
    ensures
      var after := Answered(d, k, results, g).value;
      |after.rows| == |d.rows| && after.mem.acked >= d.mem.acked && after.mem.leaving == d.mem.leaving
    decreases |results|
  {
    if results == [] {
    } else if Taken(results[0]) {
      AnsweredKeepsLength(Acknowledge(d, k).value, k + 1, results[1..], g);
    } else {
      AnsweredKeepsLength(NotStored(d, k, results[0], g), k + 1, results[1..], g);
    }
  }

  /** Rows from the first unacknowledged one on can always be marked sent. */
  lemma UnacknowledgedAreMarkable(sv: Server, file: File, m: Memory, n: nat)
    requires DeviceInv(sv, file, m) && m.last.Some? && n > 0 && m.acked + n <= |file.rows|
    ensures Markable(m, file.rows, n)
  {
    forall k | m.acked <= k < m.acked + n
      ensures SentRow(file.rows[k], m.last).Some?
    {
      assert RowInv(sv, file, k) && OpInv(sv, file.rows, m, k);
    }
  }

  /** Everything acknowledged in memory is acknowledged on disk. */
  lemma AllAckedOnDisk(s: System, k: nat)
    requires Reachable(s) && s.phase.Idle? && k < s.phase.mem.acked
    ensures k < |s.file.rows| && s.file.rows[k].own.Acknowledged?
  {
    ReachableMeetsInv(s);
    assert OpInv(s.server, s.file.rows, s.phase.mem, k);
  }

  lemma {:induction false} AckedUpToKeepsLength(d: Device, top: nat)
    requires top <= |d.rows| && AckedUpTo(d, top).Some?
    ensures
      var after := AckedUpTo(d, top).value;
      |after.rows| == |d.rows| && after.mem.acked >= d.mem.acked && after.mem.leaving == d.mem.leaving
    decreases top - d.mem.acked
  {
    if d.mem.acked < top {
      AckedUpToKeepsLength(Acknowledge(d, d.mem.acked).value, top);
    }
  }
}
