/**
 The floors of the cache: the check every changeset passes before it is written
 (crates/rizzy-client/src/store/floors.rs). An admitted changeset never meets an SQL guard that
 refuses it, and leaves exactly what the reference executor says; the index then moves with the file.
 */
module CacheFloors {
  import opened Base
  import opened CacheRows

  datatype StateFloor = StateFloor(stateSeq: nat, settingsSeq: nat, wire: Blob)

  datatype VaultFloor = VaultFloor(epoch: nat, keyId: Id)

  datatype OpFloor = OpFloor(statement: Blob, own: Own, sentGeneration: Option<Id>)

  datatype SnapshotFloor = SnapshotFloor(statement: Blob, own: Own)

  /** The index of what the file holds. */
  datatype Floors = Floors(
    fixed: map<MetaKey, Blob>,
    nextDeviceSeq: nat,
    clock: nat,
    state: Option<StateFloor>,
    objects: map<ObjectKey, Blob>,
    vaults: map<Id, VaultFloor>,
    ops: map<OpKey, OpFloor>,
    snapshots: map<SnapshotKey, SnapshotFloor>)

  const NO_FLOORS := Floors(map[], 0, 0, None, map[], map[], map[], map[])

  /** A changeset half checked: where the index would be, and what `Finish` still needs. */
  datatype Pending = Pending(at: Floors, base: nat, touched: set<OpKey>, names: Option<Names>,
                             clearedRollback: bool, stateWritten: bool)

  const MAX_UPLOAD_BODY_LEN := 0x1000_0000

  // The alarms a flow resolves, by their key byte.
  const ROLLBACK: Byte := 1
  const UNCONFIRMED_IDENTITY_CHANGE: Byte := 3

  predicate Immutable(kind: Kind) {
    kind.Bundle? || kind.Settings? || kind.Alarm?
  }

  /** The `own` column moves only from unsent to sent to acknowledged; a move to sent names a generation. */
  predicate Advances(from: Own, to: Own, hasGeneration: bool) {
    match to
    case Sent => (from.Unsent? || from.Sent?) && hasGeneration
    case Acknowledged => from.Sent? || from.Acknowledged?
    case _ => false
  }

  function CheckMeta(f: Floors, k: MetaKey, value: Blob): Option<Floors> {
    if IsCounter(k) then
      var held := if k.NextDeviceSeq? then f.nextDeviceSeq else f.clock;
      if |value| != 8 || (k.NextDeviceSeq? && Numeric(value) == 0) || Numeric(value) < held then None
      else if k.NextDeviceSeq? then Some(f.(nextDeviceSeq := Numeric(value)))
      else Some(f.(clock := Numeric(value)))
    else
      var valid :=
        match k
        case Format => value == [0, 1]
        case ServerOrigin => value != []
        case _ => |value| == 16;
      if !valid || (k in f.fixed && f.fixed[k] != value) then None
      else Some(f.(fixed := f.fixed[k := value]))
  }

  function CheckObject(f: Floors, key: ObjectKey, bytes: Blob): Option<Floors> {
    var length :=
      match key.kind
      case Bundle | Settings => 8
      case IdentityKeys => 4
      case Alarm => 1
      case _ => -1;
    if |key.key| != length || (bytes == [] && !key.kind.Alarm?) then None
    else if !Immutable(key.kind) then Some(f)
    else if !key.kind.Alarm? && key in f.objects && f.objects[key] != bytes then None
    else Some(f.(objects := f.objects[key := bytes]))
  }

  function CheckState(f: Floors, wire: Blob, stateSeq: nat, settingsSeq: nat): Option<Floors> {
    if f.state.Some? &&
       (stateSeq < f.state.value.stateSeq || settingsSeq < f.state.value.settingsSeq ||
        (stateSeq == f.state.value.stateSeq && wire != f.state.value.wire)) then None
    else Some(f.(state := Some(StateFloor(stateSeq, settingsSeq, wire))))
  }

  function CheckGrant(f: Floors, grant: Grant, keyId: Id): Option<Floors> {
    if grant.vault in f.vaults &&
       (grant.epoch < f.vaults[grant.vault].epoch ||
        (grant.epoch == f.vaults[grant.vault].epoch && keyId != f.vaults[grant.vault].keyId)) then None
    else Some(f.(vaults := f.vaults[grant.vault := VaultFloor(grant.epoch, keyId)]))
  }

  function CheckPutOp(p: Pending, key: OpKey, row: OpRow): Option<Pending> {
    var f := p.at;
    if key in f.ops then if f.ops[key].statement == row.statement then Some(p) else None
    else
      var ownDevice := DeviceId in f.fixed && f.fixed[DeviceId] == key.device;
      if key.vault !in f.vaults || row.sentGeneration.Some? then None
      else if (row.own.Served? && !ownDevice) ||
              (row.own.Unsent? && ownDevice && key.deviceSeq >= p.base && key.deviceSeq >= 1) then
        Some(p.(at := f.(ops := f.ops[key := OpFloor(row.statement, row.own, None)]), touched := p.touched + {key}))
      else None
  }

  function CheckReissue(p: Pending, key: OpKey, row: OpRow, stale: Option<Id>): Option<Pending> {
    var f := p.at;
    if key !in f.ops || !row.own.Unsent? then None
    else
      var held := f.ops[key];
      if held.own.Unsent? || (held.own.Sent? && stale.Some? && held.sentGeneration == stale) then
        Some(p.(at := f.(ops := f.ops[key := OpFloor(row.statement, Unsent, None)]), touched := p.touched + {key}))
      else None
  }

  function CheckOpOwn(p: Pending, key: OpKey, to: Own, generation: Option<Id>): Option<Pending> {
    var f := p.at;
    if key !in f.ops || !Advances(f.ops[key].own, to, generation.Some?) then None
    else
      var held := f.ops[key].(own := to, sentGeneration := Or(f.ops[key].sentGeneration, generation));
      Some(p.(at := f.(ops := f.ops[key := held]), touched := p.touched + {key}))
  }

  function CheckPutSnapshot(f: Floors, key: SnapshotKey, row: SnapshotRow): Option<Floors> {
    if key in f.snapshots then if f.snapshots[key].statement == row.statement then Some(f) else None
    else if !(row.own.Served? || row.own.Unsent?) || row.sentGeneration.Some? || key.vault !in f.vaults then None
    else Some(f.(snapshots := f.snapshots[key := SnapshotFloor(row.statement, row.own)]))
  }

  function CheckSnapshotOwn(f: Floors, key: SnapshotKey, to: Own, generation: Option<Id>): Option<Floors> {
    if key !in f.snapshots || !Advances(f.snapshots[key].own, to, generation.Some?) then None
    else Some(f.(snapshots := f.snapshots[key := f.snapshots[key].(own := to)]))
  }

  function Moved(p: Pending, f: Option<Floors>): Option<Pending> {
    match f
    case None => None
    case Some(at) => Some(p.(at := at))
  }

  /** One write against the rules of the floors. */
  function Check(p: Pending, w: Write): Option<Pending> {
    match w
    case Meta(k, value) => Moved(p, CheckMeta(p.at, k, value))
    case DeviceState(_, names) => if names.None? then None else Some(p.(names := names))
    case PendingCommit(request) =>
      if request.Some? && (request.value == [] || |request.value| > MAX_UPLOAD_BODY_LEN) then None else Some(p)
    case AccountState(wire, stateSeq, settingsSeq) =>
      var f := CheckState(p.at, wire, stateSeq, settingsSeq);
      if f.None? then None else Some(p.(at := f.value, stateWritten := true))
    case PutObject(key, bytes) => Moved(p, CheckObject(p.at, key, bytes))
    case ClearAlarm(alarm) =>
      if alarm == UNCONFIRMED_IDENTITY_CHANGE then Some(p)
      else if alarm == ROLLBACK then Some(p.(clearedRollback := true))
      else None
    case DeviceSet(certificates, revocations) =>
      if exists i :: 0 <= i < |certificates + revocations| && (certificates + revocations)[i].wire == [] then None
      else Some(p)
    case VaultGrant(grant, keyId) => Moved(p, CheckGrant(p.at, grant, keyId))
    case VaultGeneration(vault, _) => if vault in p.at.vaults then Some(p) else None
    case Wraps(vault, epoch, wraps) =>
      if vault !in p.at.vaults || p.at.vaults[vault].epoch != epoch ||
         exists i :: 0 <= i < |wraps| && (wraps[i].key.vault != vault || wraps[i].row.epoch != epoch) then None
      else Some(p)
    case PutOp(key, row) => CheckPutOp(p, key, row)
    case ReissueOp(key, row, stale) => CheckReissue(p, key, row, stale)
    case OpOwn(key, to, generation) => CheckOpOwn(p, key, to, generation)
    case PutSnapshot(key, row) => Moved(p, CheckPutSnapshot(p.at, key, row))
    case SnapshotOwn(key, to, generation) => Moved(p, CheckSnapshotOwn(p.at, key, to, generation))
    case PruneOpBody(key) => if key in p.at.ops && p.at.ops[key].own.Served? then Some(p) else None
    case DeleteSnapshot(key) =>
      if key !in p.at.snapshots then Some(p)
      else if p.at.snapshots[key].own.Unsent? || p.at.snapshots[key].own.Sent? then
        Some(p.(at := p.at.(snapshots := p.at.snapshots - {key})))
      else None
  }

  function CheckAll(p: Pending, writes: seq<Write>): Option<Pending>
    decreases |writes|
  {
    if writes == [] then Some(p)
    else
      var next := Check(p, writes[0]);
      if next.None? then None else CheckAll(next.value, writes[1..])
  }

  /** The rules that need the whole changeset. */
  predicate Finish(p: Pending) {
    (p.clearedRollback ==> p.stateWritten) &&
    (forall k :: k in p.touched && k in p.at.ops && !p.at.ops[k].own.Served? ==> k.deviceSeq < p.at.nextDeviceSeq) &&
    (p.names.Some? ==>
       AccountId in p.at.fixed && p.at.fixed[AccountId] == p.names.value.account &&
       DeviceId in p.at.fixed && p.at.fixed[DeviceId] == p.names.value.device)
  }

  function Begin(f: Floors): Pending {
    Pending(f, f.nextDeviceSeq, {}, None, false, false)
  }

  /** The index after an admitted changeset, `None` when a rule refuses it. */
  function Admit(f: Floors, writes: seq<Write>): Option<Floors> {
    var p := CheckAll(Begin(f), writes);
    if p.Some? && Finish(p.value) then Some(p.value.at) else None
  }

  // ---------- the index and the file ----------

  predicate CounterIndexed(meta: map<MetaKey, Blob>, k: MetaKey, number: nat) {
    if k in meta then |meta[k]| == 8 && Numeric(meta[k]) == number else number == 0
  }

  predicate MetaIndexed(fixed: map<MetaKey, Blob>, nextDeviceSeq: nat, clock: nat, meta: map<MetaKey, Blob>) {
    CounterIndexed(meta, NextDeviceSeq, nextDeviceSeq) && CounterIndexed(meta, Clock, clock) &&
    (forall k :: k in fixed ==> k in meta && !IsCounter(k) && fixed[k] == meta[k]) &&
    (forall k :: k in meta && !IsCounter(k) ==> k in fixed)
  }

  predicate ObjectsIndexed(indexed: map<ObjectKey, Blob>, state: Option<StateFloor>, objects: map<ObjectKey, Blob>) {
    (forall k :: k in indexed && !k.kind.Alarm? ==> k in objects && indexed[k] == objects[k]) &&
    (forall k :: k in objects && (k.kind.Bundle? || k.kind.Settings?) ==> k in indexed) &&
    (forall k :: k in indexed ==> Immutable(k.kind)) &&
    (state.Some? ==> ObjectKey(State, []) in objects && objects[ObjectKey(State, [])] == state.value.wire)
  }

  predicate VaultsIndexed(indexed: map<Id, VaultFloor>, vaults: map<Id, VaultRow>) {
    (forall v :: v in indexed ==> v in vaults && vaults[v].grant.epoch == indexed[v].epoch) &&
    (forall v :: v in vaults ==> v in indexed)
  }

  predicate OpsIndexed(indexed: map<OpKey, OpFloor>, ops: map<OpKey, OpRow>) {
    (forall k :: k in indexed ==>
       k in ops && indexed[k] == OpFloor(ops[k].statement, ops[k].own, ops[k].sentGeneration)) &&
    (forall k :: k in ops ==> k in indexed)
  }

  predicate SnapshotsIndexed(indexed: map<SnapshotKey, SnapshotFloor>, snapshots: map<SnapshotKey, SnapshotRow>) {
    (forall k :: k in indexed ==>
       k in snapshots && indexed[k] == SnapshotFloor(snapshots[k].statement, snapshots[k].own)) &&
    (forall k :: k in snapshots ==> k in indexed)
  }

  /** The index holds exactly what the tables hold. */
  predicate IndexOf(f: Floors, t: Tables) {
    MetaIndexed(f.fixed, f.nextDeviceSeq, f.clock, t.meta) && ObjectsIndexed(f.objects, f.state, t.objects) &&
    VaultsIndexed(f.vaults, t.vaults) && OpsIndexed(f.ops, t.ops) && SnapshotsIndexed(f.snapshots, t.snapshots)
  }

  predicate WasSent(own: Own) {
    own.Sent? || own.Acknowledged?
  }

  predicate OpGenerationsSet(ops: map<OpKey, OpRow>) {
    forall k :: k in ops ==> (ops[k].sentGeneration.Some? <==> WasSent(ops[k].own))
  }

  predicate SnapshotGenerationsSet(snapshots: map<SnapshotKey, SnapshotRow>) {
    forall k :: k in snapshots ==> (snapshots[k].sentGeneration.Some? <==> WasSent(snapshots[k].own))
  }

  /** A generation is set exactly on the rows that were sent. */
  predicate GenerationsSet(t: Tables) {
    OpGenerationsSet(t.ops) && SnapshotGenerationsSet(t.snapshots)
  }

  /** What one admitted write means for the file. */
  predicate Runs(p': Pending, t: Tables, w: Write) {
    Sql(t, w).Some? && OwnVaultOnly(w) && !Diverges(t, w) &&
    IndexOf(p'.at, Sql(t, w).value) && GenerationsSet(Sql(t, w).value)
  }

  // ---------- an admitted write runs ----------

  lemma MetaGuardHolds(f: Floors, meta: map<MetaKey, Blob>, k: MetaKey, value: Blob)
    requires MetaIndexed(f.fixed, f.nextDeviceSeq, f.clock, meta) && CheckMeta(f, k, value).Some?
    ensures k in meta ==> if IsCounter(k) then BlobLeq(meta[k], value) else meta[k] == value
  {
    if IsCounter(k) && k in meta {
      BlobOrderIsNumeric(meta[k], value);
    }
  }

  lemma CounterRuns(f: Floors, meta: map<MetaKey, Blob>, k: MetaKey, value: Blob)
    requires MetaIndexed(f.fixed, f.nextDeviceSeq, f.clock, meta) && CheckMeta(f, k, value).Some? && IsCounter(k)
    ensures
      var f' := CheckMeta(f, k, value).value;
      f' == f.(nextDeviceSeq := f'.nextDeviceSeq, clock := f'.clock) &&
      MetaIndexed(f'.fixed, f'.nextDeviceSeq, f'.clock, meta[k := value])
  {
    hide Numeric;
  }

  lemma SameCounter(meta: map<MetaKey, Blob>, k: MetaKey, value: Blob, counter: MetaKey, number: nat)
    requires k != counter && CounterIndexed(meta, counter, number)
    ensures CounterIndexed(meta[k := value], counter, number)
  {
  }

  lemma FixedRuns(f: Floors, meta: map<MetaKey, Blob>, k: MetaKey, value: Blob)
    requires MetaIndexed(f.fixed, f.nextDeviceSeq, f.clock, meta) && CheckMeta(f, k, value).Some? && !IsCounter(k)
    ensures
      var f' := CheckMeta(f, k, value).value;
      f' == f.(fixed := f'.fixed) && MetaIndexed(f'.fixed, f'.nextDeviceSeq, f'.clock, meta[k := value])
  {
    hide Numeric, CounterIndexed;
    assert CheckMeta(f, k, value) == Some(f.(fixed := f.fixed[k := value]));
    SameCounter(meta, k, value, NextDeviceSeq, f.nextDeviceSeq);
    SameCounter(meta, k, value, Clock, f.clock);
  }

  lemma MetaRuns(f: Floors, meta: map<MetaKey, Blob>, k: MetaKey, value: Blob)
    requires MetaIndexed(f.fixed, f.nextDeviceSeq, f.clock, meta) && CheckMeta(f, k, value).Some?
    ensures k in meta ==> if IsCounter(k) then BlobLeq(meta[k], value) else meta[k] == value
    ensures
      var f' := CheckMeta(f, k, value).value;
      f' == f.(fixed := f'.fixed, nextDeviceSeq := f'.nextDeviceSeq, clock := f'.clock) &&
      MetaIndexed(f'.fixed, f'.nextDeviceSeq, f'.clock, meta[k := value])
  {
    hide Numeric, BlobLeq, CheckMeta, MetaIndexed;
    MetaGuardHolds(f, meta, k, value);
    if IsCounter(k) {
      CounterRuns(f, meta, k, value);
    } else {
      FixedRuns(f, meta, k, value);
    }
  }

  lemma {:induction false} PutSignedKeeps(objects: map<ObjectKey, Blob>, kind: Kind, rows: seq<Signed>, k: ObjectKey)
    requires k.kind != kind
    ensures k in PutSigned(objects, kind, rows) <==> k in objects
    ensures k in objects ==> PutSigned(objects, kind, rows)[k] == objects[k]
    decreases |rows|
  {
    if rows == [] {
    } else {
      PutSignedKeeps(objects[ObjectKey(kind, rows[0].device) := rows[0].wire], kind, rows[1..], k);
    }
  }

  lemma DeviceSetRuns(f: Floors, objects: map<ObjectKey, Blob>, certificates: seq<Signed>, revocations: seq<Signed>)
    requires ObjectsIndexed(f.objects, f.state, objects)
    ensures ObjectsIndexed(f.objects, f.state,
              PutSigned(PutSigned(WithoutDeviceSet(objects), Certificate, certificates), Revocation, revocations))
  {
    var none := WithoutDeviceSet(objects);
    var after := PutSigned(PutSigned(none, Certificate, certificates), Revocation, revocations);
    forall k: ObjectKey | !k.kind.Certificate? && !k.kind.Revocation?
      ensures k in after <==> k in objects
      ensures k in objects ==> after[k] == objects[k]
    {
      PutSignedKeeps(none, Certificate, certificates, k);
      PutSignedKeeps(PutSigned(none, Certificate, certificates), Revocation, revocations, k);
    }
  }

  lemma AccountStateRuns(p: Pending, p': Pending, t: Tables, w: Write)
    requires w.AccountState?
    requires ObjectsIndexed(p.at.objects, p.at.state, t.objects) && Check(p, w) == Some(p')
    ensures Sql(t, w) == Some(t.(objects := t.objects[ObjectKey(State, []) := w.wire]))
    ensures p'.at == p.at.(state := p'.at.state)
    ensures ObjectsIndexed(p'.at.objects, p'.at.state, t.objects[ObjectKey(State, []) := w.wire])
  {
    hide CheckMeta, CheckObject, CheckGrant, CheckPutOp, CheckReissue, CheckOpOwn, CheckPutSnapshot, CheckSnapshotOwn;
  }

  lemma ObjectPutIn(f: Floors, objects: map<ObjectKey, Blob>, key: ObjectKey, bytes: Blob)
    requires ObjectsIndexed(f.objects, f.state, objects) && CheckObject(f, key, bytes).Some?
    ensures (key.kind.Bundle? || key.kind.Settings?) && key in objects ==> objects[key] == bytes
    ensures
      var f' := CheckObject(f, key, bytes).value;
      f' == f.(objects := f'.objects) && ObjectsIndexed(f'.objects, f.state, objects[key := bytes])
  {
  }

  lemma PutObjectRuns(p: Pending, p': Pending, t: Tables, w: Write)
    requires w.PutObject?
    requires ObjectsIndexed(p.at.objects, p.at.state, t.objects) && Check(p, w) == Some(p')
    ensures Sql(t, w).Some? && Sql(t, w).value == t.(objects := Sql(t, w).value.objects)
    ensures p'.at == p.at.(objects := p'.at.objects)
    ensures ObjectsIndexed(p'.at.objects, p'.at.state, Sql(t, w).value.objects)
  {
    hide CheckMeta, CheckState, CheckGrant, CheckPutOp, CheckReissue, CheckOpOwn, CheckPutSnapshot, CheckSnapshotOwn,
         CheckObject, ObjectsIndexed;
    match w
    case PutObject(key, bytes) => ObjectPutIn(p.at, t.objects, key, bytes);
    case _ =>
  }

  lemma ClearAlarmRuns(p: Pending, p': Pending, t: Tables, w: Write)
    requires w.ClearAlarm?
    requires ObjectsIndexed(p.at.objects, p.at.state, t.objects) && Check(p, w) == Some(p')
    ensures Sql(t, w).Some? && Sql(t, w).value == t.(objects := Sql(t, w).value.objects)
    ensures p'.at == p.at
    ensures ObjectsIndexed(p.at.objects, p.at.state, Sql(t, w).value.objects)
  {
    hide CheckMeta, CheckObject, CheckState, CheckGrant, CheckPutOp, CheckReissue, CheckOpOwn, CheckPutSnapshot,
        CheckSnapshotOwn;
  }

  lemma VaultRuns(p: Pending, p': Pending, t: Tables, w: Write)
    requires w.VaultGrant? || w.VaultGeneration? || w.Wraps?
    requires VaultsIndexed(p.at.vaults, t.vaults) && Check(p, w) == Some(p')
    ensures Sql(t, w).Some? && OwnVaultOnly(w)
    ensures Sql(t, w).value == t.(vaults := Sql(t, w).value.vaults, wraps := Sql(t, w).value.wraps)
    ensures p'.at == p.at.(vaults := p'.at.vaults)
    ensures VaultsIndexed(p'.at.vaults, Sql(t, w).value.vaults)
  {
    if w.VaultGrant? {
      assert Sql(t, w).value.vaults == Granted(t.vaults, w.grant);
    } else if w.Wraps? {
      assert forall i :: 0 <= i < |w.wraps| ==> w.wraps[i].key.vault == w.vault;
    }
  }

  /** What one admitted op write does to the index and to the rows. */
  predicate OpMoved(p: Pending, p': Pending, t: Tables, w: Write) {
    Sql(t, w).Some? && !Diverges(t, w) && Sql(t, w).value == t.(ops := Sql(t, w).value.ops) &&
    p'.at == p.at.(ops := p'.at.ops) &&
    OpsIndexed(p'.at.ops, Sql(t, w).value.ops) && OpGenerationsSet(Sql(t, w).value.ops)
  }

  /** A row put in where the index notes the same of it. */
  lemma OpPutIn(indexed: map<OpKey, OpFloor>, ops: map<OpKey, OpRow>, key: OpKey, row: OpRow)
    requires OpsIndexed(indexed, ops) && OpGenerationsSet(ops)
    requires row.sentGeneration.Some? <==> WasSent(row.own)
    ensures OpsIndexed(indexed[key := OpFloor(row.statement, row.own, row.sentGeneration)], ops[key := row])
    ensures OpGenerationsSet(ops[key := row])
  {
  }

  lemma PutOpRuns(p: Pending, p': Pending, t: Tables, w: Write)
    requires w.PutOp?
    requires OpsIndexed(p.at.ops, t.ops) && OpGenerationsSet(t.ops) && Check(p, w) == Some(p')
    ensures OpMoved(p, p', t, w)
  {
    var put := PutRow(if w.op in t.ops then Some(t.ops[w.op]) else None, w.row);
    assert w.op in t.ops ==>
        put.Some? &&
            p.at.ops == p.at.ops[w.op := OpFloor(put.value.statement, put.value.own, put.value.sentGeneration)];
    assert put.Some? && Sql(t, w) == Some(t.(ops := t.ops[w.op := put.value]));
    OpPutIn(p.at.ops, t.ops, w.op, put.value);
    hide OpsIndexed, OpGenerationsSet, CheckMeta, CheckObject, CheckState, CheckGrant, CheckReissue, CheckOpOwn,
        CheckPutSnapshot,
         CheckSnapshotOwn;
  }

  lemma ReissueRuns(p: Pending, p': Pending, t: Tables, w: Write)
    requires w.ReissueOp?
    requires OpsIndexed(p.at.ops, t.ops) && OpGenerationsSet(t.ops) && Check(p, w) == Some(p')
    ensures OpMoved(p, p', t, w)
  {
    var put := ReissueRow(t.ops[w.op], w.row, w.staleGeneration);
    assert Sql(t, w) == Some(t.(ops := t.ops[w.op := put.value]));
  }

  lemma OwnRuns(p: Pending, p': Pending, t: Tables, w: Write)
    requires w.OpOwn?
    requires OpsIndexed(p.at.ops, t.ops) && OpGenerationsSet(t.ops) && Check(p, w) == Some(p')
    ensures OpMoved(p, p', t, w)
  {
    var put := OwnRow(t.ops[w.op], w.own, w.sentGeneration);
    assert Sql(t, w) == Some(t.(ops := t.ops[w.op := put.value]));
  }

  lemma PruneRuns(p: Pending, p': Pending, t: Tables, w: Write)
    requires w.PruneOpBody?
    requires OpsIndexed(p.at.ops, t.ops) && OpGenerationsSet(t.ops) && Check(p, w) == Some(p')
    ensures OpMoved(p, p', t, w)
  {
    assert Sql(t, w) == Some(t.(ops := t.ops[w.op := t.ops[w.op].(body := None)]));
  }

  /** What one admitted snapshot write does to the index and to the rows. */
  predicate SnapshotMoved(p: Pending, p': Pending, t: Tables, w: Write) {
    Sql(t, w).Some? && !Diverges(t, w) && Sql(t, w).value == t.(snapshots := Sql(t, w).value.snapshots) &&
    p'.at == p.at.(snapshots := p'.at.snapshots) &&
    SnapshotsIndexed(p'.at.snapshots, Sql(t, w).value.snapshots) && SnapshotGenerationsSet(Sql(t, w).value.snapshots)
  }

  lemma PutSnapshotRuns(p: Pending, p': Pending, t: Tables, w: Write)
    requires w.PutSnapshot?
    requires SnapshotsIndexed(p.at.snapshots, t.snapshots) && SnapshotGenerationsSet(t.snapshots)
    requires Check(p, w) == Some(p')
    ensures SnapshotMoved(p, p', t, w)
  {
    hide CheckMeta, CheckObject, CheckState, CheckGrant, CheckPutOp, CheckReissue, CheckOpOwn, CheckSnapshotOwn;
    assert w.snapshot in p.at.snapshots <==> w.snapshot in t.snapshots;
  }

  lemma SnapshotOwnRuns(p: Pending, p': Pending, t: Tables, w: Write)
    requires w.SnapshotOwn?
    requires SnapshotsIndexed(p.at.snapshots, t.snapshots) && SnapshotGenerationsSet(t.snapshots)
    requires Check(p, w) == Some(p')
    ensures SnapshotMoved(p, p', t, w)
  {
    hide CheckMeta, CheckObject, CheckState, CheckGrant, CheckPutOp, CheckReissue, CheckOpOwn, CheckPutSnapshot;
    assert w.snapshot in p.at.snapshots <==> w.snapshot in t.snapshots;
  }

  lemma DeleteSnapshotRuns(p: Pending, p': Pending, t: Tables, w: Write)
    requires w.DeleteSnapshot?
    requires SnapshotsIndexed(p.at.snapshots, t.snapshots) && SnapshotGenerationsSet(t.snapshots)
    requires Check(p, w) == Some(p')
    ensures SnapshotMoved(p, p', t, w)
  {
    hide CheckMeta, CheckObject, CheckState, CheckGrant, CheckPutOp, CheckReissue, CheckOpOwn, CheckPutSnapshot,
        CheckSnapshotOwn;
    assert w.snapshot in p.at.snapshots <==> w.snapshot in t.snapshots;
  }

  lemma AdmittedWriteRuns(p: Pending, p': Pending, t: Tables, w: Write)
    requires IndexOf(p.at, t) && GenerationsSet(t) && Check(p, w) == Some(p')
    ensures Runs(p', t, w)
  {
    match w
    case Meta(k, value) => MetaRuns(p.at, t.meta, k, value);
    case DeviceState(_, _) =>
    case PendingCommit(_) =>
    case AccountState(_, _, _) => AccountStateRuns(p, p', t, w);
    case PutObject(_, _) => PutObjectRuns(p, p', t, w);
    case ClearAlarm(_) => ClearAlarmRuns(p, p', t, w);
    case DeviceSet(certificates, revocations) => DeviceSetRuns(p.at, t.objects, certificates, revocations);
    case VaultGrant(_, _) => VaultRuns(p, p', t, w);
    case VaultGeneration(_, _) => VaultRuns(p, p', t, w);
    case Wraps(_, _, _) => VaultRuns(p, p', t, w);
    case PutOp(_, _) => PutOpRuns(p, p', t, w);
    case ReissueOp(_, _, _) => ReissueRuns(p, p', t, w);
    case OpOwn(_, _, _) => OwnRuns(p, p', t, w);
    case PruneOpBody(_) => PruneRuns(p, p', t, w);
    case PutSnapshot(_, _) => PutSnapshotRuns(p, p', t, w);
    case SnapshotOwn(_, _, _) => SnapshotOwnRuns(p, p', t, w);
    case DeleteSnapshot(_) => DeleteSnapshotRuns(p, p', t, w);
  }

  lemma {:induction false} CheckedWritesRun(p: Pending, t: Tables, writes: seq<Write>)
    requires IndexOf(p.at, t) && GenerationsSet(t) && CheckAll(p, writes).Some?
    ensures SqlAll(t, writes) == Some(ReferenceAll(t, writes))
    ensures IndexOf(CheckAll(p, writes).value.at, ReferenceAll(t, writes))
    ensures GenerationsSet(ReferenceAll(t, writes))
    decreases |writes|
  {
    if writes == [] {
    } else {
      var p' := Check(p, writes[0]).value;
      AdmittedWriteRuns(p, p', t, writes[0]);
      SqlIsTheReference(t, writes[0]);
      CheckedWritesRun(p', Reference(t, writes[0]), writes[1..]);
    }
  }

  /**
   An admitted changeset is never refused by an SQL guard, leaves what the reference executor says,
   and the moved index is again the index of the file.
   */
  lemma AdmittedChangesetsRun(f: Floors, t: Tables, writes: seq<Write>)
    requires IndexOf(f, t) && GenerationsSet(t) && Admit(f, writes).Some?
    ensures SqlAll(t, writes) == Some(ReferenceAll(t, writes))
    ensures IndexOf(Admit(f, writes).value, ReferenceAll(t, writes))
    ensures GenerationsSet(ReferenceAll(t, writes))
  {
    CheckedWritesRun(Begin(f), t, writes);
  }

  // ---------- what the floors ask for beyond the guards ----------

  /** Neither below the state the index holds nor another one with its number. */
  predicate StateFollows(f: Floors, wire: Blob, stateSeq: nat, settingsSeq: nat) {
    f.state.Some? ==>
      f.state.value.stateSeq <= stateSeq && f.state.value.settingsSeq <= settingsSeq &&
      (f.state.value.stateSeq == stateSeq ==> f.state.value.wire == wire)
  }

  predicate GrantFollows(f: Floors, grant: Grant, keyId: Id) {
    grant.vault in f.vaults ==>
      f.vaults[grant.vault].epoch <= grant.epoch &&
      (f.vaults[grant.vault].epoch == grant.epoch ==> f.vaults[grant.vault].keyId == keyId)
  }

  predicate WellFormedObject(key: ObjectKey, bytes: Blob) {
    match key.kind
    case Bundle | Settings => |key.key| == 8 && bytes != []
    case IdentityKeys => |key.key| == 4 && bytes != []
    case Alarm => |key.key| == 1
    case _ => false
  }

  predicate WellFormedMeta(key: MetaKey, value: Blob) {
    match key
    case Format => value == [0, 1]
    case ServerOrigin => value != []
    case NextDeviceSeq => |value| == 8 && Numeric(value) > 0
    case Clock => |value| == 8
    case _ => |value| == 16
  }

  /** A new op row: served by another device, or an own one that was never sent, at a number not used before. */
  predicate NewOpFollows(p: Pending, key: OpKey, row: OpRow) {
    var own := DeviceId in p.at.fixed && p.at.fixed[DeviceId] == key.device;
    key.vault in p.at.vaults &&
    if own then row.own.Unsent? && key.deviceSeq >= Max(p.base, 1) else row.own.Served?
  }

  /** The rules no SQL guard has. */
  predicate Follows(p: Pending, t: Tables, w: Write) {
    match w
    case Meta(key, value) => WellFormedMeta(key, value)
    case DeviceState(_, names) => names.Some?
    case PendingCommit(request) => request.Some? ==> 0 < |request.value| <= MAX_UPLOAD_BODY_LEN
    case AccountState(wire, stateSeq, settingsSeq) => StateFollows(p.at, wire, stateSeq, settingsSeq)
    case PutObject(key, bytes) => WellFormedObject(key, bytes)
    case ClearAlarm(alarm) => alarm == ROLLBACK || alarm == UNCONFIRMED_IDENTITY_CHANGE
    case DeviceSet(certificates, revocations) =>
      (forall s :: s in certificates ==> s.wire != []) && (forall s :: s in revocations ==> s.wire != [])
    case VaultGrant(grant, keyId) => GrantFollows(p.at, grant, keyId)
    case Wraps(vault, epoch, wraps) =>
      vault in t.vaults && t.vaults[vault].grant.epoch == epoch && forall v :: v in wraps ==> v.row.epoch == epoch
    case PutOp(key, row) => key !in t.ops ==> NewOpFollows(p, key, row)
    case ReissueOp(_, row, _) => row.own.Unsent?
    case OpOwn(_, to, generation) => to.Sent? ==> generation.Some?
    case PutSnapshot(key, row) =>
      if key in t.snapshots then t.snapshots[key].statement == row.statement
      else (row.own.Served? || row.own.Unsent?) && key.vault in t.vaults
    case SnapshotOwn(_, to, generation) => to.Sent? ==> generation.Some?
    case _ => true
  }

  lemma MetaIsAdmitted(f: Floors, meta: map<MetaKey, Blob>, key: MetaKey, value: Blob)
    requires MetaIndexed(f.fixed, f.nextDeviceSeq, f.clock, meta) && WellFormedMeta(key, value)
    ensures CheckMeta(f, key, value).Some? <==>
            (key in meta ==> if IsCounter(key) then BlobLeq(meta[key], value) else meta[key] == value)
  {
    if IsCounter(key) && key in meta {
      BlobOrderIsNumeric(meta[key], value);
    }
    hide Numeric, BlobLeq;
  }

  predicate AsTheGuards(p: Pending, t: Tables, w: Write) {
    Check(p, w).Some? <==> Sql(t, w).Some? && !Diverges(t, w) && OwnVaultOnly(w) && Follows(p, t, w)
  }

  lemma SetAsTheGuards(p: Pending, t: Tables, w: Write)
    requires w.DeviceSet?
    ensures AsTheGuards(p, t, w)
  {
    var all := w.certificates + w.revocations;
    if Follows(p, t, w) {
      assert forall i :: 0 <= i < |all| ==> all[i] in w.certificates || all[i] in w.revocations;
    } else {
      var s :| (s in w.certificates || s in w.revocations) && s.wire == [];
      assert s in all;
    }
  }

  lemma VaultAsTheGuards(p: Pending, t: Tables, w: Write)
    requires (w.VaultGrant? || w.VaultGeneration? || w.Wraps?) && VaultsIndexed(p.at.vaults, t.vaults)
    ensures AsTheGuards(p, t, w)
  {
    if w.Wraps? && forall v :: v in w.wraps ==> v.row.epoch == w.epoch {
      assert forall i :: 0 <= i < |w.wraps| ==> w.wraps[i] in w.wraps;
    }
  }

  lemma OpAsTheGuards(p: Pending, t: Tables, w: Write)
    requires w.PutOp? || w.ReissueOp? || w.OpOwn? || w.PruneOpBody?
    requires OpsIndexed(p.at.ops, t.ops) && VaultsIndexed(p.at.vaults, t.vaults) && OpGenerationsSet(t.ops)
    ensures AsTheGuards(p, t, w)
  {
    hide CheckMeta, CheckObject, CheckState, CheckGrant, CheckPutSnapshot, CheckSnapshotOwn;
  }

  lemma SnapshotAsTheGuards(p: Pending, t: Tables, w: Write)
    requires w.PutSnapshot? || w.SnapshotOwn? || w.DeleteSnapshot?
    requires SnapshotsIndexed(p.at.snapshots, t.snapshots) && VaultsIndexed(p.at.vaults, t.vaults)
    requires SnapshotGenerationsSet(t.snapshots)
    ensures AsTheGuards(p, t, w)
  {
    hide CheckMeta, CheckObject, CheckState, CheckGrant, CheckPutOp, CheckReissue, CheckOpOwn;
  }

  lemma ObjectAsTheGuards(p: Pending, t: Tables, w: Write)
    requires w.PutObject? || w.AccountState? || w.ClearAlarm?
    requires ObjectsIndexed(p.at.objects, p.at.state, t.objects)
    ensures AsTheGuards(p, t, w)
  {
    hide CheckMeta, CheckGrant, CheckPutOp, CheckReissue, CheckOpOwn, CheckPutSnapshot, CheckSnapshotOwn;
  }

  lemma MetaAsTheGuards(p: Pending, t: Tables, w: Write)
    requires w.Meta? && MetaIndexed(p.at.fixed, p.at.nextDeviceSeq, p.at.clock, t.meta)
    ensures AsTheGuards(p, t, w)
  {
    hide BlobLeq;
    if WellFormedMeta(w.metaKey, w.value) {
      MetaIsAdmitted(p.at, t.meta, w.metaKey, w.value);
    }
  }

  /**
   A write is admitted if and only if every SQL guard lets it through, the two executors agree on it, it
   stays within its vault, and it follows the rules that only the floors have.
   */
  lemma AdmittedAsTheGuardsAre(p: Pending, t: Tables, w: Write)
    requires IndexOf(p.at, t) && GenerationsSet(t)
    ensures Check(p, w).Some? <==> Sql(t, w).Some? && !Diverges(t, w) && OwnVaultOnly(w) && Follows(p, t, w)
  {
    hide MetaIndexed, ObjectsIndexed, VaultsIndexed, OpsIndexed, SnapshotsIndexed, OpGenerationsSet,
        SnapshotGenerationsSet;
    match w
    case Meta(_, _) => MetaAsTheGuards(p, t, w);
    case DeviceState(_, _) =>
    case PendingCommit(_) =>
    case DeviceSet(_, _) => SetAsTheGuards(p, t, w);
    case AccountState(_, _, _) => ObjectAsTheGuards(p, t, w);
    case PutObject(_, _) => ObjectAsTheGuards(p, t, w);
    case ClearAlarm(_) => ObjectAsTheGuards(p, t, w);
    case VaultGrant(_, _) => VaultAsTheGuards(p, t, w);
    case VaultGeneration(_, _) => VaultAsTheGuards(p, t, w);
    case Wraps(_, _, _) => VaultAsTheGuards(p, t, w);
    case PutSnapshot(_, _) => SnapshotAsTheGuards(p, t, w);
    case SnapshotOwn(_, _, _) => SnapshotAsTheGuards(p, t, w);
    case DeleteSnapshot(_) => SnapshotAsTheGuards(p, t, w);
    case _ => OpAsTheGuards(p, t, w);
  }

  // ---------- states and grants never go back ----------

  /** The later index is not below the earlier one, and no other at the same number. */
  predicate NotBelow(f: Floors, g: Floors) {
    (f.state.Some? ==>
       g.state.Some? && StateFollows(f, g.state.value.wire, g.state.value.stateSeq, g.state.value.settingsSeq)) &&
    forall v :: v in f.vaults ==>
      v in g.vaults && f.vaults[v].epoch <= g.vaults[v].epoch &&
      (f.vaults[v].epoch == g.vaults[v].epoch ==> f.vaults[v].keyId == g.vaults[v].keyId)
  }

  /** What a write brings, against an index before it and one after it. */
  predicate ComesAfter(f: Floors, w: Write) {
    match w
    case AccountState(wire, stateSeq, settingsSeq) => StateFollows(f, wire, stateSeq, settingsSeq)
    case VaultGrant(grant, keyId) => GrantFollows(f, grant, keyId)
    case _ => true
  }

  predicate ComesBefore(w: Write, g: Floors) {
    match w
    case AccountState(wire, stateSeq, settingsSeq) =>
      g.state.Some? && stateSeq <= g.state.value.stateSeq && settingsSeq <= g.state.value.settingsSeq &&
      (stateSeq == g.state.value.stateSeq ==> wire == g.state.value.wire)
    case VaultGrant(grant, keyId) =>
      grant.vault in g.vaults && grant.epoch <= g.vaults[grant.vault].epoch &&
      (grant.epoch == g.vaults[grant.vault].epoch ==> keyId == g.vaults[grant.vault].keyId)
    case _ => true
  }

  /** Two writes in the order they were made. */
  predicate InOrder(v: Write, w: Write) {
    (v.AccountState? && w.AccountState? ==>
       v.stateSeq <= w.stateSeq && v.settingsSeq <= w.settingsSeq && (v.stateSeq == w.stateSeq ==> v.wire == w.wire)) &&
    (v.VaultGrant? && w.VaultGrant? && v.grant.vault == w.grant.vault ==>
       v.grant.epoch <= w.grant.epoch && (v.grant.epoch == w.grant.epoch ==> v.vaultKeyId == w.vaultKeyId))
  }

  lemma CheckRises(p: Pending, w: Write)
    requires Check(p, w).Some?
    ensures NotBelow(p.at, Check(p, w).value.at) && ComesAfter(p.at, w) && ComesBefore(w, Check(p, w).value.at)
  {
    hide CheckMeta, CheckObject, CheckPutOp, CheckReissue, CheckOpOwn, CheckPutSnapshot, CheckSnapshotOwn;
    if w.PutOp? || w.ReissueOp? || w.OpOwn? {
      OpsKeepTheFloors(p, w);
    } else if !w.AccountState? && !w.VaultGrant? {
      OthersKeepTheFloors(p, w);
    }
  }

  lemma OpsKeepTheFloors(p: Pending, w: Write)
    requires Check(p, w).Some? && (w.PutOp? || w.ReissueOp? || w.OpOwn?)
    ensures Check(p, w).value.at.state == p.at.state && Check(p, w).value.at.vaults == p.at.vaults
  {
    hide CheckMeta, CheckObject, CheckState, CheckGrant, CheckPutSnapshot, CheckSnapshotOwn;
  }

  lemma MetaKeepsTheFloors(f: Floors, k: MetaKey, value: Blob)
    requires CheckMeta(f, k, value).Some?
    ensures CheckMeta(f, k, value).value.state == f.state && CheckMeta(f, k, value).value.vaults == f.vaults
  {
    hide Numeric;
  }

  lemma OthersKeepTheFloors(p: Pending, w: Write)
    requires Check(p, w).Some? && !w.AccountState? && !w.VaultGrant? && !w.PutOp? && !w.ReissueOp? && !w.OpOwn?
    ensures Check(p, w).value.at.state == p.at.state && Check(p, w).value.at.vaults == p.at.vaults
  {
    hide CheckMeta, CheckState, CheckGrant, CheckPutOp, CheckReissue, CheckOpOwn, Numeric, Advances;
    if w.Meta? {
      MetaKeepsTheFloors(p.at, w.metaKey, w.value);
    }
  }

  lemma {:induction false} CheckedRise(p: Pending, writes: seq<Write>)
    requires CheckAll(p, writes).Some?
    ensures NotBelow(p.at, CheckAll(p, writes).value.at)
    ensures forall w :: w in writes ==> ComesAfter(p.at, w) && ComesBefore(w, CheckAll(p, writes).value.at)
    decreases |writes|
  {
    if writes != [] {
      var p' := Check(p, writes[0]).value;
      CheckRises(p, writes[0]);
      CheckedRise(p', writes[1..]);
      hide Check, CheckAll;
      forall w | w in writes
        ensures w == writes[0] || w in writes[1..]
      {
      }
    }
  }

  /** Within one admitted changeset no state and no grant goes back. */
  lemma {:induction false} CheckedInOrder(p: Pending, writes: seq<Write>, i: nat, j: nat)
    requires CheckAll(p, writes).Some? && i < j < |writes|
    ensures InOrder(writes[i], writes[j])
    decreases |writes|
  {
    var p' := Check(p, writes[0]).value;
    if i == 0 {
      CheckRises(p, writes[0]);
      CheckedRise(p', writes[1..]);
      assert writes[j] == writes[1..][j - 1] && writes[j] in writes[1..];
    } else {
      CheckedInOrder(p', writes[1..], i - 1, j - 1);
    }
  }
}
