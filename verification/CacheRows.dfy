/**
 The cache file of a device, table by table: what one write means to the SQLite executor, guards
 included (crates/rizzy-cli/src/db.rs), and to the reference executor, which checks nothing
 (crates/rizzy-client/src/store/rows.rs). A table is a map from its primary key to its row.
 */
module CacheRows {
  import opened Base

  type Id = b: Blob | |b| == 16 witness [0, 0, 0, 0, 0, 0, 0, 0, 0, 0, 0, 0, 0, 0, 0, 0]

  // ---------- byte order ----------

  /** SQLite's order of two blobs: the first differing byte decides, then the length. */
  predicate BlobLeq(a: Blob, b: Blob) {
    if a == [] then true
    else if b == [] then false
    else a[0] < b[0] || (a[0] == b[0] && BlobLeq(a[1..], b[1..]))
  }

  /** A digit decides over everything in the places below it. */
  lemma HigherDigitWins(x: nat, y: nat, p: nat, m: nat, n: nat)
    requires x < y && m < p
    ensures x * p + m < y * p + n
  {
    assert (x + 1) * p <= y * p;
  }

  /** The number a big-endian blob holds. */
  function Numeric(b: Blob): (n: nat)
    ensures n < Power256(|b|)
  {
    if b == [] then 0
    else
      var p := Power256(|b| - 1);
      var low := Numeric(b[1..]);
      HigherDigitWins(b[0], 256, p, low, 0);
      b[0] * p + low
  }

  /** Blobs of one length compare as the numbers they hold: the counter guard compares numbers. */
  lemma {:induction false} BlobOrderIsNumeric(a: Blob, b: Blob)
    requires |a| == |b|
    ensures BlobLeq(a, b) <==> Numeric(a) <= Numeric(b)
    ensures Numeric(a) == Numeric(b) ==> a == b
  {
    if a == [] {
    } else {
      BlobOrderIsNumeric(a[1..], b[1..]);
      var p := Power256(|a| - 1);
      var x, y := Numeric(a[1..]), Numeric(b[1..]);
      if a[0] < b[0] {
        HigherDigitWins(a[0], b[0], p, x, y);
      } else if b[0] < a[0] {
        HigherDigitWins(b[0], a[0], p, y, x);
      } else {
        assert a == [a[0]] + a[1..] && b == [b[0]] + b[1..];
      }
    }
  }

  // ---------- the tables ----------

  datatype MetaKey = Format | ServerOrigin | AccountId | DeviceId | NextDeviceSeq | Clock

  predicate IsCounter(key: MetaKey) {
    key.NextDeviceSeq? || key.Clock?
  }

  datatype Kind = Bundle | State | Settings | Certificate | Revocation | IdentityKeys | Alarm

  datatype ObjectKey = ObjectKey(kind: Kind, key: Blob)

  datatype Grant = Grant(vault: Id, epoch: nat, envelope: Blob)

  datatype VaultRow = VaultRow(grant: Grant, generation: Option<Id>)

  datatype WrapKey = WrapKey(vault: Id, item: Id, itemKey: Id)

  datatype WrapRow = WrapRow(epoch: nat, envelope: Blob)

  datatype Wrap = Wrap(key: WrapKey, row: WrapRow)

  /** The `own` column. It moves only from unsent to sent to acknowledged. */
  datatype Own = Served | Unsent | Acknowledged | Sent

  datatype OpKey = OpKey(vault: Id, device: Id, deviceSeq: nat)

  datatype OpRow = OpRow(item: Id, statement: Blob, body: Option<Blob>, keyWrap: Option<Blob>,
                         own: Own, sentGeneration: Option<Id>)

  datatype SnapshotKey = SnapshotKey(vault: Id, snapshot: Id)

  datatype SnapshotRow = SnapshotRow(item: Id, statement: Blob, envelope: Blob, keyWrap: Option<Blob>,
                                     own: Own, sentGeneration: Option<Id>)

  datatype Tables = Tables(
    meta: map<MetaKey, Blob>,
    deviceState: Option<Blob>,
    pendingCommit: Option<Blob>,
    objects: map<ObjectKey, Blob>,
    vaults: map<Id, VaultRow>,
    wraps: map<WrapKey, WrapRow>,
    ops: map<OpKey, OpRow>,
    snapshots: map<SnapshotKey, SnapshotRow>)

  const EMPTY := Tables(map[], None, None, map[], map[], map[], map[], map[])

  // ---------- the writes ----------

  datatype Signed = Signed(device: Id, wire: Blob)

  datatype Names = Names(account: Id, device: Id)

  /**
   One write of a changeset. A device-state record carries what its parse names, `None` if it does
   not parse; a vault grant comes with the id of its key.
   */
  datatype Write =
    | Meta(metaKey: MetaKey, value: Blob)
    | DeviceState(record: Blob, names: Option<Names>)
    | PendingCommit(request: Option<Blob>)
    | AccountState(wire: Blob, stateSeq: nat, settingsSeq: nat)
    | PutObject(object: ObjectKey, bytes: Blob)
    | ClearAlarm(alarm: Byte)
    | DeviceSet(certificates: seq<Signed>, revocations: seq<Signed>)
    | VaultGrant(grant: Grant, vaultKeyId: Id)
    | VaultGeneration(vault: Id, generation: Id)
    | Wraps(vault: Id, epoch: nat, wraps: seq<Wrap>)
    | PutOp(op: OpKey, row: OpRow)
    | ReissueOp(op: OpKey, row: OpRow, staleGeneration: Option<Id>)
    | OpOwn(op: OpKey, own: Own, sentGeneration: Option<Id>)
    | PutSnapshot(snapshot: SnapshotKey, snapshotRow: SnapshotRow)
    | SnapshotOwn(snapshot: SnapshotKey, own: Own, sentGeneration: Option<Id>)
    | PruneOpBody(op: OpKey)
    | DeleteSnapshot(snapshot: SnapshotKey)

  function Or<T>(a: Option<T>, b: Option<T>): Option<T> {
    if a.Some? then a else b
  }

  // ---------- op rows under the SQL guards ----------

  /** `PUT_OP`: an insert never carries a generation; on a held row only what is missing is filled. */
  function PutRow(held: Option<OpRow>, row: OpRow): Option<OpRow> {
    match held
    case None => Some(row.(sentGeneration := None))
    case Some(h) =>
      if h.statement != row.statement then None
      else Some(h.(body := Or(h.body, row.body), keyWrap := Or(h.keyWrap, row.keyWrap)))
  }

  /** `REISSUE_OP`: unsent, or sent under exactly the generation of the stale answer. */
  function ReissueRow(h: OpRow, row: OpRow, stale: Option<Id>): Option<OpRow> {
    if h.own.Unsent? || (h.own.Sent? && h.sentGeneration == stale) then
      Some(h.(statement := row.statement, body := row.body, keyWrap := row.keyWrap,
              own := Unsent, sentGeneration := None))
    else None
  }

  /** `OP_SENT`: the generation of the first send stays. */
  function SentRow(h: OpRow, generation: Option<Id>): Option<OpRow> {
    if h.own.Unsent? || h.own.Sent? then
      Some(h.(own := Sent, sentGeneration := Or(h.sentGeneration, generation)))
    else None
  }

  /** `OP_ACKNOWLEDGED`. */
  function AckRow(h: OpRow): Option<OpRow> {
    if h.own.Sent? || h.own.Acknowledged? then Some(h.(own := Acknowledged)) else None
  }

  function OwnRow(h: OpRow, to: Own, generation: Option<Id>): Option<OpRow> {
    match to
    case Sent => SentRow(h, generation)
    case Acknowledged => AckRow(h)
    case _ => None
  }

  function OwnSnapshotRow(h: SnapshotRow, to: Own, generation: Option<Id>): Option<SnapshotRow> {
    match to
    case Sent =>
      if h.own.Unsent? || h.own.Sent? then
        Some(h.(own := Sent, sentGeneration := Or(h.sentGeneration, generation)))
      else None
    case Acknowledged =>
      if h.own.Sent? || h.own.Acknowledged? then Some(h.(own := Acknowledged)) else None
    case _ => None
  }

  // ---------- the SQL executor, one write ----------

  function PutSigned(objects: map<ObjectKey, Blob>, kind: Kind, set_: seq<Signed>): map<ObjectKey, Blob>
    decreases |set_|
  {
    if set_ == [] then objects
    else PutSigned(objects[ObjectKey(kind, set_[0].device) := set_[0].wire], kind, set_[1..])
  }

  function WithoutDeviceSet(objects: map<ObjectKey, Blob>): map<ObjectKey, Blob> {
    map k | k in objects && !k.kind.Certificate? && !k.kind.Revocation? :: objects[k]
  }

  function PutWraps(held: map<WrapKey, WrapRow>, wraps: seq<Wrap>): map<WrapKey, WrapRow>
    decreases |wraps|
  {
    if wraps == [] then held else PutWraps(held[wraps[0].key := wraps[0].row], wraps[1..])
  }

  function WithoutOldWraps(held: map<WrapKey, WrapRow>, vault: Id, epoch: nat): map<WrapKey, WrapRow> {
    map k | k in held && !(k.vault == vault && held[k].epoch < epoch) :: held[k]
  }

  function Granted(vaults: map<Id, VaultRow>, grant: Grant): map<Id, VaultRow> {
    vaults[grant.vault := VaultRow(grant, if grant.vault in vaults then vaults[grant.vault].generation else None)]
  }

  /** The tables after one write of the SQLite executor, or `None` when a guard refuses it. */
  function Sql(t: Tables, w: Write): Option<Tables> {
    match w
    case Meta(k, value) =>
      if k in t.meta && !(if IsCounter(k) then BlobLeq(t.meta[k], value) else t.meta[k] == value) then None
      else Some(t.(meta := t.meta[k := value]))
    case DeviceState(record, _) => Some(t.(deviceState := Some(record)))
    case PendingCommit(request) => Some(t.(pendingCommit := request))
    case AccountState(wire, _, _) => Some(t.(objects := t.objects[ObjectKey(State, []) := wire]))
    case PutObject(key, bytes) =>
      if (key.kind.Bundle? || key.kind.Settings?) && key in t.objects && t.objects[key] != bytes then None
      else Some(t.(objects := t.objects[key := bytes]))
    case ClearAlarm(alarm) => Some(t.(objects := t.objects - {ObjectKey(Alarm, [alarm])}))
    case DeviceSet(certificates, revocations) =>
      Some(t.(objects :=
        PutSigned(PutSigned(WithoutDeviceSet(t.objects), Certificate, certificates), Revocation, revocations)))
    case VaultGrant(grant, _) => Some(t.(vaults := Granted(t.vaults, grant)))
    case VaultGeneration(vault, generation) =>
      if vault !in t.vaults then None
      else Some(t.(vaults := t.vaults[vault := t.vaults[vault].(generation := Some(generation))]))
    case Wraps(vault, epoch, wraps) =>
      Some(t.(wraps := PutWraps(WithoutOldWraps(t.wraps, vault, epoch), wraps)))
    case PutOp(key, row) =>
      var put := PutRow(if key in t.ops then Some(t.ops[key]) else None, row);
      if put.None? then None else Some(t.(ops := t.ops[key := put.value]))
    case ReissueOp(key, row, stale) =>
      if key !in t.ops then None
      else
        var put := ReissueRow(t.ops[key], row, stale);
        if put.None? then None else Some(t.(ops := t.ops[key := put.value]))
    case OpOwn(key, to, generation) =>
      if key !in t.ops then None
      else
        var put := OwnRow(t.ops[key], to, generation);
        if put.None? then None else Some(t.(ops := t.ops[key := put.value]))
    case PutSnapshot(key, row) =>
      if key in t.snapshots then Some(t)
      else Some(t.(snapshots := t.snapshots[key := row.(sentGeneration := None)]))
    case SnapshotOwn(key, to, generation) =>
      if key !in t.snapshots then None
      else
        var put := OwnSnapshotRow(t.snapshots[key], to, generation);
        if put.None? then None else Some(t.(snapshots := t.snapshots[key := put.value]))
    case PruneOpBody(key) =>
      if key !in t.ops || !t.ops[key].own.Served? then None
      else Some(t.(ops := t.ops[key := t.ops[key].(body := None)]))
    case DeleteSnapshot(key) =>
      if key in t.snapshots && (t.snapshots[key].own.Unsent? || t.snapshots[key].own.Sent?) then
        Some(t.(snapshots := t.snapshots - {key}))
      else Some(t)
  }

  /** A changeset in one transaction: every write, or none. */
  function SqlAll(t: Tables, writes: seq<Write>): Option<Tables>
    decreases |writes|
  {
    if writes == [] then Some(t)
    else
      var next := Sql(t, writes[0]);
      if next.None? then None else SqlAll(next.value, writes[1..])
  }

  // ---------- the reference executor ----------

  predicate Replaces(wraps: seq<Wrap>, k: WrapKey) {
    exists i :: 0 <= i < |wraps| && wraps[i].key.item == k.item && wraps[i].key.itemKey == k.itemKey
  }

  /** Every row of the vault below the epoch goes, and every row one of the new ones replaces. */
  function WithoutReplacedWraps(held: map<WrapKey, WrapRow>, vault: Id, epoch: nat,
                                wraps: seq<Wrap>): map<WrapKey, WrapRow> {
    map k | k in held && (k.vault != vault || (held[k].epoch >= epoch && !Replaces(wraps, k))) :: held[k]
  }

  /** What one write does where nothing is refused: a write that names a missing row does nothing. */
  function Reference(t: Tables, w: Write): Tables {
    match w
    case Meta(k, value) => t.(meta := t.meta[k := value])
    case DeviceState(record, _) => t.(deviceState := Some(record))
    case PendingCommit(request) => t.(pendingCommit := request)
    case AccountState(wire, _, _) => t.(objects := t.objects[ObjectKey(State, []) := wire])
    case PutObject(key, bytes) => t.(objects := t.objects[key := bytes])
    case ClearAlarm(alarm) => t.(objects := t.objects - {ObjectKey(Alarm, [alarm])})
    case DeviceSet(certificates, revocations) =>
      t.(objects :=
        PutSigned(PutSigned(WithoutDeviceSet(t.objects), Certificate, certificates), Revocation, revocations))
    case VaultGrant(grant, _) => t.(vaults := Granted(t.vaults, grant))
    case VaultGeneration(vault, generation) =>
      if vault !in t.vaults then t
      else t.(vaults := t.vaults[vault := t.vaults[vault].(generation := Some(generation))])
    case Wraps(vault, epoch, wraps) =>
      t.(wraps := PutWraps(WithoutReplacedWraps(t.wraps, vault, epoch, wraps), wraps))
    case PutOp(key, row) =>
      if key !in t.ops then t.(ops := t.ops[key := row])
      else if t.ops[key].statement != row.statement then t
      else
        var h := t.ops[key];
        t.(ops := t.ops[key := h.(body := Or(h.body, row.body), keyWrap := Or(h.keyWrap, row.keyWrap))])
    case ReissueOp(key, row, _) =>
      if key !in t.ops then t
      else
        t.(ops := t.ops[key := t.ops[key].(statement := row.statement, body := row.body, keyWrap := row.keyWrap,
                                           own := Unsent, sentGeneration := None)])
    case OpOwn(key, to, generation) =>
      if key !in t.ops then t
      else
        var h := t.ops[key];
        t.(ops := t.ops[key := h.(own := to, sentGeneration := Or(h.sentGeneration, generation))])
    case PutSnapshot(key, row) =>
      if key in t.snapshots then t else t.(snapshots := t.snapshots[key := row])
    case SnapshotOwn(key, to, generation) =>
      if key !in t.snapshots then t
      else
        var h := t.snapshots[key];
        t.(snapshots := t.snapshots[key := h.(own := to, sentGeneration := Or(h.sentGeneration, generation))])
    case PruneOpBody(key) =>
      if key !in t.ops || !t.ops[key].own.Served? then t
      else t.(ops := t.ops[key := t.ops[key].(body := None)])
    case DeleteSnapshot(key) => t.(snapshots := t.snapshots - {key})
  }

  function ReferenceAll(t: Tables, writes: seq<Write>): Tables
    decreases |writes|
  {
    if writes == [] then t else ReferenceAll(Reference(t, writes[0]), writes[1..])
  }

  // ---------- where the two agree ----------

  /** The rows a replaced wrap set leaves do not depend on whether the replaced rows went first. */
  lemma {:induction false} PutWrapsOverwrites(a: map<WrapKey, WrapRow>, b: map<WrapKey, WrapRow>, wraps: seq<Wrap>)
    requires forall k :: (k in a) != (k in b) || (k in a && k in b && a[k] != b[k]) ==>
               exists i :: 0 <= i < |wraps| && wraps[i].key == k
    ensures PutWraps(a, wraps) == PutWraps(b, wraps)
    decreases |wraps|
  {
    if wraps == [] {
      assert forall k :: k in a <==> k in b;
      assert a == b;
    } else {
      var a', b' := a[wraps[0].key := wraps[0].row], b[wraps[0].key := wraps[0].row];
      forall k | (k in a') != (k in b') || (k in a' && k in b' && a'[k] != b'[k])
        ensures exists i :: 0 <= i < |wraps[1..]| && wraps[1..][i].key == k
      {
        var i :| 0 <= i < |wraps| && wraps[i].key == k;
        assert i > 0;
        assert wraps[1..][i - 1].key == k;
      }
      PutWrapsOverwrites(a', b', wraps[1..]);
    }
  }

  /** The writes of which the guards and the reference say different things where neither refuses. */
  predicate Diverges(t: Tables, w: Write) {
    match w
    case PutOp(key, row) => key !in t.ops && row.sentGeneration.Some?
    case PutSnapshot(key, row) => key !in t.snapshots && row.sentGeneration.Some?
    case OpOwn(key, to, generation) =>
      key in t.ops && to.Acknowledged? && t.ops[key].sentGeneration.None? && generation.Some?
    case SnapshotOwn(key, to, generation) =>
      key in t.snapshots && to.Acknowledged? && t.snapshots[key].sentGeneration.None? && generation.Some?
    case DeleteSnapshot(key) =>
      key in t.snapshots && (t.snapshots[key].own.Served? || t.snapshots[key].own.Acknowledged?)
    case _ => false
  }

  /** A wrap set names rows of its own vault only. */
  predicate OwnVaultOnly(w: Write) {
    w.Wraps? ==> forall i :: 0 <= i < |w.wraps| ==> w.wraps[i].key.vault == w.vault
  }

  lemma WrapsAgree(held: map<WrapKey, WrapRow>, vault: Id, epoch: nat, wraps: seq<Wrap>)
    requires forall i :: 0 <= i < |wraps| ==> wraps[i].key.vault == vault
    ensures PutWraps(WithoutOldWraps(held, vault, epoch), wraps) ==
            PutWraps(WithoutReplacedWraps(held, vault, epoch, wraps), wraps)
  {
    var all, kept := WithoutOldWraps(held, vault, epoch), WithoutReplacedWraps(held, vault, epoch, wraps);
    forall k | (k in all) != (k in kept) || (k in all && k in kept && all[k] != kept[k])
      ensures exists i :: 0 <= i < |wraps| && wraps[i].key == k
    {
      assert k in held && k.vault == vault && Replaces(wraps, k);
      var i :| 0 <= i < |wraps| && wraps[i].key.item == k.item && wraps[i].key.itemKey == k.itemKey;
      assert wraps[i].key == k;
    }
    PutWrapsOverwrites(all, kept, wraps);
  }

  lemma OpWritesAgree(t: Tables, w: Write)
    requires w.PutOp? || w.OpOwn?
    requires Sql(t, w).Some?
    ensures Sql(t, w).value == Reference(t, w) <==> !Diverges(t, w)
  {
    var a, b := Sql(t, w).value.ops[w.op], Reference(t, w).ops[w.op];
    if w.PutOp? {
      assert w.op !in t.ops ==> a == w.row.(sentGeneration := None) && b == w.row;
    } else {
      var h := t.ops[w.op];
      assert a == OwnRow(h, w.own, w.sentGeneration).value;
      assert b == h.(own := w.own, sentGeneration := Or(h.sentGeneration, w.sentGeneration));
    }
    assert a != b ==> Sql(t, w).value.ops != Reference(t, w).ops;
  }

  lemma SnapshotWritesAgree(t: Tables, w: Write)
    requires w.PutSnapshot? || w.SnapshotOwn? || w.DeleteSnapshot?
    requires Sql(t, w).Some?
    ensures Sql(t, w).value == Reference(t, w) <==> !Diverges(t, w)
  {
    if w.DeleteSnapshot? {
      if w.snapshot in t.snapshots {
        assert w.snapshot !in Reference(t, w).snapshots;
      } else {
        assert t.snapshots - {w.snapshot} == t.snapshots;
      }
    } else {
      var a, b := Sql(t, w).value.snapshots[w.snapshot], Reference(t, w).snapshots[w.snapshot];
      assert a != b ==> Sql(t, w).value.snapshots != Reference(t, w).snapshots;
    }
  }

  /** A write the guards let through does exactly what the reference says, but for `Diverges`. */
  lemma SqlIsTheReference(t: Tables, w: Write)
    requires Sql(t, w).Some? && OwnVaultOnly(w)
    ensures Sql(t, w).value == Reference(t, w) <==> !Diverges(t, w)
  {
    match w
    case Wraps(vault, epoch, wraps) => WrapsAgree(t.wraps, vault, epoch, wraps);
    case PutOp(_, _) => OpWritesAgree(t, w);
    case OpOwn(_, _, _) => OpWritesAgree(t, w);
    case PutSnapshot(_, _) => SnapshotWritesAgree(t, w);
    case SnapshotOwn(_, _, _) => SnapshotWritesAgree(t, w);
    case DeleteSnapshot(_) => SnapshotWritesAgree(t, w);
    case _ =>
  }

  // ---------- what the statements leave, row by row ----------

  /** The object at `k` is the one the last row of the list that names its device carries. */
  predicate IsLastListed(rows: seq<Signed>, key: Blob, wire: Blob) {
    exists i :: 0 <= i < |rows| && rows[i].device == key && rows[i].wire == wire &&
      forall j :: i < j < |rows| ==> rows[j].device != key
  }

  predicate Lists(rows: seq<Signed>, key: Blob) {
    exists i :: 0 <= i < |rows| && rows[i].device == key
  }

  /** The objects of this kind are exactly the listed ones. */
  ghost predicate HoldsListed(objects: map<ObjectKey, Blob>, kind: Kind, rows: seq<Signed>) {
    forall key: Blob ::
      (ObjectKey(kind, key) in objects <==> Lists(rows, key)) &&
      (ObjectKey(kind, key) in objects ==> IsLastListed(rows, key, objects[ObjectKey(kind, key)]))
  }

  ghost predicate SameElsewhere<K(!new), V>(before: map<K, V>, after: map<K, V>, named: K -> bool) {
    forall k :: !named(k) ==> (k in before <==> k in after) && (k in before && k in after ==> before[k] == after[k])
  }

  /** The device set of the file is the one of the write, and nothing else changed. */
  ghost predicate SetReplaced(t: Tables, certificates: seq<Signed>, revocations: seq<Signed>, u: Tables) {
    u == t.(objects := u.objects) &&
    HoldsListed(u.objects, Certificate, certificates) && HoldsListed(u.objects, Revocation, revocations) &&
    SameElsewhere(t.objects, u.objects, (k: ObjectKey) => k.kind.Certificate? || k.kind.Revocation?)
  }

  /** What the upserts of one kind make of the object at `k`. */
  lemma {:induction false} PutSignedAt(objects: map<ObjectKey, Blob>, kind: Kind, rows: seq<Signed>, k: ObjectKey)
    ensures
      var after := PutSigned(objects, kind, rows);
      (k in after <==> k in objects || (k.kind == kind && Lists(rows, k.key))) &&
      (k in after ==> if k.kind == kind && Lists(rows, k.key) then IsLastListed(rows, k.key, after[k])
                      else after[k] == objects[k])
    decreases |rows|
  {
    if rows != [] {
      var rest, put := rows[1..], objects[ObjectKey(kind, rows[0].device) := rows[0].wire];
      PutSignedAt(put, kind, rest, k);
      assert forall i :: 0 <= i < |rest| ==> rest[i] == rows[i + 1];
      assert Lists(rows, k.key) <==> rows[0].device == k.key || Lists(rest, k.key) by {
        if Lists(rows, k.key) && rows[0].device != k.key {
          var i :| 0 <= i < |rows| && rows[i].device == k.key;
          assert rest[i - 1].device == k.key;
        }
      }
      var after := PutSigned(objects, kind, rows);
      if k.kind == kind && Lists(rest, k.key) {
        var i :| 0 <= i < |rest| && rest[i].device == k.key && rest[i].wire == after[k] &&
          forall j :: i < j < |rest| ==> rest[j].device != k.key;
        forall j | i + 1 < j < |rows|
          ensures rows[j].device != k.key
        {
          assert rows[j] == rest[j - 1];
        }
        assert rows[i + 1].device == k.key;
      } else if k.kind == kind && rows[0].device == k.key {
        forall j | 0 < j < |rows|
          ensures rows[j].device != k.key
        {
          assert rows[j] == rest[j - 1];
        }
      }
    }
  }

  /** A device set in a write replaces the one in the file. */
  lemma SetIsReplaced(t: Tables, certificates: seq<Signed>, revocations: seq<Signed>)
    ensures Sql(t, DeviceSet(certificates, revocations)).Some?
    ensures SetReplaced(t, certificates, revocations, Sql(t, DeviceSet(certificates, revocations)).value)
  {
    var u := Sql(t, DeviceSet(certificates, revocations)).value;
    var cleared := WithoutDeviceSet(t.objects);
    var put := PutSigned(cleared, Certificate, certificates);
    forall k: ObjectKey
      ensures k.kind.Certificate? ==> (k in u.objects <==> Lists(certificates, k.key)) &&
                                      (k in u.objects ==> IsLastListed(certificates, k.key, u.objects[k]))
      ensures k.kind.Revocation? ==> (k in u.objects <==> Lists(revocations, k.key)) &&
                                     (k in u.objects ==> IsLastListed(revocations, k.key, u.objects[k]))
      ensures !k.kind.Certificate? && !k.kind.Revocation? ==>
                (k in t.objects <==> k in u.objects) && (k in t.objects ==> t.objects[k] == u.objects[k])
    {
      PutSignedAt(cleared, Certificate, certificates, k);
      PutSignedAt(put, Revocation, revocations, k);
    }
  }

  predicate ListsWrap(wraps: seq<Wrap>, k: WrapKey) {
    exists i :: 0 <= i < |wraps| && wraps[i].key == k
  }

  predicate IsLastWrap(wraps: seq<Wrap>, k: WrapKey, row: WrapRow) {
    exists i :: 0 <= i < |wraps| && wraps[i] == Wrap(k, row) && forall j :: i < j < |wraps| ==> wraps[j].key != k
  }

  /** The listed wraps are held; of the others, those of the vault below the epoch are gone and the rest stays. */
  ghost predicate WrapsReplaced(t: Tables, vault: Id, epoch: nat, wraps: seq<Wrap>, u: Tables) {
    u == t.(wraps := u.wraps) &&
    forall k ::
      if ListsWrap(wraps, k) then k in u.wraps && IsLastWrap(wraps, k, u.wraps[k])
      else (k in u.wraps <==> k in t.wraps && (k.vault == vault ==> t.wraps[k].epoch >= epoch)) &&
           (k in u.wraps ==> u.wraps[k] == t.wraps[k])
  }

  lemma {:induction false} PutWrapsAt(held: map<WrapKey, WrapRow>, wraps: seq<Wrap>, k: WrapKey)
    ensures
      var after := PutWraps(held, wraps);
      if ListsWrap(wraps, k) then k in after && IsLastWrap(wraps, k, after[k])
      else (k in after <==> k in held) && (k in after ==> after[k] == held[k])
    decreases |wraps|
  {
    if wraps != [] {
      var rest := wraps[1..];
      PutWrapsAt(held[wraps[0].key := wraps[0].row], rest, k);
      assert forall i :: 0 <= i < |rest| ==> rest[i] == wraps[i + 1];
      if ListsWrap(wraps, k) && wraps[0].key != k {
        var i :| 0 <= i < |wraps| && wraps[i].key == k;
        assert rest[i - 1].key == k;
      }
      if ListsWrap(rest, k) {
        var row := PutWraps(held, wraps)[k];
        var i :| 0 <= i < |rest| && rest[i] == Wrap(k, row) && forall j :: i < j < |rest| ==> rest[j].key != k;
        forall j | i + 1 < j < |wraps|
          ensures wraps[j].key != k
        {
          assert wraps[j] == rest[j - 1];
        }
        assert wraps[i + 1] == Wrap(k, row);
      } else if wraps[0].key == k {
        forall j | 0 < j < |wraps|
          ensures wraps[j].key != k
        {
          assert wraps[j] == rest[j - 1];
        }
        assert wraps[0] == Wrap(k, wraps[0].row);
      }
    }
  }

  lemma WrapsAreReplaced(t: Tables, vault: Id, epoch: nat, wraps: seq<Wrap>)
    ensures Sql(t, Wraps(vault, epoch, wraps)).Some?
    ensures WrapsReplaced(t, vault, epoch, wraps, Sql(t, Wraps(vault, epoch, wraps)).value)
  {
    forall k: WrapKey {
      PutWrapsAt(WithoutOldWraps(t.wraps, vault, epoch), wraps, k);
    }
  }

  /** A new grant keeps the generation of its vault, and every other vault. */
  ghost predicate GrantReplaced(t: Tables, grant: Grant, u: Tables) {
    u == t.(vaults := u.vaults) && grant.vault in u.vaults && u.vaults[grant.vault].grant == grant &&
    (grant.vault in t.vaults ==> u.vaults[grant.vault].generation == t.vaults[grant.vault].generation) &&
    (grant.vault !in t.vaults ==> u.vaults[grant.vault].generation.None?) &&
    SameElsewhere(t.vaults, u.vaults, (v: Id) => v == grant.vault)
  }

  /** What a write that runs changes: the rows it names, and for a set every row of what it replaces. */
  ghost predicate Changes(t: Tables, w: Write, u: Tables) {
    match w
    case Meta(key, value) =>
      u == t.(meta := u.meta) && key in u.meta && u.meta[key] == value &&
      SameElsewhere(t.meta, u.meta, (k: MetaKey) => k == key)
    case DeviceState(record, _) => u == t.(deviceState := u.deviceState) && u.deviceState == Some(record)
    case PendingCommit(request) => u == t.(pendingCommit := u.pendingCommit) && u.pendingCommit == request
    case AccountState(wire, _, _) => HoldsObject(t, ObjectKey(State, []), wire, u)
    case PutObject(key, bytes) => HoldsObject(t, key, bytes, u)
    case ClearAlarm(alarm) =>
      u == t.(objects := u.objects) && ObjectKey(Alarm, [alarm]) !in u.objects &&
      SameElsewhere(t.objects, u.objects, (k: ObjectKey) => k == ObjectKey(Alarm, [alarm]))
    case DeviceSet(certificates, revocations) => SetReplaced(t, certificates, revocations, u)
    case VaultGrant(grant, _) => GrantReplaced(t, grant, u)
    case VaultGeneration(vault, generation) =>
      u == t.(vaults := u.vaults) && vault in t.vaults && vault in u.vaults &&
      u.vaults[vault] == VaultRow(t.vaults[vault].grant, Some(generation)) &&
      SameElsewhere(t.vaults, u.vaults, (v: Id) => v == vault)
    case Wraps(vault, epoch, wraps) => WrapsReplaced(t, vault, epoch, wraps, u)
    case PutOp(key, row) =>
      OneOp(t, key, u) &&
      if key in t.ops then Filled(t.ops[key], row, u.ops[key]) else u.ops[key] == row.(sentGeneration := None)
    case ReissueOp(key, row, stale) =>
      OneOp(t, key, u) && key in t.ops && MayBeReissued(t.ops[key], stale) &&
      u.ops[key] == row.(item := t.ops[key].item, own := Unsent, sentGeneration := None)
    case OpOwn(key, to, generation) =>
      OneOp(t, key, u) && key in t.ops &&
      u.ops[key] == t.ops[key].(own := to, sentGeneration := u.ops[key].sentGeneration) &&
      Moved(t.ops[key].own, t.ops[key].sentGeneration, to, generation, u.ops[key].sentGeneration)
    case PruneOpBody(key) =>
      OneOp(t, key, u) && key in t.ops && t.ops[key].own.Served? && u.ops[key] == t.ops[key].(body := None)
    case PutSnapshot(key, row) =>
      if key in t.snapshots then u == t
      else OneSnapshot(t, key, u) && key in u.snapshots && u.snapshots[key] == row.(sentGeneration := None)
    case SnapshotOwn(key, to, generation) =>
      OneSnapshot(t, key, u) && key in t.snapshots && key in u.snapshots &&
      u.snapshots[key] == t.snapshots[key].(own := to, sentGeneration := u.snapshots[key].sentGeneration) &&
      Moved(t.snapshots[key].own, t.snapshots[key].sentGeneration, to, generation, u.snapshots[key].sentGeneration)
    case DeleteSnapshot(key) =>
      OneSnapshot(t, key, u) &&
      (key in u.snapshots <==>
         key in t.snapshots && (t.snapshots[key].own.Served? || t.snapshots[key].own.Acknowledged?)) &&
      (key in u.snapshots ==> u == t)
  }

  /** A held op put again: what it has stays, and what it lacks is filled from a row of the same statement. */
  ghost predicate Filled(h: OpRow, row: OpRow, r: OpRow) {
    h.statement == row.statement && r == h.(body := r.body, keyWrap := r.keyWrap) &&
    (h.body.Some? ==> r.body == h.body) && (h.body.None? ==> r.body == row.body) &&
    (h.keyWrap.Some? ==> r.keyWrap == h.keyWrap) && (h.keyWrap.None? ==> r.keyWrap == row.keyWrap)
  }

  /** The server surely holds no such op: it was not sent, or the stale answer came under the generation of its send. */
  ghost predicate MayBeReissued(h: OpRow, stale: Option<Id>) {
    h.own.Unsent? || (h.own.Sent? && h.sentGeneration == stale)
  }

  /** An own row moves on to sent or acknowledged and never back, and keeps the generation of its first send. */
  ghost predicate Moved(from: Own, first: Option<Id>, to: Own, generation: Option<Id>, after: Option<Id>) {
    (to.Sent? ==> (from.Unsent? || from.Sent?) && (first.None? ==> after == generation)) &&
    (to.Acknowledged? ==> (from.Sent? || from.Acknowledged?) && after == first) &&
    (to.Sent? || to.Acknowledged?) && (first.Some? ==> after == first)
  }

  ghost predicate HoldsObject(t: Tables, key: ObjectKey, bytes: Blob, u: Tables) {
    u == t.(objects := u.objects) && key in u.objects && u.objects[key] == bytes &&
    SameElsewhere(t.objects, u.objects, (k: ObjectKey) => k == key)
  }

  ghost predicate OneOp(t: Tables, key: OpKey, u: Tables) {
    u == t.(ops := u.ops) && key in u.ops && SameElsewhere(t.ops, u.ops, (k: OpKey) => k == key)
  }

  ghost predicate OneSnapshot(t: Tables, key: SnapshotKey, u: Tables) {
    u == t.(snapshots := u.snapshots) && SameElsewhere(t.snapshots, u.snapshots, (k: SnapshotKey) => k == key)
  }

  lemma OpChanges(t: Tables, w: Write)
    requires w.PutOp? || w.ReissueOp? || w.OpOwn? || w.PruneOpBody?
    requires Sql(t, w).Some?
    ensures Changes(t, w, Sql(t, w).value)
  {
    hide SetReplaced, WrapsReplaced, GrantReplaced, HoldsObject, OneSnapshot;
    match w
    case PutOp(_, _) =>
    case ReissueOp(_, _, _) =>
    case OpOwn(_, _, _) =>
    case PruneOpBody(_) =>
  }

  lemma SnapshotChanges(t: Tables, w: Write)
    requires w.PutSnapshot? || w.SnapshotOwn? || w.DeleteSnapshot?
    requires Sql(t, w).Some?
    ensures Changes(t, w, Sql(t, w).value)
  {
    hide SetReplaced, WrapsReplaced, GrantReplaced, HoldsObject, OneOp;
    match w
    case PutSnapshot(_, _) =>
    case SnapshotOwn(_, _, _) =>
    case DeleteSnapshot(_) =>
  }

  /** The SQLite executor changes what a write names, and nothing else. */
  lemma SqlChanges(t: Tables, w: Write)
    requires Sql(t, w).Some?
    ensures Changes(t, w, Sql(t, w).value)
  {
    hide WrapsReplaced, SetReplaced;
    match w
    case DeviceSet(certificates, revocations) => SetIsReplaced(t, certificates, revocations);
    case Wraps(vault, epoch, wraps) => WrapsAreReplaced(t, vault, epoch, wraps);
    case PutOp(_, _) => OpChanges(t, w);
    case ReissueOp(_, _, _) => OpChanges(t, w);
    case OpOwn(_, _, _) => OpChanges(t, w);
    case PruneOpBody(_) => OpChanges(t, w);
    case PutSnapshot(_, _) => SnapshotChanges(t, w);
    case SnapshotOwn(_, _, _) => SnapshotChanges(t, w);
    case DeleteSnapshot(_) => SnapshotChanges(t, w);
    case _ =>
  }
}
