/**
 The SQLite executor of the cache (crates/rizzy-cli/src/db.rs): the tables are changed row by row
 inside one transaction, and a refused guard or a crash rolls every change back. `CacheRows.Sql` is
 the specification of one write; `Transaction` is that of a changeset.
 */
module CacheDb {
  import opened Base
  import opened CacheRows

  /** What is committed once `writes` were run until `limit` of them, and whether the commit went through. */
  function Transaction(t: Tables, writes: seq<Write>, limit: nat): (Tables, bool) {
    if writes == [] then (t, true)
    else if limit < |writes| || SqlAll(t, writes).None? then (t, false)
    else (SqlAll(t, writes).value, true)
  }

  /** Running one more write of a changeset is running the write after what came before. */
  lemma {:induction false} OneMoreWrite(t: Tables, writes: seq<Write>, i: nat)
    requires i < |writes| && SqlAll(t, writes[..i]).Some?
    ensures SqlAll(t, writes[..i + 1]) == Sql(SqlAll(t, writes[..i]).value, writes[i])
    ensures Sql(SqlAll(t, writes[..i]).value, writes[i]).None? ==> SqlAll(t, writes).None?
    decreases i
  {
    if i == 0 {
      assert writes[..1] == [writes[0]];
      assert SqlAll(t, [writes[0]]) == Sql(t, writes[0]);
    } else {
      var next := Sql(t, writes[0]).value;
      assert writes[..i][1..] == writes[1..][..i - 1];
      assert writes[..i + 1][1..] == writes[1..][..i];
      OneMoreWrite(next, writes[1..], i - 1);
    }
  }

  class CacheDb {
    var meta: map<MetaKey, Blob>
    var deviceState: Option<Blob>
    var pendingCommit: Option<Blob>
    var objects: map<ObjectKey, Blob>
    var vaults: map<Id, VaultRow>
    var wraps: map<WrapKey, WrapRow>
    var ops: map<OpKey, OpRow>
    var snapshots: map<SnapshotKey, SnapshotRow>

    function Rows(): Tables
      reads this
    {
      Tables(meta, deviceState, pendingCommit, objects, vaults, wraps, ops, snapshots)
    }

    /** The schema, and nothing in it. */
    constructor ()
      ensures Rows() == EMPTY
    {
      meta, deviceState, pendingCommit, objects := map[], None, None, map[];
      vaults, wraps, ops, snapshots := map[], map[], map[], map[];
    }

    /** The new enrolment's file with its first changeset, unless there is a file already. */
    static method Create(taken: bool, first: seq<Write>) returns (db: CacheDb?)
      ensures db != null <==> !taken && SqlAll(EMPTY, first).Some?
      ensures db != null ==> fresh(db) && db.Rows() == SqlAll(EMPTY, first).value
    {
      if taken {
        return null;
      }
      db := new CacheDb();
      var done := db.Write(first);
      if !done {
        db := null;
      }
    }

    method PutMeta(k: MetaKey, value: Blob) returns (done: bool)
      modifies `meta
      ensures done <==> Sql(old(Rows()), Meta(k, value)).Some?
      ensures Rows() == if done then Sql(old(Rows()), Meta(k, value)).value else old(Rows())
    {
      done := true;
      if k in meta {
        done := if IsCounter(k) then BlobLeq(meta[k], value) else meta[k] == value;
      }
      if done {
        meta := meta[k := value];
      }
    }

    method PutObjectRow(k: ObjectKey, bytes: Blob) returns (done: bool)
      modifies `objects
      ensures done <==> Sql(old(Rows()), PutObject(k, bytes)).Some?
      ensures Rows() == if done then Sql(old(Rows()), PutObject(k, bytes)).value else old(Rows())
    {
      var once := k.kind.Bundle? || k.kind.Settings?;
      done := !(once && k in objects && objects[k] != bytes);
      if done {
        objects := objects[k := bytes];
      }
    }

    /** Upserts the statements of one kind, one after the other. */
    method PutStatements(kind: Kind, rows: seq<Signed>)
      modifies `objects
      ensures objects == PutSigned(old(objects), kind, rows)
    {
      var i := 0;
      while i < |rows|
        invariant 0 <= i <= |rows|
        invariant PutSigned(objects, kind, rows[i..]) == PutSigned(old(objects), kind, rows)
      {
        objects := objects[ObjectKey(kind, rows[i].device) := rows[i].wire];
        assert rows[i..][1..] == rows[i + 1..];
        i := i + 1;
      }
    }

    method PutDeviceSet(certificates: seq<Signed>, revocations: seq<Signed>)
      modifies `objects
      ensures Some(Rows()) == Sql(old(Rows()), DeviceSet(certificates, revocations))
      ensures SetReplaced(old(Rows()), certificates, revocations, Rows())
    {
      hide PutSigned, SetReplaced;
      SetIsReplaced(Rows(), certificates, revocations);
      objects := WithoutDeviceSet(objects);
      PutStatements(Certificate, certificates);
      PutStatements(Revocation, revocations);
    }

    method PutVault(grant: Grant, keyId: Id)
      modifies `vaults
      ensures Some(Rows()) == Sql(old(Rows()), VaultGrant(grant, keyId))
      ensures GrantReplaced(old(Rows()), grant, Rows())
    {
      var generation := if grant.vault in vaults then vaults[grant.vault].generation else None;
      vaults := vaults[grant.vault := VaultRow(grant, generation)];
    }

    method SetGeneration(vault: Id, generation: Id) returns (done: bool)
      modifies `vaults
      ensures done <==> Sql(old(Rows()), VaultGeneration(vault, generation)).Some?
      ensures Rows() == if done then Sql(old(Rows()), VaultGeneration(vault, generation)).value else old(Rows())
    {
      done := vault in vaults;
      if done {
        vaults := vaults[vault := vaults[vault].(generation := Some(generation))];
      }
    }

    method PutWrapSet(vault: Id, epoch: nat, rows: seq<Wrap>)
      modifies `wraps
      ensures Some(Rows()) == Sql(old(Rows()), Wraps(vault, epoch, rows))
      ensures WrapsReplaced(old(Rows()), vault, epoch, rows, Rows())
    {
      WrapsAreReplaced(Rows(), vault, epoch, rows);
      wraps := WithoutOldWraps(wraps, vault, epoch);
      ghost var deleted := wraps;
      var i := 0;
      while i < |rows|
        invariant 0 <= i <= |rows|
        invariant PutWraps(wraps, rows[i..]) == PutWraps(deleted, rows)
      {
        wraps := wraps[rows[i].key := rows[i].row];
        assert rows[i..][1..] == rows[i + 1..];
        i := i + 1;
      }
    }

    /** One statement on `ops`; `done` says whether its guard matched a row. */
    method WriteOp(w: Write) returns (done: bool)
      requires w.PutOp? || w.ReissueOp? || w.OpOwn? || w.PruneOpBody?
      modifies `ops
      ensures done <==> Sql(old(Rows()), w).Some?
      ensures Rows() == if done then Sql(old(Rows()), w).value else old(Rows())
    {
      var key := w.op;
      var put: Option<OpRow> := None;
      if w.PutOp? {
        put := PutRow(if key in ops then Some(ops[key]) else None, w.row);
      } else if key in ops {
        var held := ops[key];
        if w.ReissueOp? {
          put := ReissueRow(held, w.row, w.staleGeneration);
        } else if w.OpOwn? {
          put := OwnRow(held, w.own, w.sentGeneration);
        } else if held.own.Served? {
          put := Some(held.(body := None));
        }
      }
      done := put.Some?;
      if done {
        ops := ops[key := put.value];
      }
    }

    method WriteSnapshot(w: Write) returns (done: bool)
      requires w.PutSnapshot? || w.SnapshotOwn? || w.DeleteSnapshot?
      modifies `snapshots
      ensures done <==> Sql(old(Rows()), w).Some?
      ensures Rows() == if done then Sql(old(Rows()), w).value else old(Rows())
    {
      var key := w.snapshot;
      done := true;
      match w
      case PutSnapshot(_, row) =>
        if key !in snapshots {
          snapshots := snapshots[key := row.(sentGeneration := None)];
        }
      case SnapshotOwn(_, to, generation) =>
        done := key in snapshots && OwnSnapshotRow(snapshots[key], to, generation).Some?;
        if done {
          snapshots := snapshots[key := OwnSnapshotRow(snapshots[key], to, generation).value];
        }
      case DeleteSnapshot(_) =>
        if key in snapshots && (snapshots[key].own.Unsent? || snapshots[key].own.Sent?) {
          snapshots := snapshots - {key};
        }
    }

    /** Runs one write inside the transaction; a refused guard changes nothing. */
    method Apply(w: Write) returns (done: bool)
      modifies this
      ensures done <==> Sql(old(Rows()), w).Some?
      ensures Rows() == if done then Sql(old(Rows()), w).value else old(Rows())
      ensures done ==> Changes(old(Rows()), w, Rows())
    {
      if Sql(Rows(), w).Some? {
        SqlChanges(Rows(), w);
      }
      hide Changes;
      done := true;
      match w
      case Meta(k, value) => done := PutMeta(k, value);
      case DeviceState(record, _) => deviceState := Some(record);
      case PendingCommit(request) => pendingCommit := request;
      case AccountState(wire, _, _) => objects := objects[ObjectKey(State, []) := wire];
      case PutObject(key, bytes) => done := PutObjectRow(key, bytes);
      case ClearAlarm(alarm) => objects := objects - {ObjectKey(Alarm, [alarm])};
      case DeviceSet(certificates, revocations) => PutDeviceSet(certificates, revocations);
      case VaultGrant(grant, keyId) => PutVault(grant, keyId);
      case VaultGeneration(vault, generation) => done := SetGeneration(vault, generation);
      case Wraps(vault, epoch, rows) => PutWrapSet(vault, epoch, rows);
      case PutOp(_, _) => done := WriteOp(w);
      case ReissueOp(_, _, _) => done := WriteOp(w);
      case OpOwn(_, _, _) => done := WriteOp(w);
      case PruneOpBody(_) => done := WriteOp(w);
      case PutSnapshot(_, _) => done := WriteSnapshot(w);
      case SnapshotOwn(_, _, _) => done := WriteSnapshot(w);
      case DeleteSnapshot(_) => done := WriteSnapshot(w);
    }

    /** Drops the transaction: every table is as it was when it began. */
    method Rollback(begun: Tables)
      modifies this
      ensures Rows() == begun
    {
      meta, deviceState, pendingCommit, objects := begun.meta, begun.deviceState, begun.pendingCommit, begun.objects;
      vaults, wraps, ops, snapshots := begun.vaults, begun.wraps, begun.ops, begun.snapshots;
    }

    /** Runs a changeset as one transaction that dies after `limit` writes. */
    method WriteUntil(writes: seq<Write>, limit: nat) returns (ok: bool)
      modifies this
      ensures (Rows(), ok) == Transaction(old(Rows()), writes, limit)
    {
      if writes == [] {
        return true;
      }
      var begun := Rows();
      var index := 0;
      while index < |writes|
        invariant 0 <= index <= |writes| && index <= limit
        invariant SqlAll(begun, writes[..index]) == Some(Rows())
      {
        if index >= limit {
          Rollback(begun);
          return false;
        }
        OneMoreWrite(begun, writes, index);
        var done := Apply(writes[index]);
        if !done {
          Rollback(begun);
          return false;
        }
        index := index + 1;
      }
      assert writes[..index] == writes;
      return true;
    }

    method Write(writes: seq<Write>) returns (ok: bool)
      modifies this
      ensures ok <==> SqlAll(old(Rows()), writes).Some?
      ensures Rows() == if ok then SqlAll(old(Rows()), writes).value else old(Rows())
    {
      ok := WriteUntil(writes, |writes|);
    }
  }
}
