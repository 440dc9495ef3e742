/**
 What the rows of a cache file keep over any run of changesets, committed, refused or cut short by a
 crash: the guarantees of the SQL guards alone, whatever the changesets ask for, and those the
 floors add (crates/rizzy-cli/src/db.rs, crates/rizzy-client/src/store/floors.rs).
 */
module CacheLifecycle {
  import opened Base
  import opened CacheRows
  import opened CacheFloors
  import opened CacheDb

  // ---------- runs of transactions ----------

  /** A changeset handed to the executor, and after how many writes the process dies. */
  datatype Attempt = Attempt(writes: seq<Write>, limit: nat)

  function After(t: Tables, attempts: seq<Attempt>): Tables
    decreases |attempts|
  {
    if attempts == [] then t else After(Transaction(t, attempts[0].writes, attempts[0].limit).0, attempts[1..])
  }

  /** The writes of the changesets that went through, in order. */
  function Committed(t: Tables, attempts: seq<Attempt>): seq<Write>
    decreases |attempts|
  {
    if attempts == [] then []
    else
      var done := Transaction(t, attempts[0].writes, attempts[0].limit);
      (if done.1 then attempts[0].writes else []) + Committed(done.0, attempts[1..])
  }

  lemma {:induction false} SqlAllAppends(t: Tables, a: seq<Write>, b: seq<Write>)
    requires SqlAll(t, a).Some?
    ensures SqlAll(t, a + b) == SqlAll(SqlAll(t, a).value, b)
    decreases |a|
  {
    if a == [] {
      assert a + b == b;
    } else {
      assert (a + b)[1..] == a[1..] + b;
      SqlAllAppends(Sql(t, a[0]).value, a[1..], b);
    }
  }

  /** A crash or a refusal leaves no trace: the file is the fold of the committed changesets alone. */
  lemma {:induction false} OnlyCommittedWritesCount(t: Tables, attempts: seq<Attempt>)
    ensures SqlAll(t, Committed(t, attempts)) == Some(After(t, attempts))
    decreases |attempts|
  {
    if attempts == [] {
    } else {
      var done := Transaction(t, attempts[0].writes, attempts[0].limit);
      OnlyCommittedWritesCount(done.0, attempts[1..]);
      if done.1 {
        SqlAllAppends(t, attempts[0].writes, Committed(done.0, attempts[1..]));
      } else {
        assert [] + Committed(done.0, attempts[1..]) == Committed(done.0, attempts[1..]);
      }
    }
  }

  // ---------- op rows ----------

  /** What an op row is sure to keep, whatever is written to it later. */
  predicate Kept(h: OpRow, later: OpRow) {
    later.item == h.item && (h.own.Served? <==> later.own.Served?) &&
    (h.own.Served? || h.own.Acknowledged? ==>
       later.own == h.own && later.statement == h.statement && later.sentGeneration == h.sentGeneration &&
       (h.keyWrap.Some? ==> later.keyWrap == h.keyWrap)) &&
    (h.own.Acknowledged? && h.body.Some? ==> later.body == h.body)
  }

  lemma WriteKeepsRows(t: Tables, w: Write, key: OpKey)
    requires Sql(t, w).Some? && key in t.ops
    ensures key in Sql(t, w).value.ops && Kept(t.ops[key], Sql(t, w).value.ops[key])
  {
  }

  lemma {:induction false} WritesKeepRows(t: Tables, writes: seq<Write>, key: OpKey)
    requires SqlAll(t, writes).Some? && key in t.ops
    ensures key in SqlAll(t, writes).value.ops && Kept(t.ops[key], SqlAll(t, writes).value.ops[key])
    decreases |writes|
  {
    if writes == [] {
    } else {
      WriteKeepsRows(t, writes[0], key);
      WritesKeepRows(Sql(t, writes[0]).value, writes[1..], key);
    }
  }

  /** No row is ever lost: a served row stays served, an acknowledged one keeps statement, body and wrap. */
  lemma RowsAreKept(t: Tables, attempts: seq<Attempt>, key: OpKey)
    requires key in t.ops
    ensures key in After(t, attempts).ops && Kept(t.ops[key], After(t, attempts).ops[key])
  {
    OnlyCommittedWritesCount(t, attempts);
    WritesKeepRows(t, Committed(t, attempts), key);
  }

  /** The guard of a re-issue: never sent, or sent under the generation of the answer that refused it. */
  predicate MayBeReissued(h: OpRow, stale: Option<Id>) {
    h.own.Unsent? || (h.own.Sent? && h.sentGeneration == stale)
  }

  predicate ReissuesAt(t: Tables, writes: seq<Write>, i: nat, key: OpKey) {
    i < |writes| && writes[i].ReissueOp? && writes[i].op == key &&
    var before := SqlAll(t, writes[..i]);
    before.Some? && key in before.value.ops && MayBeReissued(before.value.ops[key], writes[i].staleGeneration)
  }

  lemma WriteReissues(t: Tables, w: Write, key: OpKey)
    requires Sql(t, w).Some? && key in t.ops && key in Sql(t, w).value.ops
    requires Sql(t, w).value.ops[key].statement != t.ops[key].statement
    ensures w.ReissueOp? && w.op == key && MayBeReissued(t.ops[key], w.staleGeneration)
  {
  }

  /** A row whose statement changed was re-issued, and its guard admitted that re-issue at its turn. */
  lemma {:induction false} StatementChangesByReissue(t: Tables, writes: seq<Write>, key: OpKey) returns (i: nat)
    requires SqlAll(t, writes).Some? && key in t.ops
    requires key in SqlAll(t, writes).value.ops && SqlAll(t, writes).value.ops[key].statement != t.ops[key].statement
    ensures ReissuesAt(t, writes, i, key)
    decreases |writes|
  {
    var next := Sql(t, writes[0]).value;
    WriteKeepsRows(t, writes[0], key);
    if next.ops[key].statement != t.ops[key].statement {
      WriteReissues(t, writes[0], key);
      i := 0;
      assert SqlAll(t, writes[..0]) == Some(t);
    } else {
      var j := StatementChangesByReissue(next, writes[1..], key);
      i := j + 1;
      assert writes[..i][1..] == writes[1..][..j];
      assert writes[..i][0] == writes[0];
      assert SqlAll(t, writes[..i]) == SqlAll(next, writes[1..][..j]);
    }
  }

  lemma StatementsChangeOnlyByReissue(t: Tables, attempts: seq<Attempt>, key: OpKey)
    requires key in t.ops
    requires key in After(t, attempts).ops && After(t, attempts).ops[key].statement != t.ops[key].statement
    ensures exists i: nat :: ReissuesAt(t, Committed(t, attempts), i, key)
  {
    OnlyCommittedWritesCount(t, attempts);
    var i := StatementChangesByReissue(t, Committed(t, attempts), key);
  }

  /** No generation on a row while it is served or unsent. */
  predicate UnsentCarryNone(t: Tables) {
    forall k :: k in t.ops && (t.ops[k].own.Served? || t.ops[k].own.Unsent?) ==> t.ops[k].sentGeneration.None?
  }

  /** Every own row holds its body. */
  predicate OwnBodiesHeld(t: Tables) {
    forall k :: k in t.ops && !t.ops[k].own.Served? ==> t.ops[k].body.Some?
  }

  /** What a device writes of its own ops carries the body. */
  predicate CarriesOwnBody(w: Write) {
    (w.PutOp? && !w.row.own.Served? ==> w.row.body.Some?) && (w.ReissueOp? ==> w.row.body.Some?)
  }

  lemma WriteKeepsColumns(t: Tables, w: Write)
    requires Sql(t, w).Some?
    ensures UnsentCarryNone(t) ==> UnsentCarryNone(Sql(t, w).value)
    ensures OwnBodiesHeld(t) && CarriesOwnBody(w) ==> OwnBodiesHeld(Sql(t, w).value)
  {
    var after := Sql(t, w).value.ops;
    if w.PutOp? || w.ReissueOp? || w.OpOwn? || w.PruneOpBody? {
      assert w.op in after && after == t.ops[w.op := after[w.op]];
    } else {
      assert after == t.ops;
    }
  }

  lemma {:induction false} WritesKeepColumns(t: Tables, writes: seq<Write>)
    requires SqlAll(t, writes).Some?
    ensures UnsentCarryNone(t) ==> UnsentCarryNone(SqlAll(t, writes).value)
    ensures OwnBodiesHeld(t) && (forall w :: w in writes ==> CarriesOwnBody(w)) ==>
              OwnBodiesHeld(SqlAll(t, writes).value)
    decreases |writes|
  {
    if writes == [] {
    } else {
      WriteKeepsColumns(t, writes[0]);
      WritesKeepColumns(Sql(t, writes[0]).value, writes[1..]);
    }
  }

  lemma {:induction false} CommittedWereAttempted(t: Tables, attempts: seq<Attempt>, w: Write)
    requires w in Committed(t, attempts)
    ensures exists a :: a in attempts && w in a.writes
    decreases |attempts|
  {
    var done := Transaction(t, attempts[0].writes, attempts[0].limit);
    if w in Committed(done.0, attempts[1..]) {
      CommittedWereAttempted(done.0, attempts[1..], w);
      var a :| a in attempts[1..] && w in a.writes;
      assert a in attempts;
    } else {
      assert attempts[0] in attempts && w in attempts[0].writes;
    }
  }

  /** From an empty file on: no generation on an unsent row, and no own row without its body. */
  lemma ColumnsAreKept(attempts: seq<Attempt>)
    ensures UnsentCarryNone(After(EMPTY, attempts))
    ensures (forall a, w :: a in attempts && w in a.writes ==> CarriesOwnBody(w)) ==>
              OwnBodiesHeld(After(EMPTY, attempts))
  {
    OnlyCommittedWritesCount(EMPTY, attempts);
    WritesKeepColumns(EMPTY, Committed(EMPTY, attempts));
    forall w | w in Committed(EMPTY, attempts)
      ensures exists a :: a in attempts && w in a.writes
    {
      CommittedWereAttempted(EMPTY, attempts, w);
    }
  }

  /** A write that puts an own op's row where there was none, or a new statement into one. */
  predicate NeedsOwnBody(t: Tables, w: Write) {
    (w.PutOp? && w.op !in t.ops && !w.row.own.Served?) || w.ReissueOp?
  }

  /** The guards do not look at the body: own rows keep theirs exactly when the writes that need one carry it. */
  lemma BodiesComeWithTheWrite(t: Tables, w: Write)
    requires Sql(t, w).Some? && OwnBodiesHeld(t)
    ensures OwnBodiesHeld(Sql(t, w).value) <==> (NeedsOwnBody(t, w) ==> w.row.body.Some?)
  {
    var after := Sql(t, w).value.ops;
    if w.PutOp? || w.ReissueOp? || w.OpOwn? || w.PruneOpBody? {
      assert w.op in after && after == t.ops[w.op := after[w.op]];
    } else {
      assert after == t.ops;
    }
  }

  // ---------- set-once rows and counters ----------

  lemma {:induction false} BlobLeqIsTransitive(a: Blob, b: Blob, c: Blob)
    requires BlobLeq(a, b) && BlobLeq(b, c)
    ensures BlobLeq(a, c)
  {
    if a == [] {
    } else if a[0] == b[0] && b[0] == c[0] {
      BlobLeqIsTransitive(a[1..], b[1..], c[1..]);
    }
  }

  lemma {:induction false} BlobLeqIsReflexive(a: Blob)
    ensures BlobLeq(a, a)
  {
    if a == [] {
    } else {
      BlobLeqIsReflexive(a[1..]);
    }
  }

  /** What the set-once rows and the counters keep. */
  predicate MetaKept(t: Tables, later: Tables) {
    (forall k :: k in t.meta ==>
       k in later.meta && if IsCounter(k) then BlobLeq(t.meta[k], later.meta[k]) else later.meta[k] == t.meta[k]) &&
    (forall k :: k in t.objects && (k.kind.Bundle? || k.kind.Settings?) ==>
       k in later.objects && later.objects[k] == t.objects[k])
  }

  lemma WriteKeepsMeta(t: Tables, w: Write)
    requires Sql(t, w).Some?
    ensures MetaKept(t, Sql(t, w).value)
  {
    forall k | k in t.meta && IsCounter(k)
      ensures BlobLeq(t.meta[k], t.meta[k])
    {
      BlobLeqIsReflexive(t.meta[k]);
    }
    if w.DeviceSet? {
      var none := WithoutDeviceSet(t.objects);
      forall k: ObjectKey | k in t.objects && (k.kind.Bundle? || k.kind.Settings?)
        ensures k in Sql(t, w).value.objects && Sql(t, w).value.objects[k] == t.objects[k]
      {
        PutSignedKeeps(none, Certificate, w.certificates, k);
        PutSignedKeeps(PutSigned(none, Certificate, w.certificates), Revocation, w.revocations, k);
      }
    }
  }

  lemma {:induction false} WritesKeepMeta(t: Tables, writes: seq<Write>)
    requires SqlAll(t, writes).Some?
    ensures MetaKept(t, SqlAll(t, writes).value)
    decreases |writes|
  {
    if writes == [] {
      forall k | k in t.meta
        ensures BlobLeq(t.meta[k], t.meta[k])
      {
        BlobLeqIsReflexive(t.meta[k]);
      }
    } else {
      var next, last := Sql(t, writes[0]).value, SqlAll(t, writes).value;
      WriteKeepsMeta(t, writes[0]);
      WritesKeepMeta(next, writes[1..]);
      forall k | k in t.meta && IsCounter(k)
        ensures BlobLeq(t.meta[k], last.meta[k])
      {
        BlobLeqIsTransitive(t.meta[k], next.meta[k], last.meta[k]);
      }
    }
  }

  /** The two counters never decrease as numbers, and the set-once rows never change, over any run. */
  lemma CountersNeverDecrease(t: Tables, attempts: seq<Attempt>, k: MetaKey)
    requires k in t.meta
    ensures k in After(t, attempts).meta
    ensures !IsCounter(k) ==> After(t, attempts).meta[k] == t.meta[k]
    ensures IsCounter(k) && |t.meta[k]| == 8 && |After(t, attempts).meta[k]| == 8 ==>
              Numeric(t.meta[k]) <= Numeric(After(t, attempts).meta[k])
  {
    OnlyCommittedWritesCount(t, attempts);
    WritesKeepMeta(t, Committed(t, attempts));
    if IsCounter(k) && |t.meta[k]| == 8 && |After(t, attempts).meta[k]| == 8 {
      BlobOrderIsNumeric(t.meta[k], After(t, attempts).meta[k]);
    }
  }

  // ---------- what the floors add ----------

  /** The counter is above every own dot the file holds. */
  predicate CounterAboveOwn(f: Floors) {
    forall k :: k in f.ops && !f.ops[k].own.Served? ==> k.deviceSeq < f.nextDeviceSeq
  }

  /** Half way through a changeset: what it did not touch is as it was. */
  predicate Half(f: Floors, p: Pending) {
    p.base == f.nextDeviceSeq && f.nextDeviceSeq <= p.at.nextDeviceSeq &&
    (forall k :: k in f.ops ==> k in p.at.ops) &&
    (forall k :: k in p.at.ops && k !in p.touched ==> k in f.ops && p.at.ops[k] == f.ops[k]) &&
    (forall k :: k in p.at.ops && k !in f.ops && !p.at.ops[k].own.Served? ==> f.nextDeviceSeq <= k.deviceSeq)
  }

  lemma OpCheckKeepsHalf(f: Floors, p: Pending, p': Pending, key: OpKey, row: OpFloor)
    requires Half(f, p) && p' == p.(at := p.at.(ops := p.at.ops[key := row]), touched := p.touched + {key})
    requires key !in p.at.ops ==> row.own.Served? || p.base <= key.deviceSeq
    requires key in p.at.ops && p.at.ops[key].own.Served? ==> row.own.Served?
    ensures Half(f, p')
  {
    forall k | k in p'.at.ops && k !in f.ops && !p'.at.ops[k].own.Served?
      ensures f.nextDeviceSeq <= k.deviceSeq
    {
      assert k != key ==> k in p.at.ops && p.at.ops[k] == p'.at.ops[k];
    }
  }

  /** The counter only rises, and writes that are not about ops leave the ops and what was touched alone. */
  lemma CheckKeepsRest(p: Pending, w: Write)
    requires Check(p, w).Some?
    ensures Check(p, w).value.base == p.base && p.at.nextDeviceSeq <= Check(p, w).value.at.nextDeviceSeq
    ensures !w.PutOp? && !w.ReissueOp? && !w.OpOwn? ==>
              Check(p, w).value.at.ops == p.at.ops && Check(p, w).value.touched == p.touched
  {
  }

  lemma CheckKeepsHalf(f: Floors, p: Pending, w: Write)
    requires Half(f, p) && Check(p, w).Some?
    ensures Half(f, Check(p, w).value)
  {
    hide CheckMeta, CheckObject, CheckState, CheckGrant, CheckPutSnapshot, CheckSnapshotOwn;
    CheckKeepsRest(p, w);
    var p' := Check(p, w).value;
    match w
    case PutOp(key, row) =>
      if key !in p.at.ops {
        OpCheckKeepsHalf(f, p, p', key, OpFloor(row.statement, row.own, None));
      }
    case ReissueOp(key, row, _) => OpCheckKeepsHalf(f, p, p', key, OpFloor(row.statement, Unsent, None));
    case OpOwn(key, to, generation) =>
      var held := p.at.ops[key];
      OpCheckKeepsHalf(f, p, p', key, held.(own := to, sentGeneration := Or(held.sentGeneration, generation)));
    case _ => assert p'.at.ops == p.at.ops && p'.touched == p.touched;
  }

  lemma {:induction false} CheckAllKeepsHalf(f: Floors, p: Pending, writes: seq<Write>)
    requires Half(f, p) && CheckAll(p, writes).Some?
    ensures Half(f, CheckAll(p, writes).value)
    decreases |writes|
  {
    if writes == [] {
    } else {
      CheckKeepsHalf(f, p, writes[0]);
      CheckAllKeepsHalf(f, Check(p, writes[0]).value, writes[1..]);
    }
  }

  /**
   An admitted changeset uses every own dot once: a new own op takes a number no op of this file ever
   had, and the counter ends above all of them.
   */
  lemma OwnDotsAreFresh(f: Floors, writes: seq<Write>)
    requires CounterAboveOwn(f) && Admit(f, writes).Some?
    ensures
      var after := Admit(f, writes).value;
      CounterAboveOwn(after) && f.nextDeviceSeq <= after.nextDeviceSeq &&
      (forall k, j | k in after.ops && k !in f.ops && j in f.ops ::
         !after.ops[k].own.Served? && !f.ops[j].own.Served? ==> j.deviceSeq < k.deviceSeq)
  {
    CheckAllKeepsHalf(f, Begin(f), writes);
  }

  /** The file, and the index that goes with it. */
  datatype Cache = Cache(floors: Floors, tables: Tables)

  /** What a run of admitted changesets can lead to from the empty file. */
  ghost predicate AdmittedRun(c: Cache, changesets: seq<seq<Write>>)
    decreases |changesets|
  {
    if changesets == [] then c == Cache(NO_FLOORS, EMPTY)
    else
      exists before: Cache ::
        AdmittedRun(before, changesets[..|changesets| - 1]) &&
        Admit(before.floors, changesets[|changesets| - 1]) == Some(c.floors) &&
        SqlAll(before.tables, changesets[|changesets| - 1]) == Some(c.tables)
  }

  /** Over every such run the index is the file's, and the counter is above every own dot. */
  lemma {:induction false} AdmittedRunsKeepTheIndex(c: Cache, changesets: seq<seq<Write>>)
    requires AdmittedRun(c, changesets)
    ensures IndexOf(c.floors, c.tables) && GenerationsSet(c.tables) && CounterAboveOwn(c.floors)
    decreases |changesets|
  {
    if changesets == [] {
    } else {
      var earlier, last := changesets[..|changesets| - 1], changesets[|changesets| - 1];
      var before: Cache :|
        AdmittedRun(before, earlier) &&
        Admit(before.floors, last) == Some(c.floors) && SqlAll(before.tables, last) == Some(c.tables);
      AdmittedRunsKeepTheIndex(before, earlier);
      AdmittedChangesetsRun(before.floors, before.tables, last);
      OwnDotsAreFresh(before.floors, last);
    }
  }

  /** After any such run, the next admitted changeset meets no refusing guard, and is another step of it. */
  lemma AdmittedRunsNeverStop(c: Cache, changesets: seq<seq<Write>>, next: seq<Write>)
    requires AdmittedRun(c, changesets) && Admit(c.floors, next).Some?
    ensures SqlAll(c.tables, next) == Some(ReferenceAll(c.tables, next))
    ensures AdmittedRun(Cache(Admit(c.floors, next).value, ReferenceAll(c.tables, next)), changesets + [next])
  {
    AdmittedRunsKeepTheIndex(c, changesets);
    AdmittedChangesetsRun(c.floors, c.tables, next);
    var longer := changesets + [next];
    assert longer[..|longer| - 1] == changesets;
  }

  /** A run of admitted changesets leads to one cache. */
  lemma {:induction false} OneCache(c: Cache, d: Cache, changesets: seq<seq<Write>>)
    requires AdmittedRun(c, changesets) && AdmittedRun(d, changesets)
    ensures c == d
    decreases |changesets|
  {
    if changesets != [] {
      var earlier, last := changesets[..|changesets| - 1], changesets[|changesets| - 1];
      var beforeC: Cache :|
        AdmittedRun(beforeC, earlier) &&
        Admit(beforeC.floors, last) == Some(c.floors) && SqlAll(beforeC.tables, last) == Some(c.tables);
      var beforeD: Cache :|
        AdmittedRun(beforeD, earlier) &&
        Admit(beforeD.floors, last) == Some(d.floors) && SqlAll(beforeD.tables, last) == Some(d.tables);
      OneCache(beforeC, beforeD, earlier);
    }
  }

  /** The counters of one cache and of a later one, as numbers. */
  predicate CountersRise(t: Tables, later: Tables, k: MetaKey) {
    k in t.meta ==>
      k in later.meta && |t.meta[k]| == 8 && |later.meta[k]| == 8 && Numeric(t.meta[k]) <= Numeric(later.meta[k])
  }

  /** However far a run of admitted changesets goes on, its counters are numbers of 8 bytes and never decrease. */
  lemma {:induction false} AdmittedCountersNeverDecrease(c: Cache, later: Cache, changesets: seq<seq<Write>>,
                                                         more: seq<seq<Write>>,
                                                         k: MetaKey)
    requires AdmittedRun(c, changesets) && AdmittedRun(later, changesets + more) && IsCounter(k)
    ensures CountersRise(c.tables, later.tables, k)
    decreases |more|
  {
    AdmittedRunsKeepTheIndex(c, changesets);
    AdmittedRunsKeepTheIndex(later, changesets + more);
    if more == [] {
      assert changesets + more == changesets;
      OneCache(c, later, changesets);
    } else {
      var all, last := changesets + more, more[|more| - 1];
      assert all[..|all| - 1] == changesets + more[..|more| - 1] && all[|all| - 1] == last;
      var before: Cache :|
        AdmittedRun(before, all[..|all| - 1]) &&
        Admit(before.floors, last) == Some(later.floors) && SqlAll(before.tables, last) == Some(later.tables);
      AdmittedCountersNeverDecrease(c, before, changesets, more[..|more| - 1], k);
      WritesKeepMeta(before.tables, last);
      if k in c.tables.meta {
        BlobOrderIsNumeric(before.tables.meta[k], later.tables.meta[k]);
      }
    }
  }

  // ---------- states and grants over admitted runs ----------

  /** The writes of the changesets, in order. */
  function Flat(changesets: seq<seq<Write>>): seq<Write> {
    if changesets == [] then [] else Flat(changesets[..|changesets| - 1]) + changesets[|changesets| - 1]
  }

  /** What an admitted changeset brings lies between the index before it and the one after it. */
  lemma AdmittedRise(f: Floors, writes: seq<Write>, g: Floors)
    requires Admit(f, writes) == Some(g)
    ensures NotBelow(f, g) && forall w :: w in writes ==> ComesAfter(f, w) && ComesBefore(w, g)
  {
    CheckedRise(Begin(f), writes);
  }

  lemma AdmittedInOrder(f: Floors, writes: seq<Write>, g: Floors, i: nat, j: nat)
    requires Admit(f, writes) == Some(g) && i < j < |writes|
    ensures InOrder(writes[i], writes[j])
  {
    CheckedInOrder(Begin(f), writes, i, j);
  }

  lemma MeetInOrder(v: Write, f: Floors, w: Write)
    requires ComesBefore(v, f) && ComesAfter(f, w)
    ensures InOrder(v, w)
  {
  }

  lemma StaysBefore(w: Write, f: Floors, g: Floors)
    requires ComesBefore(w, f) && NotBelow(f, g)
    ensures ComesBefore(w, g)
  {
  }

  lemma NeverBelow(e: Floors, f: Floors, g: Floors)
    requires NotBelow(e, f) && NotBelow(f, g)
    ensures NotBelow(e, g)
  {
  }

  /** The cache before the last changeset of a run. */
  lemma BeforeLast(c: Cache, changesets: seq<seq<Write>>) returns (before: Cache)
    requires AdmittedRun(c, changesets) && changesets != []
    ensures AdmittedRun(before, changesets[..|changesets| - 1])
    ensures Admit(before.floors, changesets[|changesets| - 1]) == Some(c.floors)
  {
    before :|
      AdmittedRun(before, changesets[..|changesets| - 1]) &&
      Admit(before.floors, changesets[|changesets| - 1]) == Some(c.floors) &&
      SqlAll(before.tables, changesets[|changesets| - 1]) == Some(c.tables);
  }

  /** Whatever was written is not above what the index then says. */
  lemma {:induction false} WrittenComesBefore(c: Cache, changesets: seq<seq<Write>>, w: Write)
    requires AdmittedRun(c, changesets) && w in Flat(changesets)
    ensures ComesBefore(w, c.floors)
    decreases |changesets|
  {
    hide AdmittedRun, Admit, ComesBefore, NotBelow, ComesAfter;
    var earlier, last := changesets[..|changesets| - 1], changesets[|changesets| - 1];
    var before := BeforeLast(c, changesets);
    AdmittedRise(before.floors, last, c.floors);
    if w !in last {
      WrittenComesBefore(before, earlier, w);
      StaysBefore(w, before.floors, c.floors);
    }
  }

  /**
   No account state and no vault grant an admitted run writes is below one it wrote before, in `stateSeq`,
   `settingsSeq` or epoch; the same number brings the same bytes, or the same key, again.
   */
  lemma {:induction false} AdmittedWritesNeverGoBack(c: Cache, changesets: seq<seq<Write>>, i: nat, j: nat)
    requires AdmittedRun(c, changesets) && i < j < |Flat(changesets)|
    ensures InOrder(Flat(changesets)[i], Flat(changesets)[j])
    decreases |changesets|
  {
    hide AdmittedRun, Admit, ComesBefore, NotBelow, ComesAfter, InOrder;
    var earlier, last := changesets[..|changesets| - 1], changesets[|changesets| - 1];
    var before := BeforeLast(c, changesets);
    var n := |Flat(earlier)|;
    if j < n {
      AdmittedWritesNeverGoBack(before, earlier, i, j);
    } else if i < n {
      WrittenComesBefore(before, earlier, Flat(earlier)[i]);
      AdmittedRise(before.floors, last, c.floors);
      MeetInOrder(Flat(earlier)[i], before.floors, last[j - n]);
    } else {
      AdmittedInOrder(before.floors, last, c.floors, i - n, j - n);
    }
  }

  lemma {:induction false} FloorsNeverGoBack(c: Cache, later: Cache, changesets: seq<seq<Write>>, more: seq<seq<Write>>)
    requires AdmittedRun(c, changesets) && AdmittedRun(later, changesets + more)
    ensures NotBelow(c.floors, later.floors)
    decreases |more|
  {
    if more == [] {
      assert changesets + more == changesets;
      OneCache(c, later, changesets);
    } else {
      hide AdmittedRun, Admit, NotBelow;
      var all, last := changesets + more, more[|more| - 1];
      assert all[..|all| - 1] == changesets + more[..|more| - 1] && all[|all| - 1] == last;
      var before := BeforeLast(later, all);
      FloorsNeverGoBack(c, before, changesets, more[..|more| - 1]);
      AdmittedRise(before.floors, last, later.floors);
      NeverBelow(c.floors, before.floors, later.floors);
    }
  }

  /**
   The stored numbers never go down either: however far a run goes on, every vault stays with an epoch that is
   not below, and a state row once there stays, at a `stateSeq` and `settingsSeq` that are not below.
   */
  lemma AdmittedRowsNeverGoBack(c: Cache, later: Cache, changesets: seq<seq<Write>>, more: seq<seq<Write>>)
    requires AdmittedRun(c, changesets) && AdmittedRun(later, changesets + more)
    ensures forall v :: v in c.tables.vaults ==>
              v in later.tables.vaults && c.tables.vaults[v].grant.epoch <= later.tables.vaults[v].grant.epoch
    ensures c.floors.state.Some? ==>
              var row := ObjectKey(State, []);
              var f, g := c.floors.state.value, later.floors.state;
              g.Some? && f.stateSeq <= g.value.stateSeq && f.settingsSeq <= g.value.settingsSeq &&
              row in c.tables.objects && c.tables.objects[row] == f.wire &&
              row in later.tables.objects && later.tables.objects[row] == g.value.wire
  {
    FloorsNeverGoBack(c, later, changesets, more);
    AdmittedRunsKeepTheIndex(c, changesets);
    AdmittedRunsKeepTheIndex(later, changesets + more);
  }
}
