/**
 A run after which the upload protocol is stuck: two restores and two new epochs of the vault, at the right
 moments, leave an op that was surely never stored before one that may have been, both stale
 (crates/rizzy-client/src/sync.rs, sync/heal.rs, crates/rizzy-cli/src/db.rs).
 */
module UploadStuck {
  import opened Base
  import opened CacheRows
  import opened Uploads
  import opened UploadGate
  import opened UploadProgress
  import opened UploadLife

  // ---------- lives in a quiet world ----------

  lemma LiveStep(e: Epoch, p: Process, a: Action, t: System) returns (q: Process)
    requires Lived(Quiet, p) && Gate(e, p, a) && Next(p.sys, a, t)
    ensures Lived(Quiet, q) && q == After(p, a, t)
  {
    q := After(p, a, t);
    Act(Quiet, e, p, a, q);
  }

  lemma LiveRestore(p: Process, chain: seq<Blob>, g: Id) returns (q: Process)
    requires Lived(Quiet, p) && |p.sys.server.eras| > 0 && chain in p.sys.server.past && g !in p.sys.server.eras
    ensures Lived(Quiet, q)
    ensures q == p.(sys := p.sys.(server := p.sys.server.(eras := p.sys.server.eras + [g], stored := chain)))
  {
    hide Lived, Gate, EpochAt;
    q := p.(sys := p.sys.(server := p.sys.server.(eras := p.sys.server.eras + [g], stored := chain)));
    assert Next(p.sys, Restore(chain, g), q.sys);
    Act(Quiet, EpochAt(0, [0, 0, 0, 0, 0, 0, 0, 0, 0, 0, 0, 0, 0, 0, 0, 0]), p, Restore(chain, g), q);
  }

  // ---------- epochs and ops by number ----------

  /** The epoch of a statement is its first byte; an op issued again keeps the rest. */
  function EpochAt(n: Byte, item: Id): Epoch {
    Epoch((st: Blob) => st != [] && st[0] < n,
          (st: Blob) => Written(n, if st != [] then st[1..] else [], item))
  }

  function Written(n: Byte, rest: Blob, item: Id): OpRow {
    OpRow(item, [n] + rest, Some([]), None, Unsent, None)
  }

  lemma EpochRenews(n: Byte, item: Id)
    ensures Renews(EpochAt(n, item))
  {
  }

  function SentUnder(row: OpRow, g: Id): OpRow {
    row.(own := Sent, sentGeneration := Some(g))
  }

  // ---------- the steps of every command ----------

  /** A complete Fetch. */
  lemma LiveFetch(p: Process) returns (q: Process)
    requires Lived(Quiet, p) && |p.sys.server.eras| > 0 && p.sys.phase.Idle?
    ensures
      var s, g := p.sys, Current(p.sys.server);
      && Lived(Quiet, q) && q.sys.server.eras == s.server.eras && q.sys.server.stored == s.server.stored
      && s.server.past <= q.sys.server.past && q.sys.file == File(s.file.rows, Some(g))
      && q.sys.phase == Idle(s.phase.mem.(last := Some(g)))
      && q.view == Some(View(|s.server.stored|, |s.server.stored| < s.phase.mem.acked))
  {
    hide Lived;
    var e := Epoch(st => false, st => Written(0, [], [0, 0, 0, 0, 0, 0, 0, 0, 0, 0, 0, 0, 0, 0, 0, 0]));
    var s, m, g := p.sys, p.sys.phase.mem, Current(p.sys.server);
    var asked := LiveStep(e, p, PrepareFetch, s.(phase := Prepared(m, Fetch)));
    var sent := LiveStep(e, asked, Send, asked.sys.(phase := InFlight(m, Fetch, None)));
    var t := sent.sys.(server := Grown(s.server, s.server.stored), phase := InFlight(m, Fetch, Some(Fetched(g))));
    var handled := LiveStep(e, sent, Handle(Refusals(e, Fetch)), t);
    var m' := m.(last := Some(g));
    q := LiveStep(e, handled, Answer, t.(file := File(s.file.rows, Some(g)), phase := Idle(m')));
  }

  /** The process ends, and a new one starts with what the file says. */
  lemma LiveRestart(p: Process) returns (q: Process)
    requires Lived(Quiet, p) && |p.sys.server.eras| > 0
    ensures Lived(Quiet, q) && q.sys == p.sys.(phase := Idle(Loaded(p.sys.file)))
  {
    var e := EpochAt(0, [0, 0, 0, 0, 0, 0, 0, 0, 0, 0, 0, 0, 0, 0, 0, 0]);
    var down := LiveStep(e, p, Crash, p.sys.(phase := Down));
    q := LiveStep(e, down, Open, down.sys.(phase := Idle(Loaded(p.sys.file))));
  }

  // ---------- the run ----------

  lemma LiveEdit(p: Process, row: OpRow) returns (q: Process)
    requires Lived(Quiet, p) && |p.sys.server.eras| > 0 && p.sys.phase.Idle?
    requires row.own.Unsent? && row.sentGeneration.None? && (p.view.Some? ==> !p.view.value.behind)
    ensures Lived(Quiet, q) && q == p.(sys := p.sys.(file := p.sys.file.(rows := p.sys.file.rows + [row])))
  {
    var e := EpochAt(0, row.item);
    q := LiveStep(e, p, Edit(row), p.sys.(file := p.sys.file.(rows := p.sys.file.rows + [row])));
  }

  /** The next upload is marked and about to leave. */
  lemma LivePrepare(e: Epoch, p: Process, reissues: map<nat, OpRow>) returns (q: Process)
    requires Lived(Quiet, p) && |p.sys.server.eras| > 0 && CanMark(p.sys, reissues) && !p.sys.phase.mem.leaving
    requires Gate(e, p, PrepareUpload(reissues, BatchSize(p.sys.phase.mem, p.sys.file.rows)))
    ensures
      var u, d, k, n := p.sys, Marks(p.sys, reissues), p.sys.phase.mem.acked,
          BatchSize(p.sys.phase.mem, p.sys.file.rows);
      && Lived(Quiet, q) && k + n <= |d.rows|
      && q == p.(sys := u.(file := u.file.(rows := d.rows),
          phase := Prepared(d.mem, Upload(k, Statements(d.rows[k..k + n])))))
  {
    hide IsPlan, Lived;
    var u, n := p.sys, BatchSize(p.sys.phase.mem, p.sys.file.rows);
    var d := Marks(u, reissues);
    var t := u.(file := u.file.(rows := d.rows),
        phase := Prepared(d.mem, Batch(AfterReissue(u.phase.mem, reissues), d.rows, n)));
    assert Next(u, PrepareUpload(reissues, n), t);
    q := LiveStep(e, p, PrepareUpload(reissues, n), t);
  }

  /** What an upload of new ops under `g` marks. */
  lemma MarksNew(u: System, g: Id)
    requires u.phase.Idle? && u.phase.mem.acked <= |u.file.rows| <= MAX_RECORDS && u.phase.mem.acked < |u.file.rows|
    requires u.phase.mem.staleFrom.None? && u.phase.mem.last == Some(g)
    requires forall k | u.phase.mem.acked <= k < |u.file.rows| :: u.file.rows[k].own.Unsent? || u.file.rows[k].own.Sent?
    ensures CanMark(u, map[]) && |Marks(u, map[]).rows| == |u.file.rows|
    ensures
      var m, rows, d := u.phase.mem, u.file.rows, Marks(u, map[]);
      && (forall k | 0 <= k < |rows| ::
            d.rows[k] == if k < m.acked then rows[k]
                         else rows[k].(own := Sent, sentGeneration := Or(rows[k].sentGeneration, Some(g))))
      && d.mem == m.(unanswered := Noted(m.unanswered, m.acked, |rows| - m.acked, g))
  {
    var m := u.phase.mem;
    assert Reissued(m, u.file.rows, map[]) == u.file.rows && AfterReissue(m, map[]) == m;
    forall k | m.acked <= k < |u.file.rows|
      ensures SentRow(u.file.rows[k], m.last).Some?
    {
    }
  }

  /** A new device, which writes its first op. */
  lemma WritesFirst(item: Id, g0: Id) returns (q: Process)
    ensures
      var s := q.sys;
      && Lived(Quiet, q) && s.server.eras == [g0] && s.server.stored == [] && [] in s.server.past
      && s.file == File([Written(1, [0], item)], Some(g0)) && q.view == Some(View(0, false))
      && s.phase == Idle(Memory(map[], Some(g0), map[], None, 0, false))
  {
    var p := Process(System(Server([g0], [], {[]}, {}), File([], None), Down), 0, None);
    Begins(Quiet, p);
    hide Lived;
    p := LiveRestart(p);
    assert Loaded(File([], None)) == Memory(map[], None, map[], None, 0, false);
    p := LiveFetch(p);
    q := LiveEdit(p, Written(1, [0], item));
    assert q.sys.file.rows == [Written(1, [0], item)];
  }

  /** It is sent, and never answered. */
  lemma SendsFirst(item: Id, g0: Id) returns (q: Process)
    ensures
      var s := q.sys;
      && Lived(Quiet, q) && s.server.eras == [g0] && s.server.stored == [] && [] in s.server.past
      && s.file == File([SentUnder(Written(1, [0], item), g0)], Some(g0))
  {
    var p := WritesFirst(item, g0);
    hide Lived, CanMark, Marks;
    MarksNew(p.sys, g0);
    q := LivePrepare(EpochAt(1, item), p, map[]);
    assert q.sys.file.rows == [SentUnder(Written(1, [0], item), g0)];
  }

  /** After a restore, a new process adds two more ops, the second in a new epoch. */
  lemma WritesMore(item: Id, g0: Id, g1: Id) returns (q: Process)
    requires g0 != g1
    ensures
      var s := q.sys;
      && Lived(Quiet, q) && s.server.eras == [g0, g1] && s.server.stored == [] && [] in s.server.past
      && s.file == File([SentUnder(Written(1, [0], item), g0), Written(1, [1], item), Written(2, [2], item)], Some(g1))
      && q.view == Some(View(0, false)) && s.phase == Idle(Memory(map[0 := g0], Some(g1), map[], None, 0, false))
  {
    hide Lived;
    var first := SentUnder(Written(1, [0], item), g0);
    var p := SendsFirst(item, g0);
    p := LiveRestore(p, [], g1);
    assert p.sys.server.eras == [g0, g1];
    p := LiveRestart(p);
    assert Loaded(p.sys.file) == Memory(map[0 := g0], Some(g0), map[], None, 0, false);
    p := LiveFetch(p);
    p := LiveEdit(p, Written(1, [1], item));
    q := LiveEdit(p, Written(2, [2], item));
    assert q.sys.file.rows == [first, Written(1, [1], item), Written(2, [2], item)];
  }

  /** All three are sent. */
  lemma SendsAll(item: Id, g0: Id, g1: Id) returns (q: Process)
    requires g0 != g1
    ensures
      var s, a, b, c := q.sys, Written(1, [0], item), Written(1, [1], item), Written(2, [2], item);
      && Lived(Quiet, q) && s.server.eras == [g0, g1] && s.server.stored == [] && [] in s.server.past
      && s.file == File([SentUnder(a, g0), SentUnder(b, g1), SentUnder(c, g1)], Some(g1))
      && q.view == Some(View(0, false))
      && s.phase == Prepared(Memory(map[0 := g0, 1 := g1, 2 := g1], Some(g1), map[], None, 0, false),
                             Upload(0, [a.statement, b.statement, c.statement]))
  {
    hide Lived, CanMark, Marks;
    var a, b, c := Written(1, [0], item), Written(1, [1], item), Written(2, [2], item);
    var p := WritesMore(item, g0, g1);
    MarksNew(p.sys, g1);
    q := LivePrepare(EpochAt(2, item), p, map[]);
    assert q.sys.file.rows == [SentUnder(a, g0), SentUnder(b, g1), SentUnder(c, g1)];
    assert q.sys.file.rows[0..3] == q.sys.file.rows;
    assert Statements(q.sys.file.rows) == [a.statement, b.statement, c.statement];
    assert Noted(map[0 := g0], 0, 3, g1) == map[0 := g0, 1 := g1, 2 := g1];
  }

  /** The first is refused as stale, and nothing after it is processed. */
  lemma FirstIsRefused(item: Id, g0: Id, g1: Id) returns (q: Process)
    requires g0 != g1
    ensures
      var s, a, b, c := q.sys, Written(1, [0], item), Written(1, [1], item), Written(2, [2], item);
      && Lived(Quiet, q) && s.server.eras == [g0, g1] && s.server.stored == [] && [] in s.server.past
      && s.file == File([SentUnder(a, g0), SentUnder(b, g1), SentUnder(c, g1)], Some(g1)) &&
          q.view == Some(View(0, false))
      && s.phase == Idle(Memory(map[0 := g0], Some(g1), map[0 := g1, 1 := g1, 2 := g1], Some(0), 0, false))
  {
    hide Lived;
    var e := EpochAt(2, item);
    var p := SendsAll(item, g0, g1);
    var u, m, request := p.sys, p.sys.phase.mem, p.sys.phase.request;
    var results := [UploadResult.Rejected(Stale), NotProcessed, NotProcessed];
    StaleFirst(e, request.records);
    var sent := LiveStep(e, p, Send, u.(phase := InFlight(m, request, None)));
    var reply := Uploaded(g1, results);
    var t := sent.sys.(server := Grown(u.server, []), phase := InFlight(m, request, Some(reply)));
    assert Handled(u.server, request, Refusals(e, request)) == ([], reply);
    var handled := LiveStep(e, sent, Handle(Refusals(e, request)), t);
    AnswersRefusal(u.file.rows, g0, g1);
    var m' := Memory(map[0 := g0], Some(g1), map[0 := g1, 1 := g1, 2 := g1], Some(0), 0, false);
    q := LiveStep(e, handled, Answer, t.(file := File(u.file.rows, Some(g1)), phase := Idle(m')));
  }

  lemma StaleFirst(e: Epoch, records: seq<Blob>)
    requires |records| == 3 && e.stale(records[0])
    ensures Receive([], 0, records, Refusals(e, Upload(0, records)))
              == ([], [UploadResult.Rejected(Stale), NotProcessed, NotProcessed])
  {
    var refuse := Refusals(e, Upload(0, records));
    assert refuse(0) == Some(Stale);
    assert [UploadResult.Rejected(Stale)] + NoneProcessed(2)
        == [UploadResult.Rejected(Stale), NotProcessed, NotProcessed];
  }

  /** Only the op whose first send was before the restore stays in doubt. */
  lemma AnswersRefusal(rows: seq<OpRow>, g0: Id, g1: Id)
    requires |rows| == 3 && g0 != g1
    ensures
      Answered(Device(rows, Memory(map[0 := g0, 1 := g1, 2 := g1], Some(g1), map[], None, 0, false)), 0,
               [UploadResult.Rejected(Stale), NotProcessed, NotProcessed], g1)
      == Some(Device(rows, Memory(map[0 := g0], Some(g1), map[0 := g1, 1 := g1, 2 := g1], Some(0), 0, false)))
  {
    var d0 := Device(rows, Memory(map[0 := g0, 1 := g1, 2 := g1], Some(g1), map[], None, 0, false));
    var results := [UploadResult.Rejected(Stale), NotProcessed, NotProcessed];
    var d1 := NotStored(d0, 0, results[0], g1);
    var d2 := NotStored(d1, 1, NotProcessed, g1);
    var d3 := NotStored(d2, 2, NotProcessed, g1);
    assert results[1..] == [NotProcessed, NotProcessed] && results[1..][1..] == [NotProcessed] &&
        results[1..][1..][1..] == [];
    assert Answered(d3, 3, [], g1) == Some(d3);
    assert Answered(d2, 2, [NotProcessed], g1) == Some(d3);
    assert Answered(d1, 1, [NotProcessed, NotProcessed], g1) == Some(d3);
    assert d3.mem.unanswered == map[0 := g0];
    assert d3.mem.answered == map[0 := g1, 1 := g1, 2 := g1];
  }

  /** A second restore, which the Fetch before the healing request sees; the first op is given back. */
  lemma FirstIsHealed(item: Id, g0: Id, g1: Id, g2: Id) returns (q: Process)
    requires g0 != g1 && g0 != g2 && g1 != g2
    ensures
      var s, a, b, c := q.sys, Written(1, [0], item), Written(1, [1], item), Written(2, [2], item);
      && Lived(Quiet, q) && s.server.eras == [g0, g1, g2] && s.server.stored == [a.statement]
      && s.file == File([SentUnder(a, g0).(own := Acknowledged), SentUnder(b, g1), SentUnder(c, g1)], Some(g2))
      && q.view == Some(View(0, false))
      && s.phase == Idle(Memory(map[], Some(g2), map[1 := g1, 2 := g1], Some(0), 1, false))
  {
    hide Lived;
    var e, a := EpochAt(2, item), Written(1, [0], item);
    var p := FirstIsRefused(item, g0, g1);
    p := LiveRestore(p, [], g2);
    assert p.sys.server.eras == [g0, g1, g2];
    p := LiveFetch(p);
    var u, m := p.sys, p.sys.phase.mem;
    var request := Heal(0, [a.statement]);
    assert Statements(u.file.rows[0..1]) == [a.statement];
    assert Awaits(e, m, u.file.rows, 0, 0);
    var asked := LiveStep(e, p, PrepareHeal(0, 1), u.(phase := Prepared(m, request)));
    q := FirstIsTaken(e, asked, a, g2);
    assert q.sys.file.rows == u.file.rows[0 := u.file.rows[0].(own := Acknowledged)];
  }

  /** The healing request of the first op, and its answer. */
  lemma FirstIsTaken(e: Epoch, p: Process, a: OpRow, g: Id) returns (q: Process)
    requires Lived(Quiet, p) && p.sys.server.stored == [] && |p.sys.server.eras| > 0 && g == Current(p.sys.server)
    requires p.sys.phase.Prepared? && p.sys.phase.request == Heal(0, [a.statement]) && p.sys.phase.mem.acked == 0
    requires |p.sys.file.rows| > 0 && p.sys.file.rows[0].own.Sent? && p.sys.phase.mem.last == Some(g)
    requires p.sys.phase.mem.unanswered.Keys <= {0}
    ensures
      var u, m := p.sys, p.sys.phase.mem;
      && Lived(Quiet, q) && q.sys.server.eras == u.server.eras && q.sys.server.stored == [a.statement]
      && q.view == p.view
      && q.sys.file == File(u.file.rows[0 := u.file.rows[0].(own := Acknowledged)], Some(g))
      && q.sys.phase == Idle(m.(unanswered := map[], answered := m.answered - {0}, acked := 1))
  {
    hide Lived;
    var u, m, request := p.sys, p.sys.phase.mem, p.sys.phase.request;
    var refuse := Refusals(e, request);
    assert Receive([], 0, [a.statement], refuse).0 == [a.statement] &&
        AllTaken(Receive([], 0, [a.statement], refuse).1) by {
      AllAreTaken([], 0, [a.statement], refuse);
      assert [a.statement][1..] == [] && [] + [a.statement] == [a.statement];
    }
    var sent := LiveStep(e, p, Send, u.(phase := InFlight(m, request, None)));
    var t := sent.sys.(server := Grown(u.server, [a.statement]), phase := InFlight(m, request, Some(Healed(g))));
    var handled := LiveStep(e, sent, Handle(refuse), t);
    var m' := m.(unanswered := map[], answered := m.answered - {0}, acked := 1);
    var rows := u.file.rows[0 := u.file.rows[0].(own := Acknowledged)];
    assert Acknowledge(Device(u.file.rows, m), 0) == Some(Device(rows, m'));
    assert AckedUpTo(Device(rows, m'), 1) == Some(Device(rows, m'));
    q := LiveStep(e, handled, Answer, t.(file := File(rows, Some(g)), phase := Idle(m')));
  }

  /** The second op is issued again and marked; the process ends before anything leaves. */
  lemma SecondIsIssuedAgain(item: Id, g0: Id, g1: Id, g2: Id) returns (q: Process)
    requires g0 != g1 && g0 != g2 && g1 != g2
    ensures
      var s, a, c := q.sys, Written(1, [0], item), Written(2, [2], item);
      && Lived(Quiet, q) && s.server.eras == [g0, g1, g2] && s.server.stored == [a.statement] && s.phase.Down?
      && q.view.None?
      && s.file.rows == [SentUnder(a, g0).(own := Acknowledged), SentUnder(Written(2, [1], item), g2), SentUnder(c, g1)]
  {
    hide Lived;
    var e, b := EpochAt(2, item), Written(1, [1], item);
    var p := FirstIsHealed(item, g0, g1, g2);
    var u, m, rows := p.sys, p.sys.phase.mem, p.sys.file.rows;
    var again := Written(2, [1], item);
    var reissues := map[1 := again];
    assert b.statement == [1, 1] && b.statement[1..] == [1] && again == e.anew(b.statement);
    assert IsPlan(e, m, rows, 0, reissues);
    MarksAgain(u, reissues, again, g1, g2);
    hide CanMark, Marks;
    p := LivePrepare(e, p, reissues);
    q := LiveStep(e, p, Crash, p.sys.(phase := Down));
  }

  lemma MarksAgain(u: System, reissues: map<nat, OpRow>, again: OpRow, g1: Id, g2: Id)
    requires u.phase.Idle? && u.phase.mem == Memory(map[], Some(g2), map[1 := g1, 2 := g1], Some(0), 1, false)
    requires |u.file.rows| == 3 && reissues == map[1 := again] && again.own.Unsent?
    requires u.file.rows[1].own.Sent? && u.file.rows[1].sentGeneration == Some(g1) && u.file.rows[1].item == again.item
    requires u.file.rows[2].own.Sent? && u.file.rows[2].sentGeneration == Some(g1)
    ensures CanMark(u, reissues) && Marks(u, reissues).rows == [u.file.rows[0], SentUnder(again, g2), u.file.rows[2]]
  {
    var m, rows := AfterReissue(u.phase.mem, reissues), Reissued(u.phase.mem, u.file.rows, reissues);
    assert rows[1] == again.(sentGeneration := None);
    assert SentRow(rows[1], m.last).Some? && SentRow(rows[2], m.last).Some?;
    assert MarkedRows(m, rows, 2) == [u.file.rows[0], SentUnder(again, g2), u.file.rows[2]];
  }

  /**
   The third epoch finds the process stuck: the op issued again is surely not stored, the one after it may be,
   and both are stale. No later process gets past them.
   */
  lemma GetsStuck(item: Id, g0: Id, g1: Id, g2: Id) returns (q: Process)
    requires g0 != g1 && g0 != g2 && g1 != g2
    ensures Lived(Quiet, q) && q.sys.phase.Down? && |q.sys.server.eras| > 0
    ensures Blocked(EpochAt(3, item), q.sys) && !CanFinish(EpochAt(3, item), q.sys)
  {
    q := SecondIsIssuedAgain(item, g0, g1, g2);
    LivedFacts(Quiet, q);
    hide Lived, Inv, CanFinish;
    assert BlockedAt(EpochAt(3, item), q.sys, 1, 2);
    BlockedNeverFinishes(EpochAt(3, item), q.sys);
  }
}
