/**
 The rows the server keeps of one item, changed in place by uploads, healing requests and worker runs
 (crates/rizzy-domain-vault/src/store.rs, upload.rs, compact.rs), with the acceptance checks of
 crates/rizzy-sync/src/compaction.rs. `Valid` is what every run of these methods keeps: a body the
 worker deleted always has covers by two different authors, and no bodiless header is without one.
 */
module CompactionStore {
  import opened Base
  import opened VersionVectors
  import opened Compaction
  import opened CompactionWorker

  // ---------- acceptance ----------

  datatype Expiry = Unexpired | Expired

  datatype SnapshotRefusal =
    | AuthorRevoked
    | AuthorExpired
    | AuthorEntryAboveHead
    | ClaimsUnheldDots(device: Device)

  /** The number up to which a claim about a device counts. */
  function CountedEntry(cutoffs: map<Device, nat>, d: Device, number: nat): nat {
    if d in cutoffs && cutoffs[d] < number then cutoffs[d] else number
  }

  predicate ClaimsUnheld(covered: VersionVector, heads: VersionVector, cutoffs: map<Device, nat>, d: Device) {
    d in covered && CountedEntry(cutoffs, d, covered[d]) > Get(heads, d)
  }

  /** What stands against a snapshot, check by check in the order they are made. */
  ghost predicate FirstRefusal(author: Device, covered: VersionVector, heads: VersionVector, cutoffs: map<Device, nat>,
                               expiry: Expiry, r: Option<SnapshotRefusal>)
  {
    if author in cutoffs then r == Some(AuthorRevoked)
    else if expiry.Expired? then r == Some(AuthorExpired)
    else if Get(covered, author) > Get(heads, author) then r == Some(AuthorEntryAboveHead)
    else
      match r
      case None => forall d :: d in covered ==> !ClaimsUnheld(covered, heads, cutoffs, d)
      case Some(ClaimsUnheldDots(d)) =>
        ClaimsUnheld(covered, heads, cutoffs, d) &&
        forall e :: e in covered && e < d ==> !ClaimsUnheld(covered, heads, cutoffs, e)
      case _ => false
  }

  /** Whether a snapshot is accepted, before it is stored; the first failing check otherwise. */
  method CheckSnapshot(author: Device, covered: VersionVector, heads: VersionVector, cutoffs: map<Device, nat>,
                       expiry: Expiry)
    returns (r: Option<SnapshotRefusal>)
    ensures FirstRefusal(author, covered, heads, cutoffs, expiry, r)
    ensures r.None? <==> author !in cutoffs && expiry.Unexpired? && Get(covered, author) <= Get(heads, author) &&
                         forall d :: d in covered ==>
                                     covered[d] <= Get(heads, d) || (d in cutoffs && cutoffs[d] <= Get(heads, d))
  {
    if author in cutoffs {
      return Some(AuthorRevoked);
    }
    if expiry.Expired? {
      return Some(AuthorExpired);
    }
    if Get(covered, author) > Get(heads, author) {
      return Some(AuthorEntryAboveHead);
    }
    var entries := SortedDots(set d | d in covered :: Dot(d, covered[d]));
    assert forall d :: d in covered ==> Dot(d, covered[d]) in Elements(entries);
    var i := 0;
    while i < |entries|
      invariant 0 <= i <= |entries|
      invariant forall j :: 0 <= j < i ==> !ClaimsUnheld(covered, heads, cutoffs, entries[j].device)
    {
      assert entries[i] in Elements(entries);
      var d := entries[i].device;
      if ClaimsUnheld(covered, heads, cutoffs, d) {
        forall e | e in covered && e < d
          ensures !ClaimsUnheld(covered, heads, cutoffs, e)
        {
          var j :| 0 <= j < |entries| && entries[j] == Dot(e, covered[e]);
        }
        return Some(ClaimsUnheldDots(d));
      }
      i := i + 1;
    }
    return None;
  }

  predicate Uncovered(snapshots: set<Snapshot>, dot: Dot) {
    forall s :: s in snapshots ==> !Covers(s, dot)
  }

  /** Whether a healing request's bodiless headers all have a cover; the lowest that has none otherwise. */
  method CheckHealingRequest(snapshots: set<Snapshot>, headers: seq<Dot>) returns (r: Option<Dot>)
    ensures r.None? <==> forall dot :: dot in headers ==> !Uncovered(snapshots, dot)
    ensures r.Some? ==> r.value in headers && Uncovered(snapshots, r.value) &&
                        forall dot :: dot in headers && Uncovered(snapshots, dot) ==>
                            dot == r.value || DotBefore(r.value, dot)
  {
    r := None;
    var i := 0;
    while i < |headers|
      invariant 0 <= i <= |headers|
      invariant r.None? ==> forall j :: 0 <= j < i ==> !Uncovered(snapshots, headers[j])
      invariant r.Some? ==> r.value in headers && Uncovered(snapshots, r.value) &&
                            forall j :: 0 <= j < i && Uncovered(snapshots, headers[j]) ==>
                              headers[j] == r.value || DotBefore(r.value, headers[j])
    {
      if Uncovered(snapshots, headers[i]) && (r.None? || DotBefore(headers[i], r.value)) {
        forall j | 0 <= j < i && Uncovered(snapshots, headers[j])
          ensures headers[j] == headers[i] || DotBefore(headers[i], headers[j])
        {
          if r.Some? {
            DotOrder(headers[i], r.value, headers[j]);
          }
        }
        r := Some(headers[i]);
      } else if Uncovered(snapshots, headers[i]) {
        DotOrder(headers[i], r.value, r.value);
      }
      i := i + 1;
    }
  }

  // ---------- the rows of one item ----------

  /** A snapshot as its author uploads it. */
  datatype Claim = Claim(author: Device, covered: VersionVector)

  /** What the server holds under an uploaded record's name: nothing, that record, or another one. */
  datatype Existing = New | Same | Different

  /**
   A header of a healing request: the op it links to, whether it is of this item, whether it is the record the
   server holds where it holds one, and whether its author may still write it.
   */
  datatype Header = Header(op: OpDot, prev: nat, ofItem: bool, same: bool, permitted: bool)

  /** A snapshot of a healing request; `permitted` says that its author is not suspended. */
  datatype HealClaim = HealClaim(claim: Claim, existing: Existing, expiry: Expiry, permitted: bool)

  /** An op may join its chain: it is above its link, and its link is the chain's head. */
  predicate Joins(heads: VersionVector, dot: Dot, prev: nat) {
    prev < dot.number && prev == Get(heads, dot.device)
  }

  /** The server holds a record under this header's name: of the item, or of another one up to its chain's head. */
  predicate IsHeld(ops: map<Dot, Body>, heads: VersionVector, h: Header) {
    if h.ofItem then h.op.dot in ops else h.op.dot.number <= Get(heads, h.op.dot.device)
  }

  /** The headers of a healing request, in order: a held one is the same again, any other one joins its chain. */
  predicate HeadersFit(ops: map<Dot, Body>, heads: VersionVector, records: seq<Header>)
    decreases |records|
  {
    if records == [] then true
    else
      var h := records[0];
      if IsHeld(ops, heads, h) then h.same && HeadersFit(ops, heads, records[1..])
      else
        h.permitted && Joins(heads, h.op.dot, h.prev) &&
        HeadersFit(OpsWith(ops, h), Add(heads, h.op.dot), records[1..])
  }

  function OpsWith(ops: map<Dot, Body>, h: Header): map<Dot, Body> {
    if h.ofItem then ops[h.op.dot := h.op.body] else ops
  }

  /** The ops and the heads once such headers are stored. */
  function Stored(ops: map<Dot, Body>, heads: VersionVector, records: seq<Header>): (map<Dot, Body>, VersionVector)
    requires HeadersFit(ops, heads, records)
    decreases |records|
  {
    if records == [] then (ops, heads)
    else if IsHeld(ops, heads, records[0]) then Stored(ops, heads, records[1..])
    else Stored(OpsWith(ops, records[0]), Add(heads, records[0].op.dot), records[1..])
  }

  /** The server takes the snapshot: it holds it, or nothing stands against it. */
  ghost predicate ClaimFits(c: HealClaim, heads: VersionVector, cutoffs: map<Device, nat>) {
    c.existing.Same? ||
    (c.existing.New? && c.permitted && FirstRefusal(c.claim.author, c.claim.covered, heads, cutoffs, c.expiry, None))
  }

  /** Some snapshot covers the header once the new ones are clamped and stored. */
  ghost predicate CoveredWith(snapshots: set<Snapshot>, claims: seq<HealClaim>, heads: VersionVector, dot: Dot) {
    !Uncovered(snapshots, dot) ||
    exists c :: c in claims && c.existing.New? && CoversDot(Meet(c.claim.covered, heads), dot)
  }

  /** A healing request the server accepts: headers and snapshots fit, and each new bodiless header has a cover. */
  ghost predicate HealFits(snapshots: set<Snapshot>, ops: map<Dot, Body>, heads: VersionVector, records: seq<Header>,
                           claims: seq<HealClaim>, cutoffs: map<Device, nat>)
  {
    HeadersFit(ops, heads, records) &&
    var (after, top) := Stored(ops, heads, records);
    (forall c :: c in claims ==> ClaimFits(c, top, cutoffs)) &&
    forall dot :: dot in Bodiless(after) - Bodiless(ops) ==> CoveredWith(snapshots, claims, top, dot)
  }

  function RowsOf(snapshots: map<nat, Snapshot>): set<Snapshot> {
    set q | q in snapshots :: snapshots[q]
  }

  /** The rows fit their keys, the counter and the heads: no snapshot covers what is above a head. */
  ghost predicate RowsFit(snapshots: map<nat, Snapshot>, ops: map<Dot, Body>, heads: VersionVector, next: nat) {
    (forall q :: q in snapshots ==> snapshots[q].storeSeq == q && q < next && AtMost(snapshots[q].clamped, heads)) &&
    (forall dot :: dot in ops ==> 0 < dot.number <= Get(heads, dot.device))
  }

  /** Two authors cover each body the worker deleted; every bodiless header not in `open` has a cover. */
  ghost predicate WellKept(snapshots: set<Snapshot>, ops: map<Dot, Body>, deleted: set<Dot>, open: set<Dot>) {
    deleted <= Bodiless(ops) &&
    (forall dot :: dot in deleted ==> |Authors(snapshots, dot)| >= 2) &&
    (forall dot :: dot in Bodiless(ops) - open ==> !Uncovered(snapshots, dot))
  }

  class ItemRows {
    /** The retained snapshots by store sequence. */
    var snapshots: map<nat, Snapshot>
    var ops: map<Dot, Body>
    /** The vault's heads, over the ops of every item. */
    var heads: VersionVector
    var nextStoreSeq: nat

    /** The ops whose bodies the worker deleted. */
    ghost var deleted: set<Dot>

    function Retained(): set<Snapshot>
      reads this`snapshots
    {
      RowsOf(snapshots)
    }

    /** As `Valid`, with the headers in `open` stored without a body and not checked yet. */
    ghost predicate ValidBut(open: set<Dot>)
      reads this
    {
      RowsFit(snapshots, ops, heads, nextStoreSeq) && WellKept(RowsOf(snapshots), ops, deleted, open)
    }

    ghost predicate Valid()
      reads this
    {
      ValidBut({})
    }

    constructor ()
      ensures Valid() && snapshots == map[] && ops == map[] && heads == map[] && deleted == {}
    {
      snapshots, ops, heads, nextStoreSeq := map[], map[], map[], 0;
      deleted := {};
    }

    /**
     The chain check of an upload's op that is not stored, and the store; `ofItem` is false for another
     item's op, of which only the head is kept here. An op is stored before anything covers it.
     */
    method StoreOp(dot: Dot, prev: nat, ofItem: bool) returns (stored: bool)
      requires Valid()
      modifies this`ops, this`heads
      ensures Valid()
      ensures stored <==> Joins(old(heads), dot, prev)
      ensures if stored then heads == old(heads)[dot.device := dot.number] else heads == old(heads)
      ensures ops == if stored && ofItem then old(ops)[dot := Held] else old(ops)
      ensures stored ==> dot !in old(ops) && Uncovered(Retained(), dot)
    {
      stored := Joins(heads, dot, prev);
      if stored {
        HeadsOnlyRise(dot, {});
        ghost var bodiless := Bodiless(ops);
        heads := Add(heads, dot);
        if ofItem {
          ops := ops[dot := Held];
          assert Bodiless(ops) == bodiless;
        }
      }
    }

    lemma HeadsOnlyRise(dot: Dot, open: set<Dot>)
      requires ValidBut(open) && dot.number > Get(heads, dot.device)
      ensures dot !in ops && Uncovered(Retained(), dot)
      ensures forall q :: q in snapshots ==> AtMost(snapshots[q].clamped, Add(heads, dot))
      ensures forall d :: Get(heads, d) <= Get(Add(heads, dot), d)
    {
      forall s | s in Retained()
        ensures !Covers(s, dot)
      {
        assert AtMost(s.clamped, heads);
      }
    }

    /** A snapshot: checked, clamped to the heads of this moment, stored as the newest. */
    method StoreSnapshot(upload: Claim, cutoffs: map<Device, nat>, expiry: Expiry, ghost open: set<Dot>)
      returns (refusal: Option<SnapshotRefusal>)
      requires ValidBut(open)
      modifies this`snapshots, this`nextStoreSeq
      ensures ValidBut(open)
      ensures FirstRefusal(upload.author, upload.covered, heads, cutoffs, expiry, refusal)
      ensures refusal.Some? ==> snapshots == old(snapshots) && nextStoreSeq == old(nextStoreSeq)
      ensures refusal.None? ==>
                snapshots
                    == old(snapshots)[old(nextStoreSeq) := Snapshot(old(nextStoreSeq), Meet(upload.covered, heads),
                        upload.author)] &&
                nextStoreSeq == old(nextStoreSeq) + 1
      ensures old(Retained()) <= Retained()
      ensures refusal.None? ==>
                Retained() ==
                  old(Retained()) + {Snapshot(old(nextStoreSeq), Meet(upload.covered, heads), upload.author)}
    {
      refusal := CheckSnapshot(upload.author, upload.covered, heads, cutoffs, expiry);
      if refusal.None? {
        var s := Snapshot(nextStoreSeq, Meet(upload.covered, heads), upload.author);
        MeetIsGreatestLowerBound(upload.covered, heads, heads);
        assert nextStoreSeq !in snapshots;
        ghost var before, rows := Retained(), snapshots;
        snapshots := snapshots[nextStoreSeq := s];
        nextStoreSeq := nextStoreSeq + 1;
        forall t | t in before
          ensures t in Retained()
        {
          var q :| q in rows && rows[q] == t;
          assert q in snapshots && snapshots[q] == t;
        }
        MoreCovers(before, Retained());
        OneMoreRow(rows, s);
      }
    }

    /** One header of a healing request, with or without its body; a stored one is skipped. */
    method HealOp(h: Header, ghost open: set<Dot>) returns (stored: bool, refused: bool)
      requires ValidBut(open)
      modifies this`ops, this`heads
      ensures ValidBut(if stored && h.ofItem && h.op.body.Absent? then open + {h.op.dot} else open)
      ensures !(stored && refused) && (!stored ==> ops == old(ops) && heads == old(heads))
      ensures stored <==> (h.ofItem ==> h.op.dot !in old(ops)) && h.permitted && Joins(old(heads), h.op.dot, h.prev)
      ensures stored ==> ops == if h.ofItem then old(ops)[h.op.dot := h.op.body] else old(ops)
      ensures refused <==> if old(IsHeld(ops, heads, h)) then !h.same else !stored
      ensures !refused ==> (if stored then !old(IsHeld(ops, heads, h)) else old(IsHeld(ops, heads, h)))
      ensures stored ==> heads == Add(old(heads), h.op.dot)
      ensures h.ofItem && !refused ==> h.op.dot in ops
    {
      var op := h.op;
      stored, refused := false, false;
      if h.ofItem && op.dot in ops {
        refused := !h.same;
        return;
      }
      if !h.ofItem && op.dot.number <= Get(heads, op.dot.device) {
        refused := !h.same;  // stored with its own item, or not at all
        return;
      }
      if !h.permitted || !Joins(heads, op.dot, h.prev) {
        refused := true;
        return;
      }
      stored := true;
      HeadsOnlyRise(op.dot, open);
      ghost var bodiless := Bodiless(ops);
      heads := Add(heads, op.dot);
      if h.ofItem {
        ops := ops[op.dot := op.body];
        assert Bodiless(ops) == if op.body.Absent? then bodiless + {op.dot} else bodiless;
      }
    }

    /** The headers of a healing request, in order, up to one that breaks its chain. */
    method HealOps(records: seq<Header>) returns (ok: bool, bodiless: seq<Dot>)
      requires Valid()
      modifies this`ops, this`heads
      ensures ValidBut(Elements(bodiless))
      ensures ok ==> forall r :: r in records && r.ofItem ==> r.op.dot in ops
      ensures forall dot :: dot in old(ops) ==> dot in ops && ops[dot] == old(ops)[dot]
      ensures ok <==> old(HeadersFit(ops, heads, records))
      ensures ok ==> old(HeadersFit(ops, heads, records)) && (ops, heads) == old(Stored(ops, heads, records))
      ensures Elements(bodiless) == Bodiless(ops) - old(Bodiless(ops))
    {
      ok, bodiless := true, [];
      assert Elements(bodiless) == {};
      var i := 0;
      while i < |records| && ok
        invariant 0 <= i <= |records| && ValidBut(Elements(bodiless))
        invariant ok ==> forall j :: 0 <= j < i && records[j].ofItem ==> records[j].op.dot in ops
        invariant forall dot :: dot in old(ops) ==> dot in ops && ops[dot] == old(ops)[dot]
        invariant old(HeadersFit(ops, heads, records)) <==> ok && HeadersFit(ops, heads, records[i..])
        invariant ok && HeadersFit(ops, heads, records[i..]) ==>
                    Stored(ops, heads, records[i..])
                    == old(if HeadersFit(ops, heads, records) then Stored(ops, heads, records) else (ops, heads))
        invariant Elements(bodiless) == Bodiless(ops) - old(Bodiless(ops))
      {
        var h := records[i];
        ghost var before := ops;
        assert records[i..][0] == h && records[i..][1..] == records[i + 1..];
        var stored, refused := HealOp(h, Elements(bodiless));
        ok := !refused;
        if stored && h.ofItem && h.op.body.Absent? {
          AppendedDot(bodiless, h.op.dot);
          bodiless := bodiless + [h.op.dot];
        }
        i := i + 1;
      }
      assert records[|records|..] == [];
    }

    /** One snapshot of a healing request: a held one is skipped, a new one is checked, clamped and stored. */
    method HealSnapshot(c: HealClaim, cutoffs: map<Device, nat>, ghost open: set<Dot>) returns (ok: bool)
      requires ValidBut(open)
      modifies this`snapshots, this`nextStoreSeq
      ensures ValidBut(open) && old(Retained()) <= Retained()
      ensures ok <==> ClaimFits(c, heads, cutoffs)
      ensures ok ==> Retained() == if c.existing.New? then old(Retained()) + {Row(c, old(nextStoreSeq), heads)}
                                   else old(Retained())
    {
      if c.existing.New? && c.permitted {
        var refusal := StoreSnapshot(c.claim, cutoffs, c.expiry, open);
        ok := refusal.None?;
      } else {
        ok := c.existing.Same?;
      }
    }

    /** The snapshots of a healing request, clamped after its headers, up to one that is refused. */
    method HealSnapshots(claims: seq<HealClaim>, cutoffs: map<Device, nat>, ghost open: set<Dot>) returns (ok: bool)
      requires ValidBut(open)
      modifies this`snapshots, this`nextStoreSeq
      ensures ValidBut(open) && old(Retained()) <= Retained()
      ensures ok <==> forall c :: c in claims ==> ClaimFits(c, heads, cutoffs)
      ensures ok ==> TookClaims(old(Retained()), Retained(), claims, heads)
    {
      hide ClaimFits, TookClaims, RowsFit, WellKept, RowsOf;
      ok := true;
      var i := 0;
      assert claims[..0] == [];
      TookNone(Retained(), heads);
      while i < |claims| && ok
        invariant 0 <= i <= |claims| && ValidBut(open) && old(Retained()) <= Retained()
        invariant ok <==> forall j :: 0 <= j < i ==> ClaimFits(claims[j], heads, cutoffs)
        invariant ok ==> TookClaims(old(Retained()), Retained(), claims[..i], heads)
      {
        assert claims[..i + 1] == claims[..i] + [claims[i]];
        ghost var rows, number := Retained(), nextStoreSeq;
        ok := HealSnapshot(claims[i], cutoffs, open);
        if ok {
          TookOne(old(Retained()), rows, claims[..i], claims[i], heads, number);
        }
        i := i + 1;
      }
      if ok {
        assert claims[..i] == claims;
      }
    }

    /**
     A healing request, all or nothing: its headers, then its snapshots, and then every header it
     stored without a body needs a cover.
     */
    method Heal(records: seq<Header>, claims: seq<HealClaim>, cutoffs: map<Device, nat>) returns (accepted: bool)
      requires Valid()
      modifies this`snapshots, this`ops, this`heads, this`nextStoreSeq
      ensures Valid() && old(Retained()) <= Retained()
      ensures !accepted ==> snapshots == old(snapshots) && ops == old(ops) && heads == old(heads) &&
                            nextStoreSeq == old(nextStoreSeq)
      ensures accepted ==> forall r :: r in records && r.ofItem ==> r.op.dot in ops
      ensures forall dot :: dot in old(ops) ==> dot in ops && ops[dot] == old(ops)[dot]
      ensures accepted <==> old(HealFits(Retained(), ops, heads, records, claims, cutoffs))
      ensures accepted ==>
                old(HeadersFit(ops, heads, records)) && (ops, heads) == old(Stored(ops, heads, records)) &&
                TookClaims(old(Retained()), Retained(), claims, heads)
    {
      var snapshots0, ops0, heads0, next0 := snapshots, ops, heads, nextStoreSeq;
      accepted := HealAll(records, claims, cutoffs);
      if !accepted {
        snapshots, ops, heads, nextStoreSeq := snapshots0, ops0, heads0, next0;
      }
    }

    /** The request inside its transaction: a refusal leaves what it stored for the rollback. */
    method HealAll(records: seq<Header>, claims: seq<HealClaim>, cutoffs: map<Device, nat>) returns (accepted: bool)
      requires Valid()
      modifies this`snapshots, this`ops, this`heads, this`nextStoreSeq
      ensures accepted ==> Valid() && old(Retained()) <= Retained()
      ensures accepted ==> forall r :: r in records && r.ofItem ==> r.op.dot in ops
      ensures accepted ==> forall dot :: dot in old(ops) ==> dot in ops && ops[dot] == old(ops)[dot]
      ensures accepted <==> old(HealFits(Retained(), ops, heads, records, claims, cutoffs))
      ensures accepted ==>
                old(HeadersFit(ops, heads, records)) && (ops, heads) == old(Stored(ops, heads, records)) &&
                TookClaims(old(Retained()), Retained(), claims, heads)
    {
      var bodiless;
      accepted, bodiless := HealOps(records);
      if accepted {
        accepted := HealSnapshots(claims, cutoffs, Elements(bodiless));
        if accepted {
          CoveredAfter(old(Retained()), Retained(), claims, heads);
          var uncovered := CheckHealingRequest(Retained(), bodiless);
          accepted := uncovered.None?;
        }
      }
    }

    /** The item's snapshot rows, one for each store sequence. */
    method ListSnapshots() returns (rows: seq<Snapshot>)
      requires forall q :: q in snapshots ==> snapshots[q].storeSeq == q
      ensures Elements(rows) == Retained()
      ensures forall i, j :: 0 <= i < j < |rows| ==> rows[i].storeSeq != rows[j].storeSeq
    {
      rows := [];
      var left := snapshots.Keys;
      while left != {}
        invariant left <= snapshots.Keys
        invariant forall s :: s in rows <==>
                    s.storeSeq in snapshots && s.storeSeq !in left && s == snapshots[s.storeSeq]
        invariant forall i, j :: 0 <= i < j < |rows| ==> rows[i].storeSeq != rows[j].storeSeq
        decreases left
      {
        var q :| q in left;
        assert forall i :: 0 <= i < |rows| ==> rows[i] in rows;
        rows := rows + [snapshots[q]];
        left := left - {q};
      }
    }

    method ListOps() returns (rows: seq<OpDot>)
      ensures Indexed(rows, ops)
      ensures forall i, j :: 0 <= i < j < |rows| ==> rows[i].dot != rows[j].dot
    {
      rows := [];
      var left := ops.Keys;
      while left != {}
        invariant left <= ops.Keys
        invariant forall op :: op in rows <==> op.dot in ops && op.dot !in left && op.body == ops[op.dot]
        invariant forall i, j :: 0 <= i < j < |rows| ==> rows[i].dot != rows[j].dot
        decreases left
      {
        var dot :| dot in left;
        assert forall i :: 0 <= i < |rows| ==> rows[i] in rows;
        rows := rows + [OpDot(dot, ops[dot])];
        left := left - {dot};
      }
    }

    method DeleteBodies(dots: seq<Dot>)
      modifies this`ops
      ensures ops == WithoutBodies(old(ops), Elements(dots))
    {
      var i := 0;
      while i < |dots|
        invariant 0 <= i <= |dots|
        invariant ops == WithoutBodies(old(ops), Elements(dots[..i]))
      {
        PrefixGrows(dots, i);
        if dots[i] in ops {
          ops := ops[dots[i] := Absent];
        }
        i := i + 1;
      }
      assert dots[..i] == dots;
    }

    method DropSnapshots(storeSeqs: seq<nat>)
      modifies this`snapshots
      ensures snapshots == old(snapshots) - Elements(storeSeqs)
    {
      var i := 0;
      while i < |storeSeqs|
        invariant 0 <= i <= |storeSeqs|
        invariant snapshots == old(snapshots) - Elements(storeSeqs[..i])
      {
        PrefixGrows(storeSeqs, i);
        snapshots := snapshots - {storeSeqs[i]};
        i := i + 1;
      }
      assert storeSeqs[..i] == storeSeqs;
    }

    /** The plan of one worker run over the current rows, which are never inconsistent. */
    method Plan() returns (plan: WorkerPlan, ghost ordered: seq<Snapshot>)
      requires Valid()
      ensures Ascending(ordered) && Elements(ordered) == Retained()
      ensures Elements(plan.deleteBodies) == Deletions(ordered, ops)
      ensures plan.dropSnapshots == StoreSeqs(DropsAfter(ordered, ops))
      ensures AscendingDots(plan.deleteBodies) && Increasing(plan.dropSnapshots)
    {
      var rows := ListSnapshots();
      var dots := ListOps();
      DistinctRows(rows);
      var r;
      ghost var index;
      r, ordered, index := PlanWorker(rows, dots);
      assert index == ops;
      plan := r.value;
    }

    /** One worker run: the plan over the current rows, applied to them in one transaction. */
    method Compact() returns (ghost ordered: seq<Snapshot>, bodiesDeleted: nat, snapshotsDropped: nat)
      requires Valid()
      modifies this`snapshots, this`ops, this`deleted
      ensures Valid()
      ensures Ascending(ordered) && Elements(ordered) == old(Retained())
      ensures ops == OpsAfter(ordered, old(ops))
      ensures Retained() == Elements(Without(ordered, Elements(DropsAfter(ordered, old(ops)))))
      ensures deleted == old(deleted) + Deletions(ordered, old(ops))
      ensures ops.Keys == old(ops.Keys)
      ensures forall dot :: dot in ops ==>
                ops[dot] == if MayGo(old(Retained()), dot) then Absent else old(ops)[dot]
      ensures Retained() <= old(Retained()) && snapshots.Keys <= old(snapshots.Keys)
      ensures DropsThese(old(Retained()), Bodiless(ops), old(snapshots.Keys) - snapshots.Keys)
      ensures bodiesDeleted == |Bodiless(ops)| - old(|Bodiless(ops)|)
      ensures snapshotsDropped == old(|snapshots|) - |snapshots|
    {
      hide WellKept, MayGo, DropsThese, Drops, Deletions, Without, Bodiless, Ascending, AscendingDots;
      hide WithoutBodies, StoreSeqs, Increasing;
      var plan;
      plan, ordered := Plan();
      RunLeaves(snapshots, ordered, ops, deleted, heads, nextStoreSeq);
      RunReadOff(snapshots, ordered, ops, plan);
      ghost var deletions := Deletions(ordered, ops);
      DeleteBodies(plan.deleteBodies);
      DropSnapshots(plan.dropSnapshots);
      deleted := deleted + deletions;
      bodiesDeleted, snapshotsDropped := |plan.deleteBodies|, |plan.dropSnapshots|;
    }

    /**
     The covers of a page of bodiless headers: none of them is served alone, and two authors vouch for each
     deleted body.
     */
    method Serve(page: seq<Dot>) returns (selection: CoverSelection, ghost served: seq<Snapshot>)
      requires Valid() && Elements(page) <= Bodiless(ops)
      ensures (forall dot :: dot !in selection.uncovered) && selection.covers == StoreSeqs(served) && Descending(served)
      ensures Elements(served) <= Retained()
      ensures forall dot :: dot in page ==> !Uncovered(Elements(served), dot)
      ensures forall dot :: dot in page && dot in deleted ==> |Authors(Elements(served), dot)| >= 2
    {
      var rows := ListSnapshots();
      DistinctRows(rows);
      var r;
      r, served := SelectCovers(rows, page);
      selection := r.value;
      forall dot | dot in page
        ensures !Uncovered(Elements(served), dot) && dot !in selection.uncovered
        ensures dot in deleted ==> |Authors(Elements(served), dot)| >= 2
      {
        assert dot in Elements(page);
        SomeAuthor(Retained(), dot);
        SomeAuthor(Elements(served), dot);
        var s :| s in Retained() && Covers(s, dot);
        assert s in rows;
      }
    }
  }

  /** A row is the claim, clamped to the heads, under a number of its own. */
  predicate IsClaim(s: Snapshot, c: HealClaim, heads: VersionVector) {
    s == Snapshot(s.storeSeq, Meet(c.claim.covered, heads), c.claim.author)
  }

  /** Each new snapshot of the request is a row now, clamped, and nothing else is new. */
  ghost predicate TookClaims(before: set<Snapshot>, after: set<Snapshot>, claims: seq<HealClaim>,
                             heads: VersionVector)
  {
    before <= after &&
    (forall c :: c in claims && c.existing.New? ==> exists s :: s in after && IsClaim(s, c, heads)) &&
    forall s :: s in after && s !in before ==> exists c :: c in claims && c.existing.New? && IsClaim(s, c, heads)
  }

  lemma OneMoreRow(rows: map<nat, Snapshot>, s: Snapshot)
    requires s.storeSeq !in rows
    ensures RowsOf(rows[s.storeSeq := s]) == RowsOf(rows) + {s}
  {
    var more := rows[s.storeSeq := s];
    forall t | t in RowsOf(rows)
      ensures t in RowsOf(more)
    {
      var q :| q in rows && rows[q] == t;
      assert q in more && more[q] == t;
    }
    assert s.storeSeq in more && more[s.storeSeq] == s;
  }

  lemma TookNone(rows: set<Snapshot>, heads: VersionVector)
    ensures TookClaims(rows, rows, [], heads)
  {
  }

  /** The row a new claim becomes under this number. */
  function Row(c: HealClaim, number: nat, heads: VersionVector): Snapshot {
    Snapshot(number, Meet(c.claim.covered, heads), c.claim.author)
  }

  lemma TookOne(before: set<Snapshot>, rows: set<Snapshot>, claims: seq<HealClaim>, c: HealClaim, heads: VersionVector,
                number: nat)
    requires TookClaims(before, rows, claims, heads)
    ensures TookClaims(before, if c.existing.New? then rows + {Row(c, number, heads)} else rows, claims + [c], heads)
  {
    var after, more := if c.existing.New? then rows + {Row(c, number, heads)} else rows, claims + [c];
    assert c in more && IsClaim(Row(c, number, heads), c, heads);
    forall d | d in more && d.existing.New?
      ensures exists t :: t in after && IsClaim(t, d, heads)
    {
      if d in claims {
        var t :| t in rows && IsClaim(t, d, heads);
        assert t in after;
      } else {
        assert Row(c, number, heads) in after;
      }
    }
    forall t | t in after && t !in before
      ensures exists d :: d in more && d.existing.New? && IsClaim(t, d, heads)
    {
      if t in rows {
        var d :| d in claims && d.existing.New? && IsClaim(t, d, heads);
        assert d in more;
      }
    }
  }

  lemma CoveredAfter(before: set<Snapshot>, after: set<Snapshot>, claims: seq<HealClaim>, heads: VersionVector)
    requires TookClaims(before, after, claims, heads)
    ensures forall dot :: !Uncovered(after, dot) <==> CoveredWith(before, claims, heads, dot)
  {
    forall dot
      ensures !Uncovered(after, dot) <==> CoveredWith(before, claims, heads, dot)
    {
      if !Uncovered(after, dot) {
        var s :| s in after && Covers(s, dot);
        if s !in before {
          var c :| c in claims && c.existing.New? && IsClaim(s, c, heads);
          assert CoversDot(Meet(c.claim.covered, heads), dot);
        }
      }
      if CoveredWith(before, claims, heads, dot) && Uncovered(before, dot) {
        var c :| c in claims && c.existing.New? && CoversDot(Meet(c.claim.covered, heads), dot);
        var s :| s in after && IsClaim(s, c, heads);
        assert Covers(s, dot);
      }
    }
  }

  lemma SomeAuthor(snapshots: set<Snapshot>, dot: Dot)
    ensures |Authors(snapshots, dot)| > 0 <==> !Uncovered(snapshots, dot)
  {
    if Authors(snapshots, dot) != {} {
      var a :| a in Authors(snapshots, dot);
      var t :| t in snapshots && Covers(t, dot) && t.author == a;
      assert !Uncovered(snapshots, dot);
    } else {
      forall s | s in snapshots
        ensures !Covers(s, dot)
      {
        assert Covers(s, dot) ==> s.author in Authors(snapshots, dot);
      }
    }
  }

  lemma AppendedDot(dots: seq<Dot>, dot: Dot)
    ensures Elements(dots + [dot]) == Elements(dots) + {dot}
  {
    assert forall x :: x in dots + [dot] <==> x in dots || x == dot;
  }

  lemma DistinctRows(rows: seq<Snapshot>)
    requires forall i, j :: 0 <= i < j < |rows| ==> rows[i].storeSeq != rows[j].storeSeq
    ensures forall q: nat :: multiset(StoreSeqs(rows))[q] <= 1
  {
    forall q: nat
      ensures multiset(StoreSeqs(rows))[q] <= 1
    {
      DistinctOnce(StoreSeqs(rows), q);
    }
  }

  lemma {:induction false} DistinctOnce(numbers: seq<nat>, p: nat)
    requires forall i, j :: 0 <= i < j < |numbers| ==> numbers[i] != numbers[j]
    ensures multiset(numbers)[p] <= 1
  {
    if numbers == [] {
    } else {
      var rest := numbers[1..];
      assert numbers == [numbers[0]] + rest;
      assert forall i :: 0 <= i < |rest| ==> rest[i] == numbers[i + 1];
      DistinctOnce(rest, p);
      if p == numbers[0] {
        assert p !in rest && p !in multiset(rest);
      }
    }
  }

  /** What a run leaves covers every bodiless header, and every deleted body by two authors. */
  lemma RunKeepsCovers(ordered: seq<Snapshot>, ops: map<Dot, Body>, deleted: set<Dot>)
    requires Ascending(ordered) && deleted <= Bodiless(ops)
    requires forall dot :: dot in deleted ==> |Authors(Elements(ordered), dot)| >= 2
    requires forall dot :: dot in Bodiless(ops) ==> !Uncovered(Elements(ordered), dot)
    ensures
      var after := WithoutBodies(ops, Deletions(ordered, ops));
      var kept := Elements(Without(ordered, Elements(Drops(ordered, Bodiless(after)))));
      deleted + Deletions(ordered, ops) <= Bodiless(after) && kept <= Elements(ordered) &&
      (forall dot :: dot in deleted + Deletions(ordered, ops) ==> |Authors(kept, dot)| >= 2) &&
      (forall dot :: dot in Bodiless(after) ==> !Uncovered(kept, dot))
  {
    var after := WithoutBodies(ops, Deletions(ordered, ops));
    var headers := Bodiless(after);
    KeptAfterRun(ordered, headers);
    var kept := Elements(Without(ordered, Elements(Drops(ordered, headers))));
    forall dot | dot in headers
      ensures !Uncovered(kept, dot)
      ensures dot in deleted + Deletions(ordered, ops) ==> |Authors(kept, dot)| >= 2
    {
      RunKeepsTwoAuthors(ordered, headers, dot);
      SomeAuthor(Elements(ordered), dot);
      SomeAuthor(kept, dot);
    }
  }

  function OpsAfter(ordered: seq<Snapshot>, ops: map<Dot, Body>): map<Dot, Body> {
    WithoutBodies(ops, Deletions(ordered, ops))
  }

  function DropsAfter(ordered: seq<Snapshot>, ops: map<Dot, Body>): seq<Snapshot> {
    Drops(ordered, Bodiless(OpsAfter(ordered, ops)))
  }

  lemma RunLeaves(snapshots: map<nat, Snapshot>, ordered: seq<Snapshot>, ops: map<Dot, Body>, deleted: set<Dot>,
                  heads: VersionVector, next: nat)
    requires RowsFit(snapshots, ops, heads, next) && WellKept(RowsOf(snapshots), ops, deleted, {})
    requires Ascending(ordered) && Elements(ordered) == RowsOf(snapshots)
    ensures
      var left, after := snapshots - Elements(StoreSeqs(DropsAfter(ordered, ops))), OpsAfter(ordered, ops);
      RowsOf(left) == Elements(Without(ordered, Elements(DropsAfter(ordered, ops)))) &&
      RowsFit(left, after, heads, next) && WellKept(RowsOf(left), after, deleted + Deletions(ordered, ops), {})
  {
    var headers := Bodiless(OpsAfter(ordered, ops));
    RunKeepsCovers(ordered, ops, deleted);
    OlderFacts(ordered);
    PassDropsOnlyOlder(Older(ordered), Elements(ordered), headers);
    DropsByStoreSeq(snapshots, ordered, Drops(ordered, headers));
  }

  predicate Increasing(numbers: seq<nat>) {
    forall i, j :: 0 <= i < j < |numbers| ==> numbers[i] < numbers[j]
  }

  lemma {:induction false} CountOnce<T>(s: seq<T>)
    requires forall i, j :: 0 <= i < j < |s| ==> s[i] != s[j]
    ensures |Elements(s)| == |s|
  {
    if s != [] {
      CountOnce(s[1..]);
      assert Elements(s) == {s[0]} + Elements(s[1..]) by {
        assert s == [s[0]] + s[1..];
      }
      assert s[0] !in s[1..];
    }
  }

  /** A run, read off the rows: which bodies are gone, and how many. */
  lemma RunDeletes(rows: set<Snapshot>, ordered: seq<Snapshot>, ops: map<Dot, Body>, gone: seq<Dot>)
    requires Ascending(ordered) && Elements(ordered) == rows
    requires Elements(gone) == Deletions(ordered, ops) && AscendingDots(gone)
    ensures
      var after := OpsAfter(ordered, ops);
      after.Keys == ops.Keys &&
      (forall dot :: dot in ops ==> after[dot] == if MayGo(rows, dot) then Absent else ops[dot]) &&
      |gone| == |Bodiless(after)| - |Bodiless(ops)|
  {
    var after := OpsAfter(ordered, ops);
    forall dot | dot in ops
      ensures after[dot] == if MayGo(rows, dot) then Absent else ops[dot]
    {
      DeletableIs(ordered, dot);
    }
    CountOnce(gone);
    assert Bodiless(after) == Bodiless(ops) + Deletions(ordered, ops);
  }

  /** And which snapshots. */
  lemma RunDrops(snapshots: map<nat, Snapshot>, ordered: seq<Snapshot>, headers: set<Dot>, gone: seq<nat>)
    requires Ascending(ordered) && Elements(ordered) == RowsOf(snapshots)
    requires forall q :: q in snapshots ==> snapshots[q].storeSeq == q
    requires gone == StoreSeqs(Drops(ordered, headers)) && Increasing(gone)
    ensures Elements(gone) <= snapshots.Keys && DropsThese(RowsOf(snapshots), headers, Elements(gone))
    ensures |gone| == |snapshots| - |snapshots - Elements(gone)|
  {
    var drops := Drops(ordered, headers);
    CountOnce(gone);
    var numbers := set s | s in drops :: s.storeSeq;
    assert Elements(gone) == numbers by {
      forall s | s in drops
        ensures s.storeSeq in gone
      {
        var i :| 0 <= i < |drops| && drops[i] == s;
        assert gone[i] == s.storeSeq;
      }
    }
    DropsAre(ordered, headers, numbers);
    BySequence(ordered, headers, numbers);
    hide DropsThese, Drops;
    forall q | q in numbers
      ensures q in snapshots
    {
      var s :| s in drops && s.storeSeq == q;
      assert s in Elements(ordered);
    }
    FewerRows(snapshots, numbers);
  }

  lemma RunReadOff(snapshots: map<nat, Snapshot>, ordered: seq<Snapshot>, ops: map<Dot, Body>, plan: WorkerPlan)
    requires Ascending(ordered) && Elements(ordered) == RowsOf(snapshots)
    requires forall q :: q in snapshots ==> snapshots[q].storeSeq == q
    requires Elements(plan.deleteBodies) == Deletions(ordered, ops) && AscendingDots(plan.deleteBodies)
    requires plan.dropSnapshots == StoreSeqs(DropsAfter(ordered, ops)) && Increasing(plan.dropSnapshots)
    ensures
      var rows, after := RowsOf(snapshots), OpsAfter(ordered, ops);
      var left := snapshots - Elements(plan.dropSnapshots);
      after.Keys == ops.Keys &&
      (forall dot :: dot in ops ==> after[dot] == if MayGo(rows, dot) then Absent else ops[dot]) &&
      RowsOf(left) <= rows && left.Keys <= snapshots.Keys &&
      DropsThese(rows, Bodiless(after), snapshots.Keys - left.Keys) &&
      |plan.deleteBodies| == |Bodiless(after)| - |Bodiless(ops)| && |plan.dropSnapshots| == |snapshots| - |left|
  {
    hide MayGo, DropsThese, Drops, Deletions, WellKept, Without, Bodiless, WithoutBodies, Ascending, AscendingDots,
         Increasing, StoreSeqs;
    RunDeletes(RowsOf(snapshots), ordered, ops, plan.deleteBodies);
    RunDrops(snapshots, ordered, Bodiless(OpsAfter(ordered, ops)), plan.dropSnapshots);
    RowsLeft(snapshots, Elements(plan.dropSnapshots));
  }

  lemma RowsLeft(snapshots: map<nat, Snapshot>, gone: set<nat>)
    requires gone <= snapshots.Keys
    ensures RowsOf(snapshots - gone) <= RowsOf(snapshots) && (snapshots - gone).Keys == snapshots.Keys - gone
    ensures snapshots.Keys - (snapshots - gone).Keys == gone
  {
  }

  lemma FewerRows(snapshots: map<nat, Snapshot>, numbers: set<nat>)
    requires numbers <= snapshots.Keys
    ensures |snapshots - numbers| == |snapshots| - |numbers|
  {
    assert (snapshots - numbers).Keys == snapshots.Keys - numbers;
    assert |snapshots.Keys| == |snapshots| && |(snapshots - numbers).Keys| == |snapshots - numbers|;
  }

  lemma NamedByStoreSeq(ordered: seq<Snapshot>, dropped: seq<Snapshot>, s: Snapshot)
    requires Ascending(ordered) && s in ordered && forall x :: x in dropped ==> x in ordered
    ensures s.storeSeq in Elements(StoreSeqs(dropped)) <==> s in dropped
  {
    if s.storeSeq in Elements(StoreSeqs(dropped)) {
      var i :| 0 <= i < |dropped| && StoreSeqs(dropped)[i] == s.storeSeq;
      assert dropped[i] in ordered;
    }
    if s in dropped {
      var i :| 0 <= i < |dropped| && dropped[i] == s;
      assert StoreSeqs(dropped)[i] == s.storeSeq;
    }
  }

  /** Dropping rows by store sequence is dropping the snapshots of the plan. */
  lemma DropsByStoreSeq(snapshots: map<nat, Snapshot>, ordered: seq<Snapshot>, dropped: seq<Snapshot>)
    requires forall q :: q in snapshots ==> snapshots[q].storeSeq == q
    requires Ascending(ordered) && Elements(ordered) == RowsOf(snapshots)
    requires forall s :: s in dropped ==> s in ordered
    ensures
      var left := snapshots - Elements(StoreSeqs(dropped));
      RowsOf(left) == Elements(Without(ordered, Elements(dropped)))
  {
    var left := snapshots - Elements(StoreSeqs(dropped));
    var kept := Elements(Without(ordered, Elements(dropped)));
    WithoutFacts(ordered, Elements(dropped));
    forall q | q in left
      ensures left[q] in kept
    {
      assert snapshots[q] in Elements(ordered);
      NamedByStoreSeq(ordered, dropped, snapshots[q]);
    }
    forall s | s in kept
      ensures s.storeSeq in left && left[s.storeSeq] == s
    {
      assert s in Elements(ordered);
      NamedByStoreSeq(ordered, dropped, s);
    }
  }

  /** More snapshots never uncover a header, nor take it an author. */
  lemma MoreCovers(fewer: set<Snapshot>, more: set<Snapshot>)
    requires fewer <= more
    ensures forall dot :: !Uncovered(fewer, dot) ==> !Uncovered(more, dot)
    ensures forall dot :: |Authors(fewer, dot)| <= |Authors(more, dot)|
  {
    forall dot
      ensures |Authors(fewer, dot)| <= |Authors(more, dot)|
    {
      forall a | a in Authors(fewer, dot)
        ensures a in Authors(more, dot)
      {
        var t :| t in fewer && Covers(t, dot) && t.author == a;
        assert t in more;
      }
      SubsetSize(Authors(fewer, dot), Authors(more, dot));
    }
  }
}
