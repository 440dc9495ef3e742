/**
 The server's compaction rules for one item (crates/rizzy-sync/src/compaction.rs): which bodies the
 worker deletes and which snapshots it drops, which snapshots are served as covers, and which uploads
 are refused. The rules are stated over sets of rows; the methods are the single-pass algorithms.
 */
module Compaction {
  import opened VersionVectors

  datatype Snapshot = Snapshot(storeSeq: nat, clamped: VersionVector, author: Device)

  predicate Covers(s: Snapshot, dot: Dot) {
    CoversDot(s.clamped, dot)
  }

  datatype Body = Held | Absent

  datatype OpDot = OpDot(dot: Dot, body: Body)

  datatype WorkerPlan = WorkerPlan(deleteBodies: seq<Dot>, dropSnapshots: seq<nat>)

  datatype CoverSelection = CoverSelection(covers: seq<nat>, uncovered: seq<Dot>)

  datatype InputError = DuplicateStoreSeq(storeSeq: nat) | DuplicateOp(dot: Dot)

  // ---------- the rules, over sets ----------

  function Authors(snapshots: set<Snapshot>, dot: Dot): set<Device> {
    set s | s in snapshots && Covers(s, dot) :: s.author
  }

  /** The covering snapshots of one author. */
  function CoversBy(snapshots: set<Snapshot>, dot: Dot, author: Device): set<Snapshot> {
    set s | s in snapshots && Covers(s, dot) && s.author == author
  }

  /** Dropping `s` would leave the header fewer authors, and fewer than two. */
  predicate LowersBelowTwo(snapshots: set<Snapshot>, s: Snapshot, dot: Dot) {
    |Authors(snapshots - {s}, dot)| < 2 && |Authors(snapshots - {s}, dot)| < |Authors(snapshots, dot)|
  }

  predicate Needed(snapshots: set<Snapshot>, s: Snapshot, headers: set<Dot>) {
    exists dot :: dot in headers && Covers(s, dot) && LowersBelowTwo(snapshots, s, dot)
  }

  /** Ascending store sequences: oldest first, none twice. */
  predicate Ascending(snapshots: seq<Snapshot>) {
    forall i, j :: 0 <= i < j < |snapshots| ==> snapshots[i].storeSeq < snapshots[j].storeSeq
  }

  predicate AscendingDots(dots: seq<Dot>) {
    forall i, j :: 0 <= i < j < |dots| ==> DotBefore(dots[i], dots[j])
  }

  function Elements<T>(s: seq<T>): set<T> {
    set x | x in s
  }

  /** R1: covered by the last snapshot but one, and by two different authors. */
  predicate Deletable(ordered: seq<Snapshot>, dot: Dot) {
    |ordered| >= 2 && Covers(ordered[|ordered| - 2], dot) && |Authors(Elements(ordered), dot)| >= 2
  }

  function Deletions(ordered: seq<Snapshot>, ops: map<Dot, Body>): set<Dot> {
    set dot | dot in ops && ops[dot].Held? && Deletable(ordered, dot)
  }

  function Bodiless(ops: map<Dot, Body>): set<Dot> {
    set dot | dot in ops && ops[dot].Absent?
  }

  /** All but the two newest. */
  function Older(ordered: seq<Snapshot>): seq<Snapshot> {
    if |ordered| < 2 then [] else ordered[..|ordered| - 2]
  }

  /** R3 in one pass: each older snapshot is tested once, oldest first, against what is left. */
  function SinglePass(older: seq<Snapshot>, kept: set<Snapshot>, headers: set<Dot>): seq<Snapshot>
    decreases |older|
  {
    if older == [] then []
    else if Needed(kept, older[0], headers) then SinglePass(older[1..], kept, headers)
    else [older[0]] + SinglePass(older[1..], kept - {older[0]}, headers)
  }

  /** The first older snapshot that is not needed, or the length when every one is. */
  function FirstNotNeeded(older: seq<Snapshot>, kept: set<Snapshot>, headers: set<Dot>): (i: nat)
    ensures i <= |older|
  {
    if older == [] || !Needed(kept, older[0], headers) then 0 else 1 + FirstNotNeeded(older[1..], kept, headers)
  }

  lemma {:induction false} FirstNotNeededFollows(prefix: seq<Snapshot>, rest: seq<Snapshot>, kept: set<Snapshot>,
                                                 headers: set<Dot>)
    requires forall s :: s in prefix ==> Needed(kept, s, headers)
    ensures FirstNotNeeded(prefix + rest, kept, headers) == |prefix| + FirstNotNeeded(rest, kept, headers)
  {
    if prefix == [] {
      assert prefix + rest == rest;
    } else {
      assert prefix[0] in prefix;
      assert (prefix + rest)[1..] == prefix[1..] + rest;
      FirstNotNeededFollows(prefix[1..], rest, kept, headers);
    }
  }

  /** R3 as it is written: after each drop every remaining older snapshot is tested again, oldest first. */
  function Retested(older: seq<Snapshot>, kept: set<Snapshot>, headers: set<Dot>): seq<Snapshot>
    decreases |older|
  {
    var i := FirstNotNeeded(older, kept, headers);
    if i == |older| then []
    else [older[i]] + Retested(older[..i] + older[i + 1..], kept - {older[i]}, headers)
  }

  // ---------- one pass is enough ----------

  /** A needed snapshot stays needed whatever else is dropped. */
  lemma NeededStays(snapshots: set<Snapshot>, fewer: set<Snapshot>, s: Snapshot, headers: set<Dot>)
    requires fewer <= snapshots && s in fewer && Needed(snapshots, s, headers)
    ensures Needed(fewer, s, headers)
  {
    var dot :| dot in headers && Covers(s, dot) && LowersBelowTwo(snapshots, s, dot);
    var without, less := Authors(snapshots - {s}, dot), Authors(fewer - {s}, dot);
    OnlyItsAuthorGoes(snapshots, s, dot);
    OnlyItsAuthorGoes(fewer, s, dot);
    forall a | a in less
      ensures a in without
    {
      var t :| t in fewer - {s} && Covers(t, dot) && t.author == a;
      assert t in snapshots - {s};
    }
    SubsetSize(less, without);
    assert s.author !in less;
    assert LowersBelowTwo(fewer, s, dot);
  }

  lemma SubsetSize<T>(a: set<T>, b: set<T>)
    requires a <= b
    ensures |a| <= |b|
  {
    if a == {} {
    } else {
      var x :| x in a;
      SubsetSize(a - {x}, b - {x});
    }
  }

  /** Without a covering snapshot, either the authors are the same or exactly its author is gone. */
  lemma OnlyItsAuthorGoes(snapshots: set<Snapshot>, s: Snapshot, dot: Dot)
    requires s in snapshots && Covers(s, dot)
    ensures Authors(snapshots, dot) == Authors(snapshots - {s}, dot) + {s.author}
    ensures |Authors(snapshots, dot)| ==
            |Authors(snapshots - {s}, dot)| + if s.author in Authors(snapshots - {s}, dot) then 0 else 1
  {
    var without := Authors(snapshots - {s}, dot);
    forall a | a in Authors(snapshots, dot)
      ensures a in without + {s.author}
    {
      var t :| t in snapshots && Covers(t, dot) && t.author == a;
      assert t == s || t in snapshots - {s};
    }
    assert Authors(snapshots, dot) == without + {s.author};
    if s.author in without {
      assert without + {s.author} == without;
    }
  }

  /** The single pass drops exactly what the rule's re-test after each drop does, in the same order. */
  lemma {:induction false} SinglePassIsTheRule(prefix: seq<Snapshot>, rest: seq<Snapshot>, kept: set<Snapshot>,
                                               headers: set<Dot>)
    requires Ascending(prefix + rest) && forall s :: s in prefix + rest ==> s in kept
    requires forall s :: s in prefix ==> Needed(kept, s, headers)
    ensures Retested(prefix + rest, kept, headers) == SinglePass(rest, kept, headers)
    decreases |rest|
  {
    var all := prefix + rest;
    var i := FirstNotNeeded(all, kept, headers);
    FirstNotNeededFollows(prefix, rest, kept, headers);
    if rest != [] {
      assert all[|prefix|] == rest[0] && rest[0] in all;
      if Needed(kept, rest[0], headers) {
        assert all == (prefix + [rest[0]]) + rest[1..];
        SinglePassIsTheRule(prefix + [rest[0]], rest[1..], kept, headers);
      } else {
        var left := kept - {rest[0]};
        assert all[..i] + all[i + 1..] == prefix + rest[1..];
        DroppedOne(prefix, rest);
        forall s | s in prefix
          ensures Needed(left, s, headers)
        {
          assert s in prefix + rest[1..];
          NeededStays(kept, left, s, headers);
        }
        SinglePassIsTheRule(prefix, rest[1..], left, headers);
      }
    }
  }

  lemma DroppedOne(prefix: seq<Snapshot>, rest: seq<Snapshot>)
    requires rest != [] && Ascending(prefix + rest)
    ensures Ascending(prefix + rest[1..]) && rest[0] !in prefix + rest[1..]
    ensures forall s :: s in prefix + rest[1..] ==> s in prefix + rest
  {
    var all, fewer := prefix + rest, prefix + rest[1..];
    forall i | 0 <= i < |fewer|
      ensures fewer[i] == all[if i < |prefix| then i else i + 1] && fewer[i] in all && fewer[i] != rest[0]
    {
      assert all[|prefix|] == rest[0];
    }
    forall i, j | 0 <= i < j < |fewer|
      ensures fewer[i].storeSeq < fewer[j].storeSeq
    {
      assert fewer[i] == all[if i < |prefix| then i else i + 1];
      assert fewer[j] == all[if j < |prefix| then j else j + 1];
    }
  }

  // ---------- what a pass leaves ----------

  function KeptBy(older: seq<Snapshot>, kept: set<Snapshot>, headers: set<Dot>): set<Snapshot> {
    kept - Elements(SinglePass(older, kept, headers))
  }

  /** Every header keeps covers by two authors, or by as many as it had. */
  lemma {:induction false} PassKeepsTwoAuthors(older: seq<Snapshot>, kept: set<Snapshot>, headers: set<Dot>, dot: Dot)
    requires Ascending(older) && (forall s :: s in older ==> s in kept) && dot in headers
    ensures |Authors(KeptBy(older, kept, headers), dot)| >= if |Authors(kept, dot)| < 2 then |Authors(kept, dot)| else 2
    decreases |older|
  {
    if older == [] {
      assert KeptBy(older, kept, headers) == kept;
    } else {
      RestIsKept(older, kept);
      var s, rest := older[0], older[1..];
      if Needed(kept, s, headers) {
        PassKeepsTwoAuthors(rest, kept, headers, dot);
      } else {
        PassKeepsTwoAuthors(rest, kept - {s}, headers, dot);
        assert KeptBy(older, kept, headers) == KeptBy(rest, kept - {s}, headers);
        if Covers(s, dot) {
          assert !LowersBelowTwo(kept, s, dot);
        } else {
          assert Authors(kept - {s}, dot) == Authors(kept, dot);
        }
      }
    }
  }

  lemma RestIsKept(older: seq<Snapshot>, kept: set<Snapshot>)
    requires older != [] && Ascending(older) && forall s :: s in older ==> s in kept
    ensures Ascending(older[1..]) && older[0] in kept && older[0] !in older[1..]
    ensures forall s :: s in older[1..] ==> s in kept && s in kept - {older[0]}
  {
    forall i | 0 <= i < |older[1..]|
      ensures older[1..][i] == older[i + 1] && older[i + 1] in older
    {
    }
  }

  /** Every older snapshot that stays is needed by what stays: the drops are as many as can be. */
  lemma {:induction false} PassIsMaximal(older: seq<Snapshot>, kept: set<Snapshot>, headers: set<Dot>, s: Snapshot)
    requires Ascending(older) && (forall x :: x in older ==> x in kept)
    requires s in older && s !in SinglePass(older, kept, headers)
    ensures s in KeptBy(older, kept, headers) && Needed(KeptBy(older, kept, headers), s, headers)
    decreases |older|
  {
    RestIsKept(older, kept);
    var first, rest := older[0], older[1..];
    if Needed(kept, first, headers) {
      if s == first {
        PassDropsOnlyOlder(rest, kept, headers);
        NeededStays(kept, KeptBy(older, kept, headers), s, headers);
      } else {
        PassIsMaximal(rest, kept, headers, s);
      }
    } else {
      assert s != first by {
        assert first in SinglePass(older, kept, headers);
      }
      PassIsMaximal(rest, kept - {first}, headers, s);
      assert KeptBy(older, kept, headers) == KeptBy(rest, kept - {first}, headers);
    }
  }

  lemma {:induction false} PassDropsOnlyOlder(older: seq<Snapshot>, kept: set<Snapshot>, headers: set<Dot>)
    requires Ascending(older)
    ensures forall s :: s in SinglePass(older, kept, headers) ==> s in older
    ensures Ascending(SinglePass(older, kept, headers))
    decreases |older|
  {
    if older == [] {
    } else {
      var rest := older[1..];
      forall i | 0 <= i < |rest|
        ensures rest[i] == older[i + 1] && rest[i].storeSeq > older[0].storeSeq
      {
      }
      PassDropsOnlyOlder(rest, kept, headers);
      PassDropsOnlyOlder(rest, kept - {older[0]}, headers);
      var dropped := SinglePass(rest, kept - {older[0]}, headers);
      forall i | 0 <= i < |dropped|
        ensures dropped[i] in older && dropped[i].storeSeq > older[0].storeSeq
      {
        assert dropped[i] in rest;
      }
    }
  }

  /** Where every older snapshot is needed, a pass drops nothing. */
  lemma {:induction false} NothingToDrop(older: seq<Snapshot>, kept: set<Snapshot>, headers: set<Dot>)
    requires forall s :: s in older ==> Needed(kept, s, headers)
    ensures SinglePass(older, kept, headers) == []
    decreases |older|
  {
    if older == [] {
    } else {
      assert older[0] in older;
      NothingToDrop(older[1..], kept, headers);
    }
  }

  // ---------- running the plan again ----------

  function Without(snapshots: seq<Snapshot>, dropped: set<Snapshot>): seq<Snapshot> {
    if snapshots == [] then []
    else (if snapshots[0] in dropped then [] else [snapshots[0]]) + Without(snapshots[1..], dropped)
  }

  lemma {:induction false} WithoutFacts(snapshots: seq<Snapshot>, dropped: set<Snapshot>)
    requires Ascending(snapshots)
    ensures Elements(Without(snapshots, dropped)) == Elements(snapshots) - dropped
    ensures Ascending(Without(snapshots, dropped))
  {
    if snapshots == [] {
    } else {
      var rest := snapshots[1..];
      forall i | 0 <= i < |rest|
        ensures rest[i] == snapshots[i + 1] && rest[i].storeSeq > snapshots[0].storeSeq
      {
      }
      WithoutFacts(rest, dropped);
      var left := Without(rest, dropped);
      forall i | 0 <= i < |left|
        ensures left[i].storeSeq > snapshots[0].storeSeq
      {
        assert left[i] in Elements(left);
        assert left[i] in rest;
      }
      var out := Without(snapshots, dropped);
      assert out == (if snapshots[0] in dropped then [] else [snapshots[0]]) + left;
      assert snapshots == [snapshots[0]] + rest;
      assert snapshots[0] !in rest;
      forall s | s in Elements(out)
        ensures s in Elements(snapshots) - dropped
      {
        assert s in Elements(left) || s == snapshots[0];
      }
      forall s | s in Elements(snapshots) - dropped
        ensures s in Elements(out)
      {
        assert s == snapshots[0] || s in Elements(rest) - dropped;
      }
    }
  }

  lemma {:induction false} WithoutAppends(a: seq<Snapshot>, b: seq<Snapshot>, dropped: set<Snapshot>)
    requires forall s :: s in b ==> s !in dropped
    ensures Without(a + b, dropped) == Without(a, dropped) + b
  {
    if a != [] {
      assert (a + b)[1..] == a[1..] + b;
      WithoutAppends(a[1..], b, dropped);
    } else if b != [] {
      assert b[0] in b;
      assert a + b == b && [] + b[1..] == b[1..];
      WithoutAppends([], b[1..], dropped);
    }
  }

  /** The bodies of the deleted ops are gone; every header stays. */
  function WithoutBodies(ops: map<Dot, Body>, deleted: set<Dot>): map<Dot, Body> {
    map dot | dot in ops :: if dot in deleted then Absent else ops[dot]
  }

  /** What one worker run drops, given what it deletes. */
  function Drops(ordered: seq<Snapshot>, headers: set<Dot>): seq<Snapshot> {
    SinglePass(Older(ordered), Elements(ordered), headers)
  }

  lemma OlderFacts(ordered: seq<Snapshot>)
    requires Ascending(ordered)
    ensures Ascending(Older(ordered)) && ordered == Older(ordered) + ordered[|Older(ordered)|..]
    ensures forall s :: s in Older(ordered) ==> s in Elements(ordered) && s !in ordered[|Older(ordered)|..]
  {
    var older, newest := Older(ordered), ordered[|Older(ordered)|..];
    forall i | 0 <= i < |older|
      ensures older[i] == ordered[i]
    {
    }
    forall i, j | 0 <= i < |older| && 0 <= j < |newest|
      ensures older[i] != newest[j]
    {
      assert newest[j] == ordered[|older| + j];
    }
  }

  /** What a run leaves of the snapshots: the two newest at the end, before them what the pass keeps. */
  lemma KeptAfterRun(ordered: seq<Snapshot>, headers: set<Dot>)
    requires Ascending(ordered)
    ensures
      var dropped := Elements(Drops(ordered, headers));
      var kept := Without(ordered, dropped);
      Ascending(kept) && Elements(kept) == KeptBy(Older(ordered), Elements(ordered), headers) &&
      Older(kept) == Without(Older(ordered), dropped) &&
      kept == Without(Older(ordered), dropped) + ordered[|Older(ordered)|..]
  {
    var dropped := Elements(Drops(ordered, headers));
    OlderFacts(ordered);
    PassDropsOnlyOlder(Older(ordered), Elements(ordered), headers);
    WithoutFacts(ordered, dropped);
    WithoutAppends(Older(ordered), ordered[|Older(ordered)|..], dropped);
    if |ordered| < 2 {
      assert Without(ordered, dropped) == ordered;
    }
  }

  /** What can be deleted behind what a run leaves could be deleted before it. */
  lemma DeletableBefore(ordered: seq<Snapshot>, headers: set<Dot>, dot: Dot)
    requires Ascending(ordered)
    ensures Deletable(Without(ordered, Elements(Drops(ordered, headers))), dot) ==> Deletable(ordered, dot)
  {
    var kept := Without(ordered, Elements(Drops(ordered, headers)));
    KeptAfterRun(ordered, headers);
    OlderFacts(ordered);
    if Deletable(kept, dot) {
      assert |ordered| < 2 ==> Older(ordered) == [];
      assert kept[|kept| - 2] == ordered[|ordered| - 2];
      forall a | a in Authors(Elements(kept), dot)
        ensures a in Authors(Elements(ordered), dot)
      {
        var t :| t in Elements(kept) && Covers(t, dot) && t.author == a;
        assert t in Elements(ordered);
      }
      SubsetSize(Authors(Elements(kept), dot), Authors(Elements(ordered), dot));
    }
  }

  /** Applying a plan to its rows leaves rows on which the next plan is empty. */
  lemma PlanIsIdempotent(ordered: seq<Snapshot>, ops: map<Dot, Body>)
    requires Ascending(ordered)
    ensures
      var after := WithoutBodies(ops, Deletions(ordered, ops));
      var kept := Without(ordered, Elements(Drops(ordered, Bodiless(after))));
      Deletions(kept, after) == {} && Drops(kept, Bodiless(after)) == []
  {
    var after := WithoutBodies(ops, Deletions(ordered, ops));
    var headers := Bodiless(after);
    var dropped := Elements(Drops(ordered, headers));
    var kept := Without(ordered, dropped);
    forall dot | dot in after && after[dot].Held?
      ensures !Deletable(kept, dot)
    {
      DeletableBefore(ordered, headers, dot);
    }
    KeptAfterRun(ordered, headers);
    OlderFacts(ordered);
    WithoutFacts(Older(ordered), dropped);
    forall s | s in Older(kept)
      ensures Needed(Elements(kept), s, headers)
    {
      assert s in Elements(Older(kept));
      PassIsMaximal(Older(ordered), Elements(ordered), headers, s);
    }
    NothingToDrop(Older(kept), Elements(kept), headers);
  }

  /** A run never takes a header below covers by two authors, nor below what it had. */
  lemma RunKeepsTwoAuthors(ordered: seq<Snapshot>, headers: set<Dot>, dot: Dot)
    requires Ascending(ordered) && dot in headers
    ensures
      var before := |Authors(Elements(ordered), dot)|;
      |Authors(Elements(Without(ordered, Elements(Drops(ordered, headers)))), dot)| >= if before < 2 then before else 2
  {
    KeptAfterRun(ordered, headers);
    OlderFacts(ordered);
    PassKeepsTwoAuthors(Older(ordered), Elements(ordered), headers, dot);
  }

  // ---------- the rules, read off the rows as they come ----------

  /** Exactly one row is newer: the older of the two newest. */
  ghost predicate OneAbove(rows: set<Snapshot>, s: Snapshot) {
    exists t :: t in rows && t.storeSeq > s.storeSeq && forall u :: u in rows && u.storeSeq > s.storeSeq ==> u == t
  }

  ghost predicate TwoAbove(rows: set<Snapshot>, s: Snapshot) {
    exists t, u :: t in rows && u in rows && t != u && t.storeSeq > s.storeSeq && u.storeSeq > s.storeSeq
  }

  ghost predicate TwoAuthorsCover(rows: set<Snapshot>, dot: Dot) {
    exists a, b :: a in rows && b in rows && a.author != b.author && Covers(a, dot) && Covers(b, dot)
  }

  /** R1, of rows in any order. */
  ghost predicate MayGo(rows: set<Snapshot>, dot: Dot) {
    (exists s :: s in rows && OneAbove(rows, s) && Covers(s, dot)) && TwoAuthorsCover(rows, dot)
  }

  /** Without this row some header loses one of at most two authors that cover it. */
  ghost predicate Needs(rows: set<Snapshot>, s: Snapshot, headers: set<Dot>) {
    exists dot :: dot in headers && Covers(s, dot) && !TwoAuthorsCover(rows - {s}, dot) &&
      forall t :: t in rows && t != s && Covers(t, dot) ==> t.author != s.author
  }

  /** The rows that are left when the turn comes to `s`. */
  function LeftFor(rows: set<Snapshot>, dropped: set<nat>, s: Snapshot): set<Snapshot> {
    set t | t in rows && !(t.storeSeq < s.storeSeq && t.storeSeq in dropped)
  }

  /** R3, of rows in any order: oldest first, a row that is not one of the two newest goes unless it is needed. */
  ghost predicate DropsThese(rows: set<Snapshot>, headers: set<Dot>, dropped: set<nat>) {
    (forall q :: q in dropped ==> exists s :: s in rows && s.storeSeq == q) &&
    forall s :: s in rows ==>
      (s.storeSeq in dropped <==> TwoAbove(rows, s) && !Needs(LeftFor(rows, dropped, s), s, headers))
  }

  lemma TwoAuthors(rows: set<Snapshot>, dot: Dot)
    ensures TwoAuthorsCover(rows, dot) <==> |Authors(rows, dot)| >= 2
  {
    var authors := Authors(rows, dot);
    if TwoAuthorsCover(rows, dot) {
      var a, b :| a in rows && b in rows && a.author != b.author && Covers(a, dot) && Covers(b, dot);
      SubsetSize({a.author, b.author}, authors);
    } else if authors != {} {
      var a :| a in authors;
      var s :| s in rows && Covers(s, dot) && s.author == a;
      forall b | b in authors
        ensures b == a
      {
        var t :| t in rows && Covers(t, dot) && t.author == b;
      }
      assert authors == {a};
    }
  }

  lemma AboveAt(ordered: seq<Snapshot>, i: nat, u: Snapshot)
    requires Ascending(ordered) && i < |ordered| && u in ordered && u.storeSeq > ordered[i].storeSeq
    ensures i + 1 < |ordered|
    ensures i == |ordered| - 2 ==> u == ordered[|ordered| - 1]
  {
    var j :| 0 <= j < |ordered| && ordered[j] == u;
    assert j > i;
  }

  lemma OneAboveAt(ordered: seq<Snapshot>, i: nat)
    requires Ascending(ordered) && i < |ordered|
    ensures OneAbove(Elements(ordered), ordered[i]) <==> i == |ordered| - 2
  {
    var n, rows, s := |ordered|, Elements(ordered), ordered[i];
    forall u | u in rows && u.storeSeq > s.storeSeq
      ensures i + 1 < n && (i == n - 2 ==> u == ordered[n - 1])
    {
      AboveAt(ordered, i, u);
    }
    if i == n - 2 {
      assert ordered[n - 1] in rows;
    } else if i < n - 2 {
      assert ordered[n - 2] in rows && ordered[n - 1] in rows && ordered[n - 2].storeSeq < ordered[n - 1].storeSeq;
    }
  }

  lemma TwoAboveAt(ordered: seq<Snapshot>, i: nat)
    requires Ascending(ordered) && i < |ordered|
    ensures TwoAbove(Elements(ordered), ordered[i]) <==> i + 2 < |ordered|
  {
    var n, rows, s := |ordered|, Elements(ordered), ordered[i];
    forall u | u in rows && u.storeSeq > s.storeSeq
      ensures i + 1 < n && (i == n - 2 ==> u == ordered[n - 1])
    {
      AboveAt(ordered, i, u);
    }
    if i + 2 < n {
      assert ordered[n - 2] in rows && ordered[n - 1] in rows && ordered[n - 2].storeSeq < ordered[n - 1].storeSeq;
    }
  }

  lemma OneAboveIs(ordered: seq<Snapshot>, s: Snapshot)
    requires Ascending(ordered) && s in ordered
    ensures OneAbove(Elements(ordered), s) <==> |ordered| >= 2 && s == ordered[|ordered| - 2]
  {
    var i :| 0 <= i < |ordered| && ordered[i] == s;
    OneAboveAt(ordered, i);
    hide OneAbove, Elements;
  }

  lemma TwoAboveIs(ordered: seq<Snapshot>, s: Snapshot)
    requires Ascending(ordered) && s in ordered
    ensures TwoAbove(Elements(ordered), s) <==> s in Older(ordered)
  {
    var i :| 0 <= i < |ordered| && ordered[i] == s;
    TwoAboveAt(ordered, i);
    hide TwoAbove, Elements;
    if i + 2 < |ordered| {
      assert Older(ordered)[i] == s;
    }
  }

  /** The bodies to delete, found by position in the sorted rows, are those R1 names. */
  lemma DeletableIs(ordered: seq<Snapshot>, dot: Dot)
    requires Ascending(ordered)
    ensures Deletable(ordered, dot) <==> MayGo(Elements(ordered), dot)
  {
    TwoAuthors(Elements(ordered), dot);
    forall s | s in ordered
      ensures OneAbove(Elements(ordered), s) <==> |ordered| >= 2 && s == ordered[|ordered| - 2]
    {
      OneAboveIs(ordered, s);
    }
    if |ordered| >= 2 {
      assert ordered[|ordered| - 2] in Elements(ordered);
    }
  }

  lemma NeedsIs(rows: set<Snapshot>, s: Snapshot, headers: set<Dot>)
    requires s in rows
    ensures Needed(rows, s, headers) <==> Needs(rows, s, headers)
  {
    forall dot | dot in headers && Covers(s, dot)
      ensures LowersBelowTwo(rows, s, dot) <==>
              !TwoAuthorsCover(rows - {s}, dot) &&
              forall t :: t in rows && t != s && Covers(t, dot) ==> t.author != s.author
    {
      TwoAuthors(rows - {s}, dot);
      OnlyItsAuthorGoes(rows, s, dot);
      if s.author in Authors(rows - {s}, dot) {
        var t :| t in rows - {s} && Covers(t, dot) && t.author == s.author;
      }
    }
  }

  predicate Earlier(dropped: seq<Snapshot>, s: Snapshot, t: Snapshot) {
    t in dropped && t.storeSeq < s.storeSeq
  }

  /** The pass, row by row: each is tested against what the drops before it leave. */
  lemma {:induction false} PassTestsEach(older: seq<Snapshot>, kept: set<Snapshot>, headers: set<Dot>, s: Snapshot)
    requires Ascending(older) && (forall x :: x in older ==> x in kept) && s in older
    ensures
      var dropped := SinglePass(older, kept, headers);
      s in dropped <==> !Needed((set t | t in kept && !Earlier(dropped, s, t)), s, headers)
    decreases |older|
  {
    RestIsKept(older, kept);
    var first, rest, dropped := older[0], older[1..], SinglePass(older, kept, headers);
    var left := if Needed(kept, first, headers) then kept else kept - {first};
    var tail := SinglePass(rest, left, headers);
    PassDropsOnlyOlder(rest, left, headers);
    assert forall x :: x in rest ==> exists i :: 0 < i < |older| && older[i] == x;
    if s == first {
      assert (set t | t in kept && !Earlier(dropped, s, t)) == kept;
    } else {
      PassTestsEach(rest, left, headers, s);
      assert (set t | t in left && !Earlier(tail, s, t)) == set t | t in kept && !Earlier(dropped, s, t);
    }
  }

  /** What the single pass drops is what R3 names. */
  lemma DropsAre(ordered: seq<Snapshot>, headers: set<Dot>, dropped: set<nat>)
    requires Ascending(ordered)
    requires dropped == set s | s in Drops(ordered, headers) :: s.storeSeq
    ensures DropsThese(Elements(ordered), headers, dropped)
  {
    var rows, drops := Elements(ordered), Drops(ordered, headers);
    OlderFacts(ordered);
    PassDropsOnlyOlder(Older(ordered), rows, headers);
    forall s | s in rows
      ensures s.storeSeq in dropped <==> TwoAbove(rows, s) && !Needs(LeftFor(rows, dropped, s), s, headers)
    {
      DropsThis(ordered, headers, dropped, s);
    }
  }

  lemma DropsThis(ordered: seq<Snapshot>, headers: set<Dot>, dropped: set<nat>, s: Snapshot)
    requires Ascending(ordered) && s in ordered
    requires dropped == set s | s in Drops(ordered, headers) :: s.storeSeq
    ensures s.storeSeq in dropped <==>
            TwoAbove(Elements(ordered), s) && !Needs(LeftFor(Elements(ordered), dropped, s), s, headers)
  {
    var rows, older, drops := Elements(ordered), Older(ordered), Drops(ordered, headers);
    BySequence(ordered, headers, dropped);
    TwoAboveIs(ordered, s);
    NeedsIs(LeftFor(rows, dropped, s), s, headers);
    assert LeftFor(rows, dropped, s) == set t | t in rows && !Earlier(drops, s, t);
    if s in older {
      OlderFacts(ordered);
      hide SinglePass, Needs, Needed, TwoAbove, OneAbove, LeftFor, Earlier;
      PassTestsEach(older, rows, headers, s);
    }
  }

  /** A row is dropped if and only if its number is. */
  lemma BySequence(ordered: seq<Snapshot>, headers: set<Dot>, dropped: set<nat>)
    requires Ascending(ordered)
    requires dropped == set s | s in Drops(ordered, headers) :: s.storeSeq
    ensures forall s :: s in Drops(ordered, headers) ==> s in ordered && s in Older(ordered)
    ensures forall t :: t in Elements(ordered) ==> (t.storeSeq in dropped <==> t in Drops(ordered, headers))
  {
    OlderFacts(ordered);
    PassDropsOnlyOlder(Older(ordered), Elements(ordered), headers);
    SameSequence(ordered);
    hide SinglePass;
  }

  lemma SameSequence(ordered: seq<Snapshot>)
    requires Ascending(ordered)
    ensures forall s, t :: s in ordered && t in ordered && s.storeSeq == t.storeSeq ==> s == t
  {
  }
}
