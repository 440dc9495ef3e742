/**
 The compaction algorithms in their imperative form (crates/rizzy-sync/src/compaction.rs): the sorted
 rows, the counts per header and author, the one pass of R3, and the covers of a response. Each is
 proved against the set-based rules of `Compaction`.
 */
module CompactionWorker {
  import opened Base
  import opened VersionVectors
  import opened Compaction

  // ---------- the rows, sorted and checked ----------

  function StoreSeqs(snapshots: seq<Snapshot>): (r: seq<nat>)
    ensures |r| == |snapshots| && forall i :: 0 <= i < |r| ==> r[i] == snapshots[i].storeSeq
  {
    seq(|snapshots|, i requires 0 <= i < |snapshots| => snapshots[i].storeSeq)
  }

  predicate Sorted(numbers: seq<nat>) {
    forall i, j :: 0 <= i < j < |numbers| ==> numbers[i] <= numbers[j]
  }

  lemma {:induction false} StrictlySortedOnce(numbers: seq<nat>, p: nat)
    requires forall i, j :: 0 <= i < j < |numbers| ==> numbers[i] < numbers[j]
    ensures multiset(numbers)[p] <= 1
  {
    if numbers == [] {
    } else {
      var rest := numbers[1..];
      assert numbers == [numbers[0]] + rest;
      assert forall i :: 0 <= i < |rest| ==> rest[i] == numbers[i + 1] && numbers[0] < rest[i];
      StrictlySortedOnce(rest, p);
      if p == numbers[0] {
        assert p !in rest;
        assert p !in multiset(rest);
      }
    }
  }

  /** In sorted numbers the first equal neighbours are the lowest number held twice. */
  lemma FirstRepeat(numbers: seq<nat>, i: nat)
    requires Sorted(numbers) && i + 1 < |numbers| && numbers[i] == numbers[i + 1]
    requires forall k :: 0 <= k < i ==> numbers[k] < numbers[k + 1]
    ensures multiset(numbers)[numbers[i]] >= 2
    ensures forall p: nat :: p < numbers[i] ==> multiset(numbers)[p] <= 1
  {
    assert numbers == numbers[..i] + [numbers[i], numbers[i + 1]] + numbers[i + 2..];
    forall p: nat | p < numbers[i]
      ensures multiset(numbers)[p] <= 1
    {
      LowerOnce(numbers, i, p);
    }
  }

  lemma LowerOnce(numbers: seq<nat>, i: nat, p: nat)
    requires Sorted(numbers) && i < |numbers| && p < numbers[i]
    requires forall k :: 0 <= k < i ==> numbers[k] < numbers[k + 1]
    ensures multiset(numbers)[p] <= 1
  {
    StrictlySorted(numbers, i);
    StrictlySortedOnce(numbers[..i], p);
    assert numbers == numbers[..i] + numbers[i..];
    assert p !in numbers[i..];
    assert p !in multiset(numbers[i..]);
  }

  lemma StrictlySorted(numbers: seq<nat>, n: nat)
    requires n < |numbers| && forall k :: 0 <= k < n ==> numbers[k] < numbers[k + 1]
    ensures forall i, j :: 0 <= i < j <= n ==> numbers[i] < numbers[j]
  {
    if n > 0 {
      StrictlySorted(numbers, n - 1);
      assert numbers[n - 1] < numbers[n - 1 + 1];
    }
  }

  lemma InsertKeepsSorted(numbers: seq<nat>, i: nat, x: nat)
    requires Sorted(numbers) && i <= |numbers|
    requires i > 0 ==> numbers[i - 1] <= x
    requires i < |numbers| ==> x <= numbers[i]
    ensures Sorted(numbers[..i] + [x] + numbers[i..])
  {
    var r := numbers[..i] + [x] + numbers[i..];
    forall a, b | 0 <= a < b < |r|
      ensures r[a] <= r[b]
    {
      assert a < i ==> numbers[a] <= numbers[i - 1];
      assert b > i ==> numbers[i] <= numbers[b - 1];
    }
  }

  /** Puts a row behind every row that is not newer. */
  method InsertSorted(sorted: seq<Snapshot>, s: Snapshot) returns (r: seq<Snapshot>)
    requires Sorted(StoreSeqs(sorted))
    ensures Sorted(StoreSeqs(r)) && multiset(r) == multiset(sorted) + multiset{s}
    ensures multiset(StoreSeqs(r)) == multiset(StoreSeqs(sorted)) + multiset{s.storeSeq}
  {
    var i := |sorted|;
    while i > 0 && sorted[i - 1].storeSeq > s.storeSeq
      invariant 0 <= i <= |sorted|
      invariant forall j :: i <= j < |sorted| ==> sorted[j].storeSeq > s.storeSeq
    {
      i := i - 1;
    }
    r := sorted[..i] + [s] + sorted[i..];
    InsertedRows(sorted, i, s);
  }

  lemma InsertedRows(sorted: seq<Snapshot>, i: nat, s: Snapshot)
    requires Sorted(StoreSeqs(sorted)) && i <= |sorted|
    requires i > 0 ==> sorted[i - 1].storeSeq <= s.storeSeq
    requires i < |sorted| ==> s.storeSeq <= sorted[i].storeSeq
    ensures
      var r := sorted[..i] + [s] + sorted[i..];
      Sorted(StoreSeqs(r)) && multiset(r) == multiset(sorted) + multiset{s} &&
      multiset(StoreSeqs(r)) == multiset(StoreSeqs(sorted)) + multiset{s.storeSeq}
  {
    var r, numbers := sorted[..i] + [s] + sorted[i..], StoreSeqs(sorted);
    var inserted := numbers[..i] + [s.storeSeq] + numbers[i..];
    InsertedNumbers(sorted, i, s);
    InsertKeepsSorted(numbers, i, s.storeSeq);
    InsertMultiset(sorted, i, s);
    InsertMultiset(numbers, i, s.storeSeq);
  }

  lemma InsertedNumbers(sorted: seq<Snapshot>, i: nat, s: Snapshot)
    requires i <= |sorted|
    ensures StoreSeqs(sorted[..i] + [s] + sorted[i..]) ==
            StoreSeqs(sorted)[..i] + [s.storeSeq] + StoreSeqs(sorted)[i..]
  {
    var r, numbers := sorted[..i] + [s] + sorted[i..], StoreSeqs(sorted);
    var inserted := numbers[..i] + [s.storeSeq] + numbers[i..];
    forall k | 0 <= k < |r|
      ensures StoreSeqs(r)[k] == inserted[k]
    {
      assert k > i ==> r[k] == sorted[k - 1] && inserted[k] == numbers[k - 1];
    }
  }

  lemma InsertMultiset<T>(s: seq<T>, i: nat, x: T)
    requires i <= |s|
    ensures multiset(s[..i] + [x] + s[i..]) == multiset(s) + multiset{x}
  {
    assert s == s[..i] + s[i..];
  }

  /** `sort_by_key`: the rows in the order of their store sequences. */
  method SortByStoreSeq(snapshots: seq<Snapshot>) returns (sorted: seq<Snapshot>)
    ensures Sorted(StoreSeqs(sorted)) && multiset(sorted) == multiset(snapshots)
    ensures multiset(StoreSeqs(sorted)) == multiset(StoreSeqs(snapshots))
  {
    sorted := [];
    var i := 0;
    while i < |snapshots|
      invariant 0 <= i <= |snapshots| && Sorted(StoreSeqs(sorted))
      invariant multiset(sorted) == multiset(snapshots[..i])
      invariant multiset(StoreSeqs(sorted)) == multiset(StoreSeqs(snapshots)[..i])
    {
      sorted := InsertSorted(sorted, snapshots[i]);
      assert snapshots[..i + 1] == snapshots[..i] + [snapshots[i]];
      assert StoreSeqs(snapshots)[..i + 1] == StoreSeqs(snapshots)[..i] + [snapshots[i].storeSeq];
      i := i + 1;
    }
    assert snapshots[..i] == snapshots;
    assert StoreSeqs(snapshots)[..i] == StoreSeqs(snapshots);
  }

  /** The rows by store sequence, oldest first; the lowest store sequence given twice is the error. */
  method ByStoreSeq(snapshots: seq<Snapshot>) returns (r: Result<seq<Snapshot>, InputError>)
    ensures r.Ok? <==> forall q: nat :: multiset(StoreSeqs(snapshots))[q] <= 1
    ensures r.Ok? ==> Ascending(r.value) && Elements(r.value) == Elements(snapshots) && |r.value| == |snapshots|
    ensures r.Err? ==> r.error.DuplicateStoreSeq? && multiset(StoreSeqs(snapshots))[r.error.storeSeq] >= 2 &&
                       forall q: nat :: q < r.error.storeSeq ==> multiset(StoreSeqs(snapshots))[q] <= 1
  {
    var sorted := SortByStoreSeq(snapshots);
    ghost var numbers := StoreSeqs(sorted);
    var i := 0;
    while i + 1 < |sorted|
      invariant 0 <= i && (if |sorted| > 0 then i < |sorted| else i == 0)
      invariant forall k :: 0 <= k < i ==> numbers[k] < numbers[k + 1]
    {
      if sorted[i].storeSeq == sorted[i + 1].storeSeq {
        FirstRepeat(numbers, i);
        return Err(DuplicateStoreSeq(sorted[i].storeSeq));
      }
      i := i + 1;
    }
    NoRepeat(sorted, i);
    SameElements(sorted, snapshots);
    return Ok(sorted);
  }

  lemma NoRepeat(sorted: seq<Snapshot>, i: nat)
    requires sorted != [] ==> i == |sorted| - 1
    requires sorted != [] ==> forall k :: 0 <= k < i ==> StoreSeqs(sorted)[k] < StoreSeqs(sorted)[k + 1]
    ensures Ascending(sorted) && forall q: nat :: multiset(StoreSeqs(sorted))[q] <= 1
  {
    var numbers := StoreSeqs(sorted);
    if sorted != [] {
      StrictlySorted(numbers, i);
    }
    forall q: nat
      ensures multiset(numbers)[q] <= 1
    {
      StrictlySortedOnce(numbers, q);
    }
    assert forall k :: 0 <= k < |sorted| ==> sorted[k].storeSeq == numbers[k];
  }

  lemma SameElements<T>(a: seq<T>, b: seq<T>)
    requires multiset(a) == multiset(b)
    ensures Elements(a) == Elements(b) && |a| == |b|
  {
    assert forall x :: x in a <==> x in multiset(a);
    assert forall x :: x in b <==> x in multiset(b);
    assert |multiset(a)| == |a| && |multiset(b)| == |b|;
  }

  /** The op at `j` repeats the dot of an earlier one, and no op before it does. */
  predicate FirstRepeatedOp(ops: seq<OpDot>, j: nat) {
    j < |ops| && (exists i :: 0 <= i < j && ops[i].dot == ops[j].dot) &&
    forall i, k :: 0 <= i < k < j ==> ops[i].dot != ops[k].dot
  }

  /** The ops by dot; the first op whose dot was given before is the error. */
  method IndexOps(ops: seq<OpDot>) returns (r: Result<map<Dot, Body>, InputError>)
    ensures r.Ok? <==> forall i, j :: 0 <= i < j < |ops| ==> ops[i].dot != ops[j].dot
    ensures r.Ok? ==> (forall op :: op in ops ==> op.dot in r.value && r.value[op.dot] == op.body) &&
                      (forall dot :: dot in r.value ==> OpDot(dot, r.value[dot]) in ops)
    ensures r.Err? ==> exists j: nat :: FirstRepeatedOp(ops, j) && r.error == DuplicateOp(ops[j].dot)
  {
    var indexed: map<Dot, Body> := map[];
    var j: nat := 0;
    while j < |ops|
      invariant 0 <= j <= |ops|
      invariant forall i, k :: 0 <= i < k < j ==> ops[i].dot != ops[k].dot
      invariant forall i :: 0 <= i < j ==> ops[i].dot in indexed && indexed[ops[i].dot] == ops[i].body
      invariant forall dot :: dot in indexed ==> exists i :: 0 <= i < j && ops[i] == OpDot(dot, indexed[dot])
    {
      if ops[j].dot in indexed {
        assert FirstRepeatedOp(ops, j);
        return Err(DuplicateOp(ops[j].dot));
      }
      indexed := indexed[ops[j].dot := ops[j].body];
      assert ops[j] == OpDot(ops[j].dot, indexed[ops[j].dot]);
      j := j + 1;
    }
    return Ok(indexed);
  }

  lemma DotOrder(a: Dot, b: Dot, c: Dot)
    ensures a == b || DotBefore(a, b) || DotBefore(b, a)
    ensures DotBefore(a, b) && DotBefore(b, c) ==> DotBefore(a, c)
  {
  }

  lemma LowestExists(dots: set<Dot>) returns (low: Dot)
    requires dots != {}
    ensures low in dots && forall d :: d in dots ==> d == low || DotBefore(low, d)
  {
    low :| low in dots;
    var rest := dots - {low};
    if rest != {} {
      var other := LowestExists(rest);
      var first := low;
      if DotBefore(other, first) {
        low := other;
      }
      forall d | d in dots
        ensures d == low || DotBefore(low, d)
      {
        assert d == first || d in rest;
        assert d in rest ==> d == other || DotBefore(other, d);
        assert other != first;
        DotOrder(first, other, d);
      }
    } else {
      forall d | d in dots
        ensures d == low
      {
        assert d != low ==> d in rest;
      }
    }
  }

  /** The dots in the order of a sorted map. */
  method SortedDots(dots: set<Dot>) returns (r: seq<Dot>)
    ensures AscendingDots(r) && Elements(r) == dots
  {
    r := [];
    var left := dots;
    while left != {}
      invariant left <= dots && Elements(r) == dots - left && AscendingDots(r)
      invariant forall a, b :: a in r && b in left ==> DotBefore(a, b)
      decreases left
    {
      ghost var lowest := LowestExists(left);
      var low :| low in left && forall d :: d in left ==> d == low || DotBefore(low, d);
      ghost var before := r;
      assert forall a :: a in r ==> DotBefore(a, low);
      r := r + [low];
      left := left - {low};
      assert Elements(r) == Elements(before) + {low};
    }
  }

  lemma AppendAscending(r: seq<Dot>, dot: Dot)
    requires AscendingDots(r) && forall a :: a in r ==> DotBefore(a, dot)
    ensures AscendingDots(r + [dot])
  {
    assert forall i :: 0 <= i < |r| ==> r[i] in r;
  }

  // ---------- R1 ----------

  method CoverAuthors(ordered: seq<Snapshot>, dot: Dot) returns (authors: set<Device>)
    ensures authors == Authors(Elements(ordered), dot)
  {
    authors := {};
    var i := 0;
    while i < |ordered|
      invariant 0 <= i <= |ordered|
      invariant authors == Authors(Elements(ordered[..i]), dot)
    {
      assert ordered[..i + 1] == ordered[..i] + [ordered[i]];
      assert Elements(ordered[..i + 1]) == Elements(ordered[..i]) + {ordered[i]};
      OneMoreAuthor(Elements(ordered[..i]), ordered[i], dot);
      if Covers(ordered[i], dot) {
        authors := authors + {ordered[i].author};
      }
      i := i + 1;
    }
    assert ordered[..i] == ordered;
  }

  lemma OneMoreAuthor(snapshots: set<Snapshot>, s: Snapshot, dot: Dot)
    ensures Authors(snapshots + {s}, dot) == Authors(snapshots, dot) + if Covers(s, dot) then {s.author} else {}
  {
    forall a | a in Authors(snapshots, dot) + (if Covers(s, dot) then {s.author} else {})
      ensures a in Authors(snapshots + {s}, dot)
    {
      if a in Authors(snapshots, dot) {
        var t :| t in snapshots && Covers(t, dot) && t.author == a;
        assert t in snapshots + {s};
      } else {
        assert s in snapshots + {s};
      }
    }
  }

  /** R1: the held bodies to delete, ascending. */
  method R1Deletions(ordered: seq<Snapshot>, ops: map<Dot, Body>) returns (r: seq<Dot>)
    ensures AscendingDots(r) && Elements(r) == Deletions(ordered, ops)
  {
    r := [];
    if |ordered| < 2 {
      return;
    }
    var dots := SortedDots(ops.Keys);
    var i := 0;
    while i < |dots|
      invariant 0 <= i <= |dots| && AscendingDots(r)
      invariant forall d :: d in r <==> d in dots[..i] && d in Deletions(ordered, ops)
      invariant forall a, j :: a in r && i <= j < |dots| ==> DotBefore(a, dots[j])
    {
      var dot := dots[i];
      assert dot in Elements(dots);
      assert dots[..i + 1] == dots[..i] + [dot];
      var authors := CoverAuthors(ordered, dot);
      assert dot in Deletions(ordered, ops) <==> ops[dot].Held? && Deletable(ordered, dot);
      if ops[dot].Held? && Covers(ordered[|ordered| - 2], dot) && |authors| >= 2 {
        AppendAscending(r, dot);
        r := r + [dot];
      }
      i := i + 1;
    }
    assert dots[..i] == dots;
    forall dot | dot in Deletions(ordered, ops)
      ensures dot in Elements(dots)
    {
    }
  }

  // ---------- R3 ----------

  /** Per author, how many of the snapshots cover the header; authors without one are left out. */
  type Counts = map<Device, nat>

  ghost predicate Counted(counts: Counts, snapshots: set<Snapshot>, dot: Dot) {
    counts.Keys == Authors(snapshots, dot) && forall a :: a in counts ==> counts[a] == |CoversBy(snapshots, dot, a)|
  }

  /** The counts of every header some snapshot covers. */
  ghost predicate AllCounted(covers: map<Dot, Counts>, snapshots: set<Snapshot>, headers: set<Dot>) {
    (forall dot :: dot in covers ==> dot in headers && Counted(covers[dot], snapshots, dot)) &&
    forall dot :: dot in headers && dot !in covers ==> Authors(snapshots, dot) == {}
  }

  /** Without one cover of this author, fewer than two authors would be left. */
  function LowersCounts(counts: Counts, author: Device): bool {
    var with := |counts|;
    var without := if author in counts && counts[author] == 1 then with - 1 else with;
    without < 2 && without < with
  }

  lemma CoverOfAuthor(snapshots: set<Snapshot>, s: Snapshot, dot: Dot)
    requires s in snapshots && Covers(s, dot)
    ensures s.author in Authors(snapshots, dot) && s in CoversBy(snapshots, dot, s.author)
    ensures CoversBy(snapshots - {s}, dot, s.author) == CoversBy(snapshots, dot, s.author) - {s}
    ensures s.author in Authors(snapshots - {s}, dot) <==> CoversBy(snapshots - {s}, dot, s.author) != {}
    ensures forall a :: a != s.author ==> CoversBy(snapshots - {s}, dot, a) == CoversBy(snapshots, dot, a)
  {
    if s.author in Authors(snapshots - {s}, dot) {
      var t :| t in snapshots - {s} && Covers(t, dot) && t.author == s.author;
      assert t in CoversBy(snapshots - {s}, dot, s.author);
    } else {
      forall t | t in CoversBy(snapshots - {s}, dot, s.author)
        ensures t.author in Authors(snapshots - {s}, dot)
      {
      }
    }
  }

  /** The counts decide the rule. */
  lemma CountsDecide(counts: Counts, snapshots: set<Snapshot>, s: Snapshot, dot: Dot)
    requires Counted(counts, snapshots, dot) && s in snapshots && Covers(s, dot)
    ensures LowersCounts(counts, s.author) <==> LowersBelowTwo(snapshots, s, dot)
  {
    CoverOfAuthor(snapshots, s, dot);
    OnlyItsAuthorGoes(snapshots, s, dot);
    assert |counts| == |counts.Keys|;
    var mine := CoversBy(snapshots, dot, s.author);
    assert |mine - {s}| == |mine| - 1;
    assert |mine| == 1 <==> mine - {s} == {};
  }

  function OneLess(counts: Counts, author: Device): Counts {
    if author !in counts then counts
    else if counts[author] <= 1 then counts - {author}
    else counts[author := counts[author] - 1]
  }

  function OneMore(counts: Counts, author: Device): Counts {
    counts[author := 1 + if author in counts then counts[author] else 0]
  }

  lemma OneLessCounted(counts: Counts, snapshots: set<Snapshot>, s: Snapshot, dot: Dot)
    requires Counted(counts, snapshots, dot) && s in snapshots && Covers(s, dot)
    ensures Counted(OneLess(counts, s.author), snapshots - {s}, dot)
  {
    CoverOfAuthor(snapshots, s, dot);
    OnlyItsAuthorGoes(snapshots, s, dot);
    var mine := CoversBy(snapshots, dot, s.author);
    assert |mine - {s}| == |mine| - 1;
    assert |mine| == 1 <==> mine - {s} == {};
  }

  lemma OneMoreCover(snapshots: set<Snapshot>, s: Snapshot, dot: Dot, a: Device)
    requires s !in snapshots && Covers(s, dot)
    ensures |CoversBy(snapshots + {s}, dot, a)| == |CoversBy(snapshots, dot, a)| + if a == s.author then 1 else 0
    ensures a !in Authors(snapshots, dot) ==> CoversBy(snapshots, dot, a) == {}
  {
    var before, after := CoversBy(snapshots, dot, a), CoversBy(snapshots + {s}, dot, a);
    assert after == before + if a == s.author then {s} else {};
    forall t | t in before
      ensures a in Authors(snapshots, dot)
    {
      assert t in snapshots && Covers(t, dot) && t.author == a;
    }
  }

  lemma OneMoreCounted(counts: Counts, snapshots: set<Snapshot>, s: Snapshot, dot: Dot)
    requires Counted(counts, snapshots, dot) && s !in snapshots && Covers(s, dot)
    ensures Counted(OneMore(counts, s.author), snapshots + {s}, dot)
  {
    OneMoreAuthor(snapshots, s, dot);
    var after := OneMore(counts, s.author);
    assert after.Keys == counts.Keys + {s.author};
    forall a | a in after
      ensures after[a] == |CoversBy(snapshots + {s}, dot, a)|
    {
      OneMoreCover(snapshots, s, dot, a);
    }
  }

  lemma UncoveredCounts(counts: Counts, snapshots: set<Snapshot>, s: Snapshot, dot: Dot)
    requires !Covers(s, dot)
    ensures Counted(counts, snapshots, dot) <==> Counted(counts, snapshots + {s}, dot)
    ensures Counted(counts, snapshots, dot) <==> Counted(counts, snapshots - {s}, dot)
  {
    assert Authors(snapshots + {s}, dot) == Authors(snapshots, dot) == Authors(snapshots - {s}, dot);
    forall a
      ensures CoversBy(snapshots + {s}, dot, a) == CoversBy(snapshots, dot, a) == CoversBy(snapshots - {s}, dot, a)
    {
    }
  }

  lemma CountedOneFurther(counts: Counts, seen: set<Snapshot>, s: Snapshot, dot: Dot)
    requires s !in seen && Counted(counts, seen, dot)
    ensures Counted(if Covers(s, dot) then OneMore(counts, s.author) else counts, seen + {s}, dot)
  {
    if Covers(s, dot) {
      OneMoreCounted(counts, seen, s, dot);
    } else {
      UncoveredCounts(counts, seen, s, dot);
    }
  }

  lemma PrefixGrows<T>(s: seq<T>, i: nat)
    requires i < |s|
    ensures Elements(s[..i + 1]) == Elements(s[..i]) + {s[i]}
  {
    assert s[..i + 1] == s[..i] + [s[i]];
  }

  /** The counts of one header. */
  method CountCovers(ordered: seq<Snapshot>, dot: Dot) returns (counts: Counts)
    requires Ascending(ordered)
    ensures Counted(counts, Elements(ordered), dot)
  {
    counts := map[];
    ghost var seen: set<Snapshot> := {};
    var i := 0;
    while i < |ordered|
      invariant 0 <= i <= |ordered| && seen == Elements(ordered[..i]) && Counted(counts, seen, dot)
    {
      PrefixGrows(ordered, i);
      assert ordered[i] !in seen;
      CountedOneFurther(counts, seen, ordered[i], dot);
      if Covers(ordered[i], dot) {
        counts := OneMore(counts, ordered[i].author);
      }
      seen := seen + {ordered[i]};
      i := i + 1;
    }
    assert ordered[..i] == ordered;
  }

  method CountAll(ordered: seq<Snapshot>, headers: set<Dot>) returns (covers: map<Dot, Counts>)
    requires Ascending(ordered)
    ensures AllCounted(covers, Elements(ordered), headers)
  {
    covers := map[];
    var dots := SortedDots(headers);
    var i := 0;
    while i < |dots|
      invariant 0 <= i <= |dots|
      invariant AllCounted(covers, Elements(ordered), Elements(dots[..i]))
    {
      var dot := dots[i];
      assert dots[..i + 1] == dots[..i] + [dot];
      assert forall d :: d in dots[..i + 1] <==> d in dots[..i] || d == dot;
      var counts := CountCovers(ordered, dot);
      if counts != map[] {
        covers := covers[dot := counts];
      } else {
        assert counts.Keys == {};
      }
      i := i + 1;
    }
    assert dots[..i] == dots;
  }

  /** A snapshot was dropped: one less for its author at every header it covered. */
  method CountDrop(covers: map<Dot, Counts>, s: Snapshot, ghost snapshots: set<Snapshot>, ghost headers: set<Dot>)
    returns (after: map<Dot, Counts>)
    requires AllCounted(covers, snapshots, headers) && s in snapshots
    ensures AllCounted(after, snapshots - {s}, headers)
  {
    after := covers;
    var left := covers.Keys;
    while left != {}
      invariant left <= covers.Keys == after.Keys
      invariant forall dot :: dot in after ==>
                  after[dot] == if dot !in left && Covers(s, dot) then OneLess(covers[dot], s.author) else covers[dot]
      decreases left
    {
      var dot :| dot in left;
      if Covers(s, dot) {
        after := after[dot := OneLess(after[dot], s.author)];
      }
      left := left - {dot};
    }
    forall dot | dot in after
      ensures Counted(after[dot], snapshots - {s}, dot)
    {
      if Covers(s, dot) {
        OneLessCounted(covers[dot], snapshots, s, dot);
      } else {
        UncoveredCounts(covers[dot], snapshots, s, dot);
      }
    }
    forall dot | dot in headers && dot !in after
      ensures Authors(snapshots - {s}, dot) == {}
    {
      forall a | a in Authors(snapshots - {s}, dot)
        ensures a in Authors(snapshots, dot)
      {
      }
    }
  }

  lemma CountsFindNeeded(covers: map<Dot, Counts>, snapshots: set<Snapshot>, headers: set<Dot>, s: Snapshot)
    requires AllCounted(covers, snapshots, headers) && s in snapshots
    ensures (exists dot :: dot in covers && Covers(s, dot) && LowersCounts(covers[dot], s.author))
            <==> Needed(snapshots, s, headers)
  {
    forall dot | dot in covers && Covers(s, dot)
      ensures LowersCounts(covers[dot], s.author) <==> LowersBelowTwo(snapshots, s, dot)
    {
      CountsDecide(covers[dot], snapshots, s, dot);
    }
    forall dot | dot in headers && Covers(s, dot)
      ensures dot in covers
    {
      CoverOfAuthor(snapshots, s, dot);
    }
  }

  /** Tests one older snapshot, and takes it out of the counts when it is not needed. */
  method TestOne(covers: map<Dot, Counts>, s: Snapshot, ghost kept: set<Snapshot>, ghost headers: set<Dot>)
    returns (needed: bool, after: map<Dot, Counts>)
    requires AllCounted(covers, kept, headers) && s in kept
    ensures needed <==> Needed(kept, s, headers)
    ensures AllCounted(after, if needed then kept else kept - {s}, headers)
  {
    CountsFindNeeded(covers, kept, headers, s);
    needed := exists dot :: dot in covers && Covers(s, dot) && LowersCounts(covers[dot], s.author);
    after := covers;
    if !needed {
      after := CountDrop(covers, s, kept, headers);
    }
  }

  /** R3 over counts instead of sets: what the single pass drops, by store sequence. */
  method R3Drops(ordered: seq<Snapshot>, headers: set<Dot>) returns (dropped: seq<nat>)
    requires Ascending(ordered)
    ensures dropped == StoreSeqs(Drops(ordered, headers))
  {
    dropped := [];
    if |ordered| < 2 {
      return;
    }
    var older := ordered[..|ordered| - 2];
    var covers := CountAll(ordered, headers);
    ghost var kept := Elements(ordered);
    var i := 0;
    while i < |older|
      invariant 0 <= i <= |older| && AllCounted(covers, kept, headers)
      invariant forall j :: i <= j < |older| ==> older[j] in kept
      invariant dropped + StoreSeqs(SinglePass(older[i..], kept, headers)) == StoreSeqs(Drops(ordered, headers))
    {
      PassOneFurther(older, i, kept, headers);
      var needed;
      needed, covers := TestOne(covers, older[i], kept, headers);
      if !needed {
        dropped := dropped + [older[i].storeSeq];
        kept := kept - {older[i]};
      }
      i := i + 1;
    }
  }

  lemma PassOneFurther(older: seq<Snapshot>, i: nat, kept: set<Snapshot>, headers: set<Dot>)
    requires Ascending(older) && i < |older|
    ensures
      var s, rest := older[i], older[i + 1..];
      StoreSeqs(SinglePass(older[i..], kept, headers)) ==
      if Needed(kept, s, headers) then StoreSeqs(SinglePass(rest, kept, headers))
      else [s.storeSeq] + StoreSeqs(SinglePass(rest, kept - {s}, headers))
    ensures forall j :: i < j < |older| ==> older[j] != older[i]
  {
    var s, rest := older[i], older[i + 1..];
    assert older[i..] == [s] + rest;
    var tail := SinglePass(rest, kept - {s}, headers);
    assert StoreSeqs([s] + tail) == [s.storeSeq] + StoreSeqs(tail);
  }

  // ---------- one worker run ----------

  /** The ops are the rows of the index, one for each dot. */
  predicate Indexed(ops: seq<OpDot>, index: map<Dot, Body>) {
    (forall op :: op in ops ==> op.dot in index && index[op.dot] == op.body) &&
    (forall dot :: dot in index ==> OpDot(dot, index[dot]) in ops)
  }

  /** The rows are inconsistent: a store sequence given twice, or else a dot. */
  ghost predicate Inconsistent(snapshots: seq<Snapshot>, ops: seq<OpDot>, e: InputError) {
    match e
    case DuplicateStoreSeq(q) =>
      multiset(StoreSeqs(snapshots))[q] >= 2 && forall p: nat :: p < q ==> multiset(StoreSeqs(snapshots))[p] <= 1
    case DuplicateOp(dot) =>
      (forall p: nat :: multiset(StoreSeqs(snapshots))[p] <= 1) &&
      exists j: nat :: FirstRepeatedOp(ops, j) && ops[j].dot == dot
  }

  /** R1 over the current rows, then R3 over its result. */
  method PlanWorker(snapshots: seq<Snapshot>, ops: seq<OpDot>)
    returns (r: Result<WorkerPlan, InputError>, ghost ordered: seq<Snapshot>, ghost index: map<Dot, Body>)
    ensures r.Ok? <==> (forall q: nat :: multiset(StoreSeqs(snapshots))[q] <= 1) &&
                       (forall i, j :: 0 <= i < j < |ops| ==> ops[i].dot != ops[j].dot)
    ensures r.Err? ==> Inconsistent(snapshots, ops, r.error)
    ensures r.Ok? ==> Ascending(ordered) && Elements(ordered) == Elements(snapshots) && Indexed(ops, index)
    ensures r.Ok? ==> AscendingDots(r.value.deleteBodies) && Elements(r.value.deleteBodies) == Deletions(ordered, index)
    ensures r.Ok? ==> r.value.dropSnapshots ==
                      StoreSeqs(Drops(ordered, Bodiless(WithoutBodies(index, Deletions(ordered, index)))))
    ensures r.Ok? ==> forall dot :: dot in r.value.deleteBodies <==>
                                    OpDot(dot, Held) in ops && MayGo(Elements(snapshots), dot)
    ensures r.Ok? ==> DropsThese(Elements(snapshots), BodilessAfter(ops, r.value.deleteBodies),
                                 Elements(r.value.dropSnapshots))
    ensures r.Ok? ==> forall i, j :: 0 <= i < j < |r.value.dropSnapshots| ==>
                                     r.value.dropSnapshots[i] < r.value.dropSnapshots[j]
  {
    ordered, index := [], map[];
    var rows := ByStoreSeq(snapshots);
    if rows.Err? {
      return Err(rows.error), ordered, index;
    }
    var byDot := IndexOps(ops);
    if byDot.Err? {
      return Err(byDot.error), ordered, index;
    }
    ordered, index := rows.value, byDot.value;
    var deleted := R1Deletions(rows.value, byDot.value);
    var bodiless := Bodiless(byDot.value) + set dot | dot in deleted;
    assert bodiless == Bodiless(WithoutBodies(index, Deletions(ordered, index)));
    var dropped := R3Drops(rows.value, bodiless);
    r := Ok(WorkerPlan(deleted, dropped));
    PlanFits(snapshots, ops, ordered, index, deleted, dropped);
  }

  /** The headers without a body once these bodies are gone. */
  function BodilessAfter(ops: seq<OpDot>, deleted: seq<Dot>): set<Dot> {
    set op | op in ops && (op.body.Absent? || op.dot in deleted) :: op.dot
  }

  /** The plan, read off the rows as they were given. */
  lemma PlanFits(snapshots: seq<Snapshot>, ops: seq<OpDot>, ordered: seq<Snapshot>, index: map<Dot, Body>,
                 deleted: seq<Dot>, dropped: seq<nat>)
    requires Ascending(ordered) && Elements(ordered) == Elements(snapshots) && Indexed(ops, index)
    requires Elements(deleted) == Deletions(ordered, index)
    requires dropped == StoreSeqs(Drops(ordered, Bodiless(WithoutBodies(index, Deletions(ordered, index)))))
    ensures forall dot :: dot in deleted <==> OpDot(dot, Held) in ops && MayGo(Elements(snapshots), dot)
    ensures DropsThese(Elements(snapshots), BodilessAfter(ops, deleted), Elements(dropped))
    ensures forall i, j :: 0 <= i < j < |dropped| ==> dropped[i] < dropped[j]
  {
    var headers := Bodiless(WithoutBodies(index, Deletions(ordered, index)));
    var drops := Drops(ordered, headers);
    forall dot
      ensures dot in deleted <==> OpDot(dot, Held) in ops && MayGo(Elements(snapshots), dot)
    {
      assert dot in deleted <==> dot in Elements(deleted);
      DeletableIs(ordered, dot);
    }
    assert headers == BodilessAfter(ops, deleted) by {
      assert forall dot :: dot in deleted <==> dot in Elements(deleted);
    }
    OlderFacts(ordered);
    PassDropsOnlyOlder(Older(ordered), Elements(ordered), headers);
    hide MayGo, Deletable, SinglePass, DropsThese;
    assert Elements(dropped) == set s | s in drops :: s.storeSeq by {
      forall s | s in drops
        ensures s.storeSeq in dropped
      {
        var i :| 0 <= i < |drops| && drops[i] == s;
        assert dropped[i] == s.storeSeq;
      }
    }
    DropsAre(ordered, headers, Elements(dropped));
  }

  // ---------- the covers of a response ----------

  predicate Descending(snapshots: seq<Snapshot>) {
    forall i, j :: 0 <= i < j < |snapshots| ==> snapshots[i].storeSeq > snapshots[j].storeSeq
  }

  /** Some header has covers by fewer than two authors among `served`, and not one by this author. */
  predicate Adds(served: set<Snapshot>, s: Snapshot, headers: set<Dot>) {
    exists dot :: dot in headers && Covers(s, dot) && |Authors(served, dot)| < 2 && s.author !in Authors(served, dot)
  }

  function AtMostTwo(n: nat): nat {
    if n < 2 then n else 2
  }

  /** Each header has covers by two authors, or by every author there is one of. */
  predicate WellCovered(served: set<Snapshot>, snapshots: set<Snapshot>, headers: set<Dot>) {
    forall dot :: dot in headers ==> |Authors(served, dot)| >= AtMostTwo(|Authors(snapshots, dot)|)
  }

  /** What is noted of the covers so far. */
  predicate Noted(authors: map<Dot, set<Device>>, served: set<Snapshot>, headers: set<Dot>) {
    (forall dot :: dot in authors ==> dot in headers && authors[dot] == Authors(served, dot) && authors[dot] != {}) &&
    (forall dot :: dot in headers && dot !in authors ==> Authors(served, dot) == {})
  }

  lemma SkippedAddsNothing(served: set<Snapshot>, seen: set<Snapshot>, s: Snapshot, headers: set<Dot>)
    requires served <= seen && WellCovered(served, seen, headers) && !Adds(served, s, headers)
    ensures WellCovered(served, seen + {s}, headers)
  {
    forall dot | dot in headers
      ensures |Authors(served, dot)| >= AtMostTwo(|Authors(seen + {s}, dot)|)
    {
      OneMoreAuthor(seen, s, dot);
      forall a | a in Authors(served, dot)
        ensures a in Authors(seen, dot)
      {
      }
      SubsetSize(Authors(served, dot), Authors(seen, dot));
      if Covers(s, dot) && |Authors(served, dot)| < 2 {
        assert s.author in Authors(seen, dot);
        assert Authors(seen, dot) + {s.author} == Authors(seen, dot);
      }
    }
  }

  lemma AddedCovers(served: set<Snapshot>, seen: set<Snapshot>, s: Snapshot, headers: set<Dot>)
    requires served <= seen && WellCovered(served, seen, headers)
    ensures WellCovered(served + {s}, seen + {s}, headers)
  {
    forall dot | dot in headers
      ensures |Authors(served + {s}, dot)| >= AtMostTwo(|Authors(seen + {s}, dot)|)
    {
      OneMoreAuthor(seen, s, dot);
      OneMoreAuthor(served, s, dot);
      forall a | a in Authors(served, dot)
        ensures a in Authors(seen, dot)
      {
      }
      AuthorsGrow(Authors(served, dot), Authors(seen, dot), s.author);
    }
  }

  lemma AuthorsGrow(a: set<Device>, b: set<Device>, x: Device)
    requires a <= b && |a| >= AtMostTwo(|b|)
    ensures |a + {x}| >= AtMostTwo(|b + {x}|)
  {
    SubsetSize(a, b);
    SubsetSize(a, a + {x});
    if |a| < 2 {
      SubsetEqual(a, b);
    }
  }

  lemma SubsetEqual<T>(a: set<T>, b: set<T>)
    requires a <= b && |a| == |b|
    ensures a == b
  {
    if a != b {
      var x :| x in b && x !in a;
      SubsetSize(a, b - {x});
    }
  }

  /** Notes one served snapshot at every header it covers. */
  method NoteServed(authors: map<Dot, set<Device>>, s: Snapshot, headers: set<Dot>, ghost served: set<Snapshot>)
    returns (after: map<Dot, set<Device>>)
    requires Noted(authors, served, headers)
    ensures Noted(after, served + {s}, headers)
  {
    after := authors;
    var left := headers;
    while left != {}
      invariant left <= headers && after.Keys <= headers
      invariant forall dot :: dot in headers && dot !in left && Covers(s, dot) ==>
                  dot in after && after[dot] == (if dot in authors then authors[dot] else {}) + {s.author}
      invariant forall dot :: dot in headers && (dot in left || !Covers(s, dot)) ==>
                  (dot in after <==> dot in authors) && (dot in after ==> after[dot] == authors[dot])
      decreases left
    {
      var dot :| dot in left;
      if Covers(s, dot) {
        after := after[dot := (if dot in after then after[dot] else {}) + {s.author}];
      }
      left := left - {dot};
    }
    forall dot | dot in headers
      ensures Authors(served + {s}, dot) == Authors(served, dot) + if Covers(s, dot) then {s.author} else {}
    {
      OneMoreAuthor(served, s, dot);
    }
  }

  /** Whether a snapshot is to be served, from what is noted of the newer ones. */
  method AddsCover(authors: map<Dot, set<Device>>, s: Snapshot, headers: set<Dot>, ghost served: set<Snapshot>)
    returns (adds: bool)
    requires Noted(authors, served, headers)
    ensures adds <==> Adds(served, s, headers)
  {
    adds := exists dot :: dot in headers && Covers(s, dot) &&
                          (dot !in authors || (|authors[dot]| == 1 && s.author !in authors[dot]));
    forall dot | dot in headers
      ensures (dot !in authors || (|authors[dot]| == 1 && s.author !in authors[dot])) <==>
              |Authors(served, dot)| < 2 && s.author !in Authors(served, dot)
    {
      if dot in authors && |authors[dot]| < 2 {
        assert |authors[dot]| != 0;
      }
    }
  }

  /** The covers of the bodiless headers, newest first, and the headers nothing covers. */
  method SelectCovers(snapshots: seq<Snapshot>, bodiless: seq<Dot>)
    returns (r: Result<CoverSelection, InputError>, ghost served: seq<Snapshot>)
    ensures r.Ok? <==> forall q: nat :: multiset(StoreSeqs(snapshots))[q] <= 1
    ensures r.Err? ==> Inconsistent(snapshots, [], r.error)
    ensures r.Ok? ==>
              r.value.covers == StoreSeqs(served) && Descending(served) && Elements(served) <= Elements(snapshots)
    ensures r.Ok? ==> WellCovered(Elements(served), Elements(snapshots), Elements(bodiless))
    ensures r.Ok? ==> forall i :: 0 <= i < |served| ==> Adds(Elements(served[..i]), served[i], Elements(bodiless))
    ensures r.Ok? ==> AscendingDots(r.value.uncovered) &&
                      forall dot :: dot in r.value.uncovered <==>
                                    dot in bodiless && forall s :: s in snapshots ==> !Covers(s, dot)
  {
    served := [];
    var rows := ByStoreSeq(snapshots);
    if rows.Err? {
      return Err(rows.error), served;
    }
    var ordered, headers := rows.value, set dot | dot in bodiless;
    assert headers == Elements(bodiless);
    var authors: map<Dot, set<Device>> := map[];
    var covers: seq<nat> := [];
    var k := |ordered|;
    while k > 0
      invariant 0 <= k <= |ordered|
      invariant covers == StoreSeqs(served) && Descending(served) && Elements(served) <= Elements(ordered[k..])
      invariant Noted(authors, Elements(served), headers)
      invariant WellCovered(Elements(served), Elements(ordered[k..]), headers)
      invariant forall i :: 0 <= i < |served| ==> Adds(Elements(served[..i]), served[i], headers)
    {
      k := k - 1;
      var s := ordered[k];
      assert ordered[k..] == [s] + ordered[k + 1..];
      assert Elements(ordered[k..]) == Elements(ordered[k + 1..]) + {s};
      var adds := AddsCover(authors, s, headers, Elements(served));
      if adds {
        AddedCovers(Elements(served), Elements(ordered[k + 1..]), s, headers);
        authors := NoteServed(authors, s, headers, Elements(served));
        covers := covers + [s.storeSeq];
        forall i | 0 <= i < |served|
          ensures served[i].storeSeq > s.storeSeq
        {
          ServedAreNewer(served, ordered, k, i);
        }
        ServeOneMore(served, s, headers);
        served := served + [s];
      } else {
        SkippedAddsNothing(Elements(served), Elements(ordered[k + 1..]), s, headers);
      }
    }
    assert ordered[k..] == ordered;
    var uncovered := SortedDots(headers - authors.Keys);
    NothingNoted(authors, served, Elements(snapshots), headers);
    forall dot
      ensures dot in uncovered <==> dot in bodiless && forall s :: s in snapshots ==> !Covers(s, dot)
    {
      assert dot in uncovered <==> dot in Elements(uncovered);
      assert dot in bodiless <==> dot in headers;
      assert forall s :: s in snapshots <==> s in Elements(snapshots);
    }
    r := Ok(CoverSelection(covers, uncovered));
  }

  lemma ServedAreNewer(served: seq<Snapshot>, ordered: seq<Snapshot>, k: nat, i: nat)
    requires Ascending(ordered) && k < |ordered| && Elements(served) <= Elements(ordered[k + 1..]) && i < |served|
    ensures served[i].storeSeq > ordered[k].storeSeq
  {
    assert served[i] in Elements(served);
    var j :| 0 <= j < |ordered[k + 1..]| && ordered[k + 1..][j] == served[i];
    assert ordered[k + 1 + j] == served[i];
  }

  lemma ServeOneMore(served: seq<Snapshot>, s: Snapshot, headers: set<Dot>)
    requires Descending(served) && Adds(Elements(served), s, headers)
    requires forall i :: 0 <= i < |served| ==> served[i].storeSeq > s.storeSeq
    requires forall i :: 0 <= i < |served| ==> Adds(Elements(served[..i]), served[i], headers)
    ensures
      var more := served + [s];
      Descending(more) && StoreSeqs(more) == StoreSeqs(served) + [s.storeSeq] &&
      Elements(more) == Elements(served) + {s} &&
      forall i :: 0 <= i < |more| ==> Adds(Elements(more[..i]), more[i], headers)
  {
    var more := served + [s];
    forall i | 0 <= i < |more|
      ensures Adds(Elements(more[..i]), more[i], headers)
    {
      AppendedPrefix(served, s, i);
    }
    AppendedElements(served, s);
    AppendedDescends(served, s);
  }

  lemma AppendedPrefix(served: seq<Snapshot>, s: Snapshot, i: nat)
    requires i <= |served|
    ensures Elements((served + [s])[..i]) == Elements(if i < |served| then served[..i] else served)
  {
    assert (served + [s])[..i] == if i < |served| then served[..i] else served;
  }

  lemma AppendedDescends(served: seq<Snapshot>, s: Snapshot)
    requires Descending(served) && forall i :: 0 <= i < |served| ==> served[i].storeSeq > s.storeSeq
    ensures Descending(served + [s])
  {
  }

  lemma AppendedElements(served: seq<Snapshot>, s: Snapshot)
    ensures Elements(served + [s]) == Elements(served) + {s}
    ensures StoreSeqs(served + [s]) == StoreSeqs(served) + [s.storeSeq]
  {
    assert forall x :: x in served + [s] <==> x in served || x == s;
  }

  /** A header without a noted author is a header no snapshot covers. */
  lemma NothingNoted(authors: map<Dot, set<Device>>, served: seq<Snapshot>, snapshots: set<Snapshot>, headers: set<Dot>)
    requires Noted(authors, Elements(served), headers) && Elements(served) <= snapshots
    requires WellCovered(Elements(served), snapshots, headers)
    ensures forall dot :: dot in headers ==> (dot !in authors <==> forall s :: s in snapshots ==> !Covers(s, dot))
  {
    forall dot | dot in headers
      ensures dot !in authors <==> forall s :: s in snapshots ==> !Covers(s, dot)
    {
      if dot in authors {
        var a :| a in authors[dot];
        var t :| t in Elements(served) && Covers(t, dot) && t.author == a;
        assert t in snapshots;
      } else {
        assert |Authors(snapshots, dot)| == 0;
        forall s | s in snapshots
          ensures !Covers(s, dot)
        {
          assert Covers(s, dot) ==> s.author in Authors(snapshots, dot);
        }
      }
    }
  }
}
