/**
 The first pass of the chain check (crates/rizzy-sync/src/causal.rs): which covers are needed, and
 how far they may be taken. Main results: `PlanAgrees`, a client that absorbs every cover the plan names then
 accepts exactly the links the plan counted; `StaysWithinHeads`, nothing is then settled past a head.
 */
module CoverPlans {
  import opened VersionVectors
  import opened CausalLog
  import opened ChainCheck
  import opened ChainCommit

  /** `absorb` and `refused` are indices into the served covers. */
  datatype CoverPlan = CoverPlan(absorb: seq<nat>, links: seq<Dot>, cut: VersionVector, refused: seq<nat>)

  /** A cover that claims its own author's ops past the author's cut-off. */
  predicate ClaimsPastCut(cutoffs: map<Device, nat>, c: Cover) {
    c.author in cutoffs && Get(c.covered, c.author) > cutoffs[c.author]
  }

  predicate CountsCover(cutoffs: map<Device, nat>, vault: Vault, c: Cover) {
    c.vault == vault && !ClaimsPastCut(cutoffs, c)
  }

  function Counting(cutoffs: map<Device, nat>, vault: Vault, covers: seq<Cover>): seq<Cover> {
    if covers == [] then []
    else
      var before, c := Counting(cutoffs, vault, covers[..|covers| - 1]), covers[|covers| - 1];
      if CountsCover(cutoffs, vault, c) then before + [c] else before
  }

  lemma {:induction false} CountingFacts(cutoffs: map<Device, nat>, vault: Vault, covers: seq<Cover>, c: Cover)
    ensures c in Counting(cutoffs, vault, covers) <==> c in covers && CountsCover(cutoffs, vault, c)
  {
    if covers != [] {
      CountingFacts(cutoffs, vault, covers[..|covers| - 1], c);
      assert covers == covers[..|covers| - 1] + [covers[|covers| - 1]];
    }
  }

  /** Every chain's head, as a vector. */
  function HeadVector(heads: map<Device, nat>): VersionVector {
    map d | d in heads && heads[d] > 0 :: heads[d]
  }

  /** The links that pass the first pass, device by device. */
  function PlanLinks(b: Book, counting: seq<Cover>, groups: seq<Group>): seq<Dot> {
    if groups == [] then [] else Dots(AcceptedOf(b, counting, groups[0])) + PlanLinks(b, counting, groups[1..])
  }

  /** A header that the first pass counted, as a new link or a rejected one served again. */
  predicate CountedIn(b: Book, counting: seq<Cover>, g: Group, op: Served) {
    var w := WalkOf(b, counting, g);
    op in w.accepted || (op in w.reserved && Counts(b.items, counting, op.header))
  }

  /** A cover to absorb: it counts, and it covers a header that needs one. */
  ghost predicate ToAbsorb(b: Book, vault: Vault, counting: seq<Cover>, groups: seq<Group>, c: Cover) {
    && CountsCover(b.cutoffs, vault, c)
    && exists g, op: Served :: g in groups && NeedsCover(op.body) && CountedIn(b, counting, g, op) &&
        CoversHeader(c, op.header)
  }

  predicate Increasing(s: seq<nat>) {
    forall i, j | 0 <= i < j < |s| :: s[i] < s[j]
  }

  /** The cut: per device the head, or the last link that passed, whichever is higher. */
  ghost predicate CutIs(heads: map<Device, nat>, links: seq<Dot>, cut: VersionVector) {
    && (forall d :: Entry(heads, d) <= Get(cut, d))
    && (forall dot | dot in links :: CoversDot(cut, dot))
    && (forall d :: Get(cut, d) == Entry(heads, d) || Dot(d, Get(cut, d)) in links)
  }

  ghost predicate PlanFits(b: Book, vault: Vault, groups: seq<Group>, covers: seq<Cover>, plan: CoverPlan) {
    var counting := Counting(b.cutoffs, vault, covers);
    && plan.links == PlanLinks(b, counting, groups)
    && CutIs(b.heads, plan.links, plan.cut)
    && Increasing(plan.absorb) && Increasing(plan.refused)
    && (forall i :: i in plan.absorb <==> 0 <= i < |covers| && ToAbsorb(b, vault, counting, groups, covers[i]))
    && (forall i :: i in plan.refused
                    <==> 0 <= i < |covers| && covers[i].vault == vault && ClaimsPastCut(b.cutoffs, covers[i]))
  }

  // ---------- the absorptions ----------

  predicate AreIndices(absorbed: seq<nat>, covers: seq<Cover>) {
    forall k | 0 <= k < |absorbed| :: absorbed[k] < |covers|
  }

  /** The covers a client absorbs, one after the other, each cut to the plan's cut. */
  function AbsorbAll(b: Book, covers: seq<Cover>, cut: VersionVector, absorbed: seq<nat>): Book
    requires AreIndices(absorbed, covers)
  {
    if absorbed == [] then b
    else
      var c := covers[absorbed[|absorbed| - 1]];
      Absorbed(AbsorbAll(b, covers, cut, absorbed[..|absorbed| - 1]), c.item, Meet(c.covered, cut))
  }

  /** A cover absorbed brings what the cut leaves of it, of its item only. */
  predicate Brought(c: Cover, cut: VersionVector, item: Item, d: Device, number: nat) {
    c.item == item && number <= Get(Meet(c.covered, cut), d)
  }

  lemma {:induction false} AbsorbAllFacts(b: Book, covers: seq<Cover>, cut: VersionVector, absorbed: seq<nat>,
                                          item: Item, d: Device)
    requires AreIndices(absorbed, covers)
    ensures var b' := AbsorbAll(b, covers, cut, absorbed);
            var reached := Get(SettledOf(b'.items, item), d);
            && b'.heads == b.heads && b'.links == b.links && b'.cutoffs == b.cutoffs
            && Get(SettledOf(b.items, item), d) <= reached
            && (forall i | i in absorbed && covers[i].item == item :: Get(Meet(covers[i].covered, cut), d) <= reached)
            && (reached == Get(SettledOf(b.items, item), d)
                || exists i | i in absorbed :: Brought(covers[i], cut, item, d, reached))
  {
    if absorbed != [] {
      var before, last := absorbed[..|absorbed| - 1], absorbed[|absorbed| - 1];
      AbsorbAllFacts(b, covers, cut, before, item, d);
      JoinBrings(AbsorbAll(b, covers, cut, before).items, covers[last].item, Meet(covers[last].covered, cut), item, d);
      assert absorbed == before + [last];
      var reached := Get(SettledOf(AbsorbAll(b, covers, cut, before).items, item), d);
      if reached != Get(SettledOf(b.items, item), d) {
        var i :| i in before && Brought(covers[i], cut, item, d, reached);
        assert i in absorbed;
      }
      assert last in absorbed;
    }
  }

  // ---------- both passes accept the same ----------

  lemma {:induction false} WalkGrows(b: Book, counting: seq<Cover>, served: seq<Served>, w: Walk)
    ensures w.accepted <= WalkFrom(b, counting, served, w).accepted
    decreases |served|
  {
    if served != [] {
      match Judge(b, counting, served[0], w.prev, w.accepted)
      case Reserve => WalkGrows(b, counting, served[1..], w.(reserved := w.reserved + [served[0]]));
      case Skip(report) => WalkGrows(b, counting, served[1..], w.(reports := w.reports + [report]));
      case Stop(reports) =>
      case Take(reports) =>
        WalkGrows(b, counting, served[1..],
                  Walk(w.accepted + [served[0]], w.reserved, w.reports + reports, served[0].header.dot.number));
    }
  }

  /** A second walk counts no header the first would not, and all those without a body that the first took. */
  ghost predicate CountsAlike(b: Book, counting: seq<Cover>, b': Book, counting': seq<Cover>, taken: seq<Served>) {
    && b'.cutoffs == b.cutoffs
    && (forall h :: Counts(b'.items, counting', h) ==> Counts(b.items, counting, h))
    && (forall op | op in taken && NeedsCover(op.body) :: Counts(b'.items, counting', op.header))
  }

  lemma {:induction false} WalksAlike(b: Book, counting: seq<Cover>, b': Book, counting': seq<Cover>,
                                      served: seq<Served>,
                                      w: Walk, w': Walk)
    requires w'.accepted == w.accepted && w'.prev == w.prev
    requires CountsAlike(b, counting, b', counting', WalkFrom(b, counting, served, w).accepted)
    ensures WalkFrom(b', counting', served, w').accepted == WalkFrom(b, counting, served, w).accepted
    decreases |served|
  {
    if served != [] {
      var op := served[0];
      var verdict, verdict' := Judge(b, counting, op, w.prev, w.accepted),
          Judge(b', counting', op, w'.prev, w'.accepted);
      if op.header.dot.number <= w.prev {
        var next := if verdict.Reserve? then w.(reserved := w.reserved + [op])
            else w.(reports := w.reports + [verdict.report]);
        var next' := if verdict'.Reserve? then w'.(reserved := w'.reserved + [op])
            else w'.(reports := w'.reports + [verdict'.report]);
        WalksAlike(b, counting, b', counting', served[1..], next, next');
      } else if verdict.Take? {
        var next := Walk(w.accepted + [op], w.reserved, w.reports + verdict.reports, op.header.dot.number);
        WalkGrows(b, counting, served[1..], next);
        assert op in next.accepted;
        assert verdict'.Take?;
        WalksAlike(b, counting, b', counting', served[1..], next,
                   Walk(w'.accepted + [op], w'.reserved, w'.reports + verdict'.reports, op.header.dot.number));
      } else {
        assert verdict'.Stop?;
      }
    }
  }

  lemma {:induction false} PlannedIn(b: Book, counting: seq<Cover>, groups: seq<Group>, g: Group, op: Served)
    requires g in groups && op in AcceptedOf(b, counting, g)
    ensures op.header.dot in PlanLinks(b, counting, groups)
  {
    if groups[0] == g {
      var i :| 0 <= i < |AcceptedOf(b, counting, g)| && AcceptedOf(b, counting, g)[i] == op;
      assert Dots(AcceptedOf(b, counting, g))[i] == op.header.dot;
    } else {
      PlannedIn(b, counting, groups[1..], g, op);
    }
  }

  lemma CountedAccepted(b: Book, counting: seq<Cover>, g: Group, op: Served)
    requires op in AcceptedOf(b, counting, g)
    ensures CountedIn(b, counting, g, op)
  {
  }

  /** Once the covers the plan names are absorbed, what counted in the first pass counts in the second. */
  lemma CountsOnceAbsorbed(b: Book, vault: Vault, groups: seq<Group>, covers: seq<Cover>, plan: CoverPlan, g: Group,
                           op: Served)
    requires PlanFits(b, vault, groups, covers, plan) && AreIndices(plan.absorb, covers)
    requires g in groups && NeedsCover(op.body)
    requires op in AcceptedOf(b, Counting(b.cutoffs, vault, covers), g)
    requires Counts(b.items, Counting(b.cutoffs, vault, covers), op.header)
    ensures Covered(AbsorbAll(b, covers, plan.cut, plan.absorb).items, op.header)
  {
    hide WalkFrom, Judge, AbsorbAll, Counting, PlanLinks, AcceptedOf;
    var counting, h := Counting(b.cutoffs, vault, covers), op.header;
    AbsorbAllFacts(b, covers, plan.cut, plan.absorb, h.item, h.dot.device);
    if !Covered(b.items, h) {
      var c :| c in counting && CoversHeader(c, h);
      CountingFacts(b.cutoffs, vault, covers, c);
      var i :| 0 <= i < |covers| && covers[i] == c;
      CountedAccepted(b, counting, g, op);
      assert ToAbsorb(b, vault, counting, groups, covers[i]);
      assert i in plan.absorb;
      PlannedIn(b, counting, groups, g, op);
      assert CoversDot(plan.cut, h.dot);
    }
  }

  /** Nothing counts in the second pass that did not count in the first. */
  lemma CountedBefore(b: Book, vault: Vault, groups: seq<Group>, covers: seq<Cover>, plan: CoverPlan, h: OpHeader)
    requires PlanFits(b, vault, groups, covers, plan) && AreIndices(plan.absorb, covers)
    requires Covered(AbsorbAll(b, covers, plan.cut, plan.absorb).items, h)
    ensures Counts(b.items, Counting(b.cutoffs, vault, covers), h)
  {
    hide AbsorbAll, Counting, PlanLinks, CountedIn, CutIs, Increasing;
    AbsorbAllFacts(b, covers, plan.cut, plan.absorb, h.item, h.dot.device);
    var reached := Get(SettledOf(AbsorbAll(b, covers, plan.cut, plan.absorb).items, h.item), h.dot.device);
    if !Covered(b.items, h) {
      var i :| i in plan.absorb && Brought(covers[i], plan.cut, h.item, h.dot.device, reached);
      CountingFacts(b.cutoffs, vault, covers, covers[i]);
      assert CoversHeader(covers[i], h);
    }
  }

  lemma AbsorbedAlike(b: Book, vault: Vault, groups: seq<Group>, covers: seq<Cover>, plan: CoverPlan, g: Group)
    requires PlanFits(b, vault, groups, covers, plan) && AreIndices(plan.absorb, covers) && g in groups
    ensures var counting := Counting(b.cutoffs, vault, covers);
            CountsAlike(b, counting, AbsorbAll(b, covers, plan.cut, plan.absorb), [], AcceptedOf(b, counting, g))
  {
    var counting, b' := Counting(b.cutoffs, vault, covers), AbsorbAll(b, covers, plan.cut, plan.absorb);
    var accepted := AcceptedOf(b, counting, g);
    WalkIsRight(b, counting, g);
    AbsorbAllFacts(b, covers, plan.cut, plan.absorb, 0, 0);
    forall h | Counts(b'.items, [], h)
      ensures Counts(b.items, counting, h)
    {
      CountedBefore(b, vault, groups, covers, plan, h);
    }
    forall op | op in accepted && NeedsCover(op.body)
      ensures Counts(b'.items, [], op.header)
    {
      var i :| 0 <= i < |accepted| && accepted[i] == op;
      assert TakenRightly(b, counting, accepted[i], Last(accepted[..i], Entry(b.heads, g.device)));
      CountsOnceAbsorbed(b, vault, groups, covers, plan, g, op);
    }
  }

  /** A group's walk in the second pass, whatever other groups were committed before it. */
  lemma SameLinks(b: Book, counting: seq<Cover>, b': Book, b1: Book, g: Group)
    requires CountsAlike(b, counting, b', [], AcceptedOf(b, counting, g))
    requires b1.items == b'.items && b1.cutoffs == b'.cutoffs && Entry(b1.heads, g.device) == Entry(b.heads, g.device)
    ensures AcceptedOf(b1, [], g) == AcceptedOf(b, counting, g)
  {
    assert forall h :: Counts(b1.items, [], h) == Counts(b'.items, [], h);
    WalksAlike(b, counting, b1, [], g.served, Walk([], [], [], Entry(b.heads, g.device)),
        Walk([], [], [], Entry(b1.heads, g.device)));
  }

  ghost predicate AllAlike(b: Book, counting: seq<Cover>, b': Book, groups: seq<Group>) {
    forall g | g in groups :: CountsAlike(b, counting, b', [], AcceptedOf(b, counting, g))
  }

  predicate Elsewhere(b: Book, b': Book, d: Device) {
    Entry(b'.heads, d) == Entry(b.heads, d)
  }

  lemma CommitGroupMoves(o: Outcome, g: Group, vault: Vault, trace: seq<Event>, own: Device, rest: seq<Group>, b: Book)
    requires Kept(o.book, trace, own) && GroupsFit(vault, own, [g] + rest)
    requires forall i | 0 <= i < |rest| :: Elsewhere(b, o.book, rest[i].device)
    ensures Kept(CommitGroup(o, g).book, trace, own)
    ensures SameBase(o.book, CommitGroup(o, g).book)
    ensures CommitGroup(o, g).accepted == o.accepted + Dots(AcceptedOf(o.book, [], g))
    ensures forall i | 0 <= i < |rest| :: Elsewhere(b, CommitGroup(o, g).book, rest[i].device)
  {
    var groups := [g] + rest;
    assert GroupFits(vault, own, groups[0]);
    CommitGroupKeeps(o, g, vault, trace, own);
    hide Kept, CommitGroup, AcceptedOf, GroupFits;
    forall i | 0 <= i < |rest|
      ensures Elsewhere(b, CommitGroup(o, g).book, rest[i].device)
    {
      assert rest[i] == groups[i + 1] && groups[0].device < groups[i + 1].device;
      assert Elsewhere(b, o.book, rest[i].device);
    }
  }

  lemma {:induction false} CommitAgrees(o: Outcome, b: Book, counting: seq<Cover>, b': Book, groups: seq<Group>,
                                        vault: Vault,
                                        trace: seq<Event>, own: Device)
    requires Kept(o.book, trace, own) && GroupsFit(vault, own, groups)
    requires o.book.items == b'.items && o.book.cutoffs == b'.cutoffs
    requires AllAlike(b, counting, b', groups)
    requires forall i | 0 <= i < |groups| :: Elsewhere(b, o.book, groups[i].device)
    ensures CommitGroups(o, groups).accepted == o.accepted + PlanLinks(b, counting, groups)
    decreases |groups|
  {
    hide Kept, CommitGroup, CountsAlike, AcceptedOf, GroupFits;
    if groups != [] {
      var g, rest, o1 := groups[0], groups[1..], CommitGroup(o, groups[0]);
      SameLinks(b, counting, b', o.book, g);
      assert groups == [g] + rest;
      assert forall i | 0 <= i < |rest| :: rest[i] == groups[i + 1];
      CommitGroupMoves(o, g, vault, trace, own, rest, b);
      CommitAgrees(o1, b, counting, b', rest, vault, trace, own);
      assert o.accepted + (Dots(AcceptedOf(b, counting, g)) + PlanLinks(b, counting, rest))
             == o1.accepted + PlanLinks(b, counting, rest);
    }
  }

  lemma {:induction false} AbsorbAllKeeps(b: Book, covers: seq<Cover>, cut: VersionVector, absorbed: seq<nat>,
                                          trace: seq<Event>, own: Device)
    returns (after: seq<Event>)
    requires AreIndices(absorbed, covers) && Kept(b, trace, own)
    ensures Kept(AbsorbAll(b, covers, cut, absorbed), after, own)
  {
    after := trace;
    if absorbed != [] {
      var before, c := absorbed[..|absorbed| - 1], covers[absorbed[|absorbed| - 1]];
      after := AbsorbAllKeeps(b, covers, cut, before, trace, own);
      AbsorbKeeps(AbsorbAll(b, covers, cut, before), after, own, c.item, Meet(c.covered, cut));
      after := after + [Took(c.item, Meet(c.covered, cut))];
    }
  }

  /**
   Both passes agree: when the merge absorbs every cover the plan names, each cut to the plan's cut, the commit of
   the same response accepts exactly the links the plan counted, in the plan's order.
   */
  lemma PlanAgrees(b: Book, vault: Vault, own: Device, ops: seq<Served>, covers: seq<Cover>, plan: CoverPlan,
                   trace: seq<Event>,
                   reports: seq<Report>)
    requires Kept(b, trace, own)
    requires PlanFits(b, vault, Grouped(vault, own, ops), covers, plan)
    ensures AreIndices(plan.absorb, covers)
    ensures CommitGroups(Outcome(AbsorbAll(b, covers, plan.cut, plan.absorb), [], reports),
              Grouped(vault, own, ops)).accepted
            == plan.links
  {
    var counting, groups := Counting(b.cutoffs, vault, covers), Grouped(vault, own, ops);
    assert forall k | 0 <= k < |plan.absorb| :: plan.absorb[k] in plan.absorb;
    var b' := AbsorbAll(b, covers, plan.cut, plan.absorb);
    var after := AbsorbAllKeeps(b, covers, plan.cut, plan.absorb, trace, own);
    hide Kept, CountsAlike, AbsorbAll, CommitGroup, CommitGroups, Counting;
    forall g | g in groups
      ensures CountsAlike(b, counting, b', [], AcceptedOf(b, counting, g))
    {
      AbsorbedAlike(b, vault, groups, covers, plan, g);
    }
    GroupedFacts(vault, own, ops, own + 1);
    AbsorbAllFacts(b, covers, plan.cut, plan.absorb, 0, 0);
    CommitAgrees(Outcome(b', [], reports), b, counting, b', groups, vault, after, own);
  }

  // ---------- nothing settled past a head ----------

  predicate Within(b: Book, item: Item, d: Device) {
    Get(SettledOf(b.items, item), d) <= Entry(b.heads, d)
  }

  /** No item holds a device's ops past the head of its chain. */
  ghost predicate WithinHeads(b: Book) {
    forall item, d :: Within(b, item, d)
  }

  lemma HeadsHold(b: Book, trace: seq<Event>, own: Device, dot: Dot)
    requires Kept(b, trace, own) && dot in b.links
    ensures dot.number <= Entry(b.heads, dot.device)
  {
    assert LinkFits(b.links, b.heads, dot);
  }

  /** A commit's heads are at or above the heads before it, and at or above everything it accepted. */
  lemma CommitRaisesHeads(o: Outcome, groups: seq<Group>, vault: Vault, trace: seq<Event>, own: Device)
    requires Kept(o.book, trace, own) && GroupsFit(vault, own, groups) && o.accepted == []
    ensures forall d :: Entry(o.book.heads, d) <= Entry(CommitGroups(o, groups).book.heads, d)
    ensures forall dot | dot in CommitGroups(o, groups).accepted ::
              dot.number <= Entry(CommitGroups(o, groups).book.heads, dot.device)
  {
    CommitKeeps(o, groups, vault, trace, own);
    var o' := CommitGroups(o, groups);
    forall d
      ensures Entry(o.book.heads, d) <= Entry(o'.book.heads, d)
    {
      if d in o.book.heads {
        assert Dot(d, o.book.heads[d]) in o.book.links;
        HeadsHold(o'.book, trace, own, Dot(d, o.book.heads[d]));
      }
    }
    forall dot | dot in o'.accepted
      ensures dot.number <= Entry(o'.book.heads, dot.device)
    {
      var k :| 0 <= k < |o'.accepted| && o'.accepted[k] == dot;
      assert WasServed(o'.book, groups, o'.accepted[k]);
      HeadsHold(o'.book, trace, own, dot);
    }
  }

  /** What an absorbed cover brings is at most the cut, and the cut is a head or a link that passed. */
  lemma AbsorbedWithinCut(b: Book, covers: seq<Cover>, plan: CoverPlan, heads: map<Device, nat>, item: Item, d: Device)
    requires AreIndices(plan.absorb, covers) && WithinHeads(b) && CutIs(b.heads, plan.links, plan.cut)
    requires Entry(b.heads, d) <= Entry(heads, d)
    requires forall dot | dot in plan.links :: dot.number <= Entry(heads, dot.device)
    ensures Get(SettledOf(AbsorbAll(b, covers, plan.cut, plan.absorb).items, item), d) <= Entry(heads, d)
  {
    assert Within(b, item, d);
    hide AbsorbAll;
    AbsorbAllFacts(b, covers, plan.cut, plan.absorb, item, d);
  }

  /** A client whose merge refuses no cover the plan names holds nothing past a head after the commit. */
  lemma StaysWithinHeads(b: Book, vault: Vault, own: Device, ops: seq<Served>, covers: seq<Cover>, plan: CoverPlan,
                         trace: seq<Event>, reports: seq<Report>)
    requires Kept(b, trace, own) && WithinHeads(b)
    requires PlanFits(b, vault, Grouped(vault, own, ops), covers, plan)
    ensures AreIndices(plan.absorb, covers)
    ensures WithinHeads(CommitGroups(Outcome(AbsorbAll(b, covers, plan.cut, plan.absorb), [], reports),
              Grouped(vault, own, ops)).book)
  {
    var groups := Grouped(vault, own, ops);
    PlanAgrees(b, vault, own, ops, covers, plan, trace, reports);
    var o := Outcome(AbsorbAll(b, covers, plan.cut, plan.absorb), [], reports);
    var o' := CommitGroups(o, groups);
    var after := AbsorbAllKeeps(b, covers, plan.cut, plan.absorb, trace, own);
    GroupedFacts(vault, own, ops, own + 1);
    AbsorbAllFacts(b, covers, plan.cut, plan.absorb, 0, 0);
    hide Kept, CommitGroups, PlanLinks, AbsorbAll, GroupsFit, Grouped;
    CommitKeeps(o, groups, vault, after, own);
    CommitRaisesHeads(o, groups, vault, after, own);
    forall item, d
      ensures Within(o'.book, item, d)
    {
      AbsorbedWithinCut(b, covers, plan, o'.book.heads, item, d);
    }
  }

  /** Deliveries and own ops settle nothing past a head either. */
  lemma DeliveriesStayWithin(b: Book, trace: seq<Event>, own: Device, dot: Dot, covered: bool)
    requires Kept(b, trace, own) && WithinHeads(b) && DeliverableAs(b, dot, covered)
    ensures dot.number > 0 && WithinHeads(HandedOn(b, dot, covered))
  {
    HeadsHold(b, trace, own, dot);
    NotHandedYet(b, trace, own, dot);
    var b' := HandedOn(b, dot, covered);
    forall item, d
      ensures Within(b', item, d)
    {
      assert Within(b, item, d);
      AddBrings(b.items, b.links[dot].header, item, d);
    }
  }

  // ---------- an honest response ----------

  predicate Follows(b: Book, vault: Vault, d: Device, op: Served, prev: nat) {
    && op.header.vault == vault
    && op.header.dot.device == d
    && !NeedsCover(op.body)
    && op.header.prev == prev < op.header.dot.number
    && !PastCut(b.cutoffs, op.header.dot)
  }

  /** The next part of a device's chain, with its bodies. */
  predicate Segment(b: Book, vault: Vault, d: Device, part: seq<Served>, head: nat) {
    forall i | 0 <= i < |part| :: Follows(b, vault, d, part[i], Last(part[..i], head))
  }

  lemma SegmentTail(b: Book, vault: Vault, d: Device, part: seq<Served>, head: nat)
    requires Segment(b, vault, d, part, head) && part != []
    ensures Follows(b, vault, d, part[0], head)
    ensures Segment(b, vault, d, part[1..], part[0].header.dot.number)
  {
    assert part[..0] == [];
    assert Follows(b, vault, d, part[0], Last(part[..0], head));
    var rest := part[1..];
    forall i | 0 <= i < |rest|
      ensures Follows(b, vault, d, rest[i], Last(rest[..i], part[0].header.dot.number))
    {
      assert Follows(b, vault, d, part[i + 1], Last(part[..i + 1], head));
      assert part[..i + 1] == [part[0]] + rest[..i];
    }
  }

  predicate Rises(part: seq<Served>) {
    forall i, j | 0 <= i < j < |part| :: part[i].header.dot.number < part[j].header.dot.number
  }

  lemma {:induction false} SegmentRises(b: Book, vault: Vault, d: Device, part: seq<Served>, head: nat)
    requires Segment(b, vault, d, part, head)
    ensures forall i | 0 <= i < |part| :: part[i].header.dot.number > head
    ensures Rises(part)
    decreases |part|
  {
    if part != [] {
      SegmentTail(b, vault, d, part, head);
      SegmentRises(b, vault, d, part[1..], part[0].header.dot.number);
      forall i | 0 < i < |part|
        ensures part[i].header.dot.number > part[0].header.dot.number
      {
        assert part[i] == part[1..][i - 1];
      }
      forall i, j | 0 < i < j < |part|
        ensures part[i].header.dot.number < part[j].header.dot.number
      {
        assert part[i] == part[1..][i - 1] && part[j] == part[1..][j - 1];
      }
    }
  }

  lemma SameFirst(a: seq<Served>, part: seq<Served>)
    requires a != [] && part != [] && Ascending(a) && Rises(part) && multiset(a) == multiset(part)
    ensures a[0] == part[0]
  {
    assert a[0] in multiset(part) && part[0] in multiset(a);
    var i :| 0 <= i < |part| && part[i] == a[0];
    var j :| 0 <= j < |a| && a[j] == part[0];
  }

  lemma {:induction false} SortedOnce(a: seq<Served>, part: seq<Served>)
    requires Ascending(a) && Rises(part) && multiset(a) == multiset(part)
    ensures a == part
    decreases |a|
  {
    assert |a| == |multiset(a)| == |multiset(part)| == |part|;
    if a != [] {
      SameFirst(a, part);
      assert a == [a[0]] + a[1..] && part == [part[0]] + part[1..];
      assert multiset(a[1..]) == multiset(a) - multiset{a[0]};
      assert multiset(part[1..]) == multiset(part) - multiset{part[0]};
      SortedOnce(a[1..], part[1..]);
    }
  }

  lemma {:induction false} WalkTakesSegment(b: Book, vault: Vault, d: Device, part: seq<Served>, w: Walk)
    requires Segment(b, vault, d, part, w.prev)
    ensures WalkFrom(b, [], part, w).accepted == w.accepted + part
    decreases |part|
  {
    if part != [] {
      SegmentTail(b, vault, d, part, w.prev);
      var op := part[0];
      var next := Walk(w.accepted + [op], w.reserved, w.reports, op.header.dot.number);
      assert Judge(b, [], op, w.prev, w.accepted) == Take([]);
      assert w.reports + [] == w.reports;
      WalkTakesSegment(b, vault, d, part[1..], next);
      assert next.accepted + part[1..] == w.accepted + part;
    }
  }

  /** The next part of a chain, served with its bodies, is accepted whole, in whatever order it was served. */
  lemma AnyOrderWillDo(b: Book, vault: Vault, own: Device, ops: seq<Served>, d: Device, part: seq<Served>)
    requires d != own && Segment(b, vault, d, part, Entry(b.heads, d))
    requires multiset(Of(ops, vault, d)) == multiset(part)
    ensures AcceptedOf(b, [], Group(d, ServedOf(Grouped(vault, own, ops), d))) == part
  {
    var groups := Grouped(vault, own, ops);
    GroupedFacts(vault, own, ops, d);
    GroupAscends(vault, own, groups, d);
    SegmentRises(b, vault, d, part, Entry(b.heads, d));
    SortedOnce(ServedOf(groups, d), part);
    WalkTakesSegment(b, vault, d, part, Walk([], [], [], Entry(b.heads, d)));
  }

  lemma {:induction false} GroupAscends(vault: Vault, own: Device, groups: seq<Group>, d: Device)
    requires GroupsFit(vault, own, groups)
    ensures Ascending(ServedOf(groups, d))
    ensures ServedOf(groups, d) != [] ==> Group(d, ServedOf(groups, d)) in groups
  {
    if groups != [] {
      assert GroupFits(vault, own, groups[0]);
      GroupAscends(vault, own, groups[1..], d);
    }
  }
}
