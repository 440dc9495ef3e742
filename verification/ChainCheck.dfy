/**
 The chain check of one response (crates/rizzy-sync/src/causal.rs): which served headers extend each
 device's chain, which covers the client absorbs first, and how the two passes agree.
 */
module ChainCheck {
  import opened VersionVectors
  import opened CausalLog

  /** A served snapshot's header; `rest` stands for the fields the log does not read. */
  datatype Cover = Cover(vault: Vault, item: Item, author: Device, covered: VersionVector, rest: nat)

  datatype GapCause =
    | Unlinked(next: Dot, prev: nat)
    | Uncovered(dot: Dot)
    | BelowCutoff(lastAccepted: nat)

  datatype Report =
    | Duplicate(dot: Dot)
    | Equivocation(dot: Dot)
    | UnknownOwnOp(dot: Dot)
    | ForeignVault(dot: Dot)
    | PastCutoff(dot: Dot, lastAccepted: nat)
    | RejectedBody(dot: Dot)
    | Gap(device: Device, after: nat, cause: GapCause)
    | SettledPastHead(item: Item, device: Device, settled: nat, head: nat)

  // ---------- the response, device by device ----------

  /** One device's served headers, by sequence number. */
  datatype Group = Group(device: Device, served: seq<Served>)

  /** After everything with the same number or a lower one: the sort is stable. */
  function Insert(served: seq<Served>, op: Served): seq<Served> {
    if served == [] then [op]
    else if op.header.dot.number < served[0].header.dot.number then [op] + served
    else [served[0]] + Insert(served[1..], op)
  }

  /** The groups are in the order of their devices. */
  function Place(groups: seq<Group>, op: Served): seq<Group> {
    var d := op.header.dot.device;
    if groups == [] || d < groups[0].device then [Group(d, [op])] + groups
    else if groups[0].device == d then [Group(d, Insert(groups[0].served, op))] + groups[1..]
    else [groups[0]] + Place(groups[1..], op)
  }

  predicate ToWalk(vault: Vault, own: Device, op: Served) {
    op.header.vault == vault && op.header.dot.device != own
  }

  /** What is reported of a header that no walk sees: another vault's, or the own device's. */
  function SetAside(b: Book, vault: Vault, h: OpHeader): Report {
    if h.vault != vault then ForeignVault(h.dot)
    else if h.dot in b.links && b.links[h.dot].header == h then Duplicate(h.dot)
    else if h.dot.number <= Entry(b.heads, h.dot.device) then Equivocation(h.dot)
    else UnknownOwnOp(h.dot)
  }

  function Grouped(vault: Vault, own: Device, ops: seq<Served>): seq<Group> {
    if ops == [] then []
    else
      var before, op := Grouped(vault, own, ops[..|ops| - 1]), ops[|ops| - 1];
      if ToWalk(vault, own, op) then Place(before, op) else before
  }

  function Aside(b: Book, vault: Vault, own: Device, ops: seq<Served>): seq<Report> {
    if ops == [] then []
    else
      var before, op := Aside(b, vault, own, ops[..|ops| - 1]), ops[|ops| - 1];
      if ToWalk(vault, own, op) then before else before + [SetAside(b, vault, op.header)]
  }

  predicate Ascending(served: seq<Served>) {
    forall i, j | 0 <= i < j < |served| :: served[i].header.dot.number <= served[j].header.dot.number
  }

  predicate GroupFits(vault: Vault, own: Device, g: Group) {
    && g.device != own
    && Ascending(g.served)
    && (forall op | op in g.served :: op.header.dot.device == g.device && op.header.vault == vault)
  }

  predicate GroupsFit(vault: Vault, own: Device, groups: seq<Group>) {
    && (forall i | 0 <= i < |groups| :: GroupFits(vault, own, groups[i]))
    && (forall i, j | 0 <= i < j < |groups| :: groups[i].device < groups[j].device)
  }

  /** The served headers of one device, in the order of their arrival. */
  function Of(ops: seq<Served>, vault: Vault, d: Device): seq<Served> {
    if ops == [] then []
    else
      var before, op := Of(ops[..|ops| - 1], vault, d), ops[|ops| - 1];
      if op.header.vault == vault && op.header.dot.device == d then before + [op] else before
  }

  /** What a device's group holds; nothing when it has none. */
  function ServedOf(groups: seq<Group>, d: Device): seq<Served> {
    if groups == [] then []
    else if groups[0].device == d then groups[0].served
    else ServedOf(groups[1..], d)
  }

  lemma {:induction false} InsertAdds(served: seq<Served>, op: Served)
    ensures multiset(Insert(served, op)) == multiset(served) + multiset{op}
  {
    if served != [] && op.header.dot.number >= served[0].header.dot.number {
      InsertAdds(served[1..], op);
      assert served == [served[0]] + served[1..];
    }
  }

  lemma {:induction false} InsertSorts(served: seq<Served>, op: Served)
    requires Ascending(served)
    ensures Ascending(Insert(served, op))
  {
    if served != [] && op.header.dot.number >= served[0].header.dot.number {
      InsertSorts(served[1..], op);
      var rest := Insert(served[1..], op);
      forall k | 0 <= k < |rest|
        ensures served[0].header.dot.number <= rest[k].header.dot.number
      {
        InsertAdds(served[1..], op);
        assert rest[k] in multiset(rest);
        assert rest[k] == op || rest[k] in served[1..];
      }
    }
  }

  lemma InsertFits(vault: Vault, own: Device, g: Group, op: Served)
    requires GroupFits(vault, own, g) && ToWalk(vault, own, op) && op.header.dot.device == g.device
    ensures GroupFits(vault, own, Group(g.device, Insert(g.served, op)))
  {
    InsertSorts(g.served, op);
    InsertAdds(g.served, op);
    forall o | o in Insert(g.served, op)
      ensures o == op || o in g.served
    {
      assert o in multiset(Insert(g.served, op));
    }
  }

  lemma {:induction false} PlaceFits(vault: Vault, own: Device, groups: seq<Group>, op: Served)
    requires GroupsFit(vault, own, groups) && ToWalk(vault, own, op)
    ensures GroupsFit(vault, own, Place(groups, op))
    ensures forall g | g in Place(groups, op) :: g.device == op.header.dot.device ||
              exists f | f in groups :: f.device == g.device
  {
    var d := op.header.dot.device;
    if groups == [] || d < groups[0].device {
      assert GroupFits(vault, own, Group(d, [op]));
    } else if groups[0].device == d {
      InsertFits(vault, own, groups[0], op);
    } else {
      PlaceFits(vault, own, groups[1..], op);
      var rest := Place(groups[1..], op);
      forall k | 0 <= k < |rest|
        ensures groups[0].device < rest[k].device
      {
        assert rest[k] in rest;
      }
    }
  }

  lemma {:induction false} PlaceAdds(groups: seq<Group>, op: Served, d: Device)
    requires forall i, j | 0 <= i < j < |groups| :: groups[i].device < groups[j].device
    ensures multiset(ServedOf(Place(groups, op), d))
            == multiset(ServedOf(groups, d)) + (if d == op.header.dot.device then multiset{op} else multiset{})
  {
    if groups == [] || op.header.dot.device < groups[0].device {
      NoneBefore(groups, op.header.dot.device);
      assert Place(groups, op)[1..] == groups;
    } else if groups[0].device == op.header.dot.device {
      InsertAdds(groups[0].served, op);
      assert Place(groups, op)[1..] == groups[1..];
    } else {
      PlaceAdds(groups[1..], op, d);
      assert Place(groups, op)[1..] == Place(groups[1..], op);
    }
  }

  lemma {:induction false} NoneBefore(groups: seq<Group>, d: Device)
    requires forall i | 0 <= i < |groups| :: groups[i].device > d
    ensures ServedOf(groups, d) == []
  {
    if groups != [] {
      NoneBefore(groups[1..], d);
    }
  }

  /** Every device's group holds what was served of it, and nothing else, by sequence number. */
  lemma {:induction false} GroupedFacts(vault: Vault, own: Device, ops: seq<Served>, d: Device)
    requires d != own
    ensures GroupsFit(vault, own, Grouped(vault, own, ops))
    ensures multiset(ServedOf(Grouped(vault, own, ops), d)) == multiset(Of(ops, vault, d))
  {
    if ops != [] {
      GroupedFacts(vault, own, ops[..|ops| - 1], d);
      var op := ops[|ops| - 1];
      if ToWalk(vault, own, op) {
        PlaceFits(vault, own, Grouped(vault, own, ops[..|ops| - 1]), op);
        PlaceAdds(Grouped(vault, own, ops[..|ops| - 1]), op, d);
      }
    }
  }

  // ---------- one chain ----------

  predicate CoversHeader(c: Cover, h: OpHeader) {
    c.item == h.item && CoversDot(c.covered, h.dot)
  }

  predicate ServedCover(counting: seq<Cover>, h: OpHeader) {
    exists c | c in counting :: CoversHeader(c, h)
  }

  /** Whether a snapshot covers a bodiless header: one taken before, or one that counts in this pass. */
  predicate Counts(items: map<Item, VersionVector>, counting: seq<Cover>, h: OpHeader) {
    Covered(items, h) || ServedCover(counting, h)
  }

  datatype Verdict =
    | Reserve
    | Skip(report: Report)
    | Stop(reports: seq<Report>)
    | Take(reports: seq<Report>)

  predicate Held(links: map<Dot, Link>, accepted: seq<Served>, h: OpHeader) {
    if h.dot in links then links[h.dot].header == h else exists a | a in accepted :: a.header == h
  }

  predicate ServedAgain(b: Book, h: OpHeader) {
    h.dot in b.links && b.links[h.dot] == Link(h, State.Rejected) && !Covered(b.items, h)
  }

  /** What the chain check makes of one header, with the chain at `prev`. */
  function Judge(b: Book, counting: seq<Cover>, op: Served, prev: nat, accepted: seq<Served>): Verdict {
    var h := op.header;
    var rejected := if op.body.Rejected? then [RejectedBody(h.dot)] else [];
    if h.dot.number <= prev then
      if ServedAgain(b, h) then Reserve
      else if Held(b.links, accepted, h) then Skip(Duplicate(h.dot))
      else Skip(Equivocation(h.dot))
    else if PastCut(b.cutoffs, h.dot) then
      Stop([PastCutoff(h.dot, b.cutoffs[h.dot.device])])
    else if h.prev != prev then
      Stop([Gap(h.dot.device, prev, Unlinked(h.dot, h.prev))])
    else if NeedsCover(op.body) && !Counts(b.items, counting, h) then
      Stop(rejected + [Gap(h.dot.device, prev, Uncovered(h.dot))])
    else
      Take(rejected)
  }

  datatype Walk = Walk(accepted: seq<Served>, reserved: seq<Served>, reports: seq<Report>, prev: nat)

  function WalkFrom(b: Book, counting: seq<Cover>, served: seq<Served>, w: Walk): Walk {
    if served == [] then w
    else
      match Judge(b, counting, served[0], w.prev, w.accepted)
      case Reserve => WalkFrom(b, counting, served[1..], w.(reserved := w.reserved + [served[0]]))
      case Skip(report) => WalkFrom(b, counting, served[1..], w.(reports := w.reports + [report]))
      case Stop(reports) => w.(reports := w.reports + reports)
      case Take(reports) =>
        WalkFrom(b, counting, served[1..],
                 Walk(w.accepted + [served[0]], w.reserved, w.reports + reports, served[0].header.dot.number))
  }

  /** One device's served headers, walked from its chain's head. */
  function WalkOf(b: Book, counting: seq<Cover>, g: Group): Walk {
    WalkFrom(b, counting, g.served, Walk([], [], [], Entry(b.heads, g.device)))
  }

  /** Where a chain stands after the headers accepted so far. */
  function Last(accepted: seq<Served>, head: nat): nat {
    if accepted == [] then head else accepted[|accepted| - 1].header.dot.number
  }

  predicate TakenRightly(b: Book, counting: seq<Cover>, op: Served, prev: nat) {
    && op.header.dot.number > prev
    && op.header.prev == prev
    && !PastCut(b.cutoffs, op.header.dot)
    && (NeedsCover(op.body) ==> Counts(b.items, counting, op.header))
  }

  /** Headers that extend a chain one after the other, each of them rightly. */
  predicate Extends(b: Book, counting: seq<Cover>, accepted: seq<Served>, head: nat) {
    forall i | 0 <= i < |accepted| :: TakenRightly(b, counting, accepted[i], Last(accepted[..i], head))
  }

  predicate WalkFits(b: Book, counting: seq<Cover>, g: Group, w: Walk) {
    && w.prev == Last(w.accepted, Entry(b.heads, g.device))
    && Extends(b, counting, w.accepted, Entry(b.heads, g.device))
    && (forall op | op in w.accepted :: op in g.served)
    && (forall op | op in w.reserved :: op in g.served && ServedAgain(b, op.header))
  }

  lemma ExtendsOneMore(b: Book, counting: seq<Cover>, accepted: seq<Served>, head: nat, op: Served)
    requires Extends(b, counting, accepted, head) && TakenRightly(b, counting, op, Last(accepted, head))
    ensures Extends(b, counting, accepted + [op], head)
  {
    var longer := accepted + [op];
    forall i | 0 <= i < |longer|
      ensures TakenRightly(b, counting, longer[i], Last(longer[..i], head))
    {
      assert longer[..i] == accepted[..i];
      assert i == |accepted| ==> accepted[..i] == accepted;
    }
  }

  lemma {:induction false} WalkFromFits(b: Book, counting: seq<Cover>, g: Group, served: seq<Served>, w: Walk)
    requires WalkFits(b, counting, g, w)
    requires forall op | op in served :: op in g.served
    ensures WalkFits(b, counting, g, WalkFrom(b, counting, served, w))
    decreases |served|
  {
    hide Extends, Counts, Held;
    if served != [] {
      var op := served[0];
      match Judge(b, counting, op, w.prev, w.accepted)
      case Reserve =>
        WalkFromFits(b, counting, g, served[1..], w.(reserved := w.reserved + [op]));
      case Skip(report) =>
        WalkFromFits(b, counting, g, served[1..], w.(reports := w.reports + [report]));
      case Stop(reports) =>
      case Take(reports) =>
        ExtendsOneMore(b, counting, w.accepted, Entry(b.heads, g.device), op);
        WalkFromFits(b, counting, g, served[1..],
                     Walk(w.accepted + [op], w.reserved, w.reports + reports, op.header.dot.number));
    }
  }

  /** A walk accepts served headers that extend the chain from its head, each named by the next. */
  lemma WalkIsRight(b: Book, counting: seq<Cover>, g: Group)
    ensures WalkFits(b, counting, g, WalkOf(b, counting, g))
  {
    WalkFromFits(b, counting, g, g.served, Walk([], [], [], Entry(b.heads, g.device)));
  }

  // ---------- what a walk reports ----------

  /** The header the chain has at a dot, with the headers accepted so far. */
  predicate InChain(b: Book, accepted: seq<Served>, h: OpHeader) {
    (h.dot in b.links && b.links[h.dot].header == h) || (h.dot !in b.links && exists a | a in accepted :: a.header == h)
  }

  /** A header as it was served. */
  predicate ServedAs(served: seq<Served>, h: OpHeader) {
    exists op | op in served :: op.header == h
  }

  /** A report is about a served header, and says of it what is so. */
  ghost predicate ReportTrue(b: Book, counting: seq<Cover>, g: Group, w: Walk, r: Report) {
    match r
    case Duplicate(dot) => exists h :: ServedAs(g.served, h) && h.dot == dot && InChain(b, w.accepted, h)
    case Equivocation(dot) =>
      dot.number <= w.prev && exists h :: ServedAs(g.served, h) && h.dot == dot && !InChain(b, w.accepted, h)
    case PastCutoff(dot, cut) =>
      dot.number > cut && PastCut(b.cutoffs, dot) && cut == b.cutoffs[dot.device] && dot.number > w.prev &&
      exists op | op in g.served :: op.header.dot == dot
    case RejectedBody(dot) => exists op | op in g.served :: op.header.dot == dot && op.body.Rejected?
    case Gap(d, after, Unlinked(next, prev)) =>
      d == g.device && after == w.prev != prev && next.number > after &&
      exists op | op in g.served :: op.header.dot == next && op.header.prev == prev
    case Gap(d, after, Uncovered(dot)) =>
      d == g.device && after == w.prev && exists op | op in g.served ::
        op.header.dot == dot && op.header.prev == after && NeedsCover(op.body) && !Counts(b.items, counting, op.header)
    case _ => false
  }

  ghost predicate ReportsTrue(b: Book, counting: seq<Cover>, g: Group, w: Walk) {
    forall i | 0 <= i < |w.reports| :: ReportTrue(b, counting, g, w, w.reports[i])
  }

  /** Reports that do not end a walk. */
  predicate NoneEnds(reports: seq<Report>) {
    forall i | 0 <= i < |reports| :: reports[i].Duplicate? || reports[i].Equivocation? || reports[i].RejectedBody?
  }

  lemma ReportsMore(b: Book, counting: seq<Cover>, g: Group, w: Walk, more: seq<Report>)
    requires ReportsTrue(b, counting, g, w)
    requires forall i | 0 <= i < |more| :: ReportTrue(b, counting, g, w, more[i])
    ensures ReportsTrue(b, counting, g, w.(reports := w.reports + more))
  {
    var w' := w.(reports := w.reports + more);
    forall i | 0 <= i < |w'.reports|
      ensures ReportTrue(b, counting, g, w', w'.reports[i])
    {
      var r := w'.reports[i];
      assert r == if i < |w.reports| then w.reports[i] else more[i - |w.reports|];
      assert ReportTrue(b, counting, g, w, r);
    }
  }

  /** A header accepted later is above everything reported so far. */
  lemma ReportsStay(b: Book, counting: seq<Cover>, g: Group, w: Walk, op: Served)
    requires ReportsTrue(b, counting, g, w) && NoneEnds(w.reports) && op.header.dot.number > w.prev
    ensures ReportsTrue(b, counting, g, Walk(w.accepted + [op], w.reserved, w.reports, op.header.dot.number))
  {
    var w' := Walk(w.accepted + [op], w.reserved, w.reports, op.header.dot.number);
    forall i | 0 <= i < |w'.reports|
      ensures ReportTrue(b, counting, g, w', w'.reports[i])
    {
      assert ReportTrue(b, counting, g, w, w.reports[i]);
      match w.reports[i]
      case Duplicate(dot) =>
        var h :| ServedAs(g.served, h) && h.dot == dot && InChain(b, w.accepted, h);
        assert InChain(b, w'.accepted, h) by {
          if h.dot !in b.links {
            var a :| a in w.accepted && a.header == h;
            assert a in w'.accepted;
          }
        }
      case Equivocation(dot) =>
        var h :| ServedAs(g.served, h) && h.dot == dot && !InChain(b, w.accepted, h);
        assert !InChain(b, w'.accepted, h);
      case _ =>
    }
  }

  lemma {:induction false} WalkReportsTrue(b: Book, counting: seq<Cover>, g: Group, served: seq<Served>, w: Walk)
    requires forall op | op in served :: op in g.served && op.header.dot.device == g.device
    requires ReportsTrue(b, counting, g, w) && NoneEnds(w.reports)
    ensures ReportsTrue(b, counting, g, WalkFrom(b, counting, served, w))
    decreases |served|
  {
    if served != [] {
      var op := served[0];
      assert ServedAs(g.served, op.header);
      match Judge(b, counting, op, w.prev, w.accepted)
      case Reserve =>
        var next := w.(reserved := w.reserved + [op]);
        SameReports(b, counting, g, w, next);
        WalkReportsTrue(b, counting, g, served[1..], next);
      case Skip(report) =>
        assert ReportTrue(b, counting, g, w, report);
        ReportsMore(b, counting, g, w, [report]);
        WalkReportsTrue(b, counting, g, served[1..], w.(reports := w.reports + [report]));
      case Stop(reports) =>
        StopIsTrue(b, counting, g, w, op);
        ReportsMore(b, counting, g, w, reports);
      case Take(reports) =>
        assert forall i | 0 <= i < |reports| :: reports[i] == RejectedBody(op.header.dot) && op.body.Rejected?;
        ReportsMore(b, counting, g, w, reports);
        var noted := w.(reports := w.reports + reports);
        ReportsStay(b, counting, g, noted, op);
        WalkReportsTrue(b, counting, g, served[1..],
                        Walk(w.accepted + [op], w.reserved, w.reports + reports, op.header.dot.number));
    }
  }

  lemma SameReports(b: Book, counting: seq<Cover>, g: Group, w: Walk, w': Walk)
    requires ReportsTrue(b, counting, g, w)
    requires w'.accepted == w.accepted && w'.reports == w.reports && w'.prev == w.prev
    ensures ReportsTrue(b, counting, g, w')
  {
    forall i | 0 <= i < |w'.reports|
      ensures ReportTrue(b, counting, g, w', w'.reports[i])
    {
      assert ReportTrue(b, counting, g, w, w.reports[i]);
    }
  }

  lemma StopIsTrue(b: Book, counting: seq<Cover>, g: Group, w: Walk, op: Served)
    requires op in g.served && op.header.dot.device == g.device
    requires Judge(b, counting, op, w.prev, w.accepted).Stop?
    ensures forall r | r in Judge(b, counting, op, w.prev, w.accepted).reports :: ReportTrue(b, counting, g, w, r)
  {
  }

  /**
   What a walk reports is so. Duplicates and equivocations are told apart by the chain as the walk leaves it,
   and a gap is after its last link.
   */
  lemma ReportsAreTrue(b: Book, counting: seq<Cover>, g: Group)
    requires forall op | op in g.served :: op.header.dot.device == g.device
    ensures ReportsTrue(b, counting, g, WalkOf(b, counting, g))
  {
    WalkReportsTrue(b, counting, g, g.served, Walk([], [], [], Entry(b.heads, g.device)));
  }

  // ---------- nothing is passed over in silence ----------

  /** A report that ends a walk: nothing of the chain after it is accepted. */
  predicate Ends(d: Device, r: Report) {
    match r
    case PastCutoff(dot, _) => dot.device == d
    case Gap(device, _, _) => device == d
    case _ => false
  }

  /**
   What became of a served header. Up to the last link it was accepted, or served again for a rejected link, or
   reported as held or as another one; past it there is a report that ends the chain.
   */
  predicate Accounted(b: Book, d: Device, w: Walk, op: Served) {
    if op.header.dot.number > w.prev then w.reports != [] && Ends(d, w.reports[|w.reports| - 1])
    else
      op in w.accepted ||
      if ServedAgain(b, op.header) then op in w.reserved
      else if InChain(b, w.accepted, op.header) then Duplicate(op.header.dot) in w.reports
      else Equivocation(op.header.dot) in w.reports
  }

  /** A body known to be bad is reported whenever its header is accepted. */
  predicate BadReported(w: Walk, op: Served) {
    op in w.accepted && op.body.Rejected? ==> RejectedBody(op.header.dot) in w.reports
  }

  /** A walk only adds, and what it still accepts is above the links it has. */
  lemma {:induction false} WalkKeepsAll(b: Book, counting: seq<Cover>, served: seq<Served>, w: Walk)
    ensures
      var w' := WalkFrom(b, counting, served, w);
      w.accepted <= w'.accepted && w.reserved <= w'.reserved && w.reports <= w'.reports && w.prev <= w'.prev &&
      forall a :: a in w'.accepted ==> a in w.accepted || a.header.dot.number > w.prev
    decreases |served|
  {
    if served != [] {
      var next := After(w, served[0], Judge(b, counting, served[0], w.prev, w.accepted));
      assert next.prev >= w.prev;
      if !Judge(b, counting, served[0], w.prev, w.accepted).Stop? {
        hide Judge;
        WalkKeepsAll(b, counting, served[1..], next);
      }
    }
  }

  /** The walk after one verdict. */
  function After(w: Walk, op: Served, verdict: Verdict): Walk {
    match verdict
    case Reserve => w.(reserved := w.reserved + [op])
    case Skip(report) => w.(reports := w.reports + [report])
    case Stop(reports) => w.(reports := w.reports + reports)
    case Take(reports) => Walk(w.accepted + [op], w.reserved, w.reports + reports, op.header.dot.number)
  }

  /** What is accounted for stays so, whatever the walk adds. */
  lemma StaysAccounted(b: Book, d: Device, w: Walk, w': Walk, op: Served)
    requires op.header.dot.number <= w.prev <= w'.prev && Accounted(b, d, w, op)
    requires w.accepted <= w'.accepted && w.reserved <= w'.reserved && w.reports <= w'.reports
    requires forall a :: a in w'.accepted ==> a in w.accepted || a.header.dot.number > w.prev
    ensures Accounted(b, d, w', op)
  {
    hide ServedAgain;
    assert InChain(b, w'.accepted, op.header) <==> InChain(b, w.accepted, op.header);
  }

  lemma JudgedIsAccounted(b: Book, counting: seq<Cover>, w: Walk, op: Served)
    ensures Accounted(b, op.header.dot.device, After(w, op, Judge(b, counting, op, w.prev, w.accepted)), op)
  {
  }

  lemma {:induction false} WalkAccounts(b: Book, counting: seq<Cover>, d: Device, served: seq<Served>, w: Walk)
    requires Ascending(served) && forall op | op in served :: op.header.dot.device == d
    requires forall op :: op in w.accepted ==> BadReported(w, op)
    ensures forall op :: op in served ==> Accounted(b, d, WalkFrom(b, counting, served, w), op)
    ensures forall op :: op in WalkFrom(b, counting, served, w).accepted ==>
                         BadReported(WalkFrom(b, counting, served, w), op)
    decreases |served|
  {
    if served != [] {
      var op, rest, w' := served[0], served[1..], WalkFrom(b, counting, served, w);
      var verdict := Judge(b, counting, op, w.prev, w.accepted);
      var next := After(w, op, verdict);
      JudgedIsAccounted(b, counting, w, op);
      forall a | a in next.accepted
        ensures BadReported(next, a)
      {
        assert a in w.accepted ==> BadReported(w, a);
      }
      assert forall x :: x in served ==> x == op || x in rest;
      assert forall x | x in served :: x.header.dot.number >= op.header.dot.number;
      if !verdict.Stop? {
        WalkAccounts(b, counting, d, rest, next);
        WalkKeepsAll(b, counting, rest, next);
        StaysAccounted(b, d, next, w', op);
        hide Judge, WalkFrom;
      }
    }
  }

  /** Every served header of a device is accounted for, and every bad body among the accepted is reported. */
  lemma NothingIsMissed(b: Book, counting: seq<Cover>, g: Group, op: Served)
    requires op in g.served && Ascending(g.served) && forall x | x in g.served :: x.header.dot.device == g.device
    ensures Accounted(b, g.device, WalkOf(b, counting, g), op) && BadReported(WalkOf(b, counting, g), op)
  {
    WalkAccounts(b, counting, g.device, g.served, Walk([], [], [], Entry(b.heads, g.device)));
  }

  /** What is reported of a header that no walk sees, read off the log. */
  predicate AsideTrue(b: Book, vault: Vault, h: OpHeader, r: Report) {
    match r
    case ForeignVault(dot) => dot == h.dot && h.vault != vault
    case Duplicate(dot) => dot == h.dot && h.vault == vault && h.dot in b.links && b.links[h.dot].header == h
    case Equivocation(dot) =>
      dot == h.dot && h.vault == vault && h.dot.number <= Entry(b.heads, h.dot.device) &&
      (h.dot in b.links ==> b.links[h.dot].header != h)
    case UnknownOwnOp(dot) => dot == h.dot && h.vault == vault && h.dot.number > Entry(b.heads, h.dot.device)
    case _ => false
  }

  /** The headers that no walk sees, in the order they were served. */
  function NotWalked(vault: Vault, own: Device, ops: seq<Served>): seq<Served> {
    if ops == [] then []
    else NotWalked(vault, own, ops[..|ops| - 1]) + if ToWalk(vault, own, ops[|ops| - 1]) then [] else [ops[|ops| - 1]]
  }

  /** Each of them has its report, in that order, and the report is so. */
  lemma {:induction false} AsideIsTrue(b: Book, vault: Vault, own: Device, ops: seq<Served>)
    requires forall dot :: dot in b.links ==> b.links[dot].header.dot == dot && dot.number <= Entry(b.heads, dot.device)
    ensures |Aside(b, vault, own, ops)| == |NotWalked(vault, own, ops)|
    ensures forall k :: 0 <= k < |Aside(b, vault, own, ops)| ==>
                        AsideTrue(b, vault, NotWalked(vault, own, ops)[k].header, Aside(b, vault, own, ops)[k])
  {
    if ops != [] {
      AsideIsTrue(b, vault, own, ops[..|ops| - 1]);
    }
  }
}
