/**
 What a response makes of each header in it (crates/rizzy-sync/src/causal.rs): nothing served is passed
 over. Main result: `EveryHeaderIsAnswered`.
 */
module ServedAnswers {
  import opened VersionVectors
  import opened CausalLog
  import opened ChainCheck
  import opened ChainCommit
  import opened ServedLinks

  /** Among the reports is one that ends the chain of the device. */
  predicate ChainEnded(reports: seq<Report>, d: Device) {
    exists r :: r in reports && Ends(d, r)
  }

  /** A header at a number that had its link before the response. */
  predicate HeldAnswer(b: Book, b': Book, reports: seq<Report>, op: Served)
    requires op.header.dot in b.links
  {
    var h := op.header;
    if b.links[h.dot].header != h then Equivocation(h.dot) in reports
    else if !ServedAgain(b, h) then Duplicate(h.dot) in reports
    else
      h.dot in b'.links &&
      (!NeedsCover(op.body) ==> !b'.links[h.dot].state.Rejected?) &&
      (b'.links[h.dot].state.Rejected? ==>
         Gap(h.dot.device, h.prev, Uncovered(h.dot)) in reports &&
         (op.body.Rejected? ==> RejectedBody(h.dot) in reports))
  }

  /** A header at a number that had no link: it is one now as it was served, or another record is, or none. */
  predicate NewAnswer(b': Book, reports: seq<Report>, op: Served) {
    var h := op.header;
    if h.dot in b'.links && b'.links[h.dot].header == h then
      Duplicate(h.dot) in reports ||
      (b'.links[h.dot].state == FromBody(op.body) && (op.body.Rejected? ==> RejectedBody(h.dot) in reports))
    else Equivocation(h.dot) in reports
  }

  /** What the log and the reports of a response say of one header served in it. */
  predicate Answered(b: Book, b': Book, reports: seq<Report>, op: Served) {
    var dot := op.header.dot;
    if dot.number > Entry(b'.heads, dot.device) then ChainEnded(reports, dot.device)
    else if dot in b.links then HeldAnswer(b, b', reports, op)
    else NewAnswer(b', reports, op)
  }

  // ---------- the records served again ----------

  lemma {:induction false} ReportsGrow(o: Outcome, reserved: seq<Served>)
    ensures o.reports <= ServeAllAgain(o, reserved).reports
    decreases |reserved|
  {
    if reserved != [] {
      ReportsGrow(ServeAgain(o, reserved[0]), reserved[1..]);
    }
  }

  lemma AllAreIn(before: seq<Report>, these: seq<Report>, reports: seq<Report>)
    requires before + these <= reports
    ensures forall r :: r in these ==> r in reports
  {
    forall r | r in these
      ensures r in reports
    {
      var i :| 0 <= i < |these| && these[i] == r;
      assert reports[|before| + i] == (before + these)[|before| + i];
    }
  }

  predicate AnsweredAgain(o: Outcome, op: Served)
    requires op.header.dot in o.book.links
  {
    var h := op.header;
    (!NeedsCover(op.body) ==> !o.book.links[h.dot].state.Rejected?) &&
    (o.book.links[h.dot].state.Rejected? ==>
       Gap(h.dot.device, h.prev, Uncovered(h.dot)) in o.reports &&
       (op.body.Rejected? ==> RejectedBody(h.dot) in o.reports))
  }

  /** One record served again for a link that no snapshot covers. */
  lemma OnceAnswered(o: Outcome, op: Served)
    requires op.header.dot in o.book.links && !Covered(o.book.items, op.header)
    ensures op.header.dot in ServeAgain(o, op).book.links && AnsweredAgain(ServeAgain(o, op), op)
  {
    match op.body
    case Verified =>
    case Waiting =>
    case _ =>
  }

  lemma {:induction false} AgainAnswered(o: Outcome, reserved: seq<Served>, op: Served)
    requires op in reserved && op.header.dot in o.book.links && !Covered(o.book.items, op.header)
    ensures op.header.dot in ServeAllAgain(o, reserved).book.links && AnsweredAgain(ServeAllAgain(o, reserved), op)
    decreases |reserved|
  {
    var o1, rest, dot := ServeAgain(o, reserved[0]), reserved[1..], op.header.dot;
    ServedOnce(o, reserved[0], dot);
    if reserved[0] == op {
      OnceAnswered(o, op);
      ReportsGrow(o1, rest);
      var i := ServedAgainDecides(o1, rest, dot);
    } else {
      assert op in rest && o1.book.items == o.book.items;
      AgainAnswered(o1, rest, op);
    }
  }

  // ---------- one device's group ----------

  lemma GroupFacts(o: Outcome, g: Group, vault: Vault, trace: seq<Event>, own: Device)
    requires Kept(o.book, trace, own) && GroupFits(vault, own, g)
    ensures
      var w := WalkOf(o.book, [], g);
      var o1, o' := ServeAllAgain(o.(reports := o.reports + w.reports), w.reserved), CommitGroup(o, g);
      Kept(o'.book, trace, own) && SameBase(o.book, o'.book) && Added(o1.book, o'.book, w.accepted) &&
      o1.book.links.Keys == o.book.links.Keys &&
      o'.reports == o1.reports && o.reports + w.reports <= o'.reports &&
      (forall e :: Entry(o'.book.heads, e) == if e == g.device then w.prev else Entry(o.book.heads, e))
  {
    var w := WalkOf(o.book, [], g);
    var o0 := o.(reports := o.reports + w.reports);
    var o1 := ServeAllAgain(o0, w.reserved);
    WalkIsRight(o.book, [], g);
    CommitGroupKeeps(o, g, vault, trace, own);
    hide Kept, WalkFrom, AcceptAll, ServeAllAgain, Extends;
    ServeAllAgainKeeps(o0, w.reserved, trace, own);
    ExtendsOn(o.book, o1.book, w.accepted, Entry(o.book.heads, g.device));
    AcceptAllKeeps(o1, w.accepted, g.device, trace, own);
    AcceptAllFacts(o1, w.accepted);
    ReportsGrow(o0, w.reserved);
  }

  lemma LinkIsBelow(b: Book, trace: seq<Event>, own: Device, dot: Dot)
    requires Kept(b, trace, own) && dot in b.links
    ensures b.links[dot].header.dot == dot && dot.number <= Entry(b.heads, dot.device)
  {
    assert LinkFits(b.links, b.heads, dot);
  }

  /** What accounts for a header whose number had its link before the walk. */
  lemma HeldAccount(b: Book, w: Walk, op: Served)
    requires op.header.dot in b.links && op.header.dot.number <= w.prev && op !in w.accepted
    requires Accounted(b, op.header.dot.device, w, op)
    ensures if ServedAgain(b, op.header) then op in w.reserved
            else if b.links[op.header.dot].header == op.header then Duplicate(op.header.dot) in w.reports
            else Equivocation(op.header.dot) in w.reports
  {
  }

  lemma ReservedIsAnswered(o: Outcome, g: Group, vault: Vault, trace: seq<Event>, own: Device, op: Served)
    requires Kept(o.book, trace, own) && GroupFits(vault, own, g) && op in WalkOf(o.book, [], g).reserved
    requires op.header.dot in o.book.links && ServedAgain(o.book, op.header)
    ensures op.header.dot in CommitGroup(o, g).book.links && AnsweredAgain(CommitGroup(o, g), op)
  {
    hide Kept, WalkFrom, CommitGroup, AnsweredAgain, ServeAllAgain, GroupFits;
    var w, o', dot := WalkOf(o.book, [], g), CommitGroup(o, g), op.header.dot;
    var o1 := ServeAllAgain(o.(reports := o.reports + w.reports), w.reserved);
    GroupFacts(o, g, vault, trace, own);
    AgainAnswered(o.(reports := o.reports + w.reports), w.reserved, op);
    StaysAnswered(o1, o', op);
  }

  lemma StaysAnswered(o: Outcome, o': Outcome, op: Served)
    requires op.header.dot in o.book.links && AnsweredAgain(o, op)
    requires op.header.dot in o'.book.links && o'.book.links[op.header.dot] == o.book.links[op.header.dot]
    requires o'.reports == o.reports
    ensures AnsweredAgain(o', op)
  {
  }

  lemma HeldIsAnswered(o: Outcome, g: Group, vault: Vault, trace: seq<Event>, own: Device, op: Served)
    requires Kept(o.book, trace, own) && GroupFits(vault, own, g) && op in g.served
    requires op.header.dot in o.book.links
    ensures HeldAnswer(o.book, CommitGroup(o, g).book, CommitGroup(o, g).reports, op)
  {
    hide Kept, WalkFrom, CommitGroup, ServeAllAgain;
    var w, o' := WalkOf(o.book, [], g), CommitGroup(o, g);
    LinkIsBelow(o.book, trace, own, op.header.dot);
    WalkStartsAbove(o.book, g);
    NothingIsMissed(o.book, [], g, op);
    GroupFacts(o, g, vault, trace, own);
    hide GroupFits, Added;
    HeldAccount(o.book, w, op);
    if ServedAgain(o.book, op.header) {
      ReservedIsAnswered(o, g, vault, trace, own, op);
    } else {
      AllAreIn(o.reports, w.reports, o'.reports);
    }
  }

  /** What a walk accepts is above the head it starts from, which it never goes below. */
  lemma WalkStartsAbove(b: Book, g: Group)
    ensures forall a | a in WalkOf(b, [], g).accepted :: a.header.dot.number > Entry(b.heads, g.device)
    ensures WalkOf(b, [], g).prev >= Entry(b.heads, g.device)
  {
    WalkKeepsAll(b, [], g.served, Walk([], [], [], Entry(b.heads, g.device)));
  }

  /** What accounts for a header whose number had no link before the walk. */
  lemma NewAccount(b: Book, b1: Book, b': Book, w: Walk, reports: seq<Report>, op: Served)
    requires op.header.dot !in b.links && op.header.dot.number <= w.prev && b1.links.Keys == b.links.Keys
    requires Accounted(b, op.header.dot.device, w, op) && BadReported(w, op) && Added(b1, b', w.accepted)
    requires forall r :: r in w.reports ==> r in reports
    ensures NewAnswer(b', reports, op)
  {
    var h := op.header;
    if op in w.accepted {
      assert AcceptedAs(b', op);
    } else if InChain(b, w.accepted, h) {
      assert Duplicate(h.dot) in reports;
      var a :| a in w.accepted && a.header == h;
      assert AcceptedAs(b', a);
    } else {
      assert Equivocation(h.dot) in reports;
      if h.dot in b'.links {
        assert h.dot in Dots(w.accepted);
        var i :| 0 <= i < |w.accepted| && Dots(w.accepted)[i] == h.dot;
        assert AcceptedAs(b', w.accepted[i]);
      }
    }
  }

  lemma NewIsAnswered(o: Outcome, g: Group, vault: Vault, trace: seq<Event>, own: Device, op: Served)
    requires Kept(o.book, trace, own) && GroupFits(vault, own, g) && op in g.served
    requires op.header.dot !in o.book.links && op.header.dot.number <= WalkOf(o.book, [], g).prev
    ensures NewAnswer(CommitGroup(o, g).book, CommitGroup(o, g).reports, op)
  {
    hide Kept, WalkFrom, CommitGroup, ServeAllAgain;
    var w, o' := WalkOf(o.book, [], g), CommitGroup(o, g);
    NothingIsMissed(o.book, [], g, op);
    GroupFacts(o, g, vault, trace, own);
    AllAreIn(o.reports, w.reports, o'.reports);
    hide GroupFits;
    var o1 := ServeAllAgain(o.(reports := o.reports + w.reports), w.reserved);
    NewAccount(o.book, o1.book, o'.book, w, o'.reports, op);
  }

  lemma GroupIsAnswered(o: Outcome, g: Group, vault: Vault, trace: seq<Event>, own: Device, op: Served)
    requires Kept(o.book, trace, own) && GroupFits(vault, own, g) && op in g.served
    ensures Answered(o.book, CommitGroup(o, g).book, CommitGroup(o, g).reports, op)
  {
    hide Kept, WalkFrom, CommitGroup, HeldAnswer, NewAnswer, ServeAllAgain, Added;
    var w, dot := WalkOf(o.book, [], g), op.header.dot;
    GroupFacts(o, g, vault, trace, own);
    if dot.number > w.prev {
      NothingIsMissed(o.book, [], g, op);
      AllAreIn(o.reports, w.reports, CommitGroup(o, g).reports);
    } else if dot in o.book.links {
      HeldIsAnswered(o, g, vault, trace, own, op);
    } else {
      NewIsAnswered(o, g, vault, trace, own, op);
    }
  }

  // ---------- the other devices' groups ----------

  /** Nothing that an answer about this device depends on is different. */
  predicate SameFor(b: Book, b': Book, d: Device) {
    b'.items == b.items && Entry(b'.heads, d) == Entry(b.heads, d) &&
    (forall dot | dot in b.links && dot.device == d :: dot in b'.links && b'.links[dot] == b.links[dot]) &&
    (forall dot | dot in b'.links && dot.device == d :: dot in b.links)
  }

  lemma OtherGroupStays(o: Outcome, g: Group, vault: Vault, trace: seq<Event>, own: Device, d: Device)
    requires Kept(o.book, trace, own) && GroupFits(vault, own, g) && g.device != d
    ensures Kept(CommitGroup(o, g).book, trace, own)
    ensures SameFor(o.book, CommitGroup(o, g).book, d) && o.reports <= CommitGroup(o, g).reports
  {
    var o' := CommitGroup(o, g);
    GroupFacts(o, g, vault, trace, own);
    GroupBrings(o, g, vault, trace, own);
    forall dot | dot in o'.book.links && dot.device == d
      ensures dot in o.book.links && o'.book.links[dot] == o.book.links[dot]
    {
      assert LinkBrought(o.book, o'.book, g.served, dot);
      assert LinkFits(o'.book.links, o'.book.heads, dot);
    }
  }

  lemma {:induction false} OtherGroupsStay(o: Outcome, groups: seq<Group>, vault: Vault, trace: seq<Event>, own: Device,
                                           d: Device)
    requires Kept(o.book, trace, own) && GroupsFit(vault, own, groups)
    requires forall g | g in groups :: g.device != d
    ensures SameFor(o.book, CommitGroups(o, groups).book, d) && o.reports <= CommitGroups(o, groups).reports
    decreases |groups|
  {
    if groups != [] {
      OtherGroupStays(o, groups[0], vault, trace, own, d);
      hide Kept, CommitGroup;
      OtherGroupsStay(CommitGroup(o, groups[0]), groups[1..], vault, trace, own, d);
    }
  }

  lemma AnsweredLater(b: Book, b1: Book, b': Book, reports: seq<Report>, more: seq<Report>, op: Served)
    requires Answered(b, b1, reports, op) && SameFor(b1, b', op.header.dot.device) && reports <= more
    ensures Answered(b, b', more, op)
  {
    assert forall r :: r in reports ==> r in more;
  }

  lemma AnsweredEarlier(b: Book, b1: Book, b': Book, reports: seq<Report>, op: Served)
    requires SameFor(b, b1, op.header.dot.device) && Answered(b1, b', reports, op)
    ensures Answered(b, b', reports, op)
  {
  }

  lemma {:induction false} GroupsAnswer(o: Outcome, groups: seq<Group>, vault: Vault, trace: seq<Event>, own: Device,
                                        op: Served)
    requires Kept(o.book, trace, own) && GroupsFit(vault, own, groups)
    requires op in ServedOf(groups, op.header.dot.device)
    ensures Answered(o.book, CommitGroups(o, groups).book, CommitGroups(o, groups).reports, op)
    decreases |groups|
  {
    var g, rest, o1, d := groups[0], groups[1..], CommitGroup(o, groups[0]), op.header.dot.device;
    var o' := CommitGroups(o1, rest);
    hide Answered, SameFor, CommitGroup;
    if g.device == d {
      GroupIsAnswered(o, g, vault, trace, own, op);
      GroupFacts(o, g, vault, trace, own);
      hide Kept;
      OtherGroupsStay(o1, rest, vault, trace, own, d);
      AnsweredLater(o.book, o1.book, o'.book, o1.reports, o'.reports, op);
    } else {
      OtherGroupStays(o, g, vault, trace, own, d);
      hide Kept;
      GroupsAnswer(o1, rest, vault, trace, own, op);
      AnsweredEarlier(o.book, o1.book, o'.book, o'.reports, op);
    }
  }

  /**
   Every header of another device in this vault is answered, in whatever order it was served: it has its link,
   or a report says why not, and a rejected link that is served again is settled or reported again.
   */
  lemma EveryHeaderIsAnswered(o: Outcome, vault: Vault, own: Device, ops: seq<Served>, trace: seq<Event>, op: Served)
    requires Kept(o.book, trace, own) && op in ops && ToWalk(vault, own, op)
    ensures
      var o' := CommitGroups(o, Grouped(vault, own, ops));
      Answered(o.book, o'.book, o'.reports, op)
  {
    var d := op.header.dot.device;
    GroupedFacts(vault, own, ops, d);
    IsOf(ops, vault, op);
    assert op in multiset(ServedOf(Grouped(vault, own, ops), d));
    GroupsAnswer(o, Grouped(vault, own, ops), vault, trace, own, op);
  }

  lemma {:induction false} IsOf(ops: seq<Served>, vault: Vault, op: Served)
    requires op in ops && op.header.vault == vault
    ensures op in multiset(Of(ops, vault, op.header.dot.device))
  {
    var last := ops[|ops| - 1];
    if op != last {
      assert op in ops[..|ops| - 1];
      IsOf(ops[..|ops| - 1], vault, op);
    }
  }

  // ---------- a whole response ----------

  lemma {:induction false} OnlyMoreReports(o: Outcome, groups: seq<Group>, vault: Vault, trace: seq<Event>, own: Device)
    requires Kept(o.book, trace, own) && GroupsFit(vault, own, groups)
    ensures o.reports <= CommitGroups(o, groups).reports
    decreases |groups|
  {
    if groups != [] {
      GroupFacts(o, groups[0], vault, trace, own);
      hide Kept, CommitGroup;
      OnlyMoreReports(CommitGroup(o, groups[0]), groups[1..], vault, trace, own);
    }
  }

  /** Every header of a response has its answer: from the walk of its chain, or, where there is none, in its turn. */
  ghost predicate AllAnswered(b: Book, b': Book, vault: Vault, own: Device, ops: seq<Served>, reports: seq<Report>) {
    Aside(b, vault, own, ops) <= reports &&
    forall op | op in ops && ToWalk(vault, own, op) :: Answered(b, b', reports, op)
  }

  lemma ResponseIsAnswered(b: Book, vault: Vault, own: Device, ops: seq<Served>, trace: seq<Event>)
    requires Kept(b, trace, own)
    ensures
      var o' := CommitGroups(Outcome(b, [], Aside(b, vault, own, ops)), Grouped(vault, own, ops));
      AllAnswered(b, o'.book, vault, own, ops, o'.reports)
  {
    var o := Outcome(b, [], Aside(b, vault, own, ops));
    hide Kept, CommitGroup, Answered, Aside, Grouped;
    GroupedFacts(vault, own, ops, own + 1);
    OnlyMoreReports(o, Grouped(vault, own, ops), vault, trace, own);
    forall op | op in ops && ToWalk(vault, own, op)
      ensures Answered(b, CommitGroups(o, Grouped(vault, own, ops)).book,
                       CommitGroups(o, Grouped(vault, own, ops)).reports, op)
    {
      EveryHeaderIsAnswered(o, vault, own, ops, trace, op);
    }
  }

  lemma AnsweredTheSame(b: Book, b1: Book, b': Book, vault: Vault, own: Device, ops: seq<Served>, reports: seq<Report>)
    requires AllAnswered(b, b1, vault, own, ops, reports) && b'.links == b1.links && b'.heads == b1.heads
    ensures AllAnswered(b, b', vault, own, ops, reports)
  {
    forall op | op in ops && ToWalk(vault, own, op)
      ensures Answered(b, b', reports, op)
    {
      assert Answered(b, b1, reports, op);
    }
  }
}
