/**
 The second pass of the chain check, which accepts links (crates/rizzy-sync/src/causal.rs). The first pass,
 which names the covers to absorb before it, is in `CoverPlans`. Main result: `CommitKeeps`.
 */
module ChainCommit {
  import opened VersionVectors
  import opened CausalLog
  import opened ChainCheck

  datatype Outcome = Outcome(book: Book, accepted: seq<Dot>, reports: seq<Report>)

  /** One record served again for a rejected link: the link's next state, and what is reported. */
  function ServeAgain(o: Outcome, op: Served): Outcome {
    var h := op.header;
    if h.dot !in o.book.links || !o.book.links[h.dot].state.Rejected? then o
    else
      match op.body
      case Verified => o.(book := Judged(o.book, h.dot, Ready))
      case Waiting => o.(book := Judged(o.book, h.dot, State.Waiting))
      case _ =>
        o.(reports := o.reports
                      + (if op.body.Rejected? then [RejectedBody(h.dot)] else [])
                      + (if Covered(o.book.items, h) then [] else [Gap(h.dot.device, h.prev, Uncovered(h.dot))]))
  }

  function ServeAllAgain(o: Outcome, reserved: seq<Served>): Outcome
    decreases |reserved|
  {
    if reserved == [] then o else ServeAllAgain(ServeAgain(o, reserved[0]), reserved[1..])
  }

  function Accept(o: Outcome, op: Served): Outcome {
    o.(book := Accepted(o.book, op.header, FromBody(op.body)), accepted := o.accepted + [op.header.dot])
  }

  function AcceptAll(o: Outcome, accepted: seq<Served>): Outcome
    decreases |accepted|
  {
    if accepted == [] then o else AcceptAll(Accept(o, accepted[0]), accepted[1..])
  }

  function CommitGroup(o: Outcome, g: Group): Outcome {
    var w := WalkOf(o.book, [], g);
    AcceptAll(ServeAllAgain(o.(reports := o.reports + w.reports), w.reserved), w.accepted)
  }

  function CommitGroups(o: Outcome, groups: seq<Group>): Outcome
    decreases |groups|
  {
    if groups == [] then o else CommitGroups(CommitGroup(o, groups[0]), groups[1..])
  }

  // ---------- what a commit keeps ----------

  /** What no step of a commit touches. */
  predicate SameBase(b: Book, b': Book) {
    && b'.items == b.items
    && b'.cutoffs == b.cutoffs
    && b'.frontiers == b.frontiers
    && b'.absorbed == b.absorbed
  }

  lemma {:induction false} ServeAllAgainKeeps(o: Outcome, reserved: seq<Served>, trace: seq<Event>, own: Device)
    requires Kept(o.book, trace, own)
    ensures var o' := ServeAllAgain(o, reserved);
            && Kept(o'.book, trace, own)
            && SameBase(o.book, o'.book)
            && o'.book.heads == o.book.heads
            && o'.accepted == o.accepted
            && o'.book.links.Keys == o.book.links.Keys
            && forall dot | dot in o.book.links :: o'.book.links[dot].header == o.book.links[dot].header
    decreases |reserved|
  {
    hide Kept;
    if reserved != [] {
      var dot := reserved[0].header.dot;
      if dot in o.book.links && o.book.links[dot].state.Rejected? {
        if reserved[0].body.Verified? {
          JudgeKeeps(o.book, trace, own, dot, Ready);
        } else if reserved[0].body.Waiting? {
          JudgeKeeps(o.book, trace, own, dot, State.Waiting);
        }
      }
      ServeAllAgainKeeps(ServeAgain(o, reserved[0]), reserved[1..], trace, own);
    }
  }

  /** Without its first header, a run of headers extends the chain from there. */
  lemma ExtendsTail(b: Book, b': Book, counting: seq<Cover>, accepted: seq<Served>, head: nat)
    requires Extends(b, counting, accepted, head) && accepted != []
    requires b'.items == b.items && b'.cutoffs == b.cutoffs
    ensures TakenRightly(b, counting, accepted[0], head)
    ensures Extends(b', counting, accepted[1..], accepted[0].header.dot.number)
  {
    assert accepted[..0] == [];
    assert TakenRightly(b, counting, accepted[0], Last(accepted[..0], head));
    var rest := accepted[1..];
    forall i | 0 <= i < |rest|
      ensures TakenRightly(b', counting, rest[i], Last(rest[..i], accepted[0].header.dot.number))
    {
      assert TakenRightly(b, counting, accepted[i + 1], Last(accepted[..i + 1], head));
      assert accepted[..i + 1] == [accepted[0]] + rest[..i];
    }
  }

  predicate AcceptedAs(b: Book, op: Served) {
    && op.header.dot in b.links
    && b.links[op.header.dot] == Link(op.header, FromBody(op.body))
  }

  lemma {:induction false} AcceptAllFacts(o: Outcome, accepted: seq<Served>)
    ensures SameBase(o.book, AcceptAll(o, accepted).book)
    ensures AcceptAll(o, accepted).reports == o.reports
    ensures AcceptAll(o, accepted).accepted == o.accepted + Dots(accepted)
    decreases |accepted|
  {
    if accepted != [] {
      var o1, rest := Accept(o, accepted[0]), accepted[1..];
      AcceptAllFacts(o1, rest);
      assert o.accepted + ([accepted[0].header.dot] + Dots(rest)) == o1.accepted + Dots(rest);
    }
  }

  lemma {:induction false} AcceptAllMovesHead(o: Outcome, accepted: seq<Served>, d: Device, e: Device)
    requires forall op | op in accepted :: op.header.dot.device == d
    ensures Entry(AcceptAll(o, accepted).book.heads, e)
            == if e == d then Last(accepted, Entry(o.book.heads, d)) else Entry(o.book.heads, e)
    decreases |accepted|
  {
    if accepted != [] {
      AcceptAllMovesHead(Accept(o, accepted[0]), accepted[1..], d, e);
    }
  }

  /** The links that were there stay as they are, and the accepted ones are there. */
  ghost predicate Added(b: Book, b': Book, accepted: seq<Served>) {
    && (forall dot | dot in b.links :: dot in b'.links && b'.links[dot] == b.links[dot])
    && (forall op | op in accepted :: AcceptedAs(b', op))
    && (forall dot | dot in b'.links :: dot in b.links || dot in Dots(accepted))
  }

  lemma AddedOneMore(b: Book, b1: Book, b': Book, accepted: seq<Served>)
    requires accepted != [] && accepted[0].header.dot !in b.links
    requires b1.links == b.links[accepted[0].header.dot := Link(accepted[0].header, FromBody(accepted[0].body))]
    requires Added(b1, b', accepted[1..])
    ensures Added(b, b', accepted)
  {
    assert AcceptedAs(b', accepted[0]);
  }

  lemma {:induction false} AcceptAllKeeps(o: Outcome, accepted: seq<Served>, d: Device, trace: seq<Event>, own: Device)
    requires Kept(o.book, trace, own) && d != own
    requires Extends(o.book, [], accepted, Entry(o.book.heads, d))
    requires forall op | op in accepted :: op.header.dot.device == d
    ensures Kept(AcceptAll(o, accepted).book, trace, own)
    ensures Added(o.book, AcceptAll(o, accepted).book, accepted)
    decreases |accepted|
  {
    if accepted != [] {
      var op, o1 := accepted[0], Accept(o, accepted[0]);
      ExtendsTail(o.book, o1.book, [], accepted, Entry(o.book.heads, d));
      AcceptKeeps(o.book, trace, own, op.header, FromBody(op.body));
      NextLinks(o.book, op.header, FromBody(op.body));
      hide Kept, Linked, Grown, Extends, Added;
      AcceptAllKeeps(o1, accepted[1..], d, trace, own);
      AddedOneMore(o.book, o1.book, AcceptAll(o, accepted).book, accepted);
    }
  }

  function Dots(accepted: seq<Served>): (dots: seq<Dot>)
    ensures |dots| == |accepted|
    ensures forall i | 0 <= i < |dots| :: dots[i] == accepted[i].header.dot
  {
    if accepted == [] then [] else [accepted[0].header.dot] + Dots(accepted[1..])
  }

  /** The accepted headers of one device's group, checked against the first pass or the second. */
  function AcceptedOf(b: Book, counting: seq<Cover>, g: Group): seq<Served> {
    WalkOf(b, counting, g).accepted
  }

  lemma CommitGroupKeeps(o: Outcome, g: Group, vault: Vault, trace: seq<Event>, own: Device)
    requires Kept(o.book, trace, own) && GroupFits(vault, own, g)
    ensures var o', accepted := CommitGroup(o, g), AcceptedOf(o.book, [], g);
            && Kept(o'.book, trace, own)
            && SameBase(o.book, o'.book)
            && o'.accepted == o.accepted + Dots(accepted)
            && (forall e :: Entry(o'.book.heads, e)
                            == if e == g.device then Last(accepted, Entry(o.book.heads, e)) else Entry(o.book.heads, e))
            && (forall dot | dot in o.book.links ::
                  dot in o'.book.links && o'.book.links[dot].header == o.book.links[dot].header)
            && (forall op | op in accepted :: op in g.served && AcceptedAs(o'.book, op))
            && (forall op | op in accepted && NeedsCover(op.body) :: Covered(o.book.items, op.header))
            && (forall dot | dot in o'.book.links :: dot in o.book.links || dot in Dots(accepted))
  {
    var w := WalkOf(o.book, [], g);
    var o0 := o.(reports := o.reports + w.reports);
    var o1, o' := ServeAllAgain(o0, w.reserved), CommitGroup(o, g);
    WalkIsRight(o.book, [], g);
    assert forall op | op in w.accepted && NeedsCover(op.body) :: Covered(o.book.items, op.header) by {
      forall op | op in w.accepted && NeedsCover(op.body)
        ensures Covered(o.book.items, op.header)
      {
        var i :| 0 <= i < |w.accepted| && w.accepted[i] == op;
        assert TakenRightly(o.book, [], w.accepted[i], Last(w.accepted[..i], Entry(o.book.heads, g.device)));
      }
    }
    hide Kept, WalkFrom, AcceptAll, ServeAllAgain;
    ServeAllAgainKeeps(o0, w.reserved, trace, own);
    ExtendsOn(o.book, o1.book, w.accepted, Entry(o.book.heads, g.device));
    AcceptAllKeeps(o1, w.accepted, g.device, trace, own);
    AcceptAllFacts(o1, w.accepted);
    forall e
      ensures Entry(o'.book.heads, e)
              == if e == g.device then Last(w.accepted, Entry(o.book.heads, e)) else Entry(o.book.heads, e)
    {
      AcceptAllMovesHead(o1, w.accepted, g.device, e);
    }
  }

  lemma ExtendsOn(b: Book, b': Book, accepted: seq<Served>, head: nat)
    requires Extends(b, [], accepted, head) && b'.items == b.items && b'.cutoffs == b.cutoffs
    ensures Extends(b', [], accepted, head)
  {
    forall i | 0 <= i < |accepted|
      ensures TakenRightly(b', [], accepted[i], Last(accepted[..i], head))
    {
      assert TakenRightly(b, [], accepted[i], Last(accepted[..i], head));
    }
  }

  /** A dot of the outcome is a link now, with a header that was served; without a body, behind a cover. */
  predicate WasServed(b: Book, groups: seq<Group>, dot: Dot) {
    && dot in b.links
    && exists g, op | g in groups && op in g.served ::
         AsServed(b, op, dot)
  }

  predicate AsServed(b: Book, op: Served, dot: Dot) {
    && dot in b.links
    && op.header.dot == dot
    && b.links[dot].header == op.header
    && (NeedsCover(op.body) ==> Covered(b.items, op.header))
  }

  /** What one commit does, whatever the response. */
  ghost predicate CommitFits(o: Outcome, o': Outcome, groups: seq<Group>) {
    && SameBase(o.book, o'.book)
    && o.accepted <= o'.accepted
    && (forall dot | dot in o.book.links ::
          dot in o'.book.links && o'.book.links[dot].header == o.book.links[dot].header)
    && (forall k | |o.accepted| <= k < |o'.accepted| :: WasServed(o'.book, groups, o'.accepted[k]))
    && (forall dot | dot in o'.book.links :: dot in o.book.links || dot in o'.accepted[|o.accepted|..])
  }

  lemma AcceptedWasServed(b: Book, g: Group, op: Served)
    requires op in g.served && AcceptedAs(b, op) && (NeedsCover(op.body) ==> Covered(b.items, op.header))
    ensures WasServed(b, [g], op.header.dot)
  {
    assert AsServed(b, op, op.header.dot);
    assert g in [g] && op in g.served;
  }

  lemma CommitGroupFits(o: Outcome, g: Group, vault: Vault, trace: seq<Event>, own: Device)
    requires Kept(o.book, trace, own) && GroupFits(vault, own, g)
    ensures Kept(CommitGroup(o, g).book, trace, own)
    ensures CommitFits(o, CommitGroup(o, g), [g])
  {
    var o', accepted := CommitGroup(o, g), AcceptedOf(o.book, [], g);
    hide Kept, AcceptedOf, CommitGroup, GroupFits, WasServed, AcceptedAs, Covered, NeedsCover;
    CommitGroupKeeps(o, g, vault, trace, own);
    hide Entry, Last;
    assert o'.accepted[|o.accepted|..] == Dots(accepted);
    forall k | |o.accepted| <= k < |o'.accepted|
      ensures WasServed(o'.book, [g], o'.accepted[k])
    {
      var op := accepted[k - |o.accepted|];
      assert op in accepted && op.header.dot == o'.accepted[k];
      assert o'.book.items == o.book.items;
      AcceptedWasServed(o'.book, g, op);
    }
  }

  lemma CommitFitsTwice(o: Outcome, o1: Outcome, o': Outcome, g: Group, rest: seq<Group>)
    requires CommitFits(o, o1, [g]) && CommitFits(o1, o', rest)
    ensures CommitFits(o, o', [g] + rest)
  {
    forall k | |o.accepted| <= k < |o'.accepted|
      ensures WasServed(o'.book, [g] + rest, o'.accepted[k])
    {
      if k < |o1.accepted| {
        assert o1.accepted[k] == o'.accepted[k];
        assert WasServed(o1.book, [g], o1.accepted[k]);
        var f, op :| f in [g] && op in f.served && AsServed(o1.book, op, o1.accepted[k]);
        assert f in [g] + rest && AsServed(o'.book, op, o'.accepted[k]);
      } else {
        assert WasServed(o'.book, rest, o'.accepted[k]);
        var f, op :| f in rest && op in f.served && AsServed(o'.book, op, o'.accepted[k]);
        assert f in [g] + rest;
      }
    }
    forall dot | dot in o'.book.links && dot !in o.book.links
      ensures dot in o'.accepted[|o.accepted|..]
    {
      if dot in o1.book.links {
        assert dot in o1.accepted[|o.accepted|..];
        assert o1.accepted[|o.accepted|..] <= o'.accepted[|o.accepted|..];
      } else {
        assert o'.accepted[|o1.accepted|..] == o'.accepted[|o.accepted|..][|o1.accepted| - |o.accepted|..];
      }
    }
  }

  /** A commit keeps what the log keeps; every link it adds was served, and behind a cover if it has no body. */
  lemma {:induction false} CommitKeeps(o: Outcome, groups: seq<Group>, vault: Vault, trace: seq<Event>, own: Device)
    requires Kept(o.book, trace, own) && GroupsFit(vault, own, groups)
    ensures Kept(CommitGroups(o, groups).book, trace, own)
    ensures CommitFits(o, CommitGroups(o, groups), groups)
    decreases |groups|
  {
    if groups != [] {
      var o1 := CommitGroup(o, groups[0]);
      CommitGroupFits(o, groups[0], vault, trace, own);
      hide Kept, CommitGroup, CommitFits;
      CommitKeeps(o1, groups[1..], vault, trace, own);
      CommitFitsTwice(o, o1, CommitGroups(o1, groups[1..]), groups[0], groups[1..]);
      assert groups == [groups[0]] + groups[1..];
    }
  }
}
