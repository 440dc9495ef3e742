/**
 What one response makes of the links (crates/rizzy-sync/src/causal.rs): each link it adds has the state its
 served body says, and a held link changes only when it was rejected and is served again with a better body.
 */
module ServedLinks {
  import opened VersionVectors
  import opened CausalLog
  import opened ChainCheck
  import opened ChainCommit

  /** The state of a link whose body was served like this. */
  predicate BodySays(body: Body, state: State) {
    match body
    case Verified => state.Ready?
    case Waiting => state.Waiting?
    case Rejected => state.Rejected?
    case Bodiless => state.Bodiless?
  }

  predicate ServedSo(ops: seq<Served>, h: OpHeader, state: State) {
    exists op :: op in ops && op.header == h && BodySays(op.body, state)
  }

  /** The link at `dot` is as it was, or as some served record with its header says. */
  predicate LinkBrought(b: Book, b': Book, ops: seq<Served>, dot: Dot)
    requires dot in b'.links
  {
    if dot in b.links then
      b'.links[dot] == b.links[dot] ||
      (b.links[dot].state.Rejected? && b'.links[dot].header == b.links[dot].header &&
       !b'.links[dot].state.Rejected? && ServedSo(ops, b'.links[dot].header, b'.links[dot].state))
    else ServedSo(ops, b'.links[dot].header, b'.links[dot].state)
  }

  ghost predicate BroughtBy(b: Book, b': Book, ops: seq<Served>) {
    b.links.Keys <= b'.links.Keys && forall dot | dot in b'.links :: LinkBrought(b, b', ops, dot)
  }

  lemma BroughtTheSame(b: Book, b': Book, b2: Book, ops: seq<Served>)
    requires BroughtBy(b, b', ops) && b2.links == b'.links
    ensures BroughtBy(b, b2, ops)
  {
    forall dot | dot in b2.links
      ensures LinkBrought(b, b2, ops, dot)
    {
      assert LinkBrought(b, b', ops, dot);
    }
  }

  lemma BroughtTwice(b: Book, b1: Book, b2: Book, ops: seq<Served>)
    requires BroughtBy(b, b1, ops) && BroughtBy(b1, b2, ops)
    ensures BroughtBy(b, b2, ops)
  {
    forall dot | dot in b2.links
      ensures LinkBrought(b, b2, ops, dot)
    {
      assert LinkBrought(b1, b2, ops, dot);
      assert dot in b1.links ==> LinkBrought(b, b1, ops, dot);
    }
  }

  lemma BroughtByMore(b: Book, b': Book, ops: seq<Served>, more: seq<Served>)
    requires BroughtBy(b, b', ops) && forall op :: op in ops ==> op in more
    ensures BroughtBy(b, b', more)
  {
    forall dot | dot in b'.links
      ensures LinkBrought(b, b', more, dot)
    {
      assert LinkBrought(b, b', ops, dot);
    }
  }

  // ---------- one response ----------

  /** A record served again names the header the link has. */
  predicate NamesLink(b: Book, op: Served) {
    op.header.dot in b.links ==> b.links[op.header.dot].header == op.header
  }

  /** One record served again. */
  lemma ServedOnce(o: Outcome, op: Served, dot: Dot)
    requires dot in o.book.links
    ensures
      var before, after := o.book.links[dot], ServeAgain(o, op).book.links;
      dot in after && after[dot].header == before.header &&
      if before.state.Rejected? && op.header.dot == dot && !NeedsCover(op.body)
      then BodySays(op.body, after[dot].state) && !after[dot].state.Rejected?
      else after[dot] == before
  {
    if op.header.dot == dot {
      match op.body
      case Verified =>
      case Waiting =>
      case _ =>
    }
  }

  lemma {:induction false} ServedAgainBrings(o: Outcome, reserved: seq<Served>)
    requires forall op | op in reserved :: NamesLink(o.book, op)
    ensures BroughtBy(o.book, ServeAllAgain(o, reserved).book, reserved)
    decreases |reserved|
  {
    if reserved != [] {
      var op, o1, rest := reserved[0], ServeAgain(o, reserved[0]), reserved[1..];
      assert BroughtBy(o.book, o1.book, reserved) by {
        assert op in reserved && NamesLink(o.book, op);
        forall dot | dot in o1.book.links
          ensures LinkBrought(o.book, o1.book, reserved, dot)
        {
          ServedOnce(o, op, dot);
          if o1.book.links[dot] != o.book.links[dot] {
            assert ServedSo(reserved, op.header, o1.book.links[dot].state);
          }
        }
      }
      forall op' | op' in rest
        ensures NamesLink(o1.book, op')
      {
        assert NamesLink(o.book, op');
      }
      ServedAgainBrings(o1, rest);
      BroughtByMore(o1.book, ServeAllAgain(o1, rest).book, rest, reserved);
      BroughtTwice(o.book, o1.book, ServeAllAgain(o1, rest).book, reserved);
    }
  }

  lemma AcceptedSays(b: Book, op: Served, ops: seq<Served>)
    requires op in ops && AcceptedAs(b, op)
    ensures ServedSo(ops, b.links[op.header.dot].header, b.links[op.header.dot].state)
  {
    assert BodySays(op.body, b.links[op.header.dot].state);
  }

  lemma AddedBrings(b: Book, b': Book, accepted: seq<Served>)
    requires Added(b, b', accepted)
    ensures BroughtBy(b, b', accepted)
  {
    hide BodySays, ServedSo, AcceptedAs;
    forall dot | dot in b'.links
      ensures LinkBrought(b, b', accepted, dot)
    {
      if dot !in b.links {
        var i :| 0 <= i < |accepted| && Dots(accepted)[i] == dot;
        assert accepted[i] in accepted;
        AcceptedSays(b', accepted[i], accepted);
      }
    }
  }

  lemma GroupBrings(o: Outcome, g: Group, vault: Vault, trace: seq<Event>, own: Device)
    requires Kept(o.book, trace, own) && GroupFits(vault, own, g)
    ensures BroughtBy(o.book, CommitGroup(o, g).book, g.served)
  {
    var w := WalkOf(o.book, [], g);
    var o0 := o.(reports := o.reports + w.reports);
    var o1, o' := ServeAllAgain(o0, w.reserved), CommitGroup(o, g);
    WalkIsRight(o.book, [], g);
    hide Kept, WalkFrom, AcceptAll, ServeAllAgain, Extends;
    ServeAllAgainKeeps(o0, w.reserved, trace, own);
    ExtendsOn(o.book, o1.book, w.accepted, Entry(o.book.heads, g.device));
    AcceptAllKeeps(o1, w.accepted, g.device, trace, own);
    forall op | op in w.reserved
      ensures NamesLink(o0.book, op)
    {
      assert ServedAgain(o.book, op.header);
    }
    ServedAgainBrings(o0, w.reserved);
    AddedBrings(o1.book, o'.book, w.accepted);
    hide Added, NamesLink, BroughtBy;
    BroughtByMore(o.book, o1.book, w.reserved, g.served);
    BroughtByMore(o1.book, o'.book, w.accepted, g.served);
    BroughtTwice(o.book, o1.book, o'.book, g.served);
  }

  lemma {:induction false} GroupsBring(o: Outcome, groups: seq<Group>, ops: seq<Served>, vault: Vault,
                                       trace: seq<Event>, own: Device)
    requires Kept(o.book, trace, own) && GroupsFit(vault, own, groups)
    requires forall g, op | g in groups && op in g.served :: op in ops
    ensures BroughtBy(o.book, CommitGroups(o, groups).book, ops)
    decreases |groups|
  {
    if groups != [] {
      var g, o1 := groups[0], CommitGroup(o, groups[0]);
      GroupBrings(o, g, vault, trace, own);
      CommitGroupFits(o, g, vault, trace, own);
      hide Kept, CommitGroup, CommitFits, BroughtBy;
      assert forall op | op in g.served :: op in ops;
      BroughtByMore(o.book, o1.book, g.served, ops);
      GroupsBring(o1, groups[1..], ops, vault, trace, own);
      BroughtTwice(o.book, o1.book, CommitGroups(o1, groups[1..]).book, ops);
    }
  }

  /** What the groups hold was served. */
  lemma {:induction false} GroupedAreServed(vault: Vault, own: Device, ops: seq<Served>)
    ensures forall g, op | g in Grouped(vault, own, ops) && op in g.served :: op in ops
  {
    if ops != [] {
      var before, last := ops[..|ops| - 1], ops[|ops| - 1];
      GroupedAreServed(vault, own, before);
      if ToWalk(vault, own, last) {
        PlacedAre(Grouped(vault, own, before), last);
      }
      forall g, op | g in Grouped(vault, own, ops) && op in g.served
        ensures op in ops
      {
        assert op in before || op == last;
      }
    }
  }

  lemma {:induction false} PlacedAre(groups: seq<Group>, op: Served)
    ensures forall g, x | g in Place(groups, op) && x in g.served :: x == op || exists f | f in groups :: x in f.served
  {
    var d := op.header.dot.device;
    if groups == [] || d < groups[0].device {
    } else if groups[0].device == d {
      InsertAdds(groups[0].served, op);
      forall x | x in Insert(groups[0].served, op)
        ensures x == op || x in groups[0].served
      {
        assert x in multiset(Insert(groups[0].served, op));
      }
    } else {
      PlacedAre(groups[1..], op);
    }
  }

  /** A response brings each link it adds the state its body was served with, and betters rejected links alone. */
  lemma ResponseBrings(o: Outcome, vault: Vault, own: Device, ops: seq<Served>, trace: seq<Event>)
    requires Kept(o.book, trace, own)
    ensures BroughtBy(o.book, CommitGroups(o, Grouped(vault, own, ops)).book, ops)
  {
    GroupedFacts(vault, own, ops, own + 1);
    GroupedAreServed(vault, own, ops);
    GroupsBring(o, Grouped(vault, own, ops), ops, vault, trace, own);
  }

  // ---------- a rejected link served again ----------

  /** The first record served again for the link whose body may settle it. */
  predicate FirstUsable(reserved: seq<Served>, dot: Dot, i: nat) {
    i < |reserved| && reserved[i].header.dot == dot && !NeedsCover(reserved[i].body) &&
    forall j :: 0 <= j < i && reserved[j].header.dot == dot ==> NeedsCover(reserved[j].body)
  }

  /**
   That record, the `i`th, decides what becomes of a rejected link. Without one, `i` is past the end, and the
   link stays rejected. No other link changes.
   */
  lemma {:induction false} ServedAgainDecides(o: Outcome, reserved: seq<Served>, dot: Dot) returns (i: nat)
    requires dot in o.book.links
    ensures
      var after := ServeAllAgain(o, reserved).book.links;
      dot in after && after[dot].header == o.book.links[dot].header &&
      (!o.book.links[dot].state.Rejected? ==> after[dot] == o.book.links[dot])
    ensures i < |reserved| ==> FirstUsable(reserved, dot, i)
    ensures i >= |reserved| ==> forall op :: op in reserved && op.header.dot == dot ==> NeedsCover(op.body)
    ensures o.book.links[dot].state.Rejected? ==>
              var state := ServeAllAgain(o, reserved).book.links[dot].state;
              if i < |reserved| then BodySays(reserved[i].body, state) else state.Rejected?
    decreases |reserved|
  {
    i := 0;
    if reserved != [] {
      var op, o1, rest := reserved[0], ServeAgain(o, reserved[0]), reserved[1..];
      ServedOnce(o, op, dot);
      var k := ServedAgainDecides(o1, rest, dot);
      hide ServeAgain;
      assert forall j :: 0 < j < |reserved| ==> reserved[j] == rest[j - 1];
      if op.header.dot != dot || NeedsCover(op.body) {
        i := k + 1;
      }
    }
  }
}
