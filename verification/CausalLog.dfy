/**
 What one device keeps of a vault's chains (crates/rizzy-sync/src/causal.rs): the accepted links of
 every device's chain, what is settled of every item, the bodies ready to deliver, and the cut-offs of
 revoked devices. The log is a value here, its changes are functions on it, and `Kept` is what every one
 of them keeps. `Kept` speaks of a trace as well, the history of what was absorbed, written, delivered and
 revoked: what the log promises of its deliveries is said of that history, step by step.
 */
module CausalLog {
  import opened Base
  import opened VersionVectors

  type Vault = nat

  type Item = nat

  /** The highest sequence number there is, of 64 bits. */
  const MAX_NUMBER: nat := 0xFFFF_FFFF_FFFF_FFFF

  /** An op's header; `rest` stands for the fields the log only compares. */
  datatype Header = Header(vault: Vault, item: Item, dot: Dot, prev: nat, hlc: nat, rest: nat, context: VersionVector)

  /** Sequence numbers begin at 1. */
  type OpHeader = h: Header | h.dot.number > 0 witness Header(0, 0, Dot(0, 1), 0, 0, 0, map[])

  datatype Body = Verified | Waiting | Rejected | Bodiless

  datatype Served = Served(header: OpHeader, body: Body)

  datatype State = Ready | Waiting | Rejected | Bodiless | Delivered | Revoked

  datatype Link = Link(header: OpHeader, state: State)

  datatype ReadyBody = ReadyBody(item: Item, dot: Dot)

  /** The log's fields. The links of all chains are one map here, by device and sequence number. */
  datatype Book = Book(
    links: map<Dot, Link>,
    heads: map<Device, nat>,
    frontiers: map<Device, nat>,
    items: map<Item, VersionVector>,
    ready: set<ReadyBody>,
    dirty: set<Item>,
    absorbed: set<Item>,
    cutoffs: map<Device, nat>)

  /** Where a chain, or its frontier, stands: 0 for a chain without links. */
  function Entry(m: map<Device, nat>, d: Device): nat {
    if d in m then m[d] else 0
  }

  function SettledOf(items: map<Item, VersionVector>, item: Item): VersionVector {
    if item in items then items[item] else map[]
  }

  predicate Covered(items: map<Item, VersionVector>, h: OpHeader) {
    CoversDot(SettledOf(items, h.item), h.dot)
  }

  predicate Settled(items: map<Item, VersionVector>, link: Link) {
    link.state.Delivered? || Covered(items, link.header)
  }

  predicate ContextSettled(items: map<Item, VersionVector>, h: OpHeader) {
    AtMost(h.context, SettledOf(items, h.item))
  }

  predicate NeedsCover(body: Body) {
    body.Bodiless? || body.Rejected?
  }

  function FromBody(body: Body): State {
    match body
    case Verified => Ready
    case Waiting => State.Waiting
    case Rejected => State.Rejected
    case Bodiless => State.Bodiless
  }

  // ---------- the changes ----------

  /** A header accepted as the next link of its chain. */
  function Accepted(b: Book, h: OpHeader, s: State): Book {
    b.(links := b.links[h.dot := Link(h, s)],
       heads := b.heads[h.dot.device := h.dot.number],
       ready := if s.Ready? then b.ready + {ReadyBody(h.item, h.dot)} else b.ready,
       dirty := if s.Ready? then b.dirty + {h.item} else b.dirty)
  }

  /** A held link whose body's verdict changed. */
  function Judged(b: Book, dot: Dot, s: State): Book
    requires dot in b.links
  {
    var h := b.links[dot].header;
    b.(links := b.links[dot := Link(h, s)],
       ready := if s.Ready? then b.ready + {ReadyBody(h.item, dot)} else b.ready,
       dirty := if s.Ready? then b.dirty + {h.item} else b.dirty)
  }

  /** A part of a cover joins the item's settled vector. */
  function Absorbed(b: Book, item: Item, recorded: VersionVector): Book {
    b.(items := b.items[item := Join(SettledOf(b.items, item), recorded)],
       dirty := b.dirty + {item},
       absorbed := b.absorbed + {item})
  }

  /** The own chain grows by an op, which is delivered and settled when it is written. */
  function Written(b: Book, h: OpHeader): Book {
    Accepted(b.(items := b.items[h.item := Add(SettledOf(b.items, h.item), h.dot)]), h, Delivered)
  }

  /** A ready body handed to the merge. A fresh one joins its dot into the item's settled vector. */
  function HandedOn(b: Book, dot: Dot, covered: bool): Book
    requires dot in b.links && dot.number > 0
  {
    var h := b.links[dot].header;
    b.(links := b.links[dot := Link(h, Delivered)],
       ready := b.ready - {ReadyBody(h.item, dot)},
       items := if covered then b.items else b.items[h.item := Add(SettledOf(b.items, h.item), dot)],
       dirty := if covered then b.dirty else b.dirty + {h.item})
  }

  predicate CutOff(links: map<Dot, Link>, d: Device, cut: nat, dot: Dot) {
    dot in links && dot.device == d && dot.number > cut && !links[dot].state.Delivered? && !links[dot].state.Revoked?
  }

  function LowerCut(cutoffs: map<Device, nat>, d: Device, number: nat): nat {
    if d in cutoffs && cutoffs[d] < number then cutoffs[d] else number
  }

  /** A device revoked from a number on: what is past the cut-off and not delivered yet never will be. */
  function RevokedFrom(b: Book, d: Device, number: nat): Book {
    var cut := LowerCut(b.cutoffs, d, number);
    b.(cutoffs := b.cutoffs[d := cut],
       links := map dot | dot in b.links ::
         if CutOff(b.links, d, cut, dot) then Link(b.links[dot].header, Revoked) else b.links[dot],
       ready := set r | r in b.ready && !CutOff(b.links, d, cut, r.dot))
  }

  // ---------- the history ----------

  datatype Event =
    | Took(item: Item, taken: VersionVector)
    | Wrote(header: OpHeader)
    | Handed(header: OpHeader, covered: bool)
    | Cut(device: Device, number: nat)

  function DotBrings(h: OpHeader, item: Item, d: Device): nat {
    if h.item == item && h.dot.device == d then h.dot.number else 0
  }

  /** How far one event settles a device's ops on an item. */
  function Brings(e: Event, item: Item, d: Device): nat {
    match e
    case Took(i, taken) => if i == item then Get(taken, d) else 0
    case Wrote(h) => DotBrings(h, item, d)
    case Handed(h, _) => DotBrings(h, item, d)
    case Cut(_, _) => 0
  }

  /** How far a history settles a device's ops on an item. */
  function Reached(trace: seq<Event>, item: Item, d: Device): nat {
    if trace == [] then 0
    else Max(Reached(trace[..|trace| - 1], item, d), Brings(trace[|trace| - 1], item, d))
  }

  predicate SettledBy(trace: seq<Event>, h: OpHeader) {
    h.dot.number <= Reached(trace, h.item, h.dot.device)
  }

  ghost predicate ContextBy(trace: seq<Event>, h: OpHeader) {
    forall d | d in h.context :: h.context[d] <= Reached(trace, h.item, d)
  }

  predicate Earlier(e: Dot, dot: Dot) {
    e.device == dot.device && e.number < dot.number
  }

  /** Every earlier link of the chain was settled. */
  ghost predicate ChainBy(past: seq<Event>, links: map<Dot, Link>, dot: Dot) {
    forall e | e in links && Earlier(e, dot) :: SettledBy(past, links[e].header)
  }

  predicate HandedIn(trace: seq<Event>, dot: Dot) {
    exists j | 0 <= j < |trace| :: trace[j].Handed? && trace[j].header.dot == dot
  }

  predicate CutBelow(e: Event, dot: Dot) {
    e.Cut? && e.device == dot.device && e.number < dot.number
  }

  /**
   What is promised of one delivery, when it is made: it is an accepted link of another device's chain,
   its body was not delivered before, its device was not known to be revoked from before it; it is marked
   covered exactly when its dot was settled already; and if it is not, its causal context and all the
   earlier links of its chain were settled.
   */
  ghost predicate RightlyHanded(past: seq<Event>, links: map<Dot, Link>, own: Device, h: OpHeader, covered: bool) {
    && h.dot in links && links[h.dot] == Link(h, Delivered)
    && h.dot.device != own
    && !HandedIn(past, h.dot)
    && (forall j | 0 <= j < |past| :: !CutBelow(past[j], h.dot))
    && (covered <==> SettledBy(past, h))
    && (!covered ==> ContextBy(past, h) && ChainBy(past, links, h.dot))
  }

  ghost predicate EventFits(trace: seq<Event>, k: nat, links: map<Dot, Link>, own: Device)
    requires k < |trace|
  {
    trace[k].Handed? ==> RightlyHanded(trace[..k], links, own, trace[k].header, trace[k].covered)
  }

  // ---------- what is kept ----------

  predicate LinkFits(links: map<Dot, Link>, heads: map<Device, nat>, dot: Dot)
    requires dot in links
  {
    var h := links[dot].header;
    && h.dot == dot
    && dot.number <= Entry(heads, dot.device)
    && h.prev < dot.number
    && (h.prev == 0 || Dot(dot.device, h.prev) in links)
  }

  predicate NoneBetween(links: map<Dot, Link>, dot: Dot, e: Dot)
    requires dot in links
  {
    Earlier(e, dot) ==> e.number <= links[dot].header.prev
  }

  /** The links of a chain hang together: each names the one before it, up to the head. */
  ghost predicate Linked(links: map<Dot, Link>, heads: map<Device, nat>) {
    && (forall dot {:trigger LinkFits(links, heads, dot)} | dot in links :: LinkFits(links, heads, dot))
    && (forall dot, e | dot in links && e in links :: NoneBetween(links, dot, e))
    && (forall d | d in heads :: Dot(d, heads[d]) in links)
  }

  predicate InIndex(links: map<Dot, Link>, r: ReadyBody) {
    r.dot in links && links[r.dot].state.Ready? && links[r.dot].header.item == r.item
  }

  /** The index of ready bodies holds the ready links and nothing else. */
  ghost predicate Indexed(links: map<Dot, Link>, ready: set<ReadyBody>) {
    && (forall r | r in ready :: InIndex(links, r))
    && (forall dot | dot in links && links[dot].state.Ready? :: ReadyBody(links[dot].header.item, dot) in ready)
  }

  predicate PastCut(cutoffs: map<Device, nat>, dot: Dot) {
    dot.device in cutoffs && dot.number > cutoffs[dot.device]
  }

  /** Past a cut-off links are delivered already or revoked, and only such links are revoked. */
  predicate CutFits(links: map<Dot, Link>, cutoffs: map<Device, nat>, dot: Dot)
    requires dot in links
  {
    && (PastCut(cutoffs, dot) ==> links[dot].state.Delivered? || links[dot].state.Revoked?)
    && (links[dot].state.Revoked? ==> PastCut(cutoffs, dot))
  }

  ghost predicate CutKept(links: map<Dot, Link>, cutoffs: map<Device, nat>) {
    forall dot | dot in links :: CutFits(links, cutoffs, dot)
  }

  predicate SettledFits(links: map<Dot, Link>, items: map<Item, VersionVector>, dot: Dot)
    requires dot in links
  {
    links[dot].state.Delivered? || links[dot].state.Bodiless? ==> Covered(items, links[dot].header)
  }

  /** A delivered op's dot is settled, and a link without a body is held only behind a cover. */
  ghost predicate SettledKept(links: map<Dot, Link>, items: map<Item, VersionVector>) {
    forall dot | dot in links :: SettledFits(links, items, dot)
  }

  /** A ready body that is covered is on an item the next delivery looks at. */
  ghost predicate DirtyKept(ready: set<ReadyBody>, items: map<Item, VersionVector>, dirty: set<Item>) {
    forall r | r in ready && CoversDot(SettledOf(items, r.item), r.dot) :: r.item in dirty
  }

  predicate FrontierFits(links: map<Dot, Link>, items: map<Item, VersionVector>, frontiers: map<Device, nat>, dot: Dot)
    requires dot in links
  {
    dot.number < Entry(frontiers, dot.device) ==> Covered(items, links[dot].header)
  }

  predicate FrontierLow(heads: map<Device, nat>, frontiers: map<Device, nat>, d: Device) {
    Entry(frontiers, d) <= Entry(heads, d) + 1
  }

  /** Everything below a chain's frontier is settled. */
  ghost predicate FrontierKept(links: map<Dot, Link>, heads: map<Device, nat>, items: map<Item, VersionVector>,
                               frontiers: map<Device, nat>)
  {
    && (forall dot | dot in links :: FrontierFits(links, items, frontiers, dot))
    && (forall d | d in frontiers :: FrontierLow(heads, frontiers, d))
  }

  /** What is settled of an item is what the history brought of it. */
  ghost predicate TraceSettles(items: map<Item, VersionVector>, trace: seq<Event>) {
    forall item, d :: Get(SettledOf(items, item), d) == Reached(trace, item, d)
  }

  ghost predicate TraceFits(trace: seq<Event>, links: map<Dot, Link>, own: Device) {
    forall k | 0 <= k < |trace| :: EventFits(trace, k, links, own)
  }

  predicate HandFits(links: map<Dot, Link>, trace: seq<Event>, own: Device, dot: Dot)
    requires dot in links
  {
    if dot.device == own then links[dot].state.Delivered?
    else links[dot].state.Delivered? ==> HandedIn(trace, dot)
  }

  /** The delivered links of other devices are those the history handed on. */
  ghost predicate HandKept(links: map<Dot, Link>, trace: seq<Event>, own: Device) {
    forall dot | dot in links :: HandFits(links, trace, own, dot)
  }

  predicate CutKnown(e: Event, cutoffs: map<Device, nat>) {
    e.Cut? ==> e.device in cutoffs && cutoffs[e.device] <= e.number
  }

  ghost predicate CutsKnown(trace: seq<Event>, cutoffs: map<Device, nat>) {
    forall k | 0 <= k < |trace| :: CutKnown(trace[k], cutoffs)
  }

  ghost predicate Kept(b: Book, trace: seq<Event>, own: Device) {
    && Linked(b.links, b.heads)
    && Indexed(b.links, b.ready)
    && CutKept(b.links, b.cutoffs)
    && SettledKept(b.links, b.items)
    && DirtyKept(b.ready, b.items, b.dirty)
    && FrontierKept(b.links, b.heads, b.items, b.frontiers)
    && TraceSettles(b.items, trace)
    && TraceFits(trace, b.links, own)
    && HandKept(b.links, trace, own)
    && CutsKnown(trace, b.cutoffs)
  }

  // ---------- how the parts stay ----------

  /** The links that were there keep their headers, delivered ones stay delivered, new ones come after them. */
  ghost predicate Grown(links: map<Dot, Link>, links': map<Dot, Link>) {
    && links.Keys <= links'.Keys
    && (forall dot | dot in links :: links'[dot].header == links[dot].header)
    && (forall dot | dot in links && links[dot].state.Delivered? :: links'[dot].state.Delivered?)
    && (forall dot, e | dot in links && e in links' && Earlier(e, dot) :: e in links)
  }

  lemma TraceStays(trace: seq<Event>, links: map<Dot, Link>, links': map<Dot, Link>, own: Device)
    requires TraceFits(trace, links, own) && Grown(links, links')
    ensures TraceFits(trace, links', own)
  {
    forall k | 0 <= k < |trace|
      ensures EventFits(trace, k, links', own)
    {
      assert EventFits(trace, k, links, own);
    }
  }

  lemma TraceExtends(trace: seq<Event>, e: Event, links: map<Dot, Link>, own: Device)
    requires TraceFits(trace, links, own)
    requires e.Handed? ==> RightlyHanded(trace, links, own, e.header, e.covered)
    ensures TraceFits(trace + [e], links, own)
  {
    var longer := trace + [e];
    forall k | 0 <= k < |longer|
      ensures EventFits(longer, k, links, own)
    {
      if k < |trace| {
        assert EventFits(trace, k, links, own);
        assert longer[..k] == trace[..k] && longer[k] == trace[k];
      } else {
        assert longer[..k] == trace && longer[k] == e;
      }
    }
  }

  /** The history settles what is covered. */
  lemma CoveredBySettled(items: map<Item, VersionVector>, trace: seq<Event>, h: OpHeader)
    requires TraceSettles(items, trace)
    ensures Covered(items, h) <==> SettledBy(trace, h)
    ensures ContextSettled(items, h) <==> ContextBy(trace, h)
  {
    assert Get(SettledOf(items, h.item), h.dot.device) == Reached(trace, h.item, h.dot.device);
    forall d
      ensures Get(SettledOf(items, h.item), d) == Reached(trace, h.item, d)
    {
    }
  }

  lemma SettlesMore(items: map<Item, VersionVector>, items': map<Item, VersionVector>, trace: seq<Event>, e: Event)
    requires TraceSettles(items, trace)
    requires forall item, d ::
               Get(SettledOf(items', item), d) == Max(Get(SettledOf(items, item), d), Brings(e, item, d))
    ensures TraceSettles(items', trace + [e])
  {
    forall item, d
      ensures Get(SettledOf(items', item), d) == Reached(trace + [e], item, d)
    {
      assert (trace + [e])[..|trace|] == trace;
    }
  }

  lemma AddBrings(items: map<Item, VersionVector>, h: OpHeader, item: Item, d: Device)
    ensures var items' := items[h.item := Add(SettledOf(items, h.item), h.dot)];
            Get(SettledOf(items', item), d) == Max(Get(SettledOf(items, item), d), DotBrings(h, item, d))
  {
  }

  lemma JoinBrings(items: map<Item, VersionVector>, i: Item, taken: VersionVector, item: Item, d: Device)
    ensures var items' := items[i := Join(SettledOf(items, i), taken)];
            Get(SettledOf(items', item), d) == Max(Get(SettledOf(items, item), d), Brings(Took(i, taken), item, d))
  {
  }

  /** What is settled stays settled. */
  ghost predicate Higherward(items: map<Item, VersionVector>, items': map<Item, VersionVector>) {
    forall item, d :: Get(SettledOf(items, item), d) <= Get(SettledOf(items', item), d)
  }

  lemma SettledStays(links: map<Dot, Link>, heads: map<Device, nat>, frontiers: map<Device, nat>,
                     items: map<Item, VersionVector>, items': map<Item, VersionVector>)
    requires SettledKept(links, items) && FrontierKept(links, heads, items, frontiers) && Higherward(items, items')
    ensures SettledKept(links, items') && FrontierKept(links, heads, items', frontiers)
  {
    forall dot | dot in links
      ensures SettledFits(links, items', dot) && FrontierFits(links, items', frontiers, dot)
    {
      assert SettledFits(links, items, dot) && FrontierFits(links, items, frontiers, dot);
      var h := links[dot].header;
      assert Get(SettledOf(items, h.item), h.dot.device) <= Get(SettledOf(items', h.item), h.dot.device);
    }
  }

  lemma HandStays(trace: seq<Event>, e: Event, dot: Dot)
    ensures HandedIn(trace, dot) ==> HandedIn(trace + [e], dot)
    ensures e.Handed? && e.header.dot == dot ==> HandedIn(trace + [e], dot)
  {
    var longer := trace + [e];
    if HandedIn(trace, dot) {
      var j :| 0 <= j < |trace| && trace[j].Handed? && trace[j].header.dot == dot;
      assert longer[j] == trace[j];
    }
    assert longer[|trace|] == e;
  }

  lemma CutsStay(trace: seq<Event>, e: Event, cutoffs: map<Device, nat>, cutoffs': map<Device, nat>)
    requires CutsKnown(trace, cutoffs) && CutKnown(e, cutoffs')
    requires forall d | d in cutoffs :: d in cutoffs' && cutoffs'[d] <= cutoffs[d]
    ensures CutsKnown(trace + [e], cutoffs')
  {
    var longer := trace + [e];
    forall k | 0 <= k < |longer|
      ensures CutKnown(longer[k], cutoffs')
    {
      if k < |trace| {
        assert longer[k] == trace[k] && CutKnown(trace[k], cutoffs);
      }
    }
  }

  // ---------- the next link of a chain ----------

  predicate Next(b: Book, h: OpHeader) {
    h.dot.number > Entry(b.heads, h.dot.device) && h.prev == Entry(b.heads, h.dot.device)
  }

  lemma NextLinks(b: Book, h: OpHeader, s: State)
    requires Linked(b.links, b.heads) && Next(b, h)
    ensures h.dot !in b.links
    ensures Linked(b.links[h.dot := Link(h, s)], b.heads[h.dot.device := h.dot.number])
    ensures Grown(b.links, b.links[h.dot := Link(h, s)])
  {
    var links', heads' := b.links[h.dot := Link(h, s)], b.heads[h.dot.device := h.dot.number];
    assert h.dot in b.links ==> LinkFits(b.links, b.heads, h.dot);
    forall dot | dot in links'
      ensures LinkFits(links', heads', dot)
    {
      if dot != h.dot {
        assert LinkFits(b.links, b.heads, dot);
      }
    }
    forall dot, e | dot in links' && e in links'
      ensures NoneBetween(links', dot, e)
    {
      if dot != h.dot {
        assert LinkFits(b.links, b.heads, dot);
        if e != h.dot {
          assert NoneBetween(b.links, dot, e);
        }
      } else if e != h.dot {
        assert LinkFits(b.links, b.heads, e);
      }
    }
    forall dot, e | dot in b.links && e in links' && Earlier(e, dot)
      ensures e in b.links
    {
      assert LinkFits(b.links, b.heads, dot);
    }
  }

  lemma NextKeepsFrontier(b: Book, h: OpHeader, s: State, items': map<Item, VersionVector>)
    requires Next(b, h) && FrontierKept(b.links, b.heads, items', b.frontiers)
    ensures FrontierKept(b.links[h.dot := Link(h, s)], b.heads[h.dot.device := h.dot.number], items', b.frontiers)
  {
    var links', heads' := b.links[h.dot := Link(h, s)], b.heads[h.dot.device := h.dot.number];
    forall dot | dot in links'
      ensures FrontierFits(links', items', b.frontiers, dot)
    {
      if dot != h.dot {
        assert FrontierFits(b.links, items', b.frontiers, dot);
      } else if h.dot.device in b.frontiers {
        assert FrontierLow(b.heads, b.frontiers, h.dot.device);
      }
    }
    forall d | d in b.frontiers
      ensures FrontierLow(heads', b.frontiers, d)
    {
      assert FrontierLow(b.heads, b.frontiers, d);
    }
  }

  /** What the chain check demands of a header before it becomes a link. */
  predicate Acceptable(b: Book, own: Device, h: OpHeader, s: State) {
    && Next(b, h)
    && h.dot.device != own
    && !PastCut(b.cutoffs, h.dot)
    && !s.Delivered? && !s.Revoked?
    && (s.Bodiless? ==> Covered(b.items, h))
  }

  lemma NextIndexed(links: map<Dot, Link>, ready: set<ReadyBody>, h: OpHeader, s: State)
    requires Indexed(links, ready) && h.dot !in links
    ensures Indexed(links[h.dot := Link(h, s)], if s.Ready? then ready + {ReadyBody(h.item, h.dot)} else ready)
  {
    var links', ready' := links[h.dot := Link(h, s)], if s.Ready? then ready + {ReadyBody(h.item, h.dot)} else ready;
    forall r | r in ready'
      ensures InIndex(links', r)
    {
      assert r in ready ==> InIndex(links, r);
    }
  }

  /** What is said link by link stays true when one link is put in. */
  lemma PutKeeps(links: map<Dot, Link>, items: map<Item, VersionVector>, cutoffs: map<Device, nat>, trace: seq<Event>,
                 own: Device, dot: Dot, link: Link)
    requires CutKept(links, cutoffs) && SettledKept(links, items) && HandKept(links, trace, own)
    requires var links' := links[dot := link];
             CutFits(links', cutoffs, dot) && SettledFits(links', items, dot) && HandFits(links', trace, own, dot)
    ensures CutKept(links[dot := link], cutoffs)
    ensures SettledKept(links[dot := link], items)
    ensures HandKept(links[dot := link], trace, own)
  {
    var links' := links[dot := link];
    forall e | e in links'
      ensures CutFits(links', cutoffs, e) && SettledFits(links', items, e) && HandFits(links', trace, own, e)
    {
      assert e != dot ==> CutFits(links, cutoffs, e) && SettledFits(links, items, e) && HandFits(links, trace, own, e);
    }
  }

  lemma HandKeptOn(links: map<Dot, Link>, trace: seq<Event>, e: Event, own: Device)
    requires HandKept(links, trace, own)
    ensures HandKept(links, trace + [e], own)
  {
    forall dot | dot in links
      ensures HandFits(links, trace + [e], own, dot)
    {
      assert HandFits(links, trace, own, dot);
      HandStays(trace, e, dot);
    }
  }

  lemma AcceptKeeps(b: Book, trace: seq<Event>, own: Device, h: OpHeader, s: State)
    requires Kept(b, trace, own) && Acceptable(b, own, h, s)
    ensures Kept(Accepted(b, h, s), trace, own)
  {
    hide Linked, Indexed, CutKept, SettledKept, FrontierKept, TraceSettles, TraceFits, HandKept, CutsKnown, Grown;
    NextLinks(b, h, s);
    TraceStays(trace, b.links, Accepted(b, h, s).links, own);
    NextKeepsFrontier(b, h, s, b.items);
    NextIndexed(b.links, b.ready, h, s);
    PutKeeps(b.links, b.items, b.cutoffs, trace, own, h.dot, Link(h, s));
  }

  // ---------- an own op ----------

  /** No body of an own op is ready: they are all delivered when they are written. */
  lemma WriteKeepsDirty(b: Book, trace: seq<Event>, own: Device, h: OpHeader)
    requires Kept(b, trace, own) && h.dot.device == own
    ensures DirtyKept(b.ready, Written(b, h).items, b.dirty)
  {
    forall r | r in b.ready && CoversDot(SettledOf(Written(b, h).items, r.item), r.dot)
      ensures r.item in b.dirty
    {
      assert InIndex(b.links, r) && HandFits(b.links, trace, own, r.dot);
      AddBrings(b.items, h, r.item, r.dot.device);
    }
  }

  lemma WriteSettles(items: map<Item, VersionVector>, trace: seq<Event>, h: OpHeader, e: Event)
    requires TraceSettles(items, trace) && (e == Wrote(h) || e == Handed(h, false))
    ensures var items' := items[h.item := Add(SettledOf(items, h.item), h.dot)];
            TraceSettles(items', trace + [e]) && Higherward(items, items') && Covered(items', h)
  {
    var items' := items[h.item := Add(SettledOf(items, h.item), h.dot)];
    forall item, d
      ensures Get(SettledOf(items', item), d) == Max(Get(SettledOf(items, item), d), Brings(e, item, d))
    {
      AddBrings(items, h, item, d);
    }
    SettlesMore(items, items', trace, e);
  }

  lemma WriteKeeps(b: Book, trace: seq<Event>, own: Device, h: OpHeader)
    requires Kept(b, trace, own) && Next(b, h) && h.dot.device == own
    ensures Kept(Written(b, h), trace + [Wrote(h)], own)
  {
    WriteKeepsDirty(b, trace, own, h);
    hide Linked, Indexed, CutKept, SettledKept, FrontierKept, TraceSettles, TraceFits, HandKept, CutsKnown, Grown,
         DirtyKept, Higherward;
    var b' := Written(b, h);
    NextLinks(b, h, Delivered);
    TraceStays(trace, b.links, b'.links, own);
    TraceExtends(trace, Wrote(h), b'.links, own);
    WriteSettles(b.items, trace, h, Wrote(h));
    SettledStays(b.links, b.heads, b.frontiers, b.items, b'.items);
    NextKeepsFrontier(b, h, Delivered, b'.items);
    NextIndexed(b.links, b.ready, h, Delivered);
    CutsStay(trace, Wrote(h), b.cutoffs, b.cutoffs);
    HandKeptOn(b.links, trace, Wrote(h), own);
    PutKeeps(b.links, b'.items, b.cutoffs, trace + [Wrote(h)], own, h.dot, Link(h, Delivered));
  }

  // ---------- a body's verdict ----------

  /** A link that is not delivered takes another state, not delivered either; its header stays. */
  lemma StateGrows(links: map<Dot, Link>, heads: map<Device, nat>, dot: Dot, s: State)
    requires Linked(links, heads) && dot in links
    requires links[dot].state.Delivered? ==> s.Delivered?
    ensures var links' := links[dot := Link(links[dot].header, s)];
            Linked(links', heads) && Grown(links, links')
  {
    var links' := links[dot := Link(links[dot].header, s)];
    forall e | e in links'
      ensures LinkFits(links', heads, e)
    {
      assert LinkFits(links, heads, e);
    }
    forall e, f | e in links' && f in links'
      ensures NoneBetween(links', e, f)
    {
      assert NoneBetween(links, e, f);
    }
  }

  lemma StateKeepsFrontier(links: map<Dot, Link>, heads: map<Device, nat>, items: map<Item, VersionVector>,
                           frontiers: map<Device, nat>, dot: Dot, s: State)
    requires FrontierKept(links, heads, items, frontiers) && dot in links
    ensures FrontierKept(links[dot := Link(links[dot].header, s)], heads, items, frontiers)
  {
    var links' := links[dot := Link(links[dot].header, s)];
    forall e | e in links'
      ensures FrontierFits(links', items, frontiers, e)
    {
      assert FrontierFits(links, items, frontiers, e);
    }
  }

  lemma JudgeKeepsIndex(b: Book, dot: Dot, s: State)
    requires Indexed(b.links, b.ready) && dot in b.links && b.links[dot].header.dot == dot && !b.links[dot].state.Ready?
    ensures Indexed(Judged(b, dot, s).links, Judged(b, dot, s).ready)
  {
    var b' := Judged(b, dot, s);
    forall r | r in b'.ready
      ensures InIndex(b'.links, r)
    {
      assert r in b.ready ==> InIndex(b.links, r);
    }
  }

  predicate Judgeable(b: Book, dot: Dot, s: State) {
    && dot in b.links
    && (b.links[dot].state.Waiting? || b.links[dot].state.Rejected?)
    && (s.Ready? || s.Waiting? || s.Rejected?)
  }

  lemma JudgeKeeps(b: Book, trace: seq<Event>, own: Device, dot: Dot, s: State)
    requires Kept(b, trace, own) && Judgeable(b, dot, s)
    ensures Kept(Judged(b, dot, s), trace, own)
  {
    assert LinkFits(b.links, b.heads, dot) && CutFits(b.links, b.cutoffs, dot) && HandFits(b.links, trace, own, dot);
    hide Linked, Indexed, CutKept, SettledKept, FrontierKept, TraceSettles, TraceFits, HandKept, CutsKnown, Grown;
    StateGrows(b.links, b.heads, dot, s);
    TraceStays(trace, b.links, Judged(b, dot, s).links, own);
    StateKeepsFrontier(b.links, b.heads, b.items, b.frontiers, dot, s);
    JudgeKeepsIndex(b, dot, s);
    PutKeeps(b.links, b.items, b.cutoffs, trace, own, dot, Link(b.links[dot].header, s));
  }

  // ---------- a cover absorbed ----------

  lemma AbsorbKeeps(b: Book, trace: seq<Event>, own: Device, item: Item, recorded: VersionVector)
    requires Kept(b, trace, own)
    ensures Kept(Absorbed(b, item, recorded), trace + [Took(item, recorded)], own)
  {
    var b', e := Absorbed(b, item, recorded), Took(item, recorded);
    forall i, d
      ensures Get(SettledOf(b'.items, i), d) == Max(Get(SettledOf(b.items, i), d), Brings(e, i, d))
    {
      JoinBrings(b.items, item, recorded, i, d);
    }
    SettlesMore(b.items, b'.items, trace, e);
    hide Linked, Indexed, CutKept, SettledKept, FrontierKept, TraceSettles, TraceFits, HandKept, CutsKnown;
    TraceExtends(trace, e, b.links, own);
    SettledStays(b.links, b.heads, b.frontiers, b.items, b'.items);
    CutsStay(trace, e, b.cutoffs, b.cutoffs);
    HandKeptOn(b.links, trace, e, own);
  }

  // ---------- a delivery ----------

  ghost predicate ChainSettled(b: Book, dot: Dot) {
    forall e | e in b.links && Earlier(e, dot) :: Covered(b.items, b.links[e].header)
  }

  /** What makes a ready body due: a cover, or everything it depends on being settled. */
  ghost predicate Deliverable(b: Book, dot: Dot) {
    && dot in b.links
    && b.links[dot].state.Ready?
    && (Covered(b.items, b.links[dot].header) || (ContextSettled(b.items, b.links[dot].header) && ChainSettled(b, dot)))
  }

  ghost predicate DeliverableAs(b: Book, dot: Dot, covered: bool) {
    && dot in b.links
    && b.links[dot].state.Ready?
    && (covered <==> Covered(b.items, b.links[dot].header))
    && (!covered ==> ContextSettled(b.items, b.links[dot].header) && ChainSettled(b, dot))
  }

  lemma NotHandedYet(b: Book, trace: seq<Event>, own: Device, dot: Dot)
    requires Kept(b, trace, own) && dot in b.links && b.links[dot].state.Ready?
    ensures b.links[dot].header.dot == dot && dot.device != own
    ensures !HandedIn(trace, dot)
    ensures forall j | 0 <= j < |trace| :: !CutBelow(trace[j], dot)
  {
    assert LinkFits(b.links, b.heads, dot) && HandFits(b.links, trace, own, dot) && CutFits(b.links, b.cutoffs, dot);
    forall j | 0 <= j < |trace|
      ensures !CutBelow(trace[j], dot) && !(trace[j].Handed? && trace[j].header.dot == dot)
    {
      assert EventFits(trace, j, b.links, own) && CutKnown(trace[j], b.cutoffs);
    }
  }

  lemma RightToHand(b: Book, trace: seq<Event>, own: Device, dot: Dot, covered: bool)
    requires Kept(b, trace, own) && DeliverableAs(b, dot, covered)
    ensures b.links[dot].header.dot == dot && dot.number > 0
    ensures RightlyHanded(trace, HandedOn(b, dot, covered).links, own, b.links[dot].header, covered)
  {
    var h := b.links[dot].header;
    NotHandedYet(b, trace, own, dot);
    CoveredBySettled(b.items, trace, h);
    forall e | e in b.links
      ensures Covered(b.items, b.links[e].header) <==> SettledBy(trace, b.links[e].header)
    {
      CoveredBySettled(b.items, trace, b.links[e].header);
    }
  }

  /** What a covered delivery brings was settled before. */
  lemma CoveredSettles(items: map<Item, VersionVector>, trace: seq<Event>, h: OpHeader)
    requires TraceSettles(items, trace) && Covered(items, h)
    ensures TraceSettles(items, trace + [Handed(h, true)])
  {
    forall item, d
      ensures Get(SettledOf(items, item), d) == Max(Get(SettledOf(items, item), d), Brings(Handed(h, true), item, d))
    {
    }
    SettlesMore(items, items, trace, Handed(h, true));
  }

  lemma HandKeepsIndex(links: map<Dot, Link>, ready: set<ReadyBody>, dot: Dot)
    requires Indexed(links, ready) && dot in links
    ensures var h := links[dot].header;
            Indexed(links[dot := Link(h, Delivered)], ready - {ReadyBody(h.item, dot)})
  {
    var h := links[dot].header;
    var links', ready' := links[dot := Link(h, Delivered)], ready - {ReadyBody(h.item, dot)};
    forall r | r in ready'
      ensures InIndex(links', r)
    {
      assert InIndex(links, r);
    }
  }

  lemma HandKeepsDirty(b: Book, dot: Dot, covered: bool)
    requires DirtyKept(b.ready, b.items, b.dirty) && dot in b.links && dot.number > 0
    ensures var b' := HandedOn(b, dot, covered); DirtyKept(b'.ready, b'.items, b'.dirty)
  {
  }

  lemma HandOnKeeps(b: Book, trace: seq<Event>, own: Device, dot: Dot, covered: bool)
    requires Kept(b, trace, own) && DeliverableAs(b, dot, covered)
    ensures dot.number > 0 && b.links[dot].header.dot == dot
    ensures Kept(HandedOn(b, dot, covered), trace + [Handed(b.links[dot].header, covered)], own)
  {
    NotHandedYet(b, trace, own, dot);
    RightToHand(b, trace, own, dot, covered);
    assert CutFits(b.links, b.cutoffs, dot);
    hide Linked, Indexed, CutKept, SettledKept, FrontierKept, TraceSettles, TraceFits, HandKept, CutsKnown, Grown,
         DirtyKept, Higherward, RightlyHanded, ChainSettled, HandedIn;
    var h := b.links[dot].header;
    var b', e := HandedOn(b, dot, covered), Handed(h, covered);
    StateGrows(b.links, b.heads, dot, Delivered);
    TraceStays(trace, b.links, b'.links, own);
    TraceExtends(trace, e, b'.links, own);
    if covered {
      CoveredSettles(b.items, trace, h);
    } else {
      WriteSettles(b.items, trace, h, e);
      SettledStays(b.links, b.heads, b.frontiers, b.items, b'.items);
    }
    StateKeepsFrontier(b.links, b.heads, b'.items, b.frontiers, dot, Delivered);
    HandKeepsIndex(b.links, b.ready, dot);
    HandKeepsDirty(b, dot, covered);
    CutsStay(trace, e, b.cutoffs, b.cutoffs);
    HandKeptOn(b.links, trace, e, own);
    HandStays(trace, e, dot);
    PutKeeps(b.links, b'.items, b.cutoffs, trace + [e], own, dot, Link(h, Delivered));
  }

  // ---------- a revocation ----------

  lemma RevokeLinks(b: Book, d: Device, number: nat)
    requires Linked(b.links, b.heads)
    ensures var b' := RevokedFrom(b, d, number); Linked(b'.links, b'.heads) && Grown(b.links, b'.links)
  {
    var b' := RevokedFrom(b, d, number);
    assert b'.links.Keys == b.links.Keys;
    forall e | e in b'.links
      ensures b'.links[e].header == b.links[e].header && LinkFits(b'.links, b'.heads, e)
    {
      assert LinkFits(b.links, b.heads, e);
    }
    forall e, f | e in b'.links && f in b'.links
      ensures NoneBetween(b'.links, e, f)
    {
      assert NoneBetween(b.links, e, f);
    }
  }

  lemma RevokeIndex(b: Book, d: Device, number: nat)
    requires Indexed(b.links, b.ready)
    ensures var b' := RevokedFrom(b, d, number); Indexed(b'.links, b'.ready)
  {
    var b' := RevokedFrom(b, d, number);
    forall r | r in b'.ready
      ensures InIndex(b'.links, r)
    {
      assert InIndex(b.links, r);
    }
  }

  lemma RevokeFits(b: Book, trace: seq<Event>, own: Device, d: Device, number: nat)
    requires Kept(b, trace, own)
    ensures var b' := RevokedFrom(b, d, number);
            && CutKept(b'.links, b'.cutoffs)
            && SettledKept(b'.links, b'.items)
            && FrontierKept(b'.links, b'.heads, b'.items, b'.frontiers)
            && HandKept(b'.links, trace, own)
  {
    var b' := RevokedFrom(b, d, number);
    forall e | e in b'.links
      ensures CutFits(b'.links, b'.cutoffs, e) && SettledFits(b'.links, b'.items, e)
      ensures FrontierFits(b'.links, b'.items, b'.frontiers, e) && HandFits(b'.links, trace, own, e)
    {
      assert CutFits(b.links, b.cutoffs, e) && SettledFits(b.links, b.items, e);
      assert FrontierFits(b.links, b.items, b.frontiers, e) && HandFits(b.links, trace, own, e);
    }
  }

  lemma RevokeKeeps(b: Book, trace: seq<Event>, own: Device, d: Device, number: nat)
    requires Kept(b, trace, own)
    ensures Kept(RevokedFrom(b, d, number), trace + [Cut(d, number)], own)
  {
    RevokeLinks(b, d, number);
    RevokeIndex(b, d, number);
    RevokeFits(b, trace, own, d, number);
    var b', e := RevokedFrom(b, d, number), Cut(d, number);
    assert DirtyKept(b'.ready, b'.items, b'.dirty);
    hide Linked, Indexed, CutKept, SettledKept, FrontierKept, TraceFits, HandKept, CutsKnown, Grown, DirtyKept;
    TraceStays(trace, b.links, b'.links, own);
    TraceExtends(trace, e, b'.links, own);
    CutsStay(trace, e, b.cutoffs, b'.cutoffs);
    HandKeptOn(b'.links, trace, e, own);
    forall item, dev
      ensures Get(SettledOf(b.items, item), dev) == Max(Get(SettledOf(b.items, item), dev), Brings(e, item, dev))
    {
    }
    SettlesMore(b.items, b'.items, trace, e);
  }

  // ---------- what a run promises ----------

  /** A log nothing was told yet. */
  const EMPTY: Book := Book(map[], map[], map[], map[], {}, {}, {}, map[])

  lemma EmptyIsKept(own: Device)
    ensures Kept(EMPTY, [], own)
  {
  }

  lemma {:induction false} ReachedGrows(trace: seq<Event>, k: nat, item: Item, d: Device)
    requires k <= |trace|
    ensures Reached(trace[..k], item, d) <= Reached(trace, item, d)
    decreases |trace|
  {
    if k < |trace| {
      ReachedGrows(trace[..|trace| - 1], k, item, d);
      assert trace[..|trace| - 1][..k] == trace[..k];
    } else {
      assert trace[..k] == trace;
    }
  }

  /** No body is delivered twice. */
  lemma NoBodyTwice(b: Book, trace: seq<Event>, own: Device, k: nat, m: nat)
    requires Kept(b, trace, own)
    requires k < m < |trace| && trace[k].Handed? && trace[m].Handed?
    ensures trace[k].header.dot != trace[m].header.dot
  {
    assert EventFits(trace, m, b.links, own);
    assert trace[..m][k] == trace[k];
  }

  /** x is in y's causal context, or before it in its chain. */
  predicate HappenedBefore(x: OpHeader, y: OpHeader) {
    (x.item == y.item && CoversDot(y.context, x.dot)) || Earlier(x.dot, y.dot)
  }

  /**
   Fresh deliveries are in causal order: an op delivered after another that it happened before was settled
   by a snapshot in between, or earlier, and is marked covered.
   */
  lemma FreshInCausalOrder(b: Book, trace: seq<Event>, own: Device, k: nat, m: nat)
    requires Kept(b, trace, own)
    requires k < m < |trace| && trace[k].Handed? && trace[m].Handed?
    requires !trace[k].covered && HappenedBefore(trace[m].header, trace[k].header)
    ensures trace[m].covered
  {
    var x := trace[m].header;
    assert EventFits(trace, k, b.links, own) && EventFits(trace, m, b.links, own);
    assert SettledBy(trace[..k], x);
    ReachedGrows(trace[..m], k, x.item, x.dot.device);
    assert trace[..m][..k] == trace[..k];
  }

  /** No op of a device is delivered once the device is known to be revoked from before it. */
  lemma NonePastACut(b: Book, trace: seq<Event>, own: Device, k: nat, m: nat)
    requires Kept(b, trace, own)
    requires k < m < |trace| && trace[k].Cut? && trace[m].Handed?
    requires trace[m].header.dot.device == trace[k].device
    ensures trace[m].header.dot.number <= trace[k].number
  {
    assert EventFits(trace, m, b.links, own);
    assert trace[..m][k] == trace[k];
  }
}
