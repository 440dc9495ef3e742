/**
 The log of one vault on one device, changed in place by responses, verdicts, revocations and own ops
 (crates/rizzy-sync/src/causal.rs, crates/rizzy-sync/src/causal/own.rs). Its fields are the book of
 `CausalLog`; every method is one of the changes there, and `Valid` is `Kept`: whatever the server sends and
 in whatever order the methods are called, what the log hands to the merge is handed over rightly.
 */
module VaultLogs {
  import opened Base
  import opened VersionVectors
  import opened CausalLog
  import opened ChainCheck
  import opened ChainCommit
  import opened CoverPlans
  import opened ServedLinks
  import opened ServedAnswers

  datatype Delivery = Delivery(dot: Dot, item: Item, hlc: nat, covered: bool)

  datatype BodyError = UnknownOp | NotWaiting

  datatype OwnError = WrongVault | NotOwnDevice | BrokenChain(head: nat) | ContextNotSettled

  /** The client's verified deliveries, as the history notes them. */
  ghost predicate Noted(trace: seq<Event>, trace': seq<Event>, out: seq<Delivery>) {
    && |trace'| == |trace| + |out|
    && trace'[..|trace|] == trace
    && forall k | 0 <= k < |out| :: NotedAs(trace'[|trace| + k], out[k])
  }

  predicate NotedAs(e: Event, d: Delivery) {
    e.Handed? && d == Delivery(e.header.dot, e.header.item, e.header.hlc, e.covered)
  }

  /** Nothing held can be delivered. */
  ghost predicate Quiet(b: Book) {
    forall dot | dot in b.links :: !Deliverable(b, dot)
  }

  /** No link of a chain can be delivered fresh. */
  ghost predicate Stuck(b: Book, d: Device) {
    forall dot | dot in b.links && dot.device == d :: !DeliverableAs(b, dot, false)
  }

  /** What a delivery does not touch. */
  predicate SameChains(b: Book, b': Book) {
    && b'.heads == b.heads && b'.cutoffs == b.cutoffs && b'.absorbed == b.absorbed
    && b'.links.Keys == b.links.Keys
  }

  // ---------- picking the least ----------

  lemma {:induction false} LeastExists(s: set<nat>) returns (least: nat)
    requires s != {}
    ensures least in s && forall y | y in s :: least <= y
  {
    var x :| x in s;
    least := x;
    assert forall y | y in s :: y == x || y in s - {x};
    if s - {x} != {} {
      var rest := LeastExists(s - {x});
      least := if rest < x then rest else x;
    }
  }

  method Least(s: set<nat>) returns (x: nat)
    requires s != {}
    ensures x in s && forall y | y in s :: x <= y
  {
    ghost var least := LeastExists(s);
    x :| x in s && forall y | y in s :: x <= y;
  }

  predicate NotAfter(a: Dot, b: Dot) {
    a == b || DotBefore(a, b)
  }

  method First(dots: set<Dot>) returns (first: Dot)
    requires dots != {}
    ensures first in dots && forall e | e in dots :: NotAfter(first, e)
  {
    ghost var some :| some in dots;
    var devices := set e | e in dots :: e.device;
    assert some.device in devices;
    var d := Least(devices);
    var numbers := set e | e in dots && e.device == d :: e.number;
    ghost var one :| one in dots && one.device == d;
    assert one.number in numbers;
    var n := Least(numbers);
    first := Dot(d, n);
    forall e | e in dots
      ensures NotAfter(first, e)
    {
      assert e.device in devices;
      assert e.device == d ==> e.number in numbers;
    }
  }

  class VaultLog {
    const vault: Vault
    const own: Device
    var links: map<Dot, Link>
    var heads: map<Device, nat>
    var frontiers: map<Device, nat>
    var items: map<Item, VersionVector>
    var ready: set<ReadyBody>
    var dirty: set<Item>
    var absorbed: set<Item>
    var cutoffs: map<Device, nat>
    ghost var trace: seq<Event>

    ghost function Now(): Book
      reads this
    {
      Book(links, heads, frontiers, items, ready, dirty, absorbed, cutoffs)
    }

    ghost predicate Valid()
      reads this
    {
      Kept(Now(), trace, own)
    }

    constructor (vault: Vault, own: Device)
      ensures Valid() && Now() == EMPTY && trace == []
      ensures this.vault == vault && this.own == own
    {
      this.vault, this.own := vault, own;
      links, heads, frontiers, items := map[], map[], map[], map[];
      ready, dirty, absorbed, cutoffs := {}, {}, {}, map[];
      trace := [];
      new;
      EmptyIsKept(own);
    }

    // ---------- the first pass ----------

    /** The response by device; the headers left out of it are reported. */
    method GroupOps(ops: seq<Served>) returns (groups: seq<Group>, reports: seq<Report>)
      ensures groups == Grouped(vault, own, ops)
      ensures reports == Aside(Now(), vault, own, ops)
    {
      groups, reports := [], [];
      for i := 0 to |ops|
        invariant groups == Grouped(vault, own, ops[..i])
        invariant reports == Aside(Now(), vault, own, ops[..i])
      {
        assert ops[..i + 1][..i] == ops[..i];
        var h := ops[i].header;
        if h.vault != vault {
          reports := reports + [ForeignVault(h.dot)];
        } else if h.dot.device == own {
          if h.dot in links && links[h.dot].header == h {
            reports := reports + [Duplicate(h.dot)];
          } else if h.dot.number <= Entry(heads, own) {
            reports := reports + [Equivocation(h.dot)];
          } else {
            reports := reports + [UnknownOwnOp(h.dot)];
          }
        } else {
          groups := Place(groups, ops[i]);
        }
      }
      assert ops[..|ops|] == ops;
    }

    /** Walks one device's served headers from its chain's head. Nothing changes. */
    method WalkChain(counting: seq<Cover>, g: Group) returns (w: Walk)
      ensures w == WalkOf(Now(), counting, g)
    {
      w := Walk([], [], [], Entry(heads, g.device));
      for i := 0 to |g.served|
        invariant WalkOf(Now(), counting, g) == WalkFrom(Now(), counting, g.served[i..], w)
      {
        var op := g.served[i];
        var h := op.header;
        assert g.served[i..][1..] == g.served[i + 1..];
        if h.dot.number <= w.prev {
          if h.dot in links && links[h.dot] == Link(h, State.Rejected) && !Covered(items, h) {
            w := w.(reserved := w.reserved + [op]);
          } else if Held(links, w.accepted, h) {
            w := w.(reports := w.reports + [Duplicate(h.dot)]);
          } else {
            w := w.(reports := w.reports + [Equivocation(h.dot)]);
          }
          continue;
        }
        if PastCut(cutoffs, h.dot) {
          w := w.(reports := w.reports + [PastCutoff(h.dot, cutoffs[h.dot.device])]);
          return;
        }
        if h.prev != w.prev {
          w := w.(reports := w.reports + [Gap(h.dot.device, w.prev, Unlinked(h.dot, h.prev))]);
          return;
        }
        var rejected := if op.body.Rejected? then [RejectedBody(h.dot)] else [];
        if NeedsCover(op.body) && !Counts(items, counting, h) {
          w := w.(reports := w.reports + (rejected + [Gap(h.dot.device, w.prev, GapCause.Uncovered(h.dot))]));
          return;
        }
        w := Walk(w.accepted + [op], w.reserved, w.reports + rejected, h.dot.number);
      }
    }

    /** The first pass, which changes nothing: the covers that are needed, those refused, and the cut. */
    method PlanCovers(ops: seq<Served>, covers: seq<Cover>) returns (plan: CoverPlan)
      requires Valid()
      ensures PlanFits(Now(), vault, Grouped(vault, own, ops), covers, plan)
      ensures forall i :: i in plan.refused <==>
                          0 <= i < |covers| && covers[i].vault == vault && covers[i].author in cutoffs &&
                          Get(covers[i].covered, covers[i].author) > cutoffs[covers[i].author]
      ensures forall i :: i in plan.absorb ==>
                          i < |covers| && i !in plan.refused && covers[i].vault == vault &&
                          exists op :: op in ops && NeedsCover(op.body) && CoversHeader(covers[i], op.header)
    {
      var groups, ignored := GroupOps(ops);
      var counting := CountingOnes(covers);
      var links', cut, bodiless := PassGroups(groups, counting);
      var absorb, refused := CoverIndices(covers, bodiless, counting, groups);
      plan := CoverPlan(absorb, links', cut, refused);
      forall i | i in plan.absorb
        ensures exists op :: op in ops && NeedsCover(op.body) && CoversHeader(covers[i], op.header)
      {
        AbsorbedIsNeeded(Now(), vault, own, ops, counting, covers[i]);
      }
    }

    method CoverIndices(covers: seq<Cover>, bodiless: seq<OpHeader>, ghost counting: seq<Cover>,
                        ghost groups: seq<Group>)
      returns (absorb: seq<nat>, refused: seq<nat>)
      requires BodilessAre(Now(), counting, groups, bodiless)
      ensures Increasing(absorb) && Increasing(refused)
      ensures forall k :: k in absorb <==> 0 <= k < |covers| && ToAbsorb(Now(), vault, counting, groups, covers[k])
      ensures forall k :: k in refused <==>
                0 <= k < |covers| && covers[k].vault == vault && ClaimsPastCut(cutoffs, covers[k])
    {
      hide ToAbsorb, BodilessAre;
      absorb, refused := [], [];
      for i := 0 to |covers|
        invariant Increasing(absorb) && Increasing(refused)
        invariant forall k :: k in absorb <==> 0 <= k < i && ToAbsorb(Now(), vault, counting, groups, covers[k])
        invariant forall k :: k in refused <==>
                    0 <= k < i && covers[k].vault == vault && ClaimsPastCut(cutoffs, covers[k])
      {
        AbsorbIff(Now(), vault, counting, groups, bodiless, covers[i]);
        if CountsCover(cutoffs, vault, covers[i]) && exists h | h in bodiless :: CoversHeader(covers[i], h) {
          assert forall k | 0 <= k < |absorb| :: absorb[k] in absorb;
          absorb := absorb + [i];
        }
        if covers[i].vault == vault && ClaimsPastCut(cutoffs, covers[i]) {
          assert forall k | 0 <= k < |refused| :: refused[k] in refused;
          refused := refused + [i];
        }
      }
    }

    /** The covers that count: of this vault, and not past their author's cut-off. */
    method CountingOnes(covers: seq<Cover>) returns (counting: seq<Cover>)
      ensures counting == Counting(cutoffs, vault, covers)
    {
      counting := [];
      for i := 0 to |covers|
        invariant counting == Counting(cutoffs, vault, covers[..i])
      {
        assert covers[..i + 1][..i] == covers[..i];
        if CountsCover(cutoffs, vault, covers[i]) {
          counting := counting + [covers[i]];
        }
      }
      assert covers[..|covers|] == covers;
    }

    /** Walks every group with the served covers counting: what passes, the cut, and what needs a cover. */
    method PassGroups(groups: seq<Group>, counting: seq<Cover>)
      returns (passed: seq<Dot>, cut: VersionVector, bodiless: seq<OpHeader>)
      requires Valid()
      ensures passed == PlanLinks(Now(), counting, groups)
      ensures CutIs(heads, passed, cut)
      ensures BodilessAre(Now(), counting, groups, bodiless)
    {
      passed, cut, bodiless := [], HeadVector(heads), [];
      for i := 0 to |groups|
        invariant PlanLinks(Now(), counting, groups) == passed + PlanLinks(Now(), counting, groups[i..])
        invariant CutIs(heads, passed, cut)
        invariant BodilessAre(Now(), counting, groups[..i], bodiless)
      {
        ghost var passed0, bodiless0 := passed, bodiless;
        passed, cut, bodiless := PassGroup(counting, groups[i], passed, cut, bodiless, groups[..i]);
        assert groups[..i + 1] == groups[..i] + [groups[i]];
        assert groups[i..][1..] == groups[i + 1..];
        PassedMore(Now(), counting, groups[i..], passed0);
      }
      assert groups[..|groups|] == groups;
    }

    /** One group's part of the first pass, after `before`. */
    method PassGroup(counting: seq<Cover>, g: Group, passed0: seq<Dot>, cut0: VersionVector, bodiless0: seq<OpHeader>,
                     ghost before: seq<Group>)
      returns (passed: seq<Dot>, cut: VersionVector, bodiless: seq<OpHeader>)
      requires CutIs(heads, passed0, cut0) && BodilessAre(Now(), counting, before, bodiless0)
      ensures passed == passed0 + Dots(AcceptedOf(Now(), counting, g))
      ensures CutIs(heads, passed, cut) && BodilessAre(Now(), counting, before + [g], bodiless)
    {
      var w := WalkChain(counting, g);
      passed, cut, bodiless := PassAccepted(w.accepted, passed0, cut0, bodiless0);
      ghost var bodiless1 := bodiless;
      for j := 0 to |w.reserved|
        invariant forall h :: h in bodiless <==> h in bodiless1 || NeedsAmong(Now(), counting, w.reserved[..j], h)
      {
        var op := w.reserved[j];
        assert w.reserved[..j + 1] == w.reserved[..j] + [op];
        if NeedsCover(op.body) && Counts(items, counting, op.header) {
          bodiless := bodiless + [op.header];
        }
      }
      assert w.reserved[..|w.reserved|] == w.reserved;
      BodilessMore(Now(), counting, before, g, bodiless0, bodiless1, bodiless);
    }

    method PassAccepted(accepted: seq<Served>, passed0: seq<Dot>, cut0: VersionVector, bodiless0: seq<OpHeader>)
      returns (passed: seq<Dot>, cut: VersionVector, bodiless: seq<OpHeader>)
      requires CutIs(heads, passed0, cut0)
      ensures passed == passed0 + Dots(accepted)
      ensures CutIs(heads, passed, cut)
      ensures forall h :: h in bodiless <==> h in bodiless0 || NeedsAmongAccepted(accepted, h)
    {
      hide CutIs, NeedsAmongAccepted, Dots;
      passed, cut, bodiless := passed0, cut0, bodiless0;
      NoneAmong();
      for j := 0 to |accepted|
        invariant passed == passed0 + Dots(accepted)[..j]
        invariant CutIs(heads, passed, cut)
        invariant forall h :: h in bodiless <==> h in bodiless0 || NeedsAmongAccepted(accepted[..j], h)
      {
        var op := accepted[j];
        assert accepted[..j + 1] == accepted[..j] + [op];
        CutGrows(heads, passed, cut, op.header);
        OneMoreAmong(accepted[..j], op);
        passed := passed + [op.header.dot];
        assert passed == passed0 + Dots(accepted)[..j + 1];
        cut := Add(cut, op.header.dot);
        if NeedsCover(op.body) {
          bodiless := bodiless + [op.header];
        }
      }
      assert accepted[..|accepted|] == accepted;
      assert Dots(accepted)[..|accepted|] == Dots(accepted);
    }

    // ---------- the second pass ----------

    /** The merge absorbed a cover of the plan and took `taken` of it; no more than the cut is recorded. */
    method RecordAbsorbed(cut: VersionVector, item: Item, taken: VersionVector) returns (recorded: VersionVector)
      requires Valid()
      modifies this
      ensures Valid()
      ensures recorded == Meet(taken, cut) && AtMost(recorded, cut) && AtMost(recorded, taken)
      ensures Now() == Absorbed(old(Now()), item, recorded)
      ensures trace == old(trace) + [Took(item, recorded)]
    {
      recorded := Meet(taken, cut);
      AbsorbKeeps(Now(), trace, own, item, recorded);
      items := items[item := Join(SettledOf(items, item), recorded)];
      dirty := dirty + {item};
      absorbed := absorbed + {item};
      trace := trace + [Took(item, recorded)];
    }

    /** Accepts the links of one response; `settled` are the items a cover took past a chain's head. */
    method Commit(ops: seq<Served>) returns (accepted: seq<Dot>, reports: seq<Report>, pastHead: seq<Report>)
      requires Valid()
      modifies this
      ensures Valid() && trace == old(trace)
      ensures var o := CommitGroups(Outcome(old(Now()), [], Aside(old(Now()), vault, own, ops)),
                Grouped(vault, own, ops));
              && Now() == o.book.(absorbed := {})
              && accepted == o.accepted && reports == o.reports
      ensures forall r :: r in pastHead <==> PastHead(old(absorbed), items, heads, r)
      ensures forall i, j :: 0 <= i < j < |pastHead| ==> ReportBefore(pastHead[i], pastHead[j])
      ensures forall dot | dot in accepted :: WasServed(Now(), Grouped(vault, own, ops), dot)
      ensures BroughtBy(old(Now()), Now(), ops)
      ensures AllAnswered(old(Now()), Now(), vault, own, ops, reports)
    {
      hide Kept, CommitGroup, WasServed, Grouped, Aside, BroughtBy, AllAnswered;
      var groups;
      groups, reports := GroupOps(ops);
      GroupedFacts(vault, own, ops, own + 1);
      ghost var start := Outcome(Now(), [], reports);
      ghost var end := CommitGroups(start, groups);
      ResponseBrings(start, vault, own, ops, trace);
      ResponseIsAnswered(Now(), vault, own, ops, trace);
      CommittedWereServed(start, groups, vault, trace, own);
      accepted := [];
      for i := 0 to |groups|
        invariant Valid() && trace == old(trace)
        invariant GroupsFit(vault, own, groups[i..])
        invariant CommitGroups(Outcome(Now(), accepted, reports), groups[i..]) == end
        invariant absorbed == old(absorbed)
      {
        assert groups[i..][0] == groups[i] && groups[i..][1..] == groups[i + 1..];
        accepted, reports := CommitOne(groups[i], accepted, reports);
      }
      ghost var b := Now();
      pastHead := CheckAbsorbed();
      ClearingKeeps(b, trace, own);
      ServedStill(b, groups, accepted);
      BroughtTheSame(start.book, b, Now(), ops);
      AnsweredTheSame(start.book, b, Now(), vault, own, ops, reports);
    }

    /** Commits one device's served headers. */
    method CommitOne(g: Group, accepted0: seq<Dot>, reports0: seq<Report>)
      returns (accepted: seq<Dot>, reports: seq<Report>)
      requires Valid() && GroupFits(vault, own, g)
      modifies this
      ensures Valid() && trace == old(trace)
      ensures Outcome(Now(), accepted, reports) == CommitGroup(Outcome(old(Now()), accepted0, reports0), g)
      ensures absorbed == old(absorbed)
    {
      var w := WalkChain([], g);
      ghost var o := Outcome(Now(), accepted0, reports0);
      CommitGroupKeeps(o, g, vault, trace, own);
      hide Kept, WalkOf;
      reports := ServeReserved(w.reserved, accepted0, reports0 + w.reports);
      accepted := AcceptLinks(w.accepted, accepted0, reports);
    }

    method ServeReserved(reserved: seq<Served>, ghost accepted: seq<Dot>, reports0: seq<Report>)
      returns (reports: seq<Report>)
      modifies this
      ensures Outcome(Now(), accepted, reports) == ServeAllAgain(Outcome(old(Now()), accepted, reports0), reserved)
      ensures trace == old(trace)
    {
      reports := reports0;
      ghost var end := ServeAllAgain(Outcome(Now(), accepted, reports), reserved);
      for j := 0 to |reserved|
        invariant trace == old(trace)
        invariant ServeAllAgain(Outcome(Now(), accepted, reports), reserved[j..]) == end
      {
        assert reserved[j..][1..] == reserved[j + 1..];
        reports := ServeOneAgain(reserved[j], accepted, reports);
      }
    }

    method AcceptLinks(served: seq<Served>, accepted0: seq<Dot>, ghost reports: seq<Report>)
      returns (accepted: seq<Dot>)
      modifies this
      ensures Outcome(Now(), accepted, reports) == AcceptAll(Outcome(old(Now()), accepted0, reports), served)
      ensures trace == old(trace)
    {
      accepted := accepted0;
      ghost var end := AcceptAll(Outcome(Now(), accepted, reports), served);
      for j := 0 to |served|
        invariant trace == old(trace)
        invariant AcceptAll(Outcome(Now(), accepted, reports), served[j..]) == end
      {
        assert served[j..][1..] == served[j + 1..];
        AcceptLink(served[j].header, FromBody(served[j].body));
        accepted := accepted + [served[j].header.dot];
      }
    }

    /** `ServeAgain` on the fields. */
    method ServeOneAgain(op: Served, ghost accepted: seq<Dot>, reports0: seq<Report>) returns (reports: seq<Report>)
      modifies this
      ensures Outcome(Now(), accepted, reports) == ServeAgain(Outcome(old(Now()), accepted, reports0), op)
      ensures trace == old(trace)
    {
      reports := reports0;
      var h := op.header;
      // Its state is another one when an earlier record of this response settled it: then nothing is to do.
      if h.dot !in links || !links[h.dot].state.Rejected? {
        return;
      }
      match op.body
      case Verified =>
        ready := ready + {ReadyBody(links[h.dot].header.item, h.dot)};
        dirty := dirty + {links[h.dot].header.item};
        links := links[h.dot := Link(links[h.dot].header, Ready)];
      case Waiting =>
        links := links[h.dot := Link(links[h.dot].header, State.Waiting)];
      case _ =>
        reports := reports + (if op.body.Rejected? then [RejectedBody(h.dot)] else []);
        reports := reports + (if Covered(items, h) then [] else [Gap(h.dot.device, h.prev, GapCause.Uncovered(h.dot))]);
    }

    /** A header becomes the next link of its chain. */
    method AcceptLink(h: OpHeader, s: State)
      modifies this
      ensures Now() == Accepted(old(Now()), h, s) && trace == old(trace)
    {
      if s.Ready? {
        ready := ready + {ReadyBody(h.item, h.dot)};
        dirty := dirty + {h.item};
      }
      links := links[h.dot := Link(h, s)];
      heads := heads[h.dot.device := h.dot.number];
    }

    /**
     The items in `absorbed` against the heads: one report for each device held too far, by item and then by
     device, and `absorbed` is emptied.
     */
    method CheckAbsorbed() returns (reports: seq<Report>)
      modifies this`absorbed
      ensures absorbed == {}
      ensures forall r :: r in reports <==> PastHead(old(absorbed), items, heads, r)
      ensures forall i, j :: 0 <= i < j < |reports| ==> ReportBefore(reports[i], reports[j])
    {
      reports := [];
      var todo := absorbed;
      ghost var all := absorbed;
      absorbed := {};
      while todo != {}
        invariant absorbed == {} && todo <= all
        invariant forall r :: r in reports <==> PastHead(all - todo, items, heads, r)
        invariant forall i, j :: 0 <= i < j < |reports| ==> ReportBefore(reports[i], reports[j])
        invariant forall done, left | done in all && done !in todo && left in todo :: done < left
      {
        var item := Least(todo);
        if item in items {
          var vv := items[item];
          var entries := vv.Keys;
          ghost var before := reports;
          assert forall r :: r in before ==> r.item < item;
          while entries != {}
            invariant absorbed == {} && entries <= vv.Keys
            invariant forall r :: r in reports <==> r in before || PastHeadOf(item, vv, vv.Keys - entries, heads, r)
            invariant forall i, j :: 0 <= i < j < |reports| ==> ReportBefore(reports[i], reports[j])
            invariant forall done, left | done in vv && done !in entries && left in entries :: done < left
          {
            var d := Least(entries);
            if vv[d] > Entry(heads, d) {
              var report := SettledPastHead(item, d, vv[d], Entry(heads, d));
              forall r | r in reports
                ensures ReportBefore(r, report)
              {
                assert r in before || r.device in vv.Keys - entries;
              }
              reports := reports + [report];
            }
            entries := entries - {d};
          }
        }
        todo := todo - {item};
      }
      assert all - todo == all;
    }

    // ---------- a waiting body's verdict ----------

    /** The verdict on a waiting body is good: its link is ready from now on. */
    method BodyVerified(dot: Dot) returns (r: Result<(), BodyError>)
      requires Valid()
      modifies this
      ensures Valid() && trace == old(trace)
      ensures r == if dot !in old(links) then Err(UnknownOp)
                   else if old(links)[dot].state.Waiting? then Ok(()) else Err(NotWaiting)
      ensures Now() == if r.Ok? then Judged(old(Now()), dot, Ready) else old(Now())
      ensures links == if r.Ok? then old(links)[dot := Link(old(links)[dot].header, Ready)] else old(links)
    {
      hide Kept;
      r := WaitingError(links, dot);
      if r.Ok? {
        JudgeKeeps(Now(), trace, own, dot, Ready);
        var h := links[dot].header;
        links := links[dot := Link(h, Ready)];
        ready := ready + {ReadyBody(h.item, dot)};
        dirty := dirty + {h.item};
      }
    }

    /** A waiting body failed verification: never delivered, unless it is served again. */
    method BodyRejected(dot: Dot) returns (r: Result<(), BodyError>)
      requires Valid()
      modifies this
      ensures Valid() && trace == old(trace)
      ensures r == if dot !in old(links) then Err(UnknownOp)
                   else if old(links)[dot].state.Waiting? then Ok(()) else Err(NotWaiting)
      ensures Now() == if r.Ok? then Judged(old(Now()), dot, State.Rejected) else old(Now())
      ensures links == if r.Ok? then old(links)[dot := Link(old(links)[dot].header, State.Rejected)] else old(links)
    {
      hide Kept;
      r := WaitingError(links, dot);
      if r.Ok? {
        JudgeKeeps(Now(), trace, own, dot, State.Rejected);
        links := links[dot := Link(links[dot].header, State.Rejected)];
      }
    }

    // ---------- deliveries ----------

    /** Hands over all that can be handed over: afterwards nothing held can be delivered. */
    method TakeDeliveries() returns (out: seq<Delivery>)
      requires Valid()
      modifies this
      ensures Valid() && Quiet(Now())
      ensures SameChains(old(Now()), Now())
      ensures Noted(old(trace), trace, out)
      ensures DeliveredBy(old(Now()), Now(), out)
      ensures InRounds(out)
    {
      ghost var run := Run(Now(), trace, |ready|);
      RunBegins(run);
      out := [];
      hide Kept, Quiet, InRounds;
      var going := true;
      while going
        invariant Valid() && Going(run, Now(), trace, out) && InRounds(out)
        invariant !going ==> Quiet(Now())
        decreases |ready|, going
      {
        var before := |out|;
        out := DeliverRound(out, run);
        going := |out| > before;
      }
    }

    /** One round: covered ops first, then the frontiers. Where it delivers nothing, nothing is left to deliver. */
    method DeliverRound(out0: seq<Delivery>, ghost run: Run) returns (out: seq<Delivery>)
      requires Valid() && Going(run, Now(), trace, out0) && InRounds(out0)
      modifies this
      ensures Valid() && Going(run, Now(), trace, out) && InRounds(out)
      ensures |out0| <= |out| && (|out| == |out0| ==> Quiet(Now()))
    {
      hide Kept, Quiet, Going, InRounds, CoveredPart, FreshPart;
      var covered := DeliverCovered(out0, run);
      out := DeliverFrontiers(covered, run);
      if |out| == |out0| {
        assert out == out0;
        QuietNow(Now(), trace, own);
      } else {
        CoveredPartStays(covered, out, |out0|, |covered|);
        RoundsGrow(out0, out, |covered|);
      }
    }

    /** Delivers, as covered ops, every ready body of a dirty item whose dot the item's settled vector covers. */
    method DeliverCovered(out0: seq<Delivery>, ghost run: Run) returns (out: seq<Delivery>)
      requires Valid() && Going(run, Now(), trace, out0)
      modifies this
      ensures Valid() && Going(run, Now(), trace, out)
      ensures dirty == {} && out0 <= out && CoveredPart(out, |out0|, |out|)
    {
      hide Kept, Going;
      out := out0;
      while dirty != {}
        invariant Valid() && Going(run, Now(), trace, out) && out0 <= out && CoveredPart(out, |out0|, |out|)
        invariant forall i, item | |out0| <= i < |out| && item in dirty :: out[i].item < item
        decreases |dirty|
      {
        var item := Least(dirty);
        out := DeliverItem(item, out, run);
        CleanGoes(run, Now(), trace, own, out, item);
        dirty := dirty - {item};
      }
    }

    /** Delivers the covered ready bodies of one item. */
    method DeliverItem(item: Item, out0: seq<Delivery>, ghost run: Run) returns (out: seq<Delivery>)
      requires Valid() && Going(run, Now(), trace, out0)
      modifies this
      ensures Valid() && Going(run, Now(), trace, out)
      ensures dirty == old(dirty) && DueFits(Now(), item, {})
      ensures out0 <= out && CoveredPart(out, |out0|, |out|) && forall i | |out0| <= i < |out| :: out[i].item == item
    {
      hide Kept, Going, DeliverableAs;
      out := out0;
      var due := set r | r in ready && r.item == item && CoversDot(SettledOf(items, item), r.dot) :: r.dot;
      DueBegins(Now(), trace, own, item, due);
      hide DueFits;
      while due != {}
        invariant Valid() && Going(run, Now(), trace, out) && dirty == old(dirty) && DueFits(Now(), item, due)
        invariant out0 <= out && CoveredPart(out, |out0|, |out|)
        invariant forall i | |out0| <= i < |out| :: out[i].item == item &&
                    forall e | e in due :: DotBefore(out[i].dot, e)
        decreases |due|
      {
        var dot := First(due);
        ghost var b := Now();
        DueIsDeliverable(b, trace, own, item, due, dot);
        out := HandOver(dot, true, out, run);
        DueShrinks(b, item, due, dot);
        due := due - {dot};
      }
    }

    /**
     Advances every chain past its settled links, delivering each next link that is ready with its context
     settled.
     */
    method DeliverFrontiers(out0: seq<Delivery>, ghost run: Run) returns (out: seq<Delivery>)
      requires Valid() && Going(run, Now(), trace, out0)
      modifies this
      ensures Valid() && Going(run, Now(), trace, out)
      ensures out0 <= out && FreshPart(out, |out0|, |out|)
      ensures |out| == |out0| ==> dirty == old(dirty) && forall d :: Stuck(Now(), d)
    {
      hide Kept, Going, Stuck;
      out := out0;
      var todo := heads.Keys;
      ghost var chains := heads.Keys;
      while todo != {}
        invariant Valid() && Going(run, Now(), trace, out) && out0 <= out && FreshPart(out, |out0|, |out|)
        invariant forall i, e | |out0| <= i < |out| && e in todo :: out[i].dot.device < e
        invariant heads.Keys == chains && todo <= chains
        invariant |out| == |out0| ==> dirty == old(dirty) && forall d | d in chains - todo :: Stuck(Now(), d)
        decreases |todo|
      {
        var d := Least(todo);
        ghost var b, n := Now(), |out|;
        out := AdvanceChain(d, out, run);
        if |out| == n {
          StuckStays(b, Now());
        }
        todo := todo - {d};
      }
      NoChainIsStuck(Now(), trace, own);
      assert forall d :: d in chains - todo || d !in heads;
    }

    /** Advances one chain; none of its links can be delivered fresh afterwards. */
    method AdvanceChain(d: Device, out0: seq<Delivery>, ghost run: Run) returns (out: seq<Delivery>)
      requires Valid() && d in heads && Going(run, Now(), trace, out0)
      modifies this
      ensures Valid() && Going(run, Now(), trace, out)
      ensures Stuck(Now(), d) && heads == old(heads)
      ensures out0 <= out && FreshPart(out, |out0|, |out|) && forall i | |out0| <= i < |out| :: out[i].dot.device == d
      ensures |out| == |out0| ==> links == old(links) && items == old(items) && dirty == old(dirty)
    {
      hide Kept, Going, Stuck, SettledUpTo, ContextSettled, DeliverableAs;
      out := out0;
      while true
        invariant Valid() && Going(run, Now(), trace, out) && out0 <= out && heads == old(heads)
        invariant FreshPart(out, |out0|, |out|)
        invariant forall i | |out0| <= i < |out| :: out[i].dot.device == d && out[i].dot.number <= Entry(frontiers, d)
        invariant |out| > |out0| ==> Entry(frontiers, d) !in Unsettled(links, items, d, Entry(frontiers, d))
        invariant |out| == |out0| ==> links == old(links) && items == old(items) && dirty == old(dirty)
        decreases |ready|
      {
        var unsettled := Unsettled(links, items, d, Entry(frontiers, d));
        if unsettled == {} {
          NoneUnsettled(Now(), trace, own, d);
          var past := if heads[d] < MAX_NUMBER then heads[d] + 1 else heads[d];
          FrontierMoves(run, Now(), trace, own, out, d, past);
          frontiers := frontiers[d := past];
          AllSettledIsStuck(Now(), d);
          return;
        }
        var n := Least(unsettled);
        var dot := Dot(d, n);
        NextUnsettled(Now(), trace, own, d, n);
        FrontierMoves(run, Now(), trace, own, out, d, n);
        frontiers := frontiers[d := n];
        if !links[dot].state.Ready? || !ContextSettled(items, links[dot].header) {
          HeldUpIsStuck(Now(), dot);
          return;
        }
        NextIsDeliverable(Now(), dot);
        out := HandOver(dot, false, out, run);
      }
    }

    /** Hands one ready body over, fresh or covered. */
    method HandOver(dot: Dot, covered: bool, out0: seq<Delivery>, ghost run: Run) returns (out: seq<Delivery>)
      requires Valid() && DeliverableAs(Now(), dot, covered) && Going(run, Now(), trace, out0)
      modifies this
      ensures Valid() && Going(run, Now(), trace, out)
      ensures dot.number > 0 && dot in old(links) && Now() == HandedOn(old(Now()), dot, covered)
      ensures var h := old(links)[dot].header; out == out0 + [Delivery(dot, h.item, h.hlc, covered)]
      ensures |ready| < old(|ready|)
    {
      hide Kept, Going, DeliverableAs;
      HandOverKeeps(run, Now(), trace, own, out0, dot, covered);
      var h := links[dot].header;
      var delivery := Delivery(dot, h.item, h.hlc, covered);
      links := links[dot := Link(h, Delivered)];
      ready := ready - {ReadyBody(h.item, dot)};
      if !covered {
        items := items[h.item := Add(SettledOf(items, h.item), dot)];
        dirty := dirty + {h.item};
      }
      out := out0 + [delivery];
      trace := trace + [Handed(h, covered)];
    }

    // ---------- revocations and own ops ----------

    /**
     A cut-off for a device, the lower one when there is one already. `rejected` are the links it revokes,
     `held` are the items that hold it past the cut-off already.
     */
    method LearnRevocation(d: Device, number: nat) returns (rejected: seq<Dot>, held: seq<Item>)
      requires Valid()
      modifies this
      ensures Valid() && trace == old(trace) + [Cut(d, number)]
      ensures Now() == RevokedFrom(old(Now()), d, number)
      ensures cutoffs ==
                old(cutoffs)[d := if d in old(cutoffs) && old(cutoffs)[d] < number then old(cutoffs)[d] else number]
      ensures forall dot :: dot in old(links) ==> dot in links && links[dot].header == old(links)[dot].header
      ensures forall dot :: dot in rejected <==> CutOff(old(links), d, cutoffs[d], dot)
      ensures forall item :: item in held <==> item in items && Get(items[item], d) > cutoffs[d]
    {
      ghost var b := Now();
      RevokeKeeps(b, trace, own, d, number);
      var cut := LowerCut(cutoffs, d, number);
      cutoffs := cutoffs[d := cut];
      rejected := RejectPast(d, cut);
      AllRevoked(b, d, cut);
      trace := trace + [Cut(d, number)];
      held := HeldPast(d, cut);
    }

    /** The items that hold a device's ops past a number. */
    method HeldPast(d: Device, cut: nat) returns (held: seq<Item>)
      ensures forall item :: item in held <==> item in items && Get(items[item], d) > cut
    {
      held := [];
      var todo := items.Keys;
      while todo != {}
        invariant todo <= items.Keys
        invariant forall item :: item in held <==> item in items.Keys - todo && Get(items[item], d) > cut
      {
        var item := Least(todo);
        if Get(items[item], d) > cut {
          held := held + [item];
        }
        todo := todo - {item};
      }
    }

    /** Marks every undelivered link of a device past its cut-off as revoked. */
    method RejectPast(d: Device, cut: nat) returns (rejected: seq<Dot>)
      requires Indexed(links, ready)
      modifies this`links, this`ready
      ensures links == RevokedBut(old(links), d, cut, {}) && ready == ReadyBut(old(links), old(ready), d, cut, {})
      ensures forall dot :: dot in rejected <==> CutOff(old(links), d, cut, dot)
    {
      ghost var links0, ready0 := links, ready;
      rejected := [];
      var pending := set dot | dot in links && CutOff(links, d, cut, dot);
      assert links == RevokedBut(links0, d, cut, pending);
      while pending != {}
        invariant forall dot | dot in pending :: CutOff(links0, d, cut, dot)
        invariant links == RevokedBut(links0, d, cut, pending) && ready == ReadyBut(links0, ready0, d, cut, pending)
        invariant forall dot :: dot in rejected <==> CutOff(links0, d, cut, dot) && dot !in pending
      {
        var dot := First(pending);
        OneMoreRevoked(links0, ready0, d, cut, pending, dot);
        var h := links[dot].header;
        links := links[dot := Link(h, Revoked)];
        ready := ready - {ReadyBody(h.item, dot)};
        rejected := rejected + [dot];
        pending := pending - {dot};
      }
    }

    /** Records an op this device wrote. Nothing changes on an error. */
    method RecordOwnOp(h: OpHeader) returns (r: Result<(), OwnError>)
      requires Valid()
      modifies this
      ensures Valid()
      ensures r.Ok? <==> h.vault == vault && h.dot.device == own && Next(old(Now()), h) && ContextSettled(old(items), h)
      ensures r.Ok? ==> Now() == Written(old(Now()), h) && trace == old(trace) + [Wrote(h)]
      ensures r.Err? ==> Now() == old(Now()) && trace == old(trace)
      ensures r.Err? ==> r.error == if h.vault != vault then WrongVault
                                    else if h.dot.device != own then NotOwnDevice
                                    else if !Next(old(Now()), h) then BrokenChain(Entry(old(heads), own))
                                    else ContextNotSettled
      ensures r.Ok? ==> h.dot in links && links[h.dot] == Link(h, Delivered) && Entry(heads, own) == h.dot.number
    {
      if h.vault != vault {
        return Err(WrongVault);
      }
      if h.dot.device != own {
        return Err(NotOwnDevice);
      }
      var head := Entry(heads, own);
      if h.prev != head || h.dot.number <= head {
        return Err(BrokenChain(head));
      }
      if !ContextSettled(items, h) {
        return Err(ContextNotSettled);
      }
      WriteKeeps(Now(), trace, own, h);
      items := items[h.item := Add(SettledOf(items, h.item), h.dot)];
      AcceptLink(h, Delivered);
      trace := trace + [Wrote(h)];
      r := Ok(());
    }

    // ---------- the cursor ----------

    /** How far a device's chain is fetched: the head, or the link before the first rejected one that nothing covers. */
    method CursorEntry(d: Device) returns (entry: nat)
      requires Valid()
      ensures AsksFrom(Now(), d, entry)
    {
      var rejected := set e | e in links && RejectedFrom(links, items, d, Entry(frontiers, d), e) :: e.number;
      RejectedAbove(Now(), trace, own, d);
      if rejected == {} {
        entry := Entry(heads, d);
        assert forall e | e in links && RejectedFrom(links, items, d, Entry(frontiers, d), e) :: e.number in rejected;
        HeadIsHighest(Now(), trace, own, d);
      } else {
        var n := Least(rejected);
        ghost var e :| e in links && RejectedFrom(links, items, d, Entry(frontiers, d), e) && e.number == n;
        assert e == Dot(d, n);
        entry := links[Dot(d, n)].header.prev;
        assert LinkFits(links, heads, Dot(d, n));
        assert forall f | f in links && RejectedFrom(links, items, d, Entry(frontiers, d), f) :: f.number in rejected;
      }
    }

    /** The cursor a Fetch carries: every chain's entry that is not zero. */
    method Cursor() returns (cursor: VersionVector)
      requires Valid()
      ensures forall d | d in heads :: AsksFrom(Now(), d, Get(cursor, d))
      ensures forall d | d !in heads :: d !in cursor
    {
      hide Kept, AsksFrom;
      cursor := map[];
      var todo := heads.Keys;
      while todo != {}
        invariant todo <= heads.Keys && cursor.Keys <= heads.Keys - todo
        invariant forall d | d in heads.Keys - todo :: AsksFrom(Now(), d, Get(cursor, d))
      {
        var d := Least(todo);
        var entry := CursorEntry(d);
        ghost var before := cursor;
        if entry > 0 {
          cursor := cursor[d := entry];
        }
        assert Get(cursor, d) == entry;
        forall e | e in heads.Keys - todo
          ensures AsksFrom(Now(), e, Get(cursor, e))
        {
          assert AsksFrom(Now(), e, Get(before, e)) && Get(cursor, e) == Get(before, e);
        }
        todo := todo - {d};
      }
    }
  }

  predicate RejectedFrom(links: map<Dot, Link>, items: map<Item, VersionVector>, d: Device, from: nat, e: Dot) {
    && e in links && e.device == d && e.number >= from
    && links[e].state.Rejected? && !Covered(items, links[e].header)
  }

  /**
   A fetch from here serves every rejected link again that no snapshot covers, and asks no further back than the
   first of them: it is the next link after `entry`.
   */
  ghost predicate AsksFrom(b: Book, d: Device, entry: nat) {
    && (forall e | e in b.links && RejectedFrom(b.links, b.items, d, 0, e) :: entry < e.number)
    && (entry == Entry(b.heads, d)
        || exists e | e in b.links && RejectedFrom(b.links, b.items, d, 0, e) :: b.links[e].header.prev == entry)
    && entry <= Entry(b.heads, d)
  }

  /** A rejected link that nothing covers is not below the frontier. */
  lemma RejectedAbove(b: Book, trace: seq<Event>, own: Device, d: Device)
    requires Kept(b, trace, own)
    ensures forall e | e in b.links && RejectedFrom(b.links, b.items, d, 0, e) ::
              RejectedFrom(b.links, b.items, d, Entry(b.frontiers, d), e)
  {
    forall e | e in b.links && RejectedFrom(b.links, b.items, d, 0, e)
      ensures RejectedFrom(b.links, b.items, d, Entry(b.frontiers, d), e)
    {
      assert FrontierFits(b.links, b.items, b.frontiers, e);
    }
  }

  lemma HeadIsHighest(b: Book, trace: seq<Event>, own: Device, d: Device)
    requires Kept(b, trace, own)
    ensures forall e | e in b.links && e.device == d :: e.number <= Entry(b.heads, d)
  {
    forall e | e in b.links && e.device == d
      ensures e.number <= Entry(b.heads, d)
    {
      assert LinkFits(b.links, b.heads, e);
    }
  }

  function RevokedBut(links: map<Dot, Link>, d: Device, cut: nat, pending: set<Dot>): map<Dot, Link> {
    map dot | dot in links ::
      if CutOff(links, d, cut, dot) && dot !in pending then Link(links[dot].header, Revoked) else links[dot]
  }

  function ReadyBut(links: map<Dot, Link>, ready: set<ReadyBody>, d: Device, cut: nat,
                    pending: set<Dot>): set<ReadyBody> {
    set r | r in ready && (!CutOff(links, d, cut, r.dot) || r.dot in pending)
  }

  lemma OneMoreRevoked(links: map<Dot, Link>, ready: set<ReadyBody>, d: Device, cut: nat, pending: set<Dot>, dot: Dot)
    requires Indexed(links, ready) && dot in pending && CutOff(links, d, cut, dot)
    ensures var now, h := RevokedBut(links, d, cut, pending), links[dot].header;
            && dot in now && now[dot].header == h
            && now[dot := Link(h, Revoked)] == RevokedBut(links, d, cut, pending - {dot})
            && ReadyBut(links, ready, d, cut, pending) - {ReadyBody(h.item, dot)}
               == ReadyBut(links, ready, d, cut, pending - {dot})
  {
    forall r | r in ready && r.dot == dot
      ensures r.item == links[dot].header.item
    {
      assert InIndex(links, r);
    }
  }

  lemma AllRevoked(b: Book, d: Device, number: nat)
    ensures var cut := LowerCut(b.cutoffs, d, number);
            && RevokedFrom(b, d, number).links == RevokedBut(b.links, d, cut, {})
            && RevokedFrom(b, d, number).ready == ReadyBut(b.links, b.ready, d, cut, {})
  {
  }

  // ---------- the order of the deliveries ----------

  /** Covered ops, by item and then by dot. */
  predicate CoveredPart(out: seq<Delivery>, k: nat, m: nat) {
    && k <= m <= |out|
    && (forall i | k <= i < m :: out[i].covered)
    && forall i, j | k <= i < j < m ::
         out[i].item < out[j].item || (out[i].item == out[j].item && DotBefore(out[i].dot, out[j].dot))
  }

  /** Fresh ops, device by device in chain order. */
  predicate FreshPart(out: seq<Delivery>, m: nat, n: nat) {
    && m <= n <= |out|
    && (forall i | m <= i < n :: !out[i].covered)
    && forall i, j | m <= i < j < n :: DotBefore(out[i].dot, out[j].dot)
  }

  predicate IsRound(out: seq<Delivery>, k: nat, m: nat) {
    k < |out| && CoveredPart(out, k, m) && FreshPart(out, m, |out|)
  }

  /** The deliveries are rounds, each first of covered ops and then of fresh ones. */
  ghost predicate InRounds(out: seq<Delivery>)
    decreases |out|
  {
    out == [] || exists k: nat, m: nat | IsRound(out, k, m) :: InRounds(out[..k])
  }

  lemma CoveredPartStays(covered: seq<Delivery>, out: seq<Delivery>, k: nat, m: nat)
    requires covered <= out && CoveredPart(covered, k, m)
    ensures CoveredPart(out, k, m)
  {
  }

  lemma RoundsGrow(earlier: seq<Delivery>, out: seq<Delivery>, m: nat)
    requires InRounds(earlier) && earlier < out && CoveredPart(out, |earlier|, m) && FreshPart(out, m, |out|)
    ensures InRounds(out)
  {
    assert out[..|earlier|] == earlier;
    assert IsRound(out, |earlier|, m);
  }

  // ---------- what a held op waits for ----------

  datatype WaitReason =
    | Body
    | Rejected
    | Uncovered
    | Chain(firstUnsettled: Dot)
    | Context(missing: Dot)

  predicate Unresolved(b: Book, e: Dot) {
    e in b.links && !Settled(b.items, b.links[e]) && !b.links[e].state.Revoked?
  }

  function OpenBefore(b: Book, dot: Dot): set<nat> {
    set e | e in b.links && Earlier(e, dot) && Unresolved(b, e) :: e.number
  }

  function Lacking(b: Book, h: OpHeader): set<Device> {
    set d | d in h.context && h.context[d] > Get(SettledOf(b.items, h.item), d)
  }

  predicate IsLeast(n: nat, s: set<nat>) {
    n in s && forall m | m in s :: n <= m
  }

  /** The log lists the link with this reason. */
  predicate ListedFor(b: Book, dot: Dot, r: WaitReason)
    requires dot in b.links
  {
    var h := b.links[dot].header;
    match b.links[dot].state
    case Waiting => r == Body
    case Rejected => r == WaitReason.Rejected
    case Bodiless => r == WaitReason.Uncovered
    case _ =>
      if OpenBefore(b, dot) != {} then
        r.Chain? && r.firstUnsettled.device == dot.device && IsLeast(r.firstUnsettled.number, OpenBefore(b, dot))
      else
        r.Context? && IsLeast(r.missing.device, Lacking(b, h)) && r.missing.number == h.context[r.missing.device]
  }

  /**
   After the deliveries, every link that is neither settled nor revoked is listed, with exactly one reason: its
   body, the first unsettled link before it, or the first entry of its context its item lacks. It never waits
   for a cover that no longer counts.
   */
  lemma EveryWaitHasAReason(b: Book, trace: seq<Event>, own: Device, dot: Dot) returns (r: WaitReason)
    requires Kept(b, trace, own) && Quiet(b) && Unresolved(b, dot)
    ensures ListedFor(b, dot, r) && !r.Uncovered?
    ensures forall q :: ListedFor(b, dot, q) ==> q == r
  {
    assert SettledFits(b.links, b.items, dot) && CutFits(b.links, b.cutoffs, dot);
    var link := b.links[dot];
    if link.state.Ready? && ContextSettled(b.items, link.header) {
      SomethingIsOpen(b, trace, own, dot);
    }
    if link.state.Waiting? {
      r := Body;
    } else if link.state.Rejected? {
      r := WaitReason.Rejected;
    } else if OpenBefore(b, dot) != {} {
      var n := LeastExists(OpenBefore(b, dot));
      r := Chain(Dot(dot.device, n));
    } else {
      var lacking :| lacking in link.header.context &&
                     link.header.context[lacking] > Get(SettledOf(b.items, link.header.item), lacking);
      assert lacking in Lacking(b, link.header);
      var d := LeastExists(Lacking(b, link.header));
      r := Context(Dot(d, link.header.context[d]));
    }
  }

  /** Only an unsettled link before it keeps a ready link back whose context is settled. */
  lemma SomethingIsOpen(b: Book, trace: seq<Event>, own: Device, dot: Dot)
    requires Kept(b, trace, own) && Quiet(b) && Unresolved(b, dot) && b.links[dot].state.Ready?
    requires ContextSettled(b.items, b.links[dot].header)
    ensures OpenBefore(b, dot) != {}
  {
    assert !Deliverable(b, dot);
    var e :| e in b.links && Earlier(e, dot) && !Covered(b.items, b.links[e].header);
    assert SettledFits(b.links, b.items, e) && CutFits(b.links, b.cutoffs, e) && CutFits(b.links, b.cutoffs, dot);
    assert e.number in OpenBefore(b, dot);
  }

  /** Where a run of deliveries began: the book, the history, and how many bodies were ready. */
  datatype Run = Run(start: Book, since: seq<Event>, ready: nat)

  ghost predicate Going(run: Run, b: Book, trace: seq<Event>, out: seq<Delivery>) {
    && SameChains(run.start, b)
    && Noted(run.since, trace, out)
    && DeliveredBy(run.start, b, out)
    && |b.ready| + |out| == run.ready
  }

  lemma RunBegins(run: Run)
    requires run.ready == |run.start.ready|
    ensures Going(run, run.start, run.since, [])
  {
    forall dot | dot in run.start.links
      ensures LinkAfter(run.start, run.start, [], dot)
    {
    }
  }

  lemma HandOnShrinks(b: Book, trace: seq<Event>, own: Device, dot: Dot, covered: bool)
    requires Kept(b, trace, own) && dot in b.links && b.links[dot].state.Ready? && dot.number > 0
    ensures |HandedOn(b, dot, covered).ready| + 1 == |b.ready|
  {
    assert ReadyBody(b.links[dot].header.item, dot) in b.ready;
  }

  lemma HandOnGoes(run: Run, b: Book, trace: seq<Event>, out: seq<Delivery>, dot: Dot, covered: bool, d: Delivery)
    requires Going(run, b, trace, out)
    requires dot in b.links && dot.number > 0 && b.links[dot].header.dot == dot
    requires d == Delivery(dot, b.links[dot].header.item, b.links[dot].header.hlc, covered)
    requires |HandedOn(b, dot, covered).ready| + 1 == |b.ready|
    ensures Going(run, HandedOn(b, dot, covered), trace + [Handed(b.links[dot].header, covered)], out + [d])
  {
    NotedMore(run.since, trace, out, Handed(b.links[dot].header, covered), d);
    DeliveredMore(run.start, b, dot, covered, out, d);
  }

  lemma HandOverKeeps(run: Run, b: Book, trace: seq<Event>, own: Device, out: seq<Delivery>, dot: Dot, covered: bool)
    requires Kept(b, trace, own) && DeliverableAs(b, dot, covered) && Going(run, b, trace, out)
    ensures dot.number > 0 && dot in b.links
    ensures var h, b' := b.links[dot].header, HandedOn(b, dot, covered);
            && Kept(b', trace + [Handed(h, covered)], own)
            && Going(run, b', trace + [Handed(h, covered)], out + [Delivery(dot, h.item, h.hlc, covered)])
            && |b'.ready| < |b.ready|
  {
    assert dot in b.links && b.links[dot].state.Ready?;
    hide Kept, Going, DeliverableAs;
    HandOnKeeps(b, trace, own, dot, covered);
    HandOnShrinks(b, trace, own, dot, covered);
    var h := b.links[dot].header;
    HandOnGoes(run, b, trace, out, dot, covered, Delivery(dot, h.item, h.hlc, covered));
  }

  /** A cover to absorb covers a served header whose body is missing or bad. */
  lemma AbsorbedIsNeeded(b: Book, vault: Vault, own: Device, ops: seq<Served>, counting: seq<Cover>, c: Cover)
    requires ToAbsorb(b, vault, counting, Grouped(vault, own, ops), c)
    ensures exists op :: op in ops && NeedsCover(op.body) && CoversHeader(c, op.header)
  {
    var groups := Grouped(vault, own, ops);
    var g, op: Served :| g in groups && NeedsCover(op.body) && CountedIn(b, counting, g, op) &&
        CoversHeader(c, op.header);
    WalkIsRight(b, counting, g);
    GroupedAreServed(vault, own, ops);
    assert op in g.served;
  }

  function WaitingError(links: map<Dot, Link>, dot: Dot): Result<(), BodyError> {
    if dot !in links then Err(UnknownOp)
    else if !links[dot].state.Waiting? then Err(NotWaiting)
    else Ok(())
  }

  predicate DotIs(d: Delivery, dot: Dot) {
    d.dot == dot
  }

  predicate AmongOut(out: seq<Delivery>, dot: Dot) {
    exists k | 0 <= k < |out| :: DotIs(out[k], dot)
  }

  predicate LinkAfter(b: Book, b': Book, out: seq<Delivery>, dot: Dot)
    requires dot in b.links && dot in b'.links
  {
    b'.links[dot] == if AmongOut(out, dot) then Link(b.links[dot].header, Delivered) else b.links[dot]
  }

  /** The links delivered are those of the batch, and no other link changed. */
  ghost predicate DeliveredBy(b: Book, b': Book, out: seq<Delivery>) {
    && b'.links.Keys == b.links.Keys
    && forall dot | dot in b.links :: LinkAfter(b, b', out, dot)
  }

  lemma NotedMore(since: seq<Event>, trace: seq<Event>, out: seq<Delivery>, e: Event, d: Delivery)
    requires Noted(since, trace, out) && NotedAs(e, d)
    ensures Noted(since, trace + [e], out + [d])
  {
    var longer := trace + [e];
    assert longer[..|since|] == trace[..|since|];
    forall k | 0 <= k < |out + [d]|
      ensures NotedAs(longer[|since| + k], (out + [d])[k])
    {
      if k < |out| {
        assert NotedAs(trace[|since| + k], out[k]);
      }
    }
  }

  lemma DeliveredMore(start: Book, b: Book, dot: Dot, covered: bool, out: seq<Delivery>, d: Delivery)
    requires DeliveredBy(start, b, out) && dot in b.links && dot.number > 0 && d.dot == dot
    ensures DeliveredBy(start, HandedOn(b, dot, covered), out + [d])
  {
    var b', longer := HandedOn(b, dot, covered), out + [d];
    assert longer[|out|] == d && DotIs(longer[|out|], dot);
    forall e | e in start.links
      ensures LinkAfter(start, b', longer, e)
    {
      assert LinkAfter(start, b, out, e);
      if AmongOut(out, e) {
        var k :| 0 <= k < |out| && DotIs(out[k], e);
        assert DotIs(longer[k], e);
      }
    }
  }

  predicate PastHeadOf(item: Item, vv: VersionVector, devices: set<Device>, heads: map<Device, nat>, r: Report) {
    && r.SettledPastHead?
    && r.item == item && r.device in devices && r.device in vv
    && r.settled == vv[r.device] && r.head == Entry(heads, r.device)
    && r.settled > r.head
  }

  predicate ReportBefore(a: Report, b: Report) {
    a.SettledPastHead? && b.SettledPastHead? && (a.item < b.item || (a.item == b.item && a.device < b.device))
  }

  /** An item among these holds a device's ops above the head of its chain. */
  predicate PastHead(among: set<Item>, items: map<Item, VersionVector>, heads: map<Device, nat>, r: Report) {
    && r.SettledPastHead?
    && r.item in among && r.item in items
    && PastHeadOf(r.item, items[r.item], items[r.item].Keys, heads, r)
  }

  lemma ClearingKeeps(b: Book, trace: seq<Event>, own: Device)
    requires Kept(b, trace, own)
    ensures Kept(b.(absorbed := {}), trace, own)
  {
  }

  lemma CommittedWereServed(o: Outcome, groups: seq<Group>, vault: Vault, trace: seq<Event>, own: Device)
    requires Kept(o.book, trace, own) && GroupsFit(vault, own, groups) && o.accepted == []
    ensures var o' := CommitGroups(o, groups);
            forall k | 0 <= k < |o'.accepted| :: WasServed(o'.book, groups, o'.accepted[k])
  {
    CommitKeeps(o, groups, vault, trace, own);
  }

  lemma ServedStill(b: Book, groups: seq<Group>, accepted: seq<Dot>)
    requires forall k | 0 <= k < |accepted| :: WasServed(b, groups, accepted[k])
    ensures forall dot | dot in accepted :: WasServed(b.(absorbed := {}), groups, dot)
  {
    forall dot | dot in accepted
      ensures WasServed(b.(absorbed := {}), groups, dot)
    {
      var k :| 0 <= k < |accepted| && accepted[k] == dot;
      assert WasServed(b, groups, accepted[k]);
      var g, op :| g in groups && op in g.served && AsServed(b, op, dot);
      assert AsServed(b.(absorbed := {}), op, dot);
    }
  }

  // ---------- why nothing more can be delivered ----------

  /** The ready bodies of an item that are covered, and not handed over yet. */
  ghost predicate DueFits(b: Book, item: Item, due: set<Dot>) {
    && (forall dot | dot in due :: ReadyBody(item, dot) in b.ready && CoversDot(SettledOf(b.items, item), dot))
    && (forall r | r in b.ready && r.item == item && CoversDot(SettledOf(b.items, item), r.dot) :: r.dot in due)
  }

  lemma DueIsDeliverable(b: Book, trace: seq<Event>, own: Device, item: Item, due: set<Dot>, dot: Dot)
    requires Kept(b, trace, own) && DueFits(b, item, due) && dot in due
    ensures DeliverableAs(b, dot, true) && b.links[dot].header.item == item && dot.number > 0
  {
    assert InIndex(b.links, ReadyBody(item, dot));
    assert LinkFits(b.links, b.heads, dot);
  }

  lemma DueShrinks(b: Book, item: Item, due: set<Dot>, dot: Dot)
    requires DueFits(b, item, due) && dot in due && dot in b.links && b.links[dot].header.item == item && dot.number > 0
    ensures DueFits(HandedOn(b, dot, true), item, due - {dot})
  {
  }

  lemma DueBegins(b: Book, trace: seq<Event>, own: Device, item: Item, due: set<Dot>)
    requires Kept(b, trace, own)
    requires due == set r | r in b.ready && r.item == item && CoversDot(SettledOf(b.items, item), r.dot) :: r.dot
    ensures DueFits(b, item, due)
  {
  }

  lemma CleanGoes(run: Run, b: Book, trace: seq<Event>, own: Device, out: seq<Delivery>, item: Item)
    requires Kept(b, trace, own) && DueFits(b, item, {}) && Going(run, b, trace, out)
    ensures Kept(b.(dirty := b.dirty - {item}), trace, own)
    ensures Going(run, b.(dirty := b.dirty - {item}), trace, out)
  {
    DeliveredStill(run.start, b, b.(dirty := b.dirty - {item}), out);
  }

  lemma DeliveredStill(start: Book, b: Book, b': Book, out: seq<Delivery>)
    requires DeliveredBy(start, b, out) && b'.links == b.links
    ensures DeliveredBy(start, b', out)
  {
    forall dot | dot in start.links
      ensures LinkAfter(start, b', out, dot)
    {
      assert LinkAfter(start, b, out, dot);
    }
  }

  /** No link of the chain from a number on to another is unsettled. */
  ghost predicate SettledUpTo(links: map<Dot, Link>, items: map<Item, VersionVector>, d: Device, n: nat) {
    forall e | e in links && e.device == d && e.number < n :: Covered(items, links[e].header)
  }

  predicate UnsettledFrom(links: map<Dot, Link>, items: map<Item, VersionVector>, d: Device, from: nat, e: Dot) {
    e in links && e.device == d && e.number >= from && !Settled(items, links[e])
  }

  /** The numbers of a chain's unsettled links, from a number on. */
  function Unsettled(links: map<Dot, Link>, items: map<Item, VersionVector>, d: Device, from: nat): set<nat> {
    set e | e in links && UnsettledFrom(links, items, d, from, e) :: e.number
  }

  lemma UnsettledIff(links: map<Dot, Link>, items: map<Item, VersionVector>, d: Device, from: nat, n: nat)
    ensures n in Unsettled(links, items, d, from) <==> UnsettledFrom(links, items, d, from, Dot(d, n))
  {
    if UnsettledFrom(links, items, d, from, Dot(d, n)) {
      assert Dot(d, n).number in Unsettled(links, items, d, from);
    }
    if n in Unsettled(links, items, d, from) {
      var e :| e in links && UnsettledFrom(links, items, d, from, e) && e.number == n;
      assert e == Dot(d, n);
    }
  }

  /** A link is settled when it is below the frontier, or not among the unsettled ones from there. */
  lemma SettledElsewhere(b: Book, trace: seq<Event>, own: Device, e: Dot)
    requires Kept(b, trace, own) && e in b.links
    requires e.number !in Unsettled(b.links, b.items, e.device, Entry(b.frontiers, e.device))
    ensures Covered(b.items, b.links[e].header)
  {
    assert FrontierFits(b.links, b.items, b.frontiers, e) && SettledFits(b.links, b.items, e);
    UnsettledIff(b.links, b.items, e.device, Entry(b.frontiers, e.device), e.number);
    assert e == Dot(e.device, e.number);
  }

  lemma NoneUnsettled(b: Book, trace: seq<Event>, own: Device, d: Device)
    requires Kept(b, trace, own) && Unsettled(b.links, b.items, d, Entry(b.frontiers, d)) == {}
    ensures forall n :: SettledUpTo(b.links, b.items, d, n)
  {
    hide Kept, Unsettled, Covered;
    forall e | e in b.links && e.device == d
      ensures Covered(b.items, b.links[e].header)
    {
      SettledElsewhere(b, trace, own, e);
    }
  }

  lemma NextUnsettled(b: Book, trace: seq<Event>, own: Device, d: Device, n: nat)
    requires Kept(b, trace, own)
    requires var unsettled := Unsettled(b.links, b.items, d, Entry(b.frontiers, d));
             n in unsettled && forall m | m in unsettled :: n <= m
    ensures SettledUpTo(b.links, b.items, d, n)
    ensures Dot(d, n) in b.links && !Covered(b.items, b.links[Dot(d, n)].header) && n <= Entry(b.heads, d)
  {
    UnsettledIff(b.links, b.items, d, Entry(b.frontiers, d), n);
    assert LinkFits(b.links, b.heads, Dot(d, n));
    hide Kept, Unsettled, Covered;
    forall f | f in b.links && f.device == d && f.number < n
      ensures Covered(b.items, b.links[f].header)
    {
      SettledElsewhere(b, trace, own, f);
    }
  }

  lemma FrontierMoves(run: Run, b: Book, trace: seq<Event>, own: Device, out: seq<Delivery>, d: Device, n: nat)
    requires Kept(b, trace, own) && Going(run, b, trace, out) && SettledUpTo(b.links, b.items, d, n) &&
               n <= Entry(b.heads, d) + 1
    ensures Kept(b.(frontiers := b.frontiers[d := n]), trace, own)
    ensures Going(run, b.(frontiers := b.frontiers[d := n]), trace, out)
  {
    var frontiers' := b.frontiers[d := n];
    forall e | e in b.links
      ensures FrontierFits(b.links, b.items, frontiers', e)
    {
      assert FrontierFits(b.links, b.items, b.frontiers, e);
    }
    forall e | e in frontiers'
      ensures FrontierLow(b.heads, frontiers', e)
    {
      assert e != d ==> FrontierLow(b.heads, b.frontiers, e);
    }
    DeliveredStill(run.start, b, b.(frontiers := frontiers'), out);
  }

  lemma NextIsDeliverable(b: Book, dot: Dot)
    requires dot in b.links && b.links[dot].state.Ready? && SettledUpTo(b.links, b.items, dot.device, dot.number)
    requires !Covered(b.items, b.links[dot].header) && ContextSettled(b.items, b.links[dot].header)
    ensures DeliverableAs(b, dot, false)
  {
  }

  lemma AllSettledIsStuck(b: Book, d: Device)
    requires forall n :: SettledUpTo(b.links, b.items, d, n)
    ensures Stuck(b, d)
  {
    forall dot | dot in b.links && dot.device == d
      ensures Covered(b.items, b.links[dot].header)
    {
      assert SettledUpTo(b.links, b.items, d, dot.number + 1);
    }
  }

  /** The first unsettled link is not ready, or waits for its context: it holds up what comes after it. */
  lemma HeldUpIsStuck(b: Book, dot: Dot)
    requires SettledUpTo(b.links, b.items, dot.device, dot.number)
    requires dot in b.links && !Covered(b.items, b.links[dot].header)
    requires !b.links[dot].state.Ready? || !ContextSettled(b.items, b.links[dot].header)
    ensures Stuck(b, dot.device)
  {
    hide Covered, ContextSettled;
    forall e | e in b.links && e.device == dot.device
      ensures !DeliverableAs(b, e, false)
    {
      if e.number > dot.number {
        assert Earlier(dot, e);
      } else if e.number == dot.number {
        assert e == dot;
      }
    }
  }

  lemma NoChainIsStuck(b: Book, trace: seq<Event>, own: Device)
    requires Kept(b, trace, own)
    ensures forall d | d !in b.heads :: Stuck(b, d)
  {
    forall e | e in b.links
      ensures e.device in b.heads
    {
      assert LinkFits(b.links, b.heads, e);
    }
  }

  lemma StuckStays(b: Book, b': Book)
    requires b'.links == b.links && b'.items == b.items
    ensures forall d | Stuck(b, d) :: Stuck(b', d)
  {
    forall d | Stuck(b, d)
      ensures Stuck(b', d)
    {
      forall dot | dot in b'.links && dot.device == d
        ensures !DeliverableAs(b', dot, false)
      {
        assert !DeliverableAs(b, dot, false);
        assert ChainSettled(b, dot) == ChainSettled(b', dot);
      }
    }
  }

  /** With nothing dirty, no ready body is covered. */
  lemma NoneCovered(b: Book, trace: seq<Event>, own: Device, dot: Dot)
    requires Kept(b, trace, own) && b.dirty == {} && dot in b.links && b.links[dot].state.Ready?
    ensures !Covered(b.items, b.links[dot].header)
  {
    var r := ReadyBody(b.links[dot].header.item, dot);
    assert LinkFits(b.links, b.heads, dot);
    assert r in b.ready;
    assert CoversDot(SettledOf(b.items, r.item), r.dot) ==> r.item in b.dirty;
  }

  lemma QuietNow(b: Book, trace: seq<Event>, own: Device)
    requires Kept(b, trace, own) && b.dirty == {} && forall d :: Stuck(b, d)
    ensures Quiet(b)
  {
    hide Kept;
    forall dot | dot in b.links
      ensures !Deliverable(b, dot)
    {
      assert Stuck(b, dot.device);
      assert !DeliverableAs(b, dot, false);
      if b.links[dot].state.Ready? {
        NoneCovered(b, trace, own, dot);
      }
    }
  }

  // ---------- what the first pass collects ----------

  predicate NeedsAmongAccepted(accepted: seq<Served>, h: OpHeader) {
    exists op | op in accepted :: NeedsCover(op.body) && op.header == h
  }

  lemma NoneAmong()
    ensures forall h :: !NeedsAmongAccepted([], h)
  {
  }

  lemma OneMoreAmong(accepted: seq<Served>, op: Served)
    ensures forall h :: NeedsAmongAccepted(accepted + [op], h)
                        <==> NeedsAmongAccepted(accepted, h) || (NeedsCover(op.body) && h == op.header)
  {
    forall h
      ensures NeedsAmongAccepted(accepted + [op], h)
              <==> NeedsAmongAccepted(accepted, h) || (NeedsCover(op.body) && h == op.header)
    {
      assert op in accepted + [op];
      assert forall o | o in accepted :: o in accepted + [op];
    }
  }

  predicate NeedsAmong(b: Book, counting: seq<Cover>, reserved: seq<Served>, h: OpHeader) {
    exists op | op in reserved :: NeedsCover(op.body) && Counts(b.items, counting, op.header) && op.header == h
  }

  ghost predicate NeedsIn(b: Book, counting: seq<Cover>, groups: seq<Group>, h: OpHeader) {
    exists g, op: Served :: g in groups && NeedsCover(op.body) && CountedIn(b, counting, g, op) && op.header == h
  }

  /** The headers that count only behind a cover, of every group. */
  ghost predicate BodilessAre(b: Book, counting: seq<Cover>, groups: seq<Group>, bodiless: seq<OpHeader>) {
    forall h :: h in bodiless <==> NeedsIn(b, counting, groups, h)
  }

  lemma NeedsInGroup(b: Book, counting: seq<Cover>, groups: seq<Group>, g: Group, h: OpHeader)
    ensures NeedsIn(b, counting, groups + [g], h)
            <==> NeedsIn(b, counting, groups, h)
                 || NeedsAmongAccepted(WalkOf(b, counting, g).accepted, h)
                 || NeedsAmong(b, counting, WalkOf(b, counting, g).reserved, h)
  {
    hide WalkOf;
    var w := WalkOf(b, counting, g);
    if NeedsIn(b, counting, groups + [g], h) {
      var f, op: Served :| f in groups + [g] && NeedsCover(op.body) && CountedIn(b, counting, f, op) && op.header == h;
      assert f in groups || f == g;
    }
    if NeedsIn(b, counting, groups, h) {
      var f, op: Served :| f in groups && NeedsCover(op.body) && CountedIn(b, counting, f, op) && op.header == h;
      assert f in groups + [g];
    }
    if NeedsAmongAccepted(w.accepted, h) {
      var op :| op in w.accepted && NeedsCover(op.body) && op.header == h;
      assert g in groups + [g] && CountedIn(b, counting, g, op);
    }
    if NeedsAmong(b, counting, w.reserved, h) {
      var op :| op in w.reserved && NeedsCover(op.body) && Counts(b.items, counting, op.header) && op.header == h;
      assert g in groups + [g] && CountedIn(b, counting, g, op);
    }
  }

  lemma BodilessMore(b: Book, counting: seq<Cover>, groups: seq<Group>, g: Group, bodiless: seq<OpHeader>,
                     bodiless1: seq<OpHeader>, bodiless2: seq<OpHeader>)
    requires BodilessAre(b, counting, groups, bodiless)
    requires forall h :: h in bodiless1 <==> h in bodiless || NeedsAmongAccepted(WalkOf(b, counting, g).accepted, h)
    requires forall h :: h in bodiless2 <==>
               h in bodiless1 || NeedsAmong(b, counting, WalkOf(b, counting, g).reserved, h)
    ensures BodilessAre(b, counting, groups + [g], bodiless2)
  {
    hide WalkOf, NeedsIn, NeedsAmong, NeedsAmongAccepted;
    forall h
      ensures h in bodiless2 <==> NeedsIn(b, counting, groups + [g], h)
    {
      NeedsInGroup(b, counting, groups, g, h);
    }
  }

  lemma PassedMore(b: Book, counting: seq<Cover>, rest: seq<Group>, passed: seq<Dot>)
    requires rest != []
    ensures passed + PlanLinks(b, counting, rest)
            == passed + Dots(AcceptedOf(b, counting, rest[0])) + PlanLinks(b, counting, rest[1..])
  {
    hide AcceptedOf, Dots;
    var first, others := Dots(AcceptedOf(b, counting, rest[0])), PlanLinks(b, counting, rest[1..]);
    assert passed + (first + others) == passed + first + others;
  }

  lemma CutGrows(heads: map<Device, nat>, passed: seq<Dot>, cut: VersionVector, h: OpHeader)
    requires CutIs(heads, passed, cut)
    ensures CutIs(heads, passed + [h.dot], Add(cut, h.dot))
  {
    var longer, cut' := passed + [h.dot], Add(cut, h.dot);
    assert h.dot in longer;
    forall d
      ensures Get(cut', d) == Entry(heads, d) || Dot(d, Get(cut', d)) in longer
    {
      assert Get(cut, d) == Entry(heads, d) || Dot(d, Get(cut, d)) in passed;
    }
  }

  lemma AbsorbIff(b: Book, vault: Vault, counting: seq<Cover>, groups: seq<Group>, bodiless: seq<OpHeader>, c: Cover)
    requires BodilessAre(b, counting, groups, bodiless)
    ensures ToAbsorb(b, vault, counting, groups, c)
            <==> CountsCover(b.cutoffs, vault, c) && exists h | h in bodiless :: CoversHeader(c, h)
  {
    hide CountedIn;
    if ToAbsorb(b, vault, counting, groups, c) {
      var g, op: Served :| g in groups && NeedsCover(op.body) && CountedIn(b, counting, g, op) &&
          CoversHeader(c, op.header);
      assert NeedsIn(b, counting, groups, op.header);
      assert op.header in bodiless;
    }
    if h :| h in bodiless && CoversHeader(c, h) {
      assert NeedsIn(b, counting, groups, h);
      var g, op: Served :| g in groups && NeedsCover(op.body) && CountedIn(b, counting, g, op) && op.header == h;
    }
  }
}
