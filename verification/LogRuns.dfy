/**
 The runs of a vault's log: any responses, verdicts, absorbed covers, own ops, revocations and deliveries, in
 any order, from an empty log on (crates/rizzy-sync/src/causal.rs). What `CausalLog` proves of every kept
 history holds of every one of them.
 */
module LogRuns {
  import opened Base
  import opened VersionVectors
  import opened CausalLog
  import opened ChainCheck
  import opened ChainCommit
  import opened VaultLogs

  /** A log with the history of what happened to it. */
  datatype Log = Log(book: Book, trace: seq<Event>)

  datatype Change =
    | Respond(ops: seq<Served>)
    | Verdict(dot: Dot, state: State)
    | Take(item: Item, taken: VersionVector)
    | Write(header: OpHeader)
    | Learn(device: Device, number: nat)
    | Deliver(dot: Dot, covered: bool)
    | MoveFrontier(device: Device, number: nat)
    | Clean(item: Item)

  /** What one change makes of a log, and when the code makes it. */
  ghost predicate Changes(vault: Vault, own: Device, l: Log, c: Change, m: Log) {
    var b := l.book;
    match c
    case Respond(ops) =>
      var o := CommitGroups(Outcome(b, [], Aside(b, vault, own, ops)), Grouped(vault, own, ops));
      m == Log(o.book.(absorbed := {}), l.trace)
    case Verdict(dot, state) => Judgeable(b, dot, state) && m == Log(Judged(b, dot, state), l.trace)
    case Take(item, taken) => m == Log(Absorbed(b, item, taken), l.trace + [Took(item, taken)])
    case Write(h) => h.dot.device == own && Next(b, h) && m == Log(Written(b, h), l.trace + [Wrote(h)])
    case Learn(d, number) => m == Log(RevokedFrom(b, d, number), l.trace + [Cut(d, number)])
    case Deliver(dot, covered) =>
      dot.number > 0 && DeliverableAs(b, dot, covered) &&
      m == Log(HandedOn(b, dot, covered), l.trace + [Handed(b.links[dot].header, covered)])
    case MoveFrontier(d, n) =>
      SettledUpTo(b.links, b.items, d, n) && n <= Entry(b.heads, d) + 1 &&
      m == l.(book := b.(frontiers := b.frontiers[d := n]))
    case Clean(item) => DueFits(b, item, {}) && m == l.(book := b.(dirty := b.dirty - {item}))
  }

  ghost predicate Step(vault: Vault, own: Device, l: Log, m: Log) {
    exists c :: Changes(vault, own, l, c, m)
  }

  ghost predicate StepAt(vault: Vault, own: Device, run: seq<Log>, i: nat)
    requires 0 < i < |run|
  {
    Step(vault, own, run[i - 1], run[i])
  }

  ghost predicate IsRun(vault: Vault, own: Device, run: seq<Log>) {
    |run| > 0 && run[0] == Log(EMPTY, []) && forall i: nat :: 0 < i < |run| ==> StepAt(vault, own, run, i)
  }

  lemma ChangeKeeps(vault: Vault, own: Device, l: Log, c: Change, m: Log)
    requires Kept(l.book, l.trace, own) && Changes(vault, own, l, c, m)
    ensures Kept(m.book, m.trace, own)
  {
    var b, run := l.book, Run(l.book, l.trace, |l.book.ready|);
    match c
    case Respond(ops) => ResponseKeeps(vault, own, l, ops);
    case Verdict(dot, state) => JudgeKeeps(b, l.trace, own, dot, state);
    case Take(item, taken) => AbsorbKeeps(b, l.trace, own, item, taken);
    case Write(h) => WriteKeeps(b, l.trace, own, h);
    case Learn(d, number) => RevokeKeeps(b, l.trace, own, d, number);
    case Deliver(dot, covered) => HandOnKeeps(b, l.trace, own, dot, covered);
    case MoveFrontier(d, n) =>
      RunBegins(run);
      FrontierMoves(run, b, l.trace, own, [], d, n);
    case Clean(item) =>
      RunBegins(run);
      CleanGoes(run, b, l.trace, own, [], item);
  }

  lemma ResponseKeeps(vault: Vault, own: Device, l: Log, ops: seq<Served>)
    requires Kept(l.book, l.trace, own)
    ensures
      var o := CommitGroups(Outcome(l.book, [], Aside(l.book, vault, own, ops)), Grouped(vault, own, ops));
      Kept(o.book.(absorbed := {}), l.trace, own)
  {
    var start := Outcome(l.book, [], Aside(l.book, vault, own, ops));
    GroupedFacts(vault, own, ops, own + 1);
    CommitKeeps(start, Grouped(vault, own, ops), vault, l.trace, own);
    ClearingKeeps(CommitGroups(start, Grouped(vault, own, ops)).book, l.trace, own);
  }

  lemma {:induction false} RunIsKept(vault: Vault, own: Device, run: seq<Log>, i: nat)
    requires IsRun(vault, own, run) && i < |run|
    ensures Kept(run[i].book, run[i].trace, own)
  {
    if i == 0 {
      EmptyIsKept(own);
    } else {
      RunIsKept(vault, own, run, i - 1);
      assert StepAt(vault, own, run, i);
      var c :| Changes(vault, own, run[i - 1], c, run[i]);
      ChangeKeeps(vault, own, run[i - 1], c, run[i]);
    }
  }

  /** Over every run no body is delivered twice. */
  lemma EachBodyOnce(vault: Vault, own: Device, run: seq<Log>, i: nat, k: nat, m: nat)
    requires IsRun(vault, own, run) && i < |run|
    requires k < m < |run[i].trace| && run[i].trace[k].Handed? && run[i].trace[m].Handed?
    ensures run[i].trace[k].header.dot != run[i].trace[m].header.dot
  {
    RunIsKept(vault, own, run, i);
    NoBodyTwice(run[i].book, run[i].trace, own, k, m);
  }

  /** Over every run fresh deliveries are in causal order. */
  lemma AlwaysInCausalOrder(vault: Vault, own: Device, run: seq<Log>, i: nat, k: nat, m: nat)
    requires IsRun(vault, own, run) && i < |run|
    requires k < m < |run[i].trace| && run[i].trace[k].Handed? && run[i].trace[m].Handed?
    requires !run[i].trace[k].covered && HappenedBefore(run[i].trace[m].header, run[i].trace[k].header)
    ensures run[i].trace[m].covered
  {
    RunIsKept(vault, own, run, i);
    FreshInCausalOrder(run[i].book, run[i].trace, own, k, m);
  }

  /** Over every run nothing of a device is delivered past a cut-off that was known before. */
  lemma NeverPastACut(vault: Vault, own: Device, run: seq<Log>, i: nat, k: nat, m: nat)
    requires IsRun(vault, own, run) && i < |run|
    requires k < m < |run[i].trace| && run[i].trace[k].Cut? && run[i].trace[m].Handed?
    requires run[i].trace[m].header.dot.device == run[i].trace[k].device
    ensures run[i].trace[m].header.dot.number <= run[i].trace[k].number
  {
    RunIsKept(vault, own, run, i);
    NonePastACut(run[i].book, run[i].trace, own, k, m);
  }

  /** The history only grows: what was delivered or learnt stays in it. */
  lemma {:induction false} HistoryGrows(vault: Vault, own: Device, run: seq<Log>, i: nat, j: nat)
    requires IsRun(vault, own, run) && i <= j < |run|
    ensures run[i].trace <= run[j].trace
  {
    if i < j {
      HistoryGrows(vault, own, run, i, j - 1);
      assert StepAt(vault, own, run, j);
      var c :| Changes(vault, own, run[j - 1], c, run[j]);
    }
  }
}
