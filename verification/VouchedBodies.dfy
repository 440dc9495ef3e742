/**
 Where the bodies that are delivered come from (crates/rizzy-sync/src/causal.rs): over every run of a vault's
 log, no body is delivered that was not verified first.
 */
module VouchedBodies {
  import opened Base
  import opened VersionVectors
  import opened CausalLog
  import opened ChainCheck
  import opened ChainCommit
  import opened VaultLogs
  import opened LogRuns
  import opened ServedLinks

  // ---------- every run ----------

  /** A change that says that the body of this header is verified. */
  predicate Vouches(c: Change, h: OpHeader) {
    match c
    case Respond(ops) => ServedSo(ops, h, Ready)
    case Verdict(dot, state) => dot == h.dot && state.Ready?
    case _ => false
  }

  ghost predicate Vouched(changes: seq<Change>, h: OpHeader) {
    exists j :: 0 <= j < |changes| && Vouches(changes[j], h)
  }

  ghost predicate ChangedAt(vault: Vault, own: Device, run: seq<Log>, changes: seq<Change>, i: nat)
    requires 0 < i < |run| && |changes| == |run| - 1
  {
    Changes(vault, own, run[i - 1], changes[i - 1], run[i])
  }

  /** A run together with the changes it was made of. */
  ghost predicate IsHistory(vault: Vault, own: Device, run: seq<Log>, changes: seq<Change>) {
    && |run| > 0 && |changes| == |run| - 1 && run[0] == Log(EMPTY, [])
    && forall i: nat :: 0 < i < |run| ==> ChangedAt(vault, own, run, changes, i)
  }

  predicate Live(state: State) {
    state.Ready? || state.Delivered?
  }

  ghost predicate AllVouched(own: Device, l: Log, changes: seq<Change>) {
    && (forall dot | dot in l.book.links && dot.device != own && Live(l.book.links[dot].state) ::
          Vouched(changes, l.book.links[dot].header))
    && (forall k | 0 <= k < |l.trace| && l.trace[k].Handed? :: Vouched(changes, l.trace[k].header))
  }

  lemma StaysVouched(changes: seq<Change>, c: Change, h: OpHeader)
    requires Vouched(changes, h) || Vouches(c, h)
    ensures Vouched(changes + [c], h)
  {
    var longer := changes + [c];
    if Vouched(changes, h) {
      var j :| 0 <= j < |changes| && Vouches(changes[j], h);
      assert longer[j] == changes[j];
    } else {
      assert longer[|changes|] == c;
    }
  }

  /** Every live link after a change was live before it, or is vouched for by it. */
  lemma LiveLinks(vault: Vault, own: Device, l: Log, c: Change, m: Log, dot: Dot)
    requires Kept(l.book, l.trace, own) && Changes(vault, own, l, c, m)
    requires dot in m.book.links && dot.device != own && Live(m.book.links[dot].state)
    ensures (dot in l.book.links && l.book.links[dot].header == m.book.links[dot].header &&
             Live(l.book.links[dot].state)) ||
            Vouches(c, m.book.links[dot].header)
  {
    match c
    case Respond(ops) =>
      var o := Outcome(l.book, [], Aside(l.book, vault, own, ops));
      ResponseBrings(o, vault, own, ops, l.trace);
      assert LinkBrought(l.book, CommitGroups(o, Grouped(vault, own, ops)).book, ops, dot);
    case Verdict(d, state) =>
      assert LinkFits(l.book.links, l.book.heads, d);
    case _ =>
  }

  lemma {:induction false} RunIsVouched(vault: Vault, own: Device, run: seq<Log>, changes: seq<Change>, i: nat)
    requires IsHistory(vault, own, run, changes) && i < |run|
    ensures Kept(run[i].book, run[i].trace, own) && AllVouched(own, run[i], changes[..i])
  {
    if i == 0 {
      EmptyIsKept(own);
    } else {
      RunIsVouched(vault, own, run, changes, i - 1);
      assert ChangedAt(vault, own, run, changes, i);
      var l, c, m := run[i - 1], changes[i - 1], run[i];
      ChangeKeeps(vault, own, l, c, m);
      ChangeIsVouched(vault, own, l, c, m, changes[..i - 1]);
      assert changes[..i] == changes[..i - 1] + [c];
    }
  }

  lemma ChangeIsVouched(vault: Vault, own: Device, l: Log, c: Change, m: Log, changes: seq<Change>)
    requires Kept(l.book, l.trace, own) && Changes(vault, own, l, c, m) && AllVouched(own, l, changes)
    ensures AllVouched(own, m, changes + [c])
  {
    forall dot | dot in m.book.links && dot.device != own && Live(m.book.links[dot].state)
      ensures Vouched(changes + [c], m.book.links[dot].header)
    {
      LiveLinks(vault, own, l, c, m, dot);
      StaysVouched(changes, c, m.book.links[dot].header);
    }
    forall k | 0 <= k < |m.trace| && m.trace[k].Handed?
      ensures Vouched(changes + [c], m.trace[k].header)
    {
      HandedIsVouched(vault, own, l, c, m, changes, k);
    }
  }

  lemma HandedIsVouched(vault: Vault, own: Device, l: Log, c: Change, m: Log, changes: seq<Change>, k: nat)
    requires Kept(l.book, l.trace, own) && Changes(vault, own, l, c, m) && AllVouched(own, l, changes)
    requires k < |m.trace| && m.trace[k].Handed?
    ensures Vouched(changes + [c], m.trace[k].header)
  {
    if k < |l.trace| {
      assert m.trace[k] == l.trace[k];
    } else {
      NotHandedYet(l.book, l.trace, own, c.dot);
    }
    StaysVouched(changes, c, m.trace[k].header);
  }

  /** Over every run, a body that was delivered had been served verified, or was found good by its verdict, before. */
  lemma OnlyVouchedAreDelivered(vault: Vault, own: Device, run: seq<Log>, changes: seq<Change>, i: nat, k: nat)
    requires IsHistory(vault, own, run, changes) && i < |run| && k < |run[i].trace| && run[i].trace[k].Handed?
    ensures exists j :: 0 <= j < i && Vouches(changes[j], run[i].trace[k].header)
  {
    RunIsVouched(vault, own, run, changes, i);
    var j :| 0 <= j < |changes[..i]| && Vouches(changes[..i][j], run[i].trace[k].header);
    assert changes[..i][j] == changes[j];
  }
}
