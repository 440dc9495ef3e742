/**
 The clipboard guard of the web vault (apps/web/src/clipboard.ts): a copied value is cleared after a
 timeout, at a lock, or later when the browser refused. Every method here is one uninterrupted stretch of code,
 from one `await` to the next; the callers may run them in any order, so what `Valid` says holds over
 all interleavings.
 */
module Clipboard {
  import opened Base

  /** One copy, from its write to its clear. */
  class Pending {
    const value: string
    /** Whether its timeout is set, not fired and not cancelled. */
    var timer: bool
    var due: bool

    constructor (value: string)
      ensures this.value == value && timer && !due
    {
      this.value := value;
      timer, due := true, false;
    }
  }

  /** What a running clear attempt awaits. */
  datatype Stage = Granted | Reading | Writing

  /** A running clear attempt: the copy it was started for, and what it awaits. */
  datatype Attempt = Attempt(pending: Pending, stage: Stage)

  /** How a copied value stopped being pending. */
  datatype Fate = Cleared | FoundAnother(seen: string) | Overwritten(newer: Pending)

  /** A clearing write as it was issued: for which copy, which one was recorded then, and what was read. */
  datatype Clear = Clear(target: Pending, recorded: Pending?, seen: Option<string>)

  class ClipboardGuard {
    var pending: Pending?
    /** Whether a retry is subscribed. */
    var subscribed: bool
    var attempting: bool

    /** The values whose `copy` awaits its write, and the attempts that await something. */
    var copies: multiset<string>
    var attempts: seq<Attempt>

    ghost var copied: set<Pending>
    ghost var fates: map<Pending, Fate>
    ghost var clears: seq<Clear>

    /** A clear is issued for the recorded copy only, and never over a value read to be another. */
    ghost predicate ClearsAreOwn()
      reads this
    {
      forall c :: c in clears ==> c.recorded == c.target && (c.seen.Some? ==> c.seen.value == c.target.value)
    }

    ghost predicate WriteIssued(p: Pending)
      reads this
    {
      exists c :: c in clears && c.target == p
    }

    /** A copied value stopped being pending only when it was cleared, was no longer there, or was overwritten. */
    ghost predicate FatesAreKnown()
      reads this
    {
      (forall p :: p in copied ==> p == pending || p in fates) && fates.Keys <= copied &&
      (pending != null ==> pending in copied && pending !in fates) &&
      (forall p :: p in fates && fates[p].Cleared? ==> WriteIssued(p)) &&
      (forall p :: p in fates && fates[p].FoundAnother? ==> fates[p].seen != p.value)
    }

    /** At most one attempt runs, for a copy that is due. */
    ghost predicate OneAttempt()
      reads this, copied
    {
      |attempts| == (if attempting then 1 else 0) &&
      forall a :: a in attempts ==>
        a.pending in copied && a.pending.due && (a.stage.Writing? ==> WriteIssued(a.pending))
    }

    /** Everything but the due clear, which `#attempt` sees to. */
    ghost predicate Consistent()
      reads this, copied
    {
      FatesAreKnown() && OneAttempt() && ClearsAreOwn() && (pending == null ==> !subscribed) &&
      (forall p :: p in copied && p.timer ==> p == pending && !p.due) &&
      (pending != null ==> pending.due || pending.timer)
    }

    ghost predicate Valid()
      reads this, copied
    {
      Consistent() && (pending != null && pending.due ==> attempting || subscribed)
    }

    constructor ()
      ensures Valid() && pending == null && copied == {}
    {
      pending, subscribed, attempting := null, false, false;
      copies, attempts := multiset{}, [];
      copied, fates, clears := {}, map[], [];
    }

    /** `copy`, up to its await. */
    method Copy(value: string)
      requires Valid()
      modifies this`copies
      ensures Valid() && copies == old(copies) + multiset{value}
    {
      copies := copies + multiset{value};
    }

    /** `copy` goes on after the write: the new value replaces the pending one, with a timer of its own. */
    method CopyWritten(value: string) returns (p: Pending)
      requires Valid() && value in copies
      modifies this, pending
      ensures Valid() && fresh(p) && pending == p && p.value == value && p.timer && !p.due
      ensures copied == old(copied) + {p} && clears == old(clears) && attempts == old(attempts)
      ensures fates == if old(pending) != null then old(fates)[old(pending) := Overwritten(p)] else old(fates)
      ensures copies == old(copies) - multiset{value} && attempting == old(attempting)
      ensures old(pending) != null ==> !old(pending).timer && !subscribed
    {
      copies := copies - multiset{value};
      p := new Pending(value);
      if pending != null {
        GiveWay(p);
      }
      copied := copied + {p};
      pending := p;
    }

    /** The newer value overwrote the pending one, so its clear and its retries are moot. */
    method GiveWay(newer: Pending)
      requires Valid() && pending != null
      modifies this`pending, this`subscribed, this`fates, pending
      ensures Valid() && pending == null && !old(pending).timer && old(pending).due == old(pending.due)
      ensures fates == old(fates)[old(pending) := Overwritten(newer)]
    {
      pending.timer := false;
      StopRetrying();
      fates := fates[pending := Overwritten(newer)];
      pending := null;
    }

    /** `copy` rejects: the browser refused the write, and nothing changed. */
    method CopyRefused(value: string)
      requires Valid() && value in copies
      modifies this`copies
      ensures Valid() && copies == old(copies) - multiset{value}
    {
      copies := copies - multiset{value};
    }

    /** The timeout of a copy fires. */
    method TimerFires(p: Pending)
      requires Valid() && p in copied && p.timer
      modifies this, p
      ensures Valid() && pending == old(pending) == p && p.due && attempting
      ensures fates == old(fates) && clears == old(clears) && copied == old(copied) && copies == old(copies)
      ensures attempts == if old(attempting) then old(attempts) else [Attempt(p, Granted)]
    {
      p.timer := false;
      p.due := true;
      Try();
    }

    /** `clearNow`, up to its await. */
    method ClearNow()
      requires Valid()
      modifies this, pending
      ensures Valid() && pending == old(pending) && fates == old(fates) && clears == old(clears) &&
                copied == old(copied)
      ensures pending != null ==> pending.due && !pending.timer && attempting
      ensures attempts == if pending == null || old(attempting) then old(attempts) else [Attempt(pending, Granted)]
    {
      if pending == null {
        return;
      }
      pending.due := true;
      pending.timer := false;
      Try();
    }

    /** A signal the guard may have subscribed to. */
    method RetryMoment()
      requires Valid()
      modifies this
      ensures Valid() && pending == old(pending) && fates == old(fates) && clears == old(clears) &&
                copied == old(copied)
      ensures old(subscribed) && pending.due ==> attempting
      ensures if !old(attempting) && attempting then pending != null && attempts == [Attempt(pending, Granted)]
              else attempts == old(attempts)
    {
      if subscribed {
        Try();
      }
    }

    /** `#attempt`, up to its first await: nothing when none is due or one is running. */
    method Try()
      requires Consistent()
      modifies this`attempting, this`attempts
      ensures Valid()
      ensures pending != null && pending.due ==> attempting
      ensures if !old(attempting) && attempting then pending != null && attempts == [Attempt(pending, Granted)]
              else attempts == old(attempts)
    {
      if pending == null || !pending.due || attempting {
        return;
      }
      attempting := true;
      attempts := [Attempt(pending, Granted)];
    }

    /** The permission query answered: read the clipboard back, or decide without it. */
    method GrantedKnown(granted: bool)
      requires Valid() && attempting && attempts[0].stage.Granted?
      modifies this
      ensures Valid() && copied == old(copied)
      ensures granted ==>
                attempting && attempts == [Attempt(old(attempts[0].pending), Reading)] && pending == old(pending) &&
                clears == old(clears) && fates == old(fates)
      ensures !granted ==> Decided(old(attempts[0].pending), old(pending), old(clears), old(fates), None)
    {
      if granted {
        attempts := [attempts[0].(stage := Reading)];
      } else {
        Decide(None);
      }
    }

    /** The read-back answered, `None` when it failed. */
    method ReadBack(current: Option<string>)
      requires Valid() && attempting && attempts[0].stage.Reading?
      modifies this
      ensures Valid() && copied == old(copied)
      ensures Decided(old(attempts[0].pending), old(pending), old(clears), old(fates), current)
    {
      Decide(current);
    }

    /**
     What the read-back leads to for the copy `mine`: nothing is written over a newer copy, another value is
     left alone and settles the clear, and only what may still be the copied value is written over.
     */
    ghost predicate Decided(mine: Pending, held: Pending?, cleared: seq<Clear>, settled: map<Pending, Fate>,
                            current: Option<string>)
      reads this
    {
      if mine != held then pending == held && clears == cleared && fates == settled
      else if current.Some? && current.value != mine.value then
        pending == null && clears == cleared && fates == settled[mine := FoundAnother(current.value)] && !attempting
      else
        pending == held && attempting && attempts == [Attempt(mine, Writing)] && fates == settled &&
        clears == cleared + [Clear(mine, held, current)]
    }

    /** After the read-back: leave a newer copy to its own clear, leave another value alone, or write. */
    method Decide(current: Option<string>)
      requires Valid() && attempting
      modifies this
      ensures Valid() && copied == old(copied)
      ensures Decided(old(attempts[0].pending), old(pending), old(clears), old(fates), current)
    {
      var mine := attempts[0].pending;
      if pending != mine {
        Finish(None);
      } else if current.Some? && current.value != mine.value {
        Finish(Some(FoundAnother(current.value)));
      } else {
        clears := clears + [Clear(mine, pending, current)];
        assert Clear(mine, pending, current) in clears;
        assert forall c :: c in old(clears) ==> c in clears;
        attempts := [Attempt(mine, Writing)];
      }
    }

    /** The clearing write was done or refused. */
    method WriteKnown(ok: bool)
      requires Valid() && attempting && attempts[0].stage.Writing?
      modifies this
      ensures Valid() && copied == old(copied)
      ensures old(attempts[0].pending) == old(pending) ==>
                if ok then pending == null && !attempting else pending == old(pending) && subscribed && !attempting
      ensures old(attempts[0].pending) != old(pending) ==> pending == old(pending)
      ensures ok && old(attempts[0].pending) == old(pending) ==>
                fates == old(fates)[old(attempts[0].pending) := Cleared]
    {
      Finish(if ok then Some(Cleared) else None);
    }

    /** The end of an attempt: `done` says how the clear was settled, if it was. */
    method Finish(done: Option<Fate>)
      requires Valid() && attempting
      requires done.Some? ==> !done.value.Overwritten?
      requires done.Some? && done.value.Cleared? ==> WriteIssued(attempts[0].pending)
      requires done.Some? && done.value.FoundAnother? ==> done.value.seen != attempts[0].pending.value
      modifies this
      ensures Valid() && copied == old(copied) && clears == old(clears)
      ensures old(attempts[0].pending) != old(pending) ==> pending == old(pending) && fates == old(fates)
      ensures old(attempts[0].pending) == old(pending) ==> !attempting
      ensures old(attempts[0].pending) == old(pending) ==>
                if done.Some? then pending == null && fates == old(fates)[old(attempts[0].pending) := done.value]
                else pending == old(pending) && subscribed && fates == old(fates)
    {
      var mine := attempts[0].pending;
      assert mine in copied && mine.due;
      attempting := false;
      attempts := [];
      if pending != mine {
        // A timer that found this attempt running did nothing, so its clear is started here: `Valid` needs it.
        Try();
        return;
      }
      if done.Some? {
        fates := fates[mine := done.value];
        pending := null;
        StopRetrying();
      } else {
        subscribed := true;
      }
    }

    method StopRetrying()
      modifies this`subscribed
      ensures !subscribed
    {
      subscribed := false;
    }
  }

  /**
   A clear the browser refused is done at the next focus: the retry starts an attempt, and once its
   write is taken nothing is pending any more.
   */
  method RetrySucceeds(g: ClipboardGuard)
    requires g.Valid() && g.pending != null && g.pending.due && !g.attempting
    modifies g
    ensures g.Valid() && g.pending == null
    ensures old(g.pending) in g.fates && g.fates[old(g.pending)].Cleared?
  {
    g.RetryMoment();
    g.GrantedKnown(false);
    g.WriteKnown(true);
  }
}
