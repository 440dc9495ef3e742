/**
 The replay window of signed requests: a 64-bit bitmap below the highest accepted counter
 (crates/rizzy-domain-auth/src/rules.rs), against the plain rule over all accepted counters
 (fuzz/fuzz_targets/auth_rules.rs). Counters are u64 values, so the whole range is covered.
 */
module RequestWindow {
  import opened Base

  const REQUEST_WINDOW := 64

  type U64 = n: int | 0 <= n < 0x1_0000_0000_0000_0000

  // ---------- 64-bit words ----------

  /** A u64 used as a bitmap, as its bits from the lowest up. */
  type Word = w: seq<bool> | |w| == 64 witness seq(64, _ => false)

  /** The word 0. */
  function Zero(): Word {
    seq(64, _ => false)
  }

  /** `w << n`: what leaves the top is lost, zeros come in below. */
  function ShiftLeft(w: Word, n: nat): Word {
    seq(64, i requires 0 <= i < 64 => i >= n && w[i - n])
  }

  function Or(v: Word, w: Word): Word {
    seq(64, i requires 0 <= i < 64 => v[i] || w[i])
  }

  function And(v: Word, w: Word): Word {
    seq(64, i requires 0 <= i < 64 => v[i] && w[i])
  }

  /** The word 1. */
  function One(): Word {
    Zero()[0 := true]
  }

  // ---------- the window ----------

  /** The highest accepted counter, and bit `i` for the acceptance of the counter `i` below it. */
  datatype Window = Window(max: Option<U64>, seen: Word)

  function New(): Window {
    Window(None, Zero())
  }

  /** The next window; `None` refuses the counter. */
  function Accept(w: Window, counter: U64): Option<Window> {
    match w.max
    case None => Some(Window(Some(counter), One()))
    case Some(max) =>
      if counter > max then
        var shift := counter - max;
        var seen := if shift >= REQUEST_WINDOW then Zero() else ShiftLeft(w.seen, shift);
        Some(Window(Some(counter), Or(seen, One())))
      else
        var back := max - counter;
        if back >= REQUEST_WINDOW then None
        else
          var bit := ShiftLeft(One(), back);
          if And(w.seen, bit) != Zero() then None
          else Some(Window(Some(max), Or(w.seen, bit)))
  }

  // ---------- the rule ----------

  /** Every counter accepted so far, and the highest. */
  datatype Log = Log(accepted: set<U64>, max: Option<U64>)

  predicate Allowed(log: Log, c: U64) {
    c !in log.accepted && (log.max.None? || c > log.max.value || log.max.value - c < REQUEST_WINDOW)
  }

  function Logged(log: Log, c: U64): Log {
    Log(log.accepted + {c}, if log.max.None? || c > log.max.value then Some(c) else log.max)
  }

  /** The bitmap says of each counter of the window whether it was accepted. */
  ghost predicate Represents(w: Window, log: Log) {
    w.max == log.max &&
    match log.max
    case None => log.accepted == {} && w.seen == Zero()
    case Some(max) =>
      max in log.accepted && (forall a :: a in log.accepted ==> a <= max) &&
      forall i :: 0 <= i < 64 ==> (w.seen[i] <==> i <= max && max - i in log.accepted)
  }

  /** Testing one bit of a word. */
  lemma TestsOneBit(w: Word, back: nat)
    requires back < 64
    ensures And(w, ShiftLeft(One(), back)) != Zero() <==> w[back]
    ensures Or(w, ShiftLeft(One(), back)) == w[back := true]
  {
    var bit := ShiftLeft(One(), back);
    assert forall i :: 0 <= i < 64 ==> (bit[i] <==> i == back);
    if w[back] {
      assert And(w, bit)[back] && !Zero()[back];
    } else {
      assert And(w, bit) == Zero();
    }
  }

  /** The bitmap accepts exactly what the rule allows, and goes on representing what was accepted. */
  lemma AcceptIsTheRule(w: Window, log: Log, c: U64)
    requires Represents(w, log)
    ensures Accept(w, c).Some? <==> Allowed(log, c)
    ensures Accept(w, c).Some? ==> Represents(Accept(w, c).value, Logged(log, c))
  {
    if log.max.Some? && c <= log.max.value {
      var back := log.max.value - c;
      if back < REQUEST_WINDOW {
        TestsOneBit(w.seen, back);
        assert log.max.value - back == c;
      }
    }
  }

  // ---------- any sequence of requests ----------

  /** The window and the accepted counters after a sequence of requests, refused ones left out. */
  function Served(w: Window, counters: seq<U64>): (Window, seq<U64>) {
    if counters == [] then (w, [])
    else
      var (before, accepted) := Served(w, counters[..|counters| - 1]);
      var c := counters[|counters| - 1];
      var next := Accept(before, c);
      if next.None? then (before, accepted) else (next.value, accepted + [c])
  }

  /** What the rule says of the same sequence. */
  function ByTheRule(log: Log, counters: seq<U64>): Log {
    if counters == [] then log
    else
      var before := ByTheRule(log, counters[..|counters| - 1]);
      var c := counters[|counters| - 1];
      if Allowed(before, c) then Logged(before, c) else before
  }

  /** Over every sequence the two agree on every counter, and no counter is accepted twice. */
  lemma {:induction false} EachCounterOnce(counters: seq<U64>)
    ensures
      var (w, accepted) := Served(New(), counters);
      var log := ByTheRule(Log({}, None), counters);
      Represents(w, log) && (set c | c in accepted) == log.accepted &&
      forall i, j :: 0 <= i < j < |accepted| ==> accepted[i] != accepted[j]
  {
    if counters == [] {
    } else {
      var earlier, c := counters[..|counters| - 1], counters[|counters| - 1];
      EachCounterOnce(earlier);
      var before := Served(New(), earlier);
      var log := ByTheRule(Log({}, None), earlier);
      AcceptIsTheRule(before.0, log, c);
      if Accept(before.0, c).Some? {
        assert forall x :: x in before.1 ==> x in log.accepted;
        assert (set x | x in before.1 + [c]) == log.accepted + {c};
      }
    }
  }
}
