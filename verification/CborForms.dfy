/**
 Every form the CBOR reader of the extension's end-to-end tests takes (apps/extension/e2e/webauthn-verify.ts):
 section 3 of RFC 8949 with arguments of 0, 1, 2 or 4 bytes, short or not, and of definite length. Main result:
 what the reader reads within the buffer is exactly what some form of its input means.
 */
module CborForms {
  import opened Base
  import opened Cbor

  /** An encoded item with the width of every argument. */
  datatype Form =
    | Num(major: nat, width: nat, n: nat)
    | Str(major: nat, width: nat, bytes: Blob)
    | Arr(width: nat, items: Forms)
    | Mp(width: nat, pairs: Pairs)

  datatype Forms = NoForm | Next(head: Form, tail: Forms)

  datatype Pairs = NoPair | Pair(key: Form, value: Form, rest: Pairs)

  /** An argument of this many bytes, 0 for one in the head itself. */
  predicate Fits(width: nat, n: nat) {
    match width
    case 0 => n < 24
    case 1 => n < 0x100
    case 2 => n < 0x1_0000
    case 4 => n < TWO_32
    case _ => false
  }

  function LowBits(width: nat, n: nat): (r: nat)
    requires Fits(width, n)
    ensures r < 27
  {
    match width
    case 0 => n
    case 1 => 24
    case 2 => 25
    case _ => 26
  }

  function WideHead(major: nat, width: nat, n: nat): Blob
    requires major <= 5 && Fits(width, n)
  {
    [major * 32 + LowBits(width, n)] + BigEndian(n, width)
  }

  function Count(fs: Forms): nat {
    match fs
    case NoForm => 0
    case Next(_, tail) => 1 + Count(tail)
  }

  function CountPairs(ps: Pairs): nat {
    match ps
    case NoPair => 0
    case Pair(_, _, rest) => 1 + CountPairs(rest)
  }

  predicate WellFormed(f: Form) {
    match f
    case Num(major, width, n) => major <= 1 && Fits(width, n)
    case Str(major, width, bytes) => 2 <= major <= 3 && Fits(width, |bytes|)
    case Arr(width, items) => Fits(width, Count(items)) && AllWellFormed(items)
    case Mp(width, pairs) => Fits(width, CountPairs(pairs)) && PairsWellFormed(pairs)
  }

  predicate AllWellFormed(fs: Forms) {
    match fs
    case NoForm => true
    case Next(head, tail) => WellFormed(head) && AllWellFormed(tail)
  }

  predicate PairsWellFormed(ps: Pairs) {
    match ps
    case NoPair => true
    case Pair(key, value, rest) => WellFormed(key) && WellFormed(value) && PairsWellFormed(rest)
  }

  /** The bytes of a form. */
  function Wire(f: Form): Blob
    requires WellFormed(f)
  {
    match f
    case Num(major, width, n) => WideHead(major, width, n)
    case Str(major, width, bytes) => WideHead(major, width, |bytes|) + bytes
    case Arr(width, items) => WideHead(4, width, Count(items)) + WireAll(items)
    case Mp(width, pairs) => WideHead(5, width, CountPairs(pairs)) + WirePairs(pairs)
  }

  function WireAll(fs: Forms): Blob
    requires AllWellFormed(fs)
  {
    match fs
    case NoForm => []
    case Next(head, tail) => Wire(head) + WireAll(tail)
  }

  function WirePairs(ps: Pairs): Blob
    requires PairsWellFormed(ps)
  {
    match ps
    case NoPair => []
    case Pair(key, value, rest) => Wire(key) + (Wire(value) + WirePairs(rest))
  }

  /** What a form means: a negative number is below -1 by its argument, and a repeated scalar key keeps its place. */
  function Meaning(f: Form): Value {
    match f
    case Num(major, _, n) => if major == 0 then Number(n) else Number(-1 - n)
    case Str(major, _, bytes) => if major == 2 then Bytes(bytes) else Text(bytes)
    case Arr(_, items) => Array(Meanings(items))
    case Mp(_, pairs) => Map(Entries(pairs, []))
  }

  function Meanings(fs: Forms): seq<Value> {
    match fs
    case NoForm => []
    case Next(head, tail) => [Meaning(head)] + Meanings(tail)
  }

  function Entries(ps: Pairs, before: seq<Entry>): seq<Entry>
    decreases ps
  {
    match ps
    case NoPair => before
    case Pair(key, value, rest) => Entries(rest, SetEntry(before, Meaning(key), Meaning(value)))
  }

  // ---------- heads ----------

  lemma TwoBytesBack(hi: Byte, lo: Byte)
    ensures BigEndian(TwoBytes(hi, lo), 2) == [hi, lo]
  {
    var n := TwoBytes(hi, lo);
    assert BigEndian(n, 2) == BigEndian(n / 256, 1) + [n % 256];
    assert BigEndian(hi, 1) == BigEndian(hi / 256, 0) + [hi % 256];
  }

  lemma FourBytesBack(a: Byte, b: Byte, c: Byte, d: Byte)
    ensures BigEndian(FourBytes(a, b, c, d), 4) == [a, b, c, d]
  {
    var ab, abc := TwoBytes(a, b), TwoBytes(TwoBytes(a, b), c);
    var n := FourBytes(a, b, c, d);
    assert n / 256 == abc && n % 256 == d && abc / 256 == ab && abc % 256 == c;
    assert BigEndian(n, 4) == BigEndian(abc, 3) + [d];
    assert BigEndian(abc, 3) == BigEndian(ab, 2) + [c];
    TwoBytesBack(a, b);
  }

  /** An argument is read whatever its width. */
  lemma ArgumentIsRead(buf: Blob, at: nat, width: nat, n: nat)
    requires Fits(width, n) && Holds(buf, at, BigEndian(n, width))
    ensures Uint(buf, at, LowBits(width, n)) == Some((n, at + width))
  {
    var b := BigEndian(n, width);
    if width > 0 {
      HoldsByte(buf, at, b, 0);
      if width == 1 {
        assert b == BigEndian(n / 256, 0) + [n % 256];
      } else {
        HoldsByte(buf, at, b, 1);
        if width == 2 {
          TwoBytesOf(n);
        } else {
          HoldsByte(buf, at, b, 2);
          HoldsByte(buf, at, b, 3);
          ShiftedFour(buf, at);
          FourBytesOf(n);
        }
      }
    }
  }

  /** And nothing else is read as one. */
  lemma ArgumentsAre(buf: Blob, at: nat, additional: nat) returns (width: nat)
    requires at <= |buf| && additional < 32 && Uint(buf, at, additional).Some?
    ensures
      var (n, end) := Uint(buf, at, additional).value;
      Fits(width, n) && LowBits(width, n) == additional && end == at + width && Holds(buf, at, BigEndian(n, width))
  {
    if additional < 24 {
      width := 0;
    } else if additional == 24 {
      width := 1;
      assert BigEndian(buf[at], 1) == BigEndian(buf[at] / 256, 0) + [buf[at] % 256];
    } else if additional == 25 {
      width := 2;
      TwoBytesBack(buf[at], buf[at + 1]);
    } else {
      width := 4;
      ShiftedFour(buf, at);
      FourBytesBack(buf[at], buf[at + 1], buf[at + 2], buf[at + 3]);
      assert buf[at..at + 4] == [buf[at], buf[at + 1], buf[at + 2], buf[at + 3]];
    }
  }

  lemma WideHeadReads(buf: Blob, pos: nat, major: nat, width: nat, n: nat)
    requires major <= 5 && Fits(width, n) && Holds(buf, pos, WideHead(major, width, n))
    ensures Decode(buf, pos) == AfterHead(buf, pos + |WideHead(major, width, n)|, major, n)
  {
    hide Decode, Uint;
    var low := LowBits(width, n);
    HoldsParts(buf, pos, [major * 32 + low], BigEndian(n, width));
    HoldsByte(buf, pos, [major * 32 + low], 0);
    ArgumentIsRead(buf, pos + 1, width, n);
    HeadDecides(buf, pos, major, low);
  }

  lemma HeadDecides(buf: Blob, pos: nat, major: nat, low: nat)
    requires pos < |buf| && low < 32 && buf[pos] == major * 32 + low && major <= 5
    ensures Uint(buf, pos + 1, low).None? ==> Decode(buf, pos).None?
    ensures Uint(buf, pos + 1, low).Some? ==>
              Decode(buf, pos)
                  == AfterHead(buf, Uint(buf, pos + 1, low).value.1, major, Uint(buf, pos + 1, low).value.0)
  {
    assert buf[pos] / 32 == major && buf[pos] % 32 == low;
  }

  lemma HoldsBoth(buf: Blob, pos: nat, a: Blob, b: Blob)
    requires Holds(buf, pos, a) && Holds(buf, pos + |a|, b)
    ensures Holds(buf, pos, a + b)
  {
    assert buf[pos..pos + |a| + |b|] == buf[pos..pos + |a|] + buf[pos + |a|..pos + |a| + |b|];
  }

  /** The form is there, and is read as what it means. */
  ghost predicate ReadAs(buf: Blob, pos: nat, f: Form) {
    WellFormed(f) && Holds(buf, pos, Wire(f)) && Decode(buf, pos) == Some((Meaning(f), pos + |Wire(f)|))
  }

  lemma NumberForm(buf: Blob, pos: nat, major: nat, width: nat, n: nat)
    requires major <= 1 && Fits(width, n) && Holds(buf, pos, WideHead(major, width, n))
    requires Decode(buf, pos) == AfterHead(buf, pos + |WideHead(major, width, n)|, major, n)
    ensures ReadAs(buf, pos, Num(major, width, n))
  {
    hide Decode, WideHead, Holds, Fits;
  }

  lemma StringForm(buf: Blob, pos: nat, major: nat, width: nat, bytes: Blob)
    requires 2 <= major <= 3 && Fits(width, |bytes|) && Holds(buf, pos, WideHead(major, width, |bytes|))
    requires Holds(buf, pos + |WideHead(major, width, |bytes|)|, bytes)
    requires Decode(buf, pos) == AfterHead(buf, pos + |WideHead(major, width, |bytes|)|, major, |bytes|)
    ensures ReadAs(buf, pos, Str(major, width, bytes))
  {
    hide Decode, WideHead, Fits;
    HeldString(buf, pos + |WideHead(major, width, |bytes|)|, bytes);
    HoldsBoth(buf, pos, WideHead(major, width, |bytes|), bytes);
  }

  lemma ArrayForm(buf: Blob, pos: nat, width: nat, items: Forms)
    requires Fits(width, Count(items)) && AllWellFormed(items) && Holds(buf, pos, WideHead(4, width, Count(items)))
    requires
      var at := pos + |WideHead(4, width, Count(items))|;
      Holds(buf, at, WireAll(items)) && Decode(buf, pos) == AfterHead(buf, at, 4, Count(items)) &&
      DecodeItems(buf, at, Count(items), []) == Some((Meanings(items), at + |WireAll(items)|))
    ensures ReadAs(buf, pos, Arr(width, items))
  {
    hide Decode, DecodeItems, WideHead, Holds, Fits;
    HoldsBoth(buf, pos, WideHead(4, width, Count(items)), WireAll(items));
  }

  lemma MapForm(buf: Blob, pos: nat, width: nat, pairs: Pairs)
    requires Fits(width, CountPairs(pairs)) && PairsWellFormed(pairs)
    requires Holds(buf, pos, WideHead(5, width, CountPairs(pairs)))
    requires
      var at := pos + |WideHead(5, width, CountPairs(pairs))|;
      Holds(buf, at, WirePairs(pairs)) && Decode(buf, pos) == AfterHead(buf, at, 5, CountPairs(pairs)) &&
      DecodeEntries(buf, at, CountPairs(pairs), []) == Some((Entries(pairs, []), at + |WirePairs(pairs)|))
    ensures ReadAs(buf, pos, Mp(width, pairs))
  {
    hide Decode, DecodeEntries, WideHead, Holds, Fits;
    HoldsBoth(buf, pos, WideHead(5, width, CountPairs(pairs)), WirePairs(pairs));
  }

  // ---------- every form is read ----------

  /** Whatever the widths, a form at any position is read as what it means. */
  lemma {:induction false} FormIsRead(f: Form, buf: Blob, pos: nat)
    requires WellFormed(f) && Holds(buf, pos, Wire(f))
    ensures ReadAs(buf, pos, f)
    decreases f
  {
    hide Decode, DecodeItems, DecodeEntries, Holds, WideHead, Fits, ReadAs, AfterHead, Meanings, Entries, Uint;
    match f
    case Num(major, width, n) =>
      WideHeadReads(buf, pos, major, width, n);
      NumberForm(buf, pos, major, width, n);
    case Str(major, width, bytes) =>
      HoldsParts(buf, pos, WideHead(major, width, |bytes|), bytes);
      WideHeadReads(buf, pos, major, width, |bytes|);
      StringForm(buf, pos, major, width, bytes);
    case Arr(width, items) =>
      var head := WideHead(4, width, Count(items));
      HoldsParts(buf, pos, head, WireAll(items));
      WideHeadReads(buf, pos, 4, width, Count(items));
      FormsAreRead(items, buf, pos + |head|, []);
      assert [] + Meanings(items) == Meanings(items);
      ArrayForm(buf, pos, width, items);
    case Mp(width, pairs) =>
      var head := WideHead(5, width, CountPairs(pairs));
      HoldsParts(buf, pos, head, WirePairs(pairs));
      WideHeadReads(buf, pos, 5, width, CountPairs(pairs));
      PairsAreRead(pairs, buf, pos + |head|, []);
      MapForm(buf, pos, width, pairs);
  }

  lemma {:induction false} FormsAreRead(fs: Forms, buf: Blob, pos: nat, before: seq<Value>)
    requires AllWellFormed(fs) && Holds(buf, pos, WireAll(fs))
    ensures DecodeItems(buf, pos, Count(fs), before) == Some((before + Meanings(fs), pos + |WireAll(fs)|))
    decreases fs
  {
    hide Decode, Holds, Meaning, Wire;
    match fs
    case NoForm => assert before + [] == before;
    case Next(head, tail) =>
      var next := pos + |Wire(head)|;
      HoldsParts(buf, pos, Wire(head), WireAll(tail));
      FormIsRead(head, buf, pos);
      FormsAreRead(tail, buf, next, before + [Meaning(head)]);
      assert before + [Meaning(head)] + Meanings(tail) == before + Meanings(fs);
      hide Meanings, WireAll;
      OneItem(buf, pos, Count(tail), before, Meaning(head), next, before + [Meaning(head)] + Meanings(tail),
              next + |WireAll(tail)|);
  }

  lemma {:induction false} PairsAreRead(ps: Pairs, buf: Blob, pos: nat, before: seq<Entry>)
    requires PairsWellFormed(ps) && Holds(buf, pos, WirePairs(ps))
    ensures DecodeEntries(buf, pos, CountPairs(ps), before) == Some((Entries(ps, before), pos + |WirePairs(ps)|))
    decreases ps
  {
    hide Decode, SetEntry, Holds, Meaning, Wire;
    match ps
    case NoPair =>
    case Pair(key, value, rest) =>
      var middle, next := pos + |Wire(key)|, pos + |Wire(key)| + |Wire(value)|;
      HoldsParts(buf, pos, Wire(key), Wire(value) + WirePairs(rest));
      HoldsParts(buf, middle, Wire(value), WirePairs(rest));
      FormIsRead(key, buf, pos);
      FormIsRead(value, buf, middle);
      PairsAreRead(rest, buf, next, SetEntry(before, Meaning(key), Meaning(value)));
      OneEntry(buf, pos, CountPairs(rest), before, Entry(Meaning(key), Meaning(value)), middle, next,
               Entries(ps, before), next + |WirePairs(rest)|);
  }

  // ---------- nothing else is read ----------

  lemma ReadHead(buf: Blob, pos: nat) returns (major: nat, width: nat, n: nat)
    requires Decode(buf, pos).Some?
    ensures major <= 5 && Fits(width, n) && Holds(buf, pos, WideHead(major, width, n))
    ensures Decode(buf, pos) == AfterHead(buf, pos + |WideHead(major, width, n)|, major, n)
  {
    major := buf[pos] / 32;
    var low := buf[pos] % 32;
    assert buf[pos] == major * 32 + low;
    assert Uint(buf, pos + 1, low).Some?;
    width := ArgumentsAre(buf, pos + 1, low);
    n := Uint(buf, pos + 1, low).value.0;
    assert Holds(buf, pos, [buf[pos]]);
    hide Decode, DecodeItems, DecodeEntries, Uint;
    HoldsBoth(buf, pos, [buf[pos]], BigEndian(n, width));
    HeadDecides(buf, pos, major, low);
  }

  /** A value was read behind this head. */
  ghost predicate ReadBehind(buf: Blob, pos: nat, major: nat, width: nat, n: nat) {
    major <= 5 && Fits(width, n) && Holds(buf, pos, WideHead(major, width, n)) &&
    Decode(buf, pos) == AfterHead(buf, pos + |WideHead(major, width, n)|, major, n) &&
    Decode(buf, pos).Some? && Decode(buf, pos).value.1 <= |buf|
  }

  lemma ItemsBehind(buf: Blob, pos: nat, width: nat, n: nat)
    requires ReadBehind(buf, pos, 4, width, n)
    ensures
      var items := DecodeItems(buf, pos + |WideHead(4, width, n)|, n, []);
      items.Some? && items.value.1 <= |buf|
  {
    hide Decode, DecodeItems, Holds, WideHead;
  }

  lemma EntriesBehind(buf: Blob, pos: nat, width: nat, n: nat)
    requires ReadBehind(buf, pos, 5, width, n)
    ensures
      var entries := DecodeEntries(buf, pos + |WideHead(5, width, n)|, n, []);
      entries.Some? && entries.value.1 <= |buf|
  {
    hide Decode, DecodeEntries, Holds, WideHead;
  }

  lemma StringBehind(buf: Blob, pos: nat, major: nat, width: nat, n: nat)
    requires 2 <= major <= 3 && ReadBehind(buf, pos, major, width, n)
    ensures pos + |WideHead(major, width, n)| + n <= |buf|
  {
    hide Decode, Holds, WideHead;
  }

  lemma {:induction false} OnlyFormsAreArrays(buf: Blob, pos: nat, width: nat, n: nat) returns (f: Form)
    requires ReadBehind(buf, pos, 4, width, n)
    ensures ReadAs(buf, pos, f)
    decreases Left(buf, pos), 0, 0
  {
    hide Decode, DecodeItems, WideHead, Holds, Fits, ReadAs, Meanings, Left, AfterHead, AllWellFormed, WireAll, Wire,
        Meaning;
    HeadIsBefore(buf, pos, 4, width, n);
    ItemsBehind(buf, pos, width, n);
    var items := OnlyFormsAreItems(buf, pos + |WideHead(4, width, n)|, n, []);
    assert [] + Meanings(items) == Meanings(items);
    f := Arr(width, items);
    ArrayForm(buf, pos, width, items);
  }

  lemma {:induction false} OnlyFormsAreMaps(buf: Blob, pos: nat, width: nat, n: nat) returns (f: Form)
    requires ReadBehind(buf, pos, 5, width, n)
    ensures ReadAs(buf, pos, f)
    decreases Left(buf, pos), 0, 0
  {
    hide Decode, DecodeEntries, WideHead, Holds, Fits, ReadAs, Entries, Left, AfterHead, PairsWellFormed, WirePairs,
        Wire,
         Meaning;
    HeadIsBefore(buf, pos, 5, width, n);
    EntriesBehind(buf, pos, width, n);
    var pairs := OnlyFormsArePairs(buf, pos + |WideHead(5, width, n)|, n, []);
    f := Mp(width, pairs);
    MapForm(buf, pos, width, pairs);
  }

  /** What is read, and ends within the buffer, has a form. */
  lemma {:induction false} OnlyFormsAreRead(buf: Blob, pos: nat) returns (f: Form)
    requires Decode(buf, pos).Some? && Decode(buf, pos).value.1 <= |buf|
    ensures ReadAs(buf, pos, f)
    decreases Left(buf, pos), 0, 1
  {
    var major, width, n := ReadHead(buf, pos);
    assert ReadBehind(buf, pos, major, width, n);
    hide Decode, WideHead, Holds, Fits, ReadAs, Left, AfterHead;
    if major <= 1 {
      f := Num(major, width, n);
      NumberForm(buf, pos, major, width, n);
    } else if major <= 3 {
      var at := pos + |WideHead(major, width, n)|;
      StringBehind(buf, pos, major, width, n);
      StringIsHeld(buf, at, n);
      f := Str(major, width, Subarray(buf, at, at + n));
      StringForm(buf, pos, major, width, Subarray(buf, at, at + n));
    } else if major == 4 {
      f := OnlyFormsAreArrays(buf, pos, width, n);
    } else {
      f := OnlyFormsAreMaps(buf, pos, width, n);
    }
  }

  lemma StringIsHeld(buf: Blob, at: nat, n: nat)
    requires at + n <= |buf|
    ensures |Subarray(buf, at, at + n)| == n && Holds(buf, at, Subarray(buf, at, at + n))
  {
  }

  lemma HeadIsBefore(buf: Blob, pos: nat, major: nat, width: nat, n: nat)
    requires major <= 5 && Fits(width, n) && Holds(buf, pos, WideHead(major, width, n))
    ensures Left(buf, pos + |WideHead(major, width, n)|) < Left(buf, pos)
  {
  }

  lemma {:induction false} OnlyFormsAreItems(buf: Blob, pos: nat, n: nat, before: seq<Value>) returns (fs: Forms)
    requires DecodeItems(buf, pos, n, before).Some? && DecodeItems(buf, pos, n, before).value.1 <= |buf|
    ensures AllWellFormed(fs) && Count(fs) == n && Holds(buf, pos, WireAll(fs))
    ensures DecodeItems(buf, pos, n, before) == Some((before + Meanings(fs), pos + |WireAll(fs)|))
    decreases Left(buf, pos), 1, n
  {
    hide Decode;
    if n == 0 {
      fs := NoForm;
      assert before + [] == before;
    } else {
      var item := Decode(buf, pos).value;
      var head := OnlyFormsAreRead(buf, pos);
      var tail := OnlyFormsAreItems(buf, item.1, n - 1, before + [item.0]);
      fs := Next(head, tail);
      HoldsBoth(buf, pos, Wire(head), WireAll(tail));
      assert before + [item.0] + Meanings(tail) == before + Meanings(fs);
    }
  }

  lemma {:induction false} OnlyFormsArePairs(buf: Blob, pos: nat, n: nat, before: seq<Entry>) returns (ps: Pairs)
    requires DecodeEntries(buf, pos, n, before).Some? && DecodeEntries(buf, pos, n, before).value.1 <= |buf|
    ensures PairsWellFormed(ps) && CountPairs(ps) == n && Holds(buf, pos, WirePairs(ps))
    ensures DecodeEntries(buf, pos, n, before) == Some((Entries(ps, before), pos + |WirePairs(ps)|))
    decreases Left(buf, pos), 1, n
  {
    hide Decode, SetEntry;
    if n == 0 {
      ps := NoPair;
    } else {
      var key := Decode(buf, pos).value;
      var value := Decode(buf, key.1).value;
      var k := OnlyFormsAreRead(buf, pos);
      var v := OnlyFormsAreRead(buf, key.1);
      var rest := OnlyFormsArePairs(buf, value.1, n - 1, SetEntry(before, key.0, value.0));
      ps := Pair(k, v, rest);
      HoldsBoth(buf, key.1, Wire(v), WirePairs(rest));
      HoldsBoth(buf, pos, Wire(k), Wire(v) + WirePairs(rest));
    }
  }

  /** The reader, said without it: it reads this value up to here if and only if a form of these bytes means it. */
  lemma ReadsExactlyForms(buf: Blob, pos: nat, v: Value, end: nat)
    requires pos <= end <= |buf|
    ensures Decode(buf, pos) == Some((v, end)) <==>
            exists f :: WellFormed(f) && Wire(f) == buf[pos..end] && Meaning(f) == v
  {
    hide Decode;
    if Decode(buf, pos) == Some((v, end)) {
      var f := OnlyFormsAreRead(buf, pos);
      assert Wire(f) == buf[pos..end];
    }
    forall f | WellFormed(f) && Wire(f) == buf[pos..end] && Meaning(f) == v
      ensures Decode(buf, pos) == Some((v, end))
    {
      FormIsRead(f, buf, pos);
    }
  }
}
