/**
 The CBOR reader of the extension's end-to-end tests (apps/extension/e2e/webauthn-verify.ts), with its
 32-bit shift arithmetic, and an encoder of the same major types (section 3 of RFC 8949).
 */
module Cbor {
  import opened Base

  /**
   A decoded value. A text is its UTF-8 bytes. A map keeps its entries in the order their keys were
   first set.
   */
  datatype Value =
    | Number(n: int)
    | Bytes(bytes: Blob)
    | Text(utf8: Blob)
    | Array(items: seq<Value>)
    | Map(entries: seq<Entry>)

  datatype Entry = Entry(key: Value, value: Value)

  // ---------- 32-bit arithmetic ----------

  const TWO_32 := 0x1_0000_0000
  const TWO_31 := 0x8000_0000

  /** A number as the signed 32-bit integer the bitwise operators work on. */
  function ToInt32(n: int): (r: int)
    ensures -TWO_31 <= r < TWO_31
  {
    (n + TWO_31) % TWO_32 - TWO_31
  }

  /** `(v << 8) | b`: the low byte of a shifted number is zero, so the byte is added to it. */
  function ShiftIn(v: int, b: Byte): int {
    ToInt32(v * 256) + b
  }

  /** `v >>> 0`. */
  function ToUint32(v: int): (r: nat)
    ensures r < TWO_32
  {
    v % TWO_32
  }

  /** Shifting in and reading unsigned at the end is reading unsigned all along. */
  lemma ShiftInIsUnsigned(v: int, b: Byte)
    ensures ToUint32(ShiftIn(v, b)) == (ToUint32(v) * 256 + b) % TWO_32
  {
    var u := ToUint32(v);
    var q := v / TWO_32;
    assert v == q * TWO_32 + u;
    assert v * 256 == (q * 256) * TWO_32 + u * 256;
    var w := v * 256 + TWO_31;
    assert ToInt32(v * 256) == v * 256 - (w / TWO_32) * TWO_32;
    var k := q * 256 - w / TWO_32;
    assert ShiftIn(v, b) == (u * 256 + b) + k * TWO_32;
    ModOfSum(u * 256 + b, k);
  }

  lemma ModOfSum(x: int, k: int)
    ensures (x + k * TWO_32) % TWO_32 == x % TWO_32
  {
    var q, r := x / TWO_32, x % TWO_32;
    assert x + k * TWO_32 == (q + k) * TWO_32 + r;
  }

  // ---------- reading ----------

  function ByteAt(buf: Blob, pos: nat): Option<(Byte, nat)> {
    if pos < |buf| then Some((buf[pos], pos + 1)) else None
  }

  /** `(hi << 8) | lo`. */
  function TwoBytes(hi: int, lo: int): int {
    hi * 256 + lo
  }

  /** Four bytes as a big-endian number. */
  function FourBytes(a: int, b: int, c: int, d: int): int {
    TwoBytes(TwoBytes(TwoBytes(a, b), c), d)
  }

  /** Four bytes shifted in one after the other, from `v`. */
  function ShiftBytes(buf: Blob, pos: nat, n: nat, v: int): Option<(int, nat)>
    decreases n
  {
    if n == 0 then Some((v, pos))
    else
      var b := ByteAt(buf, pos);
      if b.None? then None else ShiftBytes(buf, b.value.1, n - 1, ShiftIn(v, b.value.0))
  }

  /** The argument of a head: its low bits, or the one, two or four bytes after it. */
  function Uint(buf: Blob, pos: nat, additional: nat): (r: Option<(nat, nat)>)
    requires additional < 32
    ensures r.Some? ==> r.value.1 >= pos
  {
    if additional < 24 then Some((additional, pos))
    else if additional == 24 then
      var b := ByteAt(buf, pos);
      if b.None? then None else Some((b.value.0, b.value.1))
    else if additional == 25 then
      var hi := ByteAt(buf, pos);
      var lo := ByteAt(buf, pos + 1);
      if hi.None? || lo.None? then None else Some((TwoBytes(hi.value.0, lo.value.0), pos + 2))
    else if additional == 26 then
      var v := ShiftBytes(buf, pos, 4, 0);
      ShiftedFour(buf, pos);
      if v.None? then None else Some((ToUint32(v.value.0), v.value.1))
    else None
  }

  /** `subarray`, which stops at the end of the buffer. */
  function Subarray(buf: Blob, from: nat, to: nat): Blob
    requires from <= to
  {
    buf[if from < |buf| then from else |buf|..if to < |buf| then to else |buf|]
  }

  /** Keys compared by value; any other key is an object of its own. */
  predicate Scalar(key: Value) {
    key.Number? || key.Text?
  }

  /** `Map.set`: a held key keeps its place. */
  function SetEntry(entries: seq<Entry>, key: Value, value: Value): seq<Entry> {
    if entries == [] then [Entry(key, value)]
    else if Scalar(key) && entries[0].key == key then [Entry(key, value)] + entries[1..]
    else [entries[0]] + SetEntry(entries[1..], key, value)
  }

  function Left(buf: Blob, pos: nat): nat {
    if pos < |buf| then |buf| - pos else 0
  }

  /** One value at `pos`, and the position after it. */
  function Decode(buf: Blob, pos: nat): (r: Option<(Value, nat)>)
    ensures r.Some? ==> pos < |buf| && r.value.1 > pos
    decreases Left(buf, pos), 0, 0
  {
    if pos >= |buf| then None
    else
      var head := buf[pos];
      var arg := Uint(buf, pos + 1, head % 32);
      if arg.None? || head / 32 > 5 then None
      else
        var (n, at) := arg.value;
        match head / 32
        case 0 => Some((Number(n), at))
        case 1 => Some((Number(-1 - n), at))
        case 2 => Some((Bytes(Subarray(buf, at, at + n)), at + n))
        case 3 => Some((Text(Subarray(buf, at, at + n)), at + n))
        case 4 =>
          var items := DecodeItems(buf, at, n, []);
          if items.None? then None else Some((Array(items.value.0), items.value.1))
        case _ =>
          var entries := DecodeEntries(buf, at, n, []);
          if entries.None? then None else Some((Map(entries.value.0), entries.value.1))
  }

  function DecodeItems(buf: Blob, pos: nat, n: nat, items: seq<Value>): (r: Option<(seq<Value>, nat)>)
    ensures r.Some? ==> r.value.1 >= pos
    decreases Left(buf, pos), 1, n
  {
    if n == 0 then Some((items, pos))
    else
      var item := Decode(buf, pos);
      if item.None? then None else DecodeItems(buf, item.value.1, n - 1, items + [item.value.0])
  }

  function DecodeEntries(buf: Blob, pos: nat, n: nat, entries: seq<Entry>): (r: Option<(seq<Entry>, nat)>)
    ensures r.Some? ==> r.value.1 >= pos
    decreases Left(buf, pos), 1, n
  {
    if n == 0 then Some((entries, pos))
    else
      var key := Decode(buf, pos);
      if key.None? then None
      else
        var value := Decode(buf, key.value.1);
        if value.None? then None
        else DecodeEntries(buf, value.value.1, n - 1, SetEntry(entries, key.value.0, value.value.0))
  }

  lemma FourShifts(a: Byte, b: Byte, c: Byte, d: Byte)
    ensures ToUint32(ShiftIn(ShiftIn(ShiftIn(ShiftIn(0, a), b), c), d)) == FourBytes(a, b, c, d)
    ensures FourBytes(a, b, c, d) < TWO_32
  {
    var v1 := ShiftIn(0, a);
    var v2 := ShiftIn(v1, b);
    var v3 := ShiftIn(v2, c);
    ShiftInIsUnsigned(0, a);
    assert ToUint32(v1) == a;
    ShiftInIsUnsigned(v1, b);
    assert ToUint32(v2) == TwoBytes(a, b);
    ShiftInIsUnsigned(v2, c);
    assert ToUint32(v3) == TwoBytes(TwoBytes(a, b), c);
    ShiftInIsUnsigned(v3, d);
  }

  lemma OneShift(buf: Blob, pos: nat, n: nat, v: int)
    requires n > 0
    ensures ShiftBytes(buf, pos, n, v) == if pos < |buf| then
              ShiftBytes(buf, pos + 1, n - 1, ShiftIn(v, buf[pos])) else None
  {
  }

  lemma {:induction false} ShiftsNeedBytes(buf: Blob, pos: nat, n: nat, v: int)
    ensures ShiftBytes(buf, pos, n, v).Some? <==> n == 0 || pos + n <= |buf|
    ensures ShiftBytes(buf, pos, n, v).Some? ==> ShiftBytes(buf, pos, n, v).value.1 == pos + n
    decreases n
  {
    if n > 0 && pos < |buf| {
      ShiftsNeedBytes(buf, pos + 1, n - 1, ShiftIn(v, buf[pos]));
    }
  }

  /** The signed shifts of the four-byte form read the unsigned big-endian number. */
  lemma ShiftedFour(buf: Blob, pos: nat)
    ensures
      var v := ShiftBytes(buf, pos, 4, 0);
      (v.Some? <==> pos + 4 <= |buf|) && (v.Some? ==> v.value.1 == pos + 4) &&
      (v.Some? ==> ToUint32(v.value.0) == FourBytes(buf[pos], buf[pos + 1], buf[pos + 2], buf[pos + 3]))
  {
    ShiftsNeedBytes(buf, pos, 4, 0);
    if pos + 4 <= |buf| {
      var v1 := ShiftIn(0, buf[pos]);
      var v2 := ShiftIn(v1, buf[pos + 1]);
      var v3 := ShiftIn(v2, buf[pos + 2]);
      OneShift(buf, pos, 4, 0);
      OneShift(buf, pos + 1, 3, v1);
      OneShift(buf, pos + 2, 2, v2);
      OneShift(buf, pos + 3, 1, v3);
      FourShifts(buf[pos], buf[pos + 1], buf[pos + 2], buf[pos + 3]);
    }
  }

  // ---------- the reader ----------

  class CborReader {
    const buf: Blob
    var pos: nat

    constructor (buf: Blob)
      ensures this.buf == buf && pos == 0
    {
      this.buf, pos := buf, 0;
    }

    method ReadByte() returns (b: Option<Byte>)
      modifies this`pos
      ensures b.Some? <==> ByteAt(buf, old(pos)).Some?
      ensures b.Some? ==> ByteAt(buf, old(pos)) == Some((b.value, pos))
    {
      if pos >= |buf| {
        return None;
      }
      b := Some(buf[pos]);
      pos := pos + 1;
    }

    method ReadUint(additional: nat) returns (n: Option<nat>)
      requires additional < 32
      modifies this`pos
      ensures n.Some? <==> Uint(buf, old(pos), additional).Some?
      ensures n.Some? ==> Uint(buf, old(pos), additional) == Some((n.value, pos))
    {
      if additional < 24 {
        return Some(additional);
      }
      if additional == 24 {
        var b := ReadByte();
        return if b.Some? then Some(b.value) else None;
      }
      if additional == 25 {
        var hi := ReadByte();
        if hi.None? {
          return None;
        }
        var lo := ReadByte();
        return if lo.Some? then Some(TwoBytes(hi.value, lo.value)) else None;
      }
      if additional == 26 {
        var v, i: nat := 0, 0;
        ghost var start := pos;
        ShiftedFour(buf, start);
        while i < 4
          invariant 0 <= i <= 4
          invariant ShiftBytes(buf, pos, 4 - i, v) == ShiftBytes(buf, start, 4, 0)
        {
          var b := ReadByte();
          if b.None? {
            return None;
          }
          v := ShiftIn(v, b.value);
          i := i + 1;
        }
        return Some(ToUint32(v));
      }
      return None;
    }

    method DecodeCbor() returns (r: Option<Value>)
      modifies this`pos
      ensures r.Some? <==> Decode(buf, old(pos)).Some?
      ensures r.Some? ==> Decode(buf, old(pos)) == Some((r.value, pos))
      decreases Left(buf, pos), 0, 0
    {
      var head := ReadByte();
      if head.None? || head.value / 32 > 5 {
        return None;
      }
      var arg := ReadUint(head.value % 32);
      if arg.None? {
        return None;
      }
      var n := arg.value;
      match head.value / 32
      case 0 => return Some(Number(n));
      case 1 => return Some(Number(-1 - n));
      case 2 =>
        r := Some(Bytes(Subarray(buf, pos, pos + n)));
        pos := pos + n;
      case 3 =>
        r := Some(Text(Subarray(buf, pos, pos + n)));
        pos := pos + n;
      case 4 =>
        var items := ReadItems(n);
        return if items.Some? then Some(Array(items.value)) else None;
      case _ =>
        var entries := ReadEntries(n);
        return if entries.Some? then Some(Map(entries.value)) else None;
    }

    method ReadItems(n: nat) returns (r: Option<seq<Value>>)
      modifies this`pos
      ensures r.Some? <==> DecodeItems(buf, old(pos), n, []).Some?
      ensures r.Some? ==> DecodeItems(buf, old(pos), n, []) == Some((r.value, pos))
      decreases Left(buf, pos), 1, n
    {
      hide Decode;
      var items: seq<Value> := [];
      var i := 0;
      while i < n
        invariant 0 <= i <= n && pos >= old(pos)
        invariant DecodeItems(buf, pos, n - i, items) == DecodeItems(buf, old(pos), n, [])
      {
        var item := DecodeCbor();
        if item.None? {
          return None;
        }
        items := items + [item.value];
        i := i + 1;
      }
      r := Some(items);
    }

    method ReadEntries(n: nat) returns (r: Option<seq<Entry>>)
      modifies this`pos
      ensures r.Some? <==> DecodeEntries(buf, old(pos), n, []).Some?
      ensures r.Some? ==> DecodeEntries(buf, old(pos), n, []) == Some((r.value, pos))
      decreases Left(buf, pos), 1, n
    {
      hide Decode, SetEntry;
      var entries: seq<Entry> := [];
      var i := 0;
      while i < n
        invariant 0 <= i <= n && pos >= old(pos)
        invariant DecodeEntries(buf, pos, n - i, entries) == DecodeEntries(buf, old(pos), n, [])
      {
        var key := DecodeCbor();
        if key.None? {
          return None;
        }
        var value := DecodeCbor();
        if value.None? {
          return None;
        }
        entries := SetEntry(entries, key.value, value.value);
        i := i + 1;
      }
      r := Some(entries);
    }
  }

  // ---------- encoding ----------

  /** The low bits of a head, and how many bytes of the argument follow it. */
  function Info(n: nat): (r: (nat, nat))
    ensures r.0 < 27 && r.1 <= 4
  {
    if n < 24 then (n, 0) else if n < 0x100 then (24, 1) else if n < 0x1_0000 then (25, 2) else (26, 4)
  }

  /** A head: the major type, and the argument in its shortest form. */
  function Head(major: nat, n: nat): Blob
    requires major <= 5 && n < TWO_32
  {
    [major * 32 + Info(n).0] + BigEndian(n, Info(n).1)
  }

  /** Numbers and lengths have 32-bit arguments. */
  predicate Encodable(v: Value)
    decreases v
  {
    match v
    case Number(n) => -TWO_32 <= n < TWO_32
    case Bytes(bytes) => |bytes| < TWO_32
    case Text(utf8) => |utf8| < TWO_32
    case Array(items) => |items| < TWO_32 && ItemsEncodable(v, 0)
    case Map(entries) => |entries| < TWO_32 && EntriesEncodable(v, 0)
  }

  /** The items of an array from the `i`th on are encodable. */
  predicate ItemsEncodable(v: Value, i: nat)
    requires v.Array? && i <= |v.items|
    decreases v, |v.items| - i
  {
    i == |v.items| || (Encodable(v.items[i]) && ItemsEncodable(v, i + 1))
  }

  /** The keys and values of a map from the `i`th entry on are encodable. */
  predicate EntriesEncodable(v: Value, i: nat)
    requires v.Map? && i <= |v.entries|
    decreases v, |v.entries| - i
  {
    i == |v.entries| ||
    (Encodable(v.entries[i].key) && Encodable(v.entries[i].value) && EntriesEncodable(v, i + 1))
  }

  function Encode(v: Value): Blob
    requires Encodable(v)
    decreases v
  {
    match v
    case Number(n) => if n >= 0 then Head(0, n) else Head(1, -1 - n)
    case Bytes(bytes) => Head(2, |bytes|) + bytes
    case Text(utf8) => Head(3, |utf8|) + utf8
    case Array(items) => Head(4, |items|) + EncodeItems(v, 0)
    case Map(entries) => Head(5, |entries|) + EncodeEntries(v, 0)
  }

  function EncodeItems(v: Value, i: nat): Blob
    requires v.Array? && i <= |v.items| && ItemsEncodable(v, i)
    decreases v, |v.items| - i
  {
    if i == |v.items| then [] else Encode(v.items[i]) + EncodeItems(v, i + 1)
  }

  function EncodeEntries(v: Value, i: nat): Blob
    requires v.Map? && i <= |v.entries| && EntriesEncodable(v, i)
    decreases v, |v.entries| - i
  {
    if i == |v.entries| then []
    else Encode(v.entries[i].key) + (Encode(v.entries[i].value) + EncodeEntries(v, i + 1))
  }

  // ---------- what a value becomes ----------

  /** What is left of a value when every key of its maps is set in turn: the last value of a scalar key stays. */
  function Collapse(v: Value): Value
    decreases v, 1, 0
  {
    match v
    case Array(items) => Array(CollapsedItems(v, |items|))
    case Map(entries) => Map(CollapsedEntries(v, |entries|))
    case _ => v
  }

  function CollapsedItems(v: Value, n: nat): (items: seq<Value>)
    requires v.Array? && n <= |v.items|
    ensures |items| == n
    decreases v, 0, n
  {
    if n == 0 then [] else CollapsedItems(v, n - 1) + [Collapse(v.items[n - 1])]
  }

  function CollapsedEntries(v: Value, n: nat): seq<Entry>
    requires v.Map? && n <= |v.entries|
    decreases v, 0, n
  {
    if n == 0 then []
    else SetEntry(CollapsedEntries(v, n - 1), Collapse(v.entries[n - 1].key), Collapse(v.entries[n - 1].value))
  }

  /** A scalar key is none of the keys before it. */
  predicate NewKey(entries: seq<Entry>, i: nat)
    requires i < |entries|
  {
    Scalar(entries[i].key) ==> forall j :: 0 <= j < i ==> entries[j].key != entries[i].key
  }

  /** No scalar key comes twice in any map within. */
  predicate Distinct(v: Value)
    decreases v
  {
    match v
    case Array(items) => forall i | 0 <= i < |items| :: Distinct(items[i])
    case Map(entries) =>
      forall i | 0 <= i < |entries| :: NewKey(entries, i) && Distinct(entries[i].key) && Distinct(entries[i].value)
    case _ => true
  }

  /** A scalar key the map does not hold, or any other key. */
  predicate Absent(entries: seq<Entry>, key: Value) {
    Scalar(key) ==> forall i | 0 <= i < |entries| :: entries[i].key != key
  }

  /** Setting a key the map does not hold yet puts it at the end. */
  lemma {:induction false} SetAppends(entries: seq<Entry>, key: Value, value: Value)
    ensures |SetEntry(entries, key, value)| == |entries| + (if Absent(entries, key) then 1 else 0)
    ensures Absent(entries, key) ==> SetEntry(entries, key, value) == entries + [Entry(key, value)]
  {
    if entries != [] {
      SetAppends(entries[1..], key, value);
      assert entries == [entries[0]] + entries[1..];
      if Scalar(key) && entries[0].key != key && Absent(entries[1..], key) {
        forall i | 0 <= i < |entries|
          ensures entries[i].key != key
        {
          assert i > 0 ==> entries[i] == entries[1..][i - 1];
        }
      }
    }
  }

  /**
   `Map.set`, by key: a number or a text is the first key it equals, and its value is replaced in place; an
   array, a map or a string of bytes is a key of its own.
   */
  ghost predicate IsSet(entries: seq<Entry>, key: Value, value: Value, after: seq<Entry>) {
    match key
    case Number(_) => Replaced(entries, key, value, after)
    case Text(_) => Replaced(entries, key, value, after)
    case _ => after == entries + [Entry(key, value)]
  }

  ghost predicate Replaced(entries: seq<Entry>, key: Value, value: Value, after: seq<Entry>) {
    if forall i :: 0 <= i < |entries| ==> entries[i].key != key then after == entries + [Entry(key, value)]
    else
      exists i :: 0 <= i < |entries| && entries[i].key == key && after == entries[i := Entry(key, value)] &&
        forall j :: 0 <= j < i ==> entries[j].key != key
  }

  /** Setting a key is what `Map.set` does. */
  lemma {:induction false} SetsAsMaps(entries: seq<Entry>, key: Value, value: Value)
    ensures IsSet(entries, key, value, SetEntry(entries, key, value))
  {
    if entries != [] {
      var rest, after := entries[1..], SetEntry(entries[1..], key, value);
      assert entries == [entries[0]] + rest;
      SetsAsMaps(rest, key, value);
      if Scalar(key) {
        if entries[0].key == key {
          assert SetEntry(entries, key, value) == entries[0 := Entry(key, value)];
        } else if i :| 0 <= i < |rest| && rest[i].key == key && after == rest[i := Entry(key, value)] &&
                       forall j :: 0 <= j < i ==> rest[j].key != key {
          assert [entries[0]] + after == entries[i + 1 := Entry(key, value)];
          assert entries[i + 1].key == key;
          assert forall j :: 0 < j < i + 1 ==> entries[j] == rest[j - 1];
        } else {
          assert forall j :: 0 < j < |entries| ==> entries[j] == rest[j - 1];
        }
      }
    }
  }

  /** The first entries are no more afterwards. When they are as many, the last of them was new, and is in its place. */
  lemma {:induction false} NoMore(v: Value, n: nat)
    requires v.Map? && n <= |v.entries|
    ensures |CollapsedEntries(v, n)| <= n
    ensures n > 0 && |CollapsedEntries(v, n)| == n ==>
              var before, e := CollapsedEntries(v, n - 1), v.entries[n - 1];
              && |before| == n - 1
              && Absent(before, Collapse(e.key))
              && CollapsedEntries(v, n) == before + [Entry(Collapse(e.key), Collapse(e.value))]
    decreases n
  {
    if n > 0 {
      NoMore(v, n - 1);
      var before, e := CollapsedEntries(v, n - 1), v.entries[n - 1];
      var key, value := Collapse(e.key), Collapse(e.value);
      SetAppends(before, key, value);
      assert CollapsedEntries(v, n) == SetEntry(before, key, value);
      hide CollapsedEntries, Collapse, SetEntry, Absent;
      assert |CollapsedEntries(v, n)| == n ==> Absent(before, key);
    }
  }

  /** When nothing is lost of the first entries, they are all new, and what they became is in their places. */
  lemma {:induction false} AllNew(v: Value, n: nat, i: nat)
    requires v.Map? && i < n <= |v.entries| && |CollapsedEntries(v, n)| == n
    ensures CollapsedEntries(v, n)[i] == Entry(Collapse(v.entries[i].key), Collapse(v.entries[i].value))
    ensures |CollapsedEntries(v, i)| == i && Absent(CollapsedEntries(v, i), Collapse(v.entries[i].key))
    decreases n
  {
    hide CollapsedEntries, Absent;
    NoMore(v, n);
    if i < n - 1 {
      AllNew(v, n - 1, i);
    }
  }

  lemma {:induction false} DistinctEntriesStay(v: Value, n: nat)
    requires v.Map? && n <= |v.entries| && Distinct(v)
    ensures CollapsedEntries(v, n) == v.entries[..n]
    decreases v, n
  {
    if n > 0 {
      var e := v.entries[n - 1];
      DistinctEntriesStay(v, n - 1);
      DistinctStays(e.key);
      DistinctStays(e.value);
      assert NewKey(v.entries, n - 1);
      var before := v.entries[..n - 1];
      assert Absent(before, e.key);
      SetAppends(before, e.key, e.value);
      assert before + [Entry(e.key, e.value)] == v.entries[..n];
      assert CollapsedEntries(v, n) == SetEntry(before, e.key, e.value);
    }
  }

  lemma {:induction false} CollapsedAt(v: Value, n: nat, i: nat)
    requires v.Array? && i < n <= |v.items|
    ensures CollapsedItems(v, n)[i] == Collapse(v.items[i])
    decreases n
  {
    if i < n - 1 {
      CollapsedAt(v, n - 1, i);
    }
  }

  /** A value in which no scalar key comes twice becomes itself. */
  lemma {:induction false} DistinctStays(v: Value)
    requires Distinct(v)
    ensures Collapse(v) == v
    decreases v
  {
    match v
    case Array(items) =>
      forall i | 0 <= i < |items|
        ensures CollapsedItems(v, |items|)[i] == items[i]
      {
        CollapsedAt(v, |items|, i);
        DistinctStays(items[i]);
      }
    case Map(entries) =>
      DistinctEntriesStay(v, |entries|);
      assert entries[..|entries|] == entries;
    case _ =>
  }

  /** And no other value does. */
  lemma {:induction false} OnlyDistinctStays(v: Value)
    requires Collapse(v) == v
    ensures Distinct(v)
    decreases v
  {
    match v
    case Array(items) =>
      forall i | 0 <= i < |items|
        ensures Distinct(items[i])
      {
        CollapsedAt(v, |items|, i);
        OnlyDistinctStays(items[i]);
      }
    case Map(entries) =>
      forall i | 0 <= i < |entries|
        ensures NewKey(entries, i) && Distinct(entries[i].key) && Distinct(entries[i].value)
      {
        StaysAt(v, i);
        OnlyDistinctStays(entries[i].key);
        OnlyDistinctStays(entries[i].value);
        forall j | 0 <= j < i && Scalar(entries[i].key)
          ensures entries[j].key != entries[i].key
        {
          AllNew(v, i, j);
          StaysAt(v, j);
        }
      }
    case _ =>
  }

  lemma StaysAt(v: Value, i: nat)
    requires v.Map? && i < |v.entries| && Collapse(v) == v
    ensures Collapse(v.entries[i].key) == v.entries[i].key && Collapse(v.entries[i].value) == v.entries[i].value
    ensures |CollapsedEntries(v, i)| == i && Absent(CollapsedEntries(v, i), v.entries[i].key)
  {
    AllNew(v, |v.entries|, i);
  }

  // ---------- round trip ----------

  /** The buffer holds `b` at `pos`. */
  predicate Holds(buf: Blob, pos: nat, b: Blob) {
    pos + |b| <= |buf| && buf[pos..pos + |b|] == b
  }

  lemma HoldsParts(buf: Blob, pos: nat, a: Blob, b: Blob)
    requires Holds(buf, pos, a + b)
    ensures Holds(buf, pos, a) && Holds(buf, pos + |a|, b)
  {
    var all := buf[pos..pos + |a + b|];
    assert buf[pos..pos + |a|] == all[..|a|] == a;
    assert buf[pos + |a|..pos + |a| + |b|] == all[|a|..] == b;
  }

  lemma HoldsByte(buf: Blob, pos: nat, b: Blob, i: nat)
    requires Holds(buf, pos, b) && i < |b|
    ensures buf[pos + i] == b[i]
  {
    assert buf[pos..pos + |b|][i] == buf[pos + i];
  }

  /** The two bytes of a number read as that number. */
  lemma TwoBytesOf(n: nat)
    requires n < 0x1_0000
    ensures
      var b := BigEndian(n, 2);
      TwoBytes(b[0], b[1]) == n
  {
    assert BigEndian(n, 2) == BigEndian(n / 256, 1) + [n % 256];
    assert BigEndian(n / 256, 1) == BigEndian(n / 256 / 256, 0) + [n / 256 % 256];
  }

  lemma FourBytesOf(n: nat)
    requires n < TWO_32
    ensures
      var b := BigEndian(n, 4);
      FourBytes(b[0], b[1], b[2], b[3]) == n
  {
    var m := n / 256;
    var front := BigEndian(m, 3);
    assert BigEndian(n, 4) == front + [n % 256];
    assert front == BigEndian(m / 256, 2) + [m % 256];
    TwoBytesOf(m / 256);
  }

  lemma HeadReads(buf: Blob, pos: nat, major: nat, n: nat)
    requires major <= 5 && n < TWO_32 && Holds(buf, pos, Head(major, n))
    ensures pos < |buf| && buf[pos] / 32 == major
    ensures Uint(buf, pos + 1, buf[pos] % 32) == Some((n, pos + |Head(major, n)|))
  {
    var (info, count) := Info(n);
    HoldsParts(buf, pos, [major * 32 + info], BigEndian(n, count));
    HoldsByte(buf, pos, [major * 32 + info], 0);
    ArgumentReads(buf, pos + 1, n);
  }

  /** The argument after a head. */
  lemma ArgumentReads(buf: Blob, at: nat, n: nat)
    requires n < TWO_32 && Holds(buf, at, BigEndian(n, Info(n).1))
    ensures Uint(buf, at, Info(n).0) == Some((n, at + Info(n).1))
  {
    var b := BigEndian(n, Info(n).1);
    if n >= 24 {
      HoldsByte(buf, at, b, 0);
      if n < 0x100 {
        assert b == BigEndian(n / 256, 0) + [n % 256];
      } else {
        HoldsByte(buf, at, b, 1);
        if n < 0x1_0000 {
          TwoBytesOf(n);
        } else {
          HoldsByte(buf, at, b, 2);
          HoldsByte(buf, at, b, 3);
          ShiftedFour(buf, at);
          FourBytesOf(n);
        }
      }
    }
  }

  /** What is decoded after a head. */
  function AfterHead(buf: Blob, at: nat, major: nat, n: nat): Option<(Value, nat)>
    requires major <= 5
  {
    match major
    case 0 => Some((Number(n), at))
    case 1 => Some((Number(-1 - n), at))
    case 2 => Some((Bytes(Subarray(buf, at, at + n)), at + n))
    case 3 => Some((Text(Subarray(buf, at, at + n)), at + n))
    case 4 =>
      var items := DecodeItems(buf, at, n, []);
      if items.None? then None else Some((Array(items.value.0), items.value.1))
    case _ =>
      var entries := DecodeEntries(buf, at, n, []);
      if entries.None? then None else Some((Map(entries.value.0), entries.value.1))
  }

  lemma DecodesAfterHead(buf: Blob, pos: nat, major: nat, n: nat)
    requires major <= 5 && n < TWO_32 && Holds(buf, pos, Head(major, n))
    ensures Decode(buf, pos) == AfterHead(buf, pos + |Head(major, n)|, major, n)
  {
    HeadReads(buf, pos, major, n);
  }

  lemma HeldString(buf: Blob, at: nat, bytes: Blob)
    requires Holds(buf, at, bytes)
    ensures Subarray(buf, at, at + |bytes|) == bytes
  {
  }

  /** One value, the rest of an array, the rest of a map: what is read, and where it ends. */
  predicate Reads(buf: Blob, pos: nat, v: Value, end: nat) {
    Decode(buf, pos) == Some((v, end))
  }

  predicate ReadsItems(buf: Blob, pos: nat, n: nat, before: seq<Value>, all: seq<Value>, end: nat) {
    DecodeItems(buf, pos, n, before) == Some((all, end))
  }

  predicate ReadsEntries(buf: Blob, pos: nat, n: nat, before: seq<Entry>, all: seq<Entry>, end: nat) {
    DecodeEntries(buf, pos, n, before) == Some((all, end))
  }

  lemma OneItem(buf: Blob, pos: nat, n: nat, before: seq<Value>, item: Value, next: nat, all: seq<Value>, end: nat)
    requires Reads(buf, pos, item, next) && ReadsItems(buf, next, n, before + [item], all, end)
    ensures ReadsItems(buf, pos, n + 1, before, all, end)
  {
  }

  lemma OneEntry(buf: Blob, pos: nat, n: nat, before: seq<Entry>, e: Entry, middle: nat, next: nat, all: seq<Entry>,
                 end: nat)
    requires Reads(buf, pos, e.key, middle) && Reads(buf, middle, e.value, next)
    requires ReadsEntries(buf, next, n, SetEntry(before, e.key, e.value), all, end)
    ensures ReadsEntries(buf, pos, n + 1, before, all, end)
  {
  }

  lemma ItemFacts(v: Value, i: nat)
    requires v.Array? && i < |v.items| && ItemsEncodable(v, i)
    ensures Encodable(v.items[i]) && ItemsEncodable(v, i + 1)
    ensures EncodeItems(v, i) == Encode(v.items[i]) + EncodeItems(v, i + 1)
    ensures CollapsedItems(v, i + 1) == CollapsedItems(v, i) + [Collapse(v.items[i])]
  {
  }

  lemma EntryFacts(v: Value, i: nat)
    requires v.Map? && i < |v.entries| && EntriesEncodable(v, i)
    ensures Encodable(v.entries[i].key) && Encodable(v.entries[i].value) && EntriesEncodable(v, i + 1)
    ensures EncodeEntries(v, i) == Encode(v.entries[i].key) + (Encode(v.entries[i].value) + EncodeEntries(v, i + 1))
  {
  }

  lemma NoItemsLeft(v: Value, buf: Blob, pos: nat)
    requires v.Array? && ItemsEncodable(v, |v.items|)
    ensures EncodeItems(v, |v.items|) == []
    ensures ReadsItems(buf, pos, 0, CollapsedItems(v, |v.items|), CollapsedItems(v, |v.items|), pos)
  {
  }

  lemma NoEntriesLeft(v: Value, buf: Blob, pos: nat)
    requires v.Map? && EntriesEncodable(v, |v.entries|)
    ensures EncodeEntries(v, |v.entries|) == []
    ensures ReadsEntries(buf, pos, 0, CollapsedEntries(v, |v.entries|), CollapsedEntries(v, |v.entries|), pos)
  {
  }

  lemma OneMoreCollapsed(v: Value, i: nat)
    requires v.Map? && i < |v.entries|
    ensures CollapsedEntries(v, i + 1) ==
            SetEntry(CollapsedEntries(v, i), Collapse(v.entries[i].key), Collapse(v.entries[i].value))
  {
  }

  lemma {:induction false} ItemsReadBack(v: Value, i: nat, buf: Blob, pos: nat)
    requires v.Array? && i <= |v.items| && ItemsEncodable(v, i) && Holds(buf, pos, EncodeItems(v, i))
    ensures ReadsItems(buf, pos, |v.items| - i, CollapsedItems(v, i), CollapsedItems(v, |v.items|),
              pos + |EncodeItems(v, i)|)
    decreases v, |v.items| - i
  {
    hide Reads, ReadsItems, Encode, EncodeItems, Encodable, ItemsEncodable, Collapse, CollapsedItems, Holds;
    if i == |v.items| {
      NoItemsLeft(v, buf, pos);
    } else {
      ItemFacts(v, i);
      var next := pos + |Encode(v.items[i])|;
      HoldsParts(buf, pos, Encode(v.items[i]), EncodeItems(v, i + 1));
      ReadsBack(v.items[i], buf, pos);
      ItemsReadBack(v, i + 1, buf, next);
      OneItem(buf, pos, |v.items| - i - 1, CollapsedItems(v, i), Collapse(v.items[i]), next,
              CollapsedItems(v, |v.items|), pos + |EncodeItems(v, i)|);
    }
  }

  lemma {:induction false} EntriesReadBack(v: Value, i: nat, buf: Blob, pos: nat)
    requires v.Map? && i <= |v.entries| && EntriesEncodable(v, i) && Holds(buf, pos, EncodeEntries(v, i))
    ensures ReadsEntries(buf, pos, |v.entries| - i, CollapsedEntries(v, i), CollapsedEntries(v, |v.entries|),
                         pos + |EncodeEntries(v, i)|)
    decreases v, |v.entries| - i
  {
    hide Reads, ReadsEntries, SetEntry, Encode, EncodeEntries, Encodable, EntriesEncodable, Collapse,
        CollapsedEntries, Holds;
    if i == |v.entries| {
      NoEntriesLeft(v, buf, pos);
    } else {
      EntryFacts(v, i);
      OneMoreCollapsed(v, i);
      var e := v.entries[i];
      var middle := pos + |Encode(e.key)|;
      var next := middle + |Encode(e.value)|;
      HoldsParts(buf, pos, Encode(e.key), Encode(e.value) + EncodeEntries(v, i + 1));
      HoldsParts(buf, middle, Encode(e.value), EncodeEntries(v, i + 1));
      ReadsBack(e.key, buf, pos);
      ReadsBack(e.value, buf, middle);
      EntriesReadBack(v, i + 1, buf, next);
      OneEntry(buf, pos, |v.entries| - i - 1, CollapsedEntries(v, i), Entry(Collapse(e.key), Collapse(e.value)),
          middle, next,
               CollapsedEntries(v, |v.entries|), pos + |EncodeEntries(v, i)|);
    }
  }

  /**
   Decoding an encoded value, wherever it stands and whatever follows, gives what it becomes, and stops at its
   end.
   */
  lemma {:induction false} ReadsBack(v: Value, buf: Blob, pos: nat)
    requires Encodable(v) && Holds(buf, pos, Encode(v))
    ensures Reads(buf, pos, Collapse(v), pos + |Encode(v)|)
    decreases v
  {
    hide Reads;
    match v
    case Number(n) => NumberReadsBack(buf, pos, n);
    case Bytes(bytes) => StringReadsBack(buf, pos, 2, bytes);
    case Text(utf8) => StringReadsBack(buf, pos, 3, utf8);
    case Array(items) =>
      HoldsParts(buf, pos, Head(4, |items|), EncodeItems(v, 0));
      ItemsReadBack(v, 0, buf, pos + |Head(4, |items|)|);
      ArrayRead(buf, pos, |items|, CollapsedItems(v, |items|), pos + |Encode(v)|);
    case Map(entries) =>
      HoldsParts(buf, pos, Head(5, |entries|), EncodeEntries(v, 0));
      EntriesReadBack(v, 0, buf, pos + |Head(5, |entries|)|);
      MapRead(buf, pos, |entries|, CollapsedEntries(v, |entries|), pos + |Encode(v)|);
  }

  lemma ArrayRead(buf: Blob, pos: nat, n: nat, all: seq<Value>, end: nat)
    requires n < TWO_32 && Holds(buf, pos, Head(4, n)) && ReadsItems(buf, pos + |Head(4, n)|, n, [], all, end)
    ensures Reads(buf, pos, Array(all), end)
  {
    hide Decode, DecodeItems;
    DecodesAfterHead(buf, pos, 4, n);
  }

  lemma MapRead(buf: Blob, pos: nat, n: nat, all: seq<Entry>, end: nat)
    requires n < TWO_32 && Holds(buf, pos, Head(5, n)) && ReadsEntries(buf, pos + |Head(5, n)|, n, [], all, end)
    ensures Reads(buf, pos, Map(all), end)
  {
    hide Decode, DecodeEntries;
    DecodesAfterHead(buf, pos, 5, n);
  }

  lemma NumberReadsBack(buf: Blob, pos: nat, n: int)
    requires -TWO_32 <= n < TWO_32 && Holds(buf, pos, Encode(Number(n)))
    ensures Reads(buf, pos, Number(n), pos + |Encode(Number(n))|)
  {
    hide Decode, DecodeItems, DecodeEntries, Holds;
    var major, arg := if n >= 0 then 0 else 1, if n >= 0 then n else -1 - n;
    assert Encode(Number(n)) == Head(major, arg);
    DecodesAfterHead(buf, pos, major, arg);
  }

  lemma StringReadsBack(buf: Blob, pos: nat, major: nat, bytes: Blob)
    requires (major == 2 || major == 3) && |bytes| < TWO_32 && Holds(buf, pos, Head(major, |bytes|) + bytes)
    ensures Reads(buf, pos, if major == 2 then Bytes(bytes) else Text(bytes), pos + |Head(major, |bytes|) + bytes|)
  {
    HoldsParts(buf, pos, Head(major, |bytes|), bytes);
    DecodesAfterHead(buf, pos, major, |bytes|);
    HeldString(buf, pos + |Head(major, |bytes|)|, bytes);
  }

  /** The round trip: a value comes back as it was if and only if no scalar key comes twice in any map within. */
  lemma RoundTrip(v: Value, rest: Blob)
    requires Encodable(v)
    ensures Decode(Encode(v) + rest, 0) == Some((Collapse(v), |Encode(v)|))
    ensures Decode(Encode(v) + rest, 0) == Some((v, |Encode(v)|)) <==> Distinct(v)
  {
    Starts(Encode(v), rest);
    ReadsBack(v, Encode(v) + rest, 0);
    if Distinct(v) {
      DistinctStays(v);
    }
    if Collapse(v) == v {
      OnlyDistinctStays(v);
    }
  }

  /** A map with one scalar key twice is read as a map of one entry: the last value wins. */
  lemma RepeatedKeysCollapse(key: Value, first: Value, second: Value, rest: Blob)
    requires (key.Number? || key.Text?) && Encodable(Map([Entry(key, first), Entry(key, second)]))
    ensures
      var twice := Map([Entry(key, first), Entry(key, second)]);
      Decode(Encode(twice) + rest, 0) == Some((Map([Entry(key, Collapse(second))]), |Encode(twice)|))
  {
    var twice := Map([Entry(key, first), Entry(key, second)]);
    RoundTrip(twice, rest);
    assert CollapsedEntries(twice, 1) == SetEntry(CollapsedEntries(twice, 0), key, Collapse(first));
    assert [Entry(key, Collapse(second))] + [Entry(key, Collapse(first))][1..] == [Entry(key, Collapse(second))];
  }

  lemma Starts(a: Blob, b: Blob)
    ensures Holds(a + b, 0, a)
  {
    assert (a + b)[0..0 + |a|] == a;
  }

  // ---------- input that ends too early ----------

  /** How many bytes the string an encoding ends in has; 0 when it ends in none. */
  function Tail(v: Value): nat
    decreases v
  {
    match v
    case Number(_) => 0
    case Bytes(bytes) => |bytes|
    case Text(utf8) => |utf8|
    case Array(items) => if items == [] then 0 else Tail(items[|items| - 1])
    case Map(entries) => if entries == [] then 0 else Tail(entries[|entries| - 1].value)
  }

  lemma {:induction false} TailIsShort(v: Value)
    requires Encodable(v)
    ensures Tail(v) < |Encode(v)|
    decreases v, 1
  {
    match v
    case Array(items) => if items != [] { ItemsTail(v, 0); }
    case Map(entries) => if entries != [] { EntriesTail(v, 0); }
    case _ =>
  }

  lemma {:induction false} ItemsTail(v: Value, i: nat)
    requires v.Array? && i < |v.items| && ItemsEncodable(v, i)
    ensures Tail(v) < |EncodeItems(v, i)|
    decreases v, 0, |v.items| - i
  {
    if i == |v.items| - 1 {
      TailIsShort(v.items[i]);
    } else {
      ItemsTail(v, i + 1);
    }
  }

  lemma {:induction false} EntriesTail(v: Value, i: nat)
    requires v.Map? && i < |v.entries| && EntriesEncodable(v, i)
    ensures Tail(v) < |EncodeEntries(v, i)|
    decreases v, 0, |v.entries| - i
  {
    if i == |v.entries| - 1 {
      TailIsShort(v.entries[i].value);
    } else {
      EntriesTail(v, i + 1);
    }
  }

  /** From `pos` on the buffer holds the first `n` bytes of `b`, and then it ends. */
  predicate Begins(buf: Blob, pos: nat, b: Blob, n: nat) {
    n <= |b| && pos + n == |buf| && buf[pos..] == b[..n]
  }

  lemma BeginsParts(buf: Blob, pos: nat, a: Blob, b: Blob, n: nat)
    requires Begins(buf, pos, a + b, n)
    ensures n < |a| ==> Begins(buf, pos, a, n)
    ensures |a| <= n ==> Holds(buf, pos, a) && Begins(buf, pos + |a|, b, n - |a|)
  {
    if n < |a| {
      assert (a + b)[..n] == a[..n];
    } else {
      assert buf[pos..pos + |a|] == buf[pos..][..|a|] == (a + b)[..n][..|a|] == a;
      assert buf[pos + |a|..] == buf[pos..][|a|..] == (a + b)[..n][|a|..] == b[..n - |a|];
    }
  }

  lemma BeginsByte(buf: Blob, pos: nat, b: Blob, n: nat)
    requires Begins(buf, pos, b, n) && n > 0
    ensures pos < |buf| && buf[pos] == b[0]
  {
    assert buf[pos..][0] == buf[pos];
  }

  /** A head that is not all there is refused. */
  lemma HeadsAreWhole(buf: Blob, pos: nat, major: nat, arg: nat, n: nat)
    requires major <= 5 && arg < TWO_32 && Begins(buf, pos, Head(major, arg), n) && n < |Head(major, arg)|
    ensures Decode(buf, pos).None?
  {
    if n > 0 {
      BeginsByte(buf, pos, Head(major, arg), n);
      ShiftedFour(buf, pos + 1);
      assert Uint(buf, pos + 1, Info(arg).0).None?;
    }
  }

  /** What is there of an encoding decides the same as the whole does, the string it ends in left aside. */
  predicate CutReads(read: Option<nat>, pos: nat, length: nat, n: nat, tail: nat) {
    (read.Some? <==> n + tail >= length) && (read.Some? ==> read.value == pos + length)
  }

  /** Where a value, the rest of an array or the rest of a map ends, when it is read. */
  function End(buf: Blob, pos: nat): Option<nat> {
    var r := Decode(buf, pos);
    if r.None? then None else Some(r.value.1)
  }

  function ItemsEnd(buf: Blob, pos: nat, n: nat, before: seq<Value>): Option<nat> {
    var r := DecodeItems(buf, pos, n, before);
    if r.None? then None else Some(r.value.1)
  }

  function EntriesEnd(buf: Blob, pos: nat, n: nat, before: seq<Entry>): Option<nat> {
    var r := DecodeEntries(buf, pos, n, before);
    if r.None? then None else Some(r.value.1)
  }

  lemma StringCut(buf: Blob, pos: nat, major: nat, bytes: Blob, n: nat)
    requires (major == 2 || major == 3) && |bytes| < TWO_32
    requires Begins(buf, pos, Head(major, |bytes|) + bytes, n)
    ensures CutReads(End(buf, pos), pos, |Head(major, |bytes|) + bytes|, n, |bytes|)
  {
    BeginsParts(buf, pos, Head(major, |bytes|), bytes, n);
    hide Decode;
    if n < |Head(major, |bytes|)| {
      HeadsAreWhole(buf, pos, major, |bytes|, n);
    } else {
      DecodesAfterHead(buf, pos, major, |bytes|);
    }
  }

  /** The items end where one cannot be read, and nothing is read at the end of the buffer or past it. */
  lemma ItemsGoOn(buf: Blob, pos: nat, n: nat, before: seq<Value>) returns (more: seq<Value>)
    requires n > 0
    ensures End(buf, pos).None? ==> ItemsEnd(buf, pos, n, before).None?
    ensures End(buf, pos).Some? ==> ItemsEnd(buf, pos, n, before) == ItemsEnd(buf, End(buf, pos).value, n - 1, more)
    ensures pos >= |buf| ==> ItemsEnd(buf, pos, n, before).None?
  {
    more := if Decode(buf, pos).None? then [] else before + [Decode(buf, pos).value.0];
  }

  lemma ItemsDone(buf: Blob, pos: nat, before: seq<Value>)
    ensures ItemsEnd(buf, pos, 0, before) == Some(pos)
  {
  }

  lemma EntriesGoOn(buf: Blob, pos: nat, n: nat, before: seq<Entry>) returns (more: seq<Entry>)
    requires n > 0
    ensures End(buf, pos).None? ==> EntriesEnd(buf, pos, n, before).None?
    ensures End(buf, pos).Some? && End(buf, End(buf, pos).value).None? ==> EntriesEnd(buf, pos, n, before).None?
    ensures End(buf, pos).Some? && End(buf, End(buf, pos).value).Some? ==>
              EntriesEnd(buf, pos, n, before) == EntriesEnd(buf, End(buf, End(buf, pos).value).value, n - 1, more)
    ensures pos >= |buf| ==> EntriesEnd(buf, pos, n, before).None?
  {
    hide SetEntry;
    more := [];
    var key := Decode(buf, pos);
    if key.Some? && Decode(buf, key.value.1).Some? {
      more := SetEntry(before, key.value.0, Decode(buf, key.value.1).value.0);
    }
  }

  lemma EntriesDone(buf: Blob, pos: nat, before: seq<Entry>)
    ensures EntriesEnd(buf, pos, 0, before) == Some(pos)
  {
  }

  lemma NothingBehind(buf: Blob, pos: nat)
    ensures pos >= |buf| ==> End(buf, pos).None?
  {
  }

  /** Where a value that is all there ends. */
  lemma Ends(v: Value, buf: Blob, pos: nat)
    requires Encodable(v) && Holds(buf, pos, Encode(v))
    ensures End(buf, pos) == Some(pos + |Encode(v)|)
  {
    hide Decode;
    ReadsBack(v, buf, pos);
  }

  lemma {:induction false} ItemsCut(v: Value, i: nat, buf: Blob, pos: nat, n: nat, before: seq<Value>)
    requires v.Array? && i < |v.items| && ItemsEncodable(v, i)
    requires Begins(buf, pos, EncodeItems(v, i), n) && n < |EncodeItems(v, i)|
    ensures CutReads(ItemsEnd(buf, pos, |v.items| - i, before), pos, |EncodeItems(v, i)|, n, Tail(v))
    decreases v, 0, |v.items| - i
  {
    var item := v.items[i];
    var length := |Encode(item)|;
    assert pos + n == |buf|;
    BeginsParts(buf, pos, Encode(item), EncodeItems(v, i + 1), n);
    hide Begins, End, ItemsEnd;
    var more := ItemsGoOn(buf, pos, |v.items| - i, before);
    ItemsDone(buf, pos + length, more);
    if n < length {
      Cut(item, buf, pos, n);
      if i < |v.items| - 1 {
        ItemsTail(v, i + 1);
        var none := ItemsGoOn(buf, pos + length, |v.items| - i - 1, more);
      }
    } else {
      Ends(item, buf, pos);
      ItemsCut(v, i + 1, buf, pos + length, n - length, more);
    }
  }

  /** The input ends in the value of an entry. */
  lemma {:induction false} ValueCut(v: Value, i: nat, buf: Blob, pos: nat, at: nat, n: nat, before: seq<Entry>)
    requires v.Map? && i < |v.entries| && EntriesEncodable(v, i)
    requires Encodable(v.entries[i].value) && EntriesEncodable(v, i + 1) && End(buf, pos) == Some(at)
    requires Begins(buf, at, Encode(v.entries[i].value), n) && n < |Encode(v.entries[i].value)|
    ensures CutReads(EntriesEnd(buf, pos, |v.entries| - i, before), at,
                     |Encode(v.entries[i].value)| + |EncodeEntries(v, i + 1)|, n, Tail(v))
    decreases v, 0, 0
  {
    var value := v.entries[i].value;
    assert at + n == |buf|;
    hide Begins, End, EntriesEnd, Encode, EncodeEntries, Encodable, EntriesEncodable, Tail;
    TailBehindKey(v, i);
    var more := EntriesGoOn(buf, pos, |v.entries| - i, before);
    Cut(value, buf, at, n);
    EntriesDone(buf, at + |Encode(value)|, more);
    if i < |v.entries| - 1 {
      EntriesTail(v, i + 1);
      var none := EntriesGoOn(buf, at + |Encode(value)|, |v.entries| - i - 1, more);
    }
  }

  /** The input ends in the key of an entry. */
  lemma {:induction false} KeyCut(v: Value, i: nat, buf: Blob, pos: nat, n: nat, before: seq<Entry>)
    requires v.Map? && i < |v.entries| && Encodable(v.entries[i].key)
    requires Begins(buf, pos, Encode(v.entries[i].key), n) && n < |Encode(v.entries[i].key)|
    ensures EntriesEnd(buf, pos, |v.entries| - i, before).None?
    decreases v, 0, 0
  {
    var key := v.entries[i].key;
    assert pos + n == |buf|;
    hide Begins, End, EntriesEnd, Encode, Encodable, Tail;
    var more := EntriesGoOn(buf, pos, |v.entries| - i, before);
    Cut(key, buf, pos, n);
    NothingBehind(buf, pos + |Encode(key)|);
  }

  /** The first entry is all there, and the rest follows. */
  lemma {:induction false} EntryThere(v: Value, i: nat, buf: Blob, pos: nat, before: seq<Entry>)
    returns (more: seq<Entry>)
    requires v.Map? && i < |v.entries| && Encodable(v.entries[i].key) && Encodable(v.entries[i].value)
    requires Holds(buf, pos, Encode(v.entries[i].key))
    requires Holds(buf, pos + |Encode(v.entries[i].key)|, Encode(v.entries[i].value))
    ensures var next := pos + |Encode(v.entries[i].key)| + |Encode(v.entries[i].value)|;
            EntriesEnd(buf, pos, |v.entries| - i, before) == EntriesEnd(buf, next, |v.entries| - i - 1, more)
  {
    hide End, EntriesEnd, Encode, Encodable, Holds;
    more := EntriesGoOn(buf, pos, |v.entries| - i, before);
    Ends(v.entries[i].key, buf, pos);
    Ends(v.entries[i].value, buf, pos + |Encode(v.entries[i].key)|);
  }

  /** How much is there of the first entry, and of the rest. */
  lemma BeginsEntry(v: Value, i: nat, buf: Blob, pos: nat, n: nat)
    requires v.Map? && i < |v.entries| && EntriesEncodable(v, i) && Begins(buf, pos, EncodeEntries(v, i), n)
    ensures Encodable(v.entries[i].key) && Encodable(v.entries[i].value) && EntriesEncodable(v, i + 1)
    ensures
      var key, value, rest := Encode(v.entries[i].key), Encode(v.entries[i].value), EncodeEntries(v, i + 1);
      var at, next := pos + |key|, pos + |key| + |value|;
      && |EncodeEntries(v, i)| == |key| + |value| + |rest|
      && (n < |key| ==> Begins(buf, pos, key, n))
      && (|key| <= n ==> Holds(buf, pos, key))
      && (|key| <= n < |key| + |value| ==> Begins(buf, at, value, n - |key|))
      && (|key| + |value| <= n ==> Holds(buf, at, value) && Begins(buf, next, rest, n - |key| - |value|))
  {
    EntryFacts(v, i);
    hide Begins, Holds, Encode, EncodeEntries, Encodable, EntriesEncodable;
    var key, value, rest := Encode(v.entries[i].key), Encode(v.entries[i].value), EncodeEntries(v, i + 1);
    BeginsParts(buf, pos, key, value + rest, n);
    if |key| <= n {
      BeginsParts(buf, pos + |key|, value, rest, n - |key|);
    }
  }

  lemma {:induction false} EntriesCut(v: Value, i: nat, buf: Blob, pos: nat, n: nat, before: seq<Entry>)
    requires v.Map? && i < |v.entries| && EntriesEncodable(v, i)
    requires Begins(buf, pos, EncodeEntries(v, i), n) && n < |EncodeEntries(v, i)|
    ensures CutReads(EntriesEnd(buf, pos, |v.entries| - i, before), pos, |EncodeEntries(v, i)|, n, Tail(v))
    decreases v, 0, |v.entries| - i
  {
    hide Begins, Holds, End, EntriesEnd, Encode, EncodeEntries, Encodable, EntriesEncodable, Tail;
    BeginsEntry(v, i, buf, pos, n);
    TailBehindKey(v, i);
    var e := v.entries[i];
    var middle := |Encode(e.key)|;
    var length := middle + |Encode(e.value)|;
    if n < middle {
      KeyCut(v, i, buf, pos, n, before);
    } else if n < length {
      Ends(e.key, buf, pos);
      ValueCut(v, i, buf, pos, pos + middle, n - middle, before);
    } else {
      var more := EntryThere(v, i, buf, pos, before);
      EntriesCut(v, i + 1, buf, pos + length, n - length, more);
    }
  }

  lemma {:induction false} TailBehindKey(v: Value, i: nat)
    requires v.Map? && i < |v.entries| && EntriesEncodable(v, i)
    ensures Tail(v) < |Encode(v.entries[i].value)| + |EncodeEntries(v, i + 1)|
    ensures i == |v.entries| - 1 ==> EncodeEntries(v, i + 1) == [] && Tail(v) == Tail(v.entries[i].value)
  {
    if i == |v.entries| - 1 {
      TailIsShort(v.entries[i].value);
    } else {
      EntriesTail(v, i + 1);
    }
  }

  lemma ArrayEnd(buf: Blob, pos: nat, n: nat)
    requires n < TWO_32 && Holds(buf, pos, Head(4, n))
    ensures End(buf, pos) == ItemsEnd(buf, pos + |Head(4, n)|, n, [])
  {
    hide Decode, DecodeItems;
    DecodesAfterHead(buf, pos, 4, n);
  }

  lemma MapEnd(buf: Blob, pos: nat, n: nat)
    requires n < TWO_32 && Holds(buf, pos, Head(5, n))
    ensures End(buf, pos) == EntriesEnd(buf, pos + |Head(5, n)|, n, [])
  {
    hide Decode, DecodeEntries;
    DecodesAfterHead(buf, pos, 5, n);
  }

  lemma {:induction false} ArrayCut(v: Value, buf: Blob, pos: nat, n: nat)
    requires v.Array? && Encodable(v) && Begins(buf, pos, Encode(v), n) && n < |Encode(v)|
    ensures CutReads(End(buf, pos), pos, |Encode(v)|, n, Tail(v))
    decreases v, 1
  {
    var head, count := Head(4, |v.items|), |v.items|;
    BeginsParts(buf, pos, head, EncodeItems(v, 0), n);
    if n < |head| {
      HeadsAreWhole(buf, pos, 4, count, n);
      if count > 0 {
        ItemsTail(v, 0);
      }
    } else {
      hide Begins, End, ItemsEnd;
      ArrayEnd(buf, pos, count);
      ItemsCut(v, 0, buf, pos + |head|, n - |head|, []);
    }
  }

  lemma {:induction false} MapCut(v: Value, buf: Blob, pos: nat, n: nat)
    requires v.Map? && Encodable(v) && Begins(buf, pos, Encode(v), n) && n < |Encode(v)|
    ensures CutReads(End(buf, pos), pos, |Encode(v)|, n, Tail(v))
    decreases v, 1
  {
    var head, count := Head(5, |v.entries|), |v.entries|;
    BeginsParts(buf, pos, head, EncodeEntries(v, 0), n);
    if n < |head| {
      HeadsAreWhole(buf, pos, 5, count, n);
      if count > 0 {
        EntriesTail(v, 0);
      }
    } else {
      hide Begins, End, EntriesEnd;
      MapEnd(buf, pos, count);
      EntriesCut(v, 0, buf, pos + |head|, n - |head|, []);
    }
  }

  lemma {:induction false} Cut(v: Value, buf: Blob, pos: nat, n: nat)
    requires Encodable(v) && Begins(buf, pos, Encode(v), n) && n < |Encode(v)|
    ensures CutReads(End(buf, pos), pos, |Encode(v)|, n, Tail(v))
    decreases v, 2
  {
    hide Decode, Begins;
    match v
    case Number(k) => HeadsAreWhole(buf, pos, if k >= 0 then 0 else 1, if k >= 0 then k else -1 - k, n);
    case Bytes(bytes) => StringCut(buf, pos, 2, bytes, n);
    case Text(utf8) => StringCut(buf, pos, 3, utf8, n);
    case Array(_) => ArrayCut(v, buf, pos, n);
    case Map(_) => MapCut(v, buf, pos, n);
  }

  /**
   An encoding that ends too early is refused, but for one that ends inside the string it would end in: that
   string is cut off, and the position ends past the end of the input, where the whole would have ended.
   */
  lemma StringsAreCutOff(v: Value, n: nat)
    requires Encodable(v) && n < |Encode(v)|
    ensures Decode(Encode(v)[..n], 0).Some? <==> n + Tail(v) >= |Encode(v)|
    ensures Decode(Encode(v)[..n], 0).Some? ==> Decode(Encode(v)[..n], 0).value.1 == |Encode(v)|
  {
    var buf := Encode(v)[..n];
    assert buf[0..] == buf;
    Cut(v, buf, 0, n);
  }

  /** The string itself: what is there of it is what is read. */
  lemma CutStringsKeepTheirBytes(bytes: Blob, n: nat)
    requires |bytes| < TWO_32 && |Head(2, |bytes|)| <= n < |Head(2, |bytes|)| + |bytes|
    ensures
      var at := |Head(2, |bytes|)|;
      && Decode(Encode(Bytes(bytes))[..n], 0) == Some((Bytes(bytes[..n - at]), at + |bytes|))
      && Decode(Encode(Text(bytes))[..n], 0) == Some((Text(bytes[..n - at]), at + |bytes|))
  {
    CutString(2, bytes, n);
    CutString(3, bytes, n);
  }

  lemma CutString(major: nat, bytes: Blob, n: nat)
    requires (major == 2 || major == 3) && |bytes| < TWO_32
    requires |Head(major, |bytes|)| <= n <= |Head(major, |bytes|)| + |bytes|
    ensures
      var at, buf := |Head(major, |bytes|)|, (Head(major, |bytes|) + bytes)[..n];
      var there := bytes[..n - at];
      Decode(buf, 0) == Some((if major == 2 then Bytes(there) else Text(there), at + |bytes|))
  {
    var head := Head(major, |bytes|);
    var buf := (head + bytes)[..n];
    assert buf[0..] == buf;
    BeginsParts(buf, 0, head, bytes, n);
    DecodesAfterHead(buf, 0, major, |bytes|);
    assert buf[|head|..] == bytes[..n - |head|];
    assert Subarray(buf, |head|, |head| + |bytes|) == buf[|head|..|buf|] == buf[|head|..];
  }
}
