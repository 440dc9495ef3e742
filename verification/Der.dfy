/**
 The read-only walk of an X.509 certificate that finds whether it is a CA's
 (crates/rizzy-cli/src/tls.rs): a reader of DER elements and two nested loops. The encoder here is the
 structure of section 4.1 of RFC 5280 and the extension of its section 4.2.1.9.
 */
module Der {
  import opened Base

  // ---------- one element ----------

  datatype Tlv = Tlv(tag: Byte, value: Blob, rest: Blob)

  /** The largest `usize` of a 32-bit target; the code's checked arithmetic fails above it. */
  const USIZE_MAX := 0xFFFF_FFFF

  /** The length bytes, most significant first, with checked arithmetic. */
  function FoldLength(bytes: Blob, acc: nat): Option<nat> {
    if bytes == [] then Some(acc)
    else if acc * 256 > USIZE_MAX || acc * 256 + bytes[0] > USIZE_MAX then None
    else FoldLength(bytes[1..], acc * 256 + bytes[0])
  }

  function SplitAt(input: Blob, n: nat): Option<(Blob, Blob)> {
    if n > |input| then None else Some((input[..n], input[n..]))
  }

  /** The length of an element from its first length byte and what follows, and what follows then. */
  function ReadLength(first: Byte, rest: Blob): Option<(nat, Blob)> {
    if first < 0x80 then Some((first, rest))
    else
      var count := first - 0x80;
      if count == 0 || count > 4 then None
      else
        var split := SplitAt(rest, count);
        if split.None? then None
        else
          var len := FoldLength(split.value.0, 0);
          if len.None? then None else Some((len.value, split.value.1))
  }

  /** The first element of the input: single-byte tags, definite lengths of at most four bytes. */
  function DerTlv(input: Blob): Option<Tlv> {
    if input == [] || input[0] % 32 == 31 || |input| < 2 then None
    else
      var len := ReadLength(input[1], input[2..]);
      if len.None? then None
      else
        var split := SplitAt(len.value.1, len.value.0);
        if split.None? then None else Some(Tlv(input[0], split.value.0, split.value.1))
  }

  function DerExpect(input: Blob, tag: Byte): Option<(Blob, Blob)> {
    var found := DerTlv(input);
    if found.None? || found.value.tag != tag then None else Some((found.value.value, found.value.rest))
  }

  // ---------- encoding ----------

  /** An element whose length takes `count` bytes, or the short form when `count` is zero. */
  function Encode(tag: Byte, count: nat, value: Blob): Blob
    requires Encodable(tag, count, |value|)
  {
    [tag] + (LengthBytes(count, |value|) + value)
  }

  predicate Encodable(tag: Byte, count: nat, length: nat) {
    tag % 32 != 31 && if count == 0 then length < 0x80 else count <= 4 && length < Power256(count)
  }

  lemma FourBytesFit()
    ensures Power256(1) == 0x100 && Power256(2) == 0x1_0000 && Power256(3) == 0x100_0000 && Power256(4) == 0x1_0000_0000
  {
    assert Power256(0) == 1;
  }

  lemma {:induction false} FoldAppends(bytes: Blob, b: Byte, acc: nat)
    requires FoldLength(bytes, acc).Some? && FoldLength(bytes, acc).value * 256 + b <= USIZE_MAX
    ensures FoldLength(bytes + [b], acc) == Some(FoldLength(bytes, acc).value * 256 + b)
  {
    if bytes == [] {
      assert [] + [b] == [b] && [b][1..] == [];
    } else {
      assert (bytes + [b])[1..] == bytes[1..] + [b];
      FoldAppends(bytes[1..], b, acc * 256 + bytes[0]);
    }
  }

  lemma {:induction false} FoldReadsBigEndian(n: nat, count: nat)
    requires n < Power256(count) && n <= USIZE_MAX
    ensures FoldLength(BigEndian(n, count), 0) == Some(n)
  {
    if count > 0 {
      FoldReadsBigEndian(n / 256, count - 1);
      FoldAppends(BigEndian(n / 256, count - 1), n % 256, 0);
    }
  }

  /** The checked accumulator never overflows: four bytes hold less than any `usize`. */
  lemma {:induction false} LengthNeverOverflows(bytes: Blob, acc: nat, room: nat)
    requires |bytes| <= room <= 4 && acc < Power256(4 - room)
    ensures FoldLength(bytes, acc).Some?
    ensures FoldLength(bytes, acc).value < Power256(4 - room + |bytes|)
    decreases |bytes|
  {
    FourBytesFit();
    if bytes != [] {
      assert Power256(5 - room) == 256 * Power256(4 - room);
      assert acc * 256 + bytes[0] < Power256(5 - room);
      LengthNeverOverflows(bytes[1..], acc * 256 + bytes[0], room - 1);
    }
  }

  lemma SplitAppended(a: Blob, b: Blob)
    ensures SplitAt(a + b, |a|) == Some((a, b))
  {
    assert (a + b)[..|a|] == a && (a + b)[|a|..] == b;
  }

  /** The length bytes of an encoding. */
  function LengthBytes(count: nat, length: nat): Blob
    requires if count == 0 then length < 0x80 else count <= 4 && length < Power256(count)
  {
    if count == 0 then [length] else [0x80 + count] + BigEndian(length, count)
  }

  lemma LengthReadsBack(count: nat, length: nat, after: Blob)
    requires if count == 0 then length < 0x80 else count <= 4 && length < Power256(count)
    ensures ReadLength(LengthBytes(count, length)[0], LengthBytes(count, length)[1..] + after) == Some((length, after))
  {
    FourBytesFit();
    if count == 0 {
      assert [] + after == after;
    } else {
      var bytes := BigEndian(length, count);
      assert LengthBytes(count, length)[1..] == bytes;
      SplitAppended(bytes, after);
      FoldReadsBigEndian(length, count);
    }
  }

  lemma Reassociates<T>(a: seq<T>, b: seq<T>, c: seq<T>, d: seq<T>)
    ensures a + (b + c) + d == a + (b + (c + d))
  {
  }

  lemma AfterTwo<T>(a: T, b: seq<T>, c: seq<T>)
    requires b != []
    ensures ([a] + (b + c))[2..] == b[1..] + c
  {
  }

  /** What was encoded is read back, whatever follows it. */
  lemma ReadsBack(tag: Byte, count: nat, value: Blob, rest: Blob)
    requires Encodable(tag, count, |value|)
    ensures DerTlv(Encode(tag, count, value) + rest) == Some(Tlv(tag, value, rest))
  {
    var length := LengthBytes(count, |value|);
    var input := [tag] + (length + (value + rest));
    Reassociates([tag], length, value, rest);
    AfterTwo(tag, length, value + rest);
    assert input[0] == tag && input[1] == length[0] && |input| >= 2;
    LengthReadsBack(count, |value|, value + rest);
    SplitAppended(value, rest);
  }

  lemma {:induction false} BigEndianOfFold(bytes: Blob)
    requires |bytes| <= 4
    ensures FoldLength(bytes, 0).Some? && FoldLength(bytes, 0).value < Power256(|bytes|)
    ensures BigEndian(FoldLength(bytes, 0).value, |bytes|) == bytes
    decreases |bytes|
  {
    LengthNeverOverflows(bytes, 0, 4);
    if bytes == [] {
    } else {
      var front, b := bytes[..|bytes| - 1], bytes[|bytes| - 1];
      BigEndianOfFold(front);
      FourBytesFit();
      assert bytes == front + [b];
      assert FoldLength(front, 0).value * 256 + b < Power256(|bytes|);
      FoldAppends(front, b, 0);
    }
  }

  /** How many bytes the length of an element takes after the first. */
  function LengthCount(first: Byte): nat {
    if first < 0x80 then 0 else first - 0x80
  }

  lemma LengthWasEncoded(first: Byte, rest: Blob)
    requires ReadLength(first, rest).Some?
    ensures
      var (length, after) := ReadLength(first, rest).value;
      var count := LengthCount(first);
      (if count == 0 then length < 0x80 else count <= 4 && length < Power256(count)) &&
      [first] + rest == LengthBytes(count, length) + after
  {
    if first >= 0x80 {
      var count := first - 0x80;
      BigEndianOfFold(rest[..count]);
      assert rest == rest[..count] + rest[count..];
    }
  }

  /** What is read was encoded: the reader accepts exactly the encodings, and never runs past the input. */
  lemma ReadsOnlyEncodings(input: Blob)
    requires DerTlv(input).Some?
    ensures
      var t := DerTlv(input).value;
      var count := LengthCount(input[1]);
      Encodable(t.tag, count, |t.value|) && input == Encode(t.tag, count, t.value) + t.rest
  {
    var t := DerTlv(input).value;
    LengthWasEncoded(input[1], input[2..]);
    var length := LengthBytes(LengthCount(input[1]), |t.value|);
    assert input == [input[0]] + ([input[1]] + input[2..]);
    assert ReadLength(input[1], input[2..]).value.1 == t.value + t.rest;
    Reassociates([input[0]], length, t.value, t.rest);
  }

  /** More input behind an element changes only what is left over. */
  lemma ReadsTheSameAhead(input: Blob, more: Blob)
    requires DerTlv(input).Some?
    ensures DerTlv(input + more) == Some(DerTlv(input).value.(rest := DerTlv(input).value.rest + more))
  {
    var t := DerTlv(input).value;
    var count := LengthCount(input[1]);
    ReadsOnlyEncodings(input);
    ReadsBack(t.tag, count, t.value, t.rest + more);
    SumsUp(Encode(t.tag, count, t.value), t.rest, more);
  }

  lemma SumsUp<T>(a: seq<T>, b: seq<T>, c: seq<T>)
    ensures a + b + c == a + (b + c)
  {
  }

  lemma MoreIsLeftOver(input: Blob, more: Blob)
    requires DerTlv(input).Some? && more != []
    ensures DerTlv(input + more).Some? && DerTlv(input + more).value.rest != []
  {
    ReadsTheSameAhead(input, more);
    assert |DerTlv(input).value.rest + more| >= |more|;
  }

  /** Every proper prefix of one whole element is refused. */
  lemma PrefixesAreRefused(input: Blob, n: nat)
    requires DerTlv(input).Some? && DerTlv(input).value.rest == [] && n < |input|
    ensures DerTlv(input[..n]).None?
  {
    assert input == input[..n] + input[n..];
    if DerTlv(input[..n]).Some? {
      MoreIsLeftOver(input[..n], input[n..]);
    }
  }

  // ---------- the walk ----------

  const SEQUENCE: Byte := 0x30
  const INTEGER: Byte := 0x02
  const BOOLEAN: Byte := 0x01
  const OID: Byte := 0x06
  const OCTET_STRING: Byte := 0x04
  const VERSION: Byte := 0xA0
  const EXTENSIONS: Byte := 0xA3

  /** The content of the object identifier 2.5.29.19. */
  const BASIC_CONSTRAINTS: Blob := [0x55, 0x1D, 0x13]

  /** What follows the elements with the given tags. */
  function Skip(input: Blob, tags: seq<Byte>): Option<Blob> {
    if tags == [] then Some(input)
    else
      var next := DerExpect(input, tags[0]);
      if next.None? then None else Skip(next.value.1, tags[1..])
  }

  function Fields(): seq<Byte> {
    [INTEGER, SEQUENCE, SEQUENCE, SEQUENCE, SEQUENCE, SEQUENCE]
  }

  /** The `cA` field of a `BasicConstraints` sequence, FALSE by default. */
  function CaField(content: Blob): Option<bool> {
    if content == [] then Some(false)
    else
      var ca := DerTlv(content);
      if ca.None? then None else Some(ca.value.tag == BOOLEAN && ca.value.value == [0xFF])
  }

  function ConstraintsValue(value: Blob): Option<bool> {
    var constraints := DerExpect(value, SEQUENCE);
    if constraints.None? then None else CaField(constraints.value.0)
  }

  /** The verdict of a `basicConstraints` extension, from what follows its object identifier. */
  function Constraints(fields: Blob): Option<bool> {
    var critical := DerTlv(fields);
    if critical.None? then None
    else
      var octets := DerExpect(if critical.value.tag == BOOLEAN then critical.value.rest else fields, OCTET_STRING);
      if octets.None? then None else ConstraintsValue(octets.value.0)
  }

  /** The verdict of the first `basicConstraints` among the extensions. */
  function FirstConstraints(extensions: Blob): Option<bool>
    decreases |extensions|
  {
    if extensions == [] then Some(false)
    else
      var extension := DerExpect(extensions, SEQUENCE);
      if extension.None? then None
      else
        var oid := DerExpect(extension.value.0, OID);
        if oid.None? then None
        else if oid.value.0 == BASIC_CONSTRAINTS then Constraints(oid.value.1)
        else
          ReadsLess(extensions);
          FirstConstraints(extension.value.1)
  }

  /** The verdict of what follows the public key. */
  function FromExtensions(rest: Blob): Option<bool>
    decreases |rest|
  {
    if rest == [] then Some(false)
    else
      var next := DerTlv(rest);
      if next.None? then None
      else if next.value.tag == EXTENSIONS then
        var extensions := DerExpect(next.value.value, SEQUENCE);
        if extensions.None? then None else FirstConstraints(extensions.value.0)
      else
        ReadsLess(rest);
        FromExtensions(next.value.rest)
  }

  function Walk(der: Blob): Option<bool> {
    var cert := DerExpect(der, SEQUENCE);
    if cert.None? then None
    else
      var tbs := DerExpect(cert.value.0, SEQUENCE);
      if tbs.None? then None
      else
        var first := DerTlv(tbs.value.0);
        if first.None? then None
        else
          var rest := Skip(if first.value.tag == VERSION then first.value.rest else tbs.value.0, Fields());
          if rest.None? then None else FromExtensions(rest.value)
  }

  /** An element is at least two bytes long, so every loop over elements ends. */
  lemma ReadsLess(input: Blob)
    ensures DerTlv(input).Some? ==> |DerTlv(input).value.rest| < |input|
  {
  }

  /** The walk as it is coded. */
  method IsCaWalk(der: Blob) returns (r: Option<bool>)
    ensures r == Walk(der)
  {
    var cert := DerExpect(der, SEQUENCE);
    if cert.None? {
      return None;
    }
    var tbs := DerExpect(cert.value.0, SEQUENCE);
    if tbs.None? {
      return None;
    }
    var rest := tbs.value.0;
    var first := DerTlv(rest);
    if first.None? {
      return None;
    }
    if first.value.tag == VERSION {
      rest := first.value.rest;
    }
    ghost var fields := rest;
    var i := 0;
    while i < |Fields()|
      invariant 0 <= i <= |Fields()| && Skip(rest, Fields()[i..]) == Skip(fields, Fields())
    {
      assert Fields()[i..][1..] == Fields()[i + 1..];
      var next := DerExpect(rest, Fields()[i]);
      if next.None? {
        return None;
      }
      rest := next.value.1;
      i := i + 1;
    }
    while rest != []
      invariant FromExtensions(rest) == Walk(der)
      decreases |rest|
    {
      var next := DerTlv(rest);
      if next.None? {
        return None;
      }
      ReadsLess(rest);
      rest := next.value.rest;
      if next.value.tag != EXTENSIONS {
        continue;
      }
      r := InExtensions(next.value.value);
      return;
    }
    return Some(false);
  }

  /** The inner loop of the walk, over the extensions. */
  method InExtensions(value: Blob) returns (r: Option<bool>)
    ensures
      var extensions := DerExpect(value, SEQUENCE);
      r == if extensions.None? then None else FirstConstraints(extensions.value.0)
  {
    var list := DerExpect(value, SEQUENCE);
    if list.None? {
      return None;
    }
    var extensions := list.value.0;
    while extensions != []
      invariant FirstConstraints(extensions) == FirstConstraints(list.value.0)
      decreases |extensions|
    {
      var extension := DerExpect(extensions, SEQUENCE);
      if extension.None? {
        return None;
      }
      ReadsLess(extensions);
      var oid := DerExpect(extension.value.0, OID);
      if oid.None? {
        return None;
      }
      if oid.value.0 == BASIC_CONSTRAINTS {
        return Constraints(oid.value.1);
      }
      extensions := extension.value.1;
    }
    return Some(false);
  }

  method IsCaCertificate(der: Blob) returns (ca: bool)
    ensures ca <==> Walk(der) == Some(true)
  {
    var r := IsCaWalk(der);
    ca := r == Some(true);
  }

  // ---------- certificates ----------

  /** A `basicConstraints` value: the content of the `cA` field if it is there, and the path length. */
  datatype BasicConstraints = BasicConstraints(ca: Option<Blob>, pathLen: Option<Blob>)

  datatype Extension =
    | Basic(critical: Option<Blob>, constraints: BasicConstraints)
    | OtherExtension(oid: Blob, critical: Option<Blob>, value: Blob)

  datatype Element = Element(tag: Byte, value: Blob)

  /**
   A certificate: the contents of its fields, the unique ids before the extensions, and what follows the
   signed part. `serial` and the five `fields` are opaque contents.
   */
  datatype Certificate = Certificate(version: Option<Blob>, serial: Blob, fields: seq<Blob>, uniqueIds: seq<Element>,
                                     extensions: Option<seq<Extension>>, after: Blob)

  const MAX_LENGTH := 0x1_0000_0000

  /** The shortest form of the length, as DER demands. */
  function Count(length: nat): nat
    requires length < MAX_LENGTH
    ensures if Count(length) == 0 then length < 0x80 else Count(length) <= 4 && length < Power256(Count(length))
  {
    FourBytesFit();
    if length < 0x80 then 0 else if length < 0x100 then 1 else if length < 0x1_0000 then 2
    else if length < 0x100_0000 then 3 else 4
  }

  predicate Fits(tag: Byte, value: Blob) {
    tag % 32 != 31 && |value| < MAX_LENGTH
  }

  /** An element; one too long for DER's four length bytes has no encoding here. */
  function EncodeDer(tag: Byte, value: Blob): Blob {
    if Fits(tag, value) then Encode(tag, Count(|value|), value) else []
  }

  function Optional(tag: Byte, value: Option<Blob>): Blob {
    if value.Some? then EncodeDer(tag, value.value) else []
  }

  function EncodeConstraints(c: BasicConstraints): Blob {
    EncodeDer(SEQUENCE, Optional(BOOLEAN, c.ca) + Optional(INTEGER, c.pathLen))
  }

  function OidOf(e: Extension): Blob {
    if e.Basic? then BASIC_CONSTRAINTS else e.oid
  }

  function ValueOf(e: Extension): Blob {
    if e.Basic? then EncodeConstraints(e.constraints) else e.value
  }

  /** What follows the object identifier. */
  function ExtensionFields(e: Extension): Blob {
    Optional(BOOLEAN, e.critical) + EncodeDer(OCTET_STRING, ValueOf(e))
  }

  function ExtensionBody(e: Extension): Blob {
    EncodeDer(OID, OidOf(e)) + ExtensionFields(e)
  }

  function EncodeExtensions(extensions: seq<Extension>): Blob {
    if extensions == [] then []
    else EncodeDer(SEQUENCE, ExtensionBody(extensions[0])) + EncodeExtensions(extensions[1..])
  }

  function EncodeElements(elements: seq<Element>): Blob {
    if elements == [] then [] else EncodeDer(elements[0].tag, elements[0].value) + EncodeElements(elements[1..])
  }

  function EncodeFields(fields: seq<Blob>): Blob {
    if fields == [] then [] else EncodeDer(SEQUENCE, fields[0]) + EncodeFields(fields[1..])
  }

  function ExtensionsPart(extensions: Option<seq<Extension>>): Blob {
    if extensions.None? then [] else EncodeDer(EXTENSIONS, EncodeDer(SEQUENCE, EncodeExtensions(extensions.value)))
  }

  function SignedPart(c: Certificate): Blob {
    Optional(VERSION, c.version) + (EncodeDer(INTEGER, c.serial) + (EncodeFields(c.fields) +
      (EncodeElements(c.uniqueIds) + ExtensionsPart(c.extensions))))
  }

  function EncodeCertificate(c: Certificate): Blob {
    EncodeDer(SEQUENCE, EncodeDer(SEQUENCE, SignedPart(c)) + c.after)
  }

  predicate OptionFits(tag: Byte, value: Option<Blob>) {
    value.Some? ==> Fits(tag, value.value)
  }

  /** Every part has an encoding. */
  predicate ExtensionFits(e: Extension) {
    Fits(SEQUENCE, ExtensionBody(e)) && Fits(OID, OidOf(e)) && OptionFits(BOOLEAN, e.critical) &&
    match e
    case Basic(_, c) =>
      OptionFits(BOOLEAN, c.ca) && OptionFits(INTEGER, c.pathLen) && Fits(OCTET_STRING, EncodeConstraints(c)) &&
      Fits(SEQUENCE, Optional(BOOLEAN, c.ca) + Optional(INTEGER, c.pathLen))
    case OtherExtension(oid, _, value) => oid != BASIC_CONSTRAINTS && Fits(OCTET_STRING, value)
  }

  predicate CertificateFits(c: Certificate) {
    OptionFits(VERSION, c.version) && Fits(INTEGER, c.serial) && |c.fields| == 5 &&
    (forall f :: f in c.fields ==> Fits(SEQUENCE, f)) &&
    (forall u :: u in c.uniqueIds ==> Fits(u.tag, u.value) && u.tag != EXTENSIONS) &&
    (c.extensions.Some? ==>
       (forall e :: e in c.extensions.value ==> ExtensionFits(e)) &&
       Fits(SEQUENCE, EncodeExtensions(c.extensions.value)) &&
       Fits(EXTENSIONS, EncodeDer(SEQUENCE, EncodeExtensions(c.extensions.value)))) &&
    Fits(SEQUENCE, SignedPart(c)) && Fits(SEQUENCE, EncodeDer(SEQUENCE, SignedPart(c)) + c.after)
  }

  /** Whether the first `basicConstraints` says that the subject is a CA. */
  function FirstSaysCa(extensions: seq<Extension>): bool {
    if extensions == [] then false
    else if extensions[0].Basic? then extensions[0].constraints.ca == Some([0xFF])
    else FirstSaysCa(extensions[1..])
  }

  predicate IsCa(c: Certificate) {
    c.extensions.Some? && FirstSaysCa(c.extensions.value)
  }

  // ---------- the walk agrees with the structure ----------

  lemma ElementReads(tag: Byte, value: Blob, rest: Blob)
    requires Fits(tag, value)
    ensures DerTlv(EncodeDer(tag, value) + rest) == Some(Tlv(tag, value, rest))
    ensures DerExpect(EncodeDer(tag, value) + rest, tag) == Some((value, rest))
    ensures EncodeDer(tag, value) + rest != []
  {
    ReadsBack(tag, Count(|value|), value, rest);
  }

  lemma ElementReadsAlone(tag: Byte, value: Blob)
    requires Fits(tag, value)
    ensures DerTlv(EncodeDer(tag, value)) == Some(Tlv(tag, value, [])) && EncodeDer(tag, value) != []
  {
    ElementReads(tag, value, []);
    assert EncodeDer(tag, value) + [] == EncodeDer(tag, value);
  }

  lemma CaFieldReads(c: BasicConstraints)
    requires OptionFits(BOOLEAN, c.ca) && OptionFits(INTEGER, c.pathLen)
    ensures CaField(Optional(BOOLEAN, c.ca) + Optional(INTEGER, c.pathLen)) == Some(c.ca == Some([0xFF]))
  {
    var content := Optional(BOOLEAN, c.ca) + Optional(INTEGER, c.pathLen);
    if c.ca.Some? {
      ElementReads(BOOLEAN, c.ca.value, Optional(INTEGER, c.pathLen));
    } else if c.pathLen.Some? {
      ElementReadsAlone(INTEGER, c.pathLen.value);
      assert content == EncodeDer(INTEGER, c.pathLen.value);
    }
  }

  lemma ConstraintsRead(critical: Option<Blob>, c: BasicConstraints)
    requires ExtensionFits(Basic(critical, c))
    ensures Constraints(Optional(BOOLEAN, critical) + EncodeDer(OCTET_STRING, EncodeConstraints(c))) ==
            Some(c.ca == Some([0xFF]))
  {
    var octets := EncodeDer(OCTET_STRING, EncodeConstraints(c));
    CaFieldReads(c);
    ElementReadsAlone(OCTET_STRING, EncodeConstraints(c));
    ElementReadsAlone(SEQUENCE, Optional(BOOLEAN, c.ca) + Optional(INTEGER, c.pathLen));
    CriticalIsSkipped(critical, octets);
  }

  lemma CriticalIsSkipped(critical: Option<Blob>, octets: Blob)
    requires OptionFits(BOOLEAN, critical)
    requires DerTlv(octets).Some? && DerTlv(octets).value.tag == OCTET_STRING
    ensures
      var first := DerTlv(Optional(BOOLEAN, critical) + octets);
      first.Some? &&
      (if first.value.tag == BOOLEAN then first.value.rest else Optional(BOOLEAN, critical) + octets) == octets
  {
    if critical.Some? {
      ElementReads(BOOLEAN, critical.value, octets);
    } else {
      assert [] + octets == octets;
    }
  }

  lemma OidDecides(oid: Blob, fields: Blob, rest: Blob)
    requires Fits(OID, oid) && Fits(SEQUENCE, EncodeDer(OID, oid) + fields)
    ensures FirstConstraints(EncodeDer(SEQUENCE, EncodeDer(OID, oid) + fields) + rest) ==
            if oid == BASIC_CONSTRAINTS then Constraints(fields) else FirstConstraints(rest)
  {
    ElementReads(SEQUENCE, EncodeDer(OID, oid) + fields, rest);
    ElementReads(OID, oid, fields);
  }

  /** One extension: a `basicConstraints` decides, another one is passed. */
  lemma ExtensionReads(e: Extension, rest: Blob)
    requires ExtensionFits(e)
    ensures FirstConstraints(EncodeDer(SEQUENCE, ExtensionBody(e)) + rest) ==
            if e.Basic? then Some(e.constraints.ca == Some([0xFF])) else FirstConstraints(rest)
  {
    OidDecides(OidOf(e), ExtensionFields(e), rest);
    if e.Basic? {
      ConstraintsRead(e.critical, e.constraints);
    }
  }

  lemma {:induction false} ExtensionsRead(extensions: seq<Extension>)
    requires forall e :: e in extensions ==> ExtensionFits(e)
    ensures FirstConstraints(EncodeExtensions(extensions)) == Some(FirstSaysCa(extensions))
  {
    if extensions != [] {
      assert extensions[0] in extensions;
      ExtensionReads(extensions[0], EncodeExtensions(extensions[1..]));
      ExtensionsRead(extensions[1..]);
    }
  }

  lemma {:induction false} FieldsAreSkipped(fields: seq<Blob>, rest: Blob)
    requires forall f :: f in fields ==> Fits(SEQUENCE, f)
    ensures Skip(EncodeFields(fields) + rest, seq(|fields|, _ => SEQUENCE)) == Some(rest)
  {
    if fields == [] {
      assert EncodeFields(fields) + rest == rest;
    } else {
      assert fields[0] in fields;
      var tail := EncodeFields(fields[1..]) + rest;
      assert EncodeFields(fields) + rest == EncodeDer(SEQUENCE, fields[0]) + tail;
      ElementReads(SEQUENCE, fields[0], tail);
      FieldsAreSkipped(fields[1..], rest);
      var tags := seq(|fields|, _ => SEQUENCE);
      assert tags[1..] == seq(|fields[1..]|, _ => SEQUENCE);
    }
  }

  lemma {:induction false} UniqueIdsArePassed(uniqueIds: seq<Element>, rest: Blob)
    requires forall u :: u in uniqueIds ==> Fits(u.tag, u.value) && u.tag != EXTENSIONS
    ensures FromExtensions(EncodeElements(uniqueIds) + rest) == FromExtensions(rest)
  {
    if uniqueIds == [] {
      assert EncodeElements(uniqueIds) + rest == rest;
    } else {
      var u := uniqueIds[0];
      assert u in uniqueIds;
      var tail := EncodeElements(uniqueIds[1..]) + rest;
      assert EncodeElements(uniqueIds) + rest == EncodeDer(u.tag, u.value) + tail;
      ElementReads(u.tag, u.value, tail);
      UniqueIdsArePassed(uniqueIds[1..], rest);
    }
  }

  lemma ExtensionsPartReads(c: Certificate)
    requires CertificateFits(c)
    ensures FromExtensions(ExtensionsPart(c.extensions)) == Some(IsCa(c))
  {
    if c.extensions.Some? {
      var list := EncodeExtensions(c.extensions.value);
      ElementReadsAlone(EXTENSIONS, EncodeDer(SEQUENCE, list));
      ElementReadsAlone(SEQUENCE, list);
      ExtensionsRead(c.extensions.value);
    }
  }

  /** For every certificate with an encoding, whatever follows it, the walk says what its structure says. */
  lemma WalkAgreesWithTheStructure(c: Certificate, rest: Blob)
    requires CertificateFits(c)
    ensures Walk(EncodeCertificate(c) + rest) == Some(IsCa(c))
  {
    var signed := SignedPart(c);
    ElementReads(SEQUENCE, EncodeDer(SEQUENCE, signed) + c.after, rest);
    ElementReads(SEQUENCE, signed, c.after);
    SignedPartReads(c);
  }

  lemma SignedPartReads(c: Certificate)
    requires CertificateFits(c)
    ensures
      var first := DerTlv(SignedPart(c));
      first.Some? &&
      var rest := Skip(if first.value.tag == VERSION then first.value.rest else SignedPart(c), Fields());
      rest.Some? && FromExtensions(rest.value) == Some(IsCa(c))
  {
    var end := EncodeElements(c.uniqueIds) + ExtensionsPart(c.extensions);
    var afterSerial := EncodeFields(c.fields) + end;
    var fields := EncodeDer(INTEGER, c.serial) + afterSerial;
    if c.version.Some? {
      ElementReads(VERSION, c.version.value, fields);
    } else {
      assert SignedPart(c) == fields;
    }
    ElementReads(INTEGER, c.serial, afterSerial);
    assert Fields()[1..] == seq(|c.fields|, _ => SEQUENCE);
    FieldsAreSkipped(c.fields, end);
    UniqueIdsArePassed(c.uniqueIds, ExtensionsPart(c.extensions));
    ExtensionsPartReads(c);
  }
}
