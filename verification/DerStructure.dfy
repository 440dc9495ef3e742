/**
 What a positive verdict of the X.509 walk proves of its input (crates/rizzy-cli/src/tls.rs), whatever bytes
 the input is: elements within elements, down to a `basicConstraints` whose first field is the BOOLEAN TRUE.
 `OnlyTheStructureIsACa` is an equivalence over every input.
 */
module DerStructure {
  import opened Base
  import opened Der

  /** The input begins with an element, in any of its encodings, and `rest` follows it. */
  ghost predicate Leads(input: Blob, tag: Byte, value: Blob, rest: Blob) {
    exists count: nat :: Encodable(tag, count, |value|) && input == Encode(tag, count, value) + rest
  }

  /** The input begins with such an element, whatever follows it. */
  ghost predicate Wraps(input: Blob, tag: Byte, value: Blob) {
    exists rest :: Leads(input, tag, value, rest)
  }

  /** The input begins with these elements one after the other, and `rest` follows them. */
  ghost predicate LeadsAll(input: Blob, elements: seq<Element>, rest: Blob)
    decreases |elements|
  {
    if elements == [] then rest == input
    else exists next :: Leads(input, elements[0].tag, elements[0].value, next) && LeadsAll(next, elements[1..], rest)
  }

  /**
   The way to the field: the certificate, its signed part, the elements before the extensions, the extensions
   before the one that counts, and what is inside of it.
   */
  datatype Way = Way(
    certificate: Blob,
    signed: Blob,
    before: seq<Element>,
    here: Blob,
    wrapper: Blob,
    list: Blob,
    others: seq<Element>,
    there: Blob,
    extension: Blob,
    fields: Blob,
    critical: Option<Blob>,
    last: Blob,
    octets: Blob,
    constraints: Blob)

  /** The tags of a signed part before its extensions: the version or none, the fields, and no extensions. */
  predicate FieldsFirst(before: seq<Element>) {
    var skipped := if before != [] && before[0].tag == VERSION then 1 else 0;
    && skipped + |Fields()| <= |before|
    && (forall i | 0 <= i < |Fields()| :: before[skipped + i].tag == Fields()[i])
    && (forall i | skipped + |Fields()| <= i < |before| :: before[i].tag != EXTENSIONS)
  }

  /** An extension with another object identifier. */
  ghost predicate Other(e: Element) {
    e.tag == SEQUENCE && exists oid :: Wraps(e.value, OID, oid) && oid != BASIC_CONSTRAINTS
  }

  ghost predicate Others(list: seq<Element>) {
    forall i | 0 <= i < |list| :: Other(list[i])
  }

  /** From a `basicConstraints` extension's fields to its first field, TRUE. */
  ghost predicate WayInside(w: Way) {
    && (if w.critical.Some? then Leads(w.fields, BOOLEAN, w.critical.value, w.last) else w.last == w.fields)
    && Wraps(w.last, OCTET_STRING, w.octets)
    && Wraps(w.octets, SEQUENCE, w.constraints)
    && Wraps(w.constraints, BOOLEAN, [0xFF])
  }

  /** From a list of extensions to the first `basicConstraints` in it. */
  ghost predicate WayThrough(w: Way) {
    && LeadsAll(w.list, w.others, w.there) && Others(w.others)
    && Wraps(w.there, SEQUENCE, w.extension)
    && Leads(w.extension, OID, BASIC_CONSTRAINTS, w.fields)
    && WayInside(w)
  }

  ghost predicate LeadsTo(der: Blob, w: Way) {
    && Wraps(der, SEQUENCE, w.certificate)
    && Wraps(w.certificate, SEQUENCE, w.signed)
    && LeadsAll(w.signed, w.before, w.here) && FieldsFirst(w.before)
    && Wraps(w.here, EXTENSIONS, w.wrapper)
    && Wraps(w.wrapper, SEQUENCE, w.list)
    && WayThrough(w)
  }

  // ---------- elements, as they are read ----------

  /** An element is at the front of an input exactly when it is what is read there. */
  lemma LeadsIff(input: Blob, tag: Byte, value: Blob, rest: Blob)
    ensures Leads(input, tag, value, rest) <==> DerTlv(input) == Some(Tlv(tag, value, rest))
  {
    if Leads(input, tag, value, rest) {
      var count: nat :| Encodable(tag, count, |value|) && input == Encode(tag, count, value) + rest;
      ReadsBack(tag, count, value, rest);
    }
    if DerTlv(input) == Some(Tlv(tag, value, rest)) {
      ReadsOnlyEncodings(input);
    }
  }

  lemma WrapsIff(input: Blob, tag: Byte, value: Blob)
    ensures Wraps(input, tag, value) <==>
              DerTlv(input).Some? && DerTlv(input).value.tag == tag && DerTlv(input).value.value == value
  {
    hide Leads, DerTlv;
    if Wraps(input, tag, value) {
      var rest :| Leads(input, tag, value, rest);
      LeadsIff(input, tag, value, rest);
    }
    if DerTlv(input).Some? && DerTlv(input).value.tag == tag && DerTlv(input).value.value == value {
      LeadsIff(input, tag, value, DerTlv(input).value.rest);
      assert Leads(input, tag, value, DerTlv(input).value.rest);
    }
  }

  /** Elements read one after the other. */
  predicate ReadsAll(input: Blob, elements: seq<Element>, rest: Blob) {
    if elements == [] then rest == input
    else
      && DerTlv(input).Some?
      && DerTlv(input).value.tag == elements[0].tag && DerTlv(input).value.value == elements[0].value
      && ReadsAll(DerTlv(input).value.rest, elements[1..], rest)
  }

  lemma {:induction false} LeadsAllIff(input: Blob, elements: seq<Element>, rest: Blob)
    ensures LeadsAll(input, elements, rest) <==> ReadsAll(input, elements, rest)
    decreases |elements|
  {
    hide Leads, DerTlv;
    if elements != [] {
      if LeadsAll(input, elements, rest) {
        var next :| Leads(input, elements[0].tag, elements[0].value, next) && LeadsAll(next, elements[1..], rest);
        LeadsIff(input, elements[0].tag, elements[0].value, next);
        LeadsAllIff(next, elements[1..], rest);
      }
      if ReadsAll(input, elements, rest) {
        var next := DerTlv(input).value.rest;
        LeadsIff(input, elements[0].tag, elements[0].value, next);
        LeadsAllIff(next, elements[1..], rest);
      }
    }
  }

  lemma {:induction false} ReadsMore(input: Blob, elements: seq<Element>, middle: Blob, more: seq<Element>, rest: Blob)
    requires ReadsAll(input, elements, middle) && ReadsAll(middle, more, rest)
    ensures ReadsAll(input, elements + more, rest)
    decreases |elements|
  {
    hide DerTlv;
    if elements == [] {
      assert elements + more == more;
    } else {
      ReadsMore(DerTlv(input).value.rest, elements[1..], middle, more, rest);
      assert (elements + more)[1..] == elements[1..] + more;
    }
  }

  // ---------- a positive verdict has a way ----------

  lemma {:induction false} SkipReads(input: Blob, tags: seq<Byte>) returns (elements: seq<Element>)
    requires Skip(input, tags).Some?
    ensures ReadsAll(input, elements, Skip(input, tags).value)
    ensures |elements| == |tags| && forall i | 0 <= i < |tags| :: elements[i].tag == tags[i]
    decreases |tags|
  {
    hide DerTlv;
    elements := [];
    if tags != [] {
      var t := DerTlv(input).value;
      var others := SkipReads(t.rest, tags[1..]);
      elements := [Element(t.tag, t.value)] + others;
      assert elements[1..] == others;
    }
  }

  /** From what follows the fields to the extensions. */
  lemma {:induction false} FindsExtensions(input: Blob) returns (passed: seq<Element>, here: Blob)
    requires FromExtensions(input) == Some(true)
    ensures ReadsAll(input, passed, here) && forall i | 0 <= i < |passed| :: passed[i].tag != EXTENSIONS
    ensures DerTlv(here).Some? && DerTlv(here).value.tag == EXTENSIONS
    ensures var list := DerExpect(DerTlv(here).value.value, SEQUENCE);
            list.Some? && FirstConstraints(list.value.0) == Some(true)
    decreases |input|
  {
    var t := DerTlv(input).value;
    if t.tag == EXTENSIONS {
      passed, here := [], input;
    } else {
      ReadsLess(input);
      hide DerTlv;
      var others;
      others, here := FindsExtensions(t.rest);
      passed := [Element(t.tag, t.value)] + others;
      assert passed[1..] == others;
    }
  }

  lemma OtherIff(e: Element)
    ensures Other(e) <==>
            e.tag == SEQUENCE && DerExpect(e.value, OID).Some? && DerExpect(e.value, OID).value.0 != BASIC_CONSTRAINTS
  {
    hide Wraps, DerTlv;
    if Other(e) {
      var oid :| Wraps(e.value, OID, oid) && oid != BASIC_CONSTRAINTS;
      WrapsIff(e.value, OID, oid);
    }
    if DerExpect(e.value, OID).Some? {
      WrapsIff(e.value, OID, DerExpect(e.value, OID).value.0);
    }
  }

  /** From a list of extensions to the first `basicConstraints`. */
  lemma {:induction false} FindsConstraints(input: Blob) returns (others: seq<Element>, there: Blob)
    requires FirstConstraints(input) == Some(true)
    ensures ReadsAll(input, others, there) && Others(others)
    ensures DerExpect(there, SEQUENCE).Some?
    ensures var oid := DerExpect(DerExpect(there, SEQUENCE).value.0, OID);
            oid.Some? && oid.value.0 == BASIC_CONSTRAINTS && Constraints(oid.value.1) == Some(true)
    decreases |input|
  {
    var t := DerTlv(input).value;
    if DerExpect(t.value, OID).value.0 == BASIC_CONSTRAINTS {
      others, there := [], input;
    } else {
      ReadsLess(input);
      OtherIff(Element(t.tag, t.value));
      hide DerTlv, Other, Constraints;
      var more;
      more, there := FindsConstraints(t.rest);
      others := [Element(t.tag, t.value)] + more;
      assert others[1..] == more;
    }
  }

  /** The fields of a `basicConstraints` that say TRUE. */
  lemma FieldsSayTrue(w: Way)
    requires Constraints(w.fields) == Some(true)
    ensures
      var first := DerTlv(w.fields).value;
      var critical := if first.tag == BOOLEAN then Some(first.value) else None;
      var last := if first.tag == BOOLEAN then first.rest else w.fields;
      DerExpect(last, OCTET_STRING).Some? &&
      var octets := DerExpect(last, OCTET_STRING).value.0;
      DerExpect(octets, SEQUENCE).Some? &&
      WayInside(w.(critical := critical, last := last, octets := octets,
          constraints := DerExpect(octets, SEQUENCE).value.0))
  {
    var first := DerTlv(w.fields).value;
    var last := if first.tag == BOOLEAN then first.rest else w.fields;
    var octets := DerExpect(last, OCTET_STRING).value.0;
    var constraints := DerExpect(octets, SEQUENCE).value.0;
    hide DerTlv, Leads, Wraps;
    LeadsIff(w.fields, BOOLEAN, first.value, first.rest);
    WrapsIff(last, OCTET_STRING, octets);
    WrapsIff(octets, SEQUENCE, constraints);
    WrapsIff(constraints, BOOLEAN, [0xFF]);
  }

  /** The fields of a signed part, with the version before them or without. */
  lemma FieldsAreFirst(signed: Blob) returns (before: seq<Element>, rest: Blob)
    requires DerTlv(signed).Some?
    requires var first := DerTlv(signed).value;
             Skip(if first.tag == VERSION then first.rest else signed, Fields()).Some?
    ensures ReadsAll(signed, before, rest) && FieldsFirst(before)
    ensures |before| == |Fields()| + (if before[0].tag == VERSION then 1 else 0)
    ensures var first := DerTlv(signed).value;
            rest == Skip(if first.tag == VERSION then first.rest else signed, Fields()).value
  {
    var first := DerTlv(signed).value;
    hide DerTlv;
    if first.tag == VERSION {
      var fields := SkipReads(first.rest, Fields());
      rest := Skip(first.rest, Fields()).value;
      before := [Element(first.tag, first.value)] + fields;
      assert before[1..] == fields;
    } else {
      before := SkipReads(signed, Fields());
      rest := Skip(signed, Fields()).value;
      assert before[0].tag == Fields()[0];
    }
  }

  /** Whatever the input is: a positive verdict means that the way is there. */
  lemma PositiveHasAWay(der: Blob) returns (w: Way)
    requires Walk(der) == Some(true)
    ensures LeadsTo(der, w)
  {
    var certificate := DerExpect(der, SEQUENCE).value.0;
    var signed := DerExpect(certificate, SEQUENCE).value.0;
    hide DerTlv, Constraints, FirstConstraints, FromExtensions, Leads, Wraps, LeadsAll, Others, FieldsFirst, Skip,
        WayInside;
    var fields, rest := FieldsAreFirst(signed);
    var passed, here := FindsExtensions(rest);
    var wrapper := DerTlv(here).value.value;
    var list := DerExpect(wrapper, SEQUENCE).value.0;
    var others, there := FindsConstraints(list);
    var extension := DerExpect(there, SEQUENCE).value.0;
    var oid := DerExpect(extension, OID).value;
    w := Way(certificate, signed, fields + passed, here, wrapper, list, others, there, extension, oid.1, None, [],
        [], []);
    FieldsSayTrue(w);
    var first := DerTlv(w.fields).value;
    var last := if first.tag == BOOLEAN then first.rest else w.fields;
    var octets := DerExpect(last, OCTET_STRING).value.0;
    w := w.(critical := if first.tag == BOOLEAN then Some(first.value) else None, last := last, octets := octets,
            constraints := DerExpect(octets, SEQUENCE).value.0);
    WrapsIff(der, SEQUENCE, certificate);
    WrapsIff(certificate, SEQUENCE, signed);
    ReadsMore(signed, fields, rest, passed, here);
    LeadsAllIff(signed, fields + passed, here);
    StillFirst(fields, passed);
    WrapsIff(here, EXTENSIONS, wrapper);
    WrapsIff(wrapper, SEQUENCE, list);
    LeadsAllIff(list, others, there);
    WrapsIff(there, SEQUENCE, extension);
    LeadsIff(extension, OID, BASIC_CONSTRAINTS, oid.1);
  }

  lemma StillFirst(fields: seq<Element>, passed: seq<Element>)
    requires FieldsFirst(fields) && |fields| == |Fields()| + (if fields[0].tag == VERSION then 1 else 0)
    requires forall i | 0 <= i < |passed| :: passed[i].tag != EXTENSIONS
    ensures FieldsFirst(fields + passed)
  {
    var all := fields + passed;
    assert all[0] == fields[0];
  }

  // ---------- and no other input has ----------

  lemma {:induction false} SkipsTags(input: Blob, elements: seq<Element>, n: nat, tags: seq<Byte>,
                                     rest: Blob)
    returns (middle: Blob)
    requires ReadsAll(input, elements, rest) && n == |tags| <= |elements|
    requires forall i | 0 <= i < n :: elements[i].tag == tags[i]
    ensures Skip(input, tags) == Some(middle) && ReadsAll(middle, elements[n..], rest)
    decreases n
  {
    hide DerTlv;
    middle := input;
    if n > 0 {
      middle := SkipsTags(DerTlv(input).value.rest, elements[1..], n - 1, tags[1..], rest);
      assert elements[1..][n - 1..] == elements[n..];
    }
  }

  lemma {:induction false} PassesOthers(input: Blob, elements: seq<Element>, here: Blob)
    requires ReadsAll(input, elements, here) && forall i | 0 <= i < |elements| :: elements[i].tag != EXTENSIONS
    requires DerTlv(here).Some?
    ensures FromExtensions(input) == FromExtensions(here)
    decreases |elements|
  {
    if elements != [] {
      ReadsLess(input);
      var next := DerTlv(input).value.rest;
      forall i | 0 <= i < |elements[1..]|
        ensures elements[1..][i].tag != EXTENSIONS
      {
        assert elements[1..][i] == elements[i + 1];
      }
      hide DerTlv;
      PassesOthers(next, elements[1..], here);
    }
  }

  lemma {:induction false} PassesExtensions(input: Blob, others: seq<Element>, there: Blob)
    requires ReadsAll(input, others, there) && Others(others) && DerTlv(there).Some?
    ensures FirstConstraints(input) == FirstConstraints(there)
    decreases |others|
  {
    if others != [] {
      ReadsLess(input);
      OtherIff(others[0]);
      assert Other(others[0]);
      forall i | 0 <= i < |others[1..]|
        ensures Other(others[1..][i])
      {
        assert others[1..][i] == others[i + 1];
      }
      hide DerTlv, Other, Constraints;
      PassesExtensions(DerTlv(input).value.rest, others[1..], there);
    }
  }

  lemma InsideSaysTrue(w: Way)
    requires WayInside(w)
    ensures Constraints(w.fields) == Some(true)
  {
    hide DerTlv, Leads, Wraps;
    WrapsIff(w.last, OCTET_STRING, w.octets);
    WrapsIff(w.octets, SEQUENCE, w.constraints);
    WrapsIff(w.constraints, BOOLEAN, [0xFF]);
    if w.critical.Some? {
      LeadsIff(w.fields, BOOLEAN, w.critical.value, w.last);
    }
    NothingIsEmpty(w.constraints);
  }

  lemma NothingIsEmpty(input: Blob)
    ensures DerTlv(input).Some? ==> input != []
  {
  }

  lemma HereSaysTrue(w: Way)
    requires Wraps(w.there, SEQUENCE, w.extension) && Leads(w.extension, OID, BASIC_CONSTRAINTS, w.fields) &&
               WayInside(w)
    ensures DerTlv(w.there).Some? && FirstConstraints(w.there) == Some(true)
  {
    InsideSaysTrue(w);
    hide DerTlv, Leads, Wraps, WayInside, Constraints;
    WrapsIff(w.there, SEQUENCE, w.extension);
    LeadsIff(w.extension, OID, BASIC_CONSTRAINTS, w.fields);
    NothingIsEmpty(w.there);
  }

  lemma ThroughSaysTrue(w: Way)
    requires WayThrough(w)
    ensures FirstConstraints(w.list) == Some(true)
  {
    HereSaysTrue(w);
    hide DerTlv, Leads, Wraps, LeadsAll, WayInside, FirstConstraints, Others;
    LeadsAllIff(w.list, w.others, w.there);
    PassesExtensions(w.list, w.others, w.there);
  }

  lemma AWayIsPositive(der: Blob, w: Way)
    requires LeadsTo(der, w)
    ensures Walk(der) == Some(true)
  {
    hide DerTlv, Leads, Wraps, LeadsAll, WayThrough, FirstConstraints, FromExtensions, FieldsFirst, Skip;
    ThroughSaysTrue(w);
    WrapsIff(der, SEQUENCE, w.certificate);
    WrapsIff(w.certificate, SEQUENCE, w.signed);
    LeadsAllIff(w.signed, w.before, w.here);
    WrapsIff(w.here, EXTENSIONS, w.wrapper);
    WrapsIff(w.wrapper, SEQUENCE, w.list);
    SignedSaysTrue(w.signed, w.before, w.here, w.wrapper, w.list);
  }

  /** The walk of a signed part comes to its extensions. */
  lemma SignedSaysTrue(signed: Blob, before: seq<Element>, here: Blob, wrapper: Blob, list: Blob)
    requires ReadsAll(signed, before, here) && FieldsFirst(before)
    requires DerTlv(here).Some? && DerTlv(here).value.tag == EXTENSIONS && DerTlv(here).value.value == wrapper
    requires DerExpect(wrapper, SEQUENCE).Some? && DerExpect(wrapper, SEQUENCE).value.0 == list
    requires FirstConstraints(list) == Some(true)
    ensures DerTlv(signed).Some?
    ensures var first := DerTlv(signed).value;
            var rest := Skip(if first.tag == VERSION then first.rest else signed, Fields());
            rest.Some? && FromExtensions(rest.value) == Some(true)
  {
    NothingIsEmpty(here);
    hide DerTlv, FirstConstraints;
    var first := DerTlv(signed).value;
    var skipped := if before[0].tag == VERSION then 1 else 0;
    var start, elements := if skipped == 1 then first.rest else signed, before[skipped..];
    var rest := SkipsTags(start, elements, |Fields()|, Fields(), here);
    var passed := elements[|Fields()|..];
    forall i | 0 <= i < |passed|
      ensures passed[i].tag != EXTENSIONS
    {
      assert passed[i] == before[skipped + |Fields()| + i];
    }
    PassesOthers(rest, passed, here);
  }

  /** For every input: it is a CA's if and only if the way to a `cA` field that says TRUE is there. */
  lemma OnlyTheStructureIsACa(der: Blob)
    ensures Walk(der) == Some(true) <==> exists w :: LeadsTo(der, w)
  {
    if Walk(der) == Some(true) {
      var w := PositiveHasAWay(der);
    }
    if w :| LeadsTo(der, w) {
      AWayIsPositive(der, w);
    }
  }
}
