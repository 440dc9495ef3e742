/**
 Dots and version vectors (crates/rizzy-sync/src/dot.rs, crates/rizzy-sync/src/vv.rs): per device the
 highest sequence number covered, zero entries left out.
 */
module VersionVectors {

  /** A device id; ids are ordered bytewise, which only the order of iteration shows. */
  type Device = nat

  /** An op's identity: its device, and its number among the device's ops. */
  datatype Dot = Dot(device: Device, number: nat)

  predicate DotBefore(a: Dot, b: Dot) {
    a.device < b.device || (a.device == b.device && a.number < b.number)
  }

  type Positive = n: nat | n > 0 witness 1

  type VersionVector = map<Device, Positive>

  function Get(v: VersionVector, d: Device): nat {
    if d in v then v[d] else 0
  }

  predicate CoversDot(v: VersionVector, dot: Dot) {
    dot.number <= Get(v, dot.device)
  }

  function Lower(a: Positive, b: Positive): Positive {
    if a < b then a else b
  }

  /** Every entry is the lower of the two; an entry that would be zero goes. */
  function Meet(v: VersionVector, w: VersionVector): VersionVector {
    map d | d in v && d in w :: Lower(v[d], w[d])
  }

  function Add(v: VersionVector, dot: Dot): VersionVector
    requires dot.number > 0
  {
    if dot.number <= Get(v, dot.device) then v else v[dot.device := dot.number]
  }

  function Higher(a: Positive, b: Positive): Positive {
    if a < b then b else a
  }

  /** Every entry is the higher of the two. */
  function Join(v: VersionVector, w: VersionVector): VersionVector {
    map d | d in v.Keys + w.Keys :: if d !in w then v[d] else if d !in v then w[d] else Higher(v[d], w[d])
  }

  /** The entrywise order. */
  predicate AtMost(v: VersionVector, w: VersionVector) {
    forall d :: d in v ==> v[d] <= Get(w, d)
  }

  /** `Meet` is the infimum in the entrywise order. */
  lemma MeetIsGreatestLowerBound(v: VersionVector, w: VersionVector, u: VersionVector)
    ensures AtMost(Meet(v, w), v) && AtMost(Meet(v, w), w)
    ensures AtMost(u, v) && AtMost(u, w) ==> AtMost(u, Meet(v, w))
  {
  }

  /** `Join` is the supremum. */
  lemma JoinIsLeastUpperBound(v: VersionVector, w: VersionVector, u: VersionVector)
    ensures AtMost(v, Join(v, w)) && AtMost(w, Join(v, w))
    ensures AtMost(v, u) && AtMost(w, u) ==> AtMost(Join(v, w), u)
  {
  }
}
