/**
 The verification of an account answer against the pin of an enrolled device, or under the account
 key of a new one (crates/rizzy-client/src/account.rs, unlock.rs, crates/rizzy-core/src/sign).

 Cryptography is ideal: a signature is the key that made it, a hash is what was hashed, an envelope is
 its key, context and content. The server's answers are arbitrary.
 */
module AccountPin {
  import opened Base

  // ---------- signed objects ----------

  datatype IdentityKeys = IdentityKeys(ed25519: nat, x25519: nat)

  /** A public-key bundle; `prev` is the hash of its predecessor, which is the predecessor itself. */
  datatype Bundle = Bundle(account: nat, bundleSeq: nat, identityEpoch: nat, keys: IdentityKeys, prev: Option<Bundle>)

  /** A served bundle: whether its own signature verifies, and the key of its second signature, if any. */
  datatype BundleWire = BundleWire(bundle: Bundle, selfSigned: bool, predecessor: Option<nat>)

  datatype SettingsHash = Zeros | HashOf(envelope: nat)

  datatype DeviceKeys = DeviceKeys(ed25519: nat, x25519: nat)

  datatype Certificate = Certificate(account: nat, device: nat, durable: bool, keys: DeviceKeys)

  datatype CertificateWire = CertificateWire(certificate: Certificate, signer: nat, identityEpoch: nat)

  datatype Revocation = Revocation(account: nat, device: nat)

  datatype RevocationWire = RevocationWire(revocation: Revocation, signer: nat)

  datatype AccountState = AccountState(
    account: nat, stateSeq: nat, settingsSeq: nat, settingsHash: SettingsHash, keyEpoch: nat, keyId: nat,
    identityEpoch: nat, bundleHash: Bundle, deviceSet: set<Certificate>, passwordEpoch: nat, rest: nat)

  datatype StateWire = StateWire(state: AccountState, signer: nat)

  datatype Settings = Settings(settingsSeq: nat, envelope: nat)

  datatype AccountKey = AccountKey(epoch: nat, id: nat)

  /** An envelope: the key it was sealed under, the context, and what it holds. */
  datatype Sealed<C, T> = Sealed(key: AccountKey, context: C, content: T)

  function Open<C(==), T>(envelope: Sealed<C, T>, key: AccountKey, context: C): Option<T> {
    if envelope.key == key && envelope.context == context then Some(envelope.content) else None
  }

  datatype IdentitySecret = IdentitySecret(identityEpoch: nat, envelope: Sealed<(nat, nat), IdentityKeys>)

  datatype GrantContext = GrantContext(account: nat, vault: nat, keyEpoch: nat, vaultEpoch: nat)

  datatype SelfGrant = SelfGrant(vault: nat, keyEpoch: nat, vaultEpoch: nat, envelope: Sealed<GrantContext, nat>)

  datatype VaultKey = VaultKey(vault: nat, epoch: nat, key: nat)

  /** The server's answer. */
  datatype View = View(
    bundles: seq<BundleWire>, state: StateWire, certificates: seq<CertificateWire>, revocations: seq<RevocationWire>,
    settings: Option<Settings>, identity: IdentitySecret, selfGrants: seq<SelfGrant>)

  // ---------- the pin ----------

  datatype Pin = Pin(bundle: Bundle, state: AccountState, settings: Option<Settings>)

  datatype Anchor = NewDevice | Enrolled(pin: Pin, confirmed: Option<(nat, IdentityKeys)>)

  datatype ClientError =
    | InvalidServerResponse | IdentityChangeUnconfirmed | Rollback | Fork | AccountKeyRotated
    | PasswordChangedElsewhere | InvalidInput

  // ---------- the bundle chain ----------

  /** The bundle that follows the pinned one, and whether the identity keys changed. */
  function VerifySuccessor(pinned: Bundle, wire: BundleWire): Option<(Bundle, bool)> {
    var next := wire.bundle;
    if !wire.selfSigned || next.account != pinned.account || next.bundleSeq < pinned.bundleSeq then None
    else if next.bundleSeq == pinned.bundleSeq then if next == pinned then Some((next, false)) else None
    else if next.bundleSeq > pinned.bundleSeq + 1 || next.prev != Some(pinned) then None
    else if next.keys != pinned.keys then
      if next.identityEpoch != pinned.identityEpoch + 1 || next.keys.ed25519 == pinned.keys.ed25519 ||
         next.keys.x25519 == pinned.keys.x25519 || wire.predecessor != Some(pinned.keys.ed25519) then None
      else Some((next, true))
    else if next.identityEpoch != pinned.identityEpoch || wire.predecessor.Some? then None
    else Some((next, false))
  }

  function VerifyChain(pinned: Bundle, wires: seq<BundleWire>): Option<(Bundle, bool)>
    decreases |wires|
  {
    if wires == [] then Some((pinned, false))
    else
      var step := VerifySuccessor(pinned, wires[0]);
      if step.None? then None
      else
        var rest := VerifyChain(step.value.0, wires[1..]);
        if rest.None? then None else Some((rest.value.0, step.value.1 || rest.value.1))
  }

  /** `older` is `newer`, or one of the bundles `newer` names as its predecessors. */
  predicate Descends(newer: Bundle, older: Bundle)
    decreases newer
  {
    newer == older || (newer.prev.Some? && Descends(newer.prev.value, older))
  }

  lemma {:induction false} DescendsThrough(newest: Bundle, newer: Bundle, older: Bundle)
    requires Descends(newest, newer) && Descends(newer, older)
    ensures Descends(newest, older)
    decreases newest
  {
    if newest != newer {
      DescendsThrough(newest.prev.value, newer, older);
    }
  }

  /**
   The chain never leaves the pin's branch: its head descends from the pinned bundle, and the identity
   keys are reported as changed exactly when the identity epoch went up; otherwise they are the pinned.
   */
  lemma {:induction false} ChainFollowsThePin(pinned: Bundle, wires: seq<BundleWire>)
    requires VerifyChain(pinned, wires).Some?
    ensures
      var (head, changed) := VerifyChain(pinned, wires).value;
      Descends(head, pinned) && head.account == pinned.account && head.bundleSeq >= pinned.bundleSeq &&
      head.identityEpoch >= pinned.identityEpoch && (changed <==> head.identityEpoch > pinned.identityEpoch) &&
      (!changed ==> head.keys == pinned.keys) && (head.bundleSeq == pinned.bundleSeq ==> head == pinned)
    decreases |wires|
  {
    if wires == [] {
    } else {
      var step := VerifySuccessor(pinned, wires[0]).value;
      ChainFollowsThePin(step.0, wires[1..]);
      var head := VerifyChain(step.0, wires[1..]).value.0;
      assert Descends(step.0, pinned);
      DescendsThrough(head, step.0, pinned);
    }
  }

  // ---------- the state ----------

  predicate IsRollback(state: AccountState, stateSeq: nat, settingsSeq: nat) {
    state.stateSeq < stateSeq || state.settingsSeq < settingsSeq
  }

  predicate IsFork(state: AccountState, persisted: AccountState) {
    state.stateSeq == persisted.stateSeq && state != persisted
  }

  predicate MatchesBundle(state: AccountState, bundle: Bundle) {
    state.account == bundle.account && state.identityEpoch == bundle.identityEpoch && state.bundleHash == bundle
  }

  predicate MatchesKey(state: AccountState, key: AccountKey) {
    key.epoch == state.keyEpoch && key.id == state.keyId
  }

  /** The hash of the settings at a sequence number; none when the two contradict each other. */
  function HashOfSettings(settingsSeq: nat, envelope: Option<nat>): Option<SettingsHash> {
    if settingsSeq == 0 && envelope.None? then Some(Zeros)
    else if settingsSeq > 0 && envelope.Some? then Some(HashOf(envelope.value))
    else None
  }

  /** The settings, or their absence, are the ones the state commits to. */
  predicate SettingsMatch(state: AccountState, settings: Option<Settings>) {
    var envelope := match settings case None => None case Some(s) => Some(s.envelope);
    HashOfSettings(state.settingsSeq, envelope) == Some(state.settingsHash) &&
    (settings.Some? ==> settings.value.settingsSeq == state.settingsSeq)
  }

  /** What is checked as settings: what was served, else the pin's if it has the state's number. */
  function EffectiveSettings(served: Option<Settings>, anchor: Anchor, state: AccountState): Option<Settings> {
    if served.Some? then served
    else if anchor.Enrolled? && anchor.pin.state.settingsSeq == state.settingsSeq then anchor.pin.settings
    else None
  }

  // ---------- devices, grants ----------

  predicate CertificatesVerify(wires: seq<CertificateWire>, account: nat, bundle: Bundle) {
    forall i :: 0 <= i < |wires| ==>
      wires[i].signer == bundle.keys.ed25519 && wires[i].identityEpoch == bundle.identityEpoch &&
      wires[i].certificate.account == account
  }

  predicate RevocationsVerify(wires: seq<RevocationWire>, account: nat, bundle: Bundle) {
    forall i :: 0 <= i < |wires| ==> wires[i].signer == bundle.keys.ed25519 && wires[i].revocation.account == account
  }

  predicate Revoked(revocations: seq<RevocationWire>, device: nat) {
    exists i :: 0 <= i < |revocations| && revocations[i].revocation.device == device
  }

  /** Whether a certificate is of the device set: durable, and not revoked. */
  predicate Member(c: Certificate, revocations: seq<RevocationWire>) {
    c.durable && !Revoked(revocations, c.device)
  }

  /** The signed device set: what its hash is taken of; none when a device has two certificates. */
  function DeviceSet(certificates: seq<CertificateWire>, revocations: seq<RevocationWire>): Option<set<Certificate>> {
    if exists i, j :: 0 <= i < j < |certificates| &&
         certificates[i].certificate.device == certificates[j].certificate.device &&
         Member(certificates[i].certificate, revocations) && Member(certificates[j].certificate, revocations) then None
    else Some(set w | w in certificates && Member(w.certificate, revocations) :: w.certificate)
  }

  function OpenGrant(grant: SelfGrant, account: nat, key: AccountKey, keyEpoch: nat): Option<VaultKey> {
    if grant.keyEpoch != keyEpoch then None
    else
      var content := Open(grant.envelope, key, GrantContext(account, grant.vault, keyEpoch, grant.vaultEpoch));
      if content.None? then None else Some(VaultKey(grant.vault, grant.vaultEpoch, content.value))
  }

  /** The grants opened in order, none when one does not open or a vault is granted twice. */
  function OpenGrants(grants: seq<SelfGrant>, account: nat, key: AccountKey, keyEpoch: nat): Option<seq<VaultKey>> {
    if grants == [] then Some([])
    else
      var last := |grants| - 1;
      var keys := OpenGrants(grants[..last], account, key, keyEpoch);
      var next := OpenGrant(grants[last], account, key, keyEpoch);
      if keys.None? || next.None? || (exists k :: k in keys.value && k.vault == grants[last].vault) then None
      else Some(keys.value + [next.value])
  }

  // ---------- the answer ----------

  datatype PublicAccount = PublicAccount(bundle: Bundle, identityChanged: bool, state: AccountState,
                                         settings: Option<Settings>)

  datatype VerifiedAccount = VerifiedAccount(pin: Pin, identityChanged: bool, vaultKeys: seq<VaultKey>)

  /** The bundle an answer is checked under: the head of the chain from the pin, or the chosen one. */
  function AnchoredBundle(view: View, account: nat, anchor: Anchor, chosen: Option<Bundle>)
    : Result<(Bundle, bool), ClientError>
  {
    match anchor
    case NewDevice => if chosen.Some? then Ok((chosen.value, false)) else Err(InvalidServerResponse)
    case Enrolled(pin, confirmed) =>
      var chain := VerifyChain(pin.bundle, view.bundles);
      if chain.None? || chain.value.0.account != account then Err(InvalidServerResponse)
      else if chain.value.1 && confirmed != Some((account, chain.value.0.keys)) then Err(IdentityChangeUnconfirmed)
      else Ok(chain.value)
  }

  function VerifyPublic(view: View, account: nat, anchor: Anchor,
                        chosen: Option<Bundle>): Result<PublicAccount, ClientError> {
    var anchored := AnchoredBundle(view, account, anchor, chosen);
    if anchored.Err? then Err(anchored.error)
    else
      var (bundle, changed) := anchored.value;
      var state := view.state.state;
      if view.state.signer != bundle.keys.ed25519 ||
          state.identityEpoch != bundle.identityEpoch then Err(InvalidServerResponse)
      else if state.account != account || !MatchesBundle(state, bundle) then Err(InvalidServerResponse)
      else if anchor.Enrolled? &&
          IsRollback(state, anchor.pin.state.stateSeq, anchor.pin.state.settingsSeq) then Err(Rollback)
      else if anchor.Enrolled? && IsFork(state, anchor.pin.state) then Err(Fork)
      else if !CertificatesVerify(view.certificates, account, bundle) ||
          !RevocationsVerify(view.revocations, account, bundle) then
        Err(InvalidServerResponse)
      else if DeviceSet(view.certificates, view.revocations) != Some(state.deviceSet) then Err(InvalidServerResponse)
      else
        var settings := EffectiveSettings(view.settings, anchor, state);
        if !SettingsMatch(state, settings) then Err(InvalidServerResponse)
        else Ok(PublicAccount(bundle, changed, state, settings))
  }

  function OpenIdentity(view: View, account: nat, key: AccountKey): Option<IdentityKeys> {
    Open(view.identity.envelope, key, (account, view.identity.identityEpoch))
  }

  /** A bundle a new device may start from: self-signed, with the keys and the epoch of `E_id`. */
  predicate Candidate(wire: BundleWire, account: nat, identityEpoch: nat, keys: IdentityKeys) {
    wire.selfSigned && wire.bundle.account == account && wire.bundle.identityEpoch == identityEpoch &&
        wire.bundle.keys == keys
  }

  /** The candidate with the highest number; of several, the last served. */
  function HighestCandidate(wires: seq<BundleWire>, account: nat, identityEpoch: nat,
                            keys: IdentityKeys): Option<Bundle> {
    if wires == [] then None
    else
      var last := wires[|wires| - 1];
      var before := HighestCandidate(wires[..|wires| - 1], account, identityEpoch, keys);
      if !Candidate(last, account, identityEpoch, keys) then before
      else if before.Some? && before.value.bundleSeq > last.bundle.bundleSeq then before
      else Some(last.bundle)
  }

  function NewDeviceBundle(view: View, account: nat, key: AccountKey): Option<Bundle> {
    var keys := OpenIdentity(view, account, key);
    if keys.None? then None
    else HighestCandidate(view.bundles, account, view.identity.identityEpoch, keys.value)
  }

  function VerifyAccountView(view: View, account: nat, key: AccountKey,
                             anchor: Anchor): Result<VerifiedAccount, ClientError> {
    var chosen := if anchor.NewDevice? then NewDeviceBundle(view, account, key) else None;
    var public := VerifyPublic(view, account, anchor, chosen);
    if public.Err? then Err(public.error)
    else
      var state := public.value.state;
      var identity := OpenIdentity(view, account, key);
      var grants := OpenGrants(view.selfGrants, account, key, state.keyEpoch);
      if anchor.Enrolled? && state.keyEpoch > key.epoch then Err(AccountKeyRotated)
      else if !MatchesKey(state, key) then Err(InvalidServerResponse)
      else if identity.None? || view.identity.identityEpoch != state.identityEpoch ||
          identity.value != public.value.bundle.keys then
        Err(InvalidServerResponse)
      else if grants.None? then Err(InvalidServerResponse)
      else
        Ok(VerifiedAccount(Pin(public.value.bundle, state, public.value.settings), public.value.identityChanged,
            grants.value))
  }

  // ---------- what a verified answer is ----------

  /** The pinned state commits to the pinned bundle and to the pinned settings. */
  predicate WellPinned(pin: Pin) {
    MatchesBundle(pin.state, pin.bundle) && SettingsMatch(pin.state, pin.settings)
  }

  /** What a newer pin keeps of an older one. */
  predicate Follows(newer: Pin, older: Pin) {
    newer.state.stateSeq >= older.state.stateSeq && newer.state.settingsSeq >= older.state.settingsSeq &&
    (newer.state.stateSeq == older.state.stateSeq ==> newer.state == older.state) &&
    Descends(newer.bundle, older.bundle) && newer.bundle.identityEpoch >= older.bundle.identityEpoch &&
    (newer.bundle.identityEpoch == older.bundle.identityEpoch ==> newer.bundle.keys == older.bundle.keys)
  }

  /** Every answer an enrolled device accepts is well pinned and follows its pin; new identity keys were confirmed. */
  lemma AcceptedAnswersFollow(view: View, account: nat, key: AccountKey, pin: Pin,
                              confirmed: Option<(nat, IdentityKeys)>)
    requires VerifyAccountView(view, account, key, Enrolled(pin, confirmed)).Ok?
    ensures
      var verified := VerifyAccountView(view, account, key, Enrolled(pin, confirmed)).value;
      WellPinned(verified.pin) && Follows(verified.pin, pin) && MatchesKey(verified.pin.state, key) &&
      view.state == StateWire(verified.pin.state, verified.pin.bundle.keys.ed25519) &&
      (verified.identityChanged <==> verified.pin.bundle.identityEpoch > pin.bundle.identityEpoch) &&
      (verified.identityChanged ==> confirmed == Some((account, verified.pin.bundle.keys)))
  {
    ChainFollowsThePin(pin.bundle, view.bundles);
  }

  lemma {:induction false} HighestIsACandidate(wires: seq<BundleWire>, account: nat, identityEpoch: nat,
                                               keys: IdentityKeys)
    ensures
      var r := HighestCandidate(wires, account, identityEpoch, keys);
      (r.None? <==> forall w :: w in wires ==> !Candidate(w, account, identityEpoch, keys)) &&
      (r.Some? ==> (exists w :: w in wires && Candidate(w, account, identityEpoch, keys) && w.bundle == r.value) &&
                   forall w :: w in wires && Candidate(w, account, identityEpoch, keys) ==>
                       w.bundle.bundleSeq <= r.value.bundleSeq)
  {
    if wires == [] {
    } else {
      var before, last := wires[..|wires| - 1], wires[|wires| - 1];
      HighestIsACandidate(before, account, identityEpoch, keys);
      assert forall w :: w in wires <==> w in before || w == last;
    }
  }

  /** The bundle a new device ends on was served, is the state's, and has the keys sealed under its account key. */
  lemma NewDevicesAreAnchored(view: View, account: nat, key: AccountKey)
    requires VerifyAccountView(view, account, key, NewDevice).Ok?
    ensures
      var pin := VerifyAccountView(view, account, key, NewDevice).value.pin;
      WellPinned(pin) && MatchesKey(pin.state, key) &&
      view.identity.envelope == Sealed(key, (account, pin.state.identityEpoch), pin.bundle.keys) &&
      (exists w :: w in view.bundles && w.selfSigned && w.bundle == pin.bundle) &&
      forall w :: w in view.bundles && Candidate(w, account, pin.state.identityEpoch, pin.bundle.keys) ==>
        w.bundle.bundleSeq <= pin.bundle.bundleSeq
  {
    var keys := OpenIdentity(view, account, key).value;
    HighestIsACandidate(view.bundles, account, view.identity.identityEpoch, keys);
  }

  // ---------- when an answer is accepted ----------

  /** One served bundle goes on from the one before it: the same again, or its successor. */
  predicate GoesOn(prev: Bundle, wire: BundleWire) {
    var next := wire.bundle;
    wire.selfSigned &&
    (next == prev ||
     (next.account == prev.account && next.bundleSeq == prev.bundleSeq + 1 && next.prev == Some(prev) &&
      if next.keys == prev.keys then next.identityEpoch == prev.identityEpoch && wire.predecessor.None?
      else next.identityEpoch == prev.identityEpoch + 1 && wire.predecessor == Some(prev.keys.ed25519) &&
           next.keys.ed25519 != prev.keys.ed25519 && next.keys.x25519 != prev.keys.x25519))
  }

  function BundleAt(pinned: Bundle, wires: seq<BundleWire>, i: nat): Bundle
    requires i <= |wires|
  {
    if i == 0 then pinned else wires[i - 1].bundle
  }

  /** The served bundles lead from the pinned one to `head`, each going on from the one before. */
  ghost predicate LeadsTo(pinned: Bundle, wires: seq<BundleWire>, head: Bundle) {
    head == BundleAt(pinned, wires, |wires|) &&
    forall i :: 0 <= i < |wires| ==> GoesOn(BundleAt(pinned, wires, i), wires[i])
  }

  lemma {:induction false} ChainLeads(pinned: Bundle, wires: seq<BundleWire>, head: Bundle)
    ensures LeadsTo(pinned, wires, head) <==>
            VerifyChain(pinned, wires).Some? && VerifyChain(pinned, wires).value.0 == head
    decreases |wires|
  {
    if wires != [] {
      var rest, next := wires[1..], wires[0].bundle;
      ChainLeads(next, rest, head);
      assert GoesOn(pinned, wires[0]) <==> VerifySuccessor(pinned, wires[0]).Some?;
      assert VerifySuccessor(pinned, wires[0]).Some? ==> VerifySuccessor(pinned, wires[0]).value.0 == next;
      assert forall i :: 0 <= i <= |rest| ==> BundleAt(next, rest, i) == BundleAt(pinned, wires, i + 1);
      if LeadsTo(pinned, wires, head) {
        forall i | 0 <= i < |rest|
          ensures GoesOn(BundleAt(next, rest, i), rest[i])
        {
          assert GoesOn(BundleAt(pinned, wires, i + 1), wires[i + 1]);
        }
        assert GoesOn(BundleAt(pinned, wires, 0), wires[0]);
      }
      if GoesOn(pinned, wires[0]) && LeadsTo(next, rest, head) {
        forall i | 0 <= i < |wires|
          ensures GoesOn(BundleAt(pinned, wires, i), wires[i])
        {
          assert i > 0 ==> GoesOn(BundleAt(next, rest, i - 1), rest[i - 1]);
        }
      }
    }
  }

  /** A certificate of the signed set: served, durable, and its device not named by a served revocation. */
  predicate IsListed(view: View, c: Certificate) {
    c.durable && (exists i :: 0 <= i < |view.certificates| && view.certificates[i].certificate == c) &&
    forall r :: r in view.revocations ==> r.revocation.device != c.device
  }

  /** The signed set is the one of the served devices, and no device is in it twice. */
  ghost predicate SetIsServed(view: View, signed: set<Certificate>) {
    (forall c :: c in signed <==> IsListed(view, c)) &&
    forall i, j :: 0 <= i < j < |view.certificates| && IsListed(view, view.certificates[i].certificate) &&
                   IsListed(view, view.certificates[j].certificate) ==>
                     view.certificates[i].certificate.device != view.certificates[j].certificate.device
  }

  lemma MemberIsListed(view: View, i: nat)
    requires i < |view.certificates|
    ensures Member(view.certificates[i].certificate, view.revocations) <==>
              IsListed(view, view.certificates[i].certificate)
  {
    var c := view.certificates[i].certificate;
    if Revoked(view.revocations, c.device) {
      var k :| 0 <= k < |view.revocations| && view.revocations[k].revocation.device == c.device;
      assert view.revocations[k] in view.revocations;
    }
  }

  lemma DeviceSetIsServed(view: View, signed: set<Certificate>)
    ensures DeviceSet(view.certificates, view.revocations) == Some(signed) <==> SetIsServed(view, signed)
  {
    var wires, revocations := view.certificates, view.revocations;
    forall i | 0 <= i < |wires|
      ensures Member(wires[i].certificate, revocations) <==> IsListed(view, wires[i].certificate)
    {
      MemberIsListed(view, i);
    }
    assert forall c :: IsListed(view, c) ==> exists i :: 0 <= i < |wires| && wires[i].certificate == c;
    hide Member, IsListed;
    var members := set w | w in wires && Member(w.certificate, revocations) :: w.certificate;
    forall c
      ensures c in members <==> IsListed(view, c)
    {
      if IsListed(view, c) {
        var i :| 0 <= i < |wires| && wires[i].certificate == c;
        assert wires[i] in wires;
      }
    }
    assert members == signed <==> forall c :: c in signed <==> IsListed(view, c);
    assert (exists i, j :: 0 <= i < j < |wires| && wires[i].certificate.device == wires[j].certificate.device &&
                           Member(wires[i].certificate, revocations) && Member(wires[j].certificate, revocations)) <==>
           exists i, j :: 0 <= i < j < |wires| && wires[i].certificate.device == wires[j].certificate.device &&
                          IsListed(view, wires[i].certificate) && IsListed(view, wires[j].certificate);
  }

  /** The settings the state commits to: none at number zero, else the envelope with its number. */
  predicate Commits(state: AccountState, settings: Option<Settings>) {
    match settings
    case None => state.settingsSeq == 0 && state.settingsHash == Zeros
    case Some(s) => state.settingsSeq == s.settingsSeq > 0 && state.settingsHash == HashOf(s.envelope)
  }

  /** The anchor of the answer: from the pin, with changed keys confirmed; or the newest bundle with the sealed keys. */
  ghost predicate AnchoredAt(view: View, account: nat, key: AccountKey, anchor: Anchor, bundle: Bundle) {
    match anchor
    case NewDevice =>
      exists i :: 0 <= i < |view.bundles| && view.bundles[i].bundle == bundle && IsNewest(view, account, key, i)
    case Enrolled(pin, confirmed) =>
      LeadsTo(pin.bundle, view.bundles, bundle) && bundle.account == account &&
      (bundle.identityEpoch > pin.bundle.identityEpoch ==> confirmed == Some((account, bundle.keys)))
  }

  /** The served bundle at `i` has the keys sealed under the account key; none with them has a higher number. */
  ghost predicate IsNewest(view: View, account: nat, key: AccountKey, i: nat)
    requires i < |view.bundles|
  {
    HasSealedKeys(view, account, key, view.bundles[i]) &&
    forall j :: 0 <= j < |view.bundles| && HasSealedKeys(view, account, key, view.bundles[j]) ==>
      view.bundles[j].bundle.bundleSeq <= view.bundles[i].bundle.bundleSeq &&
      (j > i ==> view.bundles[j].bundle.bundleSeq < view.bundles[i].bundle.bundleSeq)
  }

  predicate HasSealedKeys(view: View, account: nat, key: AccountKey, wire: BundleWire) {
    wire.selfSigned && wire.bundle.account == account && wire.bundle.identityEpoch == view.identity.identityEpoch &&
    view.identity.envelope == Sealed(key, (account, view.identity.identityEpoch), wire.bundle.keys)
  }

  lemma {:induction false} HighestIsTheLast(view: View, account: nat, key: AccountKey, keys: IdentityKeys, n: nat)
    requires n <= |view.bundles| && OpenIdentity(view, account, key) == Some(keys)
    ensures
      var r := HighestCandidate(view.bundles[..n], account, view.identity.identityEpoch, keys);
      (r.None? <==> forall j :: 0 <= j < n ==> !HasSealedKeys(view, account, key, view.bundles[j])) &&
      (r.Some? ==> exists i :: 0 <= i < n && view.bundles[i].bundle == r.value &&
                               HasSealedKeys(view, account, key, view.bundles[i]) &&
                               IsNewestOf(view, account, key, i, n))
  {
    var wires := view.bundles[..n];
    if n > 0 {
      assert wires[..n - 1] == view.bundles[..n - 1];
      HighestIsTheLast(view, account, key, keys, n - 1);
      var last := view.bundles[n - 1];
      var before := HighestCandidate(view.bundles[..n - 1], account, view.identity.identityEpoch, keys);
      assert Candidate(last, account, view.identity.identityEpoch, keys) <==> HasSealedKeys(view, account, key, last);
      if before.Some? {
        var i :| 0 <= i < n - 1 && view.bundles[i].bundle == before.value &&
          HasSealedKeys(view, account, key, view.bundles[i]) && IsNewestOf(view, account, key, i, n - 1);
        if !HasSealedKeys(view, account, key, last) || before.value.bundleSeq > last.bundle.bundleSeq {
          assert IsNewestOf(view, account, key, i, n);
        } else {
          assert IsNewestOf(view, account, key, n - 1, n);
        }
      } else if HasSealedKeys(view, account, key, last) {
        assert IsNewestOf(view, account, key, n - 1, n);
      }
    }
  }

  ghost predicate IsNewestOf(view: View, account: nat, key: AccountKey, i: nat, n: nat)
    requires i < n <= |view.bundles|
  {
    forall j :: 0 <= j < n && HasSealedKeys(view, account, key, view.bundles[j]) ==>
      view.bundles[j].bundle.bundleSeq <= view.bundles[i].bundle.bundleSeq &&
      (j > i ==> view.bundles[j].bundle.bundleSeq < view.bundles[i].bundle.bundleSeq)
  }

  lemma NewDeviceIsAnchored(view: View, account: nat, key: AccountKey, bundle: Bundle)
    ensures NewDeviceBundle(view, account, key) == Some(bundle) <==> AnchoredAt(view, account, key, NewDevice, bundle)
  {
    var keys, r := OpenIdentity(view, account, key), NewDeviceBundle(view, account, key);
    if keys.Some? {
      assert view.bundles[..|view.bundles|] == view.bundles;
      HighestIsTheLast(view, account, key, keys.value, |view.bundles|);
    }
    if r.Some? {
      var k :| 0 <= k < |view.bundles| && view.bundles[k].bundle == r.value &&
        HasSealedKeys(view, account, key, view.bundles[k]) && IsNewestOf(view, account, key, k, |view.bundles|);
      assert IsNewest(view, account, key, k);
      NewestIsOne(view, account, key, k);
      forall i | 0 <= i < |view.bundles| && IsNewest(view, account, key, i)
        ensures view.bundles[i].bundle == r.value
      {
      }
      assert bundle == r.value ==> view.bundles[k].bundle == bundle;
    }
  }

  lemma NewestIsOne(view: View, account: nat, key: AccountKey, k: nat)
    requires k < |view.bundles| && IsNewest(view, account, key, k)
    ensures forall i :: 0 <= i < |view.bundles| && IsNewest(view, account, key, i) ==> i == k
  {
    forall i | 0 <= i < |view.bundles| && IsNewest(view, account, key, i)
      ensures i == k
    {
      assert HasSealedKeys(view, account, key, view.bundles[i]) && HasSealedKeys(view, account, key, view.bundles[k]);
    }
  }

  /** The signed part: the state is the bundle's, everything is signed by its identity key, and nothing went back. */
  ghost predicate PublicHolds(view: View, account: nat, anchor: Anchor, pin: Pin) {
    var state, signer := pin.state, pin.bundle.keys.ed25519;
    view.state == StateWire(state, signer) && state.account == account && state.bundleHash == pin.bundle &&
    pin.bundle.account == account && state.identityEpoch == pin.bundle.identityEpoch &&
    (anchor.Enrolled? ==>
       anchor.pin.state.stateSeq <= state.stateSeq && anchor.pin.state.settingsSeq <= state.settingsSeq &&
       (anchor.pin.state.stateSeq == state.stateSeq ==> state == anchor.pin.state)) &&
    (forall w :: w in view.certificates ==>
       w.signer == signer && w.identityEpoch == state.identityEpoch && w.certificate.account == account) &&
    (forall r :: r in view.revocations ==> r.signer == signer && r.revocation.account == account) &&
    SetIsServed(view, state.deviceSet) &&
    Commits(state, pin.settings) &&
    pin.settings == if view.settings.Some? then view.settings
                    else if anchor.Enrolled? && anchor.pin.state.settingsSeq == state.settingsSeq
                    then anchor.pin.settings else None
  }

  /** The sealed part: what the account key opens is the identity, and one key for each vault. */
  predicate SealedHolds(view: View, account: nat, key: AccountKey, pin: Pin, vaultKeys: seq<VaultKey>) {
    key == AccountKey(pin.state.keyEpoch, pin.state.keyId) &&
    view.identity.identityEpoch == pin.state.identityEpoch &&
    view.identity.envelope == Sealed(key, (account, pin.state.identityEpoch), pin.bundle.keys) &&
    |vaultKeys| == |view.selfGrants| &&
    (forall i :: 0 <= i < |vaultKeys| ==> GrantHolds(view.selfGrants[i], account, key, vaultKeys[i])) &&
    forall i, j :: 0 <= i < j < |vaultKeys| ==> vaultKeys[i].vault != vaultKeys[j].vault
  }

  predicate GrantHolds(grant: SelfGrant, account: nat, key: AccountKey, vaultKey: VaultKey) {
    grant.keyEpoch == key.epoch && vaultKey.vault == grant.vault && vaultKey.epoch == grant.vaultEpoch &&
    grant.envelope == Sealed(key, GrantContext(account, grant.vault, key.epoch, grant.vaultEpoch), vaultKey.key)
  }

  lemma {:induction false} GrantsHold(grants: seq<SelfGrant>, account: nat, key: AccountKey, keys: seq<VaultKey>)
    ensures OpenGrants(grants, account, key, key.epoch) == Some(keys) <==>
            |keys| == |grants| && (forall i :: 0 <= i < |keys| ==> GrantHolds(grants[i], account, key, keys[i])) &&
            forall i, j :: 0 <= i < j < |keys| ==> keys[i].vault != keys[j].vault
    decreases |grants|
  {
    if grants != [] && keys != [] {
      var n := |grants| - 1;
      GrantsHold(grants[..n], account, key, keys[..|keys| - 1]);
      assert keys == keys[..|keys| - 1] + [keys[|keys| - 1]];
      var before := OpenGrants(grants[..n], account, key, key.epoch);
      assert before.Some? && before.value != keys[..|keys| - 1] ==>
        OpenGrants(grants, account, key, key.epoch) != Some(keys);
    }
  }

  /** New identity keys: the identity epoch went up from the pinned one. */
  predicate KeysChanged(anchor: Anchor, bundle: Bundle) {
    anchor.Enrolled? && bundle.identityEpoch > anchor.pin.bundle.identityEpoch
  }

  function Chosen(view: View, account: nat, key: AccountKey, anchor: Anchor): Option<Bundle> {
    if anchor.NewDevice? then NewDeviceBundle(view, account, key) else None
  }

  lemma AnchorIs(view: View, account: nat, key: AccountKey, anchor: Anchor, bundle: Bundle, changed: bool)
    ensures AnchoredBundle(view, account, anchor, Chosen(view, account, key, anchor)) == Ok((bundle, changed)) <==>
            AnchoredAt(view, account, key, anchor, bundle) && changed == KeysChanged(anchor, bundle)
  {
    match anchor
    case NewDevice => NewDeviceIsAnchored(view, account, key, bundle);
    case Enrolled(pin, _) =>
      ChainLeads(pin.bundle, view.bundles, bundle);
      if VerifyChain(pin.bundle, view.bundles).Some? {
        ChainFollowsThePin(pin.bundle, view.bundles);
      }
  }

  lemma SettingsAre(state: AccountState, settings: Option<Settings>)
    ensures SettingsMatch(state, settings) <==> Commits(state, settings)
  {
  }

  lemma SignedAre(view: View, account: nat, bundle: Bundle)
    ensures CertificatesVerify(view.certificates, account, bundle) <==>
            forall w :: w in view.certificates ==>
              w.signer == bundle.keys.ed25519 && w.identityEpoch == bundle.identityEpoch &&
              w.certificate.account == account
    ensures RevocationsVerify(view.revocations, account, bundle) <==>
            forall r :: r in view.revocations ==> r.signer == bundle.keys.ed25519 && r.revocation.account == account
  {
    if CertificatesVerify(view.certificates, account, bundle) {
      forall w | w in view.certificates
        ensures w.signer == bundle.keys.ed25519 && w.identityEpoch == bundle.identityEpoch &&
              w.certificate.account == account
      {
        var i :| 0 <= i < |view.certificates| && view.certificates[i] == w;
      }
    }
    if RevocationsVerify(view.revocations, account, bundle) {
      forall r | r in view.revocations
        ensures r.signer == bundle.keys.ed25519 && r.revocation.account == account
      {
        var i :| 0 <= i < |view.revocations| && view.revocations[i] == r;
      }
    }
  }

  lemma PublicIs(view: View, account: nat, key: AccountKey, anchor: Anchor, public: PublicAccount)
    ensures VerifyPublic(view, account, anchor, Chosen(view, account, key, anchor)) == Ok(public) <==>
            AnchoredAt(view, account, key, anchor, public.bundle) &&
            public.identityChanged == KeysChanged(anchor, public.bundle) &&
            PublicHolds(view, account, anchor, Pin(public.bundle, public.state, public.settings))
  {
    AnchorIs(view, account, key, anchor, public.bundle, public.identityChanged);
    SignedAre(view, account, public.bundle);
    DeviceSetIsServed(view, public.state.deviceSet);
    SettingsAre(public.state, public.settings);
    hide AnchoredBundle, AnchoredAt, CertificatesVerify, RevocationsVerify, DeviceSet, SetIsServed, SettingsMatch,
        Commits,
         KeysChanged, Chosen;
    var anchored := AnchoredBundle(view, account, anchor, Chosen(view, account, key, anchor));
    var pin := Pin(public.bundle, public.state, public.settings);
    if VerifyPublic(view, account, anchor, Chosen(view, account, key, anchor)) == Ok(public) {
      assert anchored.Ok? && anchored.value.0 == public.bundle;
      assert anchored.value.1 == public.identityChanged;
      assert anchored.value == (public.bundle, public.identityChanged);
      assert PublicHolds(view, account, anchor, pin);
    }
    if anchored == Ok((public.bundle, public.identityChanged)) && PublicHolds(view, account, anchor, pin) {
      assert MatchesBundle(public.state, public.bundle);
      assert CertificatesVerify(view.certificates, account, public.bundle);
      assert EffectiveSettings(view.settings, anchor, public.state) == public.settings;
    }
  }

  /**
   An answer is accepted, with this result, if and only if it is anchored, everything in it is signed and fits
   together, nothing went back, and the account key opens all that is sealed.
   */
  lemma AcceptedExactly(view: View, account: nat, key: AccountKey, anchor: Anchor, verified: VerifiedAccount)
    ensures VerifyAccountView(view, account, key, anchor) == Ok(verified) <==>
            AnchoredAt(view, account, key, anchor, verified.pin.bundle) &&
            verified.identityChanged == KeysChanged(anchor, verified.pin.bundle) &&
            PublicHolds(view, account, anchor, verified.pin) &&
            SealedHolds(view, account, key, verified.pin, verified.vaultKeys)
  {
    var pin := verified.pin;
    PublicIs(view, account, key, anchor, PublicAccount(pin.bundle, verified.identityChanged, pin.state, pin.settings));
    GrantsHold(view.selfGrants, account, key, verified.vaultKeys);
    var public := VerifyPublic(view, account, anchor, Chosen(view, account, key, anchor));
    if public.Ok? {
      PublicIs(view, account, key, anchor, public.value);
    }
    hide AnchoredAt, PublicHolds, VerifyPublic, OpenGrants, KeysChanged, GrantHolds;
  }

  /** What each alarm of an enrolled device means: it is raised if and only if this is what the server served. */
  lemma AlarmsMean(view: View, account: nat, key: AccountKey, pin: Pin, confirmed: Option<(nat, IdentityKeys)>,
                   head: Bundle)
    requires LeadsTo(pin.bundle, view.bundles, head) && head.account == account
    ensures
      var r := VerifyAccountView(view, account, key, Enrolled(pin, confirmed));
      var state := view.state.state;
      var unconfirmed := head.identityEpoch > pin.bundle.identityEpoch && confirmed != Some((account, head.keys));
      var signed := !unconfirmed && view.state.signer == head.keys.ed25519 && state.account == account &&
        state.bundleHash == head && state.identityEpoch == head.identityEpoch;
      (r == Err(IdentityChangeUnconfirmed) <==> unconfirmed) &&
      (r == Err(Rollback) <==>
         signed && (state.stateSeq < pin.state.stateSeq || state.settingsSeq < pin.state.settingsSeq)) &&
      (r == Err(Fork) <==>
         signed && state.stateSeq == pin.state.stateSeq && state.settingsSeq >= pin.state.settingsSeq &&
         state != pin.state)
  {
    ChainLeads(pin.bundle, view.bundles, head);
    ChainFollowsThePin(pin.bundle, view.bundles);
    hide VerifyChain, LeadsTo, DeviceSet, SettingsMatch, CertificatesVerify, RevocationsVerify, OpenGrants, Descends;
  }

  // ---------- settings left out ----------

  /** The number the device asks with: its pinned one, only while it holds those settings. */
  function KnownSettings(pin: Pin): nat {
    if pin.settings.Some? && pin.settings.value.settingsSeq == pin.state.settingsSeq then pin.state.settingsSeq else 0
  }

  /** What an honest server serves: the current settings, unless the device said it holds them. */
  function ServedSettings(stored: Option<Settings>, state: AccountState, known: nat): Option<Settings> {
    if stored.Some? && stored.value.settingsSeq == state.settingsSeq && known != state.settingsSeq then stored else None
  }

  /**
   Leaving the settings out gives the same result as serving them, exactly when the state commits to the
   settings that are pinned.
   */
  lemma LeavingOutIsServing(view: View, account: nat, key: AccountKey, pin: Pin, confirmed: Option<(nat, IdentityKeys)>)
    requires WellPinned(pin) && view.settings.Some?
    requires VerifyAccountView(view, account, key, Enrolled(pin, confirmed)).Ok?
    ensures
      var without := view.(settings := None);
      var state := view.state.state;
      VerifyAccountView(without, account, key, Enrolled(pin, confirmed))
          == VerifyAccountView(view, account, key, Enrolled(pin, confirmed))
      <==> state.settingsSeq == pin.state.settingsSeq && state.settingsHash == pin.state.settingsHash
  {
  }

  /**
   An honest server's choice is always enough: where its settings are the state's, and one number never
   stands for two settings, the settings it serves or leaves out match the state.
   */
  lemma HonestChoiceMatches(stored: Option<Settings>, state: AccountState, pin: Pin,
                            confirmed: Option<(nat, IdentityKeys)>)
    requires WellPinned(pin) && SettingsMatch(state, stored)
    requires state.settingsSeq == pin.state.settingsSeq ==> state.settingsHash == pin.state.settingsHash
    ensures SettingsMatch(state,
              EffectiveSettings(ServedSettings(stored, state, KnownSettings(pin)), Enrolled(pin, confirmed), state))
  {
  }

  // ---------- the device ----------

  /** What an unlock opened: whose it is, and the keys in it. */
  datatype Unlocked = Unlocked(account: nat, device: nat, accountKey: AccountKey, keys: DeviceKeys)

  /** The device is of the signed set, under its own keys. */
  predicate IsMember(view: View, unlocked: Unlocked) {
    !Revoked(view.revocations, unlocked.device) &&
    exists i :: 0 <= i < |view.certificates| &&
      var c := view.certificates[i].certificate;
      c.device == unlocked.device && c.keys.ed25519 == unlocked.keys.ed25519 && c.keys.x25519 == unlocked.keys.x25519
  }

  /** A certificate of the device carries its own keys, and no revocation names it. */
  predicate NamesDevice(view: View, unlocked: Unlocked) {
    (exists w :: w in view.certificates && w.certificate.device == unlocked.device &&
        w.certificate.keys == unlocked.keys) &&
    forall r :: r in view.revocations ==> r.revocation.device != unlocked.device
  }

  lemma NamedIsMember(view: View, unlocked: Unlocked)
    ensures IsMember(view, unlocked) <==> NamesDevice(view, unlocked)
  {
    if NamesDevice(view, unlocked) {
      var w :| w in view.certificates && w.certificate.device == unlocked.device && w.certificate.keys == unlocked.keys;
      var i :| 0 <= i < |view.certificates| && view.certificates[i] == w;
      assert view.certificates[i].certificate.device == unlocked.device;
    } else if !Revoked(view.revocations, unlocked.device) {
      assert forall i :: 0 <= i < |view.certificates| ==> view.certificates[i] in view.certificates;
      assert forall r :: r in view.revocations ==> r.revocation.device != unlocked.device;
    } else {
      assert !IsMember(view, unlocked);
    }
  }

  class Device {
    const account: nat
    const id: nat
    var pin: Pin
    var localPasswordEpoch: nat

    constructor (account: nat, id: nat, pin: Pin, localPasswordEpoch: nat)
      ensures this.account == account && this.id == id
      ensures this.pin == pin && this.localPasswordEpoch == localPasswordEpoch
    {
      this.account, this.id := account, id;
      this.pin, this.localPasswordEpoch := pin, localPasswordEpoch;
    }

    predicate IsOwn(unlocked: Unlocked) {
      unlocked.account == account && unlocked.device == id
    }

    /** What the public and the sealed part of the answer say to this device. */
    function Verified(unlocked: Unlocked, view: View,
                      confirmed: Option<(nat, IdentityKeys)>): Result<VerifiedAccount, ClientError>
      reads this`pin
    {
      VerifyAccountView(view, account, unlocked.accountKey, Enrolled(pin, confirmed))
    }

    /** The answer is anchored at the pin, holds in its signed and its sealed part, and says this. */
    ghost predicate Acceptable(unlocked: Unlocked, view: View, confirmed: Option<(nat, IdentityKeys)>,
                               v: VerifiedAccount)
      reads this`pin
    {
      var anchor := Enrolled(pin, confirmed);
      AnchoredAt(view, account, unlocked.accountKey, anchor, v.pin.bundle) &&
      v.identityChanged == KeysChanged(anchor, v.pin.bundle) &&
      PublicHolds(view, account, anchor, v.pin) &&
      SealedHolds(view, account, unlocked.accountKey, v.pin, v.vaultKeys)
    }

    /** Adopts a verified answer as the new pin; its rollback check makes the guard always pass. */
    method Adopt(verified: VerifiedAccount)
      requires Follows(verified.pin, pin)
      modifies this`pin
      ensures pin == verified.pin
    {
      if verified.pin.state.stateSeq >= pin.state.stateSeq {
        pin := verified.pin;
      }
    }

    /**
     One unlock. The pin moves on exactly when the answer is verified and names the device, a newer password or
     not.
     */
    method VerifyUnlock(unlocked: Unlocked, view: View, confirmed: Option<(nat, IdentityKeys)>)
      returns (r: Result<VerifiedAccount, ClientError>)
      requires WellPinned(pin)
      modifies this`pin
      ensures WellPinned(pin) && (pin == old(pin) || Follows(pin, old(pin)))
      ensures r == Err(InvalidInput) <==> !IsOwn(unlocked)
      ensures IsOwn(unlocked) && old(Verified(unlocked, view, confirmed)).Err? ==>
                r == Err(old(Verified(unlocked, view, confirmed)).error) && pin == old(pin)
      ensures IsOwn(unlocked) && old(Verified(unlocked, view, confirmed)).Ok? && !IsMember(view, unlocked) ==>
                r == Err(InvalidServerResponse) && pin == old(pin)
      ensures !IsOwn(unlocked) ==> pin == old(pin)
      ensures IsOwn(unlocked) && old(Verified(unlocked, view, confirmed)).Ok? && IsMember(view, unlocked) ==>
                var verified := old(Verified(unlocked, view, confirmed)).value;
                && pin == verified.pin && view.state == StateWire(pin.state, pin.bundle.keys.ed25519)
                && (r.Ok? <==> pin.state.passwordEpoch <= localPasswordEpoch)
                && r == if r.Ok? then Ok(verified) else Err(PasswordChangedElsewhere)
      ensures pin.bundle.keys != old(pin).bundle.keys ==> confirmed == Some((account, pin.bundle.keys))
      ensures forall v :: r == Ok(v) <==>
                          IsOwn(unlocked) && old(Acceptable(unlocked, view, confirmed, v)) &&
                          NamesDevice(view, unlocked) && v.pin.state.passwordEpoch <= localPasswordEpoch
      ensures pin != old(pin) ==>
                exists v :: old(Acceptable(unlocked, view, confirmed, v)) && pin == v.pin && NamesDevice(view, unlocked)
    {
      NamedIsMember(view, unlocked);
      forall v: VerifiedAccount
        ensures Acceptable(unlocked, view, confirmed, v) <==> Verified(unlocked, view, confirmed) == Ok(v)
      {
        AcceptedExactly(view, account, unlocked.accountKey, Enrolled(pin, confirmed), v);
      }
      hide Acceptable;
      if !IsOwn(unlocked) {
        return Err(InvalidInput);
      }
      var verified := Verified(unlocked, view, confirmed);
      if verified.Err? {
        return Err(verified.error);
      }
      AcceptedAnswersFollow(view, account, unlocked.accountKey, pin, confirmed);
      if !IsMember(view, unlocked) {
        return Err(InvalidServerResponse);
      }
      Adopt(verified.value);
      if verified.value.pin.state.passwordEpoch > localPasswordEpoch {
        return Err(PasswordChangedElsewhere);
      }
      return Ok(verified.value);
    }
  }

  lemma FollowsIsTransitive(a: Pin, b: Pin, c: Pin)
    requires Follows(a, b) && Follows(b, c)
    ensures Follows(a, c)
  {
    DescendsThrough(a.bundle, b.bundle, c.bundle);
  }

  /** Against any sequence of answers, whatever the server says: the pin only ever goes on from itself. */
  method AnswerAll(device: Device, unlocked: seq<Unlocked>, views: seq<View>,
                   confirmed: seq<Option<(nat, IdentityKeys)>>)
    requires WellPinned(device.pin) && |unlocked| == |confirmed| == |views|
    modifies device`pin
    ensures WellPinned(device.pin) && Follows(device.pin, old(device.pin))
  {
    var i := 0;
    while i < |views|
      invariant 0 <= i <= |views| && WellPinned(device.pin) && Follows(device.pin, old(device.pin))
    {
      ghost var before := device.pin;
      var r := device.VerifyUnlock(unlocked[i], views[i], confirmed[i]);
      if device.pin != before {
        FollowsIsTransitive(device.pin, before, old(device.pin));
      }
      i := i + 1;
    }
  }

  // ---------- vault keys ----------

  /** `open_self_grants`: each grant is opened in order, and no vault is granted twice. */
  method OpenSelfGrants(grants: seq<SelfGrant>, account: nat, key: AccountKey, keyEpoch: nat)
    returns (r: Option<seq<VaultKey>>)
    ensures r == OpenGrants(grants, account, key, keyEpoch)
  {
    var keys: seq<VaultKey> := [];
    var i := 0;
    while i < |grants|
      invariant 0 <= i <= |grants| && OpenGrants(grants[..i], account, key, keyEpoch) == Some(keys)
    {
      var grant := grants[i];
      assert grants[..i + 1][..i] == grants[..i];
      var next := OpenGrant(grant, account, key, keyEpoch);
      if next.None? || (exists k :: k in keys && k.vault == grant.vault) {
        NoneStaysNone(grants, i + 1, account, key, keyEpoch);
        return None;
      }
      keys := keys + [next.value];
      i := i + 1;
    }
    assert grants[..i] == grants;
    return Some(keys);
  }

  lemma {:induction false} NoneStaysNone(grants: seq<SelfGrant>, n: nat, account: nat, key: AccountKey, keyEpoch: nat)
    requires n <= |grants| && OpenGrants(grants[..n], account, key, keyEpoch).None?
    ensures OpenGrants(grants, account, key, keyEpoch).None?
    decreases |grants| - n
  {
    if n == |grants| {
      assert grants[..n] == grants;
    } else {
      assert grants[..n + 1][..n] == grants[..n];
      NoneStaysNone(grants, n + 1, account, key, keyEpoch);
    }
  }

  /** Opened grants give one key per vault, each sealed for this account at the state's epoch. */
  lemma {:induction false} OneKeyPerVault(grants: seq<SelfGrant>, account: nat, key: AccountKey, keyEpoch: nat)
    requires OpenGrants(grants, account, key, keyEpoch).Some?
    ensures
      var keys := OpenGrants(grants, account, key, keyEpoch).value;
      |keys| == |grants| && (forall i, j :: 0 <= i < j < |keys| ==> keys[i].vault != keys[j].vault) &&
      forall i :: 0 <= i < |keys| ==>
        grants[i].envelope == Sealed(key, GrantContext(account, keys[i].vault, keyEpoch, keys[i].epoch), keys[i].key)
  {
    if grants == [] {
    } else {
      OneKeyPerVault(grants[..|grants| - 1], account, key, keyEpoch);
    }
  }

  /** Takes the key of a vault out: the last one takes its place. */
  method TakeVaultKey(keys: seq<VaultKey>, vault: nat) returns (taken: Option<VaultKey>, left: seq<VaultKey>)
    requires forall i, j :: 0 <= i < j < |keys| ==> keys[i].vault != keys[j].vault
    ensures taken.None? <==> forall k :: k in keys ==> k.vault != vault
    ensures taken.None? ==> left == keys
    ensures taken.Some? ==> taken.value.vault == vault && multiset(keys) == multiset(left) + multiset{taken.value}
    ensures forall k :: k in left ==> k.vault != vault
  {
    var at := 0;
    while at < |keys| && keys[at].vault != vault
      invariant 0 <= at <= |keys| && forall i :: 0 <= i < at ==> keys[i].vault != vault
    {
      at := at + 1;
    }
    if at == |keys| {
      return None, keys;
    }
    taken := Some(keys[at]);
    left := SwapRemove(keys, at);
    SwapRemoved(keys, at);
  }

  function SwapRemove<T>(s: seq<T>, at: nat): seq<T>
    requires at < |s|
  {
    if at == |s| - 1 then s[..at] else s[..|s| - 1][at := s[|s| - 1]]
  }

  lemma SwapRemoveMultiset<T>(s: seq<T>, at: nat)
    requires at < |s|
    ensures multiset(s) == multiset(SwapRemove(s, at)) + multiset{s[at]}
  {
    var last := |s| - 1;
    var front := s[..last];
    assert s == front + [s[last]];
    if at < last {
      var before, after := front[..at], front[at + 1..];
      assert front == before + [s[at]] + after && SwapRemove(s, at) == before + [s[last]] + after;
      assert multiset(s) == multiset(before) + multiset{s[at]} + multiset(after) + multiset{s[last]};
    }
  }

  lemma SwapRemoved(keys: seq<VaultKey>, at: nat)
    requires at < |keys| && forall i, j :: 0 <= i < j < |keys| ==> keys[i].vault != keys[j].vault
    ensures multiset(keys) == multiset(SwapRemove(keys, at)) + multiset{keys[at]}
    ensures forall k :: k in SwapRemove(keys, at) ==> k.vault != keys[at].vault
  {
    SwapRemoveMultiset(keys, at);
    var left := SwapRemove(keys, at);
    forall i | 0 <= i < |left|
      ensures left[i].vault != keys[at].vault
    {
      assert left[i] == if i == at then keys[|keys| - 1] else keys[i];
    }
  }
}
