/** What a verdict of `ProofVerifier` (`src/proof/index.ts`) says about the bundle and its signer, spelled out
    check by check. */
module ProofBinding {
  import opened Common
  import opened Canonical
  import opened Merkle
  import opened Signing
  import opened Trace
  import opened Proof

  /** The key's signature of `signed` does not pass for another text. */
  ghost predicate NotForged(scheme: SignatureScheme, secretKey: string, text: string, signed: string) {
    scheme.verify(text, scheme.sign(signed, secretKey), scheme.publicKeyOf(secretKey)) ==> text == signed
  }

  // ---------- The signed text has every field ----------

  lemma MemberSame(ms: seq<Member>, ns: seq<Member>, i: nat)
    requires SameUpToKeyOrder(Obj(ms), Obj(ns)) && i < |ms| && i < |ns| && ms[i].key == ns[i].key
    ensures SameUpToKeyOrder(ms[i].value, ns[i].value)
  {}

  lemma TextsSame(x: string, y: string)
    requires SameUpToKeyOrder(Str(x), Str(y))
    ensures x == y
  {}

  lemma NumbersSame(x: int, y: int)
    requires SameUpToKeyOrder(Num(x), Num(y))
    ensures x == y
  {}

  function CheckpointJson(cp: CheckpointRef): Json {
    Obj([Member("seq", Num(cp.seqNo)), Member("hash", Str(cp.hash)), Member("sig", Str(cp.sig))])
  }

  function AttestationJson(a: Attestation): Json {
    Obj([Member("type", Str(a.kind)), Member("value", Str(a.value))])
  }

  function CheckpointsJson(cps: seq<CheckpointRef>): seq<Json> {
    seq(|cps|, i requires 0 <= i < |cps| => CheckpointJson(cps[i]))
  }

  function AttestationsJson(as': seq<Attestation>): seq<Json> {
    seq(|as'|, i requires 0 <= i < |as'| => AttestationJson(as'[i]))
  }

  lemma CheckpointSame(a: CheckpointRef, b: CheckpointRef)
    requires SameUpToKeyOrder(CheckpointJson(a), CheckpointJson(b))
    ensures a == b
  {
    var ms, ns := CheckpointJson(a).members, CheckpointJson(b).members;
    MemberSame(ms, ns, 0);
    MemberSame(ms, ns, 1);
    MemberSame(ms, ns, 2);
    NumbersSame(a.seqNo, b.seqNo);
    TextsSame(a.hash, b.hash);
    TextsSame(a.sig, b.sig);
  }

  lemma AttestationSame(a: Attestation, b: Attestation)
    requires SameUpToKeyOrder(AttestationJson(a), AttestationJson(b))
    ensures a == b
  {
    var ms, ns := AttestationJson(a).members, AttestationJson(b).members;
    MemberSame(ms, ns, 0);
    MemberSame(ms, ns, 1);
    TextsSame(a.kind, b.kind);
    TextsSame(a.value, b.value);
  }

  lemma ItemsSame(xs: seq<Json>, ys: seq<Json>)
    requires SameUpToKeyOrder(Arr(xs), Arr(ys))
    ensures |xs| == |ys| && forall i :: 0 <= i < |xs| ==> SameUpToKeyOrder(xs[i], ys[i])
  {}

  lemma CheckpointsSame(as': seq<CheckpointRef>, bs: seq<CheckpointRef>)
    requires SameUpToKeyOrder(Arr(CheckpointsJson(as')), Arr(CheckpointsJson(bs)))
    ensures as' == bs
  {
    ItemsSame(CheckpointsJson(as'), CheckpointsJson(bs));
    hide SameUpToKeyOrder, CheckpointJson;
    forall i | 0 <= i < |as'| ensures as'[i] == bs[i] {
      assert SameUpToKeyOrder(CheckpointsJson(as')[i], CheckpointsJson(bs)[i]);
      CheckpointSame(as'[i], bs[i]);
    }
  }

  lemma AttestationsSame(as': seq<Attestation>, bs: seq<Attestation>)
    requires SameUpToKeyOrder(Arr(AttestationsJson(as')), Arr(AttestationsJson(bs)))
    ensures as' == bs
  {
    ItemsSame(AttestationsJson(as'), AttestationsJson(bs));
    hide SameUpToKeyOrder, AttestationJson;
    forall i | 0 <= i < |as'| ensures as'[i] == bs[i] {
      assert SameUpToKeyOrder(AttestationsJson(as')[i], AttestationsJson(bs)[i]);
      AttestationSame(as'[i], bs[i]);
    }
  }

  lemma DistinctFieldNames(b: ProofBundle)
    ensures DistinctKeys(UnsignedJson(b).members)
  {
    hide CheckpointJson;
    var ms := UnsignedJson(b).members;
    assert |ms[0].key| == 8 && |ms[1].key| == 7 && |ms[2].key| == 8 && |ms[3].key| == 7 && |ms[4].key| == 10 &&
           |ms[5].key| == 12 && |ms[6].key| == 11 && |ms[7].key| == 10 && |ms[8].key| == 11 && |ms[9].key| == 10 &&
           |ms[10].key| == 12 && |ms[11].key| == 10;
    assert ms[0].key[0] == 'p' && ms[2].key[0] == 'e' && ms[1].key[0] == 'v' && ms[3].key[0] == 't';
    assert ms[4].key[0] == 't' && ms[7].key[0] == 'p' && ms[9].key[0] == 'r' && ms[11].key[0] == 'c';
    assert ms[5].key[0] == 't' && ms[10].key[0] == 'a' && ms[6].key[1] == 'h' && ms[8].key[1] == 'o';
  }

  lemma CheckpointsWellFormed(cps: seq<CheckpointRef>)
    ensures WellFormed(Arr(CheckpointsJson(cps)))
  {
    forall i | 0 <= i < |cps| ensures WellFormed(CheckpointsJson(cps)[i]) {
      var ms := CheckpointJson(cps[i]).members;
      assert ms[0].key[1] == 'e' && ms[1].key[1] == 'a' && ms[2].key[1] == 'i';
    }
  }

  lemma AttestationsWellFormed(as': seq<Attestation>)
    ensures WellFormed(Arr(AttestationsJson(as')))
  {
    forall i | 0 <= i < |as'| ensures WellFormed(AttestationsJson(as')[i]) {
      var ms := AttestationJson(as'[i]).members;
      assert ms[0].key[0] == 't' && ms[1].key[0] == 'v';
    }
  }

  /** The lists inside the signed text. */
  lemma Lists(b: ProofBundle)
    ensures var ms := UnsignedJson(b).members;
            |ms| == 12 && ms[6].value == Arr(CheckpointsJson(b.checkpoints)) &&
            ms[10].value == Arr(AttestationsJson(b.attestations))
  {
    var ms := UnsignedJson(b).members;
    assert ms[6].value.items == CheckpointsJson(b.checkpoints);
    assert ms[10].value.items == AttestationsJson(b.attestations);
  }

  lemma UnsignedWellFormed(b: ProofBundle)
    ensures WellFormed(UnsignedJson(b))
  {
    var ms := UnsignedJson(b).members;
    DistinctFieldNames(b);
    Lists(b);
    CheckpointsWellFormed(b.checkpoints);
    AttestationsWellFormed(b.attestations);
    hide DistinctKeys, CheckpointsJson, AttestationsJson;
    forall i | 0 <= i < 12 ensures WellFormed(ms[i].value) {
      assert i == 6 || i == 10 || ms[i].value.Str? || ms[i].value.Num?;
    }
  }

  /** Main result: the text that is signed determines every field of a bundle but the signature itself. */
  lemma SameTextSameFields(a: ProofBundle, b: ProofBundle)
    requires Stringify(UnsignedJson(a)) == Stringify(UnsignedJson(b))
    ensures a == b.(signature := a.signature)
  {
    UnsignedWellFormed(a);
    UnsignedWellFormed(b);
    CanonicalForm(UnsignedJson(a), UnsignedJson(b));
    Lists(a);
    Lists(b);
    FieldsSame(a, b);
    hide UnsignedJson, SameUpToKeyOrder, CheckpointsJson, AttestationsJson, Stringify, WellFormed;
    CheckpointsSame(a.checkpoints, b.checkpoints);
    AttestationsSame(a.attestations, b.attestations);
  }

  lemma FieldsSame(a: ProofBundle, b: ProofBundle)
    requires SameUpToKeyOrder(UnsignedJson(a), UnsignedJson(b))
    ensures a.proofId == b.proofId && a.version == b.version && a.executor == b.executor && a.taskId == b.taskId
    ensures a.traceRoot == b.traceRoot && a.traceLength == b.traceLength
    ensures a.policyRef == b.policyRef && a.consentRef == b.consentRef && a.resultRef == b.resultRef
    ensures a.createdAt == b.createdAt
    ensures SameUpToKeyOrder(UnsignedJson(a).members[6].value, UnsignedJson(b).members[6].value)
    ensures SameUpToKeyOrder(UnsignedJson(a).members[10].value, UnsignedJson(b).members[10].value)
  {
    FieldsSameAbove(a, b);
    FieldsSameBelow(a, b);
  }

  lemma FieldsSameAbove(a: ProofBundle, b: ProofBundle)
    requires SameUpToKeyOrder(UnsignedJson(a), UnsignedJson(b))
    ensures a.proofId == b.proofId && a.version == b.version && a.executor == b.executor && a.taskId == b.taskId
    ensures a.traceRoot == b.traceRoot && a.traceLength == b.traceLength
  {
    hide SameUpToKeyOrder, Keys, CheckpointsJson, AttestationsJson;
    var ms, ns := UnsignedJson(a).members, UnsignedJson(b).members;
    TextField(ms, ns, 0, a.proofId, b.proofId);
    TextField(ms, ns, 1, a.version, b.version);
    TextField(ms, ns, 2, a.executor, b.executor);
    TextField(ms, ns, 3, a.taskId, b.taskId);
    TextField(ms, ns, 4, a.traceRoot, b.traceRoot);
    MemberSame(ms, ns, 5);
    NumbersSame(a.traceLength, b.traceLength);
  }

  lemma FieldsSameBelow(a: ProofBundle, b: ProofBundle)
    requires SameUpToKeyOrder(UnsignedJson(a), UnsignedJson(b))
    ensures a.policyRef == b.policyRef && a.consentRef == b.consentRef && a.resultRef == b.resultRef
    ensures a.createdAt == b.createdAt
    ensures SameUpToKeyOrder(UnsignedJson(a).members[6].value, UnsignedJson(b).members[6].value)
    ensures SameUpToKeyOrder(UnsignedJson(a).members[10].value, UnsignedJson(b).members[10].value)
  {
    hide SameUpToKeyOrder, Keys;
    var ms, ns := UnsignedJson(a).members, UnsignedJson(b).members;
    MemberSame(ms, ns, 6);
    TextField(ms, ns, 7, a.policyRef, b.policyRef);
    TextField(ms, ns, 8, a.consentRef, b.consentRef);
    TextField(ms, ns, 9, a.resultRef, b.resultRef);
    MemberSame(ms, ns, 10);
    TextField(ms, ns, 11, a.createdAt, b.createdAt);
  }

  lemma TextField(ms: seq<Member>, ns: seq<Member>, i: nat, x: string, y: string)
    requires SameUpToKeyOrder(Obj(ms), Obj(ns)) && i < |ms| && i < |ns| && ms[i].key == ns[i].key
    requires ms[i].value == Str(x) && ns[i].value == Str(y)
    ensures x == y
  {
    MemberSame(ms, ns, i);
    TextsSame(x, y);
  }

  // ---------- What acceptance says ----------

  /** Main result: a bundle that carries the signature of a generated one is accepted under that key only if no
      signed field was changed, with a trace or without. */
  lemma SignatureBindsFields(scheme: SignatureScheme, identity: Identity, generated: ProofBundle, b: ProofBundle,
                             trace: Option<TraceView>, choice: KeyChoice)
    requires b.signature.sig == identity.Sign(scheme, Stringify(UnsignedJson(generated)))
    requires ResolveKey(scheme, b, choice) == Some(identity.PublicKey(scheme))
    requires NotForged(scheme, identity.secretKey, Stringify(UnsignedJson(b)), Stringify(UnsignedJson(generated)))
    requires Accepts(scheme, b, trace, choice)
    ensures b == generated.(signature := b.signature) && b.signature.alg == "Ed25519"
  {
    hide UnsignedJson, Stringify, Intact, CheckpointsPass, Lawful;
    SameTextSameFields(b, generated);
  }

  /** Some event of the log has this hash. */
  ghost predicate Recorded(events: seq<Event>, hash: string) {
    exists i :: 0 <= i < |events| && events[i].hash == hash
  }

  lemma RecordedHash(events: seq<Event>, hash: string)
    ensures Recorded(events, hash) <==> hash in Hashes(events)
  {
    if Recorded(events, hash) {
      var i :| 0 <= i < |events| && events[i].hash == hash;
      assert Hashes(events)[i] == hash;
    }
  }

  /** A checkpoint that carries the key's signature of another hash is not accepted. */
  lemma CheckpointSignatureBindsHash(scheme: SignatureScheme, identity: Identity, b: ProofBundle,
                                     trace: Option<TraceView>, choice: KeyChoice, i: nat, hash: string)
    requires i < |b.checkpoints| && b.checkpoints[i].sig == identity.Sign(scheme, hash)
    requires ResolveKey(scheme, b, choice) == Some(identity.PublicKey(scheme))
    requires NotForged(scheme, identity.secretKey, b.checkpoints[i].hash, hash)
    requires Accepts(scheme, b, trace, choice)
    ensures b.checkpoints[i].hash == hash
  {
    hide Intact, SignaturePasses, RootPasses, Lawful;
    assert CheckpointSigned(scheme, b.checkpoints[i], Some(identity.PublicKey(scheme)));
  }

  /** The same inside a trace: a checkpoint event whose signature was made for another hash is found out. */
  lemma TraceSignatureBindsHash(c: Config, events: seq<Event>, i: nat, hash: string)
    requires i < |events| && events[i].typ == Checkpoint && events[i].sig == Some(c.identity.Sign(c.scheme, hash))
    requires NotForged(c.scheme, c.identity.secretKey, events[i].hash, hash)
    requires Findings(c, events, |events|) == []
    ensures events[i].hash == hash
  {
    NoFindingsMeansFine(c, events, |events|);
    hide Findings, ChainedAt;
    assert FineAt(c, events, i);
  }

  /** Main result: acceptance spelled out, for every bundle, trace and choice of key. */
  lemma AcceptanceSpelledOut(scheme: SignatureScheme, b: ProofBundle, t: TraceView, choice: KeyChoice)
    ensures Accepts(scheme, b, Some(t), choice) <==>
            Accepts(scheme, b, None, choice) && Findings(t.config, t.events, |t.events|) == [] &&
            |t.events| == b.traceLength > 0 && b.traceRoot == MerkleRoot(t.config.h, Hashes(t.events)) &&
            forall i :: 0 <= i < |b.checkpoints| ==> Recorded(t.events, b.checkpoints[i].hash)
  {
    hide SignaturePasses, CheckpointSigned, Findings, FineAt, MerkleRoot, Recorded;
    NoFindingsMeansFine(t.config, t.events, |t.events|);
    forall i | 0 <= i < |b.checkpoints|
      ensures b.checkpoints[i].hash in Hashes(t.events) <==> Recorded(t.events, b.checkpoints[i].hash)
    {
      RecordedHash(t.events, b.checkpoints[i].hash);
    }
    hide Hashes;
  }

  /** Acceptance of a bundle alone: a resolved key verifies the signature of the bundle's own text and of every
      checkpoint's hash, and no reference is missing. */
  lemma LoneAcceptanceSpelledOut(scheme: SignatureScheme, b: ProofBundle, choice: KeyChoice)
    ensures Accepts(scheme, b, None, choice) <==>
            exists key ::
              (match choice
               case FromDid => scheme.parseDid(b.executor) == Some(key)
               case Given(k) => key == k
               case Undecodable => false) &&
              b.signature.sig != "" && b.signature.alg == "Ed25519" &&
              scheme.verify(Stringify(UnsignedJson(b)), b.signature.sig, key) &&
              (forall i :: 0 <= i < |b.checkpoints| ==>
                 b.checkpoints[i].hash != "" && b.checkpoints[i].sig != "" &&
                 scheme.verify(b.checkpoints[i].hash, b.checkpoints[i].sig, key)) &&
              b.policyRef != "" && b.consentRef != "" && b.resultRef != ""
  {
    hide UnsignedJson, Stringify, Lawful;
  }

  // ---------- What a generated bundle says ----------

  /** The reference to a checkpoint event. */
  function RefOf(e: Event): CheckpointRef {
    CheckpointRef(e.seqNo, e.hash, if e.sig.Some? then e.sig.value else "")
  }

  lemma {:induction false} RefsAreCheckpoints(events: seq<Event>, cp: CheckpointRef)
    requires forall e :: e in events && e.typ == Checkpoint ==> e.sig.Some? && e.sig.value != ""
    ensures cp in CheckpointRefs(events) <==> exists e :: e in events && e.typ == Checkpoint && cp == RefOf(e)
  {
    if events != [] {
      var n := |events| - 1;
      RefsAreCheckpoints(events[..n], cp);
      assert events == events[..n] + [events[n]];
      if exists e :: e in events && e.typ == Checkpoint && cp == RefOf(e) {
        var e :| e in events && e.typ == Checkpoint && cp == RefOf(e);
        assert e in events[..n] || e == events[n];
      }
    }
  }

  /** Main result: what the bundle of a run says, field by field. */
  lemma BundleSpelledOut(c: Config, ops: seq<Op>, refs: References, stamp: Stamp, cp: CheckpointRef)
    requires c.interval >= 1 && forall i :: 0 <= i < |ops| ==> Ordinary(ops[i])
    requires Run(c, ops).events != []
    ensures var s := Run(c, ops);
            var b := Signed(c.scheme, c.identity, UnsignedBundle(c, s.events, s.finalized, c.identity, refs, stamp));
            b.executor == c.identity.Did(c.scheme) && b.taskId == c.taskId && b.version == "proof.bundle.v0.1" &&
            b.proofId == stamp.proofId && b.createdAt == stamp.createdAt &&
            b.policyRef == refs.policyRef && b.consentRef == refs.consentRef && b.resultRef == refs.resultRef &&
            b.traceLength == |s.events| && b.traceRoot == MerkleRoot(c.h, Hashes(s.events)) &&
            b.attestations == [Attestation("trace_verified", "true"), Attestation("event_count", IntText(|s.events|))] +
                              (if s.finalized then [Attestation("finalized", "true")] else []) &&
            (cp in b.checkpoints <==> exists e :: e in s.events && e.typ == Checkpoint && cp == RefOf(e))
  {
    EveryRunVerifies(c, ops);
    EveryRunWellKept(c, ops);
    CheckpointsSigned(c, Run(c, ops).events);
    hide Run, Intact, FaithfulCheckpoints, TerminalPlaced, Findings, MerkleRoot, IntText, UnsignedJson, Stringify,
         Lawful;
    RefsAreCheckpoints(Run(c, ops).events, cp);
  }

  lemma CheckpointsSigned(c: Config, events: seq<Event>)
    requires FaithfulCheckpoints(c, events)
    ensures forall e :: e in events && e.typ == Checkpoint ==> e.sig.Some? && e.sig.value != ""
  {
    hide CheckpointData;
    forall e | e in events && e.typ == Checkpoint ensures e.sig.Some? && e.sig.value != "" {
      var k :| 0 <= k < |events| && events[k] == e;
    }
  }
}
