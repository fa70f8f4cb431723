/** Proof bundles (`src/proof/index.ts`): `ProofGenerator` condenses a trace into a signed bundle and
    `ProofVerifier` checks a bundle, alone or against a trace. */
module Proof {
  import opened Common
  import opened Canonical
  import opened Hashing
  import opened Merkle
  import opened Sequences
  import opened Signing
  import opened Trace

  datatype CheckpointRef = CheckpointRef(seqNo: int, hash: string, sig: string)

  datatype Attestation = Attestation(kind: string, value: string)

  datatype Signature = Signature(alg: string, sig: string)

  datatype ProofBundle = ProofBundle(
    proofId: string, version: string, executor: string, taskId: string,
    traceRoot: string, traceLength: int, checkpoints: seq<CheckpointRef>,
    policyRef: string, consentRef: string, resultRef: string,
    attestations: seq<Attestation>, createdAt: string, signature: Signature)

  datatype References = References(policyRef: string, consentRef: string, resultRef: string)

  /** The random identifier and the clock reading of one call. */
  datatype Stamp = Stamp(proofId: string, createdAt: string)

  datatype ProofError = EmptyTrace

  // ---------- Generating ----------

  /** The bundle without its signature, in the order in which the generator lists the fields. */
  function UnsignedJson(b: ProofBundle): Json {
    Obj([Member("proof_id", Str(b.proofId)), Member("version", Str(b.version)),
         Member("executor", Str(b.executor)), Member("task_id", Str(b.taskId)),
         Member("trace_root", Str(b.traceRoot)), Member("trace_length", Num(b.traceLength)),
         Member("checkpoints", Arr(seq(|b.checkpoints|, i requires 0 <= i < |b.checkpoints| =>
           Obj([Member("seq", Num(b.checkpoints[i].seqNo)), Member("hash", Str(b.checkpoints[i].hash)),
                Member("sig", Str(b.checkpoints[i].sig))])))),
         Member("policy_ref", Str(b.policyRef)), Member("consent_ref", Str(b.consentRef)),
         Member("result_ref", Str(b.resultRef)),
         Member("attestations", Arr(seq(|b.attestations|, i requires 0 <= i < |b.attestations| =>
           Obj([Member("type", Str(b.attestations[i].kind)), Member("value", Str(b.attestations[i].value))])))),
         Member("created_at", Str(b.createdAt))])
  }

  function CheckpointRefs(events: seq<Event>): seq<CheckpointRef> {
    if events == [] then []
    else
      var e := events[|events| - 1];
      CheckpointRefs(events[..|events| - 1]) +
      (if NeedsSignatureCheck(e) then [CheckpointRef(e.seqNo, e.hash, e.sig.value)] else [])
  }

  function BoolText(b: bool): string {
    if b then "true" else "false"
  }

  function UnsignedBundle(c: Config, events: seq<Event>, finalized: bool,
                          identity: Identity, refs: References, stamp: Stamp): ProofBundle
    requires events != []
  {
    ProofBundle(stamp.proofId, "proof.bundle.v0.1", identity.Did(c.scheme), c.taskId,
                MerkleRoot(c.h, Hashes(events)), |events|, CheckpointRefs(events),
                refs.policyRef, refs.consentRef, refs.resultRef,
                [Attestation("trace_verified", BoolText(Findings(c, events, |events|) == [])),
                 Attestation("event_count", IntText(|events|))] +
                (if finalized then [Attestation("finalized", "true")] else []),
                stamp.createdAt, Signature("", ""))
  }

  function Signed(scheme: SignatureScheme, identity: Identity, b: ProofBundle): ProofBundle {
    b.(signature := Signature("Ed25519", identity.Sign(scheme, Stringify(UnsignedJson(b)))))
  }

  method BuildBundle(trace: ExecutionTrace, identity: Identity, refs: References, stamp: Stamp)
    returns (r: Result<ProofBundle, ProofError>)
    ensures trace.events == [] ==> r == Err(EmptyTrace)
    ensures trace.events != [] ==>
              r == Ok(Signed(trace.config.scheme, identity,
                             UnsignedBundle(trace.config, trace.events, trace.finalized, identity, refs, stamp)))
  {
    hide Findings, Intact, ProducesDigests, Lawful, UnsignedJson;
    var events, c := trace.events, trace.config;
    if |events| == 0 { return Err(EmptyTrace); }
    var leaves := seq(|events|, i requires 0 <= i < |events| => events[i].hash);
    assert leaves == Hashes(events);
    var tree := Build(c.h, leaves);
    var traceRoot := GetRoot(c.h, tree.value);
    var checkpoints := CollectCheckpoints(events);
    var verified, _ := TraceVerdict(trace);
    var attestations := [Attestation("trace_verified", BoolText(verified)),
                         Attestation("event_count", IntText(|events|))];
    if trace.finalized { attestations := attestations + [Attestation("finalized", "true")]; }
    var bundle := ProofBundle(stamp.proofId, "proof.bundle.v0.1", identity.Did(c.scheme), c.taskId, traceRoot, |events|,
                              checkpoints, refs.policyRef, refs.consentRef, refs.resultRef, attestations,
                              stamp.createdAt, Signature("", ""));
    assert bundle == UnsignedBundle(c, events, trace.finalized, identity, refs, stamp);
    r := Ok(Signed(c.scheme, identity, bundle));
  }

  method TraceVerdict(trace: ExecutionTrace) returns (valid: bool, errors: seq<Finding>)
    ensures valid <==> Findings(trace.config, trace.events, |trace.events|) == []
    ensures errors == Findings(trace.config, trace.events, |trace.events|)
  {
    hide FindingsAt, FineAt;
    NoFindingsMeansFine(trace.config, trace.events, |trace.events|);
    valid, errors := trace.Verify();
  }

  method CollectCheckpoints(events: seq<Event>) returns (refs: seq<CheckpointRef>)
    ensures refs == CheckpointRefs(events)
  {
    refs := [];
    for i := 0 to |events|
      invariant refs == CheckpointRefs(events[..i])
    {
      assert events[..i + 1][..i] == events[..i];
      if NeedsSignatureCheck(events[i]) {
        refs := refs + [CheckpointRef(events[i].seqNo, events[i].hash, events[i].sig.value)];
      }
    }
    assert events[..|events|] == events;
  }

  // ---------- Verifying ----------

  /** Where the executor's key comes from: its DID, or an option that may not decode to a key. */
  datatype KeyChoice = FromDid | Given(key: string) | Undecodable

  datatype Check = Check(name: string, passed: bool)

  /** A trace as the verifier sees it. */
  datatype TraceView = TraceView(config: Config, events: seq<Event>)

  function ResolveKey(scheme: SignatureScheme, proof: ProofBundle, choice: KeyChoice): Option<string> {
    match choice
    case FromDid => scheme.parseDid(proof.executor)
    case Given(key) => Some(key)
    case Undecodable => None
  }

  predicate SignaturePasses(scheme: SignatureScheme, proof: ProofBundle, key: Option<string>) {
    proof.signature.sig != "" && proof.signature.alg == "Ed25519" && key.Some? &&
    scheme.verify(Stringify(UnsignedJson(proof)), proof.signature.sig, key.value)
  }

  predicate RootPasses(proof: ProofBundle, t: TraceView) {
    t.events != [] && MerkleRoot(t.config.h, Hashes(t.events)) == proof.traceRoot
  }

  predicate CheckpointSigned(scheme: SignatureScheme, cp: CheckpointRef, key: Option<string>) {
    cp.hash != "" && cp.sig != "" && key.Some? && scheme.verify(cp.hash, cp.sig, key.value)
  }

  ghost predicate CheckpointsPass(scheme: SignatureScheme, proof: ProofBundle, trace: Option<TraceView>,
                                  key: Option<string>)
  {
    (forall i :: 0 <= i < |proof.checkpoints| ==> CheckpointSigned(scheme, proof.checkpoints[i], key)) &&
    (trace.Some? ==>
       forall i :: 0 <= i < |proof.checkpoints| ==> proof.checkpoints[i].hash in Hashes(trace.value.events))
  }

  predicate ReferencesPass(proof: ProofBundle) {
    proof.policyRef != "" && proof.consentRef != "" && proof.resultRef != ""
  }

  /** The bundle is valid, on its own or against a trace. */
  ghost predicate Accepts(scheme: SignatureScheme, proof: ProofBundle, trace: Option<TraceView>, choice: KeyChoice) {
    var key := ResolveKey(scheme, proof, choice);
    SignaturePasses(scheme, proof, key) && CheckpointsPass(scheme, proof, trace, key) && ReferencesPass(proof) &&
    (trace.Some? ==>
       Intact(trace.value.config, trace.value.events) && RootPasses(proof, trace.value) &&
       |trace.value.events| == proof.traceLength)
  }

  method CheckMerkleRoot(proof: ProofBundle, t: TraceView) returns (passed: bool)
    ensures passed == RootPasses(proof, t)
  {
    if |t.events| == 0 { return false; }
    var leaves := seq(|t.events|, i requires 0 <= i < |t.events| => t.events[i].hash);
    assert leaves == Hashes(t.events);
    var tree := Build(t.config.h, leaves);
    var computedRoot := GetRoot(t.config.h, tree.value);
    passed := computedRoot == proof.traceRoot;
  }

  method CheckCheckpoints(scheme: SignatureScheme, proof: ProofBundle, trace: Option<TraceView>, key: Option<string>)
    returns (passed: bool)
    ensures passed <==> CheckpointsPass(scheme, proof, trace, key)
  {
    if |proof.checkpoints| == 0 { return true; }
    for i := 0 to |proof.checkpoints|
      invariant forall j :: 0 <= j < i ==> CheckpointSigned(scheme, proof.checkpoints[j], key)
    {
      var cp := proof.checkpoints[i];
      if cp.hash == "" || cp.sig == "" { return false; }
      if key.None? || !scheme.verify(cp.hash, cp.sig, key.value) { return false; }
    }
    if trace.Some? {
      var events := trace.value.events;
      var eventHashes := set e | e in events :: e.hash;
      assert forall x :: x in eventHashes <==> x in Hashes(events) by {
        HashesAsSet(events);
      }
      for i := 0 to |proof.checkpoints|
        invariant forall j :: 0 <= j < i ==> proof.checkpoints[j].hash in Hashes(events)
      {
        if proof.checkpoints[i].hash !in eventHashes { return false; }
      }
    }
    passed := true;
  }

  lemma HashesAsSet(events: seq<Event>)
    ensures forall x :: x in (set e | e in events :: e.hash) <==> x in Hashes(events)
  {
    forall x ensures x in (set e | e in events :: e.hash) <==> x in Hashes(events) {
      if x in (set e | e in events :: e.hash) {
        var e :| e in events && e.hash == x;
        var i :| 0 <= i < |events| && events[i] == e;
        assert Hashes(events)[i] == x;
      }
      if x in Hashes(events) {
        var i :| 0 <= i < |events| && Hashes(events)[i] == x;
        assert events[i] in events;
      }
    }
  }

  function ViewOf(trace: ExecutionTrace?): Option<TraceView>
    reads trace
  {
    if trace == null then None else Some(TraceView(trace.config, trace.events))
  }

  /** The report lists every check; the bundle is valid when all of them pass. */
  method Verify(scheme: SignatureScheme, proof: ProofBundle, trace: ExecutionTrace?, choice: KeyChoice)
    returns (valid: bool, checks: seq<Check>)
    ensures valid <==> Accepts(scheme, proof, ViewOf(trace), choice)
    ensures valid <==> forall i :: 0 <= i < |checks| ==> checks[i].passed
    ensures |checks| == if trace == null then 6 else 7
    ensures var key := ResolveKey(scheme, proof, choice);
            Check("bundle_signature",
                  proof.signature.sig != "" && proof.signature.alg == "Ed25519" && key.Some? &&
                  scheme.verify(Stringify(UnsignedJson(proof)), proof.signature.sig, key.value)) in checks
    ensures Check("references", proof.policyRef != "" && proof.consentRef != "" && proof.resultRef != "") in checks
    ensures trace != null ==> Check("trace_length", |trace.events| == proof.traceLength) in checks
    ensures Check("trace_hash_chain", trace == null || Intact(trace.config, trace.events)) in checks
    ensures Check("merkle_root", trace == null || RootPasses(proof, ViewOf(trace).value)) in checks
    ensures Check("checkpoints",
                  CheckpointsPass(scheme, proof, ViewOf(trace), ResolveKey(scheme, proof, choice))) in checks
  {
    var view := ViewOf(trace);
    var key := ResolveKey(scheme, proof, choice);
    SignatureVerdict(scheme, proof, key);
    ReferencesVerdict(proof);
    hide Intact, CheckpointsPass, RootPasses, SignaturePasses, ReferencesPass, ProducesDigests, Lawful, UnsignedJson,
         Stringify, ResolveKey;
    var chainOk, rootOk := true, true;
    if trace != null {
      var ok, _ := trace.Verify();
      chainOk := ok;
      rootOk := CheckMerkleRoot(proof, view.value);
    }
    var checkpointsOk := CheckCheckpoints(scheme, proof, view, key);
    var signatureOk, referencesOk := SignaturePasses(scheme, proof, key), ReferencesPass(proof);
    checks := [Check("structure", true), Check("bundle_signature", signatureOk), Check("trace_hash_chain", chainOk),
               Check("merkle_root", rootOk), Check("checkpoints", checkpointsOk), Check("references", referencesOk)];
    var lengthOk := None;
    if trace != null {
      lengthOk := Some(|trace.events| == proof.traceLength);
      checks := checks + [Check("trace_length", |trace.events| == proof.traceLength)];
    }
    assert checks == Report(signatureOk, chainOk, rootOk, checkpointsOk, referencesOk, lengthOk);
    ReportMeans(signatureOk, chainOk, rootOk, checkpointsOk, referencesOk, lengthOk);
    hide Report;
    valid := forall i :: 0 <= i < |checks| ==> checks[i].passed;
  }

  function Report(signature: bool, chain: bool, root: bool, checkpoints: bool, references: bool, length: Option<bool>)
    : seq<Check>
  {
    [Check("structure", true), Check("bundle_signature", signature), Check("trace_hash_chain", chain),
     Check("merkle_root", root), Check("checkpoints", checkpoints), Check("references", references)] +
    if length.Some? then [Check("trace_length", length.value)] else []
  }

  lemma ReportMeans(signature: bool, chain: bool, root: bool, checkpoints: bool, references: bool, length: Option<bool>)
    ensures var checks := Report(signature, chain, root, checkpoints, references, length);
            |checks| == (if length.Some? then 7 else 6) &&
            Check("bundle_signature", signature) in checks && Check("trace_hash_chain", chain) in checks &&
            Check("merkle_root", root) in checks && Check("checkpoints", checkpoints) in checks &&
            Check("references", references) in checks &&
            (length.Some? ==> Check("trace_length", length.value) in checks) &&
            ((forall i :: 0 <= i < |checks| ==> checks[i].passed) <==>
             signature && chain && root && checkpoints && references && (length.Some? ==> length.value))
  {
    var checks := Report(signature, chain, root, checkpoints, references, length);
    assert checks[1].passed == signature && checks[2].passed == chain && checks[3].passed == root &&
           checks[4].passed == checkpoints && checks[5].passed == references && checks[0].passed;
    assert length.Some? ==> checks[6].passed == length.value;
    assert checks[1] in checks && checks[2] in checks && checks[3] in checks && checks[4] in checks &&
           checks[5] in checks && checks[|checks| - 1] in checks;
  }

  lemma SignatureVerdict(scheme: SignatureScheme, proof: ProofBundle, key: Option<string>)
    ensures SignaturePasses(scheme, proof, key) ==
            (proof.signature.sig != "" && proof.signature.alg == "Ed25519" && key.Some? &&
             scheme.verify(Stringify(UnsignedJson(proof)), proof.signature.sig, key.value))
  {
    hide UnsignedJson, Stringify, Lawful;
  }

  lemma ReferencesVerdict(proof: ProofBundle)
    ensures ReferencesPass(proof) == (proof.policyRef != "" && proof.consentRef != "" && proof.resultRef != "")
  {}

  // ---------- Everything generated verifies ----------

  lemma {:induction false} CollectedCheckpointsPass(c: Config, events: seq<Event>)
    requires Intact(c, events)
    ensures forall i :: 0 <= i < |CheckpointRefs(events)| ==>
              CheckpointSigned(c.scheme, CheckpointRefs(events)[i], Some(c.identity.PublicKey(c.scheme))) &&
              CheckpointRefs(events)[i].hash in Hashes(events)
  {
    if events != [] {
      var n := |events| - 1;
      LastIsFine(c, events);
      IntactPrefix(c, events, n);
      hide Intact, Lawful, IsDigest, ProducesDigests, Stringify, Preimage;
      CollectedCheckpointsPass(c, events[..n]);
      assert Hashes(events) == Hashes(events[..n]) + [events[n].hash];
    }
  }

  lemma LastIsFine(c: Config, events: seq<Event>)
    requires events != [] && Intact(c, events)
    ensures var e := events[|events| - 1]; SignatureFine(c, e) && e.hash != ""
  {
    hide Lawful;
    assert FineAt(c, events, |events| - 1);
    assert IsDigest(Rehash(c.h, events[|events| - 1]));
  }

  lemma IntactPrefix(c: Config, events: seq<Event>, n: nat)
    requires n <= |events| && Intact(c, events)
    ensures Intact(c, events[..n])
  {
    hide Rehash, SignatureFine;
    forall i | 0 <= i < n ensures FineAt(c, events[..n], i) {
      assert FineAt(c, events, i);
    }
  }

  /** Main result: a bundle made from any run, with the trace's own identity and non-empty references,
      passes every check against that trace, whether the key comes from the DID or is given. */
  lemma GeneratedBundleVerifies(c: Config, ops: seq<Op>, refs: References, stamp: Stamp)
    requires Run(c, ops).events != []
    requires refs.policyRef != "" && refs.consentRef != "" && refs.resultRef != ""
    ensures var s := Run(c, ops);
            var bundle := Signed(c.scheme, c.identity,
                                 UnsignedBundle(c, s.events, s.finalized, c.identity, refs, stamp));
            Accepts(c.scheme, bundle, Some(TraceView(c, s.events)), FromDid) &&
            Accepts(c.scheme, bundle, Some(TraceView(c, s.events)), Given(c.identity.PublicKey(c.scheme))) &&
            Accepts(c.scheme, bundle, None, FromDid) &&
            Attestation("trace_verified", "true") in bundle.attestations
  {
    EveryRunVerifies(c, ops);
    var s := Run(c, ops);
    hide Intact, Run, Accepts, CheckpointRefs, Stringify, IntText;
    OwnBundleAccepted(c, s.events, s.finalized, refs, stamp, FromDid);
    OwnBundleAccepted(c, s.events, s.finalized, refs, stamp, Given(c.identity.PublicKey(c.scheme)));
    var unsigned := UnsignedBundle(c, s.events, s.finalized, c.identity, refs, stamp);
    assert unsigned.attestations[0] == Attestation("trace_verified", "true");
  }

  lemma OwnBundleAccepted(c: Config, events: seq<Event>, finalized: bool, refs: References, stamp: Stamp,
                          choice: KeyChoice)
    requires events != [] && Intact(c, events)
    requires refs.policyRef != "" && refs.consentRef != "" && refs.resultRef != ""
    requires choice.FromDid? || choice == Given(c.identity.PublicKey(c.scheme))
    ensures var bundle := Signed(c.scheme, c.identity, UnsignedBundle(c, events, finalized, c.identity, refs, stamp));
            Accepts(c.scheme, bundle, Some(TraceView(c, events)), choice) && Accepts(c.scheme, bundle, None, choice)
  {
    hide UnsignedJson, Stringify, IntText, CheckpointSigned;
    CollectedCheckpointsPass(c, events);
    hide Intact;
    var unsigned := UnsignedBundle(c, events, finalized, c.identity, refs, stamp);
    SignatureIgnored(unsigned, Signed(c.scheme, c.identity, unsigned));
  }

  lemma SignatureIgnored(a: ProofBundle, b: ProofBundle)
    requires a == b.(signature := a.signature)
    ensures UnsignedJson(a) == UnsignedJson(b)
  {}

  // ---------- Nothing else does ----------

  ghost function EvidenceInputs(h: HashFn, events: seq<Event>): set<string> {
    ChainInputs(h, events) + TreeInputs(h, Hashes(events))
  }

  lemma HashesAreDigests(h: HashFn, events: seq<Event>)
    requires Chained(h, events)
    ensures AllDigests(Hashes(events))
  {
    hide Rehash;
    forall i | 0 <= i < |events| ensures |Hashes(events)[i]| == DIGEST_LENGTH {
      LinksBarFree(h, events, i);
    }
  }

  lemma EqualHashesEqualLogs(h: HashFn, xs: seq<Event>, ys: seq<Event>)
    requires Chained(h, xs) && Chained(h, ys) && WellFormedData(xs) && WellFormedData(ys)
    requires Hashes(xs) == Hashes(ys)
    requires CollisionFreeOn(h, ChainInputs(h, xs) + ChainInputs(h, ys))
    ensures SameLog(xs, ys)
  {
    hide EventInputs, Free, SameRecord, ProducesDigests, CollisionFreeOn, IsDigest, ChainInputs, Linked, Rehash;
    assert |xs| == |Hashes(xs)| == |Hashes(ys)| == |ys|;
    forall i | 0 <= i < |xs| ensures SameRecord(xs[i], ys[i]) {
      assert Hashes(xs)[i] == Hashes(ys)[i];
      LinksBarFree(h, xs, i);
      LinksBarFree(h, ys, i);
      CollisionFreeAt(h, xs, i, ys, i);
      assert ChainedAt(h, xs, i) && ChainedAt(h, ys, i);
      EventHashBinds(h, xs[i], ys[i]);
    }
  }

  /** Main result: two traces that pass against one bundle record the same events. The bundle need not
      have been made honestly, and the two callers may have resolved the key differently. */
  lemma BundleBindsLog(scheme: SignatureScheme, proof: ProofBundle, s: TraceView, t: TraceView, k: KeyChoice,
                       l: KeyChoice)
    requires s.config.h == t.config.h
    requires WellFormedData(s.events) && WellFormedData(t.events)
    requires CollisionFreeOn(s.config.h, EvidenceInputs(s.config.h, s.events) + EvidenceInputs(s.config.h, t.events))
    requires Accepts(scheme, proof, Some(s), k) && Accepts(scheme, proof, Some(t), l)
    ensures SameLog(s.events, t.events)
  {
    hide SignaturePasses, CheckpointsPass, ResolveKey, ProducesDigests, Intact, Chained, SameLog, ChainInputs,
         TreeInputs;
    var h := s.config.h;
    IntactChained(s.config, s.events);
    IntactChained(t.config, t.events);
    HashesAreDigests(h, s.events);
    HashesAreDigests(h, t.events);
    RootAndLengthBind(h, Hashes(s.events), Hashes(t.events));
    EqualHashesEqualLogs(h, s.events, t.events);
  }

  lemma SameLogSameChain(h: HashFn, xs: seq<Event>, ys: seq<Event>)
    requires SameLog(xs, ys) && Chained(h, xs) && WellFormedData(xs) && WellFormedData(ys)
    ensures Chained(h, ys) && Hashes(xs) == Hashes(ys)
  {
    hide Preimage, Stringify, SameUpToKeyOrder, WellFormed;
    forall i | 0 <= i < |ys| ensures ChainedAt(h, ys, i) {
      assert ChainedAt(h, xs, i) && SameRecord(xs[i], ys[i]);
      assert i > 0 ==> SameRecord(xs[i - 1], ys[i - 1]);
      CanonicalForm(xs[i].data, ys[i].data);
    }
    assert forall i :: 0 <= i < |xs| ==> SameRecord(xs[i], ys[i]) && Hashes(xs)[i] == Hashes(ys)[i];
  }

  /** Exactly which traces a bundle accepts, given one that it does: those with the same log whose
      checkpoint signatures verify. Task identifiers are not part of what is bound. */
  lemma AcceptedTracesCharacterized(scheme: SignatureScheme, proof: ProofBundle, s: TraceView, t: TraceView,
                                    k: KeyChoice)
    requires s.config.h == t.config.h
    requires WellFormedData(s.events) && WellFormedData(t.events)
    requires CollisionFreeOn(s.config.h, EvidenceInputs(s.config.h, s.events) + EvidenceInputs(s.config.h, t.events))
    requires Accepts(scheme, proof, Some(s), k)
    ensures Accepts(scheme, proof, Some(t), k) <==>
            SameLog(s.events, t.events) && forall i :: 0 <= i < |t.events| ==> SignatureFine(t.config, t.events[i])
  {
    hide SignaturePasses, ResolveKey, ProducesDigests, Intact, Chained, SameLog, ChainInputs, TreeInputs, SignatureFine,
         CheckpointSigned;
    IntactChained(s.config, s.events);
    IntactChained(t.config, t.events);
    if Accepts(scheme, proof, Some(t), k) {
      BundleBindsLog(scheme, proof, s, t, k, k);
    }
    if SameLog(s.events, t.events) {
      SameLogSameChain(s.config.h, s.events, t.events);
      assert |s.events| == |Hashes(s.events)| == |Hashes(t.events)| == |t.events|;
    }
  }

  function Relabel(events: seq<Event>, taskId: string): seq<Event> {
    seq(|events|, i requires 0 <= i < |events| => events[i].(taskId := taskId))
  }

  /** In particular a trace whose events name another task passes just as well. */
  lemma TaskIdNotBound(scheme: SignatureScheme, proof: ProofBundle, s: TraceView, k: KeyChoice, taskId: string)
    requires WellFormedData(s.events) && Accepts(scheme, proof, Some(s), k)
    ensures Accepts(scheme, proof, Some(TraceView(s.config, Relabel(s.events, taskId))), k)
  {
    hide SignaturePasses, ResolveKey, ProducesDigests, Rehash, CheckpointSigned;
    var t := TraceView(s.config, Relabel(s.events, taskId));
    forall i | 0 <= i < |t.events| ensures FineAt(t.config, t.events, i) {
      assert FineAt(s.config, s.events, i);
      SameRehash(s.config.h, s.events[i], taskId);
    }
    assert Hashes(t.events) == Hashes(s.events);
  }

  lemma SameRehash(h: HashFn, e: Event, taskId: string)
    ensures Rehash(h, e.(taskId := taskId)) == Rehash(h, e)
  {}
}
