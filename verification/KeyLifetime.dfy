/** How long the two sides of a handshake of `src/handshake/index.ts` hold the same key, and what ends it. */
module KeyLifetime {
  import opened Common
  import opened Crypto
  import opened Handshake

  /** The step may give `agent` another key for `peer`, or take the one it has: it accepts an init or an ack of
      that peer, or drops the session. */
  predicate Rekeys(dh: DiffieHellman, s: System, step: Step, agent: string, peer: string)
    requires Enabled(s, step)
  {
    step.agent == agent &&
    match step
    case SendInit(_, _, _, _) => false
    case HandInit(_, init, timely, challenge, secret) =>
      s.initOf[init].msg.did == peer &&
      ProcessInit(dh, s.agents[agent], s.initOf[init].msg, timely, challenge, secret).Ok?
    case HandAck(_, ack, _, _, _) => s.ackOf[ack].msg.did == peer && Returned(dh, s, step).Some?
    case HandConfirm(_, _, _, _) => false
    case DoTerminate(_, remote) => remote == peer
    case DoExpire(_, remote, now) =>
      remote == peer && peer in s.agents[agent].sessions && s.agents[agent].sessions[peer].expiresAt < now
  }

  ghost predicate SameKey(s: System, s': System, agent: string, peer: string) {
    agent in s.agents && agent in s'.agents &&
    (peer in s.agents[agent].keys <==> peer in s'.agents[agent].keys) &&
    (peer in s.agents[agent].keys ==> s.agents[agent].keys[peer] == s'.agents[agent].keys[peer])
  }

  /** Nothing else touches a key. */
  lemma KeyKept(dh: DiffieHellman, s: System, step: Step, agent: string, peer: string)
    requires Enabled(s, step) && agent in s.agents && !Rekeys(dh, s, step, agent, peer)
    ensures SameKey(s, Next(dh, s, step), agent, peer)
  {
    hide Lawful, SigVerifies;
  }

  lemma AckKept(dh: DiffieHellman, s: System, step: Step, c: string)
    requires Enabled(s, step) && c in s.ackOf
    ensures var s' := Next(dh, s, step);
            c in s'.ackOf && s'.ackOf[c] == s.ackOf[c] && s'.agents.Keys == s.agents.Keys
  {
    hide Lawful, SigVerifies;
  }

  lemma {:induction false} AckStays(dh: DiffieHellman, trace: seq<System>, steps: seq<Step>, k: nat, j: nat, c: string)
    requires IsRun(dh, trace, steps) && k <= j < |trace| && c in trace[k].ackOf
    ensures c in trace[j].ackOf && trace[j].ackOf[c] == trace[k].ackOf[c]
    ensures trace[j].agents.Keys == trace[k].agents.Keys
  {
    hide Next, Enabled, Initial;
    if k < j {
      AckStays(dh, trace, steps, k, j - 1, c);
      assert Follows(dh, trace[j - 1], steps[j - 1], trace[j]);
      AckKept(dh, trace[j - 1], steps[j - 1], c);
    }
  }

  /** No step from `k` on and before `j` rekeys. */
  ghost predicate Undisturbed(dh: DiffieHellman, trace: seq<System>, steps: seq<Step>, k: nat, j: nat, agent: string,
                              peer: string)
    requires k <= j <= |steps| < |trace|
  {
    forall m :: k <= m < j ==> Enabled(trace[m], steps[m]) && !Rekeys(dh, trace[m], steps[m], agent, peer)
  }

  lemma {:induction false} KeyStays(dh: DiffieHellman, trace: seq<System>, steps: seq<Step>, k: nat, j: nat,
                                    agent: string, peer: string)
    requires IsRun(dh, trace, steps) && k <= j <= |steps| && agent in trace[k].agents
    requires Undisturbed(dh, trace, steps, k, j, agent, peer)
    ensures SameKey(trace[k], trace[j], agent, peer)
  {
    hide Next, Enabled, Initial, Rekeys;
    if k < j {
      KeyStays(dh, trace, steps, k, j - 1, agent, peer);
      assert Follows(dh, trace[j - 1], steps[j - 1], trace[j]);
      KeyKept(dh, trace[j - 1], steps[j - 1], agent, peer);
    }
  }

  /** The key that goes with an ack. */
  function AckKey(dh: DiffieHellman, r: AckRecord): Bytes {
    dh.shared(r.secret, r.init.encPublicKey)
  }

  lemma AckedKey(dh: DiffieHellman, s: System, step: Step)
    requires step.HandAck? && Inv(dh, s) && Enabled(s, step)
    requires Returned(dh, s, step).Some? && Returned(dh, s, step).value.encrypted
    ensures var r, m' := s.ackOf[step.ack], Next(dh, s, step).agents[step.agent];
            r.msg.did in m'.keys && m'.keys[r.msg.did] == AckKey(dh, r) && r.init.did == step.agent
  {
    var r := s.ackOf[step.ack];
    AcceptedAck(dh, s, step);
    AckFacts(dh, s, step.ack);
    InitFacts(dh, s, r.init.challenge);
    hide Inv, Lawful;
    SharedSymmetric(dh, r.secret, s.initOf[r.init.challenge].secret);
  }

  lemma NoKeysWithoutEncryption(dh: DiffieHellman, s: System, d: string)
    requires Inv(dh, s) && d in s.agents && !s.agents[d].encryptionEnabled
    ensures s.agents[d].keys == map[]
  {
    assert ManagerOk(dh, s, d, s.agents[d]);
  }

  /** Main result, the initiator's side: whenever it returns a session marked encrypted, its key is the one that
      goes with the ack; and a responder that does not encrypt has no key at all. */
  lemma InitiatorAgreement(dh: DiffieHellman, trace: seq<System>, steps: seq<Step>, i: nat)
    requires IsRun(dh, trace, steps) && i < |steps| && steps[i].HandAck? && Enabled(trace[i], steps[i])
    requires Returned(dh, trace[i], steps[i]).Some? && Returned(dh, trace[i], steps[i]).value.encrypted
    ensures var a, r := steps[i].agent, trace[i].ackOf[steps[i].ack];
            r.init.did == a && a in trace[i + 1].agents && r.msg.did in trace[i + 1].agents[a].keys &&
            trace[i + 1].agents[a].keys[r.msg.did] == AckKey(dh, r) && r.msg.did in trace[i].agents &&
            (!trace[i].agents[r.msg.did].encryptionEnabled ==> trace[i].agents[r.msg.did].keys == map[])
  {
    RunInv(dh, trace, steps, i);
    assert Follows(dh, trace[i], steps[i], trace[i + 1]);
    var s, r := trace[i], trace[i].ackOf[steps[i].ack];
    hide Inv, Lawful;
    AckedKey(dh, s, steps[i]);
    AckFacts(dh, s, steps[i].ack);
    AckKept(dh, s, steps[i], steps[i].ack);
    if !s.agents[r.msg.did].encryptionEnabled { NoKeysWithoutEncryption(dh, s, r.msg.did); }
  }

  lemma ConfirmedKey(dh: DiffieHellman, s: System, step: Step)
    requires step.HandConfirm? && Inv(dh, s) && Enabled(s, step)
    requires Returned(dh, s, step).Some? && Returned(dh, s, step).value.encrypted
    ensures step.confirm in s.ackOf
    ensures var r := s.ackOf[step.confirm];
            r.init.did in s.agents[step.agent].keys && s.agents[step.agent].keys[r.init.did] == AckKey(dh, r) &&
            r.msg.did == step.agent && s.confirmOf[step.confirm].msg.from == r.init.did
  {
    AcceptedConfirm(dh, s, step);
    assert ManagerOk(dh, s, step.agent, s.agents[step.agent]);
    hide Inv, Lawful;
  }

  /** Both agents hold a key for each other, and it is the same. */
  ghost predicate Agree(s: System, a: string, b: string) {
    a in s.agents && b in s.agents && b in s.agents[a].keys && a in s.agents[b].keys &&
    s.agents[a].keys[b] == s.agents[b].keys[a]
  }

  ghost predicate HoldsKey(s: System, agent: string, peer: string, key: Bytes) {
    agent in s.agents && peer in s.agents[agent].keys && s.agents[agent].keys[peer] == key
  }

  lemma {:induction false} KeyStaysHeld(dh: DiffieHellman, trace: seq<System>, steps: seq<Step>, k: nat, j: nat,
                                        agent: string, peer: string, key: Bytes)
    requires IsRun(dh, trace, steps) && k <= j <= |steps| && HoldsKey(trace[k], agent, peer, key)
    requires Undisturbed(dh, trace, steps, k, j, agent, peer)
    ensures HoldsKey(trace[j], agent, peer, key)
  {
    hide IsRun, Undisturbed;
    KeyStays(dh, trace, steps, k, j, agent, peer);
  }

  /** The initiator accepts the ack at step `k`, the responder its confirm at step `i`, and both mark their session
      as encrypted. */
  ghost predicate Completes(dh: DiffieHellman, trace: seq<System>, steps: seq<Step>, k: nat, i: nat)
    requires k < i < |steps| < |trace|
  {
    steps[k].HandAck? && steps[i].HandConfirm? && steps[k].ack == steps[i].confirm &&
    Enabled(trace[k], steps[k]) && Enabled(trace[i], steps[i]) &&
    Returned(dh, trace[k], steps[k]).Some? && Returned(dh, trace[k], steps[k]).value.encrypted &&
    Returned(dh, trace[i], steps[i]).Some? && Returned(dh, trace[i], steps[i]).value.encrypted
  }

  lemma BothKeys(dh: DiffieHellman, trace: seq<System>, steps: seq<Step>, k: nat, i: nat)
    requires IsRun(dh, trace, steps) && k < i < |steps| && Completes(dh, trace, steps, k, i)
    ensures steps[k].ack in trace[k].ackOf
    ensures var key := AckKey(dh, trace[k].ackOf[steps[k].ack]);
            HoldsKey(trace[k + 1], steps[k].agent, steps[i].agent, key) &&
            HoldsKey(trace[i], steps[i].agent, steps[k].agent, key)
  {
    hide Inv, Lawful, Next, Initial, Returned;
    InitiatorAgreement(dh, trace, steps, k);
    RunInv(dh, trace, steps, i);
    ConfirmedKey(dh, trace[i], steps[i]);
    AckStays(dh, trace, steps, k, i, steps[i].confirm);
  }

  /** Main result: from the confirm on both sides hold the same key, until one of them accepts another init or ack
      of the other or drops the session. The initiator's key counts from the step `k` at which it accepted the
      ack. */
  lemma AgreementLasts(dh: DiffieHellman, trace: seq<System>, steps: seq<Step>, k: nat, i: nat, j: nat)
    requires IsRun(dh, trace, steps) && k < i < j <= |steps| && Completes(dh, trace, steps, k, i)
    requires Undisturbed(dh, trace, steps, k + 1, j, steps[k].agent, steps[i].agent)
    requires Undisturbed(dh, trace, steps, i, j, steps[i].agent, steps[k].agent)
    ensures Agree(trace[j], steps[k].agent, steps[i].agent)
  {
    BothKeys(dh, trace, steps, k, i);
    hide IsRun, Undisturbed, Completes;
    var a, b, key := steps[k].agent, steps[i].agent, AckKey(dh, trace[k].ackOf[steps[k].ack]);
    KeyStaysHeld(dh, trace, steps, k + 1, j, a, b, key);
    KeyStaysHeld(dh, trace, steps, i, j, b, a, key);
  }

  // ---------- What ends it ----------

  /** The key that a rekeying step leaves: the one derived from an accepted init or ack, or none. */
  function NewKey(dh: DiffieHellman, s: System, step: Step): Option<Bytes>
    requires Enabled(s, step)
  {
    match step
    case HandInit(_, init, _, _, secret) => Some(dh.shared(secret, s.initOf[init].msg.encPublicKey))
    case HandAck(_, ack, _, _, _) => Some(AckKey(dh, s.ackOf[ack]))
    case _ => None
  }

  ghost predicate HasExactly(s: System, agent: string, peer: string, key: Option<Bytes>) {
    agent in s.agents &&
    match key
    case Some(k) => peer in s.agents[agent].keys && s.agents[agent].keys[peer] == k
    case None => peer !in s.agents[agent].keys
  }

  lemma EncryptsWithKey(dh: DiffieHellman, s: System, d: string, p: string)
    requires Inv(dh, s) && d in s.agents && p in s.agents[d].keys
    ensures s.agents[d].encryptionEnabled
  {
    assert ManagerOk(dh, s, d, s.agents[d]);
  }

  lemma InitRekeys(dh: DiffieHellman, s: System, step: Step, d: string, p: string)
    requires step.HandInit? && Inv(dh, s) && Enabled(s, step) && Rekeys(dh, s, step, d, p)
    requires s.agents[d].encryptionEnabled
    ensures HasExactly(Next(dh, s, step), d, p, NewKey(dh, s, step))
  {
    InitFacts(dh, s, step.init);
    PublicKeysNotEmpty(dh, s.initOf[step.init].secret);
    hide Inv, Lawful;
  }

  lemma AckRekeys(dh: DiffieHellman, s: System, step: Step, d: string, p: string)
    requires step.HandAck? && Inv(dh, s) && Enabled(s, step) && Rekeys(dh, s, step, d, p)
    requires s.agents[d].encryptionEnabled
    ensures HasExactly(Next(dh, s, step), d, p, NewKey(dh, s, step))
  {
    AcceptedAck(dh, s, step);
    assert Returned(dh, s, step).value.encrypted;
    AckedKey(dh, s, step);
    AckKept(dh, s, step, step.ack);
    hide Inv, Lawful;
  }

  lemma DropRekeys(dh: DiffieHellman, s: System, step: Step, d: string, p: string)
    requires step.DoTerminate? || step.DoExpire?
    requires d in s.agents && Enabled(s, step) && Rekeys(dh, s, step, d, p)
    ensures HasExactly(Next(dh, s, step), d, p, NewKey(dh, s, step))
  {
    hide Lawful;
  }

  /** Main result: what a rekeying step does to agreement. Of a pair that agrees, one agent's step leaves them in
      agreement exactly when the key it derives is the same once more; a drop never does. */
  lemma AgreementAfter(dh: DiffieHellman, trace: seq<System>, steps: seq<Step>, j: nat, d: string, p: string)
    requires IsRun(dh, trace, steps) && j < |steps| && d != p && Agree(trace[j], d, p)
    requires Enabled(trace[j], steps[j]) && Rekeys(dh, trace[j], steps[j], d, p)
    ensures Agree(trace[j + 1], d, p) <==> NewKey(dh, trace[j], steps[j]) == Some(trace[j].agents[d].keys[p])
  {
    RunInv(dh, trace, steps, j);
    assert Follows(dh, trace[j], steps[j], trace[j + 1]);
    var s, step := trace[j], steps[j];
    EncryptsWithKey(dh, s, d, p);
    assert !Rekeys(dh, s, step, p, d);
    hide IsRun, Inv, Lawful, Next, Enabled, NewKey;
    KeyKept(dh, s, step, p, d);
    RekeyedTo(dh, s, step, d, p);
    hide Rekeys;
  }

  lemma RekeyedTo(dh: DiffieHellman, s: System, step: Step, d: string, p: string)
    requires Inv(dh, s) && d in s.agents && Enabled(s, step) && Rekeys(dh, s, step, d, p)
    requires s.agents[d].encryptionEnabled
    ensures HasExactly(Next(dh, s, step), d, p, NewKey(dh, s, step))
  {
    hide Inv, Lawful, Next, NewKey, HasExactly;
    match step
    case HandInit(_, _, _, _, _) => InitRekeys(dh, s, step, d, p);
    case HandAck(_, _, _, _, _) => AckRekeys(dh, s, step, d, p);
    case DoTerminate(_, _) => DropRekeys(dh, s, step, d, p);
    case DoExpire(_, _, _) => DropRekeys(dh, s, step, d, p);
    case _ =>
  }

  // ---------- A run that ends it ----------

  function EncryptingPair(ttl: int): System {
    System(map[ALICE := Start(ALICE, true, ttl), BOB := Start(BOB, true, ttl)], map[], map[], map[], {})
  }

  function AfterFirstThree(dh: DiffieHellman, ttl: int, a: Bytes, b: Bytes): System {
    var init := InitMsg(ALICE, BOB, ALICE, PublicKey(ALICE), dh.publicOf(a), "1", PublicKey(ALICE));
    var ack := AckMsg(BOB, ALICE, BOB, PublicKey(BOB), dh.publicOf(b), "2", Sig(PublicKey(BOB), "1"), PublicKey(BOB));
    var alice := Start(ALICE, true, ttl).(
      sessions := map[BOB := Session(BOB, PublicKey(BOB), true, ttl)],
      keys := map[BOB := dh.shared(a, dh.publicOf(b))]);
    var bob := Start(BOB, true, ttl).(
      pendingChallenges := map[ALICE := "2"], pendingInits := map[ALICE := init],
      keys := map[ALICE := dh.shared(b, dh.publicOf(a))]);
    System(map[ALICE := alice, BOB := bob], map["1" := InitRecord(init, a)], map["2" := AckRecord(ack, init, b)],
           map["2" := ConfirmRecord(ConfirmMsg(ALICE, BOB, Sig(PublicKey(ALICE), "2"), PublicKey(ALICE)),
                                    Some(dh.shared(a, dh.publicOf(b))))], {"1"})
  }

  lemma FirstThree(dh: DiffieHellman, ttl: int, a: Bytes, b: Bytes)
    ensures var s0 := EncryptingPair(ttl);
            Initial(s0) && Enabled(s0, SendInit(ALICE, BOB, "1", a)) &&
            var s1 := Next(dh, s0, SendInit(ALICE, BOB, "1", a));
            Enabled(s1, HandInit(BOB, "1", true, "2", b)) &&
            var s2 := Next(dh, s1, HandInit(BOB, "1", true, "2", b));
            Enabled(s2, HandAck(ALICE, "2", true, [], 0)) &&
            Next(dh, s2, HandAck(ALICE, "2", true, [], 0)) == AfterFirstThree(dh, ttl, a, b)
  {
    PublicKeysNotEmpty(dh, a);
    PublicKeysNotEmpty(dh, b);
    hide Lawful;
    assert "1" != "2" && ALICE != BOB;
    var s0 := EncryptingPair(ttl);
    var s1 := Next(dh, s0, SendInit(ALICE, BOB, "1", a));
    var s2 := Next(dh, s1, HandInit(BOB, "1", true, "2", b));
    assert s1.agents[BOB] == s0.agents[BOB] && s2.agents[ALICE] == s1.agents[ALICE];
    var s3 := Next(dh, s2, HandAck(ALICE, "2", true, [], 0));
    var t := AfterFirstThree(dh, ttl, a, b);
    assert s3.agents[ALICE] == t.agents[ALICE] && s3.agents[BOB] == t.agents[BOB];
    assert s3.agents == t.agents && s3.initOf == t.initOf && s3.ackOf == t.ackOf && s3.confirmOf == t.confirmOf;
  }

  /** After a complete handshake, the first init delivered once more replaces the responder's key. Both sides then
      have live sessions marked encrypted, and agree exactly when the new secret gives the old key. */
  lemma RepeatedInitEndsAgreement(dh: DiffieHellman, ttl: int, a: Bytes, b: Bytes, c: Bytes)
    ensures var s3 := AfterFirstThree(dh, ttl, a, b);
            Enabled(s3, HandConfirm(BOB, "2", true, 0)) &&
            var s4 := Next(dh, s3, HandConfirm(BOB, "2", true, 0));
            Agree(s4, ALICE, BOB) && Enabled(s4, HandInit(BOB, "1", true, "3", c)) &&
            var s5 := Next(dh, s4, HandInit(BOB, "1", true, "3", c));
            BOB in s5.agents[ALICE].sessions && s5.agents[ALICE].sessions[BOB].encrypted &&
            ALICE in s5.agents[BOB].sessions && s5.agents[BOB].sessions[ALICE].encrypted &&
            (Agree(s5, ALICE, BOB) <==> dh.shared(b, dh.publicOf(a)) == dh.shared(c, dh.publicOf(a)))
  {
    PublicKeysNotEmpty(dh, a);
    SharedSymmetric(dh, a, b);
    hide Lawful;
    assert "1" != "2" && "2" != "3" && "1" != "3" && ALICE != BOB;
  }

  // ---------- Keys do differ ----------

  function FirstByte(a: Bytes): byte {
    if a == [] then 0 else a[0]
  }

  function Wrapped(x: byte, y: byte): byte {
    ((x as int + y as int) % 256) as byte
  }

  function PublicBytes(a: Bytes): Bytes {
    seq(KEY_LENGTH, _ => FirstByte(a))
  }

  function SharedBytes(a: Bytes, p: Bytes): Bytes {
    seq(KEY_LENGTH, _ => Wrapped(FirstByte(a), FirstByte(p)))
  }

  lemma SharedBytesSymmetric(a: Bytes, b: Bytes)
    ensures SharedBytes(a, PublicBytes(b)) == SharedBytes(b, PublicBytes(a))
  {
    assert FirstByte(PublicBytes(b)) == FirstByte(b) && FirstByte(PublicBytes(a)) == FirstByte(a);
    hide PublicBytes, FirstByte;
  }

  lemma SumsLawful()
    ensures Crypto.Lawful(Exchange(PublicBytes, SharedBytes))
  {
    forall a, b ensures SharedBytes(a, PublicBytes(b)) == SharedBytes(b, PublicBytes(a)) {
      SharedBytesSymmetric(a, b);
    }
    assert forall a :: |PublicBytes(a)| == KEY_LENGTH;
    assert forall a, p :: |SharedBytes(a, p)| == KEY_LENGTH;
    hide PublicBytes, SharedBytes;
  }

  /** An exchange in which keys are sums. */
  ghost function SumExchange(): DiffieHellman {
    SumsLawful();
    Exchange(PublicBytes, SharedBytes)
  }

  lemma SumsDiffer()
    ensures SharedBytes([1], PublicBytes([0])) != SharedBytes([2], PublicBytes([0]))
  {
    assert SharedBytes([1], PublicBytes([0]))[0] == 1 && SharedBytes([2], PublicBytes([0]))[0] == 2;
  }

  /** So there is a run that ends in disagreement: the responder draws another secret for the same init. */
  lemma DisagreementHappens(ttl: int)
    ensures var dh := SumExchange();
            var s4 := Next(dh, AfterFirstThree(dh, ttl, [0], [1]), HandConfirm(BOB, "2", true, 0));
            Agree(s4, ALICE, BOB) && Enabled(s4, HandInit(BOB, "1", true, "3", [2])) &&
            !Agree(Next(dh, s4, HandInit(BOB, "1", true, "3", [2])), ALICE, BOB)
  {
    SumsDiffer();
    hide Next, AfterFirstThree, Agree, SharedBytes, PublicBytes, Crypto.Lawful, Enabled;
    RepeatedInitEndsAgreement(SumExchange(), ttl, [0], [1], [2]);
  }
}
