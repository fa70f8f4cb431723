/** The three-message handshake of `src/handshake/index.ts` as steps on values: one manager per agent,
    a network that may lose, duplicate, reorder and misdeliver what honest managers send. */
module Handshake {
  import opened Common
  import opened Crypto

  /** Identity keys and their signatures, symbolically: a signature verifies for its signer and text only. */
  datatype PublicKey = PublicKey(did: string)

  datatype Sig = Sig(signer: PublicKey, text: string)

  predicate SigVerifies(text: string, sig: Sig, key: PublicKey) {
    sig == Sig(key, text)
  }

  /** `signedBy` is the key under which the envelope signature verifies. */
  datatype InitMsg = InitMsg(from: string, to: string, did: string, publicKey: PublicKey,
                             encPublicKey: Bytes, challenge: string, signedBy: PublicKey)

  datatype AckMsg = AckMsg(from: string, to: string, did: string, publicKey: PublicKey, encPublicKey: Bytes,
                           challenge: string, challengeResponse: Sig, signedBy: PublicKey)

  datatype ConfirmMsg = ConfirmMsg(from: string, to: string, challengeResponse: Sig, signedBy: PublicKey)

  datatype Session = Session(remoteDid: string, remotePublicKey: PublicKey, encrypted: bool, expiresAt: int)

  datatype HandshakeError = MessageInvalid | DidMismatch | NoPendingHandshake | ChallengeFailed

  /** A manager; `keys` holds the shared key of every encryption session it has. */
  datatype Manager = Manager(
    did: string, encryptionEnabled: bool, sessionTtlMs: int,
    sessions: map<string, Session>,
    pendingChallenges: map<string, string>,
    pendingSecrets: map<string, Bytes>,
    pendingInits: map<string, InitMsg>,
    keys: map<string, Bytes>)

  // ---------- One manager ----------

  function Start(did: string, encryptionEnabled: bool, sessionTtlMs: int): Manager {
    Manager(did, encryptionEnabled, sessionTtlMs, map[], map[], map[], map[], map[])
  }

  /** Step 1; `challenge` and `secret` are the random values drawn by the call. */
  function CreateInit(dh: DiffieHellman, m: Manager, remote: string, challenge: string, secret: Bytes)
    : (Manager, InitMsg)
  {
    (m.(pendingChallenges := m.pendingChallenges[remote := challenge],
        pendingSecrets := m.pendingSecrets[remote := secret]),
     InitMsg(m.did, remote, m.did, PublicKey(m.did), dh.publicOf(secret), challenge, PublicKey(m.did)))
  }

  /** Step 2; `timely` says whether the envelope's timestamp is accepted. */
  function ProcessInit(dh: DiffieHellman, m: Manager, init: InitMsg, timely: bool, challenge: string, secret: Bytes)
    : Result<(Manager, AckMsg), HandshakeError>
  {
    if init.signedBy != init.publicKey || !timely then Err(MessageInvalid)
    else if PublicKey(init.did) != init.publicKey then Err(DidMismatch)
    else
      var encrypt := m.encryptionEnabled && init.encPublicKey != [];
      var m1 := m.(pendingChallenges := m.pendingChallenges[init.did := challenge],
                   pendingInits := m.pendingInits[init.did := init],
                   keys := if encrypt then m.keys[init.did := dh.shared(secret, init.encPublicKey)] else m.keys);
      Ok((m1, AckMsg(m.did, init.did, m.did, PublicKey(m.did), dh.publicOf(secret), challenge,
                     Sig(PublicKey(m.did), init.challenge), PublicKey(m.did))))
  }

  /** Step 3, initiator side. A throwaway session key is drawn first and replaced by the one derived
      from the key pair announced in the init, when that is still there. */
  function ProcessAck(dh: DiffieHellman, m: Manager, ack: AckMsg, timely: bool, throwaway: Bytes, now: int)
    : Result<(Manager, ConfirmMsg, Session), HandshakeError>
  {
    if ack.signedBy != ack.publicKey || !timely then Err(MessageInvalid)
    else if ack.did !in m.pendingChallenges || m.pendingChallenges[ack.did] == "" then Err(NoPendingHandshake)
    else if !SigVerifies(m.pendingChallenges[ack.did], ack.challengeResponse, ack.publicKey) then Err(ChallengeFailed)
    else
      var offered := m.encryptionEnabled && ack.encPublicKey != [];
      var encrypted := offered && ack.did in m.pendingSecrets;
      var session := Session(ack.did, ack.publicKey, encrypted, now + m.sessionTtlMs);
      var m1 := m.(
        pendingChallenges := m.pendingChallenges - {ack.did},
        pendingSecrets := if encrypted then m.pendingSecrets - {ack.did} else m.pendingSecrets,
        keys := if encrypted then m.keys[ack.did := dh.shared(m.pendingSecrets[ack.did], ack.encPublicKey)]
                else if offered then m.keys[ack.did := dh.shared(throwaway, ack.encPublicKey)]
                else m.keys,
        sessions := m.sessions[ack.did := session]);
      Ok((m1, ConfirmMsg(m.did, ack.did, Sig(PublicKey(m.did), ack.challenge), PublicKey(m.did)), session))
  }

  /** Step 3, responder side. */
  function ProcessConfirm(m: Manager, confirm: ConfirmMsg, initiatorKey: PublicKey, timely: bool, now: int)
    : Result<(Manager, Session), HandshakeError>
  {
    if confirm.signedBy != initiatorKey || !timely then Err(MessageInvalid)
    else if confirm.from !in m.pendingChallenges || m.pendingChallenges[confirm.from] == "" then Err(NoPendingHandshake)
    else if !SigVerifies(m.pendingChallenges[confirm.from], confirm.challengeResponse, initiatorKey)
      then Err(ChallengeFailed)
    else
      var session := Session(confirm.from, initiatorKey, confirm.from in m.keys, now + m.sessionTtlMs);
      Ok((m.(pendingChallenges := m.pendingChallenges - {confirm.from},
             pendingInits := m.pendingInits - {confirm.from},
             sessions := m.sessions[confirm.from := session]), session))
  }

  function Terminate(m: Manager, remote: string): Manager {
    m.(sessions := m.sessions - {remote}, keys := m.keys - {remote})
  }

  /** `getSession` drops a session that has expired. */
  function Expire(m: Manager, remote: string, now: int): Manager {
    if remote in m.sessions && m.sessions[remote].expiresAt < now then Terminate(m, remote) else m
  }

  // ---------- Agents and network ----------

  datatype InitRecord = InitRecord(msg: InitMsg, secret: Bytes)

  datatype AckRecord = AckRecord(msg: AckMsg, init: InitMsg, secret: Bytes)

  /** `key` is what the initiator derived when it produced the confirm, if it encrypts. */
  datatype ConfirmRecord = ConfirmRecord(msg: ConfirmMsg, key: Option<Bytes>)

  /** Every message ever sent, under the challenge it carries or answers, with the secrets drawn for it;
      `spent` are the challenges that some manager has accepted an answer to. */
  datatype System = System(
    agents: map<string, Manager>,
    initOf: map<string, InitRecord>,
    ackOf: map<string, AckRecord>,
    confirmOf: map<string, ConfirmRecord>,
    spent: set<string>)

  /** One step. A message is handed over by naming its challenge, any number of times, in any order, to
      any agent; a message that nobody names again is lost. */
  datatype Step =
    | SendInit(agent: string, remote: string, challenge: string, secret: Bytes)
    | HandInit(agent: string, init: string, timely: bool, challenge: string, secret: Bytes)
    | HandAck(agent: string, ack: string, timely: bool, throwaway: Bytes, now: int)
    | HandConfirm(agent: string, confirm: string, timely: bool, now: int)
    | DoTerminate(agent: string, remote: string)
    | DoExpire(agent: string, remote: string, now: int)

  /** Random challenges are not empty and never drawn twice. */
  predicate FreshChallenge(s: System, challenge: string) {
    challenge != "" && challenge !in s.initOf && challenge !in s.ackOf
  }

  predicate Enabled(s: System, step: Step) {
    step.agent in s.agents &&
    match step
    case SendInit(_, _, challenge, _) => FreshChallenge(s, challenge)
    case HandInit(_, init, _, challenge, _) => init in s.initOf && FreshChallenge(s, challenge)
    case HandAck(_, ack, _, _, _) => ack in s.ackOf
    case HandConfirm(_, confirm, _, _) => confirm in s.confirmOf
    case _ => true
  }

  /** The session that a step makes its agent return, if any. */
  function Returned(dh: DiffieHellman, s: System, step: Step): Option<Session>
    requires Enabled(s, step)
  {
    var m := s.agents[step.agent];
    match step
    case HandAck(_, ack, timely, throwaway, now) =>
      (match ProcessAck(dh, m, s.ackOf[ack].msg, timely, throwaway, now)
       case Ok(r) => Some(r.2)
       case Err(_) => None)
    case HandConfirm(_, confirm, timely, now) =>
      var msg := s.confirmOf[confirm].msg;
      (match ProcessConfirm(m, msg, PublicKey(msg.from), timely, now)
       case Ok(r) => Some(r.1)
       case Err(_) => None)
    case _ => None
  }

  function AfterSendInit(dh: DiffieHellman, s: System, a: string, remote: string, challenge: string,
                         secret: Bytes): System
    requires a in s.agents
  {
    var (m', msg) := CreateInit(dh, s.agents[a], remote, challenge, secret);
    s.(agents := s.agents[a := m'], initOf := s.initOf[challenge := InitRecord(msg, secret)])
  }

  function AfterInit(s: System, a: string, init: InitMsg, challenge: string, secret: Bytes, m': Manager,
                     ack: AckMsg): System
  {
    s.(agents := s.agents[a := m'], ackOf := s.ackOf[challenge := AckRecord(ack, init, secret)])
  }

  function AfterAck(s: System, a: string, ack: string, m': Manager, confirm: ConfirmMsg, session: Session): System
    requires a in s.agents && ack in s.ackOf && s.ackOf[ack].msg.did in s.agents[a].pendingChallenges
    requires session.encrypted ==> s.ackOf[ack].msg.did in m'.keys
  {
    var peer := s.ackOf[ack].msg.did;
    s.(agents := s.agents[a := m'],
       confirmOf := s.confirmOf[ack := ConfirmRecord(confirm, if session.encrypted then Some(m'.keys[peer]) else None)],
       spent := s.spent + {s.agents[a].pendingChallenges[peer]})
  }

  function AfterConfirm(s: System, a: string, confirm: string, m': Manager): System
    requires a in s.agents && confirm in s.confirmOf && s.confirmOf[confirm].msg.from in s.agents[a].pendingChallenges
  {
    s.(agents := s.agents[a := m'], spent := s.spent + {s.agents[a].pendingChallenges[s.confirmOf[confirm].msg.from]})
  }

  function AfterDrop(s: System, a: string, remote: string): System
    requires a in s.agents
  {
    s.(agents := s.agents[a := Terminate(s.agents[a], remote)])
  }

  function Next(dh: DiffieHellman, s: System, step: Step): System
    requires Enabled(s, step)
  {
    var m := s.agents[step.agent];
    match step
    case SendInit(agent, remote, challenge, secret) => AfterSendInit(dh, s, agent, remote, challenge, secret)
    case HandInit(agent, init, timely, challenge, secret) =>
      (match ProcessInit(dh, m, s.initOf[init].msg, timely, challenge, secret)
       case Ok((m', ack)) => AfterInit(s, agent, s.initOf[init].msg, challenge, secret, m', ack)
       case Err(_) => s)
    case HandAck(agent, ack, timely, throwaway, now) =>
      (match ProcessAck(dh, m, s.ackOf[ack].msg, timely, throwaway, now)
       case Ok((m', confirm, session)) => AfterAck(s, agent, ack, m', confirm, session)
       case Err(_) => s)
    case HandConfirm(agent, confirm, timely, now) =>
      var msg := s.confirmOf[confirm].msg;
      (match ProcessConfirm(m, msg, PublicKey(msg.from), timely, now)
       case Ok((m', session)) => AfterConfirm(s, agent, confirm, m')
       case Err(_) => s)
    case DoTerminate(agent, remote) => AfterDrop(s, agent, remote)
    case DoExpire(agent, remote, now) => s.(agents := s.agents[agent := Expire(m, remote, now)])
  }

  ghost predicate Initial(s: System) {
    (forall d :: d in s.agents ==>
       s.agents[d] == Start(d, s.agents[d].encryptionEnabled, s.agents[d].sessionTtlMs)) &&
    s.initOf == map[] && s.ackOf == map[] && s.confirmOf == map[] && s.spent == {}
  }

  /** The states a run visits: `trace[0]` is initial and every later one follows by an enabled step. */
  ghost predicate IsRun(dh: DiffieHellman, trace: seq<System>, steps: seq<Step>) {
    |trace| == |steps| + 1 && Initial(trace[0]) &&
    forall i :: 0 <= i < |steps| ==> Follows(dh, trace[i], steps[i], trace[i + 1])
  }

  ghost predicate Follows(dh: DiffieHellman, s: System, step: Step, s': System) {
    Enabled(s, step) && s' == Next(dh, s, step)
  }

  // ---------- Invariant ----------

  ghost predicate InitRecordOk(dh: DiffieHellman, s: System, c: string, r: InitRecord) {
    var m := r.msg;
    m.challenge == c != "" && m.from == m.did && m.did in s.agents &&
    m.publicKey == m.signedBy == PublicKey(m.did) && m.encPublicKey == dh.publicOf(r.secret)
  }

  ghost predicate AckRecordOk(dh: DiffieHellman, s: System, c: string, r: AckRecord) {
    var m := r.msg;
    m.challenge == c != "" && m.from == m.did && m.did in s.agents &&
    m.publicKey == m.signedBy == PublicKey(m.did) && m.encPublicKey == dh.publicOf(r.secret) &&
    r.init.challenge in s.initOf && s.initOf[r.init.challenge].msg == r.init &&
    m.challengeResponse == Sig(PublicKey(m.did), r.init.challenge)
  }

  ghost predicate ConfirmRecordOk(dh: DiffieHellman, s: System, c: string, r: ConfirmRecord) {
    c in s.ackOf && s.ackOf[c].init.challenge in s.initOf && s.ackOf[c].init.did in s.agents &&
    r.msg.from == s.ackOf[c].init.did &&
    r.msg.signedBy == PublicKey(r.msg.from) && r.msg.challengeResponse == Sig(PublicKey(r.msg.from), c) &&
    r.key == if s.agents[r.msg.from].encryptionEnabled
             then Some(dh.shared(s.initOf[s.ackOf[c].init.challenge].secret, s.ackOf[c].msg.encPublicKey))
             else None
  }

  /** A manager that waits as initiator still has the secret it announced. */
  ghost predicate InitiatorWaits(s: System, m: Manager, peer: string, c: string) {
    c in s.initOf && s.initOf[c].msg.did == m.did && s.initOf[c].msg.to == peer &&
    peer in m.pendingSecrets && m.pendingSecrets[peer] == s.initOf[c].secret
  }

  /** A manager that waits as responder has the key of its own ack, or none. */
  ghost predicate ResponderWaits(dh: DiffieHellman, s: System, m: Manager, peer: string, c: string) {
    c in s.ackOf && s.ackOf[c].msg.did == m.did && s.ackOf[c].init.did == peer &&
    (peer in m.keys ==> m.keys[peer] == dh.shared(s.ackOf[c].secret, s.ackOf[c].init.encPublicKey))
  }

  ghost predicate WaitOk(dh: DiffieHellman, s: System, m: Manager, peer: string)
    requires peer in m.pendingChallenges
  {
    var c := m.pendingChallenges[peer];
    c !in s.spent && (InitiatorWaits(s, m, peer, c) || ResponderWaits(dh, s, m, peer, c))
  }

  ghost predicate ManagerOk(dh: DiffieHellman, s: System, d: string, m: Manager) {
    m.did == d && (!m.encryptionEnabled ==> m.keys == map[]) &&
    forall peer :: peer in m.pendingChallenges ==> WaitOk(dh, s, m, peer)
  }

  ghost predicate Inv(dh: DiffieHellman, s: System) {
    s.initOf.Keys !! s.ackOf.Keys && s.spent <= s.initOf.Keys + s.ackOf.Keys &&
    (forall c :: c in s.initOf ==> InitRecordOk(dh, s, c, s.initOf[c])) &&
    (forall c :: c in s.ackOf ==> AckRecordOk(dh, s, c, s.ackOf[c])) &&
    (forall c :: c in s.confirmOf ==> ConfirmRecordOk(dh, s, c, s.confirmOf[c])) &&
    (forall d :: d in s.agents ==> ManagerOk(dh, s, d, s.agents[d]))
  }

  lemma InitialInv(dh: DiffieHellman, s: System)
    requires Initial(s)
    ensures Inv(dh, s)
  {}

  /** Two different agents never wait on the same challenge, and no agent waits on one twice. */
  lemma WaitsOnce(dh: DiffieHellman, s: System, d: string, p: string, e: string, q: string)
    requires Inv(dh, s) && d in s.agents && e in s.agents
    requires p in s.agents[d].pendingChallenges && q in s.agents[e].pendingChallenges
    requires s.agents[d].pendingChallenges[p] == s.agents[e].pendingChallenges[q]
    ensures d == e && p == q
  {
    assert ManagerOk(dh, s, d, s.agents[d]) && ManagerOk(dh, s, e, s.agents[e]);
  }

  /** Messages are never unsent, and a step changes one manager only. */
  ghost predicate Grows(s: System, s': System, a: string) {
    s'.agents.Keys == s.agents.Keys && a in s.agents &&
    (forall d :: d in s.agents && d != a ==> s'.agents[d] == s.agents[d]) &&
    s'.agents[a].encryptionEnabled == s.agents[a].encryptionEnabled &&
    (forall c :: c in s.initOf ==> c in s'.initOf && s'.initOf[c] == s.initOf[c]) &&
    (forall c :: c in s.ackOf ==> c in s'.ackOf && s'.ackOf[c] == s.ackOf[c])
  }

  /** What concerns one peer is as it was, except that its key may be gone. */
  ghost predicate SameForPeer(m: Manager, m': Manager, p: string) {
    m'.did == m.did && p in m.pendingChallenges && p in m'.pendingChallenges &&
    m'.pendingChallenges[p] == m.pendingChallenges[p] &&
    (p in m.pendingSecrets ==> p in m'.pendingSecrets && m'.pendingSecrets[p] == m.pendingSecrets[p]) &&
    (p in m'.keys ==> p in m.keys && m'.keys[p] == m.keys[p])
  }

  lemma WaitKept(dh: DiffieHellman, s: System, s': System, a: string, m: Manager, m': Manager, p: string)
    requires Grows(s, s', a) && SameForPeer(m, m', p) && WaitOk(dh, s, m, p)
    requires m'.pendingChallenges[p] !in s'.spent
    ensures WaitOk(dh, s', m', p)
  {}

  /** Records only depend on the messages already sent and on who the agents are. */
  lemma RecordsKept(dh: DiffieHellman, s: System, s': System, a: string)
    requires Inv(dh, s) && Grows(s, s', a)
    ensures forall c :: c in s.initOf ==> InitRecordOk(dh, s', c, s.initOf[c])
    ensures forall c :: c in s.ackOf ==> AckRecordOk(dh, s', c, s.ackOf[c])
    ensures forall c :: c in s.confirmOf ==> ConfirmRecordOk(dh, s', c, s.confirmOf[c])
  {
    hide ManagerOk, Lawful;
    forall c | c in s.initOf ensures InitRecordOk(dh, s', c, s.initOf[c]) {
      assert InitRecordOk(dh, s, c, s.initOf[c]);
    }
    forall c | c in s.ackOf ensures AckRecordOk(dh, s', c, s.ackOf[c]) {
      assert AckRecordOk(dh, s, c, s.ackOf[c]);
    }
    forall c | c in s.confirmOf ensures ConfirmRecordOk(dh, s', c, s.confirmOf[c]) {
      assert ConfirmRecordOk(dh, s, c, s.confirmOf[c]);
    }
  }

  lemma OthersKept(dh: DiffieHellman, s: System, s': System, a: string, d: string)
    requires Inv(dh, s) && Grows(s, s', a) && d in s.agents && d != a
    requires forall p :: p in s.agents[d].pendingChallenges ==> s.agents[d].pendingChallenges[p] !in s'.spent
    ensures ManagerOk(dh, s', d, s'.agents[d])
  {
    hide InitRecordOk, AckRecordOk, ConfirmRecordOk, WaitOk;
    var m := s.agents[d];
    assert ManagerOk(dh, s, d, m);
    forall p | p in m.pendingChallenges ensures WaitOk(dh, s', m, p) {
      WaitKept(dh, s, s', a, m, m, p);
    }
  }

  /** A step keeps the invariant when its own manager, new records and spent challenges are in order. */
  lemma InvKept(dh: DiffieHellman, s: System, s': System, a: string)
    requires Inv(dh, s) && Grows(s, s', a)
    requires s'.initOf.Keys !! s'.ackOf.Keys && s'.spent <= s'.initOf.Keys + s'.ackOf.Keys
    requires forall c :: c in s'.initOf && c !in s.initOf ==> InitRecordOk(dh, s', c, s'.initOf[c])
    requires forall c :: c in s'.ackOf && c !in s.ackOf ==> AckRecordOk(dh, s', c, s'.ackOf[c])
    requires forall c :: c in s'.confirmOf && (c !in s.confirmOf || s'.confirmOf[c] != s.confirmOf[c]) ==>
               ConfirmRecordOk(dh, s', c, s'.confirmOf[c])
    requires ManagerOk(dh, s', a, s'.agents[a])
    requires forall d, p :: d in s.agents && d != a && p in s.agents[d].pendingChallenges ==>
               s.agents[d].pendingChallenges[p] !in s'.spent
    ensures Inv(dh, s')
  {
    hide InitRecordOk, AckRecordOk, ConfirmRecordOk, ManagerOk;
    RecordsKept(dh, s, s', a);
    forall d | d in s'.agents ensures ManagerOk(dh, s', d, s'.agents[d]) {
      if d != a { OthersKept(dh, s, s', a, d); }
    }
  }

  /** No challenge that a manager waits on has been spent. */
  lemma WaitingUnspent(dh: DiffieHellman, s: System)
    requires Inv(dh, s)
    ensures forall d, p :: d in s.agents && p in s.agents[d].pendingChallenges ==>
            s.agents[d].pendingChallenges[p] !in s.spent
  {
    hide InitRecordOk, AckRecordOk, ConfirmRecordOk, InitiatorWaits, ResponderWaits;
    forall d, p | d in s.agents && p in s.agents[d].pendingChallenges
      ensures s.agents[d].pendingChallenges[p] !in s.spent
    {
      assert ManagerOk(dh, s, d, s.agents[d]);
      assert WaitOk(dh, s, s.agents[d], p);
    }
  }

  lemma SendInitManager(dh: DiffieHellman, s: System, a: string, remote: string, challenge: string, secret: Bytes)
    requires Inv(dh, s) && a in s.agents && FreshChallenge(s, challenge)
    ensures var s' := AfterSendInit(dh, s, a, remote, challenge, secret);
            Grows(s, s', a) && ManagerOk(dh, s', a, s'.agents[a])
  {
    hide Inv, ManagerOk, WaitOk, Lawful, ResponderWaits;
    var s', m := AfterSendInit(dh, s, a, remote, challenge, secret), s.agents[a];
    var m' := s'.agents[a];
    ManagerFacts(dh, s, a);
    WaitingUnspent(dh, s);
    SpentStaysKnown(dh, s);
    forall p | p in m'.pendingChallenges ensures WaitOk(dh, s', m', p) {
      if p == remote {
        FreshInitiatorWaits(dh, s', m', p, challenge);
      } else {
        WaitKept(dh, s, s', a, m, m', p);
      }
    }
    AllWaitsOk(dh, s', a, m');
  }

  lemma AllWaitsOk(dh: DiffieHellman, s: System, d: string, m: Manager)
    requires m.did == d && (!m.encryptionEnabled ==> m.keys == map[])
    requires forall peer :: peer in m.pendingChallenges ==> WaitOk(dh, s, m, peer)
    ensures ManagerOk(dh, s, d, m)
  {}

  lemma ManagerFacts(dh: DiffieHellman, s: System, a: string)
    requires Inv(dh, s) && a in s.agents
    ensures ManagerOk(dh, s, a, s.agents[a])
    ensures s.agents[a].did == a && (!s.agents[a].encryptionEnabled ==> s.agents[a].keys == map[])
    ensures forall p :: p in s.agents[a].pendingChallenges ==> WaitOk(dh, s, s.agents[a], p)
  {
    hide WaitOk;
    assert ManagerOk(dh, s, a, s.agents[a]);
  }

  lemma SendInitKeepsInv(dh: DiffieHellman, s: System, a: string, remote: string, challenge: string, secret: Bytes)
    requires Inv(dh, s) && a in s.agents && FreshChallenge(s, challenge)
    ensures Inv(dh, AfterSendInit(dh, s, a, remote, challenge, secret))
  {
    hide Inv, ManagerOk, Grows, WaitOk, Lawful, AckRecordOk, ConfirmRecordOk;
    SendInitManager(dh, s, a, remote, challenge, secret);
    var s' := AfterSendInit(dh, s, a, remote, challenge, secret);
    ManagerFacts(dh, s, a);
    WaitingUnspent(dh, s);
    SpentStaysKnown(dh, s);
    assert InitRecordOk(dh, s', challenge, s'.initOf[challenge]);
    InvKept(dh, s, s', a);
  }

  lemma FreshInitiatorWaits(dh: DiffieHellman, s: System, m: Manager, p: string, c: string)
    requires p in m.pendingChallenges && m.pendingChallenges[p] == c && c !in s.spent && InitiatorWaits(s, m, p, c)
    ensures WaitOk(dh, s, m, p)
  {}

  lemma FreshResponderWaits(dh: DiffieHellman, s: System, m: Manager, p: string, c: string)
    requires p in m.pendingChallenges && m.pendingChallenges[p] == c && c !in s.spent && ResponderWaits(dh, s, m, p, c)
    ensures WaitOk(dh, s, m, p)
  {}

  lemma HandInitManager(dh: DiffieHellman, s: System, a: string, init: string, challenge: string, secret: Bytes)
    requires Inv(dh, s) && a in s.agents && init in s.initOf && FreshChallenge(s, challenge)
    requires ProcessInit(dh, s.agents[a], s.initOf[init].msg, true, challenge, secret).Ok?
    ensures var (m', ack) := ProcessInit(dh, s.agents[a], s.initOf[init].msg, true, challenge, secret).value;
            var s' := AfterInit(s, a, s.initOf[init].msg, challenge, secret, m', ack);
            Grows(s, s', a) && ManagerOk(dh, s', a, m')
  {
    hide Inv, ManagerOk, WaitOk, Lawful, InitiatorWaits, AckRecordOk, ConfirmRecordOk;
    var msg, m := s.initOf[init].msg, s.agents[a];
    var (m', ack) := ProcessInit(dh, m, msg, true, challenge, secret).value;
    var s' := AfterInit(s, a, msg, challenge, secret, m', ack);
    ManagerFacts(dh, s, a);
    WaitingUnspent(dh, s);
    SpentStaysKnown(dh, s);
    InitFacts(dh, s, init);
    PublicKeysNotEmpty(dh, s.initOf[init].secret);
    forall p | p in m'.pendingChallenges ensures WaitOk(dh, s', m', p) {
      if p == msg.did {
        FreshResponderWaits(dh, s', m', p, challenge);
      } else {
        WaitKept(dh, s, s', a, m, m', p);
      }
    }
    AllWaitsOk(dh, s', a, m');
  }

  lemma HandInitKeepsInv(dh: DiffieHellman, s: System, a: string, init: string, challenge: string, secret: Bytes)
    requires Inv(dh, s) && a in s.agents && init in s.initOf && FreshChallenge(s, challenge)
    requires ProcessInit(dh, s.agents[a], s.initOf[init].msg, true, challenge, secret).Ok?
    ensures var (m', ack) := ProcessInit(dh, s.agents[a], s.initOf[init].msg, true, challenge, secret).value;
            Inv(dh, AfterInit(s, a, s.initOf[init].msg, challenge, secret, m', ack))
  {
    hide Inv, ManagerOk, Grows, WaitOk, Lawful, ConfirmRecordOk;
    HandInitManager(dh, s, a, init, challenge, secret);
    var msg := s.initOf[init].msg;
    var (m', ack) := ProcessInit(dh, s.agents[a], msg, true, challenge, secret).value;
    var s' := AfterInit(s, a, msg, challenge, secret, m', ack);
    ManagerFacts(dh, s, a);
    WaitingUnspent(dh, s);
    SpentStaysKnown(dh, s);
    InitFacts(dh, s, init);
    assert AckRecordOk(dh, s', challenge, s'.ackOf[challenge]);
    InvKept(dh, s, s', a);
  }

  /** A manager that accepts an ack accepts the answer to its own init, with the secret it announced. */
  lemma AcceptedAck(dh: DiffieHellman, s: System, step: Step)
    requires step.HandAck? && Inv(dh, s) && Enabled(s, step)
    requires Returned(dh, s, step).Some?
    ensures var m, r := s.agents[step.agent], s.ackOf[step.ack];
            r.msg.did in m.pendingChallenges && m.pendingChallenges[r.msg.did] == r.init.challenge &&
            InitiatorWaits(s, m, r.msg.did, r.init.challenge) && r.init.did == m.did && m.did == step.agent &&
            r.msg.encPublicKey != []
  {
    var m, r := s.agents[step.agent], s.ackOf[step.ack];
    assert AckRecordOk(dh, s, step.ack, r) && ManagerOk(dh, s, step.agent, m);
    var c := m.pendingChallenges[r.msg.did];
    assert c == r.init.challenge && c in s.initOf;
    assert c !in s.ackOf;
    PublicKeysNotEmpty(dh, r.secret);
  }

  /** After a challenge is answered, its manager no longer waits on it and all others go on waiting. */
  lemma OtherWaitsUnspent(dh: DiffieHellman, s: System, a: string, peer: string, c: string)
    requires Inv(dh, s) && a in s.agents && peer in s.agents[a].pendingChallenges &&
             s.agents[a].pendingChallenges[peer] == c
    ensures forall d, p :: d in s.agents && p in s.agents[d].pendingChallenges && (d != a || p != peer) ==>
              s.agents[d].pendingChallenges[p] !in s.spent + {c}
  {
    WaitingUnspent(dh, s);
    hide Inv;
    forall d, p | d in s.agents && p in s.agents[d].pendingChallenges && (d != a || p != peer)
      ensures s.agents[d].pendingChallenges[p] !in s.spent + {c}
    {
      if s.agents[d].pendingChallenges[p] == c { WaitsOnce(dh, s, d, p, a, peer); }
    }
  }

  lemma AnsweringKeepsManager(dh: DiffieHellman, s: System, s': System, a: string, peer: string)
    requires Inv(dh, s) && Grows(s, s', a) && peer in s.agents[a].pendingChallenges
    requires s'.spent == s.spent + {s.agents[a].pendingChallenges[peer]}
    requires var m, m' := s.agents[a], s'.agents[a];
             m'.did == m.did && (!m'.encryptionEnabled ==> m'.keys == map[]) &&
             m'.pendingChallenges == m.pendingChallenges - {peer} &&
             (forall p :: p in m.pendingChallenges && p != peer ==> SameForPeer(m, m', p))
    ensures ManagerOk(dh, s', a, s'.agents[a])
  {
    hide InitRecordOk, AckRecordOk, ConfirmRecordOk, WaitOk, SameForPeer;
    var m, m' := s.agents[a], s'.agents[a];
    assert ManagerOk(dh, s, a, m);
    OtherWaitsUnspent(dh, s, a, peer, m.pendingChallenges[peer]);
    forall p | p in m'.pendingChallenges ensures WaitOk(dh, s', m', p) {
      WaitKept(dh, s, s', a, m, m', p);
    }
  }

  lemma InitFacts(dh: DiffieHellman, s: System, c: string)
    requires Inv(dh, s) && c in s.initOf
    ensures InitRecordOk(dh, s, c, s.initOf[c])
  {}

  lemma AckFacts(dh: DiffieHellman, s: System, c: string)
    requires Inv(dh, s) && c in s.ackOf
    ensures AckRecordOk(dh, s, c, s.ackOf[c])
  {}

  /** The new confirm carries the key that both secrets determine. */
  lemma HandAckRecords(dh: DiffieHellman, s: System, step: Step)
    requires step.HandAck? && Inv(dh, s) && Enabled(s, step) && Returned(dh, s, step).Some?
    ensures var s' := Next(dh, s, step);
            Grows(s, s', step.agent) && ConfirmRecordOk(dh, s', step.ack, s'.confirmOf[step.ack])
  {
    hide Inv, ManagerOk, Lawful, WaitOk, InitRecordOk;
    AcceptedAck(dh, s, step);
    AckFacts(dh, s, step.ack);
    ManagerFacts(dh, s, step.agent);
    SpentStaysKnown(dh, s);
  }

  lemma HandAckManager(dh: DiffieHellman, s: System, step: Step)
    requires step.HandAck? && Inv(dh, s) && Enabled(s, step) && Returned(dh, s, step).Some?
    ensures var s' := Next(dh, s, step); ManagerOk(dh, s', step.agent, s'.agents[step.agent])
  {
    hide Inv, ManagerOk, Lawful, WaitOk, InitRecordOk, AckRecordOk, ConfirmRecordOk, Grows, InitiatorWaits;
    HandAckRecords(dh, s, step);
    AcceptedAck(dh, s, step);
    ManagerFacts(dh, s, step.agent);
    var m, m' := s.agents[step.agent], Next(dh, s, step).agents[step.agent];
    var peer := s.ackOf[step.ack].msg.did;
    assert forall p :: p in m.pendingChallenges && p != peer ==> SameForPeer(m, m', p);
    AnsweringKeepsManager(dh, s, Next(dh, s, step), step.agent, peer);
  }

  lemma HandAckKeepsInv(dh: DiffieHellman, s: System, step: Step)
    requires step.HandAck? && Inv(dh, s) && Enabled(s, step) && Returned(dh, s, step).Some?
    ensures Inv(dh, Next(dh, s, step))
  {
    hide Inv, ManagerOk, Lawful, WaitOk, InitRecordOk, AckRecordOk, ConfirmRecordOk, Grows, ProcessAck;
    HandAckRecords(dh, s, step);
    HandAckManager(dh, s, step);
    AcceptedAck(dh, s, step);
    var r := s.ackOf[step.ack];
    OtherWaitsUnspent(dh, s, step.agent, r.msg.did, r.init.challenge);
    SpentStaysKnown(dh, s);
    InvKept(dh, s, Next(dh, s, step), step.agent);
  }

  lemma SpentStaysKnown(dh: DiffieHellman, s: System)
    requires Inv(dh, s)
    ensures s.initOf.Keys !! s.ackOf.Keys && s.spent <= s.initOf.Keys + s.ackOf.Keys
  {}

  /** A manager that accepts a confirm accepts the answer to its own ack. */
  lemma AcceptedConfirm(dh: DiffieHellman, s: System, step: Step)
    requires step.HandConfirm? && Inv(dh, s) && Enabled(s, step)
    requires Returned(dh, s, step).Some?
    ensures var m, from := s.agents[step.agent], s.confirmOf[step.confirm].msg.from;
            from in m.pendingChallenges && m.pendingChallenges[from] == step.confirm &&
            ResponderWaits(dh, s, m, from, step.confirm) &&
              ConfirmRecordOk(dh, s, step.confirm, s.confirmOf[step.confirm])
  {
    assert ConfirmRecordOk(dh, s, step.confirm, s.confirmOf[step.confirm]);
    assert ManagerOk(dh, s, step.agent, s.agents[step.agent]);
  }

  lemma HandConfirmKeepsInv(dh: DiffieHellman, s: System, step: Step)
    requires step.HandConfirm? && Inv(dh, s) && Enabled(s, step) && Returned(dh, s, step).Some?
    ensures Inv(dh, Next(dh, s, step))
  {
    hide Inv, ManagerOk, Lawful, WaitOk, InitRecordOk, AckRecordOk, ResponderWaits;
    AcceptedConfirm(dh, s, step);
    var a, m, msg := step.agent, s.agents[step.agent], s.confirmOf[step.confirm].msg;
    var (m', session) := ProcessConfirm(m, msg, PublicKey(msg.from), step.timely, step.now).value;
    var s', peer := AfterConfirm(s, a, step.confirm, m'), msg.from;
    OtherWaitsUnspent(dh, s, a, peer, step.confirm);
    ManagerFacts(dh, s, a);
    SpentStaysKnown(dh, s);
    assert Grows(s, s', a);
    assert forall p :: p in m.pendingChallenges && p != peer ==> SameForPeer(m, m', p);
    AnsweringKeepsManager(dh, s, s', a, peer);
    InvKept(dh, s, s', a);
  }

  lemma DroppingKeepsInv(dh: DiffieHellman, s: System, a: string, remote: string)
    requires Inv(dh, s) && a in s.agents
    ensures Inv(dh, AfterDrop(s, a, remote))
  {
    hide Inv, ManagerOk, InitRecordOk, AckRecordOk, ConfirmRecordOk, WaitOk, Lawful;
    var m, m' := s.agents[a], Terminate(s.agents[a], remote);
    var s' := AfterDrop(s, a, remote);
    WaitingUnspent(dh, s);
    ManagerFacts(dh, s, a);
    SpentStaysKnown(dh, s);
    forall p | p in m'.pendingChallenges ensures WaitOk(dh, s', m', p) {
      WaitKept(dh, s, s', a, m, m', p);
    }
    AllWaitsOk(dh, s', a, m');
    assert Grows(s, s', a);
    InvKept(dh, s, s', a);
  }

  lemma ExpiryDropsOrKeeps(dh: DiffieHellman, s: System, a: string, remote: string, now: int)
    requires a in s.agents
    ensures var s' := Next(dh, s, DoExpire(a, remote, now));
            s' == s || s' == AfterDrop(s, a, remote)
  {
    assert s.agents[a := s.agents[a]] == s.agents;
  }

  lemma StepKeepsInv(dh: DiffieHellman, s: System, step: Step)
    requires Inv(dh, s) && Enabled(s, step)
    ensures Inv(dh, Next(dh, s, step))
  {
    hide Inv, Lawful;
    match step
    case SendInit(a, remote, challenge, secret) => SendInitKeepsInv(dh, s, a, remote, challenge, secret);
    case HandInit(a, init, timely, challenge, secret) =>
      if timely && ProcessInit(dh, s.agents[a], s.initOf[init].msg, true, challenge, secret).Ok? {
        HandInitKeepsInv(dh, s, a, init, challenge, secret);
      }
    case HandAck(_, _, _, _, _) => if Returned(dh, s, step).Some? { HandAckKeepsInv(dh, s, step); }
    case HandConfirm(_, _, _, _) => if Returned(dh, s, step).Some? { HandConfirmKeepsInv(dh, s, step); }
    case DoTerminate(a, remote) => DroppingKeepsInv(dh, s, a, remote);
    case DoExpire(a, remote, now) =>
      DroppingKeepsInv(dh, s, a, remote);
      ExpiryDropsOrKeeps(dh, s, a, remote, now);
  }

  lemma {:induction false} RunInv(dh: DiffieHellman, trace: seq<System>, steps: seq<Step>, i: nat)
    requires IsRun(dh, trace, steps) && i < |trace|
    ensures Inv(dh, trace[i])
  {
    hide Inv, Next, Enabled, Initial;
    if i == 0 {
      InitialInv(dh, trace[0]);
    } else {
      RunInv(dh, trace, steps, i - 1);
      assert Follows(dh, trace[i - 1], steps[i - 1], trace[i]);
      StepKeepsInv(dh, trace[i - 1], steps[i - 1]);
    }
  }

  // ---------- Key agreement ----------

  /** Main result: whenever a responder returns a session marked encrypted, at any point of any run, the
      initiator that encrypts derived the very same key when it produced the confirm. Either side may at
      the same time be initiating towards the other, and messages may reach the wrong agent. */
  lemma KeyAgreement(dh: DiffieHellman, trace: seq<System>, steps: seq<Step>, i: nat)
    requires IsRun(dh, trace, steps) && i < |steps| && steps[i].HandConfirm?
    requires Enabled(trace[i], steps[i])
    requires Returned(dh, trace[i], steps[i]).Some? && Returned(dh, trace[i], steps[i]).value.encrypted
    ensures var s := trace[i];
            var r := s.confirmOf[steps[i].confirm];
            r.msg.from in s.agents && r.msg.from in s.agents[steps[i].agent].keys &&
            (if s.agents[r.msg.from].encryptionEnabled
             then r.key == Some(s.agents[steps[i].agent].keys[r.msg.from])
             else r.key == None)
  {
    hide Inv, Lawful, ManagerOk;
    RunInv(dh, trace, steps, i);
    var s, step := trace[i], steps[i];
    AcceptedConfirm(dh, s, step);
    var a := s.ackOf[step.confirm];
    AckFacts(dh, s, step.confirm);
    InitFacts(dh, s, a.init.challenge);
    SharedSymmetric(dh, a.secret, s.initOf[a.init.challenge].secret);
  }

  /** Every challenge gives rise to at most one session: an answer is accepted once, whatever is replayed. */
  lemma AnsweredOnce(dh: DiffieHellman, trace: seq<System>, steps: seq<Step>, i: nat)
    requires IsRun(dh, trace, steps) && i < |steps| && Enabled(trace[i], steps[i])
    requires Returned(dh, trace[i], steps[i]).Some?
    ensures exists c :: c !in trace[i].spent && trace[i + 1].spent == trace[i].spent + {c} &&
              c == if steps[i].HandConfirm? then steps[i].confirm else trace[i].ackOf[steps[i].ack].init.challenge
  {
    hide Inv, Lawful, InitRecordOk, AckRecordOk, ConfirmRecordOk, InitiatorWaits, ResponderWaits;
    RunInv(dh, trace, steps, i);
    var s, step := trace[i], steps[i];
    assert Follows(dh, s, step, trace[i + 1]);
    ManagerFacts(dh, s, step.agent);
    if step.HandConfirm? {
      AcceptedConfirm(dh, s, step);
      assert step.confirm !in s.spent;
    } else {
      AcceptedAck(dh, s, step);
      assert s.ackOf[step.ack].init.challenge !in s.spent;
    }
  }

  // ---------- What happens when only one side encrypts ----------

  const ALICE := "did:atel:a"
  const BOB := "did:atel:b"

  function MixedPair(ttl: int): System {
    System(map[ALICE := Start(ALICE, false, ttl), BOB := Start(BOB, true, ttl)], map[], map[], map[], {})
  }

  /** The responder then believes the session to be encrypted although the initiator has no key. */
  lemma MixedPairDisagrees(dh: DiffieHellman, ttl: int, a: Bytes, b: Bytes)
    ensures var s0 := MixedPair(ttl);
            var s1 := Next(dh, s0, SendInit(ALICE, BOB, "1", a));
            var s2 := Next(dh, s1, HandInit(BOB, "1", true, "2", b));
            var s3 := Next(dh, s2, HandAck(ALICE, "2", true, [], 0));
            var last := HandConfirm(BOB, "2", true, 0);
            Initial(s0) && Enabled(s3, last) && Returned(dh, s3, last).Some? &&
            Returned(dh, s3, last).value.encrypted && s3.confirmOf["2"].key == None && BOB !in s3.agents[ALICE].keys
  {
    PublicKeysNotEmpty(dh, a);
    PublicKeysNotEmpty(dh, b);
    var s0 := MixedPair(ttl);
    assert "1" != "2";
    var s1 := Next(dh, s0, SendInit(ALICE, BOB, "1", a));
    var s2 := Next(dh, s1, HandInit(BOB, "1", true, "2", b));
    assert ALICE in s2.agents[BOB].keys;
    var s3 := Next(dh, s2, HandAck(ALICE, "2", true, [], 0));
    assert s3.agents[BOB] == s2.agents[BOB];
  }
}
