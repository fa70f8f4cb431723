/** Which sessions and keys a manager of `src/handshake/index.ts` holds, stated over the steps of a run, and which
    messages it accepts. */
module SessionLifetime {
  import opened Common
  import opened Crypto
  import opened Handshake

  /** At this step `agent` accepts an ack or a confirm of `peer` and so sets up a session with it. */
  ghost predicate Establishes(dh: DiffieHellman, s: System, step: Step, agent: string, peer: string) {
    Enabled(s, step) && step.agent == agent && (step.HandAck? || step.HandConfirm?) &&
    Returned(dh, s, step).Some? && Returned(dh, s, step).value.remoteDid == peer
  }

  /** At this step `agent` drops its session with `peer`: it terminates it, or asks for it after `expiresAt`. */
  predicate Drops(step: Step, agent: string, peer: string, expiresAt: int) {
    step.agent == agent &&
    match step
    case DoTerminate(_, remote) => remote == peer
    case DoExpire(_, remote, now) => remote == peer && expiresAt < now
    case _ => false
  }

  lemma EstablishedSession(dh: DiffieHellman, s: System, step: Step, agent: string, peer: string)
    requires Establishes(dh, s, step, agent, peer)
    ensures var session, s' := Returned(dh, s, step).value, Next(dh, s, step);
            session.expiresAt == step.now + s.agents[agent].sessionTtlMs &&
            agent in s'.agents && s'.agents[agent].sessionTtlMs == s.agents[agent].sessionTtlMs &&
            peer in s'.agents[agent].sessions && s'.agents[agent].sessions[peer] == session
  {
    hide Lawful, SigVerifies;
  }

  /** The effect of one step on one session. */
  ghost predicate StepEffect(dh: DiffieHellman, s: System, step: Step, agent: string, peer: string)
    requires Enabled(s, step) && agent in s.agents
  {
    var s' := Next(dh, s, step);
    agent in s'.agents && s'.agents[agent].sessionTtlMs == s.agents[agent].sessionTtlMs &&
    var before, after := s.agents[agent].sessions, s'.agents[agent].sessions;
    if Establishes(dh, s, step, agent, peer) then peer in after && after[peer] == Returned(dh, s, step).value
    else if peer in before && !Drops(step, agent, peer, before[peer].expiresAt)
    then peer in after && after[peer] == before[peer]
    else peer !in after
  }

  lemma AckEffect(dh: DiffieHellman, s: System, step: Step, agent: string, peer: string)
    requires Enabled(s, step) && agent in s.agents && step.HandAck?
    ensures StepEffect(dh, s, step, agent, peer)
  {
    hide Lawful, SigVerifies, ProcessConfirm, ProcessInit;
  }

  lemma ConfirmEffect(dh: DiffieHellman, s: System, step: Step, agent: string, peer: string)
    requires Enabled(s, step) && agent in s.agents && step.HandConfirm?
    ensures StepEffect(dh, s, step, agent, peer)
  {
    hide Lawful, SigVerifies, ProcessAck, ProcessInit;
  }

  lemma OtherEffect(dh: DiffieHellman, s: System, step: Step, agent: string, peer: string)
    requires Enabled(s, step) && agent in s.agents && !step.HandAck? && !step.HandConfirm?
    ensures StepEffect(dh, s, step, agent, peer)
  {
    hide Lawful, SigVerifies, ProcessAck, ProcessConfirm;
  }

  lemma SessionStep(dh: DiffieHellman, s: System, step: Step, agent: string, peer: string)
    requires Enabled(s, step) && agent in s.agents
    ensures StepEffect(dh, s, step, agent, peer)
  {
    hide StepEffect, Enabled;
    if step.HandAck? {
      AckEffect(dh, s, step, agent, peer);
    } else if step.HandConfirm? {
      ConfirmEffect(dh, s, step, agent, peer);
    } else {
      OtherEffect(dh, s, step, agent, peer);
    }
  }

  /** The session set up at step `i` stands at state `j`: since then the agent set up no other with that peer, and
      did not drop it. Its session time is the one that it started with. */
  ghost predicate Stands(dh: DiffieHellman, trace: seq<System>, steps: seq<Step>, i: nat, j: nat, agent: string,
                         peer: string, ttl: int)
    requires j <= |steps| < |trace|
  {
    i < j && Establishes(dh, trace[i], steps[i], agent, peer) &&
    forall m :: i < m < j ==>
      !Establishes(dh, trace[m], steps[m], agent, peer) && !Drops(steps[m], agent, peer, steps[i].now + ttl)
  }

  ghost predicate Explained(dh: DiffieHellman, trace: seq<System>, steps: seq<Step>, j: nat, agent: string,
                            peer: string, ttl: int)
    requires j <= |steps| < |trace|
  {
    agent in trace[j].agents && trace[j].agents[agent].sessionTtlMs == ttl &&
    var sessions := trace[j].agents[agent].sessions;
    (peer in sessions ==> exists i: nat :: Stands(dh, trace, steps, i, j, agent, peer, ttl)) &&
    forall i: nat :: Stands(dh, trace, steps, i, j, agent, peer, ttl) ==>
      Enabled(trace[i], steps[i]) && peer in sessions && Some(sessions[peer]) == Returned(dh, trace[i], steps[i]) &&
      sessions[peer].expiresAt == steps[i].now + ttl
  }

  lemma StandsLonger(dh: DiffieHellman, trace: seq<System>, steps: seq<Step>, i: nat, j: nat, agent: string,
                     peer: string, ttl: int)
    requires j < |steps| < |trace|
    ensures Stands(dh, trace, steps, i, j + 1, agent, peer, ttl) <==>
            if i == j then Establishes(dh, trace[j], steps[j], agent, peer)
            else Stands(dh, trace, steps, i, j, agent, peer, ttl) &&
                 !Establishes(dh, trace[j], steps[j], agent, peer) && !Drops(steps[j], agent, peer, steps[i].now + ttl)
  {
    hide Establishes, Drops;
  }

  lemma ExplainedStep(dh: DiffieHellman, trace: seq<System>, steps: seq<Step>, j: nat, agent: string, peer: string,
                      ttl: int)
    requires j < |steps| < |trace| && Explained(dh, trace, steps, j, agent, peer, ttl)
    requires Enabled(trace[j], steps[j]) && trace[j + 1] == Next(dh, trace[j], steps[j])
    ensures Explained(dh, trace, steps, j + 1, agent, peer, ttl)
  {
    SessionStep(dh, trace[j], steps[j], agent, peer);
    var now := Establishes(dh, trace[j], steps[j], agent, peer);
    if now {
      EstablishedSession(dh, trace[j], steps[j], agent, peer);
    }
    hide Lawful, Next, Enabled, Returned, Establishes, Drops;
    forall i: nat
      ensures Stands(dh, trace, steps, i, j + 1, agent, peer, ttl) <==>
              if i == j then now
              else Stands(dh, trace, steps, i, j, agent, peer, ttl) && !now &&
                   !Drops(steps[j], agent, peer, steps[i].now + ttl)
    {
      StandsLonger(dh, trace, steps, i, j, agent, peer, ttl);
    }
    hide Stands;
  }

  lemma {:induction false} EveryoneExplained(dh: DiffieHellman, trace: seq<System>, steps: seq<Step>, j: nat,
                                             agent: string, peer: string)
    requires IsRun(dh, trace, steps) && j <= |steps| && agent in trace[0].agents
    ensures Explained(dh, trace, steps, j, agent, peer, trace[0].agents[agent].sessionTtlMs)
  {
    hide Next, Enabled, Establishes, Drops, Returned;
    if j > 0 {
      EveryoneExplained(dh, trace, steps, j - 1, agent, peer);
      assert Follows(dh, trace[j - 1], steps[j - 1], trace[j]);
      ExplainedStep(dh, trace, steps, j - 1, agent, peer, trace[0].agents[agent].sessionTtlMs);
    }
  }

  /** Main result: over every run, asking a manager for the session with a peer gives the one that it set up at the
      last step `i` at which it accepted an ack or confirm of that peer, if it has not dropped it since and its
      session time has not passed; and gives none otherwise. */
  lemma SessionGivenExactly(dh: DiffieHellman, trace: seq<System>, steps: seq<Step>, j: nat, agent: string,
                            peer: string, now: int)
    requires IsRun(dh, trace, steps) && j <= |steps| && agent in trace[0].agents
    ensures agent in trace[j].agents
    ensures var ttl, given := trace[0].agents[agent].sessionTtlMs, Expire(trace[j].agents[agent], peer, now).sessions;
            (peer in given <==>
             exists i: nat :: Stands(dh, trace, steps, i, j, agent, peer, ttl) && now <= steps[i].now + ttl) &&
            forall i: nat :: Stands(dh, trace, steps, i, j, agent, peer, ttl) && now <= steps[i].now + ttl ==>
              Enabled(trace[i], steps[i]) && Some(given[peer]) == Returned(dh, trace[i], steps[i])
  {
    EveryoneExplained(dh, trace, steps, j, agent, peer);
    hide IsRun, Stands, Returned, Enabled, Lawful;
  }

  // ---------- What is accepted ----------

  /** A challenge is outstanding for this peer. */
  ghost predicate Awaits(m: Manager, peer: string) {
    peer in m.pendingChallenges && m.pendingChallenges[peer] != ""
  }

  /** An init is accepted exactly when it is timely, its envelope is signed under the key it announces, and that key
      is the one of the DID it names. */
  lemma InitAcceptedExactly(dh: DiffieHellman, m: Manager, init: InitMsg, timely: bool, challenge: string,
                            secret: Bytes)
    ensures var r, signed := ProcessInit(dh, m, init, timely, challenge, secret), init.signedBy == init.publicKey;
            (r.Ok? <==> timely && signed && init.publicKey == PublicKey(init.did)) &&
            (r == Err(DidMismatch) <==> timely && signed && init.publicKey != PublicKey(init.did)) &&
            (r == Err(MessageInvalid) <==> !timely || !signed)
  {
    hide Lawful;
  }

  /** An ack is accepted exactly when it is timely, its envelope is signed under the key it announces, and this key
      has signed the challenge that is outstanding for its sender. */
  lemma AckAcceptedExactly(dh: DiffieHellman, m: Manager, ack: AckMsg, timely: bool, throwaway: Bytes, now: int)
    ensures var r := ProcessAck(dh, m, ack, timely, throwaway, now);
            var heard := timely && ack.signedBy == ack.publicKey;
            var awaited := heard && Awaits(m, ack.did);
            (r.Ok? <==> awaited && ack.challengeResponse == Sig(ack.publicKey, m.pendingChallenges[ack.did])) &&
            (r == Err(ChallengeFailed) <==>
             awaited && ack.challengeResponse != Sig(ack.publicKey, m.pendingChallenges[ack.did])) &&
            (r == Err(NoPendingHandshake) <==> heard && !awaited) &&
            (r == Err(MessageInvalid) <==> !heard)
  {
    hide Lawful;
  }

  /** A confirm is accepted exactly when it is timely and the initiator's key has signed both its envelope and the
      challenge that is outstanding for its sender. */
  lemma ConfirmAcceptedExactly(m: Manager, confirm: ConfirmMsg, initiatorKey: PublicKey, timely: bool, now: int)
    ensures var r := ProcessConfirm(m, confirm, initiatorKey, timely, now);
            var heard := timely && confirm.signedBy == initiatorKey;
            var awaited := heard && Awaits(m, confirm.from);
            (r.Ok? <==> awaited && confirm.challengeResponse == Sig(initiatorKey, m.pendingChallenges[confirm.from])) &&
            (r == Err(ChallengeFailed) <==>
             awaited && confirm.challengeResponse != Sig(initiatorKey, m.pendingChallenges[confirm.from])) &&
            (r == Err(NoPendingHandshake) <==> heard && !awaited) &&
            (r == Err(MessageInvalid) <==> !heard)
  {}

  /** An accepted answer leaves nothing outstanding for its sender, so that it is accepted once. */
  lemma AcceptedOnce(dh: DiffieHellman, m: Manager, ack: AckMsg, confirm: ConfirmMsg, key: PublicKey, timely: bool,
                     throwaway: Bytes, now: int)
    ensures var r := ProcessAck(dh, m, ack, timely, throwaway, now);
            r.Ok? ==> ProcessAck(dh, r.value.0, ack, timely, throwaway, now) == Err(NoPendingHandshake)
    ensures var r := ProcessConfirm(m, confirm, key, timely, now);
            r.Ok? ==> confirm.from !in r.value.0.pendingInits &&
                      ProcessConfirm(r.value.0, confirm, key, timely, now) == Err(NoPendingHandshake)
  {
    hide Lawful;
  }

  // ---------- Keys ----------

  /** The key that `agent` derives for `peer` at this step, if any: by an accepted init, from the secret it draws; by
      an accepted ack, from the secret it drew for the init, or from one that it throws away if it has none. Both
      sides must offer encryption. */
  ghost function KeyGiven(dh: DiffieHellman, s: System, step: Step, agent: string, peer: string): Option<Bytes>
    requires Enabled(s, step) && agent in s.agents
  {
    var m := s.agents[agent];
    if step.agent != agent || !m.encryptionEnabled then None
    else
      match step
      case HandInit(_, init, timely, challenge, secret) =>
        var msg := s.initOf[init].msg;
        if msg.did == peer && msg.encPublicKey != [] && ProcessInit(dh, m, msg, timely, challenge, secret).Ok?
        then Some(dh.shared(secret, msg.encPublicKey)) else None
      case HandAck(_, ack, timely, throwaway, now) =>
        var msg := s.ackOf[ack].msg;
        if msg.did == peer && msg.encPublicKey != [] && ProcessAck(dh, m, msg, timely, throwaway, now).Ok?
        then Some(dh.shared(if peer in m.pendingSecrets then m.pendingSecrets[peer] else throwaway, msg.encPublicKey))
        else None
      case _ => None
  }

  /** At this step `agent` forgets its key for `peer`, with the session if there is one. */
  ghost predicate Forgets(s: System, step: Step, agent: string, peer: string)
    requires agent in s.agents
  {
    var sessions := s.agents[agent].sessions;
    step.agent == agent &&
    ((step.DoTerminate? && step.remote == peer) ||
     (step.DoExpire? && step.remote == peer && peer in sessions && sessions[peer].expiresAt < step.now))
  }

  ghost function KeyHeld(s: System, agent: string, peer: string): Option<Bytes>
    requires agent in s.agents
  {
    if peer in s.agents[agent].keys then Some(s.agents[agent].keys[peer]) else None
  }

  ghost function KeyAfter(dh: DiffieHellman, s: System, step: Step, agent: string, peer: string): Option<Bytes>
    requires Enabled(s, step) && agent in s.agents
  {
    if KeyGiven(dh, s, step, agent, peer).Some? then KeyGiven(dh, s, step, agent, peer)
    else if Forgets(s, step, agent, peer) then None
    else KeyHeld(s, agent, peer)
  }

  ghost predicate KeyEffect(dh: DiffieHellman, s: System, step: Step, agent: string, peer: string)
    requires Enabled(s, step) && agent in s.agents
  {
    agent in Next(dh, s, step).agents && KeyHeld(Next(dh, s, step), agent, peer) == KeyAfter(dh, s, step, agent, peer)
  }

  lemma AckKeyEffect(dh: DiffieHellman, s: System, step: Step, agent: string, peer: string)
    requires Enabled(s, step) && agent in s.agents && step.HandAck?
    ensures KeyEffect(dh, s, step, agent, peer)
  {
    hide Lawful, SigVerifies, ProcessConfirm, ProcessInit;
  }

  lemma InitKeyEffect(dh: DiffieHellman, s: System, step: Step, agent: string, peer: string)
    requires Enabled(s, step) && agent in s.agents && step.HandInit?
    ensures KeyEffect(dh, s, step, agent, peer)
  {
    hide Lawful, SigVerifies, ProcessConfirm, ProcessAck;
  }

  lemma OtherKeyEffect(dh: DiffieHellman, s: System, step: Step, agent: string, peer: string)
    requires Enabled(s, step) && agent in s.agents && !step.HandAck? && !step.HandInit?
    ensures KeyEffect(dh, s, step, agent, peer)
  {
    hide Lawful, SigVerifies, ProcessInit, ProcessAck;
  }

  lemma KeyStep(dh: DiffieHellman, s: System, step: Step, agent: string, peer: string)
    requires Enabled(s, step) && agent in s.agents
    ensures KeyEffect(dh, s, step, agent, peer)
  {
    hide KeyEffect, Enabled;
    if step.HandAck? {
      AckKeyEffect(dh, s, step, agent, peer);
    } else if step.HandInit? {
      InitKeyEffect(dh, s, step, agent, peer);
    } else {
      OtherKeyEffect(dh, s, step, agent, peer);
    }
  }

  ghost predicate Gives(dh: DiffieHellman, s: System, step: Step, agent: string, peer: string, key: Bytes) {
    Enabled(s, step) && agent in s.agents && KeyGiven(dh, s, step, agent, peer) == Some(key)
  }

  ghost predicate LeavesKey(dh: DiffieHellman, s: System, step: Step, agent: string, peer: string) {
    Enabled(s, step) && agent in s.agents && KeyGiven(dh, s, step, agent, peer).None? && !Forgets(s, step, agent, peer)
  }

  /** `agent` derived the key for `peer` at step `i`, and since then derived no other and did not forget it. */
  ghost predicate LastGiven(dh: DiffieHellman, trace: seq<System>, steps: seq<Step>, i: nat, j: nat, agent: string,
                            peer: string, key: Bytes)
    requires j <= |steps| < |trace|
  {
    i < j && Gives(dh, trace[i], steps[i], agent, peer, key) &&
    forall m :: i < m < j ==> LeavesKey(dh, trace[m], steps[m], agent, peer)
  }

  ghost predicate HasKeyFrom(dh: DiffieHellman, trace: seq<System>, steps: seq<Step>, j: nat, agent: string,
                             peer: string, key: Bytes)
    requires j <= |steps| < |trace|
  {
    exists i: nat :: LastGiven(dh, trace, steps, i, j, agent, peer, key)
  }

  lemma LastGivenStep(dh: DiffieHellman, trace: seq<System>, steps: seq<Step>, i: nat, j: nat, agent: string,
                      peer: string, key: Bytes)
    requires j < |steps| < |trace|
    ensures LastGiven(dh, trace, steps, i, j + 1, agent, peer, key) <==>
            if i == j then Gives(dh, trace[j], steps[j], agent, peer, key)
            else LastGiven(dh, trace, steps, i, j, agent, peer, key) && LeavesKey(dh, trace[j], steps[j], agent, peer)
  {
    hide Gives, LeavesKey;
  }

  lemma SomeLastGiven(dh: DiffieHellman, trace: seq<System>, steps: seq<Step>, j: nat, agent: string, peer: string,
                      key: Bytes)
    requires j < |steps| < |trace|
    ensures HasKeyFrom(dh, trace, steps, j + 1, agent, peer, key) <==>
            Gives(dh, trace[j], steps[j], agent, peer, key) ||
            (LeavesKey(dh, trace[j], steps[j], agent, peer) && HasKeyFrom(dh, trace, steps, j, agent, peer, key))
  {
    hide Gives, LeavesKey;
    var next := j + 1;
    if i: nat :| LastGiven(dh, trace, steps, i, next, agent, peer, key) {
      LastGivenStep(dh, trace, steps, i, j, agent, peer, key);
    }
    if Gives(dh, trace[j], steps[j], agent, peer, key) {
      LastGivenStep(dh, trace, steps, j, j, agent, peer, key);
    }
    if i: nat :| LastGiven(dh, trace, steps, i, j, agent, peer, key) {
      LastGivenStep(dh, trace, steps, i, j, agent, peer, key);
    }
  }

  lemma OneStepOfKey(dh: DiffieHellman, s: System, step: Step, agent: string, peer: string, key: Bytes)
    requires Enabled(s, step) && agent in s.agents
    ensures agent in Next(dh, s, step).agents
    ensures KeyHeld(Next(dh, s, step), agent, peer) == Some(key) <==>
            Gives(dh, s, step, agent, peer, key) ||
            (LeavesKey(dh, s, step, agent, peer) && KeyHeld(s, agent, peer) == Some(key))
  {
    KeyStep(dh, s, step, agent, peer);
    hide Lawful, Next, Enabled, KeyGiven, Forgets, KeyHeld;
  }

  /** Main result: over every run, the key that an agent holds for a peer is the one that it derived last for that
      peer, if it has not forgotten it since; and otherwise it holds none. */
  lemma {:induction false} KeyHeldExactly(dh: DiffieHellman, trace: seq<System>, steps: seq<Step>, j: nat,
                                          agent: string, peer: string, key: Bytes)
    requires IsRun(dh, trace, steps) && j <= |steps| && agent in trace[0].agents
    ensures agent in trace[j].agents
    ensures KeyHeld(trace[j], agent, peer) == Some(key) <==>
            exists i: nat :: LastGiven(dh, trace, steps, i, j, agent, peer, key)
  {
    hide Next, Enabled, Gives, LeavesKey, Lawful;
    if j > 0 {
      KeyHeldExactly(dh, trace, steps, j - 1, agent, peer, key);
      assert Follows(dh, trace[j - 1], steps[j - 1], trace[j]);
      OneStepOfKey(dh, trace[j - 1], steps[j - 1], agent, peer, key);
      SomeLastGiven(dh, trace, steps, j - 1, agent, peer, key);
      hide KeyHeld, HasKeyFrom, IsRun;
    }
  }
}
