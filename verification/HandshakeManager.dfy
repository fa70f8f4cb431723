/** The class `HandshakeManager` of `src/handshake/index.ts` on the heap, each method proved to make
    the corresponding step of `Handshake`. */
module HandshakeManagers {
  import opened Common
  import opened Crypto
  import opened Handshake

  class HandshakeManager {
    const dh: DiffieHellman
    const did: string
    const encryptionEnabled: bool
    const sessionTtlMs: int
    var sessions: map<string, Session>
    var pendingChallenges: map<string, string>
    var pendingInits: map<string, InitMsg>
    /** Secret keys drawn for inits under way, as arrays that move into an encryption session. */
    var pendingEncKeys: map<string, array<byte>>
    const encryption: EncryptionManager

    ghost predicate Valid()
      reads this`pendingEncKeys, encryption, encryption.Repr
    {
      encryption.Valid() && this !in encryption.Repr &&
      (forall p :: p in pendingEncKeys ==> pendingEncKeys[p] !in encryption.Repr) &&
      forall p, q :: p in pendingEncKeys && q in pendingEncKeys && p != q ==> pendingEncKeys[p] != pendingEncKeys[q]
    }

    /** Every object this manager reads or writes; two managers whose footprints are disjoint do not interfere. */
    ghost function Footprint(): set<object>
      reads this`pendingEncKeys, encryption
    {
      {this} + encryption.Repr + pendingEncKeys.Values
    }

    lemma Owned()
      requires Valid()
      ensures {this, encryption} + encryption.Repr + pendingEncKeys.Values == Footprint()
      ensures Now().did == did && Now().encryptionEnabled == encryptionEnabled && Now().sessionTtlMs == sessionTtlMs
      ensures Now().keys == encryption.Keys()
    {
      encryption.KeyArraysOwned("");
    }

    ghost function PendingSecrets(): map<string, Bytes>
      reads this`pendingEncKeys, pendingEncKeys.Values
    {
      map p | p in pendingEncKeys :: pendingEncKeys[p][..]
    }

    ghost function Now(): Manager
      requires Valid()
      reads this, pendingEncKeys.Values, encryption, encryption.Repr
    {
      Manager(did, encryptionEnabled, sessionTtlMs, sessions, pendingChallenges, PendingSecrets(), pendingInits,
              encryption.Keys())
    }

    constructor (dh: DiffieHellman, did: string, encryptionEnabled: bool, sessionTtlMs: int)
      ensures Valid() && fresh(Footprint() - {this}) && this.dh == dh
      ensures Now() == Start(did, encryptionEnabled, sessionTtlMs)
    {
      this.dh, this.did, this.encryptionEnabled, this.sessionTtlMs := dh, did, encryptionEnabled, sessionTtlMs;
      sessions, pendingChallenges, pendingInits, pendingEncKeys := map[], map[], map[], map[];
      encryption := new EncryptionManager();
    }

    method SendInit(remote: string, challenge: string, drawn: Bytes) returns (msg: InitMsg)
      requires Valid()
      modifies this
      ensures Valid() && fresh(Footprint() - old(Footprint()))
      ensures (Now(), msg) == CreateInit(dh, old(Now()), remote, challenge, drawn)
    {
      hide Lawful, EncryptionManager.Valid, EncryptionManager.Keys;
      pendingChallenges := pendingChallenges[remote := challenge];
      var secret := NewKey(drawn);
      pendingEncKeys := pendingEncKeys[remote := secret];
      assert PendingSecrets() == old(PendingSecrets())[remote := drawn];
      msg := InitMsg(did, remote, did, PublicKey(did), dh.publicOf(drawn), challenge, PublicKey(did));
    }

    method ReceiveInit(init: InitMsg, timely: bool, challenge: string, drawn: Bytes)
      returns (r: Result<AckMsg, HandshakeError>)
      requires Valid()
      modifies this, encryption
      ensures Valid() && fresh(Footprint() - old(Footprint()))
      ensures match ProcessInit(dh, old(Now()), init, timely, challenge, drawn)
              case Ok((m, ack)) => Now() == m && r == Ok(ack)
              case Err(e) => Now() == old(Now()) && r == Err(e)
    {
      hide Lawful, EncryptionManager.Valid, EncryptionManager.Keys, PendingSecrets;
      if init.signedBy != init.publicKey || !timely { return Err(MessageInvalid); }
      if PublicKey(init.did) != init.publicKey { return Err(DidMismatch); }
      pendingChallenges := pendingChallenges[init.did := challenge];
      pendingInits := pendingInits[init.did := init];
      if encryptionEnabled && init.encPublicKey != [] {
        var secret := NewKey(drawn);
        var sharedKey := NewKey(dh.shared(drawn, init.encPublicKey));
        encryption.CreateSessionWithKeys(init.did, secret, init.encPublicKey, sharedKey);
      }
      assert PendingSecrets() == old(PendingSecrets());
      r := Ok(AckMsg(did, init.did, did, PublicKey(did), dh.publicOf(drawn), challenge,
                     Sig(PublicKey(did), init.challenge), PublicKey(did)));
    }

    /** The array of the pending secret moves into a new session; the one before it is wiped. */
    method TakeOver(remote: string, remoteEncPublicKey: Bytes)
      requires Valid() && remote in pendingEncKeys
      modifies this`pendingEncKeys, encryption, encryption.Repr
      ensures Valid() && fresh(encryption.Repr - old(encryption.Repr) - {old(pendingEncKeys[remote])})
      ensures pendingEncKeys == old(pendingEncKeys) - {remote}
      ensures remote in old(PendingSecrets()) && PendingSecrets() == old(PendingSecrets()) - {remote}
      ensures encryption.Keys() ==
              old(encryption.Keys())[remote := dh.shared(old(PendingSecrets())[remote], remoteEncPublicKey)]
    {
      hide Lawful, EncryptionManager.Valid, EncryptionManager.Keys;
      var ours := pendingEncKeys[remote];
      ghost var others := pendingEncKeys - {remote};
      assert forall p :: p in others ==> others[p] !in encryption.Repr && others[p] != ours;
      var sharedKey := NewKey(dh.shared(ours[..], remoteEncPublicKey));
      ReplaceSession(remote, ours, remoteEncPublicKey, sharedKey);
      assert forall p :: p in others ==> others[p] !in encryption.Repr && others[p][..] == old(others[p][..]);
      pendingEncKeys := pendingEncKeys - {remote};
    }

    method ReplaceSession(remote: string, ours: array<byte>, remoteEncPublicKey: Bytes, sharedKey: array<byte>)
      requires encryption.Valid() && this !in encryption.Repr
      requires ours !in encryption.Repr && sharedKey !in encryption.Repr && ours != sharedKey
      modifies encryption, encryption.Repr
      ensures encryption.Valid() && encryption.Repr == old(encryption.Repr) + {ours, sharedKey}
      ensures encryption.Keys() == old(encryption.Keys())[remote := sharedKey[..]]
      ensures sharedKey[..] == old(sharedKey[..])
    {
      hide EncryptionManager.Valid, EncryptionManager.Keys;
      encryption.KeyArraysOwned(remote);
      encryption.DestroySession(remote);
      encryption.CreateSessionWithKeys(remote, ours, remoteEncPublicKey, sharedKey);
      SameOverrideAfterRemoval(old(encryption.Keys()), remote, sharedKey[..]);
    }

    lemma SameOverrideAfterRemoval(m: map<string, Bytes>, k: string, v: Bytes)
      ensures (m - {k})[k := v] == m[k := v]
    {}

    /** Creates a session with a throwaway key, then replaces it by the one derived from the pending
        secret, if that is still there. */
    method Establish(remote: string, remoteEncPublicKey: Bytes, throwaway: Bytes) returns (encrypted: bool)
      requires Valid()
      modifies this`pendingEncKeys, encryption, encryption.Repr
      ensures Valid() && fresh(encryption.Repr - old(encryption.Repr) - old(pendingEncKeys.Values))
      ensures pendingEncKeys == if encrypted then old(pendingEncKeys) - {remote} else old(pendingEncKeys)
      ensures encrypted == (remote in old(PendingSecrets()))
      ensures PendingSecrets() == if encrypted then old(PendingSecrets()) - {remote} else old(PendingSecrets())
      ensures encryption.Keys() == old(encryption.Keys())[remote :=
                dh.shared(if encrypted then old(PendingSecrets())[remote] else throwaway, remoteEncPublicKey)]
    {
      hide Lawful, EncryptionManager.Valid, EncryptionManager.Keys;
      var _ := encryption.CreateSession(dh, remote, remoteEncPublicKey, throwaway);
      assert PendingSecrets() == old(PendingSecrets());
      if remote !in pendingEncKeys { return false; }
      TakeOver(remote, remoteEncPublicKey);
      encrypted := true;
    }

    method ReceiveAck(ack: AckMsg, timely: bool, throwaway: Bytes, now: int)
      returns (r: Result<(ConfirmMsg, Session), HandshakeError>)
      requires Valid()
      modifies this, encryption, encryption.Repr
      ensures Valid() && fresh(Footprint() - old(Footprint()))
      ensures match ProcessAck(dh, old(Now()), ack, timely, throwaway, now)
              case Ok((m, confirm, session)) => Now() == m && r == Ok((confirm, session))
              case Err(e) => Now() == old(Now()) && r == Err(e)
    {
      hide Lawful, EncryptionManager.Valid, EncryptionManager.Keys, PendingSecrets;
      if ack.signedBy != ack.publicKey || !timely { return Err(MessageInvalid); }
      if ack.did !in pendingChallenges || pendingChallenges[ack.did] == "" { return Err(NoPendingHandshake); }
      if !SigVerifies(pendingChallenges[ack.did], ack.challengeResponse, ack.publicKey) { return Err(ChallengeFailed); }
      pendingChallenges := pendingChallenges - {ack.did};
      var encrypted := false;
      if encryptionEnabled && ack.encPublicKey != [] {
        encrypted := Establish(ack.did, ack.encPublicKey, throwaway);
      }
      var confirm := ConfirmMsg(did, ack.did, Sig(PublicKey(did), ack.challenge), PublicKey(did));
      var session := Session(ack.did, ack.publicKey, encrypted, now + sessionTtlMs);
      sessions := sessions[ack.did := session];
      r := Ok((confirm, session));
    }

    method ReceiveConfirm(confirm: ConfirmMsg, initiatorKey: PublicKey, timely: bool, now: int)
      returns (r: Result<Session, HandshakeError>)
      requires Valid()
      modifies this
      ensures Valid() && Footprint() == old(Footprint())
      ensures match ProcessConfirm(old(Now()), confirm, initiatorKey, timely, now)
              case Ok((m, session)) => Now() == m && r == Ok(session)
              case Err(e) => Now() == old(Now()) && r == Err(e)
    {
      hide Lawful, EncryptionManager.Valid, EncryptionManager.Keys, PendingSecrets;
      if confirm.signedBy != initiatorKey || !timely { return Err(MessageInvalid); }
      if confirm.from !in pendingChallenges || pendingChallenges[confirm.from] == "" { return Err(NoPendingHandshake); }
      if !SigVerifies(pendingChallenges[confirm.from], confirm.challengeResponse, initiatorKey) {
        return Err(ChallengeFailed);
      }
      pendingChallenges := pendingChallenges - {confirm.from};
      pendingInits := pendingInits - {confirm.from};
      var encrypted := encryption.HasSession(confirm.from);
      var session := Session(confirm.from, initiatorKey, encrypted, now + sessionTtlMs);
      sessions := sessions[confirm.from := session];
      r := Ok(session);
    }

    method TerminateSession(remote: string)
      requires Valid()
      modifies this, encryption.Repr
      ensures Valid() && Footprint() == old(Footprint()) && Now() == Terminate(old(Now()), remote)
      ensures remote in old(encryption.sessions) ==> Wiped(old(encryption.sessions)[remote])
    {
      hide Lawful, EncryptionManager.Valid, EncryptionManager.Keys;
      sessions := sessions - {remote};
      encryption.KeyArraysOwned(remote);
      encryption.DestroySession(remote);
      assert PendingSecrets() == old(PendingSecrets());
    }

    method GetSession(remote: string, now: int) returns (session: Option<Session>)
      requires Valid()
      modifies this, encryption.Repr
      ensures Valid() && Footprint() == old(Footprint()) && Now() == Expire(old(Now()), remote, now)
      ensures session == if remote in Now().sessions then Some(Now().sessions[remote]) else None
      ensures session.Some? <==> remote in old(sessions) && now <= old(sessions)[remote].expiresAt
      ensures session.Some? ==> session.value == old(sessions)[remote]
    {
      if remote !in sessions { return None; }
      if sessions[remote].expiresAt < now {
        TerminateSession(remote);
        return None;
      }
      session := Some(sessions[remote]);
    }
  }

  // ---------- A whole handshake ----------

  /** The three messages delivered in turn, as functions: nobody refuses, and both derive the same key. */
  lemma ThreeMessages(dh: DiffieHellman, a: Manager, b: Manager, challenge: string, secret: Bytes,
                      reply: string, replySecret: Bytes, throwaway: Bytes, now: int)
    requires a.encryptionEnabled && b.encryptionEnabled && challenge != "" && reply != ""
    ensures var (a1, init) := CreateInit(dh, a, b.did, challenge, secret);
            var r1 := ProcessInit(dh, b, init, true, reply, replySecret);
            r1.Ok? &&
            var (b1, ack) := r1.value;
            var r2 := ProcessAck(dh, a1, ack, true, throwaway, now);
            r2.Ok? &&
            var (a2, confirm, session) := r2.value;
            var r3 := ProcessConfirm(b1, confirm, PublicKey(a.did), true, now);
            r3.Ok? &&
            var (b2, replySession) := r3.value;
            session == Session(b.did, PublicKey(b.did), true, now + a.sessionTtlMs) &&
            replySession == Session(a.did, PublicKey(a.did), true, now + b.sessionTtlMs) &&
            a2.keys == a.keys[b.did := dh.shared(secret, dh.publicOf(replySecret))] &&
            b2.keys == b.keys[a.did := dh.shared(secret, dh.publicOf(replySecret))]
  {
    PublicKeysNotEmpty(dh, secret);
    PublicKeysNotEmpty(dh, replySecret);
    SharedSymmetric(dh, secret, replySecret);
  }

  /** The first two messages. */
  method Open(a: HandshakeManager, b: HandshakeManager, challenge: string, secret: Bytes, reply: string,
              replySecret: Bytes)
    returns (ack: Result<AckMsg, HandshakeError>)
    requires a.Valid() && b.Valid() && a.Footprint() !! b.Footprint()
    modifies a.Footprint(), b.Footprint()
    ensures a.Valid() && b.Valid() && a.Footprint() !! b.Footprint()
    ensures fresh(a.Footprint() - old(a.Footprint())) && fresh(b.Footprint() - old(b.Footprint()))
    ensures var (a1, init) := CreateInit(a.dh, old(a.Now()), b.did, challenge, secret);
            a.Now() == a1 &&
            match ProcessInit(b.dh, old(b.Now()), init, true, reply, replySecret)
            case Ok((b1, answer)) => b.Now() == b1 && ack == Ok(answer)
            case Err(e) => b.Now() == old(b.Now()) && ack == Err(e)
  {
    hide *;
    a.Owned();
    b.Owned();
    var init := a.SendInit(b.did, challenge, secret);
    a.Owned();
    assert b.Valid() && b.Now() == old(b.Now()) && b.Footprint() == old(b.Footprint());
    ack := b.ReceiveInit(init, true, reply, replySecret);
    b.Owned();
  }

  /** The last two. */
  method Close(a: HandshakeManager, b: HandshakeManager, ack: AckMsg, throwaway: Bytes, now: int)
    returns (session: Result<Session, HandshakeError>, replySession: Result<Session, HandshakeError>)
    requires a.Valid() && b.Valid() && a.Footprint() !! b.Footprint()
    modifies a.Footprint(), b.Footprint()
    ensures a.Valid() && b.Valid() && a.Footprint() !! b.Footprint()
    ensures match ProcessAck(a.dh, old(a.Now()), ack, true, throwaway, now)
            case Ok((a2, confirm, s)) =>
              a.Now() == a2 && session == Ok(s) &&
              (match ProcessConfirm(old(b.Now()), confirm, PublicKey(a.did), true, now)
               case Ok((b2, t)) => b.Now() == b2 && replySession == Ok(t)
               case Err(e) => b.Now() == old(b.Now()) && replySession == Err(e))
            case Err(e) => a.Now() == old(a.Now()) && session == Err(e)
  {
    hide *;
    a.Owned();
    b.Owned();
    var confirm := a.ReceiveAck(ack, true, throwaway, now);
    a.Owned();
    match confirm
    case Err(e) => session, replySession := Err(e), Err(e);
    case Ok((c, s)) =>
      session := Ok(s);
      replySession := b.ReceiveConfirm(c, PublicKey(a.did), true, now);
      b.Owned();
  }

  /** What a client and a server do when nothing is lost: two managers that share no memory end with the
      same key for each other, and every other key untouched. */
  method PerformHandshake(a: HandshakeManager, b: HandshakeManager, challenge: string, secret: Bytes,
                          reply: string, replySecret: Bytes, throwaway: Bytes, now: int)
    returns (session: Session, replySession: Session)
    requires a.Valid() && b.Valid() && a.Footprint() !! b.Footprint() && a.dh == b.dh
    requires a.encryptionEnabled && b.encryptionEnabled && challenge != "" && reply != ""
    modifies a.Footprint(), b.Footprint()
    ensures a.Valid() && b.Valid() && a.Footprint() !! b.Footprint()
    ensures session == Session(b.did, PublicKey(b.did), true, now + a.sessionTtlMs)
    ensures replySession == Session(a.did, PublicKey(a.did), true, now + b.sessionTtlMs)
    ensures var key := a.dh.shared(secret, a.dh.publicOf(replySecret));
            a.encryption.Keys() == old(a.encryption.Keys())[b.did := key] &&
            b.encryption.Keys() == old(b.encryption.Keys())[a.did := key]
  {
    hide *;
    a.Owned();
    b.Owned();
    ThreeMessages(a.dh, a.Now(), b.Now(), challenge, secret, reply, replySecret, throwaway, now);
    var ack := Open(a, b, challenge, secret, reply, replySecret);
    var first, second := Close(a, b, ack.value, throwaway, now);
    a.Owned();
    b.Owned();
    session, replySession := first.value, second.value;
  }
}
