/** Key exchange and encryption sessions of `src/crypto/index.ts`. */
module Crypto {
  import opened Common

  newtype byte = b: int | 0 <= b < 256

  type Bytes = seq<byte>

  const KEY_LENGTH := 32

  /** X25519 with its key derivation, as far as agreement depends on it. */
  datatype Exchange = Exchange(publicOf: Bytes -> Bytes, shared: (Bytes, Bytes) -> Bytes)

  ghost predicate Lawful(x: Exchange) {
    (forall a, b :: x.shared(a, x.publicOf(b)) == x.shared(b, x.publicOf(a))) &&
    (forall a :: |x.publicOf(a)| == KEY_LENGTH) &&
    forall a, p :: |x.shared(a, p)| == KEY_LENGTH
  }

  type DiffieHellman = x: Exchange | Lawful(x)
    ghost witness Exchange(a => seq(KEY_LENGTH, _ => 0), (a, p) => seq(KEY_LENGTH, _ => 0))

  lemma SharedSymmetric(dh: DiffieHellman, a: Bytes, b: Bytes)
    ensures dh.shared(a, dh.publicOf(b)) == dh.shared(b, dh.publicOf(a))
  {}

  lemma PublicKeysNotEmpty(dh: DiffieHellman, a: Bytes)
    ensures dh.publicOf(a) != []
  {}

  function Zeros(n: nat): Bytes {
    seq(n, _ => 0)
  }

  method NewKey(content: Bytes) returns (key: array<byte>)
    ensures fresh(key) && key[..] == content
  {
    key := new byte[|content|](i requires 0 <= i < |content| => content[i]);
  }

  /** `fill(0)`. */
  method ZeroOut(key: array<byte>)
    modifies key
    ensures key[..] == Zeros(key.Length)
  {
    for i := 0 to key.Length
      invariant forall j :: 0 <= j < i ==> key[j] == 0
    {
      key[i] := 0;
    }
  }

  /** A session record; its keys are byte arrays that are wiped in place. */
  datatype EncryptionSession = EncryptionSession(
    sharedKey: array<byte>, localSecret: array<byte>, remotePublicKey: Bytes, rotationCount: nat)

  predicate Disjoint(s: EncryptionSession, t: EncryptionSession) {
    s.sharedKey != t.sharedKey && s.sharedKey != t.localSecret && s.localSecret != t.sharedKey &&
      s.localSecret != t.localSecret
  }

  ghost predicate Wiped(s: EncryptionSession)
    reads s.sharedKey, s.localSecret
  {
    s.sharedKey[..] == Zeros(s.sharedKey.Length) && s.localSecret[..] == Zeros(s.localSecret.Length)
  }

  method Wipe(s: EncryptionSession)
    modifies s.sharedKey, s.localSecret
    ensures Wiped(s)
  {
    ZeroOut(s.sharedKey);
    ZeroOut(s.localSecret);
  }

  lemma SameOverride(m: map<string, Bytes>, n: map<string, Bytes>, k: string, v: Bytes)
    requires m - {k} == n - {k}
    ensures m[k := v] == n[k := v]
  {
    assert m[k := v] == (m - {k})[k := v] && n[k := v] == (n - {k})[k := v];
  }

  /** No key array is shared between two sessions, or used for both keys of one. */
  class EncryptionManager {
    var sessions: map<string, EncryptionSession>
    ghost var Repr: set<object>

    ghost predicate Owns(s: EncryptionSession)
      reads this
    {
      s.sharedKey in Repr && s.localSecret in Repr && s.sharedKey != s.localSecret
    }

    ghost predicate Valid()
      reads this, Repr
    {
      this in Repr &&
      (forall d :: d in sessions ==> Owns(sessions[d])) &&
      forall d, e :: d in sessions && e in sessions && d != e ==> Disjoint(sessions[d], sessions[e])
    }

    /** The arrays that hold a session's keys. */
    ghost function KeyArrays(remoteDid: string): set<object>
      reads this
    {
      if remoteDid in sessions then {sessions[remoteDid].sharedKey, sessions[remoteDid].localSecret} else {}
    }

    /** The shared key of every session. */
    ghost function Keys(): map<string, Bytes>
      requires Valid()
      reads this, Repr
    {
      map d | d in sessions :: sessions[d].sharedKey[..]
    }

    constructor ()
      ensures Valid() && fresh(Repr) && Keys() == map[]
    {
      sessions := map[];
      Repr := {this};
    }

    method Install(remoteDid: string, session: EncryptionSession)
      requires Valid() && session.localSecret !in Repr && session.sharedKey !in Repr
      requires session.localSecret != session.sharedKey
      modifies this
      ensures Valid() && Repr == old(Repr) + {session.localSecret, session.sharedKey}
      ensures Keys() == old(Keys())[remoteDid := session.sharedKey[..]]
      ensures sessions == old(sessions)[remoteDid := session]
    {
      forall d | d in sessions ensures Disjoint(sessions[d], session) {
        assert Owns(sessions[d]);
      }
      sessions := sessions[remoteDid := session];
      Repr := Repr + {session.sharedKey, session.localSecret};
    }

    /** A session that was there before is dropped without being wiped. */
    method CreateSessionWithKeys(remoteDid: string, localSecret: array<byte>, remotePublicKey: Bytes,
                                 sharedKey: array<byte>)
      requires Valid() && localSecret !in Repr && sharedKey !in Repr && localSecret != sharedKey
      modifies this
      ensures Valid() && Repr == old(Repr) + {localSecret, sharedKey}
      ensures Keys() == old(Keys())[remoteDid := sharedKey[..]]
      ensures sessions == old(sessions)[remoteDid := EncryptionSession(sharedKey, localSecret, remotePublicKey, 0)]
    {
      Install(remoteDid, EncryptionSession(sharedKey, localSecret, remotePublicKey, 0));
    }

    method CreateSession(dh: DiffieHellman, remoteDid: string, remotePublicKey: Bytes, drawn: Bytes)
      returns (localPublicKey: Bytes)
      requires Valid()
      modifies this
      ensures Valid() && fresh(Repr - old(Repr)) && old(Repr) <= Repr
      ensures Keys() == old(Keys())[remoteDid := dh.shared(drawn, remotePublicKey)]
      ensures localPublicKey == dh.publicOf(drawn)
    {
      hide Lawful;
      var localSecret := NewKey(drawn);
      var sharedKey := NewKey(dh.shared(drawn, remotePublicKey));
      CreateSessionWithKeys(remoteDid, localSecret, remotePublicKey, sharedKey);
      localPublicKey := dh.publicOf(drawn);
    }

    /** Wiping one session's arrays leaves the bytes of all the others alone. */
    method WipeOne(remoteDid: string)
      requires Valid() && remoteDid in sessions
      modifies sessions[remoteDid].sharedKey, sessions[remoteDid].localSecret
      ensures Valid() && Wiped(sessions[remoteDid])
      ensures Keys() - {remoteDid} == old(Keys()) - {remoteDid} && Keys().Keys == old(Keys()).Keys
    {
      assert Owns(sessions[remoteDid]);
      Wipe(sessions[remoteDid]);
      forall d | d in sessions && d != remoteDid ensures sessions[d].sharedKey[..] == old(sessions[d].sharedKey[..]) {
        assert Disjoint(sessions[d], sessions[remoteDid]);
      }
    }

    /** Fresh keys on this side; the replaced ones are wiped, every other session keeps its bytes. */
    method RotateKey(dh: DiffieHellman, remoteDid: string, newRemotePublicKey: Bytes, drawn: Bytes)
      returns (r: Option<Bytes>)
      requires Valid()
      modifies Repr
      ensures Valid() && fresh(Repr - old(Repr))
      ensures remoteDid !in old(sessions) ==> r == None && Keys() == old(Keys())
      ensures remoteDid in old(sessions) ==>
                r == Some(dh.publicOf(drawn)) && Wiped(old(sessions[remoteDid])) &&
                Keys() == old(Keys())[remoteDid := dh.shared(drawn, newRemotePublicKey)]
    {
      hide Lawful, Valid, Keys, Owns, Wiped;
      if remoteDid !in sessions { return None; }
      var session := sessions[remoteDid];
      KeyArraysOwned(remoteDid);
      WipeOne(remoteDid);
      var localSecret := NewKey(drawn);
      var sharedKey := NewKey(dh.shared(drawn, newRemotePublicKey));
      SameOverride(Keys(), old(Keys()), remoteDid, sharedKey[..]);
      Install(remoteDid, EncryptionSession(sharedKey, localSecret, newRemotePublicKey, session.rotationCount + 1));
      r := Some(dh.publicOf(drawn));
    }

    method HasSession(remoteDid: string) returns (has: bool)
      requires Valid()
      ensures has <==> remoteDid in Keys()
    {
      has := remoteDid in sessions;
    }

    /** The session is gone, its bytes are wiped, and no other session's bytes are touched. */
    method DestroySession(remoteDid: string)
      requires Valid()
      modifies this, KeyArrays(remoteDid)
      ensures Valid() && Repr == old(Repr)
      ensures Keys() == old(Keys()) - {remoteDid}
      ensures sessions == old(sessions) - {remoteDid}
      ensures remoteDid in old(sessions) ==> Wiped(old(sessions)[remoteDid])
    {
      if remoteDid in sessions {
        assert Owns(sessions[remoteDid]);
        WipeOne(remoteDid);
        sessions := sessions - {remoteDid};
        assert Keys() == old(Keys()) - {remoteDid};
      }
    }

    /** No session is left, and every array that held a key holds zeros. */
    method DestroyAll()
      requires Valid()
      modifies Repr
      ensures Valid() && Repr == old(Repr) && Keys() == map[]
      ensures forall d :: d in old(sessions) ==> Wiped(old(sessions)[d])
    {
      var rest := sessions.Keys;
      ghost var before := sessions;
      AllDisjoint();
      hide Valid, Keys, Owns, Wiped, Disjoint;
      while rest != {}
        invariant Valid() && Repr == old(Repr)
        invariant rest == sessions.Keys
        invariant forall d :: d in sessions ==> d in before && sessions[d] == before[d]
        invariant forall d :: d in before && d !in rest ==> Wiped(before[d])
        decreases rest
      {
        var did :| did in rest;
        KeyArraysOwned(did);
        forall d | d in before && d !in rest
          ensures before[d].sharedKey !in KeyArrays(did) && before[d].localSecret !in KeyArrays(did)
        {
          assert Disjoint(before[d], before[did]);
          ApartFrom(before[d], before[did]);
        }
        DestroySession(did);
        rest := rest - {did};
      }
      NoSessionsNoKeys();
    }

    lemma AllDisjoint()
      requires Valid()
      ensures forall d, e :: d in sessions && e in sessions && d != e ==> Disjoint(sessions[d], sessions[e])
    {}

    lemma KeyArraysOwned(remoteDid: string)
      requires Valid()
      ensures this in Repr && KeyArrays(remoteDid) <= Repr
    {
      assert remoteDid in sessions ==> Owns(sessions[remoteDid]);
    }

    lemma ApartFrom(s: EncryptionSession, t: EncryptionSession)
      requires Disjoint(s, t)
      ensures s.sharedKey !in {t.sharedKey, t.localSecret} && s.localSecret !in {t.sharedKey, t.localSecret}
    {}

    lemma NoSessionsNoKeys()
      requires Valid() && sessions.Keys == {}
      ensures Keys() == map[]
    {}
  }
}
