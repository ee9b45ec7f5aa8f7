/**
 The same client's connection from its first frame into its session.
 */
module HonestConnection {
  import opened Wrappers
  import opened ByteStrings
  import opened Handshakes
  import opened Connections
  import opened SessionLoops
  import MessageCipher
  import opened ServerCrypto
  import opened HonestExchange

  lemma EncryptedInterrupts(env: Env, first: Bytes, rest: seq<Bytes>)
    requires |first| >= 8 && first[..8] != Zeros(8)
    ensures Run(env, [first] + rest) == Interrupted(first[..8], first, [], [], rest)
  {
    assert ([first] + rest)[1..] == rest;
  }

  lemma TurnsToSession(s: Server, k: nat, o: Outcome, first: Bytes, rest: seq<Bytes>)
    requires s.hasRegistry && |first| >= 8 && first[..8] == MessageCipher.AuthKeyId(s.service.cipher, o.key) && first[..8] != Zeros(8)
    ensures
      var served := ServeFrom(s.service, o.key, o.salt, first, rest);
      Connect(s, k, Some(o), [first] + rest) == Session(o.key, o.salt, served)
  {
    EncryptedInterrupts(s.envs(k), first, rest);
    ConnectStep(s, k, Some(o), [first] + rest, Run(s.envs(k), [first] + rest));
    var t := Session(o.key, o.salt, ServeFrom(s.service, o.key, o.salt, first, rest));
    assert Before([], [], [], t) == t;
  }

  /**
   The honest client's connection agrees on the client's key, turns to a session with the first frame
   under that key, and serves this and the following frames under that key and the client's salt.
   */
  lemma HonestClientIsServed(s: Server, c: Crypto, d: Draws, cl: Client, key: AuthKey, first: Bytes, rest: seq<Bytes>)
    requires Fair(c, d, cl) && s.hasRegistry && s.envs(0) == ServerEnv(c, d) && ClientKey(cl, ServerParams(d)) == Some(key)
    requires |first| >= 8 && first[..8] == MessageCipher.AuthKeyId(s.service.cipher, key) && first[..8] != Zeros(8)
    ensures
      var f := ClientFrames(c, cl, ServerResPq(c, d, cl), ServerParams(d));
      var salt := Salt(cl.newNonce, d.serverNonce);
      var t, served := Connect(s, 0, None, f + ([first] + rest)), ServeFrom(s.service, key, salt, first, rest);
      && |t.agreed| == 1 && t.agreed[0].key == key && t.used == f
      && t.session == Some(Serving(key, salt, served.handled, served.failed))
      && |t.written| == 3 + |served.written| && t.written[3..] == served.written
  {
    var f := ClientFrames(c, cl, ServerResPq(c, d, cl), ServerParams(d));
    HonestClientAgrees(c, d, cl, [first] + rest);
    var e := Run(s.envs(0), f + ([first] + rest));
    ConnectStep(s, 0, None, f + ([first] + rest), e);
    TurnsToSession(s, 1, e.outcome, first, rest);
    AfterThree(e, Session(key, e.outcome.salt, ServeFrom(s.service, key, e.outcome.salt, first, rest)));
  }

  lemma AfterThree(e: Exchange, t: Trace)
    requires e.Done? && |e.written| == 3 && t.agreed == [] && t.used == []
    ensures
      var b := Before([e.outcome], e.written, e.used, t);
      b.agreed == [e.outcome] && b.used == e.used && b.session == t.session && |b.written| == 3 + |t.written| && b.written[3..] == t.written
  {
  }
}
