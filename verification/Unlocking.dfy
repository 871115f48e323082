/** When an unlock succeeds, said of the cache file's bytes, the password, the
    primitives and the server's answer alone (crates/grimoire-service/src/state.rs,
    crates/grimoire-sdk/src/cache.rs). */
module Unlocking {
  import opened Base
  import opened Envelope
  import opened VaultCaches
  import opened Service
  import opened CacheAgreement

  /** The parameters of a record as the SDK takes them. */
  function Native(k: CachedKdf): Kdf
    requires StrongEnough(k)
  {
    match k
    case CachedPbkdf2(i) => Pbkdf2(i)
    case CachedArgon2id(i, m, p) => Argon2id(i, m, p)
  }

  /** There is a cache file and it can be neither read nor skipped. */
  predicate FileBlocks(store: Store, sight: Sight)
  {
    store.cache.Some? && (sight.Unreadable? || (sight.Readable? && Parse(store.cache.value).Err?))
  }

  /** The record in the cache file, if there is one to be had. */
  function RecordInFile(c: Crypto, store: Store, io: UnlockInputs): Option<VaultCache>
  {
    if store.cache.None? || !io.sight.Readable? || io.keystore.LoadFails? then None
    else match Parse(store.cache.value)
      case Err(_) => None
      case Ok(e) =>
        var offered := if io.keystore.Ready? then store.cek else None;
        var plaintext := if e.flags % 2 == 0 then Some(e.body)
                         else if offered.None? then None
                         else c.open(offered.value, e.nonce, e.body);
        if plaintext.None? then None else c.decode(plaintext.value)
  }

  /** The hash has exactly the record's code, over the record without it. */
  predicate CodeIs(c: Crypto, v: VaultCache, hash: Hash)
  {
    v.integrityHmac == c.hmac(hash, c.encode(v.(integrityHmac := []))) && |v.integrityHmac| == 64
  }

  /** The password opens this record: parameters at the floor, the right code, and
      wrapped keys that unwrap. */
  predicate RecordOpens(c: Crypto, v: VaultCache, password: Password)
  {
    && StrongEnough(v.kdf)
    && var hash := c.derive(password, Native(v.kdf), v.email);
       && hash.Some? && CodeIs(c, v, hash.value)
       && c.parsesEnc(v.encryptedUserKey) && c.parsesEnc(v.encryptedPrivateKey)
       && c.unwrap(password, Native(v.kdf), v.email, v.encryptedUserKey, v.encryptedPrivateKey).Some?
  }

  predicate CacheOpens(c: Crypto, store: Store, password: Password, io: UnlockInputs)
  {
    var v := RecordInFile(c, store, io);
    v.Some? && RecordOpens(c, v.value, password) && io.populateOk
  }

  /** The server hands out the account's wrapped keys and the password unwraps them. */
  predicate ServerAccepts(c: Crypto, email: string, password: Password, reply: OnlineReply)
  {
    && reply.Granted? && c.derive(password, reply.kdf, email).Some?
    && c.parsesEnc(reply.userKey) && c.parsesEnc(reply.privateKey)
    && c.unwrap(password, reply.kdf, email, reply.userKey, reply.privateKey).Some?
  }

  /** The server, or the wrapped keys it hands out, say that the password is wrong. */
  predicate ServerRefuses(c: Crypto, email: string, password: Password, reply: OnlineReply)
  {
    match reply
    case Refused(error, _) => error == AuthFailed
    case Granted(kdf, userKey, privateKey, _) =>
      c.derive(password, kdf, email).None?
      || (c.parsesEnc(userKey) && c.parsesEnc(privateKey)
          && c.unwrap(password, kdf, email, userKey, privateKey).None?)
  }

  lemma FileOpensIff(c: Crypto, d: Daemon, password: Password, io: UnlockInputs)
    requires d.svc.sdk.Some?
    ensures UnlockFromFile(c, d, password, io).0.Ok? <==> CacheOpens(c, d.store, password, io)
    ensures CacheOpens(c, d.store, password, io) ==>
              var v := RecordInFile(c, d.store, io).value;
              var client := UnlockFromFile(c, d, password, io).1.sdk;
              && client.Some? && client.value.ciphers == v.ciphers
              && UnlockFromFile(c, d, password, io).1.lastSync == v.lastSync
              && client.value.keys == Some(KeysOf(c, v, password)) && client.value.token == d.svc.sdk.value.token
  {
    hide Parse;
    if RecordInFile(c, d.store, io).Some? {
      FloorImpliesConvertible(RecordInFile(c, d.store, io).value.kdf);
    }
  }

  /** The keys a record holds for a password that opens it. */
  function KeysOf(c: Crypto, v: VaultCache, password: Password): Keys
    requires RecordOpens(c, v, password)
  {
    var (userKey, privateKey) :=
      c.unwrap(password, Native(v.kdf), v.email, v.encryptedUserKey, v.encryptedPrivateKey).value;
    Keys(userKey, privateKey, if v.userId.Some? then c.userIdParse(v.userId.value) else None)
  }

  /** Whatever bytes are in the file: if an unlock succeeds from it, the record in
      it was derived with PBKDF2 of at least 100 000 iterations or Argon2id of at
      least 3 iterations over 64 MiB, and its code is that of the password's hash. */
  lemma CacheUnlockIsStrong(c: Crypto, d: Daemon, password: Password, io: UnlockInputs)
    requires UnlockFromFile(c, d, password, io).0.Ok?
    ensures var v := RecordInFile(c, d.store, io);
            && v.Some?
            && (v.value.kdf.CachedPbkdf2? ==> v.value.kdf.iterations >= 100_000)
            && (v.value.kdf.CachedArgon2id? ==>
                  v.value.kdf.iterations >= 3 && v.value.kdf.memory >= 64 && v.value.kdf.parallelism >= 1)
            && exists kdf: Kdf, hash :: c.derive(password, kdf, v.value.email) == Some(hash) && CodeIs(c, v.value, hash)
  {
    hide Parse, RecordInFile;
    FileOpensIff(c, d, password, io);
    var v := RecordInFile(c, d.store, io).value;
    assert c.derive(password, Native(v.kdf), v.email).Some?;
  }

  lemma OnlineIff(c: Crypto, d: Daemon, password: Password, io: UnlockInputs)
    requires d.svc.sdk.Some? && d.svc.login.Some?
    ensures var o, l := UnlockOnline(c, d, password, io), d.svc.login.value;
            && (o.result.Ok? <==> ServerAccepts(c, l.email, password, io.reply))
            && (o.result == Err(AuthFailed) <==> ServerRefuses(c, l.email, password, io.reply))
            && (o.result.Err? ==>
                  && o.after.svc.sdk.Some?
                  && var stored := if io.reply.Granted? then c.derive(password, io.reply.kdf, l.email).Some?
                                   else io.reply.tokenStored;
                     o.after.svc.sdk.value == d.svc.sdk.value.(token := d.svc.sdk.value.token || stored))
            && (o.result.Ok? ==> o.after.svc.sdk.Some? && o.after.svc.sdk.value.token
                                 && o.after.svc.sdk.value.keys == Some(GrantedKeys(c, l.email, password, io.reply))
                                 && o.after.svc.session == Some(Session(None, 0)))
  {
    hide BuildCache;
  }

  function GrantedKeys(c: Crypto, email: string, password: Password, reply: OnlineReply): Keys
    requires ServerAccepts(c, email, password, reply)
  {
    var (userKey, privateKey) := c.unwrap(password, reply.kdf, email, reply.userKey, reply.privateKey).value;
    Keys(userKey, privateKey, reply.userId)
  }

  /** The keys an unlock ends with. */
  function UnlockedKeys(c: Crypto, d: Daemon, password: Password, io: UnlockInputs): Keys
    requires d.svc.login.Some?
    requires CacheOpens(c, d.store, password, io)
             || ServerAccepts(c, d.svc.login.value.email, password, io.reply)
  {
    if CacheOpens(c, d.store, password, io) then KeysOf(c, RecordInFile(c, d.store, io).value, password)
    else GrantedKeys(c, d.svc.login.value.email, password, io.reply)
  }

  /** The vault can be unlocked with this password: by the cache file or, unless that
      file gets in the way, by the server. */
  predicate Opens(c: Crypto, d: Daemon, password: Password, io: UnlockInputs)
  {
    && d.svc.status.Locked? && d.svc.login.Some?
    && !FileBlocks(d.store, io.sight)
    && (CacheOpens(c, d.store, password, io) || ServerAccepts(c, d.svc.login.value.email, password, io.reply))
  }

  /** The password is refused as wrong: the cache does not open and the server says so. */
  predicate Refuses(c: Crypto, d: Daemon, password: Password, io: UnlockInputs)
  {
    && d.svc.status.Locked? && d.svc.login.Some?
    && !FileBlocks(d.store, io.sight)
    && !CacheOpens(c, d.store, password, io) && ServerRefuses(c, d.svc.login.value.email, password, io.reply)
  }

  /** In every sound state: an unlock succeeds, or fails as a wrong password, exactly
      when the inputs say so; a success installs exactly the keys that password
      unwraps, with a token unless the cache opened without one, and a fresh session
      without a PIN. */
  lemma UnlockOutcome(c: Crypto, d: Daemon, password: Password, io: UnlockInputs)
    requires Sound(d.svc)
    ensures var o := Unlock(c, d, password, io);
            && (o.result.Ok? <==> Opens(c, d, password, io))
            && (o.result == Err(AuthFailed) <==> Refuses(c, d, password, io))
            && (o.result.Ok? ==>
                  && o.after.svc.session == Some(Session(None, 0)) && o.after.svc.sdk.Some?
                  && o.after.svc.sdk.value.keys == Some(UnlockedKeys(c, d, password, io))
                  && (o.after.svc.sdk.value.token <==>
                        CacheOpens(c, d.store, password, io) ==> d.svc.sdk.value.token || io.tokenRefreshed))
  {
    hide Parse, UnlockOnline, UnlockFromCache, CacheOpens, ServerAccepts, ServerRefuses, KeysOf, GrantedKeys;
    if d.svc.status.Locked? {
      FileOpensIff(c, d, password, io);
      BlockedReads(d.store, io.sight);
      if !FileBlocks(d.store, io.sight) {
        UnlockPaths(c, d, password, io);
      }
    }
  }

  lemma BlockedReads(store: Store, sight: Sight)
    ensures FileBlocks(store, sight) <==> ReadCacheFile(store, sight) == Err(Internal)
    ensures !FileBlocks(store, sight) <==> ReadCacheFile(store, sight).Ok?
  {
  }

  /** Which half of the unlock decides. */
  lemma UnlockPaths(c: Crypto, d: Daemon, password: Password, io: UnlockInputs)
    requires Sound(d.svc) && d.svc.status.Locked? && !FileBlocks(d.store, io.sight)
    ensures var o, l := Unlock(c, d, password, io), d.svc.login.value;
            if CacheOpens(c, d.store, password, io) then
              && o.result.Ok? && o.after.svc.session == Some(Session(None, 0)) && o.after.svc.sdk.Some?
              && o.after.svc.sdk.value.keys == Some(KeysOf(c, RecordInFile(c, d.store, io).value, password))
              && o.after.svc.sdk.value.token == (d.svc.sdk.value.token || io.tokenRefreshed)
            else
              && (o.result.Ok? <==> ServerAccepts(c, l.email, password, io.reply))
              && (o.result == Err(AuthFailed) <==> ServerRefuses(c, l.email, password, io.reply))
              && (o.result.Ok? ==>
                    && o.after.svc.session == Some(Session(None, 0)) && o.after.svc.sdk.Some?
                    && o.after.svc.sdk.value.keys == Some(GrantedKeys(c, l.email, password, io.reply))
                    && o.after.svc.sdk.value.token)
  {
    hide Parse, UnlockOnline, UnlockFromCache, CacheOpens, ServerAccepts, ServerRefuses, KeysOf, GrantedKeys;
    FileOpensIff(c, d, password, io);
    OnlineIff(c, d, password, io);
    match ReadCacheFile(d.store, io.sight)
    case Ok(Some(e)) =>
      UnlockFromCacheStep(c, d, password, e, io);
      var s := UnlockFromCache(c, d, password, e, io).1;
      OnlineIff(c, d.(svc := s.(sdk := Some(FreshClient(s.serverUrl.value)))), password, io);
    case _ =>
  }
}
