/** The state as the daemon holds it: objects whose methods update their fields,
    each proved against the value-level operations of `Service.dfy`. Clock
    readings, server replies and the success of file operations are arguments. */
module ServiceObjects {
  import opened Base
  import opened Envelope
  import opened VaultCaches
  import S = Service
  import opened Service

  /** `ApprovalCache` (state.rs:63-91). */
  class ApprovalCache {
    var grants: map<U32, Instant>

    constructor ()
      ensures grants == map[]
    {
      grants := map[];
    }

    method IsApproved(key: U32, now: Instant) returns (live: bool)
      ensures live == S.IsApproved(grants, key, now)
    {
      if key !in grants {
        return false;
      }
      return now < grants[key];
    }

    method Grant(key: U32, seconds: nat, now: Instant)
      modifies this
      ensures grants == old(grants)[key := now + seconds * SECOND]
    {
      grants := grants[key := now + seconds * SECOND];
    }

    method Clear()
      modifies this
      ensures grants == map[]
    {
      grants := map[];
    }
  }

  /** The state files, the cache file and the credential store's entry
      (persist.rs, cache.rs, keystore.rs). */
  class DiskStore {
    var login: File<LoginState>
    var backoff: File<Backoff>
    var cache: Option<Bytes>
    var cek: Option<Key>

    ghost function Value(): Store
      reads this
    {
      Store(login, backoff, cache, cek)
    }

    constructor (store: Store)
      ensures Value() == store
    {
      login, backoff, cache, cek := store.login, store.backoff, store.cache, store.cek;
    }

    method SaveLoginState(state: LoginState, op: FileOp)
      modifies this
      ensures Value() == old(Value()).(login := Saved(old(login), state, op))
    {
      if op.Untouched? {
        return;
      }
      login := Corrupt;
      if op.Succeeds? {
        login := Holds(state);
      }
    }

    /** Nothing saved is not an error; a file that cannot be read or parsed is. */
    method LoadLoginState(readable: bool) returns (r: Result<Option<LoginState>, SdkError>)
      ensures r == match login
                   case Missing => Ok(None)
                   case Corrupt => Err(Internal)
                   case Holds(l) => if readable then Ok(Some(l)) else Err(Internal)
    {
      if !login.Missing? && !readable {
        return Err(Internal);
      }
      match login
      case Missing => return Ok(None);
      case Corrupt => return Err(Internal);
      case Holds(l) => return Ok(Some(l));
    }

    method ClearLoginState(op: FileOp)
      modifies this
      ensures Value() == old(Value()).(login := Removed(old(login), op))
    {
      if op.Succeeds? {
        login := Missing;
      }
    }

    method SaveBackoff(attempts: nat, epoch: Option<nat>, op: FileOp)
      modifies this
      ensures Value() == old(Value()).(backoff := Saved(old(backoff), Backoff(attempts, epoch), op))
    {
      if op.Untouched? {
        return;
      }
      backoff := Corrupt;
      if op.Succeeds? {
        backoff := Holds(Backoff(attempts, epoch));
      }
    }

    method LoadBackoff(readable: bool) returns (b: Backoff)
      ensures b == S.LoadBackoff(Seen(Value(), Reads(true, readable)))
    {
      if !readable {
        return Backoff(0, None);
      }
      match backoff
      case Holds(value) => return value;
      case _ => return Backoff(0, None);
    }

    method ClearBackoff(op: FileOp)
      modifies this
      ensures Value() == old(Value()).(backoff := Removed(old(backoff), op))
    {
      if op.Succeeds? {
        backoff := Missing;
      }
    }

    method ReadCacheFile(sight: Sight) returns (r: Result<Option<CacheEnvelope>, SdkError>)
      ensures r == S.ReadCacheFile(Value(), sight)
    {
      if cache.None? || sight.Unseen? {
        return Ok(None);
      }
      if sight.Unreadable? {
        return Err(Internal);
      }
      var parsed := ParseFile(cache.value);
      match parsed
      case Err(e) => return Err(e);
      case Ok(e) => return Ok(Some(e));
    }

    method WriteCacheFile(e: CacheEnvelope, ok: bool, torn: Option<Bytes>)
      modifies this
      ensures Value() == old(Value()).(cache := if Serialise(e).Err? then old(cache)
                                                else if ok then Some(Serialise(e).value) else torn)
    {
      var built := BuildFile(e);
      if built.Ok? {
        cache := if ok then Some(built.value) else torn;
      }
    }

    method DeleteCacheFile(ok: bool)
      modifies this
      ensures Value() == old(Value()).(cache := if ok then None else old(cache))
    {
      if ok {
        cache := None;
      }
    }

    method DeleteCek(ok: bool)
      modifies this
      ensures Value() == old(Value()).(cek := if ok then None else old(cek))
    {
      if ok {
        cek := None;
      }
    }

    /** Loads the key, generating and storing one if there is none. */
    method CekForSealing(io: UnlockInputs) returns (key: Option<Key>)
      modifies this
      ensures key == S.CekForSealing(old(Value()), io).0
      ensures Value() == old(Value()).(cek := S.CekForSealing(old(Value()), io).1)
    {
      if !io.keystore.Ready? {
        return None;
      }
      if cek.Some? {
        return cek;
      }
      if io.storeCekOk {
        cek := Some(io.freshCek);
        return cek;
      }
      return None;
    }
  }

  /** The byte-by-byte PIN comparison decides equality. */
  method VerifySessionPin(session: Session, candidate: Pin) returns (ok: bool)
    ensures ok <==> session.pin == Some(candidate)
  {
    if session.pin.None? {
      return false;
    }
    var stored := session.pin.value;
    if |stored| != |candidate| {
      return false;
    }
    var acc: bv8 := 0;
    for i := 0 to |stored|
      invariant acc == XorFold(stored[..i], candidate[..i])
    {
      assert stored[..i + 1][..i] == stored[..i] && candidate[..i + 1][..i] == candidate[..i];
      acc := acc | (stored[i] ^ candidate[i]);
    }
    assert stored[..|stored|] == stored && candidate[..|candidate|] == candidate;
    XorFoldDetectsDifference(stored, candidate);
    return acc == 0;
  }

  /** `ServiceState` (state.rs:94-620). */
  class ServiceState {
    var status: Status
    var email: Option<string>
    var serverUrl: Option<string>
    var lastSync: Option<int>
    var lastActivity: Instant
    var session: Option<Session>
    const prompt: PromptMethod
    const approvals: ApprovalCache
    var attempts: nat
    var lastAttempt: Option<Instant>
    var sdk: Option<Client>
    var login: Option<LoginState>
    const disk: DiskStore
    const crypto: Crypto

    ghost function Value(): Svc
      reads this, approvals
    {
      Svc(status, email, serverUrl, lastSync, lastActivity, session, prompt, approvals.grants, attempts, lastAttempt,
          sdk, login)
    }

    ghost function Snapshot(): Daemon
      reads this, approvals, disk
    {
      Daemon(Value(), disk.Value())
    }

    /** Restores whatever the previous process persisted; never unlocked. */
    constructor (crypto: Crypto, disk: DiskStore, readable: Reads, prompt: PromptMethod, now: Instant, nowEpoch: nat,
                 earliest: Instant)
      ensures Value() == Start(Seen(disk.Value(), readable), prompt, now, nowEpoch, earliest)
      ensures Sound(Value()) && !Value().status.Unlocked?
      ensures this.disk == disk && this.crypto == crypto && fresh(approvals)
    {
      var b := disk.LoadBackoff(readable.backoff);
      var restored := disk.LoadLoginState(readable.login);
      this.crypto := crypto;
      this.disk := disk;
      this.prompt := prompt;
      approvals := new ApprovalCache();
      attempts := b.attempts;
      lastAttempt := if b.lastEpoch.None? then None else RestoredInstant(b.lastEpoch.value, now, nowEpoch, earliest);
      lastSync, lastActivity, session := None, now, None;
      if restored.Ok? && restored.value.Some? {
        var l := restored.value.value;
        status, email, serverUrl := Locked, Some(l.email), Some(l.serverUrl);
        sdk, login := Some(FreshClient(l.serverUrl)), Some(l);
      } else {
        status, email, serverUrl := LoggedOut, None, None;
        sdk, login := None, None;
      }
    }

    method MasterPasswordBackoffRemaining(now: Instant) returns (seconds: nat)
      ensures seconds == BackoffRemaining(Value(), now)
    {
      if attempts <= 1 {
        return 0;
      }
      var exp := Min(attempts - 2, 30);
      var delay := Min(Pow2(exp), 30);
      if lastAttempt.None? {
        return 0;
      }
      return SaturatingSub(delay, ElapsedSeconds(now, lastAttempt.value));
    }

    method RecordPasswordFailure(now: Instant, epoch: nat, files: DiskIo)
      modifies this, disk
      ensures Snapshot() == RecordFailure(old(Snapshot()), now, epoch, files)
    {
      attempts := attempts + 1;
      lastAttempt := Some(now);
      disk.SaveBackoff(attempts, Some(epoch), files.backoff);
    }

    method ResetPasswordAttempts(files: DiskIo)
      modifies this, disk
      ensures Snapshot() == ResetAttempts(old(Snapshot()), files)
    {
      attempts := 0;
      lastAttempt := None;
      disk.ClearBackoff(files.backoff);
    }

    method Touch(now: Instant)
      modifies this
      ensures Snapshot() == old(Snapshot()).(svc := S.Touch(old(Value()), now))
    {
      lastActivity := now;
    }

    method PinSet() returns (isSet: bool)
      ensures isSet == S.PinSet(Value())
    {
      return session.Some? && session.value.pin.Some?;
    }

    method Login(email: string, url: Option<string>, verdict: Option<SdkError>, now: Instant, files: DiskIo)
      returns (r: Result<(), SdkError>)
      modifies this, disk
      ensures Outcome(r, Snapshot()) == S.Login(old(Snapshot()), email, url, verdict, now, files)
      ensures old(Sound(Value())) ==> Sound(Value())
    {
      if status != LoggedOut {
        return Err(Internal);
      }
      var u := if url.Some? then url.value else DEFAULT_SERVER;
      var client := FreshClient(u);
      if verdict.Some? {
        return Err(verdict.value);
      }
      client := client.(token := true);
      status := Locked;
      this.email := Some(email);
      serverUrl := Some(u);
      sdk := Some(client);
      disk.SaveLoginState(LoginState(email, u), files.login);
      login := Some(LoginState(email, u));
      Touch(now);
      return Ok(());
    }

    method UnlockFromCache(password: Password, e: CacheEnvelope, io: UnlockInputs) returns (r: Result<(), SdkError>)
      modifies this
      ensures (r, Value()) == S.UnlockFromCache(crypto, old(Snapshot()), password, e, io)
    {
      if sdk.None? {
        return Err(NotLoggedIn);
      }
      if io.keystore.LoadFails? {
        return Err(Internal);
      }
      var cek := if io.keystore.Ready? then disk.cek else None;
      var record := Open(crypto, e, cek);
      if record.Err? {
        return Err(record.error);
      }
      var v := record.value;
      if !MeetsFloor(v.kdf) {
        return Err(Internal);
      }
      var kdf := ToKdf(v.kdf);
      if kdf.Err? {
        return Err(kdf.error);
      }
      var hash := crypto.derive(password, kdf.value, v.email);
      if hash.None? {
        return Err(AuthFailed);
      }
      var same := ConstantTimeEqHmac(v.integrityHmac, crypto.hmac(hash.value, Canonical(crypto, v)));
      if !same {
        return Err(AuthFailed);
      }
      var uid := if v.userId.Some? then crypto.userIdParse(v.userId.value) else None;
      var keys := InitCrypto(crypto, password, kdf.value, v.email, v.encryptedUserKey, v.encryptedPrivateKey, uid);
      if keys.Err? {
        return Err(keys.error);
      }
      sdk := Some(sdk.value.(keys := Some(keys.value)));
      if !io.populateOk {
        return Err(SyncFailed);
      }
      sdk := Some(sdk.value.(ciphers := v.ciphers));
      status := Unlocked;
      session := Some(NewSession);
      lastSync := v.lastSync;
      Touch(io.now);
      return Ok(());
    }

    method BuildCache(kdf: CachedKdf, userKey: string, privateKey: string, userId: Option<string>, hash: Hash,
                      io: UnlockInputs)
      modifies disk
      ensures disk.Value() == S.BuildCache(crypto, old(Snapshot()), kdf, userKey, privateKey, userId, hash, io)
    {
      if email.None? || serverUrl.None? {
        return;
      }
      var native := ToKdf(kdf);
      if native.Err? {
        return;
      }
      var v := Build(crypto, native.value, userKey, privateKey, userId, email.value, serverUrl.value, [], None, hash);
      var cek := disk.CekForSealing(io);
      disk.WriteCacheFile(Seal(crypto, v, cek, io.nonce), io.diskOk, io.torn);
    }

    method UnlockOnline(password: Password, io: UnlockInputs) returns (r: Result<(), SdkError>)
      modifies this, disk
      ensures Outcome(r, Snapshot()) == S.UnlockOnline(crypto, old(Snapshot()), password, io)
    {
      if sdk.None? {
        return Err(NotLoggedIn);
      }
      if login.None? {
        return Err(Internal);
      }
      var (reply, client) := AuthAndInit(crypto, sdk.value, password, login.value, io.reply);
      sdk := Some(client);
      if reply.Err? {
        return Err(reply.error);
      }
      status := Unlocked;
      session := Some(NewSession);
      Touch(io.now);
      var uid := if io.reply.userId.Some? then Some(crypto.userIdText(io.reply.userId.value)) else None;
      BuildCache(FromKdf(io.reply.kdf), io.reply.userKey, io.reply.privateKey, uid, reply.value.1, io);
      return Ok(());
    }

    /** Unlocks from the cache file, or from the server when that fails. An error
        leaves status, session and grants as they were and the client unkeyed. */
    method Unlock(password: Password, io: UnlockInputs) returns (r: Result<(), SdkError>)
      modifies this, disk
      ensures Outcome(r, Snapshot()) == S.Unlock(crypto, old(Snapshot()), password, io)
      ensures old(Sound(Value())) ==> Sound(Value())
      ensures old(Sound(Value())) && r.Err? ==> Snapshot() == old(Snapshot()).(svc := old(Value()).(sdk := sdk))
    {
      hide S.UnlockFromCache, S.UnlockOnline;
      if Sound(Value()) {
        UnlockSound(crypto, Snapshot(), password, io);
      }
      if status != Locked {
        return Err(if status.LoggedOut? then NotLoggedIn else Internal);
      }
      if sdk.None? {
        return Err(NotLoggedIn);
      }
      var file := disk.ReadCacheFile(io.sight);
      if file.Err? {
        return Err(file.error);
      }
      ghost var start := Snapshot();
      if file.value.Some? {
        UnlockFromCacheStep(crypto, start, password, file.value.value, io);
        var cached := UnlockFromCache(password, file.value.value, io);
        if cached.Ok? {
          sdk := Some(sdk.value.(token := sdk.value.token || io.tokenRefreshed));
          return Ok(());
        }
        if serverUrl.Some? {
          sdk := Some(FreshClient(serverUrl.value));
        }
      }
      r := UnlockOnline(password, io);
      if Sound(start.svc) && r.Err? {
        FailedUnlockLeavesNoTrace(crypto, start, password, io);
      }
    }

    method Lock() returns (r: Result<(), SdkError>)
      modifies this, approvals
      ensures (r, Value()) == S.Lock(old(Value()))
      ensures old(Sound(Value())) ==> Sound(Value())
    {
      if status != Unlocked {
        return Err(VaultLocked);
      }
      if serverUrl.Some? {
        sdk := Some(FreshClient(serverUrl.value));
      }
      status := Locked;
      session := None;
      approvals.Clear();
      return Ok(());
    }

    method Logout(keystoreOk: bool, files: DiskIo)
      modifies this, approvals, disk
      ensures Snapshot() == S.Logout(old(Snapshot()), keystoreOk, files)
      ensures Sound(Value())
    {
      status := LoggedOut;
      email, serverUrl, lastSync, session := None, None, None, None;
      approvals.Clear();
      sdk, login := None, None;
      disk.ClearLoginState(files.login);
      disk.DeleteCacheFile(files.cache);
      disk.DeleteCek(keystoreOk);
    }

    method SetPin(pin: Pin) returns (r: Result<(), SdkError>)
      modifies this
      ensures (r, Value()) == S.SetPin(old(Value()), pin)
      ensures r.Ok? <==> old(status).Unlocked? && |pin| >= 4
      ensures r.Ok? && session.Some? ==> session.value.pin == Some(pin)
      ensures old(Sound(Value())) ==> Sound(Value())
    {
      if status != Unlocked {
        return Err(VaultLocked);
      }
      if |pin| < PIN_MIN_LENGTH {
        return Err(Internal);
      }
      if session.Some? {
        session := Some(session.value.(pin := Some(pin)));
      }
      return Ok(());
    }

    method VerifyPin(candidate: Pin) returns (ok: bool)
      modifies this
      ensures (ok, Value()) == S.VerifyPin(old(Value()), candidate)
      ensures ok <==> old(session.Some? && session.value.pin == Some(candidate))
      ensures old(session).Some? ==>
                session == Some(Session(old(session).value.pin, if ok then 0 else old(session).value.pinAttempts + 1))
    {
      if session.None? {
        return false;
      }
      ok := VerifySessionPin(session.value, candidate);
      session := Some(session.value.(pinAttempts := if ok then 0 else session.value.pinAttempts + 1));
    }

    method PinAttemptsExceeded() returns (exceeded: bool)
      ensures exceeded == S.PinAttemptsExceeded(Value())
    {
      return session.Some? && session.value.pinAttempts >= PIN_MAX_ATTEMPTS;
    }

    /** The PIN section of the approval flow: verify and, on the last failure,
        lock before anyone else sees the state. */
    method CheckPin(candidate: Pin) returns (ok: bool)
      modifies this, approvals
      ensures var (matched, after) := S.VerifyPin(old(Value()), candidate);
              ok == matched
              && Value() == if !matched && S.PinAttemptsExceeded(after) then S.Lock(after).1 else after
      ensures old(Sound(Value())) ==> Sound(Value())
      ensures ok <==> old(session.Some? && session.value.pin == Some(candidate))
      ensures old(Sound(Value())) && !ok && old(session.Some? && session.value.pinAttempts == 2) ==>
                status.Locked? && approvals.grants == map[] && !Keyed(Value())
    {
      ok := VerifyPin(candidate);
      if !ok {
        var exceeded := PinAttemptsExceeded();
        if exceeded {
          var locked := Lock();
        }
      }
    }

    method VerifyPassword(verdict: Option<SdkError>) returns (r: Result<(), SdkError>)
      modifies this
      ensures (r, Value()) == S.VerifyPassword(old(Value()), verdict)
      ensures old(Sound(Value())) ==> Sound(Value())
    {
      if status != Unlocked {
        return Err(VaultLocked);
      }
      if sdk.None? || email.None? || serverUrl.None? {
        return Err(NotLoggedIn);
      }
      if verdict.Some? {
        return Err(verdict.value);
      }
      sdk := Some(sdk.value.(token := true));
      return Ok(());
    }
  }
}
