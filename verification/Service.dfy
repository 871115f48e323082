/** The service state as a value, and every operation on it as a function of
    its inputs (crates/grimoire-service/src/state.rs, with the durable half of
    crates/grimoire-sdk/src/persist.rs). The classes of `ServiceState.dfy` are
    proved against these functions, and the interleaved machine runs them. */
module Service {
  import opened Base
  import opened Envelope
  import opened VaultCaches

  // --- Time: instants in nanoseconds ---

  type Instant = int

  const SECOND: int := 1_000_000_000
  const AUTO_LOCK_SECONDS: nat := 900
  const APPROVAL_SECONDS: nat := 300
  const PIN_MAX_ATTEMPTS: nat := 3
  const PIN_MIN_LENGTH: nat := 4
  const DEFAULT_SERVER: string := "https://vault.bitwarden.com"

  function Elapsed(now: Instant, since: Instant): nat { Max(0, now - since) }

  /** Whole seconds elapsed, as `elapsed().as_secs()` reports them. */
  function ElapsedSeconds(now: Instant, since: Instant): nat { Elapsed(now, since) / SECOND }

  // --- The state ---

  type Pin = seq<bv8>

  datatype Status = LoggedOut | Locked | Unlocked

  datatype PromptMethod = Auto | Gui | Terminal | NoPrompt

  datatype Session = Session(pin: Option<Pin>, pinAttempts: nat)

  datatype Keys = Keys(userKey: string, privateKey: string, userId: Option<UserId>)

  /** The SDK client: keyed once user crypto is initialised. */
  datatype Client = Client(url: string, keys: Option<Keys>, ciphers: seq<RawCipher>, token: bool)

  datatype LoginState = LoginState(email: string, serverUrl: string)

  datatype Svc = Svc(
    status: Status,
    email: Option<string>,
    serverUrl: Option<string>,
    lastSync: Option<int>,
    lastActivity: Instant,
    session: Option<Session>,
    prompt: PromptMethod,
    grants: map<U32, Instant>,
    attempts: nat,
    lastAttempt: Option<Instant>,
    sdk: Option<Client>,
    login: Option<LoginState>)

  datatype File<+T> = Missing | Corrupt | Holds(value: T)

  datatype Backoff = Backoff(attempts: nat, lastEpoch: Option<nat>)

  /** What outlives the process: two state files, the cache file and the
      credential store's entry. */
  datatype Store = Store(login: File<LoginState>, backoff: File<Backoff>, cache: Option<Bytes>, cek: Option<Key>)

  /** How a write or a deletion goes. Files are opened with truncation, so a write
      can fail before it touches the file or after. */
  datatype FileOp = Succeeds | Untouched | Torn

  function Saved<T>(before: File<T>, value: T, op: FileOp): File<T>
  {
    match op
    case Succeeds => Holds(value)
    case Untouched => before
    case Torn => Corrupt
  }

  function Removed<T>(before: File<T>, op: FileOp): File<T> { if op.Succeeds? then Missing else before }

  /** The file operations of one section: on the login file, the backoff file, and
      whether a cache file is deleted when it should be. */
  datatype DiskIo = DiskIo(login: FileOp, backoff: FileOp, cache: bool)
  {
    predicate Fine() { login.Succeeds? && backoff.Succeeds? && cache }
  }

  /** Whether a starting process can read its state files. */
  datatype Reads = Reads(login: bool, backoff: bool)
  {
    predicate Fine() { login && backoff }
  }

  /** What an unlock's look at the cache path finds: the file as it is, a file that
      cannot be read, or, when not even that can be told, nothing. */
  datatype Sight = Readable | Unreadable | Unseen

  datatype Daemon = Daemon(svc: Svc, store: Store)

  datatype Outcome = Outcome(result: Result<(), SdkError>, after: Daemon)

  function FreshClient(url: string): Client { Client(url, None, [], false) }

  const NewSession := Session(None, 0)

  predicate Keyed(s: Svc) { s.sdk.Some? && s.sdk.value.keys.Some? }

  // --- Backoff ---

  function Pow2(n: nat): nat { if n == 0 then 1 else 2 * Pow2(n - 1) }

  /** Seconds to wait after `attempts` failures (state.rs). */
  function Delay(attempts: nat): nat
  {
    if attempts <= 1 then 0 else Min(Pow2(Min(attempts - 2, 30)), 30)
  }

  function BackoffRemaining(s: Svc, now: Instant): nat
  {
    if s.attempts <= 1 || s.lastAttempt.None? then 0
    else SaturatingSub(Delay(s.attempts), ElapsedSeconds(now, s.lastAttempt.value))
  }

  function RecordFailure(d: Daemon, now: Instant, epoch: nat, files: DiskIo): Daemon
  {
    var n := d.svc.attempts + 1;
    Daemon(d.svc.(attempts := n, lastAttempt := Some(now)),
           d.store.(backoff := Saved(d.store.backoff, Backoff(n, Some(epoch)), files.backoff)))
  }

  function ResetAttempts(d: Daemon, files: DiskIo): Daemon
  {
    Daemon(d.svc.(attempts := 0, lastAttempt := None),
           d.store.(backoff := Removed(d.store.backoff, files.backoff)))
  }

  // --- Grants ---

  predicate IsApproved(grants: map<U32, Instant>, key: U32, now: Instant)
  {
    key in grants && now < grants[key]
  }

  function Grant(s: Svc, key: U32, now: Instant): Svc
  {
    s.(grants := s.grants[key := now + APPROVAL_SECONDS * SECOND])
  }

  function Touch(s: Svc, now: Instant): Svc { s.(lastActivity := now) }

  // --- PIN ---

  function SetPin(s: Svc, pin: Pin): (Result<(), SdkError>, Svc)
  {
    if s.status != Unlocked then (Err(VaultLocked), s)
    else if |pin| < PIN_MIN_LENGTH then (Err(Internal), s)
    else if s.session.None? then (Ok(()), s)
    else (Ok(()), s.(session := Some(s.session.value.(pin := Some(pin)))))
  }

  function VerifyPin(s: Svc, candidate: Pin): (bool, Svc)
  {
    if s.session.None? then (false, s)
    else if s.session.value.pin == Some(candidate) then
      (true, s.(session := Some(s.session.value.(pinAttempts := 0))))
    else
      (false, s.(session := Some(s.session.value.(pinAttempts := s.session.value.pinAttempts + 1))))
  }

  predicate PinSet(s: Svc) { s.session.Some? && s.session.value.pin.Some? }

  predicate PinAttemptsExceeded(s: Svc) { s.session.Some? && s.session.value.pinAttempts >= PIN_MAX_ATTEMPTS }

  // --- Login, lock, logout ---

  function Login(d: Daemon, email: string, url: Option<string>, verdict: Option<SdkError>, now: Instant,
                 files: DiskIo): Outcome
  {
    var u := if url.Some? then url.value else DEFAULT_SERVER;
    if d.svc.status != LoggedOut then Outcome(Err(Internal), d)
    else if verdict.Some? then Outcome(Err(verdict.value), d)
    else
      var state := LoginState(email, u);
      Outcome(Ok(()), Daemon(
        d.svc.(status := Locked, email := Some(email), serverUrl := Some(u),
               sdk := Some(FreshClient(u).(token := true)), login := Some(state), lastActivity := now),
        d.store.(login := Saved(d.store.login, state, files.login))))
  }

  /** What locking does to an unlocked service. */
  function LockEffect(s: Svc): Svc
  {
    s.(sdk := if s.serverUrl.Some? then Some(FreshClient(s.serverUrl.value)) else s.sdk,
       status := Locked, session := None, grants := map[])
  }

  function Lock(s: Svc): (Result<(), SdkError>, Svc)
  {
    if s.status != Unlocked then (Err(VaultLocked), s) else (Ok(()), LockEffect(s))
  }

  function Logout(d: Daemon, keystoreOk: bool, files: DiskIo): Daemon
  {
    Daemon(
      d.svc.(status := LoggedOut, email := None, serverUrl := None, lastSync := None, session := None,
             grants := map[], sdk := None, login := None),
      d.store.(login := Removed(d.store.login, files.login),
               cache := if files.cache then None else d.store.cache,
               cek := if keystoreOk then None else d.store.cek))
  }

  // --- Unlock ---

  datatype Keystore = Absent | LoadFails | Ready

  /** The server's part in an online unlock: a refusal, with or without an
      access token stored before it, or the account's wrapped keys. */
  datatype OnlineReply =
    | Refused(error: SdkError, tokenStored: bool)
    | Granted(kdf: Kdf, userKey: string, privateKey: string, userId: Option<UserId>)

  /** Everything an unlock asks of the outside world. */
  datatype UnlockInputs = UnlockInputs(
    now: Instant,
    sight: Sight,
    keystore: Keystore,
    populateOk: bool,
    tokenRefreshed: bool,
    reply: OnlineReply,
    storeCekOk: bool,
    freshCek: Key,
    nonce: Nonce24,
    diskOk: bool,
    torn: Option<Bytes>)

  function InitCrypto(c: Crypto, password: Password, kdf: Kdf, email: string, userKey: string, privateKey: string,
                      userId: Option<UserId>): Result<Keys, SdkError>
  {
    if !c.parsesEnc(privateKey) || !c.parsesEnc(userKey) then Err(Internal)
    else match c.unwrap(password, kdf, email, userKey, privateKey)
      case None => Err(AuthFailed)
      case Some((uk, pk)) => Ok(Keys(uk, pk, userId))
  }

  function ReadCacheFile(store: Store, sight: Sight): Result<Option<CacheEnvelope>, SdkError>
  {
    if store.cache.None? || sight.Unseen? then Ok(None)
    else if sight.Unreadable? then Err(Internal)
    else match Parse(store.cache.value)
      case Err(e) => Err(e)
      case Ok(e) => Ok(Some(e))
  }

  function LoadedCek(store: Store, keystore: Keystore): Option<Key>
  {
    if keystore.Ready? then store.cek else None
  }

  /** The record the file opens to and the keys it yields for a password. */
  function CachedKeys(c: Crypto, store: Store, password: Password, e: CacheEnvelope, keystore: Keystore)
    : Result<(VaultCache, Keys), SdkError>
  {
    if keystore.LoadFails? then Err(Internal)
    else match Open(c, e, LoadedCek(store, keystore))
      case Err(er) => Err(er)
      case Ok(v) =>
        if !MeetsFloor(v.kdf) then Err(Internal)
        else match ToKdf(v.kdf)
          case Err(er) => Err(er)
          case Ok(kdf) =>
            match c.derive(password, kdf, v.email)
            case None => Err(AuthFailed)
            case Some(hash) =>
              if !VerifyHmac(c, v, hash) then Err(AuthFailed)
              else
                var uid := if v.userId.Some? then c.userIdParse(v.userId.value) else None;
                match InitCrypto(c, password, kdf, v.email, v.encryptedUserKey, v.encryptedPrivateKey, uid)
                case Err(er) => Err(er)
                case Ok(keys) => Ok((v, keys))
  }

  /** `unlock_from_cache`. A failure after the keys were loaded leaves them in
      the client. */
  function UnlockFromCache(c: Crypto, d: Daemon, password: Password, e: CacheEnvelope, io: UnlockInputs)
    : (Result<(), SdkError>, Svc)
  {
    var s := d.svc;
    if s.sdk.None? then (Err(NotLoggedIn), s)
    else match CachedKeys(c, d.store, password, e, io.keystore)
      case Err(er) => (Err(er), s)
      case Ok((v, keys)) =>
        var loaded := s.sdk.value.(keys := Some(keys));
        if !io.populateOk then (Err(SyncFailed), s.(sdk := Some(loaded)))
        else (Ok(()), s.(sdk := Some(loaded.(ciphers := v.ciphers)), status := Unlocked,
                         session := Some(NewSession), lastSync := v.lastSync, lastActivity := io.now))
  }

  /** The key the cache is sealed under, and the credential store afterwards. */
  function CekForSealing(store: Store, io: UnlockInputs): (Option<Key>, Option<Key>)
  {
    if !io.keystore.Ready? then (None, store.cek)
    else if store.cek.Some? then (store.cek, store.cek)
    else if io.storeCekOk then (Some(io.freshCek), Some(io.freshCek))
    else (None, store.cek)
  }

  function BuildCache(c: Crypto, d: Daemon, kdf: CachedKdf, userKey: string, privateKey: string,
                      userId: Option<string>, hash: Hash, io: UnlockInputs): Store
  {
    if d.svc.email.None? || d.svc.serverUrl.None? then d.store
    else match ToKdf(kdf)
      case Err(_) => d.store
      case Ok(k) =>
        var v := Build(c, k, userKey, privateKey, userId, d.svc.email.value, d.svc.serverUrl.value, [], None, hash);
        var (cek, kept) := CekForSealing(d.store, io);
        var store := d.store.(cek := kept);
        match Serialise(Seal(c, v, cek, io.nonce))
        case Err(_) => store
        case Ok(bytes) => store.(cache := if io.diskOk then Some(bytes) else io.torn)
  }

  /** Authentication and user-crypto initialisation against the server. */
  function AuthAndInit(c: Crypto, client: Client, password: Password, login: LoginState, reply: OnlineReply)
    : (Result<(Keys, Hash), SdkError>, Client)
  {
    match reply
    case Refused(e, stored) => (Err(e), client.(token := client.token || stored))
    case Granted(kdf, uk, pk, uid) =>
      match c.derive(password, kdf, login.email)
      case None => (Err(AuthFailed), client)
      case Some(hash) =>
        match InitCrypto(c, password, kdf, login.email, uk, pk, uid)
        case Err(e) => (Err(e), client.(token := true))
        case Ok(keys) => (Ok((keys, hash)), client.(token := true, keys := Some(keys)))
  }

  function UnlockOnline(c: Crypto, d: Daemon, password: Password, io: UnlockInputs): Outcome
  {
    var s := d.svc;
    if s.sdk.None? then Outcome(Err(NotLoggedIn), d)
    else if s.login.None? then Outcome(Err(Internal), d)
    else
      var (r, client) := AuthAndInit(c, s.sdk.value, password, s.login.value, io.reply);
      match r
      case Err(e) => Outcome(Err(e), d.(svc := s.(sdk := Some(client))))
      case Ok((_, hash)) =>
        var unlocked := s.(sdk := Some(client), status := Unlocked, session := Some(NewSession),
                           lastActivity := io.now);
        var uid := if io.reply.userId.Some? then Some(c.userIdText(io.reply.userId.value)) else None;
        Outcome(Ok(()), Daemon(unlocked, BuildCache(c, d.(svc := unlocked), FromKdf(io.reply.kdf), io.reply.userKey,
                                                    io.reply.privateKey, uid, hash, io)))
  }

  /** `unlock`: the cache first, then the server. */
  function Unlock(c: Crypto, d: Daemon, password: Password, io: UnlockInputs): Outcome
  {
    var s := d.svc;
    if s.status != Locked then
      Outcome(Err(if s.status.LoggedOut? then NotLoggedIn else Internal), d)
    else if s.sdk.None? then Outcome(Err(NotLoggedIn), d)
    else match ReadCacheFile(d.store, io.sight)
      case Err(e) => Outcome(Err(e), d)
      case Ok(None) => UnlockOnline(c, d, password, io)
      case Ok(Some(e)) =>
        var (r, s') := UnlockFromCache(c, d, password, e, io);
        if r.Ok? then
          Outcome(Ok(()), d.(svc := s'.(sdk := Some(s'.sdk.value.(token := s'.sdk.value.token || io.tokenRefreshed)))))
        else
          var renewed := if s'.serverUrl.Some? then s'.(sdk := Some(FreshClient(s'.serverUrl.value))) else s';
          UnlockOnline(c, d.(svc := renewed), password, io)
  }

  /** `verify_password`: the verdict of the server, asked only while unlocked. */
  function VerifyPassword(s: Svc, verdict: Option<SdkError>): (Result<(), SdkError>, Svc)
  {
    if s.status != Unlocked then (Err(VaultLocked), s)
    else if s.sdk.None? || s.email.None? || s.serverUrl.None? then (Err(NotLoggedIn), s)
    else if verdict.Some? then (Err(verdict.value), s)
    else (Ok(()), s.(sdk := Some(s.sdk.value.(token := true))))
  }

  // --- Start-up ---

  /** Seconds since the epoch by a wall clock running `offset` ahead. */
  function EpochSeconds(now: Instant, offset: int): nat { Max(0, now + offset) / SECOND }

  /** The instant a persisted epoch is taken for; none when it falls before the
      earliest instant the platform can represent. */
  function RestoredInstant(epoch: nat, now: Instant, nowEpoch: nat, earliest: Instant): Option<Instant>
  {
    var t := now - SaturatingSub(nowEpoch, epoch) * SECOND;
    if t < earliest then None else Some(t)
  }

  function LoadBackoff(store: Store): Backoff
  {
    if store.backoff.Holds? then store.backoff.value else Backoff(0, None)
  }

  /** The store as a starting process sees it: what cannot be read might as well not
      parse. */
  function Seen(store: Store, readable: Reads): Store
  {
    store.(login := if readable.login || store.login.Missing? then store.login else Corrupt,
           backoff := if readable.backoff || store.backoff.Missing? then store.backoff else Corrupt)
  }

  function Start(store: Store, prompt: PromptMethod, now: Instant, nowEpoch: nat, earliest: Instant): Svc
  {
    var b := LoadBackoff(store);
    var last := if b.lastEpoch.None? then None else RestoredInstant(b.lastEpoch.value, now, nowEpoch, earliest);
    match store.login
    case Holds(l) =>
      Svc(Locked, Some(l.email), Some(l.serverUrl), None, now, None, prompt, map[], b.attempts, last,
          Some(FreshClient(l.serverUrl)), Some(l))
    case _ =>
      Svc(LoggedOut, None, None, None, now, None, prompt, map[], b.attempts, last, None, None)
  }

  // --- Sync ---

  datatype SyncReply = SyncRevoked | SyncError | Synced(ciphers: Option<seq<RawCipher>>)

  function Sync(client: Client, reply: SyncReply): (Result<(), SdkError>, Client)
  {
    if !client.token then (Err(SyncFailed), client)
    else match reply
      case SyncRevoked => (Err(AuthRevoked), client)
      case SyncError => (Err(SyncFailed), client)
      case Synced(cs) => (Ok(()), if cs.Some? then client.(ciphers := cs.value) else client)
  }

  // --- The global invariant of the state, and what each operation does to it ---

  /** With no lock held: keys are in memory exactly while the vault is unlocked
      and a session exists; the account fields are present exactly when logged
      in and agree with each other; a session has room for another PIN attempt. */
  predicate Sound(s: Svc)
  {
    && (Keyed(s) <==> s.status.Unlocked?)
    && (s.session.Some? <==> s.status.Unlocked?)
    && (s.sdk.Some? <==> !s.status.LoggedOut?)
    && (s.login.Some? <==> !s.status.LoggedOut?)
    && s.email == (if s.login.Some? then Some(s.login.value.email) else None)
    && s.serverUrl == (if s.login.Some? then Some(s.login.value.serverUrl) else None)
    && (s.sdk.Some? ==> s.serverUrl == Some(s.sdk.value.url))
    && (s.session.Some? ==> s.session.value.pinAttempts < 3)
    && (s.session.Some? && s.session.value.pin.Some? ==> |s.session.value.pin.value| >= 4)
  }

  /** Everything an unlock leaves alone whichever way it ends. */
  predicate SameAccount(s: Svc, t: Svc)
  {
    && s.email == t.email && s.serverUrl == t.serverUrl && s.login == t.login
    && s.grants == t.grants && s.attempts == t.attempts && s.lastAttempt == t.lastAttempt
    && s.prompt == t.prompt
  }

  /** What an unlock attempt that starts without keys may do to the state. */
  predicate UnlockStep(s: Svc, t: Svc, ok: bool, now: Instant)
  {
    && SameAccount(s, t)
    && (ok ==> t.status.Unlocked? && t.session == Some(NewSession) && Keyed(t) && t.lastActivity == now)
    && (!ok ==> t == s.(sdk := t.sdk))
    && (s.sdk.Some? ==> t.sdk.Some? && t.sdk.value.url == s.sdk.value.url)
  }

  lemma UnlockFromCacheStep(c: Crypto, d: Daemon, password: Password, e: CacheEnvelope, io: UnlockInputs)
    ensures var (r, s) := UnlockFromCache(c, d, password, e, io);
            UnlockStep(d.svc, s, r.Ok?, io.now)
  {
    hide CachedKeys;
  }

  lemma UnlockOnlineStep(c: Crypto, d: Daemon, password: Password, io: UnlockInputs)
    ensures var o := UnlockOnline(c, d, password, io);
            && UnlockStep(d.svc, o.after.svc, o.result.Ok?, io.now)
            && (o.result.Err? && !Keyed(d.svc) ==> !Keyed(o.after.svc))
            && o.after.store.login == d.store.login && o.after.store.backoff == d.store.backoff
            && (o.result.Err? ==> o.after.store == d.store)
  {
    hide InitCrypto, Seal;
  }

  lemma UnlockSound(c: Crypto, d: Daemon, password: Password, io: UnlockInputs)
    requires Sound(d.svc)
    ensures var o := Unlock(c, d, password, io);
            && Sound(o.after.svc)
            && SameAccount(d.svc, o.after.svc)
            && o.after.store.login == d.store.login && o.after.store.backoff == d.store.backoff
            && (o.result.Ok? ==> d.svc.status.Locked? && o.after.svc.status.Unlocked?
                                 && o.after.svc.lastActivity == io.now)
  {
    hide UnlockFromCache, UnlockOnline, ReadCacheFile;
    UnlockOnlineStep(c, d, password, io);
    match ReadCacheFile(d.store, io.sight)
    case Ok(Some(e)) =>
      UnlockFromCacheStep(c, d, password, e, io);
      var s := UnlockFromCache(c, d, password, e, io).1;
      if s.serverUrl.Some? {
        UnlockOnlineStep(c, d.(svc := s.(sdk := Some(FreshClient(s.serverUrl.value)))), password, io);
      }
    case _ =>
  }

  /** A failed unlock changes neither the state, the session nor the grants, and
      when the vault was locked the client it leaves holds no keys, although a
      cache attempt may have loaded them on the way. */
  lemma FailedUnlockLeavesNoTrace(c: Crypto, d: Daemon, password: Password, io: UnlockInputs)
    requires Sound(d.svc) && Unlock(c, d, password, io).result.Err?
    ensures var o := Unlock(c, d, password, io);
            && o.after.svc == d.svc.(sdk := o.after.svc.sdk)
            && o.after.store == d.store
            && (!d.svc.status.Unlocked? ==> !Keyed(o.after.svc))
            && (!d.svc.status.Locked? ==> o.after == d)
  {
    hide UnlockFromCache, UnlockOnline, ReadCacheFile;
    UnlockOnlineStep(c, d, password, io);
    match ReadCacheFile(d.store, io.sight)
    case Ok(Some(e)) =>
      UnlockFromCacheStep(c, d, password, e, io);
      var s := UnlockFromCache(c, d, password, e, io).1;
      if s.serverUrl.Some? {
        UnlockOnlineStep(c, d.(svc := s.(sdk := Some(FreshClient(s.serverUrl.value)))), password, io);
      }
    case _ =>
  }

  /** Recreating the client is what makes that true: without it, a cache attempt
      whose cipher store fails leaves a locked service holding keys. */
  lemma CacheFailureMayLeaveKeys(c: Crypto, d: Daemon, password: Password, e: CacheEnvelope, io: UnlockInputs)
    requires Sound(d.svc) && d.svc.status.Locked?
    ensures var (r, s) := UnlockFromCache(c, d, password, e, io);
            (r.Err? && Keyed(s)) <==> CachedKeys(c, d.store, password, e, io.keystore).Ok? && !io.populateOk
  {
  }

  /** A cache file that cannot be read or does not parse fails the unlock outright,
      and nothing else does: for each password and whatever else the unlock is
      given, its outcome is the same failure for every answer of the server
      exactly when a file is there and is one or the other. */
  lemma MalformedCacheBlocksUnlock(c: Crypto, d: Daemon, password: Password, io: UnlockInputs)
    requires Sound(d.svc) && d.svc.status.Locked?
    ensures (forall reply :: Unlock(c, d, password, io.(reply := reply)) == Outcome(Err(Internal), d))
       <==> d.store.cache.Some?
            && (io.sight.Unreadable? || (io.sight.Readable? && Parse(d.store.cache.value).Err?))
  {
    var refused := io.(reply := Refused(AuthFailed, false));
    if ReadCacheFile(d.store, io.sight).Ok? {
      RefusedUnlock(c, d, password, refused);
      assert Unlock(c, d, password, refused).result != Err(Internal);
    } else {
      forall reply ensures Unlock(c, d, password, io.(reply := reply)) == Outcome(Err(Internal), d) {
        assert ReadCacheFile(d.store, io.sight) == Err(Internal);
      }
    }
  }

  /** With a readable file or none, a refusal by the server is what the unlock
      reports, unless the cache opened. */
  lemma RefusedUnlock(c: Crypto, d: Daemon, password: Password, io: UnlockInputs)
    requires Sound(d.svc) && d.svc.status.Locked? && ReadCacheFile(d.store, io.sight).Ok?
    requires io.reply.Refused?
    ensures Unlock(c, d, password, io).result.Ok? || Unlock(c, d, password, io).result == Err(io.reply.error)
  {
    hide CachedKeys;
  }

  lemma LockSound(s: Svc)
    requires Sound(s)
    ensures Sound(Lock(s).1) && (s.status.Unlocked? ==> Sound(LockEffect(s)))
  {
  }

  /** The third consecutive wrong PIN, followed by the lock that the same
      critical section performs, always ends locked with no grant left. */
  lemma ThirdWrongPinLocks(s: Svc, candidate: Pin)
    requires Sound(s) && s.session.Some? && s.session.value.pinAttempts == 2
    requires s.session.value.pin != Some(candidate)
    ensures var (ok, t) := VerifyPin(s, candidate);
            && !ok && PinAttemptsExceeded(t)
            && Lock(t).0.Ok? && Lock(t).1.status.Locked? && Lock(t).1.grants == map[] && !Keyed(Lock(t).1)
  {
  }

  lemma StartSound(store: Store, prompt: PromptMethod, now: Instant, nowEpoch: nat, earliest: Instant)
    ensures Sound(Start(store, prompt, now, nowEpoch, earliest))
  {
  }
}
