/** The login state machine: two fixed accounts, a failed-attempt counter
    with a timed lockout, one optional session that expires after 24 whole
    hours, and an XOR string cipher keyed by the object's key. Time points
    are integers of milliseconds on the system clock and are passed in as
    `now`; the random session id and key bytes are passed in too. */
module Auth {
  type Byte = bv8

  datatype UserRole = Victim | Admin

  datatype AuthStatus = Success | InvalidCredentials | AccountLocked | SessionExpired | Error

  datatype Session = Session(username: string, role: UserRole, loginTime: int, lastActivity: int,
                             isActive: bool, sessionId: string)

  datatype Option<T> = None | Some(value: T)

  const MillisPerMinute: int := 60_000
  const MillisPerHour: int := 3_600_000

  const NoSession: string := "No active session"
  const UserLabel: string := "User: "
  const RoleLabel: string := " | Role: "
  const IdLabel: string := " | Session ID: "
  const ActiveLabel: string := "... | Active: "

  /** `std::chrono::duration_cast`: division truncating toward zero. */
  function TruncDiv(a: int, b: int): (q: int)
    requires b > 0
    ensures a >= 0 ==> q * b <= a < q * b + b
    ensures a < 0 ==> q <= 0 && q * b - b < a <= q * b
  {
    if a >= 0 then a / b else -((-a) / b)
  }

  /** The two accounts the system knows, each with its fixed password. */
  predicate KnownCredentials(username: string, password: string)
  {
    (username == "victim" && password == "victim") || (username == "admin" && password == "admin")
  }

  function RoleOf(username: string): (role: UserRole)
    ensures role == Admin <==> username == "admin"
  {
    if username == "admin" then Admin else Victim
  }

  /** Each byte XORed with the key byte at its index modulo the key length. */
  function KeyXor(s: seq<Byte>, key: seq<Byte>): (r: seq<Byte>)
    requires key != [] || s == []
    ensures |r| == |s|
  {
    seq(|s|, i requires 0 <= i < |s| => s[i] ^ key[i % |key|])
  }

  /** With a non-empty key the cipher is its own inverse, so decryptString
      undoes encryptString. */
  lemma KeyXorInvolution(s: seq<Byte>, key: seq<Byte>)
    requires key != []
    ensures KeyXor(KeyXor(s, key), key) == s
  {
    var once := KeyXor(s, key);
    forall i | 0 <= i < |s| ensures KeyXor(once, key)[i] == s[i] {
      assert once[i] == s[i] ^ key[i % |key|];
    }
  }

  /** `substr(0, n)`. */
  function Prefix(s: string, n: nat): (r: string)
    ensures |r| <= |s| && |r| <= n && r == s[..|r|]
    ensures |s| >= n ==> |r| == n
  {
    if |s| <= n then s else s[..n]
  }

  class AuthSystem {
    var session: Option<Session>
    const maxLoginAttempts: int := 3
    const lockoutDurationMinutes: int := 15
    var lastFailedLogin: int
    var failedLoginCount: int
    var encryptionKey: seq<Byte>

    /** A stored session is always active (it is dropped, not deactivated)
        and the counter never goes negative. */
    ghost predicate Valid()
      reads this
    {
      failedLoginCount >= 0 && (session.Some? ==> session.value.isActive)
    }

    /** The key is the 32 random bytes when the generator reports success,
        32 bytes of 0x42 otherwise. */
    constructor(randomBytes: seq<Byte>, randOk: bool)
      requires |randomBytes| == 32
      ensures Valid()
      ensures session == None && failedLoginCount == 0 && lastFailedLogin == 0
      ensures encryptionKey == if randOk then randomBytes else seq(32, _ => 0x42)
    {
      session := None;
      lastFailedLogin := 0;
      failedLoginCount := 0;
      encryptionKey := if randOk then randomBytes else seq(32, _ => 0x42);
    }

    /** isAccountLocked: below the attempt limit never; at or above it while
        fewer whole minutes than the lockout have passed since the last
        failure. */
    function IsAccountLocked(now: int): (locked: bool)
      reads this
      ensures locked <==> failedLoginCount >= maxLoginAttempts
                          && now - lastFailedLogin < lockoutDurationMinutes * MillisPerMinute
    {
      failedLoginCount >= maxLoginAttempts
      && TruncDiv(now - lastFailedLogin, MillisPerMinute) < lockoutDurationMinutes
    }

    /** isSessionValid: an active session fewer than 24 whole hours old. */
    function IsSessionValid(now: int): (valid: bool)
      reads this
      ensures valid <==> session.Some? && session.value.isActive
                         && now - session.value.loginTime < 24 * MillisPerHour
    {
      session.Some? && session.value.isActive
      && TruncDiv(now - session.value.loginTime, MillisPerHour) < 24
    }

    /** isAuthenticated: an active session that is still valid. */
    function IsAuthenticated(now: int): (authenticated: bool)
      reads this
      ensures authenticated <==> IsSessionValid(now)
    {
      session.Some? && session.value.isActive && IsSessionValid(now)
    }

    /** isAdmin and isVictim: an authenticated session with that role; the
        two roles split the authenticated sessions between them. */
    function IsAdmin(now: int): (admin: bool)
      reads this
      ensures admin ==> IsAuthenticated(now)
    {
      IsAuthenticated(now) && session.value.role == Admin
    }

    function IsVictim(now: int): (victim: bool)
      reads this
      ensures victim <==> IsAuthenticated(now) && !IsAdmin(now)
    {
      IsAuthenticated(now) && session.value.role == Victim
    }

    /** validateCredentials: refused while locked, else one of the two
        fixed accounts. */
    function ValidateCredentials(username: string, password: string, now: int): (ok: bool)
      reads this
      ensures ok <==> !IsAccountLocked(now) && password == username && (username == "victim" || username == "admin")
    {
      !IsAccountLocked(now) && KnownCredentials(username, password)
    }

    function GetRoleString(now: int): (role: string)
      reads this
      ensures role == "Unauthenticated" <==> !IsAuthenticated(now)
      ensures role == "Admin" <==> IsAdmin(now)
      ensures role == "Victim" <==> IsVictim(now)
    {
      if !IsAuthenticated(now) then "Unauthenticated"
      else if session.value.role == Admin then "Admin" else "Victim"
    }

    /** getSessionInfo: user, role, the first eight characters of the
        session id and the active flag, separated by " | ". */
    function GetSessionInfo(now: int): (info: string)
      reads this
      ensures session.None? ==> info == NoSession
      ensures session.Some? ==>
        |UserLabel| + |session.value.username| <= |info|
        && info[..|UserLabel| + |session.value.username|] == UserLabel + session.value.username
      ensures Valid() && session.Some? ==>
        info == UserLabel + session.value.username + RoleLabel + GetRoleString(now)
                + IdLabel + Prefix(session.value.sessionId, 8) + ActiveLabel + "Yes"
    {
      if session.None? then NoSession
      else
        var s := session.value;
        var flag := if s.isActive then "Yes" else "No";
        var info := UserLabel + s.username + RoleLabel + GetRoleString(now) + IdLabel
                    + Prefix(s.sessionId, 8) + ActiveLabel + flag;
        assert info[..|UserLabel| + |s.username|] == UserLabel + s.username;
        info
    }

    /** authenticate at time `now`, with `sessionId` the freshly generated
        id. While locked nothing changes; the two known accounts open a
        session and reset the counter; anything else counts one more
        failure at `now`. The status reports ACCOUNT_LOCKED exactly when
        the account is locked afterwards. */
    method Authenticate(username: string, password: string, now: int, sessionId: string)
      returns (status: AuthStatus)
      requires Valid()
      modifies this`session, this`failedLoginCount, this`lastFailedLogin
      ensures Valid()
      ensures status == AccountLocked <==> IsAccountLocked(now)
      ensures status == Success <==> !old(IsAccountLocked(now)) && KnownCredentials(username, password)
      ensures old(IsAccountLocked(now)) ==>
        session == old(session) && failedLoginCount == old(failedLoginCount)
        && lastFailedLogin == old(lastFailedLogin)
      ensures status == Success ==>
        session == Some(Session(username, RoleOf(username), now, now, true, sessionId))
        && failedLoginCount == 0 && lastFailedLogin == old(lastFailedLogin)
      ensures !old(IsAccountLocked(now)) && !KnownCredentials(username, password) ==>
        (status == AccountLocked || status == InvalidCredentials)
        && session == old(session) && failedLoginCount == old(failedLoginCount) + 1
        && lastFailedLogin == now
        && (status == AccountLocked <==> failedLoginCount >= maxLoginAttempts)
    {
      if IsAccountLocked(now) {
        return AccountLocked;
      }
      if ValidateCredentials(username, password, now) {
        session := Some(Session(username, if username == "admin" then Admin else Victim,
                                now, now, true, sessionId));
        ResetFailedLoginCount();
        return Success;
      }
      failedLoginCount := failedLoginCount + 1;
      lastFailedLogin := now;
      if failedLoginCount >= maxLoginAttempts {
        LockAccount(now);
        return AccountLocked;
      }
      status := InvalidCredentials;
    }

    method LockAccount(now: int)
      modifies this`lastFailedLogin
      ensures lastFailedLogin == now
    {
      lastFailedLogin := now;
    }

    method ResetFailedLoginCount()
      modifies this`failedLoginCount
      ensures failedLoginCount == 0
    {
      failedLoginCount := 0;
    }

    /** clearSession: the session is dropped. */
    method ClearSession()
      modifies this`session
      ensures session == None
    {
      if session.Some? {
        session := None;
      }
    }

    /** logout: afterwards nobody is authenticated. */
    method Logout()
      requires Valid()
      modifies this`session
      ensures Valid() && session == None
      ensures forall t :: !IsAuthenticated(t) && GetRoleString(t) == "Unauthenticated"
    {
      if session.Some? {
        ClearSession();
      }
    }

    /** refreshSession: an active session records `now` as its last
        activity; without one nothing happens. */
    method RefreshSession(now: int) returns (ok: bool)
      requires Valid()
      modifies this`session
      ensures Valid()
      ensures ok <==> old(session).Some? && old(session).value.isActive
      ensures ok ==> session == Some(old(session).value.(lastActivity := now))
      ensures !ok ==> session == old(session)
    {
      if session.Some? && session.value.isActive {
        session := Some(session.value.(lastActivity := now));
        return true;
      }
      ok := false;
    }

    /** encryptString: the input copied and XORed in place with the key,
        cycling through it. An empty key with a non-empty input would
        divide by zero. */
    method EncryptString(input: seq<Byte>) returns (encrypted: seq<Byte>)
      requires encryptionKey != [] || input == []
      ensures encrypted == KeyXor(input, encryptionKey)
    {
      var key := encryptionKey;
      encrypted := input;
      var i := 0;
      while i < |input|
        invariant 0 <= i <= |input| && |encrypted| == |input|
        invariant forall k :: 0 <= k < i ==> encrypted[k] == KeyXor(input, key)[k]
        invariant forall k :: i <= k < |input| ==> encrypted[k] == input[k]
      {
        encrypted := encrypted[i := encrypted[i] ^ key[i % |key|]];
        i := i + 1;
      }
    }

    /** decryptString is encryptString again. */
    method DecryptString(input: seq<Byte>) returns (decrypted: seq<Byte>)
      requires encryptionKey != [] || input == []
      ensures decrypted == KeyXor(input, encryptionKey)
      ensures encryptionKey != [] ==> KeyXor(decrypted, encryptionKey) == input
    {
      decrypted := EncryptString(input);
      if encryptionKey != [] {
        KeyXorInvolution(input, encryptionKey);
      }
    }

    /** secureWipe: no session, no key and a zero counter. */
    method SecureWipe()
      requires Valid()
      modifies this`session, this`encryptionKey, this`failedLoginCount
      ensures Valid()
      ensures session == None && encryptionKey == [] && failedLoginCount == 0
      ensures lastFailedLogin == old(lastFailedLogin)
    {
      ClearSession();
      encryptionKey := [];
      failedLoginCount := 0;
    }
  }

  /** isAdmin and isVictim each imply isAuthenticated and never hold
      together. */
  lemma RolesExclusive(a: AuthSystem, now: int)
    ensures a.IsAdmin(now) ==> a.IsAuthenticated(now)
    ensures a.IsVictim(now) ==> a.IsAuthenticated(now)
    ensures !(a.IsAdmin(now) && a.IsVictim(now))
    ensures a.IsAuthenticated(now) ==> a.IsAdmin(now) || a.IsVictim(now)
  {
  }

  /** A lockout lasts exactly its whole minutes: once that many minutes
      have passed since the last failure the account is open again, and
      it is locked at any earlier moment from the failure on. */
  lemma LockoutExpires(a: AuthSystem, now: int)
    requires a.failedLoginCount >= a.maxLoginAttempts
    ensures now - a.lastFailedLogin >= a.lockoutDurationMinutes * MillisPerMinute ==> !a.IsAccountLocked(now)
    ensures a.lastFailedLogin <= now < a.lastFailedLogin + a.lockoutDurationMinutes * MillisPerMinute ==>
      a.IsAccountLocked(now)
  {
  }

  /** A session is valid for 24 whole hours from login and not after. */
  lemma SessionLastsADay(a: AuthSystem, now: int)
    requires a.session.Some? && a.session.value.isActive
    ensures now < a.session.value.loginTime + 24 * MillisPerHour ==> a.IsSessionValid(now)
    ensures now >= a.session.value.loginTime + 24 * MillisPerHour ==> !a.IsSessionValid(now)
  {
  }

  /** The lockout scenario: three wrong passwords in a row lock the
      account, the right password is then refused, and it is accepted
      again once the fifteen minutes have passed. */
  method LockoutScenario(key: seq<Byte>, now: int, wrong: string, sessionId: string)
    returns (first: AuthStatus, second: AuthStatus, third: AuthStatus, refused: AuthStatus, later: AuthStatus)
    requires |key| == 32 && now >= 0 && wrong != "admin"
    ensures first == InvalidCredentials && second == InvalidCredentials && third == AccountLocked
    ensures refused == AccountLocked && later == Success
  {
    var a := new AuthSystem(key, true);
    first := a.Authenticate("admin", wrong, now, sessionId);
    second := a.Authenticate("admin", wrong, now, sessionId);
    third := a.Authenticate("admin", wrong, now, sessionId);
    refused := a.Authenticate("admin", "admin", now, sessionId);
    later := a.Authenticate("admin", "admin", now + 15 * MillisPerMinute, sessionId);
  }
}
