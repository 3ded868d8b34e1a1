/** The session store of src/store/session.js: the editor login with its
    attempt counter and ten-minute lockout, the session lifetime, and logout.
    Clock readings, the configured credentials and the lifetime in minutes
    are parameters; the logout timer is a flag saying whether its callback
    is still due. */
module SessionStore {
  const MAX_ATTEMPTS: nat := 5
  const LOCK_MS: nat := 10 * 60 * 1000
  const EDITOR: string := "editor"
  const VIEWER: string := "viewer"

  /** The module-level counters that survive between logins. */
  datatype Lockout = Lockout(attempts: nat, lockUntil: int)

  /** `lockUntil && now < lockUntil`: a zero lockUntil means no lock. */
  predicate Locked(l: Lockout, now: int) {
    l.lockUntil != 0 && now < l.lockUntil
  }

  /** Success needs a configured user name and both values equal. */
  predicate CredentialsOk(user: string, pass: string, cfgUser: string, cfgPass: string) {
    user == cfgUser && pass == cfgPass && |cfgUser| > 0
  }

  /** A failed check at time `t`: the counter goes up, and on reaching five
      it is cleared and the lock set to ten minutes after `t`. */
  function AfterFailure(l: Lockout, t: int): (r: Lockout)
    ensures r.attempts < MAX_ATTEMPTS
    ensures r.attempts == 0 <==> l.attempts + 1 >= MAX_ATTEMPTS
    ensures r.attempts != 0 ==> r == Lockout(l.attempts + 1, l.lockUntil)
    ensures r.attempts == 0 ==> r.lockUntil == t + LOCK_MS
  {
    var n := l.attempts + 1;
    if n >= MAX_ATTEMPTS then Lockout(0, t + LOCK_MS) else Lockout(n, l.lockUntil)
  }

  /** Failed checks one after another, at the given times. */
  function Failures(l: Lockout, times: seq<int>): Lockout
    decreases |times|
  {
    if |times| == 0 then l else Failures(AfterFailure(l, times[0]), times[1..])
  }

  /** Fewer than five failures in a row only count; the failure that makes
      five sets the lock, measured from its own time, and clears the count. */
  lemma {:induction false} ConsecutiveFailures(l: Lockout, times: seq<int>)
    requires l.attempts + |times| <= MAX_ATTEMPTS
    ensures l.attempts + |times| < MAX_ATTEMPTS ==> Failures(l, times) == Lockout(l.attempts + |times|, l.lockUntil)
    ensures l.attempts + |times| == MAX_ATTEMPTS && |times| > 0 ==>
              Failures(l, times) == Lockout(0, times[|times| - 1] + LOCK_MS)
    decreases |times|
  {
    if |times| > 0 {
      var l' := AfterFailure(l, times[0]);
      if l.attempts + 1 < MAX_ATTEMPTS {
        ConsecutiveFailures(l', times[1..]);
      } else {
        assert |times| == 1;
      }
    }
  }

  class Session {
    var isAuthenticated: bool
    var expiresAt: int
    var username: string
    var role: string
    /** The module-level `attempts` and `lockUntil`. */
    var lockout: Lockout
    /** Whether the logout timer's callback is still due. */
    var timerPending: bool
    /** `AUTH_TTL_MIN`, the session lifetime in minutes. */
    const ttlMin: nat

    /** Role and authentication go together, a signed-out session holds no
        user and no expiry, the counter stays below five, and a logout timer
        is due exactly while someone is signed in. */
    predicate Valid()
      reads this
    {
      (isAuthenticated <==> role == EDITOR)
      && (!isAuthenticated ==> role == VIEWER && expiresAt == 0 && username == "")
      && lockout.attempts < MAX_ATTEMPTS
      && (timerPending <==> isAuthenticated)
    }

    constructor (ttlMin: nat)
      ensures Valid() && this.ttlMin == ttlMin
      ensures !isAuthenticated && lockout == Lockout(0, 0)
    {
      this.ttlMin := ttlMin;
      isAuthenticated := false;
      expiresAt := 0;
      username := "";
      role := VIEWER;
      lockout := Lockout(0, 0);
      timerPending := false;
    }

    /** login: `now` is read on entry and `later` after the delay. A locked
        store refuses without looking at the credentials; a failure only
        moves the counter; a success clears it, signs the user in until
        `later` plus the lifetime and re-arms the logout timer. */
    method Login(user: string, pass: string, now: int, later: int, cfgUser: string, cfgPass: string)
      returns (ok: bool)
      requires Valid()
      modifies this
      ensures Valid()
      ensures ok <==> !Locked(old(lockout), now) && CredentialsOk(user, pass, cfgUser, cfgPass)
      ensures Locked(old(lockout), now) ==>
                lockout == old(lockout) && isAuthenticated == old(isAuthenticated) && expiresAt == old(expiresAt)
                && username == old(username) && role == old(role) && timerPending == old(timerPending)
      ensures !Locked(old(lockout), now) && !ok ==>
                lockout == AfterFailure(old(lockout), later) && isAuthenticated == old(isAuthenticated)
                && expiresAt == old(expiresAt) && username == old(username) && role == old(role)
                && timerPending == old(timerPending)
      ensures ok ==> lockout == Lockout(0, 0) && isAuthenticated && role == EDITOR && username == user
                     && expiresAt == later + ttlMin * 60000 && timerPending
    {
      if Locked(lockout, now) {
        return false;
      }
      if !CredentialsOk(user, pass, cfgUser, cfgPass) {
        lockout := AfterFailure(lockout, later);
        return false;
      }
      lockout := Lockout(0, 0);
      isAuthenticated := true;
      expiresAt := later + ttlMin * 60 * 1000;
      username := user;
      role := EDITOR;
      timerPending := true;
      return true;
    }

    /** The signed-out state that logout and the timer callback both set. */
    method SignOut()
      modifies this
      ensures !isAuthenticated && expiresAt == 0 && username == "" && role == VIEWER
      ensures lockout == old(lockout) && timerPending == old(timerPending)
    {
      isAuthenticated := false;
      expiresAt := 0;
      username := "";
      role := VIEWER;
    }

    /** logout: clears the timer and signs out; the lockout is untouched. */
    method Logout()
      requires Valid()
      modifies this
      ensures Valid()
      ensures !isAuthenticated && expiresAt == 0 && username == "" && role == VIEWER
      ensures lockout == old(lockout) && !timerPending
    {
      timerPending := false;
      SignOut();
    }

    /** The logout timer's callback, which runs only while it is due. */
    method Expire()
      requires Valid() && timerPending
      modifies this
      ensures Valid()
      ensures !isAuthenticated && expiresAt == 0 && username == "" && role == VIEWER
      ensures lockout == old(lockout) && !timerPending
    {
      timerPending := false;
      SignOut();
    }
  }

  /** Five wrong passwords in a row on a fresh store lock it: the fifth
      login sets the lock ten minutes after its own check, and every login
      before then is refused, however right its credentials. */
  method FiveFailuresThenLocked(cfgUser: string, cfgPass: string, wrong: string, t: nat)
    returns (accepted: bool, lockUntil: int)
    requires wrong != cfgPass
    ensures !accepted && lockUntil == t + LOCK_MS
  {
    var s := new Session(15);
    var i := 0;
    while i < 5
      invariant 0 <= i <= 5 && s.Valid() && !s.isAuthenticated
      invariant i < 5 ==> s.lockout == Lockout(i, 0)
      invariant i == 5 ==> s.lockout == Lockout(0, t + LOCK_MS)
    {
      var ok := s.Login(cfgUser, wrong, t, t, cfgUser, cfgPass);
      assert !ok;
      i := i + 1;
    }
    lockUntil := s.lockout.lockUntil;
    accepted := s.Login(cfgUser, cfgPass, t + LOCK_MS - 1, t + LOCK_MS - 1, cfgUser, cfgPass);
  }
}
