/**
 * The session store and the gate in front of every protected route
 * (cmd/server/main.go: the `sessions` map, `protected`, `loginHandler`,
 * `logoutHandler`).
 *
 * Instants are integers counted in nanoseconds, the unit of Go's
 * time.Duration; the caller passes the current instant as `now`. A token
 * minted by generateToken is a caller-supplied string.
 */
module Auth {
  import opened Wrappers

  /** 24*time.Hour, the sliding session window. */
  const SessionTTL: int := 24 * 60 * 60 * 1_000_000_000

  /** The `sessions` sync.Map: token to expiry instant. */
  type Sessions = map<string, int>

  datatype Decision = Admit | Deny

  datatype GateResult = GateResult(decision: Decision, sessions: Sessions)

  datatype LoginResult = LoginResult(token: Option<string>, sessions: Sessions)

  /** A stored token not yet past its expiry (time.Now().After(expiry) is false). */
  predicate Live(sessions: Sessions, token: string, now: int) {
    token in sessions && now <= sessions[token]
  }

  /**
   * One request through `protected`: with no PIN configured everything
   * passes; otherwise the cookie's token must be stored and unexpired, and
   * an admitted token's expiry slides to now + 24h.
   */
  function Gate(appPIN: string, sessions: Sessions, cookie: Option<string>, now: int): (r: GateResult)
    ensures r.decision == Admit <==> appPIN == "" || (cookie.Some? && Live(sessions, cookie.value, now))
    ensures r.decision == Deny || appPIN == "" ==> r.sessions == sessions
    ensures r.decision == Admit && appPIN != "" ==>
      && r.sessions.Keys == sessions.Keys
      && r.sessions[cookie.value] == now + SessionTTL
      && forall t :: t in sessions && t != cookie.value ==> r.sessions[t] == sessions[t]
  {
    if appPIN == "" then GateResult(Admit, sessions)
    else match cookie
      case None => GateResult(Deny, sessions)
      case Some(token) =>
        if token !in sessions || now > sessions[token] then GateResult(Deny, sessions)
        else GateResult(Admit, sessions[token := now + SessionTTL])
  }

  /**
   * A POST to /login: the right PIN stores the freshly generated token with
   * expiry now + 24h and hands it back for the cookie; a wrong PIN changes
   * nothing.
   */
  function Login(appPIN: string, sessions: Sessions, pin: string, token: string, now: int): (r: LoginResult)
    ensures pin == appPIN ==>
      && r.token == Some(token)
      && r.sessions.Keys == sessions.Keys + {token}
      && r.sessions[token] == now + SessionTTL
      && forall t :: t in sessions && t != token ==> r.sessions[t] == sessions[t]
    ensures pin == appPIN && token !in sessions ==> |r.sessions| == |sessions| + 1
    ensures pin != appPIN ==> r.token == None && r.sessions == sessions
  {
    if pin == appPIN then LoginResult(Some(token), sessions[token := now + SessionTTL])
    else LoginResult(None, sessions)
  }

  /** /logout: forgets the cookie's token if there is a cookie. */
  function Logout(sessions: Sessions, cookie: Option<string>): (r: Sessions)
    ensures cookie.None? ==> r == sessions
    ensures cookie.Some? ==> r.Keys == sessions.Keys - {cookie.value}
    ensures forall t :: t in r ==> r[t] == sessions[t]
  {
    match cookie
    case None => sessions
    case Some(token) => sessions - {token}
  }

  /** Logging out twice is the same as logging out once. */
  lemma LogoutIdempotent(sessions: Sessions, cookie: Option<string>)
    ensures Logout(Logout(sessions, cookie), cookie) == Logout(sessions, cookie)
  {
  }

  /** Once logged out, the same cookie is refused while a PIN is set. */
  lemma LoggedOutTokenDenied(appPIN: string, sessions: Sessions, cookie: Option<string>, now: int)
    requires appPIN != ""
    ensures Gate(appPIN, Logout(sessions, cookie), cookie, now).decision == Deny
  {
  }

  /** The outcome of a run of requests carrying the same cookie. */
  datatype Run = Run(decisions: seq<Decision>, sessions: Sessions)

  /** Passes requests made at the instants `times`, in order, through the gate. */
  function Replay(appPIN: string, sessions: Sessions, cookie: Option<string>, times: seq<int>): (r: Run)
    ensures |r.decisions| == |times|
    decreases |times|
  {
    if times == [] then Run([], sessions)
    else
      var g := Gate(appPIN, sessions, cookie, times[0]);
      var rest := Replay(appPIN, g.sessions, cookie, times[1..]);
      Run([g.decision] + rest.decisions, rest.sessions)
  }

  /**
   * Sliding expiration: a live session used again within 24h of each
   * previous use is admitted every time, however long the run, and ends
   * with expiry 24h after the last request.
   */
  lemma {:induction false} ActiveSessionNeverExpires(appPIN: string, sessions: Sessions, token: string, times: seq<int>)
    requires appPIN != ""
    requires |times| > 0 ==> Live(sessions, token, times[0])
    requires forall i :: 0 < i < |times| ==> times[i] <= times[i - 1] + SessionTTL
    ensures forall i :: 0 <= i < |times| ==> Replay(appPIN, sessions, Some(token), times).decisions[i] == Admit
    ensures |times| > 0 ==>
      var after := Replay(appPIN, sessions, Some(token), times).sessions;
      token in after && after[token] == times[|times| - 1] + SessionTTL
    ensures |times| == 0 ==> Replay(appPIN, sessions, Some(token), times).sessions == sessions
    decreases |times|
  {
    if times != [] {
      var g := Gate(appPIN, sessions, Some(token), times[0]);
      var tail := times[1..];
      assert forall i :: 0 < i < |tail| ==> tail[i] <= tail[i - 1] + SessionTTL by {
        forall i | 0 < i < |tail| ensures tail[i] <= tail[i - 1] + SessionTTL {
          assert tail[i] == times[i + 1] && tail[i - 1] == times[i];
        }
      }
      ActiveSessionNeverExpires(appPIN, g.sessions, token, tail);
      var rest := Replay(appPIN, g.sessions, Some(token), tail);
      assert Replay(appPIN, sessions, Some(token), times).decisions == [Admit] + rest.decisions;
      if tail == [] {
        assert rest.sessions == g.sessions;
      }
    }
  }

  /** A session left idle for more than 24h after its last admitted request is refused. */
  lemma IdleSessionExpires(appPIN: string, sessions: Sessions, token: string, used: int, later: int)
    requires appPIN != ""
    requires later > used + SessionTTL
    ensures Gate(appPIN, Gate(appPIN, sessions, Some(token), used).sessions, Some(token), later).decision == Deny
  {
  }

  /**
   * The gate as the server holds it: the configured PIN (APP_PIN) and the
   * global session map, updated in place by each handler.
   */
  class SessionGate {
    const appPIN: string
    var sessions: Sessions

    constructor (pin: string)
      ensures appPIN == pin && sessions == map[]
    {
      appPIN := pin;
      sessions := map[];
    }

    /** `protected`: decides whether the wrapped handler runs. */
    method Protected(cookie: Option<string>, now: int) returns (d: Decision)
      modifies this
      ensures GateResult(d, sessions) == Gate(appPIN, old(sessions), cookie, now)
    {
      if appPIN == "" {
        return Admit;
      }
      if cookie.None? {
        return Deny;
      }
      var token := cookie.value;
      if token !in sessions || now > sessions[token] {
        return Deny;
      }
      sessions := sessions[token := now + SessionTTL];
      return Admit;
    }

    /** POST /login with the submitted `pin` and a freshly generated `token`. */
    method LoginHandler(pin: string, token: string, now: int) returns (cookie: Option<string>)
      modifies this
      ensures LoginResult(cookie, sessions) == Login(appPIN, old(sessions), pin, token, now)
    {
      cookie := None;
      if pin == appPIN {
        sessions := sessions[token := now + SessionTTL];
        cookie := Some(token);
      }
    }

    /** /logout with the session cookie, if the request carried one. */
    method LogoutHandler(cookie: Option<string>)
      modifies this
      ensures sessions == Logout(old(sessions), cookie)
    {
      if cookie.Some? {
        sessions := sessions - {cookie.value};
      }
    }
  }

  /**
   * The PIN walk-through: log in with PIN "4242", be admitted with the new
   * token, be refused with any other token, log out, be refused again.
   */
  method PinWalkthrough(token: string, garbage: string, now: int)
    requires garbage != token
  {
    var gate := new SessionGate("4242");
    var cookie := gate.LoginHandler("4242", token, now);
    assert cookie == Some(token);
    var d := gate.Protected(cookie, now);
    assert d == Admit;
    d := gate.Protected(Some(garbage), now);
    assert d == Deny;
    gate.LogoutHandler(cookie);
    d := gate.Protected(cookie, now);
    assert d == Deny;
  }
}
