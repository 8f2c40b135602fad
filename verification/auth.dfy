/**
 * securitybot/auth/auth.py and securitybot/auth/duo.py: the four
 * authorization states and the Duo Push implementation that moves between
 * them. The Duo client's answers and the clock are inputs.
 */
module Auth {
  import opened Wrappers
  import Util

  /** `AUTH_STATES`: NONE, PENDING, AUTHORIZED, DENIED. */
  datatype AuthState = NoAuth | Pending | Authorized | Denied

  /** The name each state has in `AUTH_STATES`. */
  function Name(s: AuthState): string
  {
    match s
    case NoAuth => "NONE"
    case Pending => "PENDING"
    case Authorized => "AUTHORIZED"
    case Denied => "DENIED"
  }

  /** The integer each state is stored as. */
  function Code(s: AuthState): nat
  {
    match s
    case NoAuth => 0
    case Pending => 1
    case Authorized => 2
    case Denied => 3
  }

  /** Each state's code is the one `enum('NONE', 'PENDING', 'AUTHORIZED', 'DENIED')` binds to its name. */
  lemma CodeMatchesEnum(s: AuthState)
    ensures var m := Util.Enum(["NONE", "PENDING", "AUTHORIZED", "DENIED"]);
      Name(s) in m && m[Name(s)] == Code(s)
  {
    var names := ["NONE", "PENDING", "AUTHORIZED", "DENIED"];
    var i := Code(s);
    assert names[i] == Name(s);
    Util.EnumOfDistinct(names, i);
  }

  /** `AUTH_TIME`: how long a successful authorization is trusted. */
  const AUTH_TIME: int := 2 * Util.HOUR

  /** `auth_time`: `datetime.min`, or the moment authorization succeeded. */
  datatype AuthTime = MinTime | At(t: int)

  /** One device of a Duo preauth response. */
  datatype Device = Device(capabilities: seq<string>)

  /** A Duo preauth response: its `result` and its `devices`. */
  datatype Preauth = Preauth(result: string, devices: seq<Device>)

  /** A Duo `auth_status` response. */
  datatype Poll = Poll(waiting: bool, success: bool)

  /** A Duo Push request sent by `auth`: the user and the optional reason shown on the phone. */
  datatype PushRequest = PushRequest(username: string, reason: Option<string>)

  /** `_recently_authed`: less than AUTH_TIME has passed since `auth_time`. */
  predicate RecentlyAuthed(authTime: AuthTime, now: int)
  {
    authTime.At? && now - authTime.t < AUTH_TIME
  }

  /**
   * `auth_status` on the state alone: a PENDING state asks Duo and settles
   * once the push is answered; an AUTHORIZED state lapses to NONE once it is
   * no longer recent; NONE and DENIED are left as they are.
   */
  function NextStatus(state: AuthState, authTime: AuthTime, poll: Poll, now: int): (AuthState, AuthTime)
  {
    match state
    case Pending =>
      if poll.waiting then (state, authTime)
      else if poll.success then (Authorized, At(now))
      else (Denied, MinTime)
    case Authorized =>
      if RecentlyAuthed(authTime, now) then (state, authTime) else (NoAuth, authTime)
    case _ => (state, authTime)
  }

  /** A poll never changes NONE or DENIED, and a pending push settles as the response says. */
  lemma NextStatusCases(state: AuthState, authTime: AuthTime, poll: Poll, now: int)
    ensures state == NoAuth || state == Denied ==> NextStatus(state, authTime, poll, now) == (state, authTime)
    ensures state == Pending && poll.waiting ==> NextStatus(state, authTime, poll, now).0 == Pending
    ensures state == Pending && !poll.waiting && poll.success ==> NextStatus(state, authTime, poll, now) == (Authorized, At(now))
    ensures state == Pending && !poll.waiting && !poll.success ==> NextStatus(state, authTime, poll, now) == (Denied, MinTime)
  {
  }

  /** An authorization made at `t` holds for exactly AUTH_TIME: it is kept before then and lapses at and after. */
  lemma AuthorizationLapses(t: int, now: int, poll: Poll)
    ensures now < t + AUTH_TIME ==> NextStatus(Authorized, At(t), poll, now).0 == Authorized
    ensures now >= t + AUTH_TIME ==> NextStatus(Authorized, At(t), poll, now).0 == NoAuth
    ensures NextStatus(Authorized, MinTime, poll, now).0 == NoAuth
  {
  }

  /** `can_auth` on a preauth response: result 'auth' and some device that can take a push. */
  predicate PushCapable(res: Preauth)
  {
    res.result == "auth" && exists i :: 0 <= i < |res.devices| && "push" in res.devices[i].capabilities
  }

  /** `DuoAuth`: one user's Duo authorization. */
  class DuoAuth {
    const username: string
    var txid: Option<string>
    var authTime: AuthTime
    var state: AuthState
    /** Every push request sent through the client, oldest first. */
    var requests: seq<PushRequest>

    /** A new authorizer is in NONE with no transaction and no authorization time. */
    constructor(username: string)
      ensures this.username == username
      ensures state == NoAuth && txid == None && authTime == MinTime && requests == []
    {
      this.username := username;
      txid := None;
      authTime := MinTime;
      state := NoAuth;
      requests := [];
    }

    /** `can_auth()`, given Duo's preauth response for this user. */
    method CanAuth(res: Preauth) returns (ok: bool)
      ensures ok <==> PushCapable(res)
    {
      if res.result == "auth" {
        var i := 0;
        while i < |res.devices|
          invariant 0 <= i <= |res.devices|
          invariant forall j :: 0 <= j < i ==> "push" !in res.devices[j].capabilities
        {
          if "push" in res.devices[i].capabilities {
            return true;
          }
          i := i + 1;
        }
      }
      return false;
    }

    /**
     * `auth(reason)`: sends a push and waits on the transaction id Duo
     * returns. The reason goes into the push information only when it is
     * given and not empty (`if reason:`); otherwise the push carries none.
     */
    method Auth(reason: Option<string>, returnedTxid: string)
      modifies this
      ensures state == Pending && txid == Some(returnedTxid)
      ensures requests == old(requests) + [PushRequest(username, if reason == Some("") then None else reason)]
      ensures authTime == old(authTime)
    {
      var sent := if reason.Some? && reason.value != "" then reason else None;
      requests := requests + [PushRequest(username, sent)];
      txid := Some(returnedTxid);
      state := Pending;
    }

    /** `auth_status()`, given what Duo would answer for the pending transaction and the time. */
    method AuthStatus(poll: Poll, now: int) returns (s: AuthState)
      modifies this
      ensures (state, authTime) == NextStatus(old(state), old(authTime), poll, now)
      ensures s == state
      ensures txid == old(txid) && requests == old(requests)
    {
      if state == Pending {
        if !poll.waiting {
          if poll.success {
            state := Authorized;
            authTime := At(now);
          } else {
            state := Denied;
            authTime := MinTime;
          }
        }
      } else if state == Authorized {
        if !RecentlyAuthed(authTime, now) {
          state := NoAuth;
        }
      }
      s := state;
    }

    /** `reset()`: back to NONE with no transaction, from any state. */
    method Reset()
      modifies this
      ensures state == NoAuth && txid == None
      ensures authTime == old(authTime) && requests == old(requests)
    {
      txid := None;
      state := NoAuth;
    }
  }
}
