/**
 * The cached Jellyfin administrator token (internal/clients/jellyfin/admin.go) on a server that
 * follows the session rules stated in internal/clients/jellyfin/client.go: one session per user and
 * device id, and a token moves to the device that presents it.
 */
module JellyfinAdmin {
  import opened Prelude

  datatype Session = Session(user: string, device: string)

  /** The sessions by token. */
  datatype Sessions = Sessions(live: map<nat, Session>, next: nat)

  const SERVER := "pelicula-server"
  const DASHBOARD := "pelicula-dashboard"

  function Without(live: map<nat, Session>, s: Session): map<nat, Session> {
    map t | t in live && live[t] != s :: live[t]
  }

  /** A login ends every session of the user on the device and starts one with a new token. */
  function LoggedIn(v: Sessions, user: string, device: string): Sessions {
    var s := Session(user, device);
    Sessions(Without(v.live, s)[v.next := s], v.next + 1)
  }

  /** A request with the token from the device; the move may end the session it finds there. */
  function Presented(v: Sessions, token: nat, device: string, evict: bool): Sessions {
    if token !in v.live then v
    else
      var s := Session(v.live[token].user, device);
      v.(live := (if evict then Without(v.live, s) else v.live)[token := s])
  }

  // ---- the client ------------------------------------------------------------------------

  datatype Result = Ok | Unauthorized | Failed

  /** The server, which may refuse a login or lose the reply. */
  class Jellyfin {
    var v: Sessions

    constructor ()
      ensures v == Sessions(map[], 1)
    {
      v := Sessions(map[], 1);
    }

    method AuthenticateByName(user: string, device: string) returns (token: Option<nat>)
      modifies this
      ensures token.Some? ==> token.value == old(v).next && v == LoggedIn(old(v), user, device)
      ensures token.None? ==> v == old(v) || v == LoggedIn(old(v), user, device)
    {
      var accepted, replied: bool := *, *;
      token := None;
      if accepted {
        if replied { token := Some(v.next); }
        v := LoggedIn(v, user, device);
      }
    }
  }

  /** The function a caller hands to WithToken; it answers anything, and remembers the tokens it was given. */
  class Caller {
    var given: seq<nat>
    var answers: seq<Result>

    constructor ()
      ensures given == [] && answers == []
    {
      given, answers := [], [];
    }

    method Call(token: nat) returns (r: Result)
      modifies this
      ensures given == old(given) + [token] && answers == old(answers) + [r]
    {
      r := *;
      given, answers := given + [token], answers + [r];
    }
  }

  class Admin {
    const jellyfin: Jellyfin
    const user: string
    var token: Option<nat>

    constructor (jellyfin: Jellyfin, user: string)
      ensures this.jellyfin == jellyfin && this.user == user && token == None
    {
      this.jellyfin, this.user, token := jellyfin, user, None;
    }

    /** `Token`: no login while there is a cached token, one login as DeviceServer otherwise. */
    method Token() returns (t: Option<nat>)
      modifies this, jellyfin
      ensures old(token).Some? ==> t == token == old(token) && jellyfin.v == old(jellyfin.v)
      ensures old(token).None? ==> token == t
      ensures old(token).None? && t.Some? ==>
          t.value == old(jellyfin.v).next && jellyfin.v == LoggedIn(old(jellyfin.v), user, SERVER)
      ensures old(token).None? && t.None? ==>
          jellyfin.v == old(jellyfin.v) || jellyfin.v == LoggedIn(old(jellyfin.v), user, SERVER)
    {
      if token.Some? { return token; }
      var res := jellyfin.AuthenticateByName(user, SERVER);
      if res.None? { return None; }
      token := res;
      t := token;
    }

    method Invalidate()
      modifies this
      ensures token == None
    {
      token := None;
    }

    /**
     * `WithToken`: the function runs at most twice, the second time only after Unauthorized and with
     * a token of a new login; the result is that of the last call, or a failed login's.
     */
    method WithToken(fn: Caller) returns (r: Result)
      modifies this, jellyfin, fn
      ensures |old(fn.given)| <= |fn.given| <= |old(fn.given)| + 2 && old(fn.given) <= fn.given
      ensures |fn.answers| - |old(fn.answers)| == |fn.given| - |old(fn.given)| && old(fn.answers) <= fn.answers
      ensures var n, made := |old(fn.answers)|, |fn.answers| - |old(fn.answers)|;
        && (made == 0 ==> r == Failed && old(token).None?)
        && (made == 1 ==> if fn.answers[n] == Unauthorized then r == Failed && token.None? else r == fn.answers[n])
        && (made == 2 ==> fn.answers[n] == Unauthorized && r == fn.answers[n + 1])
      ensures var n, made := |old(fn.given)|, |fn.given| - |old(fn.given)|;
        && (made >= 1 ==> fn.given[n] == if old(token).Some? then old(token).value else old(jellyfin.v).next)
        && (made == 0 ==> token.None?)
        && (made == 1 && fn.answers[|old(fn.answers)|] != Unauthorized ==>
              && token == Some(fn.given[n])
              && jellyfin.v == if old(token).Some? then old(jellyfin.v) else LoggedIn(old(jellyfin.v), user, SERVER))
        && (made == 2 ==>
              && token == Some(fn.given[n + 1])
              && fn.given[n + 1] >= old(jellyfin.v).next && fn.given[n + 1] in jellyfin.v.live
              && jellyfin.v.live[fn.given[n + 1]] == Session(user, SERVER)
              && fn.given[n + 1] == old(jellyfin.v).next + if old(token).Some? then 0 else 1)
    {
      var t := Token();
      if t.None? { return Failed; }
      r := fn.Call(t.value);
      if r != Unauthorized { return; }
      Invalidate();
      t := Token();
      if t.None? { return Failed; }
      r := fn.Call(t.value);
    }
  }

  // ---- every run -------------------------------------------------------------------------

  /** issued holds every token the Admin was ever given: callers may still hold old ones. */
  datatype State = State(v: Sessions, cached: Option<nat>, issued: set<nat>)

  datatype Event =
    | Login(user: string, device: string)                  // on the dashboard or any other client
    | UseOther(token: nat, device: string, evict: bool)    // a token that was never the Admin's
    | Refresh(replied: bool)                               // Token with nothing cached
    | UseAdmin(token: nat, device: string, evict: bool)    // a token of the Admin
    | Invalidate

  predicate Enabled(s: State, e: Event) {
    match e
    case Login(user, device) => device != SERVER
    case UseOther(token, device, _) => token !in s.issued && device != SERVER
    case Refresh(_) => s.cached.None?
    case UseAdmin(token, _, _) => token in s.issued
    case Invalidate => true
  }

  function Apply(admin: string, s: State, e: Event): State {
    match e
    case Login(user, device) => s.(v := LoggedIn(s.v, user, device))
    case UseOther(token, device, evict) => s.(v := Presented(s.v, token, device, evict))
    case Refresh(replied) =>
      var t := s.(v := LoggedIn(s.v, admin, SERVER));
      if replied then t.(cached := Some(s.v.next), issued := s.issued + {s.v.next}) else t
    case UseAdmin(token, device, evict) => s.(v := Presented(s.v, token, device, evict))
    case Invalidate => s.(cached := None)
  }

  /** The rule of (*Admin).Client: the admin token travels as DeviceServer. */
  predicate Disciplined(e: Event) { e.UseAdmin? ==> e.device == SERVER }

  const START := State(Sessions(map[], 1), None, {})

  ghost predicate IsRun(admin: string, states: seq<State>, events: seq<Event>) {
    && |states| == |events| + 1 && states[0] == START
    && forall i :: 0 <= i < |events| ==>
        Enabled(states[i], events[i]) && states[i + 1] == Apply(admin, states[i], events[i])
  }

  /**
   * The cached token is live on DeviceServer; only that device has the Admin's tokens, and it has one session
   * at most.
   */
  ghost predicate Inv(admin: string, s: State) {
    && (s.cached.Some? ==> s.cached.value in s.issued && s.cached.value in s.v.live)
    && (forall t :: t in s.v.live || t in s.issued ==> t < s.v.next)
    && (forall t :: t in s.v.live && t in s.issued ==> s.v.live[t] == Session(admin, SERVER))
    && (forall t :: t in s.v.live && s.v.live[t].device == SERVER ==> s.v.live[t].user == admin)
    && (forall t, u ::
          (t in s.v.live && u in s.v.live && s.v.live[t].device == SERVER && s.v.live[u].device == SERVER) ==> t == u)
  }

  lemma StepInv(admin: string, s: State, e: Event)
    requires Inv(admin, s) && Enabled(s, e) && Disciplined(e)
    ensures Inv(admin, Apply(admin, s, e))
  {
  }

  /**
   * MAIN: in every run of logins (the administrator's own among them), requests and invalidations
   * that keeps the rule, a cached token is live and belongs to the administrator on DeviceServer.
   */
  lemma {:induction false} CachedTokenLives(admin: string, states: seq<State>, events: seq<Event>, i: nat)
    requires IsRun(admin, states, events) && i <= |events|
    requires forall j :: 0 <= j < i ==> Disciplined(events[j])
    ensures Inv(admin, states[i])
    ensures states[i].cached.Some? ==>
              states[i].cached.value in states[i].v.live
                  && states[i].v.live[states[i].cached.value] == Session(admin, SERVER)
  {
    hide Enabled, Apply, Disciplined;
    if i > 0 {
      CachedTokenLives(admin, states, events, i - 1);
      StepInv(admin, states[i - 1], events[i - 1]);
    }
  }

  /**
   * MAIN: one request with the token from the dashboard's device breaks it: the administrator's next login
   * there ends the session.
   */
  lemma DashboardUseRevokes(admin: string) returns (states: seq<State>, events: seq<Event>)
    ensures IsRun(admin, states, events)
    ensures forall j :: 0 <= j < |events| ==> (Disciplined(events[j]) <==> j != 1)
    ensures var s := states[|events|]; s.cached.Some? && s.cached.value !in s.v.live
  {
    events := [Refresh(true), UseAdmin(1, DASHBOARD, false), Login(admin, DASHBOARD)];
    var s1 := Apply(admin, START, events[0]);
    var s2 := Apply(admin, s1, events[1]);
    var s3 := Apply(admin, s2, events[2]);
    states := [START, s1, s2, s3];
    assert s1.v.live[1] == Session(admin, SERVER);
    assert s2.v.live[1] == Session(admin, DASHBOARD);
  }
}
