/**
 * Redeeming invites (internal/auth/invites.go with internal/store/auth.go). Registrations are
 * serialised by regMu; revocations, new invites and the clock are not. liveInvite compares times in
 * Go, UseInvite compares their texts in SQL.
 */
module Invites {
  import opened Prelude
  import opened Text
  import opened Timestamps

  datatype Invite = Invite(expires: Time, used: bool)

  /** The registration that holds regMu. */
  datatype Registration =
    | Idle
    | Looked(code: string, invite: Invite)   // GetInvite returned the row
    | Live(code: string)                     // liveInvite passed
    | Created(code: string)                  // CreateUser succeeded
    | Using(code: string, at: Time)          // UseInvite has read the clock
    | Redeemed(code: string)                 // the rest only sets the role and logs in

  /** Counters of the past, by code: users created, invites redeemed, and three ways to miss. */
  datatype Log = Log(issued: set<string>, creates: multiset<string>, redeemed: multiset<string>,
                     errors: multiset<string>, skews: multiset<string>, aborts: multiset<string>)

  datatype State = State(rows: map<string, Invite>, clock: Time, reg: Registration, log: Log)

  datatype Event =
    | Issue(code: string, expires: Time)     // CreateInvite; codes are never drawn twice
    | Revoke(code: string)                   // DeleteInvite
    | Tick(now: Time)
    | Look(code: string)                     // take regMu, GetInvite
    | Judge                                  // Used and Expired
    | Abandon                                // a check before or in CreateUser fails
    | Create                                 // CreateUser succeeds
    | ReadClock
    | Use                                    // the UPDATE, and its row count
    | UseFails(committed: bool)              // UseInvite returns a store error, the UPDATE done or not
    | Abort                                  // the handler panics or the process dies; regMu is free again
    | Release

  /** What the UPDATE looks for. */
  predicate Hits(rows: map<string, Invite>, code: string, at: Time) {
    code in rows && !rows[code].used && !SqlExpired(rows[code].expires, at)
  }

  /** The UPDATE misses an unused invite that by the clock has not expired. */
  predicate Skewed(rows: map<string, Invite>, code: string, at: Time) {
    code in rows && !rows[code].used && SqlExpired(rows[code].expires, at) && !GoExpired(rows[code].expires, at)
  }

  predicate Enabled(s: State, e: Event) {
    match e
    case Issue(code, expires) => code !in s.log.issued && expires.Valid()
    case Revoke(code) => code in s.rows
    case Tick(now) => now.Valid() && s.clock.Nanos() <= now.Nanos()
    case Look(code) => s.reg.Idle? && code in s.rows
    case Judge => s.reg.Looked?
    case Abandon => s.reg.Looked? || s.reg.Live?
    case Create => s.reg.Live?
    case ReadClock => s.reg.Created?
    case Use => s.reg.Using?
    case UseFails(_) => s.reg.Using?
    case Abort => !s.reg.Idle?
    case Release => s.reg.Redeemed?
  }

  function Redeem(s: State, code: string): State
    requires code in s.rows
  {
    s.(rows := s.rows[code := s.rows[code].(used := true)], log := s.log.(redeemed := s.log.redeemed + multiset{code}))
  }

  function Apply(s: State, e: Event): State
    requires Enabled(s, e)
  {
    match e
    case Issue(code, expires) =>
      s.(rows := s.rows[code := Invite(expires, false)], log := s.log.(issued := s.log.issued + {code}))
    case Revoke(code) => s.(rows := s.rows - {code})
    case Tick(now) => s.(clock := now)
    case Look(code) => s.(reg := Looked(code, s.rows[code]))
    case Judge =>
      var dead := s.reg.invite.used || GoExpired(s.reg.invite.expires, s.clock);
      s.(reg := if dead then Idle else Live(s.reg.code))
    case Abandon => s.(reg := Idle)
    case Create => s.(reg := Created(s.reg.code), log := s.log.(creates := s.log.creates + multiset{s.reg.code}))
    case ReadClock => s.(reg := Using(s.reg.code, s.clock))
    case Use =>
      var code := s.reg.code;
      if Hits(s.rows, code, s.reg.at) then Redeem(s, code).(reg := Redeemed(code))
      else if Skewed(s.rows, code, s.reg.at) then s.(reg := Idle, log := s.log.(skews := s.log.skews + multiset{code}))
      else s.(reg := Idle)
    case UseFails(committed) =>
      var code := s.reg.code;
      var t := if committed && Hits(s.rows, code, s.reg.at) then Redeem(s, code) else s;
      t.(reg := Idle, log := t.log.(errors := t.log.errors + multiset{code}))
    case Abort =>
      if s.reg.Created? || s.reg.Using?
      then s.(reg := Idle, log := s.log.(aborts := s.log.aborts + multiset{s.reg.code}))
      else s.(reg := Idle)
    case Release => s.(reg := Idle)
  }

  function Start(clock: Time): State {
    State(map[], clock, Idle, Log({}, multiset{}, multiset{}, multiset{}, multiset{}, multiset{}))
  }

  ghost predicate IsRun(states: seq<State>, events: seq<Event>) {
    && |states| == |events| + 1 && states[0].clock.Valid() && states[0] == Start(states[0].clock)
    && forall i :: 0 <= i < |events| ==> Enabled(states[i], events[i]) && states[i + 1] == Apply(states[i], events[i])
  }

  // ---- the invariant ---------------------------------------------------------------------

  /** No registration that looks from now on will find the code live. */
  predicate Closed(s: State, code: string) {
    code !in s.rows || s.rows[code].used || GoExpired(s.rows[code].expires, s.clock)
  }

  /** Creations that were not followed by an orderly UseInvite. */
  function Slips(log: Log, code: string): nat { log.errors[code] + log.skews[code] + log.aborts[code] }

  /** How many creations of the code may lie behind: one more once the code is closed, or while one is pending. */
  function Allowed(s: State, code: string): nat {
    var one :=
      if s.reg.Idle? || s.reg.code != code then Closed(s, code)
      else match s.reg
           case Looked(_, invite) => invite.used || GoExpired(invite.expires, s.clock)
           case Live(_) => false
           case Redeemed(_) => Closed(s, code)
           case _ => true;
    Slips(s.log, code) + if one then 1 else 0
  }

  /** At most one redemption, none while the row is unused, and nothing happens to a code that was not issued. */
  predicate UsedOnce(s: State, code: string) {
    && s.log.redeemed[code] <= (if code in s.rows && !s.rows[code].used then 0 else 1)
    && (code !in s.log.issued ==> s.log.creates[code] == 0 && s.log.redeemed[code] == 0)
  }

  predicate CodeOk(s: State, code: string) {
    && s.log.creates[code] <= Allowed(s, code)
    && UsedOnce(s, code)
  }

  /** liveInvite found the invite unused, and the lock keeps it so. */
  predicate Promised(reg: Registration) { reg.Live? || reg.Created? || reg.Using? }

  ghost predicate Inv(s: State) {
    && s.clock.Valid()
    && (forall code :: code in s.rows ==> code in s.log.issued && s.rows[code].expires.Valid())
    && (!s.reg.Idle? ==> s.reg.code in s.log.issued)
    && (s.reg.Looked? && s.reg.code in s.rows ==> s.rows[s.reg.code] == s.reg.invite)
    && (Promised(s.reg) && s.reg.code in s.rows ==> !s.rows[s.reg.code].used)
    && (s.reg.Using? ==> s.reg.at.Valid() && s.reg.at.Nanos() <= s.clock.Nanos())
    && (s.reg.Redeemed? ==> Closed(s, s.reg.code))
    && (forall code :: CodeOk(s, code))
  }

  lemma OutsideCreates(s: State, e: Event, code: string)
    requires Inv(s) && Enabled(s, e) && (e.Issue? || e.Revoke? || e.Tick?)
    ensures Apply(s, e).log.creates[code] <= Allowed(Apply(s, e), code)
  {
    hide SqlExpired, Time.Nanos, Time.Valid, Hits, Skewed, Redeem;
    assert CodeOk(s, code);
  }

  lemma UseCreates(s: State, e: Event, code: string)
    requires Inv(s) && Enabled(s, e) && (e.Use? || e.UseFails?)
    ensures Apply(s, e).log.creates[code] <= Allowed(Apply(s, e), code)
  {
    hide SqlExpired, Time.Nanos, Time.Valid;
    assert CodeOk(s, code);
  }

  lemma StepCreates(s: State, e: Event, code: string)
    requires Inv(s) && Enabled(s, e)
    ensures Apply(s, e).log.creates[code] <= Allowed(Apply(s, e), code)
  {
    if e.Issue? || e.Revoke? || e.Tick? {
      OutsideCreates(s, e, code);
    } else if e.Use? || e.UseFails? {
      UseCreates(s, e, code);
    } else {
      hide SqlExpired, Time.Nanos, Time.Valid, Hits, Skewed, Redeem;
      assert CodeOk(s, code);
    }
  }

  lemma UseRedeems(s: State, e: Event, code: string)
    requires Enabled(s, e) && (e.Use? || e.UseFails?) && UsedOnce(s, code) && s.reg.code in s.log.issued
    ensures UsedOnce(Apply(s, e), code)
  {
    hide SqlExpired, GoExpired, Skewed, Time.Nanos, Time.Valid;
  }

  lemma StepRedeemed(s: State, e: Event, code: string)
    requires Inv(s) && Enabled(s, e)
    ensures UsedOnce(Apply(s, e), code)
  {
    assert CodeOk(s, code);
    if e.Use? || e.UseFails? {
      UseRedeems(s, e, code);
    } else {
      hide SqlExpired, GoExpired, Time.Nanos, Time.Valid, Allowed, Hits, Skewed, Redeem;
    }
  }

  lemma StepShape(s: State, e: Event)
    requires Inv(s) && Enabled(s, e)
    ensures var s' := Apply(s, e);
      && s'.clock.Valid()
      && (forall code :: code in s'.rows ==> code in s'.log.issued && s'.rows[code].expires.Valid())
      && (!s'.reg.Idle? ==> s'.reg.code in s'.log.issued)
      && (s'.reg.Looked? && s'.reg.code in s'.rows ==> s'.rows[s'.reg.code] == s'.reg.invite)
      && (Promised(s'.reg) && s'.reg.code in s'.rows ==> !s'.rows[s'.reg.code].used)
      && (s'.reg.Using? ==> s'.reg.at.Valid() && s'.reg.at.Nanos() <= s'.clock.Nanos())
      && (s'.reg.Redeemed? ==> Closed(s', s'.reg.code))
  {
    hide SqlExpired, Time.Nanos, Time.Valid, Allowed;
  }

  lemma StepInv(s: State, e: Event)
    requires Inv(s) && Enabled(s, e)
    ensures Inv(Apply(s, e))
  {
    StepShape(s, e);
    forall code
      ensures CodeOk(Apply(s, e), code)
    {
      StepCreates(s, e, code);
      StepRedeemed(s, e, code);
    }
    hide Apply, Enabled, CodeOk, Closed, Time.Valid, Time.Nanos;
  }

  lemma StartInv(clock: Time)
    requires clock.Valid()
    ensures Inv(Start(clock))
  {
  }

  lemma {:induction false} RunInv(states: seq<State>, events: seq<Event>, i: nat)
    requires IsRun(states, events) && i <= |events|
    ensures Inv(states[i])
  {
    hide Enabled, Apply, Inv;
    if i == 0 {
      StartInv(states[0].clock);
    } else {
      RunInv(states, events, i - 1);
      StepInv(states[i - 1], events[i - 1]);
    }
  }

  /**
   * MAIN: over all interleavings an invite creates at most one user, and one more for each UseInvite
   * that returned a store error, missed by a skewed comparison, or was never reached.
   */
  lemma CreationsBounded(states: seq<State>, events: seq<Event>, i: nat, code: string)
    requires IsRun(states, events) && i <= |events|
    ensures states[i].log.creates[code] <= 1 + Slips(states[i].log, code)
  {
    var s := states[i];
    hide IsRun;
    RunInv(states, events, i);
    assert CodeOk(s, code);
  }

  lemma {:induction false} NoSkews(states: seq<State>, events: seq<Event>, i: nat, code: string)
    requires IsRun(states, events) && i <= |events|
    requires forall j :: 0 <= j < i && states[j].reg.Using? ==> !Skewed(states[j].rows, code, states[j].reg.at)
    ensures states[i].log.skews[code] == 0
  {
    hide Skewed, Hits, SqlExpired, GoExpired;
    if i > 0 { NoSkews(states, events, i - 1, code); }
  }

  /** MAIN: with comparisons that agree, it is one user per code but for store errors and aborts. */
  lemma OneUserPerInvite(states: seq<State>, events: seq<Event>, i: nat, code: string)
    requires IsRun(states, events) && i <= |events|
    requires forall j :: 0 <= j < i && states[j].reg.Using? ==> !Skewed(states[j].rows, code, states[j].reg.at)
    ensures states[i].log.creates[code] <= 1 + states[i].log.errors[code] + states[i].log.aborts[code]
  {
    CreationsBounded(states, events, i, code);
    NoSkews(states, events, i, code);
  }

  /** MAIN: and it is redeemed at most once, whatever happens. */
  lemma SingleUse(states: seq<State>, events: seq<Event>, i: nat, code: string)
    requires IsRun(states, events) && i <= |events|
    ensures states[i].log.redeemed[code] <= 1
  {
    var s := states[i];
    hide IsRun;
    RunInv(states, events, i);
    assert CodeOk(s, code);
  }

  /** The comparison is skewed exactly in the reversed case before expiry. */
  lemma SkewExactly(rows: map<string, Invite>, code: string, at: Time)
    requires at.Valid() && code in rows && rows[code].expires.Valid()
    ensures Skewed(rows, code, at) <==> !rows[code].used && Reversed(at, rows[code].expires)
  {
    hide SqlExpired, Fraction, Time.Seconds;
    SqlExpiredExactly(rows[code].expires, at);
  }

  /**
   * MAIN: in every run UseInvite misses exactly when the invite was deleted, or has expired by the clock
   * UseInvite read (outside the reversed case), or is skewed; never because the code was used.
   */
  lemma UseMissesExactly(states: seq<State>, events: seq<Event>, i: nat)
    requires IsRun(states, events) && i < |events| && events[i] == Use
    ensures states[i].reg.Using?
    ensures var s := states[i];
      !Hits(s.rows, s.reg.code, s.reg.at) <==>
      || s.reg.code !in s.rows
      || (var expires := s.rows[s.reg.code].expires;
          (GoExpired(expires, s.reg.at) && !Reversed(expires, s.reg.at)) || Reversed(s.reg.at, expires))
  {
    hide Inv, SqlExpired, GoExpired, Reversed;
    RunInv(states, events, i);
    UsingState(states[i]);
    var s := states[i];
    if s.reg.code in s.rows { SqlExpiredExactly(s.rows[s.reg.code].expires, s.reg.at); }
  }

  lemma UsingState(s: State)
    requires Inv(s) && s.reg.Using?
    ensures s.reg.at.Valid()
    ensures s.reg.code in s.rows ==> s.rows[s.reg.code].expires.Valid() && !s.rows[s.reg.code].used
  {
  }

  lemma Extend(states: seq<State>, events: seq<Event>, e: Event) returns (states': seq<State>, events': seq<Event>)
    requires IsRun(states, events) && Enabled(states[|events|], e)
    ensures IsRun(states', events') && events' == events + [e] && |states'| == |events'| + 1
    ensures states'[|events'|] == Apply(states[|events|], e)
  {
    hide Enabled, Apply;
    states', events' := states + [Apply(states[|events|], e)], events + [e];
  }

  /** A registration up to CreateUser. */
  lemma Registers(states: seq<State>, events: seq<Event>, code: string)
      returns (states': seq<State>, events': seq<Event>)
    requires IsRun(states, events)
    requires var s := states[|events|];
      s.reg.Idle? && code in s.rows && !s.rows[code].used && !GoExpired(s.rows[code].expires, s.clock)
    ensures IsRun(states', events') && events' == events + [Look(code), Judge, Create]
    ensures var s := states[|events|];
      && |states'| == |events'| + 1
      && states'[|events'|] ==
         s.(reg := Created(code), log := s.log.(creates := s.log.creates + multiset{code}))
  {
    StepsToCreate(states[|events|], code);
    hide GoExpired, IsRun, Enabled, Apply;
    states', events' := Extend(states, events, Look(code));
    states', events' := Extend(states', events', Judge);
    states', events' := Extend(states', events', Create);
  }

  /** Its UPDATE misses, expired or skewed. */
  lemma Misses(states: seq<State>, events: seq<Event>, code: string)
      returns (states': seq<State>, events': seq<Event>)
    requires IsRun(states, events)
    requires var s := states[|events|];
      s.reg == Created(code) && code in s.rows && !s.rows[code].used && SqlExpired(s.rows[code].expires, s.clock)
    ensures IsRun(states', events') && events' == events + [ReadClock, Use]
    ensures var s := states[|events|];
      && |states'| == |events'| + 1
      && states'[|events'|] ==
         if GoExpired(s.rows[code].expires, s.clock) then s.(reg := Idle)
         else s.(reg := Idle, log := s.log.(skews := s.log.skews + multiset{code}))
  {
    StepsToMiss(states[|events|], code);
    hide SqlExpired, GoExpired, IsRun, Enabled, Apply;
    states', events' := Extend(states, events, ReadClock);
    states', events' := Extend(states', events', Use);
  }

  lemma StepsToCreate(s: State, code: string)
    requires s.reg.Idle? && code in s.rows && !s.rows[code].used && !GoExpired(s.rows[code].expires, s.clock)
    ensures var a, b := s.(reg := Looked(code, s.rows[code])), s.(reg := Live(code));
      && Enabled(s, Look(code)) && Apply(s, Look(code)) == a
      && Enabled(a, Judge) && Apply(a, Judge) == b
      && Enabled(b, Create)
      && Apply(b, Create) == s.(reg := Created(code), log := s.log.(creates := s.log.creates + multiset{code}))
  {
    hide SqlExpired, GoExpired;
  }

  lemma StepsToMiss(s: State, code: string)
    requires s.reg == Created(code) && code in s.rows && !s.rows[code].used
    requires SqlExpired(s.rows[code].expires, s.clock)
    ensures var d := s.(reg := Using(code, s.clock));
      && Enabled(s, ReadClock) && Apply(s, ReadClock) == d
      && Enabled(d, Use)
      && Apply(d, Use) ==
         if GoExpired(s.rows[code].expires, s.clock) then s.(reg := Idle)
         else s.(reg := Idle, log := s.log.(skews := s.log.skews + multiset{code}))
  {
    hide SqlExpired, GoExpired;
  }

  /** Without store errors and aborts one code can still create two users: a run inside the expiry's second. */
  lemma TwoUsersFromOneCode() returns (states: seq<State>, events: seq<Event>)
    ensures IsRun(states, events)
    ensures var log := states[|events|].log;
      log.creates["code"] == 2 && log.errors["code"] == 0 && log.aborts["code"] == 0 && log.skews["code"] == 2
  {
    var now, expires := Time(2024, 1, 1, 0, 0, 5, 0), Time(2024, 1, 1, 0, 0, 5, 500_000_000);
    ExpiryDisagreement();
    assert now.Valid();
    hide SqlExpired, GoExpired, Time.Seconds;
    states, events := [Start(now)], [];
    assert IsRun(states, events);
    hide IsRun;
    states, events := Extend(states, events, Issue("code", expires));
    states, events := Registers(states, events, "code");
    states, events := Misses(states, events, "code");
    states, events := Registers(states, events, "code");
    states, events := Misses(states, events, "code");
  }

  /**
   * And any invite that simply expires, by a second, while its user is created is missed, unused, with no skew
   * and no deletion.
   */
  lemma ExpiredMeanwhile(code: string, now: Time, expires: Time, later: Time)
      returns (states: seq<State>, events: seq<Event>)
    requires now.Valid() && expires.Valid() && later.Valid()
    requires now.Nanos() < expires.Nanos() && expires.Nanos() + 1_000_000_000 <= later.Nanos()
    ensures IsRun(states, events)
    ensures events == [Issue(code, expires)] + [Look(code), Judge, Create] + [Tick(later)] + [ReadClock, Use]
    ensures var s := states[|events|];
      && s.rows == map[code := Invite(expires, false)] && s.reg.Idle?
      && s.log == Log({code}, multiset{code}, multiset{}, multiset{}, multiset{}, multiset{})
  {
    SqlExpiryWithinASecond(expires, later);
    hide SqlExpired, Time.Valid, Time.Nanos;
    states, events := [Start(now)], [];
    assert IsRun(states, events);
    hide IsRun;
    states, events := Extend(states, events, Issue(code, expires));
    states, events := Registers(states, events, code);
    states, events := Extend(states, events, Tick(later));
    states, events := Misses(states, events, code);
  }
}
