/** Token revocation (pkg/auth/jwt_manager.go): tokens with an expiry (the exp
    claim, section 4.1.4 of RFC 7519), a table of revoked token ids, and the
    hourly cleanup that drops entries older than the refresh lifetime. */
module Revocation {
  import opened Collections

  datatype TokenType = Access | Refresh | Api | Other

  datatype Token = Token(id: string, notBefore: real, expires: real)

  datatype Config = Config(accessTTL: real, refreshTTL: real)

  const DAY := 86400.0

  /** The configuration used when none is given, in seconds. */
  const DEFAULT_CONFIG := Config(15.0 * 60.0, 7.0 * DAY)

  function TokenTTL(conf: Config, kind: TokenType): real {
    match kind
    case Access => conf.accessTTL
    case Refresh => conf.refreshTTL
    case Api => 365.0 * DAY
    case Other => conf.accessTTL
  }

  /** A NumericDate: whole seconds, the fraction cut off. */
  function Whole(time: real): real { time.Floor as real }

  function Issue(conf: Config, kind: TokenType, id: string, now: real): Token {
    Token(id, Whole(now), Whole(now + TokenTTL(conf, kind)))
  }

  type Table = map<string, real>

  function Revoke(table: Table, id: string, now: real): Table { table[id := now] }

  function Cleaned(table: Table, maxAge: real, now: real): Table {
    map id | id in table && now - table[id] <= maxAge :: table[id]
  }

  predicate InLife(token: Token, now: real) { token.notBefore <= now < token.expires }

  /** What the other goroutines do to the table. */
  datatype Event = Revoking(id: string, at: real) | Cleaning(at: real)

  function After(table: Table, maxAge: real, events: seq<Event>): Table
    decreases |events|
  {
    if events == [] then table else
    match events[0]
    case Revoking(id, at) => After(Revoke(table, id, at), maxAge, events[1..])
    case Cleaning(at) => After(Cleaned(table, maxAge, at), maxAge, events[1..])
  }

  class JWTManager {
    const conf: Config
    var revokedTokens: Table

    constructor (conf: Config)
      ensures this.conf == conf && revokedTokens == map[]
    {
      this.conf, revokedTokens := conf, map[];
    }

    method RevokeToken(id: string, now: real)
      modifies this
      ensures revokedTokens == old(revokedTokens)[id := now]
    {
      revokedTokens := revokedTokens[id := now];
    }

    /** Deletes while it goes over the table, in any order. */
    method CleanupRevokedTokens(now: real)
      modifies this
      ensures revokedTokens == Cleaned(old(revokedTokens), conf.refreshTTL, now)
      ensures forall id :: id in revokedTokens <==>
        id in old(revokedTokens) && now - old(revokedTokens)[id] <= conf.refreshTTL
      ensures forall id | id in revokedTokens :: revokedTokens[id] == old(revokedTokens)[id]
    {
      var maxAge := conf.refreshTTL;
      var rest := revokedTokens.Keys;
      while rest != {}
        invariant rest <= revokedTokens.Keys <= old(revokedTokens).Keys
        invariant forall id | id in revokedTokens :: revokedTokens[id] == old(revokedTokens)[id]
        invariant forall id | id in old(revokedTokens) && id !in rest ::
          id in revokedTokens <==> now - old(revokedTokens)[id] <= maxAge
      {
        HasElement(rest);
        var id :| id in rest;
        if now - revokedTokens[id] > maxAge {
          revokedTokens := revokedTokens - {id};
        }
        rest := rest - {id};
      }
    }

    method IsTokenRevoked(id: string) returns (revoked: bool)
      ensures revoked <==> id in revokedTokens
    {
      revoked := id in revokedTokens;
    }

    /** The calls of other goroutines that get the lock in between. */
    method Meanwhile(events: seq<Event>)
      modifies this
      ensures revokedTokens == After(old(revokedTokens), conf.refreshTTL, events)
    {
      for i := 0 to |events|
        invariant After(revokedTokens, conf.refreshTTL, events[i..]) ==
          After(old(revokedTokens), conf.refreshTTL, events)
      {
        assert events[i..][1..] == events[i + 1..];
        match events[i]
        case Revoking(id, at) => RevokeToken(id, at);
        case Cleaning(at) => CleanupRevokedTokens(at);
      }
      assert events[|events|..] == [];
    }

    /** The clock is read by the parser, at `checked`, and the table only later:
        the calls in `between` come before the lookup. `signed` stands for the
        signature and signing-method checks. */
    method ValidateToken(token: Token, checked: real, signed: bool, between: seq<Event>) returns (ok: bool)
      modifies this
      ensures ok <==> signed && token.notBefore <= checked < token.expires
                      && token.id !in After(old(revokedTokens), conf.refreshTTL, between)
      ensures !signed || checked < token.notBefore || token.expires <= checked ==> !ok
      ensures revokedTokens == if signed && token.notBefore <= checked < token.expires
                               then After(old(revokedTokens), conf.refreshTTL, between) else old(revokedTokens)
    {
      if !signed || checked < token.notBefore || checked >= token.expires { return false; }
      Meanwhile(between);
      var revoked := IsTokenRevoked(token.id);
      ok := !revoked;
    }
  }

  // ----- runs -----

  /** The clock does not go back, from `start` on and up to `end`. */
  ghost predicate Timed(start: real, events: seq<Event>, end: real)
    decreases |events|
  {
    if events == [] then start <= end else start <= events[0].at && Timed(events[0].at, events[1..], end)
  }

  /** An entry goes only with a cleanup more than maxAge after the revocation. */
  lemma {:induction false} EntryStays(table: Table, maxAge: real, id: string, since: real,
                                      start: real, events: seq<Event>, end: real)
    requires Timed(start, events, end) && id in table && since <= table[id] && since <= start
    ensures id in After(table, maxAge, events) || since + maxAge < end
    decreases |events|
  {
    if events != [] {
      EndIsLast(events[0].at, events[1..], end);
      match events[0]
      case Revoking(other, at) => EntryStays(Revoke(table, other, at), maxAge, id, since, at, events[1..], end);
      case Cleaning(at) =>
        if id in Cleaned(table, maxAge, at) {
          EntryStays(Cleaned(table, maxAge, at), maxAge, id, since, at, events[1..], end);
        }
    }
  }

  lemma {:induction false} EndIsLast(start: real, events: seq<Event>, end: real)
    requires Timed(start, events, end)
    ensures start <= end
    decreases |events|
  {
    if events != [] { EndIsLast(events[0].at, events[1..], end); }
  }

  /** Revoking a token at `revoked` keeps it out for good: whatever was in the
      table, and whatever is revoked and cleaned up after it, no validation looks
      it up in vain that read the clock, at `checked`, at most `slow` before the
      lookup and found the token in its life. The `events` up to the lookup may
      come before the clock reading or after it. */
  ghost predicate StaysRevoked(maxAge: real, slow: real, token: Token, revoked: real) {
    forall table: Table, events, checked, lookup |
      && Timed(revoked, events, lookup) && checked <= lookup <= checked + slow
      && token.id in table && table[token.id] == revoked && InLife(token, checked) ::
      token.id in After(table, maxAge, events)
  }

  /** A cleanup may fall between clock reading and lookup, so a revocation lasts
      if and only if the entry outlives the token by the slowest validation, for
      every token that is ever valid. */
  lemma RevocationLasts(maxAge: real, slow: real, token: Token, revoked: real)
    requires maxAge >= 0.0 && slow >= 0.0
    ensures StaysRevoked(maxAge, slow, token, revoked) <==>
      token.expires <= token.notBefore || token.expires + slow <= revoked + maxAge
  {
    if token.expires <= token.notBefore || token.expires + slow <= revoked + maxAge {
      forall table: Table, events, checked, lookup |
        && Timed(revoked, events, lookup) && checked <= lookup <= checked + slow
        && token.id in table && table[token.id] == revoked && InLife(token, checked)
        ensures token.id in After(table, maxAge, events)
      {
        EntryStays(table, maxAge, token.id, revoked, revoked, events, lookup);
      }
    } else {
      CleanedTooEarly(maxAge, slow, token, revoked);
    }
  }

  /** The run that fails: the parser reads the clock just before the token
      expires, and the cleanup comes just before the lookup. */
  lemma CleanedTooEarly(maxAge: real, slow: real, token: Token, revoked: real)
    requires maxAge >= 0.0 && slow >= 0.0
    requires token.notBefore < token.expires && revoked + maxAge < token.expires + slow
    ensures !StaysRevoked(maxAge, slow, token, revoked)
  {
    var earliest := if token.notBefore < revoked + maxAge - slow then revoked + maxAge - slow else token.notBefore;
    var checked := (earliest + token.expires) / 2.0;
    var lookup := checked + slow;
    var table: Table := map[token.id := revoked];
    var events := [Cleaning(lookup)];
    assert events[1..] == [];
    assert After(table, maxAge, events) == Cleaned(table, maxAge, lookup) by {
      assert After(table, maxAge, events) == After(Cleaned(table, maxAge, lookup), maxAge, events[1..]);
    }
    assert Timed(revoked, events, lookup);
    assert token.id in table && table[token.id] == revoked && InLife(token, checked);
    assert token.id !in After(table, maxAge, events);
  }

  /** Every validation is one of those: a parse that starts after the revocation
      and whatever comes before and after the clock is read. */
  lemma ValidationsAreCovered(maxAge: real, slow: real, token: Token, table: Table, revoked: real,
                              before: seq<Event>, checked: real, between: seq<Event>, lookup: real)
    requires StaysRevoked(maxAge, slow, token, revoked)
    requires Timed(revoked, before, checked) && Timed(checked, between, lookup) && lookup <= checked + slow
    requires token.notBefore <= checked < token.expires
    ensures token.id in After(After(Revoke(table, token.id, revoked), maxAge, before), maxAge, between)
  {
    var entered := Revoke(table, token.id, revoked);
    EndIsLast(checked, between, lookup);
    EventsJoin(entered, maxAge, revoked, before, checked, between, lookup);
    assert token.id in entered && entered[token.id] == revoked && InLife(token, checked);
    assert Timed(revoked, before + between, lookup) && checked <= lookup <= checked + slow;
    assert token.id in After(entered, maxAge, before + between);
  }

  lemma {:induction false} EventsJoin(table: Table, maxAge: real, start: real, before: seq<Event>,
                                      middle: real, between: seq<Event>, end: real)
    requires Timed(start, before, middle) && Timed(middle, between, end)
    ensures Timed(start, before + between, end)
    ensures After(table, maxAge, before + between) == After(After(table, maxAge, before), maxAge, between)
    decreases |before|
  {
    if before == [] {
      assert before + between == between;
      if between != [] { assert start <= between[0].at; }
    } else {
      var next := match before[0]
        case Revoking(id, at) => Revoke(table, id, at)
        case Cleaning(at) => Cleaned(table, maxAge, at);
      assert (before + between)[1..] == before[1..] + between;
      EventsJoin(next, maxAge, before[0].at, before[1..], middle, between, end);
    }
  }

  lemma LessThanNext(m: int, n: int)
    requires m as real < n as real + 1.0
    ensures m <= n
  {
    assert n as real + 1.0 == (n + 1) as real;
  }

  lemma FloorIs(time: real, n: int)
    requires n as real <= time < n as real + 1.0
    ensures time.Floor == n
  {
    LessThanNext(n, time.Floor);
    LessThanNext(time.Floor, n);
  }

  lemma WholeIsMonotone(a: real, b: real)
    requires a <= b
    ensures Whole(a) <= Whole(b) <= b
  {
    LessThanNext(a.Floor, b.Floor);
  }

  lemma WholeShifts(time: real, n: int)
    ensures Whole(time + n as real) == Whole(time) + n as real
  {
    FloorIs(time + n as real, time.Floor + n);
  }

  /** A revocation of a token of a kind, in terms of the kind's lifetime. */
  lemma IssuedTokenLasts(conf: Config, slow: real, kind: TokenType, id: string, issued: real, revoked: real)
    requires conf.refreshTTL >= 0.0 && slow >= 0.0 && revoked >= issued
    requires TokenTTL(conf, kind) <= 0.0 || TokenTTL(conf, kind) + slow <= conf.refreshTTL
    ensures StaysRevoked(conf.refreshTTL, slow, Issue(conf, kind, id, issued), revoked)
  {
    hide StaysRevoked;
    var ttl := TokenTTL(conf, kind);
    RevocationLasts(conf.refreshTTL, slow, Issue(conf, kind, id, issued), revoked);
    WholeIsMonotone(issued + ttl, issued + ttl);
    if ttl <= 0.0 { WholeIsMonotone(issued + ttl, issued); }
    hide Whole;
  }

  /** Issued so that it expires at a full second, and revoked at once. */
  lemma IssuedTokenReturns(conf: Config, slow: real, kind: TokenType, id: string)
    requires conf.refreshTTL >= 0.0 && slow >= 0.0
    requires TokenTTL(conf, kind) > 0.0 && TokenTTL(conf, kind) + slow > conf.refreshTTL
    ensures var issued := -TokenTTL(conf, kind);
      !StaysRevoked(conf.refreshTTL, slow, Issue(conf, kind, id, issued), issued)
  {
    hide StaysRevoked;
    var issued := -TokenTTL(conf, kind);
    RevocationLasts(conf.refreshTTL, slow, Issue(conf, kind, id, issued), issued);
    WholeIsMonotone(issued, issued);
    assert Whole(0.0) == 0.0;
    assert issued + TokenTTL(conf, kind) == 0.0;
    hide Whole, TokenTTL;
  }

  /** A revocation lasts for every token of the kind, however early it comes. */
  ghost predicate KindStaysRevoked(conf: Config, slow: real, kind: TokenType, id: string) {
    forall issued, revoked | revoked >= issued ::
      StaysRevoked(conf.refreshTTL, slow, Issue(conf, kind, id, issued), revoked)
  }

  /** Revoking tokens of a kind at any time lasts if and only if the lifetime of
      the kind and the slowest validation together are at most the refresh
      lifetime, or the kind has no lifetime at all. */
  lemma RevocationOfKindLasts(conf: Config, slow: real, kind: TokenType, id: string)
    requires conf.refreshTTL >= 0.0 && slow >= 0.0
    ensures KindStaysRevoked(conf, slow, kind, id) <==>
      TokenTTL(conf, kind) <= 0.0 || TokenTTL(conf, kind) + slow <= conf.refreshTTL
  {
    hide StaysRevoked, TokenTTL, Issue;
    var ttl := TokenTTL(conf, kind);
    if ttl <= 0.0 || ttl + slow <= conf.refreshTTL {
      forall issued, revoked | revoked >= issued
        ensures StaysRevoked(conf.refreshTTL, slow, Issue(conf, kind, id, issued), revoked)
      {
        IssuedTokenLasts(conf, slow, kind, id, issued, revoked);
      }
    } else {
      IssuedTokenReturns(conf, slow, kind, id);
    }
  }

  /** With the default configuration of 15 minutes and seven days, in seconds,
      revoked access tokens stay out as long as no validation takes longer than
      seven days less fifteen minutes; a refresh token, whose entry is kept for
      just its lifetime, if and only if none takes longer than it was from issue
      to revocation; and an API token revoked in its first 358 days comes back,
      however fast the validation. */
  lemma DefaultLifetimes(slow: real, id: string, issued: real, revoked: real)
    requires slow >= 0.0
    ensures DEFAULT_CONFIG == Config(900.0, 604800.0)
    ensures KindStaysRevoked(DEFAULT_CONFIG, slow, Access, id) <==> slow <= 603900.0
    ensures KindStaysRevoked(DEFAULT_CONFIG, slow, Other, id) <==> slow <= 603900.0
    ensures StaysRevoked(604800.0, slow, Issue(DEFAULT_CONFIG, Refresh, id, issued), revoked) <==>
      slow <= revoked - issued.Floor as real
    ensures StaysRevoked(604800.0, slow, Issue(DEFAULT_CONFIG, Api, id, issued), revoked) <==>
      30931200.0 + slow <= revoked - issued.Floor as real
  {
    hide StaysRevoked, KindStaysRevoked;
    RevocationOfKindLasts(DEFAULT_CONFIG, slow, Access, id);
    RevocationOfKindLasts(DEFAULT_CONFIG, slow, Other, id);
    RevocationLasts(DEFAULT_CONFIG.refreshTTL, slow, Issue(DEFAULT_CONFIG, Refresh, id, issued), revoked);
    RevocationLasts(DEFAULT_CONFIG.refreshTTL, slow, Issue(DEFAULT_CONFIG, Api, id, issued), revoked);
    assert 7.0 * DAY == 604800 as real && 365.0 * DAY == 31536000 as real;
    WholeShifts(issued, 604800);
    WholeShifts(issued, 31536000);
    hide Whole;
  }
}
