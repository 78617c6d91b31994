/** Authenticating operators by token or by a signed session bound to a credential's revision. */
module OperatorAuth {
  import opened Wrappers
  import opened Lookup
  import opened Operators

  const MINIMUM_TOKEN_LENGTH := 24

  /** `fingerprint` is the revision derived from the token. */
  datatype Static = Static(principal: Principal, token: Token, fingerprint: nat)

  /** `persistent` counts the stored credentials, whether active or not. */
  datatype Auth = Auth(statics: seq<Static>, secret: Option<Token>, ttl: int, persistent: nat)

  datatype ConfigError = TokenTooShort | DuplicatePrincipal(id: int) | DuplicateToken | SecretTooShort

  function StaticIds(s: seq<Static>): (keys: seq<int>)
    ensures |keys| == |s|
  {
    seq(|s|, i requires 0 <= i < |s| => s[i].principal.id)
  }

  function StaticTokens(s: seq<Static>): (keys: seq<Token>)
    ensures |keys| == |s|
  {
    seq(|s|, i requires 0 <= i < |s| => s[i].token)
  }

  predicate LongEnough(s: seq<Static>) { forall i :: 0 <= i < |s| ==> s[i].token.length >= MINIMUM_TOKEN_LENGTH }

  /** Five minutes to thirty days, eight hours when not given. */
  function BoundedTtl(ttl: Option<int>): int { Clamp(ttl, 8 * 60 * 60, 5 * 60, 30 * 24 * 60 * 60) }

  /** Ids and tokens collected one by one into sets, refusing the first repetition. */
  method NoDuplicates(statics: seq<Static>) returns (error: Option<ConfigError>)
    ensures error.None? <==> Distinct(StaticIds(statics)) && Distinct(StaticTokens(statics))
  {
    var ids: set<int>, tokens: set<Token> := {}, {};
    for i := 0 to |statics|
      invariant forall x :: x in ids <==> x in StaticIds(statics)[..i]
      invariant forall x :: x in tokens <==> x in StaticTokens(statics)[..i]
      invariant Distinct(StaticIds(statics)[..i]) && Distinct(StaticTokens(statics)[..i])
    {
      ghost var keys, texts := StaticIds(statics), StaticTokens(statics);
      assert keys[..i + 1] == keys[..i] + [keys[i]] && texts[..i + 1] == texts[..i] + [texts[i]];
      if statics[i].principal.id in ids {
        Repeats(keys, i);
        return Some(DuplicatePrincipal(statics[i].principal.id));
      }
      if statics[i].token in tokens {
        Repeats(texts, i);
        return Some(DuplicateToken);
      }
      ids, tokens := ids + {statics[i].principal.id}, tokens + {statics[i].token};
    }
    assert StaticIds(statics)[..|statics|] == StaticIds(statics);
    assert StaticTokens(statics)[..|statics|] == StaticTokens(statics);
    return None;
  }

  lemma Repeats<K(!new)>(keys: seq<K>, i: nat)
    requires i < |keys| && keys[i] in keys[..i]
    ensures !Distinct(keys)
  {
  }

  /** An administrator's token puts its principal first; without a secret the first token serves as one. */
  method Configure(admin: Option<Static>, credentials: seq<Static>, secret: Option<Token>, ttl: Option<int>,
                   persistent: int)
    returns (r: Result<Auth, ConfigError>)
    ensures var all := if admin.Some? then [admin.value] + credentials else credentials;
            && (r.Ok? <==> (forall c :: c in all ==> c.token.length >= 24)
                           && Distinct(StaticIds(all)) && Distinct(StaticTokens(all))
                           && (secret.Some? ==> secret.value.length >= 24))
            && (r.Ok? ==> r.value.statics == all && r.value.ttl == Clamp(ttl, 28_800, 300, 2_592_000)
                          && r.value.persistent == Max(0, persistent)
                          && r.value.secret == if secret.Some? then secret
                                               else if all != [] then Some(all[0].token) else None)
  {
    var all := if admin.Some? then [admin.value] + credentials else credentials;
    if !LongEnough(all) { return Err(TokenTooShort); }
    var duplicate := NoDuplicates(all);
    if duplicate.Some? { return Err(duplicate.value); }
    if secret.Some? && secret.value.length < MINIMUM_TOKEN_LENGTH { return Err(SecretTooShort); }
    var key := if secret.Some? then secret else if all != [] then Some(all[0].token) else None;
    return Ok(Auth(all, key, BoundedTtl(ttl), Max(0, persistent)));
  }

  predicate Configured(a: Auth) { a.statics != [] || a.persistent > 0 }

  // ----------------------------------------------------------------- sessions

  datatype Payload =
    | V1(expiresAt: int, csrf: int)
    | V2(principal: int, expiresAt: int, csrf: int)
    | V3(principal: int, stored: bool, revision: nat, expiresAt: int, csrf: int)

  /** The signature is a keyed digest of the payload. */
  datatype Cookie = Cookie(payload: Payload, signature: Digest<(Option<Token>, Payload)>)

  function Sign(a: Auth, p: Payload): Digest<(Option<Token>, Payload)> { Digest((a.secret, p)) }

  function FindToken(s: seq<Static>, token: Token): (k: nat)
    ensures k <= |s|
    ensures k < |s| ==> s[k].token == token
  {
    First(StaticTokens(s), token)
  }

  datatype Session = Session(cookie: Cookie, principal: Principal)

  /** A session for whoever the token authenticates, static credentials first. `at` is in milliseconds. */
  function CreateSession(a: Auth, stored: seq<Credential>, token: Token, csrf: int, at: int): Option<Session> {
    var expiresAt := at / 1000 + a.ttl;
    var k := FindToken(a.statics, token);
    if k < |a.statics| then
      var c := a.statics[k];
      var p := V3(c.principal.id, false, c.fingerprint, expiresAt, csrf);
      Some(Session(Cookie(p, Sign(a, p)), c.principal))
    else
      match AuthenticateToken(stored, token)
      case None => None
      case Some((principal, revision)) =>
        var p := V3(principal.id, true, revision, expiresAt, csrf);
        Some(Session(Cookie(p, Sign(a, p)), principal))
  }

  /** A version-3 payload with revision 0 does not decode. */
  function ParseSession(a: Auth, cookie: Option<Cookie>, at: int): Option<Payload> {
    if a.secret.None? || cookie.None? then None
    else if cookie.value.signature != Sign(a, cookie.value.payload) then None
    else if cookie.value.payload.V3? && cookie.value.payload.revision < 1 then None
    else if cookie.value.payload.expiresAt <= at / 1000 then None
    else Some(cookie.value.payload)
  }

  datatype Request = Request(bearer: Option<Token>, cookie: Option<Cookie>, csrf: Option<int>)

  datatype Method = Disabled | Bearer | BySession

  datatype Authentication = Refused | Granted(how: Method, csrfValid: bool, principal: Principal)

  const LOCAL := Principal(-1, Owner, [All])

  function StaticAt(s: seq<Static>, id: int, fingerprint: Option<nat>): Option<Principal> {
    if s == [] then None
    else if s[0].principal.id == id && (fingerprint.None? || s[0].fingerprint == fingerprint.value) then
      Some(s[0].principal)
    else StaticAt(s[1..], id, fingerprint)
  }

  function SessionPrincipal(a: Auth, stored: seq<Credential>, p: Payload): Option<Principal> {
    match p
    case V1(_, _) => if a.statics == [] then None else Some(a.statics[0].principal)
    case V2(id, _, _) => StaticAt(a.statics, id, None)
    case V3(id, false, revision, _, _) => StaticAt(a.statics, id, Some(revision))
    case V3(id, true, revision, _, _) => ResolveActive(stored, id, revision)
  }

  function Authenticate(a: Auth, stored: seq<Credential>, r: Request, at: int): Authentication {
    if !Configured(a) then Granted(Disabled, true, LOCAL)
    else if r.bearer.Some? && FindToken(a.statics, r.bearer.value) < |a.statics| then
      Granted(Bearer, true, a.statics[FindToken(a.statics, r.bearer.value)].principal)
    else if r.bearer.Some? && AuthenticateToken(stored, r.bearer.value).Some? then
      Granted(Bearer, true, AuthenticateToken(stored, r.bearer.value).value.0)
    else
      match ParseSession(a, r.cookie, at)
      case None => Refused
      case Some(p) =>
        var principal := SessionPrincipal(a, stored, p);
        if principal.None? then Refused else Granted(BySession, r.csrf == Some(p.csrf), principal.value)
  }

  /** The credential's token is the bearer's, and of the form drawn for stored credentials. */
  predicate Opens(c: Credential, token: Token) {
    c.active && c.hash == Digest(token) && token.prefixed && token.length >= 40
  }

  /**
    A configured server grants a bearer token exactly when it is that of a configured
    credential, and then as its principal, or opens a stored one; without a token or
    a cookie it refuses.
   */
  lemma BearerDecides(a: Auth, stored: seq<Credential>, token: Token, csrf: Option<int>, at: int)
    requires Configured(a) && Distinct(StaticTokens(a.statics))
    ensures var r := Authenticate(a, stored, Request(Some(token), None, csrf), at);
            && (forall c :: c in a.statics && c.token == token ==> r == Granted(Bearer, true, c.principal))
            && (r.Granted? <==> (exists c :: c in a.statics && c.token == token)
                                || exists c :: c in stored && Opens(c, token))
            && (r.Granted? && (forall c :: c in a.statics ==> c.token != token) ==>
                  exists c :: c in stored && Opens(c, token) && r == Granted(Bearer, true, c.principal))
    ensures Authenticate(a, stored, Request(None, None, csrf), at) == Refused
  {
    var tokens := StaticTokens(a.statics);
    var k, h := FindToken(a.statics, token), HolderOf(stored, token);
    forall c | c in a.statics && c.token == token
      ensures k < |a.statics| && a.statics[k] == c
    {
      var i :| 0 <= i < |a.statics| && a.statics[i] == c;
      assert tokens[i] == token;
    }
    if k < |a.statics| {
      assert a.statics[k] in a.statics;
    }
    if h < |stored| {
      assert stored[h] in stored;
    }
    if c :| c in stored && Opens(c, token) {
      var i :| 0 <= i < |stored| && stored[i] == c;
      assert h <= i;
    }
  }

  // -------------------------------------------------------------- what lives on

  /** Every stored credential's revision is at least 1. */
  lemma {:induction false} RevisionsPositive(calls: seq<Call>)
    ensures forall k :: 0 <= k < |StoreRun(calls)| ==> StoreRun(calls)[k].revision >= 1
  {
    if calls != [] {
      RevisionsPositive(calls[..|calls| - 1]);
    }
  }

  /** What a session minted from stored credentials `before` is worth against `now`. */
  lemma SessionResolves(minted: Auth, later: Auth, before: seq<Credential>, now: seq<Credential>,
                        token: Token, csrf: int, from: int, at: int, given: Option<int>)
    requires later.secret == minted.secret && minted.secret.Some? && Configured(later)
    requires FindToken(minted.statics, token) == |minted.statics|
    requires AuthenticateToken(before, token).Some? && AuthenticateToken(before, token).value.1 >= 1
    ensures var session := CreateSession(minted, before, token, csrf, from);
            var (principal, revision) := AuthenticateToken(before, token).value;
            var resolved := ResolveActive(now, principal.id, revision);
            && session.Some? && session.value.principal == principal
            && Authenticate(later, now, Request(None, Some(session.value.cookie), given), at) ==
               if at / 1000 < from / 1000 + minted.ttl && resolved.Some?
               then Granted(BySession, given == Some(csrf), resolved.value)
               else Refused
  {
  }

  /**
    A session minted from a stored credential authenticates after any further run
    of the store exactly when it has not expired and that credential was neither
    rotated nor revoked since; it then stands for the principal it was minted for.
   */
  lemma SessionLivesExactly(minted: Auth, later: Auth, calls: seq<Call>, n: nat, token: Token, csrf: int, from: int,
                            at: int, given: Option<int>)
    requires n <= |calls| && later.secret == minted.secret && minted.secret.Some? && Configured(later)
    requires FindToken(minted.statics, token) == |minted.statics|
    requires CreateSession(minted, StoreRun(calls[..n]), token, csrf, from).Some?
    ensures var session := CreateSession(minted, StoreRun(calls[..n]), token, csrf, from).value;
            var r := Request(None, Some(session.cookie), given);
            Authenticate(later, StoreRun(calls), r, at) ==
            if at / 1000 < from / 1000 + minted.ttl && !Touched(calls, n, session.principal.id)
            then Granted(BySession, given == Some(csrf), session.principal)
            else Refused
  {
    var before, now := StoreRun(calls[..n]), StoreRun(calls);
    RevisionsPositive(calls[..n]);
    ResolvesUntouched(calls, n, token);
    SessionResolves(minted, later, before, now, token, csrf, from, at, given);
  }

  /** A configured credential with this id whose fingerprint is still the same. */
  predicate Stands(s: seq<Static>, id: int, fingerprint: nat) {
    exists i :: 0 <= i < |s| && s[i].principal.id == id && s[i].fingerprint == fingerprint
  }

  lemma {:induction false} StaticAtExact(s: seq<Static>, id: int, fingerprint: nat)
    ensures var r := StaticAt(s, id, Some(fingerprint));
            && (r.Some? <==> Stands(s, id, fingerprint))
            && (r.Some? ==> exists c :: c in s && c.principal == r.value && r.value.id == id
                                        && c.fingerprint == fingerprint)
  {
    if s != [] {
      StaticAtExact(s[1..], id, fingerprint);
      assert s == [s[0]] + s[1..];
      if Stands(s[1..], id, fingerprint) {
        var i :| 0 <= i < |s[1..]| && s[1..][i].principal.id == id && s[1..][i].fingerprint == fingerprint;
        assert s[i + 1] == s[1..][i];
      }
      if Stands(s, id, fingerprint) && !(s[0].principal.id == id && s[0].fingerprint == fingerprint) {
        var i :| 0 <= i < |s| && s[i].principal.id == id && s[i].fingerprint == fingerprint;
        assert s[1..][i - 1] == s[i];
      }
    }
  }

  /**
    A session minted for a configured credential is good, until it expires, exactly
    while a configured credential with its id has the same fingerprint.
   */
  lemma StaticSessionLives(minted: Auth, later: Auth, stored: seq<Credential>, now: seq<Credential>, c: Static,
                           csrf: int, from: int, at: int, given: Option<int>)
    requires later.secret == minted.secret && minted.secret.Some? && Configured(later) && c.fingerprint >= 1
    requires c in minted.statics && Distinct(StaticTokens(minted.statics))
    ensures var session := CreateSession(minted, stored, c.token, csrf, from);
            && session.Some? && session.value.principal == c.principal
            && (Authenticate(later, now, Request(None, Some(session.value.cookie), given), at).Granted? <==>
                  at / 1000 < from / 1000 + minted.ttl && Stands(later.statics, c.principal.id, c.fingerprint))
  {
    var i :| 0 <= i < |minted.statics| && minted.statics[i] == c;
    assert StaticTokens(minted.statics)[i] == c.token;
    assert FindToken(minted.statics, c.token) == i;
    StaticAtExact(later.statics, c.principal.id, c.fingerprint);
  }

  /** A session is nobody's once the secret changes. */
  lemma SecretBinds(minted: Auth, later: Auth, before: seq<Credential>, now: seq<Credential>, token: Token, csrf: int,
                    from: int, at: int)
    requires minted.secret != later.secret && Configured(later)
    requires CreateSession(minted, before, token, csrf, from).Some?
    ensures var session := CreateSession(minted, before, token, csrf, from).value;
            Authenticate(later, now, Request(None, Some(session.cookie), None), at) == Refused
  {
  }

  predicate StaticOwner(a: Auth) {
    exists i :: 0 <= i < |a.statics| && a.statics[i].principal.role.Owner? && All in a.statics[i].principal.scopes
  }

  /** The server revokes with the guard on exactly when no static credential is an installation owner. */
  predicate Guarded(a: Auth, calls: seq<Call>) {
    forall i :: 0 <= i < |calls| && calls[i].Revoke? ==> calls[i].preserve == !StaticOwner(a)
  }

  /** Revoked that way, an installation that has an owner always has one. */
  lemma InstallationOwned(a: Auth, calls: seq<Call>, n: nat)
    requires n <= |calls| && Guarded(a, calls)
    requires StaticOwner(a) || Owned(StoreRun(calls[..n]))
    ensures StaticOwner(a) || Owned(StoreRun(calls))
  {
    if !StaticOwner(a) {
      OwnerStays(calls, n);
    }
  }
}
