/** Persistent operator credentials: creating, rotating, revoking and resolving them. */
module Operators {
  import opened Wrappers
  import opened Lookup

  datatype Role = Owner | Admin | Viewer

  /** `All` is the scope written as an asterisk. */
  datatype Scope = All | Only(workspace: int)

  datatype Principal = Principal(id: int, role: Role, scopes: seq<Scope>)

  /** `prefixed`: the text starts with the prefix of generated tokens. */
  datatype Token = Token(prefixed: bool, length: nat, secret: int)

  datatype Credential = Credential(principal: Principal, active: bool, revision: nat, hash: Digest<Token>)

  /** A credential id as sent: None when, trimmed and in lower case, it is not a legal id. */
  type RawId = Option<int>

  function Ids(s: seq<Credential>): (keys: seq<int>)
    ensures |keys| == |s|
  {
    seq(|s|, i requires 0 <= i < |s| => s[i].principal.id)
  }

  function Find(s: seq<Credential>, id: int): (k: nat)
    ensures k <= |s|
    ensures k < |s| ==> s[k].principal.id == id
    ensures forall i :: 0 <= i < k ==> s[i].principal.id != id
  {
    assert forall i :: 0 <= i < |s| ==> Ids(s)[i] == s[i].principal.id;
    First(Ids(s), id)
  }

  predicate InstallationOwner(c: Credential) { c.active && c.principal.role.Owner? && All in c.principal.scopes }

  predicate AnotherOwner(s: seq<Credential>, id: int) {
    exists i :: 0 <= i < |s| && s[i].principal.id != id && InstallationOwner(s[i])
  }

  datatype Error =
    | InvalidId | InvalidName | InvalidScope | IdExists | NotFound | Revoked | AlreadyRevoked
    | RevisionConflict(current: nat)
    | LastOwner

  /** `named`: the cleaned name has 1 to 120 characters. A scope that is not legal is None. */
  datatype Draft = Draft(id: RawId, named: bool, role: Role, scopes: seq<Option<Scope>>)

  function Scopes(raw: seq<Option<Scope>>): seq<Scope>
    requires None !in raw
  {
    seq(|raw|, i requires 0 <= i < |raw| => if raw[i].Some? then raw[i].value else All)
  }

  lemma ScopesExact(raw: seq<Option<Scope>>)
    requires None !in raw
    ensures forall x :: x in Scopes(raw) <==> Some(x) in raw
  {
    forall x
      ensures x in Scopes(raw) <==> Some(x) in raw
    {
      if x in Scopes(raw) {
        var i :| 0 <= i < |raw| && Scopes(raw)[i] == x;
        assert raw[i] in raw;
      }
      if Some(x) in raw {
        var i :| 0 <= i < |raw| && raw[i] == Some(x);
        assert Scopes(raw)[i] == x;
      }
    }
  }

  lemma InIds(s: seq<Credential>, id: int)
    ensures id in Ids(s) <==> exists c :: c in s && c.principal.id == id
  {
    if c :| c in s && c.principal.id == id {
      var i :| 0 <= i < |s| && s[i] == c;
      assert Ids(s)[i] == id;
    }
    if id in Ids(s) {
      var i :| 0 <= i < |s| && Ids(s)[i] == id;
      assert s[i] in s;
    }
  }

  /** `token` is the one drawn for the call. */
  datatype Call =
    | Create(draft: Draft, token: Token)
    | Rotate(id: RawId, expected: nat, token: Token)
    | Revoke(id: RawId, expected: nat, preserve: bool)
  {
    function For(): RawId { if Create? then draft.id else this.id }
  }

  function CreateStep(s: seq<Credential>, d: Draft, token: Token): Result<seq<Credential>, Error> {
    if d.id.None? then Err(InvalidId)
    else if !d.named then Err(InvalidName)
    else if None in d.scopes || d.scopes == [] then Err(InvalidScope)
    else if d.id.value in Ids(s) then Err(IdExists)
    else Ok(s + [Credential(Principal(d.id.value, d.role, Dedupe(Scopes(d.scopes))), true, 1, Digest(token))])
  }

  function RotateStep(s: seq<Credential>, id: RawId, expected: nat, token: Token): Result<seq<Credential>, Error> {
    if id.None? then Err(InvalidId)
    else
      var k := Find(s, id.value);
      if k == |s| then Err(NotFound)
      else if !s[k].active then Err(Revoked)
      else if s[k].revision != expected then Err(RevisionConflict(s[k].revision))
      else Ok(s[k := s[k].(revision := s[k].revision + 1, hash := Digest(token))])
  }

  function RevokeStep(s: seq<Credential>, id: RawId, expected: nat, preserve: bool): Result<seq<Credential>, Error> {
    if id.None? then Err(InvalidId)
    else
      var k := Find(s, id.value);
      if k == |s| then Err(NotFound)
      else if !s[k].active then Err(AlreadyRevoked)
      else if s[k].revision != expected then Err(RevisionConflict(s[k].revision))
      else if preserve && InstallationOwner(s[k]) && !AnotherOwner(s, id.value) then Err(LastOwner)
      else Ok(s[k := s[k].(revision := s[k].revision + 1, active := false)])
  }

  function Step(s: seq<Credential>, call: Call): Result<seq<Credential>, Error> {
    match call
    case Create(d, token) => CreateStep(s, d, token)
    case Rotate(id, expected, token) => RotateStep(s, id, expected, token)
    case Revoke(id, expected, preserve) => RevokeStep(s, id, expected, preserve)
  }

  /** A refused call saves nothing. */
  function After(s: seq<Credential>, call: Call): seq<Credential> {
    var r := Step(s, call);
    if r.Ok? then r.value else s
  }

  predicate Done<T>(before: seq<Credential>, now: seq<Credential>, call: Call, r: Result<T, Error>) {
    match Step(before, call)
    case Ok(next) => r.Ok? && now == next
    case Err(e) => r == Err(e) && now == before
  }

  /** The first active credential whose hash is the token's. */
  function HolderOf(s: seq<Credential>, token: Token): (k: nat)
    ensures k <= |s|
    ensures k < |s| ==> s[k].active && s[k].hash == Digest(token)
    ensures forall i :: 0 <= i < k ==> !(s[i].active && s[i].hash == Digest(token))
  {
    if s == [] || (s[0].active && s[0].hash == Digest(token)) then 0
    else
      var k := HolderOf(s[1..], token);
      assert forall i :: 0 < i < k + 1 ==> s[i] == s[1..][i - 1];
      k + 1
  }

  function AuthenticateToken(s: seq<Credential>, token: Token): Option<(Principal, nat)> {
    if !token.prefixed || token.length < 40 then None
    else
      var k := HolderOf(s, token);
      if k < |s| then Some((s[k].principal, s[k].revision)) else None
  }

  /** The active credential with this id at this revision. */
  function ResolveAt(s: seq<Credential>, id: int, revision: nat): (k: nat)
    ensures k <= |s|
    ensures k < |s| ==> s[k].active && s[k].principal.id == id && s[k].revision == revision
    ensures forall i :: 0 <= i < k ==> !(s[i].active && s[i].principal.id == id && s[i].revision == revision)
  {
    if s == [] || (s[0].active && s[0].principal.id == id && s[0].revision == revision) then 0
    else
      var k := ResolveAt(s[1..], id, revision);
      assert forall i :: 0 < i < k + 1 ==> s[i] == s[1..][i - 1];
      k + 1
  }

  function ResolveActive(s: seq<Credential>, id: int, revision: nat): Option<Principal> {
    var k := ResolveAt(s, id, revision);
    if k < |s| then Some(s[k].principal) else None
  }

  /** An active owner for all workspaces, and the only one. */
  ghost predicate LastInstallationOwner(s: seq<Credential>, c: Credential) {
    && c.active && c.principal.role == Owner && All in c.principal.scopes
    && forall x :: x in s && x.principal.id != c.principal.id ==>
         !x.active || x.principal.role != Owner || All !in x.principal.scopes
  }

  lemma LastOwnerExact(s: seq<Credential>, c: Credential)
    ensures LastInstallationOwner(s, c) <==> InstallationOwner(c) && !AnotherOwner(s, c.principal.id)
  {
    if !AnotherOwner(s, c.principal.id) {
      forall x | x in s && x.principal.id != c.principal.id
        ensures !InstallationOwner(x)
      {
        var i :| 0 <= i < |s| && s[i] == x;
        assert !InstallationOwner(s[i]);
      }
    } else {
      var i :| 0 <= i < |s| && s[i].principal.id != c.principal.id && InstallationOwner(s[i]);
      assert s[i] in s;
    }
  }

  // ---------------------------------------------------------------- the store

  class OperatorStore {
    var credentials: seq<Credential>

    constructor ()
      ensures credentials == []
    {
      credentials := [];
    }

    method CreateCredential(d: Draft, token: Token) returns (r: Result<Credential, Error>)
      modifies this
      ensures Done(old(credentials), credentials, Create(d, token), r)
      ensures r.Ok? ==> credentials == old(credentials) + [r.value]
      ensures if d.id.None? then r == Err(InvalidId)
              else if !d.named then r == Err(InvalidName)
              else if None in d.scopes || d.scopes == [] then r == Err(InvalidScope)
              else if exists c :: c in old(credentials) && c.principal.id == d.id.value then r == Err(IdExists)
              else
                && r.Ok? && r.value.active && r.value.revision == 1 && r.value.hash == Digest(token)
                && r.value.principal.id == d.id.value && r.value.principal.role == d.role
                && Distinct(r.value.principal.scopes)
                && forall x :: x in r.value.principal.scopes <==> Some(x) in d.scopes
    {
      if d.id.None? { return Err(InvalidId); }
      if !d.named { return Err(InvalidName); }
      if None in d.scopes || d.scopes == [] { return Err(InvalidScope); }
      ScopesExact(d.scopes);
      InIds(credentials, d.id.value);
      if d.id.value in Ids(credentials) { return Err(IdExists); }
      var created := Credential(Principal(d.id.value, d.role, Dedupe(Scopes(d.scopes))), true, 1, Digest(token));
      credentials := credentials + [created];
      return Ok(created);
    }

    method RotateCredential(id: RawId, expected: nat, token: Token) returns (r: Result<Credential, Error>)
      modifies this
      ensures Done(old(credentials), credentials, Rotate(id, expected, token), r)
      ensures r.Ok? ==> r.value in credentials && Some(r.value.principal.id) == id
      ensures if id.None? then r == Err(InvalidId)
              else
                var k := Find(old(credentials), id.value);
                if k == |old(credentials)| then r == Err(NotFound)
                else if !old(credentials)[k].active then r == Err(Revoked)
                else if old(credentials)[k].revision != expected then
                  r == Err(RevisionConflict(old(credentials)[k].revision))
                else
                  && r == Ok(Credential(old(credentials)[k].principal, true, expected + 1, Digest(token)))
                  && credentials == old(credentials)[k := r.value]
    {
      if id.None? { return Err(InvalidId); }
      var k := Find(credentials, id.value);
      if k == |credentials| { return Err(NotFound); }
      var credential := credentials[k];
      if !credential.active { return Err(Revoked); }
      if credential.revision != expected { return Err(RevisionConflict(credential.revision)); }
      credential := credential.(revision := credential.revision + 1, hash := Digest(token));
      credentials := credentials[k := credential];
      assert credentials[k] == credential;
      return Ok(credential);
    }

    method RevokeCredential(id: RawId, expected: nat, preserve: bool) returns (r: Result<Credential, Error>)
      modifies this
      ensures Done(old(credentials), credentials, Revoke(id, expected, preserve), r)
      ensures r.Ok? ==> r.value in credentials && Some(r.value.principal.id) == id
      ensures if id.None? then r == Err(InvalidId)
              else
                var k := Find(old(credentials), id.value);
                if k == |old(credentials)| then r == Err(NotFound)
                else if !old(credentials)[k].active then r == Err(AlreadyRevoked)
                else if old(credentials)[k].revision != expected then
                  r == Err(RevisionConflict(old(credentials)[k].revision))
                else if preserve && LastInstallationOwner(old(credentials), old(credentials)[k]) then
                  r == Err(LastOwner)
                else
                  && r == Ok(Credential(old(credentials)[k].principal, false, expected + 1, old(credentials)[k].hash))
                  && credentials == old(credentials)[k := r.value]
    {
      if id.None? { return Err(InvalidId); }
      var k := Find(credentials, id.value);
      if k == |credentials| { return Err(NotFound); }
      var credential := credentials[k];
      if !credential.active { return Err(AlreadyRevoked); }
      if credential.revision != expected { return Err(RevisionConflict(credential.revision)); }
      LastOwnerExact(credentials, credential);
      if preserve && InstallationOwner(credential) && !AnotherOwner(credentials, id.value) { return Err(LastOwner); }
      credential := credential.(revision := credential.revision + 1, active := false);
      credentials := credentials[k := credential];
      assert credentials[k] == credential;
      return Ok(credential);
    }
  }

  // --------------------------------------------------------------------- runs

  function StoreRun(calls: seq<Call>): seq<Credential> {
    if calls == [] then [] else After(StoreRun(calls[..|calls| - 1]), calls[|calls| - 1])
  }

  /** The call rotates or revokes this credential. */
  predicate Touches(s: seq<Credential>, call: Call, id: int) {
    !call.Create? && call.id == Some(id) && Step(s, call).Ok?
  }

  predicate TouchedAt(calls: seq<Call>, i: nat, id: int)
    requires i < |calls|
  {
    Touches(StoreRun(calls[..i]), calls[i], id)
  }

  /** One of the calls from the n-th on rotates or revokes it. */
  ghost predicate Touched(calls: seq<Call>, n: nat, id: int) {
    exists i :: n <= i < |calls| && TouchedAt(calls, i, id)
  }

  lemma TouchedAtPrefix(calls: seq<Call>, m: nat, i: nat, id: int)
    requires i < m <= |calls|
    ensures TouchedAt(calls[..m], i, id) <==> TouchedAt(calls, i, id)
  {
    assert calls[..m][..i] == calls[..i];
  }

  lemma {:induction false} IdsStayDistinct(calls: seq<Call>)
    ensures Distinct(Ids(StoreRun(calls)))
  {
    if calls != [] {
      var before := calls[..|calls| - 1];
      IdsStayDistinct(before);
      var s, now := StoreRun(before), StoreRun(calls);
      if |now| == |s| {
        assert Ids(now) == Ids(s);
      } else {
        assert Ids(now) == Ids(s) + [now[|s|].principal.id];
      }
    }
  }

  /** Credentials stay at their place; only a rotation or revocation of its own changes one, and raises its revision. */
  lemma StepAt(s: seq<Credential>, call: Call, k: nat)
    requires Distinct(Ids(s)) && k < |s|
    ensures k < |After(s, call)| && After(s, call)[k].principal == s[k].principal
    ensures if Touches(s, call, s[k].principal.id) then After(s, call)[k].revision == s[k].revision + 1
            else After(s, call)[k] == s[k]
  {
    var id := s[k].principal.id;
    assert Ids(s)[k] == id;
    if !call.Create? && call.id == Some(id) {
      assert Find(s, id) == k;
    }
  }

  lemma TouchedBefore(calls: seq<Call>, m: nat, n: nat, id: int)
    requires m <= |calls| && Touched(calls[..m], n, id)
    ensures Touched(calls, n, id)
  {
    var i :| n <= i < m && TouchedAt(calls[..m], i, id);
    TouchedAtPrefix(calls, m, i, id);
  }

  lemma TouchedAgain(calls: seq<Call>, m: nat, n: nat, id: int)
    requires |calls| == m + 1 && Touched(calls, n, id) && !TouchedAt(calls, m, id)
    ensures Touched(calls[..m], n, id)
  {
    var i :| n <= i < |calls| && TouchedAt(calls, i, id);
    TouchedAtPrefix(calls, m, i, id);
  }

  lemma TouchedMore(calls: seq<Call>, n: nat, id: int)
    requires n < |calls|
    ensures var m := |calls| - 1;
            Touched(calls, n, id) <==> (Touched(calls[..m], n, id) || TouchedAt(calls, m, id))
  {
    var m := |calls| - 1;
    if Touched(calls[..m], n, id) {
      TouchedBefore(calls, m, n, id);
    } else if Touched(calls, n, id) && !TouchedAt(calls, m, id) {
      TouchedAgain(calls, m, n, id);
    }
  }

  lemma {:induction false} RunAt(calls: seq<Call>, n: nat, k: nat)
    requires n <= |calls| && k < |StoreRun(calls[..n])|
    ensures var then_, now := StoreRun(calls[..n]), StoreRun(calls);
            && k < |now| && now[k].principal == then_[k].principal
            && (if Touched(calls, n, then_[k].principal.id) then now[k].revision > then_[k].revision
                else now[k] == then_[k])
    decreases |calls|
  {
    if n == |calls| {
      assert calls[..n] == calls;
    } else {
      var m := |calls| - 1;
      var before := calls[..m];
      assert before[..n] == calls[..n];
      RunAt(before, n, k);
      IdsStayDistinct(before);
      StepAt(StoreRun(before), calls[m], k);
      TouchedMore(calls, n, StoreRun(before)[k].principal.id);
    }
  }

  lemma ResolvesOwn(s: seq<Credential>, k: nat, revision: nat)
    requires Distinct(Ids(s)) && k < |s|
    ensures ResolveActive(s, s[k].principal.id, revision) ==
            if s[k].active && s[k].revision == revision then Some(s[k].principal) else None
  {
    var r := ResolveAt(s, s[k].principal.id, revision);
    if r < |s| {
      assert Ids(s)[r] == Ids(s)[k];
    }
  }

  /** An id and revision resolve after a run exactly when the credential was not rotated or revoked since. */
  lemma ResolvesUntouched(calls: seq<Call>, n: nat, token: Token)
    requires n <= |calls| && AuthenticateToken(StoreRun(calls[..n]), token).Some?
    ensures var (principal, revision) := AuthenticateToken(StoreRun(calls[..n]), token).value;
            ResolveActive(StoreRun(calls), principal.id, revision) ==
            if Touched(calls, n, principal.id) then None else Some(principal)
  {
    var k := HolderOf(StoreRun(calls[..n]), token);
    RunAt(calls, n, k);
    IdsStayDistinct(calls);
    ResolvesOwn(StoreRun(calls), k, StoreRun(calls[..n])[k].revision);
  }

  // ------------------------------------------------------------------- tokens

  predicate Draws(call: Call, token: Token) { !call.Revoke? && call.token == token }

  predicate Drawn(calls: seq<Call>, n: nat, token: Token) { exists i :: n <= i < |calls| && Draws(calls[i], token) }

  /** Every token drawn is new. */
  predicate Fresh(calls: seq<Call>) {
    forall i, j :: 0 <= i < j < |calls| && !calls[j].Revoke? ==> !Draws(calls[i], calls[j].token)
  }

  ghost predicate TokensApart(calls: seq<Call>, s: seq<Credential>) {
    && (forall k :: 0 <= k < |s| ==> Drawn(calls, 0, s[k].hash.preimage))
    && (forall j, k :: 0 <= j < k < |s| ==> s[j].hash != s[k].hash)
  }

  lemma {:induction false} TokensStayApart(calls: seq<Call>)
    requires Fresh(calls)
    ensures TokensApart(calls, StoreRun(calls))
  {
    if calls != [] {
      var n := |calls| - 1;
      var before, call := calls[..n], calls[n];
      TokensStayApart(before);
      var s, now := StoreRun(before), StoreRun(calls);
      if !call.Revoke? {
        assert Drawn(calls, 0, call.token) by { assert Draws(calls[n], call.token); }
        assert !Drawn(before, 0, call.token);
      }
      forall k | 0 <= k < |s|
        ensures Drawn(calls, 0, s[k].hash.preimage)
      {
        var i :| 0 <= i < n && Draws(before[i], s[k].hash.preimage);
        assert Draws(calls[i], s[k].hash.preimage);
      }
    }
  }

  predicate HeldAt(s: seq<Credential>, j: nat, token: Token) { j < |s| && s[j].active && s[j].hash == Digest(token) }

  /** A token held now, and not drawn since, was held then by the same credential, untouched since. */
  lemma {:induction false} HeldBefore(calls: seq<Call>, n: nat, j: nat, token: Token)
    requires n <= |calls| && !Drawn(calls, n, token) && HeldAt(StoreRun(calls), j, token)
    ensures HeldAt(StoreRun(calls[..n]), j, token)
    ensures !Touched(calls, n, StoreRun(calls)[j].principal.id)
    decreases |calls|
  {
    if n == |calls| {
      assert calls[..n] == calls;
    } else {
      var m := |calls| - 1;
      var before := calls[..m];
      assert before[..n] == calls[..n];
      IdsStayDistinct(before);
      assert !Draws(calls[m], token);
      HeldOneBefore(StoreRun(before), calls[m], j, token);
      assert forall i :: n <= i < m ==> before[i] == calls[i];
      HeldBefore(before, n, j, token);
      TouchedMore(calls, n, StoreRun(before)[j].principal.id);
    }
  }

  lemma HeldOneBefore(s: seq<Credential>, call: Call, j: nat, token: Token)
    requires Distinct(Ids(s)) && !Draws(call, token) && HeldAt(After(s, call), j, token)
    ensures HeldAt(s, j, token) && After(s, call)[j].principal.id == s[j].principal.id
    ensures !Touches(s, call, s[j].principal.id)
  {
    if j < |s| {
      StepAt(s, call, j);
    }
  }

  /** A token authenticates after a run exactly when its credential was not rotated or revoked since. */
  lemma TokenLivesExactly(calls: seq<Call>, n: nat, token: Token)
    requires n <= |calls| && Fresh(calls)
    requires AuthenticateToken(StoreRun(calls[..n]), token).Some?
    ensures var (principal, revision) := AuthenticateToken(StoreRun(calls[..n]), token).value;
            AuthenticateToken(StoreRun(calls), token) ==
            if Touched(calls, n, principal.id) then None else Some((principal, revision))
  {
    var then_, now := StoreRun(calls[..n]), StoreRun(calls);
    var k := HolderOf(then_, token);
    RunAt(calls, n, k);
    TokensStayApart(calls[..n]);
    var i :| 0 <= i < n && Draws(calls[..n][i], then_[k].hash.preimage);
    assert Draws(calls[i], token);
    var j := HolderOf(now, token);
    if j < |now| {
      HeldBefore(calls, n, j, token);
      assert j == k;
    }
  }

  /** Creating or rotating leaves the credential active with the hash of the token drawn. */
  lemma DrawnIsHeld(s: seq<Credential>, call: Call)
    requires Distinct(Ids(s)) && !call.Revoke? && Step(s, call).Ok?
    ensures var now := After(s, call);
            var k := Find(now, call.For().value);
            && HeldAt(now, k, call.token)
            && (call.Create? ==> now[k].principal.role == call.draft.role && now[k].revision == 1)
            && (call.Rotate? ==> now[k].revision == call.expected + 1)
  {
    var now := After(s, call);
    if call.Create? {
      assert now[|s|].principal.id == call.draft.id.value && call.draft.id.value !in Ids(s);
      assert forall i :: 0 <= i < |s| ==> now[i].principal.id == Ids(s)[i];
    } else {
      assert forall i :: 0 <= i < |s| ==> now[i].principal.id == s[i].principal.id;
    }
  }

  lemma HolderIs(calls: seq<Call>, s: seq<Credential>, k: nat, token: Token)
    requires TokensApart(calls, s) && HeldAt(s, k, token)
    ensures HolderOf(s, token) == k
  {
    var j := HolderOf(s, token);
    assert j <= k;
  }

  /** A token of the length drawn for credentials, new to the run, opens what it was drawn for. */
  lemma DrawnAuthenticates(calls: seq<Call>, call: Call)
    requires Fresh(calls + [call]) && !call.Revoke? && call.token.prefixed && call.token.length >= 40
    requires Step(StoreRun(calls), call).Ok?
    ensures var s := StoreRun(calls + [call]);
            var k := Find(s, call.For().value);
            && k < |s| && AuthenticateToken(s, call.token) == Some((s[k].principal, s[k].revision))
            && (call.Create? ==> s[k].principal.role == call.draft.role && s[k].revision == 1)
            && (call.Rotate? ==> s[k].revision == call.expected + 1)
  {
    var all := calls + [call];
    assert all[..|calls|] == calls && all[|calls|] == call;
    IdsStayDistinct(calls);
    DrawnIsHeld(StoreRun(calls), call);
    TokensStayApart(all);
    HolderIs(all, StoreRun(all), Find(StoreRun(all), call.For().value), call.token);
  }

  // ------------------------------------------------------------------- owners

  ghost predicate Owned(s: seq<Credential>) { exists i :: 0 <= i < |s| && InstallationOwner(s[i]) }

  /** A revocation leaves no installation owner exactly when it does not preserve and takes the only one. */
  lemma RevocationGuardExact(s: seq<Credential>, id: RawId, expected: nat, preserve: bool)
    requires Distinct(Ids(s)) && Owned(s) && RevokeStep(s, id, expected, preserve).Ok?
    ensures !Owned(RevokeStep(s, id, expected, preserve).value) <==>
            !preserve && InstallationOwner(s[Find(s, id.value)]) && !AnotherOwner(s, id.value)
  {
    var k := Find(s, id.value);
    var now := RevokeStep(s, id, expected, preserve).value;
    var i :| 0 <= i < |s| && InstallationOwner(s[i]);
    if i != k {
      assert now[i] == s[i] && Ids(s)[i] != Ids(s)[k];
    }
    if AnotherOwner(s, id.value) {
      var j :| 0 <= j < |s| && s[j].principal.id != id.value && InstallationOwner(s[j]);
      assert now[j] == s[j];
    }
    assert forall j :: 0 <= j < |s| && j != k ==> now[j] == s[j] && Ids(s)[j] != Ids(s)[k];
  }

  lemma AfterKeepsOwned(s: seq<Credential>, call: Call)
    requires Distinct(Ids(s)) && Owned(s) && (call.Revoke? ==> call.preserve)
    ensures Owned(After(s, call))
  {
    if call.Revoke? && Step(s, call).Ok? {
      RevocationGuardExact(s, call.id, call.expected, true);
    } else {
      var i :| 0 <= i < |s| && InstallationOwner(s[i]);
      assert InstallationOwner(After(s, call)[i]);
    }
  }

  /** While every revocation preserves the installation owner, one that was there stays. */
  lemma {:induction false} OwnerStays(calls: seq<Call>, n: nat)
    requires n <= |calls| && Owned(StoreRun(calls[..n]))
    requires forall i :: n <= i < |calls| && calls[i].Revoke? ==> calls[i].preserve
    ensures Owned(StoreRun(calls))
  {
    if n == |calls| {
      assert calls[..n] == calls;
    } else {
      var before := calls[..|calls| - 1];
      assert before[..n] == calls[..n];
      OwnerStays(before, n);
      IdsStayDistinct(before);
      AfterKeepsOwned(StoreRun(before), calls[|calls| - 1]);
    }
  }
}
