/** Refresh-token rotation (packages/backend/src/auth/token.service.ts:113-199, auth.service.ts:
    178-262, 390-421). Each method is one atomic step. A stored hash is represented by the token it
    hashes; token ids and secrets are fresh. */
module RefreshTokens {
  import opened Common

  /** A presented token: the part before the first dot, if not empty, and the rest. */
  datatype Raw = Raw(id: Option<nat>, rest: nat)

  datatype Token = Token(userId: nat, hash: Raw, expiresAt: int, revoked: bool)

  /** Who a token was issued to, and the login it descends from. */
  datatype Issue = Issue(userId: nat, chain: nat)

  /** `issued` and `rotated` are the history: every token ever issued, every successful rotation. */
  datatype Store = Store(tokens: map<nat, Token>, issued: map<nat, Issue>, rotated: seq<nat>)

  const EMPTY_STORE := Store(map[], map[], [])

  // ---------------------------------------------------------------------- repository

  predicate Found(s: Store, raw: Raw, userId: nat) {
    raw.id.Some? && raw.id.value in s.tokens && s.tokens[raw.id.value].userId == userId
  }

  function RevokedOne(s: Store, id: nat, userId: nat): Store {
    if id in s.tokens && s.tokens[id].userId == userId
    then s.(tokens := s.tokens[id := s.tokens[id].(revoked := true)])
    else s
  }

  function RevokedAll(s: Store, userId: nat): Store {
    s.(tokens := map id | id in s.tokens ::
        if s.tokens[id].userId == userId then s.tokens[id].(revoked := true) else s.tokens[id])
  }

  function CleanedUp(s: Store, now: int): Store {
    s.(tokens := map id | id in s.tokens && !(s.tokens[id].revoked || s.tokens[id].expiresAt < now) :: s.tokens[id])
  }

  // ------------------------------------------------------------------------- service

  /** A freshly drawn token: its id, its secret, and when it expires. */
  datatype Draw = Draw(id: nat, rest: nat, expiresAt: int)

  function RawOf(d: Draw): Raw { Raw(Some(d.id), d.rest) }

  predicate Fresh(s: Store, d: Draw) { d.id !in s.issued && d.id !in s.tokens }

  function Generated(s: Store, userId: nat, chain: nat, d: Draw): Store {
    s.(tokens := s.tokens[d.id := Token(userId, RawOf(d), d.expiresAt, false)],
        issued := s.issued[d.id := Issue(userId, chain)])
  }

  /** A login starts a chain named after its first token. */
  function Login(s: Store, userId: nat, d: Draw): Store { Generated(s, userId, d.id, d) }

  predicate Rotatable(s: Store, raw: Raw, userId: nat, now: int) {
    Found(s, raw, userId) && s.tokens[raw.id.value].hash == raw && !s.tokens[raw.id.value].revoked
        && s.tokens[raw.id.value].expiresAt >= now
  }

  function ChainOf(s: Store, id: nat): nat { if id in s.issued then s.issued[id].chain else id }

  /** Revoke the old token, then issue its successor. */
  function Rotated(s: Store, id: nat, userId: nat, d: Draw): Store {
    Generated(RevokedOne(s, id, userId).(rotated := s.rotated + [id]), userId, ChainOf(s, id), d)
  }

  function Rotate(s: Store, raw: Raw, userId: nat, now: int, d: Draw): (Option<Raw>, Store) {
    if !Found(s, raw, userId) then (None, s)
    else
      var id := raw.id.value;
      if s.tokens[id].hash != raw || s.tokens[id].revoked then (None, RevokedAll(s, userId))
      else if s.tokens[id].expiresAt < now then (None, s)
      else (Some(RawOf(d)), Rotated(s, id, userId, d))
  }

  /** The user named by the expired access token, or else by the token record. */
  function ResolveUser(s: Store, raw: Raw, access: Option<nat>): Option<nat> {
    if access.Some? then access
    else if raw.id.Some? && raw.id.value in s.tokens then Some(s.tokens[raw.id.value].userId)
    else None
  }

  function Refresh(s: Store, raw: Raw, access: Option<nat>, active: bool, now: int, d: Draw): (Option<Raw>, Store) {
    var userId := ResolveUser(s, raw, access);
    if userId.None? then (None, s)
    else
      var r := Rotate(s, raw, userId.value, now, d);
      (if active then r.0 else None, r.1)
  }

  function Logout(s: Store, userId: nat, raw: Option<Raw>): Store {
    if raw.None? then RevokedAll(s, userId)
    else if raw.value.id.Some? then RevokedOne(s, raw.value.id.value, userId)
    else s
  }

  datatype Op =
    | DoLogin(userId: nat, draw: Draw)
    | DoRefresh(raw: Raw, access: Option<nat>, active: bool, now: int, draw: Draw)
    | DoLogout(userId: nat, presented: Option<Raw>)
    | DoChangePassword(userId: nat)
    | DoCleanup(now: int)

  predicate Legal(s: Store, op: Op) {
    match op
    case DoLogin(_, d) => Fresh(s, d)
    case DoRefresh(_, _, _, _, d) => Fresh(s, d)
    case _ => true
  }

  function Step(s: Store, op: Op): Store {
    match op
    case DoLogin(userId, d) => Login(s, userId, d)
    case DoRefresh(raw, access, active, now, d) => Refresh(s, raw, access, active, now, d).1
    case DoLogout(userId, raw) => Logout(s, userId, raw)
    case DoChangePassword(userId) => RevokedAll(s, userId)
    case DoCleanup(now) => CleanedUp(s, now)
  }

  predicate LegalRun(s: Store, ops: seq<Op>)
    decreases |ops|
  {
    ops == [] || (Legal(s, ops[0]) && LegalRun(Step(s, ops[0]), ops[1..]))
  }

  function Run(s: Store, ops: seq<Op>): Store
    decreases |ops|
  {
    if ops == [] then s else Run(Step(s, ops[0]), ops[1..])
  }

  // ----------------------------------------------------------------------- invariant

  /** A stored token is on record with its user and id; of two tokens of one chain at most one is
      not revoked; a token that was rotated is gone or revoked. */
  ghost predicate Inv(s: Store) {
    && (forall id <- s.tokens ::
         id in s.issued && s.issued[id].userId == s.tokens[id].userId
         && s.tokens[id].hash.id == Some(id))
    && (forall id <- s.issued :: s.issued[id].chain in s.issued)
    && (forall a <- s.tokens, b <- s.tokens | a != b && s.issued[a].chain == s.issued[b].chain ::
          s.tokens[a].revoked || s.tokens[b].revoked)
    && (forall id <- s.rotated :: id in s.issued && (id in s.tokens ==> s.tokens[id].revoked))
    && NoDuplicates(s.rotated)
  }

  /** Only by revoking and deleting tokens does `t` differ from `s`. */
  ghost predicate Dims(s: Store, t: Store) {
    && t.issued == s.issued && t.rotated == s.rotated
    && (forall id <- t.tokens :: id in s.tokens && t.tokens[id] == s.tokens[id].(revoked := t.tokens[id].revoked))
    && (forall id <- t.tokens | s.tokens[id].revoked :: t.tokens[id].revoked)
  }

  lemma RevokingDims(s: Store, userId: nat, id: nat, now: int)
    ensures Dims(s, RevokedAll(s, userId)) && Dims(s, RevokedOne(s, id, userId)) && Dims(s, CleanedUp(s, now))
  {
  }

  lemma DimsKeeps(s: Store, t: Store)
    requires Inv(s) && Dims(s, t)
    ensures Inv(t)
  {
  }

  ghost predicate ChainRevoked(s: Store, chain: nat) {
    forall id <- s.tokens | id in s.issued && s.issued[id].chain == chain :: s.tokens[id].revoked
  }

  lemma GeneratedKeeps(s: Store, userId: nat, chain: nat, d: Draw)
    requires Inv(s) && Fresh(s, d) && (chain == d.id || chain in s.issued) && ChainRevoked(s, chain)
    ensures Inv(Generated(s, userId, chain, d))
  {
    GeneratedChains(s, userId, chain, d);
  }

  lemma GeneratedChains(s: Store, userId: nat, chain: nat, d: Draw)
    requires Inv(s) && Fresh(s, d) && ChainRevoked(s, chain)
    ensures var t := Generated(s, userId, chain, d);
            forall a <- t.tokens, b <- t.tokens | a != b && t.issued[a].chain == t.issued[b].chain ::
              t.tokens[a].revoked || t.tokens[b].revoked
  {
    var t := Generated(s, userId, chain, d);
    forall a <- t.tokens, b <- t.tokens | a != b && t.issued[a].chain == t.issued[b].chain
      ensures t.tokens[a].revoked || t.tokens[b].revoked
    {
      assert a != d.id ==> a in s.tokens && a in s.issued;
      assert b != d.id ==> b in s.tokens && b in s.issued;
    }
  }

  lemma MarkedKeeps(s: Store, id: nat)
    requires Inv(s) && id in s.tokens && s.tokens[id].revoked && id !in s.rotated
    ensures Inv(s.(rotated := s.rotated + [id]))
  {
  }

  lemma LoginKeeps(s: Store, userId: nat, d: Draw)
    requires Inv(s) && Fresh(s, d)
    ensures Inv(Login(s, userId, d))
  {
    GeneratedKeeps(s, userId, d.id, d);
  }

  lemma RotationKeeps(s: Store, id: nat, userId: nat, d: Draw)
    requires Inv(s) && Fresh(s, d) && id in s.tokens && s.tokens[id].userId == userId && !s.tokens[id].revoked
    ensures Inv(Rotated(s, id, userId, d))
  {
    var r := RevokedOne(s, id, userId);
    RevokingDims(s, userId, id, 0);
    DimsKeeps(s, r);
    RevokedEndsChain(s, id, userId);
    MarkedKeeps(r, id);
    GeneratedKeeps(r.(rotated := s.rotated + [id]), userId, s.issued[id].chain, d);
  }

  /** A rotation does one of three things. */
  lemma RotateCases(s: Store, raw: Raw, userId: nat, now: int, d: Draw)
    ensures var t := Rotate(s, raw, userId, now, d).1;
            if Rotatable(s, raw, userId, now) then t == Rotated(s, raw.id.value, userId, d)
            else t == s || t == RevokedAll(s, userId)
  {
  }

  lemma RevokedEndsChain(s: Store, id: nat, userId: nat)
    requires Inv(s) && id in s.tokens && s.tokens[id].userId == userId && !s.tokens[id].revoked
    ensures ChainRevoked(RevokedOne(s, id, userId), s.issued[id].chain)
  {
  }

  lemma RotateKeeps(s: Store, raw: Raw, userId: nat, now: int, d: Draw)
    requires Inv(s) && Fresh(s, d)
    ensures Inv(Rotate(s, raw, userId, now, d).1)
  {
    RotateCases(s, raw, userId, now, d);
    if Rotatable(s, raw, userId, now) {
      RotationKeeps(s, raw.id.value, userId, d);
    } else {
      RevokingDims(s, userId, 0, now);
      DimsKeeps(s, RevokedAll(s, userId));
    }
  }

  lemma RefreshKeeps(s: Store, raw: Raw, access: Option<nat>, active: bool, now: int, d: Draw)
    requires Inv(s) && Fresh(s, d)
    ensures Inv(Refresh(s, raw, access, active, now, d).1)
  {
    var userId := ResolveUser(s, raw, access);
    if userId.Some? { RotateKeeps(s, raw, userId.value, now, d); }
  }

  lemma SilentKeeps(s: Store, op: Op)
    requires Inv(s) && !op.DoLogin? && !op.DoRefresh?
    ensures Dims(s, Step(s, op)) && Inv(Step(s, op))
  {
    match op
    case DoLogout(userId, raw) =>
      RevokingDims(s, userId, if raw.Some? && raw.value.id.Some? then raw.value.id.value else 0, 0);
    case DoChangePassword(userId) => RevokingDims(s, userId, 0, 0);
    case DoCleanup(now) => RevokingDims(s, 0, 0, now);
    case _ =>
    DimsKeeps(s, Step(s, op));
  }

  lemma StepKeeps(s: Store, op: Op)
    requires Inv(s) && Legal(s, op)
    ensures Inv(Step(s, op))
  {
    match op
    case DoLogin(userId, d) => LoginKeeps(s, userId, d);
    case DoRefresh(raw, access, active, now, d) => RefreshKeeps(s, raw, access, active, now, d);
    case _ => SilentKeeps(s, op);
  }

  lemma {:induction false} RunKeeps(s: Store, ops: seq<Op>)
    requires Inv(s) && LegalRun(s, ops)
    ensures Inv(Run(s, ops))
    decreases |ops|
  {
    if ops != [] {
      StepKeeps(s, ops[0]);
      RunKeeps(Step(s, ops[0]), ops[1..]);
    }
  }

  // ------------------------------------------------------------------------ main results

  /** Over any run, every token rotates successfully at most once, and a login chain never holds two
      tokens that are not revoked. */
  lemma SingleUse(ops: seq<Op>)
    requires LegalRun(EMPTY_STORE, ops)
    ensures var s := Run(EMPTY_STORE, ops);
            && NoDuplicates(s.rotated)
            && (forall a <- s.tokens, b <- s.tokens | a in s.issued && b in s.issued
                && s.issued[a].chain == s.issued[b].chain
                  && !s.tokens[a].revoked && !s.tokens[b].revoked :: a == b)
  {
    RunKeeps(EMPTY_STORE, ops);
  }

  /** A token once rotated is refused for ever after, whatever happened in between. */
  lemma RotatedIsRefused(ops: seq<Op>, raw: Raw, userId: nat, now: int, d: Draw)
    requires LegalRun(EMPTY_STORE, ops) && raw.id.Some? && raw.id.value in Run(EMPTY_STORE, ops).rotated
    ensures Rotate(Run(EMPTY_STORE, ops), raw, userId, now, d).0 == None
  {
    RunKeeps(EMPTY_STORE, ops);
  }

  /** A rotation succeeds exactly for the stored, unrevoked, unexpired token of that user; it then
      replaces the token by one of the same user and chain. */
  lemma RotatesExactly(s: Store, raw: Raw, userId: nat, now: int, d: Draw)
    requires Inv(s) && Fresh(s, d)
    ensures var r := Rotate(s, raw, userId, now, d);
            && (r.0.Some? <==> Rotatable(s, raw, userId, now))
            && (r.0.Some? ==>
                  && r.1.tokens == s.tokens[raw.id.value := s.tokens[raw.id.value].(revoked := true)]
                                           [d.id := Token(userId, RawOf(d), d.expiresAt, false)]
                  && r.1.issued[d.id] == s.issued[raw.id.value])
  {
  }

  ghost predicate AllRevoked(s: Store, userId: nat) {
    forall id <- s.tokens | s.tokens[id].userId == userId :: s.tokens[id].revoked
  }

  /** Presenting a token that has been rotated revokes everything its user holds, exactly when its
      record has not been cleaned up yet or there was nothing left to revoke. */
  lemma ReuseRevokesExactly(s: Store, raw: Raw, now: int, d: Draw)
    requires Inv(s) && Fresh(s, d) && raw.id.Some? && raw.id.value in s.rotated
    ensures var userId := s.issued[raw.id.value].userId;
            AllRevoked(Rotate(s, raw, userId, now, d).1, userId) <==> raw.id.value in s.tokens || AllRevoked(s, userId)
  {
  }

  lemma RunCons(s: Store, op: Op, ops: seq<Op>)
    requires Legal(s, op) && LegalRun(Step(s, op), ops)
    ensures LegalRun(s, [op] + ops) && Run(s, [op] + ops) == Run(Step(s, op), ops)
  {
    assert ([op] + ops)[1..] == ops;
  }

  /** Two logins; the first token rotates; cleanup deletes its record. Presenting that token again
      is refused, but revokes nothing: the second login's token stays usable. */
  lemma ReuseAfterCleanup(userId: nat, now: int, d0: Draw, d1: Draw, d2: Draw, d3: Draw)
    requires d0.id != d1.id && d2.id !in {d0.id, d1.id} && d3.id !in {d0.id, d1.id, d2.id}
    requires d0.expiresAt >= now && d1.expiresAt >= now
    ensures var ops := [DoLogin(userId, d0)]
        + ([DoLogin(userId, d1)] + ([DoRefresh(RawOf(d0), None, true, now, d2)] + ([DoCleanup(now)] + [])));
            var s := Run(EMPTY_STORE, ops); var r := Rotate(s, RawOf(d0), userId, now, d3);
            && LegalRun(EMPTY_STORE, ops) && Fresh(s, d3) && d0.id in s.rotated && d0.id !in s.tokens
            && r.0 == None && Rotatable(r.1, RawOf(d1), userId, now) && !AllRevoked(r.1, userId)
  {
    var a := Step(EMPTY_STORE, DoLogin(userId, d0));
    var b := Step(a, DoLogin(userId, d1));
    var refresh := DoRefresh(RawOf(d0), None, true, now, d2);
    var c := Step(b, refresh);
    assert Rotatable(b, RawOf(d0), userId, now) && c == Rotated(b, d0.id, userId, d2);
    var e := Step(c, DoCleanup(now));
    assert d0.id in e.rotated by { assert e.rotated == [d0.id]; }
    assert d1.id in e.tokens && !e.tokens[d1.id].revoked;
    RunCons(c, DoCleanup(now), []);
    RunCons(b, refresh, [DoCleanup(now)] + []);
    RunCons(a, DoLogin(userId, d1), [refresh] + ([DoCleanup(now)] + []));
    RunCons(EMPTY_STORE, DoLogin(userId, d0), [DoLogin(userId, d1)] + ([refresh] + ([DoCleanup(now)] + [])));
  }

  /** A stored revoked token, or a stored token with the wrong secret, is refused by a refresh that
      resolves to its user, and everything that user holds is revoked. */
  lemma TheftRevokesAll(s: Store, raw: Raw, access: Option<nat>, active: bool, now: int, d: Draw)
    requires raw.id.Some? && raw.id.value in s.tokens
    requires s.tokens[raw.id.value].revoked || s.tokens[raw.id.value].hash != raw
    requires access.None? || access.value == s.tokens[raw.id.value].userId
    ensures var r := Refresh(s, raw, access, active, now, d);
            r.0 == None && AllRevoked(r.1, s.tokens[raw.id.value].userId)
  {
  }

  /** The user an operation acts for; cleanup acts for nobody. */
  function ActsFor(s: Store, op: Op): Option<nat> {
    match op
    case DoLogin(userId, _) => Some(userId)
    case DoRefresh(raw, access, _, _, _) => ResolveUser(s, raw, access)
    case DoLogout(userId, _) => Some(userId)
    case DoChangePassword(userId) => Some(userId)
    case DoCleanup(_) => None
  }

  /** What is stored for a user is the same in both. */
  ghost predicate SameFor(s: Store, t: Store, userId: nat) {
    && (forall id | id in s.tokens && s.tokens[id].userId == userId :: id in t.tokens && t.tokens[id] == s.tokens[id])
    && (forall id | id in t.tokens && t.tokens[id].userId == userId :: id in s.tokens && t.tokens[id] == s.tokens[id])
  }

  lemma OthersUntouched(s: Store, userId: nat, id: nat, chain: nat, d: Draw, other: nat)
    requires userId != other && d.id !in s.tokens
    ensures SameFor(s, RevokedAll(s, userId), other) && SameFor(s, RevokedOne(s, id, userId), other)
    ensures SameFor(s, Generated(s, userId, chain, d), other)
  {
  }

  lemma SameForTransitive(s: Store, t: Store, u: Store, userId: nat)
    requires SameFor(s, t, userId) && SameFor(t, u, userId)
    ensures SameFor(s, u, userId)
  {
  }

  lemma RotateIsolated(s: Store, raw: Raw, userId: nat, now: int, d: Draw, other: nat)
    requires userId != other && Fresh(s, d)
    ensures SameFor(s, Rotate(s, raw, userId, now, d).1, other)
  {
    RotateCases(s, raw, userId, now, d);
    var id := if raw.id.Some? then raw.id.value else 0;
    OthersUntouched(s, userId, id, 0, d, other);
    var r := RevokedOne(s, id, userId).(rotated := s.rotated + [id]);
    assert SameFor(s, r, other);
    OthersUntouched(r, userId, id, ChainOf(s, id), d, other);
    SameForTransitive(s, r, Generated(r, userId, ChainOf(s, id), d), other);
  }

  /** No operation for one user changes another user's tokens. */
  lemma UsersAreIsolated(s: Store, op: Op, other: nat)
    requires Legal(s, op) && ActsFor(s, op) != Some(other) && !op.DoCleanup?
    ensures SameFor(s, Step(s, op), other)
  {
    match op
    case DoLogin(userId, d) => OthersUntouched(s, userId, 0, d.id, d, other);
    case DoRefresh(raw, access, _, now, d) =>
      var userId := ResolveUser(s, raw, access);
      if userId.Some? { RotateIsolated(s, raw, userId.value, now, d, other); }
    case DoLogout(userId, raw) => LogoutIsolated(s, userId, raw, other);
    case DoChangePassword(userId) => LogoutIsolated(s, userId, None, other);
  }

  lemma LogoutIsolated(s: Store, userId: nat, raw: Option<Raw>, other: nat)
    requires userId != other
    ensures SameFor(s, Logout(s, userId, raw), other)
  {
  }

  /** Cleanup keeps exactly the tokens that could still be used. */
  lemma CleanupDropsDead(s: Store, now: int)
    ensures forall id ::
             id in CleanedUp(s, now).tokens
             <==> id in s.tokens && !s.tokens[id].revoked && s.tokens[id].expiresAt >= now
    ensures forall raw, userId :: Rotatable(CleanedUp(s, now), raw, userId, now) <==> Rotatable(s, raw, userId, now)
  {
  }

  /** Another user's token is not even looked at. */
  lemma ForeignTokenIgnored(s: Store, raw: Raw, userId: nat, active: bool, now: int, d: Draw)
    requires raw.id.Some? ==> raw.id.value !in s.tokens || s.tokens[raw.id.value].userId != userId
    ensures Refresh(s, raw, Some(userId), active, now, d) == (None, s)
  {
  }

  /** Right after a logout a token of the user can be rotated if and only if it could before and the
      logout named another one. */
  lemma LogoutEnds(s: Store, userId: nat, presented: Option<Raw>, raw: Raw, now: int)
    requires Inv(s)
    ensures Rotatable(Logout(s, userId, presented), raw, userId, now)
       <==> Rotatable(s, raw, userId, now) && presented.Some? && presented.value.id != raw.id
  {
  }

  /** A token on record that is revoked or deleted. */
  ghost predicate Spent(s: Store, id: nat) { id in s.issued && (id in s.tokens ==> s.tokens[id].revoked) }

  lemma SpentByRotation(s: Store, raw: Raw, userId: nat, now: int, d: Draw, id: nat)
    requires Fresh(s, d) && Spent(s, id)
    ensures Spent(Rotate(s, raw, userId, now, d).1, id)
  {
    RotateCases(s, raw, userId, now, d);
  }

  lemma SpentStays(s: Store, op: Op, id: nat)
    requires Inv(s) && Legal(s, op) && Spent(s, id)
    ensures Spent(Step(s, op), id)
  {
    match op
    case DoRefresh(raw, access, _, now, d) =>
      var userId := ResolveUser(s, raw, access);
      if userId.Some? { SpentByRotation(s, raw, userId.value, now, d, id); }
    case DoLogin(_, _) =>
    case _ => SilentKeeps(s, op);
  }

  lemma {:induction false} SpentForEver(s: Store, ops: seq<Op>, id: nat)
    requires Inv(s) && LegalRun(s, ops) && Spent(s, id)
    ensures Spent(Run(s, ops), id)
    decreases |ops|
  {
    if ops != [] {
      StepKeeps(s, ops[0]);
      SpentStays(s, ops[0], id);
      SpentForEver(Step(s, ops[0]), ops[1..], id);
    }
  }

  /** A token that a logout names, or without a name every token issued to the user so far, never
      rotates again, whatever operations follow and whoever presents it. */
  lemma LogoutEndsForEver(s: Store, userId: nat, presented: Option<Raw>, ops: seq<Op>, raw: Raw, caller: nat,
      now: int, d: Draw)
    requires Inv(s) && LegalRun(Logout(s, userId, presented), ops)
    requires raw.id.Some? && raw.id.value in s.issued && s.issued[raw.id.value].userId == userId
    requires presented.Some? ==> presented.value.id == raw.id
    ensures var t := Run(Logout(s, userId, presented), ops);
            !Rotatable(t, raw, caller, now)
            && Rotate(t, raw, caller, now, d).0 == None
  {
    SilentKeeps(s, DoLogout(userId, presented));
    SpentForEver(Logout(s, userId, presented), ops, raw.id.value);
  }

  // ------------------------------------------------------------------------ dead chains

  /** No stored token of the chain can be rotated any more. */
  ghost predicate Dead(s: Store, chain: nat) { chain in s.issued && ChainRevoked(s, chain) }

  /** How many rotations the chain has seen. */
  function RotationsOf(s: Store, chain: nat, upto: nat): nat
    requires upto <= |s.rotated|
  {
    if upto == 0 then 0 else RotationsOf(s, chain, upto - 1) + if ChainOf(s, s.rotated[upto - 1]) == chain then 1 else 0
  }

  lemma {:induction false} SameRotations(s: Store, t: Store, chain: nat, upto: nat)
    requires upto <= |s.rotated| <= |t.rotated| && t.rotated[..|s.rotated|] == s.rotated
    requires forall id <- s.rotated :: id in s.issued && id in t.issued && t.issued[id] == s.issued[id]
    ensures RotationsOf(s, chain, upto) == RotationsOf(t, chain, upto)
  {
    if upto > 0 {
      SameRotations(s, t, chain, upto - 1);
      assert t.rotated[..|s.rotated|][upto - 1] == t.rotated[upto - 1];
    }
  }

  /** History only grows, and not by a rotation of the chain. */
  ghost predicate Extends(s: Store, t: Store, chain: nat) {
    && (forall id <- s.issued :: id in t.issued && t.issued[id] == s.issued[id])
    && (t.rotated == s.rotated || exists id :: t.rotated == s.rotated + [id] && ChainOf(t, id) != chain)
  }

  lemma DimsDead(s: Store, t: Store, chain: nat)
    requires Dead(s, chain) && Dims(s, t)
    ensures Dead(t, chain) && Extends(s, t, chain)
  {
  }

  lemma GeneratedDead(s: Store, userId: nat, other: nat, d: Draw, chain: nat)
    requires Dead(s, chain) && Fresh(s, d) && other != chain
    ensures Dead(Generated(s, userId, other, d), chain) && Extends(s, Generated(s, userId, other, d), chain)
  {
  }

  lemma RotatedDead(s: Store, id: nat, userId: nat, d: Draw, chain: nat)
    requires Inv(s) && Fresh(s, d) && Dead(s, chain) && id in s.tokens && !s.tokens[id].revoked
    ensures Dead(Rotated(s, id, userId, d), chain) && Extends(s, Rotated(s, id, userId, d), chain)
  {
    assert s.issued[id].chain != chain;
    var r := RevokedOne(s, id, userId);
    RevokingDims(s, userId, id, 0);
    DimsDead(s, r, chain);
    var m := r.(rotated := s.rotated + [id]);
    assert Dead(m, chain);
    GeneratedDead(m, userId, ChainOf(s, id), d, chain);
    var t := Rotated(s, id, userId, d);
    assert t.rotated == s.rotated + [id] && ChainOf(t, id) != chain;
  }

  lemma RotateDead(s: Store, raw: Raw, userId: nat, now: int, d: Draw, chain: nat)
    requires Inv(s) && Fresh(s, d) && Dead(s, chain)
    ensures Dead(Rotate(s, raw, userId, now, d).1, chain) && Extends(s, Rotate(s, raw, userId, now, d).1, chain)
  {
    RotateCases(s, raw, userId, now, d);
    if Rotatable(s, raw, userId, now) {
      RotatedDead(s, raw.id.value, userId, d, chain);
    } else {
      RevokingDims(s, userId, 0, now);
      DimsDead(s, RevokedAll(s, userId), chain);
    }
  }

  lemma RefreshDead(s: Store, raw: Raw, access: Option<nat>, active: bool, now: int, d: Draw, chain: nat)
    requires Inv(s) && Fresh(s, d) && Dead(s, chain)
    ensures var t := Refresh(s, raw, access, active, now, d).1; Dead(t, chain) && Extends(s, t, chain)
  {
    var userId := ResolveUser(s, raw, access);
    if userId.Some? { RotateDead(s, raw, userId.value, now, d, chain); }
  }

  lemma SilentDead(s: Store, op: Op, chain: nat)
    requires Inv(s) && Dead(s, chain) && !op.DoLogin? && !op.DoRefresh?
    ensures Dead(Step(s, op), chain) && Extends(s, Step(s, op), chain)
  {
    SilentKeeps(s, op);
    DimsDead(s, Step(s, op), chain);
  }

  lemma DeadStays(s: Store, op: Op, chain: nat)
    requires Inv(s) && Legal(s, op) && Dead(s, chain)
    ensures Dead(Step(s, op), chain) && Extends(s, Step(s, op), chain)
  {
    match op
    case DoLogin(userId, d) => GeneratedDead(s, userId, d.id, d, chain);
    case DoRefresh(raw, access, active, now, d) => RefreshDead(s, raw, access, active, now, d, chain);
    case _ => SilentDead(s, op, chain);
  }

  lemma ExtendsRotations(s: Store, t: Store, chain: nat)
    requires Inv(s) && Extends(s, t, chain)
    ensures RotationsOf(t, chain, |t.rotated|) == RotationsOf(s, chain, |s.rotated|)
  {
    assert t.rotated[..|s.rotated|] == s.rotated;
    SameRotations(s, t, chain, |s.rotated|);
  }

  /** Once every token of a chain is revoked - after a logout, a password change or a detected reuse
      - no later operation rotates a token of that chain. */
  lemma {:induction false} DeadForEver(s: Store, ops: seq<Op>, chain: nat)
    requires Inv(s) && LegalRun(s, ops) && Dead(s, chain)
    ensures var t := Run(s, ops);
            Dead(t, chain) && RotationsOf(t, chain, |t.rotated|) == RotationsOf(s, chain, |s.rotated|)
    decreases |ops|
  {
    if ops != [] {
      var t := Step(s, ops[0]);
      StepKeeps(s, ops[0]);
      DeadStays(s, ops[0], chain);
      ExtendsRotations(s, t, chain);
      DeadForEver(t, ops[1..], chain);
    }
  }

  /** A detected reuse ends every chain of its user. */
  lemma ReuseEndsChains(s: Store, raw: Raw, access: Option<nat>, active: bool, now: int, d: Draw, ops: seq<Op>,
      chain: nat)
    requires Inv(s) && Fresh(s, d) && raw.id.Some? && raw.id.value in s.tokens && s.tokens[raw.id.value].revoked
    requires access.None? || access.value == s.tokens[raw.id.value].userId
    requires chain in s.issued && forall id <- s.issued | s.issued[id].chain == chain ::
        s.issued[id].userId == s.tokens[raw.id.value].userId
    requires LegalRun(Refresh(s, raw, access, active, now, d).1, ops)
    ensures var t := Refresh(s, raw, access, active, now, d).1;
            RotationsOf(Run(t, ops), chain, |Run(t, ops).rotated|) == RotationsOf(t, chain, |t.rotated|)
  {
    var t := Refresh(s, raw, access, active, now, d).1;
    TheftRevokesAll(s, raw, access, active, now, d);
    RefreshKeeps(s, raw, access, active, now, d);
    assert Dead(t, chain);
    DeadForEver(t, ops, chain);
  }

  // ------------------------------------------------------------------------ the services

  /** The token table and the methods of `TokenService` and `AuthService` that write it. */
  class TokenService {
    var tokens: map<nat, Token>
    ghost var issued: map<nat, Issue>
    ghost var rotated: seq<nat>

    ghost function State(): Store
      reads this
    {
      Store(tokens, issued, rotated)
    }

    constructor ()
      ensures State() == EMPTY_STORE
    {
      tokens, issued, rotated := map[], map[], [];
    }

    method FindRefreshToken(tokenId: nat, userId: nat) returns (record: Option<Token>)
      ensures record.Some? <==> tokenId in tokens && tokens[tokenId].userId == userId
      ensures record.Some? ==> record.value == tokens[tokenId]
    {
      record := if tokenId in tokens && tokens[tokenId].userId == userId then Some(tokens[tokenId]) else None;
    }

    method RevokeRefreshToken(tokenId: nat, userId: nat)
      modifies this`tokens
      ensures State() == RevokedOne(old(State()), tokenId, userId)
    {
      if tokenId in tokens && tokens[tokenId].userId == userId {
        tokens := tokens[tokenId := tokens[tokenId].(revoked := true)];
      }
    }

    method RevokeAllRefreshTokens(userId: nat)
      modifies this`tokens
      ensures State() == RevokedAll(old(State()), userId)
    {
      tokens := map id | id in tokens ::
          if tokens[id].userId == userId then tokens[id].(revoked := true) else tokens[id];
    }

    method GenerateRefreshToken(userId: nat, d: Draw, ghost chain: nat) returns (raw: Raw)
      modifies this`tokens, this`issued
      ensures raw == RawOf(d) && State() == Generated(old(State()), userId, chain, d)
    {
      raw := Raw(Some(d.id), d.rest);
      tokens := tokens[d.id := Token(userId, raw, d.expiresAt, false)];
      issued := issued[d.id := Issue(userId, chain)];
    }

    method RotateRefreshTokenForUser(raw: Raw, userId: nat, now: int, d: Draw) returns (r: Option<Raw>)
      modifies this
      ensures (r, State()) == Rotate(old(State()), raw, userId, now, d)
    {
      if raw.id.None? { return None; }
      var tokenId := raw.id.value;
      var record := FindRefreshToken(tokenId, userId);
      if record.None? { return None; }
      if record.value.hash != raw {
        RevokeAllRefreshTokens(userId);
        return None;
      }
      if record.value.revoked {
        RevokeAllRefreshTokens(userId);
        return None;
      }
      if record.value.expiresAt < now { return None; }
      RevokeRefreshToken(tokenId, userId);
      ghost var chain := ChainOf(old(State()), tokenId);
      rotated := rotated + [tokenId];
      var next := GenerateRefreshToken(userId, d, chain);
      return Some(next);
    }

    method CleanupExpiredTokens(now: int)
      modifies this`tokens
      ensures State() == CleanedUp(old(State()), now)
    {
      tokens := map id | id in tokens && !(tokens[id].revoked || tokens[id].expiresAt < now) :: tokens[id];
    }

    method RefreshTokens(raw: Raw, expiredAccessToken: Option<nat>, active: bool, now: int, d: Draw)
        returns (r: Option<Raw>)
      modifies this
      ensures (r, State()) == Refresh(old(State()), raw, expiredAccessToken, active, now, d)
    {
      var userId := expiredAccessToken;
      if userId.None? && raw.id.Some? && raw.id.value in tokens { userId := Some(tokens[raw.id.value].userId); }
      if userId.None? { return None; }
      r := RotateRefreshTokenForUser(raw, userId.value, now, d);
      if r.None? || !active { return None; }
    }

    method LogOut(userId: nat, refreshToken: Option<Raw>)
      modifies this`tokens
      ensures State() == Logout(old(State()), userId, refreshToken)
    {
      if refreshToken.None? {
        RevokeAllRefreshTokens(userId);
        return;
      }
      if refreshToken.value.id.Some? { RevokeRefreshToken(refreshToken.value.id.value, userId); }
    }

    /** The password check is passed in; a wrong current password changes nothing. */
    method ChangePassword(userId: nat, currentIsValid: bool) returns (done: bool)
      modifies this`tokens
      ensures done == currentIsValid
      ensures State() == if done then Step(old(State()), DoChangePassword(userId)) else old(State())
    {
      if !currentIsValid { return false; }
      RevokeAllRefreshTokens(userId);
      return true;
    }
  }
}
