/** Overlapping rotations (packages/backend/src/auth/token.service.ts:148-199), one step per stretch
    between awaits: a call looks its token up, then revokes it, then saves the successor. The other
    operations on tokens are single statements and stay atomic. */
module RefreshOverlap {
  import opened Common
  import opened RefreshTokens

  datatype Call =
    | Asked(raw: Raw, userId: nat)
    | Cleared(raw: Raw, userId: nat)                            // looked up and found in order
    | Condemned(raw: Raw, userId: nat)                          // wrong secret, or revoked
    | Replacing(raw: Raw, userId: nat)                          // old token revoked
    | Ended(raw: Raw, userId: nat, result: Option<Raw>)

  datatype Sys = Sys(store: Store, calls: map<nat, Call>)

  datatype Move =
    | Ask(p: nat, raw: Raw, userId: nat)
    | Look(p: nat, now: int)
    | RevokeOld(p: nat)
    | SaveNew(p: nat, draw: Draw)
    | RevokeEverything(p: nat)
    | Other(op: RefreshTokens.Op)

  predicate LegalMove(s: Sys, m: Move) {
    match m
    case Ask(p, _, _) => p !in s.calls
    case Look(p, _) => p in s.calls && s.calls[p].Asked?
    case RevokeOld(p) => p in s.calls && s.calls[p].Cleared? && s.calls[p].raw.id.Some?
    case SaveNew(p, d) => p in s.calls && s.calls[p].Replacing? && s.calls[p].raw.id.Some? && Fresh(s.store, d)
    case RevokeEverything(p) => p in s.calls && s.calls[p].Condemned?
    case Other(op) => !op.DoRefresh? && RefreshTokens.Legal(s.store, op)
  }

  function At(s: Sys, p: nat, c: Call): Sys { s.(calls := s.calls[p := c]) }

  /** What the lookup comes to. */
  function Judged(s: Store, raw: Raw, userId: nat, now: int): Call {
    if !Found(s, raw, userId) then Ended(raw, userId, None)
    else
      var t := s.tokens[raw.id.value];
      if t.hash != raw || t.revoked then Condemned(raw, userId)
      else if t.expiresAt < now then Ended(raw, userId, None)
      else Cleared(raw, userId)
  }

  function Moved(s: Sys, m: Move): Sys
    requires LegalMove(s, m)
  {
    match m
    case Ask(p, raw, userId) => At(s, p, Asked(raw, userId))
    case Look(p, now) => At(s, p, Judged(s.store, s.calls[p].raw, s.calls[p].userId, now))
    case RevokeOld(p) =>
      var c := s.calls[p];
      At(s.(store := RevokedOne(s.store, c.raw.id.value, c.userId)), p, Replacing(c.raw, c.userId))
    case SaveNew(p, d) =>
      var c := s.calls[p];
      var id := c.raw.id.value;
      var saved := Generated(s.store, c.userId, ChainOf(s.store, id), d);
      At(s.(store := saved.(rotated := s.store.rotated + [id])), p, Ended(c.raw, c.userId, Some(RawOf(d))))
    case RevokeEverything(p) =>
      var c := s.calls[p];
      At(s.(store := RevokedAll(s.store, c.userId)), p, Ended(c.raw, c.userId, None))
    case Other(op) => s.(store := RefreshTokens.Step(s.store, op))
  }

  predicate LegalMoves(s: Sys, moves: seq<Move>)
    decreases |moves|
  {
    moves == [] || (LegalMove(s, moves[0]) && LegalMoves(Moved(s, moves[0]), moves[1..]))
  }

  function Played(s: Sys, moves: seq<Move>): Sys
    requires LegalMoves(s, moves)
    decreases |moves|
  {
    if moves == [] then s else Played(Moved(s, moves[0]), moves[1..])
  }

  lemma {:induction false} MovesAppend(s: Sys, a: seq<Move>, b: seq<Move>)
    requires LegalMoves(s, a + b)
    ensures LegalMoves(s, a) && LegalMoves(Played(s, a), b) && Played(s, a + b) == Played(Played(s, a), b)
    decreases |a|
  {
    if a == [] {
      assert a + b == b;
    } else {
      assert (a + b)[0] == a[0] && (a + b)[1..] == a[1..] + b;
      MovesAppend(Moved(s, a[0]), a[1..], b);
    }
  }

  // ------------------------------------------------------------------ usable until killed

  /** Every stored token is on record, so a fresh id is none of theirs. */
  ghost predicate OnRecord(s: Store) { forall id <- s.tokens :: id in s.issued }

  /** The token is stored for that user, with that secret, and not revoked. */
  predicate Usable(s: Store, raw: Raw, userId: nat) {
    Found(s, raw, userId) && s.tokens[raw.id.value].hash == raw && !s.tokens[raw.id.value].revoked
  }

  /** The move revokes or deletes the token, which is usable before it. */
  predicate Kills(s: Sys, m: Move, raw: Raw, userId: nat) {
    && Usable(s.store, raw, userId)
    && match m
       case RevokeOld(p) => p in s.calls && s.calls[p].raw.id == raw.id && s.calls[p].userId == userId
       case RevokeEverything(p) => p in s.calls && s.calls[p].userId == userId
       case Other(DoLogout(u, presented)) => u == userId && (presented.Some? ==> presented.value.id == raw.id)
       case Other(DoChangePassword(u)) => u == userId
       case Other(DoCleanup(now)) => s.store.tokens[raw.id.value].expiresAt < now
       case _ => false
  }

  predicate KilledIn(s: Sys, moves: seq<Move>, raw: Raw, userId: nat)
    requires LegalMoves(s, moves)
    decreases |moves|
  {
    moves != [] && (Kills(s, moves[0], raw, userId) || KilledIn(Moved(s, moves[0]), moves[1..], raw, userId))
  }

  lemma RecordKept(s: Sys, m: Move)
    requires OnRecord(s.store) && LegalMove(s, m)
    ensures OnRecord(Moved(s, m).store)
    ensures s.store.issued.Keys <= Moved(s, m).store.issued.Keys
  {
  }

  lemma UsableStep(s: Sys, m: Move, raw: Raw, userId: nat)
    requires OnRecord(s.store) && LegalMove(s, m) && Usable(s.store, raw, userId)
    ensures Usable(Moved(s, m).store, raw, userId) <==> !Kills(s, m, raw, userId)
    ensures !Kills(s, m, raw, userId) ==> Moved(s, m).store.tokens[raw.id.value] == s.store.tokens[raw.id.value]
  {
  }

  /** Once revoked or deleted, a token does not become usable again. */
  lemma SpentMove(s: Sys, m: Move, raw: Raw, userId: nat)
    requires OnRecord(s.store) && LegalMove(s, m) && raw.id.Some? && raw.id.value in s.store.issued
    requires !Usable(s.store, raw, userId)
    ensures !Usable(Moved(s, m).store, raw, userId)
  {
  }

  lemma {:induction false} SpentMoves(s: Sys, moves: seq<Move>, raw: Raw, userId: nat)
    requires OnRecord(s.store) && LegalMoves(s, moves) && raw.id.Some? && raw.id.value in s.store.issued
    requires !Usable(s.store, raw, userId)
    ensures !Usable(Played(s, moves).store, raw, userId)
    decreases |moves|
  {
    if moves != [] {
      RecordKept(s, moves[0]);
      SpentMove(s, moves[0], raw, userId);
      SpentMoves(Moved(s, moves[0]), moves[1..], raw, userId);
    }
  }

  /** A usable token stays usable, and as it is, exactly until a move revokes or deletes it. */
  lemma {:induction false} UsableUntilKilled(s: Sys, moves: seq<Move>, raw: Raw, userId: nat)
    requires OnRecord(s.store) && LegalMoves(s, moves) && Usable(s.store, raw, userId)
    ensures Usable(Played(s, moves).store, raw, userId) <==> !KilledIn(s, moves, raw, userId)
    ensures Usable(Played(s, moves).store, raw, userId)
        ==> Played(s, moves).store.tokens[raw.id.value] == s.store.tokens[raw.id.value]
    decreases |moves|
  {
    if moves != [] {
      var t := Moved(s, moves[0]);
      RecordKept(s, moves[0]);
      UsableStep(s, moves[0], raw, userId);
      if Kills(s, moves[0], raw, userId) {
        SpentMoves(t, moves[1..], raw, userId);
      } else {
        UsableUntilKilled(t, moves[1..], raw, userId);
      }
    }
  }

  // --------------------------------------------------------------------- a call decides once

  predicate Winning(c: Call) { c.Cleared? || c.Replacing? || (c.Ended? && c.result.Some?) }

  lemma CallStep(s: Sys, m: Move, p: nat)
    requires LegalMove(s, m) && p in s.calls
    ensures var t := Moved(s, m);
            && p in t.calls && t.calls[p].raw == s.calls[p].raw && t.calls[p].userId == s.calls[p].userId
            && (!s.calls[p].Asked? ==> !t.calls[p].Asked? && (Winning(t.calls[p]) <==> Winning(s.calls[p])))
  {
  }

  /** What a call asks for does not change, and its lookup decides how it ends. */
  lemma {:induction false} CallKept(s: Sys, moves: seq<Move>, p: nat)
    requires LegalMoves(s, moves) && p in s.calls
    ensures var t := Played(s, moves);
            && p in t.calls && t.calls[p].raw == s.calls[p].raw && t.calls[p].userId == s.calls[p].userId
            && (!s.calls[p].Asked? ==> !t.calls[p].Asked? && (Winning(t.calls[p]) <==> Winning(s.calls[p])))
    decreases |moves|
  {
    if moves != [] {
      CallStep(s, moves[0], p);
      CallKept(Moved(s, moves[0]), moves[1..], p);
    }
  }

  lemma LookDecides(s: Sys, p: nat, now: int)
    requires LegalMove(s, Look(p, now))
    ensures var t := Moved(s, Look(p, now));
            && t.store == s.store && p in t.calls && !t.calls[p].Asked?
            && (Winning(t.calls[p]) <==> Rotatable(s.store, s.calls[p].raw, s.calls[p].userId, now))
  {
  }

  // --------------------------------------------------------------------------- main results

  lemma OneMove(s: Sys, m: Move, rest: seq<Move>)
    requires LegalMoves(s, [m] + rest)
    ensures LegalMove(s, m) && LegalMoves(Moved(s, m), rest) && Played(s, [m] + rest) == Played(Moved(s, m), rest)
  {
    assert ([m] + rest)[1..] == rest;
  }

  /** Two calls present the same token; `p` looks first. Once both have ended, both have succeeded if
      and only if the token was in order when `p` looked, nothing revoked or deleted it between the
      two looks, and it had not expired when `q` looked. */
  lemma BothSucceedExactly(s: Sys, p: nat, q: nat, now: int, between: seq<Move>, later: int, after: seq<Move>)
    requires OnRecord(s.store) && p != q && p in s.calls && q in s.calls && s.calls[p] == s.calls[q]
        && s.calls[p].Asked?
    requires LegalMoves(s, [Look(p, now)] + (between + ([Look(q, later)] + after)))
    requires var t := Played(s, [Look(p, now)] + (between + ([Look(q, later)] + after)));
             p in t.calls && q in t.calls && t.calls[p].Ended? && t.calls[q].Ended?
    ensures var t := Played(s, [Look(p, now)] + (between + ([Look(q, later)] + after)));
            var raw, userId := s.calls[p].raw, s.calls[p].userId;
            && LegalMove(s, Look(p, now)) && LegalMoves(Moved(s, Look(p, now)), between)
            && (t.calls[p].result.Some? && t.calls[q].result.Some? <==>
                  && Rotatable(s.store, raw, userId, now)
                  && !KilledIn(Moved(s, Look(p, now)), between, raw, userId)
                  && s.store.tokens[raw.id.value].expiresAt >= later)
  {
    var raw, userId := s.calls[p].raw, s.calls[p].userId;
    OneMove(s, Look(p, now), between + ([Look(q, later)] + after));
    var a := Moved(s, Look(p, now));
    LookDecides(s, p, now);
    CallKept(a, between + ([Look(q, later)] + after), p);
    MovesAppend(a, between, [Look(q, later)] + after);
    var b := Played(a, between);
    CallKept(a, between, q);
    OneMove(b, Look(q, later), after);
    LookDecides(b, q, later);
    CallKept(Moved(b, Look(q, later)), after, q);
    if Usable(s.store, raw, userId) { UsableUntilKilled(a, between, raw, userId); }
  }

  /** So a call that looks after another call for the token has revoked it does not succeed. */
  lemma NoSecondSuccess(s: Sys, p: nat, q: nat, between: seq<Move>, later: int, after: seq<Move>)
    requires OnRecord(s.store) && p in s.calls && q in s.calls && s.calls[q].Asked? && LegalMove(s, RevokeOld(p))
    requires s.calls[p].raw == s.calls[q].raw && s.calls[p].userId == s.calls[q].userId
        && s.calls[p].raw.id.value in s.store.issued
    requires LegalMoves(Moved(s, RevokeOld(p)), between + ([Look(q, later)] + after))
    ensures q in Played(Moved(s, RevokeOld(p)), between + ([Look(q, later)] + after)).calls
    ensures !Winning(Played(Moved(s, RevokeOld(p)), between + ([Look(q, later)] + after)).calls[q])
  {
    var raw, userId := s.calls[q].raw, s.calls[q].userId;
    var a := Moved(s, RevokeOld(p));
    RecordKept(s, RevokeOld(p));
    MovesAppend(a, between, [Look(q, later)] + after);
    var b := Played(a, between);
    SpentMoves(a, between, raw, userId);
    CallKept(a, between, q);
    OneMove(b, Look(q, later), after);
    LookDecides(b, q, later);
    CallKept(Moved(b, Look(q, later)), after, q);
  }

  // ------------------------------------------------------------------------------- a witness

  lemma Then(s: Sys, m: Move, rest: seq<Move>)
    requires LegalMove(s, m) && LegalMoves(Moved(s, m), rest)
    ensures LegalMoves(s, [m] + rest) && Played(s, [m] + rest) == Played(Moved(s, m), rest)
  {
    assert ([m] + rest)[1..] == rest;
  }

  /** A user logged in with token `d0`, and two calls that both present it. */
  function TwoCalls(userId: nat, d0: Draw): Sys {
    Sys(Login(EMPTY_STORE, userId, d0), map[1 := Asked(RawOf(d0), userId), 2 := Asked(RawOf(d0), userId)])
  }

  /** Both calls look before either revokes: both get a successor, and the login chain holds two
      tokens that can be rotated. */
  lemma BothSucceed(userId: nat, now: int, d0: Draw, d1: Draw, d2: Draw)
    requires d1.id != d0.id && d2.id != d0.id && d2.id != d1.id
    requires d0.expiresAt >= now && d1.expiresAt >= now && d2.expiresAt >= now
    ensures var moves := [Look(1, now)]
        + ([Look(2, now)] + ([RevokeOld(1)] + ([SaveNew(1, d1)] + ([RevokeOld(2)] + ([SaveNew(2, d2)] + [])))));
            && LegalMoves(TwoCalls(userId, d0), moves)
            && var t := Played(TwoCalls(userId, d0), moves);
               && t.calls == map[1 := Ended(RawOf(d0), userId, Some(RawOf(d1))),
                   2 := Ended(RawOf(d0), userId, Some(RawOf(d2)))]
               && Rotatable(t.store, RawOf(d1), userId, now) && Rotatable(t.store, RawOf(d2), userId, now)
               && ChainOf(t.store, d1.id) == ChainOf(t.store, d2.id) == d0.id
  {
    var s := TwoCalls(userId, d0);
    var a := Moved(s, Look(1, now));
    var b := Moved(a, Look(2, now));
    var c := Moved(b, RevokeOld(1));
    var e := Moved(c, SaveNew(1, d1));
    var f := Moved(e, RevokeOld(2));
    var g := Moved(f, SaveNew(2, d2));
    assert g.store.tokens[d1.id] == Token(userId, RawOf(d1), d1.expiresAt, false);
    assert g.store.tokens[d2.id] == Token(userId, RawOf(d2), d2.expiresAt, false);
    assert g.calls == map[1 := Ended(RawOf(d0), userId, Some(RawOf(d1))),
        2 := Ended(RawOf(d0), userId, Some(RawOf(d2)))];
    Then(f, SaveNew(2, d2), []);
    Then(e, RevokeOld(2), [SaveNew(2, d2)] + []);
    Then(c, SaveNew(1, d1), [RevokeOld(2)] + ([SaveNew(2, d2)] + []));
    Then(b, RevokeOld(1), [SaveNew(1, d1)] + ([RevokeOld(2)] + ([SaveNew(2, d2)] + [])));
    Then(a, Look(2, now), [RevokeOld(1)] + ([SaveNew(1, d1)] + ([RevokeOld(2)] + ([SaveNew(2, d2)] + []))));
    Then(s, Look(1, now), [Look(2, now)]
        + ([RevokeOld(1)] + ([SaveNew(1, d1)] + ([RevokeOld(2)] + ([SaveNew(2, d2)] + [])))));
  }
}
