/** The login lockout of packages/backend/src/auth/auth.service.ts:69-154. Times are milliseconds;
    attempts on one account do not overlap. */
module Lockout {
  import opened Common

  /** Both settings are configured as positive integers. */
  datatype Policy = Policy(passwordLoginEnabled: bool, threshold: nat, durationMinutes: nat)

  predicate ValidPolicy(p: Policy) { p.threshold >= 1 && p.durationMinutes >= 1 }

  function Duration(p: Policy): nat { p.durationMinutes * 60 * 1000 }

  datatype Credential = Credential(failedAttempts: nat, lockedUntil: Option<int>)

  datatype Account = Account(isActive: bool, hasLocal: bool, credential: Option<Credential>)

  /** `checkedAt` is read before the password is compared, `lockedAt` after. */
  datatype Attempt = Attempt(correct: bool, checkedAt: int, lockedAt: int)

  predicate ValidAttempt(a: Attempt) { a.checkedAt <= a.lockedAt }

  datatype Outcome = LoginDisabled | InvalidCredentials | Deactivated | SsoAccount | Locked(minutesLeft: int) | LoggedIn

  function Ceiling(x: int, d: nat): int
    requires d > 0
  {
    -((-x) / d)
  }

  predicate LockedAt(c: Credential, now: int) { c.lockedUntil.Some? && c.lockedUntil.value > now }

  /** The reset leaves `lockedUntil` as stored: an undefined field is not written. */
  function Compare(p: Policy, c: Credential, a: Attempt): (Outcome, Credential) {
    if a.correct then (LoggedIn, if c.failedAttempts > 0 then c.(failedAttempts := 0) else c)
    else
      var n := c.failedAttempts + 1;
      (InvalidCredentials, Credential(n, if n >= p.threshold then Some(a.lockedAt + Duration(p)) else c.lockedUntil))
  }

  function TryCredential(p: Policy, c: Credential, a: Attempt): (Outcome, Credential) {
    if LockedAt(c, a.checkedAt) then (Locked(Ceiling(c.lockedUntil.value - a.checkedAt, 60000)), c)
        else Compare(p, c, a)
  }

  function Validate(p: Policy, account: Option<Account>, a: Attempt): (Outcome, Option<Account>) {
    if !p.passwordLoginEnabled then (LoginDisabled, account)
    else if account.None? then (InvalidCredentials, account)
    else if !account.value.isActive then (Deactivated, account)
    else if !account.value.hasLocal then (SsoAccount, account)
    else if account.value.credential.None? then (InvalidCredentials, account)
    else
      var r := TryCredential(p, account.value.credential.value, a);
      (r.0, Some(account.value.(credential := Some(r.1))))
  }

  // ------------------------------------------------------------------------ single calls

  /** An attempt made while locked changes nothing; in particular it does not extend the lock. The
      minutes reported cover the time that is left. */
  lemma LockedChangesNothing(p: Policy, c: Credential, a: Attempt)
    requires LockedAt(c, a.checkedAt)
    ensures var r := TryCredential(p, c, a);
            && r.0.Locked? && r.1 == c
            && r.0.minutesLeft >= 1
            && (r.0.minutesLeft - 1) * 60000 < c.lockedUntil.value - a.checkedAt <= r.0.minutesLeft * 60000
  {
  }

  /** A correct password once the lock has expired always gets in and clears the counter; a wrong
      one with the counter at the threshold locks again at once. */
  lemma AfterExpiry(p: Policy, c: Credential, a: Attempt)
    requires !LockedAt(c, a.checkedAt) && ValidPolicy(p) && ValidAttempt(a)
    ensures a.correct ==> TryCredential(p, c, a).0 == LoggedIn && TryCredential(p, c, a).1.failedAttempts == 0
    ensures a.correct ==> forall now | now >= a.checkedAt :: !LockedAt(TryCredential(p, c, a).1, now)
    ensures !a.correct && c.failedAttempts + 1 >= p.threshold ==>
              forall now | now < a.lockedAt + Duration(p) :: LockedAt(TryCredential(p, c, a).1, now)
  {
  }

  // -------------------------------------------------------------------------- whole runs

  predicate InOrder(attempts: seq<Attempt>) {
    && (forall a <- attempts :: ValidAttempt(a))
    && (forall i, j | 0 <= i < j < |attempts| :: attempts[i].lockedAt <= attempts[j].checkedAt)
  }

  function After(p: Policy, c: Credential, attempts: seq<Attempt>): Credential
    decreases |attempts|
  {
    if attempts == [] then c else TryCredential(p, After(p, c, attempts[..|attempts| - 1]), attempts[|attempts| - 1]).1
  }

  /** The attempts whose password was compared. */
  function ComparedOf(p: Policy, c: Credential, attempts: seq<Attempt>): seq<Attempt>
    decreases |attempts|
  {
    if attempts == [] then []
    else
      var before, a := attempts[..|attempts| - 1], attempts[|attempts| - 1];
      ComparedOf(p, c, before) + if LockedAt(After(p, c, before), a.checkedAt) then [] else [a]
  }

  predicate NoSuccess(p: Policy, c: Credential, attempts: seq<Attempt>) {
    forall a <- ComparedOf(p, c, attempts) :: !a.correct
  }

  lemma {:induction false} ComparedAreAttempts(p: Policy, c: Credential, attempts: seq<Attempt>)
    ensures forall a <- ComparedOf(p, c, attempts) :: a in attempts
    decreases |attempts|
  {
    if attempts != [] { ComparedAreAttempts(p, c, attempts[..|attempts| - 1]); }
  }

  /** The counter counts the comparisons; from the threshold on, each comparison has pushed the lock
      one duration further past the first one. */
  predicate Counted(p: Policy, cmp: seq<Attempt>, now: Credential) {
    && now.failedAttempts == |cmp|
    && (cmp != [] && |cmp| >= p.threshold ==>
          now.lockedUntil.Some? && now.lockedUntil.value >= cmp[0].checkedAt + (|cmp| - p.threshold + 1) * Duration(p))
  }

  lemma CountedStep(p: Policy, cmp: seq<Attempt>, now: Credential, a: Attempt)
    requires ValidPolicy(p) && Counted(p, cmp, now) && !LockedAt(now, a.checkedAt) && !a.correct && ValidAttempt(a)
    requires cmp != [] ==> cmp[0].checkedAt <= a.lockedAt
    ensures Counted(p, cmp + [a], Compare(p, now, a).1)
  {
    var n, d := |cmp| - p.threshold + 1, Duration(p);
    OneMore(n, d);
    if n <= 0 { assert n == 0 ==> n * d == 0; }
  }

  lemma {:induction false} CounterAndLock(p: Policy, c: Credential, attempts: seq<Attempt>)
    requires ValidPolicy(p) && c.failedAttempts == 0 && InOrder(attempts) && NoSuccess(p, c, attempts)
    ensures Counted(p, ComparedOf(p, c, attempts), After(p, c, attempts))
    decreases |attempts|
  {
    if attempts != [] {
      var before, a := attempts[..|attempts| - 1], attempts[|attempts| - 1];
      assert forall x <- before :: x in attempts;
      assert a in attempts;
      var cmp, all := ComparedOf(p, c, before), ComparedOf(p, c, attempts);
      assert forall x <- cmp :: x in all;
      CounterAndLock(p, c, before);
      if !LockedAt(After(p, c, before), a.checkedAt) {
        assert all == cmp + [a] && all[|cmp|] == a;
        ComparedAreAttempts(p, c, before);
        if cmp != [] {
          assert cmp[0] in before;
          FirstIsEarlier(attempts, cmp[0]);
        }
        CountedStep(p, cmp, After(p, c, before), a);
      }
    }
  }

  lemma FirstIsEarlier(attempts: seq<Attempt>, x: Attempt)
    requires InOrder(attempts) && attempts != [] && x in attempts
    ensures x.checkedAt <= attempts[|attempts| - 1].lockedAt
  {
    var i :| 0 <= i < |attempts| && attempts[i] == x;
    assert attempts[|attempts| - 1] in attempts;
  }

  lemma OneMore(k: int, d: nat)
    ensures (k + 1) * d == k * d + d
  {
  }

  lemma FirstIsBefore(p: Policy, c: Credential, attempts: seq<Attempt>)
    requires InOrder(attempts) && attempts != [] && ComparedOf(p, c, attempts[..|attempts| - 1]) != []
    ensures ComparedOf(p, c, attempts[..|attempts| - 1])[0].checkedAt <= attempts[|attempts| - 1].checkedAt
  {
    var before := attempts[..|attempts| - 1];
    ComparedAreAttempts(p, c, before);
    assert ComparedOf(p, c, before)[0] in before;
    EarlierCheck(attempts, ComparedOf(p, c, before)[0]);
  }

  lemma EarlierRun(p: Policy, c: Credential, attempts: seq<Attempt>)
    requires InOrder(attempts) && NoSuccess(p, c, attempts) && attempts != []
    ensures InOrder(attempts[..|attempts| - 1]) && NoSuccess(p, c, attempts[..|attempts| - 1])
  {
    var before := attempts[..|attempts| - 1];
    assert forall x <- before :: x in attempts;
    assert forall x <- ComparedOf(p, c, before) :: x in ComparedOf(p, c, attempts);
  }

  /** A comparison after `n` others, n at least the threshold, comes n - threshold + 1 durations
      after the first one. */
  lemma NextComparison(p: Policy, c: Credential, attempts: seq<Attempt>)
    requires ValidPolicy(p) && c.failedAttempts == 0 && InOrder(attempts) && NoSuccess(p, c, attempts) && attempts != []
    requires var before := attempts[..|attempts| - 1];
             !LockedAt(After(p, c, before), attempts[|attempts| - 1].checkedAt) && ComparedOf(p, c, before) != []
    ensures var cmp, a := ComparedOf(p, c, attempts[..|attempts| - 1]), attempts[|attempts| - 1];
            && ComparedOf(p, c, attempts) == cmp + [a] && cmp[0].checkedAt <= a.checkedAt
            && (|cmp| >= p.threshold ==> a.checkedAt - cmp[0].checkedAt >= (|cmp| - p.threshold + 1) * Duration(p))
  {
    var before, a := attempts[..|attempts| - 1], attempts[|attempts| - 1];
    EarlierRun(p, c, attempts);
    CounterAndLock(p, c, before);
    UnlockedIsLate(p, ComparedOf(p, c, before), After(p, c, before), a);
    FirstIsBefore(p, c, attempts);
  }

  lemma UnlockedIsLate(p: Policy, cmp: seq<Attempt>, now: Credential, a: Attempt)
    requires cmp != [] && Counted(p, cmp, now) && !LockedAt(now, a.checkedAt)
    ensures |cmp| >= p.threshold ==> a.checkedAt - cmp[0].checkedAt >= (|cmp| - p.threshold + 1) * Duration(p)
  {
  }

  /** The comparisons beyond the threshold are at least one duration apart. */
  predicate Spaced(k: nat, d: nat, cmp: seq<Attempt>) {
    cmp != [] ==>
      && cmp[|cmp| - 1].checkedAt >= cmp[0].checkedAt
      && (|cmp| > k ==> cmp[|cmp| - 1].checkedAt - cmp[0].checkedAt >= (|cmp| - k) * d)
  }

  lemma SpacedStep(k: nat, d: nat, cmp: seq<Attempt>, a: Attempt)
    requires cmp != [] && cmp[0].checkedAt <= a.checkedAt
    requires |cmp| >= k ==> a.checkedAt - cmp[0].checkedAt >= (|cmp| - k + 1) * d
    ensures Spaced(k, d, cmp + [a])
  {
  }

  lemma {:induction false} ComparisonsSpaced(p: Policy, c: Credential, attempts: seq<Attempt>)
    requires ValidPolicy(p) && c.failedAttempts == 0 && InOrder(attempts) && NoSuccess(p, c, attempts)
    ensures Spaced(p.threshold, Duration(p), ComparedOf(p, c, attempts))
    decreases |attempts|
  {
    if attempts != [] {
      var before, a := attempts[..|attempts| - 1], attempts[|attempts| - 1];
      assert forall x <- before :: x in attempts;
      var cmp, all := ComparedOf(p, c, before), ComparedOf(p, c, attempts);
      assert forall x <- cmp :: x in all;
      if LockedAt(After(p, c, before), a.checkedAt) {
        ComparisonsSpaced(p, c, before);
        assert all == cmp;
      } else if cmp != [] {
        NextComparison(p, c, attempts);
        SpacedStep(p.threshold, Duration(p), cmp, a);
      } else {
        assert all == [a];
      }
    }
  }

  /** The rate bound: from a cleared counter, as long as no login succeeds, the password is compared
      at most threshold + (T - t0) / duration times between the first comparison t0 and the last T. */
  lemma RateBound(p: Policy, c: Credential, attempts: seq<Attempt>)
    requires ValidPolicy(p) && c.failedAttempts == 0 && InOrder(attempts) && NoSuccess(p, c, attempts)
    requires ComparedOf(p, c, attempts) != []
    ensures var cmp := ComparedOf(p, c, attempts);
            var elapsed := cmp[|cmp| - 1].checkedAt - cmp[0].checkedAt;
            elapsed >= 0 && |cmp| <= p.threshold + elapsed / Duration(p)
  {
    ComparisonsSpaced(p, c, attempts);
    var cmp := ComparedOf(p, c, attempts);
    SpacedBound(p.threshold, Duration(p), cmp);
  }

  lemma SpacedBound(k: nat, d: nat, cmp: seq<Attempt>)
    requires d > 0 && cmp != [] && Spaced(k, d, cmp)
    ensures |cmp| <= k + (cmp[|cmp| - 1].checkedAt - cmp[0].checkedAt) / d
  {
    WholePeriods(cmp[|cmp| - 1].checkedAt - cmp[0].checkedAt, d, if |cmp| > k then |cmp| - k else 0);
  }

  lemma EarlierCheck(attempts: seq<Attempt>, x: Attempt)
    requires InOrder(attempts) && attempts != [] && x in attempts[..|attempts| - 1]
    ensures x.checkedAt <= attempts[|attempts| - 1].checkedAt
  {
    var i :| 0 <= i < |attempts| - 1 && attempts[i] == x;
    assert x in attempts;
  }

  lemma WholePeriods(elapsed: int, d: nat, k: nat)
    requires d > 0 && elapsed >= k * d
    ensures elapsed >= 0 && elapsed / d >= k
  {
    assert k * d >= 0;
    assert elapsed == (elapsed / d) * d + elapsed % d;
    assert (elapsed / d + 1 - k) * d > 0;
  }

  // ------------------------------------------------------------------- the bound is reached

  /** Wrong passwords: the whole threshold at time 0, then one at the end of each lock. */
  function Relentless(p: Policy, m: nat): seq<Attempt> {
    seq(p.threshold + m, i requires 0 <= i < p.threshold + m =>
      var t := if i < p.threshold then 0 else (i - p.threshold + 1) * Duration(p); Attempt(false, t, t))
  }

  function Prefix(p: Policy, m: nat, n: nat): seq<Attempt>
    requires n <= p.threshold + m
  {
    Relentless(p, m)[..n]
  }

  /** The credential after n wrong passwords of that run. */
  function Worn(p: Policy, n: nat): Credential {
    Credential(n, if n < p.threshold then None else Some((n - p.threshold + 1) * Duration(p)))
  }

  lemma NextWrong(p: Policy, m: nat, n: nat)
    requires ValidPolicy(p) && n < p.threshold + m
    ensures var a := Relentless(p, m)[n];
            !LockedAt(Worn(p, n), a.checkedAt)
            && TryCredential(p, Worn(p, n), a).1 == Worn(p, n + 1)
  {
    OneMore(n + 1 - p.threshold, Duration(p));
  }

  lemma {:induction false} AllCompared(p: Policy, m: nat, n: nat)
    requires ValidPolicy(p) && n <= p.threshold + m
    ensures ComparedOf(p, Worn(p, 0), Prefix(p, m, n)) == Prefix(p, m, n)
    ensures After(p, Worn(p, 0), Prefix(p, m, n)) == Worn(p, n)
  {
    if n > 0 {
      AllCompared(p, m, n - 1);
      NextWrong(p, m, n - 1);
      var s := Prefix(p, m, n);
      assert s[..n - 1] == Prefix(p, m, n - 1);
      assert s == Prefix(p, m, n - 1) + [Relentless(p, m)[n - 1]];
    }
  }

  lemma PeriodsInOrder(p: Policy, m: nat)
    ensures InOrder(Relentless(p, m))
  {
    var s := Relentless(p, m);
    forall i, j | 0 <= i < j < |s| ensures s[i].lockedAt <= s[j].checkedAt {
      if j >= p.threshold {
        Scaled(if i >= p.threshold then i - p.threshold + 1 else 0, j - p.threshold + 1, Duration(p));
      }
    }
  }

  lemma Scaled(a: nat, b: nat, d: nat)
    requires a <= b
    ensures a * d <= b * d
  {
  }

  lemma RelentlessSpan(p: Policy, m: nat)
    requires ValidPolicy(p)
    ensures var s := Relentless(p, m);
            |s| == p.threshold + m && s[0].checkedAt == 0 && s[|s| - 1].checkedAt == m * Duration(p)
  {
    var s := Relentless(p, m);
    assert s[0].checkedAt == 0;
    if m > 0 {
      assert (|s| - 1) - p.threshold + 1 == m;
    }
  }

  lemma RelentlessFails(p: Policy, m: nat)
    requires ValidPolicy(p)
    ensures var s, c := Relentless(p, m), Credential(0, None); ComparedOf(p, c, s) == s && NoSuccess(p, c, s)
  {
    var s := Relentless(p, m);
    AllCompared(p, m, p.threshold + m);
    assert Prefix(p, m, p.threshold + m) == s;
    assert Worn(p, 0) == Credential(0, None);
    forall a <- s ensures !a.correct {
      var i :| 0 <= i < |s| && s[i] == a;
    }
  }

  /** For every m a run of m whole durations makes threshold + m comparisons: the bound is exact. */
  lemma BoundIsReached(p: Policy, m: nat)
    requires ValidPolicy(p)
    ensures var s, c := Relentless(p, m), Credential(0, None);
            && InOrder(s) && NoSuccess(p, c, s) && |ComparedOf(p, c, s)| == p.threshold + m
            && s[|s| - 1].checkedAt - s[0].checkedAt == m * Duration(p)
  {
    PeriodsInOrder(p, m);
    RelentlessFails(p, m);
    RelentlessSpan(p, m);
  }

  // -------------------------------------------------------------------------- the service

  /** One account and its credential row. */
  class LoginService {
    var account: Option<Account>

    constructor (a: Option<Account>)
      ensures account == a
    {
      account := a;
    }

    /** Writes the fields that are given. */
    method UpdateCredential(failedAttempts: Option<nat>, lockedUntil: Option<int>)
      requires account.Some? && account.value.credential.Some?
      modifies this
      ensures var c := old(account).value.credential.value;
              account == Some(old(account).value.(credential := Some(Credential(
                if failedAttempts.Some? then failedAttempts.value else c.failedAttempts,
                if lockedUntil.Some? then lockedUntil else c.lockedUntil))))
    {
      var c := account.value.credential.value;
      if failedAttempts.Some? { c := c.(failedAttempts := failedAttempts.value); }
      if lockedUntil.Some? { c := c.(lockedUntil := lockedUntil); }
      account := Some(account.value.(credential := Some(c)));
    }

    method ValidateLocalUser(p: Policy, a: Attempt) returns (r: Outcome)
      modifies this
      ensures (r, account) == Validate(p, old(account), a)
    {
      if !p.passwordLoginEnabled { return LoginDisabled; }
      if account.None? { return InvalidCredentials; }
      if !account.value.isActive { return Deactivated; }
      if !account.value.hasLocal { return SsoAccount; }
      if account.value.credential.None? { return InvalidCredentials; }
      var credential := account.value.credential.value;
      if credential.lockedUntil.Some? {
        var lockExpiry := credential.lockedUntil.value;
        if lockExpiry > a.checkedAt { return Locked(Ceiling(lockExpiry - a.checkedAt, 60000)); }
      }
      if !a.correct {
        var newAttempts := credential.failedAttempts + 1;
        var lockedUntil := None;
        if newAttempts >= p.threshold { lockedUntil := Some(a.lockedAt + Duration(p)); }
        UpdateCredential(Some(newAttempts), lockedUntil);
        return InvalidCredentials;
      }
      if credential.failedAttempts > 0 { UpdateCredential(Some(0), None); }
      return LoggedIn;
    }
  }
}
