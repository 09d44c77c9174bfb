/** In-flight deduplication, one step per stretch between awaits: `evalInflight`
    (packages/backend/src/eval/eval-execution.service.ts:446-476) and `generateInflight`
    (packages/backend/src/generation/generation.service.ts:65-87) run the same protocol. */
module SingleFlight {
  import opened Common

  /** An execution settles with a value or an error; `R` covers both. */
  datatype Execution<R> = Execution(key: string, settled: Option<R>, cleaned: bool)

  /** A caller awaits one execution; the creator also cleans up once it resumes. */
  datatype Caller<R> = Caller(key: string, exec: nat, creator: bool, answer: Option<R>)

  /** Executions and callers are numbered in the order in which they came. */
  datatype Desk<R> = Desk(inflight: map<string, nat>, execs: seq<Execution<R>>, callers: seq<Caller<R>>)

  function Empty<R>(): Desk<R> { Desk(map[], [], []) }

  datatype Op<R> = Call(key: string) | Settle(exec: nat, result: R) | Resume(caller: nat)

  predicate Legal<R>(d: Desk<R>, op: Op<R>) {
    match op
    case Call(_) => true
    case Settle(e, _) => e < |d.execs| && d.execs[e].settled.None?
    case Resume(c) =>
      && c < |d.callers| && d.callers[c].answer.None?
      && d.callers[c].exec < |d.execs| && d.execs[d.callers[c].exec].settled.Some?
  }

  /** Look the key up; join what is there, or start an execution and register it. No await between. */
  function Called<R>(d: Desk<R>, key: string): Desk<R> {
    if key in d.inflight then d.(callers := d.callers + [Caller(key, d.inflight[key], false, None)])
    else Desk(d.inflight[key := |d.execs|], d.execs + [Execution(key, None, false)],
        d.callers + [Caller(key, |d.execs|, true, None)])
  }

  function Settled<R>(d: Desk<R>, e: nat, result: R): Desk<R>
    requires e < |d.execs|
  {
    d.(execs := d.execs[e := d.execs[e].(settled := Some(result))])
  }

  /** The awaited execution has settled: take its result; the creator deletes its key. */
  function Resumed<R>(d: Desk<R>, c: nat): Desk<R>
    requires Legal(d, Resume(c))
  {
    var who := d.callers[c];
    var answered := d.(callers := d.callers[c := who.(answer := d.execs[who.exec].settled)]);
    if who.creator then
      answered.(inflight := d.inflight - {who.key}, execs := d.execs[who.exec := d.execs[who.exec].(cleaned := true)])
    else answered
  }

  function Step<R>(d: Desk<R>, op: Op<R>): Desk<R>
    requires Legal(d, op)
  {
    match op
    case Call(key) => Called(d, key)
    case Settle(e, result) => Settled(d, e, result)
    case Resume(c) => Resumed(d, c)
  }

  ghost predicate LegalRun<R>(d: Desk<R>, ops: seq<Op<R>>)
    decreases |ops|
  {
    ops == [] || (Legal(d, ops[0]) && LegalRun(Step(d, ops[0]), ops[1..]))
  }

  ghost function Run<R>(d: Desk<R>, ops: seq<Op<R>>): Desk<R>
    requires LegalRun(d, ops)
    decreases |ops|
  {
    if ops == [] then d else Run(Step(d, ops[0]), ops[1..])
  }

  // ----------------------------------------------------------------------- invariant

  /** The map holds exactly the executions that are not cleaned up, each under its own key; hence
      at most one per key. */
  ghost predicate MapIsUncleaned<R>(d: Desk<R>) {
    && (forall k <- d.inflight ::
         d.inflight[k] < |d.execs| && d.execs[d.inflight[k]].key == k
         && !d.execs[d.inflight[k]].cleaned)
    && (forall e | 0 <= e < |d.execs| && !d.execs[e].cleaned ::
         d.execs[e].key in d.inflight
         && d.inflight[d.execs[e].key] == e)
  }

  ghost predicate CallersServed<R>(d: Desk<R>) {
    forall c | 0 <= c < |d.callers| ::
      var who := d.callers[c];
      && who.exec < |d.execs| && d.execs[who.exec].key == who.key
      && (who.answer.Some? ==> who.answer == d.execs[who.exec].settled)
  }

  predicate Creates<R>(d: Desk<R>, c: nat, e: nat) {
    c < |d.callers| && d.callers[c].creator && d.callers[c].exec == e
  }

  ghost predicate HasCreator<R>(d: Desk<R>, e: nat) {
    exists c: nat :: Creates(d, c, e)
  }

  /** An execution has one creator, and is cleaned up exactly when that creator has resumed. */
  ghost predicate OneCreator<R>(d: Desk<R>) {
    && (forall e: nat | e < |d.execs| :: HasCreator(d, e))
    && (forall c: nat, c': nat, e: nat | Creates(d, c, e) && Creates(d, c', e) :: c == c')
    && (forall c: nat, e: nat | Creates(d, c, e) && e < |d.execs| :: d.execs[e].cleaned <==> d.callers[c].answer.Some?)
  }

  ghost predicate Inv<R>(d: Desk<R>) {
    MapIsUncleaned(d) && CallersServed(d) && OneCreator(d)
  }

  lemma SameCreators<R>(d: Desk<R>, d': Desk<R>)
    requires forall c: nat, e: nat :: Creates(d', c, e) <==> Creates(d, c, e)
    ensures forall e: nat :: HasCreator(d', e) <==> HasCreator(d, e)
  {
    forall e: nat ensures HasCreator(d', e) <==> HasCreator(d, e) {
      if HasCreator(d, e) { var c: nat :| Creates(d, c, e); assert Creates(d', c, e); }
      if HasCreator(d', e) { var c: nat :| Creates(d', c, e); assert Creates(d, c, e); }
    }
  }

  lemma JoinKeeps<R>(d: Desk<R>, key: string)
    requires Inv(d) && key in d.inflight
    ensures Inv(Called(d, key))
  {
    var d' := Called(d, key);
    assert forall c: nat, e: nat :: Creates(d', c, e) <==> Creates(d, c, e);
    SameCreators(d, d');
  }

  lemma StartKeeps<R>(d: Desk<R>, key: string)
    requires Inv(d) && key !in d.inflight
    ensures Inv(Called(d, key))
  {
    var d' := Called(d, key);
    assert Creates(d', |d.callers|, |d.execs|);
    assert forall c: nat, e: nat | c != |d.callers| :: Creates(d', c, e) <==> Creates(d, c, e);
    assert forall c: nat, e: nat | Creates(d, c, e) :: e < |d.execs|;
    forall e: nat | e < |d.execs| ensures HasCreator(d', e) {
      assert HasCreator(d, e);
      var c: nat :| Creates(d, c, e);
      assert Creates(d', c, e);
    }
  }

  lemma SettleKeeps<R>(d: Desk<R>, e: nat, result: R)
    requires Inv(d) && Legal(d, Settle(e, result))
    ensures Inv(Settled(d, e, result))
  {
    var d' := Settled(d, e, result);
    assert forall c: nat, x: nat :: Creates(d', c, x) <==> Creates(d, c, x);
    SameCreators(d, d');
  }

  lemma ResumeCreates<R>(d: Desk<R>, c: nat)
    requires Legal(d, Resume(c))
    ensures forall c': nat, e: nat :: Creates(Resumed(d, c), c', e) <==> Creates(d, c', e)
  {
  }

  /** The creator's entry is still its own when it resumes, so its cleanup removes no other. */
  lemma CleanupIsOwn<R>(d: Desk<R>, c: nat)
    requires Inv(d) && Legal(d, Resume(c)) && d.callers[c].creator
    ensures d.callers[c].key in d.inflight && d.inflight[d.callers[c].key] == d.callers[c].exec
  {
    assert Creates(d, c, d.callers[c].exec);
  }

  lemma JoinerResumes<R>(d: Desk<R>, c: nat)
    requires Inv(d) && Legal(d, Resume(c)) && !d.callers[c].creator
    ensures Inv(Resumed(d, c))
  {
    ResumeCreates(d, c);
    SameCreators(d, Resumed(d, c));
  }

  lemma CreatorResumes<R>(d: Desk<R>, c: nat)
    requires Inv(d) && Legal(d, Resume(c)) && d.callers[c].creator
    ensures Inv(Resumed(d, c))
  {
    ResumeCreates(d, c);
    SameCreators(d, Resumed(d, c));
    CleanupIsOwn(d, c);
    var d', x := Resumed(d, c), d.callers[c].exec;
    assert Creates(d, c, x);
    forall e | 0 <= e < |d'.execs| && !d'.execs[e].cleaned
      ensures d'.execs[e].key in d'.inflight && d'.inflight[d'.execs[e].key] == e
    {
      assert e != x && !d.execs[e].cleaned;
    }
    assert MapIsUncleaned(d');
  }

  lemma StepKeeps<R>(d: Desk<R>, op: Op<R>)
    requires Inv(d) && Legal(d, op)
    ensures Inv(Step(d, op))
  {
    match op
    case Call(key) => if key in d.inflight { JoinKeeps(d, key); } else { StartKeeps(d, key); }
    case Settle(e, result) => SettleKeeps(d, e, result);
    case Resume(c) => if d.callers[c].creator { CreatorResumes(d, c); } else { JoinerResumes(d, c); }
  }

  /** Over all interleavings of calls, settlements and resumptions. */
  lemma {:induction false} RunKeeps<R>(d: Desk<R>, ops: seq<Op<R>>)
    requires Inv(d) && LegalRun(d, ops)
    ensures Inv(Run(d, ops))
    decreases |ops|
  {
    if ops != [] {
      StepKeeps(d, ops[0]);
      RunKeeps(Step(d, ops[0]), ops[1..]);
    }
  }

  /** Nothing has settled twice, so two callers of one execution are answered alike. */
  lemma SameExecutionSameAnswer<R>(ops: seq<Op<R>>, c: nat, c': nat)
    requires LegalRun(Empty(), ops)
    requires var d := Run(Empty(), ops);
             && c < |d.callers| && c' < |d.callers| && d.callers[c].exec == d.callers[c'].exec
             && d.callers[c].answer.Some? && d.callers[c'].answer.Some?
    ensures var d := Run(Empty(), ops);
            d.callers[c].answer == d.callers[c'].answer && d.callers[c].key == d.callers[c'].key
  {
    RunKeeps(Empty(), ops);
  }

  /** At any moment at most one execution per key is not cleaned up, and the map is exactly those. */
  lemma AtMostOneInFlight<R>(ops: seq<Op<R>>, e: nat, e': nat)
    requires LegalRun(Empty(), ops)
    requires var d := Run(Empty(), ops);
             e < |d.execs| && e' < |d.execs| && !d.execs[e].cleaned && !d.execs[e'].cleaned
                 && d.execs[e].key == d.execs[e'].key
    ensures e == e'
    ensures var d := Run(Empty(), ops); d.execs[e].key in d.inflight && d.inflight[d.execs[e].key] == e
  {
    RunKeeps(Empty(), ops);
  }

  /** Once every caller has been answered the map is empty: no entry leaks. */
  lemma NothingLeaks<R>(ops: seq<Op<R>>)
    requires LegalRun(Empty(), ops) && forall who <- Run(Empty(), ops).callers :: who.answer.Some?
    ensures Run(Empty(), ops).inflight == map[]
  {
    RunKeeps(Empty(), ops);
    var d := Run(Empty(), ops);
    forall e: nat | e < |d.execs| ensures d.execs[e].cleaned {
      assert HasCreator(d, e);
      var c: nat :| Creates(d, c, e);
      assert d.callers[c] in d.callers;
    }
    assert forall k :: k !in d.inflight;
  }

  // -------------------------------------------------------------------- eval run keys

  function Digit(n: nat): char
    requires n < 10
  {
    "0123456789"[n]
  }

  function Decimal(n: nat): (s: string)
    ensures s != [] && ':' !in s
  {
    if n < 10 then [Digit(n)] else Decimal(n / 10) + [Digit(n % 10)]
  }

  lemma {:induction false} DecimalInjective(m: nat, n: nat)
    requires Decimal(m) == Decimal(n)
    ensures m == n
  {
    var a, b := Decimal(m), Decimal(n);
    assert a[|a| - 1] == Digit(m % 10) && b[|b| - 1] == Digit(n % 10);
    assert m % 10 == n % 10;
    assert m >= 10 ==> a[..|a| - 1] == Decimal(m / 10);
    assert n >= 10 ==> b[..|b| - 1] == Decimal(n / 10);
    if m >= 10 && n >= 10 { DecimalInjective(m / 10, n / 10); }
  }

  /** `${skillId}:${evalId}:${skillVersion ?? 0}:${runIndex}` */
  function EvalKey(skillId: string, evalId: string, version: Option<nat>, runIndex: nat): string {
    skillId + ":" + evalId + ":" + Decimal(if version.Some? then version.value else 0) + ":" + Decimal(runIndex)
  }

  /** `${userId}:${skillName.toLowerCase()}`; `lowered` is the name already in lower case. */
  function GenerateKey(userId: string, lowered: string): string { userId + ":" + lowered }

  /** The part after the last colon is the run index, whatever the ids look like. */
  lemma LastFieldDiffers(a: string, x: string, b: string, y: string)
    requires ':' !in x && ':' !in y && a + ":" + x == b + ":" + y
    ensures x == y && a == b
  {
    var s := a + ":" + x;
    assert s[|a|] == ':' && s[|a| + 1..] == x && s[..|a|] == a;
    assert (b + ":" + y)[|b|] == ':' && (b + ":" + y)[|b| + 1..] == y && (b + ":" + y)[..|b|] == b;
    assert forall i | |a| < i < |s| :: s[i] == x[i - |a| - 1] && s[i] in x;
    assert forall i | |b| < i < |s| :: s[i] == y[i - |b| - 1] && s[i] in y;
  }

  /** Keys of different slots differ, and for ids without colons a key names one slot exactly. */
  lemma EvalKeyInjective(s: string, e: string, v: nat, i: nat, s': string, e': string, v': nat, i': nat)
    requires EvalKey(s, e, Some(v), i) == EvalKey(s', e', Some(v'), i')
    ensures i == i' && v == v' && (':' !in e && ':' !in e' ==> e == e' && s == s')
  {
    LastFieldDiffers(s + ":" + e + ":" + Decimal(v), Decimal(i), s' + ":" + e' + ":" + Decimal(v'), Decimal(i'));
    DecimalInjective(i, i');
    LastFieldDiffers(s + ":" + e, Decimal(v), s' + ":" + e', Decimal(v'));
    DecimalInjective(v, v');
    if ':' !in e && ':' !in e' { LastFieldDiffers(s, e, s', e'); }
  }

  lemma EarlyColon(u: string, n: string, u': string, n': string)
    requires u + ":" + n == u' + ":" + n' && |u| < |u'|
    ensures ':' in u'
  {
    assert (u + ":" + n)[|u|] == ':';
    assert (u' + ":" + n')[|u|] == u'[|u|];
  }

  /** The part before the first colon is the user, whatever the skill name looks like. */
  lemma FirstFieldDiffers(u: string, n: string, u': string, n': string)
    requires ':' !in u && ':' !in u' && u + ":" + n == u' + ":" + n'
    ensures u == u' && n == n'
  {
    if |u| < |u'| { EarlyColon(u, n, u', n'); }
    if |u'| < |u| { EarlyColon(u', n', u, n); }
    var k := u + ":" + n;
    assert u == k[..|u|] && u' == k[..|u'|];
    assert n == k[|u| + 1..] && n' == k[|u'| + 1..];
  }

  /** Two users, whose ids hold no colon, never share a generation, nor does one user for two names. */
  lemma UsersNeverShare<R>(ops: seq<Op<R>>, c: nat, c': nat, u: string, n: string, u': string, n': string)
    requires LegalRun(Empty(), ops) && ':' !in u && ':' !in u' && (u != u' || n != n')
    requires var d := Run(Empty(), ops);
             && c < |d.callers| && d.callers[c].key == GenerateKey(u, n)
             && c' < |d.callers| && d.callers[c'].key == GenerateKey(u', n')
    ensures Run(Empty(), ops).callers[c].exec != Run(Empty(), ops).callers[c'].exec
  {
    RunKeeps(Empty(), ops);
    if GenerateKey(u, n) == GenerateKey(u', n') { FirstFieldDiffers(u, n, u', n'); }
  }

  /** Two callers whose slots have different run indices never share an execution: the runs of one
      request are not collapsed into one. */
  lemma SlotsNeverShare<R>(ops: seq<Op<R>>, c: nat, c': nat, s: string, e: string, v: nat, i: nat, s': string,
      e': string, v': nat, i': nat)
    requires LegalRun(Empty(), ops) && i != i'
    requires var d := Run(Empty(), ops);
             && c < |d.callers| && d.callers[c].key == EvalKey(s, e, Some(v), i)
             && c' < |d.callers| && d.callers[c'].key == EvalKey(s', e', Some(v'), i')
    ensures Run(Empty(), ops).callers[c].exec != Run(Empty(), ops).callers[c'].exec
  {
    RunKeeps(Empty(), ops);
    if EvalKey(s, e, Some(v), i) == EvalKey(s', e', Some(v'), i') { EvalKeyInjective(s, e, v, i, s', e', v', i'); }
  }

  // ------------------------------------------------------------------------ the service

  /** The map and its callers as an object; `execs` and `callers` stand for the promises. */
  class InflightMap<R> {
    var inflight: map<string, nat>
    var execs: seq<Execution<R>>
    var callers: seq<Caller<R>>

    ghost function State(): Desk<R>
      reads this
    {
      Desk(inflight, execs, callers)
    }

    constructor ()
      ensures State() == Empty()
    {
      inflight, execs, callers := map[], [], [];
    }

    /** From the call to its first await; returns the caller's ticket. */
    method Request(dedupKey: string) returns (caller: nat)
      modifies this
      ensures caller == |old(callers)| && State() == Called(old(State()), dedupKey)
    {
      caller := |callers|;
      if dedupKey in inflight {
        callers := callers + [Caller(dedupKey, inflight[dedupKey], false, None)];
        return;
      }
      execs := execs + [Execution(dedupKey, None, false)];
      inflight := inflight[dedupKey := |execs| - 1];
      callers := callers + [Caller(dedupKey, |execs| - 1, true, None)];
    }

    method ExecutionSettles(exec: nat, result: R)
      requires Legal(State(), Settle(exec, result))
      modifies this`execs
      ensures State() == Settled(old(State()), exec, result)
    {
      execs := execs[exec := execs[exec].(settled := Some(result))];
    }

    /** After the await: the creator's `finally` deletes the key. */
    method CallerResumes(caller: nat)
      requires Legal(State(), Resume(caller))
      modifies this
      ensures State() == Resumed(old(State()), caller)
    {
      var who := callers[caller];
      callers := callers[caller := who.(answer := execs[who.exec].settled)];
      if who.creator {
        inflight := inflight - {who.key};
        execs := execs[who.exec := execs[who.exec].(cleaned := true)];
      }
    }
  }
}
