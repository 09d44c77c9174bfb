/** Slugs: the chain of replacements that turns a skill name into a slug
    (packages/cli/src/lib/slugify.ts). Section markers embed slugs, so what `ToSlug` can
    emit decides whether one marker can be mistaken for another. */
module Slugs {
  import Text

  /** The characters matched by `\s`, which are also those removed by `trim` and `trimEnd`. */
  predicate IsSpace(c: char) {
    '\t' <= c <= '\r' || c == ' ' || c == '\U{A0}' || c == '\U{1680}' ||
    '\U{2000}' <= c <= '\U{200A}' || c == '\U{2028}' || c == '\U{2029}' ||
    c == '\U{202F}' || c == '\U{205F}' || c == '\U{3000}' || c == '\U{FEFF}'
  }

  predicate IsSlugChar(c: char) {
    'a' <= c <= 'z' || '0' <= c <= '9' || c == '-'
  }

  /** Lower-casing, up to characters that the later steps delete. The Kelvin sign and the
      dotted capital I are the only characters outside ASCII whose lower case has an ASCII letter. */
  function LowerChar(c: char): char {
    if c == '\U{212A}' then 'k'
    else if c == '\U{0130}' then 'i'
    else Text.LowerAscii(c)
  }

  function ToLower(s: string): (r: string) {
    if s == "" then "" else [LowerChar(s[0])] + ToLower(s[1..])
  }

  function SkipSpaces(s: string): (r: string)
    ensures |r| <= |s|
  {
    if s != "" && IsSpace(s[0]) then SkipSpaces(s[1..]) else s
  }

  /** Each run of whitespace becomes one dash. */
  function DashSpaces(s: string): (r: string)
    decreases |s|
  {
    if s == "" then ""
    else if IsSpace(s[0]) then "-" + DashSpaces(SkipSpaces(s[1..]))
    else [s[0]] + DashSpaces(s[1..])
  }

  function KeepSlugChars(s: string): (r: string)
    ensures forall c <- r :: IsSlugChar(c)
  {
    if s == "" then ""
    else if IsSlugChar(s[0]) then [s[0]] + KeepSlugChars(s[1..])
    else KeepSlugChars(s[1..])
  }

  function SkipDashes(s: string): (r: string)
    ensures |r| <= |s|
    ensures r != "" ==> r[0] != '-'
    ensures forall c <- r :: c in s
  {
    if s != "" && s[0] == '-' then SkipDashes(s[1..]) else s
  }

  /** Each run of dashes becomes one dash. */
  function CollapseDashes(s: string): (r: string)
    ensures forall c <- r :: c in s
    ensures NoDoubleDash(r)
    ensures r != "" <==> s != ""
    ensures r != "" ==> r[0] == s[0]
    decreases |s|
  {
    if s == "" then ""
    else if s[0] == '-' then "-" + CollapseDashes(SkipDashes(s[1..]))
    else [s[0]] + CollapseDashes(s[1..])
  }

  /** One dash is removed from each end. */
  function TrimDashes(s: string): (r: string) {
    var t := if s != "" && s[0] == '-' then s[1..] else s;
    if t != "" && t[|t| - 1] == '-' then t[..|t| - 1] else t
  }

  function ToSlug(name: string): (r: string) {
    TrimDashes(CollapseDashes(KeepSlugChars(DashSpaces(ToLower(name)))))
  }

  predicate NoDoubleDash(s: string) {
    forall i | 0 < i < |s| :: s[i - 1] != '-' || s[i] != '-'
  }

  /** The shape every slug has. */
  predicate Canonical(s: string) {
    && (forall c <- s :: IsSlugChar(c))
    && NoDoubleDash(s)
    && (s != "" ==> s[0] != '-' && s[|s| - 1] != '-')
  }

  lemma SlugIsCanonical(name: string)
    ensures Canonical(ToSlug(name))
  {
    var kept := KeepSlugChars(DashSpaces(ToLower(name)));
    var s := CollapseDashes(kept);
    var t := if s != "" && s[0] == '-' then s[1..] else s;
    assert forall c <- s :: IsSlugChar(c);
    assert NoDoubleDash(t);
    assert t != "" ==> t[0] != '-';
  }

  lemma {:induction false} LowerFixes(s: string)
    requires forall c <- s :: IsSlugChar(c)
    ensures ToLower(s) == s
  {
    if s != "" {
      LowerFixes(s[1..]);
      assert s[0] in s;
    }
  }

  lemma {:induction false} DashSpacesFixes(s: string)
    requires forall c <- s :: IsSlugChar(c)
    ensures DashSpaces(s) == s
  {
    if s != "" {
      assert s[0] in s;
      DashSpacesFixes(s[1..]);
    }
  }

  lemma {:induction false} KeepFixes(s: string)
    requires forall c <- s :: IsSlugChar(c)
    ensures KeepSlugChars(s) == s
  {
    if s != "" {
      assert s[0] in s;
      KeepFixes(s[1..]);
    }
  }

  lemma {:induction false} CollapseFixes(s: string)
    requires NoDoubleDash(s)
    ensures CollapseDashes(s) == s
  {
    if s != "" {
      CollapseFixes(s[1..]);
    }
  }

  /** The fixed points of `ToSlug` are exactly the canonical slugs. */
  lemma SlugFixedPoints(s: string)
    ensures ToSlug(s) == s <==> Canonical(s)
  {
    SlugIsCanonical(s);
    if Canonical(s) {
      LowerFixes(s);
      DashSpacesFixes(s);
      KeepFixes(s);
      CollapseFixes(s);
    }
  }

  lemma SlugIdempotent(name: string)
    ensures ToSlug(ToSlug(name)) == ToSlug(name)
  {
    SlugIsCanonical(name);
    SlugFixedPoints(ToSlug(name));
  }

  // -------------------------------------------------------------- a one-pass reading of slugs

  predicate Separates(c: char) { IsSpace(c) || c == '-' }

  /** What a slug is, read in one pass: the lower-cased letters and digits in order, with one dash
      between two of them wherever whitespace or a dash came in between. */
  function Scan(s: string, started: bool, pending: bool): string {
    if s == "" then ""
    else
      var c := LowerChar(s[0]);
      if Separates(c) then Scan(s[1..], started, true)
      else if IsSlugChar(c) then (if started && pending then "-" else "") + [c] + Scan(s[1..], true, false)
      else Scan(s[1..], started, pending)
  }

  /** Every separator as a dash, every other foreign character dropped. */
  function Dashed(s: string): string {
    if s == "" then ""
    else (if Separates(s[0]) then "-" else if IsSlugChar(s[0]) then [s[0]] else "") + Dashed(s[1..])
  }

  function Kept(s: string): string { KeepSlugChars(DashSpaces(s)) }

  lemma CollapsePair(x: string)
    ensures CollapseDashes("--" + x) == CollapseDashes("-" + x)
  {
    assert ("--" + x)[1..] == "-" + x && ("-" + x)[1..] == x;
  }

  lemma KeptStep(s: string)
    requires s != ""
    ensures IsSpace(s[0]) ==> Kept(s) == "-" + Kept(SkipSpaces(s[1..]))
    ensures !IsSpace(s[0]) ==> Kept(s) == (if IsSlugChar(s[0]) then [s[0]] else "") + Kept(s[1..])
  {
    var rest := if IsSpace(s[0]) then DashSpaces(SkipSpaces(s[1..])) else DashSpaces(s[1..]);
    var c := if IsSpace(s[0]) then '-' else s[0];
    assert ([c] + rest)[1..] == rest;
  }

  lemma {:induction false} SkippedSpaces(s: string)
    ensures CollapseDashes("-" + Kept(SkipSpaces(s))) == CollapseDashes("-" + Kept(s))
  {
    if s != "" && IsSpace(s[0]) {
      SkippedSpaces(s[1..]);
      KeptStep(s);
      CollapsePair(Kept(SkipSpaces(s[1..])));
      assert "-" + ("-" + Kept(SkipSpaces(s[1..]))) == "--" + Kept(SkipSpaces(s[1..]));
    }
  }

  lemma CollapseHead(c: char, x: string, y: string)
    requires CollapseDashes(x) == CollapseDashes(y) && CollapseDashes("-" + x) == CollapseDashes("-" + y)
    ensures CollapseDashes([c] + x) == CollapseDashes([c] + y)
  {
    assert ([c] + x)[1..] == x && ([c] + y)[1..] == y;
  }

  lemma CollapseDashHead(x: string, y: string)
    requires CollapseDashes("-" + x) == CollapseDashes("-" + y)
    ensures CollapseDashes("-" + ("-" + x)) == CollapseDashes("-" + ("-" + y))
  {
    CollapsePair(x);
    CollapsePair(y);
    assert "-" + ("-" + x) == "--" + x && "-" + ("-" + y) == "--" + y;
  }

  lemma CollapseCharHead(c: char, x: string, y: string)
    requires c != '-' && CollapseDashes(x) == CollapseDashes(y)
    ensures CollapseDashes("-" + ([c] + x)) == CollapseDashes("-" + ([c] + y))
  {
    assert ("-" + ([c] + x))[1..] == [c] + x && ("-" + ([c] + y))[1..] == [c] + y;
    assert ([c] + x)[1..] == x && ([c] + y)[1..] == y;
  }

  /** Collapsing dashes hides whether a run of spaces gave one dash or several. */
  lemma {:induction false} KeptLikeDashed(s: string)
    ensures CollapseDashes(Kept(s)) == CollapseDashes(Dashed(s))
    ensures CollapseDashes("-" + Kept(s)) == CollapseDashes("-" + Dashed(s))
  {
    if s != "" {
      KeptLikeDashed(s[1..]);
      KeptStep(s);
      var k, d := Kept(s[1..]), Dashed(s[1..]);
      if IsSpace(s[0]) {
        SkippedSpaces(s[1..]);
        CollapseDashHead(Kept(SkipSpaces(s[1..])), d);
      } else if s[0] == '-' {
        CollapseHead('-', k, d);
        CollapseDashHead(k, d);
      } else if IsSlugChar(s[0]) {
        CollapseHead(s[0], k, d);
        CollapseCharHead(s[0], k, d);
      } else {
        assert "" + k == k && "" + d == d;
      }
    }
  }

  function DropLastDash(s: string): string { if s != "" && s[|s| - 1] == '-' then s[..|s| - 1] else s }

  function DropFirstDash(s: string): string { if s != "" && s[0] == '-' then s[1..] else s }

  /** `Scan` on texts that are lower-cased and dashed already. */
  function Joined(t: string, started: bool, pending: bool): string {
    if t == "" then ""
    else if t[0] == '-' then Joined(t[1..], started, true)
    else (if started && pending then "-" else "") + [t[0]] + Joined(t[1..], true, false)
  }

  lemma DropLastCons(c: char, x: string)
    requires c != '-'
    ensures DropLastDash([c] + x) == [c] + DropLastDash(x)
        && DropLastDash("-" + ([c] + x)) == "-" + ([c] + DropLastDash(x))
  {
  }

  lemma CollapseCons(c: char, x: string)
    requires c != '-'
    ensures CollapseDashes([c] + x) == [c] + CollapseDashes(x)
    ensures CollapseDashes("-" + ([c] + x)) == "-" + ([c] + CollapseDashes(x))
  {
    assert ([c] + x)[1..] == x && ("-" + ([c] + x))[1..] == [c] + x;
  }

  ghost predicate JoinsRest(t: string) {
    && Joined(t, true, false) == DropLastDash(CollapseDashes(t))
    && Joined(t, true, true) == DropLastDash(CollapseDashes("-" + t))
  }

  lemma JoinsRestDash(x: string)
    requires JoinsRest(x)
    ensures JoinsRest("-" + x)
  {
    assert ("-" + x)[1..] == x;
    CollapsePair(x);
    assert "-" + ("-" + x) == "--" + x;
  }

  lemma JoinsRestChar(c: char, x: string)
    requires JoinsRest(x) && c != '-'
    ensures JoinsRest([c] + x)
  {
    assert ([c] + x)[1..] == x;
    var rest := CollapseDashes(x);
    CollapseCons(c, x);
    DropLastCons(c, rest);
    assert Joined([c] + x, true, true) == "-" + [c] + Joined(x, true, false);
    assert "-" + [c] + DropLastDash(rest) == "-" + ([c] + DropLastDash(rest));
  }

  lemma {:induction false} JoinedOnceStarted(t: string)
    ensures Joined(t, true, false) == DropLastDash(CollapseDashes(t))
    ensures Joined(t, true, true) == DropLastDash(CollapseDashes("-" + t))
  {
    if t == "" {
      assert "-" + t == "-";
    } else {
      JoinedOnceStarted(t[1..]);
      assert t == [t[0]] + t[1..];
      if t[0] == '-' {
        JoinsRestDash(t[1..]);
      } else {
        JoinsRestChar(t[0], t[1..]);
      }
    }
  }

  lemma {:induction false} JoinedFromStart(t: string, pending: bool)
    ensures Joined(t, false, pending) == DropLastDash(DropFirstDash(CollapseDashes(t)))
  {
    if t != "" {
      if t[0] == '-' {
        JoinedFromStart(t[1..], true);
        SkippedDash(t[1..]);
      } else {
        JoinedOnceStarted(t[1..]);
        DropLastCons(t[0], CollapseDashes(t[1..]));
      }
    }
  }

  lemma SkippedDash(t: string)
    ensures DropFirstDash(CollapseDashes(t)) == CollapseDashes(SkipDashes(t))
  {
  }

  lemma {:induction false} ScanIsJoined(s: string, started: bool, pending: bool)
    ensures Scan(s, started, pending) == Joined(Dashed(ToLower(s)), started, pending)
  {
    if s != "" {
      var c, low := LowerChar(s[0]), ToLower(s[1..]);
      assert ToLower(s)[1..] == low;
      var d := Dashed(low);
      if Separates(c) {
        assert ("-" + d)[1..] == d;
        ScanIsJoined(s[1..], started, true);
      } else if IsSlugChar(c) {
        assert ([c] + d)[1..] == d;
        ScanIsJoined(s[1..], true, false);
      } else {
        assert "" + d == d;
        ScanIsJoined(s[1..], started, pending);
      }
    }
  }

  /** The chain of five replacements computes the one-pass reading. */
  lemma SlugIsScan(name: string)
    ensures ToSlug(name) == Scan(name, false, false)
  {
    KeptLikeDashed(ToLower(name));
    ScanIsJoined(name, false, false);
    JoinedFromStart(Dashed(ToLower(name)), false);
  }
}
