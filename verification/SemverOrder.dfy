/** The agent's version comparison is a total preorder, coincides with section 11 of
    Semantic Versioning 2.0.0 on numbers of 64 bits, and agrees with the publisher's key. */
module SemverOrder {
  import opened Text
  import opened Semver

  // ---- the comparison

  function Sign(a: int, b: int): int { if a > b then 1 else if a < b then -1 else 0 }

  function CompareIdent(x: string, y: string): int {
    if x == y then 0
    else if Fits(x) && Fits(y) then (if Value(x) > Value(y) then 1 else -1)
    else if Fits(x) then -1
    else if Fits(y) then 1
    else if StrLess(y, x) then 1 else -1
  }

  function CompareIdents(x: seq<string>, y: seq<string>): int {
    if x == [] then (if y == [] then 0 else -1)
    else if y == [] then 1
    else
      var c := CompareIdent(x[0], y[0]);
      if c != 0 then c else CompareIdents(x[1..], y[1..])
  }

  function ComparePre(a: string, b: string): int {
    if a == "" || b == "" then (if a == b then 0 else if a == "" then 1 else -1)
    else CompareIdents(Split(a, '.'), Split(b, '.'))
  }

  /** The first sign that is not zero. */
  function Then(first: int, second: int): int { if first != 0 then first else second }

  function CompareNumber(a: string, b: string): int
    requires Fits(a) && Fits(b)
  {
    Sign(Value(a), Value(b))
  }

  function CompareVersions(a: Version, b: Version): int
    requires CoreFits(a) && CoreFits(b)
  {
    Then(CompareNumber(a.major, b.major),
         Then(CompareNumber(a.minor, b.minor), Then(CompareNumber(a.patch, b.patch), ComparePre(a.pre, b.pre))))
  }

  /** Unreadable versions compare equal to everything. */
  function Compare(left: string, right: string): int {
    var a, b := Parse(left), Parse(right);
    if a.None? || b.None? then 0 else CompareVersions(a.value, b.value)
  }

  // ---- signs

  /** The three-way results for a pair, its reverse and a chain of two. */
  ghost predicate Reversed(ab: int, ba: int) { -1 <= ab <= 1 && ba == -ab }

  ghost predicate Chained(ab: int, bc: int, ac: int) {
    ab <= 0 && bc <= 0 ==> ac <= 0 && (ac == 0 <==> ab == 0 && bc == 0)
  }

  lemma ThenChained(ab: int, bc: int, ac: int, ab2: int, bc2: int, ac2: int)
    requires Chained(ab, bc, ac) && (ab == 0 && bc == 0 ==> Chained(ab2, bc2, ac2))
    ensures Chained(Then(ab, ab2), Then(bc, bc2), Then(ac, ac2))
  {
  }

  // ---- identifiers

  /** An identifier that does not pad a number of 64 bits. */
  predicate Plain(x: string) { Fits(x) ==> Numeric(x) }

  predicate AllPlain(x: seq<string>) { forall i :: 0 <= i < |x| ==> Plain(x[i]) }

  lemma IdentReversed(x: string, y: string)
    requires Plain(x) && Plain(y)
    ensures Reversed(CompareIdent(x, y), CompareIdent(y, x))
    ensures CompareIdent(x, y) == 0 <==> x == y
  {
    StrLessTotal(x, y);
    if Fits(x) && Fits(y) && Value(x) == Value(y) {
      ValueInjective(x, y);
    }
  }

  lemma IdentChained(x: string, y: string, z: string)
    requires Plain(x) && Plain(y) && Plain(z)
    ensures Chained(CompareIdent(x, y), CompareIdent(y, z), CompareIdent(x, z))
  {
    IdentReversed(x, y);
    IdentReversed(y, z);
    IdentReversed(x, z);
    StrLessTotal(x, y);
    StrLessTotal(y, z);
    StrLessTotal(x, z);
    if StrLess(z, x) {
      StrLessSplits(z, y, x);
    }
  }

  lemma {:induction false} IdentsReversed(x: seq<string>, y: seq<string>)
    requires AllPlain(x) && AllPlain(y)
    ensures Reversed(CompareIdents(x, y), CompareIdents(y, x))
    ensures CompareIdents(x, y) == 0 <==> x == y
  {
    if x != [] && y != [] {
      IdentReversed(x[0], y[0]);
      IdentsReversed(x[1..], y[1..]);
      assert x == [x[0]] + x[1..] && y == [y[0]] + y[1..];
    }
  }

  lemma {:induction false} IdentsChained(x: seq<string>, y: seq<string>, z: seq<string>)
    requires AllPlain(x) && AllPlain(y) && AllPlain(z)
    ensures Chained(CompareIdents(x, y), CompareIdents(y, z), CompareIdents(x, z))
  {
    if x != [] && y != [] && z != [] {
      IdentChained(x[0], y[0], z[0]);
      IdentsChained(x[1..], y[1..], z[1..]);
      ThenChained(CompareIdent(x[0], y[0]), CompareIdent(y[0], z[0]), CompareIdent(x[0], z[0]),
                  CompareIdents(x[1..], y[1..]), CompareIdents(y[1..], z[1..]), CompareIdents(x[1..], z[1..]));
    }
  }

  lemma AcceptedPlain(v: Version)
    requires Accepted(v)
    ensures AllPlain(Split(v.pre, '.'))
  {
  }

  lemma SplitInjective(a: string, b: string)
    requires Split(a, '.') == Split(b, '.')
    ensures a == b
  {
    JoinSplit(a, '.');
    JoinSplit(b, '.');
  }

  lemma PreReversed(a: Version, b: Version)
    requires Accepted(a) && Accepted(b)
    ensures Reversed(ComparePre(a.pre, b.pre), ComparePre(b.pre, a.pre))
    ensures ComparePre(a.pre, b.pre) == 0 <==> a.pre == b.pre
  {
    AcceptedPlain(a);
    AcceptedPlain(b);
    IdentsReversed(Split(a.pre, '.'), Split(b.pre, '.'));
    if Split(a.pre, '.') == Split(b.pre, '.') {
      SplitInjective(a.pre, b.pre);
    }
  }

  lemma PreChained(a: Version, b: Version, c: Version)
    requires Accepted(a) && Accepted(b) && Accepted(c)
    ensures Chained(ComparePre(a.pre, b.pre), ComparePre(b.pre, c.pre), ComparePre(a.pre, c.pre))
  {
    AcceptedPlain(a);
    AcceptedPlain(b);
    AcceptedPlain(c);
    IdentsChained(Split(a.pre, '.'), Split(b.pre, '.'), Split(c.pre, '.'));
  }

  // ---- versions

  lemma NumberReversed(a: string, b: string)
    requires Numeric(a) && Numeric(b) && Fits(a) && Fits(b)
    ensures Reversed(CompareNumber(a, b), CompareNumber(b, a))
    ensures CompareNumber(a, b) == 0 <==> a == b
  {
    if Value(a) == Value(b) {
      ValueInjective(a, b);
    }
  }

  lemma VersionsReversed(a: Version, b: Version)
    requires Accepted(a) && Accepted(b)
    ensures Reversed(CompareVersions(a, b), CompareVersions(b, a))
    ensures CompareVersions(a, b) == 0 <==> a == b
  {
    NumberReversed(a.major, b.major);
    NumberReversed(a.minor, b.minor);
    NumberReversed(a.patch, b.patch);
    PreReversed(a, b);
  }

  lemma NumberChained(a: string, b: string, c: string)
    requires Fits(a) && Fits(b) && Fits(c)
    ensures Chained(CompareNumber(a, b), CompareNumber(b, c), CompareNumber(a, c))
  {
  }

  lemma PatchChained(a: Version, b: Version, c: Version)
    requires Accepted(a) && Accepted(b) && Accepted(c)
    ensures Chained(Then(CompareNumber(a.patch, b.patch), ComparePre(a.pre, b.pre)),
                    Then(CompareNumber(b.patch, c.patch), ComparePre(b.pre, c.pre)),
                    Then(CompareNumber(a.patch, c.patch), ComparePre(a.pre, c.pre)))
  {
    PreChained(a, b, c);
    NumberChained(a.patch, b.patch, c.patch);
    ThenChained(CompareNumber(a.patch, b.patch), CompareNumber(b.patch, c.patch), CompareNumber(a.patch, c.patch),
                ComparePre(a.pre, b.pre), ComparePre(b.pre, c.pre), ComparePre(a.pre, c.pre));
  }

  lemma VersionsChained(a: Version, b: Version, c: Version)
    requires Accepted(a) && Accepted(b) && Accepted(c)
    ensures Chained(CompareVersions(a, b), CompareVersions(b, c), CompareVersions(a, c))
  {
    PatchChained(a, b, c);
    NumberChained(a.major, b.major, c.major);
    NumberChained(a.minor, b.minor, c.minor);
  }

  lemma ParsedAccepted(s: string)
    requires Parse(s).Some?
    ensures Accepted(Parse(s).value)
  {
    var _, _ := ReadIsWritten(s);
  }

  /** On accepted versions the comparison is antisymmetric, and zero exactly when core
      and prerelease coincide. */
  lemma CompareReversed(s: string, t: string)
    requires Parse(s).Some? && Parse(t).Some?
    ensures -1 <= Compare(s, t) <= 1 && Compare(t, s) == -Compare(s, t)
    ensures Compare(s, t) == 0 <==> Parse(s) == Parse(t)
  {
    ParsedAccepted(s);
    ParsedAccepted(t);
    VersionsReversed(Parse(s).value, Parse(t).value);
  }

  /** On accepted versions the comparison is transitive, strictly when a step is. */
  lemma CompareTransitive(s: string, t: string, u: string)
    requires Parse(s).Some? && Parse(t).Some? && Parse(u).Some?
    requires Compare(s, t) <= 0 && Compare(t, u) <= 0
    ensures Compare(s, u) <= 0
    ensures Compare(s, u) == 0 <==> Compare(s, t) == 0 && Compare(t, u) == 0
  {
    ParsedAccepted(s);
    ParsedAccepted(t);
    ParsedAccepted(u);
    VersionsChained(Parse(s).value, Parse(t).value, Parse(u).value);
  }

  // ---- section 11 of Semantic Versioning 2.0.0

  /** Numeric identifiers rank below the others; numbers by value, the rest as text. */
  predicate IdentBelow(x: string, y: string) {
    if AllDigits(x) && AllDigits(y) then Value(x) < Value(y)
    else if AllDigits(x) || AllDigits(y) then AllDigits(x)
    else StrLess(x, y)
  }

  /** At the first difference the lower identifier decides; with none, the shorter list. */
  ghost predicate IdentsBelow(x: seq<string>, y: seq<string>) {
    exists n :: 0 <= n <= |x| && n <= |y| && x[..n] == y[..n] && BelowAt(x, y, n)
  }

  predicate BelowAt(x: seq<string>, y: seq<string>, n: nat)
    requires n <= |x| && n <= |y|
  {
    n < |y| && (n == |x| || IdentBelow(x[n], y[n]))
  }

  ghost predicate PreBelow(a: string, b: string) {
    if a == "" || b == "" then a != "" else IdentsBelow(Split(a, '.'), Split(b, '.'))
  }

  /** Major, minor and patch numerically, then a prerelease below the release. */
  ghost predicate Below(a: Version, b: Version)
    requires CoreFits(a) && CoreFits(b)
  {
    || Value(a.major) < Value(b.major)
    || (Value(a.major) == Value(b.major) && Value(a.minor) < Value(b.minor))
    || (Value(a.major) == Value(b.major) && Value(a.minor) == Value(b.minor) && Value(a.patch) < Value(b.patch))
    || (Value(a.major) == Value(b.major) && Value(a.minor) == Value(b.minor) && Value(a.patch) == Value(b.patch)
        && PreBelow(a.pre, b.pre))
  }

  /** Both are compared as text although at least one is a number, and the text order is
      not the numeric one. */
  predicate Misranked(x: string, y: string) {
    && x != y && !Fits(x) && !Fits(y)
    && if AllDigits(x) && AllDigits(y) then (Value(x) < Value(y)) != StrLess(x, y)
       else (AllDigits(x) && StrLess(y, x)) || (AllDigits(y) && StrLess(x, y))
  }

  /** The first difference is misranked. */
  ghost predicate ListsMisranked(x: seq<string>, y: seq<string>) {
    exists n :: 0 <= n < |x| && n < |y| && x[..n] == y[..n] && Misranked(x[n], y[n])
  }

  lemma IdentBelowIff(x: string, y: string)
    requires Plain(x) && Plain(y)
    ensures (CompareIdent(x, y) < 0 <==> IdentBelow(x, y)) <==> !Misranked(x, y)
  {
    IdentReversed(x, y);
    StrLessTotal(x, y);
  }

  lemma SamePrefix(x: seq<string>, y: seq<string>, n: nat)
    requires x != [] && y != [] && x[0] == y[0] && n < |x| && n < |y|
    ensures x[..n + 1] == y[..n + 1] <==> x[1..][..n] == y[1..][..n]
  {
    assert x[..n + 1] == [x[0]] + x[1..][..n] && y[..n + 1] == [y[0]] + y[1..][..n];
    assert x[1..][..n] == x[..n + 1][1..] && y[1..][..n] == y[..n + 1][1..];
  }

  lemma MisrankedDrop(x: seq<string>, y: seq<string>)
    requires x != [] && y != [] && x[0] == y[0] && ListsMisranked(x, y)
    ensures ListsMisranked(x[1..], y[1..])
  {
    var n :| 0 <= n < |x| && n < |y| && x[..n] == y[..n] && Misranked(x[n], y[n]);
    SamePrefix(x, y, n - 1);
    assert Misranked(x[1..][n - 1], y[1..][n - 1]);
  }

  lemma MisrankedCons(x: seq<string>, y: seq<string>)
    requires x != [] && y != [] && x[0] == y[0] && ListsMisranked(x[1..], y[1..])
    ensures ListsMisranked(x, y)
  {
    var n :| 0 <= n < |x[1..]| && n < |y[1..]| && x[1..][..n] == y[1..][..n] && Misranked(x[1..][n], y[1..][n]);
    SamePrefix(x, y, n);
    assert Misranked(x[n + 1], y[n + 1]);
  }

  lemma MisrankedTail(x: seq<string>, y: seq<string>)
    requires x != [] && y != [] && x[0] == y[0]
    ensures ListsMisranked(x, y) <==> ListsMisranked(x[1..], y[1..])
  {
    if ListsMisranked(x, y) {
      MisrankedDrop(x, y);
    }
    if ListsMisranked(x[1..], y[1..]) {
      MisrankedCons(x, y);
    }
  }

  lemma MisrankedHead(x: seq<string>, y: seq<string>)
    requires x == [] || y == [] || x[0] != y[0]
    ensures ListsMisranked(x, y) <==> x != [] && y != [] && Misranked(x[0], y[0])
  {
    if x != [] && y != [] && Misranked(x[0], y[0]) {
      assert x[..0] == y[..0];
    }
  }

  lemma BelowSnoc(x: seq<string>, y: seq<string>)
    requires x != [] && y != [] && x[0] == y[0]
    ensures IdentsBelow(x, y) <==> IdentsBelow(x[1..], y[1..])
  {
    if IdentsBelow(x, y) {
      var n :| 0 <= n <= |x| && n <= |y| && x[..n] == y[..n] && BelowAt(x, y, n);
      assert n > 0 by {
        if n == 0 { StrLessTotal(x[0], y[0]); }
      }
      SamePrefix(x, y, n - 1);
      assert BelowAt(x[1..], y[1..], n - 1);
    }
    if IdentsBelow(x[1..], y[1..]) {
      var n :| 0 <= n <= |x[1..]| && n <= |y[1..]| && x[1..][..n] == y[1..][..n] && BelowAt(x[1..], y[1..], n);
      SamePrefix(x, y, n);
      assert BelowAt(x, y, n + 1);
    }
  }

  lemma BelowHead(x: seq<string>, y: seq<string>)
    requires x == [] || y == [] || x[0] != y[0]
    ensures IdentsBelow(x, y) <==> BelowAt(x, y, 0)
  {
    if BelowAt(x, y, 0) {
      assert x[..0] == y[..0];
    }
  }

  lemma {:induction false} IdentsBelowIff(x: seq<string>, y: seq<string>)
    requires AllPlain(x) && AllPlain(y)
    ensures (CompareIdents(x, y) < 0 <==> IdentsBelow(x, y)) <==> !ListsMisranked(x, y)
  {
    if x != [] && y != [] && x[0] == y[0] {
      BelowSnoc(x, y);
      MisrankedTail(x, y);
      IdentsBelowIff(x[1..], y[1..]);
    } else {
      BelowHead(x, y);
      MisrankedHead(x, y);
      if x != [] && y != [] {
        IdentBelowIff(x[0], y[0]);
        IdentReversed(x[0], y[0]);
      }
    }
  }

  predicate SameCore(a: Version, b: Version) { a.major == b.major && a.minor == b.minor && a.patch == b.patch }

  ghost predicate VersionsMisranked(a: Version, b: Version) {
    SameCore(a, b) && a.pre != "" && b.pre != "" && ListsMisranked(Split(a.pre, '.'), Split(b.pre, '.'))
  }

  lemma VersionsBelowIff(a: Version, b: Version)
    requires Accepted(a) && Accepted(b)
    ensures (CompareVersions(a, b) < 0 <==> Below(a, b)) <==> !VersionsMisranked(a, b)
  {
    AcceptedPlain(a);
    AcceptedPlain(b);
    IdentsBelowIff(Split(a.pre, '.'), Split(b.pre, '.'));
    NumberReversed(a.major, b.major);
    NumberReversed(a.minor, b.minor);
    NumberReversed(a.patch, b.patch);
  }

  /** Comparing is section 11's precedence exactly unless two versions of the same core
      first differ in identifiers that overflow 64 bits and are misranked as text. */
  lemma ComparesAsSpecifiedIff(s: string, t: string)
    requires Parse(s).Some? && Parse(t).Some?
    ensures (Compare(s, t) < 0 <==> Below(Parse(s).value, Parse(t).value)) <==>
            !VersionsMisranked(Parse(s).value, Parse(t).value)
  {
    ParsedAccepted(s);
    ParsedAccepted(t);
    VersionsBelowIff(Parse(s).value, Parse(t).value);
  }

  /** Every all-digit identifier fits in 64 bits. */
  predicate Small(x: string) { AllDigits(x) ==> Fits(x) }

  predicate AllSmall(x: seq<string>) { forall i :: 0 <= i < |x| ==> Small(x[i]) }

  lemma SmallRanked(a: Version, b: Version)
    requires AllSmall(Split(a.pre, '.')) && AllSmall(Split(b.pre, '.'))
    ensures !VersionsMisranked(a, b)
  {
    forall i, j | 0 <= i < |Split(a.pre, '.')| && 0 <= j < |Split(b.pre, '.')|
      ensures !Misranked(Split(a.pre, '.')[i], Split(b.pre, '.')[j])
    {
    }
  }

  /** When all numbers fit in 64 bits, comparing is section 11's precedence. */
  lemma ComparesAsSpecified(s: string, t: string)
    requires Parse(s).Some? && Parse(t).Some?
    requires AllSmall(Split(Parse(s).value.pre, '.')) && AllSmall(Split(Parse(t).value.pre, '.'))
    ensures Compare(s, t) < 0 <==> Below(Parse(s).value, Parse(t).value)
    ensures Compare(s, t) > 0 <==> Below(Parse(t).value, Parse(s).value)
  {
    ComparesAsSpecifiedIff(s, t);
    ComparesAsSpecifiedIff(t, s);
    SmallRanked(Parse(s).value, Parse(t).value);
    SmallRanked(Parse(t).value, Parse(s).value);
    CompareReversed(s, t);
  }

  // ---- a number that does not fit

  const NINES: string := seq(21, _ => '9')
  const ONE_ZEROS: string := ['1'] + seq(21, _ => '0')

  lemma Oversized(x: string)
    requires AllDigits(x) && x[0] != '0' && |x| > 20
    ensures !Fits(x)
  {
    ValueSize(x);
    PowMono(20, |x| - 1);
    PowAdd(10, 10);
    PowAdd(5, 5);
    assert Pow10(5) == 100_000;
  }

  lemma {:induction false} PowMono(m: nat, n: nat)
    requires m <= n
    ensures Pow10(m) <= Pow10(n)
  {
    if m < n {
      PowMono(m, n - 1);
    }
  }

  lemma {:induction false} PowAdd(m: nat, n: nat)
    ensures Pow10(m + n) == Pow10(m) * Pow10(n)
  {
    if m > 0 {
      PowAdd(m - 1, n);
    }
  }

  /** Two oversized numbers of different lengths that text order ranks the wrong way. */
  lemma OversizedMisranked()
    ensures Misranked(NINES, ONE_ZEROS)
  {
    Oversized(NINES);
    Oversized(ONE_ZEROS);
    ValueSize(NINES);
    ValueSize(ONE_ZEROS);
    assert NINES[0] == '9' && ONE_ZEROS[0] == '1';
  }

  function Candidate(pre: string): Version { Version("1", "0", "0", pre) }

  lemma CandidateAccepted(pre: string)
    requires Ident(pre) && '.' !in pre && pre[0] != '0'
    ensures Accepted(Candidate(pre)) && Split(pre, '.') == [pre]
  {
    IndexOfLacking(pre, '.', "");
    assert "1"[..0] == "" && "0"[..0] == "";
    assert Value("1") == 1 && Value("0") == 0;
  }

  /** "1.0.0-" with 21 nines is compared above "1.0.0-1" with 21 zeros, although it is the
      smaller number. */
  lemma OverflowBreaksPrecedence() returns (s: string, t: string)
    ensures s == Render(false, Candidate(NINES), None) && t == Render(false, Candidate(ONE_ZEROS), None)
    ensures Parse(s) == Some(Candidate(NINES)) && Parse(t) == Some(Candidate(ONE_ZEROS))
    ensures Compare(s, t) > 0 && Below(Candidate(NINES), Candidate(ONE_ZEROS))
  {
    s, t := Render(false, Candidate(NINES), None), Render(false, Candidate(ONE_ZEROS), None);
    CandidateAccepted(NINES);
    CandidateAccepted(ONE_ZEROS);
    ReadBack(false, Candidate(NINES), None);
    ReadBack(false, Candidate(ONE_ZEROS), None);
    OversizedMisranked();
    MisrankedHead([NINES], [ONE_ZEROS]);
    CompareReversed(s, t);
    ComparesAsSpecifiedIff(s, t);
    TextAbove();
  }

  lemma TextAbove()
    ensures CompareIdents([NINES], [ONE_ZEROS]) > 0
  {
    Oversized(NINES);
    Oversized(ONE_ZEROS);
    assert NINES[0] == '9' && ONE_ZEROS[0] == '1';
    StrLessTotal(NINES, ONE_ZEROS);
  }

  // ---- the publisher's key

  datatype Tag = Num(value: nat) | Word(text: string)
  datatype Key = Key(major: nat, minor: nat, patch: nat, release: bool, tags: seq<Tag>)

  predicate NoEmptyPart(parts: seq<string>) { forall i :: 0 <= i < |parts| ==> parts[i] != "" }

  predicate Loose(o: Option<string>) {
    o.Some? ==> o.value != "" && forall i :: 0 <= i < |o.value| ==> IdentChar(o.value[i]) || o.value[i] == '.'
  }

  predicate PaddedDigits(parts: seq<string>) {
    exists i :: 0 <= i < |parts| && AllDigits(parts[i]) && |parts[i]| > 1 && parts[i][0] == '0'
  }

  function TagOf(x: string): Tag { if AllDigits(x) then Num(Value(x)) else Word(x) }

  function Tags(x: seq<string>): (r: seq<Tag>)
    ensures |r| == |x|
  {
    if x == [] then [] else [TagOf(x[0])] + Tags(x[1..])
  }

  predicate PublisherReads(p: Pieces) {
    && CoreShaped(Split(p.core, '.')) && Loose(p.pre) && Loose(p.build)
    && (p.build.Some? ==> NoEmptyPart(Split(p.build.value, '.')))
    && (p.pre.Some? ==> NoEmptyPart(Split(p.pre.value, '.')) && !PaddedDigits(Split(p.pre.value, '.')))
  }

  function PublisherKey(s: string): Option<Key> {
    var p := Cut(Unprefixed(s));
    if !PublisherReads(p) then None
    else
      var core := Split(p.core, '.');
      Some(Key(Value(core[0]), Value(core[1]), Value(core[2]), p.pre.None?,
               if p.pre.None? then [] else Tags(Split(p.pre.value, '.'))))
  }

  predicate TagLess(a: Tag, b: Tag) {
    match (a, b)
    case (Num(x), Num(y)) => x < y
    case (Word(x), Word(y)) => StrLess(x, y)
    case (Num(_), Word(_)) => true
    case (Word(_), Num(_)) => false
  }

  /** Tuples compare at the first difference. */
  predicate TagsLess(a: seq<Tag>, b: seq<Tag>) {
    if a == [] || b == [] then a == [] && b != []
    else if a[0] == b[0] then TagsLess(a[1..], b[1..])
    else TagLess(a[0], b[0])
  }

  predicate KeyLess(a: Key, b: Key) {
    if a.major != b.major then a.major < b.major
    else if a.minor != b.minor then a.minor < b.minor
    else if a.patch != b.patch then a.patch < b.patch
    else if a.release != b.release then b.release
    else TagsLess(a.tags, b.tags)
  }

  /** No number is written with leading zeros, whatever its size. */
  predicate Unpadded(x: seq<string>) { forall i :: 0 <= i < |x| ==> AllDigits(x[i]) ==> Numeric(x[i]) }

  lemma TagBelow(x: string, y: string)
    requires (AllDigits(x) ==> Numeric(x)) && (AllDigits(y) ==> Numeric(y))
    ensures TagOf(x) == TagOf(y) <==> x == y
    ensures TagLess(TagOf(x), TagOf(y)) <==> IdentBelow(x, y)
  {
    if AllDigits(x) && AllDigits(y) && Value(x) == Value(y) {
      ValueInjective(x, y);
    }
  }

  lemma {:induction false} TagsBelow(x: seq<string>, y: seq<string>)
    requires Unpadded(x) && Unpadded(y)
    ensures TagsLess(Tags(x), Tags(y)) <==> IdentsBelow(x, y)
    ensures Tags(x) == Tags(y) <==> x == y
  {
    if x != [] && y != [] {
      TagBelow(x[0], y[0]);
      TagsBelow(x[1..], y[1..]);
      TagsSplit(x, y);
      if x[0] == y[0] {
        BelowSnoc(x, y);
      } else {
        BelowHead(x, y);
      }
    } else {
      BelowHead(x, y);
    }
  }

  lemma TagsSplit(x: seq<string>, y: seq<string>)
    requires x != [] && y != []
    ensures Tags(x)[0] == TagOf(x[0]) && Tags(x)[1..] == Tags(x[1..])
    ensures Tags(x) == Tags(y) <==> TagOf(x[0]) == TagOf(y[0]) && Tags(x[1..]) == Tags(y[1..])
    ensures x == y <==> x[0] == y[0] && x[1..] == y[1..]
  {
    assert x == [x[0]] + x[1..] && y == [y[0]] + y[1..];
    assert Tags(x) == [TagOf(x[0])] + Tags(x[1..]) && Tags(y) == [TagOf(y[0])] + Tags(y[1..]);
    assert Tags(x)[1..] == Tags(x[1..]) && Tags(y)[1..] == Tags(y[1..]);
  }

  function KeyFor(v: Version): Key
    requires CoreFits(v)
  {
    Key(Value(v.major), Value(v.minor), Value(v.patch), v.pre == "",
        if v.pre == "" then [] else Tags(Split(v.pre, '.')))
  }

  lemma KeyOf(s: string)
    requires Parse(s).Some? && PublisherKey(s).Some?
    ensures PublisherKey(s).value == KeyFor(Parse(s).value) && Unpadded(Split(Parse(s).value.pre, '.'))
  {
    EmptyIsNotDotted();
    assert Split("", '.') == [""];
  }

  lemma KeyBelow(a: Version, b: Version)
    requires Accepted(a) && Accepted(b) && Unpadded(Split(a.pre, '.')) && Unpadded(Split(b.pre, '.'))
    ensures KeyLess(KeyFor(a), KeyFor(b)) <==> Below(a, b)
  {
    TagsBelow(Split(a.pre, '.'), Split(b.pre, '.'));
  }

  lemma KeySame(a: Version, b: Version)
    requires Accepted(a) && Accepted(b) && Unpadded(Split(a.pre, '.')) && Unpadded(Split(b.pre, '.'))
    ensures KeyFor(a) == KeyFor(b) <==> a == b
  {
    TagsBelow(Split(a.pre, '.'), Split(b.pre, '.'));
    if Split(a.pre, '.') == Split(b.pre, '.') {
      SplitInjective(a.pre, b.pre);
    }
    NumberReversed(a.major, b.major);
    NumberReversed(a.minor, b.minor);
    NumberReversed(a.patch, b.patch);
  }

  /** On tags that both accept, the publisher's key is section 11's order for numbers of any
      size, and equal keys are equal versions. */
  lemma PublisherAsSpecified(s: string, t: string)
    requires Parse(s).Some? && Parse(t).Some? && PublisherKey(s).Some? && PublisherKey(t).Some?
    ensures KeyLess(PublisherKey(s).value, PublisherKey(t).value) <==> Below(Parse(s).value, Parse(t).value)
    ensures PublisherKey(s) == PublisherKey(t) <==> Compare(s, t) == 0
  {
    ParsedAccepted(s);
    ParsedAccepted(t);
    KeyOf(s);
    KeyOf(t);
    KeyBelow(Parse(s).value, Parse(t).value);
    KeySame(Parse(s).value, Parse(t).value);
    CompareReversed(s, t);
  }

  /** So publisher and agent order two tags alike if and only if the agent does not misrank
      them. */
  lemma PublisherAgreesIff(s: string, t: string)
    requires Parse(s).Some? && Parse(t).Some? && PublisherKey(s).Some? && PublisherKey(t).Some?
    ensures (KeyLess(PublisherKey(s).value, PublisherKey(t).value) <==> Compare(s, t) < 0) <==>
            !VersionsMisranked(Parse(s).value, Parse(t).value)
  {
    PublisherAsSpecified(s, t);
    ComparesAsSpecifiedIff(s, t);
  }

  /** In particular they agree in sign when every all-digit identifier fits in 64 bits. */
  lemma PublisherAgrees(s: string, t: string)
    requires Parse(s).Some? && Parse(t).Some? && PublisherKey(s).Some? && PublisherKey(t).Some?
    requires AllSmall(Split(Parse(s).value.pre, '.')) && AllSmall(Split(Parse(t).value.pre, '.'))
    ensures KeyLess(PublisherKey(s).value, PublisherKey(t).value) <==> Compare(s, t) < 0
    ensures KeyLess(PublisherKey(t).value, PublisherKey(s).value) <==> Compare(s, t) > 0
    ensures PublisherKey(s) == PublisherKey(t) <==> Compare(s, t) == 0
  {
    PublisherAgreesIff(s, t);
    PublisherAgreesIff(t, s);
    SmallRanked(Parse(s).value, Parse(t).value);
    SmallRanked(Parse(t).value, Parse(s).value);
    PublisherAsSpecified(s, t);
    CompareReversed(s, t);
  }

  predicate LooseText(s: string) { forall i :: 0 <= i < |s| ==> IdentChar(s[i]) || s[i] == '.' }

  lemma {:induction false} DottedIsLoose(s: string)
    ensures Idents(Split(s, '.')) <==> NoEmptyPart(Split(s, '.')) && LooseText(s)
    decreases |s|
  {
    var i, parts := IndexOf(s, '.'), Split(s, '.');
    if i < |s| {
      var rest := s[i + 1..];
      DottedIsLoose(rest);
      PartsSplit(s[..i], Split(rest, '.'));
      LooseSplit(s[..i], rest);
      assert s == s[..i] + ['.'] + rest && parts == [s[..i]] + Split(rest, '.');
      HeadLoose(s[..i]);
    } else {
      assert s[..i] == s && parts == [s] + [];
      HeadLoose(s);
      PartsSplit(s, []);
    }
  }

  lemma HeadLoose(head: string)
    requires '.' !in head
    ensures Ident(head) <==> head != "" && LooseText(head)
  {
  }

  lemma PartsSplit(head: string, rest: seq<string>)
    ensures Idents([head] + rest) <==> Ident(head) && Idents(rest)
    ensures NoEmptyPart([head] + rest) <==> head != "" && NoEmptyPart(rest)
  {
    var all := [head] + rest;
    assert all[0] == head && forall i :: 0 <= i < |rest| ==> rest[i] == all[i + 1];
  }

  lemma LooseSplit(head: string, rest: string)
    ensures LooseText(head + ['.'] + rest) <==> LooseText(head) && LooseText(rest)
  {
    var all := head + ['.'] + rest;
    assert forall i :: 0 <= i < |head| ==> head[i] == all[i];
    assert forall i :: 0 <= i < |rest| ==> rest[i] == all[|head| + 1 + i];
  }

  lemma OptionIsLoose(o: Option<string>)
    ensures Dotted(o) <==> Loose(o) && (o.Some? ==> NoEmptyPart(Split(o.value, '.')))
  {
    if o.Some? {
      DottedIsLoose(o.value);
      assert Split("", '.')[0] == "";
    }
  }

  /** The publisher accepts what matches the agent's pattern without padded numbers, of
      any size; so both accept the same tags as long as every number fits in 64 bits. */
  lemma PublisherAcceptsIff(s: string)
    ensures PublisherKey(s).Some? <==> Match(s).Some? && !PaddedDigits(Split(Match(s).value.pre, '.'))
    ensures Match(s).Some? && CoreFits(Match(s).value) && AllSmall(Split(Match(s).value.pre, '.')) ==>
              (PublisherKey(s).Some? <==> Parse(s).Some?)
  {
    var p := Cut(Unprefixed(s));
    OptionIsLoose(p.pre);
    OptionIsLoose(p.build);
    assert Split("", '.') == [""];
  }
}
