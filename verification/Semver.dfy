/** Release versions: the accepted syntax, and that reading inverts writing. */
module Semver {
  import opened Text

  // ---- splitting

  /** The first position of c, or the length. */
  function IndexOf(s: string, c: char): (i: nat)
    ensures i <= |s| && (i < |s| ==> s[i] == c) && c !in s[..i]
  {
    if s == [] || s[0] == c then 0 else 1 + IndexOf(s[1..], c)
  }

  /** strings.Split by one character. */
  function Split(s: string, c: char): (parts: seq<string>)
    ensures parts != []
    decreases |s|
  {
    var i := IndexOf(s, c);
    if i == |s| then [s] else [s[..i]] + Split(s[i + 1..], c)
  }

  function Join(parts: seq<string>, c: char): string
    requires parts != []
  {
    if |parts| == 1 then parts[0] else parts[0] + [c] + Join(parts[1..], c)
  }

  lemma JoinCons(first: string, parts: seq<string>, c: char)
    requires parts != []
    ensures Join([first] + parts, c) == first + [c] + Join(parts, c)
  {
    assert ([first] + parts)[1..] == parts;
  }

  lemma SplitStep(s: string, c: char)
    requires IndexOf(s, c) < |s|
    ensures Split(s, c) == [s[..IndexOf(s, c)]] + Split(s[IndexOf(s, c) + 1..], c)
  {
  }

  lemma CutAround(s: string, i: nat)
    requires i < |s|
    ensures s[..i] + [s[i]] + s[i + 1..] == s
  {
  }

  lemma {:induction false} JoinSplit(s: string, c: char)
    ensures Join(Split(s, c), c) == s
    decreases |s|
  {
    var i := IndexOf(s, c);
    if i < |s| {
      SplitStep(s, c);
      JoinSplit(s[i + 1..], c);
      JoinCons(s[..i], Split(s[i + 1..], c), c);
      CutAround(s, i);
    } else {
      assert Split(s, c) == [s];
    }
  }

  lemma {:induction false} IndexOfLacking(s: string, c: char, rest: string)
    requires c !in s
    ensures IndexOf(s, c) == |s| && IndexOf(s + [c] + rest, c) == |s|
  {
    if s == [] {
      assert s + [c] + rest == [c] + rest;
    } else {
      IndexOfLacking(s[1..], c, rest);
      assert (s + [c] + rest)[1..] == s[1..] + [c] + rest;
    }
  }

  lemma SplitFirst(s: string, c: char, rest: string)
    requires c !in s
    ensures Split(s + [c] + rest, c) == [s] + Split(rest, c)
  {
    var t := s + [c] + rest;
    IndexOfLacking(s, c, rest);
    assert t[..|s|] == s && t[|s| + 1..] == rest;
  }

  // ---- identifiers and numbers

  const UINT64_LIMIT := 0x1_0000_0000_0000_0000

  predicate Digit(c: char) { '0' <= c <= '9' }

  predicate IdentChar(c: char) { Digit(c) || 'A' <= c <= 'Z' || 'a' <= c <= 'z' || c == '-' }

  predicate AllDigits(s: string) { s != [] && forall i :: 0 <= i < |s| ==> Digit(s[i]) }

  /** The decimal value. */
  function Value(s: string): nat
    requires AllDigits(s) || s == []
  {
    if s == [] then 0
    else
      var init := s[..|s| - 1];
      10 * Value(init) + (s[|s| - 1] as int - '0' as int)
  }

  /** What strconv.ParseUint(s, 10, 64) accepts. */
  predicate Fits(s: string) { AllDigits(s) && Value(s) < UINT64_LIMIT }

  /** A decimal number without leading zeros. */
  predicate Numeric(s: string) { AllDigits(s) && (|s| > 1 ==> s[0] != '0') }

  predicate Ident(s: string) { s != [] && forall i :: 0 <= i < |s| ==> IdentChar(s[i]) }

  predicate Idents(parts: seq<string>) { forall i :: 0 <= i < |parts| ==> Ident(parts[i]) }

  /** Canonical decimals with the same value are the same text. */
  lemma {:induction false} ValueInjective(s: string, t: string)
    requires Numeric(s) && Numeric(t) && Value(s) == Value(t)
    ensures s == t
    decreases |s|
  {
    if |s| == 1 || |t| == 1 {
      if |s| > 1 { ValuePositive(s); }
      if |t| > 1 { ValuePositive(t); }
    } else {
      ValueInjective(s[..|s| - 1], t[..|t| - 1]);
      assert s == s[..|s| - 1] + [s[|s| - 1]] && t == t[..|t| - 1] + [t[|t| - 1]];
    }
  }

  function Pow10(n: nat): nat { if n == 0 then 1 else 10 * Pow10(n - 1) }

  /** A number whose first digit is not zero has the size its length says. */
  lemma {:induction false} ValueSize(s: string)
    requires AllDigits(s) && s[0] != '0'
    ensures Pow10(|s| - 1) <= Value(s) < Pow10(|s|)
  {
    if |s| > 1 {
      ValueSize(s[..|s| - 1]);
    } else {
      assert s[..0] == [];
      assert Pow10(1) == 10;
    }
  }

  lemma ValuePositive(s: string)
    requires Numeric(s) && |s| > 1
    ensures Value(s) >= 10
  {
    ValueSize(s);
    assert Pow10(|s| - 1) == 10 * Pow10(|s| - 2);
    PowPositive(|s| - 2);
  }

  lemma {:induction false} PowPositive(n: nat)
    ensures Pow10(n) >= 1
  {
    if n > 0 {
      PowPositive(n - 1);
    }
  }

  // ---- the accepted syntax

  /** Core numbers and prerelease part, as matched; an absent prerelease is empty. */
  datatype Version = Version(major: string, minor: string, patch: string, pre: string)

  /** No identifier is a number of 64 bits written with leading zeros. */
  predicate NoPaddedNumber(parts: seq<string>) {
    forall i :: 0 <= i < |parts| ==> !(|parts[i]| > 1 && parts[i][0] == '0' && Fits(parts[i]))
  }

  function Tail(s: string, c: char): Option<string> {
    var i := IndexOf(s, c);
    if i == |s| then None else Some(s[i + 1..])
  }

  function Head(s: string, c: char): string { s[..IndexOf(s, c)] }

  function OrEmpty(o: Option<string>): string { if o.Some? then o.value else "" }

  function Unprefixed(s: string): string { if s != [] && s[0] == 'v' then s[1..] else s }

  datatype Pieces = Pieces(core: string, pre: Option<string>, build: Option<string>)

  /** The text cut at the first plus and then at the first minus. */
  function Cut(t: string): Pieces {
    Pieces(Head(Head(t, '+'), '-'), Tail(Head(t, '+'), '-'), Tail(t, '+'))
  }

  predicate Dotted(o: Option<string>) { o.Some? ==> Idents(Split(o.value, '.')) }

  predicate CoreShaped(core: seq<string>) { |core| == 3 && Numeric(core[0]) && Numeric(core[1]) && Numeric(core[2]) }

  /** The pattern: core, prerelease and build, whatever the size of the numbers. */
  predicate Shaped(p: Pieces) { CoreShaped(Split(p.core, '.')) && Dotted(p.pre) && Dotted(p.build) }

  function Groups(p: Pieces): Version
    requires Shaped(p)
  {
    var core := Split(p.core, '.');
    Version(core[0], core[1], core[2], OrEmpty(p.pre))
  }

  function Match(s: string): Option<Version> {
    var p := Cut(Unprefixed(s));
    if Shaped(p) then Some(Groups(p)) else None
  }

  predicate CoreFits(v: Version) { Fits(v.major) && Fits(v.minor) && Fits(v.patch) }

  function Parse(s: string): Option<Version> {
    var m := Match(s);
    if m.Some? && CoreFits(m.value) && NoPaddedNumber(Split(m.value.pre, '.')) then m else None
  }

  // ---- writing

  ghost predicate Accepted(v: Version) {
    && Numeric(v.major) && Numeric(v.minor) && Numeric(v.patch) && CoreFits(v)
    && (v.pre != "" ==> Idents(Split(v.pre, '.'))) && NoPaddedNumber(Split(v.pre, '.'))
  }

  function Core(v: Version): string { v.major + ['.'] + v.minor + ['.'] + v.patch }

  function PiecesOf(v: Version, build: Option<string>): Pieces {
    Pieces(Core(v), if v.pre == "" then None else Some(v.pre), build)
  }

  function Append(head: string, c: char, rest: Option<string>): string {
    if rest.None? then head else head + [c] + rest.value
  }

  function Glue(p: Pieces): string { Append(Append(p.core, '-', p.pre), '+', p.build) }

  /** The grammar of the pattern, read as a printer. */
  function Render(prefixed: bool, v: Version, build: Option<string>): string {
    var text := Glue(PiecesOf(v, build));
    if prefixed then ['v'] + text else text
  }

  lemma DigitsLack(s: string, c: char)
    requires AllDigits(s) && !Digit(c)
    ensures c !in s
  {
  }

  /** A character that identifiers cannot hold, other than the separator, is not in the
      text they were split from. */
  lemma {:induction false} IdentsLack(s: string, c: char)
    requires Idents(Split(s, '.')) && !IdentChar(c) && c != '.'
    ensures c !in s
    decreases |s|
  {
    var i := IndexOf(s, '.');
    var parts := Split(s, '.');
    if i < |s| {
      assert parts[1..] == Split(s[i + 1..], '.');
      forall k | 0 <= k < |parts| - 1 ensures Ident(parts[1..][k]) {
        assert Ident(parts[k + 1]);
      }
      IdentsLack(s[i + 1..], c);
      assert Ident(parts[0]) && parts[0] == s[..i];
      assert s == s[..i] + ['.'] + s[i + 1..];
    } else {
      assert Ident(parts[0]) && parts[0] == s;
    }
  }

  lemma CoreLacks(v: Version, c: char)
    requires Numeric(v.major) && Numeric(v.minor) && Numeric(v.patch) && !Digit(c) && c != '.'
    ensures c !in Core(v)
  {
    DigitsLack(v.major, c);
    DigitsLack(v.minor, c);
    DigitsLack(v.patch, c);
  }

  lemma CoreSplits(v: Version)
    requires Numeric(v.major) && Numeric(v.minor) && Numeric(v.patch)
    ensures Split(Core(v), '.') == [v.major, v.minor, v.patch]
  {
    DigitsLack(v.major, '.');
    DigitsLack(v.minor, '.');
    DigitsLack(v.patch, '.');
    assert Core(v) == v.major + ['.'] + (v.minor + ['.'] + v.patch);
    SplitFirst(v.major, '.', v.minor + ['.'] + v.patch);
    SplitFirst(v.minor, '.', v.patch);
    IndexOfLacking(v.patch, '.', "");
  }

  lemma CutAt(head: string, c: char, rest: Option<string>)
    requires c !in head
    ensures Head(Append(head, c, rest), c) == head && Tail(Append(head, c, rest), c) == rest
  {
    IndexOfLacking(head, c, OrEmpty(rest));
    if rest.Some? {
      var s := head + [c] + rest.value;
      assert s[..|head|] == head && s[|head| + 1..] == rest.value;
    }
  }

  lemma CutGlue(p: Pieces)
    requires '-' !in p.core && '+' !in p.core && (p.pre.Some? ==> '+' !in p.pre.value)
    ensures Cut(Glue(p)) == p
  {
    CutAt(p.core, '-', p.pre);
    CutAt(Append(p.core, '-', p.pre), '+', p.build);
  }

  lemma PiecesCut(v: Version, build: Option<string>)
    requires Accepted(v)
    ensures Cut(Glue(PiecesOf(v, build))) == PiecesOf(v, build)
  {
    CoreLacks(v, '+');
    CoreLacks(v, '-');
    if v.pre != "" {
      IdentsLack(v.pre, '+');
    }
    CutGlue(PiecesOf(v, build));
  }

  lemma NotPrefixed(prefixed: bool, v: Version, build: Option<string>)
    requires Accepted(v)
    ensures Unprefixed(Render(prefixed, v, build)) == Glue(PiecesOf(v, build))
  {
    var text := Glue(PiecesOf(v, build));
    assert text[0] == v.major[0] && Digit(v.major[0]);
    if prefixed {
      assert (['v'] + text)[1..] == text;
    }
  }

  lemma GroupsBack(v: Version, build: Option<string>)
    requires Accepted(v) && Dotted(build)
    ensures Shaped(PiecesOf(v, build)) && Groups(PiecesOf(v, build)) == v
  {
    CoreSplits(v);
  }

  /** Reading what was written gives the version back, whatever prefix and build. */
  lemma ReadBack(prefixed: bool, v: Version, build: Option<string>)
    requires Accepted(v) && Dotted(build)
    ensures Parse(Render(prefixed, v, build)) == Some(v)
  {
    NotPrefixed(prefixed, v, build);
    PiecesCut(v, build);
    GroupsBack(v, build);
  }

  lemma CutJoins(s: string, c: char)
    ensures s == Append(Head(s, c), c, Tail(s, c))
  {
    var i := IndexOf(s, c);
    if i < |s| {
      assert s == s[..i] + [s[i]] + s[i + 1..];
    }
  }

  lemma GlueCut(t: string)
    ensures Glue(Cut(t)) == t
  {
    CutJoins(t, '+');
    CutJoins(Head(t, '+'), '-');
  }

  lemma ThreeParts(s: string)
    requires |Split(s, '.')| == 3
    ensures var p := Split(s, '.'); s == p[0] + ['.'] + p[1] + ['.'] + p[2]
  {
    var p := Split(s, '.');
    JoinSplit(s, '.');
    assert Join(p[1..], '.') == p[1] + ['.'] + p[2];
  }

  lemma EmptyIsNotDotted()
    ensures !Idents(Split("", '.'))
  {
    assert Split("", '.')[0] == "";
  }

  lemma PiecesBack(p: Pieces)
    requires Shaped(p)
    ensures PiecesOf(Groups(p), p.build) == p
  {
    ThreeParts(p.core);
    EmptyIsNotDotted();
  }

  /** Every text that is read was written: the accepted texts are exactly the renderings
      of accepted versions. */
  lemma ReadIsWritten(s: string) returns (prefixed: bool, build: Option<string>)
    requires Parse(s).Some?
    ensures Accepted(Parse(s).value) && Dotted(build) && s == Render(prefixed, Parse(s).value, build)
  {
    var t := Unprefixed(s);
    prefixed, build := s != [] && s[0] == 'v', Cut(t).build;
    GlueCut(t);
    PiecesBack(Cut(t));
    assert prefixed ==> s == ['v'] + s[1..];
  }
}
