/** Byte-string vocabulary shared by the other modules: an optional value,
    lexicographic order, trimming and ASCII case folding. */
module Text {
  datatype Option<+T> = None | Some(value: T)

  /** Go's `<` on strings: lexicographic by code unit. */
  predicate StrLess(a: string, b: string)
    decreases |a|
  {
    if b == [] then false
    else if a == [] then true
    else if a[0] != b[0] then a[0] < b[0]
    else StrLess(a[1..], b[1..])
  }

  /** String order is a strict weak order whose ties are equal strings. */
  lemma {:induction false} StrLessTotal(a: string, b: string)
    ensures !(StrLess(a, b) && StrLess(b, a))
    ensures !StrLess(a, b) && !StrLess(b, a) <==> a == b
    decreases |a|
  {
    if a != [] && b != [] && a[0] == b[0] {
      StrLessTotal(a[1..], b[1..]);
      assert a == [a[0]] + a[1..] && b == [b[0]] + b[1..];
    }
  }

  lemma {:induction false} StrLessSplits(a: string, b: string, c: string)
    requires StrLess(a, c)
    ensures StrLess(a, b) || StrLess(b, c)
    decreases |a|
  {
    if a != [] && b != [] && a[0] == b[0] == c[0] {
      StrLessSplits(a[1..], b[1..], c[1..]);
    }
  }

  /** a is less than b if it is a proper prefix of b or smaller at the first difference. */
  lemma {:induction false} StrLessIff(a: string, b: string)
    ensures StrLess(a, b) <==>
            exists n :: 0 <= n <= |a| && n < |b| && a[..n] == b[..n] && (n == |a| || a[n] < b[n])
    decreases |a|
  {
    if a == [] || b == [] || a[0] != b[0] {
      if StrLess(a, b) {
        assert a[..0] == b[..0];
      }
    } else {
      StrLessIff(a[1..], b[1..]);
      if n :| 0 <= n <= |a[1..]| && n < |b[1..]| && a[1..][..n] == b[1..][..n] && (n == |a[1..]| || a[1..][n] < b[1..][n]) {
        assert a[..n + 1] == [a[0]] + a[1..][..n] && b[..n + 1] == [b[0]] + b[1..][..n];
      }
      if n :| 0 <= n <= |a| && n < |b| && a[..n] == b[..n] && (n == |a| || a[n] < b[n]) {
        assert n > 0;
        assert a[1..][..n - 1] == a[..n][1..] && b[1..][..n - 1] == b[..n][1..];
      }
    }
  }

  /** unicode.IsSpace, restricted to the Latin-1 range. */
  predicate IsSpace(c: char) {
    c == ' ' || '\t' <= c <= '\r' || c == '\U{0085}' || c == '\U{00A0}'
  }

  function TrimLeft(s: string): (r: string)
    ensures |r| <= |s|
    ensures r == [] || !IsSpace(r[0])
    ensures s == [] || !IsSpace(s[0]) ==> r == s
  {
    if s != [] && IsSpace(s[0]) then TrimLeft(s[1..]) else s
  }

  function TrimRight(s: string): (r: string)
    ensures |r| <= |s|
    ensures r == [] || !IsSpace(r[|r| - 1])
    ensures s == [] || !IsSpace(s[|s| - 1]) ==> r == s
    ensures r == [] || r[0] == s[0]
  {
    if s != [] && IsSpace(s[|s| - 1]) then TrimRight(s[..|s| - 1]) else s
  }

  predicate Trimmed(s: string) {
    s == [] || (!IsSpace(s[0]) && !IsSpace(s[|s| - 1]))
  }

  /** strings.TrimSpace; the result has no outer space and trimming is idempotent. */
  function TrimSpace(s: string): (r: string)
    ensures Trimmed(r)
    ensures Trimmed(s) ==> r == s
  {
    TrimRight(TrimLeft(s))
  }

  predicate AllSpace(s: string) { forall i :: 0 <= i < |s| ==> IsSpace(s[i]) }

  lemma CutHead(s: string, i: nat)
    requires s != [] && IsSpace(s[0]) && i < |s| && AllSpace(s[1..][..i])
    ensures s[i + 1..] == s[1..][i..] && AllSpace(s[..i + 1])
  {
    assert forall k :: 1 <= k < i + 1 ==> s[k] == s[1..][..i][k - 1];
  }

  lemma {:induction false} TrimLeftIs(s: string) returns (i: nat)
    ensures i <= |s| && TrimLeft(s) == s[i..] && AllSpace(s[..i])
  {
    i := 0;
    if s != [] && IsSpace(s[0]) {
      i := TrimLeftIs(s[1..]);
      CutHead(s, i);
      i := i + 1;
    }
  }

  lemma CutLast(s: string, j: nat)
    requires s != [] && IsSpace(s[|s| - 1]) && j < |s| && AllSpace(s[..|s| - 1][j..])
    ensures s[..j] == s[..|s| - 1][..j] && AllSpace(s[j..])
  {
    assert forall k :: j <= k < |s| - 1 ==> s[k] == s[..|s| - 1][j..][k - j];
  }

  lemma {:induction false} TrimRightIs(s: string) returns (j: nat)
    ensures j <= |s| && TrimRight(s) == s[..j] && AllSpace(s[j..])
  {
    j := |s|;
    if s != [] && IsSpace(s[|s| - 1]) {
      j := TrimRightIs(s[..|s| - 1]);
      CutLast(s, j);
    }
  }

  /** Trimming cuts spaces off both ends and nothing else. */
  lemma TrimSpaceIs(s: string) returns (i: nat, j: nat)
    ensures i <= j <= |s| && TrimSpace(s) == s[i..j] && AllSpace(s[..i]) && AllSpace(s[j..])
  {
    i := TrimLeftIs(s);
    var n := TrimRightIs(s[i..]);
    j := i + n;
    assert s[j..] == s[i..][n..] && s[i..][..n] == s[i..j];
  }

  function LowerChar(c: char): char {
    if 'A' <= c <= 'Z' then (c as int + 32) as char else c
  }

  /** strings.ToLower on ASCII text. */
  function ToLower(s: string): (r: string)
    ensures |r| == |s|
    ensures forall i :: 0 <= i < |s| ==> r[i] == LowerChar(s[i])
  {
    seq(|s|, i requires 0 <= i < |s| => LowerChar(s[i]))
  }

  /** strings.EqualFold on ASCII text. */
  predicate EqualFold(a: string, b: string) {
    ToLower(a) == ToLower(b)
  }

  predicate HasPrefix(s: string, p: string) {
    |p| <= |s| && s[..|p|] == p
  }
}
