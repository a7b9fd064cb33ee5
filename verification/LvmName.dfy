/** Decoding the device-mapper name of an LVM volume, "group-volume" with every dash inside
    a name doubled. */
module LvmName {
  import opened Text

  // ---- the documented escaping

  function Escape(s: string): string {
    if s == [] then [] else (if s[0] == '-' then "--" else [s[0]]) + Escape(s[1..])
  }

  function DeviceName(group: string, volume: string): string { Escape(group) + "-" + Escape(volume) }

  // ---- decoding

  /** strings.ReplaceAll(s, "--", "-"). */
  function Unescape(s: string): string {
    if s == [] then []
    else if |s| >= 2 && s[0] == '-' && s[1] == '-' then ['-'] + Unescape(s[2..])
    else [s[0]] + Unescape(s[1..])
  }

  predicate DashAt(s: string, i: int) { 0 <= i < |s| && s[i] == '-' }

  /** A dash without a dash next to it. */
  predicate Isolated(s: string, i: int) { DashAt(s, i) && !DashAt(s, i - 1) && !DashAt(s, i + 1) }

  /** The first isolated dash from an index on, or the length. */
  function FirstIsolated(s: string, from: nat): (r: nat)
    requires from <= |s|
    ensures from <= r <= |s| && (r < |s| ==> Isolated(s, r)) && forall k :: from <= k < r ==> !Isolated(s, k)
    decreases |s| - from
  {
    if from == |s| || Isolated(s, from) then from else FirstIsolated(s, from + 1)
  }

  /** The names around the first isolated dash; none without one, or when a name is empty. */
  function Decode(name: string): Option<(string, string)> {
    var i := FirstIsolated(name, 0);
    if i == |name| then None
    else
      var group, volume := Unescape(name[..i]), Unescape(name[i + 1..]);
      if group == "" || volume == "" then None else Some((group, volume))
  }

  method SplitDeviceName(name: string) returns (r: Option<(string, string)>)
    ensures r == Decode(name)
  {
    var index := 0;
    while index < |name|
      invariant 0 <= index <= |name|
      invariant forall k :: 0 <= k < index ==> !Isolated(name, k)
    {
      if name[index] == '-' {
        var previousDash := index > 0 && name[index - 1] == '-';
        var nextDash := index + 1 < |name| && name[index + 1] == '-';
        if !previousDash && !nextDash {
          assert Isolated(name, index);
          var group, volume := Unescape(name[..index]), Unescape(name[index + 1..]);
          if group == "" || volume == "" {
            return None;
          }
          return Some((group, volume));
        }
      }
      index := index + 1;
    }
    return None;
  }

  // ---- inversion

  lemma {:induction false} UnescapeEscape(s: string)
    ensures Unescape(Escape(s)) == s
  {
    if s != [] {
      UnescapeEscape(s[1..]);
      var e, rest := Escape(s), Escape(s[1..]);
      if s[0] == '-' {
        assert e == "--" + rest && e[2..] == rest;
      } else {
        assert e == [s[0]] + rest && e[1..] == rest;
      }
      assert s == [s[0]] + s[1..];
    }
  }

  /** Every dash of an escaped name has a dash next to it. */
  lemma {:induction false} EscapedDashesPair(s: string, i: int)
    requires DashAt(Escape(s), i)
    ensures DashAt(Escape(s), i - 1) || DashAt(Escape(s), i + 1)
  {
    var e, rest := Escape(s), Escape(s[1..]);
    if s[0] == '-' {
      assert e == "--" + rest;
      if i >= 2 {
        assert e[i] == rest[i - 2];
        EscapedDashesPair(s[1..], i - 2);
      }
    } else {
      assert e == [s[0]] + rest && e[i] == rest[i - 1];
      EscapedDashesPair(s[1..], i - 1);
    }
  }

  lemma EscapeStarts(s: string)
    ensures DashAt(Escape(s), 0) <==> DashAt(s, 0)
    ensures Escape(s) == [] <==> s == []
  {
  }

  lemma {:induction false} EscapeEnds(s: string)
    ensures DashAt(Escape(s), |Escape(s)| - 1) <==> DashAt(s, |s| - 1)
  {
    if |s| > 1 {
      EscapeEnds(s[1..]);
      EscapeStarts(s[1..]);
      var e, rest := Escape(s), Escape(s[1..]);
      assert e[|e| - 1] == rest[|rest| - 1];
    }
  }

  /** The names that survive: neither is empty and no dash touches the separator. */
  predicate Separable(group: string, volume: string) {
    group != "" && volume != "" && !DashAt(group, |group| - 1) && !DashAt(volume, 0)
  }

  /** Only the separator can be an isolated dash. */
  lemma OnlySeparator(group: string, volume: string, i: int)
    requires Isolated(DeviceName(group, volume), i)
    ensures i == |Escape(group)|
  {
    var a, b, name := Escape(group), Escape(volume), DeviceName(group, volume);
    assert name == a + "-" + b;
    if i < |a| {
      assert DashAt(a, i);
      EscapedDashesPair(group, i);
      assert DashAt(a, i - 1) ==> DashAt(name, i - 1);
    } else if i > |a| {
      var j := i - |a| - 1;
      assert DashAt(b, j);
      EscapedDashesPair(volume, j);
    }
  }

  lemma SeparatorIsolated(group: string, volume: string)
    ensures Isolated(DeviceName(group, volume), |Escape(group)|) <==>
            !DashAt(group, |group| - 1) && !DashAt(volume, 0)
  {
    var a, b, name := Escape(group), Escape(volume), DeviceName(group, volume);
    EscapeEnds(group);
    EscapeStarts(volume);
    assert DashAt(name, |a|);
    assert DashAt(name, |a| - 1) <==> DashAt(a, |a| - 1);
    assert DashAt(name, |a| + 1) <==> DashAt(b, 0);
  }

  /** Decoding the documented form gives back exactly the two names when they are separable,
      and otherwise reports failure. */
  lemma DecodeInverts(group: string, volume: string)
    ensures Decode(DeviceName(group, volume)) == if Separable(group, volume) then Some((group, volume)) else None
  {
    var name, at := DeviceName(group, volume), |Escape(group)|;
    SeparatorIsolated(group, volume);
    forall i | Isolated(name, i) ensures i == at {
      OnlySeparator(group, volume, i);
    }
    assert name[..at] == Escape(group) && name[at + 1..] == Escape(volume);
    UnescapeEscape(group);
    UnescapeEscape(volume);
  }
}
