/** Choosing the release to offer: newest first, the first one that is eligible and has an
    installer for this platform. */
module ReleaseSelection {
  import opened Text
  import opened Sorting
  import opened Semver
  import opened SemverOrder

  datatype Asset = Asset(name: string, url: string, digest: string, state: string, size: int)
  datatype Release = Release(tag: string, prerelease: Option<bool>, draft: Option<bool>, assets: seq<Asset>)
  datatype Platform = Platform(goos: string, goarch: string)
  datatype Update = Update(version: string, url: string, name: string, size: int, sha: string)

  const MAX_SIZE := 9007199254740991
  const DIGEST_PREFIX := "sha256:"
  const DOWNLOADS := "https://github.com/IGNGserver/guanlan-monitor/releases/download/"

  // ---- what may be offered

  predicate Readable(r: Release) { Parse(r.tag).Some? }

  /** Written as a prerelease: a minus before any plus. */
  predicate WrittenPrerelease(tag: string) { '-' in Split(tag, '+')[0] }

  predicate Eligible(r: Release, current: string, channel: string) {
    && r.draft == Some(false) && r.prerelease.Some? && Readable(r) && Compare(r.tag, current) > 0
    && !(channel == "stable" && (r.prerelease.value || WrittenPrerelease(r.tag)))
  }

  /** The installer this platform needs; none for unsupported platforms. */
  function InstallerName(p: Platform, version: string): Option<string> {
    if p == Platform("windows", "amd64") then Some("DeviceStateConsole-Windows-Setup-v" + version + ".exe")
    else if p == Platform("linux", "amd64") then Some("DeviceStateConsole-Linux-Install-v" + version + ".deb")
    else None
  }

  predicate HexDigit(c: char) { Digit(c) || 'a' <= c <= 'f' || 'A' <= c <= 'F' }

  predicate ValidSha(s: string) { |s| == 64 && forall i :: 0 <= i < |s| ==> HexDigit(s[i]) }

  function ShaOf(a: Asset): string {
    if HasPrefix(a.digest, DIGEST_PREFIX) then a.digest[|DIGEST_PREFIX|..] else a.digest
  }

  predicate Acceptable(p: Platform, tag: string, a: Asset) {
    && InstallerName(p, Unprefixed(tag)) == Some(a.name) && a.state == "uploaded" && 0 < a.size <= MAX_SIZE
    && HasPrefix(a.digest, DIGEST_PREFIX) && ValidSha(ShaOf(a)) && HasPrefix(a.url, DOWNLOADS + tag + "/")
  }

  function AcceptableBy(p: Platform, tag: string): Asset -> bool { (a: Asset) => Acceptable(p, tag, a) }

  function Describe(tag: string, a: Asset): Update { Update(Unprefixed(tag), a.url, a.name, a.size, ShaOf(a)) }

  ghost predicate FirstOf(ok: Asset -> bool, assets: seq<Asset>, i: int) {
    0 <= i < |assets| && ok(assets[i]) && forall k :: 0 <= k < i ==> !ok(assets[k])
  }

  /** There is an offer exactly when some asset is acceptable; it describes the first. */
  function Offer(ok: Asset -> bool, tag: string, assets: seq<Asset>): (r: Option<Update>)
    ensures r.Some? <==> exists a :: a in assets && ok(a)
    ensures r.Some? ==> exists i :: FirstOf(ok, assets, i) && r.value == Describe(tag, assets[i])
  {
    if assets == [] then None
    else if ok(assets[0]) then
      assert FirstOf(ok, assets, 0);
      Some(Describe(tag, assets[0]))
    else
      LaterAssets(ok, assets);
      Offer(ok, tag, assets[1..])
  }

  lemma LaterAssets(ok: Asset -> bool, assets: seq<Asset>)
    requires assets != [] && !ok(assets[0])
    ensures (exists a :: a in assets && ok(a)) <==> (exists a :: a in assets[1..] && ok(a))
    ensures forall i :: FirstOf(ok, assets[1..], i) ==> FirstOf(ok, assets, i + 1)
  {
    assert assets == [assets[0]] + assets[1..];
    forall i | FirstOf(ok, assets[1..], i) ensures FirstOf(ok, assets, i + 1) {
      forall k | 0 <= k < i + 1 ensures !ok(assets[k]) {
        assert k > 0 ==> assets[k] == assets[1..][k - 1];
      }
    }
  }

  function OfferOf(p: Platform, r: Release): Option<Update> { Offer(AcceptableBy(p, r.tag), r.tag, r.assets) }

  // ---- newest first

  /** Newer by version, unreadable tags last. */
  predicate Newer(a: Release, b: Release) {
    Readable(a) && (!Readable(b) || Compare(a.tag, b.tag) > 0)
  }

  lemma NewerIsOrder()
    ensures StrictWeakOrder(Newer)
  {
    forall a, b | Newer(a, b) ensures !Newer(b, a) {
      if Readable(b) {
        CompareReversed(a.tag, b.tag);
      }
    }
    forall a, b, c | Newer(a, c) ensures Newer(a, b) || Newer(b, c) {
      NewerSplits(a, b, c);
    }
  }

  lemma NewerSplits(a: Release, b: Release, c: Release)
    requires Newer(a, c)
    ensures Newer(a, b) || Newer(b, c)
  {
    if Readable(b) && Readable(c) && !Newer(a, b) && !Newer(b, c) {
      CompareReversed(a.tag, c.tag);
      CompareTransitive(a.tag, b.tag, c.tag);
    }
  }

  ghost predicate NewestFirst(s: seq<Release>) {
    forall i, j :: 0 <= i < j < |s| ==> Compare(s[j].tag, s[i].tag) <= 0
  }

  /** sort.Slice: some ordering of the same releases, newest first. */
  method SortReleases(releases: seq<Release>) returns (sorted: seq<Release>)
    requires forall r :: r in releases ==> Readable(r)
    ensures multiset(sorted) == multiset(releases)
    ensures NewestFirst(sorted)
  {
    sorted := StableSort(releases, Newer);
    NewerIsOrder();
    StableSortPermutes(releases, Newer);
    StableSortMembers(releases, Newer);
    StableSortSorts(releases, Newer);
    forall i, j | 0 <= i < j < |sorted| ensures Compare(sorted[j].tag, sorted[i].tag) <= 0 {
      assert sorted[i] in releases && sorted[j] in releases;
      assert !Newer(sorted[j], sorted[i]);
    }
  }

  // ---- the choice

  /** r is eligible and has an acceptable asset. */
  predicate Usable(p: Platform, current: string, channel: string, r: Release) {
    Eligible(r, current, channel) && exists a :: a in r.assets && Acceptable(p, r.tag, a)
  }

  function UsableBy(p: Platform, current: string, channel: string): Release -> bool {
    (r: Release) => Usable(p, current, channel, r)
  }

  /** r can be offered and nothing that can be offered is newer. */
  ghost predicate Best(source: seq<Release>, usable: Release -> bool, r: Release) {
    r in source && usable(r) && forall o :: o in source && usable(o) ==> Compare(o.tag, r.tag) <= 0
  }

  method Filter(source: seq<Release>, keep: Release -> bool) returns (releases: seq<Release>)
    ensures forall r :: r in releases <==> r in source && keep(r)
  {
    releases := [];
    var i := 0;
    while i < |source|
      invariant 0 <= i <= |source|
      invariant forall r :: r in releases <==> r in source[..i] && keep(r)
    {
      assert source[..i + 1] == source[..i] + [source[i]];
      if keep(source[i]) {
        releases := releases + [source[i]];
      }
      i := i + 1;
    }
    assert source[..i] == source;
  }

  method FirstOffer(ok: Asset -> bool, tag: string, assets: seq<Asset>) returns (offer: Option<Update>)
    ensures offer == Offer(ok, tag, assets)
    ensures offer.Some? <==> exists a :: a in assets && ok(a)
    ensures offer.Some? ==> exists i :: FirstOf(ok, assets, i) && offer.value == Describe(tag, assets[i])
  {
    var i := 0;
    while i < |assets|
      invariant 0 <= i <= |assets| && Offer(ok, tag, assets) == Offer(ok, tag, assets[i..])
    {
      if ok(assets[i]) {
        return Some(Update(Unprefixed(tag), assets[i].url, assets[i].name, assets[i].size, ShaOf(assets[i])));
      }
      i := i + 1;
    }
    return None;
  }

  /** In a list that is newest first, the first usable release is a best one. */
  lemma FirstIsBest(source: seq<Release>, sorted: seq<Release>, usable: Release -> bool, i: nat)
    requires i < |sorted| && usable(sorted[i]) && NewestFirst(sorted)
    requires forall k :: 0 <= k < i ==> !usable(sorted[k])
    requires forall r :: r in sorted <==> r in source && Readable(r)
    requires forall r :: usable(r) ==> Readable(r)
    ensures Best(source, usable, sorted[i])
  {
    assert sorted[i] in sorted;
    forall o | o in source && usable(o) ensures Compare(o.tag, sorted[i].tag) <= 0 {
      var k :| 0 <= k < |sorted| && sorted[k] == o;
      if k == i {
        CompareReversed(o.tag, o.tag);
      }
    }
  }

  lemma SameAcceptance(p: Platform, r: Release)
    ensures (exists a :: a in r.assets && AcceptableBy(p, r.tag)(a)) <==> exists a :: a in r.assets && Acceptable(p, r.tag, a)
  {
    forall a ensures AcceptableBy(p, r.tag)(a) <==> Acceptable(p, r.tag, a) {
    }
  }

  /** Whether one release is eligible and what it offers. */
  method Consider(r: Release, current: string, channel: string, p: Platform) returns (update: Option<Update>)
    ensures update.Some? <==> UsableBy(p, current, channel)(r)
    ensures update.Some? ==> update == OfferOf(p, r)
  {
    if Eligible(r, current, channel) {
      update := FirstOffer(AcceptableBy(p, r.tag), r.tag, r.assets);
      SameAcceptance(p, r);
    } else {
      update := None;
    }
  }

  /** The offer of the first usable release of the list, and its index or the length. */
  method Scan(sorted: seq<Release>, current: string, channel: string, p: Platform)
    returns (update: Option<Update>, i: nat)
    ensures i <= |sorted| && forall k :: 0 <= k < i ==> !UsableBy(p, current, channel)(sorted[k])
    ensures update.Some? <==> i < |sorted|
    ensures i < |sorted| ==> UsableBy(p, current, channel)(sorted[i]) && update == OfferOf(p, sorted[i])
  {
    ghost var usable := UsableBy(p, current, channel);
    i := 0;
    while i < |sorted|
      invariant 0 <= i <= |sorted| && usable == UsableBy(p, current, channel)
      invariant forall k :: 0 <= k < i ==> !usable(sorted[k])
    {
      update := Consider(sorted[i], current, channel, p);
      if update.Some? {
        return;
      }
      i := i + 1;
    }
    update := None;
  }

  /** r is a best release and the update describes its first acceptable asset. */
  ghost predicate Chosen(source: seq<Release>, p: Platform, current: string, channel: string, r: Release, update: Update) {
    && Best(source, UsableBy(p, current, channel), r)
    && exists i :: FirstOf(AcceptableBy(p, r.tag), r.assets, i) && update == Describe(r.tag, r.assets[i])
  }

  method SelectBest(source: seq<Release>, current: string, channel: string, p: Platform) returns (update: Option<Update>)
    ensures update.Some? <==> exists r :: r in source && UsableBy(p, current, channel)(r)
    ensures update.Some? ==>
              exists r :: Best(source, UsableBy(p, current, channel), r) && update == OfferOf(p, r)
  {
    var releases := Filter(source, r => Readable(r));
    var sorted := SortReleases(releases);
    SameMembers(sorted, releases);
    var i;
    update, i := Scan(sorted, current, channel, p);
    if i < |sorted| {
      FirstIsBest(source, sorted, UsableBy(p, current, channel), i);
    }
  }

  lemma UsableMeans(p: Platform, current: string, channel: string, r: Release)
    ensures UsableBy(p, current, channel)(r) <==>
            Eligible(r, current, channel) && exists a :: a in r.assets && Acceptable(p, r.tag, a)
  {
  }

  lemma SomeUsable(source: seq<Release>, p: Platform, current: string, channel: string)
    ensures (exists r :: r in source && UsableBy(p, current, channel)(r)) <==>
            (exists r, a :: r in source && Eligible(r, current, channel) && a in r.assets && Acceptable(p, r.tag, a))
  {
    forall r ensures UsableBy(p, current, channel)(r) <==>
                     Eligible(r, current, channel) && exists a :: a in r.assets && Acceptable(p, r.tag, a) {
      UsableMeans(p, current, channel, r);
    }
  }

  lemma OfferDescribes(source: seq<Release>, p: Platform, current: string, channel: string, r: Release)
    requires Best(source, UsableBy(p, current, channel), r) && OfferOf(p, r).Some?
    ensures Chosen(source, p, current, channel, r, OfferOf(p, r).value)
  {
  }

  /** An update is reported exactly when some eligible release has an acceptable asset; it
      then describes the first such asset of a release than which no such one is newer. */
  method SelectRelease(source: seq<Release>, current: string, channel: string, p: Platform)
    returns (update: Option<Update>)
    ensures update.Some? <==>
              exists r, a :: r in source && Eligible(r, current, channel) && a in r.assets && Acceptable(p, r.tag, a)
    ensures update.Some? ==> exists r :: Chosen(source, p, current, channel, r, update.value)
  {
    update := SelectBest(source, current, channel, p);
    SomeUsable(source, p, current, channel);
    if update.Some? {
      ghost var r :| Best(source, UsableBy(p, current, channel), r) && update == OfferOf(p, r);
      OfferDescribes(source, p, current, channel, r);
    }
  }

  // ---- what the choice means

  function BeforePlus(prefixed: bool, v: Version): string {
    (if prefixed then ['v'] else []) + Append(Core(v), '-', if v.pre == "" then None else Some(v.pre))
  }

  lemma BeforePlusLacksPlus(prefixed: bool, v: Version)
    requires Accepted(v)
    ensures '+' !in BeforePlus(prefixed, v)
  {
    CoreLacks(v, '+');
    if v.pre != "" {
      IdentsLack(v.pre, '+');
    }
  }

  lemma SplitHead(head: string, c: char, rest: Option<string>)
    requires c !in head
    ensures Split(Append(head, c, rest), c)[0] == head
  {
    CutAt(head, c, rest);
  }

  lemma RenderAppends(prefixed: bool, v: Version, build: Option<string>)
    ensures Render(prefixed, v, build) == Append(BeforePlus(prefixed, v), '+', build)
  {
    var main := Append(Core(v), '-', if v.pre == "" then None else Some(v.pre));
    assert [] + main == main;
    if build.Some? {
      assert ['v'] + (main + ['+'] + build.value) == (['v'] + main) + ['+'] + build.value;
    }
  }

  /** A readable tag is written as a prerelease exactly when its version has one. */
  lemma WrittenIff(tag: string)
    requires Parse(tag).Some?
    ensures WrittenPrerelease(tag) <==> Parse(tag).value.pre != ""
  {
    var v := Parse(tag).value;
    var prefixed, build := ReadIsWritten(tag);
    RenderAppends(prefixed, v, build);
    BeforePlusLacksPlus(prefixed, v);
    SplitHead(BeforePlus(prefixed, v), '+', build);
    CoreLacks(v, '-');
  }

  /** Whatever is offered is strictly newer than the running version; on the stable
      channel it is neither flagged nor written as a prerelease. */
  lemma OfferedIsSound(p: Platform, current: string, channel: string, r: Release)
    requires UsableBy(p, current, channel)(r)
    ensures Parse(r.tag).Some? && Parse(current).Some? && Compare(current, r.tag) < 0
    ensures channel == "stable" ==> r.prerelease == Some(false) && Parse(r.tag).value.pre == ""
  {
    CompareReversed(r.tag, current);
    WrittenIff(r.tag);
  }

  /** All best releases have the same version, up to build metadata. */
  lemma BestIsUnique(source: seq<Release>, usable: Release -> bool, r: Release, o: Release)
    requires Best(source, usable, r) && Best(source, usable, o) && Readable(r) && Readable(o)
    ensures Parse(r.tag) == Parse(o.tag)
  {
    CompareReversed(r.tag, o.tag);
  }

  lemma SameMembers(a: seq<Release>, c: seq<Release>)
    requires multiset(a) == multiset(c)
    ensures forall r :: r in a <==> r in c
  {
    forall r ensures r in a <==> r in c {
      assert r in a <==> r in multiset(a);
      assert r in c <==> r in multiset(c);
    }
  }

  /** Whatever is offered: an uploaded installer of this platform for this version, of a size
      up to 2^53 - 1 bytes, with a SHA-256 digest, from the project's own release page. */
  lemma OfferIsInstaller(p: Platform, r: Release)
    requires OfferOf(p, r).Some?
    ensures var u := OfferOf(p, r).value;
      && u.version == (if r.tag != "" && r.tag[0] == 'v' then r.tag[1..] else r.tag)
      && 1 <= u.size < 0x20_0000_0000_0000
      && |u.sha| == 64 && (forall c :: c in u.sha ==> '0' <= c <= '9' || 'a' <= c <= 'f' || 'A' <= c <= 'F')
      && (exists a :: a in r.assets && a.state == "uploaded" && a.digest == "sha256:" + u.sha
                      && u == Update(u.version, a.url, a.name, a.size, u.sha))
      && (|u.url| >= |DOWNLOADS + r.tag + "/"| && u.url[..|DOWNLOADS + r.tag + "/"|] == DOWNLOADS + r.tag + "/")
      && (if p.goos == "windows" then p.goarch == "amd64" && u.name == "DeviceStateConsole-Windows-Setup-v" + u.version + ".exe"
          else p.goos == "linux" && p.goarch == "amd64" && u.name == "DeviceStateConsole-Linux-Install-v" + u.version + ".deb")
  {
    var ok := AcceptableBy(p, r.tag);
    var i :| FirstOf(ok, r.assets, i) && OfferOf(p, r).value == Describe(r.tag, r.assets[i]);
    AcceptableMeans(p, r.tag, r.assets[i]);
  }

  lemma AcceptableMeans(p: Platform, tag: string, a: Asset)
    requires AcceptableBy(p, tag)(a)
    ensures Acceptable(p, tag, a) && a.digest == DIGEST_PREFIX + ShaOf(a)
  {
    assert a.digest == a.digest[..|DIGEST_PREFIX|] + a.digest[|DIGEST_PREFIX|..];
  }

  /** A release is eligible exactly if it is published, its tag and the running version can
      be read, it is newer, and on the stable channel it is no prerelease by flag or text. */
  lemma EligibleIff(r: Release, current: string, channel: string)
    ensures Eligible(r, current, channel) <==>
            && r.draft == Some(false) && r.prerelease.Some? && Parse(r.tag).Some? && Parse(current).Some?
            && Compare(current, r.tag) < 0
            && (channel == "stable" ==> r.prerelease == Some(false) && Parse(r.tag).value.pre == "")
  {
    if Parse(r.tag).Some? {
      WrittenIff(r.tag);
      if Parse(current).Some? {
        CompareReversed(r.tag, current);
      }
    }
  }

  /** An asset that is such an installer is acceptable. */
  lemma InstallerIsAcceptable(p: Platform, tag: string, version: string, a: Asset, sha: string, file: string)
    requires p == Platform("windows", "amd64") || p == Platform("linux", "amd64")
    requires version == (if tag != "" && tag[0] == 'v' then tag[1..] else tag)
    requires a.name == (if p.goos == "windows" then "DeviceStateConsole-Windows-Setup-v" + version + ".exe"
                        else "DeviceStateConsole-Linux-Install-v" + version + ".deb")
    requires a.state == "uploaded" && 1 <= a.size < 0x20_0000_0000_0000 && a.url == DOWNLOADS + tag + "/" + file
    requires a.digest == DIGEST_PREFIX + sha && |sha| == 64 && forall c :: c in sha ==> HexDigit(c)
    ensures Acceptable(p, tag, a)
  {
    assert a.digest[..|DIGEST_PREFIX|] == DIGEST_PREFIX && a.digest[|DIGEST_PREFIX|..] == sha;
    assert a.url[..|DOWNLOADS + tag + "/"|] == DOWNLOADS + tag + "/";
  }
}
