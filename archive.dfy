/** archive_images.py: the list of container images a benchmark
    configuration names, the hash of that list that names the archive, the
    file names a pulled image is renamed between, the URL of the remote
    archive's manifest, and whether the images must be downloaded. The
    SHA-256 digest is a parameter; pulling, archiving and fetching are not
    modelled. */
module Archive {
  import opened Wrappers
  import opened Text
  import opened Registry
  import opened Config
  import opened Validate

  /** Why `list_of_images` raises: no top-level key starts with `hepscore`
      (so `settings` is never bound), a key it looks up is missing, or the
      registry setting cannot be iterated. */
  datatype Crash = Unbound | MissingKey(key: string) | RegistryNotIterable

  // ---------------------------------------------------------------------------
  // Python's ordering of strings and `sorted`
  // ---------------------------------------------------------------------------

  /** `a <= b` on Python strings: code points compared left to right, a
      proper prefix first. */
  predicate Below(a: string, b: string)
    decreases |a|
  {
    |a| == 0 || (|b| > 0 && (a[0] < b[0] || (a[0] == b[0] && Below(a[1..], b[1..]))))
  }

  lemma {:induction false} BelowTotal(a: string, b: string)
    ensures Below(a, b) || Below(b, a)
    decreases |a|
  {
    if |a| > 0 && |b| > 0 && a[0] == b[0] {
      BelowTotal(a[1..], b[1..]);
    }
  }

  lemma {:induction false} BelowAntisymmetric(a: string, b: string)
    requires Below(a, b) && Below(b, a)
    ensures a == b
    decreases |a|
  {
    if |a| > 0 {
      BelowAntisymmetric(a[1..], b[1..]);
      assert a == [a[0]] + a[1..] && b == [b[0]] + b[1..];
    }
  }

  lemma {:induction false} BelowTransitive(a: string, b: string, c: string)
    requires Below(a, b) && Below(b, c)
    ensures Below(a, c)
    decreases |a|
  {
    if |a| > 0 && a[0] == b[0] && b[0] == c[0] {
      BelowTransitive(a[1..], b[1..], c[1..]);
    }
  }

  predicate Sorted(s: seq<string>) {
    forall i, j | 0 <= i < j < |s| :: Below(s[i], s[j])
  }

  /** `x` placed before the first element it is not above. */
  function Insert(x: string, s: seq<string>): (r: seq<string>)
    ensures multiset(r) == multiset(s) + multiset{x}
  {
    if |s| == 0 then [x]
    else if Below(x, s[0]) then [x] + s
    else
      assert s == [s[0]] + s[1..];
      [s[0]] + Insert(x, s[1..])
  }

  lemma {:induction false} InsertSorted(x: string, s: seq<string>)
    requires Sorted(s)
    ensures Sorted(Insert(x, s))
  {
    if |s| > 0 {
      if Below(x, s[0]) {
        forall j | 0 <= j < |s| ensures Below(x, s[j]) {
          if j > 0 { BelowTransitive(x, s[0], s[j]); }
        }
      } else {
        BelowTotal(x, s[0]);
        InsertSorted(x, s[1..]);
        var t := Insert(x, s[1..]);
        forall j | 0 <= j < |t| ensures Below(s[0], t[j]) {
          assert t[j] in multiset(t);
          if t[j] != x {
            assert t[j] in multiset(s[1..]);
            var k :| 0 <= k < |s[1..]| && s[1..][k] == t[j];
            assert s[k + 1] == t[j];
          }
        }
      }
    }
  }

  /** `sorted(s)` on a list of strings. */
  function Sort(s: seq<string>): (r: seq<string>)
    ensures Sorted(r) && multiset(r) == multiset(s)
  {
    if |s| == 0 then []
    else
      var t := Sort(s[1..]);
      InsertSorted(s[0], t);
      assert s == [s[0]] + s[1..];
      Insert(s[0], t)
  }

  /** Two sorted lists with the same elements are the same list. */
  lemma {:induction false} SortedUnique(a: seq<string>, b: seq<string>)
    requires Sorted(a) && Sorted(b) && multiset(a) == multiset(b)
    ensures a == b
    decreases |a|
  {
    if |a| == 0 {
      assert |b| == |multiset(b)| == 0;
    } else {
      assert |b| == |multiset(b)| == |multiset(a)| == |a|;
      assert a[0] in multiset(b) && b[0] in multiset(a);
      var j :| 0 <= j < |b| && b[j] == a[0];
      var i :| 0 <= i < |a| && a[i] == b[0];
      if i > 0 { assert Below(a[0], a[i]); }
      if j > 0 { assert Below(b[0], b[j]); }
      BelowTotal(a[0], b[0]);
      BelowAntisymmetric(a[0], b[0]);
      assert a == [a[0]] + a[1..] && b == [b[0]] + b[1..];
      assert multiset(a) == multiset(a[1..]) + multiset{a[0]};
      assert multiset(b) == multiset(b[1..]) + multiset{a[0]};
      MultisetCancel(multiset(a[1..]), multiset(b[1..]), a[0]);
      SortedUnique(a[1..], b[1..]);
    }
  }

  lemma MultisetCancel<T>(p: multiset<T>, q: multiset<T>, x: T)
    requires p + multiset{x} == q + multiset{x}
    ensures p == q
  {
    forall y ensures p[y] == q[y] {
      assert (p + multiset{x})[y] == p[y] + multiset{x}[y];
      assert (q + multiset{x})[y] == q[y] + multiset{x}[y];
    }
  }

  // ---------------------------------------------------------------------------
  // list_of_images, specified
  // ---------------------------------------------------------------------------

  /** The section under the first top-level key that starts with
      `hepscore`. */
  function HepscoreSection(data: seq<(string, Section)>): (r: Option<Section>)
    ensures r.None? <==> forall i | 0 <= i < |data| :: !StartsWith(data[i].0, "hepscore")
    ensures r.Some? ==> exists i | 0 <= i < |data| ::
      && StartsWith(data[i].0, "hepscore") && r.value == data[i].1
      && forall j | 0 <= j < i :: !StartsWith(data[j].0, "hepscore")
  {
    if |data| == 0 then None
    else if StartsWith(data[0].0, "hepscore") then Some(data[0].1)
    else
      var r := HepscoreSection(data[1..]);
      assert forall i | 1 <= i < |data| :: data[i] == data[1..][i - 1];
      r
  }

  /** What `for r in settings['registry']` iterates over: a list's entries,
      a string's one-character strings; anything else is refused. */
  function RegistryItems(spec: Option<RegSpec>): (r: Result<seq<string>, Crash>)
    ensures spec.Some? && spec.value.RegString? ==>
      r.Success? && |r.value| == |spec.value.s| && forall k | 0 <= k < |r.value| :: |r.value[k]| == 1
  {
    match spec
    case None => Failure(MissingKey("registry"))
    case Some(RegList(es)) => Success(es)
    case Some(RegString(s)) => Success(seq(|s|, k requires 0 <= k < |s| => [s[k]]))
    case Some(RegOther) => Failure(RegistryNotIterable)
  }

  /** The first registry that starts with `oras://`, or `""`. */
  function OrasRegistry(items: seq<string>): (r: string)
    ensures r == "" <==> forall k | 0 <= k < |items| :: !StartsWith(items[k], "oras://")
    ensures r != "" ==> exists k | 0 <= k < |items| ::
      && items[k] == r && StartsWith(r, "oras://")
      && forall j | 0 <= j < k :: !StartsWith(items[j], "oras://")
  {
    if |items| == 0 then ""
    else if StartsWith(items[0], "oras://") then items[0]
    else
      var r := OrasRegistry(items[1..]);
      assert forall k | 1 <= k < |items| :: items[k] == items[1..][k - 1];
      r
  }

  /** A plain-string registry is iterated character by character, so no
      item can start with `oras://` and the image prefix is empty. */
  lemma StringRegistryGivesNoPrefix(s: string)
    ensures RegistryItems(Some(RegString(s))).Success?
    ensures OrasRegistry(RegistryItems(Some(RegString(s))).value) == ""
  {
  }

  /** One image: `<registry>/<key>:<version>`, with `_<architecture>`
      appended when an architecture is given. */
  function ImageRef(registry: string, key: string, version: string, arch: Option<string>): (r: string)
    ensures StartsWith(r, registry + "/" + key + ":" + version)
    ensures arch.None? ==> |r| == |registry| + |key| + |version| + 2
    ensures arch.Some? ==> r[|registry| + |key| + |version| + 2..] == "_" + arch.value
  {
    registry + "/" + key + ":" + version + (if arch.Some? then "_" + arch.value else "")
  }

  /** Every benchmark that is not commented out names a version. */
  predicate AllVersioned(bs: seq<(string, Bench)>) {
    forall k | 0 <= k < |bs| :: !IsCommented(bs[k].0) ==> bs[k].1.version.Some?
  }

  /** The images of the benchmarks `bs`, in order, skipping commented-out
      keys. */
  function Images(registry: string, bs: seq<(string, Bench)>, arch: Option<string>): seq<string>
    requires AllVersioned(bs)
  {
    if |bs| == 0 then []
    else
      var e := bs[|bs| - 1];
      Images(registry, bs[..|bs| - 1], arch)
        + (if IsCommented(e.0) then [] else [ImageRef(registry, e.0, e.1.version.value, arch)])
  }

  /** The hash that names an image set: the digest of the sorted list. */
  function ImagesHash(sha: seq<string> -> string, images: seq<string>): string {
    sha(Sort(images))
  }

  /** What `list_of_images(data, architecture)` returns or why it raises. */
  function Catalogue(data: seq<(string, Section)>, arch: Option<string>, sha: seq<string> -> string)
    : Result<(seq<string>, string), Crash>
  {
    match HepscoreSection(data)
    case None => Failure(Unbound)
    case Some(sec) =>
      if sec.benchmarks.None? then Failure(MissingKey("benchmarks"))
      else if sec.settings.None? then Failure(MissingKey("settings"))
      else match RegistryItems(sec.settings.value.registry)
        case Failure(e) => Failure(e)
        case Success(items) =>
          var bs := sec.benchmarks.value;
          if !AllVersioned(bs) then Failure(MissingKey("version"))
          else
            var images := Images(OrasRegistry(items), bs, arch);
            Success((images, ImagesHash(sha, images)))
  }

  // ---------------------------------------------------------------------------
  // Properties of the image list and its hash
  // ---------------------------------------------------------------------------

  /** Commented-out benchmarks give no image; every other benchmark gives
      exactly one, built from its key and version, in the mapping's order. */
  lemma {:induction false} ImagesFollowBenchmarks(registry: string, bs: seq<(string, Bench)>, arch: Option<string>)
    requires AllVersioned(bs)
    ensures var u := Uncommented(bs);
      && |Images(registry, bs, arch)| == |u|
      && forall j | 0 <= j < |u| ::
           u[j].1.version.Some? && Images(registry, bs, arch)[j] == ImageRef(registry, u[j].0, u[j].1.version.value, arch)
  {
    if |bs| > 0 {
      var a := bs[..|bs| - 1];
      assert AllVersioned(a);
      ImagesFollowBenchmarks(registry, a, arch);
      assert bs == a + [bs[|bs| - 1]];
      UncommentedSnoc(a, bs[|bs| - 1]);
    }
  }

  lemma {:induction false} ImagesAppend(registry: string, a: seq<(string, Bench)>, b: seq<(string, Bench)>, arch: Option<string>)
    requires AllVersioned(a + b)
    ensures AllVersioned(a) && AllVersioned(b)
    ensures Images(registry, a + b, arch) == Images(registry, a, arch) + Images(registry, b, arch)
    decreases |b|
  {
    assert forall k | 0 <= k < |a| :: a[k] == (a + b)[k];
    assert forall k | 0 <= k < |b| :: b[k] == (a + b)[|a| + k];
    if |b| > 0 {
      var b' := b[..|b| - 1];
      assert (a + b)[..|a + b| - 1] == a + b';
      ImagesAppend(registry, a, b', arch);
    } else {
      assert a + b == a;
    }
  }

  /** Reordering benchmarks keeps every one that names a version. */
  lemma VersionedPermutation(a: seq<(string, Bench)>, b: seq<(string, Bench)>)
    requires multiset(a) == multiset(b) && AllVersioned(a)
    ensures AllVersioned(b)
  {
    forall k | 0 <= k < |b| && !IsCommented(b[k].0) ensures b[k].1.version.Some? {
      assert b[k] in multiset(a);
    }
  }

  /** Taking benchmark `j` out of `b` takes its image out of the images. */
  lemma ImagesRemove(registry: string, b: seq<(string, Bench)>, j: nat, arch: Option<string>)
    requires j < |b| && AllVersioned(b)
    ensures AllVersioned(b[..j] + b[j + 1..]) && AllVersioned([b[j]])
    ensures multiset(Images(registry, b, arch))
         == multiset(Images(registry, b[..j] + b[j + 1..], arch)) + multiset(Images(registry, [b[j]], arch))
  {
    assert b == b[..j] + [b[j]] + b[j + 1..];
    ImagesAppend(registry, b[..j] + [b[j]], b[j + 1..], arch);
    ImagesAppend(registry, b[..j], [b[j]], arch);
    ImagesAppend(registry, b[..j], b[j + 1..], arch);
  }

  /** Reordering the benchmarks reorders the images and nothing more. */
  lemma {:induction false} PermutedBenchmarksPermuteImages(registry: string, a: seq<(string, Bench)>,
                                                           b: seq<(string, Bench)>, arch: Option<string>)
    requires multiset(a) == multiset(b) && AllVersioned(a)
    ensures AllVersioned(b)
    ensures multiset(Images(registry, a, arch)) == multiset(Images(registry, b, arch))
    decreases |a|
  {
    VersionedPermutation(a, b);
    if |a| == 0 {
      assert |b| == |multiset(b)| == 0;
    } else {
      var x := a[|a| - 1];
      var a' := a[..|a| - 1];
      assert a == a' + [x];
      assert x in multiset(b);
      var j :| 0 <= j < |b| && b[j] == x;
      var b' := b[..j] + b[j + 1..];
      assert b == b[..j] + [x] + b[j + 1..];
      assert multiset(a) == multiset(a') + multiset{x};
      assert multiset(b) == multiset(b') + multiset{x};
      MultisetCancel(multiset(a'), multiset(b'), x);
      ImagesAppend(registry, a', [x], arch);
      ImagesRemove(registry, b, j, arch);
      PermutedBenchmarksPermuteImages(registry, a', b', arch);
    }
  }

  /** The hash sees only which images there are, not their order. */
  lemma HashIgnoresOrder(sha: seq<string> -> string, a: seq<string>, b: seq<string>)
    requires multiset(a) == multiset(b)
    ensures ImagesHash(sha, a) == ImagesHash(sha, b)
  {
    SortedUnique(Sort(a), Sort(b));
  }

  /** Two configurations whose benchmarks are the same up to order name the
      same archive, while each returned list keeps its own order. */
  lemma PermutedBenchmarksShareHash(sha: seq<string> -> string, registry: string, a: seq<(string, Bench)>,
                                    b: seq<(string, Bench)>, arch: Option<string>)
    requires multiset(a) == multiset(b) && AllVersioned(a)
    ensures AllVersioned(b)
    ensures ImagesHash(sha, Images(registry, a, arch)) == ImagesHash(sha, Images(registry, b, arch))
  {
    PermutedBenchmarksPermuteImages(registry, a, b, arch);
    HashIgnoresOrder(sha, Images(registry, a, arch), Images(registry, b, arch));
  }

  // ---------------------------------------------------------------------------
  // list_of_images, the loops
  // ---------------------------------------------------------------------------

  /** `list_of_images(data, architecture)`: the section is found and the
      registry chosen by early-exit loops, and the image list is built by a
      loop that skips commented-out keys. */
  method ListOfImages(data: seq<(string, Section)>, arch: Option<string>, sha: seq<string> -> string)
    returns (r: Result<(seq<string>, string), Crash>)
    ensures r == Catalogue(data, arch, sha)
  {
    var sec := FindSection(data);
    if sec.None? {
      return Failure(Unbound);
    }
    if sec.value.benchmarks.None? {
      return Failure(MissingKey("benchmarks"));
    }
    if sec.value.settings.None? {
      return Failure(MissingKey("settings"));
    }
    var items := RegistryItems(sec.value.settings.value.registry);
    if items.Failure? {
      return Failure(items.error);
    }
    var registry := FindOras(items.value);
    var images := CollectImages(registry, sec.value.benchmarks.value, arch);
    if images.None? {
      return Failure(MissingKey("version"));
    }
    return Success((images.value, sha(Sort(images.value))));
  }

  /** The loop over `data.keys()` that stops at the first `hepscore` key. */
  method FindSection(data: seq<(string, Section)>) returns (found: Option<Section>)
    ensures found == HepscoreSection(data)
  {
    var i := 0;
    found := None;
    while i < |data|
      invariant 0 <= i <= |data| && found.None?
      invariant HepscoreSection(data[i..]) == HepscoreSection(data)
    {
      if StartsWith(data[i].0, "hepscore") {
        found := Some(data[i].1);
        return;
      }
      assert data[i..][1..] == data[i + 1..];
      i := i + 1;
    }
  }

  /** The loop over the registries that stops at the first `oras://` one. */
  method FindOras(items: seq<string>) returns (registry: string)
    ensures registry == OrasRegistry(items)
  {
    registry := "";
    var i := 0;
    while i < |items|
      invariant 0 <= i <= |items|
      invariant OrasRegistry(items[i..]) == OrasRegistry(items)
    {
      if StartsWith(items[i], "oras://") {
        registry := items[i];
        return;
      }
      assert items[i..][1..] == items[i + 1..];
      i := i + 1;
    }
  }

  /** The loop that appends one image per benchmark; `None` when a
      benchmark's `version` is missing. */
  method CollectImages(registry: string, bs: seq<(string, Bench)>, arch: Option<string>)
    returns (images: Option<seq<string>>)
    ensures images.None? <==> !AllVersioned(bs)
    ensures images.Some? ==> images.value == Images(registry, bs, arch)
  {
    var acc: seq<string> := [];
    var i := 0;
    while i < |bs|
      invariant 0 <= i <= |bs|
      invariant AllVersioned(bs[..i])
      invariant acc == Images(registry, bs[..i], arch)
    {
      var key := bs[i].0;
      assert bs[..i + 1][..i] == bs[..i];
      if IsCommented(key) {
        i := i + 1;
        continue;
      }
      if bs[i].1.version.None? {
        return None;
      }
      acc := acc + [ImageRef(registry, key, bs[i].1.version.value, arch)];
      i := i + 1;
    }
    assert bs[..i] == bs;
    return Some(acc);
  }

  // ---------------------------------------------------------------------------
  // The names and the URL derived from an image and a hash
  // ---------------------------------------------------------------------------

  /** The file `singularity pull` writes for `image`: its last path
      segment with each `:` turned into `_`, plus `.sif`. */
  function PulledName(image: string): string {
    ReplaceChar(LastSegment(image, '/'), ':', '_') + ".sif"
  }

  /** The name the image is archived under: its last path segment. */
  function ArchivedName(image: string): string {
    LastSegment(image, '/')
  }

  lemma {:induction false} LastSegmentAfterSeparator(a: string, b: string)
    requires '/' !in b
    ensures LastSegment(a + "/" + b, '/') == b
    decreases |b|
  {
    if |b| == 0 {
      assert (a + "/" + b)[|a + "/" + b| - 1] == '/';
    } else {
      var s := a + "/" + b;
      assert s[..|s| - 1] == a + "/" + b[..|b| - 1];
      LastSegmentAfterSeparator(a, b[..|b| - 1]);
      assert b == b[..|b| - 1] + [b[|b| - 1]];
    }
  }

  /** For an image built from a key, version and architecture without `/`,
      the archived name is `<key>:<version>[_<arch>]` and the pulled name is
      the same text with `_` for each `:`, plus `.sif`; so pulled and
      archived names differ exactly where the archived one has a `:`. */
  lemma RenamedImage(registry: string, key: string, version: string, arch: Option<string>)
    requires '/' !in key && '/' !in version && (arch.Some? ==> '/' !in arch.value)
    ensures var image := ImageRef(registry, key, version, arch);
      var tail := key + ":" + version + (if arch.Some? then "_" + arch.value else "");
      && ArchivedName(image) == tail
      && |PulledName(image)| == |tail| + 4
      && PulledName(image)[|tail|..] == ".sif"
      && forall i | 0 <= i < |tail| :: (PulledName(image)[i] == tail[i] <==> tail[i] != ':')
  {
    var tail := key + ":" + version + (if arch.Some? then "_" + arch.value else "");
    assert '/' !in tail by {
      forall i | 0 <= i < |tail| ensures tail[i] != '/' {
        if i < |key| { assert tail[i] == key[i]; }
        else if i == |key| { }
        else if i < |key| + 1 + |version| { assert tail[i] == version[i - |key| - 1]; }
        else if i > |key| + 1 + |version| { assert tail[i] == arch.value[i - |key| - 2 - |version|]; }
      }
    }
    assert ImageRef(registry, key, version, arch) == registry + "/" + tail;
    LastSegmentAfterSeparator(registry, tail);
  }

  /** The URL of the remote manifest of the archive named `key`: the base
      URL without trailing slashes, then `/<key>/<key>.json`. */
  function ManifestUrl(url: string, key: string): string {
    RStrip(url, '/') + "/" + key + "/" + key + ".json"
  }

  /** `n` slashes. */
  function Slashes(n: nat): (r: string)
    ensures |r| == n && forall i | 0 <= i < n :: r[i] == '/'
  {
    if n == 0 then "" else Slashes(n - 1) + "/"
  }

  /** Trailing slashes on the base URL do not change the manifest URL. */
  lemma {:induction false} ManifestUrlIgnoresTrailingSlashes(url: string, n: nat, key: string)
    ensures ManifestUrl(url + Slashes(n), key) == ManifestUrl(url, key)
  {
    if n > 0 {
      var u := url + Slashes(n - 1);
      ManifestUrlIgnoresTrailingSlashes(url, n - 1, key);
      RStripSlash(u);
      assert url + Slashes(n) == u + "/";
    } else {
      assert url + Slashes(0) == url;
    }
  }

  lemma RStripSlash(u: string)
    ensures RStrip(u + "/", '/') == RStrip(u, '/')
  {
    var v := u + "/";
    assert v[..|v| - 1] == u;
  }

  /** The manifest URL is the given URL less its trailing slashes, then the
      archive's name twice: as a directory and as a `.json` file. */
  lemma ManifestUrlShape(url: string, key: string)
    ensures exists base: string, n: nat ::
      && url == base + Slashes(n)
      && (|base| > 0 ==> base[|base| - 1] != '/')
      && ManifestUrl(url, key) == base + "/" + key + "/" + key + ".json"
  {
    var base := RStrip(url, '/');
    var n := |url| - |base|;
    assert url == base + Slashes(n);
  }

  /** The archive's name: `<architecture>_<hash>`, where an absent
      architecture prints as `None`. */
  function KeyName(arch: Option<string>, hash: string): (r: string)
    ensures arch.Some? ==> r == arch.value + "_" + hash
    ensures arch.None? ==> r == "None_" + hash
  {
    (if arch.Some? then arch.value else "None") + "_" + hash
  }

  /** Whether the images must be downloaded: always without a remote
      manifest URL; otherwise when the local images and the items of the
      remote manifest (empty when it could not be fetched) are different
      sets. When nothing is downloaded the script exits with status 111. */
  function MustDownload(remote: Option<seq<string>>, local: seq<string>): (r: bool)
    ensures remote.None? ==> r
    ensures remote.Some? ==> (r <==> exists x :: (x in local) != (x in remote.value))
  {
    if remote.None? then true
    else
      var mine := set x | x in local;
      var theirs := set x | x in remote.value;
      assert forall x :: x in mine <==> x in local;
      assert forall x :: x in theirs <==> x in remote.value;
      mine != theirs
  }

  /** A remote manifest that lists the same images, in any order and with
      any repetitions, spares the download. */
  lemma SameImagesSpareDownload(remote: seq<string>, local: seq<string>)
    requires forall x :: x in remote <==> x in local
    ensures !MustDownload(Some(remote), local)
  {
  }
}
