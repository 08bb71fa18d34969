/** Registry resolution: turning the configured registry (one string or a list
    of strings, each prefixed by a URI scheme) into the single entry the
    selected container engine will pull from (hepscore.py, HEPscore.gen_reglist,
    check_reglist, _gen_regpath and _drop_uri). */
module Registry {
  import opened Wrappers
  import opened Text

  datatype Engine = Docker | Singularity

  /** The engine's supported schemes, in the order they are tried. */
  function SupportedSchemes(cec: Engine): seq<string> {
    match cec
    case Docker => ["docker"]
    case Singularity => ["oras", "docker", "shub", "dir", "https"]
  }

  /** The schemes a `container_uri` option may name at all. */
  const ValidUris: seq<string> := ["docker", "shub", "dir", "oras", "https"]

  /** A configured registry: a string, a list of strings, or anything else. */
  datatype RegSpec = RegString(s: string) | RegList(entries: seq<string>) | RegOther

  /** `gen_reglist`: a string becomes a one-entry list, a list stays as it is,
      anything else becomes the empty list. */
  function GenRegList(spec: RegSpec): (r: seq<string>)
    ensures spec.RegString? ==> r == [spec.s]
    ensures spec.RegList? ==> r == spec.entries
    ensures spec.RegOther? ==> r == []
  {
    match spec
    case RegString(s) => [s]
    case RegList(es) => es
    case RegOther => []
  }

  // ---------------------------------------------------------------------------
  // check_reglist
  // ---------------------------------------------------------------------------

  /** How `check_reglist` ends: true, false, or an IndexError on an empty
      string (its `reg_string[0]`), which the source does not catch. */
  datatype RegCheck = RegAccepted | RegRejected | RegCrashed

  /** A registry string the check accepts: a letter first, then only registry
      characters. */
  predicate WellFormedRegistry(s: string) {
    |s| > 0 && IsAsciiLetter(s[0]) && CheckRegChars(s)
  }

  /** The loop of `check_reglist` over the entries: the first entry that is
      empty crashes, the first that is malformed rejects. */
  function CheckEntries(entries: seq<string>): (r: RegCheck)
    ensures r == RegAccepted <==> forall k | 0 <= k < |entries| :: WellFormedRegistry(entries[k])
    ensures r == RegCrashed ==> exists k | 0 <= k < |entries| :: entries[k] == ""
  {
    if |entries| == 0 then RegAccepted
    else if |entries[0]| == 0 then RegCrashed
    else if !IsAsciiLetter(entries[0][0]) || !CheckRegChars(entries[0]) then RegRejected
    else
      var rest := CheckEntries(entries[1..]);
      assert forall k | 1 <= k < |entries| :: entries[k] == entries[1..][k - 1];
      rest
  }

  /** `check_reglist`: an empty or non-list registry is rejected. */
  function CheckRegList(spec: RegSpec): (r: RegCheck)
    ensures r == RegAccepted <==>
      |GenRegList(spec)| > 0 && forall k | 0 <= k < |GenRegList(spec)| :: WellFormedRegistry(GenRegList(spec)[k])
  {
    var regs := GenRegList(spec);
    if |regs| == 0 then RegRejected else CheckEntries(regs)
  }

  // ---------------------------------------------------------------------------
  // _gen_regpath
  // ---------------------------------------------------------------------------

  /** Why `_gen_regpath` terminates the program. */
  datatype RegFault = EmptyRegistry | UnsupportedUri(curi: string) | NoMatchingUri

  predicate HasScheme(entry: string, scheme: string) {
    StartsWith(entry, scheme + "://")
  }

  /** The schemes tried: only the requested one when `curi` is set (and the
      engine supports it), else the engine's whole priority list. */
  function CandidateSchemes(cec: Engine, curi: string): Option<seq<string>> {
    if curi == "" then Some(SupportedSchemes(cec))
    else if curi in SupportedSchemes(cec) then Some([curi])
    else None
  }

  /** The inner loop: the first entry at or after `from` with `scheme`. */
  function FindEntry(entries: seq<string>, scheme: string, from: nat): (r: Option<nat>)
    requires from <= |entries|
    ensures r.Some? ==> from <= r.value < |entries| && HasScheme(entries[r.value], scheme)
    ensures r.Some? ==> forall m | from <= m < r.value :: !HasScheme(entries[m], scheme)
    ensures r.None? ==> forall m | from <= m < |entries| :: !HasScheme(entries[m], scheme)
    decreases |entries| - from
  {
    if from == |entries| then None
    else if HasScheme(entries[from], scheme) then Some(from)
    else FindEntry(entries, scheme, from + 1)
  }

  /** The outer loop: the first scheme (at or after `from`) that some entry
      carries, with the earliest such entry. */
  function FindScheme(schemes: seq<string>, entries: seq<string>, from: nat): (r: Option<(nat, nat)>)
    requires from <= |schemes|
    ensures r.Some? ==> from <= r.value.0 < |schemes| && r.value.1 < |entries|
    ensures r.Some? ==> HasScheme(entries[r.value.1], schemes[r.value.0])
    ensures r.Some? ==> forall m | 0 <= m < r.value.1 :: !HasScheme(entries[m], schemes[r.value.0])
    ensures r.Some? ==> forall j, m | from <= j < r.value.0 && 0 <= m < |entries| :: !HasScheme(entries[m], schemes[j])
    ensures r.None? ==> forall j, m | from <= j < |schemes| && 0 <= m < |entries| :: !HasScheme(entries[m], schemes[j])
    decreases |schemes| - from
  {
    if from == |schemes| then None
    else match FindEntry(entries, schemes[from], 0)
      case Some(m) => Some((from, m))
      case None => FindScheme(schemes, entries, from + 1)
  }

  /** `_gen_regpath`: the registry entry the engine pulls from. */
  function GenRegPath(spec: RegSpec, cec: Engine, curi: string): Result<string, RegFault> {
    var regs := GenRegList(spec);
    if |regs| == 0 then Failure(EmptyRegistry)
    else match CandidateSchemes(cec, curi)
      case None => Failure(UnsupportedUri(curi))
      case Some(schemes) =>
        match FindScheme(schemes, regs, 0)
        case None => Failure(NoMatchingUri)
        case Some(found) => Success(regs[found.1])
  }

  /** What `_gen_regpath` promises. On success the entry is in the list and
      carries the first candidate scheme (in priority order) that any entry
      carries, and no earlier entry carries it; it fails exactly when the
      list is empty, the requested URI is not one the engine supports, or no
      entry carries a candidate scheme. */
  lemma GenRegPathPicks(spec: RegSpec, cec: Engine, curi: string)
    ensures var r := GenRegPath(spec, cec, curi);
      var regs := GenRegList(spec);
      r.Success? ==>
        && CandidateSchemes(cec, curi).Some?
        && var schemes := CandidateSchemes(cec, curi).value;
          exists k, m | 0 <= k < |schemes| && 0 <= m < |regs| ::
            && r.value == regs[m]
            && HasScheme(regs[m], schemes[k])
            && (forall m' | 0 <= m' < m :: !HasScheme(regs[m'], schemes[k]))
            && (forall j, m' | 0 <= j < k && 0 <= m' < |regs| :: !HasScheme(regs[m'], schemes[j]))
    ensures var r := GenRegPath(spec, cec, curi);
      var regs := GenRegList(spec);
      r.Failure? <==>
        || |regs| == 0
        || CandidateSchemes(cec, curi).None?
        || forall j, m | 0 <= j < |CandidateSchemes(cec, curi).value| && 0 <= m < |regs| ::
             !HasScheme(regs[m], CandidateSchemes(cec, curi).value[j])
    ensures GenRegPath(spec, cec, curi) == Failure(EmptyRegistry) <==> |GenRegList(spec)| == 0
  {
    var regs := GenRegList(spec);
    if |regs| > 0 && CandidateSchemes(cec, curi).Some? {
      var schemes := CandidateSchemes(cec, curi).value;
      var found := FindScheme(schemes, regs, 0);
      if found.Some? {
        var k, m := found.value.0, found.value.1;
        assert GenRegPath(spec, cec, curi).value == regs[m];
      }
    }
  }

  /** The property the design promises: whatever `_gen_regpath` returns
      carries a scheme the engine supports. */
  lemma ResolvedSchemeIsSupported(spec: RegSpec, cec: Engine, curi: string)
    requires GenRegPath(spec, cec, curi).Success?
    ensures exists s :: s in SupportedSchemes(cec) && HasScheme(GenRegPath(spec, cec, curi).value, s)
  {
    var regs := GenRegList(spec);
    GenRegPathPicks(spec, cec, curi);
    var schemes := CandidateSchemes(cec, curi).value;
    var k, m :| 0 <= k < |schemes| && 0 <= m < |regs| && GenRegPath(spec, cec, curi).value == regs[m] && HasScheme(regs[m], schemes[k]);
    assert schemes[k] in SupportedSchemes(cec);
  }

  // ---------------------------------------------------------------------------
  // _drop_uri
  // ---------------------------------------------------------------------------

  /** The scheme an engine's command line wants stripped. */
  function DroppedScheme(cec: Engine): string {
    match cec
    case Docker => "docker"
    case Singularity => "dir"
  }

  /** `_drop_uri`: strips `docker://` under docker and `dir://` under
      singularity; every other path is returned as it is. */
  function DropUri(cec: Engine, path: string): (r: string)
    ensures HasScheme(path, DroppedScheme(cec)) ==> path == DroppedScheme(cec) + "://" + r
    ensures !HasScheme(path, DroppedScheme(cec)) ==> r == path
  {
    var prefix := DroppedScheme(cec) + "://";
    if StartsWith(path, prefix) then
      assert path == prefix + path[|prefix|..];
      path[|prefix|..]
    else path
  }

  /** A path with any other scheme of the list passes through unchanged:
      singularity keeps `docker://`, `oras://`, `shub://` and `https://`, and
      docker keeps everything but `docker://`. */
  lemma DropUriKeepsOtherSchemes(cec: Engine, path: string, scheme: string)
    requires scheme in ValidUris && scheme != DroppedScheme(cec)
    requires HasScheme(path, scheme)
    ensures DropUri(cec, path) == path
  {
    var d := DroppedScheme(cec) + "://";
    var p := scheme + "://";
    // No two schemes of the list share their first two characters.
    assert path[..|p|] == p;
    assert path[0] == p[0] && path[1] == p[1];
    if p[0] != d[0] {
      NotPrefixAt(path, d, 0);
    } else {
      NotPrefixAt(path, d, 1);
    }
  }

  /** The expected outcomes of the string-registry cases in the project's
      command tests under docker: resolution succeeds or stops the program. */
  lemma DockerStringRegistryCases()
    ensures GenRegPath(RegString("docker://abcd"), Docker, "docker").Success?
    ensures GenRegPath(RegString("docker://abcd"), Docker, "oras").Failure?
    ensures GenRegPath(RegString("docker://abcd"), Docker, "dir").Failure?
    ensures GenRegPath(RegString("docker://abcd"), Docker, "").Success?
    ensures GenRegPath(RegString("oras://abcd"), Docker, "").Failure?
  {
    assert HasScheme("docker://abcd", "docker");
    NotPrefixAt("oras://abcd", "docker://", 0);
  }

  /** The same cases under singularity with a requested URI that the
      registry carries. */
  lemma SingularityRequestedUriCases()
    ensures GenRegPath(RegString("docker://abcd"), Singularity, "docker").Success?
    ensures GenRegPath(RegString("oras://abcd"), Singularity, "oras").Success?
    ensures GenRegPath(RegString("dir://abcd"), Singularity, "dir").Success?
  {
    assert HasScheme("docker://abcd", "docker");
    assert HasScheme("oras://abcd", "oras");
    assert HasScheme("dir://abcd", "dir");
  }

  /** Under singularity, a requested URI the registry does not carry stops
      the program. */
  lemma SingularityRequestedUriMissing()
    ensures GenRegPath(RegString("docker://abcd"), Singularity, "oras") == Failure(NoMatchingUri)
    ensures GenRegPath(RegString("docker://abcd"), Singularity, "dir") == Failure(NoMatchingUri)
  {
    NotPrefixAt("docker://abcd", "oras://", 0);
    NotPrefixAt("docker://abcd", "dir://", 1);
    assert FindEntry(["docker://abcd"], "oras", 0) == None;
    assert FindEntry(["docker://abcd"], "dir", 0) == None;
  }

  /** The same cases under singularity with no requested URI. */
  lemma SingularityDefaultUriCases()
    ensures GenRegPath(RegString("docker://abcd"), Singularity, "").Success?
    ensures GenRegPath(RegString("oras://abcd"), Singularity, "").Success?
    ensures GenRegPath(RegString("dir://abcd"), Singularity, "").Success?
  {
    assert HasScheme("docker://abcd", "docker");
    assert HasScheme("oras://abcd", "oras");
    assert HasScheme("dir://abcd", "dir");
  }

  lemma NotPrefixAt(s: string, p: string, i: nat)
    requires i < |s| && i < |p| && s[i] != p[i]
    ensures !StartsWith(s, p)
  {
    if |p| <= |s| {
      assert s[..|p|][i] != p[i];
    }
  }

  /** Priority across a list: under singularity an `oras://` entry wins over
      an earlier `docker://` entry, because schemes are tried before entries. */
  lemma SchemeOrderBeatsListOrder()
    ensures GenRegPath(RegList(["docker://a", "oras://b"]), Singularity, "") == Success("oras://b")
    ensures GenRegPath(RegList(["docker://a", "oras://b"]), Docker, "") == Success("docker://a")
  {
    assert HasScheme("oras://b", "oras");
    assert HasScheme("docker://a", "docker");
    NotPrefixAt("docker://a", "oras://", 0);
  }
}
