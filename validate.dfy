/** The configuration gate (hepscore.py, HEPscore.validate_conf): the checks
    it performs, the declarative conditions they amount to, and what is left
    of the `benchmarks` mapping afterwards. The benchmark checks follow the
    source's order; the settings checks follow a fixed order of keys, where
    the source follows the order of the keys in the YAML mapping. */
module Validate {
  import opened Wrappers
  import opened Text
  import opened Values
  import opened Registry
  import opened Config

  // ---------------------------------------------------------------------------
  // settings
  // ---------------------------------------------------------------------------

  /** `repetitions` and `retries`: absent, or an int (a bool is one) that is
      not negative. */
  predicate CountOk(v: Option<Value>) {
    v.None? || (IsPyInt(v.value) && !(v.value.VInt? && v.value.i < 0))
  }

  /** What a settings mapping must satisfy to get through the gate. */
  predicate SettingsAcceptable(st: Settings) {
    && st.scoreMethod == Some(VStr("geometric_mean"))
    && st.repetitions.Some? && st.name.Some? && st.registry.Some? && st.referenceMachine.Some?
    && CheckRegList(st.registry.value) == RegAccepted
    && CountOk(st.repetitions) && CountOk(st.retries)
    && (st.scaling.Some? ==> PyFloatOk(st.scaling.value).Converted?)
  }

  /** The settings part of `validate_conf`: the section must exist, the five
      required keys must be present, then the registry, method, counts and
      scaling are checked. Whether the settings pass does not depend on the
      order of the checks; which error is reported first for settings with
      several faults does, and here it is the one of the first key in the
      order registry, method, repetitions, retries, scaling. */
  function CheckSettings(s: Option<Settings>): (r: Outcome<Fatal>)
    ensures r.Pass? <==> s.Some? && SettingsAcceptable(s.value)
    ensures s.None? ==> r == Fail(MissingSection("settings"))
  {
    if s.None? then Fail(MissingSection("settings"))
    else
      var st := s.value;
      if st.scoreMethod.None? then Fail(MissingSetting("method"))
      else if st.repetitions.None? then Fail(MissingSetting("repetitions"))
      else if st.name.None? then Fail(MissingSetting("name"))
      else if st.registry.None? then Fail(MissingSetting("registry"))
      else if st.referenceMachine.None? then Fail(MissingSetting("reference_machine"))
      else
        var reg := CheckRegList(st.registry.value);
        if reg == RegCrashed then Fail(Uncaught("IndexError"))
        else if reg == RegRejected then Fail(BadRegistry)
        else if st.scoreMethod.value != VStr("geometric_mean") then Fail(BadMethod)
        else if !CountOk(st.repetitions) then Fail(BadCount("repetitions"))
        else if !CountOk(st.retries) then Fail(BadCount("retries"))
        else if st.scaling.Some? && PyFloatOk(st.scaling.value).TypeError? then Fail(Uncaught("TypeError"))
        else if st.scaling.Some? && PyFloatOk(st.scaling.value).ValueError? then Fail(BadScaling)
        else Pass
  }

  // ---------------------------------------------------------------------------
  // benchmarks
  // ---------------------------------------------------------------------------

  /** A benchmark whose name starts with `.` is commented out. */
  predicate IsCommented(name: string) { |name| > 0 && name[0] == '.' }

  /** What one benchmark entry must satisfy. A commented-out entry is not
      checked at all; an unparseable `weight` is only logged, and only a weight
      `float()` cannot even be applied to stops the program. */
  predicate BenchAcceptable(name: string, b: Bench) {
    |name| > 0 && (name[0] == '.' || EntryAcceptable(name, b))
  }

  /** The checks an entry that is not commented out must pass. */
  predicate EntryAcceptable(name: string, b: Bench) {
    && CheckChars(name)
    && b.version.Some?
    && (b.weight.Some? ==> !PyFloatOk(b.weight.value).TypeError?)
    && b.refScores.Some?
    && (forall k | 0 <= k < |b.refScores.value| :: PyFloatOk(b.refScores.value[k].1).Converted?)
    && (b.resultsFile.Some? ==> WellFormedRegistry(b.resultsFile.value))
    && (b.registry.Some? ==> CheckRegList(b.registry.value) == RegAccepted)
  }

  /** The loop over `ref_scores`: the first value `float()` rejects stops the
      program. */
  function CheckRefScores(name: string, scores: seq<(string, Value)>): (r: Outcome<Fatal>)
    ensures r.Pass? <==> forall k | 0 <= k < |scores| :: PyFloatOk(scores[k].1).Converted?
  {
    if |scores| == 0 then Pass
    else match PyFloatOk(scores[0].1)
      case TypeError => Fail(Uncaught("TypeError"))
      case ValueError => Fail(BadRefScore(name, scores[0].0))
      case Converted(_) =>
        var rest := CheckRefScores(name, scores[1..]);
        assert forall k | 1 <= k < |scores| :: scores[k] == scores[1..][k - 1];
        rest
  }

  /** The body of the benchmark loop for one entry. */
  function CheckBenchmark(name: string, b: Bench): (r: Outcome<Fatal>)
    ensures r.Pass? <==> BenchAcceptable(name, b)
  {
    if |name| == 0 then Fail(Uncaught("IndexError"))
    else if name[0] == '.' then Pass
    else if !CheckChars(name) then Fail(BadBenchmarkName(name))
    else if b.version.None? then Fail(MissingVersion(name))
    else if b.weight.Some? && PyFloatOk(b.weight.value).TypeError? then Fail(Uncaught("TypeError"))
    else if b.refScores.None? then Fail(MissingRefScores(name))
    else match CheckRefScores(name, b.refScores.value)
      case Fail(e) => Fail(e)
      case Pass =>
        if b.resultsFile.Some? && |b.resultsFile.value| == 0 then Fail(Uncaught("IndexError"))
        else if b.resultsFile.Some? && !WellFormedRegistry(b.resultsFile.value) then Fail(BadResultsFile(name))
        else if b.registry.Some? && CheckRegList(b.registry.value) == RegCrashed then Fail(Uncaught("IndexError"))
        else if b.registry.Some? && CheckRegList(b.registry.value) == RegRejected then Fail(BadRegistry)
        else Pass
  }

  /** The benchmark loop: the first entry that fails stops the program. */
  function CheckBenchmarks(bs: seq<(string, Bench)>): (r: Outcome<Fatal>)
    ensures r.Pass? <==> forall k | 0 <= k < |bs| :: BenchAcceptable(bs[k].0, bs[k].1)
  {
    if |bs| == 0 then Pass
    else match CheckBenchmark(bs[0].0, bs[0].1)
      case Fail(e) => Fail(e)
      case Pass =>
        var rest := CheckBenchmarks(bs[1..]);
        assert forall k | 1 <= k < |bs| :: bs[k] == bs[1..][k - 1];
        rest
  }

  /** The entries `validate_conf` keeps: those not commented out, in order. */
  function Uncommented(bs: seq<(string, Bench)>): (r: seq<(string, Bench)>)
    ensures |r| <= |bs|
    ensures forall k | 0 <= k < |r| :: r[k] in bs && !IsCommented(r[k].0)
    ensures forall k | 0 <= k < |bs| :: !IsCommented(bs[k].0) ==> bs[k] in r
  {
    if |bs| == 0 then []
    else if IsCommented(bs[0].0) then Uncommented(bs[1..])
    else [bs[0]] + Uncommented(bs[1..])
  }

  /** The whole of `validate_conf`. */
  function ValidateConfSpec(settings: Option<Settings>, benchmarks: Option<seq<(string, Bench)>>): (r: Outcome<Fatal>)
    ensures r.Pass? <==>
      && settings.Some? && SettingsAcceptable(settings.value)
      && benchmarks.Some? && |benchmarks.value| > 0
      && forall k | 0 <= k < |benchmarks.value| :: BenchAcceptable(benchmarks.value[k].0, benchmarks.value[k].1)
  {
    match CheckSettings(settings)
    case Fail(e) => Fail(e)
    case Pass =>
      if benchmarks.None? then Fail(MissingSection("benchmarks"))
      else match CheckBenchmarks(benchmarks.value)
        case Fail(e) => Fail(e)
        case Pass => if |benchmarks.value| == 0 then Fail(NoBenchmarks) else Pass
  }

  // ---------------------------------------------------------------------------
  // Properties of the gate
  // ---------------------------------------------------------------------------

  /** Dropping commented-out entries a second time changes nothing. */
  lemma {:induction false} UncommentedIdempotent(bs: seq<(string, Bench)>)
    ensures Uncommented(Uncommented(bs)) == Uncommented(bs)
  {
    if |bs| > 0 {
      UncommentedIdempotent(bs[1..]);
      if !IsCommented(bs[0].0) {
        var u := Uncommented(bs[1..]);
        assert ([bs[0]] + u)[1..] == u;
      }
    }
  }

  /** Dropping commented-out entries, one entry at the end at a time. */
  lemma {:induction false} UncommentedSnoc(a: seq<(string, Bench)>, x: (string, Bench))
    ensures Uncommented(a + [x]) == Uncommented(a) + (if IsCommented(x.0) then [] else [x])
  {
    if |a| > 0 {
      UncommentedSnoc(a[1..], x);
      assert (a + [x])[1..] == a[1..] + [x];
    } else {
      assert a + [x] == [x];
    }
  }

  /** Validating what validation left behind accepts it again and leaves it
      unchanged, provided some benchmark survived. */
  lemma RevalidationChangesNothing(settings: Option<Settings>, bs: seq<(string, Bench)>)
    requires ValidateConfSpec(settings, Some(bs)).Pass?
    requires Uncommented(bs) != []
    ensures ValidateConfSpec(settings, Some(Uncommented(bs))).Pass?
    ensures Uncommented(Uncommented(bs)) == Uncommented(bs)
  {
    var u := Uncommented(bs);
    forall k | 0 <= k < |u|
      ensures BenchAcceptable(u[k].0, u[k].1)
    {
      var j :| 0 <= j < |bs| && bs[j] == u[k];
    }
    UncommentedIdempotent(bs);
  }

  /** The gate counts benchmarks before it looks for the leading `.`, so a
      mapping whose entries are all commented out passes and is left empty;
      only an empty mapping fails. Validating the result again then fails,
      so the gate is not idempotent on such a configuration. */
  lemma AllCommentedOutPassesOnce(settings: Settings, bs: seq<(string, Bench)>)
    requires SettingsAcceptable(settings)
    requires |bs| > 0 && forall k | 0 <= k < |bs| :: IsCommented(bs[k].0)
    ensures ValidateConfSpec(Some(settings), Some(bs)) == Pass
    ensures Uncommented(bs) == []
    ensures ValidateConfSpec(Some(settings), Some(Uncommented(bs))) == Fail(NoBenchmarks)
  {
  }

  /** A benchmark name holding any character outside `[A-Za-z0-9_-]` (a space,
      a shell metacharacter) stops the program before any command is built,
      unless the name is commented out. */
  lemma IllegalNameRejected(name: string, b: Bench, i: nat)
    requires i < |name| && !IsNameChar(name[i]) && name[0] != '.'
    ensures CheckBenchmark(name, b) == Fail(BadBenchmarkName(name))
  {
  }

  /** A weight `float()` cannot parse is only logged: it never changes whether
      a benchmark gets through. */
  lemma UnparseableWeightOnlyLogged(name: string, b: Bench, w: string)
    requires !IsFloatLiteral(w)
    ensures BenchAcceptable(name, b.(weight := Some(VStr(w)))) == BenchAcceptable(name, b.(weight := None))
  {
  }
}
