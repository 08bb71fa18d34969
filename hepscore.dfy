/** The HEPscore class of hepscore.py: what `__init__` makes of the YAML
    document, `validate_conf`'s removal of commented-out benchmarks, the
    registry resolution, `_run_benchmark`, the suite loop of `run`, and the
    decisions of `write_output`. */
module Suite {
  import opened Wrappers
  import opened Text
  import opened Values
  import opened Registry
  import opened Config
  import opened Validate
  import opened Stats
  import opened Reduce
  import opened Runner
  import Output

  // ---------------------------------------------------------------------------
  // __init__: from the YAML document to the object's configuration
  // ---------------------------------------------------------------------------

  /** The section `__init__` works on: the deprecated `hepscore_benchmark`
      key, when present, replaces `hepscore`. */
  function SelectSection(doc: Document): Option<Section> {
    if doc.hepscoreBenchmark.Some? then doc.hepscoreBenchmark else doc.hepscore
  }

  /** `container_exec`: singularity when the setting is absent; only the two
      engine names are understood. */
  function EngineSetting(v: Option<Value>): (r: Option<Engine>)
    ensures r == Some(Docker) <==> v == Some(VStr("docker"))
    ensures r.None? <==> v.Some? && v.value != VStr("docker") && v.value != VStr("singularity")
  {
    match v
    case None => Some(Singularity)
    case Some(x) =>
      if x == VStr("singularity") then Some(Singularity)
      else if x == VStr("docker") then Some(Docker)
      else None
  }

  /** The `container_uri` option: absent means no preference, otherwise it
      must be one of the URI schemes the class knows. */
  function UriOption(v: Option<Value>): (r: Option<string>)
    ensures r.None? <==> v.Some? && !(v.value.VStr? && v.value.s in ValidUris)
    ensures r.Some? ==> (v.None? && r.value == "") || (v == Some(VStr(r.value)) && r.value in ValidUris)
  {
    match v
    case None => Some("")
    case Some(x) => if x.VStr? && x.s in ValidUris then Some(x.s) else None
  }

  /** `self.ncores` and what `settings['ncores']` holds afterwards: the setting
      is enforced only when `int()` of it differs from the host's core count;
      otherwise (and when it is absent) both become 0. */
  function NcoresSetting(v: Option<Value>, hostCores: nat): (r: Result<(int, Option<Value>), Fatal>)
    ensures r.Failure? <==> v.Some? && !PyInt(v.value).Converted?
    ensures r.Success? ==>
      if v.Some? && PyInt(v.value).value != hostCores
      then r.value == (PyInt(v.value).value, v)
      else r.value == (0, Some(VInt(0)))
  {
    match v
    case None => Success((0, Some(VInt(0))))
    case Some(x) =>
      match PyInt(x)
      case Converted(n) => if n != hostCores then Success((n, v)) else Success((0, Some(VInt(0))))
      case ValueError => Failure(Uncaught("ValueError"))
      case TypeError => Failure(Uncaught("TypeError"))
  }

  /** The object's configuration: the attributes `__init__` sets and the
      `settings` and `benchmarks` parts of `confobj`. */
  datatype Init = Init(
    cec: Engine,
    curi: string,
    addarch: Value,
    ncores: int,
    clean: Value,
    cleanFiles: Value,
    userns: Value,
    settings: Settings,
    benchmarks: seq<(string, Bench)>,
    registry: string)

  /** `__init__` up to the call of `validate_conf`: the configuration with its
      benchmarks not yet read, and the `benchmarks` section as found. */
  datatype Prepared = Prepared(init: Init, benchmarks: Option<seq<(string, Bench)>>)

  const NoOptions := Options(None, None, None, None, None, None)

  function Prepare(doc: Document, hostCores: nat): (r: Result<Prepared, Fatal>)
    ensures SelectSection(doc).None? ==> r == Failure(NoHepscoreKey)
    ensures r.Success? ==>
      var sec := SelectSection(doc).value;
      var opts := if sec.options.Some? then sec.options.value else NoOptions;
      && sec.settings.Some?
      && r.value.benchmarks == sec.benchmarks
      && Some(r.value.init.cec) == EngineSetting(sec.settings.value.containerExec)
      && Some(r.value.init.curi) == UriOption(opts.containerUri)
      && r.value.init.settings.registry == (if opts.registry.Some? then opts.registry else sec.settings.value.registry)
      && r.value.init.settings.repetitions == sec.settings.value.repetitions
      && r.value.init.settings.retries == sec.settings.value.retries
    /** The `ncores` option overrides the setting before the core count is
        decided; `addarch` comes from the settings, `clean`, `clean_files`
        and `userns` from the options, each false when absent. */
    ensures r.Success? ==>
      var sec := SelectSection(doc).value;
      var opts := if sec.options.Some? then sec.options.value else NoOptions;
      var nc := NcoresSetting(if opts.ncores.Some? then opts.ncores else sec.settings.value.ncores, hostCores);
      && nc.Success?
      && r.value.init.ncores == nc.value.0
      && r.value.init.settings.ncores == nc.value.1
      && r.value.init.addarch == (if sec.settings.value.addarch.Some? then sec.settings.value.addarch.value else VBool(false))
      && r.value.init.clean == (if opts.clean.Some? then opts.clean.value else VBool(false))
      && r.value.init.cleanFiles == (if opts.cleanFiles.Some? then opts.cleanFiles.value else VBool(false))
      && r.value.init.userns == (if opts.userns.Some? then opts.userns.value else VBool(false))
    /** The settings are kept except for the two overridden keys; the
        benchmarks and the registry are not read yet. */
    ensures r.Success? ==>
      var st := SelectSection(doc).value.settings.value;
      var opts := if SelectSection(doc).value.options.Some? then SelectSection(doc).value.options.value else NoOptions;
      var nc := NcoresSetting(if opts.ncores.Some? then opts.ncores else st.ncores, hostCores);
      && r.value.init.settings == st.(ncores := nc.value.1, registry := if opts.registry.Some? then opts.registry else st.registry)
      && r.value.init.benchmarks == []
      && r.value.init.registry == ""
    /** Past the section and the settings: a bad URI stops the program, a core
        count that cannot be read raises, and otherwise the constructor gets
        through. */
    ensures SelectSection(doc).Some? && SelectSection(doc).value.settings.Some? ==>
      var st := SelectSection(doc).value.settings.value;
      var opts := if SelectSection(doc).value.options.Some? then SelectSection(doc).value.options.value else NoOptions;
      var nc := NcoresSetting(if opts.ncores.Some? then opts.ncores else st.ncores, hostCores);
      && (EngineSetting(st.containerExec).Some? && UriOption(opts.containerUri).None? ==> r == Failure(UnknownContainerUri))
      && (EngineSetting(st.containerExec).Some? && UriOption(opts.containerUri).Some? && nc.Failure? ==> r == Failure(nc.error))
      && (EngineSetting(st.containerExec).Some? && UriOption(opts.containerUri).Some? && nc.Success? ==> r.Success?)
    /** Each stopping point of the constructor before `validate_conf`. */
    ensures SelectSection(doc).Some? && SelectSection(doc).value.settings.None? ==> r == Failure(Uncaught("KeyError"))
    ensures (SelectSection(doc).Some? && SelectSection(doc).value.settings.Some?
             && EngineSetting(SelectSection(doc).value.settings.value.containerExec).None?)
            ==> r == Failure(UnknownEngine)
  {
    match SelectSection(doc)
    case None => Failure(NoHepscoreKey)
    case Some(sec) =>
      if sec.settings.None? then Failure(Uncaught("KeyError"))
      else
        var st := sec.settings.value;
        var opts := if sec.options.Some? then sec.options.value else NoOptions;
        match EngineSetting(st.containerExec)
        case None => Failure(UnknownEngine)
        case Some(cec) =>
          match UriOption(opts.containerUri)
          case None => Failure(UnknownContainerUri)
          case Some(curi) =>
            var st1 := st.(ncores := if opts.ncores.Some? then opts.ncores else st.ncores,
                           registry := if opts.registry.Some? then opts.registry else st.registry);
            match NcoresSetting(st1.ncores, hostCores)
            case Failure(e) => Failure(e)
            case Success(nc) =>
              var init := Init(
                cec, curi,
                if st.addarch.Some? then st.addarch.value else VBool(false),
                nc.0,
                if opts.clean.Some? then opts.clean.value else VBool(false),
                if opts.cleanFiles.Some? then opts.cleanFiles.value else VBool(false),
                if opts.userns.Some? then opts.userns.value else VBool(false),
                st1.(ncores := nc.1),
                [], "");
              Success(Prepared(init, sec.benchmarks))
  }

  /** One benchmark's registry, if it has one, resolved. */
  function ResolveEntry(e: (string, Bench), cec: Engine, curi: string): Result<(string, Bench), RegFault> {
    if e.1.registry.None? then Success(e)
    else match GenRegPath(e.1.registry.value, cec, curi)
      case Failure(f) => Failure(f)
      case Success(p) => Success((e.0, e.1.(registry := Some(RegString(p)))))
  }

  /** The loop over benchmarks that resolves each per-benchmark registry; the
      first one that cannot be resolved stops the program. */
  function ResolveAll(bs: seq<(string, Bench)>, cec: Engine, curi: string): (r: Result<seq<(string, Bench)>, RegFault>)
    ensures r.Success? ==> |r.value| == |bs|
  {
    if |bs| == 0 then Success([])
    else
      var n := |bs| - 1;
      match ResolveAll(bs[..n], cec, curi)
      case Failure(f) => Failure(f)
      case Success(prev) =>
        match ResolveEntry(bs[n], cec, curi)
        case Failure(f) => Failure(f)
        case Success(e) => Success(prev + [e])
  }

  /** The loop resolves every entry in place, keeping names and order, and
      fails exactly when some entry's registry cannot be resolved. */
  lemma {:induction false} ResolveAllEntries(bs: seq<(string, Bench)>, cec: Engine, curi: string)
    ensures var r := ResolveAll(bs, cec, curi);
      && (r.Success? ==> forall k | 0 <= k < |bs| :: ResolveEntry(bs[k], cec, curi) == Success(r.value[k]))
      && (r.Failure? <==> exists k | 0 <= k < |bs| :: ResolveEntry(bs[k], cec, curi).Failure?)
  {
    if |bs| > 0 {
      var n := |bs| - 1;
      ResolveAllEntries(bs[..n], cec, curi);
      assert forall k | 0 <= k < n :: bs[..n][k] == bs[k];
      var r := ResolveAll(bs, cec, curi);
      var prev := ResolveAll(bs[..n], cec, curi);
      if prev.Failure? {
        var k :| 0 <= k < n && ResolveEntry(bs[..n][k], cec, curi).Failure?;
        assert ResolveEntry(bs[k], cec, curi).Failure?;
      } else if ResolveEntry(bs[n], cec, curi).Success? {
        assert r.value == prev.value + [ResolveEntry(bs[n], cec, curi).value];
      }
    }
  }

  /** A resolved entry keeps its name and everything but the registry, which
      becomes the path `_gen_regpath` picks. */
  lemma ResolvedEntryShape(e: (string, Bench), cec: Engine, curi: string)
    requires ResolveEntry(e, cec, curi).Success?
    ensures var r := ResolveEntry(e, cec, curi).value;
      && r.0 == e.0 && r.1.(registry := e.1.registry) == e.1
      && (e.1.registry.Some? ==>
            && GenRegPath(e.1.registry.value, cec, curi).Success?
            && r.1.registry == Some(RegString(GenRegPath(e.1.registry.value, cec, curi).value)))
      && (e.1.registry.None? ==> r == e)
  {
  }

  /** The end of `__init__`: the settings registry resolved (and, without
      its engine's scheme, kept as `self.registry`), then each benchmark's. */
  function Resolve(c: Init): (r: Result<Init, Fatal>)
    requires c.settings.registry.Some?
  {
    match GenRegPath(c.settings.registry.value, c.cec, c.curi)
    case Failure(f) => Failure(Unresolvable(f))
    case Success(path) =>
      match ResolveAll(c.benchmarks, c.cec, c.curi)
      case Failure(f) => Failure(Unresolvable(f))
      case Success(bs) =>
        Success(c.(settings := c.settings.(registry := Some(RegString(path))),
                   registry := DropUri(c.cec, path),
                   benchmarks := bs))
  }

  /** The whole of `__init__`: the configuration the object holds, or why the
      program stops. */
  function Normalise(doc: Document, hostCores: nat): Result<Init, Fatal> {
    match Prepare(doc, hostCores)
    case Failure(e) => Failure(e)
    case Success(p) =>
      match ValidateConfSpec(Some(p.init.settings), p.benchmarks)
      case Fail(e) => Failure(e)
      case Pass => Resolve(p.init.(benchmarks := Uncommented(p.benchmarks.value)))
  }

  /** `pop(key)` on the benchmarks mapping. */
  function PopKey(bs: seq<(string, Bench)>, key: string): seq<(string, Bench)> {
    if |bs| == 0 then []
    else if bs[0].0 == key then bs[1..]
    else [bs[0]] + PopKey(bs[1..], key)
  }

  // ---------------------------------------------------------------------------
  // What a run needs of the configuration
  // ---------------------------------------------------------------------------

  /** `int()` of a count the gate accepted. */
  function CountOf(v: Option<Value>): nat
    requires CountOk(v)
  {
    if v.None? then 0
    else match v.value
      case VInt(i) => i
      case VBool(b) => if b then 1 else 0
      case _ => 0
  }

  predicate Runnable(st: Settings) {
    st.repetitions.Some? && CountOk(st.repetitions) && CountOk(st.retries)
  }

  predicate BenchRunnable(b: Bench) {
    b.version.Some? && b.refScores.Some? && (b.registry.Some? ==> b.registry.value.RegString?)
  }

  predicate AllRunnable(bs: seq<(string, Bench)>) {
    forall k | 0 <= k < |bs| :: BenchRunnable(bs[k].1)
  }

  /** Once `__init__` completes, the counts are usable, every benchmark left
      is named legally, has a version and reference scores, and carries its
      registry, if any, as a resolved path. */
  lemma NormalisedIsRunnable(doc: Document, hostCores: nat)
    requires Normalise(doc, hostCores).Success?
    ensures var c := Normalise(doc, hostCores).value;
      && Runnable(c.settings)
      && c.settings.registry.Some? && c.settings.registry.value.RegString?
      && AllRunnable(c.benchmarks)
      && forall k | 0 <= k < |c.benchmarks| :: !IsCommented(c.benchmarks[k].0) && CheckChars(c.benchmarks[k].0)
  {
    var p := Prepare(doc, hostCores).value;
    var bs := p.benchmarks.value;
    var u := Uncommented(bs);
    var c := Normalise(doc, hostCores).value;
    var path := GenRegPath(p.init.settings.registry.value, p.init.cec, p.init.curi).value;
    var rs := ResolveAll(u, p.init.cec, p.init.curi).value;
    assert c == p.init.(settings := p.init.settings.(registry := Some(RegString(path))),
                        registry := DropUri(p.init.cec, path), benchmarks := rs);
    ResolveAllEntries(u, p.init.cec, p.init.curi);
    forall k | 0 <= k < |rs|
      ensures BenchRunnable(rs[k].1) && !IsCommented(rs[k].0) && CheckChars(rs[k].0)
    {
      ResolvedEntryShape(u[k], p.init.cec, p.init.curi);
      var j :| 0 <= j < |bs| && bs[j] == u[k];
      assert BenchAcceptable(bs[j].0, bs[j].1);
    }
  }

  /** The configuration parts `_run_benchmark` reads. */
  datatype Setup = Setup(
    cec: Engine,
    addarch: Value,
    ncores: int,
    cleanFiles: Value,
    registry: string,
    runs: nat,
    retries: nat)

  /** What the program cannot compute itself: the machine's architecture,
      whether the suite log opens, how each launch of a benchmark ends, the
      summary files its run directories hold afterwards, and the per-run
      score. */
  datatype World = World(
    arch: string,
    logOpens: string -> bool,
    launch: (string, nat) -> Launch,
    files: string -> seq<ResultFile>,
    score: Scorer)

  // ---------------------------------------------------------------------------
  // _run_benchmark
  // ---------------------------------------------------------------------------

  /** The run entries after `n` attempts: each attempt `i` resets `run<i>`. */
  function Attempted(runs: map<nat, RunEntry>, n: nat): map<nat, RunEntry> {
    if n == 0 then runs else Attempted(runs, n - 1)[n - 1 := RunEntry(true, None)]
  }

  /** After `n` attempts, runs `0 .. n-1` hold fresh entries and every other
      entry is as it was. */
  lemma {:induction false} AttemptedEntries(runs: map<nat, RunEntry>, n: nat)
    ensures var r := Attempted(runs, n);
      && (forall i: nat | i < n :: i in r && r[i] == RunEntry(true, None))
      && (forall i | i in runs && i >= n :: i in r && r[i] == runs[i])
      && (forall i | i in r :: i < n || i in runs)
  {
    if n > 0 {
      AttemptedEntries(runs, n - 1);
      var r := Attempted(runs, n);
      forall i: nat | i < n
        ensures i in r && r[i] == RunEntry(true, None)
      {
        assert r == Attempted(runs, n - 1)[n - 1 := RunEntry(true, None)];
        if i < n - 1 {
          assert i in Attempted(runs, n - 1) && Attempted(runs, n - 1)[i] == RunEntry(true, None);
        }
      }
    }
  }

  /** How each of the first `n` launches of a benchmark ends. */
  function LaunchOutcomes(name: string, n: nat, launch: (string, nat) -> Launch): (r: seq<Launch>)
    ensures |r| == n && forall i | 0 <= i < n :: r[i] == launch(name, i)
  {
    seq(n, i requires 0 <= i < n => launch(name, i))
  }

  /** What `_run_benchmark` produces for one benchmark: the value it returns,
      the benchmark's new entry, the `wl-scores` it writes, what it appends
      to the score log, the image and the option string it runs, and the
      counters of the launch loop (absent when the log did not open). */
  datatype BenchRun = BenchRun(
    result: real,
    bench: Bench,
    wl: Option<map<string, WlEntry>>,
    scores: seq<real>,
    image: string,
    options: string,
    tally: Option<Tally>)

  /** The registry a benchmark's image comes from: its own, without the
      engine's scheme, or the suite's. */
  function BenchRegistry(s: Setup, b: Bench): string
    requires BenchRunnable(b)
  {
    if b.registry.Some? then DropUri(s.cec, b.registry.value.s) else s.registry
  }

  /** The image `_run_benchmark` runs. */
  function BenchImage(s: Setup, name: string, b: Bench, arch: string): string
    requires BenchRunnable(b)
  {
    var reg := BenchRegistry(s, b);
    ImageName(reg, name, ImageVersion(b.version.value, s.addarch, s.cec, reg, arch))
  }

  function ArgsOf(b: Bench): seq<(string, Value)> {
    if b.args.Some? then b.args.value else []
  }

  /** The launch loop's counters and the reduction of what the runs left. */
  function Launched(s: Setup, name: string, b: Bench, mock: bool, w: World): (Tally, Reduction)
    requires BenchRunnable(b)
  {
    var t := RetrySpec(s.runs, s.retries, mock, LaunchOutcomes(name, s.runs + s.retries, w.launch));
    (t, ProcResultsSpec(b.(runs := Attempted(b.runs, t.launched)), s.runs, w.files(name), w.score))
  }

  /** `_run_benchmark(name)`; `None` when it raises: building the option
      string raises on an argument with an empty name, and, once the runs
      are over, `_proc_results` raises on a reference score it cannot divide
      by. */
  function BenchmarkRun(s: Setup, name: string, b: Bench, mock: bool, w: World): Option<BenchRun>
    requires BenchRunnable(b)
  {
    match OptionsString(ArgsOf(b), IsTrue(s.cleanFiles), s.ncores)
    case None => None
    case Some(opts) =>
      var image := BenchImage(s, name, b, w.arch);
      if !w.logOpens(name) then Some(BenchRun(-1.0, b, None, [], image, opts, None))
      else if ReductionRaises(b.refScores.value, w.files(name)) then None
      else
        var (t, red) := Launched(s, name, b, mock, w);
        Some(BenchRun(if t.failed then -1.0 else red.result, red.bench, red.wl, red.scores, image, opts, Some(t)))
  }

  /** `_run_benchmark` raises exactly when the option string cannot be
      built, or the log opens and a division by a reference score raises; it
      keeps the benchmark's weight, version, registry and arguments; it
      gives up with `-1` and changes nothing when the log does not open, and
      returns `-1` when the launches fail. */
  lemma BenchmarkRunShape(s: Setup, name: string, b: Bench, mock: bool, w: World)
    requires BenchRunnable(b)
    ensures var r := BenchmarkRun(s, name, b, mock, w);
      && (r.None? <==> OptionsString(ArgsOf(b), IsTrue(s.cleanFiles), s.ncores).None?
                       || (w.logOpens(name) && ReductionRaises(b.refScores.value, w.files(name))))
      && (r.Some? ==>
            && r.value.bench.weight == b.weight && r.value.bench.version == b.version
            && r.value.bench.registry == b.registry && r.value.bench.args == b.args
            && (r.value.tally.None? <==> !w.logOpens(name))
            && (r.value.tally.None? ==> r.value.result == -1.0 && r.value.bench == b && r.value.wl.None? && r.value.scores == [])
            && (r.value.tally.Some? && r.value.tally.value.failed ==> r.value.result == -1.0))
  {
    var opts := OptionsString(ArgsOf(b), IsTrue(s.cleanFiles), s.ncores);
    var image := BenchImage(s, name, b, w.arch);
    if opts.None? {
      assert BenchmarkRun(s, name, b, mock, w) == None;
    } else if !w.logOpens(name) {
      assert BenchmarkRun(s, name, b, mock, w) == Some(BenchRun(-1.0, b, None, [], image, opts.value, None));
    } else if ReductionRaises(b.refScores.value, w.files(name)) {
      assert BenchmarkRun(s, name, b, mock, w) == None;
    } else {
      var t := RetrySpec(s.runs, s.retries, mock, LaunchOutcomes(name, s.runs + s.retries, w.launch));
      var b1 := b.(runs := Attempted(b.runs, t.launched));
      ProcResultsKeepsConfiguration(b1, s.runs, w.files(name), w.score);
      var red := ProcResultsSpec(b1, s.runs, w.files(name), w.score);
      assert Launched(s, name, b, mock, w) == (t, red);
      assert BenchmarkRun(s, name, b, mock, w)
          == Some(BenchRun(if t.failed then -1.0 else red.result, red.bench, red.wl, red.scores, image, opts.value, Some(t)));
    }
  }

  /** `validate_conf` only asks that `float()` accept a reference score, so
      it lets through a zero and a number written as a string, on which the
      division of `_proc_results` raises as soon as a run reports that
      sub-benchmark. */
  lemma AcceptedRefScoresThatRaise(name: string, sub: string, t: string, f: ResultFile)
    requires IsFloatLiteral(t) && KeysPresent(f) && sub in SubScores(f)
    ensures CheckRefScores(name, [(sub, VInt(0))]).Pass? && DivisionRaises([(sub, VInt(0))], f)
    ensures CheckRefScores(name, [(sub, VStr(t))]).Pass? && DivisionRaises([(sub, VStr(t))], f)
  {
    assert [(sub, VInt(0))][0].0 == sub;
    assert [(sub, VStr(t))][0].0 == sub;
  }

  /** The launch loop of `_run_benchmark`: at most `runs + retries` attempts,
      none once `runs` have succeeded, giving up when the retries run out. */
  method RetryLoop(name: string, runs: nat, retries: nat, mock: bool, launch: (string, nat) -> Launch,
                   entries: map<nat, RunEntry>)
    returns (t: Tally, stored: map<nat, RunEntry>)
    ensures t == RetrySpec(runs, retries, mock, LaunchOutcomes(name, runs + retries, launch))
    ensures stored == Attempted(entries, t.launched)
  {
    ghost var outcomes := LaunchOutcomes(name, runs + retries, launch);
    var successes, retryCount := 0, 0;
    stored := entries;
    var i: nat := 0;
    while i < runs + retries && successes != runs
      invariant i <= runs + retries
      invariant RetryFrom(runs, retries, mock, outcomes, Tally(i, successes, retryCount, false))
             == RetrySpec(runs, retries, mock, outcomes)
      invariant stored == Attempted(entries, i)
    {
      ghost var next := Attempt(Tally(i, successes, retryCount, false), if mock then Exited(0) else outcomes[i], mock, retries);
      RetryFromStep(runs, retries, mock, outcomes, Tally(i, successes, retryCount, false));
      stored := stored[i := RunEntry(true, None)];
      if mock {
        successes := successes + 1;
      } else {
        var o := launch(name, i);
        assert o == outcomes[i];
        if o.SpawnFailed? {
          retryCount := retryCount + 1;
          if retries <= 0 || retryCount > retries {
            assert next == Tally(i + 1, successes, retryCount, true);
            return Tally(i + 1, successes, retryCount, true), stored;
          }
          i := i + 1;
          assert next == Tally(i, successes, retryCount, false);
          continue;
        }
        if o.code <= 0 {
          successes := successes + 1;
        }
        if o.code != 0 {
          retryCount := retryCount + 1;
          if retries <= 0 || retryCount > retries {
            assert next == Tally(i + 1, successes, retryCount, true);
            return Tally(i + 1, successes, retryCount, true), stored;
          }
        }
      }
      i := i + 1;
      assert next == Tally(i, successes, retryCount, false);
    }
    t := Tally(i, successes, retryCount, false);
  }

  /** The work of `_run_benchmark`: the image and the option string, the
      launch loop and the reduction of the results. */
  method ExecuteBenchmark(s: Setup, name: string, b: Bench, mock: bool, w: World) returns (run: Option<BenchRun>)
    requires BenchRunnable(b)
    ensures run == BenchmarkRun(s, name, b, mock, w)
  {
    var reg := s.registry;
    if b.registry.Some? {
      reg := DropUri(s.cec, b.registry.value.s);
    }
    var tag := ImageVersion(b.version.value, s.addarch, s.cec, reg, w.arch);
    var opts := BuildOptions(ArgsOf(b), IsTrue(s.cleanFiles), s.ncores);
    if opts.None? {
      return None;
    }
    var image := ImageName(reg, name, tag);
    assert image == BenchImage(s, name, b, w.arch);
    if !w.logOpens(name) {
      return Some(BenchRun(-1.0, b, None, [], image, opts.value, None));
    }
    var tally, reduced := LaunchAndReduce(s, name, b, mock, w);
    if reduced.None? {
      return None;
    }
    var red := reduced.value;
    run := Some(BenchRun(if tally.failed then -1.0 else red.result, red.bench, red.wl, red.scores, image, opts.value, Some(tally)));
  }

  /** The launch loop, then `_proc_results` on the entries it leaves, which
      may raise. */
  method LaunchAndReduce(s: Setup, name: string, b: Bench, mock: bool, w: World) returns (t: Tally, red: Option<Reduction>)
    requires BenchRunnable(b)
    ensures red.None? <==> ReductionRaises(b.refScores.value, w.files(name))
    ensures red.Some? ==> (t, red.value) == Launched(s, name, b, mock, w)
  {
    var stored;
    t, stored := RetryLoop(name, s.runs, s.retries, mock, w.launch, b.runs);
    red := ProcResults(b.(runs := stored), s.runs, w.files(name), w.score);
  }

  lemma RetryFromStep(runs: nat, retries: nat, mock: bool, outcomes: seq<Launch>, t: Tally)
    requires mock || |outcomes| >= runs + retries
    requires t.launched < runs + retries && t.successes != runs
    ensures var next := Attempt(t, if mock then Exited(0) else outcomes[t.launched], mock, retries);
      RetryFrom(runs, retries, mock, outcomes, t) == if next.failed then next else RetryFrom(runs, retries, mock, outcomes, next)
  {
  }

  // ---------------------------------------------------------------------------
  // The suite loop of run
  // ---------------------------------------------------------------------------

  /** Whether the loop is still going, stopped at a failure, or died on an
      uncaught exception. */
  datatype Halt = Running | Stopped | Crashed

  /** The parts of the object the suite loop changes: the benchmarks
      mapping, `wl-scores`, the score log, `settings['replay']`, `results`,
      `weights`, `error`, and the loop's own `have_failure` flag. */
  datatype Progress = Progress(
    benchmarks: seq<(string, Bench)>,
    wl: map<string, map<string, WlEntry>>,
    scores: seq<real>,
    replay: Option<bool>,
    results: seq<real>,
    weights: seq<Value>,
    error: Option<string>,
    failed: bool,
    halt: Halt)

  /** What `_run_benchmark` writes into the object for benchmark `k`. */
  function Absorb(p: Progress, k: nat, name: string, br: BenchRun, mock: bool): Progress
    requires k < |p.benchmarks|
  {
    p.(benchmarks := p.benchmarks[k := (name, br.bench)],
       wl := if br.wl.Some? then p.wl[name := br.wl.value] else p.wl,
       scores := p.scores + br.scores,
       replay := if br.tally.Some? then Some(mock) else p.replay)
  }

  /** `continue_fail` is present and is not `False` itself. */
  predicate ContinueOnFailure(st: Settings) {
    st.continueFail.Some? && !IsFalse(st.continueFail.value)
  }

  /** The weight `run` records for a benchmark: its own, or `1.0`. */
  function WeightOf(b: Bench): Value {
    if b.weight.Some? then b.weight.value else DefaultWeight
  }

  /** One iteration of the suite loop, for benchmark `k`, given what
      `_run_benchmark` did for it (`None`: it raised). */
  function Step(name: string, k: nat, run: Option<BenchRun>, mock: bool, cont: bool, p: Progress): (r: Progress)
    requires k < |p.benchmarks|
    ensures |r.benchmarks| == |p.benchmarks|
    ensures forall j | 0 <= j < |p.benchmarks| && j != k :: r.benchmarks[j] == p.benchmarks[j]
  {
    match run
    case None => p.(halt := Crashed)
    case Some(br) => Conclude(name, k, br, cont, Absorb(p, k, name, br, mock))
  }

  /** What the loop does with the value `_run_benchmark` returned: a
      negative one marks the failure, names the first failing benchmark and,
      without `continue_fail`, stops the loop; otherwise the value and the
      weight are appended, and a missing weight is written back as `1.0`. */
  function Conclude(name: string, k: nat, br: BenchRun, cont: bool, q: Progress): (r: Progress)
    requires k < |q.benchmarks|
    ensures |r.benchmarks| == |q.benchmarks|
    ensures forall j | 0 <= j < |q.benchmarks| && j != k :: r.benchmarks[j] == q.benchmarks[j]
  {
    var q := if br.result < 0.0
      then q.(failed := true, error := if q.error.None? then Some(name) else q.error)
      else q;
    if br.result < 0.0 && !cont then q.(halt := Stopped)
    else
      q.(results := q.results + [br.result],
         weights := q.weights + [WeightOf(br.bench)],
         benchmarks := if br.bench.weight.Some? then q.benchmarks
                       else q.benchmarks[k := (name, br.bench.(weight := Some(DefaultWeight)))])
  }

  /** What `_run_benchmark` does for each benchmark of `bs`, in order. */
  function Outcomes(s: Setup, bs: seq<(string, Bench)>, mock: bool, w: World): (r: seq<Option<BenchRun>>)
    requires AllRunnable(bs)
    ensures |r| == |bs|
  {
    seq(|bs|, k requires 0 <= k < |bs| => BenchmarkRun(s, bs[k].0, bs[k].1, mock, w))
  }

  /** `outs` holds what `_run_benchmark` does for each benchmark of `bs`. */
  predicate RunsOf(outs: seq<Option<BenchRun>>, s: Setup, bs: seq<(string, Bench)>, mock: bool, w: World)
    requires AllRunnable(bs)
  {
    && |outs| == |bs|
    && forall j {:trigger BenchmarkRun(s, bs[j].0, bs[j].1, mock, w)} | 0 <= j < |bs| ::
         outs[j] == BenchmarkRun(s, bs[j].0, bs[j].1, mock, w)
  }

  lemma OutcomesRun(s: Setup, bs: seq<(string, Bench)>, mock: bool, w: World)
    requires AllRunnable(bs)
    ensures RunsOf(Outcomes(s, bs, mock, w), s, bs, mock, w)
  {
  }

  /** The suite loop over the first `n` benchmarks of `bs`, from `p0`, when
      `outs` is what `_run_benchmark` does for each. */
  function SuiteFrom(bs: seq<(string, Bench)>, outs: seq<Option<BenchRun>>, mock: bool, cont: bool, p0: Progress, n: nat): (r: Progress)
    requires n <= |bs| == |outs| == |p0.benchmarks|
    ensures |r.benchmarks| == |bs|
  {
    if n == 0 then p0
    else
      var p := SuiteFrom(bs, outs, mock, cont, p0, n - 1);
      if p.halt != Running then p
      else Step(bs[n - 1].0, n - 1, outs[n - 1], mock, cont, p)
  }

  /** One more benchmark of the suite loop. */
  lemma SuiteStep(bs: seq<(string, Bench)>, outs: seq<Option<BenchRun>>, mock: bool, cont: bool, p0: Progress, n: nat)
    requires n < |bs| == |outs| == |p0.benchmarks|
    requires SuiteFrom(bs, outs, mock, cont, p0, n).halt == Running
    ensures SuiteFrom(bs, outs, mock, cont, p0, n + 1) == Step(bs[n].0, n, outs[n], mock, cont, SuiteFrom(bs, outs, mock, cont, p0, n))
  {
  }

  lemma {:induction false} HaltStays(bs: seq<(string, Bench)>, outs: seq<Option<BenchRun>>, mock: bool, cont: bool,
                                     p0: Progress, n: nat, m: nat)
    requires n <= m <= |bs| == |outs| == |p0.benchmarks|
    requires SuiteFrom(bs, outs, mock, cont, p0, n).halt != Running
    ensures SuiteFrom(bs, outs, mock, cont, p0, m) == SuiteFrom(bs, outs, mock, cont, p0, n)
    decreases m
  {
    if m > n {
      HaltStays(bs, outs, mock, cont, p0, n, m - 1);
    }
  }

  /** No benchmark among the first `n` raised in `_run_benchmark`. */
  predicate NoneRaised(outs: seq<Option<BenchRun>>, n: nat)
    requires n <= |outs|
  {
    forall j | 0 <= j < n :: outs[j].Some?
  }

  /** The values `_run_benchmark` returned for the first `n` benchmarks. */
  function Returned(outs: seq<Option<BenchRun>>, n: nat): seq<real>
    requires n <= |outs| && NoneRaised(outs, n)
  {
    if n == 0 then [] else Returned(outs, n - 1) + [outs[n - 1].value.result]
  }

  /** The weights `run` records for the first `n` benchmarks. */
  function RecordedWeights(outs: seq<Option<BenchRun>>, n: nat): seq<Value>
    requires n <= |outs| && NoneRaised(outs, n)
  {
    if n == 0 then [] else RecordedWeights(outs, n - 1) + [WeightOf(outs[n - 1].value.bench)]
  }

  /** A benchmark's configuration after `run` has recorded it: a missing
      weight is filled in with `1.0`. */
  function Weighted(b: Bench): (r: Bench)
    ensures r.weight.Some? && r.weight.value == WeightOf(b)
    ensures r.(weight := b.weight) == b
  {
    if b.weight.Some? then b else b.(weight := Some(DefaultWeight))
  }

  /** The position of the first benchmark among the first `n` whose value is
      negative, or `n` when there is none. */
  function FirstFailure(outs: seq<Option<BenchRun>>, n: nat): (r: nat)
    requires n <= |outs| && NoneRaised(outs, n)
    ensures r <= n
    ensures forall j | 0 <= j < r :: outs[j].value.result >= 0.0
    ensures r < n ==> outs[r].value.result < 0.0
  {
    if n == 0 then 0
    else if FirstFailure(outs, n - 1) < n - 1 then FirstFailure(outs, n - 1)
    else if outs[n - 1].value.result < 0.0 then n - 1
    else n
  }

  /** With `continue_fail`, when no benchmark raises, the loop runs to the
      end and appends every benchmark's value, in order, with its weight in
      step. */
  lemma {:induction false} ContinuingRunsEverything(bs: seq<(string, Bench)>, outs: seq<Option<BenchRun>>, mock: bool,
                                                    p0: Progress, n: nat)
    requires n <= |bs| == |outs| == |p0.benchmarks|
    requires p0.halt == Running && NoneRaised(outs, n)
    ensures var r := SuiteFrom(bs, outs, mock, true, p0, n);
      && r.halt == Running
      && r.results == p0.results + Returned(outs, n)
      && r.weights == p0.weights + RecordedWeights(outs, n)
  {
    if n > 0 {
      ContinuingRunsEverything(bs, outs, mock, p0, n - 1);
      ContinuingStep(bs, outs, mock, p0, n - 1);
      var br := outs[n - 1].value;
      assert Returned(outs, n) == Returned(outs, n - 1) + [br.result];
      assert RecordedWeights(outs, n) == RecordedWeights(outs, n - 1) + [WeightOf(br.bench)];
    }
  }

  /** With `continue_fail`, when no benchmark raises, the failure flag ends
      up set exactly when some value is negative, and `error` names the first
      such benchmark unless it was already set. */
  lemma {:induction false} ContinuingFlagsFirstFailure(bs: seq<(string, Bench)>, outs: seq<Option<BenchRun>>, mock: bool,
                                                       p0: Progress, n: nat)
    requires n <= |bs| == |outs| == |p0.benchmarks|
    requires p0.halt == Running && NoneRaised(outs, n)
    ensures var r := SuiteFrom(bs, outs, mock, true, p0, n);
      var f := FirstFailure(outs, n);
      && r.failed == (p0.failed || f < n)
      && r.error == (if p0.error.None? && f < n then Some(bs[f].0) else p0.error)
  {
    if n > 0 {
      ContinuingFlagsFirstFailure(bs, outs, mock, p0, n - 1);
      ContinuingStaysRunning(bs, outs, mock, p0, n - 1);
      ContinuingStep(bs, outs, mock, p0, n - 1);
      var f := FirstFailure(outs, n - 1);
      assert FirstFailure(outs, n) == if f < n - 1 then f else if outs[n - 1].value.result < 0.0 then n - 1 else n;
    }
  }

  /** With `continue_fail`, when no benchmark raises, every benchmark's
      configuration ends up as `_run_benchmark` left it, with a missing
      weight filled in as `1.0`. */
  lemma {:induction false} ContinuingWritesWeights(bs: seq<(string, Bench)>, outs: seq<Option<BenchRun>>, mock: bool,
                                                   p0: Progress, n: nat)
    requires n <= |bs| == |outs| == |p0.benchmarks|
    requires p0.halt == Running && NoneRaised(outs, n)
    ensures var r := SuiteFrom(bs, outs, mock, true, p0, n);
      && (forall j | 0 <= j < n :: r.benchmarks[j] == (bs[j].0, Weighted(outs[j].value.bench)))
      && (forall j | n <= j < |bs| :: r.benchmarks[j] == p0.benchmarks[j])
  {
    if n > 0 {
      ContinuingWritesWeights(bs, outs, mock, p0, n - 1);
      ContinuingStaysRunning(bs, outs, mock, p0, n - 1);
      ContinuingStep(bs, outs, mock, p0, n - 1);
      var p := SuiteFrom(bs, outs, mock, true, p0, n - 1);
      var r := SuiteFrom(bs, outs, mock, true, p0, n);
      assert r.benchmarks == p.benchmarks[n - 1 := (bs[n - 1].0, Weighted(outs[n - 1].value.bench))];
      forall j | 0 <= j < |bs|
        ensures j < n ==> r.benchmarks[j] == (bs[j].0, Weighted(outs[j].value.bench))
        ensures n <= j ==> r.benchmarks[j] == p0.benchmarks[j]
      {
        if j != n - 1 {
          assert r.benchmarks[j] == p.benchmarks[j];
        }
      }
    }
  }

  /** With `continue_fail`, when no benchmark raises, the loop never halts. */
  lemma {:induction false} ContinuingStaysRunning(bs: seq<(string, Bench)>, outs: seq<Option<BenchRun>>, mock: bool,
                                                  p0: Progress, n: nat)
    requires n <= |bs| == |outs| == |p0.benchmarks|
    requires p0.halt == Running && NoneRaised(outs, n)
    ensures SuiteFrom(bs, outs, mock, true, p0, n).halt == Running
  {
    if n > 0 {
      ContinuingStaysRunning(bs, outs, mock, p0, n - 1);
      ContinuingStep(bs, outs, mock, p0, n - 1);
    }
  }

  /** One more benchmark of the loop with `continue_fail`, when it does not
      raise. */
  lemma ContinuingStep(bs: seq<(string, Bench)>, outs: seq<Option<BenchRun>>, mock: bool, p0: Progress, n: nat)
    requires n < |bs| == |outs| == |p0.benchmarks|
    requires SuiteFrom(bs, outs, mock, true, p0, n).halt == Running && outs[n].Some?
    ensures var p := SuiteFrom(bs, outs, mock, true, p0, n);
      var br := outs[n].value;
      var r := SuiteFrom(bs, outs, mock, true, p0, n + 1);
      && r.halt == Running
      && r.failed == (p.failed || br.result < 0.0)
      && r.error == (if p.error.None? && br.result < 0.0 then Some(bs[n].0) else p.error)
      && r.results == p.results + [br.result]
      && r.weights == p.weights + [WeightOf(br.bench)]
      && r.benchmarks == p.benchmarks[n := (bs[n].0, Weighted(br.bench))]
  {
    var p := SuiteFrom(bs, outs, mock, true, p0, n);
    var br := outs[n].value;
    var q := Absorb(p, n, bs[n].0, br, mock);
    ConcludeContinuing(bs[n].0, n, br, q);
    assert SuiteFrom(bs, outs, mock, true, p0, n + 1) == Conclude(bs[n].0, n, br, true, q);
  }

  /** One benchmark of the loop with `continue_fail`: its value and weight
      are appended whatever its sign. */
  lemma ConcludeContinuing(name: string, k: nat, br: BenchRun, q: Progress)
    requires k < |q.benchmarks| && q.benchmarks[k] == (name, br.bench)
    ensures Conclude(name, k, br, true, q)
         == q.(failed := q.failed || br.result < 0.0,
               error := if q.error.None? && br.result < 0.0 then Some(name) else q.error,
               results := q.results + [br.result],
               weights := q.weights + [WeightOf(br.bench)],
               benchmarks := q.benchmarks[k := (name, Weighted(br.bench))])
  {
  }

  /** One benchmark of the loop without `continue_fail`: a negative value
      stops the loop without being appended. */
  lemma ConcludeStopping(name: string, k: nat, br: BenchRun, q: Progress)
    requires k < |q.benchmarks|
    ensures var r := Conclude(name, k, br, false, q);
      if br.result < 0.0 then
        r == q.(failed := true, error := if q.error.None? then Some(name) else q.error, halt := Stopped)
      else
        && r.halt == q.halt && r.failed == q.failed && r.error == q.error
        && r.results == q.results + [br.result] && r.weights == q.weights + [WeightOf(br.bench)]
  {
  }

  /** Without `continue_fail`, when no benchmark raises, the loop appends the
      values up to the first negative one and stops there without appending
      it: it stops exactly when some value is negative, every appended value
      is non-negative, and `error` names the failing benchmark unless it was
      already set. */
  lemma StoppingAtFirstFailure(bs: seq<(string, Bench)>, outs: seq<Option<BenchRun>>, mock: bool,
                                p0: Progress, n: nat)
    requires n <= |bs| == |outs| == |p0.benchmarks|
    requires p0.halt == Running && NoneRaised(outs, n)
    ensures var r := SuiteFrom(bs, outs, mock, false, p0, n);
      var f := FirstFailure(outs, n);
      && (r.halt == Stopped <==> f < n)
      && r.halt != Crashed
      && r.results == p0.results + Returned(outs, f)
      && r.weights == p0.weights + RecordedWeights(outs, f)
      && r.failed == (p0.failed || f < n)
      && r.error == (if p0.error.None? && f < n then Some(bs[f].0) else p0.error)
  {
    StoppingFlagsFirstFailure(bs, outs, mock, p0, n);
    StoppingKeepsSuccesses(bs, outs, mock, p0, n);
  }

  /** Without `continue_fail`, when no benchmark raises, the loop stops
      exactly at the first negative value, sets the failure flag then, and
      names that benchmark unless `error` was already set. */
  lemma {:induction false} StoppingFlagsFirstFailure(bs: seq<(string, Bench)>, outs: seq<Option<BenchRun>>, mock: bool,
                                                     p0: Progress, n: nat)
    requires n <= |bs| == |outs| == |p0.benchmarks|
    requires p0.halt == Running && NoneRaised(outs, n)
    ensures var r := SuiteFrom(bs, outs, mock, false, p0, n);
      var f := FirstFailure(outs, n);
      && (r.halt == Stopped <==> f < n)
      && r.halt != Crashed
      && r.failed == (p0.failed || f < n)
      && r.error == (if p0.error.None? && f < n then Some(bs[f].0) else p0.error)
  {
    if n > 0 {
      StoppingFlagsFirstFailure(bs, outs, mock, p0, n - 1);
      var f := FirstFailure(outs, n - 1);
      assert FirstFailure(outs, n) == if f < n - 1 then f else if outs[n - 1].value.result < 0.0 then n - 1 else n;
      if f < n - 1 {
        HaltStays(bs, outs, mock, false, p0, n - 1, n);
      } else {
        StoppingStep(bs, outs, mock, p0, n - 1);
      }
    }
  }

  /** Without `continue_fail`, while every value is non-negative the loop
      keeps running, appends each value with its weight and leaves the
      failure flag and `error` as they were. */
  lemma {:induction false} StoppingRecordsSuccesses(bs: seq<(string, Bench)>, outs: seq<Option<BenchRun>>, mock: bool,
                                                    p0: Progress, k: nat)
    requires k <= |bs| == |outs| == |p0.benchmarks|
    requires p0.halt == Running && NoneRaised(outs, k)
    requires forall j | 0 <= j < k :: outs[j].value.result >= 0.0
    ensures var r := SuiteFrom(bs, outs, mock, false, p0, k);
      && r.halt == Running && r.failed == p0.failed && r.error == p0.error
      && r.results == p0.results + Returned(outs, k)
      && r.weights == p0.weights + RecordedWeights(outs, k)
  {
    if k > 0 {
      StoppingRecordsSuccesses(bs, outs, mock, p0, k - 1);
      StoppingStep(bs, outs, mock, p0, k - 1);
      assert Returned(outs, k) == Returned(outs, k - 1) + [outs[k - 1].value.result];
      assert RecordedWeights(outs, k) == RecordedWeights(outs, k - 1) + [WeightOf(outs[k - 1].value.bench)];
    }
  }

  /** Without `continue_fail`, when no benchmark raises, the values and
      weights appended are those of the benchmarks before the first negative
      value. */
  lemma StoppingKeepsSuccesses(bs: seq<(string, Bench)>, outs: seq<Option<BenchRun>>, mock: bool,
                               p0: Progress, n: nat)
    requires n <= |bs| == |outs| == |p0.benchmarks|
    requires p0.halt == Running && NoneRaised(outs, n)
    ensures var r := SuiteFrom(bs, outs, mock, false, p0, n);
      var f := FirstFailure(outs, n);
      && r.results == p0.results + Returned(outs, f)
      && r.weights == p0.weights + RecordedWeights(outs, f)
  {
    var f := FirstFailure(outs, n);
    StoppingRecordsSuccesses(bs, outs, mock, p0, f);
    if f < n {
      StoppingStep(bs, outs, mock, p0, f);
      HaltStays(bs, outs, mock, false, p0, f + 1, n);
    }
  }

  /** One more benchmark of the loop without `continue_fail`, when it does
      not raise. */
  lemma StoppingStep(bs: seq<(string, Bench)>, outs: seq<Option<BenchRun>>, mock: bool, p0: Progress, n: nat)
    requires n < |bs| == |outs| == |p0.benchmarks|
    requires SuiteFrom(bs, outs, mock, false, p0, n).halt == Running && outs[n].Some?
    ensures var p := SuiteFrom(bs, outs, mock, false, p0, n);
      var br := outs[n].value;
      var r := SuiteFrom(bs, outs, mock, false, p0, n + 1);
      if br.result < 0.0 then
        && r.halt == Stopped && r.failed
        && r.error == (if p.error.None? then Some(bs[n].0) else p.error)
        && r.results == p.results && r.weights == p.weights
      else
        && r.halt == Running && r.failed == p.failed && r.error == p.error
        && r.results == p.results + [br.result] && r.weights == p.weights + [WeightOf(br.bench)]
  {
    var p := SuiteFrom(bs, outs, mock, false, p0, n);
    var br := outs[n].value;
    var q := Absorb(p, n, bs[n].0, br, mock);
    ConcludeStopping(bs[n].0, n, br, q);
    assert SuiteFrom(bs, outs, mock, false, p0, n + 1) == Conclude(bs[n].0, n, br, false, q);
  }

  /** `Returned` lists the values in benchmark order. */
  lemma {:induction false} ReturnedEntries(outs: seq<Option<BenchRun>>, n: nat)
    requires n <= |outs| && NoneRaised(outs, n)
    ensures |Returned(outs, n)| == n
    ensures forall j | 0 <= j < n :: Returned(outs, n)[j] == outs[j].value.result
  {
    if n > 0 {
      ReturnedEntries(outs, n - 1);
    }
  }

  /** With `continue_fail`, `write_output` looks only at the last value: when
      it is non-negative the call returns normally, even when an earlier
      benchmark failed and `run` reports the failure. */
  lemma ContinuingHidesEarlierFailure(bs: seq<(string, Bench)>, outs: seq<Option<BenchRun>>, mock: bool,
                                      p0: Progress, n: nat, outtype: string, outfile: string,
                                      resultsdir: string, name: Value)
    requires 0 < n <= |bs| == |outs| == |p0.benchmarks|
    requires p0.halt == Running && NoneRaised(outs, n) && outs[n - 1].value.result >= 0.0
    requires (outtype == "yaml" || outtype == "json") && outfile != ""
    ensures var r := SuiteFrom(bs, outs, mock, true, p0, n);
      && Output.WriteOutput(outtype, outfile, resultsdir, name, Output.Saved, r.results).exit == Output.Returns
      && (r.failed <==> p0.failed || FirstFailure(outs, n) < n)
  {
    ContinuingRunsEverything(bs, outs, mock, p0, n);
    ContinuingFlagsFirstFailure(bs, outs, mock, p0, n);
    ReturnedEntries(outs, n);
  }

  /** Without `continue_fail`, starting from no results, every recorded value
      is non-negative, so `write_output` exits with status 2 on account of
      the results exactly when the first benchmark failed (or there is
      none). */
  lemma StoppedSuiteExitsOnlyWhenFirstFails(bs: seq<(string, Bench)>, outs: seq<Option<BenchRun>>, mock: bool,
                                            p0: Progress, n: nat, outtype: string, outfile: string,
                                            resultsdir: string, name: Value)
    requires n <= |bs| == |outs| == |p0.benchmarks|
    requires p0.halt == Running && p0.results == [] && NoneRaised(outs, n)
    requires (outtype == "yaml" || outtype == "json") && outfile != ""
    ensures var r := SuiteFrom(bs, outs, mock, false, p0, n);
      (Output.WriteOutput(outtype, outfile, resultsdir, name, Output.Saved, r.results).exit == Output.Exits(2)
       <==> FirstFailure(outs, n) == 0)
  {
    StoppingAtFirstFailure(bs, outs, mock, p0, n);
    ReturnedEntries(outs, FirstFailure(outs, n));
  }

  /** Whatever happens, `results` and `weights` grow together, and the
      failure flag, once set, stays set. */
  lemma {:induction false} ResultsAndWeightsInStep(bs: seq<(string, Bench)>, outs: seq<Option<BenchRun>>, mock: bool,
                                                  cont: bool, p0: Progress, n: nat)
    requires n <= |bs| == |outs| == |p0.benchmarks|
    ensures var r := SuiteFrom(bs, outs, mock, cont, p0, n);
      && |r.results| - |p0.results| == |r.weights| - |p0.weights| >= 0
      && (p0.failed ==> r.failed)
  {
    if n > 0 {
      ResultsAndWeightsInStep(bs, outs, mock, cont, p0, n - 1);
    }
  }

  // ---------------------------------------------------------------------------
  // The configuration hash of run
  // ---------------------------------------------------------------------------

  /** The top-level configuration keys `run` feeds to the configuration
      hash, in order. The filter `k not in 'options'` tests whether the key
      is a substring of the word `options`, not whether it equals it. */
  function HashedKeys(keys: seq<string>): (r: seq<string>)
    ensures |r| <= |keys|
    ensures forall k :: k in r <==> k in keys && !IsSubstring(k, "options")
  {
    if |keys| == 0 then []
    else
      var k := keys[|keys| - 1];
      HashedKeys(keys[..|keys| - 1]) + (if IsSubstring(k, "options") then [] else [k])
  }

  /** A key longer than the word it is searched in is never a substring. */
  lemma {:induction false} LongerIsNoSubstring(p: string, s: string)
    requires |p| > |s|
    ensures !IsSubstring(p, s)
    decreases |s|
  {
    if |s| > 0 {
      LongerIsNoSubstring(p, s[1..]);
    }
  }

  /** The `options` section is left out of the hash, and so is any key that
      happens to be a fragment of the word, such as `opt` or `s`; the
      `settings` and `benchmarks` sections are always hashed. */
  lemma HashedKeysLeaveOutOptions(keys: seq<string>)
    ensures "options" !in HashedKeys(keys) && "opt" !in HashedKeys(keys) && "s" !in HashedKeys(keys)
    ensures "settings" in keys ==> "settings" in HashedKeys(keys)
    ensures "benchmarks" in keys ==> "benchmarks" in HashedKeys(keys)
  {
    assert StartsWith("options", "options");
    assert StartsWith("options", "opt");
    assert StartsWith("s", "s");
    assert IsSubstring("s", "options"[6..]);
    LongerIsNoSubstring("settings", "options");
    LongerIsNoSubstring("benchmarks", "options");
  }

  // ---------------------------------------------------------------------------
  // Helpers for validate_conf's removals
  // ---------------------------------------------------------------------------

  lemma {:induction false} PopPastUncommented(u: seq<(string, Bench)>, x: (string, Bench), rest: seq<(string, Bench)>)
    requires IsCommented(x.0)
    requires forall j | 0 <= j < |u| :: !IsCommented(u[j].0)
    ensures PopKey(u + [x] + rest, x.0) == u + rest
  {
    if |u| == 0 {
      assert u + [x] + rest == [x] + rest;
    } else {
      PopPastUncommented(u[1..], x, rest);
      assert (u + [x] + rest)[1..] == u[1..] + [x] + rest;
      assert u[0].0 != x.0;
    }
  }

  /** One iteration of the removal loop. */
  lemma DropStep(bs: seq<(string, Bench)>, i: nat)
    requires i < |bs|
    ensures var before := Uncommented(bs[..i]) + bs[i..];
      var after := Uncommented(bs[..i + 1]) + bs[i + 1..];
      if IsCommented(bs[i].0) then PopKey(before, bs[i].0) == after else before == after
  {
    var u, x, rest := Uncommented(bs[..i]), bs[i], bs[i + 1..];
    UncommentedSnoc(bs[..i], x);
    assert bs[..i + 1] == bs[..i] + [x];
    assert bs[i..] == [x] + rest;
    assert u + bs[i..] == u + [x] + rest;
    if IsCommented(x.0) {
      assert Uncommented(bs[..i + 1]) == u;
      PopPastUncommented(u, x, rest);
    } else {
      assert Uncommented(bs[..i + 1]) == u + [x];
    }
  }

  /** One iteration of the registry loop: the entry it reads, and the
      entries it leaves when the entry resolves. */
  lemma ResolveStep(bs: seq<(string, Bench)>, i: nat, cec: Engine, curi: string)
    requires i < |bs| && ResolveAll(bs[..i], cec, curi).Success?
    ensures var prev := ResolveAll(bs[..i], cec, curi).value;
      var e := ResolveEntry(bs[i], cec, curi);
      && (prev + bs[i..])[i] == bs[i]
      && (e.Success? ==>
            && ResolveAll(bs[..i + 1], cec, curi) == Success(prev + [e.value])
            && (prev + bs[i..])[i := e.value] == prev + [e.value] + bs[i + 1..])
  {
    assert bs[..i + 1][..i] == bs[..i];
    assert bs[i..] == [bs[i]] + bs[i + 1..];
  }

  /** An entry that does not resolve decides the outcome of the loop. */
  lemma ResolveStepFails(bs: seq<(string, Bench)>, i: nat, cec: Engine, curi: string)
    requires i < |bs| && ResolveAll(bs[..i], cec, curi).Success?
    requires ResolveEntry(bs[i], cec, curi).Failure?
    ensures ResolveAll(bs, cec, curi) == Failure(ResolveEntry(bs[i], cec, curi).error)
  {
    assert bs[..i + 1][..i] == bs[..i];
    ResolveAllFailureStays(bs, i + 1, cec, curi);
  }

  lemma {:induction false} ResolveAllFailureStays(bs: seq<(string, Bench)>, n: nat, cec: Engine, curi: string)
    requires n <= |bs| && ResolveAll(bs[..n], cec, curi).Failure?
    ensures ResolveAll(bs, cec, curi) == ResolveAll(bs[..n], cec, curi)
    decreases |bs|
  {
    if n == |bs| {
      assert bs[..n] == bs;
    } else {
      var m := |bs| - 1;
      assert bs[..m][..n] == bs[..n];
      ResolveAllFailureStays(bs[..m], n, cec, curi);
    }
  }

  /** `Resolve` by cases: the settings registry fails, a benchmark's
      registry fails, or both resolve. */
  lemma ResolveCases(c: Init)
    requires c.settings.registry.Some?
    ensures var path := GenRegPath(c.settings.registry.value, c.cec, c.curi);
      var bs := ResolveAll(c.benchmarks, c.cec, c.curi);
      && (path.Failure? ==> Resolve(c) == Failure(Unresolvable(path.error)))
      && (path.Success? && bs.Failure? ==> Resolve(c) == Failure(Unresolvable(bs.error)))
      && (path.Success? && bs.Success? ==>
            Resolve(c) == Success(c.(settings := c.settings.(registry := Some(RegString(path.value))),
                                     registry := DropUri(c.cec, path.value), benchmarks := bs.value)))
  {
  }

  // ---------------------------------------------------------------------------
  // The class
  // ---------------------------------------------------------------------------

  class HEPscore {
    var cec: Engine
    var curi: string
    var addarch: Value
    var ncores: int
    var clean: Value
    var cleanFiles: Value
    var userns: Value
    var settings: Settings
    var benchmarks: seq<(string, Bench)>
    var registry: string
    var wlScores: map<string, map<string, WlEntry>>
    var scoresData: seq<real>
    var results: seq<real>
    var weights: seq<Value>
    var error: Option<string>
    var failed: bool          // `score` is -1 and `status` is 'failed'

    function State(): Init
      reads this`cec, this`curi, this`addarch, this`ncores, this`clean, this`cleanFiles, this`userns, this`settings, this`registry, this`benchmarks
    {
      Init(cec, curi, addarch, ncores, clean, cleanFiles, userns, settings, benchmarks, registry)
    }

    /** Everything `run` leaves alone. */
    function Fixed(): Init
      reads this`cec, this`curi, this`addarch, this`ncores, this`clean, this`cleanFiles, this`userns, this`settings, this`registry
    {
      Init(cec, curi, addarch, ncores, clean, cleanFiles, userns, settings.(replay := None), [], registry)
    }

    function Progressed(haveFailure: bool): Progress
      reads this`benchmarks, this`wlScores, this`scoresData, this`settings, this`results, this`weights, this`error
    {
      Progress(benchmarks, wlScores, scoresData, settings.replay, results, weights, error, haveFailure, Running)
    }

    /** Nothing has been run yet. */
    predicate Pristine()
      reads this`wlScores, this`scoresData, this`results, this`weights, this`error, this`failed
    {
      wlScores == map[] && scoresData == [] && results == [] && weights == [] && error.None? && !failed
    }

    predicate Ready()
      reads this`settings, this`benchmarks
    {
      Runnable(settings) && AllRunnable(benchmarks)
    }

    function RunSetup(): Setup
      reads this`cec, this`addarch, this`ncores, this`cleanFiles, this`registry, this`settings
      requires Runnable(settings)
    {
      Setup(cec, addarch, ncores, cleanFiles, registry, CountOf(settings.repetitions), CountOf(settings.retries))
    }

    constructor (c: Init)
      ensures State() == c && Pristine()
    {
      cec, curi, addarch, ncores := c.cec, c.curi, c.addarch, c.ncores;
      clean, cleanFiles, userns := c.clean, c.cleanFiles, c.userns;
      settings, benchmarks, registry := c.settings, c.benchmarks, c.registry;
      wlScores, scoresData, results, weights, error, failed := map[], [], [], [], None, false;
    }

    /** `HEPscore(config)`: the object, or why the program stops. */
    static method Create(doc: Document, hostCores: nat) returns (r: Result<HEPscore, Fatal>)
      ensures Normalise(doc, hostCores).Failure? ==> r == Failure(Normalise(doc, hostCores).error)
      ensures Normalise(doc, hostCores).Success? ==>
        && r.Success? && fresh(r.value)
        && r.value.State() == Normalise(doc, hostCores).value
        && r.value.Ready() && r.value.Pristine()
    {
      ghost var n := Normalise(doc, hostCores);
      var pr := Prepare(doc, hostCores);
      if pr.Failure? {
        assert n == Failure(pr.error);
        return Failure(pr.error);
      }
      var p := pr.value;
      var v := ValidateConfSpec(Some(p.init.settings), p.benchmarks);
      if v.Fail? {
        assert n == Failure(v.error);
        return Failure(v.error);
      }
      assert n == Resolve(p.init.(benchmarks := Uncommented(p.benchmarks.value)));
      r := Build(p.init.(benchmarks := p.benchmarks.value));
      if r.Success? {
        NormalisedIsRunnable(doc, hostCores);
      }
    }

    /** The object made from a validated configuration: the commented-out
        benchmarks removed, then the registries resolved. */
    static method Build(c: Init) returns (r: Result<HEPscore, Fatal>)
      requires c.settings.registry.Some?
      ensures var n := Resolve(c.(benchmarks := Uncommented(c.benchmarks)));
        && (n.Failure? ==> r == Failure(n.error))
        && (n.Success? ==> r.Success? && fresh(r.value) && r.value.State() == n.value && r.value.Pristine())
    {
      var h := new HEPscore(c);
      h.DropCommented();
      ghost var c1 := c.(benchmarks := Uncommented(c.benchmarks));
      assert h.State() == c1 && h.Pristine();
      var ok := h.ResolveRegistries(c1);
      if ok.Fail? {
        return Failure(ok.error);
      }
      assert h.Pristine();
      return Success(h);
    }

    /** The removals of `validate_conf`: every benchmark whose name starts
        with `.` is popped from the mapping, the rest keep their order. */
    method DropCommented()
      modifies this`benchmarks
      ensures benchmarks == Uncommented(old(benchmarks))
    {
      ghost var snap := benchmarks;
      var keys := benchmarks;
      var i := 0;
      while i < |keys|
        invariant 0 <= i <= |keys| && keys == snap
        invariant benchmarks == Uncommented(snap[..i]) + snap[i..]
      {
        var name := keys[i].0;
        DropStep(snap, i);
        if IsCommented(name) {
          benchmarks := PopKey(benchmarks, name);
        }
        i := i + 1;
      }
      assert snap[..|snap|] == snap;
    }

    /** The registry resolution at the end of `__init__`. */
    method ResolveRegistries(ghost c0: Init) returns (r: Outcome<Fatal>)
      requires State() == c0 && c0.settings.registry.Some?
      modifies this`settings, this`registry, this`benchmarks
      ensures Resolve(c0).Failure? ==> r == Fail(Resolve(c0).error)
      ensures Resolve(c0).Success? ==> r == Pass && State() == Resolve(c0).value
    {
      var path := GenRegPath(settings.registry.value, cec, curi);
      ResolveCases(c0);
      if path.Failure? {
        return Fail(Unresolvable(path.error));
      }
      settings := settings.(registry := Some(RegString(path.value)));
      registry := DropUri(cec, path.value);
      var ok := ResolveBenchmarkRegistries();
      if ok.Failure? {
        return Fail(Unresolvable(ok.error));
      }
      assert State() == c0.(settings := c0.settings.(registry := Some(RegString(path.value))),
                            registry := DropUri(cec, path.value), benchmarks := benchmarks);
      r := Pass;
    }

    /** The loop over the benchmarks that resolves each one's registry. */
    method ResolveBenchmarkRegistries() returns (r: Result<(), RegFault>)
      modifies this`benchmarks
      ensures ResolveAll(old(benchmarks), cec, curi).Failure? ==> r == Failure(ResolveAll(old(benchmarks), cec, curi).error)
      ensures ResolveAll(old(benchmarks), cec, curi).Success? ==> r.Success? && benchmarks == ResolveAll(old(benchmarks), cec, curi).value
    {
      ghost var snap := benchmarks;
      var i := 0;
      while i < |benchmarks|
        invariant 0 <= i <= |benchmarks| == |snap|
        invariant ResolveAll(snap[..i], cec, curi).Success?
        invariant benchmarks == ResolveAll(snap[..i], cec, curi).value + snap[i..]
      {
        ResolveStep(snap, i, cec, curi);
        var entry := benchmarks[i];
        if entry.1.registry.Some? {
          var q := GenRegPath(entry.1.registry.value, cec, curi);
          if q.Failure? {
            ResolveStepFails(snap, i, cec, curi);
            return Failure(q.error);
          }
          benchmarks := benchmarks[i := (entry.0, entry.1.(registry := Some(RegString(q.value))))];
        }
        i := i + 1;
      }
      assert snap[..|snap|] == snap && snap[|snap|..] == [];
      r := Success(());
    }

    /** `_run_benchmark` for the benchmark at position `k`: what it
        computes, written into the object. */
    method RunBenchmark(k: nat, mock: bool, w: World) returns (res: Option<real>, ghost run: Option<BenchRun>)
      requires Runnable(settings) && k < |benchmarks| && BenchRunnable(benchmarks[k].1)
      modifies this`settings, this`benchmarks, this`wlScores, this`scoresData
      ensures Fixed() == old(Fixed())
      ensures run == BenchmarkRun(old(RunSetup()), old(benchmarks[k].0), old(benchmarks[k].1), mock, w)
      ensures
        && (run.None? ==> res.None? && Progressed(false) == old(Progressed(false)))
        && (run.Some? ==> res == Some(run.value.result)
                          && Progressed(false) == Absorb(old(Progressed(false)), k, old(benchmarks[k].0), run.value, mock))
    {
      var name := benchmarks[k].0;
      var outcome := ExecuteBenchmark(RunSetup(), name, benchmarks[k].1, mock, w);
      run := outcome;
      if outcome.None? {
        return None, run;
      }
      Store(k, name, outcome.value, mock);
      res := Some(outcome.value.result);
    }

    /** What `_run_benchmark` writes into the object: the benchmark's new
        entry, its `wl-scores`, the score log, and `settings['replay']` once
        the log has opened. */
    method Store(k: nat, name: string, br: BenchRun, mock: bool)
      requires k < |benchmarks|
      modifies this`settings, this`benchmarks, this`wlScores, this`scoresData
      ensures Fixed() == old(Fixed())
      ensures Progressed(false) == Absorb(old(Progressed(false)), k, name, br, mock)
    {
      if br.tally.Some? {
        ghost var st0 := settings;
        settings := settings.(replay := Some(mock));
        assert settings.(replay := None) == st0.(replay := None);
      }
      benchmarks := benchmarks[k := (name, br.bench)];
      if br.wl.Some? {
        wlScores := wlScores[name := br.wl.value];
      }
      scoresData := scoresData + br.scores;
    }

    /** `run` after its preparations: the benchmark loop, then the status
        it returns; `None` when a benchmark raised. */
    method Run(mock: bool, w: World) returns (status: Option<int>)
      requires Ready()
      modifies this
      ensures Fixed() == old(Fixed())
      ensures var p := SuiteFrom(old(benchmarks), Outcomes(old(RunSetup()), old(benchmarks), mock, w), mock,
                                 ContinueOnFailure(old(settings)), old(Progressed(false)).(wl := map[]), |old(benchmarks)|);
        && (status.None? <==> p.halt == Crashed)
        && (status.Some? ==>
              && Progressed(p.failed) == p.(halt := Running)
              && failed == (old(failed) || p.failed)
              && status.value == (if p.failed then -1 else 0))
    {
      var cont := ContinueOnFailure(settings);
      wlScores := map[];
      assert Progressed(false) == old(Progressed(false)).(wl := map[]);
      ghost var outs := Outcomes(RunSetup(), benchmarks, mock, w);
      OutcomesRun(RunSetup(), benchmarks, mock, w);
      var halt, haveFailure := RunLoop(mock, w, cont, RunSetup(), benchmarks, outs, Progressed(false));
      if halt == Crashed {
        return None;
      }
      if haveFailure {
        failed := true;
        return Some(-1);
      }
      return Some(0);
    }

    /** The loop over the benchmarks in `run`: it stops at the first failure
        unless `cont`, and on an uncaught exception. */
    method RunLoop(mock: bool, w: World, cont: bool, ghost s0: Setup, ghost bs: seq<(string, Bench)>,
                   ghost outs: seq<Option<BenchRun>>, ghost p0: Progress)
      returns (halt: Halt, haveFailure: bool)
      requires Ready() && RunSetup() == s0 && benchmarks == bs && Progressed(false) == p0
      requires RunsOf(outs, s0, bs, mock, w)
      modifies this`settings, this`benchmarks, this`wlScores, this`scoresData, this`results, this`weights, this`error
      ensures Fixed() == old(Fixed())
      ensures var p := SuiteFrom(bs, outs, mock, cont, p0, |bs|);
        && halt == p.halt && haveFailure == p.failed && Progressed(haveFailure) == p.(halt := Running)
      ensures halt == Stopped ==> haveFailure
    {
      ghost var f0 := Fixed();
      halt, haveFailure := Running, false;
      var i := 0;
      while i < |benchmarks| && halt == Running
        invariant i <= |bs| == |benchmarks|
        invariant Fixed() == f0 && Runnable(settings) && RunSetup() == s0
        invariant forall j | i <= j < |bs| :: benchmarks[j] == bs[j]
        invariant var p := SuiteFrom(bs, outs, mock, cont, p0, i);
          halt == p.halt && haveFailure == p.failed && Progressed(haveFailure) == p.(halt := Running)
        invariant halt == Stopped ==> haveFailure
        decreases |bs| - i
      {
        halt, haveFailure := Advance(i, mock, w, cont, haveFailure, s0, bs, outs, p0);
        i := i + 1;
      }
      if halt != Running {
        HaltStays(bs, outs, mock, cont, p0, i, |bs|);
      } else {
        assert i == |bs|;
      }
      assert SuiteFrom(bs, outs, mock, cont, p0, |bs|) == SuiteFrom(bs, outs, mock, cont, p0, i);
    }

    /** One pass of the loop in `run`: the benchmark is run, then its value
        is recorded; the object moves on to the suite's state after benchmark
        `i`. */
    method Advance(i: nat, mock: bool, w: World, cont: bool, haveFailure: bool,
                   ghost s0: Setup, ghost bs: seq<(string, Bench)>, ghost outs: seq<Option<BenchRun>>, ghost p0: Progress)
      returns (halt: Halt, nowFailure: bool)
      requires i < |bs| == |benchmarks| == |p0.benchmarks| && AllRunnable(bs) && RunsOf(outs, s0, bs, mock, w)
      requires Runnable(settings) && RunSetup() == s0 && benchmarks[i] == bs[i]
      requires SuiteFrom(bs, outs, mock, cont, p0, i) == Progressed(haveFailure)
      modifies this`settings, this`benchmarks, this`wlScores, this`scoresData, this`results, this`weights, this`error
      ensures Fixed() == old(Fixed()) && Runnable(settings) && RunSetup() == s0 && |benchmarks| == |bs|
      ensures forall j | i < j < |bs| :: benchmarks[j] == old(benchmarks[j])
      ensures var p := SuiteFrom(bs, outs, mock, cont, p0, i + 1);
        && halt == p.halt && nowFailure == p.failed && Progressed(nowFailure) == p.(halt := Running)
      ensures halt == Stopped ==> nowFailure
    {
      ghost var pi := Progressed(haveFailure);
      var name := benchmarks[i].0;
      var res;
      ghost var run;
      res, run := RunListed(i, mock, w, s0, bs, outs);
      SuiteStep(bs, outs, mock, cont, p0, i);
      if res.None? {
        return Crashed, haveFailure;
      }
      assert Progressed(haveFailure) == Absorb(pi, i, name, run.value, mock);
      halt, nowFailure := Record(i, name, res.value, run.value, cont, haveFailure);
    }

    /** `_run_benchmark` for benchmark `i` of the loop, whose outcome is
        `outs[i]`. */
    method RunListed(i: nat, mock: bool, w: World, ghost s0: Setup, ghost bs: seq<(string, Bench)>,
                     ghost outs: seq<Option<BenchRun>>)
      returns (res: Option<real>, ghost run: Option<BenchRun>)
      requires i < |bs| == |benchmarks| && AllRunnable(bs) && RunsOf(outs, s0, bs, mock, w)
      requires Runnable(settings) && RunSetup() == s0 && benchmarks[i] == bs[i]
      modifies this`settings, this`benchmarks, this`wlScores, this`scoresData
      ensures Fixed() == old(Fixed()) && Runnable(settings) && RunSetup() == s0 && run == outs[i]
      ensures run.None? ==> res.None? && Progressed(false) == old(Progressed(false))
      ensures run.Some? ==> res == Some(run.value.result)
                            && Progressed(false) == Absorb(old(Progressed(false)), i, bs[i].0, run.value, mock)
    {
      res, run := RunBenchmark(i, mock, w);
      assert run == BenchmarkRun(s0, bs[i].0, bs[i].1, mock, w);
    }

    /** The loop's handling of the value `_run_benchmark` returned. */
    method Record(i: nat, name: string, r: real, ghost br: BenchRun, cont: bool, haveFailure: bool)
      returns (halt: Halt, nowFailure: bool)
      requires i < |benchmarks| && benchmarks[i] == (name, br.bench) && r == br.result
      modifies this`benchmarks, this`results, this`weights, this`error
      ensures var p := Conclude(name, i, br, cont, old(Progressed(haveFailure)));
        && halt == p.halt && nowFailure == p.failed && Progressed(nowFailure) == p.(halt := Running)
      ensures halt != Crashed && (halt == Stopped ==> nowFailure)
    {
      nowFailure := haveFailure;
      if r < 0.0 {
        nowFailure := true;
        if error.None? {
          error := Some(name);
        }
        if !cont {
          return Stopped, true;
        }
      }
      results := results + [r];
      var bc := benchmarks[i].1;
      if bc.weight.Some? {
        weights := weights + [bc.weight.value];
      } else {
        weights := weights + [DefaultWeight];
        benchmarks := benchmarks[i := (name, bc.(weight := Some(DefaultWeight)))];
      }
      halt := Running;
    }
  }
}
