/** One benchmark's launches (hepscore.py, HEPscore._run_benchmark): the
    options string handed to the workload, the image name, the GPU flag, and
    the run/retry state machine over the launch outcomes. */
module Runner {
  import opened Wrappers
  import opened Text
  import opened Values
  import opened Registry

  // ---------------------------------------------------------------------------
  // The options string
  // ---------------------------------------------------------------------------

  /** Workload arguments that are never passed on: the fixed ones, those of
      `--mop` when files are cleaned, those of `--ncores` when it is forced. */
  function BadArgs(cleanFiles: bool, ncores: int): (r: seq<string>)
    ensures "resultsdir" in r && "--resultsdir" in r && "-w" in r && "-W" in r
    ensures cleanFiles <==> "mop" in r
    ensures ncores != 0 <==> "ncores" in r
  {
    ["resultsdir", "--resultsdir", "-w", "-W"]
    + (if cleanFiles then ["mop", "--mop", "-m"] else [])
    + (if ncores != 0 then ["ncores", "--ncores", "-n"] else [])
  }

  /** The tokens every options string starts with. */
  function FixedTokens(cleanFiles: bool, ncores: int): seq<string> {
    ["-W"]
    + (if cleanFiles then ["--mop", "all"] else [])
    + (if ncores != 0 then ["--ncores", IntToString(ncores)] else [])
  }

  /** The tokens one workload argument contributes; `None` where indexing the
      empty name raises IndexError. An argument whose name is reserved, or
      whose name or `str(value)` fails the character check, is ignored; a
      value rendering as `None` or `False` is omitted; `True` gives the bare
      flag. */
  function ArgTokens(name: string, value: Value, bad: seq<string>): Option<seq<string>> {
    var text := PyStr(value);
    if !CheckChars(name) || name in bad || !CheckChars(text) then Some([])
    else if text == "None" || text == "False" then Some([])
    else if |name| == 0 then None
    else
      var flag := if name[0] != '-' then "--" + name else name;
      Some([flag] + (if text != "True" then [text] else []))
  }

  /** The tokens of all workload arguments, in order. */
  function AllArgTokens(args: seq<(string, Value)>, bad: seq<string>): Option<seq<string>> {
    if |args| == 0 then Some([])
    else match AllArgTokens(args[..|args| - 1], bad)
      case None => None
      case Some(ts) =>
        match ArgTokens(args[|args| - 1].0, args[|args| - 1].1, bad)
        case None => None
        case Some(t) => Some(ts + t)
  }

  /** Every token preceded by one space. */
  function JoinTokens(ts: seq<string>): string {
    if |ts| == 0 then "" else JoinTokens(ts[..|ts| - 1]) + " " + ts[|ts| - 1]
  }

  /** The option tokens of a benchmark, `None` if building them raises. */
  function OptionTokens(args: seq<(string, Value)>, cleanFiles: bool, ncores: int): Option<seq<string>> {
    match AllArgTokens(args, BadArgs(cleanFiles, ncores))
    case None => None
    case Some(ts) => Some(FixedTokens(cleanFiles, ncores) + ts)
  }

  /** The options string appended to the image name. */
  function OptionsString(args: seq<(string, Value)>, cleanFiles: bool, ncores: int): Option<string> {
    match OptionTokens(args, cleanFiles, ncores)
    case None => None
    case Some(ts) => Some(JoinTokens(ts))
  }

  /** The string is built by concatenation, one argument at a time. */
  method BuildOptions(args: seq<(string, Value)>, cleanFiles: bool, ncores: int) returns (r: Option<string>)
    ensures r == OptionsString(args, cleanFiles, ncores)
  {
    var bad := ["resultsdir", "--resultsdir", "-w", "-W"];
    var s := " -W";
    ghost var fixed: seq<string> := ["-W"];
    assert s == JoinTokens(fixed) by {
      assert fixed[..0] == [];
    }
    if cleanFiles {
      JoinTokensPair(fixed, "--mop", "all");
      MopText(s);
      s := s + " --mop all";
      bad := bad + ["mop", "--mop", "-m"];
      fixed := fixed + ["--mop", "all"];
    }
    if ncores != 0 {
      JoinTokensPair(fixed, "--ncores", IntToString(ncores));
      NcoresText(s, IntToString(ncores));
      s := s + " --ncores " + IntToString(ncores);
      bad := bad + ["ncores", "--ncores", "-n"];
      fixed := fixed + ["--ncores", IntToString(ncores)];
    }
    assert bad == BadArgs(cleanFiles, ncores);
    assert fixed == FixedTokens(cleanFiles, ncores);
    OptionsStringFromPrefix(args, cleanFiles, ncores, s);
    r := AppendArguments(s, args, bad);
  }

  /** The options string is the fixed part followed by the arguments' part. */
  lemma OptionsStringFromPrefix(args: seq<(string, Value)>, cleanFiles: bool, ncores: int, prefix: string)
    requires prefix == JoinTokens(FixedTokens(cleanFiles, ncores))
    ensures AllArgTokens(args, BadArgs(cleanFiles, ncores)).None? ==> OptionsString(args, cleanFiles, ncores).None?
    ensures AllArgTokens(args, BadArgs(cleanFiles, ncores)).Some? ==>
      OptionsString(args, cleanFiles, ncores) == Some(prefix + JoinTokens(AllArgTokens(args, BadArgs(cleanFiles, ncores)).value))
  {
    var toks := AllArgTokens(args, BadArgs(cleanFiles, ncores));
    if toks.Some? {
      JoinTokensAppend(FixedTokens(cleanFiles, ncores), toks.value);
    }
  }

  /** The loop over the workload arguments of `_run_benchmark`, appending
      each argument's tokens to the options string built so far. */
  method AppendArguments(start: string, args: seq<(string, Value)>, bad: seq<string>) returns (r: Option<string>)
    ensures AllArgTokens(args, bad).None? ==> r.None?
    ensures AllArgTokens(args, bad).Some? ==> r == Some(start + JoinTokens(AllArgTokens(args, bad).value))
  {
    var s := start;
    ghost var ts: seq<string> := [];
    var i := 0;
    assert args[..0] == [];
    while i < |args|
      invariant 0 <= i <= |args|
      invariant AllArgTokens(args[..i], bad) == Some(ts)
      invariant s == start + JoinTokens(ts)
    {
      var name, text := args[i].0, PyStr(args[i].1);
      AllArgTokensStep(args, i, bad);
      ghost var before, tok := ts, ArgTokens(name, args[i].1, bad);
      if !CheckChars(name) || name in bad || !CheckChars(text) {
        // ignored, with an error in the log
        assert ts + [] == ts;
      } else if text != "None" && text != "False" {
        if |name| == 0 {
          AllArgTokensNoneStays(args, i + 1, bad);
          return None;
        }
        var flag := if name[0] != '-' then "--" + name else name;
        JoinedStep(s, start, ts, flag);
        s := s + " " + flag;
        ts := ts + [flag];
        if text != "True" {
          JoinedStep(s, start, ts, text);
          s := s + " " + text;
          ts := ts + [text];
        }
        assert tok == Some([flag] + (if text != "True" then [text] else []));
        assert ts == before + tok.value;
      } else {
        assert ts + [] == ts;
      }
      i := i + 1;
    }
    assert args[..i] == args;
    r := Some(s);
  }

  /** The fixed part of the options string. */
  lemma JoinTokensPair(ts: seq<string>, x: string, y: string)
    ensures JoinTokens(ts + [x, y]) == JoinTokens(ts) + " " + x + " " + y
  {
    assert (ts + [x, y])[..|ts| + 1] == ts + [x];
    assert (ts + [x])[..|ts|] == ts;
  }
  lemma NcoresText(a: string, n: string)
    ensures a + " " + "--ncores" + " " + n == a + (" --ncores " + n)
  {
    assert " " + "--ncores" + " " == " --ncores ";
  }
  lemma MopText(a: string)
    ensures a + " " + "--mop" + " " + "all" == a + " --mop all"
  {
    assert " " + "--mop" + " " + "all" == " --mop all";
  }
  lemma FixedTokensJoined(cleanFiles: bool, ncores: int)
    ensures JoinTokens(FixedTokens(cleanFiles, ncores)) ==
      " -W" + (if cleanFiles then " --mop all" else "")
      + (if ncores != 0 then " --ncores " + IntToString(ncores) else "")
  {
    var w: seq<string> := ["-W"];
    var mop := if cleanFiles then ["--mop", "all"] else [];
    var nc := if ncores != 0 then ["--ncores", IntToString(ncores)] else [];
    assert JoinTokens(w) == " -W" by {
      assert w[..0] == [];
      assert "" + " " + "-W" == " -W";
    }
    var smop := if cleanFiles then " --mop all" else "";
    assert JoinTokens(w + mop) == " -W" + smop by {
      if cleanFiles {
        JoinTokensPair(w, "--mop", "all");
        MopText(" -W");
      } else {
        assert w + mop == w;
      }
    }
    var snc := if ncores != 0 then " --ncores " + IntToString(ncores) else "";
    assert JoinTokens(w + mop + nc) == " -W" + smop + snc by {
      if ncores != 0 {
        var n := IntToString(ncores);
        JoinTokensPair(w + mop, "--ncores", n);
        NcoresText(" -W" + smop, n);
      } else {
        assert w + mop + nc == w + mop;
      }
    }
  }

  /** One more argument extends the tokens of the arguments before it. */
  lemma AllArgTokensStep(args: seq<(string, Value)>, i: nat, bad: seq<string>)
    requires i < |args| && AllArgTokens(args[..i], bad).Some?
    ensures var t := ArgTokens(args[i].0, args[i].1, bad);
      AllArgTokens(args[..i + 1], bad) ==
        if t.None? then None else Some(AllArgTokens(args[..i], bad).value + t.value)
  {
    assert args[..i + 1][..i] == args[..i];
  }

  /** Once an argument raises, the arguments after it are never reached. */
  lemma {:induction false} AllArgTokensNoneStays(args: seq<(string, Value)>, i: nat, bad: seq<string>)
    requires i <= |args| && AllArgTokens(args[..i], bad).None?
    ensures AllArgTokens(args, bad).None?
    decreases |args| - i
  {
    if i < |args| {
      assert args[..i + 1][..i] == args[..i];
      AllArgTokensNoneStays(args, i + 1, bad);
    } else {
      assert args[..i] == args;
    }
  }

  /** Appending one space-separated token to a string built so far. */
  lemma JoinedStep(s: string, start: string, ts: seq<string>, t: string)
    requires s == start + JoinTokens(ts)
    ensures s + " " + t == start + JoinTokens(ts + [t])
  {
    JoinTokensPush(ts, t);
  }

  lemma JoinTokensPush(ts: seq<string>, t: string)
    ensures JoinTokens(ts + [t]) == JoinTokens(ts) + " " + t
  {
    assert (ts + [t])[..|ts|] == ts;
  }

  lemma {:induction false} JoinTokensAppend(a: seq<string>, b: seq<string>)
    ensures JoinTokens(a + b) == JoinTokens(a) + JoinTokens(b)
    decreases |b|
  {
    if |b| > 0 {
      JoinTokensAppend(a, b[..|b| - 1]);
      assert (a + b)[..|a + b| - 1] == a + b[..|b| - 1];
    } else {
      assert a + b == a;
    }
  }

  // ---------------------------------------------------------------------------
  // What the workload sees: `command_string.split(' ')`
  // ---------------------------------------------------------------------------

  /** `s.split(' ')`. */
  function Split(s: string): (r: seq<string>)
    ensures |r| > 0
    decreases |s|
  {
    var k := IndexOf(s, ' ');
    if k == |s| then [s] else [s[..k]] + Split(s[k + 1..])
  }

  lemma {:induction false} SplitAroundSpace(a: string, b: string)
    ensures Split(a + " " + b) == Split(a) + Split(b)
    decreases |a|
  {
    var s := a + " " + b;
    var k := IndexOf(a, ' ');
    SpaceAfterPrefix(a, b, k);
    if k == |a| {
      assert s[..k] == a && s[k + 1..] == b;
    } else {
      var a' := a[k + 1..];
      TailAfterSpace(a, b, k);
      calc {
        Split(s);
        [s[..k]] + Split(s[k + 1..]);
        [a[..k]] + Split(a' + " " + b);
        { SplitAroundSpace(a', b); }
        [a[..k]] + (Split(a') + Split(b));
        Split(a) + Split(b);
      }
    }
  }

  lemma TailAfterSpace(a: string, b: string, k: nat)
    requires k < |a|
    ensures (a + " " + b)[..k] == a[..k]
    ensures (a + " " + b)[k + 1..] == a[k + 1..] + " " + b
  {
  }

  /** In `a + " " + b` the first space is the first space of `a`, or the
      added one. */
  lemma SpaceAfterPrefix(a: string, b: string, k: nat)
    requires k == IndexOf(a, ' ')
    ensures IndexOf(a + " " + b, ' ') == k
  {
    var s := a + " " + b;
    assert forall j | 0 <= j <= k :: s[j] == (a + " ")[j];
    IndexOfUnique(s, ' ', k);
  }

  /** The first occurrence is the only index with these properties. */
  lemma {:induction false} IndexOfUnique(s: string, c: char, k: nat)
    requires k < |s| && s[k] == c && forall j | 0 <= j < k :: s[j] != c
    ensures IndexOf(s, c) == k
  {
    if k > 0 {
      IndexOfUnique(s[1..], c, k - 1);
    }
  }

  lemma SplitWord(t: string)
    requires ' ' !in t
    ensures Split(t) == [t]
  {
    assert IndexOf(t, ' ') == |t|;
  }

  /** Appending the joined tokens to any command prefix adds exactly those
      tokens to the argument vector, provided none holds a space. */
  lemma {:induction false} SplitJoined(prefix: string, ts: seq<string>)
    requires forall k | 0 <= k < |ts| :: ' ' !in ts[k]
    ensures Split(prefix + JoinTokens(ts)) == Split(prefix) + ts
    decreases |ts|
  {
    if |ts| == 0 {
      assert prefix + "" == prefix;
    } else {
      var init, last := ts[..|ts| - 1], ts[|ts| - 1];
      assert ts == init + [last];
      var before := prefix + JoinTokens(init);
      SplitJoined(prefix, init);
      JoinedStep(before, prefix, init, last);
      SplitAroundSpace(before, last);
      SplitWord(last);
      assert Split(before + " " + last) == Split(prefix) + init + [last];
    }
  }

  lemma {:induction false} AllArgTokensClean(args: seq<(string, Value)>, bad: seq<string>)
    requires AllArgTokens(args, bad).Some?
    ensures var ts := AllArgTokens(args, bad).value;
      forall k | 0 <= k < |ts| :: CheckChars(ts[k])
  {
    if |args| > 0 {
      AllArgTokensClean(args[..|args| - 1], bad);
      var name := args[|args| - 1].0;
      if CheckChars(name) {
        assert CheckChars("--" + name) by {
          assert forall j | 2 <= j < |"--" + name| :: ("--" + name)[j] == name[j - 2];
        }
      }
    }
  }

  /** The workload's argument vector ends with exactly the option tokens,
      each made of `[A-Za-z0-9_-]` only, so no configured value can inject a
      further argument or a shell metacharacter; the tokens start with `-W`,
      then `--mop all` when files are cleaned, then `--ncores N` when the
      core count is forced. */
  lemma OptionsReachWorkloadIntact(prefix: string, args: seq<(string, Value)>, cleanFiles: bool, ncores: int)
    requires OptionTokens(args, cleanFiles, ncores).Some?
    ensures var ts := OptionTokens(args, cleanFiles, ncores).value;
      && Split(prefix + OptionsString(args, cleanFiles, ncores).value) == Split(prefix) + ts
      && (forall k | 0 <= k < |ts| :: CheckChars(ts[k]))
      && ts[0] == "-W"
      && (cleanFiles ==> ts[1..3] == ["--mop", "all"])
      && (ncores != 0 ==> var at := if cleanFiles then 3 else 1;
                          ts[at..at + 2] == ["--ncores", IntToString(ncores)])
  {
    var bad := BadArgs(cleanFiles, ncores);
    var ts := OptionTokens(args, cleanFiles, ncores).value;
    TokensClean(args, cleanFiles, ncores);
    SplitJoined(prefix, ts);
  }

  lemma TokensClean(args: seq<(string, Value)>, cleanFiles: bool, ncores: int)
    requires OptionTokens(args, cleanFiles, ncores).Some?
    ensures var ts := OptionTokens(args, cleanFiles, ncores).value;
      forall k | 0 <= k < |ts| :: CheckChars(ts[k]) && ' ' !in ts[k]
  {
    var bad := BadArgs(cleanFiles, ncores);
    AllArgTokensClean(args, bad);
    FixedTokensClean(cleanFiles, ncores);
    var rest := AllArgTokens(args, bad).value;
    var fixed := FixedTokens(cleanFiles, ncores);
    var ts := fixed + rest;
    forall k | 0 <= k < |ts|
      ensures CheckChars(ts[k]) && ' ' !in ts[k]
    {
      if k >= |fixed| {
        assert ts[k] == rest[k - |fixed|];
      } else {
        assert ts[k] == fixed[k];
      }
    }
  }

  lemma FixedTokensClean(cleanFiles: bool, ncores: int)
    ensures var fixed := FixedTokens(cleanFiles, ncores);
      forall k | 0 <= k < |fixed| :: CheckChars(fixed[k])
  {
    assert CheckChars("-W") && CheckChars("--mop") && CheckChars("all") && CheckChars("--ncores");
  }

  // ---------------------------------------------------------------------------
  // Image name and flags
  // ---------------------------------------------------------------------------

  /** The image tag: the configured version, with `_<arch>` appended when
      `addarch` is truthy, the engine is singularity and the registry is not a
      `docker://` one. */
  function ImageVersion(version: string, addarch: Value, cec: Engine, registry: string, arch: string): (r: string)
    ensures StartsWith(r, version)
    ensures r == version || (Truthy(addarch) && cec == Singularity && !StartsWith(registry, "docker://"))
    ensures Truthy(addarch) && cec == Singularity && !StartsWith(registry, "docker://") ==> r == version + "_" + arch
  {
    if Truthy(addarch) && cec == Singularity && !StartsWith(registry, "docker://") then version + "_" + arch
    else version
  }

  /** `<registry>/<benchmark>:<tag>`. */
  function ImageName(registry: string, benchmark: string, tag: string): (r: string)
    ensures r == registry + "/" + benchmark + ":" + tag
    ensures StartsWith(r, registry + "/") && r[|registry| + 1..][..|benchmark|] == benchmark
    ensures |r| > |tag| && r[|r| - |tag|..] == tag && r[|r| - |tag| - 1] == ':'
  {
    registry + "/" + benchmark + ":" + tag
  }

  /** The GPU flag: only a `gpu` setting that is `True` itself enables it. */
  function GpuFlag(gpu: Option<Value>, cec: Engine): (r: string)
    ensures r != "" <==> gpu == Some(VBool(true))
    ensures gpu == Some(VBool(true)) ==> r == (if cec == Singularity then "--nv " else "--gpus all ")
  {
    if gpu.Some? && IsTrue(gpu.value) then (if cec == Singularity then "--nv " else "--gpus all ") else ""
  }

  // ---------------------------------------------------------------------------
  // The run/retry state machine
  // ---------------------------------------------------------------------------

  /** How a launch ends: the process could not be started, or it exited. */
  datatype Launch = SpawnFailed | Exited(code: int)

  /** The loop's counters: attempts started, `successful_runs`, `retry_count`,
      and whether the loop gave up (`result = -1`). */
  datatype Tally = Tally(launched: nat, successes: nat, retryCount: nat, failed: bool)

  /** One iteration. A replayed (mock) run always succeeds. An exit code is a
      success when it is not positive, but any non-zero code uses a retry. */
  function Attempt(t: Tally, o: Launch, mock: bool, retries: nat): (r: Tally)
    ensures r.launched == t.launched + 1
  {
    if mock then t.(launched := t.launched + 1, successes := t.successes + 1)
    else match o
      case SpawnFailed =>
        var rc := t.retryCount + 1;
        Tally(t.launched + 1, t.successes, rc, retries <= 0 || rc > retries)
      case Exited(code) =>
        var s := if code > 0 then t.successes else t.successes + 1;
        if code != 0 then
          var rc := t.retryCount + 1;
          Tally(t.launched + 1, s, rc, retries <= 0 || rc > retries)
        else Tally(t.launched + 1, s, t.retryCount, false)
  }

  /** One attempt, case by case: it counts as a success exactly for a replay
      or an exit code that is not positive; it uses a retry exactly for a
      real run that could not be started or exited non-zero; and the loop
      gives up exactly when that retry is one too many (or none are
      allowed). The loop only attempts while it has not given up. */
  lemma AttemptCases(t: Tally, o: Launch, mock: bool, retries: nat)
    requires !t.failed
    ensures var r := Attempt(t, o, mock, retries);
      var retried := !mock && (o.SpawnFailed? || o.code != 0);
      && (r.successes == t.successes + 1 <==> mock || (o.Exited? && o.code <= 0))
      && (r.successes == t.successes <==> !(mock || (o.Exited? && o.code <= 0)))
      && (r.retryCount == t.retryCount + 1 <==> retried)
      && (r.retryCount == t.retryCount <==> !retried)
      && (r.failed <==> retried && (retries <= 0 || t.retryCount + 1 > retries))
  {
  }

  /** The loop from state `t` on: it stops after `runs + retries` attempts,
      once `runs` attempts succeeded, or when it gives up. */
  function RetryFrom(runs: nat, retries: nat, mock: bool, outcomes: seq<Launch>, t: Tally): Tally
    requires mock || |outcomes| >= runs + retries
    decreases runs + retries - t.launched
  {
    if t.launched >= runs + retries || t.successes == runs then t
    else
      var next := Attempt(t, if mock then Exited(0) else outcomes[t.launched], mock, retries);
      if next.failed then next else RetryFrom(runs, retries, mock, outcomes, next)
  }

  function RetrySpec(runs: nat, retries: nat, mock: bool, outcomes: seq<Launch>): Tally
    requires mock || |outcomes| >= runs + retries
  {
    RetryFrom(runs, retries, mock, outcomes, Tally(0, 0, 0, false))
  }

  /** What holds of the counters throughout the loop. */
  predicate TallyInv(runs: nat, retries: nat, t: Tally) {
    && t.successes <= runs
    && t.successes <= t.launched <= runs + retries
    && t.launched - t.successes <= t.retryCount
    && (!t.failed ==> t.retryCount <= retries)
    && (t.failed ==> t.retryCount == retries + 1)
  }

  lemma {:induction false} RetryFromKeepsInv(runs: nat, retries: nat, mock: bool, outcomes: seq<Launch>, t: Tally)
    requires mock || |outcomes| >= runs + retries
    requires TallyInv(runs, retries, t) && !t.failed
    ensures var r := RetryFrom(runs, retries, mock, outcomes, t);
      TallyInv(runs, retries, r) && (!r.failed ==> r.successes == runs)
    decreases runs + retries - t.launched
  {
    if !(t.launched >= runs + retries || t.successes == runs) {
      var next := Attempt(t, if mock then Exited(0) else outcomes[t.launched], mock, retries);
      if !next.failed {
        RetryFromKeepsInv(runs, retries, mock, outcomes, next);
      }
    }
  }

  /** The loop starts at most `runs + retries` attempts and never more
      successes than `runs`; it ends either with `runs` successes or having
      given up, and it gives up exactly when one more retry than allowed was
      needed. */
  lemma RetryOutcome(runs: nat, retries: nat, mock: bool, outcomes: seq<Launch>)
    requires mock || |outcomes| >= runs + retries
    ensures var t := RetrySpec(runs, retries, mock, outcomes);
      && t.launched <= runs + retries
      && t.successes <= runs
      && (!t.failed ==> t.successes == runs && t.retryCount <= retries)
      && (t.failed ==> t.retryCount == retries + 1)
  {
    RetryFromKeepsInv(runs, retries, mock, outcomes, Tally(0, 0, 0, false));
  }

  /** A replay starts exactly `runs` attempts and always succeeds. */
  lemma {:induction false} ReplayAlwaysSucceeds(runs: nat, retries: nat, outcomes: seq<Launch>, t: Tally)
    requires t.launched == t.successes <= runs && t.retryCount == 0 && !t.failed
    ensures RetryFrom(runs, retries, true, outcomes, t) == Tally(runs, runs, 0, false)
    decreases runs - t.launched
  {
    if t.successes != runs {
      ReplayAlwaysSucceeds(runs, retries, outcomes, t.(launched := t.launched + 1, successes := t.successes + 1));
    }
  }

  /** A negative exit code counts as a success and also uses up a retry: with
      no retries allowed, a single run exiting with -1 makes the benchmark
      fail although the run was counted as successful. */
  lemma NegativeExitSucceedsAndRetries()
    ensures RetrySpec(1, 0, false, [Exited(-1)]) == Tally(1, 1, 1, true)
    ensures RetrySpec(2, 1, false, [Exited(-1), Exited(0), Exited(0)]) == Tally(2, 2, 1, false)
  {
  }

  /** Two repetitions with one retry: two failures give up after two attempts;
      a failure followed by two successes finishes after three. */
  lemma OneRetryBoundary()
    ensures RetrySpec(2, 1, false, [Exited(1), Exited(1), Exited(0)]) == Tally(2, 0, 2, true)
    ensures RetrySpec(2, 1, false, [Exited(1), Exited(0), Exited(0)]) == Tally(3, 2, 1, false)
    ensures RetrySpec(2, 1, false, [SpawnFailed, SpawnFailed, Exited(0)]) == Tally(2, 0, 2, true)
  {
  }
}
