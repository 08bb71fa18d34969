# HEPscore orchestration core in Dafny

HEPscore is the benchmark orchestrator of the HEP-Benchmarks suite. It takes a
YAML configuration that lists container images of high-energy-physics
workloads, then goes through five stages:

- It validates the configuration and normalises it.
- It resolves which container registry to pull each image from, following a
  per-engine priority of URI schemes.
- It launches every benchmark a configured number of times, with a retry
  budget, under docker or singularity.
- It reduces each benchmark's per-run result files to a median score.
- It runs the whole suite, recording results, weights and the first failure,
  and decides how the summary output ends.

A companion script, `archive_images.py`, has three jobs. It derives the list
of images a configuration needs and a hash of that list. It derives the file
names and the manifest URL used when archiving the images. It decides whether
the images have to be downloaded at all.

The model is split into modules that follow the program's structure:

| module | file | models |
|---|---|---|
| `Wrappers` | wrappers.dfy | `Option`, `Result`, `Outcome` |
| `Text` | text.dfy | the character-class checks, `str(int)`, how `int()` and `float()` read a string (whitespace, underscores, syntax), string helpers (`split`, `replace`, `rstrip`, substring) |
| `Values` | values.dfy | the dynamically typed YAML values, Python truth testing, `int()`, `float()`, `str()` |
| `Registry` | registry.dfy | `gen_reglist`, `check_reglist`, `_gen_regpath`, `_drop_uri` |
| `Config` | config.dfy | the configuration document: settings, options, benchmarks |
| `Validate` | validate.dfy | `validate_conf` |
| `Stats` | stats.dfy | `median_tuple`, and the guards of `weighted_geometric_mean` |
| `Reduce` | reduce.dfy | `_proc_results` |
| `Runner` | runner.dfy | the options string, image name, GPU flag and run/retry loop of `_run_benchmark` |
| `Output` | output.dfy | the decisions of `write_output` |
| `Suite` | hepscore.dfy | class `HEPscore`: constructor normalisation, `validate_conf` in place, registry resolution, the `run` suite loop |
| `Archive` | archive.dfy | `list_of_images`, image renaming, manifest URL, the download decision |

Some operations change state in the source, and those are imperative here.
The `HEPscore` object is a `class`. Its fields are the engine, URI, core
count, settings, registry, benchmarks, results, weights and error, and its
methods update them in place. The accumulating loops are methods with loop
invariants, each proved equal to a specification function. The source's loops
of this kind are the options-string concatenation, the retry loop, the result
collection, the wl-scores writing, the suite loop, the benchmark pop, the
registry rewrite, and the image and registry searches of `list_of_images`.
The properties are proved about those specification functions.

Everything outside the program is an input:

- the outcome of each container launch;
- the contents of each run's result file;
- the host's core count and the machine architecture;
- whether the log file opens;
- the per-run score arithmetic and SHA-256.

## Model

| member | source | states |
|---|---|---|
| Text.AsWrittenAcceptsTrailingNewline | hep-score-v2.0rc6/hepscore/hepscore.py:285-291 | The `re.match('^[...]*$')` checks accept exactly the strings made of the allowed class, plus those strings followed by one newline. |
| Text.NewlineNameSlipsThrough | hep-score-v2.0rc6/hepscore/hepscore.py:285-287 | The name `"bmk\n"` passes `check_chars` as written, although it is not made of `[A-Za-z0-9_-]`. |
| Text.CheckCharsExcludesShellText | hep-score-v2.0rc6/hepscore/hepscore.py:285-287 | A string passing the intended name check holds no blank, newline, quote, shell metacharacter, `/` or `.`. |
| Text.IntToString | hep-score-v2.0rc6/hepscore/hepscore.py:652-656 | `str(ncores)` is non-empty, made of name characters only, and starts with `-` exactly for negative numbers. |
| Text.ParseIntOfIntToString | hep-score-v2.0rc6/hepscore/hepscore.py:652-656 | Parsing `str(i)` back gives `i`, for every integer. |
| Text.LeadingSpaceIgnored | hep-score-v2.0rc6/hepscore/hepscore.py:254-255 | A whitespace character in front of a string changes neither what `int()` nor what `float()` makes of it. |
| Text.TrailingSpaceIgnored | hep-score-v2.0rc6/hepscore/hepscore.py:963-977 | A whitespace character at the end of a string, such as the newline of `"2.5\n"`, changes neither what `int()` nor what `float()` makes of it. |
| Text.UnderscoreBetweenDigits | hep-score-v2.0rc6/hepscore/hepscore.py:963-977 | Two digit runs joined by one underscore, such as `1_000`, are read by `int()` and `float()` as the digits without the underscore. |
| Text.MisplacedUnderscore | hep-score-v2.0rc6/hepscore/hepscore.py:963-977 | An underscore at either end of the stripped text, or next to a character that is not a digit, makes `int()` and `float()` raise. |
| Text.LastSegment | hep-score-v2.0rc6/hepscore/archive_images.py:117-118 | `s.split('/')[-1]` is a suffix of `s` that holds no separator and is preceded by one when shorter than `s`. |
| Text.ReplaceChar | hep-score-v2.0rc6/hepscore/archive_images.py:117 | `replace(":", "_")` keeps the length and changes exactly the `:` characters. |
| Text.RStrip | hep-score-v2.0rc6/hepscore/archive_images.py:147 | `rstrip('/')` is a prefix that does not end in `/`, and only `/` characters were removed. |
| Values.PyFloatOk | hep-score-v2.0rc6/hepscore/hepscore.py:963-977 | `float(v)` succeeds on numbers, booleans and float literals, where a literal may be surrounded by whitespace and hold single underscores between digits. It raises the uncaught TypeError exactly on `None` and collections. |
| Values.PyInt | hep-score-v2.0rc6/hepscore/hepscore.py:613-617 | `int(v)` succeeds on integers and booleans, and gives an integer its own value. |
| Values.PyIntOfRenderedInt | hep-score-v2.0rc6/hepscore/hepscore.py:254-255 | `int(str(i)) == i`. |
| Registry.GenRegList | hep-score-v2.0rc6/hepscore/hepscore.py:293-303 | A string becomes a one-entry list, a list stays as it is, anything else becomes the empty list. |
| Registry.CheckEntries | hep-score-v2.0rc6/hepscore/hepscore.py:313-319 | The entries are accepted exactly when each starts with a letter and uses only registry characters, under the corrected class check of the Findings table. An empty entry crashes on `reg_string[0]`. |
| Registry.CheckRegList | hep-score-v2.0rc6/hepscore/hepscore.py:305-319 | A registry is accepted exactly when its list is non-empty and every entry is well formed, under the corrected class check of the Findings table. |
| Registry.FindEntry | hep-score-v2.0rc6/hepscore/hepscore.py:341-345 | The inner loop finds the earliest entry carrying the scheme, or reports that none does. |
| Registry.FindScheme | hep-score-v2.0rc6/hepscore/hepscore.py:340-347 | The outer loop finds the first scheme in priority order that any entry carries, and the earliest such entry. |
| Registry.GenRegPathPicks | hep-score-v2.0rc6/hepscore/hepscore.py:321-354 | On success the entry carries the first candidate scheme that any entry carries, and no earlier entry carries it. It fails exactly when the list is empty, the requested URI is unsupported by the engine, or no entry matches. |
| Registry.ResolvedSchemeIsSupported | hep-score-v2.0rc6/hepscore/hepscore.py:329-347 | A resolved registry always carries a scheme the engine supports. |
| Registry.DropUri | hep-score-v2.0rc6/hepscore/hepscore.py:356-367 | Under docker `docker://` is stripped, under singularity `dir://`; any other path is returned unchanged. |
| Registry.DropUriKeepsOtherSchemes | hep-score-v2.0rc6/hepscore/hepscore.py:361-367 | A path with any other valid scheme is never altered. |
| Registry.DockerStringRegistryCases | hep-score-v2.0rc6/hepscore/tests/test_cmd.py:110-160 | Under docker, `docker://abcd` resolves for the URI `docker` and for the default, and fails for `oras` and `dir`. `oras://abcd` fails by default. |
| Registry.SingularityRequestedUriCases | hep-score-v2.0rc6/hepscore/tests/test_cmd.py:110-136 | Under singularity, each of `docker://`, `oras://` and `dir://` resolves when the same URI is requested. |
| Registry.SingularityRequestedUriMissing | hep-score-v2.0rc6/hepscore/tests/test_cmd.py:115-116 | Under singularity, requesting `oras` or `dir` for a `docker://` registry finds no matching entry. |
| Registry.SingularityDefaultUriCases | hep-score-v2.0rc6/hepscore/tests/test_cmd.py:138-160 | Under singularity, with no URI requested, each of the three schemes resolves. |
| Registry.SchemeOrderBeatsListOrder | hep-score-v2.0rc6/hepscore/hepscore.py:340-347 | Scheme priority beats list order: singularity picks a later `oras://` entry over an earlier `docker://` one, and docker picks the `docker://` one. |
| Validate.CheckSettings | hep-score-v2.0rc6/hepscore/hepscore.py:898-939 | The settings pass exactly when all required keys are present, the method is `geometric_mean`, the counts are non-negative ints, the registry is well formed, and `scaling` converts to float. A missing section stops the program. Which fault is reported first follows a fixed key order. |
| Validate.CheckRefScores | hep-score-v2.0rc6/hepscore/hepscore.py:970-977 | The reference scores pass exactly when each converts to float, padding and underscores between digits included. |
| Validate.CheckBenchmark | hep-score-v2.0rc6/hepscore/hepscore.py:942-991 | One benchmark passes exactly when it is commented out, or it has a legal name under the corrected check, a version, convertible ref scores, a well-formed results file and registry, and a weight that `float()` can be applied to. |
| Validate.CheckBenchmarks | hep-score-v2.0rc6/hepscore/hepscore.py:941-992 | The benchmarks pass exactly when every entry does. |
| Validate.Uncommented | hep-score-v2.0rc6/hepscore/hepscore.py:946-949 | The entries kept are exactly the original entries whose name does not start with `.`. |
| Validate.ValidateConfSpec | hep-score-v2.0rc6/hepscore/hepscore.py:883-995 | Validation passes exactly when both sections exist, the settings are acceptable, the mapping is non-empty and every benchmark is acceptable. |
| Validate.UncommentedIdempotent | hep-score-v2.0rc6/hepscore/hepscore.py:946-949 | Removing commented-out entries twice removes nothing more. |
| Validate.UncommentedSnoc | hep-score-v2.0rc6/hepscore/hepscore.py:942-949 | Removing commented-out entries goes entry by entry: appending one entry appends it exactly when it is not commented out. |
| Validate.RevalidationChangesNothing | hep-score-v2.0rc6/hepscore/hepscore.py:883-995 | A configuration that passed validation, with at least one active benchmark, passes again and is not changed again. |
| Validate.AllCommentedOutPassesOnce | hep-score-v2.0rc6/hepscore/hepscore.py:941-995 | A configuration whose benchmarks are all commented out passes, because the count is taken before the comment check, and leaves an empty mapping. Validating that mapping again fails with "no benchmarks". |
| Validate.IllegalNameRejected | hep-score-v2.0rc6/hepscore/hepscore.py:951-953 | Under the corrected name check, an uncommented benchmark name holding a character outside `[A-Za-z0-9_-]` stops the program. |
| Validate.UnparseableWeightOnlyLogged | hep-score-v2.0rc6/hepscore/hepscore.py:963-968 | A weight string that is no float literal is accepted as if no weight were given. |
| Stats.SortEntries | hep-score-v2.0rc6/hepscore/hepscore.py:113 | `sorted(vals.items(), key=value)` is sorted by value, stable, and a permutation of the entries. |
| Stats.MedianTuple | hep-score-v2.0rc6/hepscore/hepscore.py:115-120 | An odd number of entries gives a single run; an even number gives a pair of runs. |
| Stats.MedianTupleByRank | hep-score-v2.0rc6/hepscore/hepscore.py:104-120 | For odd n the median is the entry with exactly n/2 entries before it in the stable order. For even n it is the mean of the values of the entries ranked n/2-1 and n/2, and both their keys are returned. |
| Stats.MedianSingleByRank | hep-score-v2.0rc6/hepscore/hepscore.py:104-118 | For an odd count the returned run is an entry with exactly half (rounded down) of the entries before it. |
| Stats.MedianPairByRank | hep-score-v2.0rc6/hepscore/hepscore.py:104-120 | For an even count the two returned runs are entries ranked n/2-1 and n/2, and the value is the mean of their scores. |
| Stats.AdjacentRanks | hep-score-v2.0rc6/hepscore/hepscore.py:113-120 | Two neighbouring positions of the sorted list hold entries of the input whose ranks are those positions, each with its own run's score. |
| Stats.MedianOfTie | hep-score-v2.0rc6/hepscore/hepscore.py:113-117 | Equal values keep their insertion order: of two runs scoring 2.0, the first is the median. |
| Stats.WeightedGeometricMean | hep-score-v2.0rc6/hepscore/hepscore.py:123-148 | The mean is 0 when the lengths differ or the total weight is 0. Otherwise its weights are the given ones, or 1.0 per value by default. |
| Stats.DefaultWeightsZeroOnlyWhenEmpty | hep-score-v2.0rc6/hepscore/hepscore.py:134-148 | With default weights the mean is 0 exactly when there are no values. |
| Stats.ExplicitWeightsZero | hep-score-v2.0rc6/hepscore/hepscore.py:139-148 | With explicit weights the mean is 0 exactly when the lengths differ or the weights sum to 0. |
| Reduce.Collected | hep-score-v2.0rc6/hepscore/hepscore.py:381-443 | The collected `results` are keyed by position in the sorted file list, in increasing key order, below the number of files. |
| Reduce.CollectedEntries | hep-score-v2.0rc6/hepscore/hepscore.py:384-443 | A run is collected exactly when its file is valid: readable JSON with `app`, `run_info`, `report[wl-scores]` and every reference sub-benchmark. Its score is the scorer applied to its sub-scores. |
| Reduce.RecordedEntries | hep-score-v2.0rc6/hepscore/hepscore.py:415-418 | Every file holding the required keys stores its report under `run<i>`. Other run entries are unchanged. |
| Reduce.CollectedCount | hep-score-v2.0rc6/hepscore/hepscore.py:384-443 | The number of collected results is the number of valid files. |
| Reduce.ProcResults | hep-score-v2.0rc6/hepscore/hepscore.py:369-480 | The procedure raises exactly when some file with the required keys reports a sub-benchmark whose reference score is zero or not a number. Otherwise it computes exactly the specification of `_proc_results`. |
| Reduce.CollectRuns | hep-score-v2.0rc6/hepscore/hepscore.py:384-443 | The file loop raises exactly when a division by a reference score raises. Otherwise it yields the collected results, the score data in order, and the updated benchmark entry. |
| Reduce.ReadRun | hep-score-v2.0rc6/hepscore/hepscore.py:399-443 | One pass of the file loop raises exactly when the file raises. Otherwise it moves the collected results, the score data and the `run<i>` entries from the state after `i` files to the state after `i + 1`. |
| Reduce.ScoreFile | hep-score-v2.0rc6/hepscore/hepscore.py:424-441 | For a file with the required keys, the score step raises exactly when its division raises. Otherwise it yields a score exactly when the file reports every reference sub-benchmark, and that score is the scorer applied to the file's sub-scores. |
| Reduce.ScanSubScores | hep-score-v2.0rc6/hepscore/hepscore.py:425-433 | The sub-score loop raises exactly when a reported sub-benchmark has a zero or non-numeric reference score. Otherwise it succeeds exactly when every reference sub-benchmark is reported. |
| Reduce.WriteWlScores | hep-score-v2.0rc6/hepscore/hepscore.py:459-473 | The wl-scores loop writes, for every reference sub-benchmark, the entry of the specification fold. |
| Reduce.ProcResultsOutcome | hep-score-v2.0rc6/hepscore/hepscore.py:444-480 | The result is -1, with no wl-scores and the reference scores kept, exactly when the valid-run count is zero or differs from `repetitions`. Otherwise it is the median of the collected scores, and `ref_scores` is removed. |
| Reduce.ProcResultsKeepsConfiguration | hep-score-v2.0rc6/hepscore/hepscore.py:369-480 | Reduction never touches a benchmark's version, weight, results file, registry, arguments or GPU flag. |
| Reduce.MedianRunsValid | hep-score-v2.0rc6/hepscore/hepscore.py:452-469 | The run or runs `median_tuple` selects are valid files, so their sub-scores exist. |
| Reduce.WlScoresFromMedianRuns | hep-score-v2.0rc6/hepscore/hepscore.py:459-473 | For an odd count each wl-score copies the selected run's raw sub-score. For an even count it is the mean of the two selected runs' sub-scores. `<sub>_ref` holds the reference score. |
| Reduce.WlFoldOfValidRuns | hep-score-v2.0rc6/hepscore/hepscore.py:459-473 | When the selected runs are valid, every sub-benchmark gets its `_ref` entry and the selected run's sub-score, or the mean of the two selected runs' sub-scores. |
| Runner.BadArgs | hep-score-v2.0rc6/hepscore/hepscore.py:602-655 | The reserved argument names always hold `resultsdir` and `-w`/`-W`. They hold the `mop` names exactly when files are cleaned and the `ncores` names exactly when the core count is forced. |
| Runner.BuildOptions | hep-score-v2.0rc6/hepscore/hepscore.py:602-670 | The options string built by concatenation equals the specified token join, with arguments filtered by the corrected name check, or the call raises on an empty argument name. |
| Runner.AppendArguments | hep-score-v2.0rc6/hepscore/hepscore.py:657-670 | The argument loop appends exactly the tokens of the arguments that pass the corrected name check to the string built so far. |
| Runner.OptionsReachWorkloadIntact | hep-score-v2.0rc6/hepscore/hepscore.py:602-714 | After `split(' ')` the command ends with exactly the option tokens, each made of `[A-Za-z0-9_-]` under the corrected check. They start with `-W`, then `--mop all` when files are cleaned, then `--ncores N` when the core count is forced. |
| Runner.TokensClean | hep-score-v2.0rc6/hepscore/hepscore.py:657-670 | Every option token passes the corrected name check and holds no blank. |
| Runner.FixedTokensClean | hep-score-v2.0rc6/hepscore/hepscore.py:603-651 | The fixed tokens `-W`, `--mop all` and `--ncores N` pass the name check. |
| Runner.ImageVersion | hep-score-v2.0rc6/hepscore/hepscore.py:627-630 | The tag is the version, and it is `<version>_<arch>` exactly when `addarch` is truthy, the engine is singularity and the registry is not `docker://`. |
| Runner.ImageName | hep-score-v2.0rc6/hepscore/hepscore.py:678 | The image name is `<registry>/<benchmark>:<tag>`: it starts with the registry and a `/`, the benchmark follows, and it ends with `:` and the tag. |
| Runner.GpuFlag | hep-score-v2.0rc6/hepscore/hepscore.py:644-648 | A GPU flag is emitted exactly when `gpu` is the boolean `True` itself. It is `--nv ` under singularity and `--gpus all ` under docker. |
| Runner.Attempt | hep-score-v2.0rc6/hepscore/hepscore.py:691-796 | Every iteration starts exactly one launch. |
| Runner.AttemptCases | hep-score-v2.0rc6/hepscore/hepscore.py:691-796 | An attempt succeeds exactly for a replay or an exit code that is not positive. It uses a retry exactly for a real run that could not start or exited non-zero. The loop gives up exactly when that retry exceeds the budget or none are allowed. |
| Runner.RetryOutcome | hep-score-v2.0rc6/hepscore/hepscore.py:691-796 | The loop starts at most `runs + retries` launches and counts at most `runs` successes. It ends with `runs` successes within the retry budget, or gives up having used exactly one retry more than allowed. |
| Runner.RetryFromKeepsInv | hep-score-v2.0rc6/hepscore/hepscore.py:691-796 | The loop's counters keep their invariant from any non-failed state, and a loop that did not give up ends with `runs` successes. |
| Runner.ReplayAlwaysSucceeds | hep-score-v2.0rc6/hepscore/hepscore.py:781-783 | A replay starts exactly `runs` launches, all successful, and uses no retry. |
| Runner.NegativeExitSucceedsAndRetries | hep-score-v2.0rc6/hepscore/hepscore.py:767-796 | A negative exit code counts as a success and also uses a retry. With no retries, one run exiting -1 fails the benchmark. |
| Runner.OneRetryBoundary | hep-score-v2.0rc6/hepscore/hepscore.py:691-796 | With two repetitions and one retry, two failures give up after two launches. One failure then two successes finish after three. Two spawn failures give up after two. |
| Output.LastFour | hep-score-v2.0rc6/hepscore/hepscore.py:853 | `s[-4:]` is the last four characters, or all of a shorter string. |
| Output.WriteOutput | hep-score-v2.0rc6/hepscore/hepscore.py:837-881 | The default file is `<resultsdir>/<name>.<outtype>`, and an explicit name is used as given. A name-versus-type mismatch is only logged. Only `yaml` (wrapped under `hepscore`) and `json` (bare) are accepted, and anything else raises ValueError. The call exits 2 exactly when writing failed or the last result is missing or negative. |
| Output.ExitIgnoresFileName | hep-score-v2.0rc6/hepscore/hepscore.py:849-854 | The file-name warning never changes how the call ends. |
| Suite.EngineSetting | hep-score-v2.0rc6/hepscore/hepscore.py:224-233 | The engine is docker exactly when `container_exec` is `"docker"`. Any value other than the two engine names stops the program, and no value means singularity. |
| Suite.UriOption | hep-score-v2.0rc6/hepscore/hepscore.py:235-240 | `container_uri` is accepted exactly when it is one of the valid schemes, and an absent option means none requested. |
| Suite.NcoresSetting | hep-score-v2.0rc6/hepscore/hepscore.py:254-259 | The core count is forced only when `int(ncores)` differs from the host's count; otherwise it and the setting become 0. A value `int()` rejects stops the program. |
| Suite.Prepare | hep-score-v2.0rc6/hepscore/hepscore.py:205-273 | The `hepscore` section, or the deprecated `hepscore_benchmark`, is required, and so is `settings`. A bad engine or URI stops the program, and a core count `int()` cannot read raises. Past the section and the settings, the constructor succeeds exactly when the engine, the URI and the core count are all accepted. On success the settings are kept except that the `registry` and `ncores` options override them, and the core count is the one decided from the overriding value and the host's cores. `addarch` comes from the settings and `clean`, `clean_files` and `userns` from the options, each false when absent. The benchmarks and the registry are not read yet. |
| Suite.ResolveAllEntries | hep-score-v2.0rc6/hepscore/hepscore.py:280-283 | Every per-benchmark registry is resolved in place. Resolution fails exactly when one of them cannot be resolved. |
| Suite.ResolvedEntryShape | hep-score-v2.0rc6/hepscore/hepscore.py:281-283 | Resolving a benchmark changes only its registry, to the resolved path, and leaves a benchmark without a registry as it is. |
| Suite.NormalisedIsRunnable | hep-score-v2.0rc6/hepscore/hepscore.py:188-283 | A configuration the constructor accepts has runnable settings and a resolved registry string. Every benchmark is runnable, active and legally named under the corrected name check. |
| Suite.ResolveCases | hep-score-v2.0rc6/hepscore/hepscore.py:274-283 | Registry resolution stops at the global registry, then at the first bad benchmark registry. Otherwise it stores the resolved path, the path with its URI dropped, and the resolved benchmarks. |
| Suite.AttemptedEntries | hep-score-v2.0rc6/hepscore/hepscore.py:719-722 | After n launches, `run0` … `run<n-1>` hold fresh entries, and every other entry is as it was. |
| Suite.LaunchOutcomes | hep-score-v2.0rc6/hepscore/hepscore.py:691-796 | The i-th launch of a benchmark has the outcome the environment gives it. |
| Suite.BenchmarkRunShape | hep-score-v2.0rc6/hepscore/hepscore.py:598-803 | `_run_benchmark` raises exactly when building the options raises, or the log opens and `_proc_results` divides by a zero or non-numeric reference score. It leaves the version, weight, registry and arguments alone. It returns -1 without launching when the log cannot be opened, and -1 when the retry loop gave up. |
| Suite.AcceptedRefScoresThatRaise | hep-score-v2.0rc6/hepscore/hepscore.py:970-977 | Validation accepts a zero reference score and a number written as a string, and the division of `_proc_results` raises on both as soon as a run reports that sub-benchmark. |
| Suite.RetryLoop | hep-score-v2.0rc6/hepscore/hepscore.py:691-796 | The loop's counters are exactly those of the retry specification, and the run entries are those of the attempts made. |
| Suite.ExecuteBenchmark | hep-score-v2.0rc6/hepscore/hepscore.py:598-803 | Running a benchmark computes exactly the specification of `_run_benchmark`. |
| Suite.LaunchAndReduce | hep-score-v2.0rc6/hepscore/hepscore.py:691-803 | Launching and reducing raise exactly when a division by a reference score raises. Otherwise they give exactly the specified counters and reduction. |
| Suite.Step | hep-score-v2.0rc6/hepscore/hepscore.py:1086-1102 | One suite iteration leaves every other benchmark's entry as it was. |
| Suite.SuiteStep | hep-score-v2.0rc6/hepscore/hepscore.py:1086-1102 | While the loop runs, each benchmark is processed by one step, in mapping order. |
| Suite.HaltStays | hep-score-v2.0rc6/hepscore/hepscore.py:1093-1095 | Once the loop has stopped, no later benchmark changes anything. |
| Suite.Weighted | hep-score-v2.0rc6/hepscore/hepscore.py:1098-1102 | After a benchmark is recorded its weight is set: the configured one, or 1.0 written back. Nothing else changes. |
| Suite.FirstFailure | hep-score-v2.0rc6/hepscore/hepscore.py:1088-1092 | The first failing benchmark: all before it returned a non-negative result, and it returned a negative one. |
| Suite.ContinuingRunsEverything | hep-score-v2.0rc6/hepscore/hepscore.py:1084-1102 | With `continue_fail`, every benchmark runs. Every result is appended, failing ones included, each with its weight. |
| Suite.ContinuingFlagsFirstFailure | hep-score-v2.0rc6/hepscore/hepscore.py:1088-1092 | With `continue_fail`, the failure flag is set exactly when some benchmark failed. `error` names the first failing benchmark unless it was already set. |
| Suite.ContinuingWritesWeights | hep-score-v2.0rc6/hepscore/hepscore.py:1097-1102 | With `continue_fail`, every benchmark run gets its weight written back, and the others are unchanged. |
| Suite.ContinuingStaysRunning | hep-score-v2.0rc6/hepscore/hepscore.py:1086-1102 | With `continue_fail` and no exception, the loop never halts. |
| Suite.ContinuingStep | hep-score-v2.0rc6/hepscore/hepscore.py:1086-1102 | One continuing iteration appends the result and weight, flags a negative result, and records the name only for the first error. |
| Suite.ConcludeContinuing | hep-score-v2.0rc6/hepscore/hepscore.py:1088-1102 | Recording a result under `continue_fail` sets exactly the failure flag, the first error, the result, the weight and the written-back weight. |
| Suite.ConcludeStopping | hep-score-v2.0rc6/hepscore/hepscore.py:1088-1101 | Without `continue_fail`, a negative result stops the loop without being appended, and a non-negative one is appended with its weight. |
| Suite.StoppingAtFirstFailure | hep-score-v2.0rc6/hepscore/hepscore.py:1084-1101 | Without `continue_fail`, the loop stops exactly when a benchmark fails. Only the results and weights before the first failure are appended, and `error` names that benchmark. |
| Suite.StoppingFlagsFirstFailure | hep-score-v2.0rc6/hepscore/hepscore.py:1088-1095 | Without `continue_fail`, the loop is stopped exactly when some benchmark failed. The failure flag is set then, and `error` names the first failing benchmark unless it was already set. |
| Suite.StoppingRecordsSuccesses | hep-score-v2.0rc6/hepscore/hepscore.py:1086-1101 | While every result is non-negative, the loop keeps running and appends each result with its weight. The failure flag and `error` stay as they were. |
| Suite.StoppingKeepsSuccesses | hep-score-v2.0rc6/hepscore/hepscore.py:1086-1101 | Without `continue_fail`, the results and weights appended are exactly those of the benchmarks before the first failure. |
| Suite.StoppingStep | hep-score-v2.0rc6/hepscore/hepscore.py:1086-1101 | One iteration without `continue_fail` either stops on a negative result, or appends the result and weight. |
| Suite.ReturnedEntries | hep-score-v2.0rc6/hepscore/hepscore.py:1096 | The appended results are the benchmarks' results, one each, in order. |
| Suite.ContinuingHidesEarlierFailure | hep-score-v2.0rc6/hepscore/hepscore.py:1084-1102 | With `continue_fail`, an earlier failure followed by a successful last benchmark still marks the run as failed, yet `write_output` returns normally. |
| Suite.StoppedSuiteExitsOnlyWhenFirstFails | hep-score-v2.0rc6/hepscore/hepscore.py:1084-1101 | Without `continue_fail`, `write_output` exits with 2 exactly when the first benchmark failed, since a later failure is never appended. |
| Suite.ResultsAndWeightsInStep | hep-score-v2.0rc6/hepscore/hepscore.py:1096-1102 | Results and weights always grow together, and a failure once flagged stays flagged. |
| Suite.HashedKeys | hep-score-v2.0rc6/hepscore/hepscore.py:1020 | The hashed configuration keeps exactly the keys that are not substrings of `"options"`. |
| Suite.HashedKeysLeaveOutOptions | hep-score-v2.0rc6/hepscore/hepscore.py:1020 | `options` is left out of the hash, and so are keys such as `opt` and `s`. `settings` and `benchmarks` are kept. |
| Suite.HEPscore.constructor | hep-score-v2.0rc6/hepscore/hepscore.py:188-283 | A new object holds the given normalised configuration and has no results, weights, scores or error. |
| Suite.HEPscore.Create | hep-score-v2.0rc6/hepscore/hepscore.py:188-283 | Construction fails with the normalisation's error, or yields a fresh object holding exactly the normalised configuration. |
| Suite.HEPscore.Build | hep-score-v2.0rc6/hepscore/hepscore.py:273-283 | After validation the object drops commented-out benchmarks and resolves its registries, or fails with the resolution error. |
| Suite.HEPscore.DropCommented | hep-score-v2.0rc6/hepscore/hepscore.py:942-949 | Popping commented-out keys in place leaves exactly the uncommented benchmarks, in order. |
| Suite.HEPscore.ResolveRegistries | hep-score-v2.0rc6/hepscore/hepscore.py:276-283 | Resolving in place yields exactly the resolved configuration, or fails with its error. |
| Suite.HEPscore.ResolveBenchmarkRegistries | hep-score-v2.0rc6/hepscore/hepscore.py:280-283 | Rewriting each benchmark's registry in place yields exactly the resolved benchmarks, or the first failure. |
| Suite.HEPscore.RunBenchmark | hep-score-v2.0rc6/hepscore/hepscore.py:598-803 | Running benchmark k returns its specified result and absorbs its specified effect on the configuration. The engine, registry and core settings stay unchanged. |
| Suite.HEPscore.RunListed | hep-score-v2.0rc6/hepscore/hepscore.py:1086-1087 | The call to `_run_benchmark` for benchmark i of the loop yields that benchmark's listed outcome and absorbs its effect. The run settings stay usable. |
| Suite.HEPscore.Store | hep-score-v2.0rc6/hepscore/hepscore.py:598-803 | Storing a benchmark's run writes exactly its run entries, wl-scores and score data. |
| Suite.HEPscore.Run | hep-score-v2.0rc6/hepscore/hepscore.py:1001-1132 | `run` returns the status of the suite specification: -1 exactly when some benchmark failed, else 0. Its results, weights, error and benchmarks are the specification's, and it crashes exactly when a benchmark raised, in its options or in the division by a reference score. |
| Suite.HEPscore.RunLoop | hep-score-v2.0rc6/hepscore/hepscore.py:1084-1102 | The loop ends in the specified halt state with the specified failure flag and progress, and it stops only after a failure. |
| Suite.HEPscore.Advance | hep-score-v2.0rc6/hepscore/hepscore.py:1086-1102 | One loop iteration moves the object from the specification's state before benchmark i to the state after it. |
| Suite.HEPscore.Record | hep-score-v2.0rc6/hepscore/hepscore.py:1088-1102 | Recording a result updates the error, results, weights and benchmark entry exactly as the specification concludes. |
| Archive.BelowTotal | hep-score-v2.0rc6/hepscore/archive_images.py:79 | Python's string order is total. |
| Archive.BelowAntisymmetric | hep-score-v2.0rc6/hepscore/archive_images.py:79 | Python's string order is antisymmetric. |
| Archive.BelowTransitive | hep-score-v2.0rc6/hepscore/archive_images.py:79 | Python's string order is transitive. |
| Archive.Sort | hep-score-v2.0rc6/hepscore/archive_images.py:79 | `sorted` returns an ordered permutation of its input. |
| Archive.SortedUnique | hep-score-v2.0rc6/hepscore/archive_images.py:79 | Two ordered permutations of the same strings are equal. |
| Archive.HepscoreSection | hep-score-v2.0rc6/hepscore/archive_images.py:56-60 | The section used is the first one whose key starts with `hepscore`, and there is none when no key does. |
| Archive.RegistryItems | hep-score-v2.0rc6/hepscore/archive_images.py:63 | Iterating a registry string goes over its one-character strings. |
| Archive.OrasRegistry | hep-score-v2.0rc6/hepscore/archive_images.py:62-66 | The prefix is the first registry entry starting with `oras://`, or `""` when none does. |
| Archive.StringRegistryGivesNoPrefix | hep-score-v2.0rc6/hepscore/archive_images.py:62-66 | A registry given as one string never yields an `oras://` prefix, because it is iterated by character. |
| Archive.ImageRef | hep-score-v2.0rc6/hepscore/archive_images.py:73-76 | An image is `<registry>/<key>:<version>`, followed by `_<arch>` exactly when an architecture is given. |
| Archive.ImagesFollowBenchmarks | hep-score-v2.0rc6/hepscore/archive_images.py:68-76 | Exactly one image per benchmark not commented out, in mapping order, each built from that benchmark's key and version. |
| Archive.ImagesAppend | hep-score-v2.0rc6/hepscore/archive_images.py:68-76 | The images of concatenated benchmark lists are the concatenated images. |
| Archive.PermutedBenchmarksPermuteImages | hep-score-v2.0rc6/hepscore/archive_images.py:68-76 | Reordering the benchmarks reorders the images and nothing more. |
| Archive.HashIgnoresOrder | hep-score-v2.0rc6/hepscore/archive_images.py:78-89 | The hash input is the sorted list, so any permutation of the images has the same hash. |
| Archive.PermutedBenchmarksShareHash | hep-score-v2.0rc6/hepscore/archive_images.py:68-89 | Reordering the benchmarks leaves the image-list hash unchanged. |
| Archive.ListOfImages | hep-score-v2.0rc6/hepscore/archive_images.py:42-93 | `list_of_images` returns the images in benchmark order and the hash of their sorted list. It raises, in the source's order, on a missing section, `benchmarks`, `settings`, registry or version. |
| Archive.FindSection | hep-score-v2.0rc6/hepscore/archive_images.py:56-60 | The early-break loop finds exactly the first `hepscore…` section. |
| Archive.FindOras | hep-score-v2.0rc6/hepscore/archive_images.py:62-66 | The early-break loop finds exactly the first `oras://` registry or leaves `""`. |
| Archive.CollectImages | hep-score-v2.0rc6/hepscore/archive_images.py:68-76 | The image loop raises exactly when an uncommented benchmark has no version, and otherwise builds exactly the specified images. |
| Archive.LastSegmentAfterSeparator | hep-score-v2.0rc6/hepscore/archive_images.py:117-118 | The last `/` segment of `a/b` is `b` when `b` holds no `/`. |
| Archive.RenamedImage | hep-score-v2.0rc6/hepscore/archive_images.py:117-118 | An image is archived as `key:version[_arch]`. It is pulled as the same name with `_` at exactly the `:` positions, followed by `.sif`. |
| Archive.ManifestUrlIgnoresTrailingSlashes | hep-score-v2.0rc6/hepscore/archive_images.py:147-148 | Trailing slashes on the remote URL do not change the manifest URL. |
| Archive.ManifestUrlShape | hep-score-v2.0rc6/hepscore/archive_images.py:147-148 | The manifest URL is the given URL without its trailing slashes, followed by `/<key>/<key>.json`. |
| Archive.KeyName | hep-score-v2.0rc6/hepscore/archive_images.py:206 | The archive key is `<arch>_<hash>`, and `None_<hash>` when no architecture is given. |
| Archive.MustDownload | hep-score-v2.0rc6/hepscore/archive_images.py:222-228 | A download is needed exactly when no remote archive is named, or some image is in one of the local and remote lists but not the other. |
| Archive.SameImagesSpareDownload | hep-score-v2.0rc6/hepscore/archive_images.py:222-256 | When the remote list holds the same images as the local one, nothing is downloaded, and the script takes the exit-111 path. |

## Left out

- `getPowerReadings` (hepscore.py:34-53) is not modelled. It is asynchronous SNMP polling over the network, and `power.json` writing is file I/O.
- The floating-point arithmetic is a parameter `Scorer`. This covers each run's score (the value of the sub-score division, `round(…, 4)`, the weighted geometric mean's powers) and the scaling in `gen_score`. Only the guards of `weighted_geometric_mean` are modelled, and of the division only when it raises.
- SHA-256 is an uninterpreted function parameter, along with the JSON serialisation of what it hashes. For the configuration hash only the key filter is modelled.
- Launches, result files, log files, directories and permissions are inputs. Launch outcomes are `SpawnFailed` or `Exited(code)`, a result file is unreadable, not JSON or parsed, and whether the log opens is a boolean. `_container_rm`, `check_userns`, `check_unsquash` and `get_version` are not part of this model.
- Times, dates, `os.uname()` and the environment variables are left out. They only feed log lines and report fields.
- `read_yaml`, `list_named_confs`, `named_conf`, `main.py` and `readpower.py` are not part of this model. They are file, YAML, command-line and HTTP handling.
- The `results` and `weights` lists are class-level in the source and shared by every instance. They are per-instance fields here.
- Suite.HEPscore.Run: the directory checks at the start of `run` are left out. A non-empty results directory and a failure to create the temporary directories exit with status 1.
- Suite.HEPscore.Run: the cleanup before the status is returned is left out, and so are the `score`/`status` fields written on failure.
- Registry.GenRegPath is specified by the lemma Registry.GenRegPathPicks, not by its own contract.
- Suite.BenchmarkRun is specified by the lemma Suite.BenchmarkRunShape, not by its own contract.
- Suite.BenchmarkRunShape: reported sub-scores are numbers here, so the ValueError of `float()` on a non-numeric one (hepscore.py:431) is not modelled.
- Suite.BenchmarkRunShape: when the product of the sub-scores is negative and there are two or more of them, the geometric mean is a complex number and `round` then raises TypeError (hepscore.py:156, 441). This sits inside the floating-point `Scorer` and is not modelled.
- Suite.BenchmarkRunShape: a benchmark's `version` is a string here. A YAML version read as a number makes `_run_benchmark` raise TypeError (hepscore.py:629 or 678), and the model has no such version.
- Suite.HEPscore.Run: it crashes on the raises that Suite.BenchmarkRunShape models, and not on the three above.
- Validate.CheckSettings: the source checks the settings keys in the order of the YAML mapping. The model checks them in a fixed order: registry, method, repetitions, retries, scaling. Whether the settings pass is the same either way. With several faults the model may report a different one first, for example a bad method before a `scaling` list that raises TypeError.
- Values.PyFloatOk: `float()` also reads non-ASCII decimal digits, such as Arabic-Indic ones, and the model rejects them.
- Validate.CheckRefScores: inherits the gap of Values.PyFloatOk for non-ASCII digits.
- Values.PyInt: `int()` reads non-ASCII decimal digits, and the model does not.
- Registry.CheckEntries: uses the corrected registry check. The source's `check_reg_chars` also accepts an entry followed by one newline (see Findings).
- Registry.CheckRegList: uses the corrected registry check, so a registry such as `"docker://a\n"` is rejected here although the source accepts it (hepscore.py:313-319).
- Validate.CheckBenchmark: uses the corrected name and registry checks. The source also accepts a name such as `"bmk\n"` (hepscore.py:951).
- Validate.CheckBenchmarks: inherits the corrected checks of Validate.CheckBenchmark.
- Validate.IllegalNameRejected: stated for the corrected check. The as-written check also lets through a legal name followed by one newline, as Text.NewlineNameSlipsThrough shows.
- Runner.ArgTokens: filters arguments with the corrected name check. The source also passes an argument name or value followed by one newline and appends it to the options string (hepscore.py:658-670).
- Runner.BuildOptions: inherits the corrected check of Runner.ArgTokens.
- Runner.AppendArguments: inherits the corrected check of Runner.ArgTokens.
- Runner.TokensClean: holds for the corrected check. Under the source's check a token may end in a newline, which `split(' ')` keeps inside the token.
- Runner.OptionsReachWorkloadIntact: holds for the corrected check. Under the source's check the workload may receive a token that ends in a newline.
- Suite.NormalisedIsRunnable: the benchmark names are legal under the corrected check. The source also keeps a legal name followed by one newline.
- A registry given as a mapping is iterated by key in `list_of_images`. Here it is any non-string, non-list value, which stops with an error.
- `download_images`, the `urllib` fetch, `create_output_directory` and `generate_sha256sum` are subprocess, network and file work and are not modelled. The `must_download` decision is modelled, and so is the exit with status 111 that follows it.
- Archive.MustDownload: a remote fetch that fails is passed in as an empty remote list, which is what the script then compares against.

## Findings

| source | as written | input that shows it | evidently intended | confidence | as-written member | corrected member |
|---|---|---|---|---|---|---|
| hep-score-v2.0rc6/hepscore/hepscore.py:285-291 | `re.match(r'^[…]*$', s)`: Python's `$` also matches just before a final newline | the benchmark name `"bmk\n"` passes `check_chars` | only strings made entirely of the character class pass | not executed | Text.NewlineNameSlipsThrough | Text.CheckCharsExcludesShellText |
