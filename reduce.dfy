/** Result reduction (hepscore.py, HEPscore._proc_results): the summary files
    of a benchmark's runs, which of them count, the benchmark's score, and
    the sub-scores copied into `wl-scores`. */
module Reduce {
  import opened Wrappers
  import opened Values
  import opened Config
  import opened Stats

  /** The `report` member of a summary file: a mapping, which may or may not
      hold `wl-scores` (the reported sub-scores), or something else. */
  datatype Report = NotAMapping | Mapping(wlScores: Option<map<string, real>>)

  /** One summary file, in the order the sorted glob lists them. */
  datatype ResultFile =
    | Unreadable      // OSError while reading
    | NotJson         // JSONDecodeError
    | Parsed(app: Option<Value>, runInfo: Option<Value>, report: Option<Report>)

  /** The per-run score: the reported sub-scores divided by the reference
      scores, rounded, and combined by the weighted geometric mean. Floating
      point arithmetic, so the model takes it as a parameter. */
  type Scorer = (seq<(string, Value)>, map<string, real>) -> real

  /** What `_proc_results` writes into `wl-scores` for one sub-benchmark:
      the selected run's sub-score, or the reference score under `<name>_ref`. */
  datatype WlEntry = SubScore(x: real) | RefScore(v: Value)

  /** The file holds `app`, `run_info` and a mapping `report` with `wl-scores`. */
  predicate KeysPresent(f: ResultFile) {
    && f.Parsed? && f.app.Some? && f.runInfo.Some? && f.report.Some?
    && f.report.value.Mapping? && f.report.value.wlScores.Some?
  }

  function SubScores(f: ResultFile): map<string, real>
    requires KeysPresent(f)
  {
    f.report.value.wlScores.value
  }

  /** Every sub-benchmark named in `ref_scores` is reported. */
  predicate AllReported(refs: seq<(string, Value)>, wl: map<string, real>) {
    forall k | 0 <= k < |refs| :: refs[k].0 in wl
  }

  /** A run that contributes a score. */
  predicate ValidRun(refs: seq<(string, Value)>, f: ResultFile) {
    KeysPresent(f) && AllReported(refs, SubScores(f))
  }

  /** A reference score `float(reported) / ref` can be divided by: Python
      raises ZeroDivisionError on a zero one and TypeError on one that is not
      a number (a bool is an int). */
  predicate UsableDivisor(v: Value) {
    match v
    case VInt(i) => i != 0
    case VBool(b) => b
    case VFloat(x, _) => x != 0.0
    case _ => false
  }

  /** A file on which `_proc_results` raises: it holds the required keys and
      reports a sub-benchmark whose reference score cannot divide, whatever
      else it reports or misses. */
  predicate DivisionRaises(refs: seq<(string, Value)>, f: ResultFile) {
    KeysPresent(f) && exists k | 0 <= k < |refs| :: refs[k].0 in SubScores(f) && !UsableDivisor(refs[k].1)
  }

  /** `_proc_results` raises when one of the files does. */
  predicate ReductionRaises(refs: seq<(string, Value)>, files: seq<ResultFile>) {
    exists i | 0 <= i < |files| :: DivisionRaises(refs, files[i])
  }

  /** One of the first `n` files raises. */
  predicate RaisesBefore(refs: seq<(string, Value)>, files: seq<ResultFile>, n: nat)
    requires n <= |files|
  {
    n > 0 && (RaisesBefore(refs, files, n - 1) || DivisionRaises(refs, files[n - 1]))
  }

  lemma {:induction false} RaisesBeforeExists(refs: seq<(string, Value)>, files: seq<ResultFile>, n: nat)
    requires n <= |files|
    ensures RaisesBefore(refs, files, n) <==> exists i | 0 <= i < n :: DivisionRaises(refs, files[i])
  {
    if n > 0 {
      RaisesBeforeExists(refs, files, n - 1);
      if DivisionRaises(refs, files[n - 1]) {
        assert exists i | 0 <= i < n :: DivisionRaises(refs, files[i]);
      }
    }
  }

  /** The `results` dict after the first `n` files: run key (the file's
      position in the sorted list) and score, for the valid runs. */
  function Collected(refs: seq<(string, Value)>, files: seq<ResultFile>, score: Scorer, n: nat): (r: seq<Entry>)
    requires n <= |files|
    ensures IncreasingKeys(r)
    ensures forall j | 0 <= j < |r| :: r[j].0 < n
  {
    if n == 0 then []
    else
      var prev := Collected(refs, files, score, n - 1);
      if ValidRun(refs, files[n - 1]) then prev + [(n - 1, score(refs, SubScores(files[n - 1])))]
      else prev
  }

  /** The entries of `results` are exactly the valid runs among the first `n`
      files, each with its score. */
  lemma CollectedEntries(refs: seq<(string, Value)>, files: seq<ResultFile>, score: Scorer, n: nat)
    requires n <= |files|
    ensures var r := Collected(refs, files, score, n);
      && (forall j | 0 <= j < |r| ::
            ValidRun(refs, files[r[j].0]) && r[j].1 == score(refs, SubScores(files[r[j].0])))
      && (forall i | 0 <= i < n && ValidRun(refs, files[i]) :: (i, score(refs, SubScores(files[i]))) in r)
  {
    CollectedSound(refs, files, score, n);
    CollectedComplete(refs, files, score, n);
  }

  lemma {:induction false} CollectedSound(refs: seq<(string, Value)>, files: seq<ResultFile>, score: Scorer, n: nat)
    requires n <= |files|
    ensures forall j | 0 <= j < |Collected(refs, files, score, n)| ::
      var e := Collected(refs, files, score, n)[j];
      ValidRun(refs, files[e.0]) && e.1 == score(refs, SubScores(files[e.0]))
  {
    if n > 0 {
      CollectedSound(refs, files, score, n - 1);
      var prev := Collected(refs, files, score, n - 1);
      if ValidRun(refs, files[n - 1]) {
        var x := (n - 1, score(refs, SubScores(files[n - 1])));
        var r := prev + [x];
        assert Collected(refs, files, score, n) == r;
        forall j | 0 <= j < |r|
          ensures ValidRun(refs, files[r[j].0]) && r[j].1 == score(refs, SubScores(files[r[j].0]))
        {
          if j < |prev| {
            assert r[j] == prev[j];
            assert ValidRun(refs, files[prev[j].0]) && prev[j].1 == score(refs, SubScores(files[prev[j].0]));
          } else {
            assert r[j] == x;
          }
        }
      } else {
        assert Collected(refs, files, score, n) == prev;
      }
    }
  }

  lemma {:induction false} CollectedComplete(refs: seq<(string, Value)>, files: seq<ResultFile>, score: Scorer, n: nat)
    requires n <= |files|
    ensures var r := Collected(refs, files, score, n);
      forall i | 0 <= i < n && ValidRun(refs, files[i]) :: (i, score(refs, SubScores(files[i]))) in r
  {
    if n > 0 {
      CollectedComplete(refs, files, score, n - 1);
      var prev := Collected(refs, files, score, n - 1);
      if ValidRun(refs, files[n - 1]) {
        var x := (n - 1, score(refs, SubScores(files[n - 1])));
        var r := prev + [x];
        assert Collected(refs, files, score, n) == r;
        assert forall e | e in prev :: e in r;
        assert r[|prev|] == x;
      }
    }
  }

  /** The run entries after the first `n` files: every file with the required
      keys has its report stored under its position, whether or not all its
      sub-scores are there. */
  function Recorded(runs: map<nat, RunEntry>, files: seq<ResultFile>, n: nat): map<nat, RunEntry>
    requires n <= |files|
  {
    if n == 0 then runs
    else
      var prev := Recorded(runs, files, n - 1);
      var f := files[n - 1];
      if KeysPresent(f) then
        var old_entry := if n - 1 in prev then prev[n - 1] else RunEntry(false, None);
        prev[n - 1 := old_entry.(report := Some(SubScores(f)))]
      else prev
  }

  /** Every file with the required keys has its report stored under its
      position, whether or not all its sub-scores are there; every other run
      entry is left as it was. */
  lemma {:induction false} RecordedEntries(runs: map<nat, RunEntry>, files: seq<ResultFile>, n: nat)
    requires n <= |files|
    ensures var r := Recorded(runs, files, n);
      && (forall i: nat :: i in r <==> i in runs || (i < n && KeysPresent(files[i])))
      && (forall i: nat | i < n && KeysPresent(files[i]) ::
            i in r && r[i] == RunEntry(i in runs && runs[i].attempted, Some(SubScores(files[i]))))
      && (forall i: nat | i in runs && !(i < n && KeysPresent(files[i])) :: i in r && r[i] == runs[i])
  {
    if n > 0 {
      RecordedEntries(runs, files, n - 1);
    }
  }

  /** The sub-score copied for `sub` from the median run(s): the run's own
      value for an odd count, the mean of the two runs' values for an even one. */
  function Selected(files: seq<ResultFile>, m: Median, sub: string): real
  {
    match m
    case Single(_, key) =>
      if key < |files| && KeysPresent(files[key]) && sub in SubScores(files[key])
      then SubScores(files[key])[sub] else 0.0
    case Pair(_, low, high) =>
      var a := if low < |files| && KeysPresent(files[low]) && sub in SubScores(files[low]) then SubScores(files[low])[sub] else 0.0;
      var b := if high < |files| && KeysPresent(files[high]) && sub in SubScores(files[high]) then SubScores(files[high])[sub] else 0.0;
      MeanOfTwo(a, b)
  }

  /** `wl-scores[benchmark]` after the loop over the first `n` reference
      scores. */
  function WlFold(refs: seq<(string, Value)>, files: seq<ResultFile>, m: Median, n: nat): (r: map<string, WlEntry>)
    requires n <= |refs|
    ensures forall k | 0 <= k < n :: refs[k].0 in r && refs[k].0 + "_ref" in r
  {
    if n == 0 then map[]
    else
      var prev := WlFold(refs, files, m, n - 1);
      var sub := refs[n - 1].0;
      prev[sub := SubScore(Selected(files, m, sub))][sub + "_ref" := RefScore(refs[n - 1].1)]
  }

  /** What `_proc_results` leaves behind. */
  datatype Reduction = Reduction(
    result: real,                          // the returned score, or -1
    bench: Bench,                          // the benchmark's configuration entry
    wl: Option<map<string, WlEntry>>,      // the new `wl-scores[benchmark]`, if written
    scores: seq<real>)                     // what is appended to the score log

  function Scores(es: seq<Entry>): (r: seq<real>)
    ensures |r| == |es| && forall j | 0 <= j < |es| :: r[j] == es[j].1
  {
    if |es| == 0 then [] else Scores(es[..|es| - 1]) + [es[|es| - 1].1]
  }

  /** The benchmark entry after the loop: reports stored, and `app` and
      `run_info` copied from the first file if it has the required keys. */
  function AfterLoop(b: Bench, files: seq<ResultFile>): Bench {
    var first := |files| > 0 && KeysPresent(files[0]);
    b.(runs := Recorded(b.runs, files, |files|),
       app := if first then files[0].app else b.app,
       runInfo := if first then files[0].runInfo else b.runInfo)
  }

  /** `_proc_results` for a benchmark expecting `runs` repetitions. */
  function ProcResultsSpec(b: Bench, runs: nat, files: seq<ResultFile>, score: Scorer): (r: Reduction)
    requires b.refScores.Some?
  {
    var refs := b.refScores.value;
    var collected := Collected(refs, files, score, |files|);
    var after := AfterLoop(b, files);
    if |collected| == 0 || |collected| != runs then
      Reduction(-1.0, after, None, Scores(collected))
    else
      var m := MedianTuple(collected);
      Reduction(m.value, after.(refScores := None), Some(WlFold(refs, files, m, |refs|)), Scores(collected))
  }

  /** `_proc_results` step by step: the loop over the summary files fills the
      `results` dict and the run entries, then, when the count is right, the
      loop over the reference scores writes `wl-scores[benchmark]` from the
      stored reports of the run(s) the median selects. `None` when a
      division by a reference score raises. */
  method ProcResults(b: Bench, runs: nat, files: seq<ResultFile>, score: Scorer) returns (r: Option<Reduction>)
    requires b.refScores.Some?
    ensures r.None? <==> ReductionRaises(b.refScores.value, files)
    ensures r.Some? ==> r.value == ProcResultsSpec(b, runs, files, score)
  {
    var refs := b.refScores.value;
    var raised, results, scoresData, conf := CollectRuns(b, files, score);
    if raised {
      return None;
    }
    if |results| == 0 || |results| != runs {
      return Some(Reduction(-1.0, conf, None, scoresData));
    }
    var m := MedianTuple(results);
    MedianRunsValid(refs, files, score);
    var wl := WriteWlScores(refs, files, conf.runs, b.runs, m, |results|);
    conf := conf.(refScores := None);
    r := Some(Reduction(m.value, conf, Some(wl), scoresData));
  }

  /** The loop over the sorted summary files. The benchmark's configuration
      entry is updated in its `run<i>`, `app` and `run_info` keys only; the
      loop stops when a division raises. */
  method CollectRuns(b: Bench, files: seq<ResultFile>, score: Scorer)
    returns (raised: bool, results: seq<Entry>, scoresData: seq<real>, conf: Bench)
    requires b.refScores.Some?
    ensures raised <==> ReductionRaises(b.refScores.value, files)
    ensures !raised ==> results == Collected(b.refScores.value, files, score, |files|)
    ensures !raised ==> scoresData == Scores(results)
    ensures !raised ==> conf == AfterLoop(b, files)
  {
    var refs := b.refScores.value;
    var stored, app, runInfo := b.runs, b.app, b.runInfo;
    results, scoresData := [], [];
    var i: nat := 0;
    while i < |files|
      invariant 0 <= i <= |files|
      invariant !RaisesBefore(refs, files, i)
      invariant results == Collected(refs, files, score, i)
      invariant scoresData == Scores(results)
      invariant stored == Recorded(b.runs, files, i)
      invariant app == if i > 0 && KeysPresent(files[0]) then files[0].app else b.app
      invariant runInfo == if i > 0 && KeysPresent(files[0]) then files[0].runInfo else b.runInfo
    {
      var raises;
      raises, results, scoresData, stored := ReadRun(refs, files, score, b.runs, i, results, scoresData, stored);
      if raises {
        RaisesBeforeExists(refs, files, i + 1);
        return true, results, scoresData, b;
      }
      if i == 0 && KeysPresent(files[i]) {
        app, runInfo := files[i].app, files[i].runInfo;
      }
      i := i + 1;
    }
    raised := false;
    RaisesBeforeExists(refs, files, |files|);
    conf := b.(runs := stored, app := app, runInfo := runInfo);
  }

  /** One pass of the loop over the summary files, for the file at position
      `i`: a file without the required keys is skipped; otherwise its report
      is stored in `run<i>` and, unless its division raises, its score is
      added when it reports every sub-benchmark. */
  method ReadRun(refs: seq<(string, Value)>, files: seq<ResultFile>, score: Scorer, original: map<nat, RunEntry>,
                 i: nat, results: seq<Entry>, scoresData: seq<real>, stored: map<nat, RunEntry>)
    returns (raises: bool, results': seq<Entry>, scoresData': seq<real>, stored': map<nat, RunEntry>)
    requires i < |files|
    requires results == Collected(refs, files, score, i) && scoresData == Scores(results)
    requires stored == Recorded(original, files, i)
    ensures raises <==> DivisionRaises(refs, files[i])
    ensures !raises ==> results' == Collected(refs, files, score, i + 1)
    ensures !raises ==> scoresData' == Scores(results')
    ensures !raises ==> stored' == Recorded(original, files, i + 1)
  {
    var f := files[i];
    CollectedStep(refs, files, score, i);
    RecordedStep(original, files, i);
    results', scoresData', stored', raises := results, scoresData, stored, false;
    // an unreadable or malformed file, or one without the required keys,
    // is skipped
    if KeysPresent(f) {
      var entry := if i in stored then stored[i] else RunEntry(false, None);
      stored' := stored[i := entry.(report := Some(SubScores(f)))];
      var s;
      raises, s := ScoreFile(refs, f, score);
      if !raises && s.Some? {
        ScoresPush(results, (i, s.value));
        results' := results + [(i, s.value)];
        scoresData' := scoresData + [s.value];
      }
    }
  }

  /** One summary file with the required keys: whether its division raises,
      and otherwise its score when it reports every sub-benchmark. */
  method ScoreFile(refs: seq<(string, Value)>, f: ResultFile, score: Scorer) returns (raises: bool, s: Option<real>)
    requires KeysPresent(f)
    ensures raises <==> DivisionRaises(refs, f)
    ensures !raises ==> (s.Some? <==> ValidRun(refs, f))
    ensures !raises && s.Some? ==> s.value == score(refs, SubScores(f))
  {
    var reported;
    reported, raises := ScanSubScores(refs, SubScores(f));
    s := if !raises && reported then Some(score(refs, SubScores(f))) else None;
  }

  /** The loop over `ref_scores` for one file: a sub-benchmark that is not
      reported is noted, and each reported one is divided by its reference
      score, which raises on the first that cannot divide. */
  method ScanSubScores(refs: seq<(string, Value)>, wl: map<string, real>) returns (ok: bool, raises: bool)
    ensures raises <==> exists k | 0 <= k < |refs| :: refs[k].0 in wl && !UsableDivisor(refs[k].1)
    ensures !raises ==> (ok <==> AllReported(refs, wl))
  {
    var missing := false;
    var k := 0;
    while k < |refs|
      invariant 0 <= k <= |refs|
      invariant missing <==> exists j | 0 <= j < k :: refs[j].0 !in wl
      invariant forall j | 0 <= j < k :: refs[j].0 in wl ==> UsableDivisor(refs[j].1)
    {
      if refs[k].0 !in wl {
        missing := true;
      } else if !UsableDivisor(refs[k].1) {
        return false, true;
      }
      k := k + 1;
    }
    ok, raises := !missing, false;
  }

  /** The loop that writes `wl-scores[benchmark]`, reading the sub-scores from
      the reports stored in the run entries. */
  method WriteWlScores(refs: seq<(string, Value)>, files: seq<ResultFile>, stored: map<nat, RunEntry>,
                       original: map<nat, RunEntry>, m: Median, count: nat)
    returns (wl: map<string, WlEntry>)
    requires stored == Recorded(original, files, |files|)
    requires m.Single? <==> count % 2 != 0
    requires m.Single? ==> m.key < |files| && ValidRun(refs, files[m.key])
    requires m.Pair? ==> m.low < |files| && ValidRun(refs, files[m.low]) && m.high < |files| && ValidRun(refs, files[m.high])
    ensures wl == WlFold(refs, files, m, |refs|)
  {
    RecordedEntries(original, files, |files|);
    wl := map[];
    var k := 0;
    while k < |refs|
      invariant 0 <= k <= |refs|
      invariant wl == WlFold(refs, files, m, k)
    {
      var sub := refs[k].0;
      var v: real;
      if count % 2 != 0 {
        v := stored[m.key].report.value[sub];
      } else {
        var sum := 0.0;
        sum := sum + stored[m.low].report.value[sub];
        sum := sum + stored[m.high].report.value[sub];
        v := sum / 2.0;
      }
      assert v == Selected(files, m, sub);
      wl := wl[sub := SubScore(v)][sub + "_ref" := RefScore(refs[k].1)];
      k := k + 1;
    }
  }

  lemma RecordedStep(runs: map<nat, RunEntry>, files: seq<ResultFile>, i: nat)
    requires i < |files|
    ensures Recorded(runs, files, i + 1) ==
      var prev := Recorded(runs, files, i);
      if KeysPresent(files[i]) then
        prev[i := (if i in prev then prev[i] else RunEntry(false, None)).(report := Some(SubScores(files[i])))]
      else prev
  {
  }

  lemma CollectedStep(refs: seq<(string, Value)>, files: seq<ResultFile>, score: Scorer, i: nat)
    requires i < |files|
    ensures Collected(refs, files, score, i + 1) ==
      if ValidRun(refs, files[i]) then Collected(refs, files, score, i) + [(i, score(refs, SubScores(files[i])))]
      else Collected(refs, files, score, i)
  {
  }

  lemma ScoresPush(es: seq<Entry>, e: Entry)
    ensures Scores(es + [e]) == Scores(es) + [e.1]
  {
    assert (es + [e])[..|es|] == es;
  }

  // ---------------------------------------------------------------------------
  // Properties
  // ---------------------------------------------------------------------------

  /** The number of runs that count. */
  function ValidCount(refs: seq<(string, Value)>, files: seq<ResultFile>, n: nat): nat
    requires n <= |files|
  {
    if n == 0 then 0 else ValidCount(refs, files, n - 1) + (if ValidRun(refs, files[n - 1]) then 1 else 0)
  }

  lemma {:induction false} CollectedCount(refs: seq<(string, Value)>, files: seq<ResultFile>, score: Scorer, n: nat)
    requires n <= |files|
    ensures |Collected(refs, files, score, n)| == ValidCount(refs, files, n)
  {
    if n > 0 {
      CollectedCount(refs, files, score, n - 1);
    }
  }

  /** The benchmark fails (-1, nothing written to `wl-scores`, `ref_scores`
      kept) exactly when no run counts or the count differs from `runs`;
      otherwise the result is the median score of the valid runs, chosen by
      rank, `ref_scores` is removed and `wl-scores` is written. */
  lemma ProcResultsOutcome(b: Bench, runs: nat, files: seq<ResultFile>, score: Scorer)
    requires b.refScores.Some?
    ensures var r := ProcResultsSpec(b, runs, files, score);
      var n := ValidCount(b.refScores.value, files, |files|);
      && ((n == 0 || n != runs) ==> r.result == -1.0 && r.wl.None? && r.bench.refScores == b.refScores)
      && ((n != 0 && n == runs) ==>
            && r.wl.Some? && r.bench.refScores.None?
            && r.result == MedianTuple(Collected(b.refScores.value, files, score, |files|)).value)
      && |r.scores| == n
  {
    CollectedCount(b.refScores.value, files, score, |files|);
  }

  /** Only the run entries and `app`/`run_info` change, besides `ref_scores`. */
  lemma ProcResultsKeepsConfiguration(b: Bench, runs: nat, files: seq<ResultFile>, score: Scorer)
    requires b.refScores.Some?
    ensures var nb := ProcResultsSpec(b, runs, files, score).bench;
      && nb.version == b.version && nb.weight == b.weight && nb.resultsFile == b.resultsFile
      && nb.registry == b.registry && nb.args == b.args && nb.gpu == b.gpu
  {
  }

  /** No sub-benchmark name collides with another's `_ref` entry. */
  predicate SeparateNames(refs: seq<(string, Value)>) {
    && (forall i, j | 0 <= i < j < |refs| :: refs[i].0 != refs[j].0)
    && (forall i, j | 0 <= i < |refs| && 0 <= j < |refs| :: refs[i].0 != refs[j].0 + "_ref")
  }

  lemma {:induction false} WlFoldEntries(refs: seq<(string, Value)>, files: seq<ResultFile>, m: Median, n: nat, k: nat)
    requires n <= |refs| && k < n && SeparateNames(refs)
    ensures var r := WlFold(refs, files, m, n);
      && r[refs[k].0] == SubScore(Selected(files, m, refs[k].0))
      && r[refs[k].0 + "_ref"] == RefScore(refs[k].1)
  {
    if k < n - 1 {
      WlFoldEntries(refs, files, m, n - 1, k);
      var sub := refs[n - 1].0;
      assert refs[k].0 != sub && refs[k].0 != sub + "_ref";
      assert refs[k].0 + "_ref" != sub;
      AppendCancels(refs[k].0, sub, "_ref");
    }
  }

  lemma AppendCancels(a: string, b: string, c: string)
    ensures a + c == b + c ==> a == b
  {
    if a + c == b + c {
      assert a == (a + c)[..|a|];
      assert b == (b + c)[..|b|];
    }
  }

  /** The run(s) a median selects are valid runs. */
  predicate SelectsValid(refs: seq<(string, Value)>, files: seq<ResultFile>, m: Median) {
    && (m.Single? ==> m.key < |files| && ValidRun(refs, files[m.key]))
    && (m.Pair? ==> m.low < |files| && ValidRun(refs, files[m.low])
                    && m.high < |files| && ValidRun(refs, files[m.high]))
  }

  /** The run(s) the median selects are valid runs. */
  lemma MedianRunsValid(refs: seq<(string, Value)>, files: seq<ResultFile>, score: Scorer)
    requires |Collected(refs, files, score, |files|)| > 0
    ensures var m := MedianTuple(Collected(refs, files, score, |files|));
      && (m.Single? ==> m.key < |files| && ValidRun(refs, files[m.key]))
      && (m.Pair? ==> m.low < |files| && ValidRun(refs, files[m.low])
                      && m.high < |files| && ValidRun(refs, files[m.high]))
  {
    var collected := Collected(refs, files, score, |files|);
    CollectedEntries(refs, files, score, |files|);
    MedianTupleByRank(collected);
    var m := MedianTuple(collected);
    if m.Single? {
      var j :| 0 <= j < |collected| && collected[j] == (m.key, m.value);
    } else {
      var lo, hi := (m.low, ScoreOf(collected, m.low)), (m.high, ScoreOf(collected, m.high));
      var j1 :| 0 <= j1 < |collected| && collected[j1] == lo;
      var j2 :| 0 <= j2 < |collected| && collected[j2] == hi;
    }
  }

  lemma WrittenWl(b: Bench, runs: nat, files: seq<ResultFile>, score: Scorer)
    requires b.refScores.Some?
    requires ProcResultsSpec(b, runs, files, score).wl.Some?
    ensures var collected := Collected(b.refScores.value, files, score, |files|);
      && |collected| > 0
      && ProcResultsSpec(b, runs, files, score).wl.value
         == WlFold(b.refScores.value, files, MedianTuple(collected), |b.refScores.value|)
  {
  }

  /** The entries the wl-scores fold writes for sub-benchmark `k` when the
      median selects valid runs. */
  lemma WlFoldOfValidRuns(refs: seq<(string, Value)>, files: seq<ResultFile>, m: Median, k: nat)
    requires SeparateNames(refs) && k < |refs| && SelectsValid(refs, files, m)
    ensures var wl := WlFold(refs, files, m, |refs|);
      var sub := refs[k].0;
      && sub in wl && sub + "_ref" in wl
      && wl[sub + "_ref"] == RefScore(refs[k].1)
      && (m.Single? ==> wl[sub] == SubScore(SubScores(files[m.key])[sub]))
      && (m.Pair? ==> wl[sub] == SubScore(MeanOfTwo(SubScores(files[m.low])[sub], SubScores(files[m.high])[sub])))
  {
    WlFoldEntries(refs, files, m, |refs|, k);
    var sub := refs[k].0;
    if m.Single? {
      assert sub in SubScores(files[m.key]);
    } else {
      assert sub in SubScores(files[m.low]) && sub in SubScores(files[m.high]);
    }
  }

  /** With an odd number of runs `wl-scores` holds the median run's raw
      sub-scores; with an even number the mean of the two middle runs' raw
      sub-scores; each next to its reference score under `<name>_ref`. */
  lemma WlScoresFromMedianRuns(b: Bench, runs: nat, files: seq<ResultFile>, score: Scorer, k: nat)
    requires b.refScores.Some? && SeparateNames(b.refScores.value) && k < |b.refScores.value|
    requires ProcResultsSpec(b, runs, files, score).wl.Some?
    ensures var refs := b.refScores.value;
      var m := MedianTuple(Collected(refs, files, score, |files|));
      var wl := ProcResultsSpec(b, runs, files, score).wl.value;
      var sub := refs[k].0;
      && sub in wl && sub + "_ref" in wl
      && wl[sub + "_ref"] == RefScore(refs[k].1)
      && (m.Single? ==>
            (m.key < |files| && ValidRun(refs, files[m.key])
             && wl[sub] == SubScore(SubScores(files[m.key])[sub])))
      && (m.Pair? ==>
            (m.low < |files| && ValidRun(refs, files[m.low])
             && m.high < |files| && ValidRun(refs, files[m.high])
             && wl[sub] == SubScore(MeanOfTwo(SubScores(files[m.low])[sub], SubScores(files[m.high])[sub]))))
  {
    var refs := b.refScores.value;
    var m := MedianTuple(Collected(refs, files, score, |files|));
    WrittenWl(b, runs, files, score);
    assert ProcResultsSpec(b, runs, files, score).wl.value == WlFold(refs, files, m, |refs|);
    MedianRunsValid(refs, files, score);
    assert SelectsValid(refs, files, m);
    WlFoldOfValidRuns(refs, files, m, k);
  }
}
