/** The configuration a run starts from: the `hepscore` section of the YAML
    file with its `settings`, `benchmarks` and `options` parts, and the reasons
    the program can stop while reading it. */
module Config {
  import opened Wrappers
  import opened Values
  import opened Registry

  /** What one run directory's entry in a benchmark's configuration holds:
      whether an attempt was started for it, and the sub-scores copied from
      its result file. */
  datatype RunEntry = RunEntry(attempted: bool, report: Option<map<string, real>>)

  /** One entry of the `benchmarks` mapping. The last three fields are written
      while the suite runs. */
  datatype Bench = Bench(
    version: Option<string>,
    weight: Option<Value>,
    refScores: Option<seq<(string, Value)>>,
    resultsFile: Option<string>,
    registry: Option<RegSpec>,
    args: Option<seq<(string, Value)>>,
    gpu: Option<Value>,
    runs: map<nat, RunEntry>,
    app: Option<Value>,
    runInfo: Option<Value>)

  /** The `settings` mapping, one field per key the program reads. */
  datatype Settings = Settings(
    scoreMethod: Option<Value>,
    repetitions: Option<Value>,
    name: Option<Value>,
    registry: Option<RegSpec>,
    referenceMachine: Option<Value>,
    retries: Option<Value>,
    containerExec: Option<Value>,
    addarch: Option<Value>,
    ncores: Option<Value>,
    scaling: Option<Value>,
    continueFail: Option<Value>,
    replay: Option<bool>)

  /** The `options` mapping (command-line overrides). */
  datatype Options = Options(
    containerUri: Option<Value>,
    ncores: Option<Value>,
    registry: Option<RegSpec>,
    clean: Option<Value>,
    cleanFiles: Option<Value>,
    userns: Option<Value>)

  /** The `hepscore` section; benchmarks in the mapping's order. */
  datatype Section = Section(
    settings: Option<Settings>,
    benchmarks: Option<seq<(string, Bench)>>,
    options: Option<Options>)

  /** The whole YAML document, with the current key and the deprecated one. */
  datatype Document = Document(hepscore: Option<Section>, hepscoreBenchmark: Option<Section>)

  /** A mapping's keys are distinct. */
  predicate DistinctKeys<V>(entries: seq<(string, V)>) {
    forall i, j | 0 <= i < j < |entries| :: entries[i].0 != entries[j].0
  }

  /** Why the program stops before running anything. */
  datatype Fatal =
    | NoHepscoreKey
    | MissingSection(section: string)
    | MissingSetting(key: string)
    | UnknownEngine
    | UnknownContainerUri
    | BadRegistry
    | Unresolvable(fault: RegFault)
    | BadMethod
    | BadCount(key: string)
    | BadScaling
    | BadBenchmarkName(name: string)
    | MissingVersion(name: string)
    | MissingRefScores(name: string)
    | BadRefScore(name: string, sub: string)
    | BadResultsFile(name: string)
    | NoBenchmarks
    | Uncaught(what: string)   // an exception the source does not catch
}
