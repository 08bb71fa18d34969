/** `HEPscore.write_output`: where the summary goes, what object is written,
    and how the call ends. The file system and the YAML/JSON serialisers are
    represented by the outcome of the attempt to write. */
module Output {
  import opened Wrappers
  import opened Values

  /** The object written: `{'hepscore': confobj}` for YAML, the
      configuration itself for JSON. */
  datatype Shape = UnderHepscore | Bare

  /** How the attempt to write the file ends: written, an `OSError` while
      opening or writing it, or an object the serialiser refuses
      (`TypeError`, `RepresenterError`). */
  datatype WriteAttempt = Saved | OsFailure | NotSerialisable

  /** How `write_output` ends: it returns, calls `sys.exit(code)`, or raises
      the named exception. */
  datatype Exit = Returns | Exits(code: int) | Raises(error: string)

  /** The file name used (empty when the call raised before choosing one),
      whether the name-versus-type warning is logged, the object written
      (none when the call raised first), and how the call ends. */
  datatype Report = Report(file: string, mismatch: bool, shape: Option<Shape>, exit: Exit)

  /** Python's `s[-4:]`: the last four characters, or all of a shorter string. */
  function LastFour(s: string): (r: string)
    ensures |r| == if |s| < 4 then |s| else 4
    ensures s == s[..|s| - |r|] + r
  {
    if |s| <= 4 then s else s[|s| - 4..]
  }

  /** The outcome of `write_output(outtype, outfile)` for an object whose
      results directory is `resultsdir`, whose `settings['name']` is `name`
      and whose `results` are `results`, when the attempt to write ends as
      `written`. An empty `outfile` stands for both `None` and `''`. */
  function WriteOutput(outtype: string, outfile: string, resultsdir: string, name: Value,
                       written: WriteAttempt, results: seq<real>): (r: Report)
    // the default name is built by string concatenation, which a non-string name breaks
    ensures outfile == "" && !name.VStr? ==> r.exit == Raises("TypeError")
    ensures outfile == "" && name.VStr? ==> r.file == resultsdir + "/" + name.s + "." + outtype
    ensures outfile != "" ==> r.file == outfile
    // a file name that does not end in the output type is only logged
    ensures !r.exit.Raises? || r.exit.error == "ValueError" ==> (r.mismatch <==> LastFour(r.file) != outtype)
    // only "yaml" and "json" are accepted, and each gives its own shape
    ensures (outfile != "" || name.VStr?) ==>
              (r.exit == Raises("ValueError") <==> outtype != "yaml" && outtype != "json")
    ensures r.shape == Some(UnderHepscore) <==> (outfile != "" || name.VStr?) && outtype == "yaml"
    ensures r.shape == Some(Bare) <==> (outfile != "" || name.VStr?) && outtype == "json"
    ensures r.exit.Raises? <==> r.shape.None?
    // exit status 2: the file was not written, or there is no final non-negative result
    ensures r.exit == Exits(2) <==>
              r.shape.Some? && (written != Saved || |results| == 0 || results[|results| - 1] < 0.0)
    ensures r.exit == Returns <==>
              r.shape.Some? && written == Saved && |results| > 0 && results[|results| - 1] >= 0.0
  {
    if outfile == "" && !name.VStr? then Report("", false, None, Raises("TypeError"))
    else
      var file := if outfile == "" then resultsdir + "/" + name.s + "." + outtype else outfile;
      var mismatch := outtype != LastFour(file);
      if outtype != "yaml" && outtype != "json" then Report(file, mismatch, None, Raises("ValueError"))
      else
        var shape := if outtype == "yaml" then UnderHepscore else Bare;
        if written != Saved then Report(file, mismatch, Some(shape), Exits(2))
        else if |results| == 0 || results[|results| - 1] < 0.0 then Report(file, mismatch, Some(shape), Exits(2))
        else Report(file, mismatch, Some(shape), Returns)
  }

  /** The warning about the file name never changes how the call ends: two
      explicit file names give the same exit. */
  lemma ExitIgnoresFileName(outtype: string, f1: string, f2: string, resultsdir: string, name: Value,
                            written: WriteAttempt, results: seq<real>)
    requires f1 != "" && f2 != ""
    ensures WriteOutput(outtype, f1, resultsdir, name, written, results).exit
         == WriteOutput(outtype, f2, resultsdir, name, written, results).exit
  {
  }
}
