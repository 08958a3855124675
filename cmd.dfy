/**
 * The measure command: it checks the flags in a fixed order — the number of
 * apis, then that the input path exists, then that it is not a directory —
 * and only then builds a Measurement from the flag values and runs it. Any
 * failure ends the process with exit status 1.
 */
module Cmd {
  import opened Base
  import opened Measure

  /** The largest number of --api addresses the command accepts. */
  const MaxApi: nat := 2

  /**
   * What os.Stat says about the input path, as far as the command looks at
   * it: the path does not exist, it is a directory, or it exists and is not a
   * directory (a regular file, but also a named pipe, a device or a socket).
   * A stat error other than "does not exist" is not part of this model.
   */
  datatype PathStatus = Missing | Directory | NotDirectory

  /** The values the --file-input, --output and --api flags bound. */
  datatype Flags = Flags(fileInputPath: string, outputPath: string, apiAddresses: seq<string>)

  /** Why the command exits with status 1. */
  datatype Failure = TooManyApis | InputMissing | InputIsFolder | RunFailed(err: Error)

  /** How the command ends: os.Exit(1) after printing the failure, or a normal return. */
  datatype Exit = Exit1(reason: Failure) | Done

  /**
   * The three guards before the measurement, in order: the count of apis is
   * checked before the file system is looked at, and a missing input path is
   * reported before the directory check.
   */
  function Gate(flags: Flags, status: PathStatus): (r: Option<Failure>)
    ensures r.None? <==> |flags.apiAddresses| <= MaxApi && status.NotDirectory?
    ensures |flags.apiAddresses| > MaxApi ==> r == Some(TooManyApis)
    ensures |flags.apiAddresses| <= MaxApi ==> r != Some(TooManyApis)
    ensures |flags.apiAddresses| <= MaxApi && status.Missing? ==> r == Some(InputMissing)
    ensures |flags.apiAddresses| <= MaxApi && status.Directory? ==> r == Some(InputIsFolder)
    ensures r.Some? ==> !r.value.RunFailed?
  {
    if |flags.apiAddresses| > MaxApi then Some(TooManyApis)
    else if status.Missing? then Some(InputMissing)
    else if status.Directory? then Some(InputIsFolder)
    else None
  }

  /**
   * The Run closure of the measure command. A guard that fails exits at once,
   * with no measurement made and the output directory untouched. Otherwise the
   * measurement gets the three flag values unchanged, and the command exits
   * with status 1 exactly when Run returns an error.
   */
  method Execute(flags: Flags, stat: string -> PathStatus, env: Env, dir: OutputDir)
    returns (exit: Exit, ghost m: Measurement?)
    requires env.readCsv(flags.fileInputPath).Decoded? ==> HasTwoFields(env.readCsv(flags.fileInputPath).records)
    modifies dir
    ensures var g := Gate(flags, stat(flags.fileInputPath));
            g.Some? ==> exit == Exit1(g.value) && m == null && dir.State() == old(dir.State())
    ensures Gate(flags, stat(flags.fileInputPath)).None? ==>
              && m != null && fresh(m)
              && m.ApiAddresses == flags.apiAddresses
              && m.InputFilePath == flags.fileInputPath
              && m.OutputPath == flags.outputPath
              && var l := Load(env.readCsv(flags.fileInputPath), flags.fileInputPath);
                 && m.testCases == l.cases
                 && (l.err.Some? ==> exit == Exit1(RunFailed(l.err.value)) && m.calls == [] &&
                                     dir.State() == old(dir.State()))
                 && (l.err.None? ==>
                       var t := Sweep(Outcome(flags.outputPath, env, dir.writable), AllPairs(flags.apiAddresses, l.cases), 0,
                                      old(dir.State()));
                       m.calls == t.calls && dir.State() == t.dir &&
                       exit == if t.err.Some? then Exit1(RunFailed(t.err.value)) else Done)
  {
    m := null;
    if |flags.apiAddresses| > MaxApi {
      return Exit1(TooManyApis), m;
    }
    var status := stat(flags.fileInputPath);
    if status.Missing? {
      return Exit1(InputMissing), m;
    }
    if status.Directory? {
      return Exit1(InputIsFolder), m;
    }
    var measurement := new Measurement(flags.apiAddresses, flags.fileInputPath, flags.outputPath);
    m := measurement;
    var err := measurement.Run(env, dir);
    if err.Some? {
      return Exit1(RunFailed(err.value)), m;
    }
    return Done, m;
  }
}
