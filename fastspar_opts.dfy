/** `get_commandline_arguments` (src/fastspar_opts.cpp:48-195) end to end: the
    option loop as an imperative method, proved against the specification
    `CommandLine`, which composes `OptionScan.Scan` with
    `Validation.Validate`. */
module FastsparOpts {
  import opened Wrappers
  import opened Options
  import opened OptionScan
  import opened Validation

  /** The outcome, and the "invalid argument" message printed on the way
      when a non-option token is left over (it names the first such token). */
  datatype Report = Report(outcome: Outcome, warning: Option<string>)

  /** Lines 132-135: a leftover non-option token is reported, but only once
      the argument-count check has passed, and the run goes on. */
  function LeftoverWarning(argc: int, leftovers: seq<string>): (w: Option<string>)
    ensures w.Some? <==> argc >= MinArgc && leftovers != []
    ensures w.Some? ==> w.value == leftovers[0]
  {
    if argc >= MinArgc && leftovers != [] then Some(leftovers[0]) else None
  }

  /** The whole front end. `args` is what `getopt_long` returns, in order;
      `leftovers` the non-option tokens it leaves behind; `hw` the reported
      hardware concurrency; `readable` the paths that can be opened for
      reading. */
  function CommandLine(init: FastsparOptions, args: seq<Opt>, argc: nat, leftovers: seq<string>,
                       hw: nat, readable: set<string>): (r: Report)
    ensures r.outcome.Exit? ==> (r.outcome.code == 0 <==> Informational(r.outcome.reason))
    ensures r.outcome.Exit? ==> r.outcome.code == 0 || r.outcome.code == 1
  {
    match Scan(init, args)
    case Stopped(code, why) => Report(Exit(code, why), None)
    case Finished(o) =>
      Report(Validate(o, argc, hw, o.otuFilename in readable), LeftoverWarning(argc, leftovers))
  }

  method GetCommandlineArguments(init: FastsparOptions, args: seq<Opt>, argc: nat, leftovers: seq<string>,
                                 hw: nat, readable: set<string>)
    returns (r: Outcome, warning: Option<string>)
    ensures Report(r, warning) == CommandLine(init, args, argc, leftovers, hw, readable)
  {
    var options := init;
    var i := 0;
    while i < |args|
      invariant i <= |args|
      invariant Scan(options, args[i..]) == Scan(init, args)
    {
      assert args[i..][0] == args[i] && args[i..][1..] == args[i + 1..];
      match args[i] {
        case OtuTable(p) => options := options.(otuFilename := p);
        case Correlation(p) => options := options.(correlationFilename := p);
        case Covariance(p) => options := options.(covarianceFilename := p);
        case Iterations(n) => options := options.(iterations := n);
        case ExcludeIterations(n) => options := options.(excludeIterations := n);
        case Threshold(t) => options := options.(threshold := t);
        case Threads(n) => options := options.(threads := n);
        case Seed(n) => options := options.(seed := n);
        case Yes => options := options.(assumeYes := true);
        case Version => return Exit(0, VersionShown), None;
        case Help => return Exit(0, HelpShown), None;
        case Bad => return Exit(1, BadOption), None;
      }
      i := i + 1;
    }
    assert args[i..] == [];
    warning := LeftoverWarning(argc, leftovers);
    r := Validate(options, argc, hw, options.otuFilename in readable);
  }

  /** The first `-v` or `-h` ends the run with exit code 0 and the first failed
      option with exit code 1, before any validation: so even an argument list
      that is too short or invalid gets that code, and no warning. */
  lemma FirstStopBeatsValidation(init: FastsparOptions, args: seq<Opt>, argc: nat, leftovers: seq<string>,
                                 hw: nat, readable: set<string>, i: nat)
    requires i < |args| && IsStop(args[i])
    requires forall j | 0 <= j < i :: !IsStop(args[j])
    ensures args[i].Version? ==>
              CommandLine(init, args, argc, leftovers, hw, readable) == Report(Exit(0, VersionShown), None)
    ensures args[i].Help? ==>
              CommandLine(init, args, argc, leftovers, hw, readable) == Report(Exit(0, HelpShown), None)
    ensures args[i].Bad? ==>
              CommandLine(init, args, argc, leftovers, hw, readable) == Report(Exit(1, BadOption), None)
  {
    FirstStopDecides(init, args, i);
  }

  /** A configuration that gets through is the scanned record, meets every
      constraint, and came from an argument list with no stopping option. */
  lemma AcceptedConfigurationIsValid(init: FastsparOptions, args: seq<Opt>, argc: nat, leftovers: seq<string>,
                                     hw: nat, readable: set<string>)
    requires CommandLine(init, args, argc, leftovers, hw, readable).outcome.Ok?
    ensures var o := CommandLine(init, args, argc, leftovers, hw, readable).outcome.options;
            && Scan(init, args) == Finished(o)
            && 1 <= o.threads <= MaxThreads && (hw <= 1 || o.threads <= hw)
            && o.threshold <= 1.0
            && PathsGiven(o)
            && o.otuFilename in readable
            && argc >= MinArgc
  {
  }

  /** A leftover non-option token never changes the outcome; it only adds
      the message naming the first such token. */
  lemma LeftoverIsNonFatal(init: FastsparOptions, args: seq<Opt>, argc: nat, leftovers: seq<string>,
                           hw: nat, readable: set<string>)
    ensures CommandLine(init, args, argc, leftovers, hw, readable).outcome ==
            CommandLine(init, args, argc, [], hw, readable).outcome
    ensures Scan(init, args).Finished? && argc >= MinArgc && leftovers != [] ==>
              CommandLine(init, args, argc, leftovers, hw, readable).warning == Some(leftovers[0])
  {
  }

  /** The plain invocation `-c <in> -r <corr> -a <cov>` (argc 7) with every
      other field at an in-range default yields the defaults with the three
      filenames filled in. */
  lemma RequiredOnlyInvocation(init: FastsparOptions, c: string, r: string, a: string,
                               hw: nat, readable: set<string>)
    requires c != [] && r != [] && a != [] && c in readable
    requires init.threshold <= 1.0 && 1 <= init.threads <= MaxThreads && (hw <= 1 || init.threads <= hw)
    ensures CommandLine(init, [OtuTable(c), Correlation(r), Covariance(a)], 7, [], hw, readable) ==
            Report(Ok(init.(otuFilename := c, correlationFilename := r, covarianceFilename := a)), None)
  {
    var args := [OtuTable(c), Correlation(r), Covariance(a)];
    var o1 := init.(otuFilename := c);
    var o2 := o1.(correlationFilename := r);
    var o3 := o2.(covarianceFilename := a);
    assert args[1..] == [Correlation(r), Covariance(a)];
    assert args[1..][1..] == [Covariance(a)];
    assert Scan(o2, [Covariance(a)]) == Scan(o3, []) == Finished(o3);
    assert Scan(o1, args[1..]) == Scan(o2, args[1..][1..]);
    assert Scan(init, args) == Scan(o1, args[1..]);
  }
}
