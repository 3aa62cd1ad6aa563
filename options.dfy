/** The configuration record filled in by `get_commandline_arguments`
    (src/fastspar_opts.cpp:48-121) and the options that write into it. */
module Options {
  import opened Wrappers

  /** The fields of `FastsparOptions` that the option scan can write. The
      defaults are defined in fastspar_opts.h, which is not part of this model,
      so every scan starts from a record that is given to it. */
  datatype FastsparOptions = FastsparOptions(
    otuFilename: string,
    correlationFilename: string,
    covarianceFilename: string,
    iterations: int,
    excludeIterations: int,
    threshold: real,
    threads: int,
    seed: int,
    assumeYes: bool)

  /** One result of `getopt_long`, with its argument already converted.
      `Bad` stands for everything that reaches the `default` case: an unknown
      flag, a flag whose required value is missing, and a value that does not
      convert to the option's number type. */
  datatype Opt =
    | OtuTable(path: string)        // -c, --otu_table
    | Correlation(path: string)     // -r, --correlation
    | Covariance(path: string)      // -a, --covariance
    | Iterations(n: int)            // -i, --iterations
    | ExcludeIterations(n: int)     // -x, --exclude_iterations
    | Threshold(t: real)            // -e, --threshold
    | Threads(n: int)               // -t, --threads
    | Seed(n: int)                  // -s, --seed
    | Yes                           // -y, --yes
    | Version                       // -v, --version
    | Help                          // -h, --help
    | Bad

  /** Why the front end ended without a configuration. */
  datatype Reason =
    | VersionShown
    | HelpShown
    | BadOption
    | RequiredOptionsMissing
    | OtuTableRequired
    | CorrelationRequired
    | CovarianceRequired
    | ThresholdAboveOne
    | NoThreads
    | HardwareLimit(available: nat)
    | HardLimit
    | OtuTableUnreadable(path: string)

  /** The two outcomes that print information rather than an error. */
  predicate Informational(why: Reason) {
    why.VersionShown? || why.HelpShown?
  }

  /** The options that end the scan at once instead of writing a field. */
  predicate IsStop(opt: Opt) {
    opt.Version? || opt.Help? || opt.Bad?
  }

  /** A name for each field, so that "every other field" can be said. */
  datatype Field =
    | OtuFile | CorrelationFile | CovarianceFile
    | IterationCount | ExcludeIterationCount | ThresholdValue
    | ThreadCount | SeedValue | AssumeYesFlag

  /** The value held by a field, whatever its type. */
  datatype Value = Text(s: string) | Whole(i: int) | Fraction(x: real) | Flag(b: bool)

  /** The value of field `f` in `o`. */
  function Get(o: FastsparOptions, f: Field): Value {
    match f
    case OtuFile => Text(o.otuFilename)
    case CorrelationFile => Text(o.correlationFilename)
    case CovarianceFile => Text(o.covarianceFilename)
    case IterationCount => Whole(o.iterations)
    case ExcludeIterationCount => Whole(o.excludeIterations)
    case ThresholdValue => Fraction(o.threshold)
    case ThreadCount => Whole(o.threads)
    case SeedValue => Whole(o.seed)
    case AssumeYesFlag => Flag(o.assumeYes)
  }

  /** The option grammar as a table: the field an option writes and the value
      it writes there; `None` for the options that stop the scan. */
  function Assignment(opt: Opt): (a: Option<(Field, Value)>)
    ensures a.None? <==> IsStop(opt)
  {
    match opt
    case OtuTable(p) => Some((OtuFile, Text(p)))
    case Correlation(p) => Some((CorrelationFile, Text(p)))
    case Covariance(p) => Some((CovarianceFile, Text(p)))
    case Iterations(n) => Some((IterationCount, Whole(n)))
    case ExcludeIterations(n) => Some((ExcludeIterationCount, Whole(n)))
    case Threshold(t) => Some((ThresholdValue, Fraction(t)))
    case Threads(n) => Some((ThreadCount, Whole(n)))
    case Seed(n) => Some((SeedValue, Whole(n)))
    case Yes => Some((AssumeYesFlag, Flag(true)))
    case Version => None
    case Help => None
    case Bad => None
  }

  /** Does `opt` write field `f`? */
  predicate Assigns(opt: Opt, f: Field) {
    Assignment(opt).Some? && Assignment(opt).value.0 == f
  }

  /** One case of the option `switch`: the record after `opt` has been
      processed. Options that stop the scan leave the record as it is. */
  function Apply(o: FastsparOptions, opt: Opt): (r: FastsparOptions)
    ensures forall f :: Get(r, f) == if Assigns(opt, f) then Assignment(opt).value.1 else Get(o, f)
    ensures IsStop(opt) ==> r == o
  {
    match opt
    case OtuTable(p) => o.(otuFilename := p)
    case Correlation(p) => o.(correlationFilename := p)
    case Covariance(p) => o.(covarianceFilename := p)
    case Iterations(n) => o.(iterations := n)
    case ExcludeIterations(n) => o.(excludeIterations := n)
    case Threshold(t) => o.(threshold := t)
    case Threads(n) => o.(threads := n)
    case Seed(n) => o.(seed := n)
    case Yes => o.(assumeYes := true)
    case Version => o
    case Help => o
    case Bad => o
  }

  /** The fields named by `Field` are all the fields of the record: two records
      that agree on every field are the same record. Together with the first
      postcondition of `Apply` this says that an option changes its own field
      and nothing else. */
  lemma GetDeterminesRecord(a: FastsparOptions, b: FastsparOptions)
    requires forall f :: Get(a, f) == Get(b, f)
    ensures a == b
  {
    assert Get(a, OtuFile) == Get(b, OtuFile);
    assert Get(a, CorrelationFile) == Get(b, CorrelationFile);
    assert Get(a, CovarianceFile) == Get(b, CovarianceFile);
    assert Get(a, IterationCount) == Get(b, IterationCount);
    assert Get(a, ExcludeIterationCount) == Get(b, ExcludeIterationCount);
    assert Get(a, ThresholdValue) == Get(b, ThresholdValue);
    assert Get(a, ThreadCount) == Get(b, ThreadCount);
    assert Get(a, SeedValue) == Get(b, SeedValue);
    assert Get(a, AssumeYesFlag) == Get(b, AssumeYesFlag);
  }
}
