/** The checks that `get_commandline_arguments` runs once the option loop is
    over (src/fastspar_opts.cpp:124-194). Each failing check prints help and a
    message and calls `exit(1)`; here it becomes an `Exit` outcome. The two
    queries of the environment are inputs: `hw` is what
    `std::thread::hardware_concurrency()` reports and `otuReadable` whether the
    OTU table could be opened for reading. */
module Validation {
  import opened Wrappers
  import opened Options

  /** What the front end hands on: the configuration, or an exit code and why. */
  datatype Outcome = Ok(options: FastsparOptions) | Exit(code: int, reason: Reason)

  /** The hard-coded ceiling on the number of threads. */
  const MaxThreads: int := 64

  /** The smallest `argc` accepted: the program name and the three required
      flags with their values. */
  const MinArgc: int := 7

  /** Every constraint a configuration that gets through meets, stated without
      regard to the order in which they are checked. */
  predicate Acceptable(o: FastsparOptions, argc: int, hw: nat, otuReadable: bool) {
    && argc >= MinArgc
    && o.otuFilename != []
    && o.correlationFilename != []
    && o.covarianceFilename != []
    && o.threshold <= 1.0
    && 1 <= o.threads <= MaxThreads
    && (hw <= 1 || o.threads <= hw)
    && otuReadable
  }

  /** Lines 124-191 as written: a chain of guards, the first failing one exits. */
  function Validate(o: FastsparOptions, argc: int, hw: nat, otuReadable: bool): (r: Outcome)
    ensures r.Ok? <==> Acceptable(o, argc, hw, otuReadable)
    ensures r.Ok? ==> r.options == o
    ensures r.Exit? ==> r.code == 1 && !Informational(r.reason)
  {
    if argc < MinArgc then Exit(1, RequiredOptionsMissing)
    else if o.otuFilename == [] then Exit(1, OtuTableRequired)
    else if o.correlationFilename == [] then Exit(1, CorrelationRequired)
    else if o.covarianceFilename == [] then Exit(1, CovarianceRequired)
    else if o.threshold > 1.0 then Exit(1, ThresholdAboveOne)
    else if o.threads < 1 then Exit(1, NoThreads)
    else if hw > 1 && o.threads > hw then Exit(1, HardwareLimit(hw))
    else if o.threads > MaxThreads then Exit(1, HardLimit)
    else if !otuReadable then Exit(1, OtuTableUnreadable(o.otuFilename))
    else Ok(o)
  }

  /** One check: whether it passes, and what is reported when it does not. */
  datatype Check = Check(passes: bool, reason: Reason)

  /** The same checks as a table, in the order the source runs them. The
      hard limit of 64 threads sits in the `else` of the hardware check, so it
      is consulted only once that check has passed. */
  function Checks(o: FastsparOptions, argc: int, hw: nat, otuReadable: bool): (cs: seq<Check>)
    ensures (forall i | 0 <= i < |cs| :: cs[i].passes) <==> Acceptable(o, argc, hw, otuReadable)
  {
    var cs :=
      [ Check(argc >= MinArgc, RequiredOptionsMissing),
        Check(o.otuFilename != [], OtuTableRequired),
        Check(o.correlationFilename != [], CorrelationRequired),
        Check(o.covarianceFilename != [], CovarianceRequired),
        Check(o.threshold <= 1.0, ThresholdAboveOne),
        Check(o.threads >= 1, NoThreads),
        Check(!(hw > 1 && o.threads > hw), HardwareLimit(hw)),
        Check(o.threads <= MaxThreads, HardLimit),
        Check(otuReadable, OtuTableUnreadable(o.otuFilename)) ];
    assert Acceptable(o, argc, hw, otuReadable) <==>
           cs[0].passes && cs[1].passes && cs[2].passes && cs[3].passes && cs[4].passes &&
           cs[5].passes && cs[6].passes && cs[7].passes && cs[8].passes;
    cs
  }

  /** The reason of the first check that fails, if any does. */
  function FirstFailure(cs: seq<Check>): (r: Option<Reason>)
    ensures r.None? <==> forall i | 0 <= i < |cs| :: cs[i].passes
    ensures r.Some? ==> exists i | 0 <= i < |cs| :: FailsFirstAt(cs, i) && cs[i].reason == r.value
    decreases |cs|
  {
    if cs == [] then None
    else if !cs[0].passes then (assert FailsFirstAt(cs, 0); Some(cs[0].reason))
    else
      var r := FirstFailure(cs[1..]);
      assert forall i | 1 <= i < |cs| :: cs[1..][i - 1] == cs[i];
      assert r.Some? ==> exists i | 1 <= i < |cs| :: FailsFirstAt(cs, i) && cs[i].reason == r.value by {
        if r.Some? {
          var k :| 0 <= k < |cs| - 1 && FailsFirstAt(cs[1..], k) && cs[1..][k].reason == r.value;
          assert FailsFirstAt(cs, k + 1);
        }
      }
      r
  }

  /** Check `i` is the first in `cs` that fails. */
  predicate FailsFirstAt(cs: seq<Check>, i: int) {
    0 <= i < |cs| && !cs[i].passes && forall j | 0 <= j < i :: cs[j].passes
  }

  /** The guard chain reports exactly the first failing check of the table, and
      accepts exactly when no check fails. */
  lemma ValidateReportsFirstFailedCheck(o: FastsparOptions, argc: int, hw: nat, otuReadable: bool)
    ensures Validate(o, argc, hw, otuReadable) ==
            match FirstFailure(Checks(o, argc, hw, otuReadable))
            case None => Ok(o)
            case Some(why) => Exit(1, why)
  {
    var cs := Checks(o, argc, hw, otuReadable);
    var r := FirstFailure(cs);
    if r.Some? {
      var k :| 0 <= k < |cs| && FailsFirstAt(cs, k) && cs[k].reason == r.value;
      assert forall j | 0 <= j < k :: cs[j].passes;
      assert k > 0 ==> cs[0].passes;
      assert k > 1 ==> cs[1].passes;
      assert k > 2 ==> cs[2].passes;
      assert k > 3 ==> cs[3].passes;
      assert k > 4 ==> cs[4].passes;
      assert k > 5 ==> cs[5].passes;
      assert k > 6 ==> cs[6].passes;
      assert k > 7 ==> cs[7].passes;
    } else {
      assert cs[0].passes && cs[1].passes && cs[2].passes && cs[3].passes && cs[4].passes;
      assert cs[5].passes && cs[6].passes && cs[7].passes && cs[8].passes;
    }
  }

  /** The three filenames that must be given. */
  predicate PathsGiven(o: FastsparOptions) {
    o.otuFilename != [] && o.correlationFilename != [] && o.covarianceFilename != []
  }

  /** Too few arguments is reported before anything about the filenames. */
  lemma TooFewArgumentsReportedFirst(o: FastsparOptions, argc: int, hw: nat, otuReadable: bool)
    requires argc < MinArgc
    ensures Validate(o, argc, hw, otuReadable) == Exit(1, RequiredOptionsMissing)
  {
  }

  /** With enough arguments, a missing filename is reported, and it is the
      first missing one in the order -c, -r, -a. */
  lemma MissingPathNamedInOrder(o: FastsparOptions, argc: int, hw: nat, otuReadable: bool)
    requires argc >= MinArgc
    ensures o.otuFilename == [] ==> Validate(o, argc, hw, otuReadable) == Exit(1, OtuTableRequired)
    ensures o.otuFilename != [] && o.correlationFilename == [] ==>
              Validate(o, argc, hw, otuReadable) == Exit(1, CorrelationRequired)
    ensures o.otuFilename != [] && o.correlationFilename != [] && o.covarianceFilename == [] ==>
              Validate(o, argc, hw, otuReadable) == Exit(1, CovarianceRequired)
  {
  }

  /** A threshold of exactly 1 is accepted; anything above 1 is rejected as
      soon as the earlier checks pass. */
  lemma ThresholdBoundary(o: FastsparOptions, argc: int, hw: nat, otuReadable: bool)
    ensures o.threshold <= 1.0 ==> Validate(o, argc, hw, otuReadable) != Exit(1, ThresholdAboveOne)
    ensures argc >= MinArgc && PathsGiven(o) && o.threshold > 1.0 ==>
              Validate(o, argc, hw, otuReadable) == Exit(1, ThresholdAboveOne)
  {
  }

  /** How the thread checks combine: below one is rejected; above a known
      hardware count the hardware error wins even when 64 is also exceeded;
      the hard limit is reported only when the hardware count is unknown (at
      most 1) or is itself above 64. */
  lemma ThreadLimits(o: FastsparOptions, argc: int, hw: nat, otuReadable: bool)
    requires argc >= MinArgc && PathsGiven(o) && o.threshold <= 1.0
    ensures o.threads < 1 ==> Validate(o, argc, hw, otuReadable) == Exit(1, NoThreads)
    ensures o.threads >= 1 && hw > 1 && o.threads > hw ==>
              Validate(o, argc, hw, otuReadable) == Exit(1, HardwareLimit(hw))
    ensures o.threads > MaxThreads && (hw <= 1 || o.threads <= hw) ==>
              Validate(o, argc, hw, otuReadable) == Exit(1, HardLimit)
    ensures Validate(o, argc, hw, otuReadable) == Exit(1, HardLimit) ==> hw <= 1 || hw > MaxThreads
  {
  }
}
