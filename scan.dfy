/** The option loop of `get_commandline_arguments` (src/fastspar_opts.cpp:70-121)
    as a specification: a left fold of `Apply` over the options that stops at
    the first `-v`, `-h` or failed option. The imperative loop itself is
    `FastsparOpts.GetCommandlineArguments`. */
module OptionScan {
  import opened Options

  /** Where the scan ends: with the record handed to validation, or with a
      process exit and its code. */
  datatype Scanned = Finished(options: FastsparOptions) | Stopped(code: int, reason: Reason)

  function Scan(o: FastsparOptions, args: seq<Opt>): (r: Scanned)
    ensures r.Finished? <==> forall i | 0 <= i < |args| :: !IsStop(args[i])
    ensures r.Stopped? ==> r.code == (if Informational(r.reason) then 0 else 1)
    ensures r.Stopped? ==> r.reason.VersionShown? || r.reason.HelpShown? || r.reason.BadOption?
    decreases |args|
  {
    if args == [] then Finished(o)
    else
      match args[0]
      case Version => Stopped(0, VersionShown)
      case Help => Stopped(0, HelpShown)
      case Bad => Stopped(1, BadOption)
      case _ =>
        assert forall i | 1 <= i < |args| :: args[1..][i - 1] == args[i];
        Scan(Apply(o, args[0]), args[1..])
  }

  /** The first `-v`, `-h` or failed option decides how the scan ends, whatever
      the record holds and whatever follows it. */
  lemma {:induction false} FirstStopDecides(o: FastsparOptions, args: seq<Opt>, i: nat)
    requires i < |args| && IsStop(args[i])
    requires forall j | 0 <= j < i :: !IsStop(args[j])
    ensures args[i].Version? ==> Scan(o, args) == Stopped(0, VersionShown)
    ensures args[i].Help? ==> Scan(o, args) == Stopped(0, HelpShown)
    ensures args[i].Bad? ==> Scan(o, args) == Stopped(1, BadOption)
    decreases i
  {
    if i > 0 {
      assert !IsStop(args[0]);
      assert forall j | 0 <= j < i - 1 :: args[1..][j] == args[j + 1];
      FirstStopDecides(Apply(o, args[0]), args[1..], i - 1);
    }
  }

  /** A field that no option writes keeps the value it had before the scan. */
  lemma {:induction false} UnassignedFieldKeepsInitial(o: FastsparOptions, args: seq<Opt>, f: Field)
    requires Scan(o, args).Finished?
    requires forall j | 0 <= j < |args| :: !Assigns(args[j], f)
    ensures Get(Scan(o, args).options, f) == Get(o, f)
    decreases |args|
  {
    if args != [] {
      assert !IsStop(args[0]) && !Assigns(args[0], f);
      assert forall j | 0 <= j < |args| - 1 :: args[1..][j] == args[j + 1];
      UnassignedFieldKeepsInitial(Apply(o, args[0]), args[1..], f);
    }
  }

  /** When an option is given more than once, its last occurrence is the value
      that reaches validation. */
  lemma {:induction false} LastOccurrenceWins(o: FastsparOptions, args: seq<Opt>, f: Field, i: nat)
    requires Scan(o, args).Finished?
    requires i < |args| && Assigns(args[i], f)
    requires forall j | i < j < |args| :: !Assigns(args[j], f)
    ensures Get(Scan(o, args).options, f) == Assignment(args[i]).value.1
    decreases i
  {
    assert !IsStop(args[0]);
    assert forall j | 0 <= j < |args| - 1 :: args[1..][j] == args[j + 1];
    if i == 0 {
      UnassignedFieldKeepsInitial(Apply(o, args[0]), args[1..], f);
    } else {
      LastOccurrenceWins(Apply(o, args[0]), args[1..], f, i - 1);
    }
  }
}
