# FastSpar command-line front end

A Dafny model of `get_commandline_arguments` in FastSpar, the C++
implementation of SparCC. The function turns the process arguments into a
`FastsparOptions` record, or it ends the process. It works in two stages:

1. **The option loop.** `getopt_long` returns one option at a time. A
   `switch` writes each option's value into one field of the record. `-v` and
   `-h` print text and exit with code 0. An unknown flag, a missing value or a
   value that fails to convert exits with code 1.
2. **The validation chain.** A fixed sequence of guards runs next. Each
   failing guard prints help and an error, then exits with code 1. The guards
   are, in order: the argument count (`argc < 7`), the three required
   filenames (`-c`, `-r`, `-a`), the threshold (at most 1), the thread count
   (at least 1, at most the hardware concurrency when that is known and above
   1, and at most 64; when both limits are exceeded the hardware error is
   reported), and whether the OTU table can be opened. A leftover
   non-option token prints a message but does not stop the run.

Modules:

- `Options` (options.dfy): the record; the tokenised options `Opt`; the
  grammar as a table (`Assignment`: which field an option writes and with
  what value); and `Apply`, one case of the `switch`.
- `OptionScan` (scan.dfy): `Scan`, the option loop as a fold that stops at
  the first `-v`/`-h`/failed option. Its lemmas cover precedence and "last
  occurrence wins".
- `Validation` (validation.dfy): `Validate`, the guard chain as written, and
  `Checks`, the same guards as an ordered table. Lemmas show the chain reports
  the first failing check, and cover each ordering rule.
- `FastsparOpts` (fastspar_opts.dfy): `GetCommandlineArguments`, the option
  loop as an imperative `while` loop that updates the record field by field.
  It is proved equal to the specification `CommandLine`, which is `Scan`
  followed by `Validate`. End-to-end lemmas sit beside it.

The environment is passed in as inputs:

- `hw` is what `std::thread::hardware_concurrency()` reports.
- `readable` is the set of paths that `std::ifstream` can open.
- `leftovers` are the non-option tokens `getopt_long` leaves at the end.
- `argc` is the raw argument count.

`exit()` becomes an `Exit(code, reason)` outcome.

Behaviour worth noting:

- An unknown option exits with code 1 without calling `print_help`.
  `getopt_long` prints its own message.
- The first of `-v`, `-h` or a failed option in scan order decides the exit
  code. So a failed option before `-h` exits with code 1.
- The leftover-token branch (lines 132-135) only prints a message, although
  its comment says "Abort execution". The model keeps it non-fatal
  (`LeftoverIsNonFatal`).

## Model

| member | source | states |
|---|---|---|
| Options.Assignment | src/fastspar_opts.cpp:53-111 | the option table (flag names at lines 53-67, the field each option writes in the `switch` at lines 85-111): an option writes a field exactly when it is not `-v`, `-h` or a failed option |
| Options.Apply | src/fastspar_opts.cpp:84-111 | each option sets its own field to its value (`-y` sets `assumeYes` to true); every other field keeps its value; stopping options change nothing |
| Options.GetDeterminesRecord | src/fastspar_opts.cpp:85-111 | the named fields are the whole record, so "every other field unchanged" pins down the record after an option |
| OptionScan.Scan | src/fastspar_opts.cpp:70-121 | the loop reaches validation exactly when no option is `-v`, `-h` or failed; a stop carries exit code 0 for version/help and 1 otherwise |
| OptionScan.FirstStopDecides | src/fastspar_opts.cpp:112-119 | the first `-v`/`-h`/failed option decides the outcome, whatever the record holds and whatever follows |
| OptionScan.UnassignedFieldKeepsInitial | src/fastspar_opts.cpp:70-111 | a field no option writes keeps its initial value |
| OptionScan.LastOccurrenceWins | src/fastspar_opts.cpp:70-111 | for a repeated option, the value of its last occurrence reaches validation |
| Validation.Validate | src/fastspar_opts.cpp:124-191 | accepts exactly the records that meet every constraint, and returns them unchanged; every rejection exits with code 1 |
| Validation.Checks | src/fastspar_opts.cpp:124-191 | the guards as an ordered table (argc, -c, -r, -a, threshold, threads >= 1, hardware, 64, readable); every check passes exactly when the record meets every constraint |
| Validation.FirstFailure | src/fastspar_opts.cpp:124-191 | no reason exactly when every check passes; otherwise the reason of a check that fails with all earlier checks passing |
| Validation.ValidateReportsFirstFailedCheck | src/fastspar_opts.cpp:124-191 | the guard chain reports the first failing check in the order argc, -c, -r, -a, threshold, threads >= 1, hardware, 64, readable |
| Validation.TooFewArgumentsReportedFirst | src/fastspar_opts.cpp:124-129 | `argc < 7` gives the "required options" error whatever the filenames |
| Validation.MissingPathNamedInOrder | src/fastspar_opts.cpp:138-153 | with enough arguments, the error names the first empty filename in the order otu table, correlation, covariance |
| Validation.ThresholdBoundary | src/fastspar_opts.cpp:156-161 | a threshold of at most 1 (1 included) never fails; above 1 it fails once the earlier checks pass |
| Validation.ThreadLimits | src/fastspar_opts.cpp:164-181 | fewer than 1 thread fails; above a known hardware count (> 1) the hardware error wins even past 64; otherwise above 64 the hard-limit error; the hard limit shows only when hw <= 1 or hw > 64 |
| FastsparOpts.CommandLine | src/fastspar_opts.cpp:48-195 | every exit has code 0 or 1, and code 0 exactly for version/help |
| FastsparOpts.GetCommandlineArguments | src/fastspar_opts.cpp:48-195 | the loop that updates the record field by field, then validation, computes exactly the outcome and warning of `CommandLine` |
| FastsparOpts.FirstStopBeatsValidation | src/fastspar_opts.cpp:112-129 | the first `-v`/`-h` exits 0 and the first failed option exits 1, with no validation (not even `argc < 7`) and no warning |
| FastsparOpts.AcceptedConfigurationIsValid | src/fastspar_opts.cpp:124-194 | a returned record is the scanned one, has `1 <= threads <= 64`, `hw <= 1 \|\| threads <= hw`, `threshold <= 1`, all three filenames, a readable OTU table, and came from `argc >= 7` |
| FastsparOpts.LeftoverWarning | src/fastspar_opts.cpp:131-135 | a message is printed exactly when `argc >= 7` and a non-option token is left over, and it names the first such token |
| FastsparOpts.LeftoverIsNonFatal | src/fastspar_opts.cpp:131-135 | leftover tokens never change the outcome; once the scan finishes and argc >= 7, the message names the first token |
| FastsparOpts.RequiredOnlyInvocation | src/fastspar_opts.cpp:48-195 | `-c in -r corr -a cov` (argc 7) with in-range defaults returns the defaults with the three filenames set |

## Left out

- `print_help`, `print_version` and every `fprintf` (lines 4-45 and the messages): output only. The model keeps which outcome or reason occurs, and for a leftover token the token it names.
- `getopt_long`: argument permutation, `optind`/`optarg` and flag matching are a library. The model starts from the options it returns (`seq<Opt>`), the leftover non-option tokens and `argc`, given independently.
- `int_from_optarg` / `float_from_optarg` are not part of this model. A failed conversion is the `Bad` option. Converted values are unbounded `int`s and the threshold is a `real`, so 32-bit limits and floating-point NaN (which would pass the `> 1` test) are not modelled.
- `std::thread::hardware_concurrency()` and the `std::ifstream` probe are environment calls. They are the inputs `hw` and `readable`.
- The default field values live in fastspar_opts.h, which is not part of this model. Every scan starts from a given record.
- `exit()` is not modelled as process termination. It becomes the `Exit(code, reason)` outcome.
- The comparison of the thread count with the unsigned hardware count is modelled on integers. It is reached only once `threads >= 1`, so the signed-to-unsigned conversion changes nothing.
