# rnabam2cov — a Dafny model of its strand policy and coverage requests

rnabam2cov turns an RNA-seq BAM file into strand-specific bedgraph coverage files. This
project models three parts of it in Dafny:

- **Strand policy** (`strandedness.dfy`):
  - the `LibraryType` enum;
  - `get_strand_mapping`, a case-insensitive label to an aligned-strand → transcribed-strand table;
  - `get_output_prefixes`, which maps each aligned strand to `<base>.plus` or `<base>.minus`.
- **Coverage requests** (`coverage.dfy`):
  - the `FileType` enum and `get_file_extension`;
  - the checks of `get_stranded_bedgraph` (strand, bg/bga, 5'/3'), in the order it makes them;
  - the keyword map it builds for the genome-coverage tool;
  - the path it returns;
  - the file-type dispatch of `get_stranded_coverage`.

  A successful request is described by the `CoverageCall` it would make: the BAM path, the keyword map and the output path.
- **Command line** (`cli.dfy`):
  - `rnabam2cov`: the library-type membership check, the prefix lookup, and the loop over the requested strands;
  - `main`: the input-exists check and the normalisation of the report mode from `--bga`.

`results.dfy` holds the shared `Option`/`Result` types. It also holds `Error`, which has one constructor per exception the core raises.

Each method is proved against a specification function: `GetOutputPrefixes` against `OutputPrefixes`, `GetStrandedBedgraph` against `BedgraphCall`, `Rnabam2cov` against `Rnabam2covOutcome`, and `RunMain` against `MainOutcome`. Lemmas state what those functions promise.

## Model

| member | source | states |
|---|---|---|
| Strandedness.FromValue | src/rnabam2cov/strandedness.py:8-11 | the enum constructor accepts exactly "forward" and "reverse", and the member it returns has that value |
| Strandedness.Lower | src/rnabam2cov/strandedness.py:27 | lower-casing keeps the length and lowers each character on its own |
| Strandedness.LowerIdempotent | src/rnabam2cov/strandedness.py:27 | lowering a lowered label changes nothing |
| Strandedness.ParseLibraryType | src/rnabam2cov/strandedness.py:27 | a label parses exactly when its lower-case form is "forward" or "reverse", to the member whose value is that form |
| Strandedness.StrandMapping | src/rnabam2cov/strandedness.py:29-34 | the table covers exactly + and -; it is a bijection onto {+, -} and its own inverse; it is the identity exactly for a forward library |
| Strandedness.GetStrandMapping | src/rnabam2cov/strandedness.py:14-36 | succeeds exactly when the lowered label is "forward" or "reverse"; otherwise fails with the enum's ValueError for the lowered label; forward gives the identity table and reverse the swap |
| Strandedness.StrandMappingIgnoresCase | src/rnabam2cov/strandedness.py:27 | any casing of a label gives the same outcome as its lower-case form |
| Strandedness.UpperCaseForward | tests/test_strandedness.py:31-34 | "FORWARD" selects the same table as "forward" |
| Strandedness.UpperCaseReverse | tests/test_strandedness.py:31-34 | "REVERSE" selects the same table as "reverse" |
| Strandedness.InvalidLabelRejected | tests/test_strandedness.py:37-40 | an unknown label fails with the library-type error |
| Strandedness.PrefixForStrand | src/rnabam2cov/strandedness.py:60-63 | `PrefixFor`, one pass of the prefix loop: the plus prefix is chosen exactly for the plus transcribed strand, and every other strand gets the minus prefix |
| Strandedness.OutputPrefixes | src/rnabam2cov/strandedness.py:58-63 | both aligned strands get a prefix; the two prefixes differ and are exactly base.plus and base.minus; each extends the base; forward and reverse give the maps the tests expect |
| Strandedness.PrefixesFromMapping | src/rnabam2cov/strandedness.py:58-65 | a map that sends every strand of the table to the prefix of its transcribed strand is the prefix map |
| Strandedness.GetOutputPrefixes | src/rnabam2cov/strandedness.py:39-65 | fails exactly when the label is not a library type (the error carries the lowered label); otherwise returns the prefix map of that type, whatever order the loop visits the strands in |
| Coverage.FileExtension | src/rnabam2cov/coverage.py:15-28 | the extension of a file type is the enum's value; it is non-empty and has no leading dot |
| Coverage.KeyAt | src/rnabam2cov/coverage.py:94-124 | the key considered at position i has rank i |
| Coverage.EntryValues | src/rnabam2cov/coverage.py:94-124 | `Entry`, the per-key condition and value: strand always, as text; scale exactly when it is not 1.0; max exactly when max_depth is truthy, as a non-zero integer; trackopts exactly when it is non-empty, as text; every other key exactly when its option is set, as the flag True |
| Coverage.FilledHoldsEntry | src/rnabam2cov/coverage.py:94-124 | `Filled`, the conditional insertions in order: after the keys ranked below n are considered, the map holds a key exactly when its rank is below n and its condition holds, and holds that key's value |
| Coverage.FilledComplete | src/rnabam2cov/coverage.py:94-124 | once all fourteen keys are considered, every key holds exactly its due entry |
| Coverage.ExpectedKwargs | src/rnabam2cov/coverage.py:94-124 | the keyword map: strand always; each flag as True only when set; scale only when it is not 1.0; max only when max_depth is truthy; trackopts only when non-empty |
| Coverage.EntriesDetermineKwargs | src/rnabam2cov/coverage.py:94-124 | any map that holds exactly the due entries is the keyword map |
| Coverage.RequestError | src/rnabam2cov/coverage.py:77-88 | no error exactly when the strand is + or -, exactly one of bg and bga is set, and not both of 5' and 3'; the strand is checked first, then bg/bga, then 5'/3' |
| Coverage.OutputPath | src/rnabam2cov/coverage.py:130 | the output path is the prefix followed by ".bedgraph" |
| Coverage.BedgraphCall | src/rnabam2cov/coverage.py:77-135 | fails exactly with the first failed check; otherwise calls the tool on the BAM path with the due entries (strand included, exactly one of bg/bga, never both 5 and 3) and returns prefix.bedgraph |
| Coverage.DefaultsPassChecks | tests/test_coverage.py:22-43 | with the default options only the strand can fail, and the keyword map is strand, split, du and bg |
| Coverage.GetStrandedBedgraph | src/rnabam2cov/coverage.py:31-135 | makes the checks one after another, then builds the keyword map and the output path; agrees with BedgraphCall on every input |
| Coverage.StrandedCoverage | src/rnabam2cov/coverage.py:163-167 | a bedgraph request is exactly get_stranded_bedgraph's outcome; any other file type fails with the unsupported-file-type error; it succeeds exactly for a bedgraph request that passes the checks, and then returns prefix.bedgraph |
| Coverage.GetStrandedCoverage | src/rnabam2cov/coverage.py:137-167 | the dispatch on the file type; agrees with StrandedCoverage on every input |
| Cli.StrandOutput | src/rnabam2cov/cli.py:69-90 | one pass of the loop fails with the key error exactly when the strand has no prefix; otherwise it succeeds exactly for a bedgraph request that passes the checks, and returns the strand's prefix followed by ".bedgraph"; a failed request's error (the unsupported file type, or the first failed check) is the pass's error unchanged |
| Cli.CollectOutputs | src/rnabam2cov/cli.py:65-94 | the strand loop succeeds exactly when every pass succeeds, with one path per strand, in order, each the path of its own pass |
| Cli.CollectStep | src/rnabam2cov/cli.py:67-92 | a successful pass appends its path to the outputs of the strands before it |
| Cli.CollectStopsAt | src/rnabam2cov/cli.py:67-90 | a failing pass after successful ones ends the whole loop with that pass's error |
| Cli.CollectFailurePersists | src/rnabam2cov/cli.py:67-94 | a failure on the first n strands is the failure of the whole loop |
| Cli.FirstFailure | src/rnabam2cov/cli.py:67-94 | a failed loop fails with the error of its first failing strand, and every earlier strand succeeded |
| Cli.Rnabam2covOutcome | src/rnabam2cov/cli.py:60-94 | a label that is not a member's exact value fails the assertion; on success there is one path per requested strand, each strand is + or -, and each path is that strand's prefix followed by ".bedgraph" |
| Cli.RunSucceedsIff | src/rnabam2cov/cli.py:60-94 | with a member label, the run succeeds exactly when no strand is requested, or when the file type is bedgraph, the options pass the checks and every strand is + or - |
| Cli.NeverInvalidStrand | src/rnabam2cov/cli.py:69 | an unknown strand fails at the prefix lookup, so the run never reports the coverage module's strand error |
| Cli.FirstUnknownStrandIsKeyError | src/rnabam2cov/cli.py:67-69 | with a member label, bedgraph output and accepted options, the first requested strand that is not + or - ends the run with the key error naming that strand |
| Cli.FirstCheckFailure | src/rnabam2cov/cli.py:67-90 | with a member label, a failed coverage check on the first strand (+ or -) ends the run with that check's error, e.g. bg and bga both set |
| Cli.InvalidLabelFailsAssertion | tests/test_cli.py:102-114 | an unknown label such as "invalid" fails the membership assertion |
| Cli.UpperCaseLabelRejected | src/rnabam2cov/cli.py:60 | the membership check is case-sensitive: "FORWARD" fails the assertion |
| Cli.MemberLabelIsLower | src/rnabam2cov/cli.py:60-63 | a label that passes the assertion parses to the same library type in get_output_prefixes |
| Cli.Rnabam2cov | src/rnabam2cov/cli.py:13-94 | asserts the label, computes the prefixes, then requests each strand in order; agrees with Rnabam2covOutcome on every input |
| Cli.ForwardBothStrands | tests/test_cli.py:27-48 | the default forward run over + and - returns prefix.plus.bedgraph then prefix.minus.bedgraph |
| Cli.PlusStrandOnly | tests/test_cli.py:79-99 | a forward run over + alone returns only prefix.plus.bedgraph |
| Cli.PlusOutput | src/rnabam2cov/cli.py:69-92 | the forward + pass with default options yields prefix.plus.bedgraph |
| Cli.MinusOutput | src/rnabam2cov/cli.py:69-92 | the forward - pass with default options yields prefix.minus.bedgraph |
| Cli.UnknownStrandIsKeyError | tests/test_cli.py:117-130 | requesting the strand "invalid" fails with the key error for "invalid" |
| Cli.ReportModes | src/rnabam2cov/cli.py:225-230 | bga is the --bga flag and exactly one of bg and bga is set |
| Cli.MainOptions | src/rnabam2cov/cli.py:233-251 | the options main passes carry the chosen report mode, and pass the coverage checks exactly when the mode is exclusive and not both 5' and 3' are requested |
| Cli.MainOutcome | src/rnabam2cov/cli.py:214-251 | a missing input fails with the file-not-found error; no failure of main is ever a bg/bga error |
| Cli.RunMain | src/rnabam2cov/cli.py:214-251 | checks the input, normalises the report mode, then runs rnabam2cov; agrees with MainOutcome on every input |
| Cli.BgFlagIgnored | src/rnabam2cov/cli.py:225-230 | the --bg flag does not affect main's outcome |
| Cli.AcceptedArgsSucceed | src/rnabam2cov/cli.py:214-251 | arguments argparse accepts, with an existing input and not both 5' and 3', give one path per strand: that strand's prefix followed by ".bedgraph" |

## Left out

- The coverage computation itself (`pybedtools.BedTool`, `genome_coverage`) and `saveas`: these are calls into bedtools. A successful request is described by its `CoverageCall` instead, and no coverage values are modelled.
- Coverage.BedgraphCall: the exceptions those calls can raise are not modelled (an unreadable BAM file, a bedtools failure, an output path that cannot be written). A request that passes the checks counts as a success, so Cli.RunSucceedsIff and Cli.AcceptedArgsSucceed describe the run up to those failures.
- GetStrandedBedgraph: get_stranded_bedgraph builds the keyword map in place, one `if` and one insertion per key. The model builds a map with the same entries as the fold `Filled`: `Put` is one conditional insertion, and the keys are taken in get_stranded_bedgraph's order. A Dafny `map` keeps no insertion order, so the order in which the keyword arguments reach `genome_coverage` is not kept. The method takes that map as a value, so the step-by-step updates of the dictionary are not modelled.
- Keyword names are modelled by the `Key` datatype (`Name` gives the keyword text); `scale` is kept as a `real` and compared with 1.0 for equality only.
- Strandedness.Lower: `str.lower()` is modelled on ASCII letters only; other characters are left unchanged. No non-ASCII character lowers to a letter of "forward" or "reverse", so which labels are accepted does not change.
- `libtype in LibraryType` (cli.py:60) follows value containment, which Python 3.12 introduced. It is modelled as a failure, not as an assertion that `python -O` strips.
- Dictionary iteration order in `get_output_prefixes` is left open: the loop takes the strands in any order, and the result is proved not to depend on it.
- `get_stranded_coverage` forwards `**kwargs`: only the named options of `get_stranded_bedgraph` are modelled. A file type that is not a `FileType` member is modelled by its text (`Other`).
- `main`:
  - argument parsing (`parse_args`, its choices and defaults) is not modelled; `Args` stands for what it produces;
  - whether the input exists is a boolean parameter, and the `str(Path(...))` round-trip of the input path is taken as the identity;
  - printing the outputs, and turning an exception into a message and `sys.exit(1)`, are not modelled; the outcome is a `Result` whose error names the exception.
