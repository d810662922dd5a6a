/**
 * The command-line layer: rnabam2cov's loop over the requested strands, and main's
 * normalisation of the bedgraph report mode before it calls rnabam2cov.
 */
module Cli {
  import opened Results
  import opened Strandedness
  import opened Coverage

  /** The options accepted by the coverage checks once the strand itself is valid. */
  predicate OptionsAccepted(o: Options) {
    o.bg != o.bga && !(o.fivePrime && o.threePrime)
  }

  /** One pass of the strand loop: the prefix lookup, then the coverage request's output path. */
  function StrandOutput(bamPath: string, prefixes: map<string, string>, strand: string,
                        ft: FileTypeArg, o: Options): (r: Result<string>)
    ensures r == Failure(MissingPrefix(strand)) <==> strand !in prefixes
    ensures strand in prefixes ==> (r.Success? <==> ft == Member(Bedgraph) && RequestError(strand, o).None?)
    ensures r.Success? ==> r.value == prefixes[strand] + ".bedgraph"
    ensures strand in prefixes && ft.Other? ==> r == Failure(UnsupportedFileType(ft.repr))
    ensures strand in prefixes && ft == Member(Bedgraph) && RequestError(strand, o).Some?
            ==> r == Failure(RequestError(strand, o).value)
  {
    if strand !in prefixes then Failure(MissingPrefix(strand))
    else
      match StrandedCoverage(bamPath, strand, prefixes[strand], ft, o)
      case Failure(e) => Failure(e)
      case Success(call) => Success(call.outputPath)
  }

  /**
   * The strand loop over `strands` in order: the first failing pass ends it with that pass's
   * error; otherwise one output path per strand.
   */
  function CollectOutputs(bamPath: string, prefixes: map<string, string>, strands: seq<string>,
                          ft: FileTypeArg, o: Options): (r: Result<seq<string>>)
    ensures r.Success? <==> forall i :: 0 <= i < |strands| ==> StrandOutput(bamPath, prefixes, strands[i], ft, o).Success?
    ensures r.Success? ==> |r.value| == |strands|
    ensures r.Success? ==> forall i :: 0 <= i < |strands| ==>
              StrandOutput(bamPath, prefixes, strands[i], ft, o) == Success(r.value[i])
    decreases |strands|
  {
    if strands == [] then Success([])
    else
      var last := |strands| - 1;
      match CollectOutputs(bamPath, prefixes, strands[..last], ft, o)
      case Failure(e) => Failure(e)
      case Success(files) =>
        match StrandOutput(bamPath, prefixes, strands[last], ft, o)
        case Failure(e) => Failure(e)
        case Success(file) => Success(files + [file])
  }

  /** A failure on a prefix of the strands is the failure of every longer run. */
  lemma {:induction false} CollectFailurePersists(bamPath: string, prefixes: map<string, string>,
                                                  strands: seq<string>, n: nat, ft: FileTypeArg, o: Options)
    requires n <= |strands|
    requires CollectOutputs(bamPath, prefixes, strands[..n], ft, o).Failure?
    ensures CollectOutputs(bamPath, prefixes, strands, ft, o) == CollectOutputs(bamPath, prefixes, strands[..n], ft, o)
    decreases |strands| - n
  {
    if n < |strands| {
      var last := |strands| - 1;
      assert strands[..last][..n] == strands[..n];
      CollectFailurePersists(bamPath, prefixes, strands[..last], n, ft, o);
    } else {
      assert strands[..n] == strands;
    }
  }

  /** A successful pass extends the outputs of the strands before it by its own path. */
  lemma CollectStep(bamPath: string, prefixes: map<string, string>, strands: seq<string>, i: nat,
                    ft: FileTypeArg, o: Options, files: seq<string>, file: string)
    requires i < |strands|
    requires CollectOutputs(bamPath, prefixes, strands[..i], ft, o) == Success(files)
    requires StrandOutput(bamPath, prefixes, strands[i], ft, o) == Success(file)
    ensures CollectOutputs(bamPath, prefixes, strands[..i + 1], ft, o) == Success(files + [file])
  {
    assert strands[..i + 1][..i] == strands[..i];
  }

  /** A failing pass after successful ones is the failure of the whole run. */
  lemma CollectStopsAt(bamPath: string, prefixes: map<string, string>, strands: seq<string>, i: nat,
                       ft: FileTypeArg, o: Options, files: seq<string>)
    requires i < |strands|
    requires CollectOutputs(bamPath, prefixes, strands[..i], ft, o) == Success(files)
    requires StrandOutput(bamPath, prefixes, strands[i], ft, o).Failure?
    ensures CollectOutputs(bamPath, prefixes, strands, ft, o)
            == Failure(StrandOutput(bamPath, prefixes, strands[i], ft, o).error)
  {
    assert strands[..i + 1][..i] == strands[..i];
    CollectFailurePersists(bamPath, prefixes, strands, i + 1, ft, o);
  }

  /** A failed run fails with the error of its first failing strand. */
  lemma {:induction false} FirstFailure(bamPath: string, prefixes: map<string, string>,
                                       strands: seq<string>, ft: FileTypeArg, o: Options)
    requires CollectOutputs(bamPath, prefixes, strands, ft, o).Failure?
    ensures exists i :: 0 <= i < |strands|
              && StrandOutput(bamPath, prefixes, strands[i], ft, o)
                 == Failure(CollectOutputs(bamPath, prefixes, strands, ft, o).error)
              && forall j :: 0 <= j < i ==> StrandOutput(bamPath, prefixes, strands[j], ft, o).Success?
  {
    var last := |strands| - 1;
    var front := strands[..last];
    if CollectOutputs(bamPath, prefixes, front, ft, o).Failure? {
      FirstFailure(bamPath, prefixes, front, ft, o);
      var i :| 0 <= i < |front|
               && StrandOutput(bamPath, prefixes, front[i], ft, o)
                  == Failure(CollectOutputs(bamPath, prefixes, front, ft, o).error)
               && forall j :: 0 <= j < i ==> StrandOutput(bamPath, prefixes, front[j], ft, o).Success?;
      assert strands[i] == front[i];
      assert forall j :: 0 <= j < i ==> strands[j] == front[j];
    } else {
      assert forall j :: 0 <= j < last ==> strands[j] == front[j];
    }
  }

  /**
   * What rnabam2cov returns: the membership assertion on the label, then the strand loop over
   * the prefixes of that library type.
   */
  function Rnabam2covOutcome(bamPath: string, libtype: string, outputPrefix: string,
                             strands: seq<string>, ft: FileTypeArg, o: Options): (r: Result<seq<string>>)
    ensures FromValue(libtype).None? ==> r == Failure(LibraryTypeNotMember(libtype))
    ensures r.Success? ==> |r.value| == |strands|
    ensures r.Success? ==> forall i :: 0 <= i < |strands| ==>
              strands[i] in STRANDS
              && r.value[i] == OutputPrefixes(outputPrefix, FromValue(libtype).value)[strands[i]] + ".bedgraph"
  {
    match FromValue(libtype)
    case None => Failure(LibraryTypeNotMember(libtype))
    case Some(lt) =>
      var prefixes := OutputPrefixes(outputPrefix, lt);
      var r := CollectOutputs(bamPath, prefixes, strands, ft, o);
      assert r.Success? ==> forall i :: 0 <= i < |strands| ==>
        strands[i] in STRANDS && r.value[i] == prefixes[strands[i]] + ".bedgraph" by {
        if r.Success? {
          forall i | 0 <= i < |strands|
            ensures strands[i] in STRANDS && r.value[i] == prefixes[strands[i]] + ".bedgraph"
          {
            assert StrandOutput(bamPath, prefixes, strands[i], ft, o) == Success(r.value[i]);
          }
        }
      }
      r
  }

  /**
   * A member label succeeds exactly when no strand is requested, or when the file type is
   * bedgraph, every strand is + or -, and the options pass the coverage checks.
   */
  lemma RunSucceedsIff(bamPath: string, libtype: string, outputPrefix: string,
                       strands: seq<string>, ft: FileTypeArg, o: Options)
    requires FromValue(libtype).Some?
    ensures Rnabam2covOutcome(bamPath, libtype, outputPrefix, strands, ft, o).Success?
            <==> strands == []
                 || (ft == Member(Bedgraph) && OptionsAccepted(o)
                     && forall i :: 0 <= i < |strands| ==> strands[i] in STRANDS)
  {
    var prefixes := OutputPrefixes(outputPrefix, FromValue(libtype).value);
    assert prefixes.Keys == STRANDS;
    if strands != [] && Rnabam2covOutcome(bamPath, libtype, outputPrefix, strands, ft, o).Success? {
      assert StrandOutput(bamPath, prefixes, strands[0], ft, o).Success?;
      assert ft == Member(Bedgraph);
      assert OptionsAccepted(o);
      forall i | 0 <= i < |strands|
        ensures strands[i] in STRANDS
      {
        assert StrandOutput(bamPath, prefixes, strands[i], ft, o).Success?;
      }
    }
  }

  /**
   * A strand outside + and - fails at the prefix lookup, before any coverage check; so the
   * loop never reports the coverage module's own strand error.
   */
  lemma NeverInvalidStrand(bamPath: string, libtype: string, outputPrefix: string,
                           strands: seq<string>, ft: FileTypeArg, o: Options)
    ensures Rnabam2covOutcome(bamPath, libtype, outputPrefix, strands, ft, o).Failure?
            ==> !Rnabam2covOutcome(bamPath, libtype, outputPrefix, strands, ft, o).error.InvalidStrand?
  {
    var r := Rnabam2covOutcome(bamPath, libtype, outputPrefix, strands, ft, o);
    if r.Failure? && FromValue(libtype).Some? {
      var prefixes := OutputPrefixes(outputPrefix, FromValue(libtype).value);
      FirstFailure(bamPath, prefixes, strands, ft, o);
    }
  }

  /**
   * With a member label, bedgraph output and accepted options, the first requested strand that
   * is not + or - ends the run with the prefix lookup's key error for that strand.
   */
  lemma FirstUnknownStrandIsKeyError(bamPath: string, libtype: string, outputPrefix: string,
                                     strands: seq<string>, i: nat, o: Options)
    requires FromValue(libtype).Some? && OptionsAccepted(o)
    requires i < |strands| && strands[i] !in STRANDS
    requires forall j :: 0 <= j < i ==> strands[j] in STRANDS
    ensures Rnabam2covOutcome(bamPath, libtype, outputPrefix, strands, Member(Bedgraph), o)
            == Failure(MissingPrefix(strands[i]))
  {
    var prefixes := OutputPrefixes(outputPrefix, FromValue(libtype).value);
    var front := strands[..i];
    assert forall j :: 0 <= j < |front| ==> front[j] == strands[j];
    RunSucceedsIff(bamPath, libtype, outputPrefix, front, Member(Bedgraph), o);
    var files := CollectOutputs(bamPath, prefixes, front, Member(Bedgraph), o).value;
    CollectStopsAt(bamPath, prefixes, strands, i, Member(Bedgraph), o, files);
  }

  /**
   * With a member label, a failed check on the first strand, itself + or -, ends the run with
   * that check's error, passed through unchanged.
   */
  lemma FirstCheckFailure(bamPath: string, libtype: string, outputPrefix: string,
                          strands: seq<string>, o: Options)
    requires FromValue(libtype).Some?
    requires |strands| > 0 && strands[0] in STRANDS && RequestError(strands[0], o).Some?
    ensures Rnabam2covOutcome(bamPath, libtype, outputPrefix, strands, Member(Bedgraph), o)
            == Failure(RequestError(strands[0], o).value)
  {
    var prefixes := OutputPrefixes(outputPrefix, FromValue(libtype).value);
    assert strands[..0] == [];
    CollectStopsAt(bamPath, prefixes, strands, 0, Member(Bedgraph), o, []);
  }

  /** The label must already be a member's value: no lower-casing happens before the check. */
  lemma UpperCaseLabelRejected()
    ensures forall bamPath, outputPrefix, strands, ft, o ::
              Rnabam2covOutcome(bamPath, "FORWARD", outputPrefix, strands, ft, o)
              == Failure(LibraryTypeNotMember("FORWARD"))
  {
    assert FromValue("FORWARD").None? by {
      assert "FORWARD"[0] != "forward"[0] && "FORWARD"[0] != "reverse"[0];
    }
  }

  /** An unknown label fails the membership assertion before any prefix is computed. */
  lemma InvalidLabelFailsAssertion(bamPath: string, outputPrefix: string)
    ensures Rnabam2covOutcome(bamPath, "invalid", outputPrefix, [PLUS, MINUS], Member(Bedgraph), DEFAULT_OPTIONS)
            == Failure(LibraryTypeNotMember("invalid"))
  {
    assert "invalid"[0] != "forward"[0] && "invalid"[0] != "reverse"[0];
  }

  /** A member label is its own lower-case form. */
  lemma MemberLabelIsLower(libtype: string)
    requires FromValue(libtype).Some?
    ensures ParseLibraryType(libtype) == FromValue(libtype)
  {
    if libtype == "forward" {
      LowerIs("forward", "forward");
    } else {
      LowerIs("reverse", "reverse");
    }
  }

  /** rnabam2cov: assert the label, compute the prefixes, then request each strand in order. */
  method Rnabam2cov(bamPath: string, libtype: string, outputPrefix: string,
                    strands: seq<string>, ft: FileTypeArg, o: Options)
    returns (r: Result<seq<string>>)
    ensures r == Rnabam2covOutcome(bamPath, libtype, outputPrefix, strands, ft, o)
  {
    if FromValue(libtype).None? {
      return Failure(LibraryTypeNotMember(libtype));
    }
    MemberLabelIsLower(libtype);
    var found := GetOutputPrefixes(outputPrefix, libtype);
    var prefixes := found.value;
    var files: seq<string> := [];
    var i := 0;
    while i < |strands|
      invariant 0 <= i <= |strands|
      invariant CollectOutputs(bamPath, prefixes, strands[..i], ft, o) == Success(files)
    {
      var strand := strands[i];
      if strand !in prefixes {
        CollectStopsAt(bamPath, prefixes, strands, i, ft, o, files);
        return Failure(MissingPrefix(strand));
      }
      var coverage := GetStrandedCoverage(bamPath, strand, prefixes[strand], ft, o);
      if coverage.Failure? {
        CollectStopsAt(bamPath, prefixes, strands, i, ft, o, files);
        return Failure(coverage.error);
      }
      CollectStep(bamPath, prefixes, strands, i, ft, o, files, coverage.value.outputPath);
      files := files + [coverage.value.outputPath];
      i := i + 1;
    }
    assert strands[..i] == strands;
    return Success(files);
  }

  /** The default call of the basic usage: both strands, forward library. */
  lemma ForwardBothStrands(bamPath: string, outputPrefix: string)
    ensures Rnabam2covOutcome(bamPath, "forward", outputPrefix, [PLUS, MINUS], Member(Bedgraph), DEFAULT_OPTIONS)
            == Success([outputPrefix + ".plus.bedgraph", outputPrefix + ".minus.bedgraph"])
  {
    var prefixes := OutputPrefixes(outputPrefix, Forward);
    var strands := [PLUS, MINUS];
    PlusOutput(bamPath, outputPrefix);
    MinusOutput(bamPath, outputPrefix);
    PairSlices(PLUS, MINUS);
    PairSlices(outputPrefix + ".plus.bedgraph", outputPrefix + ".minus.bedgraph");
    CollectStep(bamPath, prefixes, strands, 1, Member(Bedgraph), DEFAULT_OPTIONS,
                [outputPrefix + ".plus.bedgraph"], outputPrefix + ".minus.bedgraph");
  }

  /** The slices and concatenation of a two-element sequence. */
  lemma PairSlices(a: string, b: string)
    ensures [a, b][..1] == [a] && [a, b][..2] == [a, b] && [a] + [b] == [a, b]
  {
  }

  /** Only the plus strand requested: a single path, the plus file. */
  lemma PlusStrandOnly(bamPath: string, outputPrefix: string)
    ensures Rnabam2covOutcome(bamPath, "forward", outputPrefix, [PLUS], Member(Bedgraph), DEFAULT_OPTIONS)
            == Success([outputPrefix + ".plus.bedgraph"])
  {
    PlusOutput(bamPath, outputPrefix);
  }

  /** The forward plus strand's pass, and the run over the plus strand alone. */
  lemma PlusOutput(bamPath: string, outputPrefix: string)
    ensures StrandOutput(bamPath, OutputPrefixes(outputPrefix, Forward), PLUS, Member(Bedgraph), DEFAULT_OPTIONS)
            == Success(outputPrefix + ".plus.bedgraph")
    ensures CollectOutputs(bamPath, OutputPrefixes(outputPrefix, Forward), [PLUS], Member(Bedgraph), DEFAULT_OPTIONS)
            == Success([outputPrefix + ".plus.bedgraph"])
  {
    var prefixes := OutputPrefixes(outputPrefix, Forward);
    DefaultsPassChecks(bamPath, PLUS, prefixes[PLUS]);
    assert (outputPrefix + ".plus") + ".bedgraph" == outputPrefix + ".plus.bedgraph";
    assert StrandOutput(bamPath, prefixes, PLUS, Member(Bedgraph), DEFAULT_OPTIONS)
           == Success(outputPrefix + ".plus.bedgraph");
    assert [PLUS][..0] == [];
    assert CollectOutputs(bamPath, prefixes, [], Member(Bedgraph), DEFAULT_OPTIONS) == Success([]);
    assert [] + [outputPrefix + ".plus.bedgraph"] == [outputPrefix + ".plus.bedgraph"];
  }

  /** The forward minus strand's pass. */
  lemma MinusOutput(bamPath: string, outputPrefix: string)
    ensures StrandOutput(bamPath, OutputPrefixes(outputPrefix, Forward), MINUS, Member(Bedgraph), DEFAULT_OPTIONS)
            == Success(outputPrefix + ".minus.bedgraph")
  {
    var prefixes := OutputPrefixes(outputPrefix, Forward);
    DefaultsPassChecks(bamPath, MINUS, prefixes[MINUS]);
    assert (outputPrefix + ".minus") + ".bedgraph" == outputPrefix + ".minus.bedgraph";
  }

  /** A requested strand that is not + or - fails with the lookup's key error. */
  lemma UnknownStrandIsKeyError(bamPath: string, outputPrefix: string)
    ensures Rnabam2covOutcome(bamPath, "forward", outputPrefix, ["invalid"], Member(Bedgraph), DEFAULT_OPTIONS)
            == Failure(MissingPrefix("invalid"))
  {
    assert "invalid" !in STRANDS by {
      assert "invalid" != PLUS && "invalid" != MINUS;
    }
    assert ["invalid"][..0] == [];
  }

  /** The command-line arguments main reads, once argparse has produced them. */
  datatype Args = Args(
    input: string,
    libtype: string,
    outputPrefix: string,
    strand: seq<string>,
    split: bool,
    pc: bool,
    fs: bool,
    du: bool,
    ignoreD: bool,
    scale: real,
    bg: bool,
    bga: bool,
    maxDepth: Option<int>,
    fivePrime: bool,
    threePrime: bool,
    trackline: bool,
    trackopts: Option<string>)

  /** main's choice of report mode: bedgraph with zero-coverage regions exactly when --bga. */
  method ReportModes(bgaFlag: bool) returns (bg: bool, bga: bool)
    ensures bga == bgaFlag
    ensures bg != bga
  {
    if bgaFlag {
      bg := false;
      bga := true;
    } else {
      bg := true;
      bga := false;
    }
  }

  /** The options main hands to rnabam2cov for a report mode. */
  function MainOptions(args: Args, bg: bool, bga: bool): (o: Options)
    ensures o.bg == bg && o.bga == bga
    ensures OptionsAccepted(o) <==> bg != bga && !(args.fivePrime && args.threePrime)
  {
    Options(args.split, args.pc, args.fs, args.du, args.ignoreD, args.scale, bg, bga,
            args.maxDepth, args.fivePrime, args.threePrime, args.trackline, args.trackopts)
  }

  /** What main's try block ends with: the missing-input error, or rnabam2cov's outcome. */
  function MainOutcome(args: Args, inputExists: bool): (r: Result<seq<string>>)
    ensures !inputExists ==> r == Failure(InputNotFound(args.input))
    ensures r.Failure? ==> r.error != BgAndBgaBothSet && r.error != NeitherBgNorBga
  {
    if !inputExists then Failure(InputNotFound(args.input))
    else
      var o := MainOptions(args, !args.bga, args.bga);
      var r := Rnabam2covOutcome(args.input, args.libtype, args.outputPrefix, args.strand, Member(Bedgraph), o);
      assert r.Failure? ==> r.error != BgAndBgaBothSet && r.error != NeitherBgNorBga by {
        if r.Failure? && FromValue(args.libtype).Some? {
          var prefixes := OutputPrefixes(args.outputPrefix, FromValue(args.libtype).value);
          FirstFailure(args.input, prefixes, args.strand, Member(Bedgraph), o);
        }
      }
      r
  }

  /** main: the input must exist; then the report mode is normalised and rnabam2cov runs. */
  method RunMain(args: Args, inputExists: bool) returns (r: Result<seq<string>>)
    ensures r == MainOutcome(args, inputExists)
  {
    if !inputExists {
      return Failure(InputNotFound(args.input));
    }
    var bg, bga := ReportModes(args.bga);
    var o := MainOptions(args, bg, bga);
    r := Rnabam2cov(args.input, args.libtype, args.outputPrefix, args.strand, Member(Bedgraph), o);
  }

  /** The --bg flag has no effect: main derives the report mode from --bga alone. */
  lemma BgFlagIgnored(args: Args, inputExists: bool, bg: bool)
    ensures MainOutcome(args.(bg := bg), inputExists) == MainOutcome(args, inputExists)
  {
  }

  /**
   * Arguments argparse accepts (a member label, strands among + and -, at most one of
   * --five-prime and --three-prime) with an existing input always succeed, one file per strand.
   */
  lemma AcceptedArgsSucceed(args: Args)
    requires args.libtype == "forward" || args.libtype == "reverse"
    requires forall i :: 0 <= i < |args.strand| ==> args.strand[i] in STRANDS
    requires !(args.fivePrime && args.threePrime)
    ensures MainOutcome(args, true).Success?
    ensures |MainOutcome(args, true).value| == |args.strand|
    ensures forall i :: 0 <= i < |args.strand| ==>
              MainOutcome(args, true).value[i]
              == OutputPrefixes(args.outputPrefix, FromValue(args.libtype).value)[args.strand[i]] + ".bedgraph"
  {
    var o := MainOptions(args, !args.bga, args.bga);
    RunSucceedsIff(args.input, args.libtype, args.outputPrefix, args.strand, Member(Bedgraph), o);
  }
}
