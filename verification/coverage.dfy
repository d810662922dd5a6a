/**
 * Coverage requests: the option checks of get_stranded_bedgraph, the keyword map it hands to
 * the genome-coverage tool, and the path the result is saved under. The tool call and the save
 * are not modelled; a successful request is described by the CoverageCall it would make.
 */
module Coverage {
  import opened Results

  /** The output file types; `Value` is the extension without its leading dot. */
  datatype FileType = Bedgraph {
    function Value(): string {
      match this
      case Bedgraph => "bedgraph"
    }
  }

  /** What a caller passes as file_type: a FileType member or any other value (by its text). */
  datatype FileTypeArg = Member(fileType: FileType) | Other(repr: string)

  /** get_file_extension: the extension table agrees with the enum's values. */
  function FileExtension(ft: FileType): (ext: string)
    ensures ext == ft.Value()
    ensures |ext| > 0 && ext[0] != '.'
  {
    match ft
    case Bedgraph => "bedgraph"
  }

  /** The keyword arguments of get_stranded_bedgraph after bam_path, strand and output_prefix. */
  datatype Options = Options(
    split: bool,
    pc: bool,
    fs: bool,
    du: bool,
    ignoreD: bool,
    scale: real,
    bg: bool,
    bga: bool,
    maxDepth: Option<int>,
    fivePrime: bool,
    threePrime: bool,
    trackline: bool,
    trackopts: Option<string>)

  /** The defaults of get_stranded_bedgraph's signature. */
  const DEFAULT_OPTIONS: Options :=
    Options(true, false, false, true, false, 1.0, true, false, None, false, false, false, None)

  /** A value of the keyword map: the tool receives strings, flags, a float and an integer. */
  datatype KwValue = Str(s: string) | Flag(b: bool) | Real(r: real) | Int(i: int)

  /** The keys the keyword map can hold; `Name` is the keyword the tool receives. */
  datatype Key =
    | Strand | Split | Pc | Fs | Du | IgnoreD | Scale | Bg | Bga | Max
    | FivePrime | ThreePrime | Trackline | Trackopts
  {
    function Name(): string {
      match this
      case Strand => "strand"
      case Split => "split"
      case Pc => "pc"
      case Fs => "fs"
      case Du => "du"
      case IgnoreD => "ignoreD"
      case Scale => "scale"
      case Bg => "bg"
      case Bga => "bga"
      case Max => "max"
      case FivePrime => "5"
      case ThreePrime => "3"
      case Trackline => "trackline"
      case Trackopts => "trackopts"
    }

    /** The position at which get_stranded_bedgraph considers this key. */
    function Rank(): nat {
      match this
      case Strand => 0
      case Split => 1
      case Pc => 2
      case Fs => 3
      case Du => 4
      case IgnoreD => 5
      case Scale => 6
      case Bg => 7
      case Bga => 8
      case Max => 9
      case FivePrime => 10
      case ThreePrime => 11
      case Trackline => 12
      case Trackopts => 13
    }
  }

  const KEY_COUNT: nat := 14

  /** The key considered at position `i`. */
  function KeyAt(i: nat): (k: Key)
    requires i < KEY_COUNT
    ensures k.Rank() == i
  {
    if i == 0 then Strand
    else if i == 1 then Split
    else if i == 2 then Pc
    else if i == 3 then Fs
    else if i == 4 then Du
    else if i == 5 then IgnoreD
    else if i == 6 then Scale
    else if i == 7 then Bg
    else if i == 8 then Bga
    else if i == 9 then Max
    else if i == 10 then FivePrime
    else if i == 11 then ThreePrime
    else if i == 12 then Trackline
    else Trackopts
  }

  /** Every key has a rank below KEY_COUNT, and no two keys share one. */
  lemma RanksAreOrder(k: Key)
    ensures k.Rank() < KEY_COUNT && KeyAt(k.Rank()) == k
  {
  }

  /** The genome-coverage call a valid request makes, and the path its result is saved to. */
  datatype CoverageCall = CoverageCall(bamPath: string, kwargs: map<Key, KwValue>, outputPath: string)

  const STRANDS: set<string> := {"+", "-"}

  /** Python truthiness of `max_depth`: None and 0 are false. */
  predicate MaxDepthSet(d: Option<int>) {
    d.Some? && d.value != 0
  }

  /** Python truthiness of `trackopts`: None and the empty string are false. */
  predicate TrackoptsSet(t: Option<string>) {
    t.Some? && t.value != ""
  }

  function FlagEntry(on: bool): Option<KwValue> {
    if on then Some(Flag(true)) else None
  }

  /** The entry, if any, that one key receives. */
  function Entry(key: Key, strand: string, o: Options): Option<KwValue> {
    match key
    case Strand => Some(Str(strand))
    case Split => FlagEntry(o.split)
    case Pc => FlagEntry(o.pc)
    case Fs => FlagEntry(o.fs)
    case Du => FlagEntry(o.du)
    case IgnoreD => FlagEntry(o.ignoreD)
    case Scale => if o.scale != 1.0 then Some(Real(o.scale)) else None
    case Bg => FlagEntry(o.bg)
    case Bga => FlagEntry(o.bga)
    case Max => if MaxDepthSet(o.maxDepth) then Some(Int(o.maxDepth.value)) else None
    case FivePrime => FlagEntry(o.fivePrime)
    case ThreePrime => FlagEntry(o.threePrime)
    case Trackline => FlagEntry(o.trackline)
    case Trackopts => if TrackoptsSet(o.trackopts) then Some(Str(o.trackopts.value)) else None
  }

  /**
   * What each key receives: the strand always, as text; scale, as a number, exactly when it is
   * not 1.0; max, as a non-zero integer, exactly when max_depth is truthy; trackopts, as
   * non-empty text, exactly when it is truthy; every other key, as the flag True, exactly when
   * its option is set.
   */
  lemma EntryValues(key: Key, strand: string, o: Options)
    ensures key == Strand ==> Entry(key, strand, o) == Some(Str(strand))
    ensures Entry(key, strand, o).Some? && key !in {Strand, Scale, Max, Trackopts}
            ==> Entry(key, strand, o).value == Flag(true)
    ensures key == Scale && Entry(key, strand, o).Some?
            ==> Entry(key, strand, o).value == Real(o.scale) && o.scale != 1.0
    ensures key == Max && Entry(key, strand, o).Some?
            ==> Entry(key, strand, o).value.Int? && Entry(key, strand, o).value.i != 0
    ensures key == Trackopts && Entry(key, strand, o).Some?
            ==> Entry(key, strand, o).value.Str? && Entry(key, strand, o).value.s != ""
    ensures key == Scale ==> (Entry(key, strand, o).Some? <==> o.scale != 1.0)
    ensures key == Max ==> (Entry(key, strand, o).Some? <==> MaxDepthSet(o.maxDepth))
    ensures key == Trackopts ==> (Entry(key, strand, o).Some? <==> TrackoptsSet(o.trackopts))
    ensures key == Split ==> (Entry(key, strand, o).Some? <==> o.split)
    ensures key == Pc ==> (Entry(key, strand, o).Some? <==> o.pc)
    ensures key == Fs ==> (Entry(key, strand, o).Some? <==> o.fs)
    ensures key == Du ==> (Entry(key, strand, o).Some? <==> o.du)
    ensures key == IgnoreD ==> (Entry(key, strand, o).Some? <==> o.ignoreD)
    ensures key == Bg ==> (Entry(key, strand, o).Some? <==> o.bg)
    ensures key == Bga ==> (Entry(key, strand, o).Some? <==> o.bga)
    ensures key == FivePrime ==> (Entry(key, strand, o).Some? <==> o.fivePrime)
    ensures key == ThreePrime ==> (Entry(key, strand, o).Some? <==> o.threePrime)
    ensures key == Trackline ==> (Entry(key, strand, o).Some? <==> o.trackline)
  {
  }

  /** One `if ...: kwargs[key] = value` of get_stranded_bedgraph: the map with the entry, if one is due. */
  function Put(kw: map<Key, KwValue>, key: Key, e: Option<KwValue>): map<Key, KwValue> {
    match e
    case Some(v) => kw[key := v]
    case None => kw
  }

  /** The keyword map once the keys of rank below `n` have been considered. */
  function Filled(strand: string, o: Options, n: nat): (kw: map<Key, KwValue>)
    requires n <= KEY_COUNT
  {
    if n == 0 then map[]
    else Put(Filled(strand, o, n - 1), KeyAt(n - 1), Entry(KeyAt(n - 1), strand, o))
  }

  /** After the keys of rank below `n`, the map holds exactly the entries of those keys. */
  lemma {:induction false} FilledHoldsEntry(strand: string, o: Options, n: nat, k: Key)
    requires n <= KEY_COUNT
    ensures k in Filled(strand, o, n) <==> k.Rank() < n && Entry(k, strand, o).Some?
    ensures k in Filled(strand, o, n) ==> Filled(strand, o, n)[k] == Entry(k, strand, o).value
  {
    if n > 0 {
      FilledHoldsEntry(strand, o, n - 1, k);
      RanksAreOrder(k);
      var key := KeyAt(n - 1);
      assert Filled(strand, o, n) == Put(Filled(strand, o, n - 1), key, Entry(key, strand, o));
      assert k == key <==> k.Rank() == n - 1;
    }
  }

  /** `kw` holds the entry `key` is due, and nothing under `key` otherwise. */
  predicate HoldsEntry(kw: map<Key, KwValue>, key: Key, strand: string, o: Options) {
    (key in kw <==> Entry(key, strand, o).Some?) && (key in kw ==> kw[key] == Entry(key, strand, o).value)
  }

  /** Once every key has been considered, each key holds exactly its due entry. */
  lemma FilledComplete(strand: string, o: Options)
    ensures forall k :: HoldsEntry(Filled(strand, o, KEY_COUNT), k, strand, o)
  {
    forall k
      ensures HoldsEntry(Filled(strand, o, KEY_COUNT), k, strand, o)
    {
      FilledHoldsEntry(strand, o, KEY_COUNT, k);
      RanksAreOrder(k);
    }
  }

  /**
   * The keyword map get_stranded_bedgraph passes to the tool: `strand` first, then the
   * conditional entries in the order get_stranded_bedgraph adds them.
   */
  function ExpectedKwargs(strand: string, o: Options): (kw: map<Key, KwValue>)
    ensures forall k :: HoldsEntry(kw, k, strand, o)
  {
    FilledComplete(strand, o);
    Filled(strand, o, KEY_COUNT)
  }

  /** No other map holds exactly the due entries: the options determine the keyword map. */
  lemma EntriesDetermineKwargs(kw: map<Key, KwValue>, strand: string, o: Options)
    requires forall k :: HoldsEntry(kw, k, strand, o)
    ensures kw == ExpectedKwargs(strand, o)
  {
    var expected := ExpectedKwargs(strand, o);
    forall k
      ensures (k in kw <==> k in expected) && (k in kw ==> kw[k] == expected[k])
    {
      assert HoldsEntry(kw, k, strand, o) && HoldsEntry(expected, k, strand, o);
    }
  }

  /** The first failed check of get_stranded_bedgraph, in the order it makes them. */
  function RequestError(strand: string, o: Options): (e: Option<Error>)
    ensures e.None? <==> strand in STRANDS && o.bg != o.bga && !(o.fivePrime && o.threePrime)
    ensures strand !in STRANDS ==> e == Some(InvalidStrand(strand))
    ensures strand in STRANDS && o.bg == o.bga
            ==> e == Some(if o.bg then BgAndBgaBothSet else NeitherBgNorBga)
    ensures strand in STRANDS && o.bg != o.bga && o.fivePrime && o.threePrime
            ==> e == Some(FivePrimeAndThreePrime)
  {
    if strand !in STRANDS then Some(InvalidStrand(strand))
    else if o.bg && o.bga then Some(BgAndBgaBothSet)
    else if !o.bg && !o.bga then Some(NeitherBgNorBga)
    else if o.fivePrime && o.threePrime then Some(FivePrimeAndThreePrime)
    else None
  }

  /** The path get_stranded_bedgraph saves to and returns. */
  function OutputPath(outputPrefix: string): (path: string)
    ensures path == outputPrefix + ".bedgraph"
  {
    outputPrefix + "." + FileExtension(Bedgraph)
  }

  /** What get_stranded_bedgraph does: an error, or the tool call it makes and the path it returns. */
  function BedgraphCall(bamPath: string, strand: string, outputPrefix: string, o: Options)
    : (r: Result<CoverageCall>)
    ensures r.Failure? <==> RequestError(strand, o).Some?
    ensures r.Failure? ==> r.error == RequestError(strand, o).value
    ensures r.Success? ==> r.value.bamPath == bamPath && r.value.outputPath == outputPrefix + ".bedgraph"
    ensures r.Success? ==> forall k :: HoldsEntry(r.value.kwargs, k, strand, o)
    ensures r.Success? ==> Strand in r.value.kwargs && r.value.kwargs[Strand] == Str(strand)
    ensures r.Success? ==> (Bg in r.value.kwargs) != (Bga in r.value.kwargs)
    ensures r.Success? ==> !(FivePrime in r.value.kwargs && ThreePrime in r.value.kwargs)
  {
    match RequestError(strand, o)
    case Some(e) => Failure(e)
    case None =>
      var kw := ExpectedKwargs(strand, o);
      assert HoldsEntry(kw, Strand, strand, o) && HoldsEntry(kw, Bg, strand, o) && HoldsEntry(kw, Bga, strand, o);
      assert HoldsEntry(kw, FivePrime, strand, o) && HoldsEntry(kw, ThreePrime, strand, o);
      Success(CoverageCall(bamPath, kw, OutputPath(outputPrefix)))
  }

  /** The checks made with the default options: only the strand can fail. */
  lemma DefaultsPassChecks(bamPath: string, strand: string, outputPrefix: string)
    ensures BedgraphCall(bamPath, strand, outputPrefix, DEFAULT_OPTIONS).Success? <==> strand in STRANDS
    ensures strand in STRANDS ==>
              BedgraphCall(bamPath, strand, outputPrefix, DEFAULT_OPTIONS).value.kwargs
              == map[Strand := Str(strand), Split := Flag(true), Du := Flag(true), Bg := Flag(true)]
  {
    if strand in STRANDS {
      var kw := map[Strand := Str(strand), Split := Flag(true), Du := Flag(true), Bg := Flag(true)];
      forall k
        ensures HoldsEntry(kw, k, strand, DEFAULT_OPTIONS)
      {
        match k
        case Strand => {}
        case Split => {}
        case Pc => {}
        case Fs => {}
        case Du => {}
        case IgnoreD => {}
        case Scale => {}
        case Bg => {}
        case Bga => {}
        case Max => {}
        case FivePrime => {}
        case ThreePrime => {}
        case Trackline => {}
        case Trackopts => {}
      }
      EntriesDetermineKwargs(kw, strand, DEFAULT_OPTIONS);
    }
  }

  /**
   * get_stranded_bedgraph: the checks one after another, then the keyword map, then the output
   * path.
   */
  method GetStrandedBedgraph(bamPath: string, strand: string, outputPrefix: string, o: Options)
    returns (r: Result<CoverageCall>)
    ensures r == BedgraphCall(bamPath, strand, outputPrefix, o)
  {
    if strand !in ["+", "-"] {
      return Failure(InvalidStrand(strand));
    }
    if o.bg && o.bga {
      return Failure(BgAndBgaBothSet);
    }
    if !o.bg && !o.bga {
      return Failure(NeitherBgNorBga);
    }
    if o.fivePrime && o.threePrime {
      return Failure(FivePrimeAndThreePrime);
    }
    var kwargs := ExpectedKwargs(strand, o);
    var outputPath := OutputPath(outputPrefix);
    return Success(CoverageCall(bamPath, kwargs, outputPath));
  }

  /**
   * get_stranded_coverage's dispatch on the file type: a bedgraph request is get_stranded_bedgraph's
   * outcome unchanged; any other value fails before any check.
   */
  function StrandedCoverage(bamPath: string, strand: string, outputPrefix: string, ft: FileTypeArg, o: Options)
    : (r: Result<CoverageCall>)
    ensures ft == Member(Bedgraph) ==> r == BedgraphCall(bamPath, strand, outputPrefix, o)
    ensures ft.Other? ==> r == Failure(UnsupportedFileType(ft.repr))
    ensures r.Success? <==> ft == Member(Bedgraph) && RequestError(strand, o).None?
    ensures r.Success? ==> r.value.outputPath == outputPrefix + ".bedgraph"
  {
    match ft
    case Member(Bedgraph) => BedgraphCall(bamPath, strand, outputPrefix, o)
    case Other(repr) => Failure(UnsupportedFileType(repr))
  }

  /** get_stranded_coverage. */
  method GetStrandedCoverage(bamPath: string, strand: string, outputPrefix: string, ft: FileTypeArg, o: Options)
    returns (r: Result<CoverageCall>)
    ensures r == StrandedCoverage(bamPath, strand, outputPrefix, ft, o)
  {
    if ft == Member(Bedgraph) {
      r := GetStrandedBedgraph(bamPath, strand, outputPrefix, o);
    } else {
      r := Failure(UnsupportedFileType(ft.repr));
    }
  }
}
