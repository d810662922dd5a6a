/** Strand policy: which transcribed strand, and so which output file, each aligned strand feeds. */
module Strandedness {
  import opened Results

  const PLUS: string := "+"
  const MINUS: string := "-"

  /** The RNA-seq library protocols; `Value` is the enum value a label must lower-case to. */
  datatype LibraryType = Forward | Reverse {
    function Value(): string {
      match this
      case Forward => "forward"
      case Reverse => "reverse"
    }
  }

  /** The enum constructor `LibraryType(v)`: the member whose value is exactly `v`. */
  function FromValue(v: string): (r: Option<LibraryType>)
    ensures r.Some? <==> v == "forward" || v == "reverse"
    ensures r.Some? ==> r.value.Value() == v
  {
    if v == "forward" then Some(Forward)
    else if v == "reverse" then Some(Reverse)
    else None
  }

  function LowerChar(c: char): char {
    if 'A' <= c <= 'Z' then (c as int - 'A' as int + 'a' as int) as char else c
  }

  /** `str.lower()` on the ASCII letters; every other character is kept. */
  function Lower(s: string): (r: string)
    ensures |r| == |s|
    ensures forall i :: 0 <= i < |s| ==> r[i] == LowerChar(s[i])
  {
    if s == [] then [] else [LowerChar(s[0])] + Lower(s[1..])
  }

  lemma {:induction false} LowerIdempotent(s: string)
    ensures Lower(Lower(s)) == Lower(s)
  {
    var once := Lower(s);
    var twice := Lower(once);
    assert |twice| == |once|;
    forall i | 0 <= i < |once|
      ensures twice[i] == once[i]
    {
      assert once[i] == LowerChar(s[i]);
    }
  }

  lemma LowerIs(s: string, t: string)
    requires |s| == |t| && forall i :: 0 <= i < |s| ==> LowerChar(s[i]) == t[i]
    ensures Lower(s) == t
  {
    assert forall i :: 0 <= i < |s| ==> Lower(s)[i] == t[i];
  }

  /** `LibraryType(libType.lower())`: the label compared without regard to case. */
  function ParseLibraryType(libType: string): (r: Option<LibraryType>)
    ensures r.Some? <==> Lower(libType) == "forward" || Lower(libType) == "reverse"
    ensures r.Some? ==> r.value.Value() == Lower(libType)
  {
    FromValue(Lower(libType))
  }

  lemma StrandsDistinct()
    ensures PLUS != MINUS
  {
    assert PLUS[0] != MINUS[0];
  }

  /** The aligned-strand to transcribed-strand table of a library type. */
  function StrandMapping(lt: LibraryType): (m: map<string, string>)
    ensures m.Keys == {PLUS, MINUS}
    ensures m[PLUS] in {PLUS, MINUS} && m[MINUS] in {PLUS, MINUS} && m[PLUS] != m[MINUS]
    ensures forall s :: s in m ==> m[s] in m && m[m[s]] == s
    ensures lt == Forward <==> forall s :: s in m ==> m[s] == s
  {
    StrandsDistinct();
    match lt
    case Forward => map[PLUS := PLUS, MINUS := MINUS]
    case Reverse => map[PLUS := MINUS, MINUS := PLUS]
  }

  /** get_strand_mapping: the table for a case-insensitive label, or the enum's ValueError. */
  function GetStrandMapping(libType: string): (r: Result<map<string, string>>)
    ensures r.Success? <==> Lower(libType) == "forward" || Lower(libType) == "reverse"
    ensures r.Failure? ==> r.error == UnknownLibraryType(Lower(libType))
    ensures Lower(libType) == "forward" ==> r == Success(map[PLUS := PLUS, MINUS := MINUS])
    ensures Lower(libType) == "reverse" ==> r == Success(map[PLUS := MINUS, MINUS := PLUS])
  {
    match ParseLibraryType(libType)
    case None => Failure(UnknownLibraryType(Lower(libType)))
    case Some(lt) => Success(StrandMapping(lt))
  }

  /** Any casing of a label selects the same table as its lower-case form. */
  lemma StrandMappingIgnoresCase(libType: string)
    ensures GetStrandMapping(libType) == GetStrandMapping(Lower(libType))
  {
    LowerIdempotent(libType);
  }

  lemma UpperCaseForward()
    ensures GetStrandMapping("FORWARD") == GetStrandMapping("forward")
  {
    LowerIs("FORWARD", "forward");
    LowerIs("forward", "forward");
  }

  lemma UpperCaseReverse()
    ensures GetStrandMapping("REVERSE") == GetStrandMapping("reverse")
  {
    LowerIs("REVERSE", "reverse");
    LowerIs("reverse", "reverse");
  }

  lemma InvalidLabelRejected()
    ensures GetStrandMapping("invalid") == Failure(UnknownLibraryType("invalid"))
  {
    LowerIs("invalid", "invalid");
  }

  /** The output prefix of the file that receives a transcribed strand. */
  function PrefixFor(base: string, transcribed: string): string {
    if transcribed == PLUS then base + ".plus" else base + ".minus"
  }

  /** The plus prefix names exactly the plus transcribed strand; every other strand gets the minus one. */
  lemma PrefixForStrand(base: string, transcribed: string)
    ensures PrefixFor(base, transcribed) == base + ".plus" <==> transcribed == PLUS
    ensures transcribed != PLUS ==> PrefixFor(base, transcribed) == base + ".minus"
  {
    if transcribed != PLUS {
      assert (base + ".minus")[|base| + 1] != (base + ".plus")[|base| + 1];
    }
  }

  /** The prefixes get_output_prefixes returns for a parsed library type. */
  function OutputPrefixes(base: string, lt: LibraryType): (m: map<string, string>)
    ensures m.Keys == {PLUS, MINUS}
    ensures m[PLUS] != m[MINUS]
    ensures {m[PLUS], m[MINUS]} == {base + ".plus", base + ".minus"}
    ensures forall s :: s in m ==> |m[s]| > |base| && m[s][..|base|] == base
    ensures lt == Forward ==> m == map[PLUS := base + ".plus", MINUS := base + ".minus"]
    ensures lt == Reverse ==> m == map[PLUS := base + ".minus", MINUS := base + ".plus"]
  {
    var mapping := StrandMapping(lt);
    map s | s in mapping :: PrefixFor(base, mapping[s])
  }

  /** A map sending each strand of the table to its prefix is the prefix map. */
  lemma PrefixesFromMapping(base: string, lt: LibraryType, m: map<string, string>)
    requires m.Keys == StrandMapping(lt).Keys
    requires forall g :: g in m ==> m[g] == PrefixFor(base, StrandMapping(lt)[g])
    ensures m == OutputPrefixes(base, lt)
  {
  }

  /** get_output_prefixes: fills the prefix dictionary one aligned strand at a time. */
  method GetOutputPrefixes(base: string, libType: string) returns (r: Result<map<string, string>>)
    ensures r.Failure? <==> ParseLibraryType(libType).None?
    ensures r.Failure? ==> r.error == UnknownLibraryType(Lower(libType))
    ensures r.Success? ==> r.value == OutputPrefixes(base, ParseLibraryType(libType).value)
  {
    var found := GetStrandMapping(libType);
    if found.Failure? {
      return Failure(found.error);
    }
    ghost var lt := ParseLibraryType(libType).value;
    var mapping := found.value;
    assert mapping == StrandMapping(lt);
    var prefixes: map<string, string> := map[];
    var pending := mapping.Keys;
    while pending != {}
      invariant pending <= mapping.Keys
      invariant prefixes.Keys == mapping.Keys - pending
      invariant forall g :: g in prefixes ==> prefixes[g] == PrefixFor(base, mapping[g])
      decreases pending
    {
      var genomic :| genomic in pending;
      if mapping[genomic] == PLUS {
        prefixes := prefixes[genomic := base + ".plus"];
      } else {
        prefixes := prefixes[genomic := base + ".minus"];
      }
      pending := pending - {genomic};
    }
    PrefixesFromMapping(base, lt, prefixes);
    return Success(prefixes);
  }
}
