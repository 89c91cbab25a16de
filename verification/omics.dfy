/** The four omic types the simulator recognises and the feature-naming rule
    of `_create_feature_names`: a type-specific prefix followed by the 1-based
    feature index, zero-padded by `str.zfill` to a type-specific width. */
module Omics {
  import opened Outcomes
  import opened Text

  datatype Omic = Transcriptomics | Proteomics | Metabolomics | Methylation

  const TranscriptomicsKey: string := "transcriptomics"
  const ProteomicsKey: string := "proteomics"
  const MetabolomicsKey: string := "metabolomics"
  const MethylationKey: string := "methylation"

  /** The dictionary key under which an omic is configured. */
  function Key(o: Omic): string {
    match o
    case Transcriptomics => TranscriptomicsKey
    case Proteomics => ProteomicsKey
    case Metabolomics => MetabolomicsKey
    case Methylation => MethylationKey
  }

  /** The string comparison chain of `_create_feature_names`: which omic, if
      any, a configuration key names. */
  function OmicOf(key: string): (r: Option<Omic>)
    ensures r.Some? ==> Key(r.value) == key
    ensures r.None? <==> forall o: Omic :: Key(o) != key
  {
    if key == TranscriptomicsKey then Some(Transcriptomics)
    else if key == ProteomicsKey then Some(Proteomics)
    else if key == MetabolomicsKey then Some(Metabolomics)
    else if key == MethylationKey then Some(Methylation)
    else None
  }

  function Prefix(o: Omic): string {
    match o
    case Transcriptomics => "ENSG"
    case Proteomics => "PROT"
    case Metabolomics => "HMDB"
    case Methylation => "cg"
  }

  /** The argument passed to `zfill` for each omic. */
  function Width(o: Omic): nat {
    match o
    case Transcriptomics => 11
    case Proteomics => 6
    case Metabolomics => 7
    case Methylation => 8
  }

  /** The name of feature `i` (1-based): the prefix, then `str(i).zfill(width)`. */
  function FeatureName(o: Omic, i: nat): (name: string)
    ensures |name| == |Prefix(o)| + Max(Width(o), |Decimal(i)|)
    ensures name[..|Prefix(o)|] == Prefix(o)
    ensures IsDigits(name[|Prefix(o)|..])
  {
    var name := Prefix(o) + ZFill(Decimal(i), Width(o));
    assert name[|Prefix(o)|..] == ZFill(Decimal(i), Width(o));
    name
  }

  /** Reads a feature index back out of a name carrying the omic's prefix. */
  function ParseFeatureName(o: Omic, name: string): Option<nat> {
    var p := Prefix(o);
    if |name| > |p| && name[..|p|] == p && IsDigits(name[|p|..]) then
      Some(ParseDecimal(name[|p|..]))
    else
      None
  }

  /** The names for features 1 .. n, in order; as with `range(1, n + 1)`, a
      count of zero or less gives no names at all. */
  function FeatureNames(o: Omic, n: int): (names: seq<string>)
    ensures |names| == Max(n, 0)
    ensures forall k :: 0 <= k < |names| ==> names[k] == FeatureName(o, k + 1)
    decreases Max(n, 0)
  {
    if n <= 0 then [] else FeatureNames(o, n - 1) + [FeatureName(o, n)]
  }

  /** The index can be read back from every feature name: padding never
      truncates and leading zeros carry no value. */
  lemma FeatureNameRoundTrip(o: Omic, i: nat)
    ensures ParseFeatureName(o, FeatureName(o, i)) == Some(i)
  {
    var p := Prefix(o);
    var d := Decimal(i);
    var z := ZFill(d, Width(o));
    var name := FeatureName(o, i);
    assert name == p + z;
    assert name[|p|..] == z;
    ParseIgnoresLeadingZeros(|z| - |d|, d);
    ParseDecimalOfDecimal(i);
  }

  /** Within one omic, different indices give different names. */
  lemma FeatureNameInjective(o: Omic, i: nat, j: nat)
    ensures FeatureName(o, i) == FeatureName(o, j) ==> i == j
  {
    FeatureNameRoundTrip(o, i);
    FeatureNameRoundTrip(o, j);
  }

  /** Names of different omics never coincide: the prefixes already differ in
      their first character. */
  lemma FeatureNamesOfDistinctOmics(o1: Omic, o2: Omic, i: nat, j: nat)
    requires o1 != o2
    ensures FeatureName(o1, i) != FeatureName(o2, j)
  {
    var a := FeatureName(o1, i);
    var b := FeatureName(o2, j);
    assert a[0] == Prefix(o1)[0] by { assert a[..|Prefix(o1)|] == Prefix(o1); }
    assert b[0] == Prefix(o2)[0] by { assert b[..|Prefix(o2)|] == Prefix(o2); }
  }

  /** While the index fits in the pad width, every name has the same length. */
  lemma FeatureNameFixedLength(o: Omic, i: nat)
    requires i < Pow10(Width(o))
    ensures |FeatureName(o, i)| == |Prefix(o)| + Width(o)
  {
    DecimalLengthBound(i, Width(o));
  }

  /** The generated list of names has no repetitions. */
  lemma FeatureNamesDistinct(o: Omic, n: int)
    ensures forall a, b :: 0 <= a < b < |FeatureNames(o, n)| ==> FeatureNames(o, n)[a] != FeatureNames(o, n)[b]
  {
    var names := FeatureNames(o, n);
    forall a, b | 0 <= a < b < |names| ensures names[a] != names[b] {
      FeatureNameInjective(o, a + 1, b + 1);
    }
  }
}
