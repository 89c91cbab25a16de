/** `MultiOmicsSimulator`: the configuration captured by `__init__`, the
    feature-name dictionary of `_create_feature_names`, and `simulate_data`,
    which draws one matrix per configured omic, labels it, and builds the
    sample metadata table.

    The random generator is not modelled. `draws(key, call, i, j)` stands for
    the value the seeded generator yields at cell (i, j) of the draw `call`
    made for omic `key`; for a fixed seed and configuration every draw is
    fixed, so the whole output is a function of the configuration and
    `draws`. */
module Simulator {
  import opened Outcomes
  import opened Text
  import opened Omics
  import opened Matrices
  import opened Metadata

  /** Keys of a Python dict are pairwise distinct. */
  predicate DistinctKeys(entries: seq<(string, int)>) {
    forall a, b :: 0 <= a < b < |entries| ==> entries[a].0 != entries[b].0
  }

  /** The `n_features` dictionary, in its iteration (insertion) order. */
  type FeatureCounts = entries: seq<(string, int)> | DistinctKeys(entries) witness []

  function Keys(entries: seq<(string, int)>): set<string> {
    set k | 0 <= k < |entries| :: entries[k].0
  }

  const DefaultFeatureCounts: FeatureCounts :=
    [(TranscriptomicsKey, 3234), (ProteomicsKey, 2187), (MetabolomicsKey, 129), (MethylationKey, 1110)]

  /** The state `__init__` stores: the two group sizes and the feature counts.
      `total_samples` is their sum. */
  datatype Simulator = Simulator(groupSizes: (int, int), features: FeatureCounts) {

    function Total(): int {
      groupSizes.0 + groupSizes.1
    }
  }

  /** Python truthiness of the `n_features` argument: `None` and the empty
      dict are false. */
  predicate Falsy(nFeatures: Option<FeatureCounts>) {
    nFeatures.None? || nFeatures.value == []
  }

  /** The defaults of `__init__`'s other two parameters. */
  const DefaultGroupSizes: (int, int) := (100, 100)
  const DefaultSeed: int := 42

  /** `np.random.seed` accepts exactly the integers 0 .. 2**32 - 1. */
  const SeedLimit: int := 0x1_0000_0000

  /** `__init__`. An omitted argument (`None` here) takes its default. The
      seed is checked first, by `np.random.seed`; it selects the random
      draws and is not stored. `n_features or {default}` takes the
      four-entry default map when the argument is falsy and otherwise keeps
      the given map exactly, without filling in missing omics from the
      defaults. */
  function NewSimulator(groupSizes: Option<(int, int)>, nFeatures: Option<FeatureCounts>, seed: Option<int>): (r: Result<Simulator>)
    ensures r.Success? <==> seed.None? || 0 <= seed.value < SeedLimit
    ensures r.Failure? ==> r.error == InvalidSeed
    ensures r.Success? && groupSizes.None? ==> r.value.groupSizes == DefaultGroupSizes
    ensures r.Success? && groupSizes.Some? ==> r.value.groupSizes == groupSizes.value
    ensures r.Success? ==> |r.value.features| > 0
    ensures r.Success? && Falsy(nFeatures) ==> r.value.features == DefaultFeatureCounts
    ensures r.Success? && !Falsy(nFeatures) ==> r.value.features == nFeatures.value
  {
    var s := if seed.Some? then seed.value else DefaultSeed;
    if s < 0 || s >= SeedLimit then Failure(InvalidSeed)
    else
      var sizes := if groupSizes.Some? then groupSizes.value else DefaultGroupSizes;
      var features := if Falsy(nFeatures) then DefaultFeatureCounts else nFeatures.value;
      Success(Simulator(sizes, features))
  }

  /** `MultiOmicsSimulator()` with every argument omitted: 100 samples per
      group, the default feature counts, and a run that succeeds. */
  lemma DefaultSimulatorRuns(draws: Draws)
    ensures NewSimulator(None, None, None) == Success(Simulator(DefaultGroupSizes, DefaultFeatureCounts))
    ensures SimulateData(NewSimulator(None, None, None).value, draws).Success?
  {
    var sim := Simulator(DefaultGroupSizes, DefaultFeatureCounts);
    DefaultFeatureCountsCoverOmics();
    assert Runnable(sim);
    RunnableSucceeds(sim, draws);
  }

  /** The default map configures each of the four omics exactly once. */
  lemma DefaultFeatureCountsCoverOmics()
    ensures |DefaultFeatureCounts| == 4
    ensures forall o: Omic :: Key(o) in Keys(DefaultFeatureCounts)
    ensures forall key :: key in Keys(DefaultFeatureCounts) ==> OmicOf(key).Some?
  {
    var d := DefaultFeatureCounts;
    forall o: Omic ensures Key(o) in Keys(d) {
      match o
      case Transcriptomics => assert d[0].0 == Key(o);
      case Proteomics => assert d[1].0 == Key(o);
      case Metabolomics => assert d[2].0 == Key(o);
      case Methylation => assert d[3].0 == Key(o);
    }
  }

  /** `_create_feature_names`: a name list for every recognised omic key; an
      unrecognised key is skipped silently and gets no entry. */
  function CreateFeatureNames(features: FeatureCounts): (names: map<string, seq<string>>)
    ensures forall key :: key in names <==> key in Keys(features) && OmicOf(key).Some?
    ensures forall k :: 0 <= k < |features| && OmicOf(features[k].0).Some? ==>
      names[features[k].0] == FeatureNames(OmicOf(features[k].0).value, features[k].1)
    decreases |features|
  {
    if features == [] then map[]
    else
      var tail: FeatureCounts := features[1..];
      assert Keys(features) == {features[0].0} + Keys(tail) by {
        forall key | key in Keys(features) ensures key == features[0].0 || key in Keys(tail) {
          var k :| 0 <= k < |features| && features[k].0 == key;
          if k > 0 { assert tail[k - 1].0 == key; }
        }
        forall key | key in Keys(tail) ensures key in Keys(features) {
          var k :| 0 <= k < |tail| && tail[k].0 == key;
          assert features[k + 1].0 == key;
        }
      }
      var rest := CreateFeatureNames(tail);
      assert forall k :: 1 <= k < |features| ==> features[k] == tail[k - 1];
      match OmicOf(features[0].0)
      case None => rest
      case Some(o) => rest[features[0].0 := FeatureNames(o, features[0].1)]
  }

  const SamplePrefix: string := "Sample_"

  function SampleName(i: nat): string {
    SamplePrefix + Decimal(i)
  }

  /** `Sample_1 .. Sample_N`, in order; empty when N is zero or less. */
  function SampleNames(total: int): (names: seq<string>)
    ensures |names| == Max(total, 0)
    ensures forall k :: 0 <= k < |names| ==> names[k] == SampleName(k + 1)
    decreases Max(total, 0)
  {
    if total <= 0 then [] else SampleNames(total - 1) + [SampleName(total)]
  }

  /** Sample names are pairwise distinct, so they can serve as the join key. */
  lemma SampleNamesDistinct(total: int)
    ensures forall a, b :: 0 <= a < b < |SampleNames(total)| ==> SampleNames(total)[a] != SampleNames(total)[b]
  {
    var names := SampleNames(total);
    forall a, b | 0 <= a < b < |names| ensures names[a] != names[b] {
      var x := SampleName(a + 1);
      var y := SampleName(b + 1);
      if x == y {
        assert x[|SamplePrefix|..] == Decimal(a + 1);
        assert y[|SamplePrefix|..] == Decimal(b + 1);
        DecimalInjective(a + 1, b + 1);
      }
    }
  }

  /** The three random draws `simulate_data` makes: Poisson(5) for the control
      block and Poisson(5.5) for the treatment block of transcriptomics, and a
      standard normal for the whole matrix of every other omic. */
  datatype DrawCall = PoissonControl | PoissonTreatment | StandardNormal

  type Draws = (string, DrawCall, nat, nat) -> real

  /** The constant added to the treatment columns of a continuous omic. */
  const GroupEffect: real := 0.5

  /** The unlabelled matrix drawn for one configured omic with `n` features. */
  function OmicValues(sim: Simulator, key: string, n: int, draws: Draws): (r: Result<Matrix>)
    ensures r.Success? <==> n >= 0 && if key == TranscriptomicsKey then sim.groupSizes.0 >= 0 && sim.groupSizes.1 >= 0 else sim.Total() >= 0
    ensures r.Failure? ==> r.error == NegativeSize
    ensures r.Success? ==> r.value.Valid() && r.value.rows == n && r.value.cols == sim.Total()
    ensures r.Success? && key == TranscriptomicsKey ==>
      forall i, j :: 0 <= i < n && 0 <= j < sim.Total() ==>
        r.value.cells[i][j] == if j < sim.groupSizes.0 then draws(key, PoissonControl, i, j)
                               else draws(key, PoissonTreatment, i, j - sim.groupSizes.0)
    ensures r.Success? && key != TranscriptomicsKey ==>
      forall i, j :: 0 <= i < n && 0 <= j < sim.Total() ==>
        r.value.cells[i][j] == if j >= SliceStart(sim.groupSizes.0, sim.Total()) then draws(key, StandardNormal, i, j) + GroupEffect
                               else draws(key, StandardNormal, i, j)
  {
    var (g0, g1) := sim.groupSizes;
    if key == TranscriptomicsKey then
      if n < 0 || g0 < 0 || g1 < 0 then Failure(NegativeSize)
      else
        var control := Fill(n, g0, (i: nat, j: nat) => draws(key, PoissonControl, i, j));
        var treatment := Fill(n, g1, (i: nat, j: nat) => draws(key, PoissonTreatment, i, j));
        Success(ConcatColumns(control, treatment))
    else if n < 0 || g0 + g1 < 0 then Failure(NegativeSize)
    else
      Success(ShiftColumnsFrom(Fill(n, g0 + g1, (i: nat, j: nat) => draws(key, StandardNormal, i, j)), g0, GroupEffect))
  }

  /** One iteration of the loop in `simulate_data`: draw the omic's matrix,
      then label it with its feature names and the sample names. The lookup
      of the feature names fails for an omic `_create_feature_names` skipped. */
  function SimulateOmic(sim: Simulator, key: string, n: int, names: map<string, seq<string>>,
                        samples: seq<string>, draws: Draws): (r: Result<Frame>)
    ensures r.Success? <==> OmicValues(sim, key, n, draws).Success? && key in names && |names[key]| == n && |samples| == sim.Total()
    ensures r.Failure? && OmicValues(sim, key, n, draws).Failure? ==> r.error == NegativeSize
    ensures r.Failure? && OmicValues(sim, key, n, draws).Success? && key !in names ==> r.error == UnknownOmic(key)
    ensures r.Failure? && OmicValues(sim, key, n, draws).Success? && key in names ==> r.error == ShapeMismatch
    ensures r.Success? ==> r.value.index == names[key] && r.value.columns == samples && r.value.values == OmicValues(sim, key, n, draws).value
  {
    var values :- OmicValues(sim, key, n, draws);
    if key !in names then Failure(UnknownOmic(key)) else Label(values, names[key], samples)
  }

  /** The loop of `simulate_data` over the configured omics, in order. The
      first omic that raises ends the run with its error. */
  function AssembleData(sim: Simulator, entries: seq<(string, int)>, names: map<string, seq<string>>,
                        samples: seq<string>, draws: Draws): (r: Result<seq<(string, Frame)>>)
    ensures r.Success? <==> forall k :: 0 <= k < |entries| ==> SimulateOmic(sim, entries[k].0, entries[k].1, names, samples, draws).Success?
    ensures r.Success? ==> |r.value| == |entries|
    ensures r.Success? ==> forall k :: 0 <= k < |entries| ==>
      r.value[k] == (entries[k].0, SimulateOmic(sim, entries[k].0, entries[k].1, names, samples, draws).value)
    decreases |entries|
  {
    if entries == [] then Success([])
    else
      match SimulateOmic(sim, entries[0].0, entries[0].1, names, samples, draws)
      case Failure(e) => Failure(e)
      case Success(frame) =>
        match AssembleData(sim, entries[1..], names, samples, draws)
        case Failure(e) => Failure(e)
        case Success(rest) => Success([(entries[0].0, frame)] + rest)
  }

  /** The error of a failed loop is the error of the first omic that fails. */
  lemma {:induction false} AssembleDataFirstError(sim: Simulator, entries: seq<(string, int)>, names: map<string, seq<string>>,
                                                  samples: seq<string>, draws: Draws, k: nat)
    requires k < |entries|
    requires forall k' :: 0 <= k' < k ==> SimulateOmic(sim, entries[k'].0, entries[k'].1, names, samples, draws).Success?
    requires SimulateOmic(sim, entries[k].0, entries[k].1, names, samples, draws).Failure?
    ensures AssembleData(sim, entries, names, samples, draws) ==
      Failure(SimulateOmic(sim, entries[k].0, entries[k].1, names, samples, draws).error)
    decreases k
  {
    if k > 0 {
      var tail := entries[1..];
      assert forall k' :: 0 <= k' < |tail| ==> tail[k'] == entries[k' + 1];
      AssembleDataFirstError(sim, tail, names, samples, draws, k - 1);
    }
  }

  /** A failing loop fails with the error of one of its entries. */
  lemma {:induction false} AssembleDataErrorOfEntry(sim: Simulator, entries: seq<(string, int)>, names: map<string, seq<string>>,
                                                    samples: seq<string>, draws: Draws)
    requires AssembleData(sim, entries, names, samples, draws).Failure?
    ensures exists k ::
      && 0 <= k < |entries|
      && SimulateOmic(sim, entries[k].0, entries[k].1, names, samples, draws).Failure?
      && AssembleData(sim, entries, names, samples, draws).error == SimulateOmic(sim, entries[k].0, entries[k].1, names, samples, draws).error
    decreases |entries|
  {
    var head := SimulateOmic(sim, entries[0].0, entries[0].1, names, samples, draws);
    if head.Success? {
      var tail := entries[1..];
      AssembleDataErrorOfEntry(sim, tail, names, samples, draws);
      var k :| 0 <= k < |tail| &&
        SimulateOmic(sim, tail[k].0, tail[k].1, names, samples, draws).Failure? &&
        AssembleData(sim, tail, names, samples, draws).error == SimulateOmic(sim, tail[k].0, tail[k].1, names, samples, draws).error;
      assert tail[k] == entries[k + 1];
    }
  }

  /** With the feature names and sample names `simulate_data` computes, an
      entry never fails at labelling: a drawn matrix always fits its labels. */
  lemma EntryNeverMislabelled(sim: Simulator, draws: Draws, k: nat)
    requires k < |sim.features|
    ensures SimulateOmic(sim, sim.features[k].0, sim.features[k].1,
      CreateFeatureNames(sim.features), SampleNames(sim.Total()), draws) != Failure(ShapeMismatch)
  {
    KeysMember(sim.features, k);
  }

  /** What `simulate_data` returns: the labelled matrix of each configured
      omic, in configuration order, and the metadata table. */
  datatype Simulation = Simulation(data: seq<(string, Frame)>, metadata: MetadataTable)

  /** `simulate_data`. */
  function SimulateData(sim: Simulator, draws: Draws): (r: Result<Simulation>)
    ensures r.Success? ==> |r.value.data| == |sim.features| && r.value.metadata.sampleId == SampleNames(sim.Total())
    ensures r.Success? ==> forall k :: 0 <= k < |r.value.data| ==>
      r.value.data[k].0 == sim.features[k].0 && r.value.data[k].1.columns == r.value.metadata.sampleId
  {
    var names := CreateFeatureNames(sim.features);
    var samples := SampleNames(sim.Total());
    var data :- AssembleData(sim, sim.features, names, samples, draws);
    var metadata :- BuildMetadata(samples, sim.groupSizes.0, sim.groupSizes.1);
    Success(Simulation(data, metadata))
  }

  /** `simulate_data` never raises the labelling error: every matrix it
      draws has as many rows as its feature names and as many columns as
      the sample names. */
  lemma SimulateDataNeverMislabels(sim: Simulator, draws: Draws)
    ensures SimulateData(sim, draws) != Failure(ShapeMismatch)
  {
    var names := CreateFeatureNames(sim.features);
    var samples := SampleNames(sim.Total());
    var data := AssembleData(sim, sim.features, names, samples, draws);
    SimulateDataSteps(sim, draws);
    if data.Failure? {
      AssembleDataErrorOfEntry(sim, sim.features, names, samples, draws);
      var k :| 0 <= k < |sim.features| &&
        SimulateOmic(sim, sim.features[k].0, sim.features[k].1, names, samples, draws).Failure? &&
        data.error == SimulateOmic(sim, sim.features[k].0, sim.features[k].1, names, samples, draws).error;
      EntryNeverMislabelled(sim, draws, k);
    }
  }

  /** The configurations `simulate_data` accepts: no negative group size, an
      even number of samples, and every configured omic recognised with a
      non-negative feature count. A count of zero is accepted. */
  predicate Runnable(sim: Simulator) {
    && sim.groupSizes.0 >= 0
    && sim.groupSizes.1 >= 0
    && sim.Total() % 2 == 0
    && forall k :: 0 <= k < |sim.features| ==> sim.features[k].1 >= 0 && OmicOf(sim.features[k].0).Some?
  }

  lemma KeysMember(entries: seq<(string, int)>, k: nat)
    requires k < |entries|
    ensures entries[k].0 in Keys(entries)
  {
  }

  /** An entry with a recognised omic and a non-negative count is drawn and
      labelled without error when the group sizes are non-negative. */
  lemma EntrySucceeds(sim: Simulator, draws: Draws, k: nat)
    requires sim.groupSizes.0 >= 0 && sim.groupSizes.1 >= 0
    requires k < |sim.features| && sim.features[k].1 >= 0 && OmicOf(sim.features[k].0).Some?
    ensures SimulateOmic(sim, sim.features[k].0, sim.features[k].1,
      CreateFeatureNames(sim.features), SampleNames(sim.Total()), draws).Success?
  {
    KeysMember(sim.features, k);
  }

  lemma AllEntriesSucceed(sim: Simulator, draws: Draws)
    requires sim.groupSizes.0 >= 0 && sim.groupSizes.1 >= 0
    requires forall k :: 0 <= k < |sim.features| ==> sim.features[k].1 >= 0 && OmicOf(sim.features[k].0).Some?
    ensures AssembleData(sim, sim.features, CreateFeatureNames(sim.features), SampleNames(sim.Total()), draws).Success?
  {
    forall k | 0 <= k < |sim.features|
      ensures SimulateOmic(sim, sim.features[k].0, sim.features[k].1,
        CreateFeatureNames(sim.features), SampleNames(sim.Total()), draws).Success?
    {
      EntrySucceeds(sim, draws, k);
    }
  }

  /** `simulate_data` returns a result exactly for the runnable configurations. */
  lemma SimulateDataSucceedsIff(sim: Simulator, draws: Draws)
    ensures SimulateData(sim, draws).Success? <==> Runnable(sim)
  {
    if Runnable(sim) {
      RunnableSucceeds(sim, draws);
    }
    if SimulateData(sim, draws).Success? {
      SuccessIsRunnable(sim, draws);
    }
  }

  lemma RunnableSucceeds(sim: Simulator, draws: Draws)
    requires Runnable(sim)
    ensures SimulateData(sim, draws).Success?
  {
    AllEntriesSucceed(sim, draws);
    MetadataSucceeds(sim);
    SimulateDataSteps(sim, draws);
  }

  lemma MetadataSucceeds(sim: Simulator)
    requires sim.groupSizes.0 >= 0 && sim.groupSizes.1 >= 0 && sim.Total() % 2 == 0
    ensures BuildMetadata(SampleNames(sim.Total()), sim.groupSizes.0, sim.groupSizes.1).Success?
  {
  }

  lemma MetadataFailsForOddTotal(sim: Simulator)
    requires sim.groupSizes.0 >= 0 && sim.groupSizes.1 >= 0 && sim.Total() % 2 == 1
    ensures BuildMetadata(SampleNames(sim.Total()), sim.groupSizes.0, sim.groupSizes.1) == Failure(LengthMismatch)
  {
    OddSampleCountFails(SampleNames(sim.Total()), sim.groupSizes.0, sim.groupSizes.1);
  }

  /** `simulate_data` succeeds when both the loop and the metadata table do. */
  lemma SimulateDataSteps(sim: Simulator, draws: Draws)
    ensures var data := AssembleData(sim, sim.features, CreateFeatureNames(sim.features), SampleNames(sim.Total()), draws);
      var metadata := BuildMetadata(SampleNames(sim.Total()), sim.groupSizes.0, sim.groupSizes.1);
      SimulateData(sim, draws) ==
        if data.Failure? then Failure(data.error)
        else if metadata.Failure? then Failure(metadata.error)
        else Success(Simulation(data.value, metadata.value))
  {
  }

  lemma SuccessIsRunnable(sim: Simulator, draws: Draws)
    requires SimulateData(sim, draws).Success?
    ensures Runnable(sim)
  {
    var names := CreateFeatureNames(sim.features);
    var samples := SampleNames(sim.Total());
    SimulateDataSteps(sim, draws);
    EntriesSucceeded(sim, names, samples, draws);
  }

  /** A loop that ran to the end met only recognised omics with non-negative
      counts. */
  lemma EntriesSucceeded(sim: Simulator, names: map<string, seq<string>>, samples: seq<string>, draws: Draws)
    requires names == CreateFeatureNames(sim.features)
    requires AssembleData(sim, sim.features, names, samples, draws).Success?
    ensures forall k :: 0 <= k < |sim.features| ==> sim.features[k].1 >= 0 && OmicOf(sim.features[k].0).Some?
  {
    forall k | 0 <= k < |sim.features|
      ensures sim.features[k].1 >= 0 && OmicOf(sim.features[k].0).Some?
    {
      assert SimulateOmic(sim, sim.features[k].0, sim.features[k].1, names, samples, draws).Success?;
    }
  }

  /** The shape and labelling of a successful run: one matrix per configured
      omic, in configuration order, each with `n_feat` rows named by the
      omic's naming rule and `total_samples` columns named `Sample_1 ..`;
      the metadata's sample ids are that same sequence of sample names. */
  lemma SimulateDataLayout(sim: Simulator, draws: Draws)
    requires Runnable(sim)
    ensures SimulateData(sim, draws).Success?
    ensures var out := SimulateData(sim, draws).value;
      && |out.data| == |sim.features|
      && out.metadata.sampleId == SampleNames(sim.Total())
      && |out.metadata.sampleId| == sim.Total()
      && forall k :: 0 <= k < |sim.features| ==>
        && out.data[k].0 == sim.features[k].0
        && out.data[k].1.index == FeatureNames(OmicOf(sim.features[k].0).value, sim.features[k].1)
        && out.data[k].1.columns == out.metadata.sampleId
        && out.data[k].1.values.Valid()
        && out.data[k].1.values.rows == sim.features[k].1
        && out.data[k].1.values.cols == sim.Total()
  {
    SimulateDataSucceedsIff(sim, draws);
  }

  /** The metadata columns of a successful run: the first g0 samples are
      Control and the rest Treatment, and batches alternate Batch1, Batch2
      from the first sample on. */
  lemma SimulateDataMetadata(sim: Simulator, draws: Draws)
    requires Runnable(sim)
    ensures SimulateData(sim, draws).Success?
    ensures var m := SimulateData(sim, draws).value.metadata;
      && |m.group| == |m.batch| == sim.Total()
      && (forall k :: 0 <= k < sim.Total() ==> (m.group[k] == Control <==> k < sim.groupSizes.0))
      && (forall k :: 0 <= k < sim.Total() ==> (m.group[k] == Treatment <==> k >= sim.groupSizes.0))
      && (forall k :: 0 <= k < sim.Total() ==> m.batch[k] == if k % 2 == 0 then Batch1 else Batch2)
  {
    SimulateDataSucceedsIff(sim, draws);
  }

  /** Entry k of a successful run's data is the matrix drawn for that entry. */
  lemma DataEntry(sim: Simulator, draws: Draws, k: nat)
    requires Runnable(sim)
    requires k < |sim.features|
    ensures SimulateData(sim, draws).Success?
    ensures |SimulateData(sim, draws).value.data| == |sim.features|
    ensures SimulateData(sim, draws).value.data[k].1.values == OmicValues(sim, sim.features[k].0, sim.features[k].1, draws).value
  {
    RunnableSucceeds(sim, draws);
    SimulateDataSteps(sim, draws);
  }

  /** The transcriptomics matrix is the control block of Poisson draws
      followed, column-wise, by the treatment block. */
  lemma TranscriptomicsValues(sim: Simulator, draws: Draws, n: int)
    requires n >= 0 && sim.groupSizes.0 >= 0 && sim.groupSizes.1 >= 0
    ensures OmicValues(sim, TranscriptomicsKey, n, draws).Success?
    ensures var m := OmicValues(sim, TranscriptomicsKey, n, draws).value;
      forall i, j :: 0 <= i < n && 0 <= j < sim.Total() ==>
        && (j < sim.groupSizes.0 ==> m.cells[i][j] == draws(TranscriptomicsKey, PoissonControl, i, j))
        && (j >= sim.groupSizes.0 ==> m.cells[i][j] == draws(TranscriptomicsKey, PoissonTreatment, i, j - sim.groupSizes.0))
  {
  }

  /** In a successful run the transcriptomics entry holds that matrix. */
  lemma TranscriptomicsBlocks(sim: Simulator, draws: Draws, k: nat)
    requires Runnable(sim)
    requires k < |sim.features| && sim.features[k].0 == TranscriptomicsKey
    ensures SimulateData(sim, draws).Success?
    ensures var m := SimulateData(sim, draws).value.data[k].1.values;
      forall i, j :: 0 <= i < sim.features[k].1 && 0 <= j < sim.Total() ==>
        && (j < sim.groupSizes.0 ==> m.cells[i][j] == draws(TranscriptomicsKey, PoissonControl, i, j))
        && (j >= sim.groupSizes.0 ==> m.cells[i][j] == draws(TranscriptomicsKey, PoissonTreatment, i, j - sim.groupSizes.0))
  {
    DataEntry(sim, draws, k);
    TranscriptomicsValues(sim, draws, sim.features[k].1);
  }

  /** In a successful run a continuous omic's matrix is its normal draws with
      the group effect added to exactly the treatment columns. */
  lemma ContinuousOmicShift(sim: Simulator, draws: Draws, k: nat)
    requires Runnable(sim)
    requires k < |sim.features| && sim.features[k].0 != TranscriptomicsKey
    ensures SimulateData(sim, draws).Success?
    ensures var key := sim.features[k].0;
      var m := SimulateData(sim, draws).value.data[k].1.values;
      forall i, j :: 0 <= i < sim.features[k].1 && 0 <= j < sim.Total() ==>
        && (j < sim.groupSizes.0 ==> m.cells[i][j] == draws(key, StandardNormal, i, j))
        && (j >= sim.groupSizes.0 ==> m.cells[i][j] == draws(key, StandardNormal, i, j) + GroupEffect)
  {
    DataEntry(sim, draws, k);
  }

  /** An omic outside the four recognised ones makes `simulate_data` raise a
      KeyError at its labelling step, provided its own draw and every entry
      before it succeed; negative group sizes with a non-negative total do
      not stop the normal draws. */
  lemma UnknownOmicRaises(sim: Simulator, draws: Draws, k: nat)
    requires sim.Total() >= 0
    requires k < |sim.features|
    requires forall k' :: 0 <= k' < k ==>
      && sim.features[k'].1 >= 0
      && OmicOf(sim.features[k'].0).Some?
      && (sim.features[k'].0 == TranscriptomicsKey ==> sim.groupSizes.0 >= 0 && sim.groupSizes.1 >= 0)
    requires sim.features[k].1 >= 0 && OmicOf(sim.features[k].0).None?
    ensures SimulateData(sim, draws) == Failure(UnknownOmic(sim.features[k].0))
  {
    var names := CreateFeatureNames(sim.features);
    var samples := SampleNames(sim.Total());
    forall k' | 0 <= k' < k
      ensures SimulateOmic(sim, sim.features[k'].0, sim.features[k'].1, names, samples, draws).Success?
    {
      KeysMember(sim.features, k');
    }
    AssembleDataFirstError(sim, sim.features, names, samples, draws, k);
  }

  /** With valid group sizes and omics but an odd total, the batch column is
      one entry short and the metadata table cannot be built. */
  lemma OddTotalRaises(sim: Simulator, draws: Draws)
    requires sim.groupSizes.0 >= 0 && sim.groupSizes.1 >= 0 && sim.Total() % 2 == 1
    requires forall k :: 0 <= k < |sim.features| ==> sim.features[k].1 >= 0 && OmicOf(sim.features[k].0).Some?
    ensures SimulateData(sim, draws) == Failure(LengthMismatch)
  {
    AllEntriesSucceed(sim, draws);
    MetadataFailsForOddTotal(sim);
    SimulateDataSteps(sim, draws);
  }

  /** `simulate_data` with the batch column cycled over every sample instead
      of tiled `total_samples // 2` times. */
  function SimulateDataCorrected(sim: Simulator, draws: Draws): (r: Result<Simulation>)
    ensures r.Success? ==> |r.value.data| == |sim.features| && r.value.metadata.sampleId == SampleNames(sim.Total())
    ensures r.Success? ==> forall k :: 0 <= k < |r.value.data| ==>
      r.value.data[k].0 == sim.features[k].0 && r.value.data[k].1.columns == r.value.metadata.sampleId
  {
    var names := CreateFeatureNames(sim.features);
    var samples := SampleNames(sim.Total());
    var data :- AssembleData(sim, sim.features, names, samples, draws);
    var metadata :- BuildMetadataCyclic(samples, sim.groupSizes.0, sim.groupSizes.1);
    Success(Simulation(data, metadata))
  }

  /** The corrected run accepts every runnable configuration and, in
      addition, odd sample totals. */
  predicate RunnableCorrected(sim: Simulator) {
    && sim.groupSizes.0 >= 0
    && sim.groupSizes.1 >= 0
    && forall k :: 0 <= k < |sim.features| ==> sim.features[k].1 >= 0 && OmicOf(sim.features[k].0).Some?
  }

  lemma SimulateDataCorrectedSteps(sim: Simulator, draws: Draws)
    ensures var data := AssembleData(sim, sim.features, CreateFeatureNames(sim.features), SampleNames(sim.Total()), draws);
      var metadata := BuildMetadataCyclic(SampleNames(sim.Total()), sim.groupSizes.0, sim.groupSizes.1);
      SimulateDataCorrected(sim, draws) ==
        if data.Failure? then Failure(data.error)
        else if metadata.Failure? then Failure(metadata.error)
        else Success(Simulation(data.value, metadata.value))
  {
  }

  /** With the cyclic batch column, a run with valid group sizes and omics
      returns a result whatever the parity of the total, and its metadata
      has one batch label per sample. */
  lemma CorrectedSucceeds(sim: Simulator, draws: Draws)
    requires RunnableCorrected(sim)
    ensures SimulateDataCorrected(sim, draws).Success?
    ensures var m := SimulateDataCorrected(sim, draws).value.metadata;
      && m.sampleId == SampleNames(sim.Total())
      && |m.batch| == |m.group| == |m.sampleId| == sim.Total()
      && forall k :: 0 <= k < sim.Total() ==> m.batch[k] == if k % 2 == 0 then Batch1 else Batch2
  {
    AllEntriesSucceed(sim, draws);
    SimulateDataCorrectedSteps(sim, draws);
  }

  /** For an even total both metadata builders give the same outcome,
      negative group sizes included. */
  lemma BuildersAgreeOnEvenTotal(sampleNames: seq<string>, g0: int, g1: int)
    requires (g0 + g1) % 2 == 0
    ensures BuildMetadataCyclic(sampleNames, g0, g1) == BuildMetadata(sampleNames, g0, g1)
  {
    if g0 >= 0 && g1 >= 0 {
      CyclicAgreesOnEvenTotal(sampleNames, g0, g1);
    }
  }

  /** The correction only changes runs with an odd total: otherwise the
      corrected and the uncorrected `SimulateData` give the same outcome. */
  lemma CorrectedAgreesOnEvenTotal(sim: Simulator, draws: Draws)
    requires sim.Total() % 2 == 0
    ensures SimulateDataCorrected(sim, draws) == SimulateData(sim, draws)
  {
    SimulateDataSteps(sim, draws);
    SimulateDataCorrectedSteps(sim, draws);
    BuildersAgreeOnEvenTotal(SampleNames(sim.Total()), sim.groupSizes.0, sim.groupSizes.1);
  }
}
