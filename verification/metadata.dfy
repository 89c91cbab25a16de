/** The sample metadata table of `simulate_data`: one row per sample with its
    id, its group (`np.repeat`) and its batch (`np.tile`). */
module Metadata {
  import opened Outcomes

  const Control: string := "Control"
  const Treatment: string := "Treatment"
  const Batch1: string := "Batch1"
  const Batch2: string := "Batch2"

  datatype MetadataTable = MetadataTable(sampleId: seq<string>, group: seq<string>, batch: seq<string>)

  function Copies(x: string, n: nat): (r: seq<string>)
    ensures |r| == n && forall k :: 0 <= k < n ==> r[k] == x
  {
    seq(n, _ => x)
  }

  /** `np.repeat(["Control", "Treatment"], (g0, g1))`. */
  function GroupColumn(g0: int, g1: int): (r: Result<seq<string>>)
    ensures r.Success? <==> g0 >= 0 && g1 >= 0
    ensures r.Failure? ==> r.error == NegativeSize
    ensures r.Success? ==> |r.value| == g0 + g1
    ensures r.Success? ==> forall k :: 0 <= k < g0 ==> r.value[k] == Control
    ensures r.Success? ==> forall k :: g0 <= k < g0 + g1 ==> r.value[k] == Treatment
  {
    if g0 < 0 || g1 < 0 then Failure(NegativeSize)
    else Success(Copies(Control, g0) + Copies(Treatment, g1))
  }

  /** `reps` back-to-back copies of the pair `[a, b]`. */
  function TilePair(a: string, b: string, reps: nat): (r: seq<string>)
    ensures |r| == 2 * reps
    ensures forall k :: 0 <= k < |r| ==> r[k] == (if k % 2 == 0 then a else b)
    decreases reps
  {
    if reps == 0 then [] else [a, b] + TilePair(a, b, reps - 1)
  }

  /** `np.tile(["Batch1", "Batch2"], reps)`: numpy refuses a negative count. */
  function BatchColumn(reps: int): (r: Result<seq<string>>)
    ensures r.Success? <==> reps >= 0
    ensures r.Failure? ==> r.error == NegativeSize
    ensures r.Success? ==> |r.value| == 2 * reps
    ensures r.Success? ==> forall k :: 0 <= k < |r.value| ==> r.value[k] == (if k % 2 == 0 then Batch1 else Batch2)
  {
    if reps < 0 then Failure(NegativeSize) else Success(TilePair(Batch1, Batch2, reps))
  }

  /** `pd.DataFrame({...})` from three columns: pandas insists they all have
      the same length. */
  function MakeTable(sampleId: seq<string>, group: seq<string>, batch: seq<string>): (r: Result<MetadataTable>)
    ensures r.Success? <==> |sampleId| == |group| == |batch|
    ensures r.Failure? ==> r.error == LengthMismatch
    ensures r.Success? ==> r.value == MetadataTable(sampleId, group, batch)
  {
    if |sampleId| == |group| == |batch| then Success(MetadataTable(sampleId, group, batch))
    else Failure(LengthMismatch)
  }

  /** The metadata table for the given sample names and group sizes. The
      batch column holds `(g0 + g1) // 2` copies of the two-batch pattern
      (Python's `//` floors, as Dafny's `/` does for a positive divisor), so
      its length is the sample count rounded down to an even number. */
  function BuildMetadata(sampleNames: seq<string>, g0: int, g1: int): (r: Result<MetadataTable>)
    ensures r.Success? <==> g0 >= 0 && g1 >= 0 && |sampleNames| == g0 + g1 && (g0 + g1) % 2 == 0
    ensures r.Failure? && (g0 < 0 || g1 < 0) ==> r.error == NegativeSize
    ensures r.Failure? && g0 >= 0 && g1 >= 0 ==> r.error == LengthMismatch
    ensures r.Success? ==> r.value.sampleId == sampleNames
    ensures r.Success? ==> |r.value.group| == |r.value.batch| == g0 + g1
    ensures r.Success? ==> forall k :: 0 <= k < g0 + g1 ==> (r.value.group[k] == Control <==> k < g0)
    ensures r.Success? ==> forall k :: 0 <= k < g0 + g1 ==> (r.value.group[k] == Treatment <==> k >= g0)
    ensures r.Success? ==> forall k :: 0 <= k < g0 + g1 ==> r.value.batch[k] == (if k % 2 == 0 then Batch1 else Batch2)
  {
    match GroupColumn(g0, g1)
    case Failure(e) => Failure(e)
    case Success(group) =>
      match BatchColumn((g0 + g1) / 2)
      case Failure(e) => Failure(e)
      case Success(batch) => MakeTable(sampleNames, group, batch)
  }

  /** With an odd number of samples the batch column is one short, so the
      table cannot be built even though the group sizes are valid. */
  lemma OddSampleCountFails(sampleNames: seq<string>, g0: int, g1: int)
    requires g0 >= 0 && g1 >= 0 && |sampleNames| == g0 + g1
    requires (g0 + g1) % 2 == 1
    ensures BuildMetadata(sampleNames, g0, g1) == Failure(LengthMismatch)
    ensures |BatchColumn((g0 + g1) / 2).value| == g0 + g1 - 1
  {
  }

  /** The batch column with one alternating label per sample: Batch1, Batch2, Batch1, ...
      cycled over all `n` samples, one entry per sample (what
      `np.resize(["Batch1", "Batch2"], n)` gives). */
  function CyclicBatches(n: nat): (r: seq<string>)
    ensures |r| == n
    ensures forall k :: 0 <= k < n ==> r[k] == (if k % 2 == 0 then Batch1 else Batch2)
    decreases n
  {
    if n == 0 then [] else CyclicBatches(n - 1) + [if (n - 1) % 2 == 0 then Batch1 else Batch2]
  }

  /** The metadata table with the batch column cycled over every sample: it
      can be built for an odd number of samples as well. */
  function BuildMetadataCyclic(sampleNames: seq<string>, g0: int, g1: int): (r: Result<MetadataTable>)
    ensures r.Success? <==> g0 >= 0 && g1 >= 0 && |sampleNames| == g0 + g1
    ensures r.Failure? && (g0 < 0 || g1 < 0) ==> r.error == NegativeSize
    ensures r.Failure? && g0 >= 0 && g1 >= 0 ==> r.error == LengthMismatch
    ensures r.Success? ==> r.value.sampleId == sampleNames
    ensures r.Success? ==> |r.value.group| == |r.value.batch| == g0 + g1
    ensures r.Success? ==> forall k :: 0 <= k < g0 + g1 ==> (r.value.group[k] == Control <==> k < g0)
    ensures r.Success? ==> forall k :: 0 <= k < g0 + g1 ==> (r.value.group[k] == Treatment <==> k >= g0)
    ensures r.Success? ==> forall k :: 0 <= k < g0 + g1 ==> r.value.batch[k] == (if k % 2 == 0 then Batch1 else Batch2)
  {
    match GroupColumn(g0, g1)
    case Failure(e) => Failure(e)
    case Success(group) => MakeTable(sampleNames, group, CyclicBatches(g0 + g1))
  }

  /** For an even number of samples the cyclic batch column is the tiled one,
      so the corrected table is the table the code builds. */
  lemma CyclicBatchesIsTiled(reps: nat)
    ensures CyclicBatches(2 * reps) == TilePair(Batch1, Batch2, reps)
  {
  }

  lemma CyclicAgreesOnEvenTotal(sampleNames: seq<string>, g0: int, g1: int)
    requires g0 >= 0 && g1 >= 0 && (g0 + g1) % 2 == 0
    ensures BuildMetadataCyclic(sampleNames, g0, g1) == BuildMetadata(sampleNames, g0, g1)
  {
    CyclicBatchesIsTiled((g0 + g1) / 2);
  }
}
