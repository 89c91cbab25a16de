# Multi-omics simulator: a Dafny model of `MultiOmicsSimulator`

`MultiOmicsSimulator` generates a synthetic multi-omics data set. There is one
feature-by-sample matrix per configured omic type (transcriptomics,
proteomics, metabolomics, methylation), and one metadata table that gives
each sample a group (Control or Treatment) and a batch. This project models
the deterministic, structural part of the class:

- the configuration captured by `__init__`;
- the feature-name scheme of `_create_feature_names`: a prefix plus the
  1-based index zero-padded by `str.zfill`;
- the shared sample-name sequence `Sample_1 .. Sample_N`;
- how each omic's matrix is assembled from its random draws and labelled;
- the metadata table;
- every way `simulate_data` can raise instead of returning.

The random generator is a parameter. `draws(key, call, i, j)` is the value
that the seeded generator yields at cell (i, j) of the draw `call` made for
the omic `key`. The three draw calls are Poisson(5) for the control block,
Poisson(5.5) for the treatment block and the standard normal. With this,
the whole output of `simulate_data` is a function of the configuration and
the draws, so determinism holds by construction.

Modules, one per concern:

| file | module | models |
|---|---|---|
| outcomes.dfy | `Outcomes` | `Option`, `Result`, and the exceptions a run can raise (`Error`) |
| text.dfy | `Text` | `str(i)` for non-negative ints, `str.zfill`, and the decimal reading that inverts them |
| omics.dfy | `Omics` | the four omic types, their keys, prefixes and pad widths, feature names |
| matrices.dfy | `Matrices` | arrays with an explicit shape, `np.concatenate(axis=1)`, `m[:, g0:] += c`, labelled tables |
| metadata.dfy | `Metadata` | `np.repeat` of the groups, `np.tile` of the batches, the metadata `DataFrame` |
| simulator.dfy | `Simulator` | `__init__`, `_create_feature_names`, `simulate_data`, end-to-end properties |

Errors are modelled as `Failure` values, one per kind of exception:

- `InvalidSeed`: `np.random.seed` in `__init__` refuses a seed outside
  0 .. 2**32 - 1.
- `NegativeSize`: numpy refuses a negative dimension in a draw, or a
  negative count in `np.repeat` or `np.tile`.
- `UnknownOmic(key)`: the feature-name lookup raises `KeyError` for an omic
  that `_create_feature_names` skipped.
- `ShapeMismatch`: pandas refuses labels that do not fit the matrix. This is
  a possible outcome of `Label` only: `simulate_data` never raises it,
  because every matrix it draws fits its labels (`SimulateDataNeverMislabels`).
- `LengthMismatch`: pandas refuses metadata columns of unequal length.

The model follows the code as written, including inputs a validator would
reject:

- A feature count of 0 is accepted. It gives an empty name list and a
  0-row matrix. Only a negative count fails, and it fails at the draw.
- Non-positive group sizes are not checked at construction. A negative
  size fails later, in a draw or in `np.repeat`.
- An unrecognised omic key is skipped silently by `_create_feature_names`.
  It fails only at the lookup when that omic's matrix is labelled.
- `n_features or {...}` uses the default map for `None` and for the empty
  dict. Any non-empty dict is used exactly as given, with no merging of
  defaults.
- The batch column has `2 * (N // 2)` entries, so an odd sample total makes
  the metadata table fail (see Findings).

## Model

| member | source | states |
|---|---|---|
| Text.Decimal | simulate_streamlt.py:25 | `str(i)` is a non-empty digit string with a leading zero exactly when i is 0 |
| Text.ZFill | simulate_streamlt.py:25 | `zfill` gives length max(len, width), never truncates, and for a digit string only prepends zeros; a leading sign stays first |
| Text.ParseDecimalOfDecimal | simulate_streamlt.py:25 | reading the decimal digits of `str(n)` back gives n |
| Text.DecimalInjective | simulate_streamlt.py:25 | distinct indices have distinct `str` forms |
| Text.ParseIgnoresLeadingZeros | simulate_streamlt.py:25 | zero padding on the left keeps the string a digit string and keeps its value |
| Text.DecimalLengthBound | simulate_streamlt.py:25 | `str(n)` fits in k >= 1 characters exactly when n < 10^k |
| Omics.OmicOf | simulate_streamlt.py:24-31 | the string comparison chain recognises exactly the four omic keys and reports no omic for any other key |
| Omics.FeatureName | simulate_streamlt.py:25-31 | the name of feature i starts with the omic's prefix, the rest is digits, and its length is prefix length + max(width, digits of i) |
| Omics.FeatureNames | simulate_streamlt.py:25-31 | `range(1, n + 1)` gives max(n, 0) names, the k-th (0-based) being the name of feature k + 1 |
| Omics.FeatureNameRoundTrip | simulate_streamlt.py:25-31 | the index can be read back from every feature name |
| Omics.FeatureNameInjective | simulate_streamlt.py:25-31 | within one omic, equal names mean equal indices |
| Omics.FeatureNamesDistinct | simulate_streamlt.py:23-31 | each omic's name list has no repetitions |
| Omics.FeatureNamesOfDistinctOmics | simulate_streamlt.py:24-31 | names of two different omics never coincide |
| Omics.FeatureNameFixedLength | simulate_streamlt.py:25-31 | while the index is below 10^width, every name has length prefix + width |
| Matrices.Fill | simulate_streamlt.py:41-45 | a drawn block of shape (rows, cols) holds the generator's value at each cell |
| Matrices.ConcatColumns | simulate_streamlt.py:43 | concatenation along axis 1 keeps the row count, adds the column counts, and puts the left block's cells first and the right block's cells after them |
| Matrices.SliceStart | simulate_streamlt.py:46 | the slice `g0:` starts at g0 when 0 <= g0 <= cols, counts from the end for negative g0 (clamped at 0), and starts at cols when g0 > cols |
| Matrices.ShiftColumnsFrom | simulate_streamlt.py:46 | `m[:, g0:] += delta` changes exactly the cells at or after the slice start, by delta, and leaves all other cells and the shape unchanged |
| Matrices.Label | simulate_streamlt.py:48 | labelling succeeds exactly when the row labels match the row count and the column labels match the column count |
| Metadata.GroupColumn | simulate_streamlt.py:52 | `np.repeat` gives g0 Controls then g1 Treatments, and fails for a negative count |
| Metadata.TilePair | simulate_streamlt.py:53 | tiling the pair reps times gives 2 * reps labels, alternating and starting with the first |
| Metadata.BatchColumn | simulate_streamlt.py:53 | `np.tile` gives 2 * reps labels, Batch1 at even and Batch2 at odd positions, and fails for negative reps |
| Metadata.MakeTable | simulate_streamlt.py:50-54 | the metadata table is built exactly when its three columns have equal length |
| Metadata.BuildMetadata | simulate_streamlt.py:50-54 | the table is built exactly when both group sizes are non-negative, the sample names number g0 + g1, and that total is even; its columns are then the sample names, the group labels and the alternating batches |
| Metadata.OddSampleCountFails | simulate_streamlt.py:50-54 | with an odd total the batch column is one short and the table raises a length mismatch |
| Metadata.CyclicBatches | simulate_streamlt.py:53 | the corrected batch column has one alternating label per sample |
| Metadata.BuildMetadataCyclic | simulate_streamlt.py:50-54 | the corrected table is built for every non-negative pair of group sizes, odd totals included |
| Metadata.CyclicAgreesOnEvenTotal | simulate_streamlt.py:50-54 | for an even total the corrected table equals the table the code builds |
| Simulator.NewSimulator | simulate_streamlt.py:10-19 | construction fails exactly for a seed outside 0 .. 2**32 - 1; omitted group sizes are (100, 100); a falsy `n_features` selects the default map, and any other map is kept exactly, so the configuration is never empty |
| Simulator.DefaultSimulatorRuns | simulate_streamlt.py:10-19 | `MultiOmicsSimulator()` with every argument omitted has 100 samples per group and the default counts, and its run succeeds |
| Simulator.DefaultFeatureCountsCoverOmics | simulate_streamlt.py:14-19 | the default map has four entries, one for each recognised omic |
| Simulator.CreateFeatureNames | simulate_streamlt.py:21-32 | the name map has an entry exactly for the recognised configured keys, and each entry is that omic's names for its count |
| Simulator.SampleNames | simulate_streamlt.py:36 | there are max(N, 0) sample names and the k-th (0-based) is `Sample_` followed by k + 1 |
| Simulator.SampleNamesDistinct | simulate_streamlt.py:36 | sample names are pairwise distinct |
| Simulator.OmicValues | simulate_streamlt.py:39-46 | the drawn matrix has n rows and N columns. For transcriptomics, columns below g0 hold the control draws and the rest hold the treatment draws. For any other omic, the normal draws get +0.5 in exactly the columns from the slice start on. It fails exactly on a negative dimension |
| Simulator.SimulateOmic | simulate_streamlt.py:39-48 | one loop iteration succeeds exactly when the draw succeeds, the key has feature names, and the labels fit; the result is labelled with those names and the sample names |
| Simulator.AssembleData | simulate_streamlt.py:39-48 | the loop succeeds exactly when every entry does; it then has one labelled matrix per entry, in configuration order, under the same key |
| Simulator.AssembleDataFirstError | simulate_streamlt.py:39-48 | a failing loop reports the error of the first failing entry |
| Simulator.AssembleDataErrorOfEntry | simulate_streamlt.py:39-48 | a failing loop fails with the error of one of its entries |
| Simulator.EntryNeverMislabelled | simulate_streamlt.py:35-48 | with the names `simulate_data` computes, no entry fails at labelling |
| Simulator.SimulateData | simulate_streamlt.py:34-56 | a successful run has one matrix per configured omic under the same key, in order, each with the metadata's `sample_id` sequence as its columns, and that sequence is `Sample_1 .. Sample_N`; the lemmas below state the rest of its contract |
| Simulator.SimulateDataNeverMislabels | simulate_streamlt.py:34-56 | `simulate_data` never fails with the labelling error |
| Simulator.SimulateDataSucceedsIff | simulate_streamlt.py:34-56 | `simulate_data` returns a result exactly when the group sizes are non-negative, the total is even, and every configured omic is recognised with a non-negative count |
| Simulator.SimulateDataLayout | simulate_streamlt.py:34-56 | a successful run has one matrix per configured omic, in order, with n rows named by the omic's scheme and N columns named by the sample names; the metadata's `sample_id` is the same sequence |
| Simulator.SimulateDataMetadata | simulate_streamlt.py:50-54 | in a successful run, `group` is Control exactly for the first g0 samples and Treatment for the rest, and `batch` alternates from Batch1 |
| Simulator.TranscriptomicsBlocks | simulate_streamlt.py:41-43 | in a successful run the transcriptomics matrix has the control block in columns below g0 and the treatment block from g0 on, row by row |
| Simulator.ContinuousOmicShift | simulate_streamlt.py:45-46 | in a successful run a continuous omic's cells equal the normal draws below column g0 and the draws plus 0.5 from column g0 on |
| Simulator.UnknownOmicRaises | simulate_streamlt.py:23-48 | an unrecognised key whose own draw succeeds (non-negative count and total), reached with every earlier entry valid, makes the run fail with the KeyError for that key, even when one group size is negative |
| Simulator.OddTotalRaises | simulate_streamlt.py:50-54 | with valid sizes and omics but an odd total, the run fails with a length mismatch |
| Simulator.SimulateDataCorrected | simulate_streamlt.py:34-56 | the corrected run keeps the same keys, order and shared `sample_id` sequence; `CorrectedSucceeds` and `CorrectedAgreesOnEvenTotal` state the rest |
| Simulator.CorrectedSucceeds | simulate_streamlt.py:50-54 | with the cyclic batch column, every run with valid sizes and omics succeeds, with one batch label per sample |
| Simulator.BuildersAgreeOnEvenTotal | simulate_streamlt.py:50-54 | for an even total the cyclic and the tiled metadata builders give the same outcome, the NegativeSize failure included |
| Simulator.CorrectedAgreesOnEvenTotal | simulate_streamlt.py:50-54 | for an even total the corrected run gives exactly the code's outcome |

## Left out

- The Streamlit interface in `main` (sliders, buttons, previews) is left out: it is presentation only.
- CSV encoding and the download buttons are left out: they are serialisation through pandas and Streamlit.
- The random generator itself is left out: `np.random.seed`, `np.random.poisson` and `np.random.normal` are library calls. Their results are the `draws` parameter. The seed's range check is modelled; its value is not passed on, because beyond that check it only selects the draws. The order in which draws are consumed is not modelled.
- Distributional claims are left out: the Poisson and normal means, and the size of the group effect in a sample average.
- Floating point is left out. Values are reals, and the +0.5 shift is exact real addition. Transcriptomics counts are reals too, not a separate integer dtype.
- pandas internals are left out. A `DataFrame` is a labelled 2-D table (`Frame`) or three equal-length columns (`MetadataTable`). Row labels are not checked for uniqueness, just as pandas does not check them.
- Python types outside the modelled ones are left out. Group sizes and counts are ints, and `n_features` is a dict or `None`. Other falsy values of `n_features` (such as `0` or `""`) are not modelled.
- Simulator.NewSimulator: an omitted argument is `None`; an explicit `seed=None` (which reseeds from system entropy) and array seeds are not modelled, because the seed is an `int` here.
- The unused `scipy`, `statsmodels` and `os` imports are left out: they are dead dependencies.

## Findings

| source | as written | input that shows it | evidently intended | confidence | as-written member | corrected member |
|---|---|---|---|---|---|---|
| simulate_streamlt.py:53 | `np.tile(["Batch1", "Batch2"], total_samples // 2)` gives 2 * (N // 2) batch labels, one short when N is odd, so `pd.DataFrame` raises a length mismatch | `n_samples_per_group=(10, 11)`, a pair the range slider of `main` allows; N = 21 gives 20 batch labels for 21 samples | one alternating batch label per sample, for every N | high (not executed) | Simulator.OddTotalRaises | Simulator.SimulateDataCorrected, Simulator.CorrectedSucceeds, Simulator.CorrectedAgreesOnEvenTotal |
