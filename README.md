# Pauli tomography basis tables and the quantum-volume fitter

This project models two parts of Qiskit Ignis and proves properties of them.

- The **Pauli tomography basis** is the lookup from single-qubit labels to 2x2 complex
  matrices. There are six preparation eigenstates (`Xp`, `Xm`, `Yp`, `Ym`, `Zp`, `Zm`)
  and three measurement axes (`X`, `Y`, `Z`), each with outcome 0 or 1. Complex numbers
  are pairs of exact reals. It is proved that every preparation matrix is a pure-state
  density matrix: Hermitian, of trace one and idempotent. It is also proved that the two
  eigenstates of an axis sum to the identity and annihilate each other, and that each
  measurement outcome operator is the matching preparation. A label outside the
  vocabulary, or an outcome other than 0 or 1, gives no matrix (`None`).
- The **quantum-volume fitter** (`QVFitter`) works in four steps:
  - It loads the ideal output distribution of every model circuit. From each it keeps
    the *heavy outputs* (the outcomes whose ideal probability is strictly above the
    median) and their ideal probability.
  - As backend results arrive, it counts trials from the circuit names
    `qv_depth_<d>_trial_<t>`.
  - It pools the measured histograms of each circuit over all results.
  - It records each circuit's shots and the measured heavy-output count.

The model has five modules:

- `Wrappers` (`wrappers.dfy`): `Option`.
- `PauliBasis` (`paulibasis.dfy`): the basis tables, as pure functions and lemmas.
- `QVStrings` (`qv_strings.dfy`): the Python string operations the fitter relies on.
  - `str.split` on one character, and `join`.
  - `int()` on a string: an optional sign, then decimal digits.
  - `'%d'` for a natural number.
  - The zero-padded binary formatting `'{0:0<w>b}'`.
- `QVDistributions` (`qv_distributions.dfy`): the fitter's helper functions.
  - Logic over probability dicts: the ordered probability map, the heavy strings, the
    median and `_median_probabilities`.
  - `_subset_probability`, on both probability and count dicts.
  - Count histograms and their pointwise merge.
- `QuantumVolume` (`qv_fitter.dfy`): the class `QVFitter`, its mutable fields and its
  methods, together with the specification they are proved against.
  - Each loop body of `add_statevectors`, `add_data` and `calc_data` is one method.
  - Each such method is proved equal to a pure step function of the old state.
  - Each loop is proved equal to the fold of that step over its remaining input.
  - Lemmas about the folds state what the source promises: when each operation raises,
    what it stores, the trial-count maximum, the shot totals and the heavy-count bound.

Modelling decisions:

- **Python dicts.** A dict whose insertion order matters (the ideal probability map,
  whose values feed `np.median` and whose keys are filtered in order) is a
  `Distribution`: a key sequence plus a map. The other dicts are Dafny maps.
- **Exceptions.** Each exception the code raises is a `QVError` value, returned in an
  `Option`. The state is left as the code leaves it at the point of the exception: the
  results and circuits handled before it stay applied.
- **Inputs.** A backend result is a sequence of circuits, each a name and a histogram.
  An ideal result is a sequence of circuits, each a name and the probability of every
  basis-state index.
- **Parsers as parameters.** The specification functions take the name parsers and the
  pooled histograms as function parameters (`read`, `trialOf`, `pool`). The class passes
  the real ones (`ReadIdeal`, `TrialOfName`, `PooledCounts(resultList)`). The lemmas
  `ReadIdealFacts`, `AddStatevectorsSucceeds` and `CalcDataBounds` restate the results
  for those real arguments.
- **Preparation matrices.** The docstrings of `pauli_preparation_matrix` and
  `pauli_measurement_matrix` describe the `X` and `Y` matrices as `[[1, ±1], …] / sqrt(2)`.
  The code returns entries of `0.5` instead. The model follows the code, and only the
  code's matrices are projectors of trace one.

## Model

| member | source | states |
|---|---|---|
| PauliBasis.PreparationMatrix | qiskit_ignis/tomography/basis/paulibasis.py:86-117 | a matrix is returned exactly for the six preparation labels, and none for any other label |
| PauliBasis.MeasurementMatrix | qiskit_ignis/tomography/basis/paulibasis.py:120-155 | a matrix is returned exactly for a label among X, Y, Z with an outcome equal to 0 or 1 (integer or string); anything else falls through |
| PauliBasis.PreparationIsBlochState | qiskit_ignis/tomography/basis/paulibasis.py:106-117 | each preparation matrix is (I + xX + yY + zZ)/2 for the unit vector of its axis and sign |
| PauliBasis.PreparationPure | qiskit_ignis/tomography/basis/paulibasis.py:106-117 | every preparation matrix is Hermitian, has trace exactly 1, and is a projector (M·M = M) |
| PauliBasis.ComplementaryEigenstates | qiskit_ignis/tomography/basis/paulibasis.py:106-117 | for each axis, the "p" and "m" eigenstates sum to the identity and their product is zero |
| PauliBasis.MeasurementIsPreparation | qiskit_ignis/tomography/basis/paulibasis.py:141-155 | measuring axis L with outcome 0 gives the preparation L+"p", with outcome 1 the preparation L+"m" |
| PauliBasis.StringOutcomeAsInteger | qiskit_ignis/tomography/basis/paulibasis.py:142-154 | the outcomes "0" and "1" select the same matrix as the integers 0 and 1, for every label |
| PauliBasis.MeasurementComplete | qiskit_ignis/tomography/basis/paulibasis.py:162-168 | every measurement label of the basis yields a matrix for both outcomes, and the two operators sum to the identity and are orthogonal |
| PauliBasis.BlochPure | qiskit_ignis/tomography/basis/paulibasis.py:106-117 | the Bloch state of any unit vector is a pure-state density matrix |
| PauliBasis.BlochAntipodes | qiskit_ignis/tomography/basis/paulibasis.py:106-117 | the Bloch states of antipodal unit vectors sum to the identity and are orthogonal |
| QVStrings.Split | qiskit/ignis/verification/quantum_volume/fitters.py:118 | `name.split('_')` always yields at least one piece |
| QVStrings.SplitPiecesLackSeparator | qiskit/ignis/verification/quantum_volume/fitters.py:166 | no piece of a split contains the separator |
| QVStrings.SplitJoin | qiskit/ignis/verification/quantum_volume/fitters.py:166 | joining the pieces of a split with the separator gives back the original string |
| QVStrings.SplitNoSeparator | qiskit/ignis/verification/quantum_volume/fitters.py:118 | a string without the separator splits into itself alone |
| QVStrings.SplitAtSeparator | qiskit/ignis/verification/quantum_volume/fitters.py:118 | a split cuts at the first separator, then splits the rest |
| QVStrings.ParseInt | qiskit/ignis/verification/quantum_volume/fitters.py:166 | `int()` on one field of a name: an optional sign and decimal digits, else no value; specified by `DecimalRoundTrip` and `CircuitNameRoundTrip` |
| QVStrings.CircuitName | qiskit/ignis/verification/quantum_volume/fitters.py:192 | `'qv_depth_%d_trial_%d' % (depth, trial)`; specified by `CircuitNameFields`, `CircuitNameRoundTrip` and `CircuitNameInjective` |
| QVStrings.DepthOfName | qiskit/ignis/verification/quantum_volume/fitters.py:118 | `int(name.split('_')[2])`, or no value when the name has fewer than three fields or the field is not a number; specified by `CircuitNameRoundTrip` |
| QVStrings.TrialOfName | qiskit/ignis/verification/quantum_volume/fitters.py:166 | `int(name.split('_')[-1])`; specified by `CircuitNameRoundTrip` |
| QVStrings.DecimalDigits | qiskit/ignis/verification/quantum_volume/fitters.py:192 | `'%d' % n` is a non-empty run of decimal digits without a leading zero |
| QVStrings.DecimalRoundTrip | qiskit/ignis/verification/quantum_volume/fitters.py:118 | `int('%d' % n)` is n |
| QVStrings.CircuitNameFields | qiskit/ignis/verification/quantum_volume/fitters.py:192 | the name of (d, t) splits on '_' into exactly "qv", "depth", '%d' of d, "trial", '%d' of t |
| QVStrings.CircuitNameRoundTrip | qiskit/ignis/verification/quantum_volume/fitters.py:118 | for a name built from (d, t), `int(split('_')[2])` is d and `int(split('_')[-1])` is t |
| QVStrings.CircuitNameInjective | qiskit/ignis/verification/quantum_volume/fitters.py:192 | distinct (depth, trial) pairs give distinct circuit names |
| QVStrings.Pow2 | qiskit/ignis/verification/quantum_volume/fitters.py:130 | 2**depth is at least one, so an ideal distribution is never empty |
| QVStrings.FormatBinary | qiskit/ignis/verification/quantum_volume/fitters.py:127-128 | `'{0:0<w>b}'.format(b)`; specified by `FormatBinaryValue`, `FormatBinaryInjective` and `FormatBinaryWidth` |
| QVStrings.FormatBinaryValue | qiskit/ignis/verification/quantum_volume/fitters.py:127-128 | the zero-padded binary string of b consists of bits and reads back as b |
| QVStrings.FormatBinaryInjective | qiskit/ignis/verification/quantum_volume/fitters.py:127-128 | distinct indices are formatted as distinct strings |
| QVStrings.FormatBinaryWidth | qiskit/ignis/verification/quantum_volume/fitters.py:127-130 | for b < 2^w, the formatted string has exactly w characters (one when w is 0) |
| QVDistributions.ProbabilityMap | qiskit/ignis/verification/quantum_volume/fitters.py:128-130 | the map lists 2^depth keys, each of which it holds |
| QVDistributions.ProbabilityMapEntries | qiskit/ignis/verification/quantum_volume/fitters.py:128-130 | the b-th key is the padded binary of b with value pvector[b], and the map holds exactly the listed keys |
| QVDistributions.ProbabilityMapKeys | qiskit/ignis/verification/quantum_volume/fitters.py:127-130 | the keys are pairwise distinct, each has width `depth` and reads back as its index |
| QVDistributions.HeavyStrings | qiskit/ignis/verification/quantum_volume/fitters.py:337-351 | `_heavy_strings`: the keys filtered by probability above the median; specified by `HeavyStringsFacts`, `KeysAboveCount` and `HeavyAtMostHalf` |
| QVDistributions.Median | qiskit/ignis/verification/quantum_volume/fitters.py:366 | `np.median`: the middle of the sorted values, or the mean of the two middle ones; specified by `MedianSplitsInHalves` |
| QVDistributions.KeysAboveFacts | qiskit/ignis/verification/quantum_volume/fitters.py:350-351 | a key is kept iff its probability is strictly above the threshold; the result keeps key order, and distinct keys stay distinct |
| QVDistributions.HeavyStringsFacts | qiskit/ignis/verification/quantum_volume/fitters.py:337-351 | `_heavy_strings`: exactly the keys whose probability exceeds the median, and a subsequence of the keys in key order |
| QVDistributions.KeysAboveCount | qiskit/ignis/verification/quantum_volume/fitters.py:350-351 | as many keys are kept above a threshold as `dist.values()` has values above it |
| QVDistributions.SortSorted | qiskit/ignis/verification/quantum_volume/fitters.py:366 | the values sorted for the median are in increasing order and a permutation of the input |
| QVDistributions.MedianSplitsInHalves | qiskit/ignis/verification/quantum_volume/fitters.py:366 | at most half of the values lie strictly above the median, and at most half strictly below |
| QVDistributions.HeavyAtMostHalf | qiskit/ignis/verification/quantum_volume/fitters.py:131-133 | at most half of the outcomes of a distribution are heavy |
| QVDistributions.MedianProbabilities | qiskit/ignis/verification/quantum_volume/fitters.py:353-368 | `_median_probabilities` returns one median per distribution, in order, each the median of that distribution's values |
| QVDistributions.SubsetProbability | qiskit/ignis/verification/quantum_volume/fitters.py:370-383 | `_subset_probability` on a probability dict, absent strings counting 0; specified by the four `Subset…` lemmas below |
| QVDistributions.SubsetCount | qiskit/ignis/verification/quantum_volume/fitters.py:209-212 | `_subset_probability` on a count dict; specified by `HeavyCountAtMostShots` |
| QVDistributions.SubsetProbabilityAppend | qiskit/ignis/verification/quantum_volume/fitters.py:383 | the subset probability of a concatenation is the sum of the subset probabilities of the parts |
| QVDistributions.SubsetProbabilityAbsent | qiskit/ignis/verification/quantum_volume/fitters.py:383 | strings absent from the distribution contribute 0, and so does an empty list |
| QVDistributions.SubsequenceProbabilityBound | qiskit/ignis/verification/quantum_volume/fitters.py:370-383 | with non-negative probabilities, a subsequence has subset probability between 0 and that of the whole sequence |
| QVDistributions.SubsetProbabilityNonNegative | qiskit/ignis/verification/quantum_volume/fitters.py:383 | with non-negative probabilities, the subset probability is non-negative |
| QVDistributions.HeavyCountAtMostShots | qiskit/ignis/verification/quantum_volume/fitters.py:205-212 | for distinct heavy strings, the heavy count of a histogram is at most its number of shots |
| QVDistributions.MergeCounts | qiskit/ignis/verification/quantum_volume/fitters.py:202-203 | `build_counts_dict_from_list` as the pointwise sum of the histograms; specified by `MergeCountsPools` and `AddCountsShots` |
| QVDistributions.AddCountsShots | qiskit/ignis/verification/quantum_volume/fitters.py:202-206 | the shots of a merged pair are the sum of their shots |
| QVDistributions.MergeCountsPools | qiskit/ignis/verification/quantum_volume/fitters.py:202-206 | the merged histogram of a list counts each outcome as the sum over the list, and its shots are the total shots of the list |
| QVDistributions.SumValues | qiskit/ignis/verification/quantum_volume/fitters.py:205-206 | `sum(counts.values())` is the number of shots of the histogram |
| QuantumVolume.ReadIdeal | qiskit/ignis/verification/quantum_volume/fitters.py:114-139 | what one ideal circuit contributes: its width, and its heavy outputs and their probability when it can be loaded; specified by `ReadIdealFacts` |
| QuantumVolume.AddIdealExperiment | qiskit/ignis/verification/quantum_volume/fitters.py:114-139 | one pass of the inner loop of `add_statevectors`, raising in the source's order; specified by the `AddIdeal…` lemmas below |
| QuantumVolume.AddIdealExperiments | qiskit/ignis/verification/quantum_volume/fitters.py:111-139 | the loops of `add_statevectors`, stopping at the first exception; specified by `AddStatevectorsSucceeds`, `AddIdealRecordsAll`, `AddIdealKeepsEntries` and `AddStatevectorsKeepsValid` |
| QuantumVolume.ReadIdealFacts | qiskit/ignis/verification/quantum_volume/fitters.py:114-139 | a circuit's reading is accepted exactly when its name gives a non-negative width and its statevector is long enough; the entry is then its distinct heavy outputs and their ideal probability (when the circuit is stored: `AddStatevectorsSucceeds`, `AddIdealRejectsDuplicate`) |
| QuantumVolume.AddIdealConcat | qiskit/ignis/verification/quantum_volume/fitters.py:111-112 | loading the circuits of one result and then the rest is loading them all in one sequence |
| QuantumVolume.AddIdealKeepsValid | qiskit/ignis/verification/quantum_volume/fitters.py:132-139 | loading keeps both ideal dicts over the same circuits, with distinct heavy outputs |
| QuantumVolume.AddIdealAcceptsAll | qiskit/ignis/verification/quantum_volume/fitters.py:111-122 | a load that raises nothing accepted every circuit, none loaded before, and no name twice |
| QuantumVolume.AddIdealKeepsEntries | qiskit/ignis/verification/quantum_volume/fitters.py:120-139 | a load that raises nothing keeps the entries of every circuit loaded earlier |
| QuantumVolume.AddIdealRecordsAll | qiskit/ignis/verification/quantum_volume/fitters.py:132-139 | a load that raises nothing stores, under each circuit's name, its own heavy outputs and probability |
| QuantumVolume.AddIdealSucceedsWhen | qiskit/ignis/verification/quantum_volume/fitters.py:111-139 | a load raises nothing when every circuit is accepted and every name is new and unique |
| QuantumVolume.AddIdealRejectsDuplicate | qiskit/ignis/verification/quantum_volume/fitters.py:120-122 | adding the same circuit name twice raises |
| QuantumVolume.AddStatevectorsSucceeds | qiskit/ignis/verification/quantum_volume/fitters.py:105-139 | `add_statevectors` raises nothing iff every circuit is loadable, new and unique; each name then holds the heavy outputs of its ideal distribution and their probability |
| QuantumVolume.LoadIdealKeepsValid | qiskit/ignis/verification/quantum_volume/fitters.py:132-139 | loading one circuit keeps both ideal dicts over the same circuits, with distinct heavy outputs |
| QuantumVolume.AddStatevectorsKeepsValid | qiskit/ignis/verification/quantum_volume/fitters.py:111-139 | `add_statevectors` keeps the two ideal dicts consistent, whether or not it raises |
| QuantumVolume.IdealHeavyBounds | qiskit/ignis/verification/quantum_volume/fitters.py:127-139 | at most half of the 2^depth outcomes are heavy, and their ideal probability lies between 0 and the total probability |
| QuantumVolume.ScanTrial | qiskit/ignis/verification/quantum_volume/fitters.py:166-172 | one pass of the inner loop of `add_data`; specified by the `ScanTrials…` lemmas below |
| QuantumVolume.ScanParsedTrial | qiskit/ignis/verification/quantum_volume/fitters.py:167-172 | the same pass once the trial index has been read; specified through `ScanTrial` |
| QuantumVolume.ScanTrials | qiskit/ignis/verification/quantum_volume/fitters.py:165-172 | the inner loop of `add_data` over one result; specified by `ScanTrialsMonotone`, `ScanTrialsSucceeds` and `ScanTrialsMax` |
| QuantumVolume.AddResults | qiskit/ignis/verification/quantum_volume/fitters.py:160-172 | the loops of `add_data`; specified by the `AddResults…` lemmas below |
| QuantumVolume.ScanTrialsMonotone | qiskit/ignis/verification/quantum_volume/fitters.py:165-168 | scanning one result never lowers the trial count |
| QuantumVolume.ScanTrialsSucceeds | qiskit/ignis/verification/quantum_volume/fitters.py:165-172 | scanning one result raises nothing iff every circuit's trial index parses and its ideal data is loaded |
| QuantumVolume.ScanTrialsMax | qiskit/ignis/verification/quantum_volume/fitters.py:165-168 | after a scan, every trial index is below the count, and the count is the old one or some index plus one |
| QuantumVolume.ScanTrialsCovers | qiskit/ignis/verification/quantum_volume/fitters.py:165-172 | whether or not a scan raises, every circuit it reaches with a readable trial index, including a failing one whose ideal data is missing, lies below the new count |
| QuantumVolume.AddResultsMonotone | qiskit/ignis/verification/quantum_volume/fitters.py:160-172 | `add_data` never lowers `_ntrials` |
| QuantumVolume.AddResultsMaxPrefix | qiskit/ignis/verification/quantum_volume/fitters.py:160-172 | whether or not `add_data` raises, every circuit it reaches with a readable trial index lies below the new `_ntrials` |
| QuantumVolume.AddResultsSucceeds | qiskit/ignis/verification/quantum_volume/fitters.py:160-172 | `add_data` raises nothing iff every circuit of every new result is accepted |
| QuantumVolume.AddResultsAppends | qiskit/ignis/verification/quantum_volume/fitters.py:160-161 | `add_data` appends a prefix of the new results in order, and all of them when it raises nothing |
| QuantumVolume.AddResultsMax | qiskit/ignis/verification/quantum_volume/fitters.py:160-168 | after `add_data`, `_ntrials` is the maximum of its old value and the largest new trial index plus one |
| QuantumVolume.GetCounts | qiskit/ignis/verification/quantum_volume/fitters.py:198 | `result.get_counts(name)`: the histogram of the first circuit of that name, or none; specified through `CollectCounts` |
| QuantumVolume.CountList | qiskit/ignis/verification/quantum_volume/fitters.py:195-200 | the histograms of a circuit from every stored result that ran it, in order; specified through `CollectCounts` and `CalcDataBounds` |
| QuantumVolume.PooledCounts | qiskit/ignis/verification/quantum_volume/fitters.py:195-203 | the merged histogram of each circuit over all stored results; specified by `CalcDataBounds` |
| QuantumVolume.RecordCircuit | qiskit/ignis/verification/quantum_volume/fitters.py:202-212 | one pass of the inner loop of `calc_data`: shots stored before the heavy-outputs lookup; its effect is stated by `TallyCircuit` and the `Record…` lemmas below |
| QuantumVolume.RecordDepths | qiskit/ignis/verification/quantum_volume/fitters.py:191-212 | the loop of `calc_data` over the subset sizes of one trial; specified by `RecordDepthsSucceeds`, `RecordDepthsRecords` and `RecordDepthsFrame` |
| QuantumVolume.RecordTrials | qiskit/ignis/verification/quantum_volume/fitters.py:190-212 | the loop of `calc_data` over the trials; specified by `RecordTrialsSucceeds`, `RecordTrialsRecords`, `RecordTrialsFrame` and `CalcDataBounds` |
| QuantumVolume.RecordDepthsSucceeds | qiskit/ignis/verification/quantum_volume/fitters.py:191-212 | one trial of `calc_data` raises nothing iff every circuit of the trial has heavy outputs |
| QuantumVolume.RecordDepthsRecords | qiskit/ignis/verification/quantum_volume/fitters.py:191-212 | one trial records the pooled shots and heavy count of each of its circuits and keeps earlier records |
| QuantumVolume.RecordDepthsFrame | qiskit/ignis/verification/quantum_volume/fitters.py:191-212 | one trial leaves every other circuit's entries as they were |
| QuantumVolume.RecordTrialsSucceeds | qiskit/ignis/verification/quantum_volume/fitters.py:190-212 | `calc_data` raises nothing iff every circuit it tallies has heavy outputs |
| QuantumVolume.RecordTrialsRecords | qiskit/ignis/verification/quantum_volume/fitters.py:190-212 | `calc_data` records the pooled shots and heavy count of every (trial, width) circuit |
| QuantumVolume.RecordTrialsFrame | qiskit/ignis/verification/quantum_volume/fitters.py:190-212 | `calc_data` leaves the entries of circuits it does not tally as they were |
| QuantumVolume.CalcStatisticsKeysPresent | qiskit/ignis/verification/quantum_volume/fitters.py:227-235 | after a `calc_data` that raises nothing, every name `calc_statistics` looks up is a key of `_circ_shots`, `_heavy_output_counts` and `_heavy_output_prob_ideal` |
| QuantumVolume.CalcDataBounds | qiskit/ignis/verification/quantum_volume/fitters.py:195-212 | each tallied circuit's shots are the total shots of all results that ran it, and its heavy count is at most its shots |
| QuantumVolume.QVFitter.constructor | qiskit/ignis/verification/quantum_volume/fitters.py:47-56 | `_depths[i]` is the length of `qubit_lists[i]`, and everything else starts empty |
| QuantumVolume.QVFitter.QuantumVolume | qiskit/ignis/verification/quantum_volume/fitters.py:326-335 | one volume per qubit subset, in order, equal to 2^(`len(qubit_lists[i])`) |
| QuantumVolume.QVFitter.LoadIdealCircuit | qiskit/ignis/verification/quantum_volume/fitters.py:114-139 | loading one circuit is one step of the ideal-table fold with the real name parser, and the ideal dicts stay consistent |
| QuantumVolume.QVFitter.LoadIdealResult | qiskit/ignis/verification/quantum_volume/fitters.py:112-139 | loading the circuits of one result is the ideal-table fold over them, and the ideal dicts stay consistent |
| QuantumVolume.QVFitter.AddStatevectors | qiskit/ignis/verification/quantum_volume/fitters.py:95-139 | the new ideal tables and error are the fold over all circuits of all results; `None` changes nothing; the dicts stay consistent |
| QuantumVolume.QVFitter.ScanCircuit | qiskit/ignis/verification/quantum_volume/fitters.py:166-172 | one circuit's trial index raises the count, then the missing-ideal check |
| QuantumVolume.QVFitter.ScanCircuits | qiskit/ignis/verification/quantum_volume/fitters.py:165-172 | the new count and error are the scan of the result's circuits |
| QuantumVolume.QVFitter.AppendResults | qiskit/ignis/verification/quantum_volume/fitters.py:160-172 | each new result is appended and its circuits scanned, in order, stopping at the first exception: the fold over the new results |
| QuantumVolume.QVFitter.AddData | qiskit/ignis/verification/quantum_volume/fitters.py:141-176 | the new results list and trial count are the fold over the new results; when that raises nothing and a refit is asked for, the tallies are `calc_data`'s, otherwise unchanged |
| QuantumVolume.QVFitter.CollectCounts | qiskit/ignis/verification/quantum_volume/fitters.py:195-200 | the histograms of the circuit from each stored result that ran it, in order |
| QuantumVolume.QVFitter.TallyCircuit | qiskit/ignis/verification/quantum_volume/fitters.py:192-212 | one circuit's tally is one step of `calc_data` over the pooled histograms |
| QuantumVolume.QVFitter.TallyTrial | qiskit/ignis/verification/quantum_volume/fitters.py:191-212 | one trial's tallies are the fold of the per-circuit step over the subset sizes |
| QuantumVolume.QVFitter.CalcData | qiskit/ignis/verification/quantum_volume/fitters.py:178-212 | the new tallies and error are the fold over all trials and widths of the per-circuit step |
| QuantumVolume.NewQVFitter | qiskit/ignis/verification/quantum_volume/fitters.py:37-58 | `__init__` loads the ideal results first; if that raises, no backend result is added; with no backend results the results list and tallies stay empty; once the ideal results load (or there are none), `__init__` raises nothing without backend results, and otherwise its results list and count are those of `add_data`, it raises exactly the error of `add_data` or else of `calc_data`, and the tallies are those of `calc_data` |

## Left out

- The circuit builders `pauli_measurement_circuit` and `pauli_preparation_circuit`: they only call gate methods of `QuantumCircuit`, which is not part of this model.
- `TomographyBasis` is not part of this model. `PauliBasis` is modelled only as its two label lists and the two matrix functions.
- An outcome that equals 0 or 1 without being an int or a string (such as `0.0` or `False`, which Python's `in` also matches): outcomes are modelled as integers or strings only.
- The conversion of a statevector into probabilities (`np.multiply` of complex floats): each ideal circuit is given by its outcome probabilities.
- Floating point: probabilities are exact reals, and `float(np.real(...))` is the identity.
- `Result.get_statevector` and `Result.get_counts` are not part of this model. A result is a sequence of circuits, and `get_counts` returns the histogram of the first circuit with that name.
- `build_counts_dict_from_list` is not part of this model: it is modelled as the pointwise sum of the histograms.
- Hexadecimal count keys and the other conversions `Result` performs are left out.
- Wrapping of a single result that is not a list: the model always takes a sequence.
- `qubit_lists=None`: iterating `None` in the comprehension at fitters.py:48 raises `TypeError` in `__init__`. The model takes a sequence of qubit lists.
- `calc_statistics`, `qv_success` and `plot_qv_data`: floating-point means, `**0.5`, `math.erf` and plotting, so `_ydata` is not modelled either. `CalcStatisticsKeysPresent` states that every dict lookup `calc_statistics` makes after a `calc_data` that raises nothing finds its key. With no trials its divisions give `nan` (numpy warns and does not raise).
- `int()` accepts surrounding whitespace and non-ASCII digits. The model's `ParseInt` accepts only an optional sign followed by ASCII digits.
- In `add_statevectors` the code reads the width and checks for a duplicate before converting the statevector. The model computes the stored entry as part of reading the circuit. No state is changed in between, so nothing observable differs.
- MedianProbabilities: requires each distribution to have at least one value. `np.median` of an empty array returns `nan`, but the fitter never calls it on an empty map (2^depth ≥ 1 keys).
- The specification functions are stated for any name parser and any pooled histogram (`read`, `trialOf`, `pool`). The results for the fitter's own parsers follow through `ReadIdealFacts`, `AddStatevectorsSucceeds` and `CalcDataBounds`.
- AddResultsMax and ScanTrialsMax: the count is stated to be exactly the old one or some trial index plus one only for a call that raises nothing. On an exception, `AddResultsMaxPrefix` and `ScanTrialsCovers` state only that every circuit reached lies below the count.
- QuantumVolume.QVFitter.QuantumVolume: `2**np.array(self._depths)` is computed in numpy's fixed-width integers. With 64-bit integers a subset of 63 qubits gives a negative volume and one of 64 or more gives 0; with 32-bit integers this already happens at 31 qubits. The model's volume is the exact power of two, which is what numpy returns for smaller subsets.
