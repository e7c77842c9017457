/**
 * The quantum-volume fitter: it loads the ideal output distribution of each
 * model circuit, keeps the heavy outputs and their ideal probability, counts
 * trials as backend results arrive, and tallies measured heavy-output counts
 * and shots per circuit. Each step of the class below is specified by a pure
 * function of the state before it; the lemmas after those functions state
 * what the steps achieve.
 */
module QuantumVolume {
  import opened Wrappers
  import opened QVStrings
  import opened QVDistributions

  /** One circuit of a backend result: its name and its measured histogram. */
  datatype Experiment = Experiment(name: string, counts: Counts)

  /** A backend result: the circuits it ran, in order. */
  type BackendResult = seq<Experiment>

  /** One circuit of an ideal simulation: its name and the probability of each basis state, by index. */
  datatype IdealExperiment = IdealExperiment(name: string, probabilities: seq<real>)

  /** An ideal (statevector) simulation result. */
  type IdealResult = seq<IdealExperiment>

  /** The exceptions the fitter raises. */
  datatype QVError =
    | MalformedName(name: string)     // `int(...)` of a name field fails, or the name has too few fields
    | NegativeDepth(name: string)     // `range(2**depth)` with a negative depth
    | AlreadyAdded(name: string)      // the ideal result of this circuit was added before
    | ShortStatevector(name: string)  // fewer than 2^depth probabilities
    | IdealNotLoaded(name: string)    // a measured circuit whose ideal distribution is not loaded
    | NoHeavyOutputs(name: string)    // `calc_data` finds no heavy outputs for a circuit it tallies

  /** The circuits of a list of results, in order. */
  function Flatten<T>(results: seq<seq<T>>): seq<T>
    decreases |results|
  {
    if results == [] then [] else results[0] + Flatten(results[1..])
  }

  // ----- add_statevectors -----

  /** The two dicts `add_statevectors` fills: heavy outputs and ideal heavy-output probability per circuit. */
  datatype IdealTables = IdealTables(heavyOutputs: map<string, seq<string>>, heavyOutputProbIdeal: map<string, real>)

  /** Both dicts hold the same circuits, and no circuit lists a heavy output twice. */
  ghost predicate IdealTablesValid(t: IdealTables) {
    && t.heavyOutputs.Keys == t.heavyOutputProbIdeal.Keys
    && forall n :: n in t.heavyOutputs ==> Distinct(t.heavyOutputs[n])
  }

  /** The heavy outputs of a width-`depth` circuit with these outcome probabilities. */
  function IdealHeavyOutputs(depth: nat, probabilities: seq<real>): seq<string>
    requires |probabilities| >= Pow2(depth)
  {
    var pmap := ProbabilityMap(depth, probabilities);
    HeavyStrings(pmap, Median(DictValues(pmap)))
  }

  /** The ideal probability of the heavy outputs of such a circuit. */
  function IdealHeavyProbability(depth: nat, probabilities: seq<real>): real
    requires |probabilities| >= Pow2(depth)
  {
    SubsetProbability(IdealHeavyOutputs(depth, probabilities), ProbabilityMap(depth, probabilities).prob)
  }

  /** What loading one circuit stores: its heavy outputs and their ideal probability. */
  datatype IdealEntry = IdealEntry(heavy: seq<string>, probability: real)

  /**
   * What `add_statevectors` reads from one circuit: the subset size its name
   * gives (None when `int()` fails), and the entry it stores when that size
   * is non-negative and the statevector has 2^size amplitudes.
   */
  datatype IdealReading = IdealReading(depth: Option<int>, entry: Option<IdealEntry>)

  function ReadIdeal(e: IdealExperiment): IdealReading {
    match DepthOfName(e.name)
    case None => IdealReading(None, None)
    case Some(depth) =>
      if depth < 0 || |e.probabilities| < Pow2(depth) then IdealReading(Some(depth), None)
      else IdealReading(Some(depth), Some(IdealEntry(IdealHeavyOutputs(depth, e.probabilities),
                                                     IdealHeavyProbability(depth, e.probabilities))))
  }

  /** A circuit is loadable: its name gives a non-negative size and its statevector is long enough. */
  predicate IdealAccepted(e: IdealExperiment) {
    && DepthOfName(e.name).Some?
    && DepthOfName(e.name).value >= 0
    && |e.probabilities| >= Pow2(DepthOfName(e.name).value)
  }

  /** A reading the fitter stores. */
  predicate ReadingAccepted(r: IdealReading) {
    r.depth.Some? && r.depth.value >= 0 && r.entry.Some?
  }

  /**
   * The reading of a circuit is accepted exactly when the circuit is
   * loadable; its entry is then the heavy outputs of the circuit's ideal
   * distribution, pairwise distinct, and their ideal probability.
   */
  lemma ReadIdealFacts(e: IdealExperiment)
    ensures ReadIdeal(e).depth == DepthOfName(e.name)
    ensures ReadingAccepted(ReadIdeal(e)) <==> IdealAccepted(e)
    ensures ReadIdeal(e).entry.Some? ==> ReadingAccepted(ReadIdeal(e))
    ensures IdealAccepted(e) ==>
      var depth: nat := DepthOfName(e.name).value;
      && ReadIdeal(e).entry.value.heavy == IdealHeavyOutputs(depth, e.probabilities)
      && ReadIdeal(e).entry.value.probability == IdealHeavyProbability(depth, e.probabilities)
      && Distinct(ReadIdeal(e).entry.value.heavy)
  {
    if IdealAccepted(e) {
      var depth: nat := DepthOfName(e.name).value;
      var pmap := ProbabilityMap(depth, e.probabilities);
      ProbabilityMapKeys(depth, e.probabilities);
      HeavyStringsFacts(pmap, Median(DictValues(pmap)));
    }
  }

  /** One pass of the inner loop of `add_statevectors`; on an exception, the tables as they were. */
  function AddIdealExperiment(t: IdealTables, e: IdealExperiment, read: IdealExperiment -> IdealReading): (IdealTables, Option<QVError>) {
    var r := read(e);
    if r.depth.None? then (t, Some(MalformedName(e.name)))
    else if e.name in t.heavyOutputs then (t, Some(AlreadyAdded(e.name)))
    else if r.depth.value < 0 then (t, Some(NegativeDepth(e.name)))
    else if r.entry.None? then (t, Some(ShortStatevector(e.name)))
    else
      (IdealTables(t.heavyOutputs[e.name := r.entry.value.heavy],
                   t.heavyOutputProbIdeal[e.name := r.entry.value.probability]),
       None)
  }

  /**
   * `add_statevectors` over a list of circuits, each read by `read`, stopping
   * at the first exception with the tables as they are then.
   */
  function AddIdealExperiments(t: IdealTables, exps: seq<IdealExperiment>, read: IdealExperiment -> IdealReading): (IdealTables, Option<QVError>)
    decreases |exps|
  {
    if exps == [] then (t, None)
    else
      var (t1, err) := AddIdealExperiment(t, exps[0], read);
      if err.Some? then (t1, err) else AddIdealExperiments(t1, exps[1..], read)
  }

  /** Loading a list of circuits then another is loading their concatenation. */
  lemma {:induction false} AddIdealConcat(t: IdealTables, a: seq<IdealExperiment>, b: seq<IdealExperiment>,
                                          read: IdealExperiment -> IdealReading)
    ensures var (t1, err) := AddIdealExperiments(t, a, read);
      AddIdealExperiments(t, a + b, read) == if err.Some? then (t1, err) else AddIdealExperiments(t1, b, read)
    decreases |a|
  {
    if a == [] {
      assert a + b == b;
    } else {
      var (t1, err) := AddIdealExperiment(t, a[0], read);
      assert (a + b)[0] == a[0] && (a + b)[1..] == a[1..] + b;
      if err.None? {
        AddIdealConcat(t1, a[1..], b, read);
      }
    }
  }

  /** Loading from the j-th circuit on: first that circuit, then, when it raises nothing, the rest. */
  lemma AddIdealStep(t: IdealTables, exps: seq<IdealExperiment>, j: nat, read: IdealExperiment -> IdealReading)
    requires j < |exps|
    ensures var (t1, err) := AddIdealExperiment(t, exps[j], read);
      AddIdealExperiments(t, exps[j..], read) == if err.Some? then (t1, err) else AddIdealExperiments(t1, exps[j + 1..], read)
  {
    assert exps[j..][0] == exps[j] && exps[j..][1..] == exps[j + 1..];
  }

  /** Loading keeps the two dicts over the same circuits, with distinct heavy outputs. */
  lemma {:induction false} AddIdealKeepsValid(t: IdealTables, exps: seq<IdealExperiment>, read: IdealExperiment -> IdealReading)
    requires IdealTablesValid(t)
    requires forall i :: 0 <= i < |exps| && read(exps[i]).entry.Some? ==> Distinct(read(exps[i]).entry.value.heavy)
    ensures IdealTablesValid(AddIdealExperiments(t, exps, read).0)
    decreases |exps|
  {
    if exps != [] {
      var (t1, err) := AddIdealExperiment(t, exps[0], read);
      assert IdealTablesValid(t1);
      if err.None? {
        assert forall i :: 1 <= i < |exps| ==> exps[i] == exps[1..][i - 1];
        AddIdealKeepsValid(t1, exps[1..], read);
      }
    }
  }

  /**
   * A load that raises nothing accepted every reading, and added each name
   * once: none of them loaded before and none twice.
   */
  lemma {:induction false} AddIdealAcceptsAll(t: IdealTables, exps: seq<IdealExperiment>, read: IdealExperiment -> IdealReading)
    requires AddIdealExperiments(t, exps, read).1.None?
    ensures forall i :: 0 <= i < |exps| ==> ReadingAccepted(read(exps[i])) && exps[i].name !in t.heavyOutputs
    ensures forall i, j :: 0 <= i < j < |exps| ==> exps[i].name != exps[j].name
    decreases |exps|
  {
    if exps != [] {
      var (t1, err) := AddIdealExperiment(t, exps[0], read);
      assert exps[0].name in t1.heavyOutputs;
      assert t.heavyOutputs.Keys <= t1.heavyOutputs.Keys;
      AddIdealAcceptsAll(t1, exps[1..], read);
      assert forall i :: 1 <= i < |exps| ==> exps[i] == exps[1..][i - 1];
    }
  }

  /** A load that raises nothing keeps every circuit loaded before it, with its entries. */
  lemma {:induction false} AddIdealKeepsEntries(t: IdealTables, exps: seq<IdealExperiment>, read: IdealExperiment -> IdealReading)
    requires AddIdealExperiments(t, exps, read).1.None?
    ensures var r := AddIdealExperiments(t, exps, read).0;
      forall n :: n in t.heavyOutputs ==>
        && n in r.heavyOutputs && r.heavyOutputs[n] == t.heavyOutputs[n]
        && (n in t.heavyOutputProbIdeal ==>
              n in r.heavyOutputProbIdeal && r.heavyOutputProbIdeal[n] == t.heavyOutputProbIdeal[n])
    decreases |exps|
  {
    if exps != [] {
      var (t1, err) := AddIdealExperiment(t, exps[0], read);
      AddIdealKeepsEntries(t1, exps[1..], read);
    }
  }

  /** A load that raises nothing stores, under each circuit's name, the entry of its reading. */
  lemma {:induction false} AddIdealRecordsAll(t: IdealTables, exps: seq<IdealExperiment>, read: IdealExperiment -> IdealReading)
    requires AddIdealExperiments(t, exps, read).1.None?
    ensures forall i :: 0 <= i < |exps| ==> read(exps[i]).entry.Some?
    ensures var r := AddIdealExperiments(t, exps, read).0;
      forall i :: 0 <= i < |exps| ==>
        && exps[i].name in r.heavyOutputs && exps[i].name in r.heavyOutputProbIdeal
        && r.heavyOutputs[exps[i].name] == read(exps[i]).entry.value.heavy
        && r.heavyOutputProbIdeal[exps[i].name] == read(exps[i]).entry.value.probability
    decreases |exps|
  {
    AddIdealAcceptsAll(t, exps, read);
    if exps != [] {
      var (t1, err) := AddIdealExperiment(t, exps[0], read);
      AddIdealRecordsAll(t1, exps[1..], read);
      AddIdealKeepsEntries(t1, exps[1..], read);
      assert forall i :: 1 <= i < |exps| ==> exps[i] == exps[1..][i - 1];
    }
  }

  /** Conversely, a load raises nothing when every reading is accepted and every name is new and unique. */
  lemma {:induction false} AddIdealSucceedsWhen(t: IdealTables, exps: seq<IdealExperiment>, read: IdealExperiment -> IdealReading)
    requires forall i :: 0 <= i < |exps| ==> ReadingAccepted(read(exps[i])) && exps[i].name !in t.heavyOutputs
    requires forall i, j :: 0 <= i < j < |exps| ==> exps[i].name != exps[j].name
    ensures AddIdealExperiments(t, exps, read).1.None?
    decreases |exps|
  {
    if exps != [] {
      var (t1, err) := AddIdealExperiment(t, exps[0], read);
      assert t1.heavyOutputs.Keys == t.heavyOutputs.Keys + {exps[0].name};
      assert forall i :: 1 <= i < |exps| ==> exps[i] == exps[1..][i - 1];
      AddIdealSucceedsWhen(t1, exps[1..], read);
    }
  }

  /** `add_statevectors` raises when a circuit is added a second time. */
  lemma AddIdealRejectsDuplicate(t: IdealTables, exps: seq<IdealExperiment>, read: IdealExperiment -> IdealReading, i: nat, j: nat)
    requires i < j < |exps| && exps[i].name == exps[j].name
    ensures AddIdealExperiments(t, exps, read).1.Some?
  {
    if AddIdealExperiments(t, exps, read).1.None? {
      AddIdealAcceptsAll(t, exps, read);
    }
  }

  /**
   * `add_statevectors` with the fitter's own reading raises nothing exactly
   * when every circuit is loadable and its name is new and unique; then each
   * circuit's name holds its heavy outputs and their ideal probability.
   */
  lemma AddStatevectorsSucceeds(t: IdealTables, exps: seq<IdealExperiment>)
    ensures AddIdealExperiments(t, exps, ReadIdeal).1.None? <==>
      && (forall i :: 0 <= i < |exps| ==> IdealAccepted(exps[i]) && exps[i].name !in t.heavyOutputs)
      && (forall i, j :: 0 <= i < j < |exps| ==> exps[i].name != exps[j].name)
    ensures AddIdealExperiments(t, exps, ReadIdeal).1.None? ==>
      var r := AddIdealExperiments(t, exps, ReadIdeal).0;
      forall i :: 0 <= i < |exps| ==>
        var depth: nat := DepthOfName(exps[i].name).value;
        && exps[i].name in r.heavyOutputs && exps[i].name in r.heavyOutputProbIdeal
        && r.heavyOutputs[exps[i].name] == IdealHeavyOutputs(depth, exps[i].probabilities)
        && r.heavyOutputProbIdeal[exps[i].name] == IdealHeavyProbability(depth, exps[i].probabilities)
  {
    forall i | 0 <= i < |exps| {
      ReadIdealFacts(exps[i]);
    }
    if AddIdealExperiments(t, exps, ReadIdeal).1.None? {
      AddIdealAcceptsAll(t, exps, ReadIdeal);
      AddIdealRecordsAll(t, exps, ReadIdeal);
    } else if (forall i :: 0 <= i < |exps| ==> IdealAccepted(exps[i]) && exps[i].name !in t.heavyOutputs)
           && (forall i, j :: 0 <= i < j < |exps| ==> exps[i].name != exps[j].name) {
      AddIdealSucceedsWhen(t, exps, ReadIdeal);
    }
  }

  /** Loading one circuit with the fitter's own reading keeps the ideal tables consistent. */
  lemma LoadIdealKeepsValid(t: IdealTables, e: IdealExperiment)
    requires IdealTablesValid(t)
    ensures IdealTablesValid(AddIdealExperiment(t, e, ReadIdeal).0)
  {
    var r := ReadIdeal(e);
    if r.entry.Some? {
      ReadIdealFacts(e);
      assert Distinct(r.entry.value.heavy);
    }
  }

  /** `add_statevectors` keeps the two dicts over the same circuits, with distinct heavy outputs, whether or not it raises. */
  lemma AddStatevectorsKeepsValid(t: IdealTables, exps: seq<IdealExperiment>)
    requires IdealTablesValid(t)
    ensures IdealTablesValid(AddIdealExperiments(t, exps, ReadIdeal).0)
  {
    forall i | 0 <= i < |exps| {
      ReadIdealFacts(exps[i]);
    }
    AddIdealKeepsValid(t, exps, ReadIdeal);
  }

  /**
   * At most half of the outcomes of a loaded circuit are heavy, and their
   * ideal probability is at most the total probability of its outcomes.
   */
  lemma IdealHeavyBounds(depth: nat, probabilities: seq<real>)
    requires |probabilities| >= Pow2(depth)
    requires forall b :: 0 <= b < |probabilities| ==> probabilities[b] >= 0.0
    ensures |IdealHeavyOutputs(depth, probabilities)| <= Pow2(depth) / 2
    ensures 0.0 <= IdealHeavyProbability(depth, probabilities)
    ensures IdealHeavyProbability(depth, probabilities)
      <= SubsetProbability(ProbabilityMap(depth, probabilities).keys, ProbabilityMap(depth, probabilities).prob)
  {
    var pmap := ProbabilityMap(depth, probabilities);
    HeavyAtMostHalf(pmap);
    HeavyStringsFacts(pmap, Median(DictValues(pmap)));
    ProbabilityMapEntries(depth, probabilities);
    forall k | k in pmap.prob ensures pmap.prob[k] >= 0.0 {
      var b :| 0 <= b < |pmap.keys| && pmap.keys[b] == k;
    }
    SubsequenceProbabilityBound(IdealHeavyOutputs(depth, probabilities), pmap.keys, pmap.prob);
  }

  // ----- add_data -----

  /** What `add_data` updates: the list of results and the number of trials. */
  datatype Tally = Tally(resultList: seq<BackendResult>, ntrials: nat)

  /**
   * One pass of the inner loop of `add_data`: the circuit's trial index, read
   * by `trialOf`, raises the trial count past it, and then its ideal data
   * must be loaded.
   */
  function ScanTrial(ntrials: nat, name: string, loaded: set<string>, trialOf: string -> Option<int>): (nat, Option<QVError>) {
    ScanParsedTrial(ntrials, name, loaded, trialOf(name))
  }

  /** `ScanTrial` once the circuit's trial index has been read as `parsed`. */
  function ScanParsedTrial(ntrials: nat, name: string, loaded: set<string>, parsed: Option<int>): (nat, Option<QVError>) {
    match parsed
    case None => (ntrials, Some(MalformedName(name)))
    case Some(trial) =>
      var raised: nat := if trial + 1 > ntrials then trial + 1 else ntrials;
      if name !in loaded then (raised, Some(IdealNotLoaded(name))) else (raised, None)
  }

  /** The inner loop of `add_data` over the circuits of one result. */
  function ScanTrials(ntrials: nat, exps: seq<Experiment>, loaded: set<string>, trialOf: string -> Option<int>): (nat, Option<QVError>)
    decreases |exps|
  {
    if exps == [] then (ntrials, None)
    else
      var (n, err) := ScanTrial(ntrials, exps[0].name, loaded, trialOf);
      if err.Some? then (n, err) else ScanTrials(n, exps[1..], loaded, trialOf)
  }

  /** The outer loop of `add_data`: append each result, then scan its circuits. */
  function AddResults(t: Tally, results: seq<BackendResult>, loaded: set<string>, trialOf: string -> Option<int>): (Tally, Option<QVError>)
    decreases |results|
  {
    if results == [] then (t, None)
    else
      var list := t.resultList + [results[0]];
      var (n, err) := ScanTrials(t.ntrials, results[0], loaded, trialOf);
      if err.Some? then (Tally(list, n), err) else AddResults(Tally(list, n), results[1..], loaded, trialOf)
  }

  /** `add_data` accepts a circuit when its trial index reads and its ideal data is loaded. */
  predicate DataAccepted(e: Experiment, loaded: set<string>, trialOf: string -> Option<int>) {
    trialOf(e.name).Some? && e.name in loaded
  }

  /** Scanning never lowers the trial count, even when it raises. */
  lemma {:induction false} ScanTrialsMonotone(ntrials: nat, exps: seq<Experiment>, loaded: set<string>, trialOf: string -> Option<int>)
    ensures ScanTrials(ntrials, exps, loaded, trialOf).0 >= ntrials
    decreases |exps|
  {
    if exps != [] {
      var (n, err) := ScanTrial(ntrials, exps[0].name, loaded, trialOf);
      if err.None? {
        ScanTrialsMonotone(n, exps[1..], loaded, trialOf);
      }
    }
  }

  /** Scanning one result raises nothing exactly when every circuit of it is accepted. */
  lemma {:induction false} ScanTrialsSucceeds(ntrials: nat, exps: seq<Experiment>, loaded: set<string>, trialOf: string -> Option<int>)
    ensures ScanTrials(ntrials, exps, loaded, trialOf).1.None? <==>
      forall i :: 0 <= i < |exps| ==> DataAccepted(exps[i], loaded, trialOf)
    decreases |exps|
  {
    if exps != [] {
      var (n, err) := ScanTrial(ntrials, exps[0].name, loaded, trialOf);
      if err.None? {
        ScanTrialsSucceeds(n, exps[1..], loaded, trialOf);
        assert forall i :: 1 <= i < |exps| ==> exps[i] == exps[1..][i - 1];
      }
    }
  }

  /**
   * After a scan that raises nothing, every trial index of the result is
   * below the trial count, and the count is the old one or one of those
   * indices plus one.
   */
  lemma {:induction false} ScanTrialsMax(ntrials: nat, exps: seq<Experiment>, loaded: set<string>, trialOf: string -> Option<int>)
    requires ScanTrials(ntrials, exps, loaded, trialOf).1.None?
    ensures var n := ScanTrials(ntrials, exps, loaded, trialOf).0;
      && (forall i :: 0 <= i < |exps| ==> trialOf(exps[i].name).Some? && trialOf(exps[i].name).value < n)
      && (n == ntrials || exists i :: 0 <= i < |exps| && trialOf(exps[i].name) == Some(n - 1))
    decreases |exps|
  {
    if exps != [] {
      var (n0, _) := ScanTrial(ntrials, exps[0].name, loaded, trialOf);
      var n := ScanTrials(ntrials, exps, loaded, trialOf).0;
      assert n == ScanTrials(n0, exps[1..], loaded, trialOf).0;
      ScanTrialsMax(n0, exps[1..], loaded, trialOf);
      ScanTrialsMonotone(n0, exps[1..], loaded, trialOf);
      assert forall i :: 1 <= i < |exps| ==> exps[i] == exps[1..][i - 1];
      if n != ntrials {
        if n == n0 {
          assert trialOf(exps[0].name) == Some(n - 1);
        } else {
          var i :| 0 <= i < |exps[1..]| && trialOf(exps[1..][i].name) == Some(n - 1);
          assert trialOf(exps[i + 1].name) == Some(n - 1);
        }
      }
    }
  }

  /** Every circuit of the list is accepted by `add_data`. */
  ghost predicate AllAccepted(exps: seq<Experiment>, loaded: set<string>, trialOf: string -> Option<int>) {
    forall l :: 0 <= l < |exps| ==> DataAccepted(exps[l], loaded, trialOf)
  }

  /**
   * Whether or not the scan raises, every circuit it reaches whose trial
   * index reads ends below the trial count: the circuits before the first
   * exception, and the failing one when only its ideal data is missing.
   */
  lemma {:induction false} ScanTrialsCovers(ntrials: nat, exps: seq<Experiment>, loaded: set<string>, trialOf: string -> Option<int>)
    ensures var n := ScanTrials(ntrials, exps, loaded, trialOf).0;
      forall i :: 0 <= i < |exps| && AllAccepted(exps[..i], loaded, trialOf) && trialOf(exps[i].name).Some? ==>
        trialOf(exps[i].name).value < n
    decreases |exps|
  {
    if exps != [] {
      assert forall i :: 1 <= i <= |exps| ==> exps[..i][0] == exps[0];
      var (n0, err) := ScanTrial(ntrials, exps[0].name, loaded, trialOf);
      var n := ScanTrials(ntrials, exps, loaded, trialOf).0;
      if err.None? {
        ScanTrialsMonotone(n0, exps[1..], loaded, trialOf);
        ScanTrialsCovers(n0, exps[1..], loaded, trialOf);
        forall i | 1 <= i < |exps| && AllAccepted(exps[..i], loaded, trialOf) && trialOf(exps[i].name).Some?
          ensures trialOf(exps[i].name).value < n
        {
          assert exps[1..][..i - 1] == exps[..i][1..];
          assert AllAccepted(exps[1..][..i - 1], loaded, trialOf);
          assert exps[1..][i - 1] == exps[i];
        }
      }
    }
  }

  /**
   * Whether or not `add_data` raises, every circuit it reaches whose trial
   * index reads ends below the trial count: the circuits of the results
   * before the failing one, those before the failing circuit in it, and the
   * failing circuit when only its ideal data is missing.
   */
  lemma {:induction false} AddResultsMaxPrefix(t: Tally, results: seq<BackendResult>, loaded: set<string>, trialOf: string -> Option<int>)
    ensures var n := AddResults(t, results, loaded, trialOf).0.ntrials;
      forall i, j ::
        (&& 0 <= i < |results| && 0 <= j < |results[i]|
         && (forall k :: 0 <= k < i ==> AllAccepted(results[k], loaded, trialOf))
         && AllAccepted(results[i][..j], loaded, trialOf) && trialOf(results[i][j].name).Some?) ==>
        trialOf(results[i][j].name).value < n
    decreases |results|
  {
    if results != [] {
      var list := t.resultList + [results[0]];
      var (n1, err) := ScanTrials(t.ntrials, results[0], loaded, trialOf);
      var n := AddResults(t, results, loaded, trialOf).0.ntrials;
      ScanTrialsCovers(t.ntrials, results[0], loaded, trialOf);
      ScanTrialsSucceeds(t.ntrials, results[0], loaded, trialOf);
      if err.None? {
        AddResultsMonotone(Tally(list, n1), results[1..], loaded, trialOf);
        AddResultsMaxPrefix(Tally(list, n1), results[1..], loaded, trialOf);
        forall i, j | 1 <= i < |results| && 0 <= j < |results[i]|
          && (forall k :: 0 <= k < i ==> AllAccepted(results[k], loaded, trialOf))
          && AllAccepted(results[i][..j], loaded, trialOf) && trialOf(results[i][j].name).Some?
          ensures trialOf(results[i][j].name).value < n
        {
          assert results[1..][i - 1] == results[i];
          assert forall k :: 0 <= k < i - 1 ==> results[1..][k] == results[k + 1];
        }
      }
    }
  }

  /** `add_data` never lowers the trial count, even when it raises. */
  lemma {:induction false} AddResultsMonotone(t: Tally, results: seq<BackendResult>, loaded: set<string>, trialOf: string -> Option<int>)
    ensures AddResults(t, results, loaded, trialOf).0.ntrials >= t.ntrials
    decreases |results|
  {
    if results != [] {
      var (n, err) := ScanTrials(t.ntrials, results[0], loaded, trialOf);
      ScanTrialsMonotone(t.ntrials, results[0], loaded, trialOf);
      if err.None? {
        AddResultsMonotone(Tally(t.resultList + [results[0]], n), results[1..], loaded, trialOf);
      }
    }
  }

  /** `add_data` raises nothing exactly when every circuit of every new result is accepted. */
  lemma {:induction false} AddResultsSucceeds(t: Tally, results: seq<BackendResult>, loaded: set<string>, trialOf: string -> Option<int>)
    ensures AddResults(t, results, loaded, trialOf).1.None? <==>
      forall i, j :: 0 <= i < |results| && 0 <= j < |results[i]| ==> DataAccepted(results[i][j], loaded, trialOf)
    decreases |results|
  {
    if results != [] {
      var (n, err) := ScanTrials(t.ntrials, results[0], loaded, trialOf);
      ScanTrialsSucceeds(t.ntrials, results[0], loaded, trialOf);
      if err.None? {
        AddResultsSucceeds(Tally(t.resultList + [results[0]], n), results[1..], loaded, trialOf);
        assert forall i :: 1 <= i < |results| ==> results[i] == results[1..][i - 1];
      }
    }
  }

  /**
   * `add_data` appends the results it reaches in order, whether or not it
   * raises; when it raises nothing it appends all of them.
   */
  lemma {:induction false} AddResultsAppends(t: Tally, results: seq<BackendResult>, loaded: set<string>, trialOf: string -> Option<int>)
    ensures var r := AddResults(t, results, loaded, trialOf);
      exists k :: 0 <= k <= |results| && r.0.resultList == t.resultList + results[..k] &&
        (r.1.None? ==> k == |results|)
    decreases |results|
  {
    if results != [] {
      var list := t.resultList + [results[0]];
      var (n, err) := ScanTrials(t.ntrials, results[0], loaded, trialOf);
      if err.Some? {
        assert AddResults(t, results, loaded, trialOf).0.resultList == t.resultList + results[..1];
      } else {
        AddResultsAppends(Tally(list, n), results[1..], loaded, trialOf);
        var r := AddResults(t, results, loaded, trialOf);
        var k :| 0 <= k <= |results[1..]| && r.0.resultList == list + results[1..][..k] &&
          (r.1.None? ==> k == |results[1..]|);
        assert list + results[1..][..k] == t.resultList + results[..k + 1];
      }
    } else {
      assert AddResults(t, results, loaded, trialOf).0.resultList == t.resultList + results[..0];
    }
  }

  /**
   * After an `add_data` that raises nothing, every new trial index is below
   * the trial count, and the count is the old one or one of them plus one.
   */
  lemma {:induction false} AddResultsMax(t: Tally, results: seq<BackendResult>, loaded: set<string>, trialOf: string -> Option<int>)
    requires AddResults(t, results, loaded, trialOf).1.None?
    ensures var n := AddResults(t, results, loaded, trialOf).0.ntrials;
      && (forall i, j :: 0 <= i < |results| && 0 <= j < |results[i]| ==>
            trialOf(results[i][j].name).Some? && trialOf(results[i][j].name).value < n)
      && (n == t.ntrials ||
          exists i, j ::
            0 <= i < |results| && 0 <= j < |results[i]| && trialOf(results[i][j].name) == Some(n - 1))
    decreases |results|
  {
    if results != [] {
      var (n0, _) := ScanTrials(t.ntrials, results[0], loaded, trialOf);
      ScanTrialsMax(t.ntrials, results[0], loaded, trialOf);
      ScanTrialsMonotone(t.ntrials, results[0], loaded, trialOf);
      var t1 := Tally(t.resultList + [results[0]], n0);
      AddResultsMax(t1, results[1..], loaded, trialOf);
      AddResultsMonotone(t1, results[1..], loaded, trialOf);
      var n := AddResults(t, results, loaded, trialOf).0.ntrials;
      assert n == AddResults(t1, results[1..], loaded, trialOf).0.ntrials;
      assert forall i :: 1 <= i < |results| ==> results[i] == results[1..][i - 1];
      if n != t.ntrials {
        if n == n0 {
          var j :| 0 <= j < |results[0]| && trialOf(results[0][j].name) == Some(n - 1);
          assert trialOf(results[0][j].name) == Some(n - 1);
        } else {
          var i, j :| 0 <= i < |results[1..]| && 0 <= j < |results[1..][i]| &&
            trialOf(results[1..][i][j].name) == Some(n - 1);
          assert trialOf(results[i + 1][j].name) == Some(n - 1);
        }
      }
    }
  }

  // ----- calc_data -----

  /** `result.get_counts(name)`: the histogram of the first circuit of that name, if any. */
  function GetCounts(result: BackendResult, name: string): Option<Counts>
    decreases |result|
  {
    if result == [] then None
    else if result[0].name == name then Some(result[0].counts)
    else GetCounts(result[1..], name)
  }

  /** The histograms of a circuit from all results that ran it, in result order. */
  function CountList(results: seq<BackendResult>, name: string): seq<Counts>
    decreases |results|
  {
    if results == [] then []
    else
      var earlier := CountList(results[..|results| - 1], name);
      match GetCounts(results[|results| - 1], name)
      case Some(c) => earlier + [c]
      case None => earlier
  }

  /** The histogram of each circuit pooled over all results. */
  function PooledCounts(results: seq<BackendResult>): string -> Counts {
    name => MergeCounts(CountList(results, name))
  }

  /** The two dicts `calc_data` fills: shots and measured heavy-output counts per circuit. */
  datatype CountTables = CountTables(circShots: map<string, nat>, heavyOutputCounts: map<string, nat>)

  /**
   * The body of the inner loop of `calc_data` for one circuit, given its
   * pooled histogram by `pool`: store its shots, then its heavy-output count.
   */
  ghost function RecordCircuit(c: CountTables, name: string, pool: string -> Counts,
                               heavy: map<string, seq<string>>): (CountTables, Option<QVError>)
  {
    var c1 := c.(circShots := c.circShots[name := Shots(pool(name))]);
    if name !in heavy then (c1, Some(NoHeavyOutputs(name)))
    else (c1.(heavyOutputCounts := c1.heavyOutputCounts[name := SubsetCount(heavy[name], pool(name))]), None)
  }

  /** The inner loop of `calc_data` over the subset sizes, for one trial. */
  ghost function RecordDepths(c: CountTables, trial: nat, depths: seq<nat>, pool: string -> Counts,
                              heavy: map<string, seq<string>>): (CountTables, Option<QVError>)
    decreases |depths|
  {
    if depths == [] then (c, None)
    else
      var (c1, err) := RecordCircuit(c, CircuitName(depths[0], trial), pool, heavy);
      if err.Some? then (c1, err) else RecordDepths(c1, trial, depths[1..], pool, heavy)
  }

  /** The outer loop of `calc_data` over the trials from `trial` up to `ntrials`. */
  ghost function RecordTrials(c: CountTables, trial: nat, ntrials: nat, depths: seq<nat>, pool: string -> Counts,
                              heavy: map<string, seq<string>>): (CountTables, Option<QVError>)
    decreases ntrials - trial
  {
    if trial >= ntrials then (c, None)
    else
      var (c1, err) := RecordDepths(c, trial, depths, pool, heavy);
      if err.Some? then (c1, err) else RecordTrials(c1, trial + 1, ntrials, depths, pool, heavy)
  }

  /** Tallying from the k-th subset size on: first that circuit, then, when it raises nothing, the rest. */
  lemma RecordDepthsStep(c: CountTables, trial: nat, depths: seq<nat>, k: nat, pool: string -> Counts,
                         heavy: map<string, seq<string>>)
    requires k < |depths|
    ensures var (c1, err) := RecordCircuit(c, CircuitName(depths[k], trial), pool, heavy);
      RecordDepths(c, trial, depths[k..], pool, heavy)
        == if err.Some? then (c1, err) else RecordDepths(c1, trial, depths[k + 1..], pool, heavy)
  {
    assert depths[k..][0] == depths[k] && depths[k..][1..] == depths[k + 1..];
  }

  /** Tallying from trial `trial` on: first that trial, then, when it raises nothing, the later ones. */
  lemma RecordTrialsStep(c: CountTables, trial: nat, ntrials: nat, depths: seq<nat>, pool: string -> Counts,
                         heavy: map<string, seq<string>>)
    requires trial < ntrials
    ensures var (c1, err) := RecordDepths(c, trial, depths, pool, heavy);
      RecordTrials(c, trial, ntrials, depths, pool, heavy)
        == if err.Some? then (c1, err) else RecordTrials(c1, trial + 1, ntrials, depths, pool, heavy)
  {
  }

  /** The tables hold a circuit's pooled shots and its pooled heavy-output count. */
  ghost predicate Recorded(c: CountTables, name: string, pool: string -> Counts, heavy: map<string, seq<string>>) {
    && name in heavy && name in c.circShots && name in c.heavyOutputCounts
    && c.circShots[name] == Shots(pool(name))
    && c.heavyOutputCounts[name] == SubsetCount(heavy[name], pool(name))
  }

  /** Both tables hold the same entry, or both no entry, for `name`. */
  ghost predicate AgreeAt(c: CountTables, r: CountTables, name: string) {
    && (name in r.circShots <==> name in c.circShots)
    && (name in c.circShots ==> r.circShots[name] == c.circShots[name])
    && (name in r.heavyOutputCounts <==> name in c.heavyOutputCounts)
    && (name in c.heavyOutputCounts ==> r.heavyOutputCounts[name] == c.heavyOutputCounts[name])
  }

  /** Recording one circuit records it, keeps what was recorded, and touches no other name. */
  lemma RecordCircuitFacts(c: CountTables, name: string, pool: string -> Counts, heavy: map<string, seq<string>>)
    ensures RecordCircuit(c, name, pool, heavy).1.None? <==> name in heavy
    ensures var r := RecordCircuit(c, name, pool, heavy).0;
      && (name in heavy ==> Recorded(r, name, pool, heavy))
      && (forall m :: Recorded(c, m, pool, heavy) ==> Recorded(r, m, pool, heavy))
      && (forall m :: m != name ==> AgreeAt(c, r, m))
  {
  }

  /** Every circuit of trial `trial` has heavy outputs. */
  ghost predicate TrialLoaded(trial: nat, depths: seq<nat>, heavy: map<string, seq<string>>) {
    forall i :: 0 <= i < |depths| ==> CircuitName(depths[i], trial) in heavy
  }

  /** One trial raises nothing exactly when every circuit of the trial has heavy outputs. */
  lemma {:induction false} RecordDepthsSucceeds(c: CountTables, trial: nat, depths: seq<nat>, pool: string -> Counts,
                                               heavy: map<string, seq<string>>)
    ensures RecordDepths(c, trial, depths, pool, heavy).1.None? <==> TrialLoaded(trial, depths, heavy)
    decreases |depths|
  {
    if depths != [] {
      var (c1, err1) := RecordCircuit(c, CircuitName(depths[0], trial), pool, heavy);
      if err1.None? {
        RecordDepthsSucceeds(c1, trial, depths[1..], pool, heavy);
        assert forall i :: 1 <= i < |depths| ==> depths[i] == depths[1..][i - 1];
      }
    }
  }

  /**
   * A trial that raises nothing records each of its circuits and keeps what
   * was recorded before.
   */
  lemma {:induction false} RecordDepthsRecords(c: CountTables, trial: nat, depths: seq<nat>, pool: string -> Counts,
                                              heavy: map<string, seq<string>>)
    requires RecordDepths(c, trial, depths, pool, heavy).1.None?
    ensures var r := RecordDepths(c, trial, depths, pool, heavy).0;
      && (forall i :: 0 <= i < |depths| ==> Recorded(r, CircuitName(depths[i], trial), pool, heavy))
      && (forall m :: Recorded(c, m, pool, heavy) ==> Recorded(r, m, pool, heavy))
    decreases |depths|
  {
    if depths != [] {
      var (c1, err1) := RecordCircuit(c, CircuitName(depths[0], trial), pool, heavy);
      RecordCircuitFacts(c, CircuitName(depths[0], trial), pool, heavy);
      RecordDepthsRecords(c1, trial, depths[1..], pool, heavy);
      assert forall i :: 1 <= i < |depths| ==> depths[i] == depths[1..][i - 1];
    }
  }

  /** A trial touches no name outside it, whether or not it raises. */
  lemma {:induction false} RecordDepthsFrame(c: CountTables, trial: nat, depths: seq<nat>, pool: string -> Counts,
                                            heavy: map<string, seq<string>>, n: string)
    requires forall i :: 0 <= i < |depths| ==> n != CircuitName(depths[i], trial)
    ensures AgreeAt(c, RecordDepths(c, trial, depths, pool, heavy).0, n)
    decreases |depths|
  {
    if depths != [] {
      var (c1, err1) := RecordCircuit(c, CircuitName(depths[0], trial), pool, heavy);
      RecordCircuitFacts(c, CircuitName(depths[0], trial), pool, heavy);
      if err1.None? {
        assert forall i :: 0 <= i < |depths[1..]| ==> depths[1..][i] == depths[i + 1];
        RecordDepthsFrame(c1, trial, depths[1..], pool, heavy, n);
      }
    }
  }

  /** `calc_data` raises nothing exactly when every circuit it tallies has heavy outputs. */
  lemma {:induction false} RecordTrialsSucceeds(c: CountTables, trial: nat, ntrials: nat, depths: seq<nat>,
                                               pool: string -> Counts, heavy: map<string, seq<string>>)
    ensures RecordTrials(c, trial, ntrials, depths, pool, heavy).1.None? <==>
      forall t :: trial <= t < ntrials ==> TrialLoaded(t, depths, heavy)
    decreases ntrials - trial
  {
    if trial < ntrials {
      var (c1, err1) := RecordDepths(c, trial, depths, pool, heavy);
      RecordDepthsSucceeds(c, trial, depths, pool, heavy);
      if err1.None? {
        RecordTrialsSucceeds(c1, trial + 1, ntrials, depths, pool, heavy);
      }
    }
  }

  /**
   * A `calc_data` that raises nothing records every circuit it tallies and
   * keeps what was recorded before.
   */
  lemma {:induction false} RecordTrialsRecords(c: CountTables, trial: nat, ntrials: nat, depths: seq<nat>,
                                              pool: string -> Counts, heavy: map<string, seq<string>>)
    requires RecordTrials(c, trial, ntrials, depths, pool, heavy).1.None?
    ensures var r := RecordTrials(c, trial, ntrials, depths, pool, heavy).0;
      && (forall t, i :: trial <= t < ntrials && 0 <= i < |depths| ==> Recorded(r, CircuitName(depths[i], t), pool, heavy))
      && (forall m :: Recorded(c, m, pool, heavy) ==> Recorded(r, m, pool, heavy))
    decreases ntrials - trial
  {
    if trial < ntrials {
      var (c1, err1) := RecordDepths(c, trial, depths, pool, heavy);
      RecordDepthsRecords(c, trial, depths, pool, heavy);
      RecordTrialsRecords(c1, trial + 1, ntrials, depths, pool, heavy);
    }
  }

  /** `calc_data` touches no name it does not tally, whether or not it raises. */
  lemma {:induction false} RecordTrialsFrame(c: CountTables, trial: nat, ntrials: nat, depths: seq<nat>,
                                            pool: string -> Counts, heavy: map<string, seq<string>>, n: string)
    requires forall t, i :: trial <= t < ntrials && 0 <= i < |depths| ==> n != CircuitName(depths[i], t)
    ensures AgreeAt(c, RecordTrials(c, trial, ntrials, depths, pool, heavy).0, n)
    decreases ntrials - trial
  {
    if trial < ntrials {
      var (c1, err1) := RecordDepths(c, trial, depths, pool, heavy);
      RecordDepthsFrame(c, trial, depths, pool, heavy, n);
      if err1.None? {
        RecordTrialsFrame(c1, trial + 1, ntrials, depths, pool, heavy, n);
      }
    }
  }

  /**
   * After a `calc_data` that raises nothing, every circuit name that
   * `calc_statistics` looks up is a key of the shots, heavy-count and ideal
   * probability dicts.
   */
  lemma CalcStatisticsKeysPresent(t: IdealTables, c: CountTables, ntrials: nat, depths: seq<nat>, pool: string -> Counts)
    requires IdealTablesValid(t)
    requires RecordTrials(c, 0, ntrials, depths, pool, t.heavyOutputs).1.None?
    ensures var r := RecordTrials(c, 0, ntrials, depths, pool, t.heavyOutputs).0;
      forall trial, i :: 0 <= trial < ntrials && 0 <= i < |depths| ==>
        && CircuitName(depths[i], trial) in r.circShots
        && CircuitName(depths[i], trial) in r.heavyOutputCounts
        && CircuitName(depths[i], trial) in t.heavyOutputProbIdeal
  {
    RecordTrialsRecords(c, 0, ntrials, depths, pool, t.heavyOutputs);
  }

  /**
   * After a `calc_data` that raises nothing, each tallied circuit's shots
   * are the total shots of all results that ran it, and, its heavy outputs
   * being distinct, its heavy-output count is at most its shots.
   */
  lemma CalcDataBounds(c: CountTables, ntrials: nat, depths: seq<nat>,
                       results: seq<BackendResult>, heavy: map<string, seq<string>>)
    requires RecordTrials(c, 0, ntrials, depths, PooledCounts(results), heavy).1.None?
    requires forall n :: n in heavy ==> Distinct(heavy[n])
    ensures var r := RecordTrials(c, 0, ntrials, depths, PooledCounts(results), heavy).0;
      forall t, i :: 0 <= t < ntrials && 0 <= i < |depths| ==>
        var name := CircuitName(depths[i], t);
        && name in r.circShots && name in r.heavyOutputCounts
        && r.circShots[name] == TotalShots(CountList(results, name))
        && r.heavyOutputCounts[name] <= r.circShots[name]
  {
    var pool := PooledCounts(results);
    RecordTrialsRecords(c, 0, ntrials, depths, pool, heavy);
    var r := RecordTrials(c, 0, ntrials, depths, pool, heavy).0;
    forall t, i | 0 <= t < ntrials && 0 <= i < |depths|
      ensures var name := CircuitName(depths[i], t);
        && name in r.circShots && name in r.heavyOutputCounts
        && r.circShots[name] == TotalShots(CountList(results, name))
        && r.heavyOutputCounts[name] <= r.circShots[name]
    {
      var name := CircuitName(depths[i], t);
      assert Recorded(r, name, pool, heavy);
      MergeCountsPools(CountList(results, name));
      HeavyCountAtMostShots(heavy[name], pool(name));
    }
  }

  // ----- the fitter -----

  /** The state of a quantum-volume fit: circuits, loaded ideal data, results and tallies. */
  class QVFitter {
    var qubitLists: seq<seq<int>>
    var depths: seq<nat>
    var ntrials: nat
    var resultList: seq<BackendResult>
    var heavyOutputCounts: map<string, nat>
    var circShots: map<string, nat>
    var heavyOutputProbIdeal: map<string, real>
    var heavyOutputs: map<string, seq<string>>

    /** The subset sizes are the lengths of the qubit lists and the ideal tables are consistent. */
    ghost predicate Valid()
      reads this
    {
      && |depths| == |qubitLists|
      && (forall i :: 0 <= i < |depths| ==> depths[i] == |qubitLists[i]|)
      && IdealTablesValid(IdealView())
    }

    function IdealView(): IdealTables
      reads this
    {
      IdealTables(heavyOutputs, heavyOutputProbIdeal)
    }

    function TallyView(): Tally
      reads this
    {
      Tally(resultList, ntrials)
    }

    function CountView(): CountTables
      reads this
    {
      CountTables(circShots, heavyOutputCounts)
    }

    /** A fitter for these qubit subsets, with nothing loaded. */
    constructor(qubitLists: seq<seq<int>>)
      ensures Valid()
      ensures this.qubitLists == qubitLists
      ensures |depths| == |qubitLists| && forall i :: 0 <= i < |qubitLists| ==> depths[i] == |qubitLists[i]|
      ensures ntrials == 0 && resultList == []
      ensures heavyOutputCounts == map[] && circShots == map[]
      ensures heavyOutputProbIdeal == map[] && heavyOutputs == map[]
    {
      this.qubitLists := qubitLists;
      depths := seq(|qubitLists|, i requires 0 <= i < |qubitLists| => |qubitLists[i]|);
      ntrials := 0;
      resultList := [];
      heavyOutputCounts := map[];
      circShots := map[];
      heavyOutputProbIdeal := map[];
      heavyOutputs := map[];
    }

    /** The quantum volume of each subset: two to the number of its qubits. */
    function QuantumVolume(): (qv: seq<nat>)
      reads this
      requires Valid()
      ensures |qv| == |qubitLists|
      ensures forall i :: 0 <= i < |qubitLists| ==> qv[i] == Pow2(|qubitLists[i]|)
    {
      var widths := depths;
      seq(|widths|, i requires 0 <= i < |widths| => Pow2(widths[i]))
    }

    /** Loads the ideal data of one circuit: the body of the inner loop of `add_statevectors`. */
    method LoadIdealCircuit(e: IdealExperiment) returns (err: Option<QVError>)
      requires Valid()
      modifies this`heavyOutputs, this`heavyOutputProbIdeal
      ensures Valid()
      ensures (IdealView(), err) == AddIdealExperiment(old(IdealView()), e, ReadIdeal)
    {
      LoadIdealKeepsValid(IdealView(), e);
      var depth := DepthOfName(e.name);
      if depth.None? {
        return Some(MalformedName(e.name));
      }
      if e.name in heavyOutputs {
        return Some(AlreadyAdded(e.name));
      }
      if depth.value < 0 {
        return Some(NegativeDepth(e.name));
      }
      var width: nat := depth.value;
      if |e.probabilities| < Pow2(width) {
        return Some(ShortStatevector(e.name));
      }
      var pmap := ProbabilityMap(width, e.probabilities);
      ProbabilityMapKeys(width, e.probabilities);
      var medians := MedianProbabilities([pmap]);
      heavyOutputs := heavyOutputs[e.name := HeavyStrings(pmap, medians[0])];
      heavyOutputProbIdeal := heavyOutputProbIdeal[e.name := SubsetProbability(heavyOutputs[e.name], pmap.prob)];
      err := None;
    }

    /** Loads the circuits of one ideal result in turn: the inner loop of `add_statevectors`. */
    method LoadIdealResult(exps: seq<IdealExperiment>) returns (err: Option<QVError>)
      requires Valid()
      modifies this`heavyOutputs, this`heavyOutputProbIdeal
      ensures Valid()
      ensures (IdealView(), err) == AddIdealExperiments(old(IdealView()), exps, ReadIdeal)
    {
      err := None;
      var j := 0;
      while j < |exps|
        invariant 0 <= j <= |exps|
        invariant err.None?
        invariant Valid()
        invariant AddIdealExperiments(IdealView(), exps[j..], ReadIdeal) == AddIdealExperiments(old(IdealView()), exps, ReadIdeal)
      {
        ghost var before := IdealView();
        err := LoadIdealCircuit(exps[j]);
        AddIdealStep(before, exps, j, ReadIdeal);
        if err.Some? {
          return;
        }
        j := j + 1;
      }
      assert exps[|exps|..] == [];
    }

    /**
     * Loads ideal simulation results: each circuit in turn, stopping at the
     * first exception with the circuits before it loaded.
     */
    method AddStatevectors(newStatevectors: Option<seq<IdealResult>>) returns (err: Option<QVError>)
      requires Valid()
      modifies this`heavyOutputs, this`heavyOutputProbIdeal
      ensures Valid()
      ensures newStatevectors.None? ==> err.None? && IdealView() == old(IdealView())
      ensures newStatevectors.Some? ==>
        (IdealView(), err) == AddIdealExperiments(old(IdealView()), Flatten(newStatevectors.value), ReadIdeal)
    {
      err := None;
      if newStatevectors.None? {
        return;
      }
      var results := newStatevectors.value;
      ghost var target := AddIdealExperiments(IdealView(), Flatten(results), ReadIdeal);
      AddStatevectorsKeepsValid(IdealView(), Flatten(results));
      var i := 0;
      while i < |results|
        invariant 0 <= i <= |results|
        invariant err.None?
        invariant Valid()
        invariant AddIdealExperiments(IdealView(), Flatten(results[i..]), ReadIdeal) == target
      {
        ghost var before := IdealView();
        assert Flatten(results[i..]) == results[i] + Flatten(results[i + 1..]) by {
          assert results[i..][0] == results[i] && results[i..][1..] == results[i + 1..];
        }
        AddIdealConcat(before, results[i], Flatten(results[i + 1..]), ReadIdeal);
        err := LoadIdealResult(results[i]);
        if err.Some? {
          return;
        }
        i := i + 1;
      }
      assert results[|results|..] == [];
    }

    /** Reads one circuit's trial index: the body of the inner loop of `add_data`. */
    method ScanCircuit(name: string) returns (err: Option<QVError>)
      modifies this`ntrials
      ensures (ntrials, err) == ScanTrial(old(ntrials), name, heavyOutputProbIdeal.Keys, TrialOfName)
    {
      var parsed := TrialOfName(name);
      assert ScanTrial(ntrials, name, heavyOutputProbIdeal.Keys, TrialOfName)
        == ScanParsedTrial(ntrials, name, heavyOutputProbIdeal.Keys, parsed);
      if parsed.None? {
        return Some(MalformedName(name));
      }
      if parsed.value + 1 > ntrials {
        ntrials := parsed.value + 1;
      }
      if name !in heavyOutputProbIdeal {
        return Some(IdealNotLoaded(name));
      }
      err := None;
    }

    /** The inner loop of `add_data`: scans the circuits of one result, stopping at the first error. */
    method ScanCircuits(exps: seq<Experiment>) returns (err: Option<QVError>)
      modifies this`ntrials
      ensures (ntrials, err) == ScanTrials(old(ntrials), exps, heavyOutputProbIdeal.Keys, TrialOfName)
    {
      err := None;
      ghost var target := ScanTrials(ntrials, exps, heavyOutputProbIdeal.Keys, TrialOfName);
      var j := 0;
      while j < |exps|
        invariant 0 <= j <= |exps|
        invariant err.None?
        invariant ScanTrials(ntrials, exps[j..], heavyOutputProbIdeal.Keys, TrialOfName) == target
      {
        assert exps[j..][0] == exps[j] && exps[j..][1..] == exps[j + 1..];
        err := ScanCircuit(exps[j].name);
        if err.Some? {
          return;
        }
        j := j + 1;
      }
      assert exps[|exps|..] == [];
    }

    /** The outer loop of `add_data`: appends each result, then scans its circuits, stopping at the first exception. */
    method AppendResults(results: seq<BackendResult>) returns (err: Option<QVError>)
      modifies this`resultList, this`ntrials
      ensures (TallyView(), err) == AddResults(old(TallyView()), results, heavyOutputProbIdeal.Keys, TrialOfName)
    {
      err := None;
      ghost var target := AddResults(TallyView(), results, heavyOutputProbIdeal.Keys, TrialOfName);
      var i := 0;
      while i < |results|
        invariant 0 <= i <= |results|
        invariant err.None?
        invariant AddResults(TallyView(), results[i..], heavyOutputProbIdeal.Keys, TrialOfName) == target
      {
        assert results[i..][0] == results[i] && results[i..][1..] == results[i + 1..];
        resultList := resultList + [results[i]];
        err := ScanCircuits(results[i]);
        if err.Some? {
          return;
        }
        i := i + 1;
      }
      assert results[|results|..] == [];
    }

    /**
     * Adds backend results: each is appended, then its circuits raise the
     * trial count and must have ideal data loaded; then, when `rerunFit`
     * holds, the tallies are recomputed.
     */
    method AddData(newResults: Option<seq<BackendResult>>, rerunFit: bool) returns (err: Option<QVError>)
      requires Valid()
      modifies this`resultList, this`ntrials, this`circShots, this`heavyOutputCounts
      ensures Valid()
      ensures newResults.None? ==> err.None? && TallyView() == old(TallyView()) && CountView() == old(CountView())
      ensures newResults.Some? ==>
        var (t, e) := AddResults(old(TallyView()), newResults.value, heavyOutputProbIdeal.Keys, TrialOfName);
        && TallyView() == t
        && (e.Some? || !rerunFit ==> err == e && CountView() == old(CountView()))
        && (e.None? && rerunFit ==>
              (CountView(), err) == RecordTrials(old(CountView()), 0, ntrials, depths, PooledCounts(resultList), heavyOutputs))
    {
      err := None;
      if newResults.None? {
        return;
      }
      err := AppendResults(newResults.value);
      if err.None? && rerunFit {
        err := CalcData();
      }
    }

    /** `result.get_counts(name)` for every stored result, in order, skipping results without the circuit. */
    method CollectCounts(name: string) returns (countList: seq<Counts>)
      ensures countList == CountList(resultList, name)
    {
      countList := [];
      for k := 0 to |resultList|
        invariant countList == CountList(resultList[..k], name)
      {
        assert resultList[..k + 1][..k] == resultList[..k];
        var c := GetCounts(resultList[k], name);
        if c.Some? {
          countList := countList + [c.value];
        }
      }
      assert resultList[..|resultList|] == resultList;
    }

    /** Tallies one circuit: the body of the inner loop of `calc_data`. */
    method TallyCircuit(name: string) returns (err: Option<QVError>)
      modifies this`circShots, this`heavyOutputCounts
      ensures (CountView(), err) == RecordCircuit(old(CountView()), name, PooledCounts(resultList), heavyOutputs)
    {
      var countList := CollectCounts(name);
      var merged := MergeCounts(countList);
      var shots := SumValues(merged);
      circShots := circShots[name := shots];
      if name !in heavyOutputs {
        return Some(NoHeavyOutputs(name));
      }
      heavyOutputCounts := heavyOutputCounts[name := SubsetCount(heavyOutputs[name], merged)];
      err := None;
    }

    /** One pass of the outer loop of `calc_data`: tallies the circuit of each subset size for one trial. */
    method TallyTrial(trial: nat) returns (err: Option<QVError>)
      modifies this`circShots, this`heavyOutputCounts
      ensures (CountView(), err) == RecordDepths(old(CountView()), trial, depths, PooledCounts(resultList), heavyOutputs)
    {
      err := None;
      ghost var target := RecordDepths(CountView(), trial, depths, PooledCounts(resultList), heavyOutputs);
      var k := 0;
      while k < |depths|
        invariant 0 <= k <= |depths|
        invariant err.None?
        invariant RecordDepths(CountView(), trial, depths[k..], PooledCounts(resultList), heavyOutputs) == target
      {
        ghost var before := CountView();
        err := TallyCircuit(CircuitName(depths[k], trial));
        RecordDepthsStep(before, trial, depths, k, PooledCounts(resultList), heavyOutputs);
        if err.Some? {
          return;
        }
        k := k + 1;
      }
      assert depths[|depths|..] == [];
    }

    /**
     * Tallies, for every trial and subset size, the pooled shots and the
     * pooled heavy-output count of that circuit.
     */
    method CalcData() returns (err: Option<QVError>)
      requires Valid()
      modifies this`circShots, this`heavyOutputCounts
      ensures Valid()
      ensures (CountView(), err) == RecordTrials(old(CountView()), 0, ntrials, depths, PooledCounts(resultList), heavyOutputs)
    {
      err := None;
      ghost var target := RecordTrials(CountView(), 0, ntrials, depths, PooledCounts(resultList), heavyOutputs);
      var trial := 0;
      while trial < ntrials
        invariant 0 <= trial <= ntrials
        invariant err.None?
        invariant RecordTrials(CountView(), trial, ntrials, depths, PooledCounts(resultList), heavyOutputs) == target
      {
        ghost var before := CountView();
        err := TallyTrial(trial);
        RecordTrialsStep(before, trial, ntrials, depths, PooledCounts(resultList), heavyOutputs);
        if err.Some? {
          return;
        }
        trial := trial + 1;
      }
    }
  }

  /**
   * Builds a fitter as its constructor does: loads the ideal results, then,
   * when that raises nothing, adds and tallies the backend results.
   */
  method NewQVFitter(backendResults: Option<seq<BackendResult>>, statevectors: Option<seq<IdealResult>>,
                     qubitLists: seq<seq<int>>) returns (fitter: QVFitter, err: Option<QVError>)
    ensures fresh(fitter) && fitter.Valid()
    ensures fitter.qubitLists == qubitLists
    ensures var ideal := if statevectors.None? then (IdealTables(map[], map[]), None)
                         else AddIdealExperiments(IdealTables(map[], map[]), Flatten(statevectors.value), ReadIdeal);
      && fitter.IdealView() == ideal.0
      && (ideal.1.Some? ==> err == ideal.1 && fitter.TallyView() == Tally([], 0))
    ensures backendResults.None? ==> fitter.TallyView() == Tally([], 0) && fitter.CountView() == CountTables(map[], map[])
    ensures err.None? && backendResults.Some? ==>
      && (fitter.TallyView(), None) == AddResults(Tally([], 0), backendResults.value, fitter.heavyOutputs.Keys, TrialOfName)
      && (fitter.CountView(), None) == RecordTrials(CountTables(map[], map[]), 0, fitter.ntrials, fitter.depths,
                                                    PooledCounts(fitter.resultList), fitter.heavyOutputs)
    ensures (statevectors.None? || AddIdealExperiments(IdealTables(map[], map[]), Flatten(statevectors.value), ReadIdeal).1.None?) ==>
      if backendResults.None? then err.None?
      else
        var (t, e) := AddResults(Tally([], 0), backendResults.value, fitter.heavyOutputs.Keys, TrialOfName);
        && fitter.TallyView() == t
        && (e.Some? ==> err == e)
        && (e.None? ==> (fitter.CountView(), err) == RecordTrials(CountTables(map[], map[]), 0, fitter.ntrials, fitter.depths,
                                                                 PooledCounts(fitter.resultList), fitter.heavyOutputs))
  {
    fitter := new QVFitter(qubitLists);
    err := fitter.AddStatevectors(statevectors);
    if err.None? {
      err := fitter.AddData(backendResults, true);
    }
  }
}
