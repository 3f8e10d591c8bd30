/** Paired experiments (src/metrics.rs): pairs with a randomized first arm, observations written
    once, and the report over them. Each operation is cut into its database statements, and a run
    is any interleaving of them. */
module Experiments {
  import opened Wrappers
  import opened Sets
  import SignTest

  type Id = string
  type Pid = nat

  const I64_MAX := 0x7FFF_FFFF_FFFF_FFFF

  datatype Arm = Memory | Baseline

  datatype Pair = Pair(experiment: Id, memoryFirst: bool)

  datatype Input = Input(pair: Id, arm: Arm, tokens: nat, elapsedMs: nat, toolCalls: nat, completed: bool, completeness: Option<int>)

  datatype Observation = Observation(attempt: int, tokens: nat, elapsedMs: nat, toolCalls: nat, completed: bool, completeness: Option<int>)

  datatype Error = InvalidRequest | NotFound | OutOfOrder | AlreadyRecorded | TooLarge | Integrity

  type Key = (Id, Arm)

  datatype Tables = Tables(experiments: set<Id>, pairs: map<Id, Pair>, observations: map<Key, Observation>)

  /** One row of the join in `load_experiment_deltas`: memory minus baseline. */
  datatype Delta = Delta(memoryFirst: bool, tokens: int, elapsedMs: int, toolCalls: int)

  datatype Summary = Summary(favorsMemory: nat, favorsBaseline: nat, ties: int)

  datatype Report = Report(completePairs: nat, unpairedExcluded: nat, memoryFirstPairs: nat, baselineFirstPairs: int,
                           tokens: Summary, elapsedMs: Summary, toolCalls: Summary)

  datatype Proc =
    | BeginStart(experiment: Id)
    | BeginOpened(experiment: Id)
    | BeginInserted(experiment: Id)
    | BeginDone(experiment: Id)
    | BeginStored(experiment: Id)                   // stored, but the size limit failed after the insert
    | PairStart(experiment: Id, id: Id, memoryFirst: bool)
    | PairOpened(experiment: Id, id: Id, memoryFirst: bool)
    | PairChecked(experiment: Id, id: Id, memoryFirst: bool)
    | PairInserted(experiment: Id, id: Id, memoryFirst: bool)
    | PairDone(experiment: Id, id: Id, memoryFirst: bool)
    | PairStored(experiment: Id, id: Id, memoryFirst: bool)
    | RecordStart(input: Input)
    | RecordOpened(input: Input)
    | RecordLooked(input: Input, pair: Pair)        // the pair exists
    | RecordChecked(input: Input, attempt: int)     // its turn has come
    | RecordInserted(input: Input, attempt: int)
    | RecordKept(input: Input, attempt: int)
    | RecordDone(input: Input, attempt: int, complete: bool)
    | RecordStored(input: Input, attempt: int)
    | ReportStart(experiment: Id)
    | ReportOpened(experiment: Id)
    | ReportLoaded(experiment: Id, deltas: map<Id, Delta>)
    | ReportDone(experiment: Id, deltas: map<Id, Delta>, report: Report)
    | Failed(error: Error)

  /** What surrounds a statement: whether metrics are enabled, and whether `enforce_limits` can bring
      the database under its cap. */
  datatype Choice = Go | Disabled | OverCap

  datatype State = State(tables: Tables, procs: map<Pid, Proc>)

  function FirstArm(pair: Pair): Arm {
    if pair.memoryFirst then Memory else Baseline
  }

  function Row(input: Input, attempt: int): Observation {
    Observation(attempt, input.tokens, input.elapsedMs, input.toolCalls, input.completed, input.completeness)
  }

  const EXPERIMENT_PREFIX := "exp_"
  const PAIR_PREFIX := "pair_"

  predicate HexDigit(c: char) {
    '0' <= c <= '9' || 'a' <= c <= 'f' || 'A' <= c <= 'F'
  }

  /** `validate_opaque_id`. */
  predicate Opaque(id: Id, prefix: string) {
    prefix <= id && |id| == |prefix| + 32 && forall i :: |prefix| <= i < |id| ==> HexDigit(id[i])
  }

  /** What is checked before the database is opened. */
  predicate WellFormed(input: Input) {
    Opaque(input.pair, PAIR_PREFIX) && (input.completeness.Some? ==> 1 <= input.completeness.value <= 5)
  }

  predicate Storable(input: Input) {
    input.tokens <= I64_MAX && input.elapsedMs <= I64_MAX && input.toolCalls <= I64_MAX
  }

  /** `load_experiment_deltas`: the pairs of the experiment that have both arms. */
  function LoadDeltas(t: Tables, experiment: Id): map<Id, Delta> {
    map p | p in t.pairs && t.pairs[p].experiment == experiment && (p, Memory) in t.observations && (p, Baseline) in t.observations
      :: var m, b := t.observations[(p, Memory)], t.observations[(p, Baseline)];
         Delta(t.pairs[p].memoryFirst, m.tokens - b.tokens, m.elapsedMs - b.elapsedMs, m.toolCalls - b.toolCalls)
  }

  function PairsOf(t: Tables, experiment: Id): set<Id> {
    set p | p in t.pairs && t.pairs[p].experiment == experiment
  }

  /** `paired_summary`: the ties are what is left over. */
  function Summarize(deltas: map<Id, Delta>, metric: Delta -> int): Summary {
    var memory := |set p | p in deltas && metric(deltas[p]) < 0|;
    var baseline := |set p | p in deltas && metric(deltas[p]) > 0|;
    Summary(memory, baseline, |deltas| - memory - baseline)
  }

  function MakeReport(deltas: map<Id, Delta>, allPairs: nat): Report {
    var memoryFirst := |set p | p in deltas && deltas[p].memoryFirst|;
    Report(|deltas|, if allPairs >= |deltas| then allPairs - |deltas| else 0, memoryFirst, |deltas| - memoryFirst,
           Summarize(deltas, (d: Delta) => d.tokens), Summarize(deltas, (d: Delta) => d.elapsedMs),
           Summarize(deltas, (d: Delta) => d.toolCalls))
  }

  /** The checks before `open_database`, and its own: it enforces the limits too. */
  function Open(allowed: bool, p: Proc, choice: Choice): Proc {
    if choice == Disabled || !allowed then Failed(InvalidRequest) else if choice == OverCap then Failed(Integrity) else p
  }

  /** One statement of one operation: its next form and the tables it leaves. */
  function StepProc(t: Tables, p: Proc, choice: Choice): (Proc, Tables) {
    match p
    case BeginStart(e) => (Open(true, BeginOpened(e), choice), t)
    case BeginOpened(e) =>
      if e in t.experiments then (Failed(Integrity), t) else (BeginInserted(e), t.(experiments := t.experiments + {e}))
    case BeginInserted(e) => (if choice == OverCap then BeginStored(e) else BeginDone(e), t)
    case PairStart(e, id, first) => (Open(Opaque(e, EXPERIMENT_PREFIX), PairOpened(e, id, first), choice), t)
    case PairOpened(e, id, first) => if e in t.experiments then (PairChecked(e, id, first), t) else (Failed(NotFound), t)
    case PairChecked(e, id, first) =>
      if id in t.pairs || e !in t.experiments then (Failed(Integrity), t)
      else (PairInserted(e, id, first), t.(pairs := t.pairs[id := Pair(e, first)]))
    case PairInserted(e, id, first) => (if choice == OverCap then PairStored(e, id, first) else PairDone(e, id, first), t)
    case RecordStart(input) => (Open(WellFormed(input), RecordOpened(input), choice), t)
    case RecordOpened(input) =>
      if input.pair in t.pairs then (RecordLooked(input, t.pairs[input.pair]), t) else (Failed(NotFound), t)
    case RecordLooked(input, pair) =>
      if input.arm == FirstArm(pair) then (RecordChecked(input, 1), t)
      else if (input.pair, FirstArm(pair)) in t.observations then (RecordChecked(input, 2), t)
      else (Failed(OutOfOrder), t)
    case RecordChecked(input, attempt) =>
      if !Storable(input) then (Failed(TooLarge), t)
      else if (input.pair, input.arm) in t.observations then (Failed(AlreadyRecorded), t)
      else (RecordInserted(input, attempt), t.(observations := t.observations[(input.pair, input.arm) := Row(input, attempt)]))
    case RecordInserted(input, attempt) =>
      (if choice == OverCap then RecordStored(input, attempt) else RecordKept(input, attempt), t)
    case RecordKept(input, attempt) => (RecordDone(input, attempt, BothRecorded(t, input.pair)), t)
    case ReportStart(e) =>
      (Open(Opaque(e, EXPERIMENT_PREFIX), ReportOpened(e), if choice == Disabled then Go else choice), t)
    case ReportOpened(e) =>
      if e in t.experiments then (ReportLoaded(e, LoadDeltas(t, e)), t) else (Failed(NotFound), t)
    case ReportLoaded(e, deltas) => (ReportDone(e, deltas, MakeReport(deltas, |PairsOf(t, e)|)), t)
    case _ => (p, t)
  }

  predicate BothRecorded(t: Tables, pair: Id) {
    (pair, Memory) in t.observations && (pair, Baseline) in t.observations
  }

  function Step(s: State, pid: Pid, choice: Choice): State {
    if pid !in s.procs then s
    else
      var (p, tables) := StepProc(s.tables, s.procs[pid], choice);
      State(tables, s.procs[pid := p])
  }

  type History = seq<(Pid, Choice)>

  function Run(s: State, h: History): State {
    if h == [] then s else Step(Run(s, h[..|h| - 1]), h[|h| - 1].0, h[|h| - 1].1)
  }

  // ----- What every statement keeps

  /** Rows are only ever added. */
  ghost predicate Grows(a: Tables, b: Tables) {
    && a.experiments <= b.experiments
    && (forall p :: p in a.pairs ==> p in b.pairs && b.pairs[p] == a.pairs[p])
    && (forall k :: k in a.observations ==> k in b.observations && b.observations[k] == a.observations[k])
  }

  /** Every observation belongs to a pair and has the attempt number of its arm, and a second arm never
      stands without the randomized first one. */
  ghost predicate Consistent(t: Tables) {
    && (forall p :: p in t.pairs ==> t.pairs[p].experiment in t.experiments)
    && (forall k :: k in t.observations ==>
          k.0 in t.pairs && t.observations[k].attempt == (if (k.1 == Memory) == t.pairs[k.0].memoryFirst then 1 else 2))
    && (forall p :: p in t.pairs && t.pairs[p].memoryFirst && (p, Baseline) in t.observations ==> (p, Memory) in t.observations)
    && (forall p :: p in t.pairs && !t.pairs[p].memoryFirst && (p, Memory) in t.observations ==> (p, Baseline) in t.observations)
  }

  ghost predicate InTurn(t: Tables, input: Input, attempt: int) {
    && input.pair in t.pairs
    && attempt == (if input.arm == FirstArm(t.pairs[input.pair]) then 1 else 2)
    && (attempt == 2 ==> (input.pair, FirstArm(t.pairs[input.pair])) in t.observations)
  }

  ghost predicate Wrote(p: Proc) {
    p.RecordInserted? || p.RecordKept? || p.RecordDone? || p.RecordStored?
  }

  /** It inserted an experiment, or a pair. */
  ghost predicate Began(p: Proc) {
    p.BeginInserted? || p.BeginDone? || p.BeginStored?
  }

  ghost predicate Paired(p: Proc) {
    p.PairInserted? || p.PairDone? || p.PairStored?
  }

  predicate PairThere(t: Tables, experiment: Id, id: Id, memoryFirst: bool) {
    id in t.pairs && t.pairs[id] == Pair(experiment, memoryFirst)
  }

  ghost predicate Loaded(t: Tables, experiment: Id, deltas: map<Id, Delta>) {
    forall p :: p in deltas ==> p in LoadDeltas(t, experiment) && LoadDeltas(t, experiment)[p] == deltas[p]
  }

  predicate Recorded(t: Tables, input: Input, attempt: int) {
    && (input.pair, input.arm) in t.observations
    && var o := t.observations[(input.pair, input.arm)];
    && o.attempt == attempt && o.tokens == input.tokens && o.elapsedMs == input.elapsedMs && o.toolCalls == input.toolCalls
    && o.completed == input.completed && o.completeness == input.completeness
  }

  ghost predicate ProcGood(t: Tables, p: Proc) {
    match p
    case RecordLooked(input, pair) => input.pair in t.pairs && t.pairs[input.pair] == pair
    case RecordChecked(input, attempt) => InTurn(t, input, attempt)
    case RecordInserted(input, attempt) => Recorded(t, input, attempt)
    case RecordKept(input, attempt) => Recorded(t, input, attempt)
    case RecordDone(input, attempt, complete) =>
      Recorded(t, input, attempt) && (complete ==> BothRecorded(t, input.pair)) && (attempt == 2 ==> complete)
    case RecordStored(input, attempt) => Recorded(t, input, attempt)
    case BeginInserted(e) => e in t.experiments
    case BeginDone(e) => e in t.experiments
    case BeginStored(e) => e in t.experiments
    case PairInserted(e, id, first) => PairThere(t, e, id, first)
    case PairDone(e, id, first) => PairThere(t, e, id, first)
    case PairStored(e, id, first) => PairThere(t, e, id, first)
    case ReportLoaded(e, deltas) => Loaded(t, e, deltas)
    case ReportDone(e, deltas, report) => Loaded(t, e, deltas) && AddsUp(t, e, deltas.Keys, report)
    case _ => true
  }

  /** The pairs of an experiment that have both arms. */
  function Complete(t: Tables, experiment: Id): set<Id> {
    set p | p in t.pairs && t.pairs[p].experiment == experiment && (p, Memory) in t.observations && (p, Baseline) in t.observations
  }

  function Incomplete(t: Tables, experiment: Id): set<Id> {
    set p | p in t.pairs && t.pairs[p].experiment == experiment && ((p, Memory) !in t.observations || (p, Baseline) !in t.observations)
  }

  ghost predicate AllComplete(t: Tables, pairs: set<Id>) {
    forall p :: p in pairs ==> p in t.pairs && (p, Memory) in t.observations && (p, Baseline) in t.observations
  }

  /** The pairs in which the arm with memory took less, and those in which it took more. */
  ghost function Cheaper(t: Tables, pairs: set<Id>, cost: Observation -> nat): set<Id>
    requires AllComplete(t, pairs)
  {
    set p | p in pairs && cost(t.observations[(p, Memory)]) < cost(t.observations[(p, Baseline)])
  }

  ghost function Dearer(t: Tables, pairs: set<Id>, cost: Observation -> nat): set<Id>
    requires AllComplete(t, pairs)
  {
    set p | p in pairs && cost(t.observations[(p, Memory)]) > cost(t.observations[(p, Baseline)])
  }

  ghost function Even(t: Tables, pairs: set<Id>, cost: Observation -> nat): set<Id>
    requires AllComplete(t, pairs)
  {
    set p | p in pairs && cost(t.observations[(p, Memory)]) == cost(t.observations[(p, Baseline)])
  }

  /** A metric favours the arm that took less of it. */
  ghost predicate Favors(t: Tables, pairs: set<Id>, cost: Observation -> nat, s: Summary)
    requires AllComplete(t, pairs)
  {
    && s.favorsMemory == |Cheaper(t, pairs, cost)|
    && s.favorsBaseline == |Dearer(t, pairs, cost)|
    && s.ties == |Even(t, pairs, cost)|
    && s.favorsMemory + s.favorsBaseline + s.ties == |pairs|
  }

  const Tokens: Observation -> nat := (o: Observation) => o.tokens
  const ElapsedMs: Observation -> nat := (o: Observation) => o.elapsedMs
  const ToolCalls: Observation -> nat := (o: Observation) => o.toolCalls

  /** The report counts, for each metric, the pairs in which each arm took less, and the pairs by their
      first arm; with the excluded ones it accounts for some number of pairs that the experiment
      already has. */
  ghost predicate AddsUp(t: Tables, experiment: Id, pairs: set<Id>, r: Report) {
    && AllComplete(t, pairs)
    && r.completePairs == |pairs|
    && r.completePairs + r.unpairedExcluded <= |PairsOf(t, experiment)|
    && r.memoryFirstPairs == |set p | p in pairs && t.pairs[p].memoryFirst|
    && r.baselineFirstPairs == |set p | p in pairs && !t.pairs[p].memoryFirst|
    && Favors(t, pairs, Tokens, r.tokens)
    && Favors(t, pairs, ElapsedMs, r.elapsedMs)
    && Favors(t, pairs, ToolCalls, r.toolCalls)
  }

  ghost predicate WrittenOnce(procs: map<Pid, Proc>) {
    forall p, q :: p in procs && q in procs && p != q && Wrote(procs[p]) && Wrote(procs[q]) ==>
      (procs[p].input.pair, procs[p].input.arm) != (procs[q].input.pair, procs[q].input.arm)
  }

  ghost predicate Inv(initial: Tables, s: State) {
    && Grows(initial, s.tables)
    && Consistent(s.tables)
    && WrittenOnce(s.procs)
    && forall pid :: pid in s.procs ==> ProcGood(s.tables, s.procs[pid])
  }

  ghost predicate Fresh(s: State) {
    && Consistent(s.tables)
    && forall pid :: pid in s.procs ==>
         s.procs[pid].BeginStart? || s.procs[pid].PairStart? || s.procs[pid].RecordStart? || s.procs[pid].ReportStart?
  }

  lemma StepGrows(t: Tables, p: Proc, choice: Choice)
    ensures Grows(t, StepProc(t, p, choice).1)
  {
  }

  lemma StepKeepsConsistent(t: Tables, p: Proc, choice: Choice)
    requires Consistent(t) && ProcGood(t, p)
    ensures Consistent(StepProc(t, p, choice).1)
  {
  }

  // ----- The report

  lemma LoadedStays(a: Tables, b: Tables, experiment: Id, deltas: map<Id, Delta>)
    requires Grows(a, b) && Loaded(a, experiment, deltas)
    ensures Loaded(b, experiment, deltas)
  {
  }

  lemma CompleteAreSomePairs(t: Tables, experiment: Id, deltas: map<Id, Delta>)
    requires Loaded(t, experiment, deltas)
    ensures |deltas| <= |PairsOf(t, experiment)|
  {
    assert deltas.Keys <= PairsOf(t, experiment) by {
      forall p | p in deltas ensures p in PairsOf(t, experiment) {
        assert p in LoadDeltas(t, experiment);
      }
    }
    SubsetSize(deltas.Keys, PairsOf(t, experiment));
  }

  lemma ThreeParts(all: set<Id>, a: set<Id>, b: set<Id>, c: set<Id>)
    requires all == a + b + c && a !! b && a !! c && b !! c
    ensures |all| == |a| + |b| + |c|
  {
  }

  lemma SummaryIsExact(t: Tables, deltas: map<Id, Delta>, metric: Delta -> int, cost: Observation -> nat)
    requires AllComplete(t, deltas.Keys)
    requires forall p :: p in deltas ==> metric(deltas[p]) == cost(t.observations[(p, Memory)]) - cost(t.observations[(p, Baseline)])
    ensures Favors(t, deltas.Keys, cost, Summarize(deltas, metric))
  {
    var memory := set p | p in deltas && metric(deltas[p]) < 0;
    var baseline := set p | p in deltas && metric(deltas[p]) > 0;
    assert memory == Cheaper(t, deltas.Keys, cost);
    assert baseline == Dearer(t, deltas.Keys, cost);
    EachIsOne(t, deltas.Keys, cost);
  }

  lemma EachIsOne(t: Tables, pairs: set<Id>, cost: Observation -> nat)
    requires AllComplete(t, pairs)
    ensures |pairs| == |Cheaper(t, pairs, cost)| + |Dearer(t, pairs, cost)| + |Even(t, pairs, cost)|
  {
    assert pairs == Cheaper(t, pairs, cost) + Dearer(t, pairs, cost) + Even(t, pairs, cost);
    ThreeParts(pairs, Cheaper(t, pairs, cost), Dearer(t, pairs, cost), Even(t, pairs, cost));
  }

  lemma FirstArms(t: Tables, deltas: map<Id, Delta>, r: Report, allPairs: nat)
    requires AllComplete(t, deltas.Keys) && r == MakeReport(deltas, allPairs)
    requires forall p :: p in deltas ==> deltas[p].memoryFirst == t.pairs[p].memoryFirst
    ensures r.memoryFirstPairs == |set p | p in deltas.Keys && t.pairs[p].memoryFirst|
    ensures r.baselineFirstPairs == |set p | p in deltas.Keys && !t.pairs[p].memoryFirst|
  {
    var memory := set p | p in deltas.Keys && t.pairs[p].memoryFirst;
    var baseline := set p | p in deltas.Keys && !t.pairs[p].memoryFirst;
    assert memory == set p | p in deltas && deltas[p].memoryFirst;
    assert deltas.Keys == memory + baseline + {};
    ThreeParts(deltas.Keys, memory, baseline, {});
  }

  lemma LoadedIsComplete(t: Tables, experiment: Id, deltas: map<Id, Delta>)
    requires Loaded(t, experiment, deltas)
    ensures AllComplete(t, deltas.Keys)
    ensures forall p :: p in deltas ==>
              var (m, b) := (t.observations[(p, Memory)], t.observations[(p, Baseline)]);
              deltas[p] == Delta(t.pairs[p].memoryFirst, m.tokens - b.tokens, m.elapsedMs - b.elapsedMs, m.toolCalls - b.toolCalls)
  {
  }

  /** A report on loaded rows is right about each metric and about the order of the arms. */
  lemma ReportIsExact(t: Tables, experiment: Id, deltas: map<Id, Delta>)
    requires Loaded(t, experiment, deltas)
    ensures AddsUp(t, experiment, deltas.Keys, MakeReport(deltas, |PairsOf(t, experiment)|))
    ensures var r := MakeReport(deltas, |PairsOf(t, experiment)|);
            r.completePairs + r.unpairedExcluded == |PairsOf(t, experiment)|
  {
    CompleteAreSomePairs(t, experiment, deltas);
    LoadedIsComplete(t, experiment, deltas);
    FirstArms(t, deltas, MakeReport(deltas, |PairsOf(t, experiment)|), |PairsOf(t, experiment)|);
    SummaryIsExact(t, deltas, (d: Delta) => d.tokens, Tokens);
    SummaryIsExact(t, deltas, (d: Delta) => d.elapsedMs, ElapsedMs);
    SummaryIsExact(t, deltas, (d: Delta) => d.toolCalls, ToolCalls);
  }

  lemma FavorsStays(a: Tables, b: Tables, pairs: set<Id>, cost: Observation -> nat, s: Summary)
    requires Grows(a, b) && AllComplete(a, pairs) && Favors(a, pairs, cost, s)
    ensures AllComplete(b, pairs) && Favors(b, pairs, cost, s)
  {
    assert Cheaper(a, pairs, cost) == Cheaper(b, pairs, cost);
    assert Dearer(a, pairs, cost) == Dearer(b, pairs, cost);
    assert Even(a, pairs, cost) == Even(b, pairs, cost);
  }

  lemma FirstArmsStay(a: Tables, b: Tables, pairs: set<Id>)
    requires Grows(a, b) && AllComplete(a, pairs)
    ensures AllComplete(b, pairs)
    ensures (set p | p in pairs && a.pairs[p].memoryFirst) == (set p | p in pairs && b.pairs[p].memoryFirst)
    ensures (set p | p in pairs && !a.pairs[p].memoryFirst) == (set p | p in pairs && !b.pairs[p].memoryFirst)
  {
  }

  lemma AddsUpStays(a: Tables, b: Tables, experiment: Id, pairs: set<Id>, r: Report)
    requires Grows(a, b) && AddsUp(a, experiment, pairs, r)
    ensures AddsUp(b, experiment, pairs, r)
  {
    SubsetSize(PairsOf(a, experiment), PairsOf(b, experiment));
    FavorsStays(a, b, pairs, Tokens, r.tokens);
    FavorsStays(a, b, pairs, ElapsedMs, r.elapsedMs);
    FavorsStays(a, b, pairs, ToolCalls, r.toolCalls);
    FirstArmsStay(a, b, pairs);
  }

  lemma ProcStaysGood(a: Tables, b: Tables, p: Proc)
    requires Grows(a, b) && ProcGood(a, p)
    ensures ProcGood(b, p)
  {
    if p.ReportLoaded? {
      LoadedStays(a, b, p.experiment, p.deltas);
    } else if p.ReportDone? {
      LoadedStays(a, b, p.experiment, p.deltas);
      AddsUpStays(a, b, p.experiment, p.deltas.Keys, p.report);
    }
  }

  lemma StepKeepsProcGood(t: Tables, p: Proc, choice: Choice)
    requires Consistent(t) && ProcGood(t, p)
    ensures var (p', t') := StepProc(t, p, choice); ProcGood(t', p')
  {
    if p.ReportLoaded? {
      ReportIsExact(t, p.experiment, p.deltas);
    }
  }

  lemma StepWrites(t: Tables, p: Proc, choice: Choice)
    ensures var p' := StepProc(t, p, choice).0;
            Wrote(p') ==> (Wrote(p) || (p.RecordChecked? && (p.input.pair, p.input.arm) !in t.observations)) && p'.input == p.input
  {
  }

  lemma StepKeepsWrittenOnce(s: State, pid: Pid, choice: Choice)
    requires pid in s.procs && WrittenOnce(s.procs)
    requires forall q :: q in s.procs ==> ProcGood(s.tables, s.procs[q])
    ensures WrittenOnce(Step(s, pid, choice).procs)
  {
    StepWrites(s.tables, s.procs[pid], choice);
    var p' := StepProc(s.tables, s.procs[pid], choice).0;
    forall q | q in s.procs && q != pid && Wrote(s.procs[q]) && Wrote(p')
      ensures (s.procs[q].input.pair, s.procs[q].input.arm) != (p'.input.pair, p'.input.arm)
    {
      assert ProcGood(s.tables, s.procs[q]);
    }
  }

  lemma StepKeepsInv(initial: Tables, s: State, pid: Pid, choice: Choice)
    requires Inv(initial, s)
    ensures Inv(initial, Step(s, pid, choice)) && Grows(s.tables, Step(s, pid, choice).tables)
  {
    if pid in s.procs {
      var s' := Step(s, pid, choice);
      StepGrows(s.tables, s.procs[pid], choice);
      StepKeepsConsistent(s.tables, s.procs[pid], choice);
      StepKeepsProcGood(s.tables, s.procs[pid], choice);
      StepKeepsWrittenOnce(s, pid, choice);
      forall q | q in s'.procs ensures ProcGood(s'.tables, s'.procs[q]) {
        if q != pid {
          ProcStaysGood(s.tables, s'.tables, s.procs[q]);
        }
      }
    }
  }

  lemma {:induction false} RunKeepsInv(initial: Tables, s: State, h: History)
    requires Inv(initial, s)
    ensures Inv(initial, Run(s, h)) && Grows(s.tables, Run(s, h).tables)
  {
    if h != [] {
      var last := |h| - 1;
      RunKeepsInv(initial, s, h[..last]);
      StepKeepsInv(initial, Run(s, h[..last]), h[last].0, h[last].1);
    }
  }

  // ----- Safety of every interleaving

  /** In every state of every run no pair has its second arm without its randomized first arm, and
      the attempt numbers say which is which. */
  lemma SecondArmNeverAlone(s: State, h: History)
    requires Fresh(s)
    ensures Consistent(Run(s, h).tables)
  {
    RunKeepsInv(s.tables, s, h);
  }

  /** An arm is written at most once, by one operation, and never changes afterwards: what an
      operation stored, even one that then reported the size limit, is there in every later state. */
  lemma ArmsAreImmutable(s: State, h: History, later: History, pid: Pid)
    requires Fresh(s) && pid in Run(s, h).procs && Wrote(Run(s, h).procs[pid])
    ensures var p := Run(s, h).procs[pid];
            var end := Run(Run(s, h), later);
            Recorded(end.tables, p.input, p.attempt) && WrittenOnce(end.procs)
  {
    RunKeepsInv(s.tables, s, h);
    RunKeepsInv(s.tables, Run(s, h), later);
    InvWritten(s.tables, Run(s, h), pid);
  }

  /** What an operation inserted stays, even if it then reported the size limit. */
  lemma ExperimentsAndPairsStay(s: State, h: History, later: History, pid: Pid)
    requires Fresh(s) && pid in Run(s, h).procs
    ensures var p, t := Run(s, h).procs[pid], Run(Run(s, h), later).tables;
            && (Began(p) ==> p.experiment in t.experiments)
            && (Paired(p) ==> PairThere(t, p.experiment, p.id, p.memoryFirst))
  {
    RunKeepsInv(s.tables, s, h);
    RunKeepsInv(s.tables, Run(s, h), later);
    InvInserted(s.tables, Run(s, h), pid);
  }

  lemma InvInserted(initial: Tables, s: State, pid: Pid)
    requires Inv(initial, s) && pid in s.procs
    ensures var p := s.procs[pid];
            && (Began(p) ==> p.experiment in s.tables.experiments)
            && (Paired(p) ==> PairThere(s.tables, p.experiment, p.id, p.memoryFirst))
  {
    assert ProcGood(s.tables, s.procs[pid]);
  }

  /** After so many characters, 32 hexadecimal digits. */
  predicate Hex32(id: Id, n: nat) {
    |id| == n + 32 && forall i :: n <= i < n + 32 ==> '0' <= id[i] <= '9' || 'a' <= id[i] <= 'f' || 'A' <= id[i] <= 'F'
  }

  predicate NamesExperiment(id: Id) {
    Hex32(id, 4) && id[..4] == "exp_"
  }

  /** What a caller can see before recording: a generated identifier and a score from 1 to 5, ... */
  predicate Presentable(input: Input) {
    && Hex32(input.pair, 5) && input.pair[..5] == "pair_"
    && (input.completeness == None || 1 <= input.completeness.value <= 5)
  }

  /** ... a pair whose turn it is, ... */
  predicate HasItsTurn(t: Tables, input: Input)
    requires input.pair in t.pairs
  {
    match input.arm
    case Memory => t.pairs[input.pair].memoryFirst || (input.pair, Baseline) in t.observations
    case Baseline => !t.pairs[input.pair].memoryFirst || (input.pair, Memory) in t.observations
  }

  /** ... counts of 63 bits, and an arm not recorded before. */
  predicate Acceptable(t: Tables, input: Input) {
    && Presentable(input)
    && input.pair in t.pairs && HasItsTurn(t, input)
    && input.tokens < 0x8000_0000_0000_0000 && input.elapsedMs < 0x8000_0000_0000_0000 && input.toolCalls < 0x8000_0000_0000_0000
    && (input.pair, input.arm) !in t.observations
  }

  // ----- Operations on their own

  /** The next statement of an operation that nobody disturbs. */
  function Then(x: (Proc, Tables), choice: Choice): (Proc, Tables) {
    StepProc(x.1, x.0, choice)
  }

  lemma UndisturbedSteps(s: State, pid: Pid, choice: Choice)
    requires pid in s.procs
    ensures var end := Step(s, pid, choice);
            pid in end.procs && (end.procs[pid], end.tables) == Then((s.procs[pid], s.tables), choice)
  {
  }

  /** Six statements, of which the first and the fifth meet the limits. */
  function RecordRun(t: Tables, input: Input, opening: Choice, ending: Choice): (Proc, Tables) {
    Then(Then(Then(Then(Then(Then((RecordStart(input), t), opening), Go), Go), Go), ending), Go)
  }

  /** An undisturbed recording stores its input exactly when that is acceptable and the database could
      be opened, and otherwise leaves the tables as they were. It succeeds if the database is then
      still within its cap, and says that the pair is complete exactly after the second arm. */
  lemma RecordAlone(t: Tables, input: Input, opening: Choice, ending: Choice)
    requires Consistent(t)
    ensures var (p, after) := RecordRun(t, input, opening, ending);
            if Acceptable(t, input) && opening == Go then
              && Stores(t, after, input)
              && p == (if ending == OverCap then RecordStored(input, Attempt(t, input))
                       else RecordDone(input, Attempt(t, input), Attempt(t, input) == 2))
            else p.Failed? && after == t
  {
    if opening != Go || !Presentable(input) {
      StaysFailed(Then((RecordStart(input), t), opening), Go, Go, Go, ending, Go);
    } else {
      assert Then((RecordStart(input), t), opening) == (RecordOpened(input), t);
      OpenedGoesOn(t, input, ending);
    }
  }

  lemma OpenedGoesOn(t: Tables, input: Input, ending: Choice)
    requires Consistent(t) && Presentable(input)
    ensures var (p, after) := Then(Then(Then(Then(Then((RecordOpened(input), t), Go), Go), Go), ending), Go);
            if Acceptable(t, input) then
              && Stores(t, after, input)
              && p == (if ending == OverCap then RecordStored(input, Attempt(t, input))
                       else RecordDone(input, Attempt(t, input), Attempt(t, input) == 2))
            else p.Failed? && after == t
  {
    if input.pair !in t.pairs || !HasItsTurn(t, input) {
      var x := Then(Then((RecordOpened(input), t), Go), Go);
      assert x.0.Failed? && x.1 == t;
      assert Then(Then(Then(x, Go), ending), Go) == x;
    } else {
      assert Then((RecordOpened(input), t), Go) == (RecordLooked(input, t.pairs[input.pair]), t);
      assert Then((RecordLooked(input, t.pairs[input.pair]), t), Go) == (RecordChecked(input, Attempt(t, input)), t);
      CheckedGoesOn(t, input, ending);
    }
  }

  lemma CheckedGoesOn(t: Tables, input: Input, ending: Choice)
    requires Consistent(t) && Presentable(input) && input.pair in t.pairs && HasItsTurn(t, input)
    ensures var (p, after) := Then(Then(Then((RecordChecked(input, Attempt(t, input)), t), Go), ending), Go);
            if Acceptable(t, input) then
              && Stores(t, after, input)
              && p == (if ending == OverCap then RecordStored(input, Attempt(t, input))
                       else RecordDone(input, Attempt(t, input), Attempt(t, input) == 2))
            else p.Failed? && after == t
  {
    var x := Then((RecordChecked(input, Attempt(t, input)), t), Go);
    Inserts(t, input);
    if Acceptable(t, input) {
      InsertedGoesOn(t, x.1, input, ending);
    }
  }

  lemma Inserts(t: Tables, input: Input)
    requires Presentable(input) && input.pair in t.pairs && HasItsTurn(t, input)
    ensures var (p, after) := Then((RecordChecked(input, Attempt(t, input)), t), Go);
            if Acceptable(t, input) then p == RecordInserted(input, Attempt(t, input)) && Stores(t, after, input)
            else p.Failed? && after == t
  {
  }

  lemma InsertedGoesOn(t: Tables, after: Tables, input: Input, ending: Choice)
    requires Consistent(t) && Acceptable(t, input) && Stores(t, after, input)
    ensures Then(Then((RecordInserted(input, Attempt(t, input)), after), ending), Go) ==
            (if ending == OverCap then RecordStored(input, Attempt(t, input))
             else RecordDone(input, Attempt(t, input), Attempt(t, input) == 2), after)
  {
    CompleteAfterSecond(t, after, input);
  }

  lemma StaysFailed(x: (Proc, Tables), c1: Choice, c2: Choice, c3: Choice, c4: Choice, c5: Choice)
    requires x.0.Failed?
    ensures Then(Then(Then(Then(Then(x, c1), c2), c3), c4), c5) == x
  {
  }

  /** Why it fails: an unknown pair, an arm out of turn, an arm already there. */
  lemma RefusalsTell(t: Tables, input: Input)
    requires Presentable(input)
    ensures var p := RecordRun(t, input, Go, Go).0;
            && (p == Failed(NotFound) <==> input.pair !in t.pairs)
            && (p == Failed(OutOfOrder) <==> input.pair in t.pairs && !HasItsTurn(t, input))
            && (p == Failed(AlreadyRecorded) ==> (input.pair, input.arm) in t.observations)
  {
    assert Then((RecordStart(input), t), Go) == (RecordOpened(input), t);
    if input.pair in t.pairs {
      assert Then((RecordOpened(input), t), Go) == (RecordLooked(input, t.pairs[input.pair]), t);
      LookedTells(t, input);
    } else {
      assert Then((RecordOpened(input), t), Go) == (Failed(NotFound), t);
    }
  }

  lemma LookedTells(t: Tables, input: Input)
    requires input.pair in t.pairs
    ensures var p := Then(Then(Then(Then((RecordLooked(input, t.pairs[input.pair]), t), Go), Go), Go), Go).0;
            && p != Failed(NotFound)
            && (p == Failed(OutOfOrder) <==> !HasItsTurn(t, input))
            && (p == Failed(AlreadyRecorded) ==> (input.pair, input.arm) in t.observations)
  {
    var x := Then((RecordLooked(input, t.pairs[input.pair]), t), Go);
    assert if HasItsTurn(t, input) then x == (RecordChecked(input, Attempt(t, input)), t) else x == (Failed(OutOfOrder), t);
  }

  function Attempt(t: Tables, input: Input): int
    requires input.pair in t.pairs
  {
    if (input.arm == Memory) == t.pairs[input.pair].memoryFirst then 1 else 2
  }

  ghost predicate Stores(before: Tables, after: Tables, input: Input)
    requires input.pair in before.pairs
  {
    && after.experiments == before.experiments && after.pairs == before.pairs
    && Recorded(after, input, Attempt(before, input))
    && forall k :: k != (input.pair, input.arm) ==> SameAt(before.observations, after.observations, k)
  }

  ghost predicate SameAt<K, V>(a: map<K, V>, b: map<K, V>, k: K) {
    (k in a <==> k in b) && (k in a ==> a[k] == b[k])
  }

  lemma CompleteAfterSecond(before: Tables, after: Tables, input: Input)
    requires Consistent(before) && Acceptable(before, input) && Stores(before, after, input)
    ensures BothRecorded(after, input.pair) <==> Attempt(before, input) == 2
  {
    var other := (input.pair, if input.arm == Memory then Baseline else Memory);
    assert SameAt(before.observations, after.observations, other);
  }

  /** An undisturbed `begin_experiment` stores its experiment unless metrics are off, the database is
      over its cap or the identifier is taken, and an undisturbed `create_pair` its pair unless, besides,
      the experiment is unknown; else nothing changes. */
  lemma BeginAlone(t: Tables, e: Id, opening: Choice, ending: Choice)
    ensures var (p, after) := Then(Then(Then((BeginStart(e), t), opening), Go), ending);
            if opening == Go && e !in t.experiments then
              && after.experiments == t.experiments + {e} && after.pairs == t.pairs && after.observations == t.observations
              && p == (if ending == OverCap then BeginStored(e) else BeginDone(e))
            else p.Failed? && after == t
  {
  }

  lemma PairAlone(t: Tables, e: Id, id: Id, first: bool, opening: Choice, ending: Choice)
    ensures var (p, after) := Then(Then(Then(Then((PairStart(e, id, first), t), opening), Go), Go), ending);
            if opening == Go && NamesExperiment(e) && e in t.experiments && id !in t.pairs then
              && PairThere(after, e, id, first) && (forall k :: k != id ==> SameAt(t.pairs, after.pairs, k))
              && after.experiments == t.experiments && after.observations == t.observations
              && p == (if ending == OverCap then PairStored(e, id, first) else PairDone(e, id, first))
            else p.Failed? && after == t
  {
  }

  /** The report is about all complete pairs of the experiment and no others. */
  ghost predicate RightReport(t: Tables, e: Id, r: Report) {
    AddsUp(t, e, Complete(t, e), r) && r.unpairedExcluded == |Incomplete(t, e)|
  }

  /** An undisturbed report on a known experiment is right. */
  lemma ReportAlone(t: Tables, e: Id, opening: Choice)
    ensures var (p, after) := Then(Then(Then((ReportStart(e), t), opening), Go), Go);
            && after == t
            && (if opening != OverCap && NamesExperiment(e) && e in t.experiments then p.ReportDone? && RightReport(t, e, p.report)
                else p.Failed?)
  {
    if opening != OverCap && NamesExperiment(e) && e in t.experiments {
      ReportSteps(t, e, opening);
      LoadedReport(t, e, LoadDeltas(t, e));
    }
  }

  lemma ReportSteps(t: Tables, e: Id, opening: Choice)
    requires NamesExperiment(e) && opening != OverCap && e in t.experiments
    ensures Then(Then(Then((ReportStart(e), t), opening), Go), Go) ==
            (ReportDone(e, LoadDeltas(t, e), MakeReport(LoadDeltas(t, e), |PairsOf(t, e)|)), t)
  {
    assert Then((ReportStart(e), t), opening) == (ReportOpened(e), t);
    OpenedLoads(t, e);
    LoadedReports(t, e, LoadDeltas(t, e));
  }

  lemma OpenedLoads(t: Tables, e: Id)
    requires e in t.experiments
    ensures Then((ReportOpened(e), t), Go) == (ReportLoaded(e, LoadDeltas(t, e)), t)
  {
  }

  lemma LoadedReports(t: Tables, e: Id, deltas: map<Id, Delta>)
    ensures Then((ReportLoaded(e, deltas), t), Go) == (ReportDone(e, deltas, MakeReport(deltas, |PairsOf(t, e)|)), t)
  {
  }

  lemma LoadedReport(t: Tables, e: Id, deltas: map<Id, Delta>)
    requires deltas == LoadDeltas(t, e)
    ensures RightReport(t, e, MakeReport(deltas, |PairsOf(t, e)|))
  {
    ReportIsExact(t, e, deltas);
    AboutAll(t, e, deltas.Keys, MakeReport(deltas, |PairsOf(t, e)|));
  }

  lemma AboutAll(t: Tables, e: Id, pairs: set<Id>, r: Report)
    requires pairs == Complete(t, e) && AddsUp(t, e, pairs, r) && |pairs| + r.unpairedExcluded == |PairsOf(t, e)|
    ensures RightReport(t, e, r)
  {
    CompleteOrNot(t, e);
  }

  lemma CompleteOrNot(t: Tables, e: Id)
    ensures |PairsOf(t, e)| == |Complete(t, e)| + |Incomplete(t, e)|
  {
    assert PairsOf(t, e) == Complete(t, e) + Incomplete(t, e) + {};
    ThreeParts(PairsOf(t, e), Complete(t, e), Incomplete(t, e), {});
  }

  /** A report adds up although its two reads may be separated by any number of other statements:
      its complete pairs really are complete, and complete plus excluded never exceed the pairs. */
  lemma ReportsAddUp(s: State, h: History, pid: Pid)
    requires Fresh(s) && pid in Run(s, h).procs && Run(s, h).procs[pid].ReportDone?
    ensures var p, t := Run(s, h).procs[pid], Run(s, h).tables;
            AddsUp(t, p.experiment, p.deltas.Keys, p.report) && p.deltas.Keys <= Complete(t, p.experiment)
  {
    RunKeepsInv(s.tables, s, h);
    InvReport(s.tables, Run(s, h), pid);
  }

  lemma InvReport(initial: Tables, s: State, pid: Pid)
    requires Inv(initial, s) && pid in s.procs && s.procs[pid].ReportDone?
    ensures s.procs[pid].deltas.Keys <= Complete(s.tables, s.procs[pid].experiment)
    ensures AddsUp(s.tables, s.procs[pid].experiment, s.procs[pid].deltas.Keys, s.procs[pid].report)
  {
    assert ProcGood(s.tables, s.procs[pid]);
  }

  lemma InvWritten(initial: Tables, s: State, pid: Pid)
    requires Inv(initial, s) && pid in s.procs && Wrote(s.procs[pid])
    ensures Recorded(s.tables, s.procs[pid].input, s.procs[pid].attempt)
  {
    assert ProcGood(s.tables, s.procs[pid]);
  }

  /** The p-value a report attaches to a metric is that of its own counts, absent only without a decided pair. */
  method SummaryPValue(deltas: map<Id, Delta>, metric: Delta -> int) returns (p: Option<real>)
    ensures p.None? <==> forall k :: k in deltas ==> metric(deltas[k]) == 0
    ensures p.Some? ==> p.value == SignTest.PValue(|set k | k in deltas && metric(deltas[k]) < 0|,
                                                   |set k | k in deltas && metric(deltas[k]) > 0|)
  {
    var s := Summarize(deltas, metric);
    ghost var memory := set k | k in deltas && metric(deltas[k]) < 0;
    ghost var baseline := set k | k in deltas && metric(deltas[k]) > 0;
    assert s.favorsMemory == |memory| && s.favorsBaseline == |baseline|;
    assert forall k :: k in deltas && metric(deltas[k]) < 0 ==> k in memory;
    assert forall k :: k in deltas && metric(deltas[k]) > 0 ==> k in baseline;
    p := SignTest.Compute(s.favorsMemory, s.favorsBaseline);
  }
}
