/** The identifiers of the benchmark registry (src/ai/l10k.py 112-113). */
module BenchmarkIds {
  import opened Numerals

  function Padded(ds: seq<nat>): seq<nat> {
    seq(if |ds| < 4 then 4 - |ds| else 0, _ => 0) + ds
  }

  /** f"L10K-{n:04d}" */
  function TaskId(n: nat): string {
    PaddedIsDecimal(n);
    "L10K-" + Numeral(Padded(Digits(n, 10)))
  }

  lemma PaddedIsDecimal(n: nat)
    ensures forall k :: 0 <= k < |Padded(Digits(n, 10))| ==> Padded(Digits(n, 10))[k] < 10
    ensures Value(Padded(Digits(n, 10)), 10) == n
  {
    var ds := Digits(n, 10);
    ValueOfDigits(n, 10);
    ValueOfPadded(if |ds| < 4 then 4 - |ds| else 0, ds, 10);
  }

  lemma WithoutPrefix(prefix: string, s: string, t: string)
    requires prefix + s == prefix + t
    ensures s == t
  {
    assert s == (prefix + s)[|prefix|..];
    assert t == (prefix + t)[|prefix|..];
  }

  /** Different counters give different identifiers. */
  lemma TaskIdsAreDistinct(m: nat, n: nat)
    requires TaskId(m) == TaskId(n)
    ensures m == n
  {
    PaddedIsDecimal(m);
    PaddedIsDecimal(n);
    var a, b := Padded(Digits(m, 10)), Padded(Digits(n, 10));
    WithoutPrefix("L10K-", Numeral(a), Numeral(b));
    NumeralsAreDistinct(a, b);
  }
}

/** The benchmark registry (src/ai/l10k.py): verified output is counted once, never for trivial work. */
module BenchmarkRegistry {
  import opened Options
  import opened RealArithmetic
  import opened Sums

  datatype Task = Task(name: string, level: string, weight: real, heldOut: bool, fixed: bool)

  const TRIVIAL := "trivial"
  const KNOWN_LEVELS := {"trivial", "easy", "medium", "hard", "expert"}

  /**
   A text given as a task's identifier: the `n`th identifier issued, or some other text.  Different
   numbers are different texts (BenchmarkIds.TaskIdsAreDistinct).
   */
  datatype TaskId = TaskId(n: nat) | OtherText(text: string)

  /** A value offered for recording, which need not be a number. */
  datatype Offered = Number(value: real) | NotANumber
  datatype Reason = UnknownTask | TrivialLevel | Duplicate | InvalidValue
  datatype Refusal = UnknownLevel | BadWeight | EmptyName

  datatype Event =
    | Register(id: TaskId, task: Task)
    | Refused(id: TaskId, level: Option<string>, offered: Offered, reason: Reason)
    | Counted(id: TaskId, task: Task, value: real, weighted: real)

  datatype Registry = Registry(tasks: map<TaskId, Task>, recorded: map<TaskId, real>, counter: nat, audit: seq<Event>)

  // ---------------------------------------------------------------- the two operations

  function Fault(task: Task): Option<Refusal> {
    if task.level !in KNOWN_LEVELS then Some(UnknownLevel)
    else if task.weight <= 0.0 then Some(BadWeight)
    else if task.name == "" then Some(EmptyName)
    else None
  }

  function Registered(r: Registry, task: Task): Registry {
    if Fault(task).Some? then r
    else
      var id := TaskId(r.counter + 1);
      Registry(r.tasks[id := task], r.recorded, r.counter + 1, r.audit + [Register(id, task)])
  }

  /** Why a record is refused, in the order of the checks. */
  function Objection(r: Registry, id: TaskId, offered: Offered): Option<Reason> {
    if id !in r.tasks then Some(UnknownTask)
    else if r.tasks[id].level == TRIVIAL then Some(TrivialLevel)
    else if id in r.recorded then Some(Duplicate)
    else if offered.NotANumber? || offered.value <= 0.0 then Some(InvalidValue)
    else None
  }

  function LevelOf(r: Registry, id: TaskId): Option<string> {
    if id in r.tasks then Some(r.tasks[id].level) else None
  }

  function Recorded(r: Registry, id: TaskId, offered: Offered): Registry {
    var objection := Objection(r, id, offered);
    if objection.Some? then r.(audit := r.audit + [Refused(id, LevelOf(r, id), offered, objection.value)])
    else
      var task, v := r.tasks[id], offered.value;
      r.(recorded := r.recorded[id := v], audit := r.audit + [Counted(id, task, v, WeightedValue(task, v))])
  }

  // ---------------------------------------------------------------- runs

  datatype Op = RegisterTask(task: Task) | Record(id: TaskId, offered: Offered)

  function Step(r: Registry, op: Op): Registry {
    match op
    case RegisterTask(task) => Registered(r, task)
    case Record(id, offered) => Recorded(r, id, offered)
  }

  const EMPTY := Registry(map[], map[], 0, [])

  function Run(ops: seq<Op>): Registry {
    if ops == [] then EMPTY else Step(Run(ops[..|ops| - 1]), ops[|ops| - 1])
  }

  /** The values that the audit trail says were counted. */
  function Replay(audit: seq<Event>): map<TaskId, real> {
    if audit == [] then map[]
    else
      var m, e := Replay(audit[..|audit| - 1]), audit[|audit| - 1];
      if e.Counted? then m[e.id := e.value] else m
  }

  /** The tasks that the audit trail says were registered. */
  function ReplayTasks(audit: seq<Event>): map<TaskId, Task> {
    if audit == [] then map[]
    else
      var m, e := ReplayTasks(audit[..|audit| - 1]), audit[|audit| - 1];
      if e.Register? then m[e.id := e.task] else m
  }

  function CountedTimes(audit: seq<Event>, id: TaskId): nat {
    if audit == [] then 0
    else
      var e := audit[|audit| - 1];
      CountedTimes(audit[..|audit| - 1], id) + if e.Counted? && e.id == id then 1 else 0
  }

  /** A counted event tells the truth about its task, which is not trivial. */
  predicate Fair(e: Event, tasks: map<TaskId, Task>) {
    e.Counted? ==>
      && e.id in tasks && e.task == tasks[e.id] && e.task.level != TRIVIAL
      && e.value > 0.0 && e.weighted == WeightedValue(e.task, e.value)
  }

  ghost predicate AllFair(audit: seq<Event>, tasks: map<TaskId, Task>) {
    forall e {:trigger Fair(e, tasks)} :: e in audit ==> Fair(e, tasks)
  }

  ghost predicate EachOnce(audit: seq<Event>, recorded: map<TaskId, real>) {
    forall id {:trigger CountedTimes(audit, id)} :: CountedTimes(audit, id) == if id in recorded then 1 else 0
  }

  /** The tasks are those numbered up to the counter. */
  ghost predicate Numbered(tasks: map<TaskId, Task>, counter: nat) {
    && (forall k: nat :: 1 <= k <= counter ==> TaskId(k) in tasks)
    && (forall id :: id in tasks ==> exists k: nat :: 1 <= k <= counter && id == TaskId(k))
  }

  ghost predicate Audited(r: Registry) {
    && r.recorded == Replay(r.audit)
    && r.tasks == ReplayTasks(r.audit)
    && r.recorded.Keys <= r.tasks.Keys
    && EachOnce(r.audit, r.recorded)
    && AllFair(r.audit, r.tasks)
  }

  lemma RegisterKeepsNumbered(r: Registry, task: Task)
    requires Numbered(r.tasks, r.counter)
    ensures Numbered(Registered(r, task).tasks, Registered(r, task).counter)
  {
    var s := Registered(r, task);
    forall id | id in s.tasks ensures exists k: nat :: 1 <= k <= s.counter && id == TaskId(k) {
      if id in r.tasks {
        var k: nat :| 1 <= k <= r.counter && id == TaskId(k);
      } else {
        assert id == TaskId(s.counter);
      }
    }
  }

  /** The trail grown by one event, whose effect on the replays is `recorded` and `tasks`. */
  lemma OneMoreEvent(r: Registry, e: Event, recorded: map<TaskId, real>, tasks: map<TaskId, Task>)
    requires Audited(r) && Fair(e, tasks)
    requires recorded == if e.Counted? then r.recorded[e.id := e.value] else r.recorded
    requires tasks == if e.Register? then r.tasks[e.id := e.task] else r.tasks
    requires (e.Counted? ==> e.id !in r.recorded) && (e.Register? ==> e.id !in r.tasks)
    ensures Audited(Registry(tasks, recorded, r.counter, r.audit + [e]))
  {
    var audit := r.audit + [e];
    assert audit[..|r.audit|] == r.audit;
    forall x | x in audit ensures Fair(x, tasks) {
      if x in r.audit {
        assert Fair(x, r.tasks);
      }
    }
    forall id ensures CountedTimes(audit, id) == if id in recorded then 1 else 0 {
      assert CountedTimes(r.audit, id) == if id in r.recorded then 1 else 0;
    }
  }

  lemma RegisterKeepsAudited(r: Registry, task: Task)
    requires Audited(r) && Numbered(r.tasks, r.counter)
    ensures Audited(Registered(r, task))
  {
    if Fault(task).None? {
      var s := Registered(r, task);
      OneMoreEvent(r, Register(TaskId(r.counter + 1), task), s.recorded, s.tasks);
    }
  }

  lemma RecordKeepsAudited(r: Registry, id: TaskId, offered: Offered)
    requires Audited(r)
    ensures Audited(Recorded(r, id, offered))
  {
    var s := Recorded(r, id, offered);
    OneMoreEvent(r, s.audit[|s.audit| - 1], s.recorded, s.tasks);
  }

  /**
   In every run: the values recorded are those of the `counted` events in the audit trail, each task is
   counted at most once, and no trivial task is.
   */
  lemma {:induction false} RunIsAudited(ops: seq<Op>)
    ensures Audited(Run(ops)) && Numbered(Run(ops).tasks, Run(ops).counter)
  {
    if ops == [] {
      assert Replay([]) == map[] && ReplayTasks([]) == map[];
    } else {
      var r, op := Run(ops[..|ops| - 1]), ops[|ops| - 1];
      RunIsAudited(ops[..|ops| - 1]);
      match op
      case RegisterTask(task) =>
        RegisterKeepsNumbered(r, task);
        RegisterKeepsAudited(r, task);
      case Record(id, offered) =>
        RecordKeepsAudited(r, id, offered);
    }
  }

  // ---------------------------------------------------------------- what is registered and counted

  /** A task that the registry takes. */
  predicate Acceptable(task: Task) {
    task.level in {"trivial", "easy", "medium", "hard", "expert"} && task.weight > 0.0 && task.name != ""
  }

  /** The acceptable tasks offered, in order. */
  function AcceptableTasks(ops: seq<Op>): seq<Task> {
    if ops == [] then []
    else
      var front, op := AcceptableTasks(ops[..|ops| - 1]), ops[|ops| - 1];
      if op.RegisterTask? && Acceptable(op.task) then front + [op.task] else front
  }

  /** In every run the acceptable tasks, and no others, are registered, under the numbers from one on. */
  lemma {:induction false} RegisteredAre(ops: seq<Op>)
    ensures Run(ops).counter == |AcceptableTasks(ops)|
    ensures forall id :: id in Run(ops).tasks <==> id.TaskId? && 1 <= id.n <= |AcceptableTasks(ops)|
    ensures forall id :: id in Run(ops).tasks ==> Run(ops).tasks[id] == AcceptableTasks(ops)[id.n - 1]
  {
    if ops != [] {
      RegisteredAre(ops[..|ops| - 1]);
    }
  }

  /** The task may be counted, and operation `i` offers a positive number for it. */
  ghost predicate Offers(ops: seq<Op>, i: nat, id: TaskId) {
    && i < |ops| && ops[i].Record? && ops[i].id == id && ops[i].offered.Number? && ops[i].offered.value > 0.0
    && var before := Run(ops[..i]).tasks; id in before && before[id].level != "trivial"
  }

  ghost predicate FirstOffer(ops: seq<Op>, i: nat, id: TaskId) {
    Offers(ops, i, id) && forall j: nat :: j < i ==> !Offers(ops, j, id)
  }

  lemma OffersBefore(ops: seq<Op>, n: nat, i: nat, id: TaskId)
    requires i < n <= |ops|
    ensures Offers(ops[..n], i, id) <==> Offers(ops, i, id)
  {
    assert ops[..n][..i] == ops[..i];
  }

  /** One operation counts the task that it offers a value for, unless that was counted before. */
  lemma StepCounts(r: Registry, op: Op)
    ensures Step(r, op).recorded ==
            if op.Record? && Objection(r, op.id, op.offered).None? then r.recorded[op.id := op.offered.value]
            else r.recorded
  {
  }

  lemma RecordedNext(ops: seq<Op>, n: nat, id: TaskId)
    requires n + 1 == |ops|
    ensures var before, after := Run(ops[..n]).recorded, Run(ops).recorded;
            && (id in after <==> id in before || Offers(ops, n, id))
            && (id in before ==> after[id] == before[id])
            && (id !in before && id in after ==> after[id] == ops[n].offered.value)
  {
    StepCounts(Run(ops[..n]), ops[n]);
    assert Run(ops) == Step(Run(ops[..n]), ops[n]);
  }

  /** In every run a task is counted exactly if a positive number was offered for it, with the first such number. */
  lemma {:induction false} FirstOfferCounts(ops: seq<Op>, id: TaskId) returns (i: nat)
    ensures id !in Run(ops).recorded ==> forall j: nat :: !Offers(ops, j, id)
    ensures id in Run(ops).recorded ==> FirstOffer(ops, i, id) && Run(ops).recorded[id] == ops[i].offered.value
  {
    i := 0;
    if ops != [] {
      var n := |ops| - 1;
      i := FirstOfferCounts(ops[..n], id);
      forall j: nat | j < n ensures Offers(ops[..n], j, id) <==> Offers(ops, j, id) {
        OffersBefore(ops, n, j, id);
      }
      RecordedNext(ops, n, id);
      if id !in Run(ops[..n]).recorded {
        i := n;
      }
    }
  }

  /** A registration is refused for its level before its weight, and for its weight before its name. */
  lemma FaultTold(task: Task)
    ensures Fault(task) == None <==> Acceptable(task)
    ensures Fault(task) == Some(UnknownLevel) <==> task.level !in {"trivial", "easy", "medium", "hard", "expert"}
    ensures Fault(task) == Some(EmptyName) ==> task.name == "" && task.weight > 0.0
    ensures Fault(task) == Some(BadWeight) ==> task.weight <= 0.0
  {
  }

  /** The event of a record that counts nothing: the first of the four reasons that applies. */
  lemma RefusalTold(ops: seq<Op>, id: TaskId, offered: Offered)
    ensures var r, after := Run(ops), Run(ops + [Record(id, offered)]);
            after.recorded == r.recorded ==>
              && |after.audit| == |r.audit| + 1 && after.audit[|r.audit|].Refused?
              && var e := after.audit[|r.audit|];
              && e.id == id && e.offered == offered
              && (e.reason == UnknownTask <==> id !in r.tasks)
              && (e.reason == TrivialLevel <==> id in r.tasks && r.tasks[id].level == "trivial")
              && (e.reason == Duplicate <==> id in r.recorded)
              && (e.reason == InvalidValue ==> offered.NotANumber? || offered.value <= 0.0)
              && (id in r.tasks ==> e.level == Some(r.tasks[id].level))
  {
    assert (ops + [Record(id, offered)])[..|ops|] == ops;
    RunIsAudited(ops);
    RecordedAreSerious(ops, id);
    StepCounts(Run(ops), Record(id, offered));
  }

  /** What was counted is registered, and not trivial. */
  lemma RecordedAreSerious(ops: seq<Op>, id: TaskId)
    ensures id in Run(ops).recorded ==> id in Run(ops).tasks && Run(ops).tasks[id].level != "trivial"
  {
    var r := Run(ops);
    RunIsAudited(ops);
    if id in r.recorded {
      CountedIsThere(r.audit, id);
      var e :| e in r.audit && e.Counted? && e.id == id;
      assert Fair(e, r.tasks);
    }
  }

  lemma {:induction false} CountedIsThere(audit: seq<Event>, id: TaskId)
    requires id in Replay(audit)
    ensures exists e :: e in audit && e.Counted? && e.id == id
  {
    var front, last := audit[..|audit| - 1], audit[|audit| - 1];
    if last.Counted? && last.id == id {
      assert last in audit;
    } else {
      CountedIsThere(front, id);
      var e :| e in front && e.Counted? && e.id == id;
      assert e in audit;
    }
  }

  // ---------------------------------------------------------------- the report

  datatype Bucket = Bucket(count: nat, units: real, weighted: real)
  datatype LevelTotals = LevelTotals(all: Bucket, heldUnits: real, heldWeighted: real)
  datatype Report = Report(main: Bucket, held: Bucket, levels: map<string, LevelTotals>,
                           fixedCount: nat, registered: nat, recorded: nat, auditCount: nat)

  /** A counted task with its value, plain and weighted. */
  datatype Entry = Entry(task: Task, value: real, weighted: real)

  function EntryOf(task: Task, value: real): Entry {
    Entry(task, value, WeightedValue(task, value))
  }

  /** The counted tasks among the first `n` registered, in order. */
  function Entries(tasks: map<TaskId, Task>, recorded: map<TaskId, real>, n: nat): seq<Entry> {
    if n == 0 then []
    else
      var id, before := TaskId(n), Entries(tasks, recorded, n - 1);
      if id in tasks && id in recorded then before + [EntryOf(tasks[id], recorded[id])] else before
  }

  function WeightedValue(task: Task, value: real): real {
    value * task.weight
  }

  /** The figures that the report sums up. */
  datatype Figure = Units | Weighted | HeldUnits | HeldWeighted | MainUnits | MainWeighted

  function Amount(f: Figure, e: Entry): real {
    match f
    case Units => e.value
    case Weighted => e.weighted
    case HeldUnits => if e.task.heldOut then e.value else 0.0
    case HeldWeighted => if e.task.heldOut then e.weighted else 0.0
    case MainUnits => if e.task.heldOut then 0.0 else e.value
    case MainWeighted => if e.task.heldOut then 0.0 else e.weighted
  }

  ghost function SumOf(f: Figure, es: seq<Entry>): real {
    if es == [] then 0.0 else SumOf(f, es[..|es| - 1]) + Amount(f, es[|es| - 1])
  }

  /** The entries at one level. */
  function AtLevel(es: seq<Entry>, level: string): seq<Entry> {
    if es == [] then []
    else
      var e, front := es[|es| - 1], AtLevel(es[..|es| - 1], level);
      if e.task.level == level then front + [e] else front
  }

  function HeldCount(es: seq<Entry>): nat {
    if es == [] then 0 else HeldCount(es[..|es| - 1]) + if es[|es| - 1].task.heldOut then 1 else 0
  }

  ghost function TotalsAt(es: seq<Entry>): LevelTotals {
    LevelTotals(Bucket(|es|, SumOf(Units, es), SumOf(Weighted, es)), SumOf(HeldUnits, es), SumOf(HeldWeighted, es))
  }

  /** The report's buckets and levels hold the totals of the entries. */
  ghost predicate Accounts(es: seq<Entry>, main: Bucket, held: Bucket, levels: map<string, LevelTotals>) {
    HeldBucket(es, held) && MainBucket(es, main) && PerLevel(es, levels)
  }

  ghost predicate HeldBucket(es: seq<Entry>, held: Bucket) {
    held == Bucket(HeldCount(es), SumOf(HeldUnits, es), SumOf(HeldWeighted, es))
  }

  ghost predicate MainBucket(es: seq<Entry>, main: Bucket) {
    && main.count + HeldCount(es) == |es|
    && main.units == SumOf(MainUnits, es) && main.weighted == SumOf(MainWeighted, es)
  }

  ghost predicate PerLevel(es: seq<Entry>, levels: map<string, LevelTotals>) {
    && (forall l {:trigger l in levels} :: l in levels <==> AtLevel(es, l) != [])
    && (forall l {:trigger levels[l]} :: l in levels ==> levels[l] == TotalsAt(AtLevel(es, l)))
  }

  // ---------------------------------------------------------------- what the report adds up to

  lemma SumOfNext(f: Figure, es: seq<Entry>, e: Entry)
    ensures SumOf(f, es + [e]) == SumOf(f, es) + Amount(f, e)
  {
    assert (es + [e])[..|es|] == es;
  }

  /** A weight common to all tasks multiplies the whole. */
  lemma {:induction false} CommonWeight(es: seq<Entry>, weight: real, units: real)
    requires forall e :: e in es ==> e == EntryOf(e.task, e.value) && e.task.weight == weight
    requires units == SumOf(Units, es)
    ensures SumOf(Weighted, es) == units * weight
  {
    if es != [] {
      var front, e := es[..|es| - 1], es[|es| - 1];
      var before := SumOf(Units, front);
      CommonWeight(front, weight, before);
      assert e in es;
      DistributeOver(weight, before, e.value);
    }
  }

  /** Main and held-out figures make up the whole. */
  lemma {:induction false} SumOfParts(es: seq<Entry>)
    ensures SumOf(Units, es) == SumOf(MainUnits, es) + SumOf(HeldUnits, es)
    ensures SumOf(Weighted, es) == SumOf(MainWeighted, es) + SumOf(HeldWeighted, es)
  {
    if es != [] {
      SumOfParts(es[..|es| - 1]);
    }
  }

  ghost function LevelNames(es: seq<Entry>): set<string> {
    if es == [] then {} else LevelNames(es[..|es| - 1]) + {es[|es| - 1].task.level}
  }

  lemma {:induction false} NamesAreInhabited(es: seq<Entry>, l: string)
    ensures l in LevelNames(es) <==> AtLevel(es, l) != []
  {
    if es != [] {
      NamesAreInhabited(es[..|es| - 1], l);
    }
  }

  ghost function ByLevel(f: Figure, es: seq<Entry>): map<string, real> {
    map l | l in LevelNames(es) :: SumOf(f, AtLevel(es, l))
  }

  lemma AtLevelNext(es: seq<Entry>, e: Entry, level: string)
    ensures AtLevel(es + [e], level) == if e.task.level == level then AtLevel(es, level) + [e] else AtLevel(es, level)
  {
    assert (es + [e])[..|es|] == es;
  }

  lemma ByLevelIs(f: Figure, es: seq<Entry>, l: string)
    ensures At(ByLevel(f, es), l) == SumOf(f, AtLevel(es, l))
  {
    NamesAreInhabited(es, l);
  }

  lemma ByLevelAt(f: Figure, es: seq<Entry>, e: Entry, l: string)
    ensures At(ByLevel(f, es + [e]), l) ==
            At(ByLevel(f, es), l) + if l == e.task.level then Amount(f, e) else 0.0
  {
    ByLevelIs(f, es, l);
    ByLevelIs(f, es + [e], l);
    AtLevelNext(es, e, l);
    SumOfNext(f, AtLevel(es, l), e);
  }

  lemma LevelNamesNext(es: seq<Entry>, e: Entry)
    ensures LevelNames(es + [e]) == LevelNames(es) + {e.task.level}
  {
    assert (es + [e])[..|es|] == es;
  }

  lemma MapGrown(before: map<string, real>, after: map<string, real>, k: string, v: real)
    requires after.Keys == before.Keys + {k}
    requires forall l {:trigger At(after, l)} :: At(after, l) == At(before, l) + if l == k then v else 0.0
    ensures Total(after) == Total(before) + v
  {
    forall l | l in after ensures after[l] == before[k := At(before, k) + v][l] {
      assert At(after, l) == after[l];
    }
    TotalGrown(before, k, v, after);
  }

  lemma ByLevelNext(f: Figure, es: seq<Entry>, e: Entry)
    ensures Total(ByLevel(f, es + [e])) == Total(ByLevel(f, es)) + Amount(f, e)
  {
    var before, after := ByLevel(f, es), ByLevel(f, es + [e]);
    LevelNamesNext(es, e);
    forall l ensures At(after, l) == At(before, l) + if l == e.task.level then Amount(f, e) else 0.0 {
      ByLevelAt(f, es, e, l);
    }
    MapGrown(before, after, e.task.level, Amount(f, e));
  }

  /** A sum taken level by level is the whole sum. */
  lemma {:induction false} LevelsAddUp(f: Figure, es: seq<Entry>)
    ensures Total(ByLevel(f, es)) == SumOf(f, es)
  {
    if es == [] {
      assert ByLevel(f, []) == map[];
    } else {
      LevelsAddUp(f, es[..|es| - 1]);
      ByLevelNext(f, es[..|es| - 1], es[|es| - 1]);
      assert es[..|es| - 1] + [es[|es| - 1]] == es;
    }
  }

  lemma LevelColumn(f: Figure, es: seq<Entry>, levels: map<string, LevelTotals>, column: map<string, real>)
    requires PerLevel(es, levels) && column.Keys == levels.Keys
    requires forall l :: l in column ==> column[l] == SumOf(f, AtLevel(es, l))
    ensures Total(column) == SumOf(f, es)
  {
    forall l ensures l in column <==> l in LevelNames(es) {
      NamesAreInhabited(es, l);
      assert l in column <==> l in levels;
    }
    assert column == ByLevel(f, es);
    LevelsAddUp(f, es);
  }

  /** Main and held-out make up all the entries, and so do the levels; their held-out parts, the held-out bucket. */
  lemma ReportAddsUp(es: seq<Entry>, main: Bucket, held: Bucket, levels: map<string, LevelTotals>)
    requires Accounts(es, main, held, levels)
    ensures main.count + held.count == |es|
    ensures main.units + held.units == SumOf(Units, es)
    ensures main.weighted + held.weighted == SumOf(Weighted, es)
    ensures Total(map l | l in levels :: levels[l].all.units) == SumOf(Units, es)
    ensures Total(map l | l in levels :: levels[l].all.weighted) == SumOf(Weighted, es)
    ensures Total(map l | l in levels :: levels[l].heldUnits) == held.units
    ensures Total(map l | l in levels :: levels[l].heldWeighted) == held.weighted
  {
    SumOfParts(es);
    LevelColumn(Units, es, levels, map l | l in levels :: levels[l].all.units);
    LevelColumn(Weighted, es, levels, map l | l in levels :: levels[l].all.weighted);
    LevelColumn(HeldUnits, es, levels, map l | l in levels :: levels[l].heldUnits);
    LevelColumn(HeldWeighted, es, levels, map l | l in levels :: levels[l].heldWeighted);
  }

  /** The identifiers of the first `n` tasks. */
  ghost function FirstIds(n: nat): set<TaskId> {
    if n == 0 then {} else FirstIds(n - 1) + {TaskId(n)}
  }

  lemma {:induction false} InFirstIds(n: nat, id: TaskId)
    ensures id in FirstIds(n) <==> exists k: nat :: 1 <= k <= n && id == TaskId(k)
  {
    if n > 0 {
      InFirstIds(n - 1, id);
      if id == TaskId(n) {
        assert 1 <= n <= n && id == TaskId(n);
      }
    }
  }

  function Restrict(v: map<TaskId, real>, ids: set<TaskId>): map<TaskId, real> {
    map id | id in v && id in ids :: v[id]
  }

  lemma {:induction false} EntriesHoldRecorded(tasks: map<TaskId, Task>, recorded: map<TaskId, real>, n: nat)
    requires forall k: nat :: 1 <= k <= n ==> TaskId(k) in tasks
    ensures SumOf(Units, Entries(tasks, recorded, n)) == Total(Restrict(recorded, FirstIds(n)))
    ensures |Entries(tasks, recorded, n)| == |Restrict(recorded, FirstIds(n))|
  {
    if n == 0 {
      assert Restrict(recorded, {}) == map[];
    } else {
      var id := TaskId(n);
      EntriesHoldRecorded(tasks, recorded, n - 1);
      InFirstIds(n - 1, id);
      RestrictMore(recorded, FirstIds(n - 1), id);
      EntriesMore(tasks, recorded, n);
    }
  }

  lemma EntriesMore(tasks: map<TaskId, Task>, recorded: map<TaskId, real>, n: nat)
    requires n > 0 && TaskId(n) in tasks
    ensures var more, before, id := Entries(tasks, recorded, n), Entries(tasks, recorded, n - 1), TaskId(n);
            && |more| == |before| + (if id in recorded then 1 else 0)
            && SumOf(Units, more) == SumOf(Units, before) + (if id in recorded then recorded[id] else 0.0)
  {
    var id := TaskId(n);
    if id in recorded {
      SumOfNext(Units, Entries(tasks, recorded, n - 1), EntryOf(tasks[id], recorded[id]));
    }
  }

  lemma RestrictMore(v: map<TaskId, real>, ids: set<TaskId>, id: TaskId)
    requires id !in ids
    ensures Total(Restrict(v, ids + {id})) == Total(Restrict(v, ids)) + At(v, id)
    ensures |Restrict(v, ids + {id})| == |Restrict(v, ids)| + if id in v then 1 else 0
  {
    var m := Restrict(v, ids);
    if id in v {
      TotalSet(m, id, v[id]);
      assert Restrict(v, ids + {id}) == m[id := v[id]];
    } else {
      assert Restrict(v, ids + {id}) == m;
    }
  }

  /** The entries of a run carry exactly the values recorded. */
  lemma EntriesCoverRecorded(ops: seq<Op>)
    ensures var r := Run(ops);
            var es := Entries(r.tasks, r.recorded, r.counter);
            SumOf(Units, es) == Total(r.recorded) && |es| == |r.recorded|
  {
    var r := Run(ops);
    RunIsAudited(ops);
    EntriesHoldRecorded(r.tasks, r.recorded, r.counter);
    forall id | id in r.recorded ensures id in FirstIds(r.counter) {
      InFirstIds(r.counter, id);
    }
    assert Restrict(r.recorded, FirstIds(r.counter)) == r.recorded;
  }

  /** In every run, the buckets of the report make up exactly what was recorded, and so do its levels. */
  lemma ReportCoversRecorded(ops: seq<Op>, main: Bucket, held: Bucket, levels: map<string, LevelTotals>)
    requires var r := Run(ops); Accounts(Entries(r.tasks, r.recorded, r.counter), main, held, levels)
    ensures main.units + held.units == Total(Run(ops).recorded)
    ensures main.count + held.count == |Run(ops).recorded|
    ensures Total(map l | l in levels :: levels[l].all.units) == Total(Run(ops).recorded)
  {
    var r := Run(ops);
    EntriesCoverRecorded(ops);
    ReportAddsUp(Entries(r.tasks, r.recorded, r.counter), main, held, levels);
  }

  /** Two lists of counted tasks with the same main bucket. */
  ghost predicate SameMain(a: seq<Entry>, b: seq<Entry>) {
    && SumOf(MainUnits, a) == SumOf(MainUnits, b) && SumOf(MainWeighted, a) == SumOf(MainWeighted, b)
    && |a| - HeldCount(a) == |b| - HeldCount(b)
  }

  lemma SameMainHeld(a: seq<Entry>, b: seq<Entry>, e: Entry)
    requires SameMain(a, b) && e.task.heldOut
    ensures SameMain(a, b + [e])
  {
    Appended(b, e);
  }

  lemma SameMainBoth(a: seq<Entry>, b: seq<Entry>, e: Entry)
    requires SameMain(a, b)
    ensures SameMain(a + [e], b + [e])
  {
    Appended(a, e);
    Appended(b, e);
  }

  /** The headline is isolated: counting a held-out task changes nothing in the main bucket. */
  lemma {:induction false} HeldOutIsIsolated(tasks: map<TaskId, Task>, recorded: map<TaskId, real>,
                                             id: TaskId, v: real, n: nat)
    requires id in tasks && tasks[id].heldOut && id !in recorded
    ensures SameMain(Entries(tasks, recorded, n), Entries(tasks, recorded[id := v], n))
  {
    if n > 0 {
      HeldOutIsIsolated(tasks, recorded, id, v, n - 1);
      var before, after, next := Entries(tasks, recorded, n - 1), Entries(tasks, recorded[id := v], n - 1), TaskId(n);
      if next == id {
        SameMainHeld(before, after, EntryOf(tasks[next], v));
      } else if next in tasks && next in recorded {
        SameMainBoth(before, after, EntryOf(tasks[next], recorded[next]));
      }
    }
  }

  lemma Appended(es: seq<Entry>, e: Entry)
    ensures SumOf(MainUnits, es + [e]) == SumOf(MainUnits, es) + Amount(MainUnits, e)
    ensures SumOf(MainWeighted, es + [e]) == SumOf(MainWeighted, es) + Amount(MainWeighted, e)
    ensures HeldCount(es + [e]) == HeldCount(es) + if e.task.heldOut then 1 else 0
  {
    assert (es + [e])[..|es|] == es;
  }

  // ---------------------------------------------------------------- the registry itself

  class L10KRegistry {
    var tasks: map<TaskId, Task>
    var recorded: map<TaskId, real>
    var counter: nat
    var audit: seq<Event>

    function State(): Registry
      reads this
    {
      Registry(tasks, recorded, counter, audit)
    }

    constructor ()
      ensures State() == EMPTY
    {
      tasks, recorded, counter, audit := map[], map[], 0, [];
    }

    method RegisterTask(task: Task) returns (id: Option<TaskId>, fault: Option<Refusal>)
      modifies this
      ensures State() == Registered(old(State()), task)
      ensures fault == Fault(task) && id == if fault.Some? then None else Some(TaskId(counter))
    {
      id, fault := None, None;
      if task.level !in KNOWN_LEVELS {
        fault := Some(UnknownLevel);
      } else if task.weight <= 0.0 {
        fault := Some(BadWeight);
      } else if task.name == "" {
        fault := Some(EmptyName);
      } else {
        counter := counter + 1;
        tasks := tasks[TaskId(counter) := task];
        audit := audit + [Register(TaskId(counter), task)];
        id := Some(TaskId(counter));
      }
    }

    method RecordVerifiedOutput(id: TaskId, offered: Offered) returns (counted: bool)
      modifies this
      ensures State() == Recorded(old(State()), id, offered)
      ensures counted == Objection(old(State()), id, offered).None?
    {
      counted := false;
      if id !in tasks {
        audit := audit + [Refused(id, None, offered, UnknownTask)];
        return;
      }
      var task := tasks[id];
      if task.level == TRIVIAL {
        audit := audit + [Refused(id, Some(task.level), offered, TrivialLevel)];
      } else if id in recorded {
        audit := audit + [Refused(id, Some(task.level), offered, Duplicate)];
      } else if offered.NotANumber? || offered.value <= 0.0 {
        audit := audit + [Refused(id, Some(task.level), offered, InvalidValue)];
      } else {
        recorded := recorded[id := offered.value];
        audit := audit + [Counted(id, task, offered.value, WeightedValue(task, offered.value))];
        counted := true;
      }
    }

    method BaselineReport() returns (r: Report)
      requires Numbered(tasks, counter)
      ensures Accounts(Entries(tasks, recorded, counter), r.main, r.held, r.levels)
      ensures r.recorded == |recorded| && r.registered == |tasks| && r.auditCount == |audit|
      ensures r.fixedCount == |set id | id in tasks && tasks[id].fixed|
    {
      var main, held := Bucket(0, 0.0, 0.0), Bucket(0, 0.0, 0.0);
      var levels: map<string, LevelTotals> := map[];
      ghost var es: seq<Entry> := [];
      for n := 1 to counter + 1
        invariant es == Entries(tasks, recorded, n - 1)
        invariant Accounts(es, main, held, levels)
      {
        var id := TaskId(n);
        if id in recorded {
          var task, value := tasks[id], recorded[id];
          var weighted := WeightedValue(task, value);
          AccountsNext(es, EntryOf(task, value), main, held, levels);
          if task.heldOut {
            held := Fuller(held, value, weighted);
          } else {
            main := Fuller(main, value, weighted);
          }
          levels := levels[task.level := Grown(levels, task, value, weighted)];
          es := es + [EntryOf(task, value)];
        }
      }
      var fixedTasks := set id | id in tasks && tasks[id].fixed;
      r := Report(main, held, levels, |fixedTasks|, |tasks|, |recorded|, |audit|);
    }
  }

  function Fuller(b: Bucket, value: real, weighted: real): Bucket {
    Bucket(b.count + 1, b.units + value, b.weighted + weighted)
  }

  /** The totals of a level, with one more counted task. */
  function Grown(levels: map<string, LevelTotals>, task: Task, value: real, weighted: real): LevelTotals {
    var l := if task.level in levels then levels[task.level] else LevelTotals(Bucket(0, 0.0, 0.0), 0.0, 0.0);
    LevelTotals(Fuller(l.all, value, weighted),
                if task.heldOut then l.heldUnits + value else l.heldUnits,
                if task.heldOut then l.heldWeighted + weighted else l.heldWeighted)
  }

  lemma AccountsNext(es: seq<Entry>, e: Entry, main: Bucket, held: Bucket, levels: map<string, LevelTotals>)
    requires Accounts(es, main, held, levels)
    ensures Accounts(es + [e], if e.task.heldOut then main else Fuller(main, e.value, e.weighted),
                     if e.task.heldOut then Fuller(held, e.value, e.weighted) else held,
                     levels[e.task.level := Grown(levels, e.task, e.value, e.weighted)])
  {
    HeldNext(es, e, held);
    MainNext(es, e, main);
    PerLevelNext(es, e, levels);
  }

  lemma HeldNext(es: seq<Entry>, e: Entry, held: Bucket)
    requires HeldBucket(es, held)
    ensures HeldBucket(es + [e], if e.task.heldOut then Fuller(held, e.value, e.weighted) else held)
  {
    Appended(es, e);
    SumOfNext(HeldUnits, es, e);
    SumOfNext(HeldWeighted, es, e);
  }

  lemma MainNext(es: seq<Entry>, e: Entry, main: Bucket)
    requires MainBucket(es, main)
    ensures MainBucket(es + [e], if e.task.heldOut then main else Fuller(main, e.value, e.weighted))
  {
    Appended(es, e);
  }

  lemma PerLevelNext(es: seq<Entry>, e: Entry, levels: map<string, LevelTotals>)
    requires PerLevel(es, levels)
    ensures PerLevel(es + [e], levels[e.task.level := Grown(levels, e.task, e.value, e.weighted)])
  {
    forall l ensures AtLevel(es + [e], l) == if e.task.level == l then AtLevel(es, l) + [e] else AtLevel(es, l) {
      AtLevelNext(es, e, l);
    }
    GrownTotals(AtLevel(es, e.task.level), e, levels);
  }

  lemma GrownTotals(here: seq<Entry>, e: Entry, levels: map<string, LevelTotals>)
    requires e.task.level in levels <==> here != []
    requires e.task.level in levels ==> levels[e.task.level] == TotalsAt(here)
    ensures Grown(levels, e.task, e.value, e.weighted) == TotalsAt(here + [e])
  {
    SumOfNext(Units, here, e);
    SumOfNext(Weighted, here, e);
    SumOfNext(HeldUnits, here, e);
    SumOfNext(HeldWeighted, here, e);
  }
}
