/** The guarded improvement pipeline (src/ai/evolution.py): experiments and their audit trails. */
module EvolutionLog {
  import opened Options

  datatype Status = PROPOSED | APPROVED | RUNNING | APPLIED | ROLLED_BACK | REJECTED

  /** What an experiment's events may change; the baseline is fixed when it is proposed. */
  datatype Fields = Fields(status: Status, baseline: real, observed: Option<real>, approver: Option<string>)

  datatype Reason =
    | NotBenchmarked
    | NotImproved(improvement: Option<real>)
    | TerminalState(state: Status)
    | NotApproved(was: Status)

  datatype Event =
    | Proposed(description: string, baseline: real, change: string)
    | Benchmarked(observed: real, baseline: real, improvement: real, improved: bool)
    | ApproveRejected(reason: Reason)
    | Approved(approver: string, baseline: real, observed: real, improvement: real)
    | DeployRejected(reason: Reason)
    | Deployed(approver: string, baseline: real, observed: real, improvement: real)
    | Monitored(metric: real, baseline: real, benchmark: real)
    | RollbackRejected(state: Status)
    | RolledBack(baseline: real, observed: real)
    | RejectRejected(state: Status)
    | Rejected(baseline: real, last: Option<real>)

  datatype Op =
    | Benchmark(metric: real)
    | Approve(approver: string)
    | Deploy
    | Monitor(metric: real)
    | Rollback
    | Reject

  predicate Terminal(s: Status) {
    s == APPLIED || s == ROLLED_BACK || s == REJECTED
  }

  predicate Improved(f: Fields) {
    f.observed.Some? && f.observed.value > f.baseline
  }

  function Improvement(f: Fields): Option<real> {
    if f.observed.Some? then Some(f.observed.value - f.baseline) else None
  }

  /** The event an operation records, or None when it raises ValueError and records nothing. */
  function Recorded(f: Fields, op: Op): Option<Event>
    requires f.status == APPLIED ==> f.observed.Some? && f.approver.Some?
    requires f.status == APPROVED ==> f.approver.Some?
  {
    match op
    case Benchmark(m) =>
      if Terminal(f.status) then None else Some(Benchmarked(m, f.baseline, m - f.baseline, m > f.baseline))
    case Approve(who) =>
      Some(if f.observed.None? then ApproveRejected(NotBenchmarked)
           else if !Improved(f) then ApproveRejected(NotImproved(Improvement(f)))
           else if Terminal(f.status) then ApproveRejected(TerminalState(f.status))
           else Approved(who, f.baseline, f.observed.value, Improvement(f).value))
    case Deploy =>
      Some(if f.status != APPROVED then DeployRejected(NotApproved(f.status))
           else if f.observed.None? then DeployRejected(NotBenchmarked)
           else if !Improved(f) then DeployRejected(NotImproved(Improvement(f)))
           else Deployed(f.approver.value, f.baseline, f.observed.value, Improvement(f).value))
    case Monitor(m) =>
      if f.status != APPLIED then None else Some(Monitored(m, f.baseline, f.observed.value))
    case Rollback =>
      Some(if f.status != APPLIED then RollbackRejected(f.status) else RolledBack(f.baseline, f.observed.value))
    case Reject =>
      Some(if Terminal(f.status) then RejectRejected(f.status) else Rejected(f.baseline, f.observed))
  }

  /** What an event says happened to the experiment. */
  function Apply(f: Fields, e: Event): Fields {
    match e
    case Benchmarked(m, _, _, _) => f.(observed := Some(m), status := RUNNING)
    case Approved(who, _, _, _) => f.(approver := Some(who), status := APPROVED)
    case Deployed(_, _, _, _) => f.(status := APPLIED)
    case RolledBack(_, _) => f.(status := ROLLED_BACK)
    case Rejected(_, _) => f.(status := REJECTED)
    case _ => f
  }

  /** The experiment as its trail tells it. */
  function Replay(h: seq<Event>): Fields
    requires h != [] && h[0].Proposed?
  {
    if |h| == 1 then Fields(PROPOSED, h[0].baseline, None, None)
    else Apply(Replay(h[..|h| - 1]), h[|h| - 1])
  }

  /** Which events may come next, and what they must say. */
  predicate Allowed(f: Fields, e: Event) {
    match e
    case Proposed(_, _, _) => false
    case Benchmarked(m, base, gain, better) =>
      !Terminal(f.status) && base == f.baseline && gain == m - base && better == (gain > 0.0)
    case ApproveRejected(NotBenchmarked) => f.observed.None?
    case ApproveRejected(NotImproved(gain)) => f.observed.Some? && gain == Improvement(f) && gain.value <= 0.0
    case ApproveRejected(TerminalState(s)) => Improved(f) && s == f.status && Terminal(s)
    case ApproveRejected(NotApproved(_)) => false
    case Approved(_, base, m, gain) =>
      Improved(f) && !Terminal(f.status) && base == f.baseline && f.observed == Some(m) && gain == m - base
    case DeployRejected(reason) => f.status != APPROVED && reason == NotApproved(f.status)
    case Deployed(who, base, m, gain) =>
      f.status == APPROVED && f.approver == Some(who) && base == f.baseline && f.observed == Some(m) && gain == m - base
    case Monitored(_, base, m) => f.status == APPLIED && base == f.baseline && f.observed == Some(m)
    case RollbackRejected(s) => s == f.status != APPLIED
    case RolledBack(base, m) => f.status == APPLIED && base == f.baseline && f.observed == Some(m)
    case RejectRejected(s) => s == f.status && Terminal(s)
    case Rejected(base, m) => !Terminal(f.status) && base == f.baseline && m == f.observed
  }

  ghost predicate Legal(h: seq<Event>) {
    && h != [] && h[0].Proposed? && h[0].description != "" && h[0].change != ""
    && forall i {:trigger Follows(h, i)} :: 1 <= i < |h| ==> Follows(h, i)
  }

  /** The event at `i` may come after those before it. */
  predicate Follows(h: seq<Event>, i: nat)
    requires 1 <= i < |h| && h[0].Proposed?
  {
    Allowed(Replay(h[..i]), h[i])
  }

  /** An approved or deployed experiment has been approved by somebody, on a measured improvement. */
  predicate Earned(f: Fields) {
    f.status in {APPROVED, APPLIED, ROLLED_BACK} ==> f.approver.Some? && Improved(f)
  }

  lemma AllowedKeepsEarned(f: Fields, e: Event)
    requires Earned(f) && Allowed(f, e)
    ensures Earned(Apply(f, e)) && Apply(f, e).baseline == f.baseline
  {
  }

  lemma LegalPrefix(h: seq<Event>, n: nat)
    requires Legal(h) && 1 <= n <= |h|
    ensures Legal(h[..n])
  {
    forall i | 1 <= i < n ensures Follows(h[..n], i) {
      assert h[..n][..i] == h[..i];
      assert Follows(h, i);
    }
  }

  lemma {:induction false} LegalIsEarned(h: seq<Event>)
    requires Legal(h)
    ensures Earned(Replay(h)) && Replay(h).baseline == h[0].baseline
  {
    if |h| > 1 {
      LegalPrefix(h, |h| - 1);
      LegalIsEarned(h[..|h| - 1]);
      assert Follows(h, |h| - 1);
      AllowedKeepsEarned(Replay(h[..|h| - 1]), h[|h| - 1]);
    }
  }

  lemma LegalAppend(h: seq<Event>, e: Event)
    requires Legal(h) && Allowed(Replay(h), e)
    ensures Legal(h + [e]) && Replay(h + [e]) == Apply(Replay(h), e)
  {
    var g := h + [e];
    assert g[..|h|] == h;
    forall i | 1 <= i < |g| ensures Follows(g, i) {
      if i < |h| {
        assert g[..i] == h[..i];
        assert Follows(h, i);
      }
    }
  }

  /** The rules are exact: an event may come next just when some operation records it. */
  lemma AllowedIffRecorded(f: Fields, e: Event)
    requires Earned(f)
    ensures Allowed(f, e) <==> exists op :: Recorded(f, op) == Some(e)
  {
    if Allowed(f, e) {
      var op := match e
        case Proposed(_, _, _) => Reject
        case Benchmarked(m, _, _, _) => Benchmark(m)
        case ApproveRejected(_) => Approve("")
        case Approved(who, _, _, _) => Approve(who)
        case DeployRejected(_) => Deploy
        case Deployed(_, _, _, _) => Deploy
        case Monitored(m, _, _) => Monitor(m)
        case RollbackRejected(_) => Rollback
        case RolledBack(_, _) => Rollback
        case RejectRejected(_) => Reject
        case Rejected(_, _) => Reject;
      assert Recorded(f, op) == Some(e);
    }
  }

  // ---------------------------------------------------------------- runs of one experiment

  /** The trail after a run of operations on an experiment just proposed. */
  ghost function Trail(first: Event, ops: seq<Op>): (h: seq<Event>)
    requires first.Proposed? && first.description != "" && first.change != ""
    ensures Legal(h) && h[0] == first
  {
    if ops == [] then [first]
    else
      var h := Trail(first, ops[..|ops| - 1]);
      LegalIsEarned(h);
      var e := Recorded(Replay(h), ops[|ops| - 1]);
      if e.None? then h
      else
        AllowedIffRecorded(Replay(h), e.value);
        LegalAppend(h, e.value);
        h + [e.value]
  }

  /** Every legal trail is the trail of some run. */
  lemma {:induction false} LegalIsReachable(h: seq<Event>) returns (ops: seq<Op>)
    requires Legal(h)
    ensures Trail(h[0], ops) == h
  {
    if |h| == 1 {
      ops := [];
    } else {
      var front, e := h[..|h| - 1], h[|h| - 1];
      LegalPrefix(h, |h| - 1);
      var before := LegalIsReachable(front);
      LegalIsEarned(front);
      assert Follows(h, |h| - 1);
      AllowedIffRecorded(Replay(front), e);
      var op :| Recorded(Replay(front), op) == Some(e);
      ops := before + [op];
      assert ops[..|ops| - 1] == before;
      assert front + [e] == h;
    }
  }

  // ---------------------------------------------------------------- what a trail proves

  ghost predicate NoneBetween(h: seq<Event>, j: nat, i: nat)
    requires i <= |h|
  {
    forall k :: j < k < i ==> !h[k].Benchmarked? && !h[k].Approved? && !h[k].Rejected?
  }

  /** Where a trail says APPROVED, its last approval is in force: nothing was measured, approved or rejected since. */
  lemma {:induction false} ApprovalInForce(h: seq<Event>) returns (j: nat)
    requires Legal(h) && Replay(h).status == APPROVED
    ensures j < |h| && h[j].Approved? && NoneBetween(h, j, |h|)
    ensures Some(h[j].approver) == Replay(h).approver && Some(h[j].observed) == Replay(h).observed
  {
    var front, e := h[..|h| - 1], h[|h| - 1];
    assert Follows(h, |h| - 1);
    if e.Approved? {
      j := |h| - 1;
    } else {
      LegalPrefix(h, |h| - 1);
      j := ApprovalInForce(front);
    }
  }

  /**
   Each deployment rests on an approval: by the same person, of the same measured metric, above the
   baseline, with no benchmark, approval or rejection in between.
   */
  lemma DeploymentRestsOnApproval(h: seq<Event>, i: nat) returns (j: nat)
    requires Legal(h) && i < |h| && h[i].Deployed?
    ensures j < i && h[j].Approved? && NoneBetween(h, j, i)
    ensures h[i].approver == h[j].approver && h[i].observed == h[j].observed > h[i].baseline == h[0].baseline
  {
    assert i == 0 || Follows(h, i);
    LegalPrefix(h, i);
    LegalIsEarned(h[..i]);
    j := ApprovalInForce(h[..i]);
    forall k | j < k < i ensures !h[k].Benchmarked? && !h[k].Approved? && !h[k].Rejected? {
      assert h[..i][k] == h[k];
    }
  }

  /** After a deployment nothing is benchmarked, approved, rejected or deployed again. */
  lemma {:induction false} DeploymentIsFinal(h: seq<Event>, i: nat, k: nat)
    requires Legal(h) && i < k < |h| && h[i].Deployed?
    ensures Replay(h[..k]).status in {APPLIED, ROLLED_BACK}
    ensures !h[k].Benchmarked? && !h[k].Approved? && !h[k].Rejected? && !h[k].Deployed?
  {
    assert h[..k][..k - 1] == h[..k - 1];
    assert Follows(h, k);
    if k > i + 1 {
      DeploymentIsFinal(h, i, k - 1);
      assert Follows(h, k - 1);
    }
  }

  /** The kinds of event that bring about a status of their own. */
  datatype Kind = OfBenchmark | OfRejection | OfRollback | OfDeployment | OfAnother

  function KindOf(e: Event): Kind {
    match e
    case Benchmarked(_, _, _, _) => OfBenchmark
    case Rejected(_, _) => OfRejection
    case RolledBack(_, _) => OfRollback
    case Deployed(_, _, _, _) => OfDeployment
    case _ => OfAnother
  }

  ghost predicate Any(h: seq<Event>, kind: Kind) {
    exists i :: 0 <= i < |h| && KindOf(h[i]) == kind
  }

  lemma AnyNext(h: seq<Event>, kind: Kind)
    requires h != []
    ensures Any(h, kind) <==> Any(h[..|h| - 1], kind) || KindOf(h[|h| - 1]) == kind
  {
    if i :| 0 <= i < |h| - 1 && KindOf(h[i]) == kind {
      assert KindOf(h[..|h| - 1][i]) == kind;
    }
  }

  /** The metric of the last benchmark. */
  function LastMeasured(h: seq<Event>): Option<real> {
    if h == [] then None
    else if h[|h| - 1].Benchmarked? then Some(h[|h| - 1].observed) else LastMeasured(h[..|h| - 1])
  }

  /** The person of the last approval. */
  function LastApprover(h: seq<Event>): Option<string> {
    if h == [] then None
    else if h[|h| - 1].Approved? then Some(h[|h| - 1].approver) else LastApprover(h[..|h| - 1])
  }

  /** Which events have happened tells the status, and the last of their kind the metric and the approver. */
  ghost predicate Told(h: seq<Event>, f: Fields) {
    && f.observed == LastMeasured(h) && f.approver == LastApprover(h)
    && (f.observed.Some? <==> Any(h, OfBenchmark))
    && (f.status == PROPOSED <==> !Any(h, OfBenchmark) && !Any(h, OfRejection))
    && (f.status == REJECTED <==> Any(h, OfRejection))
    && (f.status == ROLLED_BACK <==> Any(h, OfRollback))
    && (f.status == APPLIED <==> Any(h, OfDeployment) && !Any(h, OfRollback))
  }

  lemma {:induction false} TrailTellsStatus(h: seq<Event>)
    requires Legal(h)
    ensures Told(h, Replay(h))
  {
    AnyNext(h, OfBenchmark);
    AnyNext(h, OfRejection);
    AnyNext(h, OfRollback);
    AnyNext(h, OfDeployment);
    if |h| > 1 {
      LegalPrefix(h, |h| - 1);
      TrailTellsStatus(h[..|h| - 1]);
      assert Follows(h, |h| - 1);
    } else {
      assert h[..0] == [];
      assert LastMeasured([]) == None && LastApprover([]) == None;
    }
  }

  /** An experiment that is not over can be deployed: by a benchmark above the baseline, an approval and a call. */
  lemma ImprovedCanBeDeployed(first: Event, ops: seq<Op>, metric: real, who: string)
    requires first.Proposed? && first.description != "" && first.change != "" && metric > first.baseline
    requires !Terminal(Replay(Trail(first, ops)).status)
    ensures Replay(Trail(first, ops + [Benchmark(metric), Approve(who), Deploy])) ==
            Fields(APPLIED, first.baseline, Some(metric), Some(who))
  {
    NextInTrail(first, ops, Benchmark(metric));
    ApprovedThenDeployed(first, ops + [Benchmark(metric)], who);
    assert ops + [Benchmark(metric)] + [Approve(who), Deploy] == ops + [Benchmark(metric), Approve(who), Deploy];
  }

  lemma ApprovedThenDeployed(first: Event, ops: seq<Op>, who: string)
    requires first.Proposed? && first.description != "" && first.change != ""
    requires Improved(Replay(Trail(first, ops))) && !Terminal(Replay(Trail(first, ops)).status)
    ensures Replay(Trail(first, ops + [Approve(who), Deploy])) ==
            Replay(Trail(first, ops)).(status := APPLIED, approver := Some(who))
  {
    var more := ops + [Approve(who)];
    assert ops + [Approve(who), Deploy] == more + [Deploy];
    NextInTrail(first, ops, Approve(who));
    NextInTrail(first, more, Deploy);
    ApproveAndDeploy(Replay(Trail(first, ops)), who);
  }

  lemma ApproveAndDeploy(f: Fields, who: string)
    requires Earned(f) && Improved(f) && !Terminal(f.status)
    ensures Earned(Operated(f, Approve(who)))
    ensures Operated(Operated(f, Approve(who)), Deploy) == f.(status := APPLIED, approver := Some(who))
  {
  }

  ghost function Operated(f: Fields, op: Op): Fields
    requires Earned(f)
  {
    if Recorded(f, op).Some? then Apply(f, Recorded(f, op).value) else f
  }

  lemma NextInTrail(first: Event, ops: seq<Op>, op: Op)
    requires first.Proposed? && first.description != "" && first.change != ""
    ensures var f := Replay(Trail(first, ops));
            Earned(f) && f.baseline == first.baseline && Replay(Trail(first, ops + [op])) == Operated(f, op)
  {
    assert (ops + [op])[..|ops|] == ops;
    var h := Trail(first, ops);
    LegalIsEarned(h);
    if Recorded(Replay(h), op).Some? {
      AllowedIffRecorded(Replay(h), Recorded(Replay(h), op).value);
      LegalAppend(h, Recorded(Replay(h), op).value);
    }
  }

  /** The two later checks of `deploy` never refuse: an approved experiment is always benchmarked and improved. */
  lemma OnlyMissingApprovalStopsDeployment(h: seq<Event>)
    requires Legal(h)
    ensures Earned(Replay(h))
    ensures Recorded(Replay(h), Deploy).value.Deployed? <==> Replay(h).status == APPROVED
  {
    LegalIsEarned(h);
  }
}

/** The engine itself. */
module EvolutionEngines {
  import opened Options
  import opened EvolutionLog

  type ExperimentId(==, !new)

  datatype Raised<T> = Value(value: T) | KeyError | ValueError
  datatype Report = Report(baseline: real, observed: real, improvement: real, improved: bool)
  datatype Monitoring = Monitoring(baseline: real, observed: real, deployed: real, delta: real)

  class Experiment {
    const description: string
    const baseline: real
    const change: string
    var status: Status
    var observed: Option<real>
    var approver: Option<string>
    var history: seq<Event>

    function State(): Fields
      reads this
    {
      Fields(status, baseline, observed, approver)
    }

    /** The trail is legal and tells exactly the state. */
    ghost predicate Valid()
      reads this
    {
      Legal(history) && Replay(history) == State()
    }

    constructor (description: string, baseline: real, change: string)
      requires description != "" && change != ""
      ensures Valid() && history == [Proposed(description, baseline, change)]
    {
      this.description, this.baseline, this.change := description, baseline, change;
      status, observed, approver := PROPOSED, None, None;
      history := [Proposed(description, baseline, change)];
    }

    predicate IsBenchmarked()
      reads this
    {
      observed.Some?
    }

    predicate IsImproved()
      reads this
    {
      observed.Some? && observed.value > baseline
    }

    method Record(e: Event)
      modifies this`history
      ensures history == old(history) + [e]
    {
      history := history + [e];
    }

    /** `op` was carried out in state `f`, on the trail `before`: its event was appended, or nothing was. */
    ghost predicate CarriedOut(f: Fields, before: seq<Event>, op: Op)
      reads this
    {
      && Earned(f)
      && history == before + if Recorded(f, op).None? then [] else [Recorded(f, op).value]
    }

    method Benchmark(metric: real) returns (r: Raised<Report>)
      requires Valid()
      modifies this
      ensures Valid() && CarriedOut(old(State()), old(history), Op.Benchmark(metric))
      ensures r == if Terminal(old(status)) then ValueError
                   else Value(Report(baseline, metric, metric - baseline, metric > baseline))
    {
      LegalIsEarned(history);
      ghost var f, before := State(), history;
      if status == APPLIED || status == ROLLED_BACK || status == REJECTED {
        return ValueError;
      }
      observed := Some(metric);
      status := RUNNING;
      Record(Benchmarked(metric, baseline, metric - baseline, IsImproved()));
      Extended(before, f, Benchmarked(metric, baseline, metric - baseline, IsImproved()), Op.Benchmark(metric));
      r := Value(Report(baseline, metric, metric - baseline, IsImproved()));
    }

    method Approve(who: string) returns (ok: bool)
      requires Valid()
      modifies this
      ensures Valid() && CarriedOut(old(State()), old(history), Op.Approve(who))
      ensures ok == (Improved(old(State())) && !Terminal(old(status)))
    {
      LegalIsEarned(history);
      ghost var f, before := State(), history;
      var e: Event;
      ok := false;
      if !IsBenchmarked() {
        e := ApproveRejected(NotBenchmarked);
      } else if !IsImproved() {
        e := ApproveRejected(NotImproved(Improvement(State())));
      } else if Terminal(status) {
        e := ApproveRejected(TerminalState(status));
      } else {
        approver := Some(who);
        status := APPROVED;
        e := Approved(who, baseline, observed.value, observed.value - baseline);
        ok := true;
      }
      Record(e);
      Extended(before, f, e, Op.Approve(who));
    }

    method Deploy() returns (ok: bool)
      requires Valid()
      modifies this
      ensures Valid() && CarriedOut(old(State()), old(history), Op.Deploy)
      ensures ok == (old(status) == APPROVED)
    {
      LegalIsEarned(history);
      ghost var f, before := State(), history;
      var e: Event;
      ok := false;
      if status != APPROVED {
        e := DeployRejected(NotApproved(status));
      } else if !IsBenchmarked() {
        e := DeployRejected(NotBenchmarked);
      } else if !IsImproved() {
        e := DeployRejected(NotImproved(Improvement(State())));
      } else {
        status := APPLIED;
        e := Deployed(approver.value, baseline, observed.value, observed.value - baseline);
        ok := true;
      }
      Record(e);
      Extended(before, f, e, Op.Deploy);
    }

    method Monitor(metric: real) returns (r: Raised<Monitoring>)
      requires Valid()
      modifies this
      ensures Valid() && CarriedOut(old(State()), old(history), Op.Monitor(metric))
      ensures r == if old(status) != APPLIED then ValueError
                   else Value(Monitoring(baseline, old(observed).value, metric, metric - baseline))
    {
      LegalIsEarned(history);
      ghost var f, before := State(), history;
      if status != APPLIED {
        return ValueError;
      }
      var e := Monitored(metric, baseline, observed.value);
      Record(e);
      Extended(before, f, e, Op.Monitor(metric));
      r := Value(Monitoring(baseline, observed.value, metric, metric - baseline));
    }

    method Rollback() returns (ok: bool)
      requires Valid()
      modifies this
      ensures Valid() && CarriedOut(old(State()), old(history), Op.Rollback)
      ensures ok == (old(status) == APPLIED)
    {
      LegalIsEarned(history);
      ghost var f, before := State(), history;
      var e := RollbackRejected(status);
      ok := false;
      if status == APPLIED {
        status := ROLLED_BACK;
        e := RolledBack(baseline, observed.value);
        ok := true;
      }
      Record(e);
      Extended(before, f, e, Op.Rollback);
    }

    method Reject() returns (ok: bool)
      requires Valid()
      modifies this
      ensures Valid() && CarriedOut(old(State()), old(history), Op.Reject)
      ensures ok == !Terminal(old(status))
    {
      LegalIsEarned(history);
      ghost var f, before := State(), history;
      var e := RejectRejected(status);
      ok := false;
      if status in {PROPOSED, RUNNING, APPROVED} {
        status := REJECTED;
        e := Rejected(baseline, observed);
        ok := true;
      }
      Record(e);
      Extended(before, f, e, Op.Reject);
    }
  }

  lemma Extended(before: seq<Event>, f: Fields, e: Event, op: Op)
    requires Legal(before) && Replay(before) == f && Earned(f) && Recorded(f, op) == Some(e)
    ensures Legal(before + [e]) && Replay(before + [e]) == Apply(f, e)
  {
    AllowedIffRecorded(f, e);
    LegalAppend(before, e);
  }

  class EvolutionEngine {
    var experiments: map<ExperimentId, Experiment>

    ghost predicate Valid()
      reads this, experiments.Values
    {
      && (forall a, b :: a in experiments && b in experiments && experiments[a] == experiments[b] ==> a == b)
      && (forall a :: a in experiments ==> experiments[a].Valid())
    }

    constructor ()
      ensures Valid() && experiments == map[]
    {
      experiments := map[];
    }

    /** `id` is a fresh identifier. */
    method Propose(id: ExperimentId, description: string, baseline: real, change: string)
      returns (r: Raised<ExperimentId>)
      requires Valid() && id !in experiments
      modifies this
      ensures Valid()
      ensures r == if description == "" || change == "" then ValueError else Value(id)
      ensures r.ValueError? ==> experiments == old(experiments)
      ensures r.Value? ==> id in experiments && experiments == old(experiments)[id := experiments[id]]
                           && experiments[id].history == [Proposed(description, baseline, change)]
    {
      if description == "" || change == "" {
        return ValueError;
      }
      var exp := new Experiment(description, baseline, change);
      experiments := experiments[id := exp];
      return Value(id);
    }

    /** Look the experiment up and carry `op` out on it; no other experiment changes. */
    method Perform(id: ExperimentId, op: Op) returns (r: Raised<bool>)
      requires Valid()
      modifies if id in experiments then {experiments[id]} else {}
      ensures Valid()
      ensures r.KeyError? <==> id !in experiments
      ensures id in experiments ==>
                && experiments[id].CarriedOut(old(experiments[id].State()), old(experiments[id].history), op)
                && (r.ValueError? <==> Recorded(old(experiments[id].State()), op).None?)
    {
      if id !in experiments {
        return KeyError;
      }
      var exp := experiments[id];
      r := PerformOn(exp, op);
    }

    static method PerformOn(exp: Experiment, op: Op) returns (r: Raised<bool>)
      requires exp.Valid()
      modifies exp
      ensures exp.Valid() && exp.CarriedOut(old(exp.State()), old(exp.history), op)
      ensures r.KeyError? == false && (r.ValueError? <==> Recorded(old(exp.State()), op).None?)
    {
      match op
      case Benchmark(metric) =>
        var report := exp.Benchmark(metric);
        r := if report.Value? then Value(report.value.improved) else ValueError;
      case Approve(who) =>
        var ok := exp.Approve(who);
        r := Value(ok);
      case Deploy =>
        var ok := exp.Deploy();
        r := Value(ok);
      case Monitor(metric) =>
        var report := exp.Monitor(metric);
        r := if report.Value? then Value(true) else ValueError;
      case Rollback =>
        var ok := exp.Rollback();
        r := Value(ok);
      case Reject =>
        var ok := exp.Reject();
        r := Value(ok);
    }
  }
}
