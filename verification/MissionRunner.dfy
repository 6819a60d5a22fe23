/** Long-running missions kept in files, and the observe-execute-verify cycle (src/ai/enoch.py 48-169 and 232-368). */
module MissionRuns {
  import opened Options

  type Json(==, !new)

  datatype Status = CREATED | RUNNING | CHECKPOINTED | NEEDS_REPLAN | COMPLETED | FAILED

  datatype Checkpoint =
    | Running(attempt: int, observation: Json)
    | Completed(attempt: int, observation: Json, result: Json)
    | Replan(attempt: int, observation: Json, lastResult: Json)

  datatype Mission = Mission(id: string, description: string, status: Status, checkpoint: Option<Checkpoint>,
                             attempts: int, capability: Option<string>)

  // ---------------------------------------------------------------- payloads

  /** The dictionary written to a file; `None` is a key that is not there. */
  datatype Payload = Payload(id: Option<string>, description: Option<string>, status: Option<string>,
                             checkpoint: Option<Option<Checkpoint>>, attempts: Option<int>,
                             capability: Option<Option<string>>)

  datatype Parsed = Parsed(mission: Mission) | KeyError | ValueError

  function StatusText(s: Status): string {
    match s
    case CREATED => "created"
    case RUNNING => "running"
    case CHECKPOINTED => "checkpointed"
    case NEEDS_REPLAN => "needs_replan"
    case COMPLETED => "completed"
    case FAILED => "failed"
  }

  function ParseStatus(text: string): Option<Status> {
    if text == "created" then Some(CREATED)
    else if text == "running" then Some(RUNNING)
    else if text == "checkpointed" then Some(CHECKPOINTED)
    else if text == "needs_replan" then Some(NEEDS_REPLAN)
    else if text == "completed" then Some(COMPLETED)
    else if text == "failed" then Some(FAILED)
    else None
  }

  function ToPayload(m: Mission): Payload {
    Payload(Some(m.id), Some(m.description), Some(StatusText(m.status)), Some(m.checkpoint), Some(m.attempts),
            Some(m.capability))
  }

  function FromPayload(p: Payload): Parsed {
    if p.id.None? || p.description.None? || p.status.None? then KeyError
    else match ParseStatus(p.status.value)
      case None => ValueError
      case Some(status) =>
        Parsed(Mission(p.id.value, p.description.value, status,
                       if p.checkpoint.Some? then p.checkpoint.value else None,
                       if p.attempts.Some? then p.attempts.value else 0,
                       if p.capability.Some? then p.capability.value else None))
  }

  /** A mission survives being written and read, and a payload that reads as a mission holds what was written. */
  lemma PayloadRoundTrip(m: Mission, p: Payload)
    ensures FromPayload(ToPayload(m)) == Parsed(m)
    ensures FromPayload(p) == Parsed(m) && p.checkpoint.Some? && p.attempts.Some? && p.capability.Some? ==>
              p == ToPayload(m)
  {
    match m.status
    case CREATED =>
    case RUNNING =>
    case CHECKPOINTED =>
    case NEEDS_REPLAN =>
    case COMPLETED =>
    case FAILED =>
  }

  /** A payload is refused exactly for a missing id, description or status, and then for a status that is none. */
  lemma RefusedPayloads(p: Payload)
    ensures FromPayload(p) == KeyError <==> p.id == None || p.description == None || p.status == None
    ensures FromPayload(p) == ValueError <==>
            p.id.Some? && p.description.Some? && p.status.Some?
            && p.status.value !in {"created", "running", "checkpointed", "needs_replan", "completed", "failed"}
    ensures FromPayload(p).Parsed? ==>
              var status := FromPayload(p).mission.status;
              && (status == CREATED <==> p.status == Some("created"))
              && (status == RUNNING <==> p.status == Some("running"))
              && (status == CHECKPOINTED <==> p.status == Some("checkpointed"))
              && (status == NEEDS_REPLAN <==> p.status == Some("needs_replan"))
              && (status == COMPLETED <==> p.status == Some("completed"))
              && (status == FAILED <==> p.status == Some("failed"))
  {
  }

  // ---------------------------------------------------------------- the store

  /** The file name, without its ending. */
  function SafeId(id: string): (s: string)
    ensures |s| == |id|
  {
    seq(|id|, k requires 0 <= k < |id| => if id[k] == '/' || id[k] == '\\' then '_' else id[k])
  }

  type Files = map<string, Mission>

  function Saved(files: Files, m: Mission): Files {
    files[SafeId(m.id) := m]
  }

  function Loaded(files: Files, id: string): Option<Mission> {
    if SafeId(id) in files then Some(files[SafeId(id)]) else None
  }

  predicate NoSeparator(id: string) {
    forall k :: 0 <= k < |id| ==> id[k] != '/' && id[k] != '\\'
  }

  /** Identifiers without separators name their own files. */
  lemma SafeIdKeepsPlainIds(id: string)
    ensures SafeId(id) == id <==> NoSeparator(id)
    ensures NoSeparator(SafeId(id))
  {
    if SafeId(id) == id {
      forall k | 0 <= k < |id| ensures id[k] != '/' && id[k] != '\\' {
        assert SafeId(id)[k] == id[k];
      }
    }
  }

  /** A saved mission is still there after another one is saved, exactly if their file names differ. */
  lemma SavedSurvivesIff(files: Files, a: Mission, b: Mission)
    requires a != b
    ensures Loaded(Saved(Saved(files, a), b), a.id) == Some(a) <==> SafeId(a.id) != SafeId(b.id)
    ensures NoSeparator(a.id) && NoSeparator(b.id) && a.id != b.id ==> SafeId(a.id) != SafeId(b.id)
  {
    SafeIdKeepsPlainIds(a.id);
    SafeIdKeepsPlainIds(b.id);
  }

  /** Two identifiers that share a file. */
  lemma SharedFile()
    ensures "a/b" != "a_b" && SafeId("a/b") == SafeId("a_b")
  {
    assert SafeId("a/b") == "a_b";
    SafeIdKeepsPlainIds("a_b");
  }

  class MissionStore {
    var files: Files

    constructor ()
      ensures files == map[]
    {
      files := map[];
    }

    method Save(m: Mission)
      modifies this
      ensures files == Saved(old(files), m)
    {
      files := files[SafeId(m.id) := m];
    }

    method Load(id: string) returns (m: Option<Mission>)
      ensures m == Loaded(files, id)
    {
      m := if SafeId(id) in files then Some(files[SafeId(id)]) else None;
    }
  }

  // ---------------------------------------------------------------- one cycle

  /** How executing and verifying end: a result that passes, one that does not, or an exception. */
  datatype Verdict = Passes(result: Json) | Rejects(result: Json) | Raises

  datatype Outcome =
    | NotFound
    | Raised
    | Summary(status: Status, attempts: int, passed: bool, needsReplan: bool, completed: bool)

  function Started(m: Mission, observation: Json): Mission {
    m.(status := RUNNING, checkpoint := Some(Running(m.attempts + 1, observation)))
  }

  function Ended(m: Mission, observation: Json, v: Verdict, maxAttempts: int): Mission {
    match v
    case Passes(result) => m.(status := COMPLETED, checkpoint := Some(Completed(m.attempts, observation, result)))
    case Rejects(result) =>
      m.(status := if m.attempts + 1 >= maxAttempts then FAILED else NEEDS_REPLAN,
         attempts := m.attempts + 1,
         checkpoint := Some(Replan(m.attempts + 1, observation, result)))
    case Raises => Started(m, observation)
  }

  function Cycle(files: Files, id: string, observation: Json, v: Verdict, maxAttempts: int): Files {
    match Loaded(files, id)
    case None => files
    case Some(m) => Saved(files, Ended(m, observation, v, maxAttempts))
  }

  class MissionRunner {
    const store: MissionStore
    const maxAttempts: int

    constructor (store: MissionStore, maxAttempts: int)
      ensures this.store == store && this.maxAttempts == maxAttempts
    {
      this.store, this.maxAttempts := store, maxAttempts;
    }

    method Run(id: string, observation: Json, v: Verdict) returns (r: Outcome)
      modifies store
      ensures store.files == Cycle(old(store.files), id, observation, v, maxAttempts)
      ensures match Loaded(old(store.files), id)
              case None => r == NotFound
              case Some(m) =>
                var after := Ended(m, observation, v, maxAttempts);
                r == if v.Raises? then Raised
                     else Summary(after.status, after.attempts, v.Passes?, v.Rejects?, v.Passes?)
    {
      var found := store.Load(id);
      if found.None? {
        return NotFound;
      }
      var mission := found.value;
      mission := mission.(status := RUNNING, checkpoint := Some(Running(mission.attempts + 1, observation)));
      store.Save(mission);
      if v.Raises? {
        return Raised;
      }
      if v.Passes? {
        mission := mission.(status := COMPLETED,
                            checkpoint := Some(Completed(mission.attempts, observation, v.result)));
        store.Save(mission);
        return Summary(mission.status, mission.attempts, true, false, mission.status == COMPLETED);
      }
      mission := mission.(attempts := mission.attempts + 1);
      mission := mission.(status := if mission.attempts >= maxAttempts then FAILED else NEEDS_REPLAN);
      mission := mission.(checkpoint := Some(Replan(mission.attempts, observation, v.result)));
      store.Save(mission);
      r := Summary(mission.status, mission.attempts, false, true, mission.status == COMPLETED);
    }
  }

  // ---------------------------------------------------------------- runs

  datatype Call = Call(id: string, observation: Json, verdict: Verdict)

  function Calls(files: Files, calls: seq<Call>, maxAttempts: int): Files {
    if calls == [] then files
    else
      var last := calls[|calls| - 1];
      Cycle(Calls(files, calls[..|calls| - 1], maxAttempts), last.id, last.observation, last.verdict, maxAttempts)
  }

  /** Each mission is in the file that its identifier names. */
  ghost predicate Filed(files: Files) {
    forall f :: f in files ==> SafeId(files[f].id) == f
  }

  /** The calls that reach a file, by whatever identifier. */
  function Reaching(calls: seq<Call>, file: string): seq<Call> {
    if calls == [] then []
    else
      var last, front := calls[|calls| - 1], Reaching(calls[..|calls| - 1], file);
      if SafeId(last.id) == file then front + [last] else front
  }

  function Rejections(calls: seq<Call>): nat {
    if calls == [] then 0
    else Rejections(calls[..|calls| - 1]) + if calls[|calls| - 1].verdict.Rejects? then 1 else 0
  }

  /** The status that the last call leaves behind. */
  function StatusAfter(before: Status, calls: seq<Call>, attempts: int, maxAttempts: int): Status {
    if calls == [] then before
    else match calls[|calls| - 1].verdict
      case Passes(_) => COMPLETED
      case Rejects(_) => if attempts >= maxAttempts then FAILED else NEEDS_REPLAN
      case Raises => RUNNING
  }

  /** The checkpoint that the last call leaves behind: which attempt it was, what was observed, and how it ended. */
  function CheckpointAfter(before: Option<Checkpoint>, calls: seq<Call>, attempts: int): Option<Checkpoint> {
    if calls == [] then before
    else
      var last := calls[|calls| - 1];
      match last.verdict
      case Passes(result) => Some(Completed(attempts, last.observation, result))
      case Rejects(result) => Some(Replan(attempts, last.observation, result))
      case Raises => Some(Running(attempts + 1, last.observation))
  }

  /** `n` is what the calls make of `m`: same identity, attempts counted, status and checkpoint of the last call. */
  ghost predicate Told(m: Mission, n: Mission, mine: seq<Call>, maxAttempts: int) {
    && n.id == m.id && n.description == m.description && n.capability == m.capability
    && n.attempts == m.attempts + Rejections(mine)
    && n.status == StatusAfter(m.status, mine, n.attempts, maxAttempts)
    && n.checkpoint == CheckpointAfter(m.checkpoint, mine, n.attempts)
  }

  lemma ToldStep(m: Mission, n: Mission, mine: seq<Call>, call: Call, maxAttempts: int)
    requires Told(m, n, mine, maxAttempts)
    ensures Told(m, Ended(n, call.observation, call.verdict, maxAttempts), mine + [call], maxAttempts)
  {
    assert (mine + [call])[..|mine|] == mine;
  }

  lemma CycleKeepsFiled(files: Files, call: Call, maxAttempts: int)
    requires Filed(files)
    ensures var after := Cycle(files, call.id, call.observation, call.verdict, maxAttempts);
            && Filed(after) && after.Keys == files.Keys
            && forall f :: f in files ==>
                 after[f] == if f != SafeId(call.id) then files[f]
                             else Ended(files[f], call.observation, call.verdict, maxAttempts)
  {
  }

  /**
   After any run of calls on any missions: a mission keeps its identity, its attempts are the rejections of the
   calls that reached its file, and its status and checkpoint are told by the last of these alone.
   */
  lemma {:induction false} FateOfMission(files: Files, calls: seq<Call>, maxAttempts: int, f: string)
    requires Filed(files)
    ensures Filed(Calls(files, calls, maxAttempts)) && Calls(files, calls, maxAttempts).Keys == files.Keys
    ensures f in files ==> Told(files[f], Calls(files, calls, maxAttempts)[f], Reaching(calls, f), maxAttempts)
  {
    if calls != [] {
      var front, last := calls[..|calls| - 1], calls[|calls| - 1];
      FateOfMission(files, front, maxAttempts, f);
      CycleKeepsFiled(Calls(files, front, maxAttempts), last, maxAttempts);
      if f in files && f == SafeId(last.id) {
        ToldStep(files[f], Calls(files, front, maxAttempts)[f], Reaching(front, f), last, maxAttempts);
      }
    }
  }

  /** So a mission is failed exactly if its last call was rejected with the attempts used up. */
  lemma FailedIff(files: Files, calls: seq<Call>, maxAttempts: int, f: string)
    requires Filed(files) && f in files && Reaching(calls, f) != []
    ensures f in Calls(files, calls, maxAttempts)
    ensures var mine := Reaching(calls, f);
            Calls(files, calls, maxAttempts)[f].status == FAILED <==>
            mine[|mine| - 1].verdict.Rejects? && files[f].attempts + Rejections(mine) >= maxAttempts
  {
    FateOfMission(files, calls, maxAttempts, f);
  }

  /**
   Nothing stops a call on a completed or failed mission: one that passes completes it, one that raises leaves it
   running, and one that is rejected counts; then a failed mission stays failed, and a completed one is reopened
   unless that uses its attempts up.
   */
  lemma NoStatusIsFinal(files: Files, calls: seq<Call>, call: Call, maxAttempts: int, f: string)
    requires Filed(files) && f in files && Reaching(calls, f) != [] && SafeId(call.id) == f
    requires f in Calls(files, calls, maxAttempts) && Calls(files, calls, maxAttempts)[f].status in {COMPLETED, FAILED}
    ensures f in Calls(files, calls + [call], maxAttempts)
    ensures var m, n := Calls(files, calls, maxAttempts)[f], Calls(files, calls + [call], maxAttempts)[f];
            && n.attempts == (if call.verdict.Rejects? then m.attempts + 1 else m.attempts)
            && n.status == match call.verdict
                           case Passes(_) => COMPLETED
                           case Raises => RUNNING
                           case Rejects(_) =>
                             if m.status == FAILED || m.attempts + 1 >= maxAttempts then FAILED else NEEDS_REPLAN
  {
    assert (calls + [call])[..|calls|] == calls;
    FateOfMission(files, calls, maxAttempts, f);
    FailedIff(files, calls, maxAttempts, f);
    CycleKeepsFiled(Calls(files, calls, maxAttempts), call, maxAttempts);
  }
}
