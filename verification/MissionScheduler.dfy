/**
 First-fit assignment of missions to agents by capability (src/ai/enoch.py).  A matching maps
 positions in the mission list to positions in the agent list; the returned dictionary names them.
 */
module MissionScheduling {
  import opened Options
  import opened Numerals
  import Graphs = DependencyGraphs

  datatype Mission = Mission(id: string, requiredCapability: Option<string>)

  /** The three places where an agent can advertise capabilities. */
  datatype Agent = Agent(
    id: Option<string>,
    capability: Option<string>,
    capabilities: set<string>,
    metadataCapabilities: set<string>)

  function Capabilities(agent: Agent): set<string> {
    (if agent.capability.Some? && agent.capability.value != "" then {agent.capability.value} else {})
    + agent.capabilities + agent.metadataCapabilities
  }

  function AgentId(agent: Agent, index: nat): string {
    if agent.id.Some? && agent.id.value != "" then agent.id.value else "agent-" + Decimal(index)
  }

  predicate Capable(mission: Mission, agent: Agent) {
    && mission.requiredCapability.Some? && mission.requiredCapability.value != ""
    && mission.requiredCapability.value in Capabilities(agent)
  }

  /** An agent advertises a capability in any of three places. */
  lemma CapableIff(mission: Mission, agent: Agent)
    ensures Capable(mission, agent) <==>
            exists c {:trigger Some(c)} :: c != "" && mission.requiredCapability == Some(c)
                    && (agent.capability == Some(c) || c in agent.capabilities || c in agent.metadataCapabilities)
  {
    if Capable(mission, agent) {
      assert mission.requiredCapability == Some(mission.requiredCapability.value);
    }
  }

  predicate Nameless(agent: Agent) {
    agent.id == None || agent.id == Some("")
  }

  /** An agent goes by its own id; without one it is told apart from others by its position. */
  lemma AgentsAreNamed(a: Agent, i: nat, b: Agent, j: nat)
    ensures !Nameless(a) ==> Some(AgentId(a, i)) == a.id
    ensures Nameless(a) && Nameless(b) ==> (AgentId(a, i) == AgentId(b, j) <==> i == j)
  {
    if Nameless(a) && Nameless(b) && AgentId(a, i) == AgentId(b, j) {
      var prefix := "agent-";
      assert Decimal(i) == (prefix + Decimal(i))[|prefix|..];
      assert Decimal(j) == (prefix + Decimal(j))[|prefix|..];
      DecimalsAreDistinct(i, j);
    }
  }

  type Matching = map<nat, nat>

  /** Capable agents, each used at most once. */
  ghost predicate ValidMatching(missions: seq<Mission>, agents: seq<Agent>, m: Matching) {
    && (forall i :: i in m ==> i < |missions| && m[i] < |agents| && Capable(missions[i], agents[m[i]]))
    && (forall i, j :: i in m && j in m && i != j ==> m[i] != m[j])
  }

  /** No mission without an agent could still be given one. */
  ghost predicate Maximal(missions: seq<Mission>, agents: seq<Agent>, m: Matching) {
    forall i: nat, j: nat :: i < |missions| && j < |agents| && Capable(missions[i], agents[j]) ==> i in m || Uses(m, j)
  }

  ghost predicate Uses(m: Matching, j: nat) {
    exists i :: i in m && m[i] == j
  }

  /** Agent `j` is taken by a mission before `i`. */
  ghost predicate TakenBefore(m: Matching, i: nat, j: nat) {
    exists k :: k in m && k < i && m[k] == j
  }

  /** Mission `i` has the first capable agent not taken before it, or there is none. */
  ghost predicate FirstFitAt(missions: seq<Mission>, agents: seq<Agent>, m: Matching, i: nat)
    requires i < |missions|
  {
    if i in m then
      && m[i] < |agents| && Capable(missions[i], agents[m[i]]) && !TakenBefore(m, i, m[i])
      && forall j: nat :: j < m[i] && Capable(missions[i], agents[j]) ==> TakenBefore(m, i, j)
    else
      forall j: nat :: j < |agents| && Capable(missions[i], agents[j]) ==> TakenBefore(m, i, j)
  }

  ghost predicate FirstFit(missions: seq<Mission>, agents: seq<Agent>, m: Matching) {
    && (forall i :: i in m ==> i < |missions|)
    && FitBefore(missions, agents, m, |missions|)
  }

  ghost predicate DistinctMissionIds(missions: seq<Mission>) {
    forall i, j :: 0 <= i < j < |missions| ==> missions[i].id != missions[j].id
  }

  /** `found` is the first capable agent that is not used, or there is none. */
  ghost predicate FirstUnused(mission: Mission, agents: seq<Agent>, used: set<nat>, found: Option<nat>) {
    match found
    case Some(j) =>
      && j < |agents| && Capable(mission, agents[j]) && j !in used
      && forall k: nat :: k < j && Capable(mission, agents[k]) ==> k in used
    case None => forall k: nat :: k < |agents| && Capable(mission, agents[k]) ==> k in used
  }

  ghost predicate FitBefore(missions: seq<Mission>, agents: seq<Agent>, m: Matching, n: nat)
    requires n <= |missions|
  {
    forall k {:trigger FirstFitAt(missions, agents, m, k)} :: 0 <= k < n ==> FirstFitAt(missions, agents, m, k)
  }

  ghost predicate UsedAre(m: Matching, n: nat, used: set<nat>) {
    forall j: nat {:trigger TakenBefore(m, n, j)} :: j in used <==> TakenBefore(m, n, j)
  }

  /** The inner loop: the first capable agent that is not used. */
  method FindAgent(mission: Mission, agents: seq<Agent>, used: set<nat>) returns (found: Option<nat>)
    ensures FirstUnused(mission, agents, used, found)
  {
    if mission.requiredCapability.None? || mission.requiredCapability.value == "" {
      return None;
    }
    for i := 0 to |agents|
      invariant forall k: nat :: k < i && Capable(mission, agents[k]) ==> k in used
    {
      if i in used {
        continue;
      }
      if mission.requiredCapability.value in Capabilities(agents[i]) {
        return Some(i);
      }
    }
    found := None;
  }

  ghost predicate InRange(missions: seq<Mission>, agents: seq<Agent>, m: Matching, n: nat) {
    n <= |missions| && forall i :: i in m ==> i < n && m[i] < |agents|
  }

  /** Some matched mission has the id. */
  ghost predicate Matched(missions: seq<Mission>, m: Matching, id: string)
    requires forall i :: i in m ==> i < |missions|
  {
    exists i :: i in m && missions[i].id == id
  }

  /** No later matched mission has the same id. */
  ghost predicate LastOfItsId(missions: seq<Mission>, m: Matching, i: nat)
    requires i in m && forall k :: k in m ==> k < |missions|
  {
    forall k :: k in m && k > i ==> missions[k].id != missions[i].id
  }

  ghost predicate NamesAgent(missions: seq<Mission>, agents: seq<Agent>, assignments: map<string, string>,
                             m: Matching, i: nat)
    requires i in m && i < |missions| && m[i] < |agents|
  {
    missions[i].id in assignments && assignments[missions[i].id] == AgentId(agents[m[i]], m[i])
  }

  ghost predicate HasIds(missions: seq<Mission>, assignments: map<string, string>, m: Matching)
    requires forall k :: k in m ==> k < |missions|
  {
    forall id {:trigger Matched(missions, m, id)} :: id in assignments <==> Matched(missions, m, id)
  }

  ghost predicate NamesLast(missions: seq<Mission>, agents: seq<Agent>, assignments: map<string, string>, m: Matching)
    requires InRange(missions, agents, m, |missions|)
  {
    forall i {:trigger LastOfItsId(missions, m, i)} :: i in m && LastOfItsId(missions, m, i) ==>
      NamesAgent(missions, agents, assignments, m, i)
  }

  /** The dictionary has the ids of the matched missions; of two missions with one id it names the later one's agent. */
  ghost predicate Names(missions: seq<Mission>, agents: seq<Agent>, assignments: map<string, string>, m: Matching)
    requires InRange(missions, agents, m, |missions|)
  {
    && HasIds(missions, assignments, m)
    && NamesLast(missions, agents, assignments, m)
    && (DistinctMissionIds(missions) ==> |assignments| == |m|)
  }

  lemma MatchedStep(missions: seq<Mission>, m: Matching, i: nat, j: nat, id: string)
    requires i < |missions| && forall k :: k in m ==> k < i
    ensures Matched(missions, m[i := j], id) <==> Matched(missions, m, id) || id == missions[i].id
  {
    var m' := m[i := j];
    if Matched(missions, m, id) {
      var k :| k in m && missions[k].id == id;
      assert k in m';
    }
    assert i in m';
  }

  lemma HasIdsStep(missions: seq<Mission>, assignments: map<string, string>, m: Matching, i: nat, j: nat, name: string)
    requires i < |missions| && (forall k :: k in m ==> k < i) && HasIds(missions, assignments, m)
    ensures HasIds(missions, assignments[missions[i].id := name], m[i := j])
    ensures DistinctMissionIds(missions) ==> missions[i].id !in assignments
  {
    var m', assignments' := m[i := j], assignments[missions[i].id := name];
    forall id {:trigger Matched(missions, m', id)} ensures id in assignments' <==> Matched(missions, m', id) {
      MatchedStep(missions, m, i, j, id);
      assert id in assignments <==> Matched(missions, m, id);
    }
    assert missions[i].id in assignments <==> Matched(missions, m, missions[i].id);
  }

  lemma LastBefore(missions: seq<Mission>, m: Matching, i: nat, j: nat, k: nat)
    requires i < |missions| && (forall l :: l in m ==> l < i) && k in m
    requires LastOfItsId(missions, m[i := j], k)
    ensures LastOfItsId(missions, m, k) && missions[k].id != missions[i].id
  {
    assert i in m[i := j];
    forall l | l in m && l > k ensures missions[l].id != missions[k].id {
      assert l in m[i := j];
    }
  }

  lemma NamesLastStep(missions: seq<Mission>, agents: seq<Agent>, assignments: map<string, string>,
                      m: Matching, i: nat, j: nat)
    requires i < |missions| && j < |agents| && InRange(missions, agents, m, i)
    requires NamesLast(missions, agents, assignments, m)
    ensures NamesLast(missions, agents, assignments[missions[i].id := AgentId(agents[j], j)], m[i := j])
  {
    var m', assignments' := m[i := j], assignments[missions[i].id := AgentId(agents[j], j)];
    forall k | k in m' && LastOfItsId(missions, m', k) ensures NamesAgent(missions, agents, assignments', m', k) {
      if k != i {
        LastBefore(missions, m, i, j, k);
        assert NamesAgent(missions, agents, assignments, m, k);
      }
    }
  }

  lemma NamesStep(missions: seq<Mission>, agents: seq<Agent>, assignments: map<string, string>,
                  m: Matching, i: nat, j: nat)
    requires i < |missions| && j < |agents| && InRange(missions, agents, m, i)
    requires Names(missions, agents, assignments, m)
    ensures InRange(missions, agents, m[i := j], i + 1)
    ensures Names(missions, agents, assignments[missions[i].id := AgentId(agents[j], j)], m[i := j])
  {
    HasIdsStep(missions, assignments, m, i, j, AgentId(agents[j], j));
    NamesLastStep(missions, agents, assignments, m, i, j);
  }

  /** The dictionary is that of the first-fit matching. */
  ghost predicate Scheduled(missions: seq<Mission>, agents: seq<Agent>, assignments: map<string, string>, m: Matching) {
    && FirstFit(missions, agents, m) && InRange(missions, agents, m, |missions|)
    && Names(missions, agents, assignments, m)
  }

  /** What holds when the first `n` missions have been dealt with. */
  ghost predicate Progress(missions: seq<Mission>, agents: seq<Agent>, assignments: map<string, string>, used: set<nat>,
                           m: Matching, n: nat)
  {
    && InRange(missions, agents, m, n) && InRange(missions, agents, m, |missions|)
    && Names(missions, agents, assignments, m)
    && FitBefore(missions, agents, m, n) && UsedAre(m, n, used)
  }

  lemma ProgressStep(missions: seq<Mission>, agents: seq<Agent>, assignments: map<string, string>, used: set<nat>,
                     m: Matching, i: nat, found: Option<nat>)
    requires i < |missions| && Progress(missions, agents, assignments, used, m, i)
    requires FirstUnused(missions[i], agents, used, found)
    ensures found.Some? ==>
              Progress(missions, agents, assignments[missions[i].id := AgentId(agents[found.value], found.value)],
                       used + {found.value}, m[i := found.value], i + 1)
    ensures found.None? ==> Progress(missions, agents, assignments, used, m, i + 1)
  {
    FitStep(missions, agents, m, i, used, found);
    if found.Some? {
      NamesStep(missions, agents, assignments, m, i, found.value);
    } else {
      assert used + {} == used;
    }
  }

  method Schedule(missions: seq<Mission>, agents: seq<Agent>) returns (assignments: map<string, string>)
    ensures exists m: Matching :: Scheduled(missions, agents, assignments, m)
  {
    ghost var m: Matching := map[];
    assignments := map[];
    var used: set<nat> := {};
    for i := 0 to |missions|
      invariant Progress(missions, agents, assignments, used, m, i)
    {
      var found := FindAgent(missions[i], agents, used);
      ProgressStep(missions, agents, assignments, used, m, i, found);
      if found.Some? {
        assignments := assignments[missions[i].id := AgentId(agents[found.value], found.value)];
        used := used + {found.value};
        m := m[i := found.value];
      }
    }
    assert Scheduled(missions, agents, assignments, m);
  }

  /** With distinct mission ids the dictionary names every pair of the matching, and nothing else. */
  lemma DistinctIdsAreAllNamed(missions: seq<Mission>, agents: seq<Agent>, assignments: map<string, string>,
                               m: Matching, i: nat)
    requires Scheduled(missions, agents, assignments, m) && DistinctMissionIds(missions) && i in m
    ensures NamesAgent(missions, agents, assignments, m, i) && |assignments| == |m|
  {
    assert LastOfItsId(missions, m, i);
    assert m[i] < |agents|;
  }

  function Extended(m: Matching, i: nat, found: Option<nat>): Matching {
    if found.Some? then m[i := found.value] else m
  }

  lemma FitStep(missions: seq<Mission>, agents: seq<Agent>, m: Matching, i: nat, used: set<nat>, found: Option<nat>)
    requires i < |missions| && InRange(missions, agents, m, i)
    requires FitBefore(missions, agents, m, i) && UsedAre(m, i, used)
    requires FirstUnused(missions[i], agents, used, found)
    ensures FitBefore(missions, agents, Extended(m, i, found), i + 1)
    ensures UsedAre(Extended(m, i, found), i + 1, used + if found.Some? then {found.value} else {})
  {
    var m' := Extended(m, i, found);
    Extend(missions, agents, m, m', i, found);
    forall k | 0 <= k <= i ensures FirstFitAt(missions, agents, m', k) {
      if k < i {
        assert FirstFitAt(missions, agents, m, k);
      }
    }
    forall j: nat ensures j in used || found == Some(j) <==> TakenBefore(m', i + 1, j) {
      assert j in used <==> TakenBefore(m, i, j);
    }
  }

  /** Giving mission `i` its agent, or none, leaves the earlier missions as they were. */
  lemma Extend(missions: seq<Mission>, agents: seq<Agent>, before: Matching, m: Matching, i: nat, found: Option<nat>)
    requires i < |missions|
    requires forall k :: k in before ==> k < i
    requires m == if found.Some? then before[i := found.value] else before
    ensures forall k: nat, j: nat :: k <= i ==> (TakenBefore(m, k, j) <==> TakenBefore(before, k, j))
    ensures forall j: nat :: TakenBefore(m, i + 1, j) <==> TakenBefore(before, i, j) || found == Some(j)
  {
    forall j: nat ensures TakenBefore(m, i + 1, j) <==> TakenBefore(before, i, j) || found == Some(j) {
      if found == Some(j) {
        assert i in m && m[i] == j;
      }
      if TakenBefore(before, i, j) {
        var k :| k in before && k < i && before[k] == j;
        assert k in m && m[k] == j;
      }
    }
    forall k: nat, j: nat | k <= i ensures TakenBefore(m, k, j) <==> TakenBefore(before, k, j) {
      if TakenBefore(before, k, j) {
        var l :| l in before && l < k && before[l] == j;
        assert l in m && m[l] == j;
      }
    }
  }

  // ---------------------------------------------------------------- what first fit achieves

  /** First fit is a valid matching that cannot be extended. */
  lemma FirstFitIsMaximal(missions: seq<Mission>, agents: seq<Agent>, m: Matching)
    requires FirstFit(missions, agents, m)
    ensures ValidMatching(missions, agents, m) && Maximal(missions, agents, m)
  {
    forall i | i in m ensures m[i] < |agents| && Capable(missions[i], agents[m[i]]) {
      assert FirstFitAt(missions, agents, m, i);
    }
    forall i, j | i in m && j in m && i != j ensures m[i] != m[j] {
      assert FirstFitAt(missions, agents, m, i) && FirstFitAt(missions, agents, m, j);
    }
    forall i: nat, j: nat | i < |missions| && j < |agents| && Capable(missions[i], agents[j])
      ensures i in m || Uses(m, j)
    {
      assert FirstFitAt(missions, agents, m, i);
    }
  }

  /** And the rule determines it: there is only one first-fit matching. */
  lemma FirstFitIsUnique(missions: seq<Mission>, agents: seq<Agent>, m: Matching, m': Matching)
    requires FirstFit(missions, agents, m) && FirstFit(missions, agents, m')
    ensures m == m'
  {
    SameUpTo(missions, agents, m, m', |missions|);
  }

  lemma {:induction false} SameUpTo(missions: seq<Mission>, agents: seq<Agent>, m: Matching, m': Matching, n: nat)
    requires FirstFit(missions, agents, m) && FirstFit(missions, agents, m') && n <= |missions|
    ensures forall i :: 0 <= i < n ==> (i in m <==> i in m') && (i in m ==> m[i] == m'[i])
  {
    if n > 0 {
      var i := n - 1;
      SameUpTo(missions, agents, m, m', i);
      forall j: nat ensures TakenBefore(m, i, j) <==> TakenBefore(m', i, j) {
        if k :| k in m && k < i && m[k] == j {
          assert k in m' && m'[k] == j;
        }
        if k :| k in m' && k < i && m'[k] == j {
          assert k in m && m[k] == j;
        }
      }
      assert FirstFitAt(missions, agents, m, i) && FirstFitAt(missions, agents, m', i);
    }
  }

  // ---------------------------------------------------------------- the factor two

  lemma {:induction false} InjectionBound(m: Matching, keys: set<nat>, values: set<nat>)
    requires forall i :: i in keys ==> i in m && m[i] in values
    requires forall i, j :: i in keys && j in keys && i != j ==> m[i] != m[j]
    ensures |keys| <= |values|
    decreases |keys|
  {
    if keys != {} {
      var i :| i in keys;
      InjectionBound(m, keys - {i}, values - {m[i]});
    }
  }

  /** No valid assignment serves more than twice as many missions as first fit. */
  lemma AtMostTwiceAsMany(missions: seq<Mission>, agents: seq<Agent>, greedy: Matching, other: Matching)
    requires FirstFit(missions, agents, greedy) && ValidMatching(missions, agents, other)
    ensures |other| <= 2 * |greedy|
  {
    FirstFitIsMaximal(missions, agents, greedy);
    MissedBound(missions, agents, greedy, other, other.Keys - greedy.Keys);
    ServedAndMissed(other.Keys, greedy.Keys);
  }

  lemma ServedAndMissed(a: set<nat>, b: set<nat>)
    ensures |a| <= |b| + |a - b|
  {
    Graphs.SubsetCardinality(a * b, b);
    assert a == a * b + (a - b);
  }

  /** The missions that first fit misses are served by agents that it uses. */
  lemma MissedBound(missions: seq<Mission>, agents: seq<Agent>, greedy: Matching, other: Matching, missed: set<nat>)
    requires ValidMatching(missions, agents, other) && Maximal(missions, agents, greedy)
    requires missed == other.Keys - greedy.Keys
    ensures |missed| <= |greedy|
  {
    var usedAgents := set i | i in greedy.Keys :: greedy[i];
    forall i | i in missed ensures other[i] in usedAgents {
      assert Capable(missions[i], agents[other[i]]);
      assert Uses(greedy, other[i]);
    }
    InjectionBound(other, missed, usedAgents);
    ImageBound(greedy, greedy.Keys);
    assert |greedy.Keys| == |greedy|;
  }

  lemma {:induction false} ImageBound(m: Matching, keys: set<nat>)
    requires keys <= m.Keys
    ensures |set i | i in keys :: m[i]| <= |keys|
    decreases |keys|
  {
    if keys == {} {
      assert (set i | i in keys :: m[i]) == {};
    } else {
      var i :| i in keys;
      var rest := keys - {i};
      ImageBound(m, rest);
      assert (set k | k in keys :: m[k]) == (set k | k in rest :: m[k]) + {m[i]};
    }
  }

  /** The factor cannot be improved: here first fit serves one mission of two. */
  lemma FactorTwoIsTight(a: string, b: string)
    requires a != "" && b != "" && a != b
    ensures var missions := [Mission("1", Some(a)), Mission("2", Some(b))];
            var agents := [Agent(None, None, {a, b}, {}), Agent(None, None, {a}, {})];
            && FirstFit(missions, agents, map[0 := 0])
            && ValidMatching(missions, agents, map[0 := 1, 1 := 0])
  {
    var missions := [Mission("1", Some(a)), Mission("2", Some(b))];
    var agents := [Agent(None, None, {a, b}, {}), Agent(None, None, {a}, {})];
    var m: Matching := map[0 := 0];
    assert 0 in m && m[0] == 0;
    assert TakenBefore(m, 1, 0);
    assert !Capable(missions[1], agents[1]);
    assert FirstFitAt(missions, agents, m, 0) && FirstFitAt(missions, agents, m, 1);
  }
}
