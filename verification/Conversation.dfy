/**
 Conversation history (src/ai/liuhao.py, src/ai/conversation_store.py): assistants that keep their
 history in memory, all of them writing through to one shared table of turns.
 */
module Conversations {
  type Principal(==, !new)
  type Text(==, !new)

  datatype Role = System | User | Assistant
  datatype Message = Message(role: Role, content: Text)
  datatype Row = Row(principal: Principal, turn: nat, message: Message)
  /** The in-memory part of an assistant. */
  datatype Live = Live(history: seq<Message>, turn: nat)

  const MAX_HISTORY_MESSAGES: nat := 20

  // ---------------------------------------------------------------- the table

  /** The principal's rows, in insertion order. */
  function Of(rows: seq<Row>, p: Principal): seq<Row> {
    if rows == [] then []
    else
      var last := rows[|rows| - 1];
      Of(rows[..|rows| - 1], p) + if last.principal == p then [last] else []
  }

  function Others(rows: seq<Row>, p: Principal): seq<Row> {
    if rows == [] then []
    else
      var last := rows[|rows| - 1];
      Others(rows[..|rows| - 1], p) + if last.principal == p then [] else [last]
  }

  function Messages(rows: seq<Row>): (r: seq<Message>)
    ensures |r| == |rows| && forall i :: 0 <= i < |rows| ==> r[i] == rows[i].message
  {
    seq(|rows|, i requires 0 <= i < |rows| => rows[i].message)
  }

  function Last<T>(s: seq<T>, n: nat): (r: seq<T>)
    ensures |r| == if |s| <= n then |s| else n
  {
    if |s| <= n then s else s[|s| - n..]
  }

  function Reverse<T>(s: seq<T>): (r: seq<T>)
    ensures |r| == |s| && forall i :: 0 <= i < |s| ==> r[i] == s[|s| - 1 - i]
  {
    seq(|s|, i requires 0 <= i < |s| => s[|s| - 1 - i])
  }

  function Take<T>(s: seq<T>, n: nat): seq<T> {
    if |s| <= n then s else s[..n]
  }

  /** MAX(turn), or 0 for no rows. */
  function MaxTurn(rows: seq<Row>): nat {
    if rows == [] then 0
    else
      var m := MaxTurn(rows[..|rows| - 1]);
      if rows[|rows| - 1].turn > m then rows[|rows| - 1].turn else m
  }

  lemma {:induction false} MaxTurnIsGreatest(rows: seq<Row>)
    ensures forall row :: row in rows ==> row.turn <= MaxTurn(rows)
    ensures if rows == [] then MaxTurn(rows) == 0 else exists row :: row in rows && row.turn == MaxTurn(rows)
  {
    if rows != [] {
      var front := rows[..|rows| - 1];
      MaxTurnIsGreatest(front);
      assert forall row :: row in rows ==> row in front || row == rows[|rows| - 1];
      assert rows[|rows| - 1] in rows;
      if front != [] {
        var row :| row in front && row.turn == MaxTurn(front);
        assert row in rows;
      }
    }
  }

  /** The newest `n`, read backwards and turned round again, are the last `n` in order. */
  lemma NewestInOrder<T>(s: seq<T>, n: nat)
    ensures Reverse(Take(Reverse(s), n)) == Last(s, n)
  {
  }

  class ConversationStore {
    var rows: seq<Row>

    constructor ()
      ensures rows == []
    {
      rows := [];
    }

    method Append(p: Principal, turn: nat, message: Message)
      modifies this
      ensures rows == old(rows) + [Row(p, turn, message)]
    {
      rows := rows + [Row(p, turn, message)];
    }

    method LoadRecent(p: Principal, limit: nat) returns (messages: seq<Message>)
      ensures messages == Last(Messages(Of(rows, p)), limit)
    {
      var newest := Take(Reverse(Messages(Of(rows, p))), limit);
      messages := Reverse(newest);
      NewestInOrder(Messages(Of(rows, p)), limit);
    }

    method GetLastTurn(p: Principal) returns (turn: nat)
      ensures turn == MaxTurn(Of(rows, p))
    {
      turn := MaxTurn(Of(rows, p));
    }

    method Clear(p: Principal)
      modifies this
      ensures rows == Others(old(rows), p)
    {
      rows := Others(rows, p);
    }
  }

  // ---------------------------------------------------------------- one principal

  /** What a new process starts from. */
  function Load(stored: seq<Row>): Live {
    Live(Last(Messages(stored), MAX_HISTORY_MESSAGES), MaxTurn(stored))
  }

  function TurnRows(p: Principal, turn: nat, message: Text, reply: Text): seq<Row> {
    [Row(p, turn, Message(User, message)), Row(p, turn, Message(Assistant, reply))]
  }

  function Prompt(live: Live, system: Text, message: Text): seq<Message> {
    [Message(System, system)] + Last(live.history, MAX_HISTORY_MESSAGES) + [Message(User, message)]
  }

  class LiuHaoAssistant {
    const principal: Principal
    const store: ConversationStore
    var history: seq<Message>
    var turn: nat

    function Memory(): Live
      reads this
    {
      Live(history, turn)
    }

    /** The table and this assistant, as a state of the runs below. */
    function Here(): World
      reads this, store
    {
      World(store.rows, map[principal := Memory()])
    }

    constructor (principal: Principal, store: ConversationStore)
      ensures this.principal == principal && this.store == store
      ensures Memory() == Load(Of(store.rows, principal))
      ensures forall live :: Step(World(store.rows, map[principal := live]), Restart(principal)) == Here()
    {
      this.principal, this.store := principal, store;
      new;
      history := store.LoadRecent(principal, MAX_HISTORY_MESSAGES);
      turn := store.GetLastTurn(principal);
    }

    /**
     One turn.  `reply` is what the model answers, or the text of its failure; a refused turn, and a stream
     abandoned before its end, only count.  `inserts` is the number of inserts before one raises, if one does.
     */
    method Chat(message: Text, system: Text, allowed: bool, reply: Text, inserts: nat)
        returns (prompt: seq<Message>, raised: bool)
      modifies this, store
      ensures turn == old(turn) + 1 && raised == (allowed && inserts < 2)
      ensures prompt == if allowed then Prompt(old(Memory()), system, message) else []
      ensures history == if allowed then old(history) + Messages(TurnRows(principal, turn, message, reply))
                         else old(history)
      ensures store.rows == if allowed then old(store.rows) + Take(TurnRows(principal, turn, message, reply), inserts)
                            else old(store.rows)
      ensures var begun := Step(old(Here()), Begin(principal));
              !raised ==> Here() == if allowed then Step(begun, Commit(principal, message, reply)) else begun
    {
      turn := turn + 1;
      prompt, raised := [], false;
      if !allowed {
        return;
      }
      prompt := Prompt(Memory(), system, message);
      raised := CommitTurn(message, reply, inserts);
    }

    method CommitTurn(message: Text, reply: Text, inserts: nat) returns (raised: bool)
      modifies this`history, store
      ensures history == old(history) + Messages(TurnRows(principal, turn, message, reply))
      ensures store.rows == old(store.rows) + Take(TurnRows(principal, turn, message, reply), inserts)
      ensures raised == (inserts < 2) && Here() == Interrupted(old(Here()), principal, message, reply, inserts)
    {
      history := history + [Message(User, message)];
      history := history + [Message(Assistant, reply)];
      if inserts == 0 {
        return true;
      }
      store.Append(principal, turn, Message(User, message));
      if inserts == 1 {
        return true;
      }
      store.Append(principal, turn, Message(Assistant, reply));
      raised := false;
    }

    method Reset()
      modifies this, store
      ensures Memory() == Live([], 0)
      ensures Here() == Step(old(Here()), Event.Reset(principal))
    {
      history := [];
      turn := 0;
      store.Clear(principal);
    }
  }

  // ---------------------------------------------------------------- runs

  /**
   The steps of a run.  `Begin` counts a turn, `Commit` finishes the turn begun (two streams may be
   open at once), `Restart` replaces the assistant by a new one, and `Died` is a process that stops
   during a commit, after `stored` of its two inserts, and is then restarted.
   */
  datatype Event =
    | Begin(p: Principal)
    | Commit(p: Principal, message: Text, reply: Text)
    | Reset(p: Principal)
    | Restart(p: Principal)
    | Died(p: Principal, message: Text, reply: Text, stored: nat)

  /** The shared table, and the live assistants; one not yet built will load when it is. */
  datatype World = World(rows: seq<Row>, live: map<Principal, Live>)

  function LiveOf(w: World, p: Principal): Live {
    if p in w.live then w.live[p] else Load(Of(w.rows, p))
  }

  function Step(w: World, e: Event): World {
    var l := LiveOf(w, e.p);
    match e
    case Begin(p) => World(w.rows, w.live[p := l.(turn := l.turn + 1)])
    case Commit(p, message, reply) =>
      var extra := TurnRows(p, l.turn, message, reply);
      World(w.rows + extra, w.live[p := Live(l.history + Messages(extra), l.turn)])
    case Reset(p) => World(Others(w.rows, p), w.live[p := Live([], 0)])
    case Restart(p) => World(w.rows, w.live[p := Load(Of(w.rows, p))])
    case Died(p, message, reply, stored) =>
      var rows := w.rows + Take(TurnRows(p, l.turn, message, reply), stored);
      World(rows, w.live[p := Load(Of(rows, p))])
  }

  function Run(events: seq<Event>): World {
    if events == [] then World([], map[])
    else Step(Run(events[..|events| - 1]), events[|events| - 1])
  }

  /** One principal's own share of the world: its rows and its assistant. */
  datatype View = View(stored: seq<Row>, live: Live)

  function ViewOf(w: World, p: Principal): View {
    View(Of(w.rows, p), LiveOf(w, p))
  }

  /** The same steps for a principal alone, with a table of its own. */
  function Alone(v: View, e: Event): View {
    match e
    case Begin(p) => v.(live := v.live.(turn := v.live.turn + 1))
    case Commit(p, message, reply) =>
      var extra := TurnRows(p, v.live.turn, message, reply);
      View(v.stored + extra, Live(v.live.history + Messages(extra), v.live.turn))
    case Reset(p) => View([], Live([], 0))
    case Restart(p) => v.(live := Load(v.stored))
    case Died(p, message, reply, stored) =>
      var rows := v.stored + Take(TurnRows(p, v.live.turn, message, reply), stored);
      View(rows, Load(rows))
  }

  function RunAlone(events: seq<Event>): View {
    if events == [] then View([], Live([], 0))
    else Alone(RunAlone(events[..|events| - 1]), events[|events| - 1])
  }

  function EventsOf(events: seq<Event>, p: Principal): seq<Event> {
    if events == [] then []
    else
      var e := events[|events| - 1];
      EventsOf(events[..|events| - 1], p) + if e.p == p then [e] else []
  }

  // ---------------------------------------------------------------- isolation

  lemma {:induction false} OfAppend(rows: seq<Row>, extra: seq<Row>, p: Principal)
    ensures Of(rows + extra, p) == Of(rows, p) + Of(extra, p)
  {
    if extra == [] {
      assert rows + extra == rows;
    } else {
      var all := rows + extra;
      OfAppend(rows, extra[..|extra| - 1], p);
      assert all[..|all| - 1] == rows + extra[..|extra| - 1];
    }
  }

  lemma {:induction false} OfSame(rows: seq<Row>, p: Principal, q: Principal)
    requires forall row :: row in rows ==> row.principal == q
    ensures Of(rows, p) == if p == q then rows else []
  {
    if rows != [] {
      assert rows[|rows| - 1] in rows;
      OfSame(rows[..|rows| - 1], p, q);
      assert rows == rows[..|rows| - 1] + [rows[|rows| - 1]];
    }
  }

  lemma {:induction false} OfOthers(rows: seq<Row>, p: Principal, q: Principal)
    ensures Of(Others(rows, q), p) == if p == q then [] else Of(rows, p)
  {
    if rows != [] {
      var last := rows[|rows| - 1];
      OfOthers(rows[..|rows| - 1], p, q);
      var front := Others(rows[..|rows| - 1], q);
      assert last.principal != q ==> (front + [last])[..|front|] == front;
      assert last.principal == q ==> front + [] == front;
    }
  }

  lemma AppendSeenBy(rows: seq<Row>, extra: seq<Row>, p: Principal, q: Principal)
    requires forall row :: row in extra ==> row.principal == q
    ensures Of(rows + extra, p) == if q == p then Of(rows, p) + extra else Of(rows, p)
  {
    OfAppend(rows, extra, p);
    OfSame(extra, p, q);
    assert Of(rows, p) + [] == Of(rows, p);
  }

  /** A step on the shared table is, for its own principal, a step alone; for any other it is nothing. */
  lemma StepSeenBy(w: World, e: Event, p: Principal)
    ensures ViewOf(Step(w, e), p) == if e.p == p then Alone(ViewOf(w, p), e) else ViewOf(w, p)
  {
    match e
    case Begin(q) =>
    case Commit(q, message, reply) =>
      AppendSeenBy(w.rows, TurnRows(q, LiveOf(w, q).turn, message, reply), p, q);
    case Reset(q) =>
      OfOthers(w.rows, p, q);
    case Restart(q) =>
    case Died(q, message, reply, stored) =>
      AppendSeenBy(w.rows, Take(TurnRows(q, LiveOf(w, q).turn, message, reply), stored), p, q);
  }

  /** Sharing the table is invisible: each principal sees what it would see with a table of its own. */
  lemma {:induction false} SharedTableIsPrivate(events: seq<Event>, p: Principal)
    ensures ViewOf(Run(events), p) == RunAlone(EventsOf(events, p))
  {
    if events != [] {
      var front, e := events[..|events| - 1], events[|events| - 1];
      SharedTableIsPrivate(front, p);
      StepSeenBy(Run(front), e, p);
      var mine := EventsOf(front, p);
      assert e.p == p ==> (mine + [e])[..|mine|] == mine;
      assert e.p != p ==> mine + [] == mine;
    }
  }

  // ---------------------------------------------------------------- memory and table agree

  ghost predicate IsSuffix<T>(t: seq<T>, s: seq<T>) {
    |t| <= |s| && forall i :: 0 <= i < |t| ==> t[i] == s[|s| - |t| + i]
  }

  ghost predicate TurnsOrdered(rows: seq<Row>) {
    forall i, j :: 0 <= i < j < |rows| ==> rows[i].turn <= rows[j].turn
  }

  ghost predicate AllAtTurn(rows: seq<Row>, turn: nat) {
    forall i :: 0 <= i < |rows| ==> rows[i].turn == turn
  }

  ghost predicate Synced(v: View) {
    && IsSuffix(v.live.history, Messages(v.stored))
    && (|v.live.history| >= MAX_HISTORY_MESSAGES || |v.live.history| == |v.stored|)
    && v.live.turn >= MaxTurn(v.stored)
    && TurnsOrdered(v.stored)
  }

  lemma LoadedIsSynced(stored: seq<Row>)
    requires TurnsOrdered(stored)
    ensures Synced(View(stored, Load(stored)))
  {
  }

  lemma OneMoreRow(stored: seq<Row>, row: Row)
    requires TurnsOrdered(stored) && row.turn >= MaxTurn(stored)
    ensures TurnsOrdered(stored + [row]) && MaxTurn(stored + [row]) == row.turn
  {
    var all := stored + [row];
    assert all[..|stored|] == stored;
    MaxTurnIsGreatest(stored);
    forall i, j | 0 <= i < j < |all| ensures all[i].turn <= all[j].turn {
      assert all[i] == stored[i];
    }
  }

  lemma {:induction false} AppendedInOrder(stored: seq<Row>, extra: seq<Row>, turn: nat)
    requires TurnsOrdered(stored) && turn >= MaxTurn(stored)
    requires AllAtTurn(extra, turn)
    ensures TurnsOrdered(stored + extra)
    ensures MaxTurn(stored + extra) == if extra == [] then MaxTurn(stored) else turn
    decreases |extra|
  {
    if extra == [] {
      assert stored + extra == stored;
    } else {
      var front, last := extra[..|extra| - 1], extra[|extra| - 1];
      AppendedInOrder(stored, front, turn);
      OneMoreRow(stored + front, last);
      assert stored + extra == stored + front + [last];
    }
  }

  lemma AloneKeepsSynced(v: View, e: Event)
    requires Synced(v)
    ensures Synced(Alone(v, e))
  {
    match e
    case Begin(_) => BeginKeepsSynced(v, e);
    case Commit(_, _, _) => CommitKeepsSynced(v, e);
    case Reset(_) => ResetKeepsSynced(v, e);
    case Restart(_) => LoadedIsSynced(v.stored);
    case Died(_, _, _, _) => DyingKeepsSynced(v, e);
  }

  lemma BeginKeepsSynced(v: View, e: Event)
    requires Synced(v) && e.Begin?
    ensures Synced(Alone(v, e))
  {
  }

  lemma ResetKeepsSynced(v: View, e: Event)
    requires e.Reset?
    ensures Synced(Alone(v, e))
  {
  }

  lemma TurnRowsAtTurn(p: Principal, turn: nat, message: Text, reply: Text, k: nat)
    ensures AllAtTurn(Take(TurnRows(p, turn, message, reply), k), turn)
  {
  }

  lemma CommitKeepsSynced(v: View, e: Event)
    requires Synced(v) && e.Commit?
    ensures Synced(Alone(v, e))
  {
    var extra := TurnRows(e.p, v.live.turn, e.message, e.reply);
    AppendedInOrder(v.stored, extra, v.live.turn);
    MessagesAppend(v.stored, extra);
    SuffixAppend(v.live.history, Messages(v.stored), Messages(extra));
  }

  lemma DyingKeepsSynced(v: View, e: Event)
    requires Synced(v) && e.Died?
    ensures Synced(Alone(v, e))
  {
    var extra := Take(TurnRows(e.p, v.live.turn, e.message, e.reply), e.stored);
    TurnRowsAtTurn(e.p, v.live.turn, e.message, e.reply, e.stored);
    AppendedInOrder(v.stored, extra, v.live.turn);
    var dead := View(v.stored + extra, Load(v.stored + extra));
    assert Alone(v, e) == dead;
    LoadedIsSynced(v.stored + extra);
  }

  lemma MessagesAppend(s: seq<Row>, t: seq<Row>)
    ensures Messages(s + t) == Messages(s) + Messages(t)
  {
  }

  lemma SuffixAppend<T>(t: seq<T>, s: seq<T>, extra: seq<T>)
    requires IsSuffix(t, s)
    ensures IsSuffix(t + extra, s + extra)
  {
  }

  lemma {:induction false} AloneRunIsSynced(events: seq<Event>)
    ensures Synced(RunAlone(events))
  {
    if events != [] {
      AloneRunIsSynced(events[..|events| - 1]);
      AloneKeepsSynced(RunAlone(events[..|events| - 1]), events[|events| - 1]);
    }
  }

  /**
   In every run: the history in memory is the end of what is stored, at least its last 20 messages,
   and the stored turns never decrease.
   */
  lemma MemoryIsSuffixOfStore(events: seq<Event>, p: Principal)
    ensures Synced(ViewOf(Run(events), p))
  {
    SharedTableIsPrivate(events, p);
    AloneRunIsSynced(EventsOf(events, p));
  }

  lemma LastOfSuffix<T>(t: seq<T>, s: seq<T>, n: nat)
    requires IsSuffix(t, s) && (|t| >= n || |t| == |s|)
    ensures Last(t, n) == Last(s, n)
  {
  }

  /** The prompt built now is the one that an assistant restarted now would build. */
  lemma RestartKeepsPrompt(events: seq<Event>, p: Principal, system: Text, message: Text)
    ensures Prompt(LiveOf(Run(events), p), system, message)
         == Prompt(LiveOf(Run(events + [Restart(p)]), p), system, message)
  {
    var v := ViewOf(Run(events), p);
    MemoryIsSuffixOfStore(events, p);
    assert (events + [Restart(p)])[..|events|] == events;
    StepSeenBy(Run(events), Restart(p), p);
    LastOfSuffix(v.live.history, Messages(v.stored), MAX_HISTORY_MESSAGES);
  }

  /** In every run a prompt is the system text, the last 20 messages stored, and the new message, in this order. */
  lemma PromptIsHistory(events: seq<Event>, p: Principal, system: Text, message: Text)
    ensures var prompt := Prompt(LiveOf(Run(events), p), system, message);
            && |prompt| >= 2 && prompt[0] == Message(System, system) && prompt[|prompt| - 1] == Message(User, message)
            && prompt[1..|prompt| - 1] == Last(Messages(Of(Run(events).rows, p)), MAX_HISTORY_MESSAGES)
  {
    var v := ViewOf(Run(events), p);
    MemoryIsSuffixOfStore(events, p);
    LastOfSuffix(v.live.history, Messages(v.stored), MAX_HISTORY_MESSAGES);
    PromptMiddle(v.live, system, message);
  }

  /** A commit of which the first `inserts` rows are stored, in a process that lives on. */
  function Interrupted(w: World, p: Principal, message: Text, reply: Text, inserts: nat): World {
    var l := LiveOf(w, p);
    var rows := TurnRows(p, l.turn, message, reply);
    World(w.rows + Take(rows, inserts), w.live[p := Live(l.history + Messages(rows), l.turn)])
  }

  /** The same for a principal alone. */
  function Unsaved(v: View, p: Principal, message: Text, reply: Text, inserts: nat): View {
    var rows := TurnRows(p, v.live.turn, message, reply);
    View(v.stored + Take(rows, inserts), Live(v.live.history + Messages(rows), v.live.turn))
  }

  /** A full window of history that holds nothing but one turn, over and over. */
  predicate OnlyThisTurn(window: seq<Message>, message: Text, reply: Text) {
    && |window| == MAX_HISTORY_MESSAGES
    && forall i :: 0 <= i < |window| ==>
         window[i] == if i % 2 == 0 then Message(User, message) else Message(Assistant, reply)
  }

  /**
   When an insert raises, memory runs ahead of the table: a restart keeps the prompt exactly if both inserts succeeded,
   or neither did and the last 20 messages stored are this very turn, ten times over.
   */
  lemma UnsavedIsForgottenIff(events: seq<Event>, p: Principal, message: Text, reply: Text, inserts: nat,
                              system: Text, next: Text)
    ensures var w := Interrupted(Run(events), p, message, reply, inserts);
            var window := Last(Messages(Of(Run(events).rows, p)), MAX_HISTORY_MESSAGES);
            Prompt(LiveOf(w, p), system, next) == Prompt(LiveOf(Step(w, Restart(p)), p), system, next)
            <==> inserts >= 2 || (inserts == 0 && OnlyThisTurn(window, message, reply))
  {
    MemoryIsSuffixOfStore(events, p);
    InterruptedSeen(Run(events), p, message, reply, inserts);
    UnsavedPrompts(ViewOf(Run(events), p), p, message, reply, inserts, system, next);
  }

  lemma InterruptedSeen(w: World, p: Principal, message: Text, reply: Text, inserts: nat)
    ensures var after := Interrupted(w, p, message, reply, inserts);
            && ViewOf(after, p) == Unsaved(ViewOf(w, p), p, message, reply, inserts)
            && LiveOf(Step(after, Restart(p)), p) == Load(Of(after.rows, p))
  {
    var after := Interrupted(w, p, message, reply, inserts);
    var extra := Take(TurnRows(p, LiveOf(w, p).turn, message, reply), inserts);
    assert Of(after.rows, p) == Of(w.rows, p) + extra by {
      AppendSeenBy(w.rows, extra, p, p);
    }
  }

  lemma UnsavedPrompts(v: View, p: Principal, message: Text, reply: Text, inserts: nat, system: Text, next: Text)
    requires Synced(v)
    ensures var u := Unsaved(v, p, message, reply, inserts);
            Prompt(u.live, system, next) == Prompt(Load(u.stored), system, next)
            <==> inserts >= 2
                 || (inserts == 0 && OnlyThisTurn(Last(Messages(v.stored), MAX_HISTORY_MESSAGES), message, reply))
  {
    var u := Unsaved(v, p, message, reply, inserts);
    var stored, both := Messages(v.stored), [Message(User, message), Message(Assistant, reply)];
    PromptsAgreeIff(u.live, Load(u.stored), system, next);
    UnsavedWindows(v, p, message, reply, inserts);
    WindowKeptIff(stored, message, reply, inserts);
  }

  lemma PromptsAgreeIff(a: Live, b: Live, system: Text, message: Text)
    ensures Prompt(a, system, message) == Prompt(b, system, message)
            <==> Last(a.history, MAX_HISTORY_MESSAGES) == Last(b.history, MAX_HISTORY_MESSAGES)
  {
    PromptMiddle(a, system, message);
    PromptMiddle(b, system, message);
  }

  lemma PromptMiddle(live: Live, system: Text, message: Text)
    ensures |Prompt(live, system, message)| >= 2
    ensures var prompt := Prompt(live, system, message);
            prompt[1..|prompt| - 1] == Last(live.history, MAX_HISTORY_MESSAGES)
  {
  }

  /** What memory, and a restart, send of the history after such a commit. */
  lemma UnsavedWindows(v: View, p: Principal, message: Text, reply: Text, inserts: nat)
    requires Synced(v)
    ensures var u, stored := Unsaved(v, p, message, reply, inserts), Messages(v.stored);
            var both := [Message(User, message), Message(Assistant, reply)];
            && Last(u.live.history, MAX_HISTORY_MESSAGES) == Last(stored + both, MAX_HISTORY_MESSAGES)
            && Last(Load(u.stored).history, MAX_HISTORY_MESSAGES)
            == Last(stored + Take(both, inserts), MAX_HISTORY_MESSAGES)
  {
    var stored, both := Messages(v.stored), [Message(User, message), Message(Assistant, reply)];
    assert Messages(TurnRows(p, v.live.turn, message, reply)) == both;
    SuffixAppend(v.live.history, stored, both);
    LastOfSuffix(v.live.history + both, stored + both, MAX_HISTORY_MESSAGES);
    ContentsAppend(v.stored, p, v.live.turn, message, reply, inserts);
    LastOfLast(stored + Take(both, inserts));
  }

  lemma LastOfLast(s: seq<Message>)
    ensures Last(Last(s, MAX_HISTORY_MESSAGES), MAX_HISTORY_MESSAGES) == Last(s, MAX_HISTORY_MESSAGES)
  {
  }

  /** Leaving out the end of a turn changes the window, unless the window holds nothing else. */
  lemma WindowKeptIff(stored: seq<Message>, message: Text, reply: Text, inserts: nat)
    ensures var both := [Message(User, message), Message(Assistant, reply)];
            Last(stored + both, MAX_HISTORY_MESSAGES) == Last(stored + Take(both, inserts), MAX_HISTORY_MESSAGES)
            <==> inserts >= 2
                 || (inserts == 0 && OnlyThisTurn(Last(stored, MAX_HISTORY_MESSAGES), message, reply))
  {
    var both := [Message(User, message), Message(Assistant, reply)];
    var full := Last(stored + both, MAX_HISTORY_MESSAGES);
    var part := Last(stored + Take(both, inserts), MAX_HISTORY_MESSAGES);
    if inserts == 0 {
      assert stored + [] == stored;
      NothingStoredIff(stored, message, reply);
    } else if inserts == 1 {
      assert full[|full| - 1] == Message(Assistant, reply);
      assert part[|part| - 1] == Message(User, message);
    } else {
      assert Take(both, inserts) == both;
    }
  }

  lemma NothingStoredIff(stored: seq<Message>, message: Text, reply: Text)
    ensures var both := [Message(User, message), Message(Assistant, reply)];
            Last(stored + both, MAX_HISTORY_MESSAGES) == Last(stored, MAX_HISTORY_MESSAGES)
            <==> OnlyThisTurn(Last(stored, MAX_HISTORY_MESSAGES), message, reply)
  {
    var both := [Message(User, message), Message(Assistant, reply)];
    var full, window := Last(stored + both, MAX_HISTORY_MESSAGES), Last(stored, MAX_HISTORY_MESSAGES);
    if |stored| >= MAX_HISTORY_MESSAGES {
      assert full == window[2..] + both;
      if full == window {
        forall i | 0 <= i < |window|
          ensures window[i] == if i % 2 == 0 then Message(User, message) else Message(Assistant, reply)
        {
          PeriodTwo(window, both, i);
        }
      }
    }
  }

  lemma {:induction false} PeriodTwo(window: seq<Message>, both: seq<Message>, i: nat)
    requires |both| == 2 && |window| >= 2 && |window| % 2 == 0 && i < |window| && window == window[2..] + both
    ensures window[i] == both[i % 2]
    decreases |window| - i
  {
    if i + 2 < |window| {
      assert window[i] == window[2..][i];
      PeriodTwo(window, both, i + 2);
    }
  }

  function WithoutRestarts(events: seq<Event>): seq<Event> {
    if events == [] then []
    else
      var e := events[|events| - 1];
      WithoutRestarts(events[..|events| - 1]) + if e.Restart? then [] else [e]
  }

  /** What the steps do to the messages stored, whatever their turn numbers. */
  function Contents(stored: seq<Message>, e: Event): seq<Message> {
    match e
    case Begin(_) => stored
    case Commit(_, message, reply) => stored + [Message(User, message), Message(Assistant, reply)]
    case Reset(_) => []
    case Restart(_) => stored
    case Died(_, message, reply, k) => stored + Take([Message(User, message), Message(Assistant, reply)], k)
  }

  lemma AloneContents(v: View, e: Event)
    ensures Messages(Alone(v, e).stored) == Contents(Messages(v.stored), e)
  {
    match e
    case Begin(p) =>
    case Commit(p, message, reply) =>
      ContentsAppend(v.stored, p, v.live.turn, message, reply, 2);
    case Reset(p) =>
      assert Messages([]) == [];
    case Restart(p) =>
    case Died(p, message, reply, k) =>
      ContentsAppend(v.stored, p, v.live.turn, message, reply, k);
  }

  lemma ContentsAppend(stored: seq<Row>, p: Principal, turn: nat, message: Text, reply: Text, k: nat)
    ensures var rows, both := TurnRows(p, turn, message, reply), [Message(User, message), Message(Assistant, reply)];
            && Messages(stored + Take(rows, k)) == Messages(stored) + Take(both, k)
            && (k == 2 ==> Take(rows, k) == rows && Take(both, k) == both)
  {
    var rows := Take(TurnRows(p, turn, message, reply), k);
    MessagesAppend(stored, rows);
    assert Messages(rows) == Take([Message(User, message), Message(Assistant, reply)], k);
  }

  /** Restarts anywhere in a run change no message stored and no message of any later prompt. */
  lemma {:induction false} RestartsAreInvisible(events: seq<Event>)
    ensures var v, u := RunAlone(events), RunAlone(WithoutRestarts(events));
            && Messages(v.stored) == Messages(u.stored)
            && Last(v.live.history, MAX_HISTORY_MESSAGES) == Last(u.live.history, MAX_HISTORY_MESSAGES)
  {
    if events != [] {
      var front, e := events[..|events| - 1], events[|events| - 1];
      var kept := WithoutRestarts(front);
      RestartsAreInvisible(front);
      AloneContents(RunAlone(front), e);
      AloneContents(RunAlone(kept), e);
      if e.Restart? {
        assert kept + [] == kept;
      } else {
        assert (kept + [e])[..|kept|] == kept;
      }
    }
    SyncedHistory(events);
    SyncedHistory(WithoutRestarts(events));
  }

  lemma SyncedHistory(events: seq<Event>)
    ensures var v := RunAlone(events);
            Last(v.live.history, MAX_HISTORY_MESSAGES) == Last(Messages(v.stored), MAX_HISTORY_MESSAGES)
  {
    AloneRunIsSynced(events);
    LastOfSuffix(RunAlone(events).live.history, Messages(RunAlone(events).stored), MAX_HISTORY_MESSAGES);
  }

  lemma {:induction false} EventsOfAppend(events: seq<Event>, other: seq<Event>, p: Principal)
    ensures EventsOf(events + other, p) == EventsOf(events, p) + EventsOf(other, p)
  {
    if other == [] {
      assert events + other == events;
    } else {
      var all := events + other;
      EventsOfAppend(events, other[..|other| - 1], p);
      assert all[..|all| - 1] == events + other[..|other| - 1];
    }
  }

  /** A commit made now would store a turn above every turn stored. */
  ghost predicate TurnIsNew(v: View) {
    forall row :: row in v.stored ==> row.turn < v.live.turn
  }

  lemma TurnIsNewMeans(v: View)
    requires Synced(v)
    ensures TurnIsNew(v) <==> v.stored == [] || MaxTurn(v.stored) < v.live.turn
    ensures !TurnIsNew(v) ==> v.stored != [] && MaxTurn(v.stored) == v.live.turn
  {
    MaxTurnIsGreatest(v.stored);
    if v.stored != [] {
      var top :| top in v.stored && top.turn == MaxTurn(v.stored);
    }
  }

  lemma CommitStoresItsTurn(v: View, e: Event)
    requires Synced(v) && e.Commit?
    ensures Alone(v, e).stored != [] && MaxTurn(Alone(v, e).stored) == Alone(v, e).live.turn
  {
    var extra := TurnRows(e.p, v.live.turn, e.message, e.reply);
    TurnRowsAtTurn(e.p, v.live.turn, e.message, e.reply, 2);
    AppendedInOrder(v.stored, extra, v.live.turn);
  }

  lemma AloneTurnIsNewIff(events: seq<Event>)
    ensures var v := RunAlone(events);
            TurnIsNew(v) <==> v.stored == [] || (events != [] && events[|events| - 1].Begin?)
  {
    AloneRunIsSynced(events);
    TurnIsNewMeans(RunAlone(events));
    if events != [] {
      var v, e := RunAlone(events[..|events| - 1]), events[|events| - 1];
      AloneRunIsSynced(events[..|events| - 1]);
      match e
      case Begin(_) =>
      case Commit(_, _, _) => CommitStoresItsTurn(v, e);
      case Reset(_) =>
      case Restart(_) =>
      case Died(_, _, _, _) =>
    }
  }

  /**
   A commit stores a turn above every stored turn of its principal, exactly if nothing of the principal is stored
   or its last step began that turn; otherwise it repeats the last turn stored.
   */
  lemma CommittedTurnIsNewIff(events: seq<Event>, p: Principal)
    ensures var v, mine := ViewOf(Run(events), p), EventsOf(events, p);
            && (TurnIsNew(v) <==> v.stored == [] || (mine != [] && mine[|mine| - 1].Begin?))
            && (!TurnIsNew(v) ==> v.live.turn == MaxTurn(v.stored))
  {
    SharedTableIsPrivate(events, p);
    AloneTurnIsNewIff(EventsOf(events, p));
    MemoryIsSuffixOfStore(events, p);
    TurnIsNewMeans(ViewOf(Run(events), p));
  }

  /** So a turn just begun is above every stored one, whatever the other principals do before it is committed. */
  lemma CommittedTurnIsNew(before: seq<Event>, other: seq<Event>, p: Principal)
    requires EventsOf(other, p) == []
    ensures TurnIsNew(ViewOf(Run(before + [Begin(p)] + other), p))
  {
    var begun := before + [Begin(p)];
    assert begun[..|before|] == before;
    EventsOfAppend(begun, other, p);
    assert EventsOf(begun, p) + [] == EventsOf(begun, p);
    CommittedTurnIsNewIff(begun + other, p);
  }

  /** Two streams of one assistant open at once store the same turn twice. */
  lemma OverlappingStreamsShareATurn(p: Principal, m: Text, r: Text)
    ensures var v := RunAlone([Begin(p), Begin(p), Commit(p, m, r), Commit(p, m, r)]);
            v.stored == TurnRows(p, 2, m, r) + TurnRows(p, 2, m, r)
    ensures !TurnIsNew(RunAlone([Begin(p), Begin(p), Commit(p, m, r)]))
  {
    AloneTurnIsNewIff([Begin(p), Begin(p), Commit(p, m, r)]);
    var events := [Begin(p), Begin(p), Commit(p, m, r), Commit(p, m, r)];
    assert events[..3] == [Begin(p), Begin(p), Commit(p, m, r)];
    assert events[..3][..2] == [Begin(p), Begin(p)];
    assert events[..3][..2][..1] == [Begin(p)];
    assert events[..3][..2][..1][..0] == [];
    assert RunAlone([]) == View([], Live([], 0));
    assert RunAlone(events[..3][..2][..1]).live.turn == 1;
    assert RunAlone(events[..3][..2]) == View([], Live([], 2));
    assert RunAlone(events[..3]).stored == TurnRows(p, 2, m, r);
  }

  /** A restart forgets refused turns: the counter is kept exactly when the last turn counted was stored. */
  lemma RestartKeepsTurnIff(events: seq<Event>, p: Principal)
    ensures var w := Run(events);
            && LiveOf(Run(events + [Restart(p)]), p).turn <= LiveOf(w, p).turn
            && (LiveOf(Run(events + [Restart(p)]), p).turn == LiveOf(w, p).turn <==>
                LiveOf(w, p).turn == 0 || exists row :: row in Of(w.rows, p) && row.turn == LiveOf(w, p).turn)
  {
    var v := ViewOf(Run(events), p);
    MemoryIsSuffixOfStore(events, p);
    assert (events + [Restart(p)])[..|events|] == events;
    StepSeenBy(Run(events), Restart(p), p);
    MaxTurnIsGreatest(v.stored);
  }
}
