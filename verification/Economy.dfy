/** The two-phase budget (src/ai/economy.py 27-114): amounts are reserved, and then charged or released. */
module Budgets {
  import opened Options
  import opened Sums
  import opened Switches

  type Reservation(==, !new)

  datatype Ledger = Ledger(total: real, consumed: real, reserved: map<Reservation, real>, blocked: bool)

  /** Money neither charged nor promised. */
  ghost function Free(l: Ledger): real {
    l.total - l.consumed - Total(l.reserved)
  }

  ghost predicate Grants(l: Ledger, amount: Option<real>) {
    !l.blocked && amount.Some? && 0.0 < amount.value <= Free(l)
  }

  predicate Charges(l: Ledger, id: Reservation) {
    id in l.reserved && !l.blocked
  }

  /** `id` is a fresh identifier. */
  ghost function Reserved(l: Ledger, amount: Option<real>, id: Reservation): Ledger {
    if Grants(l, amount) then l.(reserved := l.reserved[id := amount.value]) else l
  }

  function Consumed(l: Ledger, id: Reservation): Ledger {
    if Charges(l, id) then l.(consumed := l.consumed + l.reserved[id], reserved := l.reserved - {id}) else l
  }

  function Released(l: Ledger, id: Reservation): Ledger {
    l.(reserved := l.reserved - {id})
  }

  class BudgetEngine {
    const total: real
    var consumed: real
    var reserved: map<Reservation, real>
    var blocked: bool

    function State(): Ledger
      reads this
    {
      Ledger(total, consumed, reserved, blocked)
    }

    constructor (total: real)
      requires total >= 0.0
      ensures State() == Ledger(total, 0.0, map[], false)
    {
      this.total, consumed, reserved, blocked := total, 0.0, map[], false;
    }

    /** The check that guards construction: None is the error for a negative total. */
    static method Create(total: real) returns (b: Option<BudgetEngine>)
      ensures b.None? <==> total < 0.0
      ensures b.Some? ==> fresh(b.value) && b.value.State() == Ledger(total, 0.0, map[], false)
    {
      if total < 0.0 {
        return None;
      }
      var engine := new BudgetEngine(total);
      b := Some(engine);
    }

    method Reserve(amount: Option<real>, id: Reservation) returns (r: Option<Reservation>)
      modifies this
      ensures State() == Reserved(old(State()), amount, id)
      ensures r == if Grants(old(State()), amount) then Some(id) else None
    {
      if blocked || amount.None? || amount.value <= 0.0 {
        return None;
      }
      var reservedSum := SumValues(reserved);
      if amount.value > total - consumed - reservedSum {
        return None;
      }
      reserved := reserved[id := amount.value];
      return Some(id);
    }

    method Consume(id: Reservation) returns (ok: bool)
      modifies this
      ensures State() == Consumed(old(State()), id)
      ensures ok == Charges(old(State()), id)
    {
      if id !in reserved || blocked {
        return false;
      }
      var amount := reserved[id];
      reserved := reserved - {id};
      consumed := consumed + amount;
      return true;
    }

    method Release(id: Reservation) returns (ok: bool)
      modifies this
      ensures State() == Released(old(State()), id)
      ensures ok == (id in old(reserved))
    {
      if id !in reserved {
        assert reserved - {id} == reserved;
        return false;
      }
      reserved := reserved - {id};
      return true;
    }

    method Block()
      modifies this
      ensures State() == old(State()).(blocked := true)
    {
      blocked := true;
    }

    method Unblock()
      modifies this
      ensures State() == old(State()).(blocked := false)
    {
      blocked := false;
    }
  }

  // ---------------------------------------------------------------- any interleaving

  datatype Op =
    | Reserve(amount: Option<real>, id: Reservation)
    | Consume(id: Reservation)
    | Release(id: Reservation)
    | Block
    | Unblock

  ghost function Step(l: Ledger, op: Op): Ledger {
    match op
    case Reserve(amount, id) => Reserved(l, amount, id)
    case Consume(id) => Consumed(l, id)
    case Release(id) => Released(l, id)
    case Block => l.(blocked := true)
    case Unblock => l.(blocked := false)
  }

  ghost function Run(total: real, ops: seq<Op>): Ledger {
    if ops == [] then Ledger(total, 0.0, map[], false)
    else Step(Run(total, ops[..|ops| - 1]), ops[|ops| - 1])
  }

  /** No identifier is issued twice. */
  ghost predicate FreshIds(ops: seq<Op>) {
    forall i, j :: 0 <= i < j < |ops| && ops[i].Reserve? && ops[j].Reserve? ==> ops[i].id != ops[j].id
  }

  ghost predicate Sound(l: Ledger) {
    && 0.0 <= l.consumed
    && (forall id :: id in l.reserved ==> l.reserved[id] > 0.0)
    && l.consumed + Total(l.reserved) <= l.total
  }

  lemma StepKeepsSound(l: Ledger, op: Op)
    requires Sound(l) && (op.Reserve? ==> op.id !in l.reserved)
    ensures Sound(Step(l, op)) && Step(l, op).total == l.total
  {
    match op
    case Reserve(amount, id) =>
      if Grants(l, amount) {
        TotalSet(l.reserved, id, amount.value);
      }
    case Consume(id) =>
      if Charges(l, id) {
        TotalWithout(l.reserved, id);
      }
    case Release(id) =>
      if id in l.reserved {
        TotalWithout(l.reserved, id);
      } else {
        assert l.reserved - {id} == l.reserved;
      }
    case Block =>
    case Unblock =>
  }

  ghost predicate Frozen(ops: seq<Op>) {
    IsOn(ops, Op.Block, Op.Unblock)
  }

  /** In every run the engine is blocked from a block to the next unblock, and then grants and charges nothing. */
  lemma {:induction false} BlockedIffFrozen(total: real, ops: seq<Op>, op: Op)
    ensures Run(total, ops).blocked <==> Frozen(ops)
    ensures Frozen(ops) && (op.Reserve? || op.Consume?) ==> Step(Run(total, ops), op) == Run(total, ops)
  {
    if ops != [] {
      var n := |ops| - 1;
      BlockedIffFrozen(total, ops[..n], op);
      IsOnNext(ops, Op.Block, Op.Unblock, n);
    }
  }

  // What the run did with each amount: ids granted, charged and released, with the sums.
  datatype Account = Account(granted: set<Reservation>, charged: set<Reservation>, released: set<Reservation>,
                             grantedSum: real, releasedSum: real)

  ghost function Noted(c: Account, l: Ledger, op: Op): Account {
    match op
    case Reserve(amount, id) =>
      if Grants(l, amount) then c.(granted := c.granted + {id}, grantedSum := c.grantedSum + amount.value) else c
    case Consume(id) => if Charges(l, id) then c.(charged := c.charged + {id}) else c
    case Release(id) =>
      if id in l.reserved then c.(released := c.released + {id}, releasedSum := c.releasedSum + l.reserved[id]) else c
    case _ => c
  }

  ghost function Book(total: real, ops: seq<Op>): Account {
    if ops == [] then Account({}, {}, {}, 0.0, 0.0)
    else
      var front := ops[..|ops| - 1];
      Noted(Book(total, front), Run(total, front), ops[|ops| - 1])
  }

  ghost predicate Conserved(c: Account, l: Ledger) {
    && c.granted == c.charged + c.released + l.reserved.Keys
    && c.charged !! c.released && c.charged !! l.reserved.Keys && c.released !! l.reserved.Keys
    && c.grantedSum == l.consumed + c.releasedSum + Total(l.reserved)
  }

  lemma StepKeepsConserved(c: Account, l: Ledger, op: Op)
    requires Conserved(c, l) && (op.Reserve? ==> op.id !in c.granted)
    ensures Conserved(Noted(c, l, op), Step(l, op))
  {
    match op
    case Reserve(amount, id) =>
      if Grants(l, amount) {
        TotalSet(l.reserved, id, amount.value);
      }
    case Consume(id) =>
      if Charges(l, id) {
        TotalWithout(l.reserved, id);
        assert (l.reserved - {id}).Keys == l.reserved.Keys - {id};
      }
    case Release(id) =>
      if id in l.reserved {
        TotalWithout(l.reserved, id);
        assert (l.reserved - {id}).Keys == l.reserved.Keys - {id};
      } else {
        assert l.reserved - {id} == l.reserved;
      }
    case Block =>
    case Unblock =>
  }

  lemma {:induction false} GrantedWereAsked(total: real, ops: seq<Op>, id: Reservation)
    requires id in Book(total, ops).granted
    ensures exists i :: 0 <= i < |ops| && ops[i].Reserve? && ops[i].id == id
  {
    var front, op := ops[..|ops| - 1], ops[|ops| - 1];
    if id in Book(total, front).granted {
      GrantedWereAsked(total, front, id);
      var i :| 0 <= i < |front| && front[i].Reserve? && front[i].id == id;
      assert ops[i].Reserve? && ops[i].id == id;
    } else {
      assert ops[|ops| - 1].Reserve?;
    }
  }

  /**
   In every interleaving: what is charged and what is promised never exceed the total, and each amount
   ever granted is charged, released or outstanding, exactly one of the three, with matching sums.
   */
  lemma {:induction false} BudgetIsConserved(total: real, ops: seq<Op>)
    requires total >= 0.0 && FreshIds(ops)
    ensures Sound(Run(total, ops)) && Run(total, ops).total == total
    ensures Conserved(Book(total, ops), Run(total, ops))
  {
    if ops != [] {
      var front, op := ops[..|ops| - 1], ops[|ops| - 1];
      BudgetIsConserved(total, front);
      if op.Reserve? && op.id in Book(total, front).granted {
        GrantedWereAsked(total, front, op.id);
        assert false;
      }
      StepKeepsSound(Run(total, front), op);
      StepKeepsConserved(Book(total, front), Run(total, front), op);
    } else {
      assert Total<Reservation>(map[]) == 0.0;
    }
  }
}

/** Token billing (src/ai/economy.py 117-197) and the path that joins it to the budget (200-240). */
module Economies {
  import opened Options
  import opened Sums
  import opened Budgets
  import opened RealArithmetic
  import opened Switches

  type Model(==, !new)

  /** One price per 1000 tokens, or separate prices for input and output, each optional. */
  datatype Price = Flat(price: real) | Split(input: Option<real>, output: Option<real>)
  datatype Usage = Usage(tokensIn: real, tokensOut: real, totalTokens: real, cost: real)
  datatype Record = Record(cost: real, unknown: bool)
  datatype Outcome = Blocked | OverBudget(estimated: real) | Done(cost: real, estimated: real, unknown: bool)

  type PriceTable = map<Model, Price>

  function OrZero(o: Option<real>): real {
    if o.Some? then o.value else 0.0
  }

  function PriceOf(table: PriceTable, m: Model, tokensIn: int, tokensOut: int): Record {
    if m !in table then Record(0.0, true)
    else match table[m]
      case Split(input, output) =>
        Record(tokensIn as real / 1000.0 * OrZero(input) + tokensOut as real / 1000.0 * OrZero(output), false)
      case Flat(price) => Record((tokensIn + tokensOut) as real / 1000.0 * price, false)
  }

  function UsageOf(usage: map<Model, Usage>, m: Model): Usage {
    if m in usage then usage[m] else Usage(0.0, 0.0, 0.0, 0.0)
  }

  function Recorded(usage: map<Model, Usage>, m: Model, tokensIn: int, tokensOut: int, cost: real): map<Model, Usage> {
    var u := UsageOf(usage, m);
    usage[m := Usage(u.tokensIn + tokensIn as real, u.tokensOut + tokensOut as real,
                     u.totalTokens + (tokensIn + tokensOut) as real, u.cost + cost)]
  }

  /** The cost billed over all models. */
  ghost function Billed(usage: map<Model, Usage>): real {
    Total(Costs(usage))
  }

  function Costs(usage: map<Model, Usage>): map<Model, real> {
    map m | m in usage :: usage[m].cost
  }

  function Tokens(usage: map<Model, Usage>): map<Model, real> {
    map m | m in usage :: usage[m].totalTokens
  }

  class BillingEngine {
    const table: PriceTable
    var usage: map<Model, Usage>

    constructor (table: PriceTable)
      ensures this.table == table && usage == map[]
    {
      this.table, usage := table, map[];
    }

    method RecordUsage(m: Model, tokensIn: int, tokensOut: int) returns (r: Record)
      modifies this
      ensures r == PriceOf(table, m, tokensIn, tokensOut) && (r.unknown <==> m !in table)
      ensures usage == Recorded(old(usage), m, tokensIn, tokensOut, r.cost)
      ensures Billed(usage) == Billed(old(usage)) + r.cost
    {
      r := PriceOf(table, m, tokensIn, tokensOut);
      BilledAfter(usage, m, tokensIn, tokensOut, r.cost);
      var u := if m in usage then usage[m] else Usage(0.0, 0.0, 0.0, 0.0);
      u := u.(tokensIn := u.tokensIn + tokensIn as real);
      u := u.(tokensOut := u.tokensOut + tokensOut as real);
      u := u.(totalTokens := u.totalTokens + (tokensIn + tokensOut) as real);
      u := u.(cost := u.cost + r.cost);
      usage := usage[m := u];
    }

    method UsageReport() returns (models: map<Model, Usage>, totalTokens: real, totalCost: real, modelCount: nat)
      ensures models == usage && modelCount == |usage|
      ensures totalTokens == Total(Tokens(usage)) && totalCost == Billed(usage)
    {
      models, modelCount := usage, |usage|;
      totalTokens := SumValues(Tokens(usage));
      totalCost := SumValues(Costs(usage));
    }
  }

  lemma BilledAfter(usage: map<Model, Usage>, m: Model, tokensIn: int, tokensOut: int, cost: real)
    ensures Billed(Recorded(usage, m, tokensIn, tokensOut, cost)) == Billed(usage) + cost
  {
    var after := Recorded(usage, m, tokensIn, tokensOut, cost);
    TotalSet(Costs(usage), m, after[m].cost);
    assert Costs(after) == Costs(usage)[m := after[m].cost];
  }

  // ---------------------------------------------------------------- one call

  datatype State = State(ledger: Ledger, usage: map<Model, Usage>)

  /** A call is carried out exactly if the budget is open and its cost is positive and affordable. */
  ghost predicate Accepted(s: State, cost: real) {
    !s.ledger.blocked && 0.0 < cost <= Free(s.ledger)
  }

  ghost function Executed(s: State, table: PriceTable, m: Model, tokensIn: int, tokensOut: int): State {
    var cost := PriceOf(table, m, tokensIn, tokensOut).cost;
    if !Accepted(s, cost) then s
    else State(s.ledger.(consumed := s.ledger.consumed + cost), Recorded(s.usage, m, tokensIn, tokensOut, cost))
  }

  class EconomyEngine {
    const budget: BudgetEngine
    const billing: BillingEngine

    constructor (budget: BudgetEngine, billing: BillingEngine)
      ensures this.budget == budget && this.billing == billing
    {
      this.budget, this.billing := budget, billing;
    }

    /** `id` is the identifier that a reservation gets; `charged` is the result of `consume`, which the code ignores. */
    method Execute(m: Model, tokensIn: int, tokensOut: int, id: Reservation) returns (r: Outcome, ghost charged: bool)
      requires id !in budget.reserved
      modifies budget, billing
      ensures var s := old(State(budget.State(), billing.usage));
              var price := PriceOf(billing.table, m, tokensIn, tokensOut);
              && State(budget.State(), billing.usage) == Executed(s, billing.table, m, tokensIn, tokensOut)
              && charged
              && r == if s.ledger.blocked then Blocked
                      else if !Accepted(s, price.cost) then OverBudget(price.cost)
                      else Done(price.cost, price.cost, false)
    {
      charged := true;
      if budget.blocked {
        return Blocked, charged;
      }
      ghost var start := budget.State();
      var estimated := PriceOf(billing.table, m, tokensIn, tokensOut).cost;
      var rid := budget.Reserve(Some(estimated), id);
      if rid.None? {
        return OverBudget(estimated), charged;
      }
      var record := billing.RecordUsage(m, tokensIn, tokensOut);
      var ok := budget.Consume(rid.value);
      charged := ok;
      assert start.reserved[id := estimated] - {id} == start.reserved;
      r := Done(record.cost, estimated, record.unknown);
    }
  }

  // ---------------------------------------------------------------- runs with execute as the only client

  datatype Op = Execute(m: Model, tokensIn: int, tokensOut: int) | Freeze | Thaw

  ghost function Step(s: State, table: PriceTable, op: Op): State {
    match op
    case Execute(m, tokensIn, tokensOut) => Executed(s, table, m, tokensIn, tokensOut)
    case Freeze => s.(ledger := s.ledger.(blocked := true))
    case Thaw => s.(ledger := s.ledger.(blocked := false))
  }

  ghost function Run(total: real, table: PriceTable, ops: seq<Op>): State {
    if ops == [] then State(Ledger(total, 0.0, map[], false), map[])
    else Step(Run(total, table, ops[..|ops| - 1]), table, ops[|ops| - 1])
  }

  /** The two ledgers agree: the cost billed is the budget consumed, nothing stays reserved, nothing is overspent. */
  lemma {:induction false} BilledIsConsumed(total: real, table: PriceTable, ops: seq<Op>)
    requires total >= 0.0
    ensures var s := Run(total, table, ops);
            && Billed(s.usage) == s.ledger.consumed
            && s.ledger.reserved == map[] && s.ledger.total == total
            && 0.0 <= s.ledger.consumed <= total
  {
    assert Total<Reservation>(map[]) == 0.0;
    if ops == [] {
      assert Costs(map[]).Keys == {};
      assert Costs(map[]) == map[];
    } else {
      var front, op := ops[..|ops| - 1], ops[|ops| - 1];
      BilledIsConsumed(total, table, front);
      if op.Execute? {
        BilledAfter(Run(total, table, front).usage, op.m, op.tokensIn, op.tokensOut,
                    PriceOf(table, op.m, op.tokensIn, op.tokensOut).cost);
      }
    }
  }

  /** So a call goes through exactly if the budget is open and the bill, with a positive cost, stays in the total. */
  lemma AcceptedIff(total: real, table: PriceTable, ops: seq<Op>, cost: real)
    requires total >= 0.0
    ensures var s := Run(total, table, ops);
            Accepted(s, cost) <==> !Frozen(ops) && cost > 0.0 && Billed(s.usage) + cost <= total
  {
    BilledIsConsumed(total, table, ops);
    BlockedIffFrozen(total, table, ops);
    assert Total<Reservation>(map[]) == 0.0;
  }

  ghost predicate Frozen(ops: seq<Op>) {
    IsOn(ops, Freeze, Thaw)
  }

  lemma {:induction false} BlockedIffFrozen(total: real, table: PriceTable, ops: seq<Op>)
    ensures Run(total, table, ops).ledger.blocked <==> Frozen(ops)
  {
    if ops != [] {
      var n := |ops| - 1;
      BlockedIffFrozen(total, table, ops[..n]);
      IsOnNext(ops, Freeze, Thaw, n);
    }
  }

  // ---------------------------------------------------------------- what the usage says

  /** A cost in line with the price: separate rates for input and output, or one for all tokens, per 1000. */
  ghost predicate Priced(price: Price, u: Usage) {
    match price
    case Split(input, output) => 1000.0 * u.cost == u.tokensIn * OrZero(input) + u.tokensOut * OrZero(output)
    case Flat(rate) => 1000.0 * u.cost == u.totalTokens * rate
  }

  /** One call by itself. */
  function UsageOfCall(tokensIn: int, tokensOut: int, cost: real): Usage {
    Usage(tokensIn as real, tokensOut as real, (tokensIn + tokensOut) as real, cost)
  }

  lemma CallIsPriced(table: PriceTable, m: Model, tokensIn: int, tokensOut: int)
    requires m in table
    ensures Priced(table[m], UsageOfCall(tokensIn, tokensOut, PriceOf(table, m, tokensIn, tokensOut).cost))
  {
    var i, o := tokensIn as real, tokensOut as real;
    match table[m]
    case Split(input, output) =>
      PerThousand(i, OrZero(input));
      PerThousand(o, OrZero(output));
    case Flat(rate) => PerThousand((tokensIn + tokensOut) as real, rate);
  }

  lemma PerThousand(tokens: real, rate: real)
    ensures 1000.0 * (tokens / 1000.0 * rate) == tokens * rate
  {
    var perToken := tokens / 1000.0;
    assert tokens == 1000.0 * perToken;
    Regroup(1000.0, perToken, rate);
  }

  function Added(u: Usage, v: Usage): Usage {
    Usage(u.tokensIn + v.tokensIn, u.tokensOut + v.tokensOut, u.totalTokens + v.totalTokens, u.cost + v.cost)
  }

  lemma PricedAdds(price: Price, u: Usage, v: Usage)
    requires Priced(price, u) && Priced(price, v)
    ensures Priced(price, Added(u, v))
  {
    match price
    case Split(input, output) =>
      DistributeOver(OrZero(input), u.tokensIn, v.tokensIn);
      DistributeOver(OrZero(output), u.tokensOut, v.tokensOut);
    case Flat(rate) => DistributeOver(rate, u.totalTokens, v.totalTokens);
  }

  /** The tokens of the calls of a model that went through, in and out. */
  ghost function TokensOf(total: real, table: PriceTable, ops: seq<Op>, m: Model): (int, int) {
    if ops == [] then (0, 0)
    else
      var front, op := ops[..|ops| - 1], ops[|ops| - 1];
      var (i, o) := TokensOf(total, table, front, m);
      if op.Execute? && op.m == m
         && Accepted(Run(total, table, front), PriceOf(table, m, op.tokensIn, op.tokensOut).cost)
      then (i + op.tokensIn, o + op.tokensOut) else (i, o)
  }

  /**
   In every run the usage of a model holds the tokens of its calls that went through, in, out and together, and their
   cost at the model's price, or none without a price.
   */
  lemma {:induction false} UsageIsPriced(total: real, table: PriceTable, ops: seq<Op>, m: Model)
    ensures var u := UsageOf(Run(total, table, ops).usage, m);
            var (i, o) := TokensOf(total, table, ops, m);
            && u.tokensIn == i as real && u.tokensOut == o as real && u.totalTokens == u.tokensIn + u.tokensOut
            && (if m in table then Priced(table[m], u) else u.cost == 0.0)
  {
    if ops == [] {
      NothingIsPriced(table, m);
    } else {
      var front, op := ops[..|ops| - 1], ops[|ops| - 1];
      var s := Run(total, table, front);
      UsageIsPriced(total, table, front, m);
      if op.Execute? && op.m == m && m in table {
        CallIsPriced(table, m, op.tokensIn, op.tokensOut);
        PricedAdds(table[m], UsageOf(s.usage, m),
                   UsageOfCall(op.tokensIn, op.tokensOut, PriceOf(table, m, op.tokensIn, op.tokensOut).cost));
      }
    }
  }

  lemma NothingIsPriced(table: PriceTable, m: Model)
    ensures m in table ==> Priced(table[m], Usage(0.0, 0.0, 0.0, 0.0))
  {
  }

  /**
   A call that costs nothing is refused, whatever budget is left; so is every call of a model without a price, every
   call without tokens, and every call of a model whose price is zero.
   */
  lemma FreeCallsAreRefused(s: State, table: PriceTable, m: Model, tokensIn: int, tokensOut: int)
    ensures var cost := PriceOf(table, m, tokensIn, tokensOut).cost;
            && (cost <= 0.0 ==> Executed(s, table, m, tokensIn, tokensOut) == s && !Accepted(s, cost))
            && (m !in table || tokensIn == 0 == tokensOut || FreeOfCharge(table[m]) ==> cost == 0.0)
  {
  }

  predicate FreeOfCharge(price: Price) {
    match price
    case Flat(p) => p == 0.0
    case Split(input, output) => OrZero(input) == 0.0 == OrZero(output)
  }
}

/**
 Calls of `EconomyEngine.execute` in flight at the same time (src/ai/economy.py 211-240), cut into the steps that
 other calls, and `block`, can come between.  Nothing locks the engines: `reserve` checks first and holds the amount
 later.  `record_usage` and `consume` are taken as single steps.
 */
module ConcurrentCalls {
  import opened Options
  import opened Sums
  import opened Switches
  import opened Budgets
  import opened Economies

  datatype Call = Call(m: Model, tokensIn: int, tokensOut: int)

  /**
   `checked` are calls that passed the checks of `reserve`, `begun` those whose amount is held, `billed` those that
   also recorded their usage, with the cost, and `stuck` those whose `consume` was refused.
   */
  datatype World = World(ledger: Ledger, usage: map<Model, Usage>, checked: map<Reservation, Call>,
                         begun: map<Reservation, Call>, billed: map<Reservation, real>, stuck: map<Reservation, real>)

  /** `id` is the identifier that the reservation will get. */
  datatype Move =
    | Check(call: Call, id: Reservation)
    | Hold(id: Reservation)
    | Bill(id: Reservation)
    | Finish(id: Reservation)
    | Block
    | Unblock

  function CostOf(table: PriceTable, c: Call): real {
    PriceOf(table, c.m, c.tokensIn, c.tokensOut).cost
  }

  ghost function Next(w: World, table: PriceTable, move: Move): World {
    match move
    case Check(call, id) =>
      if Grants(w.ledger, Some(CostOf(table, call))) then w.(checked := w.checked[id := call]) else w
    case Hold(id) =>
      if id !in w.checked then w
      else
        var c := w.checked[id];
        w.(ledger := w.ledger.(reserved := w.ledger.reserved[id := CostOf(table, c)]),
           checked := w.checked - {id}, begun := w.begun[id := c])
    case Bill(id) =>
      if id !in w.begun then w
      else
        var c := w.begun[id];
        w.(usage := Recorded(w.usage, c.m, c.tokensIn, c.tokensOut, CostOf(table, c)),
           begun := w.begun - {id}, billed := w.billed[id := CostOf(table, c)])
    case Finish(id) =>
      if id !in w.billed then w
      else if Charges(w.ledger, id) then w.(ledger := Consumed(w.ledger, id), billed := w.billed - {id})
      else w.(billed := w.billed - {id}, stuck := w.stuck[id := w.billed[id]])
    case Block => w.(ledger := w.ledger.(blocked := true))
    case Unblock => w.(ledger := w.ledger.(blocked := false))
  }

  ghost function AtFirst(total: real): World {
    World(Ledger(total, 0.0, map[], false), map[], map[], map[], map[], map[])
  }

  ghost function After(total: real, table: PriceTable, moves: seq<Move>): World {
    if moves == [] then AtFirst(total)
    else Next(After(total, table, moves[..|moves| - 1]), table, moves[|moves| - 1])
  }

  predicate IsFresh(w: World, move: Move) {
    move.Check? ==> move.id !in w.checked && move.id !in w.ledger.reserved
  }

  /** Each call gets an identifier that no other call in flight, and no reservation, has. */
  ghost predicate FreshMoves(total: real, table: PriceTable, moves: seq<Move>) {
    forall i {:trigger moves[i]} :: 0 <= i < |moves| ==> IsFresh(After(total, table, moves[..i]), moves[i])
  }

  lemma FreshPrefix(total: real, table: PriceTable, moves: seq<Move>, n: nat)
    requires FreshMoves(total, table, moves) && n <= |moves|
    ensures FreshMoves(total, table, moves[..n])
  {
    var front := moves[..n];
    forall i | 0 <= i < |front| ensures IsFresh(After(total, table, front[..i]), front[i]) {
      assert front[..i] == moves[..i] && front[i] == moves[i];
    }
  }

  lemma AfterNext(total: real, table: PriceTable, moves: seq<Move>, k: nat)
    requires k < |moves|
    ensures After(total, table, moves[..k + 1]) == Next(After(total, table, moves[..k]), table, moves[k])
  {
    assert moves[..k + 1][..k] == moves[..k];
  }

  // ---------------------------------------------------------------- what every step keeps

  /** Each reservation belongs to one call, which is begun, billed or stuck, and holds its cost. */
  ghost predicate Owned(w: World, table: PriceTable) {
    && w.ledger.reserved.Keys == w.begun.Keys + w.billed.Keys + w.stuck.Keys
    && w.begun.Keys !! w.billed.Keys && w.begun.Keys !! w.stuck.Keys && w.billed.Keys !! w.stuck.Keys
    && (forall id :: id in w.begun ==> w.ledger.reserved[id] == CostOf(table, w.begun[id]))
    && (forall id :: id in w.billed ==> w.ledger.reserved[id] == w.billed[id])
    && (forall id :: id in w.stuck ==> w.ledger.reserved[id] == w.stuck[id])
  }

  /** Calls that passed the checks hold nothing yet, and what is held or charged is positive. */
  ghost predicate Positive(w: World, table: PriceTable) {
    && w.checked.Keys !! w.ledger.reserved.Keys && 0.0 <= w.ledger.consumed
    && (forall id :: id in w.checked ==> CostOf(table, w.checked[id]) > 0.0)
    && (forall id :: id in w.ledger.reserved ==> w.ledger.reserved[id] > 0.0)
  }

  ghost predicate Matching(w: World) {
    Billed(w.usage) == w.ledger.consumed + Total(w.billed) + Total(w.stuck)
  }

  ghost predicate Books(w: World, table: PriceTable) {
    Owned(w, table) && Positive(w, table) && Matching(w)
  }

  lemma NextKeepsOwned(w: World, table: PriceTable, move: Move)
    requires Owned(w, table) && w.checked.Keys !! w.ledger.reserved.Keys
    ensures Owned(Next(w, table, move), table)
  {
    match move
    case Check(_, _) =>
    case Hold(id) => HoldKeepsOwned(w, table, id);
    case Bill(id) => BillKeepsOwned(w, table, id);
    case Finish(id) => FinishKeepsOwned(w, table, id);
    case Block =>
    case Unblock =>
  }

  lemma HoldKeepsOwned(w: World, table: PriceTable, id: Reservation)
    requires Owned(w, table) && w.checked.Keys !! w.ledger.reserved.Keys
    ensures Owned(Next(w, table, Hold(id)), table)
  {
    if id in w.checked {
      assert id !in w.begun && id !in w.billed && id !in w.stuck;
    }
  }

  lemma BillKeepsOwned(w: World, table: PriceTable, id: Reservation)
    requires Owned(w, table)
    ensures Owned(Next(w, table, Bill(id)), table)
  {
    if id in w.begun {
      assert id in w.ledger.reserved && id !in w.billed && id !in w.stuck;
    }
  }

  lemma FinishKeepsOwned(w: World, table: PriceTable, id: Reservation)
    requires Owned(w, table)
    ensures Owned(Next(w, table, Finish(id)), table)
  {
    if id in w.billed {
      assert id in w.ledger.reserved && id !in w.begun && id !in w.stuck;
      if Charges(w.ledger, id) {
        ChargingKeepsOwned(w, table, id);
      } else {
        StickingKeepsOwned(w, table, id);
      }
    }
  }

  lemma ChargingKeepsOwned(w: World, table: PriceTable, id: Reservation)
    requires Owned(w, table) && id in w.billed && Charges(w.ledger, id)
    ensures Owned(w.(ledger := Consumed(w.ledger, id), billed := w.billed - {id}), table)
  {
    assert (w.ledger.reserved - {id}).Keys == w.ledger.reserved.Keys - {id};
    assert (w.billed - {id}).Keys == w.billed.Keys - {id};
  }

  lemma StickingKeepsOwned(w: World, table: PriceTable, id: Reservation)
    requires Owned(w, table) && id in w.billed
    ensures Owned(w.(billed := w.billed - {id}, stuck := w.stuck[id := w.billed[id]]), table)
  {
    assert (w.billed - {id}).Keys == w.billed.Keys - {id};
  }

  lemma NextKeepsPositive(w: World, table: PriceTable, move: Move)
    requires Owned(w, table) && Positive(w, table) && IsFresh(w, move)
    ensures Positive(Next(w, table, move), table)
  {
  }

  lemma NextKeepsMatching(w: World, table: PriceTable, move: Move)
    requires Owned(w, table) && Matching(w)
    ensures Matching(Next(w, table, move))
  {
    match move
    case Check(_, _) =>
    case Hold(_) =>
    case Bill(id) =>
      if id in w.begun {
        var c := w.begun[id];
        BilledAfter(w.usage, c.m, c.tokensIn, c.tokensOut, CostOf(table, c));
        TotalSet(w.billed, id, CostOf(table, c));
      }
    case Finish(id) =>
      if id in w.billed {
        TotalWithout(w.billed, id);
        TotalSet(w.stuck, id, w.billed[id]);
      }
    case Block =>
    case Unblock =>
  }

  lemma NextKeepsBooks(w: World, table: PriceTable, move: Move)
    requires Books(w, table) && IsFresh(w, move)
    ensures Books(Next(w, table, move), table)
  {
    NextKeepsOwned(w, table, move);
    NextKeepsPositive(w, table, move);
    NextKeepsMatching(w, table, move);
  }

  lemma NothingBegun(total: real, table: PriceTable)
    ensures Books(AtFirst(total), table) && Free(AtFirst(total).ledger) == total
  {
    assert Total<Reservation>(map[]) == 0.0;
    assert Costs(map[]).Keys == {};
    assert Costs(map[]) == map[];
  }

  /**
   However the steps of calls and freezes interleave, the bill is the budget consumed plus what calls that are billed
   but not charged still hold.
   */
  lemma {:induction false} BooksWithCallsInFlight(total: real, table: PriceTable, moves: seq<Move>)
    requires FreshMoves(total, table, moves)
    ensures Books(After(total, table, moves), table)
  {
    if moves == [] {
      NothingBegun(total, table);
    } else {
      var n := |moves| - 1;
      FreshPrefix(total, table, moves, n);
      BooksWithCallsInFlight(total, table, moves[..n]);
      NextKeepsBooks(After(total, table, moves[..n]), table, moves[n]);
    }
  }

  // ---------------------------------------------------------------- when the budget is overspent

  /** Move `i` holds the cost of a call that had passed the checks. */
  ghost predicate Holds(total: real, table: PriceTable, moves: seq<Move>, i: nat)
    requires i < |moves|
  {
    moves[i].Hold? && moves[i].id in After(total, table, moves[..i]).checked
  }

  /** ... and that cost is no longer free. */
  ghost predicate TooLate(total: real, table: PriceTable, moves: seq<Move>, i: nat)
    requires i < |moves|
  {
    Holds(total, table, moves, i) &&
    var w := After(total, table, moves[..i]);
    CostOf(table, w.checked[moves[i].id]) > Free(w.ledger)
  }

  ghost predicate NoneTooLate(total: real, table: PriceTable, moves: seq<Move>) {
    forall i {:trigger TooLate(total, table, moves, i)} :: 0 <= i < |moves| ==> !TooLate(total, table, moves, i)
  }

  lemma NoneTooLateNext(total: real, table: PriceTable, moves: seq<Move>, n: nat)
    requires |moves| == n + 1
    ensures NoneTooLate(total, table, moves) <==>
            NoneTooLate(total, table, moves[..n]) && !TooLate(total, table, moves, n)
  {
    var front := moves[..n];
    forall i | 0 <= i < n ensures TooLate(total, table, moves, i) <==> TooLate(total, table, front, i) {
      assert front[..i] == moves[..i];
    }
    if NoneTooLate(total, table, moves) {
      forall i | 0 <= i < n ensures !TooLate(total, table, front, i) {
        assert !TooLate(total, table, moves, i);
      }
    }
  }

  /** Only holding an amount takes it from what is free. */
  lemma FreeAfter(w: World, table: PriceTable, move: Move)
    requires Books(w, table)
    ensures Free(Next(w, table, move).ledger) == Free(w.ledger) -
            if move.Hold? && move.id in w.checked then CostOf(table, w.checked[move.id]) else 0.0
  {
    match move
    case Check(_, _) =>
    case Hold(id) =>
      if id in w.checked {
        TotalSet(w.ledger.reserved, id, CostOf(table, w.checked[id]));
      }
    case Bill(_) =>
    case Finish(id) =>
      if id in w.billed && Charges(w.ledger, id) {
        TotalWithout(w.ledger.reserved, id);
      }
    case Block =>
    case Unblock =>
  }

  /** The budget is overspent, by what is charged and promised, exactly if some call was held too late. */
  lemma {:induction false} OverspentIff(total: real, table: PriceTable, moves: seq<Move>)
    requires total >= 0.0 && FreshMoves(total, table, moves)
    ensures Sound(After(total, table, moves).ledger) <==> NoneTooLate(total, table, moves)
    ensures Sound(After(total, table, moves).ledger) <==> Free(After(total, table, moves).ledger) >= 0.0
  {
    BooksWithCallsInFlight(total, table, moves);
    if moves == [] {
      NothingBegun(total, table);
    } else {
      var n := |moves| - 1;
      FreshPrefix(total, table, moves, n);
      BooksWithCallsInFlight(total, table, moves[..n]);
      OverspentIff(total, table, moves[..n]);
      FreeAfter(After(total, table, moves[..n]), table, moves[n]);
      NoneTooLateNext(total, table, moves, n);
    }
  }

  ghost predicate NoneHeld(total: real, table: PriceTable, moves: seq<Move>, from: nat, to: nat)
    requires to <= |moves|
  {
    forall k {:trigger Holds(total, table, moves, k)} :: from <= k < to ==> !Holds(total, table, moves, k)
  }

  predicate OfCall(move: Move, id: Reservation) {
    (move.Check? || move.Hold?) && move.id == id
  }

  /** A call in `checked` has just passed the checks, or did before; only a hold takes its room. */
  lemma StillChecked(w: World, table: PriceTable, move: Move, id: Reservation)
    requires Books(w, table) && IsFresh(w, move) && id in Next(w, table, move).checked
    ensures var n := Next(w, table, move);
            if move.Check? && move.id == id
            then move.call == n.checked[id] && CostOf(table, move.call) <= Free(w.ledger) == Free(n.ledger)
            else id in w.checked && w.checked[id] == n.checked[id] && !(move.Hold? && move.id == id)
                 && (!(move.Hold? && move.id in w.checked) ==> Free(n.ledger) == Free(w.ledger))
  {
    FreeAfter(w, table, move);
  }

  /** The call is still in `checked` after `n` moves, since move `j`; until a call is held, what was free still is. */
  ghost predicate PassedAt(total: real, table: PriceTable, moves: seq<Move>, id: Reservation, j: nat, n: nat)
    requires n <= |moves|
  {
    && j < n && moves[j].Check? && moves[j].id == id
    && (forall k {:trigger OfCall(moves[k], id)} :: j < k < n ==> !OfCall(moves[k], id))
    && var w, room := After(total, table, moves[..n]), Free(After(total, table, moves[..j]).ledger);
    && id in w.checked && w.checked[id] == moves[j].call && CostOf(table, moves[j].call) <= room
    && (NoneHeld(total, table, moves, j + 1, n) ==> Free(w.ledger) == room)
  }

  lemma {:induction false} CheckedSince(total: real, table: PriceTable, moves: seq<Move>, n: nat, id: Reservation)
      returns (j: nat)
    requires FreshMoves(total, table, moves) && n <= |moves| && id in After(total, table, moves[..n]).checked
    ensures PassedAt(total, table, moves, id, j, n)
  {
    assert n > 0 by {
      assert moves[..0] == [];
    }
    AfterNext(total, table, moves, n - 1);
    BooksAt(total, table, moves, n - 1);
    StillChecked(After(total, table, moves[..n - 1]), table, moves[n - 1], id);
    if moves[n - 1].Check? && moves[n - 1].id == id {
      j := n - 1;
    } else {
      j := CheckedSince(total, table, moves, n - 1, id);
      PassedNext(total, table, moves, id, j, n - 1);
    }
  }

  lemma PassedNext(total: real, table: PriceTable, moves: seq<Move>, id: Reservation, j: nat, n: nat)
    requires n < |moves| && PassedAt(total, table, moves, id, j, n) && !OfCall(moves[n], id)
    requires var w, next := After(total, table, moves[..n]), After(total, table, moves[..n + 1]);
             && id in next.checked && next.checked[id] == w.checked[id]
             && (!Holds(total, table, moves, n) ==> Free(next.ledger) == Free(w.ledger))
    ensures PassedAt(total, table, moves, id, j, n + 1)
  {
    if NoneHeld(total, table, moves, j + 1, n + 1) {
      assert !Holds(total, table, moves, n);
      assert NoneHeld(total, table, moves, j + 1, n);
    }
  }

  lemma BooksAt(total: real, table: PriceTable, moves: seq<Move>, n: nat)
    requires FreshMoves(total, table, moves) && n < |moves|
    ensures Books(After(total, table, moves[..n]), table) && IsFresh(After(total, table, moves[..n]), moves[n])
  {
    FreshPrefix(total, table, moves, n);
    BooksWithCallsInFlight(total, table, moves[..n]);
  }

  /** A call is held too late only if another call was held between its check and its own hold. */
  lemma TooLateIsRaced(total: real, table: PriceTable, moves: seq<Move>, i: nat) returns (j: nat, k: nat)
    requires FreshMoves(total, table, moves) && i < |moves| && TooLate(total, table, moves, i)
    ensures j < k < i && moves[j].Check? && moves[j].id == moves[i].id
    ensures Holds(total, table, moves, k) && moves[k].id != moves[i].id && !OfCall(moves[i - 1], moves[i].id)
  {
    j := CheckedSince(total, table, moves, i, moves[i].id);
    assert !NoneHeld(total, table, moves, j + 1, i);
    k :| j + 1 <= k < i && Holds(total, table, moves, k);
    assert !OfCall(moves[k], moves[i].id);
  }

  /** If each check is followed at once by its hold, as with a lock around `reserve`, nothing is ever overspent. */
  lemma BackToBackIsSound(total: real, table: PriceTable, moves: seq<Move>)
    requires total >= 0.0 && FreshMoves(total, table, moves)
    requires forall i :: 0 <= i < |moves| && moves[i].Hold? ==>
               i > 0 && moves[i - 1].Check? && moves[i - 1].id == moves[i].id
    ensures Sound(After(total, table, moves).ledger)
  {
    forall i | 0 <= i < |moves| ensures !TooLate(total, table, moves, i) {
      if TooLate(total, table, moves, i) {
        assert moves[i].Hold? && OfCall(moves[i - 1], moves[i].id);
        var j, k := TooLateIsRaced(total, table, moves, i);
      }
    }
    OverspentIff(total, table, moves);
  }

  // ---------------------------------------------------------------- when the books agree

  ghost predicate Quiet(w: World) {
    w.checked == map[] && w.begun == map[] && w.billed == map[]
  }

  /** The budget is blocked exactly from a block to the next unblock. */
  ghost predicate Frozen(moves: seq<Move>) {
    IsOn(moves, Move.Block, Move.Unblock)
  }

  lemma {:induction false} BlockedIffFrozen(total: real, table: PriceTable, moves: seq<Move>)
    ensures After(total, table, moves).ledger.blocked <==> Frozen(moves)
  {
    if moves != [] {
      var n := |moves| - 1;
      BlockedIffFrozen(total, table, moves[..n]);
      NextBlocked(After(total, table, moves[..n]), table, moves[n]);
      IsOnNext(moves, Move.Block, Move.Unblock, n);
    }
  }

  lemma NextBlocked(w: World, table: PriceTable, move: Move)
    ensures Next(w, table, move).ledger.blocked <==> move.Block? || (w.ledger.blocked && !move.Unblock?)
  {
  }

  /** The ignored result of `consume` matters exactly when the budget is frozen at that moment. */
  lemma ConsumeFailsIff(total: real, table: PriceTable, moves: seq<Move>, id: Reservation)
    requires FreshMoves(total, table, moves) && id in After(total, table, moves).billed
    ensures var w := After(total, table, moves);
            !Charges(w.ledger, id) <==> Frozen(moves)
  {
    BooksWithCallsInFlight(total, table, moves);
    BlockedIffFrozen(total, table, moves);
  }

  /** At move `i` the freeze caught a call between billing and charging. */
  ghost predicate Caught(total: real, table: PriceTable, moves: seq<Move>, i: nat)
    requires i < |moves|
  {
    moves[i].Finish? && moves[i].id in After(total, table, moves[..i]).billed && Frozen(moves[..i])
  }

  ghost predicate NoneCaught(total: real, table: PriceTable, moves: seq<Move>) {
    forall i {:trigger Caught(total, table, moves, i)} :: 0 <= i < |moves| ==> !Caught(total, table, moves, i)
  }

  lemma NoneCaughtNext(total: real, table: PriceTable, moves: seq<Move>, n: nat)
    requires |moves| == n + 1
    ensures NoneCaught(total, table, moves) <==>
            NoneCaught(total, table, moves[..n]) && !Caught(total, table, moves, n)
  {
    var front := moves[..n];
    forall i | 0 <= i < n ensures Caught(total, table, moves, i) <==> Caught(total, table, front, i) {
      assert front[..i] == moves[..i];
    }
    if NoneCaught(total, table, moves) {
      forall i | 0 <= i < n ensures !Caught(total, table, front, i) {
        assert !Caught(total, table, moves, i);
      }
    }
  }

  /** Calls are stuck exactly if one was caught. */
  lemma {:induction false} StuckIffCaught(total: real, table: PriceTable, moves: seq<Move>)
    requires FreshMoves(total, table, moves)
    ensures After(total, table, moves).stuck == map[] <==> NoneCaught(total, table, moves)
  {
    if moves != [] {
      var n := |moves| - 1;
      FreshPrefix(total, table, moves, n);
      StuckIffCaught(total, table, moves[..n]);
      BooksWithCallsInFlight(total, table, moves[..n]);
      StuckGrows(After(total, table, moves[..n]), table, moves[n]);
      BlockedIffFrozen(total, table, moves[..n]);
      NoneCaughtNext(total, table, moves, n);
    }
  }

  lemma StuckGrows(w: World, table: PriceTable, move: Move)
    requires Owned(w, table)
    ensures Next(w, table, move).stuck == map[] <==>
            w.stuck == map[] && !(move.Finish? && move.id in w.billed && w.ledger.blocked)
  {
    if move.Finish? && move.id in w.billed {
      assert move.id in w.ledger.reserved;
      assert move.id in w.stuck[move.id := w.billed[move.id]];
    }
  }

  /**
   When all calls are over, the bill is the budget consumed, exactly if no call was caught by a freeze between billing
   and charging; otherwise it is higher, and the difference stays reserved.
   */
  lemma QuietBooksAgreeIff(total: real, table: PriceTable, moves: seq<Move>)
    requires FreshMoves(total, table, moves) && Quiet(After(total, table, moves))
    ensures var w := After(total, table, moves);
            && (Billed(w.usage) == w.ledger.consumed <==> NoneCaught(total, table, moves))
            && Billed(w.usage) == w.ledger.consumed + Total(w.ledger.reserved)
            && Billed(w.usage) >= w.ledger.consumed
  {
    var w := After(total, table, moves);
    BooksWithCallsInFlight(total, table, moves);
    assert Total<Reservation>(map[]) == 0.0;
    assert w.ledger.reserved == w.stuck;
    PositiveTotal(w.stuck);
    StuckIffCaught(total, table, moves);
  }

  /** One call, frozen between billing and charging: a bill of one, nothing consumed, and one still reserved. */
  lemma FreezeParts(m: Model, id: Reservation)
    ensures var table := map[m := Flat(1.0)];
            var moves := [Check(Call(m, 1000, 0), id), Hold(id), Bill(id), Move.Block, Finish(id)];
            && FreshMoves(10.0, table, moves) && Quiet(After(10.0, table, moves))
            && Caught(10.0, table, moves, 4)
            && Billed(After(10.0, table, moves).usage) > After(10.0, table, moves).ledger.consumed
  {
    var table := map[m := Flat(1.0)];
    var call := Call(m, 1000, 0);
    var moves := [Check(call, id), Hold(id), Bill(id), Move.Block, Finish(id)];
    assert Total<Reservation>(map[]) == 0.0 && CostOf(table, call) == 1.0;
    var w1 := Next(AtFirst(10.0), table, moves[0]);
    assert w1.checked == map[id := call];
    var w2 := Next(w1, table, moves[1]);
    assert w2.ledger.reserved == map[id := 1.0] && w2.begun == map[id := call] && w2.checked == map[];
    var w3 := Next(w2, table, moves[2]);
    assert w3.begun == map[] && w3.billed == map[id := 1.0];
    var w4 := Next(w3, table, moves[3]);
    var w5 := Next(w4, table, moves[4]);
    assert w5.billed == map[];
    FirstMoves(10.0, table, moves, [AtFirst(10.0), w1, w2, w3, w4, w5]);
    BlockedIffFrozen(10.0, table, moves[..4]);
    assert Caught(10.0, table, moves, 4);
    QuietBooksAgreeIff(10.0, table, moves);
  }

  /** Two calls that each cost the whole budget: both pass the checks before either is held, and both are held. */
  lemma TwoCallsOverspend(m: Model, a: Reservation, b: Reservation)
    requires a != b
    ensures var table, call := map[m := Flat(10.0)], Call(m, 1000, 0);
            var moves := [Check(call, a), Check(call, b), Hold(a), Hold(b)];
            && FreshMoves(10.0, table, moves) && TooLate(10.0, table, moves, 3)
            && Total(After(10.0, table, moves).ledger.reserved) == 20.0
  {
    var table, call := map[m := Flat(10.0)], Call(m, 1000, 0);
    var moves := [Check(call, a), Check(call, b), Hold(a), Hold(b)];
    assert Total<Reservation>(map[]) == 0.0 && CostOf(table, call) == 10.0;
    var w1 := Next(AtFirst(10.0), table, moves[0]);
    var w2 := Next(w1, table, moves[1]);
    assert w2.checked == map[a := call, b := call];
    var w3 := Next(w2, table, moves[2]);
    assert w3.checked == map[b := call] && w3.ledger.reserved == map[a := 10.0];
    var w4 := Next(w3, table, moves[3]);
    TotalSet(map[], a, 10.0);
    TotalSet(w3.ledger.reserved, b, 10.0);
    FirstMoves(10.0, table, moves, [AtFirst(10.0), w1, w2, w3, w4]);
  }

  ghost predicate Leads(table: PriceTable, w: World, move: Move, next: World) {
    next == Next(w, table, move) && IsFresh(w, move)
  }

  /** A run follows the worlds that its moves lead through. */
  lemma FirstMoves(total: real, table: PriceTable, moves: seq<Move>, worlds: seq<World>)
    requires |worlds| == |moves| + 1 && worlds[0] == AtFirst(total)
    requires forall k {:trigger moves[k]} :: 0 <= k < |moves| ==> Leads(table, worlds[k], moves[k], worlds[k + 1])
    ensures forall k :: 0 <= k <= |moves| ==> After(total, table, moves[..k]) == worlds[k]
    ensures After(total, table, moves) == worlds[|moves|] && FreshMoves(total, table, moves)
  {
    forall k | 0 <= k <= |moves| ensures After(total, table, moves[..k]) == worlds[k] {
      WorldAt(total, table, moves, worlds, k);
    }
    assert moves[..|moves|] == moves;
    forall k | 0 <= k < |moves| ensures IsFresh(After(total, table, moves[..k]), moves[k]) {
      assert Leads(table, worlds[k], moves[k], worlds[k + 1]);
    }
  }

  lemma {:induction false} WorldAt(total: real, table: PriceTable, moves: seq<Move>, worlds: seq<World>, k: nat)
    requires k <= |moves| && |worlds| == |moves| + 1 && worlds[0] == AtFirst(total)
    requires forall k {:trigger moves[k]} :: 0 <= k < |moves| ==> Leads(table, worlds[k], moves[k], worlds[k + 1])
    ensures After(total, table, moves[..k]) == worlds[k]
  {
    if k == 0 {
      assert moves[..0] == [];
    } else {
      WorldAt(total, table, moves, worlds, k - 1);
      AfterNext(total, table, moves, k - 1);
      assert Leads(table, worlds[k - 1], moves[k - 1], worlds[k]);
    }
  }

  lemma {:induction false} PositiveTotal(m: map<Reservation, real>)
    requires forall id :: id in m ==> m[id] > 0.0
    ensures Total(m) >= 0.0 && (Total(m) == 0.0 <==> m == map[])
    decreases |m|
  {
    if m != map[] {
      var id :| id in m;
      TotalWithout(m, id);
      PositiveTotal(m - {id});
    }
  }
}
