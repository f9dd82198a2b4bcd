/** Rule conditions and the rule engine (backend/rules/engine.py, backend/rules/models.py). */
module Rules {
  import opened Basics
  import opened Records

  // ---- Rule specifications ----

  datatype Field = IntentField | TickerField | ConfidenceField | HorizonField
  datatype Op = Eq | Neq | Gt | Gte | Lt | Lte | In

  // A YAML value
  datatype Value = Text(text: string) | Number(number: real) | Flag(flag: bool) | Many(items: seq<Value>) | Other

  datatype Condition = Condition(field: Field, op: Op, value: Value)

  datatype Action = Action(
    mode: TradingMode, side: OrderSide, orderType: OrderType, quantity: int, limitPrice: Option<real>,
    referencePrice: real, strategyId: string)

  datatype RuleSpec = RuleSpec(id: string, priority: int, enabled: bool, conditions: seq<Condition>, action: Action)

  // The pydantic bounds on a parsed rule
  predicate WellFormed(rule: RuleSpec) {
    rule.conditions != [] && rule.action.quantity > 0 && rule.action.referencePrice > 0.0
  }

  // float(text): None stands for ValueError
  type FloatParser = string -> Option<real>

  // ---- One condition ----

  function IntentText(i: Intent): string {
    match i
    case Bullish => "bullish"
    case Bearish => "bearish"
    case Neutral => "neutral"
    case Noise => "noise"
  }

  function HorizonText(h: TimeHorizon): string {
    match h
    case Intraday => "intraday"
    case Swing => "swing"
    case LongTerm => "long"
  }

  function EventField(event: EventRow, field: Field): Value {
    match field
    case IntentField => Text(IntentText(event.intent))
    case TickerField => Text(event.ticker)
    case ConfidenceField => Number(event.confidence)
    case HorizonField => Text(HorizonText(event.horizon))
  }

  // Python's ==, for an event field on the left
  predicate SameValue(actual: Value, value: Value) {
    match (actual, value)
    case (Text(a), Text(b)) => a == b
    case (Number(a), Number(b)) => a == b
    case (Number(a), Flag(b)) => a == if b then 1.0 else 0.0
    case _ => false
  }

  function ToFloat(value: Value, parse: FloatParser): Option<real> {
    match value
    case Number(x) => Some(x)
    case Flag(b) => Some(if b then 1.0 else 0.0)
    case Text(s) => parse(s)
    case _ => None
  }

  function Compare(op: Op, actual: real, value: real): bool {
    match op
    case Gt => actual > value
    case Gte => actual >= value
    case Lt => actual < value
    case Lte => actual <= value
    case Eq => actual == value
    case Neq => actual != value
    case In => false
  }

  // None: the check raised TypeError or ValueError
  function Check(condition: Condition, event: EventRow, parse: FloatParser): Option<bool> {
    var actual := EventField(event, condition.field);
    match condition.op
    case Eq => Some(SameValue(actual, condition.value))
    case Neq => Some(!SameValue(actual, condition.value))
    case In =>
      if condition.value.Many? then
        Some(exists v :: v in condition.value.items && SameValue(actual, v))
      else None
    case _ =>
      match (ToFloat(actual, parse), ToFloat(condition.value, parse))
      case (Some(x), Some(y)) => Some(Compare(condition.op, x, y))
      case _ => None
  }

  // all(...): the first condition that is false ends the evaluation, also before one that raises
  function AllHold(conditions: seq<Condition>, event: EventRow, parse: FloatParser): Option<bool> {
    if conditions == [] then Some(true)
    else
      match Check(conditions[0], event, parse)
      case None => None
      case Some(false) => Some(false)
      case Some(true) => AllHold(conditions[1..], event, parse)
  }

  predicate Fires(rule: RuleSpec, event: EventRow, parse: FloatParser) {
    rule.enabled && AllHold(rule.conditions, event, parse) == Some(true)
  }

  /** The conditions of a rule hold exactly when every one of them is true. */
  lemma {:induction false} AllHoldIff(conditions: seq<Condition>, event: EventRow, parse: FloatParser)
    ensures AllHold(conditions, event, parse) == Some(true)
       <==> forall c :: c in conditions ==> Check(c, event, parse) == Some(true)
  {
    if conditions != [] {
      assert conditions == [conditions[0]] + conditions[1..];
      AllHoldIff(conditions[1..], event, parse);
    }
  }

  /** They raise exactly when some condition raises and every condition before it is true. */
  lemma {:induction false} AllHoldRaisesIff(conditions: seq<Condition>, event: EventRow, parse: FloatParser)
    ensures AllHold(conditions, event, parse).None?
       <==> exists i :: 0 <= i < |conditions| && Check(conditions[i], event, parse).None?
              && forall j :: 0 <= j < i ==> Check(conditions[j], event, parse) == Some(true)
  {
    if conditions != [] {
      var rest := conditions[1..];
      AllHoldRaisesIff(rest, event, parse);
      if Check(conditions[0], event, parse) == Some(true) {
        if i :| 0 <= i < |rest| && Check(rest[i], event, parse).None?
               && forall j :: 0 <= j < i ==> Check(rest[j], event, parse) == Some(true) {
          assert conditions[i + 1] == rest[i];
          assert forall j :: 0 < j < i + 1 ==> conditions[j] == rest[j - 1];
        }
        if i :| 0 <= i < |conditions| && Check(conditions[i], event, parse).None?
               && forall j :: 0 <= j < i ==> Check(conditions[j], event, parse) == Some(true) {
          assert rest[i - 1] == conditions[i];
          assert forall j :: 0 <= j < i - 1 ==> rest[j] == conditions[j + 1];
        }
      }
    }
  }

  // ---- The engine ----

  // What evaluate() records for one rule
  datatype Record = Record(ruleId: string, priority: int, outcome: RuleOutcome, proposed: Option<ProposedOrder>)

  datatype EngineOutcome = EngineOutcome(matched: Option<Record>, evaluations: seq<Record>)

  function BuildProposedOrder(rule: RuleSpec, event: EventRow): ProposedOrder {
    ProposedOrder(event.eventId, rule.action.strategyId, rule.action.mode, rule.action.side,
                  rule.action.orderType, event.ticker, rule.action.quantity, rule.action.limitPrice,
                  rule.action.referencePrice)
  }

  // key=lambda r: (-r.priority, r.id)
  predicate RuleLe(a: RuleSpec, b: RuleSpec) {
    a.priority > b.priority || (a.priority == b.priority && StringLe(a.id, b.id))
  }

  function Canonical(rules: seq<RuleSpec>): (r: seq<RuleSpec>)
    ensures multiset(r) == multiset(rules)
  {
    Sort(RuleLe, rules)
  }

  lemma RuleLeTotal()
    ensures TotalOrder(RuleLe)
  {
    forall x, y ensures RuleLe(x, y) || RuleLe(y, x) { StringLeTotal(x.id, y.id); }
    forall x, y, z | RuleLe(x, y) && RuleLe(y, z) ensures RuleLe(x, z) {
      if x.priority == y.priority == z.priority { StringLeTrans(x.id, y.id, z.id); }
    }
  }

  function RecordFor(rule: RuleSpec, event: EventRow, parse: FloatParser, alreadyMatched: bool): Record {
    if !rule.enabled then Record(rule.id, rule.priority, Skipped, None)
    else
      match AllHold(rule.conditions, event, parse)
      case None => Record(rule.id, rule.priority, Failed, None)
      case Some(met) =>
        if !alreadyMatched && met then
          Record(rule.id, rule.priority, Matched, Some(BuildProposedOrder(rule, event)))
        else Record(rule.id, rule.priority, Skipped, None)
  }

  function EvaluateInOrder(rules: seq<RuleSpec>, event: EventRow, parse: FloatParser): EngineOutcome {
    if rules == [] then EngineOutcome(None, [])
    else
      var before := EvaluateInOrder(rules[..|rules| - 1], event, parse);
      var record := RecordFor(rules[|rules| - 1], event, parse, before.matched.Some?);
      EngineOutcome(if record.outcome == Matched then Some(record) else before.matched,
                    before.evaluations + [record])
  }

  // RuleEngine(rules).evaluate(event)
  function Evaluate(rules: seq<RuleSpec>, event: EventRow, parse: FloatParser): EngineOutcome {
    EvaluateInOrder(Canonical(rules), event, parse)
  }

  class RuleEngine {
    const rules: seq<RuleSpec>

    constructor (rules: seq<RuleSpec>)
      ensures this.rules == Canonical(rules)
    {
      this.rules := Canonical(rules);
    }

    method Evaluate(event: EventRow, parse: FloatParser) returns (out: EngineOutcome)
      ensures out == EvaluateInOrder(rules, event, parse)
    {
      var records: seq<Record> := [];
      var matched: Option<Record> := None;
      for i := 0 to |rules|
        invariant EngineOutcome(matched, records) == EvaluateInOrder(rules[..i], event, parse)
      {
        assert rules[..i + 1][..i] == rules[..i];
        var rule := rules[i];
        if !rule.enabled {
          records := records + [Record(rule.id, rule.priority, Skipped, None)];
          continue;
        }
        var met := AllHold(rule.conditions, event, parse);
        if met.None? {
          records := records + [Record(rule.id, rule.priority, Failed, None)];
          continue;
        }
        if matched.None? && met.value {
          var record := Record(rule.id, rule.priority, Matched, Some(BuildProposedOrder(rule, event)));
          matched := Some(record);
          records := records + [record];
        } else {
          records := records + [Record(rule.id, rule.priority, Skipped, None)];
        }
      }
      assert rules[..|rules|] == rules;
      return EngineOutcome(matched, records);
    }
  }

  // ---- What the engine promises ----

  // Rule i is the first of a list to fire
  ghost predicate FirstToFire(rules: seq<RuleSpec>, event: EventRow, parse: FloatParser, i: int) {
    0 <= i < |rules| && Fires(rules[i], event, parse) && forall j :: 0 <= j < i ==> !Fires(rules[j], event, parse)
  }

  ghost predicate NoneFires(rules: seq<RuleSpec>, event: EventRow, parse: FloatParser) {
    forall r :: r in rules ==> !Fires(r, event, parse)
  }

  function MatchRecord(rule: RuleSpec, event: EventRow): Record {
    Record(rule.id, rule.priority, Matched, Some(BuildProposedOrder(rule, event)))
  }

  /** First match wins: the match is the first rule to fire, and there is one exactly when some rule fires. */
  lemma {:induction false} FirstMatchWins(rules: seq<RuleSpec>, event: EventRow, parse: FloatParser)
    ensures EvaluateInOrder(rules, event, parse).matched.None? <==> NoneFires(rules, event, parse)
    ensures forall i :: FirstToFire(rules, event, parse, i) ==>
              EvaluateInOrder(rules, event, parse).matched == Some(MatchRecord(rules[i], event))
  {
    if rules != [] {
      var n := |rules| - 1;
      var before := rules[..n];
      assert rules == before + [rules[n]];
      FirstMatchWins(before, event, parse);
      forall i | FirstToFire(rules, event, parse, i)
        ensures EvaluateInOrder(rules, event, parse).matched == Some(MatchRecord(rules[i], event))
      {
        if i < n {
          assert FirstToFire(before, event, parse, i);
        }
      }
    }
  }

  // The outcome each rule gets, whatever the order of evaluation
  function ExpectedOutcome(rule: RuleSpec, event: EventRow, parse: FloatParser, isMatch: bool): RuleOutcome {
    if isMatch then Matched
    else if rule.enabled && AllHold(rule.conditions, event, parse).None? then Failed
    else Skipped
  }

  /** One audit record per rule, in evaluation order; exactly the first rule to fire is MATCHED and
      carries an order, a raising rule is FAILED, every other rule is SKIPPED. */
  lemma {:induction false} OneRecordPerRule(rules: seq<RuleSpec>, event: EventRow, parse: FloatParser, i: nat)
    requires i < |rules|
    ensures |EvaluateInOrder(rules, event, parse).evaluations| == |rules|
    ensures var r := EvaluateInOrder(rules, event, parse).evaluations[i];
            var isMatch := FirstToFire(rules, event, parse, i);
            && r.ruleId == rules[i].id && r.priority == rules[i].priority
            && r.outcome == ExpectedOutcome(rules[i], event, parse, isMatch)
            && r.proposed == if isMatch then Some(BuildProposedOrder(rules[i], event)) else None
  {
    var n := |rules| - 1;
    var before := rules[..n];
    RecordCount(before, event, parse);
    if i < n {
      OneRecordPerRule(before, event, parse, i);
      assert FirstToFire(before, event, parse, i) <==> FirstToFire(rules, event, parse, i);
    } else {
      LastRecord(rules, event, parse);
    }
  }

  lemma LastRecord(rules: seq<RuleSpec>, event: EventRow, parse: FloatParser)
    requires rules != []
    ensures var n := |rules| - 1;
            var alreadyMatched := EvaluateInOrder(rules[..n], event, parse).matched.Some?;
            FirstToFire(rules, event, parse, n) <==> Fires(rules[n], event, parse) && !alreadyMatched
  {
    var n := |rules| - 1;
    var before := rules[..n];
    FirstMatchWins(before, event, parse);
    assert NoneFires(before, event, parse) <==> forall j :: 0 <= j < n ==> !Fires(rules[j], event, parse) by {
      assert forall j :: 0 <= j < n ==> before[j] == rules[j];
    }
  }

  lemma {:induction false} RecordCount(rules: seq<RuleSpec>, event: EventRow, parse: FloatParser)
    ensures |EvaluateInOrder(rules, event, parse).evaluations| == |rules|
  {
    if rules != [] { RecordCount(rules[..|rules| - 1], event, parse); }
  }

  predicate UniqueIds(rules: seq<RuleSpec>) {
    forall a, b :: a in rules && b in rules && a.id == b.id ==> a == b
  }

  lemma UniqueIdsRankApart(rules: seq<RuleSpec>)
    requires UniqueIds(rules)
    ensures RankedApart(RuleLe, rules)
  {
    forall x, y | x in rules && y in rules && RuleLe(x, y) && RuleLe(y, x) ensures x == y {
      StringLeAntisym(x.id, y.id);
    }
  }

  /** The engine's verdict and audit trail do not depend on the order in which rules are supplied. */
  lemma EngineOrderIndependent(rules: seq<RuleSpec>, rules': seq<RuleSpec>, event: EventRow, parse: FloatParser)
    requires multiset(rules) == multiset(rules') && UniqueIds(rules)
    ensures Evaluate(rules, event, parse) == Evaluate(rules', event, parse)
  {
    RuleLeTotal();
    UniqueIdsRankApart(rules);
    SortForgetsOrderIff(RuleLe, rules);
  }

  /** The canonical evaluation order is the same for every order of supply exactly when no two
      different rules share both priority and id. */
  lemma CanonicalOrderIff(rules: seq<RuleSpec>)
    ensures SortForgetsOrder(RuleLe, rules)
       <==> forall a, b :: a in rules && b in rules && a.priority == b.priority && a.id == b.id ==> a == b
  {
    RuleLeTotal();
    SortForgetsOrderIff(RuleLe, rules);
    forall a, b | a in rules && b in rules
      ensures RuleLe(a, b) && RuleLe(b, a) <==> a.priority == b.priority && a.id == b.id
    {
      if RuleLe(a, b) && RuleLe(b, a) { StringLeAntisym(a.id, b.id); }
      StringLeRefl(a.id);
    }
  }

  // The rule that must win: it fires, and no rule that fires ranks before it
  ghost predicate Best(rules: seq<RuleSpec>, event: EventRow, parse: FloatParser, best: RuleSpec) {
    best in rules && Fires(best, event, parse)
    && forall r :: r in rules && Fires(r, event, parse) ==>
         best.priority > r.priority || (best.priority == r.priority && StringLe(best.id, r.id))
  }

  /** The match is the enabled rule with every condition true that comes first by descending
      priority, then id. */
  lemma MatchIsBest(rules: seq<RuleSpec>, event: EventRow, parse: FloatParser, best: RuleSpec)
    requires UniqueIds(rules) && Best(rules, event, parse, best)
    ensures Evaluate(rules, event, parse).matched == Some(MatchRecord(best, event))
  {
    var sorted := Canonical(rules);
    SameMembers(sorted, rules);
    RuleLeTotal();
    SortOrdered(RuleLe, rules);
    UniqueIdsRankApart(rules);
    var i :| 0 <= i < |sorted| && sorted[i] == best;
    var first := FirstIndex(sorted, event, parse, i);
    assert sorted[first] in rules;
    assert RuleLe(best, sorted[first]);
    assert first == i || RuleLe(sorted[first], sorted[i]);
    StringLeRefl(best.id);
    assert sorted[first] == best;
    FirstMatchWins(sorted, event, parse);
  }

  lemma {:induction false} FirstIndex(rules: seq<RuleSpec>, event: EventRow, parse: FloatParser, i: nat) returns (first: nat)
    requires i < |rules| && Fires(rules[i], event, parse)
    ensures first <= i && FirstToFire(rules, event, parse, first)
    decreases i
  {
    if j :| 0 <= j < i && Fires(rules[j], event, parse) {
      first := FirstIndex(rules, event, parse, j);
    } else {
      first := i;
    }
  }

  lemma NoMatchIffNoneFires(rules: seq<RuleSpec>, event: EventRow, parse: FloatParser)
    ensures Evaluate(rules, event, parse).matched.None? <==> NoneFires(rules, event, parse)
  {
    SameMembers(Canonical(rules), rules);
    FirstMatchWins(Canonical(rules), event, parse);
  }

  /** Removing rules that are disabled, do not fire or rank after the winner never changes the match. */
  lemma LosersDoNotMatter(rules: seq<RuleSpec>, kept: seq<RuleSpec>, event: EventRow, parse: FloatParser)
    requires UniqueIds(rules) && forall r :: r in kept ==> r in rules
    requires forall r :: Best(rules, event, parse, r) ==> r in kept
    ensures Evaluate(kept, event, parse).matched == Evaluate(rules, event, parse).matched
  {
    NoMatchIffNoneFires(rules, event, parse);
    NoMatchIffNoneFires(kept, event, parse);
    if !NoneFires(rules, event, parse) {
      var best := BestExists(rules, event, parse);
      assert Best(kept, event, parse, best);
      MatchIsBest(kept, event, parse, best);
    }
  }

  /** With or without unique ids a match is the record of a firing rule that no other firing rule precedes. */
  lemma BestExists(rules: seq<RuleSpec>, event: EventRow, parse: FloatParser) returns (best: RuleSpec)
    requires !NoneFires(rules, event, parse)
    ensures Best(rules, event, parse, best)
    ensures Evaluate(rules, event, parse).matched == Some(MatchRecord(best, event))
  {
    var sorted := Canonical(rules);
    SameMembers(sorted, rules);
    RuleLeTotal();
    SortOrdered(RuleLe, rules);
    var r :| r in rules && Fires(r, event, parse);
    var k :| 0 <= k < |sorted| && sorted[k] == r;
    var i := FirstIndex(sorted, event, parse, k);
    FirstMatchWins(sorted, event, parse);
    best := sorted[i];
    forall other | other in rules && Fires(other, event, parse) ensures RuleLe(best, other) {
      var j :| 0 <= j < |sorted| && sorted[j] == other;
      StringLeRefl(best.id);
    }
  }
}
