/** What a condition says about the fields of an event, stated without the evaluator
    (backend/rules/engine.py, `_check`). */
module Conditions {
  import opened Basics
  import opened Records
  import opened Rules

  // The texts under which intents and horizons are stored (backend/models/enums.py)
  ghost predicate IntentIs(i: Intent, text: string) {
    (i.Bullish? && text == "bullish") || (i.Bearish? && text == "bearish")
    || (i.Neutral? && text == "neutral") || (i.Noise? && text == "noise")
  }

  ghost predicate HorizonIs(h: TimeHorizon, text: string) {
    (h.Intraday? && text == "intraday") || (h.Swing? && text == "swing") || (h.LongTerm? && text == "long")
  }

  // The text of a text column
  ghost predicate TextIs(e: EventRow, field: Field, text: string) {
    match field
    case IntentField => IntentIs(e.intent, text)
    case TickerField => e.ticker == text
    case HorizonField => HorizonIs(e.horizon, text)
    case ConfidenceField => false
  }

  // A YAML scalar that Python turns into a number by float(...): a number, a Boolean, or a numeral
  ghost predicate FloatIs(v: Value, parse: FloatParser, x: real) {
    v == Number(x) || (v == Flag(true) && x == 1.0) || (v == Flag(false) && x == 0.0)
    || (v.Text? && parse(v.text) == Some(x))
  }

  // A YAML scalar that equals a number: 0.6 == 0.6, and True == 1.0
  ghost predicate EqualsNumber(v: Value, x: real) {
    v == Number(x) || (v == Flag(true) && x == 1.0) || (v == Flag(false) && x == 0.0)
  }

  // The event's field equals the value
  ghost predicate FieldEquals(e: EventRow, field: Field, v: Value) {
    if field.ConfidenceField? then EqualsNumber(v, e.confidence)
    else v.Text? && TextIs(e, field, v.text)
  }

  // The number float(...) makes of the event's field
  ghost predicate FieldFloat(e: EventRow, field: Field, parse: FloatParser, x: real) {
    if field.ConfidenceField? then x == e.confidence
    else exists text :: TextIs(e, field, text) && parse(text) == Some(x)
  }

  lemma TextOfField(e: EventRow, field: Field)
    requires !field.ConfidenceField?
    ensures EventField(e, field).Text? && TextIs(e, field, EventField(e, field).text)
    ensures forall text :: TextIs(e, field, text) ==> text == EventField(e, field).text
  {
  }

  lemma SameValueIff(e: EventRow, field: Field, v: Value)
    ensures SameValue(EventField(e, field), v) <==> FieldEquals(e, field, v)
  {
    if !field.ConfidenceField? { TextOfField(e, field); }
  }

  /** eq and neq never raise; eq holds exactly when field and value are equal, neq exactly when they are not. */
  lemma EqualityMeans(e: EventRow, field: Field, v: Value, parse: FloatParser)
    ensures Check(Condition(field, Eq, v), e, parse) == Some(FieldEquals(e, field, v))
    ensures Check(Condition(field, Neq, v), e, parse) == Some(!FieldEquals(e, field, v))
  {
    SameValueIff(e, field, v);
  }

  /** in raises exactly when the value is not a list, and holds exactly when some item equals the field. */
  lemma MembershipMeans(e: EventRow, field: Field, v: Value, parse: FloatParser)
    ensures Check(Condition(field, In, v), e, parse).None? <==> !v.Many?
    ensures v.Many? ==>
      Check(Condition(field, In, v), e, parse) == Some(exists i :: 0 <= i < |v.items| && FieldEquals(e, field, v.items[i]))
  {
    if v.Many? {
      forall x | x in v.items ensures SameValue(EventField(e, field), x) <==> FieldEquals(e, field, x) {
        SameValueIff(e, field, x);
      }
      if i :| 0 <= i < |v.items| && FieldEquals(e, field, v.items[i]) {
        assert v.items[i] in v.items;
      }
    }
  }

  predicate Ordering(op: Op) { op.Gt? || op.Gte? || op.Lt? || op.Lte? }

  lemma FloatOfValue(v: Value, parse: FloatParser, x: real)
    ensures ToFloat(v, parse) == Some(x) <==> FloatIs(v, parse, x)
  {
  }

  lemma FloatOfField(e: EventRow, field: Field, parse: FloatParser, x: real)
    ensures ToFloat(EventField(e, field), parse) == Some(x) <==> FieldFloat(e, field, parse, x)
  {
    if !field.ConfidenceField? { TextOfField(e, field); }
  }

  /** The four orderings compare numbers: with x for the field and y for the value, gt holds exactly when x > y, and
      so on. They raise exactly when one side is no number. */
  lemma OrderingMeans(e: EventRow, field: Field, v: Value, parse: FloatParser, x: real, y: real)
    requires FieldFloat(e, field, parse, x) && FloatIs(v, parse, y)
    ensures Check(Condition(field, Gt, v), e, parse) == Some(x > y)
    ensures Check(Condition(field, Gte, v), e, parse) == Some(x >= y)
    ensures Check(Condition(field, Lt, v), e, parse) == Some(x < y)
    ensures Check(Condition(field, Lte, v), e, parse) == Some(x <= y)
  {
    FloatOfField(e, field, parse, x);
    FloatOfValue(v, parse, y);
  }

  lemma OrderingRaisesIff(e: EventRow, field: Field, op: Op, v: Value, parse: FloatParser)
    requires Ordering(op)
    ensures Check(Condition(field, op, v), e, parse).None? <==>
              !((exists x :: FieldFloat(e, field, parse, x)) && (exists y :: FloatIs(v, parse, y)))
  {
    var fx, fy := ToFloat(EventField(e, field), parse), ToFloat(v, parse);
    if fx.Some? { FloatOfField(e, field, parse, fx.value); }
    if fy.Some? { FloatOfValue(v, parse, fy.value); }
    if x :| FieldFloat(e, field, parse, x) { FloatOfField(e, field, parse, x); }
    if y :| FloatIs(v, parse, y) { FloatOfValue(v, parse, y); }
  }

  /** A threshold on the confidence means what it says, whatever float(...) does to texts. */
  lemma ConfidenceThreshold(e: EventRow, t: real, parse: FloatParser)
    ensures Check(Condition(ConfidenceField, Gte, Number(t)), e, parse) == Some(e.confidence >= t)
    ensures Check(Condition(ConfidenceField, Gt, Number(t)), e, parse) == Some(e.confidence > t)
    ensures Check(Condition(ConfidenceField, Lte, Number(t)), e, parse) == Some(e.confidence <= t)
    ensures Check(Condition(ConfidenceField, Lt, Number(t)), e, parse) == Some(e.confidence < t)
  {
    OrderingMeans(e, ConfidenceField, Number(t), parse, e.confidence, t);
  }

  // ---- The rule shipped with the repository (rules/example_bullish_swing.yaml) ----

  const ShippedRule := RuleSpec("example_bullish_swing", 100, true,
    [Condition(IntentField, Eq, Text("bullish")),
     Condition(ConfidenceField, Gte, Number(0.6)),
     Condition(HorizonField, In, Many([Text("intraday"), Text("swing")]))],
    Action(Paper, Buy, OrderType.Market, 1, None, 100.0, "example_bullish_swing"))

  /** It fires exactly on bullish events of confidence 0.6 or more with an intraday or swing horizon. */
  lemma ShippedRuleFiresIff(e: EventRow, parse: FloatParser)
    ensures Fires(ShippedRule, e, parse) <==> e.intent.Bullish? && e.confidence >= 0.6 && (e.horizon.Intraday? || e.horizon.Swing?)
  {
    EqualityMeans(e, IntentField, Text("bullish"), parse);
    ConfidenceThreshold(e, 0.6, parse);
    HorizonMembership(e, parse);
    AllHoldIff(ShippedRule.conditions, e, parse);
    assert ShippedRule.conditions[0] == Condition(IntentField, Eq, Text("bullish"));
    assert ShippedRule.conditions[1] == Condition(ConfidenceField, Gte, Number(0.6));
    assert ShippedRule.conditions[2] == Condition(HorizonField, In, Many([Text("intraday"), Text("swing")]));
  }

  /** Alone in the store it matches exactly those events, and then asks for one share at the market, on paper. */
  lemma ShippedRuleMatchesIff(e: EventRow, parse: FloatParser)
    ensures var matched := Evaluate([ShippedRule], e, parse).matched;
            && (matched.Some? <==> e.intent.Bullish? && e.confidence >= 0.6 && (e.horizon.Intraday? || e.horizon.Swing?))
            && (matched.Some? ==> matched.value.proposed == Some(ProposedOrder(
                  e.eventId, "example_bullish_swing", Paper, Buy, OrderType.Market, e.ticker, 1, None, 100.0)))
  {
    ShippedRuleFiresIff(e, parse);
    NoMatchIffNoneFires([ShippedRule], e, parse);
    if Fires(ShippedRule, e, parse) {
      var best := BestExists([ShippedRule], e, parse);
      assert best == ShippedRule;
    } else {
      assert NoneFires([ShippedRule], e, parse);
    }
  }

  lemma HorizonMembership(e: EventRow, parse: FloatParser)
    ensures Check(Condition(HorizonField, In, Many([Text("intraday"), Text("swing")])), e, parse)
         == Some(e.horizon.Intraday? || e.horizon.Swing?)
  {
    var v := Many([Text("intraday"), Text("swing")]);
    MembershipMeans(e, HorizonField, v, parse);
    assert v.items[0] == Text("intraday") && v.items[1] == Text("swing");
    assert FieldEquals(e, HorizonField, v.items[0]) <==> e.horizon.Intraday?;
    assert FieldEquals(e, HorizonField, v.items[1]) <==> e.horizon.Swing?;
  }
}
