/** The trade_journal view (alembic/versions/20260426_0900_trade_journal_view.py): a four-way left join, and
    what it conserves in every reachable state. */
module Journal {
  import opened Basics
  import opened Records
  import opened Risk
  import opened Protocol
  import opened Integrity

  // ---- The view, as rows of ids; None is SQL's NULL ----

  datatype JournalRow = JournalRow(event: int, tweet: Option<int>, decision: Option<int>, order: Option<int>, fill: Option<int>)

  // The ids among 1..n that meet a join condition, in order
  function Select(n: nat, on: int -> bool): seq<int> {
    if n == 0 then [] else Select(n - 1, on) + if on(n) then [n] else []
  }

  // One side of a LEFT JOIN: the matches, or one NULL
  function LeftJoin(ids: seq<int>): seq<Option<int>> {
    if ids == [] then [None] else Map((id: int) => Some(id), ids)
  }

  function TweetsOn(db: Db, e: EventRow): seq<int> { Select(|db.tweets|, id => id == e.rawTweetId) }

  function DecisionsOn(db: Db, e: EventRow): seq<int> { Select(|db.decisions|, id => id == e.decisionId) }

  function OrderOn(orders: seq<OrderRow>, eventId: string): int -> bool {
    id => 1 <= id <= |orders| && orders[id - 1].order.eventId == eventId
  }

  function FillOn(fills: seq<FillRow>, order: int): int -> bool {
    id => 1 <= id <= |fills| && fills[id - 1].orderId == order
  }

  function OrdersOn(db: Db, eventId: string): seq<int> { Select(|db.orders|, OrderOn(db.orders, eventId)) }

  function FillsOn(db: Db, order: int): seq<int> { Select(|db.fills|, FillOn(db.fills, order)) }

  // f.order_id = o.id never holds for a NULL order
  function JoinFills(db: Db, row: JournalRow): seq<JournalRow> {
    match row.order
    case None => [row]
    case Some(o) => Map((f: Option<int>) => row.(fill := f), LeftJoin(FillsOn(db, o)))
  }

  function JoinAllFills(db: Db, rows: seq<JournalRow>): seq<JournalRow> {
    if rows == [] then [] else JoinAllFills(db, rows[..|rows| - 1]) + JoinFills(db, rows[|rows| - 1])
  }

  function JoinOrders(db: Db, eventId: string, rows: seq<JournalRow>): seq<JournalRow> {
    if rows == [] then []
    else
      JoinOrders(db, eventId, rows[..|rows| - 1])
        + Map((o: Option<int>) => rows[|rows| - 1].(order := o), LeftJoin(OrdersOn(db, eventId)))
  }

  function JoinDecisions(db: Db, e: EventRow, rows: seq<JournalRow>): seq<JournalRow> {
    if rows == [] then []
    else
      JoinDecisions(db, e, rows[..|rows| - 1])
        + Map((d: Option<int>) => rows[|rows| - 1].(decision := d), LeftJoin(DecisionsOn(db, e)))
  }

  function JoinTweets(db: Db, id: int, e: EventRow): seq<JournalRow> {
    Map((t: Option<int>) => JournalRow(id, t, None, None, None), LeftJoin(TweetsOn(db, e)))
  }

  function EventJournal(db: Db, id: int): seq<JournalRow>
    requires 1 <= id <= |db.events|
  {
    var e := db.events[id - 1];
    JoinAllFills(db, JoinOrders(db, e.eventId, JoinDecisions(db, e, JoinTweets(db, id, e))))
  }

  function Concat(n: nat, f: int -> seq<JournalRow>): seq<JournalRow> {
    if n == 0 then [] else Concat(n - 1, f) + f(n)
  }

  function JournalOf(db: Db): int -> seq<JournalRow> {
    id => if 1 <= id <= |db.events| then EventJournal(db, id) else []
  }

  function TradeJournal(db: Db): seq<JournalRow> { Concat(|db.events|, JournalOf(db)) }

  // ---- Sums over ids ----

  function Sum(n: nat, f: int -> real): real {
    if n == 0 then 0.0 else Sum(n - 1, f) + f(n)
  }

  lemma {:induction false} SumSame(n: nat, f: int -> real, g: int -> real)
    requires forall i :: 1 <= i <= n ==> f(i) == g(i)
    ensures Sum(n, f) == Sum(n, g)
  {
    if n > 0 { SumSame(n - 1, f, g); }
  }

  lemma {:induction false} SumAdd(n: nat, f: int -> real, g: int -> real, h: int -> real)
    requires forall i :: 1 <= i <= n ==> h(i) == f(i) + g(i)
    ensures Sum(n, h) == Sum(n, f) + Sum(n, g)
  {
    if n > 0 { SumAdd(n - 1, f, g, h); }
  }

  lemma {:induction false} SumPoint(n: nat, f: int -> real, k: int, x: real)
    requires forall i :: 1 <= i <= n ==> f(i) == if i == k then x else 0.0
    ensures Sum(n, f) == if 1 <= k <= n then x else 0.0
  {
    if n > 0 { SumPoint(n - 1, f, k, x); }
  }

  function Only(on: int -> bool, w: int -> real): int -> real {
    i => if on(i) then w(i) else 0.0
  }

  // The ids 1..n that a map sends to k
  function Fibre(g: int -> int, k: int): int -> bool {
    i => g(i) == k
  }

  function FibreSum(n: nat, g: int -> int, w: int -> real): int -> real {
    k => Sum(n, Only(Fibre(g, k), w))
  }

  /** Adding up group by group gives the whole sum when every id belongs to one of the groups 1..m. */
  lemma {:induction false} SumByGroups(n: nat, m: nat, g: int -> int, w: int -> real)
    requires forall i :: 1 <= i <= n ==> 1 <= g(i) <= m
    ensures Sum(m, FibreSum(n, g, w)) == Sum(n, w)
  {
    if n == 0 {
      SumPoint(m, FibreSum(0, g, w), 0, 0.0);
    } else {
      SumByGroups(n - 1, m, g, w);
      var last: int -> real := k => if k == g(n) then w(n) else 0.0;
      SumPoint(m, last, g(n), w(n));
      SumAdd(m, FibreSum(n - 1, g, w), last, FibreSum(n, g, w));
    }
  }

  function ListSum(ids: seq<int>, w: int -> real): real {
    if ids == [] then 0.0 else ListSum(ids[..|ids| - 1], w) + w(ids[|ids| - 1])
  }

  lemma ListSumAppend(ids: seq<int>, id: int, w: int -> real)
    ensures ListSum(ids + [id], w) == ListSum(ids, w) + w(id)
  {
    assert (ids + [id])[..|ids|] == ids;
  }

  lemma {:induction false} SelectSum(n: nat, on: int -> bool, w: int -> real)
    ensures ListSum(Select(n, on), w) == Sum(n, Only(on, w))
  {
    if n > 0 {
      SelectSum(n - 1, on, w);
      if on(n) {
        ListSumAppend(Select(n - 1, on), n, w);
      } else {
        assert Select(n - 1, on) + [] == Select(n - 1, on);
      }
    }
  }

  // ---- Weighing the journal by its fills ----

  function Weight(row: JournalRow, w: int -> real): real {
    if row.fill.Some? then w(row.fill.value) else 0.0
  }

  function RowSum(rows: seq<JournalRow>, w: int -> real): real {
    if rows == [] then 0.0 else RowSum(rows[..|rows| - 1], w) + Weight(rows[|rows| - 1], w)
  }

  lemma {:induction false} RowSumConcat(a: seq<JournalRow>, b: seq<JournalRow>, w: int -> real)
    ensures RowSum(a + b, w) == RowSum(a, w) + RowSum(b, w)
  {
    if b == [] {
      assert a + b == a;
    } else {
      assert (a + b)[..|a + b| - 1] == a + b[..|b| - 1];
      RowSumConcat(a, b[..|b| - 1], w);
    }
  }

  function WithFills(row: JournalRow, ids: seq<int>): seq<JournalRow> {
    Map((f: Option<int>) => row.(fill := f), Map((id: int) => Some(id), ids))
  }

  lemma {:induction false} WithFillsSum(row: JournalRow, ids: seq<int>, w: int -> real)
    ensures RowSum(WithFills(row, ids), w) == ListSum(ids, w)
  {
    if ids != [] {
      var n := |ids| - 1;
      WithFillsSum(row, ids[..n], w);
      assert WithFills(row, ids)[..n] == WithFills(row, ids[..n]);
    }
  }

  // The weight of the fills of an order, and of the orders of an event
  function OrderWeight(db: Db, w: int -> real): int -> real {
    o => ListSum(FillsOn(db, o), w)
  }

  function EventWeight(db: Db, w: int -> real): int -> real {
    e => if 1 <= e <= |db.events| then ListSum(OrdersOn(db, db.events[e - 1].eventId), OrderWeight(db, w)) else 0.0
  }

  lemma JoinFillsSum(db: Db, row: JournalRow, w: int -> real)
    requires row.fill.None?
    ensures RowSum(JoinFills(db, row), w) == if row.order.Some? then OrderWeight(db, w)(row.order.value) else 0.0
  {
    var rows := JoinFills(db, row);
    if row.order.Some? && FillsOn(db, row.order.value) != [] {
      assert rows == WithFills(row, FillsOn(db, row.order.value));
      WithFillsSum(row, FillsOn(db, row.order.value), w);
    } else {
      assert rows == [row];
      assert RowSum([], w) == 0.0;
    }
  }

  function WithOrders(row: JournalRow, ids: seq<int>): seq<JournalRow> {
    Map((o: Option<int>) => row.(order := o), Map((id: int) => Some(id), ids))
  }

  lemma {:induction false} WithOrdersSum(db: Db, row: JournalRow, ids: seq<int>, w: int -> real)
    requires row.fill.None?
    ensures RowSum(JoinAllFills(db, WithOrders(row, ids)), w) == ListSum(ids, OrderWeight(db, w))
  {
    if ids != [] {
      var n := |ids| - 1;
      var rows := WithOrders(row, ids);
      WithOrdersSum(db, row, ids[..n], w);
      assert rows[..n] == WithOrders(row, ids[..n]);
      JoinFillsSum(db, rows[n], w);
      RowSumConcat(JoinAllFills(db, rows[..n]), JoinFills(db, rows[n]), w);
    }
  }

  // ---- In sound tables every event joins one tweet and one decision ----

  lemma {:induction false} SelectOne(n: nat, k: int)
    ensures Select(n, id => id == k) == if 1 <= k <= n then [k] else []
  {
    if n > 0 { SelectOne(n - 1, k); }
  }

  // The only row that joining tweet and decision gives for an event
  function BaseRow(db: Db, id: int): JournalRow
    requires 1 <= id <= |db.events|
  {
    JournalRow(id, Some(db.events[id - 1].rawTweetId), Some(db.events[id - 1].decisionId), None, None)
  }

  function OrderSlots(db: Db, id: int): seq<JournalRow>
    requires 1 <= id <= |db.events|
  {
    Map((o: Option<int>) => BaseRow(db, id).(order := o), LeftJoin(OrdersOn(db, db.events[id - 1].eventId)))
  }

  predicate JoinsOne(db: Db, id: int)
    requires 1 <= id <= |db.events|
  {
    var e := db.events[id - 1];
    1 <= e.rawTweetId <= |db.tweets| && 1 <= e.decisionId <= |db.decisions|
  }

  predicate AllJoinOne(db: Db) {
    forall id :: 1 <= id <= |db.events| ==> JoinsOne(db, id)
  }

  lemma SoundJoins(db: Db)
    requires SoundTables(db)
    ensures AllJoinOne(db)
  {
    forall id | 1 <= id <= |db.events| ensures JoinsOne(db, id) {
      assert db.events[id - 1] in db.events;
      assert EventOk(db.tweets, db.decisions, db.events[id - 1]);
    }
  }

  lemma TweetsShape(db: Db, id: int)
    requires 1 <= id <= |db.events| && JoinsOne(db, id)
    ensures var e := db.events[id - 1];
            JoinTweets(db, id, e) == [JournalRow(id, Some(e.rawTweetId), None, None, None)]
  {
    SelectOne(|db.tweets|, db.events[id - 1].rawTweetId);
  }

  lemma DecisionsShape(db: Db, id: int)
    requires 1 <= id <= |db.events| && JoinsOne(db, id)
    ensures var e := db.events[id - 1];
            JoinDecisions(db, e, [JournalRow(id, Some(e.rawTweetId), None, None, None)]) == [BaseRow(db, id)]
  {
    var e := db.events[id - 1];
    var row := JournalRow(id, Some(e.rawTweetId), None, None, None);
    SelectOne(|db.decisions|, e.decisionId);
    assert [row][..0] == [] && JoinDecisions(db, e, []) == [];
  }

  lemma OneRowOrders(db: Db, id: int)
    requires 1 <= id <= |db.events|
    ensures JoinOrders(db, db.events[id - 1].eventId, [BaseRow(db, id)]) == OrderSlots(db, id)
  {
    assert [BaseRow(db, id)][..0] == [] && JoinOrders(db, db.events[id - 1].eventId, []) == [];
  }

  lemma EventJournalShape(db: Db, id: int)
    requires 1 <= id <= |db.events| && JoinsOne(db, id)
    ensures EventJournal(db, id) == JoinAllFills(db, OrderSlots(db, id))
  {
    TweetsShape(db, id);
    DecisionsShape(db, id);
    OneRowOrders(db, id);
  }

  lemma NoOrdersShape(db: Db, id: int)
    requires 1 <= id <= |db.events| && OrdersOn(db, db.events[id - 1].eventId) == []
    ensures JoinAllFills(db, OrderSlots(db, id)) == [BaseRow(db, id)]
  {
    var row := BaseRow(db, id);
    assert OrderSlots(db, id) == [row];
    assert JoinAllFills(db, []) == [] && [row][..0] == [];
  }

  lemma OrdersShape(db: Db, id: int)
    requires 1 <= id <= |db.events| && OrdersOn(db, db.events[id - 1].eventId) != []
    ensures OrderSlots(db, id) == WithOrders(BaseRow(db, id), OrdersOn(db, db.events[id - 1].eventId))
  {
  }

  lemma SlotsSum(db: Db, id: int, w: int -> real)
    requires 1 <= id <= |db.events|
    ensures RowSum(JoinAllFills(db, OrderSlots(db, id)), w)
         == ListSum(OrdersOn(db, db.events[id - 1].eventId), OrderWeight(db, w))
  {
    var ids := OrdersOn(db, db.events[id - 1].eventId);
    if ids == [] {
      NoOrdersShape(db, id);
      assert [BaseRow(db, id)][..0] == [] && RowSum([], w) == 0.0;
    } else {
      OrdersShape(db, id);
      WithOrdersSum(db, BaseRow(db, id), ids, w);
    }
  }

  lemma SlotsWeight(db: Db, id: int, w: int -> real)
    requires 1 <= id <= |db.events|
    ensures RowSum(JoinAllFills(db, OrderSlots(db, id)), w) == EventWeight(db, w)(id)
  {
    assert EventWeight(db, w)(id) == ListSum(OrdersOn(db, db.events[id - 1].eventId), OrderWeight(db, w));
    SlotsSum(db, id, w);
  }

  lemma EventJournalSum(db: Db, id: int, w: int -> real)
    requires 1 <= id <= |db.events| && JoinsOne(db, id)
    ensures RowSum(EventJournal(db, id), w) == EventWeight(db, w)(id)
  {
    EventJournalShape(db, id);
    SlotsWeight(db, id, w);
  }

  lemma {:induction false} ConcatSum(n: nat, f: int -> seq<JournalRow>, w: int -> real, g: int -> real)
    requires forall i :: 1 <= i <= n ==> RowSum(f(i), w) == g(i)
    ensures RowSum(Concat(n, f), w) == Sum(n, g)
  {
    if n > 0 {
      ConcatSum(n - 1, f, w, g);
      RowSumConcat(Concat(n - 1, f), f(n), w);
    }
  }

  lemma JournalSum(db: Db, w: int -> real)
    requires AllJoinOne(db)
    ensures RowSum(TradeJournal(db), w) == Sum(|db.events|, EventWeight(db, w))
  {
    forall i | 1 <= i <= |db.events| ensures RowSum(JournalOf(db)(i), w) == EventWeight(db, w)(i) {
      assert JoinsOne(db, i);
      EventJournalSum(db, i, w);
    }
    ConcatSum(|db.events|, JournalOf(db), w, EventWeight(db, w));
  }

  // ---- Every fill belongs to one order, every order to one event ----

  function OrderOfFill(db: Db): int -> int {
    f => if 1 <= f <= |db.fills| then db.fills[f - 1].orderId else 0
  }

  // The position of an event id in the events table
  function Position(ids: seq<string>, id: string): (p: int)
    ensures 0 <= p <= |ids|
    ensures p > 0 ==> ids[p - 1] == id
    ensures id in ids ==> p > 0
  {
    if ids == [] then 0
    else if ids[|ids| - 1] == id then |ids|
    else
      assert ids == ids[..|ids| - 1] + [ids[|ids| - 1]];
      Position(ids[..|ids| - 1], id)
  }

  function EventOfOrder(db: Db): int -> int {
    o => if 1 <= o <= |db.orders| then Position(EventIds(db.events), db.orders[o - 1].order.eventId) else 0
  }

  lemma OrderWeightIsFibre(db: Db, w: int -> real, o: int)
    requires 1 <= o
    ensures OrderWeight(db, w)(o) == FibreSum(|db.fills|, OrderOfFill(db), w)(o)
  {
    SelectSum(|db.fills|, FillOn(db.fills, o), w);
    SumSame(|db.fills|, Only(FillOn(db.fills, o), w), Only(Fibre(OrderOfFill(db), o), w));
  }

  lemma EventOrdersAreFibre(db: Db, e: int, o: int)
    requires Distinct(EventIds(db.events)) && 1 <= e <= |db.events| && 1 <= o <= |db.orders|
    ensures OrderOn(db.orders, db.events[e - 1].eventId)(o) <==> EventOfOrder(db)(o) == e
  {
    var ids := EventIds(db.events);
    var p := Position(ids, db.orders[o - 1].order.eventId);
    assert EventOfOrder(db)(o) == p;
    assert ids[e - 1] in ids;
  }

  lemma EventWeightIsFibre(db: Db, w: int -> real, e: int)
    requires Distinct(EventIds(db.events)) && 1 <= e <= |db.events|
    ensures EventWeight(db, w)(e) == FibreSum(|db.orders|, EventOfOrder(db), OrderWeight(db, w))(e)
  {
    var on, g, ow := OrderOn(db.orders, db.events[e - 1].eventId), EventOfOrder(db), OrderWeight(db, w);
    SelectSum(|db.orders|, on, ow);
    forall o | 1 <= o <= |db.orders| ensures Only(on, ow)(o) == Only(Fibre(g, e), ow)(o) {
      EventOrdersAreFibre(db, e, o);
    }
    SumSame(|db.orders|, Only(on, ow), Only(Fibre(g, e), ow));
    assert EventWeight(db, w)(e) == ListSum(OrdersOn(db, db.events[e - 1].eventId), ow);
    assert FibreSum(|db.orders|, g, ow)(e) == Sum(|db.orders|, Only(Fibre(g, e), ow));
  }

  /** Conservation: whatever quantity is attached to fills, summing it over the journal rows gives the sum over
      the fills table. */
  lemma JournalConserves(db: Db, w: int -> real)
    requires SoundTables(db)
    ensures RowSum(TradeJournal(db), w) == Sum(|db.fills|, w)
  {
    SoundJoins(db);
    JournalSum(db, w);
    var ow := OrderWeight(db, w);
    forall e | 1 <= e <= |db.events| ensures EventWeight(db, w)(e) == FibreSum(|db.orders|, EventOfOrder(db), ow)(e) {
      EventWeightIsFibre(db, w, e);
    }
    SumSame(|db.events|, EventWeight(db, w), FibreSum(|db.orders|, EventOfOrder(db), ow));
    OrdersHaveEvents(db);
    SumByGroups(|db.orders|, |db.events|, EventOfOrder(db), ow);
    forall o | 1 <= o <= |db.orders| ensures ow(o) == FibreSum(|db.fills|, OrderOfFill(db), w)(o) {
      OrderWeightIsFibre(db, w, o);
    }
    SumSame(|db.orders|, ow, FibreSum(|db.fills|, OrderOfFill(db), w));
    FillsHaveOrders(db);
    SumByGroups(|db.fills|, |db.orders|, OrderOfFill(db), w);
  }

  lemma OrdersHaveEvents(db: Db)
    requires SoundTables(db)
    ensures forall o :: 1 <= o <= |db.orders| ==> 1 <= EventOfOrder(db)(o) <= |db.events|
  {
    forall o | 1 <= o <= |db.orders| ensures 1 <= EventOfOrder(db)(o) <= |db.events| {
      assert db.orders[o - 1] in db.orders;
      assert OrderOk(db.events, db.orders[o - 1]);
      assert EventOfOrder(db)(o) == Position(EventIds(db.events), db.orders[o - 1].order.eventId);
    }
  }

  lemma FillsHaveOrders(db: Db)
    requires SoundTables(db)
    ensures forall f :: 1 <= f <= |db.fills| ==> 1 <= OrderOfFill(db)(f) <= |db.orders|
  {
    forall f | 1 <= f <= |db.fills| ensures 1 <= OrderOfFill(db)(f) <= |db.orders| {
      assert db.fills[f - 1] in db.fills;
    }
  }

  // ---- Row count ----

  function AtLeastOne(n: nat): nat { if n == 0 then 1 else n }

  // Rows that the orders of a list take: one each, or one per fill
  function Slots(db: Db, orders: seq<int>): nat {
    if orders == [] then 0
    else Slots(db, orders[..|orders| - 1]) + AtLeastOne(|FillsOn(db, orders[|orders| - 1])|)
  }

  function CountSum(n: nat, h: int -> nat): nat {
    if n == 0 then 0 else CountSum(n - 1, h) + h(n)
  }

  // max(1, the sum over its orders of max(1, fills)) for an event
  function RowsFor(db: Db): int -> nat {
    id => if 1 <= id <= |db.events| then AtLeastOne(Slots(db, OrdersOn(db, db.events[id - 1].eventId))) else 0
  }

  lemma {:induction false} WithOrdersRows(db: Db, row: JournalRow, ids: seq<int>)
    ensures |JoinAllFills(db, WithOrders(row, ids))| == Slots(db, ids)
    ensures ids != [] ==> Slots(db, ids) > 0
  {
    if ids != [] {
      var n := |ids| - 1;
      WithOrdersRows(db, row, ids[..n]);
      assert WithOrders(row, ids)[..n] == WithOrders(row, ids[..n]);
    }
  }

  lemma SlotsCount(db: Db, id: int)
    requires 1 <= id <= |db.events|
    ensures |JoinAllFills(db, OrderSlots(db, id))| == AtLeastOne(Slots(db, OrdersOn(db, db.events[id - 1].eventId)))
  {
    var ids := OrdersOn(db, db.events[id - 1].eventId);
    if ids == [] {
      NoOrdersShape(db, id);
    } else {
      OrdersShape(db, id);
      WithOrdersRows(db, BaseRow(db, id), ids);
    }
  }

  lemma EventJournalCount(db: Db, id: int)
    requires 1 <= id <= |db.events| && JoinsOne(db, id)
    ensures |EventJournal(db, id)| == AtLeastOne(Slots(db, OrdersOn(db, db.events[id - 1].eventId)))
  {
    EventJournalShape(db, id);
    SlotsCount(db, id);
  }

  lemma {:induction false} ConcatCount(n: nat, f: int -> seq<JournalRow>, h: int -> nat)
    requires forall i :: 1 <= i <= n ==> |f(i)| == h(i)
    ensures |Concat(n, f)| == CountSum(n, h)
  {
    if n > 0 { ConcatCount(n - 1, f, h); }
  }

  lemma JournalCount(db: Db)
    requires AllJoinOne(db)
    ensures |TradeJournal(db)| == CountSum(|db.events|, RowsFor(db))
  {
    forall i | 1 <= i <= |db.events| ensures |JournalOf(db)(i)| == RowsFor(db)(i) {
      assert JoinsOne(db, i);
      JournalOfCount(db, i);
    }
    ConcatCount(|db.events|, JournalOf(db), RowsFor(db));
  }

  lemma JournalOfCount(db: Db, id: int)
    requires 1 <= id <= |db.events| && JoinsOne(db, id)
    ensures |JournalOf(db)(id)| == RowsFor(db)(id)
  {
    assert RowsFor(db)(id) == AtLeastOne(Slots(db, OrdersOn(db, db.events[id - 1].eventId)));
    EventJournalCount(db, id);
  }

  // ---- Every row tells one story ----

  // The row's fill belongs to its order, its order to its event, and its event to its decision and tweet
  predicate Traced(db: Db, row: JournalRow) {
    && 1 <= row.event <= |db.events|
    && row.tweet == Some(db.events[row.event - 1].rawTweetId)
    && row.decision == Some(db.events[row.event - 1].decisionId)
    && (row.order.Some? ==> OrderOn(db.orders, db.events[row.event - 1].eventId)(row.order.value))
    && (row.fill.Some? ==> row.order.Some? && FillOn(db.fills, row.order.value)(row.fill.value))
  }

  // The same, by the columns of the tables
  predicate Linked(db: Db, row: JournalRow) {
    && 1 <= row.event <= |db.events|
    && var e := db.events[row.event - 1];
       && row.tweet == Some(e.rawTweetId) && row.decision == Some(e.decisionId)
       && (row.order.Some? ==> 1 <= row.order.value <= |db.orders| && db.orders[row.order.value - 1].order.eventId == e.eventId)
       && (row.fill.Some? ==>
             row.order.Some? && 1 <= row.fill.value <= |db.fills| && db.fills[row.fill.value - 1].orderId == row.order.value)
  }

  lemma TracedIsLinked(db: Db, row: JournalRow)
    requires Traced(db, row)
    ensures Linked(db, row)
  {
  }

  predicate AllTraced(db: Db, rows: seq<JournalRow>) {
    forall r :: r in rows ==> Traced(db, r)
  }

  lemma {:induction false} SelectHolds(n: nat, on: int -> bool)
    ensures forall id :: id in Select(n, on) ==> on(id)
  {
    if n > 0 { SelectHolds(n - 1, on); }
  }

  lemma JoinFillsTraced(db: Db, row: JournalRow)
    requires Traced(db, row)
    ensures AllTraced(db, JoinFills(db, row))
  {
    if row.order.Some? { SelectHolds(|db.fills|, FillOn(db.fills, row.order.value)); }
  }

  lemma {:induction false} JoinAllFillsTraced(db: Db, rows: seq<JournalRow>)
    requires AllTraced(db, rows)
    ensures AllTraced(db, JoinAllFills(db, rows))
  {
    if rows != [] {
      JoinAllFillsTraced(db, rows[..|rows| - 1]);
      JoinFillsTraced(db, rows[|rows| - 1]);
    }
  }

  lemma SlotsTraced(db: Db, id: int)
    requires 1 <= id <= |db.events|
    ensures AllTraced(db, OrderSlots(db, id))
  {
    SelectHolds(|db.orders|, OrderOn(db.orders, db.events[id - 1].eventId));
  }

  lemma EventJournalTraced(db: Db, id: int)
    requires 1 <= id <= |db.events| && JoinsOne(db, id)
    ensures AllTraced(db, EventJournal(db, id))
  {
    EventJournalShape(db, id);
    SlotsTraced(db, id);
    JoinAllFillsTraced(db, OrderSlots(db, id));
  }

  lemma {:induction false} ConcatTraced(db: Db, n: nat, f: int -> seq<JournalRow>)
    requires forall i :: 1 <= i <= n ==> AllTraced(db, f(i))
    ensures AllTraced(db, Concat(n, f))
  {
    if n > 0 { ConcatTraced(db, n - 1, f); }
  }

  lemma JournalTraced(db: Db)
    requires AllJoinOne(db)
    ensures AllTraced(db, TradeJournal(db))
  {
    forall i | 1 <= i <= |db.events| ensures AllTraced(db, JournalOf(db)(i)) {
      assert JoinsOne(db, i);
      EventJournalTraced(db, i);
    }
    ConcatTraced(db, |db.events|, JournalOf(db));
  }

  // ---- Main results ----

  function Commission(db: Db): int -> real {
    f => if 1 <= f <= |db.fills| then db.fills[f - 1].commission else 0.0
  }

  function Appearances(rows: seq<JournalRow>, fill: int): nat {
    if rows == [] then 0
    else Appearances(rows[..|rows| - 1], fill) + if rows[|rows| - 1].fill == Some(fill) then 1 else 0
  }

  lemma {:induction false} AppearancesAreWeight(rows: seq<JournalRow>, fill: int)
    ensures RowSum(rows, i => if i == fill then 1.0 else 0.0) == Appearances(rows, fill) as real
  {
    if rows != [] { AppearancesAreWeight(rows[..|rows| - 1], fill); }
  }

  /** In every reachable state each journal row traces its fill to its order, event, decision and tweet; each
      fill is in exactly one row; the journal has the expected number of rows; and the commissions over the
      journal are those of the fills table. */
  lemma JournalIsFaithful(c: Config, s: Sys, fill: int)
    requires Reachable(c, s)
    ensures forall r :: r in TradeJournal(s.db) ==> Linked(s.db, r)
    ensures 1 <= fill <= |s.db.fills| ==> Appearances(TradeJournal(s.db), fill) == 1
    ensures |TradeJournal(s.db)| == CountSum(|s.db.events|, RowsFor(s.db))
    ensures RowSum(TradeJournal(s.db), Commission(s.db)) == Sum(|s.db.fills|, Commission(s.db))
  {
    ReachableTablesSound(c, s);
    JournalConserves(s.db, Commission(s.db));
    SoundJoins(s.db);
    JournalCount(s.db);
    JournalTraced(s.db);
    forall r | r in TradeJournal(s.db) ensures Linked(s.db, r) { TracedIsLinked(s.db, r); }
    var one: int -> real := i => if i == fill then 1.0 else 0.0;
    JournalConserves(s.db, one);
    SumPoint(|s.db.fills|, one, fill, 1.0);
    AppearancesAreWeight(TradeJournal(s.db), fill);
  }
}
