/** Reconciling the positions table with the broker (backend/services/positions_sync.py). */
module Positions {
  import opened Basics
  import opened Records

  // ---- The table as values ----

  datatype PositionRow = PositionRow(symbol: string, quantity: int, avgPrice: real, realizedPnl: real)

  datatype SyncReport = SyncReport(inserted: nat, updated: nat, cleared: nat)

  // {p.symbol: p for p in reported}: the last snapshot of a symbol wins, its first place in the list counts
  function Snapshot(reported: seq<BrokerPosition>, symbol: string): (r: Option<BrokerPosition>)
    ensures r.Some? ==> r.value in reported && r.value.symbol == symbol
    ensures r.None? ==> forall p :: p in reported ==> p.symbol != symbol
  {
    if reported == [] then None
    else
      var n := |reported| - 1;
      assert reported == reported[..n] + [reported[n]];
      if reported[n].symbol == symbol then Some(reported[n]) else Snapshot(reported[..n], symbol)
  }

  function Symbols(reported: seq<BrokerPosition>): (r: seq<string>)
    ensures Distinct(r) && forall s :: s in r <==> Snapshot(reported, s).Some?
  {
    if reported == [] then []
    else
      var before := Symbols(reported[..|reported| - 1]);
      var s := reported[|reported| - 1].symbol;
      if s in before then before
      else
        DistinctAppend(before, s);
        before + [s]
  }

  function Reconciled(reported: seq<BrokerPosition>, row: PositionRow): PositionRow {
    match Snapshot(reported, row.symbol)
    case Some(p) => row.(quantity := p.quantity, avgPrice := p.avgPrice)
    case None => row.(quantity := 0)
  }

  function RowSymbols(rows: seq<PositionRow>): (r: seq<string>)
    ensures |r| == |rows| && forall i :: 0 <= i < |rows| ==> r[i] == rows[i].symbol
  {
    Map((row: PositionRow) => row.symbol, rows)
  }

  function NewRows(reported: seq<BrokerPosition>, symbols: seq<string>, known: set<string>): seq<PositionRow>
    requires forall s :: s in symbols ==> Snapshot(reported, s).Some?
  {
    if symbols == [] then []
    else
      var s := symbols[|symbols| - 1];
      assert s in symbols && forall x :: x in symbols[..|symbols| - 1] ==> x in symbols;
      var before := NewRows(reported, symbols[..|symbols| - 1], known);
      var p := Snapshot(reported, s).value;
      if s in known then before else before + [PositionRow(s, p.quantity, p.avgPrice, 0.0)]
  }

  function Known(rows: seq<PositionRow>): set<string> { set s | s in RowSymbols(rows) }

  // The table after a sync: the old rows in place, then the inserted ones
  function Synced(reported: seq<BrokerPosition>, rows: seq<PositionRow>): seq<PositionRow> {
    Map(row => Reconciled(reported, row), rows) + NewRows(reported, Symbols(reported), Known(rows))
  }

  predicate NeedsUpdate(reported: seq<BrokerPosition>, row: PositionRow) {
    Snapshot(reported, row.symbol).Some? && Reconciled(reported, row) != row
  }

  predicate NeedsClear(reported: seq<BrokerPosition>, row: PositionRow) {
    Snapshot(reported, row.symbol).None? && row.quantity != 0
  }

  function UpdatedAt(reported: seq<BrokerPosition>, rows: seq<PositionRow>): set<int> {
    set i | 0 <= i < |rows| && NeedsUpdate(reported, rows[i])
  }

  function ClearedAt(reported: seq<BrokerPosition>, rows: seq<PositionRow>): set<int> {
    set i | 0 <= i < |rows| && NeedsClear(reported, rows[i])
  }

  function Report(reported: seq<BrokerPosition>, rows: seq<PositionRow>): SyncReport {
    SyncReport(|NewRows(reported, Symbols(reported), Known(rows))|, |UpdatedAt(reported, rows)|, |ClearedAt(reported, rows)|)
  }

  // ---- What a sync promises ----

  // The k-th report is the last one of its symbol
  predicate LastOf(reported: seq<BrokerPosition>, k: int) {
    0 <= k < |reported| && forall j :: k < j < |reported| ==> reported[j].symbol != reported[k].symbol
  }

  predicate Reported(reported: seq<BrokerPosition>, symbol: string) {
    exists k :: 0 <= k < |reported| && reported[k].symbol == symbol
  }

  /** The snapshot of a symbol is its last report. */
  lemma {:induction false} SnapshotIsLast(reported: seq<BrokerPosition>, symbol: string)
    ensures Snapshot(reported, symbol).Some? <==> Reported(reported, symbol)
    ensures forall k :: LastOf(reported, k) && reported[k].symbol == symbol ==> Snapshot(reported, symbol) == Some(reported[k])
  {
    if reported != [] {
      var n := |reported| - 1;
      var before := reported[..n];
      SnapshotIsLast(before, symbol);
      forall k | LastOf(reported, k) && reported[k].symbol == symbol ensures Snapshot(reported, symbol) == Some(reported[k]) {
        assert k < n ==> LastOf(before, k) && before[k] == reported[k];
      }
      if k :| 0 <= k < |reported| && reported[k].symbol == symbol {
        assert k < n ==> before[k].symbol == symbol;
      }
    }
  }

  // A report counts the changes from one table to the next: rows added, reported rows whose quantity or price changed,
  // rows no longer reported whose quantity went to zero
  ghost predicate CountsChanges(reported: seq<BrokerPosition>, before: seq<PositionRow>, after: seq<PositionRow>, report: SyncReport)
    requires |before| <= |after|
  {
    && report.inserted == |after| - |before|
    && report.updated == |ChangedReported(reported, before, after)|
    && report.cleared == |WentToZero(reported, before, after)|
  }

  ghost function ChangedReported(reported: seq<BrokerPosition>, before: seq<PositionRow>, after: seq<PositionRow>): set<int>
    requires |before| <= |after|
  {
    set i | 0 <= i < |before| && Reported(reported, before[i].symbol)
            && (after[i].quantity != before[i].quantity || after[i].avgPrice != before[i].avgPrice)
  }

  ghost function WentToZero(reported: seq<BrokerPosition>, before: seq<PositionRow>, after: seq<PositionRow>): set<int>
    requires |before| <= |after|
  {
    set i | 0 <= i < |before| && !Reported(reported, before[i].symbol) && before[i].quantity != 0 && after[i].quantity == 0
  }

  /** The counters of a sync are exactly the changes between the tables before and after it. */
  lemma ReportCounts(reported: seq<BrokerPosition>, rows: seq<PositionRow>)
    ensures CountsChanges(reported, rows, Synced(reported, rows), Report(reported, rows))
  {
    var after := Synced(reported, rows);
    forall i | 0 <= i < |rows|
      ensures after[i] == Reconciled(reported, rows[i])
      ensures Snapshot(reported, rows[i].symbol).Some? <==> Reported(reported, rows[i].symbol)
    {
      SnapshotIsLast(reported, rows[i].symbol);
    }
    assert UpdatedAt(reported, rows) == ChangedReported(reported, rows, after);
    assert ClearedAt(reported, rows) == WentToZero(reported, rows, after);
  }

  lemma {:induction false} NewRowsAre(reported: seq<BrokerPosition>, symbols: seq<string>, known: set<string>)
    requires (forall s :: s in symbols ==> Snapshot(reported, s).Some?) && Distinct(symbols)
    ensures var rows := NewRows(reported, symbols, known);
            && Distinct(RowSymbols(rows))
            && (forall s :: s in RowSymbols(rows) <==> s in symbols && s !in known)
            && (forall r :: r in rows ==>
                  r.symbol in symbols && r.symbol !in known && r.realizedPnl == 0.0 && Reconciled(reported, r) == r)
  {
    if symbols != [] {
      var n := |symbols| - 1;
      assert symbols == symbols[..n] + [symbols[n]];
      DistinctAppend(symbols[..n], symbols[n]);
      NewRowsAre(reported, symbols[..n], known);
      var before := NewRows(reported, symbols[..n], known);
      if symbols[n] !in known {
        var rows := NewRows(reported, symbols, known);
        assert RowSymbols(rows) == RowSymbols(before) + [symbols[n]];
        DistinctAppend(RowSymbols(before), symbols[n]);
      }
    }
  }

  lemma SyncedSymbols(reported: seq<BrokerPosition>, rows: seq<PositionRow>)
    requires Distinct(RowSymbols(rows))
    ensures var symbols := RowSymbols(Synced(reported, rows));
            && Distinct(symbols)
            && (forall s :: s in symbols <==> s in RowSymbols(rows) || Snapshot(reported, s).Some?)
  {
    var added := NewRows(reported, Symbols(reported), Known(rows));
    NewRowsAre(reported, Symbols(reported), Known(rows));
    assert RowSymbols(Synced(reported, rows)) == RowSymbols(rows) + RowSymbols(added);
    DistinctConcat(RowSymbols(rows), RowSymbols(added));
  }

  // A row agrees with the broker's last report of its symbol
  ghost predicate Agrees(reported: seq<BrokerPosition>, row: PositionRow) {
    && (forall k :: LastOf(reported, k) && reported[k].symbol == row.symbol ==>
          row.quantity == reported[k].quantity && row.avgPrice == reported[k].avgPrice)
    && (!Reported(reported, row.symbol) ==> row.quantity == 0)
  }

  lemma SyncedAgrees(reported: seq<BrokerPosition>, rows: seq<PositionRow>, i: nat)
    requires i < |Synced(reported, rows)|
    ensures Agrees(reported, Synced(reported, rows)[i])
  {
    var added := NewRows(reported, Symbols(reported), Known(rows));
    NewRowsAre(reported, Symbols(reported), Known(rows));
    if i >= |rows| {
      assert Synced(reported, rows)[i] == added[i - |rows|] && added[i - |rows|] in added;
    }
    var row := Synced(reported, rows)[i];
    assert Reconciled(reported, row) == row;
    SnapshotIsLast(reported, row.symbol);
  }

  /** After a sync there is one row per symbol; every reported symbol has a row with the broker's last
      snapshot; every other row has quantity 0 and keeps its price; no row is lost and realized P&L is untouched. */
  lemma SyncedIsReconciled(reported: seq<BrokerPosition>, rows: seq<PositionRow>)
    requires Distinct(RowSymbols(rows))
    ensures var after := Synced(reported, rows);
            && Distinct(RowSymbols(after))
            && |rows| <= |after|
            && (forall i :: 0 <= i < |rows| ==>
                  after[i].symbol == rows[i].symbol && after[i].realizedPnl == rows[i].realizedPnl
                  && (!Reported(reported, rows[i].symbol) ==> after[i].avgPrice == rows[i].avgPrice))
            && (forall p :: p in reported ==> p.symbol in RowSymbols(after))
            && (forall i :: 0 <= i < |after| ==> Agrees(reported, after[i]))
  {
    SyncedSymbols(reported, rows);
    forall p | p in reported ensures Snapshot(reported, p.symbol).Some? {}
    forall i | 0 <= i < |rows| ensures Snapshot(reported, rows[i].symbol).Some? <==> Reported(reported, rows[i].symbol) {
      SnapshotIsLast(reported, rows[i].symbol);
    }
    forall i | 0 <= i < |Synced(reported, rows)| ensures Agrees(reported, Synced(reported, rows)[i]) {
      SyncedAgrees(reported, rows, i);
    }
  }

  lemma {:induction false} LastReport(reported: seq<BrokerPosition>, symbol: string) returns (k: nat)
    requires Reported(reported, symbol)
    ensures LastOf(reported, k) && reported[k].symbol == symbol
  {
    var n := |reported| - 1;
    if reported[n].symbol == symbol {
      k := n;
    } else {
      var i :| 0 <= i < |reported| && reported[i].symbol == symbol;
      assert reported[..n][i].symbol == symbol;
      k := LastReport(reported[..n], symbol);
      assert reported[..n][k] == reported[k];
      assert forall j :: k < j < n ==> reported[j] == reported[..n][j];
    }
  }

  lemma AgreesStays(reported: seq<BrokerPosition>, row: PositionRow)
    requires Agrees(reported, row)
    ensures Reconciled(reported, row) == row
  {
    SnapshotIsLast(reported, row.symbol);
    if Reported(reported, row.symbol) {
      var k := LastReport(reported, row.symbol);
    }
  }

  // The broker reports s for the first time before it reports t for the first time
  ghost predicate FirstBefore(reported: seq<BrokerPosition>, s: string, t: string) {
    exists a :: 0 <= a < |reported| && reported[a].symbol == s && forall b :: 0 <= b <= a ==> reported[b].symbol != t
  }

  ghost predicate InReportOrder(reported: seq<BrokerPosition>, symbols: seq<string>) {
    forall i, j :: 0 <= i < j < |symbols| ==> FirstBefore(reported, symbols[i], symbols[j])
  }

  lemma FirstBeforeKept(reported: seq<BrokerPosition>, p: BrokerPosition, s: string, t: string)
    requires FirstBefore(reported, s, t)
    ensures FirstBefore(reported + [p], s, t)
  {
    var a :| 0 <= a < |reported| && reported[a].symbol == s && forall b :: 0 <= b <= a ==> reported[b].symbol != t;
    assert (reported + [p])[a].symbol == s;
  }

  lemma {:induction false} SymbolsInOrder(reported: seq<BrokerPosition>)
    ensures InReportOrder(reported, Symbols(reported))
  {
    if reported != [] {
      var n := |reported| - 1;
      var front, p := reported[..n], reported[n];
      assert reported == front + [p];
      SymbolsInOrder(front);
      var before := Symbols(front);
      forall i, j | 0 <= i < j < |Symbols(reported)| ensures FirstBefore(reported, Symbols(reported)[i], Symbols(reported)[j]) {
        if j < |before| {
          FirstBeforeKept(front, p, before[i], before[j]);
        } else {
          assert before[i] in before;
          var q := Snapshot(front, before[i]).value;
          var a :| 0 <= a < |front| && front[a] == q;
          assert reported[a].symbol == before[i];
        }
      }
    }
  }

  lemma {:induction false} NewRowsInOrder(reported: seq<BrokerPosition>, symbols: seq<string>, known: set<string>)
    requires (forall s :: s in symbols ==> Snapshot(reported, s).Some?) && InReportOrder(reported, symbols) && Distinct(symbols)
    ensures InReportOrder(reported, RowSymbols(NewRows(reported, symbols, known)))
  {
    if symbols != [] {
      var n := |symbols| - 1;
      assert symbols == symbols[..n] + [symbols[n]];
      NewRowsInOrder(reported, symbols[..n], known);
      NewRowsAre(reported, symbols[..n], known);
      var before := NewRows(reported, symbols[..n], known);
      forall i | 0 <= i < |before| ensures FirstBefore(reported, before[i].symbol, symbols[n]) {
        assert RowSymbols(before)[i] in symbols[..n];
      }
    }
  }

  /** New rows are added in the order in which the broker first reports their symbols. */
  lemma AddedInReportOrder(reported: seq<BrokerPosition>, rows: seq<PositionRow>)
    ensures InReportOrder(reported, RowSymbols(Synced(reported, rows)[|rows|..]))
  {
    SymbolsInOrder(reported);
    NewRowsInOrder(reported, Symbols(reported), Known(rows));
    assert Synced(reported, rows)[|rows|..] == NewRows(reported, Symbols(reported), Known(rows));
  }

  /** Syncing again changes nothing and reports (0, 0, 0). */
  lemma SyncIsIdempotent(reported: seq<BrokerPosition>, rows: seq<PositionRow>)
    requires Distinct(RowSymbols(rows))
    ensures var after := Synced(reported, rows);
            Synced(reported, after) == after && Report(reported, after) == SyncReport(0, 0, 0)
  {
    var after := Synced(reported, rows);
    SyncedIsReconciled(reported, rows);
    forall s | s in Symbols(reported) ensures s in Known(after) {
      assert Snapshot(reported, s).value in reported;
    }
    NothingNew(reported, Symbols(reported), Known(after));
    forall i | 0 <= i < |after| ensures Reconciled(reported, after[i]) == after[i] {
      AgreesStays(reported, after[i]);
    }
    assert Map(row => Reconciled(reported, row), after) == after;
    assert UpdatedAt(reported, after) == {} && ClearedAt(reported, after) == {};
  }

  lemma {:induction false} NothingNew(reported: seq<BrokerPosition>, symbols: seq<string>, known: set<string>)
    requires forall s :: s in symbols ==> Snapshot(reported, s).Some? && s in known
    ensures NewRows(reported, symbols, known) == []
  {
    if symbols != [] {
      assert symbols[|symbols| - 1] in symbols;
      assert forall x :: x in symbols[..|symbols| - 1] ==> x in symbols;
      NothingNew(reported, symbols[..|symbols| - 1], known);
    }
  }

  // ---- The two loops, on rows that are updated in place ----

  class Position {
    const symbol: string
    var quantity: int
    var avgPrice: real
    var realizedPnl: real

    constructor (symbol: string, quantity: int, avgPrice: real)
      ensures Row() == PositionRow(symbol, quantity, avgPrice, 0.0)
    {
      this.symbol, this.quantity, this.avgPrice, this.realizedPnl := symbol, quantity, avgPrice, 0.0;
    }

    function Row(): PositionRow
      reads this
    {
      PositionRow(symbol, quantity, avgPrice, realizedPnl)
    }
  }

  // The rows of a table are distinct objects for distinct symbols
  predicate Keyed(table: seq<Position>) {
    forall i, j :: 0 <= i < j < |table| ==> table[i] != table[j] && table[i].symbol != table[j].symbol
  }

  ghost predicate Shows(table: seq<Position>, rows: seq<PositionRow>)
    reads table
  {
    |table| == |rows| && forall i :: 0 <= i < |table| ==> table[i].Row() == rows[i]
  }

  ghost predicate IndexOf(existing: map<string, nat>, table: seq<Position>) {
    && (forall s :: s in existing ==> existing[s] < |table| && table[existing[s]].symbol == s)
    && (forall i :: 0 <= i < |table| ==> table[i].symbol in existing && existing[table[i].symbol] == i)
  }

  // {row.symbol: row for row in table}, as positions in the table
  method Index(table: seq<Position>) returns (existing: map<string, nat>)
    requires Keyed(table)
    ensures IndexOf(existing, table)
  {
    existing := map[];
    for i := 0 to |table|
      invariant forall s :: s in existing ==> existing[s] < i && table[existing[s]].symbol == s
      invariant forall k :: 0 <= k < i ==> table[k].symbol in existing && existing[table[k].symbol] == k
    {
      existing := existing[table[i].symbol := i];
    }
  }

  // Existing rows after the symbols seen so far have been upserted
  ghost predicate Upserted(table: seq<Position>, rows: seq<PositionRow>, reported: seq<BrokerPosition>, seen: seq<string>)
    reads table
  {
    |table| == |rows| && forall i :: 0 <= i < |table| ==>
      table[i].Row() == if rows[i].symbol in seen then Reconciled(reported, rows[i]) else rows[i]
  }

  ghost function Touched(rows: seq<PositionRow>, reported: seq<BrokerPosition>, seen: seq<string>): set<int> {
    set i | 0 <= i < |rows| && rows[i].symbol in seen && NeedsUpdate(reported, rows[i])
  }

  // The state of the first loop after the symbols in seen
  ghost predicate LoopState(table: seq<Position>, rows: seq<PositionRow>, reported: seq<BrokerPosition>, seen: seq<string>,
                            added: seq<Position>, updated: nat)
    requires forall s :: s in seen ==> Snapshot(reported, s).Some?
    reads table, added
  {
    && Upserted(table, rows, reported, seen) && updated == |Touched(rows, reported, seen)|
    && Shows(added, NewRows(reported, seen, Known(rows)))
  }

  /** Upserts every reported position; rows the broker no longer reports go to quantity 0. */
  method SyncPositions(reported: seq<BrokerPosition>, table: seq<Position>, ghost before: seq<PositionRow>)
    returns (report: SyncReport, added: seq<Position>)
    requires Keyed(table) && Shows(table, before)
    modifies table
    ensures fresh(set p | p in added)
    ensures Shows(table + added, Synced(reported, before))
    ensures report == Report(reported, before)
    ensures CountsChanges(reported, before, Synced(reported, before), report)
  {
    ReportCounts(reported, before);
    var updated, cleared;
    added, updated, cleared := SyncRows(reported, table, before);
    report := SyncReport(|added|, updated, cleared);
  }

  method SyncRows(reported: seq<BrokerPosition>, table: seq<Position>, ghost before: seq<PositionRow>)
    returns (added: seq<Position>, updated: nat, cleared: nat)
    requires Keyed(table) && Shows(table, before)
    modifies table
    ensures fresh(set p | p in added)
    ensures Shows(table + added, Synced(reported, before))
    ensures SyncReport(|added|, updated, cleared) == Report(reported, before)
  {
    var symbols := Symbols(reported);
    var existing := Index(table);
    added, updated := UpsertAll(reported, symbols, table, existing, before);
    EveryKnownRowSeen(reported, before);
    cleared := ClearMissing(table, symbols, reported, before);
    TableAfter(table, added, reported, before);
  }

  method UpsertAll(reported: seq<BrokerPosition>, symbols: seq<string>, table: seq<Position>, existing: map<string, nat>,
                   ghost before: seq<PositionRow>)
    returns (added: seq<Position>, updated: nat)
    requires Keyed(table) && Shows(table, before) && IndexOf(existing, table) && symbols == Symbols(reported)
    modifies table
    ensures fresh(set p | p in added)
    ensures LoopState(table, before, reported, symbols, added, updated)
  {
    updated := 0;
    added := [];
    for k := 0 to |symbols|
      invariant fresh(set p | p in added)
      invariant LoopState(table, before, reported, symbols[..k], added, updated)
    {
      added, updated := Upsert(reported, symbols[..k], symbols[k], table, existing, added, updated, before);
      assert symbols[..k + 1] == symbols[..k] + [symbols[k]];
    }
    assert symbols[..|symbols|] == symbols;
  }

  method Upsert(reported: seq<BrokerPosition>, ghost seen: seq<string>, symbol: string, table: seq<Position>,
                existing: map<string, nat>, added: seq<Position>, updated: nat, ghost before: seq<PositionRow>)
    returns (added': seq<Position>, updated': nat)
    requires Keyed(table) && IndexOf(existing, table)
    requires symbol !in seen && forall s :: s in seen + [symbol] ==> Snapshot(reported, s).Some?
    requires LoopState(table, before, reported, seen, added, updated)
    requires forall p :: p in added ==> p !in table
    modifies table
    ensures forall p :: p in added' ==> p in added || fresh(p)
    ensures LoopState(table, before, reported, seen + [symbol], added', updated')
  {
    assert symbol in seen + [symbol];
    var snapshot := Snapshot(reported, symbol).value;
    added', updated' := added, updated;
    NewRowsStep(reported, seen, symbol, Known(before));
    if symbol !in existing {
      UnknownSymbol(table, before, seen, symbol, reported);
      added' := InsertRow(added, snapshot, NewRows(reported, seen, Known(before)));
    } else {
      var i := existing[symbol];
      KnownSymbol(table, before, i);
      updated' := UpdateKnown(table, i, snapshot, reported, seen, added, updated, before);
    }
  }

  lemma NewRowsStep(reported: seq<BrokerPosition>, seen: seq<string>, symbol: string, known: set<string>)
    requires Snapshot(reported, symbol).Some? && forall s :: s in seen ==> Snapshot(reported, s).Some?
    ensures forall s :: s in seen + [symbol] ==> Snapshot(reported, s).Some?
    ensures var p := Snapshot(reported, symbol).value;
            NewRows(reported, seen + [symbol], known) ==
              NewRows(reported, seen, known) + if symbol in known then [] else [PositionRow(symbol, p.quantity, p.avgPrice, 0.0)]
  {
    assert (seen + [symbol])[..|seen|] == seen;
  }

  method InsertRow(added: seq<Position>, snapshot: BrokerPosition, ghost rows: seq<PositionRow>)
    returns (added': seq<Position>)
    requires Shows(added, rows)
    ensures forall p :: p in added' ==> p in added || fresh(p)
    ensures Shows(added', rows + [PositionRow(snapshot.symbol, snapshot.quantity, snapshot.avgPrice, 0.0)])
  {
    var row := new Position(snapshot.symbol, snapshot.quantity, snapshot.avgPrice);
    added' := added + [row];
  }

  lemma EveryKnownRowSeen(reported: seq<BrokerPosition>, rows: seq<PositionRow>)
    ensures Touched(rows, reported, Symbols(reported)) == UpdatedAt(reported, rows)
  {
  }

  lemma TableAfter(table: seq<Position>, added: seq<Position>, reported: seq<BrokerPosition>, rows: seq<PositionRow>)
    requires |table| == |rows| && forall i :: 0 <= i < |table| ==> table[i].Row() == Reconciled(reported, rows[i])
    requires Shows(added, NewRows(reported, Symbols(reported), Known(rows)))
    ensures Shows(table + added, Synced(reported, rows))
  {
  }

  lemma KnownSymbol(table: seq<Position>, rows: seq<PositionRow>, i: nat)
    requires i < |rows| == |table| && table[i].symbol == rows[i].symbol
    ensures table[i].symbol in Known(rows) && table[i] in table
  {
    assert RowSymbols(rows)[i] == rows[i].symbol;
  }

  method UpdateKnown(table: seq<Position>, i: nat, snapshot: BrokerPosition, reported: seq<BrokerPosition>, ghost seen: seq<string>,
                     ghost added: seq<Position>, updated: nat, ghost before: seq<PositionRow>)
    returns (updated': nat)
    requires Keyed(table) && i < |table| && Snapshot(reported, table[i].symbol) == Some(snapshot) && table[i].symbol !in seen
    requires Upserted(table, before, reported, seen) && updated == |Touched(before, reported, seen)|
    requires forall p :: p in added ==> p != table[i]
    modifies table[i]
    ensures Upserted(table, before, reported, seen + [table[i].symbol])
    ensures updated' == |Touched(before, reported, seen + [table[i].symbol])|
    ensures forall p :: p in added ==> p.Row() == old(p.Row())
  {
    var changed := UpdateRow(table, i, snapshot, reported, seen, before);
    updated' := updated + if changed then 1 else 0;
  }

  lemma UnknownSymbol(table: seq<Position>, rows: seq<PositionRow>, seen: seq<string>, symbol: string, reported: seq<BrokerPosition>)
    requires |rows| == |table| && forall i :: 0 <= i < |rows| ==> rows[i].symbol == table[i].symbol != symbol
    ensures symbol !in Known(rows) && Touched(rows, reported, seen + [symbol]) == Touched(rows, reported, seen)
    ensures forall i :: 0 <= i < |rows| ==> (rows[i].symbol in seen + [symbol] <==> rows[i].symbol in seen)
  {
  }

  method UpdateRow(table: seq<Position>, i: nat, snapshot: BrokerPosition, reported: seq<BrokerPosition>,
                   ghost seen: seq<string>, ghost before: seq<PositionRow>)
    returns (changed: bool)
    requires Keyed(table) && i < |table| && Upserted(table, before, reported, seen)
    requires Snapshot(reported, table[i].symbol) == Some(snapshot) && table[i].symbol !in seen
    modifies table[i]
    ensures Upserted(table, before, reported, seen + [table[i].symbol])
    ensures |Touched(before, reported, seen + [table[i].symbol])| == |Touched(before, reported, seen)| + if changed then 1 else 0
  {
    assert forall j :: 0 <= j < |table| ==> before[j].symbol == table[j].symbol;
    var row := table[i];
    changed := row.quantity != snapshot.quantity || row.avgPrice != snapshot.avgPrice;
    if changed {
      row.quantity := snapshot.quantity;
      row.avgPrice := snapshot.avgPrice;
    }
    assert Touched(before, reported, seen + [table[i].symbol]) == Touched(before, reported, seen) + if changed then {i} else {};
  }

  ghost predicate ClearedUpTo(table: seq<Position>, rows: seq<PositionRow>, reported: seq<BrokerPosition>, k: nat)
    requires k <= |table| == |rows|
    reads table
  {
    && (forall i :: 0 <= i < k ==> table[i].Row() == Reconciled(reported, rows[i]))
    && (forall i :: k <= i < |table| ==>
          table[i].Row() == if rows[i].symbol in Symbols(reported) then Reconciled(reported, rows[i]) else rows[i])
  }

  method ClearMissing(table: seq<Position>, symbols: seq<string>, reported: seq<BrokerPosition>, ghost before: seq<PositionRow>)
    returns (cleared: nat)
    requires Keyed(table) && symbols == Symbols(reported) && Upserted(table, before, reported, symbols)
    modifies table
    ensures forall i :: 0 <= i < |table| ==> table[i].Row() == Reconciled(reported, before[i])
    ensures cleared == |ClearedAt(reported, before)|
  {
    cleared := 0;
    for k := 0 to |table|
      invariant ClearedUpTo(table, before, reported, k) && cleared == |ClearedAt(reported, before[..k])|
    {
      ClearedAtStep(reported, before, k);
      var changed := ClearRow(table, k, symbols, reported, before);
      cleared := cleared + if changed then 1 else 0;
    }
    assert before[..|table|] == before;
  }

  lemma ClearedAtStep(reported: seq<BrokerPosition>, rows: seq<PositionRow>, k: nat)
    requires k < |rows|
    ensures |ClearedAt(reported, rows[..k + 1])| == |ClearedAt(reported, rows[..k])| + if NeedsClear(reported, rows[k]) then 1 else 0
  {
    assert ClearedAt(reported, rows[..k + 1]) == ClearedAt(reported, rows[..k]) + if NeedsClear(reported, rows[k]) then {k as int} else {};
  }

  method ClearRow(table: seq<Position>, k: nat, symbols: seq<string>, reported: seq<BrokerPosition>, ghost before: seq<PositionRow>)
    returns (changed: bool)
    requires Keyed(table) && k < |table| == |before| && symbols == Symbols(reported)
    requires ClearedUpTo(table, before, reported, k)
    modifies table[k]
    ensures ClearedUpTo(table, before, reported, k + 1)
    ensures changed <==> NeedsClear(reported, before[k])
  {
    var row := table[k];
    assert row.Row() == table[k].Row() && row.symbol == before[k].symbol;
    changed := row.symbol !in symbols && row.quantity != 0;
    if changed {
      row.quantity := 0;
    }
    assert table[k].Row() == Reconciled(reported, before[k]);
  }
}
