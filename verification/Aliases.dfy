/** Mention to ticker resolution (backend/services/aliases.py). */
module Aliases {
  import opened Basics
  import opened Records

  // ---- Text clean-up, on ASCII letters and white space ----

  function LowerChar(c: char): char {
    if 'A' <= c <= 'Z' then (c as int + 32) as char else c
  }

  function UpperChar(c: char): char {
    if 'a' <= c <= 'z' then (c as int - 32) as char else c
  }

  function Lower(s: string): string { Map(LowerChar, s) }

  function Upper(s: string): string { Map(UpperChar, s) }

  predicate IsSpace(c: char) {
    9 <= c as int <= 13 || 28 <= c as int <= 32
  }

  function StripLeft(s: string, drop: char -> bool): string {
    if s != [] && drop(s[0]) then StripLeft(s[1..], drop) else s
  }

  function StripRight(s: string, drop: char -> bool): string {
    if s != [] && drop(s[|s| - 1]) then StripRight(s[..|s| - 1], drop) else s
  }

  function Strip(s: string): string { StripRight(StripLeft(s, IsSpace), IsSpace) }

  // mention.lstrip("$").strip()
  function Bare(mention: string): string { Strip(StripLeft(mention, c => c == '$')) }

  function Normalize(mention: string): string { Lower(Bare(mention)) }

  predicate LooksLikeTicker(mention: string) {
    var candidate := Upper(Bare(mention));
    1 <= |candidate| <= 5 && forall i :: 0 <= i < |candidate| ==> 'A' <= candidate[i] <= 'Z'
  }

  // ---- The rows the query returns, and the row that is kept for a key ----

  predicate Wanted(mentions: seq<string>, row: AliasRow) {
    exists m :: m in mentions && Strip(m) != "" && Normalize(m) == Lower(row.mention)
  }

  function Fetched(mentions: seq<string>, table: seq<AliasRow>): seq<AliasRow> {
    if table == [] then []
    else
      var before := Fetched(mentions, table[..|table| - 1]);
      var row := table[|table| - 1];
      if Wanted(mentions, row) then before + [row] else before
  }

  // Ties on priority compare first letters only; an empty ticker outranks every letter.
  function TieRank(ticker: string): int {
    if ticker != "" then -(ticker[0] as int) else 0
  }

  predicate Beats(a: AliasRow, b: AliasRow) {
    a.priority > b.priority || (a.priority == b.priority && TieRank(a.ticker) > TieRank(b.ticker))
  }

  predicate ForKey(row: AliasRow, key: string) {
    Normalize(row.mention) == key
  }

  function Chosen(rows: seq<AliasRow>, key: string): (r: Option<AliasRow>)
    ensures r.Some? <==> exists i :: 0 <= i < |rows| && ForKey(rows[i], key)
  {
    if rows == [] then None
    else
      var row := rows[|rows| - 1];
      var best := Chosen(rows[..|rows| - 1], key);
      assert forall i :: 0 <= i < |rows| - 1 ==> rows[..|rows| - 1][i] == rows[i];
      if ForKey(row, key) && (best.None? || Beats(row, best.value)) then Some(row) else best
  }

  function ResolveOne(mention: string, rows: seq<AliasRow>): Option<string> {
    match Chosen(rows, Normalize(mention))
    case Some(row) => Some(Upper(row.ticker))
    case None => if LooksLikeTicker(mention) then Some(Upper(Bare(mention))) else None
  }

  function ResolveEach(mentions: seq<string>, rows: seq<AliasRow>): (r: seq<string>)
    ensures forall x :: x in r <==> exists m :: m in mentions && ResolveOne(m, rows) == Some(x)
  {
    if mentions == [] then []
    else
      var rest := ResolveEach(mentions[..|mentions| - 1], rows);
      var m := mentions[|mentions| - 1];
      assert mentions == mentions[..|mentions| - 1] + [m];
      match ResolveOne(m, rows)
      case Some(x) => rest + [x]
      case None => rest
  }

  function ResolveTickers(mentions: seq<string>, table: seq<AliasRow>): (r: seq<string>)
    ensures StrictlySorted(r)
  {
    SortDistinct(ResolveEach(mentions, Fetched(mentions, table)))
  }

  // ---- The loop over the fetched rows and the mentions ----

  method SortedSet(s: set<string>) returns (r: seq<string>)
    ensures StrictlySorted(r)
    ensures forall x :: x in r <==> x in s
  {
    r := [];
    var left := s;
    while left != {}
      invariant left <= s && StrictlySorted(r)
      invariant forall x :: x in r <==> x in s - left
      decreases left
    {
      var x :| x in left;
      r := InsertDistinct(x, r);
      left := left - {x};
    }
  }

  // One pass over the fetched rows keeps the best row of each normalized mention
  method GroupRows(rows: seq<AliasRow>) returns (grouped: map<string, AliasRow>)
    ensures forall k :: k in grouped <==> Chosen(rows, k).Some?
    ensures forall k :: k in grouped ==> Chosen(rows, k) == Some(grouped[k])
  {
    grouped := map[];
    for i := 0 to |rows|
      invariant forall k :: k in grouped <==> Chosen(rows[..i], k).Some?
      invariant forall k :: k in grouped ==> Chosen(rows[..i], k) == Some(grouped[k])
    {
      assert rows[..i + 1][..i] == rows[..i] && rows[..i + 1][i] == rows[i];
      var key := Normalize(rows[i].mention);
      if key !in grouped || Beats(rows[i], grouped[key]) {
        grouped := grouped[key := rows[i]];
      }
    }
    assert rows[..|rows|] == rows;
  }

  method ResolveTickersLoop(mentions: seq<string>, table: seq<AliasRow>) returns (r: seq<string>)
    ensures r == ResolveTickers(mentions, table)
    ensures StrictlySorted(r) && forall x :: x in r <==> exists m :: m in mentions && Yields(mentions, table, m, x)
  {
    ResolvedIff(mentions, table);
    if mentions == [] {
      return [];
    }
    var rows := Fetched(mentions, table);
    var grouped := GroupRows(rows);
    var resolved: set<string> := {};
    for i := 0 to |mentions|
      invariant forall x :: x in resolved <==> x in ResolveEach(mentions[..i], rows)
    {
      ResolveEachStep(mentions, i, rows);
      var key := Normalize(mentions[i]);
      if key in grouped {
        resolved := resolved + {Upper(grouped[key].ticker)};
      } else if LooksLikeTicker(mentions[i]) {
        resolved := resolved + {Upper(Bare(mentions[i]))};
      }
    }
    assert mentions[..|mentions|] == mentions;
    r := SortedSet(resolved);
    StrictlySortedUnique(r, ResolveTickers(mentions, table));
  }

  lemma ResolveEachStep(mentions: seq<string>, i: nat, rows: seq<AliasRow>)
    requires i < |mentions|
    ensures ResolveEach(mentions[..i + 1], rows) == ResolveEach(mentions[..i], rows) +
              match ResolveOne(mentions[i], rows) case Some(x) => [x] case None => []
  {
    assert mentions[..i + 1][..i] == mentions[..i];
  }

  // ---- What the chosen row is ----

  // Row i is the first row of the highest rank for the key
  ghost predicate FirstBest(rows: seq<AliasRow>, key: string, i: int) {
    && 0 <= i < |rows| && ForKey(rows[i], key)
    && (forall j :: 0 <= j < |rows| && ForKey(rows[j], key) ==> !Beats(rows[j], rows[i]))
    && (forall j :: 0 <= j < i && ForKey(rows[j], key) ==> Beats(rows[i], rows[j]))
  }

  lemma {:induction false} ChosenIsFirstBest(rows: seq<AliasRow>, key: string) returns (i: int)
    requires Chosen(rows, key).Some?
    ensures FirstBest(rows, key, i) && Chosen(rows, key) == Some(rows[i])
  {
    var n := |rows| - 1;
    var before := rows[..n];
    assert rows == before + [rows[n]];
    if ForKey(rows[n], key) && (Chosen(before, key).None? || Beats(rows[n], Chosen(before, key).value)) {
      i := n;
      if Chosen(before, key).Some? {
        var b := ChosenIsFirstBest(before, key);
        NewBest(before, rows[n], key, b);
      } else {
        OnlyRow(before, rows[n], key);
      }
    } else {
      i := ChosenIsFirstBest(before, key);
      FirstBestStays(before, rows[n], key, i);
    }
  }

  // A row that beats the best one is the new best one
  lemma NewBest(rows: seq<AliasRow>, row: AliasRow, key: string, b: int)
    requires FirstBest(rows, key, b) && ForKey(row, key) && Beats(row, rows[b])
    ensures FirstBest(rows + [row], key, |rows|)
  {
    var more := rows + [row];
    assert more[|rows|] == row;
    forall j | 0 <= j < |rows| && ForKey(more[j], key) ensures Beats(row, more[j]) {
      assert more[j] == rows[j] && !Beats(rows[j], rows[b]);
    }
  }

  // The first row of a key is the best one
  lemma OnlyRow(rows: seq<AliasRow>, row: AliasRow, key: string)
    requires Chosen(rows, key).None? && ForKey(row, key)
    ensures FirstBest(rows + [row], key, |rows|)
  {
    var more := rows + [row];
    assert more[|rows|] == row;
    forall j | 0 <= j < |rows| ensures !ForKey(more[j], key) {
      assert more[j] == rows[j];
    }
  }

  // A row that does not beat the best one changes nothing
  lemma FirstBestStays(rows: seq<AliasRow>, row: AliasRow, key: string, i: int)
    requires FirstBest(rows, key, i) && (ForKey(row, key) ==> !Beats(row, rows[i]))
    ensures FirstBest(rows + [row], key, i)
  {
    var more := rows + [row];
    assert forall j :: 0 <= j < |rows| ==> more[j] == rows[j];
  }

  lemma FirstBestChosen(rows: seq<AliasRow>, key: string, i: int)
    requires FirstBest(rows, key, i)
    ensures Chosen(rows, key) == Some(rows[i])
  {
    var j := ChosenIsFirstBest(rows, key);
  }

  // ---- What a resolution means, without the functions that compute it ----

  const Whitespace := " \t\n\U{0b}\U{0c}\r\U{1c}\U{1d}\U{1e}\U{1f}"

  lemma SpaceIff(c: char)
    ensures IsSpace(c) <==> c in Whitespace
  {
    assert Whitespace[0] == ' ' && Whitespace[1] == '\t' && Whitespace[2] == '\n' && Whitespace[5] == '\r';
    assert Whitespace[3] as int == 11 && Whitespace[4] as int == 12;
    assert Whitespace[6] as int == 28 && Whitespace[7] as int == 29 && Whitespace[8] as int == 30 && Whitespace[9] as int == 31;
    if IsSpace(c) {
      var k := if c == ' ' then 0 else if c as int == 9 then 1 else if c as int == 10 then 2 else if c as int == 13 then 5
               else if c as int <= 12 then c as int - 8 else c as int - 22;
      assert Whitespace[k] == c;
    }
  }

  lemma {:induction false} StripLeftIs(s: string, drop: char -> bool) returns (k: nat)
    ensures k <= |s| && StripLeft(s, drop) == s[k..]
    ensures (forall i :: 0 <= i < k ==> drop(s[i])) && (k < |s| ==> !drop(s[k]))
  {
    k := 0;
    if s != [] && drop(s[0]) {
      k := StripLeftIs(s[1..], drop);
      k := k + 1;
    }
  }

  lemma {:induction false} StripRightIs(s: string, drop: char -> bool) returns (k: nat)
    ensures k <= |s| && StripRight(s, drop) == s[..k]
    ensures (forall i :: k <= i < |s| ==> drop(s[i])) && (k > 0 ==> !drop(s[k - 1]))
  {
    k := |s|;
    if s != [] && drop(s[|s| - 1]) {
      k := StripRightIs(s[..|s| - 1], drop);
      assert s[..|s| - 1][..k] == s[..k];
    }
  }

  /** The bare mention is what is left between a run of dollar signs with the white space after it, and the white
      space at the end. */
  lemma BareIs(m: string) returns (a: nat, b: nat, c: nat)
    ensures a <= b <= c <= |m| && Bare(m) == m[b..c]
    ensures (forall i :: 0 <= i < a ==> m[i] == '$') && (a < |m| ==> m[a] != '$')
    ensures (forall i :: a <= i < b || c <= i < |m| ==> m[i] in Whitespace)
    ensures b < c ==> m[b] !in Whitespace && m[c - 1] !in Whitespace
  {
    forall ch ensures IsSpace(ch) <==> ch in Whitespace { SpaceIff(ch); }
    a := StripLeftIs(m, ch => ch == '$');
    var left := StripLeftIs(m[a..], IsSpace);
    b := a + left;
    assert m[a..][left..] == m[b..];
    var right := StripRightIs(m[b..], IsSpace);
    c := b + right;
    assert m[b..][..right] == m[b..c];
  }

  /** Letters change case and keep their place in the alphabet; every other character stays. */
  lemma CaseIs(s: string)
    ensures |Upper(s)| == |Lower(s)| == |s|
    ensures forall i :: 0 <= i < |s| ==>
      if 'a' <= s[i] <= 'z' then Upper(s)[i] as int - 'A' as int == s[i] as int - 'a' as int else Upper(s)[i] == s[i]
    ensures forall i :: 0 <= i < |s| ==>
      if 'A' <= s[i] <= 'Z' then Lower(s)[i] as int - 'a' as int == s[i] as int - 'A' as int else Lower(s)[i] == s[i]
  {
  }

  predicate Letter(c: char) { 'a' <= c <= 'z' || 'A' <= c <= 'Z' }

  /** A mention is shaped like a ticker exactly when one to five letters are left of it. */
  lemma TickerShapeIff(m: string)
    ensures LooksLikeTicker(m) <==> 1 <= |Bare(m)| <= 5 && forall i :: 0 <= i < |Bare(m)| ==> Letter(Bare(m)[i])
  {
    CaseIs(Bare(m));
    var b, u := Bare(m), Upper(Bare(m));
    forall i | 0 <= i < |b| ensures 'A' <= u[i] <= 'Z' <==> Letter(b[i]) {}
  }

  /** The query fetches a row exactly when its mention, in lower case, is the key of some mention that is not
      blank, and it keeps the rows in table order. */
  lemma {:induction false} FetchedIff(mentions: seq<string>, table: seq<AliasRow>, row: AliasRow)
    ensures row in Fetched(mentions, table) <==>
              row in table && exists m :: m in mentions && (exists i :: 0 <= i < |m| && m[i] !in Whitespace)
                                          && Lower(row.mention) == Lower(Bare(m))
  {
    if table != [] {
      var n := |table| - 1;
      assert table == table[..n] + [table[n]];
      FetchedIff(mentions, table[..n], row);
      forall m | m in mentions ensures Strip(m) != "" <==> exists i :: 0 <= i < |m| && m[i] !in Whitespace {
        BlankIff(m);
      }
    }
  }

  /** Stripping leaves what stands between the white space at both ends. */
  lemma StripIs(m: string) returns (b: nat, c: nat)
    ensures b <= c <= |m| && Strip(m) == m[b..c]
    ensures forall i :: 0 <= i < b || c <= i < |m| ==> m[i] in Whitespace
    ensures b < c ==> m[b] !in Whitespace && m[c - 1] !in Whitespace
  {
    forall ch ensures IsSpace(ch) <==> ch in Whitespace { SpaceIff(ch); }
    b := StripLeftIs(m, IsSpace);
    var right := StripRightIs(m[b..], IsSpace);
    c := b + right;
    assert m[b..][..right] == m[b..c];
  }

  lemma BlankIff(m: string)
    ensures Strip(m) != "" <==> exists i :: 0 <= i < |m| && m[i] !in Whitespace
  {
    forall ch ensures IsSpace(ch) <==> ch in Whitespace { SpaceIff(ch); }
    var k := StripLeftIs(m, IsSpace);
    var l := StripRightIs(m[k..], IsSpace);
    assert Strip(m) == m[k..][..l];
  }

  lemma {:induction false} FetchedAppend(mentions: seq<string>, a: seq<AliasRow>, b: seq<AliasRow>)
    ensures Fetched(mentions, a + b) == Fetched(mentions, a) + Fetched(mentions, b)
  {
    if b == [] {
      assert a + b == a;
    } else {
      assert (a + b)[..|a + b| - 1] == a + b[..|b| - 1];
      FetchedAppend(mentions, a, b[..|b| - 1]);
    }
  }

  // The code of the first letter; no letter counts as zero
  ghost function FirstCode(ticker: string): int {
    if ticker == "" then 0 else ticker[0] as int
  }

  // Row i is kept for a key: no row of the key has a higher priority, or the same with a smaller first letter, and no
  // earlier row has the same priority and first letter
  ghost predicate KeptAt(rows: seq<AliasRow>, key: string, i: int) {
    && 0 <= i < |rows| && Lower(Bare(rows[i].mention)) == key
    && forall j :: 0 <= j < |rows| && Lower(Bare(rows[j].mention)) == key ==>
         && rows[j].priority <= rows[i].priority
         && (rows[j].priority == rows[i].priority ==>
               FirstCode(rows[i].ticker) <= FirstCode(rows[j].ticker)
               && (FirstCode(rows[i].ticker) == FirstCode(rows[j].ticker) ==> i <= j))
  }

  // What one mention yields: the ticker of the row kept for its key; without such a row, the mention itself when one
  // to five letters are left of it
  ghost predicate Yields(mentions: seq<string>, table: seq<AliasRow>, m: string, x: string) {
    var rows, key := Fetched(mentions, table), Lower(Bare(m));
    if HasKey(rows, key) then exists i :: KeptAt(rows, key, i) && x == Upper(rows[i].ticker)
    else 1 <= |Bare(m)| <= 5 && (forall k :: 0 <= k < |Bare(m)| ==> Letter(Bare(m)[k])) && x == Upper(Bare(m))
  }

  ghost predicate HasKey(rows: seq<AliasRow>, key: string) {
    exists i :: 0 <= i < |rows| && Lower(Bare(rows[i].mention)) == key
  }

  lemma KeptIffFirstBest(rows: seq<AliasRow>, key: string, i: int)
    ensures KeptAt(rows, key, i) <==> FirstBest(rows, key, i)
  {
  }

  lemma YieldsIff(mentions: seq<string>, table: seq<AliasRow>, m: string, x: string)
    ensures Yields(mentions, table, m, x) <==> ResolveOne(m, Fetched(mentions, table)) == Some(x)
  {
    var rows, key := Fetched(mentions, table), Lower(Bare(m));
    TickerShapeIff(m);
    SameKey(rows, key);
    if HasKey(rows, key) {
      var i := ChosenIsFirstBest(rows, key);
      KeptIffFirstBest(rows, key, i);
      forall j | KeptAt(rows, key, j) ensures Chosen(rows, key) == Some(rows[j]) {
        KeptIffFirstBest(rows, key, j);
        FirstBestChosen(rows, key, j);
      }
    }
  }

  lemma SameKey(rows: seq<AliasRow>, key: string)
    ensures HasKey(rows, key) <==> Chosen(rows, key).Some?
  {
    if i :| 0 <= i < |rows| && ForKey(rows[i], key) {
      assert Lower(Bare(rows[i].mention)) == key;
    }
    if i :| 0 <= i < |rows| && Lower(Bare(rows[i].mention)) == key {
      assert ForKey(rows[i], key);
    }
  }

  /** A ticker is resolved exactly when some mention yields it: an alias row takes precedence, the shape of the mention
      counts only without one. */
  lemma ResolvedIff(mentions: seq<string>, table: seq<AliasRow>)
    ensures StrictlySorted(ResolveTickers(mentions, table))
    ensures forall x :: x in ResolveTickers(mentions, table) <==> exists m :: m in mentions && Yields(mentions, table, m, x)
  {
    forall m, x ensures Yields(mentions, table, m, x) <==> ResolveOne(m, Fetched(mentions, table)) == Some(x) {
      YieldsIff(mentions, table, m, x);
    }
  }

  // ---- Examples ----

  lemma OneMention(mention: string, rows: seq<AliasRow>)
    requires ResolveOne(mention, rows).Some?
    ensures ResolveEach([mention], rows) == [ResolveOne(mention, rows).value]
  {
    assert [mention][..0] == [] && ResolveEach([], rows) == [];
  }

  lemma OneSorted(x: string)
    ensures SortDistinct([x]) == [x]
  {
    assert [x][1..] == [] && SortDistinct([]) == [];
  }

  lemma TeslaTexts()
    ensures Bare("Tesla") == "Tesla" && Lower("Tesla") == "tesla" && Bare("tesla") == "tesla" && Lower("tesla") == "tesla"
    ensures Upper("TSLA") == "TSLA"
  {
    assert "Tesla"[0] == 'T' && "Tesla"[4] == 'a';
    assert "tesla"[0] == 't' && "tesla"[4] == 'a';
  }

  lemma TeslaRow(row: AliasRow)
    requires row == AliasRow("tesla", "TSLA", 100)
    ensures Fetched(["Tesla"], [row]) == [row]
  {
    TeslaTexts();
    assert "Tesla"[0] !in Whitespace by { SpaceIff('T'); }
    BlankIff("Tesla");
    assert "Tesla" in ["Tesla"] && Wanted(["Tesla"], row);
    assert [row][..0] == [] && Fetched(["Tesla"], []) == [];
  }

  /** "Tesla" with its alias row gives TSLA, although its own five letters look like a ticker. */
  lemma TeslaIsTSLA()
    ensures ResolveTickers(["Tesla"], [AliasRow("tesla", "TSLA", 100)]) == ["TSLA"]
  {
    var row := AliasRow("tesla", "TSLA", 100);
    TeslaTexts();
    TeslaRow(row);
    assert KeptAt([row], "tesla", 0);
    KeptIffFirstBest([row], "tesla", 0);
    FirstBestChosen([row], "tesla", 0);
    OneMention("Tesla", [row]);
    OneSorted("TSLA");
  }

  // ---- The output depends on the set of mentions only ----

  predicate SameElements<T(==)>(xs: seq<T>, ys: seq<T>) {
    (forall x :: x in xs ==> x in ys) && (forall y :: y in ys ==> y in xs)
  }

  lemma {:induction false} FetchedSameMentions(m1: seq<string>, m2: seq<string>, table: seq<AliasRow>)
    requires SameElements(m1, m2)
    ensures Fetched(m1, table) == Fetched(m2, table)
  {
    if table != [] {
      FetchedSameMentions(m1, m2, table[..|table| - 1]);
    }
  }

  lemma ResolveIsSetFunction(m1: seq<string>, m2: seq<string>, table: seq<AliasRow>)
    requires SameElements(m1, m2)
    ensures ResolveTickers(m1, table) == ResolveTickers(m2, table)
  {
    FetchedSameMentions(m1, m2, table);
    StrictlySortedUnique(ResolveTickers(m1, table), ResolveTickers(m2, table));
  }

  // ---- When the output depends on the order of the alias rows ----

  // The ticker kept for a key
  function ChosenTicker(rows: seq<AliasRow>, key: string): Option<string> {
    match Chosen(rows, key)
    case Some(row) => Some(row.ticker)
    case None => None
  }

  ghost predicate OrderIndependent(rows: seq<AliasRow>, key: string) {
    forall rows' :: multiset(rows') == multiset(rows) ==> ChosenTicker(rows', key) == ChosenTicker(rows, key)
  }

  predicate Top(rows: seq<AliasRow>, key: string, row: AliasRow) {
    row in rows && ForKey(row, key) && forall other :: other in rows && ForKey(other, key) ==> !Beats(other, row)
  }

  predicate TopRowsAgree(rows: seq<AliasRow>, key: string) {
    forall a, b :: a in rows && b in rows && Top(rows, key, a) && Top(rows, key, b) ==> a.ticker == b.ticker
  }

  lemma ChosenIsTop(rows: seq<AliasRow>, key: string)
    requires Chosen(rows, key).Some?
    ensures Top(rows, key, Chosen(rows, key).value)
  {
    var i := ChosenIsFirstBest(rows, key);
  }

  lemma MoveToFront(rows: seq<AliasRow>, key: string, row: AliasRow) returns (rows': seq<AliasRow>)
    requires Top(rows, key, row)
    ensures multiset(rows') == multiset(rows) && Chosen(rows', key) == Some(row)
  {
    var i :| 0 <= i < |rows| && rows[i] == row;
    rows' := [row] + rows[..i] + rows[i + 1..];
    assert rows == rows[..i] + [rows[i]] + rows[i + 1..];
    SameMembers(rows, rows');
    forall j | 0 <= j < |rows'| && ForKey(rows'[j], key) ensures !Beats(rows'[j], row) {
      assert rows'[j] in rows;
    }
    FirstBestChosen(rows', key, 0);
  }

  /** The ticker kept for a key is the same for every order of the alias rows exactly when the rows
      of the highest rank (priority, then first letter) carry one ticker. */
  lemma OrderIndependentIff(rows: seq<AliasRow>, key: string)
    ensures OrderIndependent(rows, key) <==> TopRowsAgree(rows, key)
  {
    if OrderIndependent(rows, key) {
      forall a, b | a in rows && b in rows && Top(rows, key, a) && Top(rows, key, b) ensures a.ticker == b.ticker {
        var ra := MoveToFront(rows, key, a);
        var rb := MoveToFront(rows, key, b);
        assert ChosenTicker(ra, key) == ChosenTicker(rows, key) == ChosenTicker(rb, key);
      }
    }
    if TopRowsAgree(rows, key) {
      forall rows' | multiset(rows') == multiset(rows)
        ensures ChosenTicker(rows', key) == ChosenTicker(rows, key)
      {
        PermutedChoice(rows, rows', key);
      }
    }
  }

  lemma PermutedChoice(rows: seq<AliasRow>, rows': seq<AliasRow>, key: string)
    requires multiset(rows') == multiset(rows) && TopRowsAgree(rows, key)
    ensures ChosenTicker(rows', key) == ChosenTicker(rows, key)
  {
    SameMembers(rows, rows');
    if Chosen(rows, key).Some? {
      ChosenIsTop(rows, key);
      assert Chosen(rows, key).value in rows';
    }
    if Chosen(rows', key).Some? {
      ChosenIsTop(rows', key);
      assert Chosen(rows', key).value in rows;
    }
  }

  // A row of the highest priority for its key
  predicate TopPriority(rows: seq<AliasRow>, key: string, row: AliasRow) {
    row in rows && ForKey(row, key) && forall other :: other in rows && ForKey(other, key) ==> other.priority <= row.priority
  }

  // The row kept for a key has the highest priority and the least ticker among the rows that have it
  predicate KeepsLeast(rows: seq<AliasRow>, key: string) {
    match Chosen(rows, key)
    case None => true
    case Some(kept) =>
      TopPriority(rows, key, kept)
      && forall row :: row in rows && TopPriority(rows, key, row) ==> StringLe(kept.ticker, row.ticker)
  }

  // The documented tie-break, for every order in which the query may return the rows
  ghost predicate AlwaysKeepsLeast(rows: seq<AliasRow>, key: string) {
    forall rows' :: multiset(rows') == multiset(rows) ==> KeepsLeast(rows', key)
  }

  /** The documentation promises that ties on priority go to the lexicographically smallest ticker. Whatever
      order the rows come in, this holds exactly when the rows of the highest rank carry one ticker. */
  lemma DocumentedTieBreakIff(rows: seq<AliasRow>, key: string)
    ensures AlwaysKeepsLeast(rows, key) <==> TopRowsAgree(rows, key)
  {
    if AlwaysKeepsLeast(rows, key) {
      forall rows' | multiset(rows') == multiset(rows) ensures ChosenTicker(rows', key) == ChosenTicker(rows, key) {
        LeastIsUnique(rows, rows', key);
      }
      OrderIndependentIff(rows, key);
    }
    if TopRowsAgree(rows, key) {
      forall rows' | multiset(rows') == multiset(rows) ensures KeepsLeast(rows', key) {
        SameMembers(rows, rows');
        assert forall row :: Top(rows', key, row) ==> Top(rows, key, row);
        AgreeingTopIsLeast(rows', key);
      }
    }
  }

  lemma LeastIsUnique(rows: seq<AliasRow>, rows': seq<AliasRow>, key: string)
    requires multiset(rows') == multiset(rows) && KeepsLeast(rows, key) && KeepsLeast(rows', key)
    ensures ChosenTicker(rows', key) == ChosenTicker(rows, key)
  {
    SameMembers(rows, rows');
    if Chosen(rows, key).Some? && Chosen(rows', key).Some? {
      var kept, kept' := Chosen(rows, key).value, Chosen(rows', key).value;
      assert TopPriority(rows, key, kept') && TopPriority(rows', key, kept);
      StringLeAntisym(kept.ticker, kept'.ticker);
    } else {
      SameKeys(rows, rows', key);
    }
  }

  lemma SameKeys(rows: seq<AliasRow>, rows': seq<AliasRow>, key: string)
    requires forall row :: row in rows <==> row in rows'
    ensures Chosen(rows, key).Some? <==> Chosen(rows', key).Some?
  {
    if i :| 0 <= i < |rows| && ForKey(rows[i], key) {
      assert rows[i] in rows';
    }
    if i :| 0 <= i < |rows'| && ForKey(rows'[i], key) {
      assert rows'[i] in rows;
    }
  }

  lemma AgreeingTopIsLeast(rows: seq<AliasRow>, key: string)
    requires TopRowsAgree(rows, key)
    ensures KeepsLeast(rows, key)
  {
    if Chosen(rows, key).Some? {
      var kept := Chosen(rows, key).value;
      ChosenIsTop(rows, key);
      assert TopPriority(rows, key, kept);
      forall row | row in rows && TopPriority(rows, key, row) ensures StringLe(kept.ticker, row.ticker) {
        if TieRank(row.ticker) == TieRank(kept.ticker) {
          assert Top(rows, key, row);
          StringLeRefl(kept.ticker);
        } else {
          assert !Beats(row, kept);
        }
      }
    }
  }

  /** With that condition on every mentioned key the whole result is independent of row order. */
  lemma ResolveOrderIndependent(mentions: seq<string>, table: seq<AliasRow>, table': seq<AliasRow>)
    requires multiset(table) == multiset(table')
    requires forall m :: m in mentions ==> TopRowsAgree(Fetched(mentions, table), Normalize(m))
    ensures ResolveTickers(mentions, table) == ResolveTickers(mentions, table')
  {
    var rows, rows' := Fetched(mentions, table), Fetched(mentions, table');
    forall row ensures multiset(rows)[row] == multiset(rows')[row] {
      FetchedMultiset(mentions, table, row);
      FetchedMultiset(mentions, table', row);
    }
    assert multiset(rows) == multiset(rows');
    forall m | m in mentions ensures ResolveOne(m, rows) == ResolveOne(m, rows') {
      PermutedChoice(rows, rows', Normalize(m));
    }
    StrictlySortedUnique(ResolveTickers(mentions, table), ResolveTickers(mentions, table'));
  }

  lemma {:induction false} FetchedMultiset(mentions: seq<string>, table: seq<AliasRow>, row: AliasRow)
    ensures multiset(Fetched(mentions, table))[row] == if Wanted(mentions, row) then multiset(table)[row] else 0
  {
    if table != [] {
      var n := |table| - 1;
      assert table == table[..n] + [table[n]];
      FetchedMultiset(mentions, table[..n], row);
    }
  }

  /** Two tickers that share their first letter and their priority: the row that comes first is kept,
      also when the other ticker is smaller, against the documented tie-break. */
  lemma TieKeepsFirstRow(mention: string, priority: int)
    ensures var ab, aa := AliasRow(mention, "AB", priority), AliasRow(mention, "AA", priority);
            var key := Normalize(mention);
            StringLt("AA", "AB") && ChosenTicker([ab, aa], key) == Some("AB") && ChosenTicker([aa, ab], key) == Some("AA")
            && !KeepsLeast([ab, aa], key)
  {
    var ab, aa := AliasRow(mention, "AB", priority), AliasRow(mention, "AA", priority);
    FirstBestChosen([ab, aa], Normalize(mention), 0);
    FirstBestChosen([aa, ab], Normalize(mention), 0);
    assert "AA"[1..] == "A" && "AB"[1..] == "B";
    assert [ab, aa][1] == aa && TopPriority([ab, aa], Normalize(mention), aa);
  }
}
