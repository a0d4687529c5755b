/** The `clicks` table behind the click-counting API, the four statements the
    request handler issues against it (delete all, list by name, top twenty by
    count, insert-or-increment) and the create-if-absent bootstrap. The
    database is abstracted as a map from the primary key `country` to the rest
    of the row. */
module Clicks {

  /** The non-key columns of a `clicks` row: `total_clicks` and `country_code`. */
  datatype Row = Row(totalClicks: nat, countryCode: string)

  /** The table, keyed by `country` (the primary key). */
  type Table = map<string, Row>

  /** A row of the countries listing: a country and its count. */
  datatype CountryTotal = CountryTotal(country: string, totalClicks: nat)

  /** A row of the leaderboard: a country, its count and its flag code. */
  datatype Ranked = Ranked(country: string, totalClicks: nat, countryCode: string)

  /** The `LIMIT` of the leaderboard query. */
  const LeaderboardSize: nat := 20

  // ---------------------------------------------------------------------------
  // Ordering of country names (ascending by name), taken as lexicographic
  // order on code points.
  // ---------------------------------------------------------------------------

  predicate NameLt(a: string, b: string)
  {
    if a == [] then b != []
    else b != [] && (a[0] < b[0] || (a[0] == b[0] && NameLt(a[1..], b[1..])))
  }

  lemma {:induction false} NameLtIrreflexive(a: string)
    ensures !NameLt(a, a)
  {
    if a != [] {
      NameLtIrreflexive(a[1..]);
    }
  }

  lemma {:induction false} NameLtTransitive(a: string, b: string, c: string)
    requires NameLt(a, b) && NameLt(b, c)
    ensures NameLt(a, c)
  {
    if a != [] && a[0] == b[0] && b[0] == c[0] {
      NameLtTransitive(a[1..], b[1..], c[1..]);
    }
  }

  lemma {:induction false} NameLtTotal(a: string, b: string)
    requires a != b
    ensures NameLt(a, b) || NameLt(b, a)
  {
    if a != [] && b != [] && a[0] == b[0] {
      assert a == [a[0]] + a[1..] && b == [b[0]] + b[1..];
      NameLtTotal(a[1..], b[1..]);
    }
  }

  /** `n` is the first of `names` in name order. */
  predicate IsLeastName(n: string, names: set<string>)
  {
    n in names && forall m :: m in names && m != n ==> NameLt(n, m)
  }

  lemma {:induction false} LeastNameExists(names: set<string>)
    requires names != {}
    ensures exists n :: IsLeastName(n, names)
    decreases names
  {
    var x :| x in names;
    var rest := names - {x};
    if rest == {} {
      assert names == {x};
      assert IsLeastName(x, names);
    } else {
      LeastNameExists(rest);
      var y :| IsLeastName(y, rest);
      if NameLt(x, y) {
        forall m | m in names && m != x
          ensures NameLt(x, m)
        {
          if m != y {
            NameLtTransitive(x, y, m);
          }
        }
        assert IsLeastName(x, names);
      } else {
        NameLtTotal(x, y);
        assert IsLeastName(y, names);
      }
    }
  }

  lemma LeastNameUnique(names: set<string>)
    ensures forall n, m :: IsLeastName(n, names) && IsLeastName(m, names) ==> n == m
  {
    forall n, m | IsLeastName(n, names) && IsLeastName(m, names)
      ensures n == m
    {
      if n != m {
        NameLtTransitive(n, m, n);
        NameLtIrreflexive(n);
      }
    }
  }

  function LeastName(names: set<string>): (n: string)
    requires names != {}
    ensures IsLeastName(n, names)
  {
    LeastNameExists(names);
    LeastNameUnique(names);
    var n :| IsLeastName(n, names);
    n
  }

  /** The keys of the table in ascending name order, each exactly once. */
  function SortedNames(names: set<string>): (r: seq<string>)
    ensures |r| == |names|
    ensures forall i :: 0 <= i < |r| ==> r[i] in names
    ensures forall n :: n in names ==> n in r
    ensures forall i, j :: 0 <= i < j < |r| ==> NameLt(r[i], r[j])
    decreases names
  {
    if names == {} then []
    else
      var n := LeastName(names);
      [n] + SortedNames(names - {n})
  }

  // ---------------------------------------------------------------------------
  // The countries listing: every row, ascending by name
  // ---------------------------------------------------------------------------

  /** The country and count of each entry. */
  function Totals(rows: seq<Ranked>): (r: seq<CountryTotal>)
    ensures |r| == |rows|
    ensures forall i :: 0 <= i < |r| ==> r[i] == CountryTotal(rows[i].country, rows[i].totalClicks)
  {
    seq(|rows|, i requires 0 <= i < |rows| => CountryTotal(rows[i].country, rows[i].totalClicks))
  }

  /** Each projected entry is a row of the table with the row's count. */
  lemma {:induction false} TotalsKeepCounts(t: Table, rows: seq<Ranked>)
    requires FromTable(t, rows)
    ensures var r := Totals(rows);
      forall i :: 0 <= i < |r| ==> r[i].country in t && r[i].totalClicks == t[r[i].country].totalClicks
  {
    var r := Totals(rows);
    forall i | 0 <= i < |r|
      ensures r[i].country in t && r[i].totalClicks == t[r[i].country].totalClicks
    {
      assert rows[i] in rows;
    }
  }

  /** Every key listed in `rows` is listed in its projection. */
  lemma {:induction false} TotalsListEveryKey(t: Table, rows: seq<Ranked>)
    requires forall c :: c in t ==> Listed(rows, c)
    ensures var r := Totals(rows);
      forall c :: c in t ==> exists i :: 0 <= i < |r| && r[i].country == c
  {
    var r := Totals(rows);
    forall c | c in t
      ensures exists i :: 0 <= i < |r| && r[i].country == c
    {
      var i :| 0 <= i < |rows| && rows[i].country == c;
      assert r[i].country == c;
    }
  }

  /** The projection keeps the strictly ascending name order. */
  lemma {:induction false} TotalsAscending(rows: seq<Ranked>)
    requires NamesAscending(rows)
    ensures var r := Totals(rows);
      && (forall i, j :: 0 <= i < j < |r| ==> NameLt(r[i].country, r[j].country))
      && (forall i, j :: 0 <= i < j < |r| ==> r[i].country != r[j].country)
  {
    var r := Totals(rows);
    forall i, j | 0 <= i < j < |r|
      ensures NameLt(r[i].country, r[j].country) && r[i].country != r[j].country
    {
      assert r[i].country == rows[i].country && r[j].country == rows[j].country;
      NameLtIrreflexive(r[i].country);
    }
  }

  /** Projecting a name-ordered list of every row onto country and count
      gives a listing with the same properties. */
  lemma {:induction false} TotalsOfRows(t: Table, rows: seq<Ranked>)
    requires ListsEveryRow(t, rows) && NamesAscending(rows)
    ensures var r := Totals(rows);
      && |r| == |t|
      && (forall i :: 0 <= i < |r| ==> r[i].country in t && r[i].totalClicks == t[r[i].country].totalClicks)
      && (forall c :: c in t ==> exists i :: 0 <= i < |r| && r[i].country == c)
      && (forall i, j :: 0 <= i < j < |r| ==> NameLt(r[i].country, r[j].country))
      && (forall i, j :: 0 <= i < j < |r| ==> r[i].country != r[j].country)
  {
    TotalsKeepCounts(t, rows);
    TotalsListEveryKey(t, rows);
    TotalsAscending(rows);
  }

  /** The countries listing: every row of the table exactly once, with its
      count, in ascending name order. */
  function CountriesByName(t: Table): (r: seq<CountryTotal>)
    ensures |r| == |t|
    ensures forall i :: 0 <= i < |r| ==> r[i].country in t && r[i].totalClicks == t[r[i].country].totalClicks
    ensures forall c :: c in t ==> exists i :: 0 <= i < |r| && r[i].country == c
    ensures forall i, j :: 0 <= i < j < |r| ==> NameLt(r[i].country, r[j].country)
    ensures forall i, j :: 0 <= i < j < |r| ==> r[i].country != r[j].country
  {
    var rows := RowsByName(t);
    TotalsOfRows(t, rows);
    Totals(rows)
  }

  // ---------------------------------------------------------------------------
  // The leaderboard: at most twenty rows, descending by count
  // ---------------------------------------------------------------------------

  /** Every entry of `s` is a row of `t`, with the row's count and code. */
  predicate FromTable(t: Table, s: seq<Ranked>)
  {
    forall y :: y in s ==> y.country in t && t[y.country] == Row(y.totalClicks, y.countryCode)
  }

  /** Country `c` has an entry in `s`. */
  predicate Listed(s: seq<Ranked>, c: string)
  {
    exists i :: 0 <= i < |s| && s[i].country == c
  }

  predicate CountriesDistinct(s: seq<Ranked>)
  {
    forall i, j :: 0 <= i < j < |s| ==> s[i].country != s[j].country
  }

  /** `s` holds every row of `t` and nothing else, one entry per row. */
  predicate ListsEveryRow(t: Table, s: seq<Ranked>)
  {
    |s| == |t| && FromTable(t, s) && forall c :: c in t ==> Listed(s, c)
  }

  /** Country names strictly ascend along `s`. */
  predicate NamesAscending(s: seq<Ranked>)
  {
    forall i, j :: 0 <= i < j < |s| ==> NameLt(s[i].country, s[j].country)
  }

  /** Counts never increase along `s`. */
  predicate RanksDescending(s: seq<Ranked>)
  {
    forall i, j :: 0 <= i < j < |s| ==> s[i].totalClicks >= s[j].totalClicks
  }

  /** What the leaderboard query may return for table `t`: the rows with the
      largest counts, at most twenty of them, each once, by count descending,
      and no row left out that has more clicks than the last one listed. The
      order among equal counts is not fixed. */
  ghost predicate IsLeaderboard(t: Table, b: seq<Ranked>)
  {
    && |b| == (if |t| < LeaderboardSize then |t| else LeaderboardSize)
    && FromTable(t, b)
    && CountriesDistinct(b)
    && RanksDescending(b)
    && (|b| < LeaderboardSize ==> forall c :: c in t ==> Listed(b, c))
    && (forall c :: c in t && !Listed(b, c) ==> 0 < |b| && t[c].totalClicks <= b[|b| - 1].totalClicks)
  }

  /** The rows of the given names, in that order. */
  function RowsOf(t: Table, names: seq<string>): (r: seq<Ranked>)
    requires forall i :: 0 <= i < |names| ==> names[i] in t
    ensures |r| == |names|
    ensures forall i :: 0 <= i < |r| ==> r[i] == Ranked(names[i], t[names[i]].totalClicks, t[names[i]].countryCode)
  {
    seq(|names|, i requires 0 <= i < |names| => Ranked(names[i], t[names[i]].totalClicks, t[names[i]].countryCode))
  }

  /** Every row of the table once, in ascending name order: the order of the
      countries listing, and the scan the leaderboard sort starts from. */
  function RowsByName(t: Table): (r: seq<Ranked>)
    ensures ListsEveryRow(t, r)
    ensures NamesAscending(r)
  {
    var names := SortedNames(t.Keys);
    var r := RowsOf(t, names);
    assert |t.Keys| == |t|;
    forall y | y in r
      ensures y.country in t && t[y.country] == Row(y.totalClicks, y.countryCode)
    {
      var i :| 0 <= i < |r| && r[i] == y;
    }
    forall c | c in t
      ensures Listed(r, c)
    {
      var i :| 0 <= i < |names| && names[i] == c;
      assert r[i].country == c;
    }
    r
  }

  /** A list in strictly ascending name order names each country once. */
  lemma NameOrderedIsDistinct(s: seq<Ranked>)
    requires NamesAscending(s)
    ensures CountriesDistinct(s)
  {
    forall i, j | 0 <= i < j < |s|
      ensures s[i].country != s[j].country
    {
      NameLtIrreflexive(s[i].country);
    }
  }

  /** An entry with at least the count of a count-descending list's head
      can go in front of it. */
  lemma {:induction false} ConsKeepsDescending(x: Ranked, s: seq<Ranked>)
    requires RanksDescending(s)
    requires s == [] || x.totalClicks >= s[0].totalClicks
    ensures RanksDescending([x] + s)
  {
    var r := [x] + s;
    forall i, j | 0 <= i < j < |r|
      ensures r[i].totalClicks >= r[j].totalClicks
    {
      assert r[j] == s[j - 1];
      if i > 0 {
        assert r[i] == s[i - 1];
      } else {
        assert s[0].totalClicks >= s[j - 1].totalClicks;
      }
    }
  }

  /** Inserts `x` into a list ordered by count descending, ahead of the
      entries with the same count. */
  function InsertByClicks(x: Ranked, s: seq<Ranked>): (r: seq<Ranked>)
    requires RanksDescending(s)
    ensures |r| == |s| + 1
    ensures multiset(r) == multiset(s) + multiset{x}
    ensures forall y :: y in r <==> y == x || y in s
    ensures RanksDescending(r)
  {
    if s == [] || x.totalClicks >= s[0].totalClicks then
      ConsKeepsDescending(x, s);
      [x] + s
    else
      var rest := InsertByClicks(x, s[1..]);
      assert s == [s[0]] + s[1..];
      assert s[0].totalClicks >= rest[0].totalClicks by {
        assert rest[0] in rest;
      }
      ConsKeepsDescending(s[0], rest);
      [s[0]] + rest
  }

  /** Inserting a country not yet listed keeps every country listed once. */
  lemma {:induction false} InsertKeepsDistinct(x: Ranked, s: seq<Ranked>)
    requires RanksDescending(s) && CountriesDistinct(s)
    requires forall y :: y in s ==> y.country != x.country
    ensures CountriesDistinct(InsertByClicks(x, s))
  {
    var r := InsertByClicks(x, s);
    if s == [] || x.totalClicks >= s[0].totalClicks {
      forall i, j | 0 <= i < j < |r|
        ensures r[i].country != r[j].country
      {
        assert r[j] == s[j - 1];
        if i > 0 {
          assert r[i] == s[i - 1];
        } else {
          assert s[j - 1] in s;
        }
      }
    } else {
      var rest := InsertByClicks(x, s[1..]);
      assert r == [s[0]] + rest;
      InsertKeepsDistinct(x, s[1..]);
      forall i, j | 0 <= i < j < |r|
        ensures r[i].country != r[j].country
      {
        assert r[j] == rest[j - 1];
        if i > 0 {
          assert r[i] == rest[i - 1];
        } else {
          var y := rest[j - 1];
          assert y in rest;
          if y != x {
            var k :| 0 <= k < |s[1..]| && s[1..][k] == y;
            assert s[k + 1] == y;
          }
        }
      }
    }
  }

  /** The head of a list of distinct countries is apart from any reordering
      of its tail. */
  lemma {:induction false} HeadApartFromTail(s: seq<Ranked>, rest: seq<Ranked>)
    requires s != [] && CountriesDistinct(s)
    requires forall y :: y in rest <==> y in s[1..]
    ensures CountriesDistinct(s[1..])
    ensures forall y :: y in rest ==> y.country != s[0].country
  {
    forall y | y in rest
      ensures y.country != s[0].country
    {
      var k :| 0 <= k < |s[1..]| && s[1..][k] == y;
      assert s[k + 1] == y;
    }
  }

  /** Stable sort by count descending. */
  function SortByClicks(s: seq<Ranked>): (r: seq<Ranked>)
    ensures |r| == |s|
    ensures multiset(r) == multiset(s)
    ensures forall y :: y in r <==> y in s
    ensures RanksDescending(r)
    ensures CountriesDistinct(s) ==> CountriesDistinct(r)
  {
    if s == [] then []
    else
      var rest := SortByClicks(s[1..]);
      assert s == [s[0]] + s[1..];
      assert CountriesDistinct(s) ==> CountriesDistinct(InsertByClicks(s[0], rest)) by {
        if CountriesDistinct(s) {
          HeadApartFromTail(s, rest);
          InsertKeepsDistinct(s[0], rest);
        }
      }
      InsertByClicks(s[0], rest)
  }

  /** A prefix of a list keeps its entries' origin, distinctness and order. */
  lemma PrefixKeepsShape(t: Table, all: seq<Ranked>, n: nat)
    requires FromTable(t, all) && CountriesDistinct(all) && RanksDescending(all)
    requires n <= |all|
    ensures FromTable(t, all[..n]) && CountriesDistinct(all[..n]) && RanksDescending(all[..n])
  {
    assert forall y :: y in all[..n] ==> y in all;
  }

  /** In a count-descending list naming every row, a row missing from a
      prefix has no more clicks than the prefix's last entry. */
  lemma OmittedRowsRankLower(t: Table, all: seq<Ranked>, n: nat)
    requires FromTable(t, all) && RanksDescending(all) && (forall c :: c in t ==> Listed(all, c))
    requires n <= |all| && (n == 0 ==> |all| == 0)
    ensures forall c :: c in t && !Listed(all[..n], c) ==> 0 < n && t[c].totalClicks <= all[n - 1].totalClicks
  {
    forall c | c in t && !Listed(all[..n], c)
      ensures 0 < n && t[c].totalClicks <= all[n - 1].totalClicks
    {
      var j :| 0 <= j < |all| && all[j].country == c;
      assert n <= j by {
        assert forall k :: 0 <= k < n ==> all[..n][k].country == all[k].country;
      }
      assert all[j] in all;
      assert all[n - 1].totalClicks >= all[j].totalClicks;
    }
  }

  lemma TopPrefixIsLeaderboard(t: Table, all: seq<Ranked>, n: nat)
    requires |all| == |t| && FromTable(t, all) && CountriesDistinct(all) && RanksDescending(all)
    requires forall c :: c in t ==> Listed(all, c)
    requires n == if |all| < LeaderboardSize then |all| else LeaderboardSize
    ensures IsLeaderboard(t, all[..n])
  {
    var b := all[..n];
    PrefixKeepsShape(t, all, n);
    OmittedRowsRankLower(t, all, n);
    assert |b| < LeaderboardSize ==> forall c :: c in t ==> Listed(b, c) by {
      if |b| < LeaderboardSize {
        assert b == all;
      }
    }
  }

  /** The leaderboard of the table. Ties are broken by name ascending, the
      order in which `RowsByName` hands equal counts to the stable sort. */
  function TopTwenty(t: Table): (b: seq<Ranked>)
    ensures IsLeaderboard(t, b)
  {
    var byName := RowsByName(t);
    NameOrderedIsDistinct(byName);
    var all := SortByClicks(byName);
    forall c | c in t
      ensures Listed(all, c)
    {
      var i :| 0 <= i < |byName| && byName[i].country == c;
      assert byName[i] in all;
    }
    var n := if |all| < LeaderboardSize then |all| else LeaderboardSize;
    TopPrefixIsLeaderboard(t, all, n);
    all[..n]
  }

  // ---------------------------------------------------------------------------
  // The click upsert: insert with count 1, or add one on a key conflict
  // ---------------------------------------------------------------------------

  /** The table after one click on `country`: a new country gets a row with
      count 1 and the given code; a known one has its count raised by one and
      keeps its code; every other row is untouched. */
  function Upserted(t: Table, country: string, code: string): (r: Table)
    ensures r.Keys == t.Keys + {country}
    ensures country !in t ==> r[country] == Row(1, code)
    ensures country in t ==> r[country] == Row(t[country].totalClicks + 1, t[country].countryCode)
    ensures forall c :: c in t && c != country ==> r[c] == t[c]
  {
    if country in t then
      t[country := t[country].(totalClicks := t[country].totalClicks + 1)]
    else
      t[country := Row(1, code)]
  }

  /** The count of `c` in `t`, 0 when `c` has no row. */
  function TotalOf(t: Table, c: string): nat
  {
    if c in t then t[c].totalClicks else 0
  }

  /** The table after a series of clicks, each a country and the code that
      would be stored for it. */
  function AfterClicks(t: Table, clicks: seq<(string, string)>): Table
    decreases |clicks|
  {
    if clicks == [] then t
    else AfterClicks(Upserted(t, clicks[0].0, clicks[0].1), clicks[1..])
  }

  function Occurrences(clicks: seq<(string, string)>, c: string): nat
  {
    if clicks == [] then 0
    else (if clicks[0].0 == c then 1 else 0) + Occurrences(clicks[1..], c)
  }

  /** Every click raises its own country's count by exactly one and no other:
      after any series of clicks the count of `c` is its count before plus the
      number of clicks on `c`. */
  lemma {:induction false} ClicksAreCounted(t: Table, clicks: seq<(string, string)>, c: string)
    ensures TotalOf(AfterClicks(t, clicks), c) == TotalOf(t, c) + Occurrences(clicks, c)
    decreases |clicks|
  {
    if clicks != [] {
      ClicksAreCounted(Upserted(t, clicks[0].0, clicks[0].1), clicks[1..], c);
    }
  }

  /** `country_code` is fixed when the row is inserted: later clicks, whatever
      code they carry, leave it as it was. */
  lemma {:induction false} CodeKeptOnceInserted(t: Table, clicks: seq<(string, string)>, c: string)
    requires c in t
    ensures c in AfterClicks(t, clicks)
    ensures AfterClicks(t, clicks)[c].countryCode == t[c].countryCode
    decreases |clicks|
  {
    if clicks != [] {
      CodeKeptOnceInserted(Upserted(t, clicks[0].0, clicks[0].1), clicks[1..], c);
    }
  }

  /** N clicks on one country, starting from an emptied table, leave its
      count at N. */
  lemma {:induction false} RepeatedClicksAfterReset(c: string, code: string, n: nat)
    ensures TotalOf(AfterClicks(map[], seq(n, _ => (c, code))), c) == n
  {
    var clicks := seq(n, _ => (c, code));
    ClicksAreCounted(map[], clicks, c);
    OccurrencesOfOne(c, code, n);
  }

  lemma {:induction false} OccurrencesOfOne(c: string, code: string, n: nat)
    ensures Occurrences(seq(n, _ => (c, code)), c) == n
  {
    if n > 0 {
      var clicks := seq(n, _ => (c, code));
      assert clicks[1..] == seq(n - 1, _ => (c, code));
      OccurrencesOfOne(c, code, n - 1);
    }
  }

  // ---------------------------------------------------------------------------
  // The table as the handler sees it
  // ---------------------------------------------------------------------------

  /** Whether `initDB` reports success, from the state of the catalog and the
      outcome of its statements. */
  function InitSucceeds(tableExisted: bool, reachable: bool, createOk: bool): bool
  {
    reachable && (tableExisted || createOk)
  }

  /** The database: whether `clicks` exists in the catalog and, if so, its rows. */
  class ClickStore {
    var tableExists: bool
    var rows: Table

    ghost predicate Valid()
      reads this
    {
      !tableExists ==> rows == map[]
    }

    /** A database in which `clicks` has not been created yet. */
    constructor ()
      ensures Valid() && !tableExists
    {
      tableExists := false;
      rows := map[];
    }

    /** The bootstrap: creates the table only when the catalog does not list
        it. `reachable` says whether connecting and the existence query succeed,
        `createOk` whether the `CREATE TABLE` would. It reports success exactly
        when the table exists afterwards, and never touches rows. */
    method InitDB(reachable: bool, createOk: bool) returns (ok: bool)
      requires Valid()
      modifies this`tableExists
      ensures Valid()
      ensures ok == InitSucceeds(old(tableExists), reachable, createOk)
      ensures tableExists <==> old(tableExists) || (reachable && createOk)
      ensures ok ==> tableExists
      ensures rows == old(rows)
    {
      if !reachable {
        return false;
      }
      if !tableExists {
        if !createOk {
          return false;
        }
        tableExists := true;
      }
      ok := true;
    }

    /** Deleting every row: afterwards both listings are empty and the next
        click on any country counts 1. */
    method Reset()
      requires Valid() && tableExists
      modifies this`rows
      ensures Valid()
      ensures rows == map[]
      ensures CountriesByName(rows) == [] && TopTwenty(rows) == []
      ensures forall c, code :: Upserted(rows, c, code)[c].totalClicks == 1
    {
      rows := map[];
    }

    /** The countries listing and its length. */
    method Countries() returns (list: seq<CountryTotal>, total: nat)
      requires Valid() && tableExists
      ensures list == CountriesByName(rows)
      ensures total == |list| == |rows|
    {
      list := CountriesByName(rows);
      total := |list|;
    }

    /** The leaderboard query. */
    method Leaderboard() returns (board: seq<Ranked>)
      requires Valid() && tableExists
      ensures board == TopTwenty(rows)
      ensures IsLeaderboard(rows, board)
    {
      board := TopTwenty(rows);
    }

    /** The upsert followed by the leaderboard query; `newCount` is the
        `total_clicks` the upsert returns. */
    method Click(country: string, code: string) returns (newCount: nat, board: seq<Ranked>)
      requires Valid() && tableExists
      modifies this`rows
      ensures Valid()
      ensures rows == Upserted(old(rows), country, code)
      ensures newCount == rows[country].totalClicks == TotalOf(old(rows), country) + 1
      ensures board == TopTwenty(rows)
    {
      rows := Upserted(rows, country, code);
      newCount := rows[country].totalClicks;
      board := TopTwenty(rows);
    }
  }
}
