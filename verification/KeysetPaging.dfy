/** Keyset pages of the usage ledger, newest first (backend/internal/db/usage.go and
    backend/internal/pagination/cursor.go). */
module KeysetPaging {
  import opened Basics
  import opened Strings

  datatype Row = Row(id: int, timestamp: string)

  datatype Cursor = Cursor(timestamp: string, id: int)

  /** What stays abstract: SQLite's `datetime`, and JSON inside URL-safe base64. */
  datatype Env = Env(datetime: string -> Option<int>, encode: Cursor -> string, decode: string -> Option<Cursor>)

  /** A cursor survives encoding, and a blank text is no time. */
  ghost predicate Faithful(env: Env) {
    && (forall c :: env.decode(env.encode(c)) == Some(c) && TrimSpace(env.encode(c)) != "")
    && (forall s :: env.datetime(s).Some? ==> TrimSpace(s) != "")
  }

  /** `pagination.Decode`: blank means from the start. */
  function Decode(raw: string, env: Env): Result<Option<Cursor>> {
    if TrimSpace(raw) == "" then Ok(None) else
    match env.decode(raw)
    case None => Err("invalid cursor")
    case Some(c) => if TrimSpace(c.timestamp) == "" || c.id < 1 then Err("invalid cursor") else Ok(Some(c))
  }

  // ----- the order of the ledger -----

  /** ORDER BY datetime(timestamp) DESC, id DESC; NULL comes last. */
  predicate Precedes(a: Row, b: Row, env: Env) {
    match (env.datetime(a.timestamp), env.datetime(b.timestamp))
    case (Some(x), Some(y)) => x > y || (x == y && a.id > b.id)
    case (Some(_), None) => true
    case (None, Some(_)) => false
    case (None, None) => a.id > b.id
  }

  /** The WHERE clause; a comparison with NULL does not hold. */
  predicate Beyond(r: Row, c: Cursor, env: Env) {
    match (env.datetime(r.timestamp), env.datetime(c.timestamp))
    case (Some(x), Some(y)) => x < y || (x == y && r.id < c.id)
    case _ => false
  }

  ghost predicate DistinctIds(rows: set<Row>) {
    forall a, b :: a in rows && b in rows && a.id == b.id ==> a == b
  }

  ghost predicate IsFirst(m: Row, rows: set<Row>, env: Env) {
    m in rows && forall r :: r in rows && r != m ==> Precedes(m, r, env)
  }

  lemma {:induction false} FirstExists(rows: set<Row>, env: Env)
    requires rows != {} && DistinctIds(rows)
    ensures exists m :: IsFirst(m, rows, env)
  {
    var m :| m in rows;
    if rows == {m} {
      assert IsFirst(m, rows, env);
    } else {
      FirstExists(rows - {m}, env);
      var rest :| IsFirst(rest, rows - {m}, env);
      if Precedes(m, rest, env) {
        forall r | r in rows && r != m ensures Precedes(m, r, env) {
          assert r == rest || Precedes(rest, r, env);
        }
        assert IsFirst(m, rows, env);
      } else {
        assert Precedes(rest, m, env);
        assert IsFirst(rest, rows, env);
      }
    }
  }

  /** The rows in ledger order. */
  ghost function Sort(rows: set<Row>, env: Env): (s: seq<Row>)
    requires DistinctIds(rows)
    ensures |s| == |rows| && forall r :: r in s <==> r in rows
    ensures forall i, j :: 0 <= i < j < |s| ==> Precedes(s[i], s[j], env)
  {
    if rows == {} then [] else
    FirstExists(rows, env);
    var m :| IsFirst(m, rows, env);
    [m] + Sort(rows - {m}, env)
  }

  ghost predicate Sorted(s: seq<Row>, env: Env) {
    forall i, j :: 0 <= i < j < |s| ==> Precedes(s[i], s[j], env)
  }

  lemma {:induction false} NeverBothWays(a: Row, b: Row, env: Env)
    ensures !(Precedes(a, b, env) && Precedes(b, a, env)) && !Precedes(a, a, env)
  {
  }

  lemma {:induction false} SameHead(s: seq<Row>, t: seq<Row>, env: Env)
    requires Sorted(s, env) && Sorted(t, env) && s != [] && t != [] && forall r :: r in s <==> r in t
    ensures s[0] == t[0]
  {
    assert s[0] in t && t[0] in s;
    var i :| 0 <= i < |t| && t[i] == s[0];
    var j :| 0 <= j < |s| && s[j] == t[0];
    NeverBothWays(s[0], t[0], env);
  }

  lemma {:induction false} SortedTail(s: seq<Row>, env: Env)
    requires s != [] && Sorted(s, env)
    ensures Sorted(s[1..], env)
    ensures forall r :: r in s[1..] <==> r in s && r != s[0]
  {
    assert s == [s[0]] + s[1..];
    forall r | r in s[1..] ensures r != s[0] {
      var i :| 0 <= i < |s[1..]| && s[1..][i] == r;
      assert Precedes(s[0], s[i + 1], env);
      NeverBothWays(r, r, env);
    }
  }

  lemma {:induction false} SameSequence(s: seq<Row>, t: seq<Row>, env: Env)
    requires Sorted(s, env) && Sorted(t, env) && forall r :: r in s <==> r in t
    ensures s == t
  {
    hide Sorted, Precedes;
    assert s != [] ==> s[0] in t;
    assert t != [] ==> t[0] in s;
    if s != [] {
      SameHead(s, t, env);
      SortedTail(s, env);
      SortedTail(t, env);
      SameSequence(s[1..], t[1..], env);
      assert s == [s[0]] + s[1..] && t == [t[0]] + t[1..];
    }
  }

  /** There is only one way to sort. */
  lemma {:induction false} SortIsUnique(s: seq<Row>, rows: set<Row>, env: Env)
    requires DistinctIds(rows) && Sorted(s, env) && forall r :: r in s <==> r in rows
    ensures s == Sort(rows, env)
  {
    SameSequence(s, Sort(rows, env), env);
  }

  // ----- one page -----

  datatype Page = Page(items: seq<Row>, hasMore: bool, nextCursor: string)

  function PageSize(limit: int): nat {
    if limit < 1 || limit > 100 then 50 else limit
  }

  function After(rows: set<Row>, c: Option<Cursor>, env: Env): set<Row> {
    if c.None? then rows else set r | r in rows && Beyond(r, c.value, env)
  }

  function Take<T>(s: seq<T>, n: nat): seq<T> {
    if |s| <= n then s else s[..n]
  }

  /** One row more than the page size is fetched, to see whether there are more. */
  function MakePage(fetched: seq<Row>, size: nat, env: Env): Page
    requires size > 0
  {
    var items := Take(fetched, size);
    var hasMore := |fetched| > size;
    Page(items, hasMore, if hasMore then env.encode(Cursor(items[size - 1].timestamp, items[size - 1].id)) else "")
  }

  ghost function GetPage(rows: set<Row>, rawCursor: string, limit: int, env: Env): Result<Page>
    requires DistinctIds(rows)
  {
    match Decode(rawCursor, env)
    case Err(e) => Err(e)
    case Ok(c) => Ok(MakePage(Take(Sort(After(rows, c, env), env), PageSize(limit) + 1), PageSize(limit), env))
  }

  method BuildPage(rows: seq<Row>, size: nat, env: Env) returns (page: Page)
    requires size > 0
    ensures page == MakePage(rows, size, env)
  {
    var result := rows;
    var hasMore := |result| > size;
    if hasMore {
      result := result[..size];
    }
    var next := "";
    if hasMore && |result| > 0 {
      var last := result[|result| - 1];
      next := env.encode(Cursor(last.timestamp, last.id));
    }
    page := Page(result, hasMore, next);
  }

  /** `getScopedUsageLogsCursor` for the rows of the scope; `ledger` is what the query
      would list without its LIMIT. */
  method GetScopedUsageLogs(rows: set<Row>, ledger: seq<Row>, rawCursor: string, limit: int, env: Env) returns (r: Result<Page>)
    requires DistinctIds(rows)
    requires Decode(rawCursor, env).Ok? ==> ledger == Sort(After(rows, Decode(rawCursor, env).value, env), env)
    ensures r == GetPage(rows, rawCursor, limit, env)
  {
    hide Sort, After, Decode, MakePage;
    var size := limit;
    if limit < 1 || limit > 100 {
      size := 50;
    }
    var cursor := Decode(rawCursor, env);
    if cursor.Err? {
      return Err(cursor.error);
    }
    var result: seq<Row> := [];
    while |result| < size + 1 && |result| < |ledger|
      invariant |result| <= size + 1 && |result| <= |ledger| && result == ledger[..|result|]
    {
      result := result + [ledger[|result|]];
    }
    assert result == Take(ledger, size + 1);
    var page := BuildPage(result, size, env);
    r := Ok(page);
  }

  // ----- following the cursors -----

  predicate Readable(r: Row, env: Env) {
    env.datetime(r.timestamp).Some?
  }

  ghost predicate ValidTable(rows: set<Row>) {
    DistinctIds(rows) && forall r :: r in rows ==> r.id >= 1
  }

  function CursorAt(pages: seq<Page>, i: nat): string
    requires i <= |pages|
  {
    if i == 0 then "" else pages[i - 1].nextCursor
  }

  ghost predicate NthPage(tables: seq<set<Row>>, pages: seq<Page>, i: nat, limit: int, env: Env)
    requires i < |tables| == |pages|
  {
    ValidTable(tables[i]) && GetPage(tables[i], CursorAt(pages, i), limit, env) == Ok(pages[i])
  }

  /** Pages fetched one after the other, each from the table as it then is, each with
      the cursor of the page before. */
  ghost predicate Walk(tables: seq<set<Row>>, pages: seq<Page>, limit: int, env: Env) {
    && |tables| == |pages| > 0 && ValidTable(tables[0])
    && (forall i :: 0 <= i < |pages| ==> NthPage(tables, pages, i, limit, env))
    && (forall i :: 0 <= i < |pages| - 1 ==> pages[i].hasMore)
  }

  function Last(p: Page): Row
    requires p.items != []
  {
    p.items[|p.items| - 1]
  }

  /** Rows are only added, and between two pages only ahead of the cursor. */
  ghost predicate InsertsAhead(tables: seq<set<Row>>, pages: seq<Page>, env: Env)
    requires |tables| == |pages|
  {
    forall i :: 0 <= i < |tables| - 1 ==>
      && tables[i] <= tables[i + 1]
      && forall r :: r in tables[i + 1] && r !in tables[i] ==> pages[i].items != [] && Precedes(r, Last(pages[i]), env)
  }

  function Collected(pages: seq<Page>): seq<Row> {
    if pages == [] then [] else Collected(pages[..|pages| - 1]) + pages[|pages| - 1].items
  }

  lemma {:induction false} SuffixSorts(rows: set<Row>, n: nat, env: Env)
    requires DistinctIds(rows) && n <= |Sort(rows, env)|
    ensures var rest := set r | r in Sort(rows, env)[n..];
            rest <= rows && DistinctIds(rest) && Sort(rest, env) == Sort(rows, env)[n..]
  {
    var s := Sort(rows, env);
    var rest := set r | r in s[n..];
    assert forall r :: r in s[n..] ==> r in s;
    SortIsUnique(s[n..], rest, env);
  }

  lemma {:induction false} SuffixMember(s: seq<Row>, i: nat, n: nat, env: Env)
    requires Sorted(s, env) && i < |s| && n <= |s|
    ensures s[i] in s[n..] <==> i >= n
  {
    if i >= n {
      assert s[n..][i - n] == s[i];
    } else {
      forall j | 0 <= j < |s[n..]| ensures s[n..][j] != s[i] {
        NeverBothWays(s[i], s[n + j], env);
      }
    }
  }

  lemma {:induction false} BeyondIsLater(s: seq<Row>, i: nat, n: nat, env: Env)
    requires Sorted(s, env) && i < |s| && 0 < n <= |s| && Readable(s[i], env) && Readable(s[n - 1], env)
    ensures Beyond(s[i], Cursor(s[n - 1].timestamp, s[n - 1].id), env) <==> i >= n
  {
    if i >= n {
      assert Precedes(s[n - 1], s[i], env);
    } else if i < n - 1 {
      assert Precedes(s[i], s[n - 1], env);
    }
  }

  /** In a readable table exactly the rows after position `n` lie beyond the row before it. */
  lemma {:induction false} BeyondIsSuffix(rows: set<Row>, s: seq<Row>, n: nat, env: Env)
    requires Sorted(s, env) && 0 < n <= |s| && forall r :: r in s <==> r in rows
    requires forall r :: r in rows ==> Readable(r, env)
    ensures forall r :: r in rows ==> (Beyond(r, Cursor(s[n - 1].timestamp, s[n - 1].id), env) <==> r in s[n..])
  {
    hide Beyond, Readable, Sorted;
    assert s[n - 1] in s;
    forall r | r in rows ensures Beyond(r, Cursor(s[n - 1].timestamp, s[n - 1].id), env) <==> r in s[n..] {
      var i :| 0 <= i < |s| && s[i] == r;
      SuffixMember(s, i, n, env);
      BeyondIsLater(s, i, n, env);
    }
  }

  lemma {:induction false} AheadIsNotBeyond(r: Row, last: Row, env: Env)
    requires Precedes(r, last, env)
    ensures !Beyond(r, Cursor(last.timestamp, last.id), env)
  {
  }

  /** The cursor of a row comes back as it was. */
  lemma {:induction false} CursorRoundTrip(r: Row, env: Env)
    requires Faithful(env) && Readable(r, env) && r.id >= 1
    ensures Decode(env.encode(Cursor(r.timestamp, r.id)), env) == Ok(Some(Cursor(r.timestamp, r.id)))
  {
  }

  /** The page after position `n` of the original ledger, whatever was inserted ahead. */
  lemma {:induction false} PageFrom(original: set<Row>, rows: set<Row>, n: nat, limit: int, env: Env)
    requires Faithful(env) && ValidTable(original) && ValidTable(rows) && original <= rows
    requires forall r :: r in original ==> Readable(r, env)
    requires 0 < n <= |Sort(original, env)|
    requires forall r :: r in rows && r !in original ==> Precedes(r, Sort(original, env)[n - 1], env)
    ensures var s := Sort(original, env);
            GetPage(rows, env.encode(Cursor(s[n - 1].timestamp, s[n - 1].id)), limit, env)
              == Ok(MakePage(Take(s[n..], PageSize(limit) + 1), PageSize(limit), env))
  {
    hide Sort, Beyond, Readable, Precedes, MakePage, Take;
    var s := Sort(original, env);
    var c := Cursor(s[n - 1].timestamp, s[n - 1].id);
    assert s[n - 1] in s;
    CursorRoundTrip(s[n - 1], env);
    BeyondIsSuffix(original, s, n, env);
    forall r | r in rows && r !in original ensures !Beyond(r, c, env) {
      AheadIsNotBeyond(r, s[n - 1], env);
    }
    SuffixSorts(original, n, env);
    assert After(rows, Some(c), env) == set r | r in s[n..];
  }

  // ----- the walk -----

  lemma {:induction false} TakePage(s: seq<Row>, n: nat, size: nat, env: Env)
    requires n <= |s| && size > 0
    ensures var page := MakePage(Take(s[n..], size + 1), size, env);
            && page.hasMore == (n + size < |s|)
            && page.items == Take(s[n..], size) && Take(s, n) + page.items == Take(s, n + size)
            && (page.hasMore ==> |page.items| == size && Last(page) == s[n + size - 1]
                                 && page.nextCursor == env.encode(Cursor(s[n + size - 1].timestamp, s[n + size - 1].id)))
  {
  }

  /** Rows inserted on the way stay ahead of every later cursor. */
  ghost predicate AllAhead(original: set<Row>, rows: set<Row>, last: Row, env: Env) {
    original <= rows && forall r :: r in rows && r !in original ==> Precedes(r, last, env)
  }

  lemma {:induction false} AheadOfLater(original: set<Row>, rows: set<Row>, last: Row, later: Row, env: Env)
    requires AllAhead(original, rows, last, env) && (last == later || Precedes(last, later, env))
    ensures AllAhead(original, rows, later, env)
  {
  }

  /** What `k` pages have collected, and where the k-th ended. */
  ghost predicate WalkedTo(tables: seq<set<Row>>, pages: seq<Page>, limit: int, env: Env)
    requires |tables| == |pages| > 0 && ValidTable(tables[0])
  {
    var s, k, size := Sort(tables[0], env), |pages|, PageSize(limit);
    var page := pages[k - 1];
    && Collected(pages) == Take(s, k * size)
    && page.hasMore == (k * size < |s|)
    && (page.hasMore ==>
          && page.items != [] && Last(page) == s[k * size - 1]
          && page.nextCursor == env.encode(Cursor(s[k * size - 1].timestamp, s[k * size - 1].id))
          && AllAhead(tables[0], tables[k - 1], s[k * size - 1], env))
  }

  lemma {:induction false} WalkPrefix(tables: seq<set<Row>>, pages: seq<Page>, limit: int, env: Env)
    requires Walk(tables, pages, limit, env) && |pages| > 1
    ensures var n := |pages| - 1; Walk(tables[..n], pages[..n], limit, env)
    ensures var n := |pages| - 1; InsertsAhead(tables, pages, env) ==> InsertsAhead(tables[..n], pages[..n], env)
  {
    hide GetPage, ValidTable, Precedes;
    var n := |pages| - 1;
    assert forall i :: 0 <= i < n ==> pages[..n][i] == pages[i] && tables[..n][i] == tables[i];
    forall i | 0 <= i < n ensures NthPage(tables[..n], pages[..n], i, limit, env) {
      assert NthPage(tables, pages, i, limit, env);
    }
  }

  lemma {:induction false} FirstPage(rows: set<Row>, limit: int, env: Env)
    requires ValidTable(rows)
    ensures GetPage(rows, "", limit, env) == Ok(MakePage(Take(Sort(rows, env)[0..], PageSize(limit) + 1), PageSize(limit), env))
  {
    assert Sort(rows, env)[0..] == Sort(rows, env);
  }

  lemma {:induction false} FirstWalked(rows: set<Row>, page: Page, limit: int, env: Env)
    requires ValidTable(rows)
    ensures GetPage(rows, "", limit, env) == Ok(page) ==>
              WalkedTo([rows], [page], limit, env)
  {
    hide Sort, GetPage, MakePage, Precedes;
    if GetPage(rows, "", limit, env) == Ok(page) {
      FirstPage(rows, limit, env);
      TakePage(Sort(rows, env), 0, PageSize(limit), env);
      assert [page][..0] == [] && Collected([page][..0]) == [];
      assert Collected([page]) == Take(Sort(rows, env), 0) + page.items;
    }
  }

  /** One more page. */
  lemma {:induction false} NextWalked(tables: seq<set<Row>>, pages: seq<Page>, rows: set<Row>, page: Page, limit: int, env: Env)
    requires Faithful(env) && |tables| == |pages| > 0 && ValidTable(tables[0]) && ValidTable(rows)
    requires forall r :: r in tables[0] ==> Readable(r, env)
    requires WalkedTo(tables, pages, limit, env) && pages[|pages| - 1].hasMore
    requires tables[|tables| - 1] <= rows
    requires forall r :: r in rows && r !in tables[|tables| - 1] ==> Precedes(r, Last(pages[|pages| - 1]), env)
    ensures GetPage(rows, pages[|pages| - 1].nextCursor, limit, env) == Ok(page) ==>
              WalkedTo(tables + [rows], pages + [page], limit, env)
  {
    hide Sort, Precedes, Readable, GetPage, MakePage, Take, ValidTable;
    ValidIsDistinct(rows);
    if GetPage(rows, pages[|pages| - 1].nextCursor, limit, env) == Ok(page) {
      assert DistinctIds(tables[0]) by { ValidIsDistinct(tables[0]); }
      var s, n, size := Sort(tables[0], env), |pages|, PageSize(limit);
      var last := s[n * size - 1];
      assert AllAhead(tables[0], rows, last, env);
      PageFrom(tables[0], rows, n * size, limit, env);
      TakePage(s, n * size, size, env);
      assert n * size + size == (n + 1) * size;
      assert (pages + [page])[..n] == pages;
      if page.hasMore {
        SortedPair(tables[0], n * size - 1, (n + 1) * size - 1, env);
        AheadOfLater(tables[0], rows, last, s[(n + 1) * size - 1], env);
      }
    }
  }

  lemma {:induction false} ValidIsDistinct(rows: set<Row>)
    requires ValidTable(rows)
    ensures DistinctIds(rows)
  {
  }

  /** Invariant of a walk over a readable ledger: `k` pages hold the first k * size rows
      of the ledger as it was at the start, in order. */
  lemma {:induction false} WalkInvariant(tables: seq<set<Row>>, pages: seq<Page>, limit: int, env: Env)
    requires Faithful(env) && Walk(tables, pages, limit, env) && InsertsAhead(tables, pages, env)
    requires forall r :: r in tables[0] ==> Readable(r, env)
    ensures WalkedTo(tables, pages, limit, env)
  {
    hide Sort, Precedes, Readable, GetPage, WalkedTo, ValidTable;
    var n := |pages| - 1;
    assert NthPage(tables, pages, 0, limit, env) && NthPage(tables, pages, n, limit, env);
    if n == 0 {
      FirstWalked(tables[0], pages[0], limit, env);
      assert tables == [tables[0]] && pages == [pages[0]];
    } else {
      WalkPrefix(tables, pages, limit, env);
      WalkInvariant(tables[..n], pages[..n], limit, env);
      assert tables[..n][n - 1] == tables[n - 1] && pages[..n][n - 1] == pages[n - 1] && tables[..n][0] == tables[0];
      NextWalked(tables[..n], pages[..n], tables[n], pages[n], limit, env);
      assert tables == tables[..n] + [tables[n]] && pages == pages[..n] + [pages[n]];
    }
  }

  lemma {:induction false} SortedPair(rows: set<Row>, i: nat, j: nat, env: Env)
    requires DistinctIds(rows) && i < j < |Sort(rows, env)|
    ensures Precedes(Sort(rows, env)[i], Sort(rows, env)[j], env)
  {
  }

  function PageCount(n: nat, size: nat): nat
    requires size > 0
  {
    if n == 0 then 1 else (n + size - 1) / size
  }

  lemma {:induction false} Times(a: int, b: int, size: nat)
    ensures a <= b ==> a * size <= b * size
  {
  }

  lemma {:induction false} CountOfPages(n: nat, size: nat, k: nat)
    requires size > 0 && k > 0 && (k - 1) * size < n <= k * size
    ensures k == PageCount(n, size)
  {
    var q := (n + size - 1) / size;
    assert q * size <= n + size - 1 < q * size + size;
    Times(q, k - 1, size);
    Times(k + 1, q, size);
  }

  /** Following the cursors over a readable ledger: the walk ends after max(1, ceil(n/size))
      pages and has then returned every row that was there at the start, once each, newest
      first, although rows were inserted ahead of the cursor on the way. */
  lemma {:induction false} WalkIsComplete(tables: seq<set<Row>>, pages: seq<Page>, limit: int, env: Env)
    requires Faithful(env) && Walk(tables, pages, limit, env) && InsertsAhead(tables, pages, env)
    requires forall r :: r in tables[0] ==> Readable(r, env)
    ensures !pages[|pages| - 1].hasMore ==>
              Collected(pages) == Sort(tables[0], env) && |pages| == PageCount(|tables[0]|, PageSize(limit))
    ensures pages[|pages| - 1].hasMore ==> |pages| < PageCount(|tables[0]|, PageSize(limit))
  {
    hide Sort, Precedes, Readable, GetPage;
    WalkInvariant(tables, pages, limit, env);
    var n, k, size := |tables[0]|, |pages|, PageSize(limit);
    assert |Sort(tables[0], env)| == n;
    if !pages[k - 1].hasMore {
      if k > 1 {
        WalkPrefix(tables, pages, limit, env);
        WalkInvariant(tables[..k - 1], pages[..k - 1], limit, env);
        assert tables[..k - 1][0] == tables[0] && pages[..k - 1][k - 2] == pages[k - 2];
      }
      if n > 0 {
        CountOfPages(n, size, k);
      }
    } else {
      PagesStillToCome(n, size, k);
    }
  }

  lemma {:induction false} PagesStillToCome(n: nat, size: nat, k: nat)
    requires size > 0 && k * size < n
    ensures k < PageCount(n, size)
  {
    var q := (n + size - 1) / size;
    assert q * size + size > n + size - 1;
    Times(q, k, size);
  }

  // ----- rows whose time cannot be read -----

  lemma {:induction false} SortMembers(rows: set<Row>, env: Env)
    requires DistinctIds(rows)
    ensures forall r :: r in Sort(rows, env) <==> r in rows
  {
  }

  lemma {:induction false} BeyondIsReadable(r: Row, c: Cursor, env: Env)
    ensures Beyond(r, c, env) ==> Readable(r, env)
  {
  }

  lemma {:induction false} LaterPagesReadable(rows: set<Row>, raw: string, page: Page, limit: int, env: Env)
    requires DistinctIds(rows) && TrimSpace(raw) != ""
    ensures GetPage(rows, raw, limit, env) == Ok(page) ==>
              forall r :: r in page.items ==> Readable(r, env)
  {
    hide Precedes, TrimSpace;
    if GetPage(rows, raw, limit, env) == Ok(page) {
      var c := Decode(raw, env).value;
      assert c.Some?;
      SortMembers(After(rows, c, env), env);
      hide Sort, Beyond, Decode;
      assert forall r :: r in page.items ==> r in Sort(After(rows, c, env), env);
      forall r | r in page.items ensures Readable(r, env) {
        BeyondIsReadable(r, c.value, env);
      }
    }
  }

  lemma {:induction false} CollectedIn(pages: seq<Page>, r: Row)
    requires r in Collected(pages)
    ensures exists i :: 0 <= i < |pages| && r in pages[i].items
  {
    var n := |pages| - 1;
    if r in Collected(pages[..n]) {
      CollectedIn(pages[..n], r);
      var i :| 0 <= i < n && r in pages[..n][i].items;
      assert r in pages[i].items;
    } else {
      assert r in pages[n].items;
    }
  }

  /** With a row whose time cannot be read and more rows than fit on a page, the last
      row of the ledger is on no page. */
  lemma {:induction false} LastRowIsLost(rows: set<Row>, tables: seq<set<Row>>, pages: seq<Page>, limit: int, env: Env)
    requires Faithful(env) && Walk(tables, pages, limit, env) && forall i :: 0 <= i < |tables| ==> tables[i] == rows
    requires DistinctIds(rows) && |rows| > PageSize(limit) && exists r :: r in rows && !Readable(r, env)
    ensures Sort(rows, env)[|rows| - 1] !in Collected(pages)
  {
    hide Sort, Precedes, Readable, GetPage, MakePage, Faithful, ValidTable, TrimSpace;
    var last := Sort(rows, env)[|rows| - 1];
    UnreadableSortsLast(rows, env);
    forall i | 0 <= i < |pages| ensures last !in pages[i].items {
      assert NthPage(tables, pages, i, limit, env) && tables[i] == rows;
      if i == 0 {
        FirstPageOf(rows, pages[0], limit, env);
        NotInPrefix(rows, PageSize(limit), env);
      } else {
        assert NthPage(tables, pages, i - 1, limit, env) && tables[i - 1] == rows && pages[i - 1].hasMore;
        NextCursorIsSet(rows, CursorAt(pages, i - 1), pages[i - 1], limit, env);
        LaterPagesReadable(rows, pages[i - 1].nextCursor, pages[i], limit, env);
      }
    }
    if last in Collected(pages) {
      CollectedIn(pages, last);
    }
  }

  lemma {:induction false} FirstPageOf(rows: set<Row>, page: Page, limit: int, env: Env)
    requires ValidTable(rows)
    ensures GetPage(rows, "", limit, env) == Ok(page) ==>
              page.items == Take(Sort(rows, env), PageSize(limit)) && page.hasMore == (|rows| > PageSize(limit))
  {
    hide Precedes, Sort;
    SortLength(rows, env);
    FirstPage(rows, limit, env);
    var s := Sort(rows, env);
    TakePage(s, 0, PageSize(limit), env);
    if GetPage(rows, "", limit, env) == Ok(page) {
      assert Take(s, 0) + page.items == page.items;
    }
  }

  /** Over a ledger that does not change, a finished walk has returned every row if and
      only if they fit on one page or every row's time can be read. */
  lemma {:induction false} CompleteIffReadable(rows: set<Row>, tables: seq<set<Row>>, pages: seq<Page>, limit: int, env: Env)
    requires Faithful(env) && Walk(tables, pages, limit, env) && forall i :: 0 <= i < |tables| ==> tables[i] == rows
    requires !pages[|pages| - 1].hasMore
    ensures (forall r :: r in rows ==> r in Collected(pages))
            <==> |rows| <= PageSize(limit) || forall r :: r in rows ==> Readable(r, env)
  {
    hide Sort, Precedes, Readable, GetPage, MakePage, Faithful;
    assert NthPage(tables, pages, 0, limit, env) && tables[0] == rows;
    SortMembers(rows, env);
    if forall r :: r in rows ==> Readable(r, env) {
      assert InsertsAhead(tables, pages, env);
      WalkIsComplete(tables, pages, limit, env);
    } else if |rows| <= PageSize(limit) {
      FirstPageOf(rows, pages[0], limit, env);
      assert |pages| == 1 && pages[..0] == [];
      assert |Sort(rows, env)| == |rows| by { SortLength(rows, env); }
    } else {
      LastRowIsLost(rows, tables, pages, limit, env);
      SortLength(rows, env);
      var last := Sort(rows, env)[|rows| - 1];
      assert last in Sort(rows, env);
    }
  }

  lemma {:induction false} SortLength(rows: set<Row>, env: Env)
    requires DistinctIds(rows)
    ensures |Sort(rows, env)| == |rows|
  {
  }

  lemma {:induction false} NextCursorIsSet(rows: set<Row>, raw: string, page: Page, limit: int, env: Env)
    requires Faithful(env) && DistinctIds(rows)
    ensures GetPage(rows, raw, limit, env) == Ok(page) && page.hasMore ==>
              TrimSpace(page.nextCursor) != ""
  {
    hide Sort, TrimSpace, Decode;
  }

  lemma {:induction false} UnreadableSortsLast(rows: set<Row>, env: Env)
    requires DistinctIds(rows) && exists r :: r in rows && !Readable(r, env)
    ensures rows != {} && !Readable(Sort(rows, env)[|rows| - 1], env)
  {
    var s := Sort(rows, env);
    var r :| r in rows && !Readable(r, env);
    var i :| 0 <= i < |s| && s[i] == r;
    assert i < |s| - 1 ==> Precedes(s[i], s[|s| - 1], env);
  }

  lemma {:induction false} NotInPrefix(rows: set<Row>, size: nat, env: Env)
    requires DistinctIds(rows) && size < |rows|
    ensures Sort(rows, env)[|rows| - 1] !in Take(Sort(rows, env), size)
  {
    var s := Sort(rows, env);
    forall i | 0 <= i < size ensures s[i] != s[|s| - 1] {
      NeverBothWays(s[i], s[|s| - 1], env);
    }
  }

  // ----- walks that cannot go on -----

  /** The cursor of a page is refused exactly when the time of its last row is blank. */
  lemma {:induction false} NextPageRefusedIffBlank(rows: set<Row>, rawCursor: string, page: Page, later: set<Row>, limit: int, env: Env)
    requires Faithful(env) && ValidTable(rows) && ValidTable(later) && GetPage(rows, rawCursor, limit, env) == Ok(page) && page.hasMore
    ensures page.items != [] && Last(page) in rows
    ensures GetPage(later, page.nextCursor, limit, env).Err? <==> TrimSpace(Last(page).timestamp) == ""
  {
    hide TrimSpace, Sort, Precedes;
    var c := Decode(rawCursor, env).value;
    var s := Sort(After(rows, c, env), env);
    assert Last(page) == s[PageSize(limit) - 1];
    assert s[PageSize(limit) - 1] in s;
  }

  /** Of any walk whose last page says that there is more: it cannot go on exactly when
      that page is the first and the time of its last row is blank. */
  lemma {:induction false} WalkIsStuckIff(tables: seq<set<Row>>, pages: seq<Page>, later: set<Row>, limit: int, env: Env)
    requires Faithful(env) && Walk(tables, pages, limit, env) && ValidTable(later) && pages[|pages| - 1].hasMore
    ensures pages[0].items != []
    ensures GetPage(later, pages[|pages| - 1].nextCursor, limit, env).Err? <==> |pages| == 1 && TrimSpace(Last(pages[0]).timestamp) == ""
  {
    hide TrimSpace, GetPage, Faithful;
    var n := |pages| - 1;
    assert NthPage(tables, pages, n, limit, env) && NthPage(tables, pages, 0, limit, env);
    NextPageRefusedIffBlank(tables[n], CursorAt(pages, n), pages[n], later, limit, env);
    if n > 0 {
      assert pages[0].hasMore;
      NextPageRefusedIffBlank(tables[0], "", pages[0], later, limit, env);
      LaterPageIsReadable(tables, pages, n, limit, env);
    }
  }

  /** From the second page on the last row has a time. */
  lemma {:induction false} LaterPageIsReadable(tables: seq<set<Row>>, pages: seq<Page>, n: nat, limit: int, env: Env)
    requires Faithful(env) && Walk(tables, pages, limit, env) && 0 < n < |pages| && pages[n].items != []
    ensures TrimSpace(Last(pages[n]).timestamp) != "" && Readable(Last(pages[n]), env)
  {
    hide TrimSpace, GetPage;
    assert NthPage(tables, pages, n, limit, env) && NthPage(tables, pages, n - 1, limit, env) && pages[n - 1].hasMore;
    NextCursorIsSet(tables[n - 1], CursorAt(pages, n - 1), pages[n - 1], limit, env);
    LaterPagesReadable(tables[n], pages[n - 1].nextCursor, pages[n], limit, env);
    assert Last(pages[n]) in pages[n].items;
  }

  /** The same table at every page. */
  function Still(rows: set<Row>, n: nat): seq<set<Row>> {
    seq(n, _ => rows)
  }

  ghost predicate Finished(rows: set<Row>, pages: seq<Page>, limit: int, env: Env) {
    Walk(Still(rows, |pages|), pages, limit, env) && !pages[|pages| - 1].hasMore
  }

  function RowsLeft(rows: set<Row>, page: Page, env: Env): set<Row> {
    if page.items == [] then {} else After(rows, Some(Cursor(Last(page).timestamp, Last(page).id)), env)
  }

  lemma {:induction false} FewerRowsLeft(rows: set<Row>, page: Page, next: Page, limit: int, env: Env)
    requires Faithful(env) && ValidTable(rows) && page.items != [] && Last(page) in rows
    requires page.nextCursor == env.encode(Cursor(Last(page).timestamp, Last(page).id))
    ensures GetPage(rows, page.nextCursor, limit, env) == Ok(next) && next.items != [] ==>
              RowsLeft(rows, next, env) < RowsLeft(rows, page, env)
  {
    hide TrimSpace, Sort, Precedes;
    if GetPage(rows, page.nextCursor, limit, env) == Ok(next) && next.items != [] {
      var c := Cursor(Last(page).timestamp, Last(page).id);
      assert Decode(page.nextCursor, env) == Ok(Some(c));
      var s := Sort(After(rows, Some(c), env), env);
      var size := PageSize(limit);
      assert next.items == Take(Take(s, size + 1), size);
      assert Last(next) in s;
      assert Beyond(Last(next), c, env);
      assert Last(next) !in RowsLeft(rows, next, env);
    }
  }

  lemma {:induction false} HasMoreCursor(rows: set<Row>, rawCursor: string, page: Page, limit: int, env: Env)
    requires ValidTable(rows)
    ensures GetPage(rows, rawCursor, limit, env) == Ok(page) && page.hasMore ==>
              page.items != [] && page.nextCursor == env.encode(Cursor(Last(page).timestamp, Last(page).id))
  {
    hide Sort, TrimSpace, Decode;
  }

  lemma {:induction false} WalkExtends(rows: set<Row>, pages: seq<Page>, next: Page, limit: int, env: Env)
    requires ValidTable(rows) && pages != [] && pages[|pages| - 1].hasMore
    ensures GetPage(rows, pages[|pages| - 1].nextCursor, limit, env) == Ok(next) && Walk(Still(rows, |pages|), pages, limit, env) ==>
              Walk(Still(rows, |pages| + 1), pages + [next], limit, env)
  {
    hide GetPage, ValidTable;
    ValidIsDistinct(rows);
    if GetPage(rows, pages[|pages| - 1].nextCursor, limit, env) == Ok(next) && Walk(Still(rows, |pages|), pages, limit, env) {
      var all := pages + [next];
      var tables := Still(rows, |all|);
      forall i | 0 <= i < |all| ensures NthPage(tables, all, i, limit, env) {
        if i < |pages| {
          assert NthPage(Still(rows, |pages|), pages, i, limit, env);
        }
      }
    }
  }

  /** A walk over a fixed table that is not stuck at its first page can be walked to its end. */
  lemma {:induction false} CanFinish(rows: set<Row>, pages: seq<Page>, limit: int, env: Env) returns (all: seq<Page>)
    requires Faithful(env) && ValidTable(rows) && Walk(Still(rows, |pages|), pages, limit, env)
    requires pages[0].hasMore && pages[0].items != [] ==> TrimSpace(Last(pages[0]).timestamp) != ""
    ensures Finished(rows, all, limit, env)
    decreases RowsLeft(rows, pages[|pages| - 1], env), pages[|pages| - 1].hasMore
  {
    hide GetPage, TrimSpace, Faithful, RowsLeft;
    var n := |pages| - 1;
    var tables := Still(rows, |pages|);
    all := pages;
    if pages[n].hasMore {
      WalkIsStuckIff(tables, pages, rows, limit, env);
      var next := GetPage(rows, pages[n].nextCursor, limit, env).value;
      assert NthPage(tables, pages, n, limit, env);
      HasMoreCursor(rows, CursorAt(pages, n), pages[n], limit, env);
      NextPageRefusedIffBlank(rows, CursorAt(pages, n), pages[n], rows, limit, env);
      WalkExtends(rows, pages, next, limit, env);
      if next.hasMore {
        HasMoreCursor(rows, pages[n].nextCursor, next, limit, env);
        FewerRowsLeft(rows, pages[n], next, limit, env);
        all := CanFinish(rows, pages + [next], limit, env);
      } else {
        all := pages + [next];
      }
    }
  }

  /** Over a ledger that does not change, the cursors lead to an end if and only if the rows
      fit on one page or the last row of the first page has a time that is not blank. */
  lemma {:induction false} WalkFinishesIff(rows: set<Row>, limit: int, env: Env)
    requires Faithful(env) && ValidTable(rows)
    ensures |Sort(rows, env)| == |rows|
    ensures (exists pages :: Finished(rows, pages, limit, env))
            <==> |rows| <= PageSize(limit) || TrimSpace(Sort(rows, env)[PageSize(limit) - 1].timestamp) != ""
  {
    hide GetPage, TrimSpace, Faithful, Sort, Precedes;
    SortLength(rows, env);
    var size := PageSize(limit);
    assert GetPage(rows, "", limit, env).Ok? by {
      FirstPage(rows, limit, env);
    }
    var first := GetPage(rows, "", limit, env).value;
    FirstPageOf(rows, first, limit, env);
    OnePageWalk(rows, first, limit, env);
    if first.hasMore {
      WalkIsStuckIff(Still(rows, 1), [first], rows, limit, env);
      assert Last(first) == Sort(rows, env)[size - 1];
    }
    if |rows| <= size || TrimSpace(Sort(rows, env)[size - 1].timestamp) != "" {
      var pages := CanFinish(rows, [first], limit, env);
    } else {
      forall pages ensures !Finished(rows, pages, limit, env) {
        if Finished(rows, pages, limit, env) {
          StuckAtFirst(rows, pages, first, limit, env);
        }
      }
    }
  }

  lemma {:induction false} OnePageWalk(rows: set<Row>, first: Page, limit: int, env: Env)
    requires ValidTable(rows)
    ensures GetPage(rows, "", limit, env) == Ok(first) ==>
              Walk(Still(rows, 1), [first], limit, env)
  {
    hide GetPage;
    if GetPage(rows, "", limit, env) == Ok(first) {
      assert NthPage(Still(rows, 1), [first], 0, limit, env);
    }
  }

  lemma {:induction false} StuckAtFirst(rows: set<Row>, pages: seq<Page>, first: Page, limit: int, env: Env)
    requires ValidTable(rows)
    ensures (&& Walk(Still(rows, |pages|), pages, limit, env) && GetPage(rows, "", limit, env) == Ok(first)
             && GetPage(rows, first.nextCursor, limit, env).Err?) ==> pages == [first]
  {
    hide GetPage;
    if Walk(Still(rows, |pages|), pages, limit, env) && GetPage(rows, "", limit, env) == Ok(first)
       && GetPage(rows, first.nextCursor, limit, env).Err? {
      assert NthPage(Still(rows, |pages|), pages, 0, limit, env);
      assert |pages| > 1 ==> !NthPage(Still(rows, |pages|), pages, 1, limit, env);
    }
  }

  // ----- a ledger with an unreadable row -----

  /** One way to write a cursor. */
  function WriteCursor(c: Cursor): string {
    (if c.id < 0 then "-" + Decimal(-c.id) else "+" + Decimal(c.id)) + "|" + c.timestamp
  }

  ghost function ReadCursor(s: string): Option<Cursor> {
    if exists c :: WriteCursor(c) == s then
      var c :| WriteCursor(c) == s;
      Some(c)
    else None
  }

  function Size(id: int): nat {
    if id < 0 then -id else id
  }

  /** Sign, digits, bar, time. */
  lemma {:induction false} CursorParts(c: Cursor) returns (n: nat)
    ensures var s := WriteCursor(c);
            && n + 2 <= |s| && s[0] == (if c.id < 0 then '-' else '+') && s[n + 1] == '|' && s[n + 2..] == c.timestamp
            && (forall i :: 1 <= i <= n ==> s[i] != '|') && ReadDecimal(s[1..n + 1]) == Size(c.id)
  {
    DecimalReads(Size(c.id));
    var s, x := WriteCursor(c), Decimal(Size(c.id));
    hide Decimal, ReadDecimal;
    n := |x|;
    assert s == [s[0]] + x + "|" + c.timestamp;
    assert s[1..n + 1] == x;
    assert forall i :: 1 <= i <= n ==> s[i] == x[i - 1];
  }

  lemma {:induction false} WritingIsInjective(a: Cursor, b: Cursor)
    requires WriteCursor(a) == WriteCursor(b)
    ensures a == b
  {
    hide WriteCursor, ReadDecimal;
    var m := CursorParts(a);
    var n := CursorParts(b);
    assert m == n;
  }

  lemma {:induction false} TrimRightKeeps(s: string)
    requires s != "" && !IsSpace(s[0])
    ensures TrimRight(s) != ""
  {
    if IsSpace(s[|s| - 1]) {
      TrimRightKeeps(s[..|s| - 1]);
    }
  }

  /** Only "now" is a time. */
  ghost function SomeEnv(): Env {
    Env(ts => if ts == "now" then Some(1) else None, c => WriteCursor(c), s => ReadCursor(s))
  }

  lemma {:induction false} SomeEnvIsFaithful()
    ensures Faithful(SomeEnv())
  {
    var env := SomeEnv();
    forall c ensures env.decode(env.encode(c)) == Some(c) && TrimSpace(env.encode(c)) != "" {
      var d :| WriteCursor(d) == WriteCursor(c) && ReadCursor(WriteCursor(c)) == Some(d);
      WritingIsInjective(d, c);
      assert WriteCursor(c)[0] == '-' || WriteCursor(c)[0] == '+';
      TrimRightKeeps(WriteCursor(c));
    }
    TrimRightKeeps("now");
  }

  /** Of two rows, one unreadable, a walk with pages of one row ends without the unreadable one. */
  lemma {:induction false} UnreadableRowIsLost(env: Env) returns (rows: set<Row>, pages: seq<Page>)
    requires env == SomeEnv()
    ensures Faithful(env) && Finished(rows, pages, 1, env) && |rows| == 2 && |Collected(pages)| == 1
  {
    hide Sort, Precedes, GetPage, TrimSpace, Faithful;
    SomeEnvIsFaithful();
    var good, bad := Row(2, "now"), Row(1, "then");
    rows := {good, bad};
    TwoRows(good, bad, env);
    assert GetPage(rows, "", 1, env).Ok? by {
      FirstPage(rows, 1, env);
    }
    var first := GetPage(rows, "", 1, env).value;
    FirstPageOf(rows, first, 1, env);
    OnePageWalk(rows, first, 1, env);
    WalkIsStuckIff(Still(rows, 1), [first], rows, 1, env);
    NowIsNotBlank();
    var next := GetPage(rows, first.nextCursor, 1, env).value;
    HasMoreCursor(rows, "", first, 1, env);
    NothingBeyond(rows, first, next, env);
    WalkExtends(rows, [first], next, 1, env);
    pages := [first, next];
    assert [first] + [next] == pages && pages[..1] == [first] && [first][..0] == [];
    assert Collected([first][..0]) == [];
  }

  lemma {:induction false} NowIsNotBlank()
    ensures TrimSpace("now") != ""
  {
    TrimRightKeeps("now");
  }

  lemma {:induction false} TwoRows(good: Row, bad: Row, env: Env)
    requires good == Row(2, "now") && bad == Row(1, "then") && env == SomeEnv()
    ensures ValidTable({good, bad}) && |{good, bad}| == 2 && Sort({good, bad}, env) == [good, bad]
  {
    hide Sort;
    assert Sorted([good, bad], env);
    SortIsUnique([good, bad], {good, bad}, env);
    SortLength({good, bad}, env);
  }

  lemma {:induction false} NothingBeyond(rows: set<Row>, first: Page, next: Page, env: Env)
    requires env == SomeEnv() && Faithful(env) && rows == {Row(2, "now"), Row(1, "then")} && ValidTable(rows)
    requires first.items == [Row(2, "now")] && first.nextCursor == env.encode(Cursor("now", 2))
    requires GetPage(rows, first.nextCursor, 1, env) == Ok(next)
    ensures next == Page([], false, "")
  {
    hide WriteCursor, ReadCursor, TrimSpace;
    var c := Cursor("now", 2);
    NowIsNotBlank();
    assert Decode(first.nextCursor, env) == Ok(Some(c));
    assert After(rows, Some(c), env) == {};
    assert Sort({}, env) == [];
  }
}
