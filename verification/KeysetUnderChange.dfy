/** Following the cursors while rows come and go anywhere in the ledger. */
module KeysetUnderChange {
  import opened Basics
  import opened Strings
  import opened KeysetPaging

  lemma {:induction false} PrecedesIsTransitive(a: Row, b: Row, c: Row, env: Env)
    requires Precedes(a, b, env) && Precedes(b, c, env)
    ensures Precedes(a, c, env)
  {
  }

  lemma {:induction false} BeyondIffBehind(last: Row, r: Row, env: Env)
    requires Readable(r, env)
    ensures Beyond(r, Cursor(last.timestamp, last.id), env) <==> Precedes(last, r, env)
  {
  }

  lemma {:induction false} BeyondIsBehind(last: Row, r: Row, env: Env)
    requires Beyond(r, Cursor(last.timestamp, last.id), env)
    ensures Precedes(last, r, env)
  {
  }

  /** What a page holds of the rows `s` that its query can list. */
  ghost predicate PageOf(page: Page, s: seq<Row>, limit: int) {
    && page.items == Take(s, PageSize(limit)) && page.hasMore == (|s| > PageSize(limit))
  }

  lemma {:induction false} PageIs(rows: set<Row>, raw: string, page: Page, limit: int, env: Env)
    requires ValidTable(rows) && Decode(raw, env).Ok?
    ensures GetPage(rows, raw, limit, env) == Ok(page) ==>
              PageOf(page, Sort(After(rows, Decode(raw, env).value, env), env), limit)
  {
    hide Sort, Decode, After;
  }

  lemma {:induction false} CursorIsRead(last: Row, env: Env)
    requires Faithful(env)
    ensures var c := Cursor(last.timestamp, last.id);
            var read := Decode(env.encode(c), env);
            read.Ok? ==> read == Ok(Some(c))
  {
    hide TrimSpace;
  }

  lemma {:induction false} OkIsDecoded(rows: set<Row>, raw: string, limit: int, env: Env)
    requires ValidTable(rows)
    ensures GetPage(rows, raw, limit, env).Ok? ==> Decode(raw, env).Ok?
  {
    hide Sort, Decode, After, MakePage;
  }

  /** A page of a walk lists the rows then in the table behind the last row of the page before. */
  lemma {:induction false} ListedOnPage(tables: seq<set<Row>>, pages: seq<Page>, i: nat, limit: int, env: Env)
    requires Faithful(env) && Walk(tables, pages, limit, env) && i < |pages|
    ensures i > 0 ==> pages[i - 1].items != []
    ensures var c := if i == 0 then None else Some(Cursor(Last(pages[i - 1]).timestamp, Last(pages[i - 1]).id));
            DistinctIds(tables[i]) && PageOf(pages[i], Sort(After(tables[i], c, env), env), limit)
  {
    hide Sort, Decode, After, MakePage, PageOf, GetPage, Faithful;
    assert NthPage(tables, pages, i, limit, env);
    ValidIsDistinct(tables[i]);
    OkIsDecoded(tables[i], CursorAt(pages, i), limit, env);
    PageIs(tables[i], CursorAt(pages, i), pages[i], limit, env);
    if i == 0 {
      NoCursor(env);
    } else {
      assert NthPage(tables, pages, i - 1, limit, env) && pages[i - 1].hasMore;
      HasMoreCursor(tables[i - 1], CursorAt(pages, i - 1), pages[i - 1], limit, env);
      CursorIsRead(Last(pages[i - 1]), env);
    }
  }

  lemma {:induction false} NoCursor(env: Env)
    ensures Decode("", env) == Ok(None)
  {
  }

  // ----- no row twice -----

  lemma {:induction false} SortedAppend(s: seq<Row>, t: seq<Row>, env: Env)
    requires Sorted(s, env) && Sorted(t, env) && (s != [] ==> forall r :: r in t ==> Precedes(s[|s| - 1], r, env))
    ensures Sorted(s + t, env)
  {
    hide Precedes;
    var u := s + t;
    forall i, j | 0 <= i < j < |u| ensures Precedes(u[i], u[j], env) {
      if i < |s| <= j {
        assert u[j] == t[j - |s|] && u[j] in t;
        if i < |s| - 1 {
          PrecedesIsTransitive(u[i], s[|s| - 1], u[j], env);
        }
      } else if |s| <= i {
        assert u[i] == t[i - |s|] && u[j] == t[j - |s|];
      }
    }
  }

  lemma {:induction false} SortIsSorted(rows: set<Row>, env: Env)
    requires DistinctIds(rows)
    ensures Sorted(Sort(rows, env), env) && forall r :: r in rows <==> r in Sort(rows, env)
  {
    hide Precedes;
  }

  lemma {:induction false} FrontOf(page: Page, s: seq<Row>, limit: int, env: Env)
    requires Sorted(s, env) && PageOf(page, s, limit)
    ensures Sorted(page.items, env) && forall r :: r in page.items ==> r in s
    ensures forall r :: r in s ==> r in page.items || (page.hasMore && page.items != [] && Precedes(Last(page), r, env))
  {
    hide Precedes;
    var size := PageSize(limit);
    forall i | 0 <= i < |s| ensures s[i] in page.items || (page.hasMore && page.items != [] && Precedes(Last(page), s[i], env)) {
      if i < size {
        assert page.items[i] == s[i];
      }
    }
  }

  lemma {:induction false} ItemsAre(page: Page, rows: set<Row>, limit: int, env: Env)
    requires DistinctIds(rows) && PageOf(page, Sort(rows, env), limit)
    ensures Sorted(page.items, env) && forall r :: r in page.items ==> r in rows
    ensures forall r :: r in rows ==> r in page.items || (page.hasMore && page.items != [] && Precedes(Last(page), r, env))
  {
    hide Precedes, Sort, Sorted, PageOf;
    SortIsSorted(rows, env);
    FrontOf(page, Sort(rows, env), limit, env);
  }

  /** All rows returned so far stand in ledger order, ending with the last row of the last page. */
  lemma {:induction false} OrderedSoFar(tables: seq<set<Row>>, pages: seq<Page>, limit: int, env: Env)
    requires Faithful(env) && Walk(tables, pages, limit, env)
    ensures Sorted(Collected(pages), env)
    ensures pages[|pages| - 1].items != [] ==> Collected(pages) != [] && Collected(pages)[|Collected(pages)| - 1] == Last(pages[|pages| - 1])
  {
    hide Sort, Beyond, Precedes, PageOf, GetPage, Faithful, Sorted, NthPage, ValidTable;
    var n := |pages| - 1;
    ListedOnPage(tables, pages, n, limit, env);
    var c := if n == 0 then None else Some(Cursor(Last(pages[n - 1]).timestamp, Last(pages[n - 1]).id));
    ItemsAre(pages[n], After(tables[n], c, env), limit, env);
    if n == 0 {
      NothingCollected(pages, env);
    } else {
      WalkPrefix(tables, pages, limit, env);
      OrderedSoFar(tables[..n], pages[..n], limit, env);
      assert pages[..n][n - 1] == pages[n - 1];
      forall r | r in pages[n].items ensures Precedes(Last(pages[n - 1]), r, env) {
        BeyondIsBehind(Last(pages[n - 1]), r, env);
      }
    }
    SortedAppend(Collected(pages[..n]), pages[n].items, env);
  }

  lemma {:induction false} NothingCollected(pages: seq<Page>, env: Env)
    requires |pages| == 1
    ensures Collected(pages[..0]) == [] && Sorted([], env)
  {
  }

  // ----- no row missed -----

  /** A readable row that was in the table at every page so far is collected, or still ahead of
      the cursor. */
  lemma {:induction false} StillToCome(tables: seq<set<Row>>, pages: seq<Page>, r: Row, limit: int, env: Env)
    requires Faithful(env) && Walk(tables, pages, limit, env)
    requires Readable(r, env) && forall i :: 0 <= i < |tables| ==> r in tables[i]
    ensures var page := pages[|pages| - 1];
            r in Collected(pages) || (page.hasMore && page.items != [] && Precedes(Last(page), r, env))
  {
    hide Sort, Beyond, Precedes, PageOf, GetPage, Faithful, Readable, NthPage, ValidTable;
    var n := |pages| - 1;
    ListedOnPage(tables, pages, n, limit, env);
    var c := if n == 0 then None else Some(Cursor(Last(pages[n - 1]).timestamp, Last(pages[n - 1]).id));
    ItemsAre(pages[n], After(tables[n], c, env), limit, env);
    assert r in tables[n];
    if n > 0 {
      WalkPrefix(tables, pages, limit, env);
      assert forall i :: 0 <= i < n ==> tables[..n][i] == tables[i];
      StillToCome(tables[..n], pages[..n], r, limit, env);
      assert pages[..n][n - 1] == pages[n - 1];
      BeyondIffBehind(Last(pages[n - 1]), r, env);
    }
  }

  lemma {:induction false} NoneTwice(s: seq<Row>, env: Env)
    requires Sorted(s, env)
    ensures forall i, j :: 0 <= i < j < |s| ==> s[i] != s[j]
  {
    forall i, j | 0 <= i < j < |s| ensures s[i] != s[j] {
      NeverBothWays(s[i], s[j], env);
    }
  }

  lemma {:induction false} CollectedWasThere(tables: seq<set<Row>>, pages: seq<Page>, r: Row, limit: int, env: Env)
    requires Faithful(env) && Walk(tables, pages, limit, env) && r in Collected(pages)
    ensures exists i :: 0 <= i < |pages| && r in pages[i].items && r in tables[i]
  {
    hide Sort, Beyond, Precedes, PageOf, GetPage, Faithful, NthPage, ValidTable, Collected;
    CollectedIn(pages, r);
    var i :| 0 <= i < |pages| && r in pages[i].items;
    ListedOnPage(tables, pages, i, limit, env);
    var c := if i == 0 then None else Some(Cursor(Last(pages[i - 1]).timestamp, Last(pages[i - 1]).id));
    ItemsAre(pages[i], After(tables[i], c, env), limit, env);
  }

  /** Whatever rows are added and removed between the pages of a walk, anywhere in the ledger:
      what is returned was in the table when its page was read, in ledger order over all pages
      and therefore no row twice; and when the walk ends, every readable row that was there at
      every page has been returned. */
  lemma {:induction false} WalkUnderChange(tables: seq<set<Row>>, pages: seq<Page>, limit: int, env: Env)
    requires Faithful(env) && Walk(tables, pages, limit, env)
    ensures Sorted(Collected(pages), env) && forall i, j :: 0 <= i < j < |Collected(pages)| ==> Collected(pages)[i] != Collected(pages)[j]
    ensures forall r :: r in Collected(pages) ==> exists i :: 0 <= i < |pages| && r in pages[i].items && r in tables[i]
    ensures !pages[|pages| - 1].hasMore ==>
              forall r :: Readable(r, env) && (forall i :: 0 <= i < |tables| ==> r in tables[i]) ==> r in Collected(pages)
  {
    hide Precedes, Faithful, NthPage, Readable, Collected, Sorted, ValidTable;
    OrderedSoFar(tables, pages, limit, env);
    NoneTwice(Collected(pages), env);
    forall r | r in Collected(pages) ensures exists i :: 0 <= i < |pages| && r in pages[i].items && r in tables[i] {
      CollectedWasThere(tables, pages, r, limit, env);
    }
    forall r | Readable(r, env) && forall i :: 0 <= i < |tables| ==> r in tables[i]
      ensures r in Collected(pages) || pages[|pages| - 1].hasMore
    {
      StillToCome(tables, pages, r, limit, env);
    }
  }
}
