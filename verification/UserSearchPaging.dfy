/** A user search read page after page: every row once, the lead rows first. */
module UserSearchPaging {
  import opened Options
  import opened UserSearch
  import opened UserSearchMerge

  /** The last row of a page, and the ids page one led with. */
  datatype Cursor = Cursor(last: Row, lead: set<string>)

  datatype Page = Page(shown: seq<Row>, next: Option<Cursor>)

  function RowOf(after: Option<Cursor>): Option<Row> {
    if after.Some? then Some(after.value.last) else None
  }

  /** One page of a search over what this server and its peers answer, each
      with up to limit + 1 rows after the cursor. */
  method SearchUsers(query: string, local: seq<Row>, foreign: seq<Row>, limit: nat, after: Option<Cursor>,
      fold: Fold) returns (page: Page)
    requires limit > 0
    ensures page == SearchPage(query, local, foreign, limit, after, fold)
    ensures after.None? ==>
              exists n: nat ::
                LeadsWith(query, local, foreign, limit, fold, page.shown, n)
                && (page.next.Some? ==> page.next.value.lead == Ids(page.shown[..n]))
  {
    hide LeadsWith;
    var rows, lead, hasMore := MergeUserSearchResults(query, local, foreign, limit, after.None?, fold);
    FillIsFull(if after.None? then Lead(query, local, foreign, limit, fold) else [], Merged(local, foreign), limit);
    var shown := rows;
    if after.Some? {
      lead := after.value.lead;
      shown := Without(rows, lead);
    }
    page := Page(shown, if hasMore && |rows| > 0 then Some(Cursor(rows[|rows| - 1], lead)) else None);
  }

  lemma FillIsFull(lead: seq<Row>, all: seq<Row>, limit: nat)
    ensures lead == [] && |all| > limit ==> |Fill(lead, all, limit)| == limit
  {
    NothingWithout(all);
  }

  lemma {:induction false} NothingWithout(rows: seq<Row>)
    ensures Without(rows, {}) == rows && Ids([]) == {}
  {
    if rows != [] { NothingWithout(rows[1..]); }
  }

  function SearchPage(query: string, local: seq<Row>, foreign: seq<Row>, limit: nat, after: Option<Cursor>,
      fold: Fold): Page
    requires limit > 0
  {
    PageFor(after, if after.None? then Lead(query, local, foreign, limit, fold) else [], Merged(local, foreign), limit)
  }

  /** The page of all that lead, if it is the first, begins. */
  function PageFor(after: Option<Cursor>, lead: seq<Row>, all: seq<Row>, limit: nat): Page {
    var rows := Fill(lead, all, limit);
    var leadIds := if after.None? then Ids(lead) else after.value.lead;
    Page(if after.None? then rows else Without(rows, leadIds),
         if |all| > limit && |rows| > 0 then Some(Cursor(rows[|rows| - 1], leadIds)) else None)
  }

  /** The page when sources[0] is this server's and the others its peers'. */
  function PageAt(query: string, sources: seq<seq<Row>>, limit: nat, after: Option<Cursor>, fold: Fold): Page
    requires limit > 0 && sources != []
  {
    var answers := Answers(sources, RowOf(after), limit + 1);
    SearchPage(query, answers[0], Concat(answers[1..]), limit, after, fold)
  }

  /** The rows page one leads with. */
  function LeadOf(query: string, sources: seq<seq<Row>>, limit: nat, fold: Fold): seq<Row>
    requires limit > 0 && sources != []
  {
    var answers := Answers(sources, None, limit + 1);
    Lead(query, answers[0], Concat(answers[1..]), limit, fold)
  }

  /** The pages got by following each page's cursor to the last one. */
  ghost predicate IsCrawl(query: string, sources: seq<seq<Row>>, limit: nat, after: Option<Cursor>, fold: Fold,
      pages: seq<seq<Row>>)
    requires limit > 0 && sources != []
    decreases |pages|
  {
    var page := PageAt(query, sources, limit, after, fold);
    && pages != [] && pages[0] == page.shown
    && if page.next.None? then |pages| == 1 else IsCrawl(query, sources, limit, page.next, fold, pages[1..])
  }

  function Flatten(pages: seq<seq<Row>>): seq<Row> {
    if pages == [] then [] else pages[0] + Flatten(pages[1..])
  }

  // ---- rows left out of a list ----

  lemma {:induction false} WithoutConcat(a: seq<Row>, b: seq<Row>, ids: set<string>)
    ensures Without(a + b, ids) == Without(a, ids) + Without(b, ids)
  {
    if a == [] {
      assert a + b == b;
    } else {
      assert (a + b)[1..] == a[1..] + b;
      WithoutConcat(a[1..], b, ids);
    }
  }

  lemma {:induction false} WithoutKeeps(rows: seq<Row>, ids: set<string>)
    ensures forall r :: r in Without(rows, ids) <==> r in rows && r.id !in ids
    ensures Ordered(rows) ==> Ordered(Without(rows, ids))
  {
    if rows != [] {
      WithoutKeeps(rows[1..], ids);
      if Ordered(rows) {
        forall r | r in Without(rows[1..], ids) ensures Before(rows[0], r) { assert r in rows[1..]; }
      }
    }
  }

  /** At most one row is left out for each id, and one for each that is there. */
  lemma {:induction false} WithoutCount(rows: seq<Row>, ids: set<string>)
    requires DistinctIds(rows)
    ensures |Without(rows, ids)| + |ids| >= |rows|
    ensures ids <= Ids(rows) ==> |Without(rows, ids)| + |ids| == |rows|
    decreases |rows|
  {
    if rows == [] {
      assert Ids(rows) == {};
    } else {
      var rest := ids - {rows[0].id};
      assert rows == [rows[0]] + rows[1..];
      SameWithout(rows[1..], ids, rows[0].id);
      WithoutCount(rows[1..], rest);
      if ids <= Ids(rows) {
        forall id | id in rest ensures id in Ids(rows[1..]) {
          var r :| r in rows && r.id == id;
          assert r in rows[1..];
        }
      }
      if rows[0].id !in ids { assert rest == ids; } else { assert ids == rest + {rows[0].id}; }
    }
  }

  lemma {:induction false} SameWithout(rows: seq<Row>, ids: set<string>, id: string)
    requires forall r :: r in rows ==> r.id != id
    ensures Without(rows, ids) == Without(rows, ids - {id})
  {
    if rows != [] { SameWithout(rows[1..], ids, id); }
  }

  /** A page filled from enough of the rows is filled as from all of them. */
  lemma FillNeedsFew(lead: seq<Row>, x: seq<Row>, y: seq<Row>, limit: nat)
    requires |lead| <= limit && Take(limit + 1, x) == Take(limit + 1, y) && DistinctIds(y)
    ensures Fill(lead, x, limit) == Fill(lead, y, limit) && (|x| > limit <==> |y| > limit)
  {
    if |x| > limit {
      var few, ids := y[..limit + 1], Ids(lead);
      assert |ids| <= |lead| by { IdsFew(lead); }
      WithoutCount(few, ids);
      assert x == few + x[limit + 1..] && y == few + y[limit + 1..];
      WithoutConcat(few, x[limit + 1..], ids);
      WithoutConcat(few, y[limit + 1..], ids);
    } else {
      assert x == y;
    }
  }

  lemma {:induction false} IdsFew(rows: seq<Row>)
    ensures |Ids(rows)| <= |rows|
    ensures DistinctIds(rows) ==> |Ids(rows)| == |rows|
  {
    if rows == [] {
      assert Ids(rows) == {};
    } else {
      IdsFew(rows[1..]);
      assert rows == [rows[0]] + rows[1..];
      assert Ids(rows) == {rows[0].id} + Ids(rows[1..]);
    }
  }

  /** After the k-th of a list comes the rest of it. */
  lemma {:induction false} AfterAt(rows: seq<Row>, k: nat)
    requires Ordered(rows) && k < |rows|
    ensures After(rows, Some(rows[k])) == rows[k + 1..]
  {
    BeforeOrders(rows[k], rows[k], rows[0]);
    if k == 0 {
      AllAfter(rows[1..], Some(rows[0]));
    } else {
      assert Before(rows[0], rows[k]);
      BeforeOrders(rows[0], rows[k], rows[0]);
      AfterAt(rows[1..], k - 1);
    }
  }

  /** Later and later cursors leave what the last one does. */
  lemma AfterTwice(rows: seq<Row>, c: Option<Row>, d: Row)
    requires Ordered(rows) && (c.Some? ==> Before(c.value, d))
    ensures After(After(rows, c), Some(d)) == After(rows, Some(d))
  {
    AfterKeepsOrder(rows, c);
    AfterKeepsOrder(After(rows, c), Some(d));
    AfterKeepsOrder(rows, Some(d));
    if c.Some? { forall r ensures Before(d, r) ==> Before(c.value, r) { BeforeOrders(c.value, d, r); } }
    SameSetSameOrder(After(After(rows, c), Some(d)), After(rows, Some(d)));
  }

  lemma AfterWithout(rows: seq<Row>, ids: set<string>, d: Row)
    requires Ordered(rows)
    ensures Without(After(rows, Some(d)), ids) == After(Without(rows, ids), Some(d))
  {
    AfterKeepsOrder(rows, Some(d));
    WithoutKeeps(After(rows, Some(d)), ids);
    WithoutKeeps(rows, ids);
    AfterKeepsOrder(Without(rows, ids), Some(d));
    SameSetSameOrder(Without(After(rows, Some(d)), ids), After(Without(rows, ids), Some(d)));
  }

  // ---- pages ----

  /** What limit + 1 rows of each source give is a page of all of them. */
  lemma PageOfAll(query: string, sources: seq<seq<Row>>, limit: nat, after: Option<Cursor>, fold: Fold)
    requires limit > 0 && sources != [] && GoodSources(sources)
    requires after.None? ==> |LeadOf(query, sources, limit, fold)| <= limit
    ensures var lead := if after.None? then LeadOf(query, sources, limit, fold) else [];
            PageAt(query, sources, limit, after, fold)
              == PageFor(after, lead, After(MergeAll(sources), RowOf(after)), limit)
  {
    var c := RowOf(after);
    var answers := Answers(sources, c, limit + 1);
    var lead := if after.None? then LeadOf(query, sources, limit, fold) else [];
    assert PageAt(query, sources, limit, after, fold)
        == PageFor(after, lead, Merged(answers[0], Concat(answers[1..])), limit);
    MergedAnswers(sources, c, limit);
    hide PageAt, LeadOf, Answers, After, MergeAll, Merged, GoodSources, Fill, DistinctIds, Ordered, Concat, Without,
         Ids, Take;
    FillNeedsFew(lead, Merged(answers[0], Concat(answers[1..])), After(MergeAll(sources), c), limit);
  }

  lemma MergedAnswers(sources: seq<seq<Row>>, c: Option<Row>, limit: nat)
    requires sources != [] && GoodSources(sources)
    ensures var answers := Answers(sources, c, limit + 1);
            var rest := After(MergeAll(sources), c);
            && Take(limit + 1, Merged(answers[0], Concat(answers[1..]))) == Take(limit + 1, rest)
            && Ordered(rest) && DistinctIds(rest)
  {
    var full, answers := MergeAll(sources), Answers(sources, c, limit + 1);
    MergeAllOrders(sources);
    AfterKeepsOrder(full, c);
    OrderedDistinct(After(full, c), full);
    AnswersGood(sources, c, limit + 1);
    AnswersAreEnough(sources, c, limit + 1);
    assert answers[0] + Concat(answers[1..]) == Concat(answers);
    SortedAnswers(Concat(answers), answers);
  }

  lemma {:induction false} MatchingAmong(query: string, rows: seq<Row>, fold: Fold)
    ensures forall r :: r in Matching(query, rows, fold) ==> r in rows
    ensures DistinctIds(rows) ==> DistinctIds(Matching(query, rows, fold))
  {
    if rows != [] {
      MatchingAmong(query, rows[1..], fold);
      forall r | DistinctIds(rows) && r in Matching(query, rows[1..], fold)
          ensures r.id != rows[0].id { assert r in rows[1..]; }
    }
  }

  /** Lead rows are some of the rows, fewer than a page, none twice. */
  lemma LeadAmong(query: string, sources: seq<seq<Row>>, limit: nat, fold: Fold)
    requires limit > 0 && sources != [] && GoodSources(sources)
    ensures var lead := LeadOf(query, sources, limit, fold);
            |lead| < limit && DistinctIds(lead) && forall r :: r in lead ==> r in MergeAll(sources)
  {
    var answers := Answers(sources, None, limit + 1);
    MergeAllOrders(sources);
    AnswersGood(sources, None, limit + 1);
    MergeAllOrders(answers);
    var local, foreign := answers[0], Concat(answers[1..]);
    assert Concat(answers) == local + foreign;
    assert DistinctIds(local) && DistinctIds(foreign) by { HalvesDistinct(local, foreign); }
    hide GoodSources, Answers, MergeAll, Ordered;
    ExactAmong(query, local, fold);
    ExactAmong(query, foreign, fold);
  }

  lemma HalvesDistinct(a: seq<Row>, b: seq<Row>)
    requires DistinctIds(a + b)
    ensures DistinctIds(a) && DistinctIds(b)
  {
    assert forall i :: 0 <= i < |a| ==> a[i] == (a + b)[i];
    assert forall i :: 0 <= i < |b| ==> b[i] == (a + b)[|a| + i];
  }

  lemma ExactAmong(query: string, rows: seq<Row>, fold: Fold)
    requires DistinctIds(rows)
    ensures DistinctIds(ExactMatches(query, rows, fold))
    ensures forall r :: r in ExactMatches(query, rows, fold) ==> r in rows
  {
    MatchingAmong(query, rows, fold);
    SortOrders(Matching(query, rows, fold));
    OrderedDistinct(ExactMatches(query, rows, fold), Matching(query, rows, fold));
  }

  /** A later page of what comes after its cursor. */
  function RestPage(c: Cursor, rest: seq<Row>, limit: nat): Page
    requires limit > 0
  {
    if |rest| > limit then Page(Without(rest[..limit], c.lead), Some(Cursor(rest[limit - 1], c.lead)))
    else Page(Without(rest, c.lead), None)
  }

  lemma LaterPage(c: Cursor, rest: seq<Row>, limit: nat)
    requires limit > 0
    ensures PageFor(Some(c), [], rest, limit) == RestPage(c, rest, limit)
  {
    FillNone(rest, limit);
    hide Without, Ids, Fill;
  }

  lemma FillNone(rest: seq<Row>, limit: nat)
    ensures Fill([], rest, limit) == if |rest| > limit then rest[..limit] else rest
  {
    NothingWithout(rest);
    hide Without;
  }

  lemma CrawlUnfolds(query: string, sources: seq<seq<Row>>, limit: nat, after: Option<Cursor>, fold: Fold,
      pages: seq<seq<Row>>)
    requires limit > 0 && sources != [] && IsCrawl(query, sources, limit, after, fold, pages)
    ensures var page := PageAt(query, sources, limit, after, fold);
            && pages != []
            && (page.next.Some? ==> IsCrawl(query, sources, limit, page.next, fold, pages[1..]))
            && Flatten(pages) == page.shown + if page.next.Some? then Flatten(pages[1..]) else []
  {
    hide PageAt;
    var page := PageAt(query, sources, limit, after, fold);
    if page.next.None? { assert pages[1..] == []; }
  }

  lemma AllOrdered(sources: seq<seq<Row>>)
    requires GoodSources(sources)
    ensures Ordered(MergeAll(sources))
  {
    MergeAllOrders(sources);
  }

  lemma IsAfter(rows: seq<Row>, c: Row, k: nat)
    requires Ordered(rows) && k < |After(rows, Some(c))|
    ensures Before(c, After(rows, Some(c))[k])
  {
    AfterKeepsOrder(rows, Some(c));
    assert After(rows, Some(c))[k] in After(rows, Some(c));
  }

  lemma NextIsAfter(full: seq<Row>, c: Row, k: nat)
    requires Ordered(full) && k < |After(full, Some(c))|
    ensures var d := After(full, Some(c))[k];
            Before(c, d) && |After(full, Some(d))| < |After(full, Some(c))|
  {
    IsAfter(full, c, k);
    hide After, Before, Ordered;
    NextRest(full, Some(c), After(full, Some(c)), k);
  }

  lemma RestWithout(rest: seq<Row>, n: nat, ids: set<string>)
    requires n <= |rest|
    ensures Without(rest[..n], ids) + Without(rest[n..], ids) == Without(rest, ids)
  {
    WithoutConcat(rest[..n], rest[n..], ids);
    assert rest == rest[..n] + rest[n..];
  }

  /** Later pages show the rows after the cursor but the lead ones, in order. */
  lemma {:induction false} LaterPages(query: string, sources: seq<seq<Row>>, limit: nat, c: Cursor, fold: Fold,
      pages: seq<seq<Row>>)
    requires limit > 0 && sources != [] && GoodSources(sources) && IsCrawl(query, sources, limit, Some(c), fold, pages)
    ensures Flatten(pages) == Without(After(MergeAll(sources), Some(c.last)), c.lead)
    decreases |pages|
  {
    LaterPageAt(query, sources, limit, c, fold);
    CrawlUnfolds(query, sources, limit, Some(c), fold, pages);
    hide *;
    var page := PageAt(query, sources, limit, Some(c), fold);
    if page.next.Some? {
      LaterPages(query, sources, limit, page.next.value, fold, pages[1..]);
    }
    PagesGoOn(sources, limit, c, page);
  }

  /** A later page shows the first of what is left, and its cursor the rest. */
  lemma PagesGoOn(sources: seq<seq<Row>>, limit: nat, c: Cursor, page: Page)
    requires limit > 0 && GoodSources(sources) && page == RestPage(c, After(MergeAll(sources), Some(c.last)), limit)
    ensures Without(After(MergeAll(sources), Some(c.last)), c.lead)
            == page.shown + if page.next.None? then []
               else Without(After(MergeAll(sources), Some(page.next.value.last)), page.next.value.lead)
    ensures page.next.Some? ==> page.next.value.lead == c.lead && Before(c.last, page.next.value.last)
    ensures page.next.Some? ==>
            |After(MergeAll(sources), Some(page.next.value.last))| < |After(MergeAll(sources), Some(c.last))|
  {
    var full := MergeAll(sources);
    var rest := After(full, Some(c.last));
    AllOrdered(sources);
    hide MergeAll, After, Without, Before, Ordered, GoodSources;
    if |rest| > limit {
      NextIsAfter(full, c.last, limit - 1);
      NextRest(full, Some(c.last), rest, limit - 1);
      RestWithout(rest, limit, c.lead);
    }
  }

  lemma LaterPageAt(query: string, sources: seq<seq<Row>>, limit: nat, c: Cursor, fold: Fold)
    requires limit > 0 && sources != [] && GoodSources(sources)
    ensures PageAt(query, sources, limit, Some(c), fold) == RestPage(c, After(MergeAll(sources), Some(c.last)), limit)
  {
    PageOfAll(query, sources, limit, Some(c), fold);
    hide PageAt, PageFor, After, MergeAll, GoodSources, Without;
    LaterPage(c, After(MergeAll(sources), Some(c.last)), limit);
  }

  lemma NextRest(full: seq<Row>, c: Option<Row>, rest: seq<Row>, k: nat)
    requires Ordered(full) && rest == After(full, c) && k < |rest|
    ensures After(full, Some(rest[k])) == rest[k + 1..]
  {
    AfterKeepsOrder(full, c);
    assert rest[k] in rest;
    AfterTwice(full, c, rest[k]);
    AfterAt(rest, k);
  }

  lemma FirstPage(lead: seq<Row>, full: seq<Row>, limit: nat)
    requires |lead| < limit && |Without(full, Ids(lead))| + |lead| == |full|
    ensures var left, k := Without(full, Ids(lead)), limit - |lead|;
            PageFor(None, lead, full, limit)
            == if |full| > limit then Page(lead + left[..k], Some(Cursor(left[k - 1], Ids(lead))))
              else Page(lead + left, None)
  {
    hide Without, Ids;
    var left := Without(full, Ids(lead));
    assert Fill(lead, full, limit) == lead + Take(limit - |lead|, left);
    hide Fill;
  }

  /** Read to the end, a search shows its lead rows and then all the others in
      order: every row of every source once. */
  lemma SearchShowsEverything(query: string, sources: seq<seq<Row>>, limit: nat, fold: Fold, pages: seq<seq<Row>>)
    requires limit > 0 && sources != [] && GoodSources(sources) && IsCrawl(query, sources, limit, None, fold, pages)
    ensures var full, lead := MergeAll(sources), LeadOf(query, sources, limit, fold);
            && Ordered(full) && (forall r :: r in full <==> r in Concat(sources))
            && Flatten(pages) == lead + Without(full, Ids(lead))
  {
    var full, lead := MergeAll(sources), LeadOf(query, sources, limit, fold);
    MergeAllOrders(sources);
    FirstPageAt(query, sources, limit, fold);
    CrawlUnfolds(query, sources, limit, None, fold, pages);
    hide PageAt, MergeAll, LeadOf, GoodSources, Ordered, Without, Ids, Concat, IsCrawl, Flatten, Before, DistinctIds;
    var left, k := Without(full, Ids(lead)), limit - |lead|;
    if |full| > limit {
      RestAfterFirst(full, lead, limit);
      LaterPages(query, sources, limit, Cursor(left[k - 1], Ids(lead)), fold, pages[1..]);
      hide After;
      Halves(lead, left, k);
    }
  }

  lemma Halves(lead: seq<Row>, left: seq<Row>, k: nat)
    requires k <= |left|
    ensures lead + left[..k] + left[k..] == lead + left
  {}

  lemma FirstPageAt(query: string, sources: seq<seq<Row>>, limit: nat, fold: Fold)
    requires limit > 0 && sources != [] && GoodSources(sources)
    ensures var full, lead := MergeAll(sources), LeadOf(query, sources, limit, fold);
            var left, k := Without(full, Ids(lead)), limit - |lead|;
            && |lead| < limit && |left| + |lead| == |full|
            && PageAt(query, sources, limit, None, fold)
               == if |full| > limit then Page(lead + left[..k], Some(Cursor(left[k - 1], Ids(lead))))
                 else Page(lead + left, None)
  {
    var full, lead := MergeAll(sources), LeadOf(query, sources, limit, fold);
    LeadAmong(query, sources, limit, fold);
    PageOfAll(query, sources, limit, None, fold);
    MergeAllOrders(sources);
    AllAfter(full, None);
    hide PageAt, PageFor, MergeAll, LeadOf, After, GoodSources, Ordered, Concat, Without, Ids;
    LeftCount(full, lead);
    FirstPage(lead, full, limit);
  }

  /** So every row of the sources is shown, and no user twice. */
  lemma EveryRowOnce(query: string, sources: seq<seq<Row>>, limit: nat, fold: Fold, pages: seq<seq<Row>>)
    requires limit > 0 && sources != [] && GoodSources(sources) && IsCrawl(query, sources, limit, None, fold, pages)
    ensures forall r :: r in Flatten(pages) <==> r in Concat(sources)
    ensures DistinctIds(Flatten(pages))
  {
    SearchShowsEverything(query, sources, limit, fold, pages);
    LeadAmong(query, sources, limit, fold);
    MergeAllOrders(sources);
    hide *;
    LeadThenRest(LeadOf(query, sources, limit, fold), MergeAll(sources), Flatten(pages));
  }

  lemma LeadThenRest(lead: seq<Row>, full: seq<Row>, shown: seq<Row>)
    requires DistinctIds(full) && DistinctIds(lead) && (forall r :: r in lead ==> r in full)
             && shown == lead + Without(full, Ids(lead))
    ensures DistinctIds(shown) && forall r :: r in shown <==> r in full
  {
    var left := Without(full, Ids(lead));
    WithoutKeeps(full, Ids(lead));
    WithoutDistinct(full, Ids(lead));
    hide Without;
    forall i, j | 0 <= i < j < |shown| ensures shown[i].id != shown[j].id {
      if i < |lead| <= j {
        assert shown[i] in lead && shown[j] == left[j - |lead|] && shown[j] in left;
      }
    }
    forall r ensures r in shown <==> r in full {
      assert r in shown <==> r in lead || r in left;
      if r in full && r.id in Ids(lead) {
        var l :| l in lead && l.id == r.id;
      }
    }
  }

  lemma {:induction false} WithoutDistinct(rows: seq<Row>, ids: set<string>)
    requires DistinctIds(rows)
    ensures DistinctIds(Without(rows, ids))
  {
    if rows != [] {
      WithoutDistinct(rows[1..], ids);
      WithoutKeeps(rows[1..], ids);
      forall r | r in Without(rows[1..], ids) ensures r.id != rows[0].id { assert r in rows[1..]; }
    }
  }

  /** After page one's last row come the others it didn't lead with or show. */
  lemma RestAfterFirst(full: seq<Row>, lead: seq<Row>, limit: nat)
    requires Ordered(full) && |lead| < limit < |full| && |Without(full, Ids(lead))| + |lead| == |full|
    ensures var left, k := Without(full, Ids(lead)), limit - |lead|;
            Without(After(full, Some(left[k - 1])), Ids(lead)) == left[k..]
  {
    var left, k := Without(full, Ids(lead)), limit - |lead|;
    WithoutKeeps(full, Ids(lead));
    AfterWithout(full, Ids(lead), left[k - 1]);
    AfterAt(left, k - 1);
  }

  lemma LeftCount(full: seq<Row>, lead: seq<Row>)
    requires DistinctIds(full) && DistinctIds(lead) && forall r :: r in lead ==> r in full
    ensures |Without(full, Ids(lead))| + |lead| == |full|
  {
    IdsFew(lead);
    WithoutCount(full, Ids(lead));
  }

  /** Each page's cursor is after the one it was asked with, with less to come. */
  lemma CursorAdvances(query: string, sources: seq<seq<Row>>, limit: nat, c: Cursor, fold: Fold)
    requires limit > 0 && sources != [] && GoodSources(sources)
    ensures var full, next := MergeAll(sources), PageAt(query, sources, limit, Some(c), fold).next;
            next.Some? ==>
              && Before(c.last, next.value.last) && next.value.lead == c.lead
              && |After(full, Some(next.value.last))| < |After(full, Some(c.last))|
  {
    LaterPageAt(query, sources, limit, c, fold);
    hide *;
    PagesGoOn(sources, limit, c, PageAt(query, sources, limit, Some(c), fold));
  }

  /** So following the cursors comes to an end. */
  lemma {:induction false} CrawlEnds(query: string, sources: seq<seq<Row>>, limit: nat, after: Option<Cursor>,
      fold: Fold)
    requires limit > 0 && sources != [] && GoodSources(sources)
    ensures exists pages :: IsCrawl(query, sources, limit, after, fold, pages)
    decreases if after.None? then 1 else 0, if after.Some? then |After(MergeAll(sources), RowOf(after))| else 0
  {
    var page := PageAt(query, sources, limit, after, fold);
    if page.next.None? {
      assert IsCrawl(query, sources, limit, after, fold, [page.shown]);
    } else {
      if after.Some? { CursorAdvances(query, sources, limit, after.value, fold); }
      CrawlEnds(query, sources, limit, page.next, fold);
      var rest :| IsCrawl(query, sources, limit, page.next, fold, rest);
      assert ([page.shown] + rest)[1..] == rest;
      assert IsCrawl(query, sources, limit, after, fold, [page.shown] + rest);
    }
  }
}
