/** Rows of several sources in one order: what a few of each are enough for. */
module UserSearchMerge {
  import opened Options
  import opened UserSearch

  function Concat(sources: seq<seq<Row>>): seq<Row> {
    if sources == [] then [] else sources[0] + Concat(sources[1..])
  }

  /** Two ordered lists as one. */
  function Merge(x: seq<Row>, y: seq<Row>): seq<Row> {
    if x == [] then y
    else if y == [] then x
    else if Before(x[0], y[0]) then [x[0]] + Merge(x[1..], y)
    else [y[0]] + Merge(x, y[1..])
  }

  function MergeAll(sources: seq<seq<Row>>): seq<Row> {
    if sources == [] then [] else Merge(sources[0], MergeAll(sources[1..]))
  }

  /** Each source is in order, and no user is in two of them. */
  ghost predicate GoodSources(sources: seq<seq<Row>>)
    decreases |sources|
  {
    sources != [] ==>
      && Ordered(sources[0]) && DistinctIds(sources[0])
      && GoodSources(sources[1..]) && Apart(sources[0], Concat(sources[1..]))
  }

  ghost predicate Apart(x: seq<Row>, y: seq<Row>) {
    forall r, s :: r in x && s in y ==> r.id != s.id
  }

  /** The rows after one, in their order. */
  function After(rows: seq<Row>, c: Option<Row>): seq<Row> {
    if rows == [] then []
    else (if c.Some? && !Before(c.value, rows[0]) then [] else [rows[0]]) + After(rows[1..], c)
  }

  /** Each source's first n rows after c. */
  function Answers(sources: seq<seq<Row>>, c: Option<Row>, n: nat): seq<seq<Row>> {
    if sources == [] then [] else [Take(n, After(sources[0], c))] + Answers(sources[1..], c, n)
  }

  // ---- order ----

  lemma {:induction false} SameSetSameOrder(a: seq<Row>, b: seq<Row>)
    requires Ordered(a) && Ordered(b) && forall r :: r in a <==> r in b
    ensures a == b
    decreases |a|
  {
    assert a != [] ==> a[0] in b;
    assert b != [] ==> b[0] in a;
    if a != [] && b != [] {
      SameFirst(a, b);
      forall r ensures r in a[1..] <==> r in b[1..] {
        BeforeOrders(a[0], a[0], a[0]);
        assert r in a[1..] <==> r in a && r != a[0];
        assert r in b[1..] <==> r in b && r != b[0];
      }
      SameSetSameOrder(a[1..], b[1..]);
    }
  }

  lemma SameFirst(a: seq<Row>, b: seq<Row>)
    requires Ordered(a) && Ordered(b) && a != [] && b != [] && a[0] in b && b[0] in a
    ensures a[0] == b[0]
  {
    var i :| 0 <= i < |b| && b[i] == a[0];
    var j :| 0 <= j < |a| && a[j] == b[0];
    BeforeOrders(a[0], b[0], a[0]);
  }

  lemma {:induction false} InsertOrders(x: Row, rows: seq<Row>)
    requires Ordered(rows) && forall r :: r in rows ==> r.id != x.id
    ensures Ordered(Insert(x, rows)) && forall r :: r in Insert(x, rows) <==> r == x || r in rows
  {
    if rows != [] {
      BeforeTotal(rows[0], x);
      if Before(rows[0], x) {
        InsertOrders(x, rows[1..]);
        forall r | r in Insert(x, rows[1..]) ensures Before(rows[0], r) {}
      } else {
        forall r | r in rows ensures Before(x, r) {
          BeforeOrders(x, rows[0], r);
        }
      }
    }
  }

  lemma {:induction false} SortOrders(rows: seq<Row>)
    requires DistinctIds(rows)
    ensures Ordered(SortRows(rows)) && forall r :: r in SortRows(rows) <==> r in rows
  {
    if rows != [] {
      SortOrders(rows[1..]);
      InsertOrders(rows[0], SortRows(rows[1..]));
    }
  }

  /** The first of two ordered lists' rows is before all the others. */
  lemma FirstOfTwo(first: Row, rest: seq<Row>, y: seq<Row>, merged: seq<Row>)
    requires Ordered([first] + rest) && Ordered(y) && (y != [] ==> Before(first, y[0]))
    requires Ordered(merged) && forall r :: r in merged <==> r in rest || r in y
    ensures Ordered([first] + merged)
  {
    forall r | r in merged ensures Before(first, r) {
      if r in rest {
        var i :| 0 <= i < |rest| && rest[i] == r;
        assert ([first] + rest)[0] == first && ([first] + rest)[i + 1] == r;
      } else {
        BeforeOrders(first, y[0], r);
      }
    }
  }

  lemma {:induction false} MergeOrders(x: seq<Row>, y: seq<Row>)
    requires Ordered(x) && Ordered(y) && Apart(x, y)
    ensures Ordered(Merge(x, y)) && forall r :: r in Merge(x, y) <==> r in x || r in y
    decreases |x| + |y|
  {
    hide Before;
    if x != [] && y != [] {
      BeforeTotal(x[0], y[0]);
      if Before(x[0], y[0]) {
        MergeOrders(x[1..], y);
        assert x == [x[0]] + x[1..];
        hide Ordered;
        FirstOfTwo(x[0], x[1..], y, Merge(x[1..], y));
      } else {
        MergeOrders(x, y[1..]);
        assert y == [y[0]] + y[1..];
        hide Ordered;
        FirstOfTwo(y[0], y[1..], x, Merge(x, y[1..]));
      }
    }
  }

  lemma {:induction false} MergeAllOrders(sources: seq<seq<Row>>)
    requires GoodSources(sources)
    ensures Ordered(MergeAll(sources)) && forall r :: r in MergeAll(sources) <==> r in Concat(sources)
    ensures DistinctIds(Concat(sources)) && DistinctIds(MergeAll(sources))
    decreases |sources|
  {
    if sources != [] {
      MergeAllOrders(sources[1..]);
      MergeOrders(sources[0], MergeAll(sources[1..]));
      OrderedDistinct(MergeAll(sources), Concat(sources));
    }
  }

  lemma OrderedDistinct(rows: seq<Row>, source: seq<Row>)
    requires Ordered(rows) && DistinctIds(source) && forall r :: r in rows ==> r in source
    ensures DistinctIds(rows)
  {
    forall i, j | 0 <= i < j < |rows| ensures rows[i].id != rows[j].id {
      BeforeOrders(rows[i], rows[i], rows[j]);
      assert rows[i] != rows[j] && rows[i] in source && rows[j] in source;
    }
  }

  // ---- enough of each source ----

  lemma TakeOne(n: nat, row: Row, rows: seq<Row>)
    requires n > 0
    ensures Take(n, [row] + rows) == [row] + Take(n - 1, rows)
  {}

  /** The first n of a merge need only the first n of either side. */
  lemma {:induction false} MergeNeedsFew(n: nat, a: nat, b: nat, x: seq<Row>, y: seq<Row>)
    requires n <= a && n <= b
    ensures Take(n, Merge(Take(a, x), Take(b, y))) == Take(n, Merge(x, y))
    decreases n
  {
    hide Before;
    if n > 0 && x != [] && y != [] {
      TakeOne(a, x[0], x[1..]);
      TakeOne(b, y[0], y[1..]);
      assert x == [x[0]] + x[1..] && y == [y[0]] + y[1..];
      if Before(x[0], y[0]) {
        MergeNeedsFew(n - 1, a - 1, b, x[1..], y);
        var x', y' := Take(a, x), Take(b, y);
        assert x'[1..] == Take(a - 1, x[1..]) && x'[0] == x[0] && y'[0] == y[0];
        assert Merge(x', y') == [x[0]] + Merge(x'[1..], y') && Merge(x, y) == [x[0]] + Merge(x[1..], y);
        hide Take, Merge;
        TakeOne(n, x[0], Merge(x[1..], y));
        TakeOne(n, x[0], Merge(x'[1..], y'));
      } else {
        MergeNeedsFew(n - 1, a, b - 1, x, y[1..]);
        var x', y' := Take(a, x), Take(b, y);
        assert y'[1..] == Take(b - 1, y[1..]) && x'[0] == x[0] && y'[0] == y[0];
        assert Merge(x', y') == [y[0]] + Merge(x', y'[1..]) && Merge(x, y) == [y[0]] + Merge(x, y[1..]);
        hide Take, Merge;
        TakeOne(n, y[0], Merge(x, y[1..]));
        TakeOne(n, y[0], Merge(x', y'[1..]));
      }
    }
  }

  lemma {:induction false} AllAfter(rows: seq<Row>, c: Option<Row>)
    requires c.Some? ==> forall r :: r in rows ==> Before(c.value, r)
    ensures After(rows, c) == rows
  {
    if rows != [] { AllAfter(rows[1..], c); }
  }

  lemma {:induction false} AfterKeepsOrder(rows: seq<Row>, c: Option<Row>)
    requires Ordered(rows)
    ensures Ordered(After(rows, c))
    ensures forall r :: r in After(rows, c) <==> r in rows && (c.None? || Before(c.value, r))
  {
    if rows != [] {
      AfterKeepsOrder(rows[1..], c);
      forall r | r in After(rows[1..], c) ensures Before(rows[0], r) { assert r in rows[1..]; }
    }
  }

  /** Rows after one are merged like the rows of both sides after it. */
  lemma AfterOfMerge(x: seq<Row>, y: seq<Row>, c: Option<Row>)
    requires Ordered(x) && Ordered(y) && Apart(x, y)
    ensures After(Merge(x, y), c) == Merge(After(x, c), After(y, c))
  {
    AfterKeepsOrder(x, c);
    AfterKeepsOrder(y, c);
    MergeOrders(x, y);
    AfterKeepsOrder(Merge(x, y), c);
    hide Ordered, Before, Merge, After;
    MergeOrders(After(x, c), After(y, c));
    SameSetSameOrder(After(Merge(x, y), c), Merge(After(x, c), After(y, c)));
  }

  /** The first n of what the sources answer are the first n of all they have. */
  lemma {:induction false} AnswersAreEnough(sources: seq<seq<Row>>, c: Option<Row>, n: nat)
    requires GoodSources(sources)
    ensures Take(n, MergeAll(Answers(sources, c, n))) == Take(n, After(MergeAll(sources), c))
    decreases |sources|
  {
    if sources != [] {
      var x, y := sources[0], MergeAll(sources[1..]);
      MergeAllOrders(sources[1..]);
      AnswersAreEnough(sources[1..], c, n);
      AfterOfMerge(x, y, c);
      var y' := MergeAll(Answers(sources[1..], c, n));
      assert Answers(sources, c, n)[1..] == Answers(sources[1..], c, n);
      assert MergeAll(Answers(sources, c, n)) == Merge(Take(n, After(x, c)), y');
      hide Ordered, Merge, After;
      assert Take(n, Take(n, After(x, c))) == Take(n, After(x, c));
      MergeNeedsFew(n, n, n, Take(n, After(x, c)), y');
      MergeNeedsFew(n, n, n, After(x, c), After(y, c));
    }
  }

  /** The merge a server does by sorting is that of the sources' answers. */
  lemma SortedAnswers(rows: seq<Row>, sources: seq<seq<Row>>)
    requires GoodSources(sources) && rows == Concat(sources)
    ensures SortRows(Dedup(rows, {})) == MergeAll(sources)
  {
    MergeAllOrders(sources);
    NothingSeen(rows, {});
    SortOrders(rows);
    SameSetSameOrder(SortRows(rows), MergeAll(sources));
  }

  lemma {:induction false} NothingSeen(rows: seq<Row>, seen: set<string>)
    requires DistinctIds(rows) && forall r :: r in rows ==> r.id !in seen
    ensures Dedup(rows, seen) == rows
  {
    if rows != [] { NothingSeen(rows[1..], seen + {rows[0].id}); }
  }

  lemma {:induction false} AnswersGood(sources: seq<seq<Row>>, c: Option<Row>, n: nat)
    requires GoodSources(sources)
    ensures GoodSources(Answers(sources, c, n))
    ensures forall r :: r in Concat(Answers(sources, c, n)) ==> r in Concat(sources)
    decreases |sources|
  {
    if sources != [] {
      AnswersGood(sources[1..], c, n);
      AfterKeepsOrder(sources[0], c);
      var first := After(sources[0], c);
      assert Answers(sources, c, n)[1..] == Answers(sources[1..], c, n);
      OrderedDistinct(first, sources[0]);
      hide After, Before;
      assert forall r :: r in Take(n, first) ==> r in first;
    }
  }
}
