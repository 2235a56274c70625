/** The rows of a user search, their order, and one page of them. */
module UserSearch {
  import Text

  datatype Row = Row(id: string, username: string, server: string)

  function AsciiLower(s: string): string {
    if s == "" then ""
    else [if 'A' <= s[0] <= 'Z' then s[0] - 'A' + 'a' else s[0]] + AsciiLower(s[1..])
  }

  /** The order of the search: by lowercased username, then id. */
  predicate Before(a: Row, b: Row) {
    var an, bn := AsciiLower(a.username), AsciiLower(b.username);
    Text.Less(an, bn) || (an == bn && Text.Less(a.id, b.id))
  }

  /** A letter with its case ignored. */
  function Letter(c: char): char {
    if 'A' <= c <= 'Z' then c + 32 as char else c
  }

  lemma {:induction false} AsciiLowerEach(s: string)
    ensures |AsciiLower(s)| == |s| && forall i :: 0 <= i < |s| ==> AsciiLower(s)[i] == Letter(s[i])
  {
    if s != "" { AsciiLowerEach(s[1..]); }
  }

  ghost predicate SameLetters(a: string, b: string, n: nat) {
    n <= |a| && n <= |b| && forall i :: 0 <= i < n ==> Letter(a[i]) == Letter(b[i])
  }

  /** Names part at i, case ignored, where a ends or has the lower letter. */
  ghost predicate LettersPartAt(a: string, b: string, i: nat) {
    SameLetters(a, b, i) && i < |b| && (i < |a| ==> Letter(a[i]) < Letter(b[i]))
  }

  lemma LettersPart(a: string, b: string, i: nat)
    ensures Text.PartAt(AsciiLower(a), AsciiLower(b), i) <==> LettersPartAt(a, b, i)
  {
    var x, y := AsciiLower(a), AsciiLower(b);
    AsciiLowerEach(a);
    AsciiLowerEach(b);
    hide AsciiLower, Letter;
    if i <= |a| && i < |b| {
      if SameLetters(a, b, i) { assert x[..i] == y[..i]; }
      if x[..i] == y[..i] {
        forall k | 0 <= k < i ensures Letter(a[k]) == Letter(b[k]) { assert x[..i][k] == y[..i][k]; }
      }
    }
  }

  /** A row is before another exactly when its name is by the first letter they
      part at, or the names differ in case at most and its id is lower. */
  lemma BeforeExactlyWhen(a: Row, b: Row)
    ensures Before(a, b)
            <==> ((exists i: nat :: LettersPartAt(a.username, b.username, i))
              || (|a.username| == |b.username| && SameLetters(a.username, b.username, |a.username|)
                  && Text.Less(a.id, b.id)))
  {
    var x, y := AsciiLower(a.username), AsciiLower(b.username);
    Text.LessExactlyWhen(x, y);
    AsciiLowerEach(a.username);
    AsciiLowerEach(b.username);
    hide AsciiLower, Letter;
    assert x == y <==> |x| == |y| && forall i :: 0 <= i < |x| ==> x[i] == y[i];
    hide LettersPartAt, Text.PartAt;
    forall i: nat ensures Text.PartAt(x, y, i) <==> LettersPartAt(a.username, b.username, i) {
      LettersPart(a.username, b.username, i);
    }
  }

  lemma BeforeTotal(a: Row, b: Row)
    requires a.id != b.id
    ensures Before(a, b) != Before(b, a)
  {
    Text.LessTrichotomy(AsciiLower(a.username), AsciiLower(b.username));
    Text.LessTrichotomy(a.id, b.id);
  }

  lemma BeforeOrders(a: Row, b: Row, c: Row)
    ensures !Before(a, a) && !(Before(a, b) && Before(b, a))
    ensures Before(a, b) && Before(b, c) ==> Before(a, c)
  {
    var x, y, z := AsciiLower(a.username), AsciiLower(b.username), AsciiLower(c.username);
    hide AsciiLower;
    Text.LessTrichotomy(x, x);
    Text.LessTrichotomy(a.id, a.id);
    Text.LessTrichotomy(x, y);
    Text.LessTrichotomy(a.id, b.id);
    if Text.Less(x, y) && Text.Less(y, z) { Text.LessTransitive(x, y, z); }
    if Text.Less(a.id, b.id) && Text.Less(b.id, c.id) { Text.LessTransitive(a.id, b.id, c.id); }
  }

  /** Each before all after it. */
  ghost predicate Ordered(rows: seq<Row>) {
    forall i, j :: 0 <= i < j < |rows| ==> Before(rows[i], rows[j])
  }

  ghost predicate DistinctIds(rows: seq<Row>) {
    forall i, j :: 0 <= i < j < |rows| ==> rows[i].id != rows[j].id
  }

  function Insert(x: Row, rows: seq<Row>): seq<Row> {
    if rows == [] || !Before(rows[0], x) then [x] + rows else [rows[0]] + Insert(x, rows[1..])
  }

  /** slices.SortFunc. */
  function SortRows(rows: seq<Row>): seq<Row> {
    if rows == [] then [] else Insert(rows[0], SortRows(rows[1..]))
  }

  /** The first of the rows of each id not seen. */
  function Dedup(rows: seq<Row>, seen: set<string>): seq<Row> {
    if rows == [] then []
    else if rows[0].id in seen then Dedup(rows[1..], seen)
    else [rows[0]] + Dedup(rows[1..], seen + {rows[0].id})
  }

  /** r is the first of the rows of its id. */
  ghost predicate FirstOfId(rows: seq<Row>, i: nat, r: Row) {
    i < |rows| && rows[i] == r && forall j :: 0 <= j < i ==> rows[j].id != r.id
  }

  /** Every id not seen stays once, with the first of its rows. */
  lemma {:induction false} DedupKeepsFirst(rows: seq<Row>, seen: set<string>)
    ensures DistinctIds(Dedup(rows, seen))
    ensures forall r :: r in Dedup(rows, seen) <==> r.id !in seen && exists i: nat :: FirstOfId(rows, i, r)
  {
    if rows != [] {
      var first, rest := rows[0], rows[1..];
      var now := seen + {first.id};
      DedupKeepsFirst(rest, now);
      forall r ensures (exists i: nat :: FirstOfId(rows, i, r)) <==>
          r == first || (r.id != first.id && exists i: nat :: FirstOfId(rest, i, r))
      {
        FirstOfTail(rows, r);
      }
      hide FirstOfId;
      if first.id in seen { assert now == seen; }
    }
  }

  lemma FirstOfTail(rows: seq<Row>, r: Row)
    requires rows != []
    ensures (exists i: nat :: FirstOfId(rows, i, r)) <==>
              r == rows[0] || (r.id != rows[0].id && exists i: nat :: FirstOfId(rows[1..], i, r))
  {
    var rest := rows[1..];
    if r == rows[0] { assert FirstOfId(rows, 0, r); }
    if i: nat :| FirstOfId(rows, i, r) && r != rows[0] {
      assert rows[i] == rest[i - 1];
      assert FirstOfId(rest, i - 1, r);
    }
    if i: nat :| FirstOfId(rest, i, r) && r.id != rows[0].id {
      assert rows[i + 1] == rest[i];
      forall j | 0 <= j < i + 1 ensures rows[j].id != r.id { assert j == 0 || rows[j] == rest[j - 1]; }
      assert FirstOfId(rows, i + 1, r);
    }
  }

  function Without(rows: seq<Row>, ids: set<string>): seq<Row> {
    if rows == [] then []
    else (if rows[0].id in ids then [] else [rows[0]]) + Without(rows[1..], ids)
  }

  function Ids(rows: seq<Row>): set<string> {
    set r | r in rows :: r.id
  }

  function Take(n: nat, rows: seq<Row>): seq<Row> {
    if n <= |rows| then rows[..n] else rows
  }

  type Fold = (string, string) -> bool

  function Matching(query: string, rows: seq<Row>, fold: Fold): seq<Row> {
    if rows == [] then []
    else (if fold(rows[0].username, query) then [rows[0]] else []) + Matching(query, rows[1..], fold)
  }

  function ExactMatches(query: string, rows: seq<Row>, fold: Fold): seq<Row> {
    SortRows(Matching(query, rows, fold))
  }

  /** The exact matches that lead page one: local ones if there are any, and
      fewer than a page. */
  function Lead(query: string, local: seq<Row>, foreign: seq<Row>, limit: nat, fold: Fold): seq<Row>
    requires limit > 0
  {
    var exact := ExactMatches(query, local, fold);
    Take(limit - 1, if exact == [] then ExactMatches(query, foreign, fold) else exact)
  }

  function Merged(local: seq<Row>, foreign: seq<Row>): seq<Row> {
    SortRows(Dedup(local + foreign, {}))
  }

  /** lead, then the rest in order up to limit. */
  function Fill(lead: seq<Row>, all: seq<Row>, limit: nat): seq<Row> {
    lead + if |lead| <= limit then Take(limit - |lead|, Without(all, Ids(lead))) else []
  }

  // ---- what leads page one ----

  /** The side whose exact matches lead: this server's if it has any. */
  ghost function Preferred(query: string, local: seq<Row>, foreign: seq<Row>, fold: Fold): seq<Row> {
    if exists r :: r in local && fold(r.username, query) then local else foreign
  }

  ghost predicate NoneBefore(rows: seq<Row>) {
    forall i, j :: 0 <= i < j < |rows| ==> !Before(rows[j], rows[i])
  }

  /** Exact matches of the preferred side, fewer than a page, in search order;
      one is left out only when there is no more room, and sorts no earlier. */
  ghost predicate Leads(query: string, preferred: seq<Row>, limit: nat, fold: Fold, lead: seq<Row>) {
    && |lead| < limit && NoneBefore(lead)
    && (forall r :: r in lead ==> fold(r.username, query) && multiset(lead)[r] <= multiset(preferred)[r])
    && (forall r :: r in preferred && fold(r.username, query) && multiset(lead)[r] < multiset(preferred)[r] ==>
          |lead| == limit - 1 && forall l :: l in lead ==> !Before(r, l))
  }

  /** The first n rows of a page are the exact matches it is to lead with. */
  ghost predicate LeadsWith(
    query: string, local: seq<Row>, foreign: seq<Row>, limit: nat, fold: Fold, page: seq<Row>, n: nat)
  {
    n <= |page| && Leads(query, Preferred(query, local, foreign, fold), limit, fold, page[..n])
  }

  lemma NotBeforeTransitive(a: Row, b: Row, c: Row)
    requires !Before(b, a) && !Before(c, b)
    ensures !Before(c, a)
  {
    BeforeOrders(a, b, c);
    BeforeOrders(c, a, b);
    if Before(c, a) && !Before(a, b) {
      Text.LessTrichotomy(AsciiLower(a.username), AsciiLower(b.username));
      Text.LessTrichotomy(a.id, b.id);
    }
  }

  lemma {:induction false} InsertNoneBefore(x: Row, rows: seq<Row>)
    requires NoneBefore(rows)
    ensures NoneBefore(Insert(x, rows)) && multiset(Insert(x, rows)) == multiset{x} + multiset(rows)
  {
    hide Before;
    if rows != [] {
      assert rows == [rows[0]] + rows[1..];
      if Before(rows[0], x) {
        BeforeOrders(rows[0], x, x);
        InsertNoneBefore(x, rows[1..]);
        forall r | r in Insert(x, rows[1..]) ensures !Before(r, rows[0]) {
          assert r in multiset(Insert(x, rows[1..]));
          assert r == x || r in rows[1..];
        }
      } else {
        forall i | 0 <= i < |rows| ensures !Before(rows[i], x) {
          if i > 0 { NotBeforeTransitive(x, rows[0], rows[i]); }
        }
      }
    }
  }

  lemma {:induction false} SortNoneBefore(rows: seq<Row>)
    ensures NoneBefore(SortRows(rows)) && multiset(SortRows(rows)) == multiset(rows)
  {
    if rows != [] {
      SortNoneBefore(rows[1..]);
      InsertNoneBefore(rows[0], SortRows(rows[1..]));
      assert rows == [rows[0]] + rows[1..];
    }
  }

  lemma {:induction false} MatchingMeans(query: string, rows: seq<Row>, fold: Fold, r: Row)
    ensures multiset(Matching(query, rows, fold))[r] == if fold(r.username, query) then multiset(rows)[r] else 0
  {
    if rows != [] {
      MatchingMeans(query, rows[1..], fold, r);
      assert rows == [rows[0]] + rows[1..];
    }
  }

  /** Some exact matches sort to the rows there are of them and no others. */
  lemma ExactMeans(query: string, rows: seq<Row>, fold: Fold)
    ensures var exact := ExactMatches(query, rows, fold);
            && NoneBefore(exact)
            && (forall r: Row :: multiset(exact)[r] == if fold(r.username, query) then multiset(rows)[r] else 0)
            && (exact == [] <==> !exists r :: r in rows && fold(r.username, query))
  {
    var exact := ExactMatches(query, rows, fold);
    SortNoneBefore(Matching(query, rows, fold));
    forall r: Row ensures multiset(exact)[r] == if fold(r.username, query) then multiset(rows)[r] else 0 {
      MatchingMeans(query, rows, fold, r);
    }
    hide ExactMatches, NoneBefore;
    if exact != [] {
      assert exact[0] in multiset(exact);
      assert exact[0] in multiset(rows) && exact[0] in rows;
    }
    if r :| r in rows && fold(r.username, query) {
      assert r in multiset(rows) && r in multiset(exact);
    }
  }

  /** A row of the matches is among the first n of them, or after those. */
  lemma FirstOfExact(exact: seq<Row>, n: nat, r: Row)
    requires n <= |exact| && NoneBefore(exact)
    ensures multiset(exact[..n])[r] <= multiset(exact)[r]
    ensures multiset(exact[..n])[r] < multiset(exact)[r] ==>
              n < |exact| && forall l :: l in exact[..n] ==> !Before(r, l)
  {
    assert exact == exact[..n] + exact[n..];
    if multiset(exact[..n])[r] < multiset(exact)[r] {
      assert r in multiset(exact[n..]);
      var k :| n <= k < |exact| && exact[k] == r;
    }
  }

  lemma FirstLead(query: string, preferred: seq<Row>, limit: nat, fold: Fold)
    requires limit > 0
    ensures Leads(query, preferred, limit, fold, Take(limit - 1, ExactMatches(query, preferred, fold)))
  {
    var exact := ExactMatches(query, preferred, fold);
    ExactMeans(query, preferred, fold);
    hide ExactMatches, Before;
    var n := if limit - 1 <= |exact| then limit - 1 else |exact|;
    var lead := exact[..n];
    assert lead == Take(limit - 1, exact);
    assert NoneBefore(lead);
    hide NoneBefore, Take, Preferred, Fill;
    forall r | r in lead ensures fold(r.username, query) && multiset(lead)[r] <= multiset(preferred)[r] {
      FirstOfExact(exact, n, r);
      assert r in multiset(lead);
    }
    forall r | r in preferred && fold(r.username, query) && multiset(lead)[r] < multiset(preferred)[r]
      ensures |lead| == limit - 1 && forall l :: l in lead ==> !Before(r, l)
    {
      FirstOfExact(exact, n, r);
    }
  }

  /** The exact matches led with are all there are of the preferred side, or the
      first of them, before anything else. */
  lemma LeadIsExact(query: string, local: seq<Row>, foreign: seq<Row>, limit: nat, fold: Fold, all: seq<Row>)
    requires limit > 0
    ensures var lead := Lead(query, local, foreign, limit, fold);
            LeadsWith(query, local, foreign, limit, fold, Fill(lead, all, limit), |lead|)
            && Fill(lead, all, limit)[..|lead|] == lead
  {
    ExactMeans(query, local, fold);
    FirstLead(query, Preferred(query, local, foreign, fold), limit, fold);
    hide ExactMatches, Leads, Take;
  }

  // ---- one page ----

  lemma MatchingNone(query: string, rows: seq<Row>, fold: Fold)
    ensures forall found: seq<Row> :: found + Matching(query, rows[|rows|..], fold) == found
  {}

  lemma MatchesOne(query: string, rows: seq<Row>, i: nat, fold: Fold)
    requires i < |rows|
    ensures forall found: seq<Row> ::
              found + Matching(query, rows[i..], fold)
              == (if fold(rows[i].username, query) then found + [rows[i]] else found)
                + Matching(query, rows[i + 1..], fold)
  {
    assert rows[i..][1..] == rows[i + 1..];
  }

  method ExactUserMatches(query: string, rows: seq<Row>, fold: Fold) returns (matches: seq<Row>)
    ensures matches == ExactMatches(query, rows, fold)
  {
    var found := [];
    assert rows[0..] == rows;
    MatchingNone(query, rows, fold);
    hide Matching;
    for i := 0 to |rows|
      invariant Matching(query, rows, fold) == found + Matching(query, rows[i..], fold)
    {
      MatchesOne(query, rows, i, fold);
      if fold(rows[i].username, query) { found := found + [rows[i]]; }
    }
    matches := SortRows(found);
  }

  method DropSeen(rows: seq<Row>) returns (all: seq<Row>)
    ensures all == Dedup(rows, {})
  {
    var seen: set<string> := {};
    all := [];
    assert rows[0..] == rows;
    for i := 0 to |rows|
      invariant Dedup(rows, {}) == all + Dedup(rows[i..], seen)
    {
      assert rows[i..][1..] == rows[i + 1..];
      if rows[i].id !in seen {
        seen := seen + {rows[i].id};
        all := all + [rows[i]];
      }
    }
    assert all + [] == all;
  }

  /** What is left to fill a page with, from the i-th row on. */
  function Rest(all: seq<Row>, i: nat, ids: set<string>, n: nat): seq<Row>
    requires i <= |all|
  {
    Take(n, Without(all[i..], ids))
  }

  lemma RestUnfolds(all: seq<Row>, i: nat, ids: set<string>, n: nat)
    requires i <= |all|
    ensures i == |all| || n == 0 ==> Rest(all, i, ids, n) == []
    ensures i < |all| && n > 0 ==>
              Rest(all, i, ids, n)
              == if all[i].id in ids then Rest(all, i + 1, ids, n) else [all[i]] + Rest(all, i + 1, ids, n - 1)
  {
    if i < |all| { assert all[i..][1..] == all[i + 1..]; }
  }

  /** page is the filled page's, but for what the rows from the i-th on add. */
  ghost predicate Filling(lead: seq<Row>, all: seq<Row>, limit: nat, i: nat, page: seq<Row>) {
    && i <= |all| && |page| <= limit
    && Fill(lead, all, limit) == page + Rest(all, i, Ids(lead), limit - |page|)
  }

  lemma FillingStarts(lead: seq<Row>, all: seq<Row>, limit: nat)
    requires |lead| <= limit
    ensures Filling(lead, all, limit, 0, lead)
  {
    assert all[0..] == all;
  }

  lemma FillingGoesOn(lead: seq<Row>, all: seq<Row>, limit: nat, i: nat, page: seq<Row>)
    requires Filling(lead, all, limit, i, page) && i < |all| && |page| < limit
    ensures Filling(lead, all, limit, i + 1, if all[i].id in Ids(lead) then page else page + [all[i]])
  {
    hide Fill, Rest, Ids;
    RestUnfolds(all, i, Ids(lead), limit - |page|);
    if all[i].id !in Ids(lead) {
      var rest := Rest(all, i + 1, Ids(lead), limit - |page| - 1);
      assert page + ([all[i]] + rest) == page + [all[i]] + rest;
    }
  }

  lemma FillingEnds(lead: seq<Row>, all: seq<Row>, limit: nat, i: nat, page: seq<Row>)
    requires Filling(lead, all, limit, i, page) && (i == |all| || |page| == limit)
    ensures page == Fill(lead, all, limit)
  {
    hide Fill, Rest, Ids;
    RestUnfolds(all, i, Ids(lead), limit - |page|);
    assert page + [] == page;
  }

  method FillPage(lead: seq<Row>, all: seq<Row>, limit: nat) returns (page: seq<Row>)
    requires |lead| <= limit
    ensures page == Fill(lead, all, limit)
  {
    hide Fill, Filling, Before;
    page := lead;
    var ids := Ids(lead);
    var i := 0;
    FillingStarts(lead, all, limit);
    while i < |all| && |page| < limit
      invariant 0 <= i <= |all| && |page| <= limit
      invariant Filling(lead, all, limit, i, page)
      decreases |all| - i
    {
      FillingGoesOn(lead, all, limit, i, page);
      if all[i].id !in ids { page := page + [all[i]]; }
      i := i + 1;
    }
    FillingEnds(lead, all, limit, i, page);
  }

  /** Cuts the rows of all sources to one page in search order. */
  method MergeUserSearchResults(query: string, local: seq<Row>, foreign: seq<Row>, limit: nat, firstPage: bool,
      fold: Fold)
    returns (page: seq<Row>, leadIds: set<string>, hasMore: bool)
    requires limit > 0
    ensures var all := Merged(local, foreign);
            var lead := if firstPage then Lead(query, local, foreign, limit, fold) else [];
            page == Fill(lead, all, limit) && leadIds == Ids(lead) && hasMore == (|all| > limit)
    ensures firstPage ==>
              exists n: nat :: LeadsWith(query, local, foreign, limit, fold, page, n) && leadIds == Ids(page[..n])
  {
    var all := DropSeen(local + foreign);
    all := SortRows(all);
    hasMore := |all| > limit;

    var lead: seq<Row> := [];
    if firstPage {
      lead := ExactUserMatches(query, local, fold);
      if |lead| == 0 { lead := ExactUserMatches(query, foreign, fold); }
      lead := Take(limit - 1, lead);
    }
    leadIds := Ids(lead);
    page := FillPage(lead, all, limit);
    if firstPage { LeadIsExact(query, local, foreign, limit, fold, all); }
  }
}
