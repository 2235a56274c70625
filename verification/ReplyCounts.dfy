/** The reply counters of reed_stats, kept by triggers that walk up the thread. */
module ReplyCounts {
  import opened Forest

  type Stats = map<string, nat>

  /** The rows the triggers read and write: reed_replies, reeds (local reeds
      only), reed_removals, account_removals and reed_stats.reply_count. */
  datatype State = State(
    parent: Links,
    author: map<string, string>,
    reedsGone: set<string>,
    usersGone: set<string>,
    stats: Stats)

  const EMPTY := State(map[], map[], {}, {}, map[])

  function Count(stats: Stats, reed: string): nat {
    if reed in stats then stats[reed] else 0
  }

  function AtLeastZero(n: int): nat {
    if n < 0 then 0 else n
  }

  predicate AuthorGone(s: State, reed: string) {
    reed in s.author && s.author[reed] in s.usersGone
  }

  /** Not removed, nor its author, who is known for local reeds only: a peer's
      reply stays live when its author's account goes. */
  predicate Live(s: State, reed: string) {
    reed !in s.reedsGone && !AuthorGone(s, reed)
  }

  /** The live replies anywhere beneath reed: what its counter stands for. */
  function LiveBelow(s: State, reed: string): set<string> {
    set d | d in s.parent && reed in Above(s.parent, d) && Live(s, d)
  }

  /** Every counter agrees with counting the live replies beneath its reed. */
  ghost predicate Exact(s: State) {
    forall reed {:trigger Count(s.stats, reed)} {:trigger LiveBelow(s, reed)} ::
        Count(s.stats, reed) == |LiveBelow(s, reed)|
  }

  // ---- what each trigger does to the counters ----

  /** Each of reeds changed by delta, never below zero. */
  function BumpAll(stats: Stats, reeds: set<string>, delta: int): Stats {
    map r | r in stats.Keys + reeds :: if r in reeds then AtLeastZero(Count(stats, r) + delta) else Count(stats, r)
  }

  lemma BumpNone(stats: Stats, delta: int)
    ensures BumpAll(stats, {}, delta) == stats
  {
    assert BumpAll(stats, {}, delta).Keys == stats.Keys;
  }

  lemma BumpOneMore(stats: Stats, reeds: set<string>, reed: string, delta: int)
    requires reed !in reeds
    ensures BumpAll(BumpAll(stats, reeds, delta), {reed}, delta) == BumpAll(stats, reeds + {reed}, delta)
  {
    var one, all := BumpAll(BumpAll(stats, reeds, delta), {reed}, delta), BumpAll(stats, reeds + {reed}, delta);
    assert one.Keys == all.Keys;
    forall r | r in one ensures one[r] == all[r] {}
  }

  lemma BumpSetAfterOne(stats: Stats, reed: string, reeds: set<string>, delta: int)
    requires reed !in reeds
    ensures BumpAll(BumpAll(stats, {reed}, delta), reeds, delta) == BumpAll(stats, {reed} + reeds, delta)
  {
    var one, all := BumpAll(BumpAll(stats, {reed}, delta), reeds, delta), BumpAll(stats, {reed} + reeds, delta);
    assert one.Keys == all.Keys;
    forall r | r in one ensures one[r] == all[r] {}
  }

  function AboveAny(parent: Links, xs: set<string>): set<string> {
    set x, r | x in xs && r in Above(parent, x) :: r
  }

  function Under(parent: Links, xs: set<string>, r: string): set<string> {
    set x | x in xs && r in Above(parent, x)
  }

  /** Every reed lowered by how many of xs lie beneath it, never below zero. */
  function Lowered(stats: Stats, parent: Links, xs: set<string>): Stats {
    map r | r in stats.Keys + AboveAny(parent, xs) :: AtLeastZero(Count(stats, r) - |Under(parent, xs, r)|)
  }

  /** The local replies by user not removed on their own. */
  function RepliesBy(s: State, user: string): set<string> {
    set x | x in s.parent && x in s.author && s.author[x] == user && x !in s.reedsGone
  }

  function AfterReply(s: State, reed: string, to: string): State {
    if reed in s.parent then s
    else s.(parent := s.parent[reed := to],
            stats := if AuthorGone(s, reed) then s.stats
                     else BumpAll(s.stats, {to} + Above(s.parent, to), 1))
  }

  function AfterReedRemoval(s: State, reed: string): State {
    if reed in s.reedsGone then s
    else s.(reedsGone := s.reedsGone + {reed}, stats := BumpAll(s.stats, Above(s.parent, reed), -1))
  }

  function AfterAccountRemoval(s: State, user: string): State {
    if user in s.usersGone then s
    else s.(usersGone := s.usersGone + {user}, stats := Lowered(s.stats, s.parent, RepliesBy(s, user)))
  }

  function AfterReferenceDeleted(s: State, reed: string): State {
    if reed !in s.parent then s
    else s.(parent := s.parent - {reed}, stats := BumpAll(s.stats, Above(s.parent, reed), -1))
  }

  /** A peer's removal of its own reed: the removal is stored, and then the
      reply's reference is deleted too, so both triggers run. */
  function AfterPeerRemoval(s: State, reed: string): State {
    AfterReferenceDeleted(AfterReedRemoval(s, reed), reed)
  }

  // ---- the triggers themselves ----

  class ReedStats {
    var parent: Links
    var author: map<string, string>
    var reedsGone: set<string>
    var usersGone: set<string>
    var stats: Stats

    function Value(): State
      reads this
    {
      State(parent, author, reedsGone, usersGone, stats)
    }

    constructor ()
      ensures Value() == EMPTY
    {
      parent, author, reedsGone, usersGone, stats := map[], map[], {}, {}, map[];
    }

    method BumpReedStat(reed: string, delta: int)
      modifies this`stats
      ensures stats == BumpAll(old(stats), {reed}, delta)
    {
      if reed !in stats {
        stats := stats[reed := AtLeastZero(delta)];
      } else {
        stats := stats[reed := AtLeastZero(stats[reed] + delta)];
      }
    }

    /** The walk up from start, which is called only where it ends. */
    method BumpReplyAncestors(start: string, delta: int)
      requires WalkEnds(parent, start)
      modifies this`stats
      ensures stats == BumpAll(old(stats), Above(parent, start), delta)
    {
      var current := start;
      ghost var was, done: set<string> := stats, {};
      BumpNone(was, delta);
      while current in parent
        invariant WalkEnds(parent, current)
        invariant done !! Above(parent, current) && done + Above(parent, current) == Above(parent, start)
        invariant stats == BumpAll(was, done, delta)
        decreases Above(parent, current)
      {
        WalkStep(parent, current);
        BumpOneMore(was, done, parent[current], delta);
        current := parent[current];
        BumpReedStat(current, delta);
        done := done + {current};
      }
      assert done == Above(parent, start);
    }

    method InsertReply(reed: string, to: string)
      requires reed !in parent && !AuthorGone(Value(), reed) ==> WalkEnds(parent[reed := to], reed)
      modifies this
      ensures Value() == AfterReply(old(Value()), reed, to)
      ensures old(Acyclic(parent)) && (reed in old(parent) || WalkEnds(parent, reed)) ==> Acyclic(parent)
    {
      if reed in parent { return; }
      if Acyclic(parent) {
        AddedWalkEndsExactlyWhen(parent, reed, to);
        if reed != to && reed !in Above(parent, to) { AddLink(parent, reed, to); }
      }
      assert parent[reed := to] - {reed} == parent;
      parent := parent[reed := to];
      if !AuthorGone(Value(), reed) {
        BumpReplyAncestors(reed, 1);
      }
    }

    method InsertReedRemoval(reed: string)
      requires reed !in reedsGone ==> WalkEnds(parent, reed)
      modifies this`stats, this`reedsGone
      ensures Value() == AfterReedRemoval(old(Value()), reed)
    {
      if reed in reedsGone { return; }
      reedsGone := reedsGone + {reed};
      BumpReplyAncestors(reed, -1);
    }

    method InsertAccountRemoval(user: string)
      requires user !in usersGone ==> forall row :: row in RepliesBy(Value(), user) ==> WalkEnds(parent, row)
      modifies this`stats, this`usersGone
      ensures Value() == AfterAccountRemoval(old(Value()), user)
    {
      if user in usersGone { return; }
      var rows := RepliesBy(Value(), user);
      usersGone := usersGone + {user};
      LowerEach(rows);
    }

    /** The trigger's loop over rows. */
    method LowerEach(all: set<string>)
      requires forall row :: row in all ==> WalkEnds(parent, row)
      modifies this`stats
      ensures stats == Lowered(old(stats), parent, all)
    {
      hide Lowered, BumpAll, Above;
      var rows := all;
      ghost var was, done: set<string> := stats, {};
      LoweredByNone(stats, parent);
      while rows != {}
        invariant rows !! done && rows + done == all
        invariant stats == Lowered(was, parent, done)
        decreases rows
      {
        var row :| row in rows;
        LoweredByOneMore(was, parent, done, row);
        BumpReplyAncestors(row, -1);
        rows, done := rows - {row}, done + {row};
      }
      assert done == all;
    }

    method DeleteReplyReference(reed: string)
      requires reed in parent ==> WalkEnds(parent - {reed}, parent[reed])
      modifies this`stats, this`parent
      ensures Value() == AfterReferenceDeleted(old(Value()), reed)
      ensures old(Acyclic(parent)) ==> Acyclic(parent)
    {
      if reed !in parent { return; }
      if Acyclic(parent) { DropLink(parent, reed); }
      var to := parent[reed];
      parent := parent - {reed};
      NotBackAt(parent, to);
      BumpReedStat(to, -1);
      BumpReplyAncestors(to, -1);
      BumpSetAfterOne(old(stats), to, Above(parent, to), -1);
    }

    method RemovePeerReed(reed: string)
      requires reed !in reedsGone ==> WalkEnds(parent, reed)
      requires reed in parent ==> WalkEnds(parent - {reed}, parent[reed])
      modifies this
      ensures Value() == AfterPeerRemoval(old(Value()), reed)
      ensures old(Acyclic(parent)) ==> Acyclic(parent)
    {
      InsertReedRemoval(reed);
      DeleteReplyReference(reed);
    }
  }

  lemma LoweredByNone(stats: Stats, parent: Links)
    ensures Lowered(stats, parent, {}) == stats
  {
    var none := Lowered(stats, parent, {});
    assert none.Keys == stats.Keys;
    forall r | r in none ensures none[r] == stats[r] {
      assert Under(parent, {}, r) == {};
    }
  }

  lemma LoweredByOneMore(stats: Stats, parent: Links, xs: set<string>, x: string)
    requires x !in xs
    ensures BumpAll(Lowered(stats, parent, xs), Above(parent, x), -1) == Lowered(stats, parent, xs + {x})
  {
    AboveAnyOneMore(parent, xs, x);
    var before, all := Lowered(stats, parent, xs), Lowered(stats, parent, xs + {x});
    var one := BumpAll(before, Above(parent, x), -1);
    assert one.Keys == all.Keys;
    forall r | r in one ensures one[r] == all[r] {
      BumpCount(before, Above(parent, x), -1, r);
      LoweredCount(stats, parent, xs, r);
      LoweredCount(stats, parent, xs + {x}, r);
      UnderOneMore(parent, xs, x, r);
    }
  }

  lemma AboveAnyOneMore(parent: Links, xs: set<string>, x: string)
    ensures AboveAny(parent, xs + {x}) == AboveAny(parent, xs) + Above(parent, x)
  {}

  lemma BumpCount(stats: Stats, reeds: set<string>, delta: int, r: string)
    ensures Count(BumpAll(stats, reeds, delta), r)
            == if r in reeds then AtLeastZero(Count(stats, r) + delta) else Count(stats, r)
  {}

  lemma UnderOneMore(parent: Links, xs: set<string>, x: string, r: string)
    requires x !in xs
    ensures |Under(parent, xs + {x}, r)| == |Under(parent, xs, r)| + (if r in Above(parent, x) then 1 else 0)
  {
    assert Under(parent, xs + {x}, r) == Under(parent, xs, r) + (if r in Above(parent, x) then {x} else {});
  }

  lemma LoweredCount(stats: Stats, parent: Links, xs: set<string>, r: string)
    ensures Count(Lowered(stats, parent, xs), r) == AtLeastZero(Count(stats, r) - |Under(parent, xs, r)|)
  {}


  // ---- the counters against counting ----

  /** The live replies of x's own thread: those beneath it, and x. */
  function LiveFrom(s: State, x: string): set<string> {
    LiveBelow(s, x) + (if Live(s, x) then {x} else {})
  }

  /** n isn't a reply yet, and neither is the reed it replies to beneath it. */
  ghost predicate Joins(s: State, n: string, to: string) {
    n !in s.parent && n != to && n !in Above(s.parent, to)
  }

  lemma JoinedIsNew(s: State, n: string, to: string, r: string, d: string)
    requires Acyclic(s.parent) && Joins(s, n, to) && r in {to} + Above(s.parent, to)
    requires d == n || n in Above(s.parent, d)
    ensures r !in Above(s.parent, d)
  {
    if r in Above(s.parent, d) {
      AboveIsAChain(s.parent, d, r, n);
      if r != to { AboveTransitiveNot(s.parent, to, r, n); }
    }
  }

  lemma AboveTransitiveNot(parent: Links, x: string, a: string, b: string)
    requires Acyclic(parent) && a in Above(parent, x) && b !in Above(parent, x)
    ensures b !in Above(parent, a)
  {
    if b in Above(parent, a) { AboveTransitive(parent, x, a, b); }
  }

  /** A reply brings all that is live in its own thread under each reed above. */
  lemma LiveBelowAfterReply(s: State, n: string, to: string, r: string)
    requires Acyclic(s.parent) && Joins(s, n, to)
    ensures LiveBelow(AfterReply(s, n, to), r)
            == LiveBelow(s, r) + (if r in {to} + Above(s.parent, to) then LiveFrom(s, n) else {})
    ensures r in {to} + Above(s.parent, to) ==> LiveBelow(s, r) !! LiveFrom(s, n)
  {
    AddLink(s.parent, n, to);
    var t := AfterReply(s, n, to);
    var expected := LiveBelow(s, r) + (if r in {to} + Above(s.parent, to) then LiveFrom(s, n) else {});
    assert t.parent == s.parent[n := to] && forall d :: Live(t, d) == Live(s, d);
    hide AfterReply, Live;
    forall d ensures d in LiveBelow(t, r) <==> d in expected {
      AddLinkAt(s.parent, n, to, d);
    }
    if r in {to} + Above(s.parent, to) {
      forall d | d in LiveFrom(s, n) ensures d !in LiveBelow(s, r) { JoinedIsNew(s, n, to, r, d); }
    }
  }

  lemma CountsAfterReply(s: State, n: string, to: string, r: string)
    requires Acyclic(s.parent) && Exact(s) && Joins(s, n, to)
    ensures var t := AfterReply(s, n, to);
            var up := {to} + Above(s.parent, to);
            && Count(t.stats, r) == Count(s.stats, r) + (if !AuthorGone(s, n) && r in up then 1 else 0)
            && |LiveBelow(t, r)| == Count(s.stats, r) + (if r in up then |LiveFrom(s, n)| else 0)
  {
    BumpCount(s.stats, {to} + Above(s.parent, to), 1, r);
    LiveBelowAfterReply(s, n, to, r);
    assert Count(s.stats, r) == |LiveBelow(s, r)|;
  }

  lemma LiveFromCount(s: State, x: string)
    requires Acyclic(s.parent) && Exact(s)
    ensures |LiveFrom(s, x)| == Count(s.stats, x) + if Live(s, x) then 1 else 0
  {
    assert x !in LiveBelow(s, x);
    assert Count(s.stats, x) == |LiveBelow(s, x)|;
  }

  /** The trigger counts a reply as one, or not at all once its author is gone:
      whether that is how many live replies come with it. */
  predicate CountsForWhatItBrings(s: State, n: string) {
    Count(s.stats, n) + (if Live(s, n) then 1 else 0) == if AuthorGone(s, n) then 0 else 1
  }

  /** A new reply, whatever is already beneath it, leaves every counter exact
      exactly when the trigger counts it for what it brings. */
  lemma ReplyKeepsCountersExact(s: State, n: string, to: string)
    requires Acyclic(s.parent) && Exact(s) && Joins(s, n, to)
    ensures Acyclic(AfterReply(s, n, to).parent)
    ensures Exact(AfterReply(s, n, to)) <==> CountsForWhatItBrings(s, n)
  {
    AddLink(s.parent, n, to);
    LiveFromCount(s, n);
    var t := AfterReply(s, n, to);
    if CountsForWhatItBrings(s, n) {
      forall r ensures Count(t.stats, r) == |LiveBelow(t, r)| { CountsAfterReply(s, n, to, r); }
    } else {
      CountsAfterReply(s, n, to, to);
    }
  }

  /** For a reply nothing is beneath yet that is: it wasn't removed on its own
      while its author is still here. */
  lemma LeafCountsForItself(s: State, n: string)
    requires Exact(s) && n !in s.parent.Values
    ensures CountsForWhatItBrings(s, n) <==> n !in s.reedsGone || AuthorGone(s, n)
  {
    forall d | d in s.parent ensures n !in Above(s.parent, d) { AboveAreParents(s.parent, d); }
    assert LiveBelow(s, n) == {};
    assert Count(s.stats, n) == |LiveBelow(s, n)|;
  }

  lemma LiveBelowAfterReedRemoval(s: State, x: string, r: string)
    requires x !in s.reedsGone
    ensures LiveBelow(AfterReedRemoval(s, x), r) == LiveBelow(s, r) - {x}
    ensures x in LiveBelow(s, r) <==> x in s.parent && r in Above(s.parent, x) && !AuthorGone(s, x)
  {
    var t := AfterReedRemoval(s, x);
    assert forall d :: Live(t, d) == (Live(s, d) && d != x);
  }

  lemma CountsAfterReedRemoval(s: State, x: string, r: string)
    requires Exact(s) && x !in s.reedsGone
    ensures var t := AfterReedRemoval(s, x);
            && Count(t.stats, r)
                 == (if r in Above(s.parent, x) then AtLeastZero(Count(s.stats, r) - 1) else Count(s.stats, r))
            && |LiveBelow(t, r)| == Count(s.stats, r) - (if r in Above(s.parent, x) && !AuthorGone(s, x) then 1 else 0)
  {
    BumpCount(s.stats, Above(s.parent, x), -1, r);
    LiveBelowAfterReedRemoval(s, x, r);
    WithoutOne(LiveBelow(s, r), x);
    AboveOnlyOfLinked(s.parent, x);
    assert Count(s.stats, r) == |LiveBelow(s, r)|;
  }

  lemma WithoutOne(xs: set<string>, x: string)
    ensures |xs - {x}| == |xs| - (if x in xs then 1 else 0)
  {
    if x in xs { SubsetSize({x}, xs); } else { assert xs - {x} == xs; }
  }

  lemma AboveOnlyOfLinked(parent: Links, x: string)
    ensures x !in parent ==> Above(parent, x) == {}
  {}

  /** Removing a reed leaves every counter exact exactly when its author is
      still here, it isn't a reply, or every counter above it is already zero. */
  lemma ReedRemovalKeepsCountersExact(s: State, x: string)
    requires Exact(s) && x !in s.reedsGone
    ensures Exact(AfterReedRemoval(s, x))
            <==> !AuthorGone(s, x) || forall a :: a in Above(s.parent, x) ==> Count(s.stats, a) == 0
  {
    if !AuthorGone(s, x) || forall a :: a in Above(s.parent, x) ==> Count(s.stats, a) == 0 {
      var t := AfterReedRemoval(s, x);
      forall r ensures Count(t.stats, r) == |LiveBelow(t, r)| { CountsAfterReedRemoval(s, x, r); }
    } else {
      var a :| a in Above(s.parent, x) && Count(s.stats, a) != 0;
      CountsAfterReedRemoval(s, x, a);
    }
  }

  lemma LiveBelowAfterAccountRemoval(s: State, u: string, r: string)
    requires u !in s.usersGone
    ensures LiveBelow(AfterAccountRemoval(s, u), r) == LiveBelow(s, r) - Under(s.parent, RepliesBy(s, u), r)
    ensures Under(s.parent, RepliesBy(s, u), r) <= LiveBelow(s, r)
  {
    var t := AfterAccountRemoval(s, u);
    assert forall d :: AuthorGone(t, d) <==> AuthorGone(s, d) || (d in s.author && s.author[d] == u);
  }

  lemma SubsetSize(small: set<string>, big: set<string>)
    requires small <= big
    ensures |big - small| == |big| - |small|
  {
    assert big == (big - small) + small;
  }

  /** Removing an account always leaves every counter exact. */
  lemma AccountRemovalKeepsCountersExact(s: State, u: string)
    requires Exact(s)
    ensures Exact(AfterAccountRemoval(s, u))
  {
    if u !in s.usersGone {
      var t := AfterAccountRemoval(s, u);
      forall r ensures Count(t.stats, r) == |LiveBelow(t, r)| {
        LoweredCount(s.stats, s.parent, RepliesBy(s, u), r);
        LiveBelowAfterAccountRemoval(s, u, r);
        SubsetSize(Under(s.parent, RepliesBy(s, u), r), LiveBelow(s, r));
        assert Count(s.stats, r) == |LiveBelow(s, r)|;
      }
    }
  }

  lemma LiveBelowAfterReferenceDeleted(s: State, x: string, r: string)
    requires Acyclic(s.parent) && x in s.parent
    ensures LiveBelow(AfterReferenceDeleted(s, x), r)
            == if r in Above(s.parent, x) then LiveBelow(s, r) - LiveFrom(s, x) else LiveBelow(s, r)
    ensures r in Above(s.parent, x) ==> LiveFrom(s, x) <= LiveBelow(s, r)
  {
    DropLink(s.parent, x);
    var t := AfterReferenceDeleted(s, x);
    assert forall d :: Live(t, d) == Live(s, d);
    forall d | d in s.parent
      ensures d in LiveBelow(t, r)
              <==> d in (if r in Above(s.parent, x) then LiveBelow(s, r) - LiveFrom(s, x) else LiveBelow(s, r))
      ensures r in Above(s.parent, x) && x in Above(s.parent, d) ==> r in Above(s.parent, d)
    {
      if x in Above(s.parent, d) && r in Above(s.parent, x) { AboveTransitive(s.parent, d, x, r); }
    }
  }

  lemma CountsAfterReferenceDeleted(s: State, x: string, r: string)
    requires Acyclic(s.parent) && Exact(s) && x in s.parent
    ensures var t := AfterReferenceDeleted(s, x);
            && Count(t.stats, r)
                 == (if r in Above(s.parent, x) then AtLeastZero(Count(s.stats, r) - 1) else Count(s.stats, r))
            && |LiveBelow(t, r)| == Count(s.stats, r) - (if r in Above(s.parent, x) then |LiveFrom(s, x)| else 0)
  {
    BumpCount(s.stats, Above(s.parent, x), -1, r);
    LiveBelowAfterReferenceDeleted(s, x, r);
    assert Count(s.stats, r) == |LiveBelow(s, r)|;
    if r in Above(s.parent, x) { SubsetSize(LiveFrom(s, x), LiveBelow(s, r)); }
  }

  /** Deleting a reply's reference leaves every counter exact exactly when one
      live reply goes with it, or every counter above it is already zero. */
  lemma ReferenceDeletedKeepsCountersExact(s: State, x: string)
    requires Acyclic(s.parent) && Exact(s) && x in s.parent
    ensures Acyclic(AfterReferenceDeleted(s, x).parent)
    ensures Exact(AfterReferenceDeleted(s, x))
            <==> |LiveFrom(s, x)| == 1 || forall a :: a in Above(s.parent, x) ==> Count(s.stats, a) == 0
  {
    DropLink(s.parent, x);
    if |LiveFrom(s, x)| == 1 || forall a :: a in Above(s.parent, x) ==> Count(s.stats, a) == 0 {
      var t := AfterReferenceDeleted(s, x);
      forall r ensures Count(t.stats, r) == |LiveBelow(t, r)| { CountsAfterReferenceDeleted(s, x, r); }
    } else {
      var a :| a in Above(s.parent, x) && Count(s.stats, a) != 0;
      CountsAfterReferenceDeleted(s, x, a);
    }
  }

  /** Whether the second lowering a peer's removal makes is for one live reply. */
  predicate SecondLoweringFits(s: State, x: string) {
    || x !in s.parent
    || Count(s.stats, x) == 1
    || forall a :: a in Above(s.parent, x) ==> Count(s.stats, a) == if x in s.reedsGone then 0 else 1
  }

  /** A peer's removal of its reed leaves every counter exact exactly when the
      reed isn't a reply, has one live reply beneath it, or is the only live
      reply beneath each reed above it. */
  lemma PeerRemovalKeepsCountersExact(s: State, x: string)
    requires Acyclic(s.parent) && Exact(s) && x !in s.author
    ensures Acyclic(AfterPeerRemoval(s, x).parent)
    ensures Exact(AfterPeerRemoval(s, x)) <==> SecondLoweringFits(s, x)
  {
    var t := AfterReedRemoval(s, x);
    if x !in s.reedsGone { ReedRemovalKeepsCountersExact(s, x); }
    if x in s.parent {
      ReferenceDeletedKeepsCountersExact(t, x);
      LiveFromCount(t, x);
      CountsAfterRemoval(s, x);
    }
  }

  lemma CountsAfterRemoval(s: State, x: string)
    requires Acyclic(s.parent) && Exact(s) && x !in s.author && x in s.parent
    ensures Count(AfterReedRemoval(s, x).stats, x) == Count(s.stats, x)
    ensures forall a :: a in Above(s.parent, x) ==>
              Count(AfterReedRemoval(s, x).stats, a) == Count(s.stats, a) - if x in s.reedsGone then 0 else 1
  {
    if x !in s.reedsGone {
      CountsAfterReedRemoval(s, x, x);
      forall a | a in Above(s.parent, x)
        ensures Count(AfterReedRemoval(s, x).stats, a) == Count(s.stats, a) - 1
      {
        CountsAfterReedRemoval(s, x, a);
      }
    }
  }

  /** Two live replies of peers to one reed. */
  function TwoReplies(reed: string, a: string, b: string): State {
    AfterReply(AfterReply(EMPTY, a, reed), b, reed)
  }

  lemma TwoRepliesCounted(reed: string, a: string, b: string)
    requires a != b && a != reed && b != reed
    ensures TwoReplies(reed, a, b) == EMPTY.(parent := map[a := reed, b := reed], stats := map[reed := 2])
    ensures Above(map[a := reed, b := reed], a) == {reed} && Above(map[b := reed], b) == {reed}
  {
    var one := AfterReply(EMPTY, a, reed);
    assert Above(map[], reed) == {};
    assert one.parent == map[a := reed] && Above(one.parent, reed) == {};
    assert one.stats == map[reed := 1];
    assert map[a := reed, b := reed] - {a} == map[b := reed];
    assert Above(map[b := reed], reed) == {};
  }

  /** After one's removal the counter says that none is left. */
  lemma PeerRemovalMiscounts(reed: string, a: string, b: string)
    requires a != b && a != reed && b != reed
    ensures var s := AfterPeerRemoval(TwoReplies(reed, a, b), a);
            Count(s.stats, reed) == 0 && LiveBelow(s, reed) == {b}
  {
    TwoRepliesCounted(reed, a, b);
    hide TwoReplies, Above;
    var s := AfterPeerRemoval(TwoReplies(reed, a, b), a);
    assert s.parent == map[b := reed] && s.reedsGone == {a};
  }

  // ---- whole runs ----

  /** Publish stores a local reed; the others are the transactions above, with
      RemovePeerReed for reeds of peers and RemoveReed for local ones. */
  datatype Event =
    | Publish(reed: string, author: string)
    | Reply(reed: string, to: string)
    | RemoveReed(reed: string)
    | RemovePeerReed(reed: string)
    | RemoveAccount(user: string)

  /** A local reed is removed only while its author is here; a reply and a
      peer's removal come only where the triggers count them for what they are. */
  ghost predicate Allowed(s: State, e: Event) {
    match e
    case Publish(reed, author) => reed !in s.author && reed !in s.parent
    case Reply(reed, to) => Joins(s, reed, to) && CountsForWhatItBrings(s, reed)
    case RemoveReed(reed) => reed in s.author && !AuthorGone(s, reed)
    case RemovePeerReed(reed) => reed !in s.author && SecondLoweringFits(s, reed)
    case RemoveAccount(user) => true
  }

  function After(s: State, e: Event): State {
    match e
    case Publish(reed, author) => s.(author := s.author[reed := author])
    case Reply(reed, to) => AfterReply(s, reed, to)
    case RemoveReed(reed) => AfterReedRemoval(s, reed)
    case RemovePeerReed(reed) => AfterPeerRemoval(s, reed)
    case RemoveAccount(user) => AfterAccountRemoval(s, user)
  }

  function Run(s: State, events: seq<Event>): State
    decreases |events|
  {
    if events == [] then s else Run(After(s, events[0]), events[1..])
  }

  ghost predicate AllowedRun(s: State, events: seq<Event>)
    decreases |events|
  {
    events == [] || (Allowed(s, events[0]) && AllowedRun(After(s, events[0]), events[1..]))
  }

  lemma StepKeepsCountersExact(s: State, e: Event)
    requires Acyclic(s.parent) && Exact(s) && Allowed(s, e)
    ensures Acyclic(After(s, e).parent) && Exact(After(s, e))
  {
    match e
    case Publish(reed, author) =>
      var t := After(s, e);
      forall r ensures LiveBelow(t, r) == LiveBelow(s, r) {}
      assert forall r :: Count(t.stats, r) == Count(s.stats, r);
    case Reply(reed, to) => ReplyKeepsCountersExact(s, reed, to);
    case RemoveReed(reed) => if reed !in s.reedsGone { ReedRemovalKeepsCountersExact(s, reed); }
    case RemovePeerReed(reed) => PeerRemovalKeepsCountersExact(s, reed);
    case RemoveAccount(user) => AccountRemovalKeepsCountersExact(s, user);
  }

  /** In every run the counters agree with counting, and threads stay a forest. */
  lemma {:induction false} RunKeepsCountersExact(s: State, events: seq<Event>)
    requires Acyclic(s.parent) && Exact(s) && AllowedRun(s, events)
    ensures Acyclic(Run(s, events).parent) && Exact(Run(s, events))
    decreases |events|
  {
    if events != [] {
      StepKeepsCountersExact(s, events[0]);
      RunKeepsCountersExact(After(s, events[0]), events[1..]);
    }
  }

  lemma CountersAlwaysExact(events: seq<Event>)
    requires AllowedRun(EMPTY, events)
    ensures var s := Run(EMPTY, events);
            forall r :: Count(s.stats, r) == |LiveBelow(s, r)|
  {
    assert forall r :: LiveBelow(EMPTY, r) == {};
    RunKeepsCountersExact(EMPTY, events);
  }

  /** A removal recorded before its reply is: the counter says one, with nothing
      live beneath. */
  lemma RemovedFirstMiscounts(reed: string, n: string)
    requires n != reed
    ensures var s := AfterReply(AfterReedRemoval(EMPTY, n), n, reed);
            Count(s.stats, reed) == 1 && LiveBelow(s, reed) == {}
  {
    assert Above(map[], reed) == {} && Above(map[], n) == {};
  }

  /** In those runs every trigger's walk up ends. */
  lemma WalksAlwaysEnd(events: seq<Event>, reed: string)
    requires AllowedRun(EMPTY, events)
    ensures WalkEnds(Run(EMPTY, events).parent, reed)
  {
    CountersAlwaysExact(events);
    assert forall r :: LiveBelow(EMPTY, r) == {};
    RunKeepsCountersExact(EMPTY, events);
    EndsInForest(Run(EMPTY, events).parent, reed);
  }

  /** A reed here answers a peer's, which then comes in as an answer to it: the
      walk the insert would take goes on for ever. */
  lemma AnsweringBackNeverEnds(here: string, there: string)
    requires here != there
    ensures var s := AfterReply(EMPTY, here, there);
            there !in s.parent && !WalkEnds(s.parent[there := here], there)
  {
    var s := AfterReply(EMPTY, here, there);
    assert s.parent == map[here := there];
    var round := s.parent[there := here];
    forall n: nat ensures GoesOnFor(round, there, n) { RoundGoesOn(here, there, n); }
  }

  // ---- the clamp at zero ----

  /** Lowering xs's counters by one each never meets the clamp. */
  ghost predicate Unclamped(stats: Stats, xs: set<string>) {
    forall r :: r in xs ==> Count(stats, r) >= 1
  }

  /** The walk up from an allowed removal finds every counter at least one. */
  lemma ReedRemovalNeverClamps(s: State, x: string)
    requires Exact(s) && Allowed(s, RemoveReed(x)) && x !in s.reedsGone
    ensures Unclamped(s.stats, Above(s.parent, x))
  {
    forall r | r in Above(s.parent, x) ensures Count(s.stats, r) >= 1 {
      assert x in LiveBelow(s, r);
      assert |LiveBelow(s, r) - {x}| + 1 == |LiveBelow(s, r)|;
    }
  }

  /** The second walk of a peer's removal does meet it, exactly where the reply
      was the only live one left beneath some reed. */
  lemma PeerRemovalClampsExactlyWhen(s: State, x: string)
    requires Acyclic(s.parent) && Exact(s) && x !in s.author && x in s.parent && x !in s.reedsGone
    ensures Unclamped(s.stats, Above(s.parent, x))
    ensures !Unclamped(AfterReedRemoval(s, x).stats, Above(s.parent, x))
            <==> exists a :: a in Above(s.parent, x) && Count(s.stats, a) == 1
  {
    CountsAfterRemoval(s, x);
    forall r | r in Above(s.parent, x) ensures Count(s.stats, r) >= 1 {
      assert x in LiveBelow(s, r);
      assert |LiveBelow(s, r) - {x}| + 1 == |LiveBelow(s, r)|;
    }
  }

  /** Nor does any walk of an account removal, whatever rows came before it. */
  lemma AccountRemovalNeverClamps(s: State, u: string, done: set<string>, next: string)
    requires Exact(s) && u !in s.usersGone
    requires done <= RepliesBy(s, u) && next in RepliesBy(s, u) - done
    ensures Unclamped(Lowered(s.stats, s.parent, done), Above(s.parent, next))
  {
    forall r | r in Above(s.parent, next) ensures Count(Lowered(s.stats, s.parent, done), r) >= 1 {
      LoweredCount(s.stats, s.parent, done, r);
      LiveBelowAfterAccountRemoval(s, u, r);
      assert Under(s.parent, done, r) + {next} <= LiveBelow(s, r);
      SubsetSize(Under(s.parent, done, r) + {next}, LiveBelow(s, r));
      assert |Under(s.parent, done, r) + {next}| == |Under(s.parent, done, r)| + 1;
      assert Count(s.stats, r) == |LiveBelow(s, r)|;
    }
  }
}
