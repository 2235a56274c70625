/** Forests kept as a table of parent links: reply threads and invite trees. */
module Forest {
  type Links = map<string, string>

  /** Everything reached by following links from x, each link at most once. */
  function Above(parent: Links, x: string): set<string>
    decreases parent.Keys
  {
    if x !in parent then {} else {parent[x]} + Above(parent - {x}, parent[x])
  }

  /** Nobody is reached from themselves. */
  ghost predicate Acyclic(parent: Links) {
    forall x :: x in parent ==> x !in Above(parent, x)
  }

  /** Everyone x is reached from. */
  function Below(parent: Links, x: string): set<string> {
    set d | d in parent && x in Above(parent, d)
  }

  lemma {:induction false} AboveAreParents(parent: Links, x: string)
    ensures Above(parent, x) <= parent.Values
    decreases parent.Keys
  {
    if x in parent { AboveAreParents(parent - {x}, parent[x]); }
  }

  /** A link nobody on the way up from x starts changes nothing for x. */
  lemma {:induction false} AboveWithExtraLink(parent: Links, y: string, p: string, x: string)
    requires y !in parent && y != x && y !in Above(parent, x)
    ensures Above(parent[y := p], x) == Above(parent, x)
    decreases parent.Keys
  {
    if x in parent {
      AboveWithExtraLink(parent - {x}, y, p, parent[x]);
      assert parent[y := p] - {x} == (parent - {x})[y := p];
    }
  }

  /** In a forest, above x are its parent and all above that. */
  lemma AboveStep(parent: Links, x: string)
    requires Acyclic(parent) && x in parent
    ensures Above(parent, x) == {parent[x]} + Above(parent, parent[x])
    ensures parent[x] !in Above(parent, parent[x])
  {
    AboveWithExtraLink(parent - {x}, x, parent[x], parent[x]);
    assert (parent - {x})[x := parent[x]] == parent;
    if parent[x] !in parent { assert Above(parent, parent[x]) == {}; }
  }

  lemma {:induction false} AboveTransitive(parent: Links, x: string, a: string, b: string)
    requires Acyclic(parent) && a in Above(parent, x) && b in Above(parent, a)
    ensures b in Above(parent, x)
    decreases Above(parent, x)
  {
    AboveStep(parent, x);
    if a != parent[x] { AboveTransitive(parent, parent[x], a, b); }
  }

  /** Two reached from x are reached one from the other: the way up never forks. */
  lemma {:induction false} AboveIsAChain(parent: Links, x: string, a: string, b: string)
    requires Acyclic(parent) && a in Above(parent, x) && b in Above(parent, x)
    ensures a == b || a in Above(parent, b) || b in Above(parent, a)
    decreases Above(parent, x)
  {
    AboveStep(parent, x);
    if a != parent[x] && b != parent[x] { AboveIsAChain(parent, parent[x], a, b); }
  }

  /** Hanging a new leaf y under p keeps the forest and everyone else's way up. */
  lemma AddLeaf(parent: Links, y: string, p: string)
    requires Acyclic(parent) && y !in parent && y !in parent.Values && y != p
    ensures Acyclic(parent[y := p])
    ensures Above(parent[y := p], y) == {p} + Above(parent, p)
    ensures forall x :: x != y ==> Above(parent[y := p], x) == Above(parent, x)
  {
    AboveAreParents(parent, p);
    AddLink(parent, y, p);
    forall x | x != y ensures Above(parent[y := p], x) == Above(parent, x) {
      AboveAreParents(parent, x);
      AddLinkAt(parent, y, p, x);
    }
  }

  /** What hanging y, still a root, under p adds to the way up from x. */
  lemma {:induction false} AddLinkAt(parent: Links, y: string, p: string, x: string)
    requires Acyclic(parent) && y !in parent && y != p && y !in Above(parent, p)
    ensures Above(parent[y := p], x)
            == Above(parent, x) + if x == y || y in Above(parent, x) then {p} + Above(parent, p) else {}
    ensures x != y && y in Above(parent, x) ==> x != p && x !in Above(parent, p)
    decreases parent.Keys
  {
    if x == y {
      assert parent[y := p] - {y} == parent;
    } else if x in parent {
      var less := parent - {x};
      DropLink(parent, x);
      AboveShrinks(parent, x, p);
      assert parent[y := p] - {x} == less[y := p];
      if y in Above(parent, x) && x in Above(parent, p) { AboveTransitive(parent, p, x, y); }
      AboveStep(parent, x);
      AddLinkAt(less, y, p, parent[x]);
      assert x !in Above(parent, parent[x]) && parent[x] != x;
    }
  }

  /** Hanging y, still a root, under p keeps the forest, unless p is beneath it. */
  lemma AddLink(parent: Links, y: string, p: string)
    requires Acyclic(parent) && y !in parent && y != p && y !in Above(parent, p)
    ensures Acyclic(parent[y := p])
    ensures Above(parent[y := p], y) == {p} + Above(parent, p)
  {
    var more := parent[y := p];
    forall x | x in more ensures x !in Above(more, x) {
      AddLinkAt(parent, y, p, x);
    }
    AddLinkAt(parent, y, p, y);
  }

  /** Dropping x's link leaves the way up of whoever doesn't pass through it. */
  lemma DropLink(parent: Links, x: string)
    requires Acyclic(parent) && x in parent
    ensures Acyclic(parent - {x})
    ensures forall d :: d != x && x !in Above(parent, d) ==> Above(parent - {x}, d) == Above(parent, d)
    ensures forall d :: d == x || x in Above(parent, d) ==>
              Above(parent - {x}, d) == Above(parent, d) - Above(parent, x)
  {
    forall d ensures (d != x && x !in Above(parent, d) ==> Above(parent - {x}, d) == Above(parent, d))
                  && (d == x || x in Above(parent, d) ==> Above(parent - {x}, d) == Above(parent, d) - Above(parent, x))
    {
      DropLinkAt(parent, x, d);
    }
  }

  lemma {:induction false} DropLinkAt(parent: Links, x: string, d: string)
    requires Acyclic(parent) && x in parent
    ensures d != x && x !in Above(parent, d) ==> Above(parent - {x}, d) == Above(parent, d)
    ensures d == x || x in Above(parent, d) ==> Above(parent - {x}, d) == Above(parent, d) - Above(parent, x)
    decreases Above(parent, d)
  {
    if d != x && d in parent {
      AboveStep(parent, d);
      DropLinkAt(parent, x, parent[d]);
      DropLinkStep(parent, x, d);
      if x in Above(parent, d) {
        assert parent[d] !in Above(parent, x) by {
          if parent[d] in Above(parent, x) { AboveTransitive(parent, parent[d], x, parent[d]); }
        }
      }
    }
  }

  /** Above(parent - {x}, d) unfolds at d as Above(parent, d) does. */
  lemma {:induction false} DropLinkStep(parent: Links, x: string, d: string)
    requires Acyclic(parent) && x in parent && d in parent && d != x
    ensures Above(parent - {x}, d) == {parent[d]} + Above(parent - {x}, parent[d])
  {
    AboveShrinks(parent, x, parent[d]);
    AboveStep(parent, d);
    assert d !in Above(parent, parent[d]) && d != parent[d];
    AboveShrinks(parent - {x}, d, parent[d]);
    AboveWithExtraLink(parent - {x} - {d}, d, parent[d], parent[d]);
    assert (parent - {x} - {d})[d := parent[d]] == parent - {x};
  }

  /** With fewer links less is reached. */
  lemma {:induction false} AboveShrinks(parent: Links, x: string, d: string)
    ensures Above(parent - {x}, d) <= Above(parent, d)
    decreases parent.Keys
  {
    if d in parent && d != x {
      AboveShrinks(parent - {d}, x, parent[d]);
      assert parent - {x} - {d} == parent - {d} - {x};
    }
  }

  // ---- where the way up ends ----

  /** Whether following links from x goes on for n turns. */
  predicate GoesOnFor(parent: Links, x: string, n: nat)
    decreases n
  {
    n == 0 || (x in parent && GoesOnFor(parent, parent[x], n - 1))
  }

  ghost predicate WalkEnds(parent: Links, x: string) {
    exists n: nat :: !GoesOnFor(parent, x, n)
  }

  lemma {:induction false} StaysEnded(parent: Links, x: string, n: nat)
    requires !GoesOnFor(parent, x, n)
    ensures !GoesOnFor(parent, x, n + 1)
    decreases n
  {
    if x in parent { StaysEnded(parent, parent[x], n - 1); }
  }

  /** Whatever is reached from x by some of the links ends sooner than x. */
  lemma {:induction false} ReachedEndsSooner(parent: Links, some: Links, x: string, a: string, n: nat)
    requires some.Keys <= parent.Keys && forall k :: k in some ==> some[k] == parent[k]
    requires !GoesOnFor(parent, x, n) && a in Above(some, x)
    ensures n > 0 && !GoesOnFor(parent, a, n - 1)
    decreases some.Keys
  {
    if a != parent[x] {
      ReachedEndsSooner(parent, some - {x}, parent[x], a, n - 1);
      StaysEnded(parent, a, n - 2);
    }
  }

  /** A walk that ends doesn't come back to where it began. */
  lemma {:induction false} NotRound(parent: Links, x: string, n: nat)
    requires !GoesOnFor(parent, x, n)
    ensures x !in Above(parent, x)
    decreases n
  {
    if x in Above(parent, x) {
      ReachedEndsSooner(parent, parent, x, x, n);
      NotRound(parent, x, n - 1);
    }
  }

  lemma NotBackAt(parent: Links, x: string)
    requires WalkEnds(parent, x)
    ensures x !in Above(parent, x)
  {
    var n: nat :| !GoesOnFor(parent, x, n);
    NotRound(parent, x, n);
  }

  /** On a walk that ends, above x are its parent and all above that. */
  lemma WalkStep(parent: Links, x: string)
    requires WalkEnds(parent, x) && x in parent
    ensures Above(parent, x) == {parent[x]} + Above(parent, parent[x])
    ensures WalkEnds(parent, parent[x]) && parent[x] !in Above(parent, parent[x])
  {
    var n: nat :| !GoesOnFor(parent, x, n);
    assert !GoesOnFor(parent, parent[x], n - 1);
    NotRound(parent, x, n);
    NotRound(parent, parent[x], n - 1);
    AboveWithExtraLink(parent - {x}, x, parent[x], parent[x]);
    assert (parent - {x})[x := parent[x]] == parent;
  }

  lemma {:induction false} EndsInForest(parent: Links, x: string)
    requires Acyclic(parent)
    ensures WalkEnds(parent, x)
    decreases Above(parent, x)
  {
    if x in parent {
      AboveStep(parent, x);
      EndsInForest(parent, parent[x]);
      var n: nat :| !GoesOnFor(parent, parent[x], n);
      assert !GoesOnFor(parent, x, n + 1);
    } else {
      assert !GoesOnFor(parent, x, 1);
    }
  }

  /** The links make a forest exactly when every way up ends. */
  lemma ForestWhereWalksEnd(parent: Links)
    ensures Acyclic(parent) <==> forall x :: WalkEnds(parent, x)
  {
    if Acyclic(parent) {
      forall x ensures WalkEnds(parent, x) { EndsInForest(parent, x); }
    }
    if forall x :: WalkEnds(parent, x) {
      forall x | x in parent ensures x !in Above(parent, x) {
        NotBackAt(parent, x);
      }
    }
  }

  /** Once y, still a root, is hung under p, the way up from y ends exactly when
      p isn't y or beneath it. */
  lemma AddedWalkEndsExactlyWhen(parent: Links, y: string, p: string)
    requires Acyclic(parent) && y !in parent
    ensures WalkEnds(parent[y := p], y) <==> y != p && y !in Above(parent, p)
  {
    var more := parent[y := p];
    if y != p && y !in Above(parent, p) {
      AddLink(parent, y, p);
      EndsInForest(more, y);
    }
    if WalkEnds(more, y) {
      NotBackAt(more, y);
      assert more - {y} == parent;
    }
  }

  /** Of two reeds that answer each other the way up goes on for ever. */
  lemma {:induction false} RoundGoesOn(a: string, b: string, n: nat)
    ensures GoesOnFor(map[a := b][b := a], a, n) && GoesOnFor(map[a := b][b := a], b, n)
  {
    if n > 0 { RoundGoesOn(a, b, n - 1); }
  }
}
