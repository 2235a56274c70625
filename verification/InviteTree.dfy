/** The invite tree: a user's inviter, the user, and everyone below them. */
module InviteTree {
  import opened Options
  import opened Forest

  datatype Node = Node(id: string, depth: nat)

  /** users in the order they signed up, and who invited each. */
  datatype Members = Members(order: seq<string>, inviter: Links)

  /** A user signs up once, after whoever invited them. */
  ghost predicate Valid(m: Members) {
    && Acyclic(m.inviter) && (forall u :: u in m.inviter ==> u in m.order)
    && forall i, j :: 0 <= i < j < |m.order| ==> m.order[i] != m.order[j]
  }

  predicate InvitedBy(m: Members, id: string, inviter: string) {
    id in m.inviter && m.inviter[id] == inviter
  }

  function Filter(m: Members, ids: seq<string>, inviter: string): (r: seq<string>)
    ensures forall c :: c in r <==> c in ids && InvitedBy(m, c, inviter)
    ensures |r| <= |ids|
  {
    if ids == [] then []
    else (if InvitedBy(m, ids[0], inviter) then [ids[0]] else []) + Filter(m, ids[1..], inviter)
  }

  /** Whom a user invited, in the order they signed up. */
  function Children(m: Members, id: string): seq<string> {
    Filter(m, m.order, id)
  }

  lemma {:induction false} FilterDistinct(m: Members, ids: seq<string>, inviter: string)
    requires forall i, j :: 0 <= i < j < |ids| ==> ids[i] != ids[j]
    ensures forall i, j :: 0 <= i < j < |Filter(m, ids, inviter)| ==>
            Filter(m, ids, inviter)[i] != Filter(m, ids, inviter)[j]
  {
    if ids != [] {
      FilterDistinct(m, ids[1..], inviter);
      assert forall c :: c in Filter(m, ids[1..], inviter) ==> c in ids[1..];
    }
  }

  lemma BelowShrinks(m: Members, c: string, id: string)
    requires Acyclic(m.inviter) && InvitedBy(m, c, id)
    ensures Below(m.inviter, c) < Below(m.inviter, id)
  {
    AboveStep(m.inviter, c);
    forall d | d in Below(m.inviter, c) ensures d in Below(m.inviter, id) { AboveTransitive(m.inviter, d, c, id); }
    assert c in Below(m.inviter, id) && c !in Below(m.inviter, c);
  }

  /** The thread under id: itself, then each of its children's threads. */
  function Walk(m: Members, id: string, depth: nat): seq<Node>
    requires Acyclic(m.inviter)
    decreases Below(m.inviter, id), |m.order| + 1
  {
    [Node(id, depth)] + WalkEach(m, id, Children(m, id), depth + 1)
  }

  function WalkEach(m: Members, id: string, children: seq<string>, depth: nat): seq<Node>
    requires Acyclic(m.inviter) && |children| <= |m.order| && forall c :: c in children ==> InvitedBy(m, c, id)
    decreases Below(m.inviter, id), |children|
  {
    if children == [] then []
    else
      BelowShrinks(m, children[0], id);
      Walk(m, children[0], depth) + WalkEach(m, id, children[1..], depth)
  }

  function IdsOf(nodes: seq<Node>): seq<string> {
    seq(|nodes|, i requires 0 <= i < |nodes| => nodes[i].id)
  }

  function DepthsOf(nodes: seq<Node>): seq<nat> {
    seq(|nodes|, i requires 0 <= i < |nodes| => nodes[i].depth)
  }

  // ---- what the walk visits ----

  /** id is under top, or is top. */
  ghost predicate Within(m: Members, id: string, top: string) {
    id == top || id in Below(m.inviter, top)
  }

  /** Below a user are the users they invited and all below those. */
  lemma {:induction false} BelowIsThroughChild(m: Members, id: string, top: string) returns (c: string)
    requires Acyclic(m.inviter) && id in Below(m.inviter, top)
    ensures InvitedBy(m, c, top) && Within(m, id, c)
    decreases Above(m.inviter, id)
  {
    AboveStep(m.inviter, id);
    var p := m.inviter[id];
    if p == top {
      c := id;
    } else {
      assert p in m.inviter by { assert top in Above(m.inviter, p); }
      c := BelowIsThroughChild(m, p, top);
    }
  }

  /** Two users someone invited have nobody below both. */
  lemma SiblingsApart(m: Members, a: string, b: string, top: string, id: string)
    requires Acyclic(m.inviter) && InvitedBy(m, a, top) && InvitedBy(m, b, top) && Within(m, id, a) && Within(m, id, b)
    ensures a == b
  {
    AboveStep(m.inviter, a);
    AboveStep(m.inviter, b);
    if a in Above(m.inviter, b) { AboveTransitive(m.inviter, a, top, top); }
    if b in Above(m.inviter, a) { AboveTransitive(m.inviter, b, top, top); }
    if id != a && id != b { AboveIsAChain(m.inviter, id, a, b); }
  }

  ghost predicate Visits(nodes: seq<Node>, id: string) {
    exists i :: 0 <= i < |nodes| && nodes[i].id == id
  }

  lemma VisitsConcat(a: seq<Node>, b: seq<Node>, id: string)
    ensures Visits(a + b, id) <==> Visits(a, id) || Visits(b, id)
  {
    if Visits(a, id) {
      var i :| 0 <= i < |a| && a[i].id == id;
      assert (a + b)[i].id == id;
    }
    if Visits(b, id) {
      var i :| 0 <= i < |b| && b[i].id == id;
      assert (a + b)[|a| + i].id == id;
    }
  }

  /** The walk visits its top and everyone below, and nobody else. */
  lemma {:induction false} WalkVisits(m: Members, top: string, depth: nat, id: string)
    requires Valid(m)
    ensures Visits(Walk(m, top, depth), id) <==> Within(m, id, top)
    decreases Below(m.inviter, top), |m.order| + 1
  {
    var rest := WalkEach(m, top, Children(m, top), depth + 1);
    VisitsConcat([Node(top, depth)], rest, id);
    EachVisits(m, top, Children(m, top), depth + 1, id);
    assert Visits([Node(top, depth)], id) <==> id == top by {
      if id == top { assert [Node(top, depth)][0].id == id; }
    }
    if id in Below(m.inviter, top) {
      var c := BelowIsThroughChild(m, id, top);
      assert c in Children(m, top);
    }
    if Visits(rest, id) {
      var c :| c in Children(m, top) && Within(m, id, c);
      BelowShrinks(m, c, top);
      AboveStep(m.inviter, c);
    }
  }

  lemma {:induction false} EachVisits(m: Members, top: string, children: seq<string>, depth: nat, id: string)
    requires Valid(m) && |children| <= |m.order| && forall c :: c in children ==> InvitedBy(m, c, top)
    ensures Visits(WalkEach(m, top, children, depth), id) <==> exists c :: c in children && Within(m, id, c)
    decreases Below(m.inviter, top), |children|
  {
    if children != [] {
      BelowShrinks(m, children[0], top);
      WalkVisits(m, children[0], depth, id);
      EachVisits(m, top, children[1..], depth, id);
      VisitsConcat(Walk(m, children[0], depth), WalkEach(m, top, children[1..], depth), id);
      assert children == [children[0]] + children[1..];
    }
  }

  ghost predicate Once(nodes: seq<Node>) {
    forall i, j :: 0 <= i < j < |nodes| ==> nodes[i].id != nodes[j].id
  }

  lemma OnceConcat(a: seq<Node>, b: seq<Node>)
    requires Once(a) && Once(b) && forall id :: !(Visits(a, id) && Visits(b, id))
    ensures Once(a + b)
  {
    forall i, j | 0 <= i < |a| && 0 <= j < |b| ensures a[i].id != b[j].id {
      assert Visits(a, a[i].id) && Visits(b, b[j].id);
    }
  }

  /** ... and each of them once. */
  lemma {:induction false} WalkOnce(m: Members, top: string, depth: nat)
    requires Valid(m)
    ensures Once(Walk(m, top, depth))
    decreases Below(m.inviter, top), |m.order| + 1
  {
    FilterDistinct(m, m.order, top);
    EachOnce(m, top, Children(m, top), depth + 1);
    var rest := WalkEach(m, top, Children(m, top), depth + 1);
    forall id ensures !(Visits([Node(top, depth)], id) && Visits(rest, id)) {
      EachVisits(m, top, Children(m, top), depth + 1, id);
      if Visits(rest, id) {
        var c :| c in Children(m, top) && Within(m, id, c);
        BelowShrinks(m, c, top);
        AboveStep(m.inviter, c);
      }
    }
    OnceConcat([Node(top, depth)], rest);
  }

  lemma {:induction false} EachOnce(m: Members, top: string, children: seq<string>, depth: nat)
    requires Valid(m) && |children| <= |m.order| && forall c :: c in children ==> InvitedBy(m, c, top)
    requires forall i, j :: 0 <= i < j < |children| ==> children[i] != children[j]
    ensures Once(WalkEach(m, top, children, depth))
    decreases Below(m.inviter, top), |children|
  {
    if children != [] {
      BelowShrinks(m, children[0], top);
      WalkOnce(m, children[0], depth);
      EachOnce(m, top, children[1..], depth);
      var first, rest := Walk(m, children[0], depth), WalkEach(m, top, children[1..], depth);
      forall id ensures !(Visits(first, id) && Visits(rest, id)) {
        WalkVisits(m, children[0], depth, id);
        EachVisits(m, top, children[1..], depth, id);
        if Visits(first, id) && Visits(rest, id) {
          var c :| c in children[1..] && Within(m, id, c);
          SiblingsApart(m, children[0], c, top, id);
        }
      }
      OnceConcat(first, rest);
    }
  }

  // ---- the order of the walk ----

  /** The i-th node starts a stretch that is just its own thread. */
  ghost predicate ThreadAt(m: Members, nodes: seq<Node>, i: nat)
    requires Acyclic(m.inviter) && i < |nodes|
  {
    exists k: nat :: i < k <= |nodes| && nodes[i..k] == Walk(m, nodes[i].id, nodes[i].depth)
  }

  lemma ThreadMoves(m: Members, before: seq<Node>, nodes: seq<Node>, after: seq<Node>, i: nat)
    requires Acyclic(m.inviter) && i < |nodes| && ThreadAt(m, nodes, i)
    ensures ThreadAt(m, before + nodes + after, |before| + i)
  {
    var k: nat :| i < k <= |nodes| && nodes[i..k] == Walk(m, nodes[i].id, nodes[i].depth);
    var all := before + nodes + after;
    assert all[|before| + i..|before| + k] == nodes[i..k];
  }

  /** Everyone's thread is one stretch of the walk. */
  lemma {:induction false} WalkInThreads(m: Members, top: string, depth: nat, i: nat)
    requires Valid(m) && i < |Walk(m, top, depth)|
    ensures ThreadAt(m, Walk(m, top, depth), i)
    decreases Below(m.inviter, top), |m.order| + 1
  {
    var all, rest := Walk(m, top, depth), WalkEach(m, top, Children(m, top), depth + 1);
    if i == 0 {
      assert all[0..|all|] == all;
    } else {
      EachInThreads(m, top, Children(m, top), depth + 1, i - 1);
      ThreadMoves(m, [Node(top, depth)], rest, [], i - 1);
      assert [Node(top, depth)] + rest + [] == all;
    }
  }

  lemma {:induction false} EachInThreads(m: Members, top: string, children: seq<string>, depth: nat, i: nat)
    requires Valid(m) && |children| <= |m.order| && forall c :: c in children ==> InvitedBy(m, c, top)
    requires i < |WalkEach(m, top, children, depth)|
    ensures ThreadAt(m, WalkEach(m, top, children, depth), i)
    decreases Below(m.inviter, top), |children|
  {
    BelowShrinks(m, children[0], top);
    var first, rest := Walk(m, children[0], depth), WalkEach(m, top, children[1..], depth);
    if i < |first| {
      WalkInThreads(m, children[0], depth, i);
      ThreadMoves(m, [], first, rest, i);
      assert [] + first + rest == first + rest;
    } else {
      EachInThreads(m, top, children[1..], depth, i - |first|);
      ThreadMoves(m, first, rest, [], i - |first|);
      assert first + rest + [] == first + rest;
    }
  }

  /** The i-th node is one below whoever invited it, who comes before it. */
  ghost predicate UnderInviter(m: Members, nodes: seq<Node>, i: nat)
    requires i < |nodes|
  {
    exists j :: 0 <= j < i && InvitedBy(m, nodes[i].id, nodes[j].id) && nodes[i].depth == nodes[j].depth + 1
  }

  lemma InviterMoves(m: Members, before: seq<Node>, nodes: seq<Node>, after: seq<Node>, i: nat)
    requires i < |nodes| && UnderInviter(m, nodes, i)
    ensures UnderInviter(m, before + nodes + after, |before| + i)
  {
    var j :| 0 <= j < i && InvitedBy(m, nodes[i].id, nodes[j].id) && nodes[i].depth == nodes[j].depth + 1;
    var all := before + nodes + after;
    assert all[|before| + j] == nodes[j] && all[|before| + i] == nodes[i];
  }

  lemma {:induction false} WalkDeepens(m: Members, top: string, depth: nat, i: nat)
    requires Valid(m) && 0 < i < |Walk(m, top, depth)|
    ensures UnderInviter(m, Walk(m, top, depth), i)
    decreases Below(m.inviter, top), |m.order| + 1
  {
    var all, rest := Walk(m, top, depth), WalkEach(m, top, Children(m, top), depth + 1);
    EachDeepens(m, top, Children(m, top), depth + 1, i - 1);
    if UnderInviter(m, rest, i - 1) {
      InviterMoves(m, [Node(top, depth)], rest, [], i - 1);
      assert [Node(top, depth)] + rest + [] == all;
    } else {
      assert all[i] == rest[i - 1] && all[0] == Node(top, depth);
    }
  }

  lemma {:induction false} EachDeepens(m: Members, top: string, children: seq<string>, depth: nat, i: nat)
    requires Valid(m) && |children| <= |m.order| && forall c :: c in children ==> InvitedBy(m, c, top)
    requires i < |WalkEach(m, top, children, depth)|
    ensures var nodes := WalkEach(m, top, children, depth);
            UnderInviter(m, nodes, i) || (InvitedBy(m, nodes[i].id, top) && nodes[i].depth == depth)
    decreases Below(m.inviter, top), |children|
  {
    BelowShrinks(m, children[0], top);
    var first, rest := Walk(m, children[0], depth), WalkEach(m, top, children[1..], depth);
    if i == 0 {
    } else if i < |first| {
      WalkDeepens(m, children[0], depth, i);
      InviterMoves(m, [], first, rest, i);
      assert [] + first + rest == first + rest;
    } else {
      EachDeepens(m, top, children[1..], depth, i - |first|);
      if UnderInviter(m, rest, i - |first|) {
        InviterMoves(m, first, rest, [], i - |first|);
        assert first + rest + [] == first + rest;
      }
    }
  }

  /** a signed up before b. */
  ghost predicate Earlier(m: Members, a: string, b: string) {
    exists i, j :: 0 <= i < j < |m.order| && m.order[i] == a && m.order[j] == b
  }

  lemma EarlierAt(m: Members, i: nat, j: nat)
    requires i < j < |m.order|
    ensures Earlier(m, m.order[i], m.order[j])
  {}

  lemma {:induction false} FilterInOrder(m: Members, n: nat, inviter: string, i: nat, j: nat)
    requires n <= |m.order| && i < j < |Filter(m, m.order[n..], inviter)|
    ensures Earlier(m, Filter(m, m.order[n..], inviter)[i], Filter(m, m.order[n..], inviter)[j])
    decreases |m.order| - n
  {
    hide Earlier;
    var ids := m.order[n..];
    assert ids[1..] == m.order[n + 1..];
    if InvitedBy(m, ids[0], inviter) {
      if i == 0 {
        var b := Filter(m, ids[1..], inviter)[j - 1];
        assert b in ids[1..];
        var k :| 0 <= k < |ids[1..]| && ids[1..][k] == b;
        EarlierAt(m, n, n + 1 + k);
      } else {
        FilterInOrder(m, n + 1, inviter, i - 1, j - 1);
      }
    } else {
      FilterInOrder(m, n + 1, inviter, i, j);
    }
  }

  ghost predicate InOrder(m: Members, ids: seq<string>) {
    forall i, j :: 0 <= i < j < |ids| ==> Earlier(m, ids[i], ids[j]) && ids[i] != ids[j]
  }

  lemma ChildrenInOrder(m: Members, id: string)
    requires Valid(m)
    ensures InOrder(m, Children(m, id))
  {
    FilterDistinct(m, m.order, id);
    assert m.order[0..] == m.order;
    forall i, j | 0 <= i < j < |Children(m, id)| ensures Earlier(m, Children(m, id)[i], Children(m, id)[j]) {
      FilterInOrder(m, 0, id, i, j);
    }
  }

  predicate Siblings(m: Members, a: string, b: string) {
    a in m.inviter && b in m.inviter && m.inviter[a] == m.inviter[b]
  }

  /** Of two users the same one invited, the walk has the earlier one first. */
  ghost predicate SiblingsOk(m: Members, nodes: seq<Node>) {
    forall i, j :: 0 <= i < j < |nodes| && Siblings(m, nodes[i].id, nodes[j].id) ==>
        Earlier(m, nodes[i].id, nodes[j].id)
  }

  /** Someone top invited is within one of top's other invitees only as them. */
  lemma ChildWithinChild(m: Members, a: string, c: string, top: string)
    requires Acyclic(m.inviter) && InvitedBy(m, a, top) && InvitedBy(m, c, top) && Within(m, a, c)
    ensures a == c
  {
    SiblingsApart(m, a, c, top, a);
  }

  /** Siblings in the threads of two children are those children. */
  lemma SiblingsAcross(m: Members, a: string, b: string, x: string, y: string, top: string)
    requires Acyclic(m.inviter) && InvitedBy(m, x, top) && InvitedBy(m, y, top) && x != y
    requires Within(m, a, x) && Within(m, b, y) && Siblings(m, a, b)
    ensures a == x && b == y
  {
    if a == x {
      ChildWithinChild(m, b, y, top);
    } else {
      var p := m.inviter[a];
      AboveStep(m.inviter, a);
      AboveStep(m.inviter, b);
      assert p == x || x in Above(m.inviter, p);
      assert Within(m, b, x);
      SiblingsApart(m, x, y, top, b);
    }
  }

  lemma {:induction false} WalkSiblings(m: Members, top: string, depth: nat)
    requires Valid(m)
    ensures SiblingsOk(m, Walk(m, top, depth))
    decreases Below(m.inviter, top), |m.order| + 1
  {
    ChildrenInOrder(m, top);
    EachSiblings(m, top, Children(m, top), depth + 1);
    var nodes := Walk(m, top, depth);
    var rest := WalkEach(m, top, Children(m, top), depth + 1);
    WalkOnce(m, top, depth);
    assert nodes[0].id == top && nodes[1..] == rest;
    forall j | 0 < j < |nodes| ensures !Siblings(m, top, nodes[j].id) {
      assert Visits(nodes, nodes[j].id);
      WalkVisits(m, top, depth, nodes[j].id);
      if Siblings(m, top, nodes[j].id) { ChildWithinChild(m, nodes[j].id, top, m.inviter[top]); }
    }
    hide Earlier;
    forall i, j | 0 <= i < j < |nodes| && Siblings(m, nodes[i].id, nodes[j].id)
        ensures Earlier(m, nodes[i].id, nodes[j].id) {
      assert i > 0 ==> nodes[i] == rest[i - 1] && nodes[j] == rest[j - 1];
    }
  }

  /** Of siblings in a child's thread and in a later child's, the former is
      earlier. */
  lemma SiblingAhead(m: Members, top: string, children: seq<string>, depth: nat, a: Node, b: Node)
    requires Valid(m) && 0 < |children| <= |m.order| && (forall c :: c in children ==> InvitedBy(m, c, top))
             && InOrder(m, children)
    requires Acyclic(m.inviter) && a in Walk(m, children[0], depth) && b in WalkEach(m, top, children[1..], depth)
    requires Siblings(m, a.id, b.id)
    ensures Earlier(m, a.id, b.id)
  {
    var first, rest := Walk(m, children[0], depth), WalkEach(m, top, children[1..], depth);
    assert Visits(first, a.id) && Visits(rest, b.id);
    WalkVisits(m, children[0], depth, a.id);
    EachVisits(m, top, children[1..], depth, b.id);
    hide Walk, WalkEach, Earlier, Within;
    var c :| c in children[1..] && Within(m, b.id, c);
    assert children[0] != c && Earlier(m, children[0], c);
    SiblingsAcross(m, a.id, b.id, children[0], c, top);
  }

  lemma {:induction false} EachSiblings(m: Members, top: string, children: seq<string>, depth: nat)
    requires Valid(m) && |children| <= |m.order| && (forall c :: c in children ==> InvitedBy(m, c, top))
             && InOrder(m, children)
    ensures SiblingsOk(m, WalkEach(m, top, children, depth))
    decreases Below(m.inviter, top), |children|
  {
    if children != [] {
      BelowShrinks(m, children[0], top);
      WalkSiblings(m, children[0], depth);
      EachSiblings(m, top, children[1..], depth);
      var first, rest := Walk(m, children[0], depth), WalkEach(m, top, children[1..], depth);
      assert WalkEach(m, top, children, depth) == first + rest;
      hide Walk, WalkEach, Earlier, Siblings, InvitedBy, InOrder;
      forall i, j | 0 <= i < |first| && 0 <= j < |rest| && Siblings(m, first[i].id, rest[j].id)
        ensures Earlier(m, first[i].id, rest[j].id)
      {
        SiblingAhead(m, top, children, depth, first[i], rest[j]);
      }
    }
  }

  lemma FirstOrNone(ids: seq<string>)
    ensures ids == [] || ids[0] in ids
  {}

  /** Signing up on an invite keeps the members a tree. */
  lemma SignUpKeepsTree(m: Members, id: string, inviter: string)
    requires Valid(m) && id !in m.order && id !in m.inviter.Values && id != inviter
    ensures Valid(Members(m.order + [id], m.inviter[id := inviter]))
    ensures Walk(Members(m.order + [id], m.inviter[id := inviter]), id, 1) == [Node(id, 1)]
  {
    AddLeaf(m.inviter, id, inviter);
    var more := Members(m.order + [id], m.inviter[id := inviter]);
    FirstOrNone(Children(more, id));
    forall c ensures c !in Children(more, id) {
      assert c in m.inviter ==> m.inviter[c] in m.inviter.Values;
    }
  }

  // ---- the walk as it is done ----

  lemma ColumnsOf(ids: seq<string>, depths: seq<nat>, a: seq<Node>, b: seq<Node>)
    ensures ids + IdsOf(a) + IdsOf(b) == ids + IdsOf(a + b)
            && depths + DepthsOf(a) + DepthsOf(b) == depths + DepthsOf(a + b)
  {
    assert IdsOf(a + b) == IdsOf(a) + IdsOf(b) && DepthsOf(a + b) == DepthsOf(a) + DepthsOf(b);
  }

  /** What is left of a thread after its first nodes and i children. */
  lemma ThreadGoesOn(m: Members, id: string, seen: seq<Node>, i: nat, depth: nat)
    requires Acyclic(m.inviter) && i < |Children(m, id)|
    ensures var children := Children(m, id);
            && InvitedBy(m, children[i], id) && Below(m.inviter, children[i]) < Below(m.inviter, id)
            && seen + WalkEach(m, id, children[i..], depth)
               == seen + Walk(m, children[i], depth) + WalkEach(m, id, children[i + 1..], depth)
  {
    var children := Children(m, id);
    assert children[i] in children;
    BelowShrinks(m, children[i], id);
    assert children[i..][1..] == children[i + 1..];
    hide Walk, Below;
  }

  class TreeReader {
    const members: Members
    var nodes: seq<string>
    var depths: seq<nat>

    constructor (members: Members)
      ensures this.members == members && nodes == [] && depths == []
    {
      this.members := members;
      nodes, depths := [], [];
    }

    /** Appends id's thread. */
    method Visit(id: string, depth: nat)
      requires Acyclic(members.inviter)
      modifies this`nodes, this`depths
      ensures nodes == old(nodes) + IdsOf(Walk(members, id, depth))
      ensures depths == old(depths) + DepthsOf(Walk(members, id, depth))
      decreases Below(members.inviter, id), |members.order| + 1
    {
      ghost var was, wasDepths := nodes, depths;
      ghost var whole := Walk(members, id, depth);
      nodes, depths := nodes + [id], depths + [depth];
      var children := Children(members, id);
      ghost var seen := [Node(id, depth)];
      assert children[0..] == children;
      assert IdsOf(seen) == [id] && DepthsOf(seen) == [depth];
      assert seen + WalkEach(members, id, children[0..], depth + 1) == whole;
      assert WalkEach(members, id, children[|children|..], depth + 1) == [];
      hide Walk, WalkEach, IdsOf, DepthsOf, Acyclic, Below, InvitedBy, Children;
      for i := 0 to |children|
        invariant seen + WalkEach(members, id, children[i..], depth + 1) == whole
        invariant nodes == was + IdsOf(seen) && depths == wasDepths + DepthsOf(seen)
      {
        ThreadGoesOn(members, id, seen, i, depth + 1);
        Visit(children[i], depth + 1);
        ColumnsOf(was, wasDepths, seen, Walk(members, children[i], depth + 1));
        seen := seen + Walk(members, children[i], depth + 1);
      }
      assert seen + [] == seen;
    }

    /** id's inviter, if they are a member, then id's thread; nothing for
        someone who isn't a member. */
    method GetInviteTree(id: string)
      requires Acyclic(members.inviter) && nodes == [] && depths == []
      modifies this`nodes, this`depths
      ensures var known := id in members.inviter && members.inviter[id] in members.order;
              var top := if known then [members.inviter[id]] else [];
              var tree := Walk(members, id, 1);
              if id !in members.order then nodes == [] && depths == []
              else nodes == top + IdsOf(tree) && depths == (if top == [] then [] else [0]) + DepthsOf(tree)
    {
      if id !in members.order { return; }
      if id in members.inviter && members.inviter[id] in members.order {
        nodes, depths := [members.inviter[id]], [0];
      }
      Visit(id, 1);
    }
  }
}
