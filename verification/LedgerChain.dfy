/** Appending to the ledger under its lock, and reading it back in pages. */
module LedgerChain {
  import opened Options
  import opened LedgerPayload
  import Permissions

  type Signer = (string, Fields) -> string

  /** An entry to append: its id, link and signature are still to come. A writer
      that rotates signs with the key it makes the server's. */
  datatype Writer = Writer(draft: Entry, key: string, rotates: bool)

  /** Where the transaction under the lock is. */
  datatype Txn =
    | Free
    | Locked(w: Writer)
    | HasRead(w: Writer, prev: Option<nat>, prevSignature: string)
    | HasId(w: Writer, prev: Option<nat>, prevSignature: string, id: nat)

  /** The table's rows, in the order they were committed. */
  type Rows = seq<Entry>

  datatype System = System(rows: Rows, nextId: nat, signingKey: string, txn: Txn)

  datatype Step = Lock(w: Writer) | ReadLast | NextId | Insert(now: int) | Abort

  const SERVER_KEY := "server-key"

  /** Only a rotation's own entry is one. */
  ghost predicate Possible(s: System, step: Step) {
    match step
    case Lock(w) => s.txn.Free? && w.rotates == (w.draft.kind == SERVER_KEY)
    case ReadLast => s.txn.Locked?
    case NextId => s.txn.HasRead?
    case Insert(_) => s.txn.HasId?
    case Abort => true
  }

  predicate Follows(e: Entry, id: nat) {
    e.prev == Some(id)
  }

  /** No row follows the i-th. */
  ghost predicate IsLast(rows: Rows, i: nat) {
    i < |rows| && forall n :: 0 <= n < |rows| ==> !Follows(rows[n], rows[i].id)
  }

  /** The entry nothing follows. */
  ghost function Last(rows: Rows): Option<Entry> {
    if exists i: nat :: IsLast(rows, i) then
      var i: nat :| IsLast(rows, i);
      Some(rows[i])
    else None
  }

  function Signed(
    w: Writer, id: nat, prev: Option<nat>, prevSignature: string, now: int, server: string, sign: Signer): Entry
  {
    var e := w.draft.(
      id := id, prev := prev, targets := Permissions.SortStrings(w.draft.targets),
      signedAt := now, key := w.key, signature := "");
    e.(signature := sign(w.key, Payload(e, prevSignature, server)))
  }

  ghost function Next(s: System, step: Step, server: string, sign: Signer): System {
    match step
    case Lock(w) =>
      // A key retired meanwhile can't sign: errLedgerSignerRotated.
      if s.txn.Free? && (w.rotates || w.key == s.signingKey) then s.(txn := Locked(w)) else s
    case ReadLast =>
      if !s.txn.Locked? then s
      else s.(txn := match Last(s.rows)
                     case Some(e) => HasRead(s.txn.w, Some(e.id), e.signature)
                     case None => HasRead(s.txn.w, None, ""))
    case NextId =>
      if !s.txn.HasRead? then s
      else s.(txn := HasId(s.txn.w, s.txn.prev, s.txn.prevSignature, s.nextId), nextId := s.nextId + 1)
    case Insert(now) =>
      if !s.txn.HasId? then s
      else
        var HasId(w, prev, prevSignature, id) := s.txn;
        s.(rows := s.rows + [Signed(w, id, prev, prevSignature, now, server, sign)], signingKey := w.key, txn := Free)
    case Abort => s.(txn := Free)
  }

  ghost function Run(s: System, steps: seq<Step>, server: string, sign: Signer): System
    decreases |steps|
  {
    if steps == [] then s else Run(Next(s, steps[0], server, sign), steps[1..], server, sign)
  }

  ghost predicate PossibleRun(s: System, steps: seq<Step>, server: string, sign: Signer)
    decreases |steps|
  {
    steps == [] || (Possible(s, steps[0]) && PossibleRun(Next(s, steps[0], server, sign), steps[1..], server, sign))
  }

  function Empty(key: string): System {
    System([], 1, key, Free)
  }

  // ---- one chain ----

  function LinkTo(rows: Rows, i: nat): Option<nat>
    requires i <= |rows|
  {
    if i == 0 then None else Some(rows[i - 1].id)
  }

  /** The i-th row follows the one before it, under a higher id. */
  ghost predicate ChainAt(rows: Rows, i: nat)
    requires i < |rows|
  {
    rows[i].prev == LinkTo(rows, i) && (i > 0 ==> rows[i - 1].id < rows[i].id)
  }

  ghost predicate IsChain(rows: Rows) {
    forall i: nat :: i < |rows| ==> ChainAt(rows, i)
  }

  lemma {:induction false} Ascends(rows: Rows, i: nat, j: nat)
    requires IsChain(rows) && i <= j < |rows|
    ensures if i < j then rows[i].id < rows[j].id else rows[i].id == rows[j].id
    decreases j
  {
    if i < j {
      assert ChainAt(rows, j);
      Ascends(rows, i, j - 1);
    }
  }

  /** Who follows the i-th: the next one, and nobody else. */
  lemma FollowersOf(rows: Rows, i: nat, j: nat)
    requires IsChain(rows) && i < |rows| && j < |rows|
    ensures Follows(rows[j], rows[i].id) <==> j == i + 1
  {
    assert ChainAt(rows, j);
    if j > 0 {
      if i <= j - 1 { Ascends(rows, i, j - 1); } else { Ascends(rows, j - 1, i); }
    }
  }

  /** Just the end of a chain has no successor. */
  lemma LastIsEnd(rows: Rows)
    requires IsChain(rows)
    ensures Last(rows) == if rows == [] then None else Some(rows[|rows| - 1])
  {
    forall i: nat | i < |rows| ensures IsLast(rows, i) <==> i == |rows| - 1 {
      forall j: nat | j < |rows| ensures Follows(rows[j], rows[i].id) <==> j == i + 1 { FollowersOf(rows, i, j); }
      if i < |rows| - 1 { assert Follows(rows[i + 1], rows[i].id); }
    }
    hide IsLast, IsChain;
    if rows != [] { assert IsLast(rows, |rows| - 1); }
  }

  /** The transaction goes on from the end of the chain, with an id above it. */
  ghost predicate TxnOk(s: System) {
    && (s.txn.HasRead? || s.txn.HasId? ==>
          s.txn.prev == LinkTo(s.rows, |s.rows|) && s.txn.prevSignature == LastSignature(s.rows))
    && (s.txn.HasId? ==> s.txn.id < s.nextId && (s.rows != [] ==> s.rows[|s.rows| - 1].id < s.txn.id))
    && (!s.txn.Free? ==>
          s.txn.w.rotates == (s.txn.w.draft.kind == SERVER_KEY) && (s.txn.w.rotates || s.txn.w.key == s.signingKey))
  }

  function LastSignature(rows: Rows): string {
    if rows == [] then "" else rows[|rows| - 1].signature
  }

  /** The last entry is signed by the server's key, which only a rotation's
      entry changes. */
  ghost predicate KeysOk(s: System) {
    && (s.rows != [] ==> s.rows[|s.rows| - 1].key == s.signingKey)
    && forall i :: 0 < i < |s.rows| ==> s.rows[i].key == s.rows[i - 1].key || s.rows[i].kind == SERVER_KEY
  }

  ghost predicate SignedAt(rows: Rows, i: nat, server: string, sign: Signer)
    requires i < |rows|
  {
    rows[i].signature == sign(rows[i].key, Payload(rows[i].(signature := ""), SignatureBefore(rows, i), server))
  }

  ghost predicate SignedOk(rows: Rows, server: string, sign: Signer) {
    forall i: nat :: i < |rows| ==> SignedAt(rows, i, server, sign)
  }

  ghost predicate Inv(s: System, server: string, sign: Signer) {
    && IsChain(s.rows) && (s.rows != [] ==> s.rows[|s.rows| - 1].id < s.nextId)
    && TxnOk(s) && KeysOk(s) && SignedOk(s.rows, server, sign)
  }

  lemma ChainExtends(rows: Rows, e: Entry)
    requires IsChain(rows) && e.prev == LinkTo(rows, |rows|) && (rows != [] ==> rows[|rows| - 1].id < e.id)
    ensures IsChain(rows + [e])
  {
    var more := rows + [e];
    forall i: nat | i < |more| ensures ChainAt(more, i) {
      assert LinkTo(more, i) == LinkTo(rows, i);
      if i < |rows| { assert ChainAt(rows, i) && more[i] == rows[i]; }
    }
  }

  lemma SignedExtends(rows: Rows, e: Entry, server: string, sign: Signer)
    requires SignedOk(rows, server, sign)
    requires e.signature == sign(e.key, Payload(e.(signature := ""), LastSignature(rows), server))
    ensures SignedOk(rows + [e], server, sign)
  {
    hide Payload;
    var more := rows + [e];
    forall i: nat | i < |more| ensures SignedAt(more, i, server, sign) {
      assert SignatureBefore(more, i) == if i == |rows| then LastSignature(rows) else SignatureBefore(rows, i);
      if i < |rows| { assert SignedAt(rows, i, server, sign) && more[i] == rows[i]; }
    }
  }

  lemma SignedKeeps(w: Writer, id: nat, prev: Option<nat>, prevSignature: string, now: int, server: string,
      sign: Signer)
    ensures var e := Signed(w, id, prev, prevSignature, now, server, sign);
            && e.prev == prev && e.id == id && e.key == w.key && e.kind == w.draft.kind
            && e.signature == sign(e.key, Payload(e.(signature := ""), prevSignature, server))
  {
    hide Payload, Permissions.SortStrings;
  }

  /** What an entry says once a writer's draft was signed at a time. */
  ghost predicate Says(e: Entry, w: Writer, now: int) {
    && e.kind == w.draft.kind && e.user == w.draft.user && e.requester == w.draft.requester
    && e.requestedAt == w.draft.requestedAt && e.message == w.draft.message && e.content == w.draft.content
    && Permissions.WeaklySorted(e.targets) && multiset(e.targets) == multiset(w.draft.targets)
    && e.signedAt == now && e.key == w.key
  }

  /** An insert appends one entry, which says what its writer's draft does, with
      the targets sorted, under the id it took. */
  lemma InsertSays(s: System, now: int, server: string, sign: Signer)
    requires s.txn.HasId?
    ensures var after := Next(s, Insert(now), server, sign).rows;
            && |after| == |s.rows| + 1 && after[..|s.rows|] == s.rows
            && after[|s.rows|].id == s.txn.id && Says(after[|s.rows|], s.txn.w, now)
  {
    Permissions.SortSorts(s.txn.w.draft.targets);
    Permissions.SortReorders(s.txn.w.draft.targets);
    hide Payload, Permissions.SortStrings, Permissions.WeaklySorted;
  }

  /** A transaction under the lock appends its entry exactly when its key is the
      server's or it rotates to it; one whose key is retired changes nothing. */
  lemma AppendsExactlyWhen(s: System, w: Writer, now: int, server: string, sign: Signer)
    requires s.txn.Free? && Inv(s, server, sign)
    ensures var after := Run(s, [Lock(w), ReadLast, NextId, Insert(now)], server, sign);
            if w.rotates || w.key == s.signingKey then
              && |after.rows| == |s.rows| + 1 && after.rows[..|s.rows|] == s.rows
              && after.signingKey == w.key && after.txn.Free?
              && var e := after.rows[|s.rows|];
                 && Says(e, w, now) && e.prev == LinkTo(s.rows, |s.rows|)
                 && e.id == s.nextId && after.nextId == s.nextId + 1
            else after == s
  {
    LastIsEnd(s.rows);
    var locked := Next(s, Lock(w), server, sign);
    var read := Next(locked, ReadLast, server, sign);
    var hasId := Next(read, NextId, server, sign);
    if hasId.txn.HasId? { InsertSays(hasId, now, server, sign); }
    if w.rotates || w.key == s.signingKey {
      assert hasId.txn.HasId? && hasId.txn.w == w && hasId.rows == s.rows && hasId.txn.id == s.nextId;
      assert hasId.txn.prev == LinkTo(s.rows, |s.rows|);
    } else {
      assert Next(hasId, Insert(now), server, sign) == s;
    }
    hide Inv, Last, Says, Signed;
    FourSteps(s, Lock(w), ReadLast, NextId, Insert(now), server, sign);
    SignedLink(hasId, now, server, sign);
  }

  lemma SignedLink(s: System, now: int, server: string, sign: Signer)
    ensures s.txn.HasId? ==>
              var after := Next(s, Insert(now), server, sign).rows;
              after != [] && after[|after| - 1].prev == s.txn.prev
  {
    hide Payload, Permissions.SortStrings;
  }

  lemma FourSteps(s: System, a: Step, b: Step, c: Step, d: Step, server: string, sign: Signer)
    ensures Run(s, [a, b, c, d], server, sign)
            == Next(Next(Next(Next(s, a, server, sign), b, server, sign), c, server, sign), d, server, sign)
  {
    hide Next;
    assert [a, b, c, d][1..] == [b, c, d] && [b, c, d][1..] == [c, d] && [c, d][1..] == [d] && [d][1..] == [];
    var first := Next(s, a, server, sign);
    var second := Next(first, b, server, sign);
    var third := Next(second, c, server, sign);
    assert Run(third, [d], server, sign) == Run(Next(third, d, server, sign), [], server, sign);
    assert Run(second, [c, d], server, sign) == Run(third, [d], server, sign);
    assert Run(first, [b, c, d], server, sign) == Run(second, [c, d], server, sign);
  }

  datatype Append = Append(w: Writer, now: int)

  /** What was appended by steps, by them alone: every insert appends the draft
      its lock was taken for. */
  function Appends(steps: seq<Step>, holder: Option<Writer>): seq<Append> {
    if steps == [] then []
    else
      match steps[0]
      case Lock(w) => Appends(steps[1..], Some(w))
      case Insert(now) =>
        (if holder.Some? then [Append(holder.value, now)] else []) + Appends(steps[1..], None)
      case _ => Appends(steps[1..], holder)
  }

  /** The rows from the i-th on say what was appended. */
  ghost predicate SaysFrom(rows: Rows, i: nat, appends: seq<Append>) {
    && |rows| == i + |appends|
    && forall j :: 0 <= j < |appends| ==> Says(rows[i + j], appends[j].w, appends[j].now)
  }

  lemma {:induction false} RunSays(s: System, steps: seq<Step>, holder: Option<Writer>, server: string, sign: Signer)
    requires PossibleRun(s, steps, server, sign) && (s.txn.Free? || holder == Some(s.txn.w))
    ensures SaysFrom(Run(s, steps, server, sign).rows, |s.rows|, Appends(steps, holder))
    decreases |steps|
  {
    hide Says;
    if steps != [] {
      var next := Next(s, steps[0], server, sign);
      var step, rest := steps[0], steps[1..];
      if step.Insert? { InsertSays(s, step.now, server, sign); }
      hide Signed, Last;
      RunSays(next, rest, if step.Lock? then Some(step.w) else if step.Insert? then None else holder, server, sign);
      RunOnlyAppends(next, rest, server, sign);
      assert step.Insert? ==> next.rows[|s.rows|] == Run(s, steps, server, sign).rows[|s.rows|];
    }
  }

  /** The rows are, in order, the drafts of exactly the transactions that
      inserted, each as it was locked for and signed when it inserted. */
  lemma LedgerSaysDrafts(key: string, steps: seq<Step>, server: string, sign: Signer)
    requires PossibleRun(Empty(key), steps, server, sign)
    ensures var rows, appends := Run(Empty(key), steps, server, sign).rows, Appends(steps, None);
            |rows| == |appends| && forall i :: 0 <= i < |rows| ==> Says(rows[i], appends[i].w, appends[i].now)
  {
    RunSays(Empty(key), steps, None, server, sign);
  }

  lemma InsertKeepsInv(s: System, now: int, server: string, sign: Signer)
    requires Inv(s, server, sign) && s.txn.HasId?
    ensures Inv(Next(s, Insert(now), server, sign), server, sign)
  {
    var e := Signed(s.txn.w, s.txn.id, s.txn.prev, s.txn.prevSignature, now, server, sign);
    SignedKeeps(s.txn.w, s.txn.id, s.txn.prev, s.txn.prevSignature, now, server, sign);
    ChainExtends(s.rows, e);
    SignedExtends(s.rows, e, server, sign);
    KeysExtend(s, e);
    assert Next(s, Insert(now), server, sign) == s.(rows := s.rows + [e], signingKey := e.key, txn := Free);
    hide Signed, IsChain, SignedOk, KeysOk, Next;
  }

  lemma KeysExtend(s: System, e: Entry)
    requires KeysOk(s) && (e.kind == SERVER_KEY || e.key == s.signingKey)
    ensures KeysOk(s.(rows := s.rows + [e], signingKey := e.key, txn := Free))
  {}

  lemma StepKeepsInv(s: System, step: Step, server: string, sign: Signer)
    requires Inv(s, server, sign) && Possible(s, step)
    ensures Inv(Next(s, step, server, sign), server, sign)
  {
    if step.Insert? { InsertKeepsInv(s, step.now, server, sign); }
    else {
      LastIsEnd(s.rows);
      hide IsChain, SignedOk, Last;
      SameRows(s, Next(s, step, server, sign));
    }
  }

  lemma SameRows(s: System, after: System)
    requires KeysOk(s) && after.rows == s.rows && after.signingKey == s.signingKey
    ensures KeysOk(after)
  {}

  lemma {:induction false} RunKeepsInv(s: System, steps: seq<Step>, server: string, sign: Signer)
    requires Inv(s, server, sign) && PossibleRun(s, steps, server, sign)
    ensures Inv(Run(s, steps, server, sign), server, sign)
    decreases |steps|
  {
    hide Inv, Next, Possible;
    if steps != [] {
      StepKeepsInv(s, steps[0], server, sign);
      RunKeepsInv(Next(s, steps[0], server, sign), steps[1..], server, sign);
    }
  }

  ghost predicate Reachable(s: System, server: string, sign: Signer) {
    exists key, steps :: PossibleRun(Empty(key), steps, server, sign) && s == Run(Empty(key), steps, server, sign)
  }

  lemma ReachableInv(s: System, server: string, sign: Signer)
    requires Reachable(s, server, sign)
    ensures Inv(s, server, sign)
  {
    var key, steps :| PossibleRun(Empty(key), steps, server, sign) && s == Run(Empty(key), steps, server, sign);
    RunKeepsInv(Empty(key), steps, server, sign);
  }

  /** Whatever writers did in turn or gave up, the entries are one chain: one
      that follows none, at most one after each, ids ascending. */
  lemma LedgerIsOneChain(s: System, server: string, sign: Signer)
    requires Reachable(s, server, sign)
    ensures s.rows != [] ==> s.rows[0].prev.None?
    ensures forall i, j :: 0 <= i < |s.rows| && 0 <= j < |s.rows| && s.rows[i].prev == s.rows[j].prev ==> i == j
    ensures forall i :: 0 < i < |s.rows| ==> s.rows[i].prev == Some(s.rows[i - 1].id) && s.rows[i - 1].id < s.rows[i].id
  {
    hide Reachable;
    ReachableInv(s, server, sign);
    hide TxnOk, KeysOk, SignedOk;
    ChainLinksOnce(s.rows);
    forall i: nat | i < |s.rows|
        ensures s.rows[i].prev == LinkTo(s.rows, i) && (i > 0 ==> s.rows[i - 1].id < s.rows[i].id) {
      assert ChainAt(s.rows, i);
    }
  }

  lemma ChainLinksOnce(rows: Rows)
    requires IsChain(rows)
    ensures forall i, j :: 0 <= i < |rows| && 0 <= j < |rows| && rows[i].prev == rows[j].prev ==> i == j
  {
    forall i, j | 0 <= i < j < |rows| ensures rows[i].prev != rows[j].prev {
      assert ChainAt(rows, i) && ChainAt(rows, j);
      if i > 0 { Ascends(rows, i - 1, j - 1); }
    }
  }

  /** A key signs on until a rotation's entry hands over to the next. */
  lemma KeysChangeAtRotations(s: System, server: string, sign: Signer, i: nat)
    requires Reachable(s, server, sign) && 0 < i < |s.rows| && s.rows[i].kind != SERVER_KEY
    ensures s.rows[i - 1].key == s.rows[i].key
  {
    hide Reachable;
    ReachableInv(s, server, sign);
  }

  /** The ledger is a chain of valid signatures. */
  lemma LedgerVerifies(s: System, server: string, sign: Signer, verify: Verifier)
    requires Reachable(s, server, sign) && forall k, p :: verify(k, sign(k, p), p)
    ensures ValidChain(s.rows, server, verify)
  {
    hide Reachable, Payload;
    ReachableInv(s, server, sign);
    hide TxnOk, KeysOk;
    forall i: nat | i < |s.rows| ensures LinkOk(s.rows, i, server, verify) {
      var e := s.rows[i];
      assert SignedAt(s.rows, i, server, sign) && ChainAt(s.rows, i);
      PayloadInjective(e, e.(signature := ""), SignatureBefore(s.rows, i), SignatureBefore(s.rows, i), server, server);
    }
  }

  // ---- reading ----

  /** The entry that follows id. */
  ghost function After(rows: Rows, id: nat): Option<Entry> {
    if exists i :: 0 <= i < |rows| && Follows(rows[i], id) then
      var i :| 0 <= i < |rows| && Follows(rows[i], id);
      Some(rows[i])
    else None
  }

  /** Up to limit entries that follow id, in chain order. */
  ghost function Tail(rows: Rows, id: nat, limit: nat): seq<Entry>
    decreases limit
  {
    if limit == 0 then []
    else match After(rows, id)
      case Some(e) => [e] + Tail(rows, e.id, limit - 1)
      case None => []
  }

  function Min(a: nat, b: nat): nat {
    if a < b then a else b
  }

  lemma AfterInChain(rows: Rows, i: nat)
    requires IsChain(rows) && i < |rows|
    ensures After(rows, rows[i].id) == if i + 1 < |rows| then Some(rows[i + 1]) else None
  {
    forall j: nat | j < |rows| ensures Follows(rows[j], rows[i].id) <==> j == i + 1 { FollowersOf(rows, i, j); }
    hide IsChain;
  }

  /** What follows an entry, up to limit, is the next stretch of the chain. */
  lemma {:induction false} TailIsNext(rows: Rows, i: nat, limit: nat)
    requires IsChain(rows) && i < |rows|
    ensures Tail(rows, rows[i].id, limit) == rows[i + 1..Min(i + 1 + limit, |rows|)]
    decreases limit
  {
    hide IsChain, After;
    AfterInChain(rows, i);
    if limit > 0 && i + 1 < |rows| {
      TailIsNext(rows, i + 1, limit - 1);
    }
  }

  /** The entry that starts the chain. */
  method GetLedgerHead(rows: Rows) returns (head: Option<Entry>)
    requires IsChain(rows)
    ensures head == if rows == [] then None else Some(rows[0])
  {
    head := None;
    for i := 0 to |rows|
      invariant head == if i == 0 then None else Some(rows[0])
    {
      assert ChainAt(rows, i);
      if rows[i].prev.None? { head := Some(rows[i]); }
    }
  }

  method FindAfter(rows: Rows, id: nat) returns (next: Option<Entry>)
    requires IsChain(rows)
    ensures next == After(rows, id)
  {
    next := None;
    for i := 0 to |rows|
      invariant next.None? ==> forall j :: 0 <= j < i ==> !Follows(rows[j], id)
      invariant next.Some? ==> next == After(rows, id)
    {
      if Follows(rows[i], id) {
        ChainLinksOnce(rows);
        assert forall j :: 0 <= j < |rows| && Follows(rows[j], id) ==> j == i;
        next := Some(rows[i]);
      }
    }
  }

  lemma TailUnfolds(rows: Rows, id: nat, limit: nat)
    requires limit > 0
    ensures Tail(rows, id, limit)
            == match After(rows, id)
               case Some(e) => [e] + Tail(rows, e.id, limit - 1)
               case None => []
  {}

  method GetLedgerTail(rows: Rows, afterId: nat, limit: nat) returns (entries: seq<Entry>)
    requires IsChain(rows)
    ensures entries == Tail(rows, afterId, limit)
  {
    hide IsChain, After;
    entries := [];
    var at, more := afterId, true;
    while |entries| < limit && more
      invariant |entries| <= limit
      invariant Tail(rows, afterId, limit) == entries + if more then Tail(rows, at, limit - |entries|) else []
      decreases limit - |entries|, more
    {
      var next := FindAfter(rows, at);
      TailUnfolds(rows, at, limit - |entries|);
      ghost var rest := Tail(rows, at, limit - |entries|);
      if next.Some? {
        assert entries + rest == entries + [next.value] + Tail(rows, next.value.id, limit - |entries| - 1);
      }
      hide Tail;
      if next.Some? {
        entries := entries + [next.value];
        at := next.value.id;
      } else {
        more := false;
      }
    }
  }

  const LEDGER_PAGE_SIZE := 100

  datatype Page = Page(head: Option<Entry>, tail: seq<Entry>) | EntryNotFound

  /** The first page, or the one after an entry. */
  method GetLedger(rows: Rows, after: Option<nat>) returns (page: Page)
    requires IsChain(rows)
    ensures after.None? ==>
            page == if rows == [] then Page(None, []) else Page(Some(rows[0]), Tail(rows, rows[0].id, LEDGER_PAGE_SIZE))
    ensures after.Some? ==>
              page == if exists i :: 0 <= i < |rows| && rows[i].id == after.value
                then Page(None, Tail(rows, after.value, LEDGER_PAGE_SIZE)) else EntryNotFound
  {
    if after.Some? {
      if !exists i :: 0 <= i < |rows| && rows[i].id == after.value { return EntryNotFound; }
      var tail := GetLedgerTail(rows, after.value, LEDGER_PAGE_SIZE);
      return Page(None, tail);
    }
    var head := GetLedgerHead(rows);
    if head.None? { return Page(None, []); }
    var tail := GetLedgerTail(rows, head.value.id, LEDGER_PAGE_SIZE);
    page := Page(head, tail);
  }

  /** A page read once some more steps were taken since the last one. */
  datatype Read = Read(between: seq<Step>, page: seq<Entry>)

  /** Pages got by repeating after with the last entry seen, to an empty one,
      with writers at work in between. */
  ghost predicate IsCrawl(s: System, last: Entry, crawl: seq<Read>, server: string, sign: Signer)
    decreases |crawl|
  {
    && crawl != [] && PossibleRun(s, crawl[0].between, server, sign)
    && var now := Run(s, crawl[0].between, server, sign);
       var page := crawl[0].page;
       && page == Tail(now.rows, last.id, LEDGER_PAGE_SIZE)
       && if page == [] then |crawl| == 1 else IsCrawl(now, page[|page| - 1], crawl[1..], server, sign)
  }

  /** The ledger when the last page was read. */
  ghost function AtLastRead(s: System, crawl: seq<Read>, server: string, sign: Signer): System
    decreases |crawl|
  {
    if crawl == [] then s else AtLastRead(Run(s, crawl[0].between, server, sign), crawl[1..], server, sign)
  }

  function Flatten(crawl: seq<Read>): seq<Entry> {
    if crawl == [] then [] else crawl[0].page + Flatten(crawl[1..])
  }

  /** Committed entries stay, where they are. */
  lemma {:induction false} RunOnlyAppends(s: System, steps: seq<Step>, server: string, sign: Signer)
    ensures s.rows <= Run(s, steps, server, sign).rows
    decreases |steps|
  {
    if steps != [] {
      StepOnlyAppends(s, steps[0], server, sign);
      hide Next;
      RunOnlyAppends(Next(s, steps[0], server, sign), steps[1..], server, sign);
    }
  }

  lemma StepOnlyAppends(s: System, step: Step, server: string, sign: Signer)
    ensures s.rows <= Next(s, step, server, sign).rows
  {
    hide Signed, Last;
  }

  /** The first page read is the next stretch of what the ledger is by then. */
  lemma PageRead(s: System, i: nat, crawl: seq<Read>, server: string, sign: Signer)
    requires Inv(s, server, sign) && i < |s.rows| && IsCrawl(s, s.rows[i], crawl, server, sign)
    ensures crawl != []
    ensures var now := Run(s, crawl[0].between, server, sign);
            var end := i + 1 + |crawl[0].page|;
            && Inv(now, server, sign) && s.rows <= now.rows && end <= |now.rows|
            && crawl[0].page == now.rows[i + 1..end]
            && if crawl[0].page == [] then |now.rows| == i + 1 && crawl[1..] == []
               else IsCrawl(now, now.rows[end - 1], crawl[1..], server, sign)
  {
    var now := Run(s, crawl[0].between, server, sign);
    RunOnlyAppends(s, crawl[0].between, server, sign);
    RunKeepsInv(s, crawl[0].between, server, sign);
    InvIsChain(now, server, sign);
    hide Inv, IsChain, Tail, Run, PossibleRun;
    assert now.rows[i] == s.rows[i];
    TailIsNext(now.rows, i, LEDGER_PAGE_SIZE);
  }

  lemma InvIsChain(s: System, server: string, sign: Signer)
    requires Inv(s, server, sign)
    ensures IsChain(s.rows)
  {}

  lemma PageThenRest(was: Rows, page: seq<Entry>, rest: seq<Entry>, now: Rows, rows: Rows, i: nat)
    requires was <= now <= rows && i + 1 + |page| <= |now| && page == now[i + 1..i + 1 + |page|]
    requires rest == rows[i + 1 + |page|..]
    ensures page + rest == rows[i + 1..] && was <= rows
  {
    assert page == rows[i + 1..i + 1 + |page|];
  }

  lemma CrawlUnfolds(s: System, crawl: seq<Read>, server: string, sign: Signer)
    requires crawl != []
    ensures var now := Run(s, crawl[0].between, server, sign);
            && AtLastRead(s, crawl, server, sign) == AtLastRead(now, crawl[1..], server, sign)
            && Flatten(crawl) == crawl[0].page + Flatten(crawl[1..])
            && (crawl[1..] == [] ==> Flatten(crawl[1..]) == [] && AtLastRead(now, crawl[1..], server, sign) == now)
  {
    hide Run;
  }

  /** The pages are what follows the i-th entry, up to the last page's reading. */
  ghost predicate ListsRest(s: System, i: nat, crawl: seq<Read>, server: string, sign: Signer) {
    var rows := AtLastRead(s, crawl, server, sign).rows;
    s.rows <= rows && i < |rows| && Flatten(crawl) == rows[i + 1..]
  }

  lemma PageAndRestList(s: System, i: nat, crawl: seq<Read>, server: string, sign: Signer)
    requires Inv(s, server, sign) && i < |s.rows| && IsCrawl(s, s.rows[i], crawl, server, sign)
    requires crawl != [] && crawl[0].page != [] ==>
               ListsRest(Run(s, crawl[0].between, server, sign), i + |crawl[0].page|, crawl[1..], server, sign)
    ensures ListsRest(s, i, crawl, server, sign)
  {
    PageRead(s, i, crawl, server, sign);
    CrawlUnfolds(s, crawl, server, sign);
    var now := Run(s, crawl[0].between, server, sign);
    var rows := AtLastRead(now, crawl[1..], server, sign).rows;
    hide Inv, IsCrawl, Run, AtLastRead, Flatten;
    PageThenRest(s.rows, crawl[0].page, Flatten(crawl[1..]), now.rows, rows, i);
  }

  /** The next page is asked for after the last entry of this one. */
  lemma NextRead(s: System, i: nat, crawl: seq<Read>, server: string, sign: Signer)
    requires Inv(s, server, sign) && i < |s.rows| && IsCrawl(s, s.rows[i], crawl, server, sign) && crawl[0].page != []
    ensures var now, last := Run(s, crawl[0].between, server, sign), i + |crawl[0].page|;
            Inv(now, server, sign) && last < |now.rows| && IsCrawl(now, now.rows[last], crawl[1..], server, sign)
  {
    PageRead(s, i, crawl, server, sign);
    hide *;
  }

  lemma {:induction false} CrawlGoesOn(s: System, i: nat, crawl: seq<Read>, server: string, sign: Signer)
    requires Inv(s, server, sign) && i < |s.rows| && IsCrawl(s, s.rows[i], crawl, server, sign)
    ensures ListsRest(s, i, crawl, server, sign)
    decreases |crawl|
  {
    hide *;
    if crawl != [] && crawl[0].page != [] {
      NextRead(s, i, crawl, server, sign);
      CrawlGoesOn(Run(s, crawl[0].between, server, sign), i + |crawl[0].page|, crawl[1..], server, sign);
    }
    PageAndRestList(s, i, crawl, server, sign);
  }

  /** The head and the pages after it list every entry there is when the last
      page is read, once and in order, whatever was appended between pages. */
  lemma PagesAreTheLedger(s: System, server: string, sign: Signer, crawl: seq<Read>)
    requires Reachable(s, server, sign) && s.rows != [] && IsCrawl(s, s.rows[0], crawl, server, sign)
    ensures [s.rows[0]] + Flatten(crawl) == AtLastRead(s, crawl, server, sign).rows
  {
    ReachableInv(s, server, sign);
    hide Inv, Reachable, IsCrawl, AtLastRead, Flatten, Run;
    CrawlGoesOn(s, 0, crawl, server, sign);
  }

  /** Once nobody appends, repeating after does come to an empty page. */
  lemma {:induction false} CrawlEnds(s: System, i: nat, server: string, sign: Signer)
    requires IsChain(s.rows) && i < |s.rows|
    ensures exists crawl :: IsCrawl(s, s.rows[i], crawl, server, sign)
    decreases |s.rows| - i
  {
    hide IsChain, Tail;
    TailIsNext(s.rows, i, LEDGER_PAGE_SIZE);
    var page := Tail(s.rows, s.rows[i].id, LEDGER_PAGE_SIZE);
    if page == [] {
      assert IsCrawl(s, s.rows[i], [Read([], page)], server, sign);
    } else {
      var last := Min(i + 1 + LEDGER_PAGE_SIZE, |s.rows|) - 1;
      CrawlEnds(s, last, server, sign);
      var rest :| IsCrawl(s, s.rows[last], rest, server, sign);
      assert ([Read([], page)] + rest)[1..] == rest;
      assert IsCrawl(s, s.rows[i], [Read([], page)] + rest, server, sign);
    }
  }
}
