/** The drain of one peer's queue, with nothing enqueued meanwhile. */
module Drain {
  import opened Options
  import opened PeerQueue

  datatype Build = NoSender | Gone | BuildFailed | Payload
  datatype Reply = CallFailed | Status(code: int)

  /** What building, calling and the two writes will answer for each event. */
  datatype World = World(
    build: Key -> Build,
    call: Key -> Reply,
    deleteFails: Key -> bool,
    refreshFails: Key -> bool)

  /** A trace of what a drain did. */
  datatype Effect = Called(key: Key) | UndoRefused(key: Key) | Deleted(key: Key) | AfterSettled(key: Key)

  predicate Retry(r: Reply) {
    r.CallFailed? || r.code >= 500 || r.code == 429
  }

  predicate Refusal(r: Reply) {
    !Retry(r) && r.code >= 400
  }

  /** Whether the drain takes the event off the queue. */
  predicate Settles(w: World, key: Key) {
    && !w.deleteFails(key)
    && w.build(key) != BuildFailed
    && (w.build(key).Payload? ==> !Retry(w.call(key)))
  }

  /** Whether it then goes on to the next event. */
  predicate GoesOn(w: World, key: Key) {
    Settles(w, key) && (w.build(key).Payload? ==> !w.refreshFails(key))
  }

  /** What it does about one event. Only follows mind a refusal or settling. */
  function EffectsOf(w: World, key: Key): seq<Effect> {
    (if w.build(key).Payload? then [Called(key)] else [])
    + (if w.build(key).Payload? && Refusal(w.call(key)) && key.kind.FollowEvent? then [UndoRefused(key)] else [])
    + (if Settles(w, key) then [Deleted(key)] else [])
    + (if Settles(w, key) && w.build(key).Payload? && key.kind.FollowEvent? then [AfterSettled(key)] else [])
  }

  /** How many of the events, taken in order, leave the queue. */
  function Taken(w: World, order: seq<Key>): (n: nat)
    ensures n <= |order|
  {
    if order == [] || !Settles(w, order[0]) then 0
    else if !GoesOn(w, order[0]) then 1
    else 1 + Taken(w, order[1..])
  }

  /** Everything done about the events, taken in order. */
  function Trace(w: World, order: seq<Key>): seq<Effect> {
    if order == [] then []
    else EffectsOf(w, order[0]) + (if GoesOn(w, order[0]) then Trace(w, order[1..]) else [])
  }

  predicate Claimable(mesh: Mesh, server: string) {
    Takes(mesh, server) && !mesh[server].down && !mesh[server].claimed
  }

  function SetOf(order: seq<Key>): set<Key> {
    set k | k in order
  }

  class Drainer {
    const queue: PeerEventQueue

    constructor (queue: PeerEventQueue)
      ensures this.queue == queue
    {
      this.queue := queue;
    }

    method ClaimPeerEvents(server: string) returns (claimed: bool)
      modifies queue`mesh
      ensures claimed <==> (server in old(queue.mesh) &&
                            var peer := old(queue.mesh)[server]; !peer.revoked && !peer.down && !peer.claimed)
      ensures queue.mesh == if claimed then old(queue.mesh)[server := old(queue.mesh)[server].(claimed := true)]
                            else old(queue.mesh)
    {
      claimed := Claimable(queue.mesh, server);
      if claimed { queue.mesh := queue.mesh[server := queue.mesh[server].(claimed := true)]; }
    }

    method ReleasePeerEvents(server: string)
      modifies queue`mesh
      ensures queue.mesh == if server in old(queue.mesh)
              then old(queue.mesh)[server := old(queue.mesh)[server].(claimed := false)]
                            else old(queue.mesh)
    {
      if server in queue.mesh { queue.mesh := queue.mesh[server := queue.mesh[server].(claimed := false)]; }
    }

    /** Sends server its queue, oldest first, until an event can't be settled. */
    method DrainPeerEventsWith(server: string, w: World) returns (trace: seq<Effect>)
      requires Valid(queue.Value())
      modifies queue
      ensures queue.mesh == old(queue.mesh) && queue.next == old(queue.next)
      ensures !Claimable(old(queue.mesh), server) ==> queue.rows == old(queue.rows) && trace == []
      ensures Claimable(old(queue.mesh), server) ==>
                var order := Order(Owed(old(queue.rows), server));
                queue.rows == LeftAfter(w, old(queue.rows), order) && trace == Trace(w, order)
    {
      trace := [];
      var claimed := ClaimPeerEvents(server);
      if !claimed { return; }
      RowsAfterIsSuffix(w, queue.rows, server);
      TraceOfIsTrace(w, queue.rows, server);
      trace := DrainClaimed(server, w);
      ReleasePeerEvents(server);
    }

    /** The loop, under the claim. */
    method DrainClaimed(server: string, w: World) returns (trace: seq<Effect>)
      requires Valid(queue.Value()) && Takes(queue.mesh, server) && !queue.mesh[server].down
      modifies queue`rows
      ensures queue.rows == RowsAfter(w, old(queue.rows), server)
      ensures trace == TraceOf(w, old(queue.rows), server)
    {
      trace := [];
      ghost var was := queue.rows;
      var more := true;
      while more
        invariant Valid(queue.Value())
        invariant Ahead(w, was, server, trace, queue.rows, more)
        decreases more, queue.rows.Keys
      {
        ghost var rows, done := queue.rows, trace;
        var effects;
        effects, more := DrainNext(server, w);
        trace := trace + effects;
        StepAhead(w, was, server, done, rows);
      }
    }

    /** One turn of the loop; more is whether to go on. */
    method DrainNext(server: string, w: World) returns (effects: seq<Effect>, more: bool)
      requires Valid(queue.Value()) && Takes(queue.mesh, server) && !queue.mesh[server].down
      modifies queue`rows
      ensures Valid(queue.Value()) && (more ==> queue.rows.Keys < old(queue.rows.Keys))
      ensures var rows := old(queue.rows);
              if Owed(rows, server).Keys == {} then !more && effects == [] && queue.rows == rows
              else var k := Oldest(Owed(rows, server));
                effects == EffectsOf(w, k) && more == GoesOn(w, k) &&
                queue.rows == if Settles(w, k) then rows - {k} else rows
    {
      var event := queue.NextPeerEvent(server);
      if event.None? { return [], false; }
      OneOldest(queue.Value(), server, event.value);
      effects, more := SendOne(event.value, w);
    }

    /** Builds, sends and settles one event; more is whether to go on. */
    method SendOne(key: Key, w: World) returns (effects: seq<Effect>, more: bool)
      requires key in queue.rows && Valid(queue.Value())
      modifies queue`rows
      ensures effects == EffectsOf(w, key) && more == GoesOn(w, key)
      ensures queue.rows == (if Settles(w, key) then old(queue.rows) - {key} else old(queue.rows))
              && Valid(queue.Value())
    {
      var id := queue.rows[key];
      WithoutIdIsWithoutKey(queue.rows, key);
      effects := [];
      var built := w.build(key);
      if built == NoSender || built == Gone {
        if w.deleteFails(key) { return effects, false; }
        queue.DeletePeerEvent(id);
        return [Deleted(key)], true;
      }
      if built == BuildFailed { return effects, false; }
      var reply := w.call(key);
      effects := [Called(key)];
      if reply.CallFailed? || reply.code >= 500 || reply.code == 429 { return effects, false; }
      if reply.code >= 400 {
        if key.kind.FollowEvent? { effects := effects + [UndoRefused(key)]; }
      }
      if w.deleteFails(key) { return effects, false; }
      queue.DeletePeerEvent(id);
      effects := effects + [Deleted(key)];
      if key.kind.FollowEvent? { effects := effects + [AfterSettled(key)]; }
      more := !w.refreshFails(key);
    }
  }

  /** Of the statuses, those below 400 and the refusals settle an event, and
      only a refusal of a follow is undone. */
  lemma StatusSettlesExactlyWhen(w: World, key: Key)
    requires w.build(key).Payload? && w.call(key).Status? && !w.deleteFails(key)
    ensures var code := w.call(key).code;
            && (Settles(w, key) <==> code < 500 && code != 429)
            && (UndoRefused(key) in EffectsOf(w, key) <==> key.kind.FollowEvent? && 400 <= code < 500 && code != 429)
  {
    hide Claimable;
    var code := w.call(key).code;
    var effects := EffectsOf(w, key);
    if key.kind.FollowEvent? && 400 <= code < 500 && code != 429 { assert effects[1] == UndoRefused(key); }
  }

  /** So a redirect settles an event nobody took. */
  lemma RedirectSettles(w: World, key: Key)
    requires w.build(key).Payload? && w.call(key) == Status(301) && !w.deleteFails(key) && !key.kind.FollowEvent?
    ensures Settles(w, key) && EffectsOf(w, key) == [Called(key), Deleted(key)]
  {}

  lemma OneOldest(q: Queue, server: string, key: Key)
    requires Valid(q) && IsOldest(Owed(q.rows, server), key)
    ensures Owed(q.rows, server).Keys != {} && Oldest(Owed(q.rows, server)) == key && key in q.rows
  {
    var owed := Owed(q.rows, server);
    assert IsOldest(owed, Oldest(owed));
    assert q.rows[key] == q.rows[Oldest(owed)];
  }

  lemma WithoutIdIsWithoutKey(rows: map<Key, nat>, key: Key)
    requires DistinctIds(rows) && key in rows
    ensures (map k | k in rows && rows[k] != rows[key] :: rows[k]) == rows - {key}
  {}

  /** The rows left once the events are taken one by one from the oldest. */
  ghost function RowsAfter(w: World, rows: map<Key, nat>, server: string): map<Key, nat>
    decreases rows.Keys
  {
    if Owed(rows, server).Keys == {} then rows
    else
      var k := Oldest(Owed(rows, server));
      if !Settles(w, k) then rows
      else if !GoesOn(w, k) then rows - {k}
      else RowsAfter(w, rows - {k}, server)
  }

  /** What is done about them meanwhile. */
  ghost function TraceOf(w: World, rows: map<Key, nat>, server: string): seq<Effect>
    decreases rows.Keys
  {
    if Owed(rows, server).Keys == {} then []
    else
      var k := Oldest(Owed(rows, server));
      EffectsOf(w, k) + (if GoesOn(w, k) then TraceOf(w, rows - {k}, server) else [])
  }

  /** What is left to do from rows, if anything, completes what was begun. */
  ghost predicate Ahead(
    w: World, was: map<Key, nat>, server: string, done: seq<Effect>, rows: map<Key, nat>, more: bool)
  {
    && RowsAfter(w, was, server) == (if more then RowsAfter(w, rows, server) else rows)
    && TraceOf(w, was, server) == done + (if more then TraceOf(w, rows, server) else [])
  }

  lemma StepAhead(w: World, was: map<Key, nat>, server: string, done: seq<Effect>, rows: map<Key, nat>)
    requires Ahead(w, was, server, done, rows, true)
    ensures Owed(rows, server).Keys == {} ==> Ahead(w, was, server, done + [], rows, false)
    ensures Owed(rows, server).Keys != {} ==>
              var k := Oldest(Owed(rows, server));
              Ahead(w, was, server, done + EffectsOf(w, k), if Settles(w, k) then rows - {k} else rows, GoesOn(w, k))
  {
    if Owed(rows, server).Keys != {} {
      var k := Oldest(Owed(rows, server));
      var rest := if GoesOn(w, k) then TraceOf(w, rows - {k}, server) else [];
      assert done + (EffectsOf(w, k) + rest) == (done + EffectsOf(w, k)) + rest;
    }
  }

  lemma OrderOfOwed(rows: map<Key, nat>, server: string)
    requires Owed(rows, server).Keys != {}
    ensures var k := Oldest(Owed(rows, server));
            Order(Owed(rows, server)) == [k] + Order(Owed(rows - {k}, server))
  {
    var k := Oldest(Owed(rows, server));
    assert Owed(rows - {k}, server) == Owed(rows, server) - {k};
  }

  lemma {:induction false} TraceOfIsTrace(w: World, rows: map<Key, nat>, server: string)
    ensures TraceOf(w, rows, server) == Trace(w, Order(Owed(rows, server)))
    decreases rows.Keys
  {
    if Owed(rows, server).Keys != {} {
      var k := Oldest(Owed(rows, server));
      OrderOfOwed(rows, server);
      assert Order(Owed(rows, server))[1..] == Order(Owed(rows - {k}, server));
      TraceOfIsTrace(w, rows - {k}, server);
    }
  }

  lemma TakenOfCons(w: World, k: Key, rest: seq<Key>)
    ensures Taken(w, [k] + rest) == if !Settles(w, k) then 0 else if !GoesOn(w, k) then 1 else 1 + Taken(w, rest)
  {
    assert ([k] + rest)[1..] == rest;
  }

  lemma MinusPrefix(rows: map<Key, nat>, k: Key, rest: seq<Key>, n: nat)
    requires n <= |rest|
    ensures rows - SetOf(([k] + rest)[..n + 1]) == rows - {k} - SetOf(rest[..n])
    ensures rows - SetOf(([k] + rest)[..1]) == rows - {k}
    ensures rows - SetOf(([k] + rest)[..0]) == rows
  {
    assert ([k] + rest)[..n + 1] == [k] + rest[..n];
    assert SetOf([k] + rest[..n]) == {k} + SetOf(rest[..n]);
    assert ([k] + rest)[..1] == [k] && SetOf([k]) == {k};
    assert SetOf(([k] + rest)[..0]) == {};
  }

  lemma {:induction false} RowsAfterIsSuffix(w: World, rows: map<Key, nat>, server: string)
    ensures RowsAfter(w, rows, server) == LeftAfter(w, rows, Order(Owed(rows, server)))
    decreases rows.Keys
  {
    if Owed(rows, server).Keys == {} {
      assert SetOf([]) == {};
    } else {
      var k := Oldest(Owed(rows, server));
      var rest := Order(Owed(rows - {k}, server));
      OrderOfOwed(rows, server);
      TakenOfCons(w, k, rest);
      MinusPrefix(rows, k, rest, Taken(w, rest));
      if GoesOn(w, k) { RowsAfterIsSuffix(w, rows - {k}, server); }
    }
  }

  /** The rows without the events taken from order. */
  ghost function LeftAfter(w: World, rows: map<Key, nat>, order: seq<Key>): map<Key, nat> {
    rows - SetOf(order[..Taken(w, order)])
  }

  /** The events taken are exactly those before the first that can't be settled,
      or up to one after which the claim couldn't be refreshed. */
  lemma {:induction false} TakenIsTheSettledPrefix(w: World, order: seq<Key>)
    ensures var n := Taken(w, order);
            && (forall i :: 0 <= i < n ==> Settles(w, order[i]))
            && (forall i :: 0 <= i < n - 1 ==> GoesOn(w, order[i]))
            && (n < |order| ==> !Settles(w, order[n]) || (n > 0 && !GoesOn(w, order[n - 1])))
  {
    if order != [] && GoesOn(w, order[0]) {
      TakenIsTheSettledPrefix(w, order[1..]);
    }
  }

  /** Whether the peer answered, and so as not to be asked again. */
  predicate Answered(r: Reply) {
    r.Status? && r.code < 500 && r.code != 429
  }

  /** Whether an event reached is deleted: it needs no call, or its call was answered. */
  predicate Deletes(w: World, key: Key) {
    var built := w.build(key);
    !w.deleteFails(key) && (built.NoSender? || built.Gone? || (built.Payload? && Answered(w.call(key))))
  }

  /** Whether the drain reaches the event: each one before was deleted, and the
      claim was refreshed after each that was sent. */
  predicate Reaches(w: World, order: seq<Key>, i: nat)
    requires i < |order|
  {
    forall j :: 0 <= j < i ==> Deletes(w, order[j]) && (w.build(order[j]).Payload? ==> !w.refreshFails(order[j]))
  }

  /** Which things are done about an event. */
  predicate DoneFor(w: World, key: Key, reached: bool, trace: seq<Effect>) {
    var sent := reached && w.build(key).Payload?;
    && (Called(key) in trace <==> sent)
    && (UndoRefused(key) in trace <==>
        sent && key.kind.FollowEvent? && Answered(w.call(key)) && w.call(key).code >= 400)
    && (Deleted(key) in trace <==> reached && Deletes(w, key))
    && (AfterSettled(key) in trace <==> sent && key.kind.FollowEvent? && Deletes(w, key))
  }

  function Turn(e: Effect): nat {
    match e
    case Called(_) => 0
    case UndoRefused(_) => 1
    case Deleted(_) => 2
    case AfterSettled(_) => 3
  }

  /** An event is called once, then undone, then deleted, and what follows its
      settling comes right after that. */
  ghost predicate InTurn(trace: seq<Effect>) {
    && (forall a, b :: 0 <= a < b < |trace| && trace[a].key == trace[b].key ==> Turn(trace[a]) < Turn(trace[b]))
    && (forall b :: 0 <= b < |trace| && trace[b].AfterSettled? ==> b > 0 && trace[b - 1] == Deleted(trace[b].key))
  }

  /** The effects about one event, written out. */
  lemma OneCases(w: World, key: Key)
    ensures EffectsOf(w, key) ==
            if !w.build(key).Payload? then (if Settles(w, key) then [Deleted(key)] else [])
            else if Refusal(w.call(key)) && key.kind.FollowEvent? then
              if Settles(w, key) then [Called(key), UndoRefused(key), Deleted(key), AfterSettled(key)]
              else [Called(key), UndoRefused(key)]
            else if !Settles(w, key) then [Called(key)]
            else if key.kind.FollowEvent? then [Called(key), Deleted(key), AfterSettled(key)]
            else [Called(key), Deleted(key)]
  {}

  lemma OneDone(w: World, key: Key)
    ensures DoneFor(w, key, true, EffectsOf(w, key))
    ensures forall e :: e in EffectsOf(w, key) ==> e.key == key
  {
    OneCases(w, key);
    assert Settles(w, key) <==> Deletes(w, key);
    assert Refusal(w.call(key)) <==> Answered(w.call(key)) && w.call(key).code >= 400;
    hide EffectsOf, Settles, Deletes, Refusal, Answered;
  }

  lemma OneInTurn(w: World, key: Key)
    ensures InTurn(EffectsOf(w, key))
  {
    OneCases(w, key);
    hide EffectsOf, Settles;
  }

  lemma ReachesFurther(w: World, order: seq<Key>, i: nat)
    requires 0 < i < |order|
    ensures Reaches(w, order, i) <==> GoesOn(w, order[0]) && Reaches(w, order[1..], i - 1)
  {
    var rest := order[1..];
    if GoesOn(w, order[0]) && Reaches(w, rest, i - 1) {
      forall j | 0 <= j < i
        ensures Deletes(w, order[j]) && (w.build(order[j]).Payload? ==> !w.refreshFails(order[j]))
      {
        assert j == 0 || order[j] == rest[j - 1];
      }
    }
    if Reaches(w, order, i) {
      forall j | 0 <= j < i - 1
        ensures Deletes(w, rest[j]) && (w.build(rest[j]).Payload? ==> !w.refreshFails(rest[j]))
      {
        assert rest[j] == order[j + 1];
      }
    }
  }

  lemma NothingAbout(w: World, key: Key, trace: seq<Effect>)
    requires forall e :: e in trace ==> e.key != key
    ensures DoneFor(w, key, false, trace)
  {}

  /** An event's own effects are all in one of two parts of a trace. */
  lemma DoneForConcat(w: World, key: Key, reached: bool, a: seq<Effect>, b: seq<Effect>)
    requires (DoneFor(w, key, reached, a) && (forall e :: e in b ==> e.key != key))
             || (DoneFor(w, key, reached, b) && (forall e :: e in a ==> e.key != key))
    ensures DoneFor(w, key, reached, a + b)
  {}

  lemma InTurnConcat(a: seq<Effect>, b: seq<Effect>)
    requires InTurn(a) && InTurn(b)
    requires forall e, f :: e in a && f in b ==> e.key != f.key
    ensures InTurn(a + b)
  {
    hide Turn;
    var ab := a + b;
    assert forall i, j :: 0 <= i < |a| <= j < |ab| ==> ab[i] in a && ab[j] in b;
    forall i, j | 0 <= i < j < |ab| && ab[i].key == ab[j].key ensures Turn(ab[i]) < Turn(ab[j]) {
      if i >= |a| { assert b[i - |a|] == ab[i] && b[j - |a|] == ab[j]; }
    }
    forall j | 0 <= j < |ab| && ab[j].AfterSettled? ensures j > 0 && ab[j - 1] == Deleted(ab[j].key) {
      if j >= |a| { assert b[j - |a|] == ab[j]; }
    }
  }

  /** A drain of a queue calls each event it reaches that there is something to
      send about, undoes the follows refused, deletes what was settled, and does
      what follows for the delivered follows and unfollows; each once and in that order. */
  lemma {:induction false} EachEffectOnce(w: World, order: seq<Key>)
    requires forall i, j :: 0 <= i < j < |order| ==> order[i] != order[j]
    ensures forall i :: 0 <= i < |order| ==> DoneFor(w, order[i], Reaches(w, order, i), Trace(w, order))
    ensures InTurn(Trace(w, order))
    ensures forall e :: e in Trace(w, order) ==> e.key in order
  {
    assert InTurn([]);
    hide Settles, GoesOn, Deletes, EffectsOf, DoneFor, Reaches, InTurn;
    if order != [] {
      var k, rest := order[0], order[1..];
      var first, later := EffectsOf(w, k), if GoesOn(w, k) then Trace(w, rest) else [];
      OneDone(w, k);
      OneInTurn(w, k);
      forall i, j | 0 <= i < j < |rest| ensures rest[i] != rest[j] {
        assert rest[i] == order[i + 1] && rest[j] == order[j + 1];
      }
      EachEffectOnce(w, rest);
      assert forall e :: e in later ==> e.key in rest;
      assert k !in rest;
      InTurnConcat(first, later);
      forall i | 0 <= i < |order| ensures DoneFor(w, order[i], Reaches(w, order, i), first + later) {
        DoneAt(w, order, i, first, later);
      }
    }
  }

  lemma DoneAt(w: World, order: seq<Key>, i: nat, first: seq<Effect>, later: seq<Effect>)
    requires i < |order| && order[0] !in order[1..]
    requires DoneFor(w, order[0], true, first) && forall e :: e in first ==> e.key == order[0]
    requires forall e :: e in later ==> e.key in order[1..]
    requires GoesOn(w, order[0]) ==>
               forall j :: 0 <= j < |order| - 1 ==> DoneFor(w, order[1..][j], Reaches(w, order[1..], j), later)
    requires !GoesOn(w, order[0]) ==> later == []
    ensures DoneFor(w, order[i], Reaches(w, order, i), first + later)
  {
    assert Reaches(w, order, 0);
    hide *;
    if i == 0 {
      DoneForConcat(w, order[0], true, first, later);
    } else {
      ReachesFurther(w, order, i);
      assert order[i] == order[1..][i - 1];
      if !GoesOn(w, order[0]) { NothingAbout(w, order[i], later); }
      DoneForConcat(w, order[i], Reaches(w, order, i), first, later);
    }
  }

  /** All that is done about one event comes before anything about a later one. */
  ghost predicate OneByOne(order: seq<Key>, trace: seq<Effect>) {
    forall a, b, i, j :: 0 <= a < b < |trace| && 0 <= i < |order| && 0 <= j < |order| ==>
                           trace[a].key == order[i] && trace[b].key == order[j] ==> i <= j
  }

  lemma {:induction false} EventsInOrder(w: World, order: seq<Key>)
    requires forall i, j :: 0 <= i < j < |order| ==> order[i] != order[j]
    ensures OneByOne(order, Trace(w, order))
  {
    if order != [] {
      var k, rest := order[0], order[1..];
      var first, later := EffectsOf(w, k), if GoesOn(w, k) then Trace(w, rest) else [];
      assert Trace(w, order) == first + later;
      assert forall e :: e in first ==> e.key == k by { OneDone(w, k); }
      forall i, j | 0 <= i < j < |rest| ensures rest[i] != rest[j] {
        assert rest[i] == order[i + 1] && rest[j] == order[j + 1];
      }
      EventsInOrder(w, rest);
      EachEffectOnce(w, rest);
      assert OneByOne(rest, later);
      hide *;
      OneByOneCons(order, first, later);
    }
  }

  lemma OneByOneCons(order: seq<Key>, first: seq<Effect>, later: seq<Effect>)
    requires order != [] && OneByOne(order[1..], later)
    requires forall i, j :: 0 <= i < j < |order| ==> order[i] != order[j]
    requires forall e :: e in first ==> e.key == order[0]
    requires forall e :: e in later ==> e.key in order[1..]
    ensures OneByOne(order, first + later)
  {
    var all, rest := first + later, order[1..];
    forall a, b, i, j | 0 <= a < b < |all| && 0 <= i < |order| && 0 <= j < |order|
                        && all[a].key == order[i] && all[b].key == order[j]
      ensures i <= j
    {
      if a < |first| {
        assert all[a] in first;
      } else {
        assert all[a] == later[a - |first|] && all[b] == later[b - |first|];
        assert later[a - |first|].key in rest && later[b - |first|].key in rest;
        assert i > 0 && j > 0 && rest[i - 1] == order[i] && rest[j - 1] == order[j];
      }
    }
  }

  function DeletedBy(e: Effect): seq<Key> {
    if e.Deleted? then [e.key] else []
  }

  /** The events deleted, in the order they were. */
  function DeletedIn(trace: seq<Effect>): seq<Key> {
    if trace == [] then [] else DeletedBy(trace[0]) + DeletedIn(trace[1..])
  }

  lemma {:induction false} DeletedInConcat(a: seq<Effect>, b: seq<Effect>)
    ensures DeletedIn(a + b) == DeletedIn(a) + DeletedIn(b)
  {
    if a == [] {
      assert a + b == b;
    } else {
      hide DeletedBy;
      assert (a + b)[0] == a[0] && (a + b)[1..] == a[1..] + b;
      DeletedInConcat(a[1..], b);
    }
  }

  lemma DeletedForOne(w: World, key: Key)
    ensures DeletedIn(EffectsOf(w, key)) == if Settles(w, key) then [key] else []
  {
    var call := if w.build(key).Payload? then [Called(key)] else [];
    var undo := if w.build(key).Payload? && Refusal(w.call(key)) && key.kind.FollowEvent?
                then [UndoRefused(key)] else [];
    var del := if Settles(w, key) then [Deleted(key)] else [];
    var after := if Settles(w, key) && w.build(key).Payload? && key.kind.FollowEvent? then [AfterSettled(key)] else [];
    DeletedInConcat(call + undo + del, after);
    DeletedInConcat(call + undo, del);
    DeletedInConcat(call, undo);
  }

  /** Each event taken is deleted once, in order, and no other is. */
  lemma {:induction false} DeletedOnceInOrder(w: World, order: seq<Key>)
    ensures DeletedIn(Trace(w, order)) == order[..Taken(w, order)]
  {
    if order != [] {
      DeletedForOne(w, order[0]);
      var rest := if GoesOn(w, order[0]) then Trace(w, order[1..]) else [];
      DeletedInConcat(EffectsOf(w, order[0]), rest);
      if GoesOn(w, order[0]) {
        DeletedOnceInOrder(w, order[1..]);
        assert order[..Taken(w, order)] == [order[0]] + order[1..][..Taken(w, order[1..])];
      } else if Settles(w, order[0]) {
        assert order[..1] == [order[0]];
      }
    }
  }

  /** Whether some event no later than id didn't build or wasn't taken. */
  ghost predicate StuckBy(w: World, owed: map<Key, nat>, id: nat) {
    exists j :: j in owed && owed[j] <= id && !Settles(w, j)
  }

  lemma NothingStuckBefore(w: World, owed: map<Key, nat>, order: seq<Key>, i: nat)
    requires order == Order(owed) && DistinctIds(owed) && i < Taken(w, order)
    ensures !StuckBy(w, owed, owed[order[i]])
  {
    OrderAscends(owed);
    TakenIsTheSettledPrefix(w, order);
    hide Order, Settles, GoesOn, DistinctIds;
    forall j | j in owed && owed[j] <= owed[order[i]] ensures Settles(w, j) {
      var m :| 0 <= m < |order| && order[m] == j;
    }
  }

  lemma StuckAfter(w: World, owed: map<Key, nat>, order: seq<Key>, i: nat)
    requires order == Order(owed) && DistinctIds(owed) && Taken(w, order) <= i < |order|
    requires forall k :: !w.refreshFails(k)
    ensures StuckBy(w, owed, owed[order[i]])
  {
    OrderAscends(owed);
    TakenIsTheSettledPrefix(w, order);
    var n := Taken(w, order);
    assert order[n] in owed;
    assert !Settles(w, order[n]) by {
      if n > 0 { assert Settles(w, order[n - 1]) && !w.refreshFails(order[n - 1]); }
    }
    hide Order, DistinctIds, Settles, GoesOn, Taken;
  }

  /** In an order by id, the events taken are those before the first stuck one. */
  lemma TakenBeforeTheStuck(w: World, owed: map<Key, nat>, order: seq<Key>, i: nat)
    requires order == Order(owed) && DistinctIds(owed) && i < |order|
    requires forall k :: !w.refreshFails(k)
    ensures i < Taken(w, order) <==> !StuckBy(w, owed, owed[order[i]])
  {
    hide *;
    if i < Taken(w, order) { NothingStuckBefore(w, owed, order, i); } else { StuckAfter(w, owed, order, i); }
  }

  /** After a drain whose writes work, the peer is owed exactly the id-ordered
      suffix that starts at the first event that didn't build or wasn't taken. */
  lemma DrainLeavesSuffix(w: World, rows: map<Key, nat>, server: string, key: Key)
    requires DistinctIds(rows) && key in rows && forall k :: !w.refreshFails(k)
    ensures var owed := Owed(rows, server);
            key in LeftAfter(w, rows, Order(owed)) <==> (key.server == server ==> StuckBy(w, owed, rows[key]))
  {
    var owed := Owed(rows, server);
    var order := Order(owed);
    assert DistinctIds(owed) by {
      forall a, b | a in owed && b in owed && owed[a] == owed[b] ensures a == b { assert rows[a] == rows[b]; }
    }
    if key.server == server {
      assert key in owed;
      var i :| 0 <= i < |order| && order[i] == key;
      TakenBeforeTheStuck(w, owed, order, i);
      InPrefix(owed, order, i, Taken(w, order));
    } else {
      assert key !in order;
    }
  }

  lemma InPrefix(owed: map<Key, nat>, order: seq<Key>, i: nat, n: nat)
    requires order == Order(owed) && DistinctIds(owed) && i < |order| && n <= |order|
    ensures order[i] in SetOf(order[..n]) <==> i < n
  {
    OrderAscends(owed);
    if i < n { assert order[..n][i] == order[i]; }
  }
}
