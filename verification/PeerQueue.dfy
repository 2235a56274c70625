/** What each peer is owed: the rows of peer_event_queue and their writers. */
module PeerQueue {
  import opened Options

  datatype Kind =
    | NewReed | ReedRemoval | ThreadRemoval | AccountRemoval
    | BlockEvent | FollowEvent | KeyRevocation | ServerKey

  /** A row's unique columns; other is NULL but for a pair's other side. */
  datatype Key = Key(server: string, kind: Kind, subject: string, other: Option<string>)

  /** A peering, as server_mesh holds it. */
  datatype Peer = Peer(revoked: bool, down: bool, claimed: bool)
  type Mesh = map<string, Peer>

  /** The table, by its unique columns, and the next id its sequence gives. */
  datatype Queue = Queue(rows: map<Key, nat>, next: nat)

  const EMPTY_QUEUE := Queue(map[], 0)

  ghost predicate Valid(q: Queue) {
    && (forall k :: k in q.rows ==> q.rows[k] < q.next)
    && (forall j, k :: j in q.rows && k in q.rows && q.rows[j] == q.rows[k] ==> j == k)
  }

  predicate Takes(mesh: Mesh, server: string) {
    server in mesh && !mesh[server].revoked
  }

  /** The row for key is inserted, or moved to the back under a fresh id. */
  function ToTheBack(q: Queue, key: Key): Queue {
    Queue(q.rows[key := q.next], q.next + 1)
  }

  /** Owes key to its server alone, unless that is revoked or not a peer. */
  function EnqueueFor(q: Queue, mesh: Mesh, key: Key): Queue {
    if Takes(mesh, key.server) then ToTheBack(q, key) else q
  }

  /** Owes key, which keeps its place when it is already owed. */
  function EnqueueOnce(q: Queue, key: Key): (r: Queue)
    requires Valid(q)
    ensures Valid(r)
  {
    Queue(if key in q.rows then q.rows else q.rows[key := q.next], q.next + 1)
  }

  /** now is was with keys owed too, the rows there before as they were. */
  ghost predicate Extends(was: Queue, now: Queue, keys: set<Key>) {
    && Valid(now) && now.next >= was.next
    && now.rows.Keys == was.rows.Keys + keys
    && (forall k :: k in was.rows ==> k in now.rows && now.rows[k] == was.rows[k])
    && (forall k :: k in now.rows && k !in was.rows ==> now.rows[k] >= was.next)
  }

  lemma ExtendsByOne(was: Queue, now: Queue, keys: set<Key>, key: Key)
    requires Extends(was, now, keys)
    ensures Valid(now) && Extends(was, EnqueueOnce(now, key), keys + {key})
  {}

  /** The table without the row of that id. */
  function WithoutId(q: Queue, id: nat): Queue {
    q.(rows := map k | k in q.rows && q.rows[k] != id :: q.rows[k])
  }

  lemma EnqueueKeepsValid(q: Queue, mesh: Mesh, key: Key)
    requires Valid(q)
    ensures Valid(EnqueueFor(q, mesh, key))
  {}

  /** Settling an id drops the row that still has it and no other. */
  lemma SettleDropsOnlyThatId(q: Queue, key: Key, id: nat)
    requires Valid(q)
    ensures Valid(WithoutId(q, id))
    ensures key in WithoutId(q, id).rows <==> key in q.rows && q.rows[key] != id
  {}

  /** A drain that read a row before it was owed again can't settle it away. */
  lemma OwedAgainSurvivesSettling(q: Queue, mesh: Mesh, key: Key, id: nat)
    requires Valid(q) && Takes(mesh, key.server) && id < q.next
    ensures key in WithoutId(EnqueueFor(q, mesh, key), id).rows
  {}

  /** The rows owed to server. */
  function Owed(rows: map<Key, nat>, server: string): map<Key, nat> {
    map k | k in rows && k.server == server :: rows[k]
  }

  ghost predicate IsOldest(rows: map<Key, nat>, k: Key) {
    k in rows && forall j :: j in rows ==> rows[k] <= rows[j]
  }

  lemma {:induction false} SomeOldest(rows: map<Key, nat>)
    requires rows.Keys != {}
    ensures exists k :: IsOldest(rows, k)
    decreases rows.Keys
  {
    var k :| k in rows;
    var rest := rows - {k};
    assert forall j :: j in rows ==> j == k || (j in rest && rest[j] == rows[j]);
    if rest.Keys != {} {
      SomeOldest(rest);
      var j :| IsOldest(rest, j);
      assert IsOldest(rows, k) || IsOldest(rows, j);
    } else {
      assert IsOldest(rows, k);
    }
  }

  ghost function Oldest(rows: map<Key, nat>): (k: Key)
    requires rows.Keys != {}
    ensures IsOldest(rows, k)
  {
    SomeOldest(rows);
    var k :| IsOldest(rows, k);
    k
  }

  /** The rows as a drain takes them, lowest id first. */
  ghost function Order(rows: map<Key, nat>): (order: seq<Key>)
    ensures forall k :: k in order <==> k in rows
    decreases rows.Keys
  {
    if rows.Keys == {} then [] else [Oldest(rows)] + Order(rows - {Oldest(rows)})
  }

  ghost predicate DistinctIds(rows: map<Key, nat>) {
    forall a, b :: a in rows && b in rows && rows[a] == rows[b] ==> a == b
  }

  /** In that order ids only go up, so no row comes twice. */
  lemma {:induction false} OrderAscends(rows: map<Key, nat>)
    requires DistinctIds(rows)
    ensures forall i, j :: 0 <= i < j < |Order(rows)| ==> rows[Order(rows)[i]] < rows[Order(rows)[j]]
    decreases rows.Keys
  {
    if rows.Keys != {} {
      var k := Oldest(rows);
      var less := rows - {k};
      var rest := Order(less);
      FewerDistinctIds(rows, k);
      OrderAscends(less);
      forall j | 0 <= j < |rest| ensures rows[k] < rows[rest[j]] {
        assert rest[j] in less;
        assert rows[k] != rows[rest[j]];
      }
    }
  }

  lemma FewerDistinctIds(rows: map<Key, nat>, k: Key)
    requires DistinctIds(rows)
    ensures DistinctIds(rows - {k})
  {}

  /** The peers not revoked, down ones included. */
  function ActivePeers(mesh: Mesh): set<string> {
    set p | p in mesh && !mesh[p].revoked
  }

  /** The rows owing kind about subject to each of servers. */
  function KeysFor(servers: set<string>, kind: Kind, subject: string): set<Key> {
    set p | p in servers :: Key(p, kind, subject, None)
  }

  lemma KeysForOneMore(servers: set<string>, p: string, kind: Kind, subject: string)
    ensures KeysFor(servers + {p}, kind, subject) == KeysFor(servers, kind, subject) + {Key(p, kind, subject, None)}
  {}

  lemma OwedToEach(was: Queue, now: Queue, mesh: Mesh, kind: Kind, subject: string)
    requires Extends(was, now, KeysFor(ActivePeers(mesh), kind, subject))
    ensures forall p, k, s, o ::
              Key(p, k, s, o) in now.rows <==>
                Key(p, k, s, o) in was.rows
                || (p in mesh && !mesh[p].revoked && k == kind && s == subject && o == None)
    ensures forall k :: k in was.rows ==> k in now.rows && now.rows[k] == was.rows[k]
  {}

  class PeerEventQueue {
    var rows: map<Key, nat>
    var next: nat
    var mesh: Mesh

    ghost function Value(): Queue
      reads this
    {
      Queue(rows, next)
    }

    constructor ()
      ensures Value() == EMPTY_QUEUE && mesh == map[]
    {
      rows, next, mesh := map[], 0, map[];
    }

    method EnqueueKey(key: Key)
      requires Valid(Value())
      modifies this`rows, this`next
      ensures Value() == EnqueueOnce(old(Value()), key)
    {
      if key !in rows { rows := rows[key := next]; }
      next := next + 1;
    }

    /** Peers that are down are owed it too; rows that are there stay put. */
    method EnqueueForAll(kind: Kind, subject: string)
      requires Valid(Value())
      modifies this`rows, this`next
      ensures Extends(old(Value()), Value(), KeysFor(ActivePeers(mesh), kind, subject))
      ensures forall p, k, s, o ::
                Key(p, k, s, o) in rows <==>
                  Key(p, k, s, o) in old(rows)
                  || (p in mesh && !mesh[p].revoked && k == kind && s == subject && o == None)
      ensures forall k :: k in old(rows) ==> k in rows && rows[k] == old(rows)[k]
    {
      var peers := ActivePeers(mesh);
      ghost var was, all, done: set<string> := Value(), peers, {};
      assert KeysFor({}, kind, subject) == {};
      assert Extends(was, Value(), {});
      hide Extends, EnqueueOnce, KeysFor, ActivePeers;
      while peers != {}
        invariant peers !! done && peers + done == all
        invariant Extends(was, Value(), KeysFor(done, kind, subject))
        decreases peers
      {
        var p :| p in peers;
        var key := Key(p, kind, subject, None);
        ExtendsByOne(was, Value(), KeysFor(done, kind, subject), key);
        KeysForOneMore(done, p, kind, subject);
        EnqueueKey(key);
        peers, done := peers - {p}, done + {p};
      }
      assert done == all;
      OwedToEach(was, Value(), mesh, kind, subject);
    }

    /** Owes kind about a pair to one server, moving it to the back. */
    method EnqueueForPair(key: Key)
      modifies this`rows, this`next
      ensures Value() == EnqueueFor(old(Value()), mesh, key)
      ensures Value() == if key.server in mesh && !mesh[key.server].revoked
                         then Queue(old(rows)[key := old(next)], old(next) + 1) else old(Value())
      ensures old(Valid(Value())) ==> Valid(Value())
    {
      if Valid(Value()) { EnqueueKeepsValid(Value(), mesh, key); }
      if key.server in mesh && !mesh[key.server].revoked {
        rows := rows[key := next];
        next := next + 1;
      }
    }

    method DeletePeerEvent(id: nat)
      modifies this`rows
      ensures Value() == WithoutId(old(Value()), id)
      ensures old(Valid(Value())) ==> Valid(Value())
    {
      rows := map k | k in rows && rows[k] != id :: rows[k];
    }

    /** server's oldest event, unless it is down or revoked. */
    method NextPeerEvent(server: string) returns (event: Option<Key>)
      ensures event.None? <==> server !in mesh || mesh[server].revoked || mesh[server].down
                               || forall k :: k in rows ==> k.server != server
      ensures event.Some? ==> IsOldest(Owed(rows, server), event.value)
      ensures event.Some? ==> event.value in rows && event.value.server == server
                              && forall k :: k in rows && k.server == server ==> rows[event.value] <= rows[k]
    {
      if !Takes(mesh, server) || mesh[server].down { return None; }
      var owed := Owed(rows, server);
      assert forall k :: k in owed.Keys <==> k in rows && k.server == server;
      var left := owed.Keys;
      assert owed.Keys == {} || exists k :: k in owed.Keys;
      event := None;
      while left != {}
        invariant left <= owed.Keys
        invariant event.None? <==> left == owed.Keys
        invariant event.Some? ==> event.value in owed
        invariant event.Some? ==> forall j :: j in owed.Keys - left ==> owed[event.value] <= owed[j]
        decreases left
      {
        var k :| k in left;
        if event.None? || owed[k] < owed[event.value] { event := Some(k); }
        left := left - {k};
      }
    }
  }
}
