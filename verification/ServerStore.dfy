/** The tables behind blocks and follows, and the transactions on them. */
module ServerStore {
  import opened Options
  import opened PeerQueue
  import Identifiers

  /** from blocks, or follows, to. */
  datatype Pair = Pair(from: string, to: string)

  /** A countersigned certificate: signedAt in whole seconds, and both signatures. */
  datatype BlockCert = BlockCert(at: int, signatures: string)
  datatype FollowCert = FollowCert(follow: bool, at: int, signatures: string)

  datatype Store = Store(
    self: string,
    mesh: Mesh,
    queue: Queue,
    blocks: map<Pair, BlockCert>,
    blockEvents: map<Pair, bool>,
    follows: map<Pair, FollowCert>,
    following: set<Pair>,
    followers: set<Pair>,
    followEvents: set<Pair>)

  function EmptyStore(self: string, mesh: Mesh): Store {
    Store(self, mesh, EMPTY_QUEUE, map[], map[], map[], {}, {}, {})
  }

  predicate Local(s: Store, id: string) {
    Identifiers.ServerOf(id) == Some(s.self)
  }

  predicate Foreign(s: Store, id: string) {
    Identifiers.ServerOf(id).Some? && !Local(s, id)
  }

  /** The row owing kind about p to the home server of p.to. */
  function RowFor(kind: Kind, p: Pair): Key {
    var server := match Identifiers.ServerOf(p.to) case Some(id) => id case None => "";
    Key(server, kind, p.from, Some(p.to))
  }

  function Held<V>(m: map<Pair, V>, p: Pair): Option<V> {
    if p in m then Some(m[p]) else None
  }

  // ---- blocks ----

  /** A local blocked user's client, or a foreign one's home server, comes to be
      owed the pair's state. */
  function OweBlockEvent(s: Store, p: Pair, block: bool): Store {
    if Foreign(s, p.to) then s.(queue := EnqueueFor(s.queue, s.mesh, RowFor(BlockEvent, p)))
    else s.(blockEvents := s.blockEvents[p := block])
  }

  /** A block ends the follow the other way. */
  function ApplyBlockEffects(s: Store, p: Pair): Store {
    ForgetFollow(s, Pair(p.to, p.from))
  }

  /** No certificate, edge or owed event is kept for the followed pair. */
  function ForgetFollow(s: Store, p: Pair): Store {
    s.(follows := s.follows - {p}, following := s.following - {p},
       followers := s.followers - {p}, followEvents := s.followEvents - {p})
  }

  datatype Inserted = Created | Already | Conflict

  function InsertBlock(s: Store, p: Pair, cert: BlockCert): (Store, Inserted) {
    if p in s.blocks then (s, if s.blocks[p] == cert then Already else Conflict)
    else (OweBlockEvent(ApplyBlockEffects(s.(blocks := s.blocks[p := cert]), p), p, true), Created)
  }

  function DeleteBlock(s: Store, p: Pair): (Store, bool) {
    if p !in s.blocks then (s, false)
    else (OweBlockEvent(s.(blocks := s.blocks - {p}), p, false), true)
  }

  /** A verified block from a peer: a newer one replaces what is stored. */
  function AcceptForeignBlock(s: Store, p: Pair, cert: BlockCert): Store {
    if p in s.blocks && cert.at <= s.blocks[p].at then s
    else InsertBlock(DeleteBlock(s, p).0, p, cert).0
  }

  /** Accepting leaves a block of the pair, and no other pair's changed. */
  lemma AcceptedBlocks(s: Store, p: Pair, cert: BlockCert)
    ensures AcceptForeignBlock(s, p, cert).blocks
            == if p in s.blocks && cert.at <= s.blocks[p].at then s.blocks else s.blocks[p := cert]
  {
    assert (s.blocks - {p})[p := cert] == s.blocks[p := cert];
  }

  /** What the pair is owed to is a local user's client, or a peer not revoked,
      under a fresh id; nothing else that is owed changes. */
  ghost predicate OwesOnly(s: Store, t: Store, p: Pair, block: bool) {
    match Identifiers.ServerOf(p.to)
    case Some(server) =>
      if server == s.self then t.queue == s.queue && t.blockEvents == s.blockEvents[p := block]
      else
        && t.blockEvents == s.blockEvents
        && t.queue == if server in s.mesh && !s.mesh[server].revoked
                      then Queue(s.queue.rows[Key(server, BlockEvent, p.from, Some(p.to)) := s.queue.next],
                                 s.queue.next + 1)
                      else s.queue
    case None => t.queue == s.queue && t.blockEvents == s.blockEvents[p := block]
  }

  /** A first block ends the blocked user's follow of the blocker, with its edges
      and its debt, and no other follow. */
  lemma BlockEndsTheFollow(s: Store, p: Pair, cert: BlockCert)
    requires p !in s.blocks
    ensures var (t, r) := InsertBlock(s, p, cert);
            var ended := Pair(p.to, p.from);
            && r == Created && t.blocks == s.blocks[p := cert] && t.self == s.self && t.mesh == s.mesh
            && KeepsNothing(t, ended) && SameOtherFollows(s, t, ended) && OwesOnly(s, t, p, true)
  {}

  /** Lifting a block brings no follow back: it is only owed. */
  lemma LiftOnlyOwes(s: Store, p: Pair)
    requires p in s.blocks
    ensures var (t, deleted) := DeleteBlock(s, p);
            && deleted && t.blocks == s.blocks - {p} && OwesOnly(s, t, p, false)
            && t == s.(blocks := t.blocks, queue := t.queue, blockEvents := t.blockEvents)
  {}

  /** A block is inserted exactly when there is none, and the same one again is
      told from another; neither of these changes anything. */
  lemma BlockAnswers(s: Store, p: Pair, cert: BlockCert)
    ensures InsertBlock(s, p, cert).1 == Created <==> p !in s.blocks
    ensures InsertBlock(s, p, cert).1 == Already <==> p in s.blocks && s.blocks[p] == cert
    ensures p in s.blocks ==> InsertBlock(s, p, cert).0 == s
    ensures p !in s.blocks ==> DeleteBlock(s, p) == (s, false)
  {}

  /** A peer's block, once accepted, ends the follow too. */
  lemma AcceptEndsTheFollow(s: Store, p: Pair, cert: BlockCert)
    ensures var t := AcceptForeignBlock(s, p, cert);
            if p in s.blocks && cert.at <= s.blocks[p].at then t == s
            else
              && t.blocks == s.blocks[p := cert]
              && KeepsNothing(t, Pair(p.to, p.from)) && SameOtherFollows(s, t, Pair(p.to, p.from))
  {
    AcceptedBlocks(s, p, cert);
    var lifted := DeleteBlock(s, p).0;
    if p in s.blocks { LiftOnlyOwes(s, p); }
    BlockEndsTheFollow(lifted, p, cert);
    hide InsertBlock, DeleteBlock, OwesOnly;
  }

  // ---- follows ----

  /** Nothing is held, shown or owed of a follow. */
  ghost predicate KeepsNothing(t: Store, p: Pair) {
    p !in t.follows && p !in t.following && p !in t.followers && p !in t.followEvents
  }

  ghost predicate SameOtherFollows(s: Store, t: Store, p: Pair) {
    forall q :: q != p ==>
      && Held(t.follows, q) == Held(s.follows, q)
      && (q in t.following <==> q in s.following) && (q in t.followers <==> q in s.followers)
      && (q in t.followEvents <==> q in s.followEvents)
  }

  /** The pair has an active follow here. */
  predicate Active(s: Store, p: Pair) {
    p in s.follows && s.follows[p].follow
  }

  predicate OwedToPeer(q: Queue, p: Pair) {
    exists k :: k in q.rows && k.kind.FollowEvent? && k.subject == p.from && k.other == Some(p.to)
  }

  function SetFollowEdges(s: Store, p: Pair, follow: bool): Store {
    s.(following := if !Local(s, p.from) then s.following else if follow then s.following + {p} else s.following - {p},
       followers := if !Local(s, p.to) then s.followers else if follow then s.followers + {p} else s.followers - {p})
  }

  function OweFollowCert(s: Store, p: Pair): Store {
    if Foreign(s, p.to) then s.(queue := EnqueueFor(s.queue, s.mesh, RowFor(FollowEvent, p)))
    else s.(followEvents := s.followEvents + {p})
  }

  /** The certificate goes if it is an unfollow with no debt left. */
  function DropSettledUnfollow(s: Store, p: Pair): Store {
    if p in s.follows && !s.follows[p].follow && p !in s.followEvents && !OwedToPeer(s.queue, p)
    then s.(follows := s.follows - {p})
    else s
  }

  predicate Newer(s: Store, p: Pair, cert: FollowCert) {
    p !in s.follows || cert.at > s.follows[p].at
  }

  function SaveFollowCert(s: Store, p: Pair, cert: FollowCert, owe: bool): (Store, bool) {
    if !Newer(s, p, cert) then (s, false)
    else
      var stored := SetFollowEdges(s.(follows := s.follows[p := cert]), p, cert.follow);
      (DropSettledUnfollow(if owe then OweFollowCert(stored, p) else stored, p), true)
  }

  /** The active follow of that very stamp goes, with its edges. */
  function UndoRefusedFollow(s: Store, p: Pair, at: int): Store {
    if !Active(s, p) || s.follows[p].at != at then s
    else
      var off := SetFollowEdges(s, p, false);
      off.(follows := off.follows - {p}, followEvents := off.followEvents - {p})
  }

  /** An ack counts only for the kind of certificate that is held. */
  function AckFollowEvent(s: Store, p: Pair, follow: bool): Store {
    DropSettledUnfollow(
      if p in s.follows && s.follows[p].follow == follow then s.(followEvents := s.followEvents - {p}) else s, p)
  }

  /** What else a store holds is as it was. */
  ghost predicate OnlyFollows(s: Store, t: Store, p: Pair) {
    && t.self == s.self && t.mesh == s.mesh && t.blocks == s.blocks && t.blockEvents == s.blockEvents
    && SameOtherFollows(s, t, p)
  }

  /** The pair's edges are follow for the sides of this server, as before otherwise. */
  ghost predicate EdgesSet(s: Store, t: Store, p: Pair, follow: bool) {
    && (p in t.following <==> if Identifiers.ServerOf(p.from) == Some(s.self) then follow else p in s.following)
    && (p in t.followers <==> if Identifiers.ServerOf(p.to) == Some(s.self) then follow else p in s.followers)
  }

  /** The pair's certificate, if it is an unfollow, is gone exactly when nobody is
      owed it any more. */
  ghost predicate HeldWhileOwed(t: Store, p: Pair, cert: FollowCert) {
    Held(t.follows, p)
    == if !cert.follow && p !in t.followEvents && !OwedToPeer(t.queue, p) then None else Some(cert)
  }

  lemma EdgesStore(s: Store, p: Pair, cert: FollowCert)
    ensures var stored := SetFollowEdges(s.(follows := s.follows[p := cert]), p, cert.follow);
            OnlyFollows(s, stored, p) && EdgesSet(s, stored, p, cert.follow) && Held(stored.follows, p) == Some(cert)
  {
    hide Identifiers.ServerOf;
  }

  lemma OweStores(s: Store, p: Pair)
    ensures var t := OweFollowCert(s, p);
            && OnlyFollows(s, t, p) && t.follows == s.follows
            && t.following == s.following && t.followers == s.followers
  {
    hide Identifiers.ServerOf, EnqueueFor, RowFor;
  }

  lemma DropStores(s: Store, p: Pair, cert: FollowCert)
    requires Held(s.follows, p) == Some(cert)
    ensures var t := DropSettledUnfollow(s, p);
            && OnlyFollows(s, t, p) && t.following == s.following && t.followers == s.followers
            && HeldWhileOwed(t, p, cert)
  {
    hide OwedToPeer;
  }

  /** A certificate is saved exactly when it is signed after the one held, and
      sets this server's edges. */
  lemma SaveStores(s: Store, p: Pair, cert: FollowCert, owe: bool)
    ensures var (t, applied) := SaveFollowCert(s, p, cert, owe);
            && (applied <==> (p in s.follows ==> cert.at > s.follows[p].at))
            && (!applied ==> t == s)
            && (applied ==> OnlyFollows(s, t, p) && EdgesSet(s, t, p, cert.follow) && HeldWhileOwed(t, p, cert))
  {
    var stored := SetFollowEdges(s.(follows := s.follows[p := cert]), p, cert.follow);
    var owed := if owe then OweFollowCert(stored, p) else stored;
    EdgesStore(s, p, cert);
    OweStores(stored, p);
    assert owed.follows == stored.follows;
    DropStores(owed, p, cert);
    hide Identifiers.ServerOf, OwedToPeer, SetFollowEdges, OweFollowCert, DropSettledUnfollow, HeldWhileOwed, Held;
  }

  /** It is then owed, if it is to be, to the followee's client here, or to their
      home server if that isn't revoked. */
  lemma SaveOwes(s: Store, p: Pair, cert: FollowCert, owe: bool)
    requires p in s.follows ==> cert.at > s.follows[p].at
    ensures var t := SaveFollowCert(s, p, cert, owe).0;
            match Identifiers.ServerOf(p.to)
            case Some(server) =>
              if owe && server != s.self then
                && t.followEvents == s.followEvents
                && t.queue == if server in s.mesh && !s.mesh[server].revoked
                              then Queue(s.queue.rows[Key(server, FollowEvent, p.from, Some(p.to)) := s.queue.next],
                                         s.queue.next + 1)
                              else s.queue
              else t.queue == s.queue && t.followEvents == s.followEvents + if owe then {p} else {}
            case None => t.queue == s.queue && t.followEvents == s.followEvents + if owe then {p} else {}
  {
    hide Identifiers.ServerOf, OwedToPeer;
  }

  /** A refused follow is undone exactly when it is still the active one held, of
      that very stamp. */
  lemma UndoForgets(s: Store, p: Pair, at: int)
    ensures var t := UndoRefusedFollow(s, p, at);
            if p in s.follows && s.follows[p].follow && s.follows[p].at == at
            then OnlyFollows(s, t, p) && EdgesSet(s, t, p, false) && t.queue == s.queue
                 && p !in t.follows && p !in t.followEvents
            else t == s
  {
    hide Identifiers.ServerOf;
  }

  /** An ack settles the client's debt exactly when it is for the kind held, and
      then an unfollow nobody is owed goes. */
  lemma AckSettles(s: Store, p: Pair, follow: bool)
    ensures var t := AckFollowEvent(s, p, follow);
            && OnlyFollows(s, t, p) && t.queue == s.queue
            && (p in t.following <==> p in s.following) && (p in t.followers <==> p in s.followers)
            && (p in t.followEvents <==>
                  p in s.followEvents && !(p in s.follows && s.follows[p].follow == follow))
            && (p !in s.follows ==> p !in t.follows)
            && (p in s.follows ==> HeldWhileOwed(t, p, s.follows[p]))
  {
    hide Identifiers.ServerOf, OwedToPeer;
  }

  // ---- the transactions ----

  class DataService {
    const self: string
    var mesh: Mesh
    var rows: map<Key, nat>
    var nextId: nat
    var blocks: map<Pair, BlockCert>
    var blockEvents: map<Pair, bool>
    var follows: map<Pair, FollowCert>
    var following: set<Pair>
    var followers: set<Pair>
    var followEvents: set<Pair>

    function Value(): Store
      reads this
    {
      Store(self, mesh, Queue(rows, nextId), blocks, blockEvents, follows, following, followers, followEvents)
    }

    constructor (self: string, mesh: Mesh)
      ensures Value() == EmptyStore(self, mesh)
    {
      this.self, this.mesh, rows, nextId := self, mesh, map[], 0;
      blocks, blockEvents, follows := map[], map[], map[];
      following, followers, followEvents := {}, {}, {};
    }

    method EnqueuePeerEventFor(key: Key)
      modifies this`rows, this`nextId
      ensures Queue(rows, nextId) == EnqueueFor(old(Queue(rows, nextId)), mesh, key)
    {
      if key.server in mesh && !mesh[key.server].revoked {
        rows := rows[key := nextId];
        nextId := nextId + 1;
      }
    }

    method OweBlock(p: Pair, block: bool)
      modifies this
      ensures Value() == OweBlockEvent(old(Value()), p, block)
    {
      match Identifiers.ServerOf(p.to) {
        case Some(server) =>
          if server != self {
            EnqueuePeerEventFor(Key(server, BlockEvent, p.from, Some(p.to)));
            return;
          }
        case None =>
      }
      blockEvents := blockEvents[p := block];
    }

    method InsertBlockTx(p: Pair, cert: BlockCert) returns (r: Inserted)
      modifies this
      ensures (Value(), r) == InsertBlock(old(Value()), p, cert)
    {
      if p in blocks {
        return if blocks[p] != cert then Conflict else Already;
      }
      blocks := blocks[p := cert];
      var unfollowed := Pair(p.to, p.from);
      follows := follows - {unfollowed};
      followEvents := followEvents - {unfollowed};
      following := following - {unfollowed};
      followers := followers - {unfollowed};
      OweBlock(p, true);
      r := Created;
    }

    method DeleteBlockTx(p: Pair) returns (deleted: bool)
      modifies this
      ensures (Value(), deleted) == DeleteBlock(old(Value()), p)
    {
      if p !in blocks { return false; }
      blocks := blocks - {p};
      OweBlock(p, false);
      deleted := true;
    }

    method AcceptBlock(p: Pair, cert: BlockCert)
      modifies this
      ensures Value() == AcceptForeignBlock(old(Value()), p, cert)
    {
      var stored := Held(blocks, p);
      if stored.Some? && !(cert.at > stored.value.at) { return; }
      if stored.Some? { var _ := DeleteBlockTx(p); }
      var _ := InsertBlockTx(p, cert);
    }

    method SetEdges(p: Pair, follow: bool)
      modifies this`following, this`followers
      ensures Value() == SetFollowEdges(old(Value()), p, follow)
    {
      if Identifiers.ServerOf(p.from) == Some(self) {
        following := if follow then following + {p} else following - {p};
      }
      if Identifiers.ServerOf(p.to) == Some(self) {
        followers := if follow then followers + {p} else followers - {p};
      }
    }

    method DropSettled(p: Pair)
      modifies this`follows
      ensures Value() == DropSettledUnfollow(old(Value()), p)
    {
      if p in follows && !follows[p].follow && p !in followEvents
        && !exists k :: k in rows && k.kind.FollowEvent? && k.subject == p.from && k.other == Some(p.to)
      {
        follows := follows - {p};
      }
    }

    method SaveFollow(p: Pair, cert: FollowCert, owe: bool) returns (applied: bool)
      modifies this
      ensures (Value(), applied) == SaveFollowCert(old(Value()), p, cert, owe)
    {
      if p in follows && !(cert.at > follows[p].at) { return false; }
      follows := follows[p := cert];
      SetEdges(p, cert.follow);
      if owe {
        if Foreign(Value(), p.to) {
          EnqueuePeerEventFor(RowFor(FollowEvent, p));
        } else {
          followEvents := followEvents + {p};
        }
      }
      DropSettled(p);
      applied := true;
    }

    method UndoRefused(p: Pair, at: int)
      modifies this
      ensures Value() == UndoRefusedFollow(old(Value()), p, at)
    {
      if p !in follows || !follows[p].follow { return; }
      if follows[p].at != at { return; }
      SetEdges(p, false);
      follows := follows - {p};
      followEvents := followEvents - {p};
    }

    method AckFollow(p: Pair, follow: bool)
      modifies this
      ensures Value() == AckFollowEvent(old(Value()), p, follow)
    {
      if p in follows && follows[p].follow == follow {
        followEvents := followEvents - {p};
      }
      DropSettled(p);
    }
  }
}
