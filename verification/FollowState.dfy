/** One server's follow certificates, edges and owed events over whole runs of
    its transactions, for any pairs: local, and of or by a peer's users. */
module FollowState {
  import opened Options
  import opened PeerQueue
  import opened ServerStore
  import Identifiers

  /** gone are the ids of the rows a drain read and found no certificate for. */
  datatype Server = Server(store: Store, gone: set<nat>)

  datatype Step =
    | Save(p: Pair, cert: FollowCert, owe: bool)
    | UndoRefused(p: Pair, at: int)
    | Ack(p: Pair, follow: bool)
    | Blocked(block: Pair, blocked: BlockCert)
    | Lifted(block: Pair)
    | FoundGone(p: Pair)
    | SettleGone(id: nat)
    | SettleSent(p: Pair, id: nat)
    | OtherEvent(key: Key)
    | OtherSettled(id: nat)

  predicate IsFor(k: Key, p: Pair) {
    k.kind.FollowEvent? && k.subject == p.from && k.other == Some(p.to)
  }

  ghost predicate Possible(v: Server, step: Step) {
    var q := v.store.queue;
    match step
    case Save(p, cert, owe) => owe || cert.follow
    case FoundGone(p) => RowFor(FollowEvent, p) in q.rows && p !in v.store.follows
    case SettleGone(id) => id in v.gone
    case SettleSent(p, id) => id < q.next && forall k :: k in q.rows && q.rows[k] == id ==> IsFor(k, p)
    case OtherEvent(key) => !key.kind.FollowEvent?
    case OtherSettled(id) => id < q.next && forall k :: k in q.rows && q.rows[k] == id ==> !k.kind.FollowEvent?
    case _ => true
  }

  function Next(v: Server, step: Step): Server {
    var s := v.store;
    match step
    case Save(p, cert, owe) => v.(store := SaveFollowCert(s, p, cert, owe).0)
    case UndoRefused(p, at) => v.(store := UndoRefusedFollow(s, p, at))
    case Ack(p, follow) => v.(store := AckFollowEvent(s, p, follow))
    case Blocked(block, cert) => v.(store := InsertBlock(s, block, cert).0)
    case Lifted(block) => v.(store := DeleteBlock(s, block).0)
    case FoundGone(p) =>
      var key := RowFor(FollowEvent, p);
      if key in s.queue.rows then v.(gone := v.gone + {s.queue.rows[key]}) else v
    case SettleGone(id) => v.(store := s.(queue := WithoutId(s.queue, id)))
    case SettleSent(p, id) => v.(store := DropSettledUnfollow(s.(queue := WithoutId(s.queue, id)), p))
    case OtherEvent(key) => v.(store := s.(queue := EnqueueFor(s.queue, s.mesh, key)))
    case OtherSettled(id) => v.(store := s.(queue := WithoutId(s.queue, id)))
  }

  function Run(v: Server, steps: seq<Step>): Server
    decreases |steps|
  {
    if steps == [] then v else Run(Next(v, steps[0]), steps[1..])
  }

  ghost predicate PossibleRun(v: Server, steps: seq<Step>)
    decreases |steps|
  {
    steps == [] || (Possible(v, steps[0]) && PossibleRun(Next(v, steps[0]), steps[1..]))
  }

  // ---- edges ----

  /** A local follower's edge and a local followee's exist exactly when an
      active follow is held, and only a held certificate is owed to a client. */
  ghost predicate EdgesOf(s: Store, p: Pair) {
    && (p in s.following <==> Local(s, p.from) && Active(s, p))
    && (p in s.followers <==> Local(s, p.to) && Active(s, p))
    && (p in s.followEvents ==> p in s.follows)
  }

  lemma SetEdgesSetsBoth(s: Store, p: Pair, cert: FollowCert, q: Pair)
    requires EdgesOf(s, q)
    ensures EdgesOf(SetFollowEdges(s.(follows := s.follows[p := cert]), p, cert.follow), q)
  {
    hide Identifiers.ServerOf;
  }

  lemma OweKeepsEdges(s: Store, p: Pair, q: Pair)
    requires EdgesOf(s, q) && p in s.follows
    ensures EdgesOf(OweFollowCert(s, p), q)
  {
    hide Identifiers.ServerOf, RowFor, EnqueueFor;
  }

  lemma SaveKeepsEdges(s: Store, p: Pair, cert: FollowCert, owe: bool, q: Pair)
    requires EdgesOf(s, q)
    ensures EdgesOf(SaveFollowCert(s, p, cert, owe).0, q)
  {
    hide EdgesOf, OweFollowCert, DropSettledUnfollow;
    if Newer(s, p, cert) {
      SetEdgesSetsBoth(s, p, cert, q);
      var stored := SetFollowEdges(s.(follows := s.follows[p := cert]), p, cert.follow);
      OweKeepsEdges(stored, p, q);
      DropKeepsEdges(stored, p, q);
      DropKeepsEdges(OweFollowCert(stored, p), p, q);
    }
  }

  lemma UndoKeepsEdges(s: Store, p: Pair, at: int, q: Pair)
    requires EdgesOf(s, q)
    ensures EdgesOf(UndoRefusedFollow(s, p, at), q)
  {
    hide Identifiers.ServerOf;
  }

  lemma BlockKeepsEdges(s: Store, block: Pair, cert: BlockCert, q: Pair)
    requires EdgesOf(s, q)
    ensures EdgesOf(InsertBlock(s, block, cert).0, q)
  {
    if block !in s.blocks { BlockEndsTheFollow(s, block, cert); }
    assert InsertBlock(s, block, cert).0.self == s.self;
    hide Identifiers.ServerOf, InsertBlock;
    var t := InsertBlock(s, block, cert).0;
    assert Held(t.follows, q) == None <==> q !in t.follows;
    assert Held(s.follows, q) == None <==> q !in s.follows;
  }

  lemma LiftKeepsEdges(s: Store, block: Pair, q: Pair)
    requires EdgesOf(s, q)
    ensures EdgesOf(DeleteBlock(s, block).0, q)
  {
    if block in s.blocks { LiftOnlyOwes(s, block); }
    hide Identifiers.ServerOf, OweBlockEvent;
  }

  lemma AckKeepsEdges(s: Store, p: Pair, follow: bool, q: Pair)
    requires EdgesOf(s, q)
    ensures EdgesOf(AckFollowEvent(s, p, follow), q)
  {
    hide Identifiers.ServerOf, OwedToPeer;
  }

  lemma DropKeepsEdges(s: Store, p: Pair, q: Pair)
    requires EdgesOf(s, q)
    ensures EdgesOf(DropSettledUnfollow(s, p), q)
  {
    hide Identifiers.ServerOf, OwedToPeer;
  }

  lemma QueueKeepsEdges(s: Store, queue: Queue, q: Pair)
    requires EdgesOf(s, q)
    ensures EdgesOf(s.(queue := queue), q)
  {
    hide Identifiers.ServerOf;
  }

  lemma StepKeepsEdges(v: Server, step: Step, q: Pair)
    requires EdgesOf(v.store, q)
    ensures EdgesOf(Next(v, step).store, q)
  {
    hide EdgesOf, SaveFollowCert, UndoRefusedFollow, AckFollowEvent, ForgetFollow, DropSettledUnfollow, WithoutId,
         EnqueueFor, RowFor;
    var s := v.store;
    match step
    case Save(p, cert, owe) => SaveKeepsEdges(s, p, cert, owe, q);
    case UndoRefused(p, at) => UndoKeepsEdges(s, p, at, q);
    case Ack(p, follow) => AckKeepsEdges(s, p, follow, q);
    case Blocked(block, cert) => BlockKeepsEdges(s, block, cert, q);
    case Lifted(block) => LiftKeepsEdges(s, block, q);
    case FoundGone(p) =>
    case SettleGone(id) => QueueKeepsEdges(s, WithoutId(s.queue, id), q);
    case SettleSent(p, id) =>
      QueueKeepsEdges(s, WithoutId(s.queue, id), q);
      DropKeepsEdges(s.(queue := WithoutId(s.queue, id)), p, q);
    case OtherEvent(key) => QueueKeepsEdges(s, EnqueueFor(s.queue, s.mesh, key), q);
    case OtherSettled(id) => QueueKeepsEdges(s, WithoutId(s.queue, id), q);
  }

  // ---- the queue ----

  /** Rows have distinct ids the sequence gave, follow rows are their pair's
      to the followee's server, a peer, and only given ids were found gone. */
  ghost predicate Sound(v: Server) {
    && Valid(v.store.queue)
    && (forall id :: id in v.gone ==> id < v.store.queue.next)
    && (forall k :: k in v.store.queue.rows && k.kind.FollowEvent? ==> RowOk(v.store.self, v.store.mesh, k))
  }

  ghost predicate RowOk(self: string, mesh: Mesh, k: Key) {
    k.other.Some? && k == RowFor(FollowEvent, Pair(k.subject, k.other.value)) && Takes(mesh, k.server)
    && Identifiers.ServerOf(k.other.value) == Some(k.server) && k.server != self
  }

  /** What a step does to the queue and the ids found gone. */
  function QueueAfter(v: Server, step: Step): Queue {
    var s := v.store;
    match step
    case Save(p, cert, owe) =>
      if Newer(s, p, cert) && owe && Foreign(s, p.to)
      then EnqueueFor(s.queue, s.mesh, RowFor(FollowEvent, p))
      else s.queue
    case SettleGone(id) => WithoutId(s.queue, id)
    case SettleSent(p, id) => WithoutId(s.queue, id)
    case OtherEvent(key) => EnqueueFor(s.queue, s.mesh, key)
    case OtherSettled(id) => WithoutId(s.queue, id)
    case Blocked(block, cert) =>
      if block in s.blocks || !Foreign(s, block.to) then s.queue
      else EnqueueFor(s.queue, s.mesh, RowFor(BlockEvent, block))
    case Lifted(block) =>
      if block !in s.blocks || !Foreign(s, block.to) then s.queue
      else EnqueueFor(s.queue, s.mesh, RowFor(BlockEvent, block))
    case _ => s.queue
  }

  lemma SaveOnQueue(s: Store, p: Pair, cert: FollowCert, owe: bool)
    ensures var after := SaveFollowCert(s, p, cert, owe).0;
            && after.mesh == s.mesh && after.self == s.self
            && after.queue
               == if Newer(s, p, cert) && owe && Foreign(s, p.to)
                  then EnqueueFor(s.queue, s.mesh, RowFor(FollowEvent, p)) else s.queue
  {
    hide Identifiers.ServerOf, OwedToPeer, RowFor, EnqueueFor;
  }

  lemma StepOnQueue(v: Server, step: Step)
    ensures var after := Next(v, step);
            && after.store.queue == QueueAfter(v, step) && after.store.mesh == v.store.mesh
            && after.store.self == v.store.self
            && (!step.FoundGone? ==> after.gone == v.gone)
  {
    hide Identifiers.ServerOf, OwedToPeer, RowFor, EnqueueFor, WithoutId, SaveFollowCert, Newer;
    if step.Save? { SaveOnQueue(v.store, step.p, step.cert, step.owe); }
  }

  /** Whether p's event is the peer's to get. */
  lemma OwedIsTheRow(v: Server, p: Pair)
    requires Sound(v)
    ensures OwedToPeer(v.store.queue, p) <==> RowFor(FollowEvent, p) in v.store.queue.rows
  {
    hide Identifiers.ServerOf;
  }

  lemma EnqueueSound(v: Server, key: Key)
    requires Sound(v)
    requires key.kind.FollowEvent? ==>
               && key.server != v.store.self && key.other.Some?
               && Identifiers.ServerOf(key.other.value) == Some(key.server)
               && key == RowFor(FollowEvent, Pair(key.subject, key.other.value))
    ensures Sound(v.(store := v.store.(queue := EnqueueFor(v.store.queue, v.store.mesh, key))))
  {
    hide RowFor;
  }

  lemma SettleSound(v: Server, id: nat)
    requires Sound(v)
    ensures Sound(v.(store := v.store.(queue := WithoutId(v.store.queue, id))))
  {
    hide RowFor;
  }

  lemma ForeignRow(s: Store, p: Pair)
    requires Foreign(s, p.to)
    ensures var key := RowFor(FollowEvent, p); key.server != s.self && Identifiers.ServerOf(p.to) == Some(key.server)
  {
    hide Identifiers.ServerOf;
  }

  /** A block's row is never a follow's. */
  lemma BlockRowIsNone(p: Pair)
    ensures !RowFor(BlockEvent, p).kind.FollowEvent?
  {}

  lemma RowForIsItsOwn(p: Pair)
    ensures var key := RowFor(FollowEvent, p);
            key.other == Some(p.to) && key.subject == p.from && key.kind.FollowEvent?
  {}

  lemma StepStaysSound(v: Server, step: Step)
    requires Sound(v) && Possible(v, step)
    ensures Sound(Next(v, step))
  {
    hide Identifiers.ServerOf, RowFor, EnqueueFor, WithoutId, RowOk;
    StepOnQueue(v, step);
    match step
    case Save(p, cert, owe) =>
      if Foreign(v.store, p.to) {
        RowForIsItsOwn(p);
        ForeignRow(v.store, p);
        EnqueueSound(v, RowFor(FollowEvent, p));
      }
    case SettleGone(id) => SettleSound(v, id);
    case SettleSent(p, id) => SettleSound(v, id);
    case Blocked(block, _) => BlockRowIsNone(block); EnqueueSound(v, RowFor(BlockEvent, block));
    case Lifted(block) => BlockRowIsNone(block); EnqueueSound(v, RowFor(BlockEvent, block));
    case OtherEvent(key) => EnqueueSound(v, key);
    case OtherSettled(id) => SettleSound(v, id);
    case _ =>
  }

  // ---- unfollows are owed ----

  /** What the server holds about one pair: its certificate, whether its client
      is owed it, and its row's id, if it has one. */
  datatype View = View(cert: Option<FollowCert>, client: bool, row: Option<nat>)

  function ViewOf(s: Store, p: Pair): View {
    var key := RowFor(FollowEvent, p);
    View(Held(s.follows, p), p in s.followEvents, if key in s.queue.rows then Some(s.queue.rows[key]) else None)
  }

  function Drop(v: View): View {
    if v.cert.Some? && !v.cert.value.follow && !v.client && v.row.None? then v.(cert := None) else v
  }

  lemma DropOnView(v: Server, p: Pair, q: Pair)
    requires Sound(v)
    ensures ViewOf(DropSettledUnfollow(v.store, p), q)
            == if q == p then Drop(ViewOf(v.store, p)) else ViewOf(v.store, q)
  {
    hide Identifiers.ServerOf, RowFor, OwedToPeer;
    OwedIsTheRow(v, p);
  }

  /** Whom the certificates of a pair are owed to: the followee's client,
      their home server, or nobody when that is no peer. */
  datatype Followee = Client | Home | Nobody

  function FolloweeOf(s: Store, p: Pair): Followee {
    if !Foreign(s, p.to) then Client
    else if Takes(s.mesh, RowFor(FollowEvent, p).server) then Home else Nobody
  }

  /** A saved certificate is stored and owed; next is the queue's next id. */
  function Saved(v: View, cert: FollowCert, owe: bool, followee: Followee, next: nat): View {
    if v.cert.Some? && cert.at <= v.cert.value.at then v
    else Drop(v.(cert := Some(cert), client := v.client || (owe && followee.Client?),
                 row := if owe && followee.Home? then Some(next) else v.row))
  }

  lemma RowsArePairs(p: Pair, q: Pair)
    ensures RowFor(FollowEvent, p) == RowFor(FollowEvent, q) ==> p == q
  {}

  lemma OweOnView(s: Store, p: Pair, q: Pair)
    ensures var was := ViewOf(s, q);
            ViewOf(OweFollowCert(s, p), q)
            == if q != p then was
               else match FolloweeOf(s, p)
                 case Client => was.(client := true)
                 case Home => was.(row := Some(s.queue.next))
                 case Nobody => was
  {
    hide Identifiers.ServerOf, RowFor;
    RowsArePairs(p, q);
  }

  lemma SaveOnView(v: Server, p: Pair, cert: FollowCert, owe: bool, q: Pair)
    requires Sound(v)
    ensures ViewOf(SaveFollowCert(v.store, p, cert, owe).0, q)
            == if q == p then Saved(ViewOf(v.store, p), cert, owe, FolloweeOf(v.store, p), v.store.queue.next)
              else ViewOf(v.store, q)
  {
    hide Identifiers.ServerOf, RowFor, DropSettledUnfollow, Sound, OweFollowCert;
    if Newer(v.store, p, cert) {
      var stored := SetFollowEdges(v.store.(follows := v.store.follows[p := cert]), p, cert.follow);
      var owed := if owe then OweFollowCert(stored, p) else stored;
      SaveSound(v, p, cert, owe);
      OweOnView(stored, p, q);
      OweOnView(stored, p, p);
      DropOnView(v.(store := owed), p, q);
    }
  }

  lemma SaveSound(v: Server, p: Pair, cert: FollowCert, owe: bool)
    requires Sound(v)
    ensures var stored := SetFollowEdges(v.store.(follows := v.store.follows[p := cert]), p, cert.follow);
            Sound(v.(store := if owe then OweFollowCert(stored, p) else stored))
  {
    hide Identifiers.ServerOf, RowFor, RowOk, EnqueueFor;
    if Foreign(v.store, p.to) {
      RowForIsItsOwn(p);
      ForeignRow(v.store, p);
      EnqueueSound(v, RowFor(FollowEvent, p));
    }
  }

  lemma UndoOnView(s: Store, p: Pair, at: int, q: Pair)
    ensures var was := ViewOf(s, q);
            ViewOf(UndoRefusedFollow(s, p, at), q)
            == if q == p && Active(s, p) && s.follows[p].at == at then was.(cert := None, client := false) else was
  {
    hide Identifiers.ServerOf, RowFor;
  }

  lemma BlockOnView(s: Store, block: Pair, cert: BlockCert, q: Pair)
    ensures var was := ViewOf(s, q);
            ViewOf(InsertBlock(s, block, cert).0, q)
            == if block in s.blocks || q != Pair(block.to, block.from) then was
               else was.(cert := None, client := false)
  {
    if block !in s.blocks { BlockEndsTheFollow(s, block, cert); }
    RowForIsItsOwn(q);
    hide Identifiers.ServerOf, InsertBlock;
  }

  lemma LiftOnView(s: Store, block: Pair, q: Pair)
    ensures ViewOf(DeleteBlock(s, block).0, q) == ViewOf(s, q)
  {
    if block in s.blocks { LiftOnlyOwes(s, block); }
    RowForIsItsOwn(q);
    hide Identifiers.ServerOf, OweBlockEvent;
  }

  lemma AckOnView(v: Server, p: Pair, follow: bool, q: Pair)
    requires Sound(v)
    ensures var was := ViewOf(v.store, p);
            ViewOf(AckFollowEvent(v.store, p, follow), q)
            == if q != p then ViewOf(v.store, q)
               else Drop(if was.cert.Some? && was.cert.value.follow == follow then was.(client := false) else was)
  {
    hide Identifiers.ServerOf, RowFor, DropSettledUnfollow, RowOk;
    DropOnView(v, p, q);
    DropOnView(v.(store := v.store.(followEvents := v.store.followEvents - {p})), p, q);
  }

  lemma SettleOnView(v: Server, id: nat, q: Pair)
    requires Sound(v)
    ensures var was := ViewOf(v.store, q);
            ViewOf(v.store.(queue := WithoutId(v.store.queue, id)), q)
            == if was.row == Some(id) then was.(row := None) else was
  {
    hide Identifiers.ServerOf, RowFor, RowOk;
  }

  /** Only a pair with a peer's followee has a row. */
  lemma RowsTaken(v: Server, p: Pair)
    requires Sound(v) && !FolloweeOf(v.store, p).Home?
    ensures RowFor(FollowEvent, p) !in v.store.queue.rows
  {
    hide Identifiers.ServerOf;
  }

  /** The pair a step is about. */
  function PairOf(step: Step): Option<Pair> {
    match step
    case Save(p, _, _) => Some(p)
    case UndoRefused(p, _) => Some(p)
    case Ack(p, _) => Some(p)
    case Blocked(block, _) => Some(Pair(block.to, block.from))
    case Lifted(block) => Some(Pair(block.to, block.from))
    case FoundGone(p) => Some(p)
    case SettleSent(p, _) => Some(p)
    case _ => None
  }

  /** A step about one pair leaves any other's part as it was. */
  lemma OtherPairKept(v: Server, step: Step, q: Pair)
    requires Sound(v) && Possible(v, step) && PairOf(step).Some? && PairOf(step) != Some(q)
    ensures ViewOf(Next(v, step).store, q) == ViewOf(v.store, q)
  {
    hide Identifiers.ServerOf, RowFor, SaveFollowCert, UndoRefusedFollow, AckFollowEvent, DropSettledUnfollow, RowOk,
         WithoutId;
    match step
    case Save(p, cert, owe) => SaveOnView(v, p, cert, owe, q);
    case UndoRefused(p, at) => UndoOnView(v.store, p, at, q);
    case Ack(p, follow) => AckOnView(v, p, follow, q);
    case Blocked(block, cert) => BlockOnView(v.store, block, cert, q);
    case Lifted(block) => LiftOnView(v.store, block, q);
    case FoundGone(p) =>
    case SettleSent(p, id) =>
      SettleSound(v, id);
      SettleOnView(v, id, q);
      DropOnView(v.(store := v.store.(queue := WithoutId(v.store.queue, id))), p, q);
      RowForIsItsOwn(q);
  }

  /** A row found gone, unless it was owed again since, isn't an unfollow's. */
  ghost predicate GoneOk(v: Server, p: Pair) {
    var view := ViewOf(v.store, p);
    view.row.Some? && view.row.value in v.gone ==> !Unfollow(view)
  }

  predicate Unfollow(v: View) {
    v.cert.Some? && !v.cert.value.follow
  }

  /** A held unfollow is still owed to the followee's client or a peer. */
  ghost predicate UnfollowOwed(v: Server, p: Pair) {
    var view := ViewOf(v.store, p);
    Unfollow(view) ==> view.client || view.row.Some?
  }

  lemma StepKeepsOwed(v: Server, step: Step, q: Pair)
    requires Sound(v) && Possible(v, step) && UnfollowOwed(v, q) && GoneOk(v, q)
    ensures UnfollowOwed(Next(v, step), q) && GoneOk(Next(v, step), q)
  {
    hide Identifiers.ServerOf, RowFor, SaveFollowCert, UndoRefusedFollow, AckFollowEvent, DropSettledUnfollow, RowOk,
         WithoutId;
    match step
    case Save(p, cert, owe) =>
      SaveOnView(v, p, cert, owe, q);
      if !FolloweeOf(v.store, p).Home? { RowsTaken(v, p); }
    case UndoRefused(p, at) => UndoOnView(v.store, p, at, q);
    case Ack(p, follow) => AckOnView(v, p, follow, q);
    case Blocked(block, cert) => BlockOnView(v.store, block, cert, q);
    case Lifted(block) => LiftOnView(v.store, block, q);
    case FoundGone(p) => RowsArePairs(p, q);
    case SettleGone(id) => SettleOnView(v, id, q);
    case SettleSent(p, id) =>
      SettleSound(v, id);
      SettleOnView(v, id, q);
      DropOnView(v.(store := v.store.(queue := WithoutId(v.store.queue, id))), p, q);
      RowsArePairs(p, q);
      RowForIsItsOwn(q);
    case OtherEvent(key) => RowForIsItsOwn(q);
    case OtherSettled(id) => SettleOnView(v, id, q); RowForIsItsOwn(q);
  }

  // ---- over whole runs ----

  ghost predicate Inv(v: Server) {
    && Sound(v)
    && forall p {:trigger ViewOf(v.store, p)} :: EdgesOf(v.store, p) && UnfollowOwed(v, p) && GoneOk(v, p)
  }

  lemma StepKeepsInv(v: Server, step: Step)
    requires Inv(v) && Possible(v, step)
    ensures Inv(Next(v, step))
  {
    hide EdgesOf, UnfollowOwed, GoneOk, Sound, Next, Possible;
    StepStaysSound(v, step);
    forall p ensures EdgesOf(Next(v, step).store, p) && UnfollowOwed(Next(v, step), p) && GoneOk(Next(v, step), p) {
      assert ViewOf(v.store, p) == ViewOf(v.store, p);
      StepKeepsEdges(v, step, p);
      StepKeepsOwed(v, step, p);
    }
  }

  lemma {:induction false} RunKeepsInv(v: Server, steps: seq<Step>)
    requires Inv(v) && PossibleRun(v, steps)
    ensures Inv(Run(v, steps))
    decreases |steps|
  {
    if steps != [] {
      StepKeepsInv(v, steps[0]);
      RunKeepsInv(Next(v, steps[0]), steps[1..]);
    }
  }

  function Fresh(self: string, mesh: Mesh): Server {
    Server(EmptyStore(self, mesh), {})
  }

  lemma FreshInv(self: string, mesh: Mesh)
    ensures Inv(Fresh(self, mesh))
  {
    forall p ensures EdgesOf(Fresh(self, mesh).store, p) && UnfollowOwed(Fresh(self, mesh), p)
        && GoneOk(Fresh(self, mesh), p) {}
  }

  ghost predicate Reachable(v: Server) {
    exists self, mesh, steps :: PossibleRun(Fresh(self, mesh), steps) && v == Run(Fresh(self, mesh), steps)
  }

  lemma ReachableInv(v: Server)
    requires Reachable(v)
    ensures Inv(v)
  {
    var self, mesh, steps :| PossibleRun(Fresh(self, mesh), steps) && v == Run(Fresh(self, mesh), steps);
    FreshInv(self, mesh);
    RunKeepsInv(Fresh(self, mesh), steps);
  }

  /** Whatever was saved, undone, acked, blocked and delivered, the edges are
      the active certificates'. */
  lemma EdgesAreTheActiveFollows(v: Server)
    requires Reachable(v)
    ensures v.store.following == set p | p in v.store.follows && v.store.follows[p].follow && Local(v.store, p.from)
    ensures v.store.followers == set p | p in v.store.follows && v.store.follows[p].follow && Local(v.store, p.to)
    ensures v.store.followEvents <= v.store.follows.Keys
  {
    hide Identifiers.ServerOf, Reachable;
    ReachableInv(v);
    forall p
      ensures p in v.store.following <==> p in v.store.follows && v.store.follows[p].follow && Local(v.store, p.from)
      ensures p in v.store.followers <==> p in v.store.follows && v.store.follows[p].follow && Local(v.store, p.to)
      ensures p in v.store.followEvents ==> p in v.store.follows
    {
      assert ViewOf(v.store, p) == ViewOf(v.store, p);
      assert EdgesOf(v.store, p);
    }
  }

  /** A held unfollow is owed to the followee's client or their home server. */
  lemma UnfollowsAreOwed(v: Server, p: Pair)
    requires Reachable(v) && p in v.store.follows && !v.store.follows[p].follow
    ensures p in v.store.followEvents || RowFor(FollowEvent, p) in v.store.queue.rows
  {
    hide Reachable, Sound;
    ReachableInv(v);
    assert UnfollowOwed(v, p);
    assert ViewOf(v.store, p).cert == Some(v.store.follows[p]);
  }

  /** A drain cut short after its settle, before the drop that goes with it,
      leaves an unfollow no one is owed exactly when that was its last debt. */
  lemma CutShortLeaks(v: Server, p: Pair, id: nat)
    requires Reachable(v) && p in v.store.follows && !v.store.follows[p].follow
    ensures var cut := v.(store := v.store.(queue := WithoutId(v.store.queue, id)));
            var key := RowFor(FollowEvent, p);
            (p !in cut.store.followEvents && !OwedToPeer(cut.store.queue, p))
            <==> (p !in v.store.followEvents && key in v.store.queue.rows && v.store.queue.rows[key] == id)
  {
    hide Reachable, RowFor, Identifiers.ServerOf;
    UnfollowsAreOwed(v, p);
    ReachableInv(v);
    SettleSound(v, id);
    OwedIsTheRow(v.(store := v.store.(queue := WithoutId(v.store.queue, id))), p);
  }

  /** One unfollow of a peer's user, and a drain cut short after its settle: the
      certificate stays, and nothing is owed that could ever drop it. */
  lemma CutShortLeaksOne(self: string, mesh: Mesh, p: Pair, unfollow: FollowCert)
    requires FolloweeOf(EmptyStore(self, mesh), p).Home? && !unfollow.follow
    ensures var v := Run(Fresh(self, mesh), [Save(p, unfollow, true)]);
            var cut := v.store.(queue := WithoutId(v.store.queue, 0));
            && PossibleRun(Fresh(self, mesh), [Save(p, unfollow, true)])
            && p in cut.follows && !cut.follows[p].follow && p !in cut.followEvents && cut.queue.rows == map[]
  {
    hide Identifiers.ServerOf;
    var v := Next(Fresh(self, mesh), Save(p, unfollow, true));
    assert Run(v, []) == v && [Save(p, unfollow, true)][1..] == [];
    var key := RowFor(FollowEvent, p);
    var stored := SetFollowEdges(Fresh(self, mesh).store.(follows := map[p := unfollow]), p, false);
    assert v.store == DropSettledUnfollow(OweFollowCert(stored, p), p);
    assert key in OweFollowCert(stored, p).queue.rows && key.subject == p.from && key.other == Some(p.to);
    assert v.store.queue.rows == map[key := 0];
  }

  lemma StepOnStamp(v: Server, step: Step, p: Pair)
    requires Sound(v) && Possible(v, step) && p in v.store.follows && p in Next(v, step).store.follows
    ensures var was, now := v.store.follows[p], Next(v, step).store.follows[p];
            now == was || now.at > was.at
  {
    hide Identifiers.ServerOf, RowFor, SaveFollowCert, OweFollowCert, RowOk, WithoutId, EnqueueFor, OwedToPeer;
    if step.Save? {
      SaveOnView(v, step.p, step.cert, step.owe, p);
      assert ViewOf(v.store, p).cert == Some(v.store.follows[p]);
      assert ViewOf(Next(v, step).store, p).cert == Some(Next(v, step).store.follows[p]);
    }
  }

  ghost predicate HeldThroughout(v: Server, steps: seq<Step>, p: Pair)
    decreases |steps|
  {
    p in v.store.follows && (steps == [] || HeldThroughout(Next(v, steps[0]), steps[1..], p))
  }

  /** While a certificate is held for a pair, only one signed later takes its
      place. */
  lemma {:induction false} StampsOnlyGrow(v: Server, steps: seq<Step>, p: Pair)
    requires Inv(v) && PossibleRun(v, steps) && HeldThroughout(v, steps, p)
    ensures var after := Run(v, steps).store.follows;
            p in after && (after[p] == v.store.follows[p] || after[p].at > v.store.follows[p].at)
    decreases |steps|
  {
    if steps != [] {
      StepKeepsInv(v, steps[0]);
      assert HeldThroughout(Next(v, steps[0]), steps[1..], p);
      StepOnStamp(v, steps[0], p);
      StampsOnlyGrow(Next(v, steps[0]), steps[1..], p);
    }
  }

  /** The later of what is held and cert. */
  function Later(held: Option<FollowCert>, cert: FollowCert): Option<FollowCert> {
    if held.Some? && cert.at <= held.value.at then held else Some(cert)
  }

  lemma SaveKeepsLater(v: Server, p: Pair, cert: FollowCert)
    requires Sound(v) && !FolloweeOf(v.store, p).Nobody?
    ensures Held(SaveFollowCert(v.store, p, cert, true).0.follows, p) == Later(Held(v.store.follows, p), cert)
    ensures Sound(Next(v, Save(p, cert, true)))
    ensures FolloweeOf(SaveFollowCert(v.store, p, cert, true).0, p) == FolloweeOf(v.store, p)
  {
    hide Sound, RowFor, Identifiers.ServerOf, EnqueueFor, SaveFollowCert;
    SaveOnView(v, p, cert, true, p);
    StepStaysSound(v, Save(p, cert, true));
    StepOnQueue(v, Save(p, cert, true));
    assert ViewOf(v.store, p).cert == Held(v.store.follows, p);
    assert ViewOf(SaveFollowCert(v.store, p, cert, true).0, p).cert
        == Held(SaveFollowCert(v.store, p, cert, true).0.follows, p);
  }

  /** Two certificates leave the same one whichever is saved first, exactly
      when one was signed before the other or both come too late. */
  lemma LastSignedWins(v: Server, p: Pair, a: FollowCert, b: FollowCert)
    requires Reachable(v) && !FolloweeOf(v.store, p).Nobody?
    ensures var ab := SaveFollowCert(SaveFollowCert(v.store, p, a, true).0, p, b, true).0;
            var ba := SaveFollowCert(SaveFollowCert(v.store, p, b, true).0, p, a, true).0;
            Held(ab.follows, p) == Held(ba.follows, p)
            <==> (a.at != b.at || a == b || (p in v.store.follows && a.at <= v.store.follows[p].at))
  {
    hide Reachable, SaveFollowCert, Sound, FolloweeOf;
    ReachableInv(v);
    SaveKeepsLater(v, p, a);
    SaveKeepsLater(Next(v, Save(p, a, true)), p, b);
    SaveKeepsLater(v, p, b);
    SaveKeepsLater(Next(v, Save(p, b, true)), p, a);
  }
}
