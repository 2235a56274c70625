/** Blocks between two servers: the blocker's, which drains its queue to the
    blocked user's, and the blocked user's. Every interleaving of home
    transactions with the drain's steps is a run. */
module BlockProtocol {
  import opened Options
  import opened PeerQueue
  import opened ServerStore
  import Identifiers

  /** Where the drain is with the block event it read; its id is the row's id
      when it was read, and answered what was sent and answered for good. */
  datatype Phase =
    | Idle
    | HasRead(p: Pair, id: nat)
    | HasBuilt(p: Pair, id: nat, payload: Option<BlockCert>)
    | Answered(p: Pair, id: nat, payload: Option<BlockCert>)

  /** lastSent is what the peer last answered for each pair; refused are the
      pairs whose last answer was a refusal; lastSigned is a
      pair's latest stamp, and a pair is tied while its last block isn't stamped
      after all before it. */
  datatype System = System(
    home: Store,
    peer: Store,
    phase: Phase,
    lastSent: map<Pair, BlockCert>,
    refused: set<Pair>,
    lastSigned: map<Pair, int>,
    tied: set<Pair>)

  /** What becomes of a call: taken, or taken with the answer lost; given up
      halfway, with the older block it replaces already deleted; not taken but
      to be retried; or refused for good. */
  datatype Outcome = Taken | TakenButLost | Halfway | NotTaken | Refused

  datatype Step =
    | Block(p: Pair, cert: BlockCert)
    | Unblock(p: Pair)
    | OtherEvent(key: Key)
    | OtherSettled(key: Key)
    | Read(p: Pair)
    | Build
    | Call(outcome: Outcome)
    | Settle
    | Stop
    | PeerAcked(p: Pair, block: bool)

  /** The pairs that cross: blocker here, blocked user on the peer. */
  ghost predicate Crosses(sys: System, p: Pair) {
    Local(sys.home, p.from) && !Local(sys.home, p.to) && Identifiers.ServerOf(p.to) == Some(sys.peer.self)
  }

  ghost predicate Possible(sys: System, step: Step) {
    match step
    case Block(p, cert) => true
    case Unblock(p) => true
    case OtherEvent(key) => !key.kind.BlockEvent?
    case OtherSettled(key) =>
      (!key.kind.BlockEvent? || key.server != sys.peer.self) && key in sys.home.queue.rows
    case Read(p) => sys.phase.Idle? && Crosses(sys, p) && RowFor(BlockEvent, p) in sys.home.queue.rows
    case Build => sys.phase.HasRead?
    case Call(outcome) => sys.phase.HasBuilt?
    case Settle => sys.phase.Answered?
    case Stop => true
    case PeerAcked(p, block) => true
  }

  /** The peer's side of one call. */
  function PeerTakes(peer: Store, p: Pair, payload: Option<BlockCert>): Store {
    match payload
    case Some(cert) => AcceptForeignBlock(peer, p, cert)
    case None => DeleteBlock(peer, p).0
  }

  /** The peer gave up between deleting the older block and storing this one. */
  function PeerHalfway(peer: Store, p: Pair, payload: Option<BlockCert>): Store {
    if payload.Some? && p in peer.blocks && peer.blocks[p].at < payload.value.at then DeleteBlock(peer, p).0 else peer
  }

  function PeerAfterCall(peer: Store, p: Pair, payload: Option<BlockCert>, outcome: Outcome): Store {
    match outcome
    case Taken => PeerTakes(peer, p, payload)
    case TakenButLost => PeerTakes(peer, p, payload)
    case Halfway => PeerHalfway(peer, p, payload)
    case NotTaken => peer
    case Refused => peer
  }

  function Sent(m: map<Pair, BlockCert>, p: Pair, payload: Option<BlockCert>): map<Pair, BlockCert> {
    match payload case Some(cert) => m[p := cert] case None => m - {p}
  }

  predicate SignedAfter(sys: System, p: Pair, cert: BlockCert) {
    p in sys.lastSigned ==> cert.at > sys.lastSigned[p]
  }

  function Next(sys: System, step: Step): System {
    match step
    case Block(p, cert) =>
      var (home, r) := InsertBlock(sys.home, p, cert);
      if r != Created then sys
      else sys.(home := home,
                lastSigned := if SignedAfter(sys, p, cert) then sys.lastSigned[p := cert.at] else sys.lastSigned,
                tied := if SignedAfter(sys, p, cert) then sys.tied - {p} else sys.tied + {p})
    case Unblock(p) => sys.(home := DeleteBlock(sys.home, p).0)
    case OtherEvent(key) => sys.(home := sys.home.(queue := EnqueueFor(sys.home.queue, sys.home.mesh, key)))
    case OtherSettled(key) =>
      if key in sys.home.queue.rows
      then sys.(home := sys.home.(queue := WithoutId(sys.home.queue, sys.home.queue.rows[key])))
      else sys
    case Read(p) =>
      var key := RowFor(BlockEvent, p);
      if key in sys.home.queue.rows then sys.(phase := HasRead(p, sys.home.queue.rows[key])) else sys
    case Build =>
      if sys.phase.HasRead?
      then sys.(phase := HasBuilt(sys.phase.p, sys.phase.id, Held(sys.home.blocks, sys.phase.p)))
      else sys
    case Call(outcome) =>
      if !sys.phase.HasBuilt? then sys
      else
        var HasBuilt(p, id, payload) := sys.phase;
        var answered := outcome.Taken? || outcome.Refused?;
        sys.(peer := PeerAfterCall(sys.peer, p, payload, outcome),
             phase := if answered then Answered(p, id, payload) else Idle,
             lastSent := if answered then Sent(sys.lastSent, p, payload) else sys.lastSent,
             refused := if outcome.Taken? then sys.refused - {p}
                        else if outcome.Refused? then sys.refused + {p} else sys.refused)
    case Settle =>
      if sys.phase.Answered?
      then sys.(home := sys.home.(queue := WithoutId(sys.home.queue, sys.phase.id)), phase := Idle)
      else sys
    case Stop => sys.(phase := Idle)
    case PeerAcked(p, block) =>
      if Held(sys.peer.blockEvents, p) == Some(block)
      then sys.(peer := sys.peer.(blockEvents := sys.peer.blockEvents - {p})) else sys
  }

  function Run(sys: System, steps: seq<Step>): System
    decreases |steps|
  {
    if steps == [] then sys else Run(Next(sys, steps[0]), steps[1..])
  }

  ghost predicate PossibleRun(sys: System, steps: seq<Step>)
    decreases |steps|
  {
    steps == [] || (Possible(sys, steps[0]) && PossibleRun(Next(sys, steps[0]), steps[1..]))
  }

  /** Nothing blocked, owed or in flight yet, and the peer a peer. */
  ghost predicate Initial(sys: System) {
    && sys.home == EmptyStore(sys.home.self, sys.home.mesh) && sys.peer == EmptyStore(sys.peer.self, sys.peer.mesh)
    && sys.phase.Idle? && sys.lastSent == map[] && sys.refused == {} && sys.lastSigned == map[] && sys.tied == {}
    && Takes(sys.home.mesh, sys.peer.self)
  }

  // ---- one pair's part of the system ----

  datatype Drain =
    | Away
    | Reading(id: nat)
    | Sending(id: nat, payload: Option<BlockCert>)
    | Done(id: nat, payload: Option<BlockCert>)

  /** What the system holds about one pair: the block here and on the peer, its
      queue row's id, the drain if it is at this pair, and the bookkeeping. */
  datatype View = View(
    home: Option<BlockCert>,
    peer: Option<BlockCert>,
    row: Option<nat>,
    drain: Drain,
    sent: Option<BlockCert>,
    refused: bool,
    signed: Option<int>,
    tied: bool)

  function DrainAt(phase: Phase, p: Pair): Drain {
    match phase
    case Idle => Away
    case HasRead(q, id) => if q == p then Reading(id) else Away
    case HasBuilt(q, id, payload) => if q == p then Sending(id, payload) else Away
    case Answered(q, id, payload) => if q == p then Done(id, payload) else Away
  }

  function RowId(q: Queue, key: Key): Option<nat> {
    if key in q.rows then Some(q.rows[key]) else None
  }

  function ViewOf(sys: System, p: Pair): View {
    View(Held(sys.home.blocks, p), Held(sys.peer.blocks, p), RowId(sys.home.queue, RowFor(BlockEvent, p)),
         DrainAt(sys.phase, p), Held(sys.lastSent, p), p in sys.refused,
         if p in sys.lastSigned then Some(sys.lastSigned[p]) else None, p in sys.tied)
  }

  /** How a call changes the block the peer holds. */
  function PeerAfter(peer: Option<BlockCert>, payload: Option<BlockCert>): Option<BlockCert> {
    if payload.Some? && peer.Some? && payload.value.at <= peer.value.at then peer else payload
  }

  function PeerAfterOutcome(peer: Option<BlockCert>, payload: Option<BlockCert>, outcome: Outcome): Option<BlockCert> {
    match outcome
    case Taken => PeerAfter(peer, payload)
    case TakenButLost => PeerAfter(peer, payload)
    case Halfway => if payload.Some? && peer.Some? && peer.value.at < payload.value.at then None else peer
    case NotTaken => peer
    case Refused => peer
  }

  /** What a step does to one pair's part; next is the queue's next id. */
  function ViewStep(v: View, step: Step, p: Pair, next: nat): View {
    match step
    case Block(q, cert) =>
      if q == p && v.home.None?
      then v.(home := Some(cert), row := Some(next),
              signed := if v.signed.Some? && cert.at <= v.signed.value then v.signed else Some(cert.at),
              tied := v.signed.Some? && cert.at <= v.signed.value)
      else v
    case Unblock(q) => if q == p && v.home.Some? then v.(home := None, row := Some(next)) else v
    case Read(q) => if q == p && v.row.Some? then v.(drain := Reading(v.row.value)) else v
    case Build => if v.drain.Reading? then v.(drain := Sending(v.drain.id, v.home)) else v
    case Call(outcome) =>
      if !v.drain.Sending? then v
      else
        var Sending(id, payload) := v.drain;
        var answered := outcome.Taken? || outcome.Refused?;
        v.(peer := PeerAfterOutcome(v.peer, payload, outcome),
           drain := if answered then Done(id, payload) else Away,
           sent := if answered then payload else v.sent,
           refused := if outcome.Taken? then false else if outcome.Refused? then true else v.refused)
    case Settle =>
      if v.drain.Done? then v.(row := if v.row == Some(v.drain.id) then None else v.row, drain := Away) else v
    case Stop => v.(drain := Away)
    case _ => v
  }

  /** The queue is sound, the peer still a peer, and the id the drain read is
      at most that pair's own. */
  ghost predicate Sound(sys: System) {
    && Valid(sys.home.queue) && Takes(sys.home.mesh, sys.peer.self)
    && (!sys.phase.Idle? ==>
          && Crosses(sys, sys.phase.p) && sys.phase.id < sys.home.queue.next
          && forall k :: k in sys.home.queue.rows && sys.home.queue.rows[k] == sys.phase.id ==>
               k == RowFor(BlockEvent, sys.phase.p))
  }

  lemma BlocksOwe(s: Store, p: Pair, cert: BlockCert)
    requires Foreign(s, p.to) && Takes(s.mesh, RowFor(BlockEvent, p).server)
    ensures var (t, r) := InsertBlock(s, p, cert);
            && r == (if p !in s.blocks then Created else if s.blocks[p] == cert then Already else Conflict)
            && t.self == s.self && t.mesh == s.mesh
            && t.queue == (if p in s.blocks then s.queue else ToTheBack(s.queue, RowFor(BlockEvent, p)))
            && t.blocks == if p in s.blocks then s.blocks else s.blocks[p := cert]
  {}

  lemma LiftsOwe(s: Store, p: Pair)
    requires Foreign(s, p.to) && Takes(s.mesh, RowFor(BlockEvent, p).server)
    ensures var t := DeleteBlock(s, p).0;
            && t.self == s.self && t.mesh == s.mesh
            && t.queue == (if p in s.blocks then ToTheBack(s.queue, RowFor(BlockEvent, p)) else s.queue)
            && t.blocks == s.blocks - {p}
  {}

  /** What a commit on any pair, local or a peer's, does to the tables. */
  lemma CommitTouches(s: Store, p: Pair, cert: BlockCert)
    ensures var t := InsertBlock(s, p, cert).0;
            && t.self == s.self && t.mesh == s.mesh
            && t.blocks == (if p in s.blocks then s.blocks else s.blocks[p := cert])
            && (t.queue == s.queue || t.queue == ToTheBack(s.queue, RowFor(BlockEvent, p)))
    ensures var t := DeleteBlock(s, p).0;
            && t.self == s.self && t.mesh == s.mesh && t.blocks == s.blocks - {p}
            && (t.queue == s.queue || t.queue == ToTheBack(s.queue, RowFor(BlockEvent, p)))
  {
    hide Identifiers.ServerOf, RowFor;
    if p !in s.blocks { assert s.blocks - {p} == s.blocks; }
  }

  lemma PeerBlocksAfter(peer: Store, p: Pair, payload: Option<BlockCert>, outcome: Outcome, q: Pair)
    ensures var after := PeerAfterCall(peer, p, payload, outcome);
            && after.self == peer.self
            && Held(after.blocks, q)
               == if q == p then PeerAfterOutcome(Held(peer.blocks, p), payload, outcome) else Held(peer.blocks, q)
  {
    hide Identifiers.ServerOf;
    if payload.Some? { AcceptedBlocks(peer, p, payload.value); }
  }

  /** The queue changes of a step keep it sound. */
  lemma QueueStaysSound(sys: System, key: Key)
    requires Sound(sys)
    ensures Sound(sys.(home := sys.home.(queue := ToTheBack(sys.home.queue, key))))
    ensures forall id :: Sound(sys.(home := sys.home.(queue := WithoutId(sys.home.queue, id))))
  {}

  /** What a home transaction leaves is sound, and both servers who they were. */
  lemma CommitStaysSound(sys: System, step: Step)
    requires Sound(sys) && Possible(sys, step) && (step.Block? || step.Unblock?)
    ensures Sound(Next(sys, step))
    ensures Next(sys, step).home.self == sys.home.self && Next(sys, step).peer.self == sys.peer.self
  {
    hide Identifiers.ServerOf;
    QueueStaysSound(sys, RowFor(BlockEvent, step.p));
    CommitTouches(sys.home, step.p, if step.Block? then step.cert else BlockCert(0, ""));
    hide RowFor, InsertBlock, DeleteBlock, ToTheBack, Valid;
  }

  lemma StepStaysSound(sys: System, step: Step)
    requires Sound(sys) && Possible(sys, step)
    ensures Sound(Next(sys, step))
    ensures Next(sys, step).home.self == sys.home.self && Next(sys, step).peer.self == sys.peer.self
  {
    if step.Block? || step.Unblock? {
      CommitStaysSound(sys, step);
    } else {
      hide Identifiers.ServerOf, PeerAfterCall;
      match step
      case OtherEvent(key) => QueueStaysSound(sys, key);
      case Settle => QueueStaysSound(sys, RowFor(BlockEvent, sys.phase.p));
      case OtherSettled(key) => QueueStaysSound(sys, key);
      case Call(outcome) => PeerBlocksAfter(sys.peer, sys.phase.p, sys.phase.payload, outcome, sys.phase.p);
      case _ =>
    }
  }

  lemma RowsArePairs(p: Pair, q: Pair)
    ensures RowFor(BlockEvent, p) == RowFor(BlockEvent, q) ==> p == q
  {}

  lemma RequeueOnView(sys: System, step: Step, p: Pair)
    requires Sound(sys) && Possible(sys, step) && Crosses(sys, p) && (step.Block? || step.Unblock?)
    ensures ViewOf(Next(sys, step), p) == ViewStep(ViewOf(sys, p), step, p, sys.home.queue.next)
  {
    hide Identifiers.ServerOf;
    RowsArePairs(p, step.p);
    if step.p != p { CommitTouches(sys.home, step.p, if step.Block? then step.cert else BlockCert(0, "")); }
    else if step.Block? { BlocksOwe(sys.home, step.p, step.cert); }
    else { LiftsOwe(sys.home, step.p); }
  }

  lemma QueueOnView(sys: System, step: Step, p: Pair)
    requires Sound(sys) && Possible(sys, step) && Crosses(sys, p)
    requires step.OtherEvent? || step.OtherSettled? || step.Settle?
    ensures ViewOf(Next(sys, step), p) == ViewStep(ViewOf(sys, p), step, p, sys.home.queue.next)
  {
    hide Identifiers.ServerOf;
    if step.Settle? {
      RowsArePairs(p, sys.phase.p);
      SettleDropsOnlyThatId(sys.home.queue, RowFor(BlockEvent, p), sys.phase.id);
    } else if step.OtherSettled? {
      SettleDropsOnlyThatId(sys.home.queue, RowFor(BlockEvent, p), sys.home.queue.rows[step.key]);
    }
  }

  lemma CallOnView(sys: System, step: Step, p: Pair)
    requires Sound(sys) && Possible(sys, step) && Crosses(sys, p) && step.Call?
    ensures ViewOf(Next(sys, step), p) == ViewStep(ViewOf(sys, p), step, p, sys.home.queue.next)
  {
    hide Identifiers.ServerOf, PeerAfterCall, PeerAfterOutcome;
    PeerBlocksAfter(sys.peer, sys.phase.p, sys.phase.payload, step.outcome, p);
  }

  lemma QuietOnView(sys: System, step: Step, p: Pair)
    requires Sound(sys) && Possible(sys, step) && Crosses(sys, p)
    requires step.Read? || step.Build? || step.Stop? || step.PeerAcked?
    ensures ViewOf(Next(sys, step), p) == ViewStep(ViewOf(sys, p), step, p, sys.home.queue.next)
  {
    hide Identifiers.ServerOf;
  }

  /** A step changes each crossing pair's part as ViewStep says. */
  lemma StepOnView(sys: System, step: Step, p: Pair)
    requires Sound(sys) && Possible(sys, step) && Crosses(sys, p)
    ensures ViewOf(Next(sys, step), p) == ViewStep(ViewOf(sys, p), step, p, sys.home.queue.next)
  {
    if step.Block? || step.Unblock? { RequeueOnView(sys, step, p); }
    else if step.OtherEvent? || step.OtherSettled? || step.Settle? { QueueOnView(sys, step, p); }
    else if step.Call? { CallOnView(sys, step, p); }
    else { QuietOnView(sys, step, p); }
  }

  // ---- what every run keeps ----

  predicate Agree(v: View) {
    v.home.Some? <==> v.peer.Some?
  }

  /** The peer answered for what is held here; unless it refused, both sides
      hold a block or neither does, and the same one when the pair isn't tied. */
  predicate InStep(v: View) {
    && v.home == v.sent
    && (!v.refused ==> Agree(v))
    && (!v.refused && !v.tied ==> v.home == v.peer)
  }

  predicate SignedBy(a: Option<BlockCert>, last: Option<int>) {
    a.Some? ==> last.Some? && a.value.at <= last.value
  }

  function InFlight(v: View): Option<BlockCert> {
    if v.drain.Sending? then v.drain.payload else None
  }

  /** Nothing is stamped later than the pair's latest stamp. */
  predicate StampsOk(v: View) {
    SignedBy(v.home, v.signed) && SignedBy(v.peer, v.signed) && SignedBy(InFlight(v), v.signed)
  }

  predicate Latest(a: Option<BlockCert>, v: View) {
    a.Some? && v.signed == Some(a.value.at)
  }

  /** Only one block has the latest stamp, and only it is held here. */
  predicate LatestOnce(v: View) {
    && (v.home.Some? ==> Latest(v.home, v))
    && (v.home.Some? && Latest(v.peer, v) ==> v.peer == v.home)
    && (v.home.Some? && Latest(InFlight(v), v) ==> InFlight(v) == v.home)
    && (Latest(InFlight(v), v) && Latest(v.peer, v) ==> InFlight(v) == v.peer)
  }

  predicate PairInv(v: View, next: nat) {
    && (v.row.Some? ==> v.row.value < next)
    && (v.row.None? ==> InStep(v))
    && (v.drain != Away ==> v.row.Some? && v.drain.id <= v.row.value)
    && (v.drain.Sending? && v.row == Some(v.drain.id) ==> v.drain.payload == v.home)
    && (v.drain.Done? && v.row == Some(v.drain.id) ==> InStep(v))
    && StampsOk(v) && (!v.tied ==> LatestOnce(v))
  }

  lemma StepKeepsPairInv(v: View, step: Step, p: Pair, next: nat, next': nat)
    requires PairInv(v, next) && next <= next'
             && (step.Block? || step.Unblock? ==> step.p == p ==> ViewStep(v, step, p, next) == v || next < next')
    requires step.Read? ==> v.drain == Away
    ensures PairInv(ViewStep(v, step, p, next), next')
  {}

  ghost predicate Inv(sys: System) {
    && Sound(sys)
    && forall p {:trigger ViewOf(sys, p)} :: Crosses(sys, p) ==> PairInv(ViewOf(sys, p), sys.home.queue.next)
  }

  lemma StepKeepsInv(sys: System, step: Step)
    requires Inv(sys) && Possible(sys, step)
    ensures Inv(Next(sys, step))
  {
    StepStaysSound(sys, step);
    IdsOnlyGrow(sys, step);
    forall p | Crosses(Next(sys, step), p)
        ensures PairInv(ViewOf(Next(sys, step), p), Next(sys, step).home.queue.next) {
      StepOnView(sys, step, p);
      StepKeepsPairInv(ViewOf(sys, p), step, p, sys.home.queue.next, Next(sys, step).home.queue.next);
    }
  }

  lemma IdsOnlyGrow(sys: System, step: Step)
    requires Sound(sys) && Possible(sys, step)
    ensures sys.home.queue.next <= Next(sys, step).home.queue.next
    ensures (step.Block? || step.Unblock?) && Crosses(sys, step.p) ==>
              sys.home.queue.next < Next(sys, step).home.queue.next
                || ViewStep(ViewOf(sys, step.p), step, step.p, sys.home.queue.next) == ViewOf(sys, step.p)
  {
    hide Identifiers.ServerOf;
    if step.Block? || step.Unblock? {
      CommitTouches(sys.home, step.p, if step.Block? then step.cert else BlockCert(0, ""));
      if Crosses(sys, step.p) {
        if step.Block? { BlocksOwe(sys.home, step.p, step.cert); } else { LiftsOwe(sys.home, step.p); }
      }
    }
  }

  lemma {:induction false} RunKeepsInv(sys: System, steps: seq<Step>)
    requires Inv(sys) && PossibleRun(sys, steps)
    ensures Inv(Run(sys, steps))
    decreases |steps|
  {
    if steps != [] {
      StepKeepsInv(sys, steps[0]);
      RunKeepsInv(Next(sys, steps[0]), steps[1..]);
    }
  }

  lemma InitialInv(sys: System)
    requires Initial(sys)
    ensures Inv(sys)
  {}

  ghost predicate Reachable(sys: System) {
    exists start, steps :: Initial(start) && PossibleRun(start, steps) && sys == Run(start, steps)
  }

  lemma ReachableInv(sys: System)
    requires Reachable(sys)
    ensures Inv(sys)
  {
    var start, steps :| Initial(start) && PossibleRun(start, steps) && sys == Run(start, steps);
    InitialInv(start);
    RunKeepsInv(start, steps);
  }

  /** No update is lost: a pair whose block here isn't what the peer last
      answered for still has its row, whatever the drain was doing. */
  lemma NoLostUpdate(sys: System, p: Pair)
    requires Reachable(sys) && Crosses(sys, p)
    requires Held(sys.home.blocks, p) != Held(sys.lastSent, p)
    ensures RowFor(BlockEvent, p) in sys.home.queue.rows
  {
    ReachableInv(sys);
    assert PairInv(ViewOf(sys, p), sys.home.queue.next);
  }

  /** Once a pair isn't owed and the peer didn't refuse it, whatever calls lost
      their answer, both servers hold a block for it or neither does; the same
      certificate while its last block is stamped after all before it. */
  lemma BlocksConverge(sys: System, p: Pair)
    requires Reachable(sys) && Crosses(sys, p)
    requires RowFor(BlockEvent, p) !in sys.home.queue.rows && p !in sys.refused
    ensures p in sys.home.blocks <==> p in sys.peer.blocks
    ensures p !in sys.tied ==> Held(sys.home.blocks, p) == Held(sys.peer.blocks, p)
  {
    ReachableInv(sys);
    assert PairInv(ViewOf(sys, p), sys.home.queue.next);
  }

  /** The drain is about to send p's block as it still is. */
  ghost predicate SendingCurrent(sys: System, p: Pair) {
    && Reachable(sys) && sys.phase.HasBuilt? && sys.phase.p == p
    && RowId(sys.home.queue, RowFor(BlockEvent, p)) == Some(sys.phase.id)
  }

  /** A call the peer takes leaves both servers with the same certificate
      exactly when the peer held none, an older one, or that very one. */
  lemma TakenLeavesTheSame(sys: System, p: Pair)
    requires SendingCurrent(sys, p)
    ensures var after := Next(sys, Call(Taken));
            var held := Held(sys.peer.blocks, p);
            Held(after.home.blocks, p) == Held(after.peer.blocks, p)
            <==> (p !in sys.home.blocks || held.None? || held.value.at < sys.home.blocks[p].at
                  || held == Some(sys.home.blocks[p]))
  {
    ReachableInv(sys);
    assert PairInv(ViewOf(sys, p), sys.home.queue.next);
    StepOnView(sys, Call(Taken), p);
  }

  /** After a refusal is settled the pair isn't owed, and the servers agree
      exactly when the peer already held what it refused. */
  lemma RefusalSettled(sys: System, p: Pair)
    requires SendingCurrent(sys, p)
    ensures var after := Next(Next(sys, Call(Refused)), Settle);
            && RowFor(BlockEvent, p) !in after.home.queue.rows
            && ((p in after.home.blocks <==> p in after.peer.blocks)
                  <==> (p in sys.home.blocks <==> p in sys.peer.blocks))
  {
    ReachableInv(sys);
    assert PairInv(ViewOf(sys, p), sys.home.queue.next);
    StepOnView(sys, Call(Refused), p);
    StepKeepsInv(sys, Call(Refused));
    StepOnView(Next(sys, Call(Refused)), Settle, p);
  }

  /** So a refused block splits the servers: a run that ends with nothing owed,
      a block here and none on the peer. */
  lemma RefusedBlockSplits(sys: System, p: Pair, cert: BlockCert)
    requires Initial(sys) && Crosses(sys, p)
    ensures var run := [Block(p, cert), Read(p), Build, Call(Refused), Settle];
            var after := Run(sys, run);
            && PossibleRun(sys, run) && RowFor(BlockEvent, p) !in after.home.queue.rows
            && p in after.home.blocks && p !in after.peer.blocks
  {
    var a := Next(sys, Block(p, cert));
    var b := Next(a, Read(p));
    var c := Next(b, Build);
    var d := Next(c, Call(Refused));
    InitialInv(sys);
    StepOnView(sys, Block(p, cert), p);
    StepKeepsInv(sys, Block(p, cert));
    StepOnView(a, Read(p), p);
    StepKeepsInv(a, Read(p));
    StepOnView(b, Build, p);
    StepKeepsInv(b, Build);
    StepOnView(c, Call(Refused), p);
    StepKeepsInv(c, Call(Refused));
    StepOnView(d, Settle, p);
    RunOfFive(sys, Block(p, cert), Read(p), Build, Call(Refused), Settle);
  }

  /** All that a step does for one pair. */
  lemma Does(sys: System, step: Step, p: Pair)
    requires Inv(sys) && Possible(sys, step) && Crosses(sys, p)
    ensures Inv(Next(sys, step)) && Crosses(Next(sys, step), p)
    ensures ViewOf(Next(sys, step), p) == ViewStep(ViewOf(sys, p), step, p, sys.home.queue.next)
  {
    StepStaysSound(sys, step);
    StepKeepsInv(sys, step);
    StepOnView(sys, step, p);
  }

  /** A block whose taking got lost, its lift, and another block of the same
      second: taken too, it leaves the older one on the peer. */
  lemma SameSecondKeepsOlder(sys: System, p: Pair, older: BlockCert, newer: BlockCert)
    requires Initial(sys) && Crosses(sys, p) && older != newer && older.at == newer.at
    ensures var run := [Block(p, older), Read(p), Build, Call(TakenButLost), Unblock(p),
                        Block(p, newer), Read(p), Build, Call(Taken), Settle];
            var after := Run(sys, run);
            && PossibleRun(sys, run) && RowFor(BlockEvent, p) !in after.home.queue.rows
            && Held(after.home.blocks, p) == Some(newer) && Held(after.peer.blocks, p) == Some(older)
  {
    var lost := SameSecondLost(sys, p, older);
    var last := SameSecondAgain(lost, p, older, newer);
    RunOfFive(sys, Block(p, older), Read(p), Build, Call(TakenButLost), Unblock(p));
    RunOfFive(lost, Block(p, newer), Read(p), Build, Call(Taken), Settle);
    hide Next, Possible, Inv, Crosses, Initial, RowFor;
    var first := [Block(p, older), Read(p), Build, Call(TakenButLost), Unblock(p)];
    var second := [Block(p, newer), Read(p), Build, Call(Taken), Settle];
    RunThen(sys, first, second);
    assert first + second == [Block(p, older), Read(p), Build, Call(TakenButLost), Unblock(p),
                              Block(p, newer), Read(p), Build, Call(Taken), Settle];
  }

  lemma SameSecondLost(sys: System, p: Pair, older: BlockCert) returns (after: System)
    requires Initial(sys) && Crosses(sys, p)
    ensures Inv(after) && Crosses(after, p) && after.phase.Idle?
    ensures var v := ViewOf(after, p); v.home.None? && v.peer == Some(older) && v.drain == Away
    ensures PossibleRun(sys, [Block(p, older), Read(p), Build, Call(TakenButLost), Unblock(p)])
    ensures after == Run(sys, [Block(p, older), Read(p), Build, Call(TakenButLost), Unblock(p)])
  {
    InitialInv(sys);
    var a := Next(sys, Block(p, older));
    var b := Next(a, Read(p));
    var c := Next(b, Build);
    var d := Next(c, Call(TakenButLost));
    after := Next(d, Unblock(p));
    assert ViewOf(sys, p) == View(None, None, None, Away, None, false, None, false);
    Does(sys, Block(p, older), p);
    assert a.phase.Idle?;
    Does(a, Read(p), p);
    Does(b, Build, p);
    Does(c, Call(TakenButLost), p);
    assert d.phase.Idle?;
    Does(d, Unblock(p), p);
    RunOfFive(sys, Block(p, older), Read(p), Build, Call(TakenButLost), Unblock(p));
  }

  lemma SameSecondAgain(sys: System, p: Pair, older: BlockCert, newer: BlockCert) returns (after: System)
    requires Inv(sys) && Crosses(sys, p) && sys.phase.Idle? && older.at == newer.at
    requires var v := ViewOf(sys, p); v.home.None? && v.peer == Some(older) && v.drain == Away
    ensures PossibleRun(sys, [Block(p, newer), Read(p), Build, Call(Taken), Settle])
    ensures after == Run(sys, [Block(p, newer), Read(p), Build, Call(Taken), Settle])
    ensures var v := ViewOf(after, p); v.home == Some(newer) && v.peer == Some(older) && v.row.None?
  {
    var a := Next(sys, Block(p, newer));
    var b := Next(a, Read(p));
    var c := Next(b, Build);
    var d := Next(c, Call(Taken));
    after := Next(d, Settle);
    Does(sys, Block(p, newer), p);
    assert a.phase.Idle?;
    Does(a, Read(p), p);
    Does(b, Build, p);
    Does(c, Call(Taken), p);
    Does(d, Settle, p);
    RunOfFive(sys, Block(p, newer), Read(p), Build, Call(Taken), Settle);
  }

  lemma {:induction false} RunThen(sys: System, first: seq<Step>, second: seq<Step>)
    requires PossibleRun(sys, first) && PossibleRun(Run(sys, first), second)
    ensures PossibleRun(sys, first + second) && Run(sys, first + second) == Run(Run(sys, first), second)
    decreases |first|
  {
    hide Next, Possible;
    if first == [] {
      assert first + second == second;
    } else {
      assert (first + second)[1..] == first[1..] + second;
      RunThen(Next(sys, first[0]), first[1..], second);
    }
  }

  lemma RunOfFive(sys: System, a: Step, b: Step, c: Step, d: Step, e: Step)
    ensures Run(sys, [a, b, c, d, e]) == Next(Next(Next(Next(Next(sys, a), b), c), d), e)
    ensures PossibleRun(sys, [a, b, c, d, e])
            <==> (Possible(sys, a) && Possible(Next(sys, a), b) && Possible(Next(Next(sys, a), b), c)
                  && Possible(Next(Next(Next(sys, a), b), c), d)
                  && Possible(Next(Next(Next(Next(sys, a), b), c), d), e))
  {
    hide Next, Possible;
    assert [a, b, c, d, e][1..] == [b, c, d, e] && [b, c, d, e][1..] == [c, d, e] && [c, d, e][1..] == [d, e];
    assert [d, e][1..] == [e] && [e][1..] == [];
    var s1 := Next(sys, a);
    var s2 := Next(s1, b);
    var s3 := Next(s2, c);
    var s4 := Next(s3, d);
    assert Run(s4, [e]) == Next(s4, e);
    assert Run(s3, [d, e]) == Run(s4, [e]);
    assert Run(s2, [c, d, e]) == Run(s3, [d, e]);
    assert Run(s1, [b, c, d, e]) == Run(s2, [c, d, e]);
    assert PossibleRun(s4, [e]) == Possible(s4, e);
    assert PossibleRun(s3, [d, e]) == (Possible(s3, d) && PossibleRun(s4, [e]));
    assert PossibleRun(s2, [c, d, e]) == (Possible(s2, c) && PossibleRun(s3, [d, e]));
    assert PossibleRun(s1, [b, c, d, e]) == (Possible(s1, b) && PossibleRun(s2, [c, d, e]));
  }
}
