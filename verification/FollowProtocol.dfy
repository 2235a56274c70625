/** Follows across two servers: the follower's, which sends what it signs or
    queues it to be drained, and the followee's. */
module FollowProtocol {
  import opened Options
  import opened PeerQueue
  import opened ServerStore
  import F = FollowState
  import Identifiers

  /** Where the drain is with the follow event it read, by the id the row had
      then; sent is whether the peer was called, so the drop runs after. */
  datatype Phase =
    | Idle
    | HasRead(p: Pair, id: nat)
    | HasBuilt(p: Pair, id: nat, cert: FollowCert)
    | Refusing(p: Pair, id: nat, cert: FollowCert)
    | Settling(p: Pair, id: nat, sent: bool)
    | Dropping(p: Pair)

  /** unsure are the pairs whose last event wasn't answered 2xx, or that a
      block cut; lastSigned is a pair's latest stamp, and a pair is tied while
      its last certificate isn't stamped after all before it. */
  datatype System = System(
    home: Store,
    peer: Store,
    phase: Phase,
    unsure: set<Pair>,
    lastSigned: map<Pair, int>,
    tied: set<Pair>)

  /** What becomes of a call: a 2xx; taken with the answer lost; an error, 5xx
      or 429; another 4xx; or a 3xx, which settles like a 2xx. */
  datatype Outcome = Taken | TakenButLost | NotTaken | Refused | Redirected

  datatype Step =
    | Unfollow(p: Pair, cert: FollowCert)
    | Follow(p: Pair, cert: FollowCert, direct: Outcome)
    | Read(p: Pair)
    | Build
    | Call(outcome: Outcome)
    | Undo
    | Settle
    | Drop
    | Stop
    | PeerAcked(p: Pair, follow: bool)
    | BlockedHere(p: Pair, block: BlockCert)
    | BlockedThere(p: Pair, block: BlockCert)
    | LiftedHere(p: Pair)
    | LiftedThere(p: Pair)
    | OtherEvent(key: Key)
    | OtherSettled(id: nat)
    | UndoFails
    | Elsewhere(step: F.Step)

  /** The followee's block of the follower. */
  function Back(p: Pair): Pair {
    Pair(p.to, p.from)
  }

  /** The step of this server's own tables, where it is one of FollowState's. */
  function HomeStep(step: Step): Option<F.Step> {
    match step
    case Elsewhere(s) => Some(s)
    case BlockedHere(p, block) => Some(F.Blocked(Back(p), block))
    case LiftedHere(p) => Some(F.Lifted(Back(p)))
    case _ => None
  }

  function PeerStep(step: Step): Option<F.Step> {
    match step
    case BlockedThere(p, block) => Some(F.Blocked(Back(p), block))
    case LiftedThere(p) => Some(F.Lifted(Back(p)))
    case _ => None
  }

  /** The pairs that cross: follower here, followee on the peer. */
  ghost predicate Crosses(sys: System, p: Pair) {
    Local(sys.home, p.from) && !Local(sys.home, p.to) && Identifiers.ServerOf(p.to) == Some(sys.peer.self)
  }

  ghost predicate Possible(sys: System, step: Step) {
    var q := sys.home.queue;
    match step
    case Unfollow(p, cert) => Crosses(sys, p) && !cert.follow
    case Follow(p, cert, direct) => Crosses(sys, p) && cert.follow
    case Read(p) => sys.phase.Idle? && Crosses(sys, p) && RowFor(FollowEvent, p) in q.rows
    case Build => sys.phase.HasRead?
    case Call(outcome) => sys.phase.HasBuilt?
    case Undo => sys.phase.Refusing?
    case Settle => sys.phase.Settling?
    case Drop => sys.phase.Dropping?
    case OtherEvent(key) => !key.kind.FollowEvent?
    case OtherSettled(id) =>
      forall k :: k in q.rows && q.rows[k] == id ==> !k.kind.FollowEvent? || k.server != sys.peer.self
    case UndoFails => sys.phase.Refusing?
    case Elsewhere(step) =>
      && F.Possible(Servers(sys.home), step)
      && F.PairOf(step).Some? && !Crosses(sys, F.PairOf(step).value)
    case _ => true
  }

  predicate Reaches(outcome: Outcome) {
    outcome.Taken? || outcome.TakenButLost?
  }

  function PeerAfterCall(peer: Store, p: Pair, cert: FollowCert, outcome: Outcome): Store {
    if Reaches(outcome) then SaveFollowCert(peer, p, cert, true).0 else peer
  }

  predicate SignedAfter(sys: System, p: Pair, cert: FollowCert) {
    p in sys.lastSigned ==> cert.at > sys.lastSigned[p]
  }

  /** Countersigned here: sent or not, it is saved, and owed unless the peer
      just took it. */
  function Sign(sys: System, p: Pair, cert: FollowCert, outcome: Outcome): System {
    sys.(home := SaveFollowCert(sys.home, p, cert, !outcome.Taken?).0,
         peer := PeerAfterCall(sys.peer, p, cert, outcome),
         unsure := if outcome.Taken? then sys.unsure - {p} else sys.unsure,
         lastSigned := if SignedAfter(sys, p, cert) then sys.lastSigned[p := cert.at] else sys.lastSigned,
         tied := if SignedAfter(sys, p, cert) then sys.tied - {p} else sys.tied + {p})
  }

  function Next(sys: System, step: Step): System {
    match step
    case Unfollow(p, cert) => Sign(sys, p, cert, NotTaken)
    case Follow(p, cert, direct) => if direct.Refused? then sys else Sign(sys, p, cert, direct)
    case Read(p) =>
      var key := RowFor(FollowEvent, p);
      if key in sys.home.queue.rows then sys.(phase := HasRead(p, sys.home.queue.rows[key])) else sys
    case Build =>
      if !sys.phase.HasRead? then sys
      else
        var HasRead(p, id) := sys.phase;
        sys.(phase := match Held(sys.home.follows, p)
                      case Some(cert) => HasBuilt(p, id, cert)
                      case None => Settling(p, id, false))
    case Call(outcome) =>
      if !sys.phase.HasBuilt? then sys
      else
        var HasBuilt(p, id, cert) := sys.phase;
        sys.(peer := PeerAfterCall(sys.peer, p, cert, outcome),
             unsure := if outcome.Taken? && Held(sys.home.follows, p) == Some(cert) then sys.unsure - {p}
                       else if outcome.Refused? || outcome.Redirected? then sys.unsure + {p}
                       else sys.unsure,
             phase := match outcome
                      case Taken => Settling(p, id, true)
                      case Redirected => Settling(p, id, true)
                      case Refused => Refusing(p, id, cert)
                      case _ => Idle)
    case Undo =>
      if !sys.phase.Refusing? then sys
      else
        var Refusing(p, id, cert) := sys.phase;
        sys.(home := if cert.follow then UndoRefusedFollow(sys.home, p, cert.at) else sys.home,
             phase := Settling(p, id, true))
    case Settle =>
      if !sys.phase.Settling? then sys
      else sys.(home := sys.home.(queue := WithoutId(sys.home.queue, sys.phase.id)),
                phase := if sys.phase.sent then Dropping(sys.phase.p) else Idle)
    case Drop =>
      if sys.phase.Dropping? then sys.(home := DropSettledUnfollow(sys.home, sys.phase.p), phase := Idle) else sys
    case Stop => sys.(phase := Idle)
    case PeerAcked(p, follow) => sys.(peer := AckFollowEvent(sys.peer, p, follow))
    case BlockedHere(p, block) =>
      sys.(home := F.Next(Servers(sys.home), F.Blocked(Back(p), block)).store,
           unsure := if Back(p) in sys.home.blocks then sys.unsure else sys.unsure + {p})
    case BlockedThere(p, block) =>
      sys.(peer := F.Next(Servers(sys.peer), F.Blocked(Back(p), block)).store,
           unsure := if Back(p) in sys.peer.blocks then sys.unsure else sys.unsure + {p})
    case LiftedHere(p) => sys.(home := F.Next(Servers(sys.home), F.Lifted(Back(p))).store)
    case LiftedThere(p) => sys.(peer := F.Next(Servers(sys.peer), F.Lifted(Back(p))).store)
    case OtherEvent(key) => sys.(home := sys.home.(queue := EnqueueFor(sys.home.queue, sys.home.mesh, key)))
    case OtherSettled(id) => sys.(home := sys.home.(queue := WithoutId(sys.home.queue, id)))
    case UndoFails =>
      if sys.phase.Refusing? then sys.(phase := Settling(sys.phase.p, sys.phase.id, true)) else sys
    case Elsewhere(step) => sys.(home := F.Next(Servers(sys.home), step).store)
  }

  function Run(sys: System, steps: seq<Step>): System
    decreases |steps|
  {
    if steps == [] then sys else Run(Next(sys, steps[0]), steps[1..])
  }

  ghost predicate PossibleRun(sys: System, steps: seq<Step>)
    decreases |steps|
  {
    steps == [] || (Possible(sys, steps[0]) && PossibleRun(Next(sys, steps[0]), steps[1..]))
  }

  ghost predicate Initial(sys: System) {
    && sys.home == EmptyStore(sys.home.self, sys.home.mesh) && sys.peer == EmptyStore(sys.peer.self, sys.peer.mesh)
    && sys.phase.Idle? && sys.unsure == {} && sys.lastSigned == map[] && sys.tied == {}
    && Takes(sys.home.mesh, sys.peer.self)
  }

  // ---- one pair's part of the system ----

  datatype Drain =
    | Away
    | Reading(id: nat)
    | Sending(id: nat, cert: FollowCert)
    | Undoing(id: nat, cert: FollowCert)
    | Done(id: nat)

  datatype View = View(home: F.View, peer: F.View, drain: Drain, unsure: bool, signed: Option<int>, tied: bool)

  function DrainAt(phase: Phase, p: Pair): Drain {
    match phase
    case Idle => Away
    case HasRead(q, id) => if q == p then Reading(id) else Away
    case HasBuilt(q, id, cert) => if q == p then Sending(id, cert) else Away
    case Refusing(q, id, cert) => if q == p then Undoing(id, cert) else Away
    case Settling(q, id, sent) => if q == p then Done(id) else Away
    case Dropping(q) => Away
  }

  function ViewOf(sys: System, p: Pair): View {
    View(F.ViewOf(sys.home, p), F.ViewOf(sys.peer, p), DrainAt(sys.phase, p), p in sys.unsure,
         if p in sys.lastSigned then Some(sys.lastSigned[p]) else None, p in sys.tied)
  }

  function PeerViewAfter(peer: F.View, cert: FollowCert, outcome: Outcome): F.View {
    if Reaches(outcome) then F.Saved(peer, cert, true, F.Client, 0) else peer
  }

  function SignOnView(v: View, cert: FollowCert, outcome: Outcome, next: nat): View {
    v.(home := F.Saved(v.home, cert, !outcome.Taken?, F.Home, next),
       peer := PeerViewAfter(v.peer, cert, outcome),
       unsure := v.unsure && !outcome.Taken?,
       signed := if v.signed.Some? && cert.at <= v.signed.value then v.signed else Some(cert.at),
       tied := v.signed.Some? && cert.at <= v.signed.value)
  }

  function Undone(v: F.View, at: int): F.View {
    if v.cert.Some? && v.cert.value.follow && v.cert.value.at == at then v.(cert := None, client := false) else v
  }

  function Acked(v: F.View, follow: bool): F.View {
    F.Drop(if v.cert.Some? && v.cert.value.follow == follow then v.(client := false) else v)
  }

  /** What a step of its own does to one pair's part. */
  function ViewStep(v: View, step: Step, next: nat): View {
    match step
    case Unfollow(_, cert) => SignOnView(v, cert, NotTaken, next)
    case Follow(_, cert, direct) => if direct.Refused? then v else SignOnView(v, cert, direct, next)
    case Read(_) => if v.home.row.Some? then v.(drain := Reading(v.home.row.value)) else v
    case Build =>
      if !v.drain.Reading? then v
      else v.(drain := match v.home.cert case Some(cert) => Sending(v.drain.id, cert) case None => Done(v.drain.id))
    case Call(outcome) =>
      if !v.drain.Sending? then v
      else
        var Sending(id, cert) := v.drain;
        v.(peer := PeerViewAfter(v.peer, cert, outcome),
           unsure := if outcome.Taken? && v.home.cert == Some(cert) then false
                     else v.unsure || outcome.Refused? || outcome.Redirected?,
           drain := match outcome
                    case Taken => Done(id)
                    case Redirected => Done(id)
                    case Refused => Undoing(id, cert)
                    case _ => Away)
    case Undo =>
      if !v.drain.Undoing? then v
      else v.(home := if v.drain.cert.follow then Undone(v.home, v.drain.cert.at) else v.home,
              drain := Done(v.drain.id))
    case Settle =>
      if !v.drain.Done? then v
      else v.(home := if v.home.row == Some(v.drain.id) then v.home.(row := None) else v.home, drain := Away)
    case Drop => v.(home := F.Drop(v.home))
    case Stop => v.(drain := Away)
    case PeerAcked(_, follow) => v.(peer := Acked(v.peer, follow))
    case BlockedHere(_, _) => v.(home := v.home.(cert := None, client := false), unsure := true)
    case BlockedThere(_, _) => v.(peer := v.peer.(cert := None, client := false), unsure := true)
    case OtherEvent(_) => v
    case OtherSettled(_) => v
    case LiftedHere(_) => v
    case LiftedThere(_) => v
    case UndoFails => if v.drain.Undoing? then v.(drain := Done(v.drain.id)) else v
    case Elsewhere(_) => v
  }

  /** Whether a step is about p, and not another pair. */
  predicate About(sys: System, step: Step, p: Pair) {
    match step
    case Unfollow(q, _) => q == p
    case Follow(q, _, _) => q == p
    case Read(q) => q == p
    case PeerAcked(q, _) => q == p
    case BlockedHere(q, _) => q == p && Back(q) !in sys.home.blocks
    case BlockedThere(q, _) => q == p && Back(q) !in sys.peer.blocks
    case LiftedHere(_) => false
    case LiftedThere(_) => false
    case OtherEvent(_) => false
    case OtherSettled(_) => false
    case Elsewhere(_) => false
    case Stop => true
    case _ => !sys.phase.Idle? && sys.phase.p == p
  }

  function Servers(s: Store): F.Server {
    F.Server(s, {})
  }

  /** Both queues are sound, the peer a peer, and the id the drain read is no
      other pair's. */
  ghost predicate Sound(sys: System) {
    && F.Sound(Servers(sys.home)) && F.Sound(Servers(sys.peer)) && Takes(sys.home.mesh, sys.peer.self)
    && (!sys.phase.Idle? ==> Crosses(sys, sys.phase.p))
    && IdOk(sys.home.queue, sys.phase)
  }

  ghost predicate IdOk(q: Queue, phase: Phase) {
    !phase.Idle? && !phase.Dropping? ==>
      && phase.id < q.next
      && forall k :: k in q.rows && q.rows[k] == phase.id ==> k == RowFor(FollowEvent, phase.p)
  }

  lemma CrossingRows(sys: System, p: Pair)
    requires Sound(sys) && Crosses(sys, p)
    ensures F.FolloweeOf(sys.home, p).Home? && F.FolloweeOf(sys.peer, p).Client?
  {}

  /** What signing and the calls do to both stores, as one pair sees it. */
  lemma SignsOnView(sys: System, p: Pair, cert: FollowCert, outcome: Outcome, q: Pair)
    requires Sound(sys) && Crosses(sys, p)
    ensures ViewOf(Sign(sys, p, cert, outcome), q)
            == if q == p then SignOnView(ViewOf(sys, p), cert, outcome, sys.home.queue.next) else ViewOf(sys, q)
  {
    hide Identifiers.ServerOf, RowFor, F.Sound, SaveFollowCert;
    F.SaveOnView(Servers(sys.home), p, cert, !outcome.Taken?, q);
    CallsOnView(sys, p, cert, outcome, q);
    CrossingRows(sys, p);
  }

  lemma CallsOnView(sys: System, p: Pair, cert: FollowCert, outcome: Outcome, q: Pair)
    requires Sound(sys) && Crosses(sys, p)
    ensures F.ViewOf(PeerAfterCall(sys.peer, p, cert, outcome), q)
            == if q == p then PeerViewAfter(F.ViewOf(sys.peer, p), cert, outcome) else F.ViewOf(sys.peer, q)
  {
    hide Identifiers.ServerOf, RowFor, F.Sound, SaveFollowCert;
    F.SaveOnView(Servers(sys.peer), p, cert, true, q);
    CrossingRows(sys, p);
  }

  lemma BlocksOnView(sys: System, step: Step, p: Pair)
    requires Sound(sys) && Possible(sys, step) && Crosses(sys, p)
    requires step.BlockedHere? || step.BlockedThere? || step.LiftedHere? || step.LiftedThere?
    ensures ViewOf(Next(sys, step), p)
            == if About(sys, step, p) then ViewStep(ViewOf(sys, p), step, sys.home.queue.next) else ViewOf(sys, p)
  {
    hide Identifiers.ServerOf, RowFor, Sound, InsertBlock, DeleteBlock, Crosses, EnqueueFor, WithoutId, Sign;
    match step
    case BlockedHere(q, block) => F.BlockOnView(sys.home, Back(q), block, p);
    case BlockedThere(q, block) => F.BlockOnView(sys.peer, Back(q), block, p);
    case LiftedHere(q) => F.LiftOnView(sys.home, Back(q), p);
    case LiftedThere(q) => F.LiftOnView(sys.peer, Back(q), p);
  }

  /** A step changes each crossing pair's part as ViewStep says. */
  lemma StepOnView(sys: System, step: Step, p: Pair)
    requires Sound(sys) && Possible(sys, step) && Crosses(sys, p)
    ensures ViewOf(Next(sys, step), p)
            == if About(sys, step, p) then ViewStep(ViewOf(sys, p), step, sys.home.queue.next) else ViewOf(sys, p)
  {
    if step.Unfollow? || step.Follow? || step.Call? { SendsOnView(sys, step, p); }
    else if step.Settle? || step.OtherSettled? || step.OtherEvent? { QueueOnView(sys, step, p); }
    else if step.Undo? || step.Drop? || step.PeerAcked? {
      StoreOnView(sys, step, p);
    }
    else if step.BlockedHere? || step.BlockedThere? || step.LiftedHere? || step.LiftedThere? {
      BlocksOnView(sys, step, p);
    }
    else if step.Elsewhere? { F.OtherPairKept(Servers(sys.home), step.step, p); }
    else { QuietOnView(sys, step, p); }
  }

  lemma SendsOnView(sys: System, step: Step, p: Pair)
    requires Sound(sys) && Possible(sys, step) && Crosses(sys, p) && (step.Unfollow? || step.Follow? || step.Call?)
    ensures ViewOf(Next(sys, step), p)
            == if About(sys, step, p) then ViewStep(ViewOf(sys, p), step, sys.home.queue.next) else ViewOf(sys, p)
  {
    hide Identifiers.ServerOf, RowFor, F.Sound, SaveFollowCert, SignOnView, PeerAfterCall, Sign, PeerViewAfter;
    match step
    case Unfollow(q, cert) => SignsOnView(sys, q, cert, NotTaken, p);
    case Follow(q, cert, direct) => SignsOnView(sys, q, cert, direct, p);
    case Call(outcome) => CallsOnView(sys, sys.phase.p, sys.phase.cert, outcome, p);
  }

  lemma CrossingServer(sys: System, p: Pair)
    requires Crosses(sys, p)
    ensures RowFor(FollowEvent, p).server == sys.peer.self
  {}

  lemma QueueOnView(sys: System, step: Step, p: Pair)
    requires Sound(sys) && Possible(sys, step) && Crosses(sys, p)
             && (step.Settle? || step.OtherSettled? || step.OtherEvent?)
    ensures ViewOf(Next(sys, step), p)
            == if About(sys, step, p) then ViewStep(ViewOf(sys, p), step, sys.home.queue.next) else ViewOf(sys, p)
  {
    hide Identifiers.ServerOf, RowFor, F.Sound, WithoutId;
    F.RowForIsItsOwn(p);
    match step
    case Settle =>
      F.SettleOnView(Servers(sys.home), sys.phase.id, p);
      F.RowsArePairs(sys.phase.p, p);
    case OtherSettled(id) =>
      F.SettleOnView(Servers(sys.home), id, p);
      CrossingServer(sys, p);
    case OtherEvent(key) =>
  }

  lemma StoreOnView(sys: System, step: Step, p: Pair)
    requires Sound(sys) && Possible(sys, step) && Crosses(sys, p)
    requires step.Undo? || step.Drop? || step.PeerAcked?
    ensures ViewOf(Next(sys, step), p)
            == if About(sys, step, p) then ViewStep(ViewOf(sys, p), step, sys.home.queue.next) else ViewOf(sys, p)
  {
    hide Identifiers.ServerOf, RowFor, F.Sound, UndoRefusedFollow, DropSettledUnfollow, AckFollowEvent;
    match step
    case Undo => F.UndoOnView(sys.home, sys.phase.p, sys.phase.cert.at, p);
    case Drop => F.DropOnView(Servers(sys.home), sys.phase.p, p);
    case PeerAcked(q, follow) => F.AckOnView(Servers(sys.peer), q, follow, p);
  }

  lemma QuietOnView(sys: System, step: Step, p: Pair)
    requires Sound(sys) && Possible(sys, step) && Crosses(sys, p)
    requires step.Read? || step.Build? || step.Stop? || step.UndoFails?
    ensures ViewOf(Next(sys, step), p)
            == if About(sys, step, p) then ViewStep(ViewOf(sys, p), step, sys.home.queue.next) else ViewOf(sys, p)
  {
    hide Identifiers.ServerOf, RowFor, F.Sound;
  }

  // ---- soundness ----

  predicate TouchesQueue(step: Step) {
    || step.Unfollow? || step.Follow? || step.OtherEvent? || step.OtherSettled? || step.Settle?
    || HomeStep(step).Some?
  }

  /** What a step does to both servers' queues, and to nobody's identity. */
  ghost predicate QueuesAfter(sys: System, step: Step, after: System) {
    var q := sys.home.queue;
    && after.home.self == sys.home.self && after.home.mesh == sys.home.mesh && after.peer.self == sys.peer.self
    && after.peer.mesh == sys.peer.mesh && (PeerStep(step).None? ==> after.peer.queue == sys.peer.queue)
    && (step.Unfollow? || step.Follow? ==>
          after.home.queue == q || after.home.queue == ToTheBack(q, RowFor(FollowEvent, step.p)))
    && (step.OtherEvent? ==> after.home.queue == EnqueueFor(q, sys.home.mesh, step.key))
    && (step.OtherSettled? ==> after.home.queue == WithoutId(q, step.id))
    && (step.Settle? && sys.phase.Settling? ==> after.home.queue == WithoutId(q, sys.phase.id))
    && (HomeStep(step).Some? ==> after.home.queue == F.QueueAfter(Servers(sys.home), HomeStep(step).value))
    && (!TouchesQueue(step) ==> after.home.queue == q)
  }

  lemma SendQueues(sys: System, step: Step)
    requires Sound(sys) && Possible(sys, step) && (step.Unfollow? || step.Follow? || step.Call?)
    ensures QueuesAfter(sys, step, Next(sys, step))
  {
    hide Identifiers.ServerOf, RowFor, F.Sound, SaveFollowCert, OwedToPeer, WithoutId;
    if step.Call? {
      CrossingRows(sys, sys.phase.p);
      F.SaveOnQueue(sys.peer, sys.phase.p, sys.phase.cert, true);
    } else {
      CrossingRows(sys, step.p);
      F.SaveOnQueue(sys.home, step.p, step.cert, true);
      F.SaveOnQueue(sys.home, step.p, step.cert, false);
      F.SaveOnQueue(sys.peer, step.p, step.cert, true);
    }
  }

  lemma TableQueues(sys: System, step: Step)
    requires HomeStep(step).Some? || PeerStep(step).Some?
    ensures QueuesAfter(sys, step, Next(sys, step))
  {
    hide F.QueueAfter, F.Next;
    if HomeStep(step).Some? { F.StepOnQueue(Servers(sys.home), HomeStep(step).value); }
    if PeerStep(step).Some? { F.StepOnQueue(Servers(sys.peer), PeerStep(step).value); }
  }

  lemma HomeQueueAfter(sys: System, step: Step)
    requires Sound(sys) && Possible(sys, step)
    ensures QueuesAfter(sys, step, Next(sys, step))
  {
    if step.Unfollow? || step.Follow? || step.Call? { SendQueues(sys, step); }
    else if HomeStep(step).Some? || PeerStep(step).Some? { TableQueues(sys, step); }
    else { hide Identifiers.ServerOf, RowFor, F.Sound, OwedToPeer, WithoutId, EnqueueFor, F.Next; }
  }

  lemma QueueKeepsSound(s: Store, queue: Queue, after: Store)
    requires F.Sound(Servers(s.(queue := queue))) && after.queue == queue && after.self == s.self
             && after.mesh == s.mesh
    ensures F.Sound(Servers(after))
  {}

  lemma HomeStaysSound(sys: System, step: Step)
    requires Sound(sys) && Possible(sys, step)
    ensures F.Sound(Servers(Next(sys, step).home)) && F.Sound(Servers(Next(sys, step).peer))
  {
    hide Identifiers.ServerOf, RowFor, F.Sound, Next, WithoutId, EnqueueFor;
    HomeQueueAfter(sys, step);
    if PeerStep(step).Some? {
      F.StepStaysSound(Servers(sys.peer), PeerStep(step).value);
      ElsewhereIsThat(sys, step);
      var there := F.Next(Servers(sys.peer), PeerStep(step).value).store;
      QueueKeepsSound(there, there.queue, Next(sys, step).peer);
    } else {
      QueueKeepsSound(sys.peer, sys.peer.queue, Next(sys, step).peer);
    }
    var v := Servers(sys.home);
    if step.Unfollow? || step.Follow? {
      CrossingRows(sys, step.p);
      F.RowForIsItsOwn(step.p);
      F.ForeignRow(sys.home, step.p);
      BackIsEnqueue(sys, step.p);
      F.EnqueueSound(v, RowFor(FollowEvent, step.p));
    } else if step.OtherEvent? {
      F.EnqueueSound(v, step.key);
    } else if step.OtherSettled? {
      F.SettleSound(v, step.id);
    } else if step.Settle? {
      F.SettleSound(v, sys.phase.id);
    } else if HomeStep(step).Some? {
      F.StepStaysSound(v, HomeStep(step).value);
      ElsewhereIsThat(sys, step);
      var here := F.Next(v, HomeStep(step).value).store;
      QueueKeepsSound(here, here.queue, Next(sys, step).home);
    }
    QueueKeepsSound(sys.home, Next(sys, step).home.queue, Next(sys, step).home);
  }

  lemma ElsewhereIsThat(sys: System, step: Step)
    ensures HomeStep(step).Some? ==> Next(sys, step).home == F.Next(Servers(sys.home), HomeStep(step).value).store
    ensures PeerStep(step).Some? ==> Next(sys, step).peer == F.Next(Servers(sys.peer), PeerStep(step).value).store
  {
    hide F.Next;
  }

  lemma BackIsEnqueue(sys: System, p: Pair)
    requires Sound(sys) && Crosses(sys, p)
    ensures EnqueueFor(sys.home.queue, sys.home.mesh, RowFor(FollowEvent, p))
            == ToTheBack(sys.home.queue, RowFor(FollowEvent, p))
  {
    hide Identifiers.ServerOf, F.Sound;
  }

  lemma IdKept(q: Queue, mesh: Mesh, phase: Phase, key: Key)
    requires IdOk(q, phase)
    ensures IdOk(ToTheBack(q, key), phase) && IdOk(EnqueueFor(q, mesh, key), phase)
    ensures forall id {:trigger WithoutId(q, id)} :: IdOk(WithoutId(q, id), phase)
  {
    hide RowFor;
  }

  lemma ElsewhereKeepsIds(s: Store, phase: Phase, step: F.Step)
    ensures var after := F.QueueAfter(Servers(s), step);
            s.queue.next <= after.next && (IdOk(s.queue, phase) ==> IdOk(after, phase))
  {
    hide RowFor, Identifiers.ServerOf;
  }

  /** The drain stays at the row it read, if it stays. */
  lemma PhaseAfter(sys: System, step: Step)
    requires Sound(sys) && Possible(sys, step)
    ensures var now := Next(sys, step).phase;
            || now.Idle? || now.Dropping?
            || (!sys.phase.Idle? && !sys.phase.Dropping? && now.id == sys.phase.id && now.p == sys.phase.p)
            || (step.Read? && now.p == step.p && RowFor(FollowEvent, step.p) in sys.home.queue.rows
                  && now.id == sys.home.queue.rows[RowFor(FollowEvent, step.p)])
    ensures var now := Next(sys, step).phase;
            now.Idle? || Crosses(sys, now.p)
  {
    hide Identifiers.ServerOf, RowFor, F.Sound, SaveFollowCert, UndoRefusedFollow, DropSettledUnfollow,
         AckFollowEvent, ForgetFollow, IdOk;
  }

  lemma ReadIdOk(s: Store, phase: Phase)
    requires F.Sound(Servers(s)) && phase.HasRead? && RowFor(FollowEvent, phase.p) in s.queue.rows
    requires phase.id == s.queue.rows[RowFor(FollowEvent, phase.p)]
    ensures IdOk(s.queue, phase)
  {
    hide RowFor;
  }

  lemma StepStaysSound(sys: System, step: Step)
    requires Sound(sys) && Possible(sys, step)
    ensures Sound(Next(sys, step)) && forall p :: Crosses(Next(sys, step), p) ==> Crosses(sys, p)
    ensures sys.home.queue.next <= Next(sys, step).home.queue.next
  {
    HomeStaysSound(sys, step);
    HomeQueueAfter(sys, step);
    IdsStayOk(sys, step);
    PhaseAfter(sys, step);
    SameServers(sys, Next(sys, step));
    hide Next, F.Sound, Possible, IdOk, Crosses;
  }

  lemma SameServers(sys: System, after: System)
    requires after.home.self == sys.home.self && after.peer.self == sys.peer.self
    ensures forall p :: Crosses(after, p) <==> Crosses(sys, p)
  {}

  /** The id the drain read stays its own pair's, and ids only grow. */
  lemma IdsStayOk(sys: System, step: Step)
    requires Sound(sys) && Possible(sys, step)
    ensures IdOk(Next(sys, step).home.queue, Next(sys, step).phase)
    ensures sys.home.queue.next <= Next(sys, step).home.queue.next
  {
    HomeQueueAfter(sys, step);
    PhaseAfter(sys, step);
    assert step.Read? ==> Next(sys, step).phase.HasRead?;
    var now := Next(sys, step);
    if HomeStep(step).Some? { ElsewhereKeepsIds(sys.home, now.phase, HomeStep(step).value); }
    assert step.Settle? ==> sys.phase.Settling?;
    hide Next, RowFor, F.Sound, F.QueueAfter, Crosses, WithoutId, Possible, HomeStep, PeerStep;
    if step.Read? {
      ReadIdOk(sys.home, now.phase);
    } else {
      SamePhaseOk(sys.home.queue, sys.phase, now.phase);
      IdKept(sys.home.queue, sys.home.mesh, now.phase,
             if step.OtherEvent? then step.key else if step.Unfollow? || step.Follow? then RowFor(FollowEvent, step.p)
             else RowFor(FollowEvent, Pair("", "")));
      WithoutIdKeepsNext(sys.home.queue);
    }
  }

  lemma WithoutIdKeepsNext(q: Queue)
    ensures forall id {:trigger WithoutId(q, id)} :: WithoutId(q, id).next == q.next
  {}

  lemma SamePhaseOk(q: Queue, was: Phase, now: Phase)
    requires IdOk(q, was)
    requires now.Idle? || now.Dropping? || (!was.Idle? && !was.Dropping? && now.id == was.id && now.p == was.p)
    ensures IdOk(q, now)
  {}

  // ---- what every run keeps ----

  function Followed(v: F.View): bool {
    v.cert.Some? && v.cert.value.follow
  }

  predicate Agree(v: View) {
    Followed(v.home) <==> Followed(v.peer)
  }

  predicate SignedBy(a: Option<FollowCert>, last: Option<int>) {
    a.Some? ==> last.Some? && a.value.at <= last.value
  }

  function InFlight(v: View): Option<FollowCert> {
    if v.drain.Sending? || v.drain.Undoing? then Some(v.drain.cert) else None
  }

  /** Nothing is stamped later than the pair's latest stamp. */
  predicate StampsOk(v: View) {
    SignedBy(v.home.cert, v.signed) && SignedBy(v.peer.cert, v.signed) && SignedBy(InFlight(v), v.signed)
  }

  predicate Latest(a: Option<FollowCert>, v: View) {
    a.Some? && v.signed == Some(a.value.at)
  }

  /** Only one certificate has the latest stamp, and only it is held here. */
  predicate LatestOnce(v: View) {
    && (v.home.cert.Some? ==> Latest(v.home.cert, v))
    && (v.home.cert.Some? && Latest(v.peer.cert, v) ==> v.peer.cert == v.home.cert)
    && (v.home.cert.Some? && Latest(InFlight(v), v) ==> InFlight(v) == v.home.cert)
    && (Latest(InFlight(v), v) && Latest(v.peer.cert, v) ==> InFlight(v) == v.peer.cert)
  }

  /** A call about the row as it is sends what is held, or what was before the
      peer took a follow straight from here. */
  predicate SendsHeld(v: View) {
    v.home.cert.Some? && (v.home.cert == InFlight(v) || (v.home.cert.value.follow && v.peer.cert == v.home.cert))
  }

  /** While the peer's last answers were 2xx: it agrees unless it is owed, and
      also once the drain is done with the row as it is. */
  predicate Settled(v: View) {
    && (v.home.row.None? ==> Agree(v))
    && (v.home.row.Some? ==> v.home.cert.Some?)
    && (v.drain.Sending? && v.home.row == Some(v.drain.id) ==> SendsHeld(v))
    && (v.drain.Undoing? && v.home.row == Some(v.drain.id) ==> Agree(v))
    && (v.drain.Undoing? && v.home.cert.Some? ==> v.home.cert.value.at != v.drain.cert.at)
    && (v.drain.Done? && v.home.row == Some(v.drain.id) ==> Agree(v))
  }

  predicate RowsOk(v: View, next: nat) {
    && (v.home.row.Some? ==> v.home.row.value < next)
    && (v.drain != Away ==> v.home.row.Some? && v.drain.id <= v.home.row.value)
  }

  predicate PairInv(v: View, next: nat) {
    RowsOk(v, next) && StampsOk(v) && (!v.tied ==> LatestOnce(v) && (!v.unsure ==> Settled(v)))
  }

  /** What the system is like when a step is taken. */
  predicate Apt(v: View, step: Step, next: nat, next': nat) {
    && next <= next' && (ViewStep(v, step, next).home.row == Some(next) ==> next < next')
    && (step.Read? || step.Drop? ==> v.drain == Away)
    && (step.Unfollow? ==> !step.cert.follow) && (step.Follow? ==> step.cert.follow)
  }

  lemma StepKeepsStamps(v: View, step: Step, next: nat)
    requires StampsOk(v)
    ensures StampsOk(ViewStep(v, step, next))
  {}

  lemma StepKeepsLatest(v: View, step: Step, next: nat)
    requires StampsOk(v) && (!v.tied ==> LatestOnce(v))
    ensures var now := ViewStep(v, step, next); now.tied || LatestOnce(now)
  {}

  lemma StepSettles(v: View, step: Step, next: nat, next': nat)
    requires RowsOk(v, next) && Apt(v, step, next, next') && StampsOk(v)
    requires !v.tied ==> LatestOnce(v) && (!v.unsure ==> Settled(v))
    ensures var now := ViewStep(v, step, next); now.tied || now.unsure || Settled(now)
  {}

  lemma StepKeepsPairInv(v: View, step: Step, next: nat, next': nat)
    requires PairInv(v, next) && Apt(v, step, next, next')
    ensures PairInv(ViewStep(v, step, next), next')
  {
    hide StampsOk, Settled, LatestOnce;
    StepKeepsStamps(v, step, next);
    StepKeepsLatest(v, step, next);
    StepSettles(v, step, next, next');
  }

  ghost predicate Inv(sys: System) {
    && Sound(sys)
    && forall p {:trigger ViewOf(sys, p)} :: Crosses(sys, p) ==> PairInv(ViewOf(sys, p), sys.home.queue.next)
  }

  /** The row a step moves to the back takes the next id. */
  lemma FreshIdsGrow(sys: System, step: Step, p: Pair)
    requires Inv(sys) && Possible(sys, step) && Crosses(sys, p)
    requires ViewOf(Next(sys, step), p).home.row == Some(sys.home.queue.next)
    ensures sys.home.queue.next < Next(sys, step).home.queue.next
  {
    hide Next;
    StepStaysSound(sys, step);
    assert Valid(Next(sys, step).home.queue);
  }

  lemma StepKeepsPair(sys: System, step: Step, p: Pair)
    requires Inv(sys) && Possible(sys, step) && Crosses(sys, p)
    ensures PairInv(ViewOf(Next(sys, step), p), Next(sys, step).home.queue.next)
  {
    hide Sound, Next, PairInv, ViewStep, F.ViewOf, Crosses, RowFor;
    StepStaysSound(sys, step);
    StepOnView(sys, step, p);
    var v, next, next' := ViewOf(sys, p), sys.home.queue.next, Next(sys, step).home.queue.next;
    assert PairInv(v, next);
    if About(sys, step, p) {
      if ViewStep(v, step, next).home.row == Some(next) { FreshIdsGrow(sys, step, p); }
      StepKeepsPairInv(v, step, next, next');
    } else {
      LaterIdsKeep(v, next, next');
    }
  }

  lemma LaterIdsKeep(v: View, next: nat, next': nat)
    requires PairInv(v, next) && next <= next'
    ensures PairInv(v, next')
  {}

  lemma StepKeepsInv(sys: System, step: Step)
    requires Inv(sys) && Possible(sys, step)
    ensures Inv(Next(sys, step))
  {
    hide Sound, Next, PairInv, ViewOf, Crosses;
    StepStaysSound(sys, step);
    forall p | Crosses(Next(sys, step), p)
        ensures PairInv(ViewOf(Next(sys, step), p), Next(sys, step).home.queue.next) {
      StepKeepsPair(sys, step, p);
    }
  }

  lemma {:induction false} RunKeepsInv(sys: System, steps: seq<Step>)
    requires Inv(sys) && PossibleRun(sys, steps)
    ensures Inv(Run(sys, steps))
    decreases |steps|
  {
    if steps != [] {
      StepKeepsInv(sys, steps[0]);
      RunKeepsInv(Next(sys, steps[0]), steps[1..]);
    }
  }

  lemma InitialInv(sys: System)
    requires Initial(sys)
    ensures Inv(sys)
  {}

  ghost predicate Reachable(sys: System) {
    exists start, steps :: Initial(start) && PossibleRun(start, steps) && sys == Run(start, steps)
  }

  lemma ReachableInv(sys: System)
    requires Reachable(sys)
    ensures Inv(sys)
  {
    var start, steps :| Initial(start) && PossibleRun(start, steps) && sys == Run(start, steps);
    InitialInv(start);
    RunKeepsInv(start, steps);
  }

  /** Whether p's event is still to be sent. */
  predicate Owed(sys: System, p: Pair) {
    RowFor(FollowEvent, p) in sys.home.queue.rows
  }

  /** The follower's edge here and the followee's there. */
  predicate EdgesAgree(sys: System, p: Pair) {
    p in sys.home.following <==> p in sys.peer.followers
  }

  // ---- edges ----

  lemma StepKeepsEdges(sys: System, step: Step, p: Pair)
    requires Crosses(sys, p) && F.EdgesOf(sys.home, p) && F.EdgesOf(sys.peer, p)
    ensures F.EdgesOf(Next(sys, step).home, p) && F.EdgesOf(Next(sys, step).peer, p)
  {
    hide F.EdgesOf, Identifiers.ServerOf, RowFor, SaveFollowCert, UndoRefusedFollow, AckFollowEvent, ForgetFollow,
         DropSettledUnfollow, WithoutId, EnqueueFor;
    match step
    case Unfollow(q, cert) => F.SaveKeepsEdges(sys.home, q, cert, true, p);
    case Follow(q, cert, direct) =>
      F.SaveKeepsEdges(sys.home, q, cert, !direct.Taken?, p);
      F.SaveKeepsEdges(sys.peer, q, cert, true, p);
    case Call(outcome) => if sys.phase.HasBuilt? { F.SaveKeepsEdges(sys.peer, sys.phase.p, sys.phase.cert, true, p); }
    case Undo => if sys.phase.Refusing? { F.UndoKeepsEdges(sys.home, sys.phase.p, sys.phase.cert.at, p); }
    case Settle => if sys.phase.Settling? { F.QueueKeepsEdges(sys.home, WithoutId(sys.home.queue, sys.phase.id), p); }
    case Drop => if sys.phase.Dropping? { F.DropKeepsEdges(sys.home, sys.phase.p, p); }
    case PeerAcked(q, follow) => F.AckKeepsEdges(sys.peer, q, follow, p);
    case BlockedHere(q, block) => F.StepKeepsEdges(Servers(sys.home), F.Blocked(Back(q), block), p);
    case BlockedThere(q, block) => F.StepKeepsEdges(Servers(sys.peer), F.Blocked(Back(q), block), p);
    case LiftedHere(q) => F.StepKeepsEdges(Servers(sys.home), F.Lifted(Back(q)), p);
    case LiftedThere(q) => F.StepKeepsEdges(Servers(sys.peer), F.Lifted(Back(q)), p);
    case OtherEvent(key) => F.QueueKeepsEdges(sys.home, EnqueueFor(sys.home.queue, sys.home.mesh, key), p);
    case OtherSettled(id) => F.QueueKeepsEdges(sys.home, WithoutId(sys.home.queue, id), p);
    case Elsewhere(step) => F.StepKeepsEdges(Servers(sys.home), step, p);
    case _ =>
  }

  lemma {:induction false} RunKeepsEdges(sys: System, steps: seq<Step>, p: Pair)
    requires Inv(sys) && PossibleRun(sys, steps) && Crosses(Run(sys, steps), p)
    requires F.EdgesOf(sys.home, p) && F.EdgesOf(sys.peer, p)
    ensures F.EdgesOf(Run(sys, steps).home, p) && F.EdgesOf(Run(sys, steps).peer, p) && Crosses(sys, p)
    decreases |steps|
  {
    hide Next, Possible, Crosses, F.EdgesOf, Sound;
    if steps != [] {
      StepKeepsInv(sys, steps[0]);
      RunCrosses(Next(sys, steps[0]), steps[1..], p);
      StepStaysSound(sys, steps[0]);
      StepKeepsEdges(sys, steps[0], p);
      RunKeepsEdges(Next(sys, steps[0]), steps[1..], p);
    }
  }

  lemma {:induction false} RunCrosses(sys: System, steps: seq<Step>, p: Pair)
    requires Inv(sys) && PossibleRun(sys, steps) && Crosses(Run(sys, steps), p)
    ensures Crosses(sys, p)
    decreases |steps|
  {
    hide Next, Possible, Crosses, Sound;
    if steps != [] {
      StepKeepsInv(sys, steps[0]);
      StepStaysSound(sys, steps[0]);
      RunCrosses(Next(sys, steps[0]), steps[1..], p);
    }
  }

  lemma ReachableEdges(sys: System, p: Pair)
    requires Reachable(sys) && Crosses(sys, p)
    ensures p in sys.home.following <==> Active(sys.home, p)
    ensures p in sys.peer.followers <==> Active(sys.peer, p)
  {
    var start, steps :| Initial(start) && PossibleRun(start, steps) && sys == Run(start, steps);
    InitialInv(start);
    RunKeepsEdges(start, steps, p);
    assert F.EdgesOf(sys.home, p) && F.EdgesOf(sys.peer, p);
  }

  lemma Viewed(sys: System, p: Pair)
    ensures var v := ViewOf(sys, p);
            && (Followed(v.home) <==> Active(sys.home, p)) && (Followed(v.peer) <==> Active(sys.peer, p))
            && v.home.cert == Held(sys.home.follows, p) && v.peer.cert == Held(sys.peer.follows, p)
            && (v.home.row.Some? <==> Owed(sys, p))
  {}

  // ---- the two servers ----

  /** Once a pair's event is gone and was answered 2xx, whatever was signed,
      lost and sent again before, both servers keep its edge or neither: so
      long as its last certificate is stamped after all before it. */
  lemma FollowsConverge(sys: System, p: Pair)
    requires Reachable(sys) && Crosses(sys, p) && p !in sys.tied
    requires !Owed(sys, p) && p !in sys.unsure
    ensures EdgesAgree(sys, p) && (Active(sys.home, p) <==> Active(sys.peer, p))
  {
    hide Reachable, Sound, Crosses, RowFor, Active;
    ReachableInv(sys);
    ReachableEdges(sys, p);
    assert PairInv(ViewOf(sys, p), sys.home.queue.next);
    Viewed(sys, p);
  }

  /** A drain's call taken for what is held here leaves the edges agreeing
      exactly when the peer held nothing, something older, or the same kind. */
  lemma TakenCallAgrees(sys: System, p: Pair)
    requires Reachable(sys) && sys.phase.HasBuilt? && sys.phase.p == p
             && Held(sys.home.follows, p) == Some(sys.phase.cert)
    ensures var held := Held(sys.peer.follows, p);
            EdgesAgree(Next(sys, Call(Taken)), p)
            <==> (held.None? || held.value.at < sys.phase.cert.at || held.value.follow == sys.phase.cert.follow)
  {
    hide Reachable, RowFor, Identifiers.ServerOf, Next, F.Sound, F.ViewOf;
    ReachableInv(sys);
    StepSeen(sys, Call(Taken), p);
    ReachableEdges(sys, p);
    ReachableStep(sys, Call(Taken));
    ReachableEdges(Next(sys, Call(Taken)), p);
    Viewed(sys, p);
    Viewed(Next(sys, Call(Taken)), p);
  }

  /** A follow the peer takes straight away leaves the edges agreeing exactly
      when both servers or neither hold an unfollow not stamped before it. */
  lemma DirectFollowAgrees(sys: System, p: Pair, cert: FollowCert)
    requires Reachable(sys) && Crosses(sys, p) && cert.follow
    ensures EdgesAgree(Next(sys, Follow(p, cert, Taken)), p)
            <==> (UnfollowedSince(sys.home, p, cert.at) <==> UnfollowedSince(sys.peer, p, cert.at))
  {
    hide Reachable, RowFor, Identifiers.ServerOf, Next, F.Sound, F.ViewOf;
    ReachableInv(sys);
    var after := Next(sys, Follow(p, cert, Taken));
    StepSeen(sys, Follow(p, cert, Taken), p);
    ReachableStep(sys, Follow(p, cert, Taken));
    ReachableEdges(after, p);
    Viewed(sys, p);
    Viewed(after, p);
  }

  /** A block new to one server leaves the edges agreeing exactly when the other
      kept none; new to both, it leaves none. */
  lemma CutAgrees(sys: System, p: Pair, block: BlockCert)
    requires Crosses(sys, p)
    ensures Back(p) !in sys.peer.blocks ==>
              (EdgesAgree(Next(sys, BlockedThere(p, block)), p) <==> p !in sys.home.following)
    ensures Back(p) !in sys.home.blocks ==>
              (EdgesAgree(Next(sys, BlockedHere(p, block)), p) <==> p !in sys.peer.followers)
    ensures Back(p) !in sys.peer.blocks && Back(p) !in sys.home.blocks ==>
              var after := Next(Next(sys, BlockedThere(p, block)), BlockedHere(p, block));
              p !in after.home.following && p !in after.peer.followers
  {
    if Back(p) !in sys.peer.blocks { BlockEndsTheFollow(sys.peer, Back(p), block); }
    if Back(p) !in sys.home.blocks { BlockEndsTheFollow(sys.home, Back(p), block); }
    hide InsertBlock, Crosses;
  }

  /** A follow taken straight away, then the followee's block on their own server
      alone: nothing is owed for the follow, and only its edge here stays. */
  lemma CutSplits(sys: System, p: Pair, follow: FollowCert, block: BlockCert)
    requires Initial(sys) && Crosses(sys, p) && follow.follow
    ensures var run := [Follow(p, follow, Taken), BlockedThere(p, block)];
            var after := Run(sys, run);
            && PossibleRun(sys, run) && !Owed(after, p)
            && p in after.home.following && p !in after.peer.followers
  {
    var followed := Next(sys, Follow(p, follow, Taken));
    var cut := Next(followed, BlockedThere(p, block));
    FollowTaken(sys, p, follow);
    RunCons(sys, Follow(p, follow, Taken), [BlockedThere(p, block)]);
    RunCons(followed, BlockedThere(p, block), []);
    BlockEndsTheFollow(followed.peer, Back(p), block);
    assert cut.home == followed.home && p !in cut.peer.followers;
    assert Possible(followed, BlockedThere(p, block)) && Run(cut, []) == cut && PossibleRun(cut, []);
    hide Next, Possible, Reachable, Initial, Crosses, Owed, InsertBlock;
  }

  lemma FollowTaken(sys: System, p: Pair, follow: FollowCert)
    requires Initial(sys) && Crosses(sys, p) && follow.follow
    ensures var after := Next(sys, Follow(p, follow, Taken));
            && Possible(sys, Follow(p, follow, Taken)) && !Owed(after, p) && p in after.home.following
            && after.peer.blocks == map[]
  {
    assert Run(sys, []) == sys && PossibleRun(sys, []);
    assert ViewOf(sys, p) == View(F.View(None, false, None), F.View(None, false, None), Away, false, None, false);
    hide Reachable, Next, ViewOf, Crosses, PairInv, Inv, Active, Local, Owed, Initial, Possible;
    Does(sys, Follow(p, follow, Taken), p);
    ReachableEdges(Next(sys, Follow(p, follow, Taken)), p);
    Viewed(Next(sys, Follow(p, follow, Taken)), p);
  }

  predicate UnfollowedSince(s: Store, p: Pair, at: int) {
    p in s.follows && !s.follows[p].follow && at <= s.follows[p].at
  }

  /** All that a step does, for a pair it is about. */
  lemma StepSeen(sys: System, step: Step, p: Pair)
    requires Inv(sys) && Possible(sys, step) && Crosses(sys, p) && About(sys, step, p)
    ensures Inv(Next(sys, step)) && Crosses(Next(sys, step), p)
    ensures ViewOf(Next(sys, step), p) == ViewStep(ViewOf(sys, p), step, sys.home.queue.next)
    ensures sys.home.queue.next <= Next(sys, step).home.queue.next
    ensures PairInv(ViewOf(sys, p), sys.home.queue.next)
  {
    hide RowFor, F.Sound, ViewOf, SaveFollowCert, AckFollowEvent, UndoRefusedFollow, ForgetFollow,
         DropSettledUnfollow, WithoutId, EnqueueFor, PairInv;
    StepKeepsInv(sys, step);
    StepOnView(sys, step, p);
    StepStaysSound(sys, step);
    HomeQueueAfter(sys, step);
    assert ViewOf(sys, p) == ViewOf(sys, p);
  }

  lemma ReachableStep(sys: System, step: Step)
    requires Reachable(sys) && Possible(sys, step)
    ensures Reachable(Next(sys, step))
  {
    hide Initial, Possible, Next;
    var start, steps :| Initial(start) && PossibleRun(start, steps) && sys == Run(start, steps);
    RunAppends(start, steps, step);
  }

  lemma {:induction false} RunAppends(start: System, steps: seq<Step>, step: Step)
    requires PossibleRun(start, steps) && Possible(Run(start, steps), step)
    ensures PossibleRun(start, steps + [step]) && Run(start, steps + [step]) == Next(Run(start, steps), step)
    decreases |steps|
  {
    hide Possible, Next;
    if steps == [] {
      assert [step][1..] == [];
      assert [] + [step] == [step];
    } else {
      assert (steps + [step])[1..] == steps[1..] + [step];
      RunAppends(Next(start, steps[0]), steps[1..], step);
    }
  }

  // ---- refusals ----

  /** The step signs a certificate of p's: owed, unless the peer just took it. */
  predicate Signs(step: Step, p: Pair) {
    || (step.Unfollow? && step.p == p && !step.cert.follow)
    || (step.Follow? && step.p == p && step.cert.follow && !step.direct.Refused?)
  }

  predicate IsOwed(sign: Step) {
    sign.Follow? ==> !sign.direct.Taken?
  }

  /** cert, or one signed after it, is held; what the drain has at hand is older,
      and can't settle what is owed for it. */
  predicate Survives(v: View, cert: FollowCert, owed: bool) {
    && v.home.cert.Some? && (v.home.cert.value == cert || v.home.cert.value.at > cert.at)
    && (InFlight(v).Some? ==> InFlight(v).value.at < cert.at) && !v.drain.Reading?
    && (owed || !v.home.cert.value.follow ==> v.home.row.Some? && (v.drain != Away ==> v.drain.id < v.home.row.value))
  }

  lemma SignedSurvives(v: View, sign: Step, p: Pair, next: nat)
    requires RowsOk(v, next) && Signs(sign, p) && !v.drain.Reading?
    requires InFlight(v).Some? ==> InFlight(v).value.at < sign.cert.at
    requires v.home.cert.Some? ==> v.home.cert.value.at < sign.cert.at
    ensures Survives(ViewStep(v, sign, next), sign.cert, IsOwed(sign))
  {}

  lemma StepSpares(v: View, step: Step, cert: FollowCert, owed: bool, next: nat)
    requires RowsOk(v, next) && Survives(v, cert, owed) && !step.Read? && !step.BlockedHere?
    requires (step.Unfollow? ==> !step.cert.follow) && (step.Follow? ==> step.cert.follow)
    ensures Survives(ViewStep(v, step, next), cert, owed)
  {}

  /** A run that neither reads p's row again nor cuts p by a block. */
  predicate Spares(steps: seq<Step>, p: Pair) {
    forall i :: 0 <= i < |steps| ==> steps[i] != Read(p) && !(steps[i].BlockedHere? && steps[i].p == p)
  }

  lemma StepSparesPair(sys: System, step: Step, p: Pair, cert: FollowCert, owed: bool)
    requires Inv(sys) && Possible(sys, step) && Crosses(sys, p)
    requires step != Read(p) && !(step.BlockedHere? && step.p == p)
    requires Survives(ViewOf(sys, p), cert, owed)
    ensures Inv(Next(sys, step)) && Crosses(Next(sys, step), p) && Survives(ViewOf(Next(sys, step), p), cert, owed)
  {
    StepKeepsInv(sys, step);
    StepOnView(sys, step, p);
    HomeQueueAfter(sys, step);
    assert PairInv(ViewOf(sys, p), sys.home.queue.next);
    hide Sound, Next, ViewOf, StampsOk, Settled, LatestOnce, ViewStep, Survives, F.Sound, Local, Inv, RowFor;
    if About(sys, step, p) { StepSpares(ViewOf(sys, p), step, cert, owed, sys.home.queue.next); }
  }

  lemma {:induction false} RunSpares(sys: System, steps: seq<Step>, p: Pair, cert: FollowCert, owed: bool)
    requires Inv(sys) && Crosses(sys, p) && PossibleRun(sys, steps) && Spares(steps, p)
    requires Survives(ViewOf(sys, p), cert, owed)
    ensures Crosses(Run(sys, steps), p) && Survives(ViewOf(Run(sys, steps), p), cert, owed)
    decreases |steps|
  {
    hide Inv, Next, Possible, Crosses, Survives, ViewOf;
    if steps != [] {
      StepSparesPair(sys, steps[0], p, cert, owed);
      RunSpares(Next(sys, steps[0]), steps[1..], p, cert, owed);
    }
  }

  /** What was signed while an older certificate was being sent or refused is
      there whatever the peer answers and whatever else goes on, until the drain
      gets to the pair again or a block cuts it: the certificate or a later one,
      with its edge, and with its queue row unless the peer just took it. */
  lemma NewerSurvivesRefusal(sys: System, p: Pair, sign: Step, steps: seq<Step>)
    requires Reachable(sys) && Crosses(sys, p) && Signs(sign, p) && !ViewOf(sys, p).drain.Reading?
    requires sys.phase.HasBuilt? || sys.phase.Refusing? ==> sys.phase.p == p ==> sys.phase.cert.at < sign.cert.at
    requires p in sys.home.follows ==> sys.home.follows[p].at < sign.cert.at
    requires PossibleRun(Next(sys, sign), steps) && Spares(steps, p)
    ensures var after := Run(Next(sys, sign), steps);
            && p in after.home.follows
            && (after.home.follows[p] == sign.cert || after.home.follows[p].at > sign.cert.at)
            && (p in after.home.following <==> after.home.follows[p].follow)
            && (IsOwed(sign) ==> Owed(after, p))
  {
    var signed, v := Next(sys, sign), ViewOf(sys, p);
    var after := Run(signed, steps);
    ReachableInv(sys);
    Viewed(sys, p);
    assert PairInv(v, sys.home.queue.next);
    SignedSurvives(v, sign, p, sys.home.queue.next);
    hide Reachable, RowFor, Local, Next, Inv, ViewOf, Active, ViewStep, Crosses, Survives, RowsOk;
    StepSeen(sys, sign, p);
    RunSpares(signed, steps, p, sign.cert, IsOwed(sign));
    ReachableStep(sys, sign);
    ReachableRun(signed, steps);
    Viewed(after, p);
    ReachableEdges(after, p);
    SurvivesMeans(after, p, sign.cert, IsOwed(sign));
  }

  lemma SurvivesMeans(sys: System, p: Pair, cert: FollowCert, owed: bool)
    requires Survives(ViewOf(sys, p), cert, owed)
    ensures p in sys.home.follows && (sys.home.follows[p] == cert || sys.home.follows[p].at > cert.at)
    ensures owed ==> Owed(sys, p)
  {
    Viewed(sys, p);
  }

  lemma {:induction false} ReachableRun(sys: System, steps: seq<Step>)
    requires Reachable(sys) && PossibleRun(sys, steps)
    ensures Reachable(Run(sys, steps))
    decreases |steps|
  {
    hide Reachable, Possible, Next;
    if steps != [] {
      ReachableStep(sys, steps[0]);
      ReachableRun(Next(sys, steps[0]), steps[1..]);
    }
  }

  lemma PhaseSeen(sys: System, p: Pair)
    requires Inv(sys) && !sys.phase.Idle? && sys.phase.p == p
    ensures Crosses(sys, p)
  {}

  predicate Ready(v: View, step: Step) {
    match step
    case Unfollow(_, cert) => !cert.follow
    case Follow(_, cert, _) => cert.follow
    case Read(_) => v.drain == Away && v.home.row.Some?
    case Build => v.drain.Reading?
    case Call(_) => v.drain.Sending?
    case Undo => v.drain.Undoing?
    case Settle => v.drain.Done?
    case _ => true
  }

  /** A step of p's own that its part allows is possible, and does to its part
      what ViewStep says. */
  lemma Does(sys: System, step: Step, p: Pair)
    requires Reachable(sys) && Crosses(sys, p) && Ready(ViewOf(sys, p), step)
    requires match step
             case Unfollow(q, _) => q == p
             case Follow(q, _, _) => q == p
             case Read(q) => q == p && sys.phase.Idle?
             case _ => step.Build? || step.Call? || step.Undo? || step.Settle?
    ensures Possible(sys, step) && Reachable(Next(sys, step)) && Crosses(Next(sys, step), p)
    ensures ViewOf(Next(sys, step), p) == ViewStep(ViewOf(sys, p), step, sys.home.queue.next)
    ensures sys.home.queue.next <= Next(sys, step).home.queue.next
    ensures PairInv(ViewOf(sys, p), sys.home.queue.next)
    ensures step.Unfollow? || step.Follow? ==> Next(sys, step).phase == sys.phase
  {
    hide Reachable, F.Sound, Local, F.ViewOf, PairInv, SaveFollowCert;
    ReachableInv(sys);
    Viewed(sys, p);
    StepSeen(sys, step, p);
    ReachableStep(sys, step);
  }

  lemma RunOfFour(sys: System, steps: seq<Step>)
    requires |steps| == 4
    ensures Run(sys, steps) == Next(Next(Next(Next(sys, steps[0]), steps[1]), steps[2]), steps[3])
  {
    hide Next;
    var three := steps[1..];
    var two := three[1..];
    var one := two[1..];
    assert one[1..] == [] && three[0] == steps[1] && two[0] == steps[2] && one[0] == steps[3];
    var s := Next(Next(Next(sys, steps[0]), steps[1]), steps[2]);
    assert Run(s, one) == Next(s, one[0]);
    assert Run(Next(Next(sys, steps[0]), steps[1]), two) == Run(s, one);
    assert Run(Next(sys, steps[0]), three) == Run(Next(Next(sys, steps[0]), steps[1]), two);
  }

  /** After a current follow is refused, undone and settled, nothing is owed or
      held here, and the edges agree exactly when the peer had no follow. */
  lemma RefusedFollowUndone(sys: System, p: Pair)
    requires Reachable(sys) && sys.phase.HasBuilt? && sys.phase.p == p && sys.phase.cert.follow
    requires Held(sys.home.follows, p) == Some(sys.phase.cert)
    requires Owed(sys, p) && sys.home.queue.rows[RowFor(FollowEvent, p)] == sys.phase.id
    ensures var after := Next(Next(Next(sys, Call(Refused)), Undo), Settle);
            && !Owed(after, p) && p !in after.home.follows
            && (EdgesAgree(after, p) <==> !Active(sys.peer, p))
  {
    var called := Next(sys, Call(Refused));
    var undone := Next(called, Undo);
    var settled := Next(undone, Settle);
    ReachableInv(sys);
    PhaseSeen(sys, p);
    Viewed(sys, p);
    assert ViewOf(sys, p).home.row == Some(sys.phase.id);
    hide Reachable, Next, ViewOf, Crosses, PairInv, Inv, Active, Local, Owed;
    Does(sys, Call(Refused), p);
    Does(called, Undo, p);
    Does(undone, Settle, p);
    ReachableEdges(settled, p);
    Viewed(settled, p);
  }

  /** Stamps are whole seconds. An unfollow and a follow of the same second,
      the follow taken straight away, end with the edge kept only there, though
      every answer was a 2xx and nothing is owed. */
  lemma SameSecondSplits(sys: System, p: Pair, unfollow: FollowCert, follow: FollowCert)
    requires Initial(sys) && Crosses(sys, p) && !unfollow.follow && follow.follow && unfollow.at == follow.at
    ensures var run := [Unfollow(p, unfollow), Follow(p, follow, Taken), Read(p), Build, Call(Taken), Settle];
            var after := Run(sys, run);
            && PossibleRun(sys, run) && !Owed(after, p) && p !in after.unsure
            && p !in after.home.following && p in after.peer.followers
  {
    var s2 := Next(Next(sys, Unfollow(p, unfollow)), Follow(p, follow, Taken));
    var s3 := Next(s2, Read(p));
    var s4 := Next(s3, Build);
    var s5 := Next(s4, Call(Taken));
    var s6 := Next(s5, Settle);
    assert Run(sys, []) == sys && PossibleRun(sys, []);
    hide Reachable, Next, ViewOf, Crosses, PairInv, Inv, Active, Local, Owed, Initial, Possible;
    SameSecondSigned(sys, p, unfollow, follow);
    Does(s2, Read(p), p);
    Does(s3, Build, p);
    Does(s4, Call(Taken), p);
    Does(s5, Settle, p);
    RunOfSix(sys, Unfollow(p, unfollow), Follow(p, follow, Taken), Read(p), Build, Call(Taken), Settle);
    ReachableEdges(s6, p);
    Viewed(s6, p);
    Unsure(s6, p);
  }

  /** Here the unfollow is held, there the follow, and the drain is yet to run. */
  lemma SameSecondSigned(sys: System, p: Pair, unfollow: FollowCert, follow: FollowCert)
    requires Initial(sys) && Crosses(sys, p) && !unfollow.follow && follow.follow && unfollow.at == follow.at
    ensures var s1 := Next(sys, Unfollow(p, unfollow));
            var s2 := Next(s1, Follow(p, follow, Taken));
            var v := ViewOf(s2, p);
            && Possible(sys, Unfollow(p, unfollow)) && Possible(s1, Follow(p, follow, Taken))
            && Reachable(s2) && Crosses(s2, p) && s2.phase.Idle? && v.drain == Away && !v.unsure
            && v.home.cert == Some(unfollow) && v.home.row.Some? && v.peer.cert == Some(follow)
  {
    var s1 := Next(sys, Unfollow(p, unfollow));
    assert Run(sys, []) == sys && PossibleRun(sys, []);
    assert ViewOf(sys, p) == View(F.View(None, false, None), F.View(None, false, None), Away, false, None, false);
    hide Reachable, Next, ViewOf, Crosses, PairInv, Inv, Active, Local, Owed, Initial, Possible;
    Does(sys, Unfollow(p, unfollow), p);
    Does(s1, Follow(p, follow, Taken), p);
  }

  lemma Unsure(sys: System, p: Pair)
    ensures ViewOf(sys, p).unsure <==> p in sys.unsure
  {}

  lemma RunOfSix(sys: System, a: Step, b: Step, c: Step, d: Step, e: Step, f: Step)
    ensures Run(sys, [a, b, c, d, e, f]) == Next(Next(Next(Next(Next(Next(sys, a), b), c), d), e), f)
    ensures var s1 := Next(sys, a);
            var s2 := Next(s1, b);
            var s3 := Next(s2, c);
            var s4 := Next(s3, d);
            var s5 := Next(s4, e);
            Possible(sys, a) && Possible(s1, b) && Possible(s2, c) && Possible(s3, d) && Possible(s4, e)
              && Possible(s5, f)
            ==> PossibleRun(sys, [a, b, c, d, e, f])
  {
    hide Next, Possible;
    RunCons(sys, a, [b, c, d, e, f]);
    RunCons(Next(sys, a), b, [c, d, e, f]);
    RunOfFour(Next(Next(sys, a), b), [c, d, e, f]);
    var s2 := Next(Next(sys, a), b);
    var s3 := Next(s2, c);
    var s4 := Next(s3, d);
    var s5 := Next(s4, e);
    RunCons(s2, c, [d, e, f]);
    RunCons(s3, d, [e, f]);
    RunCons(s4, e, [f]);
    RunCons(s5, f, []);
  }

  lemma RunCons(sys: System, step: Step, rest: seq<Step>)
    ensures Run(sys, [step] + rest) == Run(Next(sys, step), rest)
    ensures PossibleRun(sys, [step] + rest) <==> Possible(sys, step) && PossibleRun(Next(sys, step), rest)
  {
    assert ([step] + rest)[1..] == rest;
  }
}
