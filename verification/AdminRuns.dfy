/** Admin requests over whole runs: sign-ups, removals, keys, and every opened
    or decided request, accepted or refused. */
module AdminRuns {
  import opened Options
  import opened AdminRequests
  import opened AdminRules

  datatype Step =
    | Join(id: string, profile: Profile)
    | Leaves(id: string)
    | Register(key: string)
    | Opens(request: Request)
    | Decides(id: string, caller: string, verdict: Verdict)

  ghost predicate Possible(o: Office, step: Step) {
    match step
    case Join(id, profile) =>
      && id !in o.users && id !in o.removed && id != ROOT_USER_ID && profile.suspendedBy.None?
      && (profile.role.Root? <==> id == RootId(o.self))
    case Opens(r) => Fresh(r)
    case _ => true
  }

  function Next(o: Office, step: Step): Office {
    match step
    case Join(id, profile) => o.(users := o.users[id := profile])
    case Leaves(id) => Leave(o, id)
    case Register(key) => o.(keys := o.keys + {key})
    case Opens(r) => if Fresh(r) then Open(o, r).0 else o
    case Decides(id, caller, verdict) => Decide(o, id, caller, verdict).0
  }

  function Run(o: Office, steps: seq<Step>): Office
    decreases |steps|
  {
    if steps == [] then o else Run(Next(o, steps[0]), steps[1..])
  }

  ghost predicate PossibleRun(o: Office, steps: seq<Step>)
    decreases |steps|
  {
    steps == [] || (Possible(o, steps[0]) && PossibleRun(Next(o, steps[0]), steps[1..]))
  }

  ghost predicate Initial(o: Office) {
    o.users == map[] && o.removed == {} && o.requests == map[] && o.ledger == []
  }

  // ---- targets and removals ----

  /** What a request keeps as accounts are removed. */
  ghost predicate Tracks(r: Request, removed: set<string>) {
    && (r.state.Pending? ==> r.dropped == set t | t in r.targets && t in removed)
    && (r.state.Pending? && r.targets != [] ==> Remaining(r) != [])
    && (r.state.Moot? ==> r.targets != [] && Remaining(r) == [])
  }

  lemma {:induction false} WithoutMeans(targets: seq<string>, dropped: set<string>)
    ensures forall t :: t in Without(targets, dropped) <==> t in targets && t !in dropped
  {
    if targets != [] {
      WithoutMeans(targets[1..], dropped);
      assert targets == [targets[0]] + targets[1..];
    }
  }

  lemma DropOneTracks(r: Request, removed: set<string>, user: string)
    requires Tracks(r, removed)
    ensures Tracks(DropOne(r, user), removed + {user})
  {}

  function DropEach(r: Request, users: seq<string>): Request
    decreases |users|
  {
    if users == [] then r else DropEach(DropOne(r, users[0]), users[1..])
  }

  lemma {:induction false} DropAllIsEach(requests: map<string, Request>, users: seq<string>, id: string)
    ensures DropAll(requests, users).Keys == requests.Keys
    ensures id in requests ==> DropAll(requests, users)[id] == DropEach(requests[id], users)
  {
    hide DropOne;
    if users != [] { DropAllIsEach(DropFrom(requests, users[0]), users[1..], id); }
  }

  lemma {:induction false} DropEachTracks(r: Request, removed: set<string>, users: seq<string>)
    requires Tracks(r, removed)
    ensures Tracks(DropEach(r, users), removed + SetOf(users))
    decreases |users|
  {
    hide Tracks;
    if users == [] {
      assert removed + SetOf(users) == removed;
    } else {
      DropOneTracks(r, removed, users[0]);
      DropEachTracks(DropOne(r, users[0]), removed + {users[0]}, users[1..]);
      assert users == [users[0]] + users[1..];
      assert removed + {users[0]} + SetOf(users[1..]) == removed + SetOf(users);
    }
  }

  /** Dropping changes only dropped and the state, and nothing once closed. */
  lemma {:induction false} DropEachKeeps(r: Request, users: seq<string>)
    ensures var d := DropEach(r, users);
            && d == r.(dropped := d.dropped, state := d.state)
            && (d.state == r.state || (r.state.Pending? && d.state.Moot?))
            && (!r.state.Pending? ==> d == r)
    decreases |users|
  {
    if users != [] { DropEachKeeps(DropOne(r, users[0]), users[1..]); }
  }

  // ---- one request over a step ----

  /** The requests after a step, seen one at a time. */
  function RequestAfter(o: Office, step: Step, id: string): Option<Request> {
    if id !in o.requests then
      if step.Opens? && Fresh(step.request) && step.request.id == id && Open(o, step.request).1.None?
      then Some(step.request) else None
    else
      var r := o.requests[id];
      match step
      case Leaves(user) => Some(DropOne(r, user))
      case Decides(decided, caller, verdict) =>
        if Decide(o, decided, caller, verdict).1.Some? then Some(r)
        else if decided == id then Some(Close(r, verdict, caller))
        else if verdict.Approve? && decided in o.requests && o.requests[decided].action.Kick?
        then Some(DropEach(r, Remaining(o.requests[decided])))
        else Some(r)
      case _ => Some(r)
  }

  ghost predicate IdsOk(o: Office) {
    forall id :: id in o.requests ==> o.requests[id].id == id
  }

  lemma StepOnRequest(o: Office, step: Step, id: string)
    requires IdsOk(o)
    ensures (id in Next(o, step).requests) == RequestAfter(o, step, id).Some?
    ensures id in Next(o, step).requests ==> Next(o, step).requests[id] == RequestAfter(o, step, id).value
  {
    hide CheckDecider, Validate, ValidateNew, Execute, ApprovedEntry, DropOne, Remaining, IsRootIdentity;
    if step.Decides? { DecideOnRequest(o, step, id); }
  }

  lemma DecideOnRequest(o: Office, step: Step, id: string)
    requires IdsOk(o) && step.Decides?
    ensures (id in Next(o, step).requests) == RequestAfter(o, step, id).Some?
    ensures id in Next(o, step).requests ==> Next(o, step).requests[id] == RequestAfter(o, step, id).value
  {
    hide CheckDecider, Validate, ApprovedEntry, DropOne, Remaining, IsRootIdentity, Approved, Close, DropEach;
    var decided := step.id;
    if decided in o.requests && step.verdict.Approve? && Decide(o, decided, step.caller, Approve).1.None? {
      ApprovedOnRequest(o, o.requests[decided], step.caller, id);
    }
  }

  lemma ApprovedOnRequest(o: Office, r: Request, approver: string, id: string)
    requires IdsOk(o) && r.id in o.requests && o.requests[r.id] == r && r.state.Pending?
    ensures var after := Approved(o, r, approver).requests;
            && after.Keys == o.requests.Keys
            && (id in after ==> after[id] == if id == r.id then Close(r, Approve, approver)
                                             else if r.action.Kick? then DropEach(o.requests[id], Remaining(r))
                                             else o.requests[id])
  {
    hide ApprovedEntry, DropOne, Remaining, DropEach;
    var closed := o.requests[r.id := Close(r, Approve, approver)];
    if r.action.Kick? {
      DropAllIsEach(closed, Remaining(r), id);
      DropEachKeeps(Close(r, Approve, approver), Remaining(r));
    }
  }

  // ---- what every run keeps ----

  ghost predicate RequestOk(o: Office, r: Request) {
    && TargetCountFits(r.action, |r.targets|)
    && (forall t :: t in r.targets ==> t in o.users && !IsRootIdentity(o.self, t))
    && Tracks(r, o.removed) && DecisionOk(r)
  }

  /** Only targets are dropped, and a request is closed by the verdict it has,
      or has none. */
  ghost predicate DecisionOk(r: Request) {
    && r.dropped <= SetOf(r.targets)
    && (r.decision.Some? <==> r.state.Executed? || r.state.Rejected? || r.state.Withdrawn?)
    && (r.decision.Some? ==> StateFor(r.decision.value.verdict) == r.state)
  }

  lemma {:induction false} DropEachDecision(r: Request, users: seq<string>)
    requires DecisionOk(r)
    ensures DecisionOk(DropEach(r, users))
    decreases |users|
  {
    if users != [] { DropEachDecision(DropOne(r, users[0]), users[1..]); }
  }

  ghost predicate Inv(o: Office) {
    RolesOk(o) && IdsOk(o) && forall id :: id in o.requests ==> RequestOk(o, o.requests[id])
  }

  /** Accounts a step removes. */
  function RemovedBy(o: Office, step: Step): set<string> {
    match step
    case Leaves(user) => {user}
    case Decides(id, caller, Approve) =>
      if Decide(o, id, caller, Approve).1.None? && id in o.requests && o.requests[id].action.Kick?
      then SetOf(Remaining(o.requests[id])) else {}
    case _ => {}
  }

  lemma ExecuteOnUsers(o: Office, r: Request)
    requires RolesOk(o)
    ensures Execute(o, r).users.Keys == o.users.Keys && Execute(o, r).self == o.self && RolesOk(Execute(o, r))
    ensures Execute(o, r).removed == if r.action.Kick? then o.removed + SetOf(Remaining(r)) else o.removed
  {
    hide Remaining, GrantedSet, SetOf, RootId, RebindKeyId;
  }

  lemma ApprovedKeepsExecuted(o: Office, r: Request, approver: string)
    ensures var e, a := Execute(o, r), Approved(o, r, approver);
            a.users == e.users && a.self == e.self && a.removed == e.removed
  {
    hide Execute, ApprovedEntry, DropAll;
  }

  lemma StepOnUsers(o: Office, step: Step)
    requires RolesOk(o) && Possible(o, step)
    ensures o.users.Keys <= Next(o, step).users.Keys && Next(o, step).self == o.self && RolesOk(Next(o, step))
    ensures Next(o, step).removed == o.removed + RemovedBy(o, step)
  {
    hide CheckDecider, Validate, ValidateNew, Execute, Approved, DropFrom, Remaining, SetOf, RootId;
    if step.Decides? && step.id in o.requests {
      ExecuteOnUsers(o, o.requests[step.id]);
      ApprovedKeepsExecuted(o, o.requests[step.id], step.caller);
    }
  }

  lemma StepKeepsIds(o: Office, step: Step)
    requires IdsOk(o)
    ensures IdsOk(Next(o, step))
  {
    hide Next, DropOne, DropEach;
    forall id | id in Next(o, step).requests ensures Next(o, step).requests[id].id == id {
      StepOnRequest(o, step, id);
      AfterIsTheSame(o, step, id);
    }
  }

  /** A step changes of a request only what is dropped, its state and decision. */
  lemma AfterIsTheSame(o: Office, step: Step, id: string)
    requires RequestAfter(o, step, id).Some?
    ensures id !in o.requests ==> step == Opens(RequestAfter(o, step, id).value) && step.request.id == id
    ensures id in o.requests ==> SameTerms(o.requests[id], RequestAfter(o, step, id).value)
  {
    hide Open, Decide, Remaining;
    if id in o.requests {
      if step.Leaves? {
        DropEachKeeps(o.requests[id], [step.id]);
        assert DropEach(o.requests[id], [step.id]) == DropEach(DropOne(o.requests[id], step.id), []);
      }
      if step.Decides? && step.id in o.requests { DropEachKeeps(o.requests[id], Remaining(o.requests[step.id])); }
    }
  }

  /** Who asked for what, about whom. */
  predicate SameTerms(a: Request, b: Request) {
    b == a.(dropped := b.dropped, state := b.state, decision := b.decision)
  }

  lemma OpenedOk(o: Office, r: Request)
    requires Fresh(r) && Open(o, r).1.None?
    ensures RequestOk(o, r)
  {
    OpenedOnlyWhen(o, r);
    hide Open, IsRootIdentity, StillFits, Empowered, IsAdmin;
    WithoutMeans(r.targets, r.dropped);
    if r.targets != [] { assert r.targets[0] in r.targets; assert r.targets[0] in Remaining(r); }
  }

  lemma KeptTracks(o: Office, step: Step, id: string)
    requires Inv(o) && id in o.requests
    ensures Tracks(RequestAfter(o, step, id).value, o.removed + RemovedBy(o, step))
  {
    hide Decide, Remaining, IsRootIdentity;
    var r := o.requests[id];
    assert RequestOk(o, r);
    if step.Leaves? { DropOneTracks(r, o.removed, step.id); }
    else if step.Decides? && step.id in o.requests && o.requests[step.id].action.Kick? {
      DropEachTracks(r, o.removed, Remaining(o.requests[step.id]));
      assert o.removed + {} == o.removed;
    } else {
      assert o.removed + {} == o.removed;
    }
  }

  lemma KeptDecision(o: Office, step: Step, id: string)
    requires Inv(o) && id in o.requests
    ensures DecisionOk(RequestAfter(o, step, id).value)
  {
    hide Decide, IsRootIdentity, SetOf;
    var r := o.requests[id];
    assert RequestOk(o, r);
    if step.Leaves? {
      DropEachDecision(r, [step.id]);
      assert DropEach(r, [step.id]) == DropEach(DropOne(r, step.id), []);
    } else if step.Decides? && step.id in o.requests {
      DropEachDecision(r, Remaining(o.requests[step.id]));
    }
  }

  lemma KeptOk(o: Office, step: Step, id: string)
    requires Inv(o) && Possible(o, step) && id in o.requests
    ensures id in Next(o, step).requests && RequestOk(Next(o, step), Next(o, step).requests[id])
  {
    StepOnUsers(o, step);
    StepOnRequest(o, step, id);
    AfterIsTheSame(o, step, id);
    assert RequestOk(o, o.requests[id]);
    KeptTracks(o, step, id);
    KeptDecision(o, step, id);
    assert RequestAfter(o, step, id).Some?;
    hide Next, RemovedBy, Tracks, IsRootIdentity, RequestAfter, DecisionOk;
  }

  lemma NewOk(o: Office, step: Step, id: string)
    requires Inv(o) && Possible(o, step) && id !in o.requests && id in Next(o, step).requests
    ensures RequestOk(Next(o, step), Next(o, step).requests[id])
  {
    StepOnRequest(o, step, id);
    OpenedOk(o, step.request);
    hide Tracks, IsRootIdentity, DecisionOk, ValidateNew;
  }

  lemma StepKeepsInv(o: Office, step: Step)
    requires Inv(o) && Possible(o, step)
    ensures Inv(Next(o, step))
  {
    hide Next, RequestOk, Possible;
    StepOnUsers(o, step);
    StepKeepsIds(o, step);
    forall id | id in Next(o, step).requests ensures RequestOk(Next(o, step), Next(o, step).requests[id]) {
      if id in o.requests { KeptOk(o, step, id); } else { NewOk(o, step, id); }
    }
  }

  lemma {:induction false} RunKeepsInv(o: Office, steps: seq<Step>)
    requires Inv(o) && PossibleRun(o, steps)
    ensures Inv(Run(o, steps))
    decreases |steps|
  {
    hide Inv, Next, Possible;
    if steps != [] {
      StepKeepsInv(o, steps[0]);
      RunKeepsInv(Next(o, steps[0]), steps[1..]);
    }
  }

  ghost predicate Reachable(o: Office) {
    exists start, steps :: Initial(start) && PossibleRun(start, steps) && o == Run(start, steps)
  }

  lemma ReachableInv(o: Office)
    requires Reachable(o)
    ensures Inv(o)
  {
    var start, steps :| Initial(start) && PossibleRun(start, steps) && o == Run(start, steps);
    RunKeepsInv(start, steps);
  }

  /** A pending request's dropped targets are exactly its removed ones, and one
      that had targets has some left; it goes moot with the last of them. */
  lemma PendingTracksRemovals(o: Office, id: string)
    requires Reachable(o) && id in o.requests
    ensures var r := o.requests[id];
            && (r.state.Pending? ==> forall t :: t in r.dropped <==> t in r.targets && t in o.removed)
            && (r.state.Pending? && r.targets != [] ==> exists t :: t in r.targets && t !in o.removed)
            && (r.state.Moot? ==> r.targets != [] && forall t :: t in r.targets ==> t in r.dropped)
            && (r.decision.Some? ==> StateFor(r.decision.value.verdict) == r.state)
  {
    hide Reachable;
    ReachableInv(o);
    var r := o.requests[id];
    assert RequestOk(o, r);
    WithoutMeans(r.targets, r.dropped);
    if r.state.Pending? && r.targets != [] { assert Remaining(r)[0] in Remaining(r); }
  }

  /** A closed request never changes again. */
  lemma {:induction false} ClosedStays(o: Office, steps: seq<Step>, id: string)
    requires Inv(o) && PossibleRun(o, steps) && id in o.requests && !o.requests[id].state.Pending?
    ensures id in Run(o, steps).requests && Run(o, steps).requests[id] == o.requests[id]
    decreases |steps|
  {
    hide Inv, Next, Possible;
    if steps != [] {
      ClosedOverStep(o, steps[0], id);
      StepKeepsInv(o, steps[0]);
      ClosedStays(Next(o, steps[0]), steps[1..], id);
    }
  }

  lemma ClosedOverStep(o: Office, step: Step, id: string)
    requires Inv(o) && Possible(o, step) && id in o.requests && !o.requests[id].state.Pending?
    ensures id in Next(o, step).requests && Next(o, step).requests[id] == o.requests[id]
  {
    hide CheckDecider, Validate, Remaining, IsRootIdentity, Approved;
    StepOnRequest(o, step, id);
    if step.Decides? && step.id in o.requests { DropEachKeeps(o.requests[id], Remaining(o.requests[step.id])); }
  }

  // ---- approvals ----

  /** Step i approves id, with the rules letting its caller do so just then. */
  ghost predicate ApprovedAt(start: Office, steps: seq<Step>, i: nat, id: string) {
    && i < |steps| && steps[i].Decides? && steps[i].id == id && steps[i].verdict.Approve?
    && var o := Run(start, steps[..i]);
       id in o.requests && o.requests[id].state.Pending? && MayApprove(o, o.requests[id], steps[i].caller)
         && StillFits(o, o.requests[id])
  }

  /** Step j opened r, with the rules letting its requester do so just then. */
  ghost predicate OpenedAt(start: Office, steps: seq<Step>, j: nat, r: Request) {
    && j < |steps| && steps[j].Opens? && steps[j].request.id == r.id && SameTerms(steps[j].request, r)
    && MayOpen(Run(start, steps[..j]), steps[j].request)
  }

  lemma ExecutedByApproval(o: Office, step: Step, id: string)
    requires Inv(o) && Possible(o, step) && id in Next(o, step).requests && Next(o, step).requests[id].state.Executed?
    requires id in o.requests ==> !o.requests[id].state.Executed?
    ensures ApprovedAt(o, [step], 0, id)
    ensures Next(o, step).requests[id].decision == Some(Decision(Approve, step.caller))
  {
    hide CheckDecider, Validate, Approved, IsRootIdentity, MayApprove, StillFits, ValidateNew, Remaining;
    StepOnRequest(o, step, id);
    if step.Decides? && step.id in o.requests && id in o.requests {
      DropEachKeeps(o.requests[id], Remaining(o.requests[step.id]));
    }
    assert step.Decides?;
    ApprovedExactlyWhen(o, id, step.caller);
    assert [step][..0] == [] && Run(o, []) == o;
  }

  lemma FirstStep(o: Office, steps: seq<Step>, i: nat)
    requires 0 < i <= |steps|
    ensures Run(o, steps[..i]) == Run(Next(o, steps[0]), steps[1..][..i - 1])
  {
    assert steps[..i][1..] == steps[1..][..i - 1];
  }

  /** Every executed request was approved at some step, and its approver was
      allowed to, as roles and permissions were at that very step. */
  lemma {:induction false} EveryExecutionApproved(o: Office, steps: seq<Step>, id: string)
    requires Inv(o) && PossibleRun(o, steps) && id in Run(o, steps).requests
             && Run(o, steps).requests[id].state.Executed?
    requires id in o.requests ==> !o.requests[id].state.Executed?
    ensures exists i: nat ::
            ApprovedAt(o, steps, i, id)
              && Run(o, steps).requests[id].decision == Some(Decision(Approve, steps[i].caller))
    decreases |steps|
  {
    hide Inv, Next, Possible, MayApprove, StillFits;
    var next := Next(o, steps[0]);
    StepKeepsInv(o, steps[0]);
    if id in next.requests && next.requests[id].state.Executed? {
      ExecutedByApproval(o, steps[0], id);
      ClosedStays(next, steps[1..], id);
      assert steps[..0] == [steps[0]][..0];
      assert ApprovedAt(o, steps, 0, id);
    } else {
      EveryExecutionApproved(next, steps[1..], id);
      var i: nat :| ApprovedAt(next, steps[1..], i, id)
          && Run(o, steps).requests[id].decision == Some(Decision(Approve, steps[1..][i].caller));
      FirstStep(o, steps, i + 1);
      assert ApprovedAt(o, steps, i + 1, id);
    }
  }

  lemma {:induction false} TermsStay(o: Office, steps: seq<Step>, id: string)
    requires Inv(o) && PossibleRun(o, steps) && id in o.requests
    ensures id in Run(o, steps).requests && SameTerms(o.requests[id], Run(o, steps).requests[id])
    decreases |steps|
  {
    hide Inv, Next, Possible;
    if steps != [] {
      StepKeepsInv(o, steps[0]);
      TermsOverStep(o, steps[0], id);
      TermsStay(Next(o, steps[0]), steps[1..], id);
    }
  }

  lemma TermsOverStep(o: Office, step: Step, id: string)
    requires Inv(o) && id in o.requests
    ensures id in Next(o, step).requests && SameTerms(o.requests[id], Next(o, step).requests[id])
  {
    hide Next, RequestOk, RolesOk, Decide;
    StepOnRequest(o, step, id);
    AfterIsTheSame(o, step, id);
  }

  lemma OpenedByStep(o: Office, step: Step, id: string)
    requires Inv(o) && Possible(o, step) && id !in o.requests && id in Next(o, step).requests
    ensures step.Opens? && step.request.id == id && Next(o, step).requests[id] == step.request
            && MayOpen(o, step.request)
  {
    hide MayOpen, ValidateNew, IsRootIdentity;
    StepOnRequest(o, step, id);
    OpenedOnlyWhen(o, step.request);
  }

  /** Every request was opened by someone allowed to, as things were then, and
      still says what it said. */
  lemma {:induction false} EveryRequestOpened(o: Office, steps: seq<Step>, id: string)
    requires Inv(o) && PossibleRun(o, steps) && id !in o.requests && id in Run(o, steps).requests
    ensures exists j: nat :: OpenedAt(o, steps, j, Run(o, steps).requests[id])
    decreases |steps|
  {
    hide Inv, Next, Possible, MayOpen;
    var next := Next(o, steps[0]);
    StepKeepsInv(o, steps[0]);
    if id in next.requests {
      OpenedByStep(o, steps[0], id);
      TermsStay(next, steps[1..], id);
      RunKeepsInv(next, steps[1..]);
      KeyIsId(Run(o, steps), id);
      assert steps[..0] == [];
      assert OpenedAt(o, steps, 0, Run(o, steps).requests[id]);
    } else {
      EveryRequestOpened(next, steps[1..], id);
      var j: nat :| OpenedAt(next, steps[1..], j, Run(o, steps).requests[id]);
      FirstStep(o, steps, j + 1);
      assert OpenedAt(o, steps, j + 1, Run(o, steps).requests[id]);
    }
  }

  lemma KeyIsId(o: Office, id: string)
    requires Inv(o) && id in o.requests
    ensures o.requests[id].id == id
  {}

  /** An executed demotion or change of permissions was decided by root. */
  lemma RootChangedAdmins(start: Office, steps: seq<Step>, id: string)
    requires Initial(start) && PossibleRun(start, steps) && id in Run(start, steps).requests
    requires var r := Run(start, steps).requests[id];
             r.state.Executed? && (r.action.Demote? || r.action.ChangePermissions?)
    ensures Run(start, steps).requests[id].decision == Some(Decision(Approve, RootId(start.self)))
  {
    hide Possible, Next, MayApprove, StillFits, RootId;
    EveryExecutionApproved(start, steps, id);
    var i: nat :| ApprovedAt(start, steps, i, id)
        && Run(start, steps).requests[id].decision == Some(Decision(Approve, steps[i].caller));
    var o := Run(start, steps[..i]);
    RunSplits(start, steps, i);
    RunKeepsInv(start, steps[..i]);
    RunSelf(start, steps[..i]);
    TermsStay(o, steps[i..], id);
    var r := o.requests[id];
    assert RequestOk(o, r);
    assert r.targets != [] && Remaining(r) != [];
    OnlyRootChangesAdmins(o, r, steps[i].caller);
  }

  lemma {:induction false} RunSplits(o: Office, steps: seq<Step>, i: nat)
    requires i <= |steps| && PossibleRun(o, steps)
    ensures Run(o, steps) == Run(Run(o, steps[..i]), steps[i..])
    ensures PossibleRun(o, steps[..i]) && PossibleRun(Run(o, steps[..i]), steps[i..])
    decreases |steps|
  {
    hide Next, Possible;
    if i == 0 {
      assert steps[..0] == [] && steps[0..] == steps;
    } else {
      assert steps[..i][1..] == steps[1..][..i - 1] && steps[i..] == steps[1..][i - 1..];
      RunSplits(Next(o, steps[0]), steps[1..], i - 1);
    }
  }

  lemma {:induction false} RunSelf(o: Office, steps: seq<Step>)
    requires RolesOk(o) && PossibleRun(o, steps)
    ensures Run(o, steps).self == o.self && RolesOk(Run(o, steps))
    decreases |steps|
  {
    hide Next, Possible, RolesOk;
    if steps != [] {
      StepOnUsers(o, steps[0]);
      RunSelf(Next(o, steps[0]), steps[1..]);
    }
  }
}
