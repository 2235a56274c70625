/** What an approval changes, and who is an admin because of it. */
module AdminEffects {
  import opened Options
  import opened Permissions
  import opened AdminRequests
  import opened AdminRules
  import opened AdminRuns

  /** Whether r's action is on u still. */
  predicate Concerns(r: Request, u: string) {
    u in r.targets && u !in r.dropped
  }

  /** What an approval of r makes of a user's row: of role and permissions, and
      of their suspension. */
  ghost predicate RowAfter(r: Request, u: string, was: Profile, now: Profile) {
    && now.invitedBy == was.invitedBy
    && (Concerns(r, u) && (r.action.Promote? || r.action.ChangePermissions?) ==>
          now.role.Admin? && ParsePermissionSet(r.body).Parsed? && now.permissions == Spelled(r.body))
    && (Concerns(r, u) && r.action.Demote? ==> now.role.User? && now.permissions == {})
    && (!Concerns(r, u) || !(r.action.Promote? || r.action.ChangePermissions? || r.action.Demote?) ==>
          now.role == was.role && now.permissions == was.permissions)
    && (Concerns(r, u) && r.action.Suspend? ==> was.suspendedBy.None? && now.suspendedBy == Some(r.id))
    && (Concerns(r, u) && r.action.Reinstate? ==> was.suspendedBy.Some? && now.suspendedBy.None?)
    && (!Concerns(r, u) || !(r.action.Suspend? || r.action.Reinstate?) ==> now.suspendedBy == was.suspendedBy)
  }

  /** The only target of a request about one, still one of its targets. */
  lemma OneTarget(o: Office, r: Request)
    requires RequestOk(o, r) && r.state.Pending?
    requires r.action.Promote? || r.action.ChangePermissions? || r.action.Demote? || r.action.Rebind?
    ensures |r.targets| == 1 && Target(r) == r.targets[0] && forall u :: Concerns(r, u) <==> u == r.targets[0]
  {
    hide IsRootIdentity;
    WithoutMeans(r.targets, r.dropped);
    assert Remaining(r)[0] in Remaining(r);
  }

  /** What Execute makes of a user's row. */
  lemma ExecutedRow(o: Office, r: Request, u: string)
    requires RequestOk(o, r) && r.state.Pending? && u in o.users && StillFits(o, r)
    requires Grants(r.action) ==> ParsePermissionSet(r.body).Parsed?
    ensures u in Execute(o, r).users && RowAfter(r, u, o.users[u], Execute(o, r).users[u])
  {
    WithoutMeans(r.targets, r.dropped);
    if r.action.Promote? || r.action.ChangePermissions? || r.action.Demote? { OneTarget(o, r); }
    hide RequestOk, Remaining, ParsePermissionSet, RebindKeyId;
  }

  lemma ApprovedIs(o: Office, id: string, d: string)
    requires Inv(o) && Decide(o, id, d, Approve).1.None?
    ensures id in o.requests
    ensures var r := o.requests[id];
            && r.id == id && r.state.Pending? && RequestOk(o, r) && StillFits(o, r) && MayApprove(o, r, d)
            && (Grants(r.action) ==> ParsePermissionSet(r.body).Parsed?)
            && Decide(o, id, d, Approve).0 == Approved(o, r, d)
  {
    ApprovedExactlyWhen(o, id, d);
    hide CheckDecider, Validate, Approved, StillFits, IsRoot, RequestOk, ParsePermissionSet;
  }

  /** An approval that goes through does to the users, the removals and the keys
      what its action says to the targets left, and nothing to anyone else. */
  lemma ApprovalEffects(o: Office, id: string, d: string)
    requires Inv(o) && Decide(o, id, d, Approve).1.None?
    ensures var r, after := o.requests[id], Decide(o, id, d, Approve).0;
            && after.users.Keys == o.users.Keys
            && (forall u :: u in o.users ==> RowAfter(r, u, o.users[u], after.users[u]))
            && (forall u :: u in after.removed <==> u in o.removed || (r.action.Kick? && Concerns(r, u)))
            && (r.action.Rebind? ==>
                  && r.fingerprint.Some? && r.targets[0] + "/" + r.fingerprint.value !in o.keys
                  && after.keys == o.keys + {r.targets[0] + "/" + r.fingerprint.value})
            && (!r.action.Rebind? ==> after.keys == o.keys)
  {
    ApprovedIs(o, id, d);
    var r := o.requests[id];
    hide Decide;
    ApprovedKeepsExecuted(o, r, d);
    ExecuteOnUsers(o, r);
    ApprovedKeys(o, r, d);
    WithoutMeans(r.targets, r.dropped);
    if r.action.Rebind? { OneTarget(o, r); }
    hide Approved, Execute, Inv, RequestOk, MayApprove;
    forall u | u in o.users ensures RowAfter(r, u, o.users[u], Approved(o, r, d).users[u]) { ExecutedRow(o, r, u); }
  }

  lemma ApprovedKeys(o: Office, r: Request, d: string)
    ensures Approved(o, r, d).keys == if r.action.Rebind? then o.keys + {RebindKeyId(r)} else o.keys
  {
    hide ApprovedEntry, DropAll, Remaining, RebindKeyId, GrantedSet;
  }

  /** What is recorded of an approval, if it isn't of a private message. */
  ghost predicate EntryFor(r: Request, d: string, e: Entry) {
    && e.request == r.id && e.approver == d && e.requester == r.requester && e.targets == r.targets
    && e.content == (if r.action.Broadcast? || r.action.Promote? || r.action.ChangePermissions? then r.body else "")
    && var head := "[" + r.id + "] ";
       e.message == match r.action
         case Suspend => head + "Suspension" + ". Reason: " + r.reason
         case Reinstate => head + "Reinstatement" + ". Reason: " + r.reason
         case Kick => head + "Kick" + ". Reason: " + r.reason
         case Promote => head + "Promotion" + ". Reason: " + r.reason
         case Demote => head + "Demotion" + ". Reason: " + r.reason
         case ChangePermissions => head + "Permission change" + ". Reason: " + r.reason
         case Invites => head + "Invite grant: " + r.body + " more. Reason: " + r.reason
         case Rebind => head + "Key rebind to " + RebindKeyId(r) + ". Reason: " + r.reason
         case Broadcast => head + "Broadcast"
         case Unicast => ""
  }

  lemma EntryMeans(r: Request, d: string)
    ensures ApprovedEntry(r, d).Some? <==> !r.action.Unicast?
    ensures ApprovedEntry(r, d).Some? ==> EntryFor(r, d, ApprovedEntry(r, d).value)
  {
    hide RebindKeyId;
  }

  /** An approval closes its request as executed, by its decider, and records it. */
  lemma ApprovalRecorded(o: Office, id: string, d: string)
    requires Inv(o) && Decide(o, id, d, Approve).1.None?
    ensures var r, after := o.requests[id], Decide(o, id, d, Approve).0;
            && id in after.requests
            && after.requests[id] == r.(state := Executed, decision := Some(Decision(Approve, d)))
            && (r.action.Unicast? ==> after.ledger == o.ledger)
            && (!r.action.Unicast? ==>
                  && |after.ledger| == |o.ledger| + 1 && after.ledger[..|o.ledger|] == o.ledger
                  && EntryFor(r, d, after.ledger[|o.ledger|]))
  {
    ApprovedIs(o, id, d);
    var r := o.requests[id];
    hide Decide;
    EntryMeans(r, d);
    ApprovedOnRequest(o, r, d, id);
    ApprovedLedger(o, r, d);
  }

  lemma ApprovedLedger(o: Office, r: Request, d: string)
    ensures Approved(o, r, d).ledger
            == o.ledger + match ApprovedEntry(r, d) case Some(e) => [e] case None => []
  {
    hide ApprovedEntry, DropAll, Remaining;
  }

  /** A rejection or withdrawal changes its request's state and decision and
      nothing else, and only its requester may withdraw it. */
  lemma ClosedOtherwise(o: Office, id: string, d: string, verdict: Verdict)
    requires !verdict.Approve?
    ensures verdict.Withdraw? ==>
              (Decide(o, id, d, verdict).1.None?
               <==> (d in o.users && d !in o.removed && o.users[d].suspendedBy.None?
                 && id in o.requests && o.requests[id].state.Pending? && o.requests[id].requester == d))
    ensures var (after, refusal) := Decide(o, id, d, verdict);
            after == if refusal.Some? then o
                     else o.(requests := o.requests[id := o.requests[id].(
                               state := if verdict.Withdraw? then Withdrawn else Rejected,
                               decision := Some(Decision(verdict, d)))])
  {
    hide CheckDecider;
  }

  /** A refused approval changes nothing. */
  lemma RefusedChangesNothing(o: Office, id: string, d: string)
    requires Decide(o, id, d, Approve).1.Some?
    ensures Decide(o, id, d, Approve).0 == o
  {
    hide CheckDecider, Validate, Approved;
  }

  // ---- who is an admin ----

  datatype Change =
    | Joined(role: Role, permissions: set<string>)
    | Promoted(request: string, permissions: set<string>)
    | Changed(request: string, permissions: set<string>)
    | Demoted(request: string)

  datatype Standing = Standing(role: Role, permissions: set<string>)

  /** What a step that goes through does to user's standing, if anything. */
  function ChangeOf(o: Office, step: Step, user: string): seq<Change> {
    match step
    case Join(id, profile) => if id == user then [Joined(profile.role, profile.permissions)] else []
    case Decides(id, caller, Approve) =>
      if id !in o.requests || Decide(o, id, caller, Approve).1.Some? || !Concerns(o.requests[id], user) then []
      else (
        match o.requests[id].action
        case Promote => [Promoted(id, Spelled(o.requests[id].body))]
        case ChangePermissions => [Changed(id, Spelled(o.requests[id].body))]
        case Demote => [Demoted(id)]
        case _ => [])
    case _ => []
  }

  function Changes(o: Office, steps: seq<Step>, user: string): seq<Change>
    decreases |steps|
  {
    if steps == [] then [] else ChangeOf(o, steps[0], user) + Changes(Next(o, steps[0]), steps[1..], user)
  }

  function StandingOf(o: Office, user: string): Option<Standing> {
    if user in o.users then Some(Standing(o.users[user].role, o.users[user].permissions)) else None
  }

  /** The standing the last change leaves. */
  function Left(was: Option<Standing>, h: seq<Change>): Option<Standing> {
    if h == [] then was
    else match h[|h| - 1]
      case Joined(role, permissions) => Some(Standing(role, permissions))
      case Promoted(_, permissions) => Some(Standing(Admin, permissions))
      case Changed(_, permissions) => Some(Standing(Admin, permissions))
      case Demoted(_) => Some(Standing(User, {}))
  }

  /** The standing each kind of change finds. */
  predicate Finds(was: Option<Standing>, change: Change) {
    match change
    case Joined(_, _) => was.None?
    case Promoted(_, _) => was.Some? && was.value.role.User?
    case _ => was.Some? && was.value.role.Admin?
  }

  lemma StepOnStanding(o: Office, step: Step, user: string)
    requires Inv(o) && Possible(o, step)
    ensures var h := ChangeOf(o, step, user);
            && |h| <= 1 && StandingOf(Next(o, step), user) == Left(StandingOf(o, user), h)
            && (h != [] ==> Finds(StandingOf(o, user), h[0]))
  {
    hide Inv, Decide, Open, Execute, Approved, Spelled, IsRootIdentity, RowAfter;
    if step.Decides? && step.verdict.Approve? && Decide(o, step.id, step.caller, Approve).1.None? {
      StandingApproved(o, step, user);
    } else if step.Decides? && !step.verdict.Approve? {
      ClosedOtherwise(o, step.id, step.caller, step.verdict);
    } else if step.Decides? {
      RefusedChangesNothing(o, step.id, step.caller);
    } else if step.Opens? {
      if Fresh(step.request) { OpenedExactlyWhen(o, step.request); }
    }
  }

  lemma StandingApproved(o: Office, step: Step, user: string)
    requires Inv(o) && step.Decides? && step.verdict.Approve? && Decide(o, step.id, step.caller, Approve).1.None?
    ensures var h := ChangeOf(o, step, user);
            && |h| <= 1 && StandingOf(Next(o, step), user) == Left(StandingOf(o, user), h)
            && (h != [] ==> Finds(StandingOf(o, user), h[0]))
  {
    hide Inv, Decide, Open, Approved, Execute, Spelled, Leave, Finds;
    ApprovalEffects(o, step.id, step.caller);
    ApprovedIsThere(o, step.id, step.caller);
    if ChangeOf(o, step, user) != [] { ApprovalFinds(o, step, user); }
    if user in o.users {
      assert RowAfter(o.requests[step.id], user, o.users[user], Next(o, step).users[user]);
    }
  }

  lemma ApprovedIsThere(o: Office, id: string, d: string)
    requires Inv(o) && Decide(o, id, d, Approve).1.None?
    ensures id in o.requests
  {
    ApprovedIs(o, id, d);
  }

  /** A target of a promotion was a user, and of the other two an admin. */
  lemma ApprovalFinds(o: Office, step: Step, user: string)
    requires Inv(o) && step.Decides? && step.verdict.Approve? && Decide(o, step.id, step.caller, Approve).1.None?
    requires ChangeOf(o, step, user) != []
    ensures user in o.users && Finds(StandingOf(o, user), ChangeOf(o, step, user)[0])
  {
    ApprovedIs(o, step.id, step.caller);
    hide Decide, Inv, RequestOk, MayApprove, Spelled;
    var r := o.requests[step.id];
    WithoutMeans(r.targets, r.dropped);
    assert user in Remaining(r);
  }

  lemma {:induction false} ChangesAddUp(o: Office, steps: seq<Step>, user: string)
    requires Inv(o) && PossibleRun(o, steps)
    ensures var h := Changes(o, steps, user);
            && StandingOf(Run(o, steps), user) == Left(StandingOf(o, user), h)
            && AllFind(StandingOf(o, user), h)
    decreases |steps|
  {
    assert Left(StandingOf(o, user), []) == StandingOf(o, user) && AllFind(StandingOf(o, user), []);
    hide Left, AllFind, StandingOf, ChangeOf, Next, Inv, Possible, Finds;
    if steps != [] {
      StepOnStanding(o, steps[0], user);
      StepKeepsInv(o, steps[0]);
      ChangesAddUp(Next(o, steps[0]), steps[1..], user);
      LeftConcat(StandingOf(o, user), ChangeOf(o, steps[0], user), Changes(Next(o, steps[0]), steps[1..], user));
    }
  }

  ghost predicate AllFind(was: Option<Standing>, h: seq<Change>) {
    forall i :: 0 <= i < |h| ==> Finds(Left(was, h[..i]), h[i])
  }

  lemma LeftOfConcat(was: Option<Standing>, a: seq<Change>, b: seq<Change>)
    ensures Left(was, a + b) == Left(Left(was, a), b)
  {
    if b == [] { assert a + b == a; } else { assert (a + b)[|a + b| - 1] == b[|b| - 1]; }
  }

  lemma LeftConcat(was: Option<Standing>, first: seq<Change>, rest: seq<Change>)
    requires |first| <= 1 && (first != [] ==> Finds(was, first[0]))
    requires AllFind(Left(was, first), rest)
    ensures Left(was, first + rest) == Left(Left(was, first), rest)
    ensures AllFind(was, first + rest)
  {
    LeftOfConcat(was, first, rest);
    assert Left(was, []) == was;
    var h := first + rest;
    hide Finds, Left;
    forall i | 0 <= i < |h| ensures Finds(Left(was, h[..i]), h[i]) {
      if i < |first| {
        assert h[..i] == [] && h[i] == first[0];
      } else {
        var k := i - |first|;
        assert h[i] == rest[k] && Finds(Left(Left(was, first), rest[..k]), rest[k]);
        assert h[..i] == first + rest[..k];
        LeftOfConcat(was, first, rest[..k]);
      }
    }
  }

  /** Whether a change makes its user an admin. */
  predicate MakesAdmin(change: Change) {
    change.Promoted? || (change.Joined? && change.role.Admin?)
  }

  ghost predicate AdminSince(h: seq<Change>, i: nat) {
    i < |h| && MakesAdmin(h[i]) && forall j :: i < j < |h| ==> !h[j].Demoted?
  }

  lemma {:induction false} AdminByHistory(h: seq<Change>)
    requires AllFind(None, h)
    ensures (Left(None, h).Some? && Left(None, h).value.role.Admin?) <==> exists i: nat :: AdminSince(h, i)
  {
    if h != [] {
      var n := |h| - 1;
      var was := h[..n];
      forall i | 0 <= i < n ensures Finds(Left(None, was[..i]), was[i]) { assert was[..i] == h[..i]; }
      AdminByHistory(was);
      SinceOneMore(was, h[n]);
      assert h == was + [h[n]];
      assert Finds(Left(None, was), h[n]);
      hide AdminSince, AllFind;
      if h[n].Joined? { NobodyYet(was); }
    }
  }

  lemma NobodyYet(h: seq<Change>)
    requires Left(None, h).None?
    ensures h == []
  {}

  lemma SinceOneMore(was: seq<Change>, last: Change)
    ensures (exists i: nat :: AdminSince(was + [last], i))
            <==> MakesAdmin(last) || (!last.Demoted? && exists i: nat :: AdminSince(was, i))
  {
    var h := was + [last];
    if MakesAdmin(last) { assert AdminSince(h, |was|); }
    if i: nat :| AdminSince(was, i) && !last.Demoted? { assert AdminSince(h, i); }
    if i: nat :| AdminSince(h, i) && !MakesAdmin(last) {
      assert h[|was|] == last;
      assert forall j :: i < j < |was| ==> was[j] == h[j];
      assert AdminSince(was, i);
    }
  }

  /** In every run a member is an admin exactly when they joined as one or were
      promoted and weren't demoted since, holds what was last granted them, and
      is promoted only as a user, changed or demoted only as an admin. */
  lemma AdminsAreTheHistory(start: Office, steps: seq<Step>, user: string)
    requires Initial(start) && PossibleRun(start, steps)
    ensures var h := Changes(start, steps, user);
            var o := Run(start, steps);
            && (user in o.users <==> h != [])
            && (RoleIs(o, user, Admin) <==> exists i: nat :: AdminSince(h, i))
            && (user in o.users && !h[|h| - 1].Demoted? ==> o.users[user].permissions == h[|h| - 1].permissions)
            && (user in o.users && h[|h| - 1].Demoted? ==> o.users[user].permissions == {})
            && AllFind(None, h)
  {
    assert Inv(start) && StandingOf(start, user) == None;
    hide *;
    ChangesAddUp(start, steps, user);
    AdminByHistory(Changes(start, steps, user));
    LeftMeans(Run(start, steps), user, Changes(start, steps, user));
  }

  lemma LeftMeans(o: Office, user: string, h: seq<Change>)
    requires StandingOf(o, user) == Left(None, h)
    ensures user in o.users <==> h != []
    ensures RoleIs(o, user, Admin) <==> Left(None, h).Some? && Left(None, h).value.role.Admin?
    ensures h != [] ==>
              o.users[user].permissions == if h[|h| - 1].Demoted? then {} else h[|h| - 1].permissions
  {}
}
