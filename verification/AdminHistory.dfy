/** What runs of admin requests leave behind: suspensions and the ledger. */
module AdminHistory {
  import opened Options
  import opened AdminRequests
  import opened AdminRuns

  // ---- suspensions ----

  datatype Event = Suspended(request: string) | Reinstated(request: string)

  /** The executed suspension or reinstatement of user a step is, if it is. */
  function EventOf(o: Office, step: Step, user: string): seq<Event> {
    if !step.Decides? || !step.verdict.Approve? || step.id !in o.requests
        || Decide(o, step.id, step.caller, Approve).1.Some?
      || user !in Remaining(o.requests[step.id])
    then []
    else match o.requests[step.id].action
      case Suspend => [Suspended(step.id)]
      case Reinstate => [Reinstated(step.id)]
      case _ => []
  }

  function History(o: Office, steps: seq<Step>, user: string): seq<Event>
    decreases |steps|
  {
    if steps == [] then [] else EventOf(o, steps[0], user) + History(Next(o, steps[0]), steps[1..], user)
  }

  /** What the last event leaves of a user's suspension. */
  function After(was: Option<string>, h: seq<Event>): Option<string> {
    if h == [] then was
    else match h[|h| - 1] case Suspended(id) => Some(id) case Reinstated(_) => None
  }

  function SuspendedBy(o: Office, user: string): Option<string> {
    if user in o.users then o.users[user].suspendedBy else None
  }

  /** A step's event finds the user as the other kind left them. */
  lemma StepOnSuspension(o: Office, step: Step, user: string)
    requires Inv(o) && Possible(o, step)
    ensures var h := EventOf(o, step, user);
            && |h| <= 1 && SuspendedBy(Next(o, step), user) == After(SuspendedBy(o, user), h)
            && (h != [] ==> (h[0].Suspended? <==> SuspendedBy(o, user).None?))
  {
    hide IsRootIdentity, CheckDecider, ValidateNew, ApprovedEntry, DropAll, DropFrom, GrantedSet, Tracks;
    if step.Decides? && step.verdict.Approve? && step.id in o.requests
        && Decide(o, step.id, step.caller, Approve).1.None? {
      var r := o.requests[step.id];
      assert RequestOk(o, r);
      WithoutMeans(r.targets, r.dropped);
      assert Validate(o, r).None?;
      hide Decide;
      ApprovedUsers(o, r, step.caller);
      assert Next(o, step) == Approved(o, r, step.caller) by { ApprovedIsNext(o, step); }
      hide Approved, Next;
    }
  }

  lemma ApprovedIsNext(o: Office, step: Step)
    requires Inv(o) && step.Decides? && step.verdict.Approve? && step.id in o.requests
    requires Decide(o, step.id, step.caller, Approve).1.None?
    ensures Next(o, step) == Approved(o, o.requests[step.id], step.caller)
  {
    hide Approved, CheckDecider, Validate;
  }

  lemma ApprovedUsers(o: Office, r: Request, approver: string)
    ensures Approved(o, r, approver).users == Execute(o, r).users
    ensures forall u :: SuspendedBy(Approved(o, r, approver), u)
                        == if u in o.users && u in Remaining(r) && r.action.Suspend? then Some(r.id)
                           else if u in o.users && u in Remaining(r) && r.action.Reinstate? then None
                           else SuspendedBy(o, u)
  {
    hide ApprovedEntry, DropAll, GrantedSet, Remaining, SetOf, RebindKeyId;
    ApprovedKeepsExecuted(o, r, approver);
    hide Approved;
  }

  lemma {:induction false} HistoryAlternates(o: Office, steps: seq<Step>, user: string)
    requires Inv(o) && PossibleRun(o, steps)
    ensures var h := History(o, steps, user);
            && SuspendedBy(Run(o, steps), user) == After(SuspendedBy(o, user), h)
            && forall i :: 0 <= i < |h| ==> (h[i].Suspended? <==> (i % 2 == 0) == SuspendedBy(o, user).None?)
    decreases |steps|
  {
    hide Inv, Next, Possible, EventOf, SuspendedBy;
    if steps != [] {
      StepOnSuspension(o, steps[0], user);
      StepKeepsInv(o, steps[0]);
      HistoryAlternates(Next(o, steps[0]), steps[1..], user);
      var first, rest := EventOf(o, steps[0], user), History(Next(o, steps[0]), steps[1..], user);
      assert History(o, steps, user) == first + rest;
    }
  }

  /** The suspensions and reinstatements executed on a user alternate, starting
      with a suspension, and they are suspended by the last, if it is one. */
  lemma SuspensionsAlternate(start: Office, steps: seq<Step>, user: string)
    requires Initial(start) && PossibleRun(start, steps)
    ensures var h := History(start, steps, user);
            && (forall i :: 0 <= i < |h| ==> (h[i].Suspended? <==> i % 2 == 0))
            && SuspendedBy(Run(start, steps), user) == if |h| % 2 == 1 then Some(h[|h| - 1].request) else None
  {
    HistoryAlternates(start, steps, user);
  }

  // ---- the ledger ----

  function EntriesOf(ledger: seq<Entry>, id: string): seq<Entry> {
    if ledger == [] then []
    else
      var last := ledger[|ledger| - 1];
      EntriesOf(ledger[..|ledger| - 1], id) + if last.request == id then [last] else []
  }

  /** The entries id should have: one once executed, none for a message. */
  function EntriesDue(o: Office, id: string): seq<Entry> {
    if id !in o.requests || !o.requests[id].state.Executed? || o.requests[id].decision.None? then []
    else match ApprovedEntry(o.requests[id], o.requests[id].decision.value.decider)
      case Some(e) => [e]
      case None => []
  }

  ghost predicate LedgerOk(o: Office) {
    forall id {:trigger EntriesDue(o, id)} :: EntriesOf(o.ledger, id) == EntriesDue(o, id)
  }

  lemma StepOnLedger(o: Office, step: Step)
    requires Inv(o)
    ensures var ledger := Next(o, step).ledger;
            || (step.Decides? && step.verdict.Approve? && step.id in o.requests && o.requests[step.id].id == step.id
                && Decide(o, step.id, step.caller, Approve).1.None?
                && ApprovedEntry(o.requests[step.id], step.caller).Some?
                && ledger == o.ledger + [ApprovedEntry(o.requests[step.id], step.caller).value])
            || (ledger == o.ledger
                && (step.Decides? && step.verdict.Approve? && step.id in o.requests
                      && Decide(o, step.id, step.caller, Approve).1.None?
                    ==> ApprovedEntry(o.requests[step.id], step.caller).None?))
  {
    hide CheckDecider, Validate, ValidateNew, ApprovedEntry, DropAll, DropFrom, Remaining, IsRootIdentity,
         GrantedSet, Execute;
    assert step.Decides? && step.id in o.requests ==> o.requests[step.id].id == step.id;
    if step.Decides? && step.id in o.requests { ExecuteKeepsLedger(o, o.requests[step.id]); }
  }

  lemma ExecuteKeepsLedger(o: Office, r: Request)
    ensures Execute(o, r).ledger == o.ledger
  {}

  /** An entry says only what the request said. */
  lemma EntryOfTerms(a: Request, b: Request, approver: string)
    requires SameTerms(a, b)
    ensures ApprovedEntry(a, approver) == ApprovedEntry(b, approver)
    ensures ApprovedEntry(a, approver).Some? ==> ApprovedEntry(a, approver).value.request == a.id
  {}

  /** Only the request a step approves becomes owed an entry. */
  lemma DueAfter(o: Office, step: Step, id: string)
    requires Inv(o) && Possible(o, step)
    ensures EntriesDue(Next(o, step), id)
            == if step.Decides? && step.verdict.Approve? && step.id == id && id in o.requests
                  && Decide(o, id, step.caller, Approve).1.None?
               then match ApprovedEntry(o.requests[id], step.caller) case Some(e) => [e] case None => []
               else EntriesDue(o, id)
  {
    hide Next, ApprovedEntry, Inv, Decide, Open, Remaining;
    assert IdsOk(o) by { assert Inv(o); InvIds(o); }
    StepOnRequest(o, step, id);
    if id in o.requests {
      AfterIsTheSame(o, step, id);
      var d := if step.Decides? then step.caller else "";
      EntryOfTerms(o.requests[id], RequestAfter(o, step, id).value, d);
      if o.requests[id].decision.Some? {
        EntryOfTerms(o.requests[id], RequestAfter(o, step, id).value, o.requests[id].decision.value.decider);
      }
      if step.Decides? && step.id in o.requests { DropEachKeeps(o.requests[id], Remaining(o.requests[step.id])); }
      if step.Decides? && step.id == id && !o.requests[id].state.Pending? { PendingUnlessRefused(o, step, id); }
    }
  }

  lemma InvIds(o: Office)
    requires Inv(o)
    ensures IdsOk(o)
  {}

  lemma PendingUnlessRefused(o: Office, step: Step, id: string)
    requires id in o.requests && step.Decides? && step.id == id && !o.requests[id].state.Pending?
    ensures Decide(o, id, step.caller, step.verdict).1.Some?
  {}

  lemma StepKeepsLedger(o: Office, step: Step)
    requires Inv(o) && Possible(o, step) && LedgerOk(o)
    ensures LedgerOk(Next(o, step))
  {
    hide Next, ApprovedEntry, Inv, Decide;
    StepOnLedger(o, step);
    var after := Next(o, step).ledger;
    forall id ensures EntriesOf(after, id) == EntriesDue(Next(o, step), id) {
      assert EntriesOf(o.ledger, id) == EntriesDue(o, id);
      DueAfter(o, step, id);
      if after != o.ledger {
        var r := o.requests[step.id];
        EntryOfTerms(r, r, step.caller);
        assert after[..|after| - 1] == o.ledger;
      }
      if step.Decides? && step.id == id && id in o.requests && Decide(o, id, step.caller, step.verdict).1.None? {
        DueWhilePending(o, step);
      }
    }
  }

  lemma DueWhilePending(o: Office, step: Step)
    requires Inv(o) && step.Decides? && step.id in o.requests && Decide(o, step.id, step.caller, step.verdict).1.None?
    ensures EntriesDue(o, step.id) == []
  {
    hide ApprovedEntry, Inv;
    if !o.requests[step.id].state.Pending? { PendingUnlessRefused(o, step, step.id); }
  }

  lemma {:induction false} RunKeepsLedger(o: Office, steps: seq<Step>)
    requires Inv(o) && PossibleRun(o, steps) && LedgerOk(o)
    ensures LedgerOk(Run(o, steps))
    decreases |steps|
  {
    hide Inv, Next, Possible, LedgerOk;
    if steps != [] {
      StepKeepsInv(o, steps[0]);
      StepKeepsLedger(o, steps[0]);
      RunKeepsLedger(Next(o, steps[0]), steps[1..]);
    }
  }

  /** The ledger has one entry for every executed request but a message, naming
      its approver, and none for anything else. */
  lemma LedgerRecordsExecutions(start: Office, steps: seq<Step>, id: string)
    requires Initial(start) && PossibleRun(start, steps)
    ensures var o := Run(start, steps);
            |EntriesOf(o.ledger, id)|
            == if id in o.requests && o.requests[id].state.Executed? && !o.requests[id].action.Unicast? then 1 else 0
    ensures var o := Run(start, steps);
            EntriesOf(o.ledger, id) != [] ==>
              var e := EntriesOf(o.ledger, id)[0];
              && o.requests[id].decision == Some(Decision(Approve, e.approver))
              && e.requester == o.requests[id].requester && e.targets == o.requests[id].targets
  {
    RunKeepsInv(start, steps);
    RunKeepsLedger(start, steps);
    var o := Run(start, steps);
    assert EntriesOf(o.ledger, id) == EntriesDue(o, id);
    if id in o.requests { assert RequestOk(o, o.requests[id]); }
  }
}
