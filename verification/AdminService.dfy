/** The transactions that open and decide admin requests, on the tables. */
module AdminService {
  import opened Options
  import opened AdminRequests

  /** SetSuspension of the first n targets. */
  lemma SuspendedOneMore(users: map<string, Profile>, targets: seq<string>, n: nat, suspendedBy: Option<string>)
    requires n < |targets|
    ensures var was := SetSuspension(users, targets[..n], suspendedBy);
            SetSuspension(users, targets[..n + 1], suspendedBy)
            == if targets[n] in was then was[targets[n] := was[targets[n]].(suspendedBy := suspendedBy)] else was
  {
    assert targets[..n + 1] == targets[..n] + [targets[n]];
  }

  /** Requests of which those in closed have been closed if they are moot. */
  function MootClosed(requests: map<string, Request>, closed: set<string>): map<string, Request> {
    map id | id in requests :: if id in closed then CloseMoot(requests[id]) else requests[id]
  }

  predicate IsDropped(r: Request, user: string) {
    r.state.Pending? && user in r.targets && user !in r.dropped
  }

  /** What marking a user dropped and then closing what is moot comes to. */
  lemma MarkedThenClosed(requests: map<string, Request>, user: string, touched: set<string>)
    requires touched == set id | id in requests && IsDropped(requests[id], user)
    ensures MootClosed(Marked(requests, user), touched) == DropFrom(requests, user)
  {
    hide CloseMoot;
  }

  function Marked(requests: map<string, Request>, user: string): map<string, Request> {
    map id | id in requests ::
      if IsDropped(requests[id], user) then requests[id].(dropped := requests[id].dropped + {user}) else requests[id]
  }

  class AdminService {
    const self: string
    const invitesLimited: bool
    var users: map<string, Profile>
    var removed: set<string>
    var keys: set<string>
    var requests: map<string, Request>
    var ledger: seq<Entry>

    function Value(): Office
      reads this
    {
      Office(self, invitesLimited, users, removed, keys, requests, ledger)
    }

    constructor (self: string, invitesLimited: bool)
      ensures Value() == Office(self, invitesLimited, map[], {}, {}, map[], [])
    {
      this.self, this.invitesLimited := self, invitesLimited;
      users, removed, keys, requests, ledger := map[], {}, {}, map[], [];
    }

    method OpenAdminRequest(r: Request) returns (refusal: Option<Refusal>)
      requires Fresh(r)
      modifies this`requests
      ensures (Value(), refusal) == Open(old(Value()), r)
    {
      if !Admitted(Value(), r.requester) { return Some(Unauthorized); }
      refusal := ValidateNew(Value(), r);
      if refusal.Some? { return; }
      if r.id in requests { return Some(Exists); }
      requests := requests[r.id := r];
    }

    method SetSuspensions(targets: seq<string>, suspendedBy: Option<string>)
      modifies this`users
      ensures users == SetSuspension(old(users), targets, suspendedBy)
    {
      ghost var was := users;
      assert SetSuspension(was, targets[..0], suspendedBy) == was;
      var n := 0;
      while n < |targets|
        invariant 0 <= n <= |targets|
        invariant users == SetSuspension(was, targets[..n], suspendedBy)
      {
        SuspendedOneMore(was, targets, n, suspendedBy);
        if targets[n] in users { users := users[targets[n] := users[targets[n]].(suspendedBy := suspendedBy)]; }
        n := n + 1;
      }
      assert targets[..n] == targets;
    }

    method RemoveAccounts(targets: seq<string>)
      modifies this`removed
      ensures removed == old(removed) + SetOf(targets)
    {
      var n := 0;
      while n < |targets|
        invariant 0 <= n <= |targets|
        invariant removed == old(removed) + SetOf(targets[..n])
      {
        assert targets[..n + 1] == targets[..n] + [targets[n]];
        removed := removed + {targets[n]};
        n := n + 1;
      }
      assert targets[..n] == targets;
    }

    method RecountersignProfile(user: string, role: Role, permissions: set<string>)
      modifies this`users
      ensures users == SetProfile(old(users), user, role, permissions)
    {
      if user in users { users := users[user := users[user].(role := role, permissions := permissions)]; }
    }

    /** The executor of r's action. */
    method ExecuteAction(r: Request)
      modifies this
      ensures Value() == Execute(old(Value()), r)
    {
      match r.action
      case Suspend => SetSuspensions(Remaining(r), Some(r.id));
      case Reinstate => SetSuspensions(Remaining(r), None);
      case Kick => RemoveAccounts(Remaining(r));
      case Promote => RecountersignProfile(Target(r), Admin, GrantedSet(r));
      case ChangePermissions => RecountersignProfile(Target(r), Admin, GrantedSet(r));
      case Demote => RecountersignProfile(Target(r), User, {});
      case Rebind => keys := keys + {RebindKeyId(r)};
      case _ =>
    }

    /** Closes a request only while it is pending. */
    method CloseAdminRequest(r: Request, verdict: Verdict, decider: string) returns (refusal: Option<Refusal>)
      modifies this`requests
      ensures r.id in old(requests) && old(requests)[r.id].state.Pending? ==>
                refusal.None? && requests == old(requests)[r.id := Close(r, verdict, decider)]
      ensures !(r.id in old(requests) && old(requests)[r.id].state.Pending?) ==>
                refusal == Some(NotPending) && requests == old(requests)
    {
      if r.id !in requests || !requests[r.id].state.Pending? { return Some(NotPending); }
      requests := requests[r.id := Close(r, verdict, decider)];
      refusal := None;
    }

    /** An approval or rejection by another admin, or a withdrawal. */
    method DecideAdminRequest(id: string, caller: string, verdict: Verdict) returns (refusal: Option<Refusal>)
      requires id in requests ==> requests[id].id == id
      modifies this
      ensures (Value(), refusal) == Decide(old(Value()), id, caller, verdict)
    {
      if !Admitted(Value(), caller) { return Some(Unauthorized); }
      if id !in requests { return Some(NotFound); }
      var r := requests[id];
      if !r.state.Pending? { return Some(NotPending); }
      if verdict.Withdraw? {
        if caller != r.requester { return Some(NotRequester); }
      } else {
        refusal := CheckDecider(Value(), r, caller);
        if refusal.Some? { return; }
      }
      if verdict.Approve? {
        refusal := Validate(Value(), r);
        if refusal.Some? { return; }
        hide CheckDecider, Validate, Execute, ApprovedEntry, Admitted;
        Approve(r, caller);
        refusal := None;
      } else {
        refusal := CloseAdminRequest(r, verdict, caller);
      }
    }

    method Approve(r: Request, approver: string)
      requires r.id in requests && requests[r.id].state.Pending?
      modifies this
      ensures Value() == Approved(old(Value()), r, approver)
    {
      hide Execute, ApprovedEntry, Close;
      ghost var o := Value();
      ExecuteKeepsRequests(o, r);
      ExecuteAction(r);
      var _ := CloseAdminRequest(r, Verdict.Approve, approver);
      var entry := ApprovedEntry(r, approver);
      if entry.Some? { ledger := ledger + [entry.value]; }
      if r.action.Kick? {
        DropAllFromAdminRequests(Remaining(r));
      }
    }

    /** Leaves a removed user out of every pending request; then closes those
        left with nobody. */
    method DropFromAdminRequests(user: string)
      modifies this`requests
      ensures requests == DropFrom(old(requests), user)
    {
      ghost var was := requests;
      var touched := set id | id in requests && IsDropped(requests[id], user);
      requests := Marked(requests, user);
      ghost var marked := requests;
      var left := touched;
      assert MootClosed(marked, {}) == marked;
      while left != {}
        invariant left <= touched && touched <= marked.Keys
        invariant requests == MootClosed(marked, touched - left)
        decreases left
      {
        var id :| id in left;
        CloseIfMoot(id);
        assert requests == MootClosed(marked, touched - left + {id});
        assert touched - (left - {id}) == touched - left + {id};
        left := left - {id};
      }
      assert touched - left == touched;
      MarkedThenClosed(was, user, touched);
    }

    /** Moot is a pending request that had targets and has none left. */
    method CloseIfMoot(id: string)
      modifies this`requests
      ensures requests
              == if id in old(requests) then old(requests)[id := CloseMoot(old(requests)[id])] else old(requests)
    {
      if id !in requests || !requests[id].state.Pending? { return; }
      var r := requests[id];
      if r.targets == [] || Remaining(r) != [] { return; }
      requests := requests[id := r.(state := Moot)];
    }

    method DropAllFromAdminRequests(gone: seq<string>)
      modifies this`requests
      ensures requests == DropAll(old(requests), gone)
    {
      ghost var was := requests;
      var n := 0;
      while n < |gone|
        invariant 0 <= n <= |gone|
        invariant DropAll(requests, gone[n..]) == DropAll(was, gone)
      {
        assert gone[n..][1..] == gone[n + 1..];
        DropFromAdminRequests(gone[n]);
        n := n + 1;
      }
      assert gone[n..] == [];
    }
  }

  lemma ExecuteKeepsRequests(o: Office, r: Request)
    ensures Execute(o, r).requests == o.requests && Execute(o, r).ledger == o.ledger
  {}
}
