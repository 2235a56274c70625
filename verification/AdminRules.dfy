/** What the rules for requests amount to: who may approve one, exactly. */
module AdminRules {
  import opened Options
  import opened Text
  import opened Permissions
  import Identifiers
  import opened AdminRequests

  /** Root is the one reserved identity; users and targets are local. */
  ghost predicate RolesOk(o: Office) {
    && ROOT_USER_ID !in o.users
    && forall u :: u in o.users && o.users[u].role.Root? ==> u == RootId(o.self)
  }

  /** The row of the one user who is root. */
  ghost predicate RootRow(o: Office, id: string) {
    id in o.users && o.users[id].role.Root? && (id == "1@" + o.self || id == "1")
  }

  /** Root holds every permission and an admin those of their row. */
  ghost predicate Holds(o: Office, id: string, p: string) {
    (RootRow(o, id) && p in ADMIN_PERMISSIONS)
    || (id in o.users && o.users[id].role.Admin? && p in o.users[id].permissions)
  }

  ghost predicate HoldsFor(o: Office, id: string, action: Action) {
    match action
    case Suspend => Holds(o, id, "user.suspend")
    case Reinstate => Holds(o, id, "user.suspend")
    case Kick => Holds(o, id, "user.kick")
    case Promote => Holds(o, id, "admin.create")
    case Demote => Holds(o, id, "admin.demote")
    case Rebind => Holds(o, id, "user.rebind")
    case Invites => Holds(o, id, "user.invites")
    case Broadcast => Holds(o, id, "message.broadcast")
    case Unicast => Holds(o, id, "message.unicast")
    case ChangePermissions => true
  }

  /** The permissions a body spells. */
  function Spelled(body: string): set<string> {
    match ParsePermissionSet(body) case Parsed(perms) => (set p | p in perms) case _ => {}
  }

  ghost predicate Adds(o: Office, r: Request) {
    exists p :: p in Spelled(r.body) && !Holds(o, Target(r), p)
  }

  ghost predicate Takes(o: Office, r: Request) {
    exists p :: Holds(o, Target(r), p) && p !in Spelled(r.body)
  }

  /** The permissions r needs, and those it grants, are the actor's. */
  ghost predicate Empowered(o: Office, r: Request, actor: string) {
    && HoldsFor(o, actor, r.action)
    && (r.action.Promote? || r.action.ChangePermissions? ==>
          ParsePermissionSet(r.body).Parsed? && forall p :: p in Spelled(r.body) ==> Holds(o, actor, p))
    && (r.action.ChangePermissions? ==>
          && (Adds(o, r) || Takes(o, r))
          && (Adds(o, r) ==> Holds(o, actor, "admin.create"))
          && (Takes(o, r) ==> Holds(o, actor, "admin.demote")))
  }

  /** Who may approve r as things are, rule by rule. */
  ghost predicate MayApprove(o: Office, r: Request, d: string) {
    && d in o.users && d !in o.removed && o.users[d].suspendedBy.None?
    && !o.users[d].role.User?
    && (d == r.requester ==> RootRow(o, d))
    && d !in r.targets
    && (r.action.Kick? || r.action.Promote? || r.action.Demote? || r.action.ChangePermissions? ==>
          o.users[d].invitedBy != Some(r.requester))
    && Empowered(o, r, d)
    && (!RootRow(o, d) ==> forall t :: t in Remaining(r) && t in o.users ==> !o.users[t].role.Admin?)
  }

  /** The targets left are still as the action takes them. */
  ghost predicate StillFits(o: Office, r: Request) {
    match r.action
    case Suspend => forall t :: t in Remaining(r) && t in o.users ==> o.users[t].suspendedBy.None?
    case Reinstate => forall t :: t in Remaining(r) ==> t in o.users && o.users[t].suspendedBy.Some?
    case Promote => forall t :: t in Remaining(r) ==> t in o.users && o.users[t].role.User?
    case ChangePermissions => forall t :: t in Remaining(r) ==> t in o.users && o.users[t].role.Admin?
    case Demote => forall t :: t in Remaining(r) ==> t in o.users && o.users[t].role.Admin?
    case Rebind =>
      && (Target(r) in o.users ==> o.users[Target(r)].suspendedBy.None?)
      && r.fingerprint.Some? && Target(r) + "/" + r.fingerprint.value !in o.keys
    case Invites => o.invitesLimited
    case _ => true
  }

  lemma {:induction false} NothingMissing(required: seq<string>, held: set<string>)
    ensures FirstMissing(required, held).None? <==> forall p :: p in required ==> p in held
  {
    if required != [] {
      NothingMissing(required[1..], held);
      assert required == [required[0]] + required[1..];
    }
  }

  lemma RootMeans(o: Office, id: string)
    ensures IsRootIdentity(o.self, id) <==> id == "1@" + o.self || id == "1"
    ensures IsRoot(o, id) <==> RootRow(o, id)
  {
    assert RootId(o.self) == "1" + ['@'] + o.self;
  }

  lemma PermissionsMean(o: Office, id: string)
    ensures forall p :: p in PermissionsOf(o, id) <==> Holds(o, id, p)
  {
    RootMeans(o, id);
    hide IsRoot, IsRootIdentity;
  }

  lemma RequiredMeans(o: Office, r: Request, actor: string)
    ensures RequiredPermissions(o, r).Required? <==>
              (r.action.ChangePermissions? ==> ParsePermissionSet(r.body).Parsed? && (Adds(o, r) || Takes(o, r)))
    ensures RequiredPermissions(o, r).Required? ==>
              ((forall p :: p in RequiredPermissions(o, r).permissions ==> Holds(o, actor, p)) <==>
                if r.action.ChangePermissions?
                then (Adds(o, r) ==> Holds(o, actor, "admin.create"))
                       && (Takes(o, r) ==> Holds(o, actor, "admin.demote"))
                else HoldsFor(o, actor, r.action))
  {
    PermissionsMean(o, Target(r));
    hide ParsePermissionSet, PermissionsOf, Holds;
    if r.action.ChangePermissions? && ParsePermissionSet(r.body).Parsed? {
      var now, perms := PermissionsOf(o, Target(r)), ParsePermissionSet(r.body).perms;
      assert forall p :: p in Spelled(r.body) <==> p in perms;
      assert (exists p :: p in perms && p !in now) <==> Adds(o, r);
      assert (exists p :: p in now && p !in perms) <==> Takes(o, r);
    }
  }

  lemma ActorMeans(o: Office, r: Request, actor: string)
    ensures CheckActorPermissions(o, r, actor).None? <==> Empowered(o, r, actor)
  {
    hide ParsePermissionSet, PermissionsOf, ActionPermission, RequiredPermissions, Holds, Adds, Takes;
    var held := PermissionsOf(o, actor);
    RequiredMeans(o, r, actor);
    PermissionsMean(o, actor);
    match RequiredPermissions(o, r) {
      case Required(required) =>
        match GrantedPermissions(r) {
          case Parsed(granted) =>
            NothingMissing(required + granted, held);
            assert forall p :: p in required + granted <==> p in required || p in granted;
            assert Grants(r.action) ==> forall p :: p in Spelled(r.body) <==> p in granted;
          case _ =>
        }
      case Refused(_) =>
    }
  }

  lemma DeciderMeans(o: Office, r: Request, d: string)
    requires Admitted(o, d)
    ensures CheckDecider(o, r, d).None? <==> MayApprove(o, r, d)
  {
    RootMeans(o, d);
    hide PermissionsOf, Empowered, CheckActorPermissions, IsRootIdentity, IsRoot, RootRow;
    ActorMeans(o, r, d);
  }

  lemma FitMeans(o: Office, r: Request)
    ensures Validate(o, r).None? <==> StillFits(o, r)
  {}

  /** An approval goes through exactly when the request is pending, the rules
      let its decider approve it as things are now, and its targets still fit. */
  lemma ApprovedExactlyWhen(o: Office, id: string, d: string)
    ensures Decide(o, id, d, Approve).1.None?
            <==> (id in o.requests && o.requests[id].state.Pending? && MayApprove(o, o.requests[id], d)
              && StillFits(o, o.requests[id]))
  {
    hide CheckDecider, Validate, StillFits, Approved, Empowered, IsRoot, IsRootIdentity;
    if id in o.requests && Admitted(o, d) {
      DeciderMeans(o, o.requests[id], d);
      FitMeans(o, o.requests[id]);
    }
  }

  /** A rejection takes the same decider; only the targets needn't fit. */
  lemma RejectedExactlyWhen(o: Office, id: string, d: string)
    ensures Decide(o, id, d, Reject).1.None?
            <==> (id in o.requests && o.requests[id].state.Pending? && MayApprove(o, o.requests[id], d))
  {
    hide CheckDecider, Empowered, IsRoot, IsRootIdentity;
    if id in o.requests && Admitted(o, d) { DeciderMeans(o, o.requests[id], d); }
  }

  /** A member of this server, named in full, who isn't root or gone. */
  ghost predicate MayBeTarget(o: Office, t: string) {
    && |t| > |o.self| + 1 && t[|t| - |o.self| - 1..] == "@" + o.self && o.self != "" && '@' !in o.self
    && t != "1@" + o.self && t != "1" && t in o.users && t !in o.removed
  }

  /** A number from 1 to 100, as strconv.Itoa writes it. */
  ghost predicate OneToHundred(s: string) {
    && 1 <= |s| <= 3 && s[0] != '0' && (forall c :: c in s ==> '0' <= c <= '9')
    && (|s| == 3 ==> s == "100")
  }

  /** What a request of each action says: a reason or none, and a body. */
  ghost predicate TextsFit(r: Request) {
    && (if r.action.Broadcast? || r.action.Unicast? then r.reason == "" else exists c :: c in r.reason && !IsSpace(c))
    && match r.action
       case Broadcast => exists c :: c in r.body && !IsSpace(c)
       case Unicast => exists c :: c in r.body && !IsSpace(c)
       case Rebind => exists c :: c in r.body && !IsSpace(c)
       case Promote => ParsePermissionSet(r.body).Parsed?
       case ChangePermissions => ParsePermissionSet(r.body).Parsed?
       case Invites => OneToHundred(r.body)
       case _ => r.body == ""
  }

  /** How many targets each action is on. */
  ghost predicate CountFits(r: Request) {
    if r.action.Broadcast? then r.targets == []
    else if r.action.Suspend? || r.action.Reinstate? || r.action.Kick? then r.targets != []
    else |r.targets| == 1
  }

  /** Who may open r: an admin empowered to do it, about known targets. */
  ghost predicate MayOpen(o: Office, r: Request) {
    && r.requester in o.users && r.requester !in o.removed && o.users[r.requester].suspendedBy.None?
    && !o.users[r.requester].role.User? && Empowered(o, r, r.requester)
    && CountFits(r) && Ascending(r.targets) && (forall t :: t in r.targets ==> MayBeTarget(o, t))
    && TextsFit(r) && StillFits(o, r) && r.id !in o.requests
  }

  lemma {:induction false} TargetsMean(o: Office, targets: seq<string>)
    ensures CheckTargets(o, targets).None? <==> forall t :: t in targets ==> MayBeTarget(o, t)
  {
    if targets != [] {
      Identifiers.ServerOfExactlyWhen(targets[0], o.self);
      RootMeans(o, targets[0]);
      hide IsRootIdentity;
      TargetsMean(o, targets[1..]);
      assert forall t :: t in targets <==> t == targets[0] || t in targets[1..];
      assert MayBeTarget(o, targets[0])
          <==> (Identifiers.ServerOf(targets[0]) == Some(o.self) && !IsRootIdentity(o.self, targets[0])
            && targets[0] in o.users && !Removed(o, targets[0]));
      hide MayBeTarget;
    }
  }

  lemma {:induction false} SortedMeans(targets: seq<string>)
    ensures Sorted(targets) <==> Ascending(targets)
  {
    if |targets| > 1 {
      var rest := targets[1..];
      SortedMeans(rest);
      if Sorted(targets) {
        forall i, j | 0 <= i < j < |targets| ensures Less(targets[i], targets[j]) {
          assert targets[j] == rest[j - 1];
          if i > 0 { assert targets[i] == rest[i - 1]; }
          else if j > 1 { LessTransitive(targets[0], rest[0], rest[j - 1]); }
        }
      }
      if Ascending(targets) {
        forall i, j | 0 <= i < j < |rest| ensures Less(rest[i], rest[j]) {
          assert rest[i] == targets[i + 1] && rest[j] == targets[j + 1];
        }
      }
    }
  }

  lemma DecimalOf(n: nat)
    requires 1 <= n <= MAX_INVITE_GRANT
    ensures OneToHundred(Decimal(n))
  {
    if n == 100 { assert Decimal(n) == Decimal(10) + "0" && Decimal(10) == Decimal(1) + "0" && Decimal(1) == "1"; }
    else if n >= 10 { assert Decimal(n) == Decimal(n / 10) + [('0' as int + n % 10) as char]; }
  }

  lemma GrantMeans(s: string)
    ensures IsGrant(s) <==> OneToHundred(s)
  {
    forall n | 1 <= n <= MAX_INVITE_GRANT && s == Decimal(n) ensures OneToHundred(s) { DecimalOf(n); }
    if OneToHundred(s) {
      assert forall i :: 0 <= i < |s| ==> s[i] in s;
      if |s| == 1 {
        var n := s[0] as int - '0' as int;
        assert s == Decimal(n);
      } else if |s| == 2 {
        var m, k := s[0] as int - '0' as int, s[1] as int - '0' as int;
        var n := 10 * m + k;
        assert n / 10 == m && n % 10 == k;
        assert Decimal(m) == [s[0]] && s == [s[0]] + [s[1]];
        assert s == Decimal(n);
      } else {
        assert Decimal(100) == Decimal(10) + "0" && Decimal(10) == Decimal(1) + "0" && Decimal(1) == "1";
        assert s == Decimal(100);
      }
    }
  }

  lemma TextsMean(r: Request)
    ensures CheckTexts(r).None? <==> TextsFit(r)
  {
    GrantMeans(r.body);
    hide ParsePermissionSet, OneToHundred, IsGrant, IsSpace;
  }

  /** A request is opened exactly when its requester is an admitted admin
      empowered for it, its targets are members in order and fit the action, and
      its texts are as the action takes them; otherwise nothing changes. */
  lemma OpenedExactlyWhen(o: Office, r: Request)
    requires Fresh(r)
    ensures Open(o, r).1.None? <==> MayOpen(o, r)
    ensures Open(o, r).0 == if MayOpen(o, r) then o.(requests := o.requests[r.id := r]) else o
  {
    TargetsMean(o, r.targets);
    SortedMeans(r.targets);
    TextsMean(r);
    ActorMeans(o, r, r.requester);
    FitMeans(o, r);
    hide CheckTexts, Validate, StillFits, Empowered, CheckTargets, CheckActorPermissions, Sorted, MayBeTarget,
         TextsFit, Ascending;
  }

  lemma OpenedOnlyWhen(o: Office, r: Request)
    requires Fresh(r) && Open(o, r).1.None?
    ensures MayOpen(o, r) && TargetCountFits(r.action, |r.targets|)
    ensures forall t :: t in r.targets ==> t in o.users && t !in o.removed && !IsRootIdentity(o.self, t)
  {
    OpenedExactlyWhen(o, r);
    hide Open, StillFits, Empowered, TextsFit, Ascending, IsRootIdentity;
    forall t | t in r.targets ensures !IsRootIdentity(o.self, t) { RootMeans(o, t); }
  }

  /** Nobody but root demotes an admin or changes one's permissions. */
  lemma OnlyRootChangesAdmins(o: Office, r: Request, d: string)
    requires MayApprove(o, r, d) && StillFits(o, r) && Remaining(r) != []
    requires r.action.Demote? || r.action.ChangePermissions?
    ensures IsRoot(o, d)
  {
    RootMeans(o, d);
    hide Empowered, IsRootIdentity, IsRoot;
    assert Remaining(r)[0] in Remaining(r);
  }
}
