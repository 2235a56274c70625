/** Requests one admin opens and a second decides, and what approving does. */
module AdminRequests {
  import opened Options
  import opened Text
  import opened Permissions
  import Identifiers

  datatype Role = Root | Admin | User

  /** A row of users: suspendedBy names the request that suspended them. */
  datatype Profile = Profile(
    role: Role,
    invitedBy: Option<string>,
    suspendedBy: Option<string>,
    permissions: set<string>)

  datatype Action =
    | Suspend | Reinstate | Kick | Promote | Demote
    | ChangePermissions | Rebind | Invites | Broadcast | Unicast

  datatype Verdict = Approve | Reject | Withdraw
  datatype State = Pending | Executed | Rejected | Withdrawn | Moot
  datatype Decision = Decision(verdict: Verdict, decider: string)

  /** fingerprint is that of the key a rebind's body holds, if it parses. */
  datatype Request = Request(
    id: string,
    action: Action,
    requester: string,
    targets: seq<string>,
    dropped: set<string>,
    reason: string,
    body: string,
    fingerprint: Option<string>,
    state: State,
    decision: Option<Decision>)

  datatype Entry = Entry(
    request: string,
    approver: string,
    requester: string,
    targets: seq<string>,
    message: string,
    content: string)

  datatype Refusal =
    | Unauthorized | Exists | NotFound | NotPending | NotRequester
    | NotAdmin | SelfDecision | TargetDecision | InviteeDecision | RootRequired
    | MissingPermission(permission: string) | PermissionsUnchanged | BadPermissions
    | BadTargets | ForeignTarget | RootTarget | TargetNotFound | TargetRemoved
    | BadReason | BadMessage | BadBody | BadKey | KeyExists
    | AlreadySuspended | NotSuspended | TargetRole | TargetSuspended | NoInviteLimit

  /** A server's users, removals, registered keys, requests and ledger. */
  datatype Office = Office(
    self: string,
    invitesLimited: bool,
    users: map<string, Profile>,
    removed: set<string>,
    keys: set<string>,
    requests: map<string, Request>,
    ledger: seq<Entry>)

  const ROOT_USER_ID := "1"
  const MAX_INVITE_GRANT := 100

  function RootId(self: string): string {
    Identifiers.CanonicalId(self, ROOT_USER_ID)
  }

  predicate IsRootIdentity(self: string, id: string) {
    id == RootId(self) || id == ROOT_USER_ID
  }

  predicate RoleIs(o: Office, id: string, role: Role) {
    id in o.users && o.users[id].role == role
  }

  predicate IsAdmin(o: Office, id: string) {
    RoleIs(o, id, Root) || RoleIs(o, id, Admin)
  }

  predicate IsRoot(o: Office, id: string) {
    IsRootIdentity(o.self, id) && RoleIs(o, id, Root)
  }

  /** Root holds every permission, an admin their own, anyone else none. */
  function PermissionsOf(o: Office, id: string): set<string> {
    if IsRoot(o, id) then set p | p in ADMIN_PERMISSIONS
    else if RoleIs(o, id, Admin) then o.users[id].permissions else {}
  }

  predicate Removed(o: Office, id: string) {
    id in o.removed
  }

  /** Who the authentication lets through: not removed, and not suspended. */
  predicate Admitted(o: Office, id: string) {
    id in o.users && !Removed(o, id) && o.users[id].suspendedBy.None?
  }

  // ---- a request's rules ----

  function Without(targets: seq<string>, dropped: set<string>): seq<string> {
    if targets == [] then []
    else (if targets[0] in dropped then [] else [targets[0]]) + Without(targets[1..], dropped)
  }

  function Remaining(r: Request): seq<string> {
    Without(r.targets, r.dropped)
  }

  /** The only target of an action on one; every stored request has it. */
  function Target(r: Request): string {
    if r.targets == [] then "" else r.targets[0]
  }

  predicate TargetCountFits(action: Action, n: nat) {
    match action
    case Broadcast => n == 0
    case Suspend => n >= 1
    case Reinstate => n >= 1
    case Kick => n >= 1
    case _ => n == 1
  }

  predicate Grants(action: Action) {
    action.Promote? || action.ChangePermissions?
  }

  /** What a promote or a permissions change grants, if its body is a set. */
  function GrantedPermissions(r: Request): ParsedSet {
    if Grants(r.action) then ParsePermissionSet(r.body) else Parsed([])
  }

  function ActionPermission(action: Action): string {
    match action
    case Suspend => USER_SUSPEND
    case Reinstate => USER_SUSPEND
    case Kick => USER_KICK
    case Promote => ADMIN_CREATE
    case Demote => ADMIN_DEMOTE
    case ChangePermissions => ADMIN_CREATE
    case Rebind => USER_REBIND
    case Invites => USER_INVITES
    case Broadcast => MESSAGE_BROADCAST
    case Unicast => MESSAGE_UNICAST
  }

  datatype Required = Required(permissions: seq<string>) | Refused(why: Refusal)

  /** The permissions acting on r needs: for a permissions change, one to add
      and one to remove. */
  function RequiredPermissions(o: Office, r: Request): Required {
    if !r.action.ChangePermissions? then Required([ActionPermission(r.action)])
    else
      match GrantedPermissions(r)
      case Parsed(next) =>
        var current := PermissionsOf(o, Target(r));
        var required := (if exists p :: p in next && p !in current then [ADMIN_CREATE] else [])
                        + (if exists p :: p in current && p !in next then [ADMIN_DEMOTE] else []);
        if required == [] then Refused(PermissionsUnchanged) else Required(required)
      case _ => Refused(BadPermissions)
  }

  function FirstMissing(required: seq<string>, held: set<string>): Option<Refusal> {
    if required == [] then None
    else if required[0] !in held then Some(MissingPermission(required[0]))
    else FirstMissing(required[1..], held)
  }

  function CheckActorPermissions(o: Office, r: Request, actor: string): Option<Refusal> {
    match RequiredPermissions(o, r)
    case Refused(why) => Some(why)
    case Required(required) =>
      match GrantedPermissions(r)
      case Parsed(granted) => FirstMissing(required + granted, PermissionsOf(o, actor))
      case _ => Some(BadPermissions)
  }

  predicate NeedsOutsideApprover(action: Action) {
    action.Kick? || action.Promote? || action.Demote? || action.ChangePermissions?
  }

  predicate InvitedBy(o: Office, inviter: string, id: string) {
    id in o.users && o.users[id].invitedBy == Some(inviter)
  }

  function CheckDecider(o: Office, r: Request, decider: string): Option<Refusal> {
    if !IsAdmin(o, decider) then Some(NotAdmin)
    else if decider == r.requester && !IsRoot(o, decider) then Some(SelfDecision)
    else if decider in r.targets then Some(TargetDecision)
    else if NeedsOutsideApprover(r.action) && InvitedBy(o, r.requester, decider) then Some(InviteeDecision)
    else if CheckActorPermissions(o, r, decider).Some? then CheckActorPermissions(o, r, decider)
    else if !IsRoot(o, decider) && exists t :: t in Remaining(r) && RoleIs(o, t, Admin) then Some(RootRequired)
    else None
  }

  /** An executor's validation, when a request is opened and again when it is
      approved. */
  function Validate(o: Office, r: Request): Option<Refusal> {
    match r.action
    case Suspend => if exists t :: t in Remaining(r) && IsSuspended(o, t) then Some(AlreadySuspended) else None
    case Reinstate => if exists t :: t in Remaining(r) && !IsSuspended(o, t) then Some(NotSuspended) else None
    case Promote => TargetRoleIs(o, r, User)
    case ChangePermissions => TargetRoleIs(o, r, Admin)
    case Demote => TargetRoleIs(o, r, Admin)
    case Rebind =>
      if IsSuspended(o, Target(r)) then Some(TargetSuspended)
      else if r.fingerprint.None? then Some(BadKey)
      else if RebindKeyId(r) in o.keys then Some(KeyExists)
      else None
    case Invites => if o.invitesLimited then None else Some(NoInviteLimit)
    case _ => None
  }

  predicate IsSuspended(o: Office, id: string) {
    id in o.users && o.users[id].suspendedBy.Some?
  }

  function TargetRoleIs(o: Office, r: Request, role: Role): Option<Refusal> {
    if exists t :: t in Remaining(r) && !RoleIs(o, t, role) then Some(TargetRole) else None
  }

  function RebindKeyId(r: Request): string {
    if r.fingerprint.Some? then Identifiers.AppendEntity(Target(r), r.fingerprint.value) else ""
  }

  function CheckTargets(o: Office, targets: seq<string>): Option<Refusal> {
    if targets == [] then None
    else if Identifiers.ServerOf(targets[0]) != Some(o.self) then Some(ForeignTarget)
    else if IsRootIdentity(o.self, targets[0]) then Some(RootTarget)
    else if targets[0] !in o.users then Some(TargetNotFound)
    else if Removed(o, targets[0]) then Some(TargetRemoved)
    else CheckTargets(o, targets[1..])
  }

  /** White space, as strings.TrimSpace cuts it. */
  predicate IsSpace(c: char) {
    var n := c as int;
    || 9 <= n <= 13 || n == 0x20 || n == 0x85 || n == 0xA0 || n == 0x1680 || 0x2000 <= n <= 0x200A
    || n == 0x2028 || n == 0x2029 || n == 0x202F || n == 0x205F || n == 0x3000
  }

  predicate Blank(s: string) {
    forall c :: c in s ==> IsSpace(c)
  }

  function Decimal(n: nat): string {
    (if n < 10 then "" else Decimal(n / 10)) + [('0' as int + n % 10) as char]
  }

  predicate IsGrant(body: string) {
    exists n :: 1 <= n <= MAX_INVITE_GRANT && body == Decimal(n)
  }

  function CheckTexts(r: Request): Option<Refusal> {
    var noReason := r.action.Broadcast? || r.action.Unicast?;
    if noReason && r.reason != "" then Some(BadReason)
    else if !noReason && Blank(r.reason) then Some(BadReason)
    else
      match r.action
      case Broadcast => if Blank(r.body) then Some(BadMessage) else None
      case Unicast => if Blank(r.body) then Some(BadMessage) else None
      case Promote => if ParsePermissionSet(r.body).Parsed? then None else Some(BadPermissions)
      case ChangePermissions => if ParsePermissionSet(r.body).Parsed? then None else Some(BadPermissions)
      case Rebind => if Blank(r.body) then Some(BadBody) else None
      case Invites => if IsGrant(r.body) then None else Some(BadBody)
      case _ => if r.body != "" then Some(BadBody) else None
  }

  predicate Sorted(targets: seq<string>) {
    |targets| <= 1 || (Less(targets[0], targets[1]) && Sorted(targets[1..]))
  }

  function ValidateNew(o: Office, r: Request): Option<Refusal> {
    if !Sorted(r.targets) || !TargetCountFits(r.action, |r.targets|) then Some(BadTargets)
    else if CheckTargets(o, r.targets).Some? then CheckTargets(o, r.targets)
    else if CheckTexts(r).Some? then CheckTexts(r)
    else if !IsAdmin(o, r.requester) then Some(NotAdmin)
    else if CheckActorPermissions(o, r, r.requester).Some? then CheckActorPermissions(o, r, r.requester)
    else Validate(o, r)
  }

  // ---- what requests do ----

  predicate Fresh(r: Request) {
    r.state.Pending? && r.dropped == {} && r.decision.None?
  }

  function Open(o: Office, r: Request): (Office, Option<Refusal>)
    requires Fresh(r)
  {
    if !Admitted(o, r.requester) then (o, Some(Unauthorized))
    else if ValidateNew(o, r).Some? then (o, ValidateNew(o, r))
    else if r.id in o.requests then (o, Some(Exists))
    else (o.(requests := o.requests[r.id := r]), None)
  }

  function SetSuspension(users: map<string, Profile>, targets: seq<string>, suspendedBy: Option<string>)
    : map<string, Profile>
  {
    map u | u in users :: if u in targets then users[u].(suspendedBy := suspendedBy) else users[u]
  }

  function SetProfile(users: map<string, Profile>, user: string, role: Role, permissions: set<string>)
    : map<string, Profile>
  {
    map u | u in users :: if u == user then users[u].(role := role, permissions := permissions) else users[u]
  }

  function SetOf(xs: seq<string>): set<string> {
    set x | x in xs
  }

  function GrantedSet(r: Request): set<string> {
    match GrantedPermissions(r) case Parsed(perms) => SetOf(perms) case _ => {}
  }

  /** What approving does to users, removals and keys. */
  function Execute(o: Office, r: Request): Office {
    match r.action
    case Suspend => o.(users := SetSuspension(o.users, Remaining(r), Some(r.id)))
    case Reinstate => o.(users := SetSuspension(o.users, Remaining(r), None))
    case Kick => o.(removed := o.removed + SetOf(Remaining(r)))
    case Promote => o.(users := SetProfile(o.users, Target(r), Admin, GrantedSet(r)))
    case ChangePermissions => o.(users := SetProfile(o.users, Target(r), Admin, GrantedSet(r)))
    case Demote => o.(users := SetProfile(o.users, Target(r), User, {}))
    case Rebind => o.(keys := o.keys + {RebindKeyId(r)})
    case _ => o
  }

  function StateFor(verdict: Verdict): State {
    match verdict
    case Approve => Executed
    case Reject => Rejected
    case Withdraw => Withdrawn
  }

  function Close(r: Request, verdict: Verdict, decider: string): Request {
    r.(state := StateFor(verdict), decision := Some(Decision(verdict, decider)))
  }

  function ActionName(action: Action): string {
    match action
    case Suspend => "Suspension"
    case Reinstate => "Reinstatement"
    case Kick => "Kick"
    case Promote => "Promotion"
    case Demote => "Demotion"
    case ChangePermissions => "Permission change"
    case _ => ""
  }

  /** The ledger's entry for an approved request, none for a private message. */
  function ApprovedEntry(r: Request, approver: string): Option<Entry> {
    var e := Entry(r.id, approver, r.requester, r.targets, "", "");
    var head := "[" + r.id + "] ";
    match r.action
    case Unicast => None
    case Broadcast => Some(e.(message := head + "Broadcast", content := r.body))
    case Rebind => Some(e.(message := head + "Key rebind to " + RebindKeyId(r) + ". Reason: " + r.reason))
    case Invites => Some(e.(message := head + "Invite grant: " + r.body + " more. Reason: " + r.reason))
    case _ =>
      Some(e.(message := head + ActionName(r.action) + ". Reason: " + r.reason,
              content := if Grants(r.action) then r.body else ""))
  }

  /** A request a removed user is dropped from goes moot with its last target. */
  function DropOne(r: Request, user: string): Request {
    if r.state.Pending? && user in r.targets && user !in r.dropped
    then CloseMoot(r.(dropped := r.dropped + {user})) else r
  }

  function CloseMoot(r: Request): Request {
    if !r.state.Pending? || r.targets == [] || Remaining(r) != [] then r else r.(state := Moot)
  }

  function DropFrom(requests: map<string, Request>, user: string): map<string, Request> {
    map id | id in requests :: DropOne(requests[id], user)
  }

  function DropAll(requests: map<string, Request>, users: seq<string>): map<string, Request> {
    if users == [] then requests else DropAll(DropFrom(requests, users[0]), users[1..])
  }

  function Decide(o: Office, id: string, caller: string, verdict: Verdict): (Office, Option<Refusal>) {
    if !Admitted(o, caller) then (o, Some(Unauthorized))
    else if id !in o.requests then (o, Some(NotFound))
    else
      var r := o.requests[id];
      if !r.state.Pending? then (o, Some(NotPending))
      else
        match verdict
        case Withdraw =>
          if caller != r.requester then (o, Some(NotRequester))
          else (o.(requests := o.requests[id := Close(r, verdict, caller)]), None)
        case Reject =>
          if CheckDecider(o, r, caller).Some? then (o, CheckDecider(o, r, caller))
          else (o.(requests := o.requests[id := Close(r, verdict, caller)]), None)
        case Approve =>
          if CheckDecider(o, r, caller).Some? then (o, CheckDecider(o, r, caller))
          else if Validate(o, r).Some? then (o, Validate(o, r))
          else (Approved(o, r, caller), None)
  }

  /** An approval that the rules let through, to the end of what follows it. */
  function Approved(o: Office, r: Request, approver: string): Office {
    var closed := Execute(o, r).(requests := o.requests[r.id := Close(r, Approve, approver)]);
    var logged := match ApprovedEntry(r, approver)
                  case Some(entry) => closed.(ledger := closed.ledger + [entry])
                  case None => closed;
    if r.action.Kick? then logged.(requests := DropAll(logged.requests, Remaining(r))) else logged
  }

  /** An account removed by its owner. */
  function Leave(o: Office, user: string): Office {
    o.(removed := o.removed + {user}, requests := DropFrom(o.requests, user))
  }
}
