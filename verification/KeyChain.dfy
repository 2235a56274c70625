/** Replacing a user's key, by a rebind or by its owner: the user's keys as a
    history linked both ways. */
module KeyChain {
  import opened Options
  import Identifiers

  datatype Key = Key(owner: string, predecessor: Option<string>, restricted: bool)
  datatype Revocation = Revocation(request: Option<string>, successor: Option<string>)

  /** public_keys, public_key_revocations, and each user's active key. */
  datatype Keyring = Keyring(
    keys: map<string, Key>,
    revocations: map<string, Revocation>,
    active: map<string, string>,
    suspended: set<string>)

  datatype Answer =
    | Done | TargetSuspended | BadKey | KeyExists | NoActiveKey | RevokedAlready
    | UserNotFound | PredecessorNotFound | RotationTooSoon | AlreadyReplaced | ActiveKeyExists

  /** fingerprint is the uploaded key's, if its armor parses. */
  function KeyId(target: string, fingerprint: Option<string>): string {
    match fingerprint
    case Some(f) => Identifiers.AppendEntity(target, f)
    case None => ""
  }

  function Rebind(r: Keyring, target: string, fingerprint: Option<string>, request: string): (Keyring, Answer) {
    var id := KeyId(target, fingerprint);
    if target in r.suspended then (r, TargetSuspended)
    else if fingerprint.None? then (r, BadKey)
    else if id in r.keys then (r, KeyExists)
    else if target !in r.active then (r, NoActiveKey)
    else
      var lost := r.active[target];
      if lost in r.revocations then (r, RevokedAlready)
      else (Replaced(r, target, lost, id, true, Some(request)), Done)
  }

  /** lost is revoked and id bound in its place, each naming the other. */
  function Replaced(
    r: Keyring, user: string, lost: string, id: string, restricted: bool, request: Option<string>): Keyring
  {
    r.(keys := r.keys[id := Key(user, Some(lost), restricted)],
       revocations := r.revocations[lost := Revocation(request, Some(id))],
       active := r.active[user := id])
  }

  /** A rotation by the owner; tooSoon is whether predecessor was registered too
      lately, which a restricted key may be. */
  function Rotate(r: Keyring, user: string, id: string, predecessor: string, tooSoon: bool): (Keyring, Answer) {
    if user !in r.active then (r, UserNotFound)
    else if id in r.keys then (r, KeyExists)
    else if predecessor !in r.keys then (r, PredecessorNotFound)
    else if tooSoon && !r.keys[predecessor].restricted then (r, RotationTooSoon)
    else
      var revoked := predecessor in r.revocations;
      if revoked && r.revocations[predecessor].successor.Some? then (r, AlreadyReplaced)
      else if HasActiveKey(r, user, predecessor) then (r, ActiveKeyExists)
      else
        (Replaced(r, user, predecessor, id, false, if revoked then r.revocations[predecessor].request else None), Done)
  }

  /** The user has a key neither revoked nor predecessor, which is about to be. */
  predicate HasActiveKey(r: Keyring, user: string, predecessor: string) {
    exists k :: k in r.keys && r.keys[k].owner == user && k !in r.revocations && k != predecessor
  }

  /** A first key, at sign-up. */
  function Register(r: Keyring, user: string, id: string): Keyring {
    if user in r.active || id in r.keys then r
    else r.(keys := r.keys[id := Key(user, None, false)], active := r.active[user := id])
  }

  /** The i-th of ks is the user's, comes after the one before it, and is
      revoked for the next one; the last isn't revoked, and is active. */
  ghost predicate KeyAt(r: Keyring, user: string, ks: seq<string>, i: nat)
    requires i < |ks|
  {
    var k := ks[i];
    && k in r.keys && r.keys[k].owner == user
    && r.keys[k].predecessor == (if i == 0 then None else Some(ks[i - 1]))
    && if i < |ks| - 1 then k in r.revocations && r.revocations[k].successor == Some(ks[i + 1])
       else k !in r.revocations && user in r.active && r.active[user] == k
  }

  ghost predicate Distinct(ks: seq<string>) {
    forall i, j :: 0 <= i < j < |ks| ==> ks[i] != ks[j]
  }

  /** ks are all of user's keys, oldest first, linked both ways. */
  ghost predicate IsHistory(r: Keyring, user: string, ks: seq<string>) {
    && Distinct(ks) && (ks == [] ==> user !in r.active)
    && (forall k :: k in r.keys && r.keys[k].owner == user ==> k in ks)
    && forall i: nat :: i < |ks| ==> KeyAt(r, user, ks, i)
  }

  ghost predicate HasHistory(r: Keyring, user: string) {
    exists ks :: IsHistory(r, user, ks)
  }

  ghost predicate Valid(r: Keyring) {
    (forall k :: k in r.revocations ==> k in r.keys) && forall u :: HasHistory(r, u)
  }

  /** id is new, and lost the user's active key. */
  ghost predicate MayReplace(r: Keyring, user: string, lost: string, id: string) {
    && user in r.active && r.active[user] == lost && lost !in r.revocations
    && id !in r.keys && id !in r.revocations
  }

  lemma ReplaceOwn(
    r: Keyring, user: string, lost: string, id: string, restricted: bool, request: Option<string>, ks: seq<string>)
    requires IsHistory(r, user, ks) && MayReplace(r, user, lost, id)
    ensures IsHistory(Replaced(r, user, lost, id, restricted, request), user, ks + [id])
  {
    var after, more := Replaced(r, user, lost, id, restricted, request), ks + [id];
    assert KeyAt(r, user, ks, |ks| - 1);
    forall i: nat | i < |more| ensures KeyAt(after, user, more, i) && (i < |ks| ==> more[i] == ks[i] && ks[i] != id) {
      if i < |ks| { assert KeyAt(r, user, ks, i); }
    }
    forall k | k in after.keys && after.keys[k].owner == user ensures k in more {
      if k == id { assert more[|ks|] == k; } else { assert k in ks; }
    }
  }

  lemma ReplaceOther(
    r: Keyring, user: string, lost: string, id: string, restricted: bool, request: Option<string>,
    u: string, ks: seq<string>)
    requires HasHistory(r, user) && u != user && IsHistory(r, u, ks) && MayReplace(r, user, lost, id)
    ensures IsHistory(Replaced(r, user, lost, id, restricted, request), u, ks)
  {
    var after := Replaced(r, user, lost, id, restricted, request);
    var own :| IsHistory(r, user, own);
    assert KeyAt(r, user, own, |own| - 1);
    hide IsHistory;
    OthersKeys(r, after, id, u, ks);
    forall i: nat | i < |ks| ensures KeyAt(after, u, ks, i) { HistoryAt(r, u, ks, i); }
    HistoryParts(r, after, u, ks);
  }

  lemma OthersKeys(r: Keyring, after: Keyring, id: string, u: string, ks: seq<string>)
    requires IsHistory(r, u, ks) && after.keys.Keys == r.keys.Keys + {id} && after.keys[id].owner != u
    requires forall k :: k in r.keys && k != id ==> after.keys[k] == r.keys[k]
    ensures forall k :: k in after.keys && after.keys[k].owner == u ==> k in ks
  {
    hide KeyAt;
  }

  /** Replacing the active key keeps every user's keys one history. */
  lemma ReplaceKeepsHistories(
    r: Keyring, user: string, lost: string, id: string, restricted: bool, request: Option<string>)
    requires Valid(r) && MayReplace(r, user, lost, id)
    ensures Valid(Replaced(r, user, lost, id, restricted, request))
  {
    var after := Replaced(r, user, lost, id, restricted, request);
    assert HasHistory(r, user);
    ActiveUnrevoked(r, user);
    assert forall k :: k in after.revocations ==> k in after.keys;
    hide Replaced, MayReplace;
    forall u ensures HasHistory(after, u) {
      assert HasHistory(r, u);
      var ks :| IsHistory(r, u, ks);
      hide IsHistory;
      if u == user {
        ReplaceOwn(r, user, lost, id, restricted, request, ks);
      } else {
        ReplaceOther(r, user, lost, id, restricted, request, u, ks);
      }
    }
  }

  lemma HistoryAt(r: Keyring, user: string, ks: seq<string>, i: nat)
    requires IsHistory(r, user, ks) && i < |ks|
    ensures KeyAt(r, user, ks, i)
  {}

  lemma HistoryParts(r: Keyring, after: Keyring, user: string, ks: seq<string>)
    requires IsHistory(r, user, ks) && (user in after.active ==> user in r.active)
    requires forall k :: k in after.keys && after.keys[k].owner == user ==> k in ks
    requires forall i: nat :: i < |ks| ==> KeyAt(after, user, ks, i)
    ensures IsHistory(after, user, ks)
  {
    hide KeyAt;
  }

  /** A rebind keeps every user's keys one history: it appends the new key to
      the target's, and refuses only what it should. */
  lemma RebindKeepsHistories(r: Keyring, target: string, fingerprint: Option<string>, request: string)
    requires Valid(r)
    ensures Valid(Rebind(r, target, fingerprint, request).0)
    ensures Rebind(r, target, fingerprint, request).1.Done?
            <==> (target !in r.suspended && fingerprint.Some? && KeyId(target, fingerprint) !in r.keys
                  && target in r.active)
  {
    hide KeyId;
    assert HasHistory(r, target);
    ActiveUnrevoked(r, target);
    if Rebind(r, target, fingerprint, request).1.Done? {
      ReplaceKeepsHistories(r, target, r.active[target], KeyId(target, fingerprint), true, Some(request));
    }
  }

  /** The owner's rotation does too, and only ever replaces the active key. */
  lemma RotateKeepsHistories(r: Keyring, user: string, id: string, predecessor: string, tooSoon: bool)
    requires Valid(r)
    ensures Valid(Rotate(r, user, id, predecessor, tooSoon).0)
    ensures Rotate(r, user, id, predecessor, tooSoon).1.Done?
            <==> (user in r.active && r.active[user] == predecessor && id !in r.keys
                  && (tooSoon ==> predecessor in r.keys && r.keys[predecessor].restricted))
  {
    assert HasHistory(r, user);
    ActiveUnrevoked(r, user);
    OthersRevoked(r, user);
    hide Valid;
    if Rotate(r, user, id, predecessor, tooSoon).1.Done? {
      RevokedAreKeys(r);
      ReplaceKeepsHistories(r, user, predecessor, id, false, None);
    }
  }

  /** id took lost's place as user's key, and nothing else changed. */
  ghost predicate TookPlace(
    r: Keyring, after: Keyring, user: string, lost: string, id: string, restricted: bool, request: Option<string>)
  {
    && id !in r.keys && after.keys.Keys == r.keys.Keys + {id} && after.keys[id] == Key(user, Some(lost), restricted)
    && (forall k :: k in r.keys ==> after.keys[k] == r.keys[k])
    && lost !in r.revocations && after.revocations.Keys == r.revocations.Keys + {lost}
    && after.revocations[lost] == Revocation(request, Some(id))
    && (forall k :: k in r.revocations ==> after.revocations[k] == r.revocations[k])
    && user in r.active && r.active[user] == lost && after.active.Keys == r.active.Keys && after.active[user] == id
    && (forall u :: u in r.active && u != user ==> after.active[u] == r.active[u])
    && after.suspended == r.suspended
  }

  /** A rebind revokes the target's active key for the request and puts one in
      its place that its owner may replace at once. */
  lemma RebindRestricts(r: Keyring, target: string, fingerprint: Option<string>, request: string, next: string)
    requires Valid(r) && Rebind(r, target, fingerprint, request).1.Done?
    ensures fingerprint.Some? && target in r.active
    ensures var after, id := Rebind(r, target, fingerprint, request).0, target + "/" + fingerprint.value;
            && TookPlace(r, after, target, r.active[target], id, true, Some(request))
            && (Rotate(after, target, next, id, true).1.Done? <==> next !in after.keys)
  {
    RebindKeepsHistories(r, target, fingerprint, request);
    assert KeyId(target, fingerprint) == target + "/" + fingerprint.value;
    var after, id := Rebind(r, target, fingerprint, request).0, KeyId(target, fingerprint);
    hide Valid, KeyId, HasHistory;
    RotateKeepsHistories(after, target, next, id, true);
  }

  /** The owner's own rotation revokes it for no request, and the key in its
      place waits out the cooldown. */
  lemma RotationWaits(r: Keyring, user: string, id: string, predecessor: string, tooSoon: bool, next: string)
    requires Valid(r) && Rotate(r, user, id, predecessor, tooSoon).1.Done?
    ensures var after := Rotate(r, user, id, predecessor, tooSoon).0;
            && TookPlace(r, after, user, predecessor, id, false, None)
            && !Rotate(after, user, next, id, true).1.Done?
            && (Rotate(after, user, next, id, false).1.Done? <==> next !in after.keys)
  {
    RotateKeepsHistories(r, user, id, predecessor, tooSoon);
    assert HasHistory(r, user);
    ActiveUnrevoked(r, user);
    var after := Rotate(r, user, id, predecessor, tooSoon).0;
    hide Valid, HasHistory, HasActiveKey;
    RotateKeepsHistories(after, user, next, id, true);
    RotateKeepsHistories(after, user, next, id, false);
  }

  /** The key k took the place of was revoked for an admin request. */
  predicate Rebound(r: Keyring, k: string)
    requires k in r.keys
  {
    var lost := r.keys[k].predecessor;
    lost.Some? && lost.value in r.revocations && r.revocations[lost.value].request.Some?
  }

  ghost predicate RestrictedOk(r: Keyring) {
    forall k :: k in r.keys ==> (r.keys[k].restricted <==> Rebound(r, k))
  }

  lemma PredecessorRevoked(r: Keyring, k: string)
    requires Valid(r) && k in r.keys
    ensures r.keys[k].predecessor.Some? ==> r.keys[k].predecessor.value in r.revocations
  {
    assert HasHistory(r, r.keys[k].owner);
    var ks :| IsHistory(r, r.keys[k].owner, ks);
    var i: nat :| i < |ks| && ks[i] == k;
    HistoryAt(r, r.keys[k].owner, ks, i);
    if i > 0 { HistoryAt(r, r.keys[k].owner, ks, i - 1); }
  }

  lemma TookPlaceRestricted(
    r: Keyring, after: Keyring, user: string, lost: string, id: string, restricted: bool, request: Option<string>)
    requires Valid(r) && RestrictedOk(r) && TookPlace(r, after, user, lost, id, restricted, request)
    requires restricted <==> request.Some?
    ensures RestrictedOk(after)
  {
    hide Valid;
    forall k | k in after.keys ensures after.keys[k].restricted <==> Rebound(after, k) {
      if k in r.keys { PredecessorRevoked(r, k); }
    }
  }

  lemma RevokedAreKeys(r: Keyring)
    requires Valid(r)
    ensures forall k :: k in r.revocations ==> k in r.keys
  {}

  lemma OthersRevoked(r: Keyring, user: string)
    requires HasHistory(r, user)
    ensures user in r.active ==> r.active[user] in r.keys && r.keys[r.active[user]].owner == user
    ensures forall k :: k in r.keys && r.keys[k].owner == user && k !in r.revocations ==>
              user in r.active && k == r.active[user]
  {
    var ks :| IsHistory(r, user, ks);
    NotActiveNoKeys(r, user, ks);
    if ks != [] { HistoryAt(r, user, ks, |ks| - 1); }
    forall k | k in r.keys && r.keys[k].owner == user && k !in r.revocations
      ensures user in r.active && k == r.active[user]
    {
      var i: nat :| i < |ks| && ks[i] == k;
      HistoryAt(r, user, ks, i);
    }
  }

  lemma ActiveUnrevoked(r: Keyring, user: string)
    requires HasHistory(r, user)
    ensures user in r.active ==> r.active[user] !in r.revocations && r.active[user] in r.keys
  {
    var ks :| IsHistory(r, user, ks);
    assert ks != [] ==> KeyAt(r, user, ks, |ks| - 1);
  }

  lemma RegisterKeepsHistories(r: Keyring, user: string, id: string)
    requires Valid(r)
    ensures Valid(Register(r, user, id))
  {
    var after := Register(r, user, id);
    if user !in r.active && id !in r.keys {
      hide Register;
      forall u ensures HasHistory(after, u) {
        assert HasHistory(r, u);
        var ks :| IsHistory(r, u, ks);
        hide IsHistory;
        RegisterOne(r, user, id, u, ks);
      }
    }
  }

  /** A sign-up gives a user without keys their first one, and nobody another. */
  lemma RegisterStarts(r: Keyring, user: string, id: string)
    ensures var after := Register(r, user, id);
            if user in r.active || id in r.keys then after == r
            else after == r.(keys := after.keys, active := after.active)
                 && after.keys == r.keys[id := Key(user, None, false)] && after.active == r.active[user := id]
  {}

  lemma NotActiveNoKeys(r: Keyring, user: string, ks: seq<string>)
    requires IsHistory(r, user, ks)
    ensures user in r.active || ks == []
  {
    if ks != [] { HistoryAt(r, user, ks, |ks| - 1); }
  }

  lemma RegisterOne(r: Keyring, user: string, id: string, u: string, ks: seq<string>)
    requires IsHistory(r, u, ks) && user !in r.active && id !in r.keys && id !in r.revocations
    ensures IsHistory(Register(r, user, id), u, if u == user then [id] else ks)
  {
    var after := Register(r, user, id);
    if u == user {
      NotActiveNoKeys(r, u, ks);
      assert KeyAt(after, user, [id], 0);
      assert [id][0] == id;
    } else {
      forall i: nat | i < |ks| ensures KeyAt(after, u, ks, i) { assert KeyAt(r, u, ks, i); }
    }
  }

  // ---- over whole runs ----

  datatype Step =
    | SignsUp(user: string, key: string)
    | Rebinds(target: string, fingerprint: Option<string>, request: string)
    | Rotates(user: string, id: string, predecessor: string, tooSoon: bool)
    | SetsSuspended(user: string, suspended: bool)

  function Next(r: Keyring, step: Step): Keyring {
    match step
    case SignsUp(user, key) => Register(r, user, key)
    case Rebinds(target, fingerprint, request) => Rebind(r, target, fingerprint, request).0
    case Rotates(user, id, predecessor, tooSoon) => Rotate(r, user, id, predecessor, tooSoon).0
    case SetsSuspended(user, suspended) =>
      r.(suspended := if suspended then r.suspended + {user} else r.suspended - {user})
  }

  function Run(r: Keyring, steps: seq<Step>): Keyring
    decreases |steps|
  {
    if steps == [] then r else Run(Next(r, steps[0]), steps[1..])
  }

  const NO_KEYS := Keyring(map[], map[], map[], {})

  lemma {:induction false} RunKeepsHistories(r: Keyring, steps: seq<Step>)
    requires Valid(r)
    ensures Valid(Run(r, steps))
    decreases |steps|
  {
    if steps != [] {
      match steps[0] {
        case SignsUp(user, key) => RegisterKeepsHistories(r, user, key);
        case Rebinds(target, fingerprint, request) => RebindKeepsHistories(r, target, fingerprint, request);
        case Rotates(user, id, predecessor, tooSoon) => RotateKeepsHistories(r, user, id, predecessor, tooSoon);
        case SetsSuspended(user, suspended) =>
          forall u ensures HasHistory(Next(r, steps[0]), u) {
            assert HasHistory(r, u);
            var ks :| IsHistory(r, u, ks);
            forall i: nat | i < |ks| ensures KeyAt(Next(r, steps[0]), u, ks, i) { HistoryAt(r, u, ks, i); }
            HistoryParts(r, Next(r, steps[0]), u, ks);
          }
      }
      hide Valid, Next;
      RunKeepsHistories(Next(r, steps[0]), steps[1..]);
    }
  }

  lemma {:induction false} RunKeepsRestricted(r: Keyring, steps: seq<Step>)
    requires Valid(r) && RestrictedOk(r)
    ensures RestrictedOk(Run(r, steps))
    decreases |steps|
  {
    if steps != [] {
      RunKeepsHistories(r, [steps[0]]);
      assert Run(r, [steps[0]]) == Run(Next(r, steps[0]), []) == Next(r, steps[0]);
      StepKeepsRestricted(r, steps[0]);
      hide Valid, Next, RestrictedOk;
      RunKeepsRestricted(Next(r, steps[0]), steps[1..]);
    }
  }

  lemma StepKeepsRestricted(r: Keyring, step: Step)
    requires Valid(r) && RestrictedOk(r)
    ensures RestrictedOk(Next(r, step))
  {
    hide Valid, TookPlace, HasHistory, Rebind, Rotate;
    match step
    case Rebinds(target, fingerprint, request) =>
      if Rebind(r, target, fingerprint, request).1.Done? {
        RebindRestricts(r, target, fingerprint, request, "");
        TookPlaceRestricted(r, Next(r, step), target, r.active[target], target + "/" + fingerprint.value, true,
                            Some(request));
      } else {
        Refused(r, target, fingerprint, request, "", "", false);
      }
    case Rotates(user, id, predecessor, tooSoon) =>
      if Rotate(r, user, id, predecessor, tooSoon).1.Done? {
        RotationWaits(r, user, id, predecessor, tooSoon, "");
        TookPlaceRestricted(r, Next(r, step), user, predecessor, id, false, None);
      } else {
        Refused(r, user, None, "", id, predecessor, tooSoon);
      }
    case _ =>
  }

  /** What is refused changes nothing. */
  lemma Refused(r: Keyring, user: string, fingerprint: Option<string>, request: string, id: string,
      predecessor: string, tooSoon: bool)
    ensures !Rebind(r, user, fingerprint, request).1.Done? ==> Rebind(r, user, fingerprint, request).0 == r
    ensures !Rotate(r, user, id, predecessor, tooSoon).1.Done? ==> Rotate(r, user, id, predecessor, tooSoon).0 == r
  {}

  /** In every run a key is restricted exactly when the one before it was revoked
      for an admin request. */
  lemma RestrictedExactlyWhenRebound(steps: seq<Step>, k: string)
    requires k in Run(NO_KEYS, steps).keys
    ensures var r := Run(NO_KEYS, steps);
            var lost := r.keys[k].predecessor;
            r.keys[k].restricted
            <==> (lost.Some? && lost.value in r.revocations && r.revocations[lost.value].request.Some?)
  {
    NoKeysValid();
    RunKeepsRestricted(NO_KEYS, steps);
  }

  /** After any run the only key of a user's not revoked is their active one. */
  lemma OnlyActiveKeyUnrevoked(steps: seq<Step>, k: string)
    requires k in Run(NO_KEYS, steps).keys
    ensures var r := Run(NO_KEYS, steps);
            var owner := r.keys[k].owner;
            && owner in r.active && (k !in r.revocations <==> r.active[owner] == k)
            && (k in r.revocations ==>
                  && r.revocations[k].successor.Some? && r.revocations[k].successor.value in r.keys
                  && r.keys[r.revocations[k].successor.value].predecessor == Some(k))
            && (r.keys[k].predecessor.Some? ==>
                  && r.keys[k].predecessor.value in r.revocations
                  && r.revocations[r.keys[k].predecessor.value].successor == Some(k))
  {
    NoKeysValid();
    RunKeepsHistories(NO_KEYS, steps);
    var r := Run(NO_KEYS, steps);
    hide Run;
    assert HasHistory(r, r.keys[k].owner);
    var ks :| IsHistory(r, r.keys[k].owner, ks);
    var i: nat :| i < |ks| && ks[i] == k;
    assert KeyAt(r, r.keys[k].owner, ks, i) && KeyAt(r, r.keys[k].owner, ks, |ks| - 1);
    if i > 0 { assert KeyAt(r, r.keys[k].owner, ks, i - 1); }
    if i < |ks| - 1 { assert KeyAt(r, r.keys[k].owner, ks, i + 1); }
  }

  lemma NoKeysValid()
    ensures Valid(NO_KEYS)
  {
    forall u ensures HasHistory(NO_KEYS, u) {
      assert IsHistory(NO_KEYS, u, []);
    }
  }

  class KeyStore {
    var keys: map<string, Key>
    var revocations: map<string, Revocation>
    var active: map<string, string>
    var suspended: set<string>

    function Value(): Keyring
      reads this
    {
      Keyring(keys, revocations, active, suspended)
    }

    constructor ()
      ensures Value() == NO_KEYS
    {
      keys, revocations, active, suspended := map[], map[], map[], {};
    }

    method Validate(target: string, fingerprint: Option<string>) returns (refusal: Option<Answer>)
      ensures refusal.None? <==> target !in suspended && fingerprint.Some? && KeyId(target, fingerprint) !in keys
      ensures refusal.Some? ==>
              forall request :: Rebind(Value(), target, fingerprint, request) == (Value(), refusal.value)
    {
      if target in suspended { return Some(TargetSuspended); }
      if fingerprint.None? { return Some(BadKey); }
      if KeyId(target, fingerprint) in keys { return Some(KeyExists); }
      refusal := None;
    }

    /** The rebind itself, once it is approved. */
    method Execute(target: string, fingerprint: Option<string>, request: string) returns (answer: Answer)
      modifies this
      ensures (Value(), answer) == Rebind(old(Value()), target, fingerprint, request)
    {
      var refusal := Validate(target, fingerprint);
      if refusal.Some? { return refusal.value; }
      var id := KeyId(target, fingerprint);
      if target !in active { return NoActiveKey; }
      var lost := active[target];
      if lost in revocations { return RevokedAlready; }
      revocations := revocations[lost := Revocation(Some(request), None)];
      keys := keys[id := Key(target, Some(lost), true)];
      revocations := revocations[lost := revocations[lost].(successor := Some(id))];
      active := active[target := id];
      assert revocations == old(revocations)[lost := Revocation(Some(request), Some(id))];
      answer := Done;
    }

    /** The owner's own rotation. Refusing after it revoked undoes that. */
    method AddPublicKey(user: string, id: string, predecessor: string, tooSoon: bool) returns (answer: Answer)
      modifies this
      ensures (Value(), answer) == Rotate(old(Value()), user, id, predecessor, tooSoon)
    {
      if user !in active { return UserNotFound; }
      if id in keys { return KeyExists; }
      if predecessor !in keys { return PredecessorNotFound; }
      if tooSoon && !keys[predecessor].restricted { return RotationTooSoon; }
      var before := revocations;
      if predecessor !in revocations {
        revocations := revocations[predecessor := Revocation(None, None)];
      } else if revocations[predecessor].successor.Some? {
        return AlreadyReplaced;
      }
      assert HasActiveKey(old(Value()), user, predecessor)
          <==> exists k :: k in keys && keys[k].owner == user && k !in revocations;
      if exists k :: k in keys && keys[k].owner == user && k !in revocations {
        revocations := before;
        return ActiveKeyExists;
      }
      keys := keys[id := Key(user, Some(predecessor), false)];
      active := active[user := id];
      revocations := revocations[predecessor := revocations[predecessor].(successor := Some(id))];
      assert revocations == before[predecessor := revocations[predecessor]];
      answer := Done;
    }
  }
}
