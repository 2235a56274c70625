/** When flags, withdrawals, dismissals and deletions are taken, and what each
    stores. */
module FlagRules {
  import opened Options
  import opened FlagCases
  import AdminRequests

  lemma RootAuthor(self: string, author: string)
    ensures AdminRequests.IsRootIdentity(self, author) <==> author == "1@" + self || author == "1"
  {
    assert AdminRequests.RootId(self) == "1" + ['@'] + self;
  }

  /** Two rows no signature had. */
  ghost predicate FreshRows(d: Desk, after: Desk, signed: Signed, at: int) {
    && signed.at == at && signed.user != signed.server && signed.user >= d.nextRow && signed.server >= d.nextRow
    && after.rows == d.rows + {signed.user, signed.server}
    && after.nextRow > signed.user && after.nextRow > signed.server
  }

  /** Nothing but the flags, the cases and the signature rows differs. */
  ghost predicate SameReeds(d: Desk, after: Desk) {
    after.self == d.self && after.reeds == d.reeds && d.nextCase <= after.nextCase
  }

  /** c is reed's open case, which is new if there was none, and no other changes. */
  ghost predicate JoinedCase(was: map<nat, Case>, cases: map<nat, Case>, reed: string, c: nat, now: int) {
    && (forall o :: o in was ==> o in cases && cases[o] == was[o])
    && cases.Keys == was.Keys + {c} && cases[c].reed == reed && IsOpen(cases[c])
    && (c !in was ==> cases[c].openedAt == now && forall o :: o in was && was[o].reed == reed ==> !IsOpen(was[o]))
  }

  /** A flag is taken exactly when it is the reporter's first of someone else's
      reed of this server, not root's, and is stored with its note and time. */
  lemma FlaggedExactlyWhen(d: Desk, key: FlagKey, note: string, now: int)
    requires CasesOk(d)
    ensures StoreFlag(d, key, note, now).1.Done?
            <==> (key.reed in d.reeds && key !in d.flags &&
              var author := d.reeds[key.reed]; author != key.reporter && author != "1" && author != "1@" + d.self)
    ensures var (after, answer) := StoreFlag(d, key, note, now);
            if !answer.Done? then after == d
            else
              && SameReeds(d, after) && key in after.flags
              && after.flags == d.flags[key := after.flags[key]]
              && var flag := after.flags[key];
                 && flag.author == d.reeds[key.reed] && flag.note == note && flag.withdrawal.None?
                 && FreshRows(d, after, flag.signed, now)
                 && JoinedCase(d.cases, after.cases, key.reed, flag.caseId, now)
  {
    if key.reed in d.reeds { RootAuthor(d.self, d.reeds[key.reed]); }
    CaseJoined(d, key.reed, now);
    hide AdminRequests.IsRootIdentity, WithOpenCase, JoinedCase, CasesOk;
  }

  lemma CaseJoined(d: Desk, reed: string, now: int)
    requires CasesOk(d)
    ensures var (within, c) := WithOpenCase(d, reed, now);
            && within == d.(cases := within.cases, nextCase := within.nextCase) && d.nextCase <= within.nextCase
            && JoinedCase(d.cases, within.cases, reed, c, now)
  {
    hide CaseOk, FlagOk;
    forall o | o in d.cases && d.cases[o].reed == reed && OpenCaseOf(d, reed).None? ensures !IsOpen(d.cases[o]) {
      assert !IsOpenOf(d, o, reed);
    }
  }

  /** A withdrawal is taken exactly when the flag is there, not withdrawn yet and
      not in a dismissed case. It voids the case exactly when none of its flags
      is left, at this or a later withdrawal. */
  lemma WithdrawnExactlyWhen(d: Desk, key: FlagKey, at: int)
    requires CasesOk(d)
    ensures WithdrawFlag(d, key, at).1.Done?
            <==> (key in d.flags && d.flags[key].withdrawal.None? && d.cases[d.flags[key].caseId].dismissal.None?)
    ensures var (after, answer) := WithdrawFlag(d, key, at);
            if !answer.Done? then after == d
            else
              && SameReeds(d, after) && after.flags.Keys == d.flags.Keys && after.cases.Keys == d.cases.Keys
              && (forall k :: k in d.flags && k != key ==> after.flags[k] == d.flags[k])
              && after.flags[key] == d.flags[key].(withdrawal := after.flags[key].withdrawal)
              && after.flags[key].withdrawal.Some? && FreshRows(d, after, after.flags[key].withdrawal.value, at)
              && (forall c :: c in d.cases && c != d.flags[key].caseId ==> after.cases[c] == d.cases[c])
              && var c := d.flags[key].caseId;
                 && after.cases[c] == d.cases[c].(voidedAt := after.cases[c].voidedAt)
                 && (after.cases[c].voidedAt.Some? <==>
                       forall k :: k in d.flags && k != key && d.flags[k].caseId == c ==> d.flags[k].withdrawal.Some?)
  {
    if key in d.flags {
      assert FlagOk(d, key);
      assert key in FlagsOf(d.flags, d.flags[key].caseId);
    }
    if WithdrawFlag(d, key, at).1.Done? {
      WithdrawalOnCase(d, key, at);
      WithdrawKeepsFlags(d, key, at);
      hide CasesOk, Voided, FlagsOf;
    }
  }

  lemma WithdrawalOnCase(d: Desk, key: FlagKey, at: int)
    requires CasesOk(d) && WithdrawFlag(d, key, at).1.Done?
    ensures key in d.flags && d.flags[key].caseId in d.cases && d.flags[key].caseId in WithdrawFlag(d, key, at).0.cases
    ensures var c := d.flags[key].caseId;
            var after := WithdrawFlag(d, key, at).0.cases[c];
            && after == d.cases[c].(voidedAt := after.voidedAt)
            && (after.voidedAt.Some? <==>
                  forall k :: k in d.flags && k != key && d.flags[k].caseId == c ==> d.flags[k].withdrawal.Some?)
  {
    var c := d.flags[key].caseId;
    var after := WithdrawFlag(d, key, at).0;
    WithdrawKeepsCase(d, key, at, c);
    var flags := FlagsOf(after.flags, c);
    assert key in flags;
    assert after.cases[c].voidedAt.Some? <==> AllWithdrawn(flags);
    hide CasesOk, Voided;
    forall k ensures k in flags && k != key <==> k in d.flags && k != key && d.flags[k].caseId == c {}
  }

  /** A dismissal is taken exactly for a case neither dismissed nor void, and is
      stored with who gave it, why and when; no flag changes. */
  lemma DismissedExactlyWhen(d: Desk, c: nat, admin: string, reason: string, at: int)
    ensures DismissCase(d, c, admin, reason, at).1.Done?
            <==> (c in d.cases && d.cases[c].dismissal.None? && d.cases[c].voidedAt.None?)
    ensures var (after, answer) := DismissCase(d, c, admin, reason, at);
            if !answer.Done? then after == d
            else
              && SameReeds(d, after) && after.flags == d.flags && after.cases.Keys == d.cases.Keys
              && (forall o :: o in d.cases && o != c ==> after.cases[o] == d.cases[o])
              && after.cases[c].dismissal.Some?
              && var dismissal := after.cases[c].dismissal.value;
                 && dismissal.admin == admin && dismissal.reason == reason
                 && FreshRows(d, after, dismissal.signed, at)
                 && after.cases[c] == d.cases[c].(dismissal := Some(dismissal))
  {}

  /** When a case was closed: at its dismissal, or when it went void. */
  ghost predicate ClosedBy(c: Case, at: int) {
    (c.dismissal.Some? && c.dismissal.value.signed.at == at) || (c.dismissal.None? && c.voidedAt == Some(at))
  }

  /** A case may be deleted exactly 183 days or more after it was closed, by
      anyone but the author of its reed; it goes with its flags, and no other. */
  lemma DeletedExactlyWhen(d: Desk, c: nat, viewer: string, now: int)
    requires CasesOk(d)
    ensures DeleteFlagCase(d, c, viewer, now).1.Done?
            <==> (c in d.cases && d.cases[c].reed in d.reeds && d.reeds[d.cases[c].reed] != viewer
              && exists at :: ClosedBy(d.cases[c], at) && now - at >= 183 * 86400)
    ensures var (after, answer) := DeleteFlagCase(d, c, viewer, now);
            if !answer.Done? then after == d
            else
              && SameReeds(d, after) && after.cases == d.cases - {c}
              && (forall k :: k in after.flags <==> k in d.flags && d.flags[k].caseId != c)
              && (forall k :: k in after.flags ==> after.flags[k] == d.flags[k])
  {
    if c in d.cases && ClosedAt(d.cases[c]).Some? { assert ClosedBy(d.cases[c], ClosedAt(d.cases[c]).value); }
    hide CasesOk, RowsUnder;
  }

  /** Removing an account drops exactly its flags in open cases and the cases
      that leaves without one; no other changes but to go void. */
  lemma RemovalDropsExactly(d: Desk, reporter: string)
    requires CasesOk(d)
    ensures var after := SettleAccountRemoval(d, reporter);
            && after == d.(flags := after.flags, cases := after.cases)
            && (forall k :: k in after.flags <==>
                  k in d.flags && !(k.reporter == reporter && IsOpen(d.cases[d.flags[k].caseId])))
            && (forall k :: k in after.flags ==> after.flags[k] == d.flags[k])
            && (forall c :: c in after.cases <==>
                  c in d.cases && exists k :: k in after.flags && after.flags[k].caseId == c)
            && (forall c :: c in after.cases ==>
                  after.cases[c] == d.cases[c].(voidedAt := after.cases[c].voidedAt)
                  && (!IsOpen(d.cases[c]) ==> after.cases[c] == d.cases[c]))
  {
    var after := SettleAccountRemoval(d, reporter);
    forall k | k in d.flags ensures d.flags[k].caseId in d.cases { assert FlagOk(d, k); }
    forall c
      ensures c in after.cases <==> c in d.cases && exists k :: k in after.flags && after.flags[k].caseId == c
      ensures c in after.cases ==>
                after.cases[c] == d.cases[c].(voidedAt := after.cases[c].voidedAt)
                && (!IsOpen(d.cases[c]) ==> after.cases[c] == d.cases[c])
    {
      CaseAfterRemoval(d, reporter, c);
    }
    hide CasesOk, Voided, FlagsOf;
  }

  lemma CaseAfterRemoval(d: Desk, reporter: string, c: nat)
    requires CasesOk(d)
    ensures var after := SettleAccountRemoval(d, reporter);
            && (c in after.cases <==> c in d.cases && exists k :: k in after.flags && after.flags[k].caseId == c)
            && (c in after.cases ==>
                  after.cases[c] == d.cases[c].(voidedAt := after.cases[c].voidedAt)
                  && (!IsOpen(d.cases[c]) ==> after.cases[c] == d.cases[c]))
  {
    var after := SettleAccountRemoval(d, reporter);
    var left := FlagsOf(after.flags, c);
    assert left != map[] <==> exists k :: k in after.flags && after.flags[k].caseId == c by {
      if k :| k in after.flags && after.flags[k].caseId == c { assert k in left; }
      if left != map[] { var k :| k in left; }
    }
    if c in d.cases {
      assert CaseOk(d.cases[c], FlagsOf(d.flags, c));
      VoidedKeeps(d.cases[c], left);
      if !Touched(d, c, reporter) { assert left == FlagsOf(d.flags, c); }
    }
    hide LatestWithdrawal, CaseOk, Voided;
  }
}
