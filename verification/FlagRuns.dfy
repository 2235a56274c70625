/** Flags and cases over whole runs: what stays, what is counted, and which
    signature rows are whose. */
module FlagRuns {
  import opened Options
  import opened FlagCases

  datatype Step =
    | MakesReed(reed: string, author: string)
    | Flags(key: FlagKey, note: string, now: int)
    | Withdraws(key: FlagKey, at: int)
    | Dismisses(c: nat, admin: string, reason: string, at: int)
    | Deletes(c: nat, viewer: string, now: int)
    | RemovesAccount(reporter: string)

  ghost function Next(d: Desk, step: Step): Desk {
    match step
    case MakesReed(reed, author) => if reed in d.reeds then d else d.(reeds := d.reeds[reed := author])
    case Flags(key, note, now) => StoreFlag(d, key, note, now).0
    case Withdraws(key, at) => WithdrawFlag(d, key, at).0
    case Dismisses(c, admin, reason, at) => DismissCase(d, c, admin, reason, at).0
    case Deletes(c, viewer, now) => DeleteFlagCase(d, c, viewer, now).0
    case RemovesAccount(reporter) => SettleAccountRemoval(d, reporter)
  }

  ghost function Run(d: Desk, steps: seq<Step>): Desk
    decreases |steps|
  {
    if steps == [] then d else Run(Next(d, steps[0]), steps[1..])
  }

  function NewDesk(self: string): Desk {
    Desk(self, map[], map[], map[], {}, 0, 0)
  }

  // ---- cases ----

  lemma StepKeepsCases(d: Desk, step: Step)
    requires CasesOk(d)
    ensures CasesOk(Next(d, step))
  {
    match step
    case MakesReed(reed, author) => if reed !in d.reeds { NewReedKeepsCases(d, reed, author); }
    case Flags(key, note, now) => StoreKeepsCases(d, key, note, now);
    case Withdraws(key, at) => WithdrawKeepsCases(d, key, at);
    case Dismisses(c, admin, reason, at) => DismissKeepsCases(d, c, admin, reason, at);
    case Deletes(c, viewer, now) => DeleteKeepsCases(d, c, viewer, now);
    case RemovesAccount(reporter) => SettleKeepsCases(d, reporter);
  }

  lemma NewReedKeepsCases(d: Desk, reed: string, author: string)
    requires CasesOk(d) && reed !in d.reeds
    ensures CasesOk(d.(reeds := d.reeds[reed := author]))
  {
    hide CaseOk, FlagsOf;
    var after := d.(reeds := d.reeds[reed := author]);
    forall k | k in after.flags ensures FlagOk(after, k) { assert FlagOk(d, k); }
    forall c | c in after.cases ensures CaseOk(after.cases[c], FlagsOf(after.flags, c)) {
      assert FlagsOf(d.flags, c) == FlagsOf(after.flags, c);
    }
  }

  lemma {:induction false} RunKeepsCases(d: Desk, steps: seq<Step>)
    requires CasesOk(d)
    ensures CasesOk(Run(d, steps))
    decreases |steps|
  {
    hide CasesOk, Next;
    if steps != [] {
      StepKeepsCases(d, steps[0]);
      RunKeepsCases(Next(d, steps[0]), steps[1..]);
    }
  }

  /** After any run, a reed has at most one open case, and each case has flags
      and is void exactly when all are withdrawn, at the last withdrawal. */
  lemma CasesAlwaysOk(self: string, steps: seq<Step>, c: nat)
    requires c in Run(NewDesk(self), steps).cases
    ensures var d := Run(NewDesk(self), steps);
            var it := d.cases[c];
            var held := FlagsOf(d.flags, c);
            && held != map[]
            && (it.voidedAt.Some? <==> forall k :: k in held ==> held[k].withdrawal.Some?)
            && (it.voidedAt.Some? ==>
                  && it.dismissal.None?
                  && (exists k :: k in held && held[k].withdrawal.value.at == it.voidedAt.value)
                  && forall k :: k in held ==> held[k].withdrawal.value.at <= it.voidedAt.value)
            && forall o :: o in d.cases && IsOpen(d.cases[o]) && IsOpen(it) && d.cases[o].reed == it.reed ==> o == c
  {
    hide Run;
    RunKeepsCases(NewDesk(self), steps);
    var d := Run(NewDesk(self), steps);
    assert CaseOk(d.cases[c], FlagsOf(d.flags, c));
    if d.cases[c].voidedAt.Some? {
      var held := FlagsOf(d.flags, c);
      var k :| IsLatest(held, k) && held[k].withdrawal.value.at == LatestWithdrawal(held);
    }
  }

  /** A case once closed, and its flags, stay as they are or go together. */
  ghost predicate SameOrGone(d: Desk, after: Desk, c: nat) {
    (c !in after.cases && FlagsOf(after.flags, c) == map[])
    || (c in d.cases && c in after.cases && after.cases[c] == d.cases[c]
          && FlagsOf(after.flags, c) == FlagsOf(d.flags, c))
  }

  /** A flag goes into an open case, and no other changes. */
  lemma StoreOnCase(d: Desk, key: FlagKey, note: string, now: int, c: nat)
    requires CasesOk(d) && c in d.cases && !IsOpen(d.cases[c])
    ensures var after := StoreFlag(d, key, note, now).0;
            && c in after.cases && after.cases[c] == d.cases[c]
            && (after.flags == d.flags
                || (key !in d.flags && key in after.flags && after.flags[key].caseId != c
                      && after.flags == d.flags[key := after.flags[key]]))
  {
    hide CaseOk, FlagOk;
  }

  lemma ClosedOverStore(d: Desk, key: FlagKey, note: string, now: int, c: nat)
    requires CasesOk(d) && c in d.cases && !IsOpen(d.cases[c])
    ensures SameOrGone(d, StoreFlag(d, key, note, now).0, c)
  {
    StoreOnCase(d, key, note, now, c);
    hide CasesOk, StoreFlag;
    assert FlagsOf(StoreFlag(d, key, note, now).0.flags, c) == FlagsOf(d.flags, c);
  }

  lemma ClosedOverWithdraw(d: Desk, key: FlagKey, at: int, c: nat)
    requires CasesOk(d) && c in d.cases && !IsOpen(d.cases[c])
    ensures SameOrGone(d, WithdrawFlag(d, key, at).0, c)
  {
    hide Voided, LatestWithdrawal;
    assert CaseOk(d.cases[c], FlagsOf(d.flags, c));
    assert key in d.flags && d.flags[key].caseId == c ==> key in FlagsOf(d.flags, c);
    assert FlagsOf(WithdrawFlag(d, key, at).0.flags, c) == FlagsOf(d.flags, c);
  }

  lemma ClosedOverDelete(d: Desk, o: nat, viewer: string, now: int, c: nat)
    requires c in d.cases
    ensures SameOrGone(d, DeleteFlagCase(d, o, viewer, now).0, c)
  {
    hide RowsUnder;
    if o != c { assert FlagsOf(DeleteFlagCase(d, o, viewer, now).0.flags, c) == FlagsOf(d.flags, c); }
  }

  lemma ClosedOverStep(d: Desk, step: Step, c: nat)
    requires CasesOk(d) && c in d.cases && !IsOpen(d.cases[c])
    ensures SameOrGone(d, Next(d, step), c)
  {
    if step.Flags? { ClosedOverStore(d, step.key, step.note, step.now, c); }
    else if step.Withdraws? { ClosedOverWithdraw(d, step.key, step.at, c); }
    else if step.Deletes? { ClosedOverDelete(d, step.c, step.viewer, step.now, c); }
    else if step.RemovesAccount? { ClosedOverRemoval(d, step.reporter, c); }
    else { hide CasesOk, FlagsOf; }
  }

  lemma ClosedOverRemoval(d: Desk, reporter: string, c: nat)
    requires c in d.cases && !IsOpen(d.cases[c])
    ensures SameOrGone(d, SettleAccountRemoval(d, reporter), c)
  {
    hide Voided;
    assert FlagsOf(SettleAccountRemoval(d, reporter).flags, c) == FlagsOf(d.flags, c);
  }

  lemma GoneOverStep(d: Desk, step: Step, c: nat)
    requires CasesOk(d) && c !in d.cases && c < d.nextCase
    ensures c !in Next(d, step).cases && c < Next(d, step).nextCase
  {
    hide Voided, CaseOk;
    assert step.Withdraws? && step.key in d.flags ==> FlagOk(d, step.key);
  }

  lemma {:induction false} GoneStays(d: Desk, steps: seq<Step>, c: nat)
    requires CasesOk(d) && c !in d.cases && c < d.nextCase
    ensures c !in Run(d, steps).cases && FlagsOf(Run(d, steps).flags, c) == map[]
    decreases |steps|
  {
    hide Next;
    if steps == [] {
      forall k | k in d.flags ensures d.flags[k].caseId != c { assert FlagOk(d, k); }
    } else {
      hide CasesOk;
      StepKeepsCases(d, steps[0]);
      GoneOverStep(d, steps[0], c);
      GoneStays(Next(d, steps[0]), steps[1..], c);
    }
  }

  /** Nothing that comes later changes a dismissed or void case, short of
      deleting it with all its flags. */
  lemma {:induction false} ClosedCaseFrozen(d: Desk, steps: seq<Step>, c: nat)
    requires CasesOk(d) && c in d.cases && !IsOpen(d.cases[c])
    ensures SameOrGone(d, Run(d, steps), c)
    decreases |steps|
  {
    hide Next;
    if steps != [] {
      StepKeepsCases(d, steps[0]);
      ClosedOverStep(d, steps[0], c);
      var next := Next(d, steps[0]);
      IdsGrow(d, steps[0]);
      hide CasesOk;
      if c in next.cases {
        ClosedCaseFrozen(next, steps[1..], c);
      } else {
        assert c < d.nextCase by { BelowNext(d, c); }
        GoneStays(next, steps[1..], c);
      }
    }
  }

  lemma BelowNext(d: Desk, c: nat)
    requires CasesOk(d) && c in d.cases
    ensures c < d.nextCase
  {}

  lemma IdsGrow(d: Desk, step: Step)
    ensures d.nextCase <= Next(d, step).nextCase
  {}

  // ---- the open-flag counts ----

  /** The flags a case has open. */
  function OpenFlagsIn(d: Desk, c: nat): set<FlagKey> {
    set k | k in d.flags && d.flags[k].caseId == c && d.flags[k].withdrawal.None? && c in d.cases && IsOpen(d.cases[c])
  }

  lemma IsCounted(d: Desk, k: FlagKey, author: string)
    ensures k in OpenFlags(d, author) <==> k in d.flags && d.flags[k].author == author && OpenIn(d, k)
  {}

  /** The new flag is open, and the others as open as they were. */
  lemma OpenAfterFlag(d: Desk, key: FlagKey, note: string, now: int)
    requires CasesOk(d) && StoreFlag(d, key, note, now).1.Done?
    ensures var after := StoreFlag(d, key, note, now).0;
            && key !in d.flags && after.flags.Keys == d.flags.Keys + {key}
            && after.flags[key].author == d.reeds[key.reed] && OpenIn(after, key)
            && forall k :: k in d.flags ==> after.flags[k] == d.flags[k] && (OpenIn(after, k) <==> OpenIn(d, k))
  {
    hide CaseOk;
    forall k | k in d.flags ensures FlagOk(d, k) {}
  }

  lemma CountedAfterFlag(d: Desk, key: FlagKey, note: string, now: int, author: string, k: FlagKey)
    requires CasesOk(d) && StoreFlag(d, key, note, now).1.Done?
    ensures k in OpenFlags(StoreFlag(d, key, note, now).0, author)
            <==> (k in OpenFlags(d, author) || (k == key && author == d.reeds[key.reed]))
    ensures key !in OpenFlags(d, author) && key.reed in d.reeds
  {
    OpenAfterFlag(d, key, note, now);
    var after := StoreFlag(d, key, note, now).0;
    hide CasesOk, StoreFlag, OpenIn, OpenFlags;
    IsCounted(d, k, author);
    IsCounted(after, k, author);
    IsCounted(d, key, author);
  }

  lemma FlagCounts(d: Desk, key: FlagKey, note: string, now: int, author: string)
    requires CasesOk(d) && StoreFlag(d, key, note, now).1.Done?
    ensures OpenFlagCount(StoreFlag(d, key, note, now).0, author)
            == OpenFlagCount(d, author) + if author == d.reeds[key.reed] then 1 else 0
  {
    var after := StoreFlag(d, key, note, now).0;
    CountedAfterFlag(d, key, note, now, author, key);
    hide CasesOk, StoreFlag, OpenFlags;
    var added := if author == d.reeds[key.reed] then {key} else {};
    forall k ensures k in OpenFlags(after, author) <==> k in OpenFlags(d, author) || k in added {
      CountedAfterFlag(d, key, note, now, author, k);
    }
    assert OpenFlags(after, author) == OpenFlags(d, author) + added;
  }

  lemma CountedAfterWithdrawal(d: Desk, key: FlagKey, at: int, author: string, k: FlagKey)
    requires CasesOk(d) && WithdrawFlag(d, key, at).1.Done?
    ensures k in OpenFlags(WithdrawFlag(d, key, at).0, author) <==> k in OpenFlags(d, author) && k != key
    ensures key in OpenFlags(d, author) <==> author == d.reeds[key.reed]
  {
    var after := WithdrawFlag(d, key, at).0;
    assert FlagOk(d, key);
    OpenAfterWithdrawal(d, key, at);
    assert !OpenIn(after, key);
    hide CasesOk, WithdrawFlag, OpenIn, OpenFlags;
    IsCounted(d, k, author);
    IsCounted(after, k, author);
    IsCounted(d, key, author);
  }

  lemma WithdrawalCounts(d: Desk, key: FlagKey, at: int, author: string)
    requires CasesOk(d) && WithdrawFlag(d, key, at).1.Done?
    ensures OpenFlagCount(d, author)
            == OpenFlagCount(WithdrawFlag(d, key, at).0, author) + if author == d.reeds[key.reed] then 1 else 0
  {
    var after := WithdrawFlag(d, key, at).0;
    CountedAfterWithdrawal(d, key, at, author, key);
    hide CasesOk, WithdrawFlag, OpenFlags;
    var gone := if author == d.reeds[key.reed] then {key} else {};
    forall k ensures k in OpenFlags(after, author) <==> k in OpenFlags(d, author) && k !in gone {
      CountedAfterWithdrawal(d, key, at, author, k);
    }
    assert OpenFlags(d, author) == OpenFlags(after, author) + gone;
  }

  /** The withdrawn flag was open, and the others are as open as they were. */
  lemma OpenAfterWithdrawal(d: Desk, key: FlagKey, at: int)
    requires CasesOk(d) && WithdrawFlag(d, key, at).1.Done?
    ensures var after := WithdrawFlag(d, key, at).0;
            && OpenIn(d, key) && after.flags.Keys == d.flags.Keys && after.flags[key].withdrawal.Some?
            && forall k :: k in d.flags && k != key ==>
                 after.flags[k] == d.flags[k] && (OpenIn(after, k) <==> OpenIn(d, k))
  {
    hide LatestWithdrawal;
    var after := WithdrawFlag(d, key, at).0;
    var c := d.flags[key].caseId;
    assert CaseOk(d.cases[c], FlagsOf(d.flags, c)) && key in FlagsOf(d.flags, c);
    forall k | k in d.flags && k != key && d.flags[k].withdrawal.None? && d.flags[k].caseId == c
        ensures after.cases[c] == d.cases[c] {
      assert k in FlagsOf(after.flags, c);
    }
  }

  /** The case had open flags, all the same author's, and takes them along. */
  lemma OpenAfterDismissal(d: Desk, c: nat, admin: string, reason: string, at: int)
    requires CasesOk(d) && DismissCase(d, c, admin, reason, at).1.Done?
    ensures var after := DismissCase(d, c, admin, reason, at).0;
            && after.flags == d.flags && OpenFlagsIn(d, c) != {}
            && forall k :: k in d.flags ==>
                 && (OpenIn(after, k) <==> OpenIn(d, k) && d.flags[k].caseId != c)
                 && (d.flags[k].caseId == c ==>
                       d.cases[c].reed in d.reeds && d.flags[k].author == d.reeds[d.cases[c].reed])
  {
    hide LatestWithdrawal;
    var held := FlagsOf(d.flags, c);
    assert CaseOk(d.cases[c], held);
    var k :| k in held && held[k].withdrawal.None?;
    assert k in OpenFlagsIn(d, c);
    forall k | k in d.flags ensures FlagOk(d, k) {}
  }

  lemma CountedAfterDismissal(d: Desk, c: nat, admin: string, reason: string, at: int, author: string, k: FlagKey)
    requires CasesOk(d) && DismissCase(d, c, admin, reason, at).1.Done?
    ensures k in OpenFlags(DismissCase(d, c, admin, reason, at).0, author)
            <==> k in OpenFlags(d, author) && k !in OpenFlagsIn(d, c)
    ensures k in OpenFlagsIn(d, c) ==>
              && d.cases[c].reed in d.reeds
              && (k in OpenFlags(d, author) <==> author == d.reeds[d.cases[c].reed])
  {
    var after := DismissCase(d, c, admin, reason, at).0;
    OpenAfterDismissal(d, c, admin, reason, at);
    assert k in OpenFlagsIn(d, c) <==> k in d.flags && OpenIn(d, k) && d.flags[k].caseId == c;
    hide CasesOk, DismissCase, OpenIn, OpenFlags, OpenFlagsIn;
    IsCounted(d, k, author);
    IsCounted(after, k, author);
  }

  lemma DismissalCounts(d: Desk, c: nat, admin: string, reason: string, at: int, author: string)
    requires CasesOk(d) && DismissCase(d, c, admin, reason, at).1.Done?
    ensures OpenFlagCount(d, author)
            == OpenFlagCount(DismissCase(d, c, admin, reason, at).0, author)
               + if d.cases[c].reed in d.reeds && author == d.reeds[d.cases[c].reed] then |OpenFlagsIn(d, c)| else 0
    ensures OpenFlagsIn(d, c) != {}
  {
    var after := DismissCase(d, c, admin, reason, at).0;
    OpenAfterDismissal(d, c, admin, reason, at);
    var taken := if d.cases[c].reed in d.reeds && author == d.reeds[d.cases[c].reed] then OpenFlagsIn(d, c) else {};
    hide CasesOk, DismissCase, OpenIn, OpenFlags, OpenFlagsIn;
    forall k
      ensures k in OpenFlags(d, author) <==> k in OpenFlags(after, author) || k in taken
      ensures !(k in OpenFlags(after, author) && k in taken)
    {
      CountedAfterDismissal(d, c, admin, reason, at, author, k);
    }
    assert OpenFlags(d, author) == OpenFlags(after, author) + taken && OpenFlags(after, author) !! taken;
  }

  lemma DeletionCounts(d: Desk, c: nat, viewer: string, now: int, author: string)
    requires CasesOk(d) && DeleteFlagCase(d, c, viewer, now).1.Done?
    ensures OpenFlagCount(DeleteFlagCase(d, c, viewer, now).0, author) == OpenFlagCount(d, author)
  {
    hide CaseOk, RowsUnder;
    assert OpenFlags(DeleteFlagCase(d, c, viewer, now).0, author) == OpenFlags(d, author);
  }

  /** Whether a flag is open after a removal is settled. */
  lemma OpenAfterRemoval(d: Desk, reporter: string, k: FlagKey)
    requires CasesOk(d)
    ensures OpenIn(SettleAccountRemoval(d, reporter), k) <==> OpenIn(d, k) && k.reporter != reporter
    ensures k in SettleAccountRemoval(d, reporter).flags ==>
              k in d.flags && SettleAccountRemoval(d, reporter).flags[k] == d.flags[k]
  {
    var after := SettleAccountRemoval(d, reporter);
    if k in after.flags && d.flags[k].caseId in d.cases {
      assert k in FlagsOf(after.flags, d.flags[k].caseId);
      VoidedKeeps(d.cases[d.flags[k].caseId], FlagsOf(after.flags, d.flags[k].caseId));
    }
    hide CasesOk, LatestWithdrawal;
  }

  lemma RemovalCounts(d: Desk, reporter: string, author: string)
    requires CasesOk(d)
    ensures OpenFlags(SettleAccountRemoval(d, reporter), author)
            == set k | k in OpenFlags(d, author) && k.reporter != reporter
  {
    var after := SettleAccountRemoval(d, reporter);
    hide CasesOk, SettleAccountRemoval, OpenIn, OpenFlags;
    forall k ensures k in OpenFlags(after, author) <==> k in OpenFlags(d, author) && k.reporter != reporter {
      OpenAfterRemoval(d, reporter, k);
      OpenIsThere(d, k);
      OpenIsThere(after, k);
      IsCounted(d, k, author);
      IsCounted(after, k, author);
    }
  }

  lemma OpenIsThere(d: Desk, k: FlagKey)
    ensures OpenIn(d, k) ==> k in d.flags
  {}
}
