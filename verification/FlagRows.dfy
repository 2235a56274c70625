/** Whose each signature row of flags and cases is. */
module FlagRows {
  import opened Options
  import opened FlagCases
  import opened FlagRuns
  import AdminRequests

  /** What refers to a pair of signatures. */
  datatype Owner = OfFlag(k: FlagKey) | OfWithdrawal(k: FlagKey) | OfDismissal(c: nat)

  function Holds(d: Desk, o: Owner): Option<Signed> {
    match o
    case OfFlag(k) => if k in d.flags then Some(d.flags[k].signed) else None
    case OfWithdrawal(k) => if k in d.flags then d.flags[k].withdrawal else None
    case OfDismissal(c) =>
      if c in d.cases && d.cases[c].dismissal.Some? then Some(d.cases[c].dismissal.value.signed) else None
  }

  predicate HasRow(d: Desk, o: Owner, row: nat) {
    Holds(d, o).Some? && row in RowsOf(Holds(d, o).value)
  }

  /** Every row referred to is there, and each has one owner. */
  ghost predicate RowsOwned(d: Desk) {
    && (forall row :: row in d.rows ==> row < d.nextRow)
    && (forall o, row :: HasRow(d, o, row) ==> row in d.rows)
    && (forall o, p, row :: HasRow(d, o, row) && HasRow(d, p, row) ==> o == p)
  }

  /** No row is left that nothing refers to. */
  ghost predicate NoneLeaked(d: Desk) {
    forall row :: row in d.rows ==> exists o :: HasRow(d, o, row)
  }

  /** after has one owner more, of two new rows. */
  ghost predicate OneMore(d: Desk, after: Desk, added: Owner) {
    && after.rows == d.rows + {d.nextRow, d.nextRow + 1} && after.nextRow == d.nextRow + 2
    && forall o, row :: HasRow(after, o, row)
         <==> HasRow(d, o, row) || (o == added && (row == d.nextRow || row == d.nextRow + 1))
  }

  lemma OneMoreKeeps(d: Desk, after: Desk, added: Owner)
    requires RowsOwned(d) && OneMore(d, after, added)
    ensures RowsOwned(after) && (NoneLeaked(d) ==> NoneLeaked(after))
  {
    hide HasRow;
    if NoneLeaked(d) {
      forall row | row in after.rows ensures exists o :: HasRow(after, o, row) {
        if row in d.rows {
          var o :| HasRow(d, o, row);
          assert HasRow(after, o, row);
        } else {
          assert HasRow(after, added, row);
        }
      }
    }
  }

  lemma StoreIsOneMore(d: Desk, key: FlagKey, note: string, now: int)
    requires CasesOk(d) && StoreFlag(d, key, note, now).1.Done?
    ensures OneMore(d, StoreFlag(d, key, note, now).0, OfFlag(key))
  {
    hide CaseOk;
    var after := StoreFlag(d, key, note, now).0;
    forall o, row ensures HasRow(after, o, row)
        <==> HasRow(d, o, row) || (o == OfFlag(key) && (row == d.nextRow || row == d.nextRow + 1)) {
    }
  }

  lemma WithdrawIsOneMore(d: Desk, key: FlagKey, at: int)
    requires WithdrawFlag(d, key, at).1.Done?
    ensures OneMore(d, WithdrawFlag(d, key, at).0, OfWithdrawal(key))
  {
    hide LatestWithdrawal;
    var c := d.flags[key].caseId;
    VoidedKeeps(d.cases[c], FlagsOf(WithdrawFlag(d, key, at).0.flags, c));
    hide Voided;
  }

  lemma DismissIsOneMore(d: Desk, c: nat, admin: string, reason: string, at: int)
    requires DismissCase(d, c, admin, reason, at).1.Done?
    ensures OneMore(d, DismissCase(d, c, admin, reason, at).0, OfDismissal(c))
  {}

  /** after has only the owners that stay, and rows of those and of none. */
  ghost predicate Fewer(d: Desk, after: Desk, gone: Owner -> bool) {
    && after.nextRow == d.nextRow && after.rows <= d.rows
    && (forall o, row :: HasRow(after, o, row) <==> HasRow(d, o, row) && !gone(o))
    && (forall o, row :: HasRow(d, o, row) && !gone(o) && row in d.rows ==> row in after.rows)
  }

  lemma FewerKeeps(d: Desk, after: Desk, gone: Owner -> bool)
    requires RowsOwned(d) && Fewer(d, after, gone)
    ensures RowsOwned(after)
  {
    hide HasRow;
  }

  predicate Under(d: Desk, c: nat, o: Owner) {
    match o
    case OfFlag(k) => k in d.flags && d.flags[k].caseId == c
    case OfWithdrawal(k) => k in d.flags && d.flags[k].caseId == c
    case OfDismissal(e) => e == c
  }

  lemma UnderHasRows(d: Desk, c: nat, row: nat)
    requires c in d.cases
    ensures row in RowsUnder(d, c) <==> exists o :: HasRow(d, o, row) && Under(d, c, o)
  {
    if row in RowsUnder(d, c) {
      if row in RowsOfCase(d.cases[c]) {
        assert HasRow(d, OfDismissal(c), row);
      } else {
        var k :| k in d.flags && d.flags[k].caseId == c && row in RowsOfFlag(d.flags[k]);
        assert HasRow(d, OfFlag(k), row) || HasRow(d, OfWithdrawal(k), row);
      }
    }
    forall o | HasRow(d, o, row) && Under(d, c, o) ensures row in RowsUnder(d, c) {
      match o
      case OfFlag(k) => assert row in RowsOfFlag(d.flags[k]);
      case OfWithdrawal(k) => assert row in RowsOfFlag(d.flags[k]);
      case OfDismissal(_) => assert row in RowsOfCase(d.cases[c]);
    }
  }

  lemma DeleteIsFewer(d: Desk, c: nat, viewer: string, now: int)
    requires RowsOwned(d) && DeleteFlagCase(d, c, viewer, now).1.Done?
    ensures Fewer(d, DeleteFlagCase(d, c, viewer, now).0, o => Under(d, c, o))
    ensures NoneLeaked(d) ==> NoneLeaked(DeleteFlagCase(d, c, viewer, now).0)
  {
    var after := DeleteFlagCase(d, c, viewer, now).0;
    forall o, row ensures HasRow(after, o, row) <==> HasRow(d, o, row) && !Under(d, c, o) {}
    assert after.rows == d.rows - RowsUnder(d, c) && after.nextRow == d.nextRow;
    hide DeleteFlagCase, HasRow, RowsUnder, Under;
    forall o, row | HasRow(d, o, row) && !Under(d, c, o) ensures row in after.rows {
      UnderHasRows(d, c, row);
    }
    if NoneLeaked(d) {
      forall row | row in after.rows ensures exists o :: HasRow(after, o, row) {
        UnderHasRows(d, c, row);
        var o :| HasRow(d, o, row);
        assert HasRow(after, o, row);
      }
    }
  }

  predicate OfDropped(d: Desk, reporter: string, o: Owner) {
    match o
    case OfFlag(k) => Dropped(d, k, reporter)
    case OfWithdrawal(k) => Dropped(d, k, reporter)
    case OfDismissal(_) => false
  }

  lemma SettleOnDismissals(d: Desk, reporter: string, c: nat)
    requires CasesOk(d)
    ensures Holds(SettleAccountRemoval(d, reporter), OfDismissal(c)) == Holds(d, OfDismissal(c))
  {
    var after := SettleAccountRemoval(d, reporter);
    if c in d.cases {
      assert CaseOk(d.cases[c], FlagsOf(d.flags, c));
      VoidedKeeps(d.cases[c], FlagsOf(after.flags, c));
    }
    hide CasesOk, Voided;
  }

  lemma SettleIsFewer(d: Desk, reporter: string)
    requires CasesOk(d)
    ensures Fewer(d, SettleAccountRemoval(d, reporter), o => OfDropped(d, reporter, o))
  {
    hide CasesOk, Voided, Dropped;
    var after := SettleAccountRemoval(d, reporter);
    assert after.flags == FlagsLeft(d, reporter) && after.rows == d.rows && after.nextRow == d.nextRow;
    forall o, row ensures HasRow(after, o, row) <==> HasRow(d, o, row) && !OfDropped(d, reporter, o) {
      if o.OfDismissal? { SettleOnDismissals(d, reporter, o.c); }
      hide SettleAccountRemoval;
    }
  }

  // ---- over whole runs ----

  ghost predicate Inv(d: Desk) {
    CasesOk(d) && RowsOwned(d)
  }

  lemma StepKeepsInv(d: Desk, step: Step)
    requires Inv(d)
    ensures Inv(Next(d, step))
    ensures NoneLeaked(d) && !step.RemovesAccount? ==> NoneLeaked(Next(d, step))
  {
    hide CasesOk, RowsOwned, NoneLeaked, StoreFlag, OneMore, Fewer;
    StepKeepsCases(d, step);
    match step
    case MakesReed(reed, author) => SameRows(d, Next(d, step));
    case Flags(key, note, now) =>
      if StoreFlag(d, key, note, now).1.Done? {
        StoreIsOneMore(d, key, note, now);
        OneMoreKeeps(d, Next(d, step), OfFlag(key));
      } else {
        RefusedFlag(d, key, note, now);
      }
    case Withdraws(key, at) =>
      if WithdrawFlag(d, key, at).1.Done? {
        WithdrawIsOneMore(d, key, at);
        OneMoreKeeps(d, Next(d, step), OfWithdrawal(key));
      }
    case Dismisses(c, admin, reason, at) =>
      if DismissCase(d, c, admin, reason, at).1.Done? {
        DismissIsOneMore(d, c, admin, reason, at);
        OneMoreKeeps(d, Next(d, step), OfDismissal(c));
      }
    case Deletes(c, viewer, now) =>
      if DeleteFlagCase(d, c, viewer, now).1.Done? {
        DeleteIsFewer(d, c, viewer, now);
        FewerKeeps(d, Next(d, step), o => Under(d, c, o));
      }
    case RemovesAccount(reporter) =>
      SettleIsFewer(d, reporter);
      FewerKeeps(d, Next(d, step), o => OfDropped(d, reporter, o));
  }

  lemma RefusedFlag(d: Desk, key: FlagKey, note: string, now: int)
    requires !StoreFlag(d, key, note, now).1.Done?
    ensures StoreFlag(d, key, note, now).0 == d
  {}

  lemma SameRows(d: Desk, after: Desk)
    requires after == d.(reeds := after.reeds)
    ensures RowsOwned(d) ==> RowsOwned(after)
    ensures NoneLeaked(d) ==> NoneLeaked(after)
  {
    assert forall o, row :: HasRow(after, o, row) <==> HasRow(d, o, row);
    hide HasRow;
    if NoneLeaked(d) {
      forall row | row in after.rows ensures exists o :: HasRow(after, o, row) {
        var o :| HasRow(d, o, row);
        assert HasRow(after, o, row);
      }
    }
  }

  /** Removing an account leaks the rows of its flags that were in open cases:
      none are leaked exactly when it had none there. */
  lemma RemovalLeaksExactlyWhen(d: Desk, reporter: string)
    requires Inv(d) && NoneLeaked(d)
    ensures NoneLeaked(SettleAccountRemoval(d, reporter)) <==> forall k :: k in d.flags ==> !Dropped(d, k, reporter)
  {
    var after := SettleAccountRemoval(d, reporter);
    SettleIsFewer(d, reporter);
    assert after.rows == d.rows;
    hide SettleAccountRemoval, CasesOk, Dropped;
    if k :| k in d.flags && Dropped(d, k, reporter) {
      var row := d.flags[k].signed.user;
      assert HasRow(d, OfFlag(k), row) && OfDropped(d, reporter, OfFlag(k));
      hide HasRow;
      forall o ensures !HasRow(after, o, row) {}
    } else {
      forall o ensures !OfDropped(d, reporter, o) || Holds(d, o).None? {}
      hide HasRow;
      forall row | row in after.rows ensures exists o :: HasRow(after, o, row) {
        var o :| HasRow(d, o, row);
        RowMeansHeld(d, o, row);
        assert HasRow(after, o, row);
      }
    }
  }

  lemma RowMeansHeld(d: Desk, o: Owner, row: nat)
    requires HasRow(d, o, row)
    ensures Holds(d, o).Some?
  {}

  /** A removal that drops nothing a case still held open. */
  ghost predicate Clean(d: Desk, step: Step) {
    step.RemovesAccount? ==> forall k :: k in d.flags ==> !Dropped(d, k, step.reporter)
  }

  ghost predicate CleanRun(d: Desk, steps: seq<Step>)
    decreases |steps|
  {
    steps == [] || (Clean(d, steps[0]) && CleanRun(Next(d, steps[0]), steps[1..]))
  }

  lemma {:induction false} RunKeepsInv(d: Desk, steps: seq<Step>)
    requires Inv(d)
    ensures Inv(Run(d, steps))
    ensures NoneLeaked(d) && CleanRun(d, steps) ==> NoneLeaked(Run(d, steps))
    decreases |steps|
  {
    if steps != [] {
      StepKeepsInv(d, steps[0]);
      if steps[0].RemovesAccount? && NoneLeaked(d) { RemovalLeaksExactlyWhen(d, steps[0].reporter); }
      hide Inv, Next, NoneLeaked;
      RunKeepsInv(Next(d, steps[0]), steps[1..]);
    }
  }

  /** In every run no signature a flag or case refers to is missing, and none
      has two owners. */
  lemma SignaturesNeverDangle(self: string, steps: seq<Step>, o: Owner, p: Owner, row: nat)
    ensures var d := Run(NewDesk(self), steps);
            && (HasRow(d, o, row) ==> row in d.rows)
            && (HasRow(d, o, row) && HasRow(d, p, row) ==> o == p)
  {
    RunKeepsInv(NewDesk(self), steps);
    assert RowsOwned(Run(NewDesk(self), steps));
  }

  /** Flagging, withdrawing, dismissing and deleting leak none either. */
  lemma SignaturesNeverLeak(self: string, steps: seq<Step>, row: nat)
    requires CleanRun(NewDesk(self), steps) && row in Run(NewDesk(self), steps).rows
    ensures exists o :: HasRow(Run(NewDesk(self), steps), o, row)
  {
    RunKeepsInv(NewDesk(self), steps);
    assert NoneLeaked(NewDesk(self));
  }

  /** A member's only flag, then their removal: both rows stay with no owner. */
  lemma RemovalLeaks(self: string, key: FlagKey, author: string, now: int)
    requires author != key.reporter && !AdminRequests.IsRootIdentity(self, author)
    ensures var steps := [MakesReed(key.reed, author), Flags(key, "", now), RemovesAccount(key.reporter)];
            var d := Run(NewDesk(self), steps);
            d.rows == {0, 1} && d.flags == map[] && d.cases == map[]
  {
    var d1 := Next(NewDesk(self), MakesReed(key.reed, author));
    var d2 := Next(d1, Flags(key, "", now));
    var d3 := Next(d2, RemovesAccount(key.reporter));
    assert d2.flags == map[key := Flag(author, 0, "", Signed(0, 1, now), None)];
    assert d2.cases == map[0 := Case(key.reed, now, None, None)];
    assert Dropped(d2, key, key.reporter);
    assert FlagsLeft(d2, key.reporter) == map[];
    assert Run(d3, []) == d3;
    assert Run(d2, [RemovesAccount(key.reporter)]) == d3;
    assert Run(d1, [Flags(key, "", now), RemovesAccount(key.reporter)]) == d3;
  }
}
