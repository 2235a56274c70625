/** The transactions on flags and cases, on the tables. */
module FlagService {
  import opened Options
  import opened FlagCases
  import AdminRequests

  /** What settling a removal leaves of the cases, once those in done are. */
  ghost function SettledCases(d: Desk, reporter: string, done: set<nat>): map<nat, Case> {
    var left := FlagsLeft(d, reporter);
    map c | c in d.cases && !(c in done && FlagsOf(left, c) == map[]) ::
      if c in done then Voided(d.cases[c], FlagsOf(left, c)) else d.cases[c]
  }

  lemma SettledNoneAndAll(d: Desk, reporter: string, touched: set<nat>)
    requires touched == set k | k in d.flags && Dropped(d, k, reporter) :: d.flags[k].caseId
    ensures SettledCases(d, reporter, {}) == d.cases
    ensures SettledCases(d, reporter, touched) == SettleAccountRemoval(d, reporter).cases
  {
    hide Voided, FlagsOf;
    assert forall c :: c in touched <==> Touched(d, c, reporter);
  }

  lemma SettlesTheRest(d: Desk, reporter: string)
    ensures SettleAccountRemoval(d, reporter)
            == d.(flags := FlagsLeft(d, reporter), cases := SettleAccountRemoval(d, reporter).cases)
  {}

  lemma OneOpenCase(d: Desk, c: nat, reed: string)
    requires OneOpen(d) && IsOpenOf(d, c, reed)
    ensures OpenCaseOf(d, reed) == Some(c)
  {}

  lemma NoOpenCase(d: Desk, reed: string)
    requires forall c :: !IsOpenOf(d, c, reed)
    ensures OpenCaseOf(d, reed) == None
  {}

  class FlagService {
    const self: string
    var reeds: map<string, string>
    var cases: map<nat, Case>
    var flags: map<FlagKey, Flag>
    var rows: set<nat>
    var nextCase: nat
    var nextRow: nat

    ghost function Value(): Desk
      reads this
    {
      Desk(self, reeds, cases, flags, rows, nextCase, nextRow)
    }

    constructor (self: string)
      ensures Value() == Desk(self, map[], map[], map[], {}, 0, 0)
    {
      this.self := self;
      reeds, cases, flags, rows, nextCase, nextRow := map[], map[], map[], {}, 0, 0;
    }

    method InsertSignatures(at: int) returns (signed: Signed)
      modifies this`rows, this`nextRow
      ensures Value() == Insert(old(Value())) && signed == NewSigned(old(Value()), at)
    {
      signed := Signed(nextRow, nextRow + 1, at);
      rows := rows + {nextRow, nextRow + 1};
      nextRow := nextRow + 2;
    }

    /** The reed's open case, opened now if there is none. */
    method OpenCase(reed: string, now: int) returns (c: nat)
      requires OneOpen(Value())
      modifies this`cases, this`nextCase
      ensures (Value(), c) == WithOpenCase(old(Value()), reed, now)
    {
      if o :| o in cases && cases[o].reed == reed && IsOpen(cases[o]) {
        OneOpenCase(Value(), o, reed);
        return o;
      }
      NoOpenCase(Value(), reed);
      c := nextCase;
      cases := cases[c := Case(reed, now, None, None)];
      nextCase := nextCase + 1;
    }

    method StoreReedFlag(key: FlagKey, note: string, now: int) returns (answer: Answer)
      requires OneOpen(Value())
      modifies this
      ensures (Value(), answer) == StoreFlag(old(Value()), key, note, now)
    {
      if key.reed !in reeds { return ReedNotFound; }
      var author := reeds[key.reed];
      if AdminRequests.IsRootIdentity(self, author) { return RootReed; }
      if author == key.reporter { return OwnReed; }
      if key in flags { return AlreadyFlagged; }
      var c := OpenCase(key.reed, now);
      var signed := InsertSignatures(now);
      flags := flags[key := Flag(author, c, note, signed, None)];
      answer := Done;
    }

    /** The time of the latest withdrawal of flags that are all withdrawn. */
    method FindLatest(held: map<FlagKey, Flag>) returns (at: int)
      requires held != map[] && AllWithdrawn(held)
      ensures at == LatestWithdrawal(held)
    {
      var left := held.Keys;
      var first :| first in held;
      at := held[first].withdrawal.value.at;
      ghost var latest := first;
      while left != {}
        invariant left <= held.Keys && latest in held && at == held[latest].withdrawal.value.at
        invariant forall k :: k in held.Keys - left ==> held[k].withdrawal.value.at <= at
        decreases left
      {
        var k :| k in left;
        if held[k].withdrawal.value.at > at {
          at := held[k].withdrawal.value.at;
          latest := k;
        }
        left := left - {k};
      }
      assert IsLatest(held, latest);
    }

    /** Voids an open case once it holds flags and all of them are withdrawn. */
    method VoidCaseIfDone(c: nat)
      modifies this`cases
      ensures cases == if c in old(cases) then old(cases)[c := Voided(old(cases)[c], FlagsOf(flags, c))] else old(cases)
    {
      if c !in cases || !IsOpen(cases[c]) { return; }
      var held := FlagsOf(flags, c);
      if held == map[] || exists k :: k in held && held[k].withdrawal.None? { return; }
      var at := FindLatest(held);
      cases := cases[c := cases[c].(voidedAt := Some(at))];
    }

    method WithdrawReedFlag(key: FlagKey, at: int) returns (answer: Answer)
      modifies this
      ensures (Value(), answer) == WithdrawFlag(old(Value()), key, at)
    {
      if key !in flags || flags[key].caseId !in cases { return NoFlag; }
      var c := flags[key].caseId;
      if cases[c].dismissal.Some? { return Acknowledged; }
      if flags[key].withdrawal.Some? { return HeldAlready; }
      var signed := InsertSignatures(at);
      flags := flags[key := flags[key].(withdrawal := Some(signed))];
      VoidCaseIfDone(c);
      answer := Done;
    }

    /** The signatures inserted first go again when the case is closed. */
    method DismissFlagCase(c: nat, admin: string, reason: string, at: int) returns (answer: Answer)
      modifies this
      ensures (Value(), answer) == DismissCase(old(Value()), c, admin, reason, at)
    {
      var beforeRows, beforeNext := rows, nextRow;
      var signed := InsertSignatures(at);
      if c !in cases || !IsOpen(cases[c]) {
        rows, nextRow := beforeRows, beforeNext;
        return CaseClosed;
      }
      cases := cases[c := cases[c].(dismissal := Some(Dismissal(admin, reason, signed)))];
      answer := Done;
    }

    method DeleteCase(c: nat, viewer: string, now: int) returns (answer: Answer)
      modifies this
      ensures (Value(), answer) == DeleteFlagCase(old(Value()), c, viewer, now)
    {
      if c !in cases || cases[c].reed !in reeds || reeds[cases[c].reed] == viewer { return NoCase; }
      var closedAt := ClosedAt(cases[c]);
      if closedAt.None? { return CaseOpen; }
      if now - closedAt.value < FLAG_CASE_RETENTION { return CaseTooRecent; }
      var gone := RowsOfCase(cases[c])
          + (set k, row | k in flags && flags[k].caseId == c && row in RowsOfFlag(flags[k]) :: row);
      cases := cases - {c};
      flags := map k | k in flags && flags[k].caseId != c :: flags[k];
      rows := rows - gone;
      answer := Done;
    }

    /** Drops a removed account's flags in open cases, then empties or voids
        each case they were in. */
    method SettleRemoval(reporter: string)
      modifies this`cases, this`flags
      ensures Value() == SettleAccountRemoval(old(Value()), reporter)
    {
      ghost var d := Value();
      var gone :=
        set k | k in flags && k.reporter == reporter && flags[k].caseId in cases && IsOpen(cases[flags[k].caseId]);
      var touched := set k | k in gone :: flags[k].caseId;
      flags := flags - gone;
      assert flags == FlagsLeft(d, reporter);
      var left := touched;
      SettledNoneAndAll(d, reporter, touched);
      hide SettledCases, SettleAccountRemoval, FlagsLeft;
      while left != {}
        invariant left <= touched && Value() == d.(flags := FlagsLeft(d, reporter), cases := cases)
        invariant cases == SettledCases(d, reporter, touched - left)
        decreases left
      {
        var c :| c in left;
        SettleOne(d, reporter, touched - left, c);
        assert touched - (left - {c}) == touched - left + {c};
        left := left - {c};
      }
      assert touched - left == touched;
      SettlesTheRest(d, reporter);
    }

    method SettleOne(ghost d: Desk, ghost reporter: string, ghost done: set<nat>, c: nat)
      requires flags == FlagsLeft(d, reporter) && cases == SettledCases(d, reporter, done) && c !in done
      modifies this`cases
      ensures cases == SettledCases(d, reporter, done + {c})
    {
      if FlagsOf(flags, c) == map[] {
        cases := cases - {c};
      }
      VoidCaseIfDone(c);
    }
  }
}
