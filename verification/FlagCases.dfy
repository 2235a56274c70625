/** Flags on reeds, the cases they gather in, and the signature rows of both. */
module FlagCases {
  import opened Options
  import AdminRequests

  /** A user's signature and the server's, as the rows that hold them; one id
      names a row of either table. */
  datatype Signed = Signed(user: nat, server: nat, at: int)

  datatype FlagKey = FlagKey(reed: string, reporter: string)
  datatype Flag = Flag(author: string, caseId: nat, note: string, signed: Signed, withdrawal: Option<Signed>)

  datatype Dismissal = Dismissal(admin: string, reason: string, signed: Signed)
  datatype Case = Case(reed: string, openedAt: int, dismissal: Option<Dismissal>, voidedAt: Option<int>)

  /** reeds has the author of each reed made on this server. */
  datatype Desk = Desk(
    self: string,
    reeds: map<string, string>,
    cases: map<nat, Case>,
    flags: map<FlagKey, Flag>,
    rows: set<nat>,
    nextCase: nat,
    nextRow: nat)

  datatype Answer =
    | Done | ReedNotFound | RootReed | OwnReed | AlreadyFlagged
    | NoFlag | Acknowledged | HeldAlready
    | CaseClosed | NoCase | CaseOpen | CaseTooRecent

  const DAY := 24 * 60 * 60
  const FLAG_CASE_RETENTION := 183 * DAY

  predicate IsOpen(c: Case) {
    c.dismissal.None? && c.voidedAt.None?
  }

  /** The flags of one case. */
  function FlagsOf(flags: map<FlagKey, Flag>, c: nat): map<FlagKey, Flag> {
    map k | k in flags && flags[k].caseId == c :: flags[k]
  }

  predicate AllWithdrawn(flags: map<FlagKey, Flag>) {
    forall k :: k in flags ==> flags[k].withdrawal.Some?
  }

  /** No flag was withdrawn after k's. */
  ghost predicate IsLatest(flags: map<FlagKey, Flag>, k: FlagKey) {
    && k in flags && flags[k].withdrawal.Some?
    && forall j :: j in flags && flags[j].withdrawal.Some? ==>
         flags[j].withdrawal.value.at <= flags[k].withdrawal.value.at
  }

  lemma {:induction false} SomeLatest(flags: map<FlagKey, Flag>)
    requires flags.Keys != {} && AllWithdrawn(flags)
    ensures exists k :: IsLatest(flags, k)
    decreases flags.Keys
  {
    var k :| k in flags;
    var rest := flags - {k};
    assert forall j :: j in flags ==> j == k || (j in rest && rest[j] == flags[j]);
    if rest.Keys == {} {
      assert IsLatest(flags, k);
    } else {
      SomeLatest(rest);
      var l :| IsLatest(rest, l);
      assert IsLatest(flags, k) || IsLatest(flags, l);
    }
  }

  ghost function LatestWithdrawal(flags: map<FlagKey, Flag>): (at: int)
    requires flags != map[] && AllWithdrawn(flags)
    ensures exists k :: IsLatest(flags, k) && flags[k].withdrawal.value.at == at
  {
    assert flags.Keys != {};
    SomeLatest(flags);
    var k :| IsLatest(flags, k);
    flags[k].withdrawal.value.at
  }

  /** A case that is void, at its latest withdrawal, once it has flags and all
      of them are withdrawn. */
  ghost function Voided(c: Case, flags: map<FlagKey, Flag>): Case {
    if IsOpen(c) && flags != map[] && AllWithdrawn(flags) then c.(voidedAt := Some(LatestWithdrawal(flags))) else c
  }

  ghost predicate IsOpenOf(d: Desk, c: nat, reed: string) {
    c in d.cases && d.cases[c].reed == reed && IsOpen(d.cases[c])
  }

  ghost function OpenCaseOf(d: Desk, reed: string): (c: Option<nat>)
    ensures c.Some? ==> IsOpenOf(d, c.value, reed)
    ensures c.None? ==> forall o :: !IsOpenOf(d, o, reed)
  {
    if exists c :: IsOpenOf(d, c, reed) then
      var c :| IsOpenOf(d, c, reed);
      Some(c)
    else None
  }

  /** reed's open case, which is opened when there is none. */
  ghost function WithOpenCase(d: Desk, reed: string, now: int): (Desk, nat) {
    match OpenCaseOf(d, reed)
    case Some(c) => (d, c)
    case None =>
      var added := Case(reed, now, None, None);
      (d.(cases := d.cases[d.nextCase := added], nextCase := d.nextCase + 1), d.nextCase)
  }

  /** Both signatures take the next two rows. */
  function NewSigned(d: Desk, at: int): Signed {
    Signed(d.nextRow, d.nextRow + 1, at)
  }

  function Insert(d: Desk): Desk {
    d.(rows := d.rows + {d.nextRow, d.nextRow + 1}, nextRow := d.nextRow + 2)
  }

  ghost function StoreFlag(d: Desk, key: FlagKey, note: string, now: int): (Desk, Answer) {
    if key.reed !in d.reeds then (d, ReedNotFound)
    else
      var author := d.reeds[key.reed];
      if AdminRequests.IsRootIdentity(d.self, author) then (d, RootReed)
      else if author == key.reporter then (d, OwnReed)
      else if key in d.flags then (d, AlreadyFlagged)
      else
        var (within, c) := WithOpenCase(d, key.reed, now);
        (Insert(within).(flags := d.flags[key := Flag(author, c, note, NewSigned(d, now), None)]), Done)
  }

  ghost function WithdrawFlag(d: Desk, key: FlagKey, at: int): (Desk, Answer) {
    if key !in d.flags || d.flags[key].caseId !in d.cases then (d, NoFlag)
    else
      var c := d.flags[key].caseId;
      if d.cases[c].dismissal.Some? then (d, Acknowledged)
      else if d.flags[key].withdrawal.Some? then (d, HeldAlready)
      else
        var flags := d.flags[key := d.flags[key].(withdrawal := Some(NewSigned(d, at)))];
        (Insert(d).(flags := flags, cases := d.cases[c := Voided(d.cases[c], FlagsOf(flags, c))]), Done)
  }

  function DismissCase(d: Desk, c: nat, admin: string, reason: string, at: int): (Desk, Answer) {
    if c !in d.cases || !IsOpen(d.cases[c]) then (d, CaseClosed)
    else
      var dismissal := Dismissal(admin, reason, NewSigned(d, at));
      (Insert(d).(cases := d.cases[c := d.cases[c].(dismissal := Some(dismissal))]), Done)
  }

  function ClosedAt(c: Case): Option<int> {
    if c.dismissal.Some? then Some(c.dismissal.value.signed.at) else c.voidedAt
  }

  function RowsOf(signed: Signed): set<nat> {
    {signed.user, signed.server}
  }

  function RowsOfFlag(f: Flag): set<nat> {
    RowsOf(f.signed) + if f.withdrawal.Some? then RowsOf(f.withdrawal.value) else {}
  }

  function RowsOfCase(c: Case): set<nat> {
    if c.dismissal.Some? then RowsOf(c.dismissal.value.signed) else {}
  }

  /** Every row a case and its flags hold. */
  function RowsUnder(d: Desk, c: nat): set<nat>
    requires c in d.cases
  {
    RowsOfCase(d.cases[c])
      + (set k, row | k in d.flags && d.flags[k].caseId == c && row in RowsOfFlag(d.flags[k]) :: row)
  }

  /** The author of a case's reed doesn't see it. */
  function DeleteFlagCase(d: Desk, c: nat, viewer: string, now: int): (Desk, Answer) {
    if c !in d.cases || d.cases[c].reed !in d.reeds || d.reeds[d.cases[c].reed] == viewer then (d, NoCase)
    else if ClosedAt(d.cases[c]).None? then (d, CaseOpen)
    else if now - ClosedAt(d.cases[c]).value < FLAG_CASE_RETENTION then (d, CaseTooRecent)
    else
      (d.(cases := d.cases - {c}, flags := map k | k in d.flags && d.flags[k].caseId != c :: d.flags[k],
          rows := d.rows - RowsUnder(d, c)), Done)
  }

  /** A removed account's flags in open cases. */
  predicate Dropped(d: Desk, k: FlagKey, reporter: string) {
    && k in d.flags && k.reporter == reporter
    && d.flags[k].caseId in d.cases && IsOpen(d.cases[d.flags[k].caseId])
  }

  function FlagsLeft(d: Desk, reporter: string): map<FlagKey, Flag> {
    map k | k in d.flags && !Dropped(d, k, reporter) :: d.flags[k]
  }

  predicate Touched(d: Desk, c: nat, reporter: string) {
    exists k :: k in d.flags && Dropped(d, k, reporter) && d.flags[k].caseId == c
  }

  /** Those flags go, a case they leave empty goes too, and one they leave with
      only withdrawn flags is void. */
  ghost function SettleAccountRemoval(d: Desk, reporter: string): Desk {
    var left := FlagsLeft(d, reporter);
    d.(flags := left,
       cases := map c | c in d.cases && !(Touched(d, c, reporter) && FlagsOf(left, c) == map[]) ::
                  if Touched(d, c, reporter) then Voided(d.cases[c], FlagsOf(left, c)) else d.cases[c])
  }

  /** A flag not withdrawn, in a case that is open. */
  predicate OpenIn(d: Desk, k: FlagKey) {
    k in d.flags && d.flags[k].withdrawal.None? && d.flags[k].caseId in d.cases && IsOpen(d.cases[d.flags[k].caseId])
  }

  /** The flags on author's reeds that are open. */
  function OpenFlags(d: Desk, author: string): set<FlagKey> {
    set k | k in d.flags && d.flags[k].author == author && OpenIn(d, k)
  }

  function OpenFlagCount(d: Desk, author: string): nat {
    |OpenFlags(d, author)|
  }

  // ---- what every operation keeps ----

  /** A case has flags, is void exactly when all of them are withdrawn, at the
      latest withdrawal, and is closed at most once. */
  ghost predicate CaseOk(c: Case, flags: map<FlagKey, Flag>) {
    && flags != map[]
    && (c.voidedAt.Some? <==> AllWithdrawn(flags))
    && (c.voidedAt.Some? ==> c.dismissal.None? && c.voidedAt.value == LatestWithdrawal(flags))
  }

  ghost predicate FlagOk(d: Desk, k: FlagKey) {
    && k in d.flags && k.reed in d.reeds && d.flags[k].author == d.reeds[k.reed]
    && d.flags[k].caseId in d.cases && d.cases[d.flags[k].caseId].reed == k.reed
  }

  predicate BothOpen(a: Case, b: Case) {
    IsOpen(a) && IsOpen(b) && a.reed == b.reed
  }

  /** What idx_flag_cases_open sees to. */
  ghost predicate OneOpen(d: Desk) {
    forall a, b :: a in d.cases && b in d.cases && BothOpen(d.cases[a], d.cases[b]) ==> a == b
  }

  ghost predicate CasesOk(d: Desk) {
    && OneOpen(d) && (forall c :: c in d.cases ==> c < d.nextCase)
    && (forall k :: k in d.flags ==> FlagOk(d, k))
    && (forall c {:trigger FlagsOf(d.flags, c)} :: c in d.cases ==> CaseOk(d.cases[c], FlagsOf(d.flags, c)))
  }

  lemma VoidedOk(c: Case, flags: map<FlagKey, Flag>)
    requires c.voidedAt.None? && flags != map[]
    requires c.dismissal.Some? ==> !AllWithdrawn(flags)
    ensures CaseOk(Voided(c, flags), flags)
  {}

  lemma StoreKeepsCases(d: Desk, key: FlagKey, note: string, now: int)
    requires CasesOk(d)
    ensures CasesOk(StoreFlag(d, key, note, now).0)
  {
    var (after, answer) := StoreFlag(d, key, note, now);
    if answer.Done? {
      forall c | c in after.cases ensures CaseOk(after.cases[c], FlagsOf(after.flags, c)) {
        StoredCase(d, key, note, now, c);
      }
      StoredFlags(d, key, note, now);
    }
  }

  lemma StoredFlags(d: Desk, key: FlagKey, note: string, now: int)
    requires CasesOk(d) && StoreFlag(d, key, note, now).1.Done?
    ensures var after := StoreFlag(d, key, note, now).0;
            && OneOpen(after) && (forall c :: c in after.cases ==> c < after.nextCase)
            && forall k :: k in after.flags ==> FlagOk(after, k)
  {
    forall c | OpenCaseOf(d, key.reed).None? ensures !IsOpenOf(d, c, key.reed) {}
    assert forall c :: OpenCaseOf(d, key.reed).None? && c in d.cases && IsOpen(d.cases[c]) ==>
        (IsOpenOf(d, c, key.reed) || d.cases[c].reed != key.reed);
  }

  lemma StoredCase(d: Desk, key: FlagKey, note: string, now: int, c: nat)
    requires CasesOk(d) && StoreFlag(d, key, note, now).1.Done? && c in StoreFlag(d, key, note, now).0.cases
    ensures CaseOk(StoreFlag(d, key, note, now).0.cases[c], FlagsOf(StoreFlag(d, key, note, now).0.flags, c))
  {
    var after := StoreFlag(d, key, note, now).0;
    var was, flags := FlagsOf(d.flags, c), FlagsOf(after.flags, c);
    if after.flags[key].caseId == c {
      assert key in flags && flags[key].withdrawal.None?;
    } else {
      assert flags == was;
    }
  }

  lemma WithdrawKeepsCase(d: Desk, key: FlagKey, at: int, c: nat)
    requires CasesOk(d) && WithdrawFlag(d, key, at).1.Done? && c in d.cases
    ensures var after := WithdrawFlag(d, key, at).0;
            && CaseOk(after.cases[c], FlagsOf(after.flags, c))
            && after.cases[c] == d.cases[c].(voidedAt := after.cases[c].voidedAt)
            && (IsOpen(after.cases[c]) ==> IsOpen(d.cases[c]))
  {
    var after := WithdrawFlag(d, key, at).0;
    var was, flags := FlagsOf(d.flags, c), FlagsOf(after.flags, c);
    assert CaseOk(d.cases[c], was);
    if c == d.flags[key].caseId {
      assert key in was && key in flags;
      VoidedOk(d.cases[c], flags);
      VoidedKeeps(d.cases[c], flags);
    } else {
      assert flags == was;
    }
  }

  lemma WithdrawKeepsFlags(d: Desk, key: FlagKey, at: int)
    requires CasesOk(d) && WithdrawFlag(d, key, at).1.Done?
    ensures var after := WithdrawFlag(d, key, at).0;
            && after.cases.Keys == d.cases.Keys && after.nextCase == d.nextCase && after.reeds == d.reeds
            && after.flags.Keys == d.flags.Keys
            && (forall k :: k in d.flags ==> after.flags[k] == d.flags[k].(withdrawal := after.flags[k].withdrawal))
  {
    hide Voided;
    assert FlagOk(d, key);
  }

  lemma WithdrawKeepsCases(d: Desk, key: FlagKey, at: int)
    requires CasesOk(d)
    ensures CasesOk(WithdrawFlag(d, key, at).0)
  {
    if WithdrawFlag(d, key, at).1.Done? {
      hide WithdrawFlag, CaseOk, FlagsOf;
      var after := WithdrawFlag(d, key, at).0;
      WithdrawKeepsFlags(d, key, at);
      forall c | c in after.cases
        ensures CaseOk(after.cases[c], FlagsOf(after.flags, c)) && after.cases[c].reed == d.cases[c].reed
                && (IsOpen(after.cases[c]) ==> IsOpen(d.cases[c]))
      {
        WithdrawKeepsCase(d, key, at, c);
      }
      SameCasesOneOpen(d, after);
      forall k | k in after.flags ensures FlagOk(after, k) {
        assert FlagOk(d, k);
      }
    }
  }

  lemma VoidedKeeps(c: Case, flags: map<FlagKey, Flag>)
    ensures Voided(c, flags) == c.(voidedAt := Voided(c, flags).voidedAt)
    ensures c.voidedAt.Some? ==> Voided(c, flags) == c
  {}

  lemma DismissKeepsCases(d: Desk, c: nat, admin: string, reason: string, at: int)
    requires CasesOk(d)
    ensures CasesOk(DismissCase(d, c, admin, reason, at).0)
  {
    var (after, answer) := DismissCase(d, c, admin, reason, at);
    if answer.Done? {
      forall o | o in after.cases ensures CaseOk(after.cases[o], FlagsOf(after.flags, o)) {
        assert CaseOk(d.cases[o], FlagsOf(d.flags, o));
      }
    }
  }

  lemma DeleteKeepsCases(d: Desk, c: nat, viewer: string, now: int)
    requires CasesOk(d)
    ensures CasesOk(DeleteFlagCase(d, c, viewer, now).0)
  {
    var (after, answer) := DeleteFlagCase(d, c, viewer, now);
    if answer.Done? {
      forall o | o in after.cases ensures CaseOk(after.cases[o], FlagsOf(after.flags, o)) {
        assert FlagsOf(after.flags, o) == FlagsOf(d.flags, o);
      }
    }
  }

  lemma SettleKeepsCase(d: Desk, reporter: string, c: nat)
    requires CasesOk(d) && c in SettleAccountRemoval(d, reporter).cases
    ensures var after := SettleAccountRemoval(d, reporter);
            && CaseOk(after.cases[c], FlagsOf(after.flags, c))
            && after.cases[c] == d.cases[c].(voidedAt := after.cases[c].voidedAt)
            && (IsOpen(after.cases[c]) ==> IsOpen(d.cases[c]))
  {
    var after := SettleAccountRemoval(d, reporter);
    var was, left := FlagsOf(d.flags, c), FlagsOf(after.flags, c);
    assert CaseOk(d.cases[c], was);
    hide LatestWithdrawal;
    if Touched(d, c, reporter) {
      VoidedOk(d.cases[c], left);
      VoidedKeeps(d.cases[c], left);
    } else {
      assert left == was;
    }
  }

  lemma SettleKeepsFlags(d: Desk, reporter: string)
    requires CasesOk(d)
    ensures var after := SettleAccountRemoval(d, reporter);
            && after.cases.Keys <= d.cases.Keys && after.nextCase == d.nextCase && after.reeds == d.reeds
            && (forall k :: k in after.flags ==>
                  k in d.flags && after.flags[k] == d.flags[k] && d.flags[k].caseId in after.cases)
  {
    hide Voided;
    var after := SettleAccountRemoval(d, reporter);
    forall k | k in after.flags ensures d.flags[k].caseId in after.cases {
      assert FlagOk(d, k);
      assert k in FlagsOf(after.flags, d.flags[k].caseId);
    }
  }

  lemma SettleKeepsCases(d: Desk, reporter: string)
    requires CasesOk(d)
    ensures CasesOk(SettleAccountRemoval(d, reporter))
  {
    hide SettleAccountRemoval, CaseOk, FlagsOf;
    var after := SettleAccountRemoval(d, reporter);
    SettleKeepsFlags(d, reporter);
    forall c | c in after.cases
      ensures CaseOk(after.cases[c], FlagsOf(after.flags, c)) && after.cases[c].reed == d.cases[c].reed
              && (IsOpen(after.cases[c]) ==> IsOpen(d.cases[c]))
    {
      SettleKeepsCase(d, reporter, c);
    }
    SameCasesOneOpen(d, after);
    forall k | k in after.flags ensures FlagOk(after, k) {
      assert FlagOk(d, k);
    }
  }

  /** No case is opened by closing some and deleting some. */
  lemma SameCasesOneOpen(d: Desk, after: Desk)
    requires OneOpen(d) && after.cases.Keys <= d.cases.Keys
    requires forall c :: c in after.cases ==>
             after.cases[c].reed == d.cases[c].reed && (IsOpen(after.cases[c]) ==> IsOpen(d.cases[c]))
    ensures OneOpen(after)
  {}
}
