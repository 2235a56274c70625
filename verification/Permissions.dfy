/** Admin permissions and the one spelling of a permission set that gets signed. */
module Permissions {
  import opened Text

  const ADMIN_CREATE := "admin.create"
  const ADMIN_DEMOTE := "admin.demote"
  const USER_KICK := "user.kick"
  const USER_SUSPEND := "user.suspend"
  const USER_REBIND := "user.rebind"
  const USER_INVITES := "user.invites"
  const MESSAGE_UNICAST := "message.unicast"
  const MESSAGE_BROADCAST := "message.broadcast"
  const MESH_INVITE := "mesh.invite"
  const MESH_CONNECT := "mesh.connect"
  const MESH_DISCONNECT := "mesh.disconnect"

  /** Every permission, in display order. */
  const ADMIN_PERMISSIONS: seq<string> := [
    ADMIN_CREATE, ADMIN_DEMOTE, USER_KICK, USER_SUSPEND, USER_REBIND, USER_INVITES,
    MESSAGE_UNICAST, MESSAGE_BROADCAST, MESH_INVITE, MESH_CONNECT, MESH_DISCONNECT]

  datatype ParsedSet = Parsed(perms: seq<string>) | UnknownPermission(name: string) | NotSorted

  /** Checks parts[i..] in order: each known, and after the one before it. */
  function CheckParts(parts: seq<string>, i: nat, known: seq<string> := ADMIN_PERMISSIONS): (r: ParsedSet)
    requires i <= |parts|
    decreases |parts| - i
  {
    if i == |parts| then Parsed(parts)
    else if parts[i] !in known then UnknownPermission(parts[i])
    else if i > 0 && !Less(parts[i - 1], parts[i]) then NotSorted
    else CheckParts(parts, i + 1, known)
  }

  function ParsePermissionSet(body: string): ParsedSet {
    if body == "" then Parsed([]) else CheckParts(Split(body, ','), 0)
  }

  function Insert(x: string, xs: seq<string>): seq<string> {
    if xs == [] || !Less(xs[0], x) then [x] + xs else [xs[0]] + Insert(x, xs[1..])
  }

  /** sort.Strings. */
  function SortStrings(xs: seq<string>): seq<string> {
    if xs == [] then [] else Insert(xs[0], SortStrings(xs[1..]))
  }

  /** slices.Compact: of each run of equal elements, the first. */
  function Compact(xs: seq<string>): seq<string> {
    if |xs| <= 1 then xs
    else if xs[0] == xs[1] then Compact(xs[1..])
    else [xs[0]] + Compact(xs[1..])
  }

  function FormatPermissionSet(perms: seq<string>): string {
    Join(Compact(SortStrings(perms)), ',')
  }

  /** A set of known permissions. */
  ghost predicate Known(perms: seq<string>, known: seq<string> := ADMIN_PERMISSIONS) {
    forall p :: p in perms ==> p in known
  }

  /** Known, sorted and unique: what a signed set may spell. */
  ghost predicate Canonical(perms: seq<string>, known: seq<string> := ADMIN_PERMISSIONS) {
    Known(perms, known) && Ascending(perms)
  }

  ghost predicate WeaklySorted(xs: seq<string>) {
    forall i, j :: 0 <= i < j < |xs| ==> !Less(xs[j], xs[i])
  }

  lemma NotLessTransitive(a: string, b: string, c: string)
    requires !Less(b, a) && !Less(c, b)
    ensures !Less(c, a)
  {
    LessTrichotomy(a, b);
    LessTrichotomy(b, c);
    if Less(c, a) {
      if Less(a, b) { LessTransitive(c, a, b); LessTrichotomy(b, c); }
    }
  }

  lemma {:induction false} InsertSorts(x: string, xs: seq<string>)
    requires WeaklySorted(xs)
    ensures WeaklySorted(Insert(x, xs))
    ensures forall y :: y in Insert(x, xs) <==> y == x || y in xs
  {
    var r := Insert(x, xs);
    if xs == [] {
    } else if !Less(xs[0], x) {
      forall j | 0 <= j < |xs| ensures !Less(xs[j], x) {
        LessTrichotomy(x, xs[0]);
        if j > 0 { NotLessTransitive(x, xs[0], xs[j]); }
      }
    } else {
      InsertSorts(x, xs[1..]);
      forall y | y in Insert(x, xs[1..]) ensures !Less(y, xs[0]) {
        LessTrichotomy(x, xs[0]);
      }
      assert xs == [xs[0]] + xs[1..];
    }
  }

  lemma {:induction false} SortSorts(xs: seq<string>)
    ensures WeaklySorted(SortStrings(xs))
    ensures forall y :: y in SortStrings(xs) <==> y in xs
  {
    if xs != [] {
      SortSorts(xs[1..]);
      InsertSorts(xs[0], SortStrings(xs[1..]));
      assert xs == [xs[0]] + xs[1..];
    }
  }

  /** Sorting only reorders. */
  lemma {:induction false} SortReorders(xs: seq<string>)
    ensures multiset(SortStrings(xs)) == multiset(xs)
  {
    if xs != [] {
      SortReorders(xs[1..]);
      InsertAdds(xs[0], SortStrings(xs[1..]));
      assert xs == [xs[0]] + xs[1..];
    }
  }

  lemma {:induction false} InsertAdds(x: string, xs: seq<string>)
    ensures multiset(Insert(x, xs)) == multiset{x} + multiset(xs)
  {
    if xs != [] && Less(xs[0], x) {
      InsertAdds(x, xs[1..]);
      assert xs == [xs[0]] + xs[1..];
    }
  }

  lemma {:induction false} CompactAscends(xs: seq<string>)
    requires WeaklySorted(xs)
    ensures Ascending(Compact(xs))
    ensures forall y :: y in Compact(xs) <==> y in xs
    ensures xs != [] ==> Compact(xs) != [] && Compact(xs)[0] == xs[0]
  {
    if |xs| > 1 {
      CompactAscends(xs[1..]);
      assert xs == [xs[0]] + xs[1..];
      if xs[0] != xs[1] {
        var rest := Compact(xs[1..]);
        LessTrichotomy(xs[0], xs[1]);
        forall j | 0 <= j < |rest| ensures Less(xs[0], rest[j]) {
          if j > 0 { LessTransitive(xs[0], xs[1], rest[j]); }
        }
      }
    }
  }

  /** What is printed spells the permissions given, sorted and without repeats. */
  lemma CanonicalForm(perms: seq<string>)
    requires Known(perms)
    ensures Canonical(Compact(SortStrings(perms)))
    ensures forall p :: p in Compact(SortStrings(perms)) <==> p in perms
  {
    SortSorts(perms);
    CompactAscends(SortStrings(perms));
  }

  lemma {:induction false} CheckPartsExact(parts: seq<string>, i: nat, known: seq<string>)
    requires i <= |parts| && Known(parts[..i], known) && Ascending(parts[..i])
    ensures CheckParts(parts, i, known).Parsed? <==> Canonical(parts, known)
    ensures CheckParts(parts, i, known).Parsed? ==> CheckParts(parts, i, known).perms == parts
    decreases |parts| - i
  {
    if i == |parts| {
      assert parts[..i] == parts;
    } else if parts[i] in known && (i == 0 || Less(parts[i - 1], parts[i])) {
      forall j | 0 <= j < i ensures Less(parts[j], parts[i]) {
        if j < i - 1 {
          assert parts[..i][j] == parts[j] && parts[..i][i - 1] == parts[i - 1];
          LessTransitive(parts[j], parts[i - 1], parts[i]);
        }
      }
      var more := parts[..i + 1];
      forall j, k | 0 <= j < k < |more| ensures Less(more[j], more[k]) {
        if k < i { assert parts[..i][j] == parts[j] && parts[..i][k] == parts[k]; }
      }
      CheckPartsExact(parts, i + 1, known);
    }
  }

  lemma KnownNamesHaveNoComma(p: string)
    requires p in ADMIN_PERMISSIONS
    ensures p != "" && ',' !in p
  {}

  /** Sorted and unique lists of the same permissions are the same list. */
  lemma {:induction false} AscendingUnique(xs: seq<string>, ys: seq<string>)
    requires Ascending(xs) && Ascending(ys)
    requires forall p :: p in xs <==> p in ys
    ensures xs == ys
  {
    assert |ys| > 0 ==> ys[0] in xs;
    if xs != [] {
      assert xs[0] in ys && ys != [] && ys[0] in xs;
      var i :| 0 <= i < |ys| && ys[i] == xs[0];
      var j :| 0 <= j < |xs| && xs[j] == ys[0];
      LessTrichotomy(xs[0], ys[0]);
      assert i == 0 && j == 0;
      assert xs == [xs[0]] + xs[1..] && ys == [ys[0]] + ys[1..];
      LessTrichotomy(xs[0], xs[0]);
      assert xs[0] !in xs[1..] && xs[0] !in ys[1..];
      forall p ensures p in xs[1..] <==> p in ys[1..] {
        assert p in xs <==> p == xs[0] || p in xs[1..];
        assert p in ys <==> p == ys[0] || p in ys[1..];
      }
      AscendingUnique(xs[1..], ys[1..]);
    }
  }

  lemma JoinEmptyOnlyWhenEmpty(perms: seq<string>)
    requires Known(perms)
    ensures Join(perms, ',') == "" <==> perms == []
  {
    if perms != [] { KnownNamesHaveNoComma(perms[0]); }
  }

  /** A sorted, unique, known list prints to a text that parses back to it. */
  lemma ParseOfJoin(perms: seq<string>)
    requires Canonical(perms)
    ensures ParsePermissionSet(Join(perms, ',')) == Parsed(perms)
  {
    JoinEmptyOnlyWhenEmpty(perms);
    if perms != [] {
      forall p | p in perms ensures ',' !in p { KnownNamesHaveNoComma(p); }
      SplitJoin(perms, ',');
      CheckPartsExact(perms, 0, ADMIN_PERMISSIONS);
    }
  }

  /** Parsing accepts exactly the texts printed for sets of known permissions. */
  lemma AcceptsExactlyThePrinted(body: string)
    ensures ParsePermissionSet(body).Parsed? <==> exists perms :: Known(perms) && FormatPermissionSet(perms) == body
  {
    if ParsePermissionSet(body).Parsed? {
      ParsedReprints(body);
      assert Known(ParsePermissionSet(body).perms);
    }
    forall perms | Known(perms) && FormatPermissionSet(perms) == body ensures ParsePermissionSet(body).Parsed? {
      FormatParses(perms);
    }
  }

  /** Printing then parsing gives the permissions given, sorted and unique. */
  lemma FormatParses(perms: seq<string>)
    requires Known(perms)
    ensures ParsePermissionSet(FormatPermissionSet(perms)).Parsed?
    ensures var back := ParsePermissionSet(FormatPermissionSet(perms)).perms;
            Ascending(back) && forall p :: p in back <==> p in perms
  {
    CanonicalForm(perms);
    ParseOfJoin(Compact(SortStrings(perms)));
  }

  /** A text that parses is reprinted unchanged, so it has one spelling. */
  lemma ParsedReprints(body: string)
    requires ParsePermissionSet(body).Parsed?
    ensures Canonical(ParsePermissionSet(body).perms)
    ensures FormatPermissionSet(ParsePermissionSet(body).perms) == body
  {
    var perms := ParsePermissionSet(body).perms;
    if body != "" {
      CheckPartsExact(Split(body, ','), 0, ADMIN_PERMISSIONS);
      JoinSplit(body, ',');
    }
    CanonicalForm(perms);
    AscendingUnique(Compact(SortStrings(perms)), perms);
  }
}
