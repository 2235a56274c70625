/** Ledger entries, the bytes signed over them, and what a chain of signatures
    proves. */
module LedgerPayload {
  import opened Options

  /** prev is the entry before, none on the first; requestedAt and signedAt are
      whole seconds, and key is the server key that signed. */
  datatype Entry = Entry(
    id: nat,
    prev: Option<nat>,
    kind: string,
    user: string,
    requester: string,
    requestedAt: Option<int>,
    message: string,
    content: string,
    targets: seq<string>,
    signedAt: int,
    key: string,
    signature: string)

  /** A value of a signed field, as JSON writes it. */
  datatype Value = Text(text: string) | Number(number: nat) | Names(names: seq<string>) | Time(second: int) | Null

  /** The signed fields' names. */
  datatype Name =
    | Type | Id | PrevID | PrevSignature | Kind | UserID | RequesterID | RequestedAt
    | Message | Content | Targets | ServerID | ServerKeyFingerprint | SignedAt

  type Fields = map<Name, Value>

  /** Empty strings, nulls and empty lists sign as if they weren't there. */
  predicate IsEmptySignedValue(v: Value) {
    v == Null || v == Text("") || v == Names([])
  }

  function Kept(fields: Fields): Fields {
    map k | k in fields && !IsEmptySignedValue(fields[k]) :: fields[k]
  }

  /** The fields signed for an entry that follows one signed prevSignature. */
  function LedgerEntryField(e: Entry, prevSignature: string, server: string, name: Name): Value {
    match name
    case Type => Text("ledger-entry")
    case Id => Number(e.id)
    case PrevID => if e.prev.Some? then Number(e.prev.value) else Null
    case PrevSignature => Text(prevSignature)
    case Kind => Text(e.kind)
    case UserID => Text(e.user)
    case RequesterID => Text(e.requester)
    case RequestedAt => if e.requestedAt.Some? then Time(e.requestedAt.value) else Text("")
    case Message => Text(e.message)
    case Content => Text(e.content)
    case Targets => Names(e.targets)
    case ServerID => Text(server)
    case ServerKeyFingerprint => Text(e.key)
    case SignedAt => Time(e.signedAt)
  }

  function LedgerEntryFields(e: Entry, prevSignature: string, server: string): Fields {
    map name: Name | true :: LedgerEntryField(e, prevSignature, server, name)
  }

  function Payload(e: Entry, prevSignature: string, server: string): Fields {
    Kept(LedgerEntryFields(e, prevSignature, server))
  }

  /** Whatever is dropped as empty, what is kept says what every field was. */
  lemma KeptSaysField(a: Fields, b: Fields, k: Name)
    requires Kept(a) == Kept(b) && k in a && k in b
    ensures a[k] == b[k] || (IsEmptySignedValue(a[k]) && IsEmptySignedValue(b[k]))
  {
    assert k in Kept(a) <==> !IsEmptySignedValue(a[k]);
    assert k in Kept(b) <==> !IsEmptySignedValue(b[k]);
  }

  lemma FieldSame(a: Entry, b: Entry, prevA: string, prevB: string, serverA: string, serverB: string, name: Name)
    requires Payload(a, prevA, serverA) == Payload(b, prevB, serverB)
    ensures var x, y := LedgerEntryField(a, prevA, serverA, name), LedgerEntryField(b, prevB, serverB, name);
            x == y || (IsEmptySignedValue(x) && IsEmptySignedValue(y))
  {
    hide LedgerEntryField;
    KeptSaysField(LedgerEntryFields(a, prevA, serverA), LedgerEntryFields(b, prevB, serverB), name);
  }

  lemma SameLinkFields(a: Entry, b: Entry, prevA: string, prevB: string, serverA: string, serverB: string)
    requires Payload(a, prevA, serverA) == Payload(b, prevB, serverB)
    ensures a.id == b.id && a.prev == b.prev && prevA == prevB && serverA == serverB && a.key == b.key
            && a.signedAt == b.signedAt
  {
    hide Payload, LedgerEntryFields;
    FieldSame(a, b, prevA, prevB, serverA, serverB, Id);
    FieldSame(a, b, prevA, prevB, serverA, serverB, PrevID);
    FieldSame(a, b, prevA, prevB, serverA, serverB, PrevSignature);
    FieldSame(a, b, prevA, prevB, serverA, serverB, ServerID);
    FieldSame(a, b, prevA, prevB, serverA, serverB, ServerKeyFingerprint);
    FieldSame(a, b, prevA, prevB, serverA, serverB, SignedAt);
  }

  lemma SameContentFields(a: Entry, b: Entry, prevA: string, prevB: string, serverA: string, serverB: string)
    requires Payload(a, prevA, serverA) == Payload(b, prevB, serverB)
    ensures a.kind == b.kind && a.user == b.user && a.requester == b.requester && a.requestedAt == b.requestedAt
    ensures a.message == b.message && a.content == b.content && a.targets == b.targets
  {
    hide Payload, LedgerEntryFields;
    FieldSame(a, b, prevA, prevB, serverA, serverB, Kind);
    FieldSame(a, b, prevA, prevB, serverA, serverB, UserID);
    FieldSame(a, b, prevA, prevB, serverA, serverB, RequesterID);
    FieldSame(a, b, prevA, prevB, serverA, serverB, RequestedAt);
    FieldSame(a, b, prevA, prevB, serverA, serverB, Message);
    FieldSame(a, b, prevA, prevB, serverA, serverB, Content);
    FieldSame(a, b, prevA, prevB, serverA, serverB, Targets);
  }

  lemma SignatureNotSigned(e: Entry, signature: string, prevSignature: string, server: string)
    ensures Payload(e.(signature := signature), prevSignature, server) == Payload(e, prevSignature, server)
  {
    assert LedgerEntryFields(e.(signature := signature), prevSignature, server)
        == LedgerEntryFields(e, prevSignature, server);
  }

  /** No two entries, positions in a chain or servers share their signed bytes. */
  lemma PayloadInjective(a: Entry, b: Entry, prevA: string, prevB: string, serverA: string, serverB: string)
    ensures Payload(a, prevA, serverA) == Payload(b, prevB, serverB)
            <==> (b == a.(signature := b.signature) && prevA == prevB && serverA == serverB)
  {
    hide Payload;
    if Payload(a, prevA, serverA) == Payload(b, prevB, serverB) {
      SameLinkFields(a, b, prevA, prevB, serverA, serverB);
      SameContentFields(a, b, prevA, prevB, serverA, serverB);
    }
    SignatureNotSigned(a, b.signature, prevA, serverA);
  }

  function TextOf(f: Fields, name: Name): string {
    if name in f && f[name].Text? then f[name].text else ""
  }

  function NumberOf(f: Fields, name: Name): Option<nat> {
    if name in f && f[name].Number? then Some(f[name].number) else None
  }

  function TimeOf(f: Fields, name: Name): Option<int> {
    if name in f && f[name].Time? then Some(f[name].second) else None
  }

  function NamesOf(f: Fields, name: Name): seq<string> {
    if name in f && f[name].Names? then f[name].names else []
  }

  /** A field that wasn't kept reads as the empty value it was. */
  lemma ReadField(e: Entry, prevSignature: string, server: string, name: Name)
    ensures var f, v := Payload(e, prevSignature, server), LedgerEntryField(e, prevSignature, server, name);
            && TextOf(f, name) == (if v.Text? then v.text else "")
            && NumberOf(f, name) == (if v.Number? then Some(v.number) else None)
            && TimeOf(f, name) == (if v.Time? then Some(v.second) else None)
            && NamesOf(f, name) == (if v.Names? then v.names else [])
  {
    hide LedgerEntryField;
  }

  /** What someone who has only the signed fields reads in them: the entry but
      for its signature, the signature before it, and the server. */
  datatype Reading = Reading(entry: Entry, prevSignature: string, server: string)

  function ReadBack(f: Fields): Option<Reading> {
    if TextOf(f, Type) != "ledger-entry" || NumberOf(f, Id).None? || TimeOf(f, SignedAt).None? then None
    else Some(Reading(
                Entry(
                  NumberOf(f, Id).value, NumberOf(f, PrevID), TextOf(f, Kind), TextOf(f, UserID),
                  TextOf(f, RequesterID), TimeOf(f, RequestedAt), TextOf(f, Message), TextOf(f, Content),
                  NamesOf(f, Targets),
                  TimeOf(f, SignedAt).value, TextOf(f, ServerKeyFingerprint), ""),
                TextOf(f, PrevSignature), TextOf(f, ServerID)))
  }

  /** The signed fields say, each under its own name, what was signed. */
  lemma SignedFieldsReadBack(e: Entry, prevSignature: string, server: string)
    ensures ReadBack(Payload(e, prevSignature, server)) == Some(Reading(e.(signature := ""), prevSignature, server))
  {
    ReadTexts(e, prevSignature, server);
    ReadOthers(e, prevSignature, server);
    hide Payload, TextOf, NumberOf, TimeOf, NamesOf;
  }

  lemma ReadTexts(e: Entry, prevSignature: string, server: string)
    ensures var f := Payload(e, prevSignature, server);
            && TextOf(f, Type) == "ledger-entry" && TextOf(f, Kind) == e.kind && TextOf(f, UserID) == e.user
            && TextOf(f, RequesterID) == e.requester && TextOf(f, Message) == e.message
            && TextOf(f, Content) == e.content && TextOf(f, ServerKeyFingerprint) == e.key
            && TextOf(f, PrevSignature) == prevSignature && TextOf(f, ServerID) == server
  {
    hide Payload, TextOf, NumberOf, TimeOf, NamesOf;
    forall name: Name { ReadField(e, prevSignature, server, name); }
  }

  lemma ReadOthers(e: Entry, prevSignature: string, server: string)
    ensures var f := Payload(e, prevSignature, server);
            && NumberOf(f, Id) == Some(e.id) && NumberOf(f, PrevID) == e.prev && NamesOf(f, Targets) == e.targets
            && TimeOf(f, RequestedAt) == e.requestedAt && TimeOf(f, SignedAt) == Some(e.signedAt)
  {
    hide Payload, TextOf, NumberOf, TimeOf, NamesOf;
    forall name: Name { ReadField(e, prevSignature, server, name); }
  }

  // ---- what a chain proves ----

  /** Whether a signature is one by a key over some bytes. */
  type Verifier = (string, string, Fields) -> bool

  /** No signature stands for two different payloads. */
  ghost predicate Binding(verify: Verifier) {
    forall k1, k2, s, p1, p2 :: verify(k1, s, p1) && verify(k2, s, p2) ==> p1 == p2
  }

  function SignatureBefore(chain: seq<Entry>, i: nat): string
    requires i < |chain|
  {
    if i == 0 then "" else chain[i - 1].signature
  }

  /** The i-th entry is signed, and names the one before and its signature. */
  ghost predicate LinkOk(chain: seq<Entry>, i: nat, server: string, verify: Verifier)
    requires i < |chain|
  {
    && chain[i].prev == (if i == 0 then None else Some(chain[i - 1].id))
    && verify(chain[i].key, chain[i].signature, Payload(chain[i], SignatureBefore(chain, i), server))
  }

  ghost predicate ValidChain(chain: seq<Entry>, server: string, verify: Verifier) {
    forall i: nat :: i < |chain| ==> LinkOk(chain, i, server, verify)
  }

  /** Two valid chains that end in the same signature are the same chain. */
  lemma {:induction false} LastSignatureFixesChain(a: seq<Entry>, b: seq<Entry>, server: string, verify: Verifier)
    requires Binding(verify) && ValidChain(a, server, verify) && ValidChain(b, server, verify)
    requires a != [] && b != [] && a[|a| - 1].signature == b[|b| - 1].signature
    ensures a == b
    decreases |a|
  {
    var m, n := |a| - 1, |b| - 1;
    assert LinkOk(a, m, server, verify) && LinkOk(b, n, server, verify);
    SameLink(a, b, m, n, server, verify);
    PrefixValid(a, server, verify, m);
    PrefixValid(b, server, verify, n);
    hide Binding, ValidChain, LinkOk;
    assert a == a[..m] + [a[m]] && b == b[..n] + [b[n]];
    if m > 0 {
      LastSignatureFixesChain(a[..m], b[..n], server, verify);
    }
  }

  /** Two entries of one signature are the same, and follow the same one. */
  lemma SameLink(a: seq<Entry>, b: seq<Entry>, m: nat, n: nat, server: string, verify: Verifier)
    requires Binding(verify) && m < |a| && n < |b| && a[m].signature == b[n].signature
    requires LinkOk(a, m, server, verify) && LinkOk(b, n, server, verify)
    ensures a[m] == b[n] && SignatureBefore(a, m) == SignatureBefore(b, n) && (m == 0 <==> n == 0)
  {
    hide Payload;
    assert Payload(a[m], SignatureBefore(a, m), server) == Payload(b[n], SignatureBefore(b, n), server);
    hide Binding;
    PayloadInjective(a[m], b[n], SignatureBefore(a, m), SignatureBefore(b, n), server, server);
  }

  lemma PrefixValid(chain: seq<Entry>, server: string, verify: Verifier, n: nat)
    requires ValidChain(chain, server, verify) && n <= |chain|
    ensures ValidChain(chain[..n], server, verify)
  {
    hide Payload;
    forall i: nat | i < n ensures LinkOk(chain[..n], i, server, verify) {
      assert LinkOk(chain, i, server, verify);
      assert SignatureBefore(chain[..n], i) == SignatureBefore(chain, i) && chain[..n][i] == chain[i];
    }
  }
}
