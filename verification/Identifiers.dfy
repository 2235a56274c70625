/** Identity ids, "user@server", and entity ids, "user@server/entity". */
module Identifiers {
  import opened Options
  import opened Text

  datatype Identity = Identity(user: string, server: string)
  datatype EntityRef = EntityRef(user: string, server: string, entity: string)

  /** The id of a user, or of something they own when entity is not empty. */
  function CanonicalId(server: string, user: string, entity: string := ""): string {
    user + ['@'] + server + (if entity == "" then "" else ['/'] + entity)
  }

  function ParseIdentityId(id: string): (parsed: Option<Identity>) {
    match LastIndex(id, '@')
    case None => None
    case Some(i) =>
      if i == 0 || i == |id| - 1 then None else Some(Identity(id[..i], id[i + 1..]))
  }

  function ParseKeyFingerprint(id: string): (parsed: Option<EntityRef>) {
    match LastIndex(id, '/')
    case None => None
    case Some(i) =>
      if i == |id| - 1 then None
      else match ParseIdentityId(id[..i])
        case None => None
        case Some(who) => Some(EntityRef(who.user, who.server, id[i + 1..]))
  }

  function AppendEntity(id: string, entity: string): string {
    id + ['/'] + entity
  }

  function AuthorOf(id: string): Option<string> {
    match ParseKeyFingerprint(id)
    case None => None
    case Some(ref) => Some(CanonicalId(ref.server, ref.user))
  }

  /** The server an identity id names, if it is one. */
  function ServerOf(id: string): Option<string> {
    match ParseIdentityId(id)
    case None => None
    case Some(who) => Some(who.server)
  }

  /** Parsing gives back a printed identity exactly when both parts are there
      and the server has no separator of its own. */
  lemma IdentityRoundTrip(server: string, user: string)
    ensures ParseIdentityId(CanonicalId(server, user)) == Some(Identity(user, server))
            <==> user != "" && server != "" && '@' !in server
  {
    var id := CanonicalId(server, user);
    assert id == user + ['@'] + server;
    if '@' !in server {
      LastIndexOfConcat(user, '@', server);
      assert id[..|user|] == user && id[|user| + 1..] == server;
    }
  }

  /** Whatever parses is the print of its parts, and those parts round-trip. */
  lemma ParsedIdentityPrints(id: string)
    requires ParseIdentityId(id).Some?
    ensures var who := ParseIdentityId(id).value;
            CanonicalId(who.server, who.user) == id && who.user != "" && who.server != "" && '@' !in who.server
  {
    var i := LastIndex(id, '@').value;
    assert id == id[..i] + ['@'] + id[i + 1..];
  }

  /** An id is of a server exactly when it ends in that server's name after a
      separator, with a user before it. */
  lemma ServerOfExactlyWhen(id: string, server: string)
    ensures ServerOf(id) == Some(server)
            <==> (server != "" && '@' !in server && |id| > |server| + 1 && id[|id| - |server| - 1..] == "@" + server)
  {
    if ServerOf(id) == Some(server) {
      ParsedIdentityPrints(id);
      var user := ParseIdentityId(id).value.user;
      assert id == user + ("@" + server);
    }
    if server != "" && '@' !in server && |id| > |server| + 1 && id[|id| - |server| - 1..] == "@" + server {
      var user := id[..|id| - |server| - 1];
      assert id == user + ("@" + server);
      assert id == CanonicalId(server, user);
      IdentityRoundTrip(server, user);
    }
  }

  /** The last slash of an id with a slash-free entity is the one appended. */
  lemma SplitEntity(id: string, entity: string)
    requires '/' !in entity
    ensures LastIndex(id + ['/'] + entity, '/') == Some(|id|)
    ensures (id + ['/'] + entity)[..|id|] == id && (id + ['/'] + entity)[|id| + 1..] == entity
  {
    LastIndexOfConcat(id, '/', entity);
  }

  lemma EntityRoundTrip(server: string, user: string, entity: string)
    ensures ParseKeyFingerprint(CanonicalId(server, user, entity)) == Some(EntityRef(user, server, entity))
            <==> user != "" && server != "" && '@' !in server && entity != "" && '/' !in entity
  {
    var id, full := CanonicalId(server, user), CanonicalId(server, user, entity);
    if entity != "" && '/' !in entity {
      assert full == id + ['/'] + entity;
      SplitEntity(id, entity);
      IdentityRoundTrip(server, user);
    } else if ParseKeyFingerprint(full).Some? {
      ParsedEntityPrints(full);
    }
  }

  lemma ParsedEntityPrints(id: string)
    requires ParseKeyFingerprint(id).Some?
    ensures var ref := ParseKeyFingerprint(id).value;
            CanonicalId(ref.server, ref.user, ref.entity) == id && ref.entity != "" && '/' !in ref.entity
  {
    var i := LastIndex(id, '/').value;
    ParsedIdentityPrints(id[..i]);
    assert id == id[..i] + ['/'] + id[i + 1..];
  }

  /** Taking the author of an appended entity undoes appending it, exactly when
      the id was an identity and the entity one slash-free name. */
  lemma AuthorOfAppended(id: string, entity: string)
    ensures AuthorOf(AppendEntity(id, entity)) == Some(id)
            <==> ParseIdentityId(id).Some? && entity != "" && '/' !in entity
  {
    var full := AppendEntity(id, entity);
    if '/' !in entity {
      SplitEntity(id, entity);
      if ParseIdentityId(id).Some? {
        ParsedIdentityPrints(id);
      }
    } else if AuthorOf(full) == Some(id) {
      var i := LastIndex(full, '/').value;
      var j := LastIndex(entity, '/').value;
      assert full[|id| + 1 + j] == entity[j] == '/';
      assert i > |id|;
      ParsedIdentityPrints(full[..i]);
    }
  }
}
