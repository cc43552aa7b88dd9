/** Team administration: who may write which member's record, and what no run of non-owners can reach. */
module TeamRoles {
  import opened Optional

  datatype Role = Owner | Admin | Agent | Translator | Requester

  /** A role's scope; the rest of it no guard reads. */
  datatype Scope = Scope(peer: bool, rest: string)

  /** A member's record apart from their roles. */
  datatype Member = Member(service: bool, email: string, password: Option<string>, externalSub: Option<string>)

  /** A service key acts as one member until it is revoked. */
  datatype Key = Key(actor: string, active: bool)

  /** One tenant: members, the role assignments, and the service keys. */
  datatype Tenant = Tenant(members: map<string, Member>, held: map<(string, Role), Scope>, keys: map<string, Key>)

  predicate IsOwner(t: Tenant, id: string) {
    (id, Owner) in t.held
  }

  predicate Linked(t: Tenant, sub: string, id: string) {
    id in t.members && t.members[id].externalSub == Some(sub)
  }

  // ----- The guards -----

  /** `guardOwnerMutation`: an empty target is a create; no role is a change to the record itself. */
  predicate GuardOwner(t: Tenant, actor: string, target: string, role: Option<Role>) {
    IsOwner(t, actor) || (role != Some(Owner) && (target == "" || !IsOwner(t, target)))
  }

  /** `guardScopeGrant`. */
  predicate GuardScope(t: Tenant, actor: string, scope: Scope) {
    !scope.peer || IsOwner(t, actor)
  }

  // ----- The service's writes -----

  /** How an assignment treats one that is already there. */
  datatype How = Add | Rescope

  function PutAssignment(t: Tenant, id: string, role: Role, scope: Scope, how: How): Tenant {
    if id !in t.members || (how == Add && (id, role) in t.held) || (how == Rescope && (id, role) !in t.held) then t
    else t.(held := t.held[(id, role) := scope])
  }

  /** The tenant's last owner stays. */
  function DeleteAssignment(t: Tenant, id: string, role: Role): Tenant {
    if role == Owner && !(exists k | k in t.held :: k.1 == Owner && k.0 != id) then t
    else t.(held := t.held - {(id, role)})
  }

  /** White space as the service's language has it. */
  predicate IsSpace(c: char) {
    || '\t' <= c <= '\r' || c == ' ' || c == '\U{85}' || c == '\U{a0}' || c == '\U{1680}'
    || '\U{2000}' <= c <= '\U{200a}' || c == '\U{2028}'
    || c == '\U{2029}' || c == '\U{202f}' || c == '\U{205f}' || c == '\U{3000}'
  }

  function Trim(s: string): (r: string)
    ensures r != "" ==> !IsSpace(r[0]) && !IsSpace(r[|r| - 1])
    ensures |r| <= |s|
    decreases |s|
  {
    if s == "" then s
    else if IsSpace(s[0]) then Trim(s[1..])
    else if IsSpace(s[|s| - 1]) then Trim(s[..|s| - 1])
    else s
  }

  /** How many bytes the text takes up. */
  function ByteLength(s: string): nat {
    if s == "" then 0 else
    (if s[0] < '\U{80}' then 1 else if s[0] < '\U{800}' then 2 else if s[0] < '\U{10000}' then 3 else 4)
      + ByteLength(s[1..])
  }

  /** A password has eight bytes or more, and no more than its hash takes in. */
  predicate PasswordTaken(t: Tenant, id: string, password: string) {
    8 <= ByteLength(password) <= 72 && id in t.members
  }

  function SetPassword(t: Tenant, id: string, password: string): Tenant {
    if !PasswordTaken(t, id, password) then t
    else t.(members := t.members[id := t.members[id].(password := Some(password))])
  }

  /** An identity is one member's at most, and no service account's. */
  predicate SubTaken(t: Tenant, id: string, sub: string) {
    && ByteLength(sub) <= 255 && id in t.members && !t.members[id].service
    && (sub == "" || !(exists x | x in t.members :: x != id && Linked(t, sub, x)))
  }

  /** Linking an identity; a blank one unlinks. */
  function SetSub(t: Tenant, id: string, text: string): Tenant {
    var sub := Trim(text);
    if !SubTaken(t, id, sub) then t
    else t.(members := t.members[id := t.members[id].(externalSub := if sub == "" then None else Some(sub))])
  }

  predicate MemberTaken(t: Tenant, id: string, m: Member) {
    id != "" && id !in t.members && m.email != "" && !(exists x | x in t.members :: t.members[x].email == m.email)
  }

  /** A new member under an id the store made up, with one role. */
  function Create(t: Tenant, id: string, m: Member, role: Role, scope: Scope): Tenant {
    if !MemberTaken(t, id, m) then t
    else t.(members := t.members[id := m], held := t.held[(id, role) := scope])
  }

  predicate KeyTaken(t: Tenant, key: string, id: string) {
    id in t.members && t.members[id].service && key !in t.keys
  }

  function CreateKey(t: Tenant, key: string, id: string): Tenant {
    if !KeyTaken(t, key, id) then t else t.(keys := t.keys[key := Key(id, true)])
  }

  function DropKey(t: Tenant, key: string): Tenant {
    if key !in t.keys then t else t.(keys := t.keys[key := t.keys[key].(active := false)])
  }

  // ----- Requests -----

  /** What a signed-in member asks for. A scope is None when its document does not validate. */
  datatype Request =
    | WriteAssignment(id: string, role: Role, scope: Option<Scope>, how: How)
    | RemoveRole(id: string, role: Role)
    | InviteAgent(newId: string, email: string, role: Role, scope: Option<Scope>)
    | SetAgentPassword(id: string, password: string)
    | SetExternalSub(id: string, sub: string)
    | CreateServiceAccount(newId: string, name: string, role: Role, scope: Option<Scope>)
    | CreateServiceKey(id: string, key: string)
    | RevokeKey(key: string)

  function Handle(t: Tenant, actor: string, q: Request): Tenant {
    match q
    case WriteAssignment(id, role, scope, how) =>
      if scope.None? || !GuardOwner(t, actor, id, Some(role)) || !GuardScope(t, actor, scope.value) then t
      else PutAssignment(t, id, role, scope.value, how)
    case RemoveRole(id, role) =>
      if !GuardOwner(t, actor, id, Some(role)) then t else DeleteAssignment(t, id, role)
    case InviteAgent(newId, email, role, scope) =>
      if scope.None? || !GuardOwner(t, actor, "", Some(role)) || !GuardScope(t, actor, scope.value) then t
      else Create(t, newId, Member(false, email, None, None), role, scope.value)
    case SetAgentPassword(id, password) =>
      if !GuardOwner(t, actor, id, None) then t else SetPassword(t, id, password)
    case SetExternalSub(id, sub) =>
      if !GuardOwner(t, actor, id, None) then t else SetSub(t, id, sub)
    case CreateServiceAccount(newId, name, role, scope) =>
      if scope.None? || !GuardOwner(t, actor, "", Some(role)) || !GuardScope(t, actor, scope.value) then t
      else Create(t, newId, Member(true, name, None, None), role, scope.value)
    case CreateServiceKey(id, key) =>
      if !GuardOwner(t, actor, id, None) then t else CreateKey(t, key, id)
    case RevokeKey(key) => DropKey(t, key)
  }

  /** The member a request, if it is carried out, lets its author sign in as: one reset, linked, keyed or invited. It
      may change nothing, such as a reset to the password already stored. */
  function Reaches(t: Tenant, actor: string, q: Request): Option<string> {
    match q
    case InviteAgent(newId, email, role, scope) =>
      if scope.Some? && GuardOwner(t, actor, "", Some(role)) && GuardScope(t, actor, scope.value)
         && MemberTaken(t, newId, Member(false, email, None, None))
      then Some(newId) else None
    case SetAgentPassword(id, password) =>
      if GuardOwner(t, actor, id, None) && PasswordTaken(t, id, password) then Some(id) else None
    case SetExternalSub(id, sub) =>
      if GuardOwner(t, actor, id, None) && SubTaken(t, id, Trim(sub)) then Some(id) else None
    case CreateServiceKey(id, key) =>
      if GuardOwner(t, actor, id, None) && KeyTaken(t, key, id) then Some(id) else None
    case _ => None
  }

  /** Who is within reach after a request. */
  function Reach(t: Tenant, reach: set<string>, actor: string, q: Request): set<string> {
    match Reaches(t, actor, q) case None => reach case Some(id) => reach + {id}
  }

  datatype Asked = Asked(actor: string, request: Request)

  /** Every request is made as someone within reach. */
  predicate Within(t: Tenant, reach: set<string>, run: seq<Asked>)
    decreases |run|
  {
    run == [] ||
    (run[0].actor in reach
     && Within(Handle(t, run[0].actor, run[0].request), Reach(t, reach, run[0].actor, run[0].request), run[1..]))
  }

  function After(t: Tenant, run: seq<Asked>): Tenant
    decreases |run|
  {
    if run == [] then t else After(Handle(t, run[0].actor, run[0].request), run[1..])
  }

  function ReachAfter(t: Tenant, reach: set<string>, run: seq<Asked>): set<string>
    decreases |run|
  {
    if run == [] then reach
    else ReachAfter(Handle(t, run[0].actor, run[0].request), Reach(t, reach, run[0].actor, run[0].request), run[1..])
  }

  // ----- What non-owners cannot change -----

  /** Roles are held by members, and nobody's id is empty. */
  ghost predicate Valid(t: Tenant) {
    && "" !in t.members
    && forall k | k in t.held :: k.0 in t.members
  }

  /** Nothing of an owner's has changed but keys that were revoked, nobody became an owner, nobody was given peer
      access, and no key acts as another member than before. */
  ghost predicate Untouched(t: Tenant, u: Tenant) {
    && (forall id :: IsOwner(t, id) <==> IsOwner(u, id))
    && (forall id | IsOwner(t, id) && id in t.members :: id in u.members && u.members[id] == t.members[id])
    && (forall k | k in t.held && IsOwner(t, k.0) :: k in u.held && u.held[k] == t.held[k])
    && (forall k | k in u.held && IsOwner(t, k.0) :: k in t.held)
    && (forall key | key in u.keys && IsOwner(t, u.keys[key].actor) ::
          key in t.keys && t.keys[key].actor == u.keys[key].actor && (u.keys[key].active ==> t.keys[key].active))
    && (forall key | key in t.keys :: key in u.keys && u.keys[key].actor == t.keys[key].actor)
    && (forall k | k in u.held && u.held[k].peer :: k in t.held && t.held[k].peer)
  }

  ghost predicate NoOwner(t: Tenant, reach: set<string>) {
    forall id | id in reach :: !IsOwner(t, id)
  }

  lemma PutUntouched(t: Tenant, id: string, role: Role, scope: Scope, how: How)
    requires Valid(t) && !IsOwner(t, id) && role != Owner && !scope.peer
    ensures Valid(PutAssignment(t, id, role, scope, how)) && Untouched(t, PutAssignment(t, id, role, scope, how))
  {}

  lemma DeleteUntouched(t: Tenant, id: string, role: Role)
    requires Valid(t) && !IsOwner(t, id)
    ensures Valid(DeleteAssignment(t, id, role)) && Untouched(t, DeleteAssignment(t, id, role))
  {}

  lemma RecordUntouched(t: Tenant, id: string, m: Member)
    requires Valid(t) && !IsOwner(t, id) && id in t.members
    ensures Valid(t.(members := t.members[id := m])) && Untouched(t, t.(members := t.members[id := m]))
  {}

  lemma CreateUntouched(t: Tenant, id: string, m: Member, role: Role, scope: Scope)
    requires Valid(t) && role != Owner && !scope.peer
    ensures Valid(Create(t, id, m, role, scope)) && Untouched(t, Create(t, id, m, role, scope))
  {}

  lemma KeyUntouched(t: Tenant, key: string, id: string)
    requires Valid(t) && !IsOwner(t, id)
    ensures Valid(CreateKey(t, key, id)) && Untouched(t, CreateKey(t, key, id))
  {}

  lemma DropUntouched(t: Tenant, key: string)
    requires Valid(t)
    ensures Valid(DropKey(t, key)) && Untouched(t, DropKey(t, key))
  {}

  lemma SecretsUntouched(t: Tenant, id: string, text: string)
    requires Valid(t) && (id == "" || !IsOwner(t, id))
    ensures Valid(SetPassword(t, id, text)) && Untouched(t, SetPassword(t, id, text))
    ensures Valid(SetSub(t, id, text)) && Untouched(t, SetSub(t, id, text))
  {
    hide Untouched;
    UntouchedSelf(t);
    if id in t.members {
      RecordUntouched(t, id, t.members[id].(password := Some(text)));
      RecordUntouched(t, id, t.members[id].(externalSub := None));
      RecordUntouched(t, id, t.members[id].(externalSub := Some(Trim(text))));
    }
  }

  /** One request of a non-owner. */
  lemma HandleUntouched(t: Tenant, actor: string, q: Request)
    requires Valid(t) && !IsOwner(t, actor)
    ensures Valid(Handle(t, actor, q)) && Untouched(t, Handle(t, actor, q))
  {
    hide Untouched, PutAssignment, DeleteAssignment, Create, SetPassword, SetSub, CreateKey, DropKey;
    UntouchedSelf(t);
    if Handle(t, actor, q) != t {
      match q
      case WriteAssignment(id, role, scope, how) =>
        EmptyIsNoOwner(t);
        PutUntouched(t, id, role, scope.value, how);
      case RemoveRole(id, role) =>
        EmptyIsNoOwner(t);
        DeleteUntouched(t, id, role);
      case InviteAgent(newId, email, role, scope) =>
        CreateUntouched(t, newId, Member(false, email, None, None), role, scope.value);
      case SetAgentPassword(id, password) =>
        EmptyIsNoOwner(t);
        SecretsUntouched(t, id, password);
      case SetExternalSub(id, sub) =>
        EmptyIsNoOwner(t);
        SecretsUntouched(t, id, sub);
      case CreateServiceAccount(newId, name, role, scope) =>
        CreateUntouched(t, newId, Member(true, name, None, None), role, scope.value);
      case CreateServiceKey(id, key) =>
        EmptyIsNoOwner(t);
        KeyUntouched(t, key, id);
      case RevokeKey(key) =>
        DropUntouched(t, key);
    }
  }

  lemma ReachesNoOwner(t: Tenant, actor: string, q: Request)
    requires Valid(t) && !IsOwner(t, actor)
    ensures Reaches(t, actor, q).Some? ==> !IsOwner(t, Reaches(t, actor, q).value)
  {
    hide ByteLength, Trim;
    EmptyIsNoOwner(t);
    if q.InviteAgent? && q.newId !in t.members {
      StrangerIsNoOwner(t, q.newId);
    }
  }

  lemma StrangerIsNoOwner(t: Tenant, id: string)
    requires Valid(t) && id !in t.members
    ensures !IsOwner(t, id)
  {
    assert IsOwner(t, id) ==> (id, Owner).0 in t.members;
  }

  lemma EmptyIsNoOwner(t: Tenant)
    requires Valid(t)
    ensures !IsOwner(t, "")
  {
    assert IsOwner(t, "") ==> ("", Owner).0 in t.members;
  }

  lemma UntouchedTransitive(t: Tenant, u: Tenant, v: Tenant)
    requires Untouched(t, u) && Untouched(u, v)
    ensures Untouched(t, v)
  {}

  /** Role runs: whatever non-owners do, also as members they have reset, linked, keyed or invited, the owners and
      their records stay as they were, no peer access is added, and no owner comes within reach. */
  lemma {:induction false} RunUntouched(t: Tenant, reach: set<string>, run: seq<Asked>)
    requires Valid(t) && NoOwner(t, reach) && Within(t, reach, run)
    ensures Untouched(t, After(t, run)) && NoOwner(After(t, run), ReachAfter(t, reach, run))
    decreases |run|
  {
    hide Untouched, Handle, Reaches;
    if run == [] {
      UntouchedSelf(t);
    } else {
      var actor, q := run[0].actor, run[0].request;
      var u := Handle(t, actor, q);
      HandleUntouched(t, actor, q);
      ReachesNoOwner(t, actor, q);
      SameOwners(t, u);
      RunUntouched(u, Reach(t, reach, actor, q), run[1..]);
      UntouchedTransitive(t, u, After(u, run[1..]));
    }
  }

  // ----- What becomes of owners' keys -----

  ghost predicate OwnersKey(t: Tenant, key: string) {
    key in t.keys && t.keys[key].active && IsOwner(t, t.keys[key].actor)
  }

  ghost predicate RevokesOwners(t: Tenant, run: seq<Asked>) {
    exists i | 0 <= i < |run| :: run[i].request.RevokeKey? && OwnersKey(t, run[i].request.key)
  }

  lemma HandleKeys(t: Tenant, actor: string, q: Request, key: string)
    requires Valid(t) && !IsOwner(t, actor)
    ensures OwnersKey(Handle(t, actor, q), key) <==> OwnersKey(t, key) && q != RevokeKey(key)
  {
    hide GuardOwner, GuardScope;
    HandleUntouched(t, actor, q);
  }

  /** Revoking has no guard: over any run of non-owners, also as members they have reset, linked, keyed or invited, the
      keys that act as owners all stay exactly when no request revokes one of them. */
  lemma OwnersKeysStayIff(t: Tenant, reach: set<string>, run: seq<Asked>)
    requires Valid(t) && NoOwner(t, reach) && Within(t, reach, run)
    ensures (forall key :: OwnersKey(After(t, run), key) <==> OwnersKey(t, key)) <==> !RevokesOwners(t, run)
    decreases |run|
  {
    hide Handle, Valid, Reaches;
    forall key ensures OwnersKey(After(t, run), key) <==> OwnersKey(t, key) && !Revoked(run, key) {
      OwnersKeyStaysIff(t, reach, run, key);
    }
  }

  ghost predicate Revoked(run: seq<Asked>, key: string) {
    exists i | 0 <= i < |run| :: run[i].request == RevokeKey(key)
  }

  lemma {:induction false} OwnersKeyStaysIff(t: Tenant, reach: set<string>, run: seq<Asked>, key: string)
    requires Valid(t) && NoOwner(t, reach) && Within(t, reach, run)
    ensures OwnersKey(After(t, run), key) <==> OwnersKey(t, key) && !Revoked(run, key)
    decreases |run|
  {
    hide Untouched, Handle, OwnersKey, Valid, Reaches;
    if run != [] {
      var actor, q := run[0].actor, run[0].request;
      var u := Handle(t, actor, q);
      HandleUntouched(t, actor, q);
      ReachesNoOwner(t, actor, q);
      SameOwners(t, u);
      HandleKeys(t, actor, q, key);
      OwnersKeyStaysIff(u, Reach(t, reach, actor, q), run[1..], key);
      RevokedLater(run, key);
    }
  }

  lemma RevokedLater(run: seq<Asked>, key: string)
    requires run != []
    ensures Revoked(run, key) <==> run[0].request == RevokeKey(key) || Revoked(run[1..], key)
  {
    if i :| 0 < i < |run| && run[i].request == RevokeKey(key) {
      assert run[1..][i - 1].request == RevokeKey(key);
    }
    if i :| 0 <= i < |run[1..]| && run[1..][i].request == RevokeKey(key) {
      assert run[i + 1].request == RevokeKey(key);
    }
  }

  /** An admin switches off a key that acts as an owner. */
  lemma AdminRevokesOwnersKey()
    ensures var t := Tenant(
              map["o" := Member(true, "o", None, None), "a" := Member(false, "a", None, None)],
              map[("o", Owner) := Scope(false, ""), ("a", Admin) := Scope(false, "")],
              map["k" := Key("o", true)]);
            && Valid(t) && !IsOwner(t, "a") && OwnersKey(t, "k") && !OwnersKey(Handle(t, "a", RevokeKey("k")), "k")
  {}

  lemma UntouchedSelf(t: Tenant)
    ensures Untouched(t, t)
  {}

  lemma SameOwners(t: Tenant, u: Tenant)
    requires Untouched(t, u)
    ensures forall id :: IsOwner(t, id) <==> IsOwner(u, id)
  {}

  // ----- What nobody can change -----

  ghost predicate HasOwner(t: Tenant) {
    exists id :: IsOwner(t, id)
  }

  /** A tenant with an owner keeps one, whoever asks for what. */
  lemma {:induction false} OwnerStays(t: Tenant, run: seq<Asked>)
    requires HasOwner(t)
    ensures HasOwner(After(t, run))
    decreases |run|
  {
    if run != [] {
      var id :| IsOwner(t, id);
      var u := Handle(t, run[0].actor, run[0].request);
      if !IsOwner(u, id) {
        var k :| k in t.held && k.1 == Owner && k.0 != id;
        assert IsOwner(u, k.0);
      }
      OwnerStays(u, run[1..]);
    }
  }

  /** An identity never signs in as two members. */
  ghost predicate OneEach(t: Tenant) {
    forall x, y, sub | Linked(t, sub, x) && Linked(t, sub, y) :: x == y
  }

  lemma {:induction false} LinksStayUnique(t: Tenant, run: seq<Asked>)
    requires OneEach(t)
    ensures OneEach(After(t, run))
    decreases |run|
  {
    if run != [] {
      HandleLinks(t, run[0].actor, run[0].request);
      LinksStayUnique(Handle(t, run[0].actor, run[0].request), run[1..]);
    }
  }

  lemma HandleLinks(t: Tenant, actor: string, q: Request)
    requires OneEach(t)
    ensures OneEach(Handle(t, actor, q))
  {
    var u := Handle(t, actor, q);
    forall x, y, sub | Linked(u, sub, x) && Linked(u, sub, y) ensures x == y {
      assert Linked(t, sub, x) || (q.SetExternalSub? && x == q.id && sub == Trim(q.sub));
      assert Linked(t, sub, y) || (q.SetExternalSub? && y == q.id && sub == Trim(q.sub));
    }
  }

  // ----- The handlers -----

  class Service {
    var members: map<string, Member>
    var held: map<(string, Role), Scope>
    var keys: map<string, Key>

    ghost function View(): Tenant
      reads this
    {
      Tenant(members, held, keys)
    }

    method GuardOwnerMutation(actor: string, target: string, role: Option<Role>) returns (ok: bool)
      ensures ok == GuardOwner(View(), actor, target, role)
    {
      if (actor, Owner) in held {
        return true;
      }
      if role == Some(Owner) {
        return false;
      }
      if target == "" {
        return true;
      }
      return (target, Owner) !in held;
    }

    method WriteAssignmentNow(actor: string, id: string, role: Role, scope: Option<Scope>, how: How)
      modifies `held
      ensures View() == Handle(old(View()), actor, WriteAssignment(id, role, scope, how))
    {
      if scope.None? {
        return;
      }
      var ok := GuardOwnerMutation(actor, id, Some(role));
      if !ok || (scope.value.peer && (actor, Owner) !in held) || id !in members {
        return;
      }
      if (how == Add) != ((id, role) in held) {
        held := held[(id, role) := scope.value];
      }
    }

    method RemoveRoleNow(actor: string, id: string, role: Role)
      modifies `held
      ensures View() == Handle(old(View()), actor, RemoveRole(id, role))
    {
      var ok := GuardOwnerMutation(actor, id, Some(role));
      if !ok {
        return;
      }
      if role == Owner && !(exists k | k in held :: k.1 == Owner && k.0 != id) {
        return;
      }
      held := held - {(id, role)};
    }

    method SetAgentPasswordNow(actor: string, id: string, password: string)
      modifies `members
      ensures View() == Handle(old(View()), actor, SetAgentPassword(id, password))
    {
      var ok := GuardOwnerMutation(actor, id, None);
      if ok && 8 <= ByteLength(password) <= 72 && id in members {
        members := members[id := members[id].(password := Some(password))];
      }
    }

    method SetExternalSubNow(actor: string, id: string, text: string)
      modifies `members
      ensures View() == Handle(old(View()), actor, SetExternalSub(id, text))
    {
      hide Trim, ByteLength;
      var ok := GuardOwnerMutation(actor, id, None);
      var sub := Trim(text);
      if !ok || ByteLength(sub) > 255 || id !in members || members[id].service {
        return;
      }
      if sub == "" {
        members := members[id := members[id].(externalSub := None)];
      } else if !(exists x | x in members :: x != id && Linked(Tenant(members, held, keys), sub, x)) {
        members := members[id := members[id].(externalSub := Some(sub))];
      }
    }

    /** `inviteAgent` and, for a service account, `createServiceAccount`. */
    method CreateMember(actor: string, newId: string, service: bool, name: string, role: Role, scope: Option<Scope>)
      modifies `members, `held
      ensures View() == Handle(old(View()), actor,
                if service then CreateServiceAccount(newId, name, role, scope)
                else InviteAgent(newId, name, role, scope))
    {
      hide GuardOwner;
      if scope.None? {
        return;
      }
      var ok := GuardOwnerMutation(actor, "", Some(role));
      if !ok || (scope.value.peer && (actor, Owner) !in held) {
        return;
      }
      if newId == "" || newId in members || name == "" || exists x | x in members :: members[x].email == name {
        return;
      }
      members := members[newId := Member(service, name, None, None)];
      held := held[(newId, role) := scope.value];
    }

    method CreateServiceKeyNow(actor: string, id: string, key: string)
      modifies `keys
      ensures View() == Handle(old(View()), actor, CreateServiceKey(id, key))
    {
      var ok := GuardOwnerMutation(actor, id, None);
      if ok && id in members && members[id].service && key !in keys {
        keys := keys[key := Key(id, true)];
      }
    }

    method RevokeAPIKey(actor: string, key: string)
      modifies `keys
      ensures View() == Handle(old(View()), actor, RevokeKey(key))
    {
      if key in keys {
        keys := keys[key := keys[key].(active := false)];
      }
    }
  }
}
