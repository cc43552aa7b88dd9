/** What each team request does, for owners and for everybody else: when it is carried out, and what it leaves. */
module TeamEffects {
  import opened Optional
  import opened TeamRoles

  // ----- Roles -----

  /** An owner's assignment is stored; another member's unless it gives the owner role, is an owner's or gives peer
      access. A new one must not be there yet, a rescoped one must. */
  lemma AssignmentStored(t: Tenant, actor: string, id: string, role: Role, scope: Scope, how: How)
    requires Valid(t)
    ensures var may := (actor, Owner) in t.held || (role != Owner && (id, Owner) !in t.held && !scope.peer);
            Handle(t, actor, WriteAssignment(id, role, Some(scope), how))
            == if may && id in t.members && ((id, role) in t.held <==> how == Rescope)
               then t.(held := t.held[(id, role) := scope]) else t
    ensures Handle(t, actor, WriteAssignment(id, role, None, how)) == t
  {
    EmptyIsNoOwner(t);
  }

  /** A role is taken away by an owner, or by another member if neither the role nor the holder is an owner's; the last
      owner's role stays. */
  lemma RoleTaken(t: Tenant, actor: string, id: string, role: Role)
    requires Valid(t)
    ensures var may := (actor, Owner) in t.held || (role != Owner && (id, Owner) !in t.held);
            var last := role == Owner && forall k | k in t.held && k.1 == Owner :: k.0 == id;
            Handle(t, actor, RemoveRole(id, role)) == if may && !last then t.(held := t.held - {(id, role)}) else t
  {
    EmptyIsNoOwner(t);
  }

  // ----- New members -----

  /** A new member and its one role: anyone may make one that is no owner and has no peer access. */
  lemma MemberMade(t: Tenant, actor: string, newId: string, name: string, role: Role, scope: Scope)
    requires Valid(t)
    ensures var may := (actor, Owner) in t.held || (role != Owner && !scope.peer);
            var fits := newId != "" && newId !in t.members && name != ""
                        && forall x | x in t.members :: t.members[x].email != name;
            var held := t.held[(newId, role) := scope];
            && Handle(t, actor, InviteAgent(newId, name, role, Some(scope)))
            == (if may && fits
                then t.(members := t.members[newId := Member(false, name, None, None)], held := held) else t)
            && Handle(t, actor, CreateServiceAccount(newId, name, role, Some(scope)))
            == (if may && fits
                then t.(members := t.members[newId := Member(true, name, None, None)], held := held) else t)
    ensures Handle(t, actor, InviteAgent(newId, name, role, None)) == t
    ensures Handle(t, actor, CreateServiceAccount(newId, name, role, None)) == t
  {}

  // ----- Secrets of a member -----

  lemma PasswordSet(t: Tenant, actor: string, id: string, password: string)
    requires Valid(t)
    ensures var may := (actor, Owner) in t.held || (id, Owner) !in t.held;
            Handle(t, actor, SetAgentPassword(id, password))
            == if may && id in t.members && 8 <= ByteLength(password) <= 72
               then t.(members := t.members[id := t.members[id].(password := Some(password))]) else t
  {
    hide ByteLength;
    EmptyIsNoOwner(t);
  }

  lemma IdentityLinked(t: Tenant, actor: string, id: string, text: string)
    requires Valid(t)
    ensures var may := (actor, Owner) in t.held || (id, Owner) !in t.held;
            var sub := Trim(text);
            var free := forall x | x in t.members && x != id :: t.members[x].externalSub != Some(sub);
            Handle(t, actor, SetExternalSub(id, text))
            == if may && id in t.members && !t.members[id].service && ByteLength(sub) <= 255 && (sub == "" || free)
               then t.(members := t.members[id := t.members[id].(externalSub := if sub == "" then None else Some(sub))])
               else t
  {
    hide ByteLength, Trim;
    EmptyIsNoOwner(t);
  }

  lemma KeyIssued(t: Tenant, actor: string, id: string, key: string)
    requires Valid(t)
    ensures var may := (actor, Owner) in t.held || (id, Owner) !in t.held;
            Handle(t, actor, CreateServiceKey(id, key))
            == if may && id in t.members && t.members[id].service && key !in t.keys
               then t.(keys := t.keys[key := Key(id, true)]) else t
  {
    EmptyIsNoOwner(t);
  }

  lemma KeyRevoked(t: Tenant, actor: string, key: string)
    ensures Handle(t, actor, RevokeKey(key))
         == if key in t.keys then t.(keys := t.keys[key := Key(t.keys[key].actor, false)]) else t
  {}

  // ----- Who comes within reach -----

  /** Whoever resets, links, keys or invites a member can act as them from then on, and by no other request. */
  lemma ReachGrows(t: Tenant, reach: set<string>, actor: string, id: string, text: string, role: Role, scope: Scope)
    requires Valid(t)
    ensures var may := (actor, Owner) in t.held || (id, Owner) !in t.held;
            && Reach(t, reach, actor, SetAgentPassword(id, text))
            == (if may && id in t.members && 8 <= ByteLength(text) <= 72 then reach + {id} else reach)
            && (may && id in t.members && !t.members[id].service && Trim(text) == ""
                ==> Reach(t, reach, actor, SetExternalSub(id, text)) == reach + {id})
            && Reach(t, reach, actor, CreateServiceKey(id, text))
            == (if may && id in t.members && t.members[id].service && text !in t.keys then reach + {id} else reach)
            && Reach(t, reach, actor, RemoveRole(id, role)) == reach && Reach(t, reach, actor, RevokeKey(text)) == reach
    ensures Handle(t, actor, SetExternalSub(id, text)) != t
            ==> Reach(t, reach, actor, SetExternalSub(id, text)) == reach + {id}
    ensures Handle(t, actor, InviteAgent(id, text, role, Some(scope))) != t
            ==> Reach(t, reach, actor, InviteAgent(id, text, role, Some(scope))) == reach + {id}
  {
    hide ByteLength, Trim;
    EmptyIsNoOwner(t);
    EmptyHasNoBytes();
  }

  lemma EmptyHasNoBytes()
    ensures ByteLength("") == 0
  {}

  // ----- Text -----

  /** By code point: the white space that is trimmed. */
  lemma SpaceCharacters(c: char)
    ensures IsSpace(c) <==>
              || 9 <= c as int <= 13 || 8192 <= c as int <= 8202
              || c as int in {32, 133, 160, 5760, 8232, 8233, 8239, 8287, 12288}
  {}

  /** Trimming takes off the white space around a text, and only that. */
  lemma {:induction false} Trimmed(before: string, s: string, after: string)
    requires (forall i | 0 <= i < |before| :: IsSpace(before[i])) && forall i | 0 <= i < |after| :: IsSpace(after[i])
    requires s != "" && !IsSpace(s[0]) && !IsSpace(s[|s| - 1])
    ensures Trim(before + s + after) == s
    decreases |before| + |after|
  {
    hide IsSpace;
    var e := before + s + after;
    if before != "" {
      assert e[0] == before[0] && e[1..] == before[1..] + s + after;
      Trimmed(before[1..], s, after);
    } else if after != "" {
      assert e[0] == s[0] && e[|e| - 1] == after[|after| - 1];
      assert e[..|e| - 1] == before + s + after[..|after| - 1];
      Trimmed(before, s, after[..|after| - 1]);
    } else {
      assert e == s;
    }
  }

  lemma {:induction false} BlankTrimmed(s: string)
    requires forall i | 0 <= i < |s| :: IsSpace(s[i])
    ensures Trim(s) == ""
    decreases |s|
  {
    hide IsSpace;
    if s != "" {
      BlankTrimmed(s[1..]);
    }
  }

  /** Plain characters take up a byte each; up to 4 are needed for others. */
  lemma {:induction false} BytesOf(s: string)
    ensures |s| <= ByteLength(s) <= 4 * |s|
    ensures (forall i | 0 <= i < |s| :: s[i] as int < 128) <==> ByteLength(s) == |s|
    decreases |s|
  {
    if s != "" {
      BytesOf(s[1..]);
      assert (forall i | 0 <= i < |s| :: s[i] as int < 128)
        <==> s[0] as int < 128 && forall i | 0 <= i < |s[1..]| :: s[1..][i] as int < 128 by {
        if forall i | 0 <= i < |s| :: s[i] as int < 128 {
          assert forall i | 0 <= i < |s[1..]| :: s[1..][i] == s[i + 1];
        }
        if s[0] as int < 128 && forall i | 0 <= i < |s[1..]| :: s[1..][i] as int < 128 {
          forall i | 0 <= i < |s| ensures s[i] as int < 128 {
            assert i > 0 ==> s[1..][i - 1] == s[i];
          }
        }
      }
    }
  }

  lemma CharBytes(c: char, s: string)
    ensures ByteLength([c] + s) == ByteLength(s)
         + (if c as int < 0x80 then 1 else if c as int < 0x800 then 2 else if c as int < 0x1_0000 then 3 else 4)
  {
    assert ([c] + s)[1..] == s;
  }
}
