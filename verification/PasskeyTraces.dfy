/** Which request of a run granted an approval, what it showed, and where the key it was checked with comes from. */
module PasskeyTraces {
  import opened Optional
  import opened Passkeys
  import opened PasskeyTheorems

  // ----- What an accepted ceremony has shown -----

  /** The checks both ceremonies share: the right kind, an outstanding challenge in time, origin, party, and a present
      and verified person. */
  ghost predicate Shown<K>(s: State<K>, kind: string, purpose: string, c: Party, client: ClientData, auth: AuthData,
    now: int)
  {
    && client.Client? && client.kind == kind && client.origin == c.origin
    && purpose in s.challenges && client.challenge == s.challenges[purpose].value
    && now <= s.challenges[purpose].expires
    && auth.AuthData? && auth.rpId == c.rpId && auth.present && auth.verified
  }

  /** The credential an assertion names. */
  function Named<K, S>(s: State<K>, sub: string, body: Body<K, S>): Option<Passkey<K>> {
    if body.id.None? then None else
    match Find(Held(s, sub), body.id.value) case None => None case Some(i) => Some(Held(s, sub)[i])
  }

  /** An assertion of this person: it answers an outstanding challenge in time, its signature verifies under the key of
      the credential it names, and that credential's counter moves on. */
  ghost predicate Asserts<K, S>(cfg: Config<K, S>, s: State<K>, sub: string, purpose: string, c: Party,
    body: Body<K, S>, now: int)
  {
    && Shown(s, "webauthn.get", purpose, c, body.client, body.auth, now)
    && Named(s, sub, body).Some?
    && var p := Named(s, sub, body).value;
       cfg.verify(p.key, body.client, body.auth, body.signature) == Verified
       && (body.auth.counter > p.counter || body.auth.counter == p.counter == 0)
  }

  lemma CheckAcceptsIff<K, S>(cfg: Config<K, S>, s: State<K>, sub: string, purpose: string, c: Party, body: Body<K, S>,
    now: int)
    ensures var (t, v) := Check(cfg, s, sub, purpose, c, body, now);
            && (v == Accepted <==> Asserts(cfg, s, sub, purpose, c, body, now))
            && (forall e | e in t.log && e !in s.log :: e.Checked?)
  {
    hide Find, Held;
  }

  /** A stored key that the algorithm cannot be used with ends the process, however good the ceremony. */
  lemma WrongKeyEndsProcess<K, S>(cfg: Config<K, S>, s: State<K>, sub: string, purpose: string, c: Party,
    body: Body<K, S>, now: int)
    requires Shown(s, "webauthn.get", purpose, c, body.client, body.auth, now) && Named(s, sub, body).Some?
    requires cfg.verify(Named(s, sub, body).value.key, body.client, body.auth, body.signature) == Throws
    ensures Check(cfg, s, sub, purpose, c, body, now) == (Take(s, purpose).(alive := false), Crashed)
  {
    hide Find, Held;
  }

  /** The credential that a check has moved on keeps its name and key, and so do all others. */
  lemma CheckKeepsKeys<K, S>(cfg: Config<K, S>, s: State<K>, sub: string, purpose: string, c: Party, body: Body<K, S>,
    now: int, x: string)
    ensures var t := Check(cfg, s, sub, purpose, c, body, now).0;
            && |Held(t, x)| == |Held(s, x)|
            && forall i | 0 <= i < |Held(s, x)| ::
                 Held(t, x)[i].id == Held(s, x)[i].id && Held(t, x)[i].key == Held(s, x)[i].key
  {
    hide CeremonyChecks, Find, CounterMoves;
  }

  /** A credential is added exactly when its ceremony holds and it is an ES256 key that parses. */
  ghost predicate Enrols<K, S>(s: State<K>, sub: string, c: Party, body: Body<K, S>, now: int) {
    && Shown(s, "webauthn.create", RegPurpose(sub), c, body.client, body.auth, now)
    && body.es256 && body.id.Some? && body.key.Some?
  }

  lemma RegisterAcceptsIff<K, S>(s: State<K>, sub: string, c: Party, body: Body<K, S>, now: int, x: string)
    ensures var t := Register(s, sub, c, body, now).0;
            && Held(t, x) == Held(s, x) + (if x == sub && Enrols(s, sub, c, body, now)
                                           then [Passkey(body.id.value, body.key.value, body.auth.counter)] else [])
            && (forall e | e in t.log && e !in s.log :: e.Registered?)
  {
    hide RegPurpose;
  }

  // ----- The request that granted an approval -----

  /** The request, made in this state, grants this approval: by a person without a passkey, or with an assertion. */
  ghost predicate Grants<K, S>(cfg: Config<K, S>, s: State<K>, q: Request<K, S>, sub: string, conv: string,
    until: int)
  {
    && s.alive && q.StepUp? && q.user in cfg.people && cfg.people[q.user] == sub && q.conv == conv
    && until == q.later + cfg.ttl
    && (Held(s, sub) != [] ==> Asserts(cfg, s, sub, AuthPurpose(sub, conv), q.c, q.body, q.now))
  }

  lemma HandleApproves<K, S>(cfg: Config<K, S>, s: State<K>, q: Request<K, S>, sub: string, conv: string, until: int,
    pk: bool)
    requires Approved(sub, conv, until, pk) in Handle(cfg, s, q).log && Approved(sub, conv, until, pk) !in s.log
    ensures Grants(cfg, s, q, sub, conv, until)
  {
    hide Asserts, Check, Register, AuthPurpose, Held, Enrols;
    var who := cfg.people[q.user];
    match q
    case RegisterOptions(_, _, _) =>
    case AuthOptions(_, _, _, _) =>
    case DoRegister(_, c, body, now) => RegisterAcceptsIff(s, who, c, body, now, who);
    case StepUp(_, conv', c, body, now, _) => CheckAcceptsIff(cfg, s, who, AuthPurpose(who, conv'), c, body, now);
  }

  /** The state in which request i of a run is made. */
  function At<K, S>(cfg: Config<K, S>, qs: seq<Request<K, S>>, i: nat): State<K>
    requires i <= |qs|
  {
    Run(cfg, Initial(), qs[..i])
  }

  lemma {:induction false} RunSnoc<K, S>(cfg: Config<K, S>, s: State<K>, qs: seq<Request<K, S>>, q: Request<K, S>)
    ensures Run(cfg, s, qs + [q]) == Handle(cfg, Run(cfg, s, qs), q)
    decreases |qs|
  {
    hide Handle;
    if qs == [] {
      assert ([] + [q])[1..] == [];
    } else {
      assert (qs + [q])[1..] == qs[1..] + [q];
      RunSnoc(cfg, Handle(cfg, s, qs[0]), qs[1..], q);
    }
  }

  lemma AtNext<K, S>(cfg: Config<K, S>, qs: seq<Request<K, S>>, i: nat)
    requires i < |qs|
    ensures At(cfg, qs, i + 1) == Handle(cfg, At(cfg, qs, i), qs[i])
  {
    hide Handle, Run;
    assert qs[..i + 1] == qs[..i] + [qs[i]];
    RunSnoc(cfg, Initial(), qs[..i], qs[i]);
  }

  lemma AtStart<K, S>(cfg: Config<K, S>, qs: seq<Request<K, S>>)
    ensures At(cfg, qs, 0) == Initial()
  {}

  lemma {:induction false} ApprovedByRequest<K, S>(cfg: Config<K, S>, qs: seq<Request<K, S>>, n: nat, sub: string,
    conv: string, until: int, pk: bool) returns (i: nat)
    requires n <= |qs| && Approved(sub, conv, until, pk) in At(cfg, qs, n).log
    ensures i < n && Grants(cfg, At(cfg, qs, i), qs[i], sub, conv, until)
    decreases n
  {
    hide Handle, Grants, At;
    if n == 0 {
      AtStart(cfg, qs);
    } else if Approved(sub, conv, until, pk) in At(cfg, qs, n - 1).log {
      i := ApprovedByRequest(cfg, qs, n - 1, sub, conv, until, pk);
    } else {
      AtNext(cfg, qs, n - 1);
      i := n - 1;
      HandleApproves(cfg, At(cfg, qs, i), qs[i], sub, conv, until, pk);
    }
  }

  // ----- Where a credential comes from -----

  /** The request, made in this state, enrols a credential of this person with this name and key. */
  ghost predicate Registers<K, S>(cfg: Config<K, S>, s: State<K>, q: Request<K, S>, sub: string, id: string, key: K) {
    && s.alive && q.DoRegister? && q.user in cfg.people && cfg.people[q.user] == sub
    && Enrols(s, sub, q.c, q.body, q.now) && q.body.id == Some(id) && q.body.key == Some(key)
  }

  /** Each credential held after a request was held before, under the same name and key, or is the one it enrolled. */
  lemma HandleHolds<K, S>(cfg: Config<K, S>, s: State<K>, q: Request<K, S>, sub: string, i: nat)
    requires i < |Held(Handle(cfg, s, q), sub)|
    ensures var p := Held(Handle(cfg, s, q), sub)[i];
            (i < |Held(s, sub)| && Held(s, sub)[i].id == p.id && Held(s, sub)[i].key == p.key)
            || Registers(cfg, s, q, sub, p.id, p.key)
  {
    hide Check, Register, Enrols, AuthPurpose;
    if s.alive && q.user in cfg.people {
      var who := cfg.people[q.user];
      match q
      case RegisterOptions(_, _, _) =>
      case AuthOptions(_, _, _, _) =>
      case DoRegister(_, c, body, now) =>
        RegisterAcceptsIff(s, who, c, body, now, sub);
        EnrolsNamed(s, who, c, body, now);
      case StepUp(_, conv, c, body, now, _) => CheckKeepsKeys(cfg, s, who, AuthPurpose(who, conv), c, body, now, sub);
    }
  }

  lemma EnrolsNamed<K, S>(s: State<K>, sub: string, c: Party, body: Body<K, S>, now: int)
    ensures Enrols(s, sub, c, body, now) ==> body.id.Some? && body.key.Some?
  {}

  lemma {:induction false} HeldByRequest<K, S>(cfg: Config<K, S>, qs: seq<Request<K, S>>, n: nat, sub: string, i: nat)
    returns (j: nat)
    requires n <= |qs| && i < |Held(At(cfg, qs, n), sub)|
    ensures j < n
    ensures var p := Held(At(cfg, qs, n), sub)[i]; Registers(cfg, At(cfg, qs, j), qs[j], sub, p.id, p.key)
    decreases n
  {
    hide Handle, Registers, At, Held;
    if n == 0 {
      AtStart(cfg, qs);
      NothingHeld<K>(sub);
    } else {
      AtNext(cfg, qs, n - 1);
      var s, p := At(cfg, qs, n - 1), Held(At(cfg, qs, n), sub)[i];
      HandleHolds(cfg, s, qs[n - 1], sub, i);
      if Registers(cfg, s, qs[n - 1], sub, p.id, p.key) {
        j := n - 1;
      } else {
        j := HeldByRequest(cfg, qs, n - 1, sub, i);
      }
    }
  }

  lemma NothingHeld<K>(sub: string)
    ensures Held(Initial<K>(), sub) == []
  {}

  // ----- From the reported elevation to the enrolment -----

  /** Request i grants the approval, and the key of the assertion it needed was enrolled by an earlier request of the
      same person. */
  ghost predicate GrantedBy<K, S>(cfg: Config<K, S>, qs: seq<Request<K, S>>, i: nat, sub: string, conv: string,
    until: int)
    requires i < |qs|
  {
    var s := At(cfg, qs, i);
    && Grants(cfg, s, qs[i], sub, conv, until)
    && (Held(s, sub) != [] ==>
          && Named(s, sub, qs[i].body).Some?
          && var p := Named(s, sub, qs[i].body).value;
             exists j | 0 <= j < i :: Registers(cfg, At(cfg, qs, j), qs[j], sub, p.id, p.key))
  }

  lemma GrantHasEnrolment<K, S>(cfg: Config<K, S>, qs: seq<Request<K, S>>, i: nat, sub: string, conv: string,
    until: int)
    requires i < |qs| && Grants(cfg, At(cfg, qs, i), qs[i], sub, conv, until)
    ensures GrantedBy(cfg, qs, i, sub, conv, until)
  {
    hide Registers, At, Held, Shown, Find, AuthPurpose;
    var s := At(cfg, qs, i);
    if Held(s, sub) != [] {
      var k := Find(Held(s, sub), qs[i].body.id.value).value;
      var j := HeldByRequest(cfg, qs, i, sub, k);
    }
  }

  /** An elevation reported as live was granted by a request of the run: a step-up of that person in that conversation,
      whose lifetime is not over; if the person then had a passkey, with an assertion under a key that an earlier
      request of theirs enrolled. */
  lemma ElevationGranted<K, S>(cfg: Config<K, S>, qs: seq<Request<K, S>>, user: string, conv: string, now: int)
    returns (i: nat, until: int)
    requires cfg.Valid() && now >= 0 && ':' !in user
    requires Elevation(Run(cfg, Initial(), qs), user, conv, now).elevated
    ensures i < |qs| && GrantedBy(cfg, qs, i, user, conv, until)
    ensures now < until && Elevation(Run(cfg, Initial(), qs), user, conv, now).until == until / 1000
  {
    hide Run, Chain, GrantedBy, Grants, Elevation, IssuedInTime, HasPasskey;
    ElevationTraces(cfg, qs, user, conv, now);
    var s := Run(cfg, Initial(), qs);
    until :| Chain(s.log, user, conv, until) && now < until && Elevation(s, user, conv, now).until == until / 1000;
    var pk := ChainIsApproved(s.log, user, conv, until);
    assert qs[..|qs|] == qs;
    i := ApprovedByRequest(cfg, qs, |qs|, user, conv, until, pk);
    GrantHasEnrolment(cfg, qs, i, user, conv, until);
  }

  lemma ChainIsApproved(log: seq<Entry>, sub: string, conv: string, until: int) returns (pk: bool)
    requires Chain(log, sub, conv, until)
    ensures Approved(sub, conv, until, pk) in log
  {
    hide HasPasskey, IssuedInTime;
    var j :| 0 <= j < |log| && log[j].Approved? && log[j].sub == sub && log[j].conv == conv && log[j].until == until;
    pk := log[j].passkey;
    assert log[j] == Approved(sub, conv, until, pk);
  }

  // ----- What a good request brings about -----

  /** The converse: a step-up by someone without a passkey, or with a good assertion, elevates until it is over. */
  lemma GrantElevates<K, S>(cfg: Config<K, S>, s: State<K>, q: Request<K, S>, sub: string, conv: string, until: int,
    now: int)
    requires Grants(cfg, s, q, sub, conv, until) && 0 <= now
    ensures Elevation(Handle(cfg, s, q), sub, conv, now) == Answer(until > now, until / 1000)
  {
    hide Asserts, Check, Held, AuthPurpose, ElevationKey;
    CheckAcceptsIff(cfg, s, sub, AuthPurpose(sub, conv), q.c, q.body, q.now);
  }

  /** The request is no step-up filed under this key. */
  predicate LeavesKey<K, S>(cfg: Config<K, S>, q: Request<K, S>, key: string) {
    q.StepUp? && q.user in cfg.people ==> ElevationKey(cfg.people[q.user], q.conv) != key
  }

  lemma HandleLeavesKey<K, S>(cfg: Config<K, S>, s: State<K>, q: Request<K, S>, key: string)
    requires LeavesKey(cfg, q, key)
    ensures key in Handle(cfg, s, q).elevations <==> key in s.elevations
    ensures key in s.elevations ==> Handle(cfg, s, q).elevations[key] == s.elevations[key]
  {
    hide ElevationKey, AuthPurpose, RegPurpose, Find, CounterMoves, CeremonyChecks;
  }

  lemma {:induction false} RunLeavesKey<K, S>(cfg: Config<K, S>, s: State<K>, qs: seq<Request<K, S>>, key: string)
    requires forall j | 0 <= j < |qs| :: LeavesKey(cfg, qs[j], key)
    ensures key in Run(cfg, s, qs).elevations <==> key in s.elevations
    ensures key in s.elevations ==> Run(cfg, s, qs).elevations[key] == s.elevations[key]
    decreases |qs|
  {
    hide Handle, LeavesKey;
    if qs != [] {
      HandleLeavesKey(cfg, s, qs[0], key);
      RunLeavesKey(cfg, Handle(cfg, s, qs[0]), qs[1..], key);
    }
  }

  /** A granted elevation is reported until it is over, whatever happens after it, for as long as no later step-up is
      filed under the same key. */
  lemma GrantLasts<K, S>(cfg: Config<K, S>, s: State<K>, q: Request<K, S>, later: seq<Request<K, S>>, sub: string,
    conv: string, until: int, now: int)
    requires Grants(cfg, s, q, sub, conv, until) && 0 <= now
    requires forall j | 0 <= j < |later| :: LeavesKey(cfg, later[j], ElevationKey(sub, conv))
    ensures Elevation(Run(cfg, s, [q] + later), sub, conv, now) == Answer(until > now, until / 1000)
  {
    hide Grants, Handle, LeavesKey, ElevationKey;
    assert ([q] + later)[1..] == later;
    GrantElevates(cfg, s, q, sub, conv, until, now);
    GrantKept(cfg, s, q, sub, conv, until);
    RunLeavesKey(cfg, Handle(cfg, s, q), later, ElevationKey(sub, conv));
  }

  lemma GrantKept<K, S>(cfg: Config<K, S>, s: State<K>, q: Request<K, S>, sub: string, conv: string, until: int)
    requires Grants(cfg, s, q, sub, conv, until)
    ensures ElevationKey(sub, conv) in Handle(cfg, s, q).elevations
    ensures Handle(cfg, s, q).elevations[ElevationKey(sub, conv)] == until
  {
    hide Asserts, Check, Held, AuthPurpose, ElevationKey;
    CheckAcceptsIff(cfg, s, sub, AuthPurpose(sub, conv), q.c, q.body, q.now);
  }

  /** What a browser answers to a challenge, with a new credential or with one it has. */
  predicate Answers<K, S>(body: Body<K, S>, kind: string, value: string, c: Party, id: string, counter: nat) {
    && body.client == Client(kind, value, c.origin) && body.auth == AuthData(c.rpId, true, true, counter)
    && body.id == Some(id)
  }

  /** Enrolling and stepping up, each within a minute of its challenge, is an elevation: from any state in which the
      person has no credential of that name. */
  lemma HonestFlow<K, S>(cfg: Config<K, S>, s: State<K>, user: string, conv: string, c: Party, id: string, key: K,
    n1: nat, n2: nat, first: Body<K, S>, second: Body<K, S>, v1: string, v2: string, t1: int, t2: int, t3: int, t4: int,
    t5: int, now: int)
    requires s.alive && user in cfg.people && Find(Held(s, cfg.people[user]), id) == None
    requires Answers(first, "webauthn.create", v1, c, id, n1) && first.es256 && first.key == Some(key)
    requires Answers(second, "webauthn.get", v2, c, id, n2)
    requires cfg.verify(key, second.client, second.auth, second.signature) == Verified
    requires n1 < n2 || n1 == n2 == 0
    requires t2 <= t1 + 60_000 && t4 <= t3 + 60_000 && 0 <= now
    ensures var run := [RegisterOptions(user, v1, t1), DoRegister(user, c, first, t2),
                        AuthOptions(user, conv, v2, t3), StepUp(user, conv, c, second, t4, t5)];
            var until := t5 + cfg.ttl;
            Elevation(Run(cfg, s, run), cfg.people[user], conv, now) == Answer(until > now, until / 1000)
  {
    hide Elevation, Run, Find, RegPurpose, AuthPurpose, Held;
    var sub := cfg.people[user];
    var q1, q2: Request<K, S> := RegisterOptions(user, v1, t1), DoRegister(user, c, first, t2);
    var q3, q4: Request<K, S> := AuthOptions(user, conv, v2, t3), StepUp(user, conv, c, second, t4, t5);
    var s1 := Handle(cfg, s, q1);
    var s2 := Handle(cfg, s1, q2);
    var s3 := Handle(cfg, s2, q3);
    EnrolledNow(cfg, s, user, c, first, v1, t1, t2, id, key, n1);
    AssertsNow(cfg, s2, user, conv, c, second, v2, t3, t4, id, key, n2);
    GrantElevates(cfg, s3, q4, sub, conv, t5 + cfg.ttl, now);
    FourSteps(cfg, s, q1, q2, q3, q4);
  }

  lemma FourSteps<K, S>(cfg: Config<K, S>, s: State<K>, a: Request<K, S>, b: Request<K, S>, c: Request<K, S>,
    d: Request<K, S>)
    ensures Run(cfg, s, [a, b, c, d]) == Handle(cfg, Handle(cfg, Handle(cfg, Handle(cfg, s, a), b), c), d)
  {
    hide Handle;
    var s1 := Handle(cfg, s, a);
    var s2 := Handle(cfg, s1, b);
    var s3 := Handle(cfg, s2, c);
    assert [a, b, c, d][1..] == [b, c, d] && [b, c, d][1..] == [c, d] && [c, d][1..] == [d] && [d][1..] == [];
    assert Run(cfg, s3, [d]) == Run(cfg, Handle(cfg, s3, d), []);
    assert Run(cfg, s2, [c, d]) == Run(cfg, s3, [d]);
    assert Run(cfg, s1, [b, c, d]) == Run(cfg, s2, [c, d]);
  }

  /** A registration within a minute of its challenge adds the credential. */
  lemma EnrolledNow<K, S>(cfg: Config<K, S>, s: State<K>, user: string, c: Party, body: Body<K, S>, value: string,
    t1: int, t2: int, id: string, key: K, n: nat)
    requires s.alive && user in cfg.people && Find(Held(s, cfg.people[user]), id) == None
    requires Answers(body, "webauthn.create", value, c, id, n) && body.es256 && body.key == Some(key)
    requires t2 <= t1 + 60_000
    ensures var sub := cfg.people[user];
            var t := Handle(cfg, Handle(cfg, s, RegisterOptions(user, value, t1)), DoRegister(user, c, body, t2));
            && t.alive && Held(t, sub) == Held(s, sub) + [Passkey(id, key, n)]
            && Find(Held(t, sub), id) == Some(|Held(s, sub)|)
  {
    hide RegPurpose, Find;
    var sub := cfg.people[user];
    var s1 := Handle(cfg, s, RegisterOptions(user, value, t1));
    RegisterAcceptsIff(s1, sub, c, body, t2, sub);
    FindLast(Held(s, sub), Passkey(id, key, n));
  }

  lemma {:induction false} FindLast<K>(ps: seq<Passkey<K>>, p: Passkey<K>)
    requires Find(ps, p.id) == None
    ensures Find(ps + [p], p.id) == Some(|ps|)
    decreases |ps|
  {
    var all := ps + [p];
    if ps == [] {
      assert all[0] == p;
    } else {
      assert all[0] == ps[0] && all[1..] == ps[1..] + [p];
      FindLast(ps[1..], p);
    }
  }

  /** A challenge for this conversation, and within a minute an answer to it: the step-up is granted. */
  lemma AssertsNow<K, S>(cfg: Config<K, S>, s: State<K>, user: string, conv: string, c: Party, body: Body<K, S>,
    value: string, t3: int, t4: int, id: string, key: K, n: nat)
    requires s.alive && user in cfg.people
    requires Find(Held(s, cfg.people[user]), id).Some?
    requires var p := Held(s, cfg.people[user])[Find(Held(s, cfg.people[user]), id).value];
             p.key == key && (p.counter < n || p.counter == n == 0)
    requires Answers(body, "webauthn.get", value, c, id, n)
    requires cfg.verify(key, body.client, body.auth, body.signature) == Verified && t4 <= t3 + 60_000
    ensures var sub := cfg.people[user];
            var t := Handle(cfg, s, AuthOptions(user, conv, value, t3));
            forall t5 :: Grants(cfg, t, StepUp(user, conv, c, body, t4, t5), sub, conv, t5 + cfg.ttl)
  {
    hide AuthPurpose, Find;
  }

  // ----- Why a ceremony is refused -----

  /** The first thing that is wrong is the reason given. Text that is not JSON leaves the challenge; anything else uses
      it up, and JSON null ends the process. */
  lemma CheckReasons<K, S>(cfg: Config<K, S>, s: State<K>, sub: string, purpose: string, c: Party, body: Body<K, S>,
    now: int)
    ensures var (t, v) := Check(cfg, s, sub, purpose, c, body, now);
            if Named(s, sub, body).None? then v == Refused(UnknownPasskey) && t == s
            else if body.client == Malformed then v == Refused(BadClientData) && t == s
            else
              && purpose !in t.challenges && CheckReason(cfg, s, sub, purpose, c, body, now, v)
              && (t.alive <==> s.alive && v != Crashed)
  {
    hide Find, Held;
  }

  ghost predicate CheckReason<K, S>(cfg: Config<K, S>, s: State<K>, sub: string, purpose: string, c: Party,
    body: Body<K, S>, now: int, v: Verdict)
    requires Named(s, sub, body).Some?
  {
    if body.client == JsonNull then v == Crashed
    else if body.client == Malformed then false
    else if body.client.kind != "webauthn.get" then v == Refused(WrongCeremony)
    else if purpose !in s.challenges || s.challenges[purpose].expires < now
            || body.client.challenge != s.challenges[purpose].value then v == Refused(BadChallenge)
    else if body.client.origin != c.origin then v == Refused(WrongOrigin)
    else if body.auth == Short || body.auth.rpId != c.rpId then v == Refused(WrongParty)
    else if !(body.auth.present && body.auth.verified) then v == Refused(NotPresent)
    else
      var p := Named(s, sub, body).value;
      match cfg.verify(p.key, body.client, body.auth, body.signature)
      case Throws => v == Crashed
      case NotVerified => v == Refused(BadSignature)
      case Verified =>
        v == if body.auth.counter > p.counter || body.auth.counter == p.counter == 0 then Accepted
             else Refused(CounterBack)
  }

  lemma RegisterReasons<K, S>(s: State<K>, sub: string, c: Party, body: Body<K, S>, now: int)
    requires Shown(s, "webauthn.create", RegPurpose(sub), c, body.client, body.auth, now)
    ensures Register(s, sub, c, body, now).1
         == if !body.es256 || body.id.None? then Refused(OnlyEs256) else if body.key.None? then Refused(BadKey)
            else Accepted
  {
    hide RegPurpose;
  }

  // ----- What the adapter does with the answer -----

  /** With a live elevation every outcome goes through, at once or later, and what is delivered is stamped with the
      elevation's end in seconds. */
  lemma LiveGoesThrough<K>(s: State<K>, user: string, conv: string, now: int, summary: string, stamp: Option<int>,
    code: string)
    requires Elevation(s, user, conv, now).elevated && Elevation(s, user, conv, now).until != 0
    ensures var a := Elevation(s, user, conv, now);
            var delivered := Deliver(summary, Some(s.elevations[ElevationKey(user, conv)] / 1000));
            && ElevationKey(user, conv) in s.elevations
            && Guard(Some(a), Now(Deliver(summary, stamp))) == Now(delivered)
            && Guard(Some(a), Later(Deliver(summary, stamp))) == Later(delivered)
            && Guard(Some(a), Now(Decline(code))) == Now(Decline(code))
            && Guard(Some(a), Later(Decline(code))) == Later(Decline(code))
            && Guard(Some(a), Now(Expire)) == Now(Expire) && Guard(Some(a), Later(Expire)) == Later(Expire)
            && Guard(Some(a), Pending) == Pending
  {
    hide ElevationKey;
  }

  /** Without one every outcome is declined at once, and so is it when the elevation cannot be read. */
  lemma OthersDeclined<K>(s: State<K>, user: string, conv: string, now: int, next: Outcome)
    requires !Elevation(s, user, conv, now).elevated
    ensures Guard(Some(Elevation(s, user, conv, now)), next) == Now(Decline("step_up_required"))
    ensures Guard(None, next) == Now(Decline("step_up_required"))
    ensures Guard(Some(Answer(true, 0)), next) == Now(Decline("step_up_required"))
  {}

  /** A process that has ended does nothing any more. */
  lemma {:induction false} DeadStays<K, S>(cfg: Config<K, S>, s: State<K>, qs: seq<Request<K, S>>)
    requires !s.alive
    ensures Run(cfg, s, qs) == s
    decreases |qs|
  {
    if qs != [] {
      DeadStays(cfg, s, qs[1..]);
    }
  }
}
