/** What every run of the integrator keeps, and where each approval and each delivered result comes from. */
module PasskeyTheorems {
  import opened Optional
  import opened Passkeys

  // ----- The keys do not run together -----

  /** A longer name with the same key has the separator in it. */
  lemma ShorterName(a: string, x: string, b: string, y: string)
    requires |a| < |b| && ElevationKey(a, x) == ElevationKey(b, y)
    ensures ':' in b
  {
    assert ElevationKey(a, x)[|a|] == ':';
    assert ElevationKey(b, y)[|a|] == b[|a|];
  }

  lemma KeyInjective(a: string, x: string, b: string, y: string)
    requires ':' !in a && ':' !in b && ElevationKey(a, x) == ElevationKey(b, y)
    ensures a == b && x == y
  {
    var k := ElevationKey(a, x);
    if |a| < |b| {
      ShorterName(a, x, b, y);
    } else if |b| < |a| {
      ShorterName(b, y, a, x);
    } else {
      assert a == k[..|a|] == b;
      assert x == k[|a| + 1..] == y;
    }
  }

  lemma PurposesApart(sub: string, sub': string, conv: string)
    ensures RegPurpose(sub) != AuthPurpose(sub', conv)
  {
    assert RegPurpose(sub)[0] == 'r' && AuthPurpose(sub', conv)[0] == 'a';
  }

  /** Two requests filed under one text are for the same person, and for the same conversation if they are step-ups by
      people whose names have no separator. */
  lemma PurposeInjective(w: Asker, w': Asker)
    requires w.Purpose() == w'.Purpose()
    ensures w.ForRegistration? || (':' !in w.sub && ':' !in w'.sub) ==> w == w'
    ensures w.ForStepUp? <==> w'.ForStepUp?
  {
    var p := w.Purpose();
    match (w, w')
    case (ForRegistration(a), ForRegistration(b)) =>
      assert p[4..] == a && p[4..] == b;
    case (ForStepUp(a, x), ForStepUp(b, y)) =>
      assert p[5..] == ElevationKey(a, x) && p[5..] == ElevationKey(b, y);
      if ':' !in a && ':' !in b {
        KeyInjective(a, x, b, y);
      }
    case (ForRegistration(a), ForStepUp(b, y)) => PurposesApart(a, b, y);
    case (ForStepUp(a, x), ForRegistration(b)) => PurposesApart(b, a, x);
  }

  // ----- Every entry is justified by the ones before it -----

  /** The challenge was handed out to this request no more than its lifetime earlier. */
  ghost predicate IssuedInTime(before: seq<Entry>, who: Asker, value: string, time: int) {
    exists t :: Issued(who, value, t) in before && time <= t + CHALLENGE_TTL
  }

  /** It was handed out to some request filed under this text. */
  ghost predicate FiledInTime(before: seq<Entry>, purpose: string, value: string, time: int) {
    exists who: Asker :: who.Purpose() == purpose && IssuedInTime(before, who, value, time)
  }

  /** Where an outstanding challenge comes from. */
  ghost predicate Filed(log: seq<Entry>, purpose: string, ch: Challenge) {
    exists who: Asker :: who.Purpose() == purpose && Issued(who, ch.value, ch.expires - CHALLENGE_TTL) in log
  }

  ghost predicate HasPasskey(log: seq<Entry>, sub: string) {
    exists value, t :: Registered(sub, value, t) in log
  }

  /** The last entry is an accepted check for this person and conversation. */
  ghost predicate JustChecked(before: seq<Entry>, sub: string, conv: string) {
    && before != [] && before[|before| - 1].Checked?
    && before[|before| - 1].sub == sub && before[|before| - 1].purpose == AuthPurpose(sub, conv)
  }

  ghost predicate Grounded(before: seq<Entry>, e: Entry) {
    match e
    case Issued(_, _, _) => true
    case Registered(sub, value, time) => FiledInTime(before, RegPurpose(sub), value, time)
    case Checked(sub, purpose, value, _, _, time) =>
      FiledInTime(before, purpose, value, time) && exists conv :: purpose == AuthPurpose(sub, conv)
    case Approved(sub, conv, _, passkey) =>
      if passkey then JustChecked(before, sub, conv) else !HasPasskey(before, sub)
  }

  ghost predicate Sound(log: seq<Entry>) {
    log == [] || (Sound(log[..|log| - 1]) && Grounded(log[..|log| - 1], log[|log| - 1]))
  }

  lemma SoundExtends(log: seq<Entry>, e: Entry)
    requires Sound(log) && Grounded(log, e)
    ensures Sound(log + [e])
  {
    assert (log + [e])[..|log|] == log;
  }

  lemma {:induction false} SoundAt(log: seq<Entry>, j: nat)
    requires Sound(log) && j < |log|
    ensures Grounded(log[..j], log[j])
    decreases |log|
  {
    if j < |log| - 1 {
      var init := log[..|log| - 1];
      SoundAt(init, j);
      assert init[..j] == log[..j] && init[j] == log[j];
    }
  }

  /** A recorded approval stands behind every elevation. */
  ghost predicate Traced<K, S>(cfg: Config<K, S>, s: State<K>, key: string)
    requires key in s.elevations
  {
    exists sub, conv, pk ::
      sub in cfg.people.Values && key == ElevationKey(sub, conv)
      && Approved(sub, conv, s.elevations[key], pk) in s.log
  }

  ghost predicate Inv<K, S>(cfg: Config<K, S>, s: State<K>) {
    && Sound(s.log)
    && (forall p | p in s.challenges :: Filed(s.log, p, s.challenges[p]))
    && (forall who, value, time | Issued(who, value, time) in s.log :: who.sub in cfg.people.Values)
    && (forall sub :: Held(s, sub) == [] <==> !HasPasskey(s.log, sub))
    && (forall key | key in s.elevations :: Traced(cfg, s, key))
    && (forall sub, conv, until, pk | Approved(sub, conv, until, pk) in s.log :: sub in cfg.people.Values)
  }

  lemma IssueKeeps<K, S>(cfg: Config<K, S>, s: State<K>, who: Asker, value: string, now: int)
    requires Inv(cfg, s) && who.sub in cfg.people.Values
    ensures Inv(cfg, IssueChallenge(s, who, value, now))
  {
    hide Asker.Purpose;
    var e := Issued(who, value, now);
    var t := IssueChallenge(s, who, value, now);
    SoundExtends(s.log, e);
    SameRegistrations(s.log, e);
    forall key | key in t.elevations ensures Traced(cfg, t, key) {
      assert Traced(cfg, s, key);
    }
    assert e in t.log;
    forall p | p in t.challenges ensures Filed(t.log, p, t.challenges[p]) {
      FiledStays(s.log, [e], p, t.challenges[p]);
    }
  }

  lemma FiledStays(log: seq<Entry>, more: seq<Entry>, purpose: string, ch: Challenge)
    ensures Filed(log, purpose, ch) ==> Filed(log + more, purpose, ch)
  {
    if Filed(log, purpose, ch) {
      var who: Asker :| who.Purpose() == purpose && Issued(who, ch.value, ch.expires - CHALLENGE_TTL) in log;
      assert Issued(who, ch.value, ch.expires - CHALLENGE_TTL) in log + more;
    }
  }

  /** An entry that is no registration registers nobody. */
  lemma SameRegistrations(log: seq<Entry>, e: Entry)
    requires !e.Registered?
    ensures forall sub :: HasPasskey(log + [e], sub) <==> HasPasskey(log, sub)
  {
    forall sub ensures HasPasskey(log + [e], sub) <==> HasPasskey(log, sub) {
      if HasPasskey(log, sub) {
        var v, t :| Registered(sub, v, t) in log;
        assert Registered(sub, v, t) in log + [e];
      }
    }
  }

  lemma TakeKeeps<K, S>(cfg: Config<K, S>, s: State<K>, purpose: string)
    requires Inv(cfg, s)
    ensures Inv(cfg, Take(s, purpose))
  {
    forall key | key in s.elevations ensures Traced(cfg, Take(s, purpose), key) {
      assert Traced(cfg, s, key);
    }
  }

  lemma CeremonyKeeps<K, S>(cfg: Config<K, S>, s: State<K>, kind: string, purpose: string, c: Party,
    client: ClientData, auth: AuthData, now: int)
    requires Inv(cfg, s)
    ensures var (t, v) := Ceremony(s, kind, purpose, c, client, auth, now);
            && Inv(cfg, t) && t.log == s.log && t.passkeys == s.passkeys && t.elevations == s.elevations
            && (v == Accepted ==>
                  client.Client? && FiledInTime(s.log, purpose, client.challenge, now) && auth.AuthData?)
  {
    hide Sound, HasPasskey, Traced;
    TakeKeeps(cfg, s, purpose);
    if client == JsonNull {
      var t := Take(s, purpose);
      DeadKeeps(cfg, t);
    }
    if purpose in s.challenges {
      var ch := s.challenges[purpose];
      if now <= ch.expires {
        FiledIsInTime(s.log, purpose, ch, now);
      }
    }
  }

  lemma FiledIsInTime(log: seq<Entry>, purpose: string, ch: Challenge, now: int)
    requires Filed(log, purpose, ch) && now <= ch.expires
    ensures FiledInTime(log, purpose, ch.value, now)
  {
    var who: Asker :| who.Purpose() == purpose && Issued(who, ch.value, ch.expires - CHALLENGE_TTL) in log;
    assert IssuedInTime(log, who, ch.value, now);
  }

  lemma DeadKeeps<K, S>(cfg: Config<K, S>, s: State<K>)
    requires Inv(cfg, s)
    ensures Inv(cfg, s.(alive := false))
  {
    forall key | key in s.elevations ensures Traced(cfg, s.(alive := false), key) {
      assert Traced(cfg, s, key);
    }
  }

  /** Adding a grounded entry and changing nothing but one person's credentials. */
  lemma RecordKeeps<K, S>(cfg: Config<K, S>, s: State<K>, e: Entry, sub: string, ps: seq<Passkey<K>>)
    requires Inv(cfg, s) && Grounded(s.log, e) && ps != []
    requires (e.Registered? && e.sub == sub) || (e.Checked? && HasPasskey(s.log, sub))
    ensures Inv(cfg, s.(passkeys := s.passkeys[sub := ps], log := s.log + [e]))
  {
    hide Sound, Grounded;
    var t := s.(passkeys := s.passkeys[sub := ps], log := s.log + [e]);
    SoundExtends(s.log, e);
    forall key | key in t.elevations ensures Traced(cfg, t, key) {
      assert Traced(cfg, s, key);
    }
    forall x ensures Held(t, x) == [] <==> !HasPasskey(t.log, x) {
      if HasPasskey(s.log, x) {
        var v, time :| Registered(x, v, time) in s.log;
        assert Registered(x, v, time) in t.log;
      }
      if e.Registered? {
        assert e in t.log;
      }
    }
  }

  lemma RegisterKeeps<K, S>(cfg: Config<K, S>, s: State<K>, sub: string, c: Party, body: Body<K, S>, now: int)
    requires Inv(cfg, s)
    ensures Inv(cfg, Register(s, sub, c, body, now).0)
  {
    hide Inv, Ceremony;
    CeremonyKeeps(cfg, s, "webauthn.create", RegPurpose(sub), c, body.client, body.auth, now);
    var (t, v) := Ceremony(s, "webauthn.create", RegPurpose(sub), c, body.client, body.auth, now);
    if v == Accepted && body.es256 && body.id.Some? && body.key.Some? {
      var p := Passkey(body.id.value, body.key.value, body.auth.counter);
      RecordKeeps(cfg, t, Registered(sub, body.client.challenge, now), sub, Held(t, sub) + [p]);
    }
  }

  lemma HeldHas<K, S>(cfg: Config<K, S>, s: State<K>, sub: string)
    requires Inv(cfg, s)
    ensures Held(s, sub) != [] <==> HasPasskey(s.log, sub)
  {}

  lemma CheckKeeps<K, S>(cfg: Config<K, S>, s: State<K>, sub: string, conv: string, c: Party, body: Body<K, S>,
    now: int)
    requires Inv(cfg, s)
    ensures var (t, v) := Check(cfg, s, sub, AuthPurpose(sub, conv), c, body, now);
            Inv(cfg, t) && (v == Accepted ==> JustChecked(t.log, sub, conv)) && t.elevations == s.elevations
  {
    hide Inv, Ceremony, HasPasskey, AuthPurpose;
    var purpose := AuthPurpose(sub, conv);
    CeremonyKeeps(cfg, s, "webauthn.get", purpose, c, body.client, body.auth, now);
    HeldHas(cfg, s, sub);
    DeadKeeps(cfg, Ceremony(s, "webauthn.get", purpose, c, body.client, body.auth, now).0);
    var (t, v) := Check(cfg, s, sub, purpose, c, body, now);
    if v == Accepted {
      var ps := Held(s, sub);
      var i := Find(ps, body.id.value).value;
      var (u, _) := Ceremony(s, "webauthn.get", purpose, c, body.client, body.auth, now);
      var e := Checked(sub, purpose, body.client.challenge, body.id.value, body.auth.counter, now);
      RecordKeeps(cfg, u, e, sub, ps[i := ps[i].(counter := body.auth.counter)]);
    }
  }

  lemma ApproveKeeps<K, S>(cfg: Config<K, S>, s: State<K>, sub: string, conv: string, until: int, pk: bool)
    requires Inv(cfg, s) && sub in cfg.people.Values && Grounded(s.log, Approved(sub, conv, until, pk))
    ensures Inv(cfg, s.(elevations := s.elevations[ElevationKey(sub, conv) := until],
                        log := s.log + [Approved(sub, conv, until, pk)]))
  {
    hide Sound, Grounded, ElevationKey;
    var e := Approved(sub, conv, until, pk);
    var key := ElevationKey(sub, conv);
    var t := s.(elevations := s.elevations[key := until], log := s.log + [e]);
    SoundExtends(s.log, e);
    SameRegistrations(s.log, e);
    forall k | k in t.elevations ensures Traced(cfg, t, k) {
      if k == key {
        assert e in t.log;
      } else {
        assert Traced(cfg, s, k);
      }
    }
  }

  lemma HandleKeeps<K, S>(cfg: Config<K, S>, s: State<K>, q: Request<K, S>)
    requires Inv(cfg, s)
    ensures Inv(cfg, Handle(cfg, s, q))
  {
    hide Inv, Register, Check, IssueChallenge;
    if s.alive && q.user in cfg.people {
      var sub := cfg.people[q.user];
      match q
      case RegisterOptions(_, value, now) => IssueKeeps(cfg, s, ForRegistration(sub), value, now);
      case DoRegister(_, c, body, now) => RegisterKeeps(cfg, s, sub, c, body, now);
      case AuthOptions(_, conv, value, now) => IssueKeeps(cfg, s, ForStepUp(sub, conv), value, now);
      case StepUp(_, conv, c, body, now, later) => StepUpKeeps(cfg, s, sub, conv, c, body, now, later);
    }
  }

  lemma StepUpKeeps<K, S>(cfg: Config<K, S>, s: State<K>, sub: string, conv: string, c: Party, body: Body<K, S>,
    now: int, later: int)
    requires Inv(cfg, s) && sub in cfg.people.Values
    ensures Inv(cfg, DoStepUp(cfg, s, sub, conv, c, body, now, later))
  {
    hide Inv, Check, HasPasskey, JustChecked;
    HeldHas(cfg, s, sub);
    CheckKeeps(cfg, s, sub, conv, c, body, now);
    var (t, v) := Check(cfg, s, sub, AuthPurpose(sub, conv), c, body, now);
    if Held(s, sub) == [] {
      ApproveKeeps(cfg, s, sub, conv, later + cfg.ttl, false);
    } else if v == Accepted {
      ApproveKeeps(cfg, t, sub, conv, later + cfg.ttl, true);
    }
  }

  lemma {:induction false} RunKeeps<K, S>(cfg: Config<K, S>, s: State<K>, qs: seq<Request<K, S>>)
    requires Inv(cfg, s)
    ensures Inv(cfg, Run(cfg, s, qs))
    decreases |qs|
  {
    hide Inv, Handle;
    if qs != [] {
      HandleKeeps(cfg, s, qs[0]);
      RunKeeps(cfg, Handle(cfg, s, qs[0]), qs[1..]);
    }
  }

  lemma InitialInv<K, S>(cfg: Config<K, S>)
    ensures Inv(cfg, Initial())
  {}

  // ----- The approval chain -----

  /** An approval of this pair, with the passkey check it needed, on a challenge that this person had asked for in
      this conversation within its lifetime. */
  ghost predicate Chain(log: seq<Entry>, sub: string, conv: string, until: int) {
    exists j | 0 <= j < |log| ::
      && log[j].Approved? && log[j].sub == sub && log[j].conv == conv && log[j].until == until
      && (HasPasskey(log[..j], sub) ==>
            && j > 0 && log[j - 1].Checked? && log[j - 1].sub == sub && log[j - 1].purpose == AuthPurpose(sub, conv)
            && IssuedInTime(log[..j - 1], ForStepUp(sub, conv), log[j - 1].value, log[j - 1].time))
  }

  /** Nobody who is in the log has a separator in their name. */
  ghost predicate PlainNames(log: seq<Entry>) {
    && (forall who, value, time | Issued(who, value, time) in log :: ':' !in who.sub)
    && (forall sub, conv, until, pk | Approved(sub, conv, until, pk) in log :: ':' !in sub)
  }

  lemma NamesArePlain<K, S>(cfg: Config<K, S>, s: State<K>)
    requires cfg.Valid() && Inv(cfg, s)
    ensures PlainNames(s.log)
  {
    forall x | x in cfg.people.Values ensures ':' !in x {
      var u :| u in cfg.people && cfg.people[u] == x;
    }
  }

  lemma ApprovedHasChain(log: seq<Entry>, sub: string, conv: string, until: int, pk: bool)
    requires Sound(log) && PlainNames(log) && Approved(sub, conv, until, pk) in log
    ensures Chain(log, sub, conv, until)
  {
    hide Sound, HasPasskey, IssuedInTime, Asker.Purpose, AuthPurpose;
    var j :| 0 <= j < |log| && log[j] == Approved(sub, conv, until, pk);
    SoundAt(log, j);
    if pk {
      assert log[..j][j - 1] == log[j - 1];
      SoundAt(log, j - 1);
      FiledForPair(log[..j - 1], sub, conv, log[j - 1].value, log[j - 1].time);
    }
  }

  lemma FiledForPair(log: seq<Entry>, sub: string, conv: string, value: string, time: int)
    requires PlainNames(log) && ':' !in sub && FiledInTime(log, AuthPurpose(sub, conv), value, time)
    ensures IssuedInTime(log, ForStepUp(sub, conv), value, time)
  {
    var who: Asker :| who.Purpose() == AuthPurpose(sub, conv) && IssuedInTime(log, who, value, time);
    PurposeInjective(who, ForStepUp(sub, conv));
  }

  /** Approval chain: a reported elevation traces to an approval of the pair that was asked for exactly when the
      asked-for user has no separator in it. */
  lemma ElevationTraces<K, S>(cfg: Config<K, S>, qs: seq<Request<K, S>>, user: string, conv: string, now: int)
    requires cfg.Valid() && now >= 0
    requires Elevation(Run(cfg, Initial(), qs), user, conv, now).elevated
    ensures (exists until :: Chain(Run(cfg, Initial(), qs).log, user, conv, until) && now < until
               && Elevation(Run(cfg, Initial(), qs), user, conv, now).until == until / 1000)
       <==> ':' !in user
  {
    hide Run, Chain, Sound;
    InitialInv(cfg);
    RunKeeps(cfg, Initial(), qs);
    var s := Run(cfg, Initial(), qs);
    var key := ElevationKey(user, conv);
    assert Traced(cfg, s, key);
    var sub, conv', pk :|
      && sub in cfg.people.Values && key == ElevationKey(sub, conv')
      && Approved(sub, conv', s.elevations[key], pk) in s.log;
    NamesArePlain(cfg, s);
    if ':' !in user {
      KeyInjective(user, conv, sub, conv');
      ApprovedHasChain(s.log, sub, conv', s.elevations[key], pk);
      assert Chain(s.log, user, conv, s.elevations[key]);
    } else {
      forall until | Chain(s.log, user, conv, until) ensures false {
        ChainIsSomeones(cfg, s, user, conv, until);
      }
    }
  }

  lemma ChainIsSomeones<K, S>(cfg: Config<K, S>, s: State<K>, user: string, conv: string, until: int)
    requires Inv(cfg, s) && Chain(s.log, user, conv, until)
    ensures user in cfg.people.Values
  {
    hide HasPasskey, IssuedInTime;
    var j :| 0 <= j < |s.log| && s.log[j].Approved? && s.log[j].sub == user && s.log[j].conv == conv;
    assert Approved(user, conv, s.log[j].until, s.log[j].passkey) in s.log;
  }

  /** At the configuration the integrator starts with. */
  lemma FleetlineTraces<K, S>(verify: (K, ClientData, AuthData, S) -> Verification, ttl: int, qs: seq<Request<K, S>>,
    user: string, conv: string, now: int)
    requires now >= 0 && ':' !in user
    requires Elevation(Run(Config(FLEETLINE, verify, ttl), Initial(), qs), user, conv, now).elevated
    ensures exists until ::
              Chain(Run(Config(FLEETLINE, verify, ttl), Initial(), qs).log, user, conv, until) && now < until
  {
    hide Run, Chain, Elevation;
    FleetlineValid(verify, ttl);
    ElevationTraces(Config(FLEETLINE, verify, ttl), qs, user, conv, now);
  }

  /** One run that shows it: an approval in a conversation whose name has the separator is reported for another
      pair, because the query is taken as it stands. */
  lemma SeparatorMisleads<K, S>(cfg: Config<K, S>, c: Party, body: Body<K, S>, conv: string, later: int)
    requires "admin" in cfg.people && cfg.people["admin"] == "fleetline.2" && later >= 0 && cfg.ttl > 0
    ensures var s := Run(cfg, Initial(), [StepUp("admin", "x:" + conv, c, body, later, later)]);
            Elevation(s, "fleetline.2:x", conv, later).elevated
  {
    var q: Request<K, S> := StepUp("admin", "x:" + conv, c, body, later, later);
    var s := Handle(cfg, Initial(), q);
    assert Run(cfg, Initial(), [q]) == Run(cfg, s, [q][1..]) == s;
    assert ElevationKey("fleetline.2", "x:" + conv) == ElevationKey("fleetline.2:x", conv);
  }

  /** A name that every object has is somebody: a step-up under it is approved. */
  lemma BuiltInNameApproved<K, S>(verify: (K, ClientData, AuthData, S) -> Verification, ttl: int, c: Party,
    body: Body<K, S>, conv: string, later: int)
    requires later >= 0 && ttl > 0
    ensures var qs := [StepUp("constructor", conv, c, body, later, later)];
            var s := Run(Config(FLEETLINE, verify, ttl), Initial(), qs);
            Elevation(s, NOBODY, conv, later).elevated
  {
    var cfg := Config(FLEETLINE, verify, ttl);
    var q: Request<K, S> := StepUp("constructor", conv, c, body, later, later);
    assert Run(cfg, Initial(), [q]) == Run(cfg, Handle(cfg, Initial(), q), [q][1..]) == Handle(cfg, Initial(), q);
  }

  /** Nothing is delivered without a live approval, and nothing is stamped past it. */
  lemma DeliveredTraces<K, S>(cfg: Config<K, S>, qs: seq<Request<K, S>>, user: string, conv: string, now: int,
    next: Outcome, lost: bool)
    requires cfg.Valid() && now >= 0 && ':' !in user
    ensures var s := Run(cfg, Initial(), qs);
            var got := Guard(if lost then None else Some(Elevation(s, user, conv, now)), next);
            (!got.Pending? && got.final.Deliver?) ==>
              exists until :: Chain(s.log, user, conv, until) && now < until
                && got.final.approvedUntil.Some? && 1000 * got.final.approvedUntil.value <= until
  {
    hide Run, Chain;
    var s := Run(cfg, Initial(), qs);
    var a := Elevation(s, user, conv, now);
    if a.elevated {
      ElevationTraces(cfg, qs, user, conv, now);
    }
  }

  // ----- Single use -----

  /** The challenge an accepted ceremony answered. */
  function UsedValue(e: Entry): Option<string> {
    match e
    case Registered(_, value, _) => Some(value)
    case Checked(_, _, value, _, _, _) => Some(value)
    case _ => None
  }

  ghost predicate IsIssued(log: seq<Entry>, value: string) {
    exists who, t :: Issued(who, value, t) in log
  }

  ghost predicate IsUsed(log: seq<Entry>, value: string) {
    exists e | e in log :: UsedValue(e) == Some(value)
  }

  /** Fresh challenge values: none was handed out before. */
  ghost predicate FreshRequest<K, S>(s: State<K>, q: Request<K, S>) {
    match q
    case RegisterOptions(_, value, _) => !IsIssued(s.log, value)
    case AuthOptions(_, _, value, _) => !IsIssued(s.log, value)
    case _ => true
  }

  ghost predicate FreshRun<K, S>(cfg: Config<K, S>, s: State<K>, qs: seq<Request<K, S>>)
    decreases |qs|
  {
    qs == [] || (FreshRequest(s, qs[0]) && FreshRun(cfg, Handle(cfg, s, qs[0]), qs[1..]))
  }

  /** Each value is issued once and used once at most, for the purpose it was issued for. */
  ghost predicate OnceEach(log: seq<Entry>) {
    && (forall w, v, t, w', t' | Issued(w, v, t) in log && Issued(w', v, t') in log :: w == w' && t == t')
    && (forall i, j | 0 <= i < j < |log| && UsedValue(log[i]).Some? :: UsedValue(log[i]) != UsedValue(log[j]))
  }

  ghost predicate UseInv<K>(s: State<K>) {
    && OnceEach(s.log)
    && (forall e | e in s.log && UsedValue(e).Some? :: IsIssued(s.log, UsedValue(e).value))
    && (forall p | p in s.challenges ::
          && !IsUsed(s.log, s.challenges[p].value)
          && Filed(s.log, p, s.challenges[p]))
  }

  lemma IssueUse<K>(s: State<K>, who: Asker, value: string, now: int)
    requires UseInv(s) && !IsIssued(s.log, value)
    ensures UseInv(IssueChallenge(s, who, value, now))
  {
    hide Asker.Purpose;
    var e := Issued(who, value, now);
    var t := IssueChallenge(s, who, value, now);
    forall x | x in t.log && UsedValue(x).Some? ensures IsIssued(t.log, UsedValue(x).value) {
      assert x in s.log;
      IssuedStays(s.log, [e], UsedValue(x).value);
    }
    forall v | IsUsed(t.log, v) ensures IsUsed(s.log, v) && v != value {
      var x :| x in t.log && UsedValue(x) == Some(v);
      assert x in s.log;
    }
    assert e in t.log;
    forall p | p in t.challenges ensures Filed(t.log, p, t.challenges[p]) {
      FiledStays(s.log, [e], p, t.challenges[p]);
    }
  }

  lemma IssuedStays(log: seq<Entry>, more: seq<Entry>, value: string)
    requires IsIssued(log, value)
    ensures IsIssued(log + more, value)
  {
    var who, time :| Issued(who, value, time) in log;
    assert Issued(who, value, time) in log + more;
  }

  lemma TakeUse<K>(s: State<K>, purpose: string)
    requires UseInv(s)
    ensures UseInv(Take(s, purpose)) && UseInv(Take(s, purpose).(alive := false))
  {}

  /** One value is outstanding for one purpose at most. */
  lemma FiledOnce(log: seq<Entry>, p: string, ch: Challenge, p': string, ch': Challenge)
    requires OnceEach(log) && Filed(log, p, ch) && Filed(log, p', ch') && ch.value == ch'.value
    ensures p == p'
  {}

  lemma FiledIsIssued(log: seq<Entry>, p: string, ch: Challenge)
    requires Filed(log, p, ch)
    ensures IsIssued(log, ch.value)
  {}

  /** Using the challenge that was taken out. */
  lemma RecordUse<K>(s: State<K>, ps: map<string, seq<Passkey<K>>>, e: Entry, purpose: string)
    requires UseInv(s) && purpose in s.challenges && UsedValue(e) == Some(s.challenges[purpose].value)
    ensures UseInv(Take(s, purpose).(passkeys := ps, log := s.log + [e]))
  {
    hide Asker.Purpose, Filed, IsIssued;
    var v := s.challenges[purpose].value;
    var t := Take(s, purpose).(passkeys := ps, log := s.log + [e]);
    FiledIsIssued(s.log, purpose, s.challenges[purpose]);
    forall x | x in t.log && UsedValue(x).Some? ensures IsIssued(t.log, UsedValue(x).value) {
      assert x in s.log || x == e;
      IssuedStays(s.log, [e], UsedValue(x).value);
    }
    forall i, j | 0 <= i < j < |t.log| && UsedValue(t.log[i]).Some?
      ensures UsedValue(t.log[i]) != UsedValue(t.log[j])
    {
      assert t.log[i] in s.log;
    }
    forall p | p in t.challenges ensures !IsUsed(t.log, t.challenges[p].value) && Filed(t.log, p, t.challenges[p]) {
      if t.challenges[p].value == v {
        FiledOnce(s.log, p, s.challenges[p], purpose, s.challenges[purpose]);
      }
      FiledStays(s.log, [e], p, s.challenges[p]);
    }
  }

  lemma HandleUse<K, S>(cfg: Config<K, S>, s: State<K>, q: Request<K, S>)
    requires UseInv(s) && FreshRequest(s, q)
    ensures UseInv(Handle(cfg, s, q))
  {
    hide UseInv, IsIssued;
    if s.alive && q.user in cfg.people {
      var sub := cfg.people[q.user];
      match q
      case RegisterOptions(_, value, now) => IssueUse(s, ForRegistration(sub), value, now);
      case DoRegister(_, c, body, now) => RegisterUse(s, sub, c, body, now);
      case AuthOptions(_, conv, value, now) => IssueUse(s, ForStepUp(sub, conv), value, now);
      case StepUp(_, conv, c, body, now, later) =>
        CheckUse(cfg, s, sub, AuthPurpose(sub, conv), c, body, now);
        var (t, v) := Check(cfg, s, sub, AuthPurpose(sub, conv), c, body, now);
        ApproveUse(s, sub, conv, later + cfg.ttl, false);
        ApproveUse(t, sub, conv, later + cfg.ttl, true);
    }
  }

  lemma RegisterUse<K, S>(s: State<K>, sub: string, c: Party, body: Body<K, S>, now: int)
    requires UseInv(s)
    ensures UseInv(Register(s, sub, c, body, now).0)
  {
    hide UseInv;
    TakeUse(s, RegPurpose(sub));
    var (t, v) := Register(s, sub, c, body, now);
    if v == Accepted {
      RecordUse(s, t.passkeys, Registered(sub, body.client.challenge, now), RegPurpose(sub));
    }
  }

  lemma CheckUse<K, S>(cfg: Config<K, S>, s: State<K>, sub: string, purpose: string, c: Party, body: Body<K, S>,
    now: int)
    requires UseInv(s)
    ensures UseInv(Check(cfg, s, sub, purpose, c, body, now).0)
  {
    hide UseInv;
    TakeUse(s, purpose);
    var (t, v) := Check(cfg, s, sub, purpose, c, body, now);
    if v == Accepted {
      var e := Checked(sub, purpose, body.client.challenge, body.id.value, body.auth.counter, now);
      RecordUse(s, t.passkeys, e, purpose);
    }
  }

  lemma ApproveUse<K>(s: State<K>, sub: string, conv: string, until: int, pk: bool)
    requires UseInv(s)
    ensures UseInv(s.(elevations := s.elevations[ElevationKey(sub, conv) := until],
                      log := s.log + [Approved(sub, conv, until, pk)]))
  {
    var e := Approved(sub, conv, until, pk);
    forall x | x in s.log + [e] && UsedValue(x).Some? ensures IsIssued(s.log + [e], UsedValue(x).value) {
      assert x in s.log;
      IssuedStays(s.log, [e], UsedValue(x).value);
    }
    forall v | IsUsed(s.log + [e], v) ensures IsUsed(s.log, v) {
      var x :| x in s.log + [e] && UsedValue(x) == Some(v);
      assert x in s.log;
    }
  }

  lemma {:induction false} RunUse<K, S>(cfg: Config<K, S>, s: State<K>, qs: seq<Request<K, S>>)
    requires UseInv(s) && FreshRun(cfg, s, qs)
    ensures UseInv(Run(cfg, s, qs))
    decreases |qs|
  {
    hide UseInv, Handle, FreshRequest;
    if qs != [] {
      HandleUse(cfg, s, qs[0]);
      RunUse(cfg, Handle(cfg, s, qs[0]), qs[1..]);
    }
  }

  /** Single use: no two accepted ceremonies answer the same challenge, and none crosses over from registration. */
  lemma SingleUse<K, S>(cfg: Config<K, S>, qs: seq<Request<K, S>>)
    requires FreshRun(cfg, Initial(), qs)
    ensures var log := Run(cfg, Initial(), qs).log;
            && (forall i, j | 0 <= i < j < |log| && UsedValue(log[i]).Some? :: UsedValue(log[i]) != UsedValue(log[j]))
            && (forall sub, purpose, v, id, n, t, who, when |
                  Checked(sub, purpose, v, id, n, t) in log && Issued(ForRegistration(who), v, when) in log :: false)
            && (forall sub, v, t, who, conv, when |
                  Registered(sub, v, t) in log && Issued(ForStepUp(who, conv), v, when) in log :: false)
  {
    hide Run, FreshRun, RegPurpose, AuthPurpose;
    RunUse(cfg, Initial(), qs);
    InitialInv(cfg);
    RunKeeps(cfg, Initial(), qs);
    var log := Run(cfg, Initial(), qs).log;
    forall sub, purpose, v, id, n, t, who, when |
      Checked(sub, purpose, v, id, n, t) in log && Issued(ForRegistration(who), v, when) in log ensures false
    {
      GroundedEntry(log, Checked(sub, purpose, v, id, n, t));
      var conv :| purpose == AuthPurpose(sub, conv);
      PurposesApart(who, sub, conv);
    }
    forall sub, v, t, who, conv, when |
      Registered(sub, v, t) in log && Issued(ForStepUp(who, conv), v, when) in log ensures false
    {
      GroundedEntry(log, Registered(sub, v, t));
      PurposesApart(sub, who, conv);
    }
  }

  lemma GroundedEntry(log: seq<Entry>, e: Entry)
    requires Sound(log) && e in log
    ensures Grounded(log, e) || e.Approved?
  {
    var j :| 0 <= j < |log| && log[j] == e;
    SoundAt(log, j);
    assert forall x | x in log[..j] :: x in log;
  }

  // ----- Signature counters -----

  /** The counters accepted for one credential id of one person, in order. */
  function History(log: seq<Entry>, sub: string, id: string): seq<nat> {
    if log == [] then [] else
    var e := log[|log| - 1];
    History(log[..|log| - 1], sub, id) + (if e.Checked? && e.sub == sub && e.id == id then [e.counter] else [])
  }

  /** Zeros, then strictly increasing: never lower, never the same unless zero, never back to zero. */
  ghost predicate Climbs(h: seq<nat>) {
    forall i, j | 0 <= i < j < |h| :: (h[i] == 0 && h[j] == 0) || h[i] < h[j]
  }

  /** What a person's credentials say about the history of one id. */
  ghost predicate Fits<K>(ps: seq<Passkey<K>>, h: seq<nat>, id: string) {
    match Find(ps, id)
    case None => h == []
    case Some(i) => Climbs(h) && forall c | c in h :: c <= ps[i].counter
  }

  ghost predicate CounterOk<K>(s: State<K>, sub: string, id: string) {
    Fits(Held(s, sub), History(s.log, sub, id), id)
  }

  lemma {:induction false} FindAfterAppend<K>(ps: seq<Passkey<K>>, p: Passkey<K>, id: string)
    ensures Find(ps, id).Some? ==> Find(ps + [p], id) == Find(ps, id)
    decreases |ps|
  {
    if ps != [] {
      assert (ps + [p])[1..] == ps[1..] + [p];
      FindAfterAppend(ps[1..], p, id);
    }
  }

  lemma {:induction false} FindAfterUpdate<K>(ps: seq<Passkey<K>>, i: nat, p: Passkey<K>, id: string)
    requires i < |ps| && p.id == ps[i].id
    ensures Find(ps[i := p], id) == Find(ps, id)
    decreases |ps|
  {
    if i > 0 {
      assert ps[i := p][1..] == ps[1..][i - 1 := p];
      FindAfterUpdate(ps[1..], i - 1, p, id);
    } else {
      assert ps[i := p][1..] == ps[1..];
    }
  }

  lemma HistoryExtends(log: seq<Entry>, e: Entry, sub: string, id: string)
    ensures History(log + [e], sub, id)
         == if e.Checked? && e.sub == sub && e.id == id then History(log, sub, id) + [e.counter]
            else History(log, sub, id)
  {
    assert (log + [e])[..|log|] == log;
    assert History(log, sub, id) + [] == History(log, sub, id);
  }

  lemma ClimbsOn(h: seq<nat>, top: nat, c: nat)
    requires Climbs(h) && (forall x | x in h :: x <= top) && CounterMoves(top, c)
    ensures Climbs(h + [c]) && forall x | x in h + [c] :: x <= c
  {
    forall i | 0 <= i < |h| ensures h[i] <= top {
      assert h[i] in h;
    }
  }

  ghost predicate CountersOk<K>(s: State<K>) {
    forall sub, id :: CounterOk(s, sub, id)
  }

  lemma FitsAppend<K>(ps: seq<Passkey<K>>, p: Passkey<K>, h: seq<nat>, id: string)
    requires Fits(ps, h, id)
    ensures Fits(ps + [p], h, id)
  {
    FindAfterAppend(ps, p, id);
  }

  /** An accepted check of the credential found under one id moves that id's history on and no other's. */
  lemma FitsUpdate<K>(ps: seq<Passkey<K>>, id: string, counter: nat, h: seq<nat>, x: string)
    requires Fits(ps, h, x) && Find(ps, id).Some? && CounterMoves(ps[Find(ps, id).value].counter, counter)
    ensures var i := Find(ps, id).value;
            Fits(ps[i := ps[i].(counter := counter)], if x == id then h + [counter] else h, x)
  {
    hide CounterMoves, Climbs;
    var i := Find(ps, id).value;
    FindAfterUpdate(ps, i, ps[i].(counter := counter), x);
    if x == id {
      ClimbsOn(h, ps[i].counter, counter);
    }
  }

  lemma RegisterCounters<K, S>(s: State<K>, sub: string, c: Party, body: Body<K, S>, now: int)
    requires CountersOk(s)
    ensures CountersOk(Register(s, sub, c, body, now).0)
  {
    hide Fits, History;
    var (t, v) := Register(s, sub, c, body, now);
    forall x, id ensures CounterOk(t, x, id) {
      assert CounterOk(s, x, id) && CounterOk(s, sub, id);
      if v == Accepted {
        HistoryExtends(s.log, Registered(sub, body.client.challenge, now), x, id);
        var p := Passkey(body.id.value, body.key.value, body.auth.counter);
        FitsAppend(Held(s, sub), p, History(s.log, sub, id), id);
      }
    }
  }

  lemma CheckCounters<K, S>(cfg: Config<K, S>, s: State<K>, sub: string, purpose: string, c: Party, body: Body<K, S>,
    now: int)
    requires CountersOk(s)
    ensures CountersOk(Check(cfg, s, sub, purpose, c, body, now).0)
  {
    hide Fits, CounterMoves, History;
    var (t, v) := Check(cfg, s, sub, purpose, c, body, now);
    forall x, id ensures CounterOk(t, x, id) {
      assert CounterOk(s, x, id) && CounterOk(s, sub, id);
      if v == Accepted {
        var e := Checked(sub, purpose, body.client.challenge, body.id.value, body.auth.counter, now);
        HistoryExtends(s.log, e, x, id);
        FitsUpdate(Held(s, sub), body.id.value, body.auth.counter, History(s.log, sub, id), id);
      }
    }
  }

  lemma QuietCounters<K>(s: State<K>, t: State<K>, e: Entry)
    requires CountersOk(s) && t.passkeys == s.passkeys && t.log == s.log + [e] && !e.Checked?
    ensures CountersOk(t)
  {
    forall x, id ensures CounterOk(t, x, id) {
      assert CounterOk(s, x, id);
      HistoryExtends(s.log, e, x, id);
    }
  }

  lemma HandleCounters<K, S>(cfg: Config<K, S>, s: State<K>, q: Request<K, S>)
    requires CountersOk(s)
    ensures CountersOk(Handle(cfg, s, q))
  {
    hide CountersOk, Check;
    if s.alive && q.user in cfg.people {
      var sub := cfg.people[q.user];
      var t := Handle(cfg, s, q);
      match q
      case RegisterOptions(_, value, now) => QuietCounters(s, t, Issued(ForRegistration(sub), value, now));
      case DoRegister(_, c, body, now) => RegisterCounters(s, sub, c, body, now);
      case AuthOptions(_, conv, value, now) => QuietCounters(s, t, Issued(ForStepUp(sub, conv), value, now));
      case StepUp(_, conv, c, body, now, later) =>
        CheckCounters(cfg, s, sub, AuthPurpose(sub, conv), c, body, now);
        var passkey := Held(s, sub) != [];
        var (u, v) := if passkey then Check(cfg, s, sub, AuthPurpose(sub, conv), c, body, now) else (s, Accepted);
        if v == Accepted {
          QuietCounters(u, t, Approved(sub, conv, later + cfg.ttl, passkey));
        }
    }
  }

  lemma {:induction false} RunCounters<K, S>(cfg: Config<K, S>, s: State<K>, qs: seq<Request<K, S>>)
    requires CountersOk(s)
    ensures CountersOk(Run(cfg, s, qs))
    decreases |qs|
  {
    hide CountersOk, Handle;
    if qs != [] {
      HandleCounters(cfg, s, qs[0]);
      RunCounters(cfg, Handle(cfg, s, qs[0]), qs[1..]);
    }
  }

  /** Counter history: over any run each credential's accepted counters are zeros, then strictly increasing. */
  lemma CountersClimb<K, S>(cfg: Config<K, S>, qs: seq<Request<K, S>>, sub: string, id: string)
    ensures Climbs(History(Run(cfg, Initial(), qs).log, sub, id))
  {
    hide Run;
    RunCounters(cfg, Initial(), qs);
    assert CounterOk(Run(cfg, Initial(), qs), sub, id);
  }
}
