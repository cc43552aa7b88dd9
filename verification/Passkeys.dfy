/** The integrator's passkey step-up: challenges, credentials, signature counters and expiring approvals. */
module Passkeys {
  import opened Optional

  const CHALLENGE_TTL: int := 60_000

  /** A stored credential; K stands for public keys. */
  datatype Passkey<K> = Passkey(id: string, key: K, counter: nat)

  datatype Challenge = Challenge(value: string, expires: int)

  /** The relying party as the request saw it. */
  datatype Party = Party(origin: string, rpId: string)

  /** The client data a browser signs, once parsed. */
  datatype ClientData = Malformed | JsonNull | Client(kind: string, challenge: string, origin: string)

  /** The authenticator data, once split; Short has fewer than 37 bytes. */
  datatype AuthData = Short | AuthData(rpId: string, present: bool, verified: bool, counter: nat)

  /** What a browser posts; key is None when the public key does not parse. S stands for signatures. */
  datatype Body<K, S> = Body(
    id: Option<string>, es256: bool, key: Option<K>, client: ClientData, auth: AuthData, signature: S)

  datatype Why =
    | BadClientData | WrongCeremony | BadChallenge | WrongOrigin | WrongParty | NotPresent
    | OnlyEs256 | BadKey | UnknownPasskey | BadSignature | CounterBack

  /** A refusal, an acceptance, or an exception nobody catches: the process ends. */
  datatype Verdict = Accepted | Refused(why: Why) | Crashed

  /** Who asked for a challenge, and what for. */
  datatype Asker = ForRegistration(sub: string) | ForStepUp(sub: string, conv: string)
  {
    /** The one text both are filed under. */
    function Purpose(): string {
      match this case ForRegistration(sub) => RegPurpose(sub) case ForStepUp(sub, conv) => AuthPurpose(sub, conv)
    }
  }

  /** What happened, in order. */
  datatype Entry =
    | Issued(who: Asker, value: string, time: int)
    | Registered(sub: string, value: string, time: int)
    | Checked(sub: string, purpose: string, value: string, id: string, counter: nat, time: int)
    | Approved(sub: string, conv: string, until: int, passkey: bool)

  datatype State<K> = State(
    passkeys: map<string, seq<Passkey<K>>>, challenges: map<string, Challenge>, elevations: map<string, int>,
    alive: bool, log: seq<Entry>)

  /** What verifying a signature gives; a key of another kind than the algorithm's makes it throw. */
  datatype Verification = Verified | NotVerified | Throws

  /** Who may ask, how signatures verify and how long an approval lasts. */
  datatype Config<!K, !S> = Config(
    people: map<string, string>, verify: (K, ClientData, AuthData, S) -> Verification, ttl: int)
  {
    /** No person's identifier contains the separator of the keys. */
    ghost predicate Valid() {
      forall u | u in people :: ':' !in people[u]
    }
  }

  /** Who every name is that a plain object has besides its own. */
  const NOBODY := "fleetline.undefined"

  const FLEETLINE: map<string, string> := map[
    "admin" := "fleetline.2", "agent" := "fleetline.1", "user" := "fleetline.7", "none" := "fleetline.40",
    "driver" := "fleetline.4411",
    "constructor" := NOBODY, "toString" := NOBODY, "toLocaleString" := NOBODY, "valueOf" := NOBODY,
    "hasOwnProperty" := NOBODY, "isPrototypeOf" := NOBODY, "propertyIsEnumerable" := NOBODY, "__proto__" := NOBODY,
    "__defineGetter__" := NOBODY, "__defineSetter__" := NOBODY, "__lookupGetter__" := NOBODY,
    "__lookupSetter__" := NOBODY]

  lemma FleetlineValid<K, S>(verify: (K, ClientData, AuthData, S) -> Verification, ttl: int)
    ensures Config(FLEETLINE, verify, ttl).Valid()
  {}

  function RegPurpose(sub: string): string {
    "reg:" + sub
  }

  function AuthPurpose(sub: string, conv: string): string {
    "auth:" + (sub + ":" + conv)
  }

  function ElevationKey(sub: string, conv: string): string {
    sub + ":" + conv
  }

  function Held<K>(s: State<K>, sub: string): seq<Passkey<K>> {
    if sub in s.passkeys then s.passkeys[sub] else []
  }

  /** The first credential with this id. */
  function Find<K>(ps: seq<Passkey<K>>, id: string): (r: Option<nat>)
    ensures r.Some? ==> r.value < |ps| && ps[r.value].id == id && forall j | 0 <= j < r.value :: ps[j].id != id
    ensures r.None? ==> forall j | 0 <= j < |ps| :: ps[j].id != id
  {
    if ps == [] then None
    else if ps[0].id == id then Some(0)
    else match Find(ps[1..], id) case None => None case Some(i) => Some(i + 1)
  }

  // ----- passkeys.ts -----

  function IssueChallenge<K>(s: State<K>, who: Asker, value: string, now: int): State<K> {
    s.(challenges := s.challenges[who.Purpose() := Challenge(value, now + CHALLENGE_TTL)],
       log := s.log + [Issued(who, value, now)])
  }

  /** Why a ceremony is refused, once its challenge has been taken out. */
  function CeremonyChecks(kind: string, issued: Option<Challenge>, c: Party, client: ClientData, auth: AuthData,
    now: int): Verdict
    requires client.Client?
  {
    if client.kind != kind then Refused(WrongCeremony)
    else if issued.None? || issued.value.expires < now || client.challenge != issued.value.value then
      Refused(BadChallenge)
    else if client.origin != c.origin then Refused(WrongOrigin)
    else if auth.Short? || auth.rpId != c.rpId then Refused(WrongParty)
    else if !auth.present || !auth.verified then Refused(NotPresent)
    else Accepted
  }

  function Take<K>(s: State<K>, purpose: string): State<K> {
    s.(challenges := s.challenges - {purpose})
  }

  function Outstanding<K>(s: State<K>, purpose: string): Option<Challenge> {
    if purpose in s.challenges then Some(s.challenges[purpose]) else None
  }

  /** `ceremony`. Text that is not JSON leaves the challenge; anything else uses it up. */
  function Ceremony<K>(s: State<K>, kind: string, purpose: string, c: Party, client: ClientData, auth: AuthData,
    now: int): (State<K>, Verdict)
  {
    match client
    case Malformed => (s, Refused(BadClientData))
    case JsonNull => (Take(s, purpose).(alive := false), Crashed)
    case Client(_, _, _) =>
      (Take(s, purpose), CeremonyChecks(kind, Outstanding(s, purpose), c, client, auth, now))
  }

  function Register<K, S>(s: State<K>, sub: string, c: Party, body: Body<K, S>, now: int): (State<K>, Verdict) {
    var (t, v) := Ceremony(s, "webauthn.create", RegPurpose(sub), c, body.client, body.auth, now);
    if v != Accepted then (t, v)
    else if !body.es256 || body.id.None? then (t, Refused(OnlyEs256))
    else if body.key.None? then (t, Refused(BadKey))
    else
      var p := Passkey(body.id.value, body.key.value, body.auth.counter);
      (t.(passkeys := t.passkeys[sub := Held(t, sub) + [p]],
          log := t.log + [Registered(sub, body.client.challenge, now)]), Accepted)
  }

  /** The signature counter rule: synced credentials stay at zero, any other moves forward. */
  predicate CounterMoves(old_: nat, new_: nat) {
    (old_ == 0 && new_ == 0) || old_ < new_
  }

  function Check<K, S>(cfg: Config<K, S>, s: State<K>, sub: string, purpose: string, c: Party, body: Body<K, S>,
    now: int): (State<K>, Verdict)
  {
    var ps := Held(s, sub);
    if body.id.None? || Find(ps, body.id.value).None? then (s, Refused(UnknownPasskey)) else
    var i := Find(ps, body.id.value).value;
    var (t, v) := Ceremony(s, "webauthn.get", purpose, c, body.client, body.auth, now);
    if v != Accepted then (t, v)
    else if cfg.verify(ps[i].key, body.client, body.auth, body.signature) == Throws then (t.(alive := false), Crashed)
    else if cfg.verify(ps[i].key, body.client, body.auth, body.signature) == NotVerified then (t, Refused(BadSignature))
    else if !CounterMoves(ps[i].counter, body.auth.counter) then (t, Refused(CounterBack))
    else
      var p := ps[i].(counter := body.auth.counter);
      (t.(passkeys := t.passkeys[sub := ps[i := p]],
          log := t.log + [Checked(sub, purpose, body.client.challenge, body.id.value, body.auth.counter, now)]),
       Accepted)
  }

  // ----- The request switch of server.ts -----

  datatype Request<K, S> =
    | RegisterOptions(user: string, value: string, now: int)
    | DoRegister(user: string, c: Party, body: Body<K, S>, now: int)
    | AuthOptions(user: string, conv: string, value: string, now: int)
    | StepUp(user: string, conv: string, c: Party, body: Body<K, S>, now: int, later: int)

  /** `/step-up`: someone with a passkey must use it, at now; the approval's clock is read later. */
  function DoStepUp<K, S>(cfg: Config<K, S>, s: State<K>, sub: string, conv: string, c: Party, body: Body<K, S>,
    now: int, later: int): State<K>
  {
    var passkey := Held(s, sub) != [];
    var (t, v) := if passkey then Check(cfg, s, sub, AuthPurpose(sub, conv), c, body, now) else (s, Accepted);
    if v != Accepted then t else
    t.(elevations := t.elevations[ElevationKey(sub, conv) := later + cfg.ttl],
       log := t.log + [Approved(sub, conv, later + cfg.ttl, passkey)])
  }

  function Handle<K, S>(cfg: Config<K, S>, s: State<K>, q: Request<K, S>): State<K> {
    if !s.alive || q.user !in cfg.people then s else
    var sub := cfg.people[q.user];
    match q
    case RegisterOptions(_, value, now) => IssueChallenge(s, ForRegistration(sub), value, now)
    case DoRegister(_, c, body, now) => Register(s, sub, c, body, now).0
    case AuthOptions(_, conv, value, now) => IssueChallenge(s, ForStepUp(sub, conv), value, now)
    case StepUp(_, conv, c, body, now, later) => DoStepUp(cfg, s, sub, conv, c, body, now, later)
  }

  function Initial<K>(): State<K> {
    State(map[], map[], map[], true, [])
  }

  function Run<K, S>(cfg: Config<K, S>, s: State<K>, qs: seq<Request<K, S>>): State<K>
    decreases |qs|
  {
    if qs == [] then s else Run(cfg, Handle(cfg, s, qs[0]), qs[1..])
  }

  // ----- The elevation query, and the adapter that asks it -----

  datatype Answer = Answer(elevated: bool, until: int)

  /** `/elevation`: user and conv are whatever the query string says. Seconds are rounded down. */
  function Elevation<K>(s: State<K>, user: string, conv: string, now: int): Answer {
    var key := ElevationKey(user, conv);
    var until := if key in s.elevations then s.elevations[key] else 0;
    Answer(until > now, until / 1000)
  }

  /** A result the adapter hands over, at once or later. */
  datatype Final = Deliver(summary: string, approvedUntil: Option<int>) | Decline(code: string) | Expire

  datatype Outcome = Now(final: Final) | Later(final: Final) | Pending

  const STEP_UP_REQUIRED: string := "step_up_required"

  function Stamp(f: Final, until: int): Final {
    if f.Deliver? then f.(approvedUntil := Some(until)) else f
  }

  /** `stepUp` around a handler: None is an elevation that could not be read. */
  function Guard(answer: Option<Answer>, next: Outcome): Outcome {
    if answer.None? || !answer.value.elevated || answer.value.until == 0 then Now(Decline(STEP_UP_REQUIRED)) else
    match next
    case Now(f) => Now(Stamp(f, answer.value.until))
    case Later(f) => Later(Stamp(f, answer.value.until))
    case Pending => Pending
  }

  // ----- The integrator as a program -----

  class Integrator<K, S> {
    const cfg: Config<K, S>
    var passkeys: map<string, seq<Passkey<K>>>
    var challenges: map<string, Challenge>
    var elevations: map<string, int>
    var alive: bool
    var log: seq<Entry>

    ghost function View(): State<K>
      reads this
    {
      State(passkeys, challenges, elevations, alive, log)
    }

    constructor (cfg: Config<K, S>)
      ensures this.cfg == cfg && View() == Initial()
    {
      this.cfg := cfg;
      passkeys, challenges, elevations, alive, log := map[], map[], map[], true, [];
    }

    method NewChallenge(who: Asker, value: string, now: int)
      modifies `challenges, `log
      ensures View() == IssueChallenge(old(View()), who, value, now)
    {
      challenges := challenges[who.Purpose() := Challenge(value, now + CHALLENGE_TTL)];
      log := log + [Issued(who, value, now)];
    }

    method RunCeremony(kind: string, purpose: string, c: Party, client: ClientData, auth: AuthData, now: int)
      returns (v: Verdict)
      modifies `challenges, `alive
      ensures (View(), v) == Ceremony(old(View()), kind, purpose, c, client, auth, now)
    {
      if client == Malformed {
        return Refused(BadClientData);
      }
      var issued := if purpose in challenges then Some(challenges[purpose]) else None;
      challenges := challenges - {purpose};
      if client == JsonNull {
        alive := false;
        return Crashed;
      }
      v := CeremonyChecks(kind, issued, c, client, auth, now);
    }

    method RegisterPasskey(sub: string, c: Party, body: Body<K, S>, now: int) returns (v: Verdict)
      modifies `passkeys, `challenges, `alive, `log
      ensures (View(), v) == Register(old(View()), sub, c, body, now)
    {
      v := RunCeremony("webauthn.create", RegPurpose(sub), c, body.client, body.auth, now);
      if v != Accepted {
        return;
      }
      if !body.es256 || body.id.None? {
        return Refused(OnlyEs256);
      }
      if body.key.None? {
        return Refused(BadKey);
      }
      var held := if sub in passkeys then passkeys[sub] else [];
      passkeys := passkeys[sub := held + [Passkey(body.id.value, body.key.value, body.auth.counter)]];
      log := log + [Registered(sub, body.client.challenge, now)];
    }

    method CheckPasskey(sub: string, purpose: string, c: Party, body: Body<K, S>, now: int) returns (v: Verdict)
      modifies `passkeys, `challenges, `alive, `log
      ensures (View(), v) == Check(cfg, old(View()), sub, purpose, c, body, now)
    {
      var ps := if sub in passkeys then passkeys[sub] else [];
      if body.id.None? || Find(ps, body.id.value).None? {
        return Refused(UnknownPasskey);
      }
      var i := Find(ps, body.id.value).value;
      v := RunCeremony("webauthn.get", purpose, c, body.client, body.auth, now);
      if v != Accepted {
        return;
      }
      var verification := cfg.verify(ps[i].key, body.client, body.auth, body.signature);
      if verification == Throws {
        alive := false;
        return Crashed;
      }
      if verification == NotVerified {
        return Refused(BadSignature);
      }
      if !CounterMoves(ps[i].counter, body.auth.counter) {
        return Refused(CounterBack);
      }
      passkeys := passkeys[sub := ps[i := ps[i].(counter := body.auth.counter)]];
      log := log + [Checked(sub, purpose, body.client.challenge, body.id.value, body.auth.counter, now)];
    }

    method ApproveStepUp(sub: string, conv: string, c: Party, body: Body<K, S>, now: int, later: int)
      modifies this
      ensures View() == DoStepUp(cfg, old(View()), sub, conv, c, body, now, later)
    {
      var passkey := sub in passkeys && passkeys[sub] != [];
      if passkey {
        var v := CheckPasskey(sub, AuthPurpose(sub, conv), c, body, now);
        if v != Accepted {
          return;
        }
      }
      elevations := elevations[ElevationKey(sub, conv) := later + cfg.ttl];
      log := log + [Approved(sub, conv, later + cfg.ttl, passkey)];
    }

    /** One request of the switch. */
    method Serve(q: Request<K, S>)
      modifies this
      ensures View() == Handle(cfg, old(View()), q)
    {
      if !alive || q.user !in cfg.people {
        return;
      }
      var sub := cfg.people[q.user];
      match q
      case RegisterOptions(_, value, now) => NewChallenge(ForRegistration(sub), value, now);
      case DoRegister(_, c, body, now) => var _ := RegisterPasskey(sub, c, body, now);
      case AuthOptions(_, conv, value, now) => NewChallenge(ForStepUp(sub, conv), value, now);
      case StepUp(_, conv, c, body, now, later) => ApproveStepUp(sub, conv, c, body, now, later);
    }
  }
}
