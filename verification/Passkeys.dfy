/** The passkey ceremonies as steps on the credential and challenge tables. The cryptographic check of
    an authenticator's answer is an oracle carried by each finish event. */
module Passkeys {
  import opened Prelude

  type Id = string
  type UserId = string
  type SessionId = string
  type CredentialId = string
  type Time = int  // microseconds

  const SECOND: int := 1_000_000
  const CHALLENGE_TTL: int := 120 * SECOND
  const REGRESSION_REVOKE_WINDOW: int := 24 * 3600 * SECOND

  datatype DeviceType = SingleDevice | MultiDevice

  datatype Passkey = Passkey(
    user: UserId,
    credential: CredentialId,
    count: nat,
    aaguid: Option<string>,
    touchOnly: bool,
    device: DeviceType,
    lastUsedAt: Option<Time>,
    revokedAt: Option<Time>,
    lastRegressionAt: Option<Time>)

  datatype Kind = Registering | Authenticating
  datatype Challenge = Challenge(kind: Kind, user: Option<UserId>, expiresAt: Time)

  datatype State = State(
    accounts: map<string, UserId>,
    passkeys: map<Id, Passkey>,
    challenges: map<SessionId, Challenge>,
    now: Time)

  /** What a verified registration response says. */
  datatype Attested = Attested(credential: CredentialId, count: nat, aaguid: string, userVerified: bool,
                               transports: seq<string>, deviceType: string)

  /** One request, the passing of time, or the clean-up job. `cookie` says whether the session cookie
      matches the session id; `id` is the id drawn for a new passkey; an answer of None is a response
      that fails verification. */
  datatype Event =
    | Wait(span: nat)
    | RegisterStart(user: UserId, sid: SessionId)
    | RegisterFinish(user: UserId, sid: SessionId, cookie: bool, attested: Option<Attested>, id: Id)
    | AuthStart(sid: SessionId, username: Option<string>)
    | AuthFinish(sid: SessionId, cookie: bool, credential: Option<CredentialId>, answer: Option<nat>,
                 bridge: Option<UserId>)
    | Revoke(id: Id, user: UserId)
    | Cleanup

  datatype Error =
    | ChallengeMissingOrExpired
    | WrongChallengeKind
    | ChallengeUserMismatch
    | VerificationFailed
    | CredentialAlreadyRegistered
    | MalformedCredential
    | CredentialNotFoundOrRevoked
    | IntegrityWarning
    | IntegrityFailedRevoked
    | RequiresPasswordFirst
    | UserMismatch

  /** The credentials offered to a browser: none listed, a user's own, or the fakes for a name. */
  datatype Offer = Unlisted | Own(ids: set<CredentialId>) | Fake(username: string)

  datatype Outcome =
    | Silent
    | Started(offer: Offer)
    | CookieMismatch
    | Refused(error: Error, on: Option<Id>)
    | Registered(key: Id)
    | Authenticated(key: Id, owner: UserId, count: nat)
    | Revoked(found: bool)
    | Crashed  // a primary key clash: the request fails and its transaction is rolled back

  // ---------- Responses

  datatype Http = Http(status: int, message: string)

  function ErrorToHttp(e: Error): Http {
    match e
    case ChallengeMissingOrExpired => Http(400, "Passkey session expired. Please try again.")
    case WrongChallengeKind => Http(400, "Passkey session expired. Please try again.")
    case ChallengeUserMismatch => Http(400, "Passkey session expired. Please try again.")
    case VerificationFailed => Http(400, "Could not verify the passkey response.")
    case CredentialAlreadyRegistered => Http(400, "Could not register this passkey. It may already be in use.")
    case MalformedCredential => Http(400, "Malformed credential.")
    case CredentialNotFoundOrRevoked => Http(401, "Unknown or revoked passkey.")
    case IntegrityWarning =>
      Http(401, "Authenticator integrity check failed. Please try again or contact your administrator.")
    case IntegrityFailedRevoked =>
      Http(401, "This passkey has been disabled due to repeated integrity failures. Please re-register it.")
    case RequiresPasswordFirst =>
      Http(401, "This passkey can only be used as a second factor. Please sign in with your password first.")
    case UserMismatch => Http(401, "Passkey does not belong to the authenticating user.")
  }

  /** What the client sees of an outcome. */
  datatype Response = Success(outcome: Outcome) | Failure(http: Http)

  function ToResponse(o: Outcome): Response {
    match o
    case Refused(e, _) => Failure(ErrorToHttp(e))
    case CookieMismatch => Failure(Http(400, "Passkey session missing or mismatch."))
    case Crashed => Failure(Http(500, "Internal Server Error"))
    case _ => Success(o)
  }

  // ---------- Derived attributes of a new key

  predicate OccursAt(s: string, part: string, i: int) {
    0 <= i <= |s| - |part| && s[i..i + |part|] == part
  }

  predicate Contains(s: string, part: string) {
    exists i :: 0 <= i <= |s| && OccursAt(s, part, i)
  }

  function DeriveDeviceType(text: string): DeviceType {
    var lower := seq(|text|, i requires 0 <= i < |text| => LowerChar(text[i]));
    if Contains(lower, "multi") then MultiDevice else SingleDevice
  }

  predicate DeriveTouchOnly(userVerified: bool, transports: seq<string>) {
    !userVerified && "internal" !in transports
  }

  function DeriveAaguid(aaguid: string): Option<string> {
    if aaguid == "" then None else Some(aaguid)
  }

  // ---------- Steps

  ghost function ByCredential(keys: map<Id, Passkey>, c: CredentialId): (r: Option<Id>)
    ensures r.Some? ==> r.value in keys && keys[r.value].credential == c
    ensures r.None? ==> forall p :: p in keys ==> keys[p].credential != c
  {
    if exists p :: p in keys && keys[p].credential == c then
      var p :| p in keys && keys[p].credential == c;
      Some(p)
    else
      None
  }

  predicate Active(k: Passkey) {
    k.revokedAt.None?
  }

  ghost function ActiveCredentials(s: State, user: UserId): set<CredentialId> {
    set p | p in s.passkeys && s.passkeys[p].user == user && Active(s.passkeys[p]) :: s.passkeys[p].credential
  }

  function Consume(s: State, sid: SessionId): State {
    s.(challenges := s.challenges - {sid})
  }

  ghost function Start(s: State, sid: SessionId, c: Challenge, offer: Offer): (State, Outcome) {
    if sid in s.challenges then (s, Crashed)
    else (s.(challenges := s.challenges[sid := c]), Started(offer))
  }

  /** Touch-only keys of the same user and model that a verified registration supersedes. */
  predicate Superseded(k: Passkey, user: UserId, aaguid: Option<string>) {
    k.user == user && k.aaguid == aaguid && k.touchOnly && Active(k)
  }

  function Supersede(s: State, user: UserId, aaguid: Option<string>): State {
    s.(passkeys := map p | p in s.passkeys ::
         if Superseded(s.passkeys[p], user, aaguid) then s.passkeys[p].(revokedAt := Some(s.now)) else s.passkeys[p])
  }

  function NewKey(user: UserId, a: Attested): Passkey {
    Passkey(user, a.credential, a.count, DeriveAaguid(a.aaguid), DeriveTouchOnly(a.userVerified, a.transports),
            DeriveDeviceType(a.deviceType), None, None, None)
  }

  ghost function Enroll(s: State, user: UserId, a: Attested, id: Id): (State, Outcome) {
    if ByCredential(s.passkeys, a.credential).Some? then (s, Refused(CredentialAlreadyRegistered, None))
    else
      var s' := if a.userVerified then Supersede(s, user, DeriveAaguid(a.aaguid)) else s;
      (s'.(passkeys := s'.passkeys[id := NewKey(user, a)]), Registered(id))
  }

  ghost function FinishRegistration(s: State, e: Event): (State, Outcome)
    requires e.RegisterFinish?
  {
    if e.sid !in s.challenges then (s, Refused(ChallengeMissingOrExpired, None))
    else
      var c, s' := s.challenges[e.sid], Consume(s, e.sid);
      if c.kind != Registering then (s', Refused(WrongChallengeKind, None))
      else if c.user != Some(e.user) then (s', Refused(ChallengeUserMismatch, None))
      else if c.expiresAt < s.now then (s', Refused(ChallengeMissingOrExpired, None))
      else if e.attested.None? then (s', Refused(VerificationFailed, None))
      else if e.id in s.passkeys && ByCredential(s.passkeys, e.attested.value.credential).None? then (s, Crashed)
      else Enroll(s', e.user, e.attested.value, e.id)
  }

  /** The new count does not move forward, and the counter is in use. */
  predicate Regression(k: Passkey, count: nat) {
    k.device.SingleDevice? && count <= k.count && !(count == 0 && k.count == 0)
  }

  predicate RecentRegression(k: Passkey, now: Time) {
    k.lastRegressionAt.Some? && now - k.lastRegressionAt.value < REGRESSION_REVOKE_WINDOW
  }

  /** A verified answer for the active key `p`. */
  function Answer(s: State, p: Id, count: nat, bridge: Option<UserId>): (State, Outcome)
    requires p in s.passkeys
  {
    var k := s.passkeys[p];
    if Regression(k, count) then
      if RecentRegression(k, s.now) then
        (s.(passkeys := s.passkeys[p := k.(revokedAt := Some(s.now))]), Refused(IntegrityFailedRevoked, Some(p)))
      else
        (s.(passkeys := s.passkeys[p := k.(lastRegressionAt := Some(s.now))]), Refused(IntegrityWarning, Some(p)))
    else if k.touchOnly && bridge.None? then (s, Refused(RequiresPasswordFirst, Some(p)))
    else if k.touchOnly && bridge != Some(k.user) then (s, Refused(UserMismatch, Some(p)))
    else (s.(passkeys := s.passkeys[p := k.(count := count, lastUsedAt := Some(s.now))]),
          Authenticated(p, k.user, count))
  }

  ghost function FinishAuthentication(s: State, e: Event): (State, Outcome)
    requires e.AuthFinish?
  {
    if e.sid !in s.challenges then (s, Refused(ChallengeMissingOrExpired, None))
    else
      var c, s' := s.challenges[e.sid], Consume(s, e.sid);
      if c.kind != Authenticating then (s', Refused(WrongChallengeKind, None))
      else if c.expiresAt < s.now then (s', Refused(ChallengeMissingOrExpired, None))
      else if e.credential.None? then (s', Refused(MalformedCredential, None))
      else
        var p := ByCredential(s.passkeys, e.credential.value);
        if p.None? || !Active(s.passkeys[p.value]) then (s', Refused(CredentialNotFoundOrRevoked, p))
        else if e.answer.None? then (s', Refused(VerificationFailed, p))
        else Answer(s', p.value, e.answer.value, e.bridge)
  }

  /** The account a name stands for; an empty name counts as no name. */
  function Account(s: State, username: Option<string>): Option<UserId> {
    if Truthy(username) && username.value in s.accounts then Some(s.accounts[username.value]) else None
  }

  ghost function OfferTo(s: State, username: Option<string>): Offer {
    if !Truthy(username) then Unlisted
    else
      var user := Account(s, username);
      if user.Some? && ActiveCredentials(s, user.value) != {} then Own(ActiveCredentials(s, user.value))
      else Fake(username.value)
  }

  ghost function Step(s: State, e: Event): (State, Outcome) {
    match e
    case Wait(span) => (s.(now := s.now + span), Silent)
    case RegisterStart(user, sid) =>
      Start(s, sid, Challenge(Registering, Some(user), s.now + CHALLENGE_TTL), Own(ActiveCredentials(s, user)))
    case RegisterFinish(_, _, cookie, _, _) => if cookie then FinishRegistration(s, e) else (s, CookieMismatch)
    case AuthStart(sid, username) =>
      Start(s, sid, Challenge(Authenticating, Account(s, username), s.now + CHALLENGE_TTL), OfferTo(s, username))
    case AuthFinish(_, cookie, _, _, _) => if cookie then FinishAuthentication(s, e) else (s, CookieMismatch)
    case Revoke(id, user) =>
      if id in s.passkeys && s.passkeys[id].user == user && Active(s.passkeys[id]) then
        (s.(passkeys := s.passkeys[id := s.passkeys[id].(revokedAt := Some(s.now))]), Revoked(true))
      else (s, Revoked(false))
    case Cleanup =>
      (s.(challenges := map sid | sid in s.challenges && s.challenges[sid].expiresAt >= s.now :: s.challenges[sid]),
       Silent)
  }

  // ---------- Runs

  /** The state before the `k`-th event of a run. */
  ghost function At(s: State, es: seq<Event>, k: nat): State
    requires k <= |es|
  {
    if k == 0 then s else Step(At(s, es, k - 1), es[k - 1]).0
  }

  ghost function OutcomeAt(s: State, es: seq<Event>, k: nat): Outcome
    requires k < |es|
  {
    Step(At(s, es, k), es[k]).1
  }
}
