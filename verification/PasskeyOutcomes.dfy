/** What each passkey request comes to, with its conditions written out: when a sign-in or a registration
    succeeds, how it is refused otherwise, and for how long a started ceremony can be finished. */
module PasskeyOutcomes {
  import opened Prelude
  import opened Passkeys
  import opened PasskeyRuns

  /** A challenge of this kind is there and has not expired. */
  predicate Live(s: State, sid: SessionId, kind: Kind) {
    sid in s.challenges && s.challenges[sid].kind == kind && s.now <= s.challenges[sid].expiresAt
  }

  /** The count moves forward, or the authenticator keeps none. */
  predicate MovesForward(k: Passkey, c: nat) {
    k.device == MultiDevice || c > k.count || (c == 0 && k.count == 0)
  }

  // ---------- Signing in

  lemma KeyWith(s: State, p: Id, c: CredentialId)
    requires UniqueCredentials(s.passkeys)
    ensures ByCredential(s.passkeys, c) == Some(p) <==> p in s.passkeys && s.passkeys[p].credential == c
  {
  }

  /** Exactly when a sign-in succeeds: the session has a live challenge of the right kind, the credential is
      that of the owner's active key, the answer is verified and its count moves forward, and a touch-only
      key comes after the owner's password. */
  lemma SignInIff(s: State, sid: SessionId, cookie: bool, credential: Option<CredentialId>, answer: Option<nat>,
                  bridge: Option<UserId>, p: Id, owner: UserId, c: nat)
    requires UniqueCredentials(s.passkeys)
    ensures Step(s, AuthFinish(sid, cookie, credential, answer, bridge)).1 == Authenticated(p, owner, c) <==>
              && cookie && Live(s, sid, Authenticating)
              && p in s.passkeys && credential == Some(s.passkeys[p].credential) && s.passkeys[p].user == owner
              && s.passkeys[p].revokedAt == None
              && answer == Some(c) && MovesForward(s.passkeys[p], c)
              && (s.passkeys[p].touchOnly ==> bridge == Some(owner))
  {
    if credential.Some? {
      KeyWith(s, p, credential.value);
    }
  }

  /** A sign-in stores the count and the time of use, uses up the challenge, and changes nothing else. */
  lemma SignInUpdates(s: State, e: Event)
    requires e.AuthFinish? && Step(s, e).1.Authenticated?
    ensures
      var (after, o) := Step(s, e);
      && o.key in s.passkeys
      && after == s.(challenges := s.challenges - {e.sid},
                     passkeys := s.passkeys[o.key := s.passkeys[o.key].(count := o.count, lastUsedAt := Some(s.now))])
  {
  }

  const EXPIRED: Response := Failure(Http(400, "Passkey session expired. Please try again."))
  const UNVERIFIED: Response := Failure(Http(400, "Could not verify the passkey response."))
  const UNKNOWN: Response := Failure(Http(401, "Unknown or revoked passkey."))

  const WARNED: Response :=
    Failure(Http(401, "Authenticator integrity check failed. Please try again or contact your administrator."))
  const DISABLED: Response :=
    Failure(Http(401, "This passkey has been disabled due to repeated integrity failures. Please re-register it."))
  const SECOND_FACTOR: Response :=
    Failure(Http(401, "This passkey can only be used as a second factor. Please sign in with your password first."))
  const NOT_YOURS: Response := Failure(Http(401, "Passkey does not belong to the authenticating user."))

  /** Before a key is looked up: what a sign-in without a proper session or credential is told. */
  lemma SignInRefusedEarly(s: State, e: Event)
    requires e.AuthFinish?
    ensures
      var r := ToResponse(Step(s, e).1);
      && (!e.cookie ==> r == Failure(Http(400, "Passkey session missing or mismatch.")))
      && (e.cookie && !Live(s, e.sid, Authenticating) ==> r == EXPIRED)
      && (e.cookie && Live(s, e.sid, Authenticating) && e.credential.None? ==>
            r == Failure(Http(400, "Malformed credential.")))
  {
  }

  /** The event answers a live challenge with the credential of the active key `p`. */
  ghost predicate Presents(s: State, e: Event, p: Id) {
    && e.AuthFinish? && e.cookie && Live(s, e.sid, Authenticating)
    && p in s.passkeys && s.passkeys[p].revokedAt == None && e.credential == Some(s.passkeys[p].credential)
  }

  /** A credential that is no active key's is refused as unknown. */
  lemma UnknownKeyIsRefused(s: State, e: Event)
    requires UniqueCredentials(s.passkeys) && e.AuthFinish? && e.cookie && Live(s, e.sid, Authenticating)
    requires e.credential.Some? && forall p :: !Presents(s, e, p)
    ensures ToResponse(Step(s, e).1) == UNKNOWN
  {
    var p := ByCredential(s.passkeys, e.credential.value);
    if p.Some? {
      assert !Presents(s, e, p.value);
    }
  }

  lemma PresentedIsAnswered(s: State, e: Event, p: Id)
    requires UniqueCredentials(s.passkeys) && Presents(s, e, p)
    ensures Step(s, e) == if e.answer.None? then (Consume(s, e.sid), Refused(VerificationFailed, Some(p)))
                          else Answer(Consume(s, e.sid), p, e.answer.value, e.bridge)
  {
    hide Answer;
    KeyWith(s, p, e.credential.value);
  }

  /** An active key's answer that does not verify is refused, and the key left as it was. */
  lemma UnverifiedIsRefused(s: State, e: Event, p: Id)
    requires UniqueCredentials(s.passkeys) && Presents(s, e, p) && e.answer.None?
    ensures ToResponse(Step(s, e).1) == UNVERIFIED && Step(s, e).0.passkeys == s.passkeys
  {
    PresentedIsAnswered(s, e, p);
  }

  /** A count that does not move forward: the key is disabled if it was warned about less than a day before,
      and warned about otherwise. */
  lemma BackwardCountIsRefused(s: State, e: Event, p: Id)
    requires UniqueCredentials(s.passkeys) && Presents(s, e, p)
    requires e.answer.Some? && !MovesForward(s.passkeys[p], e.answer.value)
    ensures
      var (after, o) := Step(s, e);
      var k := s.passkeys[p];
      if k.lastRegressionAt.Some? && s.now - k.lastRegressionAt.value < 86_400_000_000 then
        && ToResponse(o) == DISABLED
        && after.passkeys == s.passkeys[p := k.(revokedAt := Some(s.now))]
      else
        && ToResponse(o) == WARNED
        && after.passkeys == s.passkeys[p := k.(lastRegressionAt := Some(s.now))]
  {
    PresentedIsAnswered(s, e, p);
    hide Step, UniqueCredentials, Presents;
  }

  /** A touch-only key without its owner's password is refused, and left as it was. */
  lemma TouchOnlyIsRefused(s: State, e: Event, p: Id)
    requires UniqueCredentials(s.passkeys) && Presents(s, e, p)
    requires e.answer.Some? && MovesForward(s.passkeys[p], e.answer.value)
    requires s.passkeys[p].touchOnly && e.bridge != Some(s.passkeys[p].user)
    ensures
      var (after, o) := Step(s, e);
      && after.passkeys == s.passkeys
      && ToResponse(o) == if e.bridge.None? then SECOND_FACTOR else NOT_YOURS
  {
    PresentedIsAnswered(s, e, p);
    hide Step, UniqueCredentials, Presents;
  }

  // ---------- Registering

  /** Some key, revoked or not, has this credential. */
  ghost predicate Enrolled(s: State, c: CredentialId) {
    exists p :: p in s.passkeys && s.passkeys[p].credential == c
  }

  /** Exactly when a registration succeeds: the session has a live challenge of the right kind and of the same
      user, the response is verified, and its credential is new. */
  lemma RegistrationIff(s: State, e: Event)
    requires e.RegisterFinish? && e.id !in s.passkeys
    ensures Step(s, e).1 == Registered(e.id) <==>
              && e.cookie && Live(s, e.sid, Registering) && s.challenges[e.sid].user == Some(e.user)
              && e.attested.Some? && !Enrolled(s, e.attested.value.credential)
  {
  }

  /** What a registration is told that does not succeed. */
  lemma RegistrationRefused(s: State, e: Event)
    requires e.RegisterFinish? && e.id !in s.passkeys
    ensures
      var r := ToResponse(Step(s, e).1);
      && (!e.cookie ==> r == Failure(Http(400, "Passkey session missing or mismatch.")))
      && (e.cookie && !(Live(s, e.sid, Registering) && s.challenges[e.sid].user == Some(e.user)) ==> r == EXPIRED)
      && (e.cookie && Live(s, e.sid, Registering) && s.challenges[e.sid].user == Some(e.user) ==>
            && (e.attested.None? ==> r == UNVERIFIED)
            && (e.attested.Some? && Enrolled(s, e.attested.value.credential) ==>
                  r == Failure(Http(400, "Could not register this passkey. It may already be in use."))))
  {
  }

  // ---------- How long a started ceremony lasts

  /** A ceremony that was started can be finished for 120 seconds, and no longer. */
  lemma SignInWithinTwoMinutes(s: State, sid: SessionId, username: Option<string>, span: nat,
                               credential: CredentialId, answer: nat, bridge: Option<UserId>, p: Id)
    requires UniqueCredentials(s.passkeys) && sid !in s.challenges && p in s.passkeys
    requires
      var k := s.passkeys[p];
      && k.revokedAt == None && k.credential == credential && MovesForward(k, answer)
      && (k.touchOnly ==> bridge == Some(k.user))
    ensures
      var started := Step(s, AuthStart(sid, username)).0;
      var later := Step(started, Wait(span)).0;
      (Step(later, AuthFinish(sid, true, Some(credential), Some(answer), bridge)).1 ==
         Authenticated(p, s.passkeys[p].user, answer)) <==> span <= 120_000_000
  {
    hide FinishAuthentication, OfferTo, MovesForward;
    var later := Step(Step(s, AuthStart(sid, username)).0, Wait(span)).0;
    assert later.passkeys == s.passkeys && later.now == s.now + span;
    assert later.challenges == s.challenges[sid := Challenge(Authenticating, Account(s, username),
                                                             s.now + 120_000_000)];
    SignInIff(later, sid, true, Some(credential), Some(answer), bridge, p, s.passkeys[p].user, answer);
  }

  lemma RegisterWithinTwoMinutes(s: State, user: UserId, sid: SessionId, span: nat, attested: Attested, id: Id)
    requires sid !in s.challenges && id !in s.passkeys
    requires !Enrolled(s, attested.credential)
    ensures
      var started := Step(s, RegisterStart(user, sid)).0;
      var later := Step(started, Wait(span)).0;
      Step(later, RegisterFinish(user, sid, true, Some(attested), id)).1 == Registered(id) <==> span <= 120_000_000
  {
    hide FinishRegistration, ActiveCredentials;
    var later := Step(Step(s, RegisterStart(user, sid)).0, Wait(span)).0;
    assert later.passkeys == s.passkeys && later.now == s.now + span;
    assert later.challenges == s.challenges[sid := Challenge(Registering, Some(user), s.now + 120_000_000)];
    RegistrationIff(later, RegisterFinish(user, sid, true, Some(attested), id));
  }

  // ---------- Starting, revoking, cleaning up

  /** A registration offers exactly the user's own active credentials, for the browser to exclude. */
  lemma RegistrationExcludesOwn(s: State, user: UserId, sid: SessionId, c: CredentialId)
    requires sid !in s.challenges
    ensures
      var o := Step(s, RegisterStart(user, sid)).1;
      && o.Started? && o.offer.Own?
      && (c in o.offer.ids <==>
            exists p :: p in s.passkeys && s.passkeys[p].user == user && s.passkeys[p].revokedAt == None &&
                        s.passkeys[p].credential == c)
  {
  }

  /** Signing in without a name lists no credential; a name lists its account's active ones, or fakes. */
  lemma SignInOffers(s: State, sid: SessionId, username: Option<string>, c: CredentialId)
    requires sid !in s.challenges
    ensures
      var o := Step(s, AuthStart(sid, username)).1;
      && o.Started?
      && (o.offer.Unlisted? <==> username == None || username == Some(""))
      && (o.offer.Own? ==>
            username.Some? && username.value in s.accounts &&
            (c in o.offer.ids <==>
               exists p :: p in s.passkeys && s.passkeys[p].user == s.accounts[username.value] &&
                           s.passkeys[p].revokedAt == None && s.passkeys[p].credential == c))
  {
  }

  /** A key is revoked by its own user while it is active; nothing else changes, and nobody else can. */
  lemma RevokeIff(s: State, id: Id, user: UserId)
    ensures
      var (after, o) := Step(s, Revoke(id, user));
      var own := id in s.passkeys && s.passkeys[id].user == user && s.passkeys[id].revokedAt == None;
      && o == Revoked(own)
      && after == if own then s.(passkeys := s.passkeys[id := s.passkeys[id].(revokedAt := Some(s.now))]) else s
  {
  }

  /** A clean-up keeps exactly the challenges that can still be answered. */
  lemma CleanupKeepsLiveOnes(s: State, sid: SessionId)
    ensures
      var after := Step(s, Cleanup).0;
      && after == s.(challenges := after.challenges)
      && (sid in after.challenges <==> Live(s, sid, Registering) || Live(s, sid, Authenticating))
      && (sid in after.challenges ==> after.challenges[sid] == s.challenges[sid])
  {
  }
}
