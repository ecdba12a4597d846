/** The passkey routes over their tables: each request updates the session's rows in place and then
    commits, on a refusal too, or rolls back when it crashes. Every route is proved to take exactly the
    step that the protocol prescribes. */
module PasskeyService {
  import opened Prelude
  import opened Passkeys
  import opened PasskeyRuns

  datatype Tables = Tables(accounts: map<string, UserId>, passkeys: map<Id, Passkey>,
                           challenges: map<SessionId, Challenge>)

  class Session {
    var accounts: map<string, UserId>
    var passkeys: map<Id, Passkey>
    var challenges: map<SessionId, Challenge>
    var committed: Tables

    constructor (accounts: map<string, UserId>)
      ensures Clean() && Snapshot(0) == State(accounts, map[], map[], 0)
    {
      this.accounts, passkeys, challenges := accounts, map[], map[];
      committed := Tables(accounts, map[], map[]);
    }

    ghost function Snapshot(now: Time): State
      reads this
    {
      State(accounts, passkeys, challenges, now)
    }

    ghost predicate Valid()
      reads this
    {
      UniqueCredentials(passkeys)
    }

    /** Between requests nothing is pending. */
    ghost predicate Clean()
      reads this
    {
      Valid() && committed == Tables(accounts, passkeys, challenges)
    }

    method Commit()
      requires Valid()
      modifies this`committed
      ensures Clean()
    {
      committed := Tables(accounts, passkeys, challenges);
    }

    method Rollback()
      requires UniqueCredentials(committed.passkeys)
      modifies this`accounts, this`passkeys, this`challenges
      ensures Clean() && Tables(accounts, passkeys, challenges) == committed
    {
      accounts, passkeys, challenges := committed.accounts, committed.passkeys, committed.challenges;
    }

    /** The row with a credential id, revoked or not. */
    method SelectByCredential(c: CredentialId) returns (r: Option<Id>)
      requires Valid()
      ensures r == ByCredential(passkeys, c)
    {
      var rest := passkeys.Keys;
      while rest != {}
        invariant rest <= passkeys.Keys
        invariant forall p :: p in passkeys && p !in rest ==> passkeys[p].credential != c
        decreases |rest|
      {
        var p :| p in rest;
        if passkeys[p].credential == c {
          return Some(p);
        }
        rest := rest - {p};
      }
      r := None;
    }

    method SelectActiveCredentials(user: UserId, now: Time) returns (ids: set<CredentialId>)
      ensures ids == ActiveCredentials(Snapshot(now), user)
    {
      ids := {};
      var rest := passkeys.Keys;
      while rest != {}
        invariant rest <= passkeys.Keys
        invariant ids == set p | p in passkeys && p !in rest && passkeys[p].user == user
            && Active(passkeys[p]) :: passkeys[p].credential
        decreases |rest|
      {
        var p :| p in rest;
        if passkeys[p].user == user && Active(passkeys[p]) {
          ids := ids + {passkeys[p].credential};
        }
        rest := rest - {p};
      }
    }

    method DeleteChallenge(sid: SessionId) returns (row: Option<Challenge>)
      modifies this`challenges
      ensures row == if sid in old(challenges) then Some(old(challenges)[sid]) else None
      ensures challenges == old(challenges) - {sid}
      ensures row.None? ==> challenges == old(challenges)
    {
      if sid in challenges {
        row := Some(challenges[sid]);
        challenges := challenges - {sid};
      } else {
        row := None;
        assert challenges - {sid} == challenges;
      }
    }

    method PersistChallenge(sid: SessionId, c: Challenge, offer: Offer, ghost now: Time) returns (o: Outcome)
      modifies this`challenges
      ensures (Snapshot(now), o) == Start(old(Snapshot(now)), sid, c, offer)
    {
      if sid in challenges {
        return Crashed;
      }
      challenges := challenges[sid := c];
      o := Started(offer);
    }

    // ---------- Registration

    method RegisterStart(user: UserId, sid: SessionId, now: Time) returns (o: Outcome)
      requires Clean()
      modifies this
      ensures Clean()
      ensures (Snapshot(now), o) == Step(old(Snapshot(now)), Event.RegisterStart(user, sid))
    {
      var exclude := SelectActiveCredentials(user, now);
      o := PersistChallenge(sid, Challenge(Registering, Some(user), now + CHALLENGE_TTL), Own(exclude), now);
      if o == Crashed {
        Rollback();
      } else {
        Commit();
      }
    }

    /** Revoke the active touch-only keys of one user and model. */
    method RevokeSiblings(user: UserId, aaguid: Option<string>, now: Time)
      modifies this`passkeys
      ensures Snapshot(now) == Supersede(old(Snapshot(now)), user, aaguid)
    {
      ghost var before := passkeys;
      var rest := set p | p in passkeys && Superseded(passkeys[p], user, aaguid);
      while rest != {}
        invariant passkeys.Keys == before.Keys && rest <= before.Keys
        invariant forall p :: p in rest ==> Superseded(before[p], user, aaguid)
        invariant forall p :: p in before ==>
          passkeys[p] == if Superseded(before[p], user, aaguid) && p !in rest then before[p].(revokedAt := Some(now))
              else before[p]
        decreases |rest|
      {
        var p :| p in rest;
        passkeys := passkeys[p := passkeys[p].(revokedAt := Some(now))];
        rest := rest - {p};
      }
      assert passkeys == Supersede(old(Snapshot(now)), user, aaguid).passkeys;
    }

    /** Verify a registration and insert its key. */
    method FinishRegister(user: UserId, sid: SessionId, attested: Option<Attested>, id: Id, now: Time)
        returns (o: Outcome)
      requires Valid()
      modifies this`passkeys, this`challenges
      ensures
        var step := FinishRegistration(old(Snapshot(now)), Event.RegisterFinish(user, sid, true, attested, id));
        o == step.1 && (o != Crashed ==> Snapshot(now) == step.0)
    {
      var row := DeleteChallenge(sid);
      if row.None? {
        return Refused(ChallengeMissingOrExpired, None);
      }
      if row.value.kind != Registering {
        return Refused(WrongChallengeKind, None);
      }
      if row.value.user != Some(user) {
        return Refused(ChallengeUserMismatch, None);
      }
      if row.value.expiresAt < now {
        return Refused(ChallengeMissingOrExpired, None);
      }
      if attested.None? {
        return Refused(VerificationFailed, None);
      }
      var a := attested.value;
      var existing := SelectByCredential(a.credential);
      if existing.Some? {
        return Refused(CredentialAlreadyRegistered, None);
      }
      var clash := id in passkeys;
      if a.userVerified {
        RevokeSiblings(user, DeriveAaguid(a.aaguid), now);
      }
      if clash {
        return Crashed;
      }
      passkeys := passkeys[id := NewKey(user, a)];
      o := Registered(id);
    }

    method RegisterFinish(user: UserId, sid: SessionId, cookie: bool, attested: Option<Attested>, id: Id, now: Time)
      returns (o: Outcome)
      requires Clean()
      modifies this
      ensures Clean()
      ensures (Snapshot(now), o) == Step(old(Snapshot(now)), Event.RegisterFinish(user, sid, cookie, attested, id))
    {
      ghost var e := Event.RegisterFinish(user, sid, cookie, attested, id);
      if !cookie {
        return CookieMismatch;
      }
      StepKeepsUnique(Snapshot(now), e);
      o := FinishRegister(user, sid, attested, id, now);
      if o == Crashed {
        Rollback();
      } else {
        Commit();
      }
    }

    // ---------- Authentication

    method AuthenticateStart(sid: SessionId, username: Option<string>, now: Time) returns (o: Outcome)
      requires Clean()
      modifies this
      ensures Clean()
      ensures (Snapshot(now), o) == Step(old(Snapshot(now)), AuthStart(sid, username))
    {
      var offer, user := Unlisted, None;
      if Truthy(username) {
        var allow := {};
        if username.value in accounts {
          user := Some(accounts[username.value]);
          allow := SelectActiveCredentials(user.value, now);
        }
        offer := if allow == {} then Fake(username.value) else Own(allow);
      }
      o := PersistChallenge(sid, Challenge(Authenticating, user, now + CHALLENGE_TTL), offer, now);
      if o == Crashed {
        Rollback();
      } else {
        Commit();
      }
    }

    /** The counter check, the touch-only rule, and the update of the key. */
    method TakeAnswer(p: Id, count: nat, bridge: Option<UserId>, now: Time) returns (o: Outcome)
      requires p in passkeys
      modifies this`passkeys
      ensures (Snapshot(now), o) == Answer(old(Snapshot(now)), p, count, bridge)
    {
      var k := passkeys[p];
      if k.device.SingleDevice? {
        var regression := count <= k.count && !(count == 0 && k.count == 0);
        if regression {
          var recent := k.lastRegressionAt.Some? && now - k.lastRegressionAt.value < REGRESSION_REVOKE_WINDOW;
          if recent {
            passkeys := passkeys[p := k.(revokedAt := Some(now))];
            return Refused(IntegrityFailedRevoked, Some(p));
          }
          passkeys := passkeys[p := k.(lastRegressionAt := Some(now))];
          return Refused(IntegrityWarning, Some(p));
        }
      }
      if k.touchOnly {
        if bridge.None? {
          return Refused(RequiresPasswordFirst, Some(p));
        }
        if bridge.value != k.user {
          return Refused(UserMismatch, Some(p));
        }
      }
      passkeys := passkeys[p := k.(count := count, lastUsedAt := Some(now))];
      o := Authenticated(p, k.user, count);
    }

    method FinishAuthenticate(sid: SessionId, credential: Option<CredentialId>, answer: Option<nat>,
                              bridge: Option<UserId>, now: Time)
      returns (o: Outcome)
      requires Valid()
      modifies this`passkeys, this`challenges
      ensures (Snapshot(now), o) == FinishAuthentication(old(Snapshot(now)),
                                                         AuthFinish(sid, true, credential, answer, bridge))
    {
      var row := DeleteChallenge(sid);
      if row.None? {
        return Refused(ChallengeMissingOrExpired, None);
      }
      if row.value.kind != Authenticating {
        return Refused(WrongChallengeKind, None);
      }
      if row.value.expiresAt < now {
        return Refused(ChallengeMissingOrExpired, None);
      }
      if credential.None? {
        return Refused(MalformedCredential, None);
      }
      var p := SelectByCredential(credential.value);
      if p.None? || !Active(passkeys[p.value]) {
        return Refused(CredentialNotFoundOrRevoked, p);
      }
      if answer.None? {
        return Refused(VerificationFailed, p);
      }
      o := TakeAnswer(p.value, answer.value, bridge, now);
    }

    method AuthenticateFinish(sid: SessionId, cookie: bool, credential: Option<CredentialId>, answer: Option<nat>,
                              bridge: Option<UserId>, now: Time)
      returns (o: Outcome)
      requires Clean()
      modifies this
      ensures Clean()
      ensures (Snapshot(now), o) == Step(old(Snapshot(now)), AuthFinish(sid, cookie, credential, answer, bridge))
    {
      if !cookie {
        return CookieMismatch;
      }
      StepKeepsUnique(Snapshot(now), AuthFinish(sid, cookie, credential, answer, bridge));
      o := FinishAuthenticate(sid, credential, answer, bridge, now);
      Commit();
    }

    // ---------- Revocation and clean-up

    method SoftRevoke(id: Id, user: UserId, now: Time) returns (o: Outcome)
      requires Clean()
      modifies this
      ensures Clean()
      ensures (Snapshot(now), o) == Step(old(Snapshot(now)), Revoke(id, user))
    {
      if id !in passkeys || passkeys[id].user != user || !Active(passkeys[id]) {
        return Revoked(false);
      }
      passkeys := passkeys[id := passkeys[id].(revokedAt := Some(now))];
      Commit();
      o := Revoked(true);
    }

    method DeleteChallenges(rows: set<SessionId>)
      modifies this`challenges
      ensures challenges == old(challenges) - rows
    {
      ghost var before := challenges;
      var rest := rows;
      while rest != {}
        invariant rest <= rows && challenges == before - (rows - rest)
        decreases |rest|
      {
        var sid :| sid in rest;
        challenges := challenges - {sid};
        rest := rest - {sid};
      }
    }

    method CleanupExpired(now: Time) returns (deleted: nat)
      requires Clean()
      modifies this
      ensures Clean()
      ensures Snapshot(now) == Step(old(Snapshot(now)), Cleanup).0
      ensures deleted == |set sid | sid in old(challenges) && old(challenges)[sid].expiresAt < now|
    {
      var rows := set sid | sid in challenges && challenges[sid].expiresAt < now;
      DeleteChallenges(rows);
      deleted := |rows|;
      assert challenges == Step(old(Snapshot(now)), Cleanup).0.challenges;
      Commit();
    }
  }
}
