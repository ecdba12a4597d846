/** What the passkey ceremonies guarantee over whole runs. */
module PasskeyRuns {
  import opened Prelude
  import opened Passkeys

  /** Credential ids are unique, revoked keys included. */
  ghost predicate UniqueCredentials(keys: map<Id, Passkey>) {
    forall p, q :: p in keys && q in keys && keys[p].credential == keys[q].credential ==> p == q
  }

  lemma EnrollKeepsUnique(s: State, user: UserId, a: Attested, id: Id)
    requires UniqueCredentials(s.passkeys)
    ensures UniqueCredentials(Enroll(s, user, a, id).0.passkeys)
  {
  }

  lemma AnswerKeepsUnique(s: State, p: Id, count: nat, bridge: Option<UserId>)
    requires UniqueCredentials(s.passkeys) && p in s.passkeys
    ensures UniqueCredentials(Answer(s, p, count, bridge).0.passkeys)
  {
  }

  lemma StepKeepsUnique(s: State, e: Event)
    requires UniqueCredentials(s.passkeys)
    ensures UniqueCredentials(Step(s, e).0.passkeys)
  {
    hide Enroll, Answer;
    if e.RegisterFinish? && e.attested.Some? {
      EnrollKeepsUnique(Consume(s, e.sid), e.user, e.attested.value, e.id);
    } else if e.AuthFinish? && e.credential.Some? && e.answer.Some? {
      var p := ByCredential(s.passkeys, e.credential.value);
      if p.Some? {
        AnswerKeepsUnique(Consume(s, e.sid), p.value, e.answer.value, e.bridge);
      }
    }
  }

  /** In every reachable state no two keys share a credential id. */
  lemma {:induction false} CredentialsStayUnique(s: State, es: seq<Event>, k: nat)
    requires UniqueCredentials(s.passkeys) && k <= |es|
    ensures UniqueCredentials(At(s, es, k).passkeys)
    decreases k
  {
    if k > 0 {
      CredentialsStayUnique(s, es, k - 1);
      StepKeepsUnique(At(s, es, k - 1), es[k - 1]);
    }
  }

  // ---------- What one step does to one key

  /** A key is never deleted, changes neither owner nor kind, and stays revoked once revoked. */
  ghost predicate Endures(a: Passkey, b: Passkey) {
    && b.user == a.user && b.credential == a.credential && b.device == a.device && b.touchOnly == a.touchOnly
    && b.aaguid == a.aaguid
    && (a.revokedAt.Some? ==> b == a)
  }

  /** The three ways a step touches a key: accepting a count, recording a regression, revoking. */
  ghost predicate Touches(s: State, o: Outcome, p: Id, a: Passkey, b: Passkey) {
    if o.Authenticated? && o.key == p then
      o.count == b.count && o.owner == a.user && b == a.(count := o.count, lastUsedAt := Some(s.now)) &&
      Active(a) && !Regression(a, o.count)
    else if o == Refused(IntegrityWarning, Some(p)) then
      b == a.(lastRegressionAt := Some(s.now)) && Active(a) && a.device.SingleDevice? && !RecentRegression(a, s.now)
    else if o == Refused(IntegrityFailedRevoked, Some(p)) then
      b == a.(revokedAt := Some(s.now)) && Active(a) && a.device.SingleDevice? && RecentRegression(a, s.now)
    else
      b == a || (b == a.(revokedAt := Some(s.now)) && Active(a))
  }

  lemma AnswerTouches(s: State, q: Id, count: nat, bridge: Option<UserId>, p: Id)
    requires q in s.passkeys && Active(s.passkeys[q]) && p in s.passkeys
    ensures
      var (after, o) := Answer(s, q, count, bridge);
      && p in after.passkeys
      && Endures(s.passkeys[p], after.passkeys[p])
      && Touches(s, o, p, s.passkeys[p], after.passkeys[p])
  {
  }

  lemma EnrollTouches(s: State, user: UserId, a: Attested, id: Id, p: Id)
    requires p in s.passkeys && id !in s.passkeys
    ensures
      var (after, o) := Enroll(s, user, a, id);
      && p in after.passkeys
      && Endures(s.passkeys[p], after.passkeys[p])
      && Touches(s, o, p, s.passkeys[p], after.passkeys[p])
  {
    var superseded := Supersede(s, user, DeriveAaguid(a.aaguid));
    assert p in superseded.passkeys;
  }

  lemma RegistrationTouches(s: State, e: Event, p: Id)
    requires p in s.passkeys && e.RegisterFinish?
    ensures
      var (after, o) := FinishRegistration(s, e);
      && p in after.passkeys
      && Endures(s.passkeys[p], after.passkeys[p])
      && Touches(s, o, p, s.passkeys[p], after.passkeys[p])
  {
    if e.attested.Some? && e.id !in s.passkeys {
      EnrollTouches(Consume(s, e.sid), e.user, e.attested.value, e.id, p);
    }
  }

  lemma AuthenticationTouches(s: State, e: Event, p: Id)
    requires p in s.passkeys && e.AuthFinish?
    ensures
      var (after, o) := FinishAuthentication(s, e);
      && p in after.passkeys
      && Endures(s.passkeys[p], after.passkeys[p])
      && Touches(s, o, p, s.passkeys[p], after.passkeys[p])
  {
    if e.credential.Some? && e.answer.Some? {
      var q := ByCredential(s.passkeys, e.credential.value);
      if q.Some? && Active(s.passkeys[q.value]) {
        AnswerTouches(Consume(s, e.sid), q.value, e.answer.value, e.bridge, p);
      }
    }
  }

  lemma StepTouches(s: State, e: Event, p: Id)
    requires p in s.passkeys
    ensures
      var (after, o) := Step(s, e);
      && p in after.passkeys
      && Endures(s.passkeys[p], after.passkeys[p])
      && Touches(s, o, p, s.passkeys[p], after.passkeys[p])
  {
    if e.RegisterFinish? {
      RegistrationTouches(s, e, p);
    } else if e.AuthFinish? {
      AuthenticationTouches(s, e, p);
    }
  }

  lemma {:induction false} KeyEndures(s: State, es: seq<Event>, p: Id, j: nat, k: nat)
    requires j <= k <= |es| && p in At(s, es, j).passkeys
    ensures p in At(s, es, k).passkeys && Endures(At(s, es, j).passkeys[p], At(s, es, k).passkeys[p])
    decreases k
  {
    if j < k {
      KeyEndures(s, es, p, j, k - 1);
      StepTouches(At(s, es, k - 1), es[k - 1], p);
    }
  }

  // ---------- Revocation

  /** A revoked key stays exactly as it was, and no later request signs anyone in with it. */
  lemma RevocationIsFinal(s: State, es: seq<Event>, p: Id, j: nat, k: nat)
    requires j <= k < |es| && p in At(s, es, j).passkeys && !Active(At(s, es, j).passkeys[p])
    ensures p in At(s, es, k).passkeys && At(s, es, k).passkeys[p] == At(s, es, j).passkeys[p]
    ensures !exists owner, c :: OutcomeAt(s, es, k) == Authenticated(p, owner, c)
  {
    KeyEndures(s, es, p, j, k);
    StepTouches(At(s, es, k), es[k], p);
  }

  /** Whoever signs in does so with their own active key, and with a touch-only key only after the
      password step named the same user. */
  lemma SignInNeedsOwner(s: State, e: Event, p: Id, owner: UserId, c: nat)
    requires Step(s, e).1 == Authenticated(p, owner, c)
    ensures p in s.passkeys && Active(s.passkeys[p]) && owner == s.passkeys[p].user
    ensures e.AuthFinish? && e.credential == Some(s.passkeys[p].credential) && e.answer == Some(c)
    ensures s.passkeys[p].touchOnly ==> e.bridge == Some(owner)
    ensures e.sid in s.challenges && s.challenges[e.sid].kind == Authenticating
        && s.now <= s.challenges[e.sid].expiresAt
  {
  }

  // ---------- The signature counter

  /** The count a step accepts for `p`, if any. */
  ghost function AcceptedBy(o: Outcome, p: Id): seq<nat> {
    if o.Authenticated? && o.key == p then [o.count] else []
  }

  /** The count first stored for `p`, and the counts accepted for it in the first `k` events. */
  ghost function Counts(s: State, es: seq<Event>, p: Id, k: nat): seq<nat>
    requires p in s.passkeys && k <= |es|
  {
    if k == 0 then [s.passkeys[p].count]
    else Counts(s, es, p, k - 1) + AcceptedBy(OutcomeAt(s, es, k - 1), p)
  }

  ghost predicate ZerosUpTo(cs: seq<nat>, z: nat) {
    && z <= |cs|
    && (forall i :: 0 <= i < z ==> cs[i] == 0)
    && (forall i :: z <= i < |cs| ==> cs[i] > 0)
    && (forall i, j :: z <= i < j < |cs| ==> cs[i] < cs[j])
  }

  /** A block of zeros, then a strictly increasing sequence of positive counts. */
  ghost predicate ZerosThenIncreasing(cs: seq<nat>) {
    exists z: nat :: ZerosUpTo(cs, z)
  }

  lemma ExtendCounts(cs: seq<nat>, c: nat)
    requires ZerosThenIncreasing(cs) && cs != []
    requires cs[|cs| - 1] < c || cs[|cs| - 1] == c == 0
    ensures ZerosThenIncreasing(cs + [c])
  {
    var z: nat :| ZerosUpTo(cs, z);
    assert ZerosUpTo(cs + [c], if c == 0 then z + 1 else z);
  }

  lemma StepExtendsCounts(s: State, e: Event, p: Id, cs: seq<nat>)
    requires p in s.passkeys && s.passkeys[p].device == SingleDevice
    requires cs != [] && cs[|cs| - 1] == s.passkeys[p].count && ZerosThenIncreasing(cs)
    ensures
      var (after, o) := Step(s, e);
      var cs' := cs + AcceptedBy(o, p);
      && p in after.passkeys && after.passkeys[p].device == SingleDevice
      && cs'[|cs'| - 1] == after.passkeys[p].count && ZerosThenIncreasing(cs')
  {
    StepTouches(s, e, p);
    var o := Step(s, e).1;
    if o.Authenticated? && o.key == p {
      ExtendCounts(cs, o.count);
    } else {
      assert cs + AcceptedBy(o, p) == cs;
    }
  }

  /** For a single-device key, the stored count followed by the counts accepted from then on is a block
      of zeros and then strictly increases; the stored count is always the last of these. */
  lemma {:induction false} CounterDiscipline(s: State, es: seq<Event>, p: Id, k: nat)
    requires p in s.passkeys && s.passkeys[p].device == SingleDevice && k <= |es|
    ensures p in At(s, es, k).passkeys && At(s, es, k).passkeys[p].device == SingleDevice
    ensures
      var cs := Counts(s, es, p, k);
      cs != [] && cs[|cs| - 1] == At(s, es, k).passkeys[p].count && ZerosThenIncreasing(cs)
    decreases k
  {
    hide Step;
    if k == 0 {
      assert ZerosUpTo(Counts(s, es, p, 0), if s.passkeys[p].count == 0 then 1 else 0);
    } else {
      CounterDiscipline(s, es, p, k - 1);
      StepExtendsCounts(At(s, es, k - 1), es[k - 1], p, Counts(s, es, p, k - 1));
    }
  }

  /** The stored count of a single-device key never decreases, whatever mix of events comes. */
  lemma {:induction false} StoredCountNeverDecreases(s: State, es: seq<Event>, p: Id, j: nat, k: nat)
    requires j <= k <= |es| && p in At(s, es, j).passkeys && At(s, es, j).passkeys[p].device == SingleDevice
    ensures p in At(s, es, k).passkeys && At(s, es, j).passkeys[p].count <= At(s, es, k).passkeys[p].count
    decreases k
  {
    if j < k {
      StoredCountNeverDecreases(s, es, p, j, k - 1);
      KeyEndures(s, es, p, j, k - 1);
      StepTouches(At(s, es, k - 1), es[k - 1], p);
    }
  }

  // ---------- Two strikes

  ghost function WarningBy(o: Outcome, p: Id, now: Time): seq<Time> {
    if o == Refused(IntegrityWarning, Some(p)) then [now] else []
  }

  /** When `p` was warned about: a stamp it began with, and the warnings of the first `k` events. */
  ghost function Warnings(s: State, es: seq<Event>, p: Id, k: nat): seq<Time>
    requires p in s.passkeys && k <= |es|
  {
    if k == 0 then
      var stamp := s.passkeys[p].lastRegressionAt;
      if stamp.Some? then [stamp.value] else []
    else
      Warnings(s, es, p, k - 1) + WarningBy(OutcomeAt(s, es, k - 1), p, At(s, es, k - 1).now)
  }

  ghost predicate DayApart(ts: seq<Time>) {
    forall i, j :: 0 <= i < j < |ts| ==> ts[j] - ts[i] >= 86_400_000_000
  }

  /** The stamp stored on a key is the latest of its warnings. */
  ghost predicate Stamped(k: Passkey, ts: seq<Time>) {
    k.lastRegressionAt == if ts == [] then None else Some(ts[|ts| - 1])
  }

  lemma StepWarns(s: State, e: Event, p: Id, ts: seq<Time>)
    requires p in s.passkeys && Stamped(s.passkeys[p], ts) && DayApart(ts)
    ensures
      var (after, o) := Step(s, e);
      var ts' := ts + WarningBy(o, p, s.now);
      p in after.passkeys && Stamped(after.passkeys[p], ts') && DayApart(ts')
  {
    hide Step, Endures;
    StepTouches(s, e, p);
    var o := Step(s, e).1;
    if o != Refused(IntegrityWarning, Some(p)) {
      assert ts + WarningBy(o, p, s.now) == ts;
    }
  }

  /** Any two warnings of one key are at least a day apart, and its stamp is the latest of them. */
  lemma {:induction false} WarningsADayApart(s: State, es: seq<Event>, p: Id, k: nat)
    requires p in s.passkeys && k <= |es|
    ensures p in At(s, es, k).passkeys
    ensures Stamped(At(s, es, k).passkeys[p], Warnings(s, es, p, k)) && DayApart(Warnings(s, es, p, k))
    decreases k
  {
    hide Step;
    if k > 0 {
      WarningsADayApart(s, es, p, k - 1);
      StepWarns(At(s, es, k - 1), es[k - 1], p, Warnings(s, es, p, k - 1));
    }
  }

  /** The event is a verified answer for the active single-device key `p` whose count does not move forward;
      an authenticator without a counter, whose count stays 0, does not regress. */
  ghost predicate RegressesOn(s: State, e: Event, p: Id) {
    && e.AuthFinish? && e.cookie && e.sid in s.challenges
    && s.challenges[e.sid].kind == Authenticating && s.now <= s.challenges[e.sid].expiresAt
    && p in s.passkeys && s.passkeys[p].revokedAt == None && e.credential == Some(s.passkeys[p].credential)
    && s.passkeys[p].device == SingleDevice && e.answer.Some?
    && (e.answer.value < s.passkeys[p].count || e.answer.value == s.passkeys[p].count != 0)
  }

  /** One of the warnings came less than a day before. */
  ghost predicate WarnedLately(ts: seq<Time>, now: Time) {
    exists i :: 0 <= i < |ts| && now - ts[i] < 86_400_000_000
  }

  lemma RecencyIsLatest(k: Passkey, ts: seq<Time>, now: Time)
    requires Stamped(k, ts) && DayApart(ts)
    ensures RecentRegression(k, now) <==> WarnedLately(ts, now)
  {
  }

  lemma RegressionOutcome(s: State, e: Event, p: Id)
    requires UniqueCredentials(s.passkeys) && RegressesOn(s, e, p)
    ensures Step(s, e).1 == Refused(if RecentRegression(s.passkeys[p], s.now) then IntegrityFailedRevoked
                                    else IntegrityWarning, Some(p))
  {
    assert ByCredential(s.passkeys, e.credential.value) == Some(p);
  }

  /** A regression revokes its key exactly when it comes less than a day after one of the key's warnings,
      and is recorded as a warning otherwise. */
  lemma TwoStrikes(s: State, es: seq<Event>, p: Id, k: nat)
    requires UniqueCredentials(s.passkeys) && p in s.passkeys
    requires k < |es| && RegressesOn(At(s, es, k), es[k], p)
    ensures OutcomeAt(s, es, k) ==
            Refused(if WarnedLately(Warnings(s, es, p, k), At(s, es, k).now) then IntegrityFailedRevoked
                    else IntegrityWarning, Some(p))
  {
    CredentialsStayUnique(s, es, k);
    RegressionOutcome(At(s, es, k), es[k], p);
    WarningsADayApart(s, es, p, k);
    RecencyIsLatest(At(s, es, k).passkeys[p], Warnings(s, es, p, k), At(s, es, k).now);
  }

  lemma StrikeNeedsRegression(s: State, e: Event, p: Id)
    requires Step(s, e).1 == Refused(IntegrityFailedRevoked, Some(p))
    ensures RegressesOn(s, e, p) && RecentRegression(s.passkeys[p], s.now)
  {
  }

  /** The counter revokes a key only on such a second strike. */
  lemma CounterRevokesOnSecondStrike(s: State, es: seq<Event>, p: Id, k: nat)
    requires p in s.passkeys && k < |es| && OutcomeAt(s, es, k) == Refused(IntegrityFailedRevoked, Some(p))
    ensures RegressesOn(At(s, es, k), es[k], p) && WarnedLately(Warnings(s, es, p, k), At(s, es, k).now)
  {
    StrikeNeedsRegression(At(s, es, k), es[k], p);
    WarningsADayApart(s, es, p, k);
    RecencyIsLatest(At(s, es, k).passkeys[p], Warnings(s, es, p, k), At(s, es, k).now);
  }

  // ---------- One challenge, one success

  ghost predicate Succeeds(o: Outcome) {
    o.Registered? || o.Authenticated?
  }

  ghost predicate Starts(e: Event, sid: SessionId) {
    (e.RegisterStart? || e.AuthStart?) && e.sid == sid
  }

  ghost predicate Finishes(e: Event, sid: SessionId) {
    (e.RegisterFinish? || e.AuthFinish?) && e.sid == sid
  }

  /** Session ids are drawn at random and not drawn again: each starts at most one ceremony. */
  ghost predicate FreshSessions(s: State, es: seq<Event>) {
    && (forall j, k, sid :: 0 <= j < k < |es| && Starts(es[j], sid) ==> !Starts(es[k], sid))
    && (forall k, sid :: 0 <= k < |es| && Starts(es[k], sid) ==> sid !in s.challenges)
  }

  lemma FinishConsumes(s: State, e: Event, sid: SessionId)
    requires Finishes(e, sid) && e.cookie && Step(s, e).1 != Crashed
    ensures sid !in Step(s, e).0.challenges
  {
  }

  lemma OnlyStartsAdd(s: State, e: Event, sid: SessionId)
    requires sid !in s.challenges
    ensures sid in Step(s, e).0.challenges ==> Starts(e, sid)
  {
  }

  lemma {:induction false} ChallengeWasStarted(s: State, es: seq<Event>, k: nat, sid: SessionId)
    requires k <= |es| && sid in At(s, es, k).challenges
    ensures sid in s.challenges || exists j :: 0 <= j < k && Starts(es[j], sid)
    decreases k
  {
    if k > 0 {
      if sid in At(s, es, k - 1).challenges {
        ChallengeWasStarted(s, es, k - 1, sid);
      } else {
        OnlyStartsAdd(At(s, es, k - 1), es[k - 1], sid);
      }
    }
  }

  /** The event starts the ceremony of this challenge. */
  ghost predicate Begins(s: State, e: Event, sid: SessionId, c: Challenge) {
    && Starts(e, sid) && Step(s, e).1.Started?
    && c.expiresAt == s.now + CHALLENGE_TTL
    && (c.kind.Registering? <==> e.RegisterStart?)
    && (e.RegisterStart? ==> c.user == Some(e.user))
  }

  lemma FinishOnlyConsumes(s: State, e: Event)
    requires e.RegisterFinish? || e.AuthFinish?
    ensures forall sid :: sid in Step(s, e).0.challenges ==>
        sid in s.challenges && Step(s, e).0.challenges[sid] == s.challenges[sid]
  {
    hide ByCredential;
  }

  lemma ChallengesFromStarts(s: State, e: Event, sid: SessionId)
    requires sid in Step(s, e).0.challenges
    ensures Begins(s, e, sid, Step(s, e).0.challenges[sid]) ||
            (sid in s.challenges && Step(s, e).0.challenges[sid] == s.challenges[sid])
  {
    hide FinishRegistration, FinishAuthentication, OfferTo, ActiveCredentials;
    if e.RegisterFinish? || e.AuthFinish? {
      FinishOnlyConsumes(s, e);
    }
  }

  ghost predicate StartedBy(s: State, es: seq<Event>, j: nat, sid: SessionId, c: Challenge) {
    j < |es| && Begins(At(s, es, j), es[j], sid, c)
  }

  lemma {:induction false} ChallengeHasItsStart(s: State, es: seq<Event>, k: nat, sid: SessionId) returns (j: nat)
    requires sid !in s.challenges && k <= |es| && sid in At(s, es, k).challenges
    ensures j < k && StartedBy(s, es, j, sid, At(s, es, k).challenges[sid])
    decreases k
  {
    hide Step;
    ChallengesFromStarts(At(s, es, k - 1), es[k - 1], sid);
    if StartedBy(s, es, k - 1, sid, At(s, es, k).challenges[sid]) {
      j := k - 1;
    } else {
      j := ChallengeHasItsStart(s, es, k - 1, sid);
    }
  }

  lemma SuccessNeedsChallenge(s: State, e: Event, sid: SessionId)
    requires Finishes(e, sid) && Succeeds(Step(s, e).1)
    ensures sid in s.challenges && s.now <= s.challenges[sid].expiresAt
    ensures s.challenges[sid].kind.Registering? <==> e.RegisterFinish?
    ensures e.RegisterFinish? ==> s.challenges[sid].user == Some(e.user)
  {
    hide ByCredential, Enroll, Answer;
  }

  /** A finish succeeds only within two minutes of the start of its own ceremony, which was of the same
      kind and, for a registration, by the same user. */
  lemma SuccessFollowsItsStart(s: State, es: seq<Event>, k: nat, sid: SessionId) returns (j: nat)
    requires sid !in s.challenges && k < |es| && Finishes(es[k], sid) && Succeeds(OutcomeAt(s, es, k))
    ensures j < k && Starts(es[j], sid) && OutcomeAt(s, es, j).Started?
    ensures At(s, es, k).now - At(s, es, j).now <= 120 * SECOND
    ensures es[k].RegisterFinish? <==> es[j].RegisterStart?
    ensures es[k].RegisterFinish? ==> es[j].RegisterStart? && es[j].user == es[k].user
  {
    hide Step;
    SuccessNeedsChallenge(At(s, es, k), es[k], sid);
    j := ChallengeHasItsStart(s, es, k, sid);
  }

  /** A consumed challenge never comes back. */
  lemma {:induction false} ConsumedStaysConsumed(s: State, es: seq<Event>, j: nat, k: nat, sid: SessionId)
    requires FreshSessions(s, es) && j < k <= |es|
    requires sid in At(s, es, j).challenges && sid !in At(s, es, j + 1).challenges
    ensures sid !in At(s, es, k).challenges
    decreases k
  {
    if k > j + 1 {
      ConsumedStaysConsumed(s, es, j, k - 1, sid);
      ChallengeWasStarted(s, es, j, sid);
      OnlyStartsAdd(At(s, es, k - 1), es[k - 1], sid);
    }
  }

  /** Once a finish request has reached its challenge, no later one on the same session succeeds:
      not even if the first one failed. */
  lemma OneChallengeOneAnswer(s: State, es: seq<Event>, j: nat, k: nat, sid: SessionId)
    requires FreshSessions(s, es) && j < k < |es|
    requires Finishes(es[j], sid) && es[j].cookie && sid in At(s, es, j).challenges && OutcomeAt(s, es, j) != Crashed
    requires Finishes(es[k], sid)
    ensures !Succeeds(OutcomeAt(s, es, k))
  {
    FinishConsumes(At(s, es, j), es[j], sid);
    ConsumedStaysConsumed(s, es, j, k, sid);
  }

  /** Each session id has at most one successful finish. */
  lemma AtMostOneSuccess(s: State, es: seq<Event>, j: nat, k: nat, sid: SessionId)
    requires FreshSessions(s, es) && j < |es| && k < |es|
    requires Finishes(es[j], sid) && Succeeds(OutcomeAt(s, es, j))
    requires Finishes(es[k], sid) && Succeeds(OutcomeAt(s, es, k))
    ensures j == k
  {
    if j < k {
      OneChallengeOneAnswer(s, es, j, k, sid);
    } else if k < j {
      OneChallengeOneAnswer(s, es, k, j, sid);
    }
  }

  // ---------- Registration

  /** The model of an authenticator, if the attestation names one. */
  function Model(a: Attested): Option<string> {
    if |a.aaguid| > 0 then Some(a.aaguid) else None
  }

  /** An active touch-only key of this user and model. */
  predicate IsTouchSibling(k: Passkey, user: UserId, model: Option<string>) {
    k.user == user && k.aaguid == model && k.touchOnly && k.revokedAt == None
  }

  /** After a user-verified registration, its user has no active touch-only key of the same model. */
  lemma UpgradeSupersedes(s: State, e: Event)
    requires e.RegisterFinish? && Step(s, e).1.Registered? && e.attested.Some? && e.attested.value.userVerified
    ensures
      var after := Step(s, e).0.passkeys;
      forall p :: p in after ==> !IsTouchSibling(after[p], e.user, Model(e.attested.value))
  {
  }

  /** Five consecutive characters of the text, lower-cased, read "multi". */
  ghost predicate SaysMulti(text: string) {
    exists i :: 0 <= i <= |text| - 5 && SpellsMulti(text, i)
  }

  predicate SpellsMulti(text: string, i: int)
    requires 0 <= i <= |text| - 5
  {
    text[i] in "mM" && text[i + 1] in "uU" && text[i + 2] in "lL" && text[i + 3] in "tT" && text[i + 4] in "iI"
  }

  lemma LowerIs(c: char, lower: char)
    requires 'a' <= lower <= 'z'
    ensures LowerChar(c) == lower <==> c == lower || c == lower - 'a' + 'A'
  {
  }

  lemma OccursIffSpelt(text: string, lower: string, i: int)
    requires |lower| == |text| && forall k :: 0 <= k < |text| ==> lower[k] == LowerChar(text[k])
    requires 0 <= i <= |text| - 5
    ensures OccursAt(lower, "multi", i) <==> SpellsMulti(text, i)
  {
    LowerIs(text[i], 'm');
    LowerIs(text[i + 1], 'u');
    LowerIs(text[i + 2], 'l');
    LowerIs(text[i + 3], 't');
    LowerIs(text[i + 4], 'i');
    assert lower[i..i + 5] == "multi" <==>
             lower[i] == 'm' && lower[i + 1] == 'u' && lower[i + 2] == 'l' && lower[i + 3] == 't'
                 && lower[i + 4] == 'i';
  }

  /** A key is a multi-device key exactly when its attested type mentions "multi", in whatever case. */
  lemma MultiDeviceIff(text: string)
    ensures DeriveDeviceType(text) == MultiDevice <==> SaysMulti(text)
  {
    var lower := seq(|text|, i requires 0 <= i < |text| => LowerChar(text[i]));
    forall i | 0 <= i <= |text| - 5 ensures OccursAt(lower, "multi", i) <==> SpellsMulti(text, i) {
      OccursIffSpelt(text, lower, i);
    }
    if SaysMulti(text) {
      var i :| 0 <= i <= |text| - 5 && SpellsMulti(text, i);
      assert OccursAt(lower, "multi", i);
    }
  }

  lemma NoMulti(text: string)
    requires forall i :: 0 <= i < |text| ==> text[i] != 'm' && text[i] != 'M'
    ensures DeriveDeviceType(text) == SingleDevice
  {
    hide DeriveDeviceType;
    MultiDeviceIff(text);
  }

  /** The two types that the verification library reports. */
  lemma AttestedTypes()
    ensures DeriveDeviceType("multi_device") == MultiDevice && DeriveDeviceType("single_device") == SingleDevice
  {
    hide DeriveDeviceType;
    MultiDeviceIff("multi_device");
    assert SpellsMulti("multi_device", 0);
    NoMulti("single_device");
  }

  /** A registration adds one active key for the user, with the attested data, and leaves every other key
      alone except the touch-only siblings that a verified one supersedes. */
  lemma RegistrationAddsOne(s: State, e: Event)
    requires e.RegisterFinish? && Step(s, e).1.Registered?
    ensures
      var after := Step(s, e).0.passkeys;
      && e.attested.Some?
      && var a := e.attested.value;
      && Step(s, e).1.key == e.id && e.id !in s.passkeys && after.Keys == s.passkeys.Keys + {e.id}
      && var k := after[e.id];
      && k.user == e.user && k.credential == a.credential && k.revokedAt == None
      && k.count == a.count && k.lastRegressionAt == None && k.lastUsedAt == None && k.aaguid == Model(a)
      && (k.device == MultiDevice <==> SaysMulti(a.deviceType))
      && (k.touchOnly <==> !a.userVerified && "internal" !in a.transports)
      && (forall p :: p in s.passkeys ==> s.passkeys[p].credential != a.credential)
      && forall p :: p in s.passkeys ==>
           after[p] == if a.userVerified && IsTouchSibling(s.passkeys[p], e.user, Model(a))
                       then s.passkeys[p].(revokedAt := Some(s.now)) else s.passkeys[p]
  {
    hide DeriveDeviceType, SaysMulti;
    var c := e.attested.value.credential;
    assert ByCredential(s.passkeys, c).None?;
    MultiDeviceIff(e.attested.value.deviceType);
  }

  /** Signing in by name offers exactly the account's active credentials; when there are none, or no
      such account, only fakes that depend on nothing but the name. */
  lemma OfferIsExact(s: State, sid: SessionId, username: string)
    requires sid !in s.challenges && username != ""
    ensures
      var o := Step(s, AuthStart(sid, Some(username))).1;
      && o.Started?
      && (o.offer == Fake(username) <==>
            forall p :: p in s.passkeys && Active(s.passkeys[p]) ==>
                username !in s.accounts || s.passkeys[p].user != s.accounts[username])
      && (o.offer != Fake(username) ==>
          username in s.accounts && o.offer == Own(ActiveCredentials(s, s.accounts[username])))
  {
    if username in s.accounts {
      var own := ActiveCredentials(s, s.accounts[username]);
      if p :| p in s.passkeys && Active(s.passkeys[p]) && s.passkeys[p].user == s.accounts[username] {
        assert s.passkeys[p].credential in own;
      }
      if own != {} {
        var c :| c in own;
      }
    }
  }

  // ---------- Cleaning up is invisible

  /** The states differ at most in expired challenges that only `a` still holds. */
  ghost predicate SameButExpired(a: State, b: State) {
    && a.passkeys == b.passkeys && a.now == b.now && a.accounts == b.accounts
    && (forall sid :: sid in b.challenges ==> sid in a.challenges && a.challenges[sid] == b.challenges[sid])
    && (forall sid :: sid in a.challenges && sid !in b.challenges ==> a.challenges[sid].expiresAt < a.now)
  }

  lemma CleanupKeepsLive(a: State, b: State)
    requires SameButExpired(a, b)
    ensures SameButExpired(a, Step(b, Cleanup).0)
  {
  }

  lemma ConsumeRelates(a: State, b: State, sid: SessionId)
    requires SameButExpired(a, b)
    ensures SameButExpired(Consume(a, sid), Consume(b, sid))
    ensures sid !in b.challenges ==> SameButExpired(Consume(a, sid), b)
  {
  }

  lemma AnswersRelate(a: State, b: State, p: Id, count: nat, bridge: Option<UserId>)
    requires SameButExpired(a, b) && p in a.passkeys
    ensures SameButExpired(Answer(a, p, count, bridge).0, Answer(b, p, count, bridge).0)
    ensures Answer(a, p, count, bridge).1 == Answer(b, p, count, bridge).1
  {
  }

  lemma EnrollsRelate(a: State, b: State, user: UserId, attested: Attested, id: Id)
    requires SameButExpired(a, b)
    ensures SameButExpired(Enroll(a, user, attested, id).0, Enroll(b, user, attested, id).0)
    ensures Enroll(a, user, attested, id).1 == Enroll(b, user, attested, id).1
  {
  }

  lemma RegistrationIsBlind(a: State, b: State, e: Event)
    requires SameButExpired(a, b) && e.RegisterFinish?
    ensures SameButExpired(FinishRegistration(a, e).0, FinishRegistration(b, e).0)
    ensures ToResponse(FinishRegistration(a, e).1) == ToResponse(FinishRegistration(b, e).1)
  {
    hide ByCredential, Enroll;
    ConsumeRelates(a, b, e.sid);
    if e.sid in b.challenges && e.attested.Some? {
      EnrollsRelate(Consume(a, e.sid), Consume(b, e.sid), e.user, e.attested.value, e.id);
    }
  }

  lemma AuthenticationIsBlind(a: State, b: State, e: Event)
    requires SameButExpired(a, b) && e.AuthFinish?
    ensures SameButExpired(FinishAuthentication(a, e).0, FinishAuthentication(b, e).0)
    ensures ToResponse(FinishAuthentication(a, e).1) == ToResponse(FinishAuthentication(b, e).1)
  {
    ConsumeRelates(a, b, e.sid);
    if e.sid in b.challenges && e.credential.Some? && e.answer.Some? {
      var p := ByCredential(a.passkeys, e.credential.value);
      if p.Some? {
        AnswersRelate(Consume(a, e.sid), Consume(b, e.sid), p.value, e.answer.value, e.bridge);
      }
    }
  }

  /** Related states answer an event alike and stay related. */
  lemma StepIsBlindToExpired(a: State, b: State, e: Event)
    requires SameButExpired(a, b) && !e.Cleanup?
    requires forall sid :: Starts(e, sid) ==> sid !in a.challenges
    ensures SameButExpired(Step(a, e).0, Step(b, e).0)
    ensures ToResponse(Step(a, e).1) == ToResponse(Step(b, e).1)
  {
    match e
    case RegisterFinish(_, _, _, _, _) => RegistrationIsBlind(a, b, e);
    case AuthFinish(_, _, _, _, _) => AuthenticationIsBlind(a, b, e);
    case RegisterStart(_, sid) => assert Starts(e, sid);
    case AuthStart(sid, _) => assert Starts(e, sid);
    case _ =>
  }

  /** The run without its clean-ups. */
  ghost function Erase(es: seq<Event>): (r: seq<Event>)
    ensures |r| <= |es|
  {
    if es == [] then []
    else
      var front, last := es[..|es| - 1], es[|es| - 1];
      if last.Cleanup? then Erase(front) else Erase(front) + [last]
  }

  /** What the clients see of a run: the responses to everything but its clean-ups. */
  ghost function Responses(s: State, es: seq<Event>): seq<Response> {
    if es == [] then []
    else
      var front, last := es[..|es| - 1], es[|es| - 1];
      Responses(s, front) + if last.Cleanup? then [] else [ToResponse(OutcomeAt(s, es, |front|))]
  }

  lemma {:induction false} AtPrefix(s: State, front: seq<Event>, e: Event, k: nat)
    requires k <= |front|
    ensures At(s, front + [e], k) == At(s, front, k)
    decreases k
  {
    if k > 0 {
      AtPrefix(s, front, e, k - 1);
    }
  }

  lemma {:induction false} ErasedAreMembers(es: seq<Event>, k: nat) returns (j: nat)
    requires k < |Erase(es)|
    ensures j < |es| && es[j] == Erase(es)[k]
  {
    var front := es[..|es| - 1];
    if k < |Erase(front)| {
      j := ErasedAreMembers(front, k);
    } else {
      j := |es| - 1;
    }
  }

  lemma FreshFront(s: State, front: seq<Event>, e: Event)
    requires FreshSessions(s, front + [e])
    ensures FreshSessions(s, front)
  {
    var es := front + [e];
    assert forall k :: 0 <= k < |front| ==> front[k] == es[k];
  }

  lemma ErasedStartIsFresh(s: State, front: seq<Event>, e: Event, sid: SessionId)
    requires FreshSessions(s, front + [e]) && Starts(e, sid)
    ensures sid !in At(s, Erase(front), |Erase(front)|).challenges
  {
    var es, kept := front + [e], Erase(front);
    assert es[|front|] == e;
    forall k | 0 <= k < |kept| ensures !Starts(kept[k], sid) {
      var j := ErasedAreMembers(front, k);
      assert es[j] == kept[k];
    }
    if sid in At(s, kept, |kept|).challenges {
      ChallengeWasStarted(s, kept, |kept|, sid);
    }
  }

  /** Cleaning up never shows: whatever clean-ups a run holds, and wherever, every other request gets
      the response it gets in the run without them. */
  lemma {:induction false} CleanupIsInvisible(s: State, es: seq<Event>)
    requires FreshSessions(s, es)
    ensures Responses(s, Erase(es)) == Responses(s, es)
    ensures SameButExpired(At(s, Erase(es), |Erase(es)|), At(s, es, |es|))
  {
    if es != [] {
      var front, e := es[..|es| - 1], es[|es| - 1];
      assert es == front + [e];
      var kept := Erase(front);
      FreshFront(s, front, e);
      CleanupIsInvisible(s, front);
      AtPrefix(s, front, e, |front|);
      var a, b := At(s, kept, |kept|), At(s, front, |front|);
      if e.Cleanup? {
        CleanupKeepsLive(a, b);
      } else {
        forall sid | Starts(e, sid) ensures sid !in a.challenges {
          ErasedStartIsFresh(s, front, e, sid);
        }
        StepIsBlindToExpired(a, b, e);
        AtPrefix(s, kept, e, |kept|);
        assert (kept + [e])[..|kept|] == kept;
      }
    }
  }
}
