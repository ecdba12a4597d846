/** Bulk control: commands to many devices run concurrently behind a semaphore, and their answers are
    reported in the order of the device list. */
module FanOut {
  import opened Prelude
  import opened Stores

  const CONCURRENCY: int := 32

  /** How one command ends: an exception, no response, or the state the device reports. */
  datatype Answer = Raised(error: string) | Unanswered | Replied(state: Json)

  // ---------- The concurrent commands as an interleaving

  /** One command: queued at the semaphore, holding a permit, or finished. */
  datatype Status = Waiting | InFlight | Finished(answer: Answer)

  datatype Fan = Fan(permits: int, status: seq<Status>)

  datatype Move = Acquire(i: nat) | Release(i: nat)

  predicate Enabled(f: Fan, m: Move) {
    match m
    case Acquire(i) => i < |f.status| && f.status[i] == Waiting && f.permits > 0
    case Release(i) => i < |f.status| && f.status[i] == InFlight
  }

  function Apply(f: Fan, answers: seq<Answer>, m: Move): Fan
    requires |f.status| == |answers| && Enabled(f, m)
  {
    match m
    case Acquire(i) => Fan(f.permits - 1, f.status[i := InFlight])
    case Release(i) => Fan(f.permits + 1, f.status[i := Finished(answers[i])])
  }

  function Idle(n: nat): Fan {
    Fan(CONCURRENCY, seq(n, _ => Waiting))
  }

  /** The state after a schedule of moves, if each of them was enabled in its turn. */
  function RunOf(answers: seq<Answer>, moves: seq<Move>): (r: Option<Fan>)
    ensures r.Some? ==> |r.value.status| == |answers|
  {
    if moves == [] then Some(Idle(|answers|))
    else
      var last := moves[|moves| - 1];
      match RunOf(answers, moves[..|moves| - 1])
      case None => None
      case Some(f) => if Enabled(f, last) then Some(Apply(f, answers, last)) else None
  }

  predicate AllFinished(f: Fan) {
    forall i :: 0 <= i < |f.status| ==> f.status[i].Finished?
  }

  function Sum(status: seq<Status>, weight: Status -> int): int {
    if status == [] then 0 else Sum(status[..|status| - 1], weight) + weight(status[|status| - 1])
  }

  function Busy(s: Status): int {
    if s.InFlight? then 1 else 0
  }

  /** The moves a command still has to make. */
  function Left(s: Status): int {
    match s
    case Waiting => 2
    case InFlight => 1
    case Finished(_) => 0
  }

  lemma {:induction false} SumUpdate(status: seq<Status>, weight: Status -> int, i: nat, s: Status)
    requires i < |status|
    ensures Sum(status[i := s], weight) == Sum(status, weight) - weight(status[i]) + weight(s)
  {
    var n := |status| - 1;
    if i == n {
      assert status[i := s][..n] == status[..n];
    } else {
      assert status[i := s][..n] == status[..n][i := s];
      SumUpdate(status[..n], weight, i, s);
    }
  }

  lemma {:induction false} SumIdle(n: nat, weight: Status -> int)
    ensures Sum(Idle(n).status, weight) == n * weight(Waiting)
  {
    if n > 0 {
      assert Idle(n).status[..n - 1] == Idle(n - 1).status;
      SumIdle(n - 1, weight);
    }
  }

  lemma {:induction false} LeftIsZero(status: seq<Status>)
    ensures Sum(status, Left) >= 0
    ensures Sum(status, Left) == 0 <==> forall i :: 0 <= i < |status| ==> status[i].Finished?
  {
    if status != [] {
      var n := |status| - 1;
      LeftIsZero(status[..n]);
      assert forall i :: 0 <= i < n ==> status[..n][i] == status[i];
    }
  }

  lemma {:induction false} BusyIsZero(status: seq<Status>)
    ensures Sum(status, Busy) >= 0
    ensures Sum(status, Busy) == 0 <==> forall i :: 0 <= i < |status| ==> !status[i].InFlight?
  {
    if status != [] {
      var n := |status| - 1;
      BusyIsZero(status[..n]);
      assert forall i :: 0 <= i < n ==> status[..n][i] == status[i];
    }
  }

  ghost predicate Sound(f: Fan, answers: seq<Answer>) {
    && |f.status| == |answers|
    && f.permits >= 0 && f.permits + Sum(f.status, Busy) == CONCURRENCY
    && forall i :: 0 <= i < |answers| && f.status[i].Finished? ==> f.status[i].answer == answers[i]
  }

  lemma MoveKeepsSound(f: Fan, answers: seq<Answer>, m: Move)
    requires Sound(f, answers) && Enabled(f, m)
    ensures Sound(Apply(f, answers, m), answers)
    ensures Sum(Apply(f, answers, m).status, Left) == Sum(f.status, Left) - 1
  {
    SumUpdate(f.status, Busy, m.i, Apply(f, answers, m).status[m.i]);
    SumUpdate(f.status, Left, m.i, Apply(f, answers, m).status[m.i]);
  }

  /** Under every interleaving, permits and commands in flight add up to the limit, so at most that many
      are in flight; a finished command has its own device's answer; and each move brings the end nearer. */
  lemma {:induction false} EveryInterleavingIsSound(answers: seq<Answer>, moves: seq<Move>)
    requires RunOf(answers, moves).Some?
    ensures
      var f := RunOf(answers, moves).value;
      && Sound(f, answers)
      && f.permits + Sum(f.status, Busy) == 32 && 0 <= Sum(f.status, Busy) <= 32
      && |moves| + Sum(f.status, Left) == 2 * |answers|
  {
    if moves == [] {
      SumIdle(|answers|, Busy);
      SumIdle(|answers|, Left);
    } else {
      var front := moves[..|moves| - 1];
      EveryInterleavingIsSound(answers, front);
      MoveKeepsSound(RunOf(answers, front).value, answers, moves[|moves| - 1]);
    }
    BusyIsZero(RunOf(answers, moves).value.status);
  }

  /** Some move is possible until every command has finished: the semaphore never deadlocks. */
  lemma NeverStuck(f: Fan, answers: seq<Answer>)
    requires Sound(f, answers)
    ensures AllFinished(f) <==> forall m :: !Enabled(f, m)
  {
    BusyIsZero(f.status);
    if i :| 0 <= i < |f.status| && !f.status[i].Finished? {
      if f.status[i].InFlight? {
        assert Enabled(f, Release(i));
      } else if f.permits > 0 {
        assert Enabled(f, Acquire(i));
      } else {
        var j :| 0 <= j < |f.status| && f.status[j].InFlight?;
        assert Enabled(f, Release(j));
      }
    }
  }

  /** However the commands interleave, a run that can go no further has made exactly two moves for each
      of them, and the gathered answers are the devices' answers in the order of the list. */
  lemma GatheredInOrder(answers: seq<Answer>, moves: seq<Move>)
    requires RunOf(answers, moves).Some?
    ensures
      var f := RunOf(answers, moves).value;
      && (AllFinished(f) <==> |moves| == 2 * |answers|)
      && (AllFinished(f) <==> forall m :: !Enabled(f, m))
      && (AllFinished(f) ==> f.status == seq(|answers|, i requires 0 <= i < |answers| => Finished(answers[i])))
  {
    EveryInterleavingIsSound(answers, moves);
    var f := RunOf(answers, moves).value;
    LeftIsZero(f.status);
    NeverStuck(f, answers);
  }

  /** Each command is sent at most once and finishes at most once: exactly once when the run is over. */
  lemma {:induction false} OneCommandEach(answers: seq<Answer>, moves: seq<Move>, i: nat)
    requires RunOf(answers, moves).Some? && i < |answers|
    ensures
      var s := RunOf(answers, moves).value.status[i];
      && multiset(moves)[Acquire(i)] == (if s.Waiting? then 0 else 1)
      && multiset(moves)[Release(i)] == (if s.Finished? then 1 else 0)
  {
    if moves != [] {
      var front, last := moves[..|moves| - 1], moves[|moves| - 1];
      assert moves == front + [last];
      OneCommandEach(answers, front, i);
    }
  }

  // ---------- Reporting, and the one-at-a-time loop

  datatype Seen = Seen(lastState: Option<Json>, online: bool)

  datatype Failure = Failure(device: Id, error: string)
  datatype Report = Report(successes: nat, failures: seq<Failure>)

  datatype Effect = Effect(devices: map<Id, Seen>, report: Report)

  /** Take one device's answer into the store and the report. */
  function Record(e: Effect, d: Id, a: Answer): Effect {
    match a
    case Raised(error) => e.(report := Report(e.report.successes, e.report.failures + [Failure(d, error)]))
    case Unanswered => e.(report := Report(e.report.successes,
                                           e.report.failures + [Failure(d, "device did not respond")]))
    case Replied(state) =>
      Effect(if d in e.devices then e.devices[d := Seen(Some(state), true)] else e.devices,
             Report(e.report.successes + 1, e.report.failures))
  }

  /** The plain loop: look up each id in turn, command that device and record its answer at once. */
  function OneAtATime(devices: map<Id, Seen>, ids: seq<Id>, reply: nat -> Answer): (e: Effect)
    ensures e.devices.Keys == devices.Keys
  {
    if ids == [] then Effect(devices, Report(0, []))
    else
      var k := |ids| - 1;
      var e := OneAtATime(devices, ids[..k], reply);
      if ids[k] in e.devices then Record(e, ids[k], reply(k)) else e
  }

  function Existing(devices: map<Id, Seen>, ids: seq<Id>): nat {
    if ids == [] then 0
    else Existing(devices, ids[..|ids| - 1]) + if ids[|ids| - 1] in devices then 1 else 0
  }

  /** Successes and failures add up to the ids that exist, counted as often as they are listed. */
  lemma {:induction false} EveryIdIsReported(devices: map<Id, Seen>, ids: seq<Id>, reply: nat -> Answer)
    ensures
      var r := OneAtATime(devices, ids, reply).report;
      r.successes + |r.failures| == Existing(devices, ids)
  {
    if ids != [] {
      EveryIdIsReported(devices, ids[..|ids| - 1], reply);
    }
  }

  /** The failure a listed id is reported with, if its device exists and gave no state. */
  function FailureAt(devices: map<Id, Seen>, ids: seq<Id>, reply: nat -> Answer, k: nat): Option<Failure> {
    if k >= |ids| || ids[k] !in devices then None
    else
      match reply(k)
      case Raised(error) => Some(Failure(ids[k], error))
      case Unanswered => Some(Failure(ids[k], "device did not respond"))
      case Replied(_) => None
  }

  /** The failures reported are exactly those of the existing devices that gave no state. */
  lemma {:induction false} FailuresAreExact(devices: map<Id, Seen>, ids: seq<Id>, reply: nat -> Answer, f: Failure)
    ensures f in OneAtATime(devices, ids, reply).report.failures <==>
        exists k: nat :: FailureAt(devices, ids, reply, k) == Some(f)
  {
    if ids != [] {
      var n := |ids| - 1;
      var front := ids[..n];
      FailuresAreExact(devices, front, reply, f);
      assert OneAtATime(devices, ids, reply).report.failures ==
             OneAtATime(devices, front, reply).report.failures +
               (if FailureAt(devices, ids, reply, n).Some? then [FailureAt(devices, ids, reply, n).value] else []);
      if k: nat :| FailureAt(devices, front, reply, k) == Some(f) {
        assert FailureAt(devices, ids, reply, k) == Some(f);
      }
      if k: nat :| FailureAt(devices, ids, reply, k) == Some(f) {
        assert k == n || FailureAt(devices, front, reply, k) == Some(f);
      }
    }
  }

  /** The positions in the list at which a failure is reported. */
  ghost predicate FailsAt(devices: map<Id, Seen>, ids: seq<Id>, reply: nat -> Answer, at: seq<nat>) {
    && (forall j, k :: 0 <= j < k < |at| ==> at[j] < at[k])
    && (forall k: nat :: k in at <==> FailureAt(devices, ids, reply, k).Some?)
  }

  /** They are reported in the order of the list, each as often as it happens. */
  lemma {:induction false} FailuresInOrder(devices: map<Id, Seen>, ids: seq<Id>, reply: nat -> Answer)
      returns (at: seq<nat>)
    ensures FailsAt(devices, ids, reply, at)
    ensures
      var failures := OneAtATime(devices, ids, reply).report.failures;
      |failures| == |at| && forall j :: 0 <= j < |at| ==> Some(failures[j]) == FailureAt(devices, ids, reply, at[j])
  {
    at := [];
    if ids != [] {
      var n := |ids| - 1;
      var front := ids[..n];
      at := FailuresInOrder(devices, front, reply);
      var failure := FailureAt(devices, ids, reply, n);
      assert OneAtATime(devices, ids, reply).report.failures ==
             OneAtATime(devices, front, reply).report.failures + (if failure.Some? then [failure.value] else []);
      assert forall k: nat :: k != n ==> FailureAt(devices, front, reply, k) == FailureAt(devices, ids, reply, k);
      forall j | 0 <= j < |at| ensures at[j] < n {
        assert at[j] in at && FailureAt(devices, front, reply, at[j]).Some?;
      }
      if failure.Some? {
        at := at + [n];
      }
    }
  }

  ghost predicate RepliedAt(ids: seq<Id>, reply: nat -> Answer, d: Id, k: nat) {
    k < |ids| && ids[k] == d && reply(k).Replied?
  }

  ghost predicate LastReply(ids: seq<Id>, reply: nat -> Answer, d: Id, k: nat) {
    RepliedAt(ids, reply, d, k) && forall j: nat :: k < j ==> !RepliedAt(ids, reply, d, j)
  }

  /** Every device shows its last reply, and a device that never replied is left as it was. */
  lemma {:induction false} LastReplyStays(devices: map<Id, Seen>, ids: seq<Id>, reply: nat -> Answer, d: Id)
    requires d in devices
    ensures
      var after := OneAtATime(devices, ids, reply).devices[d];
      || (after == devices[d] && forall k: nat :: !RepliedAt(ids, reply, d, k))
      || exists k: nat :: LastReply(ids, reply, d, k) && after == Seen(Some(reply(k).state), true)
  {
    if ids != [] {
      var n := |ids| - 1;
      var front := ids[..n];
      LastReplyStays(devices, front, reply, d);
      assert forall j: nat :: j < n ==> (RepliedAt(ids, reply, d, j) <==> RepliedAt(front, reply, d, j));
      if RepliedAt(ids, reply, d, n) {
        assert LastReply(ids, reply, d, n);
      } else if k: nat :| LastReply(front, reply, d, k) {
        assert LastReply(ids, reply, d, k);
      }
    }
  }

  // ---------- Bulk control

  /** The positions in `ids` whose device exists. */
  function Listed(devices: map<Id, Seen>, ids: seq<Id>): (r: seq<nat>)
    ensures forall j :: 0 <= j < |r| ==> r[j] < |ids| && ids[r[j]] in devices
  {
    if ids == [] then []
    else
      var k := |ids| - 1;
      Listed(devices, ids[..k]) + if ids[k] in devices then [k] else []
  }

  /** Every listed id that exists is commanded, as often as it is listed, and no other. */
  lemma {:induction false} ExistingAreListed(devices: map<Id, Seen>, ids: seq<Id>)
    ensures Picks(ids, devices.Keys, Listed(devices, ids))
  {
    if ids != [] {
      var n := |ids| - 1;
      var front := ids[..n];
      ExistingAreListed(devices, front);
      forall i: nat | i < |ids| && ids[i] in devices.Keys ensures i in Listed(devices, ids) {
        assert i < n ==> front[i] == ids[i] && i in Listed(devices, front);
      }
    }
  }

  /** Record the gathered answers in order. */
  function Collect(devices: map<Id, Seen>, ids: seq<Id>, reply: nat -> Answer, listed: seq<nat>): (e: Effect)
    requires forall j :: 0 <= j < |listed| ==> listed[j] < |ids|
    ensures e.devices.Keys == devices.Keys
  {
    if listed == [] then Effect(devices, Report(0, []))
    else
      var n := |listed| - 1;
      Record(Collect(devices, ids, reply, listed[..n]), ids[listed[n]], reply(listed[n]))
  }

  lemma {:induction false} CollectFront(devices: map<Id, Seen>, ids: seq<Id>, reply: nat -> Answer, listed: seq<nat>,
                                        k: nat)
    requires k <= |ids| && forall j :: 0 <= j < |listed| ==> listed[j] < k
    ensures Collect(devices, ids, reply, listed) == Collect(devices, ids[..k], reply, listed)
    decreases |listed|
  {
    if listed != [] {
      CollectFront(devices, ids, reply, listed[..|listed| - 1], k);
    }
  }

  /** Looking up every id first and recording every answer last comes to the same as the plain loop. */
  lemma {:induction false} CollectIsOneAtATime(devices: map<Id, Seen>, ids: seq<Id>, reply: nat -> Answer)
    ensures Collect(devices, ids, reply, Listed(devices, ids)) == OneAtATime(devices, ids, reply)
  {
    if ids != [] {
      var k := |ids| - 1;
      var front := Listed(devices, ids[..k]);
      CollectIsOneAtATime(devices, ids[..k], reply);
      CollectFront(devices, ids, reply, front, k);
      if ids[k] in devices {
        assert (front + [k])[..|front|] == front;
      } else {
        assert Listed(devices, ids) == front;
      }
    }
  }

  /** Run the commands under an arbitrary schedule and gather their answers. */
  method Gather(answers: seq<Answer>) returns (outcomes: seq<Answer>, ghost moves: seq<Move>)
    ensures RunOf(answers, moves).Some? && AllFinished(RunOf(answers, moves).value)
    ensures outcomes == answers
  {
    var fan := Idle(|answers|);
    moves := [];
    EveryInterleavingIsSound(answers, moves);
    LeftIsZero(fan.status);
    while !AllFinished(fan)
      invariant RunOf(answers, moves) == Some(fan)
      invariant Sound(fan, answers) && Sum(fan.status, Left) >= 0
      decreases Sum(fan.status, Left)
    {
      NeverStuck(fan, answers);
      assert exists i: nat :: i < |fan.status| && (Enabled(fan, Acquire(i)) || Enabled(fan, Release(i))) by {
        var m :| Enabled(fan, m);
        assert m == Acquire(m.i) || m == Release(m.i);
      }
      var i: nat :| i < |fan.status| && (Enabled(fan, Acquire(i)) || Enabled(fan, Release(i)));
      var m := if fan.status[i].Waiting? then Acquire(i) else Release(i);
      MoveKeepsSound(fan, answers, m);
      fan := Apply(fan, answers, m);
      assert (moves + [m])[..|moves|] == moves;
      moves := moves + [m];
      LeftIsZero(fan.status);
    }
    GatheredInOrder(answers, moves);
    outcomes := seq(|answers|, i requires 0 <= i < |answers| => fan.status[i].answer);
  }

  datatype Response = Unprocessable | Reported(report: Report)

  class Panel {
    var devices: map<Id, Seen>

    /** Look the ids up in order, keeping those that exist. */
    method Look(ids: seq<Id>) returns (listed: seq<nat>)
      ensures listed == Listed(devices, ids)
    {
      listed := [];
      for k := 0 to |ids|
        invariant listed == Listed(devices, ids[..k])
      {
        assert ids[..k + 1][..k] == ids[..k];
        if ids[k] in devices {
          listed := listed + [k];
        }
      }
      assert ids[..|ids|] == ids;
    }

    method UpdateState(d: Id, state: Json)
      modifies this
      ensures devices == if d in old(devices) then old(devices)[d := Seen(Some(state), true)] else old(devices)
    {
      if d in devices {
        devices := devices[d := Seen(Some(state), true)];
      }
    }

    /** Take the gathered outcomes into the store and count them, in the order of the list. */
    method RecordAll(ids: seq<Id>, listed: seq<nat>, outcomes: seq<Answer>, ghost reply: nat -> Answer)
        returns (report: Report)
      requires |outcomes| == |listed|
      requires forall j :: 0 <= j < |listed| ==> listed[j] < |ids| && outcomes[j] == reply(listed[j])
      modifies this
      ensures Effect(devices, report) == Collect(old(devices), ids, reply, listed)
    {
      var successes, failures := 0, [];
      for j := 0 to |listed|
        invariant Effect(devices, Report(successes, failures)) == Collect(old(devices), ids, reply, listed[..j])
      {
        assert listed[..j + 1][..j] == listed[..j];
        var d := ids[listed[j]];
        match outcomes[j] {
          case Raised(error) => failures := failures + [Failure(d, error)];
          case Unanswered => failures := failures + [Failure(d, "device did not respond")];
          case Replied(state) =>
            UpdateState(d, state);
            successes := successes + 1;
        }
      }
      assert listed[..|listed|] == listed;
      report := Report(successes, failures);
    }

    /** Bulk control of a list of ids, or of what a target resolves to: whatever the schedule of its
        commands, store and report end up as if the devices had been commanded one at a time. */
    method BulkControl(deviceIds: Option<seq<Id>>, resolved: Option<seq<Id>>, reply: nat -> Answer)
        returns (r: Response)
      modifies this
      ensures r == Unprocessable <==> (deviceIds.Some? <==> resolved.Some?)
      ensures r == Unprocessable ==> devices == old(devices)
      ensures r.Reported? ==>
        var ids := if deviceIds.Some? then deviceIds.value else resolved.value;
        Effect(devices, r.report) == OneAtATime(old(devices), ids, reply)
    {
      if deviceIds.Some? == resolved.Some? {
        return Unprocessable;
      }
      var ids := if deviceIds.Some? then deviceIds.value else resolved.value;
      var listed := Look(ids);
      var answers := seq(|listed|, j requires 0 <= j < |listed| => reply(listed[j]));
      var outcomes, moves := Gather(answers);
      var report := RecordAll(ids, listed, outcomes, reply);
      CollectIsOneAtATime(old(devices), ids, reply);
      r := Reported(report);
    }
  }
}
