/**
  What the orphan reaper can and cannot do to an execution that is alive.
 */
module ScanLiveness {
  import opened Basics
  import opened ScanTable
  import opened ScanProtocol
  import opened ScanSafety

  // ----- what the row's clock fields mean ---------------------------------------------------

  /** The last sign of life of the claim at `k`: its last heartbeat, or else the heartbeat the
      row already carried when it was claimed. */
  function LastSign(log: seq<Entry>, k: nat): Option<Time>
    requires k < |log| && log[k].fact.ClaimWon?
  {
    if k == |log| - 1 then log[k].fact.inherited else Some(log[|log| - 1].at)
  }

  ghost predicate ClockOk(w: World) {
    forall t, k | OwnsSince(w.log, t, k) ::
      && w.row.startedAt == Some(WholeSecond(w.log[k].at))
      && w.row.heartbeatAt == LastSign(w.log, k)
  }

  lemma {:induction false} ClockStepAt(w: World, m: Move, t: Token, k: int)
    requires Inv(w) && ClockOk(w) && Enabled(w, m) && OwnsSince(Apply(w, m).log, t, k)
    ensures Apply(w, m).row.startedAt == Some(WholeSecond(Apply(w, m).log[k].at))
    ensures Apply(w, m).row.heartbeatAt == LastSign(Apply(w, m).log, k)
  {
    var w' := Apply(w, m);
    var hit := Statement(w.row, m.at, m.act);
    if hit.None? {
      assert OwnsSince(w.log, t, k);
    } else {
      assert w'.log[|w.log|] == Entry(m.at, hit.value.1);
      if k < |w.log| {
        assert forall j | k <= j < |w.log| :: w'.log[j] == w.log[j];
        assert OwnsSince(w.log, t, k);
        assert hit.value.1.Beat?;
      }
    }
  }

  lemma {:induction false} ClockStep(w: World, m: Move)
    requires Inv(w) && ClockOk(w) && Enabled(w, m)
    ensures ClockOk(Apply(w, m))
  {
    var w' := Apply(w, m);
    forall t, k | OwnsSince(w'.log, t, k)
      ensures w'.row.startedAt == Some(WholeSecond(w'.log[k].at))
      ensures w'.row.heartbeatAt == LastSign(w'.log, k)
    {
      ClockStepAt(w, m, t, k);
    }
  }

  lemma {:induction false} ClockRun(w: World, ms: seq<Move>)
    requires Inv(w) && ClockOk(w) && Legal(w, ms)
    ensures ClockOk(Run(w, ms))
    decreases |ms|
  {
    if ms != [] {
      InvStep(w, ms[0]);
      ClockStep(w, ms[0]);
      ClockRun(Apply(w, ms[0]), ms[1..]);
    }
  }

  /** Silence as the history shows it: the owner's last beat is too old; or it has not beaten
      yet and the beat the row carried over is too old; or there is no beat at all and the claim,
      to the whole second, is too old. */
  predicate TooSilent(log: seq<Entry>, k: nat, now: Time, limits: Limits)
    requires k < |log| && log[k].fact.ClaimWon?
  {
    if k < |log| - 1 then log[|log| - 1].at < now - limits.stale
    else match log[k].fact.inherited
      case Some(beat) => beat < now - limits.stale
      case None => WholeSecond(log[k].at) < now - limits.age
  }

  /** The reaper takes a scan from its owner exactly when the owner has been silent, whatever
      the runtime; and it touches no scan that is not running. */
  lemma {:induction false} ReaperJudgesSilence(row: Row, ms: seq<Move>, t: Token, k: nat, now: Time, limits: Limits)
    requires Unowned(row) && Legal(Init(row), ms)
    requires OwnsSince(Run(Init(row), ms).log, t, k)
    ensures Orphaned(Run(Init(row), ms).row, now, limits) <==> TooSilent(Run(Init(row), ms).log, k, now, limits)
  {
    var w := Run(Init(row), ms);
    InvInit(row);
    InvRun(Init(row), ms);
    assert forall t, k :: !OwnsSince([], t, k);
    ClockRun(Init(row), ms);
    assert OwnsAfter(w.log, t);
    assert OwnedBy(w.row, t);
  }

  // ----- an execution that keeps time -------------------------------------------------------

  /** The instant after which the reaper may take the row, as it stands. */
  function Due(row: Row, limits: Limits): Time {
    match row.heartbeatAt
    case Some(beat) => beat + limits.stale
    case None => if row.startedAt.Some? then row.startedAt.value + limits.age else 0
  }

  /** Nothing in the run happens after the beat then due, and each beat of `t` sets the next
      one due a staleness limit later. */
  predicate OnTime(ms: seq<Move>, t: Token, due: Time, limits: Limits)
    decreases |ms|
  {
    ms == [] ||
    (ms[0].at <= due
     && OnTime(ms[1..], t, if ms[0].act == Heartbeat(t) then ms[0].at + limits.stale else due, limits))
  }

  /** No reap in the run takes the row from `t`. */
  predicate NeverReaped(w: World, ms: seq<Move>, t: Token, limits: Limits)
    requires Legal(w, ms)
    decreases |ms|
  {
    ms == [] ||
    ((ms[0].act == Reap(limits) && OwnedBy(w.row, t) ==> OwnedBy(Apply(w, ms[0]).row, t))
     && NeverReaped(Apply(w, ms[0]), ms[1..], t, limits))
  }

  lemma {:induction false} KeepsTime(w: World, ms: seq<Move>, t: Token, due: Time, limits: Limits)
    requires Inv(w) && Legal(w, ms)
    requires t in w.executions && w.executions[t].pc != Loaded
    requires OwnedBy(w.row, t) ==> w.row.startedAt.Some? && due <= Due(w.row, limits)
    requires OnTime(ms, t, due, limits)
    ensures NeverReaped(w, ms, t, limits)
    decreases |ms|
  {
    if ms != [] {
      var m := ms[0];
      InvStep(w, m);
      KeepsTime(Apply(w, m), ms[1..], t, if m.act == Heartbeat(t) then m.at + limits.stale else due, limits);
    }
  }

  /** A live execution is never reaped, at any runtime: if the row's heartbeat was null or still
      fresh when `t` claimed it, the first beat comes within the age limit (null) or before the
      old beat goes stale (fresh), and later beats are never further apart than the staleness
      limit, then no reap of the run takes the row from `t`. */
  lemma {:induction false} LiveExecutionIsNeverReaped(w: World, m: Move, ms: seq<Move>, t: Token, limits: Limits)
    requires Inv(w) && Enabled(w, m) && m.act == Claim(t) && Claimable(w.row)
    requires Legal(Apply(w, m), ms)
    requires OnTime(ms, t, match w.row.heartbeatAt
                           case Some(beat) => beat + limits.stale
                           case None => WholeSecond(m.at) + limits.age, limits)
    ensures NeverReaped(Apply(w, m), ms, t, limits)
  {
    InvStep(w, m);
    KeepsTime(Apply(w, m), ms, t, Due(Apply(w, m).row, limits), limits);
  }

  /** A run that beats once, at time zero, and is then returned to the queue. */
  lemma {:induction false} BeatThenRequeue(row: Row) returns (ms: seq<Move>, w: World)
    requires Unowned(row) && Claimable(row)
    ensures Legal(Init(row), ms) && Run(Init(row), ms) == w && w.clock == 0
    ensures w.row.status == Queued && w.row.heartbeatAt == Some(0) && w.executions.Keys == {1}
  {
    var w0 := Init(row);
    ms, w := ClaimFirst(row);
    ms, w := Do(w0, ms, w, ActOnClaim(1));
    assert OwnedBy(w.row, 1) && w.executions[1].pc == Working;
    ms, w := Do(w0, ms, w, Heartbeat(1));
    ms, w := Do(w0, ms, w, Requeue);
  }

  /** Without a fresh heartbeat at the claim this is false, `started_at` notwithstanding: neither
      the requeue nor the claim resets the heartbeat, so an execution that re-claims a scan
      longer than the staleness limit after the last beat is reaped in the instant it starts. */
  lemma {:induction false} ReclaimedScanIsReapedAtOnce(row: Row, limits: Limits)
    returns (ms: seq<Move>, w: World, now: Time)
    requires Unowned(row) && Claimable(row)
    ensures Legal(Init(row), ms) && Run(Init(row), ms) == w && w.clock == now
    ensures OwnsAfter(w.log, 2) && w.log[|w.log| - 1] == Entry(now, ClaimWon(2, Some(0)))
    ensures Enabled(w, Move(now, Reap(limits))) && Apply(w, Move(now, Reap(limits))).row.status == Failed
  {
    var w0 := Init(row);
    now := limits.stale + 1;
    ms, w := BeatThenRequeue(row);
    ms, w := Do(w0, ms, w, Start(2));
    ms, w := Do(w0, ms, w, Claim(2), now);
    assert OwnsSince(w.log, 2, |w.log| - 1);
  }
}
