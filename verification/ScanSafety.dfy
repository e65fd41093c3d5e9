/**
  What the ownership protocol guarantees, over every run from a row nobody owns.
 */
module ScanSafety {
  import opened Basics
  import opened ScanTable
  import opened ScanProtocol

  // ----- runs -------------------------------------------------------------------------------

  lemma {:induction false} RunAppend(w: World, ms: seq<Move>, ms': seq<Move>)
    requires Legal(w, ms) && Legal(Run(w, ms), ms')
    ensures Legal(w, ms + ms') && Run(w, ms + ms') == Run(Run(w, ms), ms')
    decreases |ms|
  {
    if ms == [] {
      assert ms + ms' == ms';
    } else {
      RunAppend(Apply(w, ms[0]), ms[1..], ms');
      assert (ms + ms')[1..] == ms[1..] + ms';
    }
  }

  lemma {:induction false} Then(w: World, ms: seq<Move>, m: Move)
    requires Legal(w, ms) && Enabled(Run(w, ms), m)
    ensures Legal(w, ms + [m]) && Run(w, ms + [m]) == Apply(Run(w, ms), m)
  {
    var last, one := Run(w, ms), [m];
    assert one[0] == m && one[1..] == [];
    assert Legal(Apply(last, m), one[1..]) && Legal(last, one);
    assert Run(last, one) == Run(Apply(last, one[0]), one[1..]) == Apply(last, m);
    RunAppend(w, ms, one);
  }

  // ----- fencing ----------------------------------------------------------------------------

  /** In every interleaving a terminal write matches the row exactly when its execution won the
      latest claim and nothing but heartbeats has touched the row since; a write that does not
      match changes nothing. */
  lemma {:induction false} TerminalWriteIsFenced(row: Row, ms: seq<Move>, m: Move, t: Token)
    requires Unowned(row) && Legal(Init(row), ms) && Enabled(Run(Init(row), ms), m)
    requires m.act == TimeoutWrite(t) || (m.act.Finalize? && m.act.token == t)
    ensures var w := Run(Init(row), ms);
            var w' := Apply(w, m);
            var target := if m.act.Finalize? then m.act.target else Failed;
            && (w'.executions[t].pc.won <==> OwnsAfter(w.log, t))
            && (if OwnsAfter(w.log, t)
                then w'.row.status == target && w'.row.token == None && w'.executions[t].wrote == Some(target)
                else w'.row == w.row)
  {
    InvInit(row);
    InvRun(Init(row), ms);
    assert OwnedBy(Run(Init(row), ms).row, t) <==> OwnsAfter(Run(Init(row), ms).log, t);
  }

  /** The check before each tool tells an execution to go on exactly while it owns the scan. */
  lemma {:induction false} StopCheckKnowsTheOwner(row: Row, ms: seq<Move>, t: Token)
    requires Unowned(row) && Legal(Init(row), ms)
    ensures var w := Run(Init(row), ms);
            && (StopReasonFor(w.row, t) == KeepGoing <==> OwnsAfter(w.log, t))
            && (StopReasonFor(w.row, t) == StopRevoked <==> !OwnsAfter(w.log, t) && w.row.status != Cancelled)
  {
    InvInit(row);
    InvRun(Init(row), ms);
    assert OwnedBy(Run(Init(row), ms).row, t) <==> OwnsAfter(Run(Init(row), ms).log, t);
  }

  lemma {:induction false} StaysGone(w: World, ms: seq<Move>, t: Token)
    requires Inv(w) && Legal(w, ms)
    requires t in w.executions && w.executions[t].pc != Loaded && w.row.token != Some(t)
    ensures Run(w, ms).row.token != Some(t)
    decreases |ms|
  {
    if ms != [] {
      InvStep(w, ms[0]);
      StaysGone(Apply(w, ms[0]), ms[1..], t);
    }
  }

  lemma {:induction false} StaysIssued(w: World, ms: seq<Move>, t: Token)
    requires Legal(w, ms)
    requires t in w.executions && w.executions[t].pc != Loaded
    ensures t in Run(w, ms).executions && Run(w, ms).executions[t].pc != Loaded
    decreases |ms|
  {
    if ms != [] {
      StaysIssued(Apply(w, ms[0]), ms[1..], t);
    }
  }

  /** A token that was on the row and has left it never comes back. */
  lemma {:induction false} TokenNeverReturns(row: Row, ms: seq<Move>, until: seq<Move>, later: seq<Move>, t: Token)
    requires Unowned(row) && Legal(Init(row), ms)
    requires Run(Init(row), ms).row.token == Some(t)
    requires Legal(Run(Init(row), ms), until)
    requires Run(Run(Init(row), ms), until).row.token != Some(t)
    requires Legal(Run(Run(Init(row), ms), until), later)
    ensures Run(Run(Run(Init(row), ms), until), later).row.token != Some(t)
  {
    InvInit(row);
    InvRun(Init(row), ms);
    var w := Run(Init(row), ms);
    InvRun(w, until);
    StaysIssued(w, until, t);
    StaysGone(Run(w, until), later, t);
  }

  // ----- absorbing statuses -----------------------------------------------------------------

  predicate Settled(status: Status) {
    status in {Completed, CompletedWithErrors, Cancelled}
  }

  /** A settled scan stays settled.  Its status changes exactly if it was not cancelled and a workspace
      deletion writes, and then to cancelled. */
  lemma {:induction false} SettledIsAbsorbing(w: World, ms: seq<Move>)
    requires Inv(w) && Legal(w, ms) && Settled(w.row.status)
    ensures Settled(Run(w, ms).row.status)
    ensures Run(w, ms).row.status == w.row.status || Run(w, ms).row.status == Cancelled
    ensures Run(w, ms).row.status == w.row.status <==>
            w.row.status == Cancelled || forall m | m in ms :: !m.act.TeardownWrite?
    decreases |ms|
  {
    if ms != [] {
      InvStep(w, ms[0]);
      SettledIsAbsorbing(Apply(w, ms[0]), ms[1..]);
    }
  }

  /** One step out of each terminal status: `failed` is left by a claim alone, the others by
      nothing, the blind write of a workspace deletion apart. */
  lemma {:induction false} LeavingATerminalStatus(w: World, m: Move)
    requires Inv(w) && Enabled(w, m) && w.row.status in TERMINAL
    requires Apply(w, m).row.status != w.row.status
    ensures m.act.TeardownWrite? || (m.act.Claim? && w.row.status == Failed && Apply(w, m).row.status == Running)
    ensures m.act.TeardownWrite? ==> Apply(w, m).row.status == Cancelled && w.row.status != Cancelled
  {
  }

  // ----- reporting --------------------------------------------------------------------------

  /** The decision after the refresh reports exactly a won write, on the exception path too,
      where the code never looks at `won` alone. */
  lemma {:induction false} DecisionReportsExactlyAWin(row: Row, ms: seq<Move>, t: Token)
    requires Unowned(row) && Legal(Init(row), ms)
    requires t in Run(Init(row), ms).executions && Run(Init(row), ms).executions[t].pc.Refreshed?
    ensures var p := Run(Init(row), ms).executions[t].pc;
            Reports(t, p.raised, p.won, p.seen) <==> p.won
  {
    InvInit(row);
    InvRun(Init(row), ms);
    assert ExecutionOk(Run(Init(row), ms), t, Run(Init(row), ms).executions[t]);
  }

  /** An execution that came to its own end recorded one metric and published one event if its
      terminal UPDATE matched, and neither if it did not.  One that was cut short never
      reported more than it had won. */
  lemma {:induction false} ReportsExactlyOnce(row: Row, ms: seq<Move>, t: Token)
    requires Unowned(row) && Legal(Init(row), ms)
    requires t in Run(Init(row), ms).executions
    ensures var e := Run(Init(row), ms).executions[t];
            && (e.pc == Ended ==> |e.metrics| == |e.events| == if e.wrote.Some? then 1 else 0)
            && |e.events| <= |e.metrics| <= 1
            && (e.metrics != [] ==> e.wrote.Some?)
  {
    InvInit(row);
    InvRun(Init(row), ms);
    assert ExecutionOk(Run(Init(row), ms), t, Run(Init(row), ms).executions[t]);
  }

  /** Whatever is reported for a completed scan is the status that was stored, as long as no
      workspace deletion wrote to the row. */
  lemma {:induction false} ReportedStatusIsStoredStatus(row: Row, ms: seq<Move>, t: Token, s: Status)
    requires Unowned(row) && Legal(Init(row), ms)
    requires t in Run(Init(row), ms).executions
    requires Run(Init(row), ms).executions[t].wrote in {Some(Completed), Some(CompletedWithErrors)}
    requires NoTeardown(Run(Init(row), ms).log)
    requires s in Run(Init(row), ms).executions[t].metrics || s in Run(Init(row), ms).executions[t].events
    ensures Run(Init(row), ms).executions[t].wrote == Some(s) && Run(Init(row), ms).row.status == s
  {
    InvInit(row);
    InvRun(Init(row), ms);
    assert ExecutionOk(Run(Init(row), ms), t, Run(Init(row), ms).executions[t]);
  }

  // ----- the status the history shows -------------------------------------------------------

  /** The status a matched statement sets; a heartbeat sets none. */
  function Sets(fact: Fact): Option<Status> {
    match fact
    case ClaimWon(_, _) => Some(Running)
    case Beat => None
    case FinalWon(stored) => Some(stored)
    case WasReaped => Some(Failed)
    case WasRequeued => Some(Queued)
    case WasCancelled => Some(Cancelled)
    case WasTornDown => Some(Cancelled)
  }

  /** The status that the last statement to set one set. */
  function LastSet(log: seq<Entry>, initial: Status): Status {
    if log == [] then initial
    else
      var n := |log| - 1;
      if Sets(log[n].fact).Some? then Sets(log[n].fact).value else LastSet(log[..n], initial)
  }

  lemma {:induction false} LastSetStep(w: World, m: Move, initial: Status)
    requires Enabled(w, m) && w.row.status == LastSet(w.log, initial)
    ensures Apply(w, m).row.status == LastSet(Apply(w, m).log, initial)
  {
    var w' := Apply(w, m);
    var hit := Statement(w.row, m.at, m.act);
    if hit.Some? {
      assert w'.log[..|w.log|] == w.log;
      assert w'.log[|w.log|].fact == hit.value.1;
    }
  }

  /** The row's status is always the one its history shows. */
  lemma {:induction false} StatusIsLastSet(w: World, ms: seq<Move>, initial: Status)
    requires Legal(w, ms) && w.row.status == LastSet(w.log, initial)
    ensures Run(w, ms).row.status == LastSet(Run(w, ms).log, initial)
    decreases |ms|
  {
    if ms != [] {
      LastSetStep(w, ms[0], initial);
      StatusIsLastSet(Apply(w, ms[0]), ms[1..], initial);
    }
  }

  /** After its refresh, an execution that won reports the row it saw, and after an exception the
      metric as failed, whatever happens next. */
  predicate ReportsSeen(e: Execution, seen: Row, raised: bool) {
    && (e.pc.Refreshed? || e.pc.Announcing? || e.pc.TimedOut? || e.pc == TimeoutWritten(false)
        || e.pc.Ended? || e.pc.EndedByTimeout? || e.pc.Crashed?)
    && (e.pc.Refreshed? ==> e.pc.seen == seen && e.pc.raised == raised && e.pc.won)
    && (e.pc.Announcing? ==> e.pc.seen == seen)
    && (forall i | 0 <= i < |e.metrics| :: e.metrics[i] == if raised then Failed else seen.status)
    && (forall i | 0 <= i < |e.events| :: e.events[i] == seen.status)
  }

  lemma {:induction false} ReportsSeenStep(w: World, m: Move, t: Token, seen: Row, raised: bool)
    requires Inv(w) && Enabled(w, m) && t in w.executions
    requires w.executions[t].wrote.Some? && ReportsSeen(w.executions[t], seen, raised)
    ensures t in Apply(w, m).executions && Apply(w, m).executions[t].wrote.Some?
    ensures ReportsSeen(Apply(w, m).executions[t], seen, raised)
  {
    assert ExecutionOk(w, t, w.executions[t]);
  }

  lemma {:induction false} ReportsSeenRun(w: World, ms: seq<Move>, t: Token, seen: Row, raised: bool)
    requires Inv(w) && Legal(w, ms) && t in w.executions
    requires w.executions[t].wrote.Some? && ReportsSeen(w.executions[t], seen, raised)
    ensures t in Run(w, ms).executions && ReportsSeen(Run(w, ms).executions[t], seen, raised)
    decreases |ms|
  {
    if ms != [] {
      ReportsSeenStep(w, ms[0], t, seen, raised);
      InvStep(w, ms[0]);
      ReportsSeenRun(Apply(w, ms[0]), ms[1..], t, seen, raised);
    }
  }

  /** Every event of a won write, and every metric but that of an exception, is the stored status
      if and only if the last statement to set the status before the refresh set that one.  This
      holds of any stored status, with any steps before the refresh and after it; the metric of
      an exception is always what was stored. */
  lemma {:induction false} ReportIsStoredExactlyIfUnchanged(row: Row, ms: seq<Move>, t: Token, at: Time,
                                                            later: seq<Move>, s: Status)
    requires Unowned(row) && Legal(Init(row), ms)
    requires var w := Run(Init(row), ms);
      && t in w.executions && w.executions[t].pc.Written? && w.executions[t].pc.won
      && Enabled(w, Move(at, Refresh(t))) && Legal(Apply(w, Move(at, Refresh(t))), later)
    ensures var w := Run(Init(row), ms);
      var p := w.executions[t].pc;
      var w' := Run(Apply(w, Move(at, Refresh(t))), later);
      && t in w'.executions
      && (s in w'.executions[t].events || (s in w'.executions[t].metrics && !p.raised) ==>
            (s == p.target <==> LastSet(w.log, row.status) == p.target))
      && (s in w'.executions[t].metrics && p.raised ==> s == p.target)
  {
    var w := Run(Init(row), ms);
    InvInit(row);
    InvRun(Init(row), ms);
    StatusIsLastSet(Init(row), ms, row.status);
    assert ExecutionOk(w, t, w.executions[t]);
    var m := Move(at, Refresh(t));
    InvStep(w, m);
    ReportsSeenRun(Apply(w, m), later, t, w.row, w.executions[t].pc.raised);
  }

  predicate Undisturbed(w: World, ms: seq<Move>)
    requires Legal(w, ms)
    decreases |ms|
  {
    ms == [] ||
    (!ms[0].act.TeardownWrite? && !(ms[0].act.Claim? && Claimable(w.row)) && Undisturbed(Apply(w, ms[0]), ms[1..]))
  }

  /** That is so whenever neither a claim nor a workspace deletion comes between the write and the
      refresh: a stored terminal status is still on the row. */
  lemma {:induction false} StoredStatusStaysUndisturbed(w: World, ms: seq<Move>)
    requires Inv(w) && Legal(w, ms) && w.row.status in TERMINAL && Undisturbed(w, ms)
    ensures Run(w, ms).row.status == w.row.status
    decreases |ms|
  {
    if ms != [] {
      InvStep(w, ms[0]);
      if Apply(w, ms[0]).row.status != w.row.status {
        LeavingATerminalStatus(w, ms[0]);
      }
      StoredStatusStaysUndisturbed(Apply(w, ms[0]), ms[1..]);
    }
  }

  /** So what is reported is what was stored, whenever neither comes between. */
  lemma {:induction false} UndisturbedWriteIsReported(row: Row, ms: seq<Move>, between: seq<Move>, t: Token, at: Time,
                                                      later: seq<Move>, s: Status)
    requires Unowned(row) && Legal(Init(row), ms)
    requires var w := Run(Init(row), ms);
      && t in w.executions && w.executions[t].pc.Written? && w.executions[t].pc.won
      && w.row.status == w.executions[t].pc.target
      && Legal(w, between) && Undisturbed(w, between)
      && t in Run(w, between).executions && Run(w, between).executions[t].pc == w.executions[t].pc
      && Enabled(Run(w, between), Move(at, Refresh(t)))
      && Legal(Apply(Run(w, between), Move(at, Refresh(t))), later)
    ensures var w := Run(Run(Init(row), ms), between);
      var e := Run(Apply(w, Move(at, Refresh(t))), later).executions;
      t in e && (s in e[t].events || s in e[t].metrics ==> s == w.executions[t].pc.target)
  {
    var w := Run(Init(row), ms);
    InvInit(row);
    InvRun(Init(row), ms);
    assert ExecutionOk(w, t, w.executions[t]);
    StoredStatusStaysUndisturbed(w, between);
    RunAppend(Init(row), ms, between);
    StatusIsLastSet(Init(row), ms + between, row.status);
    ReportIsStoredExactlyIfUnchanged(row, ms + between, t, at, later, s);
  }

  // ----- runs that show it can fail ---------------------------------------------------------

  /** Extends a run by one step. */
  lemma {:induction false} Do(w0: World, ms: seq<Move>, w: World, act: Action, at: Time := 0)
    returns (ms': seq<Move>, w': World)
    requires Legal(w0, ms) && Run(w0, ms) == w
    requires Enabled(w, Move(at, act))
    ensures w' == Apply(w, Move(at, act))
    ensures Legal(w0, ms') && Run(w0, ms') == w'
  {
    Then(w0, ms, Move(at, act));
    ms', w' := ms + [Move(at, act)], Apply(w, Move(at, act));
  }

  /** A run in which execution 1 claims the scan. */
  lemma {:induction false} ClaimFirst(row: Row) returns (ms: seq<Move>, w: World)
    requires Unowned(row) && Claimable(row)
    ensures Legal(Init(row), ms) && Run(Init(row), ms) == w && w.clock == 0
    ensures w == World(Claimed(row, 1, 0), map[1 := Execution(ClaimAnswered(true), None, [], [])],
                       [Entry(0, ClaimWon(1, row.heartbeatAt))], 0, false)
  {
    var w0 := Init(row);
    ms, w := Do(w0, [], w0, Start(1));
    ms, w := Do(w0, ms, w, Claim(1));
  }

  /** A run in which execution 1 claims the scan and is about to store `target`. */
  lemma {:induction false} AboutToFinish(row: Row, target: Status) returns (ms: seq<Move>, w: World)
    requires Unowned(row) && Claimable(row) && target in AGGREGATES
    ensures Legal(Init(row), ms) && Run(Init(row), ms) == w && w.clock == 0
    ensures OwnedBy(w.row, 1) && NoTeardown(w.log) && w.executions.Keys == {1}
    ensures w.executions[1] == Execution(Finishing(target, false), None, [], [])
  {
    var w0 := Init(row);
    ms, w := ClaimFirst(row);
    ms, w := Do(w0, ms, w, ActOnClaim(1));
    assert OwnedBy(w.row, 1) && w.executions[1] == Execution(Working, None, [], []);
    ms, w := Do(w0, ms, w, FinishBody(1, target));
  }

  /** Of a scan stored as failed that can be false: from any claimable row, a retry can claim it
      before the first execution refreshes, which then reports a scan that is running. */
  lemma {:induction false} FailedScanReportedAsRunning(row: Row) returns (ms: seq<Move>, w: World)
    requires Unowned(row) && Claimable(row)
    ensures Legal(Init(row), ms) && Run(Init(row), ms) == w && NoTeardown(w.log)
    ensures 1 in w.executions && w.executions[1] == Execution(Ended, Some(Failed), [Running], [Running])
  {
    var w0 := Init(row);
    ms, w := AboutToFinish(row, Failed);
    ms, w := Do(w0, ms, w, Finalize(1, Failed));
    ms, w := Do(w0, ms, w, Start(2));
    ms, w := Do(w0, ms, w, Claim(2));
    var lost := Execution(Written(Failed, false, true), Some(Failed), [], []);
    assert w.row.status == Running && w.executions[1] == lost && w.clock == 0 && NoTeardown(w.log);
    ms, w := ReportAfterWin(w0, ms, w, 1);
  }

  lemma {:induction false} AnnounceAfterRefresh(w0: World, ms: seq<Move>, w: World, t: Token, seen: Row)
    returns (ms': seq<Move>, w': World)
    requires Legal(w0, ms) && Run(w0, ms) == w && w.clock == 0 && t in w.executions
    requires w.executions[t].pc == Refreshed(Failed, false, true, seen) && Silent(w.executions[t])
    ensures Legal(w0, ms') && Run(w0, ms') == w' && w'.log == w.log && w'.clock == 0 && t in w'.executions
    ensures w'.executions[t] == Execution(Announcing(seen), w.executions[t].wrote, [seen.status], [])
  {
    ms', w' := Do(w0, ms, w, Decide(t));
  }

  /** Refresh, decide, publish: a won write is reported with the status then on the row. */
  lemma {:induction false} ReportAfterWin(w0: World, ms: seq<Move>, w: World, t: Token)
    returns (ms': seq<Move>, w': World)
    requires Legal(w0, ms) && Run(w0, ms) == w && w.clock == 0
    requires t in w.executions && w.executions[t].pc == Written(Failed, false, true) && Silent(w.executions[t])
    ensures Legal(w0, ms') && Run(w0, ms') == w' && w'.log == w.log
    ensures t in w'.executions
    ensures w'.executions[t] == Execution(Ended, w.executions[t].wrote, [w.row.status], [w.row.status])
  {
    ms', w' := Do(w0, ms, w, Refresh(t));
    assert w'.executions[t] == Execution(Refreshed(Failed, false, true, w.row), w.executions[t].wrote, [], []);
    ms', w' := AnnounceAfterRefresh(w0, ms', w', t, w.row);
    ms', w' := Do(w0, ms', w', Publish(t));
  }

  /** And a workspace deletion does overwrite a result stored after it read the row. */
  lemma {:induction false} TeardownOverwritesACompletedScan(row: Row) returns (ms: seq<Move>, m: Move)
    requires Unowned(row) && Claimable(row)
    ensures Legal(Init(row), ms) && Run(Init(row), ms).row.status == Completed
    ensures Enabled(Run(Init(row), ms), m) && Apply(Run(Init(row), ms), m).row.status == Cancelled
  {
    var w;
    ms, w := AboutToFinish(row, Completed);
    ms, w := Do(Init(row), ms, w, TeardownRead);
    ms, w := Do(Init(row), ms, w, Finalize(1, Completed));
    m := Move(0, TeardownWrite);
  }
}
