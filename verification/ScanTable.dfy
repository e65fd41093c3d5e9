/**
  The `scans` table and the six conditional UPDATE statements that move a scan through its
  life.  Each statement is first a function on one row (what the UPDATE does to a row its
  WHERE clause matches) and then a method of the table that issues it.
 */
module ScanTable {
  import opened Basics

  type Token = nat
  type ScanId = nat
  type Time = int  // microseconds, the precision of a DATETIME(6) column

  datatype Status = Queued | Running | Completed | CompletedWithErrors | Failed | Cancelled

  datatype Row = Row(status: Status, token: Option<Token>, startedAt: Option<Time>, heartbeatAt: Option<Time>,
                     queuedAt: Option<Time>, completedAt: Option<Time>, taskId: Option<string>)

  const TERMINAL := {Completed, CompletedWithErrors, Failed, Cancelled}

  /** A bare `now()` drops the fraction of a second; `now(6)` keeps it. */
  function WholeSecond(at: Time): Time {
    at - at % 1_000_000
  }

  // ----- what each statement does to one row ------------------------------------------------

  predicate Claimable(r: Row) {
    r.status == Queued || r.status == Failed
  }

  function Claimed(r: Row, token: Token, now: Time): Row {
    r.(status := Running, startedAt := Some(WholeSecond(now)), token := Some(token))
  }

  predicate OwnedBy(r: Row, token: Token) {
    r.status == Running && r.token == Some(token)
  }

  function Beaten(r: Row, now: Time): Row {
    r.(heartbeatAt := Some(now))
  }

  function Finalized(r: Row, target: Status, now: Time): Row {
    r.(status := target, completedAt := Some(WholeSecond(now)), token := None)
  }

  /** The reaper's two limits, in microseconds. */
  datatype Limits = Limits(stale: nat, age: nat)

  predicate Orphaned(r: Row, now: Time, limits: Limits) {
    && r.status == Running
    && match r.heartbeatAt
       case Some(beat) => beat < now - limits.stale
       case None => r.startedAt.Some? && r.startedAt.value < now - limits.age
  }

  function Reaped(r: Row, now: Time): Row {
    r.(status := Failed, completedAt := Some(now), token := None)
  }

  function Requeued(r: Row, now: Time): Row {
    r.(status := Queued, startedAt := None, taskId := None, token := None, queuedAt := Some(WholeSecond(now)))
  }

  function UserCancelled(r: Row, now: Time): Row {
    r.(status := Cancelled, completedAt := Some(now), token := None)
  }

  /** Workspace deletion assigns the status through the ORM: no WHERE on the status, and the
      token is left in place. */
  function TornDown(r: Row, now: Time): Row {
    r.(status := Cancelled, completedAt := Some(now))
  }

  /** What an execution is told when it asks whether to go on. */
  datatype StopReason = KeepGoing | StopCancelled | StopRevoked

  function StopReasonFor(r: Row, token: Token): StopReason {
    if r.status == Cancelled then StopCancelled
    else if r.status != Running || r.token != Some(token) then StopRevoked
    else KeepGoing
  }

  // ----- the statements, issued against the table -------------------------------------------

  class Scans {
    var rows: map<ScanId, Row>

    constructor (initial: map<ScanId, Row>)
      ensures rows == initial
    {
      rows := initial;
    }

    method Claim(id: ScanId, token: Token, now: Time) returns (claimed: bool)
      modifies this
      ensures claimed == (id in old(rows) && Claimable(old(rows)[id]))
      ensures rows == if claimed then old(rows)[id := Claimed(old(rows)[id], token, now)] else old(rows)
    {
      claimed := id in rows && rows[id].status in {Queued, Failed};
      if claimed {
        rows := rows[id := rows[id].(status := Running, startedAt := Some(WholeSecond(now)), token := Some(token))];
      }
    }

    /** Without a token, as `run_scan` called directly has none, any running row is stamped. */
    method StampHeartbeat(id: ScanId, token: Option<Token>, now: Time)
      modifies this
      ensures rows == if id in old(rows) && old(rows)[id].status == Running
                           && (token.Some? ==> OwnedBy(old(rows)[id], token.value))
                      then old(rows)[id := Beaten(old(rows)[id], now)] else old(rows)
    {
      if token.None? {
        if id in rows && rows[id].status == Running {
          rows := rows[id := rows[id].(heartbeatAt := Some(now))];
        }
      } else if id in rows && rows[id].status == Running && rows[id].token == token {
        rows := rows[id := rows[id].(heartbeatAt := Some(now))];
      }
    }

    method FinalizeStatus(id: ScanId, target: Status, token: Token, now: Time) returns (won: bool)
      modifies this
      ensures won == (id in old(rows) && OwnedBy(old(rows)[id], token))
      ensures rows == if won then old(rows)[id := Finalized(old(rows)[id], target, now)] else old(rows)
    {
      won := id in rows && rows[id].status == Running && rows[id].token == Some(token);
      if won {
        rows := rows[id := rows[id].(status := target, completedAt := Some(WholeSecond(now)), token := None)];
      }
    }

    /** One UPDATE over every row, so the loop is the database's own row scan. */
    method ReapOrphans(now: Time, limits: Limits) returns (reaped: nat)
      modifies this
      ensures rows.Keys == old(rows).Keys
      ensures forall id <- rows :: rows[id] == if Orphaned(old(rows)[id], now, limits)
                                               then Reaped(old(rows)[id], now) else old(rows)[id]
      ensures reaped == |set id | id in old(rows) && Orphaned(old(rows)[id], now, limits)|
    {
      var matched := set id | id in rows && Orphaned(rows[id], now, limits);
      var remaining := matched;
      reaped := 0;
      while remaining != {}
        invariant remaining <= matched <= old(rows).Keys == rows.Keys
        invariant reaped == |matched| - |remaining|
        invariant forall id <- rows :: rows[id] == if id in matched - remaining
                                                   then Reaped(old(rows)[id], now) else old(rows)[id]
        decreases remaining
      {
        var id :| id in remaining;
        rows := rows[id := Reaped(rows[id], now)];
        remaining := remaining - {id};
        reaped := reaped + 1;
      }
      assert matched == set id | id in old(rows) && Orphaned(old(rows)[id], now, limits);
    }

    method Requeue(id: ScanId, now: Time) returns (requeued: bool)
      modifies this
      ensures requeued == (id in old(rows) && old(rows)[id].status == Running)
      ensures rows == if requeued then old(rows)[id := Requeued(old(rows)[id], now)] else old(rows)
    {
      requeued := id in rows && rows[id].status == Running;
      if requeued {
        rows := rows[id := rows[id].(status := Queued, startedAt := None, taskId := None, token := None,
                                     queuedAt := Some(WholeSecond(now)))];
      }
    }

    method Cancel(id: ScanId, now: Time) returns (won: bool)
      modifies this
      ensures won == (id in old(rows) && old(rows)[id].status !in TERMINAL)
      ensures rows == if won then old(rows)[id := UserCancelled(old(rows)[id], now)] else old(rows)
    {
      won := id in rows && rows[id].status !in TERMINAL;
      if won {
        rows := rows[id := rows[id].(status := Cancelled, completedAt := Some(now), token := None)];
      }
    }

    /** The shutdown watchdog.  `inflight(k)` is what the worker still executes at its k-th look
        and `elapsed(k)` the time since SIGTERM; `failed(j)` says whether the j-th requeue call
        raised.  A look that finds nothing in flight ends the watch with no write at all;
        otherwise the look after the deadline is the one that is requeued. */
    method DrainAndRequeue(inflight: nat -> seq<ScanId>, elapsed: nat -> int, failed: nat -> bool, deadline: int,
                           poll: int, now: Time)
      returns (requeued: seq<ScanId>, looks: nat)
      requires 0 < poll
      requires forall k: nat :: elapsed(k) >= k * poll
      modifies this
      ensures forall k: nat :: k < looks ==> inflight(k) != [] && elapsed(k) < deadline
      ensures inflight(looks) == [] || elapsed(looks) >= deadline
      ensures inflight(looks) == [] ==> requeued == [] && rows == old(rows)
      ensures inflight(looks) != [] ==>
                && requeued == Returned(old(rows), inflight(looks + 1), failed, now).0
                && rows == Returned(old(rows), inflight(looks + 1), failed, now).1
    {
      looks := 0;
      requeued := [];
      while true
        invariant rows == old(rows)
        invariant forall k: nat :: k < looks ==> inflight(k) != [] && elapsed(k) < deadline
        invariant looks > 0 ==> (looks - 1) * poll < deadline
        decreases deadline - (looks - 1) * poll
      {
        if inflight(looks) == [] {
          return;
        }
        if elapsed(looks) >= deadline {
          break;
        }
        looks := looks + 1;
      }
      var pending := inflight(looks + 1);
      for j := 0 to |pending|
        invariant (requeued, rows) == Returned(old(rows), pending[..j], failed, now)
      {
        assert pending[..j + 1][..j] == pending[..j];
        if !failed(j) {
          var done := Requeue(pending[j], now);
          if done {
            requeued := requeued + [pending[j]];
          }
        }
      }
      assert pending[..|pending|] == pending;
    }
  }

  /** The list returned and the table left by requeueing `ids` in order. */
  function Returned(rows: map<ScanId, Row>, ids: seq<ScanId>, failed: nat -> bool, now: Time)
    : (seq<ScanId>, map<ScanId, Row>)
  {
    if ids == [] then ([], rows) else
      var last := |ids| - 1;
      var (done, left) := Returned(rows, ids[..last], failed, now);
      var id := ids[last];
      if failed(last) || id !in left || left[id].status != Running then (done, left)
      else (done + [id], left[id := Requeued(left[id], now)])
  }

  /** Naming goes in the order of the list: what is named of a part of it stays named first. */
  lemma {:induction false} ReturnedInOrder(rows: map<ScanId, Row>, ids: seq<ScanId>, k: nat, failed: nat -> bool,
                                           now: Time)
    requires k <= |ids|
    ensures Returned(rows, ids[..k], failed, now).0 <= Returned(rows, ids, failed, now).0
    decreases |ids|
  {
    if k < |ids| {
      var last := |ids| - 1;
      assert ids[..last][..k] == ids[..k];
      ReturnedInOrder(rows, ids[..last], k, failed, now);
    } else {
      assert ids[..k] == ids;
    }
  }

  /** The watchdog names each scan at most once, only scans that were running, and leaves every
      scan it does not name exactly as it found it; without call failures it names them all. */
  lemma {:induction false} ReturnedExactlyTheRunning(rows: map<ScanId, Row>, ids: seq<ScanId>, failed: nat -> bool,
                                                     now: Time)
    ensures var (done, left) := Returned(rows, ids, failed, now);
      && (forall i, j | 0 <= i < j < |done| :: done[i] != done[j])
      && (forall id | id in done :: id in ids && id in rows && rows[id].status == Running)
      && left.Keys == rows.Keys
      && (forall id | id in rows :: left[id] == if id in done then Requeued(rows[id], now) else rows[id])
      && ((forall j: nat :: !failed(j)) ==>
            forall id | id in ids && id in rows && rows[id].status == Running :: id in done)
  {
    if ids != [] {
      var last := |ids| - 1;
      assert ids == ids[..last] + [ids[last]];
      ReturnedExactlyTheRunning(rows, ids[..last], failed, now);
    }
  }
}
