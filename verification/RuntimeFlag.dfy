/**
  The operator's kill switch: a file's existence, cached for a time to live, failing closed.
 */
module RuntimeFlag {
  import opened Basics

  /** What consulting the file system would yield at a moment. */
  datatype Disk = Present | Absent | Unreadable

  /** One consultation. */
  datatype Look = Look(at: real, disk: Disk)

  /** The last consultation that succeeded. */
  function LastGood(looks: seq<Look>): Option<Look> {
    if looks == [] then None
    else
      var n := |looks| - 1;
      if looks[n].disk.Unreadable? then LastGood(looks[..n]) else Some(looks[n])
  }

  /** What the consultations so far say: the last success, or True without one. */
  predicate Says(looks: seq<Look>) {
    LastGood(looks).None? || LastGood(looks).value.disk.Present?
  }

  predicate Fresh(looks: seq<Look>, ttl: real, now: real) {
    LastGood(looks).Some? && now - LastGood(looks).value.at < ttl
  }

  /** The consultations after a read at `now`: the file system is looked at only if the last good
      reading has gone stale. */
  function After(looks: seq<Look>, ttl: real, now: real, disk: Disk): seq<Look> {
    if Fresh(looks, ttl, now) then looks else looks + [Look(now, disk)]
  }

  class CachedFlag {
    var value: bool
    var readAt: real
    var everRead: bool
    ghost var looks: seq<Look>

    constructor ()
      ensures Valid() && looks == []
    {
      value, readAt, everRead, looks := false, 0.0, false, [];
    }

    ghost predicate Valid()
      reads this
    {
      && (everRead <==> LastGood(looks).Some?)
      && (everRead ==> LastGood(looks).value == Look(readAt, if value then Present else Absent))
    }

    /** `disk` is read only when the cache has gone stale. */
    method Get(disk: Disk, ttl: real, now: real) returns (flag: bool)
      requires Valid()
      modifies this
      ensures Valid() && looks == After(old(looks), ttl, now, disk)
      ensures flag == Says(looks)
    {
      if everRead && now - readAt < ttl {
        return value;
      }
      looks := looks + [Look(now, disk)];
      assert looks[..|looks| - 1] == old(looks);
      if disk.Unreadable? {
        return if everRead then value else true;
      }
      value, readAt, everRead := disk.Present?, now, true;
      return value;
    }

    /** `private_scanning_emergency_disabled`: the environment or the file, never an override.
        With the environment half on, the file is not looked at. */
    method EmergencyDisabled(environment: bool, disk: Disk, ttl: real, now: real) returns (disabled: bool)
      requires Valid()
      modifies this
      ensures Valid()
      ensures looks == if environment then old(looks) else After(old(looks), ttl, now, disk)
      ensures disabled <==> environment || Says(looks)
    {
      if environment {
        return true;
      }
      disabled := Get(disk, ttl, now);
    }
  }

  // ----- over any sequence of reads ---------------------------------------------------------

  datatype Read = Read(disk: Disk, ttl: real, now: real)

  /** The consultations that a sequence of reads makes. */
  function Looks(history: seq<Read>): seq<Look> {
    if history == [] then []
    else
      var n := |history| - 1;
      After(Looks(history[..n]), history[n].ttl, history[n].now, history[n].disk)
  }

  lemma {:induction false} LastGoodOfSnoc(looks: seq<Look>, look: Look)
    ensures LastGood(looks + [look]) == if look.disk.Unreadable? then LastGood(looks) else Some(look)
  {
    assert (looks + [look])[..|looks|] == looks;
  }

  /** The last read's answer rests on a reading of that very moment or younger than its time to
      live, unless the read at that moment failed; then it is what was known before, or True. */
  lemma {:induction false} AnswerIsFreshOrTheReadFailed(history: seq<Read>)
    requires history != []
    ensures var n := |history| - 1;
      var good := LastGood(Looks(history));
      if good.Some? && (good.value.at == history[n].now || history[n].now - good.value.at < history[n].ttl) then true
      else history[n].disk.Unreadable? && good == LastGood(Looks(history[..n]))
  {
    var n := |history| - 1;
    LastGoodOfSnoc(Looks(history[..n]), Look(history[n].now, history[n].disk));
  }

  /** From a look that succeeded to the next look it is at least a time to live. */
  predicate Apart(looks: seq<Look>, ttl: real) {
    forall k, l | 0 <= k < l < |looks| :: NextAfter(looks, k, l) ==> looks[l].at - looks[k].at >= ttl
  }

  /** `k` succeeded, and none between `k` and `l` did. */
  predicate NextAfter(looks: seq<Look>, k: nat, l: nat)
    requires k < l < |looks|
  {
    looks[k].disk != Unreadable && forall j | k < j < l :: looks[j].disk == Unreadable
  }

  lemma {:induction false} StaleKeepsApart(before: seq<Look>, look: Look, ttl: real)
    requires Apart(before, ttl) && !Fresh(before, ttl, look.at)
    ensures Apart(before + [look], ttl)
  {
    var looks := before + [look];
    forall k, l | 0 <= k < l < |looks| && NextAfter(looks, k, l)
      ensures looks[l].at - looks[k].at >= ttl
    {
      assert forall j | 0 <= j < |before| :: looks[j] == before[j];
      if l == |before| {
        LastGoodIs(before, k);
      } else {
        assert NextAfter(before, k, l);
      }
    }
  }

  /** And the file is looked at no more often than that. */
  lemma {:induction false} LooksAreApart(history: seq<Read>, ttl: real)
    requires forall i | 0 <= i < |history| :: history[i].ttl == ttl
    ensures Apart(Looks(history), ttl)
  {
    if history != [] {
      var n := |history| - 1;
      LooksAreApart(history[..n], ttl);
      if !Fresh(Looks(history[..n]), ttl, history[n].now) {
        StaleKeepsApart(Looks(history[..n]), LookOf(history[n]), ttl);
      }
    }
  }

  lemma {:induction false} LastGoodIs(looks: seq<Look>, k: nat)
    requires k < |looks| && looks[k].disk != Unreadable
    requires forall j | k < j < |looks| :: looks[j].disk == Unreadable
    ensures LastGood(looks) == Some(looks[k])
  {
    if k < |looks| - 1 {
      LastGoodIs(looks[..|looks| - 1], k);
    }
  }

  predicate AmongReads(history: seq<Read>, look: Look) {
    exists i | 0 <= i < |history| :: look == LookOf(history[i])
  }

  function LookOf(read: Read): Look {
    Look(read.now, read.disk)
  }

  /** Every consultation was one of the reads. */
  lemma {:induction false} LooksAreReads(history: seq<Read>)
    ensures forall k | 0 <= k < |Looks(history)| :: AmongReads(history, Looks(history)[k])
  {
    if history != [] {
      var n := |history| - 1;
      var before := Looks(history[..n]);
      LooksAreReads(history[..n]);
      forall k | 0 <= k < |before|
        ensures AmongReads(history, before[k])
      {
        var i :| 0 <= i < n && before[k] == LookOf(history[..n][i]);
        assert before[k] == LookOf(history[i]);
      }
      assert AmongReads(history, LookOf(history[n]));
    }
  }

  lemma {:induction false} LastGoodIsALook(looks: seq<Look>)
    ensures LastGood(looks).Some? ==> LastGood(looks).value in looks && !LastGood(looks).value.disk.Unreadable?
  {
    if looks != [] {
      LastGoodIsALook(looks[..|looks| - 1]);
    }
  }

  /** After the file was placed no read finds it missing, though any may fail.  A time to live
      later the switch is off if and only if the read at that moment failed and the last that
      succeeded before it is stale and from before the file: nothing else can delay it. */
  lemma {:induction false} SwitchIsLateExactlyIfReadsFail(history: seq<Read>, placed: real)
    requires history != []
    requires var last := history[|history| - 1]; last.now > placed && last.now >= placed + last.ttl
    requires forall i | 0 <= i < |history| && history[i].now > placed :: !history[i].disk.Absent?
    ensures var last := history[|history| - 1];
            var good := LastGood(Looks(history[..|history| - 1]));
            !Says(Looks(history)) <==>
              && last.disk.Unreadable?
              && good.Some? && good.value.disk.Absent? && last.now - good.value.at >= last.ttl
  {
    var n := |history| - 1;
    var before := Looks(history[..n]);
    LastGoodOfSnoc(before, LookOf(history[n]));
    LooksAreReads(history[..n]);
    LastGoodIsALook(before);
    if LastGood(before).Some? {
      var look := LastGood(before).value;
      var i :| 0 <= i < n && look == LookOf(history[..n][i]);
      assert look == LookOf(history[i]);
    }
  }

  /** So once the file stands, every read a time to live later that can be made reports it,
      whatever failed meanwhile. */
  lemma {:induction false} SwitchTakesEffectWithinTtl(history: seq<Read>, placed: real)
    requires history != []
    requires var last := history[|history| - 1]; last.now > placed && last.now >= placed + last.ttl
    requires forall i | 0 <= i < |history| && history[i].now > placed :: !history[i].disk.Absent?
    requires history[|history| - 1].disk.Present?
    ensures Says(Looks(history))
  {
    SwitchIsLateExactlyIfReadsFail(history, placed);
  }

  /** A file placed while the file system cannot be read goes unseen for as long as that lasts:
      one good reading without the file, then failures only, keeps the switch off. */
  lemma {:induction false} FailuresKeepTheSwitchOff(history: seq<Read>)
    requires history != [] && history[0].disk.Absent?
    requires forall i | 0 < i < |history| :: history[i].disk.Unreadable?
    ensures !Says(Looks(history)) && LastGood(Looks(history)) == Some(Look(history[0].now, Absent))
  {
    var n := |history| - 1;
    var before := Looks(history[..n]);
    if n > 0 {
      FailuresKeepTheSwitchOff(history[..n]);
    }
    LastGoodOfSnoc(before, Look(history[n].now, history[n].disk));
  }
}
