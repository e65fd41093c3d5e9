/**
  The sliding-window limiter: one expiring sorted set of request times for each key, against the
  full history of requests.
 */
module RateLimiter {

  datatype Bucket = Auth | Ai | Other

  datatype Key = Key(bucket: Bucket, principal: string)

  /** A period of the settings' table, never zero. */
  type Seconds = n: int | n > 0 witness 1

  datatype Limit = Limit(limit: int, window: Seconds)

  /** Whether the store was reached, and whether its answer came back. */
  datatype Fate = Served | Unreached | ReplyLost

  datatype Verdict = Admitted | TooMany | Unavailable

  datatype Request = Request(key: Key, at: real, fate: Fate, verdict: Verdict)

  type History = seq<Request>

  /** The store counts a request the moment it is reached, admitted or not. */
  predicate Recorded(r: Request) {
    !r.fate.Unreached?
  }

  /** Times of the recorded requests for a key after `lo`, among the first `n` of the history. */
  function Since(h: History, n: nat, key: Key, lo: real): seq<real>
    requires n <= |h|
  {
    if n == 0 then []
    else if h[n - 1].key == key && Recorded(h[n - 1]) && h[n - 1].at > lo
    then Since(h, n - 1, key, lo) + [h[n - 1].at]
    else Since(h, n - 1, key, lo)
  }

  /** The recorded times in a key's window that ends at `now`. */
  function Recent(limits: Bucket -> Limit, h: History, key: Key, now: real): seq<real> {
    Since(h, |h|, key, now - limits(key.bucket).window as real)
  }

  predicate Ordered(h: History) {
    forall i, j | 0 <= i < j < |h| && h[i].key == h[j].key :: h[i].at <= h[j].at
  }

  // ----- what every request is owed ---------------------------------------------------------

  /** The verdict as a filter over the whole history: refused exactly if the window already holds
      as many recorded requests as the limit, admitted or not. */
  function Owed(limits: Bucket -> Limit, h: History, i: nat): Verdict
    requires i < |h|
  {
    var r := h[i];
    var l := limits(r.key.bucket);
    match r.fate
    case Served =>
      if |Since(h, i, r.key, r.at - l.window as real)| + 1 > l.limit then TooMany else Admitted
    case _ => if r.key.bucket.Auth? then Unavailable else Admitted
  }

  predicate Lawful(limits: Bucket -> Limit, h: History) {
    Ordered(h) && forall i | 0 <= i < |h| :: h[i].verdict == Owed(limits, h, i)
  }

  /** The recorded requests of the key in the window before request `i`. */
  function Counted(h: History, i: nat, n: nat, window: real): set<nat>
    requires i < |h| && n <= |h|
  {
    set j: nat | j < n && h[j].key == h[i].key && h[j].fate != Unreached && h[j].at > h[i].at - window
  }

  lemma {:induction false} SinceCounts(h: History, i: nat, n: nat, window: real)
    requires i < |h| && n <= |h|
    ensures |Since(h, n, h[i].key, h[i].at - window)| == |Counted(h, i, n, window)|
  {
    if n > 0 {
      SinceCounts(h, i, n - 1, window);
      var newest := h[n - 1].key == h[i].key && h[n - 1].fate != Unreached && h[n - 1].at > h[i].at - window;
      assert Counted(h, i, n, window) == Counted(h, i, n - 1, window) + if newest then {n - 1} else {};
    } else {
      assert Counted(h, i, 0, window) == {};
    }
  }

  /** What a request gets: too many exactly if the store answers and the window before it holds as many
      recorded requests of its key as the limit; without an answer authentication is unavailable and
      all else admitted. */
  lemma {:induction false} VerdictsAsWritten(limits: Bucket -> Limit, h: History, i: nat)
    requires Lawful(limits, h) && i < |h|
    ensures var r, l := h[i], limits(h[i].key.bucket);
      && (r.verdict == TooMany <==> r.fate == Served && |Counted(h, i, i, l.window as real)| >= l.limit)
      && (r.verdict == Unavailable <==> r.fate != Served && r.key.bucket == Auth)
  {
    SinceCounts(h, i, i, limits(h[i].key.bucket).window as real);
  }

  // ----- the sorted sets --------------------------------------------------------------------

  /** `zremrangebyscore(key, 0, hi)`. */
  function Pruned(scores: seq<real>, hi: real): seq<real> {
    if scores == [] then []
    else
      var n := |scores| - 1;
      if 0.0 <= scores[n] <= hi then Pruned(scores[..n], hi) else Pruned(scores[..n], hi) + [scores[n]]
  }

  /** `touched` is when the key's time to live was last set, to one second over the window. */
  datatype Slot = Slot(scores: seq<real>, touched: real)

  /** A key's slot holds the recorded requests of the window that ended with its last one. */
  ghost predicate Agrees(limits: Bucket -> Limit, slots: map<Key, Slot>, h: History, key: Key) {
    if key in slots then
      var last := slots[key].touched;
      && slots[key].scores == Since(h, |h|, key, last - limits(key.bucket).window as real)
      && (forall i | 0 <= i < |h| && Recorded(h[i]) && h[i].key == key :: 0.0 <= h[i].at <= last)
      && (exists i | 0 <= i < |h| && Recorded(h[i]) :: h[i].key == key && h[i].at == last)
    else
      forall i | 0 <= i < |h| && Recorded(h[i]) :: h[i].key != key
  }

  class Limiter {
    const limits: Bucket -> Limit
    var slots: map<Key, Slot>
    ghost var history: History

    constructor (limits: Bucket -> Limit)
      ensures this.limits == limits && history == [] && Valid()
    {
      this.limits, slots, history := limits, map[], [];
    }

    function Window(key: Key): real {
      limits(key.bucket).window as real
    }

    ghost predicate Valid()
      reads this
    {
      Lawful(limits, history) && forall key :: Agrees(limits, slots, history, key)
    }

    /** The members of a key's set at a moment, an expired key having none. */
    function Live(key: Key, now: real): seq<real>
      reads this
    {
      if key in slots && now < slots[key].touched + Window(key) + 1.0 then slots[key].scores else []
    }

    /** The four store commands, one transaction. */
    method Transact(key: Key, now: real) returns (count: nat)
      requires Agrees(limits, slots, history, key)
      requires 0.0 <= now && forall i | 0 <= i < |history| && history[i].key == key :: history[i].at <= now
      modifies this`slots
      ensures slots == old(slots)[key := Slot(Recent(limits, history, key, now) + [now], now)]
      ensures count == |Recent(limits, history, key, now)| + 1
    {
      var live := Live(key, now);
      var scores := Pruned(live, now - Window(key)) + [now];
      SlotIsTheFilter(key, now);
      slots := slots[key := Slot(scores, now)];
      count := |scores|;
    }

    lemma {:induction false} SlotIsTheFilter(key: Key, now: real)
      requires Agrees(limits, slots, history, key)
      requires forall i | 0 <= i < |history| && history[i].key == key :: history[i].at <= now
      ensures Pruned(Live(key, now), now - Window(key)) ==
              Recent(limits, history, key, now)
    {
      if key in slots && now < slots[key].touched + Window(key) + 1.0 {
        Narrow(history, |history|, key, slots[key].touched - Window(key), now - Window(key));
      } else {
        NoneSince(history, |history|, key, now - Window(key));
      }
    }

    /** `dispatch`: the verdict is the one the full history owes. */
    method Dispatch(key: Key, now: real, fate: Fate) returns (verdict: Verdict)
      requires Valid()
      requires 0.0 <= now && forall i | 0 <= i < |history| && history[i].key == key :: history[i].at <= now
      modifies this
      ensures Valid()
      ensures history == old(history) + [Request(key, now, fate, verdict)]
    {
      var refused := false;
      if !fate.Unreached? {
        var count := Transact(key, now);
        refused := count > limits(key.bucket).limit;
      }
      if fate.Served? {
        verdict := if refused then TooMany else Admitted;
      } else {
        verdict := if key.bucket.Auth? then Unavailable else Admitted;
      }
      history := history + [Request(key, now, fate, verdict)];
      Appended(limits, old(history), history[|old(history)|]);
      forall k
        ensures Agrees(limits, slots, history, k)
      {
        assert Agrees(limits, old(slots), old(history), k);
        StillAgrees(limits, old(slots), slots, old(history), history[|old(history)|], k);
      }
    }
  }

  lemma {:induction false} StillAgrees(limits: Bucket -> Limit, slots: map<Key, Slot>, slots': map<Key, Slot>,
                                       h: History, r: Request, key: Key)
    requires Agrees(limits, slots, h, key) && 0.0 <= r.at
    requires forall i | 0 <= i < |h| && h[i].key == r.key :: h[i].at <= r.at
    requires slots' ==
      if Recorded(r) then slots[r.key := Slot(Recent(limits, h, r.key, r.at) + [r.at], r.at)] else slots
    ensures Agrees(limits, slots', h + [r], key)
  {
    var h' := h + [r];
    assert forall i | 0 <= i < |h| :: h'[i] == h[i];
    assert h'[|h|] == r;
    if key == r.key && Recorded(r) {
      SincePrefix(h, h', |h|, key, r.at - limits(key.bucket).window as real);
    } else if key in slots {
      SincePrefix(h, h', |h|, key, slots[key].touched - limits(key.bucket).window as real);
    }
  }

  // ----- about the filter -------------------------------------------------------------------

  lemma {:induction false} SincePrefix(g: History, h: History, n: nat, key: Key, lo: real)
    requires n <= |g| && n <= |h| && forall i | 0 <= i < n :: g[i] == h[i]
    ensures Since(g, n, key, lo) == Since(h, n, key, lo)
  {
    if n > 0 {
      SincePrefix(g, h, n - 1, key, lo);
    }
  }

  lemma {:induction false} NoneSince(h: History, n: nat, key: Key, lo: real)
    requires n <= |h| && forall i | 0 <= i < n && h[i].key == key && Recorded(h[i]) :: h[i].at <= lo
    ensures Since(h, n, key, lo) == []
  {
    if n > 0 {
      NoneSince(h, n - 1, key, lo);
    }
  }

  /** Pruning a window's times gives those of any later window. */
  lemma {:induction false} Narrow(h: History, n: nat, key: Key, lo: real, hi: real)
    requires n <= |h| && lo <= hi
    requires forall i | 0 <= i < n && Recorded(h[i]) && h[i].key == key :: 0.0 <= h[i].at
    ensures Pruned(Since(h, n, key, lo), hi) == Since(h, n, key, hi)
  {
    if n > 0 {
      Narrow(h, n - 1, key, lo, hi);
      var before := Since(h, n - 1, key, lo);
      assert (before + [h[n - 1].at])[..|before|] == before;
    }
  }

  /** A request answered as it is owed keeps a history lawful. */
  lemma {:induction false} Appended(limits: Bucket -> Limit, h: History, r: Request)
    requires Lawful(limits, h) && forall i | 0 <= i < |h| && h[i].key == r.key :: h[i].at <= r.at
    requires r.verdict == match r.fate
      case Served => if |Recent(limits, h, r.key, r.at)| + 1 > limits(r.key.bucket).limit then TooMany else Admitted
      case _ => if r.key.bucket.Auth? then Unavailable else Admitted
    ensures Lawful(limits, h + [r])
  {
    forall i | 0 <= i < |h|
      ensures (h + [r])[i].verdict == Owed(limits, h + [r], i)
    {
      SincePrefix(h, h + [r], i, h[i].key, h[i].at - limits(h[i].key.bucket).window as real);
    }
    SincePrefix(h, h + [r], |h|, r.key, r.at - limits(r.key.bucket).window as real);
  }

  // ----- the window -------------------------------------------------------------------------

  /** The request was let through because the count allowed it, not because the store was away. */
  predicate AdmittedByCount(r: Request) {
    r.fate.Served? && r.verdict.Admitted?
  }

  /** How many of the first `n` requests for a key fall in [from, to) and were so admitted. */
  function AdmittedIn(h: History, n: nat, key: Key, from: real, to: real): nat
    requires n <= |h|
  {
    if n == 0 then 0
    else AdmittedIn(h, n - 1, key, from, to) +
         if h[n - 1].key == key && AdmittedByCount(h[n - 1]) && from <= h[n - 1].at < to then 1 else 0
  }

  lemma {:induction false} AdmittedAreRecorded(h: History, n: nat, key: Key, from: real, to: real, lo: real)
    requires n <= |h| && lo < from
    ensures AdmittedIn(h, n, key, from, to) <= |Since(h, n, key, lo)|
  {
    if n > 0 {
      AdmittedAreRecorded(h, n - 1, key, from, to, lo);
    }
  }

  /** Every half-open interval as long as the window holds at most the limit of requests admitted
      by count. */
  lemma {:induction false} WindowBound(limits: Bucket -> Limit, h: History, n: nat, key: Key, from: real)
    requires Lawful(limits, h) && n <= |h|
    ensures AdmittedIn(h, n, key, from, from + limits(key.bucket).window as real) <=
              if limits(key.bucket).limit > 0 then limits(key.bucket).limit else 0
  {
    if n > 0 {
      var w := limits(key.bucket).window as real;
      WindowBound(limits, h, n - 1, key, from);
      var r := h[n - 1];
      if r.key == key && AdmittedByCount(r) && from <= r.at < from + w {
        assert r.verdict == Owed(limits, h, n - 1);
        AdmittedAreRecorded(h, n - 1, key, from, from + w, r.at - w);
      }
    }
  }

  /** The authentication bucket admits by count only, so there the bound is on every admission,
      whatever the store does; any other bucket admits whenever the store is away. */
  lemma {:induction false} AuthFailsClosed(limits: Bucket -> Limit, h: History, i: nat)
    requires Lawful(limits, h) && i < |h| && h[i].verdict.Admitted?
    ensures AdmittedByCount(h[i]) || (!h[i].key.bucket.Auth? && !h[i].fate.Served?)
    ensures h[i].key.bucket.Auth? ==> AdmittedByCount(h[i])
  {
    assert h[i].verdict == Owed(limits, h, i);
  }

  /** How many of the first `n` requests for a key in [from, to) were let through at all. */
  function LetThrough(h: History, n: nat, key: Key, from: real, to: real): nat
    requires n <= |h|
  {
    if n == 0 then 0
    else LetThrough(h, n - 1, key, from, to) +
         if h[n - 1].key == key && h[n - 1].verdict.Admitted? && from <= h[n - 1].at < to then 1 else 0
  }

  lemma {:induction false} AuthAdmitsByCount(limits: Bucket -> Limit, h: History, n: nat, key: Key, from: real,
                                             to: real)
    requires Lawful(limits, h) && n <= |h| && key.bucket.Auth?
    ensures LetThrough(h, n, key, from, to) == AdmittedIn(h, n, key, from, to)
  {
    if n > 0 {
      AuthAdmitsByCount(limits, h, n - 1, key, from, to);
      if h[n - 1].verdict.Admitted? {
        AuthFailsClosed(limits, h, n - 1);
      }
    }
  }

  /** So no window holds more authentication requests than the limit, however often and however
      long the store is away. */
  lemma {:induction false} AuthWindowBound(limits: Bucket -> Limit, h: History, key: Key, from: real)
    requires Lawful(limits, h) && key.bucket.Auth?
    ensures LetThrough(h, |h|, key, from, from + limits(Auth).window as real) <=
              if limits(Auth).limit > 0 then limits(Auth).limit else 0
  {
    WindowBound(limits, h, |h|, key, from);
    AuthAdmitsByCount(limits, h, |h|, key, from, from + limits(Auth).window as real);
  }

  /** A run of requests for one key of another bucket during an outage. */
  function Outage(key: Key, at: real, n: nat): History {
    if n == 0 then [] else Outage(key, at, n - 1) + [Request(key, at, Unreached, Admitted)]
  }

  /** So outside that bucket an outage of any length lets any number of requests through at one
      instant. */
  lemma {:induction false} OutageIsUnlimited(limits: Bucket -> Limit, key: Key, at: real, n: nat)
    requires !key.bucket.Auth?
    ensures Lawful(limits, Outage(key, at, n)) && |Outage(key, at, n)| == n
    ensures forall i | 0 <= i < n :: Outage(key, at, n)[i] == Request(key, at, Unreached, Admitted)
  {
    if n > 0 {
      OutageIsUnlimited(limits, key, at, n - 1);
      Appended(limits, Outage(key, at, n - 1), Request(key, at, Unreached, Admitted));
    }
  }
}
