/**
  ASCII text: the handful of string operations the location rules are written in, and the
  facts about splitting and case folding their proofs share.
 */
module Text {
  import opened Basics

  // ----- case -------------------------------------------------------------------------------

  function ToLower(c: char): char {
    if 'A' <= c <= 'Z' then (c as int + 32) as char else c
  }

  function Lower(s: string): (r: string)
    ensures |r| == |s| && forall i | 0 <= i < |s| :: r[i] == ToLower(s[i])
  {
    seq(|s|, i requires 0 <= i < |s| => ToLower(s[i]))
  }

  function LowerText(t: Option<string>): Option<string> {
    match t
    case Some(s) => Some(Lower(s))
    case None => None
  }

  /** Not a letter, so folding neither makes nor changes it. */
  predicate CaseFree(c: char) {
    !('A' <= c <= 'Z') && !('a' <= c <= 'z')
  }

  lemma {:induction false} LowerTwice(s: string)
    ensures Lower(Lower(s)) == Lower(s)
  {
  }

  // ----- digits -----------------------------------------------------------------------------

  predicate IsDigit(c: char) {
    '0' <= c <= '9'
  }

  /** `str.isdigit`: false of the empty string. */
  predicate AllDigits(s: string) {
    s != "" && forall i | 0 <= i < |s| :: IsDigit(s[i])
  }

  function DigitsValue(s: string): nat
    requires forall i | 0 <= i < |s| :: IsDigit(s[i])
  {
    if s == "" then 0 else
      assert IsDigit(s[|s| - 1]);
      10 * DigitsValue(s[..|s| - 1]) + (s[|s| - 1] as int - '0' as int)
  }

  lemma {:induction false} LowerDigits(s: string)
    ensures AllDigits(Lower(s)) <==> AllDigits(s)
    ensures AllDigits(s) ==> Lower(s) == s
  {
    assert forall i | 0 <= i < |s| :: IsDigit(ToLower(s[i])) <==> IsDigit(s[i]);
  }

  // ----- splitting --------------------------------------------------------------------------

  predicate Free(s: string, stops: set<char>) {
    forall i | 0 <= i < |s| :: s[i] !in stops
  }

  predicate Lacks(s: string, c: char) {
    forall i | 0 <= i < |s| :: s[i] != c
  }

  function Rejoin(head: string, c: char, tail: Option<string>): string {
    match tail
    case Some(t) => head + [c] + t
    case None => head
  }

  /** `str.partition`: the text before the first `c`, and the text after it if there is one. */
  function Partition(s: string, c: char): (string, Option<string>) {
    if s == "" then ("", None)
    else if s[0] == c then ("", Some(s[1..]))
    else
      var (head, tail) := Partition(s[1..], c);
      ([s[0]] + head, tail)
  }

  /** `str.rpartition`, with the whole text as the head when there is no `c`. */
  function RPartition(s: string, c: char): (string, Option<string>) {
    if s == "" then ("", None)
    else if s[|s| - 1] == c then (s[..|s| - 1], Some(""))
    else
      match RPartition(s[..|s| - 1], c)
      case (head, Some(tail)) => (head, Some(tail + [s[|s| - 1]]))
      case (_, None) => (s, None)
  }

  lemma {:induction false} PartitionSplits(s: string, c: char)
    ensures var (head, tail) := Partition(s, c); Rejoin(head, c, tail) == s && Lacks(head, c)
  {
    if s != "" && s[0] != c {
      PartitionSplits(s[1..], c);
      var (head, tail) := Partition(s[1..], c);
      assert s == [s[0]] + s[1..];
    }
  }

  lemma {:induction false} PartitionIs(head: string, c: char, tail: Option<string>)
    requires Lacks(head, c)
    ensures Partition(Rejoin(head, c, tail), c) == (head, tail)
  {
    var s := Rejoin(head, c, tail);
    if head == "" {
      assert tail.Some? ==> s[1..] == tail.value;
    } else {
      assert s[1..] == Rejoin(head[1..], c, tail);
      PartitionIs(head[1..], c, tail);
      assert head == [s[0]] + head[1..];
    }
  }

  lemma {:induction false} RPartitionSplits(s: string, c: char)
    ensures var (head, tail) := RPartition(s, c);
            Rejoin(head, c, tail) == s && Lacks(if tail.Some? then tail.value else head, c)
  {
    if s != "" {
      var s', last := s[..|s| - 1], s[|s| - 1];
      assert s == s' + [last];
      if last == c {
        assert s == s' + [c] + "";
      } else {
        RPartitionSplits(s', c);
        var (head, tail) := RPartition(s', c);
        if tail.Some? {
          assert s == head + [c] + (tail.value + [last]);
        }
      }
    }
  }

  lemma {:induction false} RPartitionIs(head: string, c: char, tail: string)
    requires Lacks(tail, c)
    ensures RPartition(head + [c] + tail, c) == (head, Some(tail))
    decreases |tail|
  {
    var s := head + [c] + tail;
    if tail == "" {
      assert s[..|s| - 1] == head;
    } else {
      var tail' := tail[..|tail| - 1];
      assert s[..|s| - 1] == head + [c] + tail' && s[|s| - 1] == tail[|tail| - 1];
      assert tail == tail' + [s[|s| - 1]];
      RPartitionIs(head, c, tail');
    }
  }

  lemma {:induction false} RPartitionNone(s: string, c: char)
    requires Lacks(s, c)
    ensures RPartition(s, c) == (s, None)
    decreases |s|
  {
    if s != "" {
      RPartitionNone(s[..|s| - 1], c);
    }
  }

  lemma {:induction false} RPartitionLower(s: string, c: char)
    requires CaseFree(c)
    ensures RPartition(Lower(s), c) == (Lower(RPartition(s, c).0), LowerText(RPartition(s, c).1))
  {
    var (head, tail) := RPartition(s, c);
    RPartitionSplits(s, c);
    if tail.Some? {
      assert Lower(s) == Lower(head) + [c] + Lower(tail.value);
      RPartitionIs(Lower(head), c, Lower(tail.value));
    } else {
      RPartitionNone(Lower(s), c);
    }
  }

  /** Length of the longest prefix with no character of `stops`. */
  function Span(s: string, stops: set<char>): (n: nat)
    ensures n <= |s|
  {
    if s == "" || s[0] in stops then 0 else 1 + Span(s[1..], stops)
  }

  lemma {:induction false} SpanStops(s: string, stops: set<char>)
    ensures Free(s[..Span(s, stops)], stops)
    ensures Span(s, stops) < |s| ==> s[Span(s, stops)] in stops
  {
    if s != "" && s[0] !in stops {
      SpanStops(s[1..], stops);
      var n := Span(s[1..], stops);
      assert s[..n + 1] == [s[0]] + s[1..][..n];
    }
  }

  lemma {:induction false} SpanJoin(a: string, b: string, stops: set<char>)
    requires Free(a, stops) && (b == "" || b[0] in stops)
    ensures Span(a + b, stops) == |a|
  {
    if a == "" {
      assert a + b == b;
    } else {
      assert (a + b)[1..] == a[1..] + b;
      SpanJoin(a[1..], b, stops);
    }
  }
}
