/**
  The exact domain on which `normalize_location` is idempotent, with the families of inputs
  that show each exclusion is needed.
 */
module LocationTheorems {
  import opened Basics
  import opened Text
  import opened PercentEscapes
  import opened Location
  import opened LocationIdempotence

  // ----- host:port --------------------------------------------------------------------------

  /** `b` is `a` with some letters folded. */
  predicate PartlyLowered(a: string, b: string) {
    |a| == |b| && forall i | 0 <= i < |a| :: b[i] == a[i] || b[i] == ToLower(a[i])
  }

  predicate PartlyLoweredText(a: Option<string>, b: Option<string>) {
    match (a, b)
    case (Some(s), Some(t)) => PartlyLowered(s, t)
    case (None, None) => true
    case _ => false
  }

  lemma {:induction false} PartlyLoweredPartition(a: string, b: string, c: char)
    requires PartlyLowered(a, b) && CaseFree(c)
    ensures PartlyLowered(Partition(a, c).0, Partition(b, c).0)
    ensures PartlyLoweredText(Partition(a, c).1, Partition(b, c).1)
  {
    if a != "" {
      assert b[0] == a[0] || b[0] == ToLower(a[0]);
      if a[0] != c {
        PartlyLoweredPartition(a[1..], b[1..], c);
      }
    }
  }

  lemma {:induction false} PartlyLoweredDigits(a: string, b: string)
    requires PartlyLowered(a, b)
    ensures AllDigits(b) <==> AllDigits(a)
  {
    assert forall i | 0 <= i < |a| :: IsDigit(b[i]) <==> IsDigit(a[i]);
  }

  lemma {:induction false} PartlyLoweredPath(a: string, b: string)
    requires PartlyLowered(a, b)
    ensures (NoSpace(b) <==> NoSpace(a)) && (HasSeparator(b) <==> HasSeparator(a))
  {
    assert forall i | 0 <= i < |a| :: IsSpace(b[i]) <==> IsSpace(a[i]);
    assert forall i | 0 <= i < |a| :: (b[i] == '/' || b[i] == '\\') <==> (a[i] == '/' || a[i] == '\\');
    if HasSeparator(a) {
      var i :| 0 <= i < |a| && (a[i] == '/' || a[i] == '\\');
      assert b[i] == '/' || b[i] == '\\';
    }
    if HasSeparator(b) {
      var i :| 0 <= i < |b| && (b[i] == '/' || b[i] == '\\');
      assert a[i] == '/' || a[i] == '\\';
    }
  }

  lemma {:induction false} PartlyLoweredLine(path: string, path': string, a: string, b: string)
    requires PartlyLowered(a, b)
    ensures MatchLine(path', b).Some? <==> MatchLine(path, a).Some?
  {
    PartlyLoweredPartition(a, b, ':');
    PartlyLoweredDigits(Partition(a, ':').0, Partition(b, ':').0);
    if Partition(a, ':').1.Some? {
      PartlyLoweredDigits(Partition(a, ':').1.value, Partition(b, ':').1.value);
    }
  }

  /** Folding letters neither makes nor unmakes a source location. */
  lemma {:induction false} PartlyLoweredMatch(a: string, b: string)
    requires PartlyLowered(a, b)
    ensures MatchSource(b).Some? <==> MatchSource(a).Some?
  {
    var va, vb := Chomp(a), Chomp(b);
    assert PartlyLowered(va, vb);
    PartlyLoweredPartition(va, vb, ':');
    PartlyLoweredPath(Partition(va, ':').0, Partition(vb, ':').0);
    if Partition(va, ':').1.Some? {
      PartlyLoweredLine(Partition(va, ':').0, Partition(vb, ':').0,
                        Partition(va, ':').1.value, Partition(vb, ':').1.value);
    }
  }

  lemma {:induction false} PartlyLoweredScheme(a: string, b: string)
    requires PartlyLowered(a, b)
    ensures HasScheme(b) <==> HasScheme(a)
  {
    forall i: nat | i <= |a| - 3
      ensures SchemeEndsAt(b, i) <==> SchemeEndsAt(a, i)
    {
      assert b[i] == a[i] || b[i] == ToLower(a[i]);
      assert b[i + 1] == a[i + 1] || b[i + 1] == ToLower(a[i + 1]);
      assert b[i + 2] == a[i + 2] || b[i + 2] == ToLower(a[i + 2]);
    }
    if HasScheme(a) {
      var i :| 0 <= i <= |a| - 3 && SchemeEndsAt(a, i);
      assert SchemeEndsAt(b, i);
    }
    if HasScheme(b) {
      var i :| 0 <= i <= |b| - 3 && SchemeEndsAt(b, i);
      assert SchemeEndsAt(a, i);
    }
  }

  lemma {:induction false} FoldHead(head: string, c: char, tail: Option<string>)
    ensures PartlyLowered(Rejoin(head, c, tail), Rejoin(Lower(head), c, tail))
  {
  }

  lemma {:induction false} HostPortKeepsShape(value: string)
    ensures PartlyLowered(value, NormalizeHostPort(value))
  {
    if Bracketed(value) {
      PartitionSplits(value, ']');
      FoldHead(Partition(value, ']').0, ']', Partition(value, ']').1);
    } else {
      PartitionSplits(value, ':');
      FoldHead(Partition(value, ':').0, ':', Partition(value, ':').1);
    }
  }

  /** The rule folds everything before its first ']' (bracketed) or ':'. */
  lemma {:induction false} HostPortIs(head: string, c: char, tail: Option<string>)
    requires Lacks(head, c)
    requires if Bracketed(Rejoin(head, c, tail)) then c == ']' && tail.Some? else c == ':'
    ensures NormalizeHostPort(Rejoin(head, c, tail)) == Rejoin(Lower(head), c, tail)
  {
    PartitionIs(head, c, tail);
  }

  lemma {:induction false} LowerLacks(s: string, c: char)
    requires Lacks(s, c) && CaseFree(c)
    ensures Lacks(Lower(s), c)
  {
    forall i | 0 <= i < |s|
      ensures Lower(s)[i] != c
    {
      assert s[i] != c;
    }
  }

  lemma {:induction false} HostPortIdempotent(value: string)
    ensures NormalizeHostPort(NormalizeHostPort(value)) == NormalizeHostPort(value)
  {
    var c := if Bracketed(value) then ']' else ':';
    var (head, tail) := Partition(value, c);
    PartitionSplits(value, c);
    if !Bracketed(value) || tail.Some? {
      var out := Rejoin(Lower(head), c, tail);
      assert NormalizeHostPort(value) == out;
      HostPortKeepsShape(value);
      assert value != "" ==> out[0] == value[0] || out[0] == ToLower(value[0]);
      LowerLacks(head, c);
      HostPortIs(Lower(head), c, tail);
      LowerTwice(head);
    }
  }

  // ----- source-code locations --------------------------------------------------------------

  /** The path a matched source location is rendered with. */
  function SourcePath(m: SourceRef): string {
    StripDotSlash(Slashes(m.path))
  }

  predicate PathText(path: string) {
    Lacks(path, ':') && Lacks(path, '\\') && NoSpace(path)
  }

  predicate LineText(line: string, col: Option<string>) {
    AllDigits(line) && (col.Some? ==> AllDigits(col.value))
  }

  lemma {:induction false} StripFacts(path: string)
    requires PathText(path)
    ensures StripDotSlash(StripDotSlash(path)) == StripDotSlash(path)
    ensures PathText(StripDotSlash(path))
  {
    if DotSlash(path) {
      StripFacts(path[2..]);
    }
  }

  lemma {:induction false} SlashesFacts(path: string)
    requires Lacks(path, ':') && NoSpace(path)
    ensures PathText(Slashes(path))
  {
  }

  lemma {:induction false} NoSlashes(path: string)
    requires Lacks(path, '\\')
    ensures Slashes(path) == path
  {
  }

  lemma {:induction false} SourceFacts(value: string)
    requires MatchSource(value).Some?
    ensures var m := MatchSource(value).value;
            && PathText(SourcePath(m)) && LineText(m.line, m.col)
            && Slashes(SourcePath(m)) == SourcePath(m) && StripDotSlash(SourcePath(m)) == SourcePath(m)
  {
    var m := MatchSource(value).value;
    PartitionSplits(Chomp(value), ':');
    SlashesFacts(m.path);
    StripFacts(Slashes(m.path));
    NoSlashes(SourcePath(m));
  }

  lemma {:induction false} RenderedTail(line: string, col: Option<string>)
    requires LineText(line, col)
    ensures var t := Rejoin(line, ':', col);
            && t != "" && IsDigit(t[0]) && Partition(t, ':') == (line, col)
            && forall i | 0 <= i < |t| :: IsDigit(t[i]) || t[i] == ':'
  {
    var t := Rejoin(line, ':', col);
    assert Lacks(line, ':') by {
      assert forall i | 0 <= i < |line| :: IsDigit(line[i]);
    }
    PartitionIs(line, ':', col);
    assert t[0] == line[0];
    forall i | 0 <= i < |t|
      ensures IsDigit(t[i]) || t[i] == ':'
    {
      if i < |line| {
        assert t[i] == line[i];
      } else if i > |line| {
        assert t[i] == col.value[i - |line| - 1];
      }
    }
  }

  lemma {:induction false} RenderIs(path: string, line: string, col: Option<string>)
    ensures RenderSource(path, line, col) == Rejoin(path, ':', Some(Rejoin(line, ':', col)))
  {
  }

  /** A rendered location is matched again, with the same pieces, exactly when its path still
      has a separator. */
  lemma {:induction false} Rematch(path: string, line: string, col: Option<string>)
    requires PathText(path) && LineText(line, col)
    ensures MatchSource(RenderSource(path, line, col)) ==
            if HasSeparator(path) then Some(SourceRef(path, line, col)) else None
  {
    var t := Rejoin(line, ':', col);
    var out := RenderSource(path, line, col);
    RenderedTail(line, col);
    var last := t[|t| - 1];
    assert IsDigit(last) || last == ':';
    assert out[|out| - 1] == last;
    assert Chomp(out) == out;
    PartitionIs(path, ':', Some(t));
  }

  lemma {:induction false} RenderedHasNoScheme(path: string, line: string, col: Option<string>)
    requires PathText(path) && LineText(line, col)
    ensures !HasScheme(RenderSource(path, line, col))
  {
    RenderedTail(line, col);
    var t := Rejoin(line, ':', col);
    var out := RenderSource(path, line, col);
    forall i: nat | i <= |out| - 3
      ensures !SchemeEndsAt(out, i)
    {
      if i < |path| {
        assert out[i] == path[i];
      } else {
        assert out[i + 1] == t[i - |path|];
      }
    }
  }

  /** Left alone by the host:port rule: no letter to fold where that rule folds. */
  predicate HostSettled(path: string) {
    var head := if Bracketed(path) then Partition(path, ']').0 else path;
    (Bracketed(path) && Partition(path, ']').1.None?) || Lower(head) == head
  }

  lemma {:induction false} SameHead(a: string, b: string, rest: string)
    requires |a| == |b|
    ensures a + rest == b + rest <==> a == b
  {
    if a + rest == b + rest {
      assert a == (a + rest)[..|a|] && b == (b + rest)[..|b|];
    }
  }

  lemma {:induction false} UnbracketedAsHost(path: string, line: string, col: Option<string>)
    requires PathText(path) && LineText(line, col) && !Bracketed(path)
    ensures NormalizeHostPort(RenderSource(path, line, col)) == RenderSource(Lower(path), line, col)
  {
    var out := RenderSource(path, line, col);
    RenderIs(path, line, col);
    RenderIs(Lower(path), line, col);
    assert out[0] == if path == "" then ':' else path[0];
    HostPortIs(path, ':', Some(Rejoin(line, ':', col)));
  }

  lemma {:induction false} ClosedAsHost(head: string, tail: string)
    requires Lacks(head, ']') && head != "" && head[0] == '['
    ensures var out := head + ([']'] + tail);
            NormalizeHostPort(out) == out <==> Lower(head) == head
  {
    assert head + ([']'] + tail) == head + [']'] + tail;
    assert Lower(head) + ([']'] + tail) == Lower(head) + [']'] + tail;
    HostPortIs(head, ']', Some(tail));
    SameHead(Lower(head), head, [']'] + tail);
  }

  lemma {:induction false} BracketedAsHost(path: string, line: string, col: Option<string>)
    requires PathText(path) && LineText(line, col) && Bracketed(path)
    ensures var out := RenderSource(path, line, col);
            NormalizeHostPort(out) == out <==> HostSettled(path)
  {
    var out := RenderSource(path, line, col);
    var (head, tail) := Partition(path, ']');
    PartitionSplits(path, ']');
    assert out[0] == path[0];
    if tail.Some? {
      assert head != "" && head[0] == path[0];
      var rest := tail.value + ([':'] + Rejoin(line, ':', col));
      assert out == head + ([']'] + rest);
      ClosedAsHost(head, rest);
    } else {
      RenderedTail(line, col);
      assert Lacks(out, ']');
      PartitionIs(out, ']', None);
    }
  }

  lemma {:induction false} RenderedAsHost(path: string, line: string, col: Option<string>)
    requires PathText(path) && LineText(line, col)
    ensures var out := RenderSource(path, line, col);
            NormalizeHostPort(out) == out <==> HostSettled(path)
  {
    if Bracketed(path) {
      BracketedAsHost(path, line, col);
    } else {
      UnbracketedAsHost(path, line, col);
      var rest := [':'] + Rejoin(line, ':', col);
      assert RenderSource(path, line, col) == path + rest;
      assert RenderSource(Lower(path), line, col) == Lower(path) + rest;
      SameHead(Lower(path), path, rest);
    }
  }

  // ----- the exact domain -------------------------------------------------------------------

  /** What a caller can check before the call: a URL whose authority does not end in two ports
      to drop, or a source location that keeps a separator or has nothing to fold; any other
      input. */
  predicate Settles(value: string, accepts: string -> bool) {
    if value == "" then true
    else if HasScheme(value) then !UrlUnsettled(value, accepts)
    else match MatchSource(value)
      case Some(m) => HasSeparator(SourcePath(m)) || HostSettled(SourcePath(m))
      case None => true
  }

  lemma {:induction false} SourceIdempotentExactly(value: string, accepts: string -> bool)
    requires value != "" && !HasScheme(value) && MatchSource(value).Some?
    ensures var out := NormalizeLocation(value, accepts);
            NormalizeLocation(out, accepts) == out <==> Settles(value, accepts)
  {
    var m := MatchSource(value).value;
    var path := SourcePath(m);
    SourceFacts(value);
    Rematch(path, m.line, m.col);
    RenderedHasNoScheme(path, m.line, m.col);
    RenderedAsHost(path, m.line, m.col);
  }

  lemma {:induction false} HostPortIdempotentAsLocation(value: string, accepts: string -> bool)
    requires value != "" && !HasScheme(value) && MatchSource(value).None?
    ensures var out := NormalizeLocation(value, accepts); NormalizeLocation(out, accepts) == out
  {
    var out := NormalizeHostPort(value);
    HostPortKeepsShape(value);
    HostPortIdempotent(value);
    PartlyLoweredScheme(value, out);
    PartlyLoweredMatch(value, out);
  }

  lemma {:induction false} UrlKeepsScheme(value: string, accepts: string -> bool)
    requires HasScheme(value)
    ensures HasScheme(NormalizeUrl(value, accepts))
  {
    if HttpParts(value, accepts).Some? {
      UrlTwice(value, accepts);
      AssembledHasScheme(NormalizedParts(HttpParts(value, accepts).value));
    }
  }

  lemma {:induction false} AssembledHasScheme(p: Parts)
    requires Rooted(p.path) || p.netloc != ""
    ensures HasScheme(Assembled(p))
  {
    var out, k := Assembled(p), |p.scheme|;
    assert out[k] == ':' && out[k + 1] == '/' && out[k + 2] == '/';
    assert SchemeEndsAt(out, k);
  }

  /** `normalize_location` is idempotent on exactly these inputs. */
  lemma {:induction false} LocationIdempotentExactly(value: string, accepts: string -> bool)
    ensures var out := NormalizeLocation(value, accepts);
            NormalizeLocation(out, accepts) == out <==> Settles(value, accepts)
  {
    if value == "" {
    } else if HasScheme(value) {
      UrlIdempotent(value, accepts);
      UrlKeepsScheme(value, accepts);
    } else if MatchSource(value).Some? {
      SourceIdempotentExactly(value, accepts);
    } else {
      HostPortIdempotentAsLocation(value, accepts);
    }
  }

  // ----- outside the domain -----------------------------------------------------------------

  predicate BareName(name: string) {
    PathText(name) && Lacks(name, '/') && !Bracketed(name)
  }

  lemma {:induction false} BareFirstPass(name: string, line: string, col: Option<string>, accepts: string -> bool)
    requires BareName(name) && LineText(line, col)
    ensures NormalizeLocation(RenderSource(['.', '/'] + name, line, col), accepts) == RenderSource(name, line, col)
  {
    var path := ['.', '/'] + name;
    assert path[1] == '/' && path[2..] == name;
    assert PathText(path) && HasSeparator(path);
    NoSlashes(path);
    assert StripDotSlash(path) == StripDotSlash(name) == name;
    Rematch(path, line, col);
    RenderedHasNoScheme(path, line, col);
  }

  lemma {:induction false} BareSecondPass(name: string, line: string, col: Option<string>, accepts: string -> bool)
    requires BareName(name) && LineText(line, col)
    ensures NormalizeLocation(RenderSource(name, line, col), accepts) == RenderSource(Lower(name), line, col)
  {
    assert !HasSeparator(name);
    Rematch(name, line, col);
    RenderedHasNoScheme(name, line, col);
    UnbracketedAsHost(name, line, col);
  }

  lemma {:induction false} FoldedDiffers(name: string, line: string, col: Option<string>)
    requires Lower(name) != name
    ensures RenderSource(Lower(name), line, col) != RenderSource(name, line, col)
  {
    var rest := [':'] + Rejoin(line, ':', col);
    assert RenderSource(name, line, col) == name + rest;
    assert RenderSource(Lower(name), line, col) == Lower(name) + rest;
    SameHead(Lower(name), name, rest);
  }

  /** `./Main.java:1` and every other bare file name with a capital: the first pass strips the
      only separator, the second then takes the rest for a host and folds it. */
  lemma {:induction false} BareFileNameIsFoldedLater(name: string, line: string, col: Option<string>,
                                                     accepts: string -> bool)
    requires BareName(name) && Lower(name) != name && LineText(line, col)
    ensures var once := NormalizeLocation(RenderSource(['.', '/'] + name, line, col), accepts);
            && once == RenderSource(name, line, col)
            && NormalizeLocation(once, accepts) == RenderSource(Lower(name), line, col) != once
  {
    BareFirstPass(name, line, col, accepts);
    BareSecondPass(name, line, col, accepts);
    FoldedDiffers(name, line, col);
  }

  /** A host part that ends in a port to drop twice over loses one of them per pass. */
  lemma {:induction false} DoubledPortIsUnsettled(host: string, port: string, default: nat)
    requires !Bracketed(host) && Dropped(port, default)
    ensures TwoPortsDropped(host + [':'] + port + [':'] + port, default)
  {
    if port != "" {
      assert forall i | 0 <= i < |port| :: IsDigit(port[i]);
    }
    assert Lacks(port, ':');
    var inner := host + [':'] + port;
    RPartitionIs(inner, ':', port);
    RPartitionIs(host, ':', port);
    assert (inner + [':'] + port)[0] == inner[0] == if host == "" then ':' else host[0];
  }
}
