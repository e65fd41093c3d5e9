/**
  Tools that satisfy what is asked of the cipher and the archive format: the requirements
  contradict nothing.
 */
module BackupTools {
  import opened Basics
  import opened ObjectBackup
  import opened BackupSet

  // ----- a cipher that tells keys apart -------------------------------------------------------

  function Marked(key: Bytes, nonce: Bytes, text: Bytes): Bytes {
    [|key|] + key + text
  }

  function Unmarked(key: Bytes, nonce: Bytes, text: Bytes): Option<Bytes> {
    if |text| > |key| && text[0] == |key| && text[1..|key| + 1] == key then Some(text[|key| + 1..]) else None
  }

  lemma {:induction false} MarkingTellsKeys(key: Bytes, other: Bytes, nonce: Bytes, text: Bytes)
    ensures Unmarked(other, nonce, Marked(key, nonce, text)) == if other == key then Some(text) else None
  {
    var m := Marked(key, nonce, text);
    assert m[1..|key| + 1] == key && m[|key| + 1..] == text;
  }

  // ----- an archive format --------------------------------------------------------------------

  function Codes(s: string): (r: Bytes)
    ensures |r| == |s| && forall i | 0 <= i < |s| :: r[i] == s[i] as int
  {
    seq(|s|, i requires 0 <= i < |s| => s[i] as int)
  }

  function Encoded(m: Member): Bytes {
    [|m.name|] + Codes(m.name) + [if m.isFile then 1 else 0, |m.data|] + m.data
  }

  function Packed(members: seq<Member>): Bytes {
    if members == [] then [] else Encoded(members[0]) + Packed(members[1..])
  }

  lemma {:induction false} EncodedIsPrefixFree(m: Member, n: Member, x: Bytes, y: Bytes)
    requires Encoded(m) + x == Encoded(n) + y
    ensures m == n && x == y
  {
    var a, b := Encoded(m) + x, Encoded(n) + y;
    var k, d := |m.name|, |m.data|;
    assert a[0] == k && b[0] == |n.name|;
    assert a[1..k + 1] == Codes(m.name) && b[1..k + 1] == Codes(n.name);
    assert forall i | 0 <= i < k :: Codes(m.name)[i] == Codes(n.name)[i];
    assert m.name == n.name;
    assert a[k + 1] == (if m.isFile then 1 else 0) && b[k + 1] == (if n.isFile then 1 else 0);
    assert a[k + 2] == d && b[k + 2] == |n.data|;
    assert a[k + 3..k + 3 + d] == m.data && b[k + 3..k + 3 + d] == n.data;
    assert a[k + 3 + d..] == x && b[k + 3 + d..] == y;
  }

  lemma {:induction false} PackedIsInjective(a: seq<Member>, b: seq<Member>)
    requires Packed(a) == Packed(b)
    ensures a == b
  {
    if a != [] && b != [] {
      EncodedIsPrefixFree(a[0], b[0], Packed(a[1..]), Packed(b[1..]));
      PackedIsInjective(a[1..], b[1..]);
    }
  }

  ghost function Unpacked(content: Bytes): Option<seq<Member>> {
    if exists members :: Packed(members) == content then
      var members :| Packed(members) == content; Some(members)
    else None
  }

  ghost function Sample(): Tools {
    Tools((k, n, d) => Marked(k, n, d), (k, n, d) => Unmarked(k, n, d), members => Packed(members),
          content => Unpacked(content), content => |content|, content => true)
  }

  lemma {:induction false} SampleIsSound()
    ensures Sound(Sample())
  {
    var t := Sample();
    forall key: Bytes, other: Bytes, nonce: Bytes, data: Bytes
      ensures t.decrypt(other, nonce, t.encrypt(key, nonce, data)) == if other == key then Some(data) else None
    {
      MarkingTellsKeys(key, other, nonce, data);
    }
    forall members
      ensures t.unpack(t.pack(members)) == Some(members)
    {
      var found :| Packed(found) == Packed(members) && Unpacked(Packed(members)) == Some(found);
      PackedIsInjective(found, members);
    }
  }
}
