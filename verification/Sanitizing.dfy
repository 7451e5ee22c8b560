/**
 What reading a warning back does to it: ill-formed bytes become U+FFFD, three bytes each, and ASCII around them stays
 where it is. So markers and labels are neither made nor lost, but the text can become longer.
 */
module Sanitizing {
  import opened Bytes
  import opened Utf8
  import opened ResultWarning

  lemma {:induction false} SanitizedGrows(s: Text)
    ensures |s| <= |Sanitized(s)|
    decreases |s|
  {
    if s != [] {
      var n := FirstChar(s);
      SanitizedGrows(s[if n == 0 then 1 else n..]);
    }
  }

  /** A character does not run into a byte that starts one. */
  lemma FirstCharStops(a: Text, c: Text)
    requires a != [] && (c == [] || StartsRune(c[0]))
    ensures FirstChar(a + c) == FirstChar(a)
  {
    var s := a + c;
    assert forall i :: 0 <= i < |a| ==> s[i] == a[i];
    assert c != [] ==> s[|a|] == c[0];
    var n := FirstChar(s);
    if n > 0 {
      assert n <= |a|;
      assert IsChar(a, n);
    } else {
      assert FirstChar(a) > 0 ==> IsChar(s, FirstChar(a));
    }
  }

  /** The first piece of what is read, and how many bytes of the text it stands for. */
  function Size(s: Text): (k: nat)
    requires s != []
    ensures 1 <= k <= |s|
  {
    if FirstChar(s) == 0 then 1 else FirstChar(s)
  }

  function Piece(s: Text): Text
    requires s != []
  {
    if FirstChar(s) == 0 then REPLACEMENT else s[..FirstChar(s)]
  }

  lemma SanitizedStep(s: Text)
    requires s != []
    ensures Sanitized(s) == Piece(s) + Sanitized(s[Size(s)..])
  {
  }

  lemma PieceStops(a: Text, c: Text)
    requires a != [] && (c == [] || StartsRune(c[0]))
    ensures Piece(a + c) == Piece(a) && Size(a + c) == Size(a)
    ensures (a + c)[Size(a)..] == a[Size(a)..] + c
  {
    FirstCharStops(a, c);
    assert (a + c)[..Size(a)] == a[..Size(a)];
  }

  lemma {:induction false} SanitizedConcat(a: Text, c: Text)
    requires c == [] || StartsRune(c[0])
    ensures Sanitized(a + c) == Sanitized(a) + Sanitized(c)
    decreases |a|
  {
    if a == [] {
      assert a + c == c;
    } else {
      PieceStops(a, c);
      SanitizedStep(a);
      SanitizedStep(a + c);
      SanitizedConcat(a[Size(a)..], c);
      Regroup(Piece(a), Sanitized(a[Size(a)..]), Sanitized(c));
    }
  }

  lemma Regroup(a: Text, b: Text, c: Text)
    ensures a + b + c == a + (b + c)
  {
  }

  lemma AsciiStep(b: Byte, rest: Text)
    requires b < 0x80
    ensures Sanitized([b] + rest) == [b] + Sanitized(rest)
  {
    var s := [b] + rest;
    assert IsChar(s, 1);
    SanitizedStep(s);
    assert s[..1] == [b] && s[1..] == rest;
  }

  lemma {:induction false} SanitizedAscii(p: Text, r: Text)
    requires Printable(p)
    ensures Sanitized(p + r) == p + Sanitized(r)
    decreases |p|
  {
    if p == [] {
      assert p + r == r;
    } else {
      Regroup([p[0]], p[1..], r);
      assert [p[0]] + p[1..] == p;
      AsciiStep(p[0], p[1..] + r);
      SanitizedAscii(p[1..], r);
      Regroup([p[0]], p[1..], Sanitized(r));
    }
  }

  lemma SanitizedAround(a: Text, p: Text, b: Text)
    requires p != [] && Printable(p)
    ensures Sanitized(a + p + b) == Sanitized(a) + p + Sanitized(b)
  {
    assert a + p + b == a + (p + b);
    assert StartsRune(p[0]);
    SanitizedConcat(a, p + b);
    SanitizedAscii(p, b);
  }

  // ---------------------------------------------------------------- no ASCII text is made

  /** A piece is one ASCII byte as it was, or no byte of it is ASCII. */
  lemma PieceKinds(s: Text)
    requires s != []
    ensures Piece(s) != []
    ensures Piece(s)[0] < 0x80 ==> Size(s) == 1 && Piece(s) == [s[0]]
    ensures |Piece(s)| > 1 ==> forall j :: 0 <= j < |Piece(s)| ==> Piece(s)[j] >= 0x80
  {
    var n := FirstChar(s);
    assert n == 1 ==> s[..1] == [s[0]];
  }

  /** ASCII at the front of what is read was there before. */
  lemma AsciiAtFront(s: Text)
    requires Sanitized(s) != [] && Sanitized(s)[0] < 0x80
    ensures s != [] && s[0] == Sanitized(s)[0] && Sanitized(s)[1..] == Sanitized(s[1..])
  {
    SanitizedStep(s);
    PieceKinds(s);
  }

  lemma {:induction false} PrefixWasThere(s: Text, p: Text)
    requires Printable(p) && StartsWith(Sanitized(s), p)
    ensures StartsWith(s, p)
    decreases |p|
  {
    if p != [] {
      assert Sanitized(s)[0] == p[0];
      AsciiAtFront(s);
      var q := p[1..];
      assert forall k :: 0 <= k < |q| ==> q[k] == p[k + 1] == Sanitized(s)[k + 1] == Sanitized(s)[1..][k];
      PrefixWasThere(s[1..], q);
      assert forall k :: 1 <= k < |p| ==> p[k] == q[k - 1] == s[1..][k - 1] == s[k];
    }
  }

  lemma PrefixFirstChar(s: Text, m: nat)
    requires 0 < m <= |s| && FirstChar(s) <= m
    ensures FirstChar(s[..m]) == FirstChar(s)
  {
    var n := FirstChar(s[..m]);
    assert n > 0 ==> IsChar(s, n);
    assert FirstChar(s) > 0 ==> IsChar(s[..m], FirstChar(s));
  }

  lemma PrefixReads(s: Text, m: nat)
    requires s != [] && Size(s) <= m <= |s|
    ensures |Sanitized(s[..m])| == |Piece(s)| + |Sanitized(s[Size(s)..m])|
  {
    PrefixFirstChar(s, m);
    SanitizedStep(s[..m]);
    assert s[..m][Size(s)..] == s[Size(s)..m];
    assert s[..m][..FirstChar(s)] == s[..FirstChar(s)];
  }

  lemma OccursLater(a: Text, b: Text, p: Text, j: nat)
    requires OccursAt(a + b, p, j) && |a| <= j
    ensures OccursAt(b, p, j - |a|)
  {
    assert forall l :: 0 <= l < |p| ==> p[l] == (a + b)[j + l] == b[j - |a| + l];
  }

  lemma OccursBehind(s: Text, p: Text, k: nat, i: nat)
    requires k <= |s| && OccursAt(s[k..], p, i)
    ensures OccursAt(s, p, k + i)
  {
    assert forall l :: 0 <= l < |p| ==> p[l] == s[k..][i + l] == s[k + i + l];
  }

  /** ASCII in what is read comes from ASCII in the text, in front of which the text reads as far. */
  lemma {:induction false} OccurrenceWasThere(s: Text, p: Text, j: nat) returns (i: nat)
    requires p != [] && Printable(p) && OccursAt(Sanitized(s), p, j)
    ensures OccursAt(s, p, i) && |Sanitized(s[..i])| == j
    decreases |s|
  {
    if j == 0 {
      PrefixWasThere(s, p);
      return 0;
    }
    var k, piece := Size(s), Piece(s);
    SanitizedStep(s);
    BehindFirstPiece(s, p, j);
    OccursLater(piece, Sanitized(s[k..]), p, j);
    var i' := OccurrenceWasThere(s[k..], p, j - |piece|);
    i := k + i';
    OccursBehind(s, p, k, i');
    PrefixReads(s, i);
    assert s[k..][..i'] == s[k..i];
  }

  lemma BehindFirstPiece(s: Text, p: Text, j: nat)
    requires s != [] && p != [] && Printable(p) && 0 < j && OccursAt(Sanitized(s), p, j)
    ensures j >= |Piece(s)|
  {
    SanitizedStep(s);
    PieceKinds(s);
    assert p[0] == Sanitized(s)[j];
    assert forall i :: 0 <= i < |Piece(s)| ==> Sanitized(s)[i] == Piece(s)[i];
  }

  lemma SanitizedFree(s: Text, p: Text)
    requires p != [] && Printable(p) && Free(s, p)
    ensures Free(Sanitized(s), p)
  {
    forall j
      ensures !OccursAt(Sanitized(s), p, j)
    {
      if OccursAt(Sanitized(s), p, j) {
        var i := OccurrenceWasThere(s, p, j);
      }
    }
  }

  lemma StartPrintable()
    ensures Printable(MARKER[..12]) && |MARKER[..12]| == 12
  {
    PrintableAscii(" || bounded: ");
  }

  lemma EndSurvives(s: Text, p: Text)
    requires p != [] && Printable(p) && OccursAt(s, p, |s| - |p|)
    ensures OccursAt(Sanitized(s), p, |Sanitized(s)| - |p|)
  {
    var a := s[..|s| - |p|];
    assert s == a + p + [];
    SanitizedAround(a, p, []);
    assert Sanitized(s) == Sanitized(a) + p;
  }

  lemma LengthAround(s: Text, p: Text, i: nat)
    requires p != [] && Printable(p) && OccursAt(s, p, i)
    ensures |Sanitized(s)| == |Sanitized(s[..i])| + |p| + |Sanitized(s[i + |p|..])|
  {
    assert s == s[..i] + p + s[i + |p|..];
    SanitizedAround(s[..i], p, s[i + |p|..]);
  }

  lemma EndWasThere(s: Text, p: Text)
    requires p != [] && Printable(p) && OccursAt(Sanitized(s), p, |Sanitized(s)| - |p|)
    ensures OccursAt(s, p, |s| - |p|)
  {
    var i := OccurrenceWasThere(s, p, |Sanitized(s)| - |p|);
    LengthAround(s, p, i);
    SanitizedGrows(s[i + |p|..]);
  }

  /** Being read back neither makes nor removes an end like the start of a marker. */
  lemma SwallowsSanitized(s: Text)
    ensures Swallows(Sanitized(s)) <==> Swallows(s)
  {
    StartPrintable();
    if Swallows(s) {
      EndSurvives(s, MARKER[..12]);
    }
    if Swallows(Sanitized(s)) {
      EndWasThere(s, MARKER[..12]);
    }
  }
}
