/** `sep.join(parts)`, the string building behind the `__str__` methods. */
module Text {

  /** `sep.join(parts)`: the parts with sep between neighbours; "" for no parts. */
  function Join(sep: string, parts: seq<string>): (r: string)
    ensures |parts| == 0 ==> r == ""
    ensures |parts| > 0 ==> |parts[0]| <= |r| && r[..|parts[0]|] == parts[0]
    ensures |parts| > 1 ==> |parts[0]| + |sep| <= |r| && r[|parts[0]|..|parts[0]| + |sep|] == sep
  {
    if |parts| == 0 then ""
    else if |parts| == 1 then parts[0]
    else parts[0] + sep + Join(sep, parts[1..])
  }

  /** Joining is the same built from the back: the join of all but the last part, sep, then the last part. */
  lemma {:induction false} JoinSnoc(sep: string, parts: seq<string>)
    requires |parts| > 1
    ensures Join(sep, parts) == Join(sep, parts[..|parts| - 1]) + sep + parts[|parts| - 1]
  {
    var n := |parts|;
    if n == 2 {
      assert parts[..1] == [parts[0]];
      assert parts[1..] == [parts[1]];
    } else {
      JoinSnoc(sep, parts[1..]);
      assert parts[1..][..n - 2] == parts[..n - 1][1..];
    }
  }

  /** A character that occurs in no part and not in the separator does not occur in the join. */
  lemma {:induction false} JoinAvoids(sep: string, parts: seq<string>, c: char)
    requires c !in sep && forall i :: 0 <= i < |parts| ==> c !in parts[i]
    ensures c !in Join(sep, parts)
  {
    if |parts| > 1 {
      JoinAvoids(sep, parts[1..], c);
      assert c !in parts[0];
    }
  }

  /** `s.split(c)` for a one-character separator: the pieces between the occurrences of c. */
  function Split(s: string, c: char): (r: seq<string>)
    ensures |r| > 0
  {
    if s == [] then [""]
    else
      var rest := Split(s[1..], c);
      if s[0] == c then [""] + rest else [[s[0]] + rest[0]] + rest[1..]
  }

  /** A piece free of c, followed by c and a tail, splits into that piece and the pieces of the tail. */
  lemma {:induction false} SplitPiece(a: string, c: char, tail: string)
    requires c !in a
    ensures Split(a + [c] + tail, c) == [a] + Split(tail, c)
  {
    if a != [] {
      assert (a + [c] + tail)[1..] == a[1..] + [c] + tail;
      SplitPiece(a[1..], c, tail);
      assert [a[0]] + a[1..] == a;
    } else {
      assert a + [c] + tail == [c] + tail;
    }
  }

  /** A string free of c is a single piece. */
  lemma {:induction false} SplitWhole(a: string, c: char)
    requires c !in a
    ensures Split(a, c) == [a]
  {
    if a != [] {
      SplitWhole(a[1..], c);
      assert [a[0]] + a[1..] == a;
    }
  }

  /** Splitting on c undoes joining with c, when no part contains c. */
  lemma {:induction false} SplitJoin(parts: seq<string>, c: char)
    requires |parts| > 0 && forall i :: 0 <= i < |parts| ==> c !in parts[i]
    ensures Split(Join([c], parts), c) == parts
  {
    if |parts| == 1 {
      SplitWhole(parts[0], c);
    } else {
      SplitJoin(parts[1..], c);
      SplitPiece(parts[0], c, Join([c], parts[1..]));
      assert parts == [parts[0]] + parts[1..];
    }
  }

  /** When every part has width w, the joined string has |parts| * (w + |sep|) - |sep| characters. */
  lemma {:induction false} JoinLength(sep: string, parts: seq<string>, w: nat)
    requires forall i :: 0 <= i < |parts| ==> |parts[i]| == w
    requires |parts| > 0
    ensures |Join(sep, parts)| == |parts| * (w + |sep|) - |sep|
  {
    if |parts| > 1 {
      JoinLength(sep, parts[1..], w);
      assert (|parts| - 1) * (w + |sep|) + (w + |sep|) == |parts| * (w + |sep|);
    }
  }

  /** i steps of k characters: the offset of part i when every part plus its separator is k wide. */
  function Offset(i: nat, k: nat): nat {
    if i == 0 then 0 else Offset(i - 1, k) + k
  }

  /** The offset of part i is i * k. */
  lemma {:induction false} OffsetIsProduct(i: nat, k: nat)
    ensures Offset(i, k) == i * k
  {
    if i > 0 {
      OffsetIsProduct(i - 1, k);
      assert (i - 1) * k + k == i * k;
    }
  }

  /** JoinPartAt with the offset counted step by step, which keeps the induction linear. */
  lemma {:induction false} JoinPartAtOffset(sep: string, parts: seq<string>, w: nat, i: nat)
    requires forall j :: 0 <= j < |parts| ==> |parts[j]| == w
    requires i < |parts|
    ensures Offset(i, w + |sep|) + w <= |Join(sep, parts)|
    ensures Join(sep, parts)[Offset(i, w + |sep|)..Offset(i, w + |sep|) + w] == parts[i]
  {
    var k := w + |sep|;
    if i > 0 {
      var rest := parts[1..];
      assert forall m :: 0 <= m < |rest| ==> |rest[m]| == w;
      JoinPartAtOffset(sep, rest, w, i - 1);
      JoinTail(sep, parts);
      var whole, tail := Join(sep, parts), Join(sep, rest);
      var o := Offset(i - 1, k);
      assert Offset(i, k) == k + o;
      assert whole[k..] == tail;
      assert whole[k + o..k + o + w] == tail[o..o + w];
    }
  }

  /** Past the first part and its separator, a join is the join of the remaining parts. */
  lemma JoinTail(sep: string, parts: seq<string>)
    requires |parts| > 1
    ensures |parts[0]| + |sep| <= |Join(sep, parts)|
    ensures Join(sep, parts)[|parts[0]| + |sep|..] == Join(sep, parts[1..])
  {
  }

  /**
   * When every part has the same width w, the joined string can be cut back into
   * its parts: part i is the w characters at offset i * (w + |sep|).
   */
  lemma JoinPartAt(sep: string, parts: seq<string>, w: nat, i: nat)
    requires forall j :: 0 <= j < |parts| ==> |parts[j]| == w
    requires i < |parts|
    ensures i * (w + |sep|) + w <= |Join(sep, parts)|
    ensures Join(sep, parts)[i * (w + |sep|)..i * (w + |sep|) + w] == parts[i]
  {
    JoinPartAtOffset(sep, parts, w, i);
    OffsetIsProduct(i, w + |sep|);
  }
}
