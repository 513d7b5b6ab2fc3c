/** The splitter of src/utils.cc, and what it means to split a string. */
module Explode {

  ghost predicate OccursAt(d: string, s: string, i: int) {
    0 <= i && i + |d| <= |s| && s[i..i + |d|] == d
  }

  ghost predicate Contains(s: string, d: string) {
    exists i :: OccursAt(d, s, i)
  }

  function Join(d: string, pieces: seq<string>): string {
    if pieces == [] then ""
    else if |pieces| == 1 then pieces[0]
    else pieces[0] + d + Join(d, pieces[1..])
  }

  /** Every cut is at the earliest possible place: the delimiter written after a piece is the first
      occurrence of the delimiter from the start of that piece, and the last piece has none. */
  ghost predicate CutsLeftmost(d: string, pieces: seq<string>) {
    && pieces != []
    && !Contains(pieces[|pieces| - 1], d)
    && forall k, i :: 0 <= k < |pieces| - 1 && 0 <= i < |pieces[k]| ==> !OccursAt(d, pieces[k] + d, i)
  }

  /** `pieces` is the result of splitting `s` at `d`. `SplitUnique` shows there is exactly one. */
  ghost predicate IsSplit(d: string, s: string, pieces: seq<string>) {
    Join(d, pieces) == s && CutsLeftmost(d, pieces)
  }

  ghost function FirstIndex(d: string, s: string, from: nat): (i: nat)
    requires exists i :: from <= i && OccursAt(d, s, i)
    ensures from <= i && OccursAt(d, s, i)
    ensures forall x :: from <= x < i ==> !OccursAt(d, s, x)
    decreases |s| - from
  {
    if OccursAt(d, s, from) then from else FirstIndex(d, s, from + 1)
  }

  /** The split of a string. */
  ghost function Split(d: string, s: string): (pieces: seq<string>)
    requires d != ""
    ensures IsSplit(d, s, pieces)
    decreases |s|
  {
    if !Contains(s, d) then [s]
    else
      var i := FirstIndex(d, s, 0);
      var rest := Split(d, s[i + |d|..]);
      var pieces := [s[..i]] + rest;
      assert IsSplit(d, s, pieces) by { CutIsSplit(d, s, i, rest); }
      pieces
  }

  /** The nested loops of src/utils.cc. An empty delimiter gives no pieces at all. */
  method Explode(delimiter: string, str: string) returns (arr: seq<string>)
    ensures delimiter == "" ==> arr == []
    ensures delimiter != "" ==> IsSplit(delimiter, str, arr) && arr == Split(delimiter, str)
  {
    arr := [];
    var length := |str|;
    var delLength := |delimiter|;
    if delLength == 0 {
      return;
    }
    assert Prefix(delimiter, []) == "" && CutSoFar(delimiter, []);
    hide Join, Contains, CutsLeftmost, IsSplit, OccursAt, CutSoFar, Prefix;
    var i := 0;
    var k := 0;
    while i < length
      invariant 0 <= k <= i <= length
      invariant Prefix(delimiter, arr) == str[..k]
      invariant CutSoFar(delimiter, arr)
      invariant forall x :: k <= x < i ==> !OccursAt(delimiter, str, x)
      decreases length - i
    {
      var j := 0;
      while i + j < length && j < delLength && str[i + j] == delimiter[j]
        invariant 0 <= j <= delLength && i + j <= length
        invariant str[i..i + j] == delimiter[..j]
      {
        assert str[i..i + j + 1] == str[i..i + j] + [str[i + j]];
        assert delimiter[..j + 1] == delimiter[..j] + [delimiter[j]];
        j := j + 1;
      }
      Compared(delimiter, str, i, j);
      if j == delLength {
        CutHere(delimiter, str, k, i);
        CutAppend(delimiter, arr, str[k..i]);
        PrefixAppend(delimiter, arr, str[k..i]);
        assert str[..k] + (str[k..i] + delimiter) == str[..i + delLength];
        arr := arr + [str[k..i]];
        i := i + delLength;
        k := i;
      } else {
        i := i + 1;
      }
    }
    LastPiece(delimiter, str, k);
    PrefixJoin(delimiter, arr, str[k..i]);
    assert str[..k] + str[k..i] == str && str[k..i] == str[k..];
    CutAll(delimiter, str, arr, str[k..i]);
    arr := arr + [str[k..i]];
    SplitUnique(delimiter, str, arr, Split(delimiter, str));
  }

  /** Every piece so far ends at the leftmost occurrence after its beginning. */
  ghost predicate CutSoFar(d: string, arr: seq<string>) {
    forall m, x :: 0 <= m < |arr| && 0 <= x < |arr[m]| ==> !OccursAt(d, arr[m] + d, x)
  }

  lemma CutAppend(d: string, arr: seq<string>, p: string)
    requires CutSoFar(d, arr) && forall x :: 0 <= x < |p| ==> !OccursAt(d, p + d, x)
    ensures CutSoFar(d, arr + [p])
  {
    hide OccursAt;
  }

  lemma CutAll(d: string, s: string, arr: seq<string>, last: string)
    requires d != "" && CutSoFar(d, arr) && !Contains(last, d) && Join(d, arr + [last]) == s
    ensures IsSplit(d, s, arr + [last])
  {
    hide OccursAt, Contains, Join;
  }

  /** The inner loop has compared j characters, and stopped at the end of one string or at a difference. */
  lemma Compared(d: string, s: string, i: nat, j: nat)
    requires d != "" && j <= |d| && i + j <= |s| && s[i..i + j] == d[..j]
    requires i + j == |s| || j == |d| || s[i + j] != d[j]
    ensures OccursAt(d, s, i) <==> j == |d|
  {
    assert j < |d| && i + |d| <= |s| ==> s[i..i + |d|][j] == s[i + j];
  }

  /** Cutting at the first occurrence and splitting the rest splits the whole. */
  lemma CutIsSplit(d: string, s: string, i: nat, rest: seq<string>)
    requires d != "" && OccursAt(d, s, i)
    requires forall x :: 0 <= x < i ==> !OccursAt(d, s, x)
    requires IsSplit(d, s[i + |d|..], rest)
    ensures IsSplit(d, s, [s[..i]] + rest)
  {
    var pieces := [s[..i]] + rest;
    assert pieces[1..] == rest;
    assert s == s[..i] + d + s[i + |d|..];
    CutHere(d, s, 0, i);
    assert s[0..i] == s[..i];
    forall k, x | 0 <= k < |pieces| - 1 && 0 <= x < |pieces[k]| ensures !OccursAt(d, pieces[k] + d, x) {
      if k > 0 {
        assert !OccursAt(d, rest[k - 1] + d, x);
      }
    }
  }

  /** The pieces of a split, each followed by the delimiter. */
  ghost function Prefix(d: string, pieces: seq<string>): string {
    if pieces == [] then "" else pieces[0] + d + Prefix(d, pieces[1..])
  }

  lemma {:induction false} PrefixAppend(d: string, pieces: seq<string>, p: string)
    ensures Prefix(d, pieces + [p]) == Prefix(d, pieces) + (p + d)
  {
    if pieces == [] {
      assert [p][1..] == [];
    } else {
      PrefixAppend(d, pieces[1..], p);
      assert (pieces + [p])[1..] == pieces[1..] + [p];
    }
  }

  lemma {:induction false} PrefixJoin(d: string, pieces: seq<string>, last: string)
    ensures Join(d, pieces + [last]) == Prefix(d, pieces) + last
  {
    if pieces != [] {
      PrefixJoin(d, pieces[1..], last);
      assert (pieces + [last])[1..] == pieces[1..] + [last];
    }
  }

  /** With no occurrence from k up to i, the delimiter found at i is the first one after str[k..i]. */
  lemma CutHere(d: string, s: string, k: int, i: int)
    requires d != "" && 0 <= k <= i && OccursAt(d, s, i)
    requires forall x :: k <= x < i ==> !OccursAt(d, s, x)
    ensures forall x :: 0 <= x < i - k ==> !OccursAt(d, s[k..i] + d, x)
  {
    forall x | 0 <= x < i - k ensures !OccursAt(d, s[k..i] + d, x) {
      assert d == s[i..i + |d|];
      assert s[k..i] + d == s[k..i + |d|];
      assert !OccursAt(d, s, k + x);
      SliceOfSlice(s, k, i + |d|, x, x + |d|);
    }
  }

  lemma SliceOfSlice(s: string, lo: int, hi: int, from: int, to: int)
    requires 0 <= lo <= hi <= |s| && 0 <= from <= to <= hi - lo
    ensures s[lo..hi][from..to] == s[lo + from..lo + to]
  {
    var a, b := s[lo..hi][from..to], s[lo + from..lo + to];
    assert |a| == |b| && forall j :: 0 <= j < |a| ==> a[j] == b[j];
  }

  lemma LastPiece(d: string, s: string, k: int)
    requires 0 <= k <= |s|
    requires forall x :: k <= x < |s| ==> !OccursAt(d, s, x)
    requires d != ""
    ensures !Contains(s[k..], d)
  {
    if Contains(s[k..], d) {
      var i :| OccursAt(d, s[k..], i);
      assert s[k..][i..i + |d|] == s[k + i..k + i + |d|];
      assert OccursAt(d, s, k + i);
    }
  }

  // ----- laws -----

  /** No piece of a split contains the delimiter. */
  lemma PiecesAreFree(d: string, s: string, pieces: seq<string>, k: nat)
    requires d != "" && IsSplit(d, s, pieces) && k < |pieces|
    ensures !Contains(pieces[k], d)
  {
    if k < |pieces| - 1 && Contains(pieces[k], d) {
      var i :| OccursAt(d, pieces[k], i);
      assert (pieces[k] + d)[i..i + |d|] == pieces[k][i..i + |d|];
      assert OccursAt(d, pieces[k] + d, i);
    }
  }

  /** Dropping the first of several pieces leaves a split of what follows the first delimiter. */
  lemma TailIsSplit(d: string, pieces: seq<string>)
    requires CutsLeftmost(d, pieces) && |pieces| > 1
    ensures CutsLeftmost(d, pieces[1..])
  {
    var rest := pieces[1..];
    forall k, i | 0 <= k < |rest| - 1 && 0 <= i < |rest[k]| ensures !OccursAt(d, rest[k] + d, i) {
      assert !OccursAt(d, pieces[k + 1] + d, i);
    }
  }

  /** In a string that starts with piece and delimiter, the first occurrence is right after the piece. */
  lemma FirstOccurrence(d: string, p: string, rest: string, i: int)
    requires d != "" && 0 <= i < |p|
    requires forall x :: 0 <= x < |p| ==> !OccursAt(d, p + d, x)
    ensures !OccursAt(d, p + d + rest, i) && OccursAt(d, p + d + rest, |p|)
  {
    assert (p + d + rest)[|p|..|p| + |d|] == d;
    assert (p + d + rest)[i..i + |d|] == (p + d)[i..i + |d|];
    assert !OccursAt(d, p + d, i);
  }

  /** The last piece of a split cannot be confused with an earlier one: it has no delimiter. */
  lemma HeadsAgree(d: string, a: seq<string>, b: seq<string>)
    requires d != "" && CutsLeftmost(d, a) && CutsLeftmost(d, b) && Join(d, a) == Join(d, b)
    requires |a| > 1
    ensures |b| > 1 && a[0] == b[0] && Join(d, a[1..]) == Join(d, b[1..])
  {
    var s := Join(d, a);
    var ra := Join(d, a[1..]);
    assert s == a[0] + d + ra;
    assert OccursAt(d, s, |a[0]|);
    assert Contains(s, d);
    var rb := Join(d, b[1..]);
    assert s == b[0] + d + rb;
    assert OccursAt(d, s, |b[0]|);
    if |b[0]| < |a[0]| {
      FirstOccurrence(d, a[0], ra, |b[0]|);
    }
    if |a[0]| < |b[0]| {
      FirstOccurrence(d, b[0], rb, |a[0]|);
    }
    assert a[0] == s[..|a[0]|] == b[0];
    assert ra == s[|a[0]| + |d|..] == rb;
  }

  /** A string has at most one split at a non-empty delimiter, so `Explode` is fully determined. */
  lemma {:induction false} SplitUnique(d: string, s: string, a: seq<string>, b: seq<string>)
    requires d != "" && IsSplit(d, s, a) && IsSplit(d, s, b)
    ensures a == b
    decreases |a|
  {
    if |a| > 1 {
      HeadsAgree(d, a, b);
      TailIsSplit(d, a);
      TailIsSplit(d, b);
      SplitUnique(d, Join(d, a[1..]), a[1..], b[1..]);
      assert a == [a[0]] + a[1..] && b == [b[0]] + b[1..];
    } else if |b| > 1 {
      HeadsAgree(d, b, a);
    }
  }

  /** Splitting undoes joining on exactly the lists whose cuts are leftmost. */
  lemma SplitInvertsJoin(d: string, pieces: seq<string>)
    requires d != ""
    ensures Split(d, Join(d, pieces)) == pieces <==> CutsLeftmost(d, pieces)
  {
    if CutsLeftmost(d, pieces) {
      SplitUnique(d, Join(d, pieces), Split(d, Join(d, pieces)), pieces);
    }
  }

  /** For a one-character delimiter that means: a non-empty list of pieces without the character. */
  lemma OneCharCuts(c: char, pieces: seq<string>)
    ensures CutsLeftmost([c], pieces) <==> pieces != [] && forall k :: 0 <= k < |pieces| ==> c !in pieces[k]
  {
    forall k | 0 <= k < |pieces|
      ensures Contains(pieces[k], [c]) <==> c in pieces[k]
      ensures CutsOnce(c, pieces[k]) <==> c !in pieces[k]
    {
      OneCharContains(c, pieces[k]);
      OneCharFollows(c, pieces[k]);
    }
    assert CutsLeftmost([c], pieces) ==> forall k :: 0 <= k < |pieces| - 1 ==> CutsOnce(c, pieces[k]);
  }

  ghost predicate CutsOnce(c: char, p: string) {
    forall i :: 0 <= i < |p| ==> !OccursAt([c], p + [c], i)
  }

  lemma OneCharFollows(c: char, p: string)
    ensures CutsOnce(c, p) <==> c !in p
  {
    forall x | 0 <= x < |p|
      ensures OccursAt([c], p + [c], x) <==> p[x] == c
    {
      assert (p + [c])[x..x + 1] == [p[x]];
    }
    if c in p {
      var x :| 0 <= x < |p| && p[x] == c;
      assert OccursAt([c], p + [c], x);
    }
  }

  lemma OneCharContains(c: char, p: string)
    ensures Contains(p, [c]) <==> c in p
  {
    if c in p {
      var x :| 0 <= x < |p| && p[x] == c;
      assert p[x..x + 1] == [c];
      assert OccursAt([c], p, x);
    }
    if x :| OccursAt([c], p, x) {
      assert p[x] == p[x..x + 1][0];
    }
  }

  /** The form the header codecs use: splitting a join of delimiter-free pieces gives them back. */
  lemma SplitJoin(c: char, pieces: seq<string>)
    requires pieces != [] && forall k :: 0 <= k < |pieces| ==> c !in pieces[k]
    ensures Split([c], Join([c], pieces)) == pieces
  {
    OneCharCuts(c, pieces);
    SplitInvertsJoin([c], pieces);
  }

  /** Pieces are made of characters of the string that was split. */
  lemma {:induction false} JoinChars(d: string, pieces: seq<string>, k: nat, c: char)
    requires k < |pieces| && c in pieces[k]
    ensures c in Join(d, pieces)
  {
    if k > 0 {
      JoinChars(d, pieces[1..], k - 1, c);
    }
  }
}
