/**
 * The handful of Go `strings` operations the dispatcher applies to a message:
 * HasPrefix, Split on a one-character separator, Index and Replace(s, old, "", 1).
 */
module Text {
  import opened Wrappers

  predicate HasPrefix(s: string, prefix: string) {
    |prefix| <= |s| && s[..|prefix|] == prefix
  }

  predicate OccursAt(s: string, p: string, j: nat) {
    j + |p| <= |s| && s[j..j + |p|] == p
  }

  /** strings.Index: the first position at which p occurs in s. */
  function IndexOf(s: string, p: string): (r: Option<nat>)
    ensures r.Some? ==> OccursAt(s, p, r.value)
    ensures r.Some? ==> forall j: nat :: j < r.value ==> !OccursAt(s, p, j)
    ensures r.None? ==> forall j: nat :: !OccursAt(s, p, j)
    decreases |s|
  {
    if |p| > |s| then None
    else if s[..|p|] == p then Some(0)
    else
      var r := IndexOf(s[1..], p);
      forall j: nat | 1 <= j
        ensures OccursAt(s, p, j) <==> OccursAt(s[1..], p, j - 1)
      {
        if j + |p| <= |s| {
          var t := s[1..];
          var a, b := s[j..j + |p|], t[j - 1..j - 1 + |p|];
          forall k | 0 <= k < |p| ensures a[k] == b[k] {
            assert a[k] == s[j + k] == t[j - 1 + k];
          }
          assert a == b;
        }
      }
      assert !OccursAt(s, p, 0);
      match r
      case None => None
      case Some(i) => Some(i + 1)
  }

  /**
   * strings.Replace(s, p, "", 1): the first occurrence of p is cut out; an empty p
   * is replaced by itself, so s comes back unchanged.
   */
  function RemoveFirst(s: string, p: string): (r: string)
    ensures IndexOf(s, p).None? ==> r == s
    ensures IndexOf(s, p).Some? ==> |r| == |s| - |p|
    ensures IndexOf(s, p).Some? ==>
      var i := IndexOf(s, p).value;
      i <= |r| && s == r[..i] + p + r[i..]
  {
    match IndexOf(s, p)
    case None => s
    case Some(i) =>
      var r := s[..i] + s[i + |p|..];
      assert r[..i] == s[..i] && r[i..] == s[i + |p|..];
      assert s == s[..i] + s[i..i + |p|] + s[i + |p|..];
      r
  }

  /** strings.Split(s, string(sep)): the pieces between separators, empty pieces kept. */
  function Split(s: string, sep: char): (pieces: seq<string>)
    ensures |pieces| > 0
    ensures forall k :: 0 <= k < |pieces| ==> sep !in pieces[k]
  {
    if s == [] then [""]
    else
      var rest := Split(s[1..], sep);
      if s[0] == sep then [""] + rest
      else [[s[0]] + rest[0]] + rest[1..]
  }

  /** strings.Join(pieces, string(sep)). */
  function Join(pieces: seq<string>, sep: char): string
    requires |pieces| > 0
  {
    if |pieces| == 1 then pieces[0] else pieces[0] + [sep] + Join(pieces[1..], sep)
  }

  /** Splitting loses nothing: joining the pieces back gives the text. */
  lemma {:induction false} JoinSplit(s: string, sep: char)
    ensures Join(Split(s, sep), sep) == s
  {
    if s != [] {
      JoinSplit(s[1..], sep);
      var rest := Split(s[1..], sep);
      if s[0] != sep && |rest| > 1 {
        assert Join(Split(s, sep), sep) == [s[0]] + rest[0] + [sep] + Join(rest[1..], sep);
      }
    }
  }

  lemma {:induction false} SplitPiece(x: string, sep: char)
    requires sep !in x
    ensures Split(x, sep) == [x]
  {
    if x != [] {
      SplitPiece(x[1..], sep);
      assert [x[0]] + x[1..] == x;
    }
  }

  lemma {:induction false} SplitAfterPiece(x: string, y: string, sep: char)
    requires sep !in x
    ensures Split(x + [sep] + y, sep) == [x] + Split(y, sep)
  {
    if x == [] {
      assert x + [sep] + y == [sep] + y;
    } else {
      var s := x + [sep] + y;
      assert s[0] == x[0] && s[1..] == x[1..] + [sep] + y;
      SplitAfterPiece(x[1..], y, sep);
      assert [x[0]] + x[1..] == x;
    }
  }

  /** Splitting undoes joining pieces that hold no separator. */
  lemma {:induction false} SplitJoin(pieces: seq<string>, sep: char)
    requires |pieces| > 0
    requires forall k :: 0 <= k < |pieces| ==> sep !in pieces[k]
    ensures Split(Join(pieces, sep), sep) == pieces
  {
    if |pieces| == 1 {
      SplitPiece(pieces[0], sep);
    } else {
      SplitJoin(pieces[1..], sep);
      SplitAfterPiece(pieces[0], Join(pieces[1..], sep), sep);
    }
  }

  /** A prefix without the separator stays at the head of the first piece. */
  lemma {:induction false} FirstPieceKeepsPrefix(s: string, p: string, sep: char)
    requires HasPrefix(s, p) && sep !in p
    ensures HasPrefix(Split(s, sep)[0], p)
  {
    if p != [] {
      assert s[0] == p[0];
      FirstPieceKeepsPrefix(s[1..], p[1..], sep);
    }
  }

  /** When s starts with p, cutting out the first occurrence of p drops that prefix. */
  lemma RemoveLeadingPrefix(s: string, p: string)
    requires HasPrefix(s, p)
    ensures RemoveFirst(s, p) == s[|p|..]
  {
  }
}
