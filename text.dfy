/**
  The Python string built-ins the retrieval code relies on: `str.lower`,
  the substring test `needle in hay`, the slice `s[:n]` and `sep.join(parts)`.
  Python strings are sequences of code points, modelled as `seq<char>`.
 */
module Text {

  /** The capitals that `str.lower` maps one code point up by 32: A-Z and the
      Latin-1 capitals U+00C0..U+00DE except the multiplication sign U+00D7. */
  predicate IsUpper(c: char) {
    ('A' <= c <= 'Z') || ('\U{00C0}' <= c <= '\U{00DE}' && c != '\U{00D7}')
  }

  /** `str.lower` on one code point, within the range covered by IsUpper. */
  function LowerChar(c: char): (d: char)
    ensures !IsUpper(d)
    ensures !IsUpper(c) ==> d == c
    ensures IsUpper(c) ==> d as int == c as int + 32
  {
    if IsUpper(c) then (c as int + 32) as char else c
  }

  /** `s.lower()`: lowers each code point, keeping the length. */
  function Lower(s: string): (r: string)
    ensures |r| == |s|
    ensures forall i :: 0 <= i < |s| ==> r[i] == LowerChar(s[i])
  {
    seq(|s|, i requires 0 <= i < |s| => LowerChar(s[i]))
  }

  /** Lowering twice is lowering once. */
  lemma LowerIdempotent(s: string)
    ensures Lower(Lower(s)) == Lower(s)
  {
  }

  /** `needle` sits in `hay` starting at offset `i`. */
  ghost predicate OccursAt(needle: string, hay: string, i: int) {
    0 <= i && i + |needle| <= |hay| && hay[i..i + |needle|] == needle
  }

  /** When `needle` is not at offset 0 of a non-empty `hay`, its offsets in `hay`
      are those in `hay[1..]`, moved one place right; so it occurs in `hay`
      exactly when it occurs in `hay[1..]`. */
  lemma OccursPastHead(needle: string, hay: string)
    requires |needle| <= |hay| && hay[..|needle|] != needle
    ensures |hay| > 0
    ensures !OccursAt(needle, hay, 0)
    ensures forall i :: 1 <= i ==> (OccursAt(needle, hay, i) <==> OccursAt(needle, hay[1..], i - 1))
    ensures (exists i :: OccursAt(needle, hay, i)) <==> (exists i :: OccursAt(needle, hay[1..], i))
  {
    var tl := hay[1..];
    assert hay[0..|needle|] == hay[..|needle|];
    forall i | 1 <= i
      ensures OccursAt(needle, hay, i) <==> OccursAt(needle, tl, i - 1)
    {
      if i + |needle| <= |hay| {
        assert tl[i - 1..i - 1 + |needle|] == hay[i..i + |needle|];
      }
    }
    if exists i :: OccursAt(needle, hay, i) {
      var i :| OccursAt(needle, hay, i);
      assert OccursAt(needle, tl, i - 1);
    }
    if exists i :: OccursAt(needle, tl, i) {
      var i :| OccursAt(needle, tl, i);
      assert hay[i + 1..i + 1 + |needle|] == tl[i..i + |needle|];
      assert OccursAt(needle, hay, i + 1);
    }
  }

  /** Python's `needle in hay`: try every offset from the left. It holds exactly
      when `needle` is a contiguous slice of `hay`. */
  function Contains(needle: string, hay: string): (b: bool)
    ensures b <==> exists i :: OccursAt(needle, hay, i)
    decreases |hay|
  {
    if |needle| > |hay| then false
    else if hay[..|needle|] == needle then
      assert OccursAt(needle, hay, 0);
      true
    else
      OccursPastHead(needle, hay);
      Contains(needle, hay[1..])
  }

  function Min(a: int, b: int): int {
    if a <= b then a else b
  }

  /** The slice `s[:n]` for a non-negative `n`: the longest prefix of at most `n` characters. */
  function Truncate(s: string, n: nat): (r: string)
    ensures r <= s
    ensures |r| == Min(n, |s|)
  {
    if |s| <= n then s else s[..n]
  }

  /** Total number of characters in `parts`. */
  function TotalLength(parts: seq<string>): nat
    decreases |parts|
  {
    if parts == [] then 0 else |parts[0]| + TotalLength(parts[1..])
  }

  /** `sep.join(parts)`: it starts with the first part and ends with the last. */
  function Join(sep: string, parts: seq<string>): (r: string)
    ensures parts == [] ==> r == ""
    ensures parts != [] ==> parts[0] <= r && EndsWith(r, parts[|parts| - 1])
    decreases |parts|
  {
    if |parts| == 0 then ""
    else if |parts| == 1 then parts[0]
    else parts[0] + sep + Join(sep, parts[1..])
  }

  /** A join is as long as its parts together plus one separator between each two neighbours. */
  lemma {:induction false} JoinLength(sep: string, parts: seq<string>)
    requires parts != []
    ensures |Join(sep, parts)| == TotalLength(parts) + (|parts| - 1) * |sep|
    decreases |parts|
  {
    if |parts| > 1 {
      JoinLength(sep, parts[1..]);
      assert (|parts| - 1) * |sep| == (|parts| - 2) * |sep| + |sep|;
    }
  }

  /** Joining two non-empty lists is joining each and putting one separator between. */
  lemma {:induction false} JoinSplit(sep: string, a: seq<string>, b: seq<string>)
    requires a != [] && b != []
    ensures Join(sep, a + b) == Join(sep, a) + sep + Join(sep, b)
    decreases |a|
  {
    if |a| == 1 {
      assert (a + b)[1..] == b;
    } else {
      assert (a + b)[1..] == a[1..] + b;
      JoinSplit(sep, a[1..], b);
    }
  }

  /** Part `k` of a join stands between the join of the parts before it and the
      join of the parts after it, with one separator on each side that has a neighbour. */
  lemma JoinAround(sep: string, parts: seq<string>, k: nat)
    requires k < |parts|
    ensures Join(sep, parts) ==
      Join(sep, parts[..k]) + (if 0 < k then sep else "") + parts[k]
      + (if k + 1 < |parts| then sep else "") + Join(sep, parts[k + 1..])
  {
    var before, here, after := parts[..k], [parts[k]], parts[k + 1..];
    var left := Join(sep, before) + (if 0 < k then sep else "") + parts[k];
    assert Join(sep, before + here) == left by {
      if before != [] {
        JoinSplit(sep, before, here);
      }
    }
    if after != [] {
      assert parts == (before + here) + after;
      JoinSplit(sep, before + here, after);
    } else {
      assert parts == before + here;
    }
  }

  predicate EndsWith(s: string, suffix: string) {
    |suffix| <= |s| && s[|s| - |suffix|..] == suffix
  }
}
