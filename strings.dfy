/** String helpers with Python's meaning: str.split, str.rstrip,
    str.replace of single letters, substring search, and posixpath's
    join and basename. */
module Strings {
  import opened Results

  predicate StartsWith(s: string, p: string) {
    |p| <= |s| && s[..|p|] == p
  }

  predicate EndsWith(s: string, p: string) {
    |p| <= |s| && s[|s| - |p|..] == p
  }

  /** `p` occurs in `s` starting at index `i`. */
  predicate OccursAt(s: string, p: string, i: int) {
    0 <= i && i + |p| <= |s| && s[i..i + |p|] == p
  }

  /** The first index from `i` on at which `p` occurs, if any. */
  function IndexFrom(s: string, p: string, i: nat): (r: Option<nat>)
    ensures r.Some? ==> i <= r.value && r.value + |p| <= |s|
    decreases |s| - i
  {
    if i + |p| > |s| then None
    else if s[i..i + |p|] == p then Some(i)
    else IndexFrom(s, p, i + 1)
  }

  /** Python's `s.find(p)`: the first index at which `p` occurs, if any
      (IndexOfFirst states that it is the first). */
  function IndexOf(s: string, p: string): (r: Option<nat>)
    ensures r.Some? ==> r.value + |p| <= |s|
  {
    IndexFrom(s, p, 0)
  }

  lemma {:induction false} IndexFromFirst(s: string, p: string, i: nat)
    ensures IndexFrom(s, p, i).Some? ==> OccursAt(s, p, IndexFrom(s, p, i).value)
    ensures IndexFrom(s, p, i).Some? ==> forall k :: i <= k < IndexFrom(s, p, i).value ==> !OccursAt(s, p, k)
    ensures IndexFrom(s, p, i).None? ==> forall k :: i <= k ==> !OccursAt(s, p, k)
    decreases |s| - i
  {
    if i + |p| <= |s| && s[i..i + |p|] != p {
      IndexFromFirst(s, p, i + 1);
    }
  }

  /** IndexOf finds an occurrence, the first one, and finds none only
      when there is none. */
  lemma IndexOfFirst(s: string, p: string)
    ensures IndexOf(s, p).Some? ==> OccursAt(s, p, IndexOf(s, p).value)
    ensures IndexOf(s, p).Some? ==> forall k :: 0 <= k < IndexOf(s, p).value ==> !OccursAt(s, p, k)
    ensures IndexOf(s, p).None? ==> forall k :: !OccursAt(s, p, k)
  {
    IndexFromFirst(s, p, 0);
  }

  /** An index found in a suffix, moved back by the length `n` of the part
      that was skipped. */
  function ShiftBy(n: nat, o: Option<nat>): (r: Option<nat>)
    ensures r.None? <==> o.None?
    ensures o.Some? ==> r == Some(n + o.value)
  {
    match o
    case None => None
    case Some(i) => Some(n + i)
  }

  /** No occurrence of `p` can start inside a block that lacks `p`'s first
      character, so the search goes on after the block. */
  lemma IndexOfSkipBlock(a: string, b: string, p: string)
    requires |p| > 0 && p[0] !in a
    ensures IndexOf(a + b, p) == ShiftBy(|a|, IndexOf(b, p))
  {
    var s := a + b;
    forall k | 0 <= k < |a| ensures !OccursAt(s, p, k) {
      assert s[k] == a[k];
      NotOccursAt(s, p, k, 0);
    }
    IndexOfSkipPrefix(s, p, |a|);
    assert s[|a|..] == b;
  }

  /** A single position where `p` does not start, witnessed by one
      character that differs. */
  lemma IndexOfMismatch(s: string, p: string, j: nat)
    requires j < |p| && j < |s| && s[j] != p[j]
    ensures IndexOf(s, p) == ShiftBy(1, IndexOf(s[1..], p))
  {
    NotOccursAt(s, p, 0, j);
    IndexOfSkipPrefix(s, p, 1);
  }

  /** A pattern with a character that the text lacks never occurs. */
  lemma IndexOfAbsentChar(s: string, p: string, j: nat)
    requires j < |p| && p[j] !in s
    ensures IndexOf(s, p) == None
  {
    forall k | 0 <= k ensures !OccursAt(s, p, k) {
      if k + j < |s| {
        NotOccursAt(s, p, k, j);
      }
    }
    IndexOfFirst(s, p);
  }

  /** No occurrence of `p` starts before `n` in `s`. */
  predicate NoneBefore(s: string, p: string, n: int) {
    forall k :: 0 <= k < n ==> !OccursAt(s, p, k)
  }

  /** An occurrence with none before it is what IndexOf finds. */
  lemma FirstOccurrence(s: string, p: string, n: nat)
    requires OccursAt(s, p, n) && NoneBefore(s, p, n)
    ensures IndexOf(s, p) == Some(n)
  {
    IndexOfFirst(s, p);
  }

  /** When no occurrence starts in the first `n` characters, the search
      goes on in what follows them. */
  lemma IndexOfSkipPrefix(s: string, p: string, n: nat)
    requires n <= |s| && NoneBefore(s, p, n)
    ensures IndexOf(s, p) == ShiftBy(n, IndexOf(s[n..], p))
  {
    var t := s[n..];
    IndexOfFirst(t, p);
    match IndexOf(t, p)
    case Some(k) =>
      SliceOccurrence(s, p, n, k);
      forall j | n <= j < n + k ensures !OccursAt(s, p, j) {
        SliceOccurrence(s, p, n, j - n);
      }
      FirstOccurrence(s, p, n + k);
    case None =>
      IndexOfFirst(s, p);
      if IndexOf(s, p).Some? {
        var i := IndexOf(s, p).value;
        SliceOccurrence(s, p, n, i - n);
      }
  }

  /** Occurrences in `s[n..]` are those in `s` moved back by `n`. */
  lemma SliceOccurrence(s: string, p: string, n: nat, k: nat)
    requires n <= |s|
    ensures OccursAt(s[n..], p, k) <==> OccursAt(s, p, n + k)
  {
    if k + |p| <= |s| - n {
      assert s[n..][k..k + |p|] == s[n + k..n + k + |p|];
    }
  }

  /** One differing character rules out `p` as a prefix of `s`. */
  lemma Differs(s: string, p: string, j: nat)
    requires j < |p| && j < |s| && s[j] != p[j]
    ensures !StartsWith(s, p)
  {
    if |p| <= |s| {
      assert s[..|p|][j] == s[j];
    }
  }

  /** One differing character rules out an occurrence at `k`. */
  lemma NotOccursAt(s: string, p: string, k: nat, j: nat)
    requires j < |p| && k + j < |s| && s[k + j] != p[j]
    ensures !OccursAt(s, p, k)
  {
    if k + |p| <= |s| {
      assert s[k..k + |p|][j] == s[k + j];
    }
  }

  /** Python's `p in s` for strings. */
  predicate Contains(s: string, p: string) {
    IndexOf(s, p).Some?
  }

  lemma ContainsIff(s: string, p: string)
    ensures Contains(s, p) <==> exists k :: OccursAt(s, p, k)
  {
    IndexOfFirst(s, p);
  }

  /** The text that follows the last `c` of `s`, or all of `s` when `c` does
      not occur; with `c` = '/', posixpath.basename. */
  function AfterLast(s: string, c: char): (r: string)
    ensures c !in r && |r| <= |s|
    ensures |r| < |s| ==> s[|s| - |r| - 1] == c
    decreases |s|
  {
    if |s| == 0 then ""
    else if s[|s| - 1] == c then ""
    else
      var r := AfterLast(s[..|s| - 1], c) + [s[|s| - 1]];
      assert s == s[..|s| - 1] + [s[|s| - 1]];
      r
  }

  /** What follows the last `c` is a suffix of `s`. */
  lemma {:induction false} AfterLastSuffix(s: string, c: char)
    ensures EndsWith(s, AfterLast(s, c))
    decreases |s|
  {
    if |s| > 0 && s[|s| - 1] != c {
      var init := s[..|s| - 1];
      AfterLastSuffix(init, c);
      var r := AfterLast(init, c);
      assert s == init + [s[|s| - 1]];
      assert s[|s| - |r| - 1..] == init[|init| - |r|..] + [s[|s| - 1]];
    }
  }

  /** Without any `c`, all of `s` follows the last one. */
  lemma {:induction false} AfterLastWithout(s: string, c: char)
    requires c !in s
    ensures AfterLast(s, c) == s
    decreases |s|
  {
    if |s| > 0 {
      var init := s[..|s| - 1];
      assert s[|s| - 1] in s;
      assert forall x :: x in init ==> x in s;
      AfterLastWithout(init, c);
      assert s == init + [s[|s| - 1]];
    }
  }

  function Basename(path: string): (r: string)
    ensures '/' !in r && |r| <= |path|
    ensures |r| < |path| ==> path[|path| - |r| - 1] == '/'
  {
    AfterLast(path, '/')
  }

  /** A name without '/' is its own last component. */
  lemma BasenameOfName(name: string)
    requires '/' !in name
    ensures Basename(name) == name
  {
    AfterLastWithout(name, '/');
  }

  /** The last component of `a/b` is `b` when `b` holds no '/'. */
  lemma {:induction false} AfterLastOfJoin(a: string, c: char, b: string)
    requires c !in b
    ensures AfterLast(a + [c] + b, c) == b
    decreases |b|
  {
    var s := a + [c] + b;
    if |b| == 0 {
      assert s[|s| - 1] == c;
    } else {
      var b' := b[..|b| - 1];
      assert b[|b| - 1] in b;
      assert forall x :: x in b' ==> x in b;
      AfterLastOfJoin(a, c, b');
      assert s[|s| - 1] == b[|b| - 1] != c;
      assert s[..|s| - 1] == a + [c] + b';
      assert b == b' + [b[|b| - 1]];
    }
  }

  /** posixpath.join of two components: an absolute second component
      replaces the first; otherwise a '/' is put between them unless the
      first is empty or already ends with one. */
  function PathJoin(a: string, b: string): (r: string)
    ensures !StartsWith(b, "/") && a != "" && !EndsWith(a, "/") ==> r == a + "/" + b
    ensures StartsWith(b, "/") ==> r == b
  {
    if StartsWith(b, "/") then b
    else if a == "" || EndsWith(a, "/") then a + b
    else a + "/" + b
  }

  lemma PrefixOfConcat(a: string, b: string)
    ensures StartsWith(a + b, a)
  {
    assert (a + b)[..|a|] == a;
  }

  lemma PrefixTransitive(s: string, t: string, p: string)
    requires StartsWith(s, t) && StartsWith(t, p)
    ensures StartsWith(s, p)
  {
    assert s[..|p|] == s[..|t|][..|p|];
  }

  /** The second component ends the joined path. */
  lemma PathJoinSuffix(a: string, b: string)
    ensures EndsWith(PathJoin(a, b), b)
  {
    var r := PathJoin(a, b);
    if !StartsWith(b, "/") {
      if a == "" || EndsWith(a, "/") {
        assert r[|r| - |b|..] == (a + b)[|a|..];
      } else {
        assert r[|r| - |b|..] == (a + "/" + b)[|a| + 1..];
      }
    }
  }

  /** Joining a relative name only lengthens the path... */
  lemma PathJoinLonger(a: string, b: string)
    requires !StartsWith(b, "/")
    ensures |PathJoin(a, b)| >= |a| + |b|
  {
  }

  /** ...and different relative names give different paths. */
  lemma PathJoinInjective(a: string, b1: string, b2: string)
    requires !StartsWith(b1, "/") && !StartsWith(b2, "/")
    requires PathJoin(a, b1) == PathJoin(a, b2)
    ensures b1 == b2
  {
    var r := PathJoin(a, b1);
    if a == "" || EndsWith(a, "/") {
      assert b1 == r[|a|..] == b2;
    } else {
      assert b1 == r[|a| + 1..] == b2;
    }
  }

  /** The inverse of Split: the pieces with `c` between consecutive ones
      (Python's `c.join(pieces)`). */
  function JoinWith(pieces: seq<string>, c: char): string {
    if |pieces| == 0 then ""
    else if |pieces| == 1 then pieces[0]
    else pieces[0] + [c] + JoinWith(pieces[1..], c)
  }

  /** Python's `s.split(c)`: always at least one piece, none containing `c`,
      and joining the pieces with `c` gives `s` back. */
  function Split(s: string, c: char): (r: seq<string>)
    ensures |r| >= 1
    ensures forall i :: 0 <= i < |r| ==> c !in r[i]
    ensures JoinWith(r, c) == s
    ensures c in s ==> |r| >= 2
    decreases |s|
  {
    if |s| == 0 then [""]
    else
      var rest := Split(s[1..], c);
      if s[0] == c then
        assert s == [c] + s[1..];
        [""] + rest
      else
        var r := [[s[0]] + rest[0]] + rest[1..];
        assert r[1..] == rest[1..];
        assert s == [s[0]] + s[1..];
        r
  }

  /** Splitting a join of pieces that do not contain the separator gives
      the pieces back. */
  lemma {:induction false} SplitJoin(pieces: seq<string>, c: char)
    requires |pieces| >= 1
    requires forall i :: 0 <= i < |pieces| ==> c !in pieces[i]
    ensures Split(JoinWith(pieces, c), c) == pieces
    decreases |pieces|, |pieces[0]|
  {
    var p0 := pieces[0];
    if |pieces| == 1 {
      SplitWithout(p0, c);
    } else if |p0| == 0 {
      SplitJoin(pieces[1..], c);
      var s := JoinWith(pieces, c);
      assert s == [c] + JoinWith(pieces[1..], c);
      assert s[1..] == JoinWith(pieces[1..], c);
      assert pieces == [""] + pieces[1..];
    } else {
      var shorter := [p0[1..]] + pieces[1..];
      assert shorter[1..] == pieces[1..];
      assert forall i :: 0 <= i < |shorter| ==> c !in shorter[i];
      SplitJoin(shorter, c);
      var s := JoinWith(pieces, c);
      assert s == [p0[0]] + JoinWith(shorter, c) by {
        assert p0 == [p0[0]] + p0[1..];
      }
      assert s[1..] == JoinWith(shorter, c);
      assert s[0] == p0[0] && p0[0] != c;
      assert pieces == [[p0[0]] + shorter[0]] + shorter[1..] by {
        assert p0 == [p0[0]] + p0[1..];
      }
    }
  }

  lemma {:induction false} SplitWithout(s: string, c: char)
    requires c !in s
    ensures Split(s, c) == [s]
    decreases |s|
  {
    if |s| > 0 {
      SplitWithout(s[1..], c);
      assert s == [s[0]] + s[1..];
    }
  }

  /** Python's `s.rstrip(c)`: drops every trailing `c`. */
  function RStrip(s: string, c: char): (r: string)
    ensures StartsWith(s, r)
    ensures r == "" || r[|r| - 1] != c
    ensures forall i :: |r| <= i < |s| ==> s[i] == c
    decreases |s|
  {
    if |s| > 0 && s[|s| - 1] == c then RStrip(s[..|s| - 1], c) else s
  }

  /** `s` with every character of `cs` removed (a chain of Python
      `str.replace(ch, '')` calls). */
  function RemoveChars(s: string, cs: set<char>): (r: string)
    ensures forall i :: 0 <= i < |r| ==> r[i] !in cs
    ensures |r| <= |s|
    decreases |s|
  {
    if |s| == 0 then ""
    else
      var rest := RemoveChars(s[1..], cs);
      if s[0] in cs then rest else [s[0]] + rest
  }

  lemma {:induction false} RemoveCharsNone(s: string, cs: set<char>)
    requires forall i :: 0 <= i < |s| ==> s[i] !in cs
    ensures RemoveChars(s, cs) == s
    decreases |s|
  {
    if |s| > 0 {
      RemoveCharsNone(s[1..], cs);
      assert s == [s[0]] + s[1..];
    }
  }

  lemma {:induction false} RemoveCharsAppend(s: string, t: string, cs: set<char>)
    ensures RemoveChars(s + t, cs) == RemoveChars(s, cs) + RemoveChars(t, cs)
    decreases |s|
  {
    if |s| > 0 {
      RemoveCharsAppend(s[1..], t, cs);
      assert (s + t)[1..] == s[1..] + t;
    } else {
      assert s + t == t;
    }
  }

  /** Decimal digits. */
  predicate IsDigit(ch: char) {
    '0' <= ch <= '9'
  }

  predicate IsDigits(s: string) {
    |s| > 0 && forall i :: 0 <= i < |s| ==> IsDigit(s[i])
  }

  function DigitValue(ch: char): (d: nat)
    requires IsDigit(ch)
    ensures d < 10
  {
    (ch as int) - ('0' as int)
  }

  /** The number a run of decimal digits denotes (Python's `int(s)`). */
  function ParseNat(s: string): nat
    requires IsDigits(s)
    decreases |s|
  {
    if |s| == 1 then DigitValue(s[0])
    else 10 * ParseNat(s[..|s| - 1]) + DigitValue(s[|s| - 1])
  }

  function DigitChar(d: nat): (ch: char)
    requires d < 10
    ensures IsDigit(ch) && DigitValue(ch) == d
  {
    (('0' as int) + d) as char
  }

  /** Python's `str(n)` for a natural number. */
  function NatToString(n: nat): (r: string)
    ensures IsDigits(r)
    decreases n
  {
    if n < 10 then [DigitChar(n)] else NatToString(n / 10) + [DigitChar(n % 10)]
  }
}
