/** Absolute paths made of '/'-free components, and where a marker word
    preceded or followed by a '/' is found in them: the search can be
    followed one component at a time. */
module Paths {
  import opened Results
  import opened Strings

  /** The absolute path "/c0/c1/..." with the given components. */
  function PathOf(cs: seq<string>): (r: string)
    ensures r == "" || r[0] == '/'
    ensures |cs| > 0 ==> r != ""
  {
    if |cs| == 0 then "" else "/" + cs[0] + PathOf(cs[1..])
  }

  lemma {:induction false} PathOfAppend(a: seq<string>, b: seq<string>)
    ensures PathOf(a + b) == PathOf(a) + PathOf(b)
    decreases |a|
  {
    if |a| == 0 {
      assert a + b == b;
    } else {
      PathOfAppend(a[1..], b);
      assert (a + b)[1..] == a[1..] + b;
    }
  }

  /** A non-empty path is a '/' followed by its components joined with '/'. */
  lemma {:induction false} PathOfJoin(cs: seq<string>)
    requires |cs| > 0
    ensures PathOf(cs) == "/" + JoinWith(cs, '/')
    decreases |cs|
  {
    if |cs| > 1 {
      PathOfJoin(cs[1..]);
    }
  }

  predicate NoSlash(cs: seq<string>) {
    forall k :: 0 <= k < |cs| ==> '/' !in cs[k]
  }

  /** A marker `w + "/"` holds a single '/', at its end, so it cannot start
      at a position `k` of a component unless it ends that component and a
      '/' follows. */
  lemma TrailingMarkerNotAt(c: string, r: string, w: string, k: nat)
    requires '/' !in w && |w| > 0
    requires '/' !in c && (r == "" || r[0] == '/')
    requires !EndsWith(c, w) || r == ""
    requires k < 1 + |c|
    ensures !OccursAt("/" + c + r, w + "/", k)
  {
    var s := "/" + c + r;
    var m := w + "/";
    var n := |w|;
    assert w[0] != '/';
    if k == 0 {
      NotOccursAt(s, m, 0, 0);
    } else if k + n <= |c| {
      assert s[k + n] == c[k + n - 1];
      NotOccursAt(s, m, k, n);
    } else if r == "" {
      assert |s| < k + |m|;
    } else if k + n == |c| + 1 {
      assert c[|c| - n..] != w;
      var t :| 0 <= t < n && c[|c| - n..][t] != w[t];
      assert s[k + t] == c[|c| - n + t];
      NotOccursAt(s, m, k, t);
    } else {
      var j := |c| + 1 - k;
      assert s[k + j] == r[0] && m[j] == w[j];
      NotOccursAt(s, m, k, j);
    }
  }

  lemma TrailingMarkerMisses(c: string, r: string, w: string)
    requires '/' !in w && |w| > 0
    requires '/' !in c && (r == "" || r[0] == '/')
    requires !EndsWith(c, w) || r == ""
    ensures IndexOf("/" + c + r, w + "/") == ShiftBy(1 + |c|, IndexOf(r, w + "/"))
  {
    var s := "/" + c + r;
    forall k: nat | k < 1 + |c| ensures !OccursAt(s, w + "/", k) {
      TrailingMarkerNotAt(c, r, w, k);
    }
    IndexOfSkipPrefix(s, w + "/", 1 + |c|);
    assert s[1 + |c|..] == r;
  }

  /** A component ending with `w` and followed by a '/' holds the marker
      `w + "/"`, and it is the first one in the component. */
  lemma TrailingMarkerEnds(c: string, r: string, w: string)
    requires '/' !in w && |w| > 0
    requires '/' !in c && r != "" && r[0] == '/'
    requires EndsWith(c, w)
    ensures IndexOf("/" + c + r, w + "/") == Some(1 + |c| - |w|)
  {
    var s := "/" + c + r;
    var m := w + "/";
    var n := |w|;
    var i := 1 + |c| - n;
    forall t | 0 <= t <= n ensures s[i + t] == m[t] {
      if t < n {
        assert s[i + t] == c[|c| - n + t];
        assert c[|c| - n..][t] == w[t];
      } else {
        assert s[i + t] == r[0];
      }
    }
    assert s[i..i + n + 1] == m;
    forall k | 0 <= k < i ensures !OccursAt(s, m, k) {
      if k == 0 {
        assert m[0] == w[0] != '/';
        NotOccursAt(s, m, 0, 0);
      } else {
        assert s[k + n] == c[k + n - 1];
        NotOccursAt(s, m, k, n);
      }
    }
    FirstOccurrence(s, m, i);
  }

  /** A marker `"/" + w` can only start at a component's leading '/'. */
  lemma LeadingMarkerMisses(c: string, r: string, w: string)
    requires '/' !in w
    requires '/' !in c && (r == "" || r[0] == '/')
    requires !StartsWith(c, w)
    ensures IndexOf("/" + c + r, "/" + w) == ShiftBy(1 + |c|, IndexOf(r, "/" + w))
  {
    var s := "/" + c + r;
    var e := "/" + w;
    var n := |w|;
    forall k | 0 <= k < 1 + |c| ensures !OccursAt(s, e, k) {
      if k >= 1 {
        assert s[k] == c[k - 1];
        NotOccursAt(s, e, k, 0);
      } else if |c| >= n {
        assert c[..n] != w;
        var t :| 0 <= t < n && c[..n][t] != w[t];
        assert s[t + 1] == c[t] && e[t + 1] == w[t];
        NotOccursAt(s, e, 0, t + 1);
      } else if r == "" {
        assert |s| < |e|;
      } else {
        assert s[1 + |c|] == r[0] && e[1 + |c|] == w[|c|];
        NotOccursAt(s, e, 0, 1 + |c|);
      }
    }
    IndexOfSkipPrefix(s, e, 1 + |c|);
    assert s[1 + |c|..] == r;
  }

  lemma LeadingMarkerStarts(c: string, r: string, w: string)
    requires StartsWith(c, w)
    ensures IndexOf("/" + c + r, "/" + w) == Some(0)
  {
    var s := "/" + c + r;
    assert s[..|w| + 1] == "/" + c[..|w|];
    FirstOccurrence(s, "/" + w, 0);
  }

  /** No marker `w + "/"` in components none of which ends with `w`. */
  lemma {:induction false} TrailingMarkerSkipsPath(cs: seq<string>, r: string, w: string)
    requires '/' !in w && |w| > 0
    requires NoSlash(cs) && (r == "" || r[0] == '/')
    requires forall k :: 0 <= k < |cs| ==> !EndsWith(cs[k], w)
    ensures IndexOf(PathOf(cs) + r, w + "/") == ShiftBy(|PathOf(cs)|, IndexOf(r, w + "/"))
    decreases |cs|
  {
    if |cs| == 0 {
      assert PathOf(cs) + r == r;
    } else {
      var c, tail := cs[0], cs[1..];
      var rest := PathOf(tail) + r;
      assert IndexOf(rest, w + "/") == ShiftBy(|PathOf(tail)|, IndexOf(r, w + "/")) by {
        assert forall k :: 0 <= k < |tail| ==> tail[k] == cs[k + 1];
        TrailingMarkerSkipsPath(tail, r, w);
      }
      assert IndexOf("/" + c + rest, w + "/") == ShiftBy(1 + |c|, IndexOf(rest, w + "/")) by {
        assert cs[0] == c;
        TrailingMarkerMisses(c, rest, w);
      }
      assert PathOf(cs) + r == "/" + c + rest;
    }
  }

  /** No marker `"/" + w` in components none of which starts with `w`. */
  lemma {:induction false} LeadingMarkerSkipsPath(cs: seq<string>, r: string, w: string)
    requires '/' !in w
    requires NoSlash(cs) && (r == "" || r[0] == '/')
    requires forall k :: 0 <= k < |cs| ==> !StartsWith(cs[k], w)
    ensures IndexOf(PathOf(cs) + r, "/" + w) == ShiftBy(|PathOf(cs)|, IndexOf(r, "/" + w))
    decreases |cs|
  {
    if |cs| == 0 {
      assert PathOf(cs) + r == r;
    } else {
      var c, tail := cs[0], cs[1..];
      var rest := PathOf(tail) + r;
      assert IndexOf(rest, "/" + w) == ShiftBy(|PathOf(tail)|, IndexOf(r, "/" + w)) by {
        assert forall k :: 0 <= k < |tail| ==> tail[k] == cs[k + 1];
        LeadingMarkerSkipsPath(tail, r, w);
      }
      assert IndexOf("/" + c + rest, "/" + w) == ShiftBy(1 + |c|, IndexOf(rest, "/" + w)) by {
        assert cs[0] == c;
        LeadingMarkerMisses(c, rest, w);
      }
      assert PathOf(cs) + r == "/" + c + rest;
    }
  }

  /** ...so such a path holds no marker `"/" + w` at all. */
  lemma LeadingMarkerMissesPath(cs: seq<string>, w: string)
    requires '/' !in w && NoSlash(cs)
    requires forall k :: 0 <= k < |cs| ==> !StartsWith(cs[k], w)
    ensures IndexOf(PathOf(cs), "/" + w).None?
  {
    LeadingMarkerSkipsPath(cs, "", w);
    assert PathOf(cs) + "" == PathOf(cs);
  }

  lemma PathOfCons(x: string, v: seq<string>)
    ensures PathOf([x] + v) == "/" + x + PathOf(v)
  {
    assert ([x] + v)[1..] == v;
  }

  /** The first marker `w + "/"` ends the first component ending with `w`,
      when a '/' follows it. */
  lemma TrailingMarkerInPath(pre: seq<string>, x: string, r: string, w: string)
    requires '/' !in w && |w| > 0
    requires NoSlash(pre) && '/' !in x && r != "" && r[0] == '/'
    requires forall k :: 0 <= k < |pre| ==> !EndsWith(pre[k], w)
    requires EndsWith(x, w)
    ensures IndexOf(PathOf(pre) + ("/" + x + r), w + "/") == Some(|PathOf(pre)| + 1 + |x| - |w|)
  {
    var t := "/" + x + r;
    assert t[0] == '/';
    TrailingMarkerSkipsPath(pre, t, w);
    TrailingMarkerEnds(x, r, w);
    var n: nat := 1 + |x| - |w|;
    assert IndexOf(t, w + "/") == Some(n);
    assert ShiftBy(|PathOf(pre)|, Some(n)) == Some(|PathOf(pre)| + n);
  }

  /** The first marker `"/" + w` starts the first component starting with `w`. */
  lemma LeadingMarkerInPath(head: seq<string>, y: string, post: seq<string>, w: string)
    requires '/' !in w
    requires NoSlash(head)
    requires forall k :: 0 <= k < |head| ==> !StartsWith(head[k], w)
    requires StartsWith(y, w)
    ensures IndexOf(PathOf(head) + PathOf([y] + post), "/" + w) == Some(|PathOf(head)|)
  {
    PathOfCons(y, post);
    LeadingMarkerStarts(y, PathOf(post), w);
    LeadingMarkerSkipsPath(head, PathOf([y] + post), w);
  }

  /** The pieces of a path around a component `x` and a later one `y`. */
  lemma SplitPath(pre: seq<string>, x: string, v: seq<string>, y: string, post: seq<string>)
    requires NoSlash(pre + [x] + v + [y] + post)
    ensures PathOf(pre + [x] + v + [y] + post) == PathOf(pre + [x] + v) + PathOf([y] + post)
    ensures PathOf(pre + [x] + v) + PathOf([y] + post)
      == PathOf(pre) + ("/" + x + (PathOf(v) + PathOf([y] + post)))
    ensures |PathOf(pre + [x] + v)| == |PathOf(pre)| + 1 + |x| + |PathOf(v)|
    ensures NoSlash(pre + [x] + v) && NoSlash(pre) && '/' !in x
  {
    var head := pre + [x] + v;
    var cs := head + ([y] + post);
    assert cs == pre + [x] + v + [y] + post;
    assert NoSlash(head) by {
      forall k | 0 <= k < |head| ensures head[k] == cs[k] { }
    }
    assert NoSlash(pre) && '/' !in x by {
      forall k | 0 <= k < |pre| ensures pre[k] == head[k] { }
      assert head[|pre|] == x;
    }
    PathOfAppend(head, [y] + post);
    assert head == pre + ([x] + v);
    PathOfAppend(pre, [x] + v);
    PathOfCons(x, v);
  }
}
