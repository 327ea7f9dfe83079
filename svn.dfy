/** The svn version helpers: reading the output of `svnversion`, picking the
    most recent tag from an `svn ls` listing of a tags directory, and
    composing a development version string from the two. The commands are
    not run here: each helper takes the text the command printed. */
module Svn {
  import opened Results
  import opened Strings

  /** Letters svnversion appends to a revision: locally modified, switched,
      partial checkout. */
  const RevisionMarkers: set<char> := {'M', 'S', 'P'}

  /** The tag reported when a tags directory lists nothing. */
  const NoTag := "0.0.0"

  /** The version reported for a product that has no known URL. */
  const UnknownProductVersion := "0.0.1.dev0"

  datatype SvnError = InvalidTag(tag: string)

  // ---------------------------------------------------------------------
  // last_revision

  /** Output that svnversion prints outside a working copy (`Unversioned`
      from svn 1.7 on, `exported` before). */
  predicate NotAWorkingCopy(out: string) {
    StartsWith(out, "Unversioned") || StartsWith(out, "exported")
  }

  /** The revision number in the output of `svnversion -n .`: "0" outside a
      working copy; otherwise the upper end of a mixed range `low:high`,
      with the state letters removed. */
  function LastRevision(out: string): (r: string)
    ensures NotAWorkingCopy(out) ==> r == "0"
    ensures !NotAWorkingCopy(out) && ':' !in out ==> r == RemoveChars(out, RevisionMarkers)
    ensures !NotAWorkingCopy(out) && ':' in out ==> r == RemoveChars(Split(out, ':')[1], RevisionMarkers)
    ensures forall i :: 0 <= i < |r| ==> r[i] !in RevisionMarkers
  {
    if NotAWorkingCopy(out) then "0"
    else
      var rev := if ':' in out then Split(out, ':')[1] else out;
      RemoveChars(rev, RevisionMarkers)
  }

  /** What svnversion reports for a directory. */
  datatype WorkingCopyState =
    | Unversioned
    | Exported
    | Checkout(low: nat, high: nat, modified: bool, switched: bool, partial: bool)

  /** The text `svnversion -n` prints for a state: a single revision or a
      mixed range `low:high`, then `M`, `S`, `P` for each flag set. */
  function SvnversionOutput(w: WorkingCopyState): string {
    match w
    case Unversioned => "Unversioned"
    case Exported => "exported"
    case Checkout(low, high, m, s, p) =>
      (if low == high then NatToString(high) else NatToString(low) + ":" + NatToString(high))
      + Markers(m, s, p)
  }

  function Markers(m: bool, s: bool, p: bool): (r: string)
    ensures forall ch :: ch in r ==> ch in RevisionMarkers
  {
    (if m then "M" else "") + (if s then "S" else "") + (if p then "P" else "")
  }

  lemma DigitsHaveNoMarkers(s: string)
    requires IsDigits(s)
    ensures ':' !in s
    ensures RemoveChars(s, RevisionMarkers) == s
  {
    RemoveCharsNone(s, RevisionMarkers);
  }

  lemma {:induction false} MarkersVanish(m: bool, s: bool, p: bool)
    ensures RemoveChars(Markers(m, s, p), RevisionMarkers) == ""
  {
    var ms, ss, ps := if m then "M" else "", if s then "S" else "", if p then "P" else "";
    RemoveCharsAppend(ms + ss, ps, RevisionMarkers);
    RemoveCharsAppend(ms, ss, RevisionMarkers);
  }

  /** A revision number followed by state letters reads as the number. */
  lemma RevisionWithMarkers(rev: string, m: bool, s: bool, p: bool)
    requires IsDigits(rev)
    ensures !NotAWorkingCopy(rev + Markers(m, s, p))
    ensures RemoveChars(rev + Markers(m, s, p), RevisionMarkers) == rev
  {
    var out := rev + Markers(m, s, p);
    MarkersVanish(m, s, p);
    DigitsHaveNoMarkers(rev);
    RemoveCharsAppend(rev, Markers(m, s, p), RevisionMarkers);
    assert out[0] == rev[0] && IsDigit(rev[0]);
    Differs(out, "Unversioned", 0);
    Differs(out, "exported", 0);
  }

  /** LastRevision inverts svnversion: it recovers the highest revision of
      every working copy, and "0" for anything else. */
  lemma LastRevisionOfSvnversion(w: WorkingCopyState)
    ensures LastRevision(SvnversionOutput(w)) ==
      if w.Checkout? then NatToString(w.high) else "0"
  {
    if w.Checkout? {
      var hi := NatToString(w.high);
      var tail := Markers(w.modified, w.switched, w.partial);
      if w.low == w.high {
        RevisionWithMarkers(hi, w.modified, w.switched, w.partial);
        DigitsHaveNoMarkers(hi);
        assert ':' !in hi + tail;
      } else {
        RangeWithMarkers(NatToString(w.low), hi, w.modified, w.switched, w.partial);
      }
    }
  }

  lemma RangeWithMarkers(lo: string, hi: string, m: bool, s: bool, p: bool)
    requires IsDigits(lo) && IsDigits(hi)
    ensures LastRevision(lo + ":" + hi + Markers(m, s, p)) == hi
  {
    var tail := Markers(m, s, p);
    var out := lo + ":" + hi + tail;
    assert !NotAWorkingCopy(out) by {
      RevisionWithMarkers(lo, false, false, false);
      assert out[0] == lo[0];
      Differs(out, "Unversioned", 0);
      Differs(out, "exported", 0);
    }
    assert ':' in out && Split(out, ':')[1] == hi + tail by {
      DigitsHaveNoMarkers(lo);
      assert ':' !in hi + tail by {
        DigitsHaveNoMarkers(hi);
      }
      assert out == JoinWith([lo, hi + tail], ':');
      assert out[|lo|] == ':';
      SplitJoin([lo, hi + tail], ':');
    }
    assert RemoveChars(hi + tail, RevisionMarkers) == hi by {
      RevisionWithMarkers(hi, m, s, p);
    }
  }

  /** The three outputs the svn tests feed in. */
  lemma LastRevisionUnversioned()
    ensures LastRevision("Unversioned") == "0"
  {
    assert NotAWorkingCopy("Unversioned");
  }

  lemma LastRevisionRange()
    ensures LastRevision("123:345") == "345"
  {
    DigitsHaveNoMarkers("345");
    assert "123:345" == JoinWith(["123", "345"], ':');
    assert "123:345"[3] == ':';
    SplitJoin(["123", "345"], ':');
  }

  lemma LastRevisionModified()
    ensures LastRevision("345M") == "345"
  {
    DigitsHaveNoMarkers("345");
    RemoveCharsAppend("345", "M", RevisionMarkers);
    assert "345M" == "345" + "M";
  }

  // ---------------------------------------------------------------------
  // last_tag

  /** The `svn ls` command that lists a tags directory; the `--username`
      pair is present exactly when a user name is given. */
  function TagListCommand(tags: string, username: Option<string>): (r: seq<string>)
    ensures |r| >= 4 && r[..2] == ["svn", "--non-interactive"]
    ensures r[|r| - 2..] == ["ls", tags]
    ensures username.None? ==> |r| == 4
    ensures username.Some? ==> |r| == 6 && r[2..4] == ["--username", username.value]
  {
    match username
    case None => ["svn", "--non-interactive", "ls", tags]
    case Some(u) => ["svn", "--non-interactive", "--username", u, "ls", tags]
  }

  /** The non-empty lines of a listing, each with its trailing '/' removed. */
  function Entries(lines: seq<string>): (r: seq<string>)
    ensures |r| <= |lines|
    ensures (forall k :: 0 <= k < |lines| ==> '\n' !in lines[k]) ==>
      forall i :: 0 <= i < |r| ==> ListableTag(r[i])
  {
    if |lines| == 0 then []
    else
      assert forall k :: 0 <= k < |lines| - 1 ==> lines[1..][k] == lines[k + 1];
      var rest := Entries(lines[1..]);
      if lines[0] == "" then rest
      else
        var t := RStrip(lines[0], '/');
        assert forall ch :: ch in t ==> ch in lines[0];
        [t] + rest
  }

  /** The tag names in the output of `svn ls` on a tags directory; each is
      a name `svn ls` can print (ListingRoundTrip is the converse). */
  function ListingEntries(out: string): (r: seq<string>)
    ensures forall i :: 0 <= i < |r| ==> ListableTag(r[i])
  {
    Entries(Split(out, '\n'))
  }

  /** How `svn ls` prints a directory holding the given tags: one line per
      tag, each a directory name ending in '/'. */
  function FormatListing(tags: seq<string>): string {
    if |tags| == 0 then "" else tags[0] + "/\n" + FormatListing(tags[1..])
  }

  function Slashed(tags: seq<string>): (r: seq<string>)
    ensures |r| == |tags|
    ensures forall i :: 0 <= i < |r| ==> r[i] == tags[i] + "/"
  {
    if |tags| == 0 then [] else [tags[0] + "/"] + Slashed(tags[1..])
  }

  lemma {:induction false} FormatListingLines(tags: seq<string>)
    ensures FormatListing(tags) == JoinWith(Slashed(tags) + [""], '\n')
  {
    if |tags| > 0 {
      FormatListingLines(tags[1..]);
      var lines := Slashed(tags) + [""];
      assert lines[1..] == Slashed(tags[1..]) + [""];
    }
  }

  /** A name `svn ls` can print for a directory entry. */
  predicate ListableTag(t: string) {
    '\n' !in t && (t == "" || t[|t| - 1] != '/')
  }

  lemma {:induction false} EntriesOfSlashed(tags: seq<string>)
    requires forall i :: 0 <= i < |tags| ==> ListableTag(tags[i])
    ensures Entries(Slashed(tags) + [""]) == tags
  {
    if |tags| == 0 {
      assert Slashed(tags) + [""] == [""];
    } else {
      var lines := Slashed(tags) + [""];
      assert lines[1..] == Slashed(tags[1..]) + [""];
      EntriesOfSlashed(tags[1..]);
      var t := tags[0];
      assert lines[0] == t + "/";
      assert RStrip(t + "/", '/') == t by {
        assert (t + "/")[..|t + "/"| - 1] == t;
      }
    }
  }

  /** Reading a listing gives back exactly the tags it lists, in order. */
  lemma ListingRoundTrip(tags: seq<string>)
    requires forall i :: 0 <= i < |tags| ==> ListableTag(tags[i])
    ensures ListingEntries(FormatListing(tags)) == tags
  {
    FormatListingLines(tags);
    SlashedLines(tags);
    SplitJoin(Slashed(tags) + [""], '\n');
    EntriesOfSlashed(tags);
  }

  lemma SlashedLines(tags: seq<string>)
    requires forall i :: 0 <= i < |tags| ==> ListableTag(tags[i])
    ensures forall i :: 0 <= i < |tags| + 1 ==> '\n' !in (Slashed(tags) + [""])[i]
  {
    var lines := Slashed(tags) + [""];
    forall i | 0 <= i < |lines| ensures '\n' !in lines[i] {
      if i < |tags| { assert lines[i] == tags[i] + "/"; }
    }
  }

  /** A release number `major.minor[.patch]` (a missing patch counts as 0). */
  datatype Release = Release(major: nat, minor: nat, patch: nat)

  /** The order of release numbers: by major, then minor, then patch. */
  predicate ReleaseLe(a: Release, b: Release) {
    a.major < b.major ||
    (a.major == b.major && (a.minor < b.minor || (a.minor == b.minor && a.patch <= b.patch)))
  }

  /** The release number a tag names, when it is two or three runs of digits
      separated by dots. */
  function ReleaseOf(tag: string): (r: Option<Release>)
    ensures r.Some? ==> '.' in tag
    ensures r.Some? ==> forall ch :: ch in tag ==> ch == '.' || IsDigit(ch)
  {
    var parts := Split(tag, '.');
    if (|parts| == 2 || |parts| == 3) && forall i :: 0 <= i < |parts| ==> IsDigits(parts[i]) then
      JoinedDigits(parts);
      Some(Release(ParseNat(parts[0]), ParseNat(parts[1]), if |parts| == 3 then ParseNat(parts[2]) else 0))
    else None
  }

  /** Runs of digits joined by dots hold nothing but digits and dots. */
  lemma {:induction false} JoinedDigits(pieces: seq<string>)
    requires forall i :: 0 <= i < |pieces| ==> IsDigits(pieces[i])
    ensures forall ch :: ch in JoinWith(pieces, '.') ==> ch == '.' || IsDigit(ch)
    decreases |pieces|
  {
    if |pieces| == 1 {
      assert forall ch :: ch in pieces[0] ==> IsDigit(ch);
    } else if |pieces| > 1 {
      assert forall i :: 0 <= i < |pieces| - 1 ==> pieces[1..][i] == pieces[i + 1];
      JoinedDigits(pieces[1..]);
      assert forall ch :: ch in pieces[0] ==> IsDigit(ch);
      assert JoinWith(pieces, '.') == pieces[0] + ['.'] + JoinWith(pieces[1..], '.');
    }
  }

  /** The release number of every tag, or the first tag that has none. */
  function ReleasesOf(tags: seq<string>): (r: Result<seq<Release>, SvnError>)
    ensures r.Ok? ==> |r.value| == |tags|
    ensures r.Ok? ==> forall i :: 0 <= i < |tags| ==> ReleaseOf(tags[i]) == Some(r.value[i])
    ensures r.Err? ==> exists i :: 0 <= i < |tags| && ReleaseOf(tags[i]).None? && r.error == InvalidTag(tags[i])
    ensures r.Err? <==> exists i :: 0 <= i < |tags| && ReleaseOf(tags[i]).None?
  {
    if |tags| == 0 then Ok([])
    else
      match ReleaseOf(tags[0])
      case None => Err(InvalidTag(tags[0]))
      case Some(v) =>
        match ReleasesOf(tags[1..])
        case Err(e) => Err(e)
        case Ok(vs) =>
          assert forall i :: 1 <= i < |tags| ==> tags[i] == tags[1..][i - 1];
          Ok([v] + vs)
  }

  /** Where a stable sort leaves its last element: the position of a greatest
      release, and the last such position when several tie. */
  function LastGreatest(vs: seq<Release>): (i: nat)
    requires |vs| > 0
    ensures i < |vs|
    ensures forall j :: 0 <= j < |vs| ==> ReleaseLe(vs[j], vs[i])
    ensures forall j :: i < j < |vs| ==> !ReleaseLe(vs[i], vs[j])
  {
    if |vs| == 1 then 0
    else
      var m := LastGreatest(vs[..|vs| - 1]);
      assert forall j :: 0 <= j < |vs| - 1 ==> vs[..|vs| - 1][j] == vs[j];
      if ReleaseLe(vs[m], vs[|vs| - 1]) then |vs| - 1 else m
  }

  /** The most recent tag in an `svn ls` listing of a tags directory: the
      greatest release number, the later one when two are equal, and NoTag
      when the directory is empty; a tag that is not a release number is an
      error. */
  function LastTag(out: string): (r: Result<string, SvnError>)
    ensures ListingEntries(out) == [] ==> r == Ok(NoTag)
    ensures r.Err? <==> exists i :: 0 <= i < |ListingEntries(out)| && ReleaseOf(ListingEntries(out)[i]).None?
    ensures r.Ok? && ListingEntries(out) != [] ==>
      r.value in ListingEntries(out) && ReleaseOf(r.value).Some? &&
      forall t :: t in ListingEntries(out) ==> ReleaseOf(t).Some? && ReleaseLe(ReleaseOf(t).value, ReleaseOf(r.value).value)
    ensures r.Ok? && ListingEntries(out) != [] ==>
      exists i :: 0 <= i < |ListingEntries(out)| && r.value == ListingEntries(out)[i] &&
        forall j :: i < j < |ListingEntries(out)| ==>
          !ReleaseLe(ReleaseOf(r.value).value, ReleaseOf(ListingEntries(out)[j]).value)
  {
    var tags := ListingEntries(out);
    if |tags| == 0 then Ok(NoTag)
    else
      match ReleasesOf(tags)
      case Err(e) => Err(e)
      case Ok(vs) =>
        var i := LastGreatest(vs);
        assert ReleaseOf(tags[i]) == Some(vs[i]);
        Ok(tags[i])
  }

  /** The listing the svn tests feed in gives its last, greatest tag, and
      an empty listing gives NoTag. */
  lemma LastTagExample()
    ensures LastTag("0.0.1/\n0.0.2/\n0.0.3/\n") == Ok("0.0.3")
  {
    ExampleListing();
    ExampleReleases();
    ExampleGreatest();
  }

  lemma ExampleGreatest()
    ensures LastGreatest([Release(0, 0, 1), Release(0, 0, 2), Release(0, 0, 3)]) == 2
  {
    var vs := [Release(0, 0, 1), Release(0, 0, 2), Release(0, 0, 3)];
    var i := LastGreatest(vs);
    assert ReleaseLe(vs[2], vs[i]);
  }

  lemma ExampleListing()
    ensures ListingEntries("0.0.1/\n0.0.2/\n0.0.3/\n") == ["0.0.1", "0.0.2", "0.0.3"]
  {
    var tags := ["0.0.1", "0.0.2", "0.0.3"];
    assert FormatListing(tags) == "0.0.1/\n0.0.2/\n0.0.3/\n" by {
      assert tags[1..] == ["0.0.2", "0.0.3"] && tags[1..][1..] == ["0.0.3"];
    }
    ListingRoundTrip(tags);
  }

  lemma ExampleReleases()
    ensures ReleasesOf(["0.0.1", "0.0.2", "0.0.3"]) == Ok([Release(0, 0, 1), Release(0, 0, 2), Release(0, 0, 3)])
  {
    var tags := ["0.0.1", "0.0.2", "0.0.3"];
    var vs := [Release(0, 0, 1), Release(0, 0, 2), Release(0, 0, 3)];
    assert forall i :: 0 <= i < 3 ==> ReleaseOf(tags[i]) == Some(vs[i]) by {
      Release001();
      Release002();
      Release003();
      forall i | 0 <= i < 3 ensures ReleaseOf(tags[i]) == Some(vs[i]) {
        if i == 0 { } else if i == 1 { } else { }
      }
    }
    ReleasesOfValid(tags, vs);
  }

  lemma Release123() ensures ReleaseOf("1.2.3") == Some(Release(1, 2, 3)) { DigitRelease('1', '2', '3'); }
  lemma Release001() ensures ReleaseOf("0.0.1") == Some(Release(0, 0, 1)) { DigitRelease('0', '0', '1'); }
  lemma Release002() ensures ReleaseOf("0.0.2") == Some(Release(0, 0, 2)) { DigitRelease('0', '0', '2'); }
  lemma Release003() ensures ReleaseOf("0.0.3") == Some(Release(0, 0, 3)) { DigitRelease('0', '0', '3'); }

  lemma DigitRelease(x: char, y: char, z: char)
    requires IsDigit(x) && IsDigit(y) && IsDigit(z)
    ensures ReleaseOf([x, '.', y, '.', z]) == Some(Release(DigitValue(x), DigitValue(y), DigitValue(z)))
  {
    ReleaseOfTriple([x], [y], [z]);
    assert [x] + "." + [y] + "." + [z] == [x, '.', y, '.', z];
  }

  lemma ReleasesOfValid(tags: seq<string>, vs: seq<Release>)
    requires |tags| == |vs|
    requires forall i :: 0 <= i < |tags| ==> ReleaseOf(tags[i]) == Some(vs[i])
    ensures ReleasesOf(tags) == Ok(vs)
  {
    var r := ReleasesOf(tags);
    assert r.Ok?;
    assert forall i :: 0 <= i < |vs| ==> r.value[i] == vs[i] by {
      forall i | 0 <= i < |vs| ensures r.value[i] == vs[i] {
        assert ReleaseOf(tags[i]) == Some(r.value[i]);
      }
    }
    assert |r.value| == |vs|;
    assert r.value == vs;
  }

  lemma EmptyListing()
    ensures LastTag("") == Ok(NoTag)
  {
    assert Split("", '\n') == [""];
  }

  lemma ReleaseOfTriple(a: string, b: string, c: string)
    requires IsDigits(a) && IsDigits(b) && IsDigits(c)
    ensures ReleaseOf(a + "." + b + "." + c) == Some(Release(ParseNat(a), ParseNat(b), ParseNat(c)))
  {
    assert '.' !in a && '.' !in b && '.' !in c;
    assert [a, b, c][1..] == [b, c] && [b, c][1..] == [c];
    assert JoinWith([c], '.') == c;
    assert JoinWith([b, c], '.') == b + "." + c;
    assert a + "." + b + "." + c == JoinWith([a, b, c], '.');
    SplitJoin([a, b, c], '.');
  }

  lemma ReleaseOfPair(a: string, b: string)
    requires IsDigits(a) && IsDigits(b)
    ensures ReleaseOf(a + "." + b) == Some(Release(ParseNat(a), ParseNat(b), 0))
  {
    assert '.' !in a && '.' !in b;
    assert [a, b][1..] == [b];
    assert JoinWith([b], '.') == b;
    assert a + "." + b == JoinWith([a, b], '.');
    SplitJoin([a, b], '.');
  }

  /** Equal release numbers are settled by position: `1.0` and `1.0.0`
      both read as 1.0.0, and the later one is the last tag. */
  lemma LastTagTieBreak()
    ensures LastTag("1.0/\n1.0.0/\n") == Ok("1.0.0")
  {
    TieListing();
    TieReleases();
    TieGreatest();
  }

  lemma TieListing()
    ensures ListingEntries("1.0/\n1.0.0/\n") == ["1.0", "1.0.0"]
  {
    var tags := ["1.0", "1.0.0"];
    assert FormatListing(tags) == "1.0/\n1.0.0/\n" by {
      assert tags[1..] == ["1.0.0"];
    }
    ListingRoundTrip(tags);
  }

  lemma TieReleases()
    ensures ReleasesOf(["1.0", "1.0.0"]) == Ok([Release(1, 0, 0), Release(1, 0, 0)])
  {
    var tags := ["1.0", "1.0.0"];
    var vs := [Release(1, 0, 0), Release(1, 0, 0)];
    Release10();
    Release100();
    forall i | 0 <= i < 2 ensures ReleaseOf(tags[i]) == Some(vs[i]) {
      if i == 0 { } else { }
    }
    ReleasesOfValid(tags, vs);
  }

  lemma TieGreatest()
    ensures LastGreatest([Release(1, 0, 0), Release(1, 0, 0)]) == 1
  {
    var vs := [Release(1, 0, 0), Release(1, 0, 0)];
    var i := LastGreatest(vs);
    assert ReleaseLe(vs[1], vs[i]);
  }

  lemma Release10() ensures ReleaseOf("1.0") == Some(Release(1, 0, 0))
  {
    ReleaseOfPair("1", "0");
    assert "1" + "." + "0" == "1.0";
  }

  lemma Release100() ensures ReleaseOf("1.0.0") == Some(Release(1, 0, 0)) { DigitRelease('1', '0', '0'); }

  // ---------------------------------------------------------------------
  // version

  /** The URL whose tags `version` consults: the one given, else the
      product's entry among the known products, else none. */
  function VersionSource(product: string, url: Option<string>, known: map<string, string>): (r: Option<string>)
    ensures url.Some? ==> r == url
    ensures url.None? ==> (r.Some? <==> product in known)
    ensures url.None? && product in known ==> r == Some(known[product])
  {
    if url.Some? then url
    else if product in known then Some(known[product])
    else None
  }

  /** The development version of a product: `<last tag>.dev<last revision>`
      when its tags can be found, UnknownProductVersion otherwise. */
  function Version(product: string, url: Option<string>, known: map<string, string>,
                   revisionOut: string, listingOut: string): (r: Result<string, SvnError>)
    ensures VersionSource(product, url, known).None? ==> r == Ok(UnknownProductVersion)
    ensures VersionSource(product, url, known).Some? && LastTag(listingOut).Ok? ==>
      r == Ok(LastTag(listingOut).value + ".dev" + LastRevision(revisionOut))
    ensures VersionSource(product, url, known).Some? && LastTag(listingOut).Err? ==>
      r == Err(LastTag(listingOut).error)
  {
    if VersionSource(product, url, known).None? then Ok(UnknownProductVersion)
    else
      match LastTag(listingOut)
      case Err(e) => Err(e)
      case Ok(tag) => Ok(tag + ".dev" + LastRevision(revisionOut))
  }

  /** The three calls of the svn tests, with the listing `1.2.3/` and the
      revision `0` standing for the two helpers' answers. */
  lemma VersionOfKnownProduct()
    ensures Version("foo", None, map["foo" := "bar"], "0", "1.2.3/\n") == Ok("1.2.3.dev0")
  {
    VersionWithTag123("foo", None, map["foo" := "bar"]);
  }

  lemma VersionOfGivenUrl()
    ensures Version("bar", Some("baz"), map["foo" := "bar"], "0", "1.2.3/\n") == Ok("1.2.3.dev0")
  {
    VersionWithTag123("bar", Some("baz"), map["foo" := "bar"]);
  }

  lemma VersionOfUnknownProduct()
    ensures Version("frobulate", None, map["foo" := "bar"], "0", "1.2.3/\n") == Ok(UnknownProductVersion)
  {
  }

  lemma VersionWithTag123(product: string, url: Option<string>, known: map<string, string>)
    requires VersionSource(product, url, known).Some?
    ensures Version(product, url, known, "0", "1.2.3/\n") == Ok("1.2.3.dev0")
  {
    SingleTagListing();
    RevisionZero();
    DevVersionText();
  }

  lemma DevVersionText()
    ensures "1.2.3" + ".dev" + "0" == "1.2.3.dev0"
  {
  }

  lemma RevisionZero()
    ensures LastRevision("0") == "0"
  {
    RevisionWithMarkers("0", false, false, false);
    DigitsHaveNoMarkers("0");
  }

  lemma SingleTagListing()
    ensures LastTag("1.2.3/\n") == Ok("1.2.3")
  {
    SingleTagEntries();
    SingleTagRelease();
  }

  lemma SingleTagEntries()
    ensures ListingEntries("1.2.3/\n") == ["1.2.3"]
  {
    assert FormatListing(["1.2.3"]) == "1.2.3/\n";
    ListingRoundTrip(["1.2.3"]);
  }

  lemma SingleTagRelease()
    ensures ReleasesOf(["1.2.3"]) == Ok([Release(1, 2, 3)])
  {
    Release123();
    ReleasesOfValid(["1.2.3"], [Release(1, 2, 3)]);
  }
}
