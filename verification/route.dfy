/** The tracker page's start-up decision in script.js: split the location's
    path on '/', accept only tracker links, and strip the id down to the
    characters the API route accepts. */
module Route {

  /** `pathname.split('/')`: every separator ends a segment, so empty
      segments are kept and there is always at least one segment. */
  function Split(s: string): (segments: seq<string>)
    ensures |segments| >= 1
    ensures forall i :: 0 <= i < |segments| ==> '/' !in segments[i]
    decreases |s|
  {
    if |s| == 0 then [""] else Prepend(s[0], Split(s[1..]))
  }

  /** The segments of `[c] + t` from those of `t`: a separator opens a new
      empty segment, any other character joins the first one. */
  function Prepend(c: char, segments: seq<string>): (r: seq<string>)
    requires |segments| >= 1
    requires forall i :: 0 <= i < |segments| ==> '/' !in segments[i]
    ensures |r| >= 1
    ensures forall i :: 0 <= i < |r| ==> '/' !in r[i]
  {
    if c == '/' then [""] + segments
    else [[c] + segments[0]] + segments[1..]
  }

  /** `segments.join('/')`, the inverse of `Split`. */
  function Join(segments: seq<string>): string
    requires |segments| >= 1
  {
    if |segments| == 1 then segments[0] else segments[0] + "/" + Join(segments[1..])
  }

  /** Splitting and joining again gives back the path. */
  lemma {:induction false} JoinSplit(s: string)
    ensures Join(Split(s)) == s
    decreases |s|
  {
    if |s| > 0 {
      var rest := Split(s[1..]);
      JoinSplit(s[1..]);
      assert s == [s[0]] + s[1..];
      if s[0] == '/' {
        assert Prepend(s[0], rest)[1..] == rest;
      } else {
        var segs := Prepend(s[0], rest);
        if |rest| > 1 {
          assert segs[1..] == rest[1..];
          assert Join(rest) == rest[0] + "/" + Join(rest[1..]);
        }
      }
    }
  }

  /** A text without separators is a single segment. */
  lemma {:induction false} SplitSingle(s: string)
    requires '/' !in s
    ensures Split(s) == [s]
    decreases |s|
  {
    if |s| > 0 {
      assert '/' !in s[1..] by {
        forall i | 0 <= i < |s[1..]| ensures s[1..][i] != '/' {
          assert s[1..][i] == s[i + 1];
        }
      }
      SplitSingle(s[1..]);
      assert s == [s[0]] + s[1..];
    }
  }

  /** A separator between two texts splits them independently. */
  lemma {:induction false} SplitAtSeparator(a: string, b: string)
    ensures Split(a + "/" + b) == Split(a) + Split(b)
    decreases |a|
  {
    if |a| == 0 {
      assert (a + "/" + b)[1..] == b;
    } else {
      ConsAssociates(a, b);
      SplitAtSeparator(a[1..], b);
      PrependAppend(a[0], Split(a[1..]), Split(b));
    }
  }

  lemma ConsAssociates(a: string, b: string)
    requires |a| > 0
    ensures (a + "/" + b)[0] == a[0]
    ensures (a + "/" + b)[1..] == a[1..] + "/" + b
  {
  }

  /** Prepending a character only touches the first segments. */
  lemma PrependAppend(c: char, left: seq<string>, right: seq<string>)
    requires |left| >= 1 && |right| >= 1
    requires forall i :: 0 <= i < |left| ==> '/' !in left[i]
    requires forall i :: 0 <= i < |right| ==> '/' !in right[i]
    ensures Prepend(c, left + right) == Prepend(c, left) + right
  {
    if c != '/' {
      assert (left + right)[0] == left[0];
      assert (left + right)[1..] == left[1..] + right;
    }
  }

  /** Joining separator-free segments and splitting again gives them back. */
  lemma {:induction false} SplitJoin(segments: seq<string>)
    requires |segments| >= 1
    requires forall i :: 0 <= i < |segments| ==> '/' !in segments[i]
    ensures Split(Join(segments)) == segments
    decreases |segments|
  {
    SplitSingle(segments[0]);
    if |segments| > 1 {
      SplitJoin(segments[1..]);
      SplitAtSeparator(segments[0], Join(segments[1..]));
      assert segments == [segments[0]] + segments[1..];
    }
  }

  /** The characters kept by `/[^a-zA-Z0-9-]/g` replacement: ASCII letters,
      digits and '-'. */
  predicate IsAllowed(c: char) {
    ('a' <= c <= 'z') || ('A' <= c <= 'Z') || ('0' <= c <= '9') || c == '-'
  }

  /** `id.replace(/[^a-zA-Z0-9-]/g, '')`. */
  function Sanitize(s: string): (clean: string)
    ensures forall i :: 0 <= i < |clean| ==> IsAllowed(clean[i])
    ensures |clean| <= |s|
    decreases |s|
  {
    if |s| == 0 then ""
    else (if IsAllowed(s[0]) then [s[0]] else []) + Sanitize(s[1..])
  }

  /** Every allowed character survives sanitising as often as it occurs. */
  lemma {:induction false} SanitizeKeepsAllowedCounts(s: string)
    ensures forall c :: IsAllowed(c) ==> multiset(Sanitize(s))[c] == multiset(s)[c]
    decreases |s|
  {
    if |s| > 0 {
      SanitizeKeepsAllowedCounts(s[1..]);
      assert s == [s[0]] + s[1..];
      assert multiset(s) == multiset([s[0]]) + multiset(s[1..]);
    }
  }

  /** `a` is `b` with some elements deleted. */
  predicate IsSubsequence(a: string, b: string)
    decreases |b|
  {
    |a| == 0 || (|b| > 0 && (IsSubsequence(a, b[1..]) || (a[0] == b[0] && IsSubsequence(a[1..], b[1..]))))
  }

  /** The sanitised id is the input with characters deleted, never reordered. */
  lemma {:induction false} SanitizeIsSubsequence(s: string)
    ensures IsSubsequence(Sanitize(s), s)
    decreases |s|
  {
    if |s| > 0 {
      SanitizeIsSubsequence(s[1..]);
      var clean := Sanitize(s);
      if IsAllowed(s[0]) {
        assert clean == [s[0]] + Sanitize(s[1..]);
        assert clean[0] == s[0] && clean[1..] == Sanitize(s[1..]);
      } else {
        assert clean == Sanitize(s[1..]);
      }
    }
  }

  /** Sanitising leaves an id alone exactly when all its characters are allowed. */
  lemma SanitizeFixedPoint(s: string)
    ensures Sanitize(s) == s <==> forall i :: 0 <= i < |s| ==> IsAllowed(s[i])
  {
    if forall i :: 0 <= i < |s| ==> IsAllowed(s[i]) {
      SanitizeKeepsAllowed(s);
    }
  }

  /** An id of allowed characters only is left as it is. */
  lemma {:induction false} SanitizeKeepsAllowed(s: string)
    requires forall i :: 0 <= i < |s| ==> IsAllowed(s[i])
    ensures Sanitize(s) == s
    decreases |s|
  {
    if |s| > 0 {
      var tail := s[1..];
      assert forall i :: 0 <= i < |tail| ==> IsAllowed(tail[i]) by {
        forall i | 0 <= i < |tail| ensures IsAllowed(tail[i]) {
          assert tail[i] == s[i + 1];
        }
      }
      SanitizeKeepsAllowed(tail);
      assert IsAllowed(s[0]);
      assert Sanitize(s) == [s[0]] + Sanitize(tail);
      assert s == [s[0]] + tail;
    }
  }

  /** Sanitising twice is the same as sanitising once. */
  lemma SanitizeIdempotent(s: string)
    ensures Sanitize(Sanitize(s)) == Sanitize(s)
  {
    SanitizeFixedPoint(Sanitize(s));
  }

  /** What `initializeTracker` does with the location before any request:
      show "Project not found", or fetch the project under a clean id. */
  datatype Launch = ProjectNotFound | FetchProject(cleanId: string)

  /** The route guard `!projectId || path[1] !== 't'` is applied to the raw
      last segment; sanitising happens afterwards. */
  function Start(pathname: string): (launch: Launch)
    ensures launch.FetchProject? <==>
      var path := Split(pathname);
      path[|path| - 1] != "" && |path| >= 2 && path[1] == "t"
    ensures launch.FetchProject? ==> launch.cleanId == Sanitize(Split(pathname)[|Split(pathname)| - 1])
    ensures launch.FetchProject? ==> |pathname| > 0 && pathname[|pathname| - 1] != '/'
    ensures launch.FetchProject? ==> forall i :: 0 <= i < |launch.cleanId| ==> IsAllowed(launch.cleanId[i])
  {
    var path := Split(pathname);
    var projectId := path[|path| - 1];
    if projectId == "" || |path| < 2 || path[1] != "t" then ProjectNotFound
    else
      assert |pathname| > 0 && pathname[|pathname| - 1] != '/' by {
        LastSegmentEndsPath(pathname);
      }
      FetchProject(Sanitize(projectId))
  }

  /** A path that is empty or ends in '/' has an empty last segment. */
  lemma LastSegmentEndsPath(s: string)
    ensures (|s| == 0 || s[|s| - 1] == '/') ==> Split(s)[|Split(s)| - 1] == ""
  {
    if |s| > 0 && s[|s| - 1] == '/' {
      SplitAtSeparator(s[..|s| - 1], "");
      assert s == s[..|s| - 1] + "/" + "";
    }
  }

  lemma JoinThree(a: string, b: string, c: string)
    ensures Join([a, b, c]) == a + "/" + b + "/" + c
  {
    assert [a, b, c][1..] == [b, c];
    assert [b, c][1..] == [c];
    assert Join([b, c]) == b + "/" + c;
    assert Join([a, b, c]) == a + "/" + (b + "/" + c);
    assert a + "/" + (b + "/" + c) == a + "/" + b + "/" + c;
  }

  /** A trailing slash always shows "Project not found". */
  lemma TrailingSlashRejected(pathname: string)
    ensures Start(pathname + "/") == ProjectNotFound
  {
    LastSegmentEndsPath(pathname + "/");
  }

  /** A tracker link `/t/<id>` with a non-empty, separator-free id fetches the
      sanitised id; for an id of allowed characters (such as a UUID) that is
      the id itself. */
  lemma TrackerLinkAccepted(id: string)
    requires id != "" && '/' !in id
    ensures Start("/t/" + id) == FetchProject(Sanitize(id))
    ensures (forall i :: 0 <= i < |id| ==> IsAllowed(id[i])) ==> Start("/t/" + id) == FetchProject(id)
  {
    var path := "/t/" + id;
    TrackerLinkSplits(id);
    assert Split(path)[|Split(path)| - 1] == id;
    assert Start(path).FetchProject?;
    if forall i :: 0 <= i < |id| ==> IsAllowed(id[i]) {
      SanitizeKeepsAllowed(id);
    }
  }

  /** The path of a tracker link splits into exactly three segments. */
  lemma TrackerLinkSplits(id: string)
    requires '/' !in id
    ensures Split("/t/" + id) == ["", "t", id]
  {
    JoinThree("", "t", id);
    assert "" + "/" + "t" + "/" + id == "/t/" + id;
    SplitJoin(["", "t", id]);
  }

  /** A path whose first segment is not `t` is refused whatever follows it.
      A browser pathname always starts with '/', so every pathname is
      `/<prefix>` or `/<prefix>/<rest>` with a separator-free prefix. */
  lemma OtherPrefixRejected(prefix: string, rest: string)
    requires prefix != "t" && '/' !in prefix
    ensures Start("/" + prefix) == ProjectNotFound
    ensures Start("/" + prefix + "/" + rest) == ProjectNotFound
  {
    SplitSingle(prefix);
    SplitAtSeparator("", prefix);
    assert "" + "/" + prefix == "/" + prefix;
    assert Split("/" + prefix) == ["", prefix];
    SplitAtSeparator("/" + prefix, rest);
    assert Split("/" + prefix + "/" + rest)[1] == prefix;
  }

  /** The guard sees the raw segment: an id made only of disallowed
      characters passes it and is fetched as the empty id. */
  lemma GuardPrecedesSanitize(id: string)
    requires id != "" && '/' !in id
    requires forall i :: 0 <= i < |id| ==> !IsAllowed(id[i])
    ensures Start("/t/" + id) == FetchProject("")
  {
    TrackerLinkAccepted(id);
    SanitizeDropsDisallowed(id);
  }

  /** A text with no allowed character sanitises to the empty id. */
  lemma {:induction false} SanitizeDropsDisallowed(s: string)
    requires forall i :: 0 <= i < |s| ==> !IsAllowed(s[i])
    ensures Sanitize(s) == ""
    decreases |s|
  {
    if |s| > 0 {
      assert forall i :: 0 <= i < |s[1..]| ==> !IsAllowed(s[1..][i]) by {
        forall i | 0 <= i < |s[1..]| ensures !IsAllowed(s[1..][i]) {
          assert s[1..][i] == s[i + 1];
        }
      }
      SanitizeDropsDisallowed(s[1..]);
    }
  }

  /** The bare path `/t` splits into `["", "t"]`, so the guard lets it through
      with the id `t`. */
  lemma BareTrackerPrefixAccepted()
    ensures Start("/t") == FetchProject("t")
  {
    assert Join(["", "t"]) == "/t";
    SplitJoin(["", "t"]);
    SanitizeFixedPoint("t");
  }
}
