/** ext/pack_fs_ops.go: matching a slash-separated path against a pattern with "**". */
module Glob {
  import opened Text

  datatype Result = Answer(matched: bool) | BadPattern

  /** path.Match on one segment: a verdict, or None for a malformed pattern. */
  type SegmentMatch = (string, string) -> Option<bool>

  const GLOBSTAR := "**"

  function ConcatRuns(runs: seq<seq<string>>): seq<string> {
    if runs == [] then [] else runs[0] + ConcatRuns(runs[1..])
  }

  /** One run of path segments for one pattern element: any number for "**", else one that matches. */
  predicate RunFits(m: SegmentMatch, p: string, run: seq<string>) {
    p == GLOBSTAR || (|run| == 1 && m(p, run[0]) == Some(true))
  }

  /** runs cuts seg into consecutive pieces, one per element of pat, each fitting its element. */
  ghost predicate Splits(m: SegmentMatch, pat: seq<string>, seg: seq<string>, runs: seq<seq<string>>) {
    && |runs| == |pat|
    && ConcatRuns(runs) == seg
    && forall i | 0 <= i < |pat| :: RunFits(m, pat[i], runs[i])
  }

  ghost predicate Accepts(m: SegmentMatch, pat: seq<string>, seg: seq<string>) {
    exists runs :: Splits(m, pat, seg, runs)
  }

  lemma AcceptsNil(m: SegmentMatch, seg: seq<string>)
    ensures Accepts(m, [], seg) <==> seg == []
  {
    if seg == [] { assert Splits(m, [], seg, []); }
  }

  lemma SplitsCons(m: SegmentMatch, pat: seq<string>, run: seq<string>, rest: seq<string>, runs: seq<seq<string>>)
    requires pat != [] && RunFits(m, pat[0], run) && Splits(m, pat[1..], rest, runs)
    ensures Splits(m, pat, run + rest, [run] + runs)
  {
    var all := [run] + runs;
    assert all[1..] == runs;
    forall i | 0 <= i < |pat| ensures RunFits(m, pat[i], all[i]) {
      if i > 0 { assert pat[i] == pat[1..][i - 1] && all[i] == runs[i - 1]; }
    }
  }

  lemma SplitsHead(m: SegmentMatch, pat: seq<string>, seg: seq<string>, runs: seq<seq<string>>)
    requires pat != [] && Splits(m, pat, seg, runs)
    ensures |runs[0]| <= |seg| && runs[0] == seg[..|runs[0]|]
    ensures Splits(m, pat[1..], seg[|runs[0]|..], runs[1..])
  {
    assert seg == runs[0] + ConcatRuns(runs[1..]);
    forall i | 0 <= i < |pat[1..]| ensures RunFits(m, pat[1..][i], runs[1..][i]) {
      assert pat[1..][i] == pat[i + 1] && runs[1..][i] == runs[i + 1];
    }
  }

  /** A "**" element absorbs some prefix of the path. */
  lemma AcceptsStar(m: SegmentMatch, pat: seq<string>, seg: seq<string>)
    requires pat != [] && pat[0] == GLOBSTAR
    ensures Accepts(m, pat, seg) <==> exists i | 0 <= i <= |seg| :: Accepts(m, pat[1..], seg[i..])
  {
    if Accepts(m, pat, seg) {
      var runs :| Splits(m, pat, seg, runs);
      SplitsHead(m, pat, seg, runs);
      assert Accepts(m, pat[1..], seg[|runs[0]|..]);
    }
    if i :| 0 <= i <= |seg| && Accepts(m, pat[1..], seg[i..]) {
      var runs :| Splits(m, pat[1..], seg[i..], runs);
      SplitsCons(m, pat, seg[..i], seg[i..], runs);
      assert seg[..i] + seg[i..] == seg;
    }
  }

  /** Any other element takes exactly one segment. */
  lemma AcceptsOne(m: SegmentMatch, pat: seq<string>, seg: seq<string>)
    requires pat != [] && pat[0] != GLOBSTAR
    ensures Accepts(m, pat, seg) <==>
            seg != [] && m(pat[0], seg[0]) == Some(true) && Accepts(m, pat[1..], seg[1..])
  {
    if Accepts(m, pat, seg) {
      var runs :| Splits(m, pat, seg, runs);
      SplitsHead(m, pat, seg, runs);
      assert RunFits(m, pat[0], runs[0]);
    }
    if seg != [] && m(pat[0], seg[0]) == Some(true) && Accepts(m, pat[1..], seg[1..]) {
      var runs :| Splits(m, pat[1..], seg[1..], runs);
      SplitsCons(m, pat, [seg[0]], seg[1..], runs);
      assert [seg[0]] + seg[1..] == seg;
    }
  }

  // ---- the order in which splits are tried ----

  datatype Verdict = Yes | No | Malformed

  /** What comes of every way to give segments to the "**" elements, shortest first, the first "**"
      varying slowest. A way ends at its first element that fails or is malformed. */
  function Ways(m: SegmentMatch, pat: seq<string>, seg: seq<string>): seq<Verdict>
    decreases |pat|, |seg| + 2
  {
    if pat == [] then [if seg == [] then Yes else No]
    else if pat[0] == GLOBSTAR then StarWays(m, pat, seg, 0)
    else if seg == [] then [No]
    else
      match m(pat[0], seg[0])
      case None => [Malformed]
      case Some(ok) => if ok then Ways(m, pat[1..], seg[1..]) else [No]
  }

  /** The ways in which a leading "**" takes at least i segments. */
  function StarWays(m: SegmentMatch, pat: seq<string>, seg: seq<string>, i: nat): seq<Verdict>
    requires pat != [] && i <= |seg| + 1
    decreases |pat|, |seg| + 1 - i
  {
    if i > |seg| then [] else Ways(m, pat[1..], seg[i..]) + StarWays(m, pat, seg, i + 1)
  }

  /** The first way that does not simply fail decides. */
  function Decide(ways: seq<Verdict>): Result {
    if ways == [] then Answer(false)
    else
      match ways[0]
      case Yes => Answer(true)
      case No => Decide(ways[1..])
      case Malformed => BadPattern
  }

  lemma {:induction false} DecideAppend(a: seq<Verdict>, b: seq<Verdict>)
    ensures Decide(a + b) == if Decide(a) == Answer(false) then Decide(b) else Decide(a)
  {
    if a == [] {
      assert a + b == b;
    } else {
      assert (a + b)[1..] == a[1..] + b;
      DecideAppend(a[1..], b);
    }
  }

  predicate FirstAt(ways: seq<Verdict>, i: nat) {
    i < |ways| && ways[i] != No && forall j | 0 <= j < i :: ways[j] == No
  }

  /** An error is reported exactly when a malformed element is reached before any way succeeds, and
      success exactly when a way succeeds before any malformed element is reached. */
  lemma {:induction false} DecideIff(ways: seq<Verdict>)
    ensures Decide(ways) == BadPattern <==> exists i: nat :: FirstAt(ways, i) && ways[i] == Malformed
    ensures Decide(ways) == Answer(true) <==> exists i: nat :: FirstAt(ways, i) && ways[i] == Yes
  {
    if ways != [] && ways[0] == No {
      DecideIff(ways[1..]);
      ShiftFirst(ways, Malformed);
      ShiftFirst(ways, Yes);
    } else if ways != [] {
      assert FirstAt(ways, 0);
    }
  }

  lemma ShiftFirst(ways: seq<Verdict>, v: Verdict)
    requires ways != [] && ways[0] == No
    ensures (exists i: nat :: FirstAt(ways, i) && ways[i] == v)
            <==> exists i: nat :: FirstAt(ways[1..], i) && ways[1..][i] == v
  {
    forall i: nat | FirstAt(ways, i) ensures i > 0 && FirstAt(ways[1..], i - 1) && ways[1..][i - 1] == ways[i] {
      assert forall j | 0 <= j < i - 1 :: ways[1..][j] == ways[j + 1];
    }
    forall i: nat | FirstAt(ways[1..], i) ensures FirstAt(ways, i + 1) && ways[1..][i] == ways[i + 1] {
      assert forall j | 0 < j <= i :: ways[j] == ways[1..][j - 1];
    }
  }

  /** Some way succeeds exactly when the path matches. */
  lemma {:induction false} AcceptsIffSomeWay(m: SegmentMatch, pat: seq<string>, seg: seq<string>)
    ensures Accepts(m, pat, seg) <==> Yes in Ways(m, pat, seg)
    decreases |pat|
  {
    hide Accepts;
    if pat == [] {
      AcceptsNil(m, seg);
    } else if pat[0] == GLOBSTAR {
      AcceptsStar(m, pat, seg);
      forall i | 0 <= i <= |seg| ensures Accepts(m, pat[1..], seg[i..]) <==> Yes in Ways(m, pat[1..], seg[i..]) {
        AcceptsIffSomeWay(m, pat[1..], seg[i..]);
      }
      StarWaysHold(m, pat, seg, 0);
    } else {
      AcceptsOne(m, pat, seg);
      if seg != [] && m(pat[0], seg[0]) == Some(true) { AcceptsIffSomeWay(m, pat[1..], seg[1..]); }
    }
  }

  lemma {:induction false} StarWaysHold(m: SegmentMatch, pat: seq<string>, seg: seq<string>, i: nat)
    requires pat != [] && i <= |seg| + 1
    ensures Yes in StarWays(m, pat, seg, i) <==> exists j | i <= j <= |seg| :: Yes in Ways(m, pat[1..], seg[j..])
    decreases |seg| + 1 - i
  {
    hide Ways;
    if i <= |seg| { StarWaysHold(m, pat, seg, i + 1); }
  }

  lemma {:induction false} NoWay(ways: seq<Verdict>)
    ensures Decide(ways) == Answer(false) ==> Yes !in ways
    ensures Decide(ways) == Answer(true) ==> Yes in ways
  {
    if ways != [] && ways[0] == No { NoWay(ways[1..]); }
  }

  /** The result is the verdict of the first way that does not fail; an answer is the right one. */
  method MatchSegments(m: SegmentMatch, pattern: seq<string>, segments: seq<string>) returns (r: Result)
    ensures r == Decide(Ways(m, pattern, segments))
    ensures r.Answer? ==> r.matched == Accepts(m, pattern, segments)
    decreases |pattern|
  {
    hide Accepts;
    AcceptsIffSomeWay(m, pattern, segments);
    NoWay(Ways(m, pattern, segments));
    var pat, seg := pattern, segments;
    while |pat| > 0
      invariant |pat| <= |pattern|
      invariant Ways(m, pattern, segments) == Ways(m, pat, seg)
      decreases |pat|
    {
      if pat[0] == GLOBSTAR {
        var i := 0;
        while i <= |seg|
          invariant 0 <= i <= |seg| + 1
          invariant Decide(Ways(m, pat, seg)) == Decide(StarWays(m, pat, seg, i))
        {
          DecideAppend(Ways(m, pat[1..], seg[i..]), StarWays(m, pat, seg, i + 1));
          var rest := MatchSegments(m, pat[1..], seg[i..]);
          if rest.BadPattern? { return BadPattern; }
          if rest.matched { return Answer(true); }
          i := i + 1;
        }
        return Answer(false);
      }
      if |seg| == 0 { return Answer(false); }
      var one := m(pat[0], seg[0]);
      if one == None { return BadPattern; }
      if !one.value { return Answer(false); }
      pat, seg := pat[1..], seg[1..];
    }
    assert pat == [];
    return Answer(|seg| == 0);
  }

  // ---- splitting on '/' ----

  /** strings.Split(s, "/"): always at least one piece. */
  function Split(s: string): (parts: seq<string>)
    ensures |parts| >= 1
  {
    if s == "" then [""]
    else
      var rest := Split(s[1..]);
      if s[0] == '/' then [""] + rest else [[s[0]] + rest[0]] + rest[1..]
  }

  function Join(parts: seq<string>): string
    requires |parts| >= 1
  {
    if |parts| == 1 then parts[0] else parts[0] + "/" + Join(parts[1..])
  }

  /** Splitting loses nothing, and no piece holds a slash. */
  lemma {:induction false} SplitJoin(s: string)
    ensures Join(Split(s)) == s
    ensures forall i | 0 <= i < |Split(s)| :: '/' !in Split(s)[i]
  {
    if s != "" {
      SplitJoin(s[1..]);
      var rest := Split(s[1..]);
      if s[0] == '/' {
        assert ([""] + rest)[1..] == rest;
        assert "" + "/" + Join(rest) == s;
      } else {
        var all := [[s[0]] + rest[0]] + rest[1..];
        assert all[1..] == rest[1..];
        assert Join(all) == [s[0]] + Join(rest) by {
          if |rest| > 1 { assert Join(all) == [s[0]] + rest[0] + "/" + Join(rest[1..]); }
        }
        assert [s[0]] + s[1..] == s;
      }
    }
  }

  method MatchPath(m: SegmentMatch, pattern: string, name: string) returns (r: Result)
    ensures r == Decide(Ways(m, Split(pattern), Split(name)))
    ensures r.Answer? ==> r.matched == Accepts(m, Split(pattern), Split(name))
  {
    r := MatchSegments(m, Split(pattern), Split(name));
  }

  /** "**" alone accepts every path, and consecutive "**"s say no more than one. */
  lemma StarStarCollapses(m: SegmentMatch, pat: seq<string>, seg: seq<string>)
    ensures Accepts(m, [GLOBSTAR], seg)
    ensures Accepts(m, [GLOBSTAR, GLOBSTAR] + pat, seg) == Accepts(m, [GLOBSTAR] + pat, seg)
  {
    assert ConcatRuns([seg]) == seg by { assert [seg][1..] == []; assert seg + [] == seg; }
    assert Splits(m, [GLOBSTAR], seg, [seg]);
    var one, two := [GLOBSTAR] + pat, [GLOBSTAR, GLOBSTAR] + pat;
    assert one[1..] == pat && two[1..] == one;
    AcceptsStar(m, one, seg);
    AcceptsStar(m, two, seg);
    assert seg[0..] == seg;
    if Accepts(m, two, seg) {
      var i :| 0 <= i <= |seg| && Accepts(m, one, seg[i..]);
      AcceptsStar(m, one, seg[i..]);
      var j :| 0 <= j <= |seg[i..]| && Accepts(m, pat, seg[i..][j..]);
      assert seg[i..][j..] == seg[i + j..];
    }
  }

  /** A pattern without "**" matches a path of as many segments, one by one. */
  lemma {:induction false} PlainPatternIff(m: SegmentMatch, pat: seq<string>, seg: seq<string>)
    requires "**" !in pat
    ensures Accepts(m, pat, seg) <==>
            |pat| == |seg| && forall i | 0 <= i < |pat| :: m(pat[i], seg[i]) == Some(true)
    decreases |pat|
  {
    hide Accepts;
    if pat == [] {
      AcceptsNil(m, seg);
    } else {
      AcceptsOne(m, pat, seg);
      if seg != [] {
        PlainPatternIff(m, pat[1..], seg[1..]);
        if |pat| == |seg| {
          assert forall i | 0 <= i < |pat| - 1 :: pat[1..][i] == pat[i + 1] && seg[1..][i] == seg[i + 1];
          assert forall i | 0 < i < |pat| :: pat[i] == pat[1..][i - 1] && seg[i] == seg[1..][i - 1];
        }
      }
    }
  }

  /** And "**" in front of one lets it match any ending of the path, none of it included. */
  lemma StarStarIff(m: SegmentMatch, pat: seq<string>, seg: seq<string>)
    ensures Accepts(m, ["**"] + pat, seg) <==> exists i | 0 <= i <= |seg| :: Accepts(m, pat, seg[i..])
  {
    hide Accepts;
    assert (["**"] + pat)[1..] == pat;
    AcceptsStar(m, ["**"] + pat, seg);
  }
}
