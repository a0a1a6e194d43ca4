/** parser.go: the two regular expressions, written out over the pieces of the string. */
module Fences {
  import opened Text
  import opened Parser

  /** White space as \s means it. */
  predicate Spaces(w: string) { forall i | 0 <= i < |w| :: w[i] in " \t\n\r\U{0C}" }

  /** s is read as pre, fence, language, white space that ends in a newline, body, closing fence, post. */
  predicate Fenced(s: string, pre: string, lang: string, ws: string, body: string, post: string) {
    && (lang == "javascript" || lang == "js")
    && ws != "" && ws[|ws| - 1] == '\n' && Spaces(ws)
    && s == pre + "```" + lang + ws + body + "\n```" + post
  }

  lemma SpacesAre(w: string)
    ensures Spaces(w) <==> forall i | 0 <= i < |w| :: IsWs(w[i])
  {}

  // ---- pieces and places ----

  lemma Slices(s: string, p: string, q: string, r: string, u: string, v: string, w: string, z: string)
    requires s == p + q + r + u + v + w + z
    ensures var b := |p| + |q|; var c := b + |r|; var d := c + |u|; var e := d + |v|; var f := e + |w|;
            && f <= |s| && s[..|p|] == p && s[|p|..b] == q && s[b..c] == r && s[c..d] == u && s[d..e] == v
            && s[e..f] == w && s[f..] == z
  {}

  lemma Pieces(s: string, a: nat, b: nat, c: nat, d: nat, e: nat, f: nat)
    requires a <= b <= c <= d <= e <= f <= |s|
    ensures s == s[..a] + s[a..b] + s[b..c] + s[c..d] + s[d..e] + s[e..f] + s[f..]
  {}

  lemma OccursSlice(s: string, v: string, i: nat)
    ensures OccursAt(s, v, i) <==> i + |v| <= |s| && s[i..i + |v|] == v
  {
    if i + |v| <= |s| && s[i..i + |v|] == v {
      forall n | 0 <= n < |v| ensures s[i + n] == v[n] { assert s[i..i + |v|][n] == s[i + n]; }
    }
  }

  lemma TicksAre(s: string, i: nat)
    ensures IsTicks(s, i) <==> OccursAt(s, "```", i)
  {
    var t := "```";
    assert |t| == 3 && t[0] == t[1] == t[2] == '`';
    if OccursAt(s, t, i) { assert s[i + 0] == t[0] && s[i + 1] == t[1] && s[i + 2] == t[2]; }
  }

  lemma CloseIs(s: string, i: nat)
    ensures IsClose(s, i) <==> OccursAt(s, "\n```", i)
  {
    var c := "\n```";
    assert |c| == 4 && c[0] == '\n' && c[1] == c[2] == c[3] == '`';
    if OccursAt(s, c, i) { assert s[i + 0] == c[0] && s[i + 1] == c[1] && s[i + 2] == c[2] && s[i + 3] == c[3]; }
  }

  lemma TagsDiffer(s: string, i: nat)
    ensures !(OccursAt(s, "javascript", i) && OccursAt(s, "js", i))
  {
    var x, y := "javascript", "js";
    assert |x| == 10 && |y| == 2 && x[1] == 'a' && y[1] == 's';
    assert OccursAt(s, x, i) ==> s[i + 1] == x[1];
    assert OccursAt(s, y, i) ==> s[i + 1] == y[1];
  }

  /** A tag is one of the two languages, and only one of them. */
  lemma TagIs(s: string, i: nat, lang: string)
    requires lang == "javascript" || lang == "js"
    ensures OccursAt(s, lang, i) <==> TagLength(s, i) == |lang|
  {
    TagsDiffer(s, i);
    assert |"javascript"| == 10 && |"js"| == 2;
    hide OccursAt;
  }

  /** m is a match with this language, place by place. */
  predicate Placed(s: string, m: Match, lang: string) {
    && m.start + 3 + |lang| < m.bodyStart <= m.bodyEnd && m.bodyEnd + 4 <= |s|
    && s[m.start..m.start + 3] == "```" && s[m.start + 3..m.start + 3 + |lang|] == lang
    && Spaces(s[m.start + 3 + |lang|..m.bodyStart]) && s[m.bodyStart - 1] == '\n'
    && s[m.bodyEnd..m.bodyEnd + 4] == "\n```"
  }

  lemma SpacesStand(s: string, lo: nat, hi: nat)
    requires lo <= hi <= |s|
    ensures Spaces(s[lo..hi]) <==> forall i | lo <= i < hi :: IsWs(s[i])
  {
    SpacesAre(s[lo..hi]);
    hide IsWs, Spaces;
    if forall i | 0 <= i < hi - lo :: IsWs(s[lo..hi][i]) {
      forall i | lo <= i < hi ensures IsWs(s[i]) { assert s[lo..hi][i - lo] == s[i]; }
    }
  }

  lemma PlacedMatches(s: string, m: Match, lang: string)
    requires lang == "javascript" || lang == "js"
    ensures Placed(s, m, lang) <==> IsMatch(s, m) && TagLength(s, m.start + 3) == |lang|
  {
    OccursSlice(s, "```", m.start);
    OccursSlice(s, lang, m.start + 3);
    OccursSlice(s, "\n```", m.bodyEnd);
    TicksAre(s, m.start);
    CloseIs(s, m.bodyEnd);
    TagIs(s, m.start + 3, lang);
    if m.start + 3 + |lang| <= m.bodyStart <= |s| { SpacesStand(s, m.start + 3 + |lang|, m.bodyStart); }
    hide OccursAt, TagLength, IsTicks, IsClose, Spaces, IsWs;
  }

  // ---- pieces and matches ----

  /** Where these pieces put the match. */
  function At(pre: string, lang: string, ws: string, body: string): Match {
    Match(|pre|, |pre| + 3 + |lang| + |ws|, |pre| + 3 + |lang| + |ws| + |body|)
  }

  lemma FencedMatches(s: string, pre: string, lang: string, ws: string, body: string, post: string)
    requires Fenced(s, pre, lang, ws, body, post)
    ensures var m := At(pre, lang, ws, body);
            IsMatch(s, m) && m.bodyStart <= m.bodyEnd <= |s| && s[m.bodyStart..m.bodyEnd] == body
  {
    var m := At(pre, lang, ws, body);
    Slices(s, pre, "```", lang, ws, body, "\n```", post);
    assert s[m.bodyStart - 1] == ws[|ws| - 1];
    hide Spaces;
    assert Placed(s, m, lang);
    hide Placed, IsMatch, TagLength;
    PlacedMatches(s, m, lang);
  }

  /** And every match is one of some pieces. */
  lemma MatchFenced(s: string, m: Match)
    returns (pre: string, lang: string, ws: string, body: string, post: string)
    requires IsMatch(s, m)
    ensures Fenced(s, pre, lang, ws, body, post) && At(pre, lang, ws, body) == m
  {
    lang := MatchPlaced(s, m);
    hide IsMatch, Spaces;
    var i := m.start + 3;
    var c := i + |lang|;
    pre, ws, body, post := s[..m.start], s[c..m.bodyStart], s[m.bodyStart..m.bodyEnd], s[m.bodyEnd + 4..];
    Pieces(s, m.start, i, c, m.bodyStart, m.bodyEnd, m.bodyEnd + 4);
  }

  lemma MatchPlaced(s: string, m: Match) returns (lang: string)
    requires IsMatch(s, m)
    ensures (lang == "javascript" || lang == "js") && Placed(s, m, lang)
  {
    lang := if OccursAt(s, "javascript", m.start + 3) then "javascript" else "js";
    assert TagLength(s, m.start + 3) == |lang|;
    hide *;
    PlacedMatches(s, m, lang);
  }

  /** The pieces the regular expression engine prefers: leftmost, as much white space and as short a body
      as can be. */
  ghost predicate Preferred(s: string, pre: string, lang: string, ws: string, body: string, post: string) {
    && Fenced(s, pre, lang, ws, body, post)
    && forall pre', lang', ws', body', post' | Fenced(s, pre', lang', ws', body', post') ::
         NoWorse(At(pre, lang, ws, body), At(pre', lang', ws', body'))
  }

  /** A block is found exactly when the reply has one: a fence, "javascript" or "js", white space up to a
      newline, and a body closed by a fence on a line of its own. What is extracted is the trimmed body of
      the preferred one. */
  lemma ExtractsPreferred(s: string)
    ensures (exists pre, lang, ws, body, post :: Fenced(s, pre, lang, ws, body, post)) <==> FindFrom(s, 0).Some?
    ensures FindFrom(s, 0) == None ==> ExtractJSBlock(s) == ""
    ensures FindFrom(s, 0).Some? ==>
              exists pre, lang, ws, body, post ::
                Preferred(s, pre, lang, ws, body, post) && ExtractJSBlock(s) == TrimSpace(body)
  {
    FindFromIsPreferred(s, 0);
    hide IsMatch, FindFrom, TrimSpace, Fenced, NoWorse;
    if pre, lang, ws, body, post :| Fenced(s, pre, lang, ws, body, post) {
      FencedMatches(s, pre, lang, ws, body, post);
    }
    if FindFrom(s, 0).Some? {
      var m := FindFrom(s, 0).value;
      var pre, lang, ws, body, post := MatchFenced(s, m);
      FencedMatches(s, pre, lang, ws, body, post);
      forall pre', lang', ws', body', post' | Fenced(s, pre', lang', ws', body', post')
        ensures NoWorse(At(pre, lang, ws, body), At(pre', lang', ws', body'))
      {
        FencedMatches(s, pre', lang', ws', body', post');
      }
      assert Preferred(s, pre, lang, ws, body, post);
    }
  }

  /** Both languages are taken: trimmed code without a closing fence comes back out of either fence. */
  lemma BothLanguages(lang: string, code: string)
    requires lang == "javascript" || lang == "js"
    requires code != "" && TrimSpace(code) == code && !Contains(code, "\n```")
    ensures ExtractJSBlock("```" + lang + "\n" + code + "\n```") == code
  {
    var s := "```" + lang + "\n" + code + "\n```";
    Plainly(s, lang, code);
    hide *;
    ExtractsPreferred(s);
    var pre, l, ws, body, post := PreferredOf(s);
    ThatOne(s, lang, code, pre, l, ws, body, post);
  }

  lemma Plainly(s: string, lang: string, code: string)
    requires (lang == "javascript" || lang == "js") && s == "```" + lang + "\n" + code + "\n```"
    ensures Fenced(s, "", lang, "\n", code, "")
  {
    assert "" + "```" + lang + "\n" + code + "\n```" + "" == s;
  }

  lemma PreferredOf(s: string) returns (pre: string, lang: string, ws: string, body: string, post: string)
    requires exists p, l, w, b, q :: Fenced(s, p, l, w, b, q)
    ensures Preferred(s, pre, lang, ws, body, post) && ExtractJSBlock(s) == TrimSpace(body)
  {
    ExtractsPreferred(s);
    hide Preferred, ExtractJSBlock, Fenced, FindFrom, TrimSpace;
    pre, lang, ws, body, post :| Preferred(s, pre, lang, ws, body, post) && ExtractJSBlock(s) == TrimSpace(body);
  }

  /** With nothing before it, that fence can be read in one way that is not worse. */
  lemma ThatOne(s: string, lang: string, code: string, pre: string, l: string, ws: string, body: string, post: string)
    requires (lang == "javascript" || lang == "js") && s == "```" + lang + "\n" + code + "\n```"
    requires code != "" && TrimSpace(code) == code && !Contains(code, "\n```")
    requires Fenced(s, "", lang, "\n", code, "") && Preferred(s, pre, l, ws, body, post)
    ensures body == code
  {
    hide *;
    PreferredMeans(s, pre, l, ws, body, post, "", lang, "\n", code, "");
    TrimmedStart(code);
    NotWorse(pre, l, ws, body, lang, code);
    Tagged(s, l, ws, body, post);
    Tagged(s, lang, "\n", code, "");
    TagsDiffer(s, 3);
    OneSpace(s, lang, code, ws, body, post);
    RestIs(s, lang, code, ws, body, post);
    ShortestBody(code, body, post);
  }

  lemma PreferredMeans(s: string, pre: string, l: string, ws: string, body: string, post: string,
                       pre': string, l': string, ws': string, body': string, post': string)
    requires Preferred(s, pre, l, ws, body, post) && Fenced(s, pre', l', ws', body', post')
    ensures Fenced(s, pre, l, ws, body, post) && NoWorse(At(pre, l, ws, body), At(pre', l', ws', body'))
  {
    hide Fenced, NoWorse, At;
  }

  lemma TrimmedStart(code: string)
    requires code != "" && TrimSpace(code) == code
    ensures !IsSpace(code[0])
  {}

  lemma NotWorse(pre: string, l: string, ws: string, body: string, lang: string, code: string)
    requires NoWorse(At(pre, l, ws, body), At("", lang, "\n", code))
    ensures pre == "" && 3 + |l| + |ws| >= 4 + |lang|
    ensures 3 + |l| + |ws| == 4 + |lang| ==> |body| <= |code|
  {}

  lemma Tagged(s: string, lang: string, ws: string, body: string, post: string)
    requires Fenced(s, "", lang, ws, body, post)
    ensures OccursAt(s, lang, 3) && (lang == "javascript" || lang == "js")
  {
    Slices(s, "", "```", lang, ws, body, "\n```", post);
    OccursSlice(s, lang, 3);
    hide OccursAt, Spaces;
  }

  /** The code's first byte is no white space, so the newline before it is all there is. */
  lemma OneSpace(s: string, lang: string, code: string, ws: string, body: string, post: string)
    requires Fenced(s, "", lang, ws, body, post) && Fenced(s, "", lang, "\n", code, "")
    requires code != "" && !IsSpace(code[0])
    ensures |ws| == 1
  {
    if |ws| > 1 { SecondByte(s, lang, code, ws, body, post); }
    hide Fenced;
    SpaceBytes();
  }

  lemma SpaceBytes()
    ensures forall ws: string, i | Spaces(ws) && 0 <= i < |ws| :: IsSpace(ws[i])
  {}

  lemma SecondByte(s: string, lang: string, code: string, ws: string, body: string, post: string)
    requires Fenced(s, "", lang, ws, body, post) && Fenced(s, "", lang, "\n", code, "") && |ws| > 1 && code != ""
    ensures ws[1] == code[0] && Spaces(ws)
  {
    Slices(s, "", "```", lang, ws, body, "\n```", post);
    Slices(s, "", "```", lang, "\n", code, "\n```", "");
    hide Spaces;
    var d := 3 + |lang|;
    assert s[d..d + |ws|][1] == s[d + 1] && s[d + 1..d + 1 + |code|][0] == s[d + 1];
  }

  lemma RestIs(s: string, lang: string, code: string, ws: string, body: string, post: string)
    requires Fenced(s, "", lang, ws, body, post) && Fenced(s, "", lang, "\n", code, "") && |ws| == 1
    ensures code + "\n```" == body + "\n```" + post
  {
    Tail(s, "```" + lang + ws, body + "\n```" + post);
    Tail(s, "```" + lang + "\n", code + "\n```");
    hide Spaces;
    assert s == "```" + lang + ws + (body + "\n```" + post) by { assert "" + "```" == "```"; }
    assert s == "```" + lang + "\n" + (code + "\n```") by { assert "" + "```" == "```"; }
  }

  lemma Tail(s: string, a: string, b: string)
    ensures s == a + b ==> s[|a|..] == b
  {}

  lemma ShortestBody(code: string, body: string, post: string)
    requires !Contains(code, "\n```") && code + "\n```" == body + "\n```" + post && |body| <= |code|
    ensures body == code
  {
    var n := |body|;
    Slices(code + "\n```", "", "", "", "", body, "\n```", post) by { assert "" + "" + "" + "" + body == body; }
    if n + 4 <= |code| { CloseInside(code, n); } else if n < |code| { CloseAcross(code, n); }
    hide Contains;
    assert (code + "\n```")[..|code|] == code;
  }

  lemma CloseInside(code: string, n: nat)
    requires n + 4 <= |code|
    ensures (code + "\n```")[n..n + 4] == "\n```" ==> Contains(code, "\n```")
  {
    assert (code + "\n```")[n..n + 4] == code[n..n + 4];
    OccursSlice(code, "\n```", n);
    hide OccursAt;
  }

  lemma CloseAcross(code: string, n: nat)
    requires n < |code| < n + 4
    ensures (code + "\n```")[n..n + 4] != "\n```"
  {
    var c := "\n```";
    assert |c| == 4 && c[0] == '\n' && c[1] == c[2] == c[3] == '`';
    var k := |code| - n;
    assert (code + c)[n..n + 4][k] == c[0];
  }

  // ---- the DONE marker ----

  /** s is read as pre, which ends a line, white space, DONE, white space that ends in a newline, text. */
  predicate Marked(s: string, pre: string, indent: string, ws: string, text: string) {
    && (pre == "" || pre[|pre| - 1] == '\n')
    && Spaces(indent) && Spaces(ws) && ws != "" && ws[|ws| - 1] == '\n'
    && s == pre + indent + "DONE" + ws + text
  }

  lemma FiveSlices(s: string, p: string, q: string, r: string, u: string, v: string)
    requires s == p + q + r + u + v
    ensures var b := |p| + |q|; var c := b + |r|; var d := c + |u|;
            d <= |s| && s[..|p|] == p && s[|p|..b] == q && s[b..c] == r && s[c..d] == u && s[d..] == v
  {}

  /** Where a run of white space that is followed by something else ends. */
  lemma {:induction false} WsEndAt(s: string, i: nat, e: nat)
    requires i <= e <= |s| && (forall k | i <= k < e :: IsWs(s[k])) && (e < |s| ==> !IsWs(s[e]))
    ensures WsEnd(s, i) == e
    decreases e - i
  {
    if i < e { WsEndAt(s, i + 1, e); }
  }

  lemma WsEndReaches(s: string, i: nat, e: nat)
    requires i <= e <= |s| && forall k | i <= k < e :: IsWs(s[k])
    ensures WsEnd(s, i) >= e
  {}

  /** The same by places: the line's start, the marker's, and the end of the white space behind it. */
  predicate MarkedAt(s: string, i: nat, d: nat, e: nat) {
    && i <= d && d + 4 < e <= |s| && (i == 0 || s[i - 1] == '\n') && s[e - 1] == '\n'
    && OccursAt(s, "DONE", d)
    && (forall k | i <= k < d :: IsWs(s[k])) && (forall k | d + 4 <= k < e :: IsWs(s[k]))
  }

  lemma MarkedPlaces(s: string, pre: string, indent: string, ws: string, text: string)
    requires Marked(s, pre, indent, ws, text)
    ensures var d := |pre| + |indent|; var e := d + 4 + |ws|;
            MarkedAt(s, |pre|, d, e) && s[e..] == text
  {
    FiveSlices(s, pre, indent, "DONE", ws, text);
    var i, d := |pre|, |pre| + |indent|;
    var e := d + 4 + |ws|;
    assert |"DONE"| == 4;
    OccursSlice(s, "DONE", d);
    LastOf(s, 0, i, pre);
    LastOf(s, d + 4, e, ws);
    hide Spaces, OccursAt, IsWs;
    SpacesStand(s, i, d);
    SpacesStand(s, d + 4, e);
  }

  lemma LastOf(s: string, lo: nat, hi: nat, v: string)
    requires lo <= hi <= |s| && s[lo..hi] == v
    ensures v != "" ==> lo < hi && s[hi - 1] == v[|v| - 1]
  {}

  lemma FivePieces(s: string, a: nat, b: nat, c: nat, d: nat)
    requires a <= b <= c <= d <= |s|
    ensures s == s[..a] + s[a..b] + s[b..c] + s[c..d] + s[d..]
  {}

  lemma PlacesMarked(s: string, i: nat, d: nat, e: nat)
    requires MarkedAt(s, i, d, e)
    ensures Marked(s, s[..i], s[i..d], s[d + 4..e], s[e..])
  {
    assert |"DONE"| == 4;
    OccursSlice(s, "DONE", d);
    hide OccursAt, IsWs, Spaces;
    LastOf(s, d + 4, e, s[d + 4..e]);
    LastOf(s, 0, i, s[..i]);
    SpacesStand(s, i, d);
    SpacesStand(s, d + 4, e);
    FivePieces(s, i, d, d + 4, e);
  }

  lemma PlacesLine(s: string, i: nat, d: nat, e: nat)
    requires MarkedAt(s, i, d, e)
    ensures IsDoneLine(s, i) && WsEnd(s, i) == d && TrimSpace(s[d + 4..]) == TrimSpace(s[e..])
  {
    hide WsEnd, TrimSpace;
    OccurrenceStarts(s, d);
    WsEndAt(s, i, d);
    WsEndReaches(s, d + 4, e);
    hide OccursAt;
    SpacesSkip(s, d + 4, e);
  }

  lemma OccurrenceStarts(s: string, d: nat)
    requires OccursAt(s, "DONE", d)
    ensures d + 4 <= |s| && !IsWs(s[d])
  {
    assert s[d + 0] == "DONE"[0] == 'D';
  }

  lemma SpacesSkip(s: string, lo: nat, hi: nat)
    requires lo <= hi <= |s| && forall k | lo <= k < hi :: IsWs(s[k])
    ensures TrimSpace(s[lo..]) == TrimSpace(s[hi..])
  {
    hide TrimSpace;
    assert s[lo..][hi - lo..] == s[hi..];
    TrimSpaceSkips(s[lo..], hi - lo);
  }

  lemma LinePlaces(s: string, i: nat) returns (e: nat)
    requires i <= |s| && IsDoneLine(s, i)
    ensures MarkedAt(s, i, WsEnd(s, i), e)
  {
    hide OccursAt, IsWs;
    var d := WsEnd(s, i);
    var k :| d + 4 <= k < WsEnd(s, d + 4) && s[k] == '\n';
    e := k + 1;
  }

  /** Line i is the first from `from` on that a marker stands on. */
  ghost predicate FirstLine(s: string, from: nat, i: nat) {
    from <= i <= |s| && IsDoneLine(s, i) && forall m | from <= m < i :: !IsDoneLine(s, m)
  }

  /** What follows the marker on line i. */
  function AfterLine(s: string, i: nat): string {
    if i <= |s| && WsEnd(s, i) + 4 <= |s| then s[WsEnd(s, i) + 4..] else ""
  }

  lemma {:induction false} DoneFromFirst(s: string, from: nat) returns (i: nat)
    requires DoneFrom(s, from).Some?
    ensures FirstLine(s, from, i) && DoneFrom(s, from).value == TrimSpace(AfterLine(s, i))
    decreases |s| - from
  {
    hide TrimSpace, IsDoneLine;
    if IsDoneLine(s, from) {
      i := from;
      DoneHere(s, from);
    } else {
      i := DoneFromFirst(s, from + 1);
    }
  }

  lemma DoneHere(s: string, i: nat)
    requires i <= |s| && IsDoneLine(s, i)
    ensures WsEnd(s, i) + 4 <= |s| && DoneFrom(s, i) == Some(TrimSpace(s[WsEnd(s, i) + 4..]))
  {
    hide TrimSpace;
  }

  lemma {:induction false} DoneFound(s: string, from: nat, i: nat)
    requires from <= i <= |s| && IsDoneLine(s, i)
    ensures DoneFrom(s, from).Some?
    decreases i - from
  {
    hide TrimSpace, IsDoneLine;
    if IsDoneLine(s, from) { DoneHere(s, from); } else { DoneFound(s, from + 1, i); }
  }

  /** These pieces have the first line that a marker stands on. */
  ghost predicate FirstMarked(s: string, pre: string, indent: string, ws: string, text: string) {
    && Marked(s, pre, indent, ws, text)
    && forall p, i, w, t | Marked(s, p, i, w, t) :: |pre| <= |p|
  }

  lemma MarkedOf(s: string, n: nat) returns (pre: string, indent: string, ws: string, text: string)
    requires n <= |s| && IsDoneLine(s, n)
    ensures Marked(s, pre, indent, ws, text) && |pre| == n
  {
    hide *;
    var d := WsEnd(s, n);
    var e := LinePlaces(s, n);
    EndPlace(s, n, d, e);
    pre, indent, ws, text := s[..n], s[n..d], s[d + 4..e], s[e..];
    PlacesMarked(s, n, d, e);
  }

  lemma EndPlace(s: string, i: nat, d: nat, e: nat)
    requires MarkedAt(s, i, d, e)
    ensures i <= d && d + 4 <= e <= |s|
  {}

  lemma MarkedStands(s: string, pre: string, indent: string, ws: string, text: string)
    requires Marked(s, pre, indent, ws, text)
    ensures |pre| <= |s| && IsDoneLine(s, |pre|) && TrimSpace(AfterLine(s, |pre|)) == TrimSpace(text)
  {
    var d := |pre| + |indent|;
    hide Marked, MarkedAt, IsDoneLine, TrimSpace, WsEnd;
    MarkedPlaces(s, pre, indent, ws, text);
    EndPlace(s, |pre|, d, d + 4 + |ws|);
    PlacesLine(s, |pre|, d, d + 4 + |ws|);
  }

  lemma FirstLeast(s: string, n: nat, pre: string, indent: string, ws: string, text: string)
    requires FirstLine(s, 0, n) && Marked(s, pre, indent, ws, text)
    ensures n <= |pre|
  {
    hide Marked, IsDoneLine, TrimSpace, AfterLine;
    MarkedStands(s, pre, indent, ws, text);
  }

  lemma LeastFirst(s: string, n: nat, pre: string, indent: string, ws: string, text: string)
    requires FirstLine(s, 0, n) && FirstMarked(s, pre, indent, ws, text)
    ensures |pre| <= n
  {
    hide Marked, IsDoneLine;
    var p, i, w, t := MarkedOf(s, n);
  }

  /** The marker is found exactly when the reply is nothing else or has a line of its own for it, indented
      or not; the answer is then what follows the first such line, trimmed. */
  lemma DoneIff(s: string)
    ensures TrimSpace(s) == "DONE" ==> ExtractDoneMarker(s) == Some("")
    ensures ExtractDoneMarker(s).Some? <==>
              TrimSpace(s) == "DONE" || exists pre, indent, ws, text :: Marked(s, pre, indent, ws, text)
    ensures TrimSpace(s) != "DONE" ==>
              forall pre, indent, ws, text | FirstMarked(s, pre, indent, ws, text) ::
                ExtractDoneMarker(s) == Some(TrimSpace(text))
  {
    hide TrimSpace, DoneFrom, Marked, FirstMarked;
    if pre, indent, ws, text :| Marked(s, pre, indent, ws, text) { MarkedFound(s, pre, indent, ws, text); }
    if DoneFrom(s, 0).Some? { FoundMarked(s); }
    forall pre, indent, ws, text | FirstMarked(s, pre, indent, ws, text)
      ensures DoneFrom(s, 0) == Some(TrimSpace(text))
    {
      FirstFound(s, pre, indent, ws, text);
    }
  }

  lemma MarkedFound(s: string, pre: string, indent: string, ws: string, text: string)
    requires Marked(s, pre, indent, ws, text)
    ensures DoneFrom(s, 0).Some?
  {
    hide *;
    MarkedStands(s, pre, indent, ws, text);
    DoneFound(s, 0, |pre|);
  }

  lemma FoundMarked(s: string)
    requires DoneFrom(s, 0).Some?
    ensures exists pre, indent, ws, text :: Marked(s, pre, indent, ws, text)
  {
    var n := DoneFromFirst(s, 0);
    assert n <= |s| && IsDoneLine(s, n);
    hide *;
    var pre, indent, ws, text := MarkedOf(s, n);
  }

  lemma FirstFound(s: string, pre: string, indent: string, ws: string, text: string)
    requires FirstMarked(s, pre, indent, ws, text)
    ensures DoneFrom(s, 0) == Some(TrimSpace(text))
  {
    assert Marked(s, pre, indent, ws, text) by { hide Marked; }
    hide *;
    MarkedFound(s, pre, indent, ws, text);
    var n := DoneFromFirst(s, 0);
    FirstLeast(s, n, pre, indent, ws, text);
    LeastFirst(s, n, pre, indent, ws, text);
    MarkedStands(s, pre, indent, ws, text);
  }
}
