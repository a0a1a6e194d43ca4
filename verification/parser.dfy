/** parser.go: the code block and the DONE marker of a reply, and history.go's re-fencing. */
module Parser {
  import opened Text

  /** The regular expression class \s. */
  predicate IsWs(c: char) { c == ' ' || c == '\t' || c == '\n' || c == '\r' || c == '\U{0C}' }

  predicate IsTicks(s: string, i: nat) {
    i + 3 <= |s| && s[i] == '`' && s[i + 1] == '`' && s[i + 2] == '`'
  }

  /** A newline followed by a closing fence. */
  predicate IsClose(s: string, i: nat) {
    i < |s| && s[i] == '\n' && IsTicks(s, i + 1)
  }

  predicate HasClose(s: string) { exists i | 0 <= i < |s| :: IsClose(s, i) }

  /** The length of the language tag at i: "javascript", "js", or none. */
  function TagLength(s: string, i: nat): (n: nat)
    ensures n > 0 ==> i + n <= |s|
  {
    if OccursAt(s, "javascript", i) then 10 else if OccursAt(s, "js", i) then 2 else 0
  }

  datatype Match = Match(start: nat, bodyStart: nat, bodyEnd: nat)

  /** m is one way for jsFenceRe to match: fence, tag, white space up to a newline, body, close. */
  ghost predicate IsMatch(s: string, m: Match) {
    && IsTicks(s, m.start)
    && var tag := TagLength(s, m.start + 3);
    && tag > 0
    && m.start + 3 + tag < m.bodyStart <= m.bodyEnd
    && IsClose(s, m.bodyEnd)
    && s[m.bodyStart - 1] == '\n'
    && forall i | m.start + 3 + tag <= i < m.bodyStart :: IsWs(s[i])
  }

  /** The order in which the engine tries matches: leftmost, greedy white space, lazy body. */
  predicate NoWorse(m: Match, n: Match) {
    || m.start < n.start
    || (m.start == n.start && (m.bodyStart > n.bodyStart
                               || (m.bodyStart == n.bodyStart && m.bodyEnd <= n.bodyEnd)))
  }

  // ---- the matcher ----

  function FindClose(s: string, from: nat): (r: Option<nat>)
    ensures r.Some? ==> from <= r.value && IsClose(s, r.value)
    ensures forall j: nat | from <= j && IsClose(s, j) :: r.Some? && r.value <= j
    decreases |s| - from
  {
    if from >= |s| then None else if IsClose(s, from) then Some(from) else FindClose(s, from + 1)
  }

  function WsEnd(s: string, i: nat): (e: nat)
    requires i <= |s|
    ensures i <= e <= |s|
    ensures forall j | i <= j < e :: IsWs(s[j])
    ensures e < |s| ==> !IsWs(s[e])
    decreases |s| - i
  {
    if i < |s| && IsWs(s[i]) then WsEnd(s, i + 1) else i
  }

  /** The last newline of s[lo..hi] from which a close can still be found. */
  function LastOpen(s: string, lo: nat, hi: nat): (r: Option<nat>)
    requires lo <= hi <= |s|
    ensures r.Some? ==> lo <= r.value < hi && s[r.value] == '\n' && FindClose(s, r.value + 1).Some?
    ensures forall n: nat | lo <= n < hi && s[n] == '\n' && FindClose(s, n + 1).Some? :: r.Some? && n <= r.value
    decreases hi - lo
  {
    if lo == hi then None
    else if s[hi - 1] == '\n' && FindClose(s, hi).Some? then Some(hi - 1)
    else LastOpen(s, lo, hi - 1)
  }

  function MatchAt(s: string, i: nat): (r: Option<Match>)
    ensures r.Some? ==> r.value.start == i && IsMatch(s, r.value)
  {
    var tag := TagLength(s, i + 3);
    if !IsTicks(s, i) || tag == 0 then None
    else
      match LastOpen(s, i + 3 + tag, WsEnd(s, i + 3 + tag))
      case None => None
      case Some(n) => Some(Match(i, n + 1, FindClose(s, n + 1).value))
  }

  function FindFrom(s: string, i: nat): (r: Option<Match>)
    ensures r.Some? ==> IsMatch(s, r.value)
    decreases |s| - i
  {
    if i >= |s| then None
    else if MatchAt(s, i).Some? then MatchAt(s, i) else FindFrom(s, i + 1)
  }

  function ExtractJSBlock(s: string): string {
    match FindFrom(s, 0)
    case None => ""
    case Some(m) => TrimSpace(s[m.bodyStart..m.bodyEnd])
  }

  lemma MatchAtBest(s: string, m: Match)
    requires IsMatch(s, m)
    ensures MatchAt(s, m.start).Some? && NoWorse(MatchAt(s, m.start).value, m)
  {
    var lo := m.start + 3 + TagLength(s, m.start + 3);
    var n := m.bodyStart - 1;
    assert lo <= n < WsEnd(s, lo);
    assert FindClose(s, n + 1).Some?;
  }

  /** The matcher finds the match the regular expression engine would report, or none exists. */
  lemma {:induction false} FindFromIsPreferred(s: string, i: nat)
    ensures forall m | IsMatch(s, m) && m.start >= i :: FindFrom(s, i).Some? && NoWorse(FindFrom(s, i).value, m)
    decreases |s| - i
  {
    if i < |s| {
      FindFromIsPreferred(s, i + 1);
      forall m | IsMatch(s, m) && m.start >= i
        ensures FindFrom(s, i).Some? && NoWorse(FindFrom(s, i).value, m)
      {
        if m.start == i { MatchAtBest(s, m); }
      }
    }
  }

  // ---- re-fencing, as history replay does it ----

  const OPENING := "```javascript\n"
  const CLOSING := "\n```"

  function Refence(code: string): string { OPENING + code + CLOSING }

  lemma ContainsClose(s: string)
    ensures Contains(s, CLOSING) <==> HasClose(s)
  {
    if HasClose(s) {
      var i :| 0 <= i < |s| && IsClose(s, i);
      assert OccursAt(s, CLOSING, i);
    }
    if Contains(s, CLOSING) {
      var i: nat :| i <= |s| && OccursAt(s, CLOSING, i);
      assert s[i + 0] == CLOSING[0] && s[i + 1] == CLOSING[1] && s[i + 2] == CLOSING[2] && s[i + 3] == CLOSING[3];
      assert IsClose(s, i);
    }
  }

  /** Extracted code is trimmed and holds no closing fence at the start of a line. */
  lemma ExtractedIsClean(reply: string)
    ensures var code := ExtractJSBlock(reply); TrimSpace(code) == code && !HasClose(code)
  {
    var found := FindFrom(reply, 0);
    if found.Some? {
      var m := found.value;
      FindFromIsPreferred(reply, 0);
      var body := reply[m.bodyStart..m.bodyEnd];
      forall j | 0 <= j < |body| ensures !IsClose(body, j) {
        if IsClose(body, j) { CloseInBody(reply, m, j); }
      }
      ContainsClose(body);
      var code := TrimSpace(body);
      ContainsClose(code);
      if Contains(code, CLOSING) { TrimSpaceWithin(body, CLOSING); }
    }
  }

  /** A close inside a body would be a better (shorter) match. */
  lemma CloseInBody(s: string, m: Match, j: nat)
    requires IsMatch(s, m) && j < m.bodyEnd - m.bodyStart && IsClose(s[m.bodyStart..m.bodyEnd], j)
    ensures exists n :: IsMatch(s, n) && !NoWorse(m, n)
  {
    var n := m.(bodyEnd := m.bodyStart + j);
    assert IsMatch(s, n);
  }

  lemma RefencedBytes(code: string)
    ensures var s := Refence(code); |s| == |code| + 18 && IsTicks(s, 0) && TagLength(s, 3) == 10 && s[13] == '\n'
    ensures var s := Refence(code);
            forall i | 0 <= i < |code| :: s[14 + i] == code[i]
    ensures var s := Refence(code); IsClose(s, |code| + 14) && s[14..|code| + 14] == code
  {
    var s := Refence(code);
    assert OPENING[0] == OPENING[1] == OPENING[2] == '`' && OPENING[13] == '\n' && |OPENING| == 14;
    assert s[..14] == OPENING;
    assert OccursAt(s, "javascript", 3) by {
      assert OPENING[3..13] == "javascript";
      assert forall n | 0 <= n < 10 :: s[3 + n] == OPENING[3..13][n];
    }
    assert s[14..|code| + 14] == code;
  }

  /** The first close of re-fenced text: inside the code if it has one, else the closing fence. */
  lemma RefencedClose(code: string, i: nat)
    requires i >= 14 && IsClose(Refence(code), i)
    ensures i == |code| + 14 || (i < |code| + 14 && IsClose(code, i - 14))
  {
    RefencedBytes(code);
    var s := Refence(code);
    assert CLOSING[0] == '\n' && CLOSING[1] == CLOSING[2] == CLOSING[3] == '`' && |CLOSING| == 4;
    assert s[|code| + 14..] == CLOSING;
    assert s[|code| + 15] == CLOSING[1] && s[|code| + 16] == CLOSING[2] && s[|code| + 17] == CLOSING[3];
    assert s[|code| + 14] == CLOSING[0];
  }

  lemma RefencedWhole(code: string)
    requires code != "" && !IsSpace(code[0])
    ensures var s := Refence(code);
            && IsMatch(s, Match(0, 14, |code| + 14))
            && forall m | IsMatch(s, m) && m.start == 0 :: m.bodyStart == 14
  {
    hide Refence;
    var s := Refence(code);
    RefencedBytes(code);
    assert !IsWs(s[14 + 0]);
  }

  lemma RefencedInner(code: string, j: nat)
    requires code != "" && !IsSpace(code[0]) && IsClose(code, j)
    ensures IsMatch(Refence(code), Match(0, 14, 14 + j))
  {
    RefencedWhole(code);
    RefencedBytes(code);
    hide Refence;
    var s := Refence(code);
    assert s[14 + j] == code[j] && s[14 + (j + 1)] == code[j + 1]
           && s[14 + (j + 2)] == code[j + 2] && s[14 + (j + 3)] == code[j + 3];
  }

  /** Where the body of re-fenced, trimmed code starts and ends. */
  lemma RefencedMatch(code: string)
    requires code != "" && !IsSpace(code[0])
    ensures var found := FindFrom(Refence(code), 0);
            && found.Some? && found.value.bodyStart == 14
            && 14 <= found.value.bodyEnd <= |code| + 14
            && (found.value.bodyEnd == |code| + 14 <==> !HasClose(code))
  {
    hide Refence, FindFrom, IsClose;
    var s := Refence(code);
    RefencedWhole(code);
    FindFromIsPreferred(s, 0);
    assert NoWorse(FindFrom(s, 0).value, Match(0, 14, |code| + 14));
    var m := FindFrom(s, 0).value;
    RefencedClose(code, m.bodyEnd);
    if HasClose(code) {
      var j :| 0 <= j < |code| && IsClose(code, j);
      RefencedInner(code, j);
      assert NoWorse(m, Match(0, 14, 14 + j));
    }
  }

  /** Re-fencing and extracting gives a step's code back exactly when the code is trimmed and
      holds no closing fence at the start of a line. */
  lemma RefenceRoundTripIff(code: string)
    ensures ExtractJSBlock(Refence(code)) == code <==> TrimSpace(code) == code && !HasClose(code)
  {
    hide *;
    ExtractedIsClean(Refence(code));
    if code == "" {
      EmptyRefenced();
    } else if TrimSpace(code) == code && !HasClose(code) {
      TrimmedRefenced(code);
    }
  }

  lemma TrimmedRefenced(code: string)
    requires code != "" && TrimSpace(code) == code && !HasClose(code)
    ensures ExtractJSBlock(Refence(code)) == code
  {
    hide Refence, FindFrom, TrimSpace, HasClose;
    RefencedMatch(code);
    RefencedBytes(code);
  }

  lemma EmptyRefenced()
    ensures ExtractJSBlock(Refence("")) == ""
  {
    var s := Refence("");
    RefencedBytes("");
    FindFromIsPreferred(s, 0);
    assert IsMatch(s, Match(0, 14, 14));
    var m := FindFrom(s, 0).value;
    RefencedClose("", m.bodyEnd);
    assert s[14..14] == "";
  }

  /** Printer and parser undo each other on everything the loop ever stores. */
  lemma ExtractRefenceExtract(reply: string)
    ensures ExtractJSBlock(Refence(ExtractJSBlock(reply))) == ExtractJSBlock(reply)
    ensures !Contains(ExtractJSBlock(reply), CLOSING)
  {
    ExtractedIsClean(reply);
    RefenceRoundTripIff(ExtractJSBlock(reply));
    ContainsClose(ExtractJSBlock(reply));
  }

  // ---- the DONE marker ----

  predicate IsDoneLine(s: string, i: nat)
    requires i <= |s|
  {
    && (i == 0 || s[i - 1] == '\n')
    && var d := WsEnd(s, i);
    && OccursAt(s, "DONE", d)
    && exists k | d + 4 <= k < WsEnd(s, d + 4) :: s[k] == '\n'
  }

  function DoneFrom(s: string, i: nat): Option<string>
    decreases |s| - i
  {
    if i > |s| then None
    else if IsDoneLine(s, i) then Some(TrimSpace(s[WsEnd(s, i) + 4..]))
    else DoneFrom(s, i + 1)
  }

  function ExtractDoneMarker(s: string): Option<string> {
    if TrimSpace(s) == "DONE" then Some("") else DoneFrom(s, 0)
  }
}
