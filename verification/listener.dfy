/** What a listener hears while a reply streams in (streamer.go) against what the loop then takes the
    reply for (run.go, parser.go). */
module Listener {
  import opened Text
  import opened Streamer
  import opened Parser
  import Run

  /** The answer the loop finds in a reply; none in an empty one or one whose script it runs. */
  function AnswerIn(reply: string): Option<string> {
    if IsBlank(reply) then None
    else if ExtractDoneMarker(reply).Some? then ExtractDoneMarker(reply)
    else if ExtractJSBlock(reply) == "" then Some(reply)
    else None
  }

  /** Exactly such a reply ends the Run at once, with that answer. */
  lemma AnswerEndsTheRun(p: Run.Progress, reply: string, t: Run.Turn)
    ensures AnswerIn(reply).Some? ==> Run.Read(p, reply, t) == Run.Respond(p, AnswerIn(reply).value)
    ensures AnswerIn(reply) == None && !IsBlank(reply) ==>
              Run.Read(p, reply, t) == Run.Ran(p, reply, ExtractJSBlock(reply), t)
  {
    hide IsBlank, ExtractDoneMarker, ExtractJSBlock, Run.Shown, Run.Carry;
  }

  /** Nothing is ever forwarded of such a reply: it opens with a fence, or it stays undecided. */
  predicate Silent(reply: string) {
    IsFence(Body(reply)) || (!IsDone(Body(reply)) && |reply| < 32 && !HasNewline(Body(reply)))
  }

  // ---- trimming ----

  lemma BodyTrims(s: string)
    ensures TrimSpace(Body(s)) == TrimSpace(s)
  {
    hide TrimSpace;
    TrimSpaceSkips(s, Lead(s));
  }

  lemma {:induction false} TrimLeftKeepsFrom(s: string, j: nat)
    requires j < |s| && !IsSpace(s[j])
    ensures |TrimLeft(s)| >= |s| - j
  {
    if j > 0 { TrimLeftKeepsFrom(s[1..], j - 1); }
  }

  lemma {:induction false} TrimRightDrop(s: string, k: nat)
    requires k <= |s|
    ensures |TrimRight(s[k..])| == if |TrimRight(s)| > k then |TrimRight(s)| - k else 0
    decreases |s|
  {
    if k < |s| && IsSpace(s[|s| - 1]) {
      assert s[..|s| - 1][k..] == s[k..][..|s| - k - 1];
      TrimRightDrop(s[..|s| - 1], k);
    }
  }

  /** A trim of what follows position k, measured by the trim of the whole on the right. */
  lemma SuffixTrim(s: string, k: nat) returns (a: nat)
    requires k <= |s|
    ensures k <= a <= |s| && |TrimSpace(s[k..])| == if |TrimRight(s)| > a then |TrimRight(s)| - a else 0
    ensures forall j | k <= j < |s| && !IsSpace(s[j]) :: a <= j
  {
    var t := TrimLeft(s[k..]);
    a := |s| - |t|;
    assert t == s[k..][a - k..] == s[a..];
    forall j | k <= j < |s| && !IsSpace(s[j]) ensures a <= j {
      TrimLeftKeepsFrom(s[k..], j - k);
    }
    hide TrimRight, TrimLeft;
    TrimRightDrop(s, a);
  }

  /** What follows a byte that is no white space trims to something shorter than the whole. */
  lemma RestTrimsShorter(s: string, j: nat, k: nat)
    requires j < k <= |s| && !IsSpace(s[j])
    ensures |TrimSpace(s[k..])| < |TrimSpace(s)|
  {
    hide TrimRight, TrimSpace;
    var a := SuffixTrim(s, k);
    var c := SuffixTrim(s, 0);
    assert s[0..] == s;
    TrimRightKeepsUpTo(s, j);
  }

  // ---- the marker ----

  lemma {:induction false} DoneFromShorter(s: string, i: nat)
    requires DoneFrom(s, i).Some?
    ensures |DoneFrom(s, i).value| < |TrimSpace(s)|
    decreases |s| - i
  {
    hide TrimSpace;
    if IsDoneLine(s, i) {
      var d := WsEnd(s, i);
      assert s[d] == "DONE"[0];
      RestTrimsShorter(s, d, d + 4);
    } else {
      DoneFromShorter(s, i + 1);
    }
  }

  lemma DoneShorter(s: string)
    ensures var f := ExtractDoneMarker(s); f.Some? ==> |f.value| < |TrimSpace(s)|
  {
    hide TrimSpace;
    if TrimSpace(s) != "DONE" && DoneFrom(s, 0).Some? { DoneFromShorter(s, 0); }
  }

  lemma WsEndIsLead(s: string)
    requires Lead(s) < |s| && !IsWs(s[Lead(s)])
    ensures WsEnd(s, 0) == Lead(s)
  {
    WsEndSkips(s, 0, Lead(s));
  }

  lemma {:induction false} WsEndSkips(s: string, i: nat, n: nat)
    requires i <= n <= |s| && forall j | i <= j < n :: IsWs(s[j])
    ensures WsEnd(s, i) == WsEnd(s, n)
    decreases n - i
  {
    if i < n { WsEndSkips(s, i + 1, n); }
  }

  /** A reply that opens with the streamer's marker has it for the parser too, and both see the same
      answer after it. */
  lemma DoneFirst(reply: string)
    requires IsDone(Body(reply))
    ensures ExtractDoneMarker(reply) == Some(TrimSpace(Intended(reply)))
  {
    hide TrimSpace;
    var n, b := Lead(reply), Body(reply);
    assert reply[n] == 'D' && b == reply[n..];
    WsEndIsLead(reply);
    AfterMarker(b);
    assert reply[n + 4..] == b[4..];
    if TrimSpace(reply) == "DONE" {
      BodyTrims(reply);
      NothingAfter(b);
    } else {
      MarkerLine(reply, n);
    }
  }

  lemma MarkerLine(s: string, n: nat)
    requires n + 4 < |s| && WsEnd(s, 0) == n && IsDone(s[n..])
    ensures IsDoneLine(s, 0)
  {
    assert forall i | 0 <= i < 4 :: s[n + i] == s[n..][i];
    assert OccursAt(s, "DONE", n);
    var k := if s[n + 4] == '\n' then n + 4 else n + 5;
    assert s[k] == s[n..][k - n] == '\n';
    assert k < WsEnd(s, n + 4);
  }

  lemma AfterMarker(b: string)
    requires IsDone(b)
    ensures !IsFence(b) && TrimSpace(AfterNewline(b)) == TrimSpace(b[4..])
  {
    hide TrimSpace;
    var k := if b[4] == '\n' then 1 else 2;
    NewlinePlaces(b);
    assert AfterNewline(b) == b[4..][k..];
    TrimSpaceSkips(b[4..], k);
  }

  lemma NothingAfter(b: string)
    requires IsDone(b) && TrimSpace(b) == "DONE"
    ensures TrimSpace(b[4..]) == ""
  {
    assert TrimLeft(b) == b;
    TrimRightDrop(b, 4);
    hide TrimRight;
    assert TrimRight(b[4..]) == "";
    BlankRight(b[4..]);
  }

  lemma {:induction false} BlankRight(s: string)
    requires TrimRight(s) == ""
    ensures TrimSpace(s) == ""
  {
    if s != "" {
      AllSpaces(s);
      TrimSpaceSkips(s, |s|);
    }
  }

  lemma {:induction false} AllSpaces(s: string)
    requires TrimRight(s) == ""
    ensures forall i | 0 <= i < |s| :: IsSpace(s[i])
  {
    if s != "" { AllSpaces(s[..|s| - 1]); }
  }

  // ---- heard against taken ----

  /** A listener has heard the answer, up to white space around it, exactly when the reply opens with
      the marker, or has no marker and is not silent, or is silent and its answer is empty: a marker
      with blanks behind it, or further down, lets more be heard than is answered, and a fence that
      is no script, or a short reply, lets nothing be heard. */
  lemma AnswerHeardIff(reply: string, chunks: seq<string>)
    requires Concat(chunks) == reply && Lead(reply) <= LeadLimit(reply) && AnswerIn(reply).Some?
    ensures TrimSpace(Feed(START, chunks).sent) == TrimSpace(AnswerIn(reply).value) <==>
            || IsDone(Body(reply))
            || (ExtractDoneMarker(reply) == None && !Silent(reply))
            || (ExtractDoneMarker(reply) == Some("") && Silent(reply))
  {
    ChunkInvariantIff(reply);
    assert Feed(START, chunks).sent == Intended(reply);
    hide *;
    IntendedHeardIff(reply);
  }

  /** The same of the loop: a turn that streams such a reply completes the Run, and what its listener
      heard is the Run's final text exactly then. */
  lemma FinalTextHeardIff(p: Run.Progress, t: Run.Turn, chunks: seq<string>)
    requires !t.cancelled && t.stream.Replied? && AnswerIn(t.stream.content).Some?
    requires Concat(chunks) == t.stream.content && Lead(t.stream.content) <= LeadLimit(t.stream.content)
    ensures var reply, q := t.stream.content, Run.TurnFrom(p, t);
            && q.status == Run.Completed
            && (TrimSpace(Feed(START, chunks).sent) == TrimSpace(q.final) <==>
                || IsDone(Body(reply))
                || (ExtractDoneMarker(reply) == None && !Silent(reply))
                || (ExtractDoneMarker(reply) == Some("") && Silent(reply)))
  {
    var reply := t.stream.content;
    AnswerHeardIff(reply, chunks);
    hide *;
    AnswerCompletes(p, t);
  }

  lemma AnswerCompletes(p: Run.Progress, t: Run.Turn)
    requires !t.cancelled && t.stream.Replied? && AnswerIn(t.stream.content).Some?
    ensures Run.TurnFrom(p, t).status == Run.Completed
    ensures Run.TurnFrom(p, t).final == AnswerIn(t.stream.content).value
  {
    var r := t.stream;
    var q := p.(streams := p.streams + 1);
    AnswerEndsTheRun(q.(prompt := ToInt32(q.prompt + ToInt32(r.inputTokens)),
                        completion := ToInt32(q.completion + ToInt32(r.outputTokens))), r.content, t);
    hide Run.Read, AnswerIn;
  }

  lemma IntendedHeardIff(reply: string)
    requires AnswerIn(reply).Some?
    ensures TrimSpace(Intended(reply)) == TrimSpace(AnswerIn(reply).value) <==>
            || IsDone(Body(reply))
            || (ExtractDoneMarker(reply) == None && !Silent(reply))
            || (ExtractDoneMarker(reply) == Some("") && Silent(reply))
  {
    hide TrimSpace, ExtractDoneMarker, ExtractJSBlock, IsFence, IsDone, Body;
    IntendedIs(reply);
    BodyTrims(reply);
    DoneShorter(reply);
    DoneTrimmed(reply);
    NoAnswerInNothing();
    if IsDone(Body(reply)) {
      DoneFirst(reply);
      Retrim(Intended(reply));
    }
  }

  lemma IntendedIs(reply: string)
    ensures !IsDone(Body(reply)) ==> Intended(reply) == if Silent(reply) then "" else Body(reply)
  {
    hide Body;
  }

  lemma NoAnswerInNothing()
    ensures TrimSpace("") == ""
  {}

  lemma Retrim(s: string)
    ensures TrimSpace(TrimSpace(s)) == TrimSpace(s)
  {
    if TrimSpace(s) != "" { TrimSpaceFixed(TrimSpace(s)); }
  }

  lemma {:induction false} DoneFromTrimmed(s: string, i: nat)
    ensures DoneFrom(s, i).Some? ==> TrimSpace(DoneFrom(s, i).value) == DoneFrom(s, i).value
    decreases |s| - i
  {
    hide TrimSpace;
    if i <= |s| {
      if IsDoneLine(s, i) { Retrim(s[WsEnd(s, i) + 4..]); } else { DoneFromTrimmed(s, i + 1); }
    }
  }

  lemma DoneTrimmed(s: string)
    ensures var f := ExtractDoneMarker(s); f.Some? ==> TrimSpace(f.value) == f.value
  {
    hide TrimSpace, DoneFrom;
    DoneFromTrimmed(s, 0);
    NoAnswerInNothing();
  }

  /** Of a reply whose script is run nothing is heard exactly when it opens with a fence. */
  lemma ScriptUnheardIff(reply: string, chunks: seq<string>)
    requires Concat(chunks) == reply && Lead(reply) <= LeadLimit(reply)
    requires AnswerIn(reply) == None && !IsBlank(reply)
    ensures Feed(START, chunks).sent == "" <==> "```" <= Body(reply)
  {
    MarkersLiteral(Body(reply));
    ChunkInvariantIff(reply);
    IntendedMeans(reply);
    ScriptHasNewline(reply);
    hide Feed, TrimSpace, ExtractDoneMarker, ExtractJSBlock, LeadLimit, IsBlank;
    if IsDone(Body(reply)) { DoneFirst(reply); }
  }

  lemma ScriptHasNewline(reply: string)
    requires ExtractJSBlock(reply) != ""
    ensures '\n' in Body(reply)
  {
    hide TrimSpace;
    var m := FindFrom(reply, 0).value;
    assert !IsLead(reply[m.start]);
    assert Lead(reply) <= m.start;
    assert Body(reply)[m.bodyStart - 1 - Lead(reply)] == '\n';
  }
}
