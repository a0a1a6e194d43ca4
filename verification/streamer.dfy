/** streamer.go: forwarding a streamed reply once it is known to be a final answer. */
module Streamer {
  import opened Text

  datatype Mode = Undecided | Js | Final

  /** The three leading markers: "```", "DONE\n" and "DONE\r\n". */
  predicate IsFence(b: string) { |b| >= 3 && b[0] == '`' && b[1] == '`' && b[2] == '`' }
  predicate SaysDone(b: string) { |b| >= 4 && b[0] == 'D' && b[1] == 'O' && b[2] == 'N' && b[3] == 'E' }
  predicate IsDoneLf(b: string) { |b| >= 5 && SaysDone(b) && b[4] == '\n' }
  predicate IsDoneCrlf(b: string) { |b| >= 6 && SaysDone(b) && b[4] == '\r' && b[5] == '\n' }

  /** strings.TrimLeft(s, " \t\r\n"). */
  predicate IsLead(c: char) { c == ' ' || c == '\t' || c == '\r' || c == '\n' }

  function Lead(s: string): (n: nat)
    ensures n <= |s|
    ensures forall i | 0 <= i < n :: IsLead(s[i])
    ensures n < |s| ==> !IsLead(s[n])
  {
    if s != "" && IsLead(s[0]) then 1 + Lead(s[1..]) else 0
  }

  function Body(s: string): string { s[Lead(s)..] }

  function FirstNewline(s: string): (n: nat)
    ensures n <= |s|
    ensures n < |s| ==> s[n] == '\n'
    ensures forall i | 0 <= i < n :: s[i] != '\n'
  {
    if s == "" || s[0] == '\n' then 0 else 1 + FirstNewline(s[1..])
  }

  predicate HasNewline(s: string) { FirstNewline(s) < |s| }

  function AfterNewline(s: string): string {
    var n := FirstNewline(s); if n + 1 <= |s| then s[n + 1..] else ""
  }

  /** What onChunk decides from the text accumulated so far, and what it then sends. */
  datatype Verdict = Wait | Fence | Answer(text: string)

  predicate IsDone(b: string) { IsDoneLf(b) || IsDoneCrlf(b) }

  function DecideBody(b: string, len: nat): Verdict {
    if IsFence(b) then Fence
    else if IsDone(b) then Answer(AfterNewline(b))
    else if len < 32 && !HasNewline(b) then Wait
    else Answer(b)
  }

  function Decide(buf: string): Verdict { DecideBody(Body(buf), |buf|) }

  datatype State = State(buf: string, mode: Mode, sent: string)

  const START := State("", Undecided, "")

  function Step(s: State, chunk: string): State {
    var buf := s.buf + chunk;
    match s.mode
    case Js => State(buf, Js, s.sent)
    case Final => State(buf, Final, s.sent + chunk)
    case Undecided =>
      match Decide(buf)
      case Wait => State(buf, Undecided, s.sent)
      case Fence => State(buf, Js, s.sent)
      case Answer(text) => State(buf, Final, s.sent + text)
  }

  function Feed(s: State, chunks: seq<string>): State
    decreases |chunks|
  {
    if chunks == [] then s else Feed(Step(s, chunks[0]), chunks[1..])
  }

  /** The streamer; `events` are the response_chunk events handed to a non-nil onEvent. */
  class ResponseStreamer {
    const listening: bool
    var buf: string
    var mode: Mode
    var events: seq<string>

    ghost function Abs(): State reads this { State(buf, mode, Concat(events)) }

    constructor (listening: bool)
      ensures Abs() == START && events == [] && this.listening == listening
    {
      this.listening := listening;
      buf, mode, events := "", Undecided, [];
    }

    method EmitFinal(text: string)
      modifies this`events
      ensures Concat(events) == old(Concat(events)) + (if listening then text else "")
      ensures text == "" || !listening ==> events == old(events)
      ensures text != "" && listening ==> events == old(events) + [text]
    {
      if text == "" || !listening { return; }
      ConcatSnoc(events, text);
      events := events + [text];
    }

    method OnChunk(chunk: string)
      modifies this
      ensures listening ==> Abs() == Step(old(Abs()), chunk)
      ensures !listening ==> events == old(events)
      ensures buf == old(buf) + chunk
      ensures mode == Step(old(Abs()), chunk).mode
    {
      buf := buf + chunk;
      if mode == Undecided {
        var b := Body(buf);
        if IsFence(b) {
          mode := Js;
          return;
        }
        if IsDone(b) {
          mode := Final;
          var nl := FirstNewline(b);
          if |b| > nl + 1 {
            EmitFinal(b[nl + 1..]);
          }
          return;
        }
        if |buf| < 32 && !HasNewline(b) { return; }
        mode := Final;
        EmitFinal(b);
        return;
      }
      if mode == Final {
        EmitFinal(chunk);
      }
    }

    /** Stream's use of the callback: one call per chunk. */
    method Receive(chunks: seq<string>)
      modifies this
      ensures listening ==> Abs() == Feed(old(Abs()), chunks)
      ensures !listening ==> events == old(events)
    {
      var i := 0;
      while i < |chunks|
        invariant 0 <= i <= |chunks|
        invariant listening ==> Feed(Abs(), chunks[i..]) == Feed(old(Abs()), chunks)
        invariant !listening ==> events == old(events)
      {
        OnChunk(chunks[i]);
        i := i + 1;
      }
    }
  }

  // ---- chunk invariance ----

  /** The text a listener should end up with, read off the whole reply. */
  function Intended(reply: string): string {
    match Decide(reply)
    case Wait => ""
    case Fence => ""
    case Answer(text) => text
  }

  /** How many leading white-space bytes a reply of this shape may have: enough room must
      remain within the first 31 bytes for whatever decides the reply. */
  function LeadLimit(reply: string): nat { BodyLimit(Body(reply)) }

  function BodyLimit(b: string): nat {
    if IsFence(b) then 29 else if IsDoneLf(b) then 27 else if IsDoneCrlf(b) then 26 else 32
  }

  lemma {:induction false} LeadOfPrefix(s: string, n: nat)
    requires n <= |s|
    ensures Lead(s[..n]) == if n <= Lead(s) then n else Lead(s)
  {
    if n > 0 && IsLead(s[0]) {
      assert s[..n][1..] == s[1..][..n - 1];
      LeadOfPrefix(s[1..], n - 1);
    }
  }

  lemma {:induction false} NewlineOfPrefix(b: string, n: nat)
    requires n <= |b|
    ensures FirstNewline(b[..n]) == if n <= FirstNewline(b) then n else FirstNewline(b)
  {
    if n > 0 && b[0] != '\n' {
      assert b[..n][1..] == b[1..][..n - 1];
      NewlineOfPrefix(b[1..], n - 1);
    }
  }

  lemma BodyOfPrefix(s: string, n: nat)
    requires n <= |s|
    ensures Body(s[..n]) == if n <= Lead(s) then "" else Body(s)[..n - Lead(s)]
  {
    LeadOfPrefix(s, n);
  }

  /** Where the first newline of a marked text is. */
  lemma NewlinePlaces(b: string)
    ensures IsDoneLf(b) ==> FirstNewline(b) == 4
    ensures IsDoneCrlf(b) ==> FirstNewline(b) == 5
    ensures IsFence(b) ==> FirstNewline(b) >= 3
    ensures SaysDone(b) ==> FirstNewline(b) >= 4
  {}

  lemma MarkersOfPrefix(b: string, m: nat)
    requires m <= |b|
    ensures IsFence(b[..m]) <==> m >= 3 && IsFence(b)
    ensures IsDoneLf(b[..m]) <==> m >= 5 && IsDoneLf(b)
    ensures IsDoneCrlf(b[..m]) <==> m >= 6 && IsDoneCrlf(b)
  {}

  /** Deciding on the first m bytes of the body b, n bytes into the reply. */
  lemma EarlyBody(b: string, lead: nat, m: nat, n: nat)
    requires m <= |b| && lead <= BodyLimit(b)
    requires n == lead + m || (m == 0 && n < lead)
    ensures match DecideBody(b[..m], n)
            case Wait => true
            case Fence => DecideBody(b, lead + |b|) == Fence
            case Answer(text) => n == lead + m && DecideBody(b, lead + |b|) == Answer(text + b[m..])
  {
    NewlineOfPrefix(b, m);
    NewlinePlaces(b);
    MarkersOfPrefix(b, m);
    Exclusive(b);
    hide FirstNewline, IsFence, IsDoneLf, IsDoneCrlf, SaysDone;
    assert b[..m] + b[m..] == b;
    var k := FirstNewline(b);
    if m > k { assert b[..m][k + 1..] + b[m..] == b[k + 1..]; }
  }

  lemma Exclusive(b: string)
    ensures !(IsFence(b) && IsDoneLf(b)) && !(IsFence(b) && IsDoneCrlf(b)) && !(IsDoneLf(b) && IsDoneCrlf(b))
    ensures IsDone(b) ==> HasNewline(b)
  {
    NewlinePlaces(b);
  }

  /** Deciding early is deciding right: for a reply within its limit, a verdict on a prefix
      sends, together with the rest of the reply, what the verdict on the whole would send. */
  lemma EarlyVerdict(reply: string, n: nat)
    requires n <= |reply| && Lead(reply) <= LeadLimit(reply)
    ensures match Decide(reply[..n])
            case Wait => true
            case Fence => Intended(reply) == ""
            case Answer(text) => text + reply[n..] == Intended(reply)
  {
    hide DecideBody, FirstNewline, Lead, BodyLimit;
    var b, lead := Body(reply), Lead(reply);
    var m := if n <= lead then 0 else n - lead;
    assert Body(reply[..n]) == b[..m] by { BodyOfPrefix(reply, n); }
    assert n >= lead ==> reply[n..] == b[m..];
    EarlyBody(b, lead, m, n);
  }

  lemma {:induction false} FeedDecided(s: State, chunks: seq<string>)
    requires s.mode != Undecided
    ensures Feed(s, chunks).sent == s.sent + (if s.mode == Final then Concat(chunks) else "")
    decreases |chunks|
  {
    if chunks != [] { FeedDecided(Step(s, chunks[0]), chunks[1..]); }
  }

  lemma Advance(reply: string, n: nat, c: string, rest: string)
    requires n <= |reply| && c + rest == reply[n..]
    ensures n + |c| <= |reply|
    ensures reply[..n] + c == reply[..n + |c|] && reply[n + |c|..] == rest
  {
    assert reply[n..][..|c|] == c;
    assert reply[n..][|c|..] == rest;
  }

  lemma {:induction false} FeedUndecided(reply: string, n: nat, chunks: seq<string>)
    requires n <= |reply| && Concat(chunks) == reply[n..]
    requires Lead(reply) <= LeadLimit(reply)
    requires n == |reply| ==> Decide(reply) == Wait
    ensures Feed(State(reply[..n], Undecided, ""), chunks).sent == Intended(reply)
    decreases |chunks|
  {
    hide Decide, Lead, LeadLimit;
    if chunks == [] {
      assert reply[..n] == reply;
    } else {
      var c := chunks[0];
      var n1 := n + |c|;
      Advance(reply, n, c, Concat(chunks[1..]));
      EarlyVerdict(reply, n1);
      var s1 := Step(State(reply[..n], Undecided, ""), c);
      assert n1 == |reply| ==> reply[..n1] == reply;
      if s1.mode == Undecided {
        FeedUndecided(reply, n1, chunks[1..]);
      } else {
        FeedDecided(s1, chunks[1..]);
        assert s1.mode == Final ==> s1.sent == Decide(reply[..n1]).text;
      }
    }
  }

  /** The two-chunk split that goes wrong when there is too much leading white space. */
  lemma LateMarker(reply: string)
    requires Lead(reply) > LeadLimit(reply)
    ensures |reply| >= 32
    ensures Concat([reply[..32], reply[32..]]) == reply
    ensures Feed(START, [reply[..32], reply[32..]]).sent != Intended(reply)
  {
    hide *;
    LateBody(reply);
    IntendedLength(reply);
    var x, y, p := reply[..32], reply[32..], Body(reply[..32]);
    assert x + y == reply;
    TwoChunks(x, y, p);
  }

  /** No marker is complete within the first 32 bytes, so they count as an answer. */
  lemma LateBody(reply: string)
    requires Lead(reply) > LeadLimit(reply)
    ensures |reply| >= 32 && Decide(reply[..32]) == Answer(Body(reply[..32]))
    ensures |Body(reply[..32])| + |reply[32..]| == if Lead(reply) <= 32 then |Body(reply)| else |reply| - 32
  {
    hide FirstNewline, Lead;
    BodyOfPrefix(reply, 32);
    if Lead(reply) <= 32 { MarkersOfPrefix(Body(reply), 32 - Lead(reply)); }
  }

  lemma IntendedLength(reply: string)
    requires Lead(reply) > LeadLimit(reply)
    ensures |reply| >= 32
    ensures |Intended(reply)| < if Lead(reply) <= 32 then |Body(reply)| else |reply| - 32
  {
    hide Lead;
    NewlinePlaces(Body(reply));
  }

  lemma TwoChunks(x: string, y: string, p: string)
    requires Decide(x) == Answer(p)
    ensures Concat([x, y]) == x + y
    ensures Feed(START, [x, y]).sent == p + y
  {
    hide Decide;
    assert [x, y][1..] == [y] && [y][1..] == [];
    assert Concat([y]) == y + "" == y;
    assert "" + x == x && "" + p == p;
    assert Step(START, x) == State(x, Final, p);
    assert Feed(START, [x, y]) == Feed(State(x, Final, p), [y]);
    FeedDecided(State(x, Final, p), [y]);
  }

  /** What reaches the listener depends on the reply alone, however it is cut into chunks,
      exactly when its leading white space is within the limit for its shape. */
  lemma ChunkInvariantIff(reply: string)
    ensures (forall chunks: seq<string> | Concat(chunks) == reply :: Feed(START, chunks).sent == Intended(reply))
            <==> Lead(reply) <= LeadLimit(reply)
  {
    if Lead(reply) <= LeadLimit(reply) {
      forall chunks: seq<string> | Concat(chunks) == reply
        ensures Feed(START, chunks).sent == Intended(reply)
      {
        assert reply[0..] == reply && reply[..0] == "";
        assert reply == "" ==> Body(reply) == "";
        FeedUndecided(reply, 0, chunks);
      }
    } else {
      LateMarker(reply);
    }
  }

  /** What Intended means, shape by shape. */
  lemma IntendedMeans(reply: string)
    ensures IsFence(Body(reply)) ==> Intended(reply) == ""
    ensures IsDoneLf(Body(reply)) ==> "DONE\n" + Intended(reply) == Body(reply)
    ensures IsDoneCrlf(Body(reply)) ==> "DONE\r\n" + Intended(reply) == Body(reply)
    ensures !IsFence(Body(reply)) && !IsDone(Body(reply)) ==>
              Intended(reply) == if |reply| < 32 && '\n' !in Body(reply) then "" else Body(reply)
  {
    var b := Body(reply);
    NewlinePlaces(b);
    if IsDoneLf(b) {
      assert "DONE\n" + b[5..] == b;
    } else if IsDoneCrlf(b) {
      assert "DONE\r\n" + b[6..] == b;
    }
  }

  /** The three markers, byte for byte. */
  lemma MarkersLiteral(b: string)
    ensures IsFence(b) <==> "```" <= b
    ensures IsDoneLf(b) <==> "DONE\n" <= b
    ensures IsDoneCrlf(b) <==> "DONE\r\n" <= b
  {
    var f, d, c := "```", "DONE\n", "DONE\r\n";
    assert |f| == 3 && f[0] == f[1] == f[2] == '`';
    assert |d| == 5 && d[0] == 'D' && d[1] == 'O' && d[2] == 'N' && d[3] == 'E' && d[4] == '\n';
    assert |c| == 6 && c[0] == 'D' && c[1] == 'O' && c[2] == 'N' && c[3] == 'E' && c[4] == '\r' && c[5] == '\n';
  }

  lemma {:induction false} LeadIs(w: string, b: string)
    requires (forall i | 0 <= i < |w| :: w[i] in " \t\r\n") && (b == "" || b[0] !in " \t\r\n")
    ensures Lead(w + b) == |w| && Body(w + b) == b
  {
    if w == "" {
      assert w + b == b;
    } else {
      assert (w + b)[1..] == w[1..] + b;
      LeadIs(w[1..], b);
    }
  }

  /** What a listener should end up with for white space w and then b: nothing of a fence, what follows DONE
      and its newline, otherwise b, unless it is short and without a newline. */
  lemma IntendedOf(w: string, b: string)
    requires (forall i | 0 <= i < |w| :: w[i] in " \t\r\n") && (b == "" || b[0] !in " \t\r\n")
    ensures var sent := Intended(w + b);
            if "```" <= b then sent == ""
            else if "DONE\n" <= b then sent == b[5..]
            else if "DONE\r\n" <= b then sent == b[6..]
            else if |w + b| < 32 && '\n' !in b then sent == ""
            else sent == b
  {
    LeadIs(w, b);
    MarkersLiteral(b);
    IntendedMeans(w + b);
    Exclusive(b);
    hide Intended, Lead, Body, IsFence, IsDoneLf, IsDoneCrlf, HasNewline;
    var sent := Intended(w + b);
    if "DONE\n" <= b { assert ("DONE\n" + sent)[5..] == sent; }
    if "DONE\r\n" <= b { assert ("DONE\r\n" + sent)[6..] == sent; }
  }
}
