/** compact.go: rendering history as a transcript, cutting it into chunks, eliding what is too long. */
module Transcript {
  import opened Text
  import opened Messages

  function RenderMessage(m: Message): (s: string)
    ensures s != ""
  {
    "[" + (if IsExecutionResult(m) then "execution result" else m.role) + "]\n" + m.content + "\n\n"
  }

  function RenderTranscript(ms: seq<Message>): string {
    if ms == [] then "" else RenderMessage(ms[0]) + RenderTranscript(ms[1..])
  }

  /** A rendered message opens with who speaks, the engine for an execution result, and holds the whole
      content, behind that line and before a blank one. */
  lemma RenderHolds(m: Message)
    ensures var s := RenderMessage(m);
            && (IsExecutionResult(m) ==> "[execution result]\n" <= s)
            && (!IsExecutionResult(m) ==> "[" + m.role + "]\n" <= s)
            && |s| >= |m.content| + 2 && s[|s| - |m.content| - 2..] == m.content + "\n\n"
            && Contains(s, m.content)
  {
    var s, c := RenderMessage(m), m.content;
    assert s[|s| - |c| - 2..] == c + "\n\n";
    assert s[|s| - |c| - 2..|s| - 2] == c;
    assert OccursAt(s, c, |s| - |c| - 2);
    assert IsExecutionResult(m) ==> "[" + "execution result" + "]\n" == "[execution result]\n";
  }

  /** Roles that a rendering can be told apart by. */
  predicate PlainRole(role: string) { ']' !in role && role != "execution result" }

  /** No two messages with such roles are rendered alike. */
  lemma RenderInjective(m: Message, n: Message)
    requires PlainRole(m.role) && PlainRole(n.role) && RenderMessage(m) == RenderMessage(n)
    ensures m == n
  {
    hide RenderMessage, PlainRole, IsExecutionResult;
    var a, b := Label(m), Label(n);
    LabelRendered(m);
    LabelRendered(n);
    LabelsAgree(a, m.content + "\n\n", b, n.content + "\n\n");
    assert (m.content + "\n\n")[..|m.content|] == m.content && (n.content + "\n\n")[..|n.content|] == n.content;
    LabelSays(m);
    LabelSays(n);
  }

  function Label(m: Message): string { if IsExecutionResult(m) then "execution result" else m.role }

  lemma LabelRendered(m: Message)
    requires PlainRole(m.role)
    ensures ']' !in Label(m) && RenderMessage(m) == "[" + Label(m) + "]" + ("\n" + (m.content + "\n\n"))
  {
    assert ']' !in "execution result";
    assert "]" + "\n" == "]\n";
  }

  lemma LabelSays(m: Message)
    requires PlainRole(m.role)
    ensures m.role == if Label(m) == "execution result" then "user" else Label(m)
  {}

  lemma LabelsAgree(a: string, x: string, b: string, y: string)
    requires ']' !in a && ']' !in b && "[" + a + "]" + ("\n" + x) == "[" + b + "]" + ("\n" + y)
    ensures a == b && x == y
  {
    var s, t := "[" + a + "]" + ("\n" + x), "[" + b + "]" + ("\n" + y);
    assert s[1 + |a|] == ']' && t[1 + |b|] == ']';
    assert forall i | 0 <= i < |a| :: s[1 + i] == a[i];
    assert forall i | 0 <= i < |b| :: t[1 + i] == b[i];
    assert |a| == |b|;
    assert s[1..1 + |a|] == a && t[1..1 + |b|] == b;
    assert s[|a| + 3..] == x && t[|b| + 3..] == y;
  }

  // ---- eliding the middle of one message ----

  function Omitted(n: nat): string {
    "\n\n[... " + Decimal(n) + " bytes of the middle of this transcript omitted ...]\n\n"
  }

  /** The first and last halves of `keep` bytes of s. */
  function ElideTo(s: string, keep: nat): string {
    if keep >= |s| then s
    else
      var half := keep / 2;
      s[..half] + Omitted(|s| - keep) + s[|s| - (keep - half)..]
  }

  lemma OmittedLength(n: nat)
    ensures 0 < |Omitted(n)| == |Omitted(0)| - 1 + |Decimal(n)|
  {}

  /** Keeping more bytes never makes the result shorter, although the count in the marker may lose
      a digit; only keeping all of them (which drops the marker) can. */
  lemma {:induction false} ElideLengthGrows(s: string, j: nat, k: nat)
    requires j <= k < |s|
    ensures |ElideTo(s, j)| <= |ElideTo(s, k)|
    ensures |s| < |ElideTo(s, k)| + |s| - k
    decreases k - j
  {
    hide Decimal, Omitted, ElideTo;
    ElideLength(s, k);
    OmittedLength(|s| - k);
    if j < k {
      ElideLengthGrows(s, j, k - 1);
      ElideLength(s, k - 1);
      OmittedLength(|s| - (k - 1));
      DecimalStep(|s| - k);
    }
  }

  lemma ElideLength(s: string, keep: nat)
    requires keep < |s|
    ensures |ElideTo(s, keep)| == keep + |Omitted(|s| - keep)|
  {
    hide Omitted;
  }

  predicate ElisionFits(s: string, max: int, est: Estimator, keep: nat) {
    est(ElideTo(s, keep)) <= max
  }

  lemma FitsDownward(s: string, max: int, est: Estimator, j: nat, k: nat)
    requires Monotone(est) && est(s) > max && j <= k <= |s| && ElisionFits(s, max, est, k)
    ensures ElisionFits(s, max, est, j)
  {
    hide Omitted, ElideTo;
    assert ElideTo(s, |s|) == s by { ElideAll(s); }
    ElideLengthGrows(s, j, k);
    MonotoneAt(est, ElideTo(s, j), ElideTo(s, k));
  }

  lemma ElideAll(s: string)
    ensures ElideTo(s, |s|) == s
  {}

  ghost predicate BestElision(s: string, max: int, est: Estimator, keep: nat) {
    && (keep > 0 ==> ElisionFits(s, max, est, keep))
    && (forall k: nat | keep < k <= |s| :: !ElisionFits(s, max, est, k))
  }

  /** The result is s itself if s fits; else s cut down, to the largest number of kept bytes that
      fits if the estimator is monotone (or to the bare marker when nothing fits). */
  ghost predicate IsElision(s: string, max: int, est: Estimator, r: string) {
    if est(s) <= max then r == s
    else
      exists keep: nat | keep <= |s| ::
        r == ElideTo(s, keep) && (Monotone(est) ==> BestElision(s, max, est, keep))
  }

  /** r keeps the first a and the last b bytes of s, as even as they can be, around the count of the rest. */
  ghost predicate BothEnds(s: string, r: string, a: nat, b: nat) {
    a + b < |s| && 0 <= b - a <= 1 && r == s[..a] + Omitted(|s| - a - b) + s[|s| - b..]
  }

  lemma ElisionShape(s: string, keep: nat)
    ensures ElideTo(s, keep) == s || exists a: nat, b: nat :: BothEnds(s, ElideTo(s, keep), a, b)
  {
    if keep < |s| { assert BothEnds(s, ElideTo(s, keep), keep / 2, keep - keep / 2); }
  }

  method ElideMiddle(s: string, max: int, est: Estimator) returns (best: string)
    ensures IsElision(s, max, est, best)
    ensures best == s || exists a: nat, b: nat :: BothEnds(s, best, a, b)
  {
    hide Omitted, ElideTo, Monotone, BothEnds;
    if est(s) <= max { return s; }
    ElideAll(s);
    var lo: int, hi: int := 0, |s|;
    best := ElideTo(s, 0);
    ghost var kept: nat := 0;
    while lo <= hi
      invariant 0 <= lo <= hi + 1 <= |s| + 1
      invariant best == ElideTo(s, kept) && kept <= |s|
      invariant kept == if lo == 0 then 0 else lo - 1
      invariant lo > 0 ==> ElisionFits(s, max, est, kept)
      invariant Monotone(est) ==> forall k: nat | hi < k <= |s| :: !ElisionFits(s, max, est, k)
    {
      var mid := (lo + hi) / 2;
      var candidate := ElideTo(s, mid);
      if est(candidate) <= max {
        best := candidate;
        kept := mid;
        lo := mid + 1;
      } else {
        forall k: nat | Monotone(est) && mid < k <= |s| ensures !ElisionFits(s, max, est, k) {
          if ElisionFits(s, max, est, k) { FitsDownward(s, max, est, mid, k); }
        }
        hi := mid - 1;
      }
    }
    assert kept == hi || (kept == 0 && hi == -1);
    ElisionShape(s, kept);
    assert Monotone(est) ==> BestElision(s, max, est, kept);
  }

  /** The elision is within the limit exactly when the message fits or the bare marker does. */
  lemma ElisionBoundedIff(s: string, max: int, est: Estimator, r: string)
    requires Monotone(est) && IsElision(s, max, est, r)
    ensures est(r) <= max <==> est(s) <= max || est(ElideTo(s, 0)) <= max
  {
    hide ElideTo, Omitted, Monotone;
    if est(s) > max {
      var keep: nat :| keep <= |s| && r == ElideTo(s, keep) && BestElision(s, max, est, keep);
      if keep > 0 {
        FitsDownward(s, max, est, 0, keep);
      } else if s != "" {
        assert !ElisionFits(s, max, est, |s|);
      }
    }
  }

  // ---- cutting the transcript into chunks ----

  /** A chunk holds the messages lo..hi whole: a single one, or several that fit together. */
  datatype Span = Span(lo: nat, hi: nat)

  ghost predicate ChunkOf(ms: seq<Message>, allowance: int, est: Estimator, sp: Span, chunk: string) {
    && sp.lo < sp.hi <= |ms|
    && if est(RenderMessage(ms[sp.lo])) > allowance
       then sp.hi == sp.lo + 1 && IsElision(RenderMessage(ms[sp.lo]), allowance, est, chunk)
       else chunk == RenderTranscript(ms[sp.lo..sp.hi])
            && (forall i | sp.lo <= i < sp.hi :: est(RenderMessage(ms[i])) <= allowance)
            && Parts(ms, est, sp.lo, sp.hi) <= allowance
  }

  /** What the messages lo..hi cost when each is estimated on its own. */
  function Parts(ms: seq<Message>, est: Estimator, lo: nat, hi: nat): nat
    requires lo <= hi <= |ms|
  {
    if lo == hi then 0 else Parts(ms, est, lo, hi - 1) + est(RenderMessage(ms[hi - 1]))
  }

  /** spans cover the first n messages in order, without gap or overlap, chunk by chunk. */
  ghost predicate Cover(ms: seq<Message>, allowance: int, est: Estimator, chunks: seq<string>, spans: seq<Span>,
                        n: nat) {
    && |spans| == |chunks|
    && (forall i | 0 <= i < |spans| :: ChunkOf(ms, allowance, est, spans[i], chunks[i]))
    && (forall i | 0 < i < |spans| :: spans[i].lo == spans[i - 1].hi)
    && (if spans == [] then n == 0 else spans[0].lo == 0 && spans[|spans| - 1].hi == n)
  }

  lemma CoverSnoc(ms: seq<Message>, allowance: int, est: Estimator, chunks: seq<string>, spans: seq<Span>, sp: Span,
                  chunk: string)
    requires Cover(ms, allowance, est, chunks, spans, sp.lo) && ChunkOf(ms, allowance, est, sp, chunk)
    ensures Cover(ms, allowance, est, chunks + [chunk], spans + [sp], sp.hi)
  {
    assert sp.lo <= sp.hi <= |ms|;
    hide ChunkOf;
  }

  lemma {:induction false} RenderSnoc(a: seq<Message>, m: Message)
    ensures RenderTranscript(a + [m]) == RenderTranscript(a) + RenderMessage(m)
  {
    if a == [] {
      assert [m][1..] == [];
      assert a + [m] == [m];
    } else {
      assert (a + [m])[1..] == a[1..] + [m];
      RenderSnoc(a[1..], m);
    }
  }

  lemma OneMoreMessage(ms: seq<Message>, lo: nat, hi: nat)
    requires lo <= hi < |ms|
    ensures RenderTranscript(ms[lo..hi + 1]) == RenderTranscript(ms[lo..hi]) + RenderMessage(ms[hi])
  {
    hide *;
    assert ms[lo..hi + 1] == ms[lo..hi] + [ms[hi]];
    RenderSnoc(ms[lo..hi], ms[hi]);
  }

  method TranscriptChunks(ms: seq<Message>, allowance: int, est: Estimator)
    returns (chunks: seq<string>, ghost spans: seq<Span>)
    ensures if ms == [] then chunks == [""] else Cover(ms, allowance, est, chunks, spans, |ms|)
    ensures |chunks| >= 1
  {
    hide RenderMessage, IsElision, Monotone, RenderTranscript, BothEnds;
    chunks, spans := [], [];
    var cur, curTokens := "", 0;
    ghost var start := 0;
    RenderNone();
    var i := 0;
    while i < |ms|
      invariant 0 <= start <= i <= |ms|
      invariant Cover(ms, allowance, est, chunks, spans, start)
      invariant cur == RenderTranscript(ms[start..i]) && curTokens == Parts(ms, est, start, i)
      invariant cur == "" <==> start == i
      invariant curTokens <= allowance || start == i
      invariant forall n | start <= n < i :: est(RenderMessage(ms[n])) <= allowance
    {
      var part := RenderMessage(ms[i]);
      var n := est(part);
      if n > allowance {
        if |cur| > 0 {
          CoverSnoc(ms, allowance, est, chunks, spans, Span(start, i), cur);
          chunks, spans := chunks + [cur], spans + [Span(start, i)];
          cur, curTokens := "", 0;
        }
        var elided := ElideMiddle(part, allowance, est);
        CoverSnoc(ms, allowance, est, chunks, spans, Span(i, i + 1), elided);
        chunks, spans := chunks + [elided], spans + [Span(i, i + 1)];
        start := i + 1;
        assert ms[i + 1..i + 1] == [];
      } else {
        if curTokens + n > allowance {
          if |cur| > 0 {
            CoverSnoc(ms, allowance, est, chunks, spans, Span(start, i), cur);
            chunks, spans := chunks + [cur], spans + [Span(start, i)];
            cur, curTokens := "", 0;
            start := i;
            assert ms[i..i] == [];
          }
        }
        OneMoreMessage(ms, start, i);
        cur := cur + part;
        curTokens := curTokens + n;
      }
      i := i + 1;
    }
    if |cur| > 0 {
      CoverSnoc(ms, allowance, est, chunks, spans, Span(start, i), cur);
      chunks, spans := chunks + [cur], spans + [Span(start, i)];
    }
    assert ms != [] ==> spans != [];
    if |chunks| == 0 { chunks := [""]; }
  }

  lemma RenderNone()
    ensures RenderTranscript([]) == ""
  {}

  lemma {:induction false} RenderAppend(a: seq<Message>, b: seq<Message>)
    ensures RenderTranscript(a + b) == RenderTranscript(a) + RenderTranscript(b)
  {
    hide RenderMessage;
    if a == [] {
      assert a + b == b;
    } else {
      assert (a + b)[1..] == a[1..] + b;
      RenderAppend(a[1..], b);
    }
  }

  /** When no message is oversized, the chunks put end to end are exactly the simple transcript. */
  lemma {:induction false} ChunksRefineTranscript(ms: seq<Message>, allowance: int, est: Estimator,
      chunks: seq<string>, spans: seq<Span>, n: nat)
    requires n <= |ms| && Cover(ms, allowance, est, chunks, spans, n)
    requires forall i | 0 <= i < |ms| :: est(RenderMessage(ms[i])) <= allowance
    ensures Concat(chunks) == RenderTranscript(ms[..n])
    decreases |chunks|
  {
    hide RenderMessage, RenderTranscript, ChunkOf;
    if chunks == [] {
      assert ms[..0] == [];
      RenderNone();
    } else {
      var last := |chunks| - 1;
      var lo := spans[last].lo;
      LastChunk(ms, allowance, est, chunks, spans, n);
      hide *;
      ChunksRefineTranscript(ms, allowance, est, chunks[..last], spans[..last], lo);
      assert chunks == chunks[..last] + [chunks[last]];
      ConcatSnoc(chunks[..last], chunks[last]);
      assert ms[..n] == ms[..lo] + ms[lo..n];
      RenderAppend(ms[..lo], ms[lo..n]);
    }
  }

  lemma LastChunk(ms: seq<Message>, allowance: int, est: Estimator, chunks: seq<string>, spans: seq<Span>, n: nat)
    requires n <= |ms| && Cover(ms, allowance, est, chunks, spans, n) && chunks != []
    requires forall i | 0 <= i < |ms| :: est(RenderMessage(ms[i])) <= allowance
    ensures |spans| == |chunks|
    ensures var last := |chunks| - 1;
            var lo := spans[last].lo;
            lo <= n && Cover(ms, allowance, est, chunks[..last], spans[..last], lo)
                && chunks[last] == RenderTranscript(ms[lo..n])
  {
    hide RenderMessage;
  }

  lemma {:induction false} PartsBound(ms: seq<Message>, est: Estimator, lo: nat, hi: nat)
    requires lo < hi <= |ms| && Subadditive(est)
    ensures est(RenderTranscript(ms[lo..hi])) <= Parts(ms, est, lo, hi)
    decreases hi - lo
  {
    hide RenderMessage;
    assert ms[lo..hi] == ms[lo..hi - 1] + [ms[hi - 1]];
    RenderSnoc(ms[lo..hi - 1], ms[hi - 1]);
    if lo == hi - 1 {
      assert ms[lo..lo] == [];
      assert "" + RenderMessage(ms[lo]) == RenderMessage(ms[lo]);
    } else {
      PartsBound(ms, est, lo, hi - 1);
      assert est(RenderTranscript(ms[lo..hi - 1]) + RenderMessage(ms[hi - 1]))
             <= est(RenderTranscript(ms[lo..hi - 1])) + est(RenderMessage(ms[hi - 1]));
    }
  }

  /** Every chunk fits one call, provided the marker of an oversized message does. */
  lemma ChunkWithinAllowance(ms: seq<Message>, allowance: int, est: Estimator, sp: Span, chunk: string)
    requires Monotone(est) && Subadditive(est) && ChunkOf(ms, allowance, est, sp, chunk)
    requires est(RenderMessage(ms[sp.lo])) > allowance ==> est(ElideTo(RenderMessage(ms[sp.lo]), 0)) <= allowance
    ensures est(chunk) <= allowance
  {
    hide RenderMessage, ElideTo;
    if est(RenderMessage(ms[sp.lo])) > allowance {
      ElisionBoundedIff(RenderMessage(ms[sp.lo]), allowance, est, chunk);
    } else {
      PartsBound(ms, est, sp.lo, sp.hi);
    }
  }
}
