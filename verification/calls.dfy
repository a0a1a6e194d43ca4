/** compact.go: whether what a summarization call is sent fits one call (chunkBounds, groupParts). */
module Calls {
  import opened Text
  import opened Messages
  import opened Budget
  import opened Fold
  import opened Summarize

  // ---- chunk calls ----

  /** The tokens one call may take: what the budget leaves for a prompt, or the default. */
  function Room(b: ContextBudget): int { if b.Enabled() then b.Allowance() else 50_000 }

  /** The request of a call. */
  function Request(prompt: string, body: string): seq<Message> {
    [Message("system", prompt), Message("user", body)]
  }

  lemma RequestTotal(est: Estimator, prompt: string, body: string)
    ensures Total(est, Request(prompt, body)) == est(prompt) + est(body) + 8
  {
    var r := Request(prompt, body);
    TotalOfEnds(est, r);
    assert r[1..|r| - 1] == [];
  }

  /** The allowance for a transcript is the floor, or the most that fits one call beside either
      instruction. */
  lemma AllowanceLeavesRoom(b: ContextBudget, compactPrompt: string, mergePrompt: string, body: string)
    ensures var a, est := ChunkAllowance(b, compactPrompt, mergePrompt), b.Est();
            && a >= 1000
            && (a > 1000 && est(body) <= a ==>
                  && Total(est, Request(compactPrompt, body)) <= Room(b)
                  && Total(est, Request(mergePrompt, body)) <= Room(b))
            && (est(body) > a ==>
                  || Total(est, Request(compactPrompt, body)) > Room(b)
                  || Total(est, Request(mergePrompt, body)) > Room(b))
  {
    RequestTotal(b.Est(), compactPrompt, body);
    RequestTotal(b.Est(), mergePrompt, body);
    hide Request, Total, EstimateTokens;
  }

  /** One of several chunks goes out behind a line that says which it is, and that line is not charged:
      with the default estimator the call of a compact instruction no shorter than the other stays within
      its room exactly when chunk and line together do, so a full chunk never does. */
  lemma PartCallFitsIff(b: ContextBudget, compactPrompt: string, mergePrompt: string, chunks: seq<string>, i: nat)
    requires b.estimate == None && EstimateTokens(compactPrompt) >= EstimateTokens(mergePrompt)
    requires |chunks| >= 2 && i < |chunks| && ChunkAllowance(b, compactPrompt, mergePrompt) > 1000
    ensures var a := ChunkAllowance(b, compactPrompt, mergePrompt);
            var fits := Total(EstimateTokens, Request(compactPrompt, ChunkBodies(chunks)[i])) <= Room(b);
            var line := "Part " + Decimal(i + 1) + " of " + Decimal(|chunks|) + " of the earlier transcript.\n\n";
            && (fits <==> |chunks[i]| + |line| <= 4 * a)
            && (|chunks[i]| == 4 * a ==> EstimateTokens(chunks[i]) == a && !fits)
  {
    ChunkBodyMeans(chunks, i);
    var body := ChunkBodies(chunks)[i];
    RequestTotal(EstimateTokens, compactPrompt, body);
    hide Request, Total, Decimal, ChunkBodies;
    assert b.Est() == EstimateTokens;
  }

  // ---- merge calls ----

  lemma {:induction false} DecimalShort(n: nat)
    ensures n < 10 ==> |Decimal(n)| == 1
    ensures n >= 10 ==> |Decimal(n)| >= 2
  {}

  function Bytes(parts: seq<string>): nat {
    if parts == [] then 0 else |parts[0]| + Bytes(parts[1..])
  }

  /** With at most nine parts each label and the blank line behind its part are sixteen bytes; with more
      they are at least seventeen. */
  lemma {:induction false} LabelledLength(parts: seq<string>, i: nat)
    requires i <= |parts|
    ensures |parts| <= 9 ==> |Labelled(parts, i)| == 16 * (|parts| - i) + Bytes(parts[i..])
    ensures |parts| >= 10 ==> |Labelled(parts, i)| >= 17 * (|parts| - i) + Bytes(parts[i..])
    decreases |parts| - i
  {
    if i < |parts| {
      LabelledLength(parts, i + 1);
      DecimalShort(i + 1);
      DecimalShort(|parts|);
      assert parts[i..][1..] == parts[i + 1..];
      hide Decimal;
    }
  }

  /** A group costs four tokens and its bytes, part by part, rounded up. */
  lemma {:induction false} GroupBytes(parts: seq<string>)
    ensures 4 * GroupCost(EstimateTokens, parts) >= 16 * |parts| + Bytes(parts)
    decreases |parts|
  {
    if parts != [] {
      var n := |parts| - 1;
      GroupBytes(parts[..n]);
      BytesSnoc(parts[..n], parts[n]);
      assert parts[..n] + [parts[n]] == parts;
      hide GroupCost;
      CostSnoc(EstimateTokens, parts[..n], parts[n]);
    }
  }

  lemma {:induction false} BytesSnoc(parts: seq<string>, p: string)
    ensures Bytes(parts + [p]) == Bytes(parts) + |p|
  {
    if parts == [] {
      assert [p][1..] == [] && parts + [p] == [p];
    } else {
      assert (parts + [p])[1..] == parts[1..] + [p];
      BytesSnoc(parts[1..], p);
    }
  }

  lemma TrimShorter(s: string)
    ensures |TrimSpace(s)| <= |s|
  {}

  lemma SmallGroupFits(parts: seq<string>)
    requires |parts| <= 9
    ensures EstimateTokens(JoinParts(parts)) <= GroupCost(EstimateTokens, parts)
  {
    if |parts| == 1 {
      assert parts == [] + [parts[0]];
      CostSnoc(EstimateTokens, [], parts[0]);
    } else {
      LabelledLength(parts, 0);
      assert parts[0..] == parts;
      GroupBytes(parts);
      TrimShorter(Labelled(parts, 0));
      hide GroupCost, Labelled, Bytes, TrimSpace;
    }
  }

  function Words(n: nat): (ws: seq<string>)
    ensures |ws| == n && forall i | 0 <= i < n :: ws[i] == "word"
  {
    if n == 0 then [] else Words(n - 1) + ["word"]
  }

  lemma {:induction false} WordsCost(n: nat)
    ensures GroupCost(EstimateTokens, Words(n)) == 5 * n && Bytes(Words(n)) == 4 * n
  {
    if n > 0 {
      WordsCost(n - 1);
      CostSnoc(EstimateTokens, Words(n - 1), "word");
      BytesSnoc(Words(n - 1), "word");
    }
  }

  /** What follows the last word: two line ends. */
  lemma {:induction false} LabelledEnds(n: nat, i: nat)
    requires i < n
    ensures var s := Labelled(Words(n), i);
            |s| >= 6 && s[0] == '[' && s[|s| - 3] == 'd'
    decreases n - i
  {
    hide Decimal;
    var ws := Words(n);
    var head := "[part " + Decimal(i + 1) + " of " + Decimal(n) + "]\n";
    var rest := Labelled(ws, i + 1);
    var s := Labelled(ws, i);
    assert s == head + "word" + "\n\n" + rest && head[0] == '[';
    if i + 1 < n {
      LabelledEnds(n, i + 1);
      assert s[|s| - 3] == rest[|rest| - 3];
    }
  }

  lemma WordsOverflow(n: nat)
    requires n >= 10
    ensures EstimateTokens(JoinParts(Words(n))) > GroupCost(EstimateTokens, Words(n))
  {
    hide *;
    var s := Labelled(Words(n), 0);
    LabelledEnds(n, 0);
    LabelledLength(Words(n), 0);
    assert |Words(n)| == n by { WordsCount(n); }
    assert Words(n)[0..] == Words(n);
    WordsCost(n);
    JoinIs(Words(n));
    TrimmedAtMostTwo(s);
    LongText(TrimSpace(s), 21 * n - 2);
  }

  lemma WordsCount(n: nat)
    ensures |Words(n)| == n
  {}

  lemma JoinIs(parts: seq<string>)
    requires |parts| > 1
    ensures JoinParts(parts) == TrimSpace(Labelled(parts, 0))
  {}

  lemma TrimmedAtMostTwo(s: string)
    requires |s| >= 6 && s[0] == '[' && s[|s| - 3] == 'd'
    ensures |TrimSpace(s)| >= |s| - 2
  {
    assert TrimLeft(s) == s;
    TrimRightKeepsUpTo(s, |s| - 3);
  }

  lemma LongText(s: string, n: nat)
    requires |s| >= n
    ensures 4 * EstimateTokens(s) >= n
  {}

  /** The merge call of a group is never dearer than the group was counted, with the default estimator,
      exactly for groups of at most nine parts: from ten on a label takes more than the four tokens a part
      is charged, so a group that just fits its call overflows it. */
  lemma MergeCallFitsIff(n: nat)
    ensures (forall g: seq<string> | |g| == n :: EstimateTokens(JoinParts(g)) <= GroupCost(EstimateTokens, g))
            <==> n <= 9
  {
    hide JoinParts, GroupCost, EstimateTokens;
    if n <= 9 {
      forall g: seq<string> | |g| == n ensures EstimateTokens(JoinParts(g)) <= GroupCost(EstimateTokens, g) {
        SmallGroupFits(g);
      }
    } else {
      WordsOverflow(n);
      assert |Words(n)| == n;
    }
  }
}
