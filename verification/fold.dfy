/** compact.go: batching partial summaries greedily and folding them until one remains. */
module Fold {
  import opened Text
  import opened Messages

  // ---- grouping ----

  function PartCost(est: Estimator, p: string): nat { est(p) + FRAME_TOKENS }

  function GroupCost(est: Estimator, g: seq<string>): nat {
    if g == [] then 0 else GroupCost(est, g[..|g| - 1]) + PartCost(est, g[|g| - 1])
  }

  /** Close the current group when the next part no longer fits in it. */
  function Greedy(allowance: int, est: Estimator, cur: seq<string>, rest: seq<string>): seq<seq<string>>
    decreases |rest|
  {
    if rest == [] then (if cur == [] then [] else [cur])
    else if cur != [] && GroupCost(est, cur) + PartCost(est, rest[0]) > allowance
    then [cur] + Greedy(allowance, est, [rest[0]], rest[1..])
    else Greedy(allowance, est, cur + [rest[0]], rest[1..])
  }

  method GroupParts(parts: seq<string>, allowance: int, est: Estimator) returns (groups: seq<seq<string>>)
    ensures groups == Greedy(allowance, est, [], parts)
  {
    NoCost(est);
    hide GroupCost, Greedy;
    groups := [];
    var cur, curTokens := [], 0;
    assert parts[0..] == parts;
    var i := 0;
    while i < |parts|
      invariant 0 <= i <= |parts| && curTokens == GroupCost(est, cur)
      invariant Greedy(allowance, est, [], parts) == groups + Greedy(allowance, est, cur, parts[i..])
    {
      var p := parts[i];
      var n := est(p) + FRAME_TOKENS;
      GreedyStep(allowance, est, cur, parts, i);
      if |cur| > 0 && curTokens + n > allowance {
        groups := groups + [cur];
        cur, curTokens := [], 0;
      }
      CostSnoc(est, cur, p);
      assert [] + [p] == [p];
      cur := cur + [p];
      curTokens := curTokens + n;
      i := i + 1;
    }
    GreedyEnd(allowance, est, cur, parts);
    if |cur| > 0 { groups := groups + [cur]; }
  }

  lemma GreedyEnd(allowance: int, est: Estimator, cur: seq<string>, parts: seq<string>)
    ensures Greedy(allowance, est, cur, parts[|parts|..]) == if cur == [] then [] else [cur]
  {}

  lemma GreedyStep(allowance: int, est: Estimator, cur: seq<string>, parts: seq<string>, i: nat)
    requires i < |parts|
    ensures Greedy(allowance, est, cur, parts[i..]) ==
            if cur != [] && GroupCost(est, cur) + PartCost(est, parts[i]) > allowance
            then [cur] + Greedy(allowance, est, [parts[i]], parts[i + 1..])
            else Greedy(allowance, est, cur + [parts[i]], parts[i + 1..])
  {
    assert parts[i..][1..] == parts[i + 1..];
  }

  function Flatten(gs: seq<seq<string>>): seq<string> {
    if gs == [] then [] else gs[0] + Flatten(gs[1..])
  }

  predicate FitsOneCall(allowance: int, est: Estimator, g: seq<string>) {
    g != [] && (|g| == 1 || GroupCost(est, g) <= allowance)
  }

  /** gs cuts parts, in order and without loss, into groups that are singletons or fit one call. */
  predicate ValidPartition(allowance: int, est: Estimator, parts: seq<string>, gs: seq<seq<string>>) {
    && Flatten(gs) == parts
    && forall i | 0 <= i < |gs| :: FitsOneCall(allowance, est, gs[i])
  }

  lemma {:induction false} GreedyValid(allowance: int, est: Estimator, cur: seq<string>, rest: seq<string>)
    requires cur == [] || FitsOneCall(allowance, est, cur)
    ensures ValidPartition(allowance, est, cur + rest, Greedy(allowance, est, cur, rest))
    decreases |rest|
  {
    hide GroupCost;
    if rest == [] {
      assert cur + rest == cur;
      FlattenOne(cur);
    } else {
      var x := rest[0];
      assert rest == [x] + rest[1..];
      if cur != [] && GroupCost(est, cur) + PartCost(est, x) > allowance {
        GreedyValid(allowance, est, [x], rest[1..]);
        var tail := Greedy(allowance, est, [x], rest[1..]);
        assert ([cur] + tail)[1..] == tail;
      } else {
        CostSnoc(est, cur, x);
        GreedyValid(allowance, est, cur + [x], rest[1..]);
        assert cur + [x] + rest[1..] == cur + rest;
      }
    }
  }

  lemma FlattenOne(g: seq<string>)
    ensures Flatten([g]) == g
  {
    assert [g][1..] == [];
    assert g + [] == g;
  }

  lemma CostSnoc(est: Estimator, g: seq<string>, x: string)
    ensures GroupCost(est, g + [x]) == GroupCost(est, g) + PartCost(est, x)
  {
    assert (g + [x])[..|g|] == g;
  }

  lemma {:induction false} CostAppend(est: Estimator, a: seq<string>, b: seq<string>)
    ensures GroupCost(est, a + b) == GroupCost(est, a) + GroupCost(est, b)
    decreases |b|
  {
    if b == [] {
      assert a + b == a;
    } else {
      var b0, x := b[..|b| - 1], b[|b| - 1];
      assert a + b == a + b0 + [x];
      CostSnoc(est, a + b0, x);
      CostAppend(est, a, b0);
    }
  }

  /** A group that covers cur and the part after it costs at least as much as those. */
  lemma CoveringCosts(est: Estimator, g: seq<string>, d: seq<string>, cur: seq<string>, x: string)
    requires |g| > |d| + |cur| && d + cur + [x] == g[..|d| + |cur| + 1]
    ensures GroupCost(est, g) >= GroupCost(est, cur) + PartCost(est, x)
  {
    var n := |d| + |cur| + 1;
    assert g == g[..n] + g[n..];
    CostAppend(est, g[..n], g[n..]);
    CostSnoc(est, d + cur, x);
    CostAppend(est, d, cur);
  }

  /** Greedy stays ahead: a valid partition of a list that starts no later than the greedy group
      under construction has at least as many groups. */
  lemma {:induction false} GreedyAhead(allowance: int, est: Estimator, d: seq<string>, cur: seq<string>,
                                       rest: seq<string>, gs: seq<seq<string>>)
    requires cur != [] && ValidPartition(allowance, est, d + cur + rest, gs)
    ensures |Greedy(allowance, est, cur, rest)| <= |gs|
    decreases |rest|, |gs|
  {
    hide GroupCost;
    assert gs != [];
    if rest != [] {
      var x, rest1 := rest[0], rest[1..];
      assert rest == [x] + rest1;
      if GroupCost(est, cur) + PartCost(est, x) > allowance {
        var g, n := gs[0], |gs[0]|;
        var all := d + cur + rest;
        assert all == g + Flatten(gs[1..]);
        assert all[n..] == Flatten(gs[1..]) && all[..n] == g;
        if n <= |d| {
          assert all[n..] == d[n..] + cur + rest;
          GreedyAhead(allowance, est, d[n..], cur, rest, gs[1..]);
        } else if n <= |d| + |cur| {
          var d1 := cur[n - |d|..];
          assert all[n..] == d1 + [x] + rest1;
          GreedyAhead(allowance, est, d1, [x], rest1, gs[1..]);
        } else {
          assert d + cur + [x] == g[..|d| + |cur| + 1];
          CoveringCosts(est, g, d, cur, x);
          assert false;
        }
      } else {
        assert d + (cur + [x]) + rest1 == d + cur + rest;
        GreedyAhead(allowance, est, d, cur + [x], rest1, gs);
      }
    }
  }

  /** groupParts returns a valid partition, and none has fewer groups. */
  lemma GroupingOptimal(allowance: int, est: Estimator, parts: seq<string>, gs: seq<seq<string>>)
    requires ValidPartition(allowance, est, parts, gs)
    ensures ValidPartition(allowance, est, parts, Greedy(allowance, est, [], parts))
    ensures |Greedy(allowance, est, [], parts)| <= |gs|
  {
    assert [] + parts == parts;
    GreedyValid(allowance, est, [], parts);
    if parts != [] {
      assert [] + [parts[0]] == [parts[0]];
      assert [] + [parts[0]] + parts[1..] == parts;
      GreedyAhead(allowance, est, [], [parts[0]], parts[1..], gs);
    }
  }

  // ---- how far one round shrinks the list ----

  /** The number of blocks of k that n parts make: n / k rounded up. */
  function BlockCount(n: nat, k: nat): (c: nat)
    requires k >= 1
    ensures c <= n && (n > 0 ==> c > 0)
    decreases n
  {
    if n == 0 then 0 else if n <= k then 1 else 1 + BlockCount(n - k, k)
  }

  lemma {:induction false} BlockCountIsCeiling(n: nat, k: nat)
    requires k >= 1 && n >= 1
    ensures k * (BlockCount(n, k) - 1) < n <= k * BlockCount(n, k)
    decreases n
  {
    if n > k { BlockCountIsCeiling(n - k, k); }
  }

  lemma {:induction false} BlockCountBound(n: nat, k: nat, m: nat)
    requires k >= 1 && n <= k * m
    ensures BlockCount(n, k) <= m
    decreases m
  {
    if n > k {
      assert k * m - k == k * (m - 1);
      BlockCountBound(n - k, k, m - 1);
    } else if n > 0 {
      assert m > 0;
    }
  }

  function Blocks(parts: seq<string>, k: nat): (gs: seq<seq<string>>)
    requires k >= 1
    ensures |gs| == BlockCount(|parts|, k)
    decreases |parts|
  {
    if parts == [] then [] else if |parts| <= k then [parts] else [parts[..k]] + Blocks(parts[k..], k)
  }

  predicate SmallParts(allowance: int, est: Estimator, parts: seq<string>, k: nat) {
    forall i | 0 <= i < |parts| :: k * PartCost(est, parts[i]) <= allowance
  }

  lemma {:induction false} SmallGroupCost(allowance: int, est: Estimator, g: seq<string>, k: nat)
    requires SmallParts(allowance, est, g, k) && 1 <= |g|
    ensures k * GroupCost(est, g) <= |g| * allowance
    decreases |g|
  {
    hide GroupCost, PartCost;
    var g0, x := g[..|g| - 1], g[|g| - 1];
    assert g == g0 + [x];
    CostSnoc(est, g0, x);
    Distribute(k, GroupCost(est, g0), PartCost(est, x));
    Distribute(allowance, |g0|, 1);
    if g0 == [] {
      NoCost(est);
    } else {
      forall i | 0 <= i < |g0| ensures k * PartCost(est, g0[i]) <= allowance { assert g0[i] == g[i]; }
      SmallGroupCost(allowance, est, g0, k);
    }
  }

  lemma NoCost(est: Estimator)
    ensures GroupCost(est, []) == 0
  {}

  lemma Distribute(k: int, a: int, b: int)
    ensures k * (a + b) == k * a + k * b
  {}

  lemma SmallGroupFits(allowance: int, est: Estimator, g: seq<string>, k: nat)
    requires SmallParts(allowance, est, g, k) && 1 <= |g| <= k
    ensures FitsOneCall(allowance, est, g)
  {
    SmallGroupCost(allowance, est, g, k);
    var c := GroupCost(est, g);
    assert k * PartCost(est, g[0]) >= 0;
    MulMonotone(|g|, k, allowance);
    if c > allowance { MulStrict(k, allowance, c); }
  }

  lemma MulMonotone(a: nat, b: nat, m: int)
    requires a <= b && m >= 0
    ensures a * m <= b * m
  {
    assert (b - a) * m >= 0;
  }

  lemma MulStrict(k: nat, a: int, b: int)
    requires k >= 1 && a < b
    ensures k * a < k * b
  {
    assert k * (b - a) >= b - a;
  }

  lemma {:induction false} BlocksValid(allowance: int, est: Estimator, parts: seq<string>, k: nat)
    requires k >= 1 && SmallParts(allowance, est, parts, k)
    ensures ValidPartition(allowance, est, parts, Blocks(parts, k))
    decreases |parts|
  {
    hide GroupCost;
    if parts == [] {
    } else if |parts| <= k {
      SmallGroupFits(allowance, est, parts, k);
      FlattenOne(parts);
    } else {
      var a, b := parts[..k], parts[k..];
      assert parts == a + b;
      SmallGroupFits(allowance, est, a, k);
      BlocksValid(allowance, est, b, k);
      assert ([a] + Blocks(b, k))[1..] == Blocks(b, k);
    }
  }

  /** If k parts always fit together, a round leaves at most one k-th of them, rounded up. */
  lemma RoundShrinks(allowance: int, est: Estimator, parts: seq<string>, k: nat)
    requires k >= 1 && SmallParts(allowance, est, parts, k)
    ensures |Greedy(allowance, est, [], parts)| <= BlockCount(|parts|, k)
    ensures parts != [] ==> k * (|Greedy(allowance, est, [], parts)| - 1) < |parts|
  {
    hide *;
    BlocksValid(allowance, est, parts, k);
    var rounds := Blocks(parts, k);
    GroupingOptimal(allowance, est, parts, rounds);
    if parts != [] {
      BlockCountIsCeiling(|parts|, k);
      GreedyNonEmpty(allowance, est, parts);
      MulMonotone(|Greedy(allowance, est, [], parts)| - 1, BlockCount(|parts|, k) - 1, k);
    }
  }

  lemma GreedyNonEmpty(allowance: int, est: Estimator, parts: seq<string>)
    requires parts != []
    ensures 1 <= |Greedy(allowance, est, [], parts)| <= |parts|
  {
    Singletons(allowance, est, parts);
    GroupingOptimal(allowance, est, parts, Blocks(parts, 1));
  }

  /** One part per group is always a valid partition. */
  lemma {:induction false} Singletons(allowance: int, est: Estimator, parts: seq<string>)
    ensures ValidPartition(allowance, est, parts, Blocks(parts, 1))
    decreases |parts|
  {
    if |parts| == 1 {
      FlattenOne(parts);
    } else if |parts| > 1 {
      Singletons(allowance, est, parts[1..]);
      assert parts == parts[..1] + parts[1..];
      assert ([parts[..1]] + Blocks(parts[1..], 1))[1..] == Blocks(parts[1..], 1);
    }
  }

  /** Two neighbouring parts fit one call. */
  predicate NeighboursFit(allowance: int, est: Estimator, parts: seq<string>) {
    exists i | 0 < i < |parts| :: PartCost(est, parts[i - 1]) + PartCost(est, parts[i]) <= allowance
  }

  /** The singletons, but for the neighbours i - 1 and i put together. */
  function Paired(parts: seq<string>, i: nat): (gs: seq<seq<string>>)
    requires 0 < i < |parts|
    ensures |gs| == |parts| - 1
    decreases i
  {
    SingletonCount(|parts| - 2);
    if i == 1 then [parts[..2]] + Blocks(parts[2..], 1) else [parts[..1]] + Paired(parts[1..], i - 1)
  }

  lemma {:induction false} SingletonCount(n: nat)
    ensures BlockCount(n, 1) == n
    decreases n
  {
    if n > 1 { SingletonCount(n - 1); }
  }

  lemma {:induction false} PairedValid(allowance: int, est: Estimator, parts: seq<string>, i: nat)
    requires 0 < i < |parts| && PartCost(est, parts[i - 1]) + PartCost(est, parts[i]) <= allowance
    ensures ValidPartition(allowance, est, parts, Paired(parts, i))
    decreases i
  {
    hide PartCost;
    if i == 1 {
      Singletons(allowance, est, parts[2..]);
      CostOfTwo(est, parts[0], parts[1]);
      assert parts[..2] == [parts[0], parts[1]] && parts == parts[..2] + parts[2..];
      ConsValid(allowance, est, parts[..2], parts[2..], Blocks(parts[2..], 1));
    } else {
      PairedValid(allowance, est, parts[1..], i - 1);
      assert parts == parts[..1] + parts[1..];
      ConsValid(allowance, est, parts[..1], parts[1..], Paired(parts[1..], i - 1));
    }
  }

  lemma ConsValid(allowance: int, est: Estimator, g: seq<string>, rest: seq<string>, gs: seq<seq<string>>)
    requires FitsOneCall(allowance, est, g) && ValidPartition(allowance, est, rest, gs)
    ensures ValidPartition(allowance, est, g + rest, [g] + gs)
  {
    hide GroupCost;
    assert ([g] + gs)[1..] == gs;
  }

  lemma CostOfTwo(est: Estimator, a: string, b: string)
    ensures GroupCost(est, [a, b]) == PartCost(est, a) + PartCost(est, b)
  {
    NoCost(est);
    CostSnoc(est, [], a);
    CostSnoc(est, [a], b);
    assert [] + [a] == [a] && [a] + [b] == [a, b];
  }

  /** A round leaves fewer parts than it was given exactly when two neighbours fit one call. */
  lemma RoundShrinksIff(allowance: int, est: Estimator, parts: seq<string>)
    ensures |Greedy(allowance, est, [], parts)| < |parts| <==> NeighboursFit(allowance, est, parts)
  {
    hide Greedy, PartCost;
    if i :| 0 < i < |parts| && PartCost(est, parts[i - 1]) + PartCost(est, parts[i]) <= allowance {
      PairedValid(allowance, est, parts, i);
      GroupingOptimal(allowance, est, parts, Paired(parts, i));
    } else {
      RoundStallsApart(allowance, est, parts);
    }
  }

  lemma RoundStallsApart(allowance: int, est: Estimator, parts: seq<string>)
    requires !NeighboursFit(allowance, est, parts)
    ensures |Greedy(allowance, est, [], parts)| == |parts|
  {
    if parts != [] {
      assert [] + [parts[0]] == [parts[0]] && [parts[0]] + parts[1..] == parts;
      StallFrom(allowance, est, parts[0], parts[1..]);
    }
  }

  lemma {:induction false} StallFrom(allowance: int, est: Estimator, x: string, rest: seq<string>)
    requires !NeighboursFit(allowance, est, [x] + rest)
    ensures |Greedy(allowance, est, [x], rest)| == 1 + |rest|
    decreases |rest|
  {
    hide PartCost;
    NoCost(est);
    CostSnoc(est, [], x);
    assert [] + [x] == [x];
    if rest != [] {
      var all := [x] + rest;
      assert PartCost(est, all[1 - 1]) + PartCost(est, all[1]) > allowance;
      assert [rest[0]] + rest[1..] == rest;
      NoneFitLater(allowance, est, x, rest);
      StallFrom(allowance, est, rest[0], rest[1..]);
    }
  }

  lemma NoneFitLater(allowance: int, est: Estimator, x: string, rest: seq<string>)
    requires !NeighboursFit(allowance, est, [x] + rest)
    ensures !NeighboursFit(allowance, est, rest)
  {
    hide PartCost;
    var all := [x] + rest;
    forall i | 0 < i < |rest| ensures PartCost(est, rest[i - 1]) + PartCost(est, rest[i]) > allowance {
      var j := i + 1;
      assert all[j] == rest[i] && all[j - 1] == rest[i - 1];
    }
  }

  predicate BigParts(allowance: int, est: Estimator, parts: seq<string>) {
    forall i | 0 <= i < |parts| :: 2 * PartCost(est, parts[i]) > allowance
  }

  /** If no two parts fit together, a round merges nothing: every group is a single part. */
  lemma RoundStalls(allowance: int, est: Estimator, parts: seq<string>)
    requires BigParts(allowance, est, parts)
    ensures |Greedy(allowance, est, [], parts)| == |parts|
  {
    hide PartCost;
    RoundStallsApart(allowance, est, parts);
  }
}
