/** redact/redact.go: replacing registered secret values by placeholders. */
module Redact {
  import opened Text

  datatype Entry = Entry(value: string, placeholder: string)

  /** strings.ReplaceAll for a non-empty needle: leftmost, non-overlapping. */
  function ReplaceAll(s: string, v: string, p: string): string
    requires v != ""
  {
    if |s| < |v| then s
    else if v <= s then p + ReplaceAll(s[|v|..], v, p)
    else [s[0]] + ReplaceAll(s[1..], v, p)
  }

  predicate NonEmptyValues(es: seq<Entry>) {
    forall i | 0 <= i < |es| :: es[i].value != ""
  }

  /** The sequential replace-all loop as a function of the entry list. */
  function ApplyAll(es: seq<Entry>, s: string): string
    requires NonEmptyValues(es)
  {
    if es == [] then s else ApplyAll(es[1..], ReplaceAll(s, es[0].value, es[0].placeholder))
  }

  predicate LongestFirst(es: seq<Entry>) {
    forall i, j | 0 <= i < j < |es| :: |es[i].value| >= |es[j].value|
  }

  /** The entries whose value has length n, in order: what stability preserves. */
  function OfLength(es: seq<Entry>, n: nat): seq<Entry> {
    if es == [] then []
    else (if |es[0].value| == n then [es[0]] else []) + OfLength(es[1..], n)
  }

  /** The (value, placeholder) pairs New keeps: those with a non-empty value. */
  function Pairs(values: seq<string>, placeholders: seq<string>): (es: seq<Entry>)
    requires |values| == |placeholders|
    ensures NonEmptyValues(es)
  {
    if values == [] then []
    else (if values[0] == "" then [] else [Entry(values[0], placeholders[0])])
         + Pairs(values[1..], placeholders[1..])
  }

  lemma {:induction false} PairsSnoc(vs: seq<string>, ps: seq<string>, v: string, p: string)
    requires |vs| == |ps|
    ensures Pairs(vs + [v], ps + [p]) == Pairs(vs, ps) + (if v == "" then [] else [Entry(v, p)])
  {
    if vs != [] {
      assert (vs + [v])[1..] == vs[1..] + [v] && (ps + [p])[1..] == ps[1..] + [p];
      PairsSnoc(vs[1..], ps[1..], v, p);
    }
  }

  lemma {:induction false} OfLengthAppend(a: seq<Entry>, b: seq<Entry>, n: nat)
    ensures OfLength(a + b, n) == OfLength(a, n) + OfLength(b, n)
  {
    if a == [] {
      assert a + b == b;
    } else {
      var head := if |a[0].value| == n then [a[0]] else [];
      assert (a + b)[1..] == a[1..] + b;
      OfLengthAppend(a[1..], b, n);
      assert head + (OfLength(a[1..], n) + OfLength(b, n)) == head + OfLength(a[1..], n) + OfLength(b, n);
    }
  }

  lemma {:induction false} OfLengthNone(es: seq<Entry>, n: nat)
    requires forall i | 0 <= i < |es| :: |es[i].value| != n
    ensures OfLength(es, n) == []
  {
    if es != [] { OfLengthNone(es[1..], n); }
  }

  /** A longest-first stable permutation: sort.SliceStable's contract for New. */
  ghost predicate StableSort(sorted: seq<Entry>, input: seq<Entry>) {
    && LongestFirst(sorted)
    && multiset(sorted) == multiset(input)
    && forall n: nat :: OfLength(sorted, n) == OfLength(input, n)
  }

  /** Where the stable sort puts e: behind every entry at least as long, before every shorter one. */
  predicate InsertionPoint(es: seq<Entry>, k: nat, e: Entry) {
    && k <= |es|
    && (forall i | 0 <= i < k :: |es[i].value| >= |e.value|)
    && (forall i | k <= i < |es| :: |es[i].value| < |e.value|)
  }

  lemma InsertKeepsByLength(es: seq<Entry>, k: nat, e: Entry, input: seq<Entry>, n: nat)
    requires InsertionPoint(es, k, e) && OfLength(es, n) == OfLength(input, n)
    ensures OfLength(es[..k] + [e] + es[k..], n) == OfLength(input + [e], n)
  {
    var a, b := es[..k], es[k..];
    OfLengthAppend(a + [e], b, n);
    OfLengthAppend(a, [e], n);
    OfLengthAppend(input, [e], n);
    assert OfLength(es, n) == OfLength(a, n) + OfLength(b, n) by {
      assert es == a + b;
      OfLengthAppend(a, b, n);
    }
    if n == |e.value| {
      OfLengthNone(b, n);
    } else {
      assert OfLength([e], n) == [];
    }
  }

  lemma InsertKeepsOrder(es: seq<Entry>, k: nat, e: Entry)
    requires LongestFirst(es) && InsertionPoint(es, k, e)
    ensures LongestFirst(es[..k] + [e] + es[k..])
  {
    var out := es[..k] + [e] + es[k..];
    forall i, j | 0 <= i < j < |out| ensures |out[i].value| >= |out[j].value| {
      assert out[i] == if i < k then es[i] else if i == k then e else es[i - 1];
      assert out[j] == if j < k then es[j] else if j == k then e else es[j - 1];
    }
  }

  lemma InsertKeepsStable(es: seq<Entry>, k: nat, e: Entry, input: seq<Entry>)
    requires StableSort(es, input) && InsertionPoint(es, k, e)
    ensures StableSort(es[..k] + [e] + es[k..], input + [e])
  {
    hide OfLength;
    var out := es[..k] + [e] + es[k..];
    InsertKeepsOrder(es, k, e);
    assert multiset(out) == multiset(es) + multiset{e} by { assert es == es[..k] + es[k..]; }
    forall n: nat ensures OfLength(out, n) == OfLength(input + [e], n) {
      InsertKeepsByLength(es, k, e, input, n);
    }
  }

  /** A Redactor; `entries` is filled by the constructor and never changes after. */
  class Redactor {
    var entries: seq<Entry>

    constructor (values: seq<string>, placeholders: seq<string>)
      ensures |values| != |placeholders| ==> entries == []
      ensures |values| == |placeholders| ==> StableSort(entries, Pairs(values, placeholders))
      ensures NonEmptyValues(entries)
    {
      entries := [];
      new;
      if |values| == |placeholders| {
        var i := 0;
        while i < |values|
          invariant 0 <= i <= |values|
          invariant StableSort(entries, Pairs(values[..i], placeholders[..i]))
        {
          Add(values, placeholders, i);
          i := i + 1;
        }
        assert values[..i] == values && placeholders[..i] == placeholders;
        PermutationKeeps(entries, Pairs(values, placeholders));
      }
    }

    /** Takes in the i-th pair, unless its value is empty. */
    method Add(values: seq<string>, placeholders: seq<string>, i: nat)
      requires i < |values| == |placeholders|
      requires StableSort(entries, Pairs(values[..i], placeholders[..i]))
      modifies this
      ensures StableSort(entries, Pairs(values[..i + 1], placeholders[..i + 1]))
    {
      hide OfLength, Pairs, LongestFirst;
      assert values[..i + 1] == values[..i] + [values[i]];
      assert placeholders[..i + 1] == placeholders[..i] + [placeholders[i]];
      PairsSnoc(values[..i], placeholders[..i], values[i], placeholders[i]);
      if values[i] != "" {
        Insert(Entry(values[i], placeholders[i]), Pairs(values[..i], placeholders[..i]));
      } else {
        assert Pairs(values[..i], placeholders[..i]) + [] == Pairs(values[..i], placeholders[..i]);
      }
    }

    /** One step of the stable sort. */
    method Insert(e: Entry, ghost input: seq<Entry>)
      requires StableSort(entries, input)
      modifies this
      ensures StableSort(entries, input + [e])
    {
      var k := |entries|;
      while k > 0 && |entries[k - 1].value| < |e.value|
        invariant 0 <= k <= |entries|
        invariant forall i | k <= i < |entries| :: |entries[i].value| < |e.value|
      {
        k := k - 1;
      }
      assert InsertionPoint(entries, k, e);
      InsertKeepsStable(entries, k, e, input);
      entries := entries[..k] + [e] + entries[k..];
    }

    method Apply(s: string) returns (out: string)
      requires NonEmptyValues(entries)
      ensures out == ApplyAll(entries, s)
    {
      out := s;
      var i := 0;
      while i < |entries|
        invariant 0 <= i <= |entries|
        invariant ApplyAll(entries[i..], out) == ApplyAll(entries, s)
      {
        out := ReplaceAll(out, entries[i].value, entries[i].placeholder);
        i := i + 1;
      }
    }
  }

  lemma PermutationKeeps(sorted: seq<Entry>, input: seq<Entry>)
    requires multiset(sorted) == multiset(input) && NonEmptyValues(input)
    ensures NonEmptyValues(sorted)
  {
    forall i | 0 <= i < |sorted| ensures sorted[i].value != "" {
      assert sorted[i] in multiset(sorted);
      assert sorted[i] in multiset(input);
    }
  }

  // ---- when is the output free of every registered value? ----

  /** No ending of p opens v. */
  predicate EndsClear(p: string, v: string) {
    forall n | 0 <= n < |p| :: !(p[n..] <= v)
  }

  /** No beginning of p closes v. */
  predicate OpensClear(p: string, v: string) {
    forall n | 0 < n <= |p| && n <= |v| :: p[..n] != v[|v| - n..]
  }

  /** No occurrence of v in a text can overlap p and reach beyond it. */
  predicate Insulated(p: string, v: string) {
    p != "" && EndsClear(p, v) && OpensClear(p, v) && !Contains(v, p)
  }

  predicate Walls(es: seq<Entry>, p: string) {
    forall i | 0 <= i < |es| :: Insulated(p, es[i].value)
  }

  predicate WellFormed(es: seq<Entry>) {
    NonEmptyValues(es) && forall i | 0 <= i < |es| :: Walls(es, es[i].placeholder)
  }

  predicate IsBracket(c: char) { c == '[' || c == ']' }

  predicate BracketFree(v: string) {
    forall i | 0 <= i < |v| :: !IsBracket(v[i])
  }

  /** The shape FromSecrets gives every placeholder. */
  predicate Bracketed(p: string) {
    |p| >= 2 && p[0] == '[' && p[|p| - 1] == ']'
  }

  /** Such a placeholder is insulated from every value without brackets. */
  lemma BracketsInsulate(p: string, v: string)
    requires Bracketed(p) && BracketFree(v)
    ensures Insulated(p, v)
  {
    forall n | 0 <= n < |p| ensures !(p[n..] <= v) { PrefixReads(p[n..], v, |p| - 1 - n); }
    forall n | 0 < n <= |p| && n <= |v| ensures p[..n] != v[|v| - n..] {
      assert p[..n][0] == '[' && v[|v| - n..][0] == v[|v| - n];
    }
    forall i: nat | i <= |v| ensures !OccursAt(v, p, i) { OccurrenceReads(v, p, i, 0); }
  }

  lemma PrefixReads(a: string, s: string, m: nat)
    requires m < |a|
    ensures a <= s ==> m < |s| && s[m] == a[m]
  {}

  predicate Clean(es: seq<Entry>, t: string) {
    forall i | 0 <= i < |es| :: !Contains(t, es[i].value)
  }

  /** Entry j's value is not shadowed by an equal value earlier in the list. */
  predicate FirstOfItsValue(es: seq<Entry>, j: nat)
    requires j < |es|
  {
    forall i | 0 <= i < j :: es[i].value != es[j].value
  }

  /** Run once over the placeholders at start-up: each one, passed through the entries
      that are applied after it, must come out free of every value. */
  predicate PlaceholdersClean(es: seq<Entry>)
    requires NonEmptyValues(es)
  {
    forall j | 0 <= j < |es| && FirstOfItsValue(es, j) ::
      Clean(es, ApplyAll(es[j + 1..], es[j].placeholder))
  }

  lemma OccurrenceReads(s: string, v: string, i: nat, m: nat)
    requires m < |v|
    ensures OccursAt(s, v, i) ==> i + m < |s| && s[i + m] == v[m]
  {}

  lemma ReplaceAllStep(s: string, v: string, p: string)
    requires v != ""
    ensures ReplaceAll(s, v, p) ==
            if s == "" then ""
            else if v <= s then p + ReplaceAll(s[|v|..], v, p) else [s[0]] + ReplaceAll(s[1..], v, p)
  {
    if s != "" { assert s == [s[0]] + s[1..]; }
  }

  lemma EndsClearTail(t: string, v: string, n: nat)
    requires EndsClear(t, v) && n <= |t|
    ensures EndsClear(t[n..], v)
  {
    forall m | 0 <= m < |t| - n ensures !(t[n..][m..] <= v) { assert t[n..][m..] == t[n + m..]; }
  }

  /** Where no ending of t opens v, what follows t is rewritten apart. */
  lemma {:induction false} ReplaceAllAfter(t: string, y: string, v: string, q: string)
    requires v != "" && EndsClear(t, v)
    ensures ReplaceAll(t + y, v, q) == ReplaceAll(t, v, q) + ReplaceAll(y, v, q)
    decreases |t|
  {
    var s, Y := t + y, ReplaceAll(y, v, q);
    if t == "" {
      assert s == y;
    } else {
      assert t[0..] == t && !(t <= v);
      assert v <= s <==> v <= t;
      var n := if v <= t then |v| else 1;
      assert s[n..] == t[n..] + y;
      hide ReplaceAll;
      EndsClearTail(t, v, n);
      ReplaceAllStep(s, v, q);
      ReplaceAllStep(t, v, q);
      ReplaceAllAfter(t[n..], y, v, q);
      Regroup(if v <= t then q else [t[0]], ReplaceAll(t[n..], v, q), Y);
    }
  }

  lemma Regroup(a: string, b: string, c: string)
    ensures a + (b + c) == a + b + c
  {}

  /** An insulated p keeps what stands before and behind it apart. */
  lemma {:induction false} ReplaceAllAround(x: string, p: string, y: string, v: string, q: string)
    requires v != "" && Insulated(p, v)
    ensures ReplaceAll(x + p + y, v, q) == ReplaceAll(x, v, q) + ReplaceAll(p, v, q) + ReplaceAll(y, v, q)
    decreases |x|
  {
    hide *;
    if x == "" {
      assert x + p + y == p + y;
      Clear(p, v);
      ReplaceAllAfter(p, y, v, q);
      ReplaceAllStep(x, v, q);
      assert "" + ReplaceAll(p, v, q) == ReplaceAll(p, v, q);
    } else {
      PrefixStopsBefore(x, p, y, v);
      var n := if v <= x then |v| else 1;
      ReplaceAllAround(x[n..], p, y, v, q);
      StepAround(x, p, y, v, q, n);
    }
  }

  lemma Clear(p: string, v: string)
    requires Insulated(p, v)
    ensures EndsClear(p, v)
  {}

  lemma StepAround(x: string, p: string, y: string, v: string, q: string, n: nat)
    requires v != "" && x != "" && n == (if v <= x then |v| else 1) && (v <= x + p + y <==> v <= x)
    requires ReplaceAll(x[n..] + p + y, v, q) == ReplaceAll(x[n..], v, q) + ReplaceAll(p, v, q) + ReplaceAll(y, v, q)
    ensures ReplaceAll(x + p + y, v, q) == ReplaceAll(x, v, q) + ReplaceAll(p, v, q) + ReplaceAll(y, v, q)
  {
    hide *;
    var X, P, Y := ReplaceAll(x[n..], v, q), ReplaceAll(p, v, q), ReplaceAll(y, v, q);
    assert (x + p + y)[n..] == x[n..] + p + y;
    ReplaceAllStep(x + p + y, v, q);
    ReplaceAllStep(x, v, q);
    var h := if v <= x then q else [x[0]];
    Regroup(h, X + P, Y);
    Regroup(h, X, P);
  }

  lemma PrefixStopsBefore(x: string, p: string, y: string, v: string)
    requires x != "" && v != "" && Insulated(p, v)
    ensures v <= x + p + y <==> v <= x
  {
    if v <= x + p + y && |v| > |x| { CrossesNoWall(x, p, y, v, 0); }
  }

  /** An occurrence of v around an insulated p stays before it, inside it or behind it. */
  lemma CrossesNoWall(x: string, p: string, y: string, v: string, i: nat)
    requires v != "" && Insulated(p, v) && OccursAt(x + p + y, v, i)
    ensures i + |v| <= |x| || |x| <= i <= i + |v| <= |x| + |p| || |x| + |p| <= i
  {
    hide Contains;
    if i < |x| < i + |v| { CutByStart(x, p, y, v, i); }
    if |x| <= i < |x| + |p| < i + |v| { CutByEnd(x, p, y, v, i); }
  }

  /** An occurrence of v that crosses from x into p ends with a beginning of p, or holds p. */
  lemma CutByStart(x: string, p: string, y: string, v: string, i: nat)
    requires OccursAt(x + p + y, v, i) && i < |x| < i + |v|
    ensures var n := i + |v| - |x|; if n <= |p| then p[..n] == v[|v| - n..] else Contains(v, p)
    ensures x[i..] == v[..|x| - i]
  {
    var s, k := x + p + y, |x| - i;
    assert v == s[i..i + |v|] && v[k..] == s[|x|..i + |v|];
    assert x[i..] == s[i..|x|] == v[..k];
    if |v| - k > |p| {
      assert v[k..k + |p|] == p;
      HoldsAt(v, p, k);
    }
  }

  lemma CutByEnd(x: string, p: string, y: string, v: string, i: nat)
    requires OccursAt(x + p + y, v, i) && |x| <= i < |x| + |p| < i + |v|
    ensures !EndsClear(p, v)
  {
    var s, k := x + p + y, i - |x|;
    assert v == s[i..i + |v|];
    assert p[k..] == s[i..|x| + |p|] == v[..|p| - k];
    assert p[k..] <= v;
  }

  lemma {:induction false} SameOrHolds(s: string, v: string, q: string)
    requires v != ""
    ensures ReplaceAll(s, v, q) == s || Contains(ReplaceAll(s, v, q), q)
    decreases |s|
  {
    if s != "" {
      ReplaceAllStep(s, v, q);
      var n := if v <= s then |v| else 1;
      var h, r := if v <= s then q else [s[0]], ReplaceAll(s[n..], v, q);
      hide ReplaceAll;
      SameOrHolds(s[n..], v, q);
      if v <= s {
        assert OccursAt(h + r, q, 0);
      } else if r != s[1..] {
        var i: nat :| i <= |r| && OccursAt(r, q, i);
        assert OccursAt(h + r, q, i + 1);
      }
    }
  }

  lemma ContainsPart(t: string, r: string, q: string)
    requires Contains(r, q) && !Contains(t, q)
    ensures !(r <= t)
  {
    if r <= t {
      assert r == t[0..|r|];
      ContainsWithin(t, 0, |r|, q);
    }
  }

  lemma EndsClearAppend(q: string, r: string, w: string)
    requires EndsClear(q, w) && EndsClear(r, w)
    ensures EndsClear(q + r, w)
  {
    forall m | 0 <= m < |q + r| ensures !((q + r)[m..] <= w) {
      if m < |q| {
        assert (q + r)[m..] == q[m..] + r && !(q[m..] <= w);
      } else {
        assert (q + r)[m..] == r[m - |q|..];
      }
    }
  }

  lemma EndsClearCons(c: char, r: string, w: string)
    requires EndsClear(r, w) && !([c] + r <= w)
    ensures EndsClear([c] + r, w)
  {
    forall m | 0 <= m < |[c] + r| ensures !(([c] + r)[m..] <= w) {
      if m > 0 { assert ([c] + r)[m..] == r[m - 1..]; }
    }
  }

  lemma {:induction false} ReplacedEndsClear(p: string, v: string, q: string, w: string)
    requires v != "" && EndsClear(p, w) && EndsClear(q, w) && !Contains(w, q)
    ensures EndsClear(ReplaceAll(p, v, q), w)
    decreases |p|
  {
    if p != "" {
      hide ReplaceAll, Contains;
      ReplaceAllStep(p, v, q);
      var n := if v <= p then |v| else 1;
      EndsClearTail(p, w, n);
      ReplacedEndsClear(p[n..], v, q, w);
      var r := ReplaceAll(p[n..], v, q);
      if v <= p {
        EndsClearAppend(q, r, w);
      } else {
        assert p[0..] == p;
        SameOrHolds(p, v, q);
        if [p[0]] + r != p { ContainsPart(w, [p[0]] + r, q); }
        EndsClearCons(p[0], r, w);
      }
    }
  }

  lemma {:induction false} ReplacedOpensClear(p: string, v: string, q: string, w: string)
    requires v != "" && Insulated(p, w) && Insulated(q, w)
    ensures OpensClear(ReplaceAll(p, v, q), w)
  {
    var s := ReplaceAll(p, v, q);
    if Contains(p, v) {
      var k := FirstOccurrence(p, v, q);
      var rest := ReplaceAll(p[k + |v|..], v, q);
      assert s == p[..k] + q + rest;
      hide ReplaceAll, FirstAt;
      forall n | 0 < n <= |s| && n <= |w| ensures s[..n] != w[|w| - n..] {
        OpenedByNone(p[..k], q, rest, w, n, p);
      }
    } else {
      ReplaceAllAbsent(p, v, q);
    }
  }

  lemma OpenedByNone(front: string, q: string, rest: string, w: string, n: nat, p: string)
    requires 0 < n <= |front + q + rest| && n <= |w|
    requires front <= p && Insulated(p, w) && Insulated(q, w)
    ensures (front + q + rest)[..n] != w[|w| - n..]
  {
    var s, k := front + q + rest, |front|;
    hide Contains;
    if n <= k {
      assert s[..n] == p[..n];
    } else if n - k <= |q| {
      assert s[..n][k..] == q[..n - k];
      assert w[|w| - n..][k..] == w[|w| - (n - k)..];
    } else {
      assert s[..n][k..k + |q|] == q;
      assert w[|w| - n..][k..k + |q|] == w[|w| - n + k..|w| - n + k + |q|];
      HoldsAt(w, q, |w| - n + k);
    }
  }

  lemma HoldsAt(w: string, q: string, i: nat)
    requires i + |q| <= |w|
    ensures w[i..i + |q|] == q ==> Contains(w, q)
  {
    if w[i..i + |q|] == q { assert OccursAt(w, q, i); }
  }

  /** Replacing inside an insulated text leaves it insulated. */
  lemma ReplacedInsulated(p: string, v: string, q: string, w: string)
    requires v != "" && Insulated(p, w) && Insulated(q, w)
    ensures Insulated(ReplaceAll(p, v, q), w)
  {
    hide ReplaceAll, Contains, EndsClear, OpensClear;
    ReplacedEndsClear(p, v, q, w);
    ReplacedOpensClear(p, v, q, w);
    SameOrHolds(p, v, q);
    HoldsNothing(q);
    if Contains(w, ReplaceAll(p, v, q)) && Contains(ReplaceAll(p, v, q), q) {
      ContainsTransitive(w, ReplaceAll(p, v, q), q);
    }
  }

  lemma HoldsNothing(q: string)
    requires q != ""
    ensures !Contains("", q)
  {}

  lemma {:induction false} WallStays(all: seq<Entry>, i: nat, p: string)
    requires WellFormed(all) && i <= |all| && Walls(all, p)
    ensures Walls(all, ApplyAll(all[i..], p))
    decreases |all| - i
  {
    hide Insulated, ReplaceAll, ApplyAll;
    ApplyStep(all, i, p);
    if i < |all| {
      var v, q := all[i].value, all[i].placeholder;
      forall j | 0 <= j < |all| ensures Insulated(ReplaceAll(p, v, q), all[j].value) {
        ReplacedInsulated(p, v, q, all[j].value);
      }
      WallStays(all, i + 1, ReplaceAll(p, v, q));
    }
  }

  /** A wall: what stands around it is rewritten apart... */
  lemma {:induction false} RewrittenApart(all: seq<Entry>, i: nat, a: string, p: string, c: string)
    requires WellFormed(all) && i <= |all| && Walls(all, p)
    ensures ApplyAll(all[i..], a + p + c) == ApplyAll(all[i..], a) + ApplyAll(all[i..], p) + ApplyAll(all[i..], c)
    decreases |all| - i
  {
    hide Insulated, ReplaceAll, ApplyAll;
    ApplyStep(all, i, a + p + c);
    ApplyStep(all, i, a);
    ApplyStep(all, i, p);
    ApplyStep(all, i, c);
    if i < |all| {
      var v, q := all[i].value, all[i].placeholder;
      ReplaceAllAround(a, p, c, v, q);
      forall j | 0 <= j < |all| ensures Insulated(ReplaceAll(p, v, q), all[j].value) {
        ReplacedInsulated(p, v, q, all[j].value);
      }
      RewrittenApart(all, i + 1, ReplaceAll(a, v, q), ReplaceAll(p, v, q), ReplaceAll(c, v, q));
    }
  }

  /** ...and searched apart. */
  lemma SearchedApart(a: string, p: string, c: string, v: string)
    requires v != "" && Insulated(p, v) && Contains(a + p + c, v)
    ensures Contains(a, v) || Contains(p, v) || Contains(c, v)
  {
    var s := a + p + c;
    var i: nat :| i <= |s| && OccursAt(s, v, i);
    hide Insulated;
    CrossesNoWall(a, p, c, v, i);
    OnOneSide(a, p, c, v, i);
  }

  lemma PlaceholderIsAWall(all: seq<Entry>, i: nat, a: string, p: string, c: string)
    requires WellFormed(all) && i <= |all| && Walls(all, p)
    requires Clean(all, ApplyAll(all[i..], a)) && Clean(all, ApplyAll(all[i..], p)) && Clean(all, ApplyAll(all[i..], c))
    ensures Clean(all, ApplyAll(all[i..], a + p + c))
  {
    RewrittenApart(all, i, a, p, c);
    WallStays(all, i, p);
    hide ApplyAll, Contains, Insulated;
    var A, P, C := ApplyAll(all[i..], a), ApplyAll(all[i..], p), ApplyAll(all[i..], c);
    forall j | 0 <= j < |all| ensures !Contains(A + P + C, all[j].value) {
      if Contains(A + P + C, all[j].value) { SearchedApart(A, P, C, all[j].value); }
    }
  }

  /** k is v's first place in s, and the replacement unfolds there. */
  ghost predicate FirstAt(s: string, v: string, p: string, k: nat)
    requires v != ""
  {
    && OccursAt(s, v, k)
    && !Contains(s[..k], v)
    && (forall j: nat | j < k :: !OccursAt(s, v, j))
    && ReplaceAll(s, v, p) == s[..k] + p + ReplaceAll(s[k + |v|..], v, p)
  }

  lemma {:induction false} FirstOccurrence(s: string, v: string, p: string) returns (k: nat)
    requires v != "" && Contains(s, v)
    ensures FirstAt(s, v, p, k)
    decreases |s|
  {
    hide ReplaceAll, FirstAt;
    if v <= s {
      k := 0;
      FirstHere(s, v, p);
    } else {
      ContainsLater(s, v);
      var k1 := FirstOccurrence(s[1..], v, p);
      k := k1 + 1;
      FirstLater(s, v, p, k1);
    }
  }

  lemma ContainsLater(s: string, v: string)
    requires v != "" && Contains(s, v) && !(v <= s)
    ensures s != "" && Contains(s[1..], v)
  {
    var i: nat :| i <= |s| && OccursAt(s, v, i);
    assert OccursAt(s, v, 0) ==> v <= s;
    assert OccursAt(s[1..], v, i - 1);
  }

  lemma FirstHere(s: string, v: string, p: string)
    requires v != "" && v <= s
    ensures FirstAt(s, v, p, 0)
  {
    ReplaceAllStep(s, v, p);
    hide ReplaceAll;
    assert s[..0] + p == p;
  }

  lemma FirstLater(s: string, v: string, p: string, k: nat)
    requires v != "" && s != "" && !(v <= s) && FirstAt(s[1..], v, p, k)
    ensures FirstAt(s, v, p, k + 1)
  {
    hide ReplaceAll, OccursAt, Contains;
    ReplaceAllStep(s, v, p);
    OccursShift(s, v, k);
    NoneBefore(s, v, k);
    NotInPrefix(s, v, k + 1);
    var t := s[1..];
    var rest := ReplaceAll(t[k + |v|..], v, p);
    assert t[k + |v|..] == s[k + 1 + |v|..];
    Reassociate(s, k, p, rest);
  }

  lemma Reassociate(s: string, k: nat, p: string, rest: string)
    requires k < |s|
    ensures [s[0]] + (s[1..][..k] + p + rest) == s[..k + 1] + p + rest
  {}

  lemma OccursShift(s: string, v: string, i: nat)
    requires s != "" && OccursAt(s[1..], v, i)
    ensures OccursAt(s, v, i + 1)
  {}

  lemma NoneBefore(s: string, v: string, k: nat)
    requires s != "" && !(v <= s) && forall j: nat | j < k :: !OccursAt(s[1..], v, j)
    ensures forall j: nat | j < k + 1 :: !OccursAt(s, v, j)
  {
    hide OccursAt;
    forall j: nat | j < k + 1 && OccursAt(s, v, j) ensures false { OccursBack(s, v, j); }
  }

  lemma OccursBack(s: string, v: string, i: nat)
    requires s != "" && OccursAt(s, v, i)
    ensures if i == 0 then v <= s else OccursAt(s[1..], v, i - 1)
  {}

  lemma NotInPrefix(s: string, v: string, k: nat)
    requires v != "" && !(v <= s) && 1 <= k <= |s| && !Contains(s[1..][..k - 1], v)
    ensures !Contains(s[..k], v)
  {
    forall i: nat | i <= k ensures !OccursAt(s[..k], v, i) {
      if i == 0 {
        assert OccursAt(s[..k], v, 0) ==> v <= s;
      } else {
        assert OccursAt(s[..k], v, i) ==> OccursAt(s[1..][..k - 1], v, i - 1);
      }
    }
  }

  lemma {:induction false} ReplaceAllAbsent(s: string, v: string, p: string)
    requires v != "" && !Contains(s, v)
    ensures ReplaceAll(s, v, p) == s
    decreases |s|
  {
    if |s| >= |v| {
      if v <= s { assert OccursAt(s, v, 0); }
      if Contains(s[1..], v) {
        var i: nat :| i <= |s| - 1 && OccursAt(s[1..], v, i);
        assert OccursAt(s, v, i + 1);
      }
      ReplaceAllAbsent(s[1..], v, p);
    }
  }

  lemma CleanPart(es: seq<Entry>, t: string, lo: nat, hi: nat)
    requires lo <= hi <= |t| && Clean(es, t)
    ensures Clean(es, t[lo..hi])
  {
    forall n | 0 <= n < |es| ensures !Contains(t[lo..hi], es[n].value) {
      if Contains(t[lo..hi], es[n].value) { ContainsWithin(t, lo, hi, es[n].value); }
    }
  }

  /** From entry i on: a text already free of the first i values ends up free of all of them. */
  lemma {:induction false} CleanFrom(es: seq<Entry>, i: nat, t: string)
    requires i <= |es| && WellFormed(es) && PlaceholdersClean(es) && Clean(es[..i], t)
    ensures Clean(es, ApplyAll(es[i..], t))
    decreases |es| - i, |t|
  {
    hide ReplaceAll, Contains, ApplyAll, Clean, PlaceholdersClean, Insulated;
    ApplyStep(es, i, t);
    if i == |es| {
      assert es[..i] == es;
    } else {
      var v, p, later := es[i].value, es[i].placeholder, es[i + 1..];
      if !Contains(t, v) {
        ReplaceAllAbsent(t, v, p);
        CleanExtend(es, i, t);
        CleanFrom(es, i + 1, t);
      } else {
        var k := FirstOccurrence(t, v, p);
        var a, c := t[..k], t[k + |v|..];
        assert t[0..k] == a && t[k + |v|..|t|] == c;
        CleanPart(es[..i], t, 0, k);
        CleanPart(es[..i], t, k + |v|, |t|);
        CleanExtend(es, i, a);
        CleanFrom(es, i + 1, a);
        CleanFrom(es, i, c);
        ApplyStep(es, i, c);
        PlaceholderOutcome(es, i, t);
        PlaceholderIsAWall(es, i + 1, a, p, ReplaceAll(c, v, p));
      }
    }
  }

  lemma CleanExtend(es: seq<Entry>, i: nat, t: string)
    requires i < |es| && Clean(es[..i], t) && !Contains(t, es[i].value)
    ensures Clean(es[..i + 1], t)
  {
    assert es[..i + 1] == es[..i] + [es[i]];
  }

  lemma PlaceholderOutcome(es: seq<Entry>, i: nat, t: string)
    requires NonEmptyValues(es) && PlaceholdersClean(es)
    requires i < |es| && Clean(es[..i], t) && Contains(t, es[i].value)
    ensures Clean(es, ApplyAll(es[i + 1..], es[i].placeholder))
  {
    forall n | 0 <= n < i ensures es[n].value != es[i].value {
      assert !Contains(t, es[..i][n].value);
    }
  }

  lemma ApplyStep(es: seq<Entry>, i: nat, t: string)
    requires i <= |es| && NonEmptyValues(es)
    ensures ApplyAll(es[i..], t) ==
            if i == |es| then t else ApplyAll(es[i + 1..], ReplaceAll(t, es[i].value, es[i].placeholder))
  {
    if i < |es| { assert es[i..][1..] == es[i + 1..]; }
  }

  /** Values are longest-first, so nothing earlier can touch the bare text of a later, different value. */
  lemma {:induction false} BareValueReachesItsEntry(es: seq<Entry>, i: nat, j: nat)
    requires i <= j < |es| && NonEmptyValues(es) && LongestFirst(es) && FirstOfItsValue(es, j)
    ensures ApplyAll(es[i..], es[j].value) == ApplyAll(es[j + 1..], es[j].placeholder)
    decreases j - i
  {
    var t := es[j].value;
    assert es[i..][1..] == es[i + 1..];
    if i == j {
      assert t[|t|..] == "";
      assert ReplaceAll(t, t, es[j].placeholder) == es[j].placeholder;
    } else {
      var v := es[i].value;
      assert t[0..|t|] == t;
      assert forall k: nat | k <= |t| :: OccursAt(t, v, k) ==> k == 0 && |v| == |t|;
      ReplaceAllAbsent(t, v, es[i].placeholder);
      BareValueReachesItsEntry(es, i + 1, j);
    }
  }

  /** Redaction is complete on every text exactly when the placeholders pass the start-up check. */
  lemma RedactionCompleteIff(es: seq<Entry>)
    requires WellFormed(es) && LongestFirst(es)
    ensures (forall s: string :: Clean(es, ApplyAll(es, s))) <==> PlaceholdersClean(es)
  {
    hide ReplaceAll, Contains, ApplyAll;
    if PlaceholdersClean(es) {
      forall s: string ensures Clean(es, ApplyAll(es, s)) {
        assert es[0..] == es;
        CleanFrom(es, 0, s);
      }
    }
    if !PlaceholdersClean(es) {
      var j :| 0 <= j < |es| && FirstOfItsValue(es, j) && !Clean(es, ApplyAll(es[j + 1..], es[j].placeholder));
      assert es[0..] == es;
      BareValueReachesItsEntry(es, 0, j);
      assert !Clean(es, ApplyAll(es, es[j].value));
    }
  }

  lemma {:induction false} ApplyAbsent(es: seq<Entry>, t: string)
    requires NonEmptyValues(es) && Clean(es, t)
    ensures ApplyAll(es, t) == t
  {
    if es != [] {
      assert !Contains(t, es[0].value);
      forall i | 0 <= i < |es[1..]| ensures !Contains(t, es[1..][i].value) {
        assert es[1..][i] == es[i + 1];
      }
      ReplaceAllAbsent(t, es[0].value, es[0].placeholder);
      ApplyAbsent(es[1..], t);
    }
  }

  /** The usual way to pass the check: no value occurs in any placeholder. */
  lemma RedactionComplete(es: seq<Entry>, s: string)
    requires WellFormed(es) && LongestFirst(es)
    requires forall j | 0 <= j < |es| :: Clean(es, es[j].placeholder)
    ensures Clean(es, ApplyAll(es, s))
  {
    forall j | 0 <= j < |es| && FirstOfItsValue(es, j)
      ensures Clean(es, ApplyAll(es[j + 1..], es[j].placeholder))
    {
      assert Clean(es, es[j].placeholder);
      var later := es[j + 1..];
      forall i | 0 <= i < |later| ensures !Contains(es[j].placeholder, later[i].value) {
        assert later[i] == es[j + 1 + i];
      }
      ApplyAbsent(later, es[j].placeholder);
    }
    RedactionCompleteIff(es);
  }

  /** In particular for bracketed placeholders and values without brackets. */
  lemma BracketedWellFormed(es: seq<Entry>)
    requires NonEmptyValues(es)
    requires forall i | 0 <= i < |es| :: BracketFree(es[i].value) && Bracketed(es[i].placeholder)
    ensures WellFormed(es)
  {
    hide BracketFree, Bracketed, Insulated;
    forall i, j | 0 <= i < |es| && 0 <= j < |es| ensures Insulated(es[i].placeholder, es[j].value) {
      BracketsInsulate(es[i].placeholder, es[j].value);
    }
  }

  /** Where the ending of a placeholder opens its value, the value is put together again: of the value
      followed by the rest of it. */
  lemma EndingReassembles(v: string, p: string, n: nat)
    requires v != "" && n < |p| && p[n..] <= v
    ensures Contains(ApplyAll([Entry(v, p)], v + v[|p| - n..]), v)
  {
    var rest := v[|p| - n..];
    var s := v + rest;
    ReplaceAllStep(s, v, p);
    assert v <= s && s[|v|..] == rest;
    assert |rest| < |v| && ReplaceAll(rest, v, p) == rest;
    assert p + rest == p[..n] + v;
    assert OccursAt(p + rest, v, n);
    hide ReplaceAll;
    assert [Entry(v, p)][1..] == [];
  }

  /** And where its beginning closes the value, unless an earlier occurrence is replaced first. */
  lemma BeginningReassembles(v: string, p: string, n: nat)
    requires 0 < n <= |p| && n <= |v| && p[..n] == v[|v| - n..]
    requires var front := v[..|v| - n]; forall k: nat | k < |front| :: !OccursAt(front + v, v, k)
    ensures Contains(ApplyAll([Entry(v, p)], v[..|v| - n] + v), v)
  {
    var front := v[..|v| - n];
    hide ReplaceAll;
    ReplacedBehind(front, v, p);
    assert front + p == v + p[n..];
    assert OccursAt(front + p, v, 0);
    assert [Entry(v, p)][1..] == [];
  }

  /** Every beginning of p that closes v is out of reach: v, behind the rest of itself, is found earlier. */
  ghost predicate OutOfReach(v: string, p: string) {
    forall n | 0 < n <= |p| && n <= |v| && p[..n] == v[|v| - n..] :: FoundEarlier(v, |v| - n)
  }

  ghost predicate FoundEarlier(v: string, m: nat)
    requires m <= |v|
  {
    exists k: nat :: k < m && OccursAt(v[..m] + v, v, k)
  }

  /** For one registered value of any form, brackets included, and a placeholder that it does not hold:
      no text leaks it exactly when it is not in the placeholder, no ending of the placeholder opens it
      and every beginning that closes it is out of reach. */
  lemma LoneEntryIff(v: string, p: string)
    requires v != "" && p != "" && !Contains(v, p)
    ensures (forall s: string :: !Contains(ApplyAll([Entry(v, p)], s), v)) <==>
            !Contains(p, v) && EndsClear(p, v) && OutOfReach(v, p)
  {
    hide Contains, OccursAt, FoundEarlier;
    forall s: string ensures ApplyAll([Entry(v, p)], s) == ReplaceAll(s, v, p) { ApplyOne(v, p, s); }
    hide ReplaceAll, ApplyAll;
    if !Contains(p, v) && EndsClear(p, v) && OutOfReach(v, p) {
      forall s: string ensures !Contains(ReplaceAll(s, v, p), v) { LoneEntryKeeps(s, v, p); }
    } else if Contains(p, v) {
      ItselfReplaced(v, p);
      assert Contains(ApplyAll([Entry(v, p)], v), v);
    } else if n :| 0 <= n < |p| && p[n..] <= v {
      EndingReassembles(v, p, n);
    } else {
      var n :| 0 < n <= |p| && n <= |v| && p[..n] == v[|v| - n..] && !FoundEarlier(v, |v| - n);
      NotFound(v, |v| - n);
      BeginningReassembles(v, p, n);
    }
  }

  lemma NotFound(v: string, m: nat)
    requires m <= |v| && !FoundEarlier(v, m)
    ensures forall k: nat | k < |v[..m]| :: !OccursAt(v[..m] + v, v, k)
  {
    hide OccursAt;
  }

  lemma ApplyOne(v: string, p: string, s: string)
    requires v != ""
    ensures ApplyAll([Entry(v, p)], s) == ReplaceAll(s, v, p)
  {
    assert [Entry(v, p)][1..] == [];
  }

  lemma ItselfReplaced(v: string, p: string)
    requires v != ""
    ensures ReplaceAll(v, v, p) == p
  {
    ReplaceAllStep(v, v, p);
    ReplaceAllStep("", v, p);
    assert v[|v|..] == "" && p + "" == p;
  }

  lemma {:induction false} LoneEntryKeeps(s: string, v: string, p: string)
    requires v != "" && !Contains(v, p) && !Contains(p, v) && EndsClear(p, v) && OutOfReach(v, p)
    ensures !Contains(ReplaceAll(s, v, p), v)
    decreases |s|
  {
    hide *;
    if Contains(s, v) {
      var k := FirstOccurrence(s, v, p);
      FirstIs(s, v, p, k);
      LoneEntryKeeps(s[k + |v|..], v, p);
      NoneAcross(s, v, p, k, ReplaceAll(s[k + |v|..], v, p));
    } else {
      ReplaceAllAbsent(s, v, p);
    }
  }

  lemma FirstIs(s: string, v: string, p: string, k: nat)
    requires v != "" && FirstAt(s, v, p, k)
    ensures k + |v| <= |s| && ReplaceAll(s, v, p) == s[..k] + p + ReplaceAll(s[k + |v|..], v, p)
  {
    hide ReplaceAll;
  }

  lemma NoneAcross(s: string, v: string, p: string, k: nat, rest: string)
    requires v != "" && !Contains(v, p) && !Contains(p, v) && EndsClear(p, v) && OutOfReach(v, p)
    requires FirstAt(s, v, p, k) && !Contains(rest, v)
    ensures !Contains(s[..k] + p + rest, v)
  {
    var a := s[..k];
    var t := a + p + rest;
    hide Contains, EndsClear, OutOfReach, ReplaceAll, OccursAt;
    forall i: nat | i <= |t| ensures !OccursAt(t, v, i) {
      if OccursAt(t, v, i) {
        if i < k < i + |v| {
          AcrossStart(s, v, p, k, rest, i);
        } else if k <= i < k + |p| < i + |v| {
          CutByEnd(a, p, rest, v, i);
        } else {
          OnOneSide(a, p, rest, v, i);
        }
      }
    }
    NotContained(t, v);
  }

  lemma NotContained(t: string, v: string)
    requires forall i: nat | i <= |t| :: !OccursAt(t, v, i)
    ensures !Contains(t, v)
  {
    hide OccursAt;
  }

  lemma OnOneSide(a: string, p: string, c: string, v: string, i: nat)
    requires OccursAt(a + p + c, v, i)
    requires i + |v| <= |a| || |a| <= i <= i + |v| <= |a| + |p| || |a| + |p| <= i
    ensures Contains(a, v) || Contains(p, v) || Contains(c, v)
  {
    if i + |v| <= |a| {
      assert OccursAt(a, v, i);
    } else if |a| <= i && i + |v| <= |a| + |p| {
      assert OccursAt(p, v, i - |a|);
    } else {
      assert OccursAt(c, v, i - |a| - |p|);
    }
  }

  lemma AcrossStart(s: string, v: string, p: string, k: nat, rest: string, i: nat)
    requires v != "" && FirstAt(s, v, p, k) && i < k < i + |v| && k <= |s|
    requires OccursAt(s[..k] + p + rest, v, i) && !Contains(v, p)
    ensures !OutOfReach(v, p)
  {
    var a, n := s[..k], i + |v| - k;
    CutByStart(a, p, rest, v, i);
    hide Contains, ReplaceAll, OccursAt;
    assert n <= |p| && p[..n] == v[|v| - n..] && |v| - n == k - i;
    var y := v[..|v| - n];
    assert a[i..] == y;
    if j: nat :| j < |y| && OccursAt(y + v, v, j) {
      EarlierInText(s, v, k, i, j);
    }
  }

  /** What is found earlier in a piece of s is found earlier in s. */
  lemma EarlierInText(s: string, v: string, k: nat, i: nat, j: nat)
    requires OccursAt(s, v, k) && i <= k && OccursAt(s[i..k] + v, v, j) && j < k - i
    ensures OccursAt(s, v, i + j)
  {
    assert s[k..k + |v|] == v;
    assert s[i..k] + v == s[i..k + |v|];
    forall n | 0 <= n < |v| ensures s[i + j + n] == v[n] {
      assert s[i..k + |v|][j + n] == v[n];
    }
  }

  lemma {:induction false} ReplacedBehind(front: string, v: string, p: string)
    requires v != "" && forall k: nat | k < |front| :: !OccursAt(front + v, v, k)
    ensures ReplaceAll(front + v, v, p) == front + p
  {
    var s := front + v;
    ReplaceAllStep(s, v, p);
    if front == "" {
      assert s == v && s[|v|..] == "";
      ReplaceAllStep("", v, p);
    } else {
      assert !OccursAt(s, v, 0);
      assert s[1..] == front[1..] + v;
      forall k: nat | k < |front| - 1 ensures !OccursAt(front[1..] + v, v, k) {
        if OccursAt(s[1..], v, k) { OccursShift(s, v, k); }
      }
      hide ReplaceAll;
      ReplacedBehind(front[1..], v, p);
    }
  }

  /** So a value that opens with a bracket reappears around its own placeholder. */
  lemma BracketInValueLeaks()
    ensures var es := [Entry("]a", "[r]")];
            NonEmptyValues(es) && ApplyAll(es, "]aa") == "[r]a" && !Clean(es, ApplyAll(es, "]aa"))
  {
    var es := [Entry("]a", "[r]")];
    var s := "]aa";
    assert s[2..] == "a";
    assert ReplaceAll("a", "]a", "[r]") == "a";
    assert ReplaceAll(s, "]a", "[r]") == "[r]a";
    assert es[1..] == [];
    assert ApplyAll(es, s) == "[r]a";
    assert OccursAt("[r]a", "]a", 2);
  }
}
