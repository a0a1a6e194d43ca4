/** ext/openapi_gen.go: one JavaScript function per allowed operation of an OpenAPI document. */
module OpenAPI {
  import opened Text

  // ---- identifiers ----

  predicate IsDigit(c: char) { '0' <= c <= '9' }

  predicate IsIdentChar(c: char) {
    'A' <= c <= 'Z' || 'a' <= c <= 'z' || IsDigit(c) || c == '_'
  }

  predicate ValidIdent(s: string) {
    s != "" && !IsDigit(s[0]) && forall i | 0 <= i < |s| :: IsIdentChar(s[i])
  }

  /** Every maximal run of other bytes becomes one underscore. */
  function CollapseInvalid(s: string, inRun: bool): (t: string)
    ensures forall i | 0 <= i < |t| :: IsIdentChar(t[i])
  {
    if s == "" then ""
    else if IsIdentChar(s[0]) then [s[0]] + CollapseInvalid(s[1..], false)
    else (if inRun then "" else "_") + CollapseInvalid(s[1..], true)
  }

  function SanitizeIdent(s: string): (t: string)
    ensures ValidIdent(t)
  {
    var c := CollapseInvalid(s, false);
    if c == "" then "_" else if IsDigit(c[0]) then "_" + c else c
  }

  lemma {:induction false} CollapseKeepsValid(s: string)
    requires forall i | 0 <= i < |s| :: IsIdentChar(s[i])
    ensures CollapseInvalid(s, false) == s
  {
    if s != "" { CollapseKeepsValid(s[1..]); }
  }

  /** A name that is already an identifier is kept, so sanitizing twice changes nothing. */
  lemma SanitizeIdempotent(s: string)
    ensures ValidIdent(s) ==> SanitizeIdent(s) == s
    ensures SanitizeIdent(SanitizeIdent(s)) == SanitizeIdent(s)
  {
    if ValidIdent(s) { CollapseKeepsValid(s); }
    CollapseKeepsValid(SanitizeIdent(s));
  }

  // ---- name deduplication ----

  /** The n-th candidate for a name: the name itself, then name2, name3, ... */
  function Candidate(name: string, n: nat): string {
    if n < 2 then name else name + Decimal(n)
  }

  lemma CandidateInjective(name: string, a: nat, b: nat)
    requires 1 <= a && 1 <= b && Candidate(name, a) == Candidate(name, b)
    ensures a == b
  {
    if a >= 2 && b >= 2 {
      assert Decimal(a) == Candidate(name, a)[|name|..] == Candidate(name, b)[|name|..] == Decimal(b);
      DecimalInjective(a, b);
    }
  }

  ghost function Tried(name: string, n: nat): set<string> {
    set j: nat | 1 <= j < n :: Candidate(name, j)
  }

  /** Distinct suffixes make distinct names. */
  lemma {:induction false} TriedCount(name: string, n: nat)
    requires n >= 1
    ensures |Tried(name, n)| == n - 1
  {
    if n == 1 {
      assert Tried(name, 1) == {};
    } else {
      TriedCount(name, n - 1);
      var c := Candidate(name, n - 1);
      if c in Tried(name, n - 1) {
        var j: nat :| 1 <= j < n - 1 && Candidate(name, j) == c;
        CandidateInjective(name, j, n - 1);
      }
      assert Tried(name, n) == Tried(name, n - 1) + {c};
    }
  }

  lemma {:induction false} SubsetCount(a: set<string>, b: set<string>)
    requires a <= b
    ensures |a| <= |b|
  {
    if a != {} {
      var x :| x in a;
      SubsetCount(a - {x}, b - {x});
    }
  }

  /** The pigeonhole: as long as every candidate so far was taken, there are that many names. */
  lemma CandidatesRunOut(name: string, n: nat, used: set<string>)
    requires n >= 1 && forall j: nat | 1 <= j < n :: Candidate(name, j) in used
    ensures n - 1 <= |used|
  {
    TriedCount(name, n);
    SubsetCount(Tried(name, n), used);
  }

  /** r is the first candidate for name that is not taken. */
  ghost predicate FirstFree(name: string, used: set<string>, r: string) {
    exists n: nat | n >= 1 ::
      r == Candidate(name, n) && r !in used && forall j: nat | 1 <= j < n :: Candidate(name, j) in used
  }

  lemma FirstFreeUnique(name: string, used: set<string>, r: string, s: string)
    requires FirstFree(name, used, r) && FirstFree(name, used, s)
    ensures r == s
  {
    var m: nat :| m >= 1 && r == Candidate(name, m) && r !in used
                 && forall j: nat | 1 <= j < m :: Candidate(name, j) in used;
    var n: nat :| n >= 1 && s == Candidate(name, n) && s !in used
                 && forall j: nat | 1 <= j < n :: Candidate(name, j) in used;
    assert !(m < n) && !(n < m);
  }

  /** The names already given out; extractOperation threads it through the whole document. */
  class NameTable {
    var used: set<string>

    constructor ()
      ensures used == {}
    {
      used := {};
    }

    method Dedupe(name: string) returns (candidate: string)
      modifies this
      ensures FirstFree(name, old(used), candidate)
      ensures used == old(used) + {candidate}
    {
      candidate := name;
      var n := 2;
      while candidate in used
        invariant used == old(used)
        invariant n >= 2 && candidate == Candidate(name, n - 1)
        invariant forall j: nat | 1 <= j < n - 1 :: Candidate(name, j) in used
        invariant n - 2 <= |used|
        decreases |used| + 2 - n
      {
        CandidatesRunOut(name, n, used);
        candidate := name + Decimal(n);
        n := n + 1;
      }
      used := used + {candidate};
    }
  }

  lemma CandidateIsIdent(name: string, n: nat)
    requires ValidIdent(name)
    ensures ValidIdent(Candidate(name, n))
  {
    DecimalDigits(n);
  }

  lemma {:induction false} DecimalDigits(n: nat)
    ensures forall i | 0 <= i < |Decimal(n)| :: IsDigit(Decimal(n)[i])
  {
    if n >= 10 { DecimalDigits(n / 10); }
  }

  // ---- sorted keys ----

  /** Go's byte-wise string order. */
  predicate Before(a: string, b: string)
    decreases |a|
  {
    if b == "" then false
    else if a == "" then true
    else if a[0] != b[0] then a[0] < b[0]
    else Before(a[1..], b[1..])
  }

  lemma {:induction false} BeforeOrder(a: string, b: string, c: string)
    ensures !Before(a, a)
    ensures a == b || Before(a, b) || Before(b, a)
    ensures Before(a, b) && Before(b, c) ==> Before(a, c)
    decreases |a|
  {
    if a != "" {
      BeforeOrder(a[1..], if b == "" then b else b[1..], if c == "" then c else c[1..]);
      if b != "" && a[0] == b[0] && a[1..] == b[1..] {
        assert a == [a[0]] + a[1..] && b == [b[0]] + b[1..];
      }
    }
  }

  /** One stands before another as its beginning, or where they first differ by the smaller byte. */
  lemma {:induction false} BeforeIff(a: string, b: string)
    ensures Before(a, b) <==>
            exists n: nat :: && n <= |a| && n < |b| && a[..n] == b[..n]
                             && (n == |a| || a[n] as int < b[n] as int)
    decreases |a|
  {
    if b != "" && a != "" && a[0] == b[0] {
      BeforeIff(a[1..], b[1..]);
      if m: nat :| && m <= |a| - 1 && m < |b| - 1 && a[1..][..m] == b[1..][..m]
                   && (m == |a| - 1 || a[1..][m] as int < b[1..][m] as int) {
        assert a[..m + 1] == [a[0]] + a[1..][..m] && b[..m + 1] == [b[0]] + b[1..][..m];
      }
      if n: nat :| && n <= |a| && n < |b| && a[..n] == b[..n] && (n == |a| || a[n] as int < b[n] as int) {
        assert n > 0;
        assert a[1..][..n - 1] == a[..n][1..] == b[..n][1..] == b[1..][..n - 1];
      }
    } else if b != "" {
      assert a[..0] == b[..0];
      if a != "" && !(a[0] < b[0]) {
        forall n: nat | 0 < n <= |a| && n < |b| ensures a[..n] != b[..n] {
          assert a[..n][0] == a[0] && b[..n][0] == b[0];
        }
      }
    }
  }

  ghost predicate Sorted(xs: seq<string>) {
    forall i, j | 0 <= i < j < |xs| :: Before(xs[i], xs[j])
  }

  /** Collects a map's keys in whatever order they come and sorts them. */
  method SortedKeys(keys: set<string>) returns (out: seq<string>)
    ensures Sorted(out)
    ensures forall k :: k in out <==> k in keys
  {
    out := [];
    var rest := keys;
    while rest != {}
      invariant rest <= keys && Sorted(out)
      invariant forall k :: k in out <==> k in keys - rest
      decreases |rest|
    {
      var k :| k in rest;
      out := InsertKey(out, k);
      rest := rest - {k};
    }
  }

  method InsertKey(xs: seq<string>, k: string) returns (out: seq<string>)
    requires Sorted(xs) && k !in xs
    ensures Sorted(out)
    ensures forall x :: x in out <==> x in xs || x == k
  {
    var i := 0;
    while i < |xs| && Before(xs[i], k)
      invariant 0 <= i <= |xs|
      invariant forall j | 0 <= j < i :: Before(xs[j], k)
    {
      i := i + 1;
    }
    out := xs[..i] + [k] + xs[i..];
    forall j | i <= j < |xs| ensures Before(k, xs[j]) {
      BeforeOrder(xs[i], k, k);
      BeforeOrder(k, xs[i], xs[j]);
    }
    InsertSorted(xs, i, k);
  }

  lemma InsertSorted(xs: seq<string>, i: nat, k: string)
    requires Sorted(xs) && i <= |xs|
    requires forall j | 0 <= j < i :: Before(xs[j], k)
    requires forall j | i <= j < |xs| :: Before(k, xs[j])
    ensures Sorted(xs[..i] + [k] + xs[i..])
    ensures forall x :: x in xs[..i] + [k] + xs[i..] <==> x in xs || x == k
  {
    var out := xs[..i] + [k] + xs[i..];
    forall a, b | 0 <= a < b < |out| ensures Before(out[a], out[b]) {
      assert out[a] == if a < i then xs[a] else if a == i then k else xs[a - 1];
      assert out[b] == if b < i then xs[b] else if b == i then k else xs[b - 1];
    }
    assert xs == xs[..i] + xs[i..];
  }

  // ---- collecting operations ----

  /** What naming needs of one operation: its operationId, and the text deriveName builds
      from method and path when there is none. */
  datatype Operation = Operation(operationId: string, derived: string)

  datatype Generated = Generated(funcName: string, method_: string, path: string)

  type Spec = map<string, map<string, Operation>>

  function BaseName(op: Operation): string {
    SanitizeIdent(if op.operationId != "" then op.operationId else op.derived)
  }

  ghost function Names(ops: seq<Generated>): set<string> {
    set i | 0 <= i < |ops| :: ops[i].funcName
  }

  ghost predicate KeyBefore(a: Generated, b: Generated) {
    Before(a.path, b.path) || (a.path == b.path && Before(a.method_, b.method_))
  }

  ghost predicate FromSpec(spec: Spec, g: Generated) {
    g.path in spec && g.method_ in spec[g.path]
  }

  /** Sorted by (path, method), and every name the first free candidate at its place. */
  ghost predicate WellNamed(spec: Spec, ops: seq<Generated>) {
    && (forall i | 0 <= i < |ops| :: FromSpec(spec, ops[i]))
    && (forall i, j | 0 <= i < j < |ops| :: KeyBefore(ops[i], ops[j]))
    && (forall i | 0 <= i < |ops| ::
          FirstFree(BaseName(spec[ops[i].path][ops[i].method_]), Names(ops[..i]), ops[i].funcName))
  }

  ghost predicate Listed(ops: seq<Generated>, path: string, m: string) {
    exists i | 0 <= i < |ops| :: ops[i].path == path && ops[i].method_ == m
  }

  lemma WellNamedSnoc(spec: Spec, ops: seq<Generated>, g: Generated)
    requires WellNamed(spec, ops) && FromSpec(spec, g)
    requires forall i | 0 <= i < |ops| :: KeyBefore(ops[i], g)
    requires FirstFree(BaseName(spec[g.path][g.method_]), Names(ops), g.funcName)
    ensures WellNamed(spec, ops + [g])
    ensures Names(ops + [g]) == Names(ops) + {g.funcName}
    ensures forall p, m :: Listed(ops + [g], p, m) <==> Listed(ops, p, m) || (p == g.path && m == g.method_)
  {
    var all := ops + [g];
    forall i | 0 <= i < |all|
      ensures FromSpec(spec, all[i])
              && FirstFree(BaseName(spec[all[i].path][all[i].method_]), Names(all[..i]), all[i].funcName)
    {
      assert all[..i] == ops[..i];
      if i == |ops| { assert all[..i] == ops; }
    }
    forall x ensures x in Names(all) <==> x in Names(ops) || x == g.funcName {
      if x == g.funcName { assert all[|ops|].funcName == x; }
      if x in Names(ops) { var i :| 0 <= i < |ops| && ops[i].funcName == x; assert all[i].funcName == x; }
    }
    forall p, m ensures Listed(all, p, m) <==> Listed(ops, p, m) || (p == g.path && m == g.method_) {
      if Listed(ops, p, m) {
        var i :| 0 <= i < |ops| && ops[i].path == p && ops[i].method_ == m;
        assert all[i] == ops[i];
      }
      if p == g.path && m == g.method_ { assert all[|ops|] == g; }
    }
  }

  method CollectOperations(spec: Spec, allowed: set<string>) returns (ops: seq<Generated>)
    ensures WellNamed(spec, ops)
    ensures forall path, m ::
              Listed(ops, path, m) <==> path in spec && m in spec[path] && m in allowed
  {
    var table := new NameTable();
    ops := [];
    var paths := SortedKeys(spec.Keys);
    var i := 0;
    while i < |paths|
      invariant 0 <= i <= |paths|
      invariant WellNamed(spec, ops) && table.used == Names(ops)
      invariant forall n | 0 <= n < |ops| :: ops[n].path in paths[..i]
      invariant forall path, m ::
                  Listed(ops, path, m) <==> path in paths[..i] && m in spec[path] && m in allowed
      modifies table
    {
      assert paths[i] in paths;
      ops := CollectPath(spec, allowed, paths, i, ops, table);
      i := i + 1;
    }
    assert paths[..i] == paths;
  }

  /** The inner loop: one path's methods, in order. */
  method CollectPath(spec: Spec, allowed: set<string>, paths: seq<string>, i: nat,
                     before: seq<Generated>, table: NameTable)
    returns (ops: seq<Generated>)
    requires i < |paths| && Sorted(paths) && paths[i] in spec
    requires forall p | p in paths :: p in spec
    requires WellNamed(spec, before) && table.used == Names(before)
    requires forall n | 0 <= n < |before| :: before[n].path in paths[..i]
    requires forall path, m ::
               Listed(before, path, m) <==> path in paths[..i] && m in spec[path] && m in allowed
    modifies table
    ensures WellNamed(spec, ops) && table.used == Names(ops)
    ensures forall n | 0 <= n < |ops| :: ops[n].path in paths[..i + 1]
    ensures forall path, m ::
              Listed(ops, path, m) <==> path in paths[..i + 1] && m in spec[path] && m in allowed
  {
    var path := paths[i];
    ops := before;
    var methods := SortedKeys(spec[path].Keys);
    var j := 0;
    assert paths[..i + 1] == paths[..i] + [path];
    assert path !in paths[..i] by { SortedDistinct(paths, i); }
    while j < |methods|
      invariant 0 <= j <= |methods|
      invariant WellNamed(spec, ops) && table.used == Names(ops)
      invariant forall n | 0 <= n < |ops| ::
                  ops[n].path in paths[..i] || (ops[n].path == path && ops[n].method_ in methods[..j])
      invariant forall p, m ::
                  Listed(ops, p, m) <==>
                  (p in paths[..i] && m in spec[p] && m in allowed) || (p == path && m in methods[..j] && m in allowed)
    {
      var m := methods[j];
      assert m in methods;
      assert methods[..j + 1] == methods[..j] + [m];
      if m in allowed {
        var name := table.Dedupe(BaseName(spec[path][m]));
        var g := Generated(name, m, path);
        forall n | 0 <= n < |ops| ensures KeyBefore(ops[n], g) {
          KeysSoFarBefore(paths, i, methods, j, ops[n]);
        }
        WellNamedSnoc(spec, ops, g);
        ops := ops + [g];
      }
      j := j + 1;
    }
    assert methods[..j] == methods;
  }

  lemma SortedDistinct(xs: seq<string>, i: nat)
    requires Sorted(xs) && i < |xs|
    ensures xs[i] !in xs[..i]
  {
    forall j | 0 <= j < i ensures xs[j] != xs[i] {
      BeforeOrder(xs[j], xs[i], xs[i]);
    }
  }

  lemma KeysSoFarBefore(paths: seq<string>, i: nat, methods: seq<string>, j: nat, g: Generated)
    requires i < |paths| && Sorted(paths) && j < |methods| && Sorted(methods)
    requires g.path in paths[..i] || (g.path == paths[i] && g.method_ in methods[..j])
    ensures KeyBefore(g, Generated(g.funcName, methods[j], paths[i]))
  {}

  /** No function of the generated module shadows another, and each is a legal identifier. */
  lemma NamesDistinct(spec: Spec, ops: seq<Generated>)
    requires WellNamed(spec, ops)
    ensures forall i, j | 0 <= i < j < |ops| :: ops[i].funcName != ops[j].funcName
    ensures forall i | 0 <= i < |ops| :: ValidIdent(ops[i].funcName)
  {
    forall i, j | 0 <= i < j < |ops| ensures ops[i].funcName != ops[j].funcName {
      assert ops[..j][i].funcName in Names(ops[..j]);
    }
    forall i | 0 <= i < |ops| ensures ValidIdent(ops[i].funcName) {
      var base := BaseName(spec[ops[i].path][ops[i].method_]);
      var n: nat :| n >= 1 && ops[i].funcName == Candidate(base, n);
      CandidateIsIdent(base, n);
    }
  }

  /** An operation whose id is an identifier that no earlier function took is named by its id; one whose id
      is taken by the id and a number. */
  lemma NamedByItsId(spec: Spec, ops: seq<Generated>, i: nat)
    requires WellNamed(spec, ops) && i < |ops|
    ensures FromSpec(spec, ops[i])
    ensures var id := spec[ops[i].path][ops[i].method_].operationId;
            ValidIdent(id) ==>
              && (id !in Names(ops[..i]) ==> ops[i].funcName == id)
              && (id in Names(ops[..i]) ==> exists n: nat :: n >= 2 && ops[i].funcName == id + Decimal(n))
  {
    var op := spec[ops[i].path][ops[i].method_];
    SanitizeIdempotent(op.operationId);
    var n: nat :| n >= 1 && ops[i].funcName == Candidate(BaseName(op), n) && ops[i].funcName !in Names(ops[..i])
                  && forall j: nat | 1 <= j < n :: Candidate(BaseName(op), j) in Names(ops[..i]);
    hide SanitizeIdent, Decimal, WellNamed, FirstFree;
    if ValidIdent(op.operationId) {
      assert BaseName(op) == op.operationId;
      assert Candidate(op.operationId, 1) == op.operationId;
    }
  }

  /** Sanitizing puts one underscore for a run of other bytes, and one before a leading digit. */
  lemma SanitizeRuns(t: string, x: string, u: string)
    requires (forall i | 0 <= i < |t| :: IsIdentChar(t[i])) && x != "" && forall i | 0 <= i < |x| :: !IsIdentChar(x[i])
    requires u == "" || IsIdentChar(u[0])
    ensures CollapseInvalid(t + x + u, false) == t + "_" + CollapseInvalid(u, false)
    ensures SanitizeIdent(t + x + u) ==
            (if t != "" && IsDigit(t[0]) then "_" else "") + t + "_" + CollapseInvalid(u, false)
  {
    CollapseFront(t, x + u);
    assert t + x + u == t + (x + u);
    CollapseRun(x, u, false);
    assert t + ("_" + CollapseInvalid(u, false)) == t + "_" + CollapseInvalid(u, false);
  }

  lemma {:induction false} CollapseFront(t: string, s: string)
    requires forall i | 0 <= i < |t| :: IsIdentChar(t[i])
    ensures CollapseInvalid(t + s, false) == t + CollapseInvalid(s, false)
  {
    if t == "" {
      assert t + s == s;
    } else {
      assert (t + s)[1..] == t[1..] + s;
      CollapseFront(t[1..], s);
      assert [t[0]] + (t[1..] + CollapseInvalid(s, false)) == t + CollapseInvalid(s, false);
    }
  }

  lemma {:induction false} CollapseRun(x: string, u: string, inRun: bool)
    requires (x != "" || inRun) && (forall i | 0 <= i < |x| :: !IsIdentChar(x[i])) && (u == "" || IsIdentChar(u[0]))
    ensures CollapseInvalid(x + u, inRun) == (if inRun then "" else "_") + CollapseInvalid(u, false)
    decreases |x|
  {
    if x == "" {
      assert x + u == u;
    } else {
      assert (x + u)[1..] == x[1..] + u;
      CollapseRun(x[1..], u, true);
      assert "" + CollapseInvalid(u, false) == CollapseInvalid(u, false);
    }
  }

  /** Identifiers are letters, digits and underscores, and do not begin with a digit. */
  lemma IdentBytes(s: string)
    ensures ValidIdent(s) <==>
              && s != "" && !(48 <= s[0] as int <= 57)
              && forall i | 0 <= i < |s| ::
                   var c := s[i] as int; 65 <= c <= 90 || 97 <= c <= 122 || 48 <= c <= 57 || c == 95
  {}

  lemma SameEntry(spec: Spec, a: seq<Generated>, b: seq<Generated>, n: nat)
    requires WellNamed(spec, a) && WellNamed(spec, b)
    requires n < |a| == |b| && KeyOf(a[n]) == KeyOf(b[n]) && a[..n] == b[..n]
    ensures a[n] == b[n]
  {
    hide FirstFree, KeyBefore, Names, BaseName;
    FirstFreeUnique(BaseName(spec[a[n].path][a[n].method_]), Names(a[..n]), a[n].funcName, b[n].funcName);
  }

  /** Generation is deterministic: two listings of the same operations agree entry by entry,
      whatever order the map handed out its keys. */
  lemma {:induction false} GenerationDeterministic(spec: Spec, a: seq<Generated>, b: seq<Generated>)
    requires WellNamed(spec, a) && WellNamed(spec, b)
    requires forall path, m :: Listed(a, path, m) <==> Listed(b, path, m)
    ensures a == b
  {
    SameKeys(a, b, spec);
    hide WellNamed, Listed, Names, KeyOf;
    var n := 0;
    while n < |a|
      invariant 0 <= n <= |a| && a[..n] == b[..n]
    {
      SameEntry(spec, a, b, n);
      assert a[..n + 1] == a[..n] + [a[n]] && b[..n + 1] == b[..n] + [b[n]];
      n := n + 1;
    }
    assert a[..n] == a && b[..n] == b;
  }

  function KeyOf(g: Generated): (string, string) { (g.path, g.method_) }

  lemma KeyBeforeOrder(a: Generated, b: Generated, c: Generated)
    ensures !KeyBefore(a, a)
    ensures KeyOf(a) == KeyOf(b) || KeyBefore(a, b) || KeyBefore(b, a)
    ensures KeyBefore(a, b) && KeyBefore(b, c) ==> KeyBefore(a, c)
    ensures !(KeyBefore(a, b) && KeyBefore(b, a))
  {
    BeforeOrder(a.path, b.path, c.path);
    BeforeOrder(a.method_, b.method_, c.method_);
    BeforeOrder(a.path, b.path, a.path);
    BeforeOrder(a.method_, b.method_, a.method_);
  }

  /** Two strictly sorted listings of the same keys have the same key at every place. */
  lemma SameKeys(a: seq<Generated>, b: seq<Generated>, spec: Spec)
    requires WellNamed(spec, a) && WellNamed(spec, b)
    requires forall path, m :: Listed(a, path, m) <==> Listed(b, path, m)
    ensures |a| == |b| && forall i | 0 <= i < |a| :: KeyOf(a[i]) == KeyOf(b[i])
  {
    hide KeyBefore, WellNamed, Listed, KeyOf;
    var n := 0;
    while n < |a| && n < |b|
      invariant 0 <= n <= |a| && n <= |b|
      invariant forall i | 0 <= i < n :: KeyOf(a[i]) == KeyOf(b[i])
    {
      SameKeyAt(a, b, spec, n);
      SameKeyAt(b, a, spec, n);
      KeyBeforeOrder(a[n], b[n], a[n]);
      n := n + 1;
    }
    if n < |a| { SameKeyAt(a, b, spec, n); }
    if n < |b| { SameKeyAt(b, a, spec, n); }
  }

  lemma SameKeyAt(a: seq<Generated>, b: seq<Generated>, spec: Spec, n: nat)
    requires WellNamed(spec, a) && WellNamed(spec, b)
    requires forall path, m :: Listed(a, path, m) <==> Listed(b, path, m)
    requires n < |a| && n <= |b| && forall i | 0 <= i < n :: KeyOf(a[i]) == KeyOf(b[i])
    ensures n < |b| && !KeyBefore(a[n], b[n])
  {
    var k := SameKeyElsewhere(a, b, n);
    SortedByKey(spec, a);
    SortedByKey(spec, b);
    hide WellNamed, Listed, Before, KeyBefore;
    forall i | 0 <= i < n ensures KeyOf(b[i]) != KeyOf(a[n]) {
      KeysDiffer(a[i], a[n]);
    }
    if k > n {
      KeyBeforeOrder(b[n], b[k], b[n]);
      KeyBeforeCongruent(a[n], b[k], b[n]);
    }
    KeyBeforeOrder(a[n], a[n], a[n]);
    if k == n { KeyBeforeCongruent(a[n], b[n], a[n]); }
  }

  lemma SortedByKey(spec: Spec, ops: seq<Generated>)
    requires WellNamed(spec, ops)
    ensures forall i, j | 0 <= i < j < |ops| :: KeyBefore(ops[i], ops[j])
  {
    hide FirstFree, KeyBefore;
  }

  lemma SameKeyElsewhere(a: seq<Generated>, b: seq<Generated>, n: nat) returns (k: nat)
    requires n < |a| && forall path, m :: Listed(a, path, m) <==> Listed(b, path, m)
    ensures k < |b| && KeyOf(b[k]) == KeyOf(a[n])
  {
    assert Listed(a, a[n].path, a[n].method_);
    k :| 0 <= k < |b| && b[k].path == a[n].path && b[k].method_ == a[n].method_;
  }

  lemma KeysDiffer(a: Generated, b: Generated)
    requires KeyBefore(a, b)
    ensures KeyOf(a) != KeyOf(b)
  {
    BeforeOrder(a.path, b.path, b.path);
    BeforeOrder(a.method_, b.method_, b.method_);
  }

  lemma KeyBeforeCongruent(a: Generated, b: Generated, c: Generated)
    requires KeyOf(a) == KeyOf(b)
    ensures KeyBefore(a, c) <==> KeyBefore(b, c)
    ensures KeyBefore(c, a) <==> KeyBefore(c, b)
  {}
}
