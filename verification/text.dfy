/** Byte strings and the few `strings`/`fmt` routines the engine relies on.
    A Go string is a sequence of bytes; here each `char` stands for one byte. */
module Text {

  datatype Option<+T> = None | Some(value: T)

  /** What strings.TrimSpace removes, restricted to single-byte white space. */
  predicate IsSpace(c: char) {
    c == ' ' || c == '\t' || c == '\n' || c == '\r' || c == '\U{0B}' || c == '\U{0C}'
  }

  function TrimLeft(s: string): (t: string)
    ensures |t| <= |s| && t == s[|s| - |t|..]
    ensures t != "" ==> !IsSpace(t[0])
  {
    if s != "" && IsSpace(s[0]) then TrimLeft(s[1..]) else s
  }

  function TrimRight(s: string): (t: string)
    ensures |t| <= |s| && t == s[..|t|]
    ensures t != "" ==> !IsSpace(t[|t| - 1])
  {
    if s != "" && IsSpace(s[|s| - 1]) then TrimRight(s[..|s| - 1]) else s
  }

  function TrimSpace(s: string): (t: string)
    ensures t != "" ==> !IsSpace(t[0]) && !IsSpace(t[|t| - 1])
  {
    TrimRight(TrimLeft(s))
  }

  predicate IsBlank(s: string) { TrimSpace(s) == "" }

  predicate OccursAt(s: string, v: string, i: nat) {
    i + |v| <= |s| && forall n | 0 <= n < |v| :: s[i + n] == v[n]
  }

  predicate Contains(s: string, v: string) {
    exists i | 0 <= i <= |s| :: OccursAt(s, v, i)
  }

  function Concat(parts: seq<string>): string {
    if parts == [] then "" else parts[0] + Concat(parts[1..])
  }

  lemma {:induction false} ConcatAppend(a: seq<string>, b: seq<string>)
    ensures Concat(a + b) == Concat(a) + Concat(b)
  {
    if a == [] {
      assert a + b == b;
    } else {
      assert (a + b)[1..] == a[1..] + b;
      ConcatAppend(a[1..], b);
    }
  }

  lemma ConcatSnoc(a: seq<string>, x: string)
    ensures Concat(a + [x]) == Concat(a) + x
  {
    ConcatAppend(a, [x]);
  }

  lemma ContainsWithin(s: string, lo: nat, hi: nat, v: string)
    requires lo <= hi <= |s| && Contains(s[lo..hi], v)
    ensures Contains(s, v)
  {
    var i: nat :| i <= hi - lo && OccursAt(s[lo..hi], v, i);
    assert OccursAt(s, v, lo + i);
  }

  lemma ContainsTransitive(w: string, r: string, q: string)
    requires Contains(w, r) && Contains(r, q)
    ensures Contains(w, q)
  {
    var i: nat :| i <= |w| && OccursAt(w, r, i);
    assert w[i..i + |r|] == r;
    ContainsWithin(w, i, i + |r|, q);
  }

  /** A trimmed string is a contiguous piece of the original. */
  lemma TrimSpaceWithin(s: string, v: string)
    requires Contains(TrimSpace(s), v)
    ensures Contains(s, v)
  {
    var l := TrimLeft(s);
    var t := TrimRight(l);
    ContainsWithin(l, 0, |t|, v);
    assert s[|s| - |l|..|s|] == l;
    ContainsWithin(s, |s| - |l|, |s|, v);
  }

  /** Trimming on the right stops before a byte that is no white space. */
  lemma {:induction false} TrimRightKeepsUpTo(s: string, j: nat)
    requires j < |s| && !IsSpace(s[j])
    ensures |TrimRight(s)| > j
    decreases |s|
  {
    if IsSpace(s[|s| - 1]) { TrimRightKeepsUpTo(s[..|s| - 1], j); }
  }

  /** Leading white space does not matter to a trim. */
  lemma {:induction false} TrimSpaceSkips(s: string, n: nat)
    requires n <= |s| && forall i | 0 <= i < n :: IsSpace(s[i])
    ensures TrimSpace(s[n..]) == TrimSpace(s)
  {
    hide TrimRight;
    if n > 0 {
      assert s[1..][n - 1..] == s[n..];
      TrimSpaceSkips(s[1..], n - 1);
    } else {
      assert s[0..] == s;
    }
  }

  lemma TrimSpaceFixed(s: string)
    requires s != "" && !IsSpace(s[0]) && !IsSpace(s[|s| - 1])
    ensures TrimSpace(s) == s
  {}

  /** White space of the six kinds goes from both ends, and nothing else does. */
  lemma TrimSpaceOf(w: string, b: string, z: string)
    requires forall i | 0 <= i < |w| :: w[i] in " \t\n\r\U{0B}\U{0C}"
    requires forall i | 0 <= i < |z| :: z[i] in " \t\n\r\U{0B}\U{0C}"
    requires b != "" && b[0] !in " \t\n\r\U{0B}\U{0C}" && b[|b| - 1] !in " \t\n\r\U{0B}\U{0C}"
    ensures TrimSpace(w + b + z) == b
  {
    hide TrimSpace, TrimLeft, TrimRight;
    forall c: char ensures IsSpace(c) <==> c in " \t\n\r\U{0B}\U{0C}" { SpaceBytes(c); }
    hide IsSpace;
    TrimBoth(w, b, z);
  }

  lemma SpaceBytes(c: char)
    ensures IsSpace(c) <==> c in " \t\n\r\U{0B}\U{0C}"
  {}

  lemma TrimBoth(w: string, b: string, z: string)
    requires (forall i | 0 <= i < |w| :: IsSpace(w[i])) && (forall i | 0 <= i < |z| :: IsSpace(z[i]))
    requires b != "" && !IsSpace(b[0]) && !IsSpace(b[|b| - 1])
    ensures TrimSpace(w + b + z) == b
  {
    hide TrimLeft, TrimRight, IsSpace;
    TrimLeftOf(w, b + z);
    assert w + b + z == w + (b + z);
    TrimRightOf(b, z);
  }

  lemma {:induction false} TrimLeftOf(w: string, s: string)
    requires (forall i | 0 <= i < |w| :: IsSpace(w[i])) && s != "" && !IsSpace(s[0])
    ensures TrimLeft(w + s) == s
  {
    if w == "" {
      assert w + s == s;
    } else {
      assert (w + s)[1..] == w[1..] + s;
      TrimLeftOf(w[1..], s);
    }
  }

  lemma {:induction false} TrimRightOf(s: string, z: string)
    requires (forall i | 0 <= i < |z| :: IsSpace(z[i])) && s != "" && !IsSpace(s[|s| - 1])
    ensures TrimRight(s + z) == s
    decreases |z|
  {
    if z == "" {
      assert s + z == s;
    } else {
      assert (s + z)[..|s + z| - 1] == s + z[..|z| - 1];
      TrimRightOf(s, z[..|z| - 1]);
    }
  }

  // ---- decimal rendering (fmt's %d for a non-negative count) ----

  function Digit(d: nat): char requires d < 10 { "0123456789"[d] }

  function Decimal(n: nat): (s: string)
    ensures s != ""
  {
    if n < 10 then [Digit(n)] else Decimal(n / 10) + [Digit(n % 10)]
  }

  lemma {:induction false} DecimalMonotone(a: nat, b: nat)
    requires a <= b
    ensures |Decimal(a)| <= |Decimal(b)|
  {
    if b >= 10 && a >= 10 { DecimalMonotone(a / 10, b / 10); }
  }

  /** One more never needs more than one more digit. */
  lemma {:induction false} DecimalStep(n: nat)
    ensures |Decimal(n + 1)| <= |Decimal(n)| + 1
  {
    if n >= 10 {
      if (n + 1) / 10 == n / 10 {
      } else {
        assert (n + 1) / 10 == n / 10 + 1;
        DecimalStep(n / 10);
      }
    }
  }

  lemma {:induction false} DecimalInjective(a: nat, b: nat)
    requires Decimal(a) == Decimal(b)
    ensures a == b
  {
    hide Decimal;
    DecimalEnds(a);
    DecimalEnds(b);
    if a >= 10 && b >= 10 { DecimalInjective(a / 10, b / 10); }
  }

  /** The last digit, and what is left without it. */
  lemma DecimalEnds(n: nat)
    ensures var s := Decimal(n); s[|s| - 1] == Digit(n % 10) && s[..|s| - 1] == if n < 10 then "" else Decimal(n / 10)
  {}

  /** The number that a string of digits stands for. */
  function Numeral(s: string): int {
    if s == "" then 0 else 10 * Numeral(s[..|s| - 1]) + (s[|s| - 1] as int - '0' as int)
  }

  /** What is printed reads back as the number. */
  lemma {:induction false} DecimalReads(n: nat)
    ensures Numeral(Decimal(n)) == n
  {
    DigitReads(n % 10);
    if n < 10 {
      assert Decimal(n) == [Digit(n)] && [Digit(n)][..0] == "";
    } else {
      DecimalReads(n / 10);
      assert Decimal(n)[..|Decimal(n)| - 1] == Decimal(n / 10);
    }
  }

  lemma DigitReads(d: nat)
    requires d < 10
    ensures Digit(d) as int == d + '0' as int
  {}

  // ---- Go's int32 ----

  const TWO_31: int := 0x8000_0000
  const TWO_32: int := 0x1_0000_0000

  /** The value an int32 holds after a conversion or an overflowing sum. */
  function ToInt32(x: int): (r: int)
    ensures -TWO_31 <= r < TWO_31
    ensures -TWO_31 <= x < TWO_31 ==> r == x
  {
    (x + TWO_31) % TWO_32 - TWO_31
  }

  /** Accumulating in int32 loses only multiples of 2^32. */
  lemma ToInt32Absorbs(a: int, b: int)
    ensures ToInt32(ToInt32(a) + ToInt32(b)) == ToInt32(a + b)
  {
    var k := (a + TWO_31) / TWO_32 + (b + TWO_31) / TWO_32;
    assert ToInt32(a) + ToInt32(b) == a + b - k * TWO_32;
  }
}
