/**
 * FormatPrice from common/common.go: a plain mode that groups the decimal
 * digits in threes, and a unit mode that scales by the largest of the
 * thresholds T, B, M, K that the magnitude reaches.
 */
module Price {
  import opened Wrappers
  import opened Text

  // ---------------------------------------------------------------------
  // Plain mode
  // ---------------------------------------------------------------------

  /** t is decimal digits in groups of three separated by single spaces,
      the first group holding one to three digits. */
  predicate Grouped(t: string)
    decreases |t|
  {
    if |t| <= 3 then 1 <= |t| && AllDigits(t)
    else |t| >= 5 && Grouped(t[..|t| - 4]) && t[|t| - 4] == ' ' && AllDigits(t[|t| - 3..])
  }

  /** t with its spaces removed. */
  function Unspaced(t: string): string
  {
    if t == [] then [] else Unspaced(t[..|t| - 1]) + (if t[|t| - 1] == ' ' then [] else [t[|t| - 1]])
  }

  lemma {:induction false} UnspacedAppend(a: string, b: string)
    ensures Unspaced(a + b) == Unspaced(a) + Unspaced(b)
  {
    if b != [] {
      assert (a + b)[..|a + b| - 1] == a + b[..|b| - 1];
      UnspacedAppend(a, b[..|b| - 1]);
    } else {
      assert a + b == a;
    }
  }

  lemma {:induction false} UnspacedDigits(t: string)
    requires AllDigits(t)
    ensures Unspaced(t) == t
  {
    if t != [] {
      UnspacedDigits(t[..|t| - 1]);
      assert t == t[..|t| - 1] + [t[|t| - 1]];
    }
  }

  /** A leading group of one to three digits is grouped. */
  lemma GroupedLead(g: string)
    requires 1 <= |g| <= 3 && AllDigits(g)
    ensures Grouped(g)
  {
  }

  /** Appending a space and a full group of three digits keeps the shape. */
  lemma GroupedExtend(b: string, g: string)
    requires Grouped(b) && |g| == 3 && AllDigits(g)
    ensures Grouped(b + " " + g)
  {
    var t := b + " " + g;
    assert t[..|t| - 4] == b && t[|t| - 3..] == g;
  }

  /** The shape of a grouped text position by position: counting from the
      end, every fourth character is a space and the rest are digits. */
  lemma {:induction false} GroupedShape(t: string)
    requires Grouped(t)
    ensures |t| % 4 != 0
    ensures forall k :: 0 <= k < |t| ==> (t[k] == ' ' <==> (|t| - k) % 4 == 0)
    ensures forall k :: 0 <= k < |t| && t[k] != ' ' ==> IsDigit(t[k])
  {
    if |t| > 3 {
      var b := t[..|t| - 4];
      GroupedShape(b);
      forall k | 0 <= k < |t| ensures (t[k] == ' ' <==> (|t| - k) % 4 == 0) && (t[k] != ' ' ==> IsDigit(t[k])) {
        ShapeAt(t, b, k);
      }
    }
  }

  /** One position of a grouped text, from the shape of its shorter prefix. */
  lemma ShapeAt(t: string, b: string, k: nat)
    requires |t| >= 5 && b == t[..|t| - 4] && k < |t|
    requires t[|t| - 4] == ' ' && AllDigits(t[|t| - 3..])
    requires forall j :: 0 <= j < |b| ==> (b[j] == ' ' <==> (|b| - j) % 4 == 0)
    requires forall j :: 0 <= j < |b| && b[j] != ' ' ==> IsDigit(b[j])
    ensures t[k] == ' ' <==> (|t| - k) % 4 == 0
    ensures t[k] != ' ' ==> IsDigit(t[k])
  {
    if k < |b| {
      assert t[k] == b[k];
      assert |t| - k == (|b| - k) + 4;
    } else if k > |b| {
      assert t[k] == t[|t| - 3..][k - (|t| - 3)];
    }
  }

  /** The digits after the leading group come in whole groups of three. */
  lemma LeadGroup(len: nat, pre: int) returns (rest: nat)
    requires len >= 1 && pre == (if len % 3 == 0 then 3 else len % 3)
    ensures len == pre + 3 * rest
  {
    rest := (len - pre) / 3;
  }

  /** One iteration of the grouping loop: a space and the next three digits. */
  lemma GroupStep(b: string, s: string, i: nat)
    requires AllDigits(s) && i + 3 <= |s|
    requires Grouped(b) && Unspaced(b) == s[..i]
    ensures Grouped(b + " " + s[i..i + 3]) && Unspaced(b + " " + s[i..i + 3]) == s[..i + 3]
  {
    var g := s[i..i + 3];
    assert AllDigits(g);
    GroupedExtend(b, g);
    UnspacedStep(b, g, s[..i]);
    assert s[..i + 3] == s[..i] + g;
  }

  lemma UnspacedStep(b: string, g: string, digits: string)
    requires Unspaced(b) == digits && AllDigits(g)
    ensures Unspaced(b + " " + g) == digits + g
  {
    SpacedGroup(g);
    UnspacedAppend(b, " " + g);
    assert b + " " + g == b + (" " + g);
  }

  /** A separator and a group of digits contribute the digits. */
  lemma SpacedGroup(g: string)
    requires AllDigits(g)
    ensures Unspaced(" " + g) == g
  {
    UnspacedAppend(" ", g);
    UnspacedDigits(g);
    assert Unspaced(" ") == "";
  }

  /** The digits of |n| grouped in threes, as plain mode renders them. */
  ghost predicate GroupedDigitsOf(t: string, m: nat)
  {
    Grouped(t) && Unspaced(t) == NatToDigits(m)
  }

  /** FormatPrice(n, true): a minus sign exactly when n is negative, then
      the digits of |n| in groups of three. (The source strips the sign from
      strconv.FormatInt's output, so this branch has no int64 overflow.) */
  method FormatPlain(n: int) returns (out: string)
    ensures n < 0 ==> |out| > 0 && out[0] == '-' && GroupedDigitsOf(out[1..], -n)
    ensures n >= 0 ==> GroupedDigitsOf(out, n)
  {
    var s := FormatInt(n);
    var neg := |s| > 0 && s[0] == '-';
    if neg {
      s := s[1..];
    }
    out := GroupDigits(s);
    if neg {
      var b := out;
      out := "-" + out;
      assert out[1..] == b;
    }
  }

  /** The grouping loop of FormatPrice: a leading group of one to three
      digits, then a space before each further group of three. */
  method GroupDigits(s: string) returns (b: string)
    requires |s| >= 1 && AllDigits(s)
    ensures Grouped(b) && Unspaced(b) == s
  {
    var pre := |s| % 3;
    if pre == 0 {
      pre := 3;
    }
    b := s[..pre];
    GroupedLead(b);
    UnspacedDigits(b);
    var i := pre;
    ghost var rest: nat := LeadGroup(|s|, pre);
    while i < |s|
      invariant pre <= i <= |s| && |s| == i + 3 * rest
      invariant Grouped(b) && Unspaced(b) == s[..i]
    {
      GroupStep(b, s, i);
      b := b + " " + s[i..i + 3];
      i := i + 3;
      rest := rest - 1;
    }
    assert s[..i] == s;
  }

  /** Grouping never starts with a space, so plain mode's output starts with
      a digit for non-negative n: the sign is there iff n < 0. */
  lemma {:induction false} GroupedStartsWithDigit(t: string)
    requires Grouped(t)
    ensures |t| > 0 && IsDigit(t[0])
  {
    if |t| > 3 {
      GroupedStartsWithDigit(t[..|t| - 4]);
    }
  }

  // ---------------------------------------------------------------------
  // Unit mode
  // ---------------------------------------------------------------------

  datatype Unit = Unit(threshold: int, suffix: string)

  /** The unit table, largest first. */
  const Units: seq<Unit> := [
    Unit(1_000_000_000_000, "T"),
    Unit(1_000_000_000, "B"),
    Unit(1_000_000, "M"),
    Unit(1_000, "K")
  ]

  /** `abs := n; if abs < 0 { abs = -abs }` on int64: negating MinInt64
      overflows back to MinInt64, which stays negative. */
  function Abs64(n: int): (r: int)
    requires IsInt64(n)
    ensures IsInt64(r)
    ensures n != MinInt64 ==> r >= 0 && (r == n || r == -n)
    ensures n == MinInt64 ==> r < 0
  {
    if n >= 0 then n else if n == MinInt64 then n else -n
  }

  /** The first unit in the table whose threshold abs reaches, if any. */
  method SelectUnit(n: int) returns (u: Option<nat>)
    requires IsInt64(n)
    ensures u.None? <==> Abs64(n) < 1000
    ensures u.Some? ==> u.value < |Units| && Units[u.value].threshold <= Abs64(n)
    ensures u.Some? ==> forall j :: 0 <= j < |Units| && Units[j].threshold <= Abs64(n) ==>
                          Units[j].threshold <= Units[u.value].threshold
  {
    var abs := Abs64(n);
    var i := 0;
    while i < |Units|
      invariant 0 <= i <= |Units|
      invariant forall j :: 0 <= j < i ==> Units[j].threshold > abs
    {
      if abs >= Units[i].threshold {
        return Some(i);
      }
      i := i + 1;
    }
    assert Units[3].threshold == 1000;
    return None;
  }

  /** What FormatPrice returns: text, or in unit mode n scaled by a unit's
      threshold (the two-decimal float rendering is not modelled). */
  datatype PriceText = Text(text: string) | Scaled(n: int, unit: Unit)

  /** FormatPrice(n, useNum...): useNum picks plain mode. */
  method FormatPrice(n: int, useNum: bool) returns (r: PriceText)
    requires IsInt64(n)
    ensures useNum ==> r.Text? && (n < 0 ==> |r.text| > 0 && r.text[0] == '-' && GroupedDigitsOf(r.text[1..], -n))
    ensures useNum ==> r.Text? && (n >= 0 ==> GroupedDigitsOf(r.text, n))
    ensures !useNum && Abs64(n) < 1000 ==> r == Text(FormatInt(n))
    ensures !useNum && Abs64(n) >= 1000 ==> r.Scaled? && r.n == n && r.unit in Units
    ensures r.Scaled? ==> r.unit.threshold <= Abs64(n)
    ensures r.Scaled? ==> forall j :: 0 <= j < |Units| && Units[j].threshold <= Abs64(n) ==> Units[j].threshold <= r.unit.threshold
  {
    if useNum {
      var s := FormatPlain(n);
      return Text(s);
    }
    var u := SelectUnit(n);
    if u.Some? {
      return Scaled(n, Units[u.value]);
    }
    return Text(FormatInt(n));
  }

  /** The magnitude below 1000 prints the plain decimal, and MinInt64 does
      too, since its overflowed magnitude reaches no threshold. */
  lemma MinInt64IsPlain()
    ensures Abs64(MinInt64) < 1000
  {
  }
}
