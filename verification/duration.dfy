/**
 * TimeUntilISO8601 and ElapsedSinceISO8601 from common/common.go: a
 * positive whole number of seconds is broken down into weeks, days, hours,
 * minutes and seconds by successive division, and only the non-zero parts
 * are rendered ("1w 2h 5s"); seconds are shown alone when nothing else is.
 */
module Duration {
  import opened Wrappers
  import opened Text

  const NanosPerSecond := 1_000_000_000

  /** Unit 0..4 is weeks, days, hours, minutes, seconds. */
  type UnitIndex = u: nat | u < 5

  /** Seconds in one unit. */
  function Weight(u: UnitIndex): (w: nat)
    ensures w >= 1
  {
    [604800, 86400, 3600, 60, 1][u]
  }

  /** How many of unit u make one of the next larger unit (u >= 1). */
  function Radix(u: UnitIndex): (r: nat)
    requires u >= 1
    ensures Weight(u - 1) == r * Weight(u)
  {
    [7, 24, 60, 60][u - 1]
  }

  function UnitLetter(u: UnitIndex): char
  {
    "wdhms"[u]
  }

  // ---------------------------------------------------------------------
  // Mixed-radix decomposition
  // ---------------------------------------------------------------------

  datatype Breakdown = Breakdown(weeks: nat, days: nat, hours: nat, minutes: nat, seconds: nat)

  function Recompose(b: Breakdown): nat
  {
    b.weeks * 604800 + b.days * 86400 + b.hours * 3600 + b.minutes * 60 + b.seconds
  }

  predicate InRange(b: Breakdown)
  {
    b.days < 7 && b.hours < 24 && b.minutes < 60 && b.seconds < 60
  }

  /** The successive `/` and `%=` of the source on a non-negative count. */
  method Decompose(total: nat) returns (b: Breakdown)
    ensures Recompose(b) == total && InRange(b)
  {
    var t := total;
    var weeks := t / (7 * 24 * 3600);
    t := t % (7 * 24 * 3600);
    var days := t / (24 * 3600);
    t := t % (24 * 3600);
    var hours := t / 3600;
    t := t % 3600;
    var minutes := t / 60;
    var seconds := t % 60;
    b := Breakdown(weeks, days, hours, minutes, seconds);
  }

  /** c1 * w + r1 == c2 * w + r2 with both remainders below w forces the
      same quotient and remainder. */
  lemma QuotientUnique(c1: nat, r1: nat, c2: nat, r2: nat, w: nat)
    requires w >= 1 && r1 < w && r2 < w && c1 * w + r1 == c2 * w + r2
    ensures c1 == c2 && r1 == r2
  {
    if c1 < c2 {
      assert (c1 + 1) * w <= c2 * w by { MulMonotone(c1 + 1, c2, w); }
    } else if c2 < c1 {
      assert (c2 + 1) * w <= c1 * w by { MulMonotone(c2 + 1, c1, w); }
    }
  }

  lemma MulMonotone(a: nat, b: nat, w: nat)
    requires a <= b
    ensures a * w <= b * w
  {
  }

  /** The breakdown of a count is unique: Decompose's result is the only
      in-range breakdown that recomposes to the count. */
  lemma DecompositionUnique(b1: Breakdown, b2: Breakdown)
    requires InRange(b1) && InRange(b2) && Recompose(b1) == Recompose(b2)
    ensures b1 == b2
  {
    var r1 := b1.days * 86400 + b1.hours * 3600 + b1.minutes * 60 + b1.seconds;
    var r2 := b2.days * 86400 + b2.hours * 3600 + b2.minutes * 60 + b2.seconds;
    QuotientUnique(b1.weeks, r1, b2.weeks, r2, 604800);
    var s1 := b1.hours * 3600 + b1.minutes * 60 + b1.seconds;
    var s2 := b2.hours * 3600 + b2.minutes * 60 + b2.seconds;
    QuotientUnique(b1.days, s1, b2.days, s2, 86400);
    var m1 := b1.minutes * 60 + b1.seconds;
    var m2 := b2.minutes * 60 + b2.seconds;
    QuotientUnique(b1.hours, m1, b2.hours, m2, 3600);
    QuotientUnique(b1.minutes, b1.seconds, b2.minutes, b2.seconds, 60);
  }

  // ---------------------------------------------------------------------
  // The rendered parts
  // ---------------------------------------------------------------------

  /** One "%d<unit>" part. */
  datatype Part = Part(count: nat, unit: UnitIndex)

  function PartText(p: Part): string
  {
    NatToDigits(p.count) + [UnitLetter(p.unit)]
  }

  function PartTexts(parts: seq<Part>): (r: seq<string>)
    ensures |r| == |parts|
    ensures forall i :: 0 <= i < |parts| ==> r[i] == PartText(parts[i])
  {
    if parts == [] then [] else [PartText(parts[0])] + PartTexts(parts[1..])
  }

  /** strings.Join(parts, " "). */
  function Render(parts: seq<Part>): string
  {
    Join(PartTexts(parts), ' ')
  }

  /** The seconds the parts stand for. */
  function Total(parts: seq<Part>): nat
  {
    if parts == [] then 0 else parts[0].count * Weight(parts[0].unit) + Total(parts[1..])
  }

  /** Parts in unit order, each non-zero and below its radix. */
  predicate Proper(parts: seq<Part>)
  {
    && (forall i, j :: 0 <= i < j < |parts| ==> parts[i].unit < parts[j].unit)
    && (forall i :: 0 <= i < |parts| ==> parts[i].count > 0)
    && (forall i :: 0 <= i < |parts| && parts[i].unit >= 1 ==> parts[i].count < Radix(parts[i].unit))
  }

  /** What the rendering shows: the proper non-zero parts, or "0s" alone. */
  predicate Canonical(parts: seq<Part>)
  {
    (parts != [] && Proper(parts)) || parts == [Part(0, 4)]
  }

  /** Parts in units u and below add up to less than one of the unit above. */
  lemma {:induction false} TotalBelow(parts: seq<Part>, u: UnitIndex)
    requires u >= 1 && Proper(parts)
    requires forall i :: 0 <= i < |parts| ==> parts[i].unit >= u
    ensures Total(parts) < Weight(u - 1)
  {
    if parts != [] {
      var a := parts[0].unit;
      var c := parts[0].count;
      if a < 4 {
        assert Proper(parts[1..]);
        TotalBelow(parts[1..], a + 1);
      } else {
        ProperLength(parts);
        assert parts[1..] == [];
      }
      assert c * Weight(a) <= (Radix(a) - 1) * Weight(a) by { MulMonotone(c, Radix(a) - 1, Weight(a)); }
      assert Weight(a - 1) <= Weight(u - 1) by { WeightDecreasing(u - 1, a - 1); }
    }
  }

  lemma WeightDecreasing(u: UnitIndex, v: UnitIndex)
    requires u <= v
    ensures Weight(v) <= Weight(u)
  {
  }

  /** Proper parts are determined by their total. */
  lemma {:induction false} ProperUnique(p: seq<Part>, q: seq<Part>)
    requires Proper(p) && Proper(q) && Total(p) == Total(q)
    ensures p == q
  {
    if p != [] && q != [] {
      var a, b := p[0].unit, q[0].unit;
      if a < b {
        LeadDominates(p, q);
      } else if b < a {
        LeadDominates(q, p);
      } else {
        SameLead(p, q);
        ProperUnique(p[1..], q[1..]);
        assert p == [p[0]] + p[1..] && q == [q[0]] + q[1..];
      }
    } else if p != [] {
      ProperPositive(p);
    } else if q != [] {
      ProperPositive(q);
    }
  }

  /** Equal totals with the same leading unit: the leading counts agree and
      so do the totals of the rest. */
  lemma SameLead(p: seq<Part>, q: seq<Part>)
    requires Proper(p) && Proper(q) && Total(p) == Total(q)
    requires p != [] && q != [] && p[0].unit == q[0].unit
    ensures p[0] == q[0] && Total(p[1..]) == Total(q[1..])
    ensures Proper(p[1..]) && Proper(q[1..])
  {
    RestBelow(p);
    RestBelow(q);
    QuotientUnique(p[0].count, Total(p[1..]), q[0].count, Total(q[1..]), Weight(p[0].unit));
  }

  lemma ProperPositive(p: seq<Part>)
    requires Proper(p) && p != []
    ensures Total(p) >= 1
  {
    MulMonotone(1, p[0].count, Weight(p[0].unit));
  }

  /** After the leading part, the rest adds up to less than one of its unit. */
  lemma RestBelow(p: seq<Part>)
    requires Proper(p) && p != []
    ensures Total(p[1..]) < Weight(p[0].unit)
  {
    var a := p[0].unit;
    if a < 4 {
      assert Proper(p[1..]);
      TotalBelow(p[1..], a + 1);
    } else {
      ProperLength(p);
      assert p[1..] == [];
    }
  }

  /** Units strictly increase, so at most 5 - u parts start at unit u. */
  lemma {:induction false} ProperLength(p: seq<Part>)
    requires Proper(p) && p != []
    ensures |p| <= 5 - p[0].unit
  {
    if |p| > 1 {
      assert Proper(p[1..]);
      ProperLength(p[1..]);
    }
  }

  /** A proper list leading with a larger unit outweighs one leading with a
      smaller unit, so the two cannot have equal totals. */
  lemma LeadDominates(p: seq<Part>, q: seq<Part>)
    requires Proper(p) && Proper(q) && p != [] && q != [] && p[0].unit < q[0].unit
    ensures Total(q) < Total(p)
  {
    var a, b := p[0].unit, q[0].unit;
    assert Proper(q);
    TotalBelow(q, b);
    WeightDecreasing(a, b - 1);
    MulMonotone(1, p[0].count, Weight(a));
  }

  /** Canonical parts are determined by their total: the rendering of a
      second count is unique. */
  lemma CanonicalUnique(p: seq<Part>, q: seq<Part>)
    requires Canonical(p) && Canonical(q) && Total(p) == Total(q)
    ensures p == q
  {
    if p != [Part(0, 4)] && q != [Part(0, 4)] {
      ProperUnique(p, q);
    } else {
      CanonicalZero(p);
      CanonicalZero(q);
    }
  }

  /** Only the "0s" rendering stands for zero seconds. */
  lemma CanonicalZero(p: seq<Part>)
    requires Canonical(p)
    ensures p == [Part(0, 4)] <==> Total(p) == 0
  {
    if p != [Part(0, 4)] {
      ProperPositive(p);
    } else {
      assert Total(p) == 0 * Weight(4) + Total([]);
    }
  }

  lemma {:induction false} TotalAppend(ps: seq<Part>, p: Part)
    ensures Total(ps + [p]) == Total(ps) + p.count * Weight(p.unit)
  {
    if ps != [] {
      assert (ps + [p])[1..] == ps[1..] + [p];
      TotalAppend(ps[1..], p);
    }
  }

  /** ps is proper, adds up to acc and uses only units below u. */
  predicate Upto(ps: seq<Part>, u: nat, acc: nat)
  {
    Proper(ps) && Total(ps) == acc && forall i :: 0 <= i < |ps| ==> ps[i].unit < u
  }

  /** The parts after one `if x > 0 { parts = append(parts, ...) }`. */
  function Include(ps: seq<Part>, c: nat, u: UnitIndex): seq<Part>
  {
    if c > 0 then ps + [Part(c, u)] else ps
  }

  /** The parts after the last append: seconds are shown when non-zero or
      when no other part precedes them. */
  function Finish(ps: seq<Part>, s: nat): seq<Part>
  {
    if s > 0 || |ps| == 0 then ps + [Part(s, 4)] else ps
  }

  /** The parts the source collects for a breakdown. */
  function Shown(b: Breakdown): seq<Part>
  {
    Finish(Include(Include(Include(Include([], b.weeks, 0), b.days, 1), b.hours, 2), b.minutes, 3), b.seconds)
  }

  /** One conditional append keeps the parts proper and adds its seconds. */
  lemma Step(ps: seq<Part>, acc: nat, c: nat, u: UnitIndex)
    requires Upto(ps, u, acc) && (u >= 1 ==> c < Radix(u))
    ensures Upto(Include(ps, c, u), u + 1, acc + c * Weight(u))
  {
    if c > 0 {
      var r := ps + [Part(c, u)];
      AppendPart(ps, Part(c, u));
      forall i | 0 <= i < |r| ensures r[i].unit < u + 1 {
        if i < |ps| {
          assert r[i] == ps[i];
        }
      }
    } else {
      assert c * Weight(u) == 0;
    }
  }

  lemma FinishCanonical(ps: seq<Part>, acc: nat, s: nat)
    requires Upto(ps, 4, acc) && s < 60
    ensures Canonical(Finish(ps, s)) && Total(Finish(ps, s)) == acc + s
  {
    if s > 0 {
      AppendPart(ps, Part(s, 4));
    } else if |ps| == 0 {
      assert Total([Part(s, 4)]) == s * Weight(4) + Total([]);
    }
  }

  /** The shown parts are canonical and add up to the breakdown's seconds. */
  lemma ShownCanonical(b: Breakdown)
    requires InRange(b)
    ensures Canonical(Shown(b)) && Total(Shown(b)) == Recompose(b)
  {
    var p0 := Include([], b.weeks, 0);
    Step([], 0, b.weeks, 0);
    var p1 := Include(p0, b.days, 1);
    Step(p0, b.weeks * 604800, b.days, 1);
    var p2 := Include(p1, b.hours, 2);
    Step(p1, b.weeks * 604800 + b.days * 86400, b.hours, 2);
    var p3 := Include(p2, b.minutes, 3);
    Step(p2, b.weeks * 604800 + b.days * 86400 + b.hours * 3600, b.minutes, 3);
    FinishCanonical(p3, Recompose(b) - b.seconds, b.seconds);
  }

  /** Appending a non-zero in-range part of a later unit keeps the parts
      proper and adds its seconds to the total. */
  lemma AppendPart(ps: seq<Part>, p: Part)
    requires Proper(ps) && p.count > 0 && (p.unit >= 1 ==> p.count < Radix(p.unit))
    requires forall i :: 0 <= i < |ps| ==> ps[i].unit < p.unit
    ensures Proper(ps + [p]) && Total(ps + [p]) == Total(ps) + p.count * Weight(p.unit)
  {
    TotalAppend(ps, p);
    var r := ps + [p];
    forall i | 0 <= i < |r| ensures r[i] == (if i < |ps| then ps[i] else p) {
    }
    forall i, j | 0 <= i < j < |r| ensures r[i].unit < r[j].unit {
      if j < |ps| {
        assert r[i] == ps[i] && r[j] == ps[j];
      }
    }
  }

  /** The rendering is never empty and starts with a digit. */
  lemma RenderStartsWithDigit(parts: seq<Part>)
    requires parts != []
    ensures |Render(parts)| > 0 && IsDigit(Render(parts)[0])
  {
    var texts := PartTexts(parts);
    assert texts[0] == NatToDigits(parts[0].count) + [UnitLetter(parts[0].unit)];
    JoinHead(texts, ' ');
  }

  lemma JoinHead(parts: seq<string>, sep: char)
    requires parts != [] && parts[0] != []
    ensures |Join(parts, sep)| > 0 && Join(parts, sep)[0] == parts[0][0]
  {
  }

  // ---------------------------------------------------------------------
  // The two renderings
  // ---------------------------------------------------------------------

  /** The shared body of both functions after the sign check. */
  method Humanize(totalSeconds: nat) returns (text: string)
    ensures Renders(text, totalSeconds)
  {
    var b := Decompose(totalSeconds);
    var ps: seq<Part> := [];
    if b.weeks > 0 {
      ps := ps + [Part(b.weeks, 0)];
    }
    if b.days > 0 {
      ps := ps + [Part(b.days, 1)];
    }
    if b.hours > 0 {
      ps := ps + [Part(b.hours, 2)];
    }
    if b.minutes > 0 {
      ps := ps + [Part(b.minutes, 3)];
    }
    if b.seconds > 0 || |ps| == 0 {
      ps := ps + [Part(b.seconds, 4)];
    }
    ShownCanonical(b);
    text := Render(ps);
    assert Canonical(ps) && Total(ps) == totalSeconds && text == Render(ps);
  }

  /** text is the rendering of a count of seconds. */
  ghost predicate Renders(text: string, seconds: nat)
  {
    exists parts :: Canonical(parts) && Total(parts) == seconds && text == Render(parts)
  }

  /** The rendering of a count of seconds is unique. */
  lemma RendersUnique(t1: string, t2: string, seconds: nat)
    requires Renders(t1, seconds) && Renders(t2, seconds)
    ensures t1 == t2
  {
    var p1 :| Canonical(p1) && Total(p1) == seconds && t1 == Render(p1);
    var p2 :| Canonical(p2) && Total(p2) == seconds && t2 == Render(p2);
    CanonicalUnique(p1, p2);
  }

  /** A rendering starts with a digit and ends with a unit letter, so it is
      never the "0" or "-" that the early returns give. */
  lemma RendersNotSentinel(text: string, seconds: nat)
    requires Renders(text, seconds)
    ensures |text| >= 2 && IsDigit(text[0]) && text != "0" && text != "-"
  {
    var parts :| Canonical(parts) && Total(parts) == seconds && text == Render(parts);
    RenderStartsWithDigit(parts);
    RenderEndsWithUnit(parts);
  }

  lemma RenderEndsWithUnit(parts: seq<Part>)
    requires parts != []
    ensures |Render(parts)| >= 2 && !IsDigit(Render(parts)[|Render(parts)| - 1])
  {
    var texts := PartTexts(parts);
    JoinLast(texts, ' ');
    var last := texts[|texts| - 1];
    assert last == NatToDigits(parts[|parts| - 1].count) + [UnitLetter(parts[|parts| - 1].unit)];
    assert !IsDigit(last[|last| - 1]);
  }

  /** Join ends with the last piece. */
  lemma {:induction false} JoinLast(parts: seq<string>, sep: char)
    requires parts != []
    ensures |Join(parts, sep)| >= |parts[|parts| - 1]|
    ensures Join(parts, sep)[|Join(parts, sep)| - |parts[|parts| - 1]|..] == parts[|parts| - 1]
  {
    if |parts| > 1 {
      JoinLast(parts[1..], sep);
      assert parts[1..][|parts[1..]| - 1] == parts[|parts| - 1];
    }
  }

  /** time.Time.Sub (and time.Since, which is Now().Sub): the nanoseconds
      from u to t as a time.Duration, an int64 that saturates at its bounds
      when the true difference does not fit. The sign is always right. */
  function Sub(t: int, u: int): (d: int)
    ensures IsInt64(d)
    ensures IsInt64(t - u) ==> d == t - u
    ensures d > 0 <==> t > u
    ensures d == 0 <==> t == u
  {
    if t - u > MaxInt64 then MaxInt64 else if t - u < MinInt64 then MinInt64 else t - u
  }

  /** A later t or an earlier u never gives a shorter duration, and beyond
      the int64 range the duration stays at the bound. */
  lemma SubMonotone(t1: int, t2: int, u1: int, u2: int)
    requires t1 <= t2 && u2 <= u1
    ensures Sub(t1, u1) <= Sub(t2, u2)
    ensures t1 - u1 >= MaxInt64 ==> Sub(t1, u1) == Sub(t2, u2) == MaxInt64
  {
  }

  /** TimeUntilISO8601. `target` is the parsed timestamp (None when
      time.Parse fails) and `now` the clock, both in Unix nanoseconds. */
  method TimeUntil(target: Option<int>, now: int) returns (text: string)
    ensures target.None? ==> text == "-"
    ensures target.Some? && target.value <= now ==> text == "0"
    ensures target.Some? && target.value > now ==> Renders(text, Sub(target.value, now) / NanosPerSecond)
    ensures target.Some? && target.value - now >= MaxInt64 ==> Renders(text, MaxInt64 / NanosPerSecond)
  {
    if target.None? {
      return "-";
    }
    var diff := Sub(target.value, now);
    if diff <= 0 {
      return "0";
    }
    text := Humanize(diff / NanosPerSecond);
  }

  /** ElapsedSinceISO8601: the same rendering of now - t, but a timestamp
      that does not parse gives "0", not "-". */
  method ElapsedSince(since: Option<int>, now: int) returns (text: string)
    ensures since.None? ==> text == "0"
    ensures since.Some? && now <= since.value ==> text == "0"
    ensures since.Some? && now > since.value ==> Renders(text, Sub(now, since.value) / NanosPerSecond)
    ensures since.Some? && now - since.value >= MaxInt64 ==> Renders(text, MaxInt64 / NanosPerSecond)
  {
    if since.None? {
      return "0";
    }
    var diff := Sub(now, since.value);
    if diff <= 0 {
      return "0";
    }
    text := Humanize(diff / NanosPerSecond);
  }
}
