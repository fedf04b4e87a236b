/** The Segment class of entities.py: ragged binary subdivision of the world
    rectangle into the cells that each receive one asteroid. */
module Segments {
  import opened Physics

  /** Segment.RAGGEDNESS: the ragged factor is drawn from [0, Raggedness]. */
  const Raggedness: real := 0.5

  /** An axis-aligned rectangle with its origin at (x, y). */
  datatype Segment = Segment(width: real, height: real, x: real, y: real)

  /** Segment(size=...): a rectangle of that size at the origin. */
  function FromSize(size: Size): Segment
  {
    Segment(size.width, size.height, 0.0, 0.0)
  }

  /** What Segment.split returns: the segment itself, or its two parts. */
  datatype Parts = Whole(seg: Segment) | Halves(first: Segment, second: Segment)

  /** Split cuts the width only when it is strictly the longer side. */
  predicate SplitsWidth(s: Segment)
  {
    s.width > s.height
  }

  /** The length of the side that split cuts. */
  function Axis(s: Segment): real
  {
    if SplitsWidth(s) then s.width else s.height
  }

  /** The smaller of the two parts a side of length len is cut into. */
  function Smaller(len: real, factor: real): real
  {
    len / 2.0 - factor * (len / 2.0)
  }

  /** Segment.split with the uniform draw `factor` as a parameter. The chosen side is
      cut into half + factor*half and half - factor*half; when the smaller part would
      be shorter than minimum the segment is returned whole. */
  function Split(s: Segment, minimum: real, factor: real): (p: Parts)
    ensures p.Whole? ==> p.seg == s
    ensures p.Halves? <==> Smaller(Axis(s), factor) >= minimum
    ensures p.Halves? && SplitsWidth(s) ==>
      && p.first.width + p.second.width == s.width
      && p.second.width == Smaller(s.width, factor)
      && p.first.height == s.height && p.second.height == s.height
      && p.first.x == s.x && p.first.y == s.y
      && p.second.x == s.x + p.first.width && p.second.y == s.y
    ensures p.Halves? && !SplitsWidth(s) ==>
      && p.first.height + p.second.height == s.height
      && p.second.height == Smaller(s.height, factor)
      && p.first.width == s.width && p.second.width == s.width
      && p.first.x == s.x && p.first.y == s.y
      && p.second.y == s.y + p.first.height && p.second.x == s.x
  {
    if s.width > s.height then
      var width := s.width / 2.0;
      var ragged := factor * width;
      if width - ragged < minimum then Whole(s)
      else Halves(Segment(width + ragged, s.height, s.x, s.y),
                  Segment(width - ragged, s.height, s.x + width + ragged, s.y))
    else
      var height := s.height / 2.0;
      var ragged := factor * height;
      if height - ragged < minimum then Whole(s)
      else Halves(Segment(s.width, height + ragged, s.x, s.y),
                  Segment(s.width, height - ragged, s.x, s.y + height + ragged))
  }

  lemma MulNonNegative(a: real, b: real)
    requires 0.0 <= a && 0.0 <= b
    ensures 0.0 <= a * b
  {
  }

  /** With a factor in [0, 1/2], a positive smaller part means a positive half,
      and the offset factor*half lies in [0, half/2]. */
  lemma RaggedOffset(half: real, factor: real)
    requires 0.0 <= factor <= Raggedness
    requires 0.0 < half - factor * half
    ensures 0.0 < half
    ensures 0.0 <= factor * half <= half / 2.0
  {
    assert half - factor * half == half * (1.0 - factor);
    MulNonNegative(factor, half);
    MulNonNegative(0.5 - factor, half);
    assert (0.5 - factor) * half == half / 2.0 - factor * half;
  }

  /** With a factor in [0, 1/2], a side that split leaves whole is shorter than
      four times minimum. */
  lemma WholeOffset(len: real, factor: real, minimum: real)
    requires 0.0 < minimum && 0.0 <= factor <= Raggedness
    requires Smaller(len, factor) < minimum
    ensures len < 4.0 * minimum
  {
    var half := len / 2.0;
    if 0.0 <= half {
      MulNonNegative(0.5 - factor, half);
      assert (0.5 - factor) * half == half / 2.0 - factor * half;
    }
  }

  /** For a factor in [0, 1/2], each part is at least minimum long, the first part is
      at least as long as the second and at most three quarters of the side. */
  lemma SplitBounds(s: Segment, minimum: real, factor: real)
    requires 0.0 < minimum && 0.0 <= factor <= Raggedness
    requires Split(s, minimum, factor).Halves?
    ensures var p := Split(s, minimum, factor);
      if SplitsWidth(s) then
        minimum <= p.second.width <= p.first.width <= 0.75 * s.width
      else
        minimum <= p.second.height <= p.first.height <= 0.75 * s.height
  {
    PartBounds(Axis(s), factor, minimum);
  }

  /** The two parts of a side of length len cut with the given factor. */
  lemma PartBounds(len: real, factor: real, minimum: real)
    requires 0.0 < minimum && 0.0 <= factor <= Raggedness
    requires minimum <= Smaller(len, factor)
    ensures Smaller(len, factor) <= len - Smaller(len, factor) <= 0.75 * len
  {
    var half := len / 2.0;
    assert Smaller(len, factor) == half - factor * half;
    RaggedOffset(half, factor);
    assert len - Smaller(len, factor) == half + factor * half;
  }

  /** A split that leaves the segment whole leaves both of its sides shorter than
      four times minimum, for a factor in [0, 1/2]. */
  lemma WholeIsSmall(s: Segment, minimum: real, factor: real)
    requires 0.0 < minimum && 0.0 <= factor <= Raggedness
    requires Split(s, minimum, factor).Whole?
    ensures s.width < 4.0 * minimum && s.height < 4.0 * minimum
  {
    WholeOffset(Axis(s), factor, minimum);
  }

  // Termination: every split shortens the cut side by at least minimum.

  function Pos(v: real): real
  {
    if v > 0.0 then v else 0.0
  }

  /** How many times minimum fits into a side. */
  function Steps(len: real, minimum: real): nat
    requires 0.0 < minimum
  {
    var q := Pos(len) / minimum;
    assert 0.0 <= q;
    q.Floor
  }

  function Measure(s: Segment, minimum: real): nat
    requires 0.0 < minimum
  {
    Steps(s.width, minimum) + Steps(s.height, minimum)
  }

  lemma StepsShrink(shorter: real, len: real, minimum: real)
    requires 0.0 < minimum && 0.0 < shorter && shorter <= len - minimum
    ensures Steps(shorter, minimum) < Steps(len, minimum)
  {
    var q, big := shorter / minimum, len / minimum;
    DivMono(shorter, len - minimum, minimum);
    DivSub(len, minimum, minimum);
    assert minimum / minimum == 1.0;
    assert q <= big - 1.0;
    assert Steps(shorter, minimum) == q.Floor;
    assert Steps(len, minimum) == big.Floor;
  }

  lemma DivSub(a: real, b: real, m: real)
    requires 0.0 < m
    ensures (a - b) / m == a / m - b / m
  {
  }

  lemma DivMono(a: real, b: real, m: real)
    requires 0.0 < m && a <= b
    ensures a / m <= b / m
  {
    DivSub(b, a, m);
    assert 0.0 <= (b - a) / m;
  }

  lemma SplitShrinks(s: Segment, minimum: real, factor: real)
    requires 0.0 < minimum && 0.0 <= factor <= Raggedness
    requires Split(s, minimum, factor).Halves?
    ensures Measure(Split(s, minimum, factor).first, minimum) < Measure(s, minimum)
    ensures Measure(Split(s, minimum, factor).second, minimum) < Measure(s, minimum)
  {
    var p := Split(s, minimum, factor);
    SplitBounds(s, minimum, factor);
    if SplitsWidth(s) {
      StepsShrink(p.first.width, s.width, minimum);
      StepsShrink(p.second.width, s.width, minimum);
    } else {
      StepsShrink(p.first.height, s.height, minimum);
      StepsShrink(p.second.height, s.height, minimum);
    }
  }

  /** Every draw of the ragged factor lies in [0, Raggedness], as uniform() guarantees. */
  ghost predicate Ragged(rag: nat -> real)
  {
    forall i: nat :: 0.0 <= rag(i) <= Raggedness
  }

  /** Segment.recursive_split. rag(n) is the n-th ragged factor drawn; the draws
      are consumed in pre-order, and the result carries the index of the next
      undrawn factor. Each leaf and each split consumes one draw, so a run that
      yields k leaves consumes 2k - 1 draws. */
  function RecursiveSplit(s: Segment, minimum: real, rag: nat -> real, n: nat): (res: (seq<Segment>, nat))
    requires 0.0 < minimum && Ragged(rag)
    ensures 1 <= |res.0| && res.1 == n + 2 * |res.0| - 1
    decreases Measure(s, minimum)
  {
    var p := Split(s, minimum, rag(n));
    if p.Whole? then ([s], n + 1)
    else
      SplitShrinks(s, minimum, rag(n));
      var left := RecursiveSplit(p.first, minimum, rag, n + 1);
      var right := RecursiveSplit(p.second, minimum, rag, left.1);
      (left.0 + right.0, right.1)
  }

  /** The leaves recursive_split yields, in order. */
  function Leaves(s: Segment, minimum: real, rag: nat -> real, n: nat): seq<Segment>
    requires 0.0 < minimum && Ragged(rag)
  {
    RecursiveSplit(s, minimum, rag, n).0
  }

  predicate Inside(inner: Segment, outer: Segment)
  {
    && outer.x <= inner.x && inner.x + inner.width <= outer.x + outer.width
    && outer.y <= inner.y && inner.y + inner.height <= outer.y + outer.height
  }

  /** a lies wholly to the left of b or wholly below it. */
  predicate Before(a: Segment, b: Segment)
  {
    a.x + a.width <= b.x || a.y + a.height <= b.y
  }

  predicate Covers(s: Segment, px: real, py: real)
  {
    s.x <= px < s.x + s.width && s.y <= py < s.y + s.height
  }

  function Area(s: Segment): real
  {
    s.width * s.height
  }

  function TotalArea(ss: seq<Segment>): real
  {
    if ss == [] then 0.0 else Area(ss[0]) + TotalArea(ss[1..])
  }

  /** A split that cuts the segment yields the leaves of its first part followed by
      the leaves of its second part, the second part drawing after the first. */
  lemma LeavesOfHalves(s: Segment, minimum: real, rag: nat -> real, n: nat)
    requires 0.0 < minimum && Ragged(rag)
    requires Split(s, minimum, rag(n)).Halves?
    ensures var p := Split(s, minimum, rag(n));
      && Measure(p.first, minimum) < Measure(s, minimum)
      && Measure(p.second, minimum) < Measure(s, minimum)
      && Leaves(s, minimum, rag, n)
         == Leaves(p.first, minimum, rag, n + 1)
            + Leaves(p.second, minimum, rag, RecursiveSplit(p.first, minimum, rag, n + 1).1)
  {
    SplitShrinks(s, minimum, rag(n));
  }

  /** Both parts of a split lie inside the segment. */
  lemma SplitInside(s: Segment, minimum: real, factor: real)
    requires 0.0 < minimum && 0.0 <= factor <= Raggedness
    requires Split(s, minimum, factor).Halves?
    ensures Inside(Split(s, minimum, factor).first, s)
    ensures Inside(Split(s, minimum, factor).second, s)
  {
    SplitBounds(s, minimum, factor);
  }

  /** Every leaf lies inside the segment that was split. */
  lemma {:induction false} LeavesInside(s: Segment, minimum: real, rag: nat -> real, n: nat)
    requires 0.0 < minimum && Ragged(rag)
    ensures forall leaf :: leaf in Leaves(s, minimum, rag, n) ==> Inside(leaf, s)
    decreases Measure(s, minimum)
  {
    var p := Split(s, minimum, rag(n));
    if p.Halves? {
      LeavesOfHalves(s, minimum, rag, n);
      SplitInside(s, minimum, rag(n));
      var next := RecursiveSplit(p.first, minimum, rag, n + 1).1;
      LeavesInside(p.first, minimum, rag, n + 1);
      LeavesInside(p.second, minimum, rag, next);
    }
  }

  predicate Ordered(ss: seq<Segment>)
  {
    forall i, j :: 0 <= i < j < |ss| ==> Before(ss[i], ss[j])
  }

  lemma OrderedAppend(a: seq<Segment>, b: seq<Segment>)
    requires Ordered(a) && Ordered(b)
    requires forall x, y :: x in a && y in b ==> Before(x, y)
    ensures Ordered(a + b)
  {
    var ab := a + b;
    forall i, j | 0 <= i < j < |ab| ensures Before(ab[i], ab[j]) {
      if j < |a| {
        assert ab[i] == a[i] && ab[j] == a[j];
      } else if |a| <= i {
        assert ab[i] == b[i - |a|] && ab[j] == b[j - |a|];
      } else {
        assert ab[i] == a[i] && ab[j] == b[j - |a|];
      }
    }
  }

  /** Whatever lies inside the first part of a split precedes whatever lies inside the second. */
  lemma SplitSeparates(s: Segment, minimum: real, factor: real, x: Segment, y: Segment)
    requires Split(s, minimum, factor).Halves?
    requires Inside(x, Split(s, minimum, factor).first) && Inside(y, Split(s, minimum, factor).second)
    ensures Before(x, y)
  {
  }

  /** The leaves come out in order: each earlier leaf lies wholly to the left of or
      wholly below each later one, because every leaf of the first part precedes
      every leaf of the second. */
  lemma {:induction false} LeavesOrdered(s: Segment, minimum: real, rag: nat -> real, n: nat)
    requires 0.0 < minimum && Ragged(rag)
    ensures Ordered(Leaves(s, minimum, rag, n))
    decreases Measure(s, minimum)
  {
    var p := Split(s, minimum, rag(n));
    if p.Halves? {
      LeavesOfHalves(s, minimum, rag, n);
      var next := RecursiveSplit(p.first, minimum, rag, n + 1).1;
      var a, b := Leaves(p.first, minimum, rag, n + 1), Leaves(p.second, minimum, rag, next);
      LeavesOrdered(p.first, minimum, rag, n + 1);
      LeavesOrdered(p.second, minimum, rag, next);
      LeavesInside(p.first, minimum, rag, n + 1);
      LeavesInside(p.second, minimum, rag, next);
      forall x, y | x in a && y in b ensures Before(x, y) {
        SplitSeparates(s, minimum, rag(n), x, y);
      }
      OrderedAppend(a, b);
    }
  }

  /** Two different leaves never overlap: one of them precedes the other. */
  lemma LeavesDisjoint(s: Segment, minimum: real, rag: nat -> real, n: nat, i: nat, j: nat)
    requires 0.0 < minimum && Ragged(rag)
    requires i < |Leaves(s, minimum, rag, n)| && j < |Leaves(s, minimum, rag, n)| && i != j
    ensures var leaves := Leaves(s, minimum, rag, n);
      Before(leaves[i], leaves[j]) || Before(leaves[j], leaves[i])
  {
    LeavesOrdered(s, minimum, rag, n);
  }

  /** Every point of the segment lies in some leaf; the lemma returns its index. */
  lemma {:induction false} LeafCovering(s: Segment, minimum: real, rag: nat -> real, n: nat, px: real, py: real)
    returns (k: nat)
    requires 0.0 < minimum && Ragged(rag)
    requires Covers(s, px, py)
    ensures k < |Leaves(s, minimum, rag, n)| && Covers(Leaves(s, minimum, rag, n)[k], px, py)
    decreases Measure(s, minimum)
  {
    var p := Split(s, minimum, rag(n));
    if p.Whole? {
      k := 0;
    } else {
      SplitShrinks(s, minimum, rag(n));
      var left := RecursiveSplit(p.first, minimum, rag, n + 1);
      var right := RecursiveSplit(p.second, minimum, rag, left.1);
      if Covers(p.first, px, py) {
        k := LeafCovering(p.first, minimum, rag, n + 1, px, py);
        assert (left.0 + right.0)[k] == left.0[k];
      } else {
        var k2 := LeafCovering(p.second, minimum, rag, left.1, px, py);
        k := |left.0| + k2;
        assert (left.0 + right.0)[k] == right.0[k2];
      }
    }
  }

  /** No point lies in two different leaves; with LeafCovering, the leaves tile the segment. */
  lemma LeafCoveringUnique(s: Segment, minimum: real, rag: nat -> real, n: nat, px: real, py: real, i: nat, j: nat)
    requires 0.0 < minimum && Ragged(rag)
    requires i < |Leaves(s, minimum, rag, n)| && j < |Leaves(s, minimum, rag, n)|
    requires Covers(Leaves(s, minimum, rag, n)[i], px, py) && Covers(Leaves(s, minimum, rag, n)[j], px, py)
    ensures i == j
  {
    if i != j {
      LeavesDisjoint(s, minimum, rag, n, i, j);
    }
  }

  lemma {:induction false} TotalAreaAppend(a: seq<Segment>, b: seq<Segment>)
    ensures TotalArea(a + b) == TotalArea(a) + TotalArea(b)
  {
    if a != [] {
      assert (a + b)[1..] == a[1..] + b;
      TotalAreaAppend(a[1..], b);
    } else {
      assert a + b == b;
    }
  }

  lemma SplitArea(s: Segment, minimum: real, factor: real)
    requires Split(s, minimum, factor).Halves?
    ensures Area(Split(s, minimum, factor).first) + Area(Split(s, minimum, factor).second) == Area(s)
  {
    var p := Split(s, minimum, factor);
    if SplitsWidth(s) {
      assert p.first.width * s.height + p.second.width * s.height == (p.first.width + p.second.width) * s.height;
    } else {
      assert s.width * p.first.height + s.width * p.second.height == s.width * (p.first.height + p.second.height);
    }
  }

  /** The areas of the leaves add up to the area of the segment. */
  lemma {:induction false} LeavesArea(s: Segment, minimum: real, rag: nat -> real, n: nat)
    requires 0.0 < minimum && Ragged(rag)
    ensures TotalArea(Leaves(s, minimum, rag, n)) == Area(s)
    decreases Measure(s, minimum)
  {
    var p := Split(s, minimum, rag(n));
    if p.Whole? {
      assert Leaves(s, minimum, rag, n) == [s];
      assert TotalArea([s]) == Area(s) + TotalArea([]);
    } else {
      SplitShrinks(s, minimum, rag(n));
      var left := RecursiveSplit(p.first, minimum, rag, n + 1);
      var right := RecursiveSplit(p.second, minimum, rag, left.1);
      LeavesArea(p.first, minimum, rag, n + 1);
      LeavesArea(p.second, minimum, rag, left.1);
      TotalAreaAppend(left.0, right.0);
      SplitArea(s, minimum, rag(n));
    }
  }

  /** If both sides of the segment are at least minimum, so are both sides of every leaf. */
  lemma {:induction false} LeavesAtLeastMinimum(s: Segment, minimum: real, rag: nat -> real, n: nat)
    requires 0.0 < minimum && Ragged(rag)
    requires minimum <= s.width && minimum <= s.height
    ensures forall leaf :: leaf in Leaves(s, minimum, rag, n) ==> minimum <= leaf.width && minimum <= leaf.height
    decreases Measure(s, minimum)
  {
    var p := Split(s, minimum, rag(n));
    if p.Halves? {
      SplitShrinks(s, minimum, rag(n));
      SplitBounds(s, minimum, rag(n));
      var left := RecursiveSplit(p.first, minimum, rag, n + 1);
      LeavesAtLeastMinimum(p.first, minimum, rag, n + 1);
      LeavesAtLeastMinimum(p.second, minimum, rag, left.1);
    }
  }

  /** Both sides of every leaf are shorter than four times minimum: the split that
      left it whole would otherwise have cut it. */
  lemma {:induction false} LeavesBelowFourMinimum(s: Segment, minimum: real, rag: nat -> real, n: nat)
    requires 0.0 < minimum && Ragged(rag)
    ensures forall leaf :: leaf in Leaves(s, minimum, rag, n) ==> leaf.width < 4.0 * minimum && leaf.height < 4.0 * minimum
    decreases Measure(s, minimum)
  {
    var p := Split(s, minimum, rag(n));
    if p.Whole? {
      WholeIsSmall(s, minimum, rag(n));
    } else {
      SplitShrinks(s, minimum, rag(n));
      var left := RecursiveSplit(p.first, minimum, rag, n + 1);
      LeavesBelowFourMinimum(p.first, minimum, rag, n + 1);
      LeavesBelowFourMinimum(p.second, minimum, rag, left.1);
    }
  }

  /** Segment.centre, as written: the y offset is half the WIDTH. */
  function Centre(s: Segment): (r: Vector)
    ensures r.x - s.x == s.x + s.width - r.x
    ensures r.y - s.y == r.x - s.x
  {
    Vector(s.x + s.width / 2.0, s.y + s.width / 2.0)
  }

  /** The centre's x is the middle of the segment; its y stays inside the segment
      exactly when the width is at most twice the height. */
  lemma CentrePosition(s: Segment)
    requires 0.0 < s.width && 0.0 < s.height
    ensures s.x < Centre(s).x < s.x + s.width
    ensures Centre(s).x - s.x == s.x + s.width - Centre(s).x
    ensures s.y < Centre(s).y
    ensures Centre(s).y <= s.y + s.height <==> s.width <= 2.0 * s.height
  {
  }
}
