/** Selection of the two boiler targets among the contours of a frame. */
module BoilerFrame {
  import Maths

  /** A bounding rectangle: OpenCV's rectangles around a contour are never empty. */
  datatype Rect = Rect(x: int, y: int, width: nat, height: nat)

  type BoundingRect = r: Rect | r.width >= 1 && r.height >= 1 witness Rect(0, 0, 1, 1)

  /** What the selection sees of a contour: its closed perimeter and its bounding rectangle. */
  datatype Contour = Contour(perimeter: real, rect: BoundingRect)

  datatype Limits = Limits(minArcLength: real, aspectRatioMin: real, aspectRatioMax: real)

  /** Integer division as in C++: truncating. */
  function Half(a: int): int {
    if a >= 0 then a / 2 else -((-a) / 2)
  }

  /** The half of `a` without its fraction. */
  lemma HalfMeaning(a: int)
    ensures a >= 0 ==> 2 * Half(a) <= a <= 2 * Half(a) + 1
    ensures a <= 0 ==> 2 * Half(a) - 1 <= a <= 2 * Half(a)
  {
  }

  predicate Admissible(l: Limits, c: Contour) {
    && c.perimeter >= l.minArcLength
    && l.aspectRatioMin <= c.rect.width as real / c.rect.height as real <= l.aspectRatioMax
  }

  /** `c` is centered within the horizontal extent of the upper target `u`. */
  predicate Aligned(u: Contour, c: Contour) {
    u.rect.x <= c.rect.x + Half(c.rect.width) <= u.rect.x + u.rect.width
  }

  /** Admissible: long enough, and neither too narrow nor too wide for its height, limits included. */
  lemma AdmissibleIff(l: Limits, c: Contour)
    ensures var w, h := c.rect.width as real, c.rect.height as real;
            Admissible(l, c) <==> c.perimeter >= l.minArcLength && l.aspectRatioMin * h <= w && w <= l.aspectRatioMax * h
  {
    RatioIff(c.rect.width as real, c.rect.height as real, l.aspectRatioMin);
    RatioIff(c.rect.width as real, c.rect.height as real, l.aspectRatioMax);
  }

  lemma RatioIff(w: real, h: real, r: real)
    requires h > 0.0
    ensures r <= w / h <==> r * h <= w
    ensures w / h <= r <==> w <= r * h
  {
    var q := w / h;
    assert q * h == w;
    if q < r {
      var p := Maths.SameSign(r - q, h);
    }
    if r < q {
      var p := Maths.SameSign(q - r, h);
    }
  }

  /** Aligned: the middle of `c`, in half pixels, is between the left and the right edge of `u`. */
  lemma AlignedIff(u: Contour, c: Contour)
    ensures Aligned(u, c) <==>
              2 * u.rect.x <= 2 * c.rect.x + c.rect.width <= 2 * (u.rect.x + u.rect.width) + 1
  {
  }

  ghost predicate Sorted(cs: seq<Contour>) {
    forall i, j | 0 <= i < j < |cs| :: cs[i].perimeter >= cs[j].perimeter
  }

  // ------------------------------------------------------------------ the sort

  method SortByPerimeter(contours: seq<Contour>) returns (sorted: seq<Contour>)
    ensures Sorted(sorted) && multiset(sorted) == multiset(contours)
  {
    sorted := [];
    for i := 0 to |contours|
      invariant Sorted(sorted) && multiset(sorted) == multiset(contours[..i])
    {
      assert contours[..i + 1] == contours[..i] + [contours[i]];
      sorted := Insert(sorted, contours[i]);
    }
    assert contours[..|contours|] == contours;
  }

  method Insert(sorted: seq<Contour>, c: Contour) returns (r: seq<Contour>)
    requires Sorted(sorted)
    ensures Sorted(r) && multiset(r) == multiset(sorted) + multiset{c}
  {
    var k := 0;
    while k < |sorted| && sorted[k].perimeter >= c.perimeter
      invariant k <= |sorted| && forall i | 0 <= i < k :: sorted[i].perimeter >= c.perimeter
    {
      k := k + 1;
    }
    r := sorted[..k] + [c] + sorted[k..];
    assert sorted == sorted[..k] + sorted[k..];
  }

  // ------------------------------------------------------------------ the selection

  /** The first admissible contour of the list, or -1. */
  ghost predicate IsUpper(l: Limits, cs: seq<Contour>, u: int) {
    && -1 <= u < |cs|
    && (u >= 0 ==> Admissible(l, cs[u]))
    && forall i | 0 <= i < (if u >= 0 then u else |cs|) :: !Admissible(l, cs[i])
  }

  /** The first admissible contour after the upper one that is aligned with it, or -1. */
  ghost predicate IsLower(l: Limits, cs: seq<Contour>, u: int, v: int)
    requires 0 <= u < |cs|
  {
    && (v == -1 || u < v < |cs|)
    && (v >= 0 ==> Admissible(l, cs[v]) && Aligned(cs[u], cs[v]))
    && forall i | u < i < (if v >= 0 then v else |cs|) :: !(Admissible(l, cs[i]) && Aligned(cs[u], cs[i]))
  }

  /** The filter loop of one frame: indices of the selected contours, at most two. */
  method SelectTargets(l: Limits, contours: seq<Contour>) returns (targetIdx: seq<int>)
    ensures |targetIdx| <= 2
    ensures |targetIdx| == 0 ==> IsUpper(l, contours, -1)
    ensures |targetIdx| >= 1 ==> targetIdx[0] >= 0 && IsUpper(l, contours, targetIdx[0])
    ensures |targetIdx| == 1 ==> IsLower(l, contours, targetIdx[0], -1)
    ensures |targetIdx| == 2 ==> targetIdx[1] >= 0 && IsLower(l, contours, targetIdx[0], targetIdx[1])
  {
    targetIdx := [];
    var found := 0;
    var limLeft := 0;
    var limRight := 0;
    for i := 0 to |contours|
      invariant found == |targetIdx| <= 2
      invariant found == 0 ==> forall j | 0 <= j < i :: !Admissible(l, contours[j])
      invariant found >= 1 ==>
        && 0 <= targetIdx[0] < i && IsUpper(l, contours, targetIdx[0])
        && limLeft == contours[targetIdx[0]].rect.x
        && limRight == contours[targetIdx[0]].rect.x + contours[targetIdx[0]].rect.width
      invariant found == 1 ==>
        forall j | targetIdx[0] < j < i :: !(Admissible(l, contours[j]) && Aligned(contours[targetIdx[0]], contours[j]))
      invariant found == 2 ==>
        0 <= targetIdx[1] < i && IsLower(l, contours, targetIdx[0], targetIdx[1])
    {
      if found == 2 {
        break;
      }
      if contours[i].perimeter < l.minArcLength {
        continue;
      }
      var rect := contours[i].rect;
      var aspectRatio := rect.width as real / rect.height as real;
      if aspectRatio < l.aspectRatioMin || aspectRatio > l.aspectRatioMax {
        continue;
      }
      if found == 0 {
        limLeft := rect.x;
        limRight := rect.x + rect.width;
      }
      if found == 1 {
        var center := rect.x + Half(rect.width);
        if center < limLeft || center > limRight {
          continue;
        }
      }
      targetIdx := targetIdx + [i];
      found := found + 1;
    }
  }

  // ------------------------------------------------------------------ independence of order

  ghost predicate Largest(l: Limits, contours: multiset<Contour>, u: Contour) {
    && u in contours && Admissible(l, u)
    && forall c | c in contours && Admissible(l, c) :: c.perimeter <= u.perimeter
  }

  ghost predicate Partner(l: Limits, contours: multiset<Contour>, u: Contour, v: Contour) {
    v in contours - multiset{u} && Admissible(l, v) && Aligned(u, v)
  }

  lemma OneLess(cs: seq<Contour>, u: int)
    requires 0 <= u < |cs|
    ensures multiset(cs) - multiset{cs[u]} == multiset(cs[..u] + cs[u + 1..])
  {
    assert cs == cs[..u] + [cs[u]] + cs[u + 1..];
  }

  /** One occurrence of `cs[u]` less: what is left is at another index. */
  lemma OtherIndex(cs: seq<Contour>, u: int, c: Contour)
    requires 0 <= u < |cs|
    ensures c in multiset(cs) - multiset{cs[u]} <==> exists i | 0 <= i < |cs| && i != u :: cs[i] == c
  {
    var rest := cs[..u] + cs[u + 1..];
    OneLess(cs, u);
    assert c in multiset(rest) <==> c in rest;
    if c in rest {
      var k :| 0 <= k < |rest| && rest[k] == c;
      assert cs[if k < u then k else k + 1] == c;
    }
    if i :| 0 <= i < |cs| && i != u && cs[i] == c {
      assert rest[if i < u then i else i - 1] == c;
    }
  }

  /** The first admissible contour of a sorted list is an admissible one of greatest perimeter. */
  lemma UpperIsLargest(l: Limits, cs: seq<Contour>, u: int)
    requires Sorted(cs) && IsUpper(l, cs, u)
    ensures u >= 0 ==> Largest(l, multiset(cs), cs[u])
    ensures u == -1 <==> forall c | c in multiset(cs) :: !Admissible(l, c)
  {
    if u >= 0 {
      forall c | c in multiset(cs) && Admissible(l, c)
        ensures c.perimeter <= cs[u].perimeter
      {
        var i :| 0 <= i < |cs| && cs[i] == c;
      }
    }
  }

  /** A lower target is found exactly when some other admissible contour, anywhere in the frame, is
      aligned with the upper one, and it is then such a contour of greatest perimeter. */
  lemma LowerIsLargest(l: Limits, cs: seq<Contour>, u: int, v: int)
    requires Sorted(cs) && u >= 0 && IsUpper(l, cs, u) && IsLower(l, cs, u, v)
    ensures v >= 0 <==> exists c :: Partner(l, multiset(cs), cs[u], c)
    ensures v >= 0 ==> Partner(l, multiset(cs), cs[u], cs[v])
    ensures v >= 0 ==> forall c | Partner(l, multiset(cs), cs[u], c) :: c.perimeter <= cs[v].perimeter
  {
    if v >= 0 {
      OtherIndex(cs, u, cs[v]);
      assert Partner(l, multiset(cs), cs[u], cs[v]);
    }
    forall c | Partner(l, multiset(cs), cs[u], c)
      ensures v >= 0 && c.perimeter <= cs[v].perimeter
    {
      OtherIndex(cs, u, c);
      var i :| 0 <= i < |cs| && i != u && cs[i] == c;
    }
  }

  // ------------------------------------------------------------------ the frame object

  class BoilerFrame {
    const limits: Limits
    var upper: Contour
    var lower: Contour
    var azimuthError: int
    var centerlineError: int

    constructor (limits: Limits)
      ensures this.limits == limits
    {
      this.limits := limits;
      upper := Contour(0.0, Rect(0, 0, 1, 1));
      lower := Contour(0.0, Rect(0, 0, 1, 1));
      azimuthError := 0;
      centerlineError := 0;
    }

    /** Finds the targets in a frame. Whatever order equal perimeters are sorted in: without an
        admissible contour nothing changes; otherwise the upper target is an admissible contour of
        greatest perimeter, and the result is true exactly when some other admissible contour is
        aligned with it, in which case the lower target is one of greatest perimeter among those
        and both errors are measured from the pair. */
    method FindTargets(contours: seq<Contour>, rows: nat, cols: nat) returns (success: bool)
      modifies this
      ensures (forall c | c in multiset(contours) :: !Admissible(limits, c)) ==>
                !success && upper == old(upper)
      ensures (exists c | c in multiset(contours) :: Admissible(limits, c)) ==>
                && Largest(limits, multiset(contours), upper)
                && (success <==> exists c :: Partner(limits, multiset(contours), upper, c))
      ensures !success ==> lower == old(lower) && azimuthError == old(azimuthError) && centerlineError == old(centerlineError)
      ensures success ==>
                && Largest(limits, multiset(contours), upper)
                && Partner(limits, multiset(contours), upper, lower)
                && (forall c | Partner(limits, multiset(contours), upper, c) :: c.perimeter <= lower.perimeter)
                && centerlineError == Half(lower.rect.y + upper.rect.y) - Half(rows)
                && azimuthError == Half(cols) - upper.rect.x - Half(upper.rect.width)
    {
      var sorted := SortByPerimeter(contours);
      var targetIdx := SelectTargets(limits, sorted);
      UpperIsLargest(limits, sorted, if |targetIdx| == 0 then -1 else targetIdx[0]);
      if |targetIdx| == 0 {
        return false;
      }
      if |targetIdx| == 1 {
        LowerIsLargest(limits, sorted, targetIdx[0], -1);
        upper := sorted[targetIdx[0]];
        return false;
      }
      LowerIsLargest(limits, sorted, targetIdx[0], targetIdx[1]);
      upper := sorted[targetIdx[0]];
      lower := sorted[targetIdx[1]];
      var centerline := Half(lower.rect.y + upper.rect.y);
      centerlineError := centerline - Half(rows);
      azimuthError := Half(cols) - upper.rect.x - Half(upper.rect.width);
      return true;
    }
  }
}
