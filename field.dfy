/**
 The field generator of the Mandelbrot demo: the escape-time loop `iterate`
 and the grid traversal `mandel`.

 `iterate` in mandel.c computes in single-precision floating point. Here every value is
 an exact `real`; the properties proved about the loop (its bounds, its
 return convention, the number of points visited) do not depend on how the
 arithmetic rounds.
 */
module Field {

  /** Iteration cap of the escape-time loop (`maxIter`). */
  const MaxIter: nat := 32

  /** The glyph table `color[maxIter+1]`: 32 visible characters and the
      terminating NUL of the string literal that initialises it. */
  const Color: seq<char> := " .:++xxXXX%%%%%%################" + ['\0']

  /** Grid bounds: x in [XLow, XHigh) in the outer loop, y in [YLow, YHigh) in the inner one. */
  const XLow: int := -60
  const XHigh: int := 60
  const YLow: int := -50
  const YHigh: int := 50
  /** Number of x values (outer loop) and of y values (inner loop). */
  const XCount: nat := 120
  const YCount: nat := 100

  /** A point z = x + i*y of the complex plane. */
  datatype Point = Point(x: real, y: real)

  /** One step of the recurrence z := z*z + (px + i*py), computed as the loop
      body of `iterate` does: from the squares nx and ny of the parts. */
  function Square(z: Point, px: real, py: real): (r: Point)
    ensures z == Point(0.0, 0.0) ==> r == Point(px, py)
  {
    var nx, ny := z.x * z.x, z.y * z.y;
    Point(nx - ny + px, 2.0 * z.x * z.y + py)
  }

  /** The n-th point of the orbit of c = px + i*py, starting from z = 0: the
      locals x and y of `iterate` after n passes of its loop body. The first
      step lands on c itself. */
  function Orbit(px: real, py: real, n: nat): (r: Point)
    ensures n == 1 ==> r == Point(px, py)
  {
    if n == 0 then Point(0.0, 0.0) else Square(Orbit(px, py, n - 1), px, py)
  }

  /** The escape test `nx + ny > 4` of `iterate`: the squared modulus exceeds
      4. The starting point 0 never passes it. */
  predicate Escaped(z: Point): (e: bool)
    ensures z == Point(0.0, 0.0) ==> !e
  {
    z.x * z.x + z.y * z.y > 4.0
  }

  /** The first k' >= k below MaxIter whose orbit point has escaped, or 0 when
      there is none: the reference definition of what `iterate` returns. */
  function EscapeFrom(px: real, py: real, k: nat): (r: nat)
    requires k <= MaxIter
    ensures r < MaxIter
    ensures r == 0 || (k <= r && Escaped(Orbit(px, py, r)))
    decreases MaxIter - k
  {
    if k == MaxIter then 0
    else if Escaped(Orbit(px, py, k)) then k
    else EscapeFrom(px, py, k + 1)
  }

  /** The escape time of c = px + i*py as `iterate` in mandel.c defines it. */
  function EscapeTime(px: real, py: real): (r: nat)
    ensures r < |Color|
  {
    EscapeFrom(px, py, 0)
  }

  /** No orbit point between k and the result (or MaxIter, when the result is 0) has escaped. */
  lemma {:induction false} EscapeFromIsFirst(px: real, py: real, k: nat)
    requires k <= MaxIter
    ensures forall j :: k <= j < MaxIter && (EscapeFrom(px, py, k) == 0 || j < EscapeFrom(px, py, k))
                        ==> !Escaped(Orbit(px, py, j))
    decreases MaxIter - k
  {
    if k < MaxIter && !Escaped(Orbit(px, py, k)) {
      EscapeFromIsFirst(px, py, k + 1);
    }
  }

  /** The return convention of `iterate`: 0 means exactly "no escape within
      MaxIter steps", and any other result r is the first step whose orbit
      point has escaped. Since the orbit starts at 0, an escape is never
      reported as 0. */
  lemma EscapeTimeMeaning(px: real, py: real)
    ensures EscapeTime(px, py) == 0 <==> forall k :: 0 <= k < MaxIter ==> !Escaped(Orbit(px, py, k))
    ensures EscapeTime(px, py) != 0 ==>
              && Escaped(Orbit(px, py, EscapeTime(px, py)))
              && forall k :: 0 <= k < EscapeTime(px, py) ==> !Escaped(Orbit(px, py, k))
  {
    var r := EscapeTime(px, py);
    EscapeFromIsFirst(px, py, 0);
    if r != 0 {
      assert 0 <= r < MaxIter && Escaped(Orbit(px, py, r));
      assert exists k :: 0 <= k < MaxIter && Escaped(Orbit(px, py, k));
    }
  }

  /** A point outside the radius-2 disc is reported as escaping after one step. */
  lemma ImmediateEscapeIsOne(px: real, py: real)
    requires px * px + py * py > 4.0
    ensures EscapeTime(px, py) == 1
  {
    assert Orbit(px, py, 1) == Point(px, py) by {
      assert Orbit(px, py, 0) == Point(0.0, 0.0);
    }
    assert EscapeFrom(px, py, 1) == 1 by {
      assert Escaped(Orbit(px, py, 1));
    }
    assert !Escaped(Orbit(px, py, 0)) by {
      assert Orbit(px, py, 0) == Point(0.0, 0.0);
    }
  }

  /** The orbit of the origin stays at the origin. */
  lemma {:induction false} OriginOrbit(n: nat)
    ensures Orbit(0.0, 0.0, n) == Point(0.0, 0.0)
  {
    if n > 0 {
      OriginOrbit(n - 1);
    }
  }

  /** An orbit none of whose points from step k on escapes is reported as 0. */
  lemma {:induction false} NoEscapeFrom(px: real, py: real, k: nat)
    requires k <= MaxIter
    requires forall j :: k <= j < MaxIter ==> !Escaped(Orbit(px, py, j))
    ensures EscapeFrom(px, py, k) == 0
    decreases MaxIter - k
  {
    if k < MaxIter {
      NoEscapeFrom(px, py, k + 1);
    }
  }

  /** The origin never escapes, so it is reported as 0. */
  lemma OriginIsZero()
    ensures EscapeTime(0.0, 0.0) == 0
  {
    forall j | 0 <= j < MaxIter
      ensures !Escaped(Orbit(0.0, 0.0, j))
    {
      OriginOrbit(j);
    }
    NoEscapeFrom(0.0, 0.0, 0);
  }

  /** The result `mandel` computes at grid point (x, y) of the view centred on
      (cX, cY) with the given scale. */
  function Cell(cX: real, cY: real, scale: real, x: int, y: int): (r: nat)
    ensures r < |Color|
  {
    EscapeTime(cX + x as real * scale, cY + y as real * scale)
  }

  /** The escape-time loop `iterate`. The point z stands for the locals x and
      y; the escape test and the update are the predicate Escaped and the
      function Square. */
  method Iterate(px: real, py: real) returns (it: int)
    ensures it == EscapeTime(px, py)
    ensures 0 <= it < MaxIter
  {
    it := 0;
    var z := Point(0.0, 0.0);
    while it < MaxIter
      invariant 0 <= it <= MaxIter
      invariant z == Orbit(px, py, it)
      invariant EscapeFrom(px, py, it) == EscapeTime(px, py)
    {
      if Escaped(z) {
        return;
      }
      z := Square(z, px, py);
      it := it + 1;
    }
    it := 0;
  }

  /** The grid traversal `mandel`: `iterate` at (cX + x*scale, cY + y*scale)
      for x from XLow up to XHigh (outer) and y from YLow up to YHigh (inner).
      The C program discards each result; here row i holds the results for
      x = XLow + i, in the order they are computed, and `calls` counts the
      calls of `iterate`. */
  method Mandel(cX: real, cY: real, scale: real) returns (field: seq<seq<int>>, calls: nat)
    ensures calls == XCount * YCount
    ensures |field| == XCount
    ensures forall i :: 0 <= i < XCount ==> |field[i]| == YCount
    ensures forall i, j :: 0 <= i < XCount && 0 <= j < YCount ==>
              field[i][j] == Cell(cX, cY, scale, XLow + i, YLow + j)
    ensures forall i, j :: 0 <= i < XCount && 0 <= j < YCount ==> 0 <= field[i][j] < |Color|
  {
    field, calls := [], 0;
    var x := XLow;
    while x < XHigh
      invariant XLow <= x <= XHigh
      invariant |field| == x - XLow
      invariant calls == |field| * YCount
      invariant forall i :: 0 <= i < |field| ==> |field[i]| == YCount
      invariant forall i, j :: 0 <= i < |field| && 0 <= j < YCount ==>
                  field[i][j] == Cell(cX, cY, scale, XLow + i, YLow + j)
    {
      var row: seq<int> := [];
      var y := YLow;
      while y < YHigh
        invariant YLow <= y <= YHigh
        invariant |row| == y - YLow
        invariant calls == |field| * YCount + |row|
        invariant forall j :: 0 <= j < |row| ==>
                    row[j] == Cell(cX, cY, scale, x, YLow + j)
      {
        var i := Iterate(cX + x as real * scale, cY + y as real * scale);
        assert i == Cell(cX, cY, scale, x, y);
        row := row + [i];
        calls := calls + 1;
        y := y + 1;
      }
      field := field + [row];
      x := x + 1;
    }
  }
}
