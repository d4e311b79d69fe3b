/** The line-drawing loop of the globe view. */
module Bresenham {
  import opened Numbers

  datatype Point = Point(x: int, y: int)

  datatype Bounds = Bounds(minX: int, minY: int, maxX: int, maxY: int) {
    predicate Contains(p: Point) {
      minX <= p.x < maxX && minY <= p.y < maxY
    }
  }

  function Sign(from: int, to: int): (s: int) {
    if from > to then -1 else 1
  }

  /** `i` unit moves from `from` toward `to`. */
  function Toward(from: int, to: int, i: int): (x: int) {
    if from > to then from - i else from + i
  }

  /** The points of the path the image can show, in path order. */
  function Visible(path: seq<Point>, bounds: Bounds): (s: seq<Point>) {
    if path == [] then []
    else
      var last := path[|path| - 1];
      Visible(path[..|path| - 1], bounds) + (if bounds.Contains(last) then [last] else [])
  }

  /** `n` steps of size `a`, summed step by step as the loop does. */
  function Times(n: nat, a: nat): (r: nat) {
    if n == 0 then 0 else Times(n - 1, a) + a
  }

  /** How far `i` moves along x and `j` along y lead off the ideal line, scaled to an integer. */
  function Offset(dx: nat, dy: nat, i: nat, j: nat): (d: int) {
    Times(j, dx) - Times(i, dy)
  }

  lemma {:induction false} TimesIsProduct(n: nat, a: nat)
    ensures Times(n, a) == n * a
  {
    if n > 0 {
      TimesIsProduct(n - 1, a);
      assert n * a == (n - 1) * a + a;
    }
  }

  /** The offset is the cross product of the moves made with the direction of the line. */
  lemma OffsetFormula(dx: nat, dy: nat, i: nat, j: nat)
    ensures Offset(dx, dy, i, j) == j * dx - i * dy
  {
    TimesIsProduct(j, dx);
    TimesIsProduct(i, dy);
  }

  /** Point `k` of the line from `a` to `b`: `i` moves along x and `j` along y have been made. */
  ghost predicate OnLine(a: Point, b: Point, k: nat, p: Point, i: nat, j: nat) {
    var dx, dy := Abs(b.x - a.x), Abs(b.y - a.y);
    && p == Point(Toward(a.x, b.x, i), Toward(a.y, b.y, j))
    && (if dx >= dy then i == k else j == k)
    && i <= dx && j <= dy
    && 2 * Abs(Offset(dx, dy, i, j)) <= Max(dx, dy)
  }

  lemma OffsetStep(dx: nat, dy: nat, i: nat, j: nat, mx: bool, my: bool)
    ensures Offset(dx, dy, if mx then i + 1 else i, if my then j + 1 else j)
         == Offset(dx, dy, i, j) - (if mx then dy else 0) + (if my then dx else 0)
  {
  }

  lemma OffsetSwap(dx: nat, dy: nat, i: nat, j: nat)
    ensures Offset(dy, dx, j, i) == -Offset(dx, dy, i, j)
  {
  }

  lemma {:induction false} TimesSplit(n: nat, k: nat, a: nat)
    requires k <= n
    ensures Times(n, a) == Times(k, a) + Times(n - k, a)
    ensures k < n ==> Times(n - k, a) >= a
  {
    if k < n {
      TimesSplit(n - 1, k, a);
    }
  }

  lemma TimesCommute(n: nat, a: nat)
    ensures Times(n, a) == Times(a, n)
  {
    TimesIsProduct(n, a);
    TimesIsProduct(a, n);
  }

  /** Within half a step of the ideal line, the minor axis is never overshot. */
  lemma NoOvershoot(major: nat, minor: nat, i: nat, j: nat)
    requires major > 0 && i <= major && 2 * Abs(Offset(major, minor, i, j)) <= major
    ensures j <= minor
  {
    if j > minor {
      TimesSplit(j, minor, major);
      TimesSplit(major, i, minor);
      TimesCommute(major, minor);
    }
  }

  /** At the end of the major axis the minor axis is finished too. */
  lemma EndsTogether(major: nat, minor: nat, j: nat)
    requires j <= minor && 2 * Abs(Offset(major, minor, major, j)) <= major
    ensures major > 0 ==> j == minor
  {
    TimesCommute(major, minor);
    if j < minor {
      TimesSplit(minor, j, major);
    }
  }

  lemma ArrivedAtEnd(dx: nat, dy: nat, i: nat, j: nat)
    requires i <= dx && j <= dy && 2 * Abs(Offset(dx, dy, i, j)) <= Max(dx, dy)
    requires if dx >= dy then i == dx else j == dy
    ensures i == dx && j == dy
  {
    if dx >= dy {
      EndsTogether(dx, dy, j);
    } else {
      OffsetSwap(dx, dy, i, j);
      EndsTogether(dy, dx, i);
    }
  }

  lemma StaysInBox(dx: nat, dy: nat, i: nat, j: nat)
    requires Max(dx, dy) > 0 && 2 * Abs(Offset(dx, dy, i, j)) <= Max(dx, dy)
    requires if dx >= dy then i <= dx else j <= dy
    ensures i <= dx && j <= dy
  {
    if dx >= dy {
      NoOvershoot(dx, dy, i, j);
    } else {
      OffsetSwap(dx, dy, i, j);
      NoOvershoot(dy, dx, j, i);
    }
  }

  /** Whether a pass moves along x, and whether it moves along y. */
  predicate MoveX(err: int, dy: nat) {
    2 * err + dy >= 0
  }

  predicate MoveY(err: int, dx: nat) {
    2 * err <= dx
  }

  function NextErr(dx: nat, dy: nat, err: int): (e: int) {
    err - (if MoveX(err, dy) then dy else 0) + (if MoveY(err, dx) then dx else 0)
  }

  function NextPoint(a: Point, b: Point, p: Point, err: int): (q: Point) {
    Point(if MoveX(err, Abs(b.y - a.y)) then p.x + Sign(a.x, b.x) else p.x,
          if MoveY(err, Abs(b.x - a.x)) then p.y + Sign(a.y, b.y) else p.y)
  }

  /** The decisions of one pass, from the offset alone: the major axis always moves, and the offset stays small. */
  lemma PassDecisions(dx: nat, dy: nat, d: int)
    requires 2 * Abs(d) <= Max(dx, dy)
    ensures var mx, my := MoveX(dx - dy + d, dy), MoveY(dx - dy + d, dx);
      && (if dx >= dy then mx else my)
      && 2 * Abs(d - (if mx then dy else 0) + (if my then dx else 0)) <= Max(dx, dy)
  {
  }

  /** What the loop knows after `k` moves: the error term is the offset, shifted by a constant. */
  ghost predicate Stepping(a: Point, b: Point, k: nat, p: Point, err: int) {
    exists i: nat, j: nat :: SteppingAt(a, b, k, p, err, i, j)
  }

  ghost predicate SteppingAt(a: Point, b: Point, k: nat, p: Point, err: int, i: nat, j: nat) {
    var dx, dy := Abs(b.x - a.x), Abs(b.y - a.y);
    OnLine(a, b, k, p, i, j) && err == dx - dy + Offset(dx, dy, i, j)
  }

  /** `q` is a neighbour of `p`: one unit on along the longer axis, and at most one unit on along the other. */
  ghost predicate OneStep(a: Point, b: Point, p: Point, q: Point) {
    var x, y := p.x + Sign(a.x, b.x), p.y + Sign(a.y, b.y);
    if Abs(b.x - a.x) >= Abs(b.y - a.y) then q.x == x && q.y in {p.y, y} else q.y == y && q.x in {p.x, x}
  }

  /** One pass of the loop body leads from point `k` to point `k + 1` of the line, a neighbour of it. */
  lemma PassKeepsStepping(a: Point, b: Point, k: nat, p: Point, err: int)
    requires Stepping(a, b, k, p, err) && p != b
    ensures k < Max(Abs(b.x - a.x), Abs(b.y - a.y))
    ensures Stepping(a, b, k + 1, NextPoint(a, b, p, err), NextErr(Abs(b.x - a.x), Abs(b.y - a.y), err))
    ensures OneStep(a, b, p, NextPoint(a, b, p, err))
  {
    var i: nat, j: nat :| SteppingAt(a, b, k, p, err, i, j);
    var i', j' := PassMoves(a, b, k, p, err, i, j);
  }

  lemma PassMoves(a: Point, b: Point, k: nat, p: Point, err: int, i: nat, j: nat) returns (i': nat, j': nat)
    requires SteppingAt(a, b, k, p, err, i, j) && p != b
    ensures k < Max(Abs(b.x - a.x), Abs(b.y - a.y))
    ensures SteppingAt(a, b, k + 1, NextPoint(a, b, p, err), NextErr(Abs(b.x - a.x), Abs(b.y - a.y), err), i', j')
    ensures OneStep(a, b, p, NextPoint(a, b, p, err))
  {
    var dx, dy := Abs(b.x - a.x), Abs(b.y - a.y);
    NotYetArrived(a, b, k, p, i, j);
    i', j' := PassArithmetic(dx, dy, k, err, i, j);
    OneMove(a.x, b.x, i, MoveX(err, dy));
    OneMove(a.y, b.y, j, MoveY(err, dx));
  }

  lemma PassArithmetic(dx: nat, dy: nat, k: nat, err: int, i: nat, j: nat) returns (i': nat, j': nat)
    requires k < Max(dx, dy) && i <= dx && j <= dy && (if dx >= dy then i == k else j == k)
    requires 2 * Abs(Offset(dx, dy, i, j)) <= Max(dx, dy) && err == dx - dy + Offset(dx, dy, i, j)
    ensures i' == (if MoveX(err, dy) then i + 1 else i) && j' == (if MoveY(err, dx) then j + 1 else j)
    ensures i' <= dx && j' <= dy && (if dx >= dy then i' == k + 1 else j' == k + 1)
    ensures 2 * Abs(Offset(dx, dy, i', j')) <= Max(dx, dy)
    ensures NextErr(dx, dy, err) == dx - dy + Offset(dx, dy, i', j')
  {
    var mx, my := MoveX(err, dy), MoveY(err, dx);
    i', j' := if mx then i + 1 else i, if my then j + 1 else j;
    PassDecisions(dx, dy, Offset(dx, dy, i, j));
    OffsetStep(dx, dy, i, j, mx, my);
    StaysInBox(dx, dy, i', j');
  }

  lemma OneMove(from: int, to: int, i: int, move: bool)
    ensures (if move then Toward(from, to, i) + Sign(from, to) else Toward(from, to, i))
         == Toward(from, to, if move then i + 1 else i)
  {
  }

  lemma NotYetArrived(a: Point, b: Point, k: nat, p: Point, i: nat, j: nat)
    requires OnLine(a, b, k, p, i, j) && p != b
    ensures k < Max(Abs(b.x - a.x), Abs(b.y - a.y))
  {
    var dx, dy := Abs(b.x - a.x), Abs(b.y - a.y);
    if k >= Max(dx, dy) {
      ArrivedAtEnd(dx, dy, i, j);
      assert false;
    }
  }

  lemma SteppingStarts(a: Point, b: Point)
    ensures Stepping(a, b, 0, a, Abs(b.x - a.x) - Abs(b.y - a.y))
  {
    assert SteppingAt(a, b, 0, a, Abs(b.x - a.x) - Abs(b.y - a.y), 0, 0);
  }

  lemma SteppingIsOnLine(a: Point, b: Point, k: nat, p: Point, err: int)
    requires Stepping(a, b, k, p, err)
    ensures SomewhereOnLine(a, b, k, p) && k <= Max(Abs(b.x - a.x), Abs(b.y - a.y))
  {
    var i: nat, j: nat :| SteppingAt(a, b, k, p, err, i, j);
    assert OnLine(a, b, k, p, i, j);
  }

  /** The end is met no earlier than after all moves. */
  lemma ArrivedAfterAllMoves(a: Point, b: Point, k: nat)
    requires SomewhereOnLine(a, b, k, b)
    ensures k == Max(Abs(b.x - a.x), Abs(b.y - a.y))
  {
    var i: nat, j: nat :| OnLine(a, b, k, b, i, j);
  }

  ghost predicate SomewhereOnLine(a: Point, b: Point, k: nat, p: Point) {
    exists i: nat, j: nat :: OnLine(a, b, k, p, i, j)
  }

  lemma VisibleAppend(path: seq<Point>, p: Point, bounds: Bounds)
    ensures Visible(path + [p], bounds) == Visible(path, bounds) + (if bounds.Contains(p) then [p] else [])
  {
    assert (path + [p])[..|path|] == path;
  }

  /** The two conditional moves at the end of the loop body. */
  method Pass(ghost a: Point, ghost b: Point, p: Point, err: int, dx: nat, dy: int, sx: int, sy: int)
      returns (q: Point, next: int)
    requires dx == Abs(b.x - a.x) && dy == -(Abs(b.y - a.y) as int)
    requires sx == Sign(a.x, b.x) && sy == Sign(a.y, b.y)
    ensures q == NextPoint(a, b, p, err) && next == NextErr(Abs(b.x - a.x), Abs(b.y - a.y), err)
  {
    var x, y := p.x, p.y;
    next := err;
    var e2 := 2 * err;
    if e2 >= dy {
      next := next + dy;
      x := x + sx;
    }
    if e2 <= dx {
      next := next + dx;
      y := y + sy;
    }
    q := Point(x, y);
  }

  ghost predicate OneStepAt(a: Point, b: Point, path: seq<Point>, k: nat)
    requires k + 1 < |path|
  {
    OneStep(a, b, path[k], path[k + 1])
  }

  /** The points visited so far are those of the line, in order and each next to the one before. */
  ghost predicate Drawn(a: Point, b: Point, path: seq<Point>) {
    && (path != [] ==> path[0] == a)
    && (forall k: nat | k < |path| :: SomewhereOnLine(a, b, k, path[k]))
    && (forall k: nat {:trigger OneStepAt(a, b, path, k)} | k + 1 < |path| :: OneStepAt(a, b, path, k))
  }

  /** `p` is where the line goes on from `path`. */
  ghost predicate Continues(a: Point, b: Point, path: seq<Point>, p: Point) {
    if path == [] then p == a else OneStep(a, b, path[|path| - 1], p)
  }

  lemma DrawnGrows(a: Point, b: Point, path: seq<Point>, p: Point, err: int)
    requires Drawn(a, b, path) && Stepping(a, b, |path|, p, err) && Continues(a, b, path, p)
    ensures Drawn(a, b, path + [p]) && |path| <= Max(Abs(b.x - a.x), Abs(b.y - a.y))
    ensures p == b ==> |path| == Max(Abs(b.x - a.x), Abs(b.y - a.y))
  {
    SteppingIsOnLine(a, b, |path|, p, err);
    var more := path + [p];
    forall k: nat {:trigger OneStepAt(a, b, more, k)} | k + 1 < |more|
      ensures OneStepAt(a, b, more, k)
    {
      if k + 1 < |path| {
        assert OneStepAt(a, b, path, k);
      }
    }
    if p == b {
      ArrivedAfterAllMoves(a, b, |path|);
    }
  }

  function Length(a: Point, b: Point): (n: nat) {
    Max(Abs(b.x - a.x), Abs(b.y - a.y))
  }

  /** What holds at the head of the loop. */
  ghost predicate Underway(a: Point, b: Point, path: seq<Point>, p: Point, err: int) {
    && Stepping(a, b, |path|, p, err) && Drawn(a, b, path) && Continues(a, b, path, p)
    && |path| <= Length(a, b)
  }

  /** The whole line: every point of it in order, from one end to the other, each next to the one before. */
  ghost predicate IsLine(a: Point, b: Point, path: seq<Point>) {
    |path| == Length(a, b) + 1 && path[0] == a && path[Length(a, b)] == b && Drawn(a, b, path)
  }

  lemma LineStarts(a: Point, b: Point)
    ensures Underway(a, b, [], a, Abs(b.x - a.x) - Abs(b.y - a.y))
  {
    SteppingStarts(a, b);
  }

  lemma LineGoesOn(a: Point, b: Point, path: seq<Point>, p: Point, err: int)
    requires Underway(a, b, path, p, err) && p != b
    ensures Underway(a, b, path + [p], NextPoint(a, b, p, err), NextErr(Abs(b.x - a.x), Abs(b.y - a.y), err))
  {
    DrawnGrows(a, b, path, p, err);
    PassKeepsStepping(a, b, |path|, p, err);
  }

  lemma LineEnds(a: Point, b: Point, path: seq<Point>, err: int)
    requires Underway(a, b, path, b, err)
    ensures IsLine(a, b, path + [b])
  {
    DrawnGrows(a, b, path, b, err);
  }

  /** Sets the pixel of a visited point if the image has one. */
  method SetPixel(ghost path: seq<Point>, p: Point, bounds: Bounds, before: seq<Point>) returns (pixels: seq<Point>)
    requires before == Visible(path, bounds)
    ensures pixels == Visible(path + [p], bounds)
  {
    VisibleAppend(path, p, bounds);
    pixels := if bounds.Contains(p) then before + [p] else before;
  }

  /**
   Draws the line from (x0, y0) to (x1, y1). `path` is every point the loop visits and `pixels` those it sets.
   */
  method DrawLine(x0: int, y0: int, x1: int, y1: int, bounds: Bounds)
      returns (path: seq<Point>, pixels: seq<Point>)
    ensures IsLine(Point(x0, y0), Point(x1, y1), path)
    ensures pixels == Visible(path, bounds)
  {
    ghost var a, b := Point(x0, y0), Point(x1, y1);
    var p := Point(x0, y0);
    var dx, dy: int := Abs(x1 - x0), -(Abs(y1 - y0) as int);
    var sx, sy := Sign(x0, x1), Sign(y0, y1);
    var err := dx + dy;
    path, pixels := [], [];
    LineStarts(a, b);
    while true
      invariant Underway(a, b, path, p, err)
      invariant pixels == Visible(path, bounds)
      decreases Length(a, b) - |path|
    {
      pixels := SetPixel(path, p, bounds, pixels);
      if p.x == x1 && p.y == y1 {
        LineEnds(a, b, path, err);
        path := path + [p];
        return;
      }
      LineGoesOn(a, b, path, p, err);
      path := path + [p];
      p, err := Pass(a, b, p, err, dx, dy, sx, sy);
    }
  }
}
