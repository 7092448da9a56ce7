/**
 * The path of the ball: every holder of `serverLock` moves the shared point one cell along each axis and turns round
 * at the edges of the board.
 */
module PongPath {
  /** One axis of `coord_info`: where the ball is and which way it goes. */
  datatype Axis = Axis(at: int, step: int)

  /** One move along an axis of the given size. */
  function Bounce(a: Axis, size: int): Axis {
    var at := a.at + a.step;
    if at < 0 || at >= size then Axis(at - 2 * a.step, -a.step) else Axis(at, a.step)
  }

  /** The axis after k moves from the corner. */
  function Moved(k: nat, size: int): Axis {
    if k == 0 then Axis(0, 1) else Bounce(Moved(k - 1, size), size)
  }

  /** A triangle wave over the cells 0 .. size - 1. */
  function Wave(k: nat, size: int): int
    requires size >= 2
  {
    var phase := k % (2 * (size - 1));
    if phase < size then phase else 2 * (size - 1) - phase
  }

  lemma NextPhase(k: nat, period: int)
    requires period >= 2
    ensures (k + 1) % period == if k % period == period - 1 then 0 else k % period + 1
  {
    var q, r := k / period, k % period;
    assert k == q * period + r;
    if r == period - 1 {
      assert k + 1 == (q + 1) * period by {
        assert (q + 1) * period == q * period + period;
      }
      Multiple(q + 1, 0, period);
    } else {
      Multiple(q, r + 1, period);
    }
  }

  lemma FarMultiple(d: int, period: int)
    requires d != 0 && period > 0
    ensures d * period >= period || d * period <= -period
  {
    if d > 0 {
      assert (d - 1) * period >= 0;
    } else {
      assert (-d - 1) * period >= 0;
    }
  }

  lemma Multiple(q: int, r: int, period: int)
    requires 0 <= r < period
    ensures (q * period + r) % period == r
  {
    var k := q * period + r;
    var q', r' := k / period, k % period;
    assert k == q' * period + r';
    assert (q - q') * period == r' - r;
    if q != q' {
      FarMultiple(q - q', period);
    }
  }

  /**
   * On a board of at least two cells the moves trace the triangle wave, so the ball
   * never leaves the board and never stands still.
   */
  lemma {:induction false} MovesTraceTheWave(k: nat, size: int)
    requires size >= 2
    ensures Moved(k, size).at == Wave(k, size)
    ensures 0 <= Wave(k, size) < size
    ensures Wave(k + 1, size) - Wave(k, size) == 1 || Wave(k + 1, size) - Wave(k, size) == -1
    ensures Moved(k, size).step ==
            if k == 0 || 1 <= k % (2 * (size - 1)) < size then 1 else -1
  {
    var period := 2 * (size - 1);
    NextPhase(k, period);
    if k == 0 {
      Multiple(0, 0, period);
    } else {
      NextPhase(k - 1, period);
      MovesTraceTheWave(k - 1, size);
    }
  }

  /**
   * The ball stays on the board for ever exactly when the board is at least two cells
   * wide: on a single cell the first move already leads to -1.
   */
  lemma StaysOnTheBoard(size: int)
    requires size >= 1
    ensures (forall k: nat :: 0 <= Moved(k, size).at < size) <==> size >= 2
  {
    if size >= 2 {
      forall k: nat ensures 0 <= Moved(k, size).at < size {
        MovesTraceTheWave(k, size);
      }
    } else {
      assert Moved(0, size) == Axis(0, 1);
      assert Moved(1, size).at == -1;
    }
  }

  /** The shared point, moved in place by whoever holds `serverLock`. */
  class CoordInfo {
    var x: int
    var y: int
    var dx: int
    var dy: int
    const width: int
    const height: int

    constructor (width: int, height: int)
      ensures this.width == width && this.height == height
      ensures Axis(x, dx) == Moved(0, width) && Axis(y, dy) == Moved(0, height)
    {
      x, y, dx, dy := 0, 0, 1, 1;
      this.width, this.height := width, height;
    }

    method Move()
      modifies this
      ensures Axis(x, dx) == Bounce(old(Axis(x, dx)), width)
      ensures Axis(y, dy) == Bounce(old(Axis(y, dy)), height)
    {
      x := x + dx;
      y := y + dy;
      if x < 0 || x >= width {
        dx := -dx;
        x := x + 2 * dx;
      }
      if y < 0 || y >= height {
        dy := -dy;
        y := y + 2 * dy;
      }
    }
  }
}
