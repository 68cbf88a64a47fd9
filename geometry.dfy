/**
 * Cinder's vector types as the service uses them, and the float-to-int
 * conversion and row-major index arithmetic of the coordinate remapper.
 */
module Geometry {

  /** Cinder's Vec2f. Float coordinates are modelled as reals. */
  datatype Vec2f = Vec2f(x: real, y: real)

  /** A map size as the service records it in a Vec2i: (width, height). */
  datatype MapSize = MapSize(width: nat, height: nat)

  /** The number of pixels of a map of this size. */
  function Pixels(size: MapSize): nat
  {
    size.width * size.height
  }

  /** The value Vec2i/Vec2f::zero() gives the recorded sizes before start. */
  const ZeroSize := MapSize(0, 0)

  /** C++ `(int)f`: converting a float to an int truncates toward zero. */
  function Trunc(r: real): (t: int)
    ensures 0.0 <= r ==> 0 <= t && t as real <= r < t as real + 1.0
    ensures r < 0.0 ==> t <= 0 && t as real - 1.0 < r <= t as real
  {
    if r >= 0.0 then r.Floor else -((-r).Floor)
  }

  /**
   * `(int)position.y * width + (int)position.x`: the row-major index of the
   * pixel under `position` in a map that is `width` pixels wide.
   */
  function PixelIndex(position: Vec2f, width: int): int
  {
    Trunc(position.y) * width + Trunc(position.x)
  }

  /** A position inside a width x height image indexes one of its pixels. */
  lemma PixelIndexInBounds(position: Vec2f, size: MapSize)
    requires 0.0 <= position.x < size.width as real
    requires 0.0 <= position.y < size.height as real
    ensures 0 <= PixelIndex(position, size.width) < size.width * size.height
  {
    var tx, ty := Trunc(position.x), Trunc(position.y);
    assert 0 <= tx < size.width && 0 <= ty < size.height;
    calc {
      ty * size.width + tx;
    < ty * size.width + size.width;
    == (ty + 1) * size.width;
    <= { MulMonotonic(ty + 1, size.height, size.width); }
      size.height * size.width;
    }
  }

  lemma MulMonotonic(a: nat, b: nat, c: nat)
    requires a <= b
    ensures a * c <= b * c
  {}

  /**
   * Row-major indexing can be undone: the index of a position whose column
   * lies inside the row gives back its (truncated) row and column.
   */
  lemma PixelIndexRoundTrip(position: Vec2f, width: nat)
    requires 0.0 <= position.x < width as real
    requires 0.0 <= position.y
    ensures PixelIndex(position, width) / width == Trunc(position.y)
    ensures PixelIndex(position, width) % width == Trunc(position.x)
  {
    var tx, ty := Trunc(position.x), Trunc(position.y);
    DivModUnique(ty * width + tx, width, ty, tx);
  }

  lemma DivModUnique(n: int, d: nat, q: int, r: int)
    requires 0 <= r < d
    requires n == q * d + r
    ensures n / d == q && n % d == r
  {
    var q', r' := n / d, n % d;
    assert (q' - q) * d == r - r';
    MulAwayFromZero(q' - q, d);
  }

  lemma MulAwayFromZero(k: int, d: nat)
    ensures k >= 1 ==> k * d >= d
    ensures k <= -1 ==> k * d + d <= 0
  {
    if k >= 1 {
      MulMonotonic(1, k, d);
    } else if k <= -1 {
      MulMonotonic(1, -k, d);
    }
  }
}
