/**
 * A horizontally scrolling background band.  One texture of logical width
 * `blockWidth` is drawn side by side often enough to span the viewport
 * [-1, 1]; the band moves by accumulating `offset`, which is reduced with
 * the float remainder only when the tiles are placed.
 *
 * Arithmetic is over `real`, an exact stand-in for `f32`; durations are
 * whole nanoseconds.
 */
module Background {
  import opened FloatOps
  import opened Render

  const NanosPerSecond: nat := 1_000_000_000

  /** `Duration::as_secs_f32`: a duration of `d` nanoseconds in seconds. */
  function Seconds(d: nat): (s: real)
    ensures s >= 0.0
    ensures s * NanosPerSecond as real == d as real
  {
    d as real / NanosPerSecond as real
  }

  // ---------------------------------------------------------------------
  // Placement of the tiles

  /**
   * `(2 / w).ceil() + 1`: the number of tiles drawn.  One tile fewer than
   * that is the least number of widths that reach across the viewport's
   * length 2, and the extra tile makes up for the shift by the offset.
   */
  function TileCount(w: real): (n: int)
    requires w > 0.0
    ensures n >= 2
    ensures (n as real - 2.0) * w < 2.0 <= (n as real - 1.0) * w
  {
    CeilOfTwoOver(w);
    Ceil(2.0 / w) + 1
  }

  /** `ceil(2 / w)` widths are the fewest that reach across length 2. */
  lemma CeilOfTwoOver(w: real)
    requires w > 0.0
    ensures var c := Ceil(2.0 / w);
      c >= 1 && (c as real - 1.0) * w < 2.0 <= c as real * w
  {
    var q := 2.0 / w;
    assert q * w == 2.0;
    var c := Ceil(q);
    RoundedUpQuotient(w, q, c);
  }

  /** The same, for any `q` with `q * w == 2` and its ceiling `c`. */
  lemma RoundedUpQuotient(w: real, q: real, c: int)
    requires w > 0.0 && q * w == 2.0
    requires c as real - 1.0 < q <= c as real
    ensures c >= 1 && (c as real - 1.0) * w < 2.0 <= c as real * w
  {
    var cr := c as real;
    MulMono(q, 0.0, w);
    assert c >= 1;
    ScaledCeiling(w, q, cr);
  }

  lemma ScaledCeiling(w: real, q: real, c: real)
    requires w > 0.0 && q * w == 2.0
    requires c - 1.0 < q <= c
    ensures (c - 1.0) * w < 2.0 <= c * w
  {
    var below := c - 1.0;
    MulMono(below, q, w);
    MulMono(q, c, w);
  }

  /** The left edge of tile `i`: `-1 + w * i + offset % w`. */
  function TileX(w: real, offset: real, i: int): real
    requires w > 0.0
  {
    -1.0 + w * i as real + Rem(offset, w)
  }

  /** The draw calls of one `draw`, in order: one textured quad per tile. */
  function Tiles(w: real, offset: real, height: real): seq<DrawCall>
    requires w > 0.0
  {
    seq(TileCount(w), i requires 0 <= i < TileCount(w) => Textured(TileX(w, offset, i), -1.0 + height))
  }

  /**
   * The shape of one draw: `TileCount(w)` tiles, all on the line
   * `y = -1 + height`, the first one shifted from -1 by `offset % w`, and
   * each next one exactly one width to the right of the previous.
   */
  lemma TileLayout(w: real, offset: real, height: real)
    requires w > 0.0
    ensures var t := Tiles(w, offset, height);
      && |t| == TileCount(w)
      && t[0] == Textured(-1.0 + Rem(offset, w), -1.0 + height)
      && (forall i :: 0 <= i < |t| ==> t[i].Textured? && t[i].y == -1.0 + height)
      && (forall i :: 0 <= i < |t| - 1 ==> t[i + 1].x == t[i].x + w)
  {
    var t := Tiles(w, offset, height);
    forall i | 0 <= i < |t| - 1
      ensures t[i + 1].x == t[i].x + w
    {
      assert w * (i + 1) as real == w * i as real + w;
    }
  }

  /**
   * With a non-positive offset (the only kind forward scrolling produces)
   * the first tile starts at or left of -1 and the last one ends right of 1.
   */
  lemma ViewportEdges(w: real, offset: real, height: real)
    requires w > 0.0 && offset <= 0.0
    ensures var t := Tiles(w, offset, height);
      t[0].x <= -1.0 && 1.0 < t[|t| - 1].x + w
  {
    var n := TileCount(w);
    assert w * (n - 1) as real == (n as real - 1.0) * w;
  }

  /**
   * No gap: with a non-positive offset every point of [-1, 1] lies in some
   * tile, counting each tile as the half-open span [x, x + w).
   */
  lemma NoGap(w: real, offset: real, height: real, p: real)
    requires w > 0.0 && offset <= 0.0
    requires -1.0 <= p <= 1.0
    ensures var t := Tiles(w, offset, height);
      exists i :: 0 <= i < |t| && t[i].x <= p < t[i].x + w
  {
    var t := Tiles(w, offset, height);
    var n := TileCount(w);
    var x0 := -1.0 + Rem(offset, w);
    var nr := n as real;
    assert p - x0 < nr * w by {
      assert nr * w == (nr - 1.0) * w + w;
    }
    var i := CoveringIndex(w, x0, p, n);
    assert t[i].x == x0 + i as real * w;
  }

  /**
   * The tiles `x0 + i * w`, `0 <= i < n`, cover every point from `x0` up to
   * `x0 + n * w`: the covering one is `floor((p - x0) / w)`.
   */
  lemma CoveringIndex(w: real, x0: real, p: real, n: int) returns (i: int)
    requires w > 0.0 && x0 <= p && p - x0 < n as real * w
    ensures 0 <= i < n
    ensures x0 + i as real * w <= p < x0 + i as real * w + w
  {
    var d := p - x0;
    var q := d / w;
    assert q * w == d;
    DivBounds(d, w);
    i := q.Floor;
    var ir := i as real;
    var nr := n as real;
    MulMono(ir, q, w);
    ScaleBelowNext(d, w, q, ir);
    assert ir * w <= d < nr * w;
    MulMono(nr, ir, w);
    assert ir < nr;
  }

  /**
   * The remainder follows the sign of the offset, so a positive offset
   * (what a negative speed produces) that is not a whole multiple of the
   * width, i.e. whose remainder is non-zero, moves every tile right of -1
   * and leaves the left end of the viewport uncovered.
   */
  lemma PositiveRemainderLeavesGap(w: real, offset: real, height: real)
    requires w > 0.0 && Rem(offset, w) > 0.0
    ensures var t := Tiles(w, offset, height);
      forall i :: 0 <= i < |t| ==> -1.0 < t[i].x
  {
    var t := Tiles(w, offset, height);
    forall i | 0 <= i < |t|
      ensures -1.0 < t[i].x
    {
      MulMono(0.0, i as real, w);
    }
  }

  /** An instance: at `w = 1.4` the offset 0.7 leaves a gap, its remainder being 0.7. */
  lemma PositiveOffsetLeavesGap(height: real)
    ensures var t := Tiles(1.4, 0.7, height);
      forall i :: 0 <= i < |t| ==> -1.0 < t[i].x
  {
    RemUnique(0.7, 1.4, 0, 0.7);
    PositiveRemainderLeavesGap(1.4, 0.7, height);
  }

  /**
   * Periodicity: shifting the offset by a whole number of widths leaves
   * every placement unchanged when the shift does not cross zero.  Across
   * zero it can fail (below).
   */
  lemma TilesPeriodic(w: real, offset: real, k: int, height: real)
    requires w > 0.0
    requires (offset <= 0.0 && offset + k as real * w <= 0.0) || (offset >= 0.0 && offset + k as real * w >= 0.0)
    ensures Tiles(w, offset + k as real * w, height) == Tiles(w, offset, height)
  {
    RemPeriodic(offset, w, k);
  }

  /**
   * Across zero periodicity can fail: offsets -0.7 and 0.7 differ by one
   * width 1.4 but place the tiles differently.
   */
  lemma PeriodicityBreaksAcrossZero(height: real)
    ensures Tiles(1.4, -0.7, height) != Tiles(1.4, -0.7 + 1.4, height)
  {
    RemUnique(-0.7, 1.4, 0, -0.7);
    RemUnique(0.7, 1.4, 0, 0.7);
    assert Tiles(1.4, -0.7, height)[0].x != Tiles(1.4, 0.7, height)[0].x;
  }

  // ---------------------------------------------------------------------
  // Advancing the offset

  /** `offset - dt.as_secs_f32() * speed`: the offset after `update(dt)`. */
  function Advance(offset: real, speed: real, dt: nat): real
  {
    offset - Seconds(dt) * speed
  }

  /** Two updates are one update by the summed duration; a zero duration is no update. */
  lemma AdvanceAdditive(offset: real, speed: real, d1: nat, d2: nat)
    ensures Advance(Advance(offset, speed, d1), speed, d2) == Advance(offset, speed, d1 + d2)
    ensures Advance(offset, speed, 0) == offset
  {
    assert Seconds(d1 + d2) == Seconds(d1) + Seconds(d2);
    assert (Seconds(d1) + Seconds(d2)) * speed == Seconds(d1) * speed + Seconds(d2) * speed;
  }

  /** With a non-negative speed an update never moves the offset right. */
  lemma AdvanceNonIncreasing(offset: real, speed: real, dt: nat)
    requires speed >= 0.0
    ensures Advance(offset, speed, dt) <= offset
  {
    assert Seconds(dt) * speed >= 0.0 by {
      if dt > 0 {
        MulMono(0.0, speed, Seconds(dt));
      }
    }
  }

  /** The offset after one update per element of `ds`, in order. */
  function AdvanceAll(offset: real, speed: real, ds: seq<nat>): real
    decreases ds
  {
    if ds == [] then offset else AdvanceAll(Advance(offset, speed, ds[0]), speed, ds[1..])
  }

  function Sum(ds: seq<nat>): nat
  {
    if ds == [] then 0 else ds[0] + Sum(ds[1..])
  }

  /** Any run of updates equals a single update by their total duration. */
  lemma {:induction false} AdvanceAllIsOneAdvance(offset: real, speed: real, ds: seq<nat>)
    ensures AdvanceAll(offset, speed, ds) == Advance(offset, speed, Sum(ds))
    decreases ds
  {
    if ds == [] {
      AdvanceAdditive(offset, speed, 0, 0);
    } else {
      AdvanceAllIsOneAdvance(Advance(offset, speed, ds[0]), speed, ds[1..]);
      AdvanceAdditive(offset, speed, ds[0], Sum(ds[1..]));
    }
  }

  /**
   * With a non-negative speed the offset never increases, so a layer that
   * starts at 0 keeps a non-positive offset through any run of updates.
   */
  lemma ForwardScrollKeepsOffsetNonPositive(speed: real, ds: seq<nat>)
    requires speed >= 0.0
    ensures AdvanceAll(0.0, speed, ds) <= 0.0
  {
    AdvanceAllIsOneAdvance(0.0, speed, ds);
    AdvanceNonIncreasing(0.0, speed, Sum(ds));
  }

  /**
   * The layers of the game, `block_width = 1.4`: three tiles, edges at
   * -1, 0.4, 1.8; one second at speed 0.05 moves the offset to -0.05 and
   * the edges to -1.05, 0.35, 1.75.
   */
  lemma WorkedCase(height: real)
    ensures TileCount(1.4) == 3
    ensures Tiles(1.4, 0.0, height)
      == [Textured(-1.0, -1.0 + height), Textured(0.4, -1.0 + height), Textured(1.8, -1.0 + height)]
    ensures Advance(0.0, 0.05, NanosPerSecond) == -0.05
    ensures Tiles(1.4, -0.05, height)
      == [Textured(-1.05, -1.0 + height), Textured(0.35, -1.0 + height), Textured(1.75, -1.0 + height)]
  {
    assert TileCount(1.4) == 3 by {
      assert 2.0 / 1.4 == 10.0 / 7.0;
      assert Ceil(10.0 / 7.0) == 2;
    }
    RemUnique(0.0, 1.4, 0, 0.0);
    RemUnique(-0.05, 1.4, 0, -0.05);
  }

  // ---------------------------------------------------------------------
  // The layer object

  class Background {
    const blockWidth: real
    const speed: real
    var offset: real
    const texture: Texture

    /** The width is positive and the owned texture has it. */
    predicate Valid()
    {
      blockWidth > 0.0 && texture.width == blockWidth
    }

    /** `Background::new`: offset 0, width and speed as given, texture loaded at (0, 0). */
    constructor (blockWidth: real, speed: real, textureHeight: real)
      requires blockWidth > 0.0
      ensures Valid()
      ensures this.blockWidth == blockWidth && this.speed == speed && offset == 0.0
      ensures fresh(texture) && texture.x == 0.0 && texture.y == 0.0 && texture.height == textureHeight
    {
      this.blockWidth := blockWidth;
      this.speed := speed;
      offset := 0.0;
      texture := new Texture(0.0, 0.0, blockWidth, textureHeight);
    }

    /**
     * `draw`: appends one draw call per tile to the frame.  Only the owned
     * texture changes (it is left at the last tile); offset, speed and
     * width are not touched.
     */
    method Draw(frame: Frame) returns (f: Frame)
      requires Valid()
      modifies texture
      ensures f == frame + Tiles(blockWidth, offset, texture.height)
      ensures texture.x == TileX(blockWidth, offset, TileCount(blockWidth) - 1)
      ensures texture.y == -1.0 + texture.height
    {
      var blocksNumber := TileCount(blockWidth);
      var height := texture.height;
      ghost var tiles := Tiles(blockWidth, offset, height);
      f := frame;
      for i := 0 to blocksNumber
        invariant f == frame + tiles[..i]
        invariant i > 0 ==> texture.x == TileX(blockWidth, offset, i - 1) && texture.y == -1.0 + height
      {
        var currentOffset := -1.0 + blockWidth * i as real + Rem(offset, blockWidth);
        texture.SetPos(currentOffset, -1.0 + height);
        f := texture.Draw(f);
        assert tiles[i] == Textured(currentOffset, -1.0 + height);
        assert tiles[..i + 1] == tiles[..i] + [tiles[i]];
      }
      assert tiles[..blocksNumber] == tiles;
    }

    /** `update`: the offset moves by `-dt * speed`. */
    method Update(dt: nat)
      modifies this`offset
      ensures offset == Advance(old(offset), speed, dt)
    {
      offset := offset - Seconds(dt) * speed;
    }
  }
}
