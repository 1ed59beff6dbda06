/** Compositing in galsim/config/image.py: the order in which a Tiled image
    visits its tiles and the centres it gives them (BuildTiledImage), and
    the addition of the drawn stamps into the full image, under the
    containment assertion for Tiled and over the overlap only for
    Scattered (BuildScatteredImage). Drawing the stamps (BuildStamps) is
    outside this model: a stamp is its bounds and its pixel values. */
module Compose {
  import opened Common
  import opened Bounds
  import opened Shuffle
  import opened ImageSetup
  import opened Canvas

  // ---------------------------------------------------------------------------
  // Tile order

  /** A tile (ix, iy). */
  type Tile = (int, int)

  datatype Order = Row | Col | Rand

  predicate StartsWith(s: string, prefix: string) {
    |prefix| <= |s| && s[..|prefix|] == prefix
  }

  /** image.order, lower-cased, by prefix; 'row' when not given (lines 536-552). */
  function ParseOrder(order: Option<string>): (r: Result<Order>)
    ensures order.None? ==> r == Ok(Row)
    ensures order.Some? ==>
              (r == Ok(Row) <==> StartsWith(Lower(order.value), "row")) &&
              (r == Ok(Col) <==> !StartsWith(Lower(order.value), "row") && StartsWith(Lower(order.value), "col")) &&
              (r == Ok(Rand) <==> !StartsWith(Lower(order.value), "row") && !StartsWith(Lower(order.value), "col") &&
                                  StartsWith(Lower(order.value), "rand"))
    ensures r.Err? ==> r.error == InvalidOrder
  {
    match order
    case None => Ok(Row)
    case Some(s) =>
      var l := Lower(s);
      if StartsWith(l, "row") then Ok(Row)
      else if StartsWith(l, "col") then Ok(Col)
      else if StartsWith(l, "rand") then Ok(Rand)
      else Err(InvalidOrder)
  }

  /** `[(ix, iy) for iy in range(ny) for ix in range(nx)]`: x varies fastest. */
  function RowList(nx: nat, ny: nat): (r: seq<Tile>)
    ensures |r| == nx * ny
  {
    if ny == 0 then []
    else
      assert nx * (ny - 1) + nx == nx * ny;
      RowList(nx, ny - 1) + seq(nx, ix requires 0 <= ix < nx => (ix, ny - 1))
  }

  /** Exchanges the roles of x and y in each tile. */
  function Transposed(ts: seq<Tile>): (r: seq<Tile>)
    ensures |r| == |ts|
    ensures forall p :: 0 <= p < |ts| ==> r[p] == (ts[p].1, ts[p].0)
  {
    seq(|ts|, p requires 0 <= p < |ts| => (ts[p].1, ts[p].0))
  }

  /** `[(ix, iy) for ix in range(nx) for iy in range(ny)]`: y varies fastest;
      it is the row order of the transposed grid, transposed back. */
  function ColList(nx: nat, ny: nat): (r: seq<Tile>)
    ensures |r| == nx * ny
  {
    Transposed(RowList(ny, nx))
  }

  /** Each tile of the nx by ny grid appears exactly once, and nothing else does. */
  predicate EachTileOnce(ts: seq<Tile>, nx: nat, ny: nat) {
    (forall p :: 0 <= p < |ts| ==> 0 <= ts[p].0 < nx && 0 <= ts[p].1 < ny) &&
    (forall p, q :: 0 <= p < q < |ts| ==> ts[p] != ts[q]) &&
    (forall ix, iy :: 0 <= ix < nx && 0 <= iy < ny ==> (ix, iy) in ts)
  }

  /** Row order visits each tile of the grid exactly once. */
  lemma RowListOnce(nx: nat, ny: nat)
    ensures EachTileOnce(RowList(nx, ny), nx, ny)
  {
    RowListInGrid(nx, ny);
    RowListDistinct(nx, ny);
    RowListCovers(nx, ny);
  }

  lemma {:induction false} RowListInGrid(nx: nat, ny: nat)
    ensures forall p :: 0 <= p < |RowList(nx, ny)| ==> 0 <= RowList(nx, ny)[p].0 < nx && 0 <= RowList(nx, ny)[p].1 < ny
  {
    if ny > 0 {
      var ts := RowList(nx, ny);
      var pre := RowList(nx, ny - 1);
      var blk := seq(nx, ix requires 0 <= ix < nx => (ix, ny - 1));
      RowListInGrid(nx, ny - 1);
      assert ts == pre + blk;
      forall p | 0 <= p < |ts| ensures 0 <= ts[p].0 < nx && 0 <= ts[p].1 < ny {
        if p < |pre| { assert ts[p] == pre[p]; } else { assert ts[p] == blk[p - |pre|]; }
      }
    }
  }

  lemma {:induction false} RowListDistinct(nx: nat, ny: nat)
    ensures forall p, q :: 0 <= p < q < |RowList(nx, ny)| ==> RowList(nx, ny)[p] != RowList(nx, ny)[q]
  {
    if ny > 0 {
      var ts := RowList(nx, ny);
      var pre := RowList(nx, ny - 1);
      var blk := seq(nx, ix requires 0 <= ix < nx => (ix, ny - 1));
      RowListDistinct(nx, ny - 1);
      RowListInGrid(nx, ny - 1);
      assert ts == pre + blk;
      forall p, q | 0 <= p < q < |ts| ensures ts[p] != ts[q] {
        if q < |pre| {
          assert ts[p] == pre[p] && ts[q] == pre[q];
        } else if p < |pre| {
          assert ts[p] == pre[p] && ts[q] == blk[q - |pre|];
        } else {
          assert ts[p] == blk[p - |pre|] && ts[q] == blk[q - |pre|];
        }
      }
    }
  }

  lemma {:induction false} RowListCovers(nx: nat, ny: nat)
    ensures forall ix, iy :: 0 <= ix < nx && 0 <= iy < ny ==> (ix, iy) in RowList(nx, ny)
  {
    if ny > 0 {
      var ts := RowList(nx, ny);
      var pre := RowList(nx, ny - 1);
      var blk := seq(nx, ix requires 0 <= ix < nx => (ix, ny - 1));
      RowListCovers(nx, ny - 1);
      assert ts == pre + blk;
      forall ix, iy | 0 <= ix < nx && 0 <= iy < ny ensures (ix, iy) in ts {
        if iy < ny - 1 {
          assert (ix, iy) in pre;
          var p :| 0 <= p < |pre| && pre[p] == (ix, iy);
          assert ts[p] == (ix, iy);
        } else {
          assert ts[|pre| + ix] == (ix, iy);
        }
      }
    }
  }

  /** Row order starts at (0, 0) and moves along x, wrapping to the start of
      the next row at the end of one. */
  lemma RowListSteps(nx: nat, ny: nat)
    ensures |RowList(nx, ny)| > 0 ==> RowList(nx, ny)[0] == (0, 0) && RowList(nx, ny)[|RowList(nx, ny)| - 1] == (nx - 1, ny - 1)
    ensures forall p :: 0 <= p < |RowList(nx, ny)| - 1 ==>
              RowList(nx, ny)[p + 1] == if RowList(nx, ny)[p].0 + 1 < nx then (RowList(nx, ny)[p].0 + 1, RowList(nx, ny)[p].1)
                                        else (0, RowList(nx, ny)[p].1 + 1)
  {
    RowListEnds(nx, ny);
    forall p | 0 <= p < |RowList(nx, ny)| - 1
      ensures RowList(nx, ny)[p + 1] == if RowList(nx, ny)[p].0 + 1 < nx then (RowList(nx, ny)[p].0 + 1, RowList(nx, ny)[p].1)
                                        else (0, RowList(nx, ny)[p].1 + 1)
    {
      RowListStep(nx, ny, p);
    }
  }

  /** The first tile of row order is (0, 0) and the last (nx-1, ny-1). */
  lemma {:induction false} RowListEnds(nx: nat, ny: nat)
    ensures |RowList(nx, ny)| > 0 ==> RowList(nx, ny)[0] == (0, 0) && RowList(nx, ny)[|RowList(nx, ny)| - 1] == (nx - 1, ny - 1)
  {
    if ny > 0 && nx > 0 {
      var ts := RowList(nx, ny);
      var pre := RowList(nx, ny - 1);
      var blk := seq(nx, ix requires 0 <= ix < nx => (ix, ny - 1));
      assert ts == pre + blk;
      if |pre| > 0 {
        RowListEnds(nx, ny - 1);
        assert ts[0] == pre[0];
      } else {
        assert ts[0] == blk[0];
      }
      assert ts[|ts| - 1] == blk[nx - 1];
    }
  }

  /** One step of row order: along x, or to the start of the next row. */
  lemma {:induction false} RowListStep(nx: nat, ny: nat, p: nat)
    requires p + 1 < |RowList(nx, ny)|
    ensures RowList(nx, ny)[p + 1] == if RowList(nx, ny)[p].0 + 1 < nx then (RowList(nx, ny)[p].0 + 1, RowList(nx, ny)[p].1)
                                      else (0, RowList(nx, ny)[p].1 + 1)
    decreases ny
  {
    var ts := RowList(nx, ny);
    var pre := RowList(nx, ny - 1);
    var blk := seq(nx, ix requires 0 <= ix < nx => (ix, ny - 1));
    assert ts == pre + blk;
    if p + 1 < |pre| {
      RowListStep(nx, ny - 1, p);
      assert ts[p] == pre[p] && ts[p + 1] == pre[p + 1];
    } else if p + 1 == |pre| {
      RowListEnds(nx, ny - 1);
      assert ts[p] == pre[|pre| - 1] && ts[p + 1] == blk[0];
    } else {
      assert ts[p] == blk[p - |pre|] && ts[p + 1] == blk[p + 1 - |pre|];
    }
  }

  /** Transposing swaps the roles of the two axes of the grid. */
  lemma TransposedOnce(ts: seq<Tile>, nx: nat, ny: nat)
    requires EachTileOnce(ts, ny, nx)
    ensures EachTileOnce(Transposed(ts), nx, ny)
  {
    var r := Transposed(ts);
    forall p, q | 0 <= p < q < |r| ensures r[p] != r[q] {
      assert ts[p] != ts[q];
    }
    forall ix, iy | 0 <= ix < nx && 0 <= iy < ny ensures (ix, iy) in r {
      assert (iy, ix) in ts;
      var p :| 0 <= p < |ts| && ts[p] == (iy, ix);
      assert r[p] == (ix, iy);
    }
  }

  /** Column order visits each tile of the grid exactly once. */
  lemma ColListOnce(nx: nat, ny: nat)
    ensures EachTileOnce(ColList(nx, ny), nx, ny)
  {
    RowListOnce(ny, nx);
    TransposedOnce(RowList(ny, nx), nx, ny);
  }

  /** Column order starts at (0, 0) and moves along y, wrapping to the
      start of the next column at the end of one. */
  lemma ColListSteps(nx: nat, ny: nat)
    ensures var ts := ColList(nx, ny);
            (|ts| > 0 ==> ts[0] == (0, 0)) &&
            forall p :: 0 <= p < |ts| - 1 ==>
              ts[p + 1] == if ts[p].1 + 1 < ny then (ts[p].0, ts[p].1 + 1) else (ts[p].0 + 1, 0)
  {
    var rl := RowList(ny, nx);
    var ts := ColList(nx, ny);
    RowListSteps(ny, nx);
    forall p | 0 <= p < |ts| - 1
      ensures ts[p + 1] == if ts[p].1 + 1 < ny then (ts[p].0, ts[p].1 + 1) else (ts[p].0 + 1, 0)
    {
      assert ts[p] == (rl[p].1, rl[p].0) && ts[p + 1] == (rl[p + 1].1, rl[p + 1].0);
    }
  }

  /** A shuffle moves tiles around but keeps each tile exactly once. */
  lemma ShuffledOnce(ts: seq<Tile>, nx: nat, ny: nat, draws: seq<nat>)
    requires EachTileOnce(ts, nx, ny) && ValidDraws(|ts|, draws)
    ensures |Shuffled(ts, |ts|, draws)| == |ts|
    ensures EachTileOnce(Shuffled(ts, |ts|, draws), nx, ny)
  {
    var sw := Schedule(|ts|, draws);
    ScheduleInRange(|ts|, draws, |ts|);
    var r := Shuffled(ts, |ts|, draws);
    assert r == ApplySwaps(ts, sw);
    forall p | 0 <= p < |r| ensures Src(sw, p) < |ts| && r[p] == ts[Src(sw, p)] {
      ApplySwapsAt(ts, sw, p);
    }
    forall p, q | 0 <= p < q < |r| ensures r[p] != r[q] {
      SrcInjective(sw, p, q);
    }
    forall ix, iy | 0 <= ix < nx && 0 <= iy < ny ensures (ix, iy) in r {
      var q :| 0 <= q < |ts| && ts[q] == (ix, iy);
      SrcOnto(sw, |ts|, q);
      var p :| 0 <= p < |ts| && Src(sw, p) == q;
      assert r[p] == (ix, iy);
    }
  }

  function Xs(ts: seq<Tile>): (r: seq<int>)
    ensures |r| == |ts| && forall p :: 0 <= p < |ts| ==> r[p] == ts[p].0
  {
    seq(|ts|, p requires 0 <= p < |ts| => ts[p].0)
  }

  function Ys(ts: seq<Tile>): (r: seq<int>)
    ensures |r| == |ts| && forall p :: 0 <= p < |ts| ==> r[p] == ts[p].1
  {
    seq(|ts|, p requires 0 <= p < |ts| => ts[p].1)
  }

  function Zip(xs: seq<int>, ys: seq<int>): (r: seq<Tile>)
    requires |xs| == |ys|
    ensures |r| == |xs| && forall p :: 0 <= p < |xs| ==> r[p] == (xs[p], ys[p])
  {
    seq(|xs|, p requires 0 <= p < |xs| => (xs[p], ys[p]))
  }

  /** Shuffling the two lists in step is shuffling the list of tiles. */
  lemma ShuffleInStep(ts: seq<Tile>, draws: seq<nat>)
    requires ValidDraws(|ts|, draws)
    ensures |Shuffled(Xs(ts), |ts|, draws)| == |Shuffled(Ys(ts), |ts|, draws)| == |ts|
    ensures Zip(Shuffled(Xs(ts), |ts|, draws), Shuffled(Ys(ts), |ts|, draws)) == Shuffled(ts, |ts|, draws)
  {
    var sw := Schedule(|ts|, draws);
    ScheduleInRange(|ts|, draws, |ts|);
    var a, b, r := Shuffled(Xs(ts), |ts|, draws), Shuffled(Ys(ts), |ts|, draws), Shuffled(ts, |ts|, draws);
    forall p | 0 <= p < |ts| ensures r[p] == (a[p], b[p]) {
      ApplySwapsAt(ts, sw, p);
      ApplySwapsAt(Xs(ts), sw, p);
      ApplySwapsAt(Ys(ts), sw, p);
    }
  }

  /** The tiles in the order `o` visits them; for Rand, the column order
      shuffled with `draws`. */
  function TilesInOrder(nx: nat, ny: nat, o: Order, draws: seq<nat>): (r: seq<Tile>)
    requires ValidDraws(nx * ny, draws)
    ensures |r| == nx * ny
  {
    match o
    case Row => RowList(nx, ny)
    case Col => ColList(nx, ny)
    case Rand =>
      ShuffledIsPermutation(ColList(nx, ny), nx * ny, draws);
      Shuffled(ColList(nx, ny), nx * ny, draws)
  }

  /** The ix and iy lists of BuildTiledImage (lines 536-552). `draws` are
      the uniform deviates permute consumes for 'rand' order. */
  method TileOrder(nx: nat, ny: nat, order: Option<string>, draws: seq<nat>) returns (r: Result<(seq<int>, seq<int>)>)
    requires ValidDraws(nx * ny, draws)
    ensures r.Err? <==> ParseOrder(order).Err?
    ensures r.Err? ==> r.error == InvalidOrder
    ensures r.Ok? ==> |r.value.0| == |r.value.1| == nx * ny &&
                      EachTileOnce(Zip(r.value.0, r.value.1), nx, ny)
    ensures r.Ok? && ParseOrder(order) == Ok(Row) ==> Zip(r.value.0, r.value.1) == RowList(nx, ny)
    ensures r.Ok? && ParseOrder(order) == Ok(Col) ==> Zip(r.value.0, r.value.1) == ColList(nx, ny)
    ensures r.Ok? && ParseOrder(order) == Ok(Rand) ==>
              Zip(r.value.0, r.value.1) == Shuffled(ColList(nx, ny), nx * ny, draws)
    ensures r.Ok? ==> Zip(r.value.0, r.value.1) == TilesInOrder(nx, ny, ParseOrder(order).value, draws)
  {
    RowListOnce(nx, ny);
    ColListOnce(nx, ny);
    var o :- ParseOrder(order);
    match o
    case Row =>
      var ts := RowList(nx, ny);
      assert Zip(Xs(ts), Ys(ts)) == ts;
      return Ok((Xs(ts), Ys(ts)));
    case Col =>
      var ts := ColList(nx, ny);
      assert Zip(Xs(ts), Ys(ts)) == ts;
      return Ok((Xs(ts), Ys(ts)));
    case Rand =>
      var ts := ColList(nx, ny);
      var xs := new int[|ts|](p requires 0 <= p < |ts| => ts[p].0);
      var ys := new int[|ts|](p requires 0 <= p < |ts| => ts[p].1);
      assert xs[..] == Xs(ts) && ys[..] == Ys(ts);
      var res := Permute([xs, ys], draws);
      assert [xs, ys][0] == xs && [xs, ys][1] == ys;
      assert res.Ok? by {
        assert LongEnough([xs, ys]);
      }
      ShuffleInStep(ts, draws);
      ShuffledOnce(ts, nx, ny, draws);
      return Ok((xs[..], ys[..]));
  }

  // ---------------------------------------------------------------------------
  // Tile geometry

  /** The box of tile (ix, iy): stamps are xsize by ysize, xsize + xborder
      apart, the first one at the image origin. */
  function TileBox(l: TiledLayout, origin: int, ix: int, iy: int): (b: Bounds)
    requires l.stampX > 0 && l.stampY > 0
    ensures b.Box?
  {
    OfSize(origin + ix * (l.stampX + l.xborder), origin + iy * (l.stampY + l.yborder), l.stampX, l.stampY)
  }

  /** The image_pos lists of lines 556-568: x0 + ix*dx and y0 + iy*dy, where
      (x0, y0) is the centre of the first stamp. */
  function TileCentres(l: TiledLayout, origin: int, ixs: seq<int>, iys: seq<int>): (r: (seq<real>, seq<real>))
    requires |ixs| == |iys|
    ensures |r.0| == |r.1| == |ixs|
    ensures forall p :: 0 <= p < |ixs| ==>
              r.0[p] == (l.stampX as real - 1.0) / 2.0 + origin as real + (ixs[p] * (l.stampX + l.xborder)) as real &&
              r.1[p] == (l.stampY as real - 1.0) / 2.0 + origin as real + (iys[p] * (l.stampY + l.yborder)) as real
  {
    var x0 := (l.stampX as real - 1.0) / 2.0 + origin as real;
    var y0 := (l.stampY as real - 1.0) / 2.0 + origin as real;
    (seq(|ixs|, p requires 0 <= p < |ixs| => x0 + (ixs[p] * (l.stampX + l.xborder)) as real),
     seq(|iys|, p requires 0 <= p < |iys| => y0 + (iys[p] * (l.stampY + l.yborder)) as real))
  }

  /** Each centre is the midpoint of its tile's box. */
  lemma CentreOfTile(l: TiledLayout, origin: int, ixs: seq<int>, iys: seq<int>, p: nat)
    requires |ixs| == |iys| && p < |ixs| && l.stampX > 0 && l.stampY > 0
    ensures var b := TileBox(l, origin, ixs[p], iys[p]);
            var c := TileCentres(l, origin, ixs, iys);
            c.0[p] == (b.xmin + b.xmax) as real / 2.0 && c.1[p] == (b.ymin + b.ymax) as real / 2.0
  {
  }

  lemma MulMono(a: int, b: int, d: nat)
    requires a <= b
    ensures a * d <= b * d
  {
  }

  /** One axis of the tiling with pitch s + border (border >= 0): tile j of n
      starts at or after 0 and ends before the full length
      (s + border) * n - border. */
  lemma AxisInside(s: nat, border: nat, n: int, j: int)
    requires s > 0 && 0 <= j < n
    ensures 0 <= j * (s + border)
    ensures j * (s + border) + s <= (s + border) * n - border
  {
    MulMono(0, j, s + border);
    MulMono(j + 1, n, s + border);
  }

  /** One axis of the tiling: tiles i < j do not overlap. */
  lemma AxisApart(s: nat, border: nat, i: int, j: int)
    requires s > 0 && i < j
    ensures i * (s + border) + s <= j * (s + border)
  {
    MulMono(i + 1, j, s + border);
  }

  /** With non-negative borders every tile of the grid lies inside the full
      image, so the containment assertion holds for stamps drawn on tiles. */
  lemma TileInImage(l: TiledLayout, origin: int, ix: int, iy: int)
    requires l.stampX > 0 && l.stampY > 0 && l.xborder >= 0 && l.yborder >= 0
    requires l.fullX == (l.stampX + l.xborder) * l.nx - l.xborder
    requires l.fullY == (l.stampY + l.yborder) * l.ny - l.yborder
    requires 0 <= ix < l.nx && 0 <= iy < l.ny
    ensures Includes(OfSize(origin, origin, l.fullX, l.fullY), TileBox(l, origin, ix, iy))
  {
    AxisInside(l.stampX, l.xborder, l.nx, ix);
    AxisInside(l.stampY, l.yborder, l.ny, iy);
    var ox, oy := ix * (l.stampX + l.xborder), iy * (l.stampY + l.yborder);
    assert TileBox(l, origin, ix, iy) == Box(origin + ox, origin + ox + l.stampX - 1, origin + oy, origin + oy + l.stampY - 1);
    assert OfSize(origin, origin, l.fullX, l.fullY) == Box(origin, origin + l.fullX - 1, origin, origin + l.fullY - 1);
  }

  /** With non-negative borders two different tiles share no pixel. */
  lemma TilesDisjoint(l: TiledLayout, origin: int, a: Tile, b: Tile)
    requires l.stampX > 0 && l.stampY > 0 && l.xborder >= 0 && l.yborder >= 0
    requires a != b
    ensures Intersect(TileBox(l, origin, a.0, a.1), TileBox(l, origin, b.0, b.1)).Undefined?
  {
    var A, B := TileBox(l, origin, a.0, a.1), TileBox(l, origin, b.0, b.1);
    if a.0 < b.0 {
      AxisApart(l.stampX, l.xborder, a.0, b.0);
      assert A.xmax < B.xmin;
    } else if b.0 < a.0 {
      AxisApart(l.stampX, l.xborder, b.0, a.0);
      assert B.xmax < A.xmin;
    } else if a.1 < b.1 {
      AxisApart(l.stampY, l.yborder, a.1, b.1);
      assert A.ymax < B.ymin;
    } else {
      AxisApart(l.stampY, l.yborder, b.1, a.1);
      assert B.ymax < A.ymin;
    }
  }

  // ---------------------------------------------------------------------------
  // Stamps and compositing

  /** A drawn stamp: its bounds (undefined when the object was skipped) and
      its pixel values. */
  datatype Stamp = Stamp(bounds: Bounds, value: (int, int) -> real)

  /** What the stamps add at pixel (x, y): the value of each stamp whose
      bounds contain it. */
  function StampSum(stamps: seq<Stamp>, x: int, y: int): real
  {
    if stamps == [] then 0.0
    else
      var s := stamps[|stamps| - 1];
      StampSum(stamps[..|stamps| - 1], x, y) + (if Contains(s.bounds, x, y) then s.value(x, y) else 0.0)
  }

  /** The first defined stamp that the image does not include, or |stamps|. */
  function FirstUncontained(image: Bounds, stamps: seq<Stamp>): (k: nat)
    ensures k <= |stamps|
    ensures forall m :: 0 <= m < k ==> stamps[m].bounds.Undefined? || Includes(image, stamps[m].bounds)
    ensures k < |stamps| ==> stamps[k].bounds.Box? && !Includes(image, stamps[k].bounds)
    decreases |stamps|
  {
    if stamps == [] then 0
    else if stamps[0].bounds.Box? && !Includes(image, stamps[0].bounds) then 0
    else 1 + FirstUncontained(image, stamps[1..])
  }

  /** A skipped stamp (undefined bounds) adds nothing. */
  lemma SkippedAddsNothing(stamps: seq<Stamp>, f: (int, int) -> real, x: int, y: int)
    ensures StampSum(stamps + [Stamp(Undefined, f)], x, y) == StampSum(stamps, x, y)
  {
    assert (stamps + [Stamp(Undefined, f)])[..|stamps|] == stamps;
  }

  /** Stamps drawn on distinct tiles of the grid with non-negative borders
      all pass the containment assertion. */
  lemma {:induction false} TiledStampsContained(l: TiledLayout, origin: int, tiles: seq<Tile>, stamps: seq<Stamp>)
    requires l.stampX > 0 && l.stampY > 0 && l.xborder >= 0 && l.yborder >= 0
    requires l.fullX == (l.stampX + l.xborder) * l.nx - l.xborder
    requires l.fullY == (l.stampY + l.yborder) * l.ny - l.yborder
    requires |tiles| == |stamps|
    requires forall p :: 0 <= p < |tiles| ==> 0 <= tiles[p].0 < l.nx && 0 <= tiles[p].1 < l.ny
    requires forall p :: 0 <= p < |stamps| ==>
               stamps[p].bounds.Undefined? || stamps[p].bounds == TileBox(l, origin, tiles[p].0, tiles[p].1)
    ensures FirstUncontained(OfSize(origin, origin, l.fullX, l.fullY), stamps) == |stamps|
    decreases |stamps|
  {
    if stamps != [] {
      TileInImage(l, origin, tiles[0].0, tiles[0].1);
      TiledStampsContained(l, origin, tiles[1..], stamps[1..]);
    }
  }

  /** Lines 574-582: each non-skipped stamp must lie inside the image (an
      assertion) and is added to it. A failing assertion leaves the stamps
      before it added. */
  method CompositeTiled(image: Image, stamps: seq<Stamp>) returns (r: Result<()>)
    requires image.Valid()
    modifies image.pix
    ensures var k := FirstUncontained(image.ImageBounds(), stamps);
            (r.Ok? <==> k == |stamps|) && (r.Err? ==> r.error == StampNotContained) &&
            forall x, y :: Contains(image.ImageBounds(), x, y) ==>
              image.At(x, y) == old(image.At(x, y)) + StampSum(stamps[..k], x, y)
  {
    var k := 0;
    while k < |stamps|
      invariant k <= FirstUncontained(image.ImageBounds(), stamps)
      invariant forall x, y :: Contains(image.ImageBounds(), x, y) ==>
                  image.At(x, y) == old(image.At(x, y)) + StampSum(stamps[..k], x, y)
    {
      var s := stamps[k];
      assert stamps[..k + 1][..k] == stamps[..k];
      if s.bounds.Box? {
        if !Includes(image.ImageBounds(), s.bounds) {
          return Err(StampNotContained);
        }
        image.AddRegion(s.bounds, s.value);
      }
      k := k + 1;
    }
    assert stamps[..k] == stamps;
    return Ok(());
  }

  /** What a stamp adds over its overlap with the image, at an image pixel,
      is what it adds at all: clipping to `bounds & image` changes nothing
      inside the image, and a stamp off the image adds nothing there. */
  lemma {:induction false} ClippedSum(stamps: seq<Stamp>, image: Bounds, x: int, y: int)
    requires Contains(image, x, y)
    ensures StampSum(Clipped(stamps, image), x, y) == StampSum(stamps, x, y)
  {
    if stamps != [] {
      var n := |stamps| - 1;
      assert Clipped(stamps, image)[..n] == Clipped(stamps[..n], image);
      ClippedSum(stamps[..n], image, x, y);
    }
  }

  /** Each stamp restricted to its overlap with the image. */
  function Clipped(stamps: seq<Stamp>, image: Bounds): (r: seq<Stamp>)
    ensures |r| == |stamps|
    ensures forall k :: 0 <= k < |stamps| ==>
              r[k].bounds == Intersect(stamps[k].bounds, image) && r[k].value == stamps[k].value
  {
    seq(|stamps|, k requires 0 <= k < |stamps| => Stamp(Intersect(stamps[k].bounds, image), stamps[k].value))
  }

  /** Lines 717-734: each non-skipped stamp adds only its overlap with the
      image; one with no overlap is dropped. */
  method CompositeScattered(image: Image, stamps: seq<Stamp>)
    requires image.Valid()
    modifies image.pix
    ensures forall x, y :: Contains(image.ImageBounds(), x, y) ==>
              image.At(x, y) == old(image.At(x, y)) + StampSum(stamps, x, y)
  {
    var k := 0;
    while k < |stamps|
      invariant k <= |stamps|
      invariant forall x, y :: Contains(image.ImageBounds(), x, y) ==>
                  image.At(x, y) == old(image.At(x, y)) + StampSum(stamps[..k], x, y)
    {
      var s := stamps[k];
      assert stamps[..k + 1][..k] == stamps[..k];
      if s.bounds.Box? {
        var b := Intersect(s.bounds, image.ImageBounds());
        if b.Box? {
          image.AddRegion(b, s.value);
        }
      }
      k := k + 1;
    }
    assert stamps[..k] == stamps;
  }

  // ---------------------------------------------------------------------------
  // Scattered positions

  /** Lines 692-702: image_pos and world_pos together are an error; with
      neither, positions are drawn uniformly over the image's own pixel
      range, which is returned; with one of them, nothing is added. */
  function ScatteredPositions(sec: ImageSection, origin: int, fullX: int, fullY: int): (r: Result<Option<Bounds>>)
    ensures r.Err? <==> sec.hasImagePos && sec.hasWorldPos
    ensures r.Err? ==> r.error == BothPositions
    ensures r.Ok? && r.value.Some? <==> !sec.hasImagePos && !sec.hasWorldPos
    ensures r.Ok? && r.value.Some? ==> r.value.value == OfSize(origin, origin, fullX, fullY)
  {
    if sec.hasImagePos && sec.hasWorldPos then Err(BothPositions)
    else if !sec.hasImagePos && !sec.hasWorldPos then
      Ok(Some(Make(origin, origin + fullX - 1, origin, origin + fullY - 1)))
    else Ok(None)
  }
}
