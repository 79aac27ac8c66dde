/** The noise-mask machinery of `GaussianPics`: a mean drawn from the
    generator, a mask filled cell by cell with a density value of random sign,
    the overlay of that mask on an image and the flipped mask shown as a
    heatmap. The bivariate normal density (scipy) is a parameter, and the
    random generator is the stream-and-counter object of module Rng. */
module NoisyPics {
  import opened Outcomes
  import opened Rng
  import opened Grids

  /** An integer pixel coordinate (x along axis 0, y along axis 1). */
  datatype Point = Point(x: int, y: int)

  /** The 2x2 matrix `var` passed to `multivariate_normal`. */
  datatype Covariance = Covariance(xx: real, xy: real, yx: real, yy: real)

  type NonNegReal = r: real | r >= 0.0

  /** `multivariate_normal(mean, cov).pdf(point)`: kept abstract, any
      non-negative function of the mean, the covariance and the point. */
  type Density = (Point, Covariance, Point) -> NonNegReal

  /** The mean `__get_mean` returns: an array filled by one joint call when
      the size is square, a tuple of two separate calls otherwise. */
  datatype Mean = JointDraw(x: int, y: int) | SeparateDraws(x: int, y: int) {
    function Center(): Point {
      Point(x, y)
    }
  }

  /** `range(0, n)`. */
  function Range(n: nat): (r: seq<int>)
    ensures |r| == n
    ensures forall i :: 0 <= i < n ==> r[i] == i
  {
    seq(n, i => i)
  }

  /** The mean `__get_mean` draws when the generator has made `at` calls. */
  function MeanOf(stream: Stream, at: nat, size: (nat, nat)): (r: Result<Mean>)
    ensures r.Ok? <==> size.0 > 0
    ensures r.Err? ==> r.error == EmptyPopulation
    ensures r.Ok? ==> 0 <= r.value.x < size.0 && 0 <= r.value.y < size.0
    ensures r.Ok? ==> (r.value.JointDraw? <==> size.0 == size.1)
  {
    var meanRange := Range(size.0);
    if size.0 == 0 then Err(EmptyPopulation)
    else if size.0 == size.1 then
      Ok(JointDraw(Pick(stream(at).first, meanRange), Pick(stream(at).second, meanRange)))
    else
      Ok(SeparateDraws(Pick(stream(at).first, meanRange), Pick(stream(at + 1).first, meanRange)))
  }

  /** Generator calls one `__get_mean` makes. */
  function MeanDraws(size: (nat, nat)): nat {
    if size.0 == 0 then 0 else if size.0 == size.1 then 1 else 2
  }

  /** A square size takes both coordinates from one call; any other size
      takes one coordinate from each of two calls. */
  lemma MeanDrawsUsed(stream: Stream, at: nat, size: (nat, nat))
    requires size.0 > 0
    ensures size.0 == size.1 ==>
      MeanOf(stream, at, size) == Ok(JointDraw(stream(at).first % size.0, stream(at).second % size.0))
    ensures size.0 != size.1 ==>
      MeanOf(stream, at, size) == Ok(SeparateDraws(stream(at).first % size.0, stream(at + 1).first % size.0))
  {
  }

  /** `generator.choice([-1, 1])`. */
  function Sign(d: Draw): (s: int)
    ensures s == -1 || s == 1
  {
    Pick(d.first, [-1, 1])
  }

  /** Position, counted from the first sign draw of a mask, of the draw whose
      sign is stored in cell (x, y) when the fill walks an n-by-n square:
      the second draw of pair number x*n + y. */
  function StoredDraw(n: nat, x: nat, y: nat): nat {
    2 * (x * n + y) + 1
  }

  lemma RowMajorBefore(n: nat, x: nat, y: nat, x': nat, y': nat)
    requires x < x' && y < n
    ensures x * n + y < x' * n + y'
  {
    calc {
      x * n + y;
    <  x * n + n;
    == (x + 1) * n;
    <= { assert x + 1 <= x'; } x' * n;
    <= x' * n + y';
    }
  }

  /** The fill walks x outermost and y innermost: cell (x, y) takes its sign
      before cell (x', y') exactly when it comes first in that order. */
  lemma StoredDrawOrder(n: nat, x: nat, y: nat, x': nat, y': nat)
    requires x < n && y < n && x' < n && y' < n
    ensures StoredDraw(n, x, y) < StoredDraw(n, x', y') <==> x < x' || (x == x' && y < y')
  {
    if x < x' {
      RowMajorBefore(n, x, y, x', y');
    } else if x' < x {
      RowMajorBefore(n, x', y', x, y);
    }
  }

  /** The stored draws of an n-by-n fill lie within its 2*n*n sign draws. */
  lemma StoredDrawBound(n: nat, x: nat, y: nat)
    requires x < n && y < n
    ensures StoredDraw(n, x, y) < 2 * (n * n)
  {
    RowMajorBefore(n, x, y, n, 0);
  }

  /** Every odd position among the 2*n*n sign draws is the stored draw of a
      cell of the n-by-n square; the even positions are the discarded ones. */
  lemma StoredDrawsCover(n: nat, k: nat)
    requires k < n * n
    ensures k / n < n && k % n < n
    ensures StoredDraw(n, k / n, k % n) == 2 * k + 1
  {
  }

  /** The value stored in cell (x, y) of an n-by-n fill whose sign draws
      start at position `start` of the stream. */
  function CellValue(stream: Stream, start: nat, mean: Mean, cov: Covariance, density: Density,
                     n: nat, x: nat, y: nat): real
  {
    Sign(stream(start + StoredDraw(n, x, y))) as real * density(mean.Center(), cov, Point(x, y))
  }

  /** The array `__generate_mask` fills: shape (n, cols), the n-by-n square
      written, every other cell left at zero. */
  function MaskGrid(stream: Stream, start: nat, mean: Mean, cov: Covariance, density: Density,
                    n: nat, cols: nat): (g: Array2D)
    ensures g.rows == n && g.cols == cols
  {
    Grid(n, cols,
      seq(n, x requires 0 <= x < n =>
        seq(cols, y requires 0 <= y < cols =>
          if y < n then CellValue(stream, start, mean, cov, density, n, x, y) else 0.0)))
  }

  /** An array whose n-by-n square holds the cell values and whose other
      cells are zero is the mask. */
  lemma {:induction false} FilledIsMaskGrid(g: Array2D, stream: Stream, start: nat, mean: Mean,
                                            cov: Covariance, density: Density)
    requires forall i, j :: 0 <= i < g.rows && 0 <= j < g.cols ==>
      g.cells[i][j] == if j < g.rows then CellValue(stream, start, mean, cov, density, g.rows, i, j) else 0.0
    ensures g == MaskGrid(stream, start, mean, cov, density, g.rows, g.cols)
  {
    var spec := MaskGrid(stream, start, mean, cov, density, g.rows, g.cols);
    forall i | 0 <= i < g.rows
      ensures g.cells[i] == spec.cells[i]
    {
    }
    assert g.cells == spec.cells;
  }

  /** Generator calls one `__generate_mask` makes, whether it returns or raises. */
  function MaskDraws(size: (nat, nat)): nat {
    if size.0 == 0 then 0
    else if size.1 < size.0 then MeanDraws(size) + 2 * (size.1 + 1)
    else MeanDraws(size) + 2 * (size.0 * size.0)
  }

  /** What `__generate_mask` returns, or raises, when the generator has
      made `at` calls before it. */
  function Mask(stream: Stream, at: nat, size: (nat, nat), cov: Covariance, density: Density): (r: Result<Array2D>)
    ensures r.Ok? <==> 0 < size.0 <= size.1
    ensures r.Err? ==> r.error == (if size.0 == 0 then EmptyPopulation else IndexOutOfBounds(0, size.1))
    ensures r.Ok? ==> r.value.rows == size.0 && r.value.cols == size.1
    ensures r.Ok? ==> forall x, y :: 0 <= x < size.0 && size.0 <= y < size.1 ==> r.value.cells[x][y] == 0.0
    ensures r.Ok? ==> forall x, y :: 0 <= x < size.0 && 0 <= y < size.0 ==>
      var d := density(MeanOf(stream, at, size).value.Center(), cov, Point(x, y)) as real;
      r.value.cells[x][y] == d || r.value.cells[x][y] == -d
  {
    match MeanOf(stream, at, size)
    case Err(e) => Err(e)
    case Ok(mean) =>
      if size.1 < size.0 then Err(IndexOutOfBounds(0, size.1))
      else Ok(MaskGrid(stream, at + MeanDraws(size), mean, cov, density, size.0, size.1))
  }

  /** Cell (x, y) of the square holds the density at (x, y) times the sign
      of the second draw of sign pair number x*size.0 + y. */
  lemma StoredSign(stream: Stream, at: nat, size: (nat, nat), cov: Covariance, density: Density, x: nat, y: nat)
    requires 0 < size.0 <= size.1
    requires x < size.0 && y < size.0
    ensures Mask(stream, at, size, cov, density).value.cells[x][y]
         == Sign(stream(at + MeanDraws(size) + StoredDraw(size.0, x, y))) as real
            * density(MeanOf(stream, at, size).value.Center(), cov, Point(x, y))
  {
  }

  /** A mask depends on the stream only through the MaskDraws(size) draws
      after position `at`: two streams that agree there give the same mask. */
  lemma {:induction false} MaskUsesOnlyItsDraws(s1: Stream, s2: Stream, at: nat, size: (nat, nat),
                                                cov: Covariance, density: Density)
    requires forall k :: at <= k < at + MaskDraws(size) ==> s1(k) == s2(k)
    ensures Mask(s1, at, size, cov, density) == Mask(s2, at, size, cov, density)
  {
    if 0 < size.0 <= size.1 {
      var n := size.0;
      assert s1(at) == s2(at);
      if n != size.1 {
        assert s1(at + 1) == s2(at + 1);
      }
      assert MeanOf(s1, at, size) == MeanOf(s2, at, size);
      var mean := MeanOf(s1, at, size).value;
      var start := at + MeanDraws(size);
      var g1 := MaskGrid(s1, start, mean, cov, density, n, size.1);
      var g2 := MaskGrid(s2, start, mean, cov, density, n, size.1);
      forall x | 0 <= x < n
        ensures g1.cells[x] == g2.cells[x]
      {
        forall y | 0 <= y < size.1
          ensures g1.cells[x][y] == g2.cells[x][y]
        {
          if y < n {
            StoredDrawBound(n, x, y);
            assert s1(start + StoredDraw(n, x, y)) == s2(start + StoredDraw(n, x, y));
          }
        }
      }
      assert g1.cells == g2.cells;
    }
  }

  /** In the heatmap `vis_mask` draws (the mask flipped along axis 1) the
      cells that were never written are the first size.1 - size.0 columns. */
  lemma FlippedMaskZeros(stream: Stream, at: nat, size: (nat, nat), cov: Covariance, density: Density)
    requires 0 < size.0 <= size.1
    ensures forall x, j :: 0 <= x < size.0 && 0 <= j < size.1 - size.0 ==>
      Flip(Mask(stream, at, size, cov, density).value).cells[x][j] == 0.0
  {
  }

  /** What `__iter__` yields for one image file when the generator has made
      `at` calls: the error of the fresh mask, the error opening the image,
      or `img_arr + mask`. */
  function Yield(picture: Option<Array2D>, stream: Stream, at: nat, size: (nat, nat),
                 cov: Covariance, density: Density): Result<Array2D>
  {
    match Mask(stream, at, size, cov, density)
    case Err(e) => Err(e)
    case Ok(m) =>
      match picture
      case None => Err(Unreadable)
      case Some(img) => Overlay(img, m)
  }

  /** Generator positions advance in equal steps (a row of a mask, a whole
      mask): k steps of d after `at`, then one more, is k + 1 steps. */
  lemma NextMultiple(at: nat, d: nat, k: nat)
    ensures at + k * d + d == at + (k + 1) * d
  {
  }

  /** What each of `pictures` yields in turn when the generator has made
      `at` calls: every mask takes the same number of draws, so image i
      meets the mask drawn after i whole masks. */
  function Attempts(pictures: seq<Option<Array2D>>, stream: Stream, at: nat, size: (nat, nat),
                    cov: Covariance, density: Density): seq<Result<Array2D>>
  {
    seq(|pictures|, i requires 0 <= i < |pictures| =>
      Yield(pictures[i], stream, at + i * MaskDraws(size), size, cov, density))
  }

  /** A generator loop that stops at the first error: the values yielded
      before it, and that error. */
  function UntilError(results: seq<Result<Array2D>>): (seq<Array2D>, Option<Error>)
  {
    if results == [] then ([], None)
    else
      match results[0]
      case Err(e) => ([], Some(e))
      case Ok(g) =>
        var rest := UntilError(results[1..]);
        ([g] + rest.0, rest.1)
  }

  /** The values yielded are exactly the leading successes, in order; the
      loop ends at the end of the results or at the first error. */
  lemma {:induction false} UntilErrorYields(results: seq<Result<Array2D>>)
    ensures var r := UntilError(results);
      && |r.0| <= |results|
      && (forall i :: 0 <= i < |r.0| ==> results[i] == Ok(r.0[i]))
      && (r.1.None? ==> |r.0| == |results|)
      && (r.1.Some? ==> (|r.0| < |results| && results[|r.0|] == Err(r.1.value)))
    decreases |results|
  {
    if results != [] && results[0].Ok? {
      var r := UntilError(results);
      UntilErrorYields(results[1..]);
      forall i | 1 <= i < |r.0|
        ensures results[i] == Ok(r.0[i])
      {
        assert results[1..][i - 1] == results[i];
      }
    }
  }

  /** Running over two stretches of results one after the other is running
      over the first, and over the second only if the first had no error. */
  lemma {:induction false} UntilErrorAppend(s: seq<Result<Array2D>>, t: seq<Result<Array2D>>)
    ensures UntilError(s + t) ==
      (var r := UntilError(s);
       if r.1.Some? then r else (r.0 + UntilError(t).0, UntilError(t).1))
    decreases |s|
  {
    if s == [] {
      assert s + t == t;
      assert [] + UntilError(t).0 == UntilError(t).0;
    } else {
      assert (s + t)[0] == s[0];
      assert (s + t)[1..] == s[1..] + t;
      UntilErrorAppend(s[1..], t);
      if s[0].Ok? {
        var rest := UntilError(s[1..]);
        if rest.1.None? {
          assert [s[0].value] + (rest.0 + UntilError(t).0) == ([s[0].value] + rest.0) + UntilError(t).0;
        }
      }
    }
  }

  /** One more result extends a run that has had no error: a success is
      yielded, an error ends the run. */
  lemma UntilErrorStep(results: seq<Result<Array2D>>, k: nat)
    requires k < |results| && UntilError(results[..k]).1.None?
    ensures UntilError(results[..k + 1]) ==
      (if results[k].Ok? then (UntilError(results[..k]).0 + [results[k].value], None)
       else (UntilError(results[..k]).0, Some(results[k].error)))
  {
    var before := UntilError(results[..k]).0;
    var last: seq<Result<Array2D>> := [results[k]];
    assert last[1..] == [];
    assert results[..k + 1] == results[..k] + last;
    UntilErrorAppend(results[..k], last);
    if results[k].Err? {
      assert before + [] == before;
    } else {
      assert before + ([results[k].value] + []) == before + [results[k].value];
    }
  }

  /** Once a prefix of the results has ended the run with an error, the
      rest of the results are never looked at. */
  lemma UntilErrorStops(results: seq<Result<Array2D>>, k: nat)
    requires k <= |results| && UntilError(results[..k]).1.Some?
    ensures UntilError(results) == UntilError(results[..k])
  {
    assert results == results[..k] + results[k..];
    UntilErrorAppend(results[..k], results[k..]);
  }

  /** A size that admits no mask makes iteration over any image end at the
      first one, with nothing yielded. */
  lemma NoMaskNoYield(pictures: seq<Option<Array2D>>, stream: Stream, at: nat, size: (nat, nat),
                      cov: Covariance, density: Density)
    requires |pictures| > 0 && !(0 < size.0 <= size.1)
    ensures UntilError(Attempts(pictures, stream, at, size, cov, density)).0 == []
    ensures UntilError(Attempts(pictures, stream, at, size, cov, density)).1.Some?
  {
    assert Attempts(pictures, stream, at, size, cov, density)[0].Err?;
  }

  /** For a single-channel image, PIL's `img.resize(size)` gives an array
      of shape (size.1, size.0), while the mask has shape (size.0, size.1):
      such an image yields a result only for a square size or one of width
      1, and for a square size that result is the image plus the mask cell
      by cell. */
  lemma ResizedPictureYield(img: Array2D, stream: Stream, at: nat, size: (nat, nat), cov: Covariance, density: Density)
    requires img.rows == size.1 && img.cols == size.0
    ensures Yield(Some(img), stream, at, size, cov, density).Ok?
        <==> 0 < size.0 <= size.1 && (size.0 == size.1 || size.0 == 1)
    ensures 0 < size.0 == size.1 ==> forall i, j :: 0 <= i < size.0 && 0 <= j < size.0 ==>
      Yield(Some(img), stream, at, size, cov, density).value.cells[i][j]
        == img.cells[i][j] + Mask(stream, at, size, cov, density).value.cells[i][j]
  {
  }

  class GaussianPics {
    const generator: Generator
    const cov: Covariance
    const size: (nat, nat)
    const path: string
    const figsize: (int, int)
    /** The density scipy evaluates; fixed for the object's lifetime. */
    const density: Density

    /** `default_rng(key)` is `Generator(defaultRng(key))`: how a seed
        becomes a stream of draws is numpy's and is passed in. */
    constructor (defaultRng: int -> Stream, density: Density, cov: Covariance, size: (nat, nat), path: string,
                 key: int := 12345, figsize: (int, int) := (10, 5))
      ensures fresh(generator) && generator.stream == defaultRng(key) && generator.calls == 0
      ensures this.density == density && this.cov == cov && this.size == size
      ensures this.path == path && this.figsize == figsize
    {
      generator := new Generator(defaultRng(key));
      this.density := density;
      this.cov := cov;
      this.size := size;
      this.path := path;
      this.figsize := figsize;
    }

    /** `__get_mean`. */
    method GetMean() returns (r: Result<Mean>)
      modifies generator
      ensures r == MeanOf(generator.stream, old(generator.calls), size)
      ensures generator.calls == old(generator.calls) + MeanDraws(size)
    {
      var meanRange := Range(size.0);
      if size.0 == size.1 {
        var both := generator.ChoiceTwo(meanRange);
        if both.Err? {
          return Err(both.error);
        }
        r := Ok(JointDraw(both.value.0, both.value.1));
      } else {
        var mx := generator.Choice(meanRange);
        if mx.Err? {
          return Err(mx.error);
        }
        var my := generator.Choice(meanRange);
        r := Ok(SeparateDraws(mx.value, my.value));
      }
    }

    /** `__generate_mask`: draws a mean, then walks x and y over
        range(size.0), drawing two signs per cell and storing the second
        times the density into `mask[x, y]`. */
    method GenerateMask() returns (r: Result<array2<real>>)
      modifies generator
      ensures generator.calls == old(generator.calls) + MaskDraws(size)
      ensures r.Ok? ==> fresh(r.value)
      ensures r.Ok? ==> Mask(generator.stream, old(generator.calls), size, cov, density) == Ok(Cells(r.value))
      ensures r.Err? ==> Mask(generator.stream, old(generator.calls), size, cov, density) == Err(r.error)
    {
      ghost var at := generator.calls;
      var drawn := GetMean();
      if drawn.Err? {
        return Err(drawn.error);
      }
      var mean := drawn.value;
      ghost var start := generator.calls;
      var mask := new real[size.0, size.1]((i, j) => 0.0);
      assert Cells(mask) == Zeros(size.0, size.1) by {
        AllZeroIsZeros(Cells(mask));
      }
      var n := size.0;
      for x := 0 to n
        invariant size.1 < n ==> x == 0
        invariant generator.calls == start + 2 * (x * n)
        invariant forall i, j :: 0 <= i < n && 0 <= j < size.1 ==>
          mask[i, j] == if i < x && j < n then CellValue(generator.stream, start, mean, cov, density, n, i, j) else 0.0
      {
        var complete := FillRow(mask, mean, x, start);
        if !complete {
          return Err(IndexOutOfBounds(x, size.1));
        }
        NextMultiple(0, n, x);
      }
      FilledIsMaskGrid(Cells(mask), generator.stream, start, mean, cov, density);
      return Ok(mask);
    }

    /** The inner loop of `__generate_mask` for row x: for y in
        range(size.0), two sign draws, the second times the density stored
        into `mask[x, y]`. It stops with `false` where y reaches size.1,
        the IndexError of `mask[x, y]`. */
    method FillRow(mask: array2<real>, mean: Mean, x: nat, ghost start: nat) returns (complete: bool)
      requires mask.Length0 == size.0 && mask.Length1 == size.1 && x < size.0
      requires generator.calls == start + 2 * (x * size.0)
      modifies generator, mask
      ensures complete <==> size.0 <= size.1
      ensures generator.calls == old(generator.calls) + 2 * (if complete then size.0 else size.1 + 1)
      ensures complete ==> forall i, j :: 0 <= i < size.0 && 0 <= j < size.1 ==>
        mask[i, j] == if i == x && j < size.0
                      then CellValue(generator.stream, start, mean, cov, density, size.0, x, j)
                      else old(mask[i, j])
    {
      ghost var at := generator.calls;
      for y := 0 to size.0
        invariant y <= size.1
        invariant generator.calls == at + 2 * y
        invariant forall i, j :: 0 <= i < size.0 && 0 <= j < size.1 ==>
          mask[i, j] == if i == x && j < y
                        then CellValue(generator.stream, start, mean, cov, density, size.0, x, j)
                        else old(mask[i, j])
      {
        var discarded := generator.Choice([-1, 1]);
        var sign := generator.Choice([-1, 1]);
        if y >= size.1 {
          return false;
        }
        assert generator.calls == start + StoredDraw(size.0, x, y) + 1;
        mask[x, y] := sign.value as real * density(mean.Center(), cov, Point(x, y));
      }
      complete := true;
    }

    /** `__iter__` over the images found under `path`, in walk order, each
        already opened and resized (`None` for a file that cannot be
        opened). It stops at the first error. */
    method Iterate(pictures: seq<Option<Array2D>>) returns (yielded: seq<Array2D>, failure: Option<Error>)
      modifies generator
      ensures (yielded, failure) == UntilError(Attempts(pictures, generator.stream, old(generator.calls), size, cov, density))
      ensures generator.calls == old(generator.calls) + (if failure.Some? then |yielded| + 1 else |yielded|) * MaskDraws(size)
    {
      ghost var at := generator.calls;
      ghost var draws := MaskDraws(size);
      ghost var results := Attempts(pictures, generator.stream, at, size, cov, density);
      yielded, failure := [], None;
      for k := 0 to |pictures|
        invariant generator.calls == at + k * draws
        invariant |yielded| == k
        invariant UntilError(results[..k]) == (yielded, None)
      {
        var next := YieldOne(pictures[k]);
        NextMultiple(at, draws, k);
        assert next == results[k];
        UntilErrorStep(results, k);
        if next.Err? {
          failure := Some(next.error);
          UntilErrorStops(results, k + 1);
          return;
        }
        yielded := yielded + [next.value];
      }
      assert results[..|pictures|] == results;
    }

    /** One turn of the loop in `__iter__`: a fresh mask, then the image
        opened and resized (given as `picture`), then `img_arr + mask`. */
    method YieldOne(picture: Option<Array2D>) returns (r: Result<Array2D>)
      modifies generator
      ensures r == Yield(picture, generator.stream, old(generator.calls), size, cov, density)
      ensures generator.calls == old(generator.calls) + MaskDraws(size)
    {
      var mask := GenerateMask();
      if mask.Err? {
        return Err(mask.error);
      }
      if picture.None? {
        return Err(Unreadable);
      }
      r := Overlay(picture.value, Cells(mask.value));
    }

    /** `vis_mv`: the contour plot is not modelled; what remains is the mean
        it is centred on, drawn from the generator. */
    method VisMv(savePath: string, granularity: real := 0.1) returns (centre: Result<Mean>)
      modifies generator
      ensures centre == MeanOf(generator.stream, old(generator.calls), size)
      ensures generator.calls == old(generator.calls) + MeanDraws(size)
    {
      centre := GetMean();
    }

    /** `vis_mask`: the data handed to the heatmap, a fresh mask flipped
        along axis 1. */
    method VisMask(savePath: string) returns (heatmap: Result<Array2D>)
      modifies generator
      ensures generator.calls == old(generator.calls) + MaskDraws(size)
      ensures heatmap == match Mask(generator.stream, old(generator.calls), size, cov, density)
                         case Ok(m) => Ok(Flip(m))
                         case Err(e) => Err(e)
    {
      var data := GenerateMask();
      if data.Err? {
        return Err(data.error);
      }
      heatmap := Ok(Flip(Cells(data.value)));
    }
  }

  /** Two objects built with the same key generate the same first mask. */
  method SameKeySameMask(defaultRng: int -> Stream, density: Density, cov: Covariance, size: (nat, nat),
                         path: string, key: int)
    returns (first: Result<Array2D>, second: Result<Array2D>)
    ensures first == second
    ensures first.Ok? <==> 0 < size.0 <= size.1
  {
    var a := new GaussianPics(defaultRng, density, cov, size, path, key);
    var b := new GaussianPics(defaultRng, density, cov, size, path, key);
    var ma := a.GenerateMask();
    first := if ma.Ok? then Ok(Cells(ma.value)) else Err(ma.error);
    var mb := b.GenerateMask();
    second := if mb.Ok? then Ok(Cells(mb.value)) else Err(mb.error);
  }
}
