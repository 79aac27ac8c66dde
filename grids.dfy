/** Two-dimensional numpy arrays of floats, and the two array operations the
    noise code applies to a mask: `numpy.flip(data, 1)` and the elementwise
    `+` with numpy broadcasting. */
module Grids {
  import opened Outcomes

  /** An array of shape (rows, cols): `rows` is the length of axis 0 and
      `cols` the length of axis 1; `cells[i][j]` is element `[i, j]`. */
  datatype Grid = Grid(rows: nat, cols: nat, cells: seq<seq<real>>) {
    predicate WellShaped() {
      |cells| == rows && forall i :: 0 <= i < |cells| ==> |cells[i]| == cols
    }
  }

  /** A grid whose cells agree with its shape. */
  type Array2D = g: Grid | g.WellShaped() witness Grid(0, 0, [])

  /** `numpy.zeros((rows, cols))`. */
  function Zeros(rows: nat, cols: nat): (z: Array2D)
    ensures z.rows == rows && z.cols == cols
    ensures forall i, j :: 0 <= i < rows && 0 <= j < cols ==> z.cells[i][j] == 0.0
  {
    Grid(rows, cols, seq(rows, i => seq(cols, j => 0.0)))
  }

  /** An array whose every cell is 0 is `numpy.zeros` of its shape. */
  lemma {:induction false} AllZeroIsZeros(g: Array2D)
    requires forall i, j :: 0 <= i < g.rows && 0 <= j < g.cols ==> g.cells[i][j] == 0.0
    ensures g == Zeros(g.rows, g.cols)
  {
    var z := Zeros(g.rows, g.cols);
    forall i | 0 <= i < g.rows
      ensures g.cells[i] == z.cells[i]
    {
    }
    assert g.cells == z.cells;
  }

  /** The contents of a numpy array held in a Dafny `array2`. */
  function Cells(a: array2<real>): (g: Array2D)
    reads a
    ensures g.rows == a.Length0 && g.cols == a.Length1
    ensures forall i, j :: 0 <= i < a.Length0 && 0 <= j < a.Length1 ==> g.cells[i][j] == a[i, j]
  {
    Grid(a.Length0, a.Length1,
      seq(a.Length0, i requires 0 <= i < a.Length0 reads a =>
        seq(a.Length1, j requires 0 <= j < a.Length1 reads a => a[i, j])))
  }

  /** One row read from its end to its start. */
  function ReverseRow(row: seq<real>): (r: seq<real>)
    ensures |r| == |row|
    ensures forall j :: 0 <= j < |row| ==> r[j] == row[|row| - 1 - j]
  {
    if row == [] then [] else [row[|row| - 1]] + ReverseRow(row[..|row| - 1])
  }

  /** `numpy.flip(data, 1)`: the order along axis 1 is reversed. */
  function Flip(data: Array2D): (r: Array2D)
    ensures r.rows == data.rows && r.cols == data.cols
    ensures forall i, j :: 0 <= i < r.rows && 0 <= j < r.cols ==>
      r.cells[i][j] == data.cells[i][data.cols - 1 - j]
  {
    Grid(data.rows, data.cols, seq(data.rows, i requires 0 <= i < data.rows => ReverseRow(data.cells[i])))
  }

  /** Flipping along axis 1 twice gives the array back. */
  lemma {:induction false} FlipTwice(data: Array2D)
    ensures Flip(Flip(data)) == data
  {
    var back := Flip(Flip(data));
    forall i | 0 <= i < data.rows
      ensures back.cells[i] == data.cells[i]
    {
      forall j | 0 <= j < data.cols
        ensures back.cells[i][j] == data.cells[i][j]
      {
        assert back.cells[i][j] == Flip(data).cells[i][data.cols - 1 - j];
      }
    }
  }

  /** The length of one axis of `a + b` under numpy broadcasting: equal
      lengths stay, a length of 1 stretches to the other, anything else
      cannot be broadcast. */
  function BroadcastLength(a: nat, b: nat): (r: Option<nat>)
    ensures r.Some? <==> a == b || a == 1 || b == 1
    ensures r.Some? ==> (a == 1 || r.value == a) && (b == 1 || r.value == b)
  {
    if a == b then Some(a) else if a == 1 then Some(b) else if b == 1 then Some(a) else None
  }

  /** The index into an axis of length `len` that position `i` of the
      broadcast axis reads. */
  function Along(len: nat, i: nat): nat {
    if len == 1 then 0 else i
  }

  /** `img + mask` for two-dimensional operands. */
  function Overlay(img: Array2D, mask: Array2D): (r: Result<Array2D>)
    ensures r.Ok? <==> BroadcastLength(img.rows, mask.rows).Some? && BroadcastLength(img.cols, mask.cols).Some?
    ensures r.Err? ==> r.error == ShapeMismatch
    ensures r.Ok? ==> (r.value.rows == BroadcastLength(img.rows, mask.rows).value &&
                       r.value.cols == BroadcastLength(img.cols, mask.cols).value)
    ensures r.Ok? ==> forall i, j :: 0 <= i < r.value.rows && 0 <= j < r.value.cols ==>
      r.value.cells[i][j] == img.cells[Along(img.rows, i)][Along(img.cols, j)]
                           + mask.cells[Along(mask.rows, i)][Along(mask.cols, j)]
  {
    var rows := BroadcastLength(img.rows, mask.rows);
    var cols := BroadcastLength(img.cols, mask.cols);
    if rows.None? || cols.None? then Err(ShapeMismatch)
    else
      Ok(Grid(rows.value, cols.value,
        seq(rows.value, i requires 0 <= i < rows.value =>
          seq(cols.value, j requires 0 <= j < cols.value =>
            img.cells[Along(img.rows, i)][Along(img.cols, j)]
            + mask.cells[Along(mask.rows, i)][Along(mask.cols, j)]))))
  }

  /** Operands of the same shape are added cell by cell. */
  lemma SameShapeOverlay(img: Array2D, mask: Array2D)
    requires img.rows == mask.rows && img.cols == mask.cols
    ensures Overlay(img, mask).Ok?
    ensures Overlay(img, mask).value.rows == img.rows && Overlay(img, mask).value.cols == img.cols
    ensures forall i, j :: 0 <= i < img.rows && 0 <= j < img.cols ==>
      Overlay(img, mask).value.cells[i][j] == img.cells[i][j] + mask.cells[i][j]
  {
  }

  /** Overlaying a mask on an all-zero image of its shape gives the mask. */
  lemma {:induction false} ZeroImageOverlay(mask: Array2D)
    ensures Overlay(Zeros(mask.rows, mask.cols), mask) == Ok(mask)
  {
    var zeros := Zeros(mask.rows, mask.cols);
    SameShapeOverlay(zeros, mask);
    var sum := Overlay(zeros, mask).value;
    forall i | 0 <= i < mask.rows
      ensures sum.cells[i] == mask.cells[i]
    {
      forall j | 0 <= j < mask.cols
        ensures sum.cells[i][j] == mask.cells[i][j]
      {
        assert sum.cells[i][j] == zeros.cells[i][j] + mask.cells[i][j];
      }
    }
    assert sum.cells == mask.cells;
  }

  /** An image array of shape (h, w) and a mask of shape (w, h) can be
      added only when they are square or one side is 1. */
  lemma TransposedOverlay(img: Array2D, mask: Array2D, w: nat, h: nat)
    requires img.rows == h && img.cols == w
    requires mask.rows == w && mask.cols == h
    ensures Overlay(img, mask).Ok? <==> w == h || w == 1 || h == 1
  {
  }
}
