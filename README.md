# Noise masks of `GaussianPics`, modelled in Dafny

This project models the noise-mask machinery of the `GaussianPics` class in
`noisy_pics.py`. `GaussianPics` adds a signed bivariate-normal noise mask to
every image under a directory. The model covers these parts:

- **The generator.** `default_rng(key)` is modelled as a `Generator` object in
  module `Rng`. It holds an infinite stream of raw draws and a count of the
  calls made so far. Each `choice` call consumes the next draw. A call that
  asks for two values (`size=(2,)`) takes both halves of one draw.
- **The mean.** `__get_mean` is `GaussianPics.GetMean`, and its pure
  specification is `MeanOf`. A square size makes one joint call and gives a
  `JointDraw` mean. Any other size makes two calls and gives a
  `SeparateDraws` mean. Both coordinates lie in `[0, size[0])`. When
  `size[0] == 0` the call fails with `EmptyPopulation`, and no draw is
  consumed.
- **The fill.** `__generate_mask` is `GaussianPics.GenerateMask`. It is a
  method with nested loops over a fresh zero `array2<real>` of shape `size`.
  The inner loop is `GaussianPics.FillRow`. The method is proved to produce
  exactly the pure specification `Mask`:
  - Each visited cell consumes two sign draws. The first is discarded. The
    second, times the density, is stored.
  - Only the `size[0]`-by-`size[0]` square is written. Columns
    `y >= size[0]` stay zero.
  - When `size[1] < size[0]`, the write `mask[0, size[1]]` is the
    `IndexError` (`IndexOutOfBounds`). It happens after the mean draws and
    `2 * (size[1] + 1)` sign draws. `MaskDraws` gives the exact number of
    draws one call makes, on every path.
- **Overlay and display.** `img_arr + mask` is `Grids.Overlay`. It follows
  numpy broadcasting rules for two-dimensional operands. `flip(data, 1)` is
  `Grids.Flip`. The `__iter__` loop is `GaussianPics.Iterate`, and one turn
  of it is `GaussianPics.YieldOne`, whose specification is `Yield`. Every
  mask takes the same number of draws, so image i meets the mask drawn
  after i whole masks (`Attempts`). The loop is a generator that stops at
  its first error (`UntilError`). `vis_mv`
  and `vis_mask` are `GaussianPics.VisMv` and `GaussianPics.VisMask`. `VisMask`
  returns the data its heatmap would show; `VisMv` returns the mean its
  contour plot is centred on.

The density `multivariate_normal(mean, var).pdf` is a parameter of type
`Density`. It can be any function of the mean, the covariance and the point
whose values are non-negative reals. How numpy turns a seed into draws is a
parameter too: the constructor takes `defaultRng: int -> Stream`. A raw draw
selects `population[raw % len(population)]`.

Three details of the code shape the model:

- The code makes two sign draws per cell, one at `noisy_pics.py:63` and one
  at `noisy_pics.py:65`.
- The cells left at zero are the columns `y >= size[0]` of axis 1.
- When `size[1] < size[0]`, the code raises an `IndexError`.

`ResizedPictureYield` shows one more consequence of the code as written.
For a single-channel (2-D) image, PIL's `resize(size)` produces an array of
shape `(size[1], size[0])`, but the mask has shape `(size[0], size[1])`. So
a single-channel image yields a result only when the size is square or
`size[0] == 1`.

## Model

| member | source | states |
|---|---|---|
| `Rng.Pick` | noisy_pics.py:46-48 | a draw always selects an element of the population |
| `Rng.Generator.constructor` | noisy_pics.py:29 | a fresh generator sits at the start of its stream, with no calls made |
| `Rng.Generator.Choice` | noisy_pics.py:48 | `choice(population)` raises on an empty population without consuming a draw; otherwise it returns the element the next draw selects and advances by exactly one call |
| `Rng.Generator.ChoiceTwo` | noisy_pics.py:46 | `choice(population, size=(2,))` takes both values from one draw and advances by exactly one call; an empty population raises without consuming a draw |
| `Grids.Zeros` | noisy_pics.py:57 | `zeros(size)` has the requested shape and every cell is 0 |
| `Grids.AllZeroIsZeros` | noisy_pics.py:57 | an array whose every cell is 0 is `zeros` of its shape; the array `GenerateMask` allocates starts as exactly `zeros(size)` |
| `Grids.ReverseRow` | noisy_pics.py:91 | a reversed row keeps its length and holds at position j the element at length-1-j |
| `Grids.Flip` | noisy_pics.py:91 | `flip(data, 1)` keeps the shape and gives out[i][j] = data[i][cols-1-j] |
| `Grids.FlipTwice` | noisy_pics.py:91 | flipping along axis 1 twice gives back the input |
| `Grids.BroadcastLength` | noisy_pics.py:41 | two axis lengths broadcast exactly when they are equal or one of them is 1; the result stretches the length-1 operand |
| `Grids.Overlay` | noisy_pics.py:41 | `img + mask` succeeds exactly when both axes broadcast, otherwise it raises a shape error; each result cell is the sum of the broadcast operands' cells |
| `Grids.SameShapeOverlay` | noisy_pics.py:41 | operands of equal shape always add, and the result is img[i][j] + mask[i][j] with the same shape |
| `Grids.ZeroImageOverlay` | noisy_pics.py:41 | overlaying a mask on an all-zero image of its shape gives the mask |
| `Grids.TransposedOverlay` | noisy_pics.py:40-41 | an (h, w) image and a (w, h) mask add exactly when w == h, w == 1 or h == 1 |
| `NoisyPics.Range` | noisy_pics.py:44 | `range(0, n)` has n elements and holds i at position i |
| `NoisyPics.MeanOf` | noisy_pics.py:43-50 | the mean exists exactly when size[0] > 0; both coordinates lie in [0, size[0]) even when size[1] differs; it comes from one joint draw exactly when the size is square |
| `NoisyPics.MeanDrawsUsed` | noisy_pics.py:45-48 | a square size takes both coordinates from one call; any other size takes one coordinate from each of two consecutive calls |
| `NoisyPics.Sign` | noisy_pics.py:63-65 | `choice([-1, 1])` is -1 or 1 |
| `NoisyPics.StoredDrawOrder` | noisy_pics.py:61-65 | cells take their stored sign in row-major order (x outer, y inner), so distinct cells use distinct draws |
| `NoisyPics.StoredDrawBound` | noisy_pics.py:61-65 | every stored sign comes from the 2*size[0]*size[0] sign draws of the mask |
| `NoisyPics.StoredDrawsCover` | noisy_pics.py:61-65 | each odd position 2k+1 among the sign draws is the stored draw of cell (k / n, k % n); the even positions are the draws discarded at line 63 |
| `NoisyPics.MaskGrid` | noisy_pics.py:57 | the filled array has shape (size[0], size[1]) |
| `NoisyPics.FilledIsMaskGrid` | noisy_pics.py:57-65 | an array whose square holds the cell values and whose other cells are zero is exactly the mask |
| `NoisyPics.Mask` | noisy_pics.py:52-67 | a mask is returned exactly when 0 < size[0] <= size[1]; otherwise the call raises EmptyPopulation or IndexOutOfBounds(0, size[1]); the mask has shape size, columns y >= size[0] are 0, and each written cell is +pdf(x, y) or -pdf(x, y) |
| `NoisyPics.StoredSign` | noisy_pics.py:63-65 | cell (x, y) holds the density times the sign of the second draw of sign pair x*size[0] + y, counted after the mean draws |
| `NoisyPics.MaskUsesOnlyItsDraws` | noisy_pics.py:52-67 | a mask is determined by the MaskDraws(size) draws after the generator's position: two streams that agree there give the same mask |
| `NoisyPics.FlippedMaskZeros` | noisy_pics.py:89-91 | in the flipped heatmap data, the unwritten cells are the first size[1]-size[0] columns |
| `NoisyPics.UntilErrorYields` | noisy_pics.py:35-41 | the values yielded are exactly the leading successes, in order; the loop ends at the end of the images or at the first error, which is the first failing result |
| `NoisyPics.UntilErrorAppend` | noisy_pics.py:35-41 | looping over two stretches of images in turn is looping over the first and, only if it raised no error, then over the second |
| `NoisyPics.UntilErrorStep` | noisy_pics.py:37-41 | one more image after an error-free run yields its value, or ends the run with its error |
| `NoisyPics.UntilErrorStops` | noisy_pics.py:35-41 | once an error is raised, the images after it are never looked at |
| `NoisyPics.NoMaskNoYield` | noisy_pics.py:38-41 | with a size that admits no mask, iteration over any non-empty set of images yields nothing and raises at the first image |
| `NoisyPics.ResizedPictureYield` | noisy_pics.py:38-41 | a resized image of shape (size[1], size[0]) yields a result exactly when 0 < size[0] <= size[1] and the size is square or size[0] == 1; for a square size the result is image plus mask cell by cell |
| `NoisyPics.GaussianPics.constructor` | noisy_pics.py:12-33 | the object stores cov, size, path and figsize; its generator is fresh, uncalled and seeded from key (default 12345) |
| `NoisyPics.GaussianPics.GetMean` | noisy_pics.py:43-50 | returns MeanOf at the generator's position and advances it by MeanDraws(size): one call for a square size, two otherwise, none on an empty range |
| `NoisyPics.GaussianPics.GenerateMask` | noisy_pics.py:52-67 | the nested loops return a fresh array equal to Mask at the generator's position, or raise its error, and advance the generator by exactly MaskDraws(size) |
| `NoisyPics.GaussianPics.FillRow` | noisy_pics.py:62-65 | one pass of the inner loop writes row x of the square with its cell values and leaves every other cell unchanged; it stops at y == size[1] when size[1] < size[0], after 2*(size[1]+1) draws |
| `NoisyPics.GaussianPics.YieldOne` | noisy_pics.py:38-41 | one turn of `__iter__` generates a mask before opening the image and returns Yield of the picture and that mask, consuming MaskDraws(size) draws |
| `NoisyPics.GaussianPics.Iterate` | noisy_pics.py:35-41 | the loop yields exactly what `UntilError` gives on the images' `Attempts` from the generator's position (image i meets the mask drawn after i whole masks), and advances the generator by MaskDraws(size) for every image it reached, the failing one included |
| `NoisyPics.GaussianPics.VisMv` | noisy_pics.py:76-77 | `vis_mv` makes one `__get_mean`, i.e. MeanDraws(size) generator calls, and is centred on MeanOf at the generator's position |
| `NoisyPics.GaussianPics.VisMask` | noisy_pics.py:89-91 | the heatmap data is the fresh mask flipped along axis 1, or the mask's error |
| `NoisyPics.SameKeySameMask` | noisy_pics.py:29 | two objects built with the same key generate the same first mask, and it exists exactly when 0 < size[0] <= size[1] |

## Left out

- Directory walking, `Image.open`, `img.resize` and `asarray` (noisy_pics.py:36-40) are file system and PIL I/O. `Iterate` receives the already resized pixel arrays in walk order. An unreadable file is `None`.
- Laziness of `__iter__`: `Iterate` runs the loop to the end or to the first error. It does not stop when the consumer stops.
- Multi-channel images: pixel arrays of shape (height, width, channels) are not modelled. Only two-dimensional arrays are, with numpy broadcasting of length-1 axes.
- Size components are naturals: `__init__` accepts any integer tuple, but the ValueError `zeros(self.size)` (noisy_pics.py:57) raises for a negative dimension is not modelled.
- Pixel value types: pixels and mask values are reals. uint8-to-float promotion and floating-point rounding are not modelled.
- `scipy.stats.multivariate_normal` and its `pdf` are a non-negative parameter, `Density`. An invalid covariance matrix, which scipy rejects, is not modelled.
- numpy's `default_rng` internals: the stream a seed produces is a parameter. numpy's mapping from random bits to an element of the population is not modelled; `Rng.Pick` replaces it with `population[raw % len(population)]`. The stream is arbitrary and every call takes its own draw, so no sequence of picks is ruled out.
- `vis_mv`'s `mgrid` grid with a float step, the contour plot, the heatmap, `invert_yaxis` and `savefig` (noisy_pics.py:78-94) are float grids and rendering. `VisMv` keeps only its mean draw, and `VisMask` keeps only the flipped data.
- `figsize` is stored but affects only plotting.
- The unused `pos` grid (noisy_pics.py:54) and the commented-out code (noisy_pics.py:55, 64, 69-74).
- main.py is not part of this model. It only constructs the object and calls the two plotting methods.
