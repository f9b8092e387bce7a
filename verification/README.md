# Verified models of JavaFX native kernels

This project models, in Dafny, code of the JavaFX repository that works by index arithmetic,
in-place updates and interleaving, and proves what that code computes:

- the software image filters of `native-decora`: box blur, box shadow, linear convolution,
  convolution shadow and the bilinear samplers, with the Java loop that repeats the box blur;
- the event queue of the Dalvik port, as a linked list on the heap and as a protocol between
  threads;
- the registration of Windows font names;
- the grid mesh of a 3D viewer and the tile layout of a demo pane.

Every loop of the source is a loop on arrays or fields here.  A method's contract ties the new
array contents to a plain mathematical definition (a window sum, a zero-padded convolution, a sum
of tent weights over all pixels, a greedy split, a closed form of a layout), and the laws are
proved about that definition.  `dafny verify dfyconfig.toml` checks the whole project.

## How to read it

| module | contents |
|---|---|
| `Pixels`, `Sums`, `Strips`, `Lines` | 32-bit words and packing, finite sums, sweeps over flat arrays, zero-extended lines and windows |
| `BoxBlur`, `BoxBlurLaws`, `BoxBlurPasses` | the box blur, what it preserves, and its repetition |
| `BoxShadow`, `BoxShadowLaws` | the box shadow, its monotonicity and its agreement with the blur |
| `Convolution`, `LinearConvolve`, `ConvolveShadow` | the ring buffer, and the two convolvers that use it |
| `Bilinear`, `Sampling`, `VectorConvolve` | interpolation, the samplers, and convolution along a line |
| `EventQueue`, `EventLoop`, `EventRefinement` | the linked list, the protocol as a step relation, and that the list refines it |
| `FontNames`, `MeshGrid`, `TileLayout` | the remaining kernels |

`Fill(d, layout, px)` is the array d after a sweep has stored `px(l, i)` at every position of the
layout; `Strips.FillAt` and `Strips.FillElsewhere` say what that means element by element, and
the `OnSource` and `OnGeometry` lemmas say, for each filter, what stands at each offset in terms of
the elements of the source array alone.

## Conventions

- A `jint` is a signed 32-bit word.  Products of sums and factors, shifts into the sign bit and
  packing wrap as they do in C; that they never overflow is proved.  Array offsets are
  unbounded integers.
- `jfloat` and `double` are `real`; casts to integers truncate toward zero.
- The filters state what their callers guarantee: distinct source and destination, arrays that
  hold the images, `hsize >= 1` and `hsize * 255 <= 0x7fffffff`, a kernel of at least one weight
  stored twice (as SSELinearConvolvePeer.java:99-114 builds it), spread and colours in [0, 1].
  `registerFontW` reads the last character of the file name, so that name is not empty.  Meshes
  have at least one subdivision each way, and a tile plus its gap is positive.
- The scan length of images allocated between passes, lower-casing of names, the height function
  and the normal of a triangle are parameters, and so is the number of names after which a call
  into Java fails.

## Where the code differs from what it says or from what one expects

- `eventq_loop` returns with the mutex locked when attaching to the virtual machine fails, so no
  event can be pushed after that (`EventLoop.AttachMayFail`, `EventLoop.FailedForever`); that path
  and no other locks it for good (`EventLoop.StuckIff`).
- `android_notifyGlassShutdown` pushes an event and stops the queue at once; the event is
  processed only if the loop gets the mutex in between (`EventLoop.ShutdownDeliveredIff`,
  `EventLoop.ShutdownMayBeLost`).
- `eventq_getInstance` does not initialise `running`; a run of the model starts from either value.
- A flat box-blur window is kept up to 33025 pixels and not at 33026 (`BoxBlurLaws.KeepsFlatUpTo`);
  exactly when it is kept is `BoxBlurLaws.KeepsFlatIff`.
- A coloured box shadow may get lighter where the source gets more opaque
  (`BoxShadowLaws.ColourNotMonotone`), and exactly when it may is `BoxShadowLaws.ColourMonotoneIff`.
- CustomTilePane.java says the remainder is 0 when the last row is filled; it is then the whole
  column count, which gives the same offset (`TileLayout.LastLineHolds`).
- Tiles can overlap when a gap is negative (`TileLayout.OverlapExample`), but need not even then
  (`TileLayout.StaggeredExample`); the exact condition is `TileLayout.TilesApartIff`.

## Model

| member | source | states |
|---|---|---|
| `BoxBlur.FilterHorizontal` | modules/javafx.graphics/src/main/native-decora/SSEBoxBlurPeer.cc:49-80 | afterwards the destination is its old contents overwritten, at the offsets of a dstw by dsth image and nowhere else, by pixels whose channels are the scaled sums of the hsize source pixels ending there, the row extended by zeros; every read and write is in range |
| `BoxBlur.FilterVertical` | modules/javafx.graphics/src/main/native-decora/SSEBoxBlurPeer.cc:100-132 | the same along columns, for every scan length with dstw <= srcscan |
| `BoxBlurLaws.RowOnSource` | modules/javafx.graphics/src/main/native-decora/SSEBoxBlurPeer.cc:58-79 | on array elements: each byte of the word at y * dstscan + x is the sum of that channel over the elements y * srcscan + i, x - hsize < i <= x, times kscale, divided by 2^23 and rounded down |
| `BoxBlurLaws.ColumnOnSource` | modules/javafx.graphics/src/main/native-decora/SSEBoxBlurPeer.cc:103-131 | the same for the elements x + i * srcscan, y - vsize < i <= y |
| `BoxBlur.RowTest` | modules/javafx.graphics/src/main/native-decora/SSEBoxBlurPeer.cc:102-113 | for columns below the scan length, the flat test srcoff >= voff is the row test y >= vsize, and the offset read is the pixel vsize rows up |
| `BoxBlur.BlurFits` | modules/javafx.graphics/src/main/native-decora/SSEBoxBlurPeer.cc:72-76 | every window sum is at most 255 hsize, its product with kscale at most 0x7fffffff, its scaled value a byte |
| `BoxBlur.BlurPixelBytes` | modules/javafx.graphics/src/main/native-decora/SSEBoxBlurPeer.cc:72-76 | the packing additions never carry: unpacking a stored pixel returns the four scaled sums |
| `Lines.WindowsConserve` | modules/javafx.graphics/src/main/native-decora/SSEBoxBlurPeer.cc:53-80 | over a row the unscaled sums of the srcw + hsize - 1 windows total hsize times the row: nothing is lost or counted twice |
| `Pixels.UnpackPack` | modules/javafx.graphics/src/main/native-decora/SSEBoxBlurPeer.cc:73-76 | packing four bytes and unpacking any channel returns that byte, also for words with the sign bit set |
| `Pixels.PackUnpack` | modules/javafx.graphics/src/main/native-decora/SSEBoxBlurPeer.cc:62-76 | unpacking any 32-bit word and packing it again returns the word |
| `Pixels.ByteValues` | modules/javafx.graphics/src/main/native-decora/SSEBoxBlurPeer.cc:62-65 | the four channels are the four bytes of the word, alpha on top and blue at the bottom |
| `Pixels.WrapCongruent` | modules/javafx.graphics/src/main/native-decora/SSEBoxBlurPeer.cc:73-76 | 32-bit truncation changes a value by a multiple of 2^32 only |
| `Strips.FillAt` | modules/javafx.graphics/src/main/native-decora/SSEBoxBlurPeer.cc:53-80 | after a sweep that never revisits an offset, each offset holds the pixel of its own position |
| `Strips.FillElsewhere` | modules/javafx.graphics/src/main/native-decora/SSEBoxBlurPeer.cc:53-80 | a sweep leaves every other array element as it was |
| `BoxBlurLaws.KeepsFlatIff` | modules/javafx.graphics/src/main/native-decora/SSEBoxBlurPeer.cc:49-76 | every window of every line that is filled with one value is stored as that value if and only if n times the truncated reciprocal reaches 2^23 |
| `BoxBlurLaws.KeepsFlatUpTo` | modules/javafx.graphics/src/main/native-decora/SSEBoxBlurPeer.cc:49-76 | so it holds for every window up to 33025, fails first at 33026 and holds again at 33027 |
| `BoxBlurLaws.FlatWindowLost` | modules/javafx.graphics/src/main/native-decora/SSEBoxBlurPeer.cc:58-77 | where it fails, a line of n pixels whose blue is 1: its window is stored with blue 0 |
| `BoxBlurLaws.UnitWindow` | modules/javafx.graphics/src/main/native-decora/SSEBoxBlurPeer.cc:49-77 | window size 1 is the identity filter, word for word |
| `BoxBlurLaws.BlurPremultiplied` | modules/javafx.graphics/src/main/native-decora/SSEBoxBlurPeer.cc:72-76 | premultiplied rows give premultiplied pixels, despite truncation |
| `BoxBlurLaws.ImagePremultiplied` | modules/javafx.graphics/src/main/native-decora/SSEBoxBlurPeer.cc:53-132 | over whole images: every pixel that either filter writes is premultiplied if the source is |
| `BoxBlurLaws.VerticalIsTransposedHorizontal` | modules/javafx.graphics/src/main/native-decora/SSEBoxBlurPeer.cc:100-132 | filterVertical is filterHorizontal conjugated by transposition, for all scan lengths on either side |
| `BoxBlurPasses.Passes` | modules/javafx.graphics/src/main/java/com/sun/scenario/effect/impl/sw/sse/SSEBoxBlurPeer.java:82-108 | the loop ends with the final size, every line blurred with all the windows in turn |
| `BoxBlurPasses.Filter` | modules/javafx.graphics/src/main/java/com/sun/scenario/effect/impl/sw/sse/SSEBoxBlurPeer.java:58-112 | nothing happens for no passes or a box of one pixel; else each line is the source line blurred `iterations` times with the box size, and once more with a window of 2 exactly if the growth is odd; the bounds returned grow equally on both sides |
| `BoxBlurPasses.PassCount` | modules/javafx.graphics/src/main/java/com/sun/scenario/effect/impl/sw/sse/SSEBoxBlurPeer.java:68-86 | the windows the loop uses to reach the rounded-up size are exactly those |
| `BoxBlurPasses.GrowIsEven` | modules/javafx.graphics/src/main/java/com/sun/scenario/effect/impl/sw/sse/SSEBoxBlurPeer.java:68-71 | the growth is the smallest even number that covers all the passes |
| `BoxBlurPasses.OnePassOnSource` | modules/javafx.graphics/src/main/java/com/sun/scenario/effect/impl/sw/sse/SSEBoxBlurPeer.java:82-97 | on array elements, for rows and for columns: what a single pass stores at each offset |
| `BoxBlurPasses.PassesPremultiplied` | modules/javafx.graphics/src/main/java/com/sun/scenario/effect/impl/sw/sse/SSEBoxBlurPeer.java:56-108 | any sequence of passes keeps premultiplied lines premultiplied |
| `BoxShadow.FilterHorizontalBlack` | modules/javafx.graphics/src/main/native-decora/SSEBoxShadowPeer.cc:50-76 | every pixel of the image is the shade of the alpha sum of its window, cut off below amax / 255, opaque from amax on, scaled in between; nothing else changes |
| `BoxShadow.FilterVerticalBlack` | modules/javafx.graphics/src/main/native-decora/SSEBoxShadowPeer.cc:97-124 | the same along columns |
| `BoxShadow.FilterVertical` | modules/javafx.graphics/src/main/native-decora/SSEBoxShadowPeer.cc:148-187 | the same along columns with each channel inked by the shadow colour, for every colour in [0, 1] |
| `BoxShadowLaws.ColourOnSource` | modules/javafx.graphics/src/main/native-decora/SSEBoxShadowPeer.cc:148-187 | on array elements: each channel of the word at y * dstscan + x is 0, the truncated 255-fold of its colour component, or the scaled alpha sum of the elements of column x, by cases of that sum |
| `BoxShadowLaws.BlackOnSource` | modules/javafx.graphics/src/main/native-decora/SSEBoxShadowPeer.cc:50-124 | the same for both black filters, alpha of full strength and the other channels 0 |
| `BoxShadow.AMaxRange` | modules/javafx.graphics/src/main/native-decora/SSEBoxShadowPeer.cc:51-53 | for every spread in [0, 1] amax lies in [255, 255 hsize] |
| `BoxShadow.ConvertBlack` | modules/javafx.graphics/src/main/native-decora/SSEBoxShadowPeer.cc:69-72 | the three branches in wrapping 32-bit arithmetic give the black shade of the sum |
| `BoxShadow.ConvertTinted` | modules/javafx.graphics/src/main/native-decora/SSEBoxShadowPeer.cc:177-183 | the three branches with bitwise or in 32-bit words give the coloured shade of the sum |
| `BoxShadow.ShadePixelBytes` | modules/javafx.graphics/src/main/native-decora/SSEBoxShadowPeer.cc:177-183 | the stored word unpacks to the four shades |
| `Pixels.PackOrBytes` | modules/javafx.graphics/src/main/native-decora/SSEBoxShadowPeer.cc:159-163 | on bytes, packing by shift and bitwise or equals packing by addition |
| `BoxShadowLaws.BlackShadowMonotone` | modules/javafx.graphics/src/main/native-decora/SSEBoxShadowPeer.cc:50-124 | for every spread, pointwise more source alpha gives pointwise more shadow alpha, across all three branches |
| `BoxShadowLaws.ImageShadowMonotone` | modules/javafx.graphics/src/main/native-decora/SSEBoxShadowPeer.cc:50-124 | over whole images, for the horizontal and for the vertical filter |
| `BoxShadowLaws.ColourMonotoneIff` | modules/javafx.graphics/src/main/native-decora/SSEBoxShadowPeer.cc:148-187 | for every window, spread, colour and channel: the channel is monotone over all lines if and only if its saturated value is not below its last scaled value |
| `BoxShadowLaws.FallsAtSaturation` | modules/javafx.graphics/src/main/native-decora/SSEBoxShadowPeer.cc:177-183 | where that fails, two lines whose windows sum to amax - 1 and amax: the second has more alpha and less shadow |
| `BoxShadowLaws.ColourNotMonotone` | modules/javafx.graphics/src/main/native-decora/SSEBoxShadowPeer.cc:152-183 | such lines for a window of 100, no spread and a shadow alpha of 0.9: more alpha everywhere, less shadow at one pixel |
| `BoxShadowLaws.AgreesWithBlurIff` | modules/javafx.graphics/src/main/native-decora/SSEBoxShadowPeer.cc:50-76 | without spread the shadow's alpha equals the box blur's alpha on every line if and only if (n - 1) k < 2^23 <= n k, k the reciprocal |
| `BoxShadowLaws.AgreesWithBlurUpTo` | modules/javafx.graphics/src/main/native-decora/SSEBoxShadowPeer.cc:50-76 | so they agree for every window up to 256, and a sum of 256 separates them at 257 |
| `BoxShadowLaws.SpreadlessShadowIsBlur` | modules/javafx.graphics/src/main/native-decora/SSEBoxShadowPeer.cc:50-76 | over whole images, under that condition: the two filters leave the same alpha at every pixel |
| `BoxShadowLaws.OpaqueBlackShadow` | modules/javafx.graphics/src/main/java/com/sun/scenario/effect/impl/sw/sse/SSEBoxShadowPeer.java:113-125 | for opaque black the coloured filter and the black one agree on every image, which justifies the caller's shortcut |
| `BoxShadowLaws.ImageColourMonotone` | modules/javafx.graphics/src/main/native-decora/SSEBoxShadowPeer.cc:148-187 | over whole images: such a channel does not fall at any pixel when the source gains alpha |
| `BoxShadowLaws.ImageColourFalls` | modules/javafx.graphics/src/main/native-decora/SSEBoxShadowPeer.cc:148-187 | and for every other channel two images one pixel wide between which it falls |
| `BoxShadowLaws.ImageColourPremultiplied` | modules/javafx.graphics/src/main/native-decora/SSEBoxShadowPeer.cc:148-187 | over whole images: a premultiplied shadow colour leaves only premultiplied pixels, for every source and spread |
| `LinearConvolve.FilterHV` | modules/javafx.graphics/src/main/native-decora/SSELinearConvolvePeer.cc:113-174 | for a doubled kernel of 1 to 128 weights each row of the sweep becomes its zero-padded convolution, clamped per channel and packed; larger kernels change nothing; every access is in range, for any strides |
| `LinearConvolve.OnSource` | modules/javafx.graphics/src/main/native-decora/SSELinearConvolvePeer.cc:131-174 | on array elements: channel ch of the word for row r, column c is the clamped sum of kernel[j] times that channel of the source element of row r, column c + 1 - K + j, zero outside |
| `LinearConvolve.FvalToByteIsFloor` | modules/javafx.graphics/src/main/native-decora/SSELinearConvolvePeer.cc:36-39 | the clamp is the floor clamped to a byte, except just below 255 where it rounds up |
| `LinearConvolve.ConvolvePixelBytes` | modules/javafx.graphics/src/main/native-decora/SSELinearConvolvePeer.cc:164-168 | packing never carries: each channel of the stored pixel is that channel's clamped convolution |
| `LinearConvolve.ConvolvePremultiplied` | modules/javafx.graphics/src/main/native-decora/SSELinearConvolvePeer.cc:157-168 | with a non-negative kernel premultiplied lines give premultiplied pixels |
| `LinearConvolve.ImagePremultiplied` | modules/javafx.graphics/src/main/native-decora/SSELinearConvolvePeer.cc:131-174 | over whole images: every pixel written is premultiplied |
| `Convolution.RingSumIsConvolution` | modules/javafx.graphics/src/main/native-decora/SSELinearConvolvePeer.cc:142-163 | the sum over the slots with the kernel read from K - t equals the plain convolution, the rotation of the ring undone by the doubled kernel |
| `Convolution.ConvolveMonotone` | modules/javafx.graphics/src/main/native-decora/SSELinearConvolvePeer.cc:157-163 | with a non-negative kernel pointwise larger values have larger convolutions |
| `VectorConvolve.FilterVector` | modules/javafx.graphics/src/main/native-decora/SSELinearConvolvePeer.cc:52-92 | each destination pixel is the clamped weighted sum of bilinear samples along its line; more than 128 weights change nothing |
| `VectorConvolve.OnGeometry` | modules/javafx.graphics/src/main/native-decora/SSELinearConvolvePeer.cc:64-92 | on the arguments themselves: channel c of the word for a column and row is the clamped sum of weights[i] times the sample at corner + half a cell + col * column step + row * row step + offset + i * delta, in x and in y |
| `VectorConvolve.SampleLine` | modules/javafx.graphics/src/main/native-decora/SSELinearConvolvePeer.cc:75-80 | the coordinates stepped by the deltas stay on the line, and the four accumulators are the weighted sums of the samples on it |
| `VectorConvolve.StartClosedForm` | modules/javafx.graphics/src/main/native-decora/SSELinearConvolvePeer.cc:64-91 | the stepped start is corner + (row step + column step) / 2 + column number times column step + row number times row step + offset |
| `VectorConvolve.VectorPixelBytes` | modules/javafx.graphics/src/main/native-decora/SSELinearConvolvePeer.cc:81-85 | the stored word unpacks to the four clamped sums |
| `VectorConvolve.VectorPremultiplied` | modules/javafx.graphics/src/main/native-decora/SSELinearConvolvePeer.cc:75-85 | with non-negative weights premultiplied images give premultiplied pixels |
| `VectorConvolve.ImagePremultiplied` | modules/javafx.graphics/src/main/native-decora/SSELinearConvolvePeer.cc:68-92 | over whole images: every pixel written is premultiplied |
| `Sampling.LAccumSample` | modules/javafx.graphics/src/main/native-decora/SSEUtils.cc:97-135 | at every real point, in or out of the image, the four accumulators grow by factor times the zero-extended bilinear sample; every index is in range |
| `Sampling.LSample` | modules/javafx.graphics/src/main/native-decora/SSEUtils.cc:54-95 | the result is the zero-extended bilinear sample divided by 255 at the given fractions of width and height |
| `Sampling.FSample` | modules/javafx.graphics/src/main/native-decora/SSEUtils.cc:144-185 | the same for a map of four floats per point, unscaled |
| `Sampling.PlaneOnSource` | modules/javafx.graphics/src/main/native-decora/SSEUtils.cc:76-91 | the samplers read the pixel of column i, row j at j * scan + i: the sample at its centre is that element's channel |
| `Sampling.MapPlaneOnSource` | modules/javafx.graphics/src/main/native-decora/SSEUtils.cc:166-181 | component k of a float map is read at 4 * (j * scan + i) + k |
| `Sampling.CellSumIsSample` | modules/javafx.graphics/src/main/native-decora/SSEUtils.cc:77-92 | the four truncation-based weights add up to the sample, a sum over all pixels |
| `Bilinear.SampleIsFour` | modules/javafx.graphics/src/main/native-decora/SSEUtils.cc:63-92 | of the tent weights of all pixels only those of the four neighbours do not vanish |
| `Bilinear.SampleOutside` | modules/javafx.graphics/src/main/native-decora/SSEUtils.cc:70-72 | where the guard fails the sample is zero |
| `Bilinear.SampleAtCentre` | modules/javafx.graphics/src/main/native-decora/SSEUtils.cc:63-92 | at a pixel's centre the sample is that pixel |
| `Bilinear.SampleBounds` | modules/javafx.graphics/src/main/native-decora/SSEUtils.cc:63-92 | samples of values in [0, m] lie in [0, m] |
| `Bilinear.SampleMonotone` | modules/javafx.graphics/src/main/native-decora/SSEUtils.cc:63-92 | pointwise larger images have larger samples at every point |
| `ConvolveShadow.FilterHV` | modules/javafx.graphics/src/main/native-decora/SSELinearConvolveShadowPeer.cc:121-179 | each pixel is the table entry at the zero-padded alpha convolution rounded to the nearest level and clamped to 0..255 |
| `ConvolveShadow.OnSource` | modules/javafx.graphics/src/main/native-decora/SSELinearConvolveShadowPeer.cc:148-179 | on array elements: each channel of the word for row r, column c is its colour component times the level nearest to the convolution of the source alphas, rounded down |
| `ConvolveShadow.ScaleIsFloor` | modules/javafx.graphics/src/main/native-decora/SSELinearConvolveShadowPeer.cc:129-132 | a table entry's component is the product of component and level, rounded down |
| `ConvolveShadow.Lookup` | modules/javafx.graphics/src/main/native-decora/SSELinearConvolveShadowPeer.cc:170-173 | the index is always in range, and the three branches are one rounding and clamping |
| `ConvolveShadow.TableEntryBytes` | modules/javafx.graphics/src/main/native-decora/SSELinearConvolveShadowPeer.cc:129-132 | for colours in [0, 1] an entry unpacks to the four truncated products |
| `ConvolveShadow.ShadowMonotone` | modules/javafx.graphics/src/main/native-decora/SSELinearConvolveShadowPeer.cc:158-173 | with a non-negative kernel more source alpha never gives less shadow alpha |
| `ConvolveShadow.ShadowPremultiplied` | modules/javafx.graphics/src/main/native-decora/SSELinearConvolveShadowPeer.cc:127-173 | a premultiplied shadow colour gives premultiplied pixels |
| `ConvolveShadow.ImageMonotone` | modules/javafx.graphics/src/main/native-decora/SSELinearConvolveShadowPeer.cc:148-179 | over whole images: more source alpha everywhere, no less shadow alpha anywhere |
| `ConvolveShadow.ImagePremultiplied` | modules/javafx.graphics/src/main/native-decora/SSELinearConvolveShadowPeer.cc:148-179 | over whole images: every pixel written is premultiplied |
| `EventQueue.Event.constructor` | modules/javafx.graphics/src/dalvik/native/Events.c:50-58 | a new event has the signal kind, its type and null links |
| `EventQueue.EventQ.constructor` | modules/javafx.graphics/src/dalvik/native/EventLoop.c:125-141 | a new queue represents the empty sequence |
| `EventQueue.EventQ.Push` | modules/javafx.graphics/src/dalvik/native/EventLoop.c:37-45 | pushing a fresh node prepends it to the one sequence of distinct nodes that head, tail, size and links represent |
| `EventQueue.EventQ.Dequeue` | modules/javafx.graphics/src/dalvik/native/EventLoop.c:83-91 | removes exactly the last node; the one-element case agrees with the general one |
| `EventQueue.EventQ.Pop` | modules/javafx.graphics/src/dalvik/native/EventLoop.c:51-65 | null on the empty queue, else the oldest node, removed |
| `EventQueue.EventQ.Drain` | modules/javafx.graphics/src/dalvik/native/EventLoop.c:75-92 | while it is running the loop takes all queued events, oldest first; stopped, it takes none |
| `EventRefinement.StartStep` | modules/javafx.graphics/src/dalvik/native/EventLoop.c:113-113 | on the flag, eventq_start takes exactly the starting step of the protocol |
| `EventRefinement.PushStep` | modules/javafx.graphics/src/dalvik/native/EventLoop.c:37-45 | on the linked list, eventq_push takes exactly the step of a pushing client of the protocol |
| `EventRefinement.StopStep` | modules/javafx.graphics/src/dalvik/native/EventLoop.c:102-102 | on the flag, eventq_stop takes exactly the step of a stopping client |
| `EventRefinement.TestStep` | modules/javafx.graphics/src/dalvik/native/EventLoop.c:76-91 | the head of the loop on the linked list waits, exits or takes the event the protocol takes |
| `EventRefinement.Run` | modules/javafx.graphics/src/dalvik/native/EventLoop.c:75-93 | from locking to the next wait or exit, the loop on the linked list handles exactly the events the protocol processes, and leaves its queue |
| `EventLoop.StepInv` | modules/javafx.graphics/src/dalvik/native/EventLoop.c:35-123 | every step of every thread keeps mutual exclusion, first-in-first-out order, the bookkeeping of the last wait, and the absence of lost wake-ups |
| `EventLoop.RunInv` | modules/javafx.graphics/src/dalvik/native/EventLoop.c:35-123 | every state of every interleaving satisfies that invariant, spurious wake-ups included, whatever `running` is at first |
| `EventLoop.ProcessedInOrder` | modules/javafx.graphics/src/dalvik/native/EventLoop.c:35-98 | processed events, the one in hand and the queue from its tail are exactly the pushed events in push order |
| `EventLoop.ChangesAsAsked` | modules/javafx.graphics/src/dalvik/native/EventLoop.c:35-49 | whenever a client changes the queue it does what its last call asked: it appends the very event given to eventq_push, or it clears the flag |
| `EventLoop.PushedWereAsked` | modules/javafx.graphics/src/dalvik/native/activity.c:159-178 | event number k of a run was given to some call of eventq_push and pushed by that client as the k-th |
| `EventLoop.ProcessedWereAsked` | modules/javafx.graphics/src/dalvik/native/EventLoop.c:83-92 | so every event processed is the event of some client's call |
| `EventLoop.WaitsOnlyWhenDone` | modules/javafx.graphics/src/dalvik/native/EventLoop.c:75-78 | whenever the loop begins to wait, everything pushed so far is processed |
| `EventLoop.ExitLeavesTheRest` | modules/javafx.graphics/src/dalvik/native/EventLoop.c:75-95 | on exit the processed events are exactly those pushed by the moment the last wait of the run began, and the events left those pushed since; all are left if it never waited |
| `EventLoop.LastWaitExists` | modules/javafx.graphics/src/dalvik/native/EventLoop.c:76-78 | every moment of a run has a last wait before it, or none |
| `EventLoop.MarkIsLastWait` | modules/javafx.graphics/src/dalvik/native/EventLoop.c:76-78 | the bookkeeping of the last wait agrees with the run |
| `EventLoop.DeliveredIff` | modules/javafx.graphics/src/dalvik/native/EventLoop.c:75-95 | an exited loop has processed an event if and only if the event was pushed before some wait of the run began |
| `EventLoop.NoLostWakeUp` | modules/javafx.graphics/src/dalvik/native/EventLoop.c:35-49 | with the mutex free, a waiting loop has an empty list and has not been stopped |
| `EventLoop.BurstProcessesAll` | modules/javafx.graphics/src/dalvik/native/EventLoop.c:75-93 | a running loop with the mutex processes everything pushed, in order, and then waits |
| `EventLoop.HeldMeansProcessed` | modules/javafx.graphics/src/dalvik/native/EventLoop.c:75-93 | an event queued when the loop has the mutex is processed before the mutex is released, as long as the queue is not stopped |
| `EventLoop.StoppedForGood` | modules/javafx.graphics/src/dalvik/native/EventLoop.c:79-105 | a loop stopped between two events processes no further event |
| `EventLoop.ShutdownDeliveredIff` | modules/javafx.graphics/src/dalvik/native/activity.c:164-168 | an event pushed before a stop is ever processed if and only if the loop got the mutex between the push and the stop |
| `EventLoop.ShutdownMayBeLost` | modules/javafx.graphics/src/dalvik/native/activity.c:164-168 | a run of one shutdown notification whose event is never processed |
| `EventLoop.FailedForever` | modules/javafx.graphics/src/dalvik/native/EventLoop.c:68-74 | once attaching has failed the mutex is never free again and nothing is ever pushed |
| `EventLoop.FailedIff` | modules/javafx.graphics/src/dalvik/native/EventLoop.c:68-74 | at every moment of every run the loop has failed if and only if an attempt to attach has |
| `EventLoop.StuckIff` | modules/javafx.graphics/src/dalvik/native/EventLoop.c:35-123 | at every moment of every run some continuation frees the mutex if and only if no attempt to attach has failed |
| `EventLoop.DeliverableIff` | modules/javafx.graphics/src/dalvik/native/EventLoop.c:35-123 | at every moment of every run some continuation processes everything pushed so far if and only if it is processed already, or the loop is still to start, or it is running and no client holds the mutex to stop it |
| `EventLoop.AttachMayFail` | modules/javafx.graphics/src/dalvik/native/EventLoop.c:67-74 | a run that ends with the mutex locked for good |
| `FontNames.RegisterFont` | modules/javafx.graphics/src/main/native-font/fontpath.c:528-624 | for a file name ending in C or c the components of the greedy split of the original name are put, last first, each for this file; for any other file the whole name; if a call into Java fails after some names, exactly those are registered; no other entry changes |
| `FontNames.RegisterCollection` | modules/javafx.graphics/src/main/native-font/fontpath.c:554-593 | the nested loops end, and put exactly the components of the split in reverse order, as many as the calls into Java allow |
| `FontNames.FindSeparator` | modules/javafx.graphics/src/main/native-font/fontpath.c:555-558 | the first occurrence of " & " at or after a position, or none |
| `FontNames.JoinSplit` | modules/javafx.graphics/src/main/native-font/fontpath.c:542-560 | joining the components with " & " gives the name back |
| `FontNames.SplitIsGreedy` | modules/javafx.graphics/src/main/native-font/fontpath.c:542-560 | no component could have been cut earlier, and the last holds no separator |
| `FontNames.SplitJoin` | modules/javafx.graphics/src/main/native-font/fontpath.c:542-560 | a greedy list of components is recovered from its join: the split loses nothing |
| `FontNames.SplitExample` | modules/javafx.graphics/src/main/native-font/fontpath.c:542-560 | A & B & C splits into A, B and C, and A&B not at all |
| `FontNames.SplitLast` | modules/javafx.graphics/src/main/native-font/fontpath.c:587-592 | cutting off the last component leaves the split of what stands before its separator |
| `FontNames.RegistryToBaseTTName` | modules/javafx.graphics/src/main/native-font/fontpath.c:502-526 | succeeds if and only if the name is longer than and ends in " (TrueType)"; then the buffer holds the rest, else it is unchanged |
| `MeshGrid.BuildTriangleMesh` | apps/toys/FX8-3DFeatures/src/fx83dfeatures/PNTMeshViewer.java:155-268 | points, normals, texture coordinates and faces hold, at every index, the grid point, the face normal, the grid fractions and the nine face ints; every slot is written and every index is in range |
| `MeshGrid.PointEntries` | apps/toys/FX8-3DFeatures/src/fx83dfeatures/PNTMeshViewer.java:168-180 | the point of column x, row y in closed form: x from -10 to 10 with the column, y with the row, times the scale, and the height there |
| `MeshGrid.TexEntries` | apps/toys/FX8-3DFeatures/src/fx83dfeatures/PNTMeshViewer.java:181-184 | its texture coordinates are its column and row as fractions |
| `MeshGrid.FaceEntries` | apps/toys/FX8-3DFeatures/src/fx83dfeatures/PNTMeshViewer.java:197-266 | the eighteen ints of the cell in column x, row y |
| `MeshGrid.NormalEntries` | apps/toys/FX8-3DFeatures/src/fx83dfeatures/PNTMeshViewer.java:206-255 | normal f is computeNormal of the three points that face f names |
| `MeshGrid.ComputeMesh` | apps/toys/FX8-3DFeatures/src/fx83dfeatures/PNTMeshViewer.java:82-148 | a mesh built for any height and scale on the same grid becomes the mesh of the current shape, and the assertion on the three normal indices holds |
| `MeshGrid.View` | apps/toys/FX8-3DFeatures/src/fx83dfeatures/PNTMeshViewer.java:293-344 | one build and any sequence of changes of the function, each followed by a recomputation, leave the mesh of the last shape, texture coordinates included |
| `MeshGrid.RecomputedEqualsBuilt` | apps/toys/FX8-3DFeatures/src/fx83dfeatures/PNTMeshViewer.java:82-268 | a fresh build gives element by element the points, normals and faces of any mesh of the shape, so of one recomputed after any changes |
| `MeshGrid.MeshUnique` | apps/toys/FX8-3DFeatures/src/fx83dfeatures/PNTMeshViewer.java:82-268 | a shape has only one mesh |
| `MeshGrid.SameFaces` | apps/toys/FX8-3DFeatures/src/fx83dfeatures/PNTMeshViewer.java:195-268 | faces depend on the subdivisions alone, so recomputing may keep them |
| `MeshGrid.FillPoints` | apps/toys/FX8-3DFeatures/src/fx83dfeatures/PNTMeshViewer.java:167-186 | vertex u is the point of column u mod (subDivX + 1), row u / (subDivX + 1) |
| `MeshGrid.FaceAt` | apps/toys/FX8-3DFeatures/src/fx83dfeatures/PNTMeshViewer.java:227-266 | face k uses normal k at all three corners, and its points exist |
| `MeshGrid.DirectedEdgesDistinct` | apps/toys/FX8-3DFeatures/src/fx83dfeatures/PNTMeshViewer.java:195-268 | no directed edge occurs twice in the whole mesh |
| `MeshGrid.InteriorHasOpposite` | apps/toys/FX8-3DFeatures/src/fx83dfeatures/PNTMeshViewer.java:195-268 | every edge off the border occurs in the opposite direction in the face across it |
| `MeshGrid.OppositeIffInterior` | apps/toys/FX8-3DFeatures/src/fx83dfeatures/PNTMeshViewer.java:195-268 | an edge occurs in the opposite direction if and only if it is not on the border: the mesh is consistently oriented |
| `TileLayout.CustomTilePane.LayoutChildren` | apps/toys/LayoutDemo/src/layout/CustomTilePane.java:171-259 | every child lies in line i / per, position i mod per, each line aligned by the number of tiles it holds, in both orientations; the counts are stored |
| `TileLayout.CustomTilePane.Layout` | apps/toys/LayoutDemo/src/layout/CustomTilePane.java:194-259 | counts, remainders and offsets of the code give that layout |
| `TileLayout.CeilDivision` | apps/toys/LayoutDemo/src/layout/CustomTilePane.java:117-120 | enough lines for all children, and no line too many |
| `TileLayout.FitIsLargest` | apps/toys/LayoutDemo/src/layout/CustomTilePane.java:122-142 | that many tiles fit inside, and one more would not |
| `TileLayout.LineOf` | apps/toys/LayoutDemo/src/layout/CustomTilePane.java:194-209 | child i's line exists and holds a full line's or the remainder's count of tiles |
| `TileLayout.LastLineHolds` | apps/toys/LayoutDemo/src/layout/CustomTilePane.java:197-201 | the last line holds exactly the last lastRowRemainder children, between 1 and a full line |
| `TileLayout.TilesInside` | apps/toys/LayoutDemo/src/layout/CustomTilePane.java:210-234 | every tile lies inside the inner width (height, for a vertical pane) |
| `TileLayout.HorizontalEdges` | apps/toys/LayoutDemo/src/layout/CustomTilePane.java:210-234 | in a horizontal pane each row is flush left, centred or flush right by the tiles it holds, and all rows together flush with the top, centred or flush with the bottom |
| `TileLayout.VerticalEdges` | apps/toys/LayoutDemo/src/layout/CustomTilePane.java:210-234 | in a vertical pane the same with columns for rows |
| `TileLayout.TileSteps` | apps/toys/LayoutDemo/src/layout/CustomTilePane.java:233-257 | neighbours in a line stand a tile and a gap apart and level, and so do lines |
| `TileLayout.TilesApartIff` | apps/toys/LayoutDemo/src/layout/CustomTilePane.java:227-258 | for tiles of positive size, in both orientations: no two overlap if and only if the gap along a line is not negative or no line holds two tiles, and the lines are a tile apart or there is only one, or there are two and the second is centred into gaps as wide as a tile |
| `TileLayout.OverlapExample` | apps/toys/LayoutDemo/src/layout/CustomTilePane.java:227-258 | two tiles of 10 with a gap of -5 begin at 0 and 5 and overlap |
| `TileLayout.StaggeredExample` | apps/toys/LayoutDemo/src/layout/CustomTilePane.java:227-258 | a layout with a negative gap between its two lines in which nothing overlaps |

## Left out

- JNI array pinning, exception checks and release calls: foreign calls around the modelled loops.
- IEEE rounding of floats, and 32-bit overflow of array offsets.
- `filterVector` of the convolution shadow, which samples the nearest pixel: it repeats the loops of the modelled `filterVector` with a simpler sampler.
- `filterTranspose` of the box blur, which is disabled in the source.
- The passes loop of SSEBoxShadowPeer.java beyond the choice of the black filter: it repeats the box blur's loop, with the spread switched off for the last pass.
- How kernels, weights and box sizes are chosen on the Java side.
- EventLoop.StepInv: creation and destruction of the thread, the mutex and the condition variable, and pushes after the loop has exited, are not steps of the protocol.
- EventLoop.RunInv: the loop starts at most once in a run; a second `eventq_start` is not modelled.
- EventQueue.EventQ.Push: locking and signalling are steps of the protocol; EventRefinement.PushStep joins the two.
- What `eventHandler_process` does with an event, and freeing it; `SignalEvent_toString`.
- FontNames.RegisterFont: which call into Java fails is not modelled, only after how many names one does.
- The rest of fontpath.c: registry, GDI enumeration and directories are operating-system calls.
- MeshGrid.BuildTriangleMesh: texture coordinates are filled in a loop of their own, where the source fills them along with the points.
- TileLayout.CustomTilePane.LayoutChildren: sorting the children by height, snapping to pixels, and the placement of a child inside its tile are not modelled.
- The other viewers, panes and platform wrappers of the repository, which add no harder index arithmetic or protocol.
