# DotSDL canvas, window loop and sprites sample in Dafny

This project models three parts of DotSDL, a C# wrapper around SDL2:

- **The canvas** (`DotSDL/Graphics/Canvas.cs`).
  - A row-major ARGB pixel buffer whose length follows `Width * Height`.
  - Resizing reallocates the buffer, which clears it.
  - The canvas owns a native texture. The texture is created, recreated when the size or scaling quality changes, destroyed, and uploaded.
  - The pixel index `GetIndex(x, y) = Width * y + x` is proved injective and onto the buffer.
- **The SDL window** (`DotSDL/Graphics/SdlWindow.cs`).
  - The window-position constants.
  - The constructor's native set-up sequence.
  - Event handling: Close, Minimized, Restored, KeyPressed and KeyReleased. Close stops and destroys the window unless someone subscribed to `Closed`.
  - The guarded update and draw steps.
  - The sprite draw order: the shown sprites, stably sorted by z-order.
  - The fixed-timestep game loop with its `uint` deadlines and its sleep.
  - The three `Start` overloads.
- **The sprites sample's window** (`Samples/Sample.Sprites/Window.cs`).
  - The background it paints. A colour strip is built in an array of its own, then three in-place passes over the pixel array paint the diagonal strips, darken the even rows and draw a dashed border.
  - The keyboard state machine that steers the two players.

## How the model works

- **Native calls and user code are recorded, not performed.**
  - The window records them as `Action` values in a sequence field. Examples: `CreateWindow`, `ScaleHint`, `UploadCanvas(pitch)`, `Present`, `Sleep(ms)`, `UserDraw` for `OnDraw`, and `Raised(hook, event)` for a subscribed C# event.
  - The canvas records its texture calls as `NativeCall` values.
  - Texture handles returned by SDL are method parameters.
- **The clock is an input.**
  - Each loop iteration receives a `Frame`: the events that arrived, the tick count read at the top of the iteration, and the tick count read again before sleeping.
- **C# integers keep their widths.**
  - `int`, `uint` and `byte` are subset types.
  - Unchecked arithmetic is written out as `Wrap32` or `WrapU32`: pixel counts, deadlines and the upload pitch.
- **Darkening is exact.**
  - The sample's `(byte)(c * 0.8)` is modelled as `4 * c / 5`.
  - When 5 divides `c`, `4c/5` is an integer that a double represents exactly. The double nearest 0.8 lies above 0.8, so the rounded product is never below that integer.
  - Otherwise `4c/5` is at least 1/5 away from every integer. For a byte `c`, the errors from representing 0.8 and rounding the product stay below 2^-44, so truncation gives the integer part of `4c/5`.
- **State-changing code is imperative.**
  - The canvas, the window and the sample's window are classes.
  - The pixel passes are `while`/`for` loops over an `array<Color>`. Each pass is proved against a function of the index: `BackgroundAt` describes the finished picture.

## Model

| member | source | states |
|---|---|---|
| Canvases.Index | DotSDL/Graphics/Canvas.cs:180-182 | the row-major index `Width * y + x` of pixel (x, y), which is never negative for a pixel with non-negative coordinates |
| Canvases.IndexInBounds | DotSDL/Graphics/Canvas.cs:180-182 | a pixel inside the canvas has an index inside the `Width * Height` buffer |
| Canvases.IndexInjective | DotSDL/Graphics/Canvas.cs:180-182 | two pixels with the same column range and the same index are the same pixel |
| Canvases.IndexCovers | DotSDL/Graphics/Canvas.cs:180-182 | every buffer index is the index of pixel `(i % Width, i / Width)`, which lies inside the canvas |
| Canvases.IndexDivMod | DotSDL/Graphics/Canvas.cs:180-182 | division and remainder by the width take a pixel's index back to its row and column |
| Canvases.IndexDistinct | DotSDL/Graphics/Canvas.cs:180-182 | for all pixels at once, different pixels have different indices |
| Canvases.UncheckedPixelCount | DotSDL/Graphics/Canvas.cs:198 | the buffer length as written: equals `Width * Height` whenever the product fits an `int` |
| Canvases.PixelCountWrapsSilently | DotSDL/Graphics/Canvas.cs:198 | a 65536 x 65537 canvas gets a 65536-entry buffer, which is not `Width * Height` |
| Canvases.CheckedPixelCount | DotSDL/Graphics/Canvas.cs:197-198 | succeeds exactly when `Width * Height` fits an `int`, with a positive count equal to the product; otherwise `TooManyPixels` |
| Canvases.CreationCalls | DotSDL/Graphics/Canvas.cs:153-162 | the old texture is destroyed first if there was one, and the new texture is created with the renderer, access, size and handle given |
| Canvases.Canvas.constructor | DotSDL/Graphics/Canvas.cs:116-117 | the new canvas is valid and cleared, has the given size, is clipped to the whole canvas, has no texture or renderer, and uses `Nearest` and `Alpha` |
| Canvases.Canvas.Clipped | DotSDL/Graphics/Canvas.cs:125-140 | as the constructor, but with the clipping rectangle given |
| Canvases.Canvas.GetIndex | DotSDL/Graphics/Canvas.cs:180-182 | for a pixel inside a valid canvas, the index is `Width * y + x` and lies inside the buffer |
| Canvases.Canvas.GetIndexAt | DotSDL/Graphics/Canvas.cs:189-191 | the `Point` overload agrees with `GetIndex(x, y)` |
| Canvases.GetIndexInjective | DotSDL/Graphics/Canvas.cs:180-182 | inside a valid canvas, different pixels have different `GetIndex` values |
| Canvases.Canvas.DestroyTexture | DotSDL/Graphics/Canvas.cs:167-172 | afterwards there is no texture; the native destroy is issued only if there was one; nothing else changes |
| Canvases.Canvas.CreateTextureWithAccess | DotSDL/Graphics/Canvas.cs:153-162 | without a renderer nothing happens; with one, the texture is the new handle and the calls are destroy (if any), hint, create, blend mode |
| Canvases.Canvas.CreateTexture | DotSDL/Graphics/Canvas.cs:145-147 | the same, with streaming access |
| Canvases.Canvas.Resize | DotSDL/Graphics/Canvas.cs:197-202 | a fresh cleared buffer of `Width * Height` pixels; the texture is recreated exactly when there was one and a renderer; the size and settings are kept |
| Canvases.Canvas.SetWidth | DotSDL/Graphics/Canvas.cs:58-66 | a non-positive width is refused and nothing changes; otherwise the width is set, the height kept and the buffer resized and cleared; a width whose pixel count overflows is refused (see Findings) |
| Canvases.Canvas.SetHeight | DotSDL/Graphics/Canvas.cs:71-79 | the same for the height |
| Canvases.Canvas.SetBlendMode | DotSDL/Graphics/Canvas.cs:81-89 | the mode is stored and passed to the texture exactly when there is one; nothing else changes |
| Canvases.Canvas.SetScalingQuality | DotSDL/Graphics/Canvas.cs:95-103 | the quality is stored, and the texture is recreated with it exactly when there is a texture and a renderer |
| Canvases.Canvas.UpdateTexture | DotSDL/Graphics/Canvas.cs:209-213 | returns whether there is a texture; uploads with pitch `Width * 4` exactly then; the state is unchanged |
| SpriteOrder.ShownOnly | DotSDL/Graphics/SdlWindow.cs:211 | every sprite kept is shown |
| SpriteOrder.InsertByZ | DotSDL/Graphics/SdlWindow.cs:211 | definition only: inserts a sprite before the first sprite of a higher or equal z-order; its properties are stated by the three `InsertByZ...` lemmas |
| SpriteOrder.SortByZ | DotSDL/Graphics/SdlWindow.cs:211 | definition only: insertion sort by z-order, the reference for `OrderBy(e => e.ZOrder)`; its properties are stated by the three `SortByZ...` lemmas |
| SpriteOrder.DrawOrder | DotSDL/Graphics/SdlWindow.cs:211 | definition only: `SortByZ` of `ShownOnly`; its properties are stated by `DrawOrderSortedShown`, `DrawOrderStable` and `DrawOrderIsTheStableOrder` |
| SpriteOrder.WithZMember | DotSDL/Graphics/SdlWindow.cs:211 | a sprite picked out by its z-order has that z-order and comes from the list |
| SpriteOrder.ShownOnlyWithZ | DotSDL/Graphics/SdlWindow.cs:211 | filtering by shown and picking out one z-order commute |
| SpriteOrder.ShownOnlyCounts | DotSDL/Graphics/SdlWindow.cs:211 | the filter keeps each shown sprite as often as it occurs, and no hidden sprite |
| SpriteOrder.InsertByZPermutes | DotSDL/Graphics/SdlWindow.cs:211 | insertion adds the sprite and keeps all the others |
| SpriteOrder.InsertByZSorted | DotSDL/Graphics/SdlWindow.cs:211 | insertion into a z-sorted list keeps it z-sorted |
| SpriteOrder.InsertByZWithZ | DotSDL/Graphics/SdlWindow.cs:211 | insertion puts the sprite first among its z-order and leaves every other z-order's sprites as they were |
| SpriteOrder.SortByZPermutes | DotSDL/Graphics/SdlWindow.cs:211 | the sort is a permutation |
| SpriteOrder.SortByZSorted | DotSDL/Graphics/SdlWindow.cs:211 | the sort's output is ordered by z-order |
| SpriteOrder.SortByZStable | DotSDL/Graphics/SdlWindow.cs:211 | the sort is stable: the sprites of each z-order come out in input order |
| SpriteOrder.DrawOrderSortedShown | DotSDL/Graphics/SdlWindow.cs:211 | the draw order is z-sorted, holds only shown sprites, and holds each shown sprite as often as the list does |
| SpriteOrder.DrawOrderStable | DotSDL/Graphics/SdlWindow.cs:211 | shown sprites with equal z-order are drawn in list order: the draw order's sprites of z-order z are the list's sprites of z-order z with the hidden ones removed |
| SpriteOrder.StableSortUnique | DotSDL/Graphics/SdlWindow.cs:211 | two z-sorted sequences that agree, z-order by z-order, are equal |
| SpriteOrder.DrawOrderIsTheStableOrder | DotSDL/Graphics/SdlWindow.cs:211 | any z-sorted order of the shown sprites that keeps list order within each z-order is the draw order |
| Scheduler.Due | DotSDL/Graphics/SdlWindow.cs:301-309 | definition only: a job runs when the tick count is past its deadline or its rate is 0; used by `NextDeadline`, `RunsSpaced`, `ZeroRateRunsAlways` and the loop methods |
| Scheduler.NextDeadline | DotSDL/Graphics/SdlWindow.cs:301-309 | a job that ran gets deadline `ticks + rate`; one that did not keeps its deadline |
| Scheduler.SleepTime | DotSDL/Graphics/SdlWindow.cs:311-315 | sleeps exactly when some rate is positive and both deadlines are ahead of the second clock read; the sleep is positive and ends exactly at the earlier deadline |
| Scheduler.RunsSpaced | DotSDL/Graphics/SdlWindow.cs:301-303 | with a positive rate and no wrap-around, consecutive runs are more than `rate` ticks apart, and the deadline is `rate` after the last run |
| Scheduler.ZeroRateRunsAlways | DotSDL/Graphics/SdlWindow.cs:301-303 | with rate 0 the job runs in every iteration |
| Windows.WindowPosUndefinedDisplay | DotSDL/Graphics/SdlWindow.cs:77-79 | OR-ing in a display below 2^16 adds it to the marker |
| Windows.WindowPosCenteredDisplay | DotSDL/Graphics/SdlWindow.cs:91-93 | the same for the centred marker |
| Windows.WindowPosDisplayRoundTrip | DotSDL/Graphics/SdlWindow.cs:77-93 | the marker can be read back from the high 16 bits and the display from the low 16 bits; a corollary of the two placement functions' contracts |
| Windows.AfterEvent | DotSDL/Graphics/SdlWindow.cs:278-290 | definition only: the flags after one event (the window's own handling: Close stops and destroys unless `Closed` is subscribed, Minimized and Restored set the minimized flag, keys change nothing; subscribed handlers are recorded, not run, so what they do is not included); stated by `HandleWindowEvent`, `Dispatch` and the lemmas below |
| Windows.EventActions | DotSDL/Graphics/SdlWindow.cs:263-290 | definition only: a key event raises `KeyPressed` or `KeyReleased` if subscribed; Close raises `Closed` if subscribed and otherwise destroys the window (SdlWindow.cs:322-325); Minimized and Restored raise their event if subscribed (SdlWindow.cs:341-352); other window events do nothing; stated by `HandleKeyboardEvent`, `HandleWindowEvent` and `Dispatch` |
| Windows.AfterEvents | DotSDL/Graphics/SdlWindow.cs:190-195 | definition only: `AfterEvent` folded over the queue in order; stated by `BaseUpdate` and the lemmas below |
| Windows.EventsActions | DotSDL/Graphics/SdlWindow.cs:190-195 | definition only: `EventActions` of each queued event, in queue order; stated by `BaseUpdate` |
| Windows.UpdatedFlags | DotSDL/Graphics/SdlWindow.cs:190-193 | definition only: a destroyed window keeps its flags, any other handles its queue through `AfterEvents`; stated by `BaseUpdate`, `LoopStep` and `DestroyedWindowIsIdle` |
| Windows.UpdateActions | DotSDL/Graphics/SdlWindow.cs:190-195 | definition only: nothing when destroyed, otherwise each queued event's handler actions and then the user update; stated by `BaseUpdate` and `DestroyedWindowIsIdle` |
| Windows.Pitch | DotSDL/Graphics/SdlWindow.cs:174 | the upload pitch `TextureWidth * 4` is four times the width while that fits an `int`, and wraps to `int.MinValue` at width 2^29 |
| Windows.DrawActions | DotSDL/Graphics/SdlWindow.cs:171-178 | definition only: nothing when destroyed or minimized, otherwise user draw, upload, canvas copy, the draw order's copies, present; stated by `BaseDraw` and `DestroyedWindowIsIdle` |
| Windows.SpriteCopies | DotSDL/Graphics/SdlWindow.cs:211-233 | definition only: for each sprite in order, its scaling hint and then its copy; stated by `CopySprites` and `SpriteCopiesDrawEachOnce` |
| Windows.SleepActions | DotSDL/Graphics/SdlWindow.cs:311-315 | definition only: one `Sleep` of the delay when there is one, nothing otherwise; stated by `SleepUntilDeadline` and `LoopStep` |
| Windows.StopImpliesDestroyed | DotSDL/Graphics/SdlWindow.cs:278-290 | handling events never restarts the loop or revives the window; a stopped window is a destroyed one |
| Windows.CloseWithoutSubscriberStops | DotSDL/Graphics/SdlWindow.cs:322-325 | without a `Closed` subscriber, a Close among the handled events stops and destroys the window |
| Windows.CloseWithSubscriberKeepsRunning | DotSDL/Graphics/SdlWindow.cs:322-325 | with a `Closed` subscriber, the window's own handling of any event sequence leaves the running and destroyed flags alone; the subscribers themselves are recorded, not run, and may still stop the window, as the sample's Escape handler does |
| Windows.LastVisibilityEventWins | DotSDL/Graphics/SdlWindow.cs:341-352 | the minimized flag is what the last Minimized or Restored event said |
| Windows.NoVisibilityEventKeepsMinimized | DotSDL/Graphics/SdlWindow.cs:278-290 | events other than Minimized and Restored leave the minimized flag alone |
| Windows.DestroyedWindowIsIdle | DotSDL/Graphics/SdlWindow.cs:171-195 | a destroyed window neither updates nor draws, and keeps its flags; a corollary of the guards in `UpdatedFlags`, `UpdateActions` and `DrawActions`, spelled out for `LoopStep` |
| Windows.SpriteCopiesDrawEachOnce | DotSDL/Graphics/SdlWindow.cs:211-233 | the k-th sprite of the draw order gets a scaling hint and one copy, at positions 2k and 2k+1 |
| Windows.SdlWindow.constructor | DotSDL/Graphics/SdlWindow.cs:135-158 | the native set-up in order (video, hidden window, renderer, requested hint, texture, nearest hint); a fresh cleared canvas of the texture size; no sprites or subscribers; not running, destroyed or minimized |
| Windows.SdlWindow.DestroyObject | DotSDL/Graphics/SdlWindow.cs:200-203 | the native window is destroyed and the window is marked destroyed |
| Windows.SdlWindow.Stop | DotSDL/Graphics/SdlWindow.cs:400-403 | the loop stops and the window is destroyed |
| Windows.SdlWindow.OnClose | DotSDL/Graphics/SdlWindow.cs:322-325 | stops and destroys without a `Closed` subscriber, otherwise only raises `Closed` |
| Windows.SdlWindow.OnMinimize | DotSDL/Graphics/SdlWindow.cs:341-344 | the window is minimized, and `Minimized` is raised if subscribed |
| Windows.SdlWindow.OnRestore | DotSDL/Graphics/SdlWindow.cs:349-352 | the window is no longer minimized, and `Restored` is raised if subscribed |
| Windows.SdlWindow.HandleKeyboardEvent | DotSDL/Graphics/SdlWindow.cs:263-272 | raises `KeyPressed` or `KeyReleased` according to the key state, if subscribed, and changes no flag |
| Windows.SdlWindow.HandleWindowEvent | DotSDL/Graphics/SdlWindow.cs:278-290 | the flags and actions follow the event's kind; other kinds are ignored |
| Windows.SdlWindow.Dispatch | DotSDL/Graphics/SdlWindow.cs:263-290 | an event reaches the handler of its type with the same effect |
| Windows.SdlWindow.BaseUpdate | DotSDL/Graphics/SdlWindow.cs:190-195 | a destroyed window does nothing; otherwise every queued event is handled in order, the queue is emptied and the user's update runs last |
| Windows.SdlWindow.CopySprites | DotSDL/Graphics/SdlWindow.cs:211-233 | copies the given sprites, each preceded by its scaling hint, in order |
| Windows.SdlWindow.DrawSprites | DotSDL/Graphics/SdlWindow.cs:210-234 | copies the shown sprites in stable z-order |
| Windows.SdlWindow.BaseDraw | DotSDL/Graphics/SdlWindow.cs:171-178 | nothing when destroyed or minimized; otherwise user draw, upload with pitch `TextureWidth * 4`, canvas copy, sprites, present |
| Windows.SdlWindow.UpdateIfDue | DotSDL/Graphics/SdlWindow.cs:301-304 | when due, the deadline moves to `ticks + rate` and the update runs; a destroyed window stays destroyed, and if a stopped window was destroyed before, it still is |
| Windows.SdlWindow.DrawIfDue | DotSDL/Graphics/SdlWindow.cs:306-309 | when due, the deadline moves to `ticks + rate` and the frame is drawn |
| Windows.SdlWindow.SleepUntilDeadline | DotSDL/Graphics/SdlWindow.cs:311-315 | sleeps the time `SleepTime` gives and records it |
| Windows.SdlWindow.LoopStep | DotSDL/Graphics/SdlWindow.cs:298-316 | one iteration: new events are queued, then update, draw and sleep happen in that order with the new deadlines; settings are unchanged |
| Windows.SdlWindow.Loop | DotSDL/Graphics/SdlWindow.cs:295-317 | the loop ends only when the window stops, and a stopped window is destroyed; each deadline is the fold of `NextDeadline` over the iterations run |
| Windows.SdlWindow.StartAtRates | DotSDL/Graphics/SdlWindow.cs:388-395 | sets both rates, runs the user's load, shows the window, then runs the loop |
| Windows.SdlWindow.StartAtRate | DotSDL/Graphics/SdlWindow.cs:379-381 | the same rate for drawing and updating |
| Windows.SdlWindow.Start | DotSDL/Graphics/SdlWindow.cs:371-373 | both rates 0 |
| SpritesBackground.StripRed | Samples/Sample.Sprites/Window.cs:29 | the red channel stays at or below 127, so the byte cast never truncates |
| SpritesBackground.StripGreen | Samples/Sample.Sprites/Window.cs:30 | the green channel stays at or below 10 |
| SpritesBackground.StripColor | Samples/Sample.Sprites/Window.cs:27-32 | definition only: strip entry i has red `StripRed(i)`, green `StripGreen` of that red, the given blue, and alpha 0 as in a fresh C# `Color`; stated by `BuildStrip` and `BackgroundAt` |
| SpritesBackground.StripRedPeriodic | Samples/Sample.Sprites/Window.cs:29 | red repeats every 511 strip entries |
| SpritesBackground.StripRedSymmetric | Samples/Sample.Sprites/Window.cs:29 | red is symmetric about entry 255, where it is 0; it is 127 at entry 0 |
| SpritesBackground.Scale80 | Samples/Sample.Sprites/Window.cs:46-48 | scaling by 0.8 never brightens a channel, and strictly darkens a non-zero one |
| SpritesBackground.Darken | Samples/Sample.Sprites/Window.cs:46-48 | alpha is kept, no channel brightens, and any colour that is not black changes |
| SpritesBackground.DarkenedRow | Samples/Sample.Sprites/Window.cs:43 | definition only: the rows the darkening loop visits, 2, 4, 6, ...; stated by `DarkenRows` |
| SpritesBackground.Shade | Samples/Sample.Sprites/Window.cs:43-50 | definition only: a pixel on a darkened row is `Darken`ed, any other keeps its colour; stated by `DarkenRows` and `AwayFromBorder` |
| SpritesBackground.VerticalColor | Samples/Sample.Sprites/Window.cs:61 | the vertical lines' dash colour is black or yellow, and yellow on the first dash |
| SpritesBackground.HorizontalColor | Samples/Sample.Sprites/Window.cs:69 | the horizontal lines' dash colour is black or yellow, and black on the first dash |
| SpritesBackground.Bordered | Samples/Sample.Sprites/Window.cs:59-75 | after k border iterations, a pixel on no line drawn so far keeps its colour, and one on a line is black or yellow |
| SpritesBackground.BorderColorsOpposite | Samples/Sample.Sprites/Window.cs:61-69 | at every position the vertical and horizontal lines use opposite colours, one black and one yellow |
| SpritesBackground.DashesAlternate | Samples/Sample.Sprites/Window.cs:61-69 | the dash colour flips every 7 pixels |
| SpritesBackground.BorderedStep | Samples/Sample.Sprites/Window.cs:59-75 | one more border iteration changes exactly the four pixels it writes, with the horizontal write winning |
| SpritesBackground.StripOffset | Samples/Sample.Sprites/Window.cs:35-38 | the strip entry a pixel reads is inside the strip of `2 * Width` entries |
| SpritesBackground.BackgroundAt | Samples/Sample.Sprites/Window.cs:25-76 | definition only: the finished pixel at index i, the strip entry at its offset, shaded on even rows, then bordered; stated by `BackgroundPhases`, `BorderFrame`, `AwayFromBorder` and `GenerateBackground` |
| SpritesBackground.BorderFrame | Samples/Sample.Sprites/Window.cs:52-75 | on a square canvas the four border lines form a closed dashed frame in the expected colours |
| SpritesBackground.AwayFromBorder | Samples/Sample.Sprites/Window.cs:34-50 | off the border lines, a pixel is strip entry `y % Width + x`, darkened on even rows from 2 |
| SpritesBackground.OffsetOfPixel | Samples/Sample.Sprites/Window.cs:35-38 | pixel (x, y) reads strip entry `y % Width + x` |
| SpritesBackground.StripsRunDiagonally | Samples/Sample.Sprites/Window.cs:35-38 | within the first `Width` rows, pixel (x, y + 1) reads the same strip entry as pixel (x + 1, y), so the strips run diagonally |
| SpritesBackground.BuildStrip | Samples/Sample.Sprites/Window.cs:27-32 | a fresh strip of `2 * Width` entries, each its strip colour |
| SpritesBackground.PaintStrips | Samples/Sample.Sprites/Window.cs:34-40 | every pixel holds the strip entry at its row offset plus its column |
| SpritesBackground.PaintRow | Samples/Sample.Sprites/Window.cs:35-39 | row y is painted and every other pixel is untouched |
| SpritesBackground.DarkenRows | Samples/Sample.Sprites/Window.cs:43-50 | pixels on rows 2, 4, 6, ... are darkened and all others are untouched |
| SpritesBackground.DarkenRow | Samples/Sample.Sprites/Window.cs:44-49 | row y is darkened and every other pixel is untouched |
| SpritesBackground.DrawBorder | Samples/Sample.Sprites/Window.cs:54-75 | every pixel ends as the border model says, given its colour before the pass |
| SpritesBackground.BorderLeavesCanvas | Samples/Sample.Sprites/Window.cs:59-66 | on a canvas wider than its height plus the margin, the loop's last vertical write lands past the end of the pixel array |
| SpritesBackground.BackgroundPhases | Samples/Sample.Sprites/Window.cs:25-76 | strip, paint, darken and border passes together leave `BackgroundAt` at every index |
| SpritesSample.BindingOf | Samples/Sample.Sprites/Window.cs:100-152 | definition only: the key map (W/S and A/D steer player 1, the arrow keys player 2, up and left being -1); stated by `PressFollowsBinding` and `ReleaseFollowsBinding`, which tie it to both handlers |
| SpritesSample.AfterPress | Samples/Sample.Sprites/Window.cs:100-130 | definition only: W/S and Up/Down set player 1's and player 2's y delta to -1/1, A/D and Left/Right their x delta; other keys change nothing; stated by the lemmas below |
| SpritesSample.AfterRelease | Samples/Sample.Sprites/Window.cs:132-152 | definition only: either key of an axis zeroes that axis's delta; other keys change nothing; stated by the lemmas below |
| SpritesSample.PressFollowsBinding | Samples/Sample.Sprites/Window.cs:100-130 | pressing a bound key sets its player's axis to the key's direction and touches nothing else; other keys change nothing |
| SpritesSample.ReleaseFollowsBinding | Samples/Sample.Sprites/Window.cs:132-152 | releasing a bound key zeroes its player's axis and touches nothing else |
| SpritesSample.ReleaseAfterPress | Samples/Sample.Sprites/Window.cs:100-152 | a release undoes the press of the same key |
| SpritesSample.AfterKeys | Samples/Sample.Sprites/Window.cs:100-152 | definition only: the deltas after the two handlers see a sequence of events in order, window events not reaching them; stated by the lemmas below |
| SpritesSample.DeltasStayUnit | Samples/Sample.Sprites/Window.cs:100-152 | from rest, every delta component stays -1, 0 or 1 under any key sequence |
| SpritesSample.OtherPlayerUntouched | Samples/Sample.Sprites/Window.cs:100-152 | keys that do not steer a player leave that player's deltas alone |
| SpritesSample.LastPressWins | Samples/Sample.Sprites/Window.cs:100-130 | after a press with no later key for the same player and axis, that component is the key's direction |
| SpritesSample.SpritesWindow.constructor | Samples/Sample.Sprites/Window.cs:12-23 | a 256 x 196 texture in a scaled window; both key handlers subscribed; a 1024 x 1024 canvas painted with `BackgroundAt`; two players, the second linear; both at rest |
| SpritesSample.SpritesWindow.GenerateBackground | Samples/Sample.Sprites/Window.cs:25-76 | every canvas pixel becomes `BackgroundAt` for the canvas size |
| SpritesSample.SpritesWindow.GeneratePlayers | Samples/Sample.Sprites/Window.cs:78-98 | appends player 1, then player 2 with linear scaling; both deltas zero |
| SpritesSample.SpritesWindow.OnKeyPressed | Samples/Sample.Sprites/Window.cs:100-130 | Escape stops and destroys the window and leaves the deltas alone; any other key changes only the deltas, as `AfterPress` says; nothing else of the window can change |
| SpritesSample.SpritesWindow.OnKeyReleased | Samples/Sample.Sprites/Window.cs:132-152 | the deltas change as `AfterRelease` says |

## Left out

- `Samples/Sample.Sprites/Player.cs` is not part of this model, and neither is the `Sprite` class. A sprite is its identity, its shown flag, its z-order and its scaling quality. Its position, scale, rotation, flip, colour and blend mode are left out, and so is the rectangle arithmetic of `RenderCopyEx` in `DrawSprites`, which uses floating point.
- `OnUpdate` in the sample (Window.cs:154-193) is left out. It moves the players, computes a clipping rectangle in floating point and formats the window title.
- The strip's blue channel is computed with `Math.Sin` in floating point. It is a parameter `blue` of the background functions.
- `GetCanvasPointer` pins the pixel array and returns a raw pointer. This is recorded as the `UploadCanvas` action. The canvas's `GetCanvasPointer` delegate is left out the same way.
- The finalizer `~SdlWindow`, resource-manager registration and `GetResourceId` are left out. They concern garbage collection and native window IDs.
- `Events.EventHandler.ProcessEvents` is not part of this model. It routes SDL's global event queue to windows by ID. Each window has its own `queue` field instead, and `Dispatch` hands each event to the right handler.
- Subscribed C# event handlers are recorded as `Raised` actions, not run. The sample's handlers are modelled as `SpritesWindow.OnKeyPressed` and `OnKeyReleased`. Their effect is proved about key sequences through `AfterKeys`.
- The sample reads the window canvas through a property `Background`. `SdlWindow.cs` as given does not declare it, so the model takes it to be the window's canvas (`_canvas`).
- The sprite copies record only the sprite. In the source they all copy from the window's own texture `_texture`.
- Windows.SdlWindow.Loop: runs over a finite sequence of iterations, where the source loops until the window stops. Its actions are stated only as an extension of the old ones. The exact actions of each iteration are stated by `LoopStep`.
- Windows.SdlWindow.StartAtRates: like `Loop`, it states only a prefix of the actions.
- Windows.SdlWindow.StartAtRate: like `Loop`, it states only a prefix of the actions.
- Windows.SdlWindow.Start: like `Loop`, it states only a prefix of the actions.
- Scheduler.NextDeadline: the contract fixes the deadline only when `ticks + rate` fits a `uint`. Past that, the body wraps modulo 2^32 as C# does, but no property is stated about wrapped deadlines.
- Scheduler.RunsSpaced: assumes no deadline wraps. Around tick 2^32 (49.7 days), the spacing does not hold in the source either.
- Windows.WindowPosUndefinedDisplay: the contract covers displays below 2^16. Larger values overlap the marker bits.
- Windows.WindowPosCenteredDisplay: the contract covers displays below 2^16. Larger values overlap the marker bits.
- Canvases.Canvas.constructor: requires positive dimensions whose product fits an `int`. The source does not check this. It allocates an empty buffer for a zero dimension and raises an overflow exception for a negative product. Neither path is modelled.
- Canvases.Canvas.Clipped: the same precondition as the constructor.
- Windows.SdlWindow.constructor: the same precondition on the texture size, which is handed to the canvas.
- SpritesBackground.DrawBorder: requires `Width <= Height + 4`, or a canvas at most 8 pixels wide, where the loop does not run. The source indexes rows by the column counter, and its comment says it assumes a square canvas. On a canvas wider than `Height + 4` with more than 8 columns, the last vertical write falls outside the pixel array, as `BorderLeavesCanvas` shows, and the source raises an index exception there. That path is not modelled.
- Canvases.Canvas.SetWidth and SetHeight return `Err` where the source throws `ArgumentException`. Both also refuse an overflowing pixel count, as described under Findings.

## Findings

| source | as written | input that shows it | evidently intended | confidence | as-written member | corrected member |
|---|---|---|---|---|---|---|
| DotSDL/Graphics/Canvas.cs:198 | the buffer is allocated with `Width * Height` in unchecked 32-bit arithmetic; the `Width` and `Height` setters check only that each value is positive | set `Width = 65536`, then `Height = 65537`: the product wraps to 65536, so the buffer has 65536 pixels instead of 4295032832, and `GetIndex` of most pixels falls outside it | refuse dimensions whose product does not fit an `int`, so that `Pixels.Length == Width * Height` always holds | not executed | Canvases.PixelCountWrapsSilently | Canvases.CheckedPixelCount |
