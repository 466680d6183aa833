# Mandelbrot demo (libopencm3, STM32F4): a Dafny model

The demo draws an escape-time Mandelbrot field over a fixed 120 x 100 grid,
again and again, zooming in a little each frame. It blinks an LED every so
many frames and reports each frame's duration over USART3. This project
models the integer logic of that loop and proves what it guarantees:

- `field.dfy`, module `Field`: the escape-time loop `iterate` and the grid
  traversal `mandel`. The float arithmetic becomes exact `real` arithmetic.
  The return convention of `iterate` is proved from the loop structure
  alone: the result lies in 0..31 and so indexes the 33-entry `color` table.
  0 means "no escape within 32 steps". Any other result is the first step
  whose orbit point left the radius-2 disc. `mandel` calls `iterate` at
  exactly the 120 x 100 grid points, x outer and y inner.
- `report.dfy`, module `Report`: `ascii` (a byte as three decimal digits),
  the 17-byte timing line built from it, and a reader for that line. The
  reader inverts the writer in both directions.
- `mainloop.dfy`, module `MainLoop`: one pass of the `while (1)` loop in
  `main` as the class `Demo` with the method `Step(timeNow)`. Beside it are
  the blink counter as a step function with its 1002-frame schedule, and the
  monotonicity guard on `time_past` as a step function. Lemmas about runs of
  frames show that `time_past` is the running maximum of the timer reads and
  that the values read back from the lines sent add up to its advance.

Hardware calls are reduced to what the loop sees of them:

- `usart_send_blocking` appends a byte to `Demo.out`.
- `gpio_toggle` flips `Demo.led`.
- `timer_get_counter` is the parameter `timeNow` of `Step`.

Facts about the code that the lemmas pin down:

- `iterate` returns values in 0..31.
- A point with px*px + py*py > 4 yields 1, because the check at `it == 0`
  sees z = 0, which never escapes (`Field.ImmediateEscapeIsOne`).
- The test `cnt++ > 1000` sees the value before the increment, so `cnt`
  runs through 0..1001. The LED first toggles in frame 1002 and then every
  1002 frames (`MainLoop.FirstToggle`, `MainLoop.BlinkSchedule`).
- Each timing group is three digits, `000`..`255`.

## Model

| member | source | states |
|---|---|---|
| `Field.Orbit` | examples/stm32/f4/krooz/mandelbrot/mandel.c:85-96 | the point (x, y) after n updates from 0; the first update lands on c = (px, py) |
| `Field.Escaped` | examples/stm32/f4/krooz/mandelbrot/mandel.c:89-91 | the escape test on the squared parts, `nx + ny > 4`; the starting point 0 never passes it |
| `Field.EscapeFrom` | examples/stm32/f4/krooz/mandelbrot/mandel.c:87-98 | the loop from step k on returns a value below maxIter; it is 0 or a step at or after k whose orbit point has escaped |
| `Field.EscapeTime` | examples/stm32/f4/krooz/mandelbrot/mandel.c:78-99 | the escape time is a valid index into the 33-entry `color` table |
| `Field.EscapeFromIsFirst` | examples/stm32/f4/krooz/mandelbrot/mandel.c:87-97 | no orbit point before the returned step (before maxIter when 0 is returned) has escaped |
| `Field.EscapeTimeMeaning` | examples/stm32/f4/krooz/mandelbrot/mandel.c:85-98 | 0 is returned exactly when no escape happens within 32 steps; any other result r is the first escaping step, so an escape is never reported as 0 |
| `Field.NoEscapeFrom` | examples/stm32/f4/krooz/mandelbrot/mandel.c:87-98 | when no orbit point from step k to maxIter-1 passes the test, the loop falls through to `return 0` |
| `Field.ImmediateEscapeIsOne` | examples/stm32/f4/krooz/mandelbrot/mandel.c:85-96 | a point with px*px + py*py > 4 is reported as 1, the earliest possible escape |
| `Field.OriginOrbit` | examples/stm32/f4/krooz/mandelbrot/mandel.c:86-95 | the orbit of c = 0 stays at 0 |
| `Field.OriginIsZero` | examples/stm32/f4/krooz/mandelbrot/mandel.c:85-98 | `iterate(0, 0)` returns 0 |
| `Field.Cell` | examples/stm32/f4/krooz/mandelbrot/mandel.c:108 | the value computed at a grid point indexes the `color` table in bounds |
| `Field.Iterate` | examples/stm32/f4/krooz/mandelbrot/mandel.c:83-99 | the loop returns the reference escape time, a value in 0..maxIter-1 |
| `Field.Mandel` | examples/stm32/f4/krooz/mandelbrot/mandel.c:101-114 | exactly 120 x 100 calls of `iterate`, row i at x = i-60 and column j at y = j-50, each result the escape time at (cX + x*scale, cY + y*scale) and a valid `color` index |
| `Field.Square` | examples/stm32/f4/krooz/mandelbrot/mandel.c:89-95 | one update of x and y from nx = x*x and ny = y*y; from z = 0 it lands on c = (px, py) |
| `Report.Ascii` | examples/stm32/f4/krooz/mandelbrot/mandel.c:116-125 | three characters, each an ASCII digit, hundreds digit at most '2'; read as hundreds, tens and ones they give back the byte |
| `Report.AsciiOfGroup` | examples/stm32/f4/krooz/mandelbrot/mandel.c:116-125 | every three-digit group of value at most 255 is what `ascii` sends for that value |
| `Report.AsciiInjective` | examples/stm32/f4/krooz/mandelbrot/mandel.c:116-125 | distinct bytes are sent as distinct digit groups |
| `Report.ByteOf` | examples/stm32/f4/krooz/mandelbrot/mandel.c:157-160 | byte k of the delta, `(time >> 8k) & 0xFF`, for k = 3, 2, 1, 0 |
| `Report.FormatReport` | examples/stm32/f4/krooz/mandelbrot/mandel.c:157-162 | the timing line is 17 bytes: four digit groups, a space after each of the first three, then CR LF |
| `Report.ParseReport` | examples/stm32/f4/krooz/mandelbrot/mandel.c:157-162 | the reader of timing lines yields a value below 2^32 |
| `Report.Join` | examples/stm32/f4/krooz/mandelbrot/mandel.c:157-160 | four bytes, most significant first, make a 32-bit value |
| `Report.JoinBytes` | examples/stm32/f4/krooz/mandelbrot/mandel.c:157-160 | the bytes `(time>>24)&0xFF` .. `time&0xFF` joined back give `time & 0xFFFFFFFF` |
| `Report.BytesOfJoin` | examples/stm32/f4/krooz/mandelbrot/mandel.c:157-160 | the shifted and masked bytes of a joined value are the bytes it was joined from |
| `Report.ReportRoundTrip` | examples/stm32/f4/krooz/mandelbrot/mandel.c:155-162 | reading the line sent for a delta gives back `delta & 0xFFFFFFFF` |
| `Report.ParsedReportIsFormatted` | examples/stm32/f4/krooz/mandelbrot/mandel.c:157-162 | every line the reader accepts is exactly the line sent for the value it reads |
| `MainLoop.BlinkStep` | examples/stm32/f4/krooz/mandelbrot/mandel.c:140-144 | after a frame `cnt` is in 0..1001; the LED toggles exactly when the pre-increment value exceeds 1000, and exactly when `cnt` is then 0 |
| `MainLoop.BlinkSchedule` | examples/stm32/f4/krooz/mandelbrot/mandel.c:131-144 | from `cnt = 0`, after n frames `cnt` is n mod 1002 and the LED has toggled n div 1002 times |
| `MainLoop.ToggleFrames` | examples/stm32/f4/krooz/mandelbrot/mandel.c:140-144 | frame n+1 toggles the LED exactly when n+1 is a multiple of 1002 |
| `MainLoop.FirstToggle` | examples/stm32/f4/krooz/mandelbrot/mandel.c:140-144 | no toggle in the first 1001 frames, one toggle after 1002 |
| `MainLoop.TimingStep` | examples/stm32/f4/krooz/mandelbrot/mandel.c:152-163 | a line is sent exactly when `time_now > time_past`; then `time_past` becomes `time_now` and the line reads back as the delta mod 2^32; otherwise nothing is sent and `time_past` is unchanged; `time_past` never decreases |
| `MainLoop.ReportIsDelta` | examples/stm32/f4/krooz/mandelbrot/mandel.c:130-162 | for timer values that fit a `long`, a line is sent and reads back as the delta itself |
| `MainLoop.PastIsRunningMax` | examples/stm32/f4/krooz/mandelbrot/mandel.c:152-156 | over a run of frames `time_past` never decreases, is at least every value read, and is its start value or one of the values read |
| `MainLoop.ReportedIsAdvance` | examples/stm32/f4/krooz/mandelbrot/mandel.c:152-156 | the steps `time_past` takes in the frames of a run add up to its total advance |
| `MainLoop.ReceivedIsAdvance` | examples/stm32/f4/krooz/mandelbrot/mandel.c:152-162 | for timer values that fit a `long`, the values a receiver reads from the lines sent during a run add up to the advance of `time_past`, so every tick up to the last report is reported exactly once |
| `MainLoop.Demo.constructor` | examples/stm32/f4/krooz/mandelbrot/mandel.c:129-131 | the loop starts with `cnt`, `time_past` zero and nothing sent |
| `MainLoop.Demo.Send` | examples/stm32/f4/krooz/mandelbrot/mandel.c:120 | `usart_send_blocking` appends one byte after everything sent before and changes nothing else |
| `MainLoop.Demo.SendAscii` | examples/stm32/f4/krooz/mandelbrot/mandel.c:116-125 | sending a byte as digits appends exactly `Ascii(b)` to the output |
| `MainLoop.Demo.SendReport` | examples/stm32/f4/krooz/mandelbrot/mandel.c:157-162 | the sends of lines 157-162 append exactly the timing line for the delta |
| `MainLoop.Demo.Step` | examples/stm32/f4/krooz/mandelbrot/mandel.c:138-163 | one pass keeps `cnt` in 0..1001, updates `cnt` and the LED by the blink step, `time_past` by the guard, and appends the guard's line (or nothing) to the output |

## Left out

- `clock_setup`, `gpio_setup`, `usart_setup` and `timer_setup` (lines 27-75) only configure registers through library calls. The libopencm3 library is not part of this model.
- The view recurrence `centerX += 0.175f*scale`, `centerY += 0.522f*scale`, `scale *= 0.875f` (lines 148-150) is floating-point numerics, so it is not modelled. For the same reason `Demo.Step` does not call `mandel`: the call changes no state the model keeps, and `Field.Mandel` models it on its own.
- Field.Iterate: single-precision rounding is not modelled. The arithmetic is exact `real`, so the escape times are those of exact arithmetic. The bounds and the return convention proved here do not depend on the arithmetic.
- Field.Mandel: the grid points are computed in exact `real` arithmetic too; the traversal and the call count do not depend on it.
- Field.Mandel: the C program discards each result of `iterate`. The model returns them, with a count of the calls, so that the contract can speak about them.
- The `while (1)` loop itself is not a method. One pass is `Demo.Step`, and the pure functions over sequences of timer reads and frame counts state what holds across passes.
- The commented-out glyph output (lines 109-112, 165-166) does not run. Only the fact that `color[i]` would be in bounds is kept (`Field.EscapeTime`, `Field.Mandel`).
- Report.Ascii: `char` is taken to be unsigned, as on ARM EABI, so its argument is 0..255. With a signed `char` the values 128..255 would print differently.
- MainLoop.TimingStep: timer values are non-negative unbounded integers. The conversion of a 32-bit counter value of 2^31 or more into a `long` is not modelled. `MainLoop.ReportIsDelta` covers the values a `long` holds.
- The local `time` of `main` is only read in the branch that assigns it, so it is a local of `Demo.Step`.
- The LED's level before the first toggle is not set by the C program. The model starts it at `false`.
