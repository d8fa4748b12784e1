# Projectile visualiser: a verified model of its controller

The program is a pygame window that shows a ball launched from a chosen height.
Four sliders set the launch speed, the start height, a time scale and the launch
angle. Space launches the ball and R resets. Two checkboxes switch on the force
and velocity arrows. This project models the part of the main loop that has
state and logic, in Dafny:

- `Geometry`: the metre-to-pixel transform `phys_to_pixel`, with Python's `int()`
  written out as truncation toward zero.
- `Slider`: the four slider tracks. It covers the handle position drawn for a
  value, the value a drag to a pointer column selects (clamped to the track),
  and the grab test around a handle.
- `Physics`: simulated time from the wall clock, the closed-form position and
  vertical velocity, and the stop four metres below the reference level.
- `Controls`: the effect of pointer events on the parameters, the four drag
  flags and the two checkboxes, as pure functions.
- `Trail`: the trail points and the line segments painted between them onto
  the persistent trail raster.
- `Lifecycle`: the whole controller state as a value. It defines one function
  per event kind, one for an event batch and one for a frame's update, and
  proves the invariant they keep and what a flight does.
- `Simulation`: the loop's global variables as the fields of one `Simulator`
  object. Each event handler, the frame update and the event loop is a method
  that changes those fields in place. Each method is proved to perform exactly
  the transition `Lifecycle` defines. The event handlers, `Frame`,
  `ProcessEvents` and `Tick` are also proved to keep the invariant.

Python floats are modelled as exact reals. `math.cos` and `math.sin` of the
angle are supplied by the caller: `Lifecycle.Step`, `Lifecycle.Run` and the methods
`Simulator.HandleEvent`, `Simulator.ProcessEvents` and `Simulator.Tick` take a
`direction` function; `Simulator.PressKey` and `Simulator.Launch` take the one
`Direction` of the current angle. The function must give a unit vector in the first quadrant
for every angle the slider allows. Clock readings (`pygame.time.get_ticks`)
are parameters.

Some behaviour of the code is easy to misread, and the model keeps it as
written:

- A press grabs a slider handle during a flight as well. Only the motion that
  changes the value is ignored while the ball is running (`Controls.Press`,
  `Controls.Motion`).
- Height and time scale are read live each frame, not from a copy taken at
  launch. No event changes a parameter during a flight: Space is ignored then,
  R ends the flight, and pointer moves are gated. So the flight still uses the
  launch values (`Lifecycle.ParamsFixedInFlight`).
- After the ball reaches the stop level, the next frame draws it back at its
  start position. It does not stay where it landed
  (`Lifecycle.FramesAfterLanding`).
- A launch clears the trail points but not the raster. Earlier flights stay
  painted until R is pressed (`Lifecycle.Launch`).
- `Press` keeps flags that are already set. Two left presses without a release
  in between can therefore leave two drag flags set. From a state with no drag,
  a press sets at most one flag (`Controls.PressGrabsHandleUnderPointer`).
- A resting ball at height -4 m cannot occur: the height slider's range is
  [-2.5, 4].

## Model

| member | source | states |
|---|---|---|
| Geometry.Trunc | main.py:99 | `int()` of a float: the integer part, rounded toward zero, within one of the argument on the side of zero |
| Geometry.TruncMonotone | main.py:99 | truncation preserves order |
| Geometry.TruncOfInt | main.py:99 | truncation leaves a whole number unchanged |
| Geometry.PhysToPixel | main.py:95-99 | each coordinate is within one pixel of `start_x_px + x*SCALE`, `ground_y_px - h*SCALE` and no further from zero: `int()` rounds toward zero, also for rows above the window |
| Geometry.PhysToPixelMonotone | main.py:95-99 | further right is never drawn further left; higher is never drawn lower |
| Geometry.PhysToPixelOnGrid | main.py:95-99 | whole-centimetre positions map exactly to `(50 + cx, 500 - ch)` |
| Slider.SlidersWellFormed | main.py:57-79 | each slider's minimum is below its maximum |
| Slider.ClampToTrack | main.py:195 | the pointer column pulled onto `[x, x + slider_w]`, unchanged when already on it |
| Slider.Ratio | main.py:196 | the ratio is in [0, 1] and `ratio * slider_w` is the clamped offset along the track |
| Slider.Lerp | main.py:197 | `min + ratio*(max - min)` lies in `[min, max]`; ratio 0 gives min, ratio 1 gives max |
| Slider.ValueAt | main.py:194-209 | a drag always selects a value within the slider's range |
| Slider.ValueAtEnds | main.py:195-197 | a pointer left of the track selects the minimum; right of its end, the maximum |
| Slider.ValueAtMonotone | main.py:195-197 | moving the pointer right never lowers the value |
| Slider.RatioMonotone | main.py:195-196 | the track ratio grows with the pointer column |
| Slider.LerpMonotone | main.py:197 | the interpolated value grows with the ratio |
| Slider.LerpFraction | main.py:197 | the fraction of the range a dragged value sits at is the ratio that selected it |
| Slider.Fraction | main.py:106 | `(value - min)/(max - min)` times the range gives back the offset; in [0, 1] for a value in range |
| Slider.HandleX | main.py:106 | the handle's offset along the track is proportional to the value's offset in the range; a value in range is drawn on the track |
| Slider.HitsHandle | main.py:174-181 | a press grabs a handle exactly when it lies strictly inside the 30 px square centred on the handle and the track's middle row |
| Slider.ValueAtHandle | main.py:170-173 | the handle of an in-range value is drawn on the track, and a drag to that column selects the value again |
| Slider.HandleAtValue | main.py:195-197 | after a drag, the handle is drawn at the clamped pointer column |
| Slider.HandlesNeverOverlap | main.py:174-181 | no press is within 15 px of the handles of two different sliders |
| Slider.HitColumnBound | main.py:174-181 | a press that grabs an in-range handle is strictly within 15 px of the track horizontally |
| Physics.Elapsed | main.py:233-235 | simulated time is never negative; it is `(now - start)*t_s` once the clock has passed the start, and zero before it |
| Physics.Evaluate | main.py:242-248 | `x = vx*t`; landed exactly when `h0 + vy*t - g*t²/2 <= -4`, and then the height is held at -4; otherwise the formula's height |
| Physics.AtLaunch | main.py:238-243 | at t = 0 the ball is at `(0, h0)` with the launch vertical velocity |
| Physics.XStrictlyIncreasing | main.py:242 | with a positive horizontal velocity, x strictly grows with time |
| Physics.HeightDifference | main.py:239-243 | `vy - g*t` is the derivative of the height: a height difference equals the velocity at the interval's midpoint times its length |
| Physics.HeightBelowApex | main.py:243 | no height exceeds `h0 + vy²/(2g)`, which is reached at `t = vy/g` |
| Physics.LandedByEight | main.py:243-248 | for start heights up to 4 m and vertical speeds up to 30 m/s, the ball has reached -4 m by t = 8 s |
| Physics.ElapsedMonotone | main.py:233-235 | simulated time never runs backwards as the clock advances |
| Physics.ElapsedAtLeast | main.py:233-235 | `w` wall-clock seconds after launch, at least `w*t_s` simulated seconds have passed |
| Controls.Motion | main.py:192-209 | a move changes only the first dragged slider's parameter, to the value under the pointer, and nothing while running |
| Controls.MotionKeepsRange | main.py:192-209 | a move keeps every parameter within its slider's range |
| Controls.MotionChangesAtMostOne | main.py:194-209 | a move changes at most one parameter |
| Controls.Press | main.py:166-181 | a left press sets the flag of the first slider, in the order speed, height, time, angle, whose handle is hit; flags already set stay set; at most one flag is added |
| Controls.PressGrabsHandleUnderPointer | main.py:170-181 | from no drag, each flag is set exactly when its own handle is under the press, so at most one is set |
| Controls.Click | main.py:213-220 | each checkbox is flipped exactly when the press lies inside it |
| Controls.ClickTwiceRestores | main.py:213-220 | two presses at the same point restore both checkboxes |
| Controls.ClickFlipsAtMostOne | main.py:213-220 | no press flips both checkboxes |
| Controls.BoxesAwayFromHandles | main.py:166-220 | a press inside a checkbox never grabs a slider handle |
| Trail.Segments | main.py:259-261 | one segment per pair of consecutive trail points, in order |
| Trail.SegmentsSnoc | main.py:259-261 | appending a point adds exactly the segment from the previous last point, if there was one |
| Trail.PaintKeepsSuffix | main.py:259-261 | painting each new segment keeps the raster ending with the segments of the current trail |
| Lifecycle.InitialValid | main.py:26-91 | the start-up state satisfies the controller invariant |
| Lifecycle.StopRowBound | main.py:246-250 | a height at or above -4 m is drawn at or above row 900, and -4 m exactly on it |
| Lifecycle.Launch | main.py:141-151 | Space sets running and fired, records the start time and clears the trail points but not the raster; the velocity components are `speed*cos` and `speed*sin` of the angle, so their magnitude is the slider speed and each lies in [0, speed] |
| Lifecycle.Reset | main.py:157-162 | R clears running, fired, the trail and the raster, and keeps the sliders and checkboxes |
| Lifecycle.OnKey | main.py:141-162 | Space launches only when not running; R resets in any phase; other keys change nothing |
| Lifecycle.OnMouseDown | main.py:166-220 | a press changes only the drag flags and the checkboxes; a left press sets the flags as `Press`, other buttons leave them; every button toggles the checkboxes as `Click`; from no drag at most one flag is set |
| Lifecycle.OnMouseUp | main.py:184-189 | a left release clears every drag flag, wherever the pointer is; other buttons change nothing |
| Lifecycle.OnMouseMotion | main.py:192-209 | a move sets the parameters to `Motion` of the pointer column and changes nothing else; nothing changes while running; the parameters stay in range |
| Lifecycle.Frame | main.py:229-266 | a frame never starts a flight. While running, it uses simulated time `max(0, (now - start)*t_s)`. The flight goes on exactly while `h0 + vy*t - g*t²/2 > -4`, and the ball is drawn at `phys_to_pixel(vx*t, max(h, -4))`, on row 900 when it lands. The frame appends that point to the trail and paints the line to it. When idle, it only moves the ball to `phys_to_pixel(0, h0)` |
| Lifecycle.Advance | main.py:229-261 | a running frame: the ball, the velocity and the running flag follow the flight at `now`, as in `Frame`; exactly the new ball position is appended to the trail, and the line to it is painted; nothing else changes |
| Lifecycle.Move | main.py:232-250 | the flight at `now`: running exactly while above -4 m, ball at the clamped position, velocity `(vx, vy - g*t)`; nothing else changes; a frame that ends the flight draws the ball on the stop row |
| Lifecycle.Record | main.py:259-261 | the ball is appended to the trail points, and the line from the previous last point, if any, is painted onto the raster |
| Lifecycle.Step | main.py:132-220 | an event other than a key press changes only the drag flags, checkboxes and parameters, and no parameter during a flight; QUIT and other events change nothing |
| Lifecycle.Run | main.py:132-137 | a batch is reported as ending the program exactly when it contains a QUIT |
| Lifecycle.LaunchValid | main.py:141-151 | a launch keeps the controller invariant |
| Lifecycle.StepValid | main.py:132-220 | every event keeps the controller invariant |
| Lifecycle.FrameValid | main.py:229-266 | every frame keeps the invariant: the trail stays right of the launch column and above row 900, ends on row 900 after a landing, and its segments are the end of the raster |
| Lifecycle.ParamsFixedInFlight | main.py:141-209 | while a flight is running, no event of any kind changes a launch parameter |
| Lifecycle.RunValid | main.py:132-220 | every event batch keeps the controller invariant |
| Lifecycle.RunWithoutKeys | main.py:132-220 | a batch without key presses never starts or ends a flight and leaves the trail and the raster alone; during a flight it changes no parameter |
| Lifecycle.FlightEndsBy80Seconds | main.py:229-248 | every flight the sliders allow is over at the first frame 80 wall-clock seconds after launch |
| Lifecycle.FramesAfterLanding | main.py:229-266 | after the landing frame, frames add no trail point and draw the ball back at its start position |
| Simulation.Simulator.constructor | main.py:26-91 | the initial values of the globals, as `Lifecycle.Initial` |
| Simulation.Simulator.PressKey | main.py:141-162 | updates the fields exactly as `Lifecycle.OnKey` and keeps the invariant |
| Simulation.Simulator.Launch | main.py:141-151 | updates the fields exactly as `Lifecycle.Launch` |
| Simulation.Simulator.Reset | main.py:157-162 | updates the fields exactly as `Lifecycle.Reset` |
| Simulation.Simulator.PressButton | main.py:166-220 | updates the fields exactly as `Lifecycle.OnMouseDown` and keeps the invariant |
| Simulation.Simulator.ReleaseButton | main.py:184-189 | updates the fields exactly as `Lifecycle.OnMouseUp` and keeps the invariant |
| Simulation.Simulator.MovePointer | main.py:192-209 | updates the fields exactly as `Lifecycle.OnMouseMotion` and keeps the invariant |
| Simulation.Simulator.HandleEvent | main.py:140-220 | one non-QUIT event, as `Lifecycle.Step` |
| Simulation.Simulator.ProcessEvents | main.py:132-137 | the event loop handles the events in order up to the first QUIT, as `Lifecycle.Run`, and keeps the invariant |
| Simulation.Simulator.Frame | main.py:229-266 | updates the fields exactly as `Lifecycle.Frame` and keeps the invariant |
| Simulation.Simulator.Advance | main.py:229-261 | the running branch of a frame, as `Lifecycle.Advance` |
| Simulation.Simulator.Move | main.py:232-251 | evaluates the flight at the frame time, as `Lifecycle.Move` |
| Simulation.Simulator.Record | main.py:259-261 | appends the ball to the trail and paints the segment to it, as `Lifecycle.Record` |
| Simulation.Simulator.Tick | main.py:127-266 | one loop iteration: the event batch, then the frame unless a QUIT ended the program |

## Left out

- Drawing is not modelled (main.py:103-123 and 223-345): the screen fill, the sprite, the sliders, labels, checkboxes, `draw_arrow` and the force and velocity arrows. Only the ball position and the trail raster's contents are modelled.
- Image and font loading and `pygame.init` are not modelled; they do not affect the state.
- `clock.tick(60)` and its unused `dt` are not modelled, because frame pacing is timing rather than state.
- `pygame.time.get_ticks()` is not modelled. The clock readings are parameters: one for a whole event batch and one for the frame.
- `math.radians`, `math.cos` and `math.sin` are not modelled. The caller supplies cosine and sine as `direction`, required to be a first-quadrant unit vector for angles in [0, 90]. The `'angle_deg' in globals()` test is always true, so the angle slider's value is always used.
- Floating-point rounding is not modelled; floats are exact reals.
- `v_total`, `angle_v_total` and `v_y` (main.py:254-255, 266) are not modelled, because nothing in the core reads them.
- The effect of `pygame.quit()` and `exit()` on QUIT is not modelled. A QUIT stops the event batch, and `Tick` reports that the program ended.
- The trail raster is modelled as the sequence of segments painted on it. Line colour, width and pixels are not modelled.
- The pointer's y on a motion event is not modelled, because the source never uses it.
- Lifecycle.Launch: the magnitude and range of the velocity components are stated only for a direction that is a first-quadrant unit vector, because the source's trigonometry produces no other direction for the slider's angles.
