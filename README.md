# Hand-tracked creatures, vines and a generative piano — a Dafny model

This project models the logic core of `sketch.js`. That is an interactive p5.js
sketch in which every hand the camera tracks gets a glowing creature. A
creature idles and wanders when no hand is seen. A closed fist (thumb tip near
index tip) inverts the scene and switches the soundtrack from a polyrhythmic
piano to a pulsing bass. Decorative vines grow in from the canvas edges and
fade, and a mosaic of the video frame forms the background.

What is modelled, module by module:

- `Options`: an `Option` type for JavaScript's `null`/`undefined`.
- `Geometry`: the part of p5's 2D vectors the core uses (`lerp`, `map`, squared `dist`).
- `Hands`: `parseHand`, the fist rule and `mapHandToCanvas`.
- `Creatures`: a creature's fields as a value (`CreatureState`) and its update
  as a function (`Step`). `Dispatch` is the update `manageCreatures` gives
  creature *i*. The class `Creature` holds the same fields; its methods
  `Update`, `Dispose` and `StartAudio` are proved against those functions.
- `Vines`: an `EdgeVine` as a class (`Update`, `IsDead`, constructor) and its
  update as the function `Advance` on `VineState`. Also here: the spawn gate,
  the bounded trail queue and the life span.
- `Music`: `MusicManager` as a class whose `notes` are an array and whose calls
  into the synthesis library are a command `log`. Its methods are proved
  against the functions `Advance`, `Plays` and `NegativeCommands`. Lemmas then
  prove mode exclusivity and the timing window of every voice.
- `Scene`: the sketch's global state as the class `Sketch`, with these methods:
  - `ManageCreatures`, split into the loops `Grow`, `Shrink` and `DispatchAll`.
  - `MousePressed`.
  - The vine loop of `draw`: `SpawnVine` and `UpdateVines`.
  - `Draw`, which runs one frame in the sketch's order: `VineLayer`, then
    `CreaturesAndMusic` (the fist signal, `CreatureLayer`, `StepMusic`).

  The reverse splice loop is proved to keep exactly the survivors (`Survivors`),
  in their order.
- `Mosaic`: `drawCircleMosaic`'s crop window, the sampling and index
  arithmetic, and the dots it draws, as a method over the RGBA pixel array.
- `Tentacles`: `Tentacle.update` as an in-place method over its 20 points. The
  spacing rule and its exception are lemmas.

The model is shaped by these choices:

- Randomness, noise, sines and the steered vine velocity are parameters.
  `Scene.FrameInput` bundles what one frame reads from outside.
- A jitter drawn by `random(-2, 2)` is any real number in [-2, 2).
- Euclidean distances are compared through their squares, because Dafny has
  no square root.
- All numbers are mathematical reals and integers, not IEEE doubles.

## Model

| member | source | states |
|---|---|---|
| Geometry.Lerp | sketch.js:373 | p5's lerp: factor 0 gives the start, factor 1 gives the target, and equal endpoints give that point |
| Geometry.MapRange | sketch.js:142-143 | p5's `map(v, 0, span, lo, lo + len)`, shared by the mosaic and by `mapHandToCanvas` (sketch.js:511-512): 0 goes to lo, span to lo + len, and [0, span] lands inside [lo, lo + len] |
| Geometry.DistSq | sketch.js:322 | the squared distance `dist` compares, never negative |
| Hands.ParseHand | sketch.js:501-507 | null exactly when the hand or its keypoints are missing; otherwise the palm is keypoint 9 and tip k is keypoint 4(k+1), i.e. 4, 8, 12, 16, 20 in order |
| Hands.FistIffCloserThan35 | sketch.js:322-323 | for d the thumb–index distance, the squared-distance rule `IsFist` that the dispatch uses holds exactly when d < 35; a distance of exactly 35 is not a fist |
| Hands.VideoWidth | sketch.js:509 | the divisor is positive; it is the capture's width when that is positive (otherwise 320) |
| Hands.VideoHeight | sketch.js:510 | the divisor is positive; it is the capture's height when that is positive (otherwise 240) |
| Hands.MapHandToCanvas | sketch.js:508-514 | a point inside the video frame lands inside the canvas |
| Creatures.Initial | sketch.js:333-341 | a new creature is idle, not a fist, and sits at the canvas centre with prevPos equal to pos; its voice runs exactly when audio has started; no updates, no disposal |
| Creatures.WanderTarget | sketch.js:359-362 | the idle target samples the noise field at frame·0.002 plus the creature's offset (and 100 more for y); since noise lies in [0, 1], the target lies on the canvas |
| Creatures.Step | sketch.js:343-379 | the update's effects: see the expanded entry after this table |
| Creatures.TargetCount | sketch.js:303-304 | the reconciliation target is at least 1 and at least the number of hands; it equals the number of hands unless there are none |
| Creatures.Dispatch | sketch.js:312-327 | the update manageCreatures gives creature i: `update(null, false)` with no hands, `update(hand, fist)` when hand i exists and parses, nothing otherwise; it never starts, stops or disposes a voice nor changes the noise offset (its cases are the lemmas below) |
| Creatures.IdleDispatch | sketch.js:314-315 | with no hand tracked a creature becomes idle and not a fist; its voice receives velocity 0 and fist false if audio has started, and nothing otherwise |
| Creatures.HandDispatch | sketch.js:316-326 | with hands tracked, creature i is updated exactly when hands[i] exists and has keypoints; it is then active, and a fist iff its thumb and index tips are closer than 35; otherwise its state is unchanged |
| Creatures.Creature.constructor | sketch.js:333-341 | the new object's fields are `Initial` |
| Creatures.Creature.Update | sketch.js:343-379 | the fields afterwards are `Step` of the fields before |
| Creatures.Creature.Dispose | sketch.js:290-295 | the voice's wind and pulse sources are stopped and released: afterwards they do not run, and the disposal count grows by 1; no other field changes |
| Creatures.Creature.StartAudio | sketch.js:495-498 | the voice's sources run afterwards; no other field changes |
| Vines.SpawnGate | sketch.js:63 | a vine may spawn only on every 6th frame and only while fewer than 150 live, so a spawn never takes the count above 150 |
| Vines.SpawnMotion | sketch.js:467-472 | for each of the four edges the vine starts 10 outside that edge, with a velocity along the edge's normal pointing into the canvas |
| Vines.BoundedPush | sketch.js:476-477 | the trail stays within maxLen, never shrinks, and grows by at most one point |
| Vines.BoundedPushContents | sketch.js:476-477 | the trail is the old trail plus the new point, less its oldest point exactly when it would exceed maxLen; the new point is last |
| Vines.Advance | sketch.js:475-482 | an update loses 1.5 life, keeps the trail within maxLen, and moves the vine by its new velocity |
| Vines.AdvanceRecordsPosition | sketch.js:476-477 | after an update the trail ends in the pre-move position, and at most the oldest point was shifted out |
| Vines.Grown | sketch.js:475-476 | after n updates the life is the starting life minus 1.5·n, and the trail is still within maxLen |
| Vines.DeadFrom171stUpdate | sketch.js:473-487 | a vine spawned with life 255 is dead exactly from its 171st update on |
| Vines.GrownTrailLength | sketch.js:473-477 | from the empty trail, n updates leave min(n, ⌊maxLen⌋) points |
| Vines.EdgeVine.constructor | sketch.js:467-474 | a new vine has its edge's start motion, an empty trail, its maxLen and life 255 |
| Vines.EdgeVine.Update | sketch.js:475-482 | the fields afterwards are `Advance` of the fields before; the trail bound is kept |
| Vines.EdgeVine.IsDead | sketch.js:487 | dead exactly when life < 0 |
| Music.Step | sketch.js:244-252 | one timer step: see the expanded entry after this table |
| Music.AdvanceNote | sketch.js:243-253 | a voice keeps its pitch and interval through a normal frame, and its timer stays in range |
| Music.Advance | sketch.js:243-253 | a normal frame keeps the number of voices and each voice's pitch and interval, and keeps every timer in range |
| Music.AdvanceKeepsVoices | sketch.js:178-189 | the sequencer's invariant survives a normal frame: five voices with their C3–D4 pitches, their intervals 240/150/90/192/110, and timers in range |
| Music.Plays | sketch.js:243-253 | the notes the first n voices play in a normal frame, at most n of them (what they are, their order and once per voice are the three lemmas that follow) |
| Music.PlaysOnlyNotes | sketch.js:248-251 | the sequencer loop sends nothing but note plays, and only for the voices it has visited |
| Music.PlaysInVoiceOrder | sketch.js:243-253 | the notes of a frame come in strictly increasing voice order, as the loop visits the voices |
| Music.PlaysAtMostOncePerVoice | sketch.js:243-253 | no voice plays more than one note in a frame |
| Music.PlaysExactlyFired | sketch.js:248-251 | voice v plays in a normal frame exactly when its timer step fires |
| Music.PulseLevel | sketch.js:232 | the fist-mode bass level 0.2 + 0.1·sin lies in [0.1, 0.3] |
| Music.NegativeCommands | sketch.js:229-235 | the fist branch's commands in source order: the five piano fades to 0 over 0.5 s, the pulsing bass level, the wobbling bass frequency (their meaning is `Music.NegativeMode`) |
| Music.NegativeMode | sketch.js:226-235 | a fist frame sets every piano voice's level to 0 (all five are silenced), sets the bass level within [0.1, 0.3], and plays no note |
| Music.NormalMode | sketch.js:237-253 | a normal frame fades the bass to 0 and touches no piano level and no bass frequency; every command it sends is that fade or a note play |
| Music.FirstFire | sketch.js:243-253 | the frames until a voice first plays, when it plays within the jitters given, lie between 1 and their number |
| Music.FireWindow | sketch.js:243-253 | whatever jitters are drawn, a voice with timer t plays first after at least interval − 2 − t and at most interval + 2 − t frames |
| Music.ThirdVoiceRhythm | sketch.js:184 | the G3 voice (interval 90, timer 60) first plays after 28 to 32 frames, and then every 88 to 92 frames |
| Music.MusicManager.constructor | sketch.js:175-216 | five voices with timers 0, 30, 60, 100, 10 satisfying the invariant; every piano level and the bass level start at 0, and the bass frequency at 55 |
| Music.MusicManager.Start | sketch.js:219-222 | start() sends exactly one bass start |
| Music.MusicManager.Update | sketch.js:225-255 | fist mode: no timer moves and the log gains exactly the fist-mode commands; normal mode: the bass fades out first, then the timers become `Advance` of the old ones and the log gains exactly the notes `Plays` says |
| Music.MusicManager.Silence | sketch.js:229-235 | the fist branch sends the five piano fades, then the bass level and frequency, in that order |
| Music.MusicManager.RunSequencer | sketch.js:243-253 | the voice loop leaves the timers at `Advance` of the old ones and sends exactly the notes `Plays` lists, in voice order |
| Music.MusicManager.TickVoice | sketch.js:244-252 | one voice's turn: its timer becomes the `Step` result and it plays exactly when the step fires; no other voice changes |
| Scene.Survivors | sketch.js:66-69 | the vines kept by the splice loop are no more than the vines it started with |
| Scene.Kept | sketch.js:66-69 | filtering by a dead flag never lengthens the list |
| Scene.KeptIsSublist | sketch.js:66-69 | every kept element comes from an undead position, every undead element is kept, and a list without repeats stays without repeats |
| Scene.SpliceStep | sketch.js:68 | one splice at the current index takes the list to the next stage of the reverse loop |
| Scene.Spliced | sketch.js:66-69 | after the reverse loop has reached index n, the untouched prefix up to n is still there |
| Scene.SplicedIsKept | sketch.js:66-69 | after the reverse loop has reached index n, the list is the untouched prefix followed by the live vines of the suffix |
| Scene.SplicedAllIsKept | sketch.js:66-69 | the completed reverse loop leaves exactly the vines whose dead flag is false, in order |
| Scene.SurvivorsAreKept | sketch.js:66-69 | the survivors are the vines filtered by their isDead flags |
| Scene.SurvivorsAreLive | sketch.js:66-69 | a vine survives exactly when it was in the list and is not dead, and no vine appears twice |
| Scene.RemoveDead | sketch.js:66-69 | the reverse splice loop leaves exactly the survivors, in their order |
| Scene.SpawnState | sketch.js:467-474 | the state a new vine starts in: its edge's spawn motion, an empty trail, full life, within the trail bounds and not dead |
| Scene.Sketch.constructor | sketch.js:44-46 | setup's state: the sequencer built with its start timers 0, 30, 60, 100, 10 and its setup commands sent, one creature at its creation state, no vines, audio not started |
| Scene.Sketch.MousePressed | sketch.js:490-500 | the first press sends one bass start and starts every creature's voice; any later press changes nothing; audio is on afterwards |
| Scene.Sketch.Grow | sketch.js:306 | creatures are appended, fresh and at the creation state, until there are target many; the existing ones stay in place |
| Scene.Sketch.Shrink | sketch.js:307-310 | creatures are popped from the end down to target; each popped creature is disposed exactly once; the rest keep their state |
| Scene.Sketch.PopLast | sketch.js:308-309 | the last creature leaves the list and is disposed once |
| Scene.Sketch.Reconcile | sketch.js:303-310 | after both loops there are exactly target creatures: the kept ones unchanged, the new ones fresh and at the creation state, the removed ones disposed once |
| Scene.Sketch.DispatchAll | sketch.js:312-329 | creature i receives exactly the update `Dispatch` gives index i, and the scene's invariant is kept |
| Scene.Sketch.DispatchOne | sketch.js:313-327 | one turn of that loop: only creature i changes |
| Scene.Sketch.AnyFistActive | sketch.js:80 | the global fist signal: some creature shows a fist and is not idle |
| Scene.Sketch.IdleSceneNoFist | sketch.js:80 | when every creature is idle the global fist signal is false |
| Scene.Sketch.ManageCreatures | sketch.js:302-330 | the creatures are reconciled and dispatched: see the expanded entry after this table |
| Scene.Sketch.SpawnVine | sketch.js:63 | a fresh vine at its start state is appended exactly when the frame is a multiple of 6 and fewer than 150 vines live; otherwise nothing changes; no creature changes |
| Scene.Sketch.Draw | sketch.js:50-100 | one frame: see the expanded entry after this table |
| Scene.Sketch.VineLayer | sketch.js:62-69 | the spawn step then the vine loop: the list after the spawn step is the old list plus the spawned vine when the gate opens; each of its vines is updated once from its state (the new one from its start state); what is left is exactly its survivors; the invariant is kept and no creature changes |
| Scene.Sketch.CreaturesAndMusic | sketch.js:80-87 | the fist signal is taken before reconciliation, then the creatures are reconciled and dispatched, then the sequencer steps in the mode that signal selects |
| Scene.Sketch.CreatureLayer | sketch.js:81 | manageCreatures as in `Scene.Sketch.ManageCreatures`; after a frame without hands every creature is idle, so no fist signal is raised |
| Scene.Sketch.StepMusic | sketch.js:84-87 | nothing reaches the sequencer before audio has started; afterwards it updates once in the given mode |
| Scene.Sketch.UpdateVines | sketch.js:66-69 | every vine is updated exactly once, with its own velocity; afterwards the list holds exactly the survivors, in order |
| Scene.Sketch.DropDead | sketch.js:68 | the dead vines leave the list, the live ones stay in order, and the invariant is kept |
| Scene.Sketch.AdvanceVines | sketch.js:66-67 | every vine's state becomes `Vines.Advance` of its old state, with its trail bound kept |
| Mosaic.WideCropFits | sketch.js:131-133 | for a canvas wider than the video, the full-width window of height w / aspect fits the frame and has the canvas's proportions |
| Mosaic.TallCropFits | sketch.js:134-136 | otherwise the full-height window of width h · aspect fits the frame and has the canvas's proportions |
| Mosaic.CropWindow | sketch.js:127-137 | the crop lies inside the video frame, spans it fully in one direction, is centred in the other, and has the canvas's aspect ratio |
| Mosaic.Clamp | sketch.js:144-145 | constrain lands in [lo, hi] and leaves values inside unchanged |
| Mosaic.SamplePixel | sketch.js:142-145 | the sampled coordinates satisfy 0 ≤ vXInt < vw and 0 ≤ vYInt < vh |
| Mosaic.PixelIndex | sketch.js:147-150 | the index is a multiple of 4, and its red, green and blue bytes lie inside the 4·vw·vh buffer |
| Mosaic.PixelInFrame | sketch.js:147 | (vYInt·vw + vXInt)·4 + 3 < 4·vw·vh for every pixel of the frame |
| Mosaic.Alpha | sketch.js:154 | map(bright, 40, 255, 5, 60) lies in (5, 60] for a sample brighter than 40 |
| Mosaic.Brightness | sketch.js:148-151 | the mean of three bytes lies in [0, 255] |
| Mosaic.CellDot | sketch.js:142-157 | a cell draws at most one dot, at its own position, with opacity in (5, 60] |
| Mosaic.RowDots | sketch.js:140-158 | the dots of one row lie on the grid inside the canvas, in that row, with opacity in (5, 60] |
| Mosaic.GridDots | sketch.js:139-159 | every dot of the grid lies on an 8-pixel grid point inside the canvas, with opacity in (5, 60] |
| Mosaic.DrawCircleMosaic | sketch.js:117-162 | a video without size draws nothing; otherwise exactly the grid's dots are drawn, in row order, all well placed |
| Mosaic.DrawRow | sketch.js:140-158 | the inner loop draws exactly the dots of its row, left to right |
| Mosaic.SampleCell | sketch.js:142-157 | one cell of the loop: its pixel reads are in bounds and it yields exactly that cell's dot |
| Tentacles.Relax | sketch.js:418-420 | one interior point's relaxation: eased 40% toward its predecessor, then pushed out by setMag(3) of its offset when closer than 3 (its meaning is the next two lemmas) |
| Tentacles.SpacingRestored | sketch.js:417-421 | when the eased point does not coincide with its predecessor and setMag(3) scales its offset to length 3, the point ends at least 3 from its predecessor |
| Tentacles.PushedOut | sketch.js:420 | an offset scaled to length 3 and added to itself has length at least 3 |
| Tentacles.CoincidentPointStays | sketch.js:420 | a point on its predecessor stays there (distance 0), because setMag of the zero vector is zero |
| Tentacles.Tentacle.constructor | sketch.js:407-410 | 20 points, all at the given centre, in the given group |
| Tentacles.Tentacle.Update | sketch.js:411-422 | no root or no target: nothing moves; otherwise point 0 is pinned to the root, the tip eases toward the waved target, and every later point is relaxed toward its already relaxed predecessor |
| Tentacles.Tentacle.RelaxAt | sketch.js:418-420 | one turn of the relaxation: point i becomes `Relax` of itself toward point i − 1; no other point moves |

Longer entries from the table:

- **Creatures.Step** (sketch.js:343-379):
  - The creature is idle exactly when no hand is given.
  - It takes the fist flag it is given.
  - prevPos becomes the old position.
  - It eases toward the mapped palm with factor 0.1, or toward its noise wander target with factor 0.04.
  - If audio has started, its voice receives exactly one update. That update carries the fist flag and a velocity: 0 while idle, otherwise the squared distance moved.
  - Before audio starts, the voice receives nothing.
- **Music.Step** (sketch.js:244-252):
  - The timer stays in [0, interval + 1].
  - A voice that fires resets to 0, and its count had reached at least interval − 2.
  - A voice that does not fire counts up by one.
  - A count that reached interval + 2 always fires.
- **Scene.Sketch.ManageCreatures** (sketch.js:302-330):
  - There are max(1, hands) creatures afterwards.
  - Lower indices hold the same objects; new ones are fresh.
  - Every creature's state is the `Dispatch` of its index. This applies to its old state if it was kept, and to its creation state if it is new.
  - Every creature removed was disposed exactly once.
- **Scene.Sketch.Draw** (sketch.js:50-100):
  - The frame is inverted exactly when some creature was an active fist before this frame's reconciliation.
  - The vines are as `Scene.Sketch.VineLayer` leaves them: the spawned vine (fresh, when the gate opens) and every old vine updated once, then only the survivors kept.
  - Afterwards there are max(1, hands) creatures: the kept ones are the same objects, the new ones are fresh, each holds the state `Dispatch` gives its index, and each removed one was disposed once.
  - A frame without hands leaves no fist signal, so the next frame is not inverted.
  - Before audio starts, the sequencer is untouched and receives no command.
  - Once audio runs, a fist frame leaves every timer and sends the fist-mode commands.
  - A normal frame instead advances the timers and sends the bass fade and the notes due.

## Left out

- Rendering: all `show` methods, blend modes, `filter(INVERT)`, shadows, the text prompt and `c.show(anyFistActive)`. `Scene.Sketch.Draw` returns the invert flag instead of drawing.
- Sound synthesis: oscillators, envelopes, reverb, noise sources, the LFO and `userStartAudio`. Calls are recorded as `Music.Command`s. Oscillator starts and ADSR settings made in the constructor are not recorded.
- `CreatureAudio`: the velocity-to-volume mapping and the fist pulse. The model records what the voice is told (`AudioUpdate`), whether it runs, and how often it was disposed.
- ml5 hand-pose inference and its asynchronous callback: the tracked hands are an input sequence of `Hands.Observation`.
- Video capture and `checkVideoStatus`: `Scene.Sketch.Draw` does not call the mosaic. `Mosaic.DrawCircleMosaic` is modelled on its own, with the video size and pixel array as inputs.
- `Mosaic.DrawCircleMosaic`: requires the pixel array to hold 4·vw·vh bytes, because the video's pixel buffer does. The `try`/`catch` around it is not modelled.
- Flow particles (`FlowParticle`, sketch.js:439-464): their steering and wrap-around are not part of this model.
- `windowResized`: it re-runs `setup`, which appends one more creature and 120 more particles. The code does not make a resize idempotent, so no reset is claimed.
- `Creatures.Creature.Update`: does not update the creature's 30 tentacles. `Tentacles.Tentacle.Update` models one tentacle's update on its own, and the idle orbit targets (cos/sin) are not modelled.
- `Hands.ParseHand`: keypoint lists shorter than 21 are not modelled. The code reads landmarks 4 to 20 without checking the length, so it throws on them; the hand-pose model always reports 21 landmarks.
- `Music.Plays`: its own contract bounds only the number of notes. Voice order and at most one note per voice are the lemmas `Music.PlaysInVoiceOrder` and `Music.PlaysAtMostOncePerVoice`.
- `Creatures.Step`: the velocity handed to the voice is recorded as its square, because Dafny has no square root. It is 0 exactly when the distance is 0.
- `Creatures.Step`: the noise field is a parameter, and the wander target is that field scaled to the canvas.
- `Vines.EdgeVine.Update`: the steered velocity is a parameter. The pull to the centre, the noise angle and `limit(2)` need trigonometry and square roots.
- `Scene.Sketch.UpdateVines`: the source updates and splices each vine in one reverse loop. The model runs two reverse passes, `AdvanceVines` and then `RemoveDead`. This gives the same result because `update()` changes only its own vine and a splice at index i moves only vines already visited.
- `Tentacles.SpacingRestored`: `setMag(3)` is a function parameter, since it needs a square root. The spacing rule is proved for the case where it scales the offset to length 3. A point on its predecessor stays there (`Tentacles.CoincidentPointStays`), so the rule does not hold unconditionally.
- `Music.Step`: the jitter is any real in [-2, 2), and `sin(frameCount · 0.2)` and `sin(frameCount · 0.8)` are inputs in [-1, 1].
- Canvas sizing at 16:9 (sketch.js:32-35) and the floating-point rounding of all real arithmetic are not modelled.
- Behaviour of the code a reader may not expect, which the model follows:
  - Tentacle spacing can stay below 3 for a coincident point.
  - A resize appends to the scene instead of resetting it.
