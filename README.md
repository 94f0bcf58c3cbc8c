# Balloon bookkeeping, modelled in Dafny

This project models the game logic of the floating-balloon page (`src/App.js`)
and proves properties about it. The page has two parts:

- **The App component.** It holds the list of live balloon records and an id
  counter `nextId`, which starts at 1. The list is capped at `MAX_BALLOONS = 15`.
  - The "add" button is rejected with an alert when the list is full. Otherwise
    it appends `min(1, 15 - length)` records, which is always one. The new record
    has id `nextId` and a colour, content and points value drawn at random from
    fixed palettes. `nextId` then goes up by the same count.
  - `onPop(id, isSound)` filters out the balloons carrying `id`, keeping the order
    of the rest, and plays a sound when `isSound` holds.
  - "Clear all" empties the list but leaves `nextId` alone.
- **The Balloon component.** Each balloon starts 50 pixels below the window.
  - Each animation frame makes it rise 2 pixels, but only if at least 16 ms
    have passed since the last frame that counted.
  - When the next position would be above -100, the balloon stays where it is
    and sets its removal flag instead. The flag makes an effect call `onPop(id)`.
  - A click sets `exploding` and starts a 500 ms timer. When the timer fires, it
    sets `popped` and calls `onPop(id, true)`. A popped balloon renders nothing.

Files:

- `collection.dfy` (module `BalloonList`): the records, palettes and cap, written
  as values. It also holds the three list updates as functions on a `Board`
  (list plus `nextId`), the invariant `Inv` (at most 15 balloons, distinct ids,
  every id below `nextId`) and the lemmas about them.
- `app.dfy` (module `AppComponent`): class `App`, whose fields are the component's
  two state variables. Each handler is proved to move the state exactly as the
  matching `BalloonList` step does and to keep `Inv`. The add handler keeps the
  `for` loop of `src/App.js`, with a loop invariant tying the batch built so far to
  `NewBatch`.
- `flight.dfy` (module `Flight`): the pure position update and the frame throttle.
  It also gives a closed form for the descent across any number of frames, and
  the fact that the position after any sequence of frames depends only on how
  many frames the throttle let through.
- `balloon.dfy` (module `BalloonComponent`): class `Balloon`, holding position,
  throttle time and flags. Each callback firing (animation frame, click, timer,
  effect) is a method call. The calls to `onPop` come back as `PopRequest`
  values. The class invariant says:
  - the balloon never rises past -100;
  - the removal flag is set only once the balloon cannot rise further;
  - `popped` is reached only after a click set `exploding`.

The random draws are inputs to the model: `Pick` holds three palette indices,
each required to be in range. Timestamps and positions are integers.

One point worth knowing. While a balloon is exploding it is still rendered and
still clickable. So two clicks within 500 ms start two timers, and
`onPop(id, true)` reaches the App twice for the same balloon.
`BalloonComponent.DoubleClick` shows the two identical requests. The second
call can come up to 500 ms after the first, with other adds, pops and clears in
between. `BalloonList.LatePopNoop` shows that it still leaves the list
unchanged: the popped id is below `nextId`, so no later balloon can carry it.
The sound request is still made twice.

`src/App.js` does not import `src/api.js`. Popping a balloon sends no tap
report, and there is no fade-out phase or score feed in it.

## Model

| member | source | states |
|---|---|---|
| `BalloonList.MakeRecord` | src/App.js:161-166 | a new record carries the given id, and its colour, content and points come from the fixed palettes |
| `BalloonList.BatchSize` | src/App.js:158 | an accepted add creates exactly one balloon, and the count stays within the cap |
| `BalloonList.NewBatch` | src/App.js:157-167 | the batch has one record per draw, and the i-th record has id `nextId + i` |
| `BalloonList.Without` | src/App.js:174 | the filtered list holds exactly the balloons whose id differs from the popped one, and is no longer than the original |
| `BalloonList.AddStep` | src/App.js:150-170 | when full, list and `nextId` are unchanged; otherwise one record with id `nextId` is appended after the old list and `nextId` goes up by one |
| `BalloonList.PopStep` | src/App.js:172-174 | a pop filters the list by the popped id and leaves `nextId` as it was |
| `BalloonList.ClearStep` | src/App.js:180-182 | clearing yields an empty list and keeps `nextId` |
| `BalloonList.WithoutConcat` | src/App.js:174 | filtering distributes over concatenation, so the kept balloons keep their relative order |
| `BalloonList.WithoutAbsent` | src/App.js:174 | popping an id no balloon carries returns the list unchanged |
| `BalloonList.WithoutIdempotent` | src/App.js:174 | filtering the same id twice gives the same list as filtering it once |
| `BalloonList.WithoutKeepsUnique` | src/App.js:174 | filtering keeps ids pairwise distinct |
| `BalloonList.WithoutPresentRemovesOne` | src/App.js:174 | with distinct ids, popping a present id shortens the list by exactly one |
| `BalloonList.AddStepKeepsInv` | src/App.js:152-169 | add keeps the cap, id distinctness and ids-below-`nextId`; it never lowers `nextId`; any new balloon has id at least the old `nextId` |
| `BalloonList.PopStepKeepsInv` | src/App.js:172-174 | pop keeps the invariant, keeps `nextId`, and introduces no balloon |
| `BalloonList.PopStepExact` | src/App.js:172-174 | popping k removes exactly the balloons with id k; an absent id changes nothing; popping twice equals popping once; with the invariant a present id removes one balloon |
| `BalloonList.ApplyKeepsInv` | src/App.js:150-182 | each of add, pop and clear keeps the invariant, never lowers `nextId`, and introduces only ids at or above it |
| `BalloonList.ReplayKeepsInv` | src/App.js:133-182 | after any sequence of add, pop and clear: at most 15 balloons, distinct ids below `nextId`, and any balloon not present at the start has an id at or above the starting `nextId`, so ids issued before a clear are never reused |
| `BalloonList.LatePopNoop` | src/App.js:90-93 | a second pop of an id below `nextId` changes nothing, even after any sequence of adds, pops and clears since the first: the stale timer's filter cannot hit a later balloon |
| `BalloonList.ReachableBounded` | src/App.js:128-133 | every state reachable from the initial one holds at most 15 balloons with distinct ids |
| `AppComponent.App.constructor` | src/App.js:128-129 | the component starts with no balloons and `nextId` 1, satisfying the invariant |
| `AppComponent.App.AddMoreBalloons` | src/App.js:150-170 | reports rejection exactly when the list is full; the new state is `AddStep` of the old; the invariant is kept |
| `AppComponent.App.HandleBalloonPop` | src/App.js:172-178 | the new state is `PopStep` of the old; the sound is requested exactly when `isSound` holds; the invariant is kept |
| `AppComponent.App.ClearAllBalloons` | src/App.js:180-182 | the new state is `ClearStep` of the old; the invariant is kept |
| `AppComponent.App.Counter` | src/App.js:194-196 | the counter shows the live count and the cap, and the count never exceeds the cap |
| `Flight.VerticalStep` | src/App.js:29-42 | removal is flagged exactly when `y - 2 < -100`; a flagged step keeps the position, and otherwise the balloon rises by 2 |
| `Flight.Tick` | src/App.js:26-44 | a frame never lowers the balloon; a frame within 16 ms of the last counted one changes nothing; a counted frame sets `lastTime` to its time and moves the balloon as `VerticalStep` does; the removal flag is never cleared |
| `Flight.Accepts` | src/App.js:27 | a frame counts exactly when 16 ms or more have passed since the last counted one |
| `Flight.Throttled` | src/App.js:27-43 | counted frames are drawn from the callbacks, the first is at least 16 ms after the starting `lastTime`, consecutive ones are at least 16 ms apart, and a first callback 16 ms or more after `lastTime` is always counted |
| `Flight.DescendClosedForm` | src/App.js:29-42 | after n counted frames from y ≥ -100, the balloon has risen by exactly 2·min(n, MovesLeft(y)) pixels, stays at or below -100, and is flagged exactly when n > MovesLeft(y) |
| `Flight.FlaggedStaysPut` | src/App.js:33-36 | once flagged, a balloon keeps its position and its flag on every later frame |
| `Flight.FramesFollowThrottle` | src/App.js:26-46 | after any sequence of frame callbacks, position and flag equal the descent over the frames the throttle counted |
| `BalloonComponent.StartY` | src/App.js:11 | the start position is below the window's bottom edge, so it lies within the allowed range |
| `BalloonComponent.Balloon.constructor` | src/App.js:5-12 | a mounted balloon takes id, colour and content from its record, starts at `StartY` with `lastTime` 0, and has all flags clear |
| `BalloonComponent.Balloon.Animate` | src/App.js:26-44 | the frame callback moves the motion state exactly as `Tick` does, leaves the click flags alone, and keeps the invariant |
| `BalloonComponent.Balloon.HandleClick` | src/App.js:57-58 | a click on a balloon that is still rendered (not popped, line 96) sets `exploding`, arms one more timer (line 90), and leaves position and `popped` alone |
| `BalloonComponent.Balloon.PopTimeout` | src/App.js:90-93 | a firing timer sets `popped` and calls `onPop(id, true)`; it is possible only after a click |
| `BalloonComponent.Balloon.RemovalEffect` | src/App.js:15-19 | the effect calls `onPop(id)` without sound, exactly when the removal flag is set |
| `BalloonComponent.Balloon.Render` | src/App.js:96-108 | a popped balloon renders nothing; otherwise it renders at its position with its colour, content and exploding state |
| `BalloonComponent.DoubleClick` | src/App.js:57-93 | two clicks before the timer fires produce two identical `onPop(id, true)` calls |

## Left out

- `src/api.js` as a whole is left out: the fetch wrappers and browser local storage are network and storage I/O.
- The Web Audio tone in the click handler and the `Audio` object are left out: they are foreign browser APIs with floating-point parameters. `HandleBalloonPop` only reports whether the sound is requested.
- The horizontal start position and the per-frame horizontal jitter are left out, because both are random floating-point values. The position is vertical only.
- `requestAnimationFrame`, `cancelAnimationFrame`, `setTimeout` and effect scheduling are left out. Each callback firing is an explicit method call, and the 500 ms delay itself is not represented.
- Frame timestamps are integers, not fractional milliseconds.
- The random palette draws are inputs (`Pick` indices in range), not random choices.
- React's batching of state updates is left out. Each handler sees the state committed by the one before it.
- JSX rendering, CSS classes, the alert text, the touch-detection heading, and the choice between an image and a glyph are UI only and left out. `Render` returns the content string as is.
- The live score feed, its subscription channels and the `./token` module are not part of this model. They do not appear in `src/App.js`.
