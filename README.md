# PxWebPlayer core in Dafny

`PxWebPlayer` (player.js) drives a full-screen canvas: a caller-supplied `drawFunc` is run once
per tick while the player is playing, a continue button shows while it is paused, a sound button
reflects the mute state, and optional hooks (`onPause`, `onResume`, `onSoundToggleFunc`,
`onResize`) tell the host about transitions. This project models two parts of it.

- **The play/pause/mute state machine and its tick scheduling** (`playback.dfy`, `player.dfy`).
  Module `Playback` states every operation as a function on a `State` value: the flags
  `_play`, `_paused`, `_mute`, the host-assigned `Config` (the throttle and, for each callback,
  whether it is a function), whether a canvas exists, the continue button's inline opacity and
  cursor, the sound button's `off` class, the queue of continuations waiting in the host
  scheduler, and a log of every call made out of the player. Timers are a queue: `draw()`
  appends at most one `Tick`, a `Delayed(ms)` tick for `setTimeout` then
  `requestAnimationFrame` when `throttle` is nonzero, a `Frame` tick otherwise; firing a
  `Delayed` tick turns it into a `Frame`, and firing a `Frame` calls `draw()` again. Module
  `Player` holds the class `PxWebPlayer`, whose fields abstract those of the JavaScript class
  (`drawFunc`, each hook and `canvas` become booleans saying whether they are set) and whose
  methods follow the statements of player.js. Each state-changing method except the helper
  `GetContinueButton` is proved to move `Snapshot()` exactly as the matching `Playback` function
  says; `IsPlaying` only reads `_play`. The lemmas in `Playback` are about sequences of the
  modelled steps (`Playback.Op`): `_paused == !_play` and the continue button's visibility hold
  from the first `play()` on and are kept by every later modelled step, n toggles flip the flag exactly when n is odd, only
  `toggleSound()` changes `_mute`, repeated `play(true)` adds one pending tick per call, and a
  paused player's pending ticks drain.
- **`getParameterByName`** (`query.dfy`). The regular expression `[?&]name(=([^&#]*)|&|#|$)`
  becomes a left-to-right scan, `Scan`, tied to a declarative statement (`KeyAt`, `GroupAt`)
  by its contract and by `LeftmostWins`: null exactly when no `?name` or `&name` is followed by `=`, `&`, `#` or the end,
  otherwise the group at the leftmost such position, which is the text after `=` up to the first
  `&` or `#`, or `''` when there is no `=`. `+` becomes a space before decoding, and
  `decodeURIComponent` is a parameter.

Three points where player.js does less than one might expect of a player like this; the
model follows the code:

- One would expect a player to run a single scheduling chain, so that starting to play while
  already playing changes nothing. `play(true)` always calls `draw()` (player.js:105), so each
  call while playing adds one more pending continuation; `Playback.ResumesGrowPending` states
  this.
- One would expect `_paused == !_play` to hold always. The constructor sets both to false
  (player.js:4-5), so the relation holds only after the first `play()`
  (`Playback.InitialNotSettled`, `Playback.SettledAfterFirstPlay`).
- Resuming clears the continue button's inline cursor (`cursor = null`, player.js:103); it does
  not disable pointer events on the hidden button.

## Model

| member | source | states |
|---|---|---|
| Playback.Draw | player.js:64-76 | draw() touches only the event log and the pending queue |
| Playback.DrawContract | player.js:64-76 | one draw() calls drawFunc once exactly when it is a function, adds no tick when not playing, and otherwise appends exactly one tick, `Delayed(throttle)` when throttle is nonzero and `Frame` when it is zero |
| Playback.Play | player.js:94-111 | after play(arg), `_play` is arg (true when undefined) and `_paused == !_play`; `_mute`, the sound button and the configuration are unchanged; the log gains the one matching hook and, only when playing, one drawFunc call; one tick is added only when playing; the continue button is shown ('1', 'pointer', created if missing) when paused and hidden ('0', cursor cleared) if it exists when playing |
| Playback.TogglePlay | player.js:80-82 | togglePlay() negates `_play`, sets `_paused` to the old `_play`, and leaves `_mute` alone |
| Playback.ToggleSound | player.js:84-92 | toggleSound() negates `_mute`, passes the new "sound on" value to the hook if it is a function, gives an existing sound button the class 'off' exactly when sound is on, and changes nothing else; with no sound button it throws after the first two steps |
| Playback.Resize | player.js:36-40 | the resize handler throws and changes nothing without a canvas; otherwise it recomputes the resolution, calls onResize if it is a function, draws once only when not playing, and never adds a pending tick |
| Playback.SetOnSoundToggle | player.js:57-62 | the setter, given a function, records that onSoundToggle is set and installs a fresh sound button without 'off'; given anything else it changes nothing; no other field changes |
| Playback.CreateCanvas | player.js:249-256 | after createCanvas() the canvas exists, so a later resize no longer throws, and the resolution has been computed once; nothing else changes |
| Playback.Fire | player.js:68-75 | running the i-th pending continuation removes it; a timer then requests a frame and logs nothing; a frame calls draw(), which logs drawFunc if it is a function and, only while playing, re-queues the tick draw() schedules (`Delayed(throttle)` when throttle is nonzero, `Frame` otherwise); flags, buttons and configuration are unchanged |
| Playback.Step | player.js:30-43 | one entry point of the player (play(), togglePlay(), toggleSound(), draw(), a scheduled callback, the resize and keyup listeners, the onSoundToggle setter, createCanvas(), or the host assigning `throttle`, `drawFunc` or a hook): only createCanvas() makes a canvas and none of these removes it, and only the setter and the host's assignments change the configuration |
| Playback.KeyUp | player.js:41-43 | releasing Space (code 'Space' or keyCode 32) is exactly one togglePlay(); any other key changes nothing |
| Playback.InitialNotSettled | player.js:2-14 | the constructor's state has both flags false and no continue button, so `_paused == !_play` fails there; it starts muted with nothing pending |
| Playback.PlaySettles | player.js:94-111 | every play() and togglePlay() leaves `_paused == !_play` and the continue button in step with the flag |
| Playback.StepKeepsSettled | player.js:36-111 | every operation keeps `_paused == !_play` and the continue button's visibility once they hold |
| Playback.RunKeepsSettled | player.js:36-111 | any sequence of operations from a settled state ends in a settled state |
| Playback.SettledAfterFirstPlay | player.js:4-5 | from the constructor, every history that begins with play() or togglePlay() is settled ever after |
| Playback.StepKeepsMute | player.js:84-111 | no operation other than toggleSound() changes `_mute`, so mute survives play and pause |
| Playback.StepKeepsSoundMatches | player.js:57-92 | the sound button's 'off' class equals "sound on" after every operation, provided the onSoundToggle setter is not given a function while sound is on |
| Playback.SoundSetterWhileUnmuted | player.js:57-62 | the setter's fresh sound button has no 'off' class, which is wrong while sound is on |
| Playback.ToggleSoundTwice | player.js:84-92 | two toggleSound() calls restore `_mute` and the button, and call the hook with opposite values |
| Playback.TogglesParity | player.js:80-82 | after n toggles `_play` is flipped exactly when n is odd, `_paused == !_play` when n > 0, and `_mute` is unchanged |
| Playback.ResumesGrowPending | player.js:100-105 | n calls of play(true) add n pending ticks, n onResume calls and n drawFunc calls (when they are functions) and no onPause call, whether or not the player was already playing |
| Playback.PlayFiresOneHook | player.js:98-99 | each play() fires onResume exactly when the new value is true and onPause exactly when it is false (if a function), with no short-circuit on an unchanged value, and draws only when playing |
| Playback.FireKeepsOrDrains | player.js:68-75 | firing a frame while playing puts back exactly the tick draw() schedules (throttled again when throttle is nonzero), so the number of pending ticks is unchanged; while paused every firing lowers the work still owed and adds nothing but the timer's own frame |
| Playback.ResizeDrawsOnlyWhenPaused | player.js:36-40 | a resize calls onResize once if it is a function, draws once exactly when paused, and leaves the number of pending ticks unchanged |
| Playback.FirstToggleScenario | player.js:80-105 | from the constructor with drawFunc, onPause and onResume set, one toggle plays, fires onResume then drawFunc, leaves the button uncreated and one frame pending |
| Player.PxWebPlayer.constructor | player.js:2-14 | the fields start as the constructor sets them |
| Player.PxWebPlayer.Draw | player.js:64-76 | draw() moves the fields as Playback.Draw says |
| Player.PxWebPlayer.IsPlaying | player.js:78 | isPlaying() returns `_play` |
| Player.PxWebPlayer.TogglePlay | player.js:80-82 | togglePlay() moves the fields as Playback.TogglePlay says |
| Player.PxWebPlayer.ToggleSound | player.js:84-92 | toggleSound() moves the fields as Playback.ToggleSound says and reports a throw exactly when there is no sound button |
| Player.PxWebPlayer.Play | player.js:94-111 | play() moves the fields as Playback.Play says |
| Player.PxWebPlayer.GetContinueButton | player.js:126-137 | getContinueButton() keeps an existing button and otherwise creates one with an empty inline style |
| Player.PxWebPlayer.SetOnSoundToggle | player.js:57-62 | the setter stores a function and installs a new sound button without 'off'; it ignores anything else |
| Player.PxWebPlayer.CreateCanvas | player.js:249-256 | createCanvas() makes the canvas exist and computes its resolution |
| Player.PxWebPlayer.OnResize | player.js:36-40 | the resize listener moves the fields as Playback.Resize says and reports a throw exactly when there is no canvas |
| Player.PxWebPlayer.OnKeyUp | player.js:41-43 | the keyup listener moves the fields as Playback.KeyUp says |
| Player.PxWebPlayer.FireTick | player.js:69-75 | running a pending continuation moves the fields as Playback.Fire says |
| QueryString.TakeValue | player.js:283 | the `[^&#]*` group is the longest prefix holding neither '&' nor '#' |
| QueryString.KeyAt | player.js:283 | the regular expression matches at position i: '?' or '&' there, then the name, then '=', '&', '#' or the end of the URL |
| QueryString.GroupAt | player.js:283-286 | group 2 of a match at i (absent read as ''): non-empty only after '=', a piece of the URL right after that '=', holding neither '&' nor '#' |
| QueryString.MatchedValue | player.js:283-285 | `exec`'s result: a value exactly when the key occurs whole somewhere, and then a piece of the URL holding neither '&' nor '#' |
| QueryString.Scan | player.js:283-285 | the scan from a position finds nothing exactly when no later position holds `?name` or `&name` followed by '=', '&', '#' or the end |
| QueryString.PlusToSpace | player.js:287 | each '+' becomes a space, every other character and the length are kept |
| QueryString.GetParameterByName | player.js:280-288 | null exactly when the key never occurs whole after '?' or '&'; '' when the matched group is empty or absent |
| QueryString.LeftmostWins | player.js:283-284 | when i is the leftmost position where the key occurs whole, the matched value is the group at i, whatever follows |
| QueryString.KeyWithoutValue | player.js:286 | a key followed by '&', '#' or the end, without '=', gives '' |
| QueryString.ValueAfterEquals | player.js:283-287 | a key followed by '=' gives the text after '=' up to, not including, the first '&' or '#', or to the end |
| QueryString.PlainValueDecoded | player.js:287 | a value without '%' comes back with each '+' turned into a space |
| QueryString.WholeKeyOnly | player.js:283 | the name 'a' does not match the key 'ab' |
| QueryString.LaterWholeKey | player.js:283-284 | a whole key after a longer one that merely begins with the name is found |
| QueryString.FirstOccurrenceWins | player.js:283-284 | of two occurrences of the key, the first gives the value |
| QueryString.HashEndsKey | player.js:283-286 | a key followed by '#' is present with the value '' |

## Left out

- DOM, CSS and SVG construction (`setupStyles`, `addPlayerStyle`, `setupSoundButton`'s markup, `setupFullscreenButton`, the element creation in `getContinueButton` and `createCanvas`): only the continue button's opacity and cursor, the sound button's 'off' class and the existence of the canvas are kept, as abstract fields.
- `toggleFullscreen` and the fullscreen button: a call into the browser's fullscreen API with no logic of the player's own.
- `updateCanvasResolution`: its product with `window.devicePixelRatio` is floating point read from the host; the model records only that the resolution was recomputed (`ResolutionUpdated`) and that it throws without a canvas.
- The constructor's `nfs` URL check and its listener registration; the clicks on the stop element, the continue button and the canvas all call `togglePlay()`, which is modelled.
- `getParameterByName`'s default `url` of `window.location.href`, used when `url` is falsy (including ''): it reads the host. The model always takes `url` as given.
- `decodeURIComponent`: a library call, passed to `QueryString.GetParameterByName` as the parameter `decode`, whose `None` stands for the URIError it throws.
- QueryString.GetParameterByName: requires a name without the regular-expression metacharacters that player.js leaves unescaped (only `[` and `]` are escaped), because such a name would not match itself literally.
- JavaScript strings are sequences of UTF-16 code units; `string` here is a sequence of Unicode scalar values, so a URL or name holding a lone surrogate cannot be represented. The regular expression at player.js:283 has no `u` or `i` flag, so it compares code units one by one and no lookup of a well-formed URL comes out differently.
- Other writes from outside: the host may also assign `canvas`, `continueButton`, `soundButton` or `_play` directly, or call `getContinueButton()` itself (while playing that leaves a button with an empty inline style). These are not steps of the model, and the invariants above are not claimed across them.
- Real timers: `setTimeout` and `requestAnimationFrame` become the pending-tick queue; the delay is only a tag, and the host may run any pending continuation in any order.
- Callbacks that re-enter the player or throw: `drawFunc` and the hooks are recorded in the log and assumed to leave the player's fields alone and to return normally.
- `play()` with a non-boolean argument, and a `throttle` that is NaN or not an integer: `play` is modelled for `undefined` and booleans, `throttle` as an integer that is truthy exactly when nonzero.
- A single scheduling chain is not claimed, because the code does not keep to one (see above).
- The commented-out blur and focus handlers (player.js:44-51) and the empty `makeInfoPanel`: no behaviour.
