/** The play/pause/mute state machine of PxWebPlayer and its tick-scheduling rule, stated as
    functions on a snapshot of the player's fields. Real timers are replaced by a queue of
    pending continuations, and every call out of the player (the draw callback and the optional
    hooks) is appended to an event log. The class in player.dfy is proved to follow these
    functions statement by statement; the lemmas here are about sequences of calls. */
module Playback {

  /** A continuation that one call of draw() has handed to the host scheduler. */
  datatype Tick =
    | Frame              // requestAnimationFrame(() => draw()) waits for the next paint
    | Delayed(ms: int)   // setTimeout(..., ms) waits; when it fires it requests a Frame

  /** A call out of the player, in the order it happens. */
  datatype Event =
    | DrawFuncCalled
    | PauseHookCalled
    | ResumeHookCalled
    | SoundHookCalled(unmuted: bool)
    | ResizeHookCalled
    | ResolutionUpdated

  /** The continue button's inline opacity and cursor, once the button exists.
      A cursor that was set to null reads back as "". */
  datatype ContinueButton = NotCreated | Created(opacity: string, cursor: string)

  /** The sound button, once created, and whether it carries the class 'off'. */
  datatype SoundButton = NoSoundButton | SoundIcon(off: bool)

  /** The argument of play(): JavaScript's undefined, or a boolean. */
  datatype PlayArg = Undefined | Given(value: bool)

  /** The fields the host assigns: the throttle and, for each callback, whether it is a function. */
  datatype Config = Config(
    throttle: int,                 // throttle, in milliseconds; 0 means no delay
    hasDrawFunc: bool,             // typeof drawFunc === 'function'
    hasOnResize: bool,             // typeof onResize === 'function'
    hasOnPause: bool,              // typeof onPause === 'function'
    hasOnResume: bool,             // typeof onResume === 'function'
    hasOnSoundToggle: bool)        // typeof onSoundToggleFunc === 'function'

  datatype State = State(
    playing: bool,                 // _play
    paused: bool,                  // _paused
    muted: bool,                   // _mute
    config: Config,
    hasCanvas: bool,               // canvas !== null
    continueButton: ContinueButton,
    soundButton: SoundButton,
    pending: seq<Tick>,            // continuations waiting in the host scheduler
    log: seq<Event>)               // calls made out of the player so far

  /** The state the constructor leaves: neither playing nor paused, muted, no callbacks. */
  const Initial: State :=
    State(false, false, true, Config(0, false, false, false, false, false), false,
          NotCreated, NoSoundButton, [], [])

  // ---------------------------------------------------------------------------------------
  // Invariants

  /** `_paused` is the negation of `_play`. */
  predicate Consistent(s: State) {
    s.paused == !s.playing
  }

  /** The continue button shows exactly when paused: opacity '1' with a pointer cursor while
      paused, and hidden (opacity '0', cursor cleared) or never created while playing. */
  predicate ContinueMatches(s: State) {
    if s.playing then s.continueButton == NotCreated || s.continueButton == Created("0", "")
    else s.continueButton == Created("1", "pointer")
  }

  /** The sound button, if there is one, has the class 'off' exactly when sound is on. */
  predicate SoundMatches(s: State) {
    s.soundButton.SoundIcon? ==> s.soundButton.off == !s.muted
  }

  // ---------------------------------------------------------------------------------------
  // Counting events and weighing the scheduler queue

  /** How many times e occurs in log. */
  function Count(log: seq<Event>, e: Event): (n: nat)
    ensures n <= |log|
  {
    if log == [] then 0 else (if log[0] == e then 1 else 0) + Count(log[1..], e)
  }

  lemma {:induction false} CountAppend(a: seq<Event>, b: seq<Event>, e: Event)
    ensures Count(a + b, e) == Count(a, e) + Count(b, e)
  {
    if a == [] {
      assert a + b == b;
    } else {
      assert (a + b)[1..] == a[1..] + b;
      CountAppend(a[1..], b, e);
    }
  }

  lemma {:induction false} CountSingle(x: Event, e: Event)
    ensures Count([x], e) == if x == e then 1 else 0
  {
    assert [x][1..] == [];
  }

  /** The number of draw() calls still owed by the queue if every tick is fired:
      a Frame owes one firing, a Delayed tick two (the timer, then the frame). */
  function Weight(q: seq<Tick>): (w: nat)
    ensures w >= |q|
  {
    if q == [] then 0 else (if q[0].Delayed? then 2 else 1) + Weight(q[1..])
  }

  lemma {:induction false} WeightAppend(a: seq<Tick>, b: seq<Tick>)
    ensures Weight(a + b) == Weight(a) + Weight(b)
  {
    if a == [] {
      assert a + b == b;
    } else {
      assert (a + b)[1..] == a[1..] + b;
      WeightAppend(a[1..], b);
    }
  }

  /** The queue without its i-th entry: the host ran that continuation. */
  function Remove(q: seq<Tick>, i: nat): (r: seq<Tick>)
    requires i < |q|
    ensures |r| == |q| - 1
  {
    q[..i] + q[i + 1..]
  }

  /** Removing the i-th tick takes away exactly that tick and its weight. */
  lemma {:induction false} WeightRemove(q: seq<Tick>, i: nat)
    requires i < |q|
    ensures Weight(Remove(q, i)) + (if q[i].Delayed? then 2 else 1) == Weight(q)
    ensures multiset(Remove(q, i)) + multiset{q[i]} == multiset(q)
  {
    var before, after := q[..i], q[i + 1..];
    var tail := [q[i]] + after;
    assert q == before + tail;
    WeightAppend(before, tail);
    assert tail[0] == q[i] && tail[1..] == after;
    assert Weight(tail) == (if q[i].Delayed? then 2 else 1) + Weight(after);
    WeightAppend(before, after);
  }

  // ---------------------------------------------------------------------------------------
  // Operations

  /** The event draw() logs: the callback runs only when it is a function. */
  function DrawCall(s: State): seq<Event> {
    if s.config.hasDrawFunc then [DrawFuncCalled] else []
  }

  /** The continuation draw() schedules while playing: timer-then-frame when throttled. */
  function NextTick(throttle: int): Tick {
    if throttle != 0 then Delayed(throttle) else Frame
  }

  /** draw(): call drawFunc if it is a function; stop if not playing; otherwise hand one
      continuation to the scheduler. */
  function Draw(s: State): (r: State)
    ensures r.(log := s.log, pending := s.pending) == s
  {
    var afterCallback := s.(log := s.log + DrawCall(s));
    if !afterCallback.playing then afterCallback
    else afterCallback.(pending := afterCallback.pending + [NextTick(afterCallback.config.throttle)])
  }

  /** What one draw() does, counted: one callback call iff drawFunc is a function, no new tick
      when not playing, and exactly one otherwise, throttled iff throttle is nonzero. */
  lemma {:induction false} DrawContract(s: State)
    ensures Count(Draw(s).log, DrawFuncCalled)
            == Count(s.log, DrawFuncCalled) + (if s.config.hasDrawFunc then 1 else 0)
    ensures forall e :: e != DrawFuncCalled ==> Count(Draw(s).log, e) == Count(s.log, e)
    ensures |Draw(s).pending| == |s.pending| + (if s.playing then 1 else 0)
    ensures Draw(s).pending[..|s.pending|] == s.pending
    ensures s.playing ==> Draw(s).pending[|s.pending|]
                          == (if s.config.throttle != 0 then Delayed(s.config.throttle) else Frame)
  {
    forall e { CountAppend(s.log, DrawCall(s), e); }
  }

  function PlayValue(arg: PlayArg): bool {
    if arg.Undefined? then true else arg.value
  }

  /** The hook play(v) calls: onResume when v holds, onPause otherwise, if it is a function. */
  function HookCall(s: State, v: bool): seq<Event> {
    if v then (if s.config.hasOnResume then [ResumeHookCalled] else [])
    else (if s.config.hasOnPause then [PauseHookCalled] else [])
  }

  /** play(arg): set both flags, call the matching hook, then either hide the continue button
      and draw once, or show the continue button (creating it when missing). */
  function Play(s: State, arg: PlayArg): (r: State)
    ensures r.playing == PlayValue(arg) && Consistent(r) && ContinueMatches(r)
    ensures r.muted == s.muted && r.soundButton == s.soundButton && r.config == s.config && r.hasCanvas == s.hasCanvas
    ensures r.log == s.log + HookCall(s, r.playing) + (if r.playing then DrawCall(s) else [])
    ensures r.pending == s.pending + (if r.playing then [NextTick(s.config.throttle)] else [])
    ensures r.continueButton == if !r.playing then Created("1", "pointer")
                                else if s.continueButton.NotCreated? then NotCreated
                                else Created("0", "")
  {
    var v := PlayValue(arg);
    var flagged := s.(playing := v, paused := !v);
    var hooked := flagged.(log := flagged.log + HookCall(flagged, v));
    if v then
      var hidden := if hooked.continueButton.Created?
                    then hooked.(continueButton := Created("0", "")) else hooked;
      Draw(hidden)
    else
      hooked.(continueButton := Created("1", "pointer"))
  }

  /** togglePlay(): play with the negation of the current flag. */
  function TogglePlay(s: State): (r: State)
    ensures r.playing == !s.playing && r.paused == s.playing
    ensures r.muted == s.muted
  {
    Play(s, Given(!s.playing))
  }

  /** Whether toggleSound() throws: it dereferences soundButton, which is null until the
      onSoundToggle setter has received a function. */
  predicate ToggleSoundThrows(s: State) {
    s.soundButton.NoSoundButton?
  }

  /** toggleSound(): flip _mute, pass the new "sound on" value to the hook if it is a function,
      then mark the sound button 'off' exactly when sound is on. When there is no sound button
      the last step throws; the result is the state the throw leaves behind. */
  function ToggleSound(s: State): (r: State)
    ensures r.muted == !s.muted
    ensures r.log == s.log + (if s.config.hasOnSoundToggle then [SoundHookCalled(s.muted)] else [])
    ensures r.soundButton == if ToggleSoundThrows(s) then NoSoundButton else SoundIcon(s.muted)
    ensures SoundMatches(r)
    ensures r.(muted := s.muted, log := s.log, soundButton := s.soundButton) == s
  {
    var flipped := s.(muted := !s.muted);
    var hooked := if flipped.config.hasOnSoundToggle
                  then flipped.(log := flipped.log + [SoundHookCalled(!flipped.muted)])
                  else flipped;
    if hooked.soundButton.NoSoundButton? then hooked
    else hooked.(soundButton := SoundIcon(!hooked.muted))
  }

  /** The onSoundToggle setter: a function is stored and a new sound button, without the class
      'off', replaces the old one; anything else is ignored. */
  function SetOnSoundToggle(s: State, isFunction: bool): (r: State)
    ensures !isFunction ==> r == s
    ensures isFunction ==> r.config.hasOnSoundToggle && r.soundButton == SoundIcon(false)
    ensures r.(config := s.config, soundButton := s.soundButton) == s
    ensures r.config.(hasOnSoundToggle := s.config.hasOnSoundToggle) == s.config
  {
    if isFunction
    then s.(config := s.config.(hasOnSoundToggle := true), soundButton := SoundIcon(false))
    else s
  }

  /** createCanvas(), as far as the player's state goes: the canvas exists and its backing
      resolution has been computed. */
  function CreateCanvas(s: State): (r: State)
    ensures r.hasCanvas && !ResizeThrows(r)
    ensures r.log == s.log + [ResolutionUpdated]
    ensures r.(hasCanvas := s.hasCanvas, log := s.log) == s
  {
    s.(hasCanvas := true, log := s.log + [ResolutionUpdated])
  }

  /** Whether the resize handler throws: updateCanvasResolution() writes to a null canvas. */
  predicate ResizeThrows(s: State) {
    !s.hasCanvas
  }

  /** The resize handler: recompute the resolution, call onResize if it is a function, and draw
      the still image once when not playing. It never adds a pending tick. */
  function Resize(s: State): (r: State)
    ensures ResizeThrows(s) ==> r == s
    ensures !ResizeThrows(s) ==> r.log == s.log + [ResolutionUpdated]
                                 + (if s.config.hasOnResize then [ResizeHookCalled] else [])
                                 + (if !s.playing then DrawCall(s) else [])
    ensures r.pending == s.pending
    ensures r.(log := s.log) == s
  {
    if !s.hasCanvas then s
    else
      var resized := s.(log := s.log + [ResolutionUpdated]);
      var hooked := if resized.config.hasOnResize
                    then resized.(log := resized.log + [ResizeHookCalled]) else resized;
      if !hooked.playing then Draw(hooked) else hooked
  }

  /** The key that the keyup handler reacts to: code 'Space' or keyCode 32. */
  predicate IsSpace(code: string, keyCode: int) {
    code == "Space" || keyCode == 32
  }

  /** The keyup handler: releasing Space toggles play; any other key does nothing. */
  function KeyUp(s: State, code: string, keyCode: int): (r: State)
    ensures r.playing == (s.playing != IsSpace(code, keyCode))
    ensures IsSpace(code, keyCode) ==> r == Play(s, Given(!s.playing))
    ensures !IsSpace(code, keyCode) ==> r == s
  {
    if IsSpace(code, keyCode) then TogglePlay(s) else s
  }

  /** The host scheduler runs the i-th pending continuation: a timer requests a frame; a frame
      calls draw(). */
  function Fire(s: State, i: nat): (r: State)
    requires i < |s.pending|
    ensures r.(pending := s.pending, log := s.log) == s
    ensures |r.pending| == |s.pending| - (if s.pending[i].Frame? && !s.playing then 1 else 0)
    ensures r.pending[..|s.pending| - 1] == Remove(s.pending, i)
    ensures s.pending[i].Delayed? ==> r.log == s.log && r.pending[|s.pending| - 1] == Frame
    ensures s.pending[i].Frame? ==> r.log == s.log + DrawCall(s)
    ensures s.pending[i].Frame? && s.playing ==> r.pending[|s.pending| - 1] == NextTick(s.config.throttle)
  {
    var rest := s.(pending := Remove(s.pending, i));
    if s.pending[i].Delayed? then rest.(pending := rest.pending + [Frame]) else Draw(rest)
  }

  // ---------------------------------------------------------------------------------------
  // Everything that can happen to a player, one step at a time

  /** One thing the host or the user can do; the clicks on the stop element, the continue button
      and the canvas all call togglePlay(). Assign writes the public configuration fields. */
  datatype Op =
    | PlayCalled(arg: PlayArg)
    | TogglePlayCalled
    | ToggleSoundCalled
    | DrawCalled
    | TickFired(index: nat)
    | Resized
    | KeyReleased(code: string, keyCode: int)
    | SoundToggleSet(isFunction: bool)
    | CanvasCreated
    | Assign(config: Config)

  /** The state after op; a tick that is not pending cannot fire, so that step changes nothing. */
  function Step(s: State, op: Op): (r: State)
    ensures r.hasCanvas == (s.hasCanvas || op.CanvasCreated?)
    ensures !op.Assign? && !op.SoundToggleSet? ==> r.config == s.config
    ensures op.Assign? ==> r == s.(config := op.config)
  {
    match op
    case PlayCalled(arg) => Play(s, arg)
    case TogglePlayCalled => TogglePlay(s)
    case ToggleSoundCalled => ToggleSound(s)
    case DrawCalled => Draw(s)
    case TickFired(i) => if i < |s.pending| then Fire(s, i) else s
    case Resized => Resize(s)
    case KeyReleased(code, keyCode) => KeyUp(s, code, keyCode)
    case SoundToggleSet(isFunction) => SetOnSoundToggle(s, isFunction)
    case CanvasCreated => CreateCanvas(s)
    case Assign(c) => s.(config := c)
  }

  function Run(s: State, ops: seq<Op>): State
    decreases |ops|
  {
    if ops == [] then s else Run(Step(s, ops[0]), ops[1..])
  }

  /** What play() establishes and every later step keeps. */
  predicate Settled(s: State) {
    Consistent(s) && ContinueMatches(s)
  }

  /** The constructor's state is not settled: both flags start out false and there is no
      continue button, so `_paused == !_play` holds only once play() has run. */
  lemma InitialNotSettled()
    ensures !Consistent(Initial) && !ContinueMatches(Initial)
    ensures Initial.muted && SoundMatches(Initial) && Initial.pending == []
  {
  }

  lemma StepKeepsSettled(s: State, op: Op)
    requires Settled(s)
    ensures Settled(Step(s, op))
  {
  }

  /** Every call of play(), directly or through togglePlay(), settles the state. */
  lemma PlaySettles(s: State, arg: PlayArg)
    ensures Settled(Play(s, arg)) && Settled(TogglePlay(s))
  {
  }

  /** Once settled, a player stays settled whatever happens next. */
  lemma {:induction false} RunKeepsSettled(s: State, ops: seq<Op>)
    requires Settled(s)
    ensures Settled(Run(s, ops))
    decreases |ops|
  {
    if ops != [] {
      StepKeepsSettled(s, ops[0]);
      RunKeepsSettled(Step(s, ops[0]), ops[1..]);
    }
  }

  /** From the constructor, any history that starts with play() or togglePlay() keeps
      `_paused == !_play` and the continue button in step with the flag. */
  lemma {:induction false} SettledAfterFirstPlay(ops: seq<Op>)
    requires ops != [] && (ops[0].PlayCalled? || ops[0] == TogglePlayCalled)
    ensures Settled(Run(Initial, ops))
  {
    PlaySettles(Initial, if ops[0].PlayCalled? then ops[0].arg else Given(true));
    RunKeepsSettled(Step(Initial, ops[0]), ops[1..]);
  }

  /** Only toggleSound() changes _mute: play, pause, draw, ticks and resizes leave it alone. */
  lemma StepKeepsMute(s: State, op: Op)
    requires op != ToggleSoundCalled
    ensures Step(s, op).muted == s.muted
  {
    match op
    case TickFired(i) =>
      if i < |s.pending| {
        assert Fire(s, i).muted == s.muted;
      }
    case _ =>
  }

  /** The sound button's 'off' class follows the mute state through every step except one:
      the onSoundToggle setter installs a fresh button without 'off' even when sound is on. */
  lemma StepKeepsSoundMatches(s: State, op: Op)
    requires SoundMatches(s)
    requires !(op.SoundToggleSet? && op.isFunction && !s.muted)
    ensures SoundMatches(Step(s, op))
  {
  }

  /** The setter's exception to the rule: a fresh button while unmuted shows the wrong icon. */
  lemma SoundSetterWhileUnmuted(s: State)
    requires !s.muted
    ensures !SoundMatches(SetOnSoundToggle(s, true))
  {
  }

  /** toggleSound() twice restores _mute and the sound button, and calls the hook with
      'sound on' and then 'sound off' (or the reverse). */
  lemma ToggleSoundTwice(s: State)
    ensures ToggleSound(ToggleSound(s)).muted == s.muted
    ensures SoundMatches(s) ==> ToggleSound(ToggleSound(s)).soundButton == s.soundButton
    ensures ToggleSound(ToggleSound(s)).log
            == s.log + (if s.config.hasOnSoundToggle then [SoundHookCalled(s.muted), SoundHookCalled(!s.muted)]
                        else [])
  {
  }

  // ---------------------------------------------------------------------------------------
  // Toggling, resuming and draining

  /** n calls of togglePlay(). */
  function Toggles(s: State, n: nat): State
    decreases n
  {
    if n == 0 then s else Toggles(TogglePlay(s), n - 1)
  }

  /** After n toggles the flag is flipped exactly when n is odd; from the constructor, the
      player is playing exactly after an odd number of toggles. */
  lemma {:induction false} TogglesParity(s: State, n: nat)
    ensures Toggles(s, n).playing == (s.playing != (n % 2 == 1))
    ensures n > 0 ==> Consistent(Toggles(s, n))
    ensures Toggles(s, n).muted == s.muted
    decreases n
  {
    if n > 0 {
      TogglesParity(TogglePlay(s), n - 1);
    }
  }

  /** n calls of play(true). */
  function Resumes(s: State, n: nat): State
    decreases n
  {
    if n == 0 then s else Play(Resumes(s, n - 1), Given(true))
  }

  /** play(true) does not check whether the player is already playing: each call fires onResume
      and draws once more, and each leaves one more continuation pending, so the number of
      pending ticks grows with every repeated resume. */
  lemma {:induction false} ResumesGrowPending(s: State, n: nat)
    ensures |Resumes(s, n).pending| == |s.pending| + n
    ensures Count(Resumes(s, n).log, ResumeHookCalled)
            == Count(s.log, ResumeHookCalled) + (if s.config.hasOnResume then n else 0)
    ensures Count(Resumes(s, n).log, DrawFuncCalled)
            == Count(s.log, DrawFuncCalled) + (if s.config.hasDrawFunc then n else 0)
    ensures Count(Resumes(s, n).log, PauseHookCalled) == Count(s.log, PauseHookCalled)
    ensures Resumes(s, n).config == s.config
    decreases n
  {
    if n > 0 {
      var before := Resumes(s, n - 1);
      ResumesGrowPending(s, n - 1);
      PlayFiresOneHook(before, Given(true));
    }
  }

  /** Every play() call fires exactly one hook, the one its value selects (if it is a function),
      and never the other, whether or not the value changed. */
  lemma {:induction false} PlayFiresOneHook(s: State, arg: PlayArg)
    ensures var r := Play(s, arg);
      Count(r.log, ResumeHookCalled)
        == Count(s.log, ResumeHookCalled) + (if r.playing && s.config.hasOnResume then 1 else 0)
      && Count(r.log, PauseHookCalled)
        == Count(s.log, PauseHookCalled) + (if !r.playing && s.config.hasOnPause then 1 else 0)
      && Count(r.log, DrawFuncCalled)
        == Count(s.log, DrawFuncCalled) + (if r.playing && s.config.hasDrawFunc then 1 else 0)
  {
    var v := PlayValue(arg);
    var added := HookCall(s, v) + (if v then DrawCall(s) else []);
    assert Play(s, arg).log == s.log + added;
    CountAppend(s.log, added, ResumeHookCalled);
    CountAppend(s.log, added, PauseHookCalled);
    CountAppend(s.log, added, DrawFuncCalled);
  }

  /** While playing, the chain continues: firing a frame puts back exactly the tick draw()
      schedules, throttled again when throttle is nonzero, so the count stays the same.
      While paused, every firing strictly lowers the work still owed, so the pending ticks drain
      and no continuation is added after the pause is observed. */
  lemma {:induction false} FireKeepsOrDrains(s: State, i: nat)
    requires i < |s.pending|
    ensures s.playing && s.pending[i].Frame? ==> |Fire(s, i).pending| == |s.pending|
    ensures s.playing && s.pending[i].Frame? ==>
              Fire(s, i).pending == Remove(s.pending, i) + [NextTick(s.config.throttle)]
    ensures !s.playing ==> Weight(Fire(s, i).pending) < Weight(s.pending)
    ensures !s.playing ==> multiset(Fire(s, i).pending) <= multiset(s.pending) + multiset{Frame}
  {
    var rest := Remove(s.pending, i);
    WeightRemove(s.pending, i);
    if s.pending[i].Delayed? {
      WeightAppend(rest, [Frame]);
    }
  }

  /** The resize handler never schedules: it draws the still image once exactly when paused
      (and drawFunc is a function), and adds no draw of its own while playing. */
  lemma {:induction false} ResizeDrawsOnlyWhenPaused(s: State)
    requires !ResizeThrows(s)
    ensures Count(Resize(s).log, DrawFuncCalled)
            == Count(s.log, DrawFuncCalled) + (if !s.playing && s.config.hasDrawFunc then 1 else 0)
    ensures Count(Resize(s).log, ResizeHookCalled)
            == Count(s.log, ResizeHookCalled) + (if s.config.hasOnResize then 1 else 0)
    ensures |Resize(s).pending| == |s.pending|
  {
    var hook := if s.config.hasOnResize then [ResizeHookCalled] else [];
    var still := if !s.playing then DrawCall(s) else [];
    assert Resize(s).log == s.log + [ResolutionUpdated] + hook + still;
    forall e | e == DrawFuncCalled || e == ResizeHookCalled
      ensures Count(Resize(s).log, e) == Count(s.log, e) + Count(hook, e) + Count(still, e)
    {
      CountAppend(s.log + [ResolutionUpdated] + hook, still, e);
      CountAppend(s.log + [ResolutionUpdated], hook, e);
      CountAppend(s.log, [ResolutionUpdated], e);
      CountSingle(ResolutionUpdated, e);
    }
    CountSingle(ResizeHookCalled, DrawFuncCalled);
    CountSingle(ResizeHookCalled, ResizeHookCalled);
    CountSingle(DrawFuncCalled, DrawFuncCalled);
    CountSingle(DrawFuncCalled, ResizeHookCalled);
  }

  /** Starting from the constructor with every callback set, one toggle plays, fires onResume
      once, leaves the continue button uncreated, and draws once before any tick fires. */
  lemma FirstToggleScenario()
    ensures var s := Initial.(config := Config(0, true, false, true, true, false));
      TogglePlay(s).playing && !TogglePlay(s).paused && TogglePlay(s).muted
      && TogglePlay(s).log == [ResumeHookCalled, DrawFuncCalled]
      && TogglePlay(s).continueButton == NotCreated
      && TogglePlay(s).pending == [Frame]
  {
  }
}
