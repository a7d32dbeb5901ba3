/** PxWebPlayer's mutable core: the object whose fields play(), togglePlay(), toggleSound(),
    draw() and the resize and keyup handlers update in place. Each method follows the statements
    of player.js on the fields and is proved to take the player from Snapshot() to the state the
    matching function in module Playback describes. */
module Player {
  import opened Playback

  class PxWebPlayer {
    var playing: bool               // _play
    var paused: bool                // _paused
    var muted: bool                 // _mute
    var throttle: int
    var hasDrawFunc: bool           // whether drawFunc is a function
    var hasOnResize: bool
    var hasOnPause: bool
    var hasOnResume: bool
    var hasOnSoundToggle: bool      // whether onSoundToggleFunc is a function
    var hasCanvas: bool
    var continueButton: ContinueButton
    var soundButton: SoundButton
    var pending: seq<Tick>          // continuations handed to the host scheduler, not yet run
    ghost var log: seq<Event>       // calls made out of the player, in order

    /** The player's fields as a value of the specification's State. */
    ghost function Snapshot(): State
      reads this
    {
      State(playing, paused, muted,
            Config(throttle, hasDrawFunc, hasOnResize, hasOnPause, hasOnResume, hasOnSoundToggle),
            hasCanvas, continueButton, soundButton, pending, log)
    }

    /** The constructor's field initialisation (the DOM set-up it also performs is not modelled). */
    constructor ()
      ensures Snapshot() == Initial
    {
      playing := false;
      paused := false;
      muted := true;
      hasDrawFunc := false;
      hasOnResize := false;
      hasOnPause := false;
      hasOnResume := false;
      hasOnSoundToggle := false;
      throttle := 0;
      hasCanvas := false;
      continueButton := NotCreated;
      soundButton := NoSoundButton;
      pending := [];
      log := [];
    }

    method Draw()
      modifies this
      ensures Snapshot() == Playback.Draw(old(Snapshot()))
    {
      if hasDrawFunc {
        log := log + [DrawFuncCalled];
      }
      if !playing {
        return;
      }
      if throttle != 0 {
        pending := pending + [Delayed(throttle)];
      } else {
        pending := pending + [Frame];
      }
    }

    method IsPlaying() returns (b: bool)
      ensures b == playing
      ensures b == Snapshot().playing
    {
      b := playing;
    }

    method TogglePlay()
      modifies this
      ensures Snapshot() == Playback.TogglePlay(old(Snapshot()))
    {
      Play(Given(!playing));
    }

    /** Returns whether player.js throws: with no sound button, the class update dereferences
        null after _mute has flipped and the hook has run. */
    method ToggleSound() returns (threw: bool)
      modifies this
      ensures threw == ToggleSoundThrows(old(Snapshot()))
      ensures Snapshot() == Playback.ToggleSound(old(Snapshot()))
    {
      muted := !muted;
      if hasOnSoundToggle {
        log := log + [SoundHookCalled(!muted)];
      }
      threw := soundButton.NoSoundButton?;
      if threw {
        return;
      }
      if !muted {
        soundButton := SoundIcon(true);
      } else {
        soundButton := SoundIcon(false);
      }
    }

    method Play(arg: PlayArg)
      modifies this
      ensures Snapshot() == Playback.Play(old(Snapshot()), arg)
    {
      var value := if arg.Undefined? then true else arg.value;
      playing := value;
      paused := !playing;
      if !playing && hasOnPause {
        log := log + [PauseHookCalled];
      }
      if playing && hasOnResume {
        log := log + [ResumeHookCalled];
      }
      if playing {
        if continueButton.Created? {
          continueButton := Created("0", "");
        }
        Draw();
      } else {
        GetContinueButton();
        continueButton := continueButton.(opacity := "1", cursor := "pointer");
      }
    }

    /** getContinueButton(): the existing button, or a new one with an empty inline style. */
    method GetContinueButton()
      modifies this`continueButton
      ensures continueButton.Created?
      ensures old(continueButton).Created? ==> continueButton == old(continueButton)
      ensures old(continueButton).NotCreated? ==> continueButton == Created("", "")
    {
      if continueButton.NotCreated? {
        continueButton := Created("", "");
      }
    }

    /** The onSoundToggle setter. */
    method SetOnSoundToggle(isFunction: bool)
      modifies this
      ensures Snapshot() == Playback.SetOnSoundToggle(old(Snapshot()), isFunction)
    {
      if isFunction {
        hasOnSoundToggle := true;
        soundButton := SoundIcon(false);
      }
    }

    /** createCanvas(), as far as the player's fields go. */
    method CreateCanvas()
      modifies this
      ensures Snapshot() == Playback.CreateCanvas(old(Snapshot()))
    {
      hasCanvas := true;
      log := log + [ResolutionUpdated];
    }

    /** The resize listener; returns whether updateCanvasResolution() throws for lack of a canvas. */
    method OnResize() returns (threw: bool)
      modifies this
      ensures threw == ResizeThrows(old(Snapshot()))
      ensures Snapshot() == Resize(old(Snapshot()))
    {
      threw := !hasCanvas;
      if threw {
        return;
      }
      log := log + [ResolutionUpdated];
      if hasOnResize {
        log := log + [ResizeHookCalled];
      }
      if !playing {
        Draw();
      }
    }

    /** The keyup listener. */
    method OnKeyUp(code: string, keyCode: int)
      modifies this
      ensures Snapshot() == KeyUp(old(Snapshot()), code, keyCode)
    {
      if code == "Space" || keyCode == 32 {
        TogglePlay();
      }
    }

    /** The host scheduler runs the i-th pending continuation. */
    method FireTick(i: nat)
      requires i < |pending|
      modifies this
      ensures Snapshot() == Fire(old(Snapshot()), i)
    {
      var tick := pending[i];
      pending := pending[..i] + pending[i + 1..];
      if tick.Delayed? {
        pending := pending + [Frame];
      } else {
        Draw();
      }
    }
  }
}
