/** The first level's tutorial (src/ts/levels.ts): a state machine Start → Intro → FAD → Play
    driven by the beacon key, the FAD toggle key and the end of the clip being played. Its
    outputs are the clips played and stopped and the toggles of the ship's FAD. */
module Levels {

  /** `Level_1_State`, with the enum's numeric order. */
  datatype Stage = Start | Intro | FAD | Play
  {
    function Rank(): (r: nat)
      ensures r <= 3
    {
      match this
      case Start => 0
      case Intro => 1
      case FAD => 2
      case Play => 3
    }
  }

  /** The clips the level plays. */
  datatype Clip = CanYouHearMe | IntroClip | FadClip | Drive | Help
  {
    function Path(): string
    {
      match this
      case CanYouHearMe => "assets/1.1_can_you_hear_me.mp3"
      case IntroClip => "assets/1.2_intro.mp3"
      case FadClip => "assets/1.3_fad.mp3"
      case Drive => "assets/1.4_drive.mp3"
      case Help => "assets/1.help.mp3"
    }

    /** The delay passed to `player.play`, in milliseconds. */
    function DelayMs(): nat
    {
      match this
      case CanYouHearMe => 2000
      case FadClip => 2000
      case _ => 0
    }
  }

  /** What the level does to the world. */
  datatype Effect = Played(clip: Clip) | Stopped | ShipFADToggled

  /** What happens to the level. `ClipEnded` is the end of the clip now playing. */
  datatype Input = Beacon | ToggleFAD | ClipEnded

  datatype Config = Config(stage: Stage, playing: Clip)

  datatype Outcome = Outcome(next: Config, effects: seq<Effect>)

  /** The clip `handleState` starts for each stage. */
  function ClipFor(stage: Stage): (c: Clip)
    ensures c != Help
    ensures c.DelayMs() == (if stage == Start || stage == FAD then 2000 else 0)
  {
    match stage
    case Start => CanYouHearMe
    case Intro => IntroClip
    case FAD => FadClip
    case Play => Drive
  }

  /** `handleState` after moving to `stage`: stop the current clip, start the stage's clip. */
  function Enter(c: Config, stage: Stage): Outcome
  {
    Outcome(Config(stage, ClipFor(stage)), [Stopped, Played(ClipFor(stage))])
  }

  /** The level's reaction to one input: `beacon`, `toggleFAD`, or the `ended` listener the
      playing clip was given when it started. */
  function Step(c: Config, input: Input): Outcome
  {
    match input
    case Beacon =>
      if c.stage == Start then Enter(c, Intro)
      else if c.stage == Play then Outcome(Config(Play, Help), [Stopped, Played(Help)])
      else Outcome(c, [])
    case ToggleFAD =>
      if c.stage.Rank() < FAD.Rank() then Outcome(c, [])
      else if c.stage == FAD then
        var entered := Enter(c, Play);
        Outcome(entered.next, entered.effects + [ShipFADToggled])
      else Outcome(c, [ShipFADToggled])
    case ClipEnded =>
      match c.playing
      case CanYouHearMe => Enter(c, c.stage)
      case IntroClip => Enter(c, FAD)
      case FadClip => Enter(c, c.stage)
      case _ => Outcome(c, [])
  }

  /** The clip playing is the one its stage started, or the help clip during play. */
  ghost predicate Consistent(c: Config)
  {
    c.playing == ClipFor(c.stage) || (c.stage == Play && c.playing == Help)
  }

  /** The configuration after `init`. */
  function Initial(): (c: Config)
    ensures c.stage == Start && Consistent(c)
  {
    Config(Start, ClipFor(Start))
  }

  lemma StepKeepsConsistent(c: Config, input: Input)
    requires Consistent(c)
    ensures Consistent(Step(c, input).next)
  {
  }

  /** The stage never goes back. */
  lemma StepMonotone(c: Config, input: Input)
    requires Consistent(c)
    ensures c.stage.Rank() <= Step(c, input).next.stage.Rank()
  {
  }

  /** Before the FAD stage the toggle key does nothing at all. */
  lemma ToggleIgnoredEarly(c: Config)
    requires c.stage == Start || c.stage == Intro
    ensures Step(c, ToggleFAD) == Outcome(c, [])
  {
  }

  /** The ship's FAD is toggled by an input exactly when it is the toggle key from the FAD
      stage on, and then once, as the last effect. */
  lemma ShipToggledOnlyFromFAD(c: Config, input: Input)
    ensures var o := Step(c, input);
      && (ShipFADToggled in o.effects <==> input == ToggleFAD && FAD.Rank() <= c.stage.Rank())
      && (ShipFADToggled in o.effects ==>
            o.effects[|o.effects| - 1] == ShipFADToggled && ShipFADToggled !in o.effects[..|o.effects| - 1])
  {
  }

  /** The beacon moves Start to Intro; during play it swaps the clip for the help clip
      without changing stage; in Intro and FAD it does nothing. */
  lemma BeaconCases(c: Config)
    ensures c.stage == Start ==> Step(c, Beacon).next == Config(Intro, IntroClip)
    ensures c.stage == Play ==> Step(c, Beacon) == Outcome(Config(Play, Help), [Stopped, Played(Help)])
    ensures c.stage == Intro || c.stage == FAD ==> Step(c, Beacon) == Outcome(c, [])
  {
  }

  /** When a stage's clip ends, Intro moves on to FAD, Start and FAD replay their clip, and
      the drive and help clips have no follow-up. */
  lemma ClipEndedCases(stage: Stage)
    ensures var o := Step(Config(stage, ClipFor(stage)), ClipEnded);
      && (stage == Intro ==> o.next == Config(FAD, FadClip))
      && (stage == Start || stage == FAD ==> o == Outcome(Config(stage, ClipFor(stage)), [Stopped, Played(ClipFor(stage))]))
      && (stage == Play ==> o == Outcome(Config(Play, Drive), []))
  {
  }

  /** A sequence of inputs, with the effects concatenated in order. */
  function Run(c: Config, inputs: seq<Input>): Outcome
    decreases |inputs|
  {
    if inputs == [] then Outcome(c, [])
    else
      var first := Step(c, inputs[0]);
      var rest := Run(first.next, inputs[1..]);
      Outcome(rest.next, first.effects + rest.effects)
  }

  /** Over any run from a consistent configuration the stage never goes back, and the
      configuration stays consistent. */
  lemma {:induction false} RunMonotone(c: Config, inputs: seq<Input>)
    requires Consistent(c)
    ensures Consistent(Run(c, inputs).next)
    ensures c.stage.Rank() <= Run(c, inputs).next.stage.Rank()
    decreases |inputs|
  {
    if inputs != [] {
      StepKeepsConsistent(c, inputs[0]);
      StepMonotone(c, inputs[0]);
      RunMonotone(Step(c, inputs[0]).next, inputs[1..]);
    }
  }

  /** Once in play the stage stays play, whatever happens. */
  lemma {:induction false} PlayIsFinal(c: Config, inputs: seq<Input>)
    requires Consistent(c) && c.stage == Play
    ensures Run(c, inputs).next.stage == Play
  {
    RunMonotone(c, inputs);
  }

  /** The tutorial path: beacon, the intro ending, then the toggle, reaches play with the drive
      clip, having toggled the ship's FAD once more. */
  lemma TutorialPath()
    ensures Run(Initial(), [Beacon, ClipEnded, ToggleFAD]) ==
      Outcome(Config(Play, Drive),
              [Stopped, Played(IntroClip), Stopped, Played(FadClip), Stopped, Played(Drive), ShipFADToggled])
  {
    var c0 := Initial();
    var c1 := Step(c0, Beacon);
    var c2 := Step(c1.next, ClipEnded);
    var c3 := Step(c2.next, ToggleFAD);
    assert [Beacon, ClipEnded, ToggleFAD][1..] == [ClipEnded, ToggleFAD];
    assert [ClipEnded, ToggleFAD][1..] == [ToggleFAD];
    assert Run(c2.next, [ToggleFAD]) == Outcome(c3.next, c3.effects + []);
  }

  /** `Level_1`: the stage field, the playback field and the level's effects so far. */
  class Level1 {
    var stage: Stage
    var playing: Clip
    var effects: seq<Effect>

    /** The level's construction, which runs `init`: enter Start, toggle the ship's FAD once
        and start the first clip. No clip was playing before, so none is stopped. */
    constructor ()
      ensures stage == Start && playing == CanYouHearMe
      ensures effects == [ShipFADToggled, Played(CanYouHearMe)]
      ensures Config(stage, playing) == Initial()
    {
      stage := Start;
      playing := CanYouHearMe;
      effects := [ShipFADToggled, Played(CanYouHearMe)];
    }

    /** `handleState`: stop the current clip and start the one for the current stage. */
    method HandleState()
      modifies this
      ensures stage == old(stage) && playing == ClipFor(stage)
      ensures effects == old(effects) + [Stopped, Played(ClipFor(stage))]
    {
      effects := effects + [Stopped];
      if stage == Start {
        playing := CanYouHearMe;
      }
      if stage == Intro {
        playing := IntroClip;
      }
      if stage == FAD {
        playing := FadClip;
      }
      if stage == Play {
        playing := Drive;
      }
      effects := effects + [Played(playing)];
    }

    method Beacon()
      modifies this
      ensures Config(stage, playing) == Step(old(Config(stage, playing)), Input.Beacon).next
      ensures effects == old(effects) + Step(old(Config(stage, playing)), Input.Beacon).effects
    {
      if stage == Start {
        stage := Intro;
        HandleState();
      }
      if stage == Play {
        effects := effects + [Stopped];
        playing := Help;
        effects := effects + [Played(Help)];
      }
    }

    method ToggleFAD()
      modifies this
      ensures Config(stage, playing) == Step(old(Config(stage, playing)), Input.ToggleFAD).next
      ensures effects == old(effects) + Step(old(Config(stage, playing)), Input.ToggleFAD).effects
    {
      if stage.Rank() < FAD.Rank() {
        return;
      }
      if stage == FAD {
        stage := Play;
        HandleState();
      }
      effects := effects + [ShipFADToggled];
    }

    /** The `ended` listener the playing clip was registered with when it started. */
    method ClipEnded()
      modifies this
      ensures Config(stage, playing) == Step(old(Config(stage, playing)), Input.ClipEnded).next
      ensures effects == old(effects) + Step(old(Config(stage, playing)), Input.ClipEnded).effects
    {
      match playing
      case CanYouHearMe =>
        HandleState();
      case IntroClip =>
        stage := FAD;
        HandleState();
      case FadClip =>
        HandleState();
      case _ =>
    }
  }
}
