/**
 * The output side of the controller: pin numbers, the relay polarity chosen
 * by `BOMBA_ACTIVE_LEVEL`, and a record of what was written to which pin.
 */
module Gpio {
  import opened Optional

  /** BCM pin numbers. */
  const BombaPin: int := 27
  const ReleVPin: int := 22

  /** `BOMBA_ACTIVE_LEVEL`: 0 for an active-LOW relay module, 1 for active-HIGH. */
  const BombaActiveLevel: int := 1

  datatype Level = Low | High

  /** `_nivel_activo`: the level that switches a relay on. */
  function NivelActivo(activeLevel: int): Level {
    if activeLevel == 0 then Low else High
  }

  /** `_nivel_inactivo`: the level that switches a relay off. */
  function NivelInactivo(activeLevel: int): Level {
    if activeLevel == 0 then High else Low
  }

  /** As configured, `BOMBA_ACTIVE_LEVEL` is 1: an active-HIGH module, switched off by LOW. */
  lemma ConfiguredPolarity()
    ensures NivelActivo(BombaActiveLevel) == High && NivelInactivo(BombaActiveLevel) == Low
  {
  }

  /** The active and inactive levels differ, whatever the polarity setting. */
  lemma LevelsComplementary(activeLevel: int)
    ensures NivelActivo(activeLevel) != NivelInactivo(activeLevel)
  {
  }

  /** The level that puts a relay in the logical state `on`. */
  function LevelFor(activeLevel: int, on: bool): (l: Level)
    ensures (l == NivelActivo(activeLevel)) == on
  {
    if on then NivelActivo(activeLevel) else NivelInactivo(activeLevel)
  }

  /** A pin-level action: configuring an output with an initial level, writing a level, releasing all pins. */
  datatype Event = Setup(pin: int, level: Level) | Drive(pin: int, level: Level) | Cleanup

  /** The level most recently put on `pin` by a setup or a write, if any. */
  function LastLevel(trace: seq<Event>, pin: int): (l: Option<Level>)
    ensures l.None? <==>
      forall k :: 0 <= k < |trace| ==> !((trace[k].Setup? || trace[k].Drive?) && trace[k].pin == pin)
  {
    if |trace| == 0 then None
    else
      var e := trace[|trace| - 1];
      var front := LastLevel(trace[..|trace| - 1], pin);
      assert forall k :: 0 <= k < |trace| - 1 ==> trace[..|trace| - 1][k] == trace[k];
      if (e.Setup? || e.Drive?) && e.pin == pin then Some(e.level) else front
  }

  /** Appending events for other pins, or a cleanup, leaves a pin's last level alone. */
  lemma {:induction false} LastLevelOther(trace: seq<Event>, more: seq<Event>, pin: int)
    requires forall k :: 0 <= k < |more| ==> !((more[k].Setup? || more[k].Drive?) && more[k].pin == pin)
    ensures LastLevel(trace + more, pin) == LastLevel(trace, pin)
    decreases |more|
  {
    if |more| > 0 {
      var m := more[..|more| - 1];
      assert (trace + more)[..|trace + more| - 1] == trace + m;
      assert (trace + more)[|trace + more| - 1] == more[|more| - 1];
      assert !((more[|more| - 1].Setup? || more[|more| - 1].Drive?) && more[|more| - 1].pin == pin);
      assert LastLevel(trace + more, pin) == LastLevel(trace + m, pin);
      LastLevelOther(trace, m, pin);
    } else {
      assert trace + more == trace;
    }
  }

  /** A write is what the pin reads as last written afterwards. */
  lemma LastLevelDrive(trace: seq<Event>, pin: int, level: Level)
    ensures LastLevel(trace + [Drive(pin, level)], pin) == Some(level)
  {
  }
}
