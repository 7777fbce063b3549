/**
 Battery voltage classification. Voltages are integer millivolts; the source
 compares a float in volts against 3.3, 3.4 and 4.5.
 */
module Power {

  /** Below this the device shuts down. */
  const ShutdownMv := 3300
  /** Below this (and not below `ShutdownMv`) the battery is reported low. */
  const LowMv := 3400
  /** From this up the supply is taken to be USB, and lightsleep is not used. */
  const ExternalMv := 4500

  datatype Level = Normal | Low | Critical

  /** The three-way branch on a voltage reading: shutdown, low battery or normal. */
  function Classify(mv: int): (l: Level)
    ensures l == Critical <==> mv < ShutdownMv
    ensures l == Low <==> ShutdownMv <= mv < LowMv
    ensures l == Normal <==> LowMv <= mv
  {
    if mv < ShutdownMv then Critical
    else if mv < LowMv then Low
    else Normal
  }

  function Rank(l: Level): nat
  {
    match l
    case Critical => 0
    case Low => 1
    case Normal => 2
  }

  /** A higher voltage never gives a worse level. */
  lemma ClassifyMonotone(mv1: int, mv2: int)
    requires mv1 <= mv2
    ensures Rank(Classify(mv1)) <= Rank(Classify(mv2))
  {
  }

  /** `lightsleep = vsys < 4.5`: battery power uses lightsleep, USB power does not. */
  function UsesLightsleep(mv: int): bool
  {
    mv < ExternalMv
  }

  /** A supply that disables lightsleep is always classified normal. */
  lemma ExternalSupplyIsNormal(mv: int)
    requires !UsesLightsleep(mv)
    ensures Classify(mv) == Normal
  {
  }

  lemma ClassifyBoundaries()
    ensures Classify(3299) == Critical && Classify(3300) == Low
    ensures Classify(3399) == Low && Classify(3400) == Normal
    ensures UsesLightsleep(4499) && !UsesLightsleep(4500)
  {
  }
}
