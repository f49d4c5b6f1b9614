/** The tunable constants of the simulator. Their values live in a
    configuration module that is not part of this model, so they are carried
    as one configuration value and every operation takes it as a parameter. */
module Constants {

  datatype Config = Config(
    radius: nat,        // radius of the observation window (SCAN_RADIUS)
    width: int,         // largest x coordinate that is still on the lattice
    height: int,        // largest y coordinate that is still on the lattice
    rabbitCode: int,    // integer an agent of each class reports as int(agent)
    foxCode: int,
    foodCode: int,
    grassCode: int,     // what a scan reads for a coordinate the world does not hold
    rabbitSpeed: int,
    foxSpeed: int,
    decay: nat,         // mutation decay constant, used by the epoch formula of refills
    refillShare: real,  // starting head-count multiple of a high-water refill (REFILL_WORLD_THRESHOLD)
    refillEpochs: real) // starting epoch count of a high-water refill (REFILL_WORLD_EPOCH_THRESHOLD)
  {
    /** What the code needs of the constants: the three class codes are
        distinct, none of them is 0 (the value the world holds for a vacated
        cell and the default of a collision lookup, which must never be taken
        for an agent), grass is none of them, both movement cadences
        10 // speed are positive, and the starting refill thresholds are a
        positive share and a non-negative epoch count. */
    predicate Valid()
    {
      && rabbitCode != foxCode && rabbitCode != foodCode && foxCode != foodCode
      && rabbitCode != 0 && foxCode != 0 && foodCode != 0
      && grassCode != rabbitCode && grassCode != foxCode && grassCode != foodCode
      && 1 <= rabbitSpeed <= 10 && 1 <= foxSpeed <= 10
      && 0.0 < refillShare && 0.0 <= refillEpochs
    }

    /** Side of the observation window (SCAN_DIAMETER). */
    function Diameter(): (d: nat)
      ensures d % 2 == 1 && d / 2 == radius
    {
      2 * radius + 1
    }
  }
}
