/**
 * The per-event fast Monte-Carlo reconstruction: from the true hits and
 * particles of one coincidence to one row of true and smeared ("reconstructed")
 * cylindrical coordinates and times of the first interaction of each of the
 * two back-to-back gammas.
 */
module FastMc {
  import opened Wrappers
  import opened Events
  import opened Geometry
  import opened Records

  type PositiveReal = x: real | x > 0.0 witness 1.0

  /**
   * One picosecond in the simulation's internal time unit (`units.ps` of the
   * system of units). Its value is left abstract: only its sign matters here.
   */
  const Picosecond: PositiveReal

  /** An error matrix with one variable: sampled error of a true value, or None outside its support. */
  type Sampler1D = real -> Option<real>

  /** An error matrix with two variables: sampled error of a true value given the true radius. */
  type Sampler2D = (real, real) -> Option<real>

  /** The four error matrices of one interaction type (photoelectric or Compton). */
  datatype ErrorMatrices = ErrorMatrices(r: Sampler1D, phi: Sampler2D, z: Sampler2D, t: Sampler1D)

  /** What the first-interaction selector reports; an empty position is `None`. */
  datatype FirstInteractions = FirstInteractions(
    pos1: Option<Vec3>, pos2: Option<Vec3>, t1: real, t2: real, phot1: bool, phot2: bool)

  /** The first-interaction selector: event particles, event hits and photoelectric range. */
  type Selector = (seq<Particle>, seq<Hit>, real) -> FirstInteractions

  /** The keyword arguments of the simulation. */
  datatype Config = Config(trueEThreshold: real, photoRange: real, onlyPhot: bool)

  const DefaultConfig := Config(0.0, 1.0, false)

  /** The four sampled errors of one interaction, in the order (r, phi, z, t). */
  type Errors = (Option<real>, Option<real>, Option<real>, Option<real>)

  /**
   * Samples the errors of one interaction: r and t errors from the true value
   * alone, phi and z errors from the true value conditioned on the true radius.
   */
  function GetRecoInteraction(r: real, phi: real, z: real, t: real, m: ErrorMatrices): (e: Errors)
    ensures e.0 == m.r(r) && e.3 == m.t(t)
    ensures e.1 == m.phi(phi, r) && e.2 == m.z(z, r)
  {
    (m.r(r), m.phi(phi, r), m.z(z, r), m.t(t))
  }

  /** The four samples of an interaction are usable: none of them is `None`. */
  function AllDefined(e: Errors): (ok: bool)
    ensures !ok <==> None in [e.0, e.1, e.2, e.3]
  {
    e.0.Some? && e.1.Some? && e.2.Some? && e.3.Some?
  }

  /** The boolean flag written as a float column. */
  function AsFloat(b: bool): (x: real)
    ensures b ==> x == 1.0
    ensures !b ==> x == 0.0
  {
    if b then 1.0 else 0.0
  }

  /**
   * Simulates the reconstruction of one coincidence, falling back to the
   * default row on every failure: the event's rows are selected from the
   * tables and handed to `SimulateSelected`.
   */
  function SimulateRecoEvent(evtId: int, hits: seq<Hit>, particles: seq<Particle>,
                             select: Selector, polar: Polar,
                             p: ErrorMatrices, c: ErrorMatrices, cfg: Config): (rec: Record)
    ensures rec.eventId == evtId as real
    ensures rec.trueEnergy == EventEnergy(hits, evtId)
  {
    SimulateSelected(evtId, EventParticles(particles, evtId), EventHits(hits, evtId), select, polar, p, c, cfg)
  }

  /** The simulation of one coincidence from the rows already selected for it. */
  function SimulateSelected(evtId: int, evtParts: seq<Particle>, evtHits: seq<Hit>,
                            select: Selector, polar: Polar,
                            p: ErrorMatrices, c: ErrorMatrices, cfg: Config): (rec: Record)
    ensures rec.eventId == evtId as real
    ensures rec.trueEnergy == EnergySum(evtHits)
  {
    var energy := EnergySum(evtHits);
    if energy < cfg.trueEThreshold then DefaultRecord(evtId, energy)
    else
      var fi := select(evtParts, evtHits, cfg.photoRange);
      var noRecoPositions := fi.pos1.None? || fi.pos2.None?;
      var noPhotInteractions := !fi.phot1 || !fi.phot2;
      if noRecoPositions || (cfg.onlyPhot && noPhotInteractions) then DefaultRecord(evtId, energy)
      else
        var t1 := fi.t1 / Picosecond;
        var t2 := fi.t2 / Picosecond;
        var cylPos := FromCartesianToCyl(polar, [fi.pos1.value, fi.pos2.value]);
        var (r1, phi1, z1) := (cylPos[0].r, cylPos[0].phi, cylPos[0].z);
        var (r2, phi2, z2) := (cylPos[1].r, cylPos[1].phi, cylPos[1].z);
        var e1 := if fi.phot1 then GetRecoInteraction(r1, phi1, z1, t1, p)
                  else GetRecoInteraction(r1, phi1, z1, t1, c);
        var e2 := if fi.phot2 then GetRecoInteraction(r2, phi2, z2, t2, p)
                  else GetRecoInteraction(r2, phi2, z2, t2, c);
        if !AllDefined(e1) || !AllDefined(e2) then DefaultRecord(evtId, energy)
        else
          Record(evtId as real, energy,
                 r1, phi1, z1, t1,
                 r2, phi2, z2, t2,
                 AsFloat(fi.phot1), AsFloat(fi.phot2),
                 r1 - e1.0.value, phi1 - e1.1.value, z1 - e1.2.value, t1 - e1.3.value,
                 r2 - e2.0.value, phi2 - e2.1.value, z2 - e2.2.value, t2 - e2.3.value)
  }
}
