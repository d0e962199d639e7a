/**
 * What the per-event simulation promises: the order of its guards, the
 * choice of error matrices per gamma, the fixed shape of its row and the
 * relation "reconstructed = true - sampled error".
 */
module FastMcProperties {
  import opened Wrappers
  import opened Events
  import opened Geometry
  import opened Records
  import opened FastMc

  /** The report the selector gives for the event's own particles and hits. */
  function InteractionsOf(evtId: int, hits: seq<Hit>, particles: seq<Particle>,
                          select: Selector, cfg: Config): FirstInteractions
  {
    select(EventParticles(particles, evtId), EventHits(hits, evtId), cfg.photoRange)
  }

  /** Photoelectric matrices for a photoelectric-like interaction, Compton matrices otherwise. */
  function MatricesFor(phot: bool, p: ErrorMatrices, c: ErrorMatrices): ErrorMatrices
  {
    if phot then p else c
  }

  /** The columns of the row that describe one gamma. */
  datatype GammaView = GammaView(trueR: real, truePhi: real, trueZ: real, trueT: real, photLike: real,
                                 recoR: real, recoPhi: real, recoZ: real, recoT: real)

  function Gamma1(rec: Record): GammaView
  {
    GammaView(rec.trueR1, rec.truePhi1, rec.trueZ1, rec.trueT1, rec.photLike1,
              rec.recoR1, rec.recoPhi1, rec.recoZ1, rec.recoT1)
  }

  function Gamma2(rec: Record): GammaView
  {
    GammaView(rec.trueR2, rec.truePhi2, rec.trueZ2, rec.trueT2, rec.photLike2,
              rec.recoR2, rec.recoPhi2, rec.recoZ2, rec.recoT2)
  }

  /** All four errors of an interaction at `pos`, `time` are defined in the matrices `m`. */
  predicate SamplesDefined(pos: Vec3, time: real, polar: Polar, m: ErrorMatrices)
  {
    var (r, phi) := polar(pos.x, pos.y);
    m.r(r).Some? && m.phi(phi, r).Some? && m.z(pos.z, r).Some? && m.t(time / Picosecond).Some?
  }

  /**
   * The columns of one gamma are its true cylindrical position and time in
   * picoseconds, its flag as 0/1, and each reconstructed value is the true
   * value minus the error `m` samples for it (phi and z conditioned on the true r).
   */
  predicate ReconstructedFrom(g: GammaView, pos: Vec3, time: real, phot: bool, polar: Polar, m: ErrorMatrices)
  {
    && (g.trueR, g.truePhi) == polar(pos.x, pos.y)
    && g.trueZ == pos.z
    && g.trueT == time / Picosecond
    && g.photLike == (if phot then 1.0 else 0.0)
    && m.r(g.trueR) == Some(g.trueR - g.recoR)
    && m.phi(g.truePhi, g.trueR) == Some(g.truePhi - g.recoPhi)
    && m.z(g.trueZ, g.trueR) == Some(g.trueZ - g.recoZ)
    && m.t(g.trueT) == Some(g.trueT - g.recoT)
  }

  /**
   * When the event is reconstructed, stated directly on the inputs and
   * the collaborators rather than guard by guard.
   */
  predicate Succeeds(evtId: int, hits: seq<Hit>, particles: seq<Particle>,
                     select: Selector, polar: Polar, p: ErrorMatrices, c: ErrorMatrices, cfg: Config)
  {
    var fi := InteractionsOf(evtId, hits, particles, select, cfg);
    && EventEnergy(hits, evtId) >= cfg.trueEThreshold
    && fi.pos1.Some? && fi.pos2.Some?
    && (cfg.onlyPhot ==> fi.phot1 && fi.phot2)
    && SamplesDefined(fi.pos1.value, fi.t1, polar, MatricesFor(fi.phot1, p, c))
    && SamplesDefined(fi.pos2.value, fi.t2, polar, MatricesFor(fi.phot2, p, c))
  }

  /** An event that does not succeed gives exactly the default row. */
  lemma FallbackUnlessSucceeds(evtId: int, hits: seq<Hit>, particles: seq<Particle>,
                               select: Selector, polar: Polar, p: ErrorMatrices, c: ErrorMatrices, cfg: Config)
    requires !Succeeds(evtId, hits, particles, select, polar, p, c, cfg)
    ensures SimulateRecoEvent(evtId, hits, particles, select, polar, p, c, cfg)
            == DefaultRecord(evtId, EventEnergy(hits, evtId))
  {
    var fi := InteractionsOf(evtId, hits, particles, select, cfg);
    if EventEnergy(hits, evtId) >= cfg.trueEThreshold && fi.pos1.Some? && fi.pos2.Some?
       && (cfg.onlyPhot ==> fi.phot1 && fi.phot2) {
      var cyl := FromCartesianToCyl(polar, [fi.pos1.value, fi.pos2.value]);
      var m1, m2 := MatricesFor(fi.phot1, p, c), MatricesFor(fi.phot2, p, c);
      var e1 := GetRecoInteraction(cyl[0].r, cyl[0].phi, cyl[0].z, fi.t1 / Picosecond, m1);
      var e2 := GetRecoInteraction(cyl[1].r, cyl[1].phi, cyl[1].z, fi.t2 / Picosecond, m2);
      assert !AllDefined(e1) || !AllDefined(e2);
    }
  }

  /** An event that succeeds has both gammas reconstructed, each with its own matrix set. */
  lemma ReconstructedWhenSucceeds(evtId: int, hits: seq<Hit>, particles: seq<Particle>,
                                  select: Selector, polar: Polar, p: ErrorMatrices, c: ErrorMatrices, cfg: Config)
    requires Succeeds(evtId, hits, particles, select, polar, p, c, cfg)
    ensures var rec := SimulateRecoEvent(evtId, hits, particles, select, polar, p, c, cfg);
            var fi := InteractionsOf(evtId, hits, particles, select, cfg);
            && ReconstructedFrom(Gamma1(rec), fi.pos1.value, fi.t1, fi.phot1, polar, MatricesFor(fi.phot1, p, c))
            && ReconstructedFrom(Gamma2(rec), fi.pos2.value, fi.t2, fi.phot2, polar, MatricesFor(fi.phot2, p, c))
  {
    var rec := SimulateRecoEvent(evtId, hits, particles, select, polar, p, c, cfg);
    var fi := InteractionsOf(evtId, hits, particles, select, cfg);
    var t1, t2 := fi.t1 / Picosecond, fi.t2 / Picosecond;
    var cyl := FromCartesianToCyl(polar, [fi.pos1.value, fi.pos2.value]);
    var m1, m2 := MatricesFor(fi.phot1, p, c), MatricesFor(fi.phot2, p, c);
    var e1 := GetRecoInteraction(cyl[0].r, cyl[0].phi, cyl[0].z, t1, m1);
    var e2 := GetRecoInteraction(cyl[1].r, cyl[1].phi, cyl[1].z, t2, m2);
    assert AllDefined(e1) && AllDefined(e2);
    assert Gamma1(rec) == GammaView(cyl[0].r, cyl[0].phi, cyl[0].z, t1, AsFloat(fi.phot1),
                                    cyl[0].r - e1.0.value, cyl[0].phi - e1.1.value,
                                    cyl[0].z - e1.2.value, t1 - e1.3.value);
    assert Gamma2(rec) == GammaView(cyl[1].r, cyl[1].phi, cyl[1].z, t2, AsFloat(fi.phot2),
                                    cyl[1].r - e2.0.value, cyl[1].phi - e2.1.value,
                                    cyl[1].z - e2.2.value, t2 - e2.3.value);
  }

  /**
   * All or nothing: an event that does not succeed gives exactly the default
   * row; one that succeeds gives both gammas fully reconstructed, each with the
   * matrices of its own interaction type.
   */
  lemma Outcome(evtId: int, hits: seq<Hit>, particles: seq<Particle>,
                select: Selector, polar: Polar, p: ErrorMatrices, c: ErrorMatrices, cfg: Config)
    ensures var rec := SimulateRecoEvent(evtId, hits, particles, select, polar, p, c, cfg);
            !Succeeds(evtId, hits, particles, select, polar, p, c, cfg) ==>
              rec == DefaultRecord(evtId, EventEnergy(hits, evtId))
    ensures var rec := SimulateRecoEvent(evtId, hits, particles, select, polar, p, c, cfg);
            var fi := InteractionsOf(evtId, hits, particles, select, cfg);
            Succeeds(evtId, hits, particles, select, polar, p, c, cfg) ==>
              && ReconstructedFrom(Gamma1(rec), fi.pos1.value, fi.t1, fi.phot1, polar, MatricesFor(fi.phot1, p, c))
              && ReconstructedFrom(Gamma2(rec), fi.pos2.value, fi.t2, fi.phot2, polar, MatricesFor(fi.phot2, p, c))
  {
    if Succeeds(evtId, hits, particles, select, polar, p, c, cfg) {
      ReconstructedWhenSucceeds(evtId, hits, particles, select, polar, p, c, cfg);
    } else {
      FallbackUnlessSucceeds(evtId, hits, particles, select, polar, p, c, cfg);
    }
  }

  /** Below the energy threshold the row is the default row, whatever the selector and the matrices. */
  lemma ThresholdGuard(evtId: int, hits: seq<Hit>, particles: seq<Particle>,
                       select: Selector, polar: Polar, p: ErrorMatrices, c: ErrorMatrices, cfg: Config)
    requires EventEnergy(hits, evtId) < cfg.trueEThreshold
    ensures SimulateRecoEvent(evtId, hits, particles, select, polar, p, c, cfg)
            == DefaultRecord(evtId, EventEnergy(hits, evtId))
  {
  }

  /** Below the threshold the selector, the transform and the matrices are never consulted. */
  lemma SelectorNotConsultedBelowThreshold(evtId: int, hits: seq<Hit>, particles: seq<Particle>, cfg: Config,
                                           select: Selector, polar: Polar, p: ErrorMatrices, c: ErrorMatrices,
                                           select': Selector, polar': Polar, p': ErrorMatrices, c': ErrorMatrices)
    requires EventEnergy(hits, evtId) < cfg.trueEThreshold
    ensures SimulateRecoEvent(evtId, hits, particles, select, polar, p, c, cfg)
            == SimulateRecoEvent(evtId, hits, particles, select', polar', p', c', cfg)
  {
  }

  /** A missing first interaction of either gamma gives the default row, whatever the flags and the filter. */
  lemma MissingPositionGuard(evtId: int, hits: seq<Hit>, particles: seq<Particle>,
                             select: Selector, polar: Polar, p: ErrorMatrices, c: ErrorMatrices, cfg: Config)
    requires var fi := InteractionsOf(evtId, hits, particles, select, cfg);
             fi.pos1.None? || fi.pos2.None?
    ensures SimulateRecoEvent(evtId, hits, particles, select, polar, p, c, cfg)
            == DefaultRecord(evtId, EventEnergy(hits, evtId))
  {
    Outcome(evtId, hits, particles, select, polar, p, c, cfg);
  }

  /** With `only_phot` set, a gamma that is not photoelectric-like gives the default row. */
  lemma OnlyPhotGuard(evtId: int, hits: seq<Hit>, particles: seq<Particle>,
                      select: Selector, polar: Polar, p: ErrorMatrices, c: ErrorMatrices, cfg: Config)
    requires cfg.onlyPhot
    requires var fi := InteractionsOf(evtId, hits, particles, select, cfg);
             !fi.phot1 || !fi.phot2
    ensures SimulateRecoEvent(evtId, hits, particles, select, polar, p, c, cfg)
            == DefaultRecord(evtId, EventEnergy(hits, evtId))
  {
    Outcome(evtId, hits, particles, select, polar, p, c, cfg);
  }

  /**
   * The `only_phot` filter only removes events: with it set the row is the
   * row without it when both gammas are photoelectric-like, and the default
   * row otherwise. Without it the flags never cause a fallback as a filter:
   * they only choose each gamma's matrix set, and that set's samples decide
   * the undefined-sample guard.
   */
  lemma OnlyPhotFilter(evtId: int, hits: seq<Hit>, particles: seq<Particle>,
                       select: Selector, polar: Polar, p: ErrorMatrices, c: ErrorMatrices, cfg: Config)
    ensures var fi := InteractionsOf(evtId, hits, particles, select, cfg);
            SimulateRecoEvent(evtId, hits, particles, select, polar, p, c, cfg.(onlyPhot := true))
            == if fi.phot1 && fi.phot2
               then SimulateRecoEvent(evtId, hits, particles, select, polar, p, c, cfg.(onlyPhot := false))
               else DefaultRecord(evtId, EventEnergy(hits, evtId))
    ensures var fi := InteractionsOf(evtId, hits, particles, select, cfg);
            !cfg.onlyPhot ==>
              (Succeeds(evtId, hits, particles, select, polar, p, c, cfg)
               <==> && EventEnergy(hits, evtId) >= cfg.trueEThreshold
                    && fi.pos1.Some? && fi.pos2.Some?
                    && SamplesDefined(fi.pos1.value, fi.t1, polar, MatricesFor(fi.phot1, p, c))
                    && SamplesDefined(fi.pos2.value, fi.t2, polar, MatricesFor(fi.phot2, p, c)))
  {
  }

  /** One undefined error among the eight gives the default row: never a partly reconstructed one. */
  lemma UndefinedSampleGuard(evtId: int, hits: seq<Hit>, particles: seq<Particle>,
                             select: Selector, polar: Polar, p: ErrorMatrices, c: ErrorMatrices, cfg: Config)
    requires var fi := InteractionsOf(evtId, hits, particles, select, cfg);
             && fi.pos1.Some? && fi.pos2.Some?
             && (!SamplesDefined(fi.pos1.value, fi.t1, polar, MatricesFor(fi.phot1, p, c))
                 || !SamplesDefined(fi.pos2.value, fi.t2, polar, MatricesFor(fi.phot2, p, c)))
    ensures SimulateRecoEvent(evtId, hits, particles, select, polar, p, c, cfg)
            == DefaultRecord(evtId, EventEnergy(hits, evtId))
  {
    Outcome(evtId, hits, particles, select, polar, p, c, cfg);
  }

  /** When both gammas are photoelectric-like the Compton matrices play no part. */
  lemma PhotoelectricPairIgnoresCompton(evtId: int, hits: seq<Hit>, particles: seq<Particle>,
                                        select: Selector, polar: Polar, p: ErrorMatrices,
                                        c: ErrorMatrices, c': ErrorMatrices, cfg: Config)
    requires var fi := InteractionsOf(evtId, hits, particles, select, cfg);
             fi.phot1 && fi.phot2
    ensures SimulateRecoEvent(evtId, hits, particles, select, polar, p, c, cfg)
            == SimulateRecoEvent(evtId, hits, particles, select, polar, p, c', cfg)
  {
  }

  /** When neither gamma is photoelectric-like the photoelectric matrices play no part. */
  lemma ComptonPairIgnoresPhotoelectric(evtId: int, hits: seq<Hit>, particles: seq<Particle>,
                                        select: Selector, polar: Polar, p: ErrorMatrices,
                                        p': ErrorMatrices, c: ErrorMatrices, cfg: Config)
    requires var fi := InteractionsOf(evtId, hits, particles, select, cfg);
             !fi.phot1 && !fi.phot2
    ensures SimulateRecoEvent(evtId, hits, particles, select, polar, p, c, cfg)
            == SimulateRecoEvent(evtId, hits, particles, select, polar, p', c, cfg)
  {
  }

  /** Matrices whose every sample is a zero error. */
  ghost predicate ZeroMatrices(m: ErrorMatrices)
  {
    && (forall v :: m.r(v) == Some(0.0))
    && (forall v, r :: m.phi(v, r) == Some(0.0))
    && (forall v, r :: m.z(v, r) == Some(0.0))
    && (forall v :: m.t(v) == Some(0.0))
  }

  /**
   * Round trip: with every error forced to zero, an event that passes the
   * energy, position and filter guards is reconstructed exactly at its true point.
   */
  lemma ZeroErrorsReproduceTruth(evtId: int, hits: seq<Hit>, particles: seq<Particle>,
                                 select: Selector, polar: Polar, p: ErrorMatrices, c: ErrorMatrices, cfg: Config)
    requires ZeroMatrices(p) && ZeroMatrices(c)
    requires EventEnergy(hits, evtId) >= cfg.trueEThreshold
    requires var fi := InteractionsOf(evtId, hits, particles, select, cfg);
             fi.pos1.Some? && fi.pos2.Some? && (cfg.onlyPhot ==> fi.phot1 && fi.phot2)
    ensures var rec := SimulateRecoEvent(evtId, hits, particles, select, polar, p, c, cfg);
            var fi := InteractionsOf(evtId, hits, particles, select, cfg);
            && (rec.recoR1, rec.recoPhi1) == polar(fi.pos1.value.x, fi.pos1.value.y)
            && rec.recoZ1 == fi.pos1.value.z && rec.recoT1 == fi.t1 / Picosecond
            && (rec.recoR2, rec.recoPhi2) == polar(fi.pos2.value.x, fi.pos2.value.y)
            && rec.recoZ2 == fi.pos2.value.z && rec.recoT2 == fi.t2 / Picosecond
    ensures var rec := SimulateRecoEvent(evtId, hits, particles, select, polar, p, c, cfg);
            && rec.recoR1 == rec.trueR1 && rec.recoPhi1 == rec.truePhi1
            && rec.recoZ1 == rec.trueZ1 && rec.recoT1 == rec.trueT1
            && rec.recoR2 == rec.trueR2 && rec.recoPhi2 == rec.truePhi2
            && rec.recoZ2 == rec.trueZ2 && rec.recoT2 == rec.trueT2
  {
    var fi := InteractionsOf(evtId, hits, particles, select, cfg);
    var m1, m2 := MatricesFor(fi.phot1, p, c), MatricesFor(fi.phot2, p, c);
    var (r1, phi1) := polar(fi.pos1.value.x, fi.pos1.value.y);
    var (r2, phi2) := polar(fi.pos2.value.x, fi.pos2.value.y);
    assert m1.r(r1) == Some(0.0) && m1.phi(phi1, r1) == Some(0.0);
    assert m1.z(fi.pos1.value.z, r1) == Some(0.0) && m1.t(fi.t1 / Picosecond) == Some(0.0);
    assert m2.r(r2) == Some(0.0) && m2.phi(phi2, r2) == Some(0.0);
    assert m2.z(fi.pos2.value.z, r2) == Some(0.0) && m2.t(fi.t2 / Picosecond) == Some(0.0);
    Outcome(evtId, hits, particles, select, polar, p, c, cfg);
  }

  /**
   * Rows of other events, inserted anywhere in the hits and particles
   * tables, do not change the event's row.
   */
  lemma OtherEventsIgnored(evtId: int, hits: seq<Hit>, otherHits: seq<Hit>, moreHits: seq<Hit>,
                           particles: seq<Particle>, otherParticles: seq<Particle>, moreParticles: seq<Particle>,
                           select: Selector, polar: Polar, p: ErrorMatrices, c: ErrorMatrices, cfg: Config)
    requires forall h :: h in otherHits ==> h.eventId != evtId
    requires forall q :: q in otherParticles ==> q.eventId != evtId
    ensures SimulateRecoEvent(evtId, hits + otherHits + moreHits, particles + otherParticles + moreParticles,
                              select, polar, p, c, cfg)
            == SimulateRecoEvent(evtId, hits + moreHits, particles + moreParticles, select, polar, p, c, cfg)
  {
    OtherEventHitsIgnored(hits, otherHits, moreHits, evtId);
    OtherEventParticlesIgnored(particles, otherParticles, moreParticles, evtId);
  }

  /**
   * With the default keyword arguments and non-negative deposits the energy
   * guard never falls back.
   */
  lemma DefaultThresholdNeverFires(evtId: int, hits: seq<Hit>)
    requires forall h :: h in hits ==> h.energy >= 0.0
    ensures !(EventEnergy(hits, evtId) < DefaultConfig.trueEThreshold)
  {
  }
}
