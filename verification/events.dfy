/**
 * True simulation tables of many events, as sequences of rows, and the
 * per-event selection and energy sum the fast Monte-Carlo starts from.
 */
module Events {

  /** One energy deposit of the true-hits table. */
  datatype Hit = Hit(eventId: int, x: real, y: real, z: real, time: real, energy: real, particleId: int)

  /** One row of the true-particles table; the lineage fields are only read by the selector. */
  datatype Particle = Particle(eventId: int, particleId: int, motherId: int)

  /** The hits of one event, in table order (a boolean mask on `event_id`). */
  function EventHits(hits: seq<Hit>, evtId: int): (r: seq<Hit>)
    ensures |r| <= |hits|
    ensures forall h :: h in r ==> h in hits && h.eventId == evtId
  {
    if hits == [] then []
    else
      assert hits == [hits[0]] + hits[1..];
      var rest := EventHits(hits[1..], evtId);
      if hits[0].eventId == evtId then [hits[0]] + rest else rest
  }

  /** The particles of one event, in table order. */
  function EventParticles(particles: seq<Particle>, evtId: int): (r: seq<Particle>)
    ensures |r| <= |particles|
    ensures forall p :: p in r ==> p in particles && p.eventId == evtId
  {
    if particles == [] then []
    else
      assert particles == [particles[0]] + particles[1..];
      var rest := EventParticles(particles[1..], evtId);
      if particles[0].eventId == evtId then [particles[0]] + rest else rest
  }

  /**
   * The selection keeps every hit of the event as often as the table holds it
   * and drops every other hit.
   */
  lemma {:induction false} EventHitsCounts(hits: seq<Hit>, evtId: int)
    ensures forall h :: multiset(EventHits(hits, evtId))[h]
                        == if h.eventId == evtId then multiset(hits)[h] else 0
  {
    if hits != [] {
      EventHitsCounts(hits[1..], evtId);
      assert hits == [hits[0]] + hits[1..];
      assert multiset(hits) == multiset{hits[0]} + multiset(hits[1..]);
    }
  }

  /** The same for the particles table. */
  lemma {:induction false} EventParticlesCounts(particles: seq<Particle>, evtId: int)
    ensures forall p :: multiset(EventParticles(particles, evtId))[p]
                        == if p.eventId == evtId then multiset(particles)[p] else 0
  {
    if particles != [] {
      EventParticlesCounts(particles[1..], evtId);
      assert particles == [particles[0]] + particles[1..];
      assert multiset(particles) == multiset{particles[0]} + multiset(particles[1..]);
    }
  }

  /** Sum of the deposited energy of a sequence of hits (0 for no hits). */
  function EnergySum(hits: seq<Hit>): (e: real)
    ensures hits == [] ==> e == 0.0
    ensures (forall h :: h in hits ==> h.energy >= 0.0) ==> e >= 0.0
  {
    if hits == [] then 0.0
    else
      assert forall h :: h in hits[1..] ==> h in hits;
      hits[0].energy + EnergySum(hits[1..])
  }

  /** The `true_energy` of an event: the energy summed over its own hits. */
  function EventEnergy(hits: seq<Hit>, evtId: int): (e: real)
    ensures e == MaskedEnergy(hits, evtId)
  {
    EventEnergyIsMaskedSum(hits, evtId);
    EnergySum(EventHits(hits, evtId))
  }

  /**
   * Reference definition of the same quantity, row by row over the whole table:
   * each hit contributes its energy when it belongs to the event and nothing otherwise.
   */
  function MaskedEnergy(hits: seq<Hit>, evtId: int): real
  {
    if hits == [] then 0.0
    else (if hits[0].eventId == evtId then hits[0].energy else 0.0) + MaskedEnergy(hits[1..], evtId)
  }

  lemma {:induction false} EnergySumAppend(a: seq<Hit>, b: seq<Hit>)
    ensures EnergySum(a + b) == EnergySum(a) + EnergySum(b)
  {
    if a != [] {
      assert (a + b)[0] == a[0] && (a + b)[1..] == a[1..] + b;
      EnergySumAppend(a[1..], b);
    } else {
      assert a + b == b;
    }
  }

  /** Summing the event's selected hits gives exactly the masked sum over the whole table. */
  lemma {:induction false} EventEnergyIsMaskedSum(hits: seq<Hit>, evtId: int)
    ensures EnergySum(EventHits(hits, evtId)) == MaskedEnergy(hits, evtId)
  {
    if hits != [] {
      EventEnergyIsMaskedSum(hits[1..], evtId);
      if hits[0].eventId == evtId {
        assert EventHits(hits, evtId) == [hits[0]] + EventHits(hits[1..], evtId);
        EnergySumAppend([hits[0]], EventHits(hits[1..], evtId));
      }
    }
  }

  lemma {:induction false} EventHitsAppend(a: seq<Hit>, b: seq<Hit>, evtId: int)
    ensures EventHits(a + b, evtId) == EventHits(a, evtId) + EventHits(b, evtId)
  {
    if a == [] {
      assert a + b == b;
    } else {
      var ab := a + b;
      assert ab[0] == a[0] && ab[1..] == a[1..] + b;
      EventHitsAppend(a[1..], b, evtId);
      var tail := EventHits(a[1..], evtId);
      if a[0].eventId == evtId {
        calc {
          EventHits(ab, evtId);
          [a[0]] + EventHits(a[1..] + b, evtId);
          [a[0]] + (tail + EventHits(b, evtId));
          ([a[0]] + tail) + EventHits(b, evtId);
        }
      }
    }
  }

  lemma {:induction false} EventParticlesAppend(a: seq<Particle>, b: seq<Particle>, evtId: int)
    ensures EventParticles(a + b, evtId) == EventParticles(a, evtId) + EventParticles(b, evtId)
  {
    if a == [] {
      assert a + b == b;
    } else {
      var ab := a + b;
      assert ab[0] == a[0] && ab[1..] == a[1..] + b;
      EventParticlesAppend(a[1..], b, evtId);
      var tail := EventParticles(a[1..], evtId);
      if a[0].eventId == evtId {
        calc {
          EventParticles(ab, evtId);
          [a[0]] + EventParticles(a[1..] + b, evtId);
          [a[0]] + (tail + EventParticles(b, evtId));
          ([a[0]] + tail) + EventParticles(b, evtId);
        }
      }
    }
  }

  /** Rows of other events, wherever they stand in the table, select to nothing. */
  lemma OtherEventHitsVanish(others: seq<Hit>, evtId: int)
    requires forall h :: h in others ==> h.eventId != evtId
    ensures EventHits(others, evtId) == []
  {
  }

  lemma OtherEventParticlesVanish(others: seq<Particle>, evtId: int)
    requires forall p :: p in others ==> p.eventId != evtId
    ensures EventParticles(others, evtId) == []
  {
  }

  /** Hits of other events, inserted anywhere in the table, leave the event's energy unchanged. */
  lemma OtherEventsDoNotAffectEnergy(before: seq<Hit>, others: seq<Hit>, after: seq<Hit>, evtId: int)
    requires forall h :: h in others ==> h.eventId != evtId
    ensures EventEnergy(before + others + after, evtId) == EventEnergy(before + after, evtId)
  {
    EventHitsAppend(before + others, after, evtId);
    EventHitsAppend(before, others, evtId);
    EventHitsAppend(before, after, evtId);
    OtherEventHitsVanish(others, evtId);
    assert EventHits(before, evtId) + [] == EventHits(before, evtId);
  }

  /** Hit rows of other events, inserted anywhere in the table, are not selected. */
  lemma OtherEventHitsIgnored(before: seq<Hit>, others: seq<Hit>, after: seq<Hit>, evtId: int)
    requires forall h :: h in others ==> h.eventId != evtId
    ensures EventHits(before + others + after, evtId) == EventHits(before + after, evtId)
  {
    EventHitsAppend(before + others, after, evtId);
    EventHitsAppend(before, others, evtId);
    EventHitsAppend(before, after, evtId);
    OtherEventHitsVanish(others, evtId);
    assert EventHits(before, evtId) + [] == EventHits(before, evtId);
  }

  /** Particle rows of other events, inserted anywhere in the table, are not selected. */
  lemma OtherEventParticlesIgnored(before: seq<Particle>, others: seq<Particle>, after: seq<Particle>, evtId: int)
    requires forall q :: q in others ==> q.eventId != evtId
    ensures EventParticles(before + others + after, evtId) == EventParticles(before + after, evtId)
  {
    EventParticlesAppend(before + others, after, evtId);
    EventParticlesAppend(before, others, evtId);
    EventParticlesAppend(before, after, evtId);
    OtherEventParticlesVanish(others, evtId);
    assert EventParticles(before, evtId) + [] == EventParticles(before, evtId);
  }
}
