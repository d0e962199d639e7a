# Fast Monte-Carlo reconstruction of one coincidence (ANTEA `fastmc3d`)

This project models the per-event fast Monte-Carlo of ANTEA's
`antea/mcsim/fastmc3d.py`. The fast MC skips full reconstruction. It takes
the true GEANT4 hits and particles of one coincidence and finds the first
interaction of each of the two back-to-back gammas in the active volume.
Each true position is turned into cylindrical coordinates (r, phi, z) and
each time into picoseconds. A reconstruction error is then drawn for every
coordinate from empirical error matrices, and the result is written as one
row of 20 columns.

Modules:

- `Wrappers` (`wrappers.dfy`): `Option`, standing for the error matrices' `None` answer.
- `Events` (`events.dfy`): hit and particle rows. It selects one event's rows by
  `event_id` and sums the event's deposited energy. `MaskedEnergy` is an
  independent row-by-row reference for that sum.
- `Geometry` (`geometry.dfy`): the Cartesian-to-cylindrical transform. The axial
  coordinate passes through unchanged. Radius and angle come from a `Polar`
  oracle, because `sqrt` and `atan2` on floats are not modelled.
- `Records` (`record.dfy`): the 20-column output row, its column names and
  order, and the single fallback row `DefaultRecord(evtId, energy)`.
- `FastMc` (`fastmc3d.dfy`): `GetRecoInteraction` (four error samples of one
  interaction) and `SimulateRecoEvent` (the guards, the choice of matrix set per
  gamma and the assembly of the row). The first-interaction selector, the polar
  transform and the eight error matrices are function parameters. `units.ps` is
  an abstract positive constant.
- `FastMcProperties` (`fastmc3d_properties.dfy`): the properties of `SimulateRecoEvent`.
  They cover the guard order, the choice of matrices, the all-or-nothing outcome,
  the round trip with zero errors, and independence from other events' rows.

Every fallback keeps the summed energy: all three fallback rows are built
with `'true_energy': [energy]` (`antea/mcsim/fastmc3d.py` lines 44, 72 and
120). So every fallback is `DefaultRecord(evtId, energy)`, and
`SimulateRecoEvent` ensures `trueEnergy == EventEnergy(hits, evtId)` on
every path.

## Model

| member | source | states |
|---|---|---|
| `Events.EventHits` | antea/mcsim/fastmc3d.py:40 | every selected hit is a hit of the table whose `event_id` equals the event id, and no more hits are selected than the table holds |
| `Events.EventHitsCounts` | antea/mcsim/fastmc3d.py:40 | the mask keeps each hit of the event exactly as often as the table holds it and drops every hit of another event |
| `Events.EventParticles` | antea/mcsim/fastmc3d.py:39 | every selected particle is a particle of the table belonging to the event |
| `Events.EventParticlesCounts` | antea/mcsim/fastmc3d.py:39 | the mask keeps each particle of the event exactly as often as the table holds it and drops every other particle |
| `Events.OtherEventHitsIgnored` | antea/mcsim/fastmc3d.py:40 | hit rows of other events, inserted anywhere in the table, leave the selection unchanged |
| `Events.OtherEventParticlesIgnored` | antea/mcsim/fastmc3d.py:39 | particle rows of other events, inserted anywhere in the table, leave the selection unchanged |
| `Events.EnergySum` | antea/mcsim/fastmc3d.py:41 | the sum of no hits is 0, and non-negative deposits sum to a non-negative energy |
| `Events.EventEnergy` | antea/mcsim/fastmc3d.py:39-41 | the event's `true_energy` equals the masked sum over the whole table: each hit of the event contributes its energy, each other hit nothing |
| `Events.EventEnergyIsMaskedSum` | antea/mcsim/fastmc3d.py:39-41 | `true_energy` is the sum of `energy` over exactly the hits whose `event_id` equals the event id, counted row by row over the whole table |
| `Events.OtherEventsDoNotAffectEnergy` | antea/mcsim/fastmc3d.py:40-41 | hits of other events, inserted anywhere in the table, leave the event's energy unchanged |
| `Geometry.ToCylindrical` | antea/mcsim/fastmc3d.py:98-105 | the axial coordinate is the Cartesian z; radius and angle are the polar transform of (x, y) |
| `Geometry.FromCartesianToCyl` | antea/mcsim/fastmc3d.py:98 | the batch transform returns one cylindrical triple per input row, in the same order, each with its own z and its own polar transform |
| `Records.Columns` | antea/mcsim/fastmc3d.py:177-196 | the row has exactly 20 columns, as many as the fixed column names, with the event id first and the energy second |
| `Records.DefaultRecord` | antea/mcsim/fastmc3d.py:43-63 | the fallback row carries the event id as a float and the summed energy; all 18 other columns are 0 |
| `Records.DefaultRecordUnique` | antea/mcsim/fastmc3d.py:43-63 | a row is the fallback row if and only if it has that id and that energy and zeros in the other 18 columns |
| `FastMc.GetRecoInteraction` | antea/mcsim/fastmc3d.py:17-27 | r and t errors are sampled from the true value alone; phi and z errors are sampled from the true value conditioned on the true r |
| `FastMc.AllDefined` | antea/mcsim/fastmc3d.py:118 | an interaction's four samples are usable exactly when none of them is `None` |
| `FastMc.AsFloat` | antea/mcsim/fastmc3d.py:165-166 | a photoelectric flag is written as 1.0 when true and 0.0 when false |
| `FastMc.SimulateRecoEvent` | antea/mcsim/fastmc3d.py:29-197 | every path returns one 20-column row with `event_id = float(evt_id)` and `true_energy` equal to the event's summed energy |
| `FastMc.SimulateSelected` | antea/mcsim/fastmc3d.py:41-197 | from the selected rows, every path (threshold, position, filter, sampling fallbacks and success) keeps the event id and the sum of the selected energies |
| `FastMcProperties.Outcome` | antea/mcsim/fastmc3d.py:42-175 | all or nothing. Unless energy is at least the threshold, both positions exist, the `only_phot` filter passes and all eight errors are defined, the row is the fallback row. Otherwise each gamma's true r, phi come from the polar transform of its position, its true z is the position's z and its true t is the time divided by `ps`. Its flag is 1.0/0.0 and each reco value is the true value minus the error sampled from that gamma's own matrix set: photoelectric if its flag is set, Compton otherwise |
| `FastMcProperties.ThresholdGuard` | antea/mcsim/fastmc3d.py:42-64 | energy strictly below the threshold gives the fallback row (energy equal to the threshold does not: `Outcome` uses `>=`) |
| `FastMcProperties.SelectorNotConsultedBelowThreshold` | antea/mcsim/fastmc3d.py:42-66 | below the threshold the row does not depend on the selector, the transform or any error matrix |
| `FastMcProperties.MissingPositionGuard` | antea/mcsim/fastmc3d.py:68-92 | an empty position for either gamma gives the fallback row, whatever `only_phot` and the flags |
| `FastMcProperties.OnlyPhotGuard` | antea/mcsim/fastmc3d.py:69-70 | with `only_phot` set, a gamma that is not photoelectric-like gives the fallback row |
| `FastMcProperties.OnlyPhotFilter` | antea/mcsim/fastmc3d.py:68-70 | with `only_phot` set, the row equals the row without it when both flags are true, and the fallback row otherwise; with it unset, success holds exactly when the energy passes, both positions exist and all eight samples are defined in each gamma's own matrix set, so the flags never cause a fallback as a filter; they only choose each gamma's matrix set, whose samples decide the undefined-sample guard |
| `FastMcProperties.UndefinedSampleGuard` | antea/mcsim/fastmc3d.py:118-140 | one undefined error among the eight gives the fallback row, with the energy kept; no partly reconstructed row |
| `FastMcProperties.PhotoelectricPairIgnoresCompton` | antea/mcsim/fastmc3d.py:108-116 | when both gammas are photoelectric-like the Compton matrices do not affect the row |
| `FastMcProperties.ComptonPairIgnoresPhotoelectric` | antea/mcsim/fastmc3d.py:108-116 | when neither gamma is photoelectric-like the photoelectric matrices do not affect the row |
| `FastMcProperties.ZeroErrorsReproduceTruth` | antea/mcsim/fastmc3d.py:143-151 | with every sampled error 0, an event past the energy, position and filter guards is reconstructed at the selector's point: reco r, phi are the polar transform of its position, reco z its z and reco t its time in picoseconds, for both gammas; every reco column equals its true column |
| `FastMcProperties.OtherEventsIgnored` | antea/mcsim/fastmc3d.py:39-41 | hit and particle rows of other events do not change the event's row |
| `FastMcProperties.DefaultThresholdNeverFires` | antea/mcsim/fastmc3d.py:33-42 | with the default threshold 0 and non-negative deposits, the energy guard never falls back |

## Left out

- `antea/database/load_db_test.py`: tests of a sqlite-backed sensor database. This is database I/O with no part in the reconstruction.
- The error matrices (`errmat`, `errmat3d`) are not part of this model. Their `get_random_error` is an oracle returning an optional error.
- The global numpy random state is not modelled. Each sampler is a fixed function, so the model does not capture that the eight calls draw successive random numbers, or the order of those draws.
- `rf.find_first_interactions_in_active` (particle-lineage tracing and the photoelectric range) is not part of this model. It is an oracle returning two optional positions, two times and two flags.
- `Geometry.ToCylindrical`: the radius `sqrt(x^2 + y^2)` and the angle `atan2(y, x)` come from the `Polar` oracle. Only the pass-through of z is stated, so `r >= 0` is not proved.
- An empty position array is modelled as `None`. Arrays of a length other than 0 or 3 are not modelled.
- Floating-point arithmetic is modelled as exact `real` arithmetic. Not captured: rounding, NaN (pandas `sum` skips NaN), and loss of precision in `float(evt_id)`.
- The value of `units.ps` is not modelled; only its positivity is used.
- pandas DataFrame construction is modelled as the `Record` datatype, and masking as sequence filtering.
