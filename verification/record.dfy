/**
 * The one-row output of the fast Monte-Carlo for one coincidence: twenty
 * floating-point columns in a fixed order.
 */
module Records {

  datatype Record = Record(
    eventId: real, trueEnergy: real,
    trueR1: real, truePhi1: real, trueZ1: real, trueT1: real,
    trueR2: real, truePhi2: real, trueZ2: real, trueT2: real,
    photLike1: real, photLike2: real,
    recoR1: real, recoPhi1: real, recoZ1: real, recoT1: real,
    recoR2: real, recoPhi2: real, recoZ2: real, recoT2: real)

  /** The column names of the output table, in order. */
  const ColumnNames: seq<string> := [
    "event_id", "true_energy",
    "true_r1", "true_phi1", "true_z1", "true_t1",
    "true_r2", "true_phi2", "true_z2", "true_t2",
    "phot_like1", "phot_like2",
    "reco_r1", "reco_phi1", "reco_z1", "reco_t1",
    "reco_r2", "reco_phi2", "reco_z2", "reco_t2"]

  /** The row of a record, column by column in the order of `ColumnNames`. */
  function Columns(rec: Record): (row: seq<real>)
    ensures |row| == |ColumnNames| == 20
    ensures row[0] == rec.eventId && row[1] == rec.trueEnergy
  {
    [rec.eventId, rec.trueEnergy,
     rec.trueR1, rec.truePhi1, rec.trueZ1, rec.trueT1,
     rec.trueR2, rec.truePhi2, rec.trueZ2, rec.trueT2,
     rec.photLike1, rec.photLike2,
     rec.recoR1, rec.recoPhi1, rec.recoZ1, rec.recoT1,
     rec.recoR2, rec.recoPhi2, rec.recoZ2, rec.recoT2]
  }

  /** Every column after the event id and the energy is zero. */
  predicate ZeroBeyondEnergy(rec: Record)
  {
    forall i :: 2 <= i < 20 ==> Columns(rec)[i] == 0.0
  }

  /** The fallback row written when an event cannot be reconstructed. */
  function DefaultRecord(evtId: int, energy: real): (rec: Record)
    ensures rec.eventId == evtId as real && rec.trueEnergy == energy
    ensures ZeroBeyondEnergy(rec)
  {
    Record(evtId as real, energy,
           0.0, 0.0, 0.0, 0.0, 0.0, 0.0, 0.0, 0.0,
           0.0, 0.0,
           0.0, 0.0, 0.0, 0.0, 0.0, 0.0, 0.0, 0.0)
  }

  /** The fallback row is the only row with that id, that energy and zeros elsewhere. */
  lemma DefaultRecordUnique(rec: Record, evtId: int, energy: real)
    ensures rec == DefaultRecord(evtId, energy)
        <==> rec.eventId == evtId as real && rec.trueEnergy == energy && ZeroBeyondEnergy(rec)
  {
    if rec.eventId == evtId as real && rec.trueEnergy == energy && ZeroBeyondEnergy(rec) {
      var row := Columns(rec);
      assert row[2] == 0.0 && row[3] == 0.0 && row[4] == 0.0 && row[5] == 0.0;
      assert row[6] == 0.0 && row[7] == 0.0 && row[8] == 0.0 && row[9] == 0.0;
      assert row[10] == 0.0 && row[11] == 0.0;
      assert row[12] == 0.0 && row[13] == 0.0 && row[14] == 0.0 && row[15] == 0.0;
      assert row[16] == 0.0 && row[17] == 0.0 && row[18] == 0.0 && row[19] == 0.0;
    }
  }
}
