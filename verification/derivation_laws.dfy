/** Laws of the daily derivation: regeneration is idempotent, recorded
    outcomes survive it, and the sort keeps ties in merge order. */
module DerivationLaws {
  import opened Wrappers
  import opened Types
  import opened Seqs
  import opened Order
  import opened Sorting
  import opened Store

  /** Candidates that share an id are the same dose. */
  ghost predicate IdsDetermineDoses(cands: seq<Schedule>) {
    forall i, j :: 0 <= i < |cands| && 0 <= j < |cands| && cands[i].id == cands[j].id ==> cands[i] == cands[j]
  }

  ghost predicate DistinctMedicineIds(meds: seq<Medicine>) {
    forall i, j :: 0 <= i < |meds| && 0 <= j < |meds| && meds[i].id == meds[j].id ==> i == j
  }

  ghost predicate TimesWithoutDash(meds: seq<Medicine>) {
    forall m, t :: m in meds && t in m.times ==> '-' !in t
  }

  /** Medicines with distinct ids (`crypto.randomUUID`) and times free of
      `-` (every `HH:MM` time) give candidates whose ids determine them;
      one medicine listing a time twice gives two equal candidates. */
  lemma DistinctIdsDetermineDoses(meds: seq<Medicine>, day: Day)
    requires DistinctMedicineIds(meds) && TimesWithoutDash(meds)
    ensures IdsDetermineDoses(Candidates(meds, day))
  {
    var cands := Candidates(meds, day);
    CandidatesFromMedicines(meds, day);
    forall i, j | 0 <= i < |cands| && 0 <= j < |cands| && cands[i].id == cands[j].id
      ensures cands[i] == cands[j]
    {
      assert cands[i] in cands && cands[j] in cands;
      var m1 :| m1 in meds && cands[i].scheduledTime in m1.times && cands[i] == MakeDose(m1, cands[i].scheduledTime, day);
      var m2 :| m2 in meds && cands[j].scheduledTime in m2.times && cands[j] == MakeDose(m2, cands[j].scheduledTime, day);
      ScheduleIdInjective(m1.id, m2.id, day.dateString, cands[i].scheduledTime, cands[j].scheduledTime);
      var a :| 0 <= a < |meds| && meds[a] == m1;
      var b :| 0 <= b < |meds| && meds[b] == m2;
    }
  }

  /** The same with every time a zero-padded `HH:MM` value, as the form's
      time inputs produce: such times never contain `-`. */
  lemma ClockTimesDetermineDoses(meds: seq<Medicine>, day: Day)
    requires DistinctMedicineIds(meds)
    requires forall i, k :: 0 <= i < |meds| && 0 <= k < |meds[i].times| ==> IsClockTime(meds[i].times[k])
    ensures IdsDetermineDoses(Candidates(meds, day))
  {
    forall m, t | m in meds && t in m.times ensures '-' !in t {
      var i :| 0 <= i < |meds| && meds[i] == m;
      var k :| 0 <= k < |m.times| && m.times[k] == t;
      ClockTimeHasNoDash(t);
    }
    DistinctIdsDetermineDoses(meds, day);
  }

  /** Migrating a migrated record changes nothing. */
  lemma PatchIdempotent(e: Schedule)
    ensures Patch(Patch(e)) == Patch(e)
  {
  }

  lemma MergeKeepsIdsDetermining(cands: seq<Schedule>, prev: seq<Schedule>)
    requires IdsDetermineDoses(cands)
    ensures IdsDetermineDoses(Merge(cands, prev))
  {
    MergeShape(cands, prev);
    var m := Merge(cands, prev);
    forall i, j | 0 <= i < |m| && 0 <= j < |m| && m[i].id == m[j].id
      ensures m[i] == m[j]
    {
      assert cands[i].id == cands[j].id;
    }
  }

  /** Every merged dose is already in migrated form. */
  lemma MergedArePatched(cands: seq<Schedule>, prev: seq<Schedule>, i: nat)
    requires forall k :: 0 <= k < |cands| ==> cands[k].time == ""
    requires i < |cands|
    ensures Patch(Merge(cands, prev)[i]) == Merge(cands, prev)[i]
  {
    MergeShape(cands, prev);
    var lk := LookupLast(prev, cands[i].id);
    if lk.Some? {
      PatchIdempotent(lk.value);
    }
  }

  /** Regenerating on the regenerated list gives the same list: the same
      ids, statuses and order. A dispensed or missed dose is never reset. */
  lemma DeriveIdempotent(meds: seq<Medicine>, day: Day, prev: seq<Schedule>)
    requires IdsDetermineDoses(Candidates(meds, day))
    ensures DeriveSchedules(meds, day, DeriveSchedules(meds, day, prev)) == DeriveSchedules(meds, day, prev)
  {
    var cands := Candidates(meds, day);
    var m1 := Merge(cands, prev);
    var out1 := SortBy(m1, SortKey, LexLe);
    var m2 := Merge(cands, out1);
    assert out1 == DeriveSchedules(meds, day, prev);
    MergeShape(cands, prev);
    MergeShape(cands, out1);
    MergeKeepsIdsDetermining(cands, prev);
    SortKeepsMembers(m1);
    forall i | 0 <= i < |cands|
      ensures m2[i] == m1[i]
    {
      assert m1[i] in out1;
      assert cands[i].id in Ids(out1);
      var lk := LookupLast(out1, cands[i].id);
      assert lk.Some?;
      var e := lk.value;
      assert e in m1;
      var j :| 0 <= j < |m1| && m1[j] == e;
      assert e == m1[i];
      MergedArePatched(cands, prev, i);
    }
    assert m2 == m1;
  }

  /** The store action run twice on the same day, from any stored state,
      leaves the state it leaves after one run. */
  lemma GenerateTwice(st: AppState, day: Day)
    requires IdsDetermineDoses(Candidates(st.medicines, day))
    ensures GenerateDailySchedules(GenerateDailySchedules(st, day), day) == GenerateDailySchedules(st, day)
  {
    DeriveIdempotent(st.medicines, day, st.schedules);
  }

  /** A recorded outcome survives regeneration: the last previous record
      with a derived id keeps its status. */
  lemma RecordedOutcomeSurvives(meds: seq<Medicine>, day: Day, prev: seq<Schedule>, e: Schedule)
    requires LookupLast(prev, e.id) == Some(e)
    requires e.id in Ids(Candidates(meds, day))
    ensures exists s :: s in DeriveSchedules(meds, day, prev) && s.id == e.id && s.status == e.status
  {
    var r := DeriveSchedules(meds, day, prev);
    assert e.id in Ids(r);
    var s :| s in r && s.id == e.id;
    assert s == Patch(e);
  }

  /** Doses whose times compare equal keep their merge order. */
  lemma DeriveIsStable(meds: seq<Medicine>, day: Day, prev: seq<Schedule>, p: Schedule -> bool)
    requires SelectsOneTieClass(p, SortKey, LexLe)
    ensures Filter(DeriveSchedules(meds, day, prev), p) == Filter(Merge(Candidates(meds, day), prev), p)
  {
    SortByStable(Merge(Candidates(meds, day), prev), SortKey, LexLe, p);
  }
}
