/** The medication store: medicine definitions, today's dose list derived
    from them, the history log, the device snapshot and the settings, with
    the store's actions as pure state transitions. */
module Store {
  import opened Wrappers
  import opened Types
  import opened Seqs
  import opened Order
  import opened Sorting

  datatype DeviceState = DeviceState(isOnline: bool, batteryLevel: int, lastSync: string)

  /** A `Partial<DeviceStatus>`: `None` is a key the caller left out. */
  datatype DevicePatch = DevicePatch(isOnline: Option<bool>, batteryLevel: Option<int>, lastSync: Option<string>)

  datatype Contact = Contact(name: string, phone: string, email: string)

  datatype Profile = Profile(name: string, email: string)

  datatype TimeFormat = TwelveHour | TwentyFourHour

  datatype Settings = Settings(
    emailNotifications: bool,
    smsNotifications: bool,
    reminderBefore: string,
    timeFormat: TimeFormat,
    emergencyContact: Contact,
    user: Profile)

  /** A `Partial<Settings>`: nested records are replaced whole, not merged. */
  datatype SettingsPatch = SettingsPatch(
    emailNotifications: Option<bool>,
    smsNotifications: Option<bool>,
    reminderBefore: Option<string>,
    timeFormat: Option<TimeFormat>,
    emergencyContact: Option<Contact>,
    user: Option<Profile>)

  datatype AppState = AppState(
    medicines: seq<Medicine>,
    schedules: seq<Schedule>,
    logs: seq<HistoryLog>,
    device: DeviceState,
    settings: Settings)

  /** The day a derivation runs for, read once from the clock: `dateString` is
      `Date.toDateString()` (part of dose ids), `iso` the `YYYY-MM-DD` date
      stored on each dose. */
  datatype Day = Day(dateString: string, iso: string)

  // ---------------------------------------------------------------------
  // Dose identity

  /** The dose id `${medicineId}-${day}-${time}`. */
  function ScheduleId(medicineId: string, dayLabel: string, time: string): string {
    medicineId + "-" + dayLabel + "-" + time
  }

  /** In `prefix + "-" + t` with no `-` in `t`, the last `-` stands just
      before `t`. */
  lemma LastDash(prefix: string, t: string)
    requires '-' !in t
    ensures var s := prefix + "-" + t;
      && s[|s| - |t| - 1] == '-'
      && forall j :: |s| - |t| <= j < |s| ==> s[j] != '-'
  {
    var s := prefix + "-" + t;
    forall j | |s| - |t| <= j < |s| ensures s[j] != '-' {
      assert s[j] == t[j - (|s| - |t|)];
    }
  }

  /** The id determines medicine and time whenever times contain no `-`
      (true of every `HH:MM` time, see `Order.ClockTimeHasNoDash`). */
  lemma ScheduleIdInjective(m1: string, m2: string, dayLabel: string, t1: string, t2: string)
    requires '-' !in t1 && '-' !in t2
    requires ScheduleId(m1, dayLabel, t1) == ScheduleId(m2, dayLabel, t2)
    ensures m1 == m2 && t1 == t2
  {
    var s := ScheduleId(m1, dayLabel, t1);
    var n := |s|;
    LastDash(m1 + "-" + dayLabel, t1);
    LastDash(m2 + "-" + dayLabel, t2);
    assert |t1| == |t2|;
    assert t1 == s[n - |t1|..] == t2;
    var tail := "-" + dayLabel + "-" + t1;
    assert s == m1 + tail && s == m2 + tail;
    assert m1 == s[..n - |tail|] == m2;
  }

  // ---------------------------------------------------------------------
  // Derivation of today's doses

  /** The fresh dose for medicine `m` at `time` on `day`. */
  function MakeDose(m: Medicine, time: string, day: Day): Schedule {
    Schedule(
      id := ScheduleId(m.id, day.dateString, time),
      medicineId := Some(m.id),
      medicineName := m.name,
      dosage := m.dosage,
      compartment := m.compartment,
      scheduledTime := time,
      time := "",
      status := Upcoming,
      date := Some(day.iso))
  }

  /** The number of (medicine, time) pairs. */
  function TimeCount(meds: seq<Medicine>): nat {
    if |meds| == 0 then 0 else TimeCount(meds[..|meds| - 1]) + |meds[|meds| - 1].times|
  }

  /** One fresh dose per time of one medicine, in the order of its times. */
  function DosesOf(m: Medicine, day: Day): seq<Schedule> {
    seq(|m.times|, k requires 0 <= k < |m.times| => MakeDose(m, m.times[k], day))
  }

  /** The candidate doses: medicines in order, each medicine's times in
      order. No date-range filter is applied. */
  function Candidates(meds: seq<Medicine>, day: Day): (r: seq<Schedule>)
    ensures |r| == TimeCount(meds)
    ensures forall i :: 0 <= i < |r| ==> r[i].status == Upcoming && r[i].time == ""
  {
    if |meds| == 0 then []
    else Candidates(meds[..|meds| - 1], day) + DosesOf(meds[|meds| - 1], day)
  }

  /** Every candidate is the fresh dose of one of the medicines at one of
      its times. */
  lemma {:induction false} CandidatesFromMedicines(meds: seq<Medicine>, day: Day)
    ensures forall d :: d in Candidates(meds, day) ==>
      exists m :: m in meds && d.scheduledTime in m.times && d == MakeDose(m, d.scheduledTime, day)
  {
    if |meds| > 0 {
      var init := meds[..|meds| - 1];
      var last := meds[|meds| - 1];
      CandidatesFromMedicines(init, day);
      forall d | d in Candidates(meds, day)
        ensures exists m :: m in meds && d.scheduledTime in m.times && d == MakeDose(m, d.scheduledTime, day)
      {
        if d in Candidates(init, day) {
          var m :| m in init && d.scheduledTime in m.times && d == MakeDose(m, d.scheduledTime, day);
          assert m in meds;
        } else {
          assert d in DosesOf(last, day);
          var k :| 0 <= k < |last.times| && DosesOf(last, day)[k] == d;
          assert d == MakeDose(last, last.times[k], day);
          assert last in meds;
        }
      }
    }
  }

  lemma {:induction false} TimeCountPrefix(meds: seq<Medicine>, i: nat)
    requires i < |meds|
    ensures TimeCount(meds[..i]) + |meds[i].times| <= TimeCount(meds)
    decreases |meds|
  {
    var n := |meds|;
    assert meds[..n - 1][..i] == meds[..i] by {
      if i < n - 1 {
        assert meds[..n - 1][..i] == meds[..i];
      }
    }
    if i < n - 1 {
      TimeCountPrefix(meds[..n - 1], i);
      assert (meds[..n - 1])[i] == meds[i];
    } else {
      assert meds[..i] == meds[..n - 1];
    }
  }

  /** Derivation yields one dose per (medicine, time) pair, at the position
      of that pair, with the deterministic id, status `upcoming`, and name,
      dosage and compartment copied from the medicine. */
  lemma {:induction false} CandidatesCoverEveryPair(meds: seq<Medicine>, day: Day, i: nat, k: nat)
    requires i < |meds| && k < |meds[i].times|
    ensures TimeCount(meds[..i]) + k < |Candidates(meds, day)|
    ensures var d := Candidates(meds, day)[TimeCount(meds[..i]) + k];
      && d.id == ScheduleId(meds[i].id, day.dateString, meds[i].times[k])
      && d.status == Upcoming
      && d.medicineId == Some(meds[i].id)
      && d.medicineName == meds[i].name
      && d.dosage == meds[i].dosage
      && d.compartment == meds[i].compartment
      && d.scheduledTime == meds[i].times[k]
      && d.date == Some(day.iso)
    decreases |meds|
  {
    TimeCountPrefix(meds, i);
    var n := |meds|;
    var init := meds[..n - 1];
    if i < n - 1 {
      assert init[..i] == meds[..i];
      assert init[i] == meds[i];
      CandidatesCoverEveryPair(init, day, i, k);
    } else {
      assert meds[..i] == init;
    }
  }

  /** The position of the last entry of `prev` with `id`, or -1. */
  function LastIndex(prev: seq<Schedule>, id: string): (i: int)
    ensures -1 <= i < |prev|
    ensures i >= 0 ==> prev[i].id == id
    ensures forall j :: i < j < |prev| ==> prev[j].id != id
  {
    if |prev| == 0 then -1
    else if prev[|prev| - 1].id == id then |prev| - 1
    else LastIndex(prev[..|prev| - 1], id)
  }

  /** The record a JavaScript `Map` built from `prev` returns for `id`: the
      LAST entry with that id, since later entries overwrite earlier ones. */
  function LookupLast(prev: seq<Schedule>, id: string): (r: Option<Schedule>)
    ensures r.None? <==> forall e :: e in prev ==> e.id != id
    ensures r.Some? ==> r.value in prev && r.value.id == id
    ensures r.Some? ==> exists i :: 0 <= i < |prev| && prev[i] == r.value && forall j :: i < j < |prev| ==> prev[j].id != id
  {
    var i := LastIndex(prev, id);
    if i < 0 then None else Some(prev[i])
  }

  /** The migration of a legacy record: a record without `scheduledTime`
      but with `time` gets `scheduledTime` copied from `time`. */
  function Patch(e: Schedule): Schedule {
    if e.scheduledTime == "" && e.time != "" then e.(scheduledTime := e.time) else e
  }

  /** The previous record wins over the fresh candidate, migrated. */
  function Resolve(c: Schedule, prev: seq<Schedule>): Schedule {
    match LookupLast(prev, c.id)
    case Some(e) => Patch(e)
    case None => c
  }

  function Merge(cands: seq<Schedule>, prev: seq<Schedule>): seq<Schedule> {
    seq(|cands|, i requires 0 <= i < |cands| => Resolve(cands[i], prev))
  }

  /** The comparator's key: `scheduledTime || time || ''`. */
  function SortKey(s: Schedule): string {
    if s.scheduledTime != "" then s.scheduledTime else s.time
  }

  /** The ids occurring in a dose list. */
  function Ids(s: seq<Schedule>): set<string> {
    set x | x in s :: x.id
  }

  /** Merging keeps each candidate's position and id; a previous record
      with the id replaces the candidate, migrated. */
  lemma MergeShape(cands: seq<Schedule>, prev: seq<Schedule>)
    ensures |Merge(cands, prev)| == |cands|
    ensures forall i :: 0 <= i < |cands| ==> Merge(cands, prev)[i].id == cands[i].id
    ensures forall i :: 0 <= i < |cands| && LookupLast(prev, cands[i].id).Some? ==>
      Merge(cands, prev)[i] == Patch(LookupLast(prev, cands[i].id).value)
    ensures forall i :: 0 <= i < |cands| && LookupLast(prev, cands[i].id).None? ==>
      Merge(cands, prev)[i] == cands[i]
  {
  }

  /** Sorting neither adds nor loses elements. */
  lemma SortKeepsMembers(merged: seq<Schedule>)
    ensures forall s :: s in SortBy(merged, SortKey, LexLe) <==> s in merged
  {
    var r := SortBy(merged, SortKey, LexLe);
    forall s ensures s in r <==> s in merged {
      assert s in r <==> s in multiset(r);
      assert s in merged <==> s in multiset(merged);
    }
  }

  /** Today's dose list: candidates merged with `prev` by id, then stably
      sorted by time. */
  function DeriveSchedules(meds: seq<Medicine>, day: Day, prev: seq<Schedule>): (r: seq<Schedule>)
    ensures |r| == TimeCount(meds)
    ensures SortedBy(r, SortKey, LexLe)
    ensures multiset(r) == multiset(Merge(Candidates(meds, day), prev))
    // exactly the derived ids: previous records with other ids are dropped
    ensures Ids(r) == Ids(Candidates(meds, day))
    // a previous record with the id wins in full (migrated) ...
    ensures forall s :: s in r && LookupLast(prev, s.id).Some? ==> s == Patch(LookupLast(prev, s.id).value)
    // ... otherwise the dose is a fresh candidate
    ensures forall s :: s in r && LookupLast(prev, s.id).None? ==> s in Candidates(meds, day) && s.status == Upcoming
  {
    LexLeIsTotalPreorder();
    SortBySorted(Merge(Candidates(meds, day), prev), SortKey, LexLe);
    DeriveFacts(meds, day, prev);
    SortBy(Merge(Candidates(meds, day), prev), SortKey, LexLe)
  }

  lemma DeriveFacts(meds: seq<Medicine>, day: Day, prev: seq<Schedule>)
    ensures var cands := Candidates(meds, day);
      var r := SortBy(Merge(cands, prev), SortKey, LexLe);
      && Ids(r) == Ids(cands)
      && (forall s :: s in r && LookupLast(prev, s.id).Some? ==> s == Patch(LookupLast(prev, s.id).value))
      && (forall s :: s in r && LookupLast(prev, s.id).None? ==> s in cands && s.status == Upcoming)
  {
    var cands := Candidates(meds, day);
    var merged := Merge(cands, prev);
    var r := SortBy(merged, SortKey, LexLe);
    MergeShape(cands, prev);
    SortKeepsMembers(merged);
    forall s | s in r
      ensures s.id in Ids(cands)
      ensures LookupLast(prev, s.id).Some? ==> s == Patch(LookupLast(prev, s.id).value)
      ensures LookupLast(prev, s.id).None? ==> s in cands && s.status == Upcoming
    {
      var i :| 0 <= i < |merged| && merged[i] == s;
      assert cands[i] in cands;
    }
    forall c | c in cands
      ensures c.id in Ids(r)
    {
      var i :| 0 <= i < |cands| && cands[i] == c;
      assert merged[i] in merged;
    }
  }

  /** Every (medicine, time) pair has a dose with its id in the derived list. */
  lemma PairIsScheduled(meds: seq<Medicine>, day: Day, prev: seq<Schedule>, i: nat, k: nat)
    requires i < |meds| && k < |meds[i].times|
    ensures ScheduleId(meds[i].id, day.dateString, meds[i].times[k]) in Ids(DeriveSchedules(meds, day, prev))
  {
    CandidatesCoverEveryPair(meds, day, i, k);
    var c := Candidates(meds, day)[TimeCount(meds[..i]) + k];
    assert c in Candidates(meds, day);
  }

  // ---------------------------------------------------------------------
  // Store actions

  /** `generateDailySchedules`: replace the dose list with today's
      derivation; nothing else changes. */
  function GenerateDailySchedules(st: AppState, day: Day): (r: AppState)
    ensures r.schedules == DeriveSchedules(st.medicines, day, st.schedules)
    ensures r.medicines == st.medicines && r.logs == st.logs
    ensures r.device == st.device && r.settings == st.settings
  {
    st.(schedules := DeriveSchedules(st.medicines, day, st.schedules))
  }

  /** `addMedicine`: append the medicine under the fresh id `id` (the
      value `crypto.randomUUID()` produced) and regenerate; returns `id`. */
  function AddMedicine(st: AppState, input: MedicineInput, id: string, day: Day): (r: (AppState, string))
    ensures r.1 == id
    ensures |r.0.medicines| == |st.medicines| + 1
    ensures r.0.medicines[..|st.medicines|] == st.medicines
    ensures r.0.medicines[|st.medicines|] == input.WithId(id)
    ensures r.0.schedules == DeriveSchedules(r.0.medicines, day, st.schedules)
    ensures forall k :: 0 <= k < |input.times| ==> ScheduleId(id, day.dateString, input.times[k]) in Ids(r.0.schedules)
    ensures r.0.logs == st.logs && r.0.device == st.device && r.0.settings == st.settings
  {
    var meds := st.medicines + [input.WithId(id)];
    var r := GenerateDailySchedules(st.(medicines := meds), day);
    forall k | 0 <= k < |input.times|
      ensures ScheduleId(id, day.dateString, input.times[k]) in Ids(r.schedules)
    {
      PairIsScheduled(meds, day, st.schedules, |st.medicines|, k);
    }
    (r, id)
  }

  /** `updateScheduleStatus`: every dose with the id gets the status;
      nothing else changes. There is no check of the current status. */
  function UpdateScheduleStatus(st: AppState, id: string, status: FinalStatus): (r: AppState)
    ensures |r.schedules| == |st.schedules|
    ensures forall i :: 0 <= i < |st.schedules| && st.schedules[i].id == id ==>
      r.schedules[i] == st.schedules[i].(status := status)
    ensures forall i :: 0 <= i < |st.schedules| && st.schedules[i].id != id ==>
      r.schedules[i] == st.schedules[i]
    ensures r.medicines == st.medicines && r.logs == st.logs
    ensures r.device == st.device && r.settings == st.settings
  {
    var s := st.schedules;
    st.(schedules := seq(|s|, i requires 0 <= i < |s| => if s[i].id == id then s[i].(status := status) else s[i]))
  }

  /** `addLog`: the new record, under the fresh id `id`, goes first. */
  function AddLog(st: AppState, input: LogInput, id: string): (r: AppState)
    ensures |r.logs| == |st.logs| + 1
    ensures r.logs[0] == input.WithId(id)
    ensures r.logs[1..] == st.logs
    ensures r.medicines == st.medicines && r.schedules == st.schedules
    ensures r.device == st.device && r.settings == st.settings
  {
    st.(logs := [input.WithId(id)] + st.logs)
  }

  /** `updateDeviceStatus`: a shallow merge of the given keys. */
  function UpdateDeviceStatus(st: AppState, patch: DevicePatch): (r: AppState)
    ensures r.device.isOnline == patch.isOnline.GetOr(st.device.isOnline)
    ensures r.device.batteryLevel == patch.batteryLevel.GetOr(st.device.batteryLevel)
    ensures r.device.lastSync == patch.lastSync.GetOr(st.device.lastSync)
    ensures r.medicines == st.medicines && r.schedules == st.schedules
    ensures r.logs == st.logs && r.settings == st.settings
  {
    st.(device := DeviceState(
      patch.isOnline.GetOr(st.device.isOnline),
      patch.batteryLevel.GetOr(st.device.batteryLevel),
      patch.lastSync.GetOr(st.device.lastSync)))
  }

  /** `updateSettings`: a shallow merge of the given keys. */
  function UpdateSettings(st: AppState, patch: SettingsPatch): (r: AppState)
    ensures r.settings.emailNotifications == patch.emailNotifications.GetOr(st.settings.emailNotifications)
    ensures r.settings.smsNotifications == patch.smsNotifications.GetOr(st.settings.smsNotifications)
    ensures r.settings.reminderBefore == patch.reminderBefore.GetOr(st.settings.reminderBefore)
    ensures r.settings.timeFormat == patch.timeFormat.GetOr(st.settings.timeFormat)
    ensures r.settings.emergencyContact == patch.emergencyContact.GetOr(st.settings.emergencyContact)
    ensures r.settings.user == patch.user.GetOr(st.settings.user)
    ensures r.medicines == st.medicines && r.schedules == st.schedules
    ensures r.logs == st.logs && r.device == st.device
  {
    var s := st.settings;
    st.(settings := Settings(
      patch.emailNotifications.GetOr(s.emailNotifications),
      patch.smsNotifications.GetOr(s.smsNotifications),
      patch.reminderBefore.GetOr(s.reminderBefore),
      patch.timeFormat.GetOr(s.timeFormat),
      patch.emergencyContact.GetOr(s.emergencyContact),
      patch.user.GetOr(s.user)))
  }
}
