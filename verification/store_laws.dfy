/** Algebraic laws of the store's simple actions: status updates, log
    appends and the two shallow merges. */
module StoreLaws {
  import opened Wrappers
  import opened Types
  import opened Store

  /** Two partial updates applied one after the other: a key the second
      one gives wins, otherwise the first one's value stands. */
  function Later<T>(first: Option<T>, second: Option<T>): (r: Option<T>)
    ensures second.Some? ==> r == second
    ensures second.None? ==> r == first
  {
    if second.Some? then second else first
  }

  function ThenDevice(p: DevicePatch, q: DevicePatch): DevicePatch {
    DevicePatch(Later(p.isOnline, q.isOnline), Later(p.batteryLevel, q.batteryLevel), Later(p.lastSync, q.lastSync))
  }

  function ThenSettings(p: SettingsPatch, q: SettingsPatch): SettingsPatch {
    SettingsPatch(
      Later(p.emailNotifications, q.emailNotifications),
      Later(p.smsNotifications, q.smsNotifications),
      Later(p.reminderBefore, q.reminderBefore),
      Later(p.timeFormat, q.timeFormat),
      Later(p.emergencyContact, q.emergencyContact),
      Later(p.user, q.user))
  }

  /** The device merge: an empty patch changes nothing, a patch applied
      twice acts once, and two patches in a row act as their combination. */
  lemma DevicePatchLaws(st: AppState, p: DevicePatch, q: DevicePatch)
    ensures UpdateDeviceStatus(st, DevicePatch(None, None, None)) == st
    ensures UpdateDeviceStatus(UpdateDeviceStatus(st, p), p) == UpdateDeviceStatus(st, p)
    ensures UpdateDeviceStatus(UpdateDeviceStatus(st, p), q) == UpdateDeviceStatus(st, ThenDevice(p, q))
  {
  }

  /** The same three laws for the settings merge. */
  lemma SettingsPatchLaws(st: AppState, p: SettingsPatch, q: SettingsPatch)
    ensures UpdateSettings(st, SettingsPatch(None, None, None, None, None, None)) == st
    ensures UpdateSettings(UpdateSettings(st, p), p) == UpdateSettings(st, p)
    ensures UpdateSettings(UpdateSettings(st, p), q) == UpdateSettings(st, ThenSettings(p, q))
  {
  }

  /** Status updates: the dose ids stay as they were, the last status set
      for an id wins, and updates of different ids commute. */
  lemma StatusUpdateLaws(st: AppState, id: string, other: string, a: FinalStatus, b: FinalStatus)
    ensures Ids(UpdateScheduleStatus(st, id, a).schedules) == Ids(st.schedules)
    ensures UpdateScheduleStatus(UpdateScheduleStatus(st, id, a), id, b) == UpdateScheduleStatus(st, id, b)
    ensures id != other ==>
      UpdateScheduleStatus(UpdateScheduleStatus(st, id, a), other, b)
      == UpdateScheduleStatus(UpdateScheduleStatus(st, other, b), id, a)
  {
    var r := UpdateScheduleStatus(st, id, a).schedules;
    assert forall i :: 0 <= i < |r| ==> r[i].id == st.schedules[i].id;
    forall x | x in Ids(r) ensures x in Ids(st.schedules) {
      var s :| s in r && s.id == x;
      var i :| 0 <= i < |r| && r[i] == s;
      assert st.schedules[i] in st.schedules;
    }
    forall x | x in Ids(st.schedules) ensures x in Ids(r) {
      var s :| s in st.schedules && s.id == x;
      var i :| 0 <= i < |st.schedules| && st.schedules[i] == s;
      assert r[i] in r;
    }
  }

  /** Status updates that touch no dose change nothing. */
  lemma UnknownIdIsNoOp(st: AppState, id: string, status: FinalStatus)
    requires id !in Ids(st.schedules)
    ensures UpdateScheduleStatus(st, id, status) == st
  {
    var s := st.schedules;
    var r := UpdateScheduleStatus(st, id, status).schedules;
    forall i | 0 <= i < |s| ensures r[i] == s[i] {
      assert s[i] in s;
    }
  }

  /** Appending logs never disturbs the records already there: the newest
      record comes first and the original log follows unchanged. */
  lemma AddLogKeepsHistory(st: AppState, a: LogInput, b: LogInput, ida: string, idb: string)
    ensures AddLog(AddLog(st, a, ida), b, idb).logs == [b.WithId(idb), a.WithId(ida)] + st.logs
  {
  }
}
