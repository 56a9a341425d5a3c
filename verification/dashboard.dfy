/** The dashboard: the dispense transaction and the views of today's list. */
module Dashboard {
  import opened Wrappers
  import opened Types
  import opened Seqs
  import opened Store

  /** What the device's `dispense` call did: it answered with a success
      flag and a message, or it threw. */
  datatype DeviceOutcome = Replied(success: bool, message: string) | Threw

  /** The toast that replaces the loading toast. */
  datatype Toast = SuccessToast(text: string) | ErrorToast(text: string)

  /** The wall clock at the moment the log is written: the ISO timestamp
      and the formatted local time. */
  datatype Clock = Clock(iso: string, localTime: string)

  /** The store plus the dose whose confirm dialog is open. */
  datatype DashboardState = DashboardState(store: AppState, selected: Option<Schedule>)

  /** The history record written for a dispensed dose. */
  function DispenseLog(sel: Schedule, now: Clock): LogInput {
    LogInput(now.iso, now.localTime, sel.medicineName, sel.dosage, Dispensed)
  }

  /** `confirmDispense` as one sequential step, with the device's outcome
      as input and `logId` the fresh id `addLog` draws. Only a reported
      success mutates the store: every dose with the selected id becomes
      `dispensed` and one record goes first in the log. The selection is
      cleared after every outcome. There is no status check and no
      in-flight guard. */
  function ConfirmDispense(ds: DashboardState, outcome: DeviceOutcome, now: Clock, logId: string): (r: (DashboardState, Option<Toast>))
    ensures r.0.selected == None
    ensures ds.selected.None? ==> r.0 == ds && r.1 == None
    ensures ds.selected.Some? && outcome.Replied? && outcome.success ==>
      var sel := ds.selected.value;
      var prior := ds.store;
      var after := r.0.store;
      && |after.schedules| == |prior.schedules|
      && (forall i :: 0 <= i < |prior.schedules| && prior.schedules[i].id == sel.id ==>
            after.schedules[i] == prior.schedules[i].(status := Dispensed))
      && (forall i :: 0 <= i < |prior.schedules| && prior.schedules[i].id != sel.id ==>
            after.schedules[i] == prior.schedules[i])
      && after.logs == [HistoryLog(logId, now.iso, now.localTime, sel.medicineName, sel.dosage, Dispensed)] + prior.logs
      && after.medicines == prior.medicines && after.device == prior.device && after.settings == prior.settings
      && r.1 == Some(SuccessToast("Dispensed successfully"))
    ensures ds.selected.Some? && outcome.Replied? && !outcome.success ==>
      r.0.store == ds.store && r.1 == Some(ErrorToast(outcome.message))
    ensures ds.selected.Some? && outcome.Threw? ==>
      r.0.store == ds.store && r.1 == Some(ErrorToast("Failed to communicate with device"))
  {
    match ds.selected
    case None => (ds, None)
    case Some(sel) =>
      match outcome
      case Replied(success, message) =>
        if success then
          var st := UpdateScheduleStatus(ds.store, sel.id, Dispensed);
          var st' := AddLog(st, DispenseLog(sel, now), logId);
          (DashboardState(st', None), Some(SuccessToast("Dispensed successfully")))
        else
          (DashboardState(ds.store, None), Some(ErrorToast(message)))
      case Threw =>
        (DashboardState(ds.store, None), Some(ErrorToast("Failed to communicate with device")))
  }

  // ---------------------------------------------------------------------
  // Views of today's list

  /** One section of the dashboard: the doses with `status`, in list
      order. */
  function WithStatus(s: seq<Schedule>, status: Status): (r: seq<Schedule>)
    ensures forall i :: 0 <= i < |r| ==> r[i].status == status
    ensures forall x :: x in s && x.status == status ==> x in r
  {
    FilterMembers(s, (x: Schedule) => x.status == status);
    Filter(s, (x: Schedule) => x.status == status)
  }

  /** Sections keep list order and multiplicity: the section of a
      concatenation is the concatenation of the sections, and a single
      dose is in its own section only. */
  lemma WithStatusOrder(a: seq<Schedule>, b: seq<Schedule>, d: Schedule, status: Status)
    ensures WithStatus(a + b, status) == WithStatus(a, status) + WithStatus(b, status)
    ensures WithStatus([d], status) == if d.status == status then [d] else []
  {
    FilterAppend(a, b, (x: Schedule) => x.status == status);
    FilterCons(d, [], (x: Schedule) => x.status == status);
    assert [d] + [] == [d];
  }

  /** The three sections: disjoint by status, together the whole list. */
  lemma {:induction false} PartitionSizes(s: seq<Schedule>)
    ensures |WithStatus(s, Upcoming)| + |WithStatus(s, Dispensed)| + |WithStatus(s, Missed)| == |s|
  {
    if |s| > 0 {
      PartitionSizes(s[1..]);
      assert s == [s[0]] + s[1..];
      FilterCons(s[0], s[1..], (x: Schedule) => x.status == Upcoming);
      FilterCons(s[0], s[1..], (x: Schedule) => x.status == Dispensed);
      FilterCons(s[0], s[1..], (x: Schedule) => x.status == Missed);
    }
  }

  /** The next dose: the first upcoming dose in list order, if any. */
  function NextDose(s: seq<Schedule>): (r: Option<Schedule>)
    ensures r.None? <==> forall i :: 0 <= i < |s| ==> s[i].status != Upcoming
    ensures r.Some? ==> r.value.status == Upcoming
    ensures r.Some? ==>
      exists i :: 0 <= i < |s| && s[i] == r.value && forall j :: 0 <= j < i ==> s[j].status != Upcoming
  {
    var up := WithStatus(s, Upcoming);
    FilterMembers(s, (x: Schedule) => x.status == Upcoming);
    if |up| > 0 then
      FilterFirst(s, (x: Schedule) => x.status == Upcoming);
      Some(up[0])
    else
      assert forall i :: 0 <= i < |s| ==> s[i].status != Upcoming by {
        forall i | 0 <= i < |s| ensures s[i].status != Upcoming {
          assert s[i] in s;
        }
      }
      None
  }

  /** The comparison `schedule.id === nextSchedule?.id`: the card's id is
      the next dose's id. */
  predicate IsNext(d: Schedule, next: Option<Schedule>) {
    next.Some? && d.id == next.value.id
  }

  /** What the page marks: only cards of the upcoming section are given
      `isNext` at all, so a dispensed or missed card is never marked. */
  predicate MarkedNext(d: Schedule, next: Option<Schedule>) {
    d.status == Upcoming && IsNext(d, next)
  }

  // ---------------------------------------------------------------------
  // The dispense of an upcoming dose

  ghost predicate DistinctScheduleIds(s: seq<Schedule>) {
    forall i, j :: 0 <= i < |s| && 0 <= j < |s| && s[i].id == s[j].id ==> i == j
  }

  /** The id comparison holds for `s[i]` exactly when some dose with the
      same id is the first upcoming one, and the page marks `s[i]` exactly
      when, in addition, `s[i]` is itself upcoming: with a repeated id,
      every upcoming copy of the first upcoming dose is marked. */
  lemma NextMarksCopiesOfFirstUpcoming(s: seq<Schedule>, i: nat)
    requires i < |s|
    ensures IsNext(s[i], NextDose(s)) <==>
      exists k :: 0 <= k < |s| && s[k].status == Upcoming && s[k].id == s[i].id
        && forall j :: 0 <= j < k ==> s[j].status != Upcoming
    ensures MarkedNext(s[i], NextDose(s)) <==>
      s[i].status == Upcoming &&
      exists k :: 0 <= k < |s| && s[k].status == Upcoming && s[k].id == s[i].id
        && forall j :: 0 <= j < k ==> s[j].status != Upcoming
  {
    var next := NextDose(s);
    if next.Some? {
      var k :| 0 <= k < |s| && s[k] == next.value && forall j :: 0 <= j < k ==> s[j].status != Upcoming;
      forall k' | 0 <= k' < |s| && s[k'].status == Upcoming && forall j :: 0 <= j < k' ==> s[j].status != Upcoming
        ensures k' == k
      {
        assert s[k].status == Upcoming;
      }
    }
  }

  /** With distinct ids, the card marked next is exactly the first
      upcoming dose. */
  lemma NextMarksFirstUpcoming(s: seq<Schedule>, i: nat)
    requires DistinctScheduleIds(s) && i < |s| && s[i].status == Upcoming
    ensures IsNext(s[i], NextDose(s)) <==> forall j :: 0 <= j < i ==> s[j].status != Upcoming
  {
    var next := NextDose(s);
    var k :| 0 <= k < |s| && s[k] == next.value && forall j :: 0 <= j < k ==> s[j].status != Upcoming;
    if IsNext(s[i], next) {
      assert i == k;
    } else if i > k {
      assert s[k].status == Upcoming;
    }
  }

  /** A medicine that lists one time twice yields two doses with one id:
      dose ids are not distinct in general. */
  lemma RepeatedTimeSharesId(m: Medicine, day: Day)
    requires |m.times| == 2 && m.times[0] == m.times[1]
    ensures !DistinctScheduleIds(Candidates([m], day))
  {
    CandidatesCoverEveryPair([m], day, 0, 0);
    CandidatesCoverEveryPair([m], day, 0, 1);
    assert [m][..0] == [];
    var c := Candidates([m], day);
    assert c[0].id == c[1].id;
  }

  /** Replacing the element at `k` that moves from `Upcoming` to
      `Dispensed` moves one dose between the two sections. */
  lemma CountsAfterReplace(a: seq<Schedule>, k: nat, d: Schedule)
    requires k < |a| && a[k].status == Upcoming && d.status == Dispensed
    ensures |WithStatus(a[k := d], Dispensed)| == |WithStatus(a, Dispensed)| + 1
    ensures |WithStatus(a[k := d], Upcoming)| + 1 == |WithStatus(a, Upcoming)|
    ensures |WithStatus(a[k := d], Missed)| == |WithStatus(a, Missed)|
  {
    var b := a[k := d];
    assert a == a[..k] + ([a[k]] + a[k + 1..]);
    assert b == a[..k] + ([d] + a[k + 1..]);
    forall st: Status
      ensures |WithStatus(b, st)| == |WithStatus(a, st)| - (if st == Upcoming then 1 else 0) + (if st == Dispensed then 1 else 0)
    {
      var p := (x: Schedule) => x.status == st;
      FilterAppend(a[..k], [a[k]] + a[k + 1..], p);
      FilterAppend(a[..k], [d] + a[k + 1..], p);
      FilterCons(a[k], a[k + 1..], p);
      FilterCons(d, a[k + 1..], p);
    }
  }

  /** The doses with `id` and `status`. */
  function Copies(s: seq<Schedule>, id: string, status: Status): nat {
    |Filter(s, (x: Schedule) => x.id == id && x.status == status)|
  }

  /** The dose list after `updateScheduleStatus(id, 'dispensed')`. */
  function MarkDispensed(s: seq<Schedule>, id: string): (r: seq<Schedule>)
    ensures |r| == |s|
    ensures forall i :: 0 <= i < |s| ==> r[i] == if s[i].id == id then s[i].(status := Dispensed) else s[i]
  {
    if |s| == 0 then [] else
      [if s[0].id == id then s[0].(status := Dispensed) else s[0]] + MarkDispensed(s[1..], id)
  }

  /** Marking an id dispensed moves every upcoming and every missed copy
      of that id into the dispensed section, and nothing else. */
  lemma {:induction false} MarkDispensedCounts(s: seq<Schedule>, id: string)
    ensures |WithStatus(MarkDispensed(s, id), Dispensed)|
      == |WithStatus(s, Dispensed)| + Copies(s, id, Upcoming) + Copies(s, id, Missed)
    ensures |WithStatus(MarkDispensed(s, id), Upcoming)| + Copies(s, id, Upcoming) == |WithStatus(s, Upcoming)|
    ensures |WithStatus(MarkDispensed(s, id), Missed)| + Copies(s, id, Missed) == |WithStatus(s, Missed)|
  {
    if |s| > 0 {
      var h := s[0];
      var t := s[1..];
      var h' := if h.id == id then h.(status := Dispensed) else h;
      MarkDispensedCounts(t, id);
      assert s == [h] + t;
      assert MarkDispensed(s, id) == [h'] + MarkDispensed(t, id);
      forall st: Status
        ensures |WithStatus(MarkDispensed(s, id), st)| == |WithStatus([h'], st)| + |WithStatus(MarkDispensed(t, id), st)|
        ensures |WithStatus(s, st)| == |WithStatus([h], st)| + |WithStatus(t, st)|
        ensures Copies(s, id, st) == Copies([h], id, st) + Copies(t, id, st)
      {
        WithStatusOrder([h'], MarkDispensed(t, id), h', st);
        WithStatusOrder([h], t, h, st);
        FilterAppend([h], t, (x: Schedule) => x.id == id && x.status == st);
      }
      forall st: Status
        ensures Copies([h], id, st) == if h.id == id && h.status == st then 1 else 0
      {
        FilterCons(h, [], (x: Schedule) => x.id == id && x.status == st);
        assert [h] + [] == [h];
      }
    }
  }

  /** Whatever the list holds, a successful dispense moves every copy of
      the selected id (a medicine listing one time twice yields two doses
      with one id) into the dispensed section and writes one record; any
      other outcome changes neither doses nor logs. */
  lemma DispenseMovesEveryCopy(ds: DashboardState, outcome: DeviceOutcome, now: Clock, logId: string)
    requires ds.selected.Some?
    ensures var prior := ds.store.schedules;
      var id := ds.selected.value.id;
      var after := ConfirmDispense(ds, outcome, now, logId).0.store;
      if outcome.Replied? && outcome.success then
        && |WithStatus(after.schedules, Dispensed)|
           == |WithStatus(prior, Dispensed)| + Copies(prior, id, Upcoming) + Copies(prior, id, Missed)
        && |WithStatus(after.schedules, Upcoming)| + Copies(prior, id, Upcoming) == |WithStatus(prior, Upcoming)|
        && |WithStatus(after.schedules, Missed)| + Copies(prior, id, Missed) == |WithStatus(prior, Missed)|
        && |after.logs| == |ds.store.logs| + 1
      else
        after.schedules == prior && after.logs == ds.store.logs
  {
    var prior := ds.store.schedules;
    var id := ds.selected.value.id;
    if outcome.Replied? && outcome.success {
      var after := ConfirmDispense(ds, outcome, now, logId).0.store;
      assert after.schedules == MarkDispensed(prior, id);
      MarkDispensedCounts(prior, id);
    }
  }

  /** The gate: the button is offered only on an upcoming dose. Under that
      gate, and with distinct dose ids, a successful dispense moves exactly
      one dose from upcoming to dispensed and writes exactly one record; a
      failed one moves none and writes none. */
  lemma DispenseOfUpcomingDose(ds: DashboardState, outcome: DeviceOutcome, now: Clock, logId: string)
    requires ds.selected.Some? && ds.selected.value in ds.store.schedules
    requires ds.selected.value.status == Upcoming
    requires DistinctScheduleIds(ds.store.schedules)
    ensures var prior := ds.store.schedules;
      var after := ConfirmDispense(ds, outcome, now, logId).0.store;
      if outcome.Replied? && outcome.success then
        && |WithStatus(after.schedules, Dispensed)| == |WithStatus(prior, Dispensed)| + 1
        && |WithStatus(after.schedules, Upcoming)| + 1 == |WithStatus(prior, Upcoming)|
        && |WithStatus(after.schedules, Missed)| == |WithStatus(prior, Missed)|
        && |after.logs| == |ds.store.logs| + 1
      else
        after.schedules == prior && after.logs == ds.store.logs
  {
    var sel := ds.selected.value;
    var prior := ds.store.schedules;
    if outcome.Replied? && outcome.success {
      var after := ConfirmDispense(ds, outcome, now, logId).0.store;
      var k :| 0 <= k < |prior| && prior[k] == sel;
      var d := sel.(status := Dispensed);
      assert after.schedules == prior[k := d] by {
        forall i | 0 <= i < |prior| ensures after.schedules[i] == prior[k := d][i] {
          if i != k {
            assert prior[i].id != sel.id;
          }
        }
      }
      CountsAfterReplace(prior, k, d);
    }
  }

  /** Without an in-flight guard, two confirms that captured the same
      selection and both see a reported success write two records. */
  lemma DoubleConfirmLogsTwice(ds: DashboardState, sel: Schedule, msg1: string, msg2: string, now: Clock, id1: string, id2: string)
    requires ds.selected == Some(sel)
    ensures var first := ConfirmDispense(ds, Replied(true, msg1), now, id1).0;
      var second := ConfirmDispense(DashboardState(first.store, Some(sel)), Replied(true, msg2), now, id2).0;
      |second.store.logs| == |ds.store.logs| + 2
  {
  }
}
