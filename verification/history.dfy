/** The history page: status filter, grouping by day, summary counts and
    the order of the day groups. */
module History {
  import opened Types
  import opened Seqs
  import opened Order
  import opened Sorting
  import MedicineCard

  /** The logs the status filter keeps: all of them for `"all"`, otherwise
      those whose stored status string equals the filter. */
  function FilterLogs(logs: seq<HistoryLog>, filter: string): (r: seq<HistoryLog>)
    ensures filter == "all" ==> r == logs
    ensures filter != "all" ==> forall i :: 0 <= i < |r| ==> r[i].status.Text() == filter
    ensures filter != "all" ==> forall l :: l in logs && l.status.Text() == filter ==> l in r
  {
    if filter == "all" then logs
    else
      FilterMembers(logs, StatusIs(filter));
      Filter(logs, StatusIs(filter))
  }

  /** The filter keeps log order and multiplicity: filtering a
      concatenation is concatenating the filtered parts, and a single
      record is kept exactly when it passes. */
  lemma FilterLogsOrder(a: seq<HistoryLog>, b: seq<HistoryLog>, l: HistoryLog, filter: string)
    ensures FilterLogs(a + b, filter) == FilterLogs(a, filter) + FilterLogs(b, filter)
    ensures FilterLogs([l], filter) == if filter == "all" || l.status.Text() == filter then [l] else []
  {
    if filter != "all" {
      FilterAppend(a, b, StatusIs(filter));
      FilterCons(l, [], StatusIs(filter));
      assert [l] + [] == [l];
    }
  }

  function StatusIs(filter: string): HistoryLog -> bool {
    (l: HistoryLog) => l.status.Text() == filter
  }

  /** The summary cards: total, dispensed and missed. Every record is one
      of the two outcomes, so the two counts add up to the total. */
  lemma {:induction false} SummaryCountsAddUp(logs: seq<HistoryLog>)
    ensures |Filter(logs, StatusIs("dispensed"))| + |Filter(logs, StatusIs("missed"))| == |logs|
  {
    if |logs| > 0 {
      SummaryCountsAddUp(logs[1..]);
      assert logs == [logs[0]] + logs[1..];
      FilterCons(logs[0], logs[1..], StatusIs("dispensed"));
      FilterCons(logs[0], logs[1..], StatusIs("missed"));
    }
  }

  /** Filtering on `upcoming` finds nothing: no record has that status. */
  lemma NoUpcomingRecords(logs: seq<HistoryLog>)
    ensures FilterLogs(logs, "upcoming") == []
  {
    FilterNone(logs, StatusIs("upcoming"));
  }

  // ---------------------------------------------------------------------
  // Grouping by day

  /** `date.split('T')[0]`: everything before the first `T`. */
  function DateKey(date: string): (k: string)
    ensures 'T' !in k
    ensures |k| <= |date| && k == date[..|k|]
    ensures |k| < |date| ==> date[|k|] == 'T'
  {
    if |date| == 0 || date[0] == 'T' then [] else [date[0]] + DateKey(date[1..])
  }

  function KeyIs(key: string): HistoryLog -> bool {
    (l: HistoryLog) => DateKey(l.date) == key
  }

  datatype DateGroup = DateGroup(key: string, logs: seq<HistoryLog>)

  function GroupKey(g: DateGroup): string {
    g.key
  }

  ghost predicate DistinctKeys(groups: seq<DateGroup>) {
    forall i, j :: 0 <= i < |groups| && 0 <= j < |groups| && groups[i].key == groups[j].key ==> i == j
  }

  /** Each group holds exactly its day's records, in log order. */
  ghost predicate GroupsMatch(groups: seq<DateGroup>, logs: seq<HistoryLog>) {
    forall i :: 0 <= i < |groups| ==> groups[i].logs == Filter(logs, KeyIs(groups[i].key))
  }

  function Keys(groups: seq<DateGroup>): set<string> {
    set g | g in groups :: g.key
  }

  /** Every record lands in exactly one group, and no group is empty. */
  ghost predicate WellGrouped(groups: seq<DateGroup>, logs: seq<HistoryLog>) {
    && DistinctKeys(groups)
    && GroupsMatch(groups, logs)
    && (forall i :: 0 <= i < |groups| ==> |groups[i].logs| > 0)
    && (forall l :: l in logs ==> DateKey(l.date) in Keys(groups))
  }

  /** The position of the group for `key`, or -1 (`acc[dateKey]`). */
  function FindGroup(groups: seq<DateGroup>, key: string): (i: int)
    ensures -1 <= i < |groups|
    ensures i >= 0 ==> groups[i].key == key
    ensures i < 0 ==> forall j :: 0 <= j < |groups| ==> groups[j].key != key
  {
    if |groups| == 0 then -1
    else if groups[|groups| - 1].key == key then |groups| - 1
    else FindGroup(groups[..|groups| - 1], key)
  }

  /** One step of the reduce: the record joins its day's group, or opens a
      new group at the end. */
  function AddToGroups(groups: seq<DateGroup>, l: HistoryLog): seq<DateGroup> {
    var k := DateKey(l.date);
    var i := FindGroup(groups, k);
    if i >= 0 then groups[i := groups[i].(logs := groups[i].logs + [l])]
    else groups + [DateGroup(k, [l])]
  }

  /** The `reduce` over the filtered logs, in order. */
  function GroupByDate(logs: seq<HistoryLog>): seq<DateGroup> {
    if |logs| == 0 then []
    else AddToGroups(GroupByDate(logs[..|logs| - 1]), logs[|logs| - 1])
  }

  /** Grouping keys each record by its day: one group per day, each group
      holds exactly that day's records in log order, and no group is
      empty. */
  lemma {:induction false} GroupByDateIsWellGrouped(logs: seq<HistoryLog>)
    ensures WellGrouped(GroupByDate(logs), logs)
  {
    if |logs| > 0 {
      var prefix := logs[..|logs| - 1];
      var l := logs[|logs| - 1];
      var groups := GroupByDate(prefix);
      assert GroupByDate(logs) == AddToGroups(groups, l);
      assert logs == prefix + [l];
      GroupByDateIsWellGrouped(prefix);
      AddToGroupsKeepsGrouping(groups, prefix, l, logs);
    }
  }

  /** Selecting one day's records from a log extended by `l`. */
  lemma FilterKeySnoc(logs: seq<HistoryLog>, l: HistoryLog, key: string)
    ensures Filter(logs + [l], KeyIs(key)) ==
      Filter(logs, KeyIs(key)) + (if DateKey(l.date) == key then [l] else [])
  {
    FilterAppend(logs, [l], KeyIs(key));
    FilterCons(l, [], KeyIs(key));
    assert [l] + [] == [l];
  }

  lemma AddToGroupsKeepsKeysDistinct(groups: seq<DateGroup>, l: HistoryLog)
    requires DistinctKeys(groups)
    ensures DistinctKeys(AddToGroups(groups, l))
    ensures Keys(AddToGroups(groups, l)) == Keys(groups) + {DateKey(l.date)}
  {
    var k := DateKey(l.date);
    var i := FindGroup(groups, k);
    var r := AddToGroups(groups, l);
    if i >= 0 {
      assert forall j :: 0 <= j < |r| ==> r[j].key == groups[j].key;
      assert k in Keys(groups) by {
        assert groups[i] in groups;
      }
      forall x | x in Keys(r) ensures x in Keys(groups) {
        var g :| g in r && g.key == x;
        var j :| 0 <= j < |r| && r[j] == g;
        assert groups[j] in groups;
      }
      forall x | x in Keys(groups) ensures x in Keys(r) {
        var g :| g in groups && g.key == x;
        var j :| 0 <= j < |groups| && groups[j] == g;
        assert r[j] in r;
      }
    } else {
      assert r == groups + [DateGroup(k, [l])];
    }
  }

  lemma AddToGroupsKeepsMatch(groups: seq<DateGroup>, logs: seq<HistoryLog>, l: HistoryLog)
    requires DistinctKeys(groups) && GroupsMatch(groups, logs)
    requires forall x :: x in logs ==> DateKey(x.date) in Keys(groups)
    ensures GroupsMatch(AddToGroups(groups, l), logs + [l])
  {
    var k := DateKey(l.date);
    var i := FindGroup(groups, k);
    var r := AddToGroups(groups, l);
    forall j | 0 <= j < |r|
      ensures r[j].logs == Filter(logs + [l], KeyIs(r[j].key))
    {
      FilterKeySnoc(logs, l, r[j].key);
      if j < |groups| && j != i {
        assert r[j] == groups[j];
        assert groups[j].key != k;
        assert r[j].logs + [] == r[j].logs;
      } else if j == i {
        assert r[j].logs == groups[j].logs + [l];
      } else {
        assert i < 0 && r[j] == DateGroup(k, [l]);
        assert k !in Keys(groups);
        forall m | 0 <= m < |logs| ensures !KeyIs(k)(logs[m]) {
          assert logs[m] in logs;
        }
        FilterNone(logs, KeyIs(k));
      }
    }
  }

  lemma AddToGroupsKeepsGrouping(groups: seq<DateGroup>, logs: seq<HistoryLog>, l: HistoryLog, extended: seq<HistoryLog>)
    requires WellGrouped(groups, logs) && extended == logs + [l]
    ensures WellGrouped(AddToGroups(groups, l), extended)
  {
    AddToGroupsKeepsKeysDistinct(groups, l);
    AddToGroupsKeepsMatch(groups, logs, l);
    AddToGroupsKeepsNonEmpty(groups, l);
    AddToGroupsCovers(groups, logs, l, extended);
  }

  lemma AddToGroupsKeepsNonEmpty(groups: seq<DateGroup>, l: HistoryLog)
    requires forall i :: 0 <= i < |groups| ==> |groups[i].logs| > 0
    ensures var r := AddToGroups(groups, l);
      forall i :: 0 <= i < |r| ==> |r[i].logs| > 0
  {
  }

  lemma AddToGroupsCovers(groups: seq<DateGroup>, logs: seq<HistoryLog>, l: HistoryLog, extended: seq<HistoryLog>)
    requires DistinctKeys(groups) && extended == logs + [l]
    requires forall x :: x in logs ==> DateKey(x.date) in Keys(groups)
    ensures forall x :: x in extended ==> DateKey(x.date) in Keys(AddToGroups(groups, l))
  {
    AddToGroupsKeepsKeysDistinct(groups, l);
    assert forall x :: x in extended ==> x in logs || x == l;
  }

  // ---------------------------------------------------------------------
  // The page

  /** Day groups newest first: `YYYY-MM-DD` keys compare chronologically
      under string order. */
  function NewestFirst(groups: seq<DateGroup>): (r: seq<DateGroup>)
    ensures SortedBy(r, GroupKey, LexGe)
    ensures multiset(r) == multiset(groups)
  {
    LexGeIsTotalPreorder();
    SortBySorted(groups, GroupKey, LexGe);
    SortBy(groups, GroupKey, LexGe)
  }

  /** What the page shows for a log and a filter. */
  datatype HistoryView = HistoryView(
    total: nat,
    dispensed: nat,
    missed: nat,
    groups: seq<DateGroup>,
    showEmpty: bool)

  function View(logs: seq<HistoryLog>, filter: string): (v: HistoryView)
    ensures v.total == |logs|
    ensures v.dispensed == |Filter(logs, StatusIs("dispensed"))|
    ensures v.missed == |Filter(logs, StatusIs("missed"))|
    ensures v.total == v.dispensed + v.missed
    ensures WellGrouped(v.groups, FilterLogs(logs, filter))
    ensures v.showEmpty <==> |FilterLogs(logs, filter)| == 0
    ensures v.showEmpty <==> |v.groups| == 0
    ensures SortedBy(v.groups, GroupKey, LexGe)
    ensures DistinctKeys(v.groups)
    ensures forall l :: l in FilterLogs(logs, filter) ==> DateKey(l.date) in Keys(v.groups)
    ensures forall i :: 0 <= i < |v.groups| ==> v.groups[i].logs == Filter(FilterLogs(logs, filter), KeyIs(v.groups[i].key))
  {
    var shown := FilterLogs(logs, filter);
    var grouped := GroupByDate(shown);
    GroupByDateIsWellGrouped(shown);
    SummaryCountsAddUp(logs);
    var ordered := NewestFirst(grouped);
    OrderingKeepsGrouping(grouped, shown);
    assert |shown| > 0 ==> shown[0] in shown;
    HistoryView(|logs|, |Filter(logs, StatusIs("dispensed"))|, |Filter(logs, StatusIs("missed"))|, ordered, |shown| == 0)
  }

  /** Reordering the groups keeps them well formed. */
  lemma OrderingKeepsGrouping(groups: seq<DateGroup>, logs: seq<HistoryLog>)
    requires WellGrouped(groups, logs)
    ensures WellGrouped(NewestFirst(groups), logs)
  {
    var r := NewestFirst(groups);
    SameMembers(groups, r);
    PermutedKeysDistinct(groups, r);
    assert Keys(r) == Keys(groups);
    forall i | 0 <= i < |r|
      ensures r[i].logs == Filter(logs, KeyIs(r[i].key)) && |r[i].logs| > 0
    {
      assert r[i] in groups;
    }
  }

  lemma SameMembers(groups: seq<DateGroup>, r: seq<DateGroup>)
    requires multiset(r) == multiset(groups)
    ensures forall g :: g in r <==> g in groups
  {
    forall g ensures g in r <==> g in groups {
      assert g in r <==> g in multiset(r);
      assert g in groups <==> g in multiset(groups);
    }
  }

  lemma PermutedKeysDistinct(groups: seq<DateGroup>, r: seq<DateGroup>)
    requires DistinctKeys(groups) && multiset(r) == multiset(groups)
    ensures DistinctKeys(r)
  {
    SameMembers(groups, r);
    assert NoDup(groups) by {
      forall a, b | 0 <= a < b < |groups| ensures groups[a] != groups[b] {
        assert groups[a].key != groups[b].key;
      }
    }
    PermutationKeepsNoDup(groups, r);
    forall i, j | 0 <= i < |r| && 0 <= j < |r| && r[i].key == r[j].key
      ensures i == j
    {
      assert r[i] in groups && r[j] in groups;
      var a :| 0 <= a < |groups| && groups[a] == r[i];
      var b :| 0 <= b < |groups| && groups[b] == r[j];
      assert a == b;
    }
  }

  /** `getStatusBadge`: anything that is not `dispensed` is badged as
      missed. */
  function BadgeText(status: string): (t: string)
    ensures status == "dispensed" ==> t == "Dispensed"
    ensures status != "dispensed" ==> t == "Missed"
  {
    if status == "dispensed" then "Dispensed" else "Missed"
  }

  /** Since a record is never `upcoming`, the history badge always says
      what the dose card's badge says for the same status. */
  lemma BadgeAgreesWithCard(l: HistoryLog)
    ensures BadgeText(l.status.Text()) == MedicineCard.StatusLabel(l.status.Text())
  {
  }
}
