/** One dose card on the dashboard: status badge, next-dose indicator and
    the dispense button. */
module MedicineCard {
  import opened Types
  import opened Order
  import opened Sorting
  import opened Store

  /** `getStatusColor`: the badge classes for a status string. */
  function StatusColor(status: string): (c: string)
    ensures status == "upcoming" ==> c == "bg-blue-100 text-blue-800 border-blue-200"
    ensures status == "dispensed" ==> c == "bg-green-100 text-green-800 border-green-200"
    ensures status == "missed" ==> c == "bg-red-100 text-red-800 border-red-200"
    ensures status !in {"upcoming", "dispensed", "missed"} ==> c == DefaultColor
  {
    match status
    case "upcoming" => "bg-blue-100 text-blue-800 border-blue-200"
    case "dispensed" => "bg-green-100 text-green-800 border-green-200"
    case "missed" => "bg-red-100 text-red-800 border-red-200"
    case _ => DefaultColor
  }

  /** The gray classes used for any status the card does not know. */
  const DefaultColor: string := "bg-gray-100 text-gray-800 border-gray-200"

  /** `getStatusLabel`: the badge text for a status string. */
  function StatusLabel(status: string): (l: string)
    ensures status == "upcoming" ==> l == "Upcoming"
    ensures status == "dispensed" ==> l == "Dispensed"
    ensures status == "missed" ==> l == "Missed"
    ensures status !in {"upcoming", "dispensed", "missed"} ==> l == status
  {
    match status
    case "upcoming" => "Upcoming"
    case "dispensed" => "Dispensed"
    case "missed" => "Missed"
    case _ => status
  }

  /** The three statuses get three different colours, none of them the
      gray default, and three different labels. */
  lemma StatusesAreDistinguished(a: Status, b: Status)
    ensures StatusColor(a.Text()) != DefaultColor
    ensures a != b ==> StatusColor(a.Text()) != StatusColor(b.Text())
    ensures a != b ==> StatusLabel(a.Text()) != StatusLabel(b.Text())
  {
  }

  /** For a known status the label is its text with the first letter
      capitalised; every other string is shown as it is. */
  lemma LabelCapitalisesKnownStatus(s: Status)
    ensures |StatusLabel(s.Text())| == |s.Text()| > 0
    ensures StatusLabel(s.Text())[1..] == s.Text()[1..]
    ensures StatusLabel(s.Text())[0] == Capital(s.Text()[0])
  {
  }

  /** Upper-casing of an ASCII lower-case letter. */
  function Capital(c: char): (u: char)
    ensures 'a' <= c <= 'z' ==> 'A' <= u <= 'Z' && u as int == c as int - 32
    ensures !('a' <= c <= 'z') ==> u == c
  {
    if 'a' <= c <= 'z' then (c as int - 32) as char else c
  }

  /** What one card renders. */
  datatype CardView = CardView(
    badgeLabel: string,
    badgeColor: string,
    shownTime: string,
    highlighted: bool,
    showNextIndicator: bool,
    showDispense: bool)

  /** The card for a dose, as written: the time shown is the dose's
      `time` field, which the store leaves empty on freshly derived doses
      (the store writes `scheduledTime`). */
  function Card(d: Schedule, isNext: bool): (v: CardView)
    ensures v.showDispense <==> d.status == Upcoming
    ensures v.showNextIndicator <==> isNext
    ensures v.highlighted <==> isNext
    ensures v.badgeLabel == StatusLabel(d.status.Text())
    ensures v.badgeColor == StatusColor(d.status.Text())
    ensures v.shownTime == d.time
  {
    CardView(
      StatusLabel(d.status.Text()),
      StatusColor(d.status.Text()),
      d.time,
      isNext,
      isNext,
      d.status.Text() == "upcoming")
  }

  /** A freshly derived dose for a filled time slot shows an empty time on
      its card, although the dose has a scheduled time. */
  lemma DerivedDoseShowsNoTime(meds: seq<Medicine>, day: Day, i: nat, k: nat, isNext: bool)
    requires i < |meds| && k < |meds[i].times| && meds[i].times[k] != ""
    ensures TimeCount(meds[..i]) + k < |Candidates(meds, day)|
    ensures var d := Candidates(meds, day)[TimeCount(meds[..i]) + k];
      && d.scheduledTime == meds[i].times[k] != ""
      && Card(d, isNext).shownTime == ""
  {
    CandidatesCoverEveryPair(meds, day, i, k);
  }

  /** The card showing the dose's time the way the store reads it: the
      scheduled time, or the legacy `time` of an old record. */
  function FixedCard(d: Schedule, isNext: bool): (v: CardView)
    ensures d.scheduledTime != "" ==> v.shownTime == d.scheduledTime
    ensures d.scheduledTime == "" ==> v.shownTime == d.time
    ensures v.shownTime == SortKey(d)
    ensures v.(shownTime := d.time) == Card(d, isNext)
  {
    Card(d, isNext).(shownTime := SortKey(d))
  }

  /** With the fix, each card of a derived dose shows the time slot it was
      derived from. */
  lemma FixedCardShowsSlot(meds: seq<Medicine>, day: Day, i: nat, k: nat, isNext: bool)
    requires i < |meds| && k < |meds[i].times| && meds[i].times[k] != ""
    ensures TimeCount(meds[..i]) + k < |Candidates(meds, day)|
    ensures var d := Candidates(meds, day)[TimeCount(meds[..i]) + k];
      FixedCard(d, isNext).shownTime == meds[i].times[k]
  {
    CandidatesCoverEveryPair(meds, day, i, k);
  }

  /** With the fix, the dashboard's cards, taken in store order, show
      their times in ascending string order. */
  lemma FixedCardsInTimeOrder(meds: seq<Medicine>, day: Day, prev: seq<Schedule>, i: nat, j: nat)
    requires i <= j < |DeriveSchedules(meds, day, prev)|
    ensures var r := DeriveSchedules(meds, day, prev);
      LexLe(FixedCard(r[i], false).shownTime, FixedCard(r[j], false).shownTime)
  {
    var r := DeriveSchedules(meds, day, prev);
    if i == j {
      LexLeTotal(SortKey(r[i]), SortKey(r[i]));
    }
  }
}
