/** The add-medicine form: time-slot editing, submit validation and the
    hand-off to the store. */
module AddMedicineDialog {
  import opened Types
  import opened Order
  import opened Store

  /** The form's fields as typed (all strings), and whether it is open. */
  datatype Form = Form(
    name: string,
    dosage: string,
    compartment: string,
    times: seq<string>,
    startDate: string,
    endDate: string,
    open: bool)

  /** The reset form: every field empty and one empty time slot. */
  function ResetForm(open: bool): Form {
    Form("", "", "", [""], "", "", open)
  }

  /** `handleCancel`: the form is cleared and closed; the store is not
      touched. */
  function Cancel(f: Form): (r: Form)
    ensures !r.open && r.times == [""]
    ensures r.name == "" && r.dosage == "" && r.compartment == "" && r.startDate == "" && r.endDate == ""
    ensures !FieldsFilled(r) && !SlotsFilled(r)
  {
    var r := ResetForm(false);
    assert r.times[0] == "";
    r
  }

  /** Cancelling and a successful submit leave the dialog in the same
      state, and a cancelled form rejects a submit until it is filled in. */
  lemma CancelMatchesAcceptedSubmit(f: Form, st: AppState, id: string, day: Day)
    requires FieldsFilled(f) && SlotsFilled(f)
    ensures Submit(f, st, id, day).0 == Cancel(f)
    ensures Submit(Cancel(f), st, id, day).2 == Rejected(MissingField)
  {
  }

  // ---------------------------------------------------------------------
  // Time slots

  /** `handleAddTime`: one more, empty, slot at the end. */
  function AddTime(f: Form): (r: Form)
    ensures |r.times| == |f.times| + 1
    ensures r.times[..|f.times|] == f.times && r.times[|f.times|] == ""
    ensures r.(times := f.times) == f
  {
    f.(times := f.times + [""])
  }

  /** The slots whose position differs from `index`, in order. */
  function DropIndex(t: seq<string>, index: int): (r: seq<string>)
    ensures 0 <= index < |t| ==> r == t[..index] + t[index + 1..]
    ensures !(0 <= index < |t|) ==> r == t
  {
    if |t| == 0 then []
    else if index == 0 then t[1..]
    else
      assert t == [t[0]] + t[1..];
      [t[0]] + DropIndex(t[1..], index - 1)
  }

  /** `handleRemoveTime`: removes exactly the slot at `index`; an index
      outside the list removes nothing. */
  function RemoveTime(f: Form, index: int): (r: Form)
    ensures 0 <= index < |f.times| ==> |r.times| == |f.times| - 1
    ensures 0 <= index < |f.times| ==> r.times == f.times[..index] + f.times[index + 1..]
    ensures !(0 <= index < |f.times|) ==> r == f
    ensures r.(times := f.times) == f
  {
    f.(times := DropIndex(f.times, index))
  }

  /** The remove button is rendered only while there is more than one slot. */
  predicate RemoveOffered(f: Form) {
    |f.times| > 1
  }

  /** So through the UI the slot list never becomes empty. */
  lemma RemoveNeverEmpties(f: Form, index: int)
    requires RemoveOffered(f) && 0 <= index < |f.times|
    ensures |RemoveTime(f, index).times| >= 1
  {
  }

  /** `handleTimeChange`: only the slot at `index` changes. The index
      comes from rendering the slots, so it is always in range. */
  function TimeChange(f: Form, index: int, value: string): (r: Form)
    requires 0 <= index < |f.times|
    ensures |r.times| == |f.times| && r.times[index] == value
    ensures forall j :: 0 <= j < |f.times| && j != index ==> r.times[j] == f.times[j]
    ensures r.(times := f.times) == f
  {
    f.(times := f.times[index := value])
  }

  // ---------------------------------------------------------------------
  // parseInt

  predicate IsSpace(c: char) {
    c == ' ' || c == '\t' || c == '\n' || c == '\r'
  }

  /** The string without its leading whitespace. */
  function TrimStart(s: string): (r: string)
    ensures |r| == 0 || !IsSpace(r[0])
    ensures |r| <= |s| && r == s[|s| - |r|..]
    ensures forall i :: 0 <= i < |s| - |r| ==> IsSpace(s[i])
  {
    if |s| > 0 && IsSpace(s[0]) then TrimStart(s[1..]) else s
  }

  /** The number of leading decimal digits. */
  function DigitRun(s: string): (n: nat)
    ensures n <= |s|
    ensures forall i :: 0 <= i < n ==> IsDigit(s[i])
    ensures n == |s| || !IsDigit(s[n])
  {
    if |s| > 0 && IsDigit(s[0]) then 1 + DigitRun(s[1..]) else 0
  }

  predicate AllDigits(ds: string) {
    forall i :: 0 <= i < |ds| ==> IsDigit(ds[i])
  }

  /** The value of a decimal digit string. */
  function DigitsValue(ds: string): nat
    requires AllDigits(ds)
  {
    if |ds| == 0 then 0 else DigitsValue(ds[..|ds| - 1]) * 10 + DigitValue(ds[|ds| - 1])
  }

  /** The longest run of leading digits, read in base ten; NaN when there
      is none. */
  function ParseDigits(u: string): JsNumber {
    var n := DigitRun(u);
    if n == 0 then NaN else Int(DigitsValue(u[..n]))
  }

  function Negate(x: JsNumber): JsNumber {
    match x
    case Int(v) => Int(-v)
    case NaN => NaN
  }

  /** `parseInt(s)` in base ten: leading white space, an optional sign,
      then the longest run of digits; NaN when there is no digit. */
  function ParseInt(s: string): JsNumber {
    var t := TrimStart(s);
    if |t| > 0 && t[0] == '-' then Negate(ParseDigits(t[1..]))
    else if |t| > 0 && t[0] == '+' then ParseDigits(t[1..])
    else ParseDigits(t)
  }

  function DigitChar(d: nat): (c: char)
    requires d < 10
    ensures IsDigit(c) && DigitValue(c) == d
  {
    ('0' as int + d) as char
  }

  /** The decimal rendering of a number, the partner of `ParseInt`. */
  function NatToDecimal(n: nat): (r: string)
    ensures |r| > 0 && AllDigits(r)
  {
    if n < 10 then [DigitChar(n)] else NatToDecimal(n / 10) + [DigitChar(n % 10)]
  }

  function IntToDecimal(n: int): string {
    if n < 0 then "-" + NatToDecimal(-n) else NatToDecimal(n)
  }

  lemma {:induction false} DecimalValue(n: nat)
    ensures DigitsValue(NatToDecimal(n)) == n
  {
    if n >= 10 {
      var r := NatToDecimal(n);
      DecimalValue(n / 10);
      assert r[..|r| - 1] == NatToDecimal(n / 10);
    }
  }

  lemma {:induction false} DigitRunOfDecimal(ds: string, rest: string)
    requires AllDigits(ds)
    requires |rest| == 0 || !IsDigit(rest[0])
    ensures DigitRun(ds + rest) == |ds|
  {
    if |ds| > 0 {
      assert (ds + rest)[1..] == ds[1..] + rest;
      DigitRunOfDecimal(ds[1..], rest);
    } else {
      assert ds + rest == rest;
    }
  }

  /** Reading back a rendered integer, followed by anything that does not
      start with a digit (such as the `.5` of `1.5`), gives the integer. */
  lemma ParseDigitsOfDecimal(m: nat, rest: string)
    requires |rest| == 0 || !IsDigit(rest[0])
    ensures ParseDigits(NatToDecimal(m) + rest) == Int(m)
  {
    var ds := NatToDecimal(m);
    DecimalValue(m);
    DigitRunOfDecimal(ds, rest);
    assert (ds + rest)[..|ds|] == ds;
  }

  /** A string that does not start with white space is not trimmed. */
  lemma TrimStartKeeps(s: string)
    requires |s| > 0 && !IsSpace(s[0])
    ensures TrimStart(s) == s
  {
  }

  /** `parseInt` of a string that starts with a digit reads its digits. */
  lemma ParseIntOfDigits(s: string)
    requires |s| > 0 && IsDigit(s[0])
    ensures ParseInt(s) == ParseDigits(s)
  {
    TrimStartKeeps(s);
  }

  /** `parseInt` of a string that starts with `-` negates what follows. */
  lemma ParseIntOfMinus(t: string)
    ensures ParseInt("-" + t) == Negate(ParseDigits(t))
  {
    var s := "-" + t;
    assert s[1..] == t;
    TrimStartKeeps(s);
  }

  lemma ParseIntRoundTrip(n: int, rest: string)
    requires |rest| == 0 || !IsDigit(rest[0])
    ensures ParseInt(IntToDecimal(n) + rest) == Int(n)
  {
    if n < 0 {
      var m: nat := -n;
      assert IntToDecimal(n) + rest == "-" + NatToDecimal(m) + rest;
      NegativeRoundTrip(m, rest);
    } else {
      assert IntToDecimal(n) + rest == NatToDecimal(n) + rest;
      UnsignedRoundTrip(n, rest);
    }
  }

  lemma UnsignedRoundTrip(m: nat, rest: string)
    requires |rest| == 0 || !IsDigit(rest[0])
    ensures ParseInt(NatToDecimal(m) + rest) == Int(m)
  {
    var s := NatToDecimal(m) + rest;
    ParseDigitsOfDecimal(m, rest);
    assert IsDigit(s[0]);
    ParseIntOfDigits(s);
  }

  lemma NegativeRoundTrip(m: nat, rest: string)
    requires m > 0
    requires |rest| == 0 || !IsDigit(rest[0])
    ensures ParseInt("-" + NatToDecimal(m) + rest) == Int(-(m as int))
  {
    var ds := NatToDecimal(m);
    assert "-" + ds + rest == "-" + (ds + rest);
    ParseDigitsOfDecimal(m, rest);
    ParseIntOfMinus(ds + rest);
  }

  // ---------------------------------------------------------------------
  // Submit

  datatype Rejection = MissingField | EmptyTimeSlot {
    function Message(): string {
      match this
      case MissingField => "Please fill in all required fields"
      case EmptyTimeSlot => "Please fill in all time slots or remove empty ones"
    }
  }

  datatype Submission = Rejected(reason: Rejection) | Accepted(medicineId: string) {
    /** The toast `handleSubmit` shows for this outcome. */
    function Toast(): string {
      match this
      case Rejected(reason) => reason.Message()
      case Accepted(_) => "Medicine added successfully!"
    }
  }

  predicate FieldsFilled(f: Form) {
    f.name != "" && f.dosage != "" && f.compartment != "" && f.startDate != "" && f.endDate != ""
  }

  predicate SlotsFilled(f: Form) {
    forall i :: 0 <= i < |f.times| ==> f.times[i] != ""
  }

  /** What the form hands to `addMedicine`. */
  function Entered(f: Form): MedicineInput {
    MedicineInput(f.name, f.dosage, ParseInt(f.compartment), f.times, f.startDate, f.endDate)
  }

  /** `handleSubmit`, with `id` the store's fresh id and `day` the clock's
      day. A rejected submit changes neither store nor form; an accepted
      one adds the entered medicine and resets and closes the form. */
  function Submit(f: Form, st: AppState, id: string, day: Day): (r: (Form, AppState, Submission))
    ensures r.2.Accepted? <==> FieldsFilled(f) && SlotsFilled(f)
    ensures !FieldsFilled(f) ==> r == (f, st, Rejected(MissingField))
    ensures FieldsFilled(f) && !SlotsFilled(f) ==> r == (f, st, Rejected(EmptyTimeSlot))
    ensures r.2.Accepted? ==>
      && r.2.medicineId == id
      && r.1 == AddMedicine(st, Entered(f), id, day).0
      && r.1.medicines[|st.medicines|] == Medicine(id, f.name, f.dosage, ParseInt(f.compartment), f.times, f.startDate, f.endDate)
      && r.0 == ResetForm(false)
    ensures r.2.Toast() ==
      if !FieldsFilled(f) then "Please fill in all required fields"
      else if !SlotsFilled(f) then "Please fill in all time slots or remove empty ones"
      else "Medicine added successfully!"
  {
    if !FieldsFilled(f) then (f, st, Rejected(MissingField))
    else if exists i :: 0 <= i < |f.times| && f.times[i] == "" then (f, st, Rejected(EmptyTimeSlot))
    else
      var (st', newId) := AddMedicine(st, Entered(f), id, day);
      (ResetForm(false), st', Accepted(newId))
  }
}
