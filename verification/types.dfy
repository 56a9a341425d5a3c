/** The records the app stores and shows: medicines, today's doses and the
    history log. */
module Types {
  import opened Wrappers

  /** A dose's status: exactly one of three values. */
  datatype Status = Upcoming | Dispensed | Missed {

    /** The string the app stores for the status. */
    function Text(): string {
      match this
      case Upcoming => "upcoming"
      case Dispensed => "dispensed"
      case Missed => "missed"
    }
  }

  /** The statuses a history record or a status update may carry. */
  type FinalStatus = s: Status | s != Upcoming witness Dispensed

  /** A JavaScript number produced by `parseInt`: an integer, or NaN when
      no digits could be read. */
  datatype JsNumber = Int(value: int) | NaN

  /** A recurring medicine definition. `times` holds the daily times of day
      (`HH:MM` as entered); the date range is stored but never consulted. */
  datatype Medicine = Medicine(
    id: string,
    name: string,
    dosage: string,
    compartment: JsNumber,
    times: seq<string>,
    startDate: string,
    endDate: string)

  /** A medicine before the store has given it an id. */
  datatype MedicineInput = MedicineInput(
    name: string,
    dosage: string,
    compartment: JsNumber,
    times: seq<string>,
    startDate: string,
    endDate: string)
  {
    function WithId(id: string): Medicine {
      Medicine(id, name, dosage, compartment, times, startDate, endDate)
    }
  }

  /** One dose for one day. The store writes `scheduledTime`; records
      persisted by older versions carry the time in `time` instead. An
      absent or empty string field is `""` (both are falsy to the code). */
  datatype Schedule = Schedule(
    id: string,
    medicineId: Option<string>,
    medicineName: string,
    dosage: string,
    compartment: JsNumber,
    scheduledTime: string,
    time: string,
    status: Status,
    date: Option<string>)

  /** A history record: an outcome, never `upcoming`. */
  datatype HistoryLog = HistoryLog(
    id: string,
    date: string,
    time: string,
    medicineName: string,
    dosage: string,
    status: FinalStatus)

  /** A history record before the store has given it an id. */
  datatype LogInput = LogInput(
    date: string,
    time: string,
    medicineName: string,
    dosage: string,
    status: FinalStatus)
  {
    function WithId(id: string): HistoryLog {
      HistoryLog(id, date, time, medicineName, dosage, status)
    }
  }
}
