/**
 The values the daily reminder job reads and produces: the rows of the
 today's-appointments query, the arguments of one reminder send, the
 per-row outcome and the HTTP response with its JSON body.
 */
module ReminderTypes {
  import Decimal

  datatype Option<+T> = None | Some(value: T)

  /** The `date` column of an appointment. The job never inspects it; it only
      hands it to the time formatter. */
  type Timestamp

  /** One row of the query: an appointment joined with its patient and doctor.
      `email` is the patient's `contact` column, None when it is NULL. */
  datatype Row = Row(
    id: int,
    date: Timestamp,
    firstName: string,
    lastName: string,
    email: Option<string>,
    doctorFirstName: string,
    doctorLastName: string)

  /** What the query gave: its rows, or the message of the error it threw. */
  datatype QueryResult = Rows(rows: seq<Row>) | StoreFailure(message: string)

  /** The arguments of one call to the reminder sender: recipient, patient
      display name, and the `{ time, doctorName }` payload. */
  datatype Reminder = Reminder(to: string, patientName: string, time: string, doctorName: string)

  /** The entry of `details` recorded for one row. */
  datatype Outcome =
    | Skipped(id: int)
    | Sent(id: int, email: string)
    | Failed(id: int, email: string)
  {
    /** The `status` string of the entry's JSON object. */
    function Status(): string {
      match this
      case Skipped(_) => "skipped (invalid email)"
      case Sent(_, _) => "sent"
      case Failed(_, _) => "failed"
    }
  }

  /** The JSON body: `{ error }`, or `{ message, details? }`. */
  datatype Json =
    | ErrorBody(error: string)
    | MessageBody(message: string, details: Option<seq<Outcome>>)

  const MethodNotAllowedError := "Method Not Allowed"
  const NoAppointmentsMessage := "No appointments today."

  /** The four replies of the handler. */
  datatype Response =
    | MethodNotAllowed
    | NoAppointments
    | Processed(count: nat, details: seq<Outcome>)
    | ServerError(message: string)
  {
    function Status(): int {
      match this
      case MethodNotAllowed => 405
      case NoAppointments => 200
      case Processed(_, _) => 200
      case ServerError(_) => 500
    }

    function Body(): Json {
      match this
      case MethodNotAllowed => ErrorBody(MethodNotAllowedError)
      case NoAppointments => MessageBody(NoAppointmentsMessage, None)
      case Processed(n, d) => MessageBody("Processed " + Decimal.Show(n) + " appointments", Some(d))
      case ServerError(m) => ErrorBody(m)
    }
  }

  /** A 200 reply carries a message and never an error, any other an error
      and never a message; only a processed batch carries `details`, and its
      message names the number of rows, readable back from the text. */
  lemma ReplyShape(r: Response)
    ensures r.Status() == 200 <==> r.Body().MessageBody?
    ensures r.Body().MessageBody? ==> (r.Body().details.Some? <==> r.Processed?)
    ensures r.Processed? ==>
      var m := r.Body().message;
      var digits := m[10..|m| - 13];
      && m[..10] == "Processed "
      && m[|m| - 13..] == " appointments"
      && Decimal.AllDigits(digits)
      && Decimal.Value(digits) == r.count
  {
    if r.Processed? {
      var m := r.Body().message;
      assert m[10..|m| - 13] == Decimal.Show(r.count);
      Decimal.ValueOfShow(r.count);
    }
  }
}
