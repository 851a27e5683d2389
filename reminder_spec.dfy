/**
 What one run of the reminder job over a list of rows must produce, as pure
 functions: the outcome recorded for each row and the sequence of calls made
 to the reminder sender. The sender is an oracle `mailer(i, reminder)`: its
 answer (success or not) to the call made for the row at position i.
 */
module ReminderSpec {
  import opened ReminderTypes

  /** A contact the job mails: present and containing '@' (so not empty). */
  predicate HasUsableEmail(email: Option<string>) {
    email.Some? && '@' in email.value
  }

  /** The call the job makes for a row with a usable contact. */
  function ReminderFor(row: Row, format: Timestamp -> string): Reminder
    requires HasUsableEmail(row.email)
  {
    Reminder(
      row.email.value,
      row.firstName + " " + row.lastName,
      format(row.date),
      row.doctorFirstName + " " + row.doctorLastName)
  }

  /** The outcome recorded for the row at position i. */
  function OutcomeOf(row: Row, i: nat, format: Timestamp -> string, mailer: (nat, Reminder) -> bool): Outcome {
    if !HasUsableEmail(row.email) then Skipped(row.id)
    else if mailer(i, ReminderFor(row, format)) then Sent(row.id, row.email.value)
    else Failed(row.id, row.email.value)
  }

  /** The `details` list: one entry per row, in row order. Entry i carries row
      i's id; it is a skip exactly when the row has no usable contact, and
      otherwise carries the contact and is `sent` exactly when the sender
      reported success for that row's call. */
  function Outcomes(rows: seq<Row>, format: Timestamp -> string, mailer: (nat, Reminder) -> bool): (d: seq<Outcome>)
    ensures |d| == |rows|
    ensures forall i :: 0 <= i < |rows| ==> d[i].id == rows[i].id
    ensures forall i :: 0 <= i < |rows| ==> (d[i].Skipped? <==> !HasUsableEmail(rows[i].email))
    ensures forall i :: 0 <= i < |rows| && HasUsableEmail(rows[i].email) ==>
      && d[i].email == rows[i].email.value
      && (d[i].Sent? <==> mailer(i, ReminderFor(rows[i], format)))
      && (d[i].Failed? <==> !mailer(i, ReminderFor(rows[i], format)))
  {
    seq(|rows|, i requires 0 <= i < |rows| => OutcomeOf(rows[i], i, format, mailer))
  }

  /** The calls made to the sender, in order: one per row with a usable
      contact, none for any other row. */
  function Sends(rows: seq<Row>, format: Timestamp -> string): seq<Reminder>
  {
    if rows == [] then []
    else
      var last := rows[|rows| - 1];
      Sends(rows[..|rows| - 1], format)
        + if HasUsableEmail(last.email) then [ReminderFor(last, format)] else []
  }

  /** How many entries of a `details` list record an attempted send. */
  function CountAttempted(details: seq<Outcome>): nat
  {
    if details == [] then 0
    else CountAttempted(details[..|details| - 1]) + if details[|details| - 1].Skipped? then 0 else 1
  }

  /** How many entries of a `details` list record a skip. */
  function CountSkipped(details: seq<Outcome>): nat
  {
    if details == [] then 0
    else CountSkipped(details[..|details| - 1]) + if details[|details| - 1].Skipped? then 1 else 0
  }

  /** Processing one more row adds that row's call, if it has a usable
      contact, and nothing otherwise. */
  lemma SendStep(rows: seq<Row>, format: Timestamp -> string, i: nat)
    requires i < |rows|
    ensures Sends(rows[..i + 1], format) ==
      Sends(rows[..i], format) + if HasUsableEmail(rows[i].email) then [ReminderFor(rows[i], format)] else []
  {
    assert rows[..i + 1][..i] == rows[..i];
  }

  /** The calls made for the first i rows are the first calls made for all of them. */
  lemma {:induction false} SendsPrefix(rows: seq<Row>, format: Timestamp -> string, i: nat)
    requires i <= |rows|
    ensures Sends(rows[..i], format) <= Sends(rows, format)
  {
    if i == |rows| {
      assert rows[..i] == rows;
    } else {
      var init := rows[..|rows| - 1];
      assert init[..i] == rows[..i];
      SendsPrefix(init, format, i);
    }
  }

  /** A row with a usable contact gets exactly one call, at the position
      counted by the usable rows before it, with its contact, the patient's
      "first last" name, the formatted time and the doctor's "first last". */
  lemma SendForRow(rows: seq<Row>, format: Timestamp -> string, i: nat)
    requires i < |rows| && HasUsableEmail(rows[i].email)
    ensures
      var k := |Sends(rows[..i], format)|;
      && |Sends(rows[..i + 1], format)| == k + 1
      && k < |Sends(rows, format)|
      && Sends(rows, format)[k] == Reminder(
           rows[i].email.value,
           rows[i].firstName + " " + rows[i].lastName,
           format(rows[i].date),
           rows[i].doctorFirstName + " " + rows[i].doctorLastName)
  {
    SendStep(rows, format, i);
    SendsPrefix(rows, format, i + 1);
  }

  /** A row without a usable contact causes no call. */
  lemma NoSendForSkippedRow(rows: seq<Row>, format: Timestamp -> string, i: nat)
    requires i < |rows| && !HasUsableEmail(rows[i].email)
    ensures Sends(rows[..i + 1], format) == Sends(rows[..i], format)
  {
    SendStep(rows, format, i);
  }

  /** The trace of calls is as long as the number of attempted entries in
      `details`, and skipped plus attempted entries make up all the rows. */
  lemma {:induction false} SendsMatchDetails(rows: seq<Row>, format: Timestamp -> string, mailer: (nat, Reminder) -> bool)
    ensures |Sends(rows, format)| == CountAttempted(Outcomes(rows, format, mailer))
    ensures CountAttempted(Outcomes(rows, format, mailer)) + CountSkipped(Outcomes(rows, format, mailer)) == |rows|
  {
    if rows != [] {
      var n := |rows| - 1;
      var d := Outcomes(rows, format, mailer);
      assert d[..n] == Outcomes(rows[..n], format, mailer);
      SendsMatchDetails(rows[..n], format, mailer);
    }
  }

  /** Nothing records what was already sent: running the job twice over the
      same rows calls the sender twice for every row with a usable contact. */
  lemma RerunSendsTwice(rows: seq<Row>, format: Timestamp -> string, i: nat)
    requires i < |rows| && HasUsableEmail(rows[i].email)
    ensures
      var once := Sends(rows, format);
      var k := |Sends(rows[..i], format)|;
      && k < |once|
      && (once + once)[k] == ReminderFor(rows[i], format)
      && (once + once)[|once| + k] == ReminderFor(rows[i], format)
  {
    SendForRow(rows, format, i);
  }
}
