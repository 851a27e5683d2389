/**
 The reminder batch handler: guard on the HTTP method, take today's rows,
 and for each row either skip it or make one call to the reminder sender,
 collecting one outcome per row into the reply.
 */
module SendReminders {
  import opened ReminderTypes
  import opened ReminderSpec

  /** One invocation of the handler.
      `query` is what the today's-appointments query gives, `format` the
      time formatter and `mailer` the sender's answers. The ghost outputs
      say whether the store was consulted and which calls the sender got. */
  method Handle(verb: string, query: QueryResult, format: Timestamp -> string, mailer: (nat, Reminder) -> bool)
    returns (resp: Response, ghost queried: bool, ghost sends: seq<Reminder>)
    // the reply
    ensures verb != "GET" ==> resp == MethodNotAllowed
    ensures verb == "GET" && query.StoreFailure? ==> resp == ServerError(query.message)
    ensures verb == "GET" && query.Rows? && query.rows == [] ==> resp == NoAppointments
    ensures verb == "GET" && query.Rows? && query.rows != [] ==>
      resp == Processed(|query.rows|, Outcomes(query.rows, format, mailer))
    // what was done on the way
    ensures queried <==> verb == "GET"
    ensures !(verb == "GET" && query.Rows? && query.rows != []) ==> sends == []
    ensures verb == "GET" && query.Rows? ==> sends == Sends(query.rows, format)
  {
    if verb != "GET" {
      return MethodNotAllowed, false, [];
    }
    queried := true;
    match query
    case StoreFailure(message) =>
      return ServerError(message), true, [];
    case Rows(appointments) =>
      if |appointments| == 0 {
        return NoAppointments, true, [];
      }
      var results: seq<Outcome> := [];
      sends := [];
      for i := 0 to |appointments|
        invariant |results| == i
        invariant forall j :: 0 <= j < i ==> results[j] == OutcomeOf(appointments[j], j, format, mailer)
        invariant sends == Sends(appointments[..i], format)
      {
        var appt := appointments[i];
        SendStep(appointments, format, i);
        if appt.email.None? || appt.email.value == "" || '@' !in appt.email.value {
          results := results + [Skipped(appt.id)];
          continue;
        }
        var formattedTime := format(appt.date);
        var reminder := Reminder(
          appt.email.value,
          appt.firstName + " " + appt.lastName,
          formattedTime,
          appt.doctorFirstName + " " + appt.doctorLastName);
        var success := mailer(i, reminder);
        sends := sends + [reminder];
        results := results + [if success then Sent(appt.id, appt.email.value) else Failed(appt.id, appt.email.value)];
      }
      assert appointments[..|appointments|] == appointments;
      return Processed(|appointments|, results), true, sends;
  }

  /** A row whose contact is `jan@example.com`, at 10:00 with doctor Anna
      Nowak: the sender is called once with the patient's full name, the
      time and the doctor's name, and the row is recorded as sent. */
  method ScenarioSent(id: int, date: Timestamp, format: Timestamp -> string, mailer: (nat, Reminder) -> bool)
    returns (resp: Response)
    requires format(date) == "10:00"
    requires mailer(0, Reminder("jan@example.com", "Jan Kowalski", "10:00", "Anna Nowak"))
    ensures resp == Processed(1, [Sent(id, "jan@example.com")])
    ensures resp.Status() == 200
  {
    var row := Row(id, date, "Jan", "Kowalski", Some("jan@example.com"), "Anna", "Nowak");
    assert '@' in row.email.value by { assert row.email.value[3] == '@'; }
    assert [row][..0] == [];
    assert ReminderFor(row, format) == Reminder("jan@example.com", "Jan Kowalski", "10:00", "Anna Nowak") by {
      assert "Jan" + " " + "Kowalski" == "Jan Kowalski";
      assert "Anna" + " " + "Nowak" == "Anna Nowak";
    }
    ghost var queried, sends;
    resp, queried, sends := Handle("GET", Rows([row]), format, mailer);
    assert sends == [Reminder("jan@example.com", "Jan Kowalski", "10:00", "Anna Nowak")];
  }

  /** A row whose contact has no '@' is skipped and the sender is not called. */
  method ScenarioSkipped(id: int, date: Timestamp, format: Timestamp -> string, mailer: (nat, Reminder) -> bool)
    returns (resp: Response)
    ensures resp == Processed(1, [Skipped(id)])
    ensures resp.details[0].Status() == "skipped (invalid email)"
  {
    var row := Row(id, date, "Jan", "Kowalski", Some("invalid-contact"), "Anna", "Nowak");
    assert '@' !in row.email.value;
    assert [row][..0] == [];
    ghost var queried, sends;
    resp, queried, sends := Handle("GET", Rows([row]), format, mailer);
    assert sends == [];
  }
}
