# Daily appointment reminder job — Dafny model

This project models the clinic application's daily reminder handler
(`api/cron/send-reminders.js`). The handler accepts only GET. It takes
today's non-cancelled appointments, joined with their patients and doctors.
For each row it either skips the row, because the patient's contact is
missing or has no `@`, or it makes exactly one call to the reminder sender.
It records one outcome per row (`sent`, `failed` or
`skipped (invalid email)`) and replies with `Processed N appointments` and
the list of outcomes. A query that throws becomes a 500 reply carrying the
error's message.

Layout:

- `reminder_types.dfy` (module `ReminderTypes`) holds the data. It has the
  query rows (`Row`), the query result (`QueryResult`: rows or a store
  failure), the sender's arguments (`Reminder`) and the per-row `Outcome`
  with its status string. It also has the four replies (`Response`) with
  their HTTP status and JSON body.
- `reminder_spec.dfy` (module `ReminderSpec`) states what a run must
  produce, as pure functions. `Outcomes` is the `details` list and `Sends`
  is the ordered list of sender calls. The lemmas about them are here too.
- `send_reminders.dfy` (module `SendReminders`) holds the handler itself,
  `Handle`. It is an imperative method with a `for` loop that appends to
  `results` and uses `continue` for skipped rows, as the source does. It has
  two client methods for concrete single-row runs.
- `decimal.dfy` (module `Decimal`) holds the decimal rendering of the row
  count in the summary message, and reading it back.

External capabilities are parameters of `Handle`:

- The database query is the input `query: QueryResult`.
- The locale time formatter is `format: Timestamp -> string`. `Timestamp`
  is an abstract type.
- The mailer is an oracle `mailer: (nat, Reminder) -> bool`. It gives the
  sender's `success` for the call made for the row at a given position.
  Each row causes at most one call, so every pattern of successes and
  failures can be expressed.
- Two ghost outputs record what the handler did: `queried` says whether
  the store was consulted, and `sends` is the trace of sender calls.

## Model

| member | source | states |
|---|---|---|
| `SendReminders.Handle` | api/cron/send-reminders.js:12-72 | A non-GET method gives 405 `Method Not Allowed`, with no query and no send. A failed query gives 500 with the error's message and no send. Zero rows give `No appointments today.` with no send. Otherwise the reply is `Processed(count = number of rows, details = Outcomes(rows))` and the calls made are exactly `Sends(rows)`, in order. |
| `ReminderSpec.Outcomes` | api/cron/send-reminders.js:41-61 | `details` has one entry per row, in row order, and entry i carries row i's id. An entry is a skip exactly when the row's contact is absent or lacks `@`. Otherwise it carries the contact and is `sent` exactly when the sender reported success for that row's call, and `failed` exactly when it did not. |
| `ReminderSpec.SendStep` | api/cron/send-reminders.js:43-62 | Processing one more row extends the call trace by that row's call if its contact is usable, and by nothing otherwise. |
| `ReminderSpec.SendsPrefix` | api/cron/send-reminders.js:43-62 | Calls are made in row order: the calls for the first i rows are a prefix of the calls for all rows. |
| `ReminderSpec.SendForRow` | api/cron/send-reminders.js:49-59 | A row with a usable contact gets exactly one call, at the position given by the number of usable rows before it. The call's arguments are the contact, `first_name + " " + last_name`, `format(date)` and `doctor_first_name + " " + doctor_last_name`. |
| `ReminderSpec.NoSendForSkippedRow` | api/cron/send-reminders.js:44-47 | A row whose contact is absent or lacks `@` adds no call to the trace, and processing goes on with the next row. |
| `ReminderSpec.SendsMatchDetails` | api/cron/send-reminders.js:43-66 | The number of sender calls equals the number of non-skipped entries in `details`. Skipped plus attempted entries equal the row count, so skipped and failed rows are still counted. |
| `ReminderSpec.RerunSendsTwice` | api/cron/send-reminders.js:43-62 | Nothing records what was already sent. In the concatenated traces of two runs over the same rows, each usable row's reminder appears twice: at its position k in the first run and at the same position k in the second. |
| `ReminderTypes.ReplyShape` | api/cron/send-reminders.js:13-71 | A 200 reply carries a message and no error, and any other reply carries an error. Only a processed batch carries `details`. Its message is `Processed ` + digits + ` appointments`, where the digits read back as the row count. |
| `Decimal.Show` | api/cron/send-reminders.js:65 | The count is rendered as a non-empty string of decimal digits with no leading zero, and 0 is rendered as `0`. |
| `Decimal.ValueOfShow` | api/cron/send-reminders.js:65 | Reading back the rendered count gives the count. |
| `Decimal.ShowInjective` | api/cron/send-reminders.js:65 | Different counts are rendered differently. |
| `SendReminders.ScenarioSent` | api/cron/send-reminders.js:49-61 | One row with contact `jan@example.com`, at `10:00`, with doctor Anna Nowak. The sender is called with `("jan@example.com", "Jan Kowalski", {10:00, Anna Nowak})`. If it succeeds, the reply is 200 with the single entry `{id, jan@example.com, sent}`. |
| `SendReminders.ScenarioSkipped` | api/cron/send-reminders.js:44-47 | One row with contact `invalid-contact` gives the single entry `{id, skipped (invalid email)}`. |

## Left out

- The SQL query and the Neon connection (lines 16-35). The filter on today's date and on status other than `Anulowana` runs inside PostgreSQL. The model takes its outcome as an input: the rows, in the order the store returned them, or the message of the error it threw.
- `neon(process.env.DATABASE_URL)` (line 16) runs outside the `try`. An exception there would escape the handler instead of becoming a 500 reply. The model has no such path.
- `toLocaleTimeString('pl-PL', …)` (lines 49-50) depends on the runtime's `Date` and locale data. It is the parameter `format`.
- `src/services/emailService.js` (the nodemailer transport, templates and environment configuration) is not part of this model. It is the oracle `mailer`. Its catch block turns every failure into `success: false`, so the oracle has no exception case, and no error is raised inside the loop.
- Row fields are strings. A NULL first or last name would be rendered by the template literal as `null`, and this is not modelled. A NULL contact is `None`.
- Logging through `console.*`.
- The lack of coordination between concurrent invocations. Only the sequential duplicate across two runs is stated (`RerunSendsTwice`).
- `server.js`, `src/App.jsx` and `src/views/AdminPanel/DoctorDetails.jsx` are route wiring and UI. They are not part of this model.
