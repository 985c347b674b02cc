# Medtronic pump driver: history translation and current-page query

A Dafny model of two small pieces of a Go driver for Medtronic insulin pumps.

- **Treatment translation** (`nightscout.go`). A list of decoded pump history
  records becomes a treatment log for a Nightscout server. The records are
  visited left to right, and each may look at the record right after it.
  Blood-glucose captures, boluses, resumes and suspends map directly to a
  treatment. A temp-basal rate counts only when a temp-basal duration follows
  it, and a rewind only when a prime follows it. Every other record is
  dropped. Four daily schedules (basal rates, carb ratios, insulin
  sensitivities, glucose targets) are mapped element-wise into profile
  schedules.
- **Current-page query** (`history.go`). The pump answers command 0x9D with a
  payload. A payload shorter than 5 bytes, or whose first byte is not the tag
  4, is a bad response. Otherwise bytes 1 to 4 are the page number, big-endian.
  Reading a history page is a plain delegation to the paged downloader with
  command 0x80.

Files:

- `wrappers.dfy`: `Option` and `Result`.
- `history.dfy` (module `PumpHistory`): the command codes, 32-bit big-endian
  decoding with its encoder, `CurrentPage` and `History`. The command executor
  is an input: a function from command code to the reply it produced, that is,
  the payload plus the error state it left. The downloader is an input as well.
- `treatments.dfy` (module `NightscoutTreatments`): history records,
  treatments, the per-record conversion, the translation of a whole list, and
  a reference predicate `Yields` that says which positions produce a
  treatment. `Origins` lists those positions in order, and
  `TreatmentsInInputOrder` ties the output to them one to one.
- `schedules.dfy` (module `NightscoutSchedules`): the four schedule
  conversions, built on one loop, `Tabulate`.

Insulin is kept as integer milli-units. Durations are integer nanoseconds,
divided into whole minutes with Go's truncation toward zero.

## Model

| member | source | states |
|---|---|---|
| PumpHistory.FourByteInt | history.go:17 | the page number decoded from four payload bytes is below 2^32, and encoding it big-endian gives back exactly those four bytes |
| PumpHistory.CurrentPage | history.go:8-18 | runs command 0x9D. An executor error is passed on with result 0. A reply shorter than 5 bytes or not tagged 4 sets a bad response for 0x9D carrying the payload, with result 0. The query succeeds exactly when the executor succeeded and the payload is well formed, and then bytes 1..4 of the payload are the big-endian encoding of the result |
| PumpHistory.CurrentPageDecodesEncoded | history.go:13-17 | a reply `[4] + big-endian(n) + anything` with no executor error yields page n and no error |
| PumpHistory.CurrentPageAcceptsOnlyEncoded | history.go:13-17 | a successful query's payload is the tag 4, then the encoded result, then arbitrary trailing bytes |
| PumpHistory.CurrentPageIgnoresPayloadOnError | history.go:9-12 | when the executor reports an error, the payload does not affect the outcome |
| PumpHistory.CurrentPageUsesOnlyHeader | history.go:13-17 | once the executor succeeds, two payloads that agree on bytes 0..4 give the same page number and the same validity; trailing bytes are ignored |
| PumpHistory.HistoryAsksOnlyForPage | history.go:20-22 | a history page read depends only on the downloader's answer to command 0x80 with that page number; its answers to any other command or page do not affect it |
| NightscoutTreatments.WholeMinutes | nightscout.go:41 | a nanosecond duration becomes whole minutes truncated toward zero: for d >= 0, m minutes fit in d and m+1 do not; symmetrically for d < 0 |
| NightscoutTreatments.Lookahead | nightscout.go:20-23 | the partner candidate of record i exists exactly when i+1 is in range, and is then record i+1 |
| NightscoutTreatments.Convert | nightscout.go:16-19 | every treatment a record yields is stamped with that record's time and the user name |
| NightscoutTreatments.ConvertFields | nightscout.go:16-66 | every treatment starts with no glucose, units, absolute rate, insulin or duration, and each kind sets only its own fields. BG capture gives "BG Check" with the record's glucose and units "mg/dl", and nothing else. A temp-basal rate yields exactly when the next record is a temp-basal duration, as "Temp Basal" with no glucose, units or insulin: a zero duration gives absolute 0 and duration 0, any other gives the rate's insulin and the truncated minutes. Bolus gives "Meal Bolus" with the amount and truncated minutes, and no glucose, units or absolute rate. A rewind yields "Site Change", with every optional field unset, exactly when a prime follows. Resume gives "Temp Basal" with absolute 0 and duration 0, and suspend gives "Temp Basal" with absolute 0 and duration 1440; neither sets glucose, units or insulin. Temp-basal duration, prime and every other type give nothing |
| NightscoutTreatments.NextEventAt | nightscout.go:72-82 | the partner test on record i holds exactly when record i+1 exists and has the requested type; with no next record it is false |
| NightscoutTreatments.TreatmentsFrom | nightscout.go:15-68 | the treatments from position i on number at most the remaining records, all entered by the user |
| NightscoutTreatments.Treatments | nightscout.go:10-70 | the log has at most one treatment per record, all entered by the user |
| NightscoutTreatments.OriginsFrom | nightscout.go:24-66 | every position listed from i on is in range |
| NightscoutTreatments.OriginsFromExact | nightscout.go:24-66 | the positions listed from i on are strictly increasing, each yields a treatment, and every yielding position from i on is listed |
| NightscoutTreatments.Origins | nightscout.go:24-66 | the yielding positions of the whole list, strictly increasing, each yielding, none missing |
| NightscoutTreatments.ConvertAgreesWithYields | nightscout.go:24-66 | the conversion of record i produces a treatment exactly when the reference predicate `Yields` holds at i |
| NightscoutTreatments.Emitted | nightscout.go:15-19 | record i appends at most one treatment to the log, stamped with record i's time and the user name |
| NightscoutTreatments.TreatmentsAtYielding | nightscout.go:24-67 | a list of yielding positions emits exactly one treatment per position, entry k being the conversion of position k |
| NightscoutTreatments.TreatmentsAtOriginsStep | nightscout.go:15-67 | the treatments of the yielding positions from i on are what record i appends followed by those of the yielding positions after i |
| NightscoutTreatments.TreatmentsFromMatchOrigins | nightscout.go:15-68 | the log built from position i on equals the treatments of exactly the yielding positions from i on |
| NightscoutTreatments.TreatmentsInInputOrder | nightscout.go:10-70 | the log has one entry per yielding record, in input order, and entry k is created at the time of its source record |
| NightscoutTreatments.PairingRule | nightscout.go:30-54 | a record is translated exactly when `Yields` holds. A temp-basal rate is translated exactly when the next record exists and is a temp-basal duration, and a rewind exactly when the next record is a prime. The last record never pairs. Temp-basal duration, prime and untranslated types never produce a treatment |
| NightscoutSchedules.Tabulate | nightscout.go:98-105 | the built schedule has the input's length, and entry i is made from input entry i |
| NightscoutSchedules.BasalRateSchedule | nightscout.go:96-106 | same length as the basal schedule; entry i carries entry i's start time and rate |
| NightscoutSchedules.CarbRatioSchedule | nightscout.go:108-121 | fails with "carb units must be grams" exactly when the schedule is non-empty and its first entry is not in grams, so only the first entry's units are checked; otherwise the result has the same length, and entry i carries entry i's start time and ratio |
| NightscoutSchedules.InsulinSensitivitySchedule | nightscout.go:123-133 | same length as the sensitivity schedule; entry i carries entry i's start time and sensitivity |
| NightscoutSchedules.GlucoseTargetSchedule | nightscout.go:135-151 | two schedules of the input's length whose entry i both carry entry i's start time, with the low and the high target respectively |

## Left out

- The paged downloader (`Download`) is not part of this model. `History` takes it as a function argument, and its body is exactly the delegation of history.go:20-22 with command 0x80. The fragment paging, acknowledge, retry and de-duplication protocol lives there.
- The command executor (`Execute`), the radio transport and the session's error plumbing are left out. `CurrentPage` takes the executor as a function from command code to reply, with the reply's error standing for `pump.Error()`.
- `fourByteInt` is defined in a file that is not part of this model. As a modelling assumption, it is taken to be the big-endian unsigned composition of its four bytes.
- `NightscoutInsulin`, `NightscoutVoltage` and the carb ratio's division by 10 convert to floating point. Insulin stays in milli-units and the ratio in tenths. `NightscoutVoltage` has no caller in the translation and is not modelled.
- `NightscoutGlucose` is a type conversion. The glucose value is copied unchanged.
- `nightscout.Username()` is an external call; the user name is a parameter.
- The `log.Printf` diagnostics of `nextEvent` are left out; they have no effect on the result.
- `time.Time` is an abstract integer. `Start.String()` formatting is a function parameter `show`.
- History records are modelled with plain fields. The translation reads `r.Glucose`, `r.Insulin`, `r.Bolus` and `*r2.Duration` without a nil check (nightscout.go:27, 35, 39, 41, 46, 48), assuming the optional fields are pointers. The model assumes that every record carries the fields its type uses, and does not model the panic a missing one would cause.
- The model assumes Go's `int` is 64 bits wide. On a 32-bit target, a page value of 2^31 or more would become negative when converted to `int`, while `CurrentPage` here promises `0 <= page < 2^32`. Overflow of the 64-bit `Duration` is not modelled either.
