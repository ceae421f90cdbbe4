# Clinic booking store and consultation signalling relay

A Dafny model of the two stateful parts of a clinic/telemedicine backend
written in TypeScript on NestJS, MongoDB and socket.io:

- **Booking store** (`module Schedule`, `schedule.dfy`). The `schedules`
  collection is held as a sequence of appointment documents in the class
  `ScheduleService`. `PatientRegistration` is a check-then-insert. It rejects a
  booking when any stored appointment has the same doctor and the same exact
  start, whatever its status or patient. Otherwise it appends one appointment
  with status Progress, the room code and the creation instant. `Booked` is
  the weekly view. It takes the Sunday-to-Saturday week holding "now" and
  lists the start of every appointment of the doctor that starts at or after
  the week's first midnight and *ends* before the next week's first midnight.
  The list keeps store order.
- **Signalling relay** (`module Gateway`, `gateway.dfy`). The class
  `AppGateway` holds three things. `users` maps each connection to its last
  `join-room` payload. `rooms` is the socket.io adapter's membership: one
  insertion-ordered set per room, written as a sequence without repeats.
  `outbox` records every `server.to(target).emit(event)` call. `JoinRoom`,
  `HandleDisconnect`, `SendSignal` and `ReSendSignal` each state their whole
  effect on these three fields. `Valid()` is kept by all of them: rooms are
  non-empty and list no one twice, and every connection with a payload is a
  member of the room that payload names.

Instants are JavaScript `Date` values: milliseconds since
1970-01-01T00:00:00Z, as unbounded integers. `Weekday` counts Sunday as 0,
as `Date.getDay` does; day 0 of the epoch was a Thursday. `addDays(d, n)` is
`d + n * 86_400_000`. The random room code (`generate(10)`) and the current
instant (`new Date()`) are parameters. The code's length of 10 is a
precondition.

Three behaviours of the code are kept as written:

- The duplicate check looks at every stored appointment, cancelled ones too,
  and compares exact starts, not overlapping ranges.
- The weekly query bounds the appointment's end (`to < weekEnd`), not its
  start. So a booking that starts on Saturday evening and ends after the
  following midnight is not listed (`BookedStartsOmitsOverrun`). A listed
  start is inside the week if the matching appointments do not end before
  they start (`BookedStartsWithinWeek`). Nothing validates that.
- A room has no capacity limit. A third connection is admitted, and each
  joiner after the first makes the gateway notify the room's earliest member
  (`ThirdJoinerAdmitted`).

One assumption about socket.io is built into `HandleDisconnect`. By the time
the disconnect handler runs, the transport has already removed the
connection from every room and dropped the rooms this leaves empty
(`LeaveAll`). The handler's own code does not do this.

## Model

| member | source | states |
|---|---|---|
| Schedule.FindStart | src/modules/schedule/schedule.service.ts:19-22 | the duplicate query finds a stored appointment with the given doctor and exact start exactly when one exists; status and patient are ignored |
| Schedule.AppendKeepsStartsUnique | src/modules/schedule/schedule.service.ts:19-34 | on a store where no two appointments share doctor and start, appending one keeps that so if and only if the duplicate query finds nothing for it |
| Schedule.NewAppointment | src/modules/schedule/schedule.service.ts:26-34 | the inserted document has the requested doctor and start, status Progress and a 10-character code |
| Schedule.ScheduleService.constructor | src/modules/schedule/schedule.service.ts:13-15 | the service works over the collection's current contents |
| Schedule.ScheduleService.PatientRegistration | src/modules/schedule/schedule.service.ts:17-37 | rejected with "already booked" and the store unchanged iff an appointment with that doctor and start exists; otherwise exactly the new Progress appointment (patient, doctor, from, to, code, createdAt = now) is appended after the unchanged old records; no-duplicate-start is preserved either way |
| Schedule.DoubleBooking | src/modules/schedule/schedule.service.ts:19-34 | two bookings of the same doctor and start: the first succeeds, the second is rejected and the store holds only the first |
| Schedule.Weekday | src/modules/schedule/schedule.service.ts:42 | the day of the week, Sunday = 0, is between 0 and 6 |
| Schedule.StartOfDay | src/modules/schedule/schedule.service.ts:41 | "today" is a midnight, at or before now and less than a day before it |
| Schedule.WeekStart | src/modules/schedule/schedule.service.ts:44 | the window's start is a midnight at or before now, less than 7 days before it |
| Schedule.WeekEnd | src/modules/schedule/schedule.service.ts:45 | the window's end is 7 days after its start and after now |
| Schedule.InWindow | src/modules/schedule/schedule.service.ts:48-52 | the weekly query's filter; a matching appointment that does not end before it starts starts inside [weekStart, weekEnd) |
| Schedule.WeekWindow | src/modules/schedule/schedule.service.ts:40-45 | the window is 7 days long, holds now, and opens at a Sunday midnight |
| Schedule.SameWeek | src/modules/schedule/schedule.service.ts:40-45 | every instant inside a week computes the same window |
| Schedule.DoctorCount | src/modules/schedule/schedule.service.ts:47-53 | the number of stored appointments of one doctor: at most the store's size, and zero exactly when none has that doctorId |
| Schedule.RecordsOf | src/modules/schedule/schedule.service.ts:47-53 | one doctor's stored appointments: exactly the stored ones with that doctorId, each as many times as it is stored, DoctorCount of them |
| Schedule.BookedStarts | src/modules/schedule/schedule.service.ts:47-56 | the listed starts are no more than that doctor's appointment count and none is before the window's start |
| Schedule.BookedStartsMembers | src/modules/schedule/schedule.service.ts:47-56 | a start is listed iff some stored appointment has that doctor, starts at or after weekStart, ends before weekEnd and starts at that instant |
| Schedule.BookedStartsAppend | src/modules/schedule/schedule.service.ts:47-56 | the view keeps store order: the view of s + t is the view of s followed by the view of t |
| Schedule.BookedStartsAfterInsert | src/modules/schedule/schedule.service.ts:26-34 | after an insert the view is the old view, followed by the new start exactly when the query matches it |
| Schedule.BookedStartsIgnoresStatus | src/modules/schedule/schedule.service.ts:47-52 | changing any stored appointment's status leaves the view unchanged |
| Schedule.BookedStartsWithinWeek | src/modules/schedule/schedule.service.ts:50-51 | if no appointment matching the query ends before it starts, every listed start lies in [weekStart, weekEnd) |
| Schedule.BookedStartsOmitsOverrun | src/modules/schedule/schedule.service.ts:51 | an appointment that starts inside the week but ends at or after weekEnd is not listed |
| Schedule.ScheduleService.Booked | src/modules/schedule/schedule.service.ts:39-57 | read-only; it is the view of this week's window: a start is listed iff a record of that doctor with from >= weekStart and to < weekEnd has it, in store order (through BookedStarts and its lemmas); at most as many starts as the doctor has appointments; all inside the week when the matching appointments do not end before they start |
| Gateway.Join | src/modules/gateway/event.gateway.ts:49 | after joining, the members are the old ones plus the joiner, earlier members keep their order and place, and no one is listed twice |
| Gateway.JoinIdempotent | src/modules/gateway/event.gateway.ts:49 | joining a room twice is joining it once |
| Gateway.JoinFirstMember | src/modules/gateway/event.gateway.ts:52-55 | the room has one member after a join iff nobody else was in it; its first member is the earliest joiner |
| Gateway.Leave | src/modules/gateway/event.gateway.ts:38-42 | after leaving, the members are the old ones without the leaver, none twice, and one fewer if the leaver was there |
| Gateway.LeaveAppend | src/modules/gateway/event.gateway.ts:38-42 | leaving keeps the relative order of those who stay |
| Gateway.LeaveAll | src/modules/gateway/event.gateway.ts:38-42 | after a connection goes, it is in no room, every other member stays in its room, no one is added, and empty rooms are dropped |
| Gateway.LeaveAllOneRoom | src/modules/gateway/event.gateway.ts:38-42 | with one room whose members do not all leave, a connection going away changes only that room, to its members without the leaver |
| Gateway.AppGateway.Members | src/modules/gateway/event.gateway.ts:52 | on a valid gateway, the room's member list holds no one twice, is empty only for a room nobody is in, and holds every connection whose join payload names that room |
| Gateway.AppGateway.constructor | src/modules/gateway/event.gateway.ts:23-27 | starts with no users, no rooms and nothing emitted |
| Gateway.AppGateway.JoinRoom | src/modules/gateway/event.gateway.ts:44-57 | users gets client to payload and nothing else changes in it; client is added to the payload's room; with one member after the join nothing is emitted, otherwise exactly one other-user with the payload goes to the earliest member; no capacity check |
| Gateway.AppGateway.HandleDisconnect | src/modules/gateway/event.gateway.ts:38-42 | the client's entry is removed and every other entry kept; one user-leave goes to the room read from the entry before its deletion, or to an undefined target without an entry |
| Gateway.AppGateway.SendSignal | src/modules/gateway/event.gateway.ts:59-64 | exactly one receiving-signal with the signal unchanged and sender = socket goes to payload.socketId; users and rooms unchanged |
| Gateway.AppGateway.ReSendSignal | src/modules/gateway/event.gateway.ts:66-71 | as SendSignal, with the event re-receiving-signal |
| Gateway.FirstJoinerWaits | src/modules/gateway/event.gateway.ts:52-54 | the first connection into a room triggers no event |
| Gateway.Opened | src/modules/gateway/event.gateway.ts:48-54 | after one connection joins a fresh gateway, it is the room's only member, its payload is recorded and nothing is emitted |
| Gateway.Paired | src/modules/gateway/event.gateway.ts:48-55 | after two distinct connections join one room of a fresh gateway, both are members in join order, both payloads are recorded and the first was sent other-user with the second's payload |
| Gateway.SecondJoinerNotifiesFirst | src/modules/gateway/event.gateway.ts:52-55 | the second connection makes the first receive other-user with the second's payload |
| Gateway.ThirdJoinerAdmitted | src/modules/gateway/event.gateway.ts:49-55 | a third connection joins too and the earliest member is notified again |
| Gateway.PeerLeaves | src/modules/gateway/event.gateway.ts:38-42 | when one of two paired connections closes, the room gets user-leave, the other stays alone and only its payload remains |
| Gateway.SignalExchange | src/modules/gateway/event.gateway.ts:59-64 | an offer and an answer each reach the other side unchanged, tagged with their sender |

## Left out

- Authentication, posts, doctors, users, home, controllers, DTO validation decorators, module wiring and bootstrap: routing, foreign library calls and database queries with no logic of their own.
- Parsing of `from` and `to` strings into dates (`new Date(...)`), including an unparsable date, and the conversion of ids to MongoDB ObjectIds, which throws on a malformed id: ids are strings compared by value and instants are integers.
- Random code generation: the caller supplies a 10-character code; its characters and its uniqueness across appointments are not modelled.
- Schedule.ScheduleService.Booked: the window uses one UTC timeline; the source builds "today" from UTC date parts read as local time and takes the weekday in local time, and `addDays` across a daylight-saving change is not modelled.
- Concurrency: the check-then-insert race between simultaneous bookings and the interleaving of socket.io handlers; every operation is modelled as one sequential step.
- Logging (`afterInit`, `handleConnection` and every `Logger` call), and the unused user and schedule collections of the gateway.
- socket.io delivery: the outbox records each `emit` call with its target; which sockets receive it, and the room socket.io creates for each connection's own id, are not modelled.
- Gateway.AppGateway.HandleDisconnect: removing the connection from its rooms is socket.io's work and is modelled as an assumption; what socket.io does with an emit to an undefined target is not modelled.
- Availability intervals, appointment completion and rating, room-access checks, listings and charts: no code for them is part of this model.
