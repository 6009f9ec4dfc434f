# Barbershop booking screen: a Dafny model

This project models the bookkeeping inside the booking screen of a barbershop
web app (`src/app/page.tsx`). Clients sign in, book an appointment (date, time,
barber, service) and cancel it. Admins see the day's bookings and everyone's
history. The hosted `appointments` table is kept in memory as a sequence of
rows owned by a class.

Modules, one file each:

- `wrappers.dfy` (`Wrappers`): the `Option` type.
- `domain.dfy` (`Domain`): the entities.
  - Statuses (`agendado`, `cancelado`, `concluido`), users, table rows in snake_case and the camelCase records the screen lists.
  - The three forms.
  - The fixed roster of four barbers and the lookup by id (`barbers.find`).
  - The service price table and the service and time drop-downs.
- `time_order.dfy` (`TimeOrder`): the string order used by `localeCompare` in the admin day views. It is proved to be clock order on `HH:MM` strings.
- `sequences.dfy` (`Sequences`): `Array.prototype.filter` and a stable sort by a string key, with their properties as lemmas.
- `views.dfy` (`Views`): the views computed from the table.
  - Mapping a row to a record.
  - The per-user query and the admin query, both ordered by date.
  - `getAppointmentsByDate`.
  - The "Agendados" and "Anteriores" tabs.
  - The admin "Hoje" and "Amanhã" views.
- `booking.dfy` (`BookingLogic`): the pure logic.
  - Form validation and the resulting error messages.
  - The record `confirmSchedule` inserts.
  - The status update `cancelAppointment` sends.
- `app.dfy` (`App`): the stateful part.
  - `AppointmentsTable`: the table, with `Insert` and `Cancel`.
  - `BarbershopApp`: the component's state. Each handler is a method that assigns the fields the component assigns through its `set…` calls.
- `store_handle.dfy` (`StoreHandle`): where the component's store handle comes from (see Findings).

What the code does, and so what the model states:

- Time slots: the time drop-down is a fixed list, `09:00`–`11:00` and `14:00`–`17:00`. There is no slot generator, no capacity check and no conflict error. The insert runs with no check first, so two scheduled bookings of the same date, time and barber can coexist, and the model does not claim otherwise.
- Cancellation: the update sets `cancelado` on every row with the id, whatever its status. An unknown id changes nothing and reports no error. `CancelRows` and `CancelNeverSchedules` state this.
- Validation: `handleScheduleAttempt` checks only date, time and barber. The service drop-down always holds a value, `Corte Simples` by default.
- Price: a service missing from the price table gives `undefined`. The model writes this as `price == None`, with `price: Option<nat>`.

## Model

| member | source | states |
|---|---|---|
| `Domain.PriceTableMatchesOptions` | src/app/page.tsx:185-190 | A service has a price exactly when the service drop-down offers it (lines 1413-1416). That price is the one the drop-down label advertises: 25, 40, 50, 20. |
| `Domain.FindBarber` | src/app/page.tsx:192 | `barbers.find` returns the first roster entry with that id. It returns None exactly when no entry has the id. |
| `Domain.FindBarberMember` | src/app/page.tsx:36-41 | On a roster with distinct ids, looking up a member's id returns that member. |
| `Domain.BarbersWellFormed` | src/app/page.tsx:36-41 | The fixed roster has distinct ids and non-empty names. |
| `Domain.BarberNameSpec` | src/app/page.tsx:203 | The barber name on a booking is `''` exactly when no roster id matches. Otherwise it is the name of the matching barber. |
| `TimeOrder.LeqTotal` | src/app/page.tsx:822 | Any two time strings are comparable under the order the views sort by. |
| `TimeOrder.LeqTransitive` | src/app/page.tsx:822 | That order is transitive. |
| `TimeOrder.LeqReflexive` | src/app/page.tsx:822 | That order is reflexive. |
| `TimeOrder.LeqAntisymmetric` | src/app/page.tsx:822 | Strings that sort no later than each other are equal. |
| `TimeOrder.TimeOrderIsChronological` | src/app/page.tsx:822 | On well-formed `HH:MM` strings, `localeCompare` order is the order of minutes past midnight. |
| `Sequences.FilterPasses` | src/app/page.tsx:274 | Everything `filter` keeps passes the test, and the list never grows. |
| `Sequences.FilterMultiset` | src/app/page.tsx:274 | `filter` keeps each passing element as often as the list holds it, and nothing else. |
| `Sequences.FilterConcat` | src/app/page.tsx:274 | `filter` distributes over concatenation. |
| `Sequences.FilterPreservesOrder` | src/app/page.tsx:274 | Two kept elements appear in the result in their original relative order. |
| `Sequences.InsertMultiset` | src/app/page.tsx:822 | One insertion step of the sort adds exactly the inserted element. |
| `Sequences.InsertSorted` | src/app/page.tsx:822 | One insertion step keeps a sorted list sorted. |
| `Sequences.SortBySpec` | src/app/page.tsx:822 | `.sort((a, b) => key(a).localeCompare(key(b)))` yields ascending key order and is a permutation of its input. |
| `Views.RowMappingRoundTrip` | src/app/page.tsx:86-96 | The snake_case to camelCase mapping loses only the owner column. Mapping back with that owner restores the row. |
| `Views.MapRows` | src/app/page.tsx:86-96 | `data.map` maps every row, in order, and keeps the length. |
| `Views.MapRowsInverse` | src/app/page.tsx:78-96 | One user's listed records determine that user's rows exactly. |
| `Views.UserRowsSpec` | src/app/page.tsx:78-82 | The query `.eq('user_id', id).order('date')` returns each of the user's rows as often as the table holds it, and no other row. The result is in ascending date order. |
| `Views.UserAppointmentsSpec` | src/app/page.tsx:74-98 | The user's list shows a record exactly when it comes from one of that user's rows. |
| `Views.UserAppointmentsByDate` | src/app/page.tsx:82 | The user's list is in ascending date order. |
| `Views.AllAppointmentsSpec` | src/app/page.tsx:105-128 | The admin list shows a record exactly when it comes from a row of the table. It is as long as the table and in ascending date order. |
| `Views.MapRowsInsert` | src/app/page.tsx:109-126 | Inserting a row by date and then mapping gives the same list as mapping and then inserting the record by date. |
| `Views.MapRowsSortBy` | src/app/page.tsx:109-126 | Ordering the rows by date and then mapping them (`.order('date')` followed by `data.map`) equals mapping them and then ordering the records by date. |
| `Views.AllAppointmentsCounts` | src/app/page.tsx:105-128 | The admin list holds each row's record exactly as often as the table holds the row, even when rows repeat. |
| `Views.AppointmentsByDate` | src/app/page.tsx:273-275 | `getAppointmentsByDate(d)` holds every appointment dated `d`, as often as the list does, and nothing else. |
| `Views.AppointmentsByDateKeepsOrder` | src/app/page.tsx:274 | Appointments on that date keep their relative order. |
| `Views.ActiveHistoryPartition` | src/app/page.tsx:641-697 | The "Agendados" tab (status `agendado`) and the "Anteriores" tab (any other status) together hold every appointment exactly once. No appointment is in both. |
| `Views.DayViewSpec` | src/app/page.tsx:820-822 | The admin day view holds exactly the `agendado` appointments on that date, each as often as the list does. It is in ascending time order, which is clock order for well-formed times. |
| `BookingLogic.LoginErrorSpec` | src/app/page.tsx:135-149 | Login with an empty email or password shows "Preencha todos os campos", whatever the directory would answer. The error is cleared exactly when both fields are filled and the login is accepted. A failure shows the directory's message, or "Erro ao fazer login" when there is none. |
| `BookingLogic.RegisterErrorSpec` | src/app/page.tsx:152-166 | The same for the register form: any of its four fields empty shows the missing-fields message. The default failure message is "Erro ao criar conta". |
| `BookingLogic.EmptyScheduleFormSpec` | src/app/page.tsx:221 | The reset form cannot be submitted as it is. Its preselected service costs 25. |
| `BookingLogic.FilledFormIsComplete` | src/app/page.tsx:176 | A date plus a time from the drop-down (lines 1379-1385) and a roster barber passes the schedule check. |
| `BookingLogic.NewBookingSpec` | src/app/page.tsx:192-208 | A new booking has status `agendado` and belongs to the user. Date, time and service are copied from the form, and the user's name and phone are copied onto it. It names the chosen roster barber, or `''` for an unknown id. Its price is the one advertised for its service. |
| `BookingLogic.PriceDependsOnlyOnService` | src/app/page.tsx:205 | Two bookings with the same service have the same price, whoever books and whatever else the form says. |
| `BookingLogic.CancelRows` | src/app/page.tsx:240-243 | Every row with the id becomes `cancelado`. Every other row, and every other field, is unchanged. |
| `BookingLogic.CancelIdempotent` | src/app/page.tsx:240-243 | Cancelling twice leaves the table as cancelling once does. |
| `BookingLogic.CancelNeverSchedules` | src/app/page.tsx:242 | Cancelling never makes a row `agendado` and never changes an id. |
| `BookingLogic.CancelledLeavesActiveTab` | src/app/page.tsx:236-251 | After the cancel and the reload, no appointment with that id is on the user's "Agendados" tab. |
| `BookingLogic.CancelledShowsInHistory` | src/app/page.tsx:236-251 | After the cancel and the reload, the user's cancelled booking is on the "Anteriores" tab, marked `cancelado`. |
| `App.AppointmentsTable.Insert` | src/app/page.tsx:195-211 | The insert appends exactly the booking under a fresh id, returns the stored row and keeps ids distinct. The id counter advances by one, so consecutive inserts get consecutive ids. |
| `App.AppointmentsTable.Cancel` | src/app/page.tsx:240-243 | The update replaces the table by `CancelRows` of it and keeps ids distinct. |
| `App.BarbershopApp.constructor` | src/app/page.tsx:44-61 | The component's initial state: signed out, "login" tab, empty lists, empty forms, the service preselected as `Corte Simples`, no errors, dialogs closed. |
| `App.BarbershopApp.LoadUserAppointments` | src/app/page.tsx:74-102 | With a user and a store, the user's list becomes the mapped query result. Otherwise it is unchanged. |
| `App.BarbershopApp.LoadAllAppointments` | src/app/page.tsx:105-132 | For an admin with a store, the admin list becomes every row, mapped and ordered by date. Otherwise it is unchanged. |
| `App.BarbershopApp.UserChanged` | src/app/page.tsx:64-72 | With a user and a store, both lists mirror the table and the "agendamentos" tab opens. A client's admin list is untouched. Otherwise nothing changes. |
| `App.BarbershopApp.HandleLogin` | src/app/page.tsx:135-149 | The error becomes `LoginError`. The user is signed in exactly when the form is complete and the login is accepted, and the lists are then loaded. Otherwise the lists and tab are unchanged. |
| `App.BarbershopApp.HandleRegister` | src/app/page.tsx:152-166 | The same for registration and `RegisterError`. |
| `App.BarbershopApp.Book` | src/app/page.tsx:213-223 | After an accepted insert: the table gains exactly the row, both lists mirror the table, the form is reset and both dialogs close. |
| `App.BarbershopApp.ConfirmSchedule` | src/app/page.tsx:182-227 | With a user, a store and an accepted insert, the table gains exactly `NewBooking(user, form)`, the lists are reloaded, the form is reset and both dialogs close. With no user, no store or a rejected insert, nothing changes. |
| `App.BarbershopApp.HandleScheduleAttempt` | src/app/page.tsx:174-179 | A booking is made only when date, time and barber are all non-empty. It then has the outcome `ConfirmSchedule` states: the table gains exactly the new booking, the lists mirror the table, a client's admin list is untouched, the form is reset and both dialogs close. Otherwise the table and the screen are unchanged. |
| `App.BarbershopApp.CancelAppointment` | src/app/page.tsx:236-255 | With a store and an accepted update, the table becomes `CancelRows` of it and the lists are reloaded. Otherwise nothing changes. |
| `App.BarbershopApp.HandleLogout` | src/app/page.tsx:258-264 | Signed out, "login" tab, both lists empty, sidebar closed. The class invariant still holds. |
| `StoreHandle.AsWrittenBookingIsDropped` | src/app/page.tsx:14-19 | As written, the imported handle is null. A complete form from a signed-in client, with an insert the store would accept, stores nothing. |
| `StoreHandle.ConfiguredBookingIsStored` | src/app/page.tsx:182-211 | With a real handle, the same submission stores exactly one row, the booking built from the user and the form, with status `agendado`. |

## Left out

- Rendering: all JSX, CSS classes, the plan cards, the plan-advantages and upgrade screens. The dialog and tab toggles `handleNewAppointmentClick`, `handleNoInterest` and `handleShowAdvantages` are presentation only.
- Network: the Supabase calls are not modelled as calls, and async/await is not modelled. The store's answer to an insert or update is the `accepted` parameter. Reads always succeed: a failed read in the code only logs, and the list keeps its old value.
- Authentication internals (`src/hooks/useAuth.ts`): the directory's answer to `login`/`register` is the `answer` parameter. Restoring a saved user from `localStorage` at start-up, and the `loading` flag, are left out, so the component always starts signed out.
- `src/lib/supabase.ts` is not part of this model beyond its `null` export (see Findings).
- `created_at` and the clock: rows carry no creation time. `today` and `tomorrow` are the `date` argument of `DayView`. `toLocaleDateString` formatting is not modelled.
- The admin "Todos" and "Histórico" views sort by `new Date(date + ' ' + time)`, which depends on time zone and parsing. Only their status filters are modelled, as `ActiveAppointments` and `HistoryAppointments`.
- `parseFloat(apt.price)` in the admin loader: prices are whole numbers (`nat`). The admin mapping is the same as the user mapping.
- Ids: the store generates uuid strings. The model uses naturals from a counter, which keeps the store's distinct-id guarantee.
- Concurrency: other sessions writing the same table are not modelled. "The lists mirror the table" (`Synced`) is stated after each handler of this one session.
- Views.UserRows: the store's order among rows with the same date is unspecified. The model fixes the stable order.
- Sequences.SortBySpec: the sort is stable like `Array.prototype.sort`, but only sortedness and permutation are proved, not stability.
- TimeOrder.Leq: `localeCompare` is modelled as character-code order. It agrees with clock order on the digit-only `HH:MM` strings the drop-down offers (proved). For other strings, locale collation can differ.

## Findings

| source | as written | input that shows it | evidently intended | confidence | as-written member | corrected member |
|---|---|---|---|---|---|---|
| src/app/page.tsx:14-19 | The handle is `require('@/lib/supabase').supabase`, and `src/lib/supabase.ts:65` exports that as `null`. So every `!supabase` guard returns: `confirmSchedule` stores nothing, and `loadUserAppointments` and `cancelAppointment` do nothing. | A signed-in client submits a complete form, e.g. date `2024-05-10`, time `10:00`, barber `1`. | The booking is inserted into the table, as lines 195-211 show. | high (not executed) | `StoreHandle.AsWrittenBookingIsDropped` | `StoreHandle.ConfiguredBookingIsStored` |
