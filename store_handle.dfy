/**
 * Where the booking screen's store handle comes from. The screen binds its
 * handle to the `supabase` export of the store module, and that export is the
 * constant null, so as written every store operation returns at its guard.
 */
module StoreHandle {
  import opened Wrappers
  import opened Domain
  import opened BookingLogic
  import opened App

  /** Whether the handle the screen imports is non-null: the export is `null`. */
  const ImportedHandleConfigured: bool := false

  /**
   * As written: a signed-in client submits a complete form, the store would
   * accept the insert, and still no row is stored.
   */
  method AsWrittenBookingIsDropped(u: User, f: ScheduleForm) returns (stored: seq<Row>)
    requires u.role == Client && ScheduleFormComplete(f)
    ensures stored == []
  {
    var table := new AppointmentsTable();
    var app := new BarbershopApp(table, ImportedHandleConfigured);
    app.user := Some(u);
    app.appointmentForm := f;
    app.HandleScheduleAttempt(true);
    stored := app.store.rows;
  }

  /** With a real handle the same submission stores exactly the booking built from the user and the form. */
  method ConfiguredBookingIsStored(u: User, f: ScheduleForm) returns (stored: seq<Row>)
    requires u.role == Client && ScheduleFormComplete(f)
    ensures stored == [Stored(0, NewBooking(u, f))]
    ensures stored[0].status == Agendado && stored[0].user_id == u.id
  {
    var table := new AppointmentsTable();
    var app := new BarbershopApp(table, true);
    app.user := Some(u);
    app.appointmentForm := f;
    app.HandleScheduleAttempt(true);
    stored := app.store.rows;
  }
}
