/**
 * The bookkeeping of the booking screen as pure functions: form validation,
 * the record `confirmSchedule` inserts, and the status update
 * `cancelAppointment` sends to the table.
 */
module BookingLogic {
  import opened Wrappers
  import opened Domain
  import opened Sequences
  import opened Views

  const MissingFields: string := "Preencha todos os campos"
  const LoginFailedDefault: string := "Erro ao fazer login"
  const RegisterFailedDefault: string := "Erro ao criar conta"

  /** What the user directory answered to a login or register call. An empty error stands for a missing message. */
  datatype AuthResult = AuthSuccess(user: User) | AuthFailure(error: string)

  predicate LoginFormComplete(f: LoginForm) { f.email != "" && f.password != "" }

  predicate RegisterFormComplete(f: RegisterForm)
  {
    f.name != "" && f.email != "" && f.phone != "" && f.password != ""
  }

  /** The fields `handleScheduleAttempt` insists on; the service always has a value. */
  predicate ScheduleFormComplete(f: ScheduleForm) { f.date != "" && f.time != "" && f.barber != "" }

  /** The error message `handleLogin` leaves on screen, given what `login` answers when it is called. */
  function LoginError(f: LoginForm, answer: AuthResult): (msg: string)
  {
    if !LoginFormComplete(f) then MissingFields
    else match answer
      case AuthSuccess(_) => ""
      case AuthFailure(e) => if e == "" then LoginFailedDefault else e
  }

  /** The error message `handleRegister` leaves on screen, given what `register` answers when it is called. */
  function RegisterError(f: RegisterForm, answer: AuthResult): (msg: string)
  {
    if !RegisterFormComplete(f) then MissingFields
    else match answer
      case AuthSuccess(_) => ""
      case AuthFailure(e) => if e == "" then RegisterFailedDefault else e
  }

  /**
   * The login error is cleared exactly when both fields are filled and the
   * directory accepted the credentials; an empty field always shows the
   * missing-fields message, whatever the directory would have said.
   */
  lemma LoginErrorSpec(f: LoginForm, answer: AuthResult)
    ensures LoginError(f, answer) == "" <==> LoginFormComplete(f) && answer.AuthSuccess?
    ensures !LoginFormComplete(f) ==> LoginError(f, answer) == MissingFields
    ensures LoginFormComplete(f) && answer.AuthFailure? && answer.error != "" ==>
      LoginError(f, answer) == answer.error
    ensures LoginFormComplete(f) && answer == AuthFailure("") ==> LoginError(f, answer) == LoginFailedDefault
  {
  }

  /** The same for the register form and its four fields. */
  lemma RegisterErrorSpec(f: RegisterForm, answer: AuthResult)
    ensures RegisterError(f, answer) == "" <==> RegisterFormComplete(f) && answer.AuthSuccess?
    ensures !RegisterFormComplete(f) ==> RegisterError(f, answer) == MissingFields
    ensures RegisterFormComplete(f) && answer.AuthFailure? && answer.error != "" ==>
      RegisterError(f, answer) == answer.error
    ensures RegisterFormComplete(f) && answer == AuthFailure("") ==> RegisterError(f, answer) == RegisterFailedDefault
  {
  }

  /** The reset form cannot be submitted as it is, and its preselected service has a price. */
  lemma EmptyScheduleFormSpec()
    ensures !ScheduleFormComplete(EmptyScheduleForm)
    ensures ServicePrice(EmptyScheduleForm.service) == Some(25)
  {
  }

  /** A form filled from the drop-downs with a date passes the check. */
  lemma FilledFormIsComplete(date: string, t: nat, b: nat, service: string)
    requires date != "" && t < |TimeOptions| && b < |Barbers|
    ensures ScheduleFormComplete(ScheduleForm(date, TimeOptions[t], service, Barbers[b].id))
  {
  }

  /** The record `confirmSchedule` inserts for the signed-in user and the form. */
  function NewBooking(user: User, f: ScheduleForm): (b: Booking)
  {
    Booking(user.id, f.date, f.time, f.service, BarberName(Barbers, f.barber), Agendado,
            ServicePrice(f.service), user.name, user.phone)
  }

  /**
   * A new booking is scheduled, belongs to the user, copies date, time and
   * service from the form, freezes the user's name and phone, names the chosen
   * barber (or "" for an id outside the roster) and is charged the advertised
   * price of its service.
   */
  lemma NewBookingSpec(user: User, f: ScheduleForm)
    ensures var b := NewBooking(user, f);
      b.status == Agendado && b.user_id == user.id &&
      b.date == f.date && b.time == f.time && b.service == f.service &&
      b.client_name == user.name && b.client_phone == user.phone
    ensures NewBooking(user, f).barber == "" <==> forall r :: r in Barbers ==> r.id != f.barber
    ensures forall r :: r in Barbers && r.id == f.barber ==> NewBooking(user, f).barber == r.name
    ensures forall o :: o in ServiceOptions && o.value == f.service ==>
      NewBooking(user, f).price == Some(o.advertised)
  {
    BarbersWellFormed();
    BarberNameSpec(Barbers, f.barber);
    PriceTableMatchesOptions(f.service);
  }

  /** The price of a booking depends on its service alone, never on who books or what else the form says. */
  lemma PriceDependsOnlyOnService(u1: User, f1: ScheduleForm, u2: User, f2: ScheduleForm)
    requires f1.service == f2.service
    ensures NewBooking(u1, f1).price == NewBooking(u2, f2).price
  {
  }

  /** `update({ status: 'cancelado' }).eq('id', id)`: every row with that id is cancelled, in place. */
  function CancelRows(rows: seq<Row>, id: nat): (r: seq<Row>)
    ensures |r| == |rows|
    ensures forall i :: 0 <= i < |rows| && rows[i].id == id ==> r[i] == rows[i].(status := Cancelado)
    ensures forall i :: 0 <= i < |rows| && rows[i].id != id ==> r[i] == rows[i]
  {
    if rows == [] then []
    else
      var head := if rows[0].id == id then rows[0].(status := Cancelado) else rows[0];
      [head] + CancelRows(rows[1..], id)
  }

  /** Cancelling twice leaves the table as cancelling once. */
  lemma CancelIdempotent(rows: seq<Row>, id: nat)
    ensures CancelRows(CancelRows(rows, id), id) == CancelRows(rows, id)
  {
  }

  /** Cancelling never puts a row back into the scheduled state, and never changes an id. */
  lemma CancelNeverSchedules(rows: seq<Row>, id: nat)
    ensures forall i :: 0 <= i < |rows| && CancelRows(rows, id)[i].status == Agendado ==>
      rows[i].status == Agendado && rows[i].id != id
    ensures forall i :: 0 <= i < |rows| ==> CancelRows(rows, id)[i].id == rows[i].id
  {
  }

  /** After a cancellation no appointment with that id is left on the user's active tab. */
  lemma CancelledLeavesActiveTab(rows: seq<Row>, id: nat, userId: string)
    ensures forall a :: a in ActiveAppointments(UserAppointments(CancelRows(rows, id), userId)) ==> a.id != id
  {
    var after := CancelRows(rows, id);
    var view := UserAppointments(after, userId);
    UserAppointmentsSpec(after, userId);
    FilterMultiset(view, IsActive);
    forall a | a in ActiveAppointments(view) ensures a.id != id {
      assert multiset(ActiveAppointments(view))[a] > 0;
      assert a in view && a.status == Agendado;
      var r :| r in after && r.user_id == userId && ToAppointment(r) == a;
      var i :| 0 <= i < |after| && after[i] == r;
    }
  }

  /** A cancelled booking of the user reappears, marked cancelled, on the history tab. */
  lemma CancelledShowsInHistory(rows: seq<Row>, id: nat, userId: string, i: nat)
    requires i < |rows| && rows[i].id == id && rows[i].user_id == userId
    ensures ToAppointment(rows[i]).(status := Cancelado) in
      HistoryAppointments(UserAppointments(CancelRows(rows, id), userId))
  {
    var after := CancelRows(rows, id);
    var view := UserAppointments(after, userId);
    var a := ToAppointment(rows[i]).(status := Cancelado);
    assert after[i] in after && ToAppointment(after[i]) == a;
    UserAppointmentsSpec(after, userId);
    assert a in view;
    FilterMultiset(view, IsHistory);
    assert multiset(view)[a] > 0;
  }
}
