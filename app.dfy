/**
 * The stateful part of the booking screen: the hosted `appointments` table,
 * held in memory, and the component whose handlers insert into it, update it
 * and reload the lists they show from it.
 */
module App {
  import opened Wrappers
  import opened Domain
  import opened Views
  import opened BookingLogic

  /** The `appointments` table. The store assigns each inserted row the next id. */
  class AppointmentsTable {
    var rows: seq<Row>
    var nextId: nat

    /** Ids are below the next one to hand out, hence distinct. */
    ghost predicate Valid()
      reads this
    {
      (forall i :: 0 <= i < |rows| ==> rows[i].id < nextId) &&
      (forall i, j :: 0 <= i < j < |rows| ==> rows[i].id != rows[j].id)
    }

    constructor ()
      ensures Valid() && rows == [] && nextId == 0
    {
      rows := [];
      nextId := 0;
    }

    /** `insert([...]).select().single()`: appends the booking under a fresh id and returns the stored row. */
    method Insert(b: Booking) returns (saved: Row)
      requires Valid()
      modifies this
      ensures Valid()
      ensures saved == Stored(old(nextId), b) && rows == old(rows) + [saved]
      ensures nextId == old(nextId) + 1
      ensures forall r :: r in old(rows) ==> r.id != saved.id
    {
      saved := Stored(nextId, b);
      rows := rows + [saved];
      nextId := nextId + 1;
    }

    /** `update({ status: 'cancelado' }).eq('id', id)`. */
    method Cancel(id: nat)
      requires Valid()
      modifies this`rows
      ensures Valid()
      ensures rows == CancelRows(old(rows), id)
    {
      CancelNeverSchedules(rows, id);
      rows := CancelRows(rows, id);
    }
  }

  /**
   * The booking screen. `storeConfigured` is whether the component holds a
   * store handle at all; without one every store operation returns at once.
   * `user` is the signed-in user the authentication hook provides.
   */
  class BarbershopApp {
    const store: AppointmentsTable
    const storeConfigured: bool
    var user: Option<User>
    var activeTab: string
    var appointments: seq<Appointment>
    var allAppointments: seq<Appointment>
    var loginForm: LoginForm
    var registerForm: RegisterForm
    var appointmentForm: ScheduleForm
    var loginError: string
    var registerError: string
    var showNewAppointment: bool
    var showUpgradePopup: bool
    var sidebarOpen: bool

    /** The table's ids are distinct, nothing is listed while nobody is signed in, and a client never holds the admin list. */
    ghost predicate Valid()
      reads this, store
    {
      store.Valid() &&
      (user.None? ==> appointments == [] && allAppointments == []) &&
      (user.Some? && user.value.role == Client ==> allAppointments == [])
    }

    /** The lists on screen mirror the table: the user's own rows, and all rows for an admin. */
    ghost predicate Synced()
      reads this, store
    {
      user.Some? ==>
        appointments == UserAppointments(store.rows, user.value.id) &&
        (user.value.role == Admin ==> allAppointments == AllAppointments(store.rows))
    }

    constructor (table: AppointmentsTable, configured: bool)
      requires table.Valid()
      ensures store == table && storeConfigured == configured && Valid()
      ensures user == None && activeTab == "login" && appointments == [] && allAppointments == []
      ensures loginForm == LoginForm("", "") && registerForm == RegisterForm("", "", "", "")
      ensures appointmentForm == EmptyScheduleForm && loginError == "" && registerError == ""
      ensures !showNewAppointment && !showUpgradePopup && !sidebarOpen
    {
      store := table;
      storeConfigured := configured;
      user := None;
      activeTab := "login";
      appointments := [];
      allAppointments := [];
      loginForm := LoginForm("", "");
      registerForm := RegisterForm("", "", "", "");
      appointmentForm := EmptyScheduleForm;
      loginError := "";
      registerError := "";
      showNewAppointment := false;
      showUpgradePopup := false;
      sidebarOpen := false;
    }

    /** `loadUserAppointments`: reloads the user's own list from the table. */
    method LoadUserAppointments()
      modifies this`appointments
      ensures appointments ==
        if user.Some? && storeConfigured then UserAppointments(store.rows, user.value.id)
        else old(appointments)
    {
      if user.None? || !storeConfigured { return; }
      appointments := UserAppointments(store.rows, user.value.id);
    }

    /** `loadAllAppointments`: reloads every row, for an admin only. */
    method LoadAllAppointments()
      modifies this`allAppointments
      ensures allAppointments ==
        if user.Some? && user.value.role == Admin && storeConfigured then AllAppointments(store.rows)
        else old(allAppointments)
    {
      if user.None? || user.value.role != Admin || !storeConfigured { return; }
      allAppointments := AllAppointments(store.rows);
    }

    /** The effect that runs when the signed-in user changes: load the lists and open the appointments tab. */
    method UserChanged()
      modifies this`appointments, this`allAppointments, this`activeTab
      ensures user.Some? && storeConfigured ==> (Synced() && activeTab == "agendamentos" &&
        (user.value.role == Client ==> allAppointments == old(allAppointments)))
      ensures !(user.Some? && storeConfigured) ==>
        appointments == old(appointments) && allAppointments == old(allAppointments) &&
        activeTab == old(activeTab)
    {
      if user.Some? && storeConfigured {
        LoadUserAppointments();
        if user.value.role == Admin {
          LoadAllAppointments();
        }
        activeTab := "agendamentos";
      }
    }

    /**
     * `handleLogin`, with `answer` what `login` replies if it is called. An
     * empty field shows the missing-fields message and signs nobody in; an
     * accepted login signs the user in and loads their lists.
     */
    method HandleLogin(answer: AuthResult)
      requires Valid() && user.None?
      modifies this`loginError, this`user, this`appointments, this`allAppointments, this`activeTab
      ensures Valid()
      ensures loginError == LoginError(loginForm, answer)
      ensures user == if LoginFormComplete(loginForm) && answer.AuthSuccess? then Some(answer.user) else None
      ensures user.None? || !storeConfigured ==>
        appointments == old(appointments) && allAppointments == old(allAppointments) &&
        activeTab == old(activeTab)
      ensures user.Some? && storeConfigured ==> activeTab == "agendamentos" && Synced()
    {
      loginError := "";
      if !LoginFormComplete(loginForm) {
        loginError := MissingFields;
        return;
      }
      match answer {
        case AuthSuccess(u) =>
          user := Some(u);
          UserChanged();
        case AuthFailure(e) =>
          loginError := if e == "" then LoginFailedDefault else e;
      }
    }

    /** `handleRegister`, with `answer` what `register` replies if it is called. */
    method HandleRegister(answer: AuthResult)
      requires Valid() && user.None?
      modifies this`registerError, this`user, this`appointments, this`allAppointments, this`activeTab
      ensures Valid()
      ensures registerError == RegisterError(registerForm, answer)
      ensures user == if RegisterFormComplete(registerForm) && answer.AuthSuccess? then Some(answer.user) else None
      ensures user.None? || !storeConfigured ==>
        appointments == old(appointments) && allAppointments == old(allAppointments) &&
        activeTab == old(activeTab)
      ensures user.Some? && storeConfigured ==> activeTab == "agendamentos" && Synced()
    {
      registerError := "";
      if !RegisterFormComplete(registerForm) {
        registerError := MissingFields;
        return;
      }
      match answer {
        case AuthSuccess(u) =>
          user := Some(u);
          UserChanged();
        case AuthFailure(e) =>
          registerError := if e == "" then RegisterFailedDefault else e;
      }
    }

    /**
     * The success path of `confirmSchedule` for a booking the store accepts:
     * insert it, reload the lists, reset the form and close both dialogs.
     */
    method Book(b: Booking)
      requires Valid() && user.Some? && storeConfigured
      modifies store, this`appointments, this`allAppointments, this`appointmentForm,
        this`showNewAppointment, this`showUpgradePopup
      ensures Valid() && Synced()
      ensures store.rows == old(store.rows) + [Stored(old(store.nextId), b)]
      ensures user.value.role == Client ==> allAppointments == old(allAppointments)
      ensures appointmentForm == EmptyScheduleForm && !showNewAppointment && !showUpgradePopup
    {
      var u := user.value;
      var saved := store.Insert(b);
      appointments := UserAppointments(store.rows, u.id);
      if u.role == Admin {
        allAppointments := AllAppointments(store.rows);
      }
      appointmentForm := EmptyScheduleForm;
      showNewAppointment := false;
      showUpgradePopup := false;
    }

    /**
     * `confirmSchedule`, with `accepted` whether the store accepts the insert.
     * With a user, a store and an accepted insert, the table gains exactly the
     * booking built from the user and the form, the lists are reloaded and the
     * form is reset; otherwise nothing changes.
     */
    method ConfirmSchedule(accepted: bool)
      requires Valid()
      modifies store, this`appointments, this`allAppointments, this`appointmentForm,
        this`showNewAppointment, this`showUpgradePopup
      ensures Valid()
      ensures user.Some? && storeConfigured && accepted ==>
        store.rows == old(store.rows) + [Stored(old(store.nextId), NewBooking(user.value, old(appointmentForm)))] &&
        Synced() && (user.value.role == Client ==> allAppointments == old(allAppointments)) &&
        appointmentForm == EmptyScheduleForm && !showNewAppointment && !showUpgradePopup
      ensures !(user.Some? && storeConfigured && accepted) ==>
        unchanged(store) && appointments == old(appointments) && allAppointments == old(allAppointments) &&
        appointmentForm == old(appointmentForm) && showNewAppointment == old(showNewAppointment) &&
        showUpgradePopup == old(showUpgradePopup)
    {
      if user.None? || !storeConfigured { return; }
      var booking := NewBooking(user.value, appointmentForm);
      if !accepted { return; }
      Book(booking);
    }

    /** `handleScheduleAttempt`: books only when date, time and barber are all filled in. */
    method HandleScheduleAttempt(accepted: bool)
      requires Valid()
      modifies store, this`appointments, this`allAppointments, this`appointmentForm,
        this`showNewAppointment, this`showUpgradePopup
      ensures Valid()
      ensures ScheduleFormComplete(old(appointmentForm)) && user.Some? && storeConfigured && accepted ==>
        store.rows == old(store.rows) + [Stored(old(store.nextId), NewBooking(user.value, old(appointmentForm)))] &&
        Synced() && (user.value.role == Client ==> allAppointments == old(allAppointments)) &&
        appointmentForm == EmptyScheduleForm && !showNewAppointment && !showUpgradePopup
      ensures !(ScheduleFormComplete(old(appointmentForm)) && user.Some? && storeConfigured && accepted) ==>
        unchanged(store) && appointments == old(appointments) && allAppointments == old(allAppointments) &&
        appointmentForm == old(appointmentForm) && showNewAppointment == old(showNewAppointment) &&
        showUpgradePopup == old(showUpgradePopup)
    {
      if ScheduleFormComplete(appointmentForm) {
        ConfirmSchedule(accepted);
      }
    }

    /**
     * `cancelAppointment`, with `accepted` whether the store accepts the
     * update. Every row with that id is cancelled and the lists reloaded.
     */
    method CancelAppointment(id: nat, accepted: bool)
      requires Valid()
      modifies store`rows, this`appointments, this`allAppointments
      ensures Valid()
      ensures storeConfigured && accepted ==>
        store.rows == CancelRows(old(store.rows), id) && Synced() &&
        (user.Some? && user.value.role == Client ==> allAppointments == old(allAppointments))
      ensures !(storeConfigured && accepted) ==>
        store.rows == old(store.rows) && appointments == old(appointments) &&
        allAppointments == old(allAppointments)
    {
      if !storeConfigured || !accepted { return; }
      store.Cancel(id);
      LoadUserAppointments();
      if user.Some? && user.value.role == Admin {
        LoadAllAppointments();
      }
    }

    /** `handleLogout`: signs out and clears both lists. */
    method HandleLogout()
      requires Valid()
      modifies this`user, this`activeTab, this`appointments, this`allAppointments, this`sidebarOpen
      ensures Valid()
      ensures user == None && activeTab == "login" && appointments == [] && allAppointments == []
      ensures !sidebarOpen
    {
      user := None;
      activeTab := "login";
      appointments := [];
      allAppointments := [];
      sidebarOpen := false;
    }
  }
}
