/**
 * The entities of the barbershop booking screen: users, appointment rows as the
 * appointments table stores them, the camelCase records the screen lists, the
 * three forms, the fixed barber roster and the fixed service price table.
 */
module Domain {
  import opened Wrappers

  /** Appointment status: 'agendado' (scheduled), 'cancelado', 'concluido'. */
  datatype Status = Agendado | Cancelado | Concluido

  datatype Role = Admin | Client

  /** A signed-in user as the user directory returns it (password and creation time omitted). */
  datatype User = User(id: string, email: string, name: string, phone: string, role: Role)

  /**
   * A row of the `appointments` table, with its snake_case columns. The store
   * assigns `id`; `price` is None where the service name has no entry in the
   * price table (the lookup then yields `undefined`).
   */
  datatype Row = Row(
    id: nat,
    user_id: string,
    date: string,
    time: string,
    service: string,
    barber: string,
    status: Status,
    price: Option<nat>,
    client_name: string,
    client_phone: string)

  /** The columns `confirmSchedule` sends to the table; the store adds the id. */
  datatype Booking = Booking(
    user_id: string,
    date: string,
    time: string,
    service: string,
    barber: string,
    status: Status,
    price: Option<nat>,
    client_name: string,
    client_phone: string)

  /** The row the store keeps for an inserted booking under the id it assigned. */
  function Stored(id: nat, b: Booking): (r: Row)
  {
    Row(id, b.user_id, b.date, b.time, b.service, b.barber, b.status, b.price,
        b.client_name, b.client_phone)
  }

  /** The camelCase record the screen lists. */
  datatype Appointment = Appointment(
    id: nat,
    date: string,
    time: string,
    service: string,
    barber: string,
    status: Status,
    price: Option<nat>,
    clientName: string,
    clientPhone: string)

  datatype LoginForm = LoginForm(email: string, password: string)
  datatype RegisterForm = RegisterForm(name: string, email: string, phone: string, password: string)
  /** The new-appointment form; `barber` holds a roster id, not a name. */
  datatype ScheduleForm = ScheduleForm(date: string, time: string, service: string, barber: string)

  datatype Barber = Barber(id: string, name: string)

  /** The fixed roster of barbers, in declaration order. */
  const Barbers: seq<Barber> := [
    Barber("1", "Carlos Silva"),
    Barber("2", "João Santos"),
    Barber("3", "Pedro Lima"),
    Barber("4", "Rafael Costa")
  ]

  /** The service-to-price table consulted when a booking is confirmed. */
  function ServicePrice(service: string): (price: Option<nat>)
  {
    if service == "Corte Simples" then Some(25)
    else if service == "Corte + Barba" then Some(40)
    else if service == "Corte Premium" then Some(50)
    else if service == "Barba" then Some(20)
    else None
  }

  /** One entry of the service drop-down: the value it submits and the price its label advertises. */
  datatype ServiceOption = ServiceOption(value: string, advertised: nat)

  /** The service drop-down of the new-appointment form. */
  const ServiceOptions: seq<ServiceOption> := [
    ServiceOption("Corte Simples", 25),
    ServiceOption("Corte + Barba", 40),
    ServiceOption("Corte Premium", 50),
    ServiceOption("Barba", 20)
  ]

  /** The time drop-down of the new-appointment form. */
  const TimeOptions: seq<string> := ["09:00", "10:00", "11:00", "14:00", "15:00", "16:00", "17:00"]

  /** The state the new-appointment form starts in and is reset to after a booking. */
  const EmptyScheduleForm: ScheduleForm := ScheduleForm("", "", "Corte Simples", "")

  /** The price charged for a service is the one its drop-down label advertises, and only offered services have one. */
  lemma PriceTableMatchesOptions(service: string)
    ensures ServicePrice(service).Some? <==> exists o :: o in ServiceOptions && o.value == service
    ensures forall o :: o in ServiceOptions ==> ServicePrice(o.value) == Some(o.advertised)
  {
    if service == "Corte Simples" { assert ServiceOptions[0] in ServiceOptions; }
    else if service == "Corte + Barba" { assert ServiceOptions[1] in ServiceOptions; }
    else if service == "Corte Premium" { assert ServiceOptions[2] in ServiceOptions; }
    else if service == "Barba" { assert ServiceOptions[3] in ServiceOptions; }
  }

  /** Looks a barber up by id, returning the first roster entry with that id, as Array.prototype.find does. */
  function FindBarber(roster: seq<Barber>, id: string): (r: Option<Barber>)
    ensures r.None? <==> forall b :: b in roster ==> b.id != id
    ensures r.Some? ==> (r.value.id == id &&
      exists i :: 0 <= i < |roster| && roster[i] == r.value && forall j :: 0 <= j < i ==> roster[j].id != id)
  {
    if roster == [] then None
    else if roster[0].id == id then Some(roster[0])
    else
      var rest := FindBarber(roster[1..], id);
      if rest.Some? then
        var k :| 0 <= k < |roster[1..]| && roster[1..][k] == rest.value &&
          forall j :: 0 <= j < k ==> roster[1..][j].id != id;
        assert roster[k + 1] == rest.value;
        rest
      else
        assert forall b :: b in roster ==> b == roster[0] || b in roster[1..];
        rest
  }

  predicate DistinctIds(roster: seq<Barber>)
  {
    forall i, j :: 0 <= i < j < |roster| ==> roster[i].id != roster[j].id
  }

  /** On a roster with distinct ids, looking up a member's id finds that member. */
  lemma {:induction false} FindBarberMember(roster: seq<Barber>, b: Barber)
    requires DistinctIds(roster) && b in roster
    ensures FindBarber(roster, b.id) == Some(b)
  {
    var r := FindBarber(roster, b.id);
    var i :| 0 <= i < |roster| && roster[i] == b;
    var k :| 0 <= k < |roster| && roster[k] == r.value && forall j :: 0 <= j < k ==> roster[j].id != b.id;
    assert !(i < k);
    assert !(k < i);
  }

  /** A roster whose ids are distinct and whose names are all non-empty. */
  predicate WellFormedRoster(roster: seq<Barber>)
  {
    DistinctIds(roster) && forall b :: b in roster ==> b.name != ""
  }

  lemma BarbersWellFormed()
    ensures WellFormedRoster(Barbers)
  {
  }

  /** The name written on a booking: the roster name for the chosen id, or "" when no barber has it. */
  function BarberName(roster: seq<Barber>, id: string): (name: string)
  {
    match FindBarber(roster, id)
    case Some(b) => b.name
    case None => ""
  }

  /** A booking carries an empty barber name exactly when the chosen id is not in the roster; otherwise the name of that barber. */
  lemma BarberNameSpec(roster: seq<Barber>, id: string)
    requires WellFormedRoster(roster)
    ensures BarberName(roster, id) == "" <==> forall b :: b in roster ==> b.id != id
    ensures forall b :: b in roster && b.id == id ==> BarberName(roster, id) == b.name
  {
    var r := FindBarber(roster, id);
    if r.Some? {
      var i :| 0 <= i < |roster| && roster[i] == r.value;
      assert r.value in roster;
    }
    forall b | b in roster && b.id == id ensures BarberName(roster, id) == b.name {
      FindBarberMember(roster, b);
    }
  }
}
