/**
 * What the screen derives from the appointments table: the snake_case to
 * camelCase row mapping, the per-user and all-appointments queries, the
 * by-date filter, the active / history tabs and the admin day views.
 */
module Views {
  import opened Wrappers
  import opened Domain
  import opened TimeOrder
  import opened Sequences

  /** Maps a stored row to the record the screen lists; the owner column is dropped. */
  function ToAppointment(r: Row): (a: Appointment)
  {
    Appointment(r.id, r.date, r.time, r.service, r.barber, r.status, r.price,
                r.client_name, r.client_phone)
  }

  /** The row a listed record came from, given its owner. */
  function ToRow(a: Appointment, userId: string): (r: Row)
  {
    Row(a.id, userId, a.date, a.time, a.service, a.barber, a.status, a.price,
        a.clientName, a.clientPhone)
  }

  /** The row mapping loses nothing but the owner column. */
  lemma RowMappingRoundTrip(r: Row, a: Appointment, userId: string)
    ensures ToRow(ToAppointment(r), r.user_id) == r
    ensures ToAppointment(ToRow(a, userId)) == a
  {
  }

  /** `data.map(apt => ({...}))`: each row mapped, in order. */
  function MapRows(rows: seq<Row>): (r: seq<Appointment>)
    ensures |r| == |rows|
    ensures forall i :: 0 <= i < |rows| ==> r[i] == ToAppointment(rows[i])
  {
    if rows == [] then [] else [ToAppointment(rows[0])] + MapRows(rows[1..])
  }

  /** One insertion step by date commutes with the row mapping. */
  lemma {:induction false} MapRowsInsert(x: Row, s: seq<Row>)
    ensures MapRows(Insert(x, s, RowDate)) == Insert(ToAppointment(x), MapRows(s), DateOf)
    decreases |s|
  {
    if s != [] {
      assert MapRows(s) == [ToAppointment(s[0])] + MapRows(s[1..]);
      if !Leq(RowDate(x), RowDate(s[0])) {
        MapRowsInsert(x, s[1..]);
      }
    }
  }

  /** Ordering the rows by date and then mapping them equals mapping them and then ordering the records by date. */
  lemma {:induction false} MapRowsSortBy(s: seq<Row>)
    ensures MapRows(SortBy(s, RowDate)) == SortBy(MapRows(s), DateOf)
    decreases |s|
  {
    if s != [] {
      assert MapRows(s) == [ToAppointment(s[0])] + MapRows(s[1..]);
      MapRowsSortBy(s[1..]);
      MapRowsInsert(s[0], SortBy(s[1..], RowDate));
    }
  }

  function RowsOf(apts: seq<Appointment>, userId: string): (r: seq<Row>)
  {
    seq(|apts|, i requires 0 <= i < |apts| => ToRow(apts[i], userId))
  }

  /** A user's listed appointments determine that user's rows exactly. */
  lemma MapRowsInverse(rows: seq<Row>, userId: string)
    requires forall i :: 0 <= i < |rows| ==> rows[i].user_id == userId
    ensures RowsOf(MapRows(rows), userId) == rows
  {
  }

  /** The filter condition of the per-user query. */
  function OwnedBy(userId: string): (keep: Row -> bool)
  {
    (r: Row) => r.user_id == userId
  }

  /** The filter condition of `getAppointmentsByDate`. */
  function OnDate(date: string): (keep: Appointment -> bool)
  {
    (a: Appointment) => a.date == date
  }

  function RowDate(r: Row): (d: string) { r.date }
  function DateOf(a: Appointment): (d: string) { a.date }
  function TimeOf(a: Appointment): (t: string) { a.time }

  /** The rows of one user, ordered by date: `.eq('user_id', id).order('date', { ascending: true })`. */
  function UserRows(rows: seq<Row>, userId: string): (r: seq<Row>)
  {
    SortBy(Filter(rows, OwnedBy(userId)), RowDate)
  }

  /** The list `loadUserAppointments` puts on screen. */
  function UserAppointments(rows: seq<Row>, userId: string): (r: seq<Appointment>)
  {
    MapRows(UserRows(rows, userId))
  }

  /** The list `loadAllAppointments` puts on screen for an admin: every row, ordered by date. */
  function AllAppointments(rows: seq<Row>): (r: seq<Appointment>)
  {
    MapRows(SortBy(rows, RowDate))
  }

  /** The per-user query returns each of the user's rows as often as the table holds it, nothing else, by ascending date. */
  lemma UserRowsSpec(rows: seq<Row>, userId: string)
    ensures forall r :: (multiset(UserRows(rows, userId))[r] ==
      if r.user_id == userId then multiset(rows)[r] else 0)
    ensures SortedBy(UserRows(rows, userId), RowDate)
  {
    FilterMultiset(rows, OwnedBy(userId));
    SortBySpec(Filter(rows, OwnedBy(userId)), RowDate);
  }

  /** The user's list shows exactly that user's rows. */
  lemma UserAppointmentsSpec(rows: seq<Row>, userId: string)
    ensures forall a :: a in UserAppointments(rows, userId) <==>
      exists r :: r in rows && r.user_id == userId && ToAppointment(r) == a
  {
    var sorted := UserRows(rows, userId);
    var view := UserAppointments(rows, userId);
    UserRowsSpec(rows, userId);
    forall a | a in view ensures exists r :: r in rows && r.user_id == userId && ToAppointment(r) == a {
      var i :| 0 <= i < |view| && view[i] == a;
      assert multiset(sorted)[sorted[i]] > 0;
    }
    forall a | exists r :: r in rows && r.user_id == userId && ToAppointment(r) == a
      ensures a in view
    {
      var r :| r in rows && r.user_id == userId && ToAppointment(r) == a;
      assert multiset(rows)[r] > 0;
      assert r in multiset(sorted);
      var i :| 0 <= i < |sorted| && sorted[i] == r;
      assert view[i] == a;
    }
  }

  /** The user's list is in ascending date order. */
  lemma UserAppointmentsByDate(rows: seq<Row>, userId: string)
    ensures SortedBy(UserAppointments(rows, userId), DateOf)
  {
    var sorted := UserRows(rows, userId);
    var view := UserAppointments(rows, userId);
    UserRowsSpec(rows, userId);
    forall i, j | 0 <= i < j < |view| ensures Leq(DateOf(view[i]), DateOf(view[j])) {
      assert DateOf(view[i]) == RowDate(sorted[i]) && DateOf(view[j]) == RowDate(sorted[j]);
    }
  }

  /** The admin list shows every row of the table, and nothing else, in ascending date order. */
  lemma AllAppointmentsSpec(rows: seq<Row>)
    ensures forall a :: a in AllAppointments(rows) <==> exists r :: r in rows && ToAppointment(r) == a
    ensures |AllAppointments(rows)| == |rows|
    ensures SortedBy(AllAppointments(rows), DateOf)
  {
    var sorted := SortBy(rows, RowDate);
    var view := AllAppointments(rows);
    SortBySpec(rows, RowDate);
    assert |multiset(sorted)| == |multiset(rows)|;
    forall a | a in view ensures exists r :: r in rows && ToAppointment(r) == a {
      var i :| 0 <= i < |view| && view[i] == a;
      assert sorted[i] in multiset(sorted);
    }
    forall a | exists r :: r in rows && ToAppointment(r) == a ensures a in view {
      var r :| r in rows && ToAppointment(r) == a;
      assert r in multiset(sorted);
      var i :| 0 <= i < |sorted| && sorted[i] == r;
      assert view[i] == a;
    }
    forall i, j | 0 <= i < j < |view| ensures Leq(DateOf(view[i]), DateOf(view[j])) {
      assert DateOf(view[i]) == RowDate(sorted[i]) && DateOf(view[j]) == RowDate(sorted[j]);
    }
  }

  /** The admin list holds each row's record exactly as often as the table holds the row. */
  lemma AllAppointmentsCounts(rows: seq<Row>)
    ensures multiset(AllAppointments(rows)) == multiset(MapRows(rows))
  {
    MapRowsSortBy(rows);
    SortBySpec(MapRows(rows), DateOf);
  }

  /** `getAppointmentsByDate(date)`: the appointments on that date, in list order. */
  function AppointmentsByDate(all: seq<Appointment>, date: string): (r: seq<Appointment>)
    ensures forall i :: 0 <= i < |r| ==> r[i].date == date
    ensures forall a :: multiset(r)[a] == if a.date == date then multiset(all)[a] else 0
  {
    FilterMultiset(all, OnDate(date));
    FilterPasses(all, OnDate(date));
    Filter(all, OnDate(date))
  }

  /** Nothing on that date is dropped, and the list keeps the order it had. */
  lemma AppointmentsByDateKeepsOrder(all: seq<Appointment>, date: string, i: nat, j: nat)
    requires i < j < |all| && all[i].date == date && all[j].date == date
    ensures exists k, l :: (0 <= k < l < |AppointmentsByDate(all, date)| &&
      AppointmentsByDate(all, date)[k] == all[i] && AppointmentsByDate(all, date)[l] == all[j])
  {
    var r := AppointmentsByDate(all, date);
    assert r == Filter(all, OnDate(date));
    FilterPreservesOrder(all, OnDate(date), i, j);
    var k, l :| 0 <= k < l < |r| && r[k] == all[i] && r[l] == all[j];
  }

  predicate IsActive(a: Appointment) { a.status == Agendado }
  predicate IsHistory(a: Appointment) { a.status != Agendado }

  /** The "Agendados" tab: `.filter(apt => apt.status === 'agendado')`. */
  function ActiveAppointments(s: seq<Appointment>): (r: seq<Appointment>)
  {
    Filter(s, IsActive)
  }

  /** The "Anteriores" tab: `.filter(apt => apt.status !== 'agendado')`. */
  function HistoryAppointments(s: seq<Appointment>): (r: seq<Appointment>)
  {
    Filter(s, IsHistory)
  }

  /** The two tabs split the list: together they hold every appointment exactly as often as the list does, and none is in both. */
  lemma ActiveHistoryPartition(s: seq<Appointment>)
    ensures multiset(ActiveAppointments(s)) + multiset(HistoryAppointments(s)) == multiset(s)
    ensures multiset(ActiveAppointments(s)) * multiset(HistoryAppointments(s)) == multiset{}
    ensures |ActiveAppointments(s)| + |HistoryAppointments(s)| == |s|
  {
    FilterMultiset(s, IsActive);
    FilterMultiset(s, IsHistory);
    var act, hist := multiset(ActiveAppointments(s)), multiset(HistoryAppointments(s));
    assert act + hist == multiset(s) by {
      forall a ensures (act + hist)[a] == multiset(s)[a] { }
    }
    assert act * hist == multiset{} by {
      forall a ensures (act * hist)[a] == 0 { }
    }
    assert |act + hist| == |multiset(s)|;
  }

  /**
   * The admin "Hoje" / "Amanhã" views: the day's appointments, only the
   * scheduled ones, sorted by time string.
   */
  function DayView(all: seq<Appointment>, date: string): (r: seq<Appointment>)
  {
    SortBy(ActiveAppointments(AppointmentsByDate(all, date)), TimeOf)
  }

  /**
   * A day view holds exactly the scheduled appointments on that date, each as
   * often as the full list does, in ascending time order, which for well-formed
   * "HH:MM" times is the order of the clock.
   */
  lemma DayViewSpec(all: seq<Appointment>, date: string)
    ensures forall a :: a in DayView(all, date) ==> a.date == date && a.status == Agendado
    ensures forall a :: (multiset(DayView(all, date))[a] ==
      if a.date == date && a.status == Agendado then multiset(all)[a] else 0)
    ensures SortedBy(DayView(all, date), TimeOf)
    ensures forall i, j :: (0 <= i < j < |DayView(all, date)| &&
      WellFormedTime(DayView(all, date)[i].time) && WellFormedTime(DayView(all, date)[j].time)) ==>
      Minutes(DayView(all, date)[i].time) <= Minutes(DayView(all, date)[j].time)
  {
    var v := DayView(all, date);
    var onDate := AppointmentsByDate(all, date);
    FilterMultiset(onDate, IsActive);
    SortBySpec(ActiveAppointments(onDate), TimeOf);
    forall a | a in v ensures a.date == date && a.status == Agendado {
      assert multiset(v)[a] > 0;
      assert multiset(ActiveAppointments(onDate))[a] > 0;
    }
    forall i, j | 0 <= i < j < |v| && WellFormedTime(v[i].time) && WellFormedTime(v[j].time)
      ensures Minutes(v[i].time) <= Minutes(v[j].time)
    {
      assert Leq(TimeOf(v[i]), TimeOf(v[j]));
      TimeOrderIsChronological(v[i].time, v[j].time);
    }
  }
}
