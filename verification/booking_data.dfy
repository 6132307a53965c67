/** Classroom and reservation records shared by the server routes, the seed fixture
    and the booking page, together with the static fixture they started from. */
module BookingData {

  import opened Optional
  import Ids

  /** A bookable room. `capacity` is a head count; `color` is only a display hint. */
  datatype Classroom = Classroom(id: string, name: string, capacity: int, color: string)

  /** One booking. `date` is the serialized calendar date; `timeSlot` is an opaque
      period label such as "第一節", compared by equality only. */
  datatype Reservation = Reservation(
    id: string,
    classroomId: string,
    userName: string,
    purpose: string,
    date: string,
    timeSlot: string)

  /** The calendar cell a reservation occupies. */
  datatype Cell = Cell(classroomId: string, date: string, timeSlot: string)

  function CellOf(r: Reservation): Cell {
    Cell(r.classroomId, r.date, r.timeSlot)
  }

  /** The identities of a reservation list, in list order. */
  function ReservationIds(rs: seq<Reservation>): seq<string> {
    Ids.IdsOf(rs, (r: Reservation) => r.id)
  }

  /** No two classrooms share an id. */
  predicate DistinctClassroomIds(cs: seq<Classroom>) {
    forall i, j | 0 <= i < j < |cs| :: cs[i].id != cs[j].id
  }

  /** No two reservations occupy the same (classroom, date, time slot) cell. */
  predicate NoDoubleBooking(rs: seq<Reservation>) {
    forall i, j | 0 <= i < j < |rs| :: CellOf(rs[i]) != CellOf(rs[j])
  }

  /** `id` names one of the classrooms. */
  predicate IsClassroomId(cs: seq<Classroom>, id: string) {
    exists k | 0 <= k < |cs| :: cs[k].id == id
  }

  /** Every reservation names an existing classroom. */
  predicate ReferencesExist(rs: seq<Reservation>, cs: seq<Classroom>) {
    forall i | 0 <= i < |rs| :: IsClassroomId(cs, rs[i].classroomId)
  }

  /** `s` has the `YYYY-MM-DD` shape: ten characters, dashes at offsets 4 and 7,
      digits everywhere else. */
  predicate IsIsoCalendarDate(s: string) {
    && |s| == 10
    && s[4] == '-' && s[7] == '-'
    && forall i | 0 <= i < 10 && i != 4 && i != 7 :: IsDigit(s[i])
  }

  /** The five classrooms of the fixture (also what the database seed inserts). */
  function InitialClassrooms(): seq<Classroom> {
    [ Classroom("c1", "電腦教室 (A)", 40, "#3b82f6"),
      Classroom("c2", "物理實驗室", 30, "#10b981"),
      Classroom("c3", "音樂教室", 50, "#8b5cf6"),
      Classroom("c4", "美術教室", 35, "#ef4444"),
      Classroom("c5", "語言教室", 40, "#f97316") ]
  }

  /** The three static reservations of the fixture. */
  function InitialReservations(): seq<Reservation> {
    [ Reservation("r1", "c1", "王老師", "程式設計課程", "2024-07-28", "第二節"),
      Reservation("r2", "c2", "陳同學", "光學實驗", "2024-07-28", "第六節"),
      Reservation("r3", "c1", "李同學", "專題討論", "2024-07-29", "第三節") ]
  }

  /** The classroom fixture: exactly five rooms with the distinct ids c1..c5, every
      capacity a positive integer, and c1 named "電腦教室 (A)". */
  lemma InitialClassroomsWellFormed()
    ensures |InitialClassrooms()| == 5
    ensures DistinctClassroomIds(InitialClassrooms())
    ensures forall i | 0 <= i < 5 :: InitialClassrooms()[i].id == ["c1", "c2", "c3", "c4", "c5"][i]
    ensures forall c | c in InitialClassrooms() :: c.capacity > 0
    ensures InitialClassrooms()[0].name == "電腦教室 (A)"
  {
  }

  /** The reservation fixture: exactly three records, each naming a fixture classroom,
      no two in the same cell, every date in `YYYY-MM-DD` form. */
  lemma InitialReservationsWellFormed()
    ensures |InitialReservations()| == 3
    ensures ReferencesExist(InitialReservations(), InitialClassrooms())
    ensures NoDoubleBooking(InitialReservations())
    ensures forall r | r in InitialReservations() :: IsIsoCalendarDate(r.date)
  {
    var rs := InitialReservations();
    var cs := InitialClassrooms();
    assert cs[0].id == "c1" && cs[1].id == "c2";
    assert IsClassroomId(cs, rs[0].classroomId);
    assert IsClassroomId(cs, rs[1].classroomId);
    assert IsClassroomId(cs, rs[2].classroomId);
  }
}
