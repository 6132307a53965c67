/** The classroom and reservation routes of the server. The database is a pair of
    record lists plus a flag saying whether it answers at all; `new Date(date)` is a
    parameter that yields the stored date, or nothing when the input is not a date. */
module ReservationApi {

  import opened Optional
  import opened BookingData
  import opened Http
  import Ids

  const WelcomeText := "歡迎來到專科教室借用系統 API"
  const ClassroomsFailedText := "獲取教室資料失敗"
  const ReservationsFailedText := "獲取預約資料失敗"
  const MissingFieldsText := "缺少必要的欄位"
  const CreateFailedText := "建立預約失敗"

  /** The JSON body of `POST /api/reservations`; a field is `None` when absent. */
  datatype ReservationInput = ReservationInput(
    classroomId: Option<string>,
    userName: Option<string>,
    purpose: Option<string>,
    date: Option<string>,
    timeSlot: Option<string>)

  /** All five required fields are present and non-empty. */
  predicate HasRequiredFields(input: ReservationInput) {
    && Truthy(input.classroomId)
    && Truthy(input.userName)
    && Truthy(input.purpose)
    && Truthy(input.date)
    && Truthy(input.timeSlot)
  }

  /** `GET /api`: always 200 with the welcome message. */
  function Welcome(): (resp: Response)
    ensures resp.status == 200 && resp.body.Message?
    ensures resp.body.text == "歡迎來到專科教室借用系統 API"
  {
    Response(200, Message(WelcomeText))
  }

  /** `GET /api/classrooms`: the whole classroom table, or 500 when the store fails. */
  function ListClassrooms(classrooms: seq<Classroom>, storeUp: bool): (resp: Response)
    ensures storeUp <==> resp.status == 200
    ensures storeUp ==> resp.body == ClassroomList(classrooms)
    ensures !storeUp ==> resp == Response(500, Message("獲取教室資料失敗"))
  {
    if storeUp then Response(200, ClassroomList(classrooms))
    else Response(500, Message(ClassroomsFailedText))
  }

  /** `GET /api/reservations`: the whole reservation table, or 500 when the store fails. */
  function ListReservations(reservations: seq<Reservation>, storeUp: bool): (resp: Response)
    ensures storeUp <==> resp.status == 200
    ensures storeUp ==> resp.body == ReservationList(reservations)
    ensures !storeUp ==> resp == Response(500, Message("獲取預約資料失敗"))
  {
    if storeUp then Response(200, ReservationList(reservations))
    else Response(500, Message(ReservationsFailedText))
  }

  /** `POST /api/reservations`. Validation runs before any write; the record is then
      appended under a fresh identity. There is no check that the
      (classroom, date, time slot) cell is still free. Returns the response and the
      reservation table afterwards. */
  function CreateReservation(
    store: seq<Reservation>, storeUp: bool, parseDate: string -> Option<string>,
    input: ReservationInput): (out: (Response, seq<Reservation>))
    ensures out.0.status in {201, 400, 500}
    ensures out.0.status == 400 <==> !HasRequiredFields(input)
    ensures out.0.status == 400 ==> out.0.body == Message("缺少必要的欄位")
    ensures out.0.status == 500 ==> out.0.body == Message("建立預約失敗")
    ensures out.0.status == 201 <==>
      HasRequiredFields(input) && storeUp && parseDate(input.date.value).Some?
    ensures out.0.status != 201 ==> out.1 == store
    ensures out.0.status == 201 ==>
      && out.0.body.ReservationRecord?
      && var r := out.0.body.reservation;
      && out.1 == store + [r]
      && r.id !in ReservationIds(store)
      && r.classroomId == input.classroomId.value
      && r.userName == input.userName.value
      && r.purpose == input.purpose.value
      && r.timeSlot == input.timeSlot.value
      && r.date == parseDate(input.date.value).value
  {
    if !HasRequiredFields(input) then
      (Response(400, Message(MissingFieldsText)), store)
    else if !storeUp then
      (Response(500, Message(CreateFailedText)), store)
    else
      match parseDate(input.date.value)
      case None => (Response(500, Message(CreateFailedText)), store)
      case Some(date) =>
        var r := Reservation(
          Ids.FreshId(ReservationIds(store)),
          input.classroomId.value, input.userName.value, input.purpose.value,
          date, input.timeSlot.value);
        (Response(201, ReservationRecord(r)), store + [r])
  }

  /** The number of reservations whose purpose is `purpose`. */
  function CountWithPurpose(rs: seq<Reservation>, purpose: string): nat {
    if |rs| == 0 then 0
    else CountWithPurpose(rs[..|rs| - 1], purpose) + (if rs[|rs| - 1].purpose == purpose then 1 else 0)
  }

  /** Posting the same cell twice is accepted twice: both records land in the table,
      so the table then holds a double booking. */
  lemma NoCollisionCheck(
    store: seq<Reservation>, parseDate: string -> Option<string>, input: ReservationInput)
    requires HasRequiredFields(input) && parseDate(input.date.value).Some?
    ensures
      var first := CreateReservation(store, true, parseDate, input);
      var second := CreateReservation(first.1, true, parseDate, input);
      && first.0.status == 201 && second.0.status == 201
      && |second.1| == |store| + 2
      && !NoDoubleBooking(second.1)
  {
    var first := CreateReservation(store, true, parseDate, input);
    var second := CreateReservation(first.1, true, parseDate, input);
    var n := |store|;
    assert CellOf(second.1[n]) == CellOf(second.1[n + 1]);
  }

  /** A successful post adds exactly one record carrying the posted purpose, and the
      records that were there are kept in place. */
  lemma CreateAddsOneRecord(
    store: seq<Reservation>, parseDate: string -> Option<string>, input: ReservationInput)
    requires HasRequiredFields(input) && parseDate(input.date.value).Some?
    ensures
      var after := CreateReservation(store, true, parseDate, input).1;
      && |after| == |store| + 1
      && after[..|store|] == store
      && CountWithPurpose(after, input.purpose.value) == CountWithPurpose(store, input.purpose.value) + 1
  {
  }

  /** The scenario of the reservation API: posting the test's complete reservation
      answers 201 with the posted name, and listing the table afterwards shows exactly
      one record with purpose "測試用" when there was none before. */
  lemma PostThenListScenario(store: seq<Reservation>, parseDate: string -> Option<string>)
    requires parseDate("2025-10-30").Some?
    requires CountWithPurpose(store, "測試用") == 0
    ensures
      var input := ReservationInput(Some("c1"), Some("測試者"), Some("測試用"), Some("2025-10-30"), Some("第一節"));
      var out := CreateReservation(store, true, parseDate, input);
      var listed := ListReservations(out.1, true);
      && out.0.status == 201
      && out.0.body.reservation.userName == "測試者"
      && listed.status == 200
      && CountWithPurpose(listed.body.reservations, "測試用") == 1
  {
  }
}
