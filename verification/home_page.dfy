/** The booking page as a reducer. The page holds the classroom and reservation
    lists it last fetched, the chosen classroom, the viewed date, the pending slot
    selection and whether the confirmation dialog is open. Every handler is a pure
    transition; the network is reduced to the outcome it delivers: one result for
    the pair of list fetches, one settled result per creation request for a
    submission (all of them awaited together). */
module HomePage {

  import opened Optional
  import opened BookingData
  import opened Http
  import opened SlotSelection
  import ReservationApi

  datatype PageState = PageState(
    classrooms: seq<Classroom>,
    reservations: seq<Reservation>,
    selectedClassroomId: string,
    currentDate: int,
    selectedSlots: seq<SelectedSlot>,
    isModalOpen: bool)

  /** The state on mount: nothing loaded, nothing chosen, today in view. */
  function Initial(today: int): PageState {
    PageState([], [], "", today, [], false)
  }

  /** What loading delivered: both lists, or a failure (a rejected fetch, a non-ok
      status or an unreadable body, all caught alike). */
  datatype FetchOutcome = Fetched(classrooms: seq<Classroom>, reservations: seq<Reservation>) | FetchFailed

  /** What the user typed into the confirmation dialog. */
  datatype BookingDetails = BookingDetails(userName: string, purpose: string)

  /** The body of one creation request; `date` is the slot's ISO-8601 rendering. */
  datatype ReservationRequest = ReservationRequest(
    classroomId: string, userName: string, purpose: string, date: string, timeSlot: string)

  /** How one creation request settled: the created record, or a rejection with the
      error message shown to the user. */
  datatype CreateOutcome = Created(reservation: Reservation) | Rejected(message: string)

  datatype Action =
    | SelectClassroom(id: string)
    | ChangeDate(dateMillis: int)
    | ToggleSlot(slot: SelectedSlot)
    | ClearSelection
    | OpenModal
    | CloseModal
    | Load(fetch: FetchOutcome)
    | Submit(outcomes: seq<CreateOutcome>)

  /** `classrooms.find(c => c.id === id)`: the first classroom with that id. */
  function FindClassroom(cs: seq<Classroom>, id: string): (c: Option<Classroom>)
    ensures c.None? <==> !IsClassroomId(cs, id)
    ensures c.Some? ==> exists k | 0 <= k < |cs| ::
      cs[k] == c.value && c.value.id == id && forall j | 0 <= j < k :: cs[j].id != id
  {
    if |cs| == 0 then None
    else if cs[0].id == id then Some(cs[0])
    else
      var rest := FindClassroom(cs[1..], id);
      assert IsClassroomId(cs, id) <==> IsClassroomId(cs[1..], id) by {
        if IsClassroomId(cs, id) {
          var k :| 0 <= k < |cs| && cs[k].id == id;
          assert cs[1..][k - 1].id == id;
        }
        if IsClassroomId(cs[1..], id) {
          var k :| 0 <= k < |cs| - 1 && cs[1..][k].id == id;
          assert cs[k + 1].id == id;
        }
      }
      assert rest.Some? ==> exists k | 0 <= k < |cs| ::
        cs[k] == rest.value && rest.value.id == id && forall j | 0 <= j < k :: cs[j].id != id
      by {
        if rest.Some? {
          var k :| 0 <= k < |cs| - 1 && cs[1..][k] == rest.value && rest.value.id == id
            && forall j | 0 <= j < k :: cs[1..][j].id != id;
          assert cs[k + 1] == rest.value;
          forall j | 0 <= j < k + 1 ensures cs[j].id != id {
            if j > 0 { assert cs[j] == cs[1..][j - 1]; }
          }
        }
      }
      rest
  }

  /** `fetchData`: on success both lists are replaced, and the first classroom becomes
      the chosen one when none was chosen yet; on failure nothing changes, because
      both bodies are read before any setter runs. */
  function LoadData(st: PageState, fetch: FetchOutcome): (r: PageState)
    ensures fetch.FetchFailed? ==> r == st
    ensures fetch.Fetched? ==>
      && r.classrooms == fetch.classrooms
      && r.reservations == fetch.reservations
      && r.selectedClassroomId ==
           (if st.selectedClassroomId == "" && |fetch.classrooms| > 0
            then fetch.classrooms[0].id else st.selectedClassroomId)
      && r.currentDate == st.currentDate
      && r.selectedSlots == st.selectedSlots
      && r.isModalOpen == st.isModalOpen
  {
    match fetch
    case FetchFailed => st
    case Fetched(cs, rs) =>
      var id := if |cs| > 0 && st.selectedClassroomId == "" then cs[0].id else st.selectedClassroomId;
      st.(classrooms := cs, reservations := rs, selectedClassroomId := id)
  }

  /** `handleOpenModal`: opens the dialog only when something is selected. */
  function Open(st: PageState): (r: PageState)
    ensures r.isModalOpen <==> st.isModalOpen || |st.selectedSlots| > 0
    ensures r.(isModalOpen := st.isModalOpen) == st
  {
    if |st.selectedSlots| > 0 then st.(isModalOpen := true) else st
  }

  /** A submission sends requests only with a classroom chosen and a non-empty
      selection. */
  predicate SubmitsRequests(st: PageState) {
    st.selectedClassroomId != "" && |st.selectedSlots| > 0
  }

  /** How many creation requests a submission sends. */
  function RequestCount(st: PageState): nat {
    if SubmitsRequests(st) then |st.selectedSlots| else 0
  }

  /** The creation requests of `handleAddReservation`, one per selected slot in
      selection order, each for the chosen classroom. `isoDate` renders a date
      (`toISOString`). */
  function Requests(st: PageState, details: BookingDetails, isoDate: int -> string)
    : (rs: seq<ReservationRequest>)
    ensures |rs| == RequestCount(st)
    ensures forall i | 0 <= i < |rs| ::
      rs[i] == ReservationRequest(
        st.selectedClassroomId, details.userName, details.purpose,
        isoDate(st.selectedSlots[i].dateMillis), st.selectedSlots[i].timeSlot)
  {
    if !SubmitsRequests(st) then []
    else
      seq(|st.selectedSlots|, i requires 0 <= i < |st.selectedSlots| =>
        ReservationRequest(
          st.selectedClassroomId, details.userName, details.purpose,
          isoDate(st.selectedSlots[i].dateMillis), st.selectedSlots[i].timeSlot))
  }

  predicate AllCreated(outcomes: seq<CreateOutcome>) {
    forall i | 0 <= i < |outcomes| :: outcomes[i].Created?
  }

  /** The created records, in request order. */
  function CreatedRecords(outcomes: seq<CreateOutcome>): (rs: seq<Reservation>)
    requires AllCreated(outcomes)
    ensures |rs| == |outcomes|
    ensures forall i | 0 <= i < |rs| :: outcomes[i] == Created(rs[i])
  {
    seq(|outcomes|, i requires 0 <= i < |outcomes| => outcomes[i].reservation)
  }

  /** `handleAddReservation` once every request has settled. All or nothing: when
      every request succeeded the created records are appended in slot order, the
      selection is cleared and the dialog closed; when any failed, nothing changes,
      even though the successful ones were stored. */
  function SubmitResults(st: PageState, outcomes: seq<CreateOutcome>): (r: PageState)
    requires |outcomes| == RequestCount(st)
    ensures !SubmitsRequests(st) ==> r == st
    ensures !AllCreated(outcomes) ==> r == st
    ensures SubmitsRequests(st) && AllCreated(outcomes) ==>
      && |r.reservations| == |st.reservations| + |st.selectedSlots|
      && r.reservations[..|st.reservations|] == st.reservations
      && (forall i | 0 <= i < |outcomes| :: outcomes[i] == Created(r.reservations[|st.reservations| + i]))
      && r.selectedSlots == []
      && !r.isModalOpen
      && r.(reservations := st.reservations, selectedSlots := st.selectedSlots, isModalOpen := st.isModalOpen) == st
  {
    if !SubmitsRequests(st) || !AllCreated(outcomes) then st
    else
      var created := CreatedRecords(outcomes);
      var rs := st.reservations + created;
      assert rs[..|st.reservations|] == st.reservations;
      st.(reservations := rs, selectedSlots := [], isModalOpen := false)
  }

  /** A submission carries one settled outcome per request it sent. */
  predicate WellFormed(st: PageState, a: Action) {
    a.Submit? ==> |a.outcomes| == RequestCount(st)
  }

  /** The page reducer. */
  function Step(st: PageState, a: Action): (r: PageState)
    requires WellFormed(st, a)
    ensures a.SelectClassroom? ==>
      r.selectedClassroomId == a.id && r.selectedSlots == [] &&
      r.(selectedClassroomId := st.selectedClassroomId, selectedSlots := st.selectedSlots) == st
    ensures a.ChangeDate? ==>
      r.currentDate == a.dateMillis && r.(currentDate := st.currentDate) == st
    ensures a.ToggleSlot? ==>
      Elements(r.selectedSlots) == Elements(st.selectedSlots) - {a.slot} + (if a.slot in st.selectedSlots then {} else {a.slot})
      && r.(selectedSlots := st.selectedSlots) == st
    ensures a.ClearSelection? ==> r == st.(selectedSlots := [])
    ensures a.CloseModal? ==> r == st.(isModalOpen := false)
    ensures a.OpenModal? || a.ChangeDate? || a.ToggleSlot? || a.ClearSelection? || a.CloseModal? ==>
      r.classrooms == st.classrooms && r.reservations == st.reservations &&
      r.selectedClassroomId == st.selectedClassroomId
    ensures a.Load? || a.Submit? ==>
      && r.currentDate == st.currentDate
      && r.selectedClassroomId ==
           (if a.Load? && a.fetch.Fetched? && st.selectedClassroomId == "" && |a.fetch.classrooms| > 0
            then a.fetch.classrooms[0].id else st.selectedClassroomId)
    ensures NoDuplicates(st.selectedSlots) ==> NoDuplicates(r.selectedSlots)
  {
    match a
    case SelectClassroom(id) => st.(selectedClassroomId := id, selectedSlots := [])
    case ChangeDate(d) => st.(currentDate := d)
    case ToggleSlot(slot) => st.(selectedSlots := Toggle(st.selectedSlots, slot))
    case ClearSelection => st.(selectedSlots := [])
    case OpenModal => Open(st)
    case CloseModal => st.(isModalOpen := false)
    case Load(fetch) => LoadData(st, fetch)
    case Submit(outcomes) => SubmitResults(st, outcomes)
  }

  /** `res.ok` with the created record as body gives `Created`; anything else is a
      rejection carrying the body's message, or "預約失敗" when it has none.
      The page itself treats every ok response as a created record and reads the
      refusal text from `message` alone. The creation route never answers ok
      without a record and never sends a refusal as `MessageWithError`, so the
      two readings agree on every response that route can give. */
  function OutcomeOf(resp: Response): (o: CreateOutcome)
    ensures o.Created? <==> resp.Ok() && resp.body.ReservationRecord?
    ensures o.Created? ==> o.reservation == resp.body.reservation
  {
    if resp.Ok() && resp.body.ReservationRecord? then Created(resp.body.reservation)
    else if resp.body.Message? && resp.body.text != "" then Rejected(resp.body.text)
    else Rejected("預約失敗")
  }

  /** The request as the server reads it: every field present. */
  function InputOf(req: ReservationRequest): ReservationApi.ReservationInput {
    ReservationApi.ReservationInput(
      Some(req.classroomId), Some(req.userName), Some(req.purpose), Some(req.date), Some(req.timeSlot))
  }

  /** A one-slot booking that the server accepts ends with exactly the stored
      record appended to the page's list, the selection empty and the dialog
      closed. */
  lemma OneSlotBookingAccepted(
    st: PageState, details: BookingDetails, isoDate: int -> string,
    store: seq<Reservation>, parseDate: string -> Option<string>)
    requires SubmitsRequests(st) && |st.selectedSlots| == 1
    requires details.userName != "" && details.purpose != "" && st.selectedSlots[0].timeSlot != ""
    requires isoDate(st.selectedSlots[0].dateMillis) != ""
    requires parseDate(isoDate(st.selectedSlots[0].dateMillis)).Some?
    ensures
      var req := Requests(st, details, isoDate)[0];
      var server := ReservationApi.CreateReservation(store, true, parseDate, InputOf(req));
      var r := SubmitResults(st, [OutcomeOf(server.0)]);
      && |server.1| == |store| + 1
      && r.reservations == st.reservations + [server.1[|store|]]
      && r.selectedSlots == []
      && !r.isModalOpen
  {
  }

  /** The server's reply to each request, each sent against its own view of the
      table. */
  function Replies(
    stores: seq<seq<Reservation>>, parseDate: string -> Option<string>, reqs: seq<ReservationRequest>)
    : (out: seq<(Response, seq<Reservation>)>)
    requires |stores| == |reqs|
    ensures |out| == |reqs|
    ensures forall i | 0 <= i < |reqs| ::
      out[i] == ReservationApi.CreateReservation(stores[i], true, parseDate, InputOf(reqs[i]))
  {
    seq(|reqs|, i requires 0 <= i < |reqs| =>
      ReservationApi.CreateReservation(stores[i], true, parseDate, InputOf(reqs[i])))
  }

  /** How the page reads each reply. */
  function Outcomes(replies: seq<(Response, seq<Reservation>)>): (os: seq<CreateOutcome>)
    ensures |os| == |replies|
    ensures forall i | 0 <= i < |replies| :: os[i] == OutcomeOf(replies[i].0)
  {
    seq(|replies|, i requires 0 <= i < |replies| => OutcomeOf(replies[i].0))
  }

  /** A booking of any number of slots that the server accepts slot by slot: every
      request is complete, every date parses and the store is up. The page then
      appends exactly the records the server stored, one per slot in selection
      order, each for the chosen classroom, slot label and parsed date; the
      selection is emptied and the dialog closed. */
  lemma AllSlotsBookingAccepted(
    st: PageState, details: BookingDetails, isoDate: int -> string,
    stores: seq<seq<Reservation>>, parseDate: string -> Option<string>)
    requires SubmitsRequests(st) && |stores| == RequestCount(st)
    requires details.userName != "" && details.purpose != ""
    requires forall i | 0 <= i < |st.selectedSlots| ::
      && st.selectedSlots[i].timeSlot != ""
      && isoDate(st.selectedSlots[i].dateMillis) != ""
      && parseDate(isoDate(st.selectedSlots[i].dateMillis)).Some?
    ensures
      var servers := Replies(stores, parseDate, Requests(st, details, isoDate));
      var r := SubmitResults(st, Outcomes(servers));
      var n := |st.reservations|;
      && |r.reservations| == n + |st.selectedSlots|
      && r.reservations[..n] == st.reservations
      && (forall i | 0 <= i < |servers| :: servers[i].1 == stores[i] + [r.reservations[n + i]])
      && (forall i | 0 <= i < |servers| ::
            && r.reservations[n + i].classroomId == st.selectedClassroomId
            && r.reservations[n + i].timeSlot == st.selectedSlots[i].timeSlot
            && r.reservations[n + i].date == parseDate(isoDate(st.selectedSlots[i].dateMillis)).value)
      && r.selectedSlots == []
      && !r.isModalOpen
  {
    var reqs := Requests(st, details, isoDate);
    var servers := Replies(stores, parseDate, reqs);
    var outcomes := Outcomes(servers);
    forall i | 0 <= i < |reqs|
      ensures outcomes[i] == Created(servers[i].0.body.reservation)
      ensures servers[i].1 == stores[i] + [servers[i].0.body.reservation]
      ensures servers[i].0.body.reservation.classroomId == st.selectedClassroomId
      ensures servers[i].0.body.reservation.timeSlot == st.selectedSlots[i].timeSlot
      ensures servers[i].0.body.reservation.date == parseDate(isoDate(st.selectedSlots[i].dateMillis)).value
    {
      RequestAccepted(stores[i], parseDate, reqs[i]);
    }
    assert AllCreated(outcomes);
    var r := SubmitResults(st, outcomes);
    var n := |st.reservations|;
    forall i | 0 <= i < |reqs| ensures r.reservations[n + i] == servers[i].0.body.reservation {
      assert outcomes[i] == Created(r.reservations[n + i]);
    }
  }

  /** The server accepts a complete request whose date parses, storing and
      returning one record with the request's fields. */
  lemma RequestAccepted(
    store: seq<Reservation>, parseDate: string -> Option<string>, req: ReservationRequest)
    requires req.classroomId != "" && req.userName != "" && req.purpose != ""
    requires req.date != "" && req.timeSlot != "" && parseDate(req.date).Some?
    ensures
      var out := ReservationApi.CreateReservation(store, true, parseDate, InputOf(req));
      && OutcomeOf(out.0) == Created(out.0.body.reservation)
      && out.1 == store + [out.0.body.reservation]
      && out.0.body.reservation.classroomId == req.classroomId
      && out.0.body.reservation.timeSlot == req.timeSlot
      && out.0.body.reservation.date == parseDate(req.date).value
  {
    assert ReservationApi.HasRequiredFields(InputOf(req));
  }

  /** An empty name is refused by the server for every slot, whatever its table
      holds, so the submission leaves the page exactly as it was. */
  lemma EmptyNameChangesNothing(
    st: PageState, details: BookingDetails, isoDate: int -> string,
    stores: seq<seq<Reservation>>, up: bool, parseDate: string -> Option<string>)
    requires details.userName == ""
    requires |stores| == RequestCount(st)
    ensures
      var reqs := Requests(st, details, isoDate);
      var outcomes := seq(|reqs|, i requires 0 <= i < |reqs| =>
        OutcomeOf(ReservationApi.CreateReservation(stores[i], up, parseDate, InputOf(reqs[i])).0));
      SubmitResults(st, outcomes) == st
  {
    var reqs := Requests(st, details, isoDate);
    var outcomes := seq(|reqs|, i requires 0 <= i < |reqs| =>
      OutcomeOf(ReservationApi.CreateReservation(stores[i], up, parseDate, InputOf(reqs[i])).0));
    if |reqs| > 0 {
      var out := ReservationApi.CreateReservation(stores[0], up, parseDate, InputOf(reqs[0]));
      assert out.0.status == 400;
      assert outcomes[0] == OutcomeOf(out.0);
      assert !outcomes[0].Created?;
    }
  }

  /** The pending selection never holds the same (date, slot) pair twice. */
  predicate Invariant(st: PageState) {
    NoDuplicates(st.selectedSlots)
  }

  /** Any run of well-formed actions from a state with the invariant keeps it. */
  lemma {:induction false} RunKeepsInvariant(st: PageState, actions: seq<Action>)
    requires Invariant(st)
    ensures RunDefined(st, actions) ==> Invariant(Run(st, actions))
    decreases |actions|
  {
    if |actions| > 0 && WellFormed(st, actions[0]) {
      RunKeepsInvariant(Step(st, actions[0]), actions[1..]);
    }
  }

  /** The page as mounted satisfies the invariant, so every well-formed run from it
      keeps the selection free of duplicates. */
  lemma RunFromInitialKeepsInvariant(today: int, actions: seq<Action>)
    ensures Invariant(Initial(today))
    ensures RunDefined(Initial(today), actions) ==> Invariant(Run(Initial(today), actions))
  {
    RunKeepsInvariant(Initial(today), actions);
  }

  /** Every action in the run is well formed for the state it meets. */
  predicate RunDefined(st: PageState, actions: seq<Action>)
    decreases |actions|
  {
    |actions| == 0 || (WellFormed(st, actions[0]) && RunDefined(Step(st, actions[0]), actions[1..]))
  }

  /** The state after applying the actions in order. */
  function Run(st: PageState, actions: seq<Action>): PageState
    requires RunDefined(st, actions)
    decreases |actions|
  {
    if |actions| == 0 then st else Run(Step(st, actions[0]), actions[1..])
  }
}
