/** HTTP responses as plain values: a status code and a JSON body. Routing,
    CORS and JSON encoding are not modelled. */
module Http {

  import opened Optional
  import opened BookingData
  import opened Tokens

  datatype Body =
    | Message(text: string)
      /** `{message, error}`: the error field carries the caught exception's text. */
    | MessageWithError(text: string)
    | ClassroomList(classrooms: seq<Classroom>)
    | ReservationList(reservations: seq<Reservation>)
    | ReservationRecord(reservation: Reservation)
      /** A user's public fields with a bearer token; never a password hash. */
    | Account(id: string, email: string, name: Option<string>, token: Token)

  datatype Response = Response(status: nat, body: Body) {

    /** The fetch API's `res.ok`. */
    predicate Ok() {
      200 <= status < 300
    }
  }
}
