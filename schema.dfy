/** The record shapes of the scheduling API: what a request carries in, what
    the optimiser hands back, and what the response carries out. */
module Schema {

  /** An optional value; `None` is a JSON `null`. */
  datatype Option<+T> = None | Some(value: T)

  /** One participant of an incoming request. A request that omits `group`
      gets the declared default, `Some([])`; an explicit `null` is `None`. */
  datatype Participant = Participant(name: string, preferences: seq<int>, group: Option<seq<string>>)

  /** The body of a scheduling request. */
  datatype DebateRequest = DebateRequest(participants: seq<Participant>)

  /** One entry of the participant list handed to the optimiser: the same
      as a `Participant`, except that `group` is always a list. */
  datatype PersonData = PersonData(name: string, preferences: seq<int>, group: seq<string>)

  /** The optimiser's assignment tuple: (name, role, preference, group). */
  type AssignmentTuple = (string, string, int, string)

  /** A room as the optimiser produces it: a name and its assignment tuples. */
  datatype AlgoRoom = AlgoRoom(name: string, assignments: seq<AssignmentTuple>)

  /** One named assignment of the response. */
  datatype Assignment = Assignment(name: string, role: string, preference: int, group: string)

  /** One room of the response. */
  datatype Room = Room(name: string, assignments: seq<Assignment>)

  /** The response: the rooms and two statistics. `averagePreference` is the
      exact quotient; the response's rounding to three decimals is not modelled. */
  datatype DebateResponse = DebateResponse(rooms: seq<Room>, totalPreference: int, averagePreference: real)

  /** The optimisation strategy an endpoint runs. */
  datatype Strategy = BritishParliamentaryGroupAware | TraditionalGroupAware
}
