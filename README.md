# Debate scheduling API: response assembly

This project models the scheduling back end's two endpoints. One is British Parliamentary (`/bp`) and one is Traditional (`/traditional`). Each endpoint does three things:

- It builds the optimiser's `person_data` list from the request's participants.
- It runs a room-assignment strategy.
- It passes the strategy's rooms to `convert_rooms_to_response`. That function:
  - copies every room's name;
  - rebuilds every `(name, role, preference, group)` assignment tuple as a named record;
  - adds up every preference into `total_preference`;
  - divides the total by the participant count for `average_preference`. A zero count gives 0 and no division.

The files:

- `schema.dfy` (module `Schema`) holds the record shapes: `Participant`, `DebateRequest`, `PersonData`, the optimiser's `AlgoRoom` with its assignment tuples, `Assignment`, `Room`, `DebateResponse` and `Strategy`.
- `conversion.dfy` (module `Conversion`) holds the response assembly. `ConvertRoomsToResponse` is a method with the source's nested loops, its running total and lists that grow by appending. It is proved against the predicate `ConvertsTo`. That predicate states the relation between rooms and response: field by field, `SumPrefs` for the total, and `AveragePreference` for the average. The lemmas prove:
  - the response is unique;
  - the reported total agrees with the reported rooms;
  - the zero cases;
  - the total's bounds;
  - the average's bounds.
- `endpoints.dfy` (module `Endpoints`) holds the `person_data` mapping (`PersonDataOf`, `GroupOrEmpty`) and the endpoints. The two endpoints in the source have identical bodies except for the strategy object. So the model has one shared body, `RunGroupAware`, which both endpoint methods call.

The optimiser builds the strategy's graph, cancels its cycles and generates the rooms. Its source is not available, so the endpoints take it as a function parameter `optimiser: (Strategy, seq<PersonData>) -> seq<AlgoRoom>`. Nothing is assumed about what it returns.

Where the project's wider design and the code differ, the model follows the code:

- A participant's group is a list, not a set.
- An absent or `null` group becomes `[]`.
- The response group of an assignment is a single string, whatever the optimiser put in component 3 of its tuple.

The spreadsheet row normaliser, the format detector and the export serialiser of the browser front end are not part of this model.

## Model

| member | source | states |
|---|---|---|
| Conversion.ConvertRoomsToResponse | backend/app/main.py:66-101 | The response has as many rooms as the input, in the same order. Each room keeps its name and the same number of assignments, in order. Assignment i's name, role, preference and group are its tuple's components 0 to 3. The total is the sum of every preference in every room. The average is `AveragePreference` of that total and the participant count. |
| Conversion.AveragePreference | backend/app/main.py:95 | A zero participant count gives average 0. Otherwise the average times the count equals the total, i.e. it is the exact quotient. |
| Conversion.RoomPrefsAppend | backend/app/main.py:82-91 | One more assignment adds exactly its component 2 to a room's preference sum. This is the `+= assignment[2]` step. |
| Conversion.SumPrefsAppend | backend/app/main.py:80-93 | One more room adds exactly the preference sum of its assignments to the total. |
| Conversion.ConvertsToUnique | backend/app/main.py:77-101 | The conversion's contract determines the response: two responses that satisfy it for the same rooms and count are equal. |
| Conversion.ReportedTotalMatchesRooms | backend/app/main.py:83-99 | The reported `total_preference` equals the sum of the `preference` fields listed in the response's own rooms. |
| Conversion.RoomsSumAgree | backend/app/main.py:80-93 | Rooms converted pairwise have equal preference sums on the input side and the response side. |
| Conversion.AssignmentsSumAgree | backend/app/main.py:82-91 | Assignments converted pairwise have equal preference sums in the tuples and in the records. |
| Conversion.NoAssignmentsSumZero | backend/app/main.py:77-93 | The total is 0 when no room has an assignment. This includes an empty room list. |
| Conversion.EmptyRoomsGiveZeroResponse | backend/app/main.py:77-101 | Suppose the input has no rooms, or only rooms without assignments. Then the response has the same number of rooms, all without assignments. Its total is 0 and its average is 0. |
| Conversion.RoomPrefsBounds | backend/app/main.py:82-91 | If every preference in a room lies in [lo, hi], the room's sum lies in [lo·k, hi·k], where k is its number of assignments. |
| Conversion.TotalBounds | backend/app/main.py:77-93 | If every preference lies in [lo, hi], the total lies between lo and hi times the number of assignments. |
| Conversion.MeanWithin | backend/app/main.py:95 | If a total lies in [lo·n, hi·n] and n > 0, the average lies in [lo, hi]. |
| Conversion.AverageWithinBounds | backend/app/main.py:77-101 | Suppose the participant count equals the number of assignments and every preference lies in [lo, hi]. Then the response's average lies in [lo, hi]. |
| Endpoints.GroupOrEmpty | backend/app/main.py:41 | The result is `[]` exactly when the group is absent (`None`) or empty. A non-empty group list is passed through unchanged. |
| Endpoints.PersonDataOf | backend/app/main.py:129-136 | There is one entry per request participant, in the same order. Name and preferences are copied unchanged, and the group is normalised by `GroupOrEmpty`. |
| Endpoints.PersonDataOfIdempotent | backend/app/main.py:129-136 | Resubmitting the built `person_data` as participants and mapping it again yields the same list. |
| Endpoints.RunGroupAware | backend/app/main.py:127-151 | For any strategy, the response is the conversion of the strategy's rooms for `PersonDataOf(participants)`, with the participant count as the divisor. |
| Endpoints.RunBpGroupAware | backend/app/main.py:109-151 | The British Parliamentary endpoint converts the British Parliamentary strategy's rooms for the normalised participants, with the participant count as the divisor. |
| Endpoints.RunTraditionalGroupAware | backend/app/main.py:163-205 | The Traditional endpoint builds `person_data` the same way as the British Parliamentary one and converts the Traditional strategy's rooms through the same conversion. |
| Endpoints.EndpointsAgreeOnSameRooms | backend/app/main.py:129-151 | The two endpoints differ only in the strategy: if both strategies return the same rooms for a request, the two responses are equal. |

## Left out

- `average_preference` is the exact rational quotient (`real`). The source's float division and `round(..., 3)` are not modelled.
- The optimiser (`BritishParliamentaryGroupAware`, `TraditionalGroupAware`, `build_graph`, `cycleCancel`, `generate_rooms`) is an opaque function parameter, because its source is not available.
- The 60-second `asyncio.wait_for` / `run_in_executor` timeout is left out: it is concurrency and timing.
- The mapping of exceptions to HTTP 504 and 400 with their message strings is left out. It is transport-level error handling around the optimiser call, which is opaque here.
- The `root` endpoint, environment loading, `ALLOWED_ORIGINS` parsing and CORS middleware are left out: they are framework configuration and a constant response.
- Input validation and JSON serialisation by the record library are left out. The model starts from already validated records.
