/** Assembling the API response from the optimiser's rooms. */
module Conversion {
  import opened Schema

  /** Sum of the preference component over a list of assignment tuples. */
  function RoomPrefs(ts: seq<AssignmentTuple>): int
  {
    if ts == [] then 0 else ts[0].2 + RoomPrefs(ts[1..])
  }

  /** Sum of every assignment's preference over every room. */
  function SumPrefs(rooms: seq<AlgoRoom>): int
  {
    if rooms == [] then 0 else RoomPrefs(rooms[0].assignments) + SumPrefs(rooms[1..])
  }

  /** Number of assignments over every room. */
  function AssignmentCount(rooms: seq<AlgoRoom>): nat
  {
    if rooms == [] then 0 else |rooms[0].assignments| + AssignmentCount(rooms[1..])
  }

  /** Sum of the preferences reported in the response's rooms. */
  function ReportedTotal(rooms: seq<Room>): int
  {
    if rooms == [] then 0 else ReportedRoomTotal(rooms[0].assignments) + ReportedTotal(rooms[1..])
  }

  function ReportedRoomTotal(as_: seq<Assignment>): int
  {
    if as_ == [] then 0 else as_[0].preference + ReportedRoomTotal(as_[1..])
  }

  /** The average preference: zero when there are no participants (and no
      division happens), the exact quotient otherwise. */
  function AveragePreference(total: int, numParticipants: int): (avg: real)
    ensures numParticipants == 0 ==> avg == 0.0
    ensures numParticipants != 0 ==> avg * numParticipants as real == total as real
  {
    if numParticipants != 0 then total as real / numParticipants as real else 0.0
  }

  /** The response assignment carries the tuple's components 0 to 3. */
  predicate AssignmentConverted(t: AssignmentTuple, a: Assignment)
  {
    a.name == t.0 && a.role == t.1 && a.preference == t.2 && a.group == t.3
  }

  /** The response room keeps the name and every assignment, in order. */
  predicate RoomConverted(src: AlgoRoom, dst: Room)
  {
    && dst.name == src.name
    && |dst.assignments| == |src.assignments|
    && forall j :: 0 <= j < |src.assignments| ==> AssignmentConverted(src.assignments[j], dst.assignments[j])
  }

  /** What the conversion promises: one response room per input room, in
      order, each converted field by field; the total is the sum of every
      preference; the average is derived from the total and the count. */
  ghost predicate ConvertsTo(rooms: seq<AlgoRoom>, numParticipants: int, response: DebateResponse)
  {
    && |response.rooms| == |rooms|
    && (forall i :: 0 <= i < |rooms| ==> RoomConverted(rooms[i], response.rooms[i]))
    && response.totalPreference == SumPrefs(rooms)
    && response.averagePreference == AveragePreference(SumPrefs(rooms), numParticipants)
  }

  /** Walks the rooms, rebuilds every assignment as a named record and adds
      its preference to the running total. */
  method ConvertRoomsToResponse(rooms: seq<AlgoRoom>, numParticipants: int) returns (response: DebateResponse)
    ensures ConvertsTo(rooms, numParticipants, response)
  {
    var totalPref := 0;
    var responseRooms: seq<Room> := [];
    for i := 0 to |rooms|
      invariant |responseRooms| == i
      invariant forall k :: 0 <= k < i ==> RoomConverted(rooms[k], responseRooms[k])
      invariant totalPref == SumPrefs(rooms[..i])
    {
      var room := rooms[i];
      var assignments: seq<Assignment> := [];
      for j := 0 to |room.assignments|
        invariant |assignments| == j
        invariant forall k :: 0 <= k < j ==> AssignmentConverted(room.assignments[k], assignments[k])
        invariant totalPref == SumPrefs(rooms[..i]) + RoomPrefs(room.assignments[..j])
      {
        var assignment := room.assignments[j];
        assignments := assignments + [Assignment(assignment.0, assignment.1, assignment.2, assignment.3)];
        RoomPrefsAppend(room.assignments[..j], assignment);
        assert room.assignments[..j + 1] == room.assignments[..j] + [assignment];
        totalPref := totalPref + assignment.2;
      }
      assert room.assignments[..|room.assignments|] == room.assignments;
      responseRooms := responseRooms + [Room(room.name, assignments)];
      SumPrefsAppend(rooms[..i], room);
      assert rooms[..i + 1] == rooms[..i] + [room];
    }
    assert rooms[..|rooms|] == rooms;
    var avgPref := AveragePreference(totalPref, numParticipants);
    response := DebateResponse(responseRooms, totalPref, avgPref);
  }

  /** Adding one more tuple adds its preference to the room's sum. */
  lemma {:induction false} RoomPrefsAppend(ts: seq<AssignmentTuple>, t: AssignmentTuple)
    ensures RoomPrefs(ts + [t]) == RoomPrefs(ts) + t.2
  {
    if ts != [] {
      assert (ts + [t])[1..] == ts[1..] + [t];
      RoomPrefsAppend(ts[1..], t);
    }
  }

  /** Adding one more room adds its assignments' preferences to the total. */
  lemma {:induction false} SumPrefsAppend(rooms: seq<AlgoRoom>, room: AlgoRoom)
    ensures SumPrefs(rooms + [room]) == SumPrefs(rooms) + RoomPrefs(room.assignments)
  {
    if rooms != [] {
      assert (rooms + [room])[1..] == rooms[1..] + [room];
      SumPrefsAppend(rooms[1..], room);
    }
  }

  /** The conversion's result is determined by its input: any two responses
      it admits for the same rooms and count are equal. */
  lemma ConvertsToUnique(rooms: seq<AlgoRoom>, numParticipants: int, r1: DebateResponse, r2: DebateResponse)
    requires ConvertsTo(rooms, numParticipants, r1)
    requires ConvertsTo(rooms, numParticipants, r2)
    ensures r1 == r2
  {
    forall i | 0 <= i < |rooms|
      ensures r1.rooms[i] == r2.rooms[i]
    {
      var a1, a2 := r1.rooms[i].assignments, r2.rooms[i].assignments;
      assert RoomConverted(rooms[i], r1.rooms[i]) && RoomConverted(rooms[i], r2.rooms[i]);
      forall j | 0 <= j < |a1|
        ensures a1[j] == a2[j]
      {
        assert AssignmentConverted(rooms[i].assignments[j], a1[j]);
        assert AssignmentConverted(rooms[i].assignments[j], a2[j]);
      }
    }
  }

  /** The reported total agrees with the preferences listed in the
      response's own rooms. */
  lemma ReportedTotalMatchesRooms(rooms: seq<AlgoRoom>, numParticipants: int, response: DebateResponse)
    requires ConvertsTo(rooms, numParticipants, response)
    ensures response.totalPreference == ReportedTotal(response.rooms)
  {
    RoomsSumAgree(rooms, response.rooms);
  }

  lemma {:induction false} RoomsSumAgree(src: seq<AlgoRoom>, dst: seq<Room>)
    requires |src| == |dst|
    requires forall i :: 0 <= i < |src| ==> RoomConverted(src[i], dst[i])
    ensures SumPrefs(src) == ReportedTotal(dst)
  {
    if src != [] {
      assert RoomConverted(src[0], dst[0]);
      AssignmentsSumAgree(src[0].assignments, dst[0].assignments);
      assert forall i :: 0 <= i < |src[1..]| ==> src[1..][i] == src[i + 1] && dst[1..][i] == dst[i + 1];
      RoomsSumAgree(src[1..], dst[1..]);
    }
  }

  lemma {:induction false} AssignmentsSumAgree(ts: seq<AssignmentTuple>, as_: seq<Assignment>)
    requires |ts| == |as_|
    requires forall j :: 0 <= j < |ts| ==> AssignmentConverted(ts[j], as_[j])
    ensures RoomPrefs(ts) == ReportedRoomTotal(as_)
  {
    if ts != [] {
      assert AssignmentConverted(ts[0], as_[0]);
      assert forall j :: 0 <= j < |ts[1..]| ==> ts[1..][j] == ts[j + 1] && as_[1..][j] == as_[j + 1];
      AssignmentsSumAgree(ts[1..], as_[1..]);
    }
  }

  /** True when no room has an assignment (this includes an empty room list). */
  predicate NoAssignments(rooms: seq<AlgoRoom>)
  {
    forall i :: 0 <= i < |rooms| ==> rooms[i].assignments == []
  }

  lemma {:induction false} NoAssignmentsSumZero(rooms: seq<AlgoRoom>)
    requires NoAssignments(rooms)
    ensures SumPrefs(rooms) == 0
  {
    if rooms != [] {
      assert rooms[0].assignments == [];
      assert NoAssignments(rooms[1..]) by {
        assert forall i :: 0 <= i < |rooms[1..]| ==> rooms[1..][i] == rooms[i + 1];
      }
      NoAssignmentsSumZero(rooms[1..]);
    }
  }

  /** Rooms without assignments give a zero total, a zero average and
      response rooms without assignments. */
  lemma EmptyRoomsGiveZeroResponse(rooms: seq<AlgoRoom>, numParticipants: int, response: DebateResponse)
    requires ConvertsTo(rooms, numParticipants, response)
    requires NoAssignments(rooms)
    ensures response.totalPreference == 0
    ensures response.averagePreference == 0.0
    ensures |response.rooms| == |rooms|
    ensures forall i :: 0 <= i < |response.rooms| ==> response.rooms[i].assignments == []
  {
    NoAssignmentsSumZero(rooms);
    forall i | 0 <= i < |response.rooms|
      ensures response.rooms[i].assignments == []
    {
      assert RoomConverted(rooms[i], response.rooms[i]);
    }
  }

  /** Every preference in every room lies between `lo` and `hi`. */
  predicate PrefsWithin(rooms: seq<AlgoRoom>, lo: int, hi: int)
  {
    forall i, j :: 0 <= i < |rooms| && 0 <= j < |rooms[i].assignments| ==>
      lo <= rooms[i].assignments[j].2 <= hi
  }

  lemma {:induction false} RoomPrefsBounds(ts: seq<AssignmentTuple>, lo: int, hi: int)
    requires forall j :: 0 <= j < |ts| ==> lo <= ts[j].2 <= hi
    ensures lo * |ts| <= RoomPrefs(ts) <= hi * |ts|
  {
    if ts != [] {
      assert forall j :: 0 <= j < |ts[1..]| ==> ts[1..][j] == ts[j + 1];
      RoomPrefsBounds(ts[1..], lo, hi);
      assert lo * |ts| == lo + lo * |ts[1..]|;
      assert hi * |ts| == hi + hi * |ts[1..]|;
    }
  }

  /** The total lies between `lo` and `hi` times the number of assignments. */
  lemma {:induction false} TotalBounds(rooms: seq<AlgoRoom>, lo: int, hi: int)
    requires PrefsWithin(rooms, lo, hi)
    ensures lo * AssignmentCount(rooms) <= SumPrefs(rooms) <= hi * AssignmentCount(rooms)
  {
    if rooms != [] {
      var first, rest := rooms[0].assignments, rooms[1..];
      assert forall j :: 0 <= j < |first| ==> lo <= first[j].2 <= hi;
      RoomPrefsBounds(first, lo, hi);
      assert PrefsWithin(rest, lo, hi) by {
        forall i, j | 0 <= i < |rest| && 0 <= j < |rest[i].assignments|
          ensures lo <= rest[i].assignments[j].2 <= hi
        {
          assert rest[i] == rooms[i + 1];
        }
      }
      TotalBounds(rest, lo, hi);
      var a, b := |first|, AssignmentCount(rest);
      assert AssignmentCount(rooms) == a + b;
      assert SumPrefs(rooms) == RoomPrefs(first) + SumPrefs(rest);
      MulAddDistributes(lo, a, b);
      MulAddDistributes(hi, a, b);
    }
  }

  lemma MulAddDistributes(c: int, a: int, b: int)
    ensures c * (a + b) == c * a + c * b
  {
  }

  /** A total between `lo * n` and `hi * n` has its average between `lo` and `hi`. */
  lemma MeanWithin(lo: int, hi: int, n: int, total: int)
    requires n > 0
    requires lo * n <= total <= hi * n
    ensures lo as real <= AveragePreference(total, n) <= hi as real
  {
    var rn := n as real;
    var avg := AveragePreference(total, n);
    assert avg == total as real / rn;
    var below, above := total as real - (lo as real) * rn, (hi as real) * rn - total as real;
    assert below >= 0.0 && above >= 0.0 by {
      assert (lo * n) as real == (lo as real) * rn;
      assert (hi * n) as real == (hi as real) * rn;
    }
    assert avg - lo as real == below / rn;
    assert hi as real - avg == above / rn;
    QuotientNonNegative(below, rn);
    QuotientNonNegative(above, rn);
  }

  lemma QuotientNonNegative(x: real, y: real)
    requires x >= 0.0 && y > 0.0
    ensures x / y >= 0.0
  {
  }

  /** When the participant count equals the number of assignments, the
      average lies within the range of the preferences. */
  lemma AverageWithinBounds(rooms: seq<AlgoRoom>, lo: int, hi: int, response: DebateResponse)
    requires ConvertsTo(rooms, AssignmentCount(rooms), response)
    requires PrefsWithin(rooms, lo, hi)
    requires AssignmentCount(rooms) > 0
    ensures lo as real <= response.averagePreference <= hi as real
  {
    TotalBounds(rooms, lo, hi);
    MeanWithin(lo, hi, AssignmentCount(rooms), SumPrefs(rooms));
  }
}
