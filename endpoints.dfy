/** The two scheduling endpoints: each normalises the request's
    participants, runs its strategy and assembles the response. */
module Endpoints {
  import opened Schema
  import opened Conversion

  /** A missing group (`None`) and an empty group list both become `[]`;
      a non-empty list is kept. */
  function GroupOrEmpty(group: Option<seq<string>>): (r: seq<string>)
    ensures r == [] <==> (group == None || group == Some([]))
    ensures r != [] ==> group == Some(r)
  {
    match group
    case Some(gs) => if gs != [] then gs else []
    case None => []
  }

  /** The participant list handed to the optimiser: one entry per request
      participant, in order, with name and preferences copied and the
      group normalised. */
  function PersonDataOf(participants: seq<Participant>): (r: seq<PersonData>)
    ensures |r| == |participants|
    ensures forall i :: 0 <= i < |participants| ==>
      && r[i].name == participants[i].name
      && r[i].preferences == participants[i].preferences
      && r[i].group == GroupOrEmpty(participants[i].group)
  {
    seq(|participants|, i requires 0 <= i < |participants| =>
      var p := participants[i];
      PersonData(p.name, p.preferences, GroupOrEmpty(p.group)))
  }

  /** A person-data entry resubmitted as a request participant. */
  function AsParticipant(entry: PersonData): Participant
  {
    Participant(entry.name, entry.preferences, Some(entry.group))
  }

  /** Normalisation is a projection: resubmitting its output changes nothing. */
  lemma PersonDataOfIdempotent(participants: seq<Participant>)
    ensures var once := PersonDataOf(participants);
            PersonDataOf(seq(|once|, i requires 0 <= i < |once| => AsParticipant(once[i]))) == once
  {
    var once := PersonDataOf(participants);
    var again := PersonDataOf(seq(|once|, i requires 0 <= i < |once| => AsParticipant(once[i])));
    forall i | 0 <= i < |once|
      ensures again[i] == once[i]
    {
      assert GroupOrEmpty(Some(once[i].group)) == once[i].group;
    }
  }

  /** The body both endpoints share: the strategy is the only difference.
      `optimiser` stands for building the strategy's graph, cancelling its
      cycles and generating the rooms. */
  method RunGroupAware(strategy: Strategy, request: DebateRequest,
                       optimiser: (Strategy, seq<PersonData>) -> seq<AlgoRoom>)
    returns (response: DebateResponse)
    ensures ConvertsTo(optimiser(strategy, PersonDataOf(request.participants)),
                       |request.participants|, response)
  {
    var personData := PersonDataOf(request.participants);
    var rooms := optimiser(strategy, personData);
    response := ConvertRoomsToResponse(rooms, |personData|);
  }

  /** The British Parliamentary endpoint. */
  method RunBpGroupAware(request: DebateRequest, optimiser: (Strategy, seq<PersonData>) -> seq<AlgoRoom>)
    returns (response: DebateResponse)
    ensures ConvertsTo(optimiser(BritishParliamentaryGroupAware, PersonDataOf(request.participants)),
                       |request.participants|, response)
  {
    response := RunGroupAware(BritishParliamentaryGroupAware, request, optimiser);
  }

  /** The Traditional endpoint. */
  method RunTraditionalGroupAware(request: DebateRequest, optimiser: (Strategy, seq<PersonData>) -> seq<AlgoRoom>)
    returns (response: DebateResponse)
    ensures ConvertsTo(optimiser(TraditionalGroupAware, PersonDataOf(request.participants)),
                       |request.participants|, response)
  {
    response := RunGroupAware(TraditionalGroupAware, request, optimiser);
  }

  /** Two endpoint responses whose strategies produced the same rooms for
      the same request are equal. */
  lemma EndpointsAgreeOnSameRooms(request: DebateRequest,
                                  optimiser: (Strategy, seq<PersonData>) -> seq<AlgoRoom>,
                                  bp: DebateResponse, traditional: DebateResponse)
    requires ConvertsTo(optimiser(BritishParliamentaryGroupAware, PersonDataOf(request.participants)),
                        |request.participants|, bp)
    requires ConvertsTo(optimiser(TraditionalGroupAware, PersonDataOf(request.participants)),
                        |request.participants|, traditional)
    requires optimiser(BritishParliamentaryGroupAware, PersonDataOf(request.participants))
          == optimiser(TraditionalGroupAware, PersonDataOf(request.participants))
    ensures bp == traditional
  {
    ConvertsToUnique(optimiser(BritishParliamentaryGroupAware, PersonDataOf(request.participants)),
                     |request.participants|, bp, traditional);
  }
}
