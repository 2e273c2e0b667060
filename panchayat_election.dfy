/** The panchayat election: candidates fixed at creation, voters who
    register once, at most one vote per voter reported through a success or
    an error continuation, results and a winner; beside it a configurable
    voter validator, the recursive vote count of nested regions, and the
    pure tally update. */
module PanchayatElection {
  import opened Wrappers
  import opened JsValues
  import Sequences
  import Sorting
  import Text

  datatype Candidate = Candidate(id: string, name: string, party: string)

  /** One accepted vote. */
  datatype Ballot = Ballot(voterId: string, candidateId: string)

  /** What the success continuation receives. */
  datatype VoteInfo = VoteInfo(voterId: string, candidateId: string)

  /** A candidate with its vote count, as getResults lists it. */
  datatype ResultRow = ResultRow(id: string, name: string, party: string, votes: nat)

  // ---------------------------------------------------------------- tally

  /** A new tally with the candidate's count raised by one (set to 1 when it
      had none) and every other count as before; the given tally is a value
      and stays as it was. */
  function TallyPure(tally: map<string, nat>, candidateId: string): (r: map<string, nat>)
    ensures r.Keys == tally.Keys + {candidateId}
    ensures r[candidateId] == (if candidateId in tally then tally[candidateId] else 0) + 1
    ensures forall c :: c in tally && c != candidateId ==> r[c] == tally[c]
  {
    tally[candidateId := (if candidateId in tally then tally[candidateId] else 0) + 1]
  }

  /** The number of ballots for the candidate. */
  function VotesFor(ballots: seq<Ballot>, candidateId: string): nat {
    if ballots == [] then 0
    else VotesFor(ballots[..|ballots| - 1], candidateId) +
         (if ballots[|ballots| - 1].candidateId == candidateId then 1 else 0)
  }

  /** The tally lists exactly the candidates with ballots, each with its
      number of ballots. */
  ghost predicate TallyOf(tally: map<string, nat>, ballots: seq<Ballot>) {
    (forall c :: c in tally <==> VotesFor(ballots, c) > 0) &&
    (forall c :: c in tally ==> tally[c] == VotesFor(ballots, c))
  }

  /** The count shown for a candidate: its tally, or 0. */
  function VotesOf(tally: map<string, nat>, candidateId: string): nat {
    if candidateId in tally then tally[candidateId] else 0
  }

  lemma VotesOfTally(tally: map<string, nat>, ballots: seq<Ballot>, candidateId: string)
    requires TallyOf(tally, ballots)
    ensures VotesOf(tally, candidateId) == VotesFor(ballots, candidateId)
  {
  }

  /** Tallying the candidate of one more ballot keeps the tally true to the
      ballots. */
  lemma TallyStep(tally: map<string, nat>, ballots: seq<Ballot>, b: Ballot)
    requires TallyOf(tally, ballots)
    ensures TallyOf(TallyPure(tally, b.candidateId), ballots + [b])
  {
    var more := ballots + [b];
    assert more[..|more| - 1] == ballots;
    forall c ensures VotesFor(more, c) == VotesFor(ballots, c) + (if b.candidateId == c then 1 else 0) {
    }
  }

  lemma TallyOfNone()
    ensures TallyOf(map[], [])
  {
  }

  // ---------------------------------------------------------------- voting

  predicate IsCandidate(candidates: seq<Candidate>, candidateId: string) {
    exists i :: 0 <= i < |candidates| && candidates[i].id == candidateId
  }

  /** A voter record registerVoter accepts: an object with a non-empty string
      id and a numeric age of at least 18. */
  predicate Eligible(voter: Option<Object>) {
    voter.Some? && HasString(voter.value, "id") && voter.value["id"].s != "" &&
    HasNumber(voter.value, "age") && voter.value["age"].n >= 18.0
  }

  /** Why a vote is refused, checked in this order: the voter is not
      registered, the candidate is unknown, the voter has already voted;
      None when the vote is accepted. */
  function VoteError(voters: map<string, Object>, voted: set<string>, candidates: seq<Candidate>,
                     voterId: string, candidateId: string): (e: Option<string>)
    ensures e.None? <==> voterId in voters && IsCandidate(candidates, candidateId) && voterId !in voted
    ensures e == Some("not_registered") <==> voterId !in voters
    ensures e == Some("invalid_candidate") <==> voterId in voters && !IsCandidate(candidates, candidateId)
    ensures e == Some("already_voted") <==>
            voterId in voters && IsCandidate(candidates, candidateId) && voterId in voted
  {
    if voterId !in voters then Some("not_registered")
    else if !IsCandidate(candidates, candidateId) then Some("invalid_candidate")
    else if voterId in voted then Some("already_voted")
    else None
  }

  // ---------------------------------------------------------------- results

  /** A candidate's row under a tally. */
  function RowOf(tally: map<string, nat>): Candidate -> ResultRow {
    (c: Candidate) => ResultRow(c.id, c.name, c.party, VotesOf(tally, c.id))
  }

  /** One row per candidate, in the candidates' order. */
  function Rows(candidates: seq<Candidate>, tally: map<string, nat>): (rows: seq<ResultRow>)
    ensures |rows| == |candidates|
    ensures forall i :: 0 <= i < |rows| ==>
              rows[i] == ResultRow(candidates[i].id, candidates[i].name, candidates[i].party,
                                   VotesOf(tally, candidates[i].id))
  {
    Sequences.Map(candidates, RowOf(tally))
  }

  /** The default order: `a` has at least as many votes as `b`. */
  predicate MoreVotes(a: ResultRow, b: ResultRow) {
    a.votes >= b.votes
  }

  lemma MoreVotesOrder()
    ensures Sorting.Total(MoreVotes) && Sorting.Transitive(MoreVotes)
  {
  }

  /** The rows in the caller's order, or by votes, most first. */
  function Ranked(rows: seq<ResultRow>, order: Option<(ResultRow, ResultRow) -> bool>): seq<ResultRow> {
    Sorting.Sort(rows, order.GetOr(MoreVotes))
  }

  /** Ranking reorders the rows: by votes descending by default, and by the
      caller's order when that relates any two rows. */
  lemma RankedFacts(rows: seq<ResultRow>, order: Option<(ResultRow, ResultRow) -> bool>)
    ensures multiset(Ranked(rows, order)) == multiset(rows) && |Ranked(rows, order)| == |rows|
    ensures order.None? ==> forall i :: 0 <= i < |rows| - 1 ==> Ranked(rows, order)[i].votes >= Ranked(rows, order)[i + 1].votes
    ensures order.Some? && Sorting.Total(order.value) ==> Sorting.Sorted(Ranked(rows, order), order.value)
  {
    Sorting.SortPermutes(rows, order.GetOr(MoreVotes));
    if order.None? {
      MoreVotesOrder();
      Sorting.SortSorted(rows, MoreVotes);
    } else if Sorting.Total(order.value) {
      Sorting.SortSorted(rows, order.value);
    }
  }

  /** The first row by votes, or None when no row has a vote. */
  function Winner(rows: seq<ResultRow>): Option<ResultRow> {
    var ranked := Ranked(rows, None);
    if ranked == [] || ranked[0].votes == 0 then None else Some(ranked[0])
  }

  /** The winner is a row with the most votes, and there is none exactly
      when every count is 0. */
  lemma WinnerFacts(rows: seq<ResultRow>)
    ensures Winner(rows).None? <==> forall i :: 0 <= i < |rows| ==> rows[i].votes == 0
    ensures Winner(rows).Some? ==> Winner(rows).value in rows && Winner(rows).value.votes > 0 &&
                                   forall i :: 0 <= i < |rows| ==> rows[i].votes <= Winner(rows).value.votes
  {
    var ranked := Ranked(rows, None);
    RankedFacts(rows, None);
    MoreVotesOrder();
    forall i | 0 <= i < |rows| ensures rows[i].votes <= ranked[0].votes {
      assert rows[i] in multiset(ranked);
      var j :| 0 <= j < |ranked| && ranked[j] == rows[i];
      if j > 0 { Sorting.SortedPairwise(ranked, MoreVotes, 0, j); }
    }
    if ranked != [] {
      assert ranked[0] in multiset(rows);
    }
  }

  // ---------------------------------------------------------------- election

  /** Only registered voters have voted, each exactly once, for a known
      candidate, and the tally counts the ballots. */
  ghost predicate Consistent(candidates: seq<Candidate>, voters: map<string, Object>, voted: set<string>,
                             votes: map<string, nat>, ballots: seq<Ballot>) {
    voted <= voters.Keys &&
    (forall i, j :: 0 <= i < j < |ballots| ==> ballots[i].voterId != ballots[j].voterId) &&
    (forall v :: v in voted <==> exists i :: 0 <= i < |ballots| && ballots[i].voterId == v) &&
    (forall i :: 0 <= i < |ballots| ==> IsCandidate(candidates, ballots[i].candidateId)) &&
    TallyOf(votes, ballots)
  }

  /** Recording an accepted vote keeps the election consistent. */
  lemma ConsistentVote(candidates: seq<Candidate>, voters: map<string, Object>, voted: set<string>,
                       votes: map<string, nat>, ballots: seq<Ballot>, voterId: string, candidateId: string)
    requires Consistent(candidates, voters, voted, votes, ballots)
    requires voterId in voters && voterId !in voted && IsCandidate(candidates, candidateId)
    ensures Consistent(candidates, voters, voted + {voterId}, TallyPure(votes, candidateId),
                       ballots + [Ballot(voterId, candidateId)])
  {
    TallyStep(votes, ballots, Ballot(voterId, candidateId));
    var more := ballots + [Ballot(voterId, candidateId)];
    assert more[|more| - 1].voterId == voterId;
  }

  /** One election: the candidates, the registered voters, who has voted and
      the tally, all private to it. The ballots are the history the tally
      summarises. */
  class Election {
    const candidates: seq<Candidate>
    var voters: map<string, Object>
    var voted: set<string>
    var votes: map<string, nat>
    ghost var ballots: seq<Ballot>

    /** Only registered voters have voted, each exactly once, for a known
        candidate, and the tally counts the ballots. */
    ghost predicate Valid()
      reads this
    {
      Consistent(candidates, voters, voted, votes, ballots)
    }

    constructor (candidates: seq<Candidate>)
      ensures Valid() && this.candidates == candidates
      ensures voters == map[] && voted == {} && votes == map[] && ballots == []
    {
      this.candidates := candidates;
      voters := map[];
      voted := {};
      votes := map[];
      ballots := [];
      TallyOfNone();
    }

    /** Registers an eligible voter under its id and answers true; answers
        false, changing nothing, for a missing or ineligible record or an id
        already registered. */
    method RegisterVoter(voter: Option<Object>) returns (ok: bool)
      requires Valid()
      modifies this
      ensures Valid() && voted == old(voted) && votes == old(votes) && ballots == old(ballots)
      ensures ok <==> Eligible(voter) && voter.value["id"].s !in old(voters)
      ensures voters == if ok then old(voters)[voter.value["id"].s := voter.value] else old(voters)
    {
      if !Eligible(voter) || voter.value["id"].s in voters {
        return false;
      }
      voters := voters[voter.value["id"].s := voter.value];
      ok := true;
    }

    /** Checks the vote and answers with the result of exactly one
        continuation: onError with the reason when the vote is refused,
        changing nothing; onSuccess with the vote otherwise, after recording
        it. */
    method CastVote<R>(voterId: string, candidateId: string, onSuccess: VoteInfo -> R, onError: string -> R)
      returns (result: R)
      requires Valid()
      modifies this
      ensures Valid() && voters == old(voters)
      ensures var e := VoteError(old(voters), old(voted), candidates, voterId, candidateId);
              if e.Some? then
                result == onError(e.value) &&
                voted == old(voted) && votes == old(votes) && ballots == old(ballots)
              else
                result == onSuccess(VoteInfo(voterId, candidateId)) &&
                voted == old(voted) + {voterId} && votes == TallyPure(old(votes), candidateId) &&
                ballots == old(ballots) + [Ballot(voterId, candidateId)]
    {
      var reason: Option<string> := None;
      if voterId !in voters {
        reason := Some("not_registered");
      } else {
        var i := 0;
        while i < |candidates| && candidates[i].id != candidateId
          invariant 0 <= i <= |candidates|
          invariant forall j :: 0 <= j < i ==> candidates[j].id != candidateId
        {
          i := i + 1;
        }
        if i == |candidates| {
          reason := Some("invalid_candidate");
        } else if voterId in voted {
          reason := Some("already_voted");
        }
      }
      assert reason == VoteError(voters, voted, candidates, voterId, candidateId);
      if reason.Some? {
        return onError(reason.value);
      }
      ConsistentVote(candidates, voters, voted, votes, ballots, voterId, candidateId);
      ballots := ballots + [Ballot(voterId, candidateId)];
      voted := voted + {voterId};
      votes := TallyPure(votes, candidateId);
      result := onSuccess(VoteInfo(voterId, candidateId));
    }

    /** Every candidate with its votes, in the caller's order or by votes,
        most first. */
    function GetResults(order: Option<(ResultRow, ResultRow) -> bool>): (r: seq<ResultRow>)
      reads this
      ensures |r| == |candidates| && multiset(r) == multiset(Rows(candidates, votes))
      ensures order.None? ==> forall i :: 0 <= i < |r| - 1 ==> r[i].votes >= r[i + 1].votes
      ensures order.Some? && Sorting.Total(order.value) ==> Sorting.Sorted(r, order.value)
    {
      RankedFacts(Rows(candidates, votes), order);
      Ranked(Rows(candidates, votes), order)
    }

    /** A candidate with the most votes, or None when no vote was cast. */
    function GetWinner(): (w: Option<ResultRow>)
      reads this
      ensures w.None? <==> forall c :: c in candidates ==> VotesOf(votes, c.id) == 0
      ensures w.Some? ==> w.value in Rows(candidates, votes) && w.value.votes > 0 &&
                          forall c :: c in candidates ==> VotesOf(votes, c.id) <= w.value.votes
    {
      var rows := Rows(candidates, votes);
      WinnerFacts(rows);
      assert forall c :: c in candidates ==> exists i :: 0 <= i < |rows| && rows[i].votes == VotesOf(votes, c.id);
      Winner(rows)
    }

    /** Under the invariant, each row counts that candidate's ballots, and
        there is no winner exactly when nobody has voted. */
    lemma ResultsCountBallots()
      requires Valid()
      ensures forall row :: row in Rows(candidates, votes) ==> row.votes == VotesFor(ballots, row.id)
      ensures GetWinner().None? <==> ballots == []
    {
      var rows := Rows(candidates, votes);
      forall row | row in rows ensures row.votes == VotesFor(ballots, row.id) {
        VotesOfTally(votes, ballots, row.id);
      }
      if ballots != [] {
        var b := ballots[|ballots| - 1];
        var k :| 0 <= k < |candidates| && candidates[k].id == b.candidateId;
        assert VotesFor(ballots, b.candidateId) > 0;
        VotesOfTally(votes, ballots, b.candidateId);
        assert candidates[k] in candidates;
      }
    }
  }

  // ---------------------------------------------------------------- validator

  /** What a validator answers: valid, or not with a reason. */
  datatype Validation = Validation(valid: bool, reason: Option<string>)

  /** The first required field the voter lacks. */
  function MissingField(required: seq<string>, voter: Object): (m: Option<string>)
    ensures m.None? <==> forall i :: 0 <= i < |required| ==> required[i] in voter
    ensures m.Some? ==> m.value in required && m.value !in voter
  {
    if required == [] then None
    else if required[0] !in voter then Some(required[0])
    else MissingField(required[1..], voter)
  }

  /** The check a validator makes: every required field present, then a
      numeric age not below the minimum. */
  function Validate(minAge: real, required: seq<string>, voter: Object): (r: Validation)
    ensures r.valid <==> (forall i :: 0 <= i < |required| ==> required[i] in voter) &&
                         !(HasNumber(voter, "age") && voter["age"].n < minAge)
    ensures r.valid <==> r.reason.None?
  {
    match MissingField(required, voter)
    case Some(f) => Validation(false, Some("missing field: " + f))
    case None =>
      if HasNumber(voter, "age") && voter["age"].n < minAge then Validation(false, Some("under minimum age"))
      else Validation(true, None)
  }

  /** A validator for the given minimum age and required fields. */
  function CreateVoteValidator(minAge: real, requiredFields: seq<string>): (validate: Object -> Validation)
    ensures forall voter :: validate(voter) == Validate(minAge, requiredFields, voter)
  {
    voter => Validate(minAge, requiredFields, voter)
  }

  // ---------------------------------------------------------------- regions

  /** A region with its own votes and its sub-regions. */
  datatype Region = Region(name: string, votes: int, subRegions: seq<Region>)

  function CountVotes(r: Region): int
    decreases r
  {
    r.votes + CountAll(r.subRegions)
  }

  function CountAll(rs: seq<Region>): int
    decreases rs
  {
    if rs == [] then 0 else CountVotes(rs[0]) + CountAll(rs[1..])
  }

  /** The votes of the region and of all its sub-regions, however deep; 0
      without a region. */
  function CountVotesInRegions(region: Option<Region>): (n: int)
    ensures region.None? ==> n == 0
    ensures region.Some? ==> n == SumOwn(Flatten(region.value))
  {
    match region
    case None => 0
    case Some(r) => CountIsSumOfParts(r); CountVotes(r)
  }

  /** Every region of the tree, each before its sub-regions. */
  function Flatten(r: Region): seq<Region>
    decreases r
  {
    [r] + FlattenAll(r.subRegions)
  }

  function FlattenAll(rs: seq<Region>): seq<Region>
    decreases rs
  {
    if rs == [] then [] else Flatten(rs[0]) + FlattenAll(rs[1..])
  }

  /** The regions' own votes, added up. */
  function SumOwn(rs: seq<Region>): int {
    if rs == [] then 0 else rs[0].votes + SumOwn(rs[1..])
  }

  lemma {:induction false} SumOwnAppend(a: seq<Region>, b: seq<Region>)
    ensures SumOwn(a + b) == SumOwn(a) + SumOwn(b)
  {
    if a == [] {
      assert a + b == b;
    } else {
      assert (a + b)[1..] == a[1..] + b;
      SumOwnAppend(a[1..], b);
    }
  }

  /** The recursive count is the sum of every region's own votes. */
  lemma {:induction false} CountIsSumOfParts(r: Region)
    ensures CountVotes(r) == SumOwn(Flatten(r))
    decreases r, 1
  {
    CountAllIsSumOfParts(r.subRegions);
    SumOwnAppend([r], FlattenAll(r.subRegions));
  }

  lemma {:induction false} CountAllIsSumOfParts(rs: seq<Region>)
    ensures CountAll(rs) == SumOwn(FlattenAll(rs))
    decreases rs, 0
  {
    if rs != [] {
      CountIsSumOfParts(rs[0]);
      CountAllIsSumOfParts(rs[1..]);
      SumOwnAppend(Flatten(rs[0]), FlattenAll(rs[1..]));
    }
  }

  /** A region without sub-regions counts its own votes. */
  lemma OneLeaf(r: Region)
    requires r.subRegions == []
    ensures CountVotesInRegions(Some(r)) == r.votes
  {
    assert CountVotes(r) == r.votes + CountAll([]);
  }

  lemma FlatRegionExample()
    ensures CountVotesInRegions(Some(Region("District", 100, []))) == 100
    ensures CountVotesInRegions(None) == 0
  {
    OneLeaf(Region("District", 100, []));
  }

  /** A region over two leaf regions counts the three regions' votes. */
  lemma TwoLeaves(r: Region, b1: Region, b2: Region)
    requires b1.subRegions == [] && b2.subRegions == [] && r.subRegions == [b1, b2]
    ensures CountVotesInRegions(Some(r)) == r.votes + b1.votes + b2.votes
  {
    assert r.subRegions[1..] == [b2];
    assert CountVotes(b1) == b1.votes + CountAll([]) && CountVotes(b2) == b2.votes + CountAll([]);
    assert CountAll([b2]) == CountVotes(b2) + CountAll([]);
    assert CountAll([b1, b2]) == CountVotes(b1) + CountAll([b2]);
  }

  lemma OneLevelExample()
    ensures CountVotesInRegions(Some(Region("District", 100, [Region("Block1", 50, []), Region("Block2", 30, [])]))) == 180
  {
    TwoLeaves(Region("District", 100, [Region("Block1", 50, []), Region("Block2", 30, [])]),
              Region("Block1", 50, []), Region("Block2", 30, []));
  }

  /** A chain of three regions, each the only sub-region of the one above,
      counts the three regions' votes. */
  lemma Chain(r: Region, d: Region, b: Region)
    requires b.subRegions == [] && d.subRegions == [b] && r.subRegions == [d]
    ensures CountVotesInRegions(Some(r)) == r.votes + d.votes + b.votes
  {
    assert CountVotes(b) == b.votes + CountAll([]);
    assert CountAll([b]) == CountVotes(b) + CountAll([]);
    assert CountVotes(d) == d.votes + CountAll([b]);
    assert CountAll([d]) == CountVotes(d) + CountAll([]);
    assert CountVotes(r) == r.votes + CountAll([d]);
  }

  lemma NestedExample()
    ensures CountVotesInRegions(Some(Region("State", 10, [Region("District1", 20, [Region("Block1", 30, [])])]))) == 60
  {
    Chain(Region("State", 10, [Region("District1", 20, [Region("Block1", 30, [])])]),
          Region("District1", 20, [Region("Block1", 30, [])]), Region("Block1", 30, []));
  }

  lemma TallyPureExamples()
    ensures TallyPure(map["C1" := 5, "C2" := 3], "C1") == map["C1" := 6, "C2" := 3]
    ensures TallyPure(map["C1" := 5], "C3") == map["C1" := 5, "C3" := 1]
    ensures TallyPure(map[], "C1") == map["C1" := 1]
  {
  }

  lemma ValidatorExamples()
    ensures CreateVoteValidator(18.0, ["id", "name", "age"])(map["id" := Str("V1"), "name" := Str("Mohan"), "age" := Num(25.0)]).valid
    ensures var r := CreateVoteValidator(18.0, ["id", "name", "age"])(map["id" := Str("V1"), "name" := Str("Chhotu"), "age" := Num(16.0)]);
            !r.valid && r.reason.Some?
    ensures var r := CreateVoteValidator(18.0, ["id", "name", "age"])(map["id" := Str("V1"), "name" := Str("NoAge")]);
            !r.valid && r.reason.Some?
  {
  }

  // ---------------------------------------------------------------- scenarios

  function Candidates(): seq<Candidate> {
    [Candidate("C1", "Sarpanch Ram", "Janata"), Candidate("C2", "Pradhan Sita", "Lok"),
     Candidate("C3", "Mukhiya Gita", "Samaj")]
  }

  function VoterRecord(id: string, name: string, age: real): Object {
    map["id" := Str(id), "name" := Str(name), "age" := Num(age)]
  }

  lemma KnownCandidates()
    ensures IsCandidate(Candidates(), "C1") && IsCandidate(Candidates(), "C2")
    ensures !IsCandidate(Candidates(), "C999")
  {
    assert Candidates()[0].id == "C1" && Candidates()[1].id == "C2";
  }

  /** An adult registers once; a minor, a repeated id, null, undefined and
      an empty object are refused. */
  method RegisterVoterScenario() returns (oks: seq<bool>)
    ensures oks == [true, false, false, false, false]
  {
    var e := new Election(Candidates());
    var adult := e.RegisterVoter(Some(VoterRecord("V1", "Mohan", 25.0)));
    var minor := e.RegisterVoter(Some(VoterRecord("V2", "Chhotu", 17.0)));
    var again := e.RegisterVoter(Some(VoterRecord("V1", "Mohan Again", 30.0)));
    var missing := e.RegisterVoter(None);
    var empty := e.RegisterVoter(Some(map[]));
    oks := [adult, minor, again, missing, empty];
  }

  /** A record with a non-empty id and an age of at least 18 is eligible. */
  lemma VoterRecordFacts(id: string, name: string, age: real)
    ensures var v := VoterRecord(id, name, age);
            "id" in v && v["id"] == Str(id) && "age" in v && v["age"] == Num(age)
    ensures Eligible(Some(VoterRecord(id, name, age))) <==> id != "" && age >= 18.0
  {
    var v := VoterRecord(id, name, age);
    assert v["id"] == Str(id);
    assert v["age"] == Num(age);
  }

  /** An election over the three candidates with V1 registered. */
  method ElectionWithV1() returns (e: Election)
    ensures fresh(e) && e.Valid() && e.candidates == Candidates()
    ensures e.voters.Keys == {"V1"} && e.voted == {} && e.votes == map[] && e.ballots == []
  {
    e := new Election(Candidates());
    VoterRecordFacts("V1", "Mohan", 25.0);
    var ok := e.RegisterVoter(Some(VoterRecord("V1", "Mohan", 25.0)));
  }

  /** A valid vote is answered by the success continuation. */
  method CastVoteScenario() returns (voted: string)
    ensures voted == "voted for C1"
  {
    KnownCandidates();
    var e := ElectionWithV1();
    voted := e.CastVote("V1", "C1", (info: VoteInfo) => "voted for " + info.candidateId, (err: string) => "error: " + err);
  }

  /** An unregistered voter is answered by the error continuation. */
  method UnregisteredVoterScenario() returns (answer: string)
    ensures answer == "not_registered"
  {
    var e := new Election(Candidates());
    answer := e.CastVote("V999", "C1", (info: VoteInfo) => "success", (err: string) => err);
  }

  /** An unknown candidate is answered by the error continuation. */
  method UnknownCandidateScenario() returns (answer: string)
    ensures answer == "invalid_candidate"
  {
    KnownCandidates();
    var e := ElectionWithV1();
    answer := e.CastVote("V1", "C999", (info: VoteInfo) => "success", (err: string) => err);
  }

  /** A second vote by the same voter is answered by the error continuation. */
  method DoubleVoteScenario() returns (answer: string)
    ensures answer == "already_voted"
  {
    KnownCandidates();
    var e := ElectionWithV1();
    var _ := e.CastVote("V1", "C1", (info: VoteInfo) => "ok", (err: string) => "err");
    answer := e.CastVote("V1", "C2", (info: VoteInfo) => "success", (err: string) => err);
  }

  /** CastVote answers whatever the continuation returns. */
  method CallbackValueScenario() returns (value: int)
    ensures value == 42
  {
    KnownCandidates();
    var e := ElectionWithV1();
    value := e.CastVote("V1", "C1", (info: VoteInfo) => 42, (err: string) => -1);
  }

  /** Insertion steps that put [a, b, c] in the order [b, a, c].
      Proof scaffolding for the examples below; it models no line of the source. */
  lemma SortsAsBAC<T>(a: T, b: T, c: T, le: (T, T) -> bool)
    requires le(b, c) && !le(a, b) && le(a, c)
    ensures Sorting.Sort([a, b, c], le) == [b, a, c]
  {
    Sorting.SortThree(a, b, c, le);
    assert Sorting.Insert(b, [c], le) == [b, c];
    assert Sorting.Insert(a, [c], le) == [a, c];
    assert Sorting.Insert(a, [b, c], le) == [b] + Sorting.Insert(a, [b, c][1..], le);
    assert [b, c][1..] == [c];
  }

  /** Insertion steps that put [a, b, c] in the order [c, b, a].
      Proof scaffolding for the examples below; it models no line of the source. */
  lemma SortsAsCBA<T>(a: T, b: T, c: T, le: (T, T) -> bool)
    requires !le(b, c) && !le(a, c) && !le(a, b)
    ensures Sorting.Sort([a, b, c], le) == [c, b, a]
  {
    Sorting.SortThree(a, b, c, le);
    assert Sorting.Insert(b, [c], le) == [c] + Sorting.Insert(b, [], le);
    assert Sorting.Insert(a, [b], le) == [b] + Sorting.Insert(a, [], le);
    assert Sorting.Insert(a, [c, b], le) == [c] + Sorting.Insert(a, [c, b][1..], le);
    assert [c, b][1..] == [b];
  }

  /** Ordering rows by name, alphabetically (the order of localeCompare on
      these names). */
  predicate NameLe(a: ResultRow, b: ResultRow) {
    !Text.LexLess(b.name, a.name)
  }

  /** An election over the three candidates with V1, V2 and V3 registered. */
  method ElectionWithThreeVoters() returns (e: Election)
    ensures fresh(e) && e.Valid() && e.candidates == Candidates()
    ensures e.voters.Keys == {"V1", "V2", "V3"} && e.voted == {} && e.votes == map[] && e.ballots == []
  {
    e := new Election(Candidates());
    VoterRecordFacts("V1", "Mohan", 25.0);
    VoterRecordFacts("V2", "Sohan", 30.0);
    VoterRecordFacts("V3", "Rohan", 40.0);
    var _ := e.RegisterVoter(Some(VoterRecord("V1", "Mohan", 25.0)));
    var _ := e.RegisterVoter(Some(VoterRecord("V2", "Sohan", 30.0)));
    var _ := e.RegisterVoter(Some(VoterRecord("V3", "Rohan", 40.0)));
  }

  /** The result rows of the three candidates under any tally. */
  lemma RowsOfCandidates(tally: map<string, nat>)
    ensures Rows(Candidates(), tally) ==
            [ResultRow("C1", "Sarpanch Ram", "Janata", VotesOf(tally, "C1")),
             ResultRow("C2", "Pradhan Sita", "Lok", VotesOf(tally, "C2")),
             ResultRow("C3", "Mukhiya Gita", "Samaj", VotesOf(tally, "C3"))]
  {
    var rows := Rows(Candidates(), tally);
    assert |rows| == 3;
    assert rows[0] == ResultRow("C1", "Sarpanch Ram", "Janata", VotesOf(tally, "C1"));
    assert rows[1] == ResultRow("C2", "Pradhan Sita", "Lok", VotesOf(tally, "C2"));
    assert rows[2] == ResultRow("C3", "Mukhiya Gita", "Samaj", VotesOf(tally, "C3"));
  }

  /** An election where V1 and V2 voted for C1. */
  method TwoVotesForC1() returns (e: Election)
    ensures fresh(e) && e.Valid() && e.candidates == Candidates()
    ensures VotesOf(e.votes, "C1") == 2 && VotesOf(e.votes, "C2") == 0 && VotesOf(e.votes, "C3") == 0
  {
    KnownCandidates();
    e := ElectionWithThreeVoters();
    Vote(e, "V1", "C1");
    Vote(e, "V2", "C1");
  }

  /** Two votes for C1 show as 2 for C1. */
  method ResultsCountScenario() returns (results: seq<ResultRow>)
    ensures exists i :: 0 <= i < |results| && results[i].id == "C1" && results[i].votes == 2
  {
    var e := TwoVotesForC1();
    results := e.GetResults(None);
    RowsOfCandidates(e.votes);
    var row := Rows(e.candidates, e.votes)[0];
    assert row.id == "C1" && row.votes == 2;
    assert row in multiset(results);
  }

  /** An election where V1 voted for C1 and V2 for C2. */
  method OneEachForC1C2() returns (e: Election)
    ensures fresh(e) && e.Valid() && e.candidates == Candidates()
    ensures VotesOf(e.votes, "C1") == 1 && VotesOf(e.votes, "C2") == 1 && VotesOf(e.votes, "C3") == 0
  {
    KnownCandidates();
    e := ElectionWithThreeVoters();
    Vote(e, "V1", "C1");
    Vote(e, "V2", "C2");
  }

  /** One vote each for C1 and C2, ordered by name: Mukhiya Gita first. */
  method ResultsByNameScenario() returns (results: seq<ResultRow>)
    ensures |results| == 3 && results[0].name == "Mukhiya Gita"
  {
    var e := OneEachForC1C2();
    results := e.GetResults(Some(NameLe));
    RowsOfCandidates(e.votes);
    ByNameExample(Rows(e.candidates, e.votes));
  }

  lemma ByNameExample(rows: seq<ResultRow>)
    requires |rows| == 3 && rows[0].name == "Sarpanch Ram" && rows[1].name == "Pradhan Sita" && rows[2].name == "Mukhiya Gita"
    ensures Sorting.Sort(rows, NameLe) == [rows[2], rows[1], rows[0]]
  {
    Text.LexLessAt(rows[2].name, rows[1].name, 0);
    Text.LexLessAt(rows[2].name, rows[0].name, 0);
    Text.LexLessAt(rows[1].name, rows[0].name, 0);
    assert rows == [rows[0], rows[1], rows[2]];
    SortsAsCBA(rows[0], rows[1], rows[2], NameLe);
  }

  /** Rows with 1, 2 and 0 votes rank as the second, the first, the third. */
  lemma ByVotesExample(rows: seq<ResultRow>)
    requires |rows| == 3 && rows[0].votes == 1 && rows[1].votes == 2 && rows[2].votes == 0
    ensures Ranked(rows, None) == [rows[1], rows[0], rows[2]]
  {
    assert rows == [rows[0], rows[1], rows[2]];
    SortsAsBAC(rows[0], rows[1], rows[2], MoreVotes);
  }

  /** An accepted vote, for the scenarios below: the voter is registered and
      has not voted, and the candidate is known. */
  method Vote(e: Election, voterId: string, candidateId: string)
    requires e.Valid() && voterId in e.voters && voterId !in e.voted && IsCandidate(e.candidates, candidateId)
    modifies e
    ensures e.Valid() && e.voters == old(e.voters) && e.voted == old(e.voted) + {voterId}
    ensures e.votes == TallyPure(old(e.votes), candidateId)
    ensures forall c :: VotesOf(e.votes, c) == VotesOf(old(e.votes), c) + (if c == candidateId then 1 else 0)
  {
    var _ := e.CastVote(voterId, candidateId, (info: VoteInfo) => 0, (err: string) => 0);
  }

  /** An election where V1 and V2 voted for C2 and V3 for C1. */
  method TwoForC2OneForC1() returns (e: Election)
    ensures fresh(e) && e.Valid() && e.candidates == Candidates()
    ensures VotesOf(e.votes, "C1") == 1 && VotesOf(e.votes, "C2") == 2 && VotesOf(e.votes, "C3") == 0
  {
    KnownCandidates();
    e := ElectionWithThreeVoters();
    Vote(e, "V1", "C2");
    Vote(e, "V2", "C2");
    Vote(e, "V3", "C1");
  }

  /** Two votes for C2 and one for C1: C2 leads the default order. */
  method ResultsByVotesScenario() returns (results: seq<ResultRow>)
    ensures |results| == 3 && results[0].id == "C2" && results[0].votes == 2
  {
    var e := TwoForC2OneForC1();
    results := e.GetResults(None);
    RowsOfCandidates(e.votes);
    ByVotesExample(Rows(e.candidates, e.votes));
  }

  /** With no votes there is no winner. */
  method NoWinnerScenario() returns (none: Option<ResultRow>)
    ensures none.None?
  {
    var e := new Election(Candidates());
    none := e.GetWinner();
  }

  /** With two votes for C1 it wins. */
  method WinnerScenario() returns (winner: Option<ResultRow>)
    ensures winner.Some? && winner.value.id == "C1" && winner.value.name == "Sarpanch Ram"
  {
    var e := TwoVotesForC1();
    winner := e.GetWinner();
    RowsOfCandidates(e.votes);
    var rows := Rows(e.candidates, e.votes);
    assert rows[1].votes == 0 && rows[2].votes == 0;
    assert winner.value == rows[0];
  }
}
