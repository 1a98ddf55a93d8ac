// The state of an AIMPRoom (lib/protocol.py) as a value: artifacts, transcript, the
// acceptance list, the deadline, the shared round gate and the JSON form.

module RoomSpec {
  import opened Common
  import opened Dicts
  import opened Protocol
  import Rounds

  const OPEN := "open"
  const FINALIZED := "finalized"
  const MAJORITY := "majority"

  datatype RoomState = RoomState(
    roomId: string,
    topic: string,
    deadline: int,
    participants: seq<string>,
    initiator: string,
    artifacts: Dict<Artifact>,
    transcript: seq<HistoryEntry>,
    status: string,
    createdAt: int,
    resolutionRules: string,
    acceptedBy: seq<string>,
    currentRound: int,
    roundRespondents: seq<string>)

  /** The dataclass constructor with its field defaults; `created_at` is the clock reading. */
  function NewRoom(roomId: string, topic: string, deadline: int, participants: seq<string>,
                   initiator: string, resolutionRules: string, now: int): (st: RoomState)
    ensures st.status == OPEN && st.currentRound == 1 && st.createdAt == now
    ensures st.artifacts == [] && st.transcript == [] && st.acceptedBy == [] && st.roundRespondents == []
    ensures Numbered(st.transcript) && !AllAccepted(st)
  {
    assert |participants| > 0 ==> participants[0] in participants;
    RoomState(roomId, topic, deadline, participants, initiator, [], [], OPEN, now,
              resolutionRules, [], 1, [])
  }

  /** Transcript entries are numbered 1, 2, 3, ... in order. */
  predicate Numbered(t: seq<HistoryEntry>)
  {
    forall i | 0 <= i < |t| :: t[i].version == i + 1
  }

  /** `add_to_transcript`: the new entry's number is one more than the transcript's length. */
  function AddToTranscript(st: RoomState, fromAgent: string, action: string, summary: string): (r: RoomState)
    ensures |r.transcript| == |st.transcript| + 1 && r.transcript[..|st.transcript|] == st.transcript
    ensures r.transcript[|st.transcript|] == HistoryEntry(|st.transcript| + 1, fromAgent, action, summary)
    ensures Numbered(st.transcript) ==> Numbered(r.transcript)
    ensures r == st.(transcript := r.transcript)
  {
    st.(transcript := st.transcript + [HistoryEntry(|st.transcript| + 1, fromAgent, action, summary)])
  }

  /** `all_accepted`: false without participants, otherwise every participant has accepted. */
  predicate AllAccepted(st: RoomState)
  {
    |st.participants| > 0 && forall p | p in st.participants :: p in st.acceptedBy
  }

  /** `all_accepted` fails exactly when there is nobody, or somebody has not accepted. */
  lemma {:induction false} NotAllAccepted(st: RoomState)
    ensures !AllAccepted(st) <==> st.participants == [] || exists p | p in st.participants :: p !in st.acceptedBy
  {
    if st.participants != [] && !AllAccepted(st) {
      var p :| p in st.participants && p !in st.acceptedBy;
    }
  }

  /** `is_past_deadline`: strictly after the deadline. */
  predicate IsPastDeadline(st: RoomState, now: int)
  {
    now > st.deadline
  }

  predicate IsRoundComplete(st: RoomState)
  {
    Rounds.RoundComplete(st.currentRound, st.participants, st.initiator, st.roundRespondents)
  }

  function RecordRoundReply(st: RoomState, email: string): (r: RoomState)
    ensures r == st.(roundRespondents := Rounds.RecordReply(st.roundRespondents, email))
  {
    st.(roundRespondents := Rounds.RecordReply(st.roundRespondents, email))
  }

  /** `advance_round`: exactly one round further, nobody has replied to it yet. */
  function AdvanceRound(st: RoomState): (r: RoomState)
    ensures r.currentRound == st.currentRound + 1 && r.roundRespondents == []
    ensures !IsRoundComplete(r)
    ensures r == st.(currentRound := r.currentRound, roundRespondents := [])
  {
    Rounds.FreshRoundIncomplete(st.currentRound + 1, st.participants, st.initiator);
    st.(currentRound := st.currentRound + 1, roundRespondents := [])
  }

  // ---------------------------------------------------------------------------
  // JSON form
  // ---------------------------------------------------------------------------

  datatype RoomData = RoomData(
    roomId: Option<string>,
    topic: Option<string>,
    deadline: Option<int>,
    participants: Option<seq<string>>,
    initiator: Option<string>,
    artifacts: Option<Dict<ArtifactData>>,
    transcript: Option<seq<HistoryData>>,
    status: Option<string>,
    createdAt: Option<int>,
    resolutionRules: Option<string>,
    acceptedBy: Option<seq<string>>,
    currentRound: Option<int>,
    roundRespondents: Option<seq<string>>)

  function ArtifactsToDicts(arts: Dict<Artifact>): (r: Dict<ArtifactData>)
    ensures |r| == |arts|
    ensures forall i | 0 <= i < |r| :: r[i] == (arts[i].0, ArtifactToDict(arts[i].1))
  {
    seq(|arts|, i requires 0 <= i < |arts| => (arts[i].0, ArtifactToDict(arts[i].1)))
  }

  /** The artifacts comprehension of `from_json`: None when some artifact has no name. */
  function ArtifactsFromDicts(raw: Dict<ArtifactData>): (r: Option<Dict<Artifact>>)
    ensures r.Some? <==> forall i | 0 <= i < |raw| :: raw[i].1.name.Some?
    ensures r.Some? ==> |r.value| == |raw|
    ensures r.Some? ==> forall i | 0 <= i < |raw| :: r.value[i].0 == raw[i].0 && Some(r.value[i].1) == ArtifactFromDict(raw[i].1)
  {
    if forall i | 0 <= i < |raw| :: ArtifactFromDict(raw[i].1).Some? then
      Some(seq(|raw|, i requires 0 <= i < |raw| => (raw[i].0, ArtifactFromDict(raw[i].1).value)))
    else None
  }

  function TranscriptToDicts(t: seq<HistoryEntry>): (r: seq<HistoryData>)
    ensures |r| == |t|
    ensures forall i | 0 <= i < |r| :: r[i] == HistoryToDict(t[i])
  {
    seq(|t|, i requires 0 <= i < |t| => HistoryToDict(t[i]))
  }

  function TranscriptFromDicts(ds: seq<HistoryData>): (r: Option<seq<HistoryEntry>>)
    ensures r.Some? <==> forall i | 0 <= i < |ds| :: HistoryFromDict(ds[i]).Some?
    ensures r.Some? ==> |r.value| == |ds| && forall i | 0 <= i < |ds| :: Some(r.value[i]) == HistoryFromDict(ds[i])
  {
    if forall i | 0 <= i < |ds| :: HistoryFromDict(ds[i]).Some? then
      Some(seq(|ds|, i requires 0 <= i < |ds| => HistoryFromDict(ds[i]).value))
    else None
  }

  /** `to_json`: every field, `created_at` included. */
  function ToJson(st: RoomState): RoomData
  {
    RoomData(Some(st.roomId), Some(st.topic), Some(st.deadline), Some(st.participants),
             Some(st.initiator), Some(ArtifactsToDicts(st.artifacts)), Some(TranscriptToDicts(st.transcript)),
             Some(st.status), Some(st.createdAt), Some(st.resolutionRules), Some(st.acceptedBy),
             Some(st.currentRound), Some(st.roundRespondents))
  }

  /**
   * `from_json`: room_id is required, and so is every artifact's name and every transcript
   * entry's required keys (the first missing one is the key reported); the other keys have
   * defaults, `created_at` falling back to the clock.
   */
  function FromJson(d: RoomData, now: int): (r: Result<RoomState>)
    ensures r.Err? <==> d.roomId.None? || ArtifactsFromDicts(d.artifacts.GetOr([])).None?
                        || TranscriptFromDicts(d.transcript.GetOr([])).None?
    ensures d.roomId.None? ==> r == Err(KeyError("room_id"))
    ensures d.roomId.Some? && ArtifactsFromDicts(d.artifacts.GetOr([])).None? ==> r == Err(KeyError("name"))
    ensures d.roomId.Some? && ArtifactsFromDicts(d.artifacts.GetOr([])).Some? && r.Err? ==>
              r.error.KeyError? && r.error.key in {"version", "from", "action"}
    ensures r.Ok? ==> r.value.createdAt == d.createdAt.GetOr(now) && r.value.status == d.status.GetOr(OPEN)
    ensures r.Ok? ==> r.value.deadline == d.deadline.GetOr(0) && r.value.resolutionRules == d.resolutionRules.GetOr(MAJORITY)
  {
    if d.roomId.None? then Err(KeyError("room_id"))
    else
      match ArtifactsFromDicts(d.artifacts.GetOr([]))
      case None => Err(KeyError("name"))
      case Some(artifacts) =>
        match TranscriptFromDicts(d.transcript.GetOr([]))
        case None => Err(EntriesError(d.transcript.GetOr([])))
        case Some(transcript) =>
          Ok(RoomState(d.roomId.value, d.topic.GetOr(""), d.deadline.GetOr(0), d.participants.GetOr([]),
                       d.initiator.GetOr(""), artifacts, transcript, d.status.GetOr(OPEN),
                       d.createdAt.GetOr(now), d.resolutionRules.GetOr(MAJORITY), d.acceptedBy.GetOr([]),
                       d.currentRound.GetOr(1), d.roundRespondents.GetOr([])))
  }

  /** The room's JSON form gives back the very same room, whatever the clock says. */
  lemma {:induction false} JsonRoundTrip(st: RoomState, now: int)
    ensures FromJson(ToJson(st), now) == Ok(st)
  {
    var raw := ArtifactsToDicts(st.artifacts);
    var arts := ArtifactsFromDicts(raw);
    assert forall i | 0 <= i < |raw| :: ArtifactFromDict(raw[i].1) == Some(st.artifacts[i].1);
    assert arts.value == st.artifacts;
    var ds := TranscriptToDicts(st.transcript);
    assert forall i | 0 <= i < |ds| :: HistoryFromDict(ds[i]) == Some(st.transcript[i]);
    assert TranscriptFromDicts(ds).value == st.transcript;
  }
}
