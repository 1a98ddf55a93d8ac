// AIMPRoom (lib/protocol.py) as an object whose fields the room handlers update in place.
// Its own methods are proved to perform the transitions RoomSpec defines.

module Room {
  import opened Common
  import opened Dicts
  import opened Protocol
  import RoomSpec

  class AIMPRoom {
    var roomId: string
    var topic: string
    var deadline: int
    var participants: seq<string>
    var initiator: string
    var artifacts: Dict<Artifact>
    var transcript: seq<HistoryEntry>
    var status: string
    var createdAt: int
    var resolutionRules: string
    var acceptedBy: seq<string>
    var currentRound: int
    var roundRespondents: seq<string>

    function State(): RoomSpec.RoomState
      reads this
    {
      RoomSpec.RoomState(roomId, topic, deadline, participants, initiator, artifacts, transcript,
                         status, createdAt, resolutionRules, acceptedBy, currentRound, roundRespondents)
    }

    /** The dataclass constructor; `now` is the clock reading behind `created_at`. */
    constructor (roomId: string, topic: string, deadline: int, participants: seq<string>,
                 initiator: string, resolutionRules: string, now: int)
      ensures State() == RoomSpec.NewRoom(roomId, topic, deadline, participants, initiator, resolutionRules, now)
    {
      this.roomId := roomId;
      this.topic := topic;
      this.deadline := deadline;
      this.participants := participants;
      this.initiator := initiator;
      artifacts := [];
      transcript := [];
      status := RoomSpec.OPEN;
      createdAt := now;
      this.resolutionRules := resolutionRules;
      acceptedBy := [];
      currentRound := 1;
      roundRespondents := [];
    }

    /** The object `from_json` builds from an already decoded state. */
    constructor FromState(st: RoomSpec.RoomState)
      ensures State() == st
    {
      roomId := st.roomId;
      topic := st.topic;
      deadline := st.deadline;
      participants := st.participants;
      initiator := st.initiator;
      artifacts := st.artifacts;
      transcript := st.transcript;
      status := st.status;
      createdAt := st.createdAt;
      resolutionRules := st.resolutionRules;
      acceptedBy := st.acceptedBy;
      currentRound := st.currentRound;
      roundRespondents := st.roundRespondents;
    }

    method AddToTranscript(fromAgent: string, action: string, summary: string)
      modifies this
      ensures State() == RoomSpec.AddToTranscript(old(State()), fromAgent, action, summary)
    {
      var version := |transcript| + 1;
      transcript := transcript + [HistoryEntry(version, fromAgent, action, summary)];
    }

    method RecordRoundReply(email: string)
      modifies this
      ensures State() == RoomSpec.RecordRoundReply(old(State()), email)
    {
      if email !in roundRespondents {
        roundRespondents := roundRespondents + [email];
      }
    }

    method AdvanceRound()
      modifies this
      ensures State() == RoomSpec.AdvanceRound(old(State()))
    {
      currentRound := currentRound + 1;
      roundRespondents := [];
    }
  }
}
