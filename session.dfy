// AIMPSession (lib/protocol.py) as an object whose methods update its fields in place.
// Each method is proved to perform exactly the transition SessionSpec defines on the
// session's state; the queries are the SessionSpec functions applied to State().

module Session {
  import opened Common
  import opened Dicts
  import opened Protocol
  import SessionSpec
  import Rounds

  class AIMPSession {
    var sessionId: string
    var topic: string
    var participants: seq<string>
    var initiator: string
    var version: int
    var proposals: Dict<ProposalItem>
    var history: seq<HistoryEntry>
    var status: string
    var createdAt: int
    var currentRound: int
    var roundRespondents: seq<string>

    /** The session's fields as one value. */
    function State(): SessionSpec.SessionState
      reads this
    {
      SessionSpec.SessionState(sessionId, topic, participants, initiator, version, proposals,
                               history, status, createdAt, currentRound, roundRespondents)
    }

    /** `__init__`, with the clock reading passed in as `now`. */
    constructor (sessionId: string, topic: string, participants: seq<string>, initiator: string, now: int)
      ensures State() == SessionSpec.NewSession(sessionId, topic, participants, initiator, now)
    {
      this.sessionId := sessionId;
      this.topic := topic;
      this.participants := participants;
      this.initiator := if initiator != "" then initiator else if |participants| > 0 then participants[0] else "";
      version := 0;
      proposals := [(SessionSpec.TIME, SessionSpec.FreshItem(participants)),
                    (SessionSpec.LOCATION, SessionSpec.FreshItem(participants))];
      history := [];
      status := SessionSpec.NEGOTIATING;
      createdAt := now;
      currentRound := 1;
      roundRespondents := [];
    }

    /** The object `from_json` (or `clone`) builds from an already decoded state. */
    constructor FromState(st: SessionSpec.SessionState)
      ensures State() == st
    {
      sessionId := st.sessionId;
      topic := st.topic;
      participants := st.participants;
      initiator := st.initiator;
      version := st.version;
      proposals := st.proposals;
      history := st.history;
      status := st.status;
      createdAt := st.createdAt;
      currentRound := st.currentRound;
      roundRespondents := st.roundRespondents;
    }

    method BumpVersion()
      modifies this
      ensures State() == SessionSpec.BumpVersion(old(State()))
    {
      version := version + 1;
    }

    /** `ensure_participant`: one pass over the agenda items, adding missing slots. */
    method EnsureParticipant(email: string)
      modifies this
      ensures State() == SessionSpec.EnsureParticipant(old(State()), email)
    {
      if email !in participants {
        participants := participants + [email];
      }
      var items := proposals;
      var i := 0;
      while i < |items|
        invariant 0 <= i <= |items| && |items| == |proposals|
        invariant forall j | 0 <= j < i :: items[j] == (proposals[j].0, SessionSpec.AddSlot(proposals[j].1, email))
        invariant forall j | i <= j < |items| :: items[j] == proposals[j]
      {
        var (name, item) := items[i];
        if !HasKey(item.votes, email) {
          items := items[i := (name, item.(votes := Put(item.votes, email, None)))];
        }
        i := i + 1;
      }
      assert items == SessionSpec.AddSlotAll(proposals, email);
      proposals := items;
    }

    /** `add_option`: create the item with empty slots on first use, then add the option. */
    method AddOption(name: string, option: string)
      modifies this
      ensures State() == SessionSpec.AddOption(old(State()), name, option)
    {
      ghost var before := proposals;
      if !HasKey(proposals, name) {
        proposals := Put(proposals, name, SessionSpec.FreshItem(participants));
      }
      var item := Get(proposals, name).value;
      proposals := Put(proposals, name, item.AddOption(option));
      if !HasKey(before, name) {
        PutPut(before, name, SessionSpec.FreshItem(participants), item.AddOption(option));
      }
    }

    /** `apply_vote`; the exception it raises is returned. */
    method ApplyVote(voter: string, name: string, choice: string) returns (raised: Option<Failure>)
      modifies this
      ensures SessionSpec.Applied(State(), raised) == SessionSpec.ApplyVote(old(State()), voter, name, choice)
    {
      EnsureParticipant(voter);
      if !HasKey(proposals, name) {
        return Some(KeyError(name));
      }
      match Get(proposals, name).value.Vote(voter, choice)
      case Err(e) =>
        raised := Some(e);
      case Ok(voted) =>
        proposals := Put(proposals, name, voted);
        raised := None;
    }

    /** `apply_votes`: the loop over the batch, stopping at the first exception. */
    method ApplyVotes(voter: string, votes: Dict<Option<string>>) returns (raised: Option<Failure>)
      modifies this
      ensures SessionSpec.Applied(State(), raised) == SessionSpec.ApplyVotes(old(State()), voter, votes)
    {
      EnsureParticipant(voter);
      ghost var start := State();
      var i := 0;
      while i < |votes|
        invariant 0 <= i <= |votes|
        invariant SessionSpec.ApplyEach(State(), voter, votes[i..]) == SessionSpec.ApplyEach(start, voter, votes)
      {
        assert votes[i..][0] == votes[i] && votes[i..][1..] == votes[i + 1..];
        var (name, choice) := votes[i];
        if choice.Some? {
          raised := ApplyVote(voter, name, choice.value);
          if raised.Some? {
            return;
          }
        }
        i := i + 1;
      }
      raised := None;
    }

    method RecordRoundReply(email: string)
      modifies this
      ensures State() == SessionSpec.RecordRoundReply(old(State()), email)
    {
      if email !in roundRespondents {
        roundRespondents := roundRespondents + [email];
      }
    }

    method AdvanceRound()
      modifies this
      ensures State() == SessionSpec.AdvanceRound(old(State()))
    {
      currentRound := currentRound + 1;
      roundRespondents := [];
    }

    method AddHistory(fromAgent: string, action: string, summary: string)
      modifies this
      ensures State() == SessionSpec.AddHistory(old(State()), fromAgent, action, summary)
    {
      history := history + [HistoryEntry(version, fromAgent, action, summary)];
    }

    /** `clone`: a new, unaliased session built from this one's JSON form. */
    method Clone(now: int) returns (c: AIMPSession)
      ensures fresh(c)
      ensures c.State() == SessionSpec.Clone(State(), now)
    {
      c := new AIMPSession.FromState(SessionSpec.Clone(State(), now));
    }
  }
}
