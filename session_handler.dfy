// The session handler's methods (handlers/session_handler.py) over the hub object: they
// mutate the session they are handed step by step, as the source does, and each is proved
// to perform exactly the transition SessionHandlerSpec defines. The transport's Message-ID,
// the clock, the new session id and the reply parser's votes are parameters.

module SessionHandler {
  import opened Common
  import opened Dicts
  import opened Effects
  import SessionSpec
  import SessionHandlerSpec
  import Members
  import AgentSpec
  import Session
  import Store
  import Hub
  import Protocol
  import Agent

  /** The member-address comprehension of `_initiate_internal_meeting`. */
  method MemberEmails(members: Members.Members, memberIds: seq<string>) returns (emails: seq<string>)
    ensures emails == Members.MemberAddresses(members, memberIds)
  {
    emails := [];
    var i := 0;
    while i < |memberIds|
      invariant 0 <= i <= |memberIds|
      invariant emails + Members.MemberAddresses(members, memberIds[i..]) == Members.MemberAddresses(members, memberIds)
    {
      assert memberIds[i..][1..] == memberIds[i + 1..];
      var m := Members.MemberOr(members, memberIds[i]);
      if Truthy(m.email) {
        emails := emails + [m.email.value];
      }
      i := i + 1;
    }
    assert memberIds[i..] == [];
  }

  /**
   * `_initiate_internal_meeting` of the session mixin: the session with the hub and every member
   * address is saved, then each listed member with an address is asked for their availability.
   */
  method InitiateCoordinatedMeeting(hub: Hub.AIMPHubAgent, topic: string, memberIds: seq<string>, sessionId: string, now: int)
    returns (r: string)
    requires hub.Valid()
    modifies hub.agent, hub.agent.store
    ensures hub.Valid()
    ensures r == sessionId
    ensures hub.agent.World()
         == SessionHandlerSpec.CoordinatedWorld(old(hub.agent.World()), hub.members, hub.hubEmail, topic, memberIds, sessionId, now)
  {
    var emails := MemberEmails(hub.members, memberIds);
    var s := new Session.AIMPSession(sessionId, topic, [hub.hubEmail] + emails, hub.hubEmail, now);
    s.BumpVersion();
    s.AddHistory(hub.hubEmail, Protocol.PROPOSE, SessionHandlerSpec.COORDINATION_SUMMARY);
    hub.agent.store.Save(s, now);
    RequestAvailability(hub.agent, hub.members, memberIds, sessionId);
    r := sessionId;
  }

  /** The loop of `_initiate_internal_meeting` that asks every listed member with an address. */
  method RequestAvailability(agent: Agent.AIMPAgent, members: Members.Members, memberIds: seq<string>, sessionId: string)
    modifies agent`outbox
    ensures agent.outbox == old(agent.outbox) + MailsTo(Members.MemberAddresses(members, memberIds), AvailabilityRequest, Some(sessionId))
  {
    var k := 0;
    while k < |memberIds|
      invariant 0 <= k <= |memberIds|
      invariant old(agent.outbox) + MailsTo(Members.MemberAddresses(members, memberIds), AvailabilityRequest, Some(sessionId))
             == agent.outbox + MailsTo(Members.MemberAddresses(members, memberIds[k..]), AvailabilityRequest, Some(sessionId))
    {
      var m := Members.MemberOr(members, memberIds[k]);
      assert memberIds[k..][1..] == memberIds[k + 1..];
      if Truthy(m.email) {
        Agent.MailsToCons(m.email.value, Members.MemberAddresses(members, memberIds[k + 1..]), AvailabilityRequest, Some(sessionId));
        agent.outbox := agent.outbox + [HumanMail(m.email.value, AvailabilityRequest, Some(sessionId))];
      }
      k := k + 1;
    }
    assert memberIds[k..] == [];
  }

  /** `_apply_votes_from_protocol`, item by item and option by option. */
  method ApplyProtocolVotes(s: Session.AIMPSession, proto: SessionSpec.SessionData, voter: string)
    modifies s
    ensures s.State() == SessionHandlerSpec.ApplyProtocolVotes(old(s.State()), proto, voter)
  {
    var items := proto.proposals.GetOr([]);
    var i := 0;
    while i < |items|
      invariant 0 <= i <= |items|
      invariant SessionHandlerSpec.ApplyItems(s.State(), voter, items[i..])
             == SessionHandlerSpec.ApplyItems(old(s.State()), voter, items)
    {
      assert items[i..][1..] == items[i + 1..];
      var name := items[i].0;
      var opts := items[i].1.options.GetOr([]);
      ghost var before := s.State();
      var j := 0;
      while j < |opts|
        invariant 0 <= j <= |opts|
        invariant SessionHandlerSpec.OfferListed(s.State(), name, opts[j..]) == SessionHandlerSpec.OfferListed(before, name, opts)
      {
        assert opts[j..][1..] == opts[j + 1..];
        if opts[j] != "" {
          s.AddOption(name, opts[j]);
        }
        j := j + 1;
      }
      assert opts[j..] == [];
      var choice := SessionHandlerSpec.SenderChoice(items[i].1, voter);
      if choice.Some? {
        var _ := s.ApplyVote(voter, name, choice.value);
      }
      i := i + 1;
    }
    assert items[i..] == [];
  }

  /** The human branch: each truthy choice voted, and on failure offered and voted again. */
  method ApplyHumanVotes(s: Session.AIMPSession, voter: string, votes: Dict<Option<string>>)
    modifies s
    ensures s.State() == SessionHandlerSpec.HumanVotes(old(s.State()), voter, votes)
  {
    var i := 0;
    while i < |votes|
      invariant 0 <= i <= |votes|
      invariant SessionHandlerSpec.HumanVotes(s.State(), voter, votes[i..])
             == SessionHandlerSpec.HumanVotes(old(s.State()), voter, votes)
    {
      assert votes[i..][1..] == votes[i + 1..];
      var name := votes[i].0;
      var choice := votes[i].1;
      if choice.Some? && choice.value != "" {
        ghost var before := s.State();
        var raised := s.ApplyVote(voter, name, choice.value);
        if raised.Some? {
          s.AddOption(name, choice.value);
          var again := s.ApplyVote(voter, name, choice.value);
          SessionHandlerSpec.HumanVoteLands(before, voter, name, choice.value);
          assert again.None?;
        }
      }
      i := i + 1;
    }
    assert votes[i..] == [];
  }

  /** `_send_session_reply`: one AIMP mail to everyone but the hub, then its id recorded. */
  method SendSessionReply(hub: Hub.AIMPHubAgent, s: Session.AIMPSession, suffix: string, msgId: string)
    requires hub.Valid()
    modifies hub.agent`outbox, hub.agent.store
    ensures hub.Valid()
    ensures hub.agent.store.sessions == old(hub.agent.store.sessions)
    ensures hub.agent.outbox == old(hub.agent.outbox) + [AgentSpec.AimpMailFor(old(hub.agent.World()), hub.hubEmail, s.State(), suffix, None)]
    ensures hub.agent.store.sentMessages == AppendNew(old(hub.agent.store.sentMessages), (s.sessionId, msgId))
  {
    var recipients := Recipients(s.participants, hub.agent.agentEmail);
    var refs := hub.agent.store.LoadMessageIds(s.sessionId);
    hub.agent.outbox := hub.agent.outbox + [AimpMail(recipients, s.sessionId, s.version, suffix, SessionSpec.ToJson(s.State()), refs, None)];
    hub.agent.store.SaveMessageId(s.sessionId, msgId);
  }

  /**
   * `_process_session_round`: the pending replies applied in order, the round advanced once,
   * then exactly one of confirm, escalate or counter, one broadcast, and the session saved.
   */
  method ProcessSessionRound(hub: Hub.AIMPHubAgent, s: Session.AIMPSession, pending: seq<SessionHandlerSpec.Pending>,
                             msgId: string, now: int)
    returns (events: seq<Event>)
    requires hub.Valid()
    modifies s, hub.agent`outbox, hub.agent.store
    ensures hub.Valid()
    ensures var o := SessionHandlerSpec.CloseRound(old(s.State()), hub.hubEmail, pending);
            s.State() == o.st && events == [o.event]
    ensures hub.agent.World() == SessionHandlerSpec.RoundWorld(old(hub.agent.World()), hub.hubEmail, old(s.State()), pending, msgId, now)
  {
    ApplyPendingReplies(s, pending);
    s.AdvanceRound();
    var suffix, event := DecideRound(s, hub.agent.agentEmail);
    SendSessionReply(hub, s, suffix, msgId);
    hub.agent.store.Save(s, now);
    events := [event];
  }

  /** The loop over `pending`: each reply applied in list order. */
  method ApplyPendingReplies(s: Session.AIMPSession, pending: seq<SessionHandlerSpec.Pending>)
    modifies s
    ensures s.State() == SessionHandlerSpec.ApplyPending(old(s.State()), pending)
  {
    var k := 0;
    while k < |pending|
      invariant 0 <= k <= |pending|
      invariant SessionHandlerSpec.ApplyPending(s.State(), pending[k..]) == SessionHandlerSpec.ApplyPending(old(s.State()), pending)
    {
      assert pending[k..][1..] == pending[k + 1..];
      var p := pending[k];
      if p.protocol.Some? {
        ApplyProtocolVotes(s, p.protocol.value, p.fromAddr);
      } else {
        ApplyHumanVotes(s, p.fromAddr, p.humanVotes);
      }
      k := k + 1;
    }
    assert pending[k..] == [];
  }

  /** The branch of `_process_session_round` after `advance_round`: confirm, escalate or counter. */
  method DecideRound(s: Session.AIMPSession, self_: string) returns (suffix: string, event: Event)
    modifies s
    ensures var o := SessionHandlerSpec.Decide(old(s.State()), self_);
            s.State() == o.st && suffix == o.suffix && event == o.event
  {
    if SessionSpec.IsFullyResolved(s.State()) {
      s.status := SessionSpec.CONFIRMED;
      s.BumpVersion();
      s.AddHistory(self_, Protocol.CONFIRM, SessionHandlerSpec.ROUND_CONSENSUS_SUMMARY);
      suffix := s.topic + SessionHandlerSpec.CONFIRMED_MARK;
      event := RoundConsensus(s.sessionId, SessionSpec.CheckConsensus(s.State()));
    } else if SessionSpec.IsStalled(s.State()) {
      s.status := SessionSpec.ESCALATED;
      suffix := s.topic;
      event := RoundEscalation(s.sessionId);
    } else {
      s.BumpVersion();
      s.AddHistory(self_, Protocol.COUNTER, SessionHandlerSpec.RoundSummary(s.currentRound));
      suffix := s.topic;
      event := RoundReplySent(s.sessionId, s.currentRound);
    }
  }
}
