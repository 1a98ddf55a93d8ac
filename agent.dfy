// AIMPAgent (agent.py) as an object: the store it writes to and the mails it has sent.
// Each method mutates the sessions it is handed step by step, as the source does, and is
// proved to leave the agent's world (stored rows, recorded message ids, outbox) exactly as
// the corresponding AgentSpec function says. The oracle's decision, the transport's
// Message-ID, the clock and the new session id are parameters.

module Agent {
  import opened Common
  import opened Dicts
  import opened Protocol
  import SessionSpec
  import AgentSpec
  import Session
  import Store
  import Members
  import Email
  import opened Effects

  /** Human mails of one kind to a list of addresses, one address at a time. */
  lemma MailsToCons(a: string, rest: seq<string>, kind: MailKind, tag: Option<string>)
    ensures MailsTo([a] + rest, kind, tag) == [HumanMail(a, kind, tag)] + MailsTo(rest, kind, tag)
  {
    assert forall i | 0 <= i < |MailsTo([a] + rest, kind, tag)| ::
      MailsTo([a] + rest, kind, tag)[i] == ([HumanMail(a, kind, tag)] + MailsTo(rest, kind, tag))[i];
  }

  lemma MailsToSnoc(xs: seq<string>, k: nat, kind: MailKind, tag: Option<string>)
    requires k < |xs|
    ensures MailsTo(xs[..k + 1], kind, tag) == MailsTo(xs[..k], kind, tag) + [HumanMail(xs[k], kind, tag)]
  {
    assert forall i | 0 <= i < k + 1 ::
      MailsTo(xs[..k + 1], kind, tag)[i] == (MailsTo(xs[..k], kind, tag) + [HumanMail(xs[k], kind, tag)])[i];
  }

  class AIMPAgent {
    const agentEmail: string
    const ownerEmail: string
    const contacts: map<string, AgentSpec.Contact>
    /** The configured preferences, which the agent's own proposals offer and vote for. */
    const prefs: AgentSpec.Prefs
    /** Who `_notify_owner_confirmed` tells: the owner, or (the hub's override) its members. */
    var notifier: AgentSpec.Notifier
    const store: Store.SessionStore
    /** Every mail handed to the transport, in order. */
    var outbox: seq<Outbound>

    function World(): AgentSpec.World
      reads this, store
    {
      AgentSpec.World(store.sessions, store.sentMessages, outbox)
    }

    predicate Valid()
      reads this, store
    {
      store.Valid()
    }

    /** `__init__` with the configuration already read; nothing has been sent yet. */
    constructor (agentEmail: string, ownerEmail: string, contacts: map<string, AgentSpec.Contact>,
                 prefs: AgentSpec.Prefs, notifier: AgentSpec.Notifier, store: Store.SessionStore)
      requires store.Valid()
      ensures Valid() && outbox == []
      ensures this.agentEmail == agentEmail && this.ownerEmail == ownerEmail && this.contacts == contacts
      ensures this.prefs == prefs && this.notifier == notifier && this.store == store
    {
      this.agentEmail := agentEmail;
      this.ownerEmail := ownerEmail;
      this.contacts := contacts;
      this.prefs := prefs;
      this.notifier := notifier;
      this.store := store;
      outbox := [];
    }

    /** `send_aimp_email` with the References built from the store, then the id and the session saved. */
    method SendAimp(s: Session.AIMPSession, suffix: string, inReplyTo: Option<string>, msgId: string, now: int)
      requires Valid()
      modifies this, store
      ensures notifier == old(notifier)
      ensures Valid()
      ensures World() == AgentSpec.SendAimp(old(World()), agentEmail, s.State(), suffix, inReplyTo, msgId, now)
    {
      var refs := store.LoadMessageIds(s.sessionId);
      if Truthy(inReplyTo) && inReplyTo.value !in refs {
        refs := refs + [inReplyTo.value];
      }
      outbox := outbox + [AimpMail(Recipients(s.participants, agentEmail), s.sessionId, s.version, suffix,
                                   SessionSpec.ToJson(s.State()), refs, inReplyTo)];
      store.SaveMessageId(s.sessionId, msgId);
      store.Save(s, now);
    }

    /** `_send_reply`. */
    method SendReply(s: Session.AIMPSession, action: string, inReplyTo: Option<string>, reason: string, msgId: string, now: int)
      requires Valid()
      modifies this, store, s
      ensures notifier == old(notifier)
      ensures Valid()
      ensures s.State() == AgentSpec.ReplyState(old(s.State()), agentEmail, action, reason)
      ensures World() == AgentSpec.ReplyWorld(old(World()), agentEmail, old(s.State()), action, reason, inReplyTo, msgId, now)
    {
      s.BumpVersion();
      s.AddHistory(agentEmail, action, if reason != "" then reason else action);
      SendAimp(s, s.topic, inReplyTo, msgId, now);
    }

    /** The hub's `_notify_members` in email mode: one mail per listed member that has an address. */
    method NotifyMembers(members: Members.Members, ids: seq<string>)
      modifies this`outbox
      ensures outbox == old(outbox) + MailsTo(Members.MemberAddresses(members, ids), MemberNotify, None)
    {
      var k := 0;
      while k < |ids|
        invariant 0 <= k <= |ids|
        invariant old(outbox) + MailsTo(Members.MemberAddresses(members, ids), MemberNotify, None)
               == outbox + MailsTo(Members.MemberAddresses(members, ids[k..]), MemberNotify, None)
      {
        var m := Members.MemberOr(members, ids[k]);
        assert ids[k..][1..] == ids[k + 1..];
        if Truthy(m.email) {
          MailsToCons(m.email.value, Members.MemberAddresses(members, ids[k + 1..]), MemberNotify, None);
          outbox := outbox + [HumanMail(m.email.value, MemberNotify, None)];
        }
        k := k + 1;
      }
      assert ids[k..] == [];
    }

    /** `_notify_owner_confirmed`, and the hub's override of it, which mails the session's internal members or the admins. */
    method NotifyOwnerConfirmed(s: Session.AIMPSession)
      modifies this`outbox
      ensures outbox == old(outbox) + AgentSpec.ConfirmMails(notifier, store.sentMessages, s.State())
    {
      if notifier.OwnerNotify? {
        outbox := outbox + [HumanMail(notifier.ownerEmail, OwnerConfirmed, None)];
      } else {
        var refs := store.LoadMessageIds(s.sessionId);
        var ids := Members.LoadInternalMembers(refs);
        if ids == [] {
          ids := Members.AdminIds(notifier.members);
        }
        NotifyMembers(notifier.members, ids);
      }
    }

    /** `_send_confirm`. */
    method SendConfirm(s: Session.AIMPSession, inReplyTo: Option<string>, msgId: string, now: int)
      requires Valid()
      modifies this, store, s
      ensures notifier == old(notifier)
      ensures Valid()
      ensures s.State() == AgentSpec.ConfirmState(old(s.State()), agentEmail)
      ensures World() == AgentSpec.ConfirmWorld(old(World()), agentEmail, notifier, old(s.State()), inReplyTo, msgId, now)
    {
      s.status := SessionSpec.CONFIRMED;
      s.BumpVersion();
      s.AddHistory(agentEmail, CONFIRM, AgentSpec.CONFIRM_SUMMARY);
      SendAimp(s, s.topic + AgentSpec.CONFIRMED_SUFFIX, inReplyTo, msgId, now);
      NotifyOwnerConfirmed(s);
    }

    /** `_escalate_to_owner`. */
    method EscalateToOwner(s: Session.AIMPSession, now: int)
      requires Valid()
      modifies this, store, s
      ensures notifier == old(notifier)
      ensures Valid()
      ensures s.State() == AgentSpec.EscalateState(old(s.State()))
      ensures World() == AgentSpec.EscalateWorld(old(World()), ownerEmail, old(s.State()), now)
    {
      s.status := SessionSpec.ESCALATED;
      store.Save(s, now);
      outbox := outbox + [HumanMail(ownerEmail, OwnerEscalation, Some(s.sessionId))];
    }

    /** The loop over the decision's votes: falsy choices skipped, a ValueError swallowed, a KeyError raised. */
    method ApplyDecisionVotes(s: Session.AIMPSession, voter: string, votes: Dict<Option<string>>) returns (raised: Option<Failure>)
      modifies s
      ensures SessionSpec.Applied(s.State(), raised) == AgentSpec.DecisionVotes(old(s.State()), voter, votes)
    {
      var i := 0;
      while i < |votes|
        invariant 0 <= i <= |votes|
        invariant AgentSpec.DecisionVotes(old(s.State()), voter, votes) == AgentSpec.DecisionVotes(s.State(), voter, votes[i..])
      {
        assert votes[i..][1..] == votes[i + 1..];
        if Truthy(votes[i].1) {
          var r := s.ApplyVote(voter, votes[i].0, votes[i].1.value);
          if r.Some? && r.value.KeyError? {
            return r;
          }
        }
        i := i + 1;
      }
      return None;
    }

    /** `for item, opts in new_options.items(): for opt in (opts or []): session.add_option(item, opt)`. */
    method AddNewOptions(s: Session.AIMPSession, newOptions: Dict<Option<seq<string>>>)
      modifies s
      ensures s.State() == AgentSpec.AddAllOptions(old(s.State()), newOptions)
    {
      var i := 0;
      while i < |newOptions|
        invariant 0 <= i <= |newOptions|
        invariant AgentSpec.AddAllOptions(old(s.State()), newOptions) == AgentSpec.AddAllOptions(s.State(), newOptions[i..])
      {
        assert newOptions[i..][1..] == newOptions[i + 1..];
        var name := newOptions[i].0;
        var opts := newOptions[i].1.GetOr([]);
        ghost var before := s.State();
        var j := 0;
        while j < |opts|
          invariant 0 <= j <= |opts|
          invariant AgentSpec.AddOptions(before, name, opts) == AgentSpec.AddOptions(s.State(), name, opts[j..])
        {
          assert opts[j..][1..] == opts[j + 1..];
          s.AddOption(name, opts[j]);
          j := j + 1;
        }
        assert opts[j..] == [];
        i := i + 1;
      }
      assert newOptions[i..] == [];
    }

    /** The oracle's votes and new options, then the second resolution check (agent.py's last rungs). */
    method AnswerWithDecision(s: Session.AIMPSession, d: AgentSpec.Decision, messageId: string, msgId: string, now: int)
      returns (events: Result<seq<Event>>)
      requires Valid()
      requires !AgentSpec.AlreadyConfirmed(s.State()) && !AgentSpec.StallsOut(s.State())
      requires !SessionSpec.IsFullyResolved(s.State()) && d.action != ESCALATE
      modifies this, store, s
      ensures notifier == old(notifier)
      ensures Valid()
      ensures var plan := AgentSpec.AimpPlan(old(s.State()), agentEmail, d);
              World() == AgentSpec.Perform(old(World()), agentEmail, ownerEmail, notifier, plan, Some(messageId), msgId, now)
              && events == AgentSpec.PlanEvents(plan, agentEmail)
    {
      ghost var plan := AgentSpec.AimpPlan(s.State(), agentEmail, d);
      var raised := ApplyDecisionVotes(s, agentEmail, d.votes);
      if raised.Some? {
        return Err(raised.value);
      }
      AddNewOptions(s, d.newOptions);
      assert s.State() == plan.st;
      if SessionSpec.IsFullyResolved(s.State()) {
        SendConfirm(s, Some(messageId), msgId, now);
        return Ok([AgentSpec.ConsensusEvent(s.State())]);
      }
      SendReply(s, d.action, Some(messageId), d.reason.GetOr(""), msgId, now);
      return Ok([ReplySent(s.sessionId, d.action, s.version)]);
    }

    /** The ladder of `_handle_aimp_email` once the incoming session is saved. */
    method AnswerAimp(s: Session.AIMPSession, d: AgentSpec.Decision, messageId: string, msgId: string, now: int)
      returns (events: Result<seq<Event>>)
      requires Valid()
      modifies this, store, s
      ensures notifier == old(notifier)
      ensures Valid()
      ensures var plan := AgentSpec.AimpPlan(old(s.State()), agentEmail, d);
              World() == AgentSpec.Perform(old(World()), agentEmail, ownerEmail, notifier, plan, Some(messageId), msgId, now)
              && events == AgentSpec.PlanEvents(plan, agentEmail)
    {
      if AgentSpec.AlreadyConfirmed(s.State()) {
        events := AnswerConfirmed(s, d, messageId, msgId, now);
        return;
      }
      if AgentSpec.StallsOut(s.State()) {
        events := AnswerStalled(s, d, messageId, msgId, now);
        return;
      }
      events := AnswerOpen(s, d, messageId, msgId, now);
    }

    /** The first rung: a session already confirmed is acknowledged to whoever is notified. */
    method AnswerConfirmed(s: Session.AIMPSession, d: AgentSpec.Decision, messageId: string, msgId: string, now: int)
      returns (events: Result<seq<Event>>)
      requires Valid() && AgentSpec.AlreadyConfirmed(s.State())
      modifies this`outbox
      ensures Valid()
      ensures var plan := AgentSpec.AimpPlan(old(s.State()), agentEmail, d);
              World() == AgentSpec.Perform(old(World()), agentEmail, ownerEmail, notifier, plan, Some(messageId), msgId, now)
              && events == AgentSpec.PlanEvents(plan, agentEmail)
    {
      NotifyOwnerConfirmed(s);
      return Ok([AgentSpec.ConsensusEvent(s.State())]);
    }

    /** The second rung: a stalled session is escalated to the owner. */
    method AnswerStalled(s: Session.AIMPSession, d: AgentSpec.Decision, messageId: string, msgId: string, now: int)
      returns (events: Result<seq<Event>>)
      requires Valid() && !AgentSpec.AlreadyConfirmed(s.State()) && AgentSpec.StallsOut(s.State())
      modifies this, store, s
      ensures notifier == old(notifier)
      ensures Valid()
      ensures var plan := AgentSpec.AimpPlan(old(s.State()), agentEmail, d);
              World() == AgentSpec.Perform(old(World()), agentEmail, ownerEmail, notifier, plan, Some(messageId), msgId, now)
              && events == AgentSpec.PlanEvents(plan, agentEmail)
    {
      events := Ok([Escalation(s.sessionId, s.topic, AgentSpec.STALL_REASON, s.proposals)]);
      EscalateToOwner(s, now);
    }

    /** The rungs after the confirmed and stalled checks: resolved, the oracle's escalation, its votes. */
    method AnswerOpen(s: Session.AIMPSession, d: AgentSpec.Decision, messageId: string, msgId: string, now: int)
      returns (events: Result<seq<Event>>)
      requires Valid()
      requires !AgentSpec.AlreadyConfirmed(s.State()) && !AgentSpec.StallsOut(s.State())
      modifies this, store, s
      ensures notifier == old(notifier)
      ensures Valid()
      ensures var plan := AgentSpec.AimpPlan(old(s.State()), agentEmail, d);
              World() == AgentSpec.Perform(old(World()), agentEmail, ownerEmail, notifier, plan, Some(messageId), msgId, now)
              && events == AgentSpec.PlanEvents(plan, agentEmail)
    {
      if SessionSpec.IsFullyResolved(s.State()) {
        SendConfirm(s, Some(messageId), msgId, now);
        return Ok([AgentSpec.ConsensusEvent(s.State())]);
      }
      if d.action == ESCALATE {
        events := Ok([Escalation(s.sessionId, s.topic, d.reason.GetOr(""), s.proposals)]);
        EscalateToOwner(s, now);
        return;
      }
      events := AnswerWithDecision(s, d, messageId, msgId, now);
    }

    /** `_handle_aimp_email`. */
    method HandleAimpEmail(data: Option<SessionSpec.SessionData>, d: AgentSpec.Decision, messageId: string,
                           msgId: string, now: int) returns (events: Result<seq<Event>>)
      requires Valid()
      modifies this, store
      ensures notifier == old(notifier)
      ensures Valid()
      ensures AgentSpec.Outcome(World(), events)
           == AgentSpec.HandleAimp(old(World()), agentEmail, ownerEmail, notifier, data, d, messageId, msgId, now)
    {
      if AgentSpec.NoData(data) {
        return Ok([]);
      }
      var decoded := SessionSpec.FromJson(data.value, now);
      if decoded.Err? {
        return Err(decoded.error);
      }
      var s := new Session.AIMPSession.FromState(decoded.value);
      store.Save(s, now);
      events := AnswerAimp(s, d, messageId, msgId, now);
    }

    /** `_handle_human_email`. */
    method HandleHumanEmail(p: Email.ParsedEmail, d: AgentSpec.Decision, msgId: string, now: int)
      returns (events: Result<seq<Event>>)
      requires Valid()
      modifies this, store
      ensures notifier == old(notifier)
      ensures Valid()
      ensures AgentSpec.Outcome(World(), events)
           == AgentSpec.HandleHuman(old(World()), agentEmail, ownerEmail, notifier, p, d, msgId, now)
    {
      if !Truthy(p.sessionId) {
        return Ok([]);
      }
      var s := store.Load(p.sessionId.value, now);
      if s == null {
        return Ok([]);
      }
      events := AnswerHuman(s, p, d, msgId, now);
    }

    /** The ladder of `_handle_human_email` once the session is loaded: the sender's votes first. */
    method AnswerHuman(s: Session.AIMPSession, p: Email.ParsedEmail, d: AgentSpec.Decision, msgId: string, now: int)
      returns (events: Result<seq<Event>>)
      requires Valid()
      modifies this, store, s
      ensures notifier == old(notifier)
      ensures Valid()
      ensures var plan := AgentSpec.HumanPlan(old(s.State()), p.sender, d);
              World() == AgentSpec.Perform(old(World()), agentEmail, ownerEmail, notifier, plan, Some(p.messageId), msgId, now)
              && events == AgentSpec.PlanEvents(plan, agentEmail)
    {
      var raised := ApplyDecisionVotes(s, p.sender, d.votes);
      if raised.Some? {
        return Err(raised.value);
      }
      if SessionSpec.IsFullyResolved(s.State()) {
        SendConfirm(s, Some(p.messageId), msgId, now);
        return Ok([AgentSpec.ConsensusEvent(s.State())]);
      }
      if d.action == ESCALATE {
        events := Ok([Escalation(s.sessionId, s.topic, d.reason.GetOr(""), s.proposals)]);
        EscalateToOwner(s, now);
        return;
      }
      SendReply(s, d.action, Some(p.messageId), d.reason.GetOr(""), msgId, now);
      return Ok([ReplySent(s.sessionId, d.action, s.version)]);
    }

    /** `handle_email`. */
    method HandleEmail(p: Email.ParsedEmail, decode: seq<bv8> -> Option<SessionSpec.SessionData>, d: AgentSpec.Decision,
                       msgId: string, now: int) returns (events: Result<seq<Event>>)
      requires Valid()
      modifies this, store
      ensures notifier == old(notifier)
      ensures Valid()
      ensures AgentSpec.Outcome(World(), events)
           == AgentSpec.HandleEmail(old(World()), agentEmail, ownerEmail, notifier, p, decode, d, msgId, now)
    {
      if p.sender == agentEmail {
        return Ok([]);
      }
      if Email.IsAimpEmail(p) {
        events := HandleAimpEmail(Email.ExtractProtocolJson(p.attachments, decode), d, p.messageId, msgId, now);
      } else {
        events := HandleHumanEmail(p, d, msgId, now);
      }
    }

    /** The loop of `initiate_meeting` over the participant names. */
    method RouteParticipants(names: seq<string>) returns (o: Result<AgentSpec.Routing>)
      ensures o == AgentSpec.RouteAll(AgentSpec.StartRouting(agentEmail), contacts, names)
    {
      var participants := [agentEmail];
      var toAgents: seq<string> := [];
      var toHumans: seq<string> := [];
      var i := 0;
      while i < |names|
        invariant 0 <= i <= |names|
        invariant AgentSpec.RouteAll(AgentSpec.StartRouting(agentEmail), contacts, names)
               == AgentSpec.RouteAll(AgentSpec.Routing(participants, toAgents, toHumans), contacts, names[i..])
      {
        assert names[i..][1..] == names[i + 1..];
        var name := names[i];
        if name !in contacts {
          if '@' in name {
            participants := participants + [name];
            toHumans := toHumans + [name];
          }
        } else {
          var c := contacts[name];
          if c.hasAgent {
            if c.agentEmail.None? {
              return Err(KeyError("agent_email"));
            }
            participants := participants + [c.agentEmail.value];
            toAgents := toAgents + [c.agentEmail.value];
          } else {
            if c.humanEmail.None? {
              return Err(KeyError("human_email"));
            }
            participants := participants + [c.humanEmail.value];
            toHumans := toHumans + [c.humanEmail.value];
          }
        }
        i := i + 1;
      }
      assert names[i..] == [];
      return Ok(AgentSpec.Routing(participants, toAgents, toHumans));
    }

    /** `for t in opts: session.add_option(name, t)`. */
    method AddEach(s: Session.AIMPSession, name: string, opts: seq<string>)
      modifies s
      ensures s.State() == AgentSpec.AddOptions(old(s.State()), name, opts)
    {
      var j := 0;
      while j < |opts|
        invariant 0 <= j <= |opts|
        invariant AgentSpec.AddOptions(old(s.State()), name, opts) == AgentSpec.AddOptions(s.State(), name, opts[j..])
      {
        assert opts[j..][1..] == opts[j + 1..];
        s.AddOption(name, opts[j]);
        j := j + 1;
      }
      assert opts[j..] == [];
    }

    /** The session `initiate_meeting` builds before saving it. */
    method BuildInitialSession(sessionId: string, topic: string, participants: seq<string>, prefs: AgentSpec.Prefs, now: int)
      returns (s: Session.AIMPSession)
      ensures fresh(s)
      ensures s.State() == AgentSpec.InitialSession(sessionId, topic, participants, agentEmail, prefs, now)
    {
      s := new Session.AIMPSession(sessionId, topic, participants, agentEmail, now);
      var times := prefs.preferredTimes;
      var locs := prefs.preferredLocations;
      AddEach(s, SessionSpec.TIME, times);
      AddEach(s, SessionSpec.LOCATION, locs);
      VoteFirst(s, SessionSpec.TIME, times);
      VoteFirst(s, SessionSpec.LOCATION, locs);
      s.BumpVersion();
      s.AddHistory(agentEmail, PROPOSE, AgentSpec.InitiatedSummary(topic));
    }

    /** `if prefs: session.apply_vote(self, name, prefs[0])`. */
    method VoteFirst(s: Session.AIMPSession, name: string, prefs: seq<string>)
      modifies s
      ensures s.State() == AgentSpec.VoteFirst(old(s.State()), agentEmail, name, prefs).st
    {
      if |prefs| > 0 {
        var _ := s.ApplyVote(agentEmail, name, prefs[0]);
      }
    }

    /** The fallback invitations, one per human participant. */
    method SendInvitations(toHumans: seq<string>, sessionId: string)
      modifies this`outbox
      ensures outbox == old(outbox) + MailsTo(toHumans, Invitation, Some(sessionId))
    {
      var k := 0;
      while k < |toHumans|
        invariant 0 <= k <= |toHumans|
        invariant outbox == old(outbox) + MailsTo(toHumans[..k], Invitation, Some(sessionId))
      {
        MailsToSnoc(toHumans, k, Invitation, Some(sessionId));
        outbox := outbox + [HumanMail(toHumans[k], Invitation, Some(sessionId))];
        k := k + 1;
      }
      assert toHumans[..k] == toHumans;
    }

    /** `initiate_meeting`, with the session id `meeting-<time>-<hex>` passed in. */
    method InitiateMeeting(topic: string, names: seq<string>, sessionId: string, msgId: string, now: int)
      returns (r: Result<string>)
      requires Valid()
      modifies this, store
      ensures notifier == old(notifier)
      ensures Valid()
      ensures AgentSpec.Initiated(World(), r)
           == AgentSpec.InitiateWorld(old(World()), agentEmail, contacts, prefs, topic, names, sessionId, msgId, now)
      ensures store.rooms == old(store.rooms)
    {
      var routed := RouteParticipants(names);
      if routed.Err? {
        return Err(routed.error);
      }
      var routing := routed.value;
      var s := BuildInitialSession(sessionId, topic, routing.participants, prefs, now);
      Dispatch(routing, sessionId, topic, s, msgId, now);
      return Ok(sessionId);
    }

    /** The second half of `initiate_meeting`: save, the protocol mail to the agents, the invitations. */
    method Dispatch(routing: AgentSpec.Routing, sessionId: string, topic: string, s: Session.AIMPSession,
                    msgId: string, now: int)
      requires Valid()
      modifies this`outbox, store
      ensures Valid() && store.rooms == old(store.rooms)
      ensures World() == AgentSpec.Dispatch(old(World()), routing, sessionId, topic, s.State(), msgId, now)
    {
      store.Save(s, now);
      if |routing.toAgents| > 0 {
        outbox := outbox + [AimpMail(routing.toAgents, sessionId, s.version, topic, SessionSpec.ToJson(s.State()), [], None)];
        store.SaveMessageId(sessionId, msgId);
      }
      SendInvitations(routing.toHumans, sessionId);
    }
  }
}
