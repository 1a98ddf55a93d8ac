// AIMPHubAgent (hub_agent.py) as an object. The hub owns a standalone agent configured
// with the adapted configuration (no preferences of its own, the admin member as owner,
// the members as the audience of confirmations) and adds its member roster, the sender
// index built from it, and the meeting flows that tell members from outsiders. Each
// method is proved to leave the agent's world exactly as the HubSpec function says.

module Hub {
  import opened Common
  import opened Dicts
  import opened Effects
  import SessionSpec
  import Members
  import AgentSpec
  import Agent
  import Session
  import Store
  import Protocol
  import HubSpec
  import RegistrationSpec

  class AIMPHubAgent {
    /** The parent agent: its transport log, its store and its contacts. */
    const agent: Agent.AIMPAgent
    const hubEmail: string
    const hubName: string
    /** The `members:` section, in configuration order. */
    var members: Members.Members
    /** `_email_to_member`: lower-cased address to member id. */
    var emailIndex: map<string, string>
    /** `invite_codes`, in configuration order. */
    var inviteCodes: seq<RegistrationSpec.InviteCode>
    /** `trusted_users`, keyed by the address with every non-alphanumeric character replaced. */
    var trustedUsers: map<string, RegistrationSpec.TrustedUser>
    /** `_replied_senders`: lower-cased address to the time of the last registration guidance. */
    var repliedSenders: map<string, int>
    /**
     * The stance the hub last handed its negotiator (`negotiator.preferences`, and the raw
     * configuration's `preferences`): empty at first, the members' merged preferences after a
     * hybrid meeting. Only the decision oracle reads it.
     */
    var negotiatorPrefs: AgentSpec.Prefs

    /**
     * The agent speaks for the hub with the adapted configuration's empty preferences, and its
     * confirmations go to the current members.
     */
    predicate Valid()
      reads this, agent, agent.store
    {
      agent.Valid() && agent.agentEmail == hubEmail && agent.notifier == AgentSpec.HubNotify(members)
      && agent.prefs == HubSpec.ADAPTED_PREFS
    }

    /** `__init__` with the configuration already read: the adapted agent first, then the sender index. */
    constructor (hubEmail: string, hubName: string, members: Members.Members,
                 contacts: map<string, AgentSpec.Contact>, store: Store.SessionStore,
                 inviteCodes: seq<RegistrationSpec.InviteCode>, trustedUsers: map<string, RegistrationSpec.TrustedUser>)
      requires store.Valid()
      ensures Valid() && fresh(agent)
      ensures this.hubEmail == hubEmail && this.hubName == hubName && this.members == members
      ensures this.inviteCodes == inviteCodes && this.trustedUsers == trustedUsers && repliedSenders == map[]
      ensures negotiatorPrefs == HubSpec.ADAPTED_PREFS
      ensures emailIndex == Members.EmailIndex(members)
      ensures agent.ownerEmail == Members.GetAdminOwner(members).email && agent.prefs == HubSpec.ADAPTED_PREFS
      ensures agent.contacts == contacts && agent.store == store && agent.outbox == []
    {
      var idx := BuildIndex(members);
      agent := new Agent.AIMPAgent(hubEmail, Members.GetAdminOwner(members).email, contacts,
                                   HubSpec.ADAPTED_PREFS, AgentSpec.HubNotify(members), store);
      this.hubEmail := hubEmail;
      this.hubName := hubName;
      this.members := members;
      this.inviteCodes := inviteCodes;
      this.trustedUsers := trustedUsers;
      repliedSenders := map[];
      negotiatorPrefs := HubSpec.ADAPTED_PREFS;
      emailIndex := idx;
    }

    /** The loop of `__init__` that fills `_email_to_member`. */
    static method BuildIndex(members: Members.Members) returns (idx: map<string, string>)
      ensures idx == Members.EmailIndex(members)
    {
      idx := map[];
      var i := 0;
      while i < |members|
        invariant 0 <= i <= |members|
        invariant Members.IndexFrom(idx, members[i..]) == Members.EmailIndex(members)
      {
        assert members[i..][1..] == members[i + 1..];
        if Truthy(members[i].1.email) {
          idx := idx[Lower(members[i].1.email.value) := members[i].0];
        }
        i := i + 1;
      }
      assert members[i..] == [];
    }

    /** `identify_sender`. */
    function IdentifySender(fromEmail: string): Option<string>
      reads this
    {
      Members.IdentifySender(emailIndex, fromEmail)
    }

    /** The inner loop of `initiate_meeting`: the first member whose name or id is the given name, up to case. */
    method FindMember(name: string) returns (r: Option<string>)
      ensures r == Members.MatchMember(members, name)
    {
      var i := 0;
      while i < |members|
        invariant 0 <= i <= |members|
        invariant Members.MatchMember(members[i..], name) == Members.MatchMember(members, name)
      {
        assert members[i..][1..] == members[i + 1..];
        if Members.Denotes(members[i], name) {
          return Some(members[i].0);
        }
        i := i + 1;
      }
      return None;
    }

    /** The classification loop of `initiate_meeting`. */
    method ClassifyParticipants(names: seq<string>, initiator: Option<string>) returns (split: Members.Split)
      ensures split == Members.Classify(members, names, initiator)
    {
      var internalIds: seq<string> := [];
      var externals: seq<string> := [];
      if Truthy(initiator) && HasKey(members, initiator.value) {
        internalIds := [initiator.value];
      }
      var i := 0;
      while i < |names|
        invariant 0 <= i <= |names|
        invariant Members.SplitFrom(members, Members.Split(internalIds, externals), names[i..])
               == Members.Classify(members, names, initiator)
      {
        assert names[i..][1..] == names[i + 1..];
        var name := Strip(names[i]);
        var matched := FindMember(name);
        if Truthy(matched) {
          if matched.value !in internalIds {
            internalIds := internalIds + [matched.value];
          }
        } else {
          externals := externals + [name];
        }
        i := i + 1;
      }
      assert names[i..] == [];
      split := Members.Split(internalIds, externals);
    }

    /** `_merge_internal_prefs`: the lists extended member by member, then deduplicated. */
    method MergePrefs(ids: seq<string>) returns (r: Members.MergedPrefs)
      ensures r == Members.MergeInternalPrefs(members, ids)
    {
      var times: seq<string> := [];
      var blocked: seq<string> := [];
      var locs: seq<string> := [];
      var i := 0;
      while i < |ids|
        invariant 0 <= i <= |ids|
        invariant Members.Gathered(members, ids[..i]) == Members.MemberPrefs(times, blocked, locs)
      {
        var p := Members.MemberOr(members, ids[i]).prefs;
        assert ids[..i + 1][..i] == ids[..i];
        times := times + p.preferredTimes;
        blocked := blocked + p.blockedTimes;
        locs := locs + p.preferredLocations;
        i := i + 1;
      }
      assert ids[..i] == ids;
      r := Members.MergedPrefs(Dedup(times), Dedup(blocked), Dedup(locs), true);
    }

    /** The session `_initiate_internal_meeting` builds from the scheduling oracle's answer. */
    method BuildInternalSession(topic: string, sessionId: string, res: HubSpec.SlotResult, now: int)
      returns (s: Session.AIMPSession)
      ensures fresh(s)
      ensures s.State() == HubSpec.InternalSession(sessionId, topic, hubEmail, res, now)
    {
      s := new Session.AIMPSession(sessionId, topic, [hubEmail], hubEmail, now);
      if res.consensus {
        if Truthy(res.time) {
          s.AddOption(SessionSpec.TIME, res.time.value);
          var _ := s.ApplyVote(hubEmail, SessionSpec.TIME, res.time.value);
        }
        if Truthy(res.location) {
          s.AddOption(SessionSpec.LOCATION, res.location.value);
          var _ := s.ApplyVote(hubEmail, SessionSpec.LOCATION, res.location.value);
        }
        s.status := SessionSpec.CONFIRMED;
        s.BumpVersion();
        s.AddHistory(hubEmail, Protocol.CONFIRM, HubSpec.INTERNAL_DONE + res.reason);
      } else {
        s.status := SessionSpec.ESCALATED;
        s.BumpVersion();
        s.AddHistory(hubEmail, Protocol.ESCALATE, HubSpec.INTERNAL_CONFLICT + res.reason);
      }
    }

    /** `_initiate_internal_meeting`: the session saved, then the listed members told by mail. */
    method InitiateInternalMeeting(topic: string, memberIds: seq<string>, sessionId: string, res: HubSpec.SlotResult, now: int)
      returns (r: string)
      requires Valid()
      modifies agent, agent.store
      ensures Valid()
      ensures r == sessionId
      ensures agent.World() == HubSpec.InternalWorld(old(agent.World()), members, hubEmail, topic, memberIds, sessionId, res, now)
      ensures agent.store.rooms == old(agent.store.rooms)
    {
      var s := BuildInternalSession(topic, sessionId, res, now);
      agent.store.Save(s, now);
      agent.NotifyMembers(members, memberIds);
      r := sessionId;
    }

    /**
     * `_initiate_hybrid_meeting` as written: the members' merged preferences go to the
     * negotiator only, the parent's initiation runs under the adapted (empty) preferences, and
     * the internal members are recorded under the new session.
     */
    method InitiateHybridMeeting(topic: string, internalIds: seq<string>, externals: seq<string>,
                                 sessionId: string, msgId: string, now: int)
      returns (r: Result<string>)
      requires Valid()
      modifies this`negotiatorPrefs, agent, agent.store
      ensures Valid()
      ensures AgentSpec.Initiated(agent.World(), r)
           == HubSpec.HybridAsWritten(old(agent.World()), hubEmail, agent.contacts, topic, internalIds, externals,
                                      sessionId, msgId, now)
      ensures negotiatorPrefs == HubSpec.MergedStance(members, internalIds)
      ensures agent.store.rooms == old(agent.store.rooms)
    {
      var merged := MergePrefs(internalIds);
      negotiatorPrefs := AgentSpec.Prefs(merged.preferredTimes, merged.preferredLocations);
      r := agent.InitiateMeeting(topic, externals, sessionId, msgId, now);
      if r.Ok? {
        agent.store.SaveMessageId(sessionId, Members.Marker(internalIds));
      }
    }

    /** The hub's `initiate_meeting`: members alone are scheduled at once, anyone else makes the meeting hybrid. */
    method InitiateMeeting(topic: string, names: seq<string>, initiator: Option<string>, sessionId: string,
                           msgId: string, res: HubSpec.SlotResult, now: int)
      returns (r: Result<string>)
      requires Valid()
      modifies this`negotiatorPrefs, agent, agent.store
      ensures Valid()
      ensures var split := Members.Classify(members, names, initiator);
              negotiatorPrefs == if Members.IsInternalMeeting(split) then old(negotiatorPrefs)
                                 else HubSpec.MergedStance(members, split.internalIds)
      ensures AgentSpec.Initiated(agent.World(), r)
           == HubSpec.HubInitiate(old(agent.World()), hubEmail, agent.contacts, members, topic, names, initiator,
                                  sessionId, msgId, res, now)
      ensures agent.store.rooms == old(agent.store.rooms)
    {
      var split := ClassifyParticipants(names, initiator);
      if split.externalNames == [] {
        var sid := InitiateInternalMeeting(topic, split.internalIds, sessionId, res, now);
        r := Ok(sid);
      } else {
        r := InitiateHybridMeeting(topic, split.internalIds, split.externalNames, sessionId, msgId, now);
      }
    }

    /** `handle_member_command` of hub_agent.py: strangers get the access-denied mail, members' commands are passed on. */
    method HandleMemberCommand(fromEmail: string, body: string) returns (events: seq<Event>)
      modifies agent`outbox
      ensures var a := HubSpec.MemberCommandAnswer(emailIndex, members, fromEmail, body);
              agent.outbox == old(agent.outbox) + a.mails && events == a.events
    {
      var mid := IdentifySender(fromEmail);
      if !Truthy(mid) {
        agent.outbox := agent.outbox + [HumanMail(fromEmail, AccessDenied, None)];
        return [Rejected(fromEmail, HubSpec.NOT_IN_WHITELIST)];
      }
      return [MemberCommand(mid.value, Members.NameOf(members, mid.value), body)];
    }
  }
}
