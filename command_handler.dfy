// The command mixin (handlers/command_handler.py) as methods over the hub object: the
// throttle map is updated in place, the missing-field and participant lists are built by
// appending, and each flow is proved to perform exactly the transition CommandSpec defines.
// The request parser's answer, the clock, the new ids and the parsed deadline are parameters.

module CommandHandler {
  import opened Common
  import opened Dicts
  import opened Effects
  import Members
  import AgentSpec
  import Store
  import Hub
  import HubSpec
  import Agent
  import CommandSpec
  import RoomHandlerSpec
  import RoomHandler

  /** What a command can change, read off the hub. */
  function DeskOf(hub: Hub.AIMPHubAgent): CommandSpec.Desk
    reads hub, hub.agent, hub.agent.store
  {
    CommandSpec.Desk(hub.agent.store.sessions, hub.agent.store.sentMessages, hub.agent.store.rooms,
                     hub.repliedSenders, hub.agent.outbox)
  }

  /** What a command reads, off the hub; the contacts are those of the configuration. */
  function StaffOf(hub: Hub.AIMPHubAgent): CommandSpec.Staff
    reads hub, hub.agent
  {
    CommandSpec.Staff(hub.hubEmail, hub.emailIndex, hub.members, hub.agent.contacts)
  }

  /** `_reply_unknown_sender`: one guidance mail per address a day, its time recorded. */
  method ReplyUnknownSender(hub: Hub.AIMPHubAgent, fromEmail: string, now: int)
    modifies hub`repliedSenders, hub.agent`outbox
    ensures DeskOf(hub) == CommandSpec.ReplyUnknownSender(old(DeskOf(hub)), fromEmail, now)
  {
    var key := Lower(fromEmail);
    var last := if key in hub.repliedSenders then hub.repliedSenders[key] else 0;
    if now - last < CommandSpec.THROTTLE_WINDOW {
      return;
    }
    hub.repliedSenders := hub.repliedSenders[key := now];
    hub.agent.outbox := hub.agent.outbox + [HumanMail(fromEmail, RegistrationGuidance, None)];
  }

  /** The loop that builds `participant_emails`, starting from the sender. */
  method GatherEmails(hub: Hub.AIMPHubAgent, fromEmail: string, names: seq<string>) returns (emails: seq<string>)
    ensures emails == CommandSpec.ParticipantEmails(hub.members, hub.agent.contacts, fromEmail, names)
  {
    emails := [fromEmail];
    var i := 0;
    while i < |names|
      invariant 0 <= i <= |names|
      invariant CommandSpec.GatherFrom(emails, hub.members, hub.agent.contacts, names[i..])
             == CommandSpec.ParticipantEmails(hub.members, hub.agent.contacts, fromEmail, names)
    {
      assert names[i..][1..] == names[i + 1..];
      var contact := CommandSpec.FindContact(hub.members, hub.agent.contacts, names[i]);
      if contact.Ok? && contact.value.Some? && contact.value.value.email !in emails {
        emails := emails + [contact.value.value.email];
      }
      i := i + 1;
    }
    assert names[i..] == [];
  }

  /** The initiator's vote request, unless the saved session already lists them. */
  method SendInitiatorVoteRequest(hub: Hub.AIMPHubAgent, fromEmail: string, sid: string, now: int)
    requires hub.Valid()
    modifies hub.agent`outbox
    ensures hub.agent.outbox == old(hub.agent.outbox) + CommandSpec.VoteRequestMails(hub.agent.World(), fromEmail, sid, now)
  {
    var s := hub.agent.store.Load(sid, now);
    if s != null && !RoomHandlerSpec.Among(s.participants, fromEmail) {
      hub.agent.outbox := hub.agent.outbox + [HumanMail(fromEmail, VoteRequest, Some(sid))];
    }
  }

  /** `handle_member_command` of the command mixin; Err is the KeyError that escapes it. */
  method HandleMemberCommand(hub: Hub.AIMPHubAgent, fromEmail: string, body: string, req: CommandSpec.Request,
                             o: CommandSpec.Oracles)
    returns (r: Result<seq<Event>>)
    requires hub.Valid()
    modifies hub`repliedSenders, hub`negotiatorPrefs, hub.agent, hub.agent.store
    ensures hub.Valid() && StaffOf(hub) == old(StaffOf(hub))
    ensures var spec := CommandSpec.MemberCommand(old(DeskOf(hub)), old(StaffOf(hub)), o, fromEmail, body, req);
            (spec.Err? ==> r == Err(spec.error) && DeskOf(hub) == old(DeskOf(hub)))
            && (spec.Ok? ==> r == Ok(spec.value.events) && DeskOf(hub) == spec.value.d)
  {
    var mid := hub.IdentifySender(fromEmail);
    if !Truthy(mid) {
      ReplyUnknownSender(hub, fromEmail, o.now);
      return Ok([Rejected(fromEmail, HubSpec.NOT_IN_WHITELIST)]);
    }
    var action := req.action.GetOr(CommandSpec.UNCLEAR);
    if action == CommandSpec.CREATE_ROOM {
      r := HandleCreateRoomCommand(hub, fromEmail, mid.value, req, o);
      return;
    }
    if action != CommandSpec.SCHEDULE_MEETING {
      hub.agent.outbox := hub.agent.outbox + [HumanMail(fromEmail, Guidance, None)];
      return Ok([MemberCommandUnclear(mid.value, body)]);
    }
    r := HandleScheduleCommand(hub, fromEmail, mid.value, req, o);
  }

  /** The schedule_meeting branch of `handle_member_command`. */
  method HandleScheduleCommand(hub: Hub.AIMPHubAgent, fromEmail: string, mid: string, req: CommandSpec.Request,
                               o: CommandSpec.Oracles)
    returns (r: Result<seq<Event>>)
    requires hub.Valid()
    modifies hub`negotiatorPrefs, hub.agent, hub.agent.store
    ensures hub.Valid() && StaffOf(hub) == old(StaffOf(hub))
    ensures var spec := CommandSpec.ScheduleCommand(old(DeskOf(hub)), old(StaffOf(hub)), o, fromEmail, mid, req);
            (spec.Err? ==> r == Err(spec.error) && DeskOf(hub) == old(DeskOf(hub)))
            && (spec.Ok? ==> r == Ok(spec.value.events) && DeskOf(hub) == spec.value.d)
  {
    var topic := Strip(req.topic.GetOr(""));
    var names := req.participants.GetOr([]);
    var missing := req.missing.GetOr([]);
    if topic == "" {
      missing := missing + ["topic"];
    }
    if names == [] {
      missing := missing + ["participants"];
    }
    assert missing == CommandSpec.MeetingMissing(req);
    if missing != [] {
      hub.agent.outbox := hub.agent.outbox + [HumanMail(fromEmail, MissingInfo, None)];
      return Ok([MemberInfoRequested(mid, missing, [])]);
    }
    var unknown := CommandSpec.Unknowns(hub.members, hub.agent.contacts, names);
    if unknown.Err? {
      return Err(unknown.error);
    }
    if unknown.value != [] {
      hub.agent.outbox := hub.agent.outbox + [HumanMail(fromEmail, UnknownContacts, None)];
      return Ok([MemberInfoRequested(mid, [CommandSpec.CONTACT_EMAILS], unknown.value)]);
    }
    r := DispatchMeeting(hub, fromEmail, mid, topic, names, o);
  }

  /** A complete schedule request: the hub initiates, then the initiator is asked to vote. */
  method DispatchMeeting(hub: Hub.AIMPHubAgent, fromEmail: string, mid: string, topic: string, names: seq<string>,
                         o: CommandSpec.Oracles)
    returns (r: Result<seq<Event>>)
    requires hub.Valid()
    modifies hub`negotiatorPrefs, hub.agent, hub.agent.store
    ensures hub.Valid() && StaffOf(hub) == old(StaffOf(hub))
    ensures var spec := CommandSpec.DispatchMeeting(old(DeskOf(hub)), old(StaffOf(hub)), o, fromEmail, mid, topic, names);
            r == Ok(spec.events) && DeskOf(hub) == spec.d
  {
    var sid := hub.InitiateMeeting(topic, names, Some(mid), o.sessionId, o.msgId, o.res, o.now);
    if sid.Err? {
      hub.agent.outbox := hub.agent.outbox + [HumanMail(fromEmail, InitiationFailed, None)];
      return Ok([MeetingInitiationFailed(mid, sid.error)]);
    }
    SendInitiatorVoteRequest(hub, fromEmail, sid.value, o.now);
    return Ok([MeetingInitiated(sid.value, mid, topic, names)]);
  }

  /** `_handle_create_room_command`: validate, resolve, build the participant list, open the room. */
  method HandleCreateRoomCommand(hub: Hub.AIMPHubAgent, fromEmail: string, mid: string, req: CommandSpec.Request,
                                 o: CommandSpec.Oracles)
    returns (r: Result<seq<Event>>)
    requires hub.Valid()
    modifies hub.agent`outbox, hub.agent.store
    ensures hub.Valid()
    ensures var spec := CommandSpec.CreateRoomCommand(old(DeskOf(hub)), old(StaffOf(hub)), o, fromEmail, mid, req);
            (spec.Err? ==> r == Err(spec.error) && DeskOf(hub) == old(DeskOf(hub)))
            && (spec.Ok? ==> r == Ok(spec.value.events) && DeskOf(hub) == spec.value.d)
  {
    var topic := Strip(req.topic.GetOr(""));
    var names := req.participants.GetOr([]);
    var deadline := Strip(req.deadline.GetOr(""));
    var proposal := Strip(req.initialProposal.GetOr(""));
    var rules := Strip(RoomHandlerSpec.OrElse(req.resolutionRules.GetOr(""), CommandSpec.MAJORITY));
    var missing := [];
    if topic == "" {
      missing := missing + ["topic"];
    }
    if names == [] {
      missing := missing + ["participants"];
    }
    if deadline == "" {
      missing := missing + ["deadline"];
    }
    assert missing == CommandSpec.RoomMissing(req);
    if missing != [] {
      hub.agent.outbox := hub.agent.outbox + [HumanMail(fromEmail, MissingInfo, None)];
      return Ok([MemberInfoRequested(mid, missing, [])]);
    }
    var unknown := CommandSpec.Unknowns(hub.members, hub.agent.contacts, names);
    if unknown.Err? {
      return Err(unknown.error);
    }
    if unknown.value != [] {
      hub.agent.outbox := hub.agent.outbox + [HumanMail(fromEmail, UnknownContacts, None)];
      return Ok([MemberInfoRequested(mid, [CommandSpec.CONTACT_EMAILS], unknown.value)]);
    }
    var emails := GatherEmails(hub, fromEmail, names);
    var roomId := RoomHandler.InitiateRoom(hub, o.roomId, topic, emails, o.deadlineTs, proposal, fromEmail, rules, o.now);
    return Ok([RoomCreated(roomId, mid, topic, emails, o.deadlineTs)]);
  }
}
