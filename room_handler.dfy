// The room handler's methods (handlers/room_handler.py) over the hub object: they update the
// room they are handed field by field, save it through the store and hand mails to the
// transport, and each is proved to leave the rooms and the outbox exactly as the
// RoomHandlerSpec function says. The generated room id, the parser's amendment, the
// sender's display name and the clock are parameters.

module RoomHandler {
  import opened Common
  import opened Dicts
  import opened Effects
  import opened Protocol
  import RoomSpec
  import opened RoomHandlerSpec
  import Room
  import Store
  import Hub
  import Agent

  /** The part of the hub's world the room handler works on. */
  function View(hub: Hub.AIMPHubAgent): Hall
    reads hub, hub.agent, hub.agent.store
  {
    Hall(hub.agent.store.rooms, hub.agent.outbox)
  }

  /** The sessions and their recorded Message-IDs, which no room handler touches. */
  ghost predicate SessionsKept(hub: Hub.AIMPHubAgent, sessions: Store.Table, sent: seq<(string, string)>)
    reads hub, hub.agent, hub.agent.store
  {
    hub.agent.store.sessions == sessions && hub.agent.store.sentMessages == sent
  }

  /** The loop `for participant in room.participants: send_human_email(...)`. */
  method SendRoomMails(hub: Hub.AIMPHubAgent, room: Room.AIMPRoom, kind: MailKind)
    modifies hub.agent`outbox
    ensures hub.agent.outbox == old(hub.agent.outbox) + RoomMails(room.State(), kind)
  {
    var tag := Some(RoomTag(room.roomId));
    var i := 0;
    while i < |room.participants|
      invariant 0 <= i <= |room.participants|
      invariant hub.agent.outbox == old(hub.agent.outbox) + MailsTo(room.participants[..i], kind, tag)
    {
      Agent.MailsToSnoc(room.participants, i, kind, tag);
      hub.agent.outbox := hub.agent.outbox + [HumanMail(room.participants[i], kind, tag)];
      i := i + 1;
    }
    assert room.participants[..i] == room.participants;
  }

  /** `initiate_room`, with the room id generated by the caller. */
  method InitiateRoom(hub: Hub.AIMPHubAgent, roomId: string, topic: string, participants: seq<string>, deadline: int,
                      proposal: string, initiator: string, rules: string, now: int)
    returns (r: string)
    requires hub.Valid()
    modifies hub.agent`outbox, hub.agent.store
    ensures hub.Valid() && SessionsKept(hub, old(hub.agent.store.sessions), old(hub.agent.store.sentMessages))
    ensures r == roomId
    ensures View(hub) == InitiateRoomWorld(old(View(hub)), roomId, topic, deadline, participants, proposal, initiator, rules, now)
  {
    var room := BuildRoom(roomId, topic, participants, deadline, proposal, initiator, rules, now);
    hub.agent.store.SaveRoom(room);
    hub.agent.outbox := hub.agent.outbox + [CfpMail(participants, roomId, topic, deadline, proposal, rules)];
    r := roomId;
  }

  /** The new room of `initiate_room`, seeded with the initial proposal when there is one. */
  method BuildRoom(roomId: string, topic: string, participants: seq<string>, deadline: int,
                   proposal: string, initiator: string, rules: string, now: int)
    returns (room: Room.AIMPRoom)
    ensures fresh(room)
    ensures room.State() == CreatedRoom(roomId, topic, deadline, participants, proposal, initiator, rules, now)
  {
    room := new Room.AIMPRoom(roomId, topic, deadline, participants, initiator, rules, now);
    if proposal != "" {
      room.artifacts := Put(room.artifacts, INITIAL_PROPOSAL, Artifact(INITIAL_PROPOSAL, TEXT_PLAIN, proposal, initiator, now));
      room.AddToTranscript(initiator, ROOM_PROPOSE, "Initial proposal submitted: " + Preview(proposal));
    }
  }

  /** `_apply_room_action` (and its copy inside `_handle_room_email`, with the body as the summary's last resort). */
  method ApplyRoomAction(room: Room.AIMPRoom, sender: string, senderName: string, a: Amendment, fallback: string, now: int)
    modifies room
    ensures room.State() == ApplyAction(old(room.State()), sender, senderName, a, fallback, now)
  {
    var action := ActionOf(a);
    if action == ROOM_ACCEPT {
      if sender !in room.acceptedBy {
        room.acceptedBy := room.acceptedBy + [sender];
      }
    } else if (action == ROOM_PROPOSE || action == ROOM_AMEND) && Truthy(a.newContent) {
      var name := ProposalName(sender, now);
      room.artifacts := Put(room.artifacts, name, Artifact(name, TEXT_PLAIN, a.newContent.value, sender, now));
    }
    var summary := OrElse(OrElse(a.changes.GetOr(""), a.reason.GetOr("")), fallback);
    room.AddToTranscript(sender, action, senderName + ": " + summary);
  }

  /** `_finalize_room`: finalized with its trigger in the transcript, saved, the minutes sent to every participant. */
  method FinalizeRoom(hub: Hub.AIMPHubAgent, room: Room.AIMPRoom)
    requires hub.Valid()
    modifies room, hub.agent`outbox, hub.agent.store
    ensures hub.Valid() && SessionsKept(hub, old(hub.agent.store.sessions), old(hub.agent.store.sentMessages))
    ensures room.State() == Finalize(old(room.State()), hub.hubEmail)
    ensures View(hub) == FinalizeWorld(old(View(hub)), old(room.State()), hub.hubEmail)
  {
    var trigger := if RoomSpec.AllAccepted(room.State()) then ALL_ACCEPTED else DEADLINE_EXPIRED;
    room.status := RoomSpec.FINALIZED;
    room.AddToTranscript(hub.hubEmail, ROOM_FINALIZED, "Room finalized. Trigger: " + trigger);
    hub.agent.store.SaveRoom(room);
    SendRoomMails(hub, room, RoomMinutes);
  }

  /** `_handle_room_email`: the checks, the action applied and saved, then finalization or a status update. */
  method HandleRoomEmail(hub: Hub.AIMPHubAgent, roomId: Option<string>, sender: string, senderName: string,
                         body: string, a: Amendment, now: int)
    returns (events: seq<Event>)
    requires hub.Valid()
    modifies hub.agent`outbox, hub.agent.store
    ensures hub.Valid() && SessionsKept(hub, old(hub.agent.store.sessions), old(hub.agent.store.sentMessages))
    ensures var r := RoomHandlerSpec.HandleRoomEmail(old(View(hub)), hub.hubEmail, roomId, sender, senderName, body, a, now);
            View(hub) == r.h && events == r.events
  {
    if !Truthy(roomId) {
      return [];
    }
    var room := hub.agent.store.LoadRoom(roomId.value);
    if room == null {
      return [];
    }
    if room.status != RoomSpec.OPEN || !IsParticipant(room.State(), sender) {
      return [];
    }
    events := AmendRoom(hub, room, roomId.value, sender, senderName, body, a, now);
  }

  /** The part of `_handle_room_email` after the checks. */
  method AmendRoom(hub: Hub.AIMPHubAgent, room: Room.AIMPRoom, roomId: string, sender: string, senderName: string,
                   body: string, a: Amendment, now: int)
    returns (events: seq<Event>)
    requires hub.Valid()
    modifies room, hub.agent`outbox, hub.agent.store
    ensures hub.Valid() && SessionsKept(hub, old(hub.agent.store.sessions), old(hub.agent.store.sentMessages))
    ensures var r := RoomAmendment(old(View(hub)), hub.hubEmail, roomId, old(room.State()), sender, senderName, body, a, now);
            View(hub) == r.h && events == r.events
  {
    ApplyRoomAction(room, sender, senderName, a, Take(body, 100), now);
    hub.agent.store.SaveRoom(room);
    if RoomSpec.AllAccepted(room.State()) {
      FinalizeRoom(hub, room);
      return [RoomFinalized(roomId, ALL_ACCEPTED)];
    }
    events := [RoomAmendmentReceived(roomId, ActionOf(a), sender)];
    SendRoomMails(hub, room, RoomUpdate);
  }

  /** `_process_room_round`: participants' replies applied, the round advanced, then finalized or aggregated, and saved. */
  method ProcessRoomRound(hub: Hub.AIMPHubAgent, room: Room.AIMPRoom, replies: seq<RoomReply>, now: int)
    returns (events: seq<Event>)
    requires hub.Valid()
    modifies room, hub.agent`outbox, hub.agent.store
    ensures hub.Valid() && SessionsKept(hub, old(hub.agent.store.sessions), old(hub.agent.store.sentMessages))
    ensures var r := RoomHandlerSpec.ProcessRoomRound(old(View(hub)), hub.hubEmail, old(room.State()), replies, now);
            View(hub) == r.h && events == r.events
    ensures Get(View(hub).rooms, room.roomId) == Some(room.State())
  {
    ApplyRoomReplies(room, replies, now);
    room.AdvanceRound();
    events := CloseRoomRound(hub, room, now);
  }

  /** The loop over the participants' replies; a reply from anyone else is skipped. */
  method ApplyRoomReplies(room: Room.AIMPRoom, replies: seq<RoomReply>, now: int)
    modifies room
    ensures room.State() == ApplyReplies(old(room.State()), replies, now)
  {
    var k := 0;
    while k < |replies|
      invariant 0 <= k <= |replies|
      invariant ApplyReplies(room.State(), replies[k..], now) == ApplyReplies(old(room.State()), replies, now)
    {
      assert replies[k..][1..] == replies[k + 1..];
      var p := replies[k];
      if IsParticipant(room.State(), p.sender) {
        ApplyRoomAction(room, p.sender, p.senderName, p.amendment, "", now);
      }
      k := k + 1;
    }
    assert replies[k..] == [];
  }

  /** The end of `_process_room_round`: finalize or aggregate, then save. */
  method CloseRoomRound(hub: Hub.AIMPHubAgent, room: Room.AIMPRoom, now: int) returns (events: seq<Event>)
    requires hub.Valid()
    modifies room, hub.agent`outbox, hub.agent.store
    ensures hub.Valid() && SessionsKept(hub, old(hub.agent.store.sessions), old(hub.agent.store.sentMessages))
    ensures var r := RoomHandlerSpec.CloseRoomRound(old(View(hub)), hub.hubEmail, old(room.State()), now);
            View(hub) == r.h && events == r.events
    ensures Get(View(hub).rooms, room.roomId) == Some(room.State())
  {
    if RoomSpec.AllAccepted(room.State()) || RoomSpec.IsPastDeadline(room.State(), now) {
      FinalizeRoom(hub, room);
      var trigger := if RoomSpec.AllAccepted(room.State()) then ALL_ACCEPTED else DEADLINE_EXPIRED;
      events := [RoomFinalized(room.roomId, trigger)];
    } else {
      room.AddToTranscript(hub.agent.agentEmail, AGGREGATE, "第 " + IntToString(room.currentRound) + " 轮汇总");
      SendRoomMails(hub, room, RoomRoundSummary);
      events := [RoomRound(room.roomId, room.currentRound)];
    }
    hub.agent.store.SaveRoom(room);
  }

  /** One step of the sweep: the room is finalized if it is past its deadline. */
  method SweepRoom(hub: Hub.AIMPHubAgent, room: Room.AIMPRoom, now: int)
    requires hub.Valid()
    modifies room, hub.agent`outbox, hub.agent.store
    ensures hub.Valid() && SessionsKept(hub, old(hub.agent.store.sessions), old(hub.agent.store.sentMessages))
    ensures View(hub) == if RoomSpec.IsPastDeadline(old(room.State()), now)
                         then FinalizeWorld(old(View(hub)), old(room.State()), hub.hubEmail) else old(View(hub))
  {
    if RoomSpec.IsPastDeadline(room.State(), now) {
      FinalizeRoom(hub, room);
    }
  }

  /** `_check_deadlines`: every room that was open when the sweep began and is past its deadline is finalized. */
  method CheckDeadlines(hub: Hub.AIMPHubAgent, now: int)
    requires hub.Valid()
    modifies hub.agent`outbox, hub.agent.store
    ensures hub.Valid() && SessionsKept(hub, old(hub.agent.store.sessions), old(hub.agent.store.sentMessages))
    ensures View(hub) == RoomHandlerSpec.CheckDeadlines(old(View(hub)), hub.hubEmail, now)
  {
    var rs := hub.agent.store.LoadOpenRooms();
    ghost var due := Store.OpenRooms(hub.agent.store.rooms);
    var i := 0;
    while i < |rs|
      invariant 0 <= i <= |rs| && |rs| == |due|
      invariant hub.Valid() && SessionsKept(hub, old(hub.agent.store.sessions), old(hub.agent.store.sentMessages))
      invariant forall j | i <= j < |rs| :: rs[j].State() == due[j]
      invariant FinalizeDue(View(hub), due[i..], hub.hubEmail, now) == FinalizeDue(old(View(hub)), due, hub.hubEmail, now)
    {
      ghost var before := View(hub);
      SweepRoom(hub, rs[i], now);
      FinalizeDueStep(before, View(hub), due, i, hub.hubEmail, now);
      i := i + 1;
    }
    assert due[i..] == [];
  }

  /** Sweeping the room at position i moves the rest of the sweep one room on. */
  lemma FinalizeDueStep(before: Hall, after: Hall, due: seq<RoomSpec.RoomState>, i: nat, hubEmail: string, now: int)
    requires i < |due|
    requires after == if RoomSpec.IsPastDeadline(due[i], now) then FinalizeWorld(before, due[i], hubEmail) else before
    ensures FinalizeDue(after, due[i + 1..], hubEmail, now) == FinalizeDue(before, due[i..], hubEmail, now)
  {
    assert due[i..][1..] == due[i + 1..];
  }

  /** `_handle_room_confirm`. */
  method HandleRoomConfirm(hub: Hub.AIMPHubAgent, room: Room.AIMPRoom, sender: string, senderName: string)
    returns (events: seq<Event>)
    requires hub.Valid()
    modifies room, hub.agent`outbox, hub.agent.store
    ensures hub.Valid() && SessionsKept(hub, old(hub.agent.store.sessions), old(hub.agent.store.sentMessages))
    ensures var r := RoomHandlerSpec.HandleRoomConfirm(old(View(hub)), old(room.State()), sender, senderName);
            View(hub) == r.h && events == r.events
  {
    if sender !in room.acceptedBy {
      room.acceptedBy := room.acceptedBy + [sender];
    }
    room.AddToTranscript(sender, ROOM_CONFIRM, senderName + " confirmed the meeting minutes.");
    hub.agent.store.SaveRoom(room);
    hub.agent.outbox := hub.agent.outbox + [HumanMail(sender, RoomConfirmAck, None)];
    events := [RoomConfirmed(room.roomId, sender)];
  }

  /** `_handle_room_reject`. */
  method HandleRoomReject(hub: Hub.AIMPHubAgent, room: Room.AIMPRoom, sender: string, senderName: string, reason: string)
    returns (events: seq<Event>)
    requires hub.Valid()
    modifies room, hub.agent`outbox, hub.agent.store
    ensures hub.Valid() && SessionsKept(hub, old(hub.agent.store.sessions), old(hub.agent.store.sentMessages))
    ensures var r := RoomHandlerSpec.HandleRoomReject(old(View(hub)), old(room.State()), sender, senderName, reason);
            View(hub) == r.h && events == r.events
  {
    room.AddToTranscript(sender, ROOM_REJECT, senderName + " rejected the minutes. Reason: " + reason);
    hub.agent.store.SaveRoom(room);
    hub.agent.outbox := hub.agent.outbox + [HumanMail(room.initiator, RoomRejectDecision, None), HumanMail(sender, RoomRejectAck, None)];
    events := [RoomRejected(room.roomId, sender, reason)];
  }
}
