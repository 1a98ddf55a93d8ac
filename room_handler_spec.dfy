// The room handler of the hub (handlers/room_handler.py) as values: how a room is opened,
// how one parsed amendment changes it, how a round of amendments ends (finalized or
// aggregated), the deadline sweep, and the CONFIRM / REJECT replies to the minutes.
// The amendment parser, the display-name lookup and the clock are parameters.

module RoomHandlerSpec {
  import opened Common
  import opened Dicts
  import opened Effects
  import opened Protocol
  import opened RoomSpec
  import Store

  const INITIAL_PROPOSAL := "initial_proposal.txt"
  const TEXT_PLAIN := "text/plain"
  const ROOM_FINALIZED := "FINALIZED"
  const ROOM_CONFIRM := "CONFIRM"
  const AGGREGATE := "aggregate"
  const ALL_ACCEPTED := "all_accepted"
  const DEADLINE_EXPIRED := "deadline_expired"

  /** The rooms the store files and the mails handed to the transport. */
  datatype Hall = Hall(rooms: Dict<RoomState>, outbox: seq<Outbound>)

  /** The subject tag `[AIMP:Room:<id>]` of every room mail. */
  function RoomTag(roomId: string): string
  {
    "Room:" + roomId
  }

  /** One mail of the given kind to every participant, tagged with the room. */
  function RoomMails(st: RoomState, kind: MailKind): (ms: seq<Outbound>)
    ensures |ms| == |st.participants|
    ensures forall i | 0 <= i < |ms| :: ms[i] == HumanMail(st.participants[i], kind, Some(RoomTag(st.roomId)))
  {
    MailsTo(st.participants, kind, Some(RoomTag(st.roomId)))
  }

  /** `s[:n]`. */
  function Take(s: string, n: nat): (r: string)
    ensures r <= s && |r| == if |s| < n then |s| else n
  {
    if |s| <= n then s else s[..n]
  }

  /** Python's `a or b` on strings. */
  function OrElse(a: string, b: string): string
  {
    if a != "" then a else b
  }

  // ---------------------------------------------------------------------------
  // initiate_room
  // ---------------------------------------------------------------------------

  /** `f"{p[:100]}{'...' if len(p) > 100 else ''}"`. */
  function Preview(p: string): string
  {
    Take(p, 100) + (if |p| > 100 then "..." else "")
  }

  /** The room `initiate_room` saves: a new open room, seeded with the initial proposal if there is one. */
  function CreatedRoom(roomId: string, topic: string, deadline: int, participants: seq<string>,
                       proposal: string, initiator: string, rules: string, now: int): (st: RoomState)
    ensures st.roomId == roomId && st.status == OPEN && st.currentRound == 1 && st.acceptedBy == []
    ensures st.participants == participants && Numbered(st.transcript)
    ensures proposal == "" ==> st.artifacts == [] && st.transcript == []
    ensures proposal != "" ==>
              st.artifacts == [(INITIAL_PROPOSAL, Artifact(INITIAL_PROPOSAL, TEXT_PLAIN, proposal, initiator, now))]
              && |st.transcript| == 1 && st.transcript[0].fromAgent == initiator && st.transcript[0].action == ROOM_PROPOSE
  {
    var r := NewRoom(roomId, topic, deadline, participants, initiator, rules, now);
    if proposal == "" then r
    else
      var seeded := r.(artifacts := Put(r.artifacts, INITIAL_PROPOSAL, Artifact(INITIAL_PROPOSAL, TEXT_PLAIN, proposal, initiator, now)));
      AddToTranscript(seeded, initiator, ROOM_PROPOSE, "Initial proposal submitted: " + Preview(proposal))
  }

  /** The room filed under its id, then one call-for-participation mail to every participant. */
  function InitiateRoomWorld(h: Hall, roomId: string, topic: string, deadline: int, participants: seq<string>,
                             proposal: string, initiator: string, rules: string, now: int): (r: Hall)
    ensures Get(r.rooms, roomId) == Some(CreatedRoom(roomId, topic, deadline, participants, proposal, initiator, rules, now))
    ensures forall id | id != roomId :: Get(r.rooms, id) == Get(h.rooms, id)
    ensures r.outbox == h.outbox + [CfpMail(participants, roomId, topic, deadline, proposal, rules)]
  {
    Hall(Put(h.rooms, roomId, CreatedRoom(roomId, topic, deadline, participants, proposal, initiator, rules, now)),
         h.outbox + [CfpMail(participants, roomId, topic, deadline, proposal, rules)])
  }

  // ---------------------------------------------------------------------------
  // _apply_room_action
  // ---------------------------------------------------------------------------

  /** The dictionary the amendment parser returns; an absent (or null) key is None. */
  datatype Amendment = Amendment(action: Option<string>, changes: Option<string>, reason: Option<string>,
                                 newContent: Option<string>)

  /** `amendment.get("action", "AMEND").upper()`. */
  function ActionOf(a: Amendment): string
  {
    Upper(a.action.GetOr(ROOM_AMEND))
  }

  /** `f"proposal_{sender.split('@')[0]}_{int(time.time())}.txt"`. */
  function ProposalName(sender: string, now: int): string
  {
    "proposal_" + SplitOn(sender, '@')[0] + "_" + IntToString(now) + ".txt"
  }

  /** Whether the action files the amendment's new content as an artifact. */
  predicate Files(a: Amendment)
  {
    ActionOf(a) != ROOM_ACCEPT && (ActionOf(a) == ROOM_PROPOSE || ActionOf(a) == ROOM_AMEND) && Truthy(a.newContent)
  }

  /** `_apply_room_action` (and the same steps inside `_handle_room_email`, whose summary falls back to the body). */
  function ApplyAction(st: RoomState, sender: string, senderName: string, a: Amendment, fallback: string, now: int)
    : (r: RoomState)
  {
    var action := ActionOf(a);
    var s1 :=
      if action == ROOM_ACCEPT then st.(acceptedBy := AppendNew(st.acceptedBy, sender))
      else if Files(a) then
        var name := ProposalName(sender, now);
        st.(artifacts := Put(st.artifacts, name, Artifact(name, TEXT_PLAIN, a.newContent.value, sender, now)))
      else st;
    AddToTranscript(s1, sender, action, senderName + ": " + OrElse(OrElse(a.changes.GetOr(""), a.reason.GetOr("")), fallback))
  }

  /**
   * What one action does: exactly one transcript entry, under the sender and the upper-cased
   * action; ACCEPT records the sender once; PROPOSE / AMEND with content files it under the
   * sender; nothing else moves (status, round, participants, deadline).
   */
  lemma {:induction false} ApplyActionEffect(st: RoomState, sender: string, senderName: string, a: Amendment,
                                             fallback: string, now: int)
    ensures var r := ApplyAction(st, sender, senderName, a, fallback, now);
            r == st.(acceptedBy := r.acceptedBy, artifacts := r.artifacts, transcript := r.transcript)
            && r.transcript[..|st.transcript|] == st.transcript && |r.transcript| == |st.transcript| + 1
            && r.transcript[|st.transcript|].fromAgent == sender && r.transcript[|st.transcript|].action == ActionOf(a)
            && (Numbered(st.transcript) ==> Numbered(r.transcript))
            && (ActionOf(a) == ROOM_ACCEPT ==>
                  r.artifacts == st.artifacts && sender in r.acceptedBy
                  && (forall x :: x in r.acceptedBy <==> x in st.acceptedBy || x == sender)
                  && |r.acceptedBy| <= |st.acceptedBy| + 1)
            && (Files(a) ==>
                  r.acceptedBy == st.acceptedBy
                  && Get(r.artifacts, ProposalName(sender, now)).Some?
                  && Get(r.artifacts, ProposalName(sender, now)).value.author == sender
                  && Get(r.artifacts, ProposalName(sender, now)).value.bodyText == a.newContent.value
                  && forall n | n != ProposalName(sender, now) :: Get(r.artifacts, n) == Get(st.artifacts, n))
            && (ActionOf(a) != ROOM_ACCEPT && !Files(a) ==> r.acceptedBy == st.acceptedBy && r.artifacts == st.artifacts)
  {
  }

  /** `sender.lower() in [p.lower() for p in room.participants]`. */
  predicate IsParticipant(st: RoomState, sender: string)
  {
    Among(st.participants, sender)
  }

  predicate Among(participants: seq<string>, sender: string)
  {
    Lower(sender) in seq(|participants|, i requires 0 <= i < |participants| => Lower(participants[i]))
  }

  // ---------------------------------------------------------------------------
  // _finalize_room
  // ---------------------------------------------------------------------------

  /** The trigger label: all_accepted wins over an expired deadline. */
  function Trigger(st: RoomState): string
  {
    if AllAccepted(st) then ALL_ACCEPTED else DEADLINE_EXPIRED
  }

  /** `_finalize_room` on the room: finalized, with a FINALIZED entry naming the trigger. */
  function Finalize(st: RoomState, hubEmail: string): (r: RoomState)
    ensures r.status == FINALIZED && r.acceptedBy == st.acceptedBy && r.participants == st.participants
    ensures r.roomId == st.roomId && r.currentRound == st.currentRound && r.artifacts == st.artifacts
    ensures r.transcript == st.transcript + [HistoryEntry(|st.transcript| + 1, hubEmail, ROOM_FINALIZED,
                                                          "Room finalized. Trigger: " + Trigger(st))]
    ensures Trigger(r) == Trigger(st)
  {
    AddToTranscript(st.(status := FINALIZED), hubEmail, ROOM_FINALIZED, "Room finalized. Trigger: " + Trigger(st))
  }

  /** The finalized room saved, then the minutes mailed to every participant. */
  function FinalizeWorld(h: Hall, st: RoomState, hubEmail: string): (r: Hall)
    ensures Get(r.rooms, st.roomId) == Some(Finalize(st, hubEmail))
    ensures forall id | id != st.roomId :: Get(r.rooms, id) == Get(h.rooms, id)
    ensures r.outbox == h.outbox + RoomMails(Finalize(st, hubEmail), RoomMinutes)
  {
    Hall(Put(h.rooms, st.roomId, Finalize(st, hubEmail)), h.outbox + RoomMails(Finalize(st, hubEmail), RoomMinutes))
  }

  /** What a handler returns: the new world and its event dictionaries. */
  datatype Handled = Handled(h: Hall, events: seq<Event>)

  // ---------------------------------------------------------------------------
  // _handle_room_email
  // ---------------------------------------------------------------------------

  /**
   * `_handle_room_email`: a mail for a known, open room from one of its participants is applied
   * and saved; it then finalizes the room if everybody has accepted, else a status update goes
   * to every participant.
   */
  function HandleRoomEmail(h: Hall, hubEmail: string, roomId: Option<string>, sender: string, senderName: string,
                           body: string, a: Amendment, now: int): (r: Handled)
    ensures |r.events| <= 1
  {
    if !Truthy(roomId) then Handled(h, [])
    else match Get(h.rooms, roomId.value)
      case None => Handled(h, [])
      case Some(st) =>
        if st.status != OPEN || !IsParticipant(st, sender) then Handled(h, [])
        else RoomAmendment(h, hubEmail, roomId.value, st, sender, senderName, body, a, now)
  }

  /** A participant's mail to an open room: applied and saved, then finalization or an update to everyone. */
  function RoomAmendment(h: Hall, hubEmail: string, roomId: string, st: RoomState, sender: string, senderName: string,
                         body: string, a: Amendment, now: int): (r: Handled)
    ensures |r.events| == 1
  {
    var s1 := ApplyAction(st, sender, senderName, a, Take(body, 100), now);
    var h1 := h.(rooms := Put(h.rooms, s1.roomId, s1));
    if AllAccepted(s1) then Handled(FinalizeWorld(h1, s1, hubEmail), [RoomFinalized(roomId, ALL_ACCEPTED)])
    else Handled(h1.(outbox := h1.outbox + RoomMails(s1, RoomUpdate)), [RoomAmendmentReceived(roomId, ActionOf(a), sender)])
  }

  /** Nothing happens for a mail without room id, for an unknown or closed room, or from a stranger. */
  lemma {:induction false} RoomEmailIgnored(h: Hall, hubEmail: string, roomId: Option<string>, sender: string,
                                            senderName: string, body: string, a: Amendment, now: int)
    ensures var r := HandleRoomEmail(h, hubEmail, roomId, sender, senderName, body, a, now);
            r == Handled(h, []) <==>
              !Truthy(roomId) || Get(h.rooms, roomId.value).None?
              || Get(h.rooms, roomId.value).value.status != OPEN
              || !IsParticipant(Get(h.rooms, roomId.value).value, sender)
  {
    var r := HandleRoomEmail(h, hubEmail, roomId, sender, senderName, body, a, now);
    if Truthy(roomId) && Get(h.rooms, roomId.value).Some? {
      var st := Get(h.rooms, roomId.value).value;
      if st.status == OPEN && IsParticipant(st, sender) {
        assert |r.events| == 1;
      }
    }
  }

  /**
   * An applied mail is stored under its room: finalized (one all_accepted event) exactly when
   * everybody has now accepted, otherwise still open (one amendment event) with the action recorded.
   */
  lemma {:induction false} RoomEmailApplied(h: Hall, hubEmail: string, roomId: string, sender: string,
                                            senderName: string, body: string, a: Amendment, now: int)
    requires Store.Filed(h.rooms) && roomId != ""
    requires Get(h.rooms, roomId).Some? && Get(h.rooms, roomId).value.status == OPEN
    requires IsParticipant(Get(h.rooms, roomId).value, sender)
    ensures var st := Get(h.rooms, roomId).value;
            var s1 := ApplyAction(st, sender, senderName, a, Take(body, 100), now);
            var r := HandleRoomEmail(h, hubEmail, Some(roomId), sender, senderName, body, a, now);
            (AllAccepted(s1) ==>
               Get(r.h.rooms, roomId) == Some(Finalize(s1, hubEmail))
               && r.events == [RoomFinalized(roomId, ALL_ACCEPTED)]
               && r.h.outbox == h.outbox + RoomMails(Finalize(s1, hubEmail), RoomMinutes))
            && (!AllAccepted(s1) ==>
                  Get(r.h.rooms, roomId) == Some(s1) && s1.status == OPEN
                  && r.events == [RoomAmendmentReceived(roomId, ActionOf(a), sender)]
                  && r.h.outbox == h.outbox + RoomMails(s1, RoomUpdate))
  {
    var st := Get(h.rooms, roomId).value;
    FiledGet(h.rooms, roomId);
    ApplyActionEffect(st, sender, senderName, a, Take(body, 100), now);
  }

  /** A filed room sits under its own id. */
  lemma FiledGet(rooms: Dict<RoomState>, id: string)
    requires Store.Filed(rooms) && Get(rooms, id).Some?
    ensures Get(rooms, id).value.roomId == id
  {
    if rooms[0].0 != id {
      FiledGet(rooms[1..], id);
    }
  }

  // ---------------------------------------------------------------------------
  // _process_room_round
  // ---------------------------------------------------------------------------

  /** One pending room mail: its sender, the sender's display name and the parser's reading of the body. */
  datatype RoomReply = RoomReply(sender: string, senderName: string, amendment: Amendment)

  /** The loop over `pending`: strangers are skipped, everyone else's action applied in order. */
  function ApplyReplies(st: RoomState, replies: seq<RoomReply>, now: int): (r: RoomState)
    ensures r.participants == st.participants && r.status == st.status && r.roomId == st.roomId
    ensures r.currentRound == st.currentRound && r.deadline == st.deadline && r.initiator == st.initiator
    ensures |r.transcript| == |st.transcript| + Counted(st.participants, replies) && r.transcript[..|st.transcript|] == st.transcript
    ensures Numbered(st.transcript) ==> Numbered(r.transcript)
    decreases |replies|
  {
    if |replies| == 0 then st
    else
      var p := replies[0];
      var s1 := if IsParticipant(st, p.sender) then ApplyAction(st, p.sender, p.senderName, p.amendment, "", now) else st;
      ApplyActionEffect(st, p.sender, p.senderName, p.amendment, "", now);
      var r := ApplyReplies(s1, replies[1..], now);
      assert r.transcript[..|st.transcript|] == r.transcript[..|s1.transcript|][..|st.transcript|];
      r
  }

  /** How many of the replies come from participants of the room. */
  function Counted(participants: seq<string>, replies: seq<RoomReply>): (n: nat)
    ensures n <= |replies|
  {
    if |replies| == 0 then 0
    else (if Among(participants, replies[0].sender) then 1 else 0) + Counted(participants, replies[1..])
  }

  /** Strangers' replies change nothing at all. */
  lemma {:induction false} StrangersSkipped(st: RoomState, replies: seq<RoomReply>, now: int)
    requires forall i | 0 <= i < |replies| :: !IsParticipant(st, replies[i].sender)
    ensures ApplyReplies(st, replies, now) == st
    decreases |replies|
  {
    if |replies| > 0 {
      StrangersSkipped(st, replies[1..], now);
    }
  }

  /** `_process_room_round` on the room and the world: the round's outcome, then the final save. */
  function ProcessRoomRound(h: Hall, hubEmail: string, st0: RoomState, replies: seq<RoomReply>, now: int): (r: Handled)
    ensures |r.events| == 1
  {
    CloseRoomRound(h, hubEmail, AdvanceRound(ApplyReplies(st0, replies, now)), now)
  }

  /** The advanced round is finalized, or aggregated and summarised; the room is saved either way. */
  function CloseRoomRound(h: Hall, hubEmail: string, st: RoomState, now: int): (r: Handled)
    ensures |r.events| == 1
  {
    if AllAccepted(st) || IsPastDeadline(st, now) then
      var f := FinalizeWorld(h, st, hubEmail);
      Handled(f.(rooms := Put(f.rooms, st.roomId, Finalize(st, hubEmail))),
              [RoomFinalized(st.roomId, Trigger(Finalize(st, hubEmail)))])
    else
      var s2 := AddToTranscript(st, hubEmail, AGGREGATE, "第 " + IntToString(st.currentRound) + " 轮汇总");
      Handled(Hall(Put(h.rooms, s2.roomId, s2), h.outbox + RoomMails(s2, RoomRoundSummary)),
              [RoomRound(st.roomId, st.currentRound)])
  }

  /**
   * A round advances exactly once, applies one entry per participant reply, and then either
   * finalizes (all_accepted whenever that holds, else deadline_expired) or stays as it was,
   * with one aggregate entry and one summary to every participant.
   */
  lemma {:induction false} RoomRoundOutcome(h: Hall, hubEmail: string, st0: RoomState, replies: seq<RoomReply>, now: int)
    ensures var st := AdvanceRound(ApplyReplies(st0, replies, now));
            var r := ProcessRoomRound(h, hubEmail, st0, replies, now);
            var saved := Get(r.h.rooms, st0.roomId).value;
            Get(r.h.rooms, st0.roomId).Some?
            && saved.currentRound == st0.currentRound + 1 && saved.roundRespondents == []
            && |saved.transcript| == |st0.transcript| + Counted(st0.participants, replies) + 1
            && saved.transcript[..|st0.transcript|] == st0.transcript
            && (forall id | id != st0.roomId :: Get(r.h.rooms, id) == Get(h.rooms, id))
            && (AllAccepted(st) || IsPastDeadline(st, now) ==>
                  saved == Finalize(st, hubEmail) && saved.status == FINALIZED
                  && r.events == [RoomFinalized(st0.roomId, if AllAccepted(st) then ALL_ACCEPTED else DEADLINE_EXPIRED)]
                  && r.h.outbox == h.outbox + RoomMails(saved, RoomMinutes))
            && (!AllAccepted(st) && !IsPastDeadline(st, now) ==>
                  saved.status == st0.status && saved.acceptedBy == st.acceptedBy
                  && saved.transcript[|saved.transcript| - 1].action == AGGREGATE
                  && r.events == [RoomRound(st0.roomId, st0.currentRound + 1)]
                  && r.h.outbox == h.outbox + RoomMails(saved, RoomRoundSummary))
  {
    var st := AdvanceRound(ApplyReplies(st0, replies, now));
    if AllAccepted(st) || IsPastDeadline(st, now) {
      RoomRoundFinalizes(h, hubEmail, st0, replies, now);
    } else {
      RoomRoundAggregates(h, hubEmail, st0, replies, now);
    }
  }

  /** The finalizing branch of a round. */
  lemma RoomRoundFinalizes(h: Hall, hubEmail: string, st0: RoomState, replies: seq<RoomReply>, now: int)
    requires var st := AdvanceRound(ApplyReplies(st0, replies, now)); AllAccepted(st) || IsPastDeadline(st, now)
    ensures var st := AdvanceRound(ApplyReplies(st0, replies, now));
            var r := ProcessRoomRound(h, hubEmail, st0, replies, now);
            var saved := Get(r.h.rooms, st0.roomId).value;
            Get(r.h.rooms, st0.roomId).Some?
            && saved.currentRound == st0.currentRound + 1 && saved.roundRespondents == []
            && |saved.transcript| == |st0.transcript| + Counted(st0.participants, replies) + 1
            && saved.transcript[..|st0.transcript|] == st0.transcript
            && (forall id | id != st0.roomId :: Get(r.h.rooms, id) == Get(h.rooms, id))
            && saved == Finalize(st, hubEmail) && saved.status == FINALIZED
            && r.events == [RoomFinalized(st0.roomId, if AllAccepted(st) then ALL_ACCEPTED else DEADLINE_EXPIRED)]
            && r.h.outbox == h.outbox + RoomMails(saved, RoomMinutes)
  {
    var st := AdvanceRound(ApplyReplies(st0, replies, now));
    PutPut(h.rooms, st.roomId, Finalize(st, hubEmail), Finalize(st, hubEmail));
    assert (st.transcript + [HistoryEntry(|st.transcript| + 1, hubEmail, ROOM_FINALIZED, "Room finalized. Trigger: " + Trigger(st))])[..|st0.transcript|]
        == st.transcript[..|st0.transcript|];
  }

  /** The aggregating branch of a round. */
  lemma RoomRoundAggregates(h: Hall, hubEmail: string, st0: RoomState, replies: seq<RoomReply>, now: int)
    requires var st := AdvanceRound(ApplyReplies(st0, replies, now)); !AllAccepted(st) && !IsPastDeadline(st, now)
    ensures var st := AdvanceRound(ApplyReplies(st0, replies, now));
            var r := ProcessRoomRound(h, hubEmail, st0, replies, now);
            var saved := Get(r.h.rooms, st0.roomId).value;
            Get(r.h.rooms, st0.roomId).Some?
            && saved.currentRound == st0.currentRound + 1 && saved.roundRespondents == []
            && |saved.transcript| == |st0.transcript| + Counted(st0.participants, replies) + 1
            && saved.transcript[..|st0.transcript|] == st0.transcript
            && (forall id | id != st0.roomId :: Get(r.h.rooms, id) == Get(h.rooms, id))
            && saved.status == st0.status && saved.acceptedBy == st.acceptedBy
            && saved.transcript[|saved.transcript| - 1].action == AGGREGATE
            && r.events == [RoomRound(st0.roomId, st0.currentRound + 1)]
            && r.h.outbox == h.outbox + RoomMails(saved, RoomRoundSummary)
  {
    var st := AdvanceRound(ApplyReplies(st0, replies, now));
    var s2 := AddToTranscript(st, hubEmail, AGGREGATE, "第 " + IntToString(st.currentRound) + " 轮汇总");
    assert s2.transcript[..|st0.transcript|] == st.transcript[..|st0.transcript|];
  }

  // ---------------------------------------------------------------------------
  // _check_deadlines
  // ---------------------------------------------------------------------------

  /** The loop over the open rooms loaded before the sweep: each one past its deadline is finalized. */
  function FinalizeDue(h: Hall, due: seq<RoomState>, hubEmail: string, now: int): (r: Hall)
    ensures h.outbox <= r.outbox
    decreases |due|
  {
    if |due| == 0 then h
    else
      var h1 := if IsPastDeadline(due[0], now) then FinalizeWorld(h, due[0], hubEmail) else h;
      FinalizeDue(h1, due[1..], hubEmail, now)
  }

  function CheckDeadlines(h: Hall, hubEmail: string, now: int): Hall
  {
    FinalizeDue(h, Store.OpenRooms(h.rooms), hubEmail, now)
  }

  /** What the sweep leaves under an id: the finalized room when it was open and overdue, else what was there. */
  function AfterSweep(st: Option<RoomState>, hubEmail: string, now: int): Option<RoomState>
  {
    if st.Some? && st.value.status == OPEN && IsPastDeadline(st.value, now) then Some(Finalize(st.value, hubEmail)) else st
  }

  /** The sweep finalizes exactly the open rooms that are past their deadline and touches no other room. */
  lemma {:induction false} CheckDeadlinesExact(h: Hall, hubEmail: string, now: int, id: string)
    requires Store.Filed(h.rooms) && DistinctKeys(h.rooms)
    ensures Get(CheckDeadlines(h, hubEmail, now).rooms, id) == AfterSweep(Get(h.rooms, id), hubEmail, now)
  {
    SweepFrom(h, h.rooms, hubEmail, now, id);
  }

  lemma {:induction false} SweepFrom(h: Hall, rs: Dict<RoomState>, hubEmail: string, now: int, id: string)
    requires Store.Filed(rs) && DistinctKeys(rs)
    ensures Get(FinalizeDue(h, Store.OpenRooms(rs), hubEmail, now).rooms, id)
         == if HasKey(rs, id) then
              (if Get(rs, id).value.status == OPEN && IsPastDeadline(Get(rs, id).value, now)
               then Some(Finalize(Get(rs, id).value, hubEmail)) else Get(h.rooms, id))
            else Get(h.rooms, id)
    decreases |rs|
  {
    if |rs| > 0 {
      var st := rs[0].1;
      var tail := rs[1..];
      assert Store.Filed(tail);
      DistinctTailKeys(rs);
      var h1 := if st.status == OPEN && IsPastDeadline(st, now) then FinalizeWorld(h, st, hubEmail) else h;
      if st.status == OPEN {
        assert Store.OpenRooms(rs) == [st] + Store.OpenRooms(tail);
        assert ([st] + Store.OpenRooms(tail))[1..] == Store.OpenRooms(tail);
      }
      assert FinalizeDue(h, Store.OpenRooms(rs), hubEmail, now) == FinalizeDue(h1, Store.OpenRooms(tail), hubEmail, now);
      SweepFrom(h1, tail, hubEmail, now, id);
      assert st.roomId == rs[0].0;
    }
  }

  /** The tail of a dict with distinct keys keeps them and lacks the head's key. */
  lemma DistinctTailKeys<V>(d: Dict<V>)
    requires DistinctKeys(d) && |d| > 0
    ensures DistinctKeys(d[1..]) && !HasKey(d[1..], d[0].0)
  {
    assert Keys(d) == [d[0].0] + Keys(d[1..]);
  }

  // ---------------------------------------------------------------------------
  // Replies to the minutes
  // ---------------------------------------------------------------------------

  /** `_handle_room_confirm`: the sender counted as accepting (once), a CONFIRM entry, an acknowledgement. */
  function HandleRoomConfirm(h: Hall, st: RoomState, sender: string, senderName: string): (r: Handled)
  {
    var s1 := AddToTranscript(st.(acceptedBy := AppendNew(st.acceptedBy, sender)), sender, ROOM_CONFIRM,
                              senderName + " confirmed the meeting minutes.");
    Handled(Hall(Put(h.rooms, s1.roomId, s1), h.outbox + [HumanMail(sender, RoomConfirmAck, None)]),
            [RoomConfirmed(st.roomId, sender)])
  }

  /** A CONFIRM adds the sender at most once, appends one CONFIRM entry and leaves the status alone. */
  lemma {:induction false} RoomConfirmEffect(h: Hall, st: RoomState, sender: string, senderName: string)
    ensures var r := HandleRoomConfirm(h, st, sender, senderName);
            var saved := Get(r.h.rooms, st.roomId).value;
            Get(r.h.rooms, st.roomId).Some? && saved.status == st.status
            && sender in saved.acceptedBy && |saved.acceptedBy| <= |st.acceptedBy| + 1
            && (sender in st.acceptedBy ==> saved.acceptedBy == st.acceptedBy)
            && saved.transcript == st.transcript + [HistoryEntry(|st.transcript| + 1, sender, ROOM_CONFIRM, senderName + " confirmed the meeting minutes.")]
            && r.events == [RoomConfirmed(st.roomId, sender)]
  {
  }

  /** Confirming twice records the sender once. */
  lemma {:induction false} RoomConfirmTwice(h: Hall, st: RoomState, sender: string, senderName: string)
    ensures var once := Get(HandleRoomConfirm(h, st, sender, senderName).h.rooms, st.roomId).value;
            var twice := Get(HandleRoomConfirm(h, once, sender, senderName).h.rooms, st.roomId).value;
            twice.acceptedBy == once.acceptedBy && |twice.transcript| == |st.transcript| + 2
  {
    var once := Get(HandleRoomConfirm(h, st, sender, senderName).h.rooms, st.roomId).value;
    assert once.roomId == st.roomId;
  }

  /** `_handle_room_reject`: a REJECT entry, the initiator asked to decide, the sender acknowledged. */
  function HandleRoomReject(h: Hall, st: RoomState, sender: string, senderName: string, reason: string): (r: Handled)
  {
    var s1 := AddToTranscript(st, sender, ROOM_REJECT, senderName + " rejected the minutes. Reason: " + reason);
    Handled(Hall(Put(h.rooms, s1.roomId, s1),
                 h.outbox + [HumanMail(st.initiator, RoomRejectDecision, None), HumanMail(sender, RoomRejectAck, None)]),
            [RoomRejected(st.roomId, sender, reason)])
  }

  /** A REJECT changes neither the status nor the acceptances: only the transcript grows by one entry. */
  lemma {:induction false} RoomRejectEffect(h: Hall, st: RoomState, sender: string, senderName: string, reason: string)
    ensures var r := HandleRoomReject(h, st, sender, senderName, reason);
            var saved := Get(r.h.rooms, st.roomId).value;
            Get(r.h.rooms, st.roomId).Some?
            && saved == st.(transcript := saved.transcript)
            && saved.transcript == st.transcript + [HistoryEntry(|st.transcript| + 1, sender, ROOM_REJECT, senderName + " rejected the minutes. Reason: " + reason)]
            && r.h.outbox[|h.outbox|..] == [HumanMail(st.initiator, RoomRejectDecision, None), HumanMail(sender, RoomRejectAck, None)]
  {
  }
}
