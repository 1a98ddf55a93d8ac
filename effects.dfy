// What the engine hands to the outside world: the mails it sends through the transport
// and the event records its handlers return. Senders become values appended to an
// outbox; the human-readable bodies are not modelled, only the addressee, the kind of
// message and the session tag its subject carries.

module Effects {
  import opened Common
  import opened Dicts
  import opened Protocol
  import SessionSpec

  /** The human mails the engine writes, told apart by purpose (their bodies are free text). */
  datatype MailKind =
    | OwnerEscalation      // agent.py `_escalate_to_owner`
    | OwnerConfirmed       // agent.py `_notify_owner_confirmed`
    | Invitation           // agent.py fallback invitation to a human participant
    | MemberNotify         // hub `_notify_members`
    | AccessDenied         // hub `handle_member_command`, unknown sender
    | AvailabilityRequest  // session handler, internal members
    | VoteRequest          // command handler, initiator's vote request
    | Guidance             // command handler, request not understood
    | MissingInfo          // command handler, topic / participants / deadline missing
    | UnknownContacts      // command handler, participants without an address
    | InitiationFailed     // command handler, initiate_meeting raised
    | RegistrationGuidance // command handler, unknown sender without invite code
    | AlreadyRegistered    // registration handler
    | InviteInvalid        // registration handler
    | Welcome              // registration handler
    | RoomUpdate           // room handler, status broadcast after an amendment
    | RoomRoundSummary     // room handler, aggregated round summary
    | RoomMinutes          // room handler, minutes after finalisation
    | RoomConfirmAck       // room handler, CONFIRM receipt
    | RoomRejectDecision   // room handler, REJECT forwarded to the initiator
    | RoomRejectAck        // room handler, REJECT receipt

  datatype Outbound =
      /** `send_aimp_email`: subject `[AIMP:<id>] v<version> <suffix>`, protocol.json attached. */
    | AimpMail(to: seq<string>, sessionId: string, version: int, subjectSuffix: string,
               protocol: SessionSpec.SessionData, references: seq<string>, inReplyTo: Option<string>)
      /** `send_human_email`; `tag` is the id written as `[AIMP:<tag>]` into the subject, if any. */
    | HumanMail(addressee: string, kind: MailKind, tag: Option<string>)
      /** `send_cfp_email` of a new room. */
    | CfpMail(to: seq<string>, roomId: string, topic: string, deadline: int,
              initialProposal: string, resolutionRules: string)

  /** The event dictionaries the handlers return, one constructor per "type" (or "event"). */
  datatype Event =
    | Consensus(sessionId: string, topic: string, rounds: nat, consensus: Dict<Option<string>>)
    | Escalation(sessionId: string, topic: string, reason: string, proposals: Dict<ProposalItem>)
    | ReplySent(sessionId: string, action: string, version: int)
    | RoundConsensus(sessionId: string, consensus: Dict<Option<string>>)
    | RoundEscalation(sessionId: string)
    | RoundReplySent(sessionId: string, round: int)
    | RoomFinalized(roomId: string, trigger: string)
    | RoomAmendmentReceived(roomId: string, action: string, sender: string)
    | RoomRound(roomId: string, round: int)
    | RoomConfirmed(roomId: string, sender: string)
    | RoomRejected(roomId: string, sender: string, reason: string)
    | Rejected(from: string, reason: string)
    | MemberCommand(memberId: string, memberName: string, body: string)
    | MemberCommandUnclear(memberId: string, body: string)
    | MemberInfoRequested(memberId: string, missing: seq<string>, unknown: seq<string>)
    | MeetingInitiated(sessionId: string, memberId: string, topic: string, participants: seq<string>)
    | MeetingInitiationFailed(memberId: string, error: Failure)
    | RoomCreated(roomId: string, memberId: string, topic: string, participants: seq<string>, deadline: int)
    | InviteRejected(from: string, code: string)
    | InviteAccepted(from: string, name: string)

  /** `[p for p in session.participants if p != self.agent_email]`. */
  function Recipients(participants: seq<string>, self_: string): (r: seq<string>)
    ensures forall x :: x in r <==> x in participants && x != self_
  {
    Filter(participants, self_)
  }

  /**
   * The References list of a reply: the session's recorded message ids, then the id being
   * answered when it is non-empty and not listed yet.
   */
  function References(stored: seq<string>, inReplyTo: Option<string>): (refs: seq<string>)
    ensures stored <= refs && |refs| <= |stored| + 1
    ensures Truthy(inReplyTo) ==> inReplyTo.value in refs
    ensures forall x | x in refs :: x in stored || (Truthy(inReplyTo) && x == inReplyTo.value)
    ensures NoDup(stored) ==> NoDup(refs)
  {
    if Truthy(inReplyTo) then AppendNew(stored, inReplyTo.value) else stored
  }

  /** Answering a message that is already referenced adds nothing. */
  lemma ReferencesKnown(stored: seq<string>, id: string)
    requires id in stored
    ensures References(stored, Some(id)) == stored
  {
  }

  /** Human mails of one kind, one per address, all carrying the same tag. */
  function MailsTo(addresses: seq<string>, kind: MailKind, tag: Option<string>): (r: seq<Outbound>)
    ensures |r| == |addresses|
    ensures forall i | 0 <= i < |r| :: r[i] == HumanMail(addresses[i], kind, tag)
  {
    seq(|addresses|, i requires 0 <= i < |addresses| => HumanMail(addresses[i], kind, tag))
  }

  /** Whether an outbox entry carries the protocol (an AIMP mail). */
  predicate IsAimp(m: Outbound)
  {
    m.AimpMail?
  }

  predicate NoAimp(ms: seq<Outbound>)
  {
    forall i | 0 <= i < |ms| :: !IsAimp(ms[i])
  }

  lemma MailsToNoAimp(addresses: seq<string>, kind: MailKind, tag: Option<string>)
    ensures NoAimp(MailsTo(addresses, kind, tag))
  {
  }
}
