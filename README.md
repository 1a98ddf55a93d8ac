# AIMP negotiation engine — a Dafny model

AIMP lets AI agents schedule a meeting by email. Each agent speaks for its owner. Every
AIMP mail carries a `protocol.json` attachment holding the whole negotiation session: its
participants, its agenda items (time, location, …) with their options and per-participant
votes, a version number and a history. A hub agent serves a group of members. It can schedule
a meeting among its own members by asking them directly. It can open a *room*, an
asynchronous document negotiation with a deadline. It can register new members through
invite codes. This project models the engine's core and proves what it does:

* the protocol records (`Protocol`, `SessionSpec`/`Session`, `RoomSpec`/`Room`, `Rounds`):
  per-item unanimous consensus, participant slots, voting, versions and history, the stall
  rule, the round gate, and the JSON round trips;
* the per-mail decision ladder of a plain agent and its initial proposal (`AgentSpec`/`Agent`);
* the hub (`Members`, `HubSpec`/`Hub`): member identification, participant classification,
  preference merging, internal and hybrid meetings, and the internal-member marker;
* the hub's handlers:
  - session rounds: `SessionHandlerSpec`/`SessionHandler`;
  - rooms: `RoomHandlerSpec`/`RoomHandler`;
  - member commands and the auto-reply filter: `CommandSpec`/`CommandHandler`;
  - invite registration: `RegistrationSpec`/`Registration`;
* the session store (`Store`) and the subject and attachment helpers of the mail client
  (`Email`).

Each stateful source class is a Dafny class with the source's fields:

* `AIMPSession`, `AIMPRoom`;
* the store;
* the agent and the hub agent.

Every method that changes one is proved to leave it in the state given by a pure function in
the matching `…Spec` module. The lemmas there state the source's promises about those
functions. Python dictionaries whose insertion order can be observed are association lists
(`Dicts.Dict`), and `d[k] = v` replaces in place or appends. Dictionaries that are only looked
up are Dafny maps.

The following are parameters:

* the clock, new ids, `date.today()` and the environment;
* the language model's answers: `decide`, `parse_human_reply`, `parse_amendment` and `find_optimal_slot`;
* the round's pending replies.

Sending mail appends to an outbox log. Recorded Message-IDs go to the store.

The hub and its handlers. `AIMPHubAgent(AIMPAgent)` (hub_agent.py:160) does not itself list
the mixins of handlers/: SessionMixin, RoomMixin, CommandMixin and RegistrationMixin. The model
assumes the hub class they are written for: the hub agent with the four mixins added, where the
hub's own methods come first. So the command handler's `self.initiate_meeting` is hub_agent.py's
`initiate_meeting` (`Hub.AIMPHubAgent.InitiateMeeting`, `HubSpec.HubInitiate`), whose members-only
branch is hub_agent.py's `_initiate_internal_meeting`, settled by one scheduling answer. The
session mixin's coordinated `_initiate_internal_meeting` (handlers/session_handler.py:70-146) is
modelled on its own, as `SessionHandler.InitiateCoordinatedMeeting`. It is what a class running
the mixin ahead of the hub would call, and no modelled command reaches it. By the same rule, a member's
command mail reaches hub_agent.py's `handle_member_command` (hub_agent.py:502,
`Hub.AIMPHubAgent.HandleMemberCommand`), which shadows the command mixin's method of the same
name. `CommandHandler.HandleMemberCommand` models the mixin's method on its own terms.

The negotiator's preferences are a field of the hub, `negotiatorPrefs`. The hybrid meeting sets
them to the members' merged stance. Only the decision oracle reads them, and that oracle is a
parameter, so the field changes nothing else in the model.

The source and its own documentation disagree in one place, and the model follows the
source. A room is documented as going open → locked → finalized, but no code ever sets
"locked" (handlers/room_handler.py:284). In the model, rooms go straight from open to
finalized.

## Model

A specification function that a method is proved equal to has no row of its own. Examples are `RoomHandlerSpec.ApplyAction`, `CommandSpec.Throttle`, `CommandSpec.MemberCommand`, `RegistrationSpec.Register` and `RegistrationSpec.HandleInviteRequest`. The row of the method that performs it, and the rows of the lemmas about it, describe it. The predicate `CommandSpec.IsAutoReply` is described the same way, by the rows of `ListedLocal`, `MarkedLocal`, `PrefixedSubject` and `NotAutoReply`.

| member | source | states |
|---|---|---|
| Protocol.HistoryFromDict | lib/protocol.py:41-48 | an entry is read exactly when version, from and action are present; a missing summary reads as "" |
| Protocol.MissingKey | lib/protocol.py:41-47 | the key an unreadable entry raises KeyError on is the first absent one of version, from and action |
| Protocol.FirstUnreadable | lib/protocol.py:260 | the comprehension stops at the first entry that does not read, after reading every earlier one |
| Protocol.EntriesError | lib/protocol.py:260 | reading a list of entries raises KeyError on the missing key of its first unreadable entry |
| Protocol.HistoryToDict | lib/protocol.py:33-48 | round trip: reading back the written dict gives the same history entry |
| Protocol.ActualVotes | lib/protocol.py:78 | the non-None votes are no more than the slots, and as many exactly when no slot is None |
| Protocol.ProposalItem.AddOption | lib/protocol.py:57-60 | the option is listed afterwards; only it is added, at the end and at most once; votes are untouched; a duplicate-free list stays duplicate-free |
| Protocol.ProposalItem.Vote | lib/protocol.py:62-66 | ValueError exactly when the choice is not an option; otherwise the voter's slot holds the choice, the options and every other slot are unchanged, and no option is added |
| Protocol.ProposalItem.ClearVote | lib/protocol.py:68-70 | the voter's slot becomes None, all else unchanged |
| Protocol.ProposalItem.CheckConsensus | lib/protocol.py:72-82 | a returned choice is held by every slot of a non-empty vote map |
| Protocol.AddOptionIdempotent | lib/protocol.py:57-60 | adding an option twice equals adding it once |
| Protocol.ConsensusIff | lib/protocol.py:72-82 | both directions: consensus on c exactly when there is at least one slot and every slot holds c |
| Protocol.NoConsensusWithEmptySlot | lib/protocol.py:72-82 | an item with an empty (None) slot has no consensus |
| Protocol.ItemToDict | lib/protocol.py:84-95 | round trip: `from_dict(to_dict(p)) == p`, and both keys are written |
| Protocol.ArtifactFromDict | lib/protocol.py:312-320 | an artifact is read exactly when name is present; content type and timestamp default to "text/plain" and 0 |
| Protocol.ArtifactToDict | lib/protocol.py:303-320 | round trip: reading back the written dict gives the same artifact |
| Rounds.RecordReply | lib/protocol.py:197-200 | the sender is recorded, nothing else is added, a listed sender changes nothing, and the list stays duplicate-free |
| Rounds.RoundCompleteIff | lib/protocol.py:202-213 | both directions: complete exactly when the expected set (everyone but the initiator in round 1, everyone later) is non-empty and contained in the respondents |
| Rounds.InitiatorReplyIrrelevantInRoundOne | lib/protocol.py:202-213 | in round 1 the initiator's reply does not change completeness |
| Rounds.FreshRoundIncomplete | lib/protocol.py:202-218 | with no respondents (just after `advance_round`) a round is never complete |
| Rounds.CompleteStaysComplete | lib/protocol.py:197-213 | recording another reply never un-completes a round |
| Dicts.Get | lib/protocol.py:162-166 | `d.get(k)` yields a value exactly when k is a key |
| Dicts.Put | lib/protocol.py:66 | `d[k] = v`: k maps to v, every other key keeps its value, the size grows only for a new key |
| Dicts.PutKeys | lib/protocol.py:66 | insertion order: an existing key keeps its position, a new key goes last |
| Dicts.PutPut | lib/protocol.py:66 | writing a key twice leaves the second value in the first write's position |
| Dicts.PutDistinct | lib/protocol.py:66 | writing keeps the keys distinct |
| Effects.Recipients | agent.py:256 | the recipients are exactly the participants other than the agent's own address |
| Effects.References | agent.py:257-261 | the stored ids come first, followed by the answered id when it is non-empty and new; nothing else is added and no duplicate appears |
| Effects.ReferencesKnown | agent.py:260-261 | answering an already referenced message adds nothing |
| Effects.MailsTo | hub_agent.py:468-500 | one mail of the given kind and tag per address, in order |
| SessionSpec.EmptySlots | lib/protocol.py:124-128 | one None slot for each participant and for nothing else, keys distinct |
| SessionSpec.NewSession | lib/protocol.py:101-128 | the constructor starts at version 0 and round 1 with no history, status negotiating, the initiator defaulting to the first participant, and exactly the time and location items, each with no options and a None slot per participant |
| SessionSpec.AddSlot | lib/protocol.py:148-150 | a missing slot is added as None; existing votes are untouched and no other key appears |
| SessionSpec.AddSlotAll | lib/protocol.py:148-150 | every item, in order, gets the slot |
| SessionSpec.EnsureParticipant | lib/protocol.py:144-150 | the email joins the participants at most once, at the end; every item has a slot for it; no existing vote, option, item, version, history, status or round field changes |
| SessionSpec.EnsureParticipantIdempotent | lib/protocol.py:144-150 | a second `ensure_participant` with the same email changes nothing |
| SessionSpec.AddOption | lib/protocol.py:154-160 | the named item (created with a None slot per participant on first use) gets the option; the other items and all other fields are unchanged |
| SessionSpec.ApplyVote | lib/protocol.py:162-167 | the voter is added first; KeyError exactly when the item is missing, ValueError when the choice is not an option, and then the state is just the participant step; otherwise the voter's slot holds the choice; version, history, status and every option list are unchanged |
| SessionSpec.OptionsAfterEnsure | lib/protocol.py:144-150 | `ensure_participant` keeps every item's options |
| SessionSpec.ApplyEach | lib/protocol.py:171-174 | the per-item loop changes neither the version, the history, the status nor the item names |
| SessionSpec.ApplyVotes | lib/protocol.py:169-174 | batch voting never changes the version, history or status, and leaves the voter a participant |
| SessionSpec.ApplyEachKeepsParticipant | lib/protocol.py:169-174 | voting item by item leaves the participant list as `ensure_participant` made it |
| SessionSpec.ApplyVotesAllNone | lib/protocol.py:171-174 | a batch of only None choices is skipped entirely: only the participant step happens |
| SessionSpec.AllNoneSkipped | lib/protocol.py:172-173 | None choices are skipped by the per-item loop |
| SessionSpec.BumpVersion | lib/protocol.py:139-140 | the version rises by exactly 1 and nothing else changes |
| SessionSpec.NextVersion | lib/protocol.py:136-137 | `next_version` is the version a bump produces |
| SessionSpec.AddHistory | lib/protocol.py:222-230 | exactly one entry is appended, stamped with the current version; nothing else changes |
| SessionSpec.CheckConsensus | lib/protocol.py:178-180 | one entry per item, in item order, holding that item's consensus |
| SessionSpec.FullyResolvedIff | lib/protocol.py:182-185 | both directions: fully resolved exactly when every item is unanimous on a non-None choice with at least one slot |
| SessionSpec.RecordRoundReply | lib/protocol.py:197-200 | only the respondents change, by the deduplicating record step |
| SessionSpec.AdvanceRound | lib/protocol.py:215-218 | the round rises by exactly 1, the respondents are emptied, nothing else changes, and the new round is not complete |
| SessionSpec.NewSessionOpen | lib/protocol.py:114-128 | a new session is neither fully resolved nor stalled |
| SessionSpec.ItemsToDicts | lib/protocol.py:243 | each item is written by `ProposalItem.to_dict`, in order |
| SessionSpec.ItemsFromDicts | lib/protocol.py:265-268 | each item is read by `ProposalItem.from_dict`, in order |
| SessionSpec.HistoryToDicts | lib/protocol.py:245 | each entry is written by `HistoryEntry.to_dict`, in order |
| SessionSpec.HistoryFromDicts | lib/protocol.py:260 | the history reads exactly when every entry reads, entry by entry |
| SessionSpec.WithItem | lib/protocol.py:270-275 | a present item is kept as is; a missing one is appended with no options and a None slot per participant |
| SessionSpec.WithCoreItems | lib/protocol.py:270-275 | time and location are present afterwards; a session that has both is unchanged |
| SessionSpec.FromJson | lib/protocol.py:250-277 | KeyError exactly when session_id or a required history key is missing, naming "session_id" or the entry's missing key; a decoded session has time and location items and `created_at` equal to the load time |
| SessionSpec.MissingFromReported | lib/protocol.py:250-260 | a history whose second entry lacks "from" is refused with KeyError("from") |
| SessionSpec.FromJsonItems | lib/protocol.py:264-275 | items present in the JSON are kept unchanged; a missing time or location item gets a None slot for every participant |
| SessionSpec.HistoryRoundTrip | lib/protocol.py:33-48 | reading back the written history gives it again |
| SessionSpec.ItemsRoundTrip | lib/protocol.py:84-95 | reading back the written items gives them again, in order |
| SessionSpec.JsonRoundTrip | lib/protocol.py:234-277 | `from_json(to_json(s))` is s with only `created_at` replaced by the load time |
| SessionSpec.Clone | lib/protocol.py:279-281 | a clone has time and location items and is the original, apart from `created_at` |
| SessionSpec.ToJsonDecodable | lib/protocol.py:234-277 | what `to_json` writes always decodes |
| Session.AIMPSession.constructor | lib/protocol.py:101-128 | the new object's state is the specification's fresh session |
| Session.AIMPSession.FromState | lib/protocol.py:250-277 | the object built by `from_json` holds exactly the decoded state |
| Session.AIMPSession.BumpVersion | lib/protocol.py:139-140 | the state after the call is the specification's bump of the state before |
| Session.AIMPSession.EnsureParticipant | lib/protocol.py:144-150 | the in-place loop over the items performs `SessionSpec.EnsureParticipant` |
| Session.AIMPSession.AddOption | lib/protocol.py:154-160 | the in-place update performs `SessionSpec.AddOption` |
| Session.AIMPSession.ApplyVote | lib/protocol.py:162-167 | the new state and the raised exception are those of `SessionSpec.ApplyVote` |
| Session.AIMPSession.ApplyVotes | lib/protocol.py:169-174 | the batch loop, stopping at the first exception, performs `SessionSpec.ApplyVotes` |
| Session.AIMPSession.RecordRoundReply | lib/protocol.py:197-200 | performs `SessionSpec.RecordRoundReply` |
| Session.AIMPSession.AdvanceRound | lib/protocol.py:215-218 | performs `SessionSpec.AdvanceRound` |
| Session.AIMPSession.AddHistory | lib/protocol.py:222-230 | performs `SessionSpec.AddHistory` |
| Session.AIMPSession.Clone | lib/protocol.py:279-281 | a fresh, unaliased object whose state is `SessionSpec.Clone` of this one |
| RoomSpec.NewRoom | lib/protocol.py:324-343 | a new room is open, in round 1, with no artifacts, transcript, acceptances or respondents, `created_at` the clock reading, and it is not all-accepted |
| RoomSpec.AddToTranscript | lib/protocol.py:393-402 | exactly one entry is appended, numbered one more than the old length, so a 1..n numbered transcript stays 1..n numbered; nothing else changes |
| RoomSpec.NotAllAccepted | lib/protocol.py:387-391 | both directions: not all accepted exactly when there are no participants or one of them has not accepted |
| RoomSpec.RecordRoundReply | lib/protocol.py:406-409 | only the respondents change, by the deduplicating record step |
| RoomSpec.AdvanceRound | lib/protocol.py:422-425 | the round rises by exactly 1, the respondents are emptied, nothing else changes, and the new round is not complete |
| RoomSpec.ArtifactsToDicts | lib/protocol.py:351 | each artifact is written by `Artifact.to_dict`, in order |
| RoomSpec.ArtifactsFromDicts | lib/protocol.py:370-373 | the artifacts read exactly when every one has a name, each by `Artifact.from_dict`, in order |
| RoomSpec.TranscriptToDicts | lib/protocol.py:352 | each entry is written by `HistoryEntry.to_dict`, in order |
| RoomSpec.TranscriptFromDicts | lib/protocol.py:374 | the transcript reads exactly when every entry reads, entry by entry |
| RoomSpec.FromJson | lib/protocol.py:362-381 | KeyError exactly when room_id, an artifact's name or a required transcript key is missing, naming that key; `created_at` falls back to the clock, status to "open", deadline to 0 and the rules to "majority" |
| RoomSpec.JsonRoundTrip | lib/protocol.py:345-381 | `from_json(to_json(r))` is r, every field included |
| Room.AIMPRoom.constructor | lib/protocol.py:324-343 | the new object's state is `RoomSpec.NewRoom` |
| Room.AIMPRoom.FromState | lib/protocol.py:362-381 | the object built by `from_json` holds exactly the decoded state |
| Room.AIMPRoom.AddToTranscript | lib/protocol.py:393-402 | performs `RoomSpec.AddToTranscript` |
| Room.AIMPRoom.RecordRoundReply | lib/protocol.py:406-409 | performs `RoomSpec.RecordRoundReply` |
| Room.AIMPRoom.AdvanceRound | lib/protocol.py:422-425 | performs `RoomSpec.AdvanceRound` |
| Store.SaveRow | lib/session_store.py:53-60 | insert-or-replace: the saved id is present afterwards and every other row is unchanged |
| Store.SaveThenLoad | lib/session_store.py:53-69 | the latest save wins: loading the saved id gives the saved session back, with `created_at` the load time |
| Store.SaveKeepsOthers | lib/session_store.py:53-69 | a save does not change what any other id loads |
| Store.StoredLoads | lib/session_store.py:62-69 | a table written only by `save` never makes `load` raise |
| Store.SaveStored | lib/session_store.py:53-60 | saving keeps every stored row decodable |
| Store.LoadAll | lib/session_store.py:76 | one decoded session per listed row, in order, each `from_json` of the stored data |
| Store.InsertByRecency | lib/session_store.py:74 | inserting a row into the `updated_at DESC` order keeps it ordered, adds only that row, and keeps it duplicate-free |
| Store.Build | lib/session_store.py:76 | one fresh session object per state, in order |
| Store.IdsFor | lib/session_store.py:94-99 | exactly the ids recorded under the session, each once when the table has no duplicate pair |
| Store.IdsForSnoc | lib/session_store.py:94-99 | a new pair adds its id to its own session's list only |
| Store.SaveMessageIdIdempotent | lib/session_store.py:86-92 | insert-or-ignore: recording the same pair twice equals recording it once |
| Store.SaveThenLoadIds | lib/session_store.py:86-99 | a recorded id is among its session's ids, and other sessions' ids are unchanged |
| Store.DropSession | lib/session_store.py:81 | exactly the pairs of other sessions remain |
| Store.DeleteIds | lib/session_store.py:78-82 | after `delete` the session has no ids left; other sessions keep theirs |
| Store.PutFiled | handlers/room_handler.py:61 | saving a room keeps every room filed under its own id |
| Store.OpenRooms | handlers/room_handler.py:329 | exactly the stored rooms whose status is open |
| Store.BuildRooms | handlers/room_handler.py:329 | one fresh, distinct room object per state, in order |
| Store.SessionStore.constructor | lib/session_store.py:19-49 | an empty store that keeps the store invariant |
| Store.SessionStore.Save | lib/session_store.py:53-60 | the table becomes `SaveRow` of the old one; message ids and rooms are unchanged; the invariant is kept |
| Store.SessionStore.Load | lib/session_store.py:62-69 | null for an unknown id, else a fresh object holding `from_json` of the stored data |
| Store.SessionStore.ActiveIds | lib/session_store.py:71-75 | the query returns each negotiating session exactly once, most recently saved first |
| Store.SessionStore.LoadActive | lib/session_store.py:71-76 | one fresh object per negotiating session, in `updated_at` descending order, each decoded from its row |
| Store.SessionStore.Delete | lib/session_store.py:78-82 | the session row and all its message ids go; nothing else changes |
| Store.SessionStore.SaveMessageId | lib/session_store.py:86-92 | insert-or-ignore on the (session id, message id) pair; nothing else changes |
| Store.SessionStore.LoadMessageIds | lib/session_store.py:94-99 | exactly the ids recorded for the session |
| Store.SessionStore.SaveRoom | handlers/room_handler.py:61 | the room is written under its id (replacing an older copy in place), and nothing else changes |
| Store.SessionStore.LoadRoom | handlers/room_handler.py:122 | null for an unknown id, else a fresh object holding the stored room |
| Store.SessionStore.LoadOpenRooms | handlers/room_handler.py:329 | one fresh, distinct object per open room, in the order rooms were first saved |
| Email.TagContent | lib/email_client.py:49-53 | a tag's content is non-empty and has no ']' |
| Email.FindTag | lib/email_client.py:49-53 | `re.search`: the content of the leftmost tag, with no tag before it, or None when there is no tag at all |
| Email.LeadingTag | lib/email_client.py:49-53 | a tag at the very start of the subject is the one found |
| Email.SubjectRoundTrip | lib/email_client.py:49-53 | for an id that is non-empty and has no ']', the id is read back from the subject `send_aimp_email` writes |
| Email.RoomSubjectTag | handlers/room_handler.py:241 | a room subject `[AIMP:Room:X] ...` yields the id "Room:X" |
| Email.TagImpliesPrefix | lib/email_client.py:49-53 | a subject with a session id contains "[AIMP:" |
| Email.SentMailIsAimp | lib/email_client.py:342-346 | a mail with the subject `send_aimp_email` writes and a protocol.json attachment is an AIMP mail |
| Email.ExtractProtocolJson | lib/email_client.py:349-357 | a result comes from a protocol.json attachment that decodes; none without such an attachment; None only when every protocol.json attachment fails to decode |
| Email.KeepNonEmpty | lib/email_client.py:200 | exactly the non-empty tokens are kept |
| Email.ParseReferencesIsSplit | lib/email_client.py:199-200 | the References are the whitespace-split tokens of the header |
| Email.ReferencesRoundTrip | lib/email_client.py:297-298 | ids written space-joined into References (non-empty, without whitespace) are read back in order |
| Members.FirstAdmin | hub_agent.py:224-226 | the position of the first member whose role is admin, or the end when there is none |
| Members.GetAdminOwner | hub_agent.py:221-232 | the first admin member (name defaulting to its id); else the first member; else "Hub Admin" with an empty address |
| Members.AdminsOf | hub_agent.py:536-539 | exactly the ids of the members whose role is admin |
| Members.AdminIds | hub_agent.py:536-541 | the admins when there are any, otherwise every member id in order |
| Members.MemberAddresses | hub_agent.py:488-498 | the addresses written to are exactly those of listed members that have one, no more than the ids given |
| Members.IndexFrom | hub_agent.py:209-212 | every member with an address has its lower-cased address indexed, and no other key appears |
| Members.IndexFromSound | hub_agent.py:209-212 | every indexed id names a member whose address lower-cases to the key |
| Members.IdentifyIff | hub_agent.py:244-249 | both directions: a sender is identified exactly when some member's address equals theirs up to case, and then as such a member; unknown senders get None |
| Members.IdentifyCaseInsensitive | hub_agent.py:244-249 | identification ignores the case of the sender's address |
| Members.MatchMember | hub_agent.py:276-280 | None exactly when no member has that name or id up to case; otherwise the first member that does |
| Members.SplitFrom | hub_agent.py:273-285 | the classification loop keeps the internal ids duplicate-free, puts every matched name's member among the internal ids and every unmatched name among the externals, and adds nothing else |
| Members.Classify | hub_agent.py:266-285 | internal ids are distinct member ids, with a member initiator first |
| Members.ClassifyCovers | hub_agent.py:273-285 | each name is classified internal exactly when it names a member, else external |
| Members.Gathered | hub_agent.py:447-452 | each concatenated list holds exactly the entries of the listed members' lists |
| Members.MergeInternalPrefs | hub_agent.py:438-464 | auto-accept is on; each list is duplicate-free and holds exactly what some listed member's list holds |
| Members.MergeSingle | hub_agent.py:438-464 | a single member whose lists are duplicate-free keeps them exactly, order included |
| Members.RemoveAll | hub_agent.py:579 | removing a substring never lengthens the string |
| Members.LoadInternalMembers | hub_agent.py:574-581 | the ids returned are non-empty and comma-free; with no marker reference the result is [] |
| Members.RemoveAllAbsent | hub_agent.py:579 | removing an absent substring changes nothing |
| Members.ContainsSplit | hub_agent.py:579 | an occurrence of a comma-free text across a comma lies on one side of it |
| Members.JoinFree | hub_agent.py:431 | comma-joining ids that do not contain the marker text does not create it |
| Members.MarkerRoundTrip | hub_agent.py:574-581 | the marker written by the hybrid meeting gives back exactly the internal ids, when none is empty, none holds a comma or the marker text, and no earlier reference is a marker |
| AgentSpec.ApplyVoteOthers | lib/protocol.py:162-167 | a vote leaves every other voter's slot in every item as it was |
| AgentSpec.ApplyVoteOtherItem | lib/protocol.py:162-167 | an item that already has the voter's slot is untouched by a vote on another item |
| AgentSpec.DecisionVotes | agent.py:167-174 | the vote loop changes only participants and votes (never options or item names), adds only the voter, and can raise only KeyError |
| AgentSpec.DecisionVotesRaiseIff | agent.py:169-174 | both directions: the loop raises exactly when some truthy choice names an item the session lacks (ValueError is caught) |
| AgentSpec.DecisionVotesOthers | agent.py:169-174 | votes are recorded under the voter only: every other voter's slot is unchanged |
| AgentSpec.DecisionVotesKeepItem | agent.py:169-174 | an item the batch does not name, and that already has the voter's slot, is unchanged |
| AgentSpec.DecisionVotesLand | agent.py:169-174 | when the loop does not raise, each truthy choice that is an option of its item lands in the voter's slot |
| AgentSpec.DecisionVotesLandHead | agent.py:169-174 | the first truthy choice that is an option of its item, and named by no later vote, lands in the voter's slot |
| AgentSpec.DecisionVotesLandLater | agent.py:169-174 | a later truthy choice that is an option of its item lands in the voter's slot once the loop has not raised |
| AgentSpec.AddOptions | agent.py:178-180 | adding a list of options keeps every item's votes and earlier options, offers every listed option on the named item, and touches no other item |
| AgentSpec.AddOptionsOnly | agent.py:178-180 | on an existing item, only the listed options are added and the item order is kept |
| AgentSpec.AddAllOptions | agent.py:176-180 | every suggested option, for every item, is offered afterwards; only suggested items are created; nothing is lost |
| AgentSpec.ConfirmState | agent.py:277-285 | `_send_confirm`: status confirmed, the version up by one, one "confirm" entry stamped with the new version; nothing else |
| AgentSpec.ReplyState | agent.py:243-251 | `_send_reply`: the version up by one and one entry with the action, summarised by the reason or else by the action; the round count rises by one |
| AgentSpec.EscalateState | agent.py:311-314 | `_escalate_to_owner`: status escalated, with version and history unchanged |
| AgentSpec.LastAction | agent.py:138 | the last history entry's action, or "" for an empty history |
| AgentSpec.RepliesStall | lib/protocol.py:187-193 | a session that keeps being answered is stalled once its history reaches five entries |
| AgentSpec.AimpPlan | agent.py:137-196 | the ladder: acknowledge exactly when already confirmed; a stalled session not ended by confirm or escalate is escalated as is; confirm only when fully resolved; a reply carries the oracle's action and reason and is sent only when not resolved; a KeyError aborts; votes and options never move the version, history or status |
| AgentSpec.OracleNotConsulted | agent.py:137-156 | a confirmed, stalled or resolved session gets the same plan whatever the oracle says |
| AgentSpec.OracleEscalation | agent.py:158-165 | an oracle escalation escalates the incoming session with no vote applied |
| AgentSpec.OracleVotesAreOwn | agent.py:167-180 | the oracle's votes are the agent's own: every other voter's slot is unchanged and the incoming options are kept |
| AgentSpec.OracleOptionsOffered | agent.py:176-180 | every option the oracle suggests is offered in the outgoing session |
| AgentSpec.HumanPlan | agent.py:211-239 | the human's votes go under the sender and a KeyError aborts; confirm exactly when resolved after the votes; escalate only on the parser's escalate; otherwise reply; options are never added |
| AgentSpec.NotifyIds | hub_agent.py:543-545 | the internal members recorded for the session, when any, else the admins |
| AgentSpec.ConfirmMails | agent.py:349-377 | the confirmation notice carries no protocol mail; a standalone agent sends exactly one mail, to its owner |
| AgentSpec.AimpMailFor | agent.py:254-272 | the protocol mail carries the session id, its version and its JSON, goes to every participant but the agent, and references the recorded ids and the answered one |
| AgentSpec.SendAimp | agent.py:263-274 | one mail is sent, its id recorded (insert-or-ignore), and the session saved |
| AgentSpec.SendAimpRecorded | agent.py:263-274 | after the send the session loads back as sent, the new id is among the session's ids, and no other session's ids change |
| AgentSpec.ConfirmWorld | agent.py:277-309 | the confirmed session is saved, the id recorded, and the protocol mail with the confirmed suffix is followed by the owner's notice |
| AgentSpec.EscalateWorld | agent.py:311-346 | the escalated session is saved, no id is recorded, and one mail tagged with the session goes to the owner |
| AgentSpec.HandleAimp | agent.py:123-196 | no protocol.json, or the empty object `{}`, changes nothing; any other object goes to `from_json`; a failed decode raises; otherwise the incoming session is saved before the ladder is followed |
| AgentSpec.KeyedObjectWithoutSessionRaises | agent.py:126-131 | a non-empty object without "session_id" raises KeyError("session_id") and leaves the world unchanged |
| AgentSpec.ForeignObjectRaises | agent.py:126-131 | the object `{"foo": 1}` passes `if not data`, so its mail raises KeyError instead of being ignored |
| AgentSpec.HandleHuman | agent.py:198-209 | no session id in the subject, or an unknown session, changes nothing and returns [] |
| AgentSpec.HandleEmail | agent.py:110-121 | mail from the agent's own address changes nothing and returns [] |
| AgentSpec.ConfirmedSessionAcknowledged | agent.py:137-143 | an incoming confirmation is saved and acknowledged with a consensus event; no id is recorded and no protocol mail goes out |
| AgentSpec.ConfirmationIsFinal | agent.py:137-143 | once an agent confirms, the peer that decodes the confirmation acknowledges it whatever its oracle says |
| AgentSpec.ReplyMail | agent.py:243-274 | a reply adds one protocol mail carrying the session one version further, not to the agent itself, referencing the answered message |
| AgentSpec.ReplyCarriesState | agent.py:243-274 | a reply to an AIMP mail carries the session one version further, with the oracle's action and reason last in its history, and references the mail it answers |
| AgentSpec.Route | agent.py:418-436 | a contact with an agent goes to its agent, a contact without one to its human (a missing address is a KeyError), an unknown name with '@' becomes a human participant, and an unknown name without '@' is skipped |
| AgentSpec.RouteAll | agent.py:413-436 | the loop only appends; every agent and human of a name is addressed, and nobody else; every recipient is a participant; only KeyError is raised |
| AgentSpec.RouteAllFailsIff | agent.py:428-436 | both directions: routing fails exactly when some name is a contact lacking the address it needs |
| AgentSpec.VoteFirst | agent.py:451-456 | voting the first preference changes only participants and votes |
| AgentSpec.InitialVoted | agent.py:438-456 | before the first history entry the session is at version 0, negotiating, with no history |
| AgentSpec.InitialSession | agent.py:438-463 | the saved session has version 1 and exactly one "propose" entry from the agent |
| AgentSpec.InitialVotesGoThrough | agent.py:445-456 | the initiator's two votes never raise: each is for an option just added |
| AgentSpec.InitialOffered | agent.py:438-449 | after the options are added, both items are there, the preferences are the options, and every slot is empty |
| AgentSpec.InitialVotes | agent.py:438-456 | the agent votes its first preferred time and location (None when it has none); every other participant's slots stay empty |
| AgentSpec.InitialSessionContents | agent.py:438-463 | the proposal's participants, initiator, items, options and slots, as saved |
| AgentSpec.InitiateWorld | agent.py:408-498 | a KeyError while routing changes nothing; otherwise the session id is returned and mails are only appended |
| AgentSpec.InitialHasCoreItems | agent.py:438-463 | the initial session has both core items, so it survives the store's round trip |
| AgentSpec.InitiateMails | agent.py:464-487 | the session is saved, then one protocol mail at version 1 goes to the agents if there are any, then one invitation tagged with the session per human |
| AgentSpec.DispatchMails | agent.py:464-487 | dispatching saves the session row and only appends to the outbox: the protocol mail when there are agents, then one invitation per human |
| AgentSpec.InitiateSaves | agent.py:464 | after `initiate_meeting` the session loads back as initiated |
| AgentSpec.InitiateReachesAgents | agent.py:469-478 | every agent of a named contact is addressed by the protocol mail, which carries version 1 and the saved session |
| AgentSpec.InitiateInvitesHumans | agent.py:481-487 | every human participant gets an invitation tagged with the session |
| AgentSpec.ResolvePassword | agent.py:75-83 | a "$NAME" value is read from the environment, and an unset or empty variable is a ValueError; any other value is returned as is |
| Agent.AIMPAgent.constructor | agent.py:40-71 | a valid agent with the configured addresses, contacts, preferences and store, and nothing sent |
| Agent.AIMPAgent.SendAimp | agent.py:254-274 | the world becomes `AgentSpec.SendAimp` of the old one; the agent's own configuration is unchanged |
| Agent.AIMPAgent.SendReply | agent.py:243-274 | the session becomes `AgentSpec.ReplyState` of itself and the world `AgentSpec.ReplyWorld` |
| Agent.AIMPAgent.NotifyMembers | hub_agent.py:468-500 | one member-notify mail per listed member that has an address, in order |
| Agent.AIMPAgent.NotifyOwnerConfirmed | agent.py:349-377 | appends exactly `AgentSpec.ConfirmMails` (the owner, or the hub's members) |
| Agent.AIMPAgent.SendConfirm | agent.py:277-309 | the session becomes `AgentSpec.ConfirmState` of itself and the world `AgentSpec.ConfirmWorld` |
| Agent.AIMPAgent.EscalateToOwner | agent.py:311-346 | the session becomes `AgentSpec.EscalateState` of itself and the world `AgentSpec.EscalateWorld` |
| Agent.AIMPAgent.ApplyDecisionVotes | agent.py:167-174 | the in-place vote loop performs `AgentSpec.DecisionVotes`, raising what it raises |
| Agent.AIMPAgent.AddNewOptions | agent.py:176-180 | the nested option loop performs `AgentSpec.AddAllOptions` |
| Agent.AIMPAgent.AnswerWithDecision | agent.py:167-196 | from the oracle's votes on, the world and events are those of `AgentSpec.AimpPlan` performed |
| Agent.AIMPAgent.AnswerAimp | agent.py:137-196 | the ladder after the save: world and events are those of `AgentSpec.AimpPlan` performed |
| Agent.AIMPAgent.AnswerConfirmed | agent.py:137-143 | on a session the peer already confirmed, the owner is notified and the world and events are those of `AgentSpec.AimpPlan` performed |
| Agent.AIMPAgent.AnswerStalled | agent.py:145-150 | on a stalled session not ended by confirm or escalate, the escalation is the `AgentSpec.AimpPlan` step performed; notifier and preferences are kept |
| Agent.AIMPAgent.AnswerOpen | agent.py:152-196 | with the session neither confirmed nor stalled, confirm or the oracle's decision is the `AgentSpec.AimpPlan` step performed |
| Agent.AIMPAgent.HandleAimpEmail | agent.py:123-196 | the world and events are exactly `AgentSpec.HandleAimp` |
| Agent.AIMPAgent.HandleHumanEmail | agent.py:198-239 | the world and events are exactly `AgentSpec.HandleHuman` |
| Agent.AIMPAgent.AnswerHuman | agent.py:213-241 | from the human's votes on, the world and events are those of `AgentSpec.HumanPlan` performed |
| Agent.AIMPAgent.HandleEmail | agent.py:110-121 | the world and events are exactly `AgentSpec.HandleEmail` |
| Agent.AIMPAgent.RouteParticipants | agent.py:413-436 | the routing loop computes `AgentSpec.RouteAll` from the agent alone |
| Agent.AIMPAgent.AddEach | agent.py:446-449 | the option loop performs `AgentSpec.AddOptions` |
| Agent.AIMPAgent.BuildInitialSession | agent.py:438-463 | a fresh session holding `AgentSpec.InitialSession` |
| Agent.AIMPAgent.VoteFirst | agent.py:451-456 | the session ends in `AgentSpec.VoteFirst`'s state: the agent's vote for the first preference, or no change when there is none |
| Agent.AIMPAgent.SendInvitations | agent.py:481-487 | one invitation tagged with the session per human, in order |
| Agent.AIMPAgent.InitiateMeeting | agent.py:408-498 | the world and the result are exactly `AgentSpec.InitiateWorld`; the rooms are untouched |
| Agent.AIMPAgent.Dispatch | agent.py:464-487 | the world after the save, the protocol mail and the invitations is exactly `AgentSpec.Dispatch`; the rooms are untouched |
| HubSpec.CreateAgent | hub_agent.py:589-603 | a configuration with "members" builds the hub agent whatever its mode, so does the mode "hub", and an owner's configuration with neither builds the standalone agent |
| HubSpec.HubSectionAloneIsStandalone | hub_agent.py:598-603 | the code never reads a "hub:" key, so a "hub:" section without members or the hub mode builds the standalone agent |
| HubSpec.MembersWithoutHubIsHub | hub_agent.py:589-603 | the docstring pairs "hub:" with "members:", but the code tests only "members" or the hub mode, so either alone, with no "hub:" section, builds the hub agent |
| HubSpec.HubNeedsMembersOrMode | hub_agent.py:598-603 | the hub agent is built only for a configuration with members or in the hub mode |
| HubSpec.OfferAndVote | hub_agent.py:339-344 | a truthy choice is offered and lands in the voter's slot; a falsy one changes nothing; version, history and status never move |
| HubSpec.InternalSession | hub_agent.py:327-382 | the hub is the initiator; version 1, round 1, and one history entry: "confirm" with status confirmed when the oracle agreed, else "escalate" with status escalated |
| HubSpec.SoleVote | lib/protocol.py:72-82 | a single slot holding c is consensus on c |
| HubSpec.InternalConsensus | hub_agent.py:327-352 | an agreed answer with a time and a location gives a single-participant, confirmed, fully resolved session agreed on exactly those choices |
| HubSpec.SoleStep | hub_agent.py:339-344 | offering and voting the oracle's choice fills the hub's one slot on that item and leaves the other item alone |
| HubSpec.InternalConflict | hub_agent.py:374-383 | without agreement the session is escalated, offers nothing, and is not resolved |
| HubSpec.ConfirmedWithoutTime | hub_agent.py:337-347 | an agreed answer with no time still marks the session confirmed although its time item is unresolved |
| HubSpec.InternalWorld | hub_agent.py:302-403 | no message id is recorded and only human mails are added |
| HubSpec.InternalNotifies | hub_agent.py:468-500 | every listed member with an address gets the meeting notice, and the session loads back as saved |
| HubSpec.MergedStance | hub_agent.py:419-425 | the stance's times and locations are exactly those some internal member prefers |
| HubSpec.HybridWorld | hub_agent.py:428-431 | the parent's initiation, then the internal-members marker recorded under the new session when it succeeded |
| HubSpec.HybridAsWritten | hub_agent.py:419-428 | as written: the parent's initiation runs under the adapted configuration's empty preferences |
| HubSpec.HybridIntended | hub_agent.py:419-428 | as intended: the parent's initiation proposes the merged stance |
| HubSpec.HybridSaves | agent.py:438-464 | the session a hybrid initiation saves offers exactly the given preferences, with the hub's vote on the first time |
| HubSpec.HybridDropsMergedPrefs | hub_agent.py:419-428 | as written, the hybrid proposal offers no time and no location even when members prefer some |
| HubSpec.HybridOffersMergedPrefs | hub_agent.py:419-428 | the intended hybrid proposal offers exactly what some internal member prefers, with the hub's vote on the first merged time |
| HubSpec.IdsAfterInitiate | agent.py:469-478 | a fresh session's only recorded id after initiation is the protocol mail's |
| HubSpec.HybridRemembersMembers | hub_agent.py:543-545 | after a hybrid initiation the confirmation notice goes to exactly the recorded internal members |
| HubSpec.HubInitiate | hub_agent.py:253-298 | a members-only meeting is settled by the scheduling answer; any outsider makes it hybrid, run as written: the parent's initiation under the empty adapted preferences, then the internal-members marker |
| HubSpec.InternalMeetingSendsNoProtocol | hub_agent.py:302-403 | a meeting among members alone succeeds, records no message id and sends no protocol mail |
| HubSpec.AllMembersStayInternal | hub_agent.py:273-285 | names that all denote members add no outsider |
| HubSpec.OutsiderMakesHybrid | hub_agent.py:281-298 | a name that denotes no member makes the meeting hybrid |
| HubSpec.MemberCommandAnswer | hub_agent.py:503-528 | an unknown sender gets the access-denied mail and one "rejected"/"not_in_whitelist" event; a member's command is passed on with its id and name |
| HubSpec.MemberCommandGate | hub_agent.py:503-528 | exactly one event, a rejection exactly when no member has the sender's address up to case; an accepted command names such a member |
| Hub.AIMPHubAgent.constructor | hub_agent.py:168-219 | the agent speaks for the hub with the admin owner's address, empty preferences (its own and the negotiator's) and the confirmation audience of the members; the sender index is `Members.EmailIndex` |
| Hub.AIMPHubAgent.BuildIndex | hub_agent.py:209-212 | the index loop computes `Members.EmailIndex` |
| Hub.AIMPHubAgent.FindMember | hub_agent.py:276-280 | the inner loop finds `Members.MatchMember` |
| Hub.AIMPHubAgent.ClassifyParticipants | hub_agent.py:266-285 | the classification loop computes `Members.Classify` |
| Hub.AIMPHubAgent.MergePrefs | hub_agent.py:438-464 | the extend-then-dedup loops compute `Members.MergeInternalPrefs` |
| Hub.AIMPHubAgent.BuildInternalSession | hub_agent.py:327-382 | a fresh session holding `HubSpec.InternalSession` |
| Hub.AIMPHubAgent.InitiateInternalMeeting | hub_agent.py:302-403 | returns the session id; the world becomes `HubSpec.InternalWorld` |
| Hub.AIMPHubAgent.InitiateHybridMeeting | hub_agent.py:407-436 | as written: the world and the result are `HubSpec.HybridAsWritten`, and the merged stance reaches only the negotiator's preferences |
| Hub.AIMPHubAgent.InitiateMeeting | hub_agent.py:253-298 | the world and the result are `HubSpec.HubInitiate`; a hybrid meeting leaves the members' merged stance as the negotiator's preferences, a members-only one leaves them alone |
| Hub.AIMPHubAgent.HandleMemberCommand | hub_agent.py:503-528 | the mails and events of `HubSpec.MemberCommandAnswer` |
| SessionHandlerSpec.CoordinatedSessionShape | handlers/session_handler.py:84-104 | the coordinated session lists the hub first then every member address, has the hub as initiator, version 1 after one bump, one "propose" history entry, status negotiating in round 1, the core agenda, and is neither resolved nor stalled |
| SessionHandlerSpec.CoordinatedWorld | handlers/session_handler.py:104-146 | the internal meeting sends no AIMP mail and records no message id: it only appends human mails to the outbox |
| SessionHandlerSpec.CoordinatedReachesMembers | handlers/session_handler.py:86-135 | every listed member with an address receives an availability request tagged with the session id, is a participant of the saved session, and the saved session loads back |
| SessionHandlerSpec.VoteKeepsItems | lib/protocol.py:162-167 | `apply_vote`, whether it raises or not, changes only participants and the agenda, and withdraws no item and no option |
| SessionHandlerSpec.OfferKeepsItems | lib/protocol.py:154-160 | `add_option` withdraws no item and no option |
| SessionHandlerSpec.EnsureKeepsSlot | lib/protocol.py:144-150 | adding a participant keeps every existing vote slot and its value |
| SessionHandlerSpec.VoteKeepsOtherSlot | lib/protocol.py:162-167 | a vote on one item leaves every slot of every other item unchanged |
| SessionHandlerSpec.OfferListed | handlers/session_handler.py:209-211 | offering the listed options touches only that item's options; every non-empty listed option is an option afterwards; nothing is withdrawn |
| SessionHandlerSpec.SenderChoice | handlers/session_handler.py:212-213 | the sender's choice is present exactly when the item's votes name the sender with a non-empty value, and is that value |
| SessionHandlerSpec.ApplyItem | handlers/session_handler.py:208-217 | one incoming item changes only participants and the agenda and withdraws nothing |
| SessionHandlerSpec.ApplyItemKeepsOther | handlers/session_handler.py:208-217 | one incoming item leaves the sender's recorded choice on every other item as it was |
| SessionHandlerSpec.ApplyItemRecords | handlers/session_handler.py:209-215 | a sender's choice that the same message also lists as an option becomes the sender's vote |
| SessionHandlerSpec.ApplyItemSwallows | handlers/session_handler.py:214-217 | a choice that is not an option after the offers raises inside `apply_vote` and is swallowed: the only effect beyond the offers is the sender becoming a participant |
| SessionHandlerSpec.ApplyItems | handlers/session_handler.py:208-217 | the loop over the incoming proposals changes only participants and the agenda and withdraws nothing |
| SessionHandlerSpec.ApplyProtocolVotes | handlers/session_handler.py:205-217 | applying a protocol message changes only participants and the agenda and withdraws nothing; a message without proposals applies nothing |
| SessionHandlerSpec.ApplyItemsKeepsChoice | handlers/session_handler.py:208-217 | items the message does not mention keep the sender's recorded choice |
| SessionHandlerSpec.ApplyItemsOffers | handlers/session_handler.py:209-211 | every non-empty option the message lists for an item is an option of that item afterwards |
| SessionHandlerSpec.ApplyItemsRecords | handlers/session_handler.py:208-215 | with distinct item names, each sender choice that the message also offers is the sender's vote afterwards |
| SessionHandlerSpec.HumanVote | handlers/session_handler.py:246-251 | the vote-or-offer-then-vote retry changes only participants and the agenda and withdraws nothing |
| SessionHandlerSpec.HumanVoteLands | handlers/session_handler.py:247-251 | the retry never raises a second time, and afterwards the choice is an option and the sender's vote |
| SessionHandlerSpec.HumanVotes | handlers/session_handler.py:244-251 | the parsed human votes change only participants and the agenda and withdraw nothing |
| SessionHandlerSpec.HumanVotesKeepsChoice | handlers/session_handler.py:245-251 | items the parsed reply does not name keep the sender's recorded choice |
| SessionHandlerSpec.HumanVotesRecord | handlers/session_handler.py:245-251 | with distinct item names, every truthy parsed choice becomes the sender's vote and an option of its item |
| SessionHandlerSpec.HumanVotesRecordHead | handlers/session_handler.py:245-251 | a non-empty first choice named by no later vote is the sender's vote and an option of its item |
| SessionHandlerSpec.ApplyReply | handlers/session_handler.py:240-251 | one pending reply, protocol or human, changes only participants and the agenda and withdraws nothing |
| SessionHandlerSpec.ApplyPending | handlers/session_handler.py:239-251 | the whole round's replies change only participants and the agenda and withdraw nothing |
| SessionHandlerSpec.ApplyPendingSnoc | handlers/session_handler.py:239-251 | replies are applied in list order, each acting on what the earlier ones left |
| SessionHandlerSpec.LastHumanReplyWins | handlers/session_handler.py:239-251 | the last human reply of a round fixes its sender's vote for every item it names |
| SessionHandlerSpec.CloseRound | handlers/session_handler.py:235-274 | closing a round keeps the session id and the participants the replies produced |
| SessionHandlerSpec.Decide | handlers/session_handler.py:255-274 | deciding a round, whichever branch, keeps the session id and the participants |
| SessionHandlerSpec.RoundWorld | handlers/session_handler.py:253-276 | closing a round appends exactly one mail to the outbox and keeps the earlier ones |
| SessionHandlerSpec.RoundAdvancesOnce | handlers/session_handler.py:253 | in every branch the round advances by exactly one with no respondents, the topic and initiator are kept, and nothing is withdrawn |
| SessionHandlerSpec.RoundConfirms | handlers/session_handler.py:255-262 | a fully resolved session is confirmed even when stalled: one bump, one "confirm" entry, the confirmed subject, and a consensus event whose every item has a winner |
| SessionHandlerSpec.RoundEscalates | handlers/session_handler.py:263-267 | an unresolved stalled session is escalated with neither a version bump nor a history entry |
| SessionHandlerSpec.RoundCounters | handlers/session_handler.py:268-274 | otherwise the hub counters: one bump, one "counter" entry naming the new round, the status kept, a reply-sent event with the new round |
| SessionHandlerSpec.ShortHistoryNeverEscalates | lib/protocol.py:187-193 | the stall test counts history entries, so a session with fewer entries than the limit is never escalated by a round |
| SessionHandlerSpec.RoundBroadcast | handlers/session_handler.py:219-233 | the round's broadcast is one AIMP mail of the final state to exactly the participants other than the hub, referencing the session's earlier message ids; the new id is recorded and the final state saved |
| SessionHandler.MemberEmails | handlers/session_handler.py:87-91 | the comprehension yields the addresses of the listed members that have one, in order |
| SessionHandler.InitiateCoordinatedMeeting | handlers/session_handler.py:70-146 | returns the given session id and leaves the agent in exactly the world CoordinatedWorld describes |
| SessionHandler.RequestAvailability | handlers/session_handler.py:109-135 | one availability request tagged with the session per member address, in order, appended to the outbox |
| SessionHandler.ApplyProtocolVotes | handlers/session_handler.py:205-217 | the nested loops leave the session in the state ApplyProtocolVotes describes |
| SessionHandler.ApplyHumanVotes | handlers/session_handler.py:244-251 | the loop over the parsed votes leaves the session in the state HumanVotes describes |
| SessionHandler.SendSessionReply | handlers/session_handler.py:219-233 | appends the one AIMP mail for the session's state and records its message id, without touching saved sessions |
| SessionHandler.ProcessSessionRound | handlers/session_handler.py:235-277 | the session ends in CloseRound's state, the one event is returned, and the agent's world is RoundWorld's |
| SessionHandler.ApplyPendingReplies | handlers/session_handler.py:239-251 | the loop leaves the session in `ApplyPending`'s state |
| SessionHandler.DecideRound | handlers/session_handler.py:255-274 | the session, the subject suffix and the event are those of `Decide` |
| RoomHandlerSpec.RoomMails | handlers/room_handler.py:420-428 | one mail of the given kind per participant, in participant order, each tagged with the room |
| RoomHandlerSpec.Take | handlers/room_handler.py:58 | a string slice `s[:n]` is a prefix of `s` of length `min(len(s), n)` |
| RoomHandlerSpec.CreatedRoom | handlers/room_handler.py:18-61 | a new room is open in round 1 with nobody accepted and the given participants; without a proposal it has no artifacts and an empty transcript, with one it holds exactly the initial-proposal artifact by the initiator and one "PROPOSE" entry |
| RoomHandlerSpec.InitiateRoomWorld | handlers/room_handler.py:61-109 | the created room is filed under its id, no other room changes, and one call for participation goes to the participants |
| RoomHandlerSpec.ApplyActionEffect | handlers/room_handler.py:187-214 | an action adds exactly one transcript entry under the sender and the upper-cased action; ACCEPT adds the sender to the acceptances once and files nothing; PROPOSE or AMEND with content files it under the sender's proposal name and changes no other artifact; anything else changes neither; status, round, participants and deadline never move |
| RoomHandlerSpec.Finalize | handlers/room_handler.py:279-293 | finalizing sets the status to finalized, keeps participants, acceptances, round and artifacts, and appends one FINALIZED entry naming the trigger |
| RoomHandlerSpec.FinalizeWorld | handlers/room_handler.py:279-322 | the finalized room replaces the stored one, no other room changes, and the minutes go to every participant |
| RoomHandlerSpec.HandleRoomEmail | handlers/room_handler.py:111-185 | handling a room mail yields at most one event |
| RoomHandlerSpec.RoomAmendment | handlers/room_handler.py:146-185 | a participant's amendment to an open room yields exactly one event |
| RoomHandlerSpec.RoomEmailIgnored | handlers/room_handler.py:119-135 | a room mail changes nothing and yields nothing exactly when it has no room id, names an unknown room, a room that is not open, or comes from a non-participant |
| RoomHandlerSpec.RoomEmailApplied | handlers/room_handler.py:137-185 | an applied mail is saved; if everybody has then accepted the room is finalized with one all_accepted event and the minutes, otherwise it stays open with one amendment event carrying the action and one status update per participant |
| RoomHandlerSpec.ApplyReplies | handlers/room_handler.py:249-259 | the replies of a round keep participants, status, id, round, deadline and initiator, and extend the transcript by one entry per reply from a participant |
| RoomHandlerSpec.Counted | handlers/room_handler.py:249-253 | the number of replies from participants is at most the number of replies |
| RoomHandlerSpec.StrangersSkipped | handlers/room_handler.py:251-253 | replies from non-participants change nothing |
| RoomHandlerSpec.ProcessRoomRound | handlers/room_handler.py:245-277 | a room round yields exactly one event |
| RoomHandlerSpec.RoomRoundOutcome | handlers/room_handler.py:245-277 | a round advances once with no respondents, adds one entry per participant reply, and then finalizes (all_accepted whenever it holds, else deadline_expired) with the minutes, or keeps the status, adds one aggregate entry and sends a round summary to every participant; no other room changes |
| RoomHandlerSpec.CloseRoomRound | handlers/room_handler.py:261-277 | closing an advanced round yields exactly one event |
| RoomHandlerSpec.RoomRoundFinalizes | handlers/room_handler.py:259-267 | when all accepted or the deadline passed, the advanced room is finalized with the minutes sent and one room_finalized event naming the trigger; other rooms are untouched |
| RoomHandlerSpec.RoomRoundAggregates | handlers/room_handler.py:268-277 | otherwise the status and acceptances are kept, one aggregate entry closes the transcript, a round summary goes to every participant and one room_round event names the new round |
| RoomHandlerSpec.FinalizeDue | handlers/room_handler.py:330-336 | the sweep only appends to the outbox |
| RoomHandlerSpec.CheckDeadlinesExact | handlers/room_handler.py:324-336 | the sweep finalizes exactly the stored rooms that are open and past their deadline and leaves every other room as it was |
| RoomHandlerSpec.SweepFrom | handlers/room_handler.py:329-336 | the loop over the open rooms leaves under each id the finalized room when that room was open and overdue, and otherwise what was there |
| RoomHandlerSpec.RoomConfirmEffect | handlers/room_handler.py:338-363 | a CONFIRM keeps the status, counts the sender as accepting at most once, appends one CONFIRM entry, and yields one room_confirmed event |
| RoomHandlerSpec.RoomConfirmTwice | handlers/room_handler.py:343-350 | confirming twice records the sender once but logs two entries |
| RoomHandlerSpec.RoomRejectEffect | handlers/room_handler.py:365-401 | a REJECT changes only the transcript, by one REJECT entry, and sends the initiator a decision request and the sender an acknowledgement |
| RoomHandler.SendRoomMails | handlers/room_handler.py:420-428 | the loop appends exactly RoomMails of the room |
| RoomHandler.InitiateRoom | handlers/room_handler.py:18-109 | returns the room id, leaves sessions and message ids alone, and ends in InitiateRoomWorld's state |
| RoomHandler.BuildRoom | handlers/room_handler.py:36-60 | a fresh room holding `CreatedRoom`'s state |
| RoomHandler.ApplyRoomAction | handlers/room_handler.py:187-214 | the room ends in ApplyAction's state |
| RoomHandler.FinalizeRoom | handlers/room_handler.py:279-322 | the room ends in Finalize's state and the hub's rooms and outbox in FinalizeWorld's |
| RoomHandler.HandleRoomEmail | handlers/room_handler.py:111-185 | the hub's rooms and outbox and the events are those HandleRoomEmail describes; sessions are untouched |
| RoomHandler.AmendRoom | handlers/room_handler.py:146-185 | the hub's rooms and outbox and the events are those `RoomAmendment` describes; sessions are untouched |
| RoomHandler.ProcessRoomRound | handlers/room_handler.py:245-277 | the hub's rooms, outbox and events are those ProcessRoomRound describes, and the stored room is the object's state |
| RoomHandler.ApplyRoomReplies | handlers/room_handler.py:249-257 | the loop leaves the room in `ApplyReplies`'s state |
| RoomHandler.CloseRoomRound | handlers/room_handler.py:261-277 | the hub's rooms, outbox and events are those `CloseRoomRound` describes, and the stored room is the object's state |
| RoomHandler.SweepRoom | handlers/room_handler.py:331-336 | a room past its deadline is finalized as FinalizeWorld describes; any other room leaves the hub unchanged |
| RoomHandler.CheckDeadlines | handlers/room_handler.py:324-336 | the hub ends in the state CheckDeadlines describes |
| RoomHandler.FinalizeDueStep | handlers/room_handler.py:330-336 | sweeping one room, finalized exactly when it is past its deadline, leaves the rest of the sweep to the next rooms |
| RoomHandler.HandleRoomConfirm | handlers/room_handler.py:338-363 | the hub and events are those HandleRoomConfirm describes |
| RoomHandler.HandleRoomReject | handlers/room_handler.py:365-401 | the hub and events are those HandleRoomReject describes |
| RegistrationSpec.InviteContent | handlers/registration_handler.py:22 | the captured group of the invite tag is non-empty and holds no ']' |
| RegistrationSpec.FindInvite | handlers/registration_handler.py:22-24 | the search returns the content of the leftmost invite tag at or after the start, and nothing exactly when no position holds a tag |
| RegistrationSpec.InviteTagRoundTrip | handlers/registration_handler.py:22-26 | a subject opening with the tag in any letter case followed by a code and ']' yields that code trimmed |
| RegistrationSpec.FirstWithCode | handlers/registration_handler.py:118-120 | the index of the first entry carrying the code, every entry before it carrying another code, or the length when none does |
| RegistrationSpec.ValidateInviteCode | handlers/registration_handler.py:115-134 | a code is valid exactly when its first entry exists and is neither expired nor used up, and the answer is that entry |
| RegistrationSpec.InvalidCodes | handlers/registration_handler.py:118-134 | an unknown code, a first entry past its expiry date, and a first entry whose uses reached a positive limit are all refused |
| RegistrationSpec.UnlimitedCode | handlers/registration_handler.py:126-132 | a first entry with no positive limit and no expiry in force is accepted |
| RegistrationSpec.Consume | handlers/registration_handler.py:158-163 | consuming adds one use (an absent count being 0) to the first entry with the code and changes nothing else |
| RegistrationSpec.ConsumeReachesLimit | handlers/registration_handler.py:129-131 | the use that reaches a code's limit makes the code invalid from then on |
| RegistrationSpec.ConsumeKeepsOthers | handlers/registration_handler.py:158-163 | consuming one code leaves the verdict on every other code unchanged |
| RegistrationSpec.FirstAfterConsume | handlers/registration_handler.py:158-163 | consuming changes no entry's code, so the first entry with any code stays where it was |
| RegistrationSpec.KeyOf | handlers/registration_handler.py:140 | the key has the address's length, with every character that is not an ASCII letter or digit replaced by '_' |
| RegistrationSpec.RegisteredIsIdentified | handlers/registration_handler.py:136-155 | after registration the address, in any case, is identified as the trusted id whose member carries the name, the address and the trusted role; every other address and member is unchanged |
| RegistrationSpec.EmailIndexResolves | hub_agent.py:208-212 | the lower-cased address index the hub builds from members with distinct ids maps each address to a member with that address |
| RegistrationSpec.RegisterKeepsResolving | handlers/registration_handler.py:136-155 | registration keeps the index resolving unless another address already maps to the new trusted id |
| RegistrationSpec.KeyCollision | handlers/registration_handler.py:140-150 | "a.b@x.io" and "a_b@x.io" share one trusted id, so the second registration overwrites the first's member and the index stops resolving |
| RegistrationSpec.Capitalize | handlers/registration_handler.py:60 | capitalizing keeps the length, upper-cases the first character and lower-cases every other one |
| RegistrationSpec.CapitalizeIdempotent | handlers/registration_handler.py:60 | capitalizing twice is capitalizing once |
| RegistrationSpec.InviteOutcomes | handlers/registration_handler.py:28-113 | exactly one mail is sent; a known sender and an invalid code register nothing and leave the codes; a valid code registers the sender, who is identified from then on, and adds exactly one use to the code's first entry |
| RegistrationSpec.CheckInviteEmail | handlers/registration_handler.py:16-26 | the mail is left unhandled exactly when the subject holds no invite tag |
| Registration.ValidateInviteCode | handlers/registration_handler.py:115-134 | the scan returns ValidateInviteCode's answer |
| Registration.ConsumeInviteCode | handlers/registration_handler.py:158-163 | the codes end as Consume describes |
| Registration.RegisterTrustedUser | handlers/registration_handler.py:136-155 | the roster ends as Register describes and the hub stays consistent |
| Registration.HandleInviteRequest | handlers/registration_handler.py:28-113 | the roster, codes, outbox and events are those HandleInviteRequest describes |
| Registration.CheckInviteEmail | handlers/registration_handler.py:16-26 | returns nothing exactly when the spec does, changing nothing then, and otherwise ends as the spec's request handling |
| CommandSpec.ShortNoContains | handlers/command_handler.py:347 | a text shorter than a pattern does not contain it |
| CommandSpec.LocalPartOf | handlers/command_handler.py:344 | the local part of `l@d` is `l` lower-cased, whatever the domain |
| CommandSpec.ListedLocal | handlers/command_handler.py:345-346 | a listed local part makes any address an automatic sender |
| CommandSpec.MarkedLocal | handlers/command_handler.py:347-348 | a local part containing one of the markers makes any address an automatic sender |
| CommandSpec.AutoReplyNoreply | handlers/command_handler.py:331-335 | "noreply@example.com" is an automatic sender |
| CommandSpec.AutoReplyNoDashReply | handlers/command_handler.py:331-335 | "no-reply@example.com" is an automatic sender |
| CommandSpec.AutoReplyMailerDaemon | handlers/command_handler.py:331-335 | "mailer-daemon@example.com" is an automatic sender |
| CommandSpec.AutoReplyPostmaster | handlers/command_handler.py:331-335 | "postmaster@example.com" is an automatic sender |
| CommandSpec.AutoReplyBounce | handlers/command_handler.py:331-335 | "bounce@example.com" is an automatic sender |
| CommandSpec.AutoReplyNotifications | handlers/command_handler.py:331-335 | "notifications@service.io" is an automatic sender |
| CommandSpec.PrefixedSubject | handlers/command_handler.py:349-350 | a subject that opens with a listed prefix in any letter case, and does not end in white space, marks the mail whatever its sender |
| CommandSpec.OutOfOfficeSubject | handlers/command_handler.py:336-350 | an "Out of office" subject marks the mail whatever its sender |
| CommandSpec.AutomaticReplySubject | handlers/command_handler.py:336-350 | an "Automatic Reply" subject marks the mail whatever its sender and case |
| CommandSpec.UndeliverableSubject | handlers/command_handler.py:336-350 | an "Undeliverable" subject marks the mail whatever its sender |
| CommandSpec.NotifyUserUnmarked | handlers/command_handler.py:347 | "notify-user" contains none of the markers |
| CommandSpec.DiffersAt | handlers/command_handler.py:349 | a text does not start with a pattern it differs from at some position |
| CommandSpec.NotifyUserLacksNoDashReply | handlers/command_handler.py:347 | "notify-user" does not contain "no-reply" |
| CommandSpec.NotifyUserLacksNoreply | handlers/command_handler.py:347 | "notify-user" does not contain "noreply" |
| CommandSpec.NotAutoReply | handlers/command_handler.py:342-351 | an address neither listed nor marked, with no automatic subject, is not an automatic sender |
| CommandSpec.OrdinarySubjects | handlers/command_handler.py:349 | "Re: Meeting" and "Hello" are not automatic subjects |
| CommandSpec.OrdinaryMail | handlers/command_handler.py:342-351 | an ordinary sender with an ordinary subject is not taken for a robot |
| CommandSpec.NotifyUserOrdinary | handlers/command_handler.py:342-351 | a local part that merely starts like a marker is not taken for a robot |
| CommandSpec.ThrottleOncePerWindow | handlers/command_handler.py:353-366 | after a guidance mail the same address in any case gets no other within 24 hours and gets one again after |
| CommandSpec.ThrottleSeparate | handlers/command_handler.py:353-366 | the throttle of one address does not affect any other address |
| CommandSpec.FirstDenoted | handlers/command_handler.py:287-289 | the position of the first member whose name or id matches up to case, or the length when none does |
| CommandSpec.FindContact | handlers/command_handler.py:280-304 | members come first and resolve to a human; then an agent contact resolves to its agent address, raising KeyError exactly when it has none; nothing is found exactly when no member, no usable contact and no '@' |
| CommandSpec.FixtureMembers | handlers/command_handler.py:287-289 | a member is found by display name in any case and by id |
| CommandSpec.NoFixtureMember | handlers/command_handler.py:287-289 | names that denote no member fall through to the contacts |
| CommandSpec.FixtureContacts | handlers/command_handler.py:293-298 | an agent contact resolves to its agent, a human contact to the human |
| CommandSpec.FixtureRest | handlers/command_handler.py:301-304 | a bare address stands for itself and any other unknown name resolves to nothing |
| CommandSpec.FixtureBareAddress | handlers/command_handler.py:280-304 | an unknown bare address resolves to itself, as a non-member |
| CommandSpec.FixtureNobody | handlers/command_handler.py:280-304 | an unknown name without an address resolves to nothing |
| CommandSpec.Unknowns | handlers/command_handler.py:98 | the unknown names are exactly the listed names that resolve to nothing, and the first KeyError escapes |
| CommandSpec.GatherFrom | handlers/command_handler.py:221-225 | the gathered list extends the start, keeps it repeat-free, holds every resolved address and nothing else |
| CommandSpec.GatherStep | handlers/command_handler.py:221-225 | what the rest of the loop gathers after the first name accounts for the whole list |
| CommandSpec.ParticipantEmailsShape | handlers/command_handler.py:221-225 | the room's participant list starts with the sender, has no repeats and covers exactly the resolved addresses |
| CommandSpec.CommandRefusals | handlers/command_handler.py:18-113 | a stranger is refused with at most one throttled mail and nothing else changes; a member's unclear or incomplete request, or one naming unknown people, is answered with exactly one mail to the sender and touches nothing else |
| CommandSpec.CreateRoomRefusals | handlers/command_handler.py:154-218 | an incomplete room request or one naming unknown people is answered with one mail to the sender and touches nothing else |
| CommandSpec.ScheduleRefusals | handlers/command_handler.py:67-113 | an incomplete schedule request or one naming unknown people is answered with one mail to the sender and touches nothing else |
| CommandSpec.MeetingStartsOnlyWhenComplete | handlers/command_handler.py:18-150 | a meeting is started only for a member's complete schedule request whose every name resolves; its session is the hub's `initiate_meeting` result, and the initiator's vote request is added only when the session does not list them |
| CommandSpec.RoomCreatedOnlyWhenComplete | handlers/command_handler.py:154-254 | a room is created only for a member's request with topic, participants and deadline whose every name resolves; it is filed under the new id with the sender first and every resolved address once, and nothing but the rooms and the outbox changes |
| CommandSpec.RoomCreatedBranch | handlers/command_handler.py:18-45 | a created room can only come from a member's create_room command, whose answer is the room flow's |
| CommandSpec.CreatedRoomFacts | handlers/command_handler.py:154-254 | a created room implies a complete request with every name resolved, the new room filed under the new id with the sender first and each resolved address once, and only the rooms and outbox changed |
| CommandHandler.ReplyUnknownSender | handlers/command_handler.py:353-366 | the desk ends as the throttled guidance step describes |
| CommandHandler.GatherEmails | handlers/command_handler.py:221-225 | the loop builds exactly ParticipantEmails |
| CommandHandler.SendInitiatorVoteRequest | handlers/command_handler.py:131-142 | appends exactly the vote request mails VoteRequestMails describes |
| CommandHandler.HandleMemberCommand | handlers/command_handler.py:18-150 | the result and the desk are those MemberCommand describes, on both the Ok and the Err path, and the roster is unchanged |
| CommandHandler.HandleScheduleCommand | handlers/command_handler.py:67-150 | the result and the desk are those `ScheduleCommand` describes, on both the Ok and the Err path, and the roster is unchanged |
| CommandHandler.DispatchMeeting | handlers/command_handler.py:115-150 | the result and the desk are those `DispatchMeeting` describes: the hub's initiation as written (`HubSpec.HubInitiate`), then the initiator's vote request, or the failure mail and event |
| CommandHandler.HandleCreateRoomCommand | handlers/command_handler.py:154-254 | the result and the desk are those CreateRoomCommand describes, on both paths |

## Left out

- Network I/O is not modelled: IMAP, SMTP, OAuth, MIME building and Message-ID generation. An outgoing mail is an `Effects.Outbound` entry in the outbox, and a new Message-ID is a parameter.
- The language model is not modelled. `decide`, `parse_human_reply`, `parse_amendment` and `find_optimal_slot` become oracle arguments, and so does every prompt and JSON extraction. `decide` is taken to return only accept, counter or escalate.
- Human-readable bodies are not modelled: summaries, call-for-participation text, minutes and guidance text. A mail records its addressee, its kind and its tag, not its text.
- `emit_event` and `notify_mode == "stdout"` are not modelled; only the email mode is.
- The hub's `_notify_members` sends through `self.email_client`, which is treated here as the same transport the agent uses.
- SQLite specifics are not modelled (connections, WAL mode, timestamps as text). The tables are maps and ordered lists in `Store.SessionStore`.
- `save_room`, `load_room` and `load_open_rooms` are called but not defined in the store file. They are modelled as an ordered room table that keeps first-save order and replaces on save.
- Store.SessionStore.LoadMessageIds: returns the ids in insertion order. The source's query has no ORDER BY, so this is one order it may return, not the only one.
- Config handling is not modelled: `_persist_config`, the adapted temporary YAML file written by the hub's `__init__`, and setup, install and demo scripts. Registration's writes to the configuration file are left out for the same reason.
- Hub.AIMPHubAgent.constructor: takes the invite codes, trusted users and replied-senders map as parameters. The hub's `__init__` (hub_agent.py:168-219) does not set them, and registration and the command handler read them.
- The time strings are not parsed. Deadlines and timestamps are integers. An invite code's `expires` is a day number, or marked unreadable, rather than an ISO date string.
- `ProposalItem` is a value, not a shared object. In the source each item is owned by a single session, so no aliasing is lost.
- `respond.py` and the other skill scripts are not part of this model. Neither are `run_demo.py`, `run_room_demo.py`, `debug_imap.py` or `lib/transport.py`.
- The hub has two `handle_member_command` methods. In the assumed composition, with the hub's own methods first, the one that runs is hub_agent.py:502's, modelled as `Hub.AIMPHubAgent.HandleMemberCommand`. It shadows the command mixin's method (handlers/command_handler.py:18). `CommandHandler.HandleMemberCommand` models that mixin method on its own terms, as a class that runs the mixin ahead of the hub would call it.
- handlers/session_handler.py's `initiate_meeting` (lines 21-66) has the same text as hub_agent.py:253-298, so `Members.Classify` and `Hub.AIMPHubAgent.ClassifyParticipants` model both.
- That file's `_initiate_hybrid_meeting` (lines 150-201) is not modelled; it is outside the modelled core.
- Exceptions that the handlers catch and only log are not modelled:
  - around `_finalize_room` in `_check_deadlines`;
  - around the initiator's vote request in the command handler;
  - around sending room mails.
  The model's steps do not fail there.
- The command handler's `room_creation_failed` branch is unreachable in the model, because opening a room cannot fail.
- CommandSpec.GatherFrom: skips a name whose lookup raises, where the source would raise. Such a name never reaches it, because `Unknowns` is computed first and propagates the KeyError.
- `_send_initiator_vote_request` adds the initiator as a participant only in its own copy of the session. It does not save that copy, so the model records only the mail.
- RoomHandlerSpec.ActionOf: an explicit null `action` in a room amendment is read as absent, giving AMEND. In the source `.upper()` would raise on it.
- RegistrationSpec.ValidateInviteCode, RegistrationSpec.Consume: an explicit null `max_uses` or `used` is read as 0, like an absent one. In the source a null `max_uses` raises TypeError at handlers/registration_handler.py:129 (`None > 0`), and a null `used` raises there once the limit is positive (`None >= max_uses`) and at line 161 (`None + 1`). The model does not tell an absent entry from a null one.
- Common.Lower, Common.Upper, Common.LowerChar, Common.UpperChar: case mapping is ASCII only. Python's `.lower()`, `.upper()` and `re.IGNORECASE` also map non-ASCII letters. This affects sender identification and the member index (hub_agent.py:209-212, 244-249), participant matching, the auto-reply filter and the throttle key, the room action's `.upper()`, and the invite tag search (handlers/registration_handler.py:22).
- Common.IsSpace, Common.Strip, Common.SplitSpace: whitespace is ASCII space, tab, newline, carriage return, vertical tab and form feed only. Python's `.strip()` and `.split()` also remove Unicode spaces such as the ideographic space U+3000, so a name padded with one is stripped there and not here. This affects the stripped participant names (hub_agent.py:273-285) and the References parsing of the mail client.
- RegistrationSpec.Capitalize: title-cases the first character with the ASCII mapping only; Python's `str.capitalize()` title-cases any Unicode letter.
- Agent.AIMPAgent.HandleAimpEmail, AgentSpec.HandleAimp: protocol.json is modelled as a JSON object, so a top-level value that is not an object cannot be given. A falsy one (`[]`, `0`, `""`, `null`) is ignored by `if not data` at agent.py:127, like an absent attachment. A truthy one such as `[1]` raises TypeError at lib/protocol.py:254, and the model has no input that does this. A key holding an explicit null, or a value of the wrong JSON type, is also outside what `SessionSpec.SessionData` can hold.
- `_finalize_room` returns `None` and its minutes are text, so the model returns nothing there.

## Findings

| source | as written | input that shows it | evidently intended | confidence | as-written member | corrected member |
|---|---|---|---|---|---|---|
| hub_agent.py:419-428 | the hybrid meeting writes the merged member preferences into `_raw_config["preferences"]`, but the parent's `initiate_meeting` reads `self.config`, whose preferences the hub set to `{}` at hub_agent.py:187 | a hybrid meeting whose internal members list preferred times or locations: the outgoing proposal offers no time and no location | the proposal carries the merged stance: every time and location some internal member prefers, with the hub's vote on the first | not executed | HubSpec.HybridDropsMergedPrefs | HubSpec.HybridOffersMergedPrefs |
