// The round gate shared by sessions and rooms (lib/protocol.py keeps two identical copies,
// AIMPSession and AIMPRoom): who must reply before a round is complete.

module Rounds {
  import opened Common

  /** Round 1 waits for everyone but the initiator; later rounds wait for every participant. */
  function Expected(round: int, participants: seq<string>, initiator: string): seq<string>
  {
    if round == 1 then Filter(participants, initiator) else participants
  }

  /** `is_round_complete`: someone is expected and every expected participant has replied. */
  predicate RoundComplete(round: int, participants: seq<string>, initiator: string, respondents: seq<string>)
  {
    var expected := Expected(round, participants, initiator);
    |expected| > 0 && forall e | e in expected :: e in respondents
  }

  /** `record_round_reply`: remember a respondent once. */
  function RecordReply(respondents: seq<string>, email: string): (r: seq<string>)
    ensures email in r
    ensures forall x :: x in r <==> x in respondents || x == email
    ensures NoDup(respondents) ==> NoDup(r)
    ensures email in respondents ==> r == respondents
  {
    AppendNew(respondents, email)
  }

  /** The set of participants whose reply the round waits for. */
  function ExpectedSet(round: int, participants: seq<string>, initiator: string): set<string>
  {
    if round == 1 then (set p | p in participants && p != initiator) else (set p | p in participants)
  }

  /** The round gate stated on sets: a non-empty expected set, all of it among the respondents. */
  lemma {:induction false} RoundCompleteIff(round: int, participants: seq<string>, initiator: string, respondents: seq<string>)
    ensures RoundComplete(round, participants, initiator, respondents)
        <==> ExpectedSet(round, participants, initiator) != {}
             && ExpectedSet(round, participants, initiator) <= (set r | r in respondents)
  {
    var expected := Expected(round, participants, initiator);
    var es := ExpectedSet(round, participants, initiator);
    assert forall x :: x in expected <==> x in es;
    if |expected| > 0 {
      assert expected[0] in es;
    }
    if es != {} {
      var x :| x in es;
      assert x in expected;
    }
  }

  /** In round 1 the initiator's own reply neither helps nor hurts. */
  lemma InitiatorReplyIrrelevantInRoundOne(participants: seq<string>, initiator: string, respondents: seq<string>)
    ensures RoundComplete(1, participants, initiator, RecordReply(respondents, initiator))
        == RoundComplete(1, participants, initiator, respondents)
  {
  }

  /** After advancing, nobody has replied yet, so the new round is never complete. */
  lemma FreshRoundIncomplete(round: int, participants: seq<string>, initiator: string)
    ensures !RoundComplete(round, participants, initiator, [])
  {
    var expected := Expected(round, participants, initiator);
    if |expected| > 0 {
      assert expected[0] !in [];
    }
  }

  /** More replies never un-complete a round. */
  lemma CompleteStaysComplete(round: int, participants: seq<string>, initiator: string, respondents: seq<string>, email: string)
    requires RoundComplete(round, participants, initiator, respondents)
    ensures RoundComplete(round, participants, initiator, RecordReply(respondents, email))
  {
  }
}
