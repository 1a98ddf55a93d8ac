// RegistrationMixin (handlers/registration_handler.py) as methods over the hub object: the
// invite codes are scanned and updated in place, and the roster is extended field by field.
// Each method is proved to perform the transition RegistrationSpec defines. Today's date is
// a parameter; writing the configuration back to disk is not modelled.

module Registration {
  import opened Common
  import opened Dicts
  import opened Effects
  import Members
  import AgentSpec
  import RegistrationSpec
  import Hub

  /** The hub's roster as registration sees it. */
  function RosterOf(hub: Hub.AIMPHubAgent): RegistrationSpec.Roster
    reads hub
  {
    RegistrationSpec.Roster(hub.members, hub.emailIndex, hub.trustedUsers)
  }

  /** Everything registration reads and writes. */
  function OfficeOf(hub: Hub.AIMPHubAgent): RegistrationSpec.Office
    reads hub, hub.agent
  {
    RegistrationSpec.Office(RosterOf(hub), hub.inviteCodes, hub.agent.outbox)
  }

  /** `_validate_invite_code`: the first entry with the code decides. */
  method ValidateInviteCode(hub: Hub.AIMPHubAgent, code: string, today: int) returns (r: Option<RegistrationSpec.InviteCode>)
    ensures r == RegistrationSpec.ValidateInviteCode(hub.inviteCodes, code, today)
  {
    var codes := hub.inviteCodes;
    var i := 0;
    while i < |codes|
      invariant 0 <= i <= |codes|
      invariant RegistrationSpec.ValidateInviteCode(codes[i..], code, today) == RegistrationSpec.ValidateInviteCode(codes, code, today)
    {
      assert codes[i..][1..] == codes[i + 1..];
      var ic := codes[i];
      if ic.code != Some(code) {
        i := i + 1;
        continue;
      }
      if ic.expires.ExpiresOn? && today > ic.expires.day {
        return None;
      }
      var maxUses := ic.maxUses.GetOr(0);
      if maxUses > 0 && ic.used.GetOr(0) >= maxUses {
        return None;
      }
      return Some(ic);
    }
    return None;
  }

  /** `_consume_invite_code`: one more use on the first entry with the code, then stop. */
  method ConsumeInviteCode(hub: Hub.AIMPHubAgent, code: string)
    modifies hub`inviteCodes
    ensures hub.inviteCodes == RegistrationSpec.Consume(old(hub.inviteCodes), code)
  {
    ghost var k := RegistrationSpec.FirstWithCode(hub.inviteCodes, code);
    var i := 0;
    while i < |hub.inviteCodes|
      invariant 0 <= i <= k && hub.inviteCodes == old(hub.inviteCodes)
    {
      if hub.inviteCodes[i].code == Some(code) {
        var ic := hub.inviteCodes[i];
        hub.inviteCodes := hub.inviteCodes[i := ic.(used := Some(ic.used.GetOr(0) + 1))];
        break;
      }
      i := i + 1;
    }
  }

  /**
   * `_register_trusted_user`: the trusted record, the member entry and the index entry are
   * written in that order; the agent's confirmations go to the enlarged roster.
   */
  method RegisterTrustedUser(hub: Hub.AIMPHubAgent, email: string, name: string, viaCode: Option<string>, today: int)
    requires hub.Valid()
    modifies hub`members, hub`emailIndex, hub`trustedUsers, hub.agent`notifier
    ensures hub.Valid()
    ensures RosterOf(hub) == RegistrationSpec.Register(old(RosterOf(hub)), email, name, viaCode, today)
  {
    var key := RegistrationSpec.KeyOf(email);
    hub.trustedUsers := hub.trustedUsers[key := RegistrationSpec.TrustedUser(name, email, today, viaCode)];
    var memberId := RegistrationSpec.TRUSTED_PREFIX + key;
    hub.members := Put(hub.members, memberId, RegistrationSpec.TrustedMember(name, email));
    hub.emailIndex := hub.emailIndex[Lower(email) := memberId];
    hub.agent.notifier := AgentSpec.HubNotify(hub.members);
  }

  /** `_handle_invite_request`: known sender, invalid code, or registration with a welcome mail. */
  method HandleInviteRequest(hub: Hub.AIMPHubAgent, fromEmail: string, senderName: Option<string>, code: string, today: int)
    returns (events: seq<Event>)
    requires hub.Valid()
    modifies hub`members, hub`emailIndex, hub`trustedUsers, hub`inviteCodes, hub.agent`notifier, hub.agent`outbox
    ensures hub.Valid()
    ensures var r := RegistrationSpec.HandleInviteRequest(old(OfficeOf(hub)), fromEmail, senderName, code, today);
            OfficeOf(hub) == r.o && events == r.events
  {
    if Truthy(hub.IdentifySender(fromEmail)) {
      hub.agent.outbox := hub.agent.outbox + [HumanMail(fromEmail, AlreadyRegistered, None)];
      return [];
    }
    var valid := ValidateInviteCode(hub, code, today);
    if valid.None? {
      hub.agent.outbox := hub.agent.outbox + [HumanMail(fromEmail, InviteInvalid, None)];
      return [InviteRejected(fromEmail, code)];
    }
    var name := if Truthy(senderName) then senderName.value else RegistrationSpec.Capitalize(SplitOn(fromEmail, '@')[0]);
    RegisterTrustedUser(hub, fromEmail, name, Some(code), today);
    ConsumeInviteCode(hub, code);
    hub.agent.outbox := hub.agent.outbox + [HumanMail(fromEmail, Welcome, None)];
    return [InviteAccepted(fromEmail, name)];
  }

  /** `_check_invite_email`: None when the subject has no invite tag. */
  method CheckInviteEmail(hub: Hub.AIMPHubAgent, subject: string, sender: string, senderName: Option<string>, today: int)
    returns (r: Option<seq<Event>>)
    requires hub.Valid()
    modifies hub`members, hub`emailIndex, hub`trustedUsers, hub`inviteCodes, hub.agent`notifier, hub.agent`outbox
    ensures hub.Valid()
    ensures var c := RegistrationSpec.CheckInviteEmail(old(OfficeOf(hub)), subject, sender, senderName, today);
            (r.None? <==> c.None?) && (c.None? ==> OfficeOf(hub) == old(OfficeOf(hub)))
            && (c.Some? ==> OfficeOf(hub) == c.value.o && r.value == c.value.events)
  {
    var code := RegistrationSpec.InviteCodeOf(subject);
    if code.None? {
      return None;
    }
    var events := HandleInviteRequest(hub, sender, senderName, code.value, today);
    return Some(events);
  }
}
