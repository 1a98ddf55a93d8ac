// Invite-code self-registration (handlers/registration_handler.py) as values: the invite
// tag of a subject, the validity of a code on a given day, its consumption, the record
// a trusted user gets, and the three outcomes of an invite request. Today's date is a
// day number passed in; writing the configuration back is not modelled.

module RegistrationSpec {
  import opened Common
  import opened Dicts
  import opened Effects
  import Members

  const INVITE_TAG := "[AIMP-INVITE:"
  const TRUSTED_PREFIX := "trusted_"

  /** `expires`: absent or empty, a date `date.fromisoformat` rejects, or a day number. */
  datatype Expiry = NoExpiry | Unreadable | ExpiresOn(day: int)

  /** An `invite_codes` entry; absent keys are None. */
  datatype InviteCode = InviteCode(code: Option<string>, expires: Expiry, maxUses: Option<int>, used: Option<int>)

  /** A `trusted_users` record. */
  datatype TrustedUser = TrustedUser(name: string, email: string, registered: int, viaCode: Option<string>)

  // ---------------------------------------------------------------------------
  // _check_invite_email: `re.search(r'\[AIMP-INVITE:([^\]]+)\]', subject, re.IGNORECASE)`
  // ---------------------------------------------------------------------------

  /** At i: the tag in any case, then one or more characters other than ']', then ']'. */
  predicate InviteTagAt(s: string, i: nat)
  {
    i + |INVITE_TAG| <= |s| && Lower(s[i..i + |INVITE_TAG|]) == Lower(INVITE_TAG) &&
    var rest := s[i + |INVITE_TAG|..];
    0 < IndexOfChar(rest, ']') < |rest|
  }

  function InviteContent(s: string, i: nat): (c: string)
    requires InviteTagAt(s, i)
    ensures c != [] && ']' !in c
  {
    var rest := s[i + |INVITE_TAG|..];
    rest[..IndexOfChar(rest, ']')]
  }

  /** The content of the leftmost invite tag at or after `from`. */
  function FindInvite(s: string, from: nat): (r: Option<string>)
    ensures r.Some? ==> exists i | from <= i <= |s| :: InviteTagAt(s, i) && r.value == InviteContent(s, i)
                                               && forall j | from <= j < i :: !InviteTagAt(s, j)
    ensures r.None? ==> forall i | from <= i <= |s| :: !InviteTagAt(s, i)
    decreases |s| - from
  {
    if from > |s| then None
    else if InviteTagAt(s, from) then Some(InviteContent(s, from))
    else FindInvite(s, from + 1)
  }

  /** The trimmed code of the subject's invite tag, if it has one. */
  function InviteCodeOf(subject: string): Option<string>
  {
    match FindInvite(subject, 0)
    case None => None
    case Some(c) => Some(Strip(c))
  }

  /** A subject that opens with the tag, in any case, yields the trimmed code. */
  lemma {:induction false} InviteTagRoundTrip(tag: string, code: string, rest: string)
    requires |tag| == |INVITE_TAG| && Lower(tag) == Lower(INVITE_TAG)
    requires code != [] && ']' !in code
    ensures InviteCodeOf(tag + code + "]" + rest) == Some(Strip(code))
  {
    var s := tag + code + "]" + rest;
    assert s[..|INVITE_TAG|] == tag;
    var tail := s[|INVITE_TAG|..];
    assert tail == code + "]" + rest;
    IndexOfCharAfter(code, ']', rest);
    assert tail[..|code|] == code;
    assert InviteTagAt(s, 0);
  }

  /** Lower-casing a whole subject lower-cases each of its slices. */
  lemma LowerSlice(s: string, i: nat, j: nat)
    requires i <= j <= |s|
    ensures Lower(s)[i..j] == Lower(s[i..j])
  {
  }

  // ---------------------------------------------------------------------------
  // _validate_invite_code
  // ---------------------------------------------------------------------------

  /** The index of the first entry carrying the code, or the length when none does. */
  function FirstWithCode(codes: seq<InviteCode>, code: string): (k: nat)
    ensures k <= |codes|
    ensures forall j | 0 <= j < k :: codes[j].code != Some(code)
    ensures k < |codes| ==> codes[k].code == Some(code)
  {
    if |codes| == 0 then 0
    else if codes[0].code == Some(code) then 0
    else 1 + FirstWithCode(codes[1..], code)
  }

  /** Not expired (an unreadable date is ignored) and not used up (a limit of 0 or none is unlimited). */
  predicate Usable(ic: InviteCode, today: int)
  {
    !(ic.expires.ExpiresOn? && today > ic.expires.day)
    && !(ic.maxUses.GetOr(0) > 0 && ic.used.GetOr(0) >= ic.maxUses.GetOr(0))
  }

  /** The loop of `_validate_invite_code`: only the first entry with the code is judged. */
  function ValidateInviteCode(codes: seq<InviteCode>, code: string, today: int): (r: Option<InviteCode>)
    ensures r.Some? <==> FirstWithCode(codes, code) < |codes| && Usable(codes[FirstWithCode(codes, code)], today)
    ensures r.Some? ==> r.value == codes[FirstWithCode(codes, code)]
  {
    if |codes| == 0 then None
    else if codes[0].code != Some(code) then ValidateInviteCode(codes[1..], code, today)
    else if Usable(codes[0], today) then Some(codes[0]) else None
  }

  /** The cases the source's tests name: unknown, expired and used-up codes are refused. */
  lemma {:induction false} InvalidCodes(codes: seq<InviteCode>, code: string, today: int)
    ensures (forall j | 0 <= j < |codes| :: codes[j].code != Some(code)) ==> ValidateInviteCode(codes, code, today).None?
    ensures var k := FirstWithCode(codes, code);
            k < |codes| && codes[k].expires.ExpiresOn? && today > codes[k].expires.day ==> ValidateInviteCode(codes, code, today).None?
    ensures var k := FirstWithCode(codes, code);
            k < |codes| && codes[k].maxUses.GetOr(0) > 0 && codes[k].used.GetOr(0) >= codes[k].maxUses.GetOr(0)
            ==> ValidateInviteCode(codes, code, today).None?
  {
  }

  /** With no limit (or a limit of 0) and no expiry in force, the first entry with the code is accepted. */
  lemma {:induction false} UnlimitedCode(codes: seq<InviteCode>, code: string, today: int)
    requires FirstWithCode(codes, code) < |codes|
    requires codes[FirstWithCode(codes, code)].maxUses.GetOr(0) <= 0
    requires !codes[FirstWithCode(codes, code)].expires.ExpiresOn? || today <= codes[FirstWithCode(codes, code)].expires.day
    ensures ValidateInviteCode(codes, code, today) == Some(codes[FirstWithCode(codes, code)])
  {
  }

  // ---------------------------------------------------------------------------
  // _consume_invite_code
  // ---------------------------------------------------------------------------

  /** The first entry with the code counts one more use (an absent count is 0); nothing else changes. */
  function Consume(codes: seq<InviteCode>, code: string): (r: seq<InviteCode>)
    ensures |r| == |codes|
    ensures forall j | 0 <= j < |codes| && j != FirstWithCode(codes, code) :: r[j] == codes[j]
    ensures var k := FirstWithCode(codes, code);
            k < |codes| ==> r[k] == codes[k].(used := Some(codes[k].used.GetOr(0) + 1))
  {
    var k := FirstWithCode(codes, code);
    if k < |codes| then codes[k := codes[k].(used := Some(codes[k].used.GetOr(0) + 1))] else codes
  }

  /** The use that reaches a code's limit makes that code invalid. */
  lemma {:induction false} ConsumeReachesLimit(codes: seq<InviteCode>, code: string, today: int)
    requires FirstWithCode(codes, code) < |codes|
    requires var ic := codes[FirstWithCode(codes, code)];
             ic.maxUses.GetOr(0) > 0 && ic.used.GetOr(0) + 1 >= ic.maxUses.GetOr(0)
    ensures ValidateInviteCode(Consume(codes, code), code, today).None?
  {
    FirstAfterConsume(codes, code, code);
  }

  /** Consuming one code leaves the verdict on every other code as it was. */
  lemma {:induction false} ConsumeKeepsOthers(codes: seq<InviteCode>, code: string, other: string, today: int)
    requires other != code
    ensures ValidateInviteCode(Consume(codes, code), other, today) == ValidateInviteCode(codes, other, today)
  {
    FirstAfterConsume(codes, code, other);
    var k := FirstWithCode(codes, code);
    var m := FirstWithCode(codes, other);
    if m < |codes| && k < |codes| {
      assert m != k;
    }
  }

  /** Consumption changes no entry's code, so the first entry with any code stays where it was. */
  lemma {:induction false} FirstAfterConsume(codes: seq<InviteCode>, code: string, c: string)
    ensures FirstWithCode(Consume(codes, code), c) == FirstWithCode(codes, c)
  {
    var r := Consume(codes, code);
    assert forall j | 0 <= j < |codes| :: r[j].code == codes[j].code;
    FirstSameCodes(codes, r, c);
  }

  lemma {:induction false} FirstSameCodes(a: seq<InviteCode>, b: seq<InviteCode>, c: string)
    requires |a| == |b| && forall j | 0 <= j < |a| :: a[j].code == b[j].code
    ensures FirstWithCode(a, c) == FirstWithCode(b, c)
    decreases |a|
  {
    if |a| > 0 && a[0].code != Some(c) {
      FirstSameCodes(a[1..], b[1..], c);
    }
  }

  // ---------------------------------------------------------------------------
  // _register_trusted_user
  // ---------------------------------------------------------------------------

  /** `re.sub(r'[^a-zA-Z0-9]', '_', email)`. */
  function KeyOf(email: string): (k: string)
    ensures |k| == |email|
    ensures forall i | 0 <= i < |k| :: k[i] == (if IsAlnum(email[i]) then email[i] else '_')
  {
    seq(|email|, i requires 0 <= i < |email| => if IsAlnum(email[i]) then email[i] else '_')
  }

  function TrustedId(email: string): string
  {
    TRUSTED_PREFIX + KeyOf(email)
  }

  function TrustedMember(name: string, email: string): Members.Member
  {
    Members.Member(Some(name), Some(email), Some(Members.TRUSTED), Members.NO_PREFS)
  }

  /** The hub's member directory: the members, the sender index and the trusted users. */
  datatype Roster = Roster(members: Members.Members, index: map<string, string>, trusted: map<string, TrustedUser>)

  /** `_register_trusted_user`, without the write-back of the configuration. */
  function Register(r: Roster, email: string, name: string, viaCode: Option<string>, today: int): Roster
  {
    Roster(Put(r.members, TrustedId(email), TrustedMember(name, email)),
           r.index[Lower(email) := TrustedId(email)],
           r.trusted[KeyOf(email) := TrustedUser(name, email, today, viaCode)])
  }

  /**
   * After registration the address, in any case, is identified as the trusted id, whose
   * member record carries the name, the address and the trusted role; every other
   * address and every other member is as before.
   */
  lemma {:induction false} RegisteredIsIdentified(r: Roster, email: string, name: string, viaCode: Option<string>,
                                                  today: int, other: string)
    ensures var r' := Register(r, email, name, viaCode, today);
            (Lower(other) == Lower(email) ==> Members.IdentifySender(r'.index, other) == Some(TrustedId(email)))
            && (Lower(other) != Lower(email) ==> Members.IdentifySender(r'.index, other) == Members.IdentifySender(r.index, other))
            && Get(r'.members, TrustedId(email)) == Some(TrustedMember(name, email))
            && Members.NameOf(r'.members, TrustedId(email)) == name
            && (forall mid | mid != TrustedId(email) :: Get(r'.members, mid) == Get(r.members, mid))
  {
  }

  /** Every indexed address names a member whose own address is that one, up to case. */
  predicate IndexResolves(idx: map<string, string>, members: Members.Members)
  {
    forall a | a in idx :: Get(members, idx[a]).Some? && Truthy(Get(members, idx[a]).value.email)
                           && Lower(Get(members, idx[a]).value.email.value) == a
  }

  /** The index the hub builds from members with distinct ids resolves. */
  lemma {:induction false} EmailIndexResolves(members: Members.Members)
    requires DistinctKeys(members)
    ensures IndexResolves(Members.EmailIndex(members), members)
  {
    Members.IndexFromSound(map[], [], members);
    assert [] + members == members;
    var idx := Members.EmailIndex(members);
    forall a | a in idx
      ensures Get(members, idx[a]).Some? && Truthy(Get(members, idx[a]).value.email)
              && Lower(Get(members, idx[a]).value.email.value) == a
    {
      var i :| 0 <= i < |members| && members[i].0 == idx[a] && Truthy(members[i].1.email)
               && Lower(members[i].1.email.value) == a;
      GetAt(members, i);
    }
  }

  /** Registration keeps the index resolving, unless another address already maps to the new trusted id. */
  lemma {:induction false} RegisterKeepsResolving(r: Roster, email: string, name: string, viaCode: Option<string>, today: int)
    requires email != "" && IndexResolves(r.index, r.members)
    requires forall a | a in r.index && a != Lower(email) :: r.index[a] != TrustedId(email)
    ensures var r' := Register(r, email, name, viaCode, today); IndexResolves(r'.index, r'.members)
  {
    var r' := Register(r, email, name, viaCode, today);
    var id := TrustedId(email);
    LowerIdempotent(email);
    forall a | a in r'.index
      ensures Get(r'.members, r'.index[a]).Some? && Truthy(Get(r'.members, r'.index[a]).value.email)
              && Lower(Get(r'.members, r'.index[a]).value.email.value) == a
    {
      if a == Lower(email) {
        assert r'.index[a] == id;
        assert Get(r'.members, id) == Some(TrustedMember(name, email));
      } else {
        assert r'.index[a] == r.index[a] != id;
        assert Get(r'.members, r.index[a]) == Get(r.members, r.index[a]);
      }
    }
  }

  /**
   * Two different addresses can share one trusted id: the second registration then
   * overwrites the first one's member record, and the first address is identified as a
   * member whose recorded address is the second.
   */
  lemma KeyCollision(r: Roster, today: int)
    ensures var first := Register(r, "a.b@x.io", "A", None, today);
            var second := Register(first, "a_b@x.io", "B", None, today);
            TrustedId("a.b@x.io") == TrustedId("a_b@x.io")
            && Members.IdentifySender(second.index, "a.b@x.io") == Some(TrustedId("a_b@x.io"))
            && Get(second.members, TrustedId("a.b@x.io")) == Some(TrustedMember("B", "a_b@x.io"))
            && !IndexResolves(second.index, second.members)
  {
    assert KeyOf("a.b@x.io") == "a_b_x_io";
    assert KeyOf("a_b@x.io") == "a_b_x_io";
    assert Lower("a.b@x.io") == "a.b@x.io";
    assert Lower("a_b@x.io") == "a_b@x.io";
    var second := Register(Register(r, "a.b@x.io", "A", None, today), "a_b@x.io", "B", None, today);
    assert second.index["a.b@x.io"] == TrustedId("a_b@x.io");
  }

  // ---------------------------------------------------------------------------
  // _handle_invite_request
  // ---------------------------------------------------------------------------

  /** Python's `str.capitalize()` on ASCII text: the first character upper-cased, the rest lower-cased. */
  function Capitalize(s: string): (r: string)
    ensures |r| == |s|
    ensures |s| > 0 ==> r[0] == UpperChar(s[0])
    ensures forall i | 1 <= i < |s| :: r[i] == LowerChar(s[i])
  {
    if |s| == 0 then "" else [UpperChar(s[0])] + Lower(s[1..])
  }

  /** Capitalizing a capitalized name changes nothing. */
  lemma CapitalizeIdempotent(s: string)
    ensures Capitalize(Capitalize(s)) == Capitalize(s)
  {
    if |s| > 0 {
      var r := Capitalize(s);
      assert r[1..] == Lower(s[1..]);
      LowerIdempotent(s[1..]);
    }
  }

  /** `sender_name or from_email.split("@")[0].capitalize()`. */
  function RegisteredName(fromEmail: string, senderName: Option<string>): string
  {
    if Truthy(senderName) then senderName.value else Capitalize(SplitOn(fromEmail, '@')[0])
  }

  /** What registration reads and writes: the directory, the codes and the outbox. */
  datatype Office = Office(roster: Roster, codes: seq<InviteCode>, outbox: seq<Outbound>)

  datatype Registered = Registered(o: Office, events: seq<Event>)

  /** `_handle_invite_request`. */
  function HandleInviteRequest(o: Office, fromEmail: string, senderName: Option<string>, code: string, today: int): Registered
  {
    if Truthy(Members.IdentifySender(o.roster.index, fromEmail)) then
      Registered(o.(outbox := o.outbox + [HumanMail(fromEmail, AlreadyRegistered, None)]), [])
    else if ValidateInviteCode(o.codes, code, today).None? then
      Registered(o.(outbox := o.outbox + [HumanMail(fromEmail, InviteInvalid, None)]), [InviteRejected(fromEmail, code)])
    else
      var name := RegisteredName(fromEmail, senderName);
      Registered(Office(Register(o.roster, fromEmail, name, Some(code), today), Consume(o.codes, code),
                        o.outbox + [HumanMail(fromEmail, Welcome, None)]),
                 [InviteAccepted(fromEmail, name)])
  }

  /**
   * The three outcomes: a known sender is told so and nothing is registered; an invalid
   * code is refused and nothing is registered; a valid code registers the sender, who is
   * identified from then on, and its first entry counts exactly one more use.
   */
  lemma {:induction false} InviteOutcomes(o: Office, fromEmail: string, senderName: Option<string>, code: string, today: int)
    ensures var r := HandleInviteRequest(o, fromEmail, senderName, code, today);
            |r.o.outbox| == |o.outbox| + 1 && r.o.outbox[..|o.outbox|] == o.outbox
            && (Truthy(Members.IdentifySender(o.roster.index, fromEmail)) ==>
                  r.events == [] && r.o.roster == o.roster && r.o.codes == o.codes)
            && (!Truthy(Members.IdentifySender(o.roster.index, fromEmail)) && ValidateInviteCode(o.codes, code, today).None? ==>
                  r.events == [InviteRejected(fromEmail, code)] && r.o.roster == o.roster && r.o.codes == o.codes)
            && (!Truthy(Members.IdentifySender(o.roster.index, fromEmail)) && ValidateInviteCode(o.codes, code, today).Some? ==>
                  r.events == [InviteAccepted(fromEmail, RegisteredName(fromEmail, senderName))]
                  && Members.IdentifySender(r.o.roster.index, fromEmail) == Some(TrustedId(fromEmail))
                  && var k := FirstWithCode(o.codes, code);
                     k < |o.codes| && r.o.codes[k].used == Some(o.codes[k].used.GetOr(0) + 1)
                     && forall j | 0 <= j < |o.codes| && j != k :: r.o.codes[j] == o.codes[j])
  {
    var r := HandleInviteRequest(o, fromEmail, senderName, code, today);
    if !Truthy(Members.IdentifySender(o.roster.index, fromEmail)) && ValidateInviteCode(o.codes, code, today).Some? {
      RegisteredIsIdentified(o.roster, fromEmail, RegisteredName(fromEmail, senderName), Some(code), today, fromEmail);
    }
  }

  /** `_check_invite_email`: no invite tag, no answer; otherwise the request with the trimmed code. */
  function CheckInviteEmail(o: Office, subject: string, sender: string, senderName: Option<string>, today: int)
    : (r: Option<Registered>)
    ensures r.None? <==> forall i | 0 <= i <= |subject| :: !InviteTagAt(subject, i)
  {
    match InviteCodeOf(subject)
    case None => None
    case Some(code) => Some(HandleInviteRequest(o, sender, senderName, code, today))
  }
}
