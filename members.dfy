// The hub's member directory (hub_agent.py): member records, the admin that stands in
// for the owner, the lower-cased sender index, the split of a meeting's participant
// names into hub members and outsiders, the merge of members' preferences, and the
// marker message id that records a hybrid meeting's internal members.

module Members {
  import opened Common
  import opened Dicts

  datatype MemberPrefs = MemberPrefs(preferredTimes: seq<string>, blockedTimes: seq<string>,
                                     preferredLocations: seq<string>)

  /** A `members:` entry; absent keys are None (absent preference lists are empty). */
  datatype Member = Member(name: Option<string>, email: Option<string>, role: Option<string>,
                           prefs: MemberPrefs)

  type Members = Dict<Member>

  const ADMIN := "admin"
  const TRUSTED := "trusted"
  const HUB_ADMIN := "Hub Admin"

  const NO_PREFS := MemberPrefs([], [], [])

  /** `m.get("name", mid)`. */
  function DisplayName(mid: string, m: Member): string
  {
    m.name.GetOr(mid)
  }

  /** `self.members[mid].get("name", mid)` when the member exists; the id otherwise. */
  function NameOf(members: Members, mid: string): string
  {
    match Get(members, mid)
    case Some(m) => DisplayName(mid, m)
    case None => mid
  }

  /** `self.members.get(mid, {})`. */
  function MemberOr(members: Members, mid: string): Member
  {
    Get(members, mid).GetOr(Member(None, None, None, NO_PREFS))
  }

  predicate IsAdmin(m: Member)
  {
    m.role == Some(ADMIN)
  }

  // ---------------------------------------------------------------------------
  // _get_admin_owner
  // ---------------------------------------------------------------------------

  datatype Owner = Owner(name: string, email: string)

  function OwnerOf(entry: (string, Member)): Owner
  {
    Owner(DisplayName(entry.0, entry.1), entry.1.email.GetOr(""))
  }

  /** Index of the first admin member, |members| when there is none. */
  function FirstAdmin(members: Members): (k: nat)
    ensures k <= |members|
    ensures forall j | 0 <= j < k :: !IsAdmin(members[j].1)
    ensures k < |members| ==> IsAdmin(members[k].1)
  {
    if |members| == 0 then 0
    else if IsAdmin(members[0].1) then 0
    else 1 + FirstAdmin(members[1..])
  }

  /** `_get_admin_owner`: the first admin, else the first member, else "Hub Admin" without address. */
  function GetAdminOwner(members: Members): (o: Owner)
    ensures |members| == 0 ==> o == Owner(HUB_ADMIN, "")
    ensures forall i | 0 <= i < |members| && IsAdmin(members[i].1) && (forall j | 0 <= j < i :: !IsAdmin(members[j].1)) ::
              o == OwnerOf(members[i])
    ensures |members| > 0 && (forall i | 0 <= i < |members| :: !IsAdmin(members[i].1)) ==> o == OwnerOf(members[0])
  {
    var k := FirstAdmin(members);
    if k < |members| then OwnerOf(members[k])
    else if |members| > 0 then OwnerOf(members[0])
    else Owner(HUB_ADMIN, "")
  }

  /** The ids of the admin members, in member order. */
  function AdminsOf(members: Members): (ids: seq<string>)
    ensures forall mid :: mid in ids <==> exists i | 0 <= i < |members| :: members[i].0 == mid && IsAdmin(members[i].1)
  {
    if |members| == 0 then []
    else
      var rest := AdminsOf(members[1..]);
      assert forall i | 1 <= i < |members| :: members[i] == members[1..][i - 1];
      if IsAdmin(members[0].1) then [members[0].0] + rest else rest
  }

  /** The `admin_ids` of the hub's `_notify_owner_confirmed`: the admins, or every member when none is. */
  function AdminIds(members: Members): (ids: seq<string>)
    ensures AdminsOf(members) != [] ==> ids == AdminsOf(members)
    ensures AdminsOf(members) == [] ==> ids == Keys(members)
  {
    var admins := AdminsOf(members);
    if admins != [] then admins else Keys(members)
  }

  /** The addresses `_notify_members` writes to: each listed member that has one, in order. */
  function MemberAddresses(members: Members, ids: seq<string>): (r: seq<string>)
    ensures |r| <= |ids|
    ensures forall a :: a in r <==> exists i | 0 <= i < |ids| :: Truthy(MemberOr(members, ids[i]).email) && MemberOr(members, ids[i]).email.value == a
  {
    if |ids| == 0 then []
    else
      var m := MemberOr(members, ids[0]);
      var rest := MemberAddresses(members, ids[1..]);
      assert forall i | 1 <= i < |ids| :: ids[i] == ids[1..][i - 1];
      if Truthy(m.email) then [m.email.value] + rest else rest
  }

  // ---------------------------------------------------------------------------
  // The sender index: lower-cased member address -> member id
  // ---------------------------------------------------------------------------

  /** The loop of `AIMPHubAgent.__init__` from a given index on: later members overwrite earlier ones. */
  function IndexFrom(idx: map<string, string>, members: Members): (r: map<string, string>)
    ensures forall a | a in r :: a in idx || exists i | 0 <= i < |members| :: Truthy(members[i].1.email) && Lower(members[i].1.email.value) == a
    ensures forall i | 0 <= i < |members| && Truthy(members[i].1.email) :: Lower(members[i].1.email.value) in r
    ensures forall a | a in idx :: a in r
    decreases |members|
  {
    if |members| == 0 then idx
    else
      var m := members[0];
      var idx' := if Truthy(m.1.email) then idx[Lower(m.1.email.value) := m.0] else idx;
      var r := IndexFrom(idx', members[1..]);
      assert forall i | 1 <= i < |members| :: members[i] == members[1..][i - 1];
      r
  }

  function EmailIndex(members: Members): map<string, string>
  {
    IndexFrom(map[], members)
  }

  /** Every indexed id names a member whose address lower-cases to the key. */
  predicate IndexSound(idx: map<string, string>, members: Members)
  {
    forall a | a in idx :: exists i | 0 <= i < |members| ::
      members[i].0 == idx[a] && Truthy(members[i].1.email) && Lower(members[i].1.email.value) == a
  }

  lemma {:induction false} IndexFromSound(idx: map<string, string>, prefix: Members, members: Members)
    requires IndexSound(idx, prefix)
    ensures IndexSound(IndexFrom(idx, members), prefix + members)
    decreases |members|
  {
    if |members| == 0 {
      assert prefix + members == prefix;
    } else {
      var m := members[0];
      var idx' := if Truthy(m.1.email) then idx[Lower(m.1.email.value) := m.0] else idx;
      var prefix' := prefix + [m];
      assert IndexSound(idx', prefix') by {
        forall a | a in idx'
          ensures exists i | 0 <= i < |prefix'| ::
            prefix'[i].0 == idx'[a] && Truthy(prefix'[i].1.email) && Lower(prefix'[i].1.email.value) == a
        {
          if Truthy(m.1.email) && a == Lower(m.1.email.value) {
            assert prefix'[|prefix|] == m;
          } else {
            var i :| 0 <= i < |prefix| && prefix[i].0 == idx[a] && Truthy(prefix[i].1.email) && Lower(prefix[i].1.email.value) == a;
            assert prefix'[i] == prefix[i];
          }
        }
      }
      assert prefix' + members[1..] == prefix + members;
      IndexFromSound(idx', prefix', members[1..]);
    }
  }

  /** `identify_sender`: the member filed under the lower-cased address, if any. */
  function IdentifySender(idx: map<string, string>, fromEmail: string): Option<string>
  {
    var a := Lower(fromEmail);
    if a in idx then Some(idx[a]) else None
  }

  /**
   * On the index the hub builds, a sender is identified exactly when some member's address
   * equals theirs up to case, and then as a member whose address does.
   */
  lemma IdentifyIff(members: Members, fromEmail: string)
    ensures IdentifySender(EmailIndex(members), fromEmail).Some? <==>
            exists i | 0 <= i < |members| :: Truthy(members[i].1.email) && Lower(members[i].1.email.value) == Lower(fromEmail)
    ensures IdentifySender(EmailIndex(members), fromEmail).Some? ==>
            exists i | 0 <= i < |members| :: members[i].0 == IdentifySender(EmailIndex(members), fromEmail).value &&
              Truthy(members[i].1.email) && Lower(members[i].1.email.value) == Lower(fromEmail)
  {
    IndexFromSound(map[], [], members);
    assert [] + members == members;
  }

  /** Identification ignores the case of the sender's address. */
  lemma IdentifyCaseInsensitive(idx: map<string, string>, a: string, b: string)
    requires Lower(a) == Lower(b)
    ensures IdentifySender(idx, a) == IdentifySender(idx, b)
  {
  }

  // ---------------------------------------------------------------------------
  // initiate_meeting: hub members versus outside participants
  // ---------------------------------------------------------------------------

  /** The member a (stripped) participant name denotes: same name or same id, ignoring case. */
  predicate Denotes(entry: (string, Member), name: string)
  {
    Lower(entry.1.name.GetOr("")) == Lower(name) || Lower(entry.0) == Lower(name)
  }

  /** The first member the name denotes. */
  function MatchMember(members: Members, name: string): (r: Option<string>)
    ensures r.None? <==> forall i | 0 <= i < |members| :: !Denotes(members[i], name)
    ensures r.Some? ==> exists i | 0 <= i < |members| :: members[i].0 == r.value && Denotes(members[i], name)
                          && forall j | 0 <= j < i :: !Denotes(members[j], name)
  {
    if |members| == 0 then None
    else if Denotes(members[0], name) then Some(members[0].0)
    else
      var r := MatchMember(members[1..], name);
      assert forall i | 1 <= i < |members| :: members[i] == members[1..][i - 1];
      r
  }

  datatype Split = Split(internalIds: seq<string>, externalNames: seq<string>)

  /** The initiator, when given and a member, is the first internal id. */
  function SplitStart(members: Members, initiator: Option<string>): Split
  {
    if Truthy(initiator) && HasKey(members, initiator.value) then Split([initiator.value], []) else Split([], [])
  }

  /** One turn of the classification loop. */
  function SplitStep(members: Members, acc: Split, rawName: string): Split
  {
    var name := Strip(rawName);
    var matched := MatchMember(members, name);
    if Truthy(matched) then Split(AppendNew(acc.internalIds, matched.value), acc.externalNames)
    else Split(acc.internalIds, acc.externalNames + [name])
  }

  function SplitFrom(members: Members, acc: Split, names: seq<string>): (r: Split)
    ensures NoDup(acc.internalIds) ==> NoDup(r.internalIds)
    ensures acc.internalIds <= r.internalIds && acc.externalNames <= r.externalNames
    ensures forall x | x in r.internalIds :: x in acc.internalIds || exists i | 0 <= i < |names| :: MatchMember(members, Strip(names[i])) == Some(x)
    ensures forall i | 0 <= i < |names| :: var m := MatchMember(members, Strip(names[i]));
              if Truthy(m) then m.value in r.internalIds else Strip(names[i]) in r.externalNames
    ensures forall x | x in r.externalNames && x !in acc.externalNames :: MatchMember(members, x).None? || MatchMember(members, x) == Some("")
    decreases |names|
  {
    if |names| == 0 then acc
    else
      var next := SplitStep(members, acc, names[0]);
      var r := SplitFrom(members, next, names[1..]);
      assert forall i | 1 <= i < |names| :: names[i] == names[1..][i - 1];
      PrefixIn(next.internalIds, r.internalIds);
      PrefixIn(next.externalNames, r.externalNames);
      r
  }

  lemma PrefixIn<T>(a: seq<T>, b: seq<T>)
    requires a <= b
    ensures forall x | x in a :: x in b
  {
    forall x | x in a ensures x in b {
      var i :| 0 <= i < |a| && a[i] == x;
      assert b[i] == x;
    }
  }

  /** The classification of hub_agent.py `initiate_meeting` (and its copy in the session handler). */
  function Classify(members: Members, names: seq<string>, initiator: Option<string>): (r: Split)
    ensures NoDup(r.internalIds)
    ensures Truthy(initiator) && HasKey(members, initiator.value) ==> |r.internalIds| > 0 && r.internalIds[0] == initiator.value
    ensures forall x | x in r.internalIds :: HasKey(members, x)
  {
    var start := SplitStart(members, initiator);
    var r := SplitFrom(members, start, names);
    forall x | x in r.internalIds ensures HasKey(members, x) {
      if x !in start.internalIds {
        var i :| 0 <= i < |names| && MatchMember(members, Strip(names[i])) == Some(x);
        var j :| 0 <= j < |members| && members[j].0 == x && Denotes(members[j], Strip(names[i]))
                 && forall k | 0 <= k < j :: !Denotes(members[k], Strip(names[i]));
        assert x == Keys(members)[j];
      }
    }
    r
  }

  /** A name is internal exactly when it denotes a member (with a non-empty id); otherwise it is external. */
  lemma ClassifyCovers(members: Members, names: seq<string>, initiator: Option<string>, i: nat)
    requires i < |names|
    ensures var r := Classify(members, names, initiator);
            var m := MatchMember(members, Strip(names[i]));
            (Truthy(m) ==> m.value in r.internalIds) && (!Truthy(m) ==> Strip(names[i]) in r.externalNames)
  {
  }

  /** No outsiders: the meeting is purely internal. */
  predicate IsInternalMeeting(s: Split)
  {
    s.externalNames == []
  }

  // ---------------------------------------------------------------------------
  // _merge_internal_prefs
  // ---------------------------------------------------------------------------

  datatype MergedPrefs = MergedPrefs(preferredTimes: seq<string>, blockedTimes: seq<string>,
                                     preferredLocations: seq<string>, autoAccept: bool)

  /** The concatenated lists of the listed members, in the order the ids are given. */
  function Gathered(members: Members, ids: seq<string>): (p: MemberPrefs)
    ensures forall x :: x in p.preferredTimes <==> exists i | 0 <= i < |ids| :: x in MemberOr(members, ids[i]).prefs.preferredTimes
    ensures forall x :: x in p.blockedTimes <==> exists i | 0 <= i < |ids| :: x in MemberOr(members, ids[i]).prefs.blockedTimes
    ensures forall x :: x in p.preferredLocations <==> exists i | 0 <= i < |ids| :: x in MemberOr(members, ids[i]).prefs.preferredLocations
  {
    if |ids| == 0 then NO_PREFS
    else
      var rest := Gathered(members, ids[..|ids| - 1]);
      var m := MemberOr(members, ids[|ids| - 1]).prefs;
      assert forall i | 0 <= i < |ids| - 1 :: ids[i] == ids[..|ids| - 1][i];
      MemberPrefs(rest.preferredTimes + m.preferredTimes, rest.blockedTimes + m.blockedTimes,
                  rest.preferredLocations + m.preferredLocations)
  }

  /** `_merge_internal_prefs`: each list concatenated in member order, first occurrences kept, auto-accept on. */
  function MergeInternalPrefs(members: Members, ids: seq<string>): (r: MergedPrefs)
    ensures r.autoAccept
    ensures NoDup(r.preferredTimes) && NoDup(r.blockedTimes) && NoDup(r.preferredLocations)
    ensures forall x :: x in r.preferredTimes <==> exists i | 0 <= i < |ids| :: x in MemberOr(members, ids[i]).prefs.preferredTimes
    ensures forall x :: x in r.blockedTimes <==> exists i | 0 <= i < |ids| :: x in MemberOr(members, ids[i]).prefs.blockedTimes
    ensures forall x :: x in r.preferredLocations <==> exists i | 0 <= i < |ids| :: x in MemberOr(members, ids[i]).prefs.preferredLocations
  {
    var g := Gathered(members, ids);
    MergedPrefs(Dedup(g.preferredTimes), Dedup(g.blockedTimes), Dedup(g.preferredLocations), true)
  }

  /** A single member with duplicate-free lists keeps them exactly as configured. */
  lemma {:induction false} MergeSingle(members: Members, mid: string)
    requires var p := MemberOr(members, mid).prefs;
             NoDup(p.preferredTimes) && NoDup(p.blockedTimes) && NoDup(p.preferredLocations)
    ensures var p := MemberOr(members, mid).prefs;
            var r := MergeInternalPrefs(members, [mid]);
            r.preferredTimes == p.preferredTimes && r.blockedTimes == p.blockedTimes && r.preferredLocations == p.preferredLocations
  {
    var p := MemberOr(members, mid).prefs;
    assert [mid][..0] == [];
    assert Gathered(members, []) == NO_PREFS;
    assert [] + p.preferredTimes == p.preferredTimes;
    assert [] + p.blockedTimes == p.blockedTimes;
    assert [] + p.preferredLocations == p.preferredLocations;
    var g := Gathered(members, [mid]);
    assert g.preferredTimes == p.preferredTimes && g.blockedTimes == p.blockedTimes && g.preferredLocations == p.preferredLocations;
    DedupOfNoDup(p.preferredTimes, {});
    DedupOfNoDup(p.blockedTimes, {});
    DedupOfNoDup(p.preferredLocations, {});
  }

  // ---------------------------------------------------------------------------
  // The internal-members marker stored among a hybrid session's message ids
  // ---------------------------------------------------------------------------

  const MARKER := "__hub_internal_members__"

  /** The pseudo message id `_initiate_hybrid_meeting` records. */
  function Marker(ids: seq<string>): string
  {
    MARKER + Join(ids, ",")
  }

  /** `s.replace(p, "")`: every non-overlapping occurrence of p, scanning left to right, removed. */
  function RemoveAll(s: string, p: string): (r: string)
    requires |p| > 0
    ensures |r| <= |s|
    decreases |s|
  {
    if |s| == 0 then ""
    else if StartsWith(s, p) then RemoveAll(s[|p|..], p)
    else [s[0]] + RemoveAll(s[1..], p)
  }

  /** `_load_internal_members`: the ids of the first marker among the references, [] without one. */
  function LoadInternalMembers(refs: seq<string>): (ids: seq<string>)
    ensures forall i | 0 <= i < |ids| :: ids[i] != "" && ',' !in ids[i]
    ensures (forall i | 0 <= i < |refs| :: !StartsWith(refs[i], MARKER)) ==> ids == []
  {
    if |refs| == 0 then []
    else if StartsWith(refs[0], MARKER) then
      var parts := SplitOn(RemoveAll(refs[0], MARKER), ',');
      var ids := RemoveEmpty(parts);
      assert forall i | 0 <= i < |ids| :: ids[i] in parts;
      ids
    else
      var r := LoadInternalMembers(refs[1..]);
      assert forall i | 1 <= i < |refs| :: refs[i] == refs[1..][i - 1];
      r
  }

  lemma {:induction false} RemoveAllAbsent(s: string, p: string)
    requires |p| > 0 && !Contains(s, p)
    ensures RemoveAll(s, p) == s
    decreases |s|
  {
    if |s| > 0 {
      RemoveAllAbsent(s[1..], p);
    }
  }

  lemma PrefixChar(s: string, p: string, k: nat)
    requires StartsWith(s, p) && k < |p| && k < |s|
    ensures s[k] in p
  {
    assert p[k] == s[..|p|][k];
  }

  /** An occurrence of p across a character that p does not contain lies on one side of it. */
  lemma {:induction false} ContainsSplit(a: string, c: char, b: string, p: string)
    requires c !in p
    requires Contains(a + [c] + b, p)
    ensures Contains(a, p) || Contains(b, p)
    decreases |a|
  {
    var x := a + [c] + b;
    if StartsWith(x, p) {
      if |p| <= |a| {
        assert a[..|p|] == x[..|p|];
      } else {
        PrefixChar(x, p, |a|);
        assert false;
      }
    } else {
      assert |x| > 0 && Contains(x[1..], p);
      if |a| == 0 {
        assert x[1..] == b;
      } else {
        assert x[1..] == a[1..] + [c] + b;
        ContainsSplit(a[1..], c, b, p);
        if Contains(a[1..], p) {
          assert Contains(a, p);
        }
      }
    }
  }

  lemma {:induction false} JoinFree(ids: seq<string>, p: string)
    requires ',' !in p && |p| > 0
    requires forall i | 0 <= i < |ids| :: !Contains(ids[i], p)
    ensures !Contains(Join(ids, ","), p)
  {
    if |ids| > 1 {
      JoinFree(ids[1..], p);
      assert Join(ids, ",") == ids[0] + [','] + Join(ids[1..], ",");
      if Contains(Join(ids, ","), p) {
        ContainsSplit(ids[0], ',', Join(ids[1..], ","), p);
      }
    }
  }

  lemma {:induction false} RemoveEmptyNone(s: seq<string>)
    requires forall i | 0 <= i < |s| :: s[i] != ""
    ensures RemoveEmpty(s) == s
  {
    if |s| > 0 {
      RemoveEmptyNone(s[1..]);
    }
  }

  /**
   * The marker gives back the internal ids it was written from, provided no id is empty,
   * none contains a comma or the marker text, and no earlier reference is a marker.
   */
  lemma {:induction false} MarkerRoundTrip(refs: seq<string>, ids: seq<string>)
    requires forall i | 0 <= i < |refs| :: !StartsWith(refs[i], MARKER)
    requires forall i | 0 <= i < |ids| :: ids[i] != "" && ',' !in ids[i] && !Contains(ids[i], MARKER)
    ensures LoadInternalMembers(refs + [Marker(ids)]) == ids
  {
    if |refs| > 0 {
      assert (refs + [Marker(ids)])[1..] == refs[1..] + [Marker(ids)];
      MarkerRoundTrip(refs[1..], ids);
    } else {
      var m := Marker(ids);
      assert [m][0] == m && [m] == refs + [m];
      assert m[..|MARKER|] == MARKER;
      assert m[|MARKER|..] == Join(ids, ",");
      JoinFree(ids, MARKER);
      RemoveAllAbsent(Join(ids, ","), MARKER);
      if |ids| == 0 {
        assert RemoveAll("", MARKER) == "";
        assert SplitOn("", ',') == [""];
        assert Filter([""], "") == Filter([""][1..], "") == [];
      } else {
        SplitJoin(ids, ',');
        RemoveEmptyNone(ids);
      }
    }
  }
}
