// The value records of lib/protocol.py: history entries, proposal items with their
// votes and consensus rule, and room artifacts, together with their dict forms.

module Protocol {
  import opened Common
  import opened Dicts

  /** Maximum number of history entries before a session counts as stalled. */
  const MAX_ROUNDS: nat := 5

  // Session and room action vocabularies.
  const PROPOSE := "propose"
  const ACCEPT := "accept"
  const COUNTER := "counter"
  const CONFIRM := "confirm"
  const ESCALATE := "escalate"

  const ROOM_PROPOSE := "PROPOSE"
  const ROOM_AMEND := "AMEND"
  const ROOM_ACCEPT := "ACCEPT"
  const ROOM_REJECT := "REJECT"

  // ---------------------------------------------------------------------------
  // HistoryEntry
  // ---------------------------------------------------------------------------

  datatype HistoryEntry = HistoryEntry(version: int, fromAgent: string, action: string, summary: string)

  /** The dict form; an absent key is None. */
  datatype HistoryData = HistoryData(
    version: Option<int>, from: Option<string>, action: Option<string>, summary: Option<string>)

  /** `HistoryEntry.from_dict`: version, from and action are required, summary defaults to "". */
  function HistoryFromDict(d: HistoryData): (r: Option<HistoryEntry>)
    ensures r.Some? <==> d.version.Some? && d.from.Some? && d.action.Some?
    ensures r.Some? ==> r.value.summary == d.summary.GetOr("")
  {
    if d.version.Some? && d.from.Some? && d.action.Some? then
      Some(HistoryEntry(d.version.value, d.from.value, d.action.value, d.summary.GetOr("")))
    else None
  }

  /** The key `from_dict` raises KeyError on: the first of version, from and action that is absent. */
  function MissingKey(d: HistoryData): (k: string)
    requires HistoryFromDict(d).None?
    ensures k == "version" <==> d.version.None?
    ensures k == "from" <==> d.version.Some? && d.from.None?
    ensures k == "action" <==> d.version.Some? && d.from.Some? && d.action.None?
  {
    if d.version.None? then "version" else if d.from.None? then "from" else "action"
  }

  /**
   * Where a comprehension `[HistoryEntry.from_dict(h) for h in ds]` stops: the first entry that
   * does not read, or the length when every entry reads.
   */
  function FirstUnreadable(ds: seq<HistoryData>): (k: nat)
    ensures k <= |ds|
    ensures k < |ds| ==> HistoryFromDict(ds[k]).None?
    ensures forall i | 0 <= i < k :: HistoryFromDict(ds[i]).Some?
  {
    if |ds| == 0 then 0
    else if HistoryFromDict(ds[0]).None? then 0
    else 1 + FirstUnreadable(ds[1..])
  }

  /** The KeyError of that comprehension: the missing key of its first unreadable entry. */
  function EntriesError(ds: seq<HistoryData>): (e: Failure)
    requires exists i | 0 <= i < |ds| :: HistoryFromDict(ds[i]).None?
    ensures e.KeyError? && e.key in {"version", "from", "action"}
    ensures exists k | 0 <= k < |ds| :: HistoryFromDict(ds[k]).None? && e == KeyError(MissingKey(ds[k]))
             && forall i | 0 <= i < k :: HistoryFromDict(ds[i]).Some?
  {
    var k := FirstUnreadable(ds);
    KeyError(MissingKey(ds[k]))
  }

  /** `HistoryEntry.to_dict` writes every key, so reading it back gives the entry again. */
  function HistoryToDict(h: HistoryEntry): (d: HistoryData)
    ensures HistoryFromDict(d) == Some(h)
  {
    HistoryData(Some(h.version), Some(h.fromAgent), Some(h.action), Some(h.summary))
  }

  // ---------------------------------------------------------------------------
  // ProposalItem
  // ---------------------------------------------------------------------------

  /** voter -> choice, None meaning "no vote yet". */
  type Votes = Dict<Option<string>>

  /** The non-None values among vs, in order. */
  function ActualVotes(vs: seq<Option<string>>): (r: seq<string>)
    ensures |r| <= |vs|
    ensures |r| == |vs| <==> forall i | 0 <= i < |vs| :: vs[i].Some?
  {
    if |vs| == 0 then []
    else if vs[0].Some? then [vs[0].value] + ActualVotes(vs[1..])
    else ActualVotes(vs[1..])
  }

  predicate AllSame(s: seq<string>)
  {
    forall i | 0 <= i < |s| :: s[i] == s[0]
  }

  /** Every vote in votes is exactly Some(c). */
  predicate UnanimousFor(votes: Votes, c: string)
  {
    forall i | 0 <= i < |votes| :: votes[i].1 == Some(c)
  }

  datatype ProposalItem = ProposalItem(options: seq<string>, votes: Votes)
  {
    /** `add_option`: appends option only when it is not already listed. */
    function AddOption(option: string): (r: ProposalItem)
      ensures r.votes == votes
      ensures option in r.options
      ensures forall o :: o in r.options <==> o in options || o == option
      ensures options <= r.options && |r.options| <= |options| + 1
      ensures NoDup(options) ==> NoDup(r.options)
    {
      ProposalItem(AppendNew(options, option), votes)
    }

    /** `vote`: ValueError when choice is not an option; otherwise records votes[voter] = choice. */
    function Vote(voter: string, choice: string): (r: Result<ProposalItem>)
      ensures r.Err? <==> choice !in options
      ensures r.Err? ==> r.error.ValueError?
      ensures r.Ok? ==> r.value.options == options
      ensures r.Ok? ==> Get(r.value.votes, voter) == Some(Some(choice))
      ensures r.Ok? ==> forall k | k != voter :: Get(r.value.votes, k) == Get(votes, k)
    {
      if choice !in options then Err(ValueError("not a valid option"))
      else Ok(ProposalItem(options, Put(votes, voter, Some(choice))))
    }

    /** `clear_vote`: votes[voter] = None, everything else untouched. */
    function ClearVote(voter: string): (r: ProposalItem)
      ensures r.options == options
      ensures Get(r.votes, voter) == Some(None)
      ensures forall k | k != voter :: Get(r.votes, k) == Get(votes, k)
    {
      ProposalItem(options, Put(votes, voter, None))
    }

    /** `check_consensus`: the shared choice when every slot holds the same choice. */
    function CheckConsensus(): (r: Option<string>)
      ensures r.Some? ==> |votes| > 0 && UnanimousFor(votes, r.value)
    {
      var actual := ActualVotes(Values(votes));
      if |actual| == 0 then None
      else if |actual| == |votes| && AllSame(actual) then
        ConsensusWitness(votes, actual);
        Some(actual[0])
      else None
    }
  }

  /** Adding the same option twice is the same as adding it once. */
  lemma AddOptionIdempotent(item: ProposalItem, option: string)
    ensures item.AddOption(option).AddOption(option) == item.AddOption(option)
  {
  }

  /** When no slot is None the actual votes are the slots' values, position for position. */
  lemma ActualVotesAllSome(vs: seq<Option<string>>)
    requires forall i | 0 <= i < |vs| :: vs[i].Some?
    ensures forall i | 0 <= i < |vs| :: ActualVotes(vs)[i] == vs[i].value
  {
    if |vs| > 0 {
      ActualVotesAllSome(vs[1..]);
      assert forall i | 1 <= i < |vs| :: ActualVotes(vs)[i] == ActualVotes(vs[1..])[i - 1];
    }
  }

  lemma ConsensusWitness(votes: Votes, actual: seq<string>)
    requires actual == ActualVotes(Values(votes))
    requires |actual| > 0 && |actual| == |votes| && AllSame(actual)
    ensures UnanimousFor(votes, actual[0])
  {
    var vs := Values(votes);
    ActualVotesAllSome(vs);
  }

  /**
   * The consensus rule in both directions: an item reaches consensus on c exactly when it has
   * at least one slot and every slot holds the vote c.
   */
  lemma {:induction false} ConsensusIff(item: ProposalItem, c: string)
    ensures item.CheckConsensus() == Some(c) <==> |item.votes| > 0 && UnanimousFor(item.votes, c)
  {
    if |item.votes| > 0 && UnanimousFor(item.votes, c) {
      var vs := Values(item.votes);
      assert forall i | 0 <= i < |vs| :: vs[i].Some?;
      ActualVotesAllSome(vs);
      var actual := ActualVotes(vs);
      assert forall i | 0 <= i < |actual| :: actual[i] == c;
    }
  }

  /** No consensus while some slot is still empty. */
  lemma NoConsensusWithEmptySlot(item: ProposalItem, voter: string)
    requires Get(item.votes, voter) == Some(None)
    ensures item.CheckConsensus() == None
  {
    var i := GetIndex(item.votes, voter);
  }

  lemma GetIndex<V>(d: Dict<V>, k: string) returns (i: nat)
    requires HasKey(d, k)
    ensures i < |d| && d[i].0 == k && Get(d, k) == Some(d[i].1)
  {
    if d[0].0 == k {
      i := 0;
    } else {
      assert k in Keys(d[1..]);
      var j := GetIndex(d[1..], k);
      i := j + 1;
    }
  }

  /** The dict form of a proposal item; `votes` and `options` may be absent. */
  datatype ItemData = ItemData(options: Option<seq<string>>, votes: Option<Votes>)

  /** `ProposalItem.from_dict`: missing lists default to empty. */
  function ItemFromDict(d: ItemData): ProposalItem
  {
    ProposalItem(d.options.GetOr([]), d.votes.GetOr([]))
  }

  /** `ProposalItem.to_dict`, which `from_dict` inverts. */
  function ItemToDict(p: ProposalItem): (d: ItemData)
    ensures ItemFromDict(d) == p
    ensures d.options.Some? && d.votes.Some?
  {
    ItemData(Some(p.options), Some(p.votes))
  }

  // ---------------------------------------------------------------------------
  // Artifact
  // ---------------------------------------------------------------------------

  datatype Artifact = Artifact(
    name: string, contentType: string, bodyText: string, author: string, timestamp: int)

  datatype ArtifactData = ArtifactData(
    name: Option<string>, contentType: Option<string>, bodyText: Option<string>,
    author: Option<string>, timestamp: Option<int>)

  /** `Artifact.from_dict`: name is required; the rest default to "text/plain", "", "" and 0. */
  function ArtifactFromDict(d: ArtifactData): (r: Option<Artifact>)
    ensures r.Some? <==> d.name.Some?
    ensures r.Some? ==> r.value.contentType == d.contentType.GetOr("text/plain")
    ensures r.Some? ==> r.value.timestamp == d.timestamp.GetOr(0)
  {
    if d.name.None? then None
    else Some(Artifact(d.name.value, d.contentType.GetOr("text/plain"), d.bodyText.GetOr(""),
                       d.author.GetOr(""), d.timestamp.GetOr(0)))
  }

  /** `Artifact.to_dict`, which `from_dict` inverts. */
  function ArtifactToDict(a: Artifact): (d: ArtifactData)
    ensures ArtifactFromDict(d) == Some(a)
  {
    ArtifactData(Some(a.name), Some(a.contentType), Some(a.bodyText), Some(a.author), Some(a.timestamp))
  }
}
