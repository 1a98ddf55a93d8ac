// The pure helpers of lib/email_client.py: the session tag in the subject, the subject
// that send_aimp_email writes, the AIMP-mail test, the protocol.json extraction and the
// References header split.

module Email {
  import opened Common

  datatype Attachment = Attachment(filename: string, content: seq<bv8>)

  /** `ParsedEmail`, without the raw Date header. */
  datatype ParsedEmail = ParsedEmail(
    messageId: string,
    subject: string,
    sender: string,
    recipients: seq<string>,
    body: string,
    attachments: seq<Attachment>,
    references: seq<string>,
    sessionId: Option<string>)

  const SESSION_TAG := "[AIMP:"
  const PROTOCOL_JSON := "protocol.json"

  // ---------------------------------------------------------------------------
  // Subject tags: `\[PREFIX([^\]]+)\]`
  // ---------------------------------------------------------------------------

  /** At i: the prefix, then one or more characters other than ']', then ']'. */
  predicate TagAt(s: string, prefix: string, i: nat)
  {
    i + |prefix| <= |s| && s[i..i + |prefix|] == prefix &&
    var rest := s[i + |prefix|..];
    0 < IndexOfChar(rest, ']') < |rest|
  }

  /** The characters between the prefix and the closing ']' of the tag at i. */
  function TagContent(s: string, prefix: string, i: nat): (c: string)
    requires TagAt(s, prefix, i)
    ensures c != [] && ']' !in c
  {
    var rest := s[i + |prefix|..];
    rest[..IndexOfChar(rest, ']')]
  }

  /** `re.search` for the tag: the content of the leftmost tag at or after `from`. */
  function FindTag(s: string, prefix: string, from: nat): (r: Option<string>)
    ensures r.Some? ==> r.value != [] && ']' !in r.value
    ensures r.Some? ==> exists i | from <= i <= |s| :: TagAt(s, prefix, i) && r.value == TagContent(s, prefix, i)
                                                 && forall j | from <= j < i :: !TagAt(s, prefix, j)
    ensures r.None? ==> forall i | from <= i <= |s| :: !TagAt(s, prefix, i)
    decreases |s| - from
  {
    if from > |s| then None
    else if TagAt(s, prefix, from) then Some(TagContent(s, prefix, from))
    else FindTag(s, prefix, from + 1)
  }

  /** `_extract_session_id`. */
  function ExtractSessionId(subject: string): Option<string>
  {
    FindTag(subject, SESSION_TAG, 0)
  }

  /** The subject `send_aimp_email` writes: `[AIMP:<id>] v<version> <suffix>`. */
  function AimpSubject(sessionId: string, version: int, suffix: string): string
  {
    SESSION_TAG + sessionId + "] v" + IntToString(version) + " " + suffix
  }

  /** A tag right at the start of a subject is the one the search finds. */
  lemma {:induction false} LeadingTag(s: string, prefix: string, content: string, rest: string)
    requires content != [] && ']' !in content
    requires s == prefix + content + "]" + rest
    ensures FindTag(s, prefix, 0) == Some(content)
  {
    var after := s[|prefix|..];
    assert after == content + "]" + rest;
    assert s[0..|prefix|] == prefix;
    assert after[|content|] == ']';
    assert forall j | 0 <= j < |content| :: after[j] == content[j];
    assert IndexOfChar(after, ']') == |content|;
    assert TagAt(s, prefix, 0);
    assert after[..|content|] == content;
  }

  /** For an id that is non-empty and free of ']', the subject carries the id back. */
  lemma {:induction false} SubjectRoundTrip(sessionId: string, version: int, suffix: string)
    requires sessionId != [] && ']' !in sessionId
    ensures ExtractSessionId(AimpSubject(sessionId, version, suffix)) == Some(sessionId)
  {
    var rest := " v" + IntToString(version) + " " + suffix;
    assert AimpSubject(sessionId, version, suffix) == SESSION_TAG + sessionId + "]" + rest;
    LeadingTag(AimpSubject(sessionId, version, suffix), SESSION_TAG, sessionId, rest);
  }

  /** Room mail subjects `[AIMP:Room:<id>] ...` are read back as the id `Room:<id>`. */
  lemma {:induction false} RoomSubjectTag(roomId: string, rest: string)
    requires ']' !in roomId
    ensures ExtractSessionId(SESSION_TAG + "Room:" + roomId + "]" + rest) == Some("Room:" + roomId)
  {
    var s := SESSION_TAG + "Room:" + roomId + "]" + rest;
    assert s == SESSION_TAG + ("Room:" + roomId) + "]" + rest;
    assert ']' !in "Room:" + roomId;
    LeadingTag(s, SESSION_TAG, "Room:" + roomId, rest);
  }

  /** A found tag implies the subject mentions "[AIMP:". */
  lemma TagImpliesPrefix(subject: string)
    requires ExtractSessionId(subject).Some?
    ensures Contains(subject, SESSION_TAG)
  {
    var i :| 0 <= i <= |subject| && TagAt(subject, SESSION_TAG, i);
    ContainsAt(subject, SESSION_TAG, i);
  }

  // ---------------------------------------------------------------------------
  // AIMP mail recognition and protocol.json
  // ---------------------------------------------------------------------------

  predicate HasProtocolJson(attachments: seq<Attachment>)
  {
    exists i | 0 <= i < |attachments| :: attachments[i].filename == PROTOCOL_JSON
  }

  /** `is_aimp_email`: the subject mentions "[AIMP:" and a protocol.json is attached. */
  predicate IsAimpEmail(p: ParsedEmail)
  {
    Contains(p.subject, SESSION_TAG) && HasProtocolJson(p.attachments)
  }

  /** A message built the way send_aimp_email builds one is recognised as AIMP mail. */
  lemma {:induction false} SentMailIsAimp(p: ParsedEmail, sessionId: string, version: int, suffix: string, json: seq<bv8>)
    requires p.subject == AimpSubject(sessionId, version, suffix)
    requires Attachment(PROTOCOL_JSON, json) in p.attachments
    ensures IsAimpEmail(p)
  {
    assert p.subject[0..|SESSION_TAG|] == SESSION_TAG;
    ContainsAt(p.subject, SESSION_TAG, 0);
    var i :| 0 <= i < |p.attachments| && p.attachments[i] == Attachment(PROTOCOL_JSON, json);
  }

  /**
   * `extract_protocol_json`: the first protocol.json attachment that decodes; one that fails
   * to decode is skipped. `decode` stands for UTF-8 decoding plus `json.loads`.
   */
  function ExtractProtocolJson<T>(attachments: seq<Attachment>, decode: seq<bv8> -> Option<T>): (r: Option<T>)
    ensures r.Some? ==> exists i | 0 <= i < |attachments| ::
              attachments[i].filename == PROTOCOL_JSON && decode(attachments[i].content) == r
    ensures !HasProtocolJson(attachments) ==> r.None?
    ensures r.None? ==> forall i | 0 <= i < |attachments| && attachments[i].filename == PROTOCOL_JSON ::
              decode(attachments[i].content).None?
  {
    if |attachments| == 0 then None
    else if attachments[0].filename == PROTOCOL_JSON && decode(attachments[0].content).Some? then
      decode(attachments[0].content)
    else
      var r := ExtractProtocolJson(attachments[1..], decode);
      assert forall i | 1 <= i < |attachments| :: attachments[i] == attachments[1..][i - 1];
      r
  }

  // ---------------------------------------------------------------------------
  // References header
  // ---------------------------------------------------------------------------

  /** `[x for x in xs if x]`. */
  function KeepNonEmpty(xs: seq<string>): (r: seq<string>)
    ensures forall x :: x in r <==> x in xs && x != ""
  {
    if |xs| == 0 then [] else if xs[0] == "" then KeepNonEmpty(xs[1..]) else [xs[0]] + KeepNonEmpty(xs[1..])
  }

  /** `[r.strip() for r in raw.split() if r.strip()]`. */
  function ParseReferences(raw: string): seq<string>
  {
    var tokens := SplitSpace(raw);
    KeepNonEmpty(seq(|tokens|, i requires 0 <= i < |tokens| => Strip(tokens[i])))
  }

  lemma StripNoSpace(t: string)
    requires t != [] && NoSpace(t)
    ensures Strip(t) == t
  {
    assert StripLeft(t) == t;
  }

  lemma {:induction false} KeepAllNonEmpty(xs: seq<string>)
    requires forall i | 0 <= i < |xs| :: xs[i] != ""
    ensures KeepNonEmpty(xs) == xs
  {
    if |xs| > 0 {
      KeepAllNonEmpty(xs[1..]);
    }
  }

  /** Stripping and dropping empties changes nothing: the references are the header's tokens. */
  lemma {:induction false} ParseReferencesIsSplit(raw: string)
    ensures ParseReferences(raw) == SplitSpace(raw)
  {
    var tokens := SplitSpace(raw);
    var stripped := seq(|tokens|, i requires 0 <= i < |tokens| => Strip(tokens[i]));
    forall i | 0 <= i < |tokens| ensures stripped[i] == tokens[i] {
      StripNoSpace(tokens[i]);
    }
    assert stripped == tokens;
    KeepAllNonEmpty(tokens);
  }

  /** Message ids written space-separated into References (as send_aimp_email does) are read back. */
  lemma {:induction false} ReferencesRoundTrip(refs: seq<string>)
    requires forall i | 0 <= i < |refs| :: refs[i] != [] && NoSpace(refs[i])
    ensures ParseReferences(Join(refs, " ")) == refs
  {
    ParseReferencesIsSplit(Join(refs, " "));
    SplitSpaceJoin(refs);
  }
}
