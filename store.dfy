// lib/session_store.py: the sessions table (session_id primary key, the session's JSON,
// its status and the time of the save), the sent_messages table ((session_id, message_id)
// pairs, each recorded once, kept in the order they were recorded) and the room table the
// handlers rely on. SQLite becomes maps and sequences; the clock reading taken by `save`
// is a parameter.

module Store {
  import opened Common
  import opened SessionSpec
  import RoomSpec
  import Session
  import Room
  import opened Dicts

  /** One row of the sessions table. */
  datatype Row = Row(data: SessionData, status: string, updatedAt: int)

  type Table = map<string, Row>

  /** `save`: INSERT OR REPLACE keyed by session_id. */
  function SaveRow(table: Table, st: SessionState, now: int): (t: Table)
    ensures t.Keys == table.Keys + {st.sessionId}
    ensures forall id | id in table && id != st.sessionId :: t[id] == table[id]
  {
    table[st.sessionId := Row(ToJson(st), st.status, now)]
  }

  /** `load`: None for an unknown id, otherwise `from_json` of the stored JSON. */
  function LoadRow(table: Table, id: string, now: int): Result<Option<SessionState>>
  {
    if id !in table then Ok(None)
    else match FromJson(table[id].data, now)
      case Ok(st) => Ok(Some(st))
      case Err(e) => Err(e)
  }

  /** After a save, loading that id gives the saved session back, stamped with the load time. */
  lemma SaveThenLoad(table: Table, st: SessionState, now: int, later: int)
    requires HasCoreItems(st.proposals)
    ensures LoadRow(SaveRow(table, st, now), st.sessionId, later) == Ok(Some(st.(createdAt := later)))
  {
    JsonRoundTrip(st, later);
  }

  /** A save touches no other id. */
  lemma SaveKeepsOthers(table: Table, st: SessionState, now: int, id: string, later: int)
    requires id != st.sessionId
    ensures LoadRow(SaveRow(table, st, now), id, later) == LoadRow(table, id, later)
  {
  }

  /** Every stored JSON is one `from_json` accepts, so `load` never raises. */
  predicate Stored(table: Table)
  {
    forall id | id in table :: Decodable(table[id].data)
  }

  lemma StoredLoads(table: Table, id: string, now: int)
    requires Stored(table)
    ensures LoadRow(table, id, now).Ok?
  {
  }

  lemma SaveStored(table: Table, st: SessionState, now: int)
    requires Stored(table)
    ensures Stored(SaveRow(table, st, now))
  {
    ToJsonDecodable(st);
  }

  // ---------------------------------------------------------------------------
  // load_active: WHERE status = 'negotiating' ORDER BY updated_at DESC
  // ---------------------------------------------------------------------------

  predicate InTable(table: Table, ids: seq<string>)
  {
    forall i | 0 <= i < |ids| :: ids[i] in table
  }

  /** Most recently saved first. */
  predicate ByRecency(table: Table, ids: seq<string>)
    requires InTable(table, ids)
  {
    forall i, j | 0 <= i < j < |ids| :: table[ids[i]].updatedAt >= table[ids[j]].updatedAt
  }

  /** The ids the query returns: each negotiating session once, most recent first. */
  predicate ActiveOrder(table: Table, ids: seq<string>)
  {
    InTable(table, ids) && NoDup(ids) && ByRecency(table, ids) &&
    (forall i | 0 <= i < |ids| :: table[ids[i]].status == NEGOTIATING) &&
    (forall id | id in table && table[id].status == NEGOTIATING :: id in ids)
  }

  /** `from_json` of each listed row. */
  function LoadAll(table: Table, ids: seq<string>, now: int): (r: seq<SessionState>)
    requires Stored(table) && InTable(table, ids)
    ensures |r| == |ids|
    ensures forall i | 0 <= i < |ids| :: Ok(r[i]) == FromJson(table[ids[i]].data, now)
  {
    seq(|ids|, i requires 0 <= i < |ids| => FromJson(table[ids[i]].data, now).value)
  }

  /** Places k in front of the first id saved no later than k. */
  function InsertByRecency(table: Table, ids: seq<string>, k: string): (r: seq<string>)
    requires k in table && InTable(table, ids) && ByRecency(table, ids)
    ensures |r| == |ids| + 1
    ensures forall x :: x in r <==> x in ids || x == k
    ensures InTable(table, r) && ByRecency(table, r)
    ensures NoDup(ids) && k !in ids ==> NoDup(r)
  {
    if |ids| == 0 || table[ids[0]].updatedAt <= table[k].updatedAt then
      [k] + ids
    else
      var rest := InsertByRecency(table, ids[1..], k);
      assert forall j | 0 <= j < |rest| :: rest[j] == k || rest[j] in ids[1..];
      assert forall j | 0 <= j < |rest| :: table[ids[0]].updatedAt >= table[rest[j]].updatedAt;
      [ids[0]] + rest
  }

  /** One new session object per state, in order. */
  method Build(states: seq<SessionState>) returns (ss: seq<Session.AIMPSession>)
    ensures |ss| == |states|
    ensures forall i | 0 <= i < |ss| :: fresh(ss[i]) && ss[i].State() == states[i]
  {
    ss := [];
    var i := 0;
    while i < |states|
      invariant 0 <= i <= |states| && |ss| == i
      invariant forall j | 0 <= j < i :: fresh(ss[j]) && ss[j].State() == states[j]
    {
      var s := new Session.AIMPSession.FromState(states[i]);
      ss := ss + [s];
      i := i + 1;
    }
  }

  // ---------------------------------------------------------------------------
  // sent_messages: (session_id, message_id) pairs, each at most once, in insertion order
  // ---------------------------------------------------------------------------

  /** `SELECT message_id FROM sent_messages WHERE session_id = ?`. */
  function IdsFor(sent: seq<(string, string)>, sessionId: string): (ids: seq<string>)
    ensures forall m :: m in ids <==> (sessionId, m) in sent
    ensures NoDup(sent) ==> NoDup(ids)
  {
    if |sent| == 0 then []
    else
      var rest := IdsFor(sent[1..], sessionId);
      if sent[0].0 == sessionId then
        assert sent[0] !in sent[1..] ==> sent[0].1 !in rest;
        assert NoDup(sent) ==> NoDup(sent[1..]) && sent[0] !in sent[1..] by {
          if NoDup(sent) {
            forall i, j | 0 <= i < j < |sent[1..]| ensures sent[1..][i] != sent[1..][j] {
              assert sent[i + 1] != sent[j + 1];
            }
            forall k | 0 <= k < |sent[1..]| ensures sent[1..][k] != sent[0] {
              assert sent[k + 1] != sent[0];
            }
          }
        }
        [sent[0].1] + rest
      else
        assert NoDup(sent) ==> NoDup(sent[1..]) by {
          if NoDup(sent) {
            forall i, j | 0 <= i < j < |sent[1..]| ensures sent[1..][i] != sent[1..][j] {
              assert sent[i + 1] != sent[j + 1];
            }
          }
        }
        rest
  }

  lemma {:induction false} IdsForSnoc(sent: seq<(string, string)>, p: (string, string), sessionId: string)
    ensures IdsFor(sent + [p], sessionId) == IdsFor(sent, sessionId) + (if p.0 == sessionId then [p.1] else [])
  {
    if |sent| > 0 {
      assert (sent + [p])[1..] == sent[1..] + [p];
      IdsForSnoc(sent[1..], p, sessionId);
    }
  }

  /** Recording an id is idempotent. */
  lemma SaveMessageIdIdempotent(sent: seq<(string, string)>, sessionId: string, messageId: string)
    ensures AppendNew(AppendNew(sent, (sessionId, messageId)), (sessionId, messageId)) == AppendNew(sent, (sessionId, messageId))
  {
  }

  /** After recording, the id is among the session's ids; no other session's ids change. */
  lemma SaveThenLoadIds(sent: seq<(string, string)>, sessionId: string, messageId: string, other: string)
    requires other != sessionId
    ensures messageId in IdsFor(AppendNew(sent, (sessionId, messageId)), sessionId)
    ensures IdsFor(AppendNew(sent, (sessionId, messageId)), other) == IdsFor(sent, other)
  {
    if (sessionId, messageId) !in sent {
      IdsForSnoc(sent, (sessionId, messageId), other);
    }
  }

  /** `DELETE FROM sent_messages WHERE session_id = ?`. */
  function DropSession(sent: seq<(string, string)>, sessionId: string): (r: seq<(string, string)>)
    ensures forall p :: p in r <==> p in sent && p.0 != sessionId
    ensures NoDup(sent) ==> NoDup(r)
  {
    if |sent| == 0 then []
    else
      var rest := DropSession(sent[1..], sessionId);
      assert NoDup(sent) ==> NoDup(sent[1..]) && sent[0] !in sent[1..] by {
        if NoDup(sent) {
          forall i, j | 0 <= i < j < |sent[1..]| ensures sent[1..][i] != sent[1..][j] {
            assert sent[i + 1] != sent[j + 1];
          }
          forall k | 0 <= k < |sent[1..]| ensures sent[1..][k] != sent[0] {
            assert sent[k + 1] != sent[0];
          }
        }
      }
      if sent[0].0 == sessionId then rest else [sent[0]] + rest
  }

  /** After a delete the session has no ids left, and other sessions keep theirs. */
  lemma {:induction false} DeleteIds(sent: seq<(string, string)>, sessionId: string, other: string)
    requires other != sessionId
    ensures IdsFor(DropSession(sent, sessionId), sessionId) == []
    ensures IdsFor(DropSession(sent, sessionId), other) == IdsFor(sent, other)
  {
    if |sent| > 0 {
      DeleteIds(sent[1..], sessionId, other);
    }
  }

  // ---------------------------------------------------------------------------
  // Rooms, keyed by room_id, kept in the order they were first saved
  // ---------------------------------------------------------------------------

  predicate Filed(rooms: Dict<RoomSpec.RoomState>)
  {
    forall i | 0 <= i < |rooms| :: rooms[i].1.roomId == rooms[i].0
  }

  lemma PutFiled(rooms: Dict<RoomSpec.RoomState>, st: RoomSpec.RoomState)
    requires Filed(rooms)
    ensures Filed(Put(rooms, st.roomId, st))
  {
    if |rooms| > 0 && rooms[0].0 != st.roomId {
      PutFiled(rooms[1..], st);
    }
  }

  /** The open rooms, in table order. */
  function OpenRooms(rooms: Dict<RoomSpec.RoomState>): (r: seq<RoomSpec.RoomState>)
    ensures forall x :: x in r <==> x in Values(rooms) && x.status == RoomSpec.OPEN
  {
    if |rooms| == 0 then []
    else
      assert Values(rooms) == [rooms[0].1] + Values(rooms[1..]);
      if rooms[0].1.status == RoomSpec.OPEN then [rooms[0].1] + OpenRooms(rooms[1..])
      else OpenRooms(rooms[1..])
  }

  /** One new room object per state, in order. */
  method BuildRooms(states: seq<RoomSpec.RoomState>) returns (rs: seq<Room.AIMPRoom>)
    ensures |rs| == |states|
    ensures forall i | 0 <= i < |rs| :: fresh(rs[i]) && rs[i].State() == states[i]
    ensures forall j, k | 0 <= j < k < |rs| :: rs[j] != rs[k]
  {
    rs := [];
    var i := 0;
    while i < |states|
      invariant 0 <= i <= |states| && |rs| == i
      invariant forall j | 0 <= j < i :: fresh(rs[j]) && rs[j].State() == states[j]
      invariant forall j, k | 0 <= j < k < i :: rs[j] != rs[k]
    {
      var r := new Room.AIMPRoom.FromState(states[i]);
      rs := rs + [r];
      i := i + 1;
    }
  }

  class SessionStore {
    var sessions: Table
    var sentMessages: seq<(string, string)>
    var rooms: Dict<RoomSpec.RoomState>

    /** What every method keeps: stored sessions decode, no pair is recorded twice, rooms are filed under their own id. */
    predicate Valid()
      reads this
    {
      Stored(sessions) && NoDup(sentMessages) && Filed(rooms)
    }

    constructor ()
      ensures Valid()
      ensures sessions == map[] && sentMessages == [] && rooms == []
    {
      sessions := map[];
      sentMessages := [];
      rooms := [];
    }

    method Save(s: Session.AIMPSession, now: int)
      requires Valid()
      modifies this
      ensures Valid()
      ensures sessions == SaveRow(old(sessions), s.State(), now)
      ensures sentMessages == old(sentMessages) && rooms == old(rooms)
    {
      SaveStored(sessions, s.State(), now);
      sessions := sessions[s.sessionId := Row(ToJson(s.State()), s.status, now)];
    }

    /** `load`: a new session object built from the stored JSON, or null for an unknown id. */
    method Load(id: string, now: int) returns (s: Session.AIMPSession?)
      requires Valid()
      ensures s != null ==> fresh(s)
      ensures LoadRow(sessions, id, now) == Ok(if s == null then None else Some(s.State()))
    {
      if id !in sessions {
        return null;
      }
      var st := FromJson(sessions[id].data, now).value;
      s := new Session.AIMPSession.FromState(st);
    }

    /** The query behind `load_active`. */
    method ActiveIds() returns (ids: seq<string>)
      ensures ActiveOrder(sessions, ids)
    {
      ids := [];
      var rest := sessions.Keys;
      while rest != {}
        invariant rest <= sessions.Keys
        invariant InTable(sessions, ids) && NoDup(ids) && ByRecency(sessions, ids)
        invariant forall id :: id in ids <==> id in sessions && id !in rest && sessions[id].status == NEGOTIATING
        decreases |rest|
      {
        var k :| k in rest;
        rest := rest - {k};
        if sessions[k].status == NEGOTIATING {
          ids := InsertByRecency(sessions, ids, k);
        }
      }
    }

    /** `load_active`: one new object per negotiating session, most recently saved first. */
    method LoadActive(now: int) returns (ss: seq<Session.AIMPSession>, ghost ids: seq<string>)
      requires Valid()
      ensures ActiveOrder(sessions, ids) && |ss| == |ids|
      ensures InTable(sessions, ids) && forall i | 0 <= i < |ss| :: fresh(ss[i]) && ss[i].State() == LoadAll(sessions, ids, now)[i]
    {
      var found := ActiveIds();
      ids := found;
      ss := Build(LoadAll(sessions, found, now));
    }

    /** `delete`: the session's row and every message id recorded for it. */
    method Delete(id: string)
      requires Valid()
      modifies this
      ensures Valid()
      ensures sessions == old(sessions) - {id}
      ensures sentMessages == DropSession(old(sentMessages), id)
      ensures rooms == old(rooms)
    {
      sessions := sessions - {id};
      sentMessages := DropSession(sentMessages, id);
    }

    /** `save_message_id`: INSERT OR IGNORE on the (session_id, message_id) key. */
    method SaveMessageId(sessionId: string, messageId: string)
      requires Valid()
      modifies this
      ensures Valid()
      ensures sentMessages == AppendNew(old(sentMessages), (sessionId, messageId))
      ensures sessions == old(sessions) && rooms == old(rooms)
    {
      if (sessionId, messageId) !in sentMessages {
        sentMessages := sentMessages + [(sessionId, messageId)];
      }
    }

    /** `load_message_ids`: the ids recorded for the session, in the order they were recorded. */
    method LoadMessageIds(sessionId: string) returns (ids: seq<string>)
      ensures ids == IdsFor(sentMessages, sessionId)
    {
      ids := [];
      var i := 0;
      while i < |sentMessages|
        invariant 0 <= i <= |sentMessages|
        invariant ids == IdsFor(sentMessages[..i], sessionId)
      {
        IdsForSnoc(sentMessages[..i], sentMessages[i], sessionId);
        assert sentMessages[..i + 1] == sentMessages[..i] + [sentMessages[i]];
        if sentMessages[i].0 == sessionId {
          ids := ids + [sentMessages[i].1];
        }
        i := i + 1;
      }
      assert sentMessages[..i] == sentMessages;
    }

    // -------------------------------------------------------------------------
    // Rooms
    // -------------------------------------------------------------------------

    method SaveRoom(room: Room.AIMPRoom)
      requires Valid()
      modifies this
      ensures Valid()
      ensures rooms == Put(old(rooms), room.roomId, room.State())
      ensures DistinctKeys(old(rooms)) ==> DistinctKeys(rooms)
      ensures sessions == old(sessions) && sentMessages == old(sentMessages)
    {
      PutFiled(rooms, room.State());
      if DistinctKeys(rooms) {
        PutDistinct(rooms, room.roomId, room.State());
      }
      rooms := Put(rooms, room.roomId, room.State());
    }

    method LoadRoom(id: string) returns (room: Room.AIMPRoom?)
      ensures Get(rooms, id).None? ==> room == null
      ensures Get(rooms, id).Some? ==> room != null && fresh(room) && room.State() == Get(rooms, id).value
    {
      var found := Get(rooms, id);
      if found.None? {
        return null;
      }
      room := new Room.AIMPRoom.FromState(found.value);
    }

    /** Every open room, as a new object, in the order the rooms were first saved. */
    method LoadOpenRooms() returns (rs: seq<Room.AIMPRoom>)
      ensures |rs| == |OpenRooms(rooms)|
      ensures forall i | 0 <= i < |rs| :: fresh(rs[i]) && rs[i].State() == OpenRooms(rooms)[i]
      ensures forall j, k | 0 <= j < k < |rs| :: rs[j] != rs[k]
    {
      rs := BuildRooms(OpenRooms(rooms));
    }
  }
}
