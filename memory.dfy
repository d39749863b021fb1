/**
 * Chat-session memory: a per-session message log (`SessionMemoryManager`,
 * buffer memory only) and the registry of sessions keyed by id
 * (`MultiSessionMemoryManager`).
 */
module Memory {
  import opened Text

  /** The `type` of a chat message as the message classes report it. */
  const HUMAN: string := "human"
  const AI: string := "ai"

  /** The roles `get_history` reports. */
  const USER: string := "user"
  const ASSISTANT: string := "assistant"

  /** The defaults of `memory_type` and `max_token_limit` for a new session. */
  const DEFAULT_MEMORY_TYPE: string := "buffer"
  const DEFAULT_TOKEN_LIMIT: int := 2000

  /** A stored chat message: its type and its text. */
  datatype Message = Message(msgType: string, content: string)

  /** One entry of `get_history`: the `role` and `content` keys. */
  datatype Turn = Turn(role: string, content: string)

  /** What `get_stats` reports about a session (its timestamp left out). */
  datatype SessionStats = SessionStats(sessionId: string, memoryType: string, messageCount: nat, maxTokenLimit: int)

  /** The role of a message: "user" for a human message, "assistant" for anything else. */
  function TurnOf(m: Message): (t: Turn)
    ensures t.content == m.content
    ensures t.role == USER <==> m.msgType == HUMAN
    ensures t.role == USER || t.role == ASSISTANT
  {
    Turn(if m.msgType == HUMAN then USER else ASSISTANT, m.content)
  }

  /** `get_history` as a value. */
  function History(messages: seq<Message>): (turns: seq<Turn>)
    ensures |turns| == |messages|
    ensures forall k :: 0 <= k < |messages| ==>
      turns[k].content == messages[k].content && (turns[k].role == USER <==> messages[k].msgType == HUMAN)
  {
    MapSeqPointwise(messages, TurnOf);
    MapSeq(messages, TurnOf)
  }

  /** A context line: the capitalised role, a colon and the text. */
  function ContextLine(t: Turn): string {
    Capitalize(t.role) + ": " + t.content
  }

  /** `get_context` as a value: one line per message, joined by newlines. */
  function Context(messages: seq<Message>): (c: string)
    ensures messages == [] ==> c == []
    ensures messages != [] ==> StartsWith(c, ContextLine(TurnOf(messages[0])))
  {
    MapSeqPointwise(messages, TurnOf);
    MapSeqPointwise(History(messages), ContextLine);
    Join(MapSeq(History(messages), ContextLine), "\n")
  }

  /** A human message renders as a "User: " line, any other as an "Assistant: " line. */
  lemma ContextLineOfMessage(m: Message)
    ensures ContextLine(TurnOf(m)) == (if m.msgType == HUMAN then "User: " else "Assistant: ") + m.content
  {
    if m.msgType == HUMAN {
      CapitalizeWord(USER);
      assert [Upper(USER[0])] + USER[1..] == "User";
    } else {
      CapitalizeWord(ASSISTANT);
      assert [Upper(ASSISTANT[0])] + ASSISTANT[1..] == "Assistant";
    }
  }

  /** The context holds one line per message, in order, each rendering its message. */
  lemma {:induction false} ContextLines(messages: seq<Message>)
    ensures var lines := MapSeq(History(messages), ContextLine);
            && |lines| == |messages|
            && Context(messages) == Join(lines, "\n")
            && forall k :: 0 <= k < |messages| ==>
                 lines[k] == (if messages[k].msgType == HUMAN then "User: " else "Assistant: ") + messages[k].content
  {
    MapSeqPointwise(messages, TurnOf);
    MapSeqPointwise(History(messages), ContextLine);
    forall k | 0 <= k < |messages|
      ensures MapSeq(History(messages), ContextLine)[k]
              == (if messages[k].msgType == HUMAN then "User: " else "Assistant: ") + messages[k].content
    {
      ContextLineOfMessage(messages[k]);
    }
  }

  /** The message log of one chat session. */
  class SessionMemory {
    const sessionId: string
    const memoryType: string
    const maxTokenLimit: int
    var messages: seq<Message>

    constructor(sessionId: string, memoryType: string, maxTokenLimit: int)
      ensures this.sessionId == sessionId && this.memoryType == memoryType
      ensures this.maxTokenLimit == maxTokenLimit
      ensures messages == []
    {
      this.sessionId := sessionId;
      this.memoryType := memoryType;
      this.maxTokenLimit := maxTokenLimit;
      messages := [];
    }

    /** `add_user_message` */
    method AddUserMessage(message: string)
      modifies this
      ensures messages == old(messages) + [Message(HUMAN, message)]
    {
      messages := messages + [Message(HUMAN, message)];
    }

    /** `add_ai_message` */
    method AddAiMessage(message: string)
      modifies this
      ensures messages == old(messages) + [Message(AI, message)]
    {
      messages := messages + [Message(AI, message)];
    }

    /** `add_exchange`: the user's message, then the reply; two more messages. */
    method AddExchange(userMessage: string, aiMessage: string)
      modifies this
      ensures messages == old(messages) + [Message(HUMAN, userMessage), Message(AI, aiMessage)]
      ensures |messages| == |old(messages)| + 2
    {
      AddUserMessage(userMessage);
      AddAiMessage(aiMessage);
    }

    /** `get_history`: one turn per message, same order, the role read off the type. */
    method GetHistory() returns (history: seq<Turn>)
      ensures history == History(messages)
      ensures |history| == |messages|
      ensures forall k :: 0 <= k < |messages| ==>
                history[k].content == messages[k].content
                && (history[k].role == USER <==> messages[k].msgType == HUMAN)
                && (history[k].role == USER || history[k].role == ASSISTANT)
    {
      history := [];
      var i := 0;
      while i < |messages|
        invariant 0 <= i <= |messages|
        invariant history == MapSeq(messages[..i], TurnOf)
      {
        MapSeqStep(messages, i, TurnOf);
        history := history + [TurnOf(messages[i])];
        i := i + 1;
      }
      assert messages[..i] == messages;
      MapSeqPointwise(messages, TurnOf);
    }

    /** `get_context`: "Role: text" per history entry, joined by newlines. */
    method GetContext() returns (context: string)
      ensures context == Context(messages)
    {
      var history := GetHistory();
      var lines: seq<string> := [];
      var i := 0;
      while i < |history|
        invariant 0 <= i <= |history|
        invariant lines == MapSeq(history[..i], ContextLine)
      {
        MapSeqStep(history, i, ContextLine);
        lines := lines + [ContextLine(history[i])];
        i := i + 1;
      }
      assert history[..i] == history;
      context := Join(lines, "\n");
    }

    /** `clear` */
    method Clear()
      modifies this
      ensures messages == []
    {
      messages := [];
    }

    /** `get_message_count` */
    method GetMessageCount() returns (n: nat)
      ensures n == |messages|
    {
      n := |messages|;
    }

    /** `get_stats` */
    method GetStats() returns (stats: SessionStats)
      ensures stats == SessionStats(sessionId, memoryType, |messages|, maxTokenLimit)
    {
      var n := GetMessageCount();
      stats := SessionStats(sessionId, memoryType, n, maxTokenLimit);
    }
  }

  /** No id occurs twice. */
  predicate Distinct(ids: seq<string>) {
    forall i, j :: 0 <= i < j < |ids| ==> ids[i] != ids[j]
  }

  /** `ids` without `x`, the others in their order. */
  function Without(ids: seq<string>, x: string): (r: seq<string>)
    ensures forall y :: y in r <==> y in ids && y != x
    ensures Distinct(ids) ==> Distinct(r)
  {
    if ids == [] then []
    else
      var rest := Without(ids[1..], x);
      assert forall y :: y in ids <==> y == ids[0] || y in ids[1..];
      if ids[0] == x then rest
      else
        assert Distinct(ids) ==> ids[0] !in rest;
        [ids[0]] + rest
  }

  /** A sequence without repeats has as many elements as its set. */
  lemma {:induction false} DistinctCardinality(ids: seq<string>)
    requires Distinct(ids)
    ensures |set y | y in ids| == |ids|
  {
    if ids != [] {
      var rest := ids[1..];
      DistinctCardinality(rest);
      assert (set y | y in ids) == {ids[0]} + (set y | y in rest);
      assert ids[0] !in rest;
    }
  }

  /** The sessions of the application, keyed by session id. */
  class SessionRegistry {
    var sessions: map<string, SessionMemory>
    /** The ids in the order they were created (the dictionary's iteration order). */
    var ids: seq<string>

    ghost predicate Valid()
      reads this
    {
      && (forall id :: id in sessions <==> id in ids)
      && Distinct(ids)
      && (forall id :: id in sessions ==> sessions[id].sessionId == id)
    }

    constructor()
      ensures Valid()
      ensures sessions == map[] && ids == []
    {
      sessions := map[];
      ids := [];
    }

    /** `get_or_create_session`: creates on a miss; a hit returns the stored session as it is. */
    method GetOrCreate(sessionId: string, memoryType: string, maxTokenLimit: int) returns (session: SessionMemory)
      requires Valid()
      modifies this
      ensures Valid()
      ensures session.sessionId == sessionId && sessionId in sessions && sessions[sessionId] == session
      ensures sessionId in old(sessions) ==> session == old(sessions[sessionId])
      ensures sessionId in old(sessions) ==> sessions == old(sessions) && ids == old(ids)
      ensures sessionId !in old(sessions) ==>
                fresh(session) && session.messages == []
                && session.memoryType == memoryType && session.maxTokenLimit == maxTokenLimit
                && sessions == old(sessions)[sessionId := session] && ids == old(ids) + [sessionId]
    {
      if sessionId !in sessions {
        var created := new SessionMemory(sessionId, memoryType, maxTokenLimit);
        sessions := sessions[sessionId := created];
        ids := ids + [sessionId];
      }
      session := sessions[sessionId];
    }

    /** `get_session`: the stored session, or `None` without creating one. */
    method GetSession(sessionId: string) returns (session: Option<SessionMemory>)
      ensures session.Some? <==> sessionId in sessions
      ensures session.Some? ==> session.value == sessions[sessionId]
    {
      if sessionId in sessions {
        session := Some(sessions[sessionId]);
      } else {
        session := None;
      }
    }

    /** `delete_session`: true exactly when the id was present; only that id goes. */
    method Delete(sessionId: string) returns (deleted: bool)
      requires Valid()
      modifies this
      ensures Valid()
      ensures deleted == (sessionId in old(sessions))
      ensures sessions == old(sessions) - {sessionId}
      ensures ids == Without(old(ids), sessionId)
    {
      if sessionId in sessions {
        sessions := sessions - {sessionId};
        ids := Without(ids, sessionId);
        return true;
      }
      assert Without(ids, sessionId) == ids by {
        WithoutAbsent(ids, sessionId);
      }
      deleted := false;
    }

    /** `clear_all_sessions` */
    method ClearAll()
      modifies this
      ensures Valid()
      ensures sessions == map[] && ids == []
    {
      sessions := map[];
      ids := [];
    }

    /** `get_active_session_count`: the number of stored sessions, one per id. */
    method Count() returns (n: nat)
      requires Valid()
      ensures n == |sessions|
      ensures n == |ids|
    {
      n := |sessions|;
      DistinctCardinality(ids);
      assert sessions.Keys == set y | y in ids;
    }

    /** `get_all_stats`: the stats of every session, in creation order. */
    method GetAllStats() returns (stats: seq<SessionStats>)
      requires Valid()
      ensures |stats| == |ids|
      ensures forall k :: 0 <= k < |ids| ==>
                stats[k] == SessionStats(ids[k], sessions[ids[k]].memoryType,
                                         |sessions[ids[k]].messages|, sessions[ids[k]].maxTokenLimit)
    {
      stats := [];
      var i := 0;
      while i < |ids|
        invariant 0 <= i <= |ids|
        invariant |stats| == i
        invariant forall k :: 0 <= k < i ==>
                    stats[k] == SessionStats(ids[k], sessions[ids[k]].memoryType,
                                             |sessions[ids[k]].messages|, sessions[ids[k]].maxTokenLimit)
      {
        var s := sessions[ids[i]].GetStats();
        stats := stats + [s];
        i := i + 1;
      }
    }
  }

  /** Removing an id that is absent changes nothing. */
  lemma {:induction false} WithoutAbsent(ids: seq<string>, x: string)
    requires x !in ids
    ensures Without(ids, x) == ids
  {
    if ids != [] {
      WithoutAbsent(ids[1..], x);
      assert ids == [ids[0]] + ids[1..];
    }
  }
}
