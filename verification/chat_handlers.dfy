/**
 * The chat endpoints. The AI service is a parameter: `Some` is its answer,
 * `None` stands for the call throwing. Saving either side of the
 * conversation is best effort: a failed save is swallowed and changes
 * neither the store nor the reply.
 */
module ChatHandlers {
  import opened Outcomes
  import opened Ordering
  import opened Schema
  import opened Storage
  import opened Chatbot
  import opened Http

  // ---------------------------------------------------------------------
  // POST /api/chatbot/message
  // ---------------------------------------------------------------------

  /** The reply the endpoint sends: the AI's answer, or the canned reply
      for the message stamped with the time of the request. */
  function ChatReply(message: string, ai: Option<AiResponse>, now: Timestamp): (b: Body)
    ensures ai.Some? ==> b == AiReply(ai.value)
    ensures ai.None? ==> b == CannedReply(FallbackReply(message), now)
    ensures ai.None? ==> b.text in ChatbotResponses.Values
  {
    if ai.Some? then AiReply(ai.value) else CannedReply(FallbackReply(message), now)
  }

  /** A save whose failure the handler swallows: the store after the call. */
  function SaveQuietly(env: Env, i: nat, db: Db, row: ChatMessage): (after: Db)
    ensures after == db || after == db.(chats := db.chats + [row])
    ensures after.chats == db.chats + [row] <==>
              db.available && i !in env.faults && !(exists m :: m in db.chats && m.id == row.id)
  {
    AttemptWrite(env, i, db, CreateChatMessage(db, row)).db
  }

  /** The corrected handler, with `message` read before the `try` so the
      fallback can use it. `userRowId` and `replyRowId` are the ids the
      database assigns to the two saved rows. The clock is read three
      times: `askedAt` stamps the user's row, `answeredAt` the AI's row,
      which is saved after the AI call returns, and `now` the canned reply. */
  function ChatbotMessage(env: Env, message: string, sessionId: string, ai: Option<AiResponse>,
                          userRowId: Id, replyRowId: Id,
                          askedAt: Timestamp, answeredAt: Timestamp, now: Timestamp): (h: Handled)
    ensures h.response == Response(200, ChatReply(message, ai, now))
    ensures h.events == []
    ensures h.db == env.db.(chats := h.db.chats)
    ensures |env.db.chats| <= |h.db.chats| <= |env.db.chats| + 2
    ensures h.db.chats[..|env.db.chats|] == env.db.chats
    ensures ai.None? ==> |h.db.chats| <= |env.db.chats| + 1
  {
    var user := ChatMessage(userRowId, sessionId, message, true, askedAt);
    var db1 := SaveQuietly(env, 0, env.db, user);
    if ai.None? then
      Handled(db1, Response(200, CannedReply(FallbackReply(message), now)), [])
    else
      var db2 := SaveQuietly(env, 1, db1, ChatMessage(replyRowId, sessionId, ai.value.message, false, answeredAt));
      Handled(db2, Response(200, AiReply(ai.value)), [])
  }

  /** The reply depends only on the message, the AI's answer and the time:
      neither the store nor any storage failure changes it. */
  lemma ReplyIgnoresStorage(env1: Env, env2: Env, message: string, sessionId: string, ai: Option<AiResponse>,
                            userRowId: Id, replyRowId: Id, askedAt: Timestamp, answeredAt: Timestamp, now: Timestamp)
    ensures ChatbotMessage(env1, message, sessionId, ai, userRowId, replyRowId, askedAt, answeredAt, now).response ==
            ChatbotMessage(env2, message, sessionId, ai, userRowId, replyRowId, askedAt, answeredAt, now).response
  {
  }

  /** With storage serving and fresh ids, both sides of the exchange are
      appended in order: the user's message, then the AI's answer. */
  lemma ExchangeIsSaved(env: Env, message: string, sessionId: string, reply: AiResponse,
                        userRowId: Id, replyRowId: Id, askedAt: Timestamp, answeredAt: Timestamp, now: Timestamp)
    requires Serves(env, 2)
    requires userRowId != replyRowId
    requires forall i :: 0 <= i < |env.db.chats| ==> env.db.chats[i].id != userRowId && env.db.chats[i].id != replyRowId
    ensures ChatbotMessage(env, message, sessionId, Some(reply), userRowId, replyRowId, askedAt, answeredAt, now).db.chats ==
            env.db.chats + [ChatMessage(userRowId, sessionId, message, true, askedAt),
                            ChatMessage(replyRowId, sessionId, reply.message, false, answeredAt)]
  {
    ServedCalls(env);
    var user := ChatMessage(userRowId, sessionId, message, true, askedAt);
    var answer := ChatMessage(replyRowId, sessionId, reply.message, false, answeredAt);
    var db1 := env.db.(chats := env.db.chats + [user]);
    forall m | m in env.db.chats ensures m.id != userRowId && m.id != replyRowId {
      var k :| 0 <= k < |env.db.chats| && env.db.chats[k] == m;
    }
    assert SaveQuietly(env, 0, env.db, user) == db1;
    forall m | m in db1.chats ensures m.id != replyRowId {
      if m != user {
        assert m in env.db.chats;
      }
    }
    assert SaveQuietly(env, 1, db1, answer).chats == db1.chats + [answer];
  }

  /** When the clock has moved on between the two saves, the session's
      history lists the user's message before the AI's answer. With equal
      readings the two rows tie on the ORDER BY key and either order is a
      correct result. */
  lemma ExchangeIsListedInOrder(env: Env, message: string, sessionId: string, reply: AiResponse,
                                userRowId: Id, replyRowId: Id, askedAt: Timestamp, answeredAt: Timestamp, now: Timestamp)
    requires Serves(env, 2)
    requires userRowId != replyRowId
    requires forall i :: 0 <= i < |env.db.chats| ==> env.db.chats[i].id != userRowId && env.db.chats[i].id != replyRowId
    requires askedAt < answeredAt
    ensures var db := ChatbotMessage(env, message, sessionId, Some(reply), userRowId, replyRowId, askedAt, answeredAt, now).db;
            var history := GetChatMessages(db, sessionId).value;
            var user := ChatMessage(userRowId, sessionId, message, true, askedAt);
            var answer := ChatMessage(replyRowId, sessionId, reply.message, false, answeredAt);
            && user in history && answer in history
            && forall i, j :: 0 <= i < |history| && 0 <= j < |history| && history[i] == user && history[j] == answer ==> i < j
  {
    ExchangeIsSaved(env, message, sessionId, reply, userRowId, replyRowId, askedAt, answeredAt, now);
    var db := ChatbotMessage(env, message, sessionId, Some(reply), userRowId, replyRowId, askedAt, answeredAt, now).db;
    var history := GetChatMessages(db, sessionId).value;
    var user := ChatMessage(userRowId, sessionId, message, true, askedAt);
    var answer := ChatMessage(replyRowId, sessionId, reply.message, false, answeredAt);
    assert db.chats[|env.db.chats|] == user && db.chats[|env.db.chats| + 1] == answer;
    SelectedInOrder(history, db.chats, InSession(sessionId), ByTimestamp, user, answer);
  }

  /** The handler as written: `message` is declared inside the `try`
      block, so when the AI call throws, the `catch` block's reference to
      it throws a ReferenceError and no reply is ever sent. The user's
      message may already have been saved. */
  function ChatbotMessageAsWritten(env: Env, message: string, sessionId: string, ai: Option<AiResponse>,
                                   userRowId: Id, replyRowId: Id,
                                   askedAt: Timestamp, answeredAt: Timestamp, now: Timestamp): (o: Outcome)
    ensures ai.Some? ==>
              o == Responded(ChatbotMessage(env, message, sessionId, ai, userRowId, replyRowId, askedAt, answeredAt, now))
    ensures ai.None? ==>
              o.Threw? && o.db == ChatbotMessage(env, message, sessionId, ai, userRowId, replyRowId, askedAt, answeredAt, now).db
  {
    var user := ChatMessage(userRowId, sessionId, message, true, askedAt);
    var db1 := SaveQuietly(env, 0, env.db, user);
    if ai.None? then Threw(db1, "ReferenceError: message is not defined")
    else
      var db2 := SaveQuietly(env, 1, db1, ChatMessage(replyRowId, sessionId, ai.value.message, false, answeredAt));
      Responded(Handled(db2, Response(200, AiReply(ai.value)), []))
  }

  /** Whenever the AI service fails, the handler as written sends nothing,
      while the corrected one sends the canned reply for the message. */
  lemma CannedReplyNeverSent(env: Env, message: string, sessionId: string, userRowId: Id, replyRowId: Id,
                             askedAt: Timestamp, answeredAt: Timestamp, now: Timestamp)
    ensures ChatbotMessageAsWritten(env, message, sessionId, None, userRowId, replyRowId, askedAt, answeredAt, now).Threw?
    ensures ChatbotMessage(env, message, sessionId, None, userRowId, replyRowId, askedAt, answeredAt, now).response ==
              Response(200, CannedReply(FallbackReply(message), now))
  {
  }

  // ---------------------------------------------------------------------
  // GET /api/chatbot/messages/:sessionId
  // ---------------------------------------------------------------------

  /** The session's messages in time order, or an empty history when
      storage fails. */
  function ChatMessagesHandler(env: Env, sessionId: string): (h: Handled)
    ensures ReadPolicy(env, h)
    ensures h.response.body.ChatHistory?
    ensures !Serves(env, 1) ==> h.response.body.messages == []
    ensures Serves(env, 1) ==> Selected(h.response.body.messages, env.db.chats, InSession(sessionId), ByTimestamp)
  {
    ServedCalls(env);
    var r := Attempt(env, 0, GetChatMessages(env.db, sessionId));
    var body := if r.Success? then ChatHistory(r.value) else ChatHistory([]);
    Handled(env.db, Response(200, body), [])
  }

  // ---------------------------------------------------------------------
  // POST /api/chatbot/analyze-symptoms
  // ---------------------------------------------------------------------

  const FallbackAnalysis: SymptomAnalysis := SymptomAnalysis(
    "Please consult with a healthcare professional for accurate diagnosis",
    ["Rest well", "Stay hydrated", "Monitor symptoms"],
    "non_urgent")

  /** The AI's analysis, or the fixed advice when the service fails.
      Storage is not involved. */
  function AnalyzeSymptoms(env: Env, analysis: Option<SymptomAnalysis>): (h: Handled)
    ensures ReadPolicy(env, h)
    ensures analysis.Some? ==> h.response.body == Analysis(analysis.value)
    ensures analysis.None? ==> h.response.body == Analysis(FallbackAnalysis)
  {
    var result := if analysis.Some? then analysis.value else FallbackAnalysis;
    Handled(env.db, Response(200, Analysis(result)), [])
  }
}
