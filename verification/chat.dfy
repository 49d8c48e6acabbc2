/**
 * The chat service of the backend: session lookup guarded by the UUID
 * check, the message log, and `process_user_query`, which resolves or
 * creates a session, records the user's message, builds the retrieval
 * prompt, asks the model and records its answer.
 *
 * The embedding and vector search and the model call are parameters: the
 * search is its list of results, or `None` when it raised; the model is a
 * function from the prompt to its answer, `None` when it raised. Session
 * ids a new session receives are a parameter too.
 */
module Chat {
  import opened Wrappers
  import Text
  import PyUuid

  const RelevanceThreshold: real := 0.1
  const MaxPromptLength := 2000
  const QuestionLabel := "\n\nQuestion: "
  const AnswerLabel := "\n\nAnswer:"
  const BareQuestionLabel := "Question: "
  const SelectedPrefix := "User has selected the following text: '"
  const SelectedSuffix := "'. Answer the question based ONLY on this selected text and the following context: "
  const GeneralPrefix := "Use the following context to answer the question: "
  const ContextSeparator := ". "
  const Unknown := "Unknown"

  datatype Role = UserRole | AssistantRole

  /** A row of the `messages` table; `contextUsed` holds the selected text
      sent with a user message. */
  datatype Message = Message(sessionId: string, role: Role, content: string, contextUsed: Option<string>)

  /** The `chat_sessions` ids and the `messages` rows in insertion order. */
  datatype ChatStore = ChatStore(sessions: set<string>, messages: seq<Message>)

  /** One hit of the vector search: its score, its text and the `title` and
      `source_path` entries of its metadata, when present. */
  datatype SearchResult = SearchResult(score: real, text: string, title: Option<string>, sourcePath: Option<string>)

  datatype Source = Source(title: string, path: string, relevance: real)

  // ---------------------------------------------------------------------
  // Sessions and messages

  /** `get_session`: `None` for an id Python's UUID check refuses, without
      consulting the store; otherwise the session with that id, if any. */
  function GetSession(store: ChatStore, sessionId: string): (r: Option<string>)
    ensures r.Some? <==> PyUuid.IsUuid(sessionId) && sessionId in store.sessions
    ensures r.Some? ==> r.value == sessionId
  {
    if !PyUuid.IsUuid(sessionId) then None
    else if sessionId in store.sessions then Some(sessionId)
    else None
  }

  /** A session id the UUID check refuses finds nothing, whatever the store
      holds. */
  lemma MalformedIdNeverFound(store: ChatStore, sessionId: string)
    requires !PyUuid.IsUuid(sessionId)
    ensures GetSession(store, sessionId).None?
  {
  }

  /** `create_session` with the id the database generates. */
  function CreateSession(store: ChatStore, freshId: string): (r: ChatStore)
    requires freshId !in store.sessions
    ensures r.sessions == store.sessions + {freshId} && freshId !in store.sessions
    ensures r.messages == store.messages
  {
    store.(sessions := store.sessions + {freshId})
  }

  /** `add_message`: the row goes to the end of the log. */
  function AddMessage(store: ChatStore, m: Message): (r: ChatStore)
    ensures r.sessions == store.sessions
    ensures |r.messages| == |store.messages| + 1 && r.messages[..|store.messages|] == store.messages
    ensures r.messages[|store.messages|] == m
  {
    store.(messages := store.messages + [m])
  }

  /** `get_session_messages`: the messages of one session, oldest first. */
  function SessionMessages(messages: seq<Message>, sessionId: string): (r: seq<Message>)
    ensures forall m :: m in r <==> m in messages && m.sessionId == sessionId
    ensures |r| <= |messages|
  {
    if messages == [] then []
    else
      var rest := SessionMessages(messages[..|messages| - 1], sessionId);
      var last := messages[|messages| - 1];
      if last.sessionId == sessionId then rest + [last] else rest
  }

  lemma {:induction false} SessionMessagesAppend(messages: seq<Message>, extra: seq<Message>, sessionId: string)
    ensures SessionMessages(messages + extra, sessionId) ==
            SessionMessages(messages, sessionId) + SessionMessages(extra, sessionId)
    decreases |extra|
  {
    if extra == [] {
      assert messages + extra == messages;
    } else {
      var init := extra[..|extra| - 1];
      assert (messages + extra)[..|messages + extra| - 1] == messages + init;
      SessionMessagesAppend(messages, init, sessionId);
    }
  }

  // ---------------------------------------------------------------------
  // Retrieval and prompt

  /** The search found nothing relevant: every result scores below 0.1
      (so also when it found nothing at all). */
  predicate NoRelevantContent(results: seq<SearchResult>) {
    forall i :: 0 <= i < |results| ==> results[i].score < RelevanceThreshold
  }

  /** The source entry reported for one result. */
  function SourceOf(r: SearchResult): Source {
    Source(r.title.GetOr(Unknown), r.sourcePath.GetOr(Unknown), r.score)
  }

  /** The context texts and the reported sources: none when nothing is
      relevant, otherwise one per result in search order, low-scoring ones
      included. */
  function Retrieve(results: seq<SearchResult>): (r: (seq<string>, seq<Source>))
    ensures NoRelevantContent(results) ==> r == ([], [])
    ensures !NoRelevantContent(results) ==>
      && |r.0| == |results| && |r.1| == |results|
      && forall i :: 0 <= i < |results| ==> r.0[i] == results[i].text && r.1[i] == SourceOf(results[i])
  {
    if NoRelevantContent(results) then ([], [])
    else (seq(|results|, i requires 0 <= i < |results| => results[i].text),
          seq(|results|, i requires 0 <= i < |results| => SourceOf(results[i])))
  }

  /** Sources are reported exactly when at least one result reaches the
      threshold; then every result is a source, whatever its own score. */
  lemma SourcesIffRelevant(results: seq<SearchResult>)
    ensures Retrieve(results).1 == [] <==> NoRelevantContent(results)
    ensures forall i :: 0 <= i < |results| && results[i].score >= RelevanceThreshold ==>
              SourceOf(results[i]) in Retrieve(results).1
  {
    if !NoRelevantContent(results) {
      var i :| 0 <= i < |results| && results[i].score >= RelevanceThreshold;
      assert Retrieve(results).1[i] == SourceOf(results[i]);
    }
  }

  /** The context the prompt starts with: built from the selected text, if
      non-empty, and the joined context texts. The "no relevant content"
      sentence the source prepares first is always overwritten here. */
  function Context(selected: Option<string>, texts: seq<string>): (c: string)
    ensures Text.Truthy(selected) ==> Text.StartsWith(c, SelectedPrefix + selected.value + SelectedSuffix)
    ensures Text.Truthy(selected) ==>
              c[|SelectedPrefix + selected.value + SelectedSuffix|..] == Text.Join(ContextSeparator, texts)
    ensures !Text.Truthy(selected) ==> Text.StartsWith(c, GeneralPrefix)
    ensures !Text.Truthy(selected) ==> c[|GeneralPrefix|..] == Text.Join(ContextSeparator, texts)
    ensures texts == [] && !Text.Truthy(selected) ==> c == GeneralPrefix
  {
    var joined := Text.Join(ContextSeparator, texts);
    if Text.Truthy(selected) then SelectedPrefix + selected.value + SelectedSuffix + joined
    else GeneralPrefix + joined
  }

  /** The prompt for `context` and `message`, truncated as the source does:
      kept whole up to 2000 characters; otherwise the context is cut so the
      prompt is exactly 2000 characters, when the question leaves room for
      it; otherwise the context is dropped and the question cut to 2000
      characters, so the prompt may reach 2019 characters. The answer cue
      always ends it. */
  function Prompt(context: string, message: string): (p: string)
    ensures |context + QuestionLabel + message + AnswerLabel| <= MaxPromptLength ==>
              p == context + QuestionLabel + message + AnswerLabel
    ensures |context + QuestionLabel + message + AnswerLabel| > MaxPromptLength &&
            |message| + |QuestionLabel| + |AnswerLabel| < MaxPromptLength ==>
              |p| == MaxPromptLength &&
              exists k :: 0 <= k <= |context| && p == context[..k] + QuestionLabel + message + AnswerLabel
    ensures |context + QuestionLabel + message + AnswerLabel| > MaxPromptLength &&
            |message| + |QuestionLabel| + |AnswerLabel| >= MaxPromptLength ==>
              p == BareQuestionLabel + message[..Text.Min(MaxPromptLength, |message|)] + AnswerLabel
    ensures |p| <= MaxPromptLength + |BareQuestionLabel| + |AnswerLabel|
    ensures |p| >= |AnswerLabel| && p[|p| - |AnswerLabel|..] == AnswerLabel
  {
    var full := context + QuestionLabel + message + AnswerLabel;
    if |full| <= MaxPromptLength then full
    else
      var available := MaxPromptLength - |message| - |QuestionLabel + AnswerLabel|;
      if available > 0 then
        var cut := context[..Text.Min(available, |context|)];
        cut + QuestionLabel + message + AnswerLabel
      else BareQuestionLabel + message[..Text.Min(MaxPromptLength, |message|)] + AnswerLabel
  }

  /** A question of up to 1978 characters is always sent whole, right
      before the answer cue, and the prompt stays within 2000 characters. */
  lemma ShortQuestionKept(context: string, message: string)
    requires |message| + |QuestionLabel| + |AnswerLabel| < MaxPromptLength
    ensures var p := Prompt(context, message);
      && |p| <= MaxPromptLength
      && exists k :: 0 <= k <= |context| && p == context[..k] + QuestionLabel + message + AnswerLabel
  {
    var full := context + QuestionLabel + message + AnswerLabel;
    if |full| <= MaxPromptLength {
      assert context[..|context|] == context;
    }
  }

  /** The truncation does not keep its 2000-character limit: a question of
      2000 characters yields a prompt of 2019. */
  lemma LongQuestionExceedsLimit(context: string)
    ensures |Prompt(context, seq(2000, _ => 'a'))| == 2019
  {
    var message := seq(2000, _ => 'a');
    assert |context + QuestionLabel + message + AnswerLabel| > MaxPromptLength;
  }

  /** The whole prompt `generate_response` sends for a query. */
  function PromptFor(message: string, selected: Option<string>, results: seq<SearchResult>): (p: string)
    ensures |p| >= |AnswerLabel| && p[|p| - |AnswerLabel|..] == AnswerLabel
    ensures |message| + |QuestionLabel| + |AnswerLabel| < MaxPromptLength ==>
              |p| <= MaxPromptLength &&
              exists k :: 0 <= k <= |Context(selected, Retrieve(results).0)| &&
                p == Context(selected, Retrieve(results).0)[..k] + QuestionLabel + message + AnswerLabel
  {
    var c := Context(selected, Retrieve(results).0);
    if |message| + |QuestionLabel| + |AnswerLabel| < MaxPromptLength then
      ShortQuestionKept(c, message);
      Prompt(c, message)
    else Prompt(c, message)
  }

  /** The prompt depends on the results only through whether one is
      relevant and their texts: scores above the threshold, titles and
      paths do not reach the model. */
  lemma PromptIgnoresMetadata(message: string, selected: Option<string>, a: seq<SearchResult>, b: seq<SearchResult>)
    requires NoRelevantContent(a) == NoRelevantContent(b)
    requires |a| == |b| && forall i :: 0 <= i < |a| ==> a[i].text == b[i].text
    ensures PromptFor(message, selected, a) == PromptFor(message, selected, b)
  {
    assert Retrieve(a).0 == Retrieve(b).0;
  }

  /** `generate_response`: the model's answer to the prompt and the sources,
      or `None` when the search or the model raised. */
  function GenerateResponse(message: string, selected: Option<string>, search: Option<seq<SearchResult>>,
                            model: string -> Option<string>): (r: Option<(string, seq<Source>)>)
    ensures r.Some? <==> search.Some? && model(PromptFor(message, selected, search.value)).Some?
    ensures r.Some? ==> && r.value.0 == model(PromptFor(message, selected, search.value)).value
                        && r.value.1 == Retrieve(search.value).1
  {
    match search
    case None => None
    case Some(results) =>
      match model(PromptFor(message, selected, results))
      case None => None
      case Some(answer) => Some((answer, Retrieve(results).1))
  }

  // ---------------------------------------------------------------------
  // process_user_query

  /** The session a query goes to: the given one when it is a non-empty
      id the UUID check accepts and that exists; otherwise a new session
      with id `freshId`. */
  function ResolveSession(store: ChatStore, sessionId: Option<string>, freshId: string): (r: (string, ChatStore))
    requires freshId !in store.sessions
    ensures r.1.messages == store.messages && r.1.sessions == store.sessions + {r.0}
    ensures r.0 != freshId <==> Text.Truthy(sessionId) && GetSession(store, sessionId.value).Some?
    ensures r.0 != freshId ==> r.0 == sessionId.value && r.1 == store
  {
    if Text.Truthy(sessionId) && PyUuid.IsUuid(sessionId.value) then
      match GetSession(store, sessionId.value)
      case Some(id) => (id, store)
      case None => (freshId, CreateSession(store, freshId))
    else (freshId, CreateSession(store, freshId))
  }

  /** What the caller gets back: the answer, its sources and the session id,
      or the exception of `generate_response`. */
  datatype Outcome = Answered(response: string, sources: seq<Source>, sessionId: string) | Raised

  /** `process_user_query`. The user's message is recorded before the
      response is generated and stays recorded when generation raises; the
      answer is recorded after it, in the same session, without context. */
  function ProcessUserQuery(store: ChatStore, message: string, sessionId: Option<string>, selected: Option<string>,
                            freshId: string, search: Option<seq<SearchResult>>, model: string -> Option<string>)
    : (r: (Outcome, ChatStore))
    requires freshId !in store.sessions
    ensures var (sid, resolved) := ResolveSession(store, sessionId, freshId);
      var asked := Message(sid, UserRole, message, selected);
      && r.1.sessions == resolved.sessions
      && (r.0.Raised? <==> GenerateResponse(message, selected, search, model).None?)
      && (r.0.Raised? ==> r.1.messages == store.messages + [asked])
      && (r.0.Answered? ==>
            && r.0.sessionId == sid
            && r.1.messages == store.messages + [asked, Message(sid, AssistantRole, r.0.response, None)]
            && (r.0.response, r.0.sources) == GenerateResponse(message, selected, search, model).value)
  {
    var (sid, resolved) := ResolveSession(store, sessionId, freshId);
    var asked := AddMessage(resolved, Message(sid, UserRole, message, selected));
    match GenerateResponse(message, selected, search, model)
    case None => (Raised, asked)
    case Some((answer, sources)) =>
      (Answered(answer, sources, sid), AddMessage(asked, Message(sid, AssistantRole, answer, None)))
  }

  /** A query without a session, when answered, opens session `freshId`
      and adds the question and the answer to its history. */
  lemma FirstQueryOpensSession(store: ChatStore, message: string, selected: Option<string>, freshId: string,
                               search: Option<seq<SearchResult>>, model: string -> Option<string>)
    requires freshId !in store.sessions
    requires ProcessUserQuery(store, message, None, selected, freshId, search, model).0.Answered?
    ensures var (o, s) := ProcessUserQuery(store, message, None, selected, freshId, search, model);
      && o.sessionId == freshId && s.sessions == store.sessions + {freshId}
      && SessionMessages(s.messages, freshId) ==
           SessionMessages(store.messages, freshId) +
           [Message(freshId, UserRole, message, selected), Message(freshId, AssistantRole, o.response, None)]
  {
    var (o, s) := ProcessUserQuery(store, message, None, selected, freshId, search, model);
    var q, a := Message(freshId, UserRole, message, selected), Message(freshId, AssistantRole, o.response, None);
    assert s.messages == store.messages + [q, a];
    SessionMessagesAppend(store.messages, [q, a], freshId);
    BothInSession(q, a, freshId);
  }

  lemma BothInSession(q: Message, a: Message, sessionId: string)
    requires q.sessionId == sessionId && a.sessionId == sessionId
    ensures SessionMessages([q, a], sessionId) == [q, a]
  {
    assert [q, a][..1] == [q];
    assert [q][..0] == [];
  }

  /** A follow-up quoting a session id in canonical UUID form that exists,
      as returned by an earlier query, stays in that session, opens no
      session, and only extends that session's history. */
  lemma FollowUpStaysInSession(store: ChatStore, message: string, sessionId: string, selected: Option<string>,
                               freshId: string, search: Option<seq<SearchResult>>, model: string -> Option<string>)
    requires freshId !in store.sessions
    requires PyUuid.IsCanonical(sessionId) && sessionId in store.sessions
    ensures var (o, s) := ProcessUserQuery(store, message, Some(sessionId), selected, freshId, search, model);
      && s.sessions == store.sessions
      && (o.Answered? ==> o.sessionId == sessionId)
      && SessionMessages(store.messages, sessionId) < SessionMessages(s.messages, sessionId)
  {
    PyUuid.CanonicalIsUuid(sessionId);
    assert ResolveSession(store, Some(sessionId), freshId) == (sessionId, store);
    var (o, s) := ProcessUserQuery(store, message, Some(sessionId), selected, freshId, search, model);
    var added := s.messages[|store.messages|..];
    assert s.messages == store.messages + added;
    SessionMessagesAppend(store.messages, added, sessionId);
    assert added[0] == Message(sessionId, UserRole, message, selected);
    assert added[0] in SessionMessages(added, sessionId);
  }

  /** A session id the UUID check refuses, such as a client-made
      `session-…` label, never resumes a session: the query opens a new one
      even when a session of that exact name exists. */
  lemma MalformedIdOpensSession(store: ChatStore, message: string, sessionId: string, selected: Option<string>,
                                freshId: string, search: Option<seq<SearchResult>>, model: string -> Option<string>)
    requires freshId !in store.sessions && !PyUuid.IsUuid(sessionId)
    ensures var (o, s) := ProcessUserQuery(store, message, Some(sessionId), selected, freshId, search, model);
      && s.sessions == store.sessions + {freshId}
      && (o.Answered? ==> o.sessionId == freshId)
  {
  }
}
