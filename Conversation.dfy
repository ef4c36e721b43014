/**
 * The conversation log and the assembly of a chat request (src/App.js):
 * the window of recent turns, the optional system prompt, the model the
 * request names, and the log entry a reply or a failure becomes.
 */
module Conversation {

  import opened Options
  import opened Text

  datatype Provider = Gemini | Custom

  /** `error` entries are shown in the log but never sent to a model. */
  datatype Role = User | Assistant | ErrorRole

  /** Usage reported by the server with a reply; `model` is the model that actually answered. */
  datatype Stats = Stats(model: string, promptTokens: int, responseTokens: int, totalTokens: int)

  /** A grounding document cited by a reply; the similarity fraction is kept as received. */
  datatype Source = Source(document: string, similarity: Option<real>)

  /** A log entry (its timestamp, a clock reading, is not modelled). */
  datatype Message = Message(role: Role, content: string, stats: Option<Stats>, sources: Option<seq<Source>>)

  /** A message as sent to the server: role and content only. */
  datatype Turn = Turn(role: Role, content: string)

  datatype ChatRequest = ChatRequest(
    provider: Provider,
    model: string,
    messages: seq<Turn>,
    systemPrompt: Option<string>,
    useRag: bool)

  /** A successful response body. */
  datatype Reply = Reply(content: string, stats: Option<Stats>, sources: Option<seq<Source>>)

  /** How a chat request ends: a reply, a non-2xx status with its body text, or a thrown error. */
  datatype ChatOutcome =
    | Replied(reply: Reply)
    | HttpFailed(status: nat, body: string)
    | Failed(message: string)

  /** How many log entries a request may carry at most. */
  const WindowSize: nat := 10

  /** The entry a send appends: the user's text, untrimmed, with no statistics or sources. */
  function UserMessage(text: string): (m: Message)
    ensures m.role == User && m.content == text
    ensures m.stats.None? && m.sources.None?
  {
    Message(User, text, None, None)
  }

  /** `log.slice(-10)`: the last ten entries, or the whole log when shorter. */
  function Recent(log: seq<Message>): (r: seq<Message>)
    ensures |r| == if |log| <= WindowSize then |log| else WindowSize
    ensures r == log[|log| - |r|..]
  {
    if |log| <= WindowSize then log else log[|log| - WindowSize..]
  }

  /** `filter(msg => msg.role !== 'error')`. */
  function DropErrors(s: seq<Message>): (r: seq<Message>)
    ensures |r| <= |s|
    ensures forall i :: 0 <= i < |r| ==> r[i].role != ErrorRole
  {
    DropErrorsFrom(s, 0)
  }

  /** The non-error entries of `s[k..]`, in order (walks by index rather than by slicing). */
  function DropErrorsFrom(s: seq<Message>, k: nat): (r: seq<Message>)
    requires k <= |s|
    ensures |r| <= |s| - k
    ensures forall i :: 0 <= i < |r| ==> r[i].role != ErrorRole
    decreases |s| - k
  {
    if k == |s| then []
    else if s[k].role == ErrorRole then DropErrorsFrom(s, k + 1)
    else [s[k]] + DropErrorsFrom(s, k + 1)
  }

  /** `map(msg => ({role, content}))`. */
  function Turns(s: seq<Message>): (r: seq<Turn>)
    ensures |r| == |s|
    ensures forall i :: 0 <= i < |s| ==> r[i] == Turn(s[i].role, s[i].content)
  {
    seq(|s|, i requires 0 <= i < |s| => Turn(s[i].role, s[i].content))
  }

  /**
   * The message list of a request: the non-error entries among the last ten of
   * the log, as role and content, then the new user text (untrimmed) last.
   */
  function Window(log: seq<Message>, text: string): (w: seq<Turn>)
    ensures 1 <= |w| <= WindowSize + 1
    ensures w[|w| - 1] == Turn(User, text)
    ensures forall i :: 0 <= i < |w| ==> w[i].role != ErrorRole
  {
    Turns(DropErrors(Recent(log))) + [Turn(User, text)]
  }

  /** `a` can be obtained from `b` by deleting entries, keeping the order of the rest. */
  ghost predicate Subsequence<T>(a: seq<T>, b: seq<T>)
    decreases |b|
  {
    a == [] || (b != [] && ((a[0] == b[0] && Subsequence(a[1..], b[1..])) || Subsequence(a, b[1..])))
  }

  /**
   * Dropping errors keeps the other entries in their order, each as often as it
   * occurred, and removes every error entry.
   */
  lemma DropErrorsIsOrderedFilter(s: seq<Message>)
    ensures Subsequence(DropErrors(s), s)
    ensures forall m :: multiset(DropErrors(s))[m] == if m.role == ErrorRole then 0 else multiset(s)[m]
  {
    DropErrorsFromKeepsOrder(s, 0);
    DropErrorsFromCounts(s, 0);
    assert s[0..] == s;
  }

  lemma {:induction false} DropErrorsFromKeepsOrder(s: seq<Message>, k: nat)
    requires k <= |s|
    ensures Subsequence(DropErrorsFrom(s, k), s[k..])
    decreases |s| - k
  {
    if k < |s| {
      DropErrorsFromKeepsOrder(s, k + 1);
      var t := s[k..];
      assert t[0] == s[k] && t[1..] == s[k + 1..];
      var r := DropErrorsFrom(s, k);
      if s[k].role != ErrorRole {
        assert r[0] == t[0] && r[1..] == DropErrorsFrom(s, k + 1);
      }
    }
  }

  lemma {:induction false} DropErrorsFromCounts(s: seq<Message>, k: nat)
    requires k <= |s|
    ensures forall m :: multiset(DropErrorsFrom(s, k))[m] == if m.role == ErrorRole then 0 else multiset(s[k..])[m]
    decreases |s| - k
  {
    if k < |s| {
      DropErrorsFromCounts(s, k + 1);
      assert s[k..] == [s[k]] + s[k + 1..];
    } else {
      assert s[k..] == [];
    }
  }

  /** A log with no error entries passes the filter unchanged. */
  lemma DropErrorsOfClean(s: seq<Message>)
    requires forall i :: 0 <= i < |s| ==> s[i].role != ErrorRole
    ensures DropErrors(s) == s
  {
    DropErrorsFromOfClean(s, 0);
  }

  lemma {:induction false} DropErrorsFromOfClean(s: seq<Message>, k: nat)
    requires k <= |s|
    requires forall i :: 0 <= i < |s| ==> s[i].role != ErrorRole
    ensures DropErrorsFrom(s, k) == s[k..]
    decreases |s| - k
  {
    if k < |s| {
      DropErrorsFromOfClean(s, k + 1);
      assert s[k..] == [s[k]] + s[k + 1..];
    }
  }

  /** A short log without error entries is sent whole, in order, followed by the new turn. */
  lemma WindowOfShortCleanLog(log: seq<Message>, text: string)
    requires |log| <= WindowSize
    requires forall i :: 0 <= i < |log| ==> log[i].role != ErrorRole
    ensures Window(log, text) == Turns(log) + [Turn(User, text)]
  {
    DropErrorsOfClean(log);
  }

  /** A long log contributes only its last ten entries; anything older is never sent. */
  lemma WindowIgnoresOlderEntries(older: seq<Message>, log: seq<Message>, text: string)
    requires |log| >= WindowSize
    ensures Window(older + log, text) == Window(log, text)
  {
    assert Recent(older + log) == Recent(log);
  }

  /**
   * The `systemPrompt` field: present exactly when the toggle is on and the text
   * is not blank, and then it is the trimmed text.
   */
  function SystemPromptField(useSystemPrompt: bool, systemPrompt: string): (r: Option<string>)
    ensures r.Some? <==> useSystemPrompt && !AllSpace(systemPrompt)
    ensures r.Some? ==> r.value == Trim(systemPrompt) && r.value != []
    ensures r.Some? ==> !IsSpace(r.value[0]) && !IsSpace(r.value[|r.value| - 1])
  {
    TrimShape(systemPrompt);
    if useSystemPrompt && Trim(systemPrompt) != "" then Some(Trim(systemPrompt)) else None
  }

  /** A blank prompt is omitted; an already-trimmed prompt is sent verbatim. */
  lemma SystemPromptExamples()
    ensures SystemPromptField(true, "  ") == None
    ensures SystemPromptField(false, "Be concise") == None
    ensures SystemPromptField(true, "Be concise") == Some("Be concise")
  {
    assert IsSpace("  "[0]) && IsSpace("  "[1]);
    assert !IsSpace("Be concise"[0]);
    TrimKeepsTrimmed("Be concise");
  }

  /** The request `sendMessage` posts, assembled from the state before the new turn. */
  function BuildRequest(
    provider: Provider, selectedModel: string, customDefaultModel: string,
    log: seq<Message>, text: string,
    systemPrompt: string, useSystemPrompt: bool, useRag: bool): (r: ChatRequest)
    ensures r.provider == provider && r.useRag == useRag
    ensures r.model == if provider == Gemini then selectedModel else customDefaultModel
    ensures r.messages == Window(log, text)
    ensures r.systemPrompt == SystemPromptField(useSystemPrompt, systemPrompt)
  {
    ChatRequest(
      provider,
      if provider == Gemini then selectedModel else customDefaultModel,
      Window(log, text),
      SystemPromptField(useSystemPrompt, systemPrompt),
      useRag)
  }

  /** The text after `Error: ` in a failure entry: `error.message` of what was thrown. */
  function FailureDetail(outcome: ChatOutcome): (r: string)
    requires !outcome.Replied?
    ensures outcome.Failed? ==> r == outcome.message
    ensures outcome.HttpFailed? ==> StartsWith(r, "Backend HTTP ") && EndsWith(r, ": " + outcome.body)
  {
    match outcome
    case HttpFailed(status, body) => "Backend HTTP " + NatToString(status) + ": " + body
    case Failed(message) => message
  }

  /**
   * The log entry a finished request adds: an assistant message carrying the
   * reply as received, or an `error` entry whose text starts with `Error: `.
   */
  function ReplyMessage(outcome: ChatOutcome): (m: Message)
    ensures m.role != User
    ensures m.role == Assistant <==> outcome.Replied?
    ensures outcome.Replied? ==> m.content == outcome.reply.content
                                 && m.stats == outcome.reply.stats && m.sources == outcome.reply.sources
    ensures !outcome.Replied? ==> m.role == ErrorRole && StartsWith(m.content, "Error: ")
                                  && m.stats.None? && m.sources.None?
    ensures !outcome.Replied? ==> m.content == "Error: " + FailureDetail(outcome)
    ensures outcome.Failed? ==> m.content == "Error: " + outcome.message
    ensures outcome.HttpFailed? ==>
              m.content == "Error: " + ("Backend HTTP " + NatToString(outcome.status) + ": " + outcome.body)
  {
    match outcome
    case Replied(reply) => Message(Assistant, reply.content, reply.stats, reply.sources)
    case _ =>
      var text := "Error: " + FailureDetail(outcome);
      assert text[..7] == "Error: ";
      Message(ErrorRole, text, None, None)
  }

  /**
   * The model a session selects after a request ends: the model the server
   * reports, for a Gemini request whose reply names a non-empty model other
   * than the one requested; otherwise the selection is left as it is.
   */
  function AdoptedModel(request: ChatRequest, outcome: ChatOutcome, current: string): (r: string)
    ensures r != current ==> request.provider == Gemini && outcome.Replied?
                             && outcome.reply.stats.Some? && r == outcome.reply.stats.value.model
                             && r != "" && r != request.model
    ensures request.provider == Gemini && outcome.Replied? && outcome.reply.stats.Some?
            && outcome.reply.stats.value.model != "" && outcome.reply.stats.value.model != request.model
            ==> r == outcome.reply.stats.value.model
    ensures !outcome.Replied? || request.provider == Custom ==> r == current
  {
    if request.provider == Gemini && outcome.Replied? && outcome.reply.stats.Some?
       && outcome.reply.stats.value.model != "" && outcome.reply.stats.value.model != request.model
    then outcome.reply.stats.value.model
    else current
  }
}
