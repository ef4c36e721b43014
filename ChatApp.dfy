/**
 * The chat session of `App` (src/App.js): the state its setters update, the
 * model-catalog refresh, sending a message and clearing the chat. Each network
 * response is an input to the transition that consumes it.
 */
module ChatApp {

  import opened Options
  import opened Text
  import opened ModelRegistry
  import opened Conversation

  const InitialModel: string := "gemini-2.0-flash-lite"
  const InitialSystemPrompt: string := "You are a helpful AI assistant that answers user questions clearly and informatively."
  const InitialCustomModel: string := "qwen2:0.5b"
  const ModelsFallbackError: string := "Failed to get models list"

  /** How the catalog request ends: a body (whose `models` may be missing), a non-2xx status, or a thrown error. */
  datatype ModelsReply =
    | ModelsListed(models: Option<seq<string>>)
    | ModelsHttpError(status: nat)
    | ModelsFailed(message: string)

  /** `e.message || 'Failed to get models list'` for a failed catalog request. */
  function ModelsErrorText(reply: ModelsReply): (r: string)
    requires !reply.ModelsListed?
    ensures r != ""
    ensures reply.ModelsHttpError? ==> r == "Backend HTTP " + NatToString(reply.status)
    ensures reply.ModelsFailed? && reply.message != "" ==> r == reply.message
    ensures reply.ModelsFailed? && reply.message == "" ==> r == ModelsFallbackError
  {
    match reply
    case ModelsHttpError(status) => "Backend HTTP " + NatToString(status)
    case ModelsFailed(message) => if message == "" then ModelsFallbackError else message
  }

  /** The text a send uses: the string argument when there is one, otherwise the input box. */
  function SendText(arg: Option<string>, inputValue: string): (r: string)
    ensures arg.Some? ==> r == arg.value
    ensures arg.None? ==> r == inputValue
  {
    arg.GetOr(inputValue)
  }

  /**
   * The guard of `sendMessage`: `text.trim()` is not empty (by `Trim`'s contract,
   * the text is not all whitespace) and no request is in flight.
   */
  predicate SendAccepted(text: string, isLoading: bool): (r: bool)
    ensures r <==> Trim(text) != "" && !isLoading
  {
    !AllSpace(text) && !isLoading
  }

  /**
   * Whether the send button is enabled. An enabled button always leads to an
   * accepted send; it is additionally disabled for an unconfigured custom server.
   */
  function SendEnabled(inputValue: string, isLoading: bool, provider: Provider, customConfigured: bool): (r: bool)
    ensures r ==> SendAccepted(SendText(None, inputValue), isLoading)
    ensures r <==> !AllSpace(inputValue) && !isLoading && (provider == Gemini || customConfigured)
  {
    !(Trim(inputValue) == "" || isLoading || (provider == Custom && !customConfigured))
  }

  /**
   * The Enter key calls `sendMessage` directly, so the custom-server gate of the
   * button does not apply to it: in an idle session with an unconfigured custom
   * server, every non-blank input the button refuses is still sent by Enter.
   */
  lemma EnterKeyBypassesServerGate(inputValue: string)
    requires Trim(inputValue) != ""
    ensures !SendEnabled(inputValue, false, Custom, false)
    ensures SendAccepted(SendText(None, inputValue), false)
  {
  }

  /**
   * The state of `App`. Each method's `modifies` clause names the fields it may
   * change; every other field keeps its value.
   */
  class ChatSession {
    var messages: seq<Message>
    var inputValue: string
    var isLoading: bool
    var selectedModel: string
    var systemPrompt: string
    var useSystemPrompt: bool
    var useRag: bool
    var provider: Provider
    var availableModels: seq<string>
    var modelsLoaded: bool
    var modelsError: string
    var customConfigured: bool
    var customDefaultModel: string
    /** Every chat request posted so far, in order (the network's view, not program state). */
    ghost var sent: seq<ChatRequest>

    constructor ()
      ensures messages == [] && inputValue == "" && !isLoading
      ensures selectedModel == InitialModel && provider == Gemini
      ensures systemPrompt == InitialSystemPrompt && useSystemPrompt && useRag
      ensures availableModels == [] && !modelsLoaded && modelsError == ""
      ensures !customConfigured && customDefaultModel == InitialCustomModel
      ensures sent == []
    {
      messages := [];
      inputValue := "";
      isLoading := false;
      selectedModel := InitialModel;
      systemPrompt := InitialSystemPrompt;
      useSystemPrompt := true;
      useRag := true;
      provider := Gemini;
      availableModels := [];
      modelsLoaded := false;
      modelsError := "";
      customConfigured := false;
      customDefaultModel := InitialCustomModel;
      sent := [];
    }

    /**
     * The models effect: for the Gemini provider, store the fetched catalog and
     * re-select when the current model is not among its bare names; on failure
     * keep catalog and selection and record the error. Either way the catalog
     * counts as loaded afterwards. For the custom provider nothing happens.
     */
    method RefreshModels(reply: ModelsReply)
      modifies this`availableModels, this`modelsLoaded, this`modelsError, this`selectedModel
      ensures old(provider) == Custom ==> unchanged(this)
      ensures old(provider) == Gemini ==> modelsLoaded
      ensures old(provider) == Gemini && reply.ModelsListed? ==>
                availableModels == reply.models.GetOr([]) && modelsError == ""
                && selectedModel == Reselect(old(selectedModel), availableModels)
      ensures old(provider) == Gemini && !reply.ModelsListed? ==>
                availableModels == old(availableModels) && selectedModel == old(selectedModel)
                && modelsError == ModelsErrorText(reply)
    {
      if provider != Gemini {
        return;
      }
      modelsLoaded := false;
      modelsError := "";
      match reply {
        case ModelsListed(models) =>
          var catalog := models.GetOr([]);
          availableModels := catalog;
          modelsLoaded := true;
          selectedModel := Reselect(selectedModel, catalog);
        case _ =>
          modelsError := ModelsErrorText(reply);
          modelsLoaded := true;
      }
    }

    /** The request a send of `text` would post from the current state. */
    function RequestFor(text: string): ChatRequest
      reads this
    {
      BuildRequest(provider, selectedModel, customDefaultModel, messages, text,
                   systemPrompt, useSystemPrompt, useRag)
    }

    /**
     * The synchronous half of `sendMessage`: the guard, the user entry appended,
     * the input box cleared when the input box was the source, the session
     * marked busy, and the request assembled from the log as it was before.
     */
    method BeginSend(arg: Option<string>) returns (request: Option<ChatRequest>)
      modifies this`messages, this`inputValue, this`isLoading, this`sent
      ensures request.None? <==> !SendAccepted(SendText(arg, old(inputValue)), old(isLoading))
      ensures request.None? ==> unchanged(this)
      ensures request.Some? ==>
                var text := SendText(arg, old(inputValue));
                && request.value == old(RequestFor(text))
                && messages == old(messages) + [UserMessage(text)]
                && inputValue == (if arg.None? then "" else old(inputValue))
                && isLoading
                && sent == old(sent) + [request.value]
    {
      var text := SendText(arg, inputValue);
      if !SendAccepted(text, isLoading) {
        request := None;
      } else {
        var r := BuildRequest(provider, selectedModel, customDefaultModel, messages, text,
                              systemPrompt, useSystemPrompt, useRag);
        messages := messages + [UserMessage(text)];
        if arg.None? {
          inputValue := "";
        }
        isLoading := true;
        sent := sent + [r];
        request := Some(r);
      }
    }

    /**
     * The asynchronous half: append the reply or the failure to the log as it is
     * now, adopt the model the server reports, and end the busy state.
     */
    method CompleteSend(request: ChatRequest, outcome: ChatOutcome)
      modifies this`messages, this`selectedModel, this`isLoading
      ensures messages == old(messages) + [ReplyMessage(outcome)]
      ensures !isLoading
      ensures selectedModel == AdoptedModel(request, outcome, old(selectedModel))
    {
      messages := messages + [ReplyMessage(outcome)];
      selectedModel := AdoptedModel(request, outcome, selectedModel);
      isLoading := false;
    }

    /**
     * A whole `sendMessage` whose request ends with `outcome`: refused sends
     * change nothing; an accepted one posts one request and appends exactly
     * the user entry and then the reply or error entry.
     */
    method SendMessage(arg: Option<string>, outcome: ChatOutcome) returns (accepted: bool)
      modifies this`messages, this`inputValue, this`isLoading, this`sent, this`selectedModel
      ensures accepted <==> SendAccepted(SendText(arg, old(inputValue)), old(isLoading))
      ensures !accepted ==> unchanged(this)
      ensures accepted ==>
                var text := SendText(arg, old(inputValue));
                var request := old(RequestFor(text));
                && messages == old(messages) + [UserMessage(text), ReplyMessage(outcome)]
                && !isLoading
                && selectedModel == AdoptedModel(request, outcome, old(selectedModel))
                && sent == old(sent) + [request]
                && inputValue == (if arg.None? then "" else old(inputValue))
    {
      var request := BeginSend(arg);
      accepted := request.Some?;
      if accepted {
        CompleteSend(request.value, outcome);
      }
    }

    /** `clearChat`: the log is emptied and nothing else changes. */
    method ClearChat()
      modifies this`messages
      ensures messages == []
    {
      messages := [];
    }
  }
}
