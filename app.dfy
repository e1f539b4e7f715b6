/** The App component's conversation state and the handlers that change it.
    Each handler is one atomic step: React's functional state updates are
    applied in program order. Clock reads (`Date.now()`, `toISOString()`) and
    the outcome of the model request are parameters. */
module ChatApp {
  import opened Conversations

  /** What the request to the language model produced: the content of the
      reply, or an exception (from building the client or from the call). */
  datatype Outcome = Success(content: string) | Failure

  class App {
    /** The conversation records, newest first. */
    var conversations: seq<Conversation>
    /** The active conversation's id, or null. */
    var currentConversationId: Option<int>
    /** The messages shown in the chat view. */
    var messages: seq<Message>
    var selectedModel: string
    var inputMessage: string
    var isLoading: bool

    /** The current id, when set, names a record of the list, and that
        record's stored log is a prefix of the view: the view shows what was
        stored, followed by anything shown since and not stored (an error
        message). */
    ghost predicate Valid()
      reads this
    {
      CurrentExists(conversations, currentConversationId) &&
      (currentConversationId.Some? ==>
         Find(conversations, currentConversationId.value).value.messages <= messages)
    }

    /** The initial state, over the records read back from storage. */
    constructor (stored: seq<Conversation>)
      ensures Valid()
      ensures conversations == stored && currentConversationId == None && messages == []
      ensures selectedModel == DefaultModel && inputMessage == [] && !isLoading
    {
      conversations := stored;
      currentConversationId := None;
      messages := [];
      selectedModel := DefaultModel;
      inputMessage := [];
      isLoading := false;
    }

    /** `createNewConversation`: puts a fresh record in front of the list,
        makes it current and clears the view. */
    method CreateNewConversation(id: int, timestamp: string)
      modifies this`conversations, this`currentConversationId, this`messages
      ensures conversations == [NewConversation(id, selectedModel, timestamp)] + old(conversations)
      ensures currentConversationId == Some(id) && messages == []
      ensures selectedModel == old(selectedModel) && inputMessage == old(inputMessage)
      ensures isLoading == old(isLoading)
      ensures Valid()
      ensures old(UniqueIds(conversations)) && !old(HasId(conversations, id)) ==> UniqueIds(conversations)
    {
      var created := NewConversation(id, selectedModel, timestamp);
      conversations := [created] + conversations;
      currentConversationId := Some(id);
      messages := [];
      assert conversations[0].id == id;
    }

    /** `selectConversation`: a hit makes that record current and shows its
        messages and model; a miss changes nothing. The list never changes. */
    method SelectConversation(id: int)
      requires Valid()
      modifies this`currentConversationId, this`messages, this`selectedModel
      ensures Valid()
      ensures conversations == old(conversations)
      ensures inputMessage == old(inputMessage) && isLoading == old(isLoading)
      ensures !HasId(conversations, id) ==>
        currentConversationId == old(currentConversationId) && messages == old(messages) &&
        selectedModel == old(selectedModel)
      ensures HasId(conversations, id) ==>
        currentConversationId == Some(id) &&
        messages == Find(conversations, id).value.messages &&
        selectedModel == Find(conversations, id).value.model
    {
      var found := Find(conversations, id);
      if found.Some? {
        messages := found.value.messages;
        currentConversationId := Some(id);
        selectedModel := found.value.model;
      }
    }

    /** `deleteConversation`: filters the id out of the list; if it was the
        current one, a fresh record with id `freshId` is created and made
        current, so the current id never dangles. */
    method DeleteConversation(id: int, freshId: int, timestamp: string)
      requires Valid()
      modifies this`conversations, this`currentConversationId, this`messages
      ensures Valid()
      ensures selectedModel == old(selectedModel) && inputMessage == old(inputMessage)
      ensures isLoading == old(isLoading)
      ensures old(currentConversationId) != Some(id) ==>
        conversations == RemoveId(old(conversations), id) &&
        currentConversationId == old(currentConversationId) && messages == old(messages)
      ensures old(currentConversationId) == Some(id) ==>
        conversations == [NewConversation(freshId, selectedModel, timestamp)] + RemoveId(old(conversations), id) &&
        currentConversationId == Some(freshId) && messages == []
      ensures freshId != id ==> !HasId(conversations, id)
      ensures old(UniqueIds(conversations)) &&
              (old(currentConversationId) != Some(id) || !old(HasId(conversations, freshId))) ==>
              UniqueIds(conversations)
    {
      ghost var before := conversations;
      conversations := RemoveId(conversations, id);
      if UniqueIds(before) {
        RemoveIdUnique(before, id);
      }
      RemoveIdHasId(before, id, freshId);
      if currentConversationId == Some(id) {
        CreateNewConversation(freshId, timestamp);
      } else if currentConversationId.Some? {
        RemoveIdHasId(before, id, currentConversationId.value);
        FindRemoveId(before, id, currentConversationId.value);
      }
    }

    /** `renameConversation`: a name that trims to nothing is ignored;
        otherwise the record with the id is renamed to the trimmed name and
        nothing else changes. */
    method RenameConversation(id: int, newName: string)
      requires Valid()
      modifies this`conversations
      ensures Valid()
      ensures Trim(newName) == [] ==> conversations == old(conversations)
      ensures Trim(newName) != [] ==> conversations == RenameIn(old(conversations), id, Trim(newName))
      ensures old(UniqueIds(conversations)) ==> UniqueIds(conversations)
      ensures currentConversationId == old(currentConversationId) && messages == old(messages)
      ensures selectedModel == old(selectedModel) && inputMessage == old(inputMessage)
      ensures isLoading == old(isLoading)
    {
      var name := Trim(newName);
      if name == [] {
        return;
      }
      ghost var before := conversations;
      conversations := RenameIn(conversations, id, name);
      if currentConversationId.Some? {
        FindRenameIn(before, id, name, currentConversationId.value);
      }
    }

    /** `handleSendMessage`: blank input changes nothing. Otherwise the
        loading flag is raised, the request's outcome is recorded (the `try`
        body on success, the `catch` block on failure), and the flag is
        cleared again whatever the outcome. */
    method HandleSendMessage(outcome: Outcome, timestamp: string)
      requires Valid()
      modifies this`conversations, this`messages, this`inputMessage, this`isLoading
      ensures Valid()
      ensures old(UniqueIds(conversations)) ==> UniqueIds(conversations)
      ensures currentConversationId == old(currentConversationId) && selectedModel == old(selectedModel)
      ensures Trim(old(inputMessage)) == [] ==>
        conversations == old(conversations) && messages == old(messages) &&
        inputMessage == old(inputMessage) && isLoading == old(isLoading)
      ensures Trim(old(inputMessage)) != [] ==> !isLoading
      ensures Trim(old(inputMessage)) != [] && outcome.Success? ==>
        messages == old(messages) + [Human(old(inputMessage)), Ai(outcome.content, selectedModel)] &&
        conversations == RecordReply(old(conversations), currentConversationId, messages,
                                     selectedModel, timestamp, old(inputMessage)) &&
        inputMessage == []
      ensures Trim(old(inputMessage)) != [] && outcome.Failure? ==>
        messages == old(messages) + [Error(ErrorText)] &&
        conversations == old(conversations) && inputMessage == old(inputMessage)
      ensures currentConversationId.Some? ==>
        old(Find(conversations, currentConversationId.value).value.messages) <=
        Find(conversations, currentConversationId.value).value.messages
    {
      if Trim(inputMessage) == [] {
        return;
      }
      isLoading := true;
      match outcome {
        case Success(content) => RecordReplyInView(content, timestamp);
        case Failure => RecordError();
      }
      isLoading := false;
    }

    /** The `try` body once the reply has arrived: the user's message and
        then the reply (tagged with the selected model) are appended to the
        view, in that order; the current record, if any, takes that log, the
        model, the timestamp and a title derived from the input; the input
        box is cleared. */
    method RecordReplyInView(content: string, timestamp: string)
      requires Valid()
      modifies this`conversations, this`messages, this`inputMessage
      ensures Valid()
      ensures old(UniqueIds(conversations)) ==> UniqueIds(conversations)
      ensures messages == old(messages) + [Human(old(inputMessage)), Ai(content, selectedModel)]
      ensures conversations == RecordReply(old(conversations), currentConversationId, messages,
                                           selectedModel, timestamp, old(inputMessage))
      ensures inputMessage == []
      ensures currentConversationId.Some? ==>
        Find(conversations, currentConversationId.value).value.messages == messages
    {
      var updatedMessages := messages + [Human(inputMessage)];
      var finalMessages := updatedMessages + [Ai(content, selectedModel)];
      ghost var before := conversations;
      conversations := RecordReply(conversations, currentConversationId, finalMessages,
                                   selectedModel, timestamp, inputMessage);
      if currentConversationId.Some? {
        FindRecordReply(before, currentConversationId.value, finalMessages,
                        selectedModel, timestamp, inputMessage);
      }
      messages := finalMessages;
      inputMessage := [];
    }

    /** The `catch` block: one error message is appended to the view; the
        list and the input are left as they are. */
    method RecordError()
      requires Valid()
      modifies this`messages
      ensures Valid()
      ensures messages == old(messages) + [Error(ErrorText)]
    {
      messages := messages + [Error(ErrorText)];
    }

    /** The model picker's `setSelectedModel`. */
    method SetSelectedModel(model: string)
      modifies this`selectedModel
      ensures selectedModel == model
    {
      selectedModel := model;
    }

    /** The input box's `setInputMessage`. */
    method SetInputMessage(text: string)
      modifies this`inputMessage
      ensures inputMessage == text
    {
      inputMessage := text;
    }
  }
}
