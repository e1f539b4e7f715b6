/** Clients of the App class that call the handlers in sequence and prove,
    from the handlers' contracts alone, what the user sees. */
module Scenarios {
  import opened Conversations
  import opened ChatApp

  /** Start with no history, create a conversation, send "Hello": one
      record, holding the user's message and the reply, titled "Hello". */
  method FirstSend() {
    var app := new App([]);
    app.SetSelectedModel("m1");
    app.CreateNewConversation(1, "t0");
    app.SetInputMessage("Hello");
    assert Trim("Hello") != [] by {
      TrimEmptyIffBlank("Hello");
      assert !IsWhitespace("Hello"[0]);
    }
    app.HandleSendMessage(Success("Hi"), "t1");
    TitleExamples();
    assert |app.conversations| == 1;
    assert app.conversations[0].name == "Hello";
    assert app.conversations[0].messages == [Human("Hello"), Ai("Hi", "m1")];
    assert app.messages == app.conversations[0].messages;
    assert app.inputMessage == [] && !app.isLoading;
  }

  /** Two conversations; deleting the one that is not active leaves the
      active one, its id and its messages as they were. */
  method DeleteInactive() {
    var app := new App([]);
    app.CreateNewConversation(1, "t0");
    app.CreateNewConversation(2, "t1");
    assert app.conversations[0].id == 2 && app.conversations[1].id == 1;
    var active := app.conversations[0];
    app.DeleteConversation(1, 3, "t2");
    assert app.currentConversationId == Some(2);
    assert app.conversations == [active];
  }

  /** A failed request adds one error message and clears the loading flag,
      and the list keeps its records. */
  method FailedSend() {
    var app := new App([]);
    app.CreateNewConversation(1, "t0");
    app.SetInputMessage("Hello");
    assert Trim("Hello") != [] by {
      TrimEmptyIffBlank("Hello");
      assert !IsWhitespace("Hello"[0]);
    }
    app.HandleSendMessage(Failure, "t1");
    assert app.messages == [Error(ErrorText)];
    assert app.conversations == [NewConversation(1, DefaultModel, "t0")];
    assert !app.isLoading && app.inputMessage == "Hello";
  }
}
