/** The chat component: the live conversation, the text box, the
    response-mode switch, the list of saved conversations and the one shown on
    the history tab. Each handler is one atomic step on this state. */
module ChatbotComponent {
  import opened Wrappers
  import opened Messages
  import opened Trimming
  import opened Prompt
  import Json
  import opened HistoryStore

  class Chatbot {
    const storage: LocalStorage
    var messages: seq<Message>
    var input: string
    var isComplexResponse: bool
    var history: seq<string>
    var activeTab: Tab
    var selectedHistory: seq<Message>

    /** Every entry of the history list is a conversation key present in the store. */
    ghost predicate Valid()
      reads this`history, storage`items
    {
      forall k :: k in history ==> IsHistoryKey(k) && k in storage.items
    }

    /** The component as first rendered, over the page's local storage. */
    constructor (storage: LocalStorage)
      ensures this.storage == storage && Valid()
      ensures messages == [] && input == "" && !isComplexResponse
      ensures history == [] && activeTab == ChatTab && selectedHistory == []
    {
      this.storage := storage;
      messages, input, isComplexResponse := [], "", false;
      history, activeTab, selectedHistory := [], ChatTab, [];
    }

    /** The start-up effect: the history list becomes the store's keys that
        carry the prefix, in the order the browser enumerates them (keys). */
    method RestoreHistory(keys: seq<string>)
      requires forall k :: k in keys <==> k in storage.items
      modifies this`history
      ensures Valid()
      ensures history == SavedHistoryKeys(keys)
    {
      history := SavedHistoryKeys(keys);
    }

    /** Typing in the text box, or picking a suggestion, sets the input. */
    method SetInput(text: string)
      modifies this`input
      ensures input == text
    {
      input := text;
    }

    /** The tab buttons. */
    method SelectTab(tab: Tab)
      modifies this`activeTab
      ensures activeTab == tab
    {
      activeTab := tab;
    }

    /** The response-mode switch flips the flag. */
    method ToggleResponseType()
      modifies this`isComplexResponse
      ensures isComplexResponse == !old(isComplexResponse)
    {
      isComplexResponse := !isComplexResponse;
    }

    /** The first half of a send, up to the completion request: blank input
        is ignored; otherwise the user's message is appended verbatim, the
        text box is cleared and the prompt to request is returned. */
    method Submit() returns (request: Option<string>)
      modifies this`messages, this`input
      ensures Blank(old(input)) ==>
        request == None && messages == old(messages) && input == old(input)
      ensures !Blank(old(input)) ==>
        && messages == old(messages) + [Message(User, old(input))]
        && input == ""
        && request == Some(Compose(old(input), isComplexResponse))
    {
      var text := input;
      var trimmed := Trim(text);
      assert trimmed == [] <==> Blank(text) by {
        TrimEmptyIffBlank(text);
      }
      if trimmed == [] {
        return None;
      }
      messages := messages + [Message(User, text)];
      input := "";
      request := Some(Compose(text, isComplexResponse));
    }

    /** The second half of a send: the reply, or the fallback text when the
        request failed, is appended as one bot message to the conversation as
        it is when the reply arrives. */
    method Receive(reply: Reply)
      modifies this`messages
      ensures messages == old(messages) + [Message(Bot, BotText(reply))]
    {
      messages := messages + [Message(Bot, BotText(reply))];
    }

    /** A whole send with the completion endpoint given as a function from
        prompt to reply: no request for blank input, otherwise one user and
        one bot message appended in that order. */
    method Send(complete: string -> Reply) returns (request: Option<string>)
      modifies this`messages, this`input
      ensures Blank(old(input)) ==>
        request == None && messages == old(messages) && input == old(input)
      ensures !Blank(old(input)) ==>
        var prompt := Compose(old(input), isComplexResponse);
        && request == Some(prompt)
        && input == ""
        && messages == old(messages) + [Message(User, old(input)), Message(Bot, BotText(complete(prompt)))]
    {
      request := Submit();
      if request.Some? {
        Receive(complete(request.value));
      }
    }

    /** Saves the conversation under the key for the timestamp, lists that
        key at the end of the history and starts a new, empty conversation. */
    method Save(timestamp: string) returns (key: string)
      requires Valid()
      modifies this`messages, this`history, storage
      ensures Valid()
      ensures key == HistoryKeyFor(timestamp)
      ensures storage.items == old(storage.items)[key := Json.Encode(old(messages))]
      ensures history == old(history) + [key]
      ensures messages == []
    {
      key := HistoryKeyFor(timestamp);
      storage.SetItem(key, Json.Encode(messages));
      history := history + [key];
      messages := [];
    }

    /** Shows a saved conversation on the history tab; does nothing when the
        key holds no conversation. */
    method Load(key: string)
      modifies this`selectedHistory, this`activeTab
      ensures StoredConversation(storage.items, key).Some? ==>
        selectedHistory == StoredConversation(storage.items, key).value && activeTab == HistoryTab
      ensures StoredConversation(storage.items, key).None? ==>
        selectedHistory == old(selectedHistory) && activeTab == old(activeTab)
    {
      var stored := StoredConversation(storage.items, key);
      if stored.Some? {
        selectedHistory, activeTab := stored.value, HistoryTab;
      }
    }
  }

  /** Saving and then loading the returned key shows the saved conversation. */
  method SaveThenLoad(c: Chatbot, timestamp: string)
    requires c.Valid()
    modifies c`messages, c`history, c`selectedHistory, c`activeTab, c.storage
    ensures c.Valid()
    ensures c.storage.items == old(c.storage.items)[HistoryKeyFor(timestamp) := Json.Encode(old(c.messages))]
    ensures c.selectedHistory == old(c.messages) && c.activeTab == HistoryTab
    ensures c.messages == [] && c.history == old(c.history) + [HistoryKeyFor(timestamp)]
  {
    var saved := c.messages;
    var key := c.Save(timestamp);
    SaveLoadRoundTrip(old(c.storage.items), key, saved);
    c.Load(key);
  }

  /** Loading a key the store does not hold leaves the whole component as it was. */
  method LoadMissing(c: Chatbot, key: string)
    requires key !in c.storage.items
    modifies c`selectedHistory, c`activeTab
    ensures c.selectedHistory == old(c.selectedHistory) && c.activeTab == old(c.activeTab)
    ensures c.history == old(c.history) && c.messages == old(c.messages) && c.input == old(c.input)
    ensures c.isComplexResponse == old(c.isComplexResponse)
  {
    c.Load(key);
  }

  /** Flipping the response mode twice is the identity on the component. */
  method ToggleTwice(c: Chatbot)
    modifies c`isComplexResponse
    ensures c.isComplexResponse == old(c.isComplexResponse)
  {
    c.ToggleResponseType();
    c.ToggleResponseType();
  }

  /** A first question in simple mode, asked once the component has mounted
      over a store whose keys the browser enumerates as keys, and whose
      request fails: the prompt is the simple phrasing followed by the
      question, and the conversation is the question followed by the
      fallback text. */
  method FailedRequestScenario(storage: LocalStorage, keys: seq<string>, question: string)
    returns (c: Chatbot, request: Option<string>)
    requires forall k :: k in keys <==> k in storage.items
    requires !Blank(question)
    ensures request == Some("Responda de forma simples: " + question)
    ensures c.messages == [Message(User, question), Message(Bot, Fallback)]
    ensures c.input == "" && c.history == SavedHistoryKeys(keys)
  {
    c := new Chatbot(storage);
    c.RestoreHistory(keys);
    c.SetInput(question);
    request := c.Send((p: string) => Failed);
  }

  /** One answered question, asked once the component has mounted over a
      store whose keys the browser enumerates as keys, saved at timestamp
      "T": the key "chat_history_T" is listed after the restored history,
      the live conversation is emptied, and loading that key shows the two
      messages in order. */
  method SaveScenario(storage: LocalStorage, keys: seq<string>, question: string, answer: string)
    returns (c: Chatbot)
    requires forall k :: k in keys <==> k in storage.items
    requires !Blank(question)
    modifies storage
    ensures c.storage == storage && "chat_history_T" in storage.items
    ensures c.messages == [] && c.history == SavedHistoryKeys(keys) + ["chat_history_T"]
    ensures c.selectedHistory == [Message(User, question), Message(Bot, answer)]
    ensures c.activeTab == HistoryTab
  {
    c := new Chatbot(storage);
    c.RestoreHistory(keys);
    c.SetInput(question);
    var _ := c.Send((p: string) => Answered(answer));
    var conversation := [Message(User, question), Message(Bot, answer)];
    assert c.messages == conversation;
    var key := c.Save("T");
    assert key == "chat_history_T";
    SaveLoadRoundTrip(old(storage.items), key, conversation);
    c.Load(key);
  }
}
