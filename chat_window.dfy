/**
 * The chat window of the frontend: the transcript, the input box, the busy
 * flag, the document tab and the handlers for sending a message, asking about
 * a screenshot, uploading a document, clearing it and probing the backend
 * for a document left over from an earlier visit. Each asynchronous handler
 * is one step here; what the network, the screen capture, the prompt dialog
 * and the file reader answer is passed in as a parameter.
 */
module ChatWindow {
  import opened Text

  datatype Sender = User | Bot

  datatype Message = Message(id: nat, sender: Sender, text: string)

  datatype Tab = ChatTab | DocumentTab

  /** The mode string a tab stands for in a chat request. */
  function TabMode(tab: Tab): string {
    match tab
    case ChatTab => "chat"
    case DocumentTab => "document"
  }

  /** The document shown in the header: name, and size and type when the upload is known. */
  datatype DocumentRef = DocumentRef(name: string, size: Option<nat>, contentType: Option<string>)

  /** The file picked in the file dialog. */
  datatype PickedFile = PickedFile(name: string, contentType: string, size: nat)

  /** The `document` field of a chat request: the file's name, type, data URL and size. */
  datatype DocumentData = DocumentData(name: string, contentType: string, data: string, size: nat)

  /** The body posted to the chat endpoint. */
  datatype ChatPayload = ChatPayload(
    message: string,
    image: Option<string>,
    document: Option<DocumentData>,
    mode: string,
    sessionId: string)

  /** How a chat round trip ends: the reply's text and `document_loaded` flag, or a failure (the request threw, the status was not ok, or the body was not JSON). */
  datatype Gateway = Replied(response: string, documentLoaded: bool) | GatewayFailed

  /** What the screen capture produced: a JPEG data URL, or an exception. */
  datatype Capture = CaptureFailed | Captured(imageDataUrl: string)

  /** What the prompt dialog returned: null when dismissed, otherwise the text typed. */
  datatype PromptAnswer = Dismissed | Answered(text: string)

  /** What the document-status probe learnt: nothing (it threw), or whether the session holds a document. */
  datatype StatusProbe = ProbeFailed | Probed(hasDocument: bool)

  const WelcomeText: string := "👋 Hello! I'm KivyBot. I can help you with:\n• Python questions\n• Code analysis\n• Document analysis (upload PDF, TXT, DOCX)\n• Screenshot analysis"
  const WelcomeId: nat := 1
  const ConnectionApology: string := "Sorry, I'm having trouble connecting. Please try again later."
  const CapturingText: string := "📸 Capturing screen..."
  const CaptureErrorText: string := "❌ Error capturing screenshot"
  const SummarizePrompt: string := "Please process and summarize this document."
  const ClearedText: string := "Document cleared. Back to general chat mode! 💬"
  const StatusDocumentName: string := "Loaded document"
  const MaxUploadBytes: nat := 10 * 1024 * 1024
  const ValidTypes: seq<string> := ["application/pdf", "text/plain", "application/vnd.openxmlformats-officedocument.wordprocessingml.document"]

  function ScreenshotText(caption: string): string { "📸 Screenshot: \"" + caption + "\"" }

  function UploadedText(name: string): string { "📄 Uploaded: " + name }

  /** The request's mode: the override when one is given and non-empty, else the active tab's. */
  function RequestMode(modeOverride: Option<string>, tab: Tab): (mode: string)
    ensures mode != ""
    ensures modeOverride.None? || modeOverride == Some("") ==> mode == TabMode(tab)
    ensures mode == TabMode(tab) || modeOverride == Some(mode)
  {
    if modeOverride.Some? && modeOverride.value != "" then modeOverride.value else TabMode(tab)
  }

  /** A file the upload handler accepts: a known MIME type or a `.txt`/`.docx` name (case-sensitive), and at most 10 MiB. */
  predicate AcceptsFile(file: PickedFile)
    ensures AcceptsFile(file) ==> file.size <= MaxUploadBytes
    ensures file.contentType in ValidTypes && file.size <= MaxUploadBytes ==> AcceptsFile(file)
    ensures AcceptsFile(file) && file.contentType !in ValidTypes ==> |file.name| >= 4
  {
    && (file.contentType in ValidTypes || EndsWith(file.name, ".txt") || EndsWith(file.name, ".docx"))
    && file.size <= MaxUploadBytes
  }

  /** The frontend's suffix test is case-sensitive and knows no `.pdf`: an upper-case `.TXT` name or a `.pdf` name without a MIME type is refused, though the backend would read both. */
  lemma AcceptsFileExamples()
    ensures !AcceptsFile(PickedFile("NOTES.TXT", "", 100))
    ensures !AcceptsFile(PickedFile("report.pdf", "", 100))
    ensures AcceptsFile(PickedFile("report.pdf", "application/pdf", 100))
    ensures !AcceptsFile(PickedFile("report.pdf", "application/pdf", MaxUploadBytes + 1))
  {
    assert "NOTES.TXT"[9 - 4..] != ".txt";
    assert "report.pdf"[10 - 4..] != ".txt";
  }

  /**
   * The bot messages a round trip appends: the reply, or the apology when the
   * round trip failed. When the reply claims a document was loaded but none
   * was sent, reading the missing document's name throws after the reply was
   * appended, and the apology follows it.
   */
  function ReplyTexts(outcome: Gateway, document: Option<DocumentData>): (texts: seq<string>)
    ensures 1 <= |texts| <= 2
    ensures outcome.GatewayFailed? ==> texts == [ConnectionApology]
    ensures outcome.Replied? ==> texts[0] == outcome.response
    ensures |texts| == 2 <==> outcome.Replied? && outcome.documentLoaded && document.None?
  {
    match outcome
    case GatewayFailed => [ConnectionApology]
    case Replied(response, documentLoaded) =>
      if documentLoaded && document.None? then [response, ConnectionApology] else [response]
  }

  /** Bot messages with consecutive ids from `firstId`. */
  function BotMessages(texts: seq<string>, firstId: nat): (ms: seq<Message>)
    ensures |ms| == |texts|
  {
    seq(|texts|, i requires 0 <= i < |texts| => Message(firstId + i, Bot, texts[i]))
  }

  /** `messages.filter(msg => msg.id !== id)`. */
  function WithoutId(messages: seq<Message>, id: nat): (r: seq<Message>)
    ensures |r| <= |messages|
    ensures forall i :: 0 <= i < |r| ==> r[i].id != id
  {
    if messages == [] then []
    else
      var last := messages[|messages| - 1];
      WithoutId(messages[..|messages| - 1], id) + (if last.id == id then [] else [last])
  }

  /** Exactly the messages with another id remain. */
  lemma {:induction false} WithoutIdKeeps(messages: seq<Message>, id: nat)
    ensures forall m :: m in WithoutId(messages, id) <==> m in messages && m.id != id
  {
    if messages != [] {
      var init := messages[..|messages| - 1];
      WithoutIdKeeps(init, id);
      assert messages == init + [messages[|messages| - 1]];
    }
  }

  /** `messages.map(msg => msg.id === id ? {...msg, text} : msg)`. */
  function RetextId(messages: seq<Message>, id: nat, text: string): (r: seq<Message>)
    ensures |r| == |messages|
  {
    seq(|messages|, i requires 0 <= i < |messages| => if messages[i].id == id then messages[i].(text := text) else messages[i])
  }

  predicate IdsBelow(messages: seq<Message>, bound: nat) {
    forall i :: 0 <= i < |messages| ==> messages[i].id < bound
  }

  /** Each message's id is larger than the one before it. */
  predicate Increasing(messages: seq<Message>) {
    forall i :: 0 < i < |messages| ==> messages[i - 1].id < messages[i].id
  }

  /** In an increasing transcript every earlier id is below the last one. */
  lemma {:induction false} IncreasingBelowLast(messages: seq<Message>)
    requires Increasing(messages) && |messages| >= 1
    ensures IdsBelow(messages[..|messages| - 1], messages[|messages| - 1].id)
  {
    if |messages| > 1 {
      var init := messages[..|messages| - 1];
      assert Increasing(init);
      IncreasingBelowLast(init);
      assert init[..|init| - 1] == messages[..|messages| - 2];
    }
  }

  /** Filtering out an id no message carries changes nothing. */
  lemma {:induction false} WithoutAbsentId(messages: seq<Message>, id: nat)
    requires IdsBelow(messages, id)
    ensures WithoutId(messages, id) == messages
  {
    if messages != [] {
      var init := messages[..|messages| - 1];
      WithoutAbsentId(init, id);
      assert messages == init + [messages[|messages| - 1]];
    }
  }

  /** Removing the placeholder just appended with a fresh id restores the transcript exactly. */
  lemma RemoveFreshPlaceholder(messages: seq<Message>, placeholder: Message)
    requires IdsBelow(messages, placeholder.id)
    ensures WithoutId(messages + [placeholder], placeholder.id) == messages
  {
    var all := messages + [placeholder];
    assert all[..|all| - 1] == messages;
    WithoutAbsentId(messages, placeholder.id);
  }

  /** Rewriting the placeholder just appended with a fresh id changes its text and nothing else. */
  lemma RetextFreshPlaceholder(messages: seq<Message>, placeholder: Message, text: string)
    requires IdsBelow(messages, placeholder.id)
    ensures RetextId(messages + [placeholder], placeholder.id, text) == messages + [placeholder.(text := text)]
  {
    var all := messages + [placeholder];
    var r := RetextId(all, placeholder.id, text);
    forall i | 0 <= i < |messages| ensures r[i] == messages[i] {
      assert all[i] == messages[i];
    }
    assert r == messages + [placeholder.(text := text)];
  }

  /** The transcript, input and document state of one chat window. */
  class ChatWindow {
    var messages: seq<Message>
    var input: string
    var isLoading: bool
    var isScreenshotActive: bool
    var uploadedDocument: Option<DocumentRef>
    var activeTab: Tab
    const sessionId: string
    /** Stands for `Date.now()`: the id the next message receives. */
    var clock: nat

    /** The welcome message stays first, and ids increase along the transcript and stay below the clock. */
    ghost predicate Valid()
      reads this
    {
      && |messages| >= 1
      && messages[0] == Message(WelcomeId, Bot, WelcomeText)
      && Increasing(messages)
      && IdsBelow(messages, clock)
    }

    constructor (sessionId: string)
      ensures Valid()
      ensures messages == [Message(WelcomeId, Bot, WelcomeText)] && input == ""
      ensures !isLoading && !isScreenshotActive && uploadedDocument == None && activeTab == ChatTab
      ensures this.sessionId == sessionId
      ensures IsChatEmpty()
    {
      messages := [Message(WelcomeId, Bot, WelcomeText)];
      input := "";
      isLoading := false;
      isScreenshotActive := false;
      uploadedDocument := None;
      activeTab := ChatTab;
      this.sessionId := sessionId;
      clock := WelcomeId + 1;
    }

    /** Only the welcome message is shown. */
    function IsChatEmpty(): bool
      reads this
      ensures Valid() ==> (IsChatEmpty() <==> messages == [Message(WelcomeId, Bot, WelcomeText)])
    {
      |messages| == 1
    }

    /** The send button is enabled. */
    function CanSend(): bool
      reads this
      ensures CanSend() <==> !isLoading && exists k :: 0 <= k < |input| && !IsJsSpace(input[k])
    {
      TrimEmptyIff(input, IsJsSpace);
      !isLoading && JsTrim(input) != ""
    }

    /** The upload and screenshot buttons and the input box are enabled. */
    function ControlsEnabled(): bool
      reads this
      ensures CanSend() ==> ControlsEnabled()
      ensures isLoading ==> !ControlsEnabled()
    {
      !isLoading
    }

    /** The input box's change handler. */
    method SetInput(text: string)
      modifies this`input
      ensures input == text
    {
      input := text;
    }

    /** Appends a message stamped with the clock. */
    method Post(sender: Sender, text: string)
      requires Valid()
      modifies this`messages, this`clock
      ensures Valid()
      ensures messages == old(messages) + [Message(old(clock), sender, text)]
      ensures clock == old(clock) + 1
      ensures !IsChatEmpty()
    {
      messages := messages + [Message(clock, sender, text)];
      clock := clock + 1;
    }

    /**
     * One round trip to the chat endpoint: the payload sent, the bot messages
     * appended, and, when the reply reports a loaded document that was sent,
     * the document shown and the document tab made active. The busy flag is
     * clear afterwards whatever happened.
     */
    method SendMessageToBackend(messageText: string, image: Option<string>, document: Option<DocumentData>,
                                modeOverride: Option<string>, outcome: Gateway) returns (payload: ChatPayload)
      requires Valid()
      modifies this`messages, this`clock, this`isLoading, this`uploadedDocument, this`activeTab
      ensures Valid()
      ensures payload == ChatPayload(messageText, image, document, RequestMode(modeOverride, old(activeTab)), sessionId)
      ensures messages == old(messages) + BotMessages(ReplyTexts(outcome, document), old(clock))
      ensures clock == old(clock) + |ReplyTexts(outcome, document)|
      ensures !isLoading
      ensures if outcome.Replied? && outcome.documentLoaded && document.Some? then
                && uploadedDocument == Some(DocumentRef(document.value.name, Some(document.value.size), Some(document.value.contentType)))
                && activeTab == DocumentTab
              else uploadedDocument == old(uploadedDocument) && activeTab == old(activeTab)
    {
      isLoading := true;
      payload := ChatPayload(messageText, image, document, RequestMode(modeOverride, activeTab), sessionId);
      ghost var texts := ReplyTexts(outcome, document);
      match outcome {
        case GatewayFailed =>
          Post(Bot, ConnectionApology);
        case Replied(response, documentLoaded) =>
          Post(Bot, response);
          if documentLoaded {
            if document.None? {
              Post(Bot, ConnectionApology);
            } else {
              uploadedDocument := Some(DocumentRef(document.value.name, Some(document.value.size), Some(document.value.contentType)));
              activeTab := DocumentTab;
            }
          }
      }
      assert messages == old(messages) + BotMessages(texts, old(clock));
      isLoading := false;
    }

    /**
     * The send handler: ignored while busy or when the input is blank;
     * otherwise posts the trimmed input, clears the box and sends it in the
     * active tab's mode, so the transcript grows by exactly two messages
     * unless the reply claims a document was loaded.
     */
    method HandleSend(outcome: Gateway) returns (sent: Option<ChatPayload>)
      requires Valid()
      modifies this`messages, this`clock, this`input, this`isLoading, this`uploadedDocument, this`activeTab
      ensures Valid()
      ensures uploadedDocument == old(uploadedDocument) && activeTab == old(activeTab)
      ensures JsTrim(old(input)) == "" || old(isLoading) ==>
                && sent == None && messages == old(messages) && input == old(input)
                && isLoading == old(isLoading) && clock == old(clock)
      ensures JsTrim(old(input)) != "" && !old(isLoading) ==>
                var text := JsTrim(old(input));
                && sent == Some(ChatPayload(text, None, None, TabMode(old(activeTab)), sessionId))
                && input == "" && !isLoading
                && messages == old(messages) + [Message(old(clock), User, text)] + BotMessages(ReplyTexts(outcome, None), old(clock) + 1)
                && (outcome.GatewayFailed? || !outcome.documentLoaded ==> |messages| == |old(messages)| + 2)
    {
      var currentInput := JsTrim(input);
      if currentInput == "" || isLoading {
        return None;
      }
      var payload := SendTyped(currentInput, outcome);
      return Some(payload);
    }

    /** Posts the typed text as the user's message, clears the box and sends the text in the active tab's mode. */
    method SendTyped(text: string, outcome: Gateway) returns (payload: ChatPayload)
      requires Valid()
      modifies this`messages, this`clock, this`input, this`isLoading, this`uploadedDocument, this`activeTab
      ensures Valid()
      ensures uploadedDocument == old(uploadedDocument) && activeTab == old(activeTab)
      ensures payload == ChatPayload(text, None, None, TabMode(old(activeTab)), sessionId)
      ensures input == "" && !isLoading
      ensures messages == old(messages) + [Message(old(clock), User, text)] + BotMessages(ReplyTexts(outcome, None), old(clock) + 1)
    {
      Post(User, text);
      input := "";
      payload := SendMessageToBackend(text, None, None, None, outcome);
    }

    /**
     * The screenshot handler: ignored while busy; otherwise posts a
     * placeholder, then removes it when the prompt is dismissed or left
     * empty, rewrites it to the caption and sends caption and image in chat
     * mode when one is given, and rewrites it to an error note when the
     * capture throws. Busy and screenshot flags are clear afterwards.
     */
    method HandleCaptureScreenshot(capture: Capture, answer: PromptAnswer, outcome: Gateway) returns (sent: Option<ChatPayload>)
      requires Valid()
      modifies this`messages, this`clock, this`isLoading, this`isScreenshotActive, this`uploadedDocument, this`activeTab
      ensures Valid()
      ensures uploadedDocument == old(uploadedDocument) && activeTab == old(activeTab)
      ensures old(isLoading) ==>
                && sent == None && messages == old(messages) && clock == old(clock)
                && isLoading && isScreenshotActive == old(isScreenshotActive)
      ensures !old(isLoading) ==> !isLoading && !isScreenshotActive
      ensures !old(isLoading) && capture.CaptureFailed? ==>
                sent == None && messages == old(messages) + [Message(old(clock), User, CaptureErrorText)]
      ensures !old(isLoading) && capture.Captured? && (answer.Dismissed? || answer.text == "") ==>
                sent == None && messages == old(messages)
      ensures !old(isLoading) && capture.Captured? && answer.Answered? && answer.text != "" ==>
                && sent == Some(ChatPayload(answer.text, Some(capture.imageDataUrl), None, "chat", sessionId))
                && messages == old(messages) + [Message(old(clock), User, ScreenshotText(answer.text))]
                                + BotMessages(ReplyTexts(outcome, None), old(clock) + 1)
    {
      if isLoading {
        return None;
      }
      isScreenshotActive := true;
      isLoading := true;
      var placeholderId := clock;
      Post(User, CapturingText);
      sent := None;
      match capture {
        case CaptureFailed =>
          RetextPlaceholder(placeholderId, CaptureErrorText);
        case Captured(imageBase64) =>
          if answer.Dismissed? || answer.text == "" {
            RemovePlaceholder(placeholderId);
          } else {
            var payload := SendCaption(placeholderId, answer.text, imageBase64, outcome);
            sent := Some(payload);
          }
      }
      isLoading := false;
      isScreenshotActive := false;
    }

    /** Shows the caption in place of the placeholder posted last and sends caption and image in chat mode. */
    method SendCaption(placeholderId: nat, caption: string, imageDataUrl: string, outcome: Gateway) returns (payload: ChatPayload)
      requires Valid() && |messages| >= 2 && messages[|messages| - 1].id == placeholderId
      modifies this`messages, this`clock, this`isLoading, this`uploadedDocument, this`activeTab
      ensures Valid()
      ensures uploadedDocument == old(uploadedDocument) && activeTab == old(activeTab)
      ensures payload == ChatPayload(caption, Some(imageDataUrl), None, "chat", sessionId)
      ensures !isLoading && clock == old(clock) + |ReplyTexts(outcome, None)|
      ensures messages == old(messages)[..|old(messages)| - 1] + [old(messages)[|old(messages)| - 1].(text := ScreenshotText(caption))]
                          + BotMessages(ReplyTexts(outcome, None), old(clock))
    {
      RetextPlaceholder(placeholderId, ScreenshotText(caption));
      payload := SendMessageToBackend(caption, Some(imageDataUrl), None, Some("chat"), outcome);
    }

    /** Rewrites the text of the placeholder posted last, by its id. */
    method RetextPlaceholder(placeholderId: nat, text: string)
      requires Valid() && |messages| >= 2 && messages[|messages| - 1].id == placeholderId
      modifies this`messages
      ensures Valid()
      ensures messages == old(messages)[..|old(messages)| - 1] + [old(messages)[|old(messages)| - 1].(text := text)]
    {
      var before := messages[..|messages| - 1];
      var placeholder := messages[|messages| - 1];
      assert messages == before + [placeholder];
      IncreasingBelowLast(messages);
      RetextFreshPlaceholder(before, placeholder, text);
      messages := RetextId(messages, placeholderId, text);
    }

    /** Removes the placeholder posted last, by its id. */
    method RemovePlaceholder(placeholderId: nat)
      requires Valid() && |messages| >= 2 && messages[|messages| - 1].id == placeholderId
      modifies this`messages
      ensures Valid()
      ensures messages == old(messages)[..|old(messages)| - 1]
    {
      var before := messages[..|messages| - 1];
      var placeholder := messages[|messages| - 1];
      assert messages == before + [placeholder];
      IncreasingBelowLast(messages);
      RemoveFreshPlaceholder(before, placeholder);
      messages := WithoutId(messages, placeholderId);
    }

    /**
     * The file input's change handler: refuses a missing, unsupported or
     * oversized file; otherwise marks the window busy on the document tab and
     * starts reading the file, undoing both if starting the read throws.
     */
    method HandleFileUpload(file: Option<PickedFile>, readerThrows: bool) returns (accepted: bool)
      modifies this`isLoading, this`activeTab
      ensures accepted <==> file.Some? && AcceptsFile(file.value)
      ensures !accepted ==> isLoading == old(isLoading) && activeTab == old(activeTab)
      ensures accepted && !readerThrows ==> isLoading && activeTab == DocumentTab
      ensures accepted && readerThrows ==> !isLoading && activeTab == ChatTab
    {
      if file.None? {
        return false;
      }
      var f := file.value;
      if !(f.contentType in ValidTypes) && !EndsWith(f.name, ".txt") && !EndsWith(f.name, ".docx") {
        return false;
      }
      if f.size > MaxUploadBytes {
        return false;
      }
      isLoading := true;
      activeTab := DocumentTab;
      if readerThrows {
        isLoading := false;
        activeTab := ChatTab;
      }
      return true;
    }

    /**
     * The file reader's load event: posts the upload note and sends the
     * summarising request in document mode with the file's data URL. A
     * successful load shows the document; a refused one leaves the document
     * tab as it was (the upload handler made it active) with no document.
     */
    method OnFileRead(file: PickedFile, dataUrl: string, outcome: Gateway) returns (payload: ChatPayload)
      requires Valid()
      modifies this`messages, this`clock, this`isLoading, this`uploadedDocument, this`activeTab
      ensures Valid()
      ensures var document := DocumentData(file.name, file.contentType, dataUrl, file.size);
              && payload == ChatPayload(SummarizePrompt, None, Some(document), "document", sessionId)
              && messages == old(messages) + [Message(old(clock), User, UploadedText(file.name))]
                             + BotMessages(ReplyTexts(outcome, Some(document)), old(clock) + 1)
              && |messages| == |old(messages)| + 2
      ensures !isLoading
      ensures outcome.Replied? && outcome.documentLoaded ==>
                uploadedDocument == Some(DocumentRef(file.name, Some(file.size), Some(file.contentType))) && activeTab == DocumentTab
      ensures !(outcome.Replied? && outcome.documentLoaded) ==>
                uploadedDocument == old(uploadedDocument) && activeTab == old(activeTab)
    {
      var documentData := DocumentData(file.name, file.contentType, dataUrl, file.size);
      Post(User, UploadedText(file.name));
      payload := SendMessageToBackend(SummarizePrompt, None, Some(documentData), Some("document"), outcome);
    }

    /** Forgets the document, returns to the chat tab and posts the confirmation, whatever the backend answers to the clear request. */
    method ClearDocument() returns (clearedSession: string)
      requires Valid()
      modifies this`messages, this`clock, this`uploadedDocument, this`activeTab
      ensures Valid()
      ensures clearedSession == sessionId
      ensures uploadedDocument == None && activeTab == ChatTab
      ensures messages == old(messages) + [Message(old(clock), Bot, ClearedText)]
    {
      uploadedDocument := None;
      activeTab := ChatTab;
      clearedSession := sessionId;
      Post(Bot, ClearedText);
    }

    /** The mount-time probe: a session the backend reports as holding a document shows a placeholder document on the document tab. */
    method CheckStatus(probe: StatusProbe)
      modifies this`uploadedDocument, this`activeTab
      ensures probe == Probed(true) ==>
                uploadedDocument == Some(DocumentRef(StatusDocumentName, None, None)) && activeTab == DocumentTab
      ensures probe != Probed(true) ==>
                uploadedDocument == old(uploadedDocument) && activeTab == old(activeTab)
    {
      if probe.Probed? && probe.hasDocument {
        uploadedDocument := Some(DocumentRef(StatusDocumentName, None, None));
        activeTab := DocumentTab;
      }
    }
  }
}
