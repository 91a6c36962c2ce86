/**
 * The backend's HTTP endpoints: the chat endpoint, which routes a request to
 * image analysis, document upload, document question answering or plain
 * chat; the voice endpoint, which chains transcription, a voice-tuned reply
 * and speech synthesis; and the per-session document store with its clear
 * and status endpoints.
 */
module ChatServer {
  import opened Text
  import Base64
  import Docs = DocumentService

  /**
   * The chat request body. `mode` and `sessionId` are None when the client
   * sends null; a field the client leaves out arrives as its default
   * ("chat", "default").
   */
  datatype ChatRequest = ChatRequest(
    message: string,
    image: Option<string>,
    document: Option<Docs.Document>,
    mode: Option<string>,
    sessionId: Option<string>)

  /** The chat response body; `documentLoaded` is true only where the body carries `document_loaded: true`. */
  datatype ChatReply = ChatReply(response: string, mode: string, documentLoaded: bool)

  /**
   * The language, speech and vision services the endpoints call: the vision
   * model, the chat model with an optional document context, the
   * voice-tuned chat model, transcription and speech synthesis. The chat and
   * vision models answer a failure with an apology; transcription and
   * speech synthesis report one with the `[Error` prefix.
   */
  datatype Services = Services(
    gemini: (string, string) -> string,
    groq: (string, Option<string>) -> string,
    groqVoice: string -> string,
    transcribe: seq<Byte> -> string,
    speak: string -> seq<Byte>)

  const DefaultSession: string := "default"
  const DocumentMode: string := "document"
  const LongDocumentChars: nat := 8000
  const ContextSummaryChars: nat := 6000

  /** The session a chat request belongs to: its id, or "default" when the id is null or empty. */
  function SessionKey(sessionId: Option<string>): (key: string)
    ensures key != ""
    ensures sessionId.Some? && sessionId.value != "" ==> key == sessionId.value
    ensures sessionId.None? || sessionId.value == "" ==> key == DefaultSession
  {
    if sessionId.Some? && sessionId.value != "" then sessionId.value else DefaultSession
  }

  /** The session a query-string endpoint works on: the parameter as given, "default" only when it is missing. */
  function QueryKey(sessionId: Option<string>): (key: string)
    ensures key == "" <==> sessionId == Some("")
    ensures key != "" ==> key == SessionKey(sessionId)
  {
    if sessionId.Some? then sessionId.value else DefaultSession
  }

  /** The context a stored document contributes to a question: the text itself up to 8000 characters, a 6000-character summary beyond. */
  function DocumentContext(text: string): (context: string)
    ensures |context| <= LongDocumentChars
    ensures |text| <= LongDocumentChars ==> context == text
  {
    if |text| > LongDocumentChars then
      Docs.SummarizeSections(text, ContextSummaryChars);
      Docs.MarkerLengths();
      Docs.Summarize(text, ContextSummaryChars)
    else text
  }

  /** The context never exceeds 8000 characters: short text goes whole, long text as three 2000-character sections between markers. */
  lemma DocumentContextBounded(text: string)
    ensures |DocumentContext(text)| <= LongDocumentChars
    ensures |text| <= LongDocumentChars ==> DocumentContext(text) == text
    ensures |text| > LongDocumentChars ==>
              DocumentContext(text) == text[..2000] + Docs.MiddleMarker + text[|text| / 2 - 1000..|text| / 2 + 1000]
                                       + Docs.EndMarker + text[|text| - 2000..]
  {
    if |text| > LongDocumentChars {
      Docs.SummarizeSections(text, ContextSummaryChars);
      Docs.MarkerLengths();
      assert ContextSummaryChars / 3 == 2000;
    }
  }

  /** Which of the chat endpoint's four scenarios a request falls into. */
  datatype Scenario =
    | ImageAnalysis(message: string, image: string)
    | DocumentUpload(document: Docs.Document)
    | DocumentQa(message: string, context: string)
    | PlainChat(message: string)

  /** An image wins over everything; then a document sent in document mode is an upload; then document mode with a stored document is a question about it; anything else is plain chat. */
  function Route(req: ChatRequest, activeDocuments: map<string, string>): (r: Scenario)
    ensures r.ImageAnalysis? <==> req.image.Some? && req.image.value != ""
    ensures r.DocumentUpload? ==> req.document == Some(r.document)
    ensures r.DocumentQa? ==> SessionKey(req.sessionId) in activeDocuments && |r.context| <= LongDocumentChars
    ensures (r.DocumentUpload? || r.DocumentQa?) ==> req.mode == Some(DocumentMode)
  {
    if req.image.Some? && req.image.value != "" then ImageAnalysis(req.message, req.image.value)
    else if req.document.Some? && req.mode == Some(DocumentMode) then DocumentUpload(req.document.value)
    else if req.mode == Some(DocumentMode) && SessionKey(req.sessionId) in activeDocuments then
      DocumentQa(req.message, DocumentContext(activeDocuments[SessionKey(req.sessionId)]))
    else PlainChat(req.message)
  }

  /** The routing of a request, scenario by scenario, in terms of its fields. */
  lemma RouteCases(req: ChatRequest, activeDocuments: map<string, string>)
    ensures var hasImage := req.image.Some? && req.image.value != "";
            var key := SessionKey(req.sessionId);
            && (Route(req, activeDocuments).ImageAnalysis? <==> hasImage)
            && (Route(req, activeDocuments).DocumentUpload? <==>
                  !hasImage && req.document.Some? && req.mode == Some(DocumentMode))
            && (Route(req, activeDocuments).DocumentQa? <==>
                  !hasImage && req.document.None? && req.mode == Some(DocumentMode) && key in activeDocuments)
            && (Route(req, activeDocuments).PlainChat? <==>
                  !hasImage && (req.mode != Some(DocumentMode) || (req.document.None? && key !in activeDocuments)))
  {
  }

  /** Questions only ever see the document stored for their own session, bounded to 8000 characters; other sessions' documents do not affect the answer. */
  lemma QuestionsSeeOwnDocument(req: ChatRequest, activeDocuments: map<string, string>, other: string, text: string)
    requires other != SessionKey(req.sessionId)
    ensures Route(req, activeDocuments[other := text]) == Route(req, activeDocuments)
    ensures Route(req, activeDocuments).DocumentQa? ==>
              Route(req, activeDocuments).context == DocumentContext(activeDocuments[SessionKey(req.sessionId)])
              && |Route(req, activeDocuments).context| <= LongDocumentChars
  {
    if Route(req, activeDocuments).DocumentQa? {
      DocumentContextBounded(activeDocuments[SessionKey(req.sessionId)]);
    }
  }

  const UploadLead: string := "✅ Document loaded successfully! \n\n📊 **Stats:**\n- File: "
  const UploadSizeLabel: string := "\n- Size: "
  const UploadTail: string := " characters\n- Ready for questions!\n\nAsk me anything about this document!"

  /** The reply to a successful upload: the lead, the file name, then the text's length in decimal digits before the closing lines. */
  function UploadReply(name: string, length: nat): (r: string)
    ensures var start := |UploadLead + name + UploadSizeLabel|;
            && StartsWith(r, UploadLead + name + UploadSizeLabel) && EndsWith(r, UploadTail)
            && start < |r| - |UploadTail|
            && (forall i :: start <= i < |r| - |UploadTail| ==> '0' <= r[i] <= '9')
            && DecimalValue(r[start..|r| - |UploadTail|]) == length
  {
    var head := UploadLead + name + UploadSizeLabel;
    var digits := NatToString(length);
    var r := head + digits + UploadTail;
    assert r[..|head|] == head;
    assert r[|r| - |UploadTail|..] == UploadTail;
    assert r[|head|..|r| - |UploadTail|] == digits;
    r
  }

  /** The upload handler's reply to the pipeline's text: an error reply carrying an error report, otherwise the loaded-document reply with the text's length. */
  function UploadAnswer(name: string, text: string): (reply: ChatReply)
    ensures reply.documentLoaded <==> !Docs.IsErrorReport(text)
    ensures !reply.documentLoaded ==> reply == ChatReply(text, "error", false)
    ensures reply.documentLoaded ==> reply.mode == DocumentMode && EndsWith(reply.response, UploadTail)
  {
    if Docs.IsErrorReport(text) then ChatReply(text, "error", false)
    else ChatReply(UploadReply(name, |text|), DocumentMode, true)
  }

  /** The clear endpoint's answer. */
  datatype ClearReply = ClearReply(status: string, sessionId: string)

  /** The status endpoint's answer. */
  datatype StatusReply = StatusReply(hasDocument: bool, documentLength: nat, sessionId: string)

  /** Every session's stored text is usable. */
  ghost predicate AllUsable(documents: map<string, string>) {
    forall key :: key in documents ==> Docs.Usable(documents[key])
  }

  lemma StoreUsable(documents: map<string, string>, key: string, text: string)
    requires AllUsable(documents) && (Docs.IsErrorReport(text) || Docs.Usable(text)) && !Docs.IsErrorReport(text)
    ensures AllUsable(documents[key := text])
  {
  }

  lemma RemoveUsable(documents: map<string, string>, key: string)
    requires AllUsable(documents)
    ensures AllUsable(documents - {key})
  {
  }

  /** The empty `.txt` upload a browser sends for an empty file. */
  const EmptyTextFile: Docs.Document := Docs.Document("empty.txt", Docs.TxtMime, Docs.EmptyTextDataUrl, 0)

  /**
   * The upload path as the service writes it, for an empty text file: the
   * pipeline answers empty text, which carries no `[Error` prefix, so the
   * handler stores it and replies that a document of 0 characters is
   * loaded, leaving a session whose document is not usable. The corrected
   * pipeline answers the empty-document error and the reply is an error.
   */
  lemma EmptyUploadLoadedAsWritten(libs: Docs.Libraries, activeDocuments: map<string, string>, sessionId: string)
    ensures var text := Docs.ProcessUncachedAsWritten(EmptyTextFile, libs);
            && text == ""
            && UploadAnswer(EmptyTextFile.name, text) == ChatReply(UploadReply("empty.txt", 0), DocumentMode, true)
            && !AllUsable(activeDocuments[sessionId := text])
    ensures UploadAnswer(EmptyTextFile.name, Docs.ProcessUncached(EmptyTextFile, libs))
            == ChatReply(Docs.EmptyDocumentError, "error", false)
  {
    Docs.EmptyTextFileAsWritten(libs);
    Docs.EmptyDocumentErrorIsReport();
    assert !Docs.Usable((activeDocuments[sessionId := ""])[sessionId]);
  }

  /** The server's per-session document store and the document cache it fills. */
  class ChatServer {
    /** Session id to the text of the document loaded in it. */
    var activeDocuments: map<string, string>
    const documents: Docs.DocumentService

    /** Only usable text is ever stored for a session. */
    ghost predicate Valid()
      reads this, documents
    {
      && documents.Valid()
      && AllUsable(activeDocuments)
    }

    constructor (documents: Docs.DocumentService)
      requires documents.Valid()
      ensures Valid()
      ensures this.documents == documents && activeDocuments == map[]
    {
      this.documents := documents;
      activeDocuments := map[];
    }

    /**
     * The chat endpoint. An upload runs the document pipeline (which may fill
     * the cache) and stores its text for the session when it is not an error
     * report; the other scenarios leave all state alone.
     */
    method HandleChat(req: ChatRequest, services: Services, libs: Docs.Libraries) returns (reply: ChatReply)
      requires Valid()
      modifies this, documents
      ensures Valid()
      ensures match Route(req, old(activeDocuments))
        case ImageAnalysis(message, image) =>
          && reply == ChatReply(services.gemini(message, image), "image", false)
          && activeDocuments == old(activeDocuments) && unchanged(documents)
        case DocumentUpload(document) =>
          var text := Docs.ProcessOutcome(old(documents.cache), document, libs);
          var key := Docs.DocumentHash(document.data, libs);
          && reply == UploadAnswer(document.name, text)
          && (if Docs.IsErrorReport(text) then activeDocuments == old(activeDocuments)
              else activeDocuments == old(activeDocuments)[SessionKey(req.sessionId) := text])
          && (if key in old(documents.cache) || Docs.IsErrorReport(text) then
                documents.cache == old(documents.cache) && documents.order == old(documents.order)
              else
                && documents.order == Docs.Admit(old(documents.order), key)
                && documents.cache == Docs.Store(old(documents.cache), old(documents.order), key, text))
        case DocumentQa(message, context) =>
          && reply == ChatReply(services.groq(message, Some(context)), DocumentMode, false)
          && activeDocuments == old(activeDocuments) && unchanged(documents)
        case PlainChat(message) =>
          && reply == ChatReply(services.groq(message, None), "chat", false)
          && activeDocuments == old(activeDocuments) && unchanged(documents)
    {
      var sessionId := SessionKey(req.sessionId);
      ghost var scenario := Route(req, activeDocuments);
      if req.image.Some? && req.image.value != "" {
        return ChatReply(services.gemini(req.message, req.image.value), "image", false);
      }
      if req.document.Some? && req.mode == Some(DocumentMode) {
        assert scenario == DocumentUpload(req.document.value);
        reply := HandleUpload(req.document.value, sessionId, libs);
        return;
      }
      if req.mode == Some(DocumentMode) && sessionId in activeDocuments {
        var documentContext := activeDocuments[sessionId];
        var contextSummary := if |documentContext| > LongDocumentChars
                              then Docs.Summarize(documentContext, ContextSummaryChars)
                              else documentContext;
        assert scenario == DocumentQa(req.message, contextSummary);
        return ChatReply(services.groq(req.message, Some(contextSummary)), DocumentMode, false);
      }
      assert scenario == PlainChat(req.message);
      return ChatReply(services.groq(req.message, None), "chat", false);
    }

    /** The upload scenario: run the pipeline and store its text for the session unless it is an error report. */
    method HandleUpload(document: Docs.Document, sessionId: string, libs: Docs.Libraries) returns (reply: ChatReply)
      requires Valid()
      modifies this`activeDocuments, documents
      ensures Valid()
      ensures var text := Docs.ProcessOutcome(old(documents.cache), document, libs);
              && reply == UploadAnswer(document.name, text)
              && if Docs.IsErrorReport(text) then activeDocuments == old(activeDocuments)
                 else activeDocuments == old(activeDocuments)[sessionId := text]
      ensures var text := Docs.ProcessOutcome(old(documents.cache), document, libs);
              var key := Docs.DocumentHash(document.data, libs);
              if key in old(documents.cache) || Docs.IsErrorReport(text) then
                documents.cache == old(documents.cache) && documents.order == old(documents.order)
              else
                && documents.order == Docs.Admit(old(documents.order), key)
                && documents.cache == Docs.Store(old(documents.cache), old(documents.order), key, text)
    {
      var documentText := documents.ProcessDocument(document, libs);
      if Docs.IsErrorReport(documentText) {
        return UploadAnswer(document.name, documentText);
      }
      StoreUsable(activeDocuments, sessionId, documentText);
      activeDocuments := activeDocuments[sessionId := documentText];
      return UploadAnswer(document.name, documentText);
    }

    /** Forgets the session's document, reporting whether there was one. */
    method ClearDocument(sessionId: Option<string>) returns (reply: ClearReply)
      requires Valid()
      modifies this`activeDocuments
      ensures Valid()
      ensures var key := QueryKey(sessionId);
              && activeDocuments == old(activeDocuments) - {key}
              && reply == ClearReply(if key in old(activeDocuments) then "cleared" else "not_found", key)
    {
      var key := QueryKey(sessionId);
      var found := key in activeDocuments;
      RemoveUsable(activeDocuments, key);
      activeDocuments := activeDocuments - {key};
      reply := ClearReply(if found then "cleared" else "not_found", key);
    }

    /** Whether the session holds a document and how long its text is; changes nothing. */
    method DocumentStatus(sessionId: Option<string>) returns (reply: StatusReply)
      ensures var key := QueryKey(sessionId);
              && reply.sessionId == key
              && (reply.hasDocument <==> key in activeDocuments)
              && reply.documentLength == (if key in activeDocuments then |activeDocuments[key]| else 0)
    {
      var key := QueryKey(sessionId);
      var hasDocument := key in activeDocuments;
      var documentLength := if hasDocument then |activeDocuments[key]| else 0;
      return StatusReply(hasDocument, documentLength, key);
    }
  }

  // ---------------------------------------------------------------------
  // The voice endpoint

  const TtsFailure: string := "TTS generation failed"

  /** `b"[Error"`, the prefix of speech-synthesis failures. */
  const ErrorBytes: seq<Byte> := [0x5B, 0x45, 0x72, 0x72, 0x6F, 0x72]

  /** The voice endpoint's answer: an error, or the transcript, the reply and the reply's speech in base 64. */
  datatype VoiceReply =
    | VoiceError(error: string)
    | VoiceAnswer(transcript: string, textResponse: string, audioB64: string)

  /** Transcribe; stop with the transcription's error report if it is one; otherwise answer, synthesise speech and fail when the audio is empty or an error report. */
  function HandleVoice(audio: seq<Byte>, services: Services): (r: VoiceReply)
    ensures r.VoiceError? ==> r.error != ""
    ensures StartsWith(services.transcribe(audio), Docs.ErrorPrefix) ==> r == VoiceError(services.transcribe(audio))
    ensures r.VoiceAnswer? ==>
              && r.transcript == services.transcribe(audio) && !StartsWith(r.transcript, Docs.ErrorPrefix)
              && r.textResponse == services.groqVoice(r.transcript)
              && r.audioB64 != "" && |r.audioB64| % 4 == 0
  {
    var transcript := services.transcribe(audio);
    if StartsWith(transcript, Docs.ErrorPrefix) then VoiceError(transcript)
    else
      var textResponse := services.groqVoice(transcript);
      var speech := services.speak(textResponse);
      if speech == [] || StartsWith(speech, ErrorBytes) then VoiceError(TtsFailure)
      else
        Base64.EncodeNonEmpty(speech);
        VoiceAnswer(transcript, textResponse, Base64.Encode(speech))
  }

  /** Speech synthesis that yields nothing, or bytes starting with `[Error`, turns a good transcript into the fixed TTS failure. */
  lemma TtsFailureReported(audio: seq<Byte>, services: Services)
    requires !StartsWith(services.transcribe(audio), Docs.ErrorPrefix)
    requires var speech := services.speak(services.groqVoice(services.transcribe(audio)));
             speech == [] || StartsWith(speech, ErrorBytes)
    ensures HandleVoice(audio, services) == VoiceError(TtsFailure)
  {
  }

  /** A failed transcription decides the answer alone: the later services are never consulted. */
  lemma TranscriptionFailureShortCircuits(audio: seq<Byte>, s1: Services, s2: Services)
    requires s1.transcribe(audio) == s2.transcribe(audio)
    requires StartsWith(s1.transcribe(audio), Docs.ErrorPrefix)
    ensures HandleVoice(audio, s1) == HandleVoice(audio, s2) == VoiceError(s1.transcribe(audio))
  {
  }

  /** The audio of an answer is the synthesised speech of its reply, which the backend's own decoder and the browser's `atob` both restore exactly. */
  lemma VoiceAudioRoundTrip(audio: seq<Byte>, services: Services)
    requires HandleVoice(audio, services).VoiceAnswer?
    ensures var answer := HandleVoice(audio, services);
            && answer.textResponse == services.groqVoice(answer.transcript)
            && Base64.DecodeStrict(answer.audioB64) == Some(services.speak(answer.textResponse))
            && Base64.Atob(answer.audioB64) == Some(Latin1(services.speak(answer.textResponse)))
            && services.speak(answer.textResponse) != []
  {
    var answer := HandleVoice(audio, services);
    Base64.DecodeStrictEncode(services.speak(answer.textResponse));
    Base64.AtobEncode(services.speak(answer.textResponse));
  }
}
