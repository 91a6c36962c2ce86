/**
 * How the frontend's requests and the backend's answers fit together: the
 * chat payloads the window posts land in the scenario they were meant for,
 * a text file picked in the window comes back as the backend's extracted
 * text, every file the window accepts has a backend extractor, and the voice
 * overlay plays exactly the speech the backend synthesised or shows exactly
 * the error it reported.
 */
module EndToEnd {
  import opened Text
  import Base64
  import Utf8
  import Docs = DocumentService
  import Server = ChatServer
  import Window = ChatWindow
  import Overlay = VoiceOverlay

  /** The chat payload as the backend parses the JSON body: nulls become None, the document record a Document. */
  function ToRequest(payload: Window.ChatPayload): Server.ChatRequest {
    var document :=
      if payload.document.Some? then
        var d := payload.document.value;
        Some(Docs.Document(d.name, d.contentType, d.data, d.size))
      else None;
    Server.ChatRequest(payload.message, payload.image, document, Some(payload.mode), Some(payload.sessionId))
  }

  /**
   * The window's clear request names the session its chat requests carry, so
   * with a non-empty session id it removes exactly the entry an upload from
   * this window stored; an empty id would clear the session `""` while uploads
   * went to `"default"`.
   */
  lemma ClearTargetsUploadSession(payload: Window.ChatPayload, clearedSession: string)
    requires clearedSession == payload.sessionId
    ensures clearedSession != "" ==>
              Server.QueryKey(Some(clearedSession)) == Server.SessionKey(ToRequest(payload).sessionId)
    ensures clearedSession == "" ==>
              Server.QueryKey(Some(clearedSession)) != Server.SessionKey(ToRequest(payload).sessionId)
  {
  }

  /** The voice endpoint's reply as the overlay reads its JSON: an absent field reads as the empty string. */
  function ToBody(reply: Server.VoiceReply): Overlay.VoiceBody {
    match reply
    case VoiceError(error) => Overlay.VoiceBody(error, "", "", "")
    case VoiceAnswer(transcript, textResponse, audioB64) => Overlay.VoiceBody("", transcript, textResponse, audioB64)
  }

  /** A typed message goes out in the active tab's mode: plain chat from the chat tab, a question about the session's document from the document tab when one is stored. */
  lemma SentMessagesRoute(message: string, tab: Window.Tab, sessionId: string, activeDocuments: map<string, string>)
    requires sessionId != ""
    ensures var req := ToRequest(Window.ChatPayload(message, None, None, Window.TabMode(tab), sessionId));
            && (tab == Window.ChatTab ==> Server.Route(req, activeDocuments) == Server.PlainChat(message))
            && (tab == Window.DocumentTab && sessionId in activeDocuments ==>
                  Server.Route(req, activeDocuments) == Server.DocumentQa(message, Server.DocumentContext(activeDocuments[sessionId])))
            && (tab == Window.DocumentTab && sessionId !in activeDocuments ==>
                  Server.Route(req, activeDocuments) == Server.PlainChat(message))
  {
    assert Server.SessionKey(Some(sessionId)) == sessionId;
    assert Window.TabMode(Window.ChatTab) != Server.DocumentMode;
  }

  /** A captured screenshot is analysed as an image whatever tab is active and whatever document is stored. */
  lemma ScreenshotRoutesToImage(caption: string, imageDataUrl: string, mode: string, sessionId: string,
                                activeDocuments: map<string, string>)
    requires imageDataUrl != ""
    ensures Server.Route(ToRequest(Window.ChatPayload(caption, Some(imageDataUrl), None, mode, sessionId)), activeDocuments)
            == Server.ImageAnalysis(caption, imageDataUrl)
  {
  }

  /** The request sent when a file has been read is an upload of exactly that file, whatever the session holds. */
  lemma FileReadRoutesToUpload(file: Window.PickedFile, dataUrl: string, sessionId: string, activeDocuments: map<string, string>)
    ensures var payload := Window.ChatPayload(Window.SummarizePrompt, None,
                                              Some(Window.DocumentData(file.name, file.contentType, dataUrl, file.size)),
                                              "document", sessionId);
            Server.Route(ToRequest(payload), activeDocuments)
            == Server.DocumentUpload(Docs.Document(file.name, file.contentType, dataUrl, file.size))
  {
    assert "document" == Server.DocumentMode;
  }

  /** Every file the window accepts has an extractor in the backend. */
  lemma AcceptedFilesAreSupported(file: Window.PickedFile)
    requires Window.AcceptsFile(file)
    ensures Docs.SelectExtractor(file.contentType, file.name).Some?
  {
    if file.contentType !in Window.ValidTypes {
      if EndsWith(file.name, ".txt") {
        Docs.LowerSuffix(file.name, ".txt");
      } else {
        Docs.LowerSuffix(file.name, ".docx");
      }
    }
  }

  /** The window's suffix test is stricter than the backend's: an upper-case `.TXT` name without a MIME type is refused by the window although the backend would read it as text. */
  lemma WindowStricterThanBackend()
    ensures !Window.AcceptsFile(Window.PickedFile("NOTES.TXT", "", 100))
    ensures Docs.SelectExtractor("", "NOTES.TXT") == Some(Docs.Txt)
  {
    Window.AcceptsFileExamples();
    var lowered := AsciiLower("NOTES.TXT");
    assert lowered[4] == AsciiLowerChar('S') == 's';
    assert lowered[5] == AsciiLowerChar('.') == '.';
    assert lowered[6] == AsciiLowerChar('T') == 't';
    assert lowered[7] == AsciiLowerChar('X') == 'x';
    assert lowered[8] == AsciiLowerChar('T') == 't';
    assert lowered[5..] == ".txt";
  }

  /**
   * A plain-text file read as a data URL and uploaded from the window comes
   * back from the backend as its own text when that text is usable, and as
   * the empty-document error when it is too short.
   */
  lemma TextFileUploadRoundTrip(name: string, header: string, content: string, size: nat, sessionId: string,
                                activeDocuments: map<string, string>, libs: Docs.Libraries)
    requires ',' !in header
    requires !EndsWith(AsciiLower(name), ".pdf") && !EndsWith(AsciiLower(name), ".docx")
    ensures var dataUrl := header + "," + Base64.Encode(Utf8.Encode(content));
            var file := Window.PickedFile(name, Docs.TxtMime, size);
            var payload := Window.ChatPayload(Window.SummarizePrompt, None,
                                              Some(Window.DocumentData(name, Docs.TxtMime, dataUrl, size)), "document", sessionId);
            var route := Server.Route(ToRequest(payload), activeDocuments);
            && route.DocumentUpload?
            && (Docs.Usable(content) ==> Docs.ProcessUncached(route.document, libs) == content)
            && (!Docs.IsErrorReport(content) && |PyStrip(content)| < Docs.MinTextLength ==>
                  Docs.ProcessUncached(route.document, libs) == Docs.EmptyDocumentError)
  {
    var dataUrl := header + "," + Base64.Encode(Utf8.Encode(content));
    FileReadRoutesToUpload(Window.PickedFile(name, Docs.TxtMime, size), dataUrl, sessionId, activeDocuments);
    Docs.TextUploadRoundTrip(name, header, content, size, libs);
  }

  /**
   * When the backend answers a recording with a non-empty transcript and
   * reply, the overlay accepts the turn and the audio it decodes is exactly
   * the speech the backend synthesised.
   */
  lemma VoiceAnswerIsPlayed(audio: seq<Byte>, services: Server.Services)
    requires Server.HandleVoice(audio, services).VoiceAnswer?
    requires services.transcribe(audio) != "" && services.groqVoice(services.transcribe(audio)) != ""
    ensures var answer := Server.HandleVoice(audio, services);
            var verdict := Overlay.CheckVoiceResponse(Overlay.Delivered(ToBody(answer)));
            && verdict == Overlay.Accepted(Overlay.Turn(answer.transcript, answer.textResponse, answer.audioB64))
            && Base64.Atob(answer.audioB64).Some?
            && Overlay.CharCodes(Base64.Atob(answer.audioB64).value) == services.speak(answer.textResponse)
  {
    var answer := Server.HandleVoice(audio, services);
    Server.VoiceAudioRoundTrip(audio, services);
    Base64.EncodeNonEmpty(services.speak(answer.textResponse));
    Overlay.CharCodesLatin1(services.speak(answer.textResponse));
  }

  /** When the backend reports an error for a recording, the overlay rejects the turn with exactly that error. */
  lemma VoiceErrorIsShown(audio: seq<Byte>, services: Server.Services)
    requires Server.HandleVoice(audio, services).VoiceError?
    ensures Overlay.CheckVoiceResponse(Overlay.Delivered(ToBody(Server.HandleVoice(audio, services))))
            == Overlay.Rejected(Server.HandleVoice(audio, services).error)
  {
  }
}
