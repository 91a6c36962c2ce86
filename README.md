# CodeKivy chat and voice assistant: a Dafny model of its core

CodeKivy is a Python course site that includes an assistant called KivyBot. This project models the assistant's four stateful pieces.

**The backend document pipeline** (`backend/services/document_service.py`) handles an uploaded file sent as a data URL:
- it takes the base 64 payload after the first comma and decodes it;
- it chooses the PDF, DOCX or plain-text extractor by MIME type or by lower-cased file suffix;
- it extracts the text;
- it rejects text shorter than ten characters once stripped;
- it remembers accepted text in a process-wide cache of at most ten documents, keyed by the MD5 of the upload.

It also builds the beginning/middle/end summary that bounds the context handed to the language model.

**The backend endpoints** (`backend/main.py`):
- The chat endpoint routes a request, in priority order, to image analysis, document upload, a question about the session's document, or plain chat. It keeps a map from session id to that session's document text.
- The clear and status endpoints read and delete entries of that map.
- The voice endpoint chains transcription, a voice-tuned reply and speech synthesis. It stops at the first stage that reports an error.

**The chat window** (`frontend/src/components/ChatWindow.jsx`) holds the transcript, the input box, the busy flag, the document tab and the loaded document. It has handlers for:
- sending a message;
- asking about a screenshot, using a placeholder message that is later rewritten or removed;
- uploading a file;
- clearing the document;
- the mount-time status probe.

**The voice overlay** (`frontend/src/components/VoiceAgentOverlay.jsx`) is a push-to-talk state machine:
- it checks the voice endpoint's answer;
- it decodes the reply's audio into a blob of 512-byte slices;
- it follows the audio element's play, end and error events.

How the model is built:
- State the source updates in place is a class: the document cache, the session map, the chat window and the voice overlay. Each class has a `Valid()` invariant that every method keeps.
- Each asynchronous handler is one method. What the network, the screen capture, the prompt dialog or the file reader answered is passed in as a parameter.
- The language, speech, PDF, DOCX and MD5 services are function-valued parameters.
- The string and byte conversions the code relies on are modelled after their standards: base 64 as in section 4 of RFC 4648, `atob` as in the WHATWG forgiving-base64 decode, UTF-8 as in RFC 3629, and latin-1.
- Module `EndToEnd` connects the two sides. The payloads the window sends route where they are meant to, and a text file comes back as its own text. The overlay plays exactly the speech the backend synthesised, or shows exactly the error it reported.

## Model

| member | source | states |
|---|---|---|
| Text.TrimStartCutsSpace | backend/services/document_service.py:133 | `strip()` removes only whitespace from the front |
| Text.TrimEndCutsSpace | backend/services/document_service.py:133 | `strip()` removes only whitespace from the back |
| Text.TrimIsInnerSlice | backend/services/document_service.py:133 | stripped text is the slice of the original between the whitespace cut from each end; when non-empty it begins and ends with non-whitespace |
| Text.TrimEmptyIff | backend/services/document_service.py:55 | stripping yields the empty string exactly when every character is whitespace |
| Text.Trim | backend/services/document_service.py:133 | trimmed text is never longer than the original and, when non-empty, neither starts nor ends with a character of the trimmed class |
| Text.PyStrip | backend/services/document_service.py:133 | `str.strip()` leaves text that neither starts nor ends with Python whitespace |
| Text.JsTrim | frontend/src/components/ChatWindow.jsx:91-100 | `trim()` leaves text that neither starts nor ends with JavaScript whitespace |
| Text.AsciiLower | backend/services/document_service.py:118 | lower-casing keeps the length and maps each character by itself |
| Text.AsciiLowerIdempotent | backend/services/document_service.py:118 | lower-casing twice equals lower-casing once |
| Text.NatToString | backend/main.py:91 | a length prints as decimal digits with no leading zero whose decimal value is exactly the length |
| Text.IndexOf | backend/services/document_service.py:112 | finds the first occurrence of the comma |
| Text.SecondCommaField | backend/services/document_service.py:111-112 | `split(',')[1]` is the comma-free text between the first comma and the next one, or the end |
| Text.Latin1 | backend/services/document_service.py:77 | latin-1 decoding maps every byte to the character with its code, one for one |
| Text.Join | backend/services/document_service.py:58 | `"\n".join` of no parts is empty, of one part is that part, and otherwise begins with the first part |
| Text.JoinAppend | backend/services/document_service.py:36 | joining one more part appends the separator and that part, so the parts appear in order with one separator between neighbours |
| Base64.CharOf | backend/main.py:167 | each 6-bit value has an alphabet character |
| Base64.ValueOf | backend/main.py:167 | each alphabet character has the 6-bit value it encodes |
| Base64.Group | backend/main.py:167 | three bytes become four alphabet characters |
| Base64.GroupRoundTrip | backend/main.py:167 | the four 6-bit values of a group give its three bytes back |
| Base64.EncodeDigits | backend/main.py:167 | encoding n bytes yields 4·(n div 3) alphabet characters, plus 2 or 3 for a partial final group |
| Base64.Encode | backend/main.py:167 | `b64encode` output length is a multiple of four |
| Base64.EncodeNonEmpty | backend/main.py:161-167 | non-empty audio encodes to non-empty text, so the overlay sees it as present |
| Base64.DecodeDigitsAccepts | backend/services/document_service.py:114 | unpadded decoding succeeds exactly when every character is in the alphabet and the length is not 1 modulo 4 |
| Base64.DecodeDigitsLength | backend/services/document_service.py:114 | unpadded decoding yields three bytes per four characters, rounded down |
| Base64.DecodeStrict | backend/services/document_service.py:114 | accepted input has a length that is a multiple of four and yields three bytes per four characters less at most two for padding |
| Base64.DecodeEncodeDigits | backend/services/document_service.py:114 | decoding the digits of any byte string restores the bytes |
| Base64.StripPaddingOfEncode | backend/services/document_service.py:114 | removing the `=` padding leaves exactly the digits |
| Base64.DecodeStrictEncode | backend/services/document_service.py:114 | `b64decode(b64encode(b)) == b` for every byte string |
| Base64.RemoveAsciiWhitespace | frontend/src/components/VoiceAgentOverlay.jsx:12 | `atob` first drops ASCII whitespace: a character is kept exactly when it occurs in the input and is not whitespace, and nothing kept is whitespace |
| Base64.RemoveAsciiWhitespaceAppend | frontend/src/components/VoiceAgentOverlay.jsx:12 | the removal works piecewise over a concatenation, so the kept characters stay in their original order |
| Base64.Atob | frontend/src/components/VoiceAgentOverlay.jsx:12 | `atob` yields a binary string: every character code is below 256 |
| Base64.AtobEncode | frontend/src/components/VoiceAgentOverlay.jsx:12 | `atob` of the backend's encoding is the binary string of the same bytes |
| Utf8.DecodeScalar | backend/services/document_service.py:74 | a well-formed sequence consumes one to four bytes |
| Utf8.Decode | backend/services/document_service.py:74 | successful UTF-8 decoding gives no more characters than bytes |
| Utf8.Encode | backend/services/document_service.py:17 | `str.encode()` yields at least one byte per character |
| Utf8.EncodeScalar | backend/services/document_service.py:17 | a code point takes one byte below U+0080, two below U+0800, three below U+10000 and four above; only a one-byte encoding starts below 0x80, and later bytes are continuation bytes |
| Utf8.DecodeScalarOfEncode | backend/services/document_service.py:74 | the encoding of a code point decodes to that code point, whatever follows it |
| Utf8.DecodeEncode | backend/services/document_service.py:74 | every string survives UTF-8 encoding and decoding |
| Utf8.DecodeAscii | backend/services/document_service.py:72-77 | ASCII bytes decode one character per byte, as latin-1 would |
| DocumentService.Report | backend/services/document_service.py:42 | every failure message `[Error: <what> - <detail>]` the pipeline builds (PDF, DOCX, unsupported type, processing failure) is an error report and ends with the detail it reports |
| DocumentService.IsErrorReport | backend/services/document_service.py:130 | the `startswith("[Error")` test used at document_service.py:130 and backend/main.py:75,148 holds only of text of at least six characters starting with `[`, so never of empty text |
| DocumentService.EmptyDocumentErrorIsReport | backend/services/document_service.py:134 | the empty-document message is an error report |
| DocumentService.DocumentHashSeparates | backend/services/document_service.py:15-17 | the cache key, the MD5 of the UTF-8 encoding of the data URL, tells two data URLs apart exactly when MD5 does not collide on their encodings |
| DocumentService.Base64Payload | backend/services/document_service.py:110-112 | the payload holds no comma and is no longer than the data; data without a comma is taken whole, data with one loses at least the header's comma |
| DocumentService.DataUrlPayload | backend/services/document_service.py:110-112 | a data URL `header,payload` yields the payload; data without a comma is taken whole |
| DocumentService.SelectExtractorIgnoresCase | backend/services/document_service.py:118-124 | the suffix test does not depend on the case of the name |
| DocumentService.SelectExtractor | backend/services/document_service.py:117-125 | an extractor is chosen only when its MIME type or its lower-cased suffix names it |
| DocumentService.SelectExtractorPrecedence | backend/services/document_service.py:117-127 | PDF wins over DOCX, which wins over TXT; a file is unsupported exactly when neither its MIME type nor its suffix is known |
| DocumentService.LowerSuffix | backend/services/document_service.py:118-124 | a name ending in a lower-case suffix still ends in it after lower-casing |
| DocumentService.ExtractTextFromPdf | backend/services/document_service.py:19-42 | the text is the first 50 page texts (or fewer) joined by newlines, or the PDF error with the library's message |
| DocumentService.BlankIffStripsToEmpty | backend/services/document_service.py:55 | a paragraph counts as blank exactly when `strip()` leaves nothing |
| DocumentService.NonBlank | backend/services/document_service.py:53-56 | filtering keeps at most as many paragraphs as there were |
| DocumentService.NonBlankKeeps | backend/services/document_service.py:53-56 | exactly the paragraphs that are not blank are kept |
| DocumentService.ExtractTextFromDocx | backend/services/document_service.py:44-64 | the text is the non-blank paragraphs, in order, joined by newlines, or the DOCX error with the library's message |
| DocumentService.ExtractTextFromTxt | backend/services/document_service.py:66-80 | the text is never longer than the bytes; well-formed UTF-8 is decoded as such, anything else is read as latin-1 |
| DocumentService.TxtRoundTrip | backend/services/document_service.py:66-80 | text saved as UTF-8 is read back unchanged |
| DocumentService.TxtFallback | backend/services/document_service.py:72-77 | bytes that are not UTF-8 are read as latin-1, so reading never fails; ASCII is read byte for byte; the text is never longer than the bytes |
| DocumentService.Usable | backend/services/document_service.py:130-134 | text the pipeline accepts is no error report and has at least ten characters |
| DocumentService.ValidateAsWritten | backend/services/document_service.py:129-134 | the check as written keeps the text or replaces it by the empty-document error; usable text is kept; any non-empty answer is an error report or usable |
| DocumentService.Validate | backend/services/document_service.py:129-134 | usable text is kept; anything else becomes an error report; the result is always an error report or usable |
| DocumentService.EmptyTextSlipsThrough | backend/services/document_service.py:129-134 | the check as written and the corrected check agree on all non-empty text; as written, empty text comes back as neither an error report nor usable text |
| DocumentService.ProcessUncached | backend/services/document_service.py:106-134 | every upload is answered with an error report or with usable text (the corrected pipeline of the Findings row; the pipeline as written is DocumentService.ProcessUncachedAsWritten) |
| DocumentService.ProcessUncachedAsWritten | backend/services/document_service.py:106-134 | the pipeline as written agrees with the corrected one on every non-empty answer, and answers empty text exactly where the corrected one reports an empty document |
| DocumentService.UnsupportedTypeReported | backend/services/document_service.py:126-127 | a decodable upload whose type and name select no extractor is answered `[Error: Unsupported file type - <type>]` |
| DocumentService.ProcessDecoded | backend/services/document_service.py:114-134 | once the payload decodes and an extractor is chosen, the answer is the validated extraction (the corrected pipeline of the Findings row; the pipeline as written is DocumentService.ProcessUncachedAsWritten) |
| DocumentService.EncodeHasNoComma | backend/services/document_service.py:110-114 | base 64 text holds no comma, so the split after a data-URL header keeps all of it |
| DocumentService.TextUploadRoundTrip | backend/services/document_service.py:106-134 | a UTF-8 text file uploaded as a data URL comes back as its own text when usable, and as the empty-document error when too short (the corrected pipeline of the Findings row; the pipeline as written is DocumentService.ProcessUncachedAsWritten) |
| DocumentService.EmptyPayload | backend/services/document_service.py:110-114 | the data URL of an empty file has an empty payload, which decodes to no bytes |
| DocumentService.EmptyTextUpload | backend/services/document_service.py:114-134 | an empty payload sent to the text extractor is reported as an empty document (the corrected pipeline of the Findings row; the pipeline as written is DocumentService.ProcessUncachedAsWritten) |
| DocumentService.EmptyTextFileAsWritten | backend/services/document_service.py:129-131 | an empty `.txt` upload extracts to empty text, which the check as written returns as a result and the pipeline as written answers; the corrected pipeline reports the empty document |
| DocumentService.SliceBound | backend/services/document_service.py:160-163 | a normalised slice bound lies within the text |
| DocumentService.PySlice | backend/services/document_service.py:160-163 | a slice is never longer than the text; in-range bounds give the plain slice, a negative start with the end at the length gives the tail, and an empty range gives nothing |
| DocumentService.Summarize | backend/services/document_service.py:150-166 | text within the budget is returned unchanged; longer text with a budget of at least three becomes 3·(budget div 3) characters plus the markers, at most the budget plus 49 |
| DocumentService.SummarizeSections | backend/services/document_service.py:150-166 | short text is its own summary; otherwise, with s = budget div 3, the summary is the first s characters, the s centred characters and the last s characters between the markers, of length 3s plus the markers |
| DocumentService.SummarizeTinyBudget | backend/services/document_service.py:159-165 | with a budget below three, `text[-0:]` makes the summary the markers followed by the whole text, longer than the text |
| DocumentService.Admit | backend/services/document_service.py:137-142 | the new key is the newest in the insertion order, at most ten keys stay held, and no key other than the new one appears |
| DocumentService.Store | backend/services/document_service.py:137-142 | the new key holds the new text unless it was itself evicted, it is always held while fewer than ten were; every other entry comes from the old cache unchanged, and all of them survive except the oldest once ten were held |
| DocumentService.AdmitKeepsBound | backend/services/document_service.py:137-142 | storing a new key keeps the keys distinct and at most ten, makes the new key the newest, and drops exactly the oldest key when ten were held |
| DocumentService.StoreKeepsInvariant | backend/services/document_service.py:136-142 | storing usable text under a new key keeps the cache invariant; the new entry holds the text and the surviving entries are unchanged |
| DocumentService.StoreEntries | backend/services/document_service.py:137-142 | after a store, the cache's keys are exactly the new insertion order |
| DocumentService.ProcessOutcome | backend/services/document_service.py:99-104 | a request is answered with the pipeline's answer or with text held in the cache; when the cache holds only usable text, the answer is an error report or usable |
| DocumentService.ProcessFresh | backend/services/document_service.py:106-134 | the uncached path computes the pipeline's answer: split, decode, dispatch, extract, validate (the corrected pipeline of the Findings row; the pipeline as written is DocumentService.ProcessUncachedAsWritten) |
| DocumentService.DocumentService.constructor | backend/services/document_service.py:13 | the cache starts empty |
| DocumentService.DocumentService.Remember | backend/services/document_service.py:136-142 | the new entry is stored and the oldest evicted once more than ten are held; the cache invariant is kept |
| DocumentService.DocumentService.ProcessDocument | backend/services/document_service.py:86-148 | a cache hit returns the cached text before anything else; otherwise the pipeline's answer, stored only when it is not an error report; every answer is an error report or usable (the corrected pipeline of the Findings row; the pipeline as written is DocumentService.ProcessUncachedAsWritten) |
| DocumentService.DocumentService.ClearDocumentCache | backend/services/document_service.py:168-172 | the cache is emptied |
| ChatServer.SessionKey | backend/main.py:57 | a null or empty session id becomes `"default"`; any other id is kept |
| ChatServer.QueryKey | backend/main.py:183-194 | the clear and status endpoints use the parameter as given: it is empty only for an empty id, where the chat endpoint would use `"default"`, and agrees with the chat endpoint's key otherwise |
| ChatServer.DocumentContext | backend/main.py:106-113 | the context handed to the model is at most 8000 characters and is the text itself when that fits |
| ChatServer.DocumentContextBounded | backend/main.py:108-113 | a document's context is at most 8000 characters: the text itself, or three 2000-character sections between the markers |
| ChatServer.Route | backend/main.py:62-126 | image analysis exactly when a non-empty image is sent; an upload carries the request's document; a question needs the session's document and gets at most 8000 characters of context; uploads and questions happen only in document mode |
| ChatServer.RouteCases | backend/main.py:62-126 | the scenario chosen, as an if-and-only-if per scenario: image first, then upload in document mode, then a question when the session holds a document, else plain chat |
| ChatServer.QuestionsSeeOwnDocument | backend/main.py:103-116 | routing ignores other sessions' documents; a question's context comes from the asker's own document |
| ChatServer.UploadReply | backend/main.py:87-94 | the reply names the file and then gives, in decimal digits, exactly the text's length |
| ChatServer.UploadAnswer | backend/main.py:75-100 | `document_loaded` is set exactly when the text is not an error report; an error report is answered in mode `"error"` with the report itself |
| ChatServer.EmptyUploadLoadedAsWritten | backend/main.py:73-100 | as written, an empty `.txt` upload is answered "loaded, 0 characters" with `document_loaded` and leaves the session holding unusable text; the corrected pipeline answers it with the empty-document error |
| ChatServer.ChatServer.constructor | backend/main.py:35 | no session holds a document at start |
| ChatServer.ChatServer.HandleChat | backend/main.py:45-126 | the reply and the new session map, per scenario: only a successful upload stores text and sets `document_loaded`; an error report gives mode `"error"`; an upload admits a fresh usable text into the document cache and leaves the cache alone on a hit or an error report; images, questions and plain chat change nothing (the corrected pipeline of the Findings row; the pipeline as written is DocumentService.ProcessUncachedAsWritten) |
| ChatServer.ChatServer.HandleUpload | backend/main.py:69-100 | an upload stores the processed text under the session unless it is an error report, replies with the file name and text length, and admits a fresh usable text into the document cache, leaving the cache alone on a hit or an error report (the corrected pipeline of the Findings row; the pipeline as written is DocumentService.ProcessUncachedAsWritten) |
| ChatServer.ChatServer.ClearDocument | backend/main.py:182-188 | removes exactly the session's entry and reports `cleared` or `not_found` |
| ChatServer.ChatServer.DocumentStatus | backend/main.py:191-201 | `has_document` holds exactly when the session holds text; the length is that text's length, or 0 |
| ChatServer.HandleVoice | backend/main.py:138-173 | a failed transcription is the answer; every reported error is non-empty; an answer carries the transcript, the voice reply to it and non-empty base 64 audio whose length is a multiple of four |
| ChatServer.TtsFailureReported | backend/main.py:160-163 | speech synthesis yielding nothing or bytes starting with `[Error` makes the answer `{"error": "TTS generation failed"}` |
| ChatServer.TranscriptionFailureShortCircuits | backend/main.py:147-150 | a failed transcription alone decides the answer; the reply and speech services are never consulted |
| ChatServer.VoiceAudioRoundTrip | backend/main.py:155-173 | an answer's audio is non-empty synthesised speech of its reply, restored exactly by `b64decode` and by `atob` |
| ChatWindow.AcceptsFileExamples | frontend/src/components/ChatWindow.jsx:151-159 | the suffix test is case-sensitive and knows no `.pdf`; the size cap is 10 MiB |
| ChatWindow.AcceptsFile | frontend/src/components/ChatWindow.jsx:151-159 | an accepted file is at most 10 MiB; a file of a listed MIME type within the cap is accepted; one accepted without a listed type has a name of at least four characters |
| ChatWindow.RequestMode | frontend/src/components/ChatWindow.jsx:43 | the mode is never empty; a missing or empty override uses the active tab's mode; otherwise the override is used |
| ChatWindow.ReplyTexts | frontend/src/components/ChatWindow.jsx:55-87 | a round trip appends the reply, or the apology when it failed; two messages appear exactly when the reply claims a document was loaded but none was sent |
| ChatWindow.BotMessages | frontend/src/components/ChatWindow.jsx:60-66 | one bot message is appended per reply text |
| ChatWindow.WithoutId | frontend/src/components/ChatWindow.jsx:124 | the filter never lengthens the transcript and leaves no message with the removed id |
| ChatWindow.WithoutIdKeeps | frontend/src/components/ChatWindow.jsx:124 | the filter keeps exactly the messages with another id |
| ChatWindow.RetextId | frontend/src/components/ChatWindow.jsx:130-132 | the map-replace keeps the transcript's length |
| ChatWindow.IncreasingBelowLast | frontend/src/components/ChatWindow.jsx:111-116 | every message before the placeholder has a smaller id |
| ChatWindow.WithoutAbsentId | frontend/src/components/ChatWindow.jsx:124 | filtering out an id no message carries changes nothing |
| ChatWindow.RemoveFreshPlaceholder | frontend/src/components/ChatWindow.jsx:123-128 | removing the fresh placeholder restores the transcript exactly |
| ChatWindow.RetextFreshPlaceholder | frontend/src/components/ChatWindow.jsx:130-132 | rewriting the fresh placeholder changes its text and nothing else |
| ChatWindow.ChatWindow.constructor | frontend/src/components/ChatWindow.jsx:16-24 | the transcript is the welcome message alone; the window is idle on the chat tab with no document |
| ChatWindow.ChatWindow.IsChatEmpty | frontend/src/components/ChatWindow.jsx:34 | the chat counts as empty exactly when the transcript is the welcome message alone (the constructor ensures it is empty at start, `Post` that it is not after any message) |
| ChatWindow.ChatWindow.CanSend | frontend/src/components/ChatWindow.jsx:385 | the send button is enabled exactly when the window is not busy and the input holds a character that is not whitespace |
| ChatWindow.ChatWindow.ControlsEnabled | frontend/src/components/ChatWindow.jsx:350-380 | the upload and screenshot buttons and the input box are disabled while busy, and enabled whenever the send button is |
| ChatWindow.ChatWindow.SetInput | frontend/src/components/ChatWindow.jsx:373 | the input box holds the typed text |
| ChatWindow.ChatWindow.Post | frontend/src/components/ChatWindow.jsx:93-99 | a message with a fresh id is appended, after which the chat no longer counts as empty |
| ChatWindow.ChatWindow.SendMessageToBackend | frontend/src/components/ChatWindow.jsx:36-88 | the payload uses the override mode or the active tab; the reply or apology is appended; a loaded document is shown on the document tab; the busy flag is clear afterwards |
| ChatWindow.ChatWindow.HandleSend | frontend/src/components/ChatWindow.jsx:90-104 | a blank input or a busy window changes nothing; otherwise the trimmed text is posted and sent in the tab's mode, the box is cleared, and exactly two messages are added unless the reply claims a document |
| ChatWindow.ChatWindow.SendTyped | frontend/src/components/ChatWindow.jsx:93-103 | posts the user's text, clears the box and sends it |
| ChatWindow.ChatWindow.HandleCaptureScreenshot | frontend/src/components/ChatWindow.jsx:106-145 | nothing while busy; a dismissed or empty prompt restores the transcript; a caption rewrites only the placeholder and is sent in chat mode with the image; a capture failure rewrites the placeholder to the error note; flags are clear afterwards |
| ChatWindow.ChatWindow.SendCaption | frontend/src/components/ChatWindow.jsx:130-134 | the placeholder shows the caption, and caption and image go out in chat mode |
| ChatWindow.ChatWindow.RetextPlaceholder | frontend/src/components/ChatWindow.jsx:138-140 | only the last message's text changes |
| ChatWindow.ChatWindow.RemovePlaceholder | frontend/src/components/ChatWindow.jsx:124 | only the last message is removed |
| ChatWindow.ChatWindow.HandleFileUpload | frontend/src/components/ChatWindow.jsx:147-197 | a file is accepted exactly when its type or `.txt`/`.docx` name qualifies and it is at most 10 MiB; a refusal changes nothing; an accepted file makes the window busy on the document tab, undone only if starting the read throws |
| ChatWindow.ChatWindow.OnFileRead | frontend/src/components/ChatWindow.jsx:166-184 | after the read, the upload note is appended and the summarise prompt is sent in document mode with the data URL; a refused upload leaves the tab as it was |
| ChatWindow.ChatWindow.ClearDocument | frontend/src/components/ChatWindow.jsx:199-217 | the document is forgotten, the chat tab is active, the confirmation is appended whatever the backend says, and the clear request names the window's own session |
| ChatWindow.ChatWindow.CheckStatus | frontend/src/components/ChatWindow.jsx:219-233 | only a probe reporting a document shows `Loaded document` on the document tab; a failure changes nothing |
| VoiceOverlay.CheckVoiceResponse | frontend/src/components/VoiceAgentOverlay.jsx:60-80 | a response is accepted exactly when it was delivered with no error and all three fields present; a transport failure shows its message; a non-ok status shows `Server error: ` followed by the status in decimal digits and the status text; a reported error becomes the message; otherwise a missing field gives `Incomplete response from server` |
| VoiceOverlay.CharCodes | frontend/src/components/VoiceAgentOverlay.jsx:16-20 | one byte per character |
| VoiceOverlay.CharCodesLatin1 | frontend/src/components/VoiceAgentOverlay.jsx:12-20 | the character codes of a binary string are the bytes it came from |
| VoiceOverlay.ToByteArray | frontend/src/components/VoiceAgentOverlay.jsx:15-20 | a slice's bytes are its character codes modulo 256 |
| VoiceOverlay.B64ToBlob | frontend/src/components/VoiceAgentOverlay.jsx:10-28 | null exactly when `atob` throws; otherwise the slices concatenate to the decoded bytes, every slice is non-empty and at most `sliceSize`, and all but the last are full |
| VoiceOverlay.VoiceOverlay.constructor | frontend/src/components/VoiceAgentOverlay.jsx:31-38 | idle, showing `Press to speak` and the greeting, with no error |
| VoiceOverlay.VoiceOverlay.MicDisabled | frontend/src/components/VoiceAgentOverlay.jsx:252 | the microphone button is disabled exactly while a reply is awaited or spoken, and never for both reasons at once |
| VoiceOverlay.VoiceOverlay.HandleMicButtonClick | frontend/src/components/VoiceAgentOverlay.jsx:154-174 | stops a running recording; otherwise starts one and clears the last turn unless the button is disabled, in which case nothing changes; once started, the greeting never returns |
| VoiceOverlay.VoiceOverlay.HandleVoiceStop | frontend/src/components/VoiceAgentOverlay.jsx:50-55 | shows `Processing...`, awaits the reply, not speaking, no error |
| VoiceOverlay.VoiceOverlay.Fail | frontend/src/components/VoiceAgentOverlay.jsx:130-138 | any failure shows `Error occurred` with its message, an empty turn, and neither processing nor speaking |
| VoiceOverlay.VoiceOverlay.OnVoiceResponse | frontend/src/components/VoiceAgentOverlay.jsx:60-128 | a rejected response or undecodable audio shows the failure; a good one shows the turn, `Speaking...`, and a fresh object URL holding exactly the decoded audio |
| VoiceOverlay.VoiceOverlay.PresentTurn | frontend/src/components/VoiceAgentOverlay.jsx:82-97 | shows the turn and stops processing before decoding; a decode failure shows `Failed to decode audio` |
| VoiceOverlay.VoiceOverlay.AttachAudio | frontend/src/components/VoiceAgentOverlay.jsx:94-97 | a new, previously unused object URL becomes the audio source |
| VoiceOverlay.VoiceOverlay.OnPlay | frontend/src/components/VoiceAgentOverlay.jsx:109-112 | playing sets speaking |
| VoiceOverlay.VoiceOverlay.OnPlayRejected | frontend/src/components/VoiceAgentOverlay.jsx:99-107 | a refused `play()` shows the playback error and `Press to speak` but keeps the URL alive |
| VoiceOverlay.VoiceOverlay.OnEnded | frontend/src/components/VoiceAgentOverlay.jsx:114-119 | shows `Press to speak`, stops speaking, revokes the URL |
| VoiceOverlay.VoiceOverlay.OnError | frontend/src/components/VoiceAgentOverlay.jsx:121-127 | shows the playback error and `Press to speak`, stops speaking, revokes the URL |
| EndToEnd.SentMessagesRoute | frontend/src/components/ChatWindow.jsx:39-45 | a typed message from the chat tab is plain chat; from the document tab it is a question about the session's document when one is stored, else plain chat |
| EndToEnd.ScreenshotRoutesToImage | frontend/src/components/ChatWindow.jsx:134 | a screenshot question is image analysis whatever the tab and the stored document |
| EndToEnd.FileReadRoutesToUpload | frontend/src/components/ChatWindow.jsx:169-183 | the request sent after a read is an upload of exactly that file |
| EndToEnd.ClearTargetsUploadSession | frontend/src/components/ChatWindow.jsx:204 | the window's clear request removes the entry its uploads are stored under when the session id is non-empty; with an empty id the clear and the uploads address different sessions |
| EndToEnd.AcceptedFilesAreSupported | frontend/src/components/ChatWindow.jsx:151-152 | every file the window accepts has a backend extractor |
| EndToEnd.WindowStricterThanBackend | frontend/src/components/ChatWindow.jsx:152 | `NOTES.TXT` without a MIME type is refused by the window, though the backend would read it as text |
| EndToEnd.TextFileUploadRoundTrip | frontend/src/components/ChatWindow.jsx:166-183 | a text file uploaded from the window comes back as its own text when usable, and as the empty-document error when too short (the corrected pipeline of the Findings row; the pipeline as written is DocumentService.ProcessUncachedAsWritten) |
| EndToEnd.VoiceAnswerIsPlayed | frontend/src/components/VoiceAgentOverlay.jsx:78-94 | a backend answer with non-empty parts is accepted, and the decoded audio is exactly the synthesised speech |
| EndToEnd.VoiceErrorIsShown | frontend/src/components/VoiceAgentOverlay.jsx:74-76 | a backend error is shown with exactly its text |

## Left out

- Base64.DecodeStrict: stands for Python's `base64.b64decode` only on canonical padded input. Python's default mode silently discards characters outside the alphabet, so for such payloads the model reports a processing error where Python might decode.
- Text.AsciiLower: stands for Python's `str.lower`. It decides the `.pdf`/`.docx`/`.txt` suffix tests the same way, but non-ASCII letters are not lower-cased.
- The messages of the exceptions that PyPDF2, python-docx and `b64decode` raise are opaque parameters. A failure while extracting one PDF page is folded into the reader failing.
- The MD5 digest, the PDF and DOCX parsers, and the language, vision, transcription and speech services are function parameters. The HTTP clients behind them are not part of this model.
- The chat and vision services (`backend/services/groq_service.py`, `backend/services/gemini_service.py`) catch their own exceptions and answer with an apology starting "Sorry, …". The chat endpoint passes that text on as an ordinary reply. Only transcription and speech synthesis (`backend/services/voice_service.py`) report failures with the `[Error` prefix: transcription as text, speech synthesis as bytes.
- The catch-all handler of the chat endpoint (`backend/main.py:128-133`) and of the voice endpoint (`:175-177`) are not modelled. They would only fire on an exception escaping a service, and every service modelled here catches its own.
- `summarize_document(document_text, max_chars=3000)` at `backend/main.py:82` has an unused result, so it is not modelled.
- A document field that is an empty dict (falsy in Python), or one lacking `name`, `type` or `data`, cannot be expressed. A request's document is always a complete record.
- Printing and logging are left out.
- Every asynchronous handler is one atomic step. Handlers that interleave while awaiting the network are not modelled. The two exceptions are the file reader's load event (`OnFileRead`) and the voice response (`OnVoiceResponse`), which are separate steps.
- FileReader error: a reader that fails after starting never fires its load event, so the window stays busy on the document tab. The model captures this only as the absence of an `OnFileRead` step.
- Message ids come from a counter, not `Date.now()`. Equal ids, which the id-based filter and map at `frontend/src/components/ChatWindow.jsx:124,130` would both touch, do not arise in the model.
- The session id is a constructor parameter; its `session_<time>_<random>` format is not modelled.
- VoiceOverlay.VoiceOverlay.OnPlay: requires that no reply is awaited. The race is not modelled in which the user records and stops again after the audio source is set but before playback starts.
- The audio element is assumed to be mounted. The `if (audioRef.current)` guard is always taken.
- Microphone permission, the recorder hook and the greeting sound are not modelled. The recorder's status is the `isRecording` field.
- Strings are sequences of Unicode scalar values. A Python `str` decoded from JSON can hold a lone surrogate, on which `.encode()` in `get_document_hash` raises and the pipeline answers `[Error: Failed to process document - …]`; such input cannot be expressed here.
- JavaScript strings are UTF-16. `atob` only yields codes below 256, so `charCodeAt` is the character itself.
- Rendering, Prism highlighting, `formatBotMessage`, scrolling, the file input reset, `alert` and CSS are left out.
- The pages and components outside the chat window and voice overlay, and the CORS, root and health endpoints, are not part of this model.

## Findings

| source | as written | input that shows it | evidently intended | confidence | as-written member | corrected member |
|---|---|---|---|---|---|---|
| backend/services/document_service.py:129-134 | `if not text or text.startswith("[Error"): return text` returns empty extracted text as the result. That text is neither an error report nor usable. The chat endpoint then stores `""` for the session and replies "Document loaded successfully" with 0 characters. | an empty `.txt` file, uploaded as `data:text/plain;base64,` (also a PDF with no pages, or a DOCX whose paragraphs are all blank) | empty text is reported as `[Error: Document appears to be empty or unreadable]`, like any text shorter than ten characters once stripped | not executed | ChatServer.EmptyUploadLoadedAsWritten | DocumentService.Validate |
