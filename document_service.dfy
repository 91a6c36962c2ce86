/**
 * The backend's document pipeline: decode an uploaded data URL, pick an
 * extractor by MIME type or file-name suffix, extract text from PDF, DOCX or
 * plain-text bytes, reject unusable text, and remember the result in a
 * process-wide cache of at most ten documents keyed by the MD5 of the upload.
 * Also the head/middle/tail summary used to bound the context handed to the
 * language model.
 */
module DocumentService {
  import opened Text
  import Base64
  import Utf8

  /** An uploaded document as the chat request carries it: name, MIME type, data URL and size. */
  datatype Document = Document(name: string, contentType: string, data: string, size: int)

  datatype FileKind = Pdf | Docx | Txt

  /** What the PDF library makes of the bytes: the text of every page, or the message of the exception it raised. */
  datatype PdfReader = PdfUnreadable(message: string) | PdfPages(pages: seq<string>)

  /** What the DOCX library makes of the bytes: the text of every paragraph, or the message of the exception it raised. */
  datatype DocxReader = DocxUnreadable(message: string) | DocxParagraphs(paragraphs: seq<string>)

  /**
   * The foreign code the pipeline calls: the MD5 hex digest, the PDF and
   * DOCX parsers, and the message of the exception `base64.b64decode` raises
   * for a payload it refuses.
   */
  datatype Libraries = Libraries(
    md5Hex: seq<Byte> -> string,
    readPdf: seq<Byte> -> PdfReader,
    readDocx: seq<Byte> -> DocxReader,
    base64ErrorMessage: string -> string)

  const PdfMime: string := "application/pdf"
  const DocxMime: string := "application/vnd.openxmlformats-officedocument.wordprocessingml.document"
  const TxtMime: string := "text/plain"

  const MaxPdfPages: nat := 50
  const MaxCachedDocuments: nat := 10
  const MinTextLength: nat := 10

  /** Every failure of the pipeline is reported as text starting with this prefix. */
  const ErrorPrefix: string := "[Error"
  const EmptyDocumentError: string := ErrorPrefix + ": Document appears to be empty or unreadable]"
  const MiddleMarker: string := "\n\n[...middle section...]\n\n"
  const EndMarker: string := "\n\n[...end section...]\n\n"

  /** The `startswith("[Error")` test by which the service and the endpoints tell a failure from extracted text: in particular the empty text is no error report. */
  predicate IsErrorReport(text: string)
    ensures IsErrorReport(text) ==> |text| >= 6 && text[0] == '['
  {
    StartsWith(text, ErrorPrefix)
  }

  /** A failure message `[Error: <what> - <detail>]`: an error report that ends with the detail it was given. */
  function Report(what: string, detail: string): (r: string)
    ensures IsErrorReport(r)
    ensures EndsWith(r, " - " + detail + "]")
  {
    var r := ErrorPrefix + ": " + what + " - " + detail + "]";
    assert r[..|ErrorPrefix|] == ErrorPrefix;
    assert r[|r| - |" - " + detail + "]"|..] == " - " + detail + "]";
    r
  }

  function PdfError(message: string): string { Report("Could not read PDF", message) }

  function DocxError(message: string): string { Report("Could not read DOCX", message) }

  function UnsupportedType(fileType: string): string { Report("Unsupported file type", fileType) }

  function ProcessingError(message: string): string { Report("Failed to process document", message) }

  lemma EmptyDocumentErrorIsReport()
    ensures IsErrorReport(EmptyDocumentError)
  {
    assert (ErrorPrefix + ": Document appears to be empty or unreadable]")[..|ErrorPrefix|] == ErrorPrefix;
  }

  function Min(a: nat, b: nat): nat { if a < b then a else b }

  // ---------------------------------------------------------------------
  // Hashing and payload extraction

  /** The cache key: the MD5 hex digest of the UTF-8 encoding of the data URL. */
  function DocumentHash(data: string, libs: Libraries): string {
    libs.md5Hex(Utf8.Encode(data))
  }

  /** Distinct data URLs get distinct cache keys unless MD5 collides on their encodings: UTF-8 encoding loses nothing. */
  lemma {:induction false} DocumentHashSeparates(a: string, b: string, libs: Libraries)
    requires libs.md5Hex(Utf8.Encode(a)) == libs.md5Hex(Utf8.Encode(b)) ==> Utf8.Encode(a) == Utf8.Encode(b)
    ensures DocumentHash(a, libs) == DocumentHash(b, libs) <==> a == b
  {
    Utf8.DecodeEncode(a);
    Utf8.DecodeEncode(b);
  }

  /** The base 64 text of an upload: the field after the first comma when the data holds one, else the data itself. */
  function Base64Payload(data: string): (p: string)
    ensures ',' !in p
    ensures |p| <= |data|
    ensures ',' !in data ==> p == data
    ensures ',' in data ==> |p| < |data|
  {
    if ',' in data then SecondCommaField(data) else data
  }

  /** A data URL `<header>,<payload>` yields its payload; data without a comma is taken whole. */
  lemma DataUrlPayload(header: string, payload: string)
    requires ',' !in header && ',' !in payload
    ensures Base64Payload(header + "," + payload) == payload
    ensures Base64Payload(payload) == payload
  {
    var s := header + "," + payload;
    assert s[..|header|] == header;
    assert s[|header|] == ',';
    var i := IndexOf(s, ',');
    assert i == |header|;
    assert s[i + 1..] == payload;
  }

  // ---------------------------------------------------------------------
  // Choosing an extractor

  /** The extractor for a MIME type and file name: PDF, then DOCX, then plain text, each chosen by exact MIME type or by case-insensitive suffix. */
  function SelectExtractor(fileType: string, name: string): (r: Option<FileKind>)
    ensures r == Some(Pdf) ==> fileType == PdfMime || EndsWith(AsciiLower(name), ".pdf")
    ensures r == Some(Docx) ==> fileType == DocxMime || EndsWith(AsciiLower(name), ".docx")
    ensures r == Some(Txt) ==> fileType == TxtMime || EndsWith(AsciiLower(name), ".txt")
  {
    var lowered := AsciiLower(name);
    if fileType == PdfMime || EndsWith(lowered, ".pdf") then Some(Pdf)
    else if fileType == DocxMime || EndsWith(lowered, ".docx") then Some(Docx)
    else if fileType == TxtMime || EndsWith(lowered, ".txt") then Some(Txt)
    else None
  }

  /** The suffix test ignores the case of the name. */
  lemma SelectExtractorIgnoresCase(fileType: string, name: string)
    ensures SelectExtractor(fileType, AsciiLower(name)) == SelectExtractor(fileType, name)
  {
    AsciiLowerIdempotent(name);
  }

  /** A PDF MIME type or `.pdf` name selects the PDF extractor whatever else holds; a DOCX one the DOCX extractor unless PDF already matched; a type is unsupported exactly when neither its MIME type nor its suffix is known. */
  lemma SelectExtractorPrecedence(fileType: string, name: string)
    ensures fileType == PdfMime ==> SelectExtractor(fileType, name) == Some(Pdf)
    ensures fileType == DocxMime && !EndsWith(AsciiLower(name), ".pdf") ==> SelectExtractor(fileType, name) == Some(Docx)
    ensures fileType == TxtMime && !EndsWith(AsciiLower(name), ".pdf") && !EndsWith(AsciiLower(name), ".docx")
            ==> SelectExtractor(fileType, name) == Some(Txt)
    ensures SelectExtractor(fileType, name).None? <==>
              fileType != PdfMime && fileType != DocxMime && fileType != TxtMime
              && !EndsWith(AsciiLower(name), ".pdf") && !EndsWith(AsciiLower(name), ".docx")
              && !EndsWith(AsciiLower(name), ".txt")
  {
  }

  /** A name ending in the lower-case suffix keeps it after lower-casing, so e.g. `report.pdf` is a PDF whatever its MIME type. */
  lemma LowerSuffix(name: string, suffix: string)
    requires EndsWith(name, suffix) && AsciiLower(suffix) == suffix
    ensures EndsWith(AsciiLower(name), suffix)
  {
    var l := AsciiLower(name);
    forall k | 0 <= k < |suffix| ensures l[|l| - |suffix| + k] == suffix[k] {
      assert name[|name| - |suffix| + k] == suffix[k];
      assert AsciiLowerChar(suffix[k]) == suffix[k] by {
        assert AsciiLower(suffix)[k] == AsciiLowerChar(suffix[k]);
      }
    }
    assert l[|l| - |suffix|..] == suffix;
  }

  // ---------------------------------------------------------------------
  // Extractors

  /** Page texts of the first fifty pages at most, joined by newlines. */
  method ExtractTextFromPdf(fileData: seq<Byte>, libs: Libraries) returns (text: string)
    ensures libs.readPdf(fileData).PdfUnreadable? ==> text == PdfError(libs.readPdf(fileData).message)
    ensures libs.readPdf(fileData).PdfPages? ==>
              var pages := libs.readPdf(fileData).pages;
              text == Join(pages[..Min(|pages|, MaxPdfPages)], "\n")
  {
    match libs.readPdf(fileData)
    case PdfUnreadable(message) =>
      text := PdfError(message);
    case PdfPages(pages) =>
      var textParts: seq<string> := [];
      var maxPages := Min(|pages|, MaxPdfPages);
      var pageNum := 0;
      while pageNum < maxPages
        invariant 0 <= pageNum <= maxPages
        invariant textParts == pages[..pageNum]
      {
        textParts := textParts + [pages[pageNum]];
        pageNum := pageNum + 1;
      }
      text := Join(textParts, "\n");
  }

  /** A paragraph of whitespace only. */
  predicate IsBlank(s: string) {
    forall i :: 0 <= i < |s| ==> IsPySpace(s[i])
  }

  /** A paragraph is blank exactly when `strip()` leaves nothing, the test the service makes. */
  lemma BlankIffStripsToEmpty(s: string)
    ensures IsBlank(s) <==> PyStrip(s) == ""
  {
    TrimEmptyIff(s, IsPySpace);
  }

  /** The paragraphs that hold something besides whitespace, in their order. */
  function NonBlank(paragraphs: seq<string>): (kept: seq<string>)
    ensures |kept| <= |paragraphs|
  {
    if paragraphs == [] then []
    else
      var last := paragraphs[|paragraphs| - 1];
      NonBlank(paragraphs[..|paragraphs| - 1]) + (if IsBlank(last) then [] else [last])
  }

  /** Exactly the paragraphs that are not blank are kept. */
  lemma {:induction false} NonBlankKeeps(paragraphs: seq<string>)
    ensures forall p :: p in NonBlank(paragraphs) <==> p in paragraphs && !IsBlank(p)
  {
    if paragraphs != [] {
      var init := paragraphs[..|paragraphs| - 1];
      NonBlankKeeps(init);
      assert paragraphs == init + [paragraphs[|paragraphs| - 1]];
    }
  }

  lemma NonBlankAppend(paragraphs: seq<string>, paragraph: string)
    ensures NonBlank(paragraphs + [paragraph]) == NonBlank(paragraphs) + (if IsBlank(paragraph) then [] else [paragraph])
  {
    assert (paragraphs + [paragraph])[..|paragraphs|] == paragraphs;
  }

  /** The non-blank paragraphs, joined by newlines. */
  method ExtractTextFromDocx(fileData: seq<Byte>, libs: Libraries) returns (text: string)
    ensures libs.readDocx(fileData).DocxUnreadable? ==> text == DocxError(libs.readDocx(fileData).message)
    ensures libs.readDocx(fileData).DocxParagraphs? ==>
              text == Join(NonBlank(libs.readDocx(fileData).paragraphs), "\n")
  {
    match libs.readDocx(fileData)
    case DocxUnreadable(message) =>
      text := DocxError(message);
    case DocxParagraphs(paragraphs) =>
      var textParts: seq<string> := [];
      var i := 0;
      while i < |paragraphs|
        invariant 0 <= i <= |paragraphs|
        invariant textParts == NonBlank(paragraphs[..i])
      {
        assert paragraphs[..i + 1] == paragraphs[..i] + [paragraphs[i]];
        NonBlankAppend(paragraphs[..i], paragraphs[i]);
        if !IsBlank(paragraphs[i]) {
          textParts := textParts + [paragraphs[i]];
        }
        i := i + 1;
      }
      assert paragraphs[..i] == paragraphs;
      text := Join(textParts, "\n");
  }

  /** UTF-8 when the bytes are well-formed UTF-8, latin-1 otherwise; this never fails. */
  function ExtractTextFromTxt(fileData: seq<Byte>): (t: string)
    ensures |t| <= |fileData|
    ensures Utf8.Decode(fileData).None? ==> t == Latin1(fileData)
    ensures Utf8.Decode(fileData).Some? ==> Utf8.Decode(fileData) == Some(t)
  {
    match Utf8.Decode(fileData)
    case Some(text) => text
    case None => Latin1(fileData)
  }

  /** Any text saved as UTF-8 is read back unchanged. */
  lemma TxtRoundTrip(s: string)
    ensures ExtractTextFromTxt(Utf8.Encode(s)) == s
  {
    Utf8.DecodeEncode(s);
  }

  /** ASCII bytes are read one character per byte; bytes that are not UTF-8 are read as latin-1, one character per byte with the byte's code. */
  lemma TxtFallback(fileData: seq<Byte>)
    ensures (forall i :: 0 <= i < |fileData| ==> fileData[i] < 0x80) ==> ExtractTextFromTxt(fileData) == Latin1(fileData)
    ensures Utf8.Decode(fileData).None? ==> ExtractTextFromTxt(fileData) == Latin1(fileData)
    ensures |ExtractTextFromTxt(fileData)| <= |fileData|
  {
    if forall i :: 0 <= i < |fileData| ==> fileData[i] < 0x80 {
      Utf8.DecodeAscii(fileData);
    }
  }

  /** The text an extractor yields for decoded bytes. */
  function ExtractedText(kind: FileKind, fileData: seq<Byte>, libs: Libraries): string {
    match kind
    case Pdf =>
      (match libs.readPdf(fileData)
       case PdfUnreadable(message) => PdfError(message)
       case PdfPages(pages) => Join(pages[..Min(|pages|, MaxPdfPages)], "\n"))
    case Docx =>
      (match libs.readDocx(fileData)
       case DocxUnreadable(message) => DocxError(message)
       case DocxParagraphs(paragraphs) => Join(NonBlank(paragraphs), "\n"))
    case Txt => ExtractTextFromTxt(fileData)
  }

  // ---------------------------------------------------------------------
  // Validation

  /** Text the pipeline accepts and caches: not an error report, and at least ten characters once stripped. */
  predicate Usable(text: string)
    ensures Usable(text) ==> |text| >= MinTextLength && !IsErrorReport(text)
  {
    !IsErrorReport(text) && |PyStrip(text)| >= MinTextLength
  }

  /** The extraction check as the service writes it: empty text is handed back as it is, like an error report. */
  function ValidateAsWritten(text: string): (r: string)
    ensures r == text || r == EmptyDocumentError
    ensures Usable(text) ==> r == text
    ensures text != "" ==> IsErrorReport(r) || Usable(r)
  {
    EmptyDocumentErrorIsReport();
    if text == "" || IsErrorReport(text) then text
    else if |PyStrip(text)| < MinTextLength then EmptyDocumentError
    else text
  }

  /** The extraction check with empty text reported as empty: error reports pass through, text too short once stripped becomes the empty-document error, usable text is kept. */
  function Validate(text: string): (r: string)
    ensures Usable(text) ==> r == text
    ensures !Usable(text) ==> IsErrorReport(r)
    ensures IsErrorReport(r) || Usable(r)
  {
    EmptyDocumentErrorIsReport();
    if IsErrorReport(text) then text
    else if |PyStrip(text)| < MinTextLength then EmptyDocumentError
    else text
  }

  /** The two checks differ only on empty text, which the service lets through as neither an error report nor usable text. */
  lemma EmptyTextSlipsThrough(text: string)
    ensures text != "" ==> ValidateAsWritten(text) == Validate(text)
    ensures ValidateAsWritten("") == "" && !IsErrorReport(ValidateAsWritten("")) && !Usable(ValidateAsWritten(""))
    ensures Validate("") == EmptyDocumentError
  {
    assert !IsErrorReport("");
  }

  // ---------------------------------------------------------------------
  // The whole pipeline without the cache

  /** Decode the payload, select an extractor, extract and validate. */
  function ProcessUncached(document: Document, libs: Libraries): (r: string)
    ensures IsErrorReport(r) || Usable(r)
  {
    var payload := Base64Payload(document.data);
    match Base64.DecodeStrict(payload)
    case None => ProcessingError(libs.base64ErrorMessage(payload))
    case Some(fileData) =>
      match SelectExtractor(document.contentType, document.name)
      case None => UnsupportedType(document.contentType)
      case Some(kind) => Validate(ExtractedText(kind, fileData, libs))
  }

  /** The pipeline as the service writes it, with the extraction check that lets empty text through: it differs from the corrected pipeline only by answering empty text where that one reports an empty document. */
  function ProcessUncachedAsWritten(document: Document, libs: Libraries): (r: string)
    ensures r != "" ==> r == ProcessUncached(document, libs)
    ensures r == "" ==> ProcessUncached(document, libs) == EmptyDocumentError
    ensures IsErrorReport(r) || Usable(r) || r == ""
  {
    var payload := Base64Payload(document.data);
    match Base64.DecodeStrict(payload)
    case None => ProcessingError(libs.base64ErrorMessage(payload))
    case Some(fileData) =>
      match SelectExtractor(document.contentType, document.name)
      case None => UnsupportedType(document.contentType)
      case Some(kind) =>
        var text := ExtractedText(kind, fileData, libs);
        EmptyTextSlipsThrough(text);
        ValidateAsWritten(text)
  }

  /** The unsupported-type report, spelled out. */
  lemma UnsupportedTypeText(t: string)
    ensures UnsupportedType(t) == "[Error: Unsupported file type - " + t + "]"
  {
    var lead := ErrorPrefix + ": " + "Unsupported file type" + " - ";
    assert lead == "[Error: Unsupported file type - ";
  }

  /** A type neither the MIME type nor the name makes supported is reported with the type it named, once the payload decodes. */
  lemma UnsupportedTypeReported(document: Document, libs: Libraries)
    requires Base64.DecodeStrict(Base64Payload(document.data)).Some?
    requires SelectExtractor(document.contentType, document.name).None?
    ensures ProcessUncached(document, libs) == "[Error: Unsupported file type - " + document.contentType + "]"
  {
    assert ProcessUncached(document, libs) == UnsupportedType(document.contentType);
    UnsupportedTypeText(document.contentType);
  }

  /** Once the payload decodes and an extractor is chosen, the answer is the validated extraction. */
  lemma ProcessDecoded(document: Document, libs: Libraries, fileData: seq<Byte>, kind: FileKind)
    requires Base64.DecodeStrict(Base64Payload(document.data)) == Some(fileData)
    requires SelectExtractor(document.contentType, document.name) == Some(kind)
    ensures ProcessUncached(document, libs) == Validate(ExtractedText(kind, fileData, libs))
  {
  }

  /** Base 64 text never holds a comma, so it can follow a data-URL header. */
  lemma EncodeHasNoComma(b: seq<Byte>)
    ensures ',' !in Base64.Encode(b)
  {
    var payload := Base64.Encode(b);
    var d := Base64.EncodeDigits(b);
    forall i | 0 <= i < |payload| ensures payload[i] != ',' {
      if i < |d| {
        assert payload[i] == d[i];
      }
    }
  }

  /**
   * A text file uploaded as a base 64 data URL of its UTF-8 bytes, under a
   * name not claiming PDF or DOCX, comes back as the file's text when that
   * text is usable, and as the empty-document error when it is too short.
   */
  lemma TextUploadRoundTrip(name: string, header: string, content: string, size: int, libs: Libraries)
    requires ',' !in header
    requires !EndsWith(AsciiLower(name), ".pdf") && !EndsWith(AsciiLower(name), ".docx")
    ensures var r := ProcessUncached(Document(name, TxtMime, header + "," + Base64.Encode(Utf8.Encode(content)), size), libs);
            && (Usable(content) ==> r == content)
            && (!IsErrorReport(content) && |PyStrip(content)| < MinTextLength ==> r == EmptyDocumentError)
  {
    var bytes := Utf8.Encode(content);
    var payload := Base64.Encode(bytes);
    var document := Document(name, TxtMime, header + "," + payload, size);
    EncodeHasNoComma(bytes);
    DataUrlPayload(header, payload);
    Base64.DecodeStrictEncode(bytes);
    TxtRoundTrip(content);
    SelectExtractorPrecedence(TxtMime, name);
    ProcessDecoded(document, libs, bytes, Txt);
    assert ExtractedText(Txt, bytes, libs) == content;
  }

  /** The data URL a browser produces for an empty text file. */
  const EmptyTextDataUrl: string := "data:text/plain;base64,"

  lemma EmptyPayload()
    ensures Base64Payload(EmptyTextDataUrl) == ""
    ensures Base64.DecodeStrict("") == Some([])
  {
    DataUrlPayload("data:text/plain;base64", "");
    assert "data:text/plain;base64" + "," + "" == EmptyTextDataUrl;
  }

  lemma EmptyBytesExtractNothing(libs: Libraries)
    ensures ExtractedText(Txt, [], libs) == ""
  {
  }

  /** Any upload whose payload is empty and whose type selects the text extractor is reported as empty. */
  lemma EmptyTextUpload(document: Document, libs: Libraries)
    requires Base64Payload(document.data) == ""
    requires SelectExtractor(document.contentType, document.name) == Some(Txt)
    ensures ProcessUncached(document, libs) == EmptyDocumentError
  {
    EmptyPayload();
    EmptyBytesExtractNothing(libs);
    EmptyTextSlipsThrough("");
    ProcessDecoded(document, libs, [], Txt);
  }

  lemma EmptyNameSelectsTxt()
    ensures SelectExtractor(TxtMime, "empty.txt") == Some(Txt)
  {
    assert AsciiLower("empty.txt") == "empty.txt";
  }

  /** An empty `.txt` upload extracts to empty text; the service's check hands that back as a result, the corrected check reports it. */
  lemma EmptyTextFileAsWritten(libs: Libraries)
    ensures Base64Payload(EmptyTextDataUrl) == ""
    ensures ExtractedText(Txt, [], libs) == ""
    ensures ValidateAsWritten(ExtractedText(Txt, [], libs)) == ""
    ensures !IsErrorReport(ValidateAsWritten(ExtractedText(Txt, [], libs)))
    ensures ProcessUncached(Document("empty.txt", TxtMime, EmptyTextDataUrl, 0), libs) == EmptyDocumentError
    ensures ProcessUncachedAsWritten(Document("empty.txt", TxtMime, EmptyTextDataUrl, 0), libs) == ""
  {
    EmptyPayload();
    EmptyBytesExtractNothing(libs);
    EmptyTextSlipsThrough("");
    EmptyNameSelectsTxt();
    EmptyTextUpload(Document("empty.txt", TxtMime, EmptyTextDataUrl, 0), libs);
  }

  // ---------------------------------------------------------------------
  // Summary for the model's context

  /** Python's normalisation of a slice bound for a sequence of length n: negative bounds count from the end, then both are clamped to [0, n]. */
  function SliceBound(n: nat, i: int): (k: nat)
    ensures k <= n
  {
    if i < 0 then (if n + i < 0 then 0 else n + i) else if i > n then n else i
  }

  /** Python's `s[i:j]`. */
  function PySlice(s: string, i: int, j: int): (r: string)
    ensures |r| <= |s|
    ensures 0 <= i <= j <= |s| ==> r == s[i..j]
    ensures i < 0 && -i <= |s| && j >= |s| ==> r == s[|s| + i..]
    ensures j <= i && (0 <= j || i < 0) ==> r == []
  {
    var a := SliceBound(|s|, i);
    var b := SliceBound(|s|, j);
    if a <= b then s[a..b] else []
  }

  /** Text no longer than the budget unchanged; longer text as its beginning, middle and end sections of a third of the budget each, separated by markers. */
  function Summarize(text: string, maxChars: int): (r: string)
    ensures |text| <= maxChars ==> r == text
    ensures |text| > maxChars >= 3 ==> |r| == 3 * (maxChars / 3) + |MiddleMarker| + |EndMarker| && |r| <= maxChars + 49
  {
    if |text| <= maxChars then text
    else
      var sectionSize := maxChars / 3;
      var beginning := PySlice(text, 0, sectionSize);
      var middleStart := |text| / 2 - sectionSize / 2;
      var middle := PySlice(text, middleStart, middleStart + sectionSize);
      var end := PySlice(text, -sectionSize, |text|);
      assert maxChars >= 3 ==> |beginning| == sectionSize && |middle| == sectionSize && |end| == sectionSize;
      beginning + MiddleMarker + middle + EndMarker + end
  }

  /** Text within the budget is its own summary; longer text, with a budget of at least three, becomes three slices of a third of the budget each (the first, a centred one and the last) between the markers, so the summary exceeds the budget by the markers' length at most. */
  lemma SummarizeSections(text: string, maxChars: int)
    ensures |text| <= maxChars ==> Summarize(text, maxChars) == text
    ensures maxChars >= 3 && |text| > maxChars ==>
              var s := maxChars / 3;
              var mid := |text| / 2 - s / 2;
              && 0 <= mid && mid + s <= |text|
              && Summarize(text, maxChars) == text[..s] + MiddleMarker + text[mid..mid + s] + EndMarker + text[|text| - s..]
              && |Summarize(text, maxChars)| == 3 * s + |MiddleMarker| + |EndMarker|
              && |Summarize(text, maxChars)| <= maxChars + |MiddleMarker| + |EndMarker|
  {
    if maxChars >= 3 && |text| > maxChars {
      var s := maxChars / 3;
      var n := |text|;
      var mid := n / 2 - s / 2;
      assert 3 * s <= maxChars < n;
      assert 0 <= mid && mid + s <= n;
      assert PySlice(text, 0, s) == text[..s];
      assert PySlice(text, mid, mid + s) == text[mid..mid + s];
      assert PySlice(text, -s, n) == text[n - s..];
    }
  }

  lemma MarkerLengths()
    ensures |MiddleMarker| == 26 && |EndMarker| == 23
  {
  }

  /** With a budget below three the sections are empty except the last, which Python's `text[-0:]` makes the whole text: the "summary" is the markers followed by the entire text. */
  lemma SummarizeTinyBudget(text: string, maxChars: int)
    requires 0 <= maxChars < 3 && |text| > maxChars
    ensures Summarize(text, maxChars) == MiddleMarker + EndMarker + text
    ensures |Summarize(text, maxChars)| > |text|
  {
    assert PySlice(text, 0, 0) == [];
    assert PySlice(text, -0, |text|) == text;
    var mid := |text| / 2;
    assert PySlice(text, mid, mid) == [];
  }

  // ---------------------------------------------------------------------
  // The cache

  predicate Distinct(keys: seq<string>) {
    forall i, j :: 0 <= i < j < |keys| ==> keys[i] != keys[j]
  }

  /** The insertion order after storing a new key: the key goes last, and once more than ten keys are held the oldest is dropped. */
  function Admit(order: seq<string>, key: string): (r: seq<string>)
    ensures |r| >= 1 && r[|r| - 1] == key
    ensures |order| <= MaxCachedDocuments ==> |r| <= MaxCachedDocuments
    ensures forall k :: k in r ==> k in order || k == key
  {
    if |order| + 1 > MaxCachedDocuments then order[1..] + [key] else order + [key]
  }

  /** Storing a new key keeps the keys distinct and at most ten, makes the new key the newest, and loses exactly the oldest key when ten were held and none otherwise. */
  lemma AdmitKeepsBound(order: seq<string>, key: string)
    requires Distinct(order) && |order| <= MaxCachedDocuments && key !in order
    ensures var next := Admit(order, key);
            && Distinct(next) && |next| <= MaxCachedDocuments
            && next[|next| - 1] == key
            && (|order| < MaxCachedDocuments ==> forall k :: k in next <==> k in order || k == key)
            && (|order| == MaxCachedDocuments ==> forall k :: k in next <==> (k in order && k != order[0]) || k == key)
  {
    var next := Admit(order, key);
    if |order| == MaxCachedDocuments {
      forall k | k in order && k != order[0] ensures k in next {
        var i :| 0 <= i < |order| && order[i] == k;
        assert next[i - 1] == k;
      }
      forall k | k in next && k != key ensures k in order && k != order[0] {
        var i :| 0 <= i < |next| && next[i] == k;
        assert order[i + 1] == k;
      }
    }
  }

  /** The cache holds usable text under at most ten distinct keys, and `order` lists exactly its keys. */
  ghost predicate CacheInvariant(cache: map<string, string>, order: seq<string>) {
    && |order| <= MaxCachedDocuments
    && Distinct(order)
    && (forall k :: k in cache <==> k in order)
    && (forall k :: k in cache ==> Usable(cache[k]))
  }

  /** The cache after storing usable text under a new key, the oldest entry evicted once more than ten are held. */
  function Store(cache: map<string, string>, order: seq<string>, key: string, text: string): (r: map<string, string>)
    ensures key in r ==> r[key] == text
    ensures |order| < MaxCachedDocuments ==> key in r
    ensures forall k :: k in r && k != key ==> k in cache && r[k] == cache[k]
    ensures forall k :: k in cache && k != key && (|order| < MaxCachedDocuments || k != order[0]) ==> k in r
  {
    if |order| + 1 > MaxCachedDocuments then cache[key := text] - {order[0]} else cache[key := text]
  }

  lemma DropOldest(order: seq<string>, key: string)
    ensures order != [] ==> (order + [key])[1..] == order[1..] + [key] && (order + [key])[0] == order[0]
  {
  }

  /** Storing usable text under a new key keeps the cache invariant. */
  lemma StoreKeepsInvariant(cache: map<string, string>, order: seq<string>, key: string, text: string)
    requires CacheInvariant(cache, order) && key !in cache && Usable(text)
    ensures CacheInvariant(Store(cache, order, key, text), Admit(order, key))
    ensures Store(cache, order, key, text)[key] == text
    ensures forall k :: k in Store(cache, order, key, text) && k != key ==> k in cache && Store(cache, order, key, text)[k] == cache[k]
  {
    AdmitKeepsBound(order, key);
    StoreEntries(cache, order, key, text);
    var next := Store(cache, order, key, text);
    forall k | k in next ensures Usable(next[k]) {
      if k != key {
        assert next[k] == cache[k];
      }
    }
  }

  lemma StoreEntries(cache: map<string, string>, order: seq<string>, key: string, text: string)
    requires |order| <= MaxCachedDocuments && Distinct(order) && (forall k :: k in cache <==> k in order) && key !in cache
    ensures key in Store(cache, order, key, text) && Store(cache, order, key, text)[key] == text
    ensures forall k :: k in Store(cache, order, key, text) && k != key ==> k in cache && Store(cache, order, key, text)[k] == cache[k]
    ensures forall k :: k in Store(cache, order, key, text) <==> k in Admit(order, key)
  {
    AdmitKeepsBound(order, key);
    var added := cache[key := text];
    if |order| + 1 > MaxCachedDocuments {
      assert Store(cache, order, key, text) == added - {order[0]};
      assert key != order[0];
    } else {
      assert Store(cache, order, key, text) == added;
    }
  }

  /** The outcome of a processing request against a cache: the cached text on a hit, the pipeline's answer otherwise. */
  function ProcessOutcome(cache: map<string, string>, document: Document, libs: Libraries): (r: string)
    ensures r == ProcessUncached(document, libs) || r in cache.Values
    ensures (forall k :: k in cache ==> Usable(cache[k])) ==> IsErrorReport(r) || Usable(r)
  {
    var key := DocumentHash(document.data, libs);
    if key in cache then cache[key] else ProcessUncached(document, libs)
  }

  /**
   * Runs the pipeline on an upload that is not cached: decode the payload,
   * choose the extractor, extract, validate. The answer is the pipeline's.
   */
  method ProcessFresh(document: Document, libs: Libraries) returns (text: string)
    ensures text == ProcessUncached(document, libs)
  {
    var payload := Base64Payload(document.data);
    var decoded := Base64.DecodeStrict(payload);
    if decoded.None? {
      return ProcessingError(libs.base64ErrorMessage(payload));
    }
    var fileData := decoded.value;
    var kind := SelectExtractor(document.contentType, document.name);
    if kind.None? {
      return UnsupportedType(document.contentType);
    }
    match kind.value {
      case Pdf => text := ExtractTextFromPdf(fileData, libs);
      case Docx => text := ExtractTextFromDocx(fileData, libs);
      case Txt => text := ExtractTextFromTxt(fileData);
    }
    if IsErrorReport(text) {
      return;
    }
    if |PyStrip(text)| < MinTextLength {
      return EmptyDocumentError;
    }
  }

  /** The module-level document cache and the operations on it. */
  class DocumentService {
    /** Hash of an upload to the text extracted from it. */
    var cache: map<string, string>
    /** The cache's keys, oldest first: the order in which a Python dict iterates them. */
    var order: seq<string>

    ghost predicate Valid()
      reads this
    {
      CacheInvariant(cache, order)
    }

    constructor ()
      ensures Valid()
      ensures cache == map[] && order == []
    {
      cache := map[];
      order := [];
    }

    /** Remembers usable text under a new key, evicting the oldest entry once more than ten are held. */
    method Remember(key: string, text: string)
      requires Valid() && key !in cache && Usable(text)
      modifies this
      ensures Valid()
      ensures order == Admit(old(order), key)
      ensures cache == Store(old(cache), old(order), key, text)
    {
      StoreKeepsInvariant(cache, order, key, text);
      DropOldest(order, key);
      cache := cache[key := text];
      order := order + [key];
      if |order| > MaxCachedDocuments {
        var oldestKey := order[0];
        cache := cache - {oldestKey};
        order := order[1..];
      }
    }

    /**
     * Answers a processing request: the cached text when the upload's hash
     * is known, otherwise the pipeline's answer, which is remembered when it
     * is usable. Every answer is an error report or usable text.
     */
    method ProcessDocument(document: Document, libs: Libraries) returns (text: string)
      requires Valid()
      modifies this
      ensures Valid()
      ensures text == ProcessOutcome(old(cache), document, libs)
      ensures IsErrorReport(text) || Usable(text)
      ensures var key := DocumentHash(document.data, libs);
              if key in old(cache) || IsErrorReport(text) then
                cache == old(cache) && order == old(order)
              else
                order == Admit(old(order), key) && cache == Store(old(cache), old(order), key, text)
    {
      var key := DocumentHash(document.data, libs);
      if key in cache {
        return cache[key];
      }
      text := ProcessFresh(document, libs);
      if IsErrorReport(text) {
        return;
      }
      Remember(key, text);
    }

    /** Empties the cache. */
    method ClearDocumentCache()
      modifies this
      ensures Valid()
      ensures cache == map[] && order == []
    {
      cache := map[];
      order := [];
    }
  }
}
