/**
 * The voice overlay of the frontend: a push-to-talk button that records
 * speech, sends it to the voice endpoint, shows the transcript and reply, and
 * plays the reply's audio from an object URL built by decoding its base 64
 * text in 512-character slices. Recorder, network and audio-element events
 * are separate steps; what the network answered is a parameter.
 */
module VoiceOverlay {
  import opened Text
  import Base64

  /** The voice endpoint's JSON body; a missing or null field is the empty string, as both are falsy. */
  datatype VoiceBody = VoiceBody(error: string, transcript: string, textResponse: string, audioB64: string)

  /** How the request to the voice endpoint ended: it threw (network or JSON error), came back with a non-ok status, or delivered a body. */
  datatype VoiceFetch =
    | FetchThrew(message: string)
    | NotOk(status: nat, statusText: string)
    | Delivered(body: VoiceBody)

  /** A complete voice turn. */
  datatype Turn = Turn(transcript: string, reply: string, audioB64: string)

  /** The overlay's verdict on a response: a turn to present, or the message of the error it throws. */
  datatype Verdict = Accepted(turn: Turn) | Rejected(message: string)

  const PressToSpeak: string := "Press to speak"
  const Listening: string := "Listening..."
  const Processing: string := "Processing..."
  const Speaking: string := "Speaking..."
  const ErrorOccurred: string := "Error occurred"
  const IncompleteResponse: string := "Incomplete response from server"
  const DecodeFailed: string := "Failed to decode audio"
  const PlaybackFailed: string := "Failed to play audio response"
  const AudioMime: string := "audio/wav"
  const AudioSliceSize: nat := 512

  /** Checks a response in order: transport failure, non-ok status, an error field, a missing part. */
  function CheckVoiceResponse(response: VoiceFetch): (v: Verdict)
    ensures v.Accepted? <==>
              && response.Delivered? && response.body.error == ""
              && response.body.transcript != "" && response.body.textResponse != "" && response.body.audioB64 != ""
    ensures v.Accepted? ==>
              v.turn == Turn(response.body.transcript, response.body.textResponse, response.body.audioB64)
    ensures response.Delivered? && response.body.error != "" ==> v == Rejected(response.body.error)
    ensures response.FetchThrew? ==> v == Rejected(response.message)
    ensures response.Delivered? && response.body.error == "" && !v.Accepted? ==> v == Rejected(IncompleteResponse)
    ensures response.NotOk? ==>
              && v.Rejected? && StartsWith(v.message, "Server error: ") && EndsWith(v.message, " " + response.statusText)
              && |"Server error: "| < |v.message| - |response.statusText| - 1
              && DecimalValue(v.message[|"Server error: "|..|v.message| - |response.statusText| - 1]) == response.status
  {
    match response
    case FetchThrew(message) => Rejected(message)
    case NotOk(status, statusText) =>
      var lead := "Server error: ";
      var digits := NatToString(status);
      var m := lead + digits + " " + statusText;
      assert m[..|lead|] == lead;
      assert m[|m| - |" " + statusText|..] == " " + statusText;
      assert m[|lead|..|m| - |statusText| - 1] == digits;
      Rejected(m)
    case Delivered(body) =>
      if body.error != "" then Rejected(body.error)
      else if body.transcript == "" || body.textResponse == "" || body.audioB64 == "" then Rejected(IncompleteResponse)
      else Accepted(Turn(body.transcript, body.textResponse, body.audioB64))
  }

  /** A `Uint8Array` stores each number modulo 256. */
  function ToUint8(n: int): Byte {
    n % 256
  }

  /** The bytes of a `Uint8Array` built from a string's character codes. */
  function CharCodes(s: string): (b: seq<Byte>)
    ensures |b| == |s|
  {
    seq(|s|, i requires 0 <= i < |s| => ToUint8(s[i] as int))
  }

  lemma CharCodesAppend(a: string, b: string)
    ensures CharCodes(a + b) == CharCodes(a) + CharCodes(b)
  {
  }

  /** The character codes of a binary string are the bytes it was made from. */
  lemma CharCodesLatin1(b: seq<Byte>)
    ensures CharCodes(Latin1(b)) == b
  {
  }

  lemma FlattenAppend(parts: seq<seq<Byte>>, part: seq<Byte>)
    ensures Flatten(parts + [part]) == Flatten(parts) + part
  {
    assert (parts + [part])[..|parts|] == parts;
  }

  lemma SliceStep(s: string, offset: nat, end: nat)
    requires offset <= end <= |s|
    ensures CharCodes(s[..end]) == CharCodes(s[..offset]) + CharCodes(s[offset..end])
  {
    assert s[..end] == s[..offset] + s[offset..end];
    CharCodesAppend(s[..offset], s[offset..end]);
  }

  /** The character codes of a slice, copied into a number array and then into a `Uint8Array`. */
  method ToByteArray(slice: string) returns (byteArray: seq<Byte>)
    ensures byteArray == CharCodes(slice)
  {
    var byteNumbers := new int[|slice|];
    var i := 0;
    while i < |slice|
      invariant 0 <= i <= |slice|
      invariant forall k :: 0 <= k < i ==> byteNumbers[k] == slice[k] as int
    {
      byteNumbers[i] := slice[i] as int;
      i := i + 1;
    }
    byteArray := seq(|slice|, k requires 0 <= k < |slice| reads byteNumbers => ToUint8(byteNumbers[k]));
  }

  /** A blob: its parts in order and its MIME type. */
  datatype Blob = Blob(parts: seq<seq<Byte>>, contentType: string)

  /**
   * Decodes base 64 into a blob of byte arrays of `sliceSize` bytes each (the
   * last one possibly shorter), or None where `atob` throws. The blob holds
   * exactly the decoded bytes.
   */
  method B64ToBlob(b64Data: string, contentType: string, sliceSize: nat) returns (blob: Option<Blob>)
    requires sliceSize > 0
    ensures blob.None? <==> Base64.Atob(b64Data).None?
    ensures blob.Some? ==>
              && blob.value.contentType == contentType
              && Flatten(blob.value.parts) == CharCodes(Base64.Atob(b64Data).value)
              && (forall i :: 0 <= i < |blob.value.parts| ==> 0 < |blob.value.parts[i]| <= sliceSize)
              && (forall i :: 0 <= i < |blob.value.parts| - 1 ==> |blob.value.parts[i]| == sliceSize)
  {
    var decoded := Base64.Atob(b64Data);
    if decoded.None? {
      return None;
    }
    var byteCharacters := decoded.value;
    var n := |byteCharacters|;
    var byteArrays: seq<seq<Byte>> := [];
    var offset := 0;
    while offset < n
      invariant Flatten(byteArrays) == CharCodes(byteCharacters[..if offset < n then offset else n])
      invariant forall i :: 0 <= i < |byteArrays| ==> 0 < |byteArrays[i]| <= sliceSize
      invariant forall i :: 0 <= i < |byteArrays| - 1 ==> |byteArrays[i]| == sliceSize
      invariant offset < n ==> forall i :: 0 <= i < |byteArrays| ==> |byteArrays[i]| == sliceSize
      decreases n - offset
    {
      var end := if offset + sliceSize < n then offset + sliceSize else n;
      var slice := byteCharacters[offset..end];
      var byteArray := ToByteArray(slice);
      SliceStep(byteCharacters, offset, end);
      FlattenAppend(byteArrays, byteArray);
      byteArrays := byteArrays + [byteArray];
      offset := offset + sliceSize;
    }
    assert byteCharacters[..n] == byteCharacters;
    return Some(Blob(byteArrays, contentType));
  }

  /** The URLs still live after the audio element's handlers revoke the one it plays. */
  function Revoked(liveUrls: set<nat>, source: Option<nat>): set<nat> {
    if source.Some? then liveUrls - {source.value} else liveUrls
  }

  /** The overlay's state: the React state hooks, the recorder's status and the audio element's source. */
  class VoiceOverlay {
    var statusText: string
    var transcript: string
    var botResponse: string
    var isProcessing: bool
    var isBotSpeaking: bool
    var error: Option<string>
    var showGif: bool
    var hasStarted: bool
    /** The recorder reports that it is recording. */
    var isRecording: bool
    /** The object URL the audio element plays, and the bytes of the blob behind it. */
    var audioSource: Option<nat>
    var audioBytes: seq<Byte>
    /** Object URLs created and not yet revoked; `nextUrl` is the next one to be created. */
    var liveUrls: set<nat>
    var nextUrl: nat

    /** The greeting animation shows exactly until the first recording starts; the bot never speaks while a reply is awaited; URLs are numbered in creation order. */
    ghost predicate Valid()
      reads this
    {
      && (showGif <==> !hasStarted)
      && (isProcessing ==> !isBotSpeaking)
      && (forall u :: u in liveUrls ==> u < nextUrl)
      && (audioSource.Some? ==> audioSource.value < nextUrl)
    }

    constructor ()
      ensures Valid()
      ensures statusText == PressToSpeak && transcript == "" && botResponse == ""
      ensures !isProcessing && !isBotSpeaking && error == None && showGif && !hasStarted && !isRecording
      ensures audioSource == None && liveUrls == {}
    {
      statusText := PressToSpeak;
      transcript := "";
      botResponse := "";
      isProcessing := false;
      isBotSpeaking := false;
      error := None;
      showGif := true;
      hasStarted := false;
      isRecording := false;
      audioSource := None;
      audioBytes := [];
      liveUrls := {};
      nextUrl := 0;
    }

    /** The microphone button is disabled while a reply is awaited or spoken. */
    function MicDisabled(): bool
      reads this
      ensures Valid() ==> (MicDisabled() <==> (isProcessing && !isBotSpeaking) || (isBotSpeaking && !isProcessing))
    {
      isProcessing || isBotSpeaking
    }

    /** The state shown after a failed turn. */
    ghost predicate ShowsFailure(message: string)
      reads this
    {
      && statusText == ErrorOccurred && error == Some(message)
      && transcript == "" && botResponse == ""
      && !isProcessing && !isBotSpeaking
    }

    /**
     * The microphone button: stops a running recording; otherwise, unless a
     * reply is awaited or spoken, hides the greeting, clears the last turn
     * and starts recording. Once started, the greeting never returns.
     */
    method HandleMicButtonClick()
      requires Valid()
      modifies this`isRecording, this`statusText, this`hasStarted, this`showGif, this`transcript, this`botResponse, this`error
      ensures Valid()
      ensures old(hasStarted) ==> hasStarted
      ensures old(isRecording) ==>
                && !isRecording && statusText == Processing
                && hasStarted == old(hasStarted) && transcript == old(transcript)
                && botResponse == old(botResponse) && error == old(error)
      ensures !old(isRecording) && !old(MicDisabled()) ==>
                && isRecording && statusText == Listening && hasStarted && !showGif
                && transcript == "" && botResponse == "" && error == None
      ensures !old(isRecording) && old(MicDisabled()) ==>
                && !isRecording && statusText == old(statusText) && hasStarted == old(hasStarted)
                && transcript == old(transcript) && botResponse == old(botResponse) && error == old(error)
    {
      if isRecording {
        isRecording := false;
        statusText := Processing;
      } else if !isProcessing && !isBotSpeaking {
        if !hasStarted {
          hasStarted := true;
        }
        showGif := false;
        transcript := "";
        botResponse := "";
        error := None;
        statusText := Listening;
        isRecording := true;
      }
    }

    /** The recorder's stop event: the recording goes to the voice endpoint and the overlay waits for the reply. */
    method HandleVoiceStop()
      requires Valid()
      modifies this`statusText, this`isProcessing, this`isBotSpeaking, this`error
      ensures Valid()
      ensures statusText == Processing && isProcessing && !isBotSpeaking && error == None
    {
      statusText := Processing;
      isProcessing := true;
      isBotSpeaking := false;
      error := None;
    }

    method Fail(message: string)
      requires Valid()
      modifies this`statusText, this`error, this`transcript, this`botResponse, this`isProcessing, this`isBotSpeaking
      ensures Valid()
      ensures ShowsFailure(message)
    {
      statusText := ErrorOccurred;
      error := Some(message);
      transcript := "";
      botResponse := "";
      isProcessing := false;
      isBotSpeaking := false;
    }

    /**
     * The voice endpoint's answer arrives: a rejected response or undecodable
     * audio shows the failure; otherwise transcript and reply are shown and
     * the audio element gets a fresh object URL for a blob holding exactly
     * the decoded audio bytes.
     */
    method OnVoiceResponse(response: VoiceFetch)
      requires Valid()
      modifies this`statusText, this`error, this`transcript, this`botResponse, this`isProcessing, this`isBotSpeaking,
               this`audioSource, this`audioBytes, this`liveUrls, this`nextUrl
      ensures Valid()
      ensures CheckVoiceResponse(response).Rejected? ==>
                && ShowsFailure(CheckVoiceResponse(response).message)
                && audioSource == old(audioSource) && liveUrls == old(liveUrls)
      ensures CheckVoiceResponse(response).Accepted? && Base64.Atob(CheckVoiceResponse(response).turn.audioB64).None? ==>
                && ShowsFailure(DecodeFailed)
                && audioSource == old(audioSource) && liveUrls == old(liveUrls)
      ensures CheckVoiceResponse(response).Accepted? && Base64.Atob(CheckVoiceResponse(response).turn.audioB64).Some? ==>
                var turn := CheckVoiceResponse(response).turn;
                && transcript == turn.transcript && botResponse == turn.reply
                && statusText == Speaking && !isProcessing
                && isBotSpeaking == old(isBotSpeaking) && error == old(error)
                && audioSource == Some(old(nextUrl)) && old(nextUrl) !in old(liveUrls)
                && liveUrls == old(liveUrls) + {old(nextUrl)}
                && audioBytes == CharCodes(Base64.Atob(turn.audioB64).value)
    {
      match CheckVoiceResponse(response)
      case Rejected(message) =>
        Fail(message);
      case Accepted(turn) =>
        PresentTurn(turn);
    }

    /** Shows a complete turn and hands its audio to the audio element, or shows the failure when the audio does not decode. */
    method PresentTurn(turn: Turn)
      requires Valid()
      modifies this`statusText, this`error, this`transcript, this`botResponse, this`isProcessing, this`isBotSpeaking,
               this`audioSource, this`audioBytes, this`liveUrls, this`nextUrl
      ensures Valid()
      ensures Base64.Atob(turn.audioB64).None? ==>
                && ShowsFailure(DecodeFailed)
                && audioSource == old(audioSource) && liveUrls == old(liveUrls)
      ensures Base64.Atob(turn.audioB64).Some? ==>
                && transcript == turn.transcript && botResponse == turn.reply
                && statusText == Speaking && !isProcessing
                && isBotSpeaking == old(isBotSpeaking) && error == old(error)
                && audioSource == Some(old(nextUrl)) && old(nextUrl) !in old(liveUrls)
                && liveUrls == old(liveUrls) + {old(nextUrl)}
                && audioBytes == CharCodes(Base64.Atob(turn.audioB64).value)
    {
      transcript := turn.transcript;
      botResponse := turn.reply;
      statusText := Speaking;
      isProcessing := false;
      var audioBlob := B64ToBlob(turn.audioB64, AudioMime, AudioSliceSize);
      if audioBlob.None? {
        Fail(DecodeFailed);
        return;
      }
      AttachAudio(Flatten(audioBlob.value.parts));
    }

    /** Creates an object URL for the audio and makes it the audio element's source. */
    method AttachAudio(bytes: seq<Byte>)
      requires Valid()
      modifies this`audioSource, this`audioBytes, this`liveUrls, this`nextUrl
      ensures Valid()
      ensures audioSource == Some(old(nextUrl)) && old(nextUrl) !in old(liveUrls)
      ensures liveUrls == old(liveUrls) + {old(nextUrl)} && audioBytes == bytes
    {
      var audioUrl := nextUrl;
      nextUrl := nextUrl + 1;
      liveUrls := liveUrls + {audioUrl};
      audioSource := Some(audioUrl);
      audioBytes := bytes;
    }

    /** The audio element starts playing. */
    method OnPlay()
      requires Valid() && !isProcessing
      modifies this`isBotSpeaking
      ensures Valid()
      ensures isBotSpeaking
    {
      isBotSpeaking := true;
    }

    /** The browser refuses to play: the failure is shown, but the object URL is not revoked. */
    method OnPlayRejected()
      requires Valid()
      modifies this`error, this`isBotSpeaking, this`statusText
      ensures Valid()
      ensures error == Some(PlaybackFailed) && !isBotSpeaking && statusText == PressToSpeak
    {
      error := Some(PlaybackFailed);
      isBotSpeaking := false;
      statusText := PressToSpeak;
    }

    /** Playback finishes: the overlay is ready again and the object URL is revoked. */
    method OnEnded()
      requires Valid()
      modifies this`statusText, this`isBotSpeaking, this`liveUrls
      ensures Valid()
      ensures statusText == PressToSpeak && !isBotSpeaking
      ensures liveUrls == Revoked(old(liveUrls), audioSource)
    {
      statusText := PressToSpeak;
      isBotSpeaking := false;
      liveUrls := Revoked(liveUrls, audioSource);
    }

    /** Playback fails: the failure is shown and the object URL is revoked. */
    method OnError()
      requires Valid()
      modifies this`error, this`isBotSpeaking, this`statusText, this`liveUrls
      ensures Valid()
      ensures error == Some(PlaybackFailed) && !isBotSpeaking && statusText == PressToSpeak
      ensures liveUrls == Revoked(old(liveUrls), audioSource)
    {
      error := Some(PlaybackFailed);
      isBotSpeaking := false;
      statusText := PressToSpeak;
      liveUrls := Revoked(liveUrls, audioSource);
    }
  }
}
