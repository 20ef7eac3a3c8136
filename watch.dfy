/**
 * The decisions of `WatchClient`: the request headers of the watch stream,
 * and what its WebSocket listener does with each callback. The WebSocket
 * transport and the protobuf codec stay outside: a decoded frame is given
 * as a `Frame`, and what the listener asks of the socket is a `SocketCall`.
 */
module Watch {
  import opened Wrappers
  import Identity
  import Forwarding

  const EndpointHeader: string := "Connect-Endpoint"
  const OfflineModeHeader: string := EndpointHeader + "-Offline-Mode"
  const ParentsHeader: string := EndpointHeader + "-Parents"
  const DefaultWatchUrl: string := "wss://watch-connect.minekube.net"

  /** Close codes of section 7.4.1 of RFC 6455. */
  const NormalClosure: int := 1000
  const ProtocolError: int := 1002

  /** The parts of `ConnectConfig` the client reads; null values are `None`. */
  datatype ConnectConfig = ConnectConfig(
    endpoint: string,
    allowOfflineModePlayers: Option<bool>,
    superEndpoints: Option<seq<string>>)

  datatype Header = Header(name: string, value: string)

  /** `System.getenv().getOrDefault("CONNECT_WATCH_URL", ...)`, the variable's value given. */
  function WatchUrl(envValue: Option<string>): (url: string)
    ensures envValue.None? ==> url == DefaultWatchUrl
    ensures envValue.Some? ==> url == envValue.value
  {
    envValue.GetOr(DefaultWatchUrl)
  }

  /** `Headers.values(name)`: the values under `name`, in the order they were added. */
  function ValuesOf(hs: seq<Header>, name: string): seq<string> {
    if hs == [] then []
    else ValuesOf(hs[..|hs| - 1], name) + (if hs[|hs| - 1].name == name then [hs[|hs| - 1].value] else [])
  }

  /** Every header except those named `name`, in order. */
  function RemoveNamed(hs: seq<Header>, name: string): (r: seq<Header>)
    ensures forall h :: h in r ==> h in hs && h.name != name
  {
    if hs == [] then []
    else RemoveNamed(hs[..|hs| - 1], name) + (if hs[|hs| - 1].name == name then [] else [hs[|hs| - 1]])
  }

  /** `Request.Builder.header`: replaces every earlier value under `name`. */
  function SetHeader(hs: seq<Header>, name: string, value: string): seq<Header> {
    RemoveNamed(hs, name) + [Header(name, value)]
  }

  /** `Request.Builder.addHeader`: adds one more value under `name`. */
  function AddHeader(hs: seq<Header>, name: string, value: string): seq<Header> {
    hs + [Header(name, value)]
  }

  lemma ValuesOfAppend(hs: seq<Header>, h: Header, name: string)
    ensures ValuesOf(hs + [h], name) == ValuesOf(hs, name) + (if h.name == name then [h.value] else [])
  {
    assert (hs + [h])[..|hs|] == hs;
  }

  /** After removing `name`, no value is left under it and every other name keeps its values. */
  lemma {:induction false} ValuesOfRemoveNamed(hs: seq<Header>, name: string, other: string)
    ensures ValuesOf(RemoveNamed(hs, name), name) == []
    ensures other != name ==> ValuesOf(RemoveNamed(hs, name), other) == ValuesOf(hs, other)
  {
    if hs != [] {
      var init, last := hs[..|hs| - 1], hs[|hs| - 1];
      ValuesOfRemoveNamed(init, name, other);
      if last.name != name {
        assert RemoveNamed(hs, name) == RemoveNamed(init, name) + [last];
        ValuesOfAppend(RemoveNamed(init, name), last, name);
        ValuesOfAppend(RemoveNamed(init, name), last, other);
      } else {
        assert RemoveNamed(hs, name) == RemoveNamed(init, name);
      }
    }
  }

  /** `header` leaves exactly the new value under its name and keeps every other name's values. */
  lemma SetHeaderValues(hs: seq<Header>, name: string, value: string, other: string)
    ensures ValuesOf(SetHeader(hs, name, value), name) == [value]
    ensures other != name ==> ValuesOf(SetHeader(hs, name, value), other) == ValuesOf(hs, other)
  {
    ValuesOfRemoveNamed(hs, name, other);
    ValuesOfAppend(RemoveNamed(hs, name), Header(name, value), name);
    ValuesOfAppend(RemoveNamed(hs, name), Header(name, value), other);
  }

  /** `addHeader` appends the value under its name and keeps every other name's values. */
  lemma AddHeaderValues(hs: seq<Header>, name: string, value: string, other: string)
    ensures ValuesOf(AddHeader(hs, name, value), name) == ValuesOf(hs, name) + [value]
    ensures other != name ==> ValuesOf(AddHeader(hs, name, value), other) == ValuesOf(hs, other)
  {
    ValuesOfAppend(hs, Header(name, value), name);
    ValuesOfAppend(hs, Header(name, value), other);
  }

  /** The three header names the client sends, all different. */
  predicate IsWatchHeaderName(name: string) {
    name == EndpointHeader || name == OfflineModeHeader || name == ParentsHeader
  }

  lemma HeaderNamesDistinct()
    ensures EndpointHeader != OfflineModeHeader && EndpointHeader != ParentsHeader && OfflineModeHeader != ParentsHeader
  {
    assert |EndpointHeader| == 16 && |OfflineModeHeader| == 29 && |ParentsHeader| == 24;
  }

  /** The value `Boolean.toString` gives. */
  function BooleanText(b: bool): string {
    if b then "true" else "false"
  }

  /** The offline-mode header values: none when the setting is null, else its text. */
  function OfflineModeValues(setting: Option<bool>): seq<string> {
    match setting
    case None => []
    case Some(b) => [BooleanText(b)]
  }

  /**
   * The headers `watch` puts on the request: one endpoint header, an
   * offline-mode header when that setting is present, and one parents header
   * per super endpoint in list order.
   */
  method WatchHeaders(config: ConnectConfig) returns (hs: seq<Header>)
    ensures ValuesOf(hs, EndpointHeader) == [config.endpoint]
    ensures ValuesOf(hs, OfflineModeHeader) == OfflineModeValues(config.allowOfflineModePlayers)
    ensures ValuesOf(hs, ParentsHeader) == config.superEndpoints.GetOr([])
    ensures forall h :: h in hs ==> IsWatchHeaderName(h.name)
    ensures hs[0] == Header(EndpointHeader, config.endpoint)
  {
    HeaderNamesDistinct();
    hs := SetHeader([], EndpointHeader, config.endpoint);
    SetHeaderValues([], EndpointHeader, config.endpoint, OfflineModeHeader);
    SetHeaderValues([], EndpointHeader, config.endpoint, ParentsHeader);
    assert hs == [Header(EndpointHeader, config.endpoint)];
    if config.allowOfflineModePlayers != None {
      var text := BooleanText(config.allowOfflineModePlayers.value);
      SetHeaderValues(hs, OfflineModeHeader, text, EndpointHeader);
      SetHeaderValues(hs, OfflineModeHeader, text, ParentsHeader);
      assert RemoveNamed(hs, OfflineModeHeader) == hs;
      hs := SetHeader(hs, OfflineModeHeader, text);
      assert hs == [Header(EndpointHeader, config.endpoint), Header(OfflineModeHeader, text)];
    }
    if config.superEndpoints != None {
      var superEndpoints := config.superEndpoints.value;
      for i := 0 to |superEndpoints|
        invariant |hs| >= 1 && hs[0] == Header(EndpointHeader, config.endpoint)
        invariant ValuesOf(hs, EndpointHeader) == [config.endpoint]
        invariant ValuesOf(hs, OfflineModeHeader) == OfflineModeValues(config.allowOfflineModePlayers)
        invariant ValuesOf(hs, ParentsHeader) == superEndpoints[..i]
        invariant forall h :: h in hs ==> IsWatchHeaderName(h.name)
      {
        AddHeaderValues(hs, ParentsHeader, superEndpoints[i], EndpointHeader);
        AddHeaderValues(hs, ParentsHeader, superEndpoints[i], OfflineModeHeader);
        AddHeaderValues(hs, ParentsHeader, superEndpoints[i], ParentsHeader);
        assert superEndpoints[..i + 1] == superEndpoints[..i] + [superEndpoints[i]];
        hs := AddHeader(hs, ParentsHeader, superEndpoints[i]);
      }
      assert superEndpoints[..|superEndpoints|] == superEndpoints;
    }
  }

  // The WebSocket listener.

  /** A Java exception: its class, its message (null is `None`) and its cause. */
  datatype Throwable = Throwable(className: string, message: Option<string>, cause: Option<Throwable>)

  function RuntimeException(message: string, cause: Option<Throwable>): Throwable {
    Throwable("java.lang.RuntimeException", Some(message), cause)
  }

  /** The session a broker announces: its id and the player's identity. */
  datatype Session = Session(id: string, player: Identity.GameProfile)

  /** `WatchResponse` as the protobuf decoder yields it. */
  datatype WatchResponse = WatchResponse(session: Session)

  /** What `WatchResponse.parseFrom` makes of a frame; a failure carries the exception's `toString()`. */
  datatype Frame = Decoded(response: WatchResponse) | DecodeFailed(error: string)

  /** `SessionRejection`: the proposal's id and, when one was given, the reason. */
  datatype SessionRejection = SessionRejection(id: string, reason: Option<string>)

  /** `WatchRequest` with its `sessionRejection` field set. */
  datatype WatchRequest = WatchRequest(sessionRejection: SessionRejection)

  /** `SessionProposal`: the announced session; rejecting it goes through `RejectionFor`. */
  datatype SessionProposal = SessionProposal(session: Session)

  /** The calls the listener makes on the caller's `Watcher`. */
  datatype WatcherCall = OnOpen | OnProposal(proposal: SessionProposal) | OnError(error: Throwable) | OnCompleted

  /** The calls the listener makes on the `WebSocket`. */
  datatype SocketCall = Close(code: int, reason: Option<string>) | Send(request: WatchRequest)

  /** What one listener callback does, in order, on the watcher and on the socket. */
  datatype Reaction = Reaction(watcher: seq<WatcherCall>, socket: seq<SocketCall>)

  /** Decimal digit `d` as a character. */
  function DigitChar(d: int): char
    requires 0 <= d < 10
  {
    "0123456789"[d]
  }

  predicate IsDigit(c: char) {
    '0' <= c <= '9'
  }

  function NatText(n: nat): (s: string)
    ensures |s| >= 1 && forall i :: 0 <= i < |s| ==> IsDigit(s[i])
  {
    if n < 10 then [DigitChar(n)] else NatText(n / 10) + [DigitChar(n % 10)]
  }

  /** `Integer.toString`: the decimal digits, after a minus sign when negative. */
  function IntText(n: int): string {
    if n < 0 then "-" + NatText(-n) else NatText(n)
  }

  /** The value of a string of decimal digits. */
  function DigitsValue(s: string): nat
    requires forall i :: 0 <= i < |s| ==> IsDigit(s[i])
  {
    if s == [] then 0
    else
      assert IsDigit(s[|s| - 1]);
      DigitsValue(s[..|s| - 1]) * 10 + ((s[|s| - 1] as int) - ('0' as int))
  }

  /** `Integer.parseInt` on what `IntText` writes: an optional minus sign and at least one digit. */
  function ParseInt(s: string): Option<int> {
    if |s| >= 2 && s[0] == '-' && forall i :: 1 <= i < |s| ==> IsDigit(s[i]) then Some(0 - DigitsValue(s[1..]) as int)
    else if |s| >= 1 && forall i :: 0 <= i < |s| ==> IsDigit(s[i]) then Some(DigitsValue(s))
    else None
  }

  lemma {:induction false} NatTextValue(n: nat)
    ensures DigitsValue(NatText(n)) == n
  {
    if n >= 10 {
      NatTextValue(n / 10);
      var s := NatText(n);
      assert s[..|s| - 1] == NatText(n / 10);
    }
  }

  lemma ParseDigits(s: string)
    requires |s| >= 1 && forall i :: 0 <= i < |s| ==> IsDigit(s[i])
    ensures ParseInt(s) == Some(DigitsValue(s))
  {
    assert IsDigit(s[0]);
  }

  lemma ParseMinusDigits(s: string)
    requires |s| >= 1 && forall i :: 0 <= i < |s| ==> IsDigit(s[i])
    ensures ParseInt("-" + s) == Some(0 - DigitsValue(s) as int)
  {
    var m := "-" + s;
    assert m[1..] == s;
    assert forall i :: 1 <= i < |m| ==> m[i] == s[i - 1];
  }

  /** The decimal text of a close code reads back as that code. */
  lemma IntTextRoundTrip(n: int)
    ensures ParseInt(IntText(n)) == Some(n)
  {
    var m: nat := if n < 0 then -n else n;
    var digits := NatText(m);
    NatTextValue(m);
    if n < 0 {
      ParseMinusDigits(digits);
      assert IntText(n) == "-" + digits;
    } else {
      ParseDigits(digits);
      assert IntText(n) == digits;
    }
  }

  const CloseMessagePrefix: string := "Watch closed with code "

  /** The message of the error raised for an abnormal close. */
  function CloseMessage(code: int, reason: string): (m: string)
    ensures |m| >= |CloseMessagePrefix| + |reason| && m[..|CloseMessagePrefix|] == CloseMessagePrefix
    ensures m[|m| - |reason|..] == reason
  {
    CloseMessagePrefix + IntText(code) + ": " + reason
  }

  /**
   * `onClosed`: the normal-closure code completes the watcher; any other
   * code is an error whose message names the code and the reason.
   */
  function OnClosed(code: int, reason: string): (r: Reaction)
    ensures r.socket == [] && |r.watcher| == 1
    ensures r.watcher[0] == OnCompleted <==> code == NormalClosure
    ensures r.watcher[0].OnError? <==> code != NormalClosure
    ensures code != NormalClosure ==> r.watcher[0].error.message == Some(CloseMessage(code, reason))
  {
    if code != NormalClosure then
      Reaction([OnError(RuntimeException(CloseMessage(code, reason), None))], [])
    else
      Reaction([OnCompleted], [])
  }

  /** Reads the code and the reason back from a close message. */
  function ParseCloseMessage(m: string): Option<(int, string)> {
    if |m| < |CloseMessagePrefix| || m[..|CloseMessagePrefix|] != CloseMessagePrefix then None
    else
      var rest := m[|CloseMessagePrefix|..];
      var colon := Forwarding.IndexOf(rest, ':');
      if colon < 0 || colon + 1 >= |rest| || rest[colon + 1] != ' ' then None
      else
        match ParseInt(rest[..colon])
        case None => None
        case Some(code) => Some((code, rest[colon + 2..]))
  }

  lemma IntTextHasNoColon(code: int)
    ensures ':' !in IntText(code)
  {
    var text := IntText(code);
    if code < 0 {
      var digits := NatText(-code);
      assert forall i :: 1 <= i < |text| ==> text[i] == digits[i - 1];
    }
  }

  lemma FirstColonAfter(text: string, reason: string)
    requires ':' !in text
    ensures Forwarding.IndexOf(text + ": " + reason, ':') == |text|
  {
    var rest := text + ": " + reason;
    assert rest[|text|] == ':';
    assert forall i :: 0 <= i < |text| ==> rest[i] == text[i];
  }

  /** The close code and the reason can be read back from the error message, whatever the reason says. */
  lemma CloseMessageRoundTrip(code: int, reason: string)
    ensures ParseCloseMessage(CloseMessage(code, reason)) == Some((code, reason))
  {
    var m := CloseMessage(code, reason);
    var text := IntText(code);
    var rest := text + ": " + reason;
    assert m == CloseMessagePrefix + rest;
    assert m[..|CloseMessagePrefix|] == CloseMessagePrefix;
    assert m[|CloseMessagePrefix|..] == rest;
    IntTextHasNoColon(code);
    FirstColonAfter(text, reason);
    assert rest[|text| + 1] == ' ';
    assert rest[..|text|] == text;
    assert rest[|text| + 2..] == reason;
    IntTextRoundTrip(code);
  }

  /** `onClosing`: the peer's closing handshake is always answered with normal closure and no reason. */
  function OnClosing(code: int, reason: string): (r: Reaction)
    ensures r.watcher == [] && r.socket == [Close(NormalClosure, None)]
  {
    Reaction([], [Close(NormalClosure, None)])
  }

  /** The body of the failed handshake response: its text, or an `IOException` while reading it. */
  datatype ResponseBody = BodyText(text: string) | BodyReadFailed

  /** The failed handshake response (null when the failure had none) and its body (null when absent). */
  datatype Response = Response(body: Option<ResponseBody>)

  /** The server's diagnostic text, when the response has a body that reads as non-empty text. */
  predicate HasDiagnostic(response: Option<Response>) {
    && response.Some? && response.value.body.Some?
    && response.value.body.value.BodyText? && response.value.body.value.text != ""
  }

  /**
   * `onFailure`: a readable, non-empty response body becomes the message of
   * the error, with the transport failure as its cause; otherwise the
   * transport failure reaches the watcher unchanged.
   */
  function OnFailure(t: Throwable, response: Option<Response>): (r: Reaction)
    ensures r.socket == [] && |r.watcher| == 1 && r.watcher[0].OnError?
    ensures HasDiagnostic(response) ==>
      r.watcher[0].error == RuntimeException(response.value.body.value.text, Some(t))
    ensures !HasDiagnostic(response) ==> r.watcher[0].error == t
    ensures r.watcher[0].error == t <==> !HasDiagnostic(response)
  {
    var message :=
      if response.Some? && response.value.body.Some? then
        match response.value.body.value
        case BodyText(text) => Some(text)
        case BodyReadFailed => None
      else None;
    if message == None || message.value == "" then Reaction([OnError(t)], [])
    else Reaction([OnError(RuntimeException(message.value, Some(t)))], [])
  }

  /**
   * `onMessage`: a frame that does not decode closes the socket with the
   * protocol-error code and reaches no watcher; a decoded frame becomes
   * exactly one proposal for the announced session.
   */
  function OnMessage(frame: Frame): (r: Reaction)
    ensures frame.DecodeFailed? ==> r.watcher == [] && r.socket == [Close(ProtocolError, Some(frame.error))]
    ensures frame.Decoded? ==> r.socket == [] && r.watcher == [OnProposal(SessionProposal(frame.response.session))]
  {
    match frame
    case DecodeFailed(error) => Reaction([], [Close(ProtocolError, Some(error))])
    case Decoded(res) => Reaction([OnProposal(SessionProposal(res.session))], [])
  }

  /** `onOpen`: the watcher is told the stream is open. */
  function OnOpenCallback(): (r: Reaction)
    ensures r.watcher == [OnOpen] && r.socket == []
  {
    Reaction([OnOpen], [])
  }

  /**
   * The rejection callback of a proposal made from `res`: one `WatchRequest`
   * sent on the socket, its rejection naming the session, the reason set
   * exactly when one was given.
   */
  function RejectionFor(res: WatchResponse, reason: Option<string>): (call: SocketCall)
    ensures call.Send? && call.request.sessionRejection.id == res.session.id
    ensures call.request.sessionRejection.reason.Some? <==> reason.Some?
    ensures reason.Some? ==> call.request.sessionRejection.reason == reason
  {
    var rejection := SessionRejection(res.session.id, None);
    var rejection := if reason != None then rejection.(reason := reason) else rejection;
    Send(WatchRequest(rejection))
  }

  /** Rejecting the proposal the watcher received sends a rejection for that same session. */
  lemma RejectionNamesDeliveredSession(res: WatchResponse, reason: Option<string>)
    ensures var r := OnMessage(Decoded(res));
      RejectionFor(res, reason).request.sessionRejection.id == r.watcher[0].proposal.session.id
  {
  }

  /** A close reaches the watcher as exactly one terminal event: completion or error, never both. */
  lemma ClosedIsOneTerminalEvent(code: int, reason: string)
    ensures var r := OnClosed(code, reason);
      |r.watcher| == 1 && (r.watcher[0] == OnCompleted) != r.watcher[0].OnError?
  {
  }
}
