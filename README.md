# Connect relay handshake core, modelled in Dafny

This project models the part of the Minekube Connect Java plugin that lets a
backend server accept a player who is relayed to it:

- **Identity** (`identity.dfy`): the immutable `GameProfile` value (username,
  UUID, ordered signed properties), its `Property`, and the text form of a
  `java.util.UUID`.
- **Forwarding codec** (`forwarding.dfy`): the pure half of
  `SpigotDataHandler`. It builds the BungeeCord legacy IP-forwarding string
  `host NUL ip NUL uuid-without-dashes NUL json(properties)` and strips the
  IPv6 `%scope` suffix from the player's address. The JSON is written the way
  Gson's default writer writes a list of `Property`. The module also has a
  reader, so the round trip can be stated and proved.
- **Handshake/login handler** (`spigot_data.dfy`): `SpigotDataHandler` as a
  class. Its fields are `removed`, `kickMessage`, `networkManager` and a log
  of the effects it has on the server. Reflective host calls become `Action`s
  in that log. The `ProxyUtils` flags, the listener's login state and the
  reflective calls that throw are an `Env` input. Each method is proved
  against a specification function (`ChannelReadSpec`,
  `CheckAndHandleLoginSpec`, …). The decision table is stated as lemmas about
  those functions.
- **Watch client** (`watch.dfy`): the headers `WatchClient.watch` puts on the
  watch request. This is a method with the source's loop over super
  endpoints. The module also holds the listener's decisions (`onClosed`,
  `onClosing`, `onFailure`, `onMessage`, `onOpen`) and the rejection record.
  Each decision is a function from the callback's inputs to the calls made on
  the watcher and on the socket.
- **Outbound transform dispatch** (`packet_out.dfy`):
  `ChannelOutPacketHandler` as a class. `Encode` keeps the source's loop and
  is proved to append exactly `Encoded(...)` to the `out` list, under the
  packets' `equals` given as a parameter. A ghost trace, written beside each
  call, lists the calls: every transform once, in order, with the original
  message.

Three behaviours of the code shape the model:

- Every outbound transform receives the original `msg`, not the previous
  transform's result. `encode` keeps the last result that is not `equals`
  to `msg` (`ChannelOutPacketHandler.java:46-52`). `Encode` and `Encoded`
  model exactly that. What `equals` means is up to the packet classes, so
  it is a parameter of the model.
- A handshake's host is rewritten only when `ProxyUtils.isBungeeData()`
  holds (`SpigotDataHandler.java:111-117`).
- In `SpigotDataHandler.java`, no statement assigns `networkManager` (the
  assignment at line 124 is commented out). The model's constructor sets it
  to `None`, and no method changes it. Reading the packet listener through an
  absent network manager throws, as `Field.get` does on a null instance. So
  for a handler as built, a login-start packet without proxy data makes
  `channelRead` throw (`LoginStartWithoutNetworkManager`). The three-way login
  decision (`LoginStartDecision`) is stated for a network manager that is
  present.

## Model

| member | source | states |
|---|---|---|
| `Identity.NewGameProfile` | api/src/main/java/com/minekube/connect/api/player/GameProfile.java:32-36 | the getters return exactly the constructor's username, UUID and properties, in order |
| `Identity.NewProperty` | api/src/main/java/com/minekube/connect/api/player/GameProfile.java:38-43 | the getters return exactly the constructor's name, value and signature |
| `Identity.GameProfileEquality` | api/src/main/java/com/minekube/connect/api/player/GameProfile.java:32-36 | two profiles are equal iff username, UUID and properties are all equal |
| `Identity.PropertyEquality` | api/src/main/java/com/minekube/connect/api/player/GameProfile.java:38-43 | two properties are equal iff name, value and signature are all equal |
| `Identity.UuidTextLayout` | spigot/src/main/java/com/minekube/connect/addon/data/SpigotDataHandler.java:223 | `UUID.toString()` is 36 characters: dashes at 8, 13, 18 and 23, lower-case hex digits elsewhere |
| `Identity.UuidToString` | spigot/src/main/java/com/minekube/connect/addon/data/SpigotDataHandler.java:223 | `UUID.toString()` is 36 characters with a dash at each of the four group boundaries |
| `Forwarding.IndexOf` | spigot/src/main/java/com/minekube/connect/addon/data/SpigotDataHandler.java:231 | `indexOf` is -1 iff the character is absent; otherwise it is the first position of that character |
| `Forwarding.StripScope` | spigot/src/main/java/com/minekube/connect/addon/data/SpigotDataHandler.java:229-237 | the result is a prefix of the address and has no `%`; it stops right at the first `%`; it is the address itself when there is no `%` |
| `Forwarding.StripScopeIdempotent` | spigot/src/main/java/com/minekube/connect/addon/data/SpigotDataHandler.java:229-237 | stripping twice gives the same result as stripping once |
| `Forwarding.StripScopeExample` | spigot/src/main/java/com/minekube/connect/addon/data/SpigotDataHandler.java:229-237 | `fe80::1%eth0` becomes `fe80::1` |
| `Forwarding.RemoveAll` | spigot/src/main/java/com/minekube/connect/addon/data/SpigotDataHandler.java:223 | `replaceAll("-", "")` leaves no dash and never lengthens the string |
| `Forwarding.DashlessUuid` | spigot/src/main/java/com/minekube/connect/addon/data/SpigotDataHandler.java:223 | the UUID segment, `toString()` with every dash removed, contains no dash |
| `Forwarding.DashlessUuidIsHex` | spigot/src/main/java/com/minekube/connect/addon/data/SpigotDataHandler.java:223 | the UUID segment is exactly the 32 lower-case hex digits of the UUID, most significant first, with no separator |
| `Forwarding.DashlessUuidRoundTrip` | spigot/src/main/java/com/minekube/connect/addon/data/SpigotDataHandler.java:223 | reading the UUID segment back gives the UUID, and a segment that reads as a UUID is that UUID's segment |
| `Forwarding.EscapeChar` | spigot/src/main/java/com/minekube/connect/addon/data/SpigotDataHandler.java:225 | Gson writes a string character either as itself or as an escape sequence that starts with a backslash |
| `Forwarding.EscapeString` | spigot/src/main/java/com/minekube/connect/addon/data/SpigotDataHandler.java:225 | the escaped string value is never shorter than the string |
| `Forwarding.JsonString` | spigot/src/main/java/com/minekube/connect/addon/data/SpigotDataHandler.java:225 | a string value as Gson writes it: the escaped characters between double quotes (no contract of its own; `Forwarding.PropertiesJsonHasNoNul` states what the forwarding string needs of it) |
| `Forwarding.PropertyJson` | spigot/src/main/java/com/minekube/connect/addon/data/SpigotDataHandler.java:225 | one property is written as a JSON object (opens with `{`, closes with `}`); its name and value are followed by the signature only when the signature is non-null |
| `Forwarding.PropertyListJson` | spigot/src/main/java/com/minekube/connect/addon/data/SpigotDataHandler.java:225 | the comma-separated objects are empty exactly for an empty list; otherwise they open with `{` and close with `}` |
| `Forwarding.PropertiesJson` | spigot/src/main/java/com/minekube/connect/addon/data/SpigotDataHandler.java:225 | the properties' JSON is an array: it opens with `[`, closes with `]`, and is exactly `[]` for no properties |
| `Forwarding.PropertiesJsonHasNoNul` | spigot/src/main/java/com/minekube/connect/addon/data/SpigotDataHandler.java:225 | Gson's escaping leaves no raw NUL in the JSON of any property list |
| `Forwarding.SplitJoinWith` | spigot/src/main/java/com/minekube/connect/addon/data/SpigotDataHandler.java:218-226 | pieces without the delimiter, joined by it, split back into exactly those pieces, in order |
| `Forwarding.LegacyForwardingAddress` | spigot/src/main/java/com/minekube/connect/addon/data/SpigotDataHandler.java:214-227 | the forwarding string starts with the original host followed by a NUL, and ends with the closing `]` of the properties array |
| `Forwarding.LegacyForwardingSplits` | spigot/src/main/java/com/minekube/connect/addon/data/SpigotDataHandler.java:214-227 | if the host and address hold no NUL, the forwarding string splits on NUL into exactly host, unscoped address, dashless UUID and JSON, in that order |
| `Forwarding.LegacyForwardingRoundTrip` | spigot/src/main/java/com/minekube/connect/addon/data/SpigotDataHandler.java:214-227 | reading the forwarding string back recovers the host, the unscoped address, the player's UUID and the JSON of the properties |
| `Forwarding.LegacyForwardingExample` | spigot/src/main/java/com/minekube/connect/addon/data/SpigotDataHandler.java:214-227 | host `play.example.com`, address `203.0.113.5`, UUID of all ones and no properties give `play.example.com␀203.0.113.5␀111…1␀[]` |
| `SpigotData.SpigotDataHandler.constructor` | spigot/src/main/java/com/minekube/connect/addon/data/SpigotDataHandler.java:49-59 | keeps the player, the address and the proxy-data flag read at construction; no network manager, no kick, not removed, no effects |
| `SpigotData.RemoveSpec` | spigot/src/main/java/com/minekube/connect/addon/data/SpigotDataHandler.java:115 | removing throws exactly when the handler is already removed; at most one removal is recorded, and one is recorded exactly when the handler was present |
| `SpigotData.DisconnectSpec` | spigot/src/main/java/com/minekube/connect/addon/data/SpigotDataHandler.java:198-209 | disconnect returns exactly when it records one effect, and every effect it records carries the kick message |
| `SpigotData.CheckAndHandleLoginSpec` | spigot/src/main/java/com/minekube/connect/addon/data/SpigotDataHandler.java:137-196 | `checkAndHandleLogin` returns false exactly when proxy data is off and the packet is not login start, and then it has no effect; it removes the handler only when the handler is present and no kick is pending |
| `SpigotData.ChannelReadSpec` | spigot/src/main/java/com/minekube/connect/addon/data/SpigotDataHandler.java:109-135 | a handshake throws only when it must remove an already removed handler under bungee data; the handshake host is written only for a handshake under bungee data; the handler is removed only when it is present |
| `SpigotData.ShouldRemoveHandlerSpec` | spigot/src/main/java/com/minekube/connect/addon/data/SpigotDataHandler.java:72-89 | never throws; answers true only with proxy data and no pending kick; records at most one effect |
| `SpigotData.ShouldCallFireReadSpec` | spigot/src/main/java/com/minekube/connect/addon/data/SpigotDataHandler.java:91-103 | never throws; holds a packet back only when proxy data is on or the packet is login start |
| `SpigotData.SpigotDataHandler.SetHostname` | spigot/src/main/java/com/minekube/connect/addon/data/SpigotDataHandler.java:66-70 | records exactly one write of the handshake host |
| `SpigotData.SpigotDataHandler.RemoveSelf` | spigot/src/main/java/com/minekube/connect/addon/data/SpigotDataHandler.java:115 | removes the handler and records it; throws, with no effect, when the handler is already gone |
| `SpigotData.SpigotDataHandler.Disconnect` | spigot/src/main/java/com/minekube/connect/addon/data/SpigotDataHandler.java:198-209 | the login listener's disconnect when the listener is in login state, otherwise the network manager's exception hook, with the kick message |
| `SpigotData.SpigotDataHandler.CheckAndHandleLogin` | spigot/src/main/java/com/minekube/connect/addon/data/SpigotDataHandler.java:137-196 | outcome, new effects and removal are exactly those of `CheckAndHandleLoginSpec` |
| `SpigotData.SpigotDataHandler.ChannelRead` | spigot/src/main/java/com/minekube/connect/addon/data/SpigotDataHandler.java:109-135 | outcome, new effects and removal are exactly those of `ChannelReadSpec` |
| `SpigotData.SpigotDataHandler.ShouldRemoveHandler` | spigot/src/main/java/com/minekube/connect/addon/data/SpigotDataHandler.java:72-89 | answer and effects are exactly those of `ShouldRemoveHandlerSpec` |
| `SpigotData.SpigotDataHandler.ShouldCallFireRead` | spigot/src/main/java/com/minekube/connect/addon/data/SpigotDataHandler.java:91-103 | answer, effects and removal are exactly those of `ShouldCallFireReadSpec`; never throws |
| `SpigotData.HandshakeDecision` | spigot/src/main/java/com/minekube/connect/addon/data/SpigotDataHandler.java:111-119 | under bungee data a handshake gets the forwarding address as host, the handler removes itself, and the packet goes on; otherwise the packet goes on untouched and the handler stays |
| `SpigotData.ProxyDataHoldsBackNonHandshake` | spigot/src/main/java/com/minekube/connect/addon/data/SpigotDataHandler.java:134-140 | with proxy data on, every non-handshake packet is held back and nothing else happens |
| `SpigotData.OtherPacketsPassThrough` | spigot/src/main/java/com/minekube/connect/addon/data/SpigotDataHandler.java:134-195 | without proxy data, a packet that is neither handshake nor login start goes on with no effect |
| `SpigotData.LoginStartDecision` | spigot/src/main/java/com/minekube/connect/addon/data/SpigotDataHandler.java:141-194 | login start is always held back: a pending kick disconnects and keeps the handler; a listener not in login state only removes the handler; otherwise `initUUID`, then the login events, then removal |
| `SpigotData.LoginStartWithoutNetworkManager` | spigot/src/main/java/com/minekube/connect/addon/data/SpigotDataHandler.java:141-143 | with no network manager, login start without proxy data throws before any effect, and `shouldCallFireRead` lets the packet through |
| `SpigotData.ShouldRemoveHandlerDecision` | spigot/src/main/java/com/minekube/connect/addon/data/SpigotDataHandler.java:72-89 | a pending kick gives false and writes nothing; otherwise the UUID is spoofed exactly when proxy data is off, and the answer is the proxy-data flag |
| `SpigotData.ShouldCallFireReadNegates` | spigot/src/main/java/com/minekube/connect/addon/data/SpigotDataHandler.java:91-103 | the answer is the negation of `checkAndHandleLogin`, or true when that throws, with the same effects |
| `SpigotData.KickTakesPrecedence` | spigot/src/main/java/com/minekube/connect/addon/data/SpigotDataHandler.java:145-149 | with a kick pending, no login is driven and the handler is not removed |
| `Watch.WatchUrl` | core/src/main/java/com/minekube/connect/watch/WatchClient.java:50-51 | the environment variable's value when set, the default secure endpoint otherwise |
| `Watch.SetHeaderValues` | core/src/main/java/com/minekube/connect/watch/WatchClient.java:63-70 | `header` leaves exactly the new value under its name and keeps every other name's values |
| `Watch.AddHeaderValues` | core/src/main/java/com/minekube/connect/watch/WatchClient.java:73 | `addHeader` appends the value under its name and keeps every other name's values |
| `Watch.SetHeader` | core/src/main/java/com/minekube/connect/watch/WatchClient.java:65-69 | `header`: drops every earlier header of that name, then appends the new one (no contract of its own; `Watch.SetHeaderValues` states its effect) |
| `Watch.AddHeader` | core/src/main/java/com/minekube/connect/watch/WatchClient.java:73 | `addHeader`: appends one header and keeps all earlier ones (no contract of its own; `Watch.AddHeaderValues` states its effect) |
| `Watch.HeaderNamesDistinct` | core/src/main/java/com/minekube/connect/watch/WatchClient.java:47-49 | the three header names are pairwise different |
| `Watch.BooleanText` | core/src/main/java/com/minekube/connect/watch/WatchClient.java:69 | `Boolean.toString()`: `true` or `false` (no contract of its own; `Watch.WatchHeaders` states the offline-mode header through it) |
| `Watch.WatchHeaders` | core/src/main/java/com/minekube/connect/watch/WatchClient.java:62-75 | exactly one endpoint header with the configured endpoint, first; an offline-mode header (`true`/`false`) iff the setting is non-null; one parents header per super endpoint in list order, duplicates kept, none when the list is null; no other header |
| `Watch.OnClosed` | core/src/main/java/com/minekube/connect/watch/WatchClient.java:79-87 | code 1000 completes the watcher and never errors it; any other code errors it with `Watch closed with code <code>: <reason>` and never completes it |
| `Watch.CloseMessage` | core/src/main/java/com/minekube/connect/watch/WatchClient.java:83 | the error message starts with `Watch closed with code ` and ends with the close reason |
| `Watch.IntText` | core/src/main/java/com/minekube/connect/watch/WatchClient.java:83 | `Integer.toString` as used in the string concatenation: a minus sign for a negative code, then its decimal digits (no contract of its own; `Watch.IntTextRoundTrip` states that the text reads back as the code) |
| `Watch.ClosedIsOneTerminalEvent` | core/src/main/java/com/minekube/connect/watch/WatchClient.java:79-87 | a close gives exactly one terminal event: completion or error, not both |
| `Watch.IntTextRoundTrip` | core/src/main/java/com/minekube/connect/watch/WatchClient.java:83 | the decimal text of the close code reads back as that code |
| `Watch.CloseMessageRoundTrip` | core/src/main/java/com/minekube/connect/watch/WatchClient.java:83 | the code and the reason can be read back from the close error's message |
| `Watch.OnClosing` | core/src/main/java/com/minekube/connect/watch/WatchClient.java:89-92 | a peer's closing handshake is always answered with close code 1000 and no reason |
| `Watch.OnFailure` | core/src/main/java/com/minekube/connect/watch/WatchClient.java:94-112 | a readable, non-empty body becomes the error message, with the failure as cause; otherwise the failure is passed on unchanged |
| `Watch.OnMessage` | core/src/main/java/com/minekube/connect/watch/WatchClient.java:114-141 | a frame that fails to decode closes the socket with 1002 and reaches no watcher; a decoded frame becomes exactly one proposal for its session |
| `Watch.OnOpenCallback` | core/src/main/java/com/minekube/connect/watch/WatchClient.java:143-146 | opening the stream tells the watcher and touches nothing else |
| `Watch.RejectionFor` | core/src/main/java/com/minekube/connect/watch/WatchClient.java:127-138 | a rejection is one `WatchRequest` sent on the socket; it names the session, and its reason is set iff one was given |
| `Watch.RejectionNamesDeliveredSession` | core/src/main/java/com/minekube/connect/watch/WatchClient.java:125-140 | rejecting the proposal the watcher received names the session of that same frame |
| `PacketOut.Results` | core/src/main/java/com/minekube/connect/addon/packethandler/ChannelOutPacketHandler.java:46-49 | one result per registered transform, each computed from the original message and the direction flag |
| `PacketOut.HandlersFor` | core/src/main/java/com/minekube/connect/addon/packethandler/ChannelOutPacketHandler.java:46-47 | `getPacketHandlers(msg.getClass())`: the transforms registered for the exact class, in registration order, none when the class has no entry (no contract of its own; this reading of the registry is stated under "Left out") |
| `PacketOut.LastChanged` | core/src/main/java/com/minekube/connect/addon/packethandler/ChannelOutPacketHandler.java:45-53 | the kept packet is `msg` itself or one of the transform results |
| `PacketOut.Encoded` | core/src/main/java/com/minekube/connect/addon/packethandler/ChannelOutPacketHandler.java:43-56 | what `encode` passes on is `msg` or the answer one of the registered transforms gave for the original `msg` |
| `PacketOut.EqualsDecidesWhatCounts` | core/src/main/java/com/minekube/connect/addon/packethandler/ChannelOutPacketHandler.java:50 | which result is kept depends on the packets' `equals`: for results X then Y (a fresh copy of `msg`), identity `equals` keeps Y and field-wise `equals` keeps X |
| `PacketOut.LastChangedIsLastDifference` | core/src/main/java/com/minekube/connect/addon/packethandler/ChannelOutPacketHandler.java:45-53 | for any `equals`, the output is `msg` when every result `equals` `msg`; otherwise it is the result at the last position that does not |
| `PacketOut.UnregisteredPassesThrough` | core/src/main/java/com/minekube/connect/addon/packethandler/ChannelOutPacketHandler.java:45-55 | with no transform for the message's class, the output is the message itself |
| `PacketOut.EncodedIsLastChangedResult` | core/src/main/java/com/minekube/connect/addon/packethandler/ChannelOutPacketHandler.java:45-53 | what `encode` passes on is the last transform's answer for the original `msg` that is not `equals` to it, or `msg` |
| `PacketOut.Invocations` | core/src/main/java/com/minekube/connect/addon/packethandler/ChannelOutPacketHandler.java:46-49 | the trace of calls: one per transform, in list order, each with the original message and the fixed direction. The trace is written beside each call; what pins the argument to the original `msg` is `Encode`'s `out.items` ensures |
| `PacketOut.ChannelOutPacketHandler.constructor` | core/src/main/java/com/minekube/connect/addon/packethandler/ChannelOutPacketHandler.java:38-41 | keeps the registry and the `toServer` flag given |
| `PacketOut.ChannelOutPacketHandler.Encode` | core/src/main/java/com/minekube/connect/addon/packethandler/ChannelOutPacketHandler.java:43-56 | appends exactly one element, `Encoded(...)`, to `out` (the last result not `equals` to `msg`, or `msg`), and leaves the earlier elements as they were; calls each transform for the exact class once, in order, with `msg` and the constructor's `toServer` |

## Left out

- PacketOut.ChannelOutPacketHandler.Encode: transforms are taken not to
  change `msg` in place. A result that carries `msg`'s `ref` is taken to have
  `msg`'s contents. In Java every transform gets the same `msg` object and
  may mutate it. Under identity `equals` the mutated `msg` is then what goes
  out, and later transforms see the change. The model passes on `msg` as it
  was on entry, and each transform sees that value. A transform never returns
  `null`: the `NullPointerException` that `res.equals(msg)` would throw at
  `ChannelOutPacketHandler.java:50` is not modelled. Which `equals` the
  packet classes use is not fixed: it is the `eq` parameter.
- PacketOut.Encoded: the same assumption. No transform mutates `msg`, so
  the output is a function of each transform's answer for `msg`'s value on
  entry.
- PacketOut.EncodedIsLastChangedResult: "the output depends only on each
  transform's own answer for `msg`" holds under the same assumption that no
  transform mutates `msg`.
- PacketOut.HandlersFor: `PacketHandlersImpl` is not part of this model.
  `getPacketHandlers` is taken to return the transforms registered for the
  exact runtime class, in registration order, and none when the class has
  no entry. Subclasses do not match.
- Netty, OkHttp, protobuf and Gson internals are not part of this model. A
  decoded frame is a `Frame` value, and a socket call is a `SocketCall`
  value. Gson is modelled only as far as its default `JsonWriter` output for
  a list of `Property`.
- `ReflectionUtils`, `ClassNames`, `ProxyUtils` and `CommonDataHandler` are
  not part of this model. Reflective calls are recorded `Action`s. The
  `ProxyUtils` flags and the listener's state are `Env` inputs.
  `removeSelf()` is taken to remove the handler from the pipeline, like
  `ctx.pipeline().remove(this)`.
- `SpigotData.SpigotDataHandler.ShouldRemoveHandler`: writing `spoofedUUID`
  through an absent network manager is recorded as a write and does not
  throw, because what `ReflectionUtils.setValue` does with a null instance is
  not visible.
- The handshake packet's host is written in place through reflection. The
  model records that write as `SetHandshakeHost` in the log and does not
  model a mutable packet object.
- Netty's dispatch is not modelled: a removed handler is never invoked again,
  and a handler sees packets one at a time. Each callback is one sequential
  method call. The asynchronous threading of the WebSocket listener is not
  modelled.
- OkHttp compares header names without regard to case. The model compares
  them exactly, which gives the same result for the three distinct names
  used. OkHttp also refuses header values with control or non-ASCII
  characters, and close reasons longer than 123 bytes. Those checks are not
  modelled.
- `watch` returning the `WebSocket` from `httpClient.newWebSocket` is not
  modelled. Neither is `SessionProposal`'s own behaviour, such as rejecting
  twice, since that class is not part of this model.
- Debug output (`printStackTrace`, `System.out.println`) is not modelled.
- The dependency wiring, token files and HTTP client of `CommonModule`, the
  wiring of `SpigotPlatformModule`, `BungeeCommandUtil`, the `VelocityPlugin`
  bootstrap and `LocalServerChannelWrapper` are not modelled. The channel
  wrapper copies the session context onto the new channel. The model takes
  the channel's remote address to be the session's spoofed address (the
  handler's `remoteAddress`).
- Java strings are UTF-16. The model uses Unicode scalar values. `null`
  strings are modelled only where the code tests for them: the config
  values, the property signature, the rejection reason and the response
  body.
