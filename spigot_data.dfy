/**
 * The per-connection handshake and login logic of `SpigotDataHandler`.
 * Reflective calls into the server become recorded `Action`s; what
 * `ProxyUtils` and the server's packet listener report at the moment of a
 * call is an `Env`; a reflective call that throws is named in `Env.failing`.
 */
module SpigotData {
  import opened Wrappers
  import opened Identity
  import Forwarding

  /** The three kinds of inbound packet the handler tells apart. */
  datatype Packet =
    | HandshakePacket(host: string)
    | LoginStartPacket(username: string)
    | OtherPacket(packetId: int)

  /** The reflective calls into the server that may throw. */
  datatype HostCall =
    | ReadPacketListener        // ClassNames.PACKET_LISTENER.get(networkManager)
    | InvokeLoginDisconnect     // ClassNames.LOGIN_DISCONNECT.invoke
    | InvokeNetworkExceptionCaught
    | InvokeInitUuid
    | NewLoginHandler           // ClassNames.LOGIN_HANDLER_CONSTRUCTOR.newInstance
    | InvokeFireLoginEvents

  /**
   * The environment of one call: `ProxyUtils.isBungeeData()`,
   * `ProxyUtils.isProxyData()`, whether the packet listener is the server's
   * login listener, and which reflective calls throw.
   */
  datatype Env = Env(bungeeData: bool, proxyData: bool, listenerIsLogin: bool, failing: set<HostCall>)

  /** Effects on the server, in the order they happen. */
  datatype Action =
    | SetHandshakeHost(hostname: string)    // setHostname: setValue(packet, HANDSHAKE_HOST, ...)
    | SetSpoofedUuid(uuid: Uuid)            // setValue(networkManager, "spoofedUUID", ...)
    | LoginDisconnect(message: string)
    | NetworkExceptionCaught(message: string)
    | InitUuid
    | FireLoginEvents
    | RemoveHandler                         // ctx.pipeline().remove(this)

  /** A Java call either returns a value or throws. */
  datatype Outcome<T> = Returned(value: T) | Threw

  /** What one call does: its outcome and the effects it had before returning or throwing. */
  datatype Step<T> = Step(outcome: Outcome<T>, actions: seq<Action>)

  /** The server's network manager: only whether it is present matters here. */
  datatype NetworkManager = NetworkManager(id: nat)

  function Then<T, U>(s: Step<T>, v: U): Step<U> {
    Step(if s.outcome.Threw? then Threw else Returned(v), s.actions)
  }

  /** `ctx.pipeline().remove(this)`: Netty throws when the handler is no longer in the pipeline. */
  function RemoveSpec(removed: bool): (s: Step<()>)
    ensures s.outcome.Threw? <==> removed
    ensures |s.actions| <= 1 && (RemoveHandler in s.actions <==> !removed)
  {
    if removed then Step(Threw, []) else Step(Returned(()), [RemoveHandler])
  }

  /** `disconnect`: the login listener's own disconnect, otherwise the network manager's exception hook. */
  function DisconnectSpec(env: Env, kickMessage: string): (s: Step<()>)
    ensures s.outcome.Returned? <==> |s.actions| == 1
    ensures forall a :: a in s.actions ==> a == LoginDisconnect(kickMessage) || a == NetworkExceptionCaught(kickMessage)
  {
    if env.listenerIsLogin then
      if InvokeLoginDisconnect in env.failing then Step(Threw, [])
      else Step(Returned(()), [LoginDisconnect(kickMessage)])
    else
      if InvokeNetworkExceptionCaught in env.failing then Step(Threw, [])
      else Step(Returned(()), [NetworkExceptionCaught(kickMessage)])
  }

  /**
   * `checkAndHandleLogin`: true when the packet must not reach the server.
   * Reading the listener through an absent network manager throws, as
   * `Field.get` does on a null instance.
   */
  function CheckAndHandleLoginSpec(env: Env, hasNetworkManager: bool, removed: bool,
                                   kickMessage: Option<string>, packet: Packet): (s: Step<bool>)
    ensures s.outcome == Returned(false) <==> !env.proxyData && !packet.LoginStartPacket?
    ensures s.outcome == Returned(false) ==> s.actions == []
    ensures RemoveHandler in s.actions ==> !removed && kickMessage.None?
  {
    if env.proxyData then Step(Returned(true), [])
    else if !packet.LoginStartPacket? then Step(Returned(false), [])
    else if !hasNetworkManager || ReadPacketListener in env.failing then Step(Threw, [])
    else if kickMessage.Some? then Then(DisconnectSpec(env, kickMessage.value), true)
    else if !env.listenerIsLogin then Then(RemoveSpec(removed), true)
    else if InvokeInitUuid in env.failing then Step(Threw, [])
    else if NewLoginHandler in env.failing || InvokeFireLoginEvents in env.failing then Step(Threw, [InitUuid])
    else
      var r := RemoveSpec(removed);
      Step(if r.outcome.Threw? then Threw else Returned(true), [InitUuid, FireLoginEvents] + r.actions)
  }

  /**
   * `channelRead`: true when the packet goes on to the server. A handshake
   * under BungeeCord forwarding gets the forwarding address as its host and
   * the handler removes itself; every other packet goes on exactly when
   * `checkAndHandleLogin` did not consume it.
   */
  function ChannelReadSpec(env: Env, hasNetworkManager: bool, removed: bool, kickMessage: Option<string>,
                           remoteAddress: string, player: GameProfile, packet: Packet): (s: Step<bool>)
    ensures packet.HandshakePacket? ==> (s.outcome.Threw? <==> env.bungeeData && removed)
    ensures forall a :: a in s.actions && a.SetHandshakeHost? ==> packet.HandshakePacket? && env.bungeeData
    ensures RemoveHandler in s.actions ==> !removed
  {
    match packet
    case HandshakePacket(host) =>
      if env.bungeeData then
        var r := RemoveSpec(removed);
        var hostname := Forwarding.LegacyForwardingAddress(host, remoteAddress, player);
        Step(if r.outcome.Threw? then Threw else Returned(true), [SetHandshakeHost(hostname)] + r.actions)
      else Step(Returned(true), [])
    case _ =>
      var s := CheckAndHandleLoginSpec(env, hasNetworkManager, removed, kickMessage, packet);
      Step(if s.outcome.Threw? then Threw else Returned(!s.outcome.value), s.actions)
  }

  /** `shouldRemoveHandler`: uses the proxy-data flag read when the handler was built. */
  function ShouldRemoveHandlerSpec(proxyData: bool, kickMessage: Option<string>, uuid: Uuid): (s: Step<bool>)
    ensures s.outcome.Returned? && (s.outcome.value ==> proxyData && kickMessage.None?)
    ensures |s.actions| <= 1
  {
    if kickMessage.Some? then Step(Returned(false), [])
    else Step(Returned(proxyData), if proxyData then [] else [SetSpoofedUuid(uuid)])
  }

  /** `shouldCallFireRead`: the queued packet is read unless `checkAndHandleLogin` returned true. */
  function ShouldCallFireReadSpec(env: Env, hasNetworkManager: bool, removed: bool,
                                  kickMessage: Option<string>, packet: Packet): (s: Step<bool>)
    ensures s.outcome.Returned?
    ensures !s.outcome.value ==> env.proxyData || packet.LoginStartPacket?
  {
    var s := CheckAndHandleLoginSpec(env, hasNetworkManager, removed, kickMessage, packet);
    Step(Returned(s.outcome != Returned(true)), s.actions)
  }

  class SpigotDataHandler {
    /** `sessionCtx.getPlayer()`. */
    const player: GameProfile
    /** The host address of `ctx.channel().remoteAddress()`: the spoofed address of the session. */
    const remoteAddress: string
    /** `ProxyUtils.isProxyData()` as read by the constructor. */
    const proxyData: bool

    var networkManager: Option<NetworkManager>
    /**
     * The kick message stored on the channel, read by `getKickMessage()`.
     * Code outside this class stores it as a channel attribute, so no method
     * here sets it; the handler's owner assigns the field.
     */
    var kickMessage: Option<string>
    /** Whether the handler has been removed from the channel pipeline. */
    var removed: bool
    /** Every effect on the server so far, oldest first. */
    var log: seq<Action>

    constructor (player: GameProfile, remoteAddress: string, proxyDataAtStart: bool)
      ensures this.player == player && this.remoteAddress == remoteAddress && proxyData == proxyDataAtStart
      ensures networkManager == None && kickMessage == None && !removed && log == []
    {
      this.player := player;
      this.remoteAddress := remoteAddress;
      this.proxyData := proxyDataAtStart;
      networkManager := None;
      kickMessage := None;
      removed := false;
      log := [];
    }

    method SetHostname(hostname: string)
      modifies this`log
      ensures log == old(log) + [SetHandshakeHost(hostname)]
    {
      log := log + [SetHandshakeHost(hostname)];
    }

    method RemoveSelf() returns (r: Outcome<()>)
      modifies this`removed, this`log
      ensures r == RemoveSpec(old(removed)).outcome
      ensures log == old(log) + RemoveSpec(old(removed)).actions
      ensures removed
    {
      if removed {
        return Threw;
      }
      removed := true;
      log := log + [RemoveHandler];
      return Returned(());
    }

    method Disconnect(env: Env, message: string) returns (r: Outcome<()>)
      modifies this`log
      ensures r == DisconnectSpec(env, message).outcome
      ensures log == old(log) + DisconnectSpec(env, message).actions
    {
      if env.listenerIsLogin {
        if InvokeLoginDisconnect in env.failing {
          return Threw;
        }
        log := log + [LoginDisconnect(message)];
      } else {
        if InvokeNetworkExceptionCaught in env.failing {
          return Threw;
        }
        log := log + [NetworkExceptionCaught(message)];
      }
      return Returned(());
    }

    method CheckAndHandleLogin(env: Env, packet: Packet) returns (r: Outcome<bool>)
      modifies this`removed, this`log
      ensures var s := CheckAndHandleLoginSpec(env, networkManager.Some?, old(removed), kickMessage, packet);
        && r == s.outcome
        && log == old(log) + s.actions
        && removed == (old(removed) || RemoveHandler in s.actions)
    {
      if env.proxyData {
        return Returned(true);
      }
      if !packet.LoginStartPacket? {
        return Returned(false);
      }
      if networkManager.None? || ReadPacketListener in env.failing {
        return Threw;
      }
      if kickMessage.Some? {
        var d := Disconnect(env, kickMessage.value);
        if d.Threw? {
          return Threw;
        }
        return Returned(true);
      }
      if !env.listenerIsLogin {
        var rm := RemoveSelf();
        if rm.Threw? {
          return Threw;
        }
        return Returned(true);
      }
      if InvokeInitUuid in env.failing {
        return Threw;
      }
      log := log + [InitUuid];
      if NewLoginHandler in env.failing || InvokeFireLoginEvents in env.failing {
        return Threw;
      }
      log := log + [FireLoginEvents];
      var rm := RemoveSelf();
      if rm.Threw? {
        return Threw;
      }
      return Returned(true);
    }

    method ChannelRead(env: Env, packet: Packet) returns (r: Outcome<bool>)
      modifies this`removed, this`log
      ensures var s := ChannelReadSpec(env, networkManager.Some?, old(removed), kickMessage, remoteAddress, player, packet);
        && r == s.outcome
        && log == old(log) + s.actions
        && removed == (old(removed) || RemoveHandler in s.actions)
    {
      if packet.HandshakePacket? {
        if env.bungeeData {
          var hostname := packet.host;
          SetHostname(Forwarding.LegacyForwardingAddress(hostname, remoteAddress, player));
          var rm := RemoveSelf();
          if rm.Threw? {
            return Threw;
          }
          return Returned(true);
        }
        return Returned(true);
      }
      var handled := CheckAndHandleLogin(env, packet);
      if handled.Threw? {
        return Threw;
      }
      return Returned(!handled.value);
    }

    method ShouldRemoveHandler() returns (b: bool)
      modifies this`log
      ensures Returned(b) == ShouldRemoveHandlerSpec(proxyData, kickMessage, player.uniqueId).outcome
      ensures log == old(log) + ShouldRemoveHandlerSpec(proxyData, kickMessage, player.uniqueId).actions
    {
      if kickMessage.Some? {
        return false;
      }
      if !proxyData {
        log := log + [SetSpoofedUuid(player.uniqueId)];
      }
      return proxyData;
    }

    method ShouldCallFireRead(env: Env, queuedPacket: Packet) returns (b: bool)
      modifies this`removed, this`log
      ensures var s := ShouldCallFireReadSpec(env, networkManager.Some?, old(removed), kickMessage, queuedPacket);
        && Returned(b) == s.outcome
        && log == old(log) + s.actions
        && removed == (old(removed) || RemoveHandler in s.actions)
    {
      var handled := CheckAndHandleLogin(env, queuedPacket);
      if handled == Returned(true) {
        return false;
      }
      return true;
    }
  }

  // Properties of the decision table.

  /**
   * A handshake under BungeeCord forwarding gets the forwarding address as
   * its host, the handler removes itself and the packet goes on; without
   * BungeeCord forwarding the packet goes on untouched and the handler stays.
   */
  lemma HandshakeDecision(env: Env, hasNetworkManager: bool, kickMessage: Option<string>,
                          remoteAddress: string, player: GameProfile, host: string)
    ensures var s := ChannelReadSpec(env, hasNetworkManager, false, kickMessage, remoteAddress, player, HandshakePacket(host));
      && s.outcome == Returned(true)
      && s.actions == (if env.bungeeData
                       then [SetHandshakeHost(Forwarding.LegacyForwardingAddress(host, remoteAddress, player)), RemoveHandler]
                       else [])
  {
  }

  /** With proxy data on, every packet other than the handshake is held back and nothing else happens. */
  lemma ProxyDataHoldsBackNonHandshake(env: Env, hasNetworkManager: bool, removed: bool, kickMessage: Option<string>,
                                      remoteAddress: string, player: GameProfile, packet: Packet)
    requires env.proxyData && !packet.HandshakePacket?
    ensures ChannelReadSpec(env, hasNetworkManager, removed, kickMessage, remoteAddress, player, packet)
      == Step(Returned(false), [])
  {
  }

  /** Without proxy data, packets that are neither handshake nor login start go on and nothing happens. */
  lemma OtherPacketsPassThrough(env: Env, hasNetworkManager: bool, removed: bool, kickMessage: Option<string>,
                               remoteAddress: string, player: GameProfile, id: int)
    requires !env.proxyData
    ensures ChannelReadSpec(env, hasNetworkManager, removed, kickMessage, remoteAddress, player, OtherPacket(id))
      == Step(Returned(true), [])
  {
  }

  /**
   * Login start without proxy data, when the host calls succeed: the packet
   * is always held back, and the branch is decided by the pending kick and
   * the listener's state.
   */
  lemma LoginStartDecision(env: Env, kickMessage: Option<string>, remoteAddress: string,
                           player: GameProfile, username: string)
    requires !env.proxyData && env.failing == {}
    ensures var s := ChannelReadSpec(env, true, false, kickMessage, remoteAddress, player, LoginStartPacket(username));
      && s.outcome == Returned(false)
      && s.actions == (if kickMessage.Some? then
                         [if env.listenerIsLogin then LoginDisconnect(kickMessage.value)
                          else NetworkExceptionCaught(kickMessage.value)]
                       else if !env.listenerIsLogin then [RemoveHandler]
                       else [InitUuid, FireLoginEvents, RemoveHandler])
      && (RemoveHandler in s.actions <==> kickMessage.None?)
  {
  }

  /**
   * The handler as built never has a network manager, so a login start
   * without proxy data makes `channelRead` throw before any effect, and
   * `shouldCallFireRead` lets the packet through.
   */
  lemma LoginStartWithoutNetworkManager(env: Env, removed: bool, kickMessage: Option<string>,
                                        remoteAddress: string, player: GameProfile, username: string)
    requires !env.proxyData
    ensures ChannelReadSpec(env, false, removed, kickMessage, remoteAddress, player, LoginStartPacket(username))
      == Step(Threw, [])
    ensures ShouldCallFireReadSpec(env, false, removed, kickMessage, LoginStartPacket(username))
      == Step(Returned(true), [])
  {
  }

  /**
   * `shouldRemoveHandler` keeps the handler and writes nothing while a kick is
   * pending; otherwise it spoofs the UUID exactly when proxy data is off and
   * answers the proxy-data flag.
   */
  lemma ShouldRemoveHandlerDecision(proxyData: bool, kickMessage: Option<string>, uuid: Uuid)
    ensures var s := ShouldRemoveHandlerSpec(proxyData, kickMessage, uuid);
      && (kickMessage.Some? ==> s == Step(Returned(false), []))
      && (kickMessage.None? ==> s.outcome == Returned(proxyData))
      && (kickMessage.None? ==> (SetSpoofedUuid(uuid) in s.actions <==> !proxyData))
  {
  }

  /**
   * `shouldCallFireRead` answers the negation of `checkAndHandleLogin`, and
   * true when that throws; it never throws itself and has the same effects.
   */
  lemma ShouldCallFireReadNegates(env: Env, hasNetworkManager: bool, removed: bool,
                                  kickMessage: Option<string>, packet: Packet)
    ensures var c := CheckAndHandleLoginSpec(env, hasNetworkManager, removed, kickMessage, packet);
      var s := ShouldCallFireReadSpec(env, hasNetworkManager, removed, kickMessage, packet);
      && s.actions == c.actions
      && s.outcome == Returned(if c.outcome.Threw? then true else !c.outcome.value)
  {
  }

  /** A kick that is delivered is the only effect: no login is driven and the handler stays. */
  lemma KickTakesPrecedence(env: Env, hasNetworkManager: bool, removed: bool, message: string, packet: Packet)
    ensures var s := CheckAndHandleLoginSpec(env, hasNetworkManager, removed, Some(message), packet);
      InitUuid !in s.actions && FireLoginEvents !in s.actions && RemoveHandler !in s.actions
  {
  }
}
