/**
 * `ChannelOutPacketHandler`: the outbound encoder that runs every transform
 * registered for a message's class and passes one message on.
 */
module PacketOut {
  /**
   * A packet object: `ref` stands for its identity, `className` for its
   * runtime class, `payload` for its fields.
   */
  datatype Packet = Packet(ref: nat, className: string, payload: seq<int>)

  /**
   * `res.equals(msg)` as the packet classes define it: an identity `equals`
   * compares `ref`, an overriding one may compare fields.
   */
  type PacketEquals = (Packet, Packet) -> bool

  /** The `ChannelHandlerContext` handed to every transform. */
  datatype ChannelContext = ChannelContext(channelId: nat)

  /** A registered transform: `TriFunction<ChannelHandlerContext, Object, Boolean, Object>`. */
  type PacketTransform = (ChannelContext, Packet, bool) -> Packet

  /** The registry: transforms per exact packet class, in registration order. */
  type Registry = map<string, seq<PacketTransform>>

  /** `getPacketHandlers(cls)`: the transforms registered for `cls`, none when it has no entry. */
  function HandlersFor(registry: Registry, className: string): seq<PacketTransform> {
    if className in registry then registry[className] else []
  }

  /** What each transform returns when it is given the original message. */
  function Results(handlers: seq<PacketTransform>, ctx: ChannelContext, msg: Packet, toServer: bool): (rs: seq<Packet>)
    ensures |rs| == |handlers|
    ensures forall i :: 0 <= i < |handlers| ==> rs[i] == handlers[i](ctx, msg, toServer)
  {
    if handlers == [] then []
    else Results(handlers[..|handlers| - 1], ctx, msg, toServer) + [handlers[|handlers| - 1](ctx, msg, toServer)]
  }

  /** The last result that is not `equals` to `msg`; `msg` itself when there is none. */
  function LastChanged(results: seq<Packet>, msg: Packet, eq: PacketEquals): (r: Packet)
    ensures r == msg || r in results
  {
    if results == [] then msg
    else if !eq(results[|results| - 1], msg) then results[|results| - 1]
    else LastChanged(results[..|results| - 1], msg, eq)
  }

  /** The message `encode` passes on for `msg`. */
  function Encoded(registry: Registry, ctx: ChannelContext, msg: Packet, toServer: bool, eq: PacketEquals): (r: Packet)
    ensures var hs := HandlersFor(registry, msg.className);
      r == msg || exists i :: 0 <= i < |hs| && r == hs[i](ctx, msg, toServer)
  {
    LastChanged(Results(HandlersFor(registry, msg.className), ctx, msg, toServer), msg, eq)
  }

  /**
   * The output is `msg` when every result `equals` `msg`; otherwise it is the
   * result at the last position whose result does not.
   */
  lemma {:induction false} LastChangedIsLastDifference(results: seq<Packet>, msg: Packet, eq: PacketEquals)
    ensures (forall i :: 0 <= i < |results| ==> eq(results[i], msg)) ==> LastChanged(results, msg, eq) == msg
    ensures forall k ::
              (0 <= k < |results| && !eq(results[k], msg) && (forall j :: k < j < |results| ==> eq(results[j], msg)))
              ==> LastChanged(results, msg, eq) == results[k]
  {
    if forall i :: 0 <= i < |results| ==> eq(results[i], msg) {
      LastChangedAllSame(results, msg, eq);
    }
    forall k | 0 <= k < |results| && !eq(results[k], msg) && (forall j :: k < j < |results| ==> eq(results[j], msg))
      ensures LastChanged(results, msg, eq) == results[k]
    {
      LastChangedAt(results, msg, eq, k);
    }
  }

  lemma {:induction false} LastChangedAllSame(results: seq<Packet>, msg: Packet, eq: PacketEquals)
    requires forall i :: 0 <= i < |results| ==> eq(results[i], msg)
    ensures LastChanged(results, msg, eq) == msg
  {
    if results != [] {
      var init := results[..|results| - 1];
      assert forall i :: 0 <= i < |init| ==> init[i] == results[i];
      LastChangedAllSame(init, msg, eq);
    }
  }

  lemma {:induction false} LastChangedAt(results: seq<Packet>, msg: Packet, eq: PacketEquals, k: nat)
    requires k < |results| && !eq(results[k], msg)
    requires forall j :: k < j < |results| ==> eq(results[j], msg)
    ensures LastChanged(results, msg, eq) == results[k]
  {
    if k < |results| - 1 {
      var init := results[..|results| - 1];
      assert eq(results[|results| - 1], msg);
      assert forall j :: 0 <= j < |init| ==> init[j] == results[j];
      LastChangedAt(init, msg, eq, k);
    }
  }

  /**
   * Under identity `equals`, a transform that returns a fresh copy of `msg`
   * counts as a change: with results X (new contents) then Y (a copy of
   * `msg`), Y is passed on. Under a field-wise `equals`, the copy counts as
   * no change and X is passed on.
   */
  lemma EqualsDecidesWhatCounts()
    ensures var msg := Packet(0, "Chat", [1]);
      var x := Packet(1, "Chat", [2]);
      var y := Packet(2, "Chat", [1]);
      && LastChanged([x, y], msg, (a: Packet, b: Packet) => a.ref == b.ref) == y
      && LastChanged([x, y], msg, (a: Packet, b: Packet) => a.className == b.className && a.payload == b.payload) == x
  {
    var msg := Packet(0, "Chat", [1]);
    var x := Packet(1, "Chat", [2]);
    var y := Packet(2, "Chat", [1]);
    var byField := (a: Packet, b: Packet) => a.className == b.className && a.payload == b.payload;
    assert [x, y][..1] == [x];
    assert LastChanged([x], msg, byField) == x;
  }

  /** With no transform registered for the message's class, `encode` passes the message itself on. */
  lemma UnregisteredPassesThrough(registry: Registry, ctx: ChannelContext, msg: Packet, toServer: bool, eq: PacketEquals)
    requires msg.className !in registry
    ensures Encoded(registry, ctx, msg, toServer, eq) == msg
  {
  }

  /**
   * Each transform sees the original message, not an earlier transform's
   * result: a later transform that returns something `equals` to `msg`
   * hides nothing, and the output depends only on each transform's own
   * answer for `msg`. Transforms are taken not to change `msg` in place.
   */
  lemma EncodedIsLastChangedResult(registry: Registry, ctx: ChannelContext, msg: Packet, toServer: bool, eq: PacketEquals)
    ensures var hs := HandlersFor(registry, msg.className);
      var out := Encoded(registry, ctx, msg, toServer, eq);
      && ((forall i :: 0 <= i < |hs| ==> eq(hs[i](ctx, msg, toServer), msg)) ==> out == msg)
      && (forall k :: (0 <= k < |hs| && !eq(hs[k](ctx, msg, toServer), msg)
                       && (forall j :: k < j < |hs| ==> eq(hs[j](ctx, msg, toServer), msg)))
            ==> out == hs[k](ctx, msg, toServer))
  {
    var hs := HandlersFor(registry, msg.className);
    LastChangedIsLastDifference(Results(hs, ctx, msg, toServer), msg, eq);
  }

  /** One call of a transform, as `encode` makes it: which transform, and its three arguments. */
  datatype Invocation = Invocation(handlerIndex: nat, ctx: ChannelContext, msg: Packet, toServer: bool)

  /** The calls `encode` makes: every transform once, in list order, each with the original message. */
  function Invocations(count: nat, ctx: ChannelContext, msg: Packet, toServer: bool): (calls: seq<Invocation>)
    ensures |calls| == count
    ensures forall i :: 0 <= i < count ==> calls[i] == Invocation(i, ctx, msg, toServer)
  {
    if count == 0 then [] else Invocations(count - 1, ctx, msg, toServer) + [Invocation(count - 1, ctx, msg, toServer)]
  }

  /** The `out` list of `MessageToMessageEncoder`. */
  class MessageList {
    var items: seq<Packet>

    constructor ()
      ensures items == []
    {
      items := [];
    }
  }

  class ChannelOutPacketHandler {
    const packetHandlers: Registry
    const toServer: bool
    /** Every transform call made so far, oldest first. */
    ghost var invocations: seq<Invocation>

    constructor (packetHandlers: Registry, toServer: bool)
      ensures this.packetHandlers == packetHandlers && this.toServer == toServer
      ensures invocations == []
    {
      this.packetHandlers := packetHandlers;
      this.toServer := toServer;
      invocations := [];
    }

    /**
     * `encode`: appends exactly one message to `out`, the last transform
     * result that is not `eq` to `msg`, and calls every transform registered
     * for the message's class once, in order, with the direction fixed at
     * construction. The `invocations` trace is written beside each call; it
     * is the `out.items` ensures, through `Results`, that pins each call's
     * argument to the original `msg`.
     */
    method Encode(ctx: ChannelContext, msg: Packet, out: MessageList, eq: PacketEquals)
      modifies this`invocations, out
      ensures out.items == old(out.items) + [Encoded(packetHandlers, ctx, msg, toServer, eq)]
      ensures invocations
        == old(invocations) + Invocations(|HandlersFor(packetHandlers, msg.className)|, ctx, msg, toServer)
    {
      var handlers := HandlersFor(packetHandlers, msg.className);
      var packet := msg;
      for i := 0 to |handlers|
        invariant packet == LastChanged(Results(handlers[..i], ctx, msg, toServer), msg, eq)
        invariant invocations == old(invocations) + Invocations(i, ctx, msg, toServer)
        invariant out.items == old(out.items)
      {
        var res := handlers[i](ctx, msg, toServer);
        invocations := invocations + [Invocation(i, ctx, msg, toServer)];
        assert handlers[..i + 1][..i] == handlers[..i];
        if !eq(res, msg) {
          packet := res;
        }
      }
      assert handlers[..|handlers|] == handlers;
      out.items := out.items + [packet];
    }
  }
}
