/**
 The flags byte of a packet header: how `SendPacket` and `SendAck` write it, and how the dispatch
 chains of `SessionWorker::ProcessPacket`, `Client::OnRecvFrom` and `RecvDispatch` read it.
 */
module PacketFlags {

  const REPEAT: bv8 := 0x01
  const CHUNK: bv8 := 0x02
  const CHANNEL: bv8 := 0x04
  const CHANNEL_MASK: bv8 := 0x38
  const ACK: bv8 := 0x80
  const PING: bv8 := 0xC0
  const PONG: bv8 := 0xE0
  const SESSION: bv8 := 0xFE
  const DISCONNECT: bv8 := 0xFF

  const LAST_CHANNEL: bv8 := 3   // DEFAULT_CHANNEL_MASK, what g_channelMask is unless configured otherwise

  /** `PacketOpctions`, without the chunk header fields. */
  datatype Options = Options(reliable: bool, order: bool, channel: bv8, chunk: bool)

  /** The flags `SendPacket` writes. */
  function DataFlags(opt: Options): bv8 {
    if !opt.reliable then 0
    else if opt.order then REPEAT | CHANNEL | (opt.channel << 3)
    else if opt.chunk then REPEAT | CHUNK
    else REPEAT
  }

  /** The flags `SendAck` writes. */
  function AckFlags(opt: Options): bv8 {
    if opt.order then ACK | CHANNEL | (opt.channel << 3) else ACK
  }

  /** The options the receiver reads back to address its acknowledgement. */
  function HeaderToOptions(flags: bv8): Options {
    if flags & CHANNEL == CHANNEL
    then Options(flags & REPEAT == REPEAT, true, (flags & CHANNEL_MASK) >> 3, false)
    else Options(flags & REPEAT == REPEAT, false, 0, false)
  }

  /** The place of a channel in `cacheAlreadyPackets_`. */
  function Index(channel: bv8): (i: nat)
    requires channel <= 7
    ensures i < 8 && (channel <= LAST_CHANNEL ==> i < 4)
  {
    if channel == 0 then 0 else if channel == 1 then 1 else if channel == 2 then 2 else if channel == 3 then 3
    else if channel == 4 then 4 else if channel == 5 then 5 else if channel == 6 then 6 else 7
  }

  /** The receive state a data packet goes to. */
  datatype Route = Ordered(channel: nat) | Unordered(chunk: bool) | Newest | NoSuchChannel

  /** The channel bits of a flags byte. */
  function ChannelBits(flags: bv8): (channel: bv8)
    ensures channel <= 7
  {
    (flags & CHANNEL_MASK) >> 3
  }

  /** With channels 0 to `last`. */
  function RouteWith(flags: bv8, last: bv8): Route {
    if flags & REPEAT == REPEAT then
      if flags & CHANNEL > 0 then
        if ChannelBits(flags) > last then NoSuchChannel else Ordered(Index(ChannelBits(flags)))
      else Unordered(flags & CHUNK > 0)
    else Newest
  }

  function RouteOf(flags: bv8): (r: Route)
    ensures r.Ordered? ==> r.channel < 4
  {
    RouteWith(flags, LAST_CHANNEL)
  }

  /** The send state an acknowledgement goes to. */
  function AckRouteOf(flags: bv8): (r: Route)
    ensures r.Ordered? ==> r.channel < 4
  {
    if flags & CHANNEL > 0 then
      if ChannelBits(flags) > LAST_CHANNEL then NoSuchChannel else Ordered(Index(ChannelBits(flags)))
    else Unordered(false)
  }

  /** What the sender means by its options. */
  function Meant(opt: Options): Route
    requires ValidOptions(opt)
  {
    if !opt.reliable then Newest else if opt.order then Ordered(Index(opt.channel)) else Unordered(opt.chunk)
  }

  /** The branch a dispatch chain takes. */
  datatype Branch = Connect | Disconnect | Ping | Pong | Data | ReliableData | Acknowledge | Ignored

  function ServerBranch(flags: bv8): Branch {
    if flags == SESSION then Connect
    else if flags == PONG then Pong
    else if flags == PING then Ping
    else if flags == 0 then Data
    else if flags & REPEAT == REPEAT then ReliableData
    else if flags & ACK == ACK then Acknowledge
    else Ignored
  }

  function ClientBranch(flags: bv8): Branch {
    if flags == SESSION then Connect
    else if flags == PING then Ping
    else if flags == DISCONNECT then Disconnect
    else if flags == 0 then Data
    else if flags & REPEAT == REPEAT then ReliableData
    else if flags & ACK == ACK then Acknowledge
    else Ignored
  }

  predicate ValidOptions(opt: Options) {
    opt.channel <= LAST_CHANNEL
  }

  /** Both chains send a data packet to the state its sender meant. */
  lemma DataArrives(opt: Options)
    requires ValidOptions(opt)
    ensures RouteOf(DataFlags(opt)) == Meant(opt)
    ensures ServerBranch(DataFlags(opt)) == ClientBranch(DataFlags(opt))
    ensures ServerBranch(DataFlags(opt)) == if opt.reliable then ReliableData else Data
  {
  }

  /** The flags of the answer to a packet. */
  function AnswerFlags(flags: bv8): bv8 {
    AckFlags(HeaderToOptions(flags))
  }

  /**
   The answer to a reliable packet is read as an acknowledgement by both chains, although PING,
   PONG and SESSION contain its bit; and it goes to the stream the packet came from.
   */
  lemma AnswerReturns(flags: bv8)
    ensures RouteOf(flags).Ordered? ==> AckRouteOf(AnswerFlags(flags)) == RouteOf(flags)
    ensures RouteOf(flags).Unordered? ==> AckRouteOf(AnswerFlags(flags)).Unordered?
    ensures RouteOf(flags).Ordered? || RouteOf(flags).Unordered? ==>
              ServerBranch(AnswerFlags(flags)) == Acknowledge && ClientBranch(AnswerFlags(flags)) == Acknowledge
  {
  }

  /** The two chains take the same branch for every byte but PONG and DISCONNECT. */
  lemma ChainsAgreeIff(flags: bv8)
    ensures ServerBranch(flags) == ClientBranch(flags) <==> flags != PONG && flags != DISCONNECT
  {
  }

  /**
   A client's DISCONNECT falls through the server's chain to the REPEAT test. There it goes nowhere,
   unless the server is configured with eight channels; then it goes to the last of them.
   */
  lemma ServerDropsDisconnect(last: bv8)
    requires last <= 7
    ensures ClientBranch(DISCONNECT) == Disconnect && ServerBranch(DISCONNECT) == ReliableData
    ensures RouteWith(DISCONNECT, last) == if last < 7 then NoSuchChannel else Ordered(7)
  {
  }
}
