/**
The exit's destination policy, from Go's net.IP predicates, compared with the address blocks
that the standards set aside. An address is a byte sequence of any length, as net.IP is.
*/
module Access {
  import opened Bytes

  type IP = seq<byte>

  const V4_IN_V6: IP := [0, 0, 0, 0, 0, 0, 0, 0, 0, 0, 0xff, 0xff]
  const V6_LOOPBACK: IP := [0, 0, 0, 0, 0, 0, 0, 0, 0, 0, 0, 0, 0, 0, 0, 1]
  const V6_UNSPECIFIED: IP := [0, 0, 0, 0, 0, 0, 0, 0, 0, 0, 0, 0, 0, 0, 0, 0]

  /** net.IP.To4: the 4-byte form of an IPv4 or IPv4-mapped address. */
  function To4(ip: IP): Option<IP> {
    if |ip| == 4 then Some(ip)
    else if |ip| == 16 && ip[..12] == V4_IN_V6 then Some(ip[12..])
    else None
  }

  /** The replacement that both the policy and handleConnect make. */
  function Normalise(ip: IP): IP {
    if To4(ip).Some? then To4(ip).value else ip
  }

  /** The mapped form of an IPv4 address. */
  function Mapped(v4: IP): IP {
    V4_IN_V6 + v4
  }

  // The predicates below see normalised addresses, as they do inside policy.allowed.

  predicate IsLoopback(ip: IP) {
    if |ip| == 4 then ip[0] == 127 else ip == V6_LOOPBACK
  }

  predicate IsPrivate(ip: IP) {
    if |ip| == 4 then
      || ip[0] == 10
      || (ip[0] == 172 && ip[1] / 16 == 1)
      || (ip[0] == 192 && ip[1] == 168)
    else |ip| == 16 && ip[0] / 2 == 0x7e
  }

  predicate IsLinkLocalUnicast(ip: IP) {
    if |ip| == 4 then ip[0] == 169 && ip[1] == 254
    else |ip| == 16 && ip[0] == 0xfe && ip[1] / 64 == 2
  }

  predicate IsLinkLocalMulticast(ip: IP) {
    if |ip| == 4 then ip[0] == 224 && ip[1] == 0 && ip[2] == 0
    else |ip| == 16 && ip[0] == 0xff && ip[1] % 16 == 2
  }

  predicate IsInterfaceLocalMulticast(ip: IP) {
    |ip| == 16 && ip[0] == 0xff && ip[1] % 16 == 1
  }

  predicate IsMulticast(ip: IP) {
    if |ip| == 4 then ip[0] / 16 == 0xe else |ip| == 16 && ip[0] == 0xff
  }

  predicate IsUnspecified(ip: IP) {
    if |ip| == 4 then ip == [0, 0, 0, 0] else ip == V6_UNSPECIFIED
  }

  predicate IsBroadcastV4(ip: IP) {
    ip == [255, 255, 255, 255]
  }

  /** policy.allowed. */
  predicate Allowed(allowLoopback: bool, address: IP) {
    var ip := Normalise(address);
    if IsLoopback(ip) then allowLoopback
    else if IsPrivate(ip) then false
    else if IsLinkLocalUnicast(ip) then false
    else if IsLinkLocalMulticast(ip) then false
    else if IsInterfaceLocalMulticast(ip) then false
    else if IsMulticast(ip) then false
    else if IsUnspecified(ip) then false
    else if To4(ip).Some? && IsBroadcastV4(ip) then false
    else true
  }

  // ----- The reference: address blocks -----

  /** A CIDR block: the addresses that agree with `net` in the first `bits` bits. */
  datatype Block = Block(net: IP, bits: nat)

  /** The leading `bits` bits of two bytes agree. */
  predicate ByteAgrees(a: byte, b: byte, bits: int) {
    if bits <= 0 then true
    else if bits >= 8 then a == b
    else
      var scale := if bits == 1 then 128 else if bits == 2 then 64 else if bits == 3 then 32 else if bits == 4 then 16
                   else if bits == 5 then 8 else if bits == 6 then 4 else 2;
      a / scale == b / scale
  }

  predicate InBlock(ip: IP, b: Block) {
    |ip| == |b.net| && forall i :: 0 <= i < |ip| ==> ByteAgrees(ip[i], b.net[i], b.bits - 8 * i)
  }

  const LOOPBACK_V4 := Block([127, 0, 0, 0], 8)
  const LOOPBACK_V6 := Block(V6_LOOPBACK, 128)

  // Section 3 of RFC 1918.
  const PRIVATE_10 := Block([10, 0, 0, 0], 8)
  const PRIVATE_172 := Block([172, 16, 0, 0], 12)
  const PRIVATE_192 := Block([192, 168, 0, 0], 16)
  const LINK_LOCAL_V4 := Block([169, 254, 0, 0], 16)
  const MULTICAST_V4 := Block([224, 0, 0, 0], 4)
  const UNSPECIFIED_V4 := Block([0, 0, 0, 0], 32)
  const BROADCAST_V4 := Block([255, 255, 255, 255], 32)

  function V6Block(b0: byte, b1: byte, bits: nat): Block {
    Block([b0, b1, 0, 0, 0, 0, 0, 0, 0, 0, 0, 0, 0, 0, 0, 0], bits)
  }

  // Section 3 of RFC 4193, and sections 2.5.6, 2.7 and 2.5.2 of RFC 4291.
  const UNIQUE_LOCAL := V6Block(0xfc, 0, 7)
  const LINK_LOCAL_V6 := V6Block(0xfe, 0x80, 10)
  const MULTICAST_V6 := V6Block(0xff, 0, 8)
  const UNSPECIFIED_V6 := Block(V6_UNSPECIFIED, 128)

  predicate InLoopback(ip: IP) {
    InBlock(ip, LOOPBACK_V4) || InBlock(ip, LOOPBACK_V6)
  }

  predicate InRefused(ip: IP) {
    || InBlock(ip, PRIVATE_10) || InBlock(ip, PRIVATE_172) || InBlock(ip, PRIVATE_192)
    || InBlock(ip, LINK_LOCAL_V4) || InBlock(ip, MULTICAST_V4)
    || InBlock(ip, UNSPECIFIED_V4) || InBlock(ip, BROADCAST_V4)
    || InBlock(ip, UNIQUE_LOCAL) || InBlock(ip, LINK_LOCAL_V6)
    || InBlock(ip, MULTICAST_V6) || InBlock(ip, UNSPECIFIED_V6)
  }

  lemma BlockV4(ip: IP, b: Block)
    requires |ip| == 4 == |b.net|
    ensures InBlock(ip, b) <==>
      && ByteAgrees(ip[0], b.net[0], b.bits) && ByteAgrees(ip[1], b.net[1], b.bits - 8)
      && ByteAgrees(ip[2], b.net[2], b.bits - 16) && ByteAgrees(ip[3], b.net[3], b.bits - 24)
  {
    hide ByteAgrees;
    if InBlock(ip, b) {
      assert ByteAgrees(ip[0], b.net[0], b.bits - 8 * 0) && ByteAgrees(ip[1], b.net[1], b.bits - 8 * 1);
      assert ByteAgrees(ip[2], b.net[2], b.bits - 8 * 2) && ByteAgrees(ip[3], b.net[3], b.bits - 8 * 3);
    }
  }

  lemma BlockV6(ip: IP, b0: byte, b1: byte, bits: nat)
    requires |ip| == 16 && bits <= 16
    ensures InBlock(ip, V6Block(b0, b1, bits)) <==> ByteAgrees(ip[0], b0, bits) && ByteAgrees(ip[1], b1, bits - 8)
  {
    var b := V6Block(b0, b1, bits);
    if InBlock(ip, b) {
      assert ByteAgrees(ip[0], b.net[0], bits - 8 * 0) && ByteAgrees(ip[1], b.net[1], bits - 8 * 1);
    }
  }

  lemma BlockWhole(ip: IP, net: IP)
    requires |ip| == |net|
    ensures InBlock(ip, Block(net, 8 * |net|)) <==> ip == net
  {
    var b := Block(net, 8 * |net|);
    if InBlock(ip, b) {
      forall i | 0 <= i < |ip| ensures ip[i] == net[i] {
        assert ByteAgrees(ip[i], b.net[i], b.bits - 8 * i);
      }
    }
  }

  lemma PrivateV4(ip: IP)
    requires |ip| == 4
    ensures IsPrivate(ip) <==> InBlock(ip, PRIVATE_10) || InBlock(ip, PRIVATE_172) || InBlock(ip, PRIVATE_192)
  {
    BlockV4(ip, PRIVATE_10);
    BlockV4(ip, PRIVATE_172);
    BlockV4(ip, PRIVATE_192);
    hide InBlock;
  }

  lemma LocalV4(ip: IP)
    requires |ip| == 4
    ensures IsLoopback(ip) <==> InBlock(ip, LOOPBACK_V4)
    ensures IsLinkLocalUnicast(ip) <==> InBlock(ip, LINK_LOCAL_V4)
  {
    BlockV4(ip, LOOPBACK_V4);
    BlockV4(ip, LINK_LOCAL_V4);
    hide InBlock;
  }

  lemma MulticastV4(ip: IP)
    requires |ip| == 4
    ensures IsMulticast(ip) <==> InBlock(ip, MULTICAST_V4)
    ensures IsLinkLocalMulticast(ip) || IsInterfaceLocalMulticast(ip) ==> IsMulticast(ip)
  {
    BlockV4(ip, MULTICAST_V4);
    hide InBlock;
  }

  lemma SingleV4(ip: IP)
    requires |ip| == 4
    ensures IsUnspecified(ip) <==> InBlock(ip, UNSPECIFIED_V4)
    ensures IsBroadcastV4(ip) <==> InBlock(ip, BROADCAST_V4)
  {
    BlockWhole(ip, UNSPECIFIED_V4.net);
    BlockWhole(ip, BROADCAST_V4.net);
    hide InBlock;
  }

  /** No IPv4 address lies in an IPv6 block. */
  lemma V4InNoV6Block(ip: IP)
    requires |ip| == 4
    ensures !InBlock(ip, LOOPBACK_V6) && !InBlock(ip, UNIQUE_LOCAL) && !InBlock(ip, LINK_LOCAL_V6)
    ensures !InBlock(ip, MULTICAST_V6) && !InBlock(ip, UNSPECIFIED_V6)
  {
  }

  lemma AllowedV4(allowLoopback: bool, ip: IP)
    requires |ip| == 4
    ensures Allowed(allowLoopback, ip) <==> !InRefused(ip) && (allowLoopback || !InLoopback(ip))
  {
    LocalV4(ip);
    PrivateV4(ip);
    MulticastV4(ip);
    SingleV4(ip);
    V4InNoV6Block(ip);
    hide InBlock, IsLoopback, IsPrivate, IsLinkLocalUnicast, IsLinkLocalMulticast,
      IsInterfaceLocalMulticast, IsMulticast, IsUnspecified, IsBroadcastV4;
  }

  lemma AllowedV6(allowLoopback: bool, ip: IP)
    requires |ip| == 16 && To4(ip).None?
    ensures Allowed(allowLoopback, ip) <==> !InRefused(ip) && (allowLoopback || !InLoopback(ip))
  {
    BlockWhole(ip, V6_LOOPBACK);
    BlockWhole(ip, V6_UNSPECIFIED);
    BlockV6(ip, 0xfc, 0, 7);
    BlockV6(ip, 0xfe, 0x80, 10);
    BlockV6(ip, 0xff, 0, 8);
  }

  lemma NormaliseShape(ip: IP)
    requires |ip| == 4 || |ip| == 16
    ensures |Normalise(ip)| == 4 || (|Normalise(ip)| == 16 && To4(Normalise(ip)).None?)
    ensures Normalise(Normalise(ip)) == Normalise(ip)
  {
  }

  /** For every IPv4 and IPv6 address the policy permits exactly the complement of the refused blocks. */
  lemma AllowedIff(allowLoopback: bool, ip: IP)
    requires |ip| == 4 || |ip| == 16
    ensures Allowed(allowLoopback, ip) <==>
      !InRefused(Normalise(ip)) && (allowLoopback || !InLoopback(Normalise(ip)))
  {
    NormaliseShape(ip);
    var n := Normalise(ip);
    assert Allowed(allowLoopback, ip) == Allowed(allowLoopback, n);
    hide Allowed, InRefused, InLoopback;
    if |n| == 4 {
      AllowedV4(allowLoopback, n);
    } else {
      AllowedV6(allowLoopback, n);
    }
  }

  /** An IPv4 address and its mapped form get the same answer. */
  lemma MappedSame(allowLoopback: bool, v4: IP)
    requires |v4| == 4
    ensures Allowed(allowLoopback, Mapped(v4)) == Allowed(allowLoopback, v4)
    ensures Normalise(Mapped(v4)) == v4
  {
    assert Mapped(v4)[..12] == V4_IN_V6 && Mapped(v4)[12..] == v4;
  }

  /** Bytes that are no address at all, such as the nil IP, pass the policy. */
  lemma MalformedPasses(allowLoopback: bool, ip: IP)
    requires |ip| != 4 && |ip| != 16
    ensures Allowed(allowLoopback, ip)
  {
  }

  // ----- handleConnect: policy before dial -----

  datatype Effect =
    | ReplyRefused
    | Dial(ip: IP, port: nat)
    | ReplyUnreachable
    | ReplySuccess
    | CloseTarget
    | Forward

  /** The connection effects of handleConnect, given how the dial and the reply go. */
  function HandleConnect(allowLoopback: bool, dest: IP, port: nat, dialOk: bool, replyOk: bool, deadlineOk: bool)
    : seq<Effect>
  {
    var ip := Normalise(dest);
    if !Allowed(allowLoopback, ip) then [ReplyRefused]
    else [Dial(ip, port)] + AfterDial(dialOk, replyOk, deadlineOk)
  }

  function AfterDial(dialOk: bool, replyOk: bool, deadlineOk: bool): seq<Effect> {
    if !dialOk then [ReplyUnreachable]
    else if !replyOk then [ReplySuccess, CloseTarget, CloseTarget]
    else if !deadlineOk then [ReplySuccess, CloseTarget]
    else [ReplySuccess, Forward, CloseTarget]
  }

  /**
  Whatever the network does, every address dialled is the normalised destination and lies
  outside every refused block; a refused destination causes no dial at all.
  */
  lemma DialledIsPermitted(dest: IP, port: nat, dialOk: bool, replyOk: bool, deadlineOk: bool, e: Effect)
    requires e in HandleConnect(false, dest, port, dialOk, replyOk, deadlineOk) && e.Dial?
    ensures e == Dial(Normalise(dest), port) && Allowed(false, e.ip)
    ensures |dest| == 4 || |dest| == 16 ==> !InRefused(e.ip) && !InLoopback(e.ip)
  {
    if |dest| == 4 || |dest| == 16 {
      NormaliseShape(dest);
      AllowedIff(false, Normalise(dest));
    }
    hide InRefused, InLoopback;
  }

  predicate IsReply(e: Effect) {
    e.ReplyRefused? || e.ReplyUnreachable? || e.ReplySuccess?
  }

  /** The policy, in terms of address blocks. */
  predicate Permitted(allowLoopback: bool, dest: IP) {
    !InRefused(Normalise(dest)) && (allowLoopback || !InLoopback(Normalise(dest)))
  }

  lemma PermittedIsAllowed(allowLoopback: bool, dest: IP)
    requires |dest| == 4 || |dest| == 16
    ensures Permitted(allowLoopback, dest) <==> Allowed(allowLoopback, Normalise(dest))
  {
    NormaliseShape(dest);
    AllowedIff(allowLoopback, Normalise(dest));
    hide InRefused, InLoopback, Allowed;
  }

  /** After a dial: one reply first, then perhaps the forwarding, and a target that was reached is closed last. */
  lemma AfterDialEffects(dialOk: bool, replyOk: bool, deadlineOk: bool)
    ensures var es := AfterDial(dialOk, replyOk, deadlineOk);
      && es != [] && (forall i :: 1 <= i < |es| ==> !IsReply(es[i])) && (forall i :: 0 <= i < |es| ==> !es[i].Dial?)
      && es[0] == (if dialOk then ReplySuccess else ReplyUnreachable)
      && (Forward in es <==> dialOk && replyOk && deadlineOk)
      && (Forward in es ==> |es| == 3 && es[1] == Forward)
      && (dialOk <==> es[|es| - 1] == CloseTarget)
      && (CloseTarget in es ==> dialOk)
  {
  }

  /**
  What a CONNECT request should do: a dial exactly for a permitted destination, exactly one reply
  and which one, forwarding exactly when everything went well and only between the reply and the
  close, and a target that was reached is closed last of all.
  */
  ghost predicate Behaves(es: seq<Effect>, permitted: bool, dial: Effect, dialOk: bool, restOk: bool) {
    && es != [] && (!permitted ==> es == [ReplyRefused])
    && (permitted <==> es[0] == dial)
    && (forall i :: 1 <= i < |es| ==> !es[i].Dial?)
    && (forall i :: 0 <= i < |es| && IsReply(es[i]) ==> i == if permitted then 1 else 0)
    && (permitted ==> |es| >= 2 && es[1] == if dialOk then ReplySuccess else ReplyUnreachable)
    && (Forward in es <==> permitted && dialOk && restOk)
    && (Forward in es ==> |es| == 4 && es[2] == Forward)
    && (permitted && dialOk <==> es[|es| - 1] == CloseTarget)
    && (CloseTarget in es ==> permitted && dialOk)
  }

  lemma DialledBehaves(dial: Effect, dialOk: bool, replyOk: bool, deadlineOk: bool)
    requires dial.Dial?
    ensures Behaves([dial] + AfterDial(dialOk, replyOk, deadlineOk), true, dial, dialOk, replyOk && deadlineOk)
  {
    AfterDialEffects(dialOk, replyOk, deadlineOk);
    hide AfterDial;
    var tail := AfterDial(dialOk, replyOk, deadlineOk);
    var es := [dial] + tail;
    assert es[|es| - 1] == tail[|tail| - 1];
    assert forall i :: 1 <= i < |es| ==> es[i] == tail[i - 1];
    assert Forward in es <==> Forward in tail;
  }

  /** For every IPv4 and IPv6 destination, and however the network behaves, that is what it does. */
  lemma ConnectEffects(
      allowLoopback: bool, dest: IP, port: nat, dialOk: bool, replyOk: bool, deadlineOk: bool)
    requires |dest| == 4 || |dest| == 16
    ensures Behaves(HandleConnect(allowLoopback, dest, port, dialOk, replyOk, deadlineOk),
                    Permitted(allowLoopback, dest), Dial(Normalise(dest), port), dialOk, replyOk && deadlineOk)
  {
    PermittedIsAllowed(allowLoopback, dest);
    hide Permitted, Allowed, AfterDial, Normalise;
    if Permitted(allowLoopback, dest) {
      hide Behaves;
      DialledBehaves(Dial(Normalise(dest), port), dialOk, replyOk, deadlineOk);
    }
  }
}
