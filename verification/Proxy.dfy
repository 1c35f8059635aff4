/**
The proxy's first exchange with the exit on a fresh relay stream: a no-auth SOCKS5 greeting as
in section 3 of RFC 1928, the method selection, then the forwarded request.
*/
module Proxy {
  import opened Bytes
  import opened Framing

  const GREETING: seq<byte> := [0x05, 0x01, 0x00]
  const NO_AUTH: seq<byte> := [0x05, 0x00]

  /** writeFull: Write until everything is taken; a Write of nothing without an error is an error. */
  method WriteFull(dst: Writer, data: seq<byte>) returns (ok: bool, ghost sent: nat)
    modifies dst
    ensures sent <= |data| && dst.out == old(dst.out) + data[..sent]
    ensures ok ==> sent == |data|
    ensures old(dst.log) <= dst.log
    ensures ok <==> forall i :: |old(dst.log)| <= i < |dst.log| ==> Good(dst.log[i])
    ensures forall i :: |old(dst.log)| <= i < |dst.log| - 1 ==> Good(dst.log[i])
  {
    var left := data;
    sent := 0;
    while |left| > 0
      invariant sent <= |data| && left == data[sent..]
      invariant dst.out == old(dst.out) + data[..sent]
      invariant old(dst.log) <= dst.log
      invariant forall i :: |old(dst.log)| <= i < |dst.log| ==> Good(dst.log[i])
      decreases |left|
    {
      ghost var before := dst.out;
      var o := dst.Write(left);
      assert data[..sent + o.n] == data[..sent] + left[..o.n];
      sent := sent + o.n;
      assert dst.log[|dst.log| - 1].outcome == o;
      if o.failed {
        return false, sent;
      }
      if o.n == 0 {
        return false, sent;
      }
      left := left[o.n..];
    }
    return true, sent;
  }

  datatype ForwardError = GreetingFailed | ReplyUnread | Rejected | RequestFailed

  /**
  forwardRequest: success means that exactly the greeting and the request went out and exactly
  the two bytes of the no-auth selection were consumed. No byte of the request is sent before
  the exit has selected no-auth, and nothing behind the selection is read.
  */
  method ForwardRequest(dst: Writer, src: Reader, request: seq<byte>)
    returns (err: Option<ForwardError>, ghost sent: nat)
    modifies dst, src
    ensures sent <= |GREETING| + |request| && dst.out == old(dst.out) + ([0x05, 0x01, 0x00] + request)[..sent]
    ensures err.None? ==> sent == |GREETING| + |request|
    ensures err.None? || err == Some(RequestFailed) ==> old(src.rest) == [0x05, 0x00] + src.rest
    ensures err == Some(Rejected) ==>
      |old(src.rest)| >= 2 && old(src.rest)[..2] != NO_AUTH && src.rest == old(src.rest)[2..]
    ensures sent > |GREETING| ==> NO_AUTH <= old(src.rest)
    ensures err == Some(GreetingFailed) ==> src.rest == old(src.rest)
    ensures old(dst.log) <= dst.log
    ensures err == Some(GreetingFailed) || err == Some(RequestFailed) <==>
      exists i :: |old(dst.log)| <= i < |dst.log| && !Good(dst.log[i])
    ensures err == Some(ReplyUnread) ==> |old(src.rest)| < |NO_AUTH| && src.rest == []
  {
    var ok;
    ok, sent := WriteFull(dst, GREETING);
    assert GREETING[..sent] == (GREETING + request)[..sent];
    if !ok {
      return Some(GreetingFailed), sent;
    }
    var reply, e := src.ReadFull(2);
    if e.Some? {
      return Some(ReplyUnread), sent;
    }
    if reply != NO_AUTH {
      return Some(Rejected), sent;
    }
    ghost var more;
    ok, more := WriteFull(dst, request);
    assert GREETING + request[..more] == (GREETING + request)[..|GREETING| + more];
    assert (old(dst.out) + GREETING) + request[..more] == old(dst.out) + (GREETING + request[..more]);
    sent := sent + more;
    if !ok {
      return Some(RequestFailed), sent;
    }
    return None, sent;
  }
}
