/** The timestamp in the default ping and its reading from the echoed pong:
    src/socket.rs 48-52 and 466-472. */
module Latency {
  import opened Wire

  const WORD: nat := 0x1_0000_0000_0000_0000   // 2^64, the range of the `as u64` cast

  const STAMP: nat := 16                       // the bytes of a `u128`

  function Pow256(w: nat): (p: nat)
    ensures p > 0
  {
    if w == 0 then 1 else 256 * Pow256(w - 1)
  }

  /** `to_be_bytes` of an integer of `w` bytes. */
  function ToBigEndian(n: nat, w: nat): (bytes: seq<Byte>)
    ensures |bytes| == w
  {
    if w == 0 then [] else ToBigEndian(n / 256, w - 1) + [n % 256]
  }

  /** `from_be_bytes`. */
  function FromBigEndian(bytes: seq<Byte>): nat {
    if bytes == [] then 0 else FromBigEndian(bytes[..|bytes| - 1]) * 256 + bytes[|bytes| - 1]
  }

  lemma {:induction false} ReadBack(n: nat, w: nat)
    ensures n < Pow256(w) ==> FromBigEndian(ToBigEndian(n, w)) == n
  {
    if w > 0 {
      ReadBack(n / 256, w - 1);
      assert ToBigEndian(n, w)[..w - 1] == ToBigEndian(n / 256, w - 1);
    }
  }

  /** Decoding is injective on words of one length: no two payloads mean the same instant. */
  lemma {:induction false} WriteBack(bytes: seq<Byte>)
    ensures ToBigEndian(FromBigEndian(bytes), |bytes|) == bytes && FromBigEndian(bytes) < Pow256(|bytes|)
  {
    if bytes != [] {
      var init, last := bytes[..|bytes| - 1], bytes[|bytes| - 1];
      WriteBack(init);
      var n := FromBigEndian(bytes);
      assert n / 256 == FromBigEndian(init) && n % 256 == last;
      assert bytes == init + [last];
    }
  }

  /** The byte order: the first byte counts most. */
  lemma {:induction false} FirstByteCountsMost(first: Byte, rest: seq<Byte>)
    ensures FromBigEndian([first] + rest) == first * Pow256(|rest|) + FromBigEndian(rest)
  {
    var bytes := [first] + rest;
    if rest == [] {
      assert bytes[..0] == [] && bytes[0] == first;
    } else {
      var n := |rest| - 1;
      var p := Pow256(n);
      FirstByteCountsMost(first, rest[..n]);
      assert bytes[..|bytes| - 1] == [first] + rest[..n] && bytes[|bytes| - 1] == rest[n];
      assert Pow256(|rest|) == 256 * p;
      assert (first * p) * 256 == first * (256 * p);
    }
  }

  /** The default `heartbeat_ping_msg_fn`. */
  function DefaultPing(millis: nat): RawMessage {
    Ping(ToBigEndian(millis, STAMP))
  }

  /** Section 5.5.3 of RFC 6455: a pong carries the application data of the ping it answers. */
  function Echo(ping: RawMessage): RawMessage
    requires ping.Ping?
  {
    Pong(ping.bytes)
  }

  /** The stream actor's reading of a pong; other lengths are not timestamps. */
  function ReadPong(pong: RawMessage): Option<nat>
    requires pong.Pong?
  {
    if |pong.bytes| == STAMP then Some(FromBigEndian(pong.bytes) % WORD) else None
  }

  /** The echoed timestamp is read modulo 2^64, hence exactly if and only if it is below 2^64. */
  lemma PayloadRoundTrip(millis: nat)
    requires millis < Pow256(STAMP)
    ensures |DefaultPing(millis).bytes| == 16
    ensures ReadPong(Echo(DefaultPing(millis))) == Some(millis % 0x1_0000_0000_0000_0000)
    ensures ReadPong(Echo(DefaultPing(millis))) == Some(millis) <==> millis < 0x1_0000_0000_0000_0000
  {
    hide ToBigEndian, FromBigEndian, Pow256;
    ReadStamp(millis, STAMP);
  }

  lemma ReadStamp(millis: nat, width: nat)
    requires width == STAMP && millis < Pow256(width)
    ensures |ToBigEndian(millis, STAMP)| == STAMP && FromBigEndian(ToBigEndian(millis, STAMP)) == millis
  {
    ReadBack(millis, width);
  }

  /** Every pong that is read at all names the low word of exactly one 16-byte timestamp. */
  lemma ReadPongIsFaithful(pong: RawMessage)
    requires pong.Pong?
    ensures ReadPong(pong).Some? <==> exists millis: nat | millis < Pow256(STAMP) :: pong == Echo(DefaultPing(millis))
  {
    if |pong.bytes| == STAMP {
      WriteBack(pong.bytes);
      assert pong == Echo(DefaultPing(FromBigEndian(pong.bytes)));
    }
  }
}
