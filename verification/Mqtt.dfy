// MQTT 3.1.1 framing (core/src/mqtt.rs): the remaining length of section 2.2.3, packet ids of
// section 2.3.1 and PUBLISH of section 3.3. Bit operations on bytes are written as arithmetic.

module Mqtt {

  type Byte = x: int | 0 <= x < 256
  type Bytes = seq<Byte>

  const CONNACK: Byte := 2
  const PUBLISH: Byte := 3
  const PUBACK: Byte := 4
  const SUBACK: Byte := 9
  const PINGRESP: Byte := 13

  /** The longest body a frame can announce, plus one. */
  const LIMIT: nat := 268_435_456

  // ---------- writing ----------

  function VarInt(n: nat): (r: Bytes) {
    if n < 128 then [n] else [n % 128 + 128] + VarInt(n / 128)
  }

  method PutRemainingLen(buf: Bytes, len: nat) returns (out: Bytes)
    ensures out == buf + VarInt(len)
  {
    out := buf;
    var n := len;
    while true
      invariant out + VarInt(n) == buf + VarInt(len)
      decreases n
    {
      var byte := n % 128;
      n := n / 128;
      if n == 0 {
        out := out + [byte];
        return;
      }
      out := out + [byte + 128];
    }
  }

  /** The first byte: packet type in the high nibble, flags in the low one. */
  function Head(ptype: Byte, flags: Byte): (b: Byte) { (ptype % 16) * 16 + flags % 16 }

  function Frame(ptype: Byte, flags: Byte, body: Bytes): (r: Bytes) {
    [Head(ptype, flags)] + VarInt(|body|) + body
  }

  method MakeFrame(ptype: Byte, flags: Byte, body: Bytes) returns (out: Bytes)
    ensures out == Frame(ptype, flags, body)
  {
    out := PutRemainingLen([Head(ptype, flags)], |body|);
    out := out + body;
  }

  /** A 16-bit number, high byte first; a longer one is cut, as the cast to u16 does. */
  function Be16(n: nat): (r: Bytes) { [n / 256 % 256, n % 256] }

  function PublishBody(topic: Bytes, pid: nat, qos: Byte, payload: Bytes): (r: Bytes) {
    Be16(|topic|) + topic + (if qos > 0 then Be16(pid) else []) + payload
  }

  function PublishFlags(qos: Byte): (f: Byte) { (qos % 4) * 2 }

  // ---------- the client ----------

  function NextPid(p: nat): (r: nat) { if p >= 65535 then 1 else p + 1 }

  /** The packet id handed out `k` calls after `p` was next. */
  function PidAfter(p: nat, k: nat): (r: nat)
    decreases k
  {
    if k == 0 then p else PidAfter(NextPid(p), k - 1)
  }

  class Client {
    var nextPid: nat
    var sent: Bytes

    ghost predicate Valid()
      reads this
    {
      1 <= nextPid <= 65535
    }

    constructor ()
      ensures Valid() && nextPid == 1 && sent == []
    {
      nextPid, sent := 1, [];
    }

    method Pid() returns (p: nat)
      requires Valid()
      modifies this`nextPid
      ensures Valid() && p == old(nextPid) && nextPid == NextPid(old(nextPid))
    {
      p := nextPid;
      nextPid := (nextPid + 1) % 65536;
      if nextPid < 1 { nextPid := 1; }
    }

    method Publish(topic: Bytes, payload: Bytes, qos: Byte) returns (pid: nat)
      requires Valid()
      modifies this
      ensures Valid()
      ensures qos > 0 ==> pid == old(nextPid) && nextPid == NextPid(pid)
      ensures qos == 0 ==> pid == 0 && nextPid == old(nextPid)
      ensures sent == old(sent) + Frame(PUBLISH, PublishFlags(qos), PublishBody(topic, pid, qos, payload))
    {
      pid := 0;
      if qos > 0 { pid := Pid(); }
      var body := Be16(|topic|) + topic;
      if qos > 0 { body := body + Be16(pid); }
      body := body + payload;
      assert body == PublishBody(topic, pid, qos, payload);
      var bytes := MakeFrame(PUBLISH, PublishFlags(qos), body);
      sent := sent + bytes;
    }
  }

  // ---------- reading ----------

  datatype Read<+T> = Got(value: T, rest: Bytes) | Short | Malformed

  /** The remaining length, from the `k`th byte of it on. */
  function ReadLen(s: Bytes, k: nat, mult: nat, value: nat): (r: Read<nat>)
    requires k <= 4
    decreases 4 - k
  {
    if k == 4 then Malformed
    else if s == [] then Short
    else
      var v := value + (s[0] % 128) * mult;
      if s[0] < 128 then Got(v, s[1..]) else ReadLen(s[1..], k + 1, mult * 128, v)
  }

  method ReadRemainingLen(s: Bytes) returns (r: Read<nat>)
    ensures r == ReadLen(s, 0, 1, 0)
  {
    var mult: nat, value: nat, at: nat := 1, 0, 0;
    for k := 0 to 4
      invariant at == k <= |s|
      invariant ReadLen(s[at..], k, mult, value) == ReadLen(s, 0, 1, 0)
    {
      if at == |s| { return Short; }
      var byte := s[at];
      assert s[at..][0] == byte && s[at..][1..] == s[at + 1..];
      at := at + 1;
      value := value + (byte % 128) * mult;
      if byte < 128 { return Got(value, s[at..]); }
      mult := mult * 128;
    }
    return Malformed;
  }

  datatype Raw = Raw(head: Byte, body: Bytes)

  function ReadFrame(s: Bytes): (r: Read<Raw>) {
    if s == [] then Short
    else match ReadLen(s[1..], 0, 1, 0)
      case Short => Short
      case Malformed => Malformed
      case Got(n, rest) => if n <= |rest| then Got(Raw(s[0], rest[..n]), rest[n..]) else Short
  }

  datatype Packet =
    | ConnAck(sessionPresent: bool, code: Byte)
    | Publish(topic: Bytes, payload: Bytes, qos: Byte, pid: nat)
    | PubAck(pid: nat)
    | SubAck(pid: nat, code: Byte)
    | PingResp
    | OtherPacket(ptype: Byte)

  function At(body: Bytes, i: nat, default: Byte): (b: Byte) {
    if i < |body| then body[i] else default
  }

  function Num16(body: Bytes, i: nat): (n: nat) { At(body, i, 0) * 256 + At(body, i + 1, 0) }

  function Slice(body: Bytes, i: nat, n: nat): (r: Bytes) {
    if i + n <= |body| then body[i..i + n] else []
  }

  function From(body: Bytes, i: nat): (r: Bytes) { if i <= |body| then body[i..] else [] }

  /** parse: a missing byte counts as zero, a refused CONNACK or SUBACK code as its failure. */
  function Parse(head: Byte, body: Bytes): (p: Packet) {
    var ptype := head / 16;
    if ptype == CONNACK then ConnAck(At(body, 0, 0) % 2 == 1, At(body, 1, 255))
    else if ptype == PUBACK then PubAck(Num16(body, 0))
    else if ptype == SUBACK then SubAck(Num16(body, 0), At(body, 2, 128))
    else if ptype == PINGRESP then PingResp
    else if ptype == PUBLISH then
      var qos := head / 2 % 4;
      var tlen := Num16(body, 0);
      var topic := Slice(body, 2, tlen);
      if qos > 0 then Publish(topic, From(body, 4 + tlen), qos, Num16(body, 2 + tlen))
      else Publish(topic, From(body, 2 + tlen), qos, 0)
    else OtherPacket(ptype)
  }

  /** Read packets until the stream is empty, or fail. */
  function ReadAll(s: Bytes): (r: Read<seq<Packet>>)
    decreases |s|
  {
    if s == [] then Got([], [])
    else match ReadFrame(s)
      case Short => Short
      case Malformed => Malformed
      case Got(raw, rest) =>
        if |rest| >= |s| then Malformed
        else match ReadAll(rest)
          case Short => Short
          case Malformed => Malformed
          case Got(ps, end) => Got([Parse(raw.head, raw.body)] + ps, end)
  }

  // ---------- the length ----------

  /** How far `4 - k` bytes of remaining length reach. */
  function Reach(k: nat): (n: nat)
    requires k <= 4
  {
    match k case 0 => LIMIT case 1 => 2_097_152 case 2 => 16_384 case 3 => 128 case _ => 0
  }

  lemma {:induction false} Carry(n: nat, mult: nat)
    ensures (n % 128) * mult + (n / 128) * (mult * 128) == n * mult
  {
    var d, m := n / 128, n % 128;
    assert n == 128 * d + m;
    assert (128 * d + m) * mult == d * (mult * 128) + m * mult;
  }

  lemma {:induction false} ReachStep(n: nat, k: nat)
    requires k < 4 && n >= 128
    ensures n < Reach(k) <==> n / 128 < Reach(k + 1)
  {
    match k case 0 => case 1 => case 2 => case _ =>
  }

  lemma {:induction false} LenRoundTrip(n: nat, rest: Bytes, k: nat, mult: nat, value: nat)
    requires k <= 4
    ensures ReadLen(VarInt(n) + rest, k, mult, value) ==
            if n < Reach(k) then Got(value + n * mult, rest) else Malformed
    decreases 4 - k
  {
    hide Reach;
    var s := VarInt(n) + rest;
    if k == 4 {
      assert Reach(4) == 0 by { ReachEnds(); }
    } else if n < 128 {
      assert s[0] == n && s[1..] == rest;
      ReachEnds();
    } else {
      assert s[0] == n % 128 + 128 && s[1..] == VarInt(n / 128) + rest;
      LenRoundTrip(n / 128, rest, k + 1, mult * 128, value + (n % 128) * mult);
      ReachStep(n, k);
      Carry(n, mult);
    }
  }

  lemma {:induction false} ReachEnds()
    ensures Reach(4) == 0 && forall k :: 0 <= k < 4 ==> Reach(k) >= 128
  {
  }

  /** What the bytes of a remaining length stand for: seven bits each, the lowest first. */
  ghost function Weighed(s: Bytes): (n: nat) { if s == [] then 0 else s[0] % 128 + 128 * Weighed(s[1..]) }

  /** The remaining length of section 2.2.3: the high bit says that a byte follows, and no byte is spare. */
  lemma {:induction false} LenLaw(n: nat)
    ensures var s := VarInt(n);
            && s != [] && Weighed(s) == n && s[|s| - 1] < 128
            && (forall k :: 0 <= k < |s| - 1 ==> s[k] >= 128)
            && (|s| > 1 ==> s[|s| - 1] > 0)
  {
    if n >= 128 {
      LenLaw(n / 128);
      var s := VarInt(n);
      assert s[1..] == VarInt(n / 128);
      assert forall k :: 1 <= k < |s| ==> s[k] == s[1..][k - 1];
      if |s| == 2 { assert s[1] == n / 128; }
    }
  }

  /** A frame is read back whole exactly when its body is under the limit; over it, it is malformed. */
  lemma {:induction false} FrameRoundTrip(ptype: Byte, flags: Byte, body: Bytes, rest: Bytes)
    ensures ReadFrame(Frame(ptype, flags, body) + rest) ==
            if |body| < LIMIT then Got(Raw(Head(ptype, flags), body), rest) else Malformed
  {
    var s := Frame(ptype, flags, body) + rest;
    assert s[0] == Head(ptype, flags) && s[1..] == VarInt(|body|) + (body + rest);
    LenRoundTrip(|body|, body + rest, 0, 1, 0);
    assert (body + rest)[..|body|] == body && (body + rest)[|body|..] == rest;
  }

  datatype Sent = Sent(ptype: Byte, flags: Byte, body: Bytes)

  function Wire(fs: seq<Sent>): (r: Bytes) {
    if fs == [] then [] else Frame(fs[0].ptype, fs[0].flags, fs[0].body) + Wire(fs[1..])
  }

  function Packets(fs: seq<Sent>): (r: seq<Packet>) {
    seq(|fs|, i requires 0 <= i < |fs| => Parse(Head(fs[i].ptype, fs[i].flags), fs[i].body))
  }

  lemma {:induction false} FrameNotEmpty(f: Sent)
    ensures |Frame(f.ptype, f.flags, f.body)| > 0
  {
  }

  /** Any concatenation of frames is read back as the same packets, in order, with nothing left. */
  lemma {:induction false} WireRoundTrip(fs: seq<Sent>)
    requires forall i :: 0 <= i < |fs| ==> |fs[i].body| < LIMIT
    ensures ReadAll(Wire(fs)) == Got(Packets(fs), [])
  {
    hide Parse, ReadFrame, Frame;
    if fs == [] {
      assert Packets(fs) == [];
    } else {
      var f := fs[0];
      FrameRoundTrip(f.ptype, f.flags, f.body, Wire(fs[1..]));
      FrameNotEmpty(f);
      WireRoundTrip(fs[1..]);
      assert Packets(fs) == [Parse(Head(f.ptype, f.flags), f.body)] + Packets(fs[1..]);
    }
  }

  // ---------- PUBLISH ----------

  lemma {:induction false} HeadParts(qos: Byte)
    requires qos < 4
    ensures var h := Head(PUBLISH, PublishFlags(qos)); h / 16 == PUBLISH && h / 2 % 4 == qos
  {
    if qos == 0 { } else if qos == 1 { } else if qos == 2 { } else { assert qos == 3; }
  }

  /** A 16-bit number is found where it was put. */
  lemma {:induction false} FoundAt(before: Bytes, n: nat, after: Bytes)
    requires n < 65536
    ensures Num16(before + Be16(n) + after, |before|) == n
  {
    var s := before + Be16(n) + after;
    assert s[|before|] == n / 256 % 256 && s[|before| + 1] == n % 256;
  }

  lemma {:induction false} ParsePublish(topic: Bytes, pid: nat, qos: Byte, payload: Bytes)
    requires qos < 4 && pid < 65536 && |topic| < 65536 && (qos == 0 ==> pid == 0)
    ensures Parse(Head(PUBLISH, PublishFlags(qos)), PublishBody(topic, pid, qos, payload))
         == Publish(topic, payload, qos, pid)
  {
    hide Be16, Num16, Head, PublishFlags;
    var body := PublishBody(topic, pid, qos, payload);
    HeadParts(qos);
    assert |Be16(|topic|)| == 2 && |Be16(pid)| == 2 by { Be16Length(|topic|); Be16Length(pid); }
    var start := Be16(|topic|) + topic;
    var tail := (if qos > 0 then Be16(pid) else []) + payload;
    assert body == [] + Be16(|topic|) + (topic + tail);
    FoundAt([], |topic|, topic + tail);
    assert body[2..2 + |topic|] == topic;
    if qos > 0 {
      assert body == start + Be16(pid) + payload;
      FoundAt(start, pid, payload);
      assert body[4 + |topic|..] == payload;
    } else {
      assert body == start + payload && body[2 + |topic|..] == payload;
    }
  }

  lemma {:induction false} Be16Length(n: nat)
    ensures |Be16(n)| == 2
  {
  }

  lemma {:induction false} TopicShort(head: Byte, body: Bytes)
    requires head / 16 == PUBLISH
    ensures Parse(head, body).Publish? && |Parse(head, body).topic| <= 65535
  {
    var n := Num16(body, 0);
    assert n <= 65535 && |Slice(body, 2, n)| <= n;
  }

  /**
   * A PUBLISH comes back with its topic, payload, QoS and packet id exactly when the topic fits
   * its 16-bit length: a longer one is cut on the wire.
   */
  lemma {:induction false} PublishRoundTrip(topic: Bytes, pid: nat, qos: Byte, payload: Bytes)
    requires qos < 4 && pid < 65536 && (qos == 0 ==> pid == 0)
    ensures Parse(Head(PUBLISH, PublishFlags(qos)), PublishBody(topic, pid, qos, payload))
         == Publish(topic, payload, qos, pid)
         <==> |topic| <= 65535
  {
    if |topic| <= 65535 {
      ParsePublish(topic, pid, qos, payload);
    } else {
      TopicShort(Head(PUBLISH, PublishFlags(qos)), PublishBody(topic, pid, qos, payload));
    }
  }

  /** The bytes of a PUBLISH, as section 3.3 has them: fixed header, topic behind its length, packet id for QoS above 0, payload. */
  lemma {:induction false} PublishOnTheWire(topic: Bytes, pid: nat, qos: Byte, payload: Bytes)
    requires qos < 4 && pid < 65536 && |topic| < 65536
    ensures var id: Bytes := if qos > 0 then [pid / 256, pid % 256] else [];
            Frame(PUBLISH, PublishFlags(qos), PublishBody(topic, pid, qos, payload)) ==
            [0x30 + 2 * qos] + VarInt(2 + |topic| + |id| + |payload|) + [|topic| / 256, |topic| % 256] + topic + id + payload
  {
    hide VarInt;
    var body := PublishBody(topic, pid, qos, payload);
    var id: Bytes := if qos > 0 then [pid / 256, pid % 256] else [];
    assert Be16(|topic|) == [|topic| / 256, |topic| % 256];
    assert qos > 0 ==> Be16(pid) == id;
    assert body == [|topic| / 256, |topic| % 256] + topic + id + payload;
    assert Head(PUBLISH, PublishFlags(qos)) == 0x30 + 2 * qos;
  }

  /** What the broker's answers say, by their first byte and body (sections 3.2, 3.4, 3.9 and 3.13). */
  lemma {:induction false} Answers(a: Byte, b: Byte, c: Byte)
    ensures Parse(0x20, [a, b]) == ConnAck(a % 2 == 1, b)
    ensures Parse(0x40, [a, b]) == PubAck(256 * a + b)
    ensures Parse(0x90, [a, b, c]) == SubAck(256 * a + b, c)
    ensures Parse(0xd0, []) == PingResp
  {
  }

  // ---------- packet ids ----------

  lemma {:induction false} PidClosedForm(p: nat, k: nat)
    requires 1 <= p <= 65535
    ensures PidAfter(p, k) == (p - 1 + k) % 65535 + 1
    decreases k
  {
    if k > 0 { PidClosedForm(NextPid(p), k - 1); }
  }

  /** Packet ids are never zero and do not repeat within 65535 consecutive ones. */
  lemma {:induction false} PidsFresh(p: nat, i: nat, j: nat)
    requires 1 <= p <= 65535
    ensures 1 <= PidAfter(p, i) <= 65535
    ensures i < j < i + 65535 ==> PidAfter(p, i) != PidAfter(p, j)
  {
    PidClosedForm(p, i);
    PidClosedForm(p, j);
  }
}
