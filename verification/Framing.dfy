/**
 Message blocks on a byte stream: msgblock_crc16_ccitt and msgblock_check of msgblock.c, the
 input loop of serialqueue.c, the framing of build_and_send_command, and the crc and
 check_packet of msgproto.py.
 */
module Framing {
  import opened Basics
  import opened Protocol
  import opened Vlq

  const MESSAGE_SEQ_MASK := 0x0f
  const MESSAGE_DEST := 0x10
  const INPUT_BUF_SIZE := 4096

  /* ----- CRC ----- */

  // Both implementations end a byte with the same expression.
  function CrcMix(crc: bv16, d: bv16): bv16 { (((d << 8) | (crc >> 8)) ^ (d >> 4)) ^ (d << 3) }

  // One byte of msgblock_crc16_ccitt, in uint8_t and uint16_t.
  function CrcStepC(crc: bv16, data: bv16): bv16 {
    var d1 := (data ^ (crc & 0xff)) & 0xff;
    CrcMix(crc, (d1 ^ (d1 << 4)) & 0xff)
  }

  // One byte of crc16_ccitt of msgproto.py.
  function CrcStepPy(crc: bv16, data: bv16): bv16 {
    var d1 := data ^ (crc & 0xff);
    CrcMix(crc, d1 ^ ((d1 & 0x0f) << 4))
  }

  lemma LowByte(crc: bv16, data: bv16)
    requires data <= 0xff
    ensures (data ^ (crc & 0xff)) & 0xff == data ^ (crc & 0xff) <= 0xff
  {
  }

  lemma LowNibble(d: bv16)
    requires d <= 0xff
    ensures (d ^ (d << 4)) & 0xff == d ^ ((d & 0x0f) << 4)
  {
  }

  lemma CrcStepsAgree(crc: bv16, data: bv16)
    requires data <= 0xff
    ensures CrcStepC(crc, data) == CrcStepPy(crc, data)
  {
    hide CrcMix;
    LowByte(crc, data);
    LowNibble(data ^ (crc & 0xff));
  }

  function Join(x: bv16, p: bv16): bv16 { (x << 1) | p }

  function BitOf(b: nat): bv16 { if b % 2 == 1 then 1 else 0 }

  // x has no more than n bits.
  predicate Fits(x: bv16, n: nat) { n <= 8 && x <= [0, 1, 3, 7, 15, 31, 63, 127, 255][n] }

  lemma JoinFits(x: bv16, b: nat, n: nat)
    requires Fits(x, n) && n < 8
    ensures Fits(Join(x, BitOf(b)), n + 1)
  {
  }

  lemma JoinIs(x: bv16, y: bv16, a: nat, b: nat, n: nat)
    requires Fits(x, n) && Fits(y, n) && n < 8 && Join(x, BitOf(a)) == Join(y, BitOf(b))
    ensures x == y && a % 2 == b % 2
  {
  }

  // The n low bits of b.
  function LowBits(b: nat, n: nat): bv16 { if n == 0 then 0 else Join(LowBits(b / 2, n - 1), BitOf(b)) }

  lemma {:induction false} LowBitsFit(b: nat, n: nat)
    requires n <= 8
    ensures Fits(LowBits(b, n), n)
  {
    if n > 0 {
      LowBitsFit(b / 2, n - 1);
      hide Fits, Join, BitOf;
      JoinFits(LowBits(b / 2, n - 1), b, n - 1);
    }
  }

  // A byte as a bit-vector.
  function ByteBv(b: byte): (r: bv16)
    ensures r <= 0xff
  {
    LowBitsFit(b, 8);
    LowBits(b, 8)
  }

  function Power2(n: nat): nat { if n == 0 then 1 else 2 * Power2(n - 1) }

  lemma {:induction false} LowBitsInjective(a: nat, b: nat, n: nat)
    requires n <= 8 && a < Power2(n) && b < Power2(n) && LowBits(a, n) == LowBits(b, n)
    ensures a == b
  {
    hide Join, BitOf, Fits;
    if n > 0 {
      LowBitsFit(a / 2, n - 1);
      LowBitsFit(b / 2, n - 1);
      JoinIs(LowBits(a / 2, n - 1), LowBits(b / 2, n - 1), a, b, n - 1);
      LowBitsInjective(a / 2, b / 2, n - 1);
    }
  }

  function Crc(buf: seq<byte>): bv16 {
    if buf == [] then 0xffff else CrcStepC(Crc(buf[..|buf| - 1]), ByteBv(buf[|buf| - 1]))
  }

  lemma CrcNext(buf: seq<byte>, i: nat)
    requires i < |buf|
    ensures Crc(buf[..0]) == 0xffff && buf[..|buf|] == buf
    ensures Crc(buf[..i + 1]) == CrcStepC(Crc(buf[..i]), ByteBv(buf[i]))
  {
    hide CrcStepC, ByteBv;
    assert buf[..i + 1][..i] == buf[..i];
  }

  // msgblock_crc16_ccitt
  method Crc16Ccitt(buf: seq<byte>) returns (crc: bv16)
    ensures crc == Crc(buf)
  {
    hide CrcStepC, ByteBv;
    crc := 0xffff;
    for i := 0 to |buf|
      invariant crc == Crc(buf[..i])
    {
      CrcNext(buf, i);
      crc := CrcStepC(crc, ByteBv(buf[i]));
    }
    assert buf[..|buf|] == buf;
  }

  // crc16_ccitt of msgproto.py computes the same.
  method Crc16CcittPy(buf: seq<byte>) returns (crc: bv16)
    ensures crc == Crc(buf)
  {
    hide CrcStepC, CrcStepPy, ByteBv;
    crc := 0xffff;
    for i := 0 to |buf|
      invariant crc == Crc(buf[..i])
    {
      CrcNext(buf, i);
      CrcStepsAgree(crc, ByteBv(buf[i]));
      crc := CrcStepPy(crc, ByteBv(buf[i]));
    }
    assert buf[..|buf|] == buf;
  }

  // Division of one more bit by the CCITT polynomial x^16 + x^12 + x^5 + 1, with bits reflected.
  function BitStep(crc: bv16): bv16 { if crc & 1 == 1 then (crc >> 1) ^ 0x8408 else crc >> 1 }

  function NibbleStep(crc: bv16): bv16 { BitStep(BitStep(BitStep(BitStep(crc)))) }

  function Xor(x: bv16, d: bv16): bv16 { x ^ d }

  // Four bits at once.
  function NibbleForm(x: bv16): bv16 {
    var m := x & 0xf;
    (((x >> 4) ^ m) ^ (m << 7)) ^ (m << 12)
  }

  lemma NibbleIs(x: bv16)
    ensures NibbleStep(x) == NibbleForm(x)
  {
  }

  // Eight bits at once: what the low byte of the remainder adds to the rest.
  function ByteForm(z: bv16): bv16 {
    var low := z & 0xff;
    var d := (low ^ (low << 4)) & 0xff;
    (((d << 8) ^ (d >> 4)) ^ (d << 3)) ^ (z >> 8)
  }

  lemma TwoNibbles(z: bv16)
    ensures NibbleForm(NibbleForm(z)) == ByteForm(z)
  {
  }

  lemma LowByteOf(crc: bv16, data: bv16)
    requires data <= 0xff
    ensures (data ^ (crc & 0xff)) & 0xff == Xor(crc, data) & 0xff
  {
  }

  lemma HighByteOf(crc: bv16, data: bv16)
    requires data <= 0xff
    ensures crc >> 8 == Xor(crc, data) >> 8
  {
  }

  lemma MixIs(z: bv16, d: bv16)
    requires d <= 0xff
    ensures ((((d << 8) | (z >> 8)) ^ (d >> 4)) ^ (d << 3)) == (((d << 8) ^ (d >> 4)) ^ (d << 3)) ^ (z >> 8)
  {
  }

  lemma StepIsByteForm(crc: bv16, data: bv16)
    requires data <= 0xff
    ensures CrcStepC(crc, data) == ByteForm(Xor(crc, data))
  {
    hide Xor, CrcMix, CrcStepC, ByteForm;
    StepIsMix(crc, data);
    var low := Xor(crc, data) & 0xff;
    MixOfByte(crc, data, (low ^ (low << 4)) & 0xff);
    ByteFormIs(Xor(crc, data));
  }

  lemma StepIsMix(crc: bv16, data: bv16)
    requires data <= 0xff
    ensures var low := Xor(crc, data) & 0xff;
      CrcStepC(crc, data) == CrcMix(crc, (low ^ (low << 4)) & 0xff)
  {
    hide Xor, CrcMix;
    LowByteOf(crc, data);
  }

  lemma MixOfByte(crc: bv16, data: bv16, d: bv16)
    requires data <= 0xff && d <= 0xff
    ensures CrcMix(crc, d) == (((d << 8) ^ (d >> 4)) ^ (d << 3)) ^ (Xor(crc, data) >> 8)
  {
    HighByteOf(crc, data);
    hide Xor;
    MixIs(Xor(crc, data), d);
  }

  lemma ByteFormIs(z: bv16)
    ensures var low := z & 0xff;
      var d := (low ^ (low << 4)) & 0xff;
      d <= 0xff && ByteForm(z) == (((d << 8) ^ (d >> 4)) ^ (d << 3)) ^ (z >> 8)
  {
  }

  // One byte of the CRC divides its eight bits by the polynomial.
  lemma CrcStepDivides(crc: bv16, data: bv16)
    requires data <= 0xff
    ensures CrcStepC(crc, data) == NibbleStep(NibbleStep(Xor(crc, data)))
  {
    hide CrcStepC, NibbleStep, NibbleForm, ByteForm, Xor;
    NibbleIs(Xor(crc, data));
    NibbleIs(NibbleStep(Xor(crc, data)));
    TwoNibbles(Xor(crc, data));
    StepIsByteForm(crc, data);
  }

  lemma BitStepInjective(x: bv16, y: bv16)
    requires BitStep(x) == BitStep(y)
    ensures x == y
  {
  }

  lemma NibbleInjective(x: bv16, y: bv16)
    requires NibbleStep(x) == NibbleStep(y)
    ensures x == y
  {
    hide BitStep;
    BitStepInjective(BitStep(BitStep(BitStep(x))), BitStep(BitStep(BitStep(y))));
    BitStepInjective(BitStep(BitStep(x)), BitStep(BitStep(y)));
    BitStepInjective(BitStep(x), BitStep(y));
    BitStepInjective(x, y);
  }

  lemma Unxor(x: bv16, d: bv16)
    ensures Xor(Xor(x, d), d) == x && Xor(Xor(x, d), x) == d
  {
  }

  lemma XorInjective(x: bv16, y: bv16, d: bv16, e: bv16)
    requires Xor(x, d) == Xor(y, e)
    ensures x == y <==> d == e
  {
    hide Xor;
    Unxor(x, d);
    Unxor(y, e);
  }

  // Different data give different CRCs, and so do different CRCs before the same data.
  lemma CrcStepInjective(x: bv16, y: bv16, d: bv16, e: bv16)
    requires d <= 0xff && e <= 0xff && CrcStepC(x, d) == CrcStepC(y, e)
    ensures x == y <==> d == e
  {
    CrcStepDivides(x, d);
    CrcStepDivides(y, e);
    hide CrcStepC, NibbleStep, Xor;
    NibbleInjective(NibbleStep(Xor(x, d)), NibbleStep(Xor(y, e)));
    NibbleInjective(Xor(x, d), Xor(y, e));
    XorInjective(x, y, d, e);
  }

  lemma ByteBvInjective(a: byte, b: byte)
    ensures ByteBv(a) == ByteBv(b) <==> a == b
  {
    assert Power2(8) == 256;
    if ByteBv(a) == ByteBv(b) {
      LowBitsInjective(a, b, 8);
    }
  }

  // Any change of a single byte changes the CRC.
  lemma {:induction false} CrcDetects(buf: seq<byte>, i: nat, b: byte)
    requires i < |buf| && b != buf[i]
    ensures Crc(buf[i := b]) != Crc(buf)
  {
    hide CrcStepC, ByteBv;
    var n := |buf| - 1;
    ByteBvInjective(buf[n], buf[i := b][n]);
    if i < n {
      assert buf[i := b][..n] == buf[..n][i := b];
      CrcDetects(buf[..n], i, b);
    } else {
      assert buf[i := b][..n] == buf[..n];
    }
    if Crc(buf[i := b]) == Crc(buf) {
      CrcStepInjective(Crc(buf[..n]), Crc(buf[i := b][..n]), ByteBv(buf[n]), ByteBv(buf[i := b][n]));
    }
  }

  function CrcHigh(buf: seq<byte>): byte { (Crc(buf) >> 8) as int }

  function CrcLow(buf: seq<byte>): byte { (Crc(buf) & 0xff) as int }

  /* ----- Finding messages ----- */

  // memchr for MESSAGE_SYNC; |buf| when there is none.
  function FindSync(buf: seq<byte>): (p: nat)
    ensures p <= |buf|
  {
    if buf == [] || buf[0] == MESSAGE_SYNC then 0 else FindSync(buf[1..]) + 1
  }

  lemma {:induction false} FindSyncIsFirst(buf: seq<byte>)
    ensures var p := FindSync(buf);
      MESSAGE_SYNC !in buf[..p] && (p < |buf| ==> buf[p] == MESSAGE_SYNC)
  {
    if buf != [] && buf[0] != MESSAGE_SYNC {
      FindSyncIsFirst(buf[1..]);
      var p := FindSync(buf);
      assert buf[..p] == [buf[0]] + buf[1..][..p - 1];
    }
  }

  // The header and trailer of a block at the start of buf.  None: more data is needed; Some(0): not
  // a block.
  function BlockAt(buf: seq<byte>): (r: Option<nat>)
    ensures r.Some? && r.value > 0 ==> MESSAGE_MIN <= r.value <= |buf| && r.value <= MESSAGE_MAX
  {
    if |buf| < MESSAGE_MIN then None
    else
      var msgLen, msgSeq := buf[0], buf[1];
      if msgLen < MESSAGE_MIN || msgLen > MESSAGE_MAX then Some(0)
      else if msgSeq / 16 * 16 != MESSAGE_DEST then Some(0)
      else if |buf| < msgLen then None
      else if buf[msgLen - 1] != MESSAGE_SYNC then Some(0)
      else if buf[msgLen - 3] != CrcHigh(buf[..msgLen - 3]) || buf[msgLen - 2] != CrcLow(buf[..msgLen - 3]) then Some(0)
      else Some(msgLen)
  }

  // Result of msgblock_check: the (signed) length and the new need_sync flag.
  datatype Check = Check(len: int, needSync: bool)

  function MsgblockCheck(needSync: bool, buf: seq<byte>): (r: Check)
    ensures -|buf| <= r.len <= |buf|
    ensures r.len == 0 ==> r.needSync == needSync && |buf| < MESSAGE_MAX
  {
    if |buf| < MESSAGE_MIN then Check(0, needSync)
    else if !needSync && BlockAt(buf) == None then Check(0, needSync)
    else if !needSync && BlockAt(buf).value > 0 then Check(BlockAt(buf).value, needSync)
    else
      var p := FindSync(buf);
      if p < |buf| then Check(-(p + 1), false) else Check(-|buf|, true)
  }

  lemma CrcBytes(buf: seq<byte>)
    ensures (Crc(buf) >> 8) as int == CrcHigh(buf) && (Crc(buf) & 0xff) as int == CrcLow(buf)
  {
  }

  lemma InSync(buf: seq<byte>)
    ensures var c := MsgblockCheck(false, buf).len;
      match BlockAt(buf)
      case None => c == 0
      case Some(n) => if n > 0 then c == n else c < 0
  {
  }

  // check_packet of msgproto.py finds exactly the blocks that msgblock_check finds when it is in
  // sync: -1 for a bad packet, 0 for too little data.
  method CheckPacket(s: seq<byte>) returns (r: int)
    ensures var c := MsgblockCheck(false, s);
      r == if c.len < 0 then -1 else c.len
  {
    InSync(s);
    hide MsgblockCheck, CrcHigh, CrcLow, Crc;
    if |s| < MESSAGE_MIN {
      return 0;
    }
    var msgLen, msgSeq := s[0], s[1];
    if msgLen < MESSAGE_MIN || msgLen > MESSAGE_MAX {
      return -1;
    }
    if msgSeq - msgSeq % (MESSAGE_SEQ_MASK + 1) != MESSAGE_DEST {
      return -1;
    }
    assert msgSeq / 16 * 16 == MESSAGE_DEST;
    if |s| < msgLen {
      return 0;
    }
    if s[msgLen - 1] != MESSAGE_SYNC {
      return -1;
    }
    var msgCrc := s[msgLen - 3..msgLen - 1];
    var crc := Crc16CcittPy(s[..msgLen - MESSAGE_TRAILER_SIZE]);
    CrcBytes(s[..msgLen - MESSAGE_TRAILER_SIZE]);
    assert msgCrc == [s[msgLen - 3], s[msgLen - 2]];
    if [(crc >> 8) as int, (crc & 0xff) as int] != msgCrc {
      return -1;
    }
    return msgLen;
  }

  // What the input loop does with a buffer: the messages it delivers and what is left.
  datatype Loop = Loop(messages: seq<seq<byte>>, needSync: bool, rest: seq<byte>)

  function InputLoop(needSync: bool, buf: seq<byte>): (r: Loop)
    ensures |r.rest| < MESSAGE_MAX
    decreases |buf|
  {
    var c := MsgblockCheck(needSync, buf);
    if c.len == 0 then Loop([], needSync, buf)
    else if c.len > 0 then
      var r := InputLoop(c.needSync, buf[c.len..]);
      r.(messages := [buf[..c.len]] + r.messages)
    else InputLoop(c.needSync, buf[-c.len..])
  }

  // The receiving end of a serial connection.
  class Input {
    var inputBuf: seq<byte>
    var needSync: bool
    var delivered: seq<seq<byte>>
    ghost var stream: seq<byte>  // everything read so far

    // However the stream was read, the messages delivered are those of the whole stream.
    ghost predicate Valid()
      reads this
    {
      |inputBuf| < MESSAGE_MAX && Reads(stream, delivered, needSync, inputBuf)
    }

    constructor ()
      ensures Valid() && stream == [] && delivered == []
    {
      inputBuf, needSync, delivered, stream := [], false, [], [];
      new;
      forall more ensures InputLoop(false, stream + more).messages
        == delivered + InputLoop(needSync, inputBuf + more).messages {
        assert stream + more == more;
        assert [] + InputLoop(false, more).messages == InputLoop(false, more).messages;
      }
    }

    // input_event, with the bytes that read() returned; there is always room to read more.
    method InputEvent(chunk: seq<byte>)
      requires Valid() && |inputBuf| + |chunk| <= INPUT_BUF_SIZE
      modifies this
      ensures Valid() && stream == old(stream) + chunk
      ensures delivered == InputLoop(false, stream).messages
      ensures |inputBuf| < INPUT_BUF_SIZE
    {
      hide MsgblockCheck, InputLoop;
      ghost var r := InputLoop(needSync, inputBuf + chunk);
      ReadKeeps(stream, delivered, needSync, inputBuf, chunk);
      inputBuf := inputBuf + chunk;
      LoopUnfold(needSync, inputBuf);
      while true
        invariant |inputBuf| <= INPUT_BUF_SIZE && stream == old(stream)
        invariant delivered + InputLoop(needSync, inputBuf).messages == old(delivered) + r.messages
        invariant InputLoop(needSync, inputBuf).rest == r.rest && InputLoop(needSync, inputBuf).needSync == r.needSync
        decreases |inputBuf|
      {
        LoopUnfold(needSync, inputBuf);
        var c := MsgblockCheck(needSync, inputBuf);
        needSync := c.needSync;
        var len := c.len;
        if len == 0 {
          break;
        }
        if len > 0 {
          delivered := delivered + [inputBuf[..len]];
        } else {
          len := -len;
        }
        inputBuf := inputBuf[len..];
      }
      stream := stream + chunk;
      assert delivered == old(delivered) + r.messages;
    }
  }

  // What Valid says of the state after `stream`.
  ghost predicate Reads(stream: seq<byte>, delivered: seq<seq<byte>>, needSync: bool, inputBuf: seq<byte>) {
    forall more :: InputLoop(false, stream + more).messages == delivered + InputLoop(needSync, inputBuf + more).messages
  }

  lemma ReadKeeps(stream: seq<byte>, delivered: seq<seq<byte>>, needSync: bool, inputBuf: seq<byte>, chunk: seq<byte>)
    requires Reads(stream, delivered, needSync, inputBuf)
    ensures var r := InputLoop(needSync, inputBuf + chunk);
      && Reads(stream + chunk, delivered + r.messages, r.needSync, r.rest)
      && delivered + r.messages == InputLoop(false, stream + chunk).messages
  {
    hide InputLoop;
    var r := InputLoop(needSync, inputBuf + chunk);
    forall more
      ensures InputLoop(false, stream + chunk + more).messages
        == (delivered + r.messages) + InputLoop(r.needSync, r.rest + more).messages
    {
      ReadMore(stream, delivered, needSync, inputBuf, chunk, more);
    }
  }

  lemma ReadMore(stream: seq<byte>, delivered: seq<seq<byte>>, needSync: bool, inputBuf: seq<byte>,
                 chunk: seq<byte>, more: seq<byte>)
    requires Reads(stream, delivered, needSync, inputBuf)
    ensures var r := InputLoop(needSync, inputBuf + chunk);
      InputLoop(false, stream + chunk + more).messages
      == (delivered + r.messages) + InputLoop(r.needSync, r.rest + more).messages
  {
    hide InputLoop;
    var r := InputLoop(needSync, inputBuf + chunk);
    var tail := InputLoop(r.needSync, r.rest + more).messages;
    assert stream + chunk + more == stream + (chunk + more);
    assert inputBuf + (chunk + more) == inputBuf + chunk + more;
    LoopSplit(needSync, inputBuf + chunk, more);
    assert (delivered + r.messages) + tail == delivered + (r.messages + tail);
  }

  /* ----- Splitting the stream ----- */

  // The messages behind the next sync byte.
  function AfterSync(buf: seq<byte>): seq<seq<byte>> {
    var p := FindSync(buf);
    if p < |buf| then InputLoop(false, buf[p + 1..]).messages else []
  }

  lemma ShortBuffer(needSync: bool, buf: seq<byte>)
    requires |buf| < MESSAGE_MIN
    ensures InputLoop(needSync, buf) == Loop([], needSync, buf)
  {
  }

  // Waiting for sync delivers what comes after it, whether or not the buffer is still short.
  lemma SyncWait(buf: seq<byte>)
    ensures InputLoop(true, buf).messages == AfterSync(buf)
  {
    var p := FindSync(buf);
    if |buf| >= MESSAGE_MIN {
      LoopUnfold(true, buf);
    }
    hide InputLoop, FindSync;
    if |buf| < MESSAGE_MIN {
      ShortBuffer(true, buf);
      if p < |buf| {
        ShortBuffer(false, buf[p + 1..]);
      }
    } else if p == |buf| {
      ShortBuffer(true, buf[|buf|..]);
    }
  }

  lemma LoopUnfold(needSync: bool, buf: seq<byte>)
    ensures var c := MsgblockCheck(needSync, buf);
      InputLoop(needSync, buf) ==
        if c.len == 0 then Loop([], needSync, buf)
        else if c.len > 0 then
          var r := InputLoop(c.needSync, buf[c.len..]);
          r.(messages := [buf[..c.len]] + r.messages)
        else InputLoop(c.needSync, buf[-c.len..])
    ensures MsgblockCheck(needSync, buf).len == 0 ==> MsgblockCheck(needSync, buf).needSync == needSync
  {
    hide MsgblockCheck;
  }

  lemma CheckError(needSync: bool, buf: seq<byte>)
    requires MsgblockCheck(needSync, buf).len < 0
    ensures var p := FindSync(buf);
      MsgblockCheck(needSync, buf) == if p < |buf| then Check(-(p + 1), false) else Check(-|buf|, true)
  {
  }

  // Garbage at the start has the same effect as waiting for sync.
  lemma ErrorSkips(needSync: bool, buf: seq<byte>)
    requires MsgblockCheck(needSync, buf).len < 0
    ensures InputLoop(needSync, buf).messages == AfterSync(buf)
  {
    hide MsgblockCheck, InputLoop;
    CheckError(needSync, buf);
    LoopUnfold(needSync, buf);
    if FindSync(buf) == |buf| {
      ShortBuffer(true, buf[|buf|..]);
    }
  }

  lemma {:induction false} FindSyncJoin(a: seq<byte>, b: seq<byte>)
    ensures FindSync(a + b) == if FindSync(a) < |a| then FindSync(a) else |a| + FindSync(b)
  {
    if a == [] {
      assert a + b == b;
    } else {
      assert (a + b)[1..] == a[1..] + b;
      FindSyncJoin(a[1..], b);
    }
  }

  // More data never changes a verdict, except from "need more data".
  lemma CheckStable(needSync: bool, a: seq<byte>, b: seq<byte>)
    requires MsgblockCheck(needSync, a).len != 0
    ensures MsgblockCheck(needSync, a).len > 0 ==> MsgblockCheck(needSync, a + b) == MsgblockCheck(needSync, a)
    ensures MsgblockCheck(needSync, a).len < 0 ==> MsgblockCheck(needSync, a + b).len < 0
  {
    var msgLen := a[0];
    if MESSAGE_MIN <= msgLen <= |a| {
      assert (a + b)[..msgLen - 3] == a[..msgLen - 3];
    }
  }

  // Reading a and then b delivers the same messages as reading them at once.
  predicate Splits(needSync: bool, a: seq<byte>, b: seq<byte>) {
    var r := InputLoop(needSync, a);
    InputLoop(needSync, a + b).messages == r.messages + InputLoop(r.needSync, r.rest + b).messages
  }

  lemma SplitMessage(needSync: bool, a: seq<byte>, b: seq<byte>)
    requires var c := MsgblockCheck(needSync, a); c.len > 0 && Splits(c.needSync, a[c.len..], b)
    ensures Splits(needSync, a, b)
  {
    hide MsgblockCheck, InputLoop;
    LoopUnfold(needSync, a);
    LoopUnfold(needSync, a + b);
    var c := MsgblockCheck(needSync, a);
    CheckStable(needSync, a, b);
    assert (a + b)[c.len..] == a[c.len..] + b && (a + b)[..c.len] == a[..c.len];
    var r := InputLoop(c.needSync, a[c.len..]);
    var tail := InputLoop(r.needSync, r.rest + b).messages;
    assert [a[..c.len]] + (r.messages + tail) == ([a[..c.len]] + r.messages) + tail;
  }

  lemma SplitSync(needSync: bool, a: seq<byte>, b: seq<byte>)
    requires MsgblockCheck(needSync, a).len < 0
    requires var p := FindSync(a); p < |a| && Splits(false, a[p + 1..], b)
    ensures Splits(needSync, a, b)
  {
    hide MsgblockCheck, InputLoop, FindSync, AfterSync;
    LoopUnfold(needSync, a);
    CheckStable(needSync, a, b);
    CheckError(needSync, a);
    ErrorSkips(needSync, a + b);
    FindSyncJoin(a, b);
    var p := FindSync(a);
    TakeJoin(a, b, p + 1);
    AfterSyncIs(a + b, p, a[p + 1..] + b);
  }

  lemma TakeJoin(a: seq<byte>, b: seq<byte>, k: nat)
    requires k <= |a|
    ensures (a + b)[k..] == a[k..] + b
  {
  }

  lemma SplitNoSync(needSync: bool, a: seq<byte>, b: seq<byte>)
    requires MsgblockCheck(needSync, a).len < 0 && FindSync(a) == |a|
    ensures Splits(needSync, a, b)
  {
    hide MsgblockCheck, InputLoop, AfterSync, FindSync;
    LoopUnfold(needSync, a);
    CheckStable(needSync, a, b);
    CheckError(needSync, a);
    ErrorSkips(needSync, a + b);
    ShortBuffer(true, a[|a|..]);
    assert InputLoop(needSync, a) == Loop([], true, []);
    assert [] + b == b && [] + InputLoop(true, b).messages == InputLoop(true, b).messages;
    SyncWait(b);
    AfterSyncJoin(a, b);
  }

  lemma AfterSyncIs(buf: seq<byte>, p: nat, tail: seq<byte>)
    requires p == FindSync(buf) && (p < |buf| ==> tail == buf[p + 1..])
    ensures AfterSync(buf) == if p < |buf| then InputLoop(false, tail).messages else []
  {
    hide InputLoop, FindSync;
  }

  lemma AfterSyncJoin(a: seq<byte>, b: seq<byte>)
    requires FindSync(a) == |a|
    ensures AfterSync(a + b) == AfterSync(b)
  {
    hide InputLoop, FindSync, AfterSync;
    FindSyncJoin(a, b);
    var p := FindSync(b);
    if p < |b| {
      DropJoin(a, b, p + 1);
    }
    var tail := if p < |b| then b[p + 1..] else [];
    AfterSyncIs(b, p, tail);
    AfterSyncIs(a + b, |a| + p, tail);
  }

  lemma DropJoin(a: seq<byte>, b: seq<byte>, k: nat)
    requires k <= |b|
    ensures (a + b)[|a| + k..] == b[k..]
  {
  }

  // Main lemma, by following the loop through a.
  lemma {:induction false} LoopSplit(needSync: bool, a: seq<byte>, b: seq<byte>)
    ensures Splits(needSync, a, b)
    decreases |a|
  {
    var c := MsgblockCheck(needSync, a);
    hide MsgblockCheck, InputLoop;
    if c.len > 0 {
      LoopSplit(c.needSync, a[c.len..], b);
      SplitMessage(needSync, a, b);
    } else if c.len < 0 {
      var p := FindSync(a);
      if p < |a| {
        LoopSplit(false, a[p + 1..], b);
        SplitSync(needSync, a, b);
      } else {
        SplitNoSync(needSync, a, b);
      }
    } else {
      LoopUnfold(needSync, a);
      assert [] + InputLoop(needSync, a + b).messages == InputLoop(needSync, a + b).messages;
    }
  }

  // Reading a list of chunks.
  function Feed(state: Loop, chunks: seq<seq<byte>>): Loop
    decreases |chunks|
  {
    if chunks == [] then state
    else
      var r := InputLoop(state.needSync, state.rest + chunks[0]);
      Feed(r.(messages := state.messages + r.messages), chunks[1..])
  }

  function Concat(chunks: seq<seq<byte>>): seq<byte> {
    if chunks == [] then [] else chunks[0] + Concat(chunks[1..])
  }

  lemma {:induction false} FeedIsOneRead(state: Loop, chunks: seq<seq<byte>>)
    requires InputLoop(state.needSync, state.rest) == state.(messages := [])
    ensures Feed(state, chunks).messages
      == state.messages + InputLoop(state.needSync, state.rest + Concat(chunks)).messages
    decreases |chunks|
  {
    hide InputLoop;
    if chunks == [] {
      assert state.rest + [] == state.rest;
    } else {
      var r := InputLoop(state.needSync, state.rest + chunks[0]);
      LoopIsDone(state.needSync, state.rest + chunks[0]);
      FeedIsOneRead(r.(messages := state.messages + r.messages), chunks[1..]);
      assert state.rest + Concat(chunks) == (state.rest + chunks[0]) + Concat(chunks[1..]);
      LoopSplit(state.needSync, state.rest + chunks[0], Concat(chunks[1..]));
    }
  }

  lemma {:induction false} LoopIsDone(needSync: bool, buf: seq<byte>)
    ensures var r := InputLoop(needSync, buf); InputLoop(r.needSync, r.rest) == r.(messages := [])
    decreases |buf|
  {
    hide MsgblockCheck, InputLoop;
    LoopUnfold(needSync, buf);
    var c := MsgblockCheck(needSync, buf);
    if c.len > 0 {
      LoopIsDone(c.needSync, buf[c.len..]);
    } else if c.len < 0 {
      LoopIsDone(c.needSync, buf[-c.len..]);
    }
  }

  const START := Loop([], false, [])

  // Main theorem: two ways of cutting the same byte stream deliver the same messages.
  lemma ChunkingIsIrrelevant(xs: seq<seq<byte>>, ys: seq<seq<byte>>)
    requires Concat(xs) == Concat(ys)
    ensures Feed(START, xs).messages == Feed(START, ys).messages == InputLoop(false, Concat(xs)).messages
  {
    hide InputLoop, Feed;
    ShortBuffer(false, []);
    FeedIsOneRead(START, xs);
    FeedIsOneRead(START, ys);
    assert [] + Concat(xs) == Concat(xs);
  }

  /* ----- Blocks that were framed arrive ----- */

  // The header and trailer that build_and_send_command puts around a payload.
  function Frame(sendSeq: nat, payload: seq<byte>): (f: seq<byte>)
    requires |payload| <= MESSAGE_PAYLOAD_MAX
    ensures |f| == |payload| + MESSAGE_MIN
  {
    var body := [|payload| + MESSAGE_MIN, MESSAGE_DEST + sendSeq % 16] + payload;
    body + [CrcHigh(body), CrcLow(body), MESSAGE_SYNC]
  }

  // A frame is recognised wherever it starts a buffer, and carries its sequence number.
  lemma FrameAccepted(sendSeq: nat, payload: seq<byte>, rest: seq<byte>)
    requires |payload| <= MESSAGE_PAYLOAD_MAX
    ensures var f := Frame(sendSeq, payload);
      BlockAt(f + rest) == Some(|f|) && MsgblockCheck(false, f + rest) == Check(|f|, false)
      && (f + rest)[..|f|] == f && f[1] % 16 == sendSeq % 16 && f[2..|f| - 3] == payload
  {
    var f := Frame(sendSeq, payload);
    var body := [|payload| + MESSAGE_MIN, MESSAGE_DEST + sendSeq % 16] + payload;
    assert (f + rest)[..|f| - 3] == body;
  }

  // Nothing else is recognised: what is, is the frame of its sequence bits and payload.
  lemma AcceptedIsFrame(buf: seq<byte>)
    requires BlockAt(buf).Some? && BlockAt(buf).value > 0
    ensures var n := BlockAt(buf).value;
      MESSAGE_MIN <= n <= |buf| && |buf[2..n - 3]| <= MESSAGE_PAYLOAD_MAX
      && buf[..n] == Frame(buf[1] % 16, buf[2..n - 3])
  {
    var n := BlockAt(buf).value;
    var payload := buf[2..n - 3];
    assert [|payload| + MESSAGE_MIN, MESSAGE_DEST + buf[1] % 16] + payload == buf[..n - 3];
  }

  lemma CrcOfBytes(a: seq<byte>, b: seq<byte>)
    requires CrcHigh(a) == CrcHigh(b) && CrcLow(a) == CrcLow(b)
    ensures Crc(a) == Crc(b)
  {
    hide Crc;
    WordOfBytes(Crc(a), Crc(b));
  }

  lemma WordOfBytes(c: bv16, d: bv16)
    requires (c >> 8) as int == (d >> 8) as int && (c & 0xff) as int == (d & 0xff) as int
    ensures c == d
  {
    SameWord(c >> 8, d >> 8);
    SameWord(c & 0xff, d & 0xff);
  }

  lemma ThereAndBack(x: bv16)
    ensures (x as int) as bv16 == x
  {
  }

  lemma SameWord(x: bv16, y: bv16)
    requires x as int == y as int
    ensures x == y
  {
    ThereAndBack(x);
    ThereAndBack(y);
  }

  // A frame in which one byte between the length and the CRC was changed is never taken for a block.
  lemma CorruptionDetected(sendSeq: nat, payload: seq<byte>, rest: seq<byte>, i: nat, b: byte)
    requires |payload| <= MESSAGE_PAYLOAD_MAX && 1 <= i < |payload| + 2 && b != Frame(sendSeq, payload)[i]
    ensures BlockAt(Frame(sendSeq, payload)[i := b] + rest) == Some(0)
  {
    var f := Frame(sendSeq, payload);
    var n := |f|;
    var buf := f[i := b] + rest;
    assert f[..n - 3] == [|payload| + MESSAGE_MIN, MESSAGE_DEST + sendSeq % 16] + payload;
    assert buf[..n - 3] == f[..n - 3][i := b];
    CrcDetects(f[..n - 3], i, b);
    assert buf[0] == n && buf[n - 3] == CrcHigh(f[..n - 3]) && buf[n - 2] == CrcLow(f[..n - 3]);
    hide CrcHigh, CrcLow, Crc;
    if CrcHigh(buf[..n - 3]) == CrcHigh(f[..n - 3]) && CrcLow(buf[..n - 3]) == CrcLow(f[..n - 3]) {
      CrcOfBytes(buf[..n - 3], f[..n - 3]);
    }
  }

  datatype Block = Block(sendSeq: nat, payload: seq<byte>)

  function Frames(blocks: seq<Block>): seq<seq<byte>>
    requires forall b :: b in blocks ==> |b.payload| <= MESSAGE_PAYLOAD_MAX
  {
    if blocks == [] then []
    else
      assert blocks[0] in blocks;
      [Frame(blocks[0].sendSeq, blocks[0].payload)] + Frames(blocks[1..])
  }

  // A stream of frames delivers exactly these frames.
  lemma {:induction false} FramesArrive(blocks: seq<Block>)
    requires forall b :: b in blocks ==> |b.payload| <= MESSAGE_PAYLOAD_MAX
    ensures InputLoop(false, Concat(Frames(blocks))) == Loop(Frames(blocks), false, [])
    decreases |blocks|
  {
    if blocks != [] {
      assert blocks[0] in blocks;
      var f, rest := Frame(blocks[0].sendSeq, blocks[0].payload), Concat(Frames(blocks[1..]));
      FrameAccepted(blocks[0].sendSeq, blocks[0].payload, rest);
      assert Frames(blocks)[1..] == Frames(blocks[1..]);
      assert (f + rest)[|f|..] == rest;
      FramesArrive(blocks[1..]);
    }
  }

  // After garbage, one sync byte is enough to receive everything that follows.
  lemma ResyncDelivers(garbage: seq<byte>, blocks: seq<Block>)
    requires forall b :: b in blocks ==> |b.payload| <= MESSAGE_PAYLOAD_MAX
    requires MESSAGE_SYNC !in garbage
    ensures InputLoop(true, garbage + [MESSAGE_SYNC] + Concat(Frames(blocks))).messages == Frames(blocks)
  {
    hide InputLoop, AfterSync, Frames, Concat;
    var stream := Concat(Frames(blocks));
    var rest := [MESSAGE_SYNC] + stream;
    assert garbage + [MESSAGE_SYNC] + stream == garbage + rest;
    SyncWait(garbage + rest);
    NoSync(garbage);
    AfterSyncJoin(garbage, rest);
    assert FindSync(rest) == 0 && rest[1..] == stream;
    AfterSyncIs(rest, 0, stream);
    FramesArrive(blocks);
  }

  lemma NoSync(buf: seq<byte>)
    requires MESSAGE_SYNC !in buf
    ensures FindSync(buf) == |buf|
  {
    FindSyncIsFirst(buf);
  }
}
