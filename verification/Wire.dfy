/** Message headers of include/gorm_msg_helper.h.  Numbers are big-endian; the command and
    the error code are read back through a signed char. */
module Wire {
  import opened Basics

  const RSP_HEADER_LEN: nat := 10
  const REQ_HEADER_LEN: nat := 9
  const MAX_REQUEST_LEN: nat := 8 * 1024 * 1024

  /** The low byte of n >> (8 * k). */
  function ByteOf(n: nat, k: nat): Octet {
    if k == 0 then n % 0x100 else ByteOf(n / 0x100, k - 1)
  }

  /** A byte seen as a char. */
  function Signed(b: Octet): int {
    if b < 128 then b else b - 256
  }

  /** A char or the low byte of an int, stored. */
  function Stored(n: int): Octet {
    n % 0x100
  }

  function Big24(a: Octet, b: Octet, c: Octet): nat {
    a * 0x1_0000 + b * 0x100 + c
  }

  function Big32(a: Octet, b: Octet, c: Octet, d: Octet): nat {
    a * 0x100_0000 + Big24(b, c, d)
  }

  lemma LowBytes(n: nat, q1: nat, q2: nat, q3: nat)
    requires q1 == n / 0x100 && q2 == q1 / 0x100 && q3 == q2 / 0x100
    ensures ByteOf(n, 0) == n % 0x100 && ByteOf(n, 1) == q1 % 0x100 && ByteOf(n, 2) == q2 % 0x100
            && ByteOf(n, 3) == q3 % 0x100
  {
    assert ByteOf(n, 2) == ByteOf(q1, 1) == ByteOf(q2, 0);
    assert ByteOf(n, 3) == ByteOf(q1, 2) == ByteOf(q2, 1) == ByteOf(q3, 0);
  }

  lemma BytesOf32(n: nat)
    ensures Big32(ByteOf(n, 3), ByteOf(n, 2), ByteOf(n, 1), ByteOf(n, 0)) == n % 0x1_0000_0000
  {
    var q1 := n / 0x100;
    var q2 := q1 / 0x100;
    var q3 := q2 / 0x100;
    LowBytes(n, q1, q2, q3);
    hide ByteOf;
    Divides(n, q3 / 0x100, 0x1_0000_0000, Big32(q3 % 0x100, q2 % 0x100, q1 % 0x100, n % 0x100));
  }

  lemma BytesOf24(n: nat)
    ensures Big24(ByteOf(n, 2), ByteOf(n, 1), ByteOf(n, 0)) == n % 0x100_0000
  {
    var q1 := n / 0x100;
    var q2 := q1 / 0x100;
    LowBytes(n, q1, q2, q2 / 0x100);
    hide ByteOf;
    Divides(n, q2 / 0x100, 0x100_0000, Big24(q2 % 0x100, q1 % 0x100, n % 0x100));
  }

  // ---------- decoding ----------

  function GetMsgLen(m: seq<Octet>): nat
    requires |m| >= 4
  {
    Big32(m[0], m[1], m[2], m[3])
  }

  datatype Header = Header(cmd: int, id: nat, err: int, flag: Octet)

  /** GORM_GetRspHeader, applied after the length. */
  function GetRspHeader(m: seq<Octet>): Header
    requires |m| >= RSP_HEADER_LEN
  {
    Header(Signed(m[4]), Big24(m[5], m[6], m[7]), Signed(m[8]), m[9])
  }

  /** GORM_GetReqHeader, applied after the length; a request carries no error code. */
  function GetReqHeader(m: seq<Octet>): Header
    requires |m| >= REQ_HEADER_LEN
  {
    Header(Signed(m[4]), Big24(m[5], m[6], m[7]), 0, m[8])
  }

  // ---------- encoding ----------

  function RspHeader(len: nat, cmd: Octet, id: nat, err: int, flag: Octet): (h: seq<Octet>)
    ensures |h| == RSP_HEADER_LEN
  {
    [ByteOf(len, 3), ByteOf(len, 2), ByteOf(len, 1), ByteOf(len, 0), cmd,
     ByteOf(id, 2), ByteOf(id, 1), ByteOf(id, 0), Stored(err), flag]
  }

  function ReqHeader(len: nat, cmd: int, id: nat, flag: Octet): (h: seq<Octet>)
    ensures |h| == REQ_HEADER_LEN
  {
    [ByteOf(len, 3), ByteOf(len, 2), ByteOf(len, 1), ByteOf(len, 0), Stored(cmd),
     ByteOf(id, 2), ByteOf(id, 1), ByteOf(id, 0), flag]
  }

  /** GORM_SetRspHeader, in place. */
  method SetRspHeader(szMsg: array<Octet>, len: nat, cmd: Octet, id: nat, err: int, flag: Octet)
    requires szMsg.Length >= RSP_HEADER_LEN
    modifies szMsg
    ensures szMsg[..] == RspHeader(len, cmd, id, err, flag) + old(szMsg[RSP_HEADER_LEN..])
  {
    hide ByteOf, Stored;
    szMsg[0] := ByteOf(len, 3);
    szMsg[1] := ByteOf(len, 2);
    szMsg[2] := ByteOf(len, 1);
    szMsg[3] := ByteOf(len, 0);
    szMsg[4] := cmd;
    szMsg[5] := ByteOf(id, 2);
    szMsg[6] := ByteOf(id, 1);
    szMsg[7] := ByteOf(id, 0);
    szMsg[8] := Stored(err);
    szMsg[9] := flag;
    assert szMsg[..10] == RspHeader(len, cmd, id, err, flag);
    assert szMsg[..] == szMsg[..10] + szMsg[10..];
  }

  method SetReqHeader(szMsg: array<Octet>, len: nat, cmd: int, id: nat, flag: Octet)
    requires szMsg.Length >= REQ_HEADER_LEN
    modifies szMsg
    ensures szMsg[..] == ReqHeader(len, cmd, id, flag) + old(szMsg[REQ_HEADER_LEN..])
  {
    hide ByteOf, Stored;
    szMsg[0] := ByteOf(len, 3);
    szMsg[1] := ByteOf(len, 2);
    szMsg[2] := ByteOf(len, 1);
    szMsg[3] := ByteOf(len, 0);
    szMsg[4] := Stored(cmd);
    szMsg[5] := ByteOf(id, 2);
    szMsg[6] := ByteOf(id, 1);
    szMsg[7] := ByteOf(id, 0);
    szMsg[8] := flag;
    assert szMsg[..9] == ReqHeader(len, cmd, id, flag);
    assert szMsg[..] == szMsg[..9] + szMsg[9..];
  }

  /** GORM_SetReqHeaderSeqId rewrites the id of a packed request and nothing else. */
  method SetReqHeaderSeqId(szMsg: array<Octet>, id: nat)
    requires szMsg.Length >= REQ_HEADER_LEN
    modifies szMsg
    ensures GetReqHeader(szMsg[..]) == old(GetReqHeader(szMsg[..])).(id := id % 0x100_0000)
    ensures GetMsgLen(szMsg[..]) == old(GetMsgLen(szMsg[..]))
    ensures szMsg[REQ_HEADER_LEN..] == old(szMsg[REQ_HEADER_LEN..])
  {
    hide ByteOf;
    szMsg[5] := ByteOf(id, 2);
    szMsg[6] := ByteOf(id, 1);
    szMsg[7] := ByteOf(id, 0);
    BytesOf24(id);
  }

  // ---------- the layout of both headers ----------

  /** A number written in whole bytes, the highest first. */
  function BigEndian(b: seq<Octet>): nat {
    if b == [] then 0 else 0x100 * BigEndian(b[..|b| - 1]) + b[|b| - 1]
  }

  lemma BigEndianLast(b: seq<Octet>, c: Octet)
    ensures BigEndian(b + [c]) == 0x100 * BigEndian(b) + c
  {
    assert (b + [c])[..|b|] == b;
  }

  lemma BigEndianBytes(a: Octet, b: Octet, c: Octet, d: Octet)
    ensures BigEndian([b, c, d]) == Big24(b, c, d)
    ensures BigEndian([a, b, c, d]) == Big32(a, b, c, d)
  {
    BigEndianLast([b], c);
    BigEndianLast([b] + [c], d);
    BigEndianLast([a], b);
    BigEndianLast([a] + [b], c);
    BigEndianLast([a] + [b] + [c], d);
    assert [b, c, d] == [b] + [c] + [d] && [a, b, c, d] == [a] + [b] + [c] + [d];
    assert BigEndian([]) == 0 && BigEndian([a]) == a && BigEndian([b]) == b;
  }

  /** What n is when read as a signed byte. */
  predicate SignedByte(n: int, b: Octet) {
    -128 <= n < 128 && n % 0x100 == b
  }

  /** Four bytes of length, one of command, three of id; then error and flag of a response,
      or the flag of a request. */
  lemma DecodedLayout(m: seq<Octet>)
    ensures |m| >= 8 ==> GetMsgLen(m) == BigEndian(m[0..4])
    ensures |m| >= REQ_HEADER_LEN ==>
              var h := GetReqHeader(m);
              SignedByte(h.cmd, m[4]) && h.id == BigEndian(m[5..8]) && h.flag == m[8]
    ensures |m| >= RSP_HEADER_LEN ==>
              var h := GetRspHeader(m);
              SignedByte(h.cmd, m[4]) && h.id == BigEndian(m[5..8]) && SignedByte(h.err, m[8]) && h.flag == m[9]
  {
    if |m| >= 8 {
      assert m[0..4] == [m[0], m[1], m[2], m[3]] && m[5..8] == [m[5], m[6], m[7]];
      BigEndianBytes(m[0], m[1], m[2], m[3]);
      BigEndianBytes(0, m[5], m[6], m[7]);
    }
  }

  lemma EncodedLayout(len: nat, cmd: Octet, reqCmd: int, id: nat, err: int, flag: Octet)
    ensures var h := RspHeader(len, cmd, id, err, flag);
            && BigEndian(h[0..4]) == len % 0x1_0000_0000 && h[4] == cmd && BigEndian(h[5..8]) == id % 0x100_0000
            && h[8] == err % 0x100 && h[9] == flag
    ensures var h := ReqHeader(len, reqCmd, id, flag);
            && BigEndian(h[0..4]) == len % 0x1_0000_0000 && h[4] == reqCmd % 0x100
            && BigEndian(h[5..8]) == id % 0x100_0000 && h[8] == flag
  {
    BytesOf32(len);
    BytesOf24(id);
    hide ByteOf;
    var h, q := RspHeader(len, cmd, id, err, flag), ReqHeader(len, reqCmd, id, flag);
    assert h[0..4] == q[0..4] == [h[0], h[1], h[2], h[3]] && h[5..8] == q[5..8] == [h[5], h[6], h[7]];
    BigEndianBytes(h[0], h[1], h[2], h[3]);
    BigEndianBytes(0, h[5], h[6], h[7]);
  }

  /** The ten bytes 00 00 00 0a 03 00 00 05 00 00: a response with command 3 and id 5. */
  lemma LayoutInstance(m: seq<Octet>)
    requires |m| == 10 && m[0] == m[1] == m[2] == 0 && m[3] == 0x0a
    requires m[4] == 3 && m[5] == m[6] == 0 && m[7] == 5 && m[8] == m[9] == 0
    ensures GetMsgLen(m) == 10 && GetRspHeader(m) == Header(3, 5, 0, 0)
  {
    hide ByteOf, BigEndian;
  }

  // ---------- round trips ----------

  /** A response written by GORM_SetRspHeader reads back: error code and flag always, the
      command exactly below 128, the id exactly below 2^24, the length exactly below 2^32. */
  lemma RspRoundTrip(len: nat, cmd: Octet, id: nat, err: int, flag: Octet, body: seq<Octet>)
    requires -128 <= err < 128
    ensures var m := RspHeader(len, cmd, id, err, flag) + body;
            && (GetMsgLen(m) == len <==> len < 0x1_0000_0000)
            && (GetRspHeader(m).cmd == cmd <==> cmd < 128)
            && (GetRspHeader(m).id == id <==> id < 0x100_0000)
            && GetRspHeader(m).err == err && GetRspHeader(m).flag == flag
            && m[RSP_HEADER_LEN..] == body
  {
    hide ByteOf, Big24, Big32;
    BytesOf32(len);
    BytesOf24(id);
  }

  lemma ReqRoundTrip(len: nat, cmd: int, id: nat, flag: Octet, body: seq<Octet>)
    ensures var m := ReqHeader(len, cmd, id, flag) + body;
            && (GetMsgLen(m) == len <==> len < 0x1_0000_0000)
            && (GetReqHeader(m).cmd == cmd <==> -128 <= cmd < 128)
            && (GetReqHeader(m).id == id <==> id < 0x100_0000)
            && GetReqHeader(m).flag == flag
            && m[REQ_HEADER_LEN..] == body
  {
    hide ByteOf, Big24, Big32;
    BytesOf32(len);
    BytesOf24(id);
  }

  /** No response can carry the upgrade command 1001 that OneRspFinishRead looks for. */
  lemma UpgradeUnreachable(m: seq<Octet>)
    requires |m| >= RSP_HEADER_LEN
    ensures GetRspHeader(m).cmd != 1001 && -128 <= GetRspHeader(m).cmd < 128
  {}
}
