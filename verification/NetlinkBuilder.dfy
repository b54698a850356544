/** The request that the engine fills in place: attributes are appended behind
    nlmsg_len, and a nest is closed by patching the length in its header. */
module NetlinkBuilder {
  import opened Text
  import opened NetlinkFormat

  const MESSAGE_HEADER: nat := 16
  const IFINFOMSG: nat := 16
  const MAX_PAYLOAD: nat := 1024
  const MAXLEN: nat := MESSAGE_HEADER + IFINFOMSG + MAX_PAYLOAD
  const PREFIX: nat := MESSAGE_HEADER + IFINFOMSG

  const RTM_NEWLINK: U16 := 16
  const PF_NETLINK: Byte := 16
  const NLM_F_REQUEST: U16 := 1
  const NLM_F_ACK: U16 := 4
  const NLM_F_EXCL: U16 := 0x200
  const NLM_F_CREATE: U16 := 0x400
  const IFLA_IFNAME: U16 := 3
  const IFLA_LINKINFO: U16 := 18
  const IFLA_NET_NS_FD: U16 := 28
  const IFLA_INFO_KIND: U16 := 1
  const IFLA_INFO_DATA: U16 := 2
  const VETH_INFO_PEER: U16 := 1

  /** How a call ends: it returns, it kills the process because the message is full,
      or its 16-bit length wrapped and it copies past the message. */
  datatype Outcome = Done | Killed | Overrun

  /** The message header behind nlmsg_len, then the ifinfomsg. */
  function Prefix(typ: U16, flags: U16, serial: U32): (p: seq<Byte>)
    ensures |p| == PREFIX - 4
  {
    Bytes16(typ) + Bytes16(flags) + Bytes32(serial) + Zeros(4) + [PF_NETLINK] + Zeros(15)
  }

  /** The bytes of it: message type and flags, serial number, port, family, the rest of
      the ifinfomsg; low bytes first. */
  lemma {:induction false} PrefixBytes(typ: U16, flags: U16)
    ensures Prefix(typ, flags, 0) ==
            [typ % 256, typ / 256, flags % 256, flags / 256] + Zeros(8) + [16] + Zeros(15)
    ensures Prefix(typ, flags, 1) ==
            [typ % 256, typ / 256, flags % 256, flags / 256, 1, 0, 0, 0, 0, 0, 0, 0, 16] + Zeros(15)
  {
    assert Bytes32(0) + Zeros(4) == Zeros(8) && Bytes32(1) == [1, 0, 0, 0] && Zeros(4) == [0, 0, 0, 0];
  }

  predicate Fits(len: nat, size: nat, maxlen: nat) {
    len + size <= maxlen
  }

  lemma {:induction false} Get32At(m: seq<Byte>, v: U32)
    requires |m| >= 4 && m[..4] == Bytes32(v)
    ensures Get32(m, 0) == v
  {
    assert m[0] == Bytes32(v)[0] && m[1] == Bytes32(v)[1];
    assert m[2] == Bytes32(v)[2] && m[3] == Bytes32(v)[3];
  }

  /** The new tail when the 16-bit length of an attribute has wrapped to less than four. */
  function Wrapped(len: nat, size: nat): (tail: nat)
    ensures 0x1_0000 <= RTA_HEADER + size < 0x1_0004 ==> len <= tail <= len + 4
  {
    len + if RTA_HEADER + size == 0x1_0000 then 0 else 4
  }

  /** The 16-bit length and the new tail, and when they are what they should be. */
  lemma {:induction false} NewLength(len: nat, typ: U16, data: seq<Byte>)
    requires len % 4 == 0 && len <= 0x10_0000 && |data| < 0x1_0000
    ensures Align(len) == len
    ensures var attrLen := (RTA_HEADER + |data|) % 0x1_0000;
            var newLen := (len + Align(attrLen)) % 0x1_0000_0000;
            if RTA_HEADER + |data| < 0x1_0000 then
              && attrLen == RTA_HEADER + |data|
              && newLen == len + |Enc(Leaf(typ, data))|
              && newLen % 4 == 0
              && Enc(Leaf(typ, data)) ==
                 Header(attrLen, typ) + data + Zeros(newLen - len - RTA_HEADER - |data|)
            else newLen == Wrapped(len, |data|)
  {
    hide Header, Zeros, Enc;
    AlignShift(len);
    EncShape(Leaf(typ, data));
  }

  /** Writing bytes at the tail of a message that is zero behind it appends them, and
      the zeros up to the new tail, to what the message holds. */
  lemma Append(m: seq<Byte>, at: nat, bytes: seq<Byte>, tail: nat, m': seq<Byte>)
    requires 4 <= at <= at + |bytes| <= tail <= |m|
    requires forall i :: at <= i < |m| ==> m[i] == 0
    requires m' == m[..at] + bytes + m[at + |bytes|..]
    ensures |m'| == |m| && m'[4..tail] == m[4..at] + bytes + Zeros(tail - at - |bytes|)
    ensures forall i :: tail <= i < |m| ==> m'[i] == 0
  {
  }

  /** Replacing the length in one header leaves everything else in place. */
  lemma {:induction false} Patch(m: seq<Byte>, len: nat, before: seq<Byte>, typ: U16, content: seq<Byte>, m': seq<Byte>)
    requires 4 <= len <= |m| && m[4..len] == before + Header(RTA_HEADER, typ) + content
    requires var at := 4 + |before|;
             m' == m[..at] + Bytes16((len - at) % 0x1_0000) + m[at + 2..]
    ensures |m'| == |m| && m'[..4] == m[..4] && m'[len..] == m[len..]
    ensures m'[4..len] == before + Header(RTA_HEADER + |content|, typ) + content
  {
    hide Bytes16, Header;
    var at := 4 + |before|;
    var stored := Bytes16((len - at) % 0x1_0000);
    HeaderParts(RTA_HEADER, typ);
    HeaderParts(RTA_HEADER + |content|, typ);
    var body := m[4..len];
    assert len - at == RTA_HEADER + |content|;
    SliceSlice(m, 4, len, 0, |before|);
    SliceSlice(m, 4, len, |before| + 2, len - 4);
    assert body[|before| + 2..] == Bytes16(typ) + content;
    assert m'[4..len] == m[4..at] + stored + m[at + 2..len];
    Assoc(before, stored, Bytes16(typ));
    Assoc(before + stored, Bytes16(typ), content);
  }

  lemma {:induction false} HeaderParts(len: nat, typ: U16)
    ensures Header(len, typ) == Bytes16(len % 0x1_0000) + Bytes16(typ)
    ensures |Bytes16(len % 0x1_0000)| == |Bytes16(typ)| == 2
  {
  }

  lemma {:induction false} SameBehind(m: seq<Byte>, m': seq<Byte>, len: nat)
    requires 4 <= len <= |m| == |m'| && m[4..] == m'[4..]
    ensures m[4..len] == m'[4..len] && m[len..] == m'[len..]
  {
    assert m[4..len] == m[4..][..len - 4];
    assert m[len..] == m[4..][len - 4..];
  }

  class NlReq {
    const buf: array<Byte>

    /** nlmsg_len is aligned and everything behind it is still zero. */
    ghost predicate Valid()
      reads buf
    {
      && buf.Length == MAXLEN
      && Len() % 4 == 0
      && PREFIX <= Len() <= 0x10_0000
      && forall i :: Len() <= i < MAXLEN ==> buf[i] == 0
    }

    /** The field nlmsg_len. */
    function Len(): U32
      requires buf.Length == MAXLEN
      reads buf
    {
      Get32(buf[..], 0)
    }

    /** Everything in the message but nlmsg_len itself. */
    ghost function Body(): seq<Byte>
      requires buf.Length == MAXLEN && 4 <= Len() <= MAXLEN
      reads buf
    {
      buf[4..Len()]
    }

    constructor (typ: U16, flags: U16)
      ensures Valid() && fresh(buf) && Len() == PREFIX
      ensures Body() == Prefix(typ, flags, 0)
      ensures Body() == [typ % 256, typ / 256, flags % 256, flags / 256] + Zeros(8) + [16] + Zeros(15)
    {
      PrefixBytes(typ, flags);
      buf := new Byte[MAXLEN](i => 0);
      new;
      Write(0, Bytes32(PREFIX) + Prefix(typ, flags, 0));
      assert buf[..4] == Bytes32(PREFIX);
      Get32At(buf[..], PREFIX);
      assert buf[4..PREFIX] == Prefix(typ, flags, 0);
    }

    method Write(at: nat, bytes: seq<Byte>)
      requires at + |bytes| <= buf.Length
      modifies buf
      ensures buf[..] == old(buf[..at]) + bytes + old(buf[at + |bytes|..])
    {
      forall k | 0 <= k < |bytes| {
        buf[at + k] := bytes[k];
      }
    }

    method SetLen(v: U32)
      requires buf.Length == MAXLEN
      modifies buf
      ensures Len() == v && buf[4..] == old(buf[4..])
    {
      Write(0, Bytes32(v));
      assert buf[..4] == Bytes32(v);
      Get32At(buf[..], v);
    }

    /** Stores bytes at the tail and moves the tail. */
    method Put(bytes: seq<Byte>, newLen: nat)
      requires Valid() && Len() + |bytes| <= newLen <= MAXLEN && newLen % 4 == 0
      modifies buf
      ensures Valid() && Len() == newLen
      ensures Body() == old(Body()) + bytes + Zeros(newLen - old(Len()) - |bytes|)
    {
      var at := Len();
      ghost var m := buf[..];
      Write(at, bytes);
      ghost var m' := buf[..];
      Append(m, at, bytes, newLen, m');
      SetLen(newLen);
      SameBehind(m', buf[..], newLen);
      assert forall i :: newLen <= i < MAXLEN ==> buf[i] == m'[newLen..][i - newLen];
    }

    /** Appends one attribute with its payload. Returns exactly when the length fits its 16
        bits and the message does not outgrow maxlen; copies past the message exactly when
        the length wraps and what is left of it lets the check pass. */
    method AddAttr(maxlen: nat, typ: U16, data: seq<Byte>) returns (o: Outcome)
      requires Valid() && maxlen <= MAXLEN && |data| < 0x1_0000
      modifies buf
      ensures o.Done? <==> RTA_HEADER + |data| < 0x1_0000
                           && Fits(old(Len()), |Enc(Leaf(typ, data))|, maxlen)
      ensures o.Overrun? <==> RTA_HEADER + |data| >= 0x1_0000 && Wrapped(old(Len()), |data|) <= maxlen
      ensures o.Done? ==> Valid() && PREFIX <= old(Len()) <= Len() <= maxlen
      ensures o.Done? ==> Len() == old(Len()) + |Enc(Leaf(typ, data))|
      ensures o.Done? ==> Body() == old(Body()) + Enc(Leaf(typ, data))
    {
      var attrLen := (RTA_HEADER + |data|) % 0x1_0000;
      var at := Align(Len());
      var newLen := (at + Align(attrLen)) % 0x1_0000_0000;
      NewLength(Len(), typ, data);
      if newLen > maxlen {
        return Killed;
      }
      if at + RTA_HEADER + |data| > buf.Length {
        return Overrun;
      }
      Put(Header(attrLen, typ) + data, newLen);
      o := Done;
    }

    /** Opens a nest. The offset it returns is the one the attribute was written to. */
    method AddNest(maxlen: nat, typ: U16) returns (o: Outcome, nest: nat)
      requires Valid() && maxlen <= MAXLEN
      modifies buf
      ensures nest == old(Len()) && !o.Overrun?
      ensures o.Done? <==> Fits(old(Len()), RTA_HEADER, maxlen)
      ensures o.Done? ==> Valid() && Len() == nest + RTA_HEADER <= maxlen
      ensures o.Done? ==> Body() == old(Body()) + Header(RTA_HEADER, typ)
    {
      nest := Align(Len());
      AlignShift(Len());
      o := AddAttr(maxlen, typ, []);
      assert Enc(Leaf(typ, [])) == Header(RTA_HEADER, typ);
    }

    /** Closes a nest by storing its length, the distance from its header to the tail. */
    method NestEnd(nest: nat, ghost before: seq<Byte>, ghost typ: U16, ghost content: seq<Byte>)
      requires Valid() && Len() <= MAXLEN && nest == 4 + |before|
      requires Body() == before + Header(RTA_HEADER, typ) + content
      modifies buf
      ensures Valid() && Len() == old(Len())
      ensures Body() == before + Header(RTA_HEADER + |content|, typ) + content
    {
      var len := Len();
      AlignShift(len);
      ghost var m := buf[..];
      Write(nest, Bytes16((Align(len) - nest) % 0x1_0000));
      Patch(m, len, before, typ, content, buf[..]);
      assert buf[..4] == m[..4] && buf[len..] == m[len..];
      assert Len() == len;
    }

    /** Takes size zero bytes that are already there, with no check of the bound. */
    method Reserve(size: nat)
      requires Valid() && Len() <= MAXLEN && size % 4 == 0 && size < 0x1_0000
      modifies buf
      ensures Valid() && Len() == old(Len()) + size
      ensures Len() <= MAXLEN ==> Body() == old(Body()) + Zeros(size)
    {
      hide Get32, Zeros;
      var len := Len();
      ghost var m := buf[..];
      SetLen(len + size);
      ghost var m' := buf[..];
      SameBehind(m, m', len);
      assert forall i :: len <= i < MAXLEN ==> m'[i] == m'[len..][i - len];
      if len + size <= MAXLEN {
        SameBehind(m, m', len + size);
        Append(m, len, [], len + size, m);
      }
    }

    /** Writes a whole attribute tree with the calls above. */
    method Serialize(a: Attr, maxlen: nat) returns (o: Outcome)
      requires Valid() && maxlen <= MAXLEN && Buildable(a)
      modifies buf
      ensures !o.Overrun?
      ensures o.Done? <==> Fits(old(Len()), |Enc(a)|, maxlen)
      ensures o.Done? ==> Valid() && PREFIX <= old(Len()) <= Len() <= maxlen
      ensures o.Done? ==> Len() == old(Len()) + |Enc(a)| && Body() == old(Body()) + Enc(a)
      decreases a
    {
      hide Get32, Zeros, Header, Enc, EncAll;
      match a
      case Leaf(typ, payload) =>
        o := AddAttr(maxlen, typ, payload);
      case Nest(typ, head, kids) =>
        var nest;
        o, nest := AddNest(maxlen, typ);
        if o.Killed? {
          return;
        }
        ghost var open := Body();
        ghost var before := open[..|open| - RTA_HEADER];
        if head != [] {
          Reserve(|head|);
        }
        o := SerializeAll(kids, maxlen);
        NestShape(before, a);
        if o.Done? {
          assert Body() == open + (head + EncAll(kids));
          assert open == before + Header(RTA_HEADER, typ);
          NestEnd(nest, before, typ, head + EncAll(kids));
        }
    }

    method SerializeAll(kids: seq<Attr>, maxlen: nat) returns (o: Outcome)
      requires Valid() && maxlen <= MAXLEN && forall k :: k in kids ==> Buildable(k)
      modifies buf
      ensures !o.Overrun?
      ensures o.Done? <==> kids == [] || Fits(old(Len()), |EncAll(kids)|, maxlen)
      ensures o.Done? ==> Valid() && Len() == old(Len()) + |EncAll(kids)|
      ensures o.Done? && old(Len()) <= MAXLEN ==> Len() <= MAXLEN && Body() == old(Body()) + EncAll(kids)
      decreases kids
    {
      hide Get32, Enc;
      o := Done;
      ghost var len := Len();
      for i := 0 to |kids|
        invariant Valid() && Len() == len + |EncAll(kids[..i])| && o == Done
        invariant i > 0 ==> Len() <= maxlen
        invariant len <= MAXLEN ==> Len() <= MAXLEN && Body() == old(Body()) + EncAll(kids[..i])
      {
        EncAllSplit(kids, i);
        o := Serialize(kids[i], maxlen);
        if o.Killed? {
          return;
        }
      }
      assert kids[..|kids|] == kids;
    }

    /** Counts the message in its header and hands it to the socket. */
    method Send() returns (sent: seq<Byte>)
      requires Valid() && Len() <= MAXLEN
      modifies buf
      ensures Len() == old(Len()) == |sent| && Get32(sent, 0) == |sent|
      ensures sent[4..8] == old(Body())[..4] && sent[12..] == old(Body())[8..]
      ensures sent[8..12] == Bytes32((old(Get32(buf[..], 8)) + 1) % 0x1_0000_0000)
    {
      var len := Len();
      ghost var m := buf[..];
      Write(8, Bytes32((Get32(buf[..], 8) + 1) % 0x1_0000_0000));
      assert buf[..4] == m[..4];
      Get32Same(m, buf[..]);
      assert buf[4..8] == m[4..8] == m[4..len][..4];
      assert buf[12..len] == m[12..len];
      sent := buf[..len];
      Get32Same(buf[..], sent);
      assert sent[12..] == m[12..len] == m[4..len][8..];
    }
  }

  lemma {:induction false} Get32Same(m: seq<Byte>, m': seq<Byte>)
    requires |m| >= 4 && |m'| >= 4 && m[..4] == m'[..4]
    ensures Get32(m, 0) == Get32(m', 0)
  {
    assert m[0] == m[..4][0] == m'[..4][0] == m'[0] && m[1] == m[..4][1] == m'[..4][1] == m'[1];
    assert m[2] == m[..4][2] == m'[..4][2] == m'[2] && m[3] == m[..4][3] == m'[..4][3] == m'[3];
  }

  /** What the calls can build: lengths fit, reserved bytes are zero and aligned, and a
      nest that reserves bytes holds an attribute, whose bound check covers them. */
  ghost predicate Buildable(a: Attr) {
    match a
    case Leaf(typ, payload) => RTA_HEADER + |payload| < 0x1_0000
    case Nest(typ, head, kids) =>
      && |head| % 4 == 0 && |head| < 0x1_0000 && head == Zeros(|head|)
      && (head != [] ==> kids != [])
      && forall k :: k in kids ==> Buildable(k)
  }

  lemma {:induction false} NestShape(before: seq<Byte>, a: Attr)
    requires a.Nest?
    ensures var content := a.head + EncAll(a.kids);
            && |Enc(a)| == RTA_HEADER + |content|
            && (a.kids == [] ==> EncAll(a.kids) == [])
            && before + Header(RTA_HEADER + |content|, a.typ) + content == before + Enc(a)
  {
    var content := a.head + EncAll(a.kids);
    assert Enc(a) == Header(RTA_HEADER + |content|, a.typ) + content;
  }

  lemma EncAllSplit(kids: seq<Attr>, i: nat)
    requires i < |kids|
    ensures EncAll(kids[..i + 1]) == EncAll(kids[..i]) + Enc(kids[i])
    ensures |EncAll(kids)| >= |EncAll(kids[..i + 1])|
  {
    assert kids[..i + 1] == kids[..i] + [kids[i]];
    EncAllConcat(kids[..i], [kids[i]]);
    assert EncAll([kids[i]]) == Enc(kids[i]) + EncAll([]);
    assert kids == kids[..i + 1] + kids[i + 1..];
    EncAllConcat(kids[..i + 1], kids[i + 1..]);
  }

  /** The bytes handed over for a name: the cast to 16 bits cuts its length. */
  function NameBytes(name: seq<Byte>): (bs: seq<Byte>)
    ensures |name| < 0xFFFF ==> bs == name + [0]
  {
    (name + [0])[..(|name| + 1) % 0x1_0000]
  }

  const KIND_VETH: seq<Byte> := [118, 101, 116, 104, 0]

  /** What the kernel knows of a link request: where attributes are nested, and that a
      peer starts with an ifinfomsg. */
  function LinkPolicy(path: seq<U16>): Option<nat> {
    if path == [IFLA_LINKINFO] || path == [IFLA_LINKINFO, IFLA_INFO_DATA] then Some(0)
    else if path == [IFLA_LINKINFO, IFLA_INFO_DATA, VETH_INFO_PEER] then Some(IFINFOMSG)
    else None
  }

  function PeerTree(peer: seq<Byte>): Attr {
    Nest(VETH_INFO_PEER, Zeros(IFINFOMSG), [Leaf(IFLA_IFNAME, peer)])
  }

  function InfoTree(peer: seq<Byte>): Attr {
    Nest(IFLA_INFO_DATA, [], [PeerTree(peer)])
  }

  /** The attributes of "ip link add IFNAME type veth peer name PEER". */
  function VethTree(ifname: seq<Byte>, peer: seq<Byte>): seq<Attr> {
    [Leaf(IFLA_IFNAME, ifname),
     Nest(IFLA_LINKINFO, [], [Leaf(IFLA_INFO_KIND, KIND_VETH), InfoTree(peer)])]
  }

  function VethSize(ifname: seq<Byte>, peer: seq<Byte>): nat {
    72 + Align(RTA_HEADER + |ifname|) + Align(RTA_HEADER + |peer|)
  }

  lemma EncPair(a: Attr, b: Attr)
    ensures EncAll([a]) == Enc(a) && EncAll([a, b]) == Enc(a) + Enc(b)
  {
    assert [a, b][1..] == [b] && [a][1..] == [] && [b][1..] == [];
  }

  lemma VethShape(ifname: seq<Byte>, peer: seq<Byte>)
    requires RTA_HEADER + |ifname| < 0x1_0000 && RTA_HEADER + |peer| <= MAXLEN
    ensures |Enc(Leaf(IFLA_IFNAME, ifname))| == Align(RTA_HEADER + |ifname|)
    ensures |Enc(PeerTree(peer))| == 20 + Align(RTA_HEADER + |peer|)
    ensures |Enc(Leaf(IFLA_INFO_KIND, KIND_VETH))| == 12
    ensures PREFIX + |EncAll(VethTree(ifname, peer))| == VethSize(ifname, peer)
    ensures ConformsAll(LinkPolicy, [], VethTree(ifname, peer))
  {
    var name, kind, far := Leaf(IFLA_IFNAME, ifname), Leaf(IFLA_INFO_KIND, KIND_VETH), Leaf(IFLA_IFNAME, peer);
    EncShape(name);
    EncShape(kind);
    EncShape(far);
    EncPair(far, far);
    EncPair(PeerTree(peer), far);
    EncPair(kind, InfoTree(peer));
    EncPair(name, VethTree(ifname, peer)[1]);
    VethConforms(ifname, peer);
  }

  lemma {:induction false} ConformsPair(path: seq<U16>, a: Attr, b: Attr)
    requires Conforms(LinkPolicy, path, a) && Conforms(LinkPolicy, path, b)
    ensures ConformsAll(LinkPolicy, path, [a]) && ConformsAll(LinkPolicy, path, [a, b])
  {
    assert [a, b][1..] == [b] && [a][1..] == [] && [b][1..] == [];
  }

  lemma VethConforms(ifname: seq<Byte>, peer: seq<Byte>)
    requires RTA_HEADER + |ifname| < 0x1_0000 && RTA_HEADER + |peer| <= MAXLEN
    ensures ConformsAll(LinkPolicy, [], VethTree(ifname, peer))
  {
    var name, kind, far := Leaf(IFLA_IFNAME, ifname), Leaf(IFLA_INFO_KIND, KIND_VETH), Leaf(IFLA_IFNAME, peer);
    var outer, inner := [IFLA_LINKINFO], [IFLA_LINKINFO, IFLA_INFO_DATA];
    EncPair(far, far);
    EncPair(PeerTree(peer), far);
    EncPair(kind, InfoTree(peer));
    EncShape(far);
    assert inner + [VETH_INFO_PEER] == [IFLA_LINKINFO, IFLA_INFO_DATA, VETH_INFO_PEER];
    assert outer + [IFLA_INFO_DATA] == inner;
    assert (outer + [IFLA_INFO_KIND])[1] != inner[1];
    assert [] + [IFLA_LINKINFO] == outer;
    ConformsPair(inner + [VETH_INFO_PEER], far, far);
    ConformsPair(inner, PeerTree(peer), PeerTree(peer));
    ConformsPair(outer, kind, InfoTree(peer));
    assert ([] + [IFLA_IFNAME])[0] != outer[0];
    ConformsPair([], name, VethTree(ifname, peer)[1]);
  }

  /** The 32 bytes in front of the attributes of a request for a new link, as they stand
      in the message: its length, type 16, the flags, serial number 1, port 0, family 16,
      and zeros; low bytes first. */
  predicate LinkHeader(sent: seq<Byte>, flags: U16) {
    && 32 <= |sent| < 65536
    && sent[..17] == [|sent| % 256, |sent| / 256, 0, 0, 16, 0, flags % 256, flags / 256,
                      1, 0, 0, 0, 0, 0, 0, 0, 16]
    && forall i :: 17 <= i < 32 ==> sent[i] == 0
  }

  /** A request as it is sent: the header, then the attributes. */
  ghost predicate IsRequest(sent: seq<Byte>, pol: Policy, flags: U16, attrs: seq<Attr>) {
    && |sent| == 32 + |EncAll(attrs)|
    && LinkHeader(sent, flags)
    && sent[32..] == EncAll(attrs)
    && Decode(true, pol, [], sent[32..]) == Some(attrs)
  }

  lemma HeaderOf(sent: seq<Byte>, flags: U16)
    requires 32 <= |sent| < 65536 && Get32(sent, 0) == |sent|
    requires sent[4..32] == Prefix(RTM_NEWLINK, flags, 1)
    ensures LinkHeader(sent, flags)
  {
    PrefixBytes(RTM_NEWLINK, flags);
    hide Prefix;
    var p := sent[4..32];
    assert forall i :: 4 <= i < 32 ==> sent[i] == p[i - 4];
  }

  lemma Sent(body: seq<Byte>, pol: Policy, flags: U16, attrs: seq<Attr>, sent: seq<Byte>)
    requires body == Prefix(RTM_NEWLINK, flags, 0) + EncAll(attrs)
    requires |sent| == 4 + |body| && Get32(sent, 0) == |sent|
    requires sent[4..8] == body[..4] && sent[8..12] == Bytes32(1) && sent[12..] == body[8..]
    requires ConformsAll(pol, [], attrs) && |sent| < 65536
    ensures IsRequest(sent, pol, flags, attrs)
  {
    var p0, p1 := Prefix(RTM_NEWLINK, flags, 0), Prefix(RTM_NEWLINK, flags, 1);
    assert p0[..4] == p1[..4] && p0[8..] == p1[8..] && p1[4..8] == Bytes32(1);
    assert sent[4..PREFIX] == sent[4..8] + sent[8..12] + sent[12..][..PREFIX - 12];
    assert body[8..][..PREFIX - 12] == p0[8..] && body[..4] == p0[..4];
    assert p1 == p1[..4] + p1[4..8] + p1[8..];
    assert sent[PREFIX..] == sent[12..][PREFIX - 12..] == body[8..][PREFIX - 12..] == EncAll(attrs);
    HeaderOf(sent, flags);
    DecodeEnc(true, pol, [], attrs);
  }

  lemma {:induction false} SerialZero(body: seq<Byte>, attrs: seq<Attr>, flags: U16, m: seq<Byte>)
    requires body == Prefix(RTM_NEWLINK, flags, 0) + EncAll(attrs)
    requires |m| >= 12 && m[4..12] == body[..8]
    ensures Get32(m, 8) == 0
  {
    var p := Prefix(RTM_NEWLINK, flags, 0);
    assert p[..8][4..] == Bytes32(0) && body[..8] == p[..8];
    assert m[8..12] == m[4..12][4..] == Bytes32(0);
    assert m[8] == m[8..12][0] && m[9] == m[8..12][1] && m[10] == m[8..12][2] && m[11] == m[8..12][3];
  }

  /** What the message holds while the three nests of the request are open: b1 before
      the outer one, b3 before the middle one, b4 before the inner one. */
  ghost predicate VethOpen(b0: seq<Byte>, name: seq<Byte>, peer: seq<Byte>,
                           b1: seq<Byte>, b3: seq<Byte>, b4: seq<Byte>, body: seq<Byte>)
  {
    && b1 == b0 + Enc(Leaf(IFLA_IFNAME, name))
    && b3 == b1 + Header(RTA_HEADER, IFLA_LINKINFO) + Enc(Leaf(IFLA_INFO_KIND, KIND_VETH))
    && b4 == b3 + Header(RTA_HEADER, IFLA_INFO_DATA)
    && body == b4 + Header(RTA_HEADER, VETH_INFO_PEER) + (Zeros(IFINFOMSG) + Enc(Leaf(IFLA_IFNAME, peer)))
  }

  /** The request for these names, with their NULs, is sent. */
  predicate VethFits(name: seq<Byte>, peer: seq<Byte>) {
    |name| < 65532 && |peer| < 65532 && 72 + Align(4 + |name|) + Align(4 + |peer|) <= 1056
  }

  /** The code copies a name past its buffer: the first one when its length wraps, or the
      second one when its length wraps and everything in front of it has fitted. */
  predicate VethOverruns(name: seq<Byte>, peer: seq<Byte>) {
    |name| >= 65532
    || (|peer| >= 65532 && 72 + Align(4 + |name|) + (if |peer| == 65532 then 0 else 4) <= 1056)
  }

  /** The calls that append: three nests are opened and none closed. */
  method OpenVeth(req: NlReq, name: seq<Byte>, peer: seq<Byte>)
    returns (o: Outcome, linfo: nat, linfodata: nat, peerinfo: nat,
             ghost b1: seq<Byte>, ghost b3: seq<Byte>, ghost b4: seq<Byte>)
    requires req.Valid() && req.Len() == PREFIX && |name| < 0x1_0000 && |peer| < 0x1_0000
    modifies req.buf
    ensures o.Done? <==> VethFits(name, peer)
    ensures o.Overrun? <==> VethOverruns(name, peer)
    ensures o.Done? ==>
              && req.Valid() && req.Len() == VethSize(name, peer)
              && VethOpen(old(req.Body()), name, peer, b1, b3, b4, req.Body())
              && linfo == 4 + |b1| && linfodata == 4 + |b3| && peerinfo == 4 + |b4|
  {
    hide Get32, Enc, Zeros, Header, Align;
    linfo, linfodata, peerinfo, b1, b3, b4 := 0, 0, 0, [], [], [];
    LeafSize(IFLA_IFNAME, name);
    KindSize();
    LeafSize(IFLA_IFNAME, peer);
    o := req.AddAttr(MAXLEN, IFLA_IFNAME, name);
    if !o.Done? { return; }
    b1 := req.Body();
    o, linfo := req.AddNest(MAXLEN, IFLA_LINKINFO);
    if !o.Done? { return; }
    o := req.AddAttr(MAXLEN, IFLA_INFO_KIND, KIND_VETH);
    if !o.Done? { return; }
    b3 := req.Body();
    o, linfodata := req.AddNest(MAXLEN, IFLA_INFO_DATA);
    if !o.Done? { return; }
    b4 := req.Body();
    o, peerinfo := req.AddNest(MAXLEN, VETH_INFO_PEER);
    if !o.Done? { return; }
    ghost var b5 := req.Body();
    req.Reserve(IFINFOMSG);
    assert req.Len() + Align(RTA_HEADER + |peer|) == VethSize(name, peer);
    o := req.AddAttr(MAXLEN, IFLA_IFNAME, peer);
    if !o.Done? { return; }
    Assoc(b5, Zeros(IFINFOMSG), Enc(Leaf(IFLA_IFNAME, peer)));
  }

  lemma {:induction false} LeafSize(typ: U16, data: seq<Byte>)
    ensures |Enc(Leaf(typ, data))| == Align(RTA_HEADER + |data|)
  {
    EncShape(Leaf(typ, data));
  }

  lemma {:induction false} KindSize()
    ensures |Enc(Leaf(IFLA_INFO_KIND, KIND_VETH))| == 12
  {
    LeafSize(IFLA_INFO_KIND, KIND_VETH);
  }

  lemma PeerBytes(b4: seq<Byte>, peer: seq<Byte>)
    ensures var content := Zeros(IFINFOMSG) + Enc(Leaf(IFLA_IFNAME, peer));
            b4 + Header(RTA_HEADER + |content|, VETH_INFO_PEER) + content == b4 + Enc(PeerTree(peer))
  {
    EncPair(Leaf(IFLA_IFNAME, peer), PeerTree(peer));
    NestShape(b4, PeerTree(peer));
  }

  lemma InfoBytes(b3: seq<Byte>, peer: seq<Byte>)
    ensures var content := Enc(PeerTree(peer));
            b3 + Header(RTA_HEADER + |content|, IFLA_INFO_DATA) + content == b3 + Enc(InfoTree(peer))
  {
    EncPair(PeerTree(peer), PeerTree(peer));
    NestShape(b3, InfoTree(peer));
    assert [] + EncAll([PeerTree(peer)]) == Enc(PeerTree(peer));
  }

  lemma LinkBytes(b1: seq<Byte>, name: seq<Byte>, peer: seq<Byte>)
    ensures var content := Enc(Leaf(IFLA_INFO_KIND, KIND_VETH)) + Enc(InfoTree(peer));
            b1 + Header(RTA_HEADER + |content|, IFLA_LINKINFO) + content
            == b1 + Enc(VethTree(name, peer)[1])
  {
    var link := VethTree(name, peer)[1];
    EncPair(Leaf(IFLA_INFO_KIND, KIND_VETH), InfoTree(peer));
    assert [] + EncAll(link.kids) == EncAll(link.kids);
    NestShape(b1, link);
  }

  /** The calls that close the nests, the innermost first. Each length then covers
      exactly what is inside. */
  method CloseVeth(req: NlReq, linfo: nat, linfodata: nat, peerinfo: nat, ghost name: seq<Byte>, ghost peer: seq<Byte>,
                   ghost b0: seq<Byte>, ghost b1: seq<Byte>, ghost b3: seq<Byte>, ghost b4: seq<Byte>)
    requires req.Valid() && req.Len() <= MAXLEN
    requires VethOpen(b0, name, peer, b1, b3, b4, req.Body())
    requires linfo == 4 + |b1| && linfodata == 4 + |b3| && peerinfo == 4 + |b4|
    modifies req.buf
    ensures req.Valid() && req.Len() == old(req.Len())
    ensures req.Body() == b0 + EncAll(VethTree(name, peer))
  {
    hide Enc, EncAll, Header, Zeros, Get32;
    ghost var kind := Enc(Leaf(IFLA_INFO_KIND, KIND_VETH));
    req.NestEnd(peerinfo, b4, VETH_INFO_PEER, Zeros(IFINFOMSG) + Enc(Leaf(IFLA_IFNAME, peer)));
    PeerBytes(b4, peer);
    req.NestEnd(linfodata, b3, IFLA_INFO_DATA, Enc(PeerTree(peer)));
    InfoBytes(b3, peer);
    Assoc(b1 + Header(RTA_HEADER, IFLA_LINKINFO), kind, Enc(InfoTree(peer)));
    req.NestEnd(linfo, b1, IFLA_LINKINFO, kind + Enc(InfoTree(peer)));
    LinkBytes(b1, name, peer);
    EncPair(Leaf(IFLA_IFNAME, name), VethTree(name, peer)[1]);
    Assoc(b0, Enc(Leaf(IFLA_IFNAME, name)), Enc(VethTree(name, peer)[1]));
  }

  /** Sends the request for a pair of veth interfaces, for any two names. It is sent
      exactly when the names' lengths fit and the whole message does. */
  method CreateVeth(ifname: seq<Byte>, peername: seq<Byte>) returns (o: Outcome, sent: seq<Byte>)
    ensures var n, p := NameBytes(ifname), NameBytes(peername);
            && (o.Done? <==> VethFits(n, p))
            && (o.Overrun? <==> VethOverruns(n, p))
            && (o.Done? ==> |sent| == VethSize(n, p) && IsRequest(sent, LinkPolicy, 0x605, VethTree(n, p)))
  {
    sent := [];
    var flags: U16 := NLM_F_REQUEST + NLM_F_CREATE + NLM_F_EXCL + NLM_F_ACK;
    var req := new NlReq(RTM_NEWLINK, flags);
    var name, peer := NameBytes(ifname), NameBytes(peername);
    ghost var b0 := req.Body();
    var linfo, linfodata, peerinfo;
    ghost var b1, b3, b4;
    o, linfo, linfodata, peerinfo, b1, b3, b4 := OpenVeth(req, name, peer);
    if o.Done? {
      CloseVeth(req, linfo, linfodata, peerinfo, name, peer, b0, b1, b3, b4);
      VethShape(name, peer);
      sent := SendRequest(req, LinkPolicy, flags, VethTree(name, peer));
    }
  }

  /** A name of 65531 characters makes the code copy past its buffer, one of 65530 ends
      the process as it should, and one of 65535 is sent as if it were empty. */
  lemma LongNames(name: seq<Byte>, peer: seq<Byte>)
    requires |peer| <= 15
    ensures var n, p := NameBytes(name), NameBytes(peer);
            && (|name| == 65530 ==> !VethFits(n, p) && !VethOverruns(n, p))
            && (|name| == 65531 ==> VethOverruns(n, p))
            && (|name| == 65535 ==> n == [] && VethFits(n, p))
  {
  }

  /** send_nlmsg: counts the message and hands it over. */
  method SendRequest(req: NlReq, ghost pol: Policy, ghost flags: U16, ghost attrs: seq<Attr>) returns (sent: seq<Byte>)
    requires req.Valid() && req.Len() <= MAXLEN
    requires req.Body() == Prefix(RTM_NEWLINK, flags, 0) + EncAll(attrs)
    requires ConformsAll(pol, [], attrs)
    modifies req.buf
    ensures IsRequest(sent, pol, flags, attrs)
  {
    ghost var body := req.Body();
    assert req.buf[4..12] == req.buf[4..req.Len()][..8];
    SerialZero(body, attrs, flags, req.buf[..]);
    sent := req.Send();
    Sent(body, pol, flags, attrs, sent);
  }

  /** The bytes of a C int on a little-endian machine, two's complement. */
  function IntBytes(v: int): (r: seq<Byte>)
    ensures |r| == 4
  {
    Bytes32(v % 0x1_0000_0000)
  }

  function LittleEndian(bs: seq<Byte>): nat {
    if bs == [] then 0 else bs[0] as int + 256 * LittleEndian(bs[1..])
  }

  lemma {:induction false} FourBytes(a: Byte, b: Byte, c: Byte, d: Byte)
    ensures LittleEndian([a, b, c, d]) == a as int + 256 * b as int + 65536 * c as int + 16777216 * d as int
  {
    assert [a, b, c, d][1..] == [b, c, d] && [b, c, d][1..] == [c, d] && [c, d][1..] == [d] && [d][1..] == [];
    assert LittleEndian([d]) == d as int;
    assert LittleEndian([c, d]) == c as int + 256 * LittleEndian([d]);
    assert LittleEndian([b, c, d]) == b as int + 256 * LittleEndian([c, d]);
  }

  /** The descriptor can be read back from its bytes. */
  lemma {:induction false} IntBytesRead(v: int)
    requires -0x8000_0000 <= v < 0x8000_0000
    ensures LittleEndian(IntBytes(v)) == if v >= 0 then v else v + 4294967296
  {
    var r := IntBytes(v);
    FourBytes(r[0], r[1], r[2], r[3]);
    assert r == [r[0], r[1], r[2], r[3]];
  }

  function MoveTree(netns: int, name: seq<Byte>): seq<Attr> {
    [Leaf(IFLA_NET_NS_FD, IntBytes(netns)), Leaf(IFLA_IFNAME, name)]
  }

  lemma MoveShape(netns: int, name: seq<Byte>)
    requires |name| < 0xFFFC
    ensures EncAll(MoveTree(netns, name)) == Enc(MoveTree(netns, name)[0]) + Enc(MoveTree(netns, name)[1])
    ensures |EncAll(MoveTree(netns, name))| == 8 + Align(RTA_HEADER + |name|)
    ensures ConformsAll(LinkPolicy, [], MoveTree(netns, name))
  {
    var fd, n := Leaf(IFLA_NET_NS_FD, IntBytes(netns)), Leaf(IFLA_IFNAME, name);
    EncPair(fd, n);
    EncShape(fd);
    EncShape(n);
    assert ([] + [IFLA_NET_NS_FD])[0] != IFLA_LINKINFO && ([] + [IFLA_IFNAME])[0] != IFLA_LINKINFO;
    ConformsPair([], fd, n);
  }

  /** Sends the request that moves an interface to the namespace behind a descriptor. */
  method MoveToPidNetns(ifname: seq<Byte>, netns: int) returns (o: Outcome, sent: seq<Byte>)
    ensures var n := NameBytes(ifname);
            && (o.Done? <==> |n| < 65532 && 40 + Align(4 + |n|) <= 1056)
            && (o.Overrun? <==> |n| >= 65532)
            && (o.Done? ==> IsRequest(sent, LinkPolicy, 0x5, MoveTree(netns, n)))
  {
    hide Enc, EncAll, Get32, Header, Zeros, Bytes32;
    sent := [];
    var flags: U16 := NLM_F_REQUEST + NLM_F_ACK;
    var req := new NlReq(RTM_NEWLINK, flags);
    var name := NameBytes(ifname);
    ghost var b0 := req.Body();
    o := req.AddAttr(MAXLEN, IFLA_NET_NS_FD, IntBytes(netns));
    EncShape(Leaf(IFLA_NET_NS_FD, IntBytes(netns)));
    assert o.Done?;
    o := req.AddAttr(MAXLEN, IFLA_IFNAME, name);
    EncShape(Leaf(IFLA_IFNAME, name));
    if !o.Done? { return; }
    MoveShape(netns, name);
    assert req.Body() == b0 + EncAll(MoveTree(netns, name));
    sent := SendRequest(req, LinkPolicy, flags, MoveTree(netns, name));
  }

  lemma NameLeaf(typ: U16, name: seq<Byte>)
    requires |name| == 5
    ensures typ == 3 || typ == 1 ==> Enc(Leaf(typ, name + [0])) == [10, 0, typ, 0] + name + [0, 0, 0]
    ensures typ == 3 || typ == 1 ==> Enc(Leaf(typ, name)) == [9, 0, typ, 0] + name + [0, 0, 0]
  {
    HeaderBytes(10, typ);
    HeaderBytes(9, typ);
    assert Zeros(2) == [0, 0] && Zeros(3) == [0, 0, 0];
    assert [0] + [0, 0] == [0, 0, 0];
  }

  lemma NestBytes(typ: U16, head: seq<Byte>, kids: seq<Attr>)
    ensures Enc(Nest(typ, head, kids)) == Header(4 + |head + EncAll(kids)|, typ) + (head + EncAll(kids))
  {
  }

  lemma {:induction false} OneNest(typ: U16, head: seq<Byte>, kid: Attr)
    requires 4 + |head| + |Enc(kid)| < 256 && typ < 256
    ensures Enc(Nest(typ, head, [kid])) == [4 + |head| + |Enc(kid)|, 0, typ, 0] + head + Enc(kid)
  {
    EncPair(kid, kid);
    NestBytes(typ, head, [kid]);
    HeaderBytes(4 + |head| + |Enc(kid)|, typ);
    hide Enc, EncAll, Header;
    Assoc([4 + |head| + |Enc(kid)|, 0, typ, 0], head, Enc(kid));
  }

  const VETH0: seq<Byte> := [118, 101, 116, 104, 48]
  const VETH1: seq<Byte> := [118, 101, 116, 104, 49]

  lemma VethTreeBytes()
    ensures EncAll(VethTree(VETH0 + [0], VETH1 + [0]))
         == [10, 0, 3, 0] + VETH0 + [0, 0, 0]
            + ([52, 0, 18, 0] + ([9, 0, 1, 0, 118, 101, 116, 104, 0, 0, 0, 0]
               + ([36, 0, 2, 0] + [] + ([32, 0, 1, 0] + Zeros(16) + ([10, 0, 3, 0] + VETH1 + [0, 0, 0])))))
  {
    var name, far := Leaf(IFLA_IFNAME, VETH0 + [0]), Leaf(IFLA_IFNAME, VETH1 + [0]);
    var kind, info := Leaf(IFLA_INFO_KIND, KIND_VETH), InfoTree(VETH1 + [0]);
    NameLeaf(IFLA_IFNAME, VETH0);
    NameLeaf(IFLA_IFNAME, VETH1);
    NameLeaf(IFLA_INFO_KIND, KIND_VETH);
    hide Enc, Zeros, Header;
    OneNest(VETH_INFO_PEER, Zeros(IFINFOMSG), far);
    OneNest(IFLA_INFO_DATA, [], PeerTree(VETH1 + [0]));
    LinkNest(kind, info);
    EncPair(name, VethTree(VETH0 + [0], VETH1 + [0])[1]);
    assert [9, 0, 1, 0] + KIND_VETH + [0, 0, 0] == [9, 0, 1, 0, 118, 101, 116, 104, 0, 0, 0, 0];
  }

  lemma LinkNest(a: Attr, b: Attr)
    requires |Enc(a)| + |Enc(b)| == 48
    ensures Enc(Nest(IFLA_LINKINFO, [], [a, b])) == [52, 0, 18, 0] + (Enc(a) + Enc(b))
  {
    EncPair(a, b);
    NestBytes(IFLA_LINKINFO, [], [a, b]);
    HeaderBytes(52, IFLA_LINKINFO);
    hide Enc, EncAll, Header;
    assert [] + (Enc(a) + Enc(b)) == Enc(a) + Enc(b);
  }

  /** The whole request for veth0 and veth1, byte by byte. */
  method VethRequest() returns (sent: seq<Byte>)
    ensures |sent| == 96
    ensures sent[..17] == [96, 0, 0, 0, 16, 0, 5, 6, 1, 0, 0, 0, 0, 0, 0, 0, 16]
    ensures forall i :: 17 <= i < 32 ==> sent[i] == 0
    ensures sent[32..] ==
            [10, 0, 3, 0] + VETH0 + [0, 0, 0]
            + ([52, 0, 18, 0] + ([9, 0, 1, 0, 118, 101, 116, 104, 0, 0, 0, 0]
               + ([36, 0, 2, 0] + [] + ([32, 0, 1, 0] + Zeros(16) + ([10, 0, 3, 0] + VETH1 + [0, 0, 0])))))
  {
    hide EncAll, Decode, Zeros;
    var o;
    o, sent := CreateVeth(VETH0, VETH1);
    VethTreeBytes();
  }

  /** The whole request that moves veth1 to the namespace behind descriptor 3. */
  method MoveRequest() returns (sent: seq<Byte>)
    ensures |sent| == 52
    ensures sent[..17] == [52, 0, 0, 0, 16, 0, 5, 0, 1, 0, 0, 0, 0, 0, 0, 0, 16]
    ensures forall i :: 17 <= i < 32 ==> sent[i] == 0
    ensures sent[32..] == [8, 0, 28, 0, 3, 0, 0, 0] + ([10, 0, 3, 0] + VETH1 + [0, 0, 0])
  {
    hide EncAll, Enc, Decode, IntBytes;
    var o;
    o, sent := MoveToPidNetns(VETH1, 3);
    MoveShape(3, VETH1 + [0]);
    NameLeaf(IFLA_IFNAME, VETH1);
    DescriptorBytes();
  }

  lemma DescriptorBytes()
    ensures Enc(Leaf(IFLA_NET_NS_FD, IntBytes(3))) == [8, 0, 28, 0, 3, 0, 0, 0]
  {
    HeaderBytes(8, IFLA_NET_NS_FD);
    assert Zeros(0) == [];
  }

  /** Any attribute trees at all: the calls send them exactly when they fit, and a reader
      with any policy they conform to decodes exactly these trees from the bytes sent. */
  method BuildRequest(ghost pol: Policy, flags: U16, attrs: seq<Attr>) returns (o: Outcome, sent: seq<Byte>)
    requires (forall a :: a in attrs ==> Buildable(a)) && ConformsAll(pol, [], attrs)
    ensures o.Done? <==> Fits(PREFIX, |EncAll(attrs)|, MAXLEN)
    ensures o.Done? ==> IsRequest(sent, pol, flags, attrs)
  {
    hide Enc, Get32, Buildable, Conforms, Decode;
    sent := [];
    var req := new NlReq(RTM_NEWLINK, flags);
    o := req.SerializeAll(attrs, MAXLEN);
    if o.Done? {
      assert attrs == [] ==> |EncAll(attrs)| == 0;
      sent := SendRequest(req, pol, flags, attrs);
    }
  }
}
