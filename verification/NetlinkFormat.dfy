/** The attribute format of RFC 3549, section 2.2, on plain byte sequences: an
    encoder, the RTA_OK / RTA_NEXT walk as a decoder, and the proof that they undo
    each other over attribute trees. */
module NetlinkFormat {
  import opened Text

  type Byte = b: int | 0 <= b < 0x100
  type U16 = v: int | 0 <= v < 0x1_0000
  type U32 = v: int | 0 <= v < 0x1_0000_0000

  const RTA_HEADER: nat := 4

  /** RTA_ALIGN and NLMSG_ALIGN: the next multiple of four. */
  function Align(n: nat): (r: nat)
    ensures n <= r < n + 4 && r % 4 == 0
  {
    (n + 3) / 4 * 4
  }

  lemma AlignShift(n: nat)
    ensures Align(n + 4) == Align(n) + 4
    ensures n % 4 == 0 ==> Align(n) == n
  {
  }

  function Bytes16(v: U16): seq<Byte> {
    [v % 0x100, v / 0x100]
  }

  function Get16(m: seq<Byte>, at: nat): U16
    requires at + 2 <= |m|
  {
    var lo: int, hi: int := m[at], m[at + 1];
    lo + 0x100 * hi
  }

  function Bytes32(v: U32): seq<Byte> {
    Bytes16(v % 0x1_0000) + Bytes16(v / 0x1_0000)
  }

  function Get32(m: seq<Byte>, at: nat): U32
    requires at + 4 <= |m|
  {
    Get16(m, at) + 0x1_0000 * Get16(m, at + 2)
  }

  function Zeros(n: nat): (z: seq<Byte>)
    ensures |z| == n && forall i :: 0 <= i < n ==> z[i] == 0
  {
    seq(n, i => 0)
  }

  /** A leaf carries bytes; a nest carries reserved bytes and then attributes. */
  datatype Attr =
    | Leaf(typ: U16, payload: seq<Byte>)
    | Nest(typ: U16, head: seq<Byte>, kids: seq<Attr>)

  function Header(len: nat, typ: U16): (h: seq<Byte>)
    ensures |h| == RTA_HEADER
  {
    Bytes16(len % 0x1_0000) + Bytes16(typ)
  }

  function Enc(a: Attr): (bs: seq<Byte>)
    ensures |bs| >= RTA_HEADER
  {
    match a
    case Leaf(typ, payload) =>
      Header(RTA_HEADER + |payload|, typ) + payload + Zeros(Align(|payload|) - |payload|)
    case Nest(typ, head, kids) =>
      var content := head + EncAll(kids);
      Header(RTA_HEADER + |content|, typ) + content
  }

  function EncAll(f: seq<Attr>): seq<Byte> {
    if f == [] then [] else Enc(f[0]) + EncAll(f[1..])
  }

  /** What the reader knows of the types: None for a plain payload, or the number of
      reserved bytes in front of the attributes nested under this path of types. */
  type Policy = seq<U16> -> Option<nat>

  /** RTA_OK. */
  predicate RtaOk(bs: seq<Byte>) {
    |bs| >= RTA_HEADER && RTA_HEADER <= Get16(bs, 0) <= |bs|
  }

  /** RTA_NEXT: what is left behind the first attribute and its padding. */
  function RtaNext(bs: seq<Byte>): (r: seq<Byte>)
    requires RtaOk(bs)
    ensures |r| < |bs|
  {
    if Align(Get16(bs, 0)) <= |bs| then bs[Align(Get16(bs, 0))..] else []
  }

  function RtaPayload(bs: seq<Byte>): (r: seq<Byte>)
    requires RtaOk(bs)
    ensures |r| < |bs|
  {
    bs[RTA_HEADER..Get16(bs, 0)]
  }

  /** The first attribute is followed by its whole padding, all of it zero. */
  predicate ZeroPadded(bs: seq<Byte>)
    requires RtaOk(bs)
  {
    && Align(Get16(bs, 0)) <= |bs|
    && forall i :: Get16(bs, 0) <= i < Align(Get16(bs, 0)) ==> bs[i] == 0
  }

  /** Walks the attributes of bs. None when something other than attributes is left, when
      reserved bytes are missing or not aligned, or, for a strict reader, when some padding
      is missing or not zero. */
  function Decode(strict: bool, pol: Policy, path: seq<U16>, bs: seq<Byte>): Option<seq<Attr>>
    decreases |bs|
  {
    if bs == [] then Some([])
    else if !RtaOk(bs) || (strict && !ZeroPadded(bs)) then None
    else
      var typ := Get16(bs, 2);
      var rest := Decode(strict, pol, path, RtaNext(bs));
      if rest.None? then None
      else match pol(path + [typ])
        case None => Some([Leaf(typ, RtaPayload(bs))] + rest.value)
        case Some(h) =>
          if |RtaPayload(bs)| < h || h % 4 != 0 then None
          else
            var kids := Decode(strict, pol, path + [typ], RtaPayload(bs)[h..]);
            if kids.None? then None
            else Some([Nest(typ, RtaPayload(bs)[..h], kids.value)] + rest.value)
  }

  /** The tree agrees with what the reader knows, and every length fits its 16 bits. */
  ghost predicate Conforms(pol: Policy, path: seq<U16>, a: Attr)
    decreases a, 0
  {
    match a
    case Leaf(typ, payload) =>
      pol(path + [typ]).None? && RTA_HEADER + |payload| < 0x1_0000
    case Nest(typ, head, kids) =>
      && pol(path + [typ]) == Some(|head|)
      && |head| % 4 == 0
      && RTA_HEADER + |head| + |EncAll(kids)| < 0x1_0000
      && ConformsAll(pol, path + [typ], kids)
  }

  ghost predicate ConformsAll(pol: Policy, path: seq<U16>, f: seq<Attr>)
    decreases f
  {
    f != [] ==> Conforms(pol, path, f[0]) && ConformsAll(pol, path, f[1..])
  }

  lemma Fields(len: nat, typ: U16, rest: seq<Byte>)
    requires len < 0x1_0000
    ensures Get16(Header(len, typ) + rest, 0) == len
    ensures Get16(Header(len, typ) + rest, 2) == typ
  {
  }

  /** Header, payload and zero padding up to the alignment. */
  lemma {:induction false} EncShape(a: Attr)
    requires a.Nest? ==> |a.head| % 4 == 0 && |EncAll(a.kids)| % 4 == 0
    ensures var payload := if a.Leaf? then a.payload else a.head + EncAll(a.kids);
            var len := RTA_HEADER + |payload|;
            && Enc(a) == Header(len, a.typ) + payload + Zeros(Align(len) - len)
            && |Enc(a)| == Align(len)
  {
    hide Header, EncAll, Bytes16;
    match a {
      case Leaf(typ, payload) =>
        AlignShift(|payload|);
      case Nest(typ, head, kids) =>
        AlignShift(RTA_HEADER + |head + EncAll(kids)|);
        assert Zeros(0) == [];
    }
  }

  lemma {:induction false} EncAllAligned(pol: Policy, path: seq<U16>, f: seq<Attr>)
    requires ConformsAll(pol, path, f)
    ensures |EncAll(f)| % 4 == 0
    decreases f
  {
    hide Enc, Zeros, Header, Align;
    if f != [] {
      if f[0].Nest? {
        EncAllAligned(pol, path + [f[0].typ], f[0].kids);
      }
      EncShape(f[0]);
      EncAllAligned(pol, path, f[1..]);
    }
  }

  lemma {:induction false} EncAllConcat(f: seq<Attr>, g: seq<Attr>)
    ensures EncAll(f + g) == EncAll(f) + EncAll(g)
  {
    hide Enc;
    if f == [] {
      assert f + g == g;
    } else {
      EncAllConcat(f[1..], g);
      assert (f + g)[1..] == f[1..] + g;
    }
  }

  /** The bytes of a header: both fields with the low byte first, the length before the
      type. */
  lemma {:induction false} HeaderBytes(len: nat, typ: U16)
    requires len < 0x1_0000
    ensures Header(len, typ) == [len % 256, len / 256, typ % 256, typ / 256]
  {
  }

  /** A reader that is not strict takes any padding, and the last one may be missing. */
  lemma {:induction false} LenientPadding(pol: Policy, path: seq<U16>, typ: U16, payload: seq<Byte>, pad: seq<Byte>)
    requires pol(path + [typ]).None? && RTA_HEADER + |payload| < 0x1_0000
    requires |pad| <= Align(RTA_HEADER + |payload|) - RTA_HEADER - |payload|
    ensures Decode(false, pol, path, Header(RTA_HEADER + |payload|, typ) + payload + pad) == Some([Leaf(typ, payload)])
  {
    var len := RTA_HEADER + |payload|;
    var bs := Header(len, typ) + payload + pad;
    assert bs == Header(len, typ) + (payload + pad);
    Fields(len, typ, payload + pad);
    assert bs[RTA_HEADER..len] == payload;
    assert RtaOk(bs) && RtaPayload(bs) == payload && RtaNext(bs) == [];
    assert [Leaf(typ, payload)] + [] == [Leaf(typ, payload)];
    hide RtaOk, RtaNext, RtaPayload, Get16, Header;
  }

  /** How the walk sees one header with its payload and padding in front of the rest. */
  lemma {:induction false} WalkHeader(len: nat, typ: U16, payload: seq<Byte>, pad: seq<Byte>, rest: seq<Byte>)
    requires len == RTA_HEADER + |payload| < 0x1_0000 && |pad| == Align(len) - len
    ensures var bs := Header(len, typ) + payload + pad + rest;
            && RtaOk(bs) && Get16(bs, 0) == len && Get16(bs, 2) == typ
            && RtaNext(bs) == rest && RtaPayload(bs) == payload
            && bs[len..Align(len)] == pad
  {
    var bs := Header(len, typ) + payload + pad + rest;
    assert bs == Header(len, typ) + (payload + pad + rest);
    Fields(len, typ, payload + pad + rest);
    assert bs[RTA_HEADER..len] == payload;
    assert bs[Align(len)..] == rest;
    assert bs[len..Align(len)] == pad;
  }

  /** How the walk sees one encoded attribute in front of anything else. */
  lemma WalkOne(pol: Policy, path: seq<U16>, a: Attr, rest: seq<Byte>)
    requires Conforms(pol, path, a)
    ensures var bs := Enc(a) + rest;
            && RtaOk(bs)
            && Get16(bs, 2) == a.typ
            && RtaNext(bs) == rest
            && RtaPayload(bs) == (if a.Leaf? then a.payload else a.head + EncAll(a.kids))
            && ZeroPadded(bs)
  {
    var payload := if a.Leaf? then a.payload else a.head + EncAll(a.kids);
    var len := RTA_HEADER + |payload|;
    if a.Nest? {
      EncAllAligned(pol, path + [a.typ], a.kids);
    }
    var pad := Zeros(Align(len) - len);
    assert Enc(a) == Header(len, a.typ) + payload + pad by {
      EncShape(a);
    }
    WalkHeader(len, a.typ, payload, pad, rest);
    var bs := Enc(a) + rest;
    forall i | len <= i < Align(len) ensures bs[i] == 0 {
      assert bs[i] == bs[len..Align(len)][i - len];
    }
  }

  /** Decoding what was encoded gives back the same attributes: types, payload bytes,
      order and nesting. */
  lemma {:induction false} DecodeEnc(strict: bool, pol: Policy, path: seq<U16>, f: seq<Attr>)
    requires ConformsAll(pol, path, f)
    ensures Decode(strict, pol, path, EncAll(f)) == Some(f)
    decreases f
  {
    hide Enc, Zeros, Header, ZeroPadded, RtaOk, RtaNext, RtaPayload, Get16, Align;
    if f != [] {
      var a := f[0];
      WalkOne(pol, path, a, EncAll(f[1..]));
      DecodeEnc(strict, pol, path, f[1..]);
      if a.Nest? {
        DecodeEnc(strict, pol, path + [a.typ], a.kids);
        var payload := a.head + EncAll(a.kids);
        assert payload[|a.head|..] == EncAll(a.kids) && payload[..|a.head|] == a.head;
      }
      assert [a] + f[1..] == f;
    }
  }

  /** The bytes of a padded attribute are its header, its payload and its padding. */
  lemma {:induction false} Reassemble(bs: seq<Byte>)
    requires RtaOk(bs) && ZeroPadded(bs)
    ensures var len := Get16(bs, 0);
            bs == Header(len, Get16(bs, 2)) + RtaPayload(bs) + Zeros(Align(len) - len) + RtaNext(bs)
  {
    var len := Get16(bs, 0);
    HeadBytes(bs);
    hide Header, Get16, Align, Bytes16;
    assert bs[len..Align(len)] == Zeros(Align(len) - len);
    hide Zeros;
    Slices(bs, 0, RTA_HEADER, len);
    Slices(bs, 0, len, Align(len));
    Slices(bs, 0, Align(len), |bs|);
    assert bs[0..|bs|] == bs && bs[0..RTA_HEADER] == bs[..RTA_HEADER] && bs[Align(len)..|bs|] == bs[Align(len)..];
  }

  lemma {:induction false} HeadBytes(bs: seq<Byte>)
    requires |bs| >= RTA_HEADER
    ensures bs[..RTA_HEADER] == Header(Get16(bs, 0), Get16(bs, 2))
  {
  }

  ghost function InnerBytes(pol: Policy, path: seq<U16>, bs: seq<Byte>): seq<Byte>
    requires RtaOk(bs) && pol(path + [Get16(bs, 2)]).Some?
    requires pol(path + [Get16(bs, 2)]).value <= |RtaPayload(bs)|
  {
    RtaPayload(bs)[pol(path + [Get16(bs, 2)]).value..]
  }

  /** What one successful step of the strict walk produced. */
  lemma {:induction false} DecodeHead(pol: Policy, path: seq<U16>, bs: seq<Byte>)
    requires bs != [] && Decode(true, pol, path, bs).Some?
    ensures RtaOk(bs) && ZeroPadded(bs) && Decode(true, pol, path, RtaNext(bs)).Some?
    ensures var f := Decode(true, pol, path, bs).value;
            var typ := Get16(bs, 2);
            && f != []
            && f[1..] == Decode(true, pol, path, RtaNext(bs)).value
            && f[0].typ == typ
            && (f[0].Leaf? ==> pol(path + [typ]).None? && f[0].payload == RtaPayload(bs))
            && (f[0].Nest? ==>
                  && pol(path + [typ]) == Some(|f[0].head|)
                  && |f[0].head| % 4 == 0
                  && |f[0].head| <= |RtaPayload(bs)|
                  && f[0].head + InnerBytes(pol, path, bs) == RtaPayload(bs)
                  && Decode(true, pol, path + [typ], InnerBytes(pol, path, bs)) == Some(f[0].kids))
  {
    hide ZeroPadded, RtaOk, RtaNext, Get16, Align;
  }

  /** Encoding what a strict reader decoded gives back the same bytes. */
  lemma {:induction false} EncDecode(pol: Policy, path: seq<U16>, bs: seq<Byte>)
    requires Decode(true, pol, path, bs).Some?
    ensures EncAll(Decode(true, pol, path, bs).value) == bs
    decreases |bs|, 0
  {
    if bs != [] {
      DecodeHead(pol, path, bs);
      var f := Decode(true, pol, path, bs).value;
      EncDecode(pol, path, RtaNext(bs));
      if f[0].Nest? {
        EncDecode(pol, path + [f[0].typ], InnerBytes(pol, path, bs));
        DecodeConforms(pol, path + [f[0].typ], InnerBytes(pol, path, bs));
        EncAllAligned(pol, path + [f[0].typ], f[0].kids);
      }
      EncDecodeStep(bs, f);
    }
  }

  /** What a strict reader decoded agrees with what it knows. */
  lemma {:induction false} DecodeConforms(pol: Policy, path: seq<U16>, bs: seq<Byte>)
    requires Decode(true, pol, path, bs).Some?
    ensures ConformsAll(pol, path, Decode(true, pol, path, bs).value)
    decreases |bs|, 1
  {
    if bs != [] {
      DecodeHead(pol, path, bs);
      var f := Decode(true, pol, path, bs).value;
      DecodeConforms(pol, path, RtaNext(bs));
      if f[0].Nest? {
        EncDecode(pol, path + [f[0].typ], InnerBytes(pol, path, bs));
        DecodeConforms(pol, path + [f[0].typ], InnerBytes(pol, path, bs));
      }
    }
  }

  lemma EncDecodeStep(bs: seq<Byte>, f: seq<Attr>)
    requires RtaOk(bs) && ZeroPadded(bs)
    requires f != [] && f[0].typ == Get16(bs, 2) && EncAll(f[1..]) == RtaNext(bs)
    requires f[0].Leaf? ==> f[0].payload == RtaPayload(bs)
    requires f[0].Nest? ==> f[0].head + EncAll(f[0].kids) == RtaPayload(bs)
    requires f[0].Nest? ==> |f[0].head| % 4 == 0 && |EncAll(f[0].kids)| % 4 == 0
    ensures EncAll(f) == bs
  {
    hide Enc, Header, Zeros;
    Reassemble(bs);
    EncShape(f[0]);
  }

  /** The two directions as one statement: encoder and strict decoder are inverse. */
  lemma {:induction false} DecodeIffEnc(pol: Policy, path: seq<U16>, bs: seq<Byte>, f: seq<Attr>)
    ensures Decode(true, pol, path, bs) == Some(f) <==> bs == EncAll(f) && ConformsAll(pol, path, f)
  {
    hide EncAll, ConformsAll;
    if Decode(true, pol, path, bs) == Some(f) {
      EncDecode(pol, path, bs);
      DecodeConforms(pol, path, bs);
    }
    if bs == EncAll(f) && ConformsAll(pol, path, f) {
      DecodeEnc(true, pol, path, f);
    }
  }
}
