/** Login tickets: a tree of typed items written as nested (id, length, payload) records.
    The 16-bit length arithmetic of the writer wraps, as it does in a release build; the
    theorems say exactly for which trees that is harmless. */
module Ticket {
  import opened Prelude

  type u16 = x: int | 0 <= x < 0x1_0000
  type u32 = x: int | 0 <= x < 0x1_0000_0000
  type u64 = x: int | 0 <= x < 0x1_0000_0000_0000_0000

  datatype TicketData =
    | Empty
    | U32(value32: u32)
    | U64(value64: u64)
    | Time(time: u64)
    | Binary(binary: seq<byte>)
    | BString(text: seq<byte>)
    | Blob(blobId: byte, items: seq<TicketData>)

  function Id(t: TicketData): u16 {
    match t
    case Empty => 0
    case U32(_) => 1
    case U64(_) => 2
    case BString(_) => 4
    case Time(_) => 7
    case Binary(_) => 8
    case Blob(id, _) => 0x3000 + id
  }

  /** `TicketData::len`, in 16-bit wrapping arithmetic. */
  function Len(t: TicketData): u16 {
    match t
    case Empty => 0
    case U32(_) => 4
    case U64(_) => 8
    case BString(b) => |b| % 0x1_0000
    case Time(_) => 8
    case Binary(b) => |b| % 0x1_0000
    case Blob(_, items) => LenSum(items)
  }

  function LenSum(items: seq<TicketData>): u16 {
    if items == [] then 0 else (Len(items[0]) + 4 + LenSum(items[1..])) % 0x1_0000
  }

  // ----- Big-endian numbers -----

  /** `to_be_bytes` of a number of `n` bytes. */
  function ToBytes(v: nat, n: nat): (r: seq<byte>)
    ensures |r| == n
  {
    if n == 0 then [] else ToBytes(v / 256, n - 1) + [v % 256]
  }

  function FromBytes(b: seq<byte>): nat {
    if b == [] then 0 else FromBytes(b[..|b| - 1]) * 256 + b[|b| - 1]
  }

  function Pow256(n: nat): nat {
    if n == 0 then 1 else 256 * Pow256(n - 1)
  }

  lemma {:induction false} FromToBytes(v: nat, n: nat)
    requires v < Pow256(n)
    ensures FromBytes(ToBytes(v, n)) == v
  {
    if n != 0 {
      FromToBytes(v / 256, n - 1);
      var r := ToBytes(v, n);
      assert r[..n - 1] == ToBytes(v / 256, n - 1);
    }
  }

  lemma {:induction false} ToFromBytes(b: seq<byte>)
    ensures FromBytes(b) < Pow256(|b|) && ToBytes(FromBytes(b), |b|) == b
  {
    if b != [] {
      ToFromBytes(b[..|b| - 1]);
      assert b == b[..|b| - 1] + [b[|b| - 1]];
    }
  }

  lemma {:induction false} PowValues()
    ensures Pow256(2) == 0x1_0000 && Pow256(4) == 0x1_0000_0000 && Pow256(8) == 0x1_0000_0000_0000_0000
  {
    assert Pow256(4) == 256 * (256 * Pow256(2));
    assert Pow256(8) == 256 * (256 * (256 * (256 * Pow256(4))));
  }

  // ----- What the writer emits -----

  function Payload(t: TicketData): seq<byte>
    decreases t, 0
  {
    match t
    case Empty => []
    case U32(v) => ToBytes(v, 4)
    case U64(v) => ToBytes(v, 8)
    case BString(b) => b
    case Time(v) => ToBytes(v, 8)
    case Binary(b) => b
    case Blob(_, items) => EncodeAll(items)
  }

  function Encode(t: TicketData): seq<byte>
    decreases t, 1
  {
    ToBytes(Id(t), 2) + ToBytes(Len(t), 2) + Payload(t)
  }

  function EncodeAll(items: seq<TicketData>): seq<byte>
    decreases items
  {
    if items == [] then [] else Encode(items[0]) + EncodeAll(items[1..])
  }

  /** A growing byte vector. */
  class Buffer {
    var data: seq<byte>

    constructor ()
      ensures data == []
    {
      data := [];
    }

    method Extend(bytes: seq<byte>)
      modifies this
      ensures data == old(data) + bytes
    {
      data := data + bytes;
    }
  }

  /** `TicketData::write`: appends the encoding and nothing else. */
  method Write(t: TicketData, dest: Buffer)
    modifies dest
    ensures dest.data == old(dest.data) + Encode(t)
    decreases t, 1
  {
    ghost var start := dest.data;
    dest.Extend(ToBytes(Id(t), 2));
    dest.Extend(ToBytes(Len(t), 2));
    WritePayload(t, dest);
    assert dest.data == start + (ToBytes(Id(t), 2) + ToBytes(Len(t), 2) + Payload(t));
  }

  method WritePayload(t: TicketData, dest: Buffer)
    modifies dest
    ensures dest.data == old(dest.data) + Payload(t)
    decreases t, 0
  {
    match t
    case Empty =>
    case U32(v) => dest.Extend(ToBytes(v, 4));
    case U64(v) => dest.Extend(ToBytes(v, 8));
    case BString(b) => dest.Extend(b);
    case Time(v) => dest.Extend(ToBytes(v, 8));
    case Binary(b) => dest.Extend(b);
    case Blob(_, items) => WriteAll(items, dest);
  }

  method WriteAll(items: seq<TicketData>, dest: Buffer)
    modifies dest
    ensures dest.data == old(dest.data) + EncodeAll(items)
    decreases items
  {
    ghost var head := dest.data;
    for i := 0 to |items|
      invariant dest.data == head + EncodeAll(items[..i])
    {
      Write(items[i], dest);
      EncodeAllSnoc(items[..i], items[i]);
      assert items[..i + 1] == items[..i] + [items[i]];
    }
    assert items[..|items|] == items;
  }

  lemma {:induction false} EncodeAllSnoc(items: seq<TicketData>, t: TicketData)
    ensures EncodeAll(items + [t]) == EncodeAll(items) + Encode(t)
  {
    if items == [] {
      assert [] + [t] == [t] && [t][1..] == [];
    } else {
      EncodeAllSnoc(items[1..], t);
      assert (items + [t])[1..] == items[1..] + [t] && (items + [t])[0] == items[0];
      var e, r := Encode(items[0]), EncodeAll(items[1..]);
      assert e + (r + Encode(t)) == (e + r) + Encode(t);
    }
  }

  // ----- The real sizes -----

  /** The length of the payload as an unbounded number. */
  function Size(t: TicketData): nat { |Payload(t)| }

  lemma {:induction false} LenIsSizeModulo(t: TicketData)
    ensures Len(t) == Size(t) % 0x1_0000 && |Encode(t)| == Size(t) + 4
    decreases t, 0
  {
    if t.Blob? {
      LenSumIsSizeModulo(t.items);
    }
  }

  lemma {:induction false} LenSumIsSizeModulo(items: seq<TicketData>)
    ensures LenSum(items) == |EncodeAll(items)| % 0x1_0000
    decreases items
  {
    if items != [] {
      LenIsSizeModulo(items[0]);
      LenSumIsSizeModulo(items[1..]);
      AddModulo(Size(items[0]), |EncodeAll(items[1..])|);
    }
  }

  lemma {:induction false} AddModulo(a: nat, b: nat)
    ensures (a % 0x1_0000 + 4 + b % 0x1_0000) % 0x1_0000 == (a + 4 + b) % 0x1_0000
  {
  }

  /** The length field is honest exactly for payloads below 64 KiB. */
  lemma {:induction false} WritesLenPlusFourIff(t: TicketData)
    ensures |Encode(t)| == Len(t) + 4 <==> Size(t) < 0x1_0000
  {
    LenIsSizeModulo(t);
  }

  /** So a binary of exactly 64 KiB is written in full under a length of zero. */
  lemma {:induction false} FullBinaryLooksEmpty(data: seq<byte>)
    requires |data| == 0x1_0000
    ensures Len(Binary(data)) == 0 && |Encode(Binary(data))| == 0x1_0004
  {
    LenIsSizeModulo(Binary(data));
  }

  // ----- Reading a ticket back -----

  datatype Parsed = Failed | Got(item: TicketData, rest: seq<byte>)

  /** The item a header announces, given its payload. */
  function Decode(id: nat, payload: seq<byte>): Option<TicketData>
    decreases |payload|, 2
  {
    if id == 0 && |payload| == 0 then Some(Empty)
    else if id == 1 && |payload| == 4 then
      (ToFromBytes(payload); PowValues(); Some(U32(FromBytes(payload))))
    else if id == 2 && |payload| == 8 then
      (ToFromBytes(payload); PowValues(); Some(U64(FromBytes(payload))))
    else if id == 4 then Some(BString(payload))
    else if id == 7 && |payload| == 8 then
      (ToFromBytes(payload); PowValues(); Some(Time(FromBytes(payload))))
    else if id == 8 then Some(Binary(payload))
    else if 0x3000 <= id < 0x3100 then
      match ParseAll(payload)
      case None => None
      case Some(items) => Some(Blob(id - 0x3000, items))
    else None
  }

  /** Read one record off the front. */
  function Parse(b: seq<byte>): (r: Parsed)
    ensures r.Got? ==> |r.rest| + 4 <= |b|
    decreases |b|, 0
  {
    if |b| < 4 then Failed else
      var n := FromBytes(b[2..4]);
      if |b| - 4 < n then Failed else
        match Decode(FromBytes(b[..2]), b[4..4 + n])
        case None => Failed
        case Some(t) => Got(t, b[4 + n..])
  }

  function ParseAll(b: seq<byte>): Option<seq<TicketData>>
    decreases |b|, 1
  {
    if b == [] then Some([]) else
      match Parse(b)
      case Failed => None
      case Got(t, rest) =>
        match ParseAll(rest)
        case None => None
        case Some(items) => Some([t] + items)
  }

  /** A written record is read back, whatever follows it. */
  lemma {:induction false} ParseEncode(t: TicketData, rest: seq<byte>)
    requires Size(t) < 0x1_0000
    ensures Parse(Encode(t) + rest) == Got(t, rest)
    decreases t, 1
  {
    LenIsSizeModulo(t);
    var b := Encode(t) + rest;
    PowValues();
    FromToBytes(Id(t), 2);
    FromToBytes(Len(t), 2);
    assert b[..2] == ToBytes(Id(t), 2) && b[2..4] == ToBytes(Len(t), 2);
    assert b[4..4 + Size(t)] == Payload(t) && b[4 + Size(t)..] == rest;
    DecodePayload(t);
  }

  lemma {:induction false} DecodePayload(t: TicketData)
    requires Size(t) < 0x1_0000
    ensures Decode(Id(t), Payload(t)) == Some(t)
    decreases t, 0
  {
    PowValues();
    match t
    case U32(v) => FromToBytes(v, 4);
    case U64(v) => FromToBytes(v, 8);
    case Time(v) => FromToBytes(v, 8);
    case Blob(_, items) => ParseEncodeAll(items);
    case _ =>
  }

  lemma {:induction false} ParseEncodeAll(items: seq<TicketData>)
    requires |EncodeAll(items)| < 0x1_0000
    ensures ParseAll(EncodeAll(items)) == Some(items)
    decreases items
  {
    if items != [] {
      LenIsSizeModulo(items[0]);
      ParseEncode(items[0], EncodeAll(items[1..]));
      ParseEncodeAll(items[1..]);
      assert items == [items[0]] + items[1..];
    }
  }

  /** Only written records are accepted: whatever parses is the encoding of what was read. */
  lemma {:induction false} EncodeParse(b: seq<byte>)
    requires Parse(b).Got?
    ensures Size(Parse(b).item) < 0x1_0000 && b == Encode(Parse(b).item) + Parse(b).rest
    decreases |b|, 0
  {
    var n := FromBytes(b[2..4]);
    var t := Parse(b).item;
    assert Id(t) == FromBytes(b[..2]) && Payload(t) == b[4..4 + n] by {
      PayloadDecode(FromBytes(b[..2]), b[4..4 + n]);
    }
    assert ToBytes(Id(t), 2) == b[..2] by { ToFromBytes(b[..2]); }
    assert ToBytes(n, 2) == b[2..4] && n < 0x1_0000 by { ToFromBytes(b[2..4]); PowValues(); }
    assert Len(t) == n by { LenIsSizeModulo(t); }
    SplitRecord(b, n);
  }

  lemma {:induction false} SplitRecord(b: seq<byte>, n: nat)
    requires 4 + n <= |b|
    ensures b == (b[..2] + b[2..4] + b[4..4 + n]) + b[4 + n..]
  {
  }

  lemma {:induction false} PayloadDecode(id: nat, payload: seq<byte>)
    requires Decode(id, payload).Some?
    ensures Id(Decode(id, payload).value) == id && Payload(Decode(id, payload).value) == payload
    decreases |payload|, 2
  {
    ToFromBytes(payload);
    PowValues();
    if 0x3000 <= id < 0x3100 {
      EncodeParseAll(payload);
    }
  }

  lemma {:induction false} EncodeParseAll(b: seq<byte>)
    requires ParseAll(b).Some?
    ensures EncodeAll(ParseAll(b).value) == b
    decreases |b|, 1
  {
    if b != [] {
      EncodeParse(b);
      EncodeParseAll(Parse(b).rest);
      var items := ParseAll(b).value;
      assert items[1..] == ParseAll(Parse(b).rest).value;
    }
  }

  // ----- The whole ticket -----

  const VERSION: u32 := 0x21010000

  /** Sum of `len() + 4`, each taken in 16 bits, before the 32-bit total wraps. */
  function WrappedTotal(data: seq<TicketData>): nat {
    if data == [] then 0 else (Len(data[0]) + 4) % 0x1_0000 + WrappedTotal(data[1..])
  }

  function BlobBytes(data: seq<TicketData>): seq<byte> {
    ToBytes(VERSION, 4) + ToBytes(WrappedTotal(data) % 0x1_0000_0000, 4) + EncodeAll(data)
  }

  /** `Ticket::generate_blob`. */
  method GenerateBlob(data: seq<TicketData>) returns (blob: seq<byte>)
    ensures blob == BlobBytes(data)
  {
    var dest := new Buffer();
    dest.Extend(ToBytes(VERSION, 4));
    dest.Extend(ToBytes(WrappedTotal(data) % 0x1_0000_0000, 4));
    WriteAll(data, dest);
    blob := dest.data;
  }

  /** Every top-level item leaves room for its own header in 16 bits. */
  predicate Fits(data: seq<TicketData>) {
    forall i :: 0 <= i < |data| ==> Size(data[i]) + 4 < 0x1_0000
  }

  lemma {:induction false} TotalIff(data: seq<TicketData>)
    ensures WrappedTotal(data) <= |EncodeAll(data)|
    ensures WrappedTotal(data) == |EncodeAll(data)| <==> Fits(data)
  {
    if data != [] {
      LenIsSizeModulo(data[0]);
      TotalIff(data[1..]);
      assert Fits(data) <==> Size(data[0]) + 4 < 0x1_0000 && Fits(data[1..]) by {
        assert forall i :: 0 <= i < |data[1..]| ==> data[1..][i] == data[i + 1];
      }
      WrapIff(Size(data[0]));
    }
  }

  lemma {:induction false} WrapIff(size: nat)
    ensures var w := (size % 0x1_0000 + 4) % 0x1_0000;
            w <= size + 4 && (w == size + 4 <==> size + 4 < 0x1_0000)
  {
  }

  /** The size field of a ticket counts the bytes after its 8-byte header exactly when every
      item fits and the ticket is shorter than 4 GiB. */
  lemma {:induction false} SizeFieldIff(data: seq<TicketData>)
    ensures |BlobBytes(data)| == 8 + |EncodeAll(data)|
    ensures FromBytes(BlobBytes(data)[4..8]) == |BlobBytes(data)| - 8
            <==> Fits(data) && |EncodeAll(data)| < 0x1_0000_0000
  {
    var b, n := BlobBytes(data), WrappedTotal(data) % 0x1_0000_0000;
    PowValues();
    FromToBytes(n, 4);
    assert b[4..8] == ToBytes(n, 4);
    TotalIff(data);
    TotalWrapIff(WrappedTotal(data), |EncodeAll(data)|);
  }

  lemma {:induction false} TotalWrapIff(wrapped: nat, total: nat)
    requires wrapped <= total
    ensures wrapped % 0x1_0000_0000 == total <==> wrapped == total && total < 0x1_0000_0000
  {
  }

  /** A reader that checks version and size and then reads records to the end. */
  function ReadTicket(b: seq<byte>): Option<seq<TicketData>> {
    if |b| < 8 || FromBytes(b[..4]) != VERSION || FromBytes(b[4..8]) != |b| - 8 then None
    else ParseAll(b[8..])
  }

  lemma {:induction false} ParseEncodeFitting(data: seq<TicketData>)
    requires Fits(data)
    ensures ParseAll(EncodeAll(data)) == Some(data)
  {
    if data != [] {
      LenIsSizeModulo(data[0]);
      ParseEncode(data[0], EncodeAll(data[1..]));
      assert Fits(data[1..]) by {
        assert forall i :: 0 <= i < |data[1..]| ==> data[1..][i] == data[i + 1];
      }
      ParseEncodeFitting(data[1..]);
      assert data == [data[0]] + data[1..];
    }
  }

  /** Round trip of whole tickets, at any nesting depth. */
  lemma {:induction false} ReadGeneratedTicket(data: seq<TicketData>)
    requires Fits(data) && |EncodeAll(data)| < 0x1_0000_0000
    ensures ReadTicket(BlobBytes(data)) == Some(data)
  {
    var b := BlobBytes(data);
    SizeFieldIff(data);
    PowValues();
    FromToBytes(VERSION, 4);
    assert b[..4] == ToBytes(VERSION, 4) && b[8..] == EncodeAll(data);
    ParseEncodeFitting(data);
  }

  /** So two different tickets never share their bytes. */
  lemma {:induction false} TicketsAreInjective(a: seq<TicketData>, b: seq<TicketData>)
    requires Fits(a) && |EncodeAll(a)| < 0x1_0000_0000 && Fits(b) && |EncodeAll(b)| < 0x1_0000_0000
    requires BlobBytes(a) == BlobBytes(b)
    ensures a == b
  {
    ReadGeneratedTicket(a);
    ReadGeneratedTicket(b);
  }
}
