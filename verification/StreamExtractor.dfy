/** The packet cursor: little-endian integers, NUL-terminated strings, length-prefixed
    blobs and communication ids are read off a byte vector, and a sticky error flag
    records anything malformed.

    The main theorem is exact: a sequence of reads ends without error if and only if the
    bytes under the cursor are the encoding of some list of well-formed values, and then
    the values read are that list. */
module StreamExtractor {
  import opened Prelude

  /** What a command handler asks for next. */
  datatype Kind = Int(size: nat) | Str(mayBeEmpty: bool) | Raw | ComId

  datatype Value = Num(n: nat) | Bytes(b: seq<byte>)

  datatype Cursor = Cursor(i: nat, error: bool)

  const COM_ID_SIZE: nat := 12

  // ----- Values and their encodings -----

  function FromLe(b: seq<byte>): nat {
    if b == [] then 0 else b[0] + 256 * FromLe(b[1..])
  }

  function ToLe(n: nat, size: nat): (r: seq<byte>)
    ensures |r| == size
  {
    if size == 0 then [] else [n % 256] + ToLe(n / 256, size - 1)
  }

  function Pow256(n: nat): nat { if n == 0 then 1 else 256 * Pow256(n - 1) }

  lemma {:induction false} FromToLe(n: nat, size: nat)
    requires n < Pow256(size)
    ensures FromLe(ToLe(n, size)) == n
  {
    if size != 0 {
      FromToLe(n / 256, size - 1);
      assert ToLe(n, size)[1..] == ToLe(n / 256, size - 1);
    }
  }

  lemma {:induction false} ToFromLe(b: seq<byte>)
    ensures FromLe(b) < Pow256(|b|) && ToLe(FromLe(b), |b|) == b
  {
    if b != [] {
      ToFromLe(b[1..]);
      DivMod256(b[0], FromLe(b[1..]));
      assert b == [b[0]] + b[1..];
    }
  }

  lemma {:induction false} DivMod256(low: byte, high: nat)
    ensures (low + 256 * high) % 256 == low && (low + 256 * high) / 256 == high
  {
  }

  predicate Upper(c: byte) { 'A' as int <= c <= 'Z' as int }
  predicate Digit(c: byte) { '0' as int <= c <= '9' as int }

  /** Nine capitals or digits, an underscore, two digits. */
  predicate WellFormedComId(c: seq<byte>) {
    && |c| == COM_ID_SIZE
    && (forall j :: 0 <= j < 9 ==> Upper(c[j]) || Digit(c[j]))
    && c[9] == '_' as int
    && Digit(c[10]) && Digit(c[11])
  }

  predicate WellFormed(k: Kind, v: Value) {
    match k
    case Int(size) => v.Num? && v.n < Pow256(size)
    case Str(mayBeEmpty) => v.Bytes? && 0 !in v.b && (mayBeEmpty || v.b != [])
    case Raw => v.Bytes? && |v.b| < Pow256(4)
    case ComId => v.Bytes? && WellFormedComId(v.b)
  }

  function Encode(k: Kind, v: Value): seq<byte>
    requires WellFormed(k, v)
  {
    match k
    case Int(size) => ToLe(v.n, size)
    case Str(_) => v.b + [0]
    case Raw => ToLe(|v.b|, 4) + v.b
    case ComId => v.b
  }

  /** `b` stands in `vec` from index `i` on. */
  predicate Holds(vec: seq<byte>, i: nat, b: seq<byte>) {
    i + |b| <= |vec| && vec[i..i + |b|] == b
  }

  lemma {:induction false} HoldsConcat(vec: seq<byte>, i: nat, a: seq<byte>, b: seq<byte>)
    ensures Holds(vec, i, a + b) <==> Holds(vec, i, a) && Holds(vec, i + |a|, b)
  {
    if i + |a| + |b| <= |vec| {
      var w := vec[i..i + |a| + |b|];
      assert w[..|a|] == vec[i..i + |a|] && w[|a|..] == vec[i + |a|..i + |a| + |b|];
      assert w == w[..|a|] + w[|a|..];
      assert (a + b)[..|a|] == a && (a + b)[|a|..] == b;
    }
  }

  // ----- One read -----

  /** The first NUL at or after `i`, or the end. */
  function Terminator(vec: seq<byte>, i: nat): (e: nat)
    ensures i <= e && (i <= |vec| ==> e <= |vec|) && (i > |vec| ==> e == i)
    ensures forall j :: i <= j < e && j < |vec| ==> vec[j] != 0
    ensures e < |vec| ==> vec[e] == 0
    decreases |vec| - i
  {
    if i >= |vec| || vec[i] == 0 then i else Terminator(vec, i + 1)
  }

  function ReadInt(vec: seq<byte>, c: Cursor, size: nat): (nat, Cursor) {
    if c.i + size > |vec| then (0, c.(error := true))
    else (FromLe(vec[c.i..c.i + size]), c.(i := c.i + size))
  }

  function ReadString(vec: seq<byte>, c: Cursor, mayBeEmpty: bool): (seq<byte>, Cursor) {
    var e := Terminator(vec, c.i);
    var s := if c.i <= |vec| then vec[c.i..e] else [];
    (s, Cursor(e + 1, c.error || e + 1 > |vec| || (!mayBeEmpty && s == [])))
  }

  function ReadRaw(vec: seq<byte>, c: Cursor): (seq<byte>, Cursor) {
    var (n, c1) := ReadInt(vec, c, 4);
    if n + c1.i > |vec| then ([], c1.(error := true))
    else (vec[c1.i..c1.i + n], c1.(i := c1.i + n))
  }

  const ZeroComId: seq<byte> := [0, 0, 0, 0, 0, 0, 0, 0, 0, 0, 0, 0]

  function ReadComId(vec: seq<byte>, c: Cursor): (seq<byte>, Cursor) {
    if c.i + COM_ID_SIZE > |vec| then (ZeroComId, c.(error := true))
    else
      var id := vec[c.i..c.i + COM_ID_SIZE];
      (id, Cursor(c.i + COM_ID_SIZE, c.error || !WellFormedComId(id)))
  }

  function Read(vec: seq<byte>, c: Cursor, k: Kind): (Value, Cursor) {
    match k
    case Int(size) => var (n, c') := ReadInt(vec, c, size); (Num(n), c')
    case Str(mayBeEmpty) => var (s, c') := ReadString(vec, c, mayBeEmpty); (Bytes(s), c')
    case Raw => var (b, c') := ReadRaw(vec, c); (Bytes(b), c')
    case ComId => var (b, c') := ReadComId(vec, c); (Bytes(b), c')
  }

  /** The flag never clears and the cursor never moves back. */
  lemma {:induction false} ReadMonotone(vec: seq<byte>, c: Cursor, k: Kind)
    ensures c.error ==> Read(vec, c, k).1.error
    ensures c.i <= Read(vec, c, k).1.i
  {
  }

  /** A read without error consumed exactly the encoding of the value it returned. */
  lemma {:induction false} ReadSound(vec: seq<byte>, c: Cursor, k: Kind)
    requires c.i <= |vec| && !Read(vec, c, k).1.error
    ensures var (v, c') := Read(vec, c, k);
            WellFormed(k, v) && Holds(vec, c.i, Encode(k, v)) && c'.i == c.i + |Encode(k, v)|
  {
    match k
    case Int(size) => ToFromLe(vec[c.i..c.i + size]);
    case Str(mayBeEmpty) => StringSound(vec, c, mayBeEmpty);
    case Raw =>
      var size := vec[c.i..c.i + 4];
      ToFromLe(size);
      HoldsConcat(vec, c.i, size, vec[c.i + 4..c.i + 4 + FromLe(size)]);
    case ComId =>
  }

  lemma {:induction false} StringSound(vec: seq<byte>, c: Cursor, mayBeEmpty: bool)
    requires c.i <= |vec| && !ReadString(vec, c, mayBeEmpty).1.error
    ensures var (s, c') := ReadString(vec, c, mayBeEmpty);
            Holds(vec, c.i, s + [0]) && 0 !in s && (mayBeEmpty || s != []) && c'.i == c.i + |s| + 1
  {
    var e := Terminator(vec, c.i);
    assert forall j :: 0 <= j < e - c.i ==> vec[c.i..e][j] == vec[c.i + j];
  }

  /** The encoding of a well-formed value is read back as that value. */
  lemma {:induction false} ReadComplete(vec: seq<byte>, c: Cursor, k: Kind, v: Value)
    requires WellFormed(k, v) && Holds(vec, c.i, Encode(k, v))
    ensures Read(vec, c, k) == (v, c.(i := c.i + |Encode(k, v)|))
  {
    match k
    case Int(size) => FromToLe(v.n, size);
    case Str(_) => StringEnds(vec, c.i, v.b);
    case Raw => RawComplete(vec, c, v.b);
    case ComId =>
  }

  lemma {:induction false} RawComplete(vec: seq<byte>, c: Cursor, b: seq<byte>)
    requires |b| < Pow256(4) && Holds(vec, c.i, ToLe(|b|, 4) + b)
    ensures ReadRaw(vec, c) == (b, c.(i := c.i + 4 + |b|))
  {
    PrefixComplete(vec, c, b, 4);
  }

  lemma {:induction false} PrefixComplete(vec: seq<byte>, c: Cursor, b: seq<byte>, size: nat)
    requires |b| < Pow256(size) && Holds(vec, c.i, ToLe(|b|, size) + b)
    ensures ReadInt(vec, c, size) == (|b|, c.(i := c.i + size)) && Holds(vec, c.i + size, b)
  {
    FromToLe(|b|, size);
    HoldsConcat(vec, c.i, ToLe(|b|, size), b);
  }

  lemma {:induction false} StringEnds(vec: seq<byte>, i: nat, s: seq<byte>)
    requires 0 !in s && Holds(vec, i, s + [0])
    ensures Terminator(vec, i) == i + |s| && vec[i..i + |s|] == s
  {
    HoldsConcat(vec, i, s, [0]);
    assert vec[i + |s|] == vec[i + |s|..i + |s| + 1][0] == 0;
    assert forall j :: i <= j < i + |s| ==> vec[j] == vec[i..i + |s|][j - i];
  }

  // ----- Whole packets -----

  function ReadAll(vec: seq<byte>, c: Cursor, kinds: seq<Kind>): (seq<Value>, Cursor)
    decreases |kinds|
  {
    if kinds == [] then ([], c)
    else
      var (v, c1) := Read(vec, c, kinds[0]);
      var (vs, c2) := ReadAll(vec, c1, kinds[1..]);
      ([v] + vs, c2)
  }

  predicate AllWellFormed(kinds: seq<Kind>, vs: seq<Value>)
    decreases |kinds|
  {
    |kinds| == |vs| && (kinds != [] ==> WellFormed(kinds[0], vs[0]) && AllWellFormed(kinds[1..], vs[1..]))
  }

  function EncodeAll(kinds: seq<Kind>, vs: seq<Value>): seq<byte>
    requires AllWellFormed(kinds, vs)
    decreases |kinds|
  {
    if kinds == [] then [] else Encode(kinds[0], vs[0]) + EncodeAll(kinds[1..], vs[1..])
  }

  lemma {:induction false} ErrorSticks(vec: seq<byte>, c: Cursor, kinds: seq<Kind>)
    ensures c.error ==> ReadAll(vec, c, kinds).1.error
    ensures c.i <= ReadAll(vec, c, kinds).1.i
    decreases |kinds|
  {
    if kinds != [] {
      ReadMonotone(vec, c, kinds[0]);
      ErrorSticks(vec, Read(vec, c, kinds[0]).1, kinds[1..]);
    }
  }

  lemma {:induction false} ReadAllSound(vec: seq<byte>, c: Cursor, kinds: seq<Kind>)
    requires c.i <= |vec| && !ReadAll(vec, c, kinds).1.error
    ensures var (vs, c') := ReadAll(vec, c, kinds);
            && AllWellFormed(kinds, vs) && Holds(vec, c.i, EncodeAll(kinds, vs))
            && c'.i == c.i + |EncodeAll(kinds, vs)|
    decreases |kinds|
  {
    if kinds != [] {
      var (v, c1) := Read(vec, c, kinds[0]);
      var rest := ReadAll(vec, c1, kinds[1..]).0;
      ErrorSticks(vec, c1, kinds[1..]);
      ReadSound(vec, c, kinds[0]);
      ReadAllSound(vec, c1, kinds[1..]);
      assert ([v] + rest)[1..] == rest;
      HoldsConcat(vec, c.i, Encode(kinds[0], v), EncodeAll(kinds[1..], rest));
    }
  }

  lemma {:induction false} FrontComplete(vec: seq<byte>, c: Cursor, kinds: seq<Kind>, vs: seq<Value>)
    requires kinds != [] && AllWellFormed(kinds, vs) && Holds(vec, c.i, EncodeAll(kinds, vs))
    ensures var c1 := c.(i := c.i + |Encode(kinds[0], vs[0])|);
            var (rest, c2) := ReadAll(vec, c1, kinds[1..]);
            && ReadAll(vec, c, kinds) == ([vs[0]] + rest, c2)
            && Holds(vec, c1.i, EncodeAll(kinds[1..], vs[1..]))
  {
    HoldsConcat(vec, c.i, Encode(kinds[0], vs[0]), EncodeAll(kinds[1..], vs[1..]));
    ReadComplete(vec, c, kinds[0], vs[0]);
  }

  lemma {:induction false} ReadAllComplete(vec: seq<byte>, c: Cursor, kinds: seq<Kind>, vs: seq<Value>)
    requires AllWellFormed(kinds, vs) && Holds(vec, c.i, EncodeAll(kinds, vs))
    ensures ReadAll(vec, c, kinds) == (vs, c.(i := c.i + |EncodeAll(kinds, vs)|))
    decreases |kinds|
  {
    hide Read, Encode, Holds, WellFormed;
    if kinds != [] {
      var c1 := c.(i := c.i + |Encode(kinds[0], vs[0])|);
      FrontComplete(vec, c, kinds, vs);
      ReadAllComplete(vec, c1, kinds[1..], vs[1..]);
      assert vs == [vs[0]] + vs[1..];
    }
  }

  /** Some well-formed values of these kinds are encoded at the front of the packet. */
  ghost predicate Encoded(vec: seq<byte>, kinds: seq<Kind>) {
    exists vs :: AllWellFormed(kinds, vs) && EncodeAll(kinds, vs) <= vec
  }

  /** Exactness: reading a packet from the start succeeds iff it begins with an encoding. */
  lemma {:induction false} NoErrorIffEncoded(vec: seq<byte>, kinds: seq<Kind>)
    ensures !ReadAll(vec, Cursor(0, false), kinds).1.error <==> Encoded(vec, kinds)
  {
    var (vs, c') := ReadAll(vec, Cursor(0, false), kinds);
    if !c'.error {
      ReadAllSound(vec, Cursor(0, false), kinds);
    }
    if Encoded(vec, kinds) {
      var ws :| AllWellFormed(kinds, ws) && EncodeAll(kinds, ws) <= vec;
      ReadAllComplete(vec, Cursor(0, false), kinds, ws);
    }
  }

  // ----- The cursor object -----

  class Extractor {
    const vec: seq<byte>
    var i: nat
    var error: bool

    constructor (vec: seq<byte>)
      ensures this.vec == vec && At() == Cursor(0, false)
    {
      this.vec, i, error := vec, 0, false;
    }

    ghost function At(): Cursor
      reads this
    {
      Cursor(i, error)
    }

    method Get(size: nat) returns (value: nat)
      modifies this
      ensures (value, At()) == ReadInt(vec, old(At()), size)
    {
      if i + size > |vec| {
        error := true;
        return 0;
      }
      value := FromLe(vec[i..i + size]);
      i := i + size;
    }

    method GetString(mayBeEmpty: bool) returns (s: seq<byte>)
      modifies this
      ensures (s, At()) == ReadString(vec, old(At()), mayBeEmpty)
    {
      s := [];
      while i < |vec| && vec[i] != 0
        invariant old(i) <= i && (old(i) > |vec| ==> i == old(i)) && (old(i) <= |vec| ==> i <= |vec|)
        invariant Terminator(vec, i) == Terminator(vec, old(i)) && error == old(error)
        invariant s == if old(i) <= |vec| then vec[old(i)..i] else []
      {
        s := s + [vec[i]];
        i := i + 1;
      }
      i := i + 1;
      if i > |vec| || (!mayBeEmpty && s == []) {
        error := true;
      }
    }

    method GetRawData() returns (bytes: seq<byte>)
      modifies this
      ensures (bytes, At()) == ReadRaw(vec, old(At()))
    {
      bytes := [];
      var size := Get(4);
      if size + i > |vec| {
        error := true;
        return;
      }
      bytes := vec[i..i + size];
      i := i + size;
    }

    method GetComId() returns (comId: seq<byte>)
      modifies this
      ensures (comId, At()) == ReadComId(vec, old(At()))
    {
      comId := ZeroComId;
      if i + COM_ID_SIZE > |vec| {
        error := true;
      } else {
        for j := 0 to COM_ID_SIZE
          invariant i == old(i) + j && error == old(error) && |comId| == COM_ID_SIZE
          invariant forall n :: 0 <= n < j ==> comId[n] == vec[old(i) + n]
        {
          var c := Get(1);
          SingleByte(vec[old(i) + j..old(i) + j + 1]);
          assert c == vec[old(i) + j];
          comId := comId[j := c];
        }
        assert comId == vec[old(i)..old(i) + COM_ID_SIZE];
      }
      if !(forall j :: 0 <= j < 9 ==> Upper(comId[j]) || Digit(comId[j])) {
        error := true;
      }
      if comId[9] != '_' as int {
        error := true;
      }
      if !(Digit(comId[10]) && Digit(comId[11])) {
        error := true;
      }
    }
  }

  lemma {:induction false} SingleByte(b: seq<byte>)
    requires |b| == 1
    ensures FromLe(b) == b[0]
  {
    assert b[1..] == [];
  }
}
