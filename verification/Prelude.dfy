/** Small datatypes and sequence operations shared by the components of the model. */
module Prelude {
  datatype Option<+T> = None | Some(value: T)

  /** One unsigned byte of a packet or a ticket. */
  type byte = x: int | 0 <= x < 256

  function Min(a: int, b: int): int { if a <= b then a else b }

  /** The first `n` elements of `s`, or all of `s` when it is shorter. */
  function Take<T>(s: seq<T>, n: nat): (r: seq<T>)
    ensures |r| == Min(|s|, n)
    ensures forall i :: 0 <= i < |r| ==> r[i] == s[i]
  {
    if |s| <= n then s else s[..n]
  }

  /** `Vec::remove`. */
  function RemoveAt<T>(s: seq<T>, i: nat): (r: seq<T>)
    requires i < |s|
    ensures |r| == |s| - 1
    ensures forall j :: 0 <= j < |r| ==> r[j] == s[if j < i then j else j + 1]
  {
    s[..i] + s[i + 1..]
  }

  /** `Vec::insert`. */
  function InsertAt<T>(s: seq<T>, i: nat, x: T): (r: seq<T>)
    requires i <= |s|
    ensures |r| == |s| + 1 && r[i] == x
    ensures forall j :: 0 <= j < |r| && j != i ==> r[j] == s[if j < i then j else j - 1]
  {
    s[..i] + [x] + s[i..]
  }

  /** Account ids, 64-bit signed. */
  type UserId = u: int | -0x8000_0000_0000_0000 <= u < 0x8000_0000_0000_0000

  // ----- Index maps: an absent key stands for the empty set -----

  function At<K, V>(m: map<K, set<V>>, k: K): set<V> { if k in m then m[k] else {} }
  function Add<K, V>(m: map<K, set<V>>, k: K, v: V): map<K, set<V>> { m[k := At(m, k) + {v}] }
  function Drop<K, V>(m: map<K, set<V>>, k: K, v: V): map<K, set<V>> { m[k := At(m, k) - {v}] }

  lemma {:induction false} CardinalityLe<T>(a: set<T>, b: set<T>)
    requires a <= b
    ensures |a| <= |b|
  {
    if a != {} {
      var x :| x in a;
      CardinalityLe(a - {x}, b - {x});
    }
  }
}
