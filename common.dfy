/** Small value types shared by every module of the battlemap model. */
module Common {

  datatype Option<T> = None | Some(value: T)

  datatype Result<T, E> = Ok(value: T) | Err(error: E)

  /**
   * A Java exception as a catch block sees it: its kind, its simple class name
   * and its message (`getMessage()`, which may be null).
   */
  datatype JavaException =
    | IllegalArgument(message: Option<string>)
    | OtherException(simpleName: string, message: Option<string>)

  /** An unsigned byte, as held by a Java `byte` masked with `& 0xFF` or a JavaScript `Uint8Array` cell. */
  type byte = x: int | 0 <= x < 256

  /** The byte a JSON number becomes in `Integer.byteValue() & 0xFF` (Java) or in `new Uint8Array(list)` (JavaScript). */
  function ToByte(x: int): byte { x % 256 }

  function ToBytes(xs: seq<int>): (r: seq<byte>)
    ensures |r| == |xs|
    ensures forall i :: 0 <= i < |xs| ==> r[i] == ToByte(xs[i])
  {
    if xs == [] then [] else [ToByte(xs[0])] + ToBytes(xs[1..])
  }

  /** Bytes survive the conversion to bytes unchanged. */
  lemma SmallByte(v: int)
    requires 0 <= v < 256
    ensures ToByte(v) == v
  {
  }

  lemma ToBytesOfBytes(bs: seq<byte>)
    ensures ToBytes(bs) == bs
  {
  }

  /** `n` copies of `x`: a freshly filled JavaScript array or a zero-filled Java array. */
  function Repeat<T>(x: T, n: nat): (r: seq<T>)
    ensures |r| == n
    ensures forall i :: 0 <= i < n ==> r[i] == x
  {
    if n == 0 then [] else Repeat(x, n - 1) + [x]
  }

  /** The first `n` elements of `s`, or all of it when it is shorter. */
  function Take<T>(s: seq<T>, n: nat): (r: seq<T>)
    ensures |r| == if n <= |s| then n else |s|
    ensures forall i :: 0 <= i < |r| ==> r[i] == s[i]
  {
    if n <= |s| then s[..n] else s
  }

  /** `s` cut or padded with `fill` to exactly `n` elements. */
  function Resize<T>(s: seq<T>, n: nat, fill: T): (r: seq<T>)
    ensures |r| == n
    ensures forall i :: 0 <= i < n ==> r[i] == if i < |s| then s[i] else fill
  {
    if n <= |s| then s[..n] else s + Repeat(fill, n - |s|)
  }

  /** The element at `i`, or `dflt` past the end: JavaScript's `a[i] ?? dflt`. */
  function AtOr<T>(s: seq<T>, i: int, dflt: T): T
  {
    if 0 <= i < |s| then s[i] else dflt
  }

  function Pow2(k: nat): (r: nat)
    ensures r >= 1
  {
    if k == 0 then 1 else 2 * Pow2(k - 1)
  }

  /** Bit `k` of `b`, the value of `((b >> k) & 1) == 1` (an arithmetic shift is a floor division by 2). */
  function BitOf(b: int, k: nat): bool
    decreases k
  {
    if k == 0 then b % 2 == 1 else BitOf(b / 2, k - 1)
  }

  /** `b | (1 << k)` for a non-negative `b`: unchanged when bit `k` is already set, otherwise `b + 2^k`. */
  function SetBit(b: nat, k: nat): nat
  {
    if BitOf(b, k) then b else b + Pow2(k)
  }

  /** Moving a block from the unread part of a sequence to the written part keeps the whole. */
  lemma MoveBlock<T>(written: seq<T>, block: seq<T>, rest: seq<T>, whole: seq<T>)
    requires written + (block + rest) == whole
    ensures (written + block) + rest == whole
  {
    assert (written + block) + rest == written + (block + rest);
  }

  lemma TakeOfLongPrefix<T>(a: seq<T>, b: seq<T>, n: nat)
    requires n <= |a|
    ensures Take(a + b, n) == Take(a, n)
  {
    assert (a + b)[..n] == a[..n];
  }

  lemma TakeSnoc<T>(a: seq<T>, x: T, n: nat)
    requires |a| < n
    ensures Take(a + [x], n) == Take(a, n) + [x]
  {
  }

  lemma PrefixSnoc<T>(s: seq<T>, k: nat)
    requires k < |s|
    ensures s[..k + 1] == s[..k] + [s[k]]
  {
  }

  lemma WholePrefix<T>(s: seq<T>)
    ensures s[..|s|] == s
  {
  }

  lemma {:induction false} RepeatSplit<T>(v: T, a: nat, b: nat)
    ensures Repeat(v, a) + Repeat(v, b) == Repeat(v, a + b)
  {
    assert |Repeat(v, a) + Repeat(v, b)| == a + b;
  }

  function Min(a: int, b: int): int { if a <= b then a else b }
  function Max(a: int, b: int): int { if a >= b then a else b }
}
