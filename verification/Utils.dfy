/**
 Byte strings, big-endian numbers and the return-code filter that both programs share
 (src/utils.cpp).
 */
module Utils {
  type byte = x: int | 0 <= x < 256
  type Bytes = seq<byte>

  datatype Option<+T> = None | Some(value: T)

  /** Either a value or the exception that the program throws instead. */
  datatype Result<+T> = Ok(value: T) | Err(message: string)

  function Min(a: int, b: int): int { if a <= b then a else b }

  lemma TakeDrop<T>(s: seq<T>, n: nat)
    requires n <= |s|
    ensures s[..n] + s[n..] == s
  {
  }

  lemma TakeSlice<T>(s: seq<T>, a: nat, b: nat)
    requires a <= b <= |s|
    ensures s[..a] + s[a..b] == s[..b]
  {
  }

  lemma TakeOneMore<T>(s: seq<T>, n: nat)
    requires n < |s|
    ensures s[..n + 1] == s[..n] + [s[n]] && s[n..][1..] == s[n + 1..]
  {
  }

  lemma DropDrop<T>(s: seq<T>, a: nat, b: nat)
    requires a + b <= |s|
    ensures s[a..][b..] == s[a + b..]
  {
  }

  lemma SliceHead<T>(s: seq<T>, i: nat, j: nat)
    requires i < j <= |s|
    ensures s[i..j] == [s[i]] + s[i + 1..j] && s[i..j][0] == s[i] && s[i..j][1..] == s[i + 1..j]
  {
  }

  lemma SnocSlices<T>(s: seq<T>, x: T, n: nat)
    requires n <= |s|
    ensures (s + [x])[n..] == s[n..] + [x] && (s + [x])[..n] == s[..n]
  {
  }

  lemma ConsTail<T>(x: T, s: seq<T>)
    ensures ([x] + s)[0] == x && ([x] + s)[1..] == s
  {
  }

  lemma AppendFront<T>(a: seq<T>, b: seq<T>)
    requires b != []
    ensures var s := a + b;
            s != [] && s[..|s| - 1] == a + b[..|b| - 1] && s[|s| - 1] == b[|b| - 1]
  {
  }

  lemma ConcatAssoc<T>(a: seq<T>, b: seq<T>, c: seq<T>)
    ensures (a + b) + c == a + (b + c)
  {
  }

  // ---------------------------------------------------------------- big-endian numbers

  const TWO64: nat := 0x1_0000_0000_0000_0000

  /** The bytes that `pushBackInt16` appends; a wider argument is truncated to 16 bits. */
  function Int16(n: nat): (s: Bytes)
    ensures |s| == 2
  {
    [n / 0x100 % 0x100, n % 0x100]
  }

  /** The four total-length bytes of a first frame. */
  function Int32(n: nat): (s: Bytes)
    ensures |s| == 4
  {
    [n / 0x100_0000 % 0x100, n / 0x1_0000 % 0x100, n / 0x100 % 0x100, n % 0x100]
  }

  /** The bytes that `pushBackInt64` appends. */
  function Int64(n: nat): (s: Bytes)
    ensures |s| == 8
  {
    [n / 0x100_0000_0000_0000 % 0x100, n / 0x1_0000_0000_0000 % 0x100,
     n / 0x100_0000_0000 % 0x100, n / 0x1_0000_0000 % 0x100,
     n / 0x100_0000 % 0x100, n / 0x1_0000 % 0x100, n / 0x100 % 0x100, n % 0x100]
  }

  function ToInt16(s: Bytes): (n: nat)
    requires |s| >= 2
    ensures n < 0x1_0000
  {
    s[0] as int * 0x100 + s[1] as int
  }

  function ToInt32(s: Bytes): (n: nat)
    requires |s| >= 4
    ensures n < 0x1_0000_0000
  {
    s[0] as int * 0x100_0000 + s[1] as int * 0x1_0000 + s[2] as int * 0x100 + s[3] as int
  }

  /**
   `bytesToUInt64`: throws when fewer than eight bytes follow `offset`. (With `offset > |vec|`
   the unsigned subtraction in AACS wraps around; its only caller passes 2 for a vector
   of at least two bytes.)
   */
  function BytesToUInt64(vec: Bytes, offset: nat): (r: Result<nat>)
    requires offset <= |vec|
    ensures r.Ok? <==> |vec| >= offset + 8
    ensures r.Ok? ==> r.value < TWO64
  {
    if |vec| - offset < 8 then Err("bytesToUInt64: vector too small")
    else Ok(ToInt32(vec[offset..]) * 0x1_0000_0000 + ToInt32(vec[offset + 4..]))
  }

  /** The last digit in base 256 and the number before it. */
  lemma LastDigit(q: nat, l: nat)
    requires l < 0x100
    ensures (q * 0x100 + l) / 0x100 == q && (q * 0x100 + l) % 0x100 == l
  {
  }

  lemma Int16RoundTrip(n: nat)
    ensures ToInt16(Int16(n)) == n % 0x1_0000
  {
    var b, r := n / 0x1_0000, n % 0x1_0000;
    var h, l := r / 0x100, r % 0x100;
    LastDigit(b * 0x100 + h, l);
    LastDigit(b, h);
  }

  lemma Int32RoundTrip(n: nat)
    requires n < 0x1_0000_0000
    ensures ToInt32(Int32(n)) == n
  {
    var a, b, c := n / 0x100, n / 0x1_0000, n / 0x100_0000;
    assert b == a / 0x100;
    assert c == b / 0x100;
    assert n == a * 0x100 + n % 0x100;
    assert a == b * 0x100 + a % 0x100;
    assert b == c * 0x100 + b % 0x100;
    assert c % 0x100 == c;
  }

  /** Adding a multiple of `d` to a number adds to the quotient only. */
  lemma AddMultiple(q: nat, l: nat, d: nat)
    requires d in {1, 0x100, 0x1_0000, 0x100_0000}
    ensures (q * d + l) / d == q + l / d
  {
  }

  lemma ByteOf(q: nat, l: nat)
    ensures (q * 0x100 + l) % 0x100 == l % 0x100
  {
  }

  /** The more significant half comes first. */
  lemma Int32Halves(n: nat)
    requires n < 0x1_0000_0000
    ensures Int32(n) == Int16(n / 0x1_0000) + Int16(n % 0x1_0000)
  {
    var a := n % 0x1_0000;
    assert n / 0x1_0000 / 0x100 == n / 0x100_0000;
    assert n == n / 0x1_0000 * 0x100 * 0x100 + a;
    AddMultiple(n / 0x1_0000 * 0x100, a, 0x100);
    ByteOf(n / 0x1_0000, a / 0x100);
    ByteOf(n / 0x1_0000 * 0x100, a);
  }

  lemma HighDigit(n: nat, d: nat)
    requires d in {0x100, 0x1_0000, 0x100_0000}
    ensures n / (0x1_0000_0000 * d) == n / 0x1_0000_0000 / d
  {
  }

  /** Adding a multiple of `256 * d` does not change the digit that `d` selects. */
  lemma LowDigit(h: nat, l: nat, d: nat)
    requires d in {1, 0x100, 0x1_0000, 0x100_0000}
    ensures (h * 0x1_0000_0000 + l) / d % 0x100 == l / d % 0x100
  {
    var q := if d == 1 then 0x100_0000 else if d == 0x100 then 0x1_0000 else if d == 0x1_0000 then 0x100 else 1;
    assert h * 0x1_0000_0000 == h * q * 0x100 * d;
    AddMultiple(h * q * 0x100, l, d);
    ByteOf(h * q, l / d);
  }

  lemma Int64Halves(n: nat)
    requires n < TWO64
    ensures Int64(n) == Int32(n / 0x1_0000_0000) + Int32(n % 0x1_0000_0000)
  {
    HighDigit(n, 0x100);
    HighDigit(n, 0x1_0000);
    HighDigit(n, 0x100_0000);
    var h, l := n / 0x1_0000_0000, n % 0x1_0000_0000;
    LowDigit(h, l, 1);
    LowDigit(h, l, 0x100);
    LowDigit(h, l, 0x1_0000);
    LowDigit(h, l, 0x100_0000);
  }

  /** What `pushBackInt64` appends after any prefix is what `bytesToUInt64` reads there. */
  lemma Int64RoundTrip(prefix: Bytes, n: nat, rest: Bytes)
    requires n < TWO64
    ensures BytesToUInt64(prefix + Int64(n) + rest, |prefix|) == Ok(n)
  {
    var v := prefix + Int64(n) + rest;
    var h, l := n / 0x1_0000_0000, n % 0x1_0000_0000;
    Int64Halves(n);
    assert v[|prefix|..] == Int32(h) + (Int32(l) + rest);
    assert v[|prefix| + 4..] == Int32(l) + rest;
    Int32RoundTrip(h);
    Int32RoundTrip(l);
  }

  // ---------------------------------------------------------------- system call results

  const EINTR: int := 4
  const EAGAIN: int := 11

  /** What a system call (or one of the functions used in place of one) leaves behind. */
  datatype SysCall = SysCall(ret: int, errno: int)

  /**
   `checkError`: a positive count passes, a zero result becomes -1, an ignored error becomes 0
   and every other error is thrown.
   */
  function CheckError(c: SysCall, ignored: seq<int>): (r: Result<int>)
    ensures r.Ok? && r.value > 0 <==> c.ret > 0
    ensures c.ret > 0 ==> r == Ok(c.ret)
    ensures r == Ok(-1) <==> c.ret == 0
    ensures r == Ok(0) <==> c.ret < 0 && c.errno in ignored
    ensures r.Err? <==> c.ret < 0 && c.errno !in ignored
  {
    if c.ret > 0 then Ok(c.ret)
    else if c.ret == 0 then Ok(-1)
    else if c.errno in ignored then Ok(0)
    else Err("checkError")
  }
}
