/** Bytes and the fixed-width integers of media containers. */
module Bytes {
  type Byte = b: int | 0 <= b < 0x100

  const TWO32: int := 0x1_0000_0000
  const TWO64: int := 0x1_0000_0000_0000_0000

  /** The unsigned big-endian integer held in four bytes. */
  function BE32(s: seq<Byte>): (n: nat)
    requires |s| == 4
    ensures n < TWO32
  {
    var a: int, b: int, c: int, d: int := s[0], s[1], s[2], s[3];
    ((a * 0x100 + b) * 0x100 + c) * 0x100 + d
  }

  function BE64(s: seq<Byte>): (n: nat)
    requires |s| == 8
    ensures n < TWO64
  {
    BE32(s[..4]) * TWO32 + BE32(s[4..])
  }

  function LE32(s: seq<Byte>): (n: nat)
    requires |s| == 4
    ensures n < TWO32
  {
    BE32([s[3], s[2], s[1], s[0]])
  }

  function BE16(s: seq<Byte>): (n: nat)
    requires |s| == 2
    ensures n < 0x1_0000
  {
    var a: int, b: int := s[0], s[1];
    a * 0x100 + b
  }

  /** The four low bytes of n: encoding truncates to the field width. */
  function PutBE32(n: nat): (s: seq<Byte>)
    ensures |s| == 4
    ensures n < TWO32 ==> BE32(s) == n
  {
    var n1 := n / 0x100;
    var n2 := n1 / 0x100;
    var n3 := n2 / 0x100;
    [n3 % 0x100, n2 % 0x100, n1 % 0x100, n % 0x100]
  }

  function PutBE64(n: nat): (s: seq<Byte>)
    ensures |s| == 8
    ensures n < TWO64 ==> BE64(s) == n
  {
    var hi, lo := PutBE32(n / TWO32), PutBE32(n % TWO32);
    assert (hi + lo)[..4] == hi && (hi + lo)[4..] == lo;
    hi + lo
  }

  function PutLE32(n: nat): (s: seq<Byte>)
    ensures |s| == 4
    ensures n < TWO32 ==> LE32(s) == n
  {
    var s := PutBE32(n);
    [s[3], s[2], s[1], s[0]]
  }

  lemma PutBE32Inverse(s: seq<Byte>)
    requires |s| == 4
    ensures PutBE32(BE32(s)) == s
  {
    var a: int, b: int, c: int, d: int := s[0], s[1], s[2], s[3];
    var n := BE32(s);
    assert n / 0x100 == (a * 0x100 + b) * 0x100 + c;
    assert n / 0x100 / 0x100 == a * 0x100 + b;
  }

  lemma PutBE64Inverse(s: seq<Byte>)
    requires |s| == 8
    ensures PutBE64(BE64(s)) == s
  {
    PutBE32Inverse(s[..4]);
    PutBE32Inverse(s[4..]);
    var hi, lo := BE32(s[..4]), BE32(s[4..]);
    assert (hi * TWO32 + lo) / TWO32 == hi && (hi * TWO32 + lo) % TWO32 == lo;
    assert s == s[..4] + s[4..];
  }

  // ---------------------------------------------------------------- byte order

  /** The first byte in which two strings of one length differ is smaller in the first. */
  predicate Before(a: seq<Byte>, b: seq<Byte>)
    requires |a| == |b|
  {
    a != [] && (a[0] < b[0] || (a[0] == b[0] && Before(a[1..], b[1..])))
  }

  lemma {:induction false} BeforeJoins(a: seq<Byte>, b: seq<Byte>, c: seq<Byte>, d: seq<Byte>)
    requires |a| == |b| && |c| == |d|
    ensures Before(a + c, b + d) <==> Before(a, b) || (a == b && Before(c, d))
    decreases |a|
  {
    if a == [] {
      assert a + c == c && b + d == d;
    } else {
      assert (a + c)[1..] == a[1..] + c && (b + d)[1..] == b[1..] + d;
      BeforeJoins(a[1..], b[1..], c, d);
      assert a == [a[0]] + a[1..] && b == [b[0]] + b[1..];
    }
  }

  lemma BeforeInOrder(a: seq<Byte>, b: seq<Byte>)
    requires |a| == |b| == 4
    ensures Before(a, b) <==>
              || a[0] < b[0] || (a[0] == b[0] && a[1] < b[1]) || (a[0] == b[0] && a[1] == b[1] && a[2] < b[2])
              || (a[0] == b[0] && a[1] == b[1] && a[2] == b[2] && a[3] < b[3])
  {
    var a1, b1 := a[1..], b[1..];
    var a2, b2 := a1[1..], b1[1..];
    var a3, b3 := a2[1..], b2[1..];
    assert a1[0] == a[1] && b1[0] == b[1] && a2[0] == a[2] && b2[0] == b[2] && a3[0] == a[3] && b3[0] == b[3];
    assert Before(a3, b3) <==> a3[0] < b3[0];
    assert Before(a2, b2) <==> a2[0] < b2[0] || (a2[0] == b2[0] && Before(a3, b3));
    assert Before(a1, b1) <==> a1[0] < b1[0] || (a1[0] == b1[0] && Before(a2, b2));
  }

  /** The most significant byte comes first: numbers are ordered as their bytes are. */
  lemma BE32IsOrdered(a: seq<Byte>, b: seq<Byte>)
    requires |a| == |b| == 4
    ensures BE32(a) < BE32(b) <==> Before(a, b)
  {
    BeforeInOrder(a, b);
  }

  lemma BE64IsOrdered(a: seq<Byte>, b: seq<Byte>)
    requires |a| == |b| == 8
    ensures BE64(a) < BE64(b) <==> Before(a, b)
  {
    BE32IsOrdered(a[..4], b[..4]);
    BE32IsOrdered(a[4..], b[4..]);
    BeforeJoins(a[..4], b[..4], a[4..], b[4..]);
    assert a == a[..4] + a[4..] && b == b[..4] + b[4..];
    if BE32(a[..4]) == BE32(b[..4]) {
      PutBE32Inverse(a[..4]);
      PutBE32Inverse(b[..4]);
    }
  }

  lemma BE16IsOrdered(a: seq<Byte>, b: seq<Byte>)
    requires |a| == |b| == 2
    ensures BE16(a) < BE16(b) <==> Before(a, b)
  {
    assert Before(a[1..], b[1..]) <==> a[1] < b[1];
  }

  /** In the other order the last byte is the most significant one. */
  lemma LE32IsOrdered(a: seq<Byte>, b: seq<Byte>)
    requires |a| == |b| == 4
    ensures LE32(a) < LE32(b) <==> Before([a[3], a[2], a[1], a[0]], [b[3], b[2], b[1], b[0]])
  {
    BE32IsOrdered([a[3], a[2], a[1], a[0]], [b[3], b[2], b[1], b[0]]);
  }

  /** The character codes of an ASCII literal. */
  function Ascii(s: string): (bytes: seq<Byte>)
    ensures |bytes| == |s|
  {
    seq(|s|, i requires 0 <= i < |s| => s[i] as int % 0x100)
  }

  /** A four-character code is the number in its four bytes. */
  lemma CodeIs(bytes: seq<Byte>, code: nat, name: string)
    requires |bytes| == |name| == 4 && forall i :: 0 <= i < 4 ==> name[i] as int < 0x100
    requires code == ((name[0] as int * 0x100 + name[1] as int) * 0x100 + name[2] as int) * 0x100 + name[3] as int
    ensures BE32(bytes) == code <==> bytes == Ascii(name)
  {
    assert BE32(Ascii(name)) == code;
    PutBE32Inverse(bytes);
    PutBE32Inverse(Ascii(name));
  }

  function LowerByte(b: Byte): Byte {
    if 'A' as int <= b <= 'Z' as int then b + 32 else b
  }

  predicate WordAt(s: seq<Byte>, word: seq<Byte>, i: int) {
    0 <= i <= |s| - |word| && forall k :: 0 <= k < |word| ==> LowerByte(s[i + k]) == word[k]
  }

  /** Case-insensitive occurrence of a lower-case ASCII word. */
  predicate ContainsFold(s: seq<Byte>, word: seq<Byte>) {
    exists i :: 0 <= i <= |s| && WordAt(s, word, i)
  }

  lemma ConcatAssociative<T>(a: seq<T>, b: seq<T>, c: seq<T>)
    ensures a + (b + c) == a + b + c
  {
  }

  lemma DropDrop<T>(s: seq<T>, i: nat, n: nat)
    requires i + n <= |s|
    ensures s[i..][n..] == s[i + n..]
  {
  }
}
