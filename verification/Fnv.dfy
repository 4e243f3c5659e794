/** The 64-bit FNV-1a hash printed as sixteen hexadecimal digits
    (internal/controller/values/aggregator.go, fnv1aHex and SelectorsHash). */
module Fnv {
  import opened Powers

  const MODULUS: nat := 0x1_0000_0000_0000_0000
  const OFFSET: nat := 14695981039346656037
  const PRIME: nat := 1099511628211

  // PRIME * INVERSE == 1 + CARRY * MODULUS, so multiplication by PRIME can be undone.
  const INVERSE: nat := 0xce965057aff6957b
  const CARRY: nat := 887285111055

  type Word = h: int | 0 <= h < 0x1_0000_0000_0000_0000

  type Byte = b: int | 0 <= b < 0x100

  /** Bitwise exclusive or of the low k bits. */
  function Xor(a: nat, b: nat, k: nat): (r: nat)
    ensures r < Pow2(k)
  {
    if k == 0 then 0 else 2 * Xor(a / 2, b / 2, k - 1) + (a + b) % 2
  }

  /** Exclusive or with a byte changes only the low eight bits of the word. */
  function XorByte(h: Word, b: Byte): (r: Word)
    ensures r / 0x100 == h / 0x100 && r % 0x100 == Xor(h % 0x100, b, 8)
  {
    assert Pow2(8) == 0x100;
    h - h % 0x100 + Xor(h % 0x100, b, 8)
  }

  function Step(h: Word, b: Byte): Word {
    XorByte(h, b) * PRIME % MODULUS
  }

  /** The hash state after all the bytes of data. */
  function State(data: seq<Byte>): Word {
    if data == [] then OFFSET else Step(State(data[..|data| - 1]), data[|data| - 1])
  }

  function Digit(d: int): char
    requires 0 <= d < 16
  {
    "0123456789abcdef"[d]
  }

  function Hex(n: nat, width: nat): (s: string)
    ensures |s| == width
  {
    if width == 0 then [] else Hex(n / 16, width - 1) + [Digit(n % 16)]
  }

  function Hash(data: seq<Byte>): (s: string)
    ensures |s| == 16
  {
    Hex(State(data), 16)
  }

  /** The source's accumulator loop. */
  method Fnv1aHex(data: seq<Byte>) returns (s: string)
    ensures s == Hash(data)
  {
    var hash: Word := OFFSET;
    for i := 0 to |data|
      invariant hash == State(data[..i])
    {
      assert data[..i + 1][..i] == data[..i];
      hash := XorByte(hash, data[i]);
      hash := hash * PRIME % MODULUS;
    }
    assert data[..|data|] == data;
    s := Hex(hash, 16);
  }

  /** An empty selector list hashes to the empty string, which no other list does. */
  function SelectorsHash<T>(encode: seq<T> -> seq<Byte>, selectors: seq<T>): (s: string)
    ensures s == "" <==> selectors == []
  {
    if selectors == [] then "" else Hash(encode(selectors))
  }

  /** Multiplying by p and then by an inverse q of p gives the word back. */
  lemma InverseUndoes(x: Word, p: nat, q: nat)
    requires p * q == 1 + CARRY * MODULUS
    ensures (x * p % MODULUS) * q % MODULUS == x
  {
    var r, d := x * p % MODULUS, x * p / MODULUS;
    assert x * p * q == x + x * CARRY * MODULUS by {
      assert x * p * q == x * (p * q);
    }
    assert r * q == x + MODULUS * (x * CARRY - d * q) by {
      assert (MODULUS * d + r) * q == MODULUS * (d * q) + r * q;
    }
    Remainder(r * q, x * CARRY - d * q, x);
  }

  lemma Remainder(n: nat, k: int, x: Word)
    requires n == x + MODULUS * k
    ensures n % MODULUS == x
  {
  }

  lemma MultiplicationUndone(x: Word)
    ensures (x * PRIME % MODULUS) * INVERSE % MODULUS == x
    ensures (x * INVERSE % MODULUS) * PRIME % MODULUS == x
  {
    InverseUndoes(x, PRIME, INVERSE);
    InverseUndoes(x, INVERSE, PRIME);
  }

  lemma XorBits(a: nat, b: nat, k: nat)
    requires k > 0
    ensures Xor(a, b, k) / 2 == Xor(a / 2, b / 2, k - 1)
    ensures Xor(a, b, k) % 2 == (a + b) % 2
  {
  }

  lemma ParityTwice(a: nat, b: nat)
    ensures ((a + b) % 2 + b) % 2 == a % 2
  {
  }

  lemma ParityCancels(a: nat, b: nat, d: nat)
    requires (a + b) % 2 == (a + d) % 2
    ensures b % 2 == d % 2
  {
  }

  lemma XorTwiceBits(a: nat, b: nat, k: nat)
    requires k > 0
    ensures Xor(Xor(a, b, k), b, k) == 2 * Xor(Xor(a / 2, b / 2, k - 1), b / 2, k - 1) + a % 2
  {
    var r := Xor(a, b, k);
    XorBits(a, b, k);
    assert Xor(r, b, k) == 2 * Xor(r / 2, b / 2, k - 1) + (r + b) % 2;
    ParityOfSum(r, b);
    ParityTwice(a, b);
  }

  lemma ParityOfSum(r: nat, b: nat)
    ensures (r + b) % 2 == (r % 2 + b) % 2
  {
  }

  lemma {:induction false} XorInvolutive(a: nat, b: nat, k: nat)
    requires a < Pow2(k)
    ensures Xor(Xor(a, b, k), b, k) == a
  {
    if k > 0 {
      XorTwiceBits(a, b, k);
      XorInvolutive(a / 2, b / 2, k - 1);
    }
  }

  lemma {:induction false} XorInjective(a: nat, b: nat, d: nat, k: nat)
    requires b < Pow2(k) && d < Pow2(k)
    requires Xor(a, b, k) == Xor(a, d, k)
    ensures b == d
  {
    if k > 0 {
      XorBits(a, b, k);
      XorBits(a, d, k);
      XorInjective(a / 2, b / 2, d / 2, k - 1);
      ParityCancels(a, b, d);
    }
  }

  lemma XorByteInvolutive(h: Word, b: Byte)
    ensures XorByte(XorByte(h, b), b) == h
  {
    assert Pow2(8) == 0x100;
    XorInvolutive(h % 0x100, b, 8);
  }

  /** One byte step is a bijection on the 64-bit states: this is its two-sided inverse. */
  function Unstep(h: Word, b: Byte): Word {
    XorByte(h * INVERSE % MODULUS, b)
  }

  lemma StepBijective(h: Word, b: Byte)
    ensures Unstep(Step(h, b), b) == h
    ensures Step(Unstep(h, b), b) == h
  {
    MultiplicationUndone(XorByte(h, b));
    XorByteInvolutive(h, b);
    MultiplicationUndone(h);
    XorByteInvolutive(h * INVERSE % MODULUS, b);
  }

  lemma StepInjectiveInState(g: Word, h: Word, b: Byte)
    ensures Step(g, b) == Step(h, b) <==> g == h
  {
    StepBijective(g, b);
    StepBijective(h, b);
  }

  lemma StepInjectiveInByte(h: Word, b: Byte, d: Byte)
    ensures Step(h, b) == Step(h, d) <==> b == d
  {
    MultiplicationUndone(XorByte(h, b));
    MultiplicationUndone(XorByte(h, d));
    if Step(h, b) == Step(h, d) {
      assert Pow2(8) == 0x100;
      XorInjective(h % 0x100, b, d, 8);
    }
  }

  lemma {:induction false} SuffixNeutralState(a: seq<Byte>, b: seq<Byte>, suffix: seq<Byte>)
    ensures State(a + suffix) == State(b + suffix) <==> State(a) == State(b)
  {
    if suffix == [] {
      assert a + suffix == a && b + suffix == b;
    } else {
      var front, last := suffix[..|suffix| - 1], suffix[|suffix| - 1];
      assert (a + suffix)[..|a + suffix| - 1] == a + front;
      assert (b + suffix)[..|b + suffix| - 1] == b + front;
      SuffixNeutralState(a, b, front);
      StepInjectiveInState(State(a + front), State(b + front), last);
    }
  }

  function Pow16(k: nat): nat {
    if k == 0 then 1 else 16 * Pow16(k - 1)
  }

  /** The number a lower-case hexadecimal digit stands for. */
  function DigitValue(c: char): int {
    if '0' <= c <= '9' then (c - '0') as int else if 'a' <= c <= 'f' then 10 + (c - 'a') as int else -1
  }

  function HexValue(s: string): int {
    if s == "" then 0 else 16 * HexValue(s[..|s| - 1]) + DigitValue(s[|s| - 1])
  }

  lemma DigitReads(d: int)
    requires 0 <= d < 16
    ensures DigitValue(Digit(d)) == d
  {
  }

  /** The printed digits read as the number. */
  lemma {:induction false} HexReads(n: nat, width: nat)
    requires n < Pow16(width)
    ensures HexValue(Hex(n, width)) == n
  {
    if width > 0 {
      HexReads(n / 16, width - 1);
      DigitReads(n % 16);
      var s := Hex(n, width);
      assert s[..width - 1] == Hex(n / 16, width - 1) && s[width - 1] == Digit(n % 16);
    }
  }

  /** So they determine it. */
  lemma HexInjective(m: nat, n: nat, width: nat)
    requires m < Pow16(width) && n < Pow16(width)
    ensures Hex(m, width) == Hex(n, width) <==> m == n
  {
    HexReads(m, width);
    HexReads(n, width);
  }

  lemma AllWordsPrint()
    ensures Pow16(16) == MODULUS
  {
    assert Pow16(4) == 0x1_0000;
    assert Pow16(8) == 0x1_0000_0000;
    assert Pow16(12) == 0x1_0000_0000_0000;
  }

  /** The low byte of the offset basis with an 'a', bit by bit. */
  lemma OffsetWithA()
    ensures Xor(0x25, 0x61, 8) == 0x44
  {
    assert Xor(0, 0, 1) == 0;
    assert Xor(0, 1, 2) == 1;
    assert Xor(1, 3, 3) == 2;
    assert Xor(2, 6, 4) == 4;
    assert Xor(4, 12, 5) == 8;
    assert Xor(9, 24, 6) == 17;
    assert Xor(18, 48, 7) == 34;
  }

  lemma XorWithA(h: Word, b: Byte)
    requires h == OFFSET && b == 0x61
    ensures XorByte(h, b) == 0xcbf29ce484222344
  {
    assert h % 0x100 == 0x25;
    OffsetWithA();
  }

  lemma StepA(h: Word, b: Byte)
    requires h == OFFSET && b == 0x61
    ensures Step(h, b) == 0xaf63dc4c8601ec8c
  {
    XorWithA(h, b);
    TimesPrime(0xcbf29ce484222344);
  }

  lemma TimesPrime(x: nat)
    requires x == 0xcbf29ce484222344
    ensures x * PRIME % MODULUS == 0xaf63dc4c8601ec8c
  {
  }

  lemma StateAfterA(data: seq<Byte>)
    requires data == [0x61]
    ensures State(data) == 0xaf63dc4c8601ec8c
  {
    assert data[..0] == [];
    StepA(OFFSET, data[0]);
  }

  lemma HashReads(data: seq<Byte>)
    ensures HexValue(Hash(data)) == State(data)
  {
    AllWordsPrint();
    HexReads(State(data), 16);
  }

  /** The published values of the hash, for no byte and for an 'a'. */
  lemma KnownHashes(data: seq<Byte>)
    ensures data == [] ==> HexValue(Hash(data)) == 0xcbf29ce484222325
    ensures data == [0x61] ==> HexValue(Hash(data)) == 0xaf63dc4c8601ec8c
  {
    HashReads(data);
    if data == [0x61] {
      StateAfterA(data);
    }
  }

  lemma HashInjectiveInState(a: seq<Byte>, b: seq<Byte>)
    ensures Hash(a) == Hash(b) <==> State(a) == State(b)
  {
    AllWordsPrint();
    HexInjective(State(a), State(b), 16);
  }

  /** Two selector lists have one hash exactly when both are empty, or neither is and the hash states of their
      encodings collide. */
  lemma SelectorsCollideIff<T>(encode: seq<T> -> seq<Byte>, a: seq<T>, b: seq<T>)
    ensures SelectorsHash(encode, a) == SelectorsHash(encode, b) <==>
            (a == [] <==> b == []) && (a != [] ==> State(encode(a)) == State(encode(b)))
  {
    HashInjectiveInState(encode(a), encode(b));
  }

  /** A common suffix neither creates nor removes a collision of the printed hashes. */
  lemma SuffixNeutral(a: seq<Byte>, b: seq<Byte>, suffix: seq<Byte>)
    ensures Hash(a + suffix) == Hash(b + suffix) <==> Hash(a) == Hash(b)
  {
    HashInjectiveInState(a + suffix, b + suffix);
    HashInjectiveInState(a, b);
    SuffixNeutralState(a, b, suffix);
  }

  /** Inputs of equal length that differ in exactly one byte never collide. */
  lemma OneByteNeverCollides(data: seq<Byte>, i: nat, b: Byte)
    requires i < |data|
    ensures Hash(data[i := b]) == Hash(data) <==> b == data[i]
  {
    var prefix, suffix := data[..i], data[i + 1..];
    var x, y := prefix + [b], prefix + [data[i]];
    assert data[i := b] == x + suffix && data == y + suffix;
    SuffixNeutral(x, y, suffix);
    HashInjectiveInState(x, y);
    assert x[..|x| - 1] == prefix && y[..|y| - 1] == prefix;
    StepInjectiveInByte(State(prefix), b, data[i]);
  }
}
