/** The little-endian `jenkins_hash` (jenkins_hash.c:33-123, 125-297): three ways to read the key, one hash value;
    and `mix`, which loses nothing. Words are numbers below 2^32, and a mask of low bits is a remainder. */
module Jenkins {
  import opened Common

  const WORDS: nat := 0x1_0000_0000

  type word = x: int | 0 <= x < WORDS
  type half = x: int | 0 <= x < 0x10000

  /** The three words of internal state. */
  datatype State = State(a: word, b: word, c: word)

  // ----- operations on words

  function Add(x: word, y: word): word {
    if x + y < WORDS then x + y else x + y - WORDS
  }

  function Sub(x: word, y: word): word {
    if x < y then x - y + WORDS else x - y
  }

  /** Bit by bit from the low end. */
  function XorBits(x: nat, y: nat): nat {
    if x == 0 && y == 0 then 0 else (if x % 2 != y % 2 then 1 else 0) + 2 * XorBits(x / 2, y / 2)
  }

  lemma {:induction false} XorBound(x: nat, y: nat, n: nat)
    requires x < Pow2(n) && y < Pow2(n)
    ensures XorBits(x, y) < Pow2(n)
  {
    if n > 0 {
      XorBound(x / 2, y / 2, n - 1);
    }
  }

  lemma XorIsWord(x: word, y: word)
    ensures XorBits(x, y) < WORDS
  {
    Pow32();
    XorBound(x, y, 32);
  }

  function Xor(x: word, y: word): word {
    XorIsWord(x, y);
    XorBits(x, y)
  }

  function ShiftLeft(x: word, k: nat): word
    decreases k
  {
    if k == 0 then x else ShiftLeft(2 * x % WORDS, k - 1)
  }

  function ShiftRight(x: word, k: nat): word {
    if k == 0 then x else ShiftRight(x / 2, k - 1)
  }

  /** `rot`: the word turned to the left. */
  function Rot(x: word, k: nat): word
    requires k <= 32
  {
    Xor(ShiftLeft(x, k), ShiftRight(x, 32 - k))
  }

  lemma Pow32()
    ensures Pow2(32) == WORDS
  {
    assert Pow2(8) == 256;
    assert Pow2(16) == 65536;
    assert Pow2(24) == 16777216;
  }

  lemma {:induction false} XorBitsBack(x: nat, r: nat)
    ensures XorBits(XorBits(x, r), r) == x
  {
    if x != 0 || r != 0 {
      XorBitsBack(x / 2, r / 2);
    }
  }

  lemma XorBack(x: word, r: word)
    ensures Xor(Xor(x, r), r) == x
  {
    XorBitsBack(x, r);
  }

  lemma AddBack(x: word, y: word)
    ensures Sub(Add(x, y), y) == x && Add(Sub(x, y), y) == x
  {
  }

  // ----- mix, and its way back

  /** One line of `mix`: `x -= z; x ^= rot(z, k); z += y`. */
  function Line(x: word, y: word, z: word, k: nat): (word, word)
    requires k <= 32
  {
    (Xor(Sub(x, z), Rot(z, k)), Add(z, y))
  }

  /** The line read from its end: `z -= y; x ^= rot(z, k); x += z`. */
  function Unline(x: word, y: word, z: word, k: nat): (word, word)
    requires k <= 32
  {
    (Add(Xor(x, Rot(Sub(z, y), k)), Sub(z, y)), Sub(z, y))
  }

  /** A line that changes `a` and `c`, one that changes `b` and `a`, and one that changes `c` and `b`. */
  function LineA(s: State, k: nat): State
    requires k <= 32
  {
    var (a, c) := Line(s.a, s.b, s.c, k);
    State(a, s.b, c)
  }

  function LineB(s: State, k: nat): State
    requires k <= 32
  {
    var (b, a) := Line(s.b, s.c, s.a, k);
    State(a, b, s.c)
  }

  function LineC(s: State, k: nat): State
    requires k <= 32
  {
    var (c, b) := Line(s.c, s.a, s.b, k);
    State(s.a, b, c)
  }

  function UnlineA(s: State, k: nat): State
    requires k <= 32
  {
    var (a, c) := Unline(s.a, s.b, s.c, k);
    State(a, s.b, c)
  }

  function UnlineB(s: State, k: nat): State
    requires k <= 32
  {
    var (b, a) := Unline(s.b, s.c, s.a, k);
    State(a, b, s.c)
  }

  function UnlineC(s: State, k: nat): State
    requires k <= 32
  {
    var (c, b) := Unline(s.c, s.a, s.b, k);
    State(s.a, b, c)
  }

  function Mix(s: State): State {
    LineC(LineB(LineA(LineC(LineB(LineA(s, 4), 6), 8), 16), 19), 4)
  }

  /** The lines undone, last one first. */
  function Unmix(s: State): State {
    UnlineA(UnlineB(UnlineC(UnlineA(UnlineB(UnlineC(s, 4), 19), 16), 8), 6), 4)
  }

  lemma LineBack(x: word, y: word, z: word, k: nat)
    requires k <= 32
    ensures var l := Line(x, y, z, k); Unline(l.0, y, l.1, k) == (x, z)
    ensures var l := Unline(x, y, z, k); Line(l.0, y, l.1, k) == (x, z)
  {
    AddBack(z, y);
    AddBack(x, z);
    XorBack(Sub(x, z), Rot(z, k));
    var was := Sub(z, y);
    XorBack(x, Rot(was, k));
    AddBack(Xor(x, Rot(was, k)), was);
  }

  lemma LinesBack(s: State, k: nat)
    requires k <= 32
    ensures UnlineA(LineA(s, k), k) == s && LineA(UnlineA(s, k), k) == s
    ensures UnlineB(LineB(s, k), k) == s && LineB(UnlineB(s, k), k) == s
    ensures UnlineC(LineC(s, k), k) == s && LineC(UnlineC(s, k), k) == s
  {
    LineBack(s.a, s.b, s.c, k);
    LineBack(s.b, s.c, s.a, k);
    LineBack(s.c, s.a, s.b, k);
  }

  /** `mix` is a bijection on the three words. */
  lemma MixIsReversible(s: State)
    ensures Unmix(Mix(s)) == s && Mix(Unmix(s)) == s
  {
    var s1 := LineA(s, 4);
    var s2 := LineB(s1, 6);
    var s3 := LineC(s2, 8);
    var s4 := LineA(s3, 16);
    var s5 := LineB(s4, 19);
    LinesBack(s, 4);
    LinesBack(s1, 6);
    LinesBack(s2, 8);
    LinesBack(s3, 16);
    LinesBack(s4, 19);
    LinesBack(s5, 4);
    var t1 := UnlineC(s, 4);
    var t2 := UnlineB(t1, 19);
    var t3 := UnlineA(t2, 16);
    var t4 := UnlineC(t3, 8);
    var t5 := UnlineB(t4, 6);
    LinesBack(t1, 19);
    LinesBack(t2, 16);
    LinesBack(t3, 8);
    LinesBack(t4, 6);
    LinesBack(t5, 4);
  }

  // ----- final, and the hash value as a function of the key alone

  /** A line of `final`: `x ^= y; x -= rot(y, k)`. */
  function FinalLine(x: word, y: word, k: nat): word
    requires k <= 32
  {
    Sub(Xor(x, y), Rot(y, k))
  }

  function FinalC(s: State, k: nat): State
    requires k <= 32
  {
    s.(c := FinalLine(s.c, s.b, k))
  }

  function FinalA(s: State, k: nat): State
    requires k <= 32
  {
    s.(a := FinalLine(s.a, s.c, k))
  }

  function FinalB(s: State, k: nat): State
    requires k <= 32
  {
    s.(b := FinalLine(s.b, s.a, k))
  }

  /** All that `final` does to the three words. */
  function Finished(s: State): State {
    FinalC(FinalB(FinalA(FinalC(FinalB(FinalA(FinalC(s, 14), 11), 25), 16), 4), 14), 24)
  }

  /** The hash value is the third of them. */
  function Final(s: State): word {
    Finished(s).c
  }

  /** A line read from its end: `x += rot(y, k); x ^= y`. */
  function UnfinalLine(x: word, y: word, k: nat): word
    requires k <= 32
  {
    Xor(Add(x, Rot(y, k)), y)
  }

  function Unfinished(s: State): State {
    var s := s.(c := UnfinalLine(s.c, s.b, 24));
    var s := s.(b := UnfinalLine(s.b, s.a, 14));
    var s := s.(a := UnfinalLine(s.a, s.c, 4));
    var s := s.(c := UnfinalLine(s.c, s.b, 16));
    var s := s.(b := UnfinalLine(s.b, s.a, 25));
    var s := s.(a := UnfinalLine(s.a, s.c, 11));
    s.(c := UnfinalLine(s.c, s.b, 14))
  }

  lemma FinalLineBack(x: word, y: word, k: nat)
    requires k <= 32
    ensures UnfinalLine(FinalLine(x, y, k), y, k) == x && FinalLine(UnfinalLine(x, y, k), y, k) == x
  {
    AddBack(Xor(x, y), Rot(y, k));
    XorBack(x, y);
    AddBack(x, Rot(y, k));
    XorBack(Add(x, Rot(y, k)), y);
  }

  /** `final` is a bijection on the three words, too: of its states no two end in the same three words, and every word
      is the hash value of as many states as any other. */
  lemma FinalIsReversible(s: State)
    ensures Unfinished(Finished(s)) == s && Finished(Unfinished(s)) == s
  {
    FinalThere(s);
    FinalBack(s);
  }

  lemma FinalThere(s: State)
    ensures Unfinished(Finished(s)) == s
  {
    var s1 := FinalC(s, 14);
    var s2 := FinalA(s1, 11);
    var s3 := FinalB(s2, 25);
    var s4 := FinalC(s3, 16);
    var s5 := FinalA(s4, 4);
    var s6 := FinalB(s5, 14);
    FinalLineBack(s.c, s.b, 14);
    FinalLineBack(s1.a, s1.c, 11);
    FinalLineBack(s2.b, s2.a, 25);
    FinalLineBack(s3.c, s3.b, 16);
    FinalLineBack(s4.a, s4.c, 4);
    FinalLineBack(s5.b, s5.a, 14);
    FinalLineBack(s6.c, s6.b, 24);
  }

  lemma FinalBack(s: State)
    ensures Finished(Unfinished(s)) == s
  {
    FinalLineBack(s.c, s.b, 24);
    var s1 := s.(c := UnfinalLine(s.c, s.b, 24));
    FinalLineBack(s1.b, s1.a, 14);
    var s2 := s1.(b := UnfinalLine(s1.b, s1.a, 14));
    FinalLineBack(s2.a, s2.c, 4);
    var s3 := s2.(a := UnfinalLine(s2.a, s2.c, 4));
    FinalLineBack(s3.c, s3.b, 16);
    var s4 := s3.(c := UnfinalLine(s3.c, s3.b, 16));
    FinalLineBack(s4.b, s4.a, 25);
    var s5 := s4.(b := UnfinalLine(s4.b, s4.a, 25));
    FinalLineBack(s5.a, s5.c, 11);
    var s6 := s5.(a := UnfinalLine(s5.a, s5.c, 11));
    FinalLineBack(s6.c, s6.b, 14);
  }

  /** What happens to a block that is not the last, and to the last. That the three paths agree has nothing to do
      with how it is mixed. */
  datatype Mixer = Mixer(mix: State -> State, last: State -> word)

  function Mixing(): Mixer {
    Mixer(Mix, Final)
  }

  /** Behind its end a key counts as zeros. */
  function ByteAt(key: seq<byte>, i: nat): byte {
    if i < |key| then key[i] else 0
  }

  /** The four bytes at `i` as a little-endian word. */
  function WordAt(key: seq<byte>, i: nat): word {
    ByteAt(key, i) + 0x100 * ByteAt(key, i + 1) + 0x10000 * ByteAt(key, i + 2) + 0x1000000 * ByteAt(key, i + 3)
  }

  function HalfAt(key: seq<byte>, i: nat): half {
    ByteAt(key, i) + 0x100 * ByteAt(key, i + 1)
  }

  /** `lo + (hi << 16)`. */
  function Pair(lo: half, hi: half): word {
    lo + 0x10000 * hi
  }

  function Absorb(s: State, x: word, y: word, z: word): State {
    State(Add(s.a, x), Add(s.b, y), Add(s.c, z))
  }

  /** The block at `i`. */
  function AbsorbAt(s: State, key: seq<byte>, i: nat): State {
    Absorb(s, WordAt(key, i), WordAt(key, i + 4), WordAt(key, i + 8))
  }

  /** Blocks of twelve bytes; the last one is padded with zeros, but an empty key has none. */
  function Blocks(m: Mixer, s: State, key: seq<byte>): word
    decreases |key|
  {
    if |key| > 12 then Blocks(m, m.mix(AbsorbAt(s, key, 0)), key[12..])
    else if key == [] then s.c
    else m.last(AbsorbAt(s, key, 0))
  }

  function Start(length: nat): State {
    var w := Add(0xdeadbeef, length % WORDS);
    State(w, w, w)
  }

  function Hash(m: Mixer, key: seq<byte>): word {
    Blocks(m, Start(|key|), key)
  }

  lemma AddAdd(x: word, y: word, z: word)
    requires y + z < WORDS
    ensures Add(Add(x, y), z) == Add(x, y + z)
  {
  }

  /** Reading memory at a place inside the key is reading the key. */
  lemma WordInside(mem: seq<byte>, k: nat, n: nat, i: nat)
    requires k + n <= |mem| && i + 4 <= n
    ensures WordAt(mem[k..k + n], i) == WordAt(mem, k + i) == Pair(HalfAt(mem, k + i), HalfAt(mem, k + i + 2))
  {
  }

  lemma Masks(b0: byte, b1: byte, b2: byte, b3: byte)
    ensures var w := b0 + 0x100 * b1 + 0x10000 * b2 + 0x1000000 * b3;
            w % 0x1000000 == b0 + 0x100 * b1 + 0x10000 * b2 && w % 0x10000 == b0 + 0x100 * b1 && w % 0x100 == b0
  {
    var w := b0 + 0x100 * b1 + 0x10000 * b2 + 0x1000000 * b3;
    assert w == b0 + 0x100 * b1 + 0x10000 * (b2 + 0x100 * b3) == b0 + 0x100 * (b1 + 0x100 * b2 + 0x10000 * b3);
    Low24(b0 + 0x100 * b1 + 0x10000 * b2, b3);
    Low16(b0 + 0x100 * b1, b2 + 0x100 * b3);
    Low8(b0, b1 + 0x100 * b2 + 0x10000 * b3);
  }

  lemma Low24(r: nat, q: nat)
    requires r < 0x1000000
    ensures (r + 0x1000000 * q) % 0x1000000 == r
  {
  }

  lemma Low16(r: nat, q: nat)
    requires r < 0x10000
    ensures (r + 0x10000 * q) % 0x10000 == r
  {
  }

  lemma Low8(r: nat, q: nat)
    requires r < 0x100
    ensures (r + 0x100 * q) % 0x100 == r
  {
  }

  /** At the end of the key the bytes behind it have to be masked off. */
  lemma WordAtEnd(mem: seq<byte>, k: nat, n: nat, i: nat)
    requires k + n <= |mem|
    ensures var cut, w := WordAt(mem[k..k + n], i), WordAt(mem, k + i);
            && (i + 3 == n ==> cut == w % 0x1000000 == Pair(HalfAt(mem, k + i), ByteAt(mem, k + i + 2)))
            && (i + 2 == n ==> cut == w % 0x10000 == HalfAt(mem, k + i))
            && (i + 1 == n ==> cut == w % 0x100 == ByteAt(mem, k + i))
            && (i >= n ==> cut == 0)
  {
    Masks(ByteAt(mem, k + i), ByteAt(mem, k + i + 1), ByteAt(mem, k + i + 2), ByteAt(mem, k + i + 3));
  }

  /** One turn of the loop over the blocks. */
  lemma BlockStep(m: Mixer, mem: seq<byte>, k: nat, n: nat, s: State)
    requires k + n <= |mem| && n > 12
    ensures Blocks(m, s, mem[k..k + n]) == Blocks(m, m.mix(AbsorbAt(s, mem, k)), mem[k + 12..k + n])
  {
    WordInside(mem, k, n, 0);
    WordInside(mem, k, n, 4);
    WordInside(mem, k, n, 8);
    assert mem[k..k + n][12..] == mem[k + 12..k + n];
  }

  // ----- the path for a key aligned to four bytes

  /** The length up to the end of its last word, in words. */
  function Whole(length: nat): nat {
    (length + 3) / 4
  }

  /** Memory as words. */
  function WordView(mem: seq<byte>, n: nat): (k: seq<word>)
    requires 4 * n <= |mem|
  {
    seq(n, j requires 0 <= j => WordAt(mem, 4 * j))
  }

  lemma WordsStep(m: Mixer, mem: seq<byte>, k: seq<word>, j: nat, left: nat, s: State)
    requires 12 < left && j + Whole(left) == |k| && 4 * |k| <= |mem| && k == WordView(mem, |k|)
    ensures Blocks(m, s, mem[4 * j..4 * j + left])
         == Blocks(m, m.mix(Absorb(s, k[j], k[j + 1], k[j + 2])), mem[4 * (j + 3)..4 * j + left])
  {
    BlockStep(m, mem, 4 * j, left, s);
  }

  /** It reads the last word whole, so that memory has to go on to the end of that word. What is there makes no
      difference. */
  method HashWords(m: Mixer, mem: seq<byte>, length: nat) returns (h: word)
    requires length <= |mem| && 4 * Whole(length) <= |mem|
    ensures h == Hash(m, mem[..length])
  {
    var k := WordView(mem, Whole(length));
    var s, left, j := Start(length), length, 0;
    assert mem[0..length] == mem[..length];
    while left > 12
      invariant 4 * j + left == length && Blocks(m, s, mem[4 * j..length]) == Hash(m, mem[..length])
    {
      WordsStep(m, mem, k, j, left, s);
      s := m.mix(Absorb(s, k[j], k[j + 1], k[j + 2]));
      left, j := left - 12, j + 3;
    }
    CutMeans(m, mem, k, j, left, s);
    h := LastWords(m, k[j..], left, s);
  }

  /** A word of the last block without the bytes behind the key. */
  function Cut(k: seq<word>, i: nat, left: nat): word
    requires Whole(left) <= |k|
  {
    if 4 * i + 4 <= left then k[i]
    else if 4 * i + 3 == left then k[i] % 0x1000000
    else if 4 * i + 2 == left then k[i] % 0x10000
    else if 4 * i + 1 == left then k[i] % 0x100
    else 0
  }

  ghost function LastHash(m: Mixer, k: seq<word>, left: nat, s: State): word
    requires Whole(left) <= |k|
  {
    if left == 0 then s.c else m.last(Absorb(s, Cut(k, 0, left), Cut(k, 1, left), Cut(k, 2, left)))
  }

  lemma CutMeans(m: Mixer, mem: seq<byte>, k: seq<word>, j: nat, left: nat, s: State)
    requires 4 * j + left <= |mem| && left <= 12 && |k| == j + Whole(left) && 4 * |k| <= |mem| &&
             k == WordView(mem, |k|)
    ensures LastHash(m, k[j..], left, s) == Blocks(m, s, mem[4 * j..4 * j + left])
  {
    CutWord(mem, k, j, left, 0);
    CutWord(mem, k, j, left, 1);
    CutWord(mem, k, j, left, 2);
  }

  lemma CutWord(mem: seq<byte>, k: seq<word>, j: nat, left: nat, i: nat)
    requires 4 * j + left <= |mem| && |k| == j + Whole(left) && 4 * |k| <= |mem| && k == WordView(mem, |k|)
    ensures Cut(k[j..], i, left) == WordAt(mem[4 * j..4 * j + left], 4 * i)
  {
    if 4 * i + 4 <= left {
      WordInside(mem, 4 * j, left, 4 * i);
    } else {
      WordAtEnd(mem, 4 * j, left, 4 * i);
    }
  }

  method LastWords(m: Mixer, k: seq<word>, left: nat, s: State) returns (h: word)
    requires left <= 12 && Whole(left) <= |k|
    ensures h == LastHash(m, k, left, s)
  {
    var a, b, c := s.a, s.b, s.c;
    match left {
      case 12 => c, b, a := Add(c, k[2]), Add(b, k[1]), Add(a, k[0]);
      case 11 => c, b, a := Add(c, k[2] % 0x1000000), Add(b, k[1]), Add(a, k[0]);
      case 10 => c, b, a := Add(c, k[2] % 0x10000), Add(b, k[1]), Add(a, k[0]);
      case 9 => c, b, a := Add(c, k[2] % 0x100), Add(b, k[1]), Add(a, k[0]);
      case 8 => b, a := Add(b, k[1]), Add(a, k[0]);
      case 7 => b, a := Add(b, k[1] % 0x1000000), Add(a, k[0]);
      case 6 => b, a := Add(b, k[1] % 0x10000), Add(a, k[0]);
      case 5 => b, a := Add(b, k[1] % 0x100), Add(a, k[0]);
      case 4 => a := Add(a, k[0]);
      case 3 => a := Add(a, k[0] % 0x1000000);
      case 2 => a := Add(a, k[0] % 0x10000);
      case 1 => a := Add(a, k[0] % 0x100);
      case _ => return c;
    }
    h := m.last(State(a, b, c));
  }

  // ----- the path for a key aligned to two bytes

  /** Memory as halves of words. */
  function HalfView(mem: seq<byte>, n: nat): (k: seq<half>)
    requires 2 * n <= |mem|
  {
    seq(n, j requires 0 <= j => HalfAt(mem, 2 * j))
  }

  method HashHalves(m: Mixer, mem: seq<byte>, length: nat) returns (h: word)
    requires length <= |mem|
    ensures h == Hash(m, mem[..length])
  {
    var k := HalfView(mem, length / 2);
    var s, left, j := Start(length), length, 0;
    assert mem[0..length] == mem[..length];
    while left > 12
      invariant 2 * j + left == length && Blocks(m, s, mem[2 * j..length]) == Hash(m, mem[..length])
    {
      HalvesStep(m, mem, k, j, left, s);
      s := m.mix(Absorb(s, Pair(k[j], k[j + 1]), Pair(k[j + 2], k[j + 3]), Pair(k[j + 4], k[j + 5])));
      left, j := left - 12, j + 6;
    }
    PiecesMean(m, mem, k, j, left, s);
    h := LastHalves(m, k[j..], mem[2 * j..length], left, s);
  }

  lemma HalvesMeet(mem: seq<byte>, k: seq<half>, j: nat)
    requires 2 * |k| <= |mem| && k == HalfView(mem, |k|) && j + 1 < |k|
    ensures Pair(k[j], k[j + 1]) == WordAt(mem, 2 * j)
  {
  }

  lemma HalvesStep(m: Mixer, mem: seq<byte>, k: seq<half>, j: nat, left: nat, s: State)
    requires 12 < left && 2 * j + left <= |mem| && j + left / 2 == |k| && k == HalfView(mem, |k|)
    ensures Blocks(m, s, mem[2 * j..2 * j + left])
         == Blocks(m, m.mix(Absorb(s, Pair(k[j], k[j + 1]), Pair(k[j + 2], k[j + 3]), Pair(k[j + 4], k[j + 5]))),
                   mem[2 * (j + 6)..2 * j + left])
  {
    var i := 2 * j;
    BlockStep(m, mem, i, left, s);
    HalvesMeet(mem, k, j);
    HalvesMeet(mem, k, j + 2);
    HalvesMeet(mem, k, j + 4);
    assert AbsorbAt(s, mem, i) == Absorb(s, Pair(k[j], k[j + 1]), Pair(k[j + 2], k[j + 3]), Pair(k[j + 4], k[j + 5]));
  }

  /** A word of the last block put together from halves and a byte. */
  function Piece(k: seq<half>, k8: seq<byte>, i: nat, left: nat): word
    requires left <= |k8| && left / 2 <= |k|
  {
    if 4 * i + 4 <= left then Pair(k[2 * i], k[2 * i + 1])
    else if 4 * i + 3 == left then Pair(k[2 * i], k8[4 * i + 2])
    else if 4 * i + 2 == left then k[2 * i]
    else if 4 * i + 1 == left then k8[4 * i]
    else 0
  }

  ghost function PiecesHash(m: Mixer, k: seq<half>, k8: seq<byte>, left: nat, s: State): word
    requires left <= |k8| && left / 2 <= |k|
  {
    if left == 0 then s.c else m.last(Absorb(s, Piece(k, k8, 0, left), Piece(k, k8, 1, left), Piece(k, k8, 2, left)))
  }

  lemma PiecesMean(m: Mixer, mem: seq<byte>, k: seq<half>, j: nat, left: nat, s: State)
    requires 2 * j + left <= |mem| && left <= 12 && |k| == j + left / 2 && k == HalfView(mem, |k|)
    ensures PiecesHash(m, k[j..], mem[2 * j..2 * j + left], left, s) == Blocks(m, s, mem[2 * j..2 * j + left])
  {
    PieceWord(mem, k, j, left, 0);
    PieceWord(mem, k, j, left, 1);
    PieceWord(mem, k, j, left, 2);
  }

  lemma PieceWord(mem: seq<byte>, k: seq<half>, j: nat, left: nat, i: nat)
    requires 2 * j + left <= |mem| && |k| == j + left / 2 && k == HalfView(mem, |k|)
    ensures var k8 := mem[2 * j..2 * j + left]; Piece(k[j..], k8, i, left) == WordAt(k8, 4 * i)
  {
    if 4 * i + 4 <= left {
      WordInside(mem, 2 * j, left, 4 * i);
    } else {
      WordAtEnd(mem, 2 * j, left, 4 * i);
    }
  }

  method LastHalves(m: Mixer, k: seq<half>, k8: seq<byte>, left: nat, s: State) returns (h: word)
    requires left <= 12 && left <= |k8| && left / 2 <= |k|
    ensures h == PiecesHash(m, k, k8, left, s)
  {
    var a, b, c := s.a, s.b, s.c;
    match left {
      case 12 =>
        c, b, a := Add(c, Pair(k[4], k[5])), Add(b, Pair(k[2], k[3])), Add(a, Pair(k[0], k[1]));
      case 11 =>
        AddAdd(c, Pair(0, k8[10]), k[4]);
        c := Add(c, Pair(0, k8[10]));
        c, b, a := Add(c, k[4]), Add(b, Pair(k[2], k[3])), Add(a, Pair(k[0], k[1]));
      case 10 =>
        c, b, a := Add(c, k[4]), Add(b, Pair(k[2], k[3])), Add(a, Pair(k[0], k[1]));
      case 9 =>
        c := Add(c, k8[8]);
        b, a := Add(b, Pair(k[2], k[3])), Add(a, Pair(k[0], k[1]));
      case 8 =>
        b, a := Add(b, Pair(k[2], k[3])), Add(a, Pair(k[0], k[1]));
      case 7 =>
        AddAdd(b, Pair(0, k8[6]), k[2]);
        b := Add(b, Pair(0, k8[6]));
        b, a := Add(b, k[2]), Add(a, Pair(k[0], k[1]));
      case 6 =>
        b, a := Add(b, k[2]), Add(a, Pair(k[0], k[1]));
      case 5 =>
        b := Add(b, k8[4]);
        a := Add(a, Pair(k[0], k[1]));
      case 4 =>
        a := Add(a, Pair(k[0], k[1]));
      case 3 =>
        AddAdd(a, Pair(0, k8[2]), k[0]);
        a := Add(a, Pair(0, k8[2]));
        a := Add(a, k[0]);
      case 2 => a := Add(a, k[0]);
      case 1 => a := Add(a, k8[0]);
      case _ => return c;
    }
    h := m.last(State(a, b, c));
  }

  // ----- one byte at a time

  method HashBytes(m: Mixer, mem: seq<byte>, length: nat) returns (h: word)
    requires length <= |mem|
    ensures h == Hash(m, mem[..length])
  {
    var s, left, k := Start(length), length, 0;
    assert mem[0..length] == mem[..length];
    while left > 12
      invariant k + left == length && Blocks(m, s, mem[k..length]) == Hash(m, mem[..length])
    {
      BlockStep(m, mem, k, left, s);
      var a := AddUp(s.a, mem, k);
      var b := AddUp(s.b, mem, k + 4);
      var c := AddUp(s.c, mem, k + 8);
      s := m.mix(State(a, b, c));
      left, k := left - 12, k + 12;
    }
    h := LastBytes(m, mem[k..length], s);
  }

  /** Four bytes are added to a word one after the other, the low one first. */
  method AddUp(x: word, mem: seq<byte>, k: nat) returns (r: word)
    requires k + 4 <= |mem|
    ensures r == Add(x, WordAt(mem, k))
  {
    r := Add(x, mem[k]);
    r := Add(r, 0x100 * mem[k + 1] as nat);
    r := Add(r, 0x10000 * mem[k + 2] as nat);
    r := Add(r, 0x1000000 * mem[k + 3] as nat);
  }

  /** Where the switch falls through: as many of the four bytes as there are, the high one first. */
  method AddDown(x: word, key: seq<byte>, k: nat) returns (r: word)
    ensures r == Add(x, WordAt(key, k))
  {
    r := x;
    if |key| >= k + 4 {
      r := Add(r, 0x1000000 * key[k + 3] as nat);
    }
    if |key| >= k + 3 {
      r := Add(r, 0x10000 * key[k + 2] as nat);
    }
    if |key| >= k + 2 {
      r := Add(r, 0x100 * key[k + 1] as nat);
    }
    if |key| >= k + 1 {
      r := Add(r, key[k]);
    }
  }

  method LastBytes(m: Mixer, key: seq<byte>, s: State) returns (h: word)
    requires |key| <= 12
    ensures h == Blocks(m, s, key)
  {
    if key == [] {
      return s.c;
    }
    var c := AddDown(s.c, key, 8);
    var b := AddDown(s.b, key, 4);
    var a := AddDown(s.a, key, 0);
    h := m.last(State(a, b, c));
  }

  // ----- the three paths agree

  /** `jenkins_hash`: the path goes by the address of the key, but the value by its bytes alone. Memory goes on to
      the end of the last word of an aligned key. */
  method JenkinsHash(mem: seq<byte>, length: nat, address: nat) returns (h: word)
    requires length <= |mem| && (address % 4 == 0 ==> 4 * Whole(length) <= |mem|)
    ensures h == Hash(Mixing(), mem[..length])
  {
    if address % 4 == 0 {
      h := HashWords(Mixing(), mem, length);
    } else if address % 2 == 0 {
      h := HashHalves(Mixing(), mem, length);
    } else {
      h := HashBytes(Mixing(), mem, length);
    }
  }

  // ----- nothing is lost before final

  ghost predicate Reversible(m: Mixer) {
    forall s, t {:trigger m.mix(s), m.mix(t)} :: m.mix(s) == m.mix(t) ==> s == t
  }

  lemma MixingIsReversible()
    ensures Reversible(Mixing())
  {
    forall s, t | Mix(s) == Mix(t) ensures s == t {
      MixIsReversible(s);
      MixIsReversible(t);
    }
  }

  /** The state that `final` gets. */
  function BeforeFinal(m: Mixer, s: State, key: seq<byte>): State
    decreases |key|
  {
    if |key| > 12 then BeforeFinal(m, m.mix(AbsorbAt(s, key, 0)), key[12..]) else AbsorbAt(s, key, 0)
  }

  lemma {:induction false} HashIsFinal(m: Mixer, s: State, key: seq<byte>)
    requires key != []
    ensures Blocks(m, s, key) == m.last(BeforeFinal(m, s, key))
    decreases |key|
  {
    if |key| > 12 {
      HashIsFinal(m, m.mix(AbsorbAt(s, key, 0)), key[12..]);
    }
  }

  /** So the hash value of a key is the third word of a state, all three words of which together say which state
      `final` got. */
  lemma HashIsThird(key: seq<byte>)
    requires key != []
    ensures var s := BeforeFinal(Mixing(), Start(|key|), key);
            && Hash(Mixing(), key) == Finished(s).c
            && forall t {:trigger Finished(t)} :: Finished(t) == Finished(s) ==> t == s
  {
    var s := BeforeFinal(Mixing(), Start(|key|), key);
    HashIsFinal(Mixing(), Start(|key|), key);
    forall t | Finished(t) == Finished(s) ensures t == s {
      FinalIsReversible(s);
      FinalIsReversible(t);
    }
  }

  lemma AbsorbApart(s: State, t: State, key: seq<byte>)
    requires s != t
    ensures AbsorbAt(s, key, 0) != AbsorbAt(t, key, 0)
  {
  }

  /** Different states stay different, whatever blocks follow. */
  lemma {:induction false} StatesStayApart(m: Mixer, s: State, t: State, key: seq<byte>)
    requires Reversible(m) && s != t
    ensures BeforeFinal(m, s, key) != BeforeFinal(m, t, key)
    decreases |key|
  {
    AbsorbApart(s, t, key);
    if |key| > 12 {
      var u, v := AbsorbAt(s, key, 0), AbsorbAt(t, key, 0);
      StatesStayApart(m, m.mix(u), m.mix(v), key[12..]);
    }
  }

  /** A word holds its four bytes. */
  lemma WordsApart(x: seq<byte>, y: seq<byte>, k: nat)
    requires WordAt(x, k) == WordAt(y, k)
    ensures forall i :: k <= i < k + 4 ==> ByteAt(x, i) == ByteAt(y, i)
  {
    Masks(ByteAt(x, k), ByteAt(x, k + 1), ByteAt(x, k + 2), ByteAt(x, k + 3));
    Masks(ByteAt(y, k), ByteAt(y, k + 1), ByteAt(y, k + 2), ByteAt(y, k + 3));
  }

  lemma BlocksApart(s: State, x: seq<byte>, y: seq<byte>, i: nat)
    requires i < 12 && ByteAt(x, i) != ByteAt(y, i)
    ensures AbsorbAt(s, x, 0) != AbsorbAt(s, y, 0)
  {
    if AbsorbAt(s, x, 0) == AbsorbAt(s, y, 0) {
      WordsApart(x, y, 0);
      WordsApart(x, y, 4);
      WordsApart(x, y, 8);
    }
  }

  /** Two keys of the same length that differ in one block never meet before `final`. */
  lemma {:induction false} OneBlockChanged(m: Mixer, s: State, pre: seq<byte>, x: seq<byte>, y: seq<byte>,
                                           post: seq<byte>)
    requires Reversible(m) && |pre| % 12 == 0 && x != y && |x| == |y| <= 12 && (post != [] ==> |x| == 12)
    ensures BeforeFinal(m, s, pre + x + post) != BeforeFinal(m, s, pre + y + post)
    decreases |pre|
  {
    if pre == [] {
      assert pre + x == x && pre + y == y;
      FirstBlockChanged(m, s, x, y, post);
    } else {
      LaterBlocks(m, s, pre, x, post);
      LaterBlocks(m, s, pre, y, post);
      OneBlockChanged(m, m.mix(AbsorbAt(s, pre, 0)), pre[12..], x, y, post);
    }
  }

  lemma FirstBlockChanged(m: Mixer, s: State, x: seq<byte>, y: seq<byte>, post: seq<byte>)
    requires Reversible(m) && x != y && |x| == |y| <= 12 && (post != [] ==> |x| == 12)
    ensures BeforeFinal(m, s, x + post) != BeforeFinal(m, s, y + post)
  {
    var i :| 0 <= i < |x| && x[i] != y[i];
    var p, q := x + post, y + post;
    assert p[i] == x[i] && q[i] == y[i];
    BlocksApart(s, p, q, i);
    if post != [] {
      assert p[12..] == post && q[12..] == post;
      StatesStayApart(m, m.mix(AbsorbAt(s, p, 0)), m.mix(AbsorbAt(s, q, 0)), post);
    }
  }

  lemma LaterBlocks(m: Mixer, s: State, pre: seq<byte>, x: seq<byte>, post: seq<byte>)
    requires |pre| >= 12 && |pre + x + post| > 12
    ensures BeforeFinal(m, s, pre + x + post) == BeforeFinal(m, m.mix(AbsorbAt(s, pre, 0)), pre[12..] + x + post)
  {
    var p := pre + x + post;
    assert p == pre + (x + post);
    SameBlock(s, pre, x + post);
    assert p[12..] == pre[12..] + x + post;
  }

  lemma SameBlock(s: State, pre: seq<byte>, u: seq<byte>)
    requires |pre| >= 12
    ensures AbsorbAt(s, pre + u, 0) == AbsorbAt(s, pre, 0)
  {
  }
}
