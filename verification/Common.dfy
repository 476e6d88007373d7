/** Types shared by the modules of this project. */
module Common {

  type byte = x: int | 0 <= x < 256

  datatype Option<+T> = None | Some(value: T)

  /** Concatenation of a sequence of sequences, first one first. */
  function Flatten<T>(ss: seq<seq<T>>): seq<T> {
    if ss == [] then [] else ss[0] + Flatten(ss[1..])
  }

  lemma {:induction false} FlattenAppend<T>(ss: seq<seq<T>>, tt: seq<seq<T>>)
    ensures Flatten(ss + tt) == Flatten(ss) + Flatten(tt)
  {
    if ss == [] {
      assert ss + tt == tt;
    } else {
      var first, rest := ss[0], ss[1..];
      FlattenAppend(rest, tt);
      assert (ss + tt)[1..] == rest + tt;
      assert first + (Flatten(rest) + Flatten(tt)) == (first + Flatten(rest)) + Flatten(tt);
    }
  }

  lemma FlattenSnoc<T>(ss: seq<seq<T>>, t: seq<T>)
    ensures Flatten(ss + [t]) == Flatten(ss) + t
  {
    FlattenAppend(ss, [t]);
    assert Flatten([t]) == t + Flatten<T>([]);
  }

  lemma FlattenSplit<T>(ss: seq<seq<T>>, k: nat)
    requires k <= |ss|
    ensures Flatten(ss) == Flatten(ss[..k]) + Flatten(ss[k..])
  {
    FlattenAppend(ss[..k], ss[k..]);
    assert ss[..k] + ss[k..] == ss;
  }

  // ----- bucket numbers are the low bits of a hash value

  function Pow2(n: nat): (r: nat)
    ensures r > 0
  {
    if n == 0 then 1 else 2 * Pow2(n - 1)
  }

  /** The `n` low bits of `h`: `h & (2^n - 1)`. */
  function Low(h: nat, n: nat): (r: nat)
    ensures r < Pow2(n)
  {
    if n == 0 then 0 else h % 2 + 2 * Low(h / 2, n - 1)
  }

  /** Masking twice is masking by the narrower mask. */
  lemma {:induction false} LowLow(h: nat, n: nat, m: nat)
    requires m <= n
    ensures Low(Low(h, n), m) == Low(h, m)
  {
    if m > 0 {
      LowLow(h / 2, n - 1, m - 1);
    }
  }

  /** A number with at most `n` bits is its own `n` low bits. */
  lemma {:induction false} LowOfSmall(h: nat, n: nat)
    requires h < Pow2(n)
    ensures Low(h, n) == h
  {
    if n > 0 {
      LowOfSmall(h / 2, n - 1);
    }
  }
}
