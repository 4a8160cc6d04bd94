/** Small shared vocabulary: an option type, C++ integer conversions, std::clamp
    and std::string::find as used throughout the renderer. */
module Common {

  /** The Some/None type used where the source keeps a std::optional or a null pointer. */
  datatype Option<+T> = None | Some(value: T)

  /** A byte of host or device memory. */
  type byte = bv8

  /** 2^32: the modulus of uint32_t arithmetic. */
  const UINT32_LIMIT: nat := 0x1_0000_0000

  /** std::numeric_limits<uint32_t>::max(). */
  const UINT32_MAX: nat := 0xFFFF_FFFF

  /** INT32_MAX: the largest value of a C++ int on the target platform. */
  const INT32_MAX: int := 0x7FFF_FFFF

  /** static_cast<uint32_t>(x): reduction modulo 2^32 (a negative int wraps). */
  function ToUint32(x: int): (r: nat)
    ensures r < UINT32_LIMIT
    ensures 0 <= x < UINT32_LIMIT ==> r == x
    ensures -(UINT32_LIMIT as int) <= x < 0 ==> r == x + UINT32_LIMIT
  {
    x % UINT32_LIMIT
  }

  /** Adding to an already wrapped uint32 value wraps like adding to the unwrapped one. */
  lemma WrapAdd(a: int, b: int)
    ensures ToUint32(ToUint32(a) + b) == ToUint32(a + b)
  {
    var q := a / UINT32_LIMIT;
    assert a == q * UINT32_LIMIT + ToUint32(a);
    ModuloShift(ToUint32(a) + b, q);
  }

  lemma {:induction false} ModuloShift(x: int, q: int)
    ensures (q * UINT32_LIMIT + x) % UINT32_LIMIT == x % UINT32_LIMIT
    decreases if q < 0 then -q else q
  {
    if q > 0 {
      ModuloShift(x, q - 1);
      assert q * UINT32_LIMIT + x == ((q - 1) * UINT32_LIMIT + x) + UINT32_LIMIT;
    } else if q < 0 {
      ModuloShift(x, q + 1);
      assert q * UINT32_LIMIT + x == ((q + 1) * UINT32_LIMIT + x) - UINT32_LIMIT;
    }
  }

  /** std::clamp(v, lo, hi); the standard leaves hi < lo undefined. */
  function Clamp(v: int, lo: int, hi: int): (r: int)
    requires lo <= hi
    ensures lo <= r <= hi
    ensures lo <= v <= hi ==> r == v
    ensures v < lo ==> r == lo
    ensures hi < v ==> r == hi
  {
    if v < lo then lo else if hi < v then hi else v
  }

  /** `sub` occurs in `s` starting at position i. */
  predicate OccursAt(s: string, sub: string, i: nat)
  {
    i + |sub| <= |s| && s[i..i + |sub|] == sub
  }

  /** s.find(sub) != std::string::npos */
  predicate Contains(s: string, sub: string)
  {
    exists i: nat :: i <= |s| && OccursAt(s, sub, i)
  }

  /** Number of occurrences of x in s. */
  function Count<T(==)>(s: seq<T>, x: T): (r: nat)
    ensures r <= |s|
    ensures r == 0 <==> x !in s
  {
    if |s| == 0 then 0 else Count(s[..|s| - 1], x) + (if s[|s| - 1] == x then 1 else 0)
  }

  /** Count agrees with multiset multiplicity. */
  lemma {:induction false} CountIsMultiplicity<T>(s: seq<T>, x: T)
    ensures Count(s, x) == multiset(s)[x]
    decreases |s|
  {
    if |s| > 0 {
      CountIsMultiplicity(s[..|s| - 1], x);
      assert s == s[..|s| - 1] + [s[|s| - 1]];
    }
  }

  lemma {:induction false} CountAppend<T>(a: seq<T>, b: seq<T>, x: T)
    ensures Count(a + b, x) == Count(a, x) + Count(b, x)
    decreases |b|
  {
    if |b| == 0 {
      assert a + b == a;
    } else {
      var b' := b[..|b| - 1];
      assert (a + b)[..|a + b| - 1] == a + b';
      CountAppend(a, b', x);
    }
  }

  /** No element occurs twice. */
  predicate Distinct<T(==)>(s: seq<T>)
  {
    forall i, j :: 0 <= i < j < |s| ==> s[i] != s[j]
  }

  /** In a list without repetitions every element occurs exactly once. */
  lemma {:induction false} CountDistinct<T>(s: seq<T>, x: T)
    requires Distinct(s)
    ensures Count(s, x) == (if x in s then 1 else 0)
    decreases |s|
  {
    if |s| > 0 {
      var init := s[..|s| - 1];
      CountDistinct(init, x);
      assert s == init + [s[|s| - 1]];
      if s[|s| - 1] == x {
        assert x !in init by {
          forall i | 0 <= i < |init| ensures init[i] != x {
            assert s[i] != s[|s| - 1];
          }
        }
      }
    }
  }
}
