/** Vocabulary shared by the models: C addresses, byte strings and facts about sequences. */
module Common {

  /** The address of a C object; `NULL` is the null pointer. */
  type Ptr = nat
  const NULL: Ptr := 0

  newtype byte = x: int | 0 <= x < 256
  type Bytes = seq<byte>
  type Key = string

  datatype Option<T> = None | Some(value: T)

  /** Seconds after which another access updates an item's time. */
  const ITEM_UPDATE_INTERVAL: nat := 60

  /** Subtraction of 32-bit unsigned times. */
  function Sub32(a: nat, b: nat): int {
    if a >= b then a - b else 0x1_0000_0000 + a - b
  }

  predicate NoDup<T(==)>(s: seq<T>) {
    forall i, j | 0 <= i < j < |s| :: s[i] != s[j]
  }

  lemma {:induction false} FitsBelow(s: seq<nat>, n: nat)
    requires NoDup(s) && forall i | 0 <= i < |s| :: s[i] < n
    ensures |s| <= n
  {
    var first := if s == [] then 0 else s[0];
    if n == 0 {
    } else if k: nat :| k < |s| && s[k] == n - 1 {
      var t := Cut(s, k);
      forall i | 0 <= i < |t| ensures t[i] < n - 1 { assert t[i] == s[if i < k then i else i + 1]; }
      FitsBelow(t, n - 1);
    } else {
      FitsBelow(s, n - 1);
    }
  }

  /** `s` without its first occurrence of `x`. */
  function Without<T(==)>(s: seq<T>, x: T): (r: seq<T>)
    ensures x !in s ==> r == s
    ensures x in s ==> |r| + 1 == |s|
  {
    if s == [] then []
    else if s[0] == x then s[1..]
    else [s[0]] + Without(s[1..], x)
  }

  lemma {:induction false} WithoutMembers<T>(s: seq<T>, x: T)
    requires NoDup(s)
    ensures NoDup(Without(s, x))
    ensures forall y :: y in Without(s, x) <==> y in s && y != x
  {
    if s == [] {
    } else if s[0] == x {
    } else {
      var t := s[1..];
      WithoutMembers(t, x);
      assert s == [s[0]] + t;
      forall y ensures y in Without(s, x) <==> y in s && y != x {
        assert y in s <==> y == s[0] || y in t;
      }
      assert s[0] !in t;
    }
  }

  /** `s` without its element at `k`. */
  function Cut<T>(s: seq<T>, k: nat): seq<T>
    requires k < |s|
  {
    s[..k] + s[k + 1..]
  }

  lemma CutMembers<T>(s: seq<T>, k: nat)
    requires k < |s| && NoDup(s)
    ensures NoDup(Cut(s, k)) && forall x :: x in Cut(s, k) <==> x in s && x != s[k]
  {
    var d := Cut(s, k);
    forall x ensures x in d <==> x in s && x != s[k] {
      if x in s && x != s[k] {
        var j :| 0 <= j < |s| && s[j] == x;
        assert d[if j < k then j else j - 1] == x;
      }
    }
  }

  /** `d` with `x` written over it from `at` on. */
  function Splice<T>(d: seq<T>, at: nat, x: seq<T>): (r: seq<T>)
    requires at + |x| <= |d|
    ensures |r| == |d|
  {
    d[..at] + x + d[at + |x|..]
  }

  lemma SpliceApart<T>(d: seq<T>, at: nat, x: seq<T>, lo: nat, hi: nat)
    requires at + |x| <= |d| && lo <= hi <= |d| && (hi <= at || at + |x| <= lo)
    ensures Splice(d, at, x)[lo..hi] == d[lo..hi]
  {
  }

  lemma SubSlice<T>(s: seq<T>, lo: nat, hi: nat, i: nat, j: nat)
    requires lo <= hi <= |s| && i <= j <= hi - lo
    ensures s[lo..hi][i..j] == s[lo + i..lo + j]
  {
    var x, y := s[lo..hi][i..j], s[lo + i..lo + j];
    forall k: nat | k < |x| ensures x[k] == y[k] { assert s[lo..hi][i + k] == s[lo + i + k]; }
  }

  /** `n` times `f`. */
  function Iterate<T>(f: T -> T, x: T, n: nat): T
    decreases n
  {
    if n == 0 then x else Iterate(f, f(x), n - 1)
  }

  lemma {:induction false} IterateAdd<T>(f: T -> T, x: T, m: nat, n: nat)
    ensures Iterate(f, x, m + n) == Iterate(f, Iterate(f, x, m), n)
    decreases m
  {
    if m > 0 { IterateAdd(f, f(x), m - 1, n); }
  }

  function Zeros(n: nat): (r: Bytes) {
    seq(n, i => 0 as byte)
  }

  /** The concatenation of a list of sequences. */
  function Concat<T>(ss: seq<seq<T>>): seq<T> {
    if ss == [] then [] else ss[0] + Concat(ss[1..])
  }

  lemma {:induction false} ConcatSplit<T>(a: seq<seq<T>>, b: seq<seq<T>>)
    ensures Concat(a + b) == Concat(a) + Concat(b)
  {
    if a == [] {
      assert a + b == b;
    } else {
      assert (a + b)[1..] == a[1..] + b;
      ConcatSplit(a[1..], b);
    }
  }

  lemma ConcatSnoc<T>(a: seq<seq<T>>, x: seq<T>)
    ensures Concat(a + [x]) == Concat(a) + x
  {
    ConcatSplit(a, [x]);
    assert Concat([x]) == x + Concat([]);
  }
}
