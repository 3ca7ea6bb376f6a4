/** Stretches of a circular buffer. */
module NetmapCirc {

  /** An index that may have run over the end once. */
  function Wrap(i: nat, size: nat): (r: nat)
    requires i < 2 * size || i == 0
    ensures size > 0 ==> r < size
  {
    if i < size then i else i - size
  }

  /** Going on from the next place. */
  lemma WrapNext(i: nat, n: nat, size: nat)
    requires i < size && n < size
    ensures Wrap(i + 1, size) == (if i + 1 == size then 0 else i + 1) < size
    ensures Wrap(Wrap(i + 1, size) + n, size) == Wrap(i + n + 1, size)
  {
  }

  /** The n entries from the given place on. */
  ghost function Circ(s: seq<nat>, from: nat, n: nat): (c: seq<nat>)
    requires n <= |s| && (from < |s| || (from == 0 && s == []))
    ensures |c| == n
  {
    seq(n, k requires 0 <= k < n => s[Wrap(from + k, |s|)])
  }

  lemma CircAt(s: seq<nat>, from: nat, n: nat)
    requires n <= |s| && (from < |s| || (from == 0 && s == []))
    ensures forall k :: 0 <= k < n ==> Circ(s, from, n)[k] == s[Wrap(from + k, |s|)]
  {
  }

  lemma CircIndex(s: seq<nat>, from: nat, n: nat, k: nat)
    requires k < n <= |s| && from < |s|
    ensures Circ(s, from, n)[k] == s[Wrap(from + k, |s|)]
  {
  }

  lemma CircSplit(s: seq<nat>, from: nat, a: nat, b: nat)
    requires a + b <= |s| && from < |s|
    ensures Circ(s, from, a + b) == Circ(s, from, a) + Circ(s, Wrap(from + a, |s|), b)
  {
    CircAt(s, from, a + b);
    CircAt(s, from, a);
    CircAt(s, Wrap(from + a, |s|), b);
    var all, left, right := Circ(s, from, a + b), Circ(s, from, a), Circ(s, Wrap(from + a, |s|), b);
    forall k | 0 <= k < a + b
      ensures all[k] == (left + right)[k]
    {
    }
  }

  lemma CircFirst(s: seq<nat>, from: nat, n: nat)
    requires 0 < n <= |s| && from < |s|
    ensures Circ(s, from, n) == [s[from]] + Circ(s, Wrap(from + 1, |s|), n - 1)
  {
    CircSplit(s, from, 1, n - 1);
    CircAt(s, from, 1);
  }

  /** A write outside the stretch. */
  lemma CircOutside(s: seq<nat>, from: nat, n: nat, k: nat, v: nat)
    requires n <= k < |s| && from < |s|
    ensures Circ(s[Wrap(from + k, |s|) := v], from, n) == Circ(s, from, n)
  {
    CircAt(s, from, n);
    CircAt(s[Wrap(from + k, |s|) := v], from, n);
  }

  /** A write just behind the stretch. */
  lemma CircAppend(s: seq<nat>, from: nat, n: nat, v: nat)
    requires n < |s| && from < |s|
    ensures Circ(s[Wrap(from + n, |s|) := v], from, n + 1) == Circ(s, from, n) + [v]
  {
    var s' := s[Wrap(from + n, |s|) := v];
    CircSplit(s', from, n, 1);
    CircOutside(s, from, n, n, v);
    CircAt(s', Wrap(from + n, |s|), 1);
  }

  ghost predicate NoRepeat(s: seq<nat>) {
    forall i, j :: 0 <= i < j < |s| ==> s[i] != s[j]
  }
}
