/** Small value-level vocabulary and arithmetic shared by the models. */
module Basics {

  datatype Option<+T> = None | Some(value: T)

  function Min(a: int, b: int): int { if a < b then a else b }

  function Max(a: int, b: int): int { if a < b then b else a }

  /** Each of 0 .. n-1 once. */
  ghost function Upto(n: nat): multiset<nat> {
    if n == 0 then multiset{} else Upto(n - 1) + multiset{n - 1}
  }

  lemma UptoAt(n: nat, x: nat)
    ensures Upto(n)[x] == if x < n then 1 else 0
  {
  }

  /** How many answers in a run of publish attempts are acceptances. */
  ghost function CountTrue(answers: seq<bool>): (n: nat)
    ensures n <= |answers|
  {
    if answers == [] then 0 else (if answers[0] then 1 else 0) + CountTrue(answers[1..])
  }

  lemma {:induction false} CountTrueSplit(answers: seq<bool>, k: nat)
    requires k <= |answers|
    ensures CountTrue(answers) == CountTrue(answers[..k]) + CountTrue(answers[k..])
  {
    if k == 0 {
      assert answers[k..] == answers;
    } else {
      CountTrueSplit(answers[1..], k - 1);
      CutTwice(answers, k);
    }
  }

  lemma CutTwice<T>(s: seq<T>, k: nat)
    requires 0 < k <= |s|
    ensures s[1..][..k - 1] == s[..k][1..] && s[1..][k - 1..] == s[k..]
  {
  }

  lemma CountTrueHit(answers: seq<bool>, i: nat)
    requires i < |answers| && answers[i]
    ensures CountTrue(answers) >= 1
  {
    if i > 0 {
      CountTrueHit(answers[1..], i - 1);
    }
  }

  /** The elements of `s` that are not in `gone`, in order. */
  ghost function Without(s: seq<nat>, gone: seq<nat>): seq<nat> {
    if s == [] then [] else (if s[0] in gone then [] else [s[0]]) + Without(s[1..], gone)
  }

  lemma WithoutAppend(s: seq<nat>, t: seq<nat>, gone: seq<nat>)
    ensures Without(s + t, gone) == Without(s, gone) + Without(t, gone)
  {
    if s == [] {
      assert s + t == t;
    } else {
      assert (s + t)[1..] == s[1..] + t;
      WithoutAppend(s[1..], t, gone);
    }
  }

  lemma WithoutTwice(s: seq<nat>, first: seq<nat>, second: seq<nat>)
    ensures Without(s, first + second) == Without(Without(s, first), second)
  {
    if s != [] {
      WithoutTwice(s[1..], first, second);
      var rest := Without(s[1..], first);
      if s[0] in first {
        assert Without(s, first) == rest;
      } else {
        assert Without(s, first) == [s[0]] + rest;
        assert ([s[0]] + rest)[1..] == rest;
      }
    }
  }

  lemma WithoutNothing(s: seq<nat>, gone: seq<nat>)
    requires forall x :: x in s ==> x !in gone
    ensures Without(s, gone) == s
  {
    if s != [] {
      assert s[0] in s;
      assert forall x :: x in s[1..] ==> x in s;
      WithoutNothing(s[1..], gone);
    }
  }

  lemma WithoutAll(s: seq<nat>, gone: seq<nat>)
    requires forall x :: x in s ==> x in gone
    ensures Without(s, gone) == []
  {
    if s != [] {
      assert s[0] in s;
      assert forall x :: x in s[1..] ==> x in s;
      WithoutAll(s[1..], gone);
    }
  }

  lemma SplitLast<T>(a: seq<T>, b: seq<T>)
    requires b != []
    ensures b == b[..|b| - 1] + [b[|b| - 1]]
    ensures a + b == (a + b[..|b| - 1]) + [b[|b| - 1]]
  {
  }

  lemma ConcatAssociates<T>(a: seq<T>, b: seq<T>, c: seq<T>)
    ensures (a + b) + c == a + (b + c)
  {
  }

  lemma PlusAssociates(x: multiset<nat>, y: multiset<nat>, z: multiset<nat>)
    ensures (x + y) + z == x + (y + z)
  {
  }

  /** All the parts together. */
  ghost function Union(parts: seq<multiset<nat>>): multiset<nat> {
    if parts == [] then multiset{} else Union(parts[..|parts| - 1]) + parts[|parts| - 1]
  }

  lemma {:induction false} UnionUpdate(parts: seq<multiset<nat>>, i: nat, part: multiset<nat>)
    requires i < |parts|
    ensures Union(parts[i := part]) + parts[i] == Union(parts) + part
  {
    var k := |parts| - 1;
    if i < k {
      UnionUpdate(parts[..k], i, part);
      assert parts[i := part][..k] == parts[..k][i := part];
      var before, after := Union(parts[..k]), Union(parts[..k][i := part]);
      assert parts[..k][i] == parts[i];
      assert after + parts[i] == before + part;
      assert Union(parts[i := part]) == after + parts[k];
      assert Union(parts) == before + parts[k];
      forall x
        ensures (after + parts[k] + parts[i])[x] == (before + parts[k] + part)[x]
      {
        assert (after + parts[i])[x] == (before + part)[x];
      }
    } else {
      assert parts[i := part][..k] == parts[..k];
      assert Union(parts[i := part]) == Union(parts[..k]) + part;
    }
  }

  lemma {:induction false} UnionEmpty(parts: seq<multiset<nat>>)
    requires forall i :: 0 <= i < |parts| ==> parts[i] == multiset{}
    ensures Union(parts) == multiset{}
  {
    if parts != [] {
      UnionEmpty(parts[..|parts| - 1]);
    }
  }

  // ----- remainders -----------------------------------------------------------

  lemma ModWrap(x: nat, r: nat, n: nat)
    requires r < n && (x == r || x == r + n)
    ensures x % n == r
  {
    if x == r + n {
      ModShift(r, n);
    }
  }

  lemma ModShift(x: nat, n: nat)
    requires 0 < n
    ensures (x + n) % n == x % n
  {
    var q, r := x / n, x % n;
    assert x + n == (q + 1) * n + r by {
      assert x == q * n + r;
      assert (q + 1) * n == q * n + n;
    }
    ModUnique(x + n, q + 1, r, n);
  }

  lemma ModSmall(x: nat, n: nat)
    requires x < n
    ensures x % n == x
  {
  }

  lemma AtLeastOneMultiple(d: int, n: nat)
    requires d != 0
    ensures d * n >= n || d * n + n <= 0
  {
  }

  lemma ModUnique(x: nat, q: nat, r: nat, n: nat)
    requires r < n && x == q * n + r
    ensures x % n == r && x / n == q
  {
    var d := q - x / n;
    assert x == (x / n) * n + x % n;
    assert d * n == q * n - (x / n) * n;
    if d != 0 {
      AtLeastOneMultiple(d, n);
    }
  }

  lemma ModPlus(x: nat, i: nat, n: nat)
    requires 0 < n
    ensures (x % n + i) % n == (x + i) % n
  {
    var q, r := x / n, x % n;
    var q', r' := (r + i) / n, (r + i) % n;
    assert x == q * n + r;
    assert r + i == q' * n + r';
    assert (q + q') * n == q * n + q' * n;
    ModUnique(x + i, q + q', r', n);
  }

  /** Two numbers less than n apart leave different remainders. */
  lemma ModDistinct(a: nat, b: nat, n: nat)
    requires a < b < a + n
    ensures a % n != b % n
  {
    var q, r := a / n, a % n;
    assert a == q * n + r;
    if r + (b - a) < n {
      ModUnique(b, q, r + (b - a), n);
    } else {
      assert (q + 1) * n == q * n + n;
      ModUnique(b, q + 1, r + (b - a) - n, n);
    }
  }

  lemma NextDivMod(x: nat, n: nat)
    requires 0 < n
    ensures (x + 1) % n == if x % n + 1 < n then x % n + 1 else 0
    ensures (x + 1) / n == if x % n + 1 < n then x / n else x / n + 1
  {
    var q, r := x / n, x % n;
    assert x == q * n + r;
    if r + 1 < n {
      ModUnique(x + 1, q, r + 1, n);
    } else {
      assert (q + 1) * n == q * n + n;
      ModUnique(x + 1, q + 1, 0, n);
    }
  }
}
