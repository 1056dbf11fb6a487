/** The query of a URL as a list of name/value entries, and
    `URLSearchParams.set` as the WHATWG URL Standard defines it: if the list
    holds entries with the name, the first one takes the new value and the
    others are removed; otherwise a new entry is appended. */
module SearchParams {
  import opened Js

  datatype Param = Param(name: string, value: string)

  /** Number of entries with the given name. */
  function Count(q: seq<Param>, n: string): nat
    decreases |q|
  {
    if |q| == 0 then 0 else (if q[0].name == n then 1 else 0) + Count(q[1..], n)
  }

  /** `params.get(n)`: the value of the first entry with the name. */
  function Get(q: seq<Param>, n: string): Option<string>
    decreases |q|
  {
    if |q| == 0 then None else if q[0].name == n then Some(q[0].value) else Get(q[1..], n)
  }

  /** The entries whose name is not `n`, in order. */
  function Others(q: seq<Param>, n: string): (r: seq<Param>)
    ensures Count(r, n) == 0
    decreases |q|
  {
    if |q| == 0 then [] else if q[0].name == n then Others(q[1..], n) else [q[0]] + Others(q[1..], n)
  }

  /** Position of the first entry with the name, if any. */
  function FirstIndex(q: seq<Param>, n: string): (r: Option<nat>)
    ensures r.Some? ==> r.value < |q| && q[r.value].name == n
    ensures r.None? <==> Count(q, n) == 0
    decreases |q|
  {
    if |q| == 0 then None
    else if q[0].name == n then Some(0)
    else match FirstIndex(q[1..], n)
      case None => None
      case Some(i) => Some(i + 1)
  }

  lemma {:induction false} OthersOfAbsent(q: seq<Param>, n: string)
    requires Count(q, n) == 0
    ensures Others(q, n) == q
    decreases |q|
  {
    if |q| > 0 {
      OthersOfAbsent(q[1..], n);
      assert q == [q[0]] + q[1..];
    }
  }

  lemma {:induction false} CountAppend(a: seq<Param>, b: seq<Param>, n: string)
    ensures Count(a + b, n) == Count(a, n) + Count(b, n)
    decreases |a|
  {
    if |a| > 0 {
      assert (a + b)[1..] == a[1..] + b;
      CountAppend(a[1..], b, n);
    } else {
      assert a + b == b;
    }
  }

  lemma {:induction false} OthersAppend(a: seq<Param>, b: seq<Param>, n: string)
    ensures Others(a + b, n) == Others(a, n) + Others(b, n)
    decreases |a|
  {
    if |a| > 0 {
      assert (a + b)[1..] == a[1..] + b;
      OthersAppend(a[1..], b, n);
    } else {
      assert a + b == b;
    }
  }

  lemma {:induction false} GetAppend(a: seq<Param>, b: seq<Param>, n: string)
    requires Count(a, n) == 0
    ensures Get(a + b, n) == Get(b, n)
    decreases |a|
  {
    if |a| > 0 {
      assert (a + b)[1..] == a[1..] + b;
      GetAppend(a[1..], b, n);
    } else {
      assert a + b == b;
    }
  }

  /** The list with its first `n` entry holding `v` and later `n` entries dropped. */
  function ReplaceFirst(q: seq<Param>, n: string, v: string): (r: seq<Param>)
    requires Count(q, n) > 0
    ensures Count(r, n) == 1
    ensures Get(r, n) == Some(v)
    ensures Others(r, n) == Others(q, n)
    ensures FirstIndex(r, n) == FirstIndex(q, n)
    decreases |q|
  {
    if q[0].name == n then
      var rest := Others(q[1..], n);
      OthersOfAbsent(rest, n);
      assert ([Param(n, v)] + rest)[1..] == rest;
      [Param(n, v)] + rest
    else [q[0]] + ReplaceFirst(q[1..], n, v)
  }

  /** `params.set(n, v)`. Afterwards exactly one entry is named `n`, it holds
      `v`, every other entry is kept in order, an existing name keeps the
      position of its first entry, and a new name goes at the end. */
  function Set(q: seq<Param>, n: string, v: string): (r: seq<Param>)
    ensures Count(r, n) == 1
    ensures Get(r, n) == Some(v)
    ensures Others(r, n) == Others(q, n)
    ensures Count(q, n) > 0 ==> FirstIndex(r, n) == FirstIndex(q, n)
    ensures Count(q, n) == 0 ==> r == q + [Param(n, v)]
  {
    if Count(q, n) == 0 then
      CountAppend(q, [Param(n, v)], n);
      OthersAppend(q, [Param(n, v)], n);
      OthersOfAbsent(q, n);
      GetAppend(q, [Param(n, v)], n);
      q + [Param(n, v)]
    else
      ReplaceFirst(q, n, v)
  }

  lemma {:induction false} CountOthers(q: seq<Param>, n: string, m: string)
    requires n != m
    ensures Count(Others(q, n), m) == Count(q, m)
    ensures Get(Others(q, n), m) == Get(q, m)
    decreases |q|
  {
    if |q| > 0 {
      CountOthers(q[1..], n, m);
    }
  }

  /** Setting one name leaves the entries of every other name as they were. */
  lemma SetKeepsOtherNames(q: seq<Param>, n: string, v: string, m: string)
    requires n != m
    ensures Count(Set(q, n, v), m) == Count(q, m)
    ensures Get(Set(q, n, v), m) == Get(q, m)
  {
    var r := Set(q, n, v);
    CountOthers(r, n, m);
    CountOthers(q, n, m);
  }

  /** Setting a name twice to the same value is setting it once. */
  lemma SetIdempotent(q: seq<Param>, n: string, v: string)
    ensures Set(Set(q, n, v), n, v) == Set(q, n, v)
  {
    var r := Set(q, n, v);
    var rr := Set(r, n, v);
    EntriesDetermined(rr, r, n);
  }

  /** Two lists with a single `n` entry at the same position, the same value for
      it and the same other entries are equal. */
  lemma {:induction false} EntriesDetermined(a: seq<Param>, b: seq<Param>, n: string)
    requires Count(a, n) == 1 && Count(b, n) == 1
    requires Get(a, n) == Get(b, n)
    requires Others(a, n) == Others(b, n)
    requires FirstIndex(a, n) == FirstIndex(b, n)
    ensures a == b
    decreases |a|
  {
    assert |a| > 0 && |b| > 0;
    if a[0].name == n {
      OthersOfAbsent(a[1..], n);
      OthersOfAbsent(b[1..], n);
      assert a == [a[0]] + a[1..];
      assert b == [b[0]] + b[1..];
    } else {
      assert b[0].name != n;
      assert a[0] == Others(a, n)[0] == Others(b, n)[0] == b[0];
      assert Others(a[1..], n) == Others(a, n)[1..];
      assert Others(b[1..], n) == Others(b, n)[1..];
      EntriesDetermined(a[1..], b[1..], n);
      assert a == [a[0]] + a[1..];
      assert b == [b[0]] + b[1..];
    }
  }
}
