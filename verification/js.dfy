/** The few JavaScript built-ins the redemption logic relies on, as pure
    functions over `seq<char>`: optional values, truthiness, `startsWith`,
    `includes`, ASCII `toLowerCase`, `split` on a one-character separator,
    out-of-range array reads and number-to-string conversion. */
module Js {

  newtype byte = x: int | 0 <= x < 256

  /** `undefined`/`null` versus a present value. */
  datatype Option<+T> = None | Some(value: T)

  /** JavaScript truthiness of an optional string: `undefined`, `null` and `""` are falsy. */
  predicate Truthy(o: Option<string>) {
    o.Some? && o.value != ""
  }

  /** `a || fallback` on an optional string. */
  function OrElse(o: Option<string>, fallback: string): string {
    if Truthy(o) then o.value else fallback
  }

  /** A template literal `${x}` of an optional string: `undefined` renders as the word itself. */
  function Render(o: Option<string>): string {
    match o
    case Some(s) => s
    case None => "undefined"
  }

  /** `s.startsWith(p)`. */
  predicate StartsWith(s: string, p: string) {
    |p| <= |s| && s[..|p|] == p
  }

  /** `sub` occurs in `s` at position `i`. */
  predicate OccursAt(s: string, sub: string, i: int) {
    0 <= i && i + |sub| <= |s| && s[i..i + |sub|] == sub
  }

  /** `s.includes(sub)`, as the specification of the built-in: some occurrence exists. */
  ghost predicate Includes(s: string, sub: string) {
    exists i :: OccursAt(s, sub, i)
  }

  /** `s.includes(sub)`, as a left-to-right search. */
  predicate Contains(s: string, sub: string)
    decreases |s|
  {
    StartsWith(s, sub) || (|s| > 0 && Contains(s[1..], sub))
  }

  /** Only a string at least as long as the needle contains it. */
  lemma {:induction false} NonEmptyContainer(s: string, sub: string)
    requires Contains(s, sub)
    ensures |sub| <= |s|
    decreases |s|
  {
    if !StartsWith(s, sub) {
      NonEmptyContainer(s[1..], sub);
    }
  }

  /** One step of a search: an occurrence is at the front or further on. */
  lemma IncludesStep(s: string, sub: string)
    requires Includes(s, sub)
    ensures StartsWith(s, sub) || (|s| > 0 && Includes(s[1..], sub))
  {
    var i :| OccursAt(s, sub, i);
    if i > 0 {
      assert s[1..][i - 1..i - 1 + |sub|] == s[i..i + |sub|];
      assert OccursAt(s[1..], sub, i - 1);
    }
  }

  lemma {:induction false} ContainsIsIncludes(s: string, sub: string)
    ensures Contains(s, sub) <==> Includes(s, sub)
    decreases |s|
  {
    if |s| > 0 {
      ContainsIsIncludes(s[1..], sub);
    }
    if Includes(s, sub) {
      IncludesStep(s, sub);
    }
    if StartsWith(s, sub) {
      assert OccursAt(s, sub, 0);
    } else if |s| > 0 && Contains(s[1..], sub) {
      var i :| OccursAt(s[1..], sub, i);
      assert s[1..][i..i + |sub|] == s[i + 1..i + 1 + |sub|];
      assert OccursAt(s, sub, i + 1);
    }
  }

  function LowerChar(c: char): char {
    if 'A' <= c <= 'Z' then (c as int + 32) as char else c
  }

  /** `s.toLowerCase()` on the ASCII range: upper-case Latin letters become
      lower-case, one for one; no `A`-`Z` is left, and every other character
      stays. */
  function LowerAscii(s: string): (r: string)
    ensures |r| == |s|
    ensures forall i :: 0 <= i < |s| ==> r[i] == LowerChar(s[i])
    ensures forall i :: 0 <= i < |r| ==> !('A' <= r[i] <= 'Z')
    ensures forall i :: 0 <= i < |s| && r[i] != s[i] ==> 'A' <= s[i] <= 'Z' && r[i] as int == s[i] as int + 32
  {
    seq(|s|, i requires 0 <= i < |s| => LowerChar(s[i]))
  }

  /** Text without an upper-case ASCII letter is already lower-cased. */
  lemma LowerAsciiFixesLower(s: string)
    requires forall i :: 0 <= i < |s| ==> !('A' <= s[i] <= 'Z')
    ensures LowerAscii(s) == s
  {
    assert forall i :: 0 <= i < |s| ==> LowerAscii(s)[i] == s[i];
  }

  /** Lower-casing twice is lower-casing once. */
  lemma LowerAsciiIdempotent(s: string)
    ensures LowerAscii(LowerAscii(s)) == LowerAscii(s)
  {
    var once := LowerAscii(s);
    assert forall i :: 0 <= i < |s| ==> LowerAscii(once)[i] == once[i];
  }

  /** Position of the first `sep` in `s`, if there is one. */
  function IndexOf(s: string, sep: char): (r: Option<nat>)
    ensures r.Some? ==> r.value < |s| && s[r.value] == sep && sep !in s[..r.value]
    ensures r.None? ==> sep !in s
  {
    if |s| == 0 then None
    else if s[0] == sep then Some(0)
    else
      match IndexOf(s[1..], sep)
      case None => None
      case Some(i) => Some(i + 1)
  }

  /** `s.split(sep)` for a one-character separator: the maximal separator-free
      pieces between separators, always at least one. */
  function Split(s: string, sep: char): (r: seq<string>)
    ensures |r| >= 1
    ensures forall k :: 0 <= k < |r| ==> sep !in r[k]
    decreases |s|
  {
    match IndexOf(s, sep)
    case None => [s]
    case Some(i) => [s[..i]] + Split(s[i + 1..], sep)
  }

  /** `pieces.join(sep)`. */
  function Join(pieces: seq<string>, sep: char): string
    decreases |pieces|
  {
    if |pieces| == 0 then ""
    else if |pieces| == 1 then pieces[0]
    else pieces[0] + [sep] + Join(pieces[1..], sep)
  }

  /** Splitting loses nothing: joining the pieces back gives the text. */
  lemma {:induction false} JoinSplit(s: string, sep: char)
    ensures Join(Split(s, sep), sep) == s
    decreases |s|
  {
    match IndexOf(s, sep)
    case None =>
    case Some(i) =>
      var rest := Split(s[i + 1..], sep);
      assert Split(s, sep) == [s[..i]] + rest;
      JoinCons(s[..i], rest, sep);
      JoinSplit(s[i + 1..], sep);
      assert s == s[..i] + [sep] + s[i + 1..];
  }

  /** Joining a piece in front of at least one other puts a separator between. */
  lemma JoinCons(head: string, rest: seq<string>, sep: char)
    requires |rest| >= 1
    ensures Join([head] + rest, sep) == head + [sep] + Join(rest, sep)
  {
    assert ([head] + rest)[1..] == rest;
  }

  /** Splitting recovers the pieces of a join, when no piece holds the separator. */
  lemma {:induction false} SplitJoin(pieces: seq<string>, sep: char)
    requires |pieces| >= 1
    requires forall k :: 0 <= k < |pieces| ==> sep !in pieces[k]
    ensures Split(Join(pieces, sep), sep) == pieces
    decreases |pieces|
  {
    if |pieces| == 1 {
      assert IndexOf(pieces[0], sep) == None;
    } else {
      var rest := pieces[1..];
      assert [pieces[0]] + rest == pieces;
      JoinCons(pieces[0], rest, sep);
      SplitAfterPrefix(pieces[0], sep, Join(rest, sep));
      assert forall k :: 0 <= k < |rest| ==> rest[k] == pieces[k + 1];
      SplitJoin(rest, sep);
    }
  }

  lemma {:induction false} IndexOfAfterPrefix(p: string, sep: char, rest: string)
    requires sep !in p
    ensures IndexOf(p + [sep] + rest, sep) == Some(|p|)
    decreases |p|
  {
    if |p| > 0 {
      assert (p + [sep] + rest)[1..] == p[1..] + [sep] + rest;
      IndexOfAfterPrefix(p[1..], sep, rest);
    }
  }

  /** A separator-free prefix followed by the separator is the first piece. */
  lemma SplitAfterPrefix(p: string, sep: char, rest: string)
    requires sep !in p
    ensures Split(p + [sep] + rest, sep) == [p] + Split(rest, sep)
  {
    var s := p + [sep] + rest;
    IndexOfAfterPrefix(p, sep, rest);
    assert s[..|p|] == p;
    assert s[|p| + 1..] == rest;
  }

  /** The second piece of a split is the text strictly between the first
      separator and the next one (or the end of the text). */
  lemma SplitSecondPiece(s: string, sep: char, i: nat, j: nat)
    requires i < j <= |s|
    requires s[i] == sep && sep !in s[..i]
    requires sep !in s[i + 1..j]
    requires j == |s| || s[j] == sep
    ensures |Split(s, sep)| >= 2 && Split(s, sep)[1] == s[i + 1..j]
  {
    assert IndexOf(s, sep) == Some(i);
    var t := s[i + 1..];
    if j == |s| {
      assert t == s[i + 1..j];
      assert IndexOf(t, sep) == None;
    } else {
      assert t == s[i + 1..j] + [sep] + s[j + 1..];
      IndexOfAfterPrefix(s[i + 1..j], sep, s[j + 1..]);
    }
  }

  /** A text without the separator splits into itself alone. */
  lemma SplitWithoutSeparator(s: string, sep: char)
    requires sep !in s
    ensures Split(s, sep) == [s]
  {
  }

  /** `a[i]` on an array: `undefined` past the end. */
  function Element(a: seq<string>, i: nat): (r: Option<string>)
    ensures r.Some? <==> i < |a|
  {
    if i < |a| then Some(a[i]) else None
  }

  function DigitChar(d: nat): char
    requires d < 10
  {
    ('0' as int + d) as char
  }

  /** `${n}` for a non-negative integer: its decimal digits, most significant first. */
  function Decimal(n: nat): (r: string)
    ensures |r| >= 1
    ensures forall k :: 0 <= k < |r| ==> '0' <= r[k] <= '9'
    decreases n
  {
    if n < 10 then [DigitChar(n)] else Decimal(n / 10) + [DigitChar(n % 10)]
  }

  /** The value of a string of decimal digits. */
  function DecimalValue(s: string): nat
    requires forall k :: 0 <= k < |s| ==> '0' <= s[k] <= '9'
    decreases |s|
  {
    if |s| == 0 then 0 else 10 * DecimalValue(s[..|s| - 1]) + (s[|s| - 1] as int - '0' as int)
  }

  /** Rendering a number and reading it back gives the number. */
  lemma {:induction false} DecimalRoundTrip(n: nat)
    ensures DecimalValue(Decimal(n)) == n
    decreases n
  {
    if n >= 10 {
      var r := Decimal(n);
      assert r[..|r| - 1] == Decimal(n / 10);
      DecimalRoundTrip(n / 10);
    }
  }
}
