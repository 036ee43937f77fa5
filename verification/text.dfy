/**
Strings: splitting and joining at a separator, removal of all occurrences, decimal numbers.
*/
module Text {
  import opened Options

  // ---------------------------------------------------------------- split and join

  /** The pieces of `s` between the separators; one piece, possibly empty, when there is none. */
  function Split(s: string, sep: char): (r: seq<string>)
    ensures |r| > 0
  {
    if s == [] then [""]
    else
      var rest := Split(s[1..], sep);
      if s[0] == sep then [""] + rest else [[s[0]] + rest[0]] + rest[1..]
  }

  function Join(parts: seq<string>, sep: char): string {
    if parts == [] then ""
    else if |parts| == 1 then parts[0]
    else parts[0] + [sep] + Join(parts[1..], sep)
  }

  /** A piece that has no separator comes out whole, up to the next separator. */
  lemma {:induction false} SplitFirst(piece: string, rest: string, sep: char)
    requires sep !in piece
    ensures Split(piece + [sep] + rest, sep) == [piece] + Split(rest, sep)
  {
    var s := piece + [sep] + rest;
    if piece == [] {
      assert s[1..] == rest;
    } else {
      assert s[1..] == piece[1..] + [sep] + rest;
      SplitFirst(piece[1..], rest, sep);
      assert [piece[0]] + piece[1..] == piece;
    }
  }

  lemma {:induction false} SplitWhole(piece: string, sep: char)
    requires sep !in piece
    ensures Split(piece, sep) == [piece]
  {
    if piece != [] {
      SplitWhole(piece[1..], sep);
      assert [piece[0]] + piece[1..] == piece;
    }
  }

  /** Splitting undoes joining, for pieces without separators. */
  lemma {:induction false} SplitJoin(parts: seq<string>, sep: char)
    requires parts != [] && forall p :: p in parts ==> sep !in p
    ensures Split(Join(parts, sep), sep) == parts
  {
    if |parts| == 1 {
      SplitWhole(parts[0], sep);
    } else {
      SplitJoin(parts[1..], sep);
      SplitFirst(parts[0], Join(parts[1..], sep), sep);
    }
  }

  /** Joining undoes splitting, always. */
  lemma {:induction false} JoinSplit(s: string, sep: char)
    ensures Join(Split(s, sep), sep) == s
  {
    if s != [] {
      JoinSplit(s[1..], sep);
      var rest := Split(s[1..], sep);
      if s[0] == sep {
        assert ([""] + rest)[1..] == rest;
      } else {
        var r := [[s[0]] + rest[0]] + rest[1..];
        assert r[1..] == rest[1..];
        assert Join(r, sep) == [s[0]] + Join(rest, sep);
      }
    }
  }

  lemma {:induction false} SplitPieces(s: string, sep: char)
    ensures forall p :: p in Split(s, sep) ==> sep !in p
  {
    if s != [] {
      SplitPieces(s[1..], sep);
    }
  }

  /** The characters of the pieces are those of the whole. */
  lemma {:induction false} SplitHasNoOther(s: string, sep: char, c: char)
    requires c !in s
    ensures forall p :: p in Split(s, sep) ==> c !in p
  {
    if s != [] {
      SplitHasNoOther(s[1..], sep, c);
    }
  }

  /** Splitting what was put together at a separator. */
  lemma {:induction false} SplitConcat(a: string, b: string, sep: char)
    ensures Split(a + [sep] + b, sep) == Split(a, sep) + Split(b, sep)
  {
    var s := a + [sep] + b;
    if a == [] {
      assert s[1..] == b;
    } else {
      assert s[1..] == a[1..] + [sep] + b;
      SplitConcat(a[1..], b, sep);
    }
  }

  // ---------------------------------------------------------------- removing all occurrences

  predicate StartsWith(s: string, prefix: string) {
    prefix <= s
  }

  /** `s` with every occurrence of `pattern` cut out, found from left to right. */
  function RemoveAll(s: string, pattern: string): string
    requires pattern != []
  {
    if s == [] then []
    else if StartsWith(s, pattern) then RemoveAll(s[|pattern|..], pattern)
    else [s[0]] + RemoveAll(s[1..], pattern)
  }

  /** No occurrence of `pattern` starts inside `head` when `tail` follows it. */
  predicate NoneStartsIn(head: string, tail: string, pattern: string) {
    forall j :: 0 <= j < |head| ==> !StartsWith(head[j..] + tail, pattern)
  }

  lemma {:induction false} RemoveAllSkips(head: string, tail: string, pattern: string)
    requires pattern != [] && NoneStartsIn(head, tail, pattern)
    ensures RemoveAll(head + tail, pattern) == head + RemoveAll(tail, pattern)
  {
    if head == [] {
      assert head + tail == tail;
    } else {
      assert head[0..] == head;
      assert !StartsWith(head + tail, pattern);
      assert (head + tail)[1..] == head[1..] + tail;
      forall j | 0 <= j < |head[1..]| ensures !StartsWith(head[1..][j..] + tail, pattern) {
        assert head[1..][j..] == head[j + 1..];
      }
      RemoveAllSkips(head[1..], tail, pattern);
    }
  }

  lemma RemoveAllCuts(tail: string, pattern: string)
    requires pattern != []
    ensures RemoveAll(pattern + tail, pattern) == RemoveAll(tail, pattern)
  {
    assert (pattern + tail)[|pattern|..] == tail;
  }

  // ---------------------------------------------------------------- decimal numbers

  predicate IsDigit(c: char) {
    '0' <= c <= '9'
  }

  predicate AllDigits(s: string) {
    forall c :: c in s ==> IsDigit(c)
  }

  function Digit(n: nat): char
    requires n < 10
  {
    (('0' as int) + n) as char
  }

  function DigitValue(c: char): (n: nat)
    requires IsDigit(c)
    ensures n < 10
  {
    (c as int) - ('0' as int)
  }

  function FormatUint(n: nat): string {
    if n < 10 then [Digit(n)] else FormatUint(n / 10) + [Digit(n % 10)]
  }

  function ParseUint(s: string): nat
    requires AllDigits(s)
  {
    if s == [] then 0 else 10 * ParseUint(s[..|s| - 1]) + DigitValue(s[|s| - 1])
  }

  lemma {:induction false} ParseFormat(n: nat)
    ensures FormatUint(n) != [] && AllDigits(FormatUint(n)) && ParseUint(FormatUint(n)) == n
  {
    if n >= 10 {
      ParseFormat(n / 10);
      var s := FormatUint(n);
      assert s[..|s| - 1] == FormatUint(n / 10);
    }
  }
}
