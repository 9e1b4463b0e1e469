/**
 * The string operations the source relies on from Go's standard library:
 * strings.Split, joining with a separator (the `%s:%s:...` formats),
 * a split on the first occurrence of a separator (regexp Split with n = 2)
 * and decimal rendering of integers (strconv / `%d`).
 */
module Text {
  import opened Wrappers

  /** Number of occurrences of `c` in `s`. */
  function Occurrences(s: string, c: char): nat
  {
    multiset(s)[c]
  }

  /** Position of the first `c` in `s`, if any. */
  function IndexOf(s: string, c: char): (r: Option<nat>)
    ensures r.None? <==> c !in s
    ensures r.Some? ==> r.value < |s| && s[r.value] == c && c !in s[..r.value]
  {
    if |s| == 0 then None
    else if s[0] == c then Some(0)
    else match IndexOf(s[1..], c)
      case None => None
      case Some(i) =>
        assert s[1..][..i] == s[1..i + 1];
        assert s[..i + 1] == [s[0]] + s[1..i + 1];
        Some(i + 1)
  }

  /** The parts joined with `sep` between consecutive parts; "" for no parts. */
  function Join(parts: seq<string>, sep: char): string
  {
    if |parts| == 0 then ""
    else if |parts| == 1 then parts[0]
    else parts[0] + [sep] + Join(parts[1..], sep)
  }

  /**
   * Go's strings.Split(s, string(sep)): the pieces between occurrences of
   * `sep`, in order, always at least one (Split("", sep) is [""]).
   */
  function Split(s: string, sep: char): (parts: seq<string>)
    ensures |parts| == Occurrences(s, sep) + 1
    ensures forall i :: 0 <= i < |parts| ==> sep !in parts[i]
    decreases |s|
  {
    match IndexOf(s, sep)
    case None => [s]
    case Some(i) =>
      OccurrencesAround(s, i);
      [s[..i]] + Split(s[i + 1..], sep)
  }

  /**
   * Split on the first `sep` only, as Go's regexp.Split(s, 2) does for a
   * one-character pattern: None when `sep` does not occur.
   */
  function SplitFirst(s: string, sep: char): (r: Option<(string, string)>)
    ensures r.None? <==> sep !in s
    ensures r.Some? ==> sep !in r.value.0 && r.value.0 + [sep] + r.value.1 == s
  {
    match IndexOf(s, sep)
    case None => None
    case Some(i) =>
      assert s[..i] + [sep] + s[i + 1..] == s;
      Some((s[..i], s[i + 1..]))
  }

  lemma OccurrencesAround(s: string, i: nat)
    requires i < |s|
    ensures Occurrences(s, s[i]) == Occurrences(s[..i], s[i]) + 1 + Occurrences(s[i + 1..], s[i])
  {
    assert s == s[..i] + [s[i]] + s[i + 1..];
  }

  lemma OccurrencesConcat(a: string, b: string, c: char)
    ensures Occurrences(a + b, c) == Occurrences(a, c) + Occurrences(b, c)
  {
  }

  /** Joining the pieces of a split gives the string back. */
  lemma {:induction false} JoinSplit(s: string, sep: char)
    ensures Join(Split(s, sep), sep) == s
    decreases |s|
  {
    match IndexOf(s, sep)
    case None =>
    case Some(i) =>
      JoinSplit(s[i + 1..], sep);
      assert s[..i] + [sep] + s[i + 1..] == s;
  }

  /** The first separator of `a + [sep] + b` sits right after `a` when `a` has none. */
  lemma IndexOfAfterPrefix(a: string, sep: char, b: string)
    requires sep !in a
    ensures IndexOf(a + [sep] + b, sep) == Some(|a|)
  {
    var s := a + [sep] + b;
    assert s[|a|] == sep;
    assert s[..|a|] == a;
  }

  /** Splitting a join of separator-free parts gives the parts back. */
  lemma {:induction false} SplitJoin(parts: seq<string>, sep: char)
    requires |parts| > 0
    requires forall i :: 0 <= i < |parts| ==> sep !in parts[i]
    ensures Split(Join(parts, sep), sep) == parts
  {
    if |parts| == 1 {
      assert IndexOf(parts[0], sep).None?;
    } else {
      var rest := Join(parts[1..], sep);
      var s := parts[0] + [sep] + rest;
      IndexOfAfterPrefix(parts[0], sep, rest);
      assert s[..|parts[0]|] == parts[0];
      assert s[|parts[0]| + 1..] == rest;
      SplitJoin(parts[1..], sep);
      assert parts == [parts[0]] + parts[1..];
    }
  }

  /** The separators of a join are those of the parts plus one between each pair. */
  lemma {:induction false} OccurrencesInJoin(parts: seq<string>, sep: char)
    requires |parts| > 0
    ensures Occurrences(Join(parts, sep), sep) >= |parts| - 1
    ensures (exists i :: 0 <= i < |parts| && sep in parts[i]) ==> Occurrences(Join(parts, sep), sep) > |parts| - 1
  {
    if |parts| > 1 {
      OccurrencesInJoin(parts[1..], sep);
      OccurrencesConcat(parts[0] + [sep], Join(parts[1..], sep), sep);
      OccurrencesConcat(parts[0], [sep], sep);
      if exists i :: 0 <= i < |parts| && sep in parts[i] {
        var i :| 0 <= i < |parts| && sep in parts[i];
        if i > 0 {
          assert parts[1..][i - 1] == parts[i];
        }
      }
    }
  }

  /** A character is absent from a join when it is absent from the parts and is not the separator. */
  lemma {:induction false} NotInJoin(parts: seq<string>, sep: char, c: char)
    requires c != sep
    requires forall i :: 0 <= i < |parts| ==> c !in parts[i]
    ensures c !in Join(parts, sep)
  {
    if |parts| > 1 {
      NotInJoin(parts[1..], sep, c);
    }
  }

  // ---- Decimal rendering ------------------------------------------------

  predicate IsDigit(c: char)
  {
    '0' <= c <= '9'
  }

  function DigitChar(d: nat): (c: char)
    requires d < 10
    ensures IsDigit(c)
  {
    (48 + d) as char
  }

  function DigitValue(c: char): (d: nat)
    requires IsDigit(c)
    ensures d < 10
  {
    (c as int) - 48
  }

  /** The decimal digits of `n` without leading zeros, as strconv.Itoa renders it. */
  function Decimal(n: nat): (s: string)
    ensures |s| > 0
    ensures forall i :: 0 <= i < |s| ==> IsDigit(s[i])
    ensures n > 0 ==> s[0] != '0'
  {
    if n < 10 then [DigitChar(n)] else Decimal(n / 10) + [DigitChar(n % 10)]
  }

  /** Go's `%d` for a signed integer. */
  function SignedDecimal(i: int): (s: string)
    ensures |s| > 0
  {
    if i < 0 then "-" + Decimal(-i) else Decimal(i)
  }

  /** Reads a non-empty string of digits as a number. */
  function ParseDecimal(s: string): nat
    requires |s| > 0
    requires forall i :: 0 <= i < |s| ==> IsDigit(s[i])
  {
    if |s| == 1 then DigitValue(s[0])
    else ParseDecimal(s[..|s| - 1]) * 10 + DigitValue(s[|s| - 1])
  }

  /** Reading back a rendered number gives the number. */
  lemma {:induction false} ParseDecimalOfDecimal(n: nat)
    ensures ParseDecimal(Decimal(n)) == n
  {
    if n >= 10 {
      var s := Decimal(n);
      assert s[..|s| - 1] == Decimal(n / 10);
      ParseDecimalOfDecimal(n / 10);
    }
  }

  /** Distinct numbers render to distinct strings. */
  lemma DecimalInjective(m: nat, n: nat)
    requires Decimal(m) == Decimal(n)
    ensures m == n
  {
    ParseDecimalOfDecimal(m);
    ParseDecimalOfDecimal(n);
  }
}
