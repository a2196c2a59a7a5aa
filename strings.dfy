/** Character-level helpers shared by the document model, the DDL builders and
    the row encoders: NUL sanitisation, joining and splitting on a separator,
    and the decimal rendering of natural numbers used by the placeholders. */
module Strings {

  /** The zero code point, which PostgreSQL text values cannot hold. */
  const NUL: char := '\0'

  /** `sanitizeString`: every NUL becomes a space, everything else is kept. */
  function Sanitize(s: string): (r: string)
    ensures |r| == |s|
    ensures forall i :: 0 <= i < |s| ==> r[i] == (if s[i] == NUL then ' ' else s[i])
  {
    if s == [] then [] else [if s[0] == NUL then ' ' else s[0]] + Sanitize(s[1..])
  }

  lemma SanitizeNoNul(s: string)
    ensures NUL !in Sanitize(s)
  {
  }

  lemma SanitizeIdempotent(s: string)
    ensures Sanitize(Sanitize(s)) == Sanitize(s)
  {
    SanitizeNoNul(s);
  }

  /** A string is left unchanged exactly when it holds no NUL. */
  lemma SanitizeFixpoint(s: string)
    ensures Sanitize(s) == s <==> NUL !in s
  {
    if NUL in s {
      var i :| 0 <= i < |s| && s[i] == NUL;
      assert Sanitize(s)[i] != s[i];
    }
  }

  /** `Array.prototype.join`: the elements with `sep` between neighbours;
      the empty list joins to the empty string. */
  function Join(xs: seq<string>, sep: string): (r: string)
  {
    if xs == [] then ""
    else if |xs| == 1 then xs[0]
    else xs[0] + sep + Join(xs[1..], sep)
  }

  /** Growing the first element of a list grows the front of its join. */
  lemma JoinExtendFirst(a: string, xs: seq<string>, sep: string)
    requires xs != []
    ensures Join([a + xs[0]] + xs[1..], sep) == a + Join(xs, sep)
  {
    var ys := [a + xs[0]] + xs[1..];
    assert ys[1..] == xs[1..];
  }

  /** A character found in no element and not in the separator is not in
      the join either. */
  lemma {:induction false} JoinExcludes(xs: seq<string>, sep: string, c: char)
    requires forall i :: 0 <= i < |xs| ==> c !in xs[i]
    requires c !in sep
    ensures c !in Join(xs, sep)
  {
    if |xs| > 1 {
      JoinExcludes(xs[1..], sep, c);
    }
  }

  /** Splits `s` at every `sep`; `String.prototype.split` with a one-character
      separator. There is always at least one (possibly empty) piece. */
  function Split(s: string, sep: char): (r: seq<string>)
    ensures |r| >= 1
    ensures forall i :: 0 <= i < |r| ==> sep !in r[i]
  {
    if s == [] then [""]
    else
      var rest := Split(s[1..], sep);
      if s[0] == sep then [""] + rest else [[s[0]] + rest[0]] + rest[1..]
  }

  /** Joining the pieces back with the separator gives the original text. */
  lemma {:induction false} JoinSplit(s: string, sep: char)
    ensures Join(Split(s, sep), [sep]) == s
  {
    if s != [] {
      var rest := Split(s[1..], sep);
      JoinSplit(s[1..], sep);
      if s[0] == sep {
        assert ([""] + rest)[1..] == rest;
        assert Join([""] + rest, [sep]) == "" + [sep] + Join(rest, [sep]);
        assert s == [sep] + s[1..];
      } else {
        JoinExtendFirst([s[0]], rest, [sep]);
        assert s == [s[0]] + s[1..];
      }
    }
  }

  /** Text without the separator is a single piece. */
  lemma {:induction false} SplitNoSep(s: string, sep: char)
    requires sep !in s
    ensures Split(s, sep) == [s]
  {
    if s != [] {
      SplitNoSep(s[1..], sep);
      assert [s[0]] + s[1..] == s;
    }
  }

  /** The text before the first separator is the first piece. */
  lemma {:induction false} SplitAtFirst(a: string, b: string, sep: char)
    requires sep !in a
    ensures Split(a + [sep] + b, sep) == [a] + Split(b, sep)
  {
    if a == [] {
      assert a + [sep] + b == [sep] + b;
      assert ([sep] + b)[1..] == b;
    } else {
      SplitAtFirst(a[1..], b, sep);
      var s := a + [sep] + b;
      assert s[0] == a[0] && s[1..] == a[1..] + [sep] + b;
      assert [a[0]] + a[1..] == a;
    }
  }

  /** The decimal digit for `d`. */
  function Digit(d: nat): (c: char)
    requires d < 10
    ensures '0' <= c <= '9' && (c as int) - ('0' as int) == d
  {
    (('0' as int) + d) as char
  }

  /** Decimal rendering of a natural number, as `${n}` gives for an integer. */
  function NatText(n: nat): (r: string)
    ensures |r| >= 1 && AllDigits(r)
    ensures |r| > 1 ==> r[0] != '0'
  {
    if n < 10 then [Digit(n)] else NatText(n / 10) + [Digit(n % 10)]
  }

  predicate AllDigits(s: string)
  {
    forall i :: 0 <= i < |s| ==> '0' <= s[i] <= '9'
  }

  /** Reads a run of decimal digits back as a number. */
  function ParseNat(s: string): nat
    requires AllDigits(s)
  {
    if s == [] then 0
    else ParseNat(s[..|s| - 1]) * 10 + ((s[|s| - 1] as int) - ('0' as int))
  }

  lemma {:induction false} ParseNatText(n: nat)
    ensures ParseNat(NatText(n)) == n
  {
    if n >= 10 {
      var r := NatText(n);
      assert r[..|r| - 1] == NatText(n / 10);
      ParseNatText(n / 10);
    }
  }

  /** Different numbers never render to the same text. */
  lemma NatTextInjective(m: nat, n: nat)
    ensures NatText(m) == NatText(n) ==> m == n
  {
    ParseNatText(m);
    ParseNatText(n);
  }
}
