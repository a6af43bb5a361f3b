/**
 * The few Python string operations the crawler relies on, written out over
 * `seq<char>`: `str.isspace` on one character, `str.strip()`, `str.split(sep)`
 * with a one-character separator, `str.replace` of one character by another,
 * `str.endswith` and `str(n)` for a non-negative integer.
 */
module PyStr {
  import opened Seqs

  /** Python's `str.isspace()` for a single character. */
  predicate IsSpace(c: char) {
    || ('\t' <= c <= '\r')                // \t \n \v \f \r
    || ('\U{1C}' <= c <= '\U{1F}')        // file, group, record and unit separators
    || c == ' ' || c == '\U{85}' || c == '\U{A0}' || c == '\U{1680}'
    || ('\U{2000}' <= c <= '\U{200A}')
    || c == '\U{2028}' || c == '\U{2029}' || c == '\U{202F}' || c == '\U{205F}' || c == '\U{3000}'
  }

  ghost predicate AllSpace(s: string) {
    forall i :: 0 <= i < |s| ==> IsSpace(s[i])
  }

  /** How many whitespace characters `s` starts with. */
  function LeadingSpaces(s: string): (n: nat)
    ensures n <= |s| && forall i :: 0 <= i < n ==> IsSpace(s[i])
    ensures n == |s| || !IsSpace(s[n])
  {
    if s != [] && IsSpace(s[0]) then
      var m := LeadingSpaces(s[1..]);
      m + 1
    else 0
  }

  /** How many whitespace characters `s` ends with. */
  function TrailingSpaces(s: string): (n: nat)
    ensures n <= |s| && forall i :: |s| - n <= i < |s| ==> IsSpace(s[i])
    ensures n == |s| || !IsSpace(s[|s| - n - 1])
  {
    if s != [] && IsSpace(s[|s| - 1]) then
      var m := TrailingSpaces(s[..|s| - 1]);
      m + 1
    else 0
  }

  /** `s.lstrip()`. */
  function TrimLeft(s: string): string {
    s[LeadingSpaces(s)..]
  }

  /** `s.rstrip()`. */
  function TrimRight(s: string): string {
    s[..|s| - TrailingSpaces(s)]
  }

  /** Dropping one leading whitespace character leaves `lstrip` unchanged. */
  lemma TrimLeftStep(s: string)
    requires s != [] && IsSpace(s[0])
    ensures TrimLeft(s) == TrimLeft(s[1..])
  {
  }

  /** Dropping one trailing whitespace character leaves `rstrip` unchanged. */
  lemma TrimRightStep(s: string)
    requires s != [] && IsSpace(s[|s| - 1])
    ensures TrimRight(s) == TrimRight(s[..|s| - 1])
  {
    var m := TrailingSpaces(s[..|s| - 1]);
    assert s[..|s| - 1][..|s| - 1 - m] == s[..|s| - (m + 1)];
  }

  /** Text that does not end in whitespace is left alone by `rstrip`. */
  lemma TrimRightNothing(s: string)
    requires s == [] || !IsSpace(s[|s| - 1])
    ensures TrimRight(s) == s
  {
    assert s[..|s|] == s;
  }

  /** `s.strip()`: a slice of `s` with whitespace on both sides removed. */
  function Strip(s: string): (r: string)
    ensures |r| <= |s|
    ensures r == [] || (!IsSpace(r[0]) && !IsSpace(r[|r| - 1]))
    ensures r == [] <==> AllSpace(s)
  {
    var n := LeadingSpaces(s);
    var l := s[n..];
    var r := TrimRight(l);
    assert r == [] ==> AllSpace(s) by {
      if r == [] && l != [] {
        assert false;
      }
    }
    assert r != [] ==> r[0] == s[n];
    r
  }

  /** What `strip` removes is whitespace only, from the two ends: the result is the middle slice of `s`. */
  lemma StripRemovesOnlySpace(s: string)
    ensures var a, r := LeadingSpaces(s), Strip(s);
      && a + |r| <= |s| && r == s[a..a + |r|]
      && (forall i :: 0 <= i < a ==> IsSpace(s[i]))
      && (forall i :: a + |r| <= i < |s| ==> IsSpace(s[i]))
  {
    var a := LeadingSpaces(s);
    var l := s[a..];
    var t := TrailingSpaces(l);
    var k := a + (|l| - t);
    assert Strip(s) == l[..|l| - t];
    SuffixSlices(s, a, k);
    forall i | k <= i < |s|
      ensures IsSpace(s[i])
    {
      assert s[i] == l[i - a];
    }
  }

  lemma StripIdempotent(s: string)
    ensures Strip(Strip(s)) == Strip(s)
  {
    var r := Strip(s);
    if r != [] {
      assert LeadingSpaces(r) == 0 && TrailingSpaces(r) == 0;
      assert r[0..] == r && r[..|r|] == r;
    }
  }

  /** Removing one leading whitespace character does not change the stripped text. */
  lemma StripCons(c: char, s: string)
    requires IsSpace(c)
    ensures Strip([c] + s) == Strip(s)
  {
    assert ([c] + s)[1..] == s;
    assert LeadingSpaces([c] + s) == LeadingSpaces(s) + 1;
    assert TrimLeft([c] + s) == TrimLeft(s);
  }

  /** Text after the leading whitespace does not change how much leading whitespace there is. */
  lemma {:induction false} LeadingSpacesAppend(s: string, t: string)
    requires LeadingSpaces(s) < |s|
    ensures LeadingSpaces(s + t) == LeadingSpaces(s)
    decreases |s|
  {
    assert (s + t)[0] == s[0];
    if IsSpace(s[0]) {
      assert (s + t)[1..] == s[1..] + t;
      LeadingSpacesAppend(s[1..], t);
    }
  }

  /** Removing one trailing whitespace character does not change the stripped text. */
  lemma StripSnoc(s: string, c: char)
    requires IsSpace(c)
    ensures Strip(s + [c]) == Strip(s)
  {
    if AllSpace(s) {
      assert AllSpace(s + [c]);
    } else {
      var n := LeadingSpaces(s);
      LeadingSpacesAppend(s, [c]);
      assert (s + [c])[n..] == s[n..] + [c];
      TrimRightSnoc(s[n..], c);
    }
  }

  lemma TrimRightSnoc(l: string, c: char)
    requires IsSpace(c)
    ensures TrimRight(l + [c]) == TrimRight(l)
  {
    assert (l + [c])[..|l|] == l;
    assert TrailingSpaces(l + [c]) == TrailingSpaces(l) + 1;
  }

  /** `s.split([sep])`: the pieces between separators; there is always at least one. */
  function Split(s: string, sep: char): (r: seq<string>)
    ensures |r| >= 1
    ensures forall k :: 0 <= k < |r| ==> sep !in r[k]
    ensures Join(r, sep) == s
  {
    if s == [] then [[]]
    else
      var t := Split(s[1..], sep);
      if s[0] == sep then
        assert s == [sep] + s[1..];
        [[]] + t
      else
        var r := [[s[0]] + t[0]] + t[1..];
        assert r[1..] == t[1..];
        assert s == [s[0]] + s[1..];
        r
  }

  /** `sep.join(pieces)`: the inverse of `Split`. */
  function Join(pieces: seq<string>, sep: char): string
    requires |pieces| >= 1
  {
    if |pieces| == 1 then pieces[0] else pieces[0] + [sep] + Join(pieces[1..], sep)
  }

  /** Text without the separator is one piece. */
  lemma {:induction false} SplitNoSep(a: string, sep: char)
    requires sep !in a
    ensures Split(a, sep) == [a]
    decreases |a|
  {
    if a != [] {
      assert sep !in a[1..] by {
        forall c | c in a[1..] ensures c in a { }
      }
      SplitNoSep(a[1..], sep);
      assert [a[0]] + a[1..] == a;
    }
  }

  /** A piece without the separator, then the separator: that piece comes first, then the pieces of the rest. */
  lemma {:induction false} SplitAfterPiece(a: string, sep: char, b: string)
    requires sep !in a
    ensures Split(a + [sep] + b, sep) == [a] + Split(b, sep)
    decreases |a|
  {
    var s := a + [sep] + b;
    if a == [] {
      assert s == [sep] + b;
      assert s[1..] == b;
    } else {
      assert s[0] == a[0] && s[1..] == a[1..] + [sep] + b;
      assert sep !in a[1..] by {
        forall c | c in a[1..] ensures c in a { }
      }
      SplitAfterPiece(a[1..], sep, b);
      assert [a[0]] + a[1..] == a;
    }
  }

  /** `Split` undoes `Join` when no piece holds the separator. */
  lemma {:induction false} SplitJoin(pieces: seq<string>, sep: char)
    requires |pieces| >= 1 && forall k :: 0 <= k < |pieces| ==> sep !in pieces[k]
    ensures Split(Join(pieces, sep), sep) == pieces
    decreases |pieces|
  {
    if |pieces| == 1 {
      SplitNoSep(pieces[0], sep);
    } else {
      SplitJoin(pieces[1..], sep);
      SplitAfterPiece(pieces[0], sep, Join(pieces[1..], sep));
    }
  }

  /** What splitting `s + [c]` gives, in terms of the pieces of `s`. */
  ghost function SplitSnocSpec(t: seq<string>, c: char, sep: char): seq<string>
    requires |t| >= 1
  {
    if c == sep then t + [[]] else t[..|t| - 1] + [t[|t| - 1] + [c]]
  }

  /** Splitting after appending one character: a separator opens a new, empty piece; anything else extends the last piece. */
  lemma {:induction false} SplitSnoc(s: string, c: char, sep: char)
    ensures Split(s + [c], sep) == SplitSnocSpec(Split(s, sep), c, sep)
    decreases |s|
  {
    if s == [] {
      assert [c][1..] == [];
    } else {
      assert s + [c] == [s[0]] + (s[1..] + [c]);
      assert (s + [c])[1..] == s[1..] + [c];
      SplitSnoc(s[1..], c, sep);
      if s[0] == sep {
        SplitSnocAfterSep(s, c, sep);
      } else {
        SplitSnocAfterOther(s, c, sep);
      }
    }
  }

  lemma SplitSnocAfterSep(s: string, c: char, sep: char)
    requires s != [] && s[0] == sep
    requires (s + [c])[1..] == s[1..] + [c]
    requires Split(s[1..] + [c], sep) == SplitSnocSpec(Split(s[1..], sep), c, sep)
    ensures Split(s + [c], sep) == SplitSnocSpec(Split(s, sep), c, sep)
  {
    var u := Split(s[1..], sep);
    assert Split(s + [c], sep) == [[]] + Split(s[1..] + [c], sep);
    assert Split(s, sep) == [[]] + u;
    if c == sep {
      assert [[]] + (u + [[]]) == ([[]] + u) + [[]];
    } else {
      ConsReplaceLast([], u, u[|u| - 1] + [c]);
    }
  }

  /** Putting `h` in front commutes with replacing the last element. */
  lemma ConsReplaceLast<S>(h: S, u: seq<S>, x: S)
    requires |u| >= 1
    ensures [h] + (u[..|u| - 1] + [x]) == ([h] + u)[..|u|] + [x]
    ensures ([h] + u)[|u|] == u[|u| - 1]
  {
    assert ([h] + u)[..|u|] == [h] + u[..|u| - 1];
  }

  lemma SplitSnocAfterOther(s: string, c: char, sep: char)
    requires s != [] && s[0] != sep
    requires (s + [c])[0] == s[0] && (s + [c])[1..] == s[1..] + [c]
    requires Split(s[1..] + [c], sep) == SplitSnocSpec(Split(s[1..], sep), c, sep)
    ensures Split(s + [c], sep) == SplitSnocSpec(Split(s, sep), c, sep)
  {
    var u := Split(s[1..], sep);
    assert Split(s + [c], sep) == ExtendFirst(s[0], Split(s[1..] + [c], sep));
    assert Split(s, sep) == ExtendFirst(s[0], u);
    ExtendFirstSnoc(s[0], u, c, sep);
  }

  /** The pieces with `h` put in front of the first one. */
  ghost function ExtendFirst(h: char, u: seq<string>): seq<string>
    requires |u| >= 1
  {
    [[h] + u[0]] + u[1..]
  }

  /** Extending the first piece commutes with appending a character at the end. */
  lemma ExtendFirstSnoc(h: char, u: seq<string>, c: char, sep: char)
    requires |u| >= 1
    ensures ExtendFirst(h, SplitSnocSpec(u, c, sep)) == SplitSnocSpec(ExtendFirst(h, u), c, sep)
  {
    var t, v := ExtendFirst(h, u), SplitSnocSpec(u, c, sep);
    if c == sep {
      assert v[0] == u[0] && v[1..] == u[1..] + [[]];
    } else if |u| == 1 {
      assert v == [u[0] + [c]];
      assert [h] + (u[0] + [c]) == ([h] + u[0]) + [c];
    } else {
      assert v[0] == u[0] && v[1..] == u[1..|u| - 1] + [u[|u| - 1] + [c]];
      assert t[..|t| - 1] == [[h] + u[0]] + u[1..|u| - 1];
      assert t[|t| - 1] == u[|u| - 1];
    }
  }

  /** `s.replace(from, to)` with one-character arguments. */
  function Replace(s: string, from: char, to: char): (r: string)
    ensures |r| == |s|
    ensures forall i :: 0 <= i < |s| ==> r[i] == if s[i] == from then to else s[i]
  {
    if s == [] then [] else [if s[0] == from then to else s[0]] + Replace(s[1..], from, to)
  }

  /** `s.endswith(suffix)`. */
  predicate EndsWith(s: string, suffix: string) {
    |suffix| <= |s| && s[|s| - |suffix|..] == suffix
  }

  function DigitChar(d: nat): (c: char)
    requires d < 10
    ensures '0' <= c <= '9'
  {
    "0123456789"[d]
  }

  function DigitValue(c: char): nat {
    if '0' <= c <= '9' then (c as int - '0' as int) as nat else 0
  }

  /** `str(n)` for `n >= 0`: decimal digits, no leading zero. */
  function Decimal(n: nat): (r: string)
    ensures r != []
    ensures forall i :: 0 <= i < |r| ==> '0' <= r[i] <= '9'
    ensures r[0] == '0' ==> n == 0 && r == "0"
  {
    if n < 10 then [DigitChar(n)] else Decimal(n / 10) + [DigitChar(n % 10)]
  }

  /** `int(s)` for a string of decimal digits. */
  function DecimalValue(s: string): nat {
    if s == [] then 0 else DecimalValue(s[..|s| - 1]) * 10 + DigitValue(s[|s| - 1])
  }

  lemma {:induction false} DecimalRoundTrip(n: nat)
    ensures DecimalValue(Decimal(n)) == n
  {
    if n < 10 {
      assert DigitValue(DigitChar(n)) == n;
    } else {
      var r := Decimal(n);
      assert r[..|r| - 1] == Decimal(n / 10);
      DecimalRoundTrip(n / 10);
      assert DigitValue(DigitChar(n % 10)) == n % 10;
    }
  }
}
