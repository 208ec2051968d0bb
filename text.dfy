/** Character-level helpers shared by the JSON codec, the template resolver and the reply parser:
    decimal digits, JavaScript whitespace and `trim`, `split`/`join` on one character,
    substring search and `String.prototype.replace` with a string pattern. */
module Text {
  import opened Wrappers

  // ---------------------------------------------------------------- digits

  predicate IsDigit(c: char) { '0' <= c <= '9' }

  predicate AllDigits(s: string) { forall i :: 0 <= i < |s| ==> IsDigit(s[i]) }

  function DigitChar(d: nat): (c: char)
    requires d < 10
    ensures IsDigit(c)
  {
    ('0' as int + d) as char
  }

  function DigitValue(c: char): (d: nat)
    requires IsDigit(c)
    ensures d < 10 && DigitChar(d) == c
  {
    c as int - '0' as int
  }

  /** Decimal text of a natural number, most significant digit first, no leading zero. */
  function NatText(n: nat): (s: string)
    ensures |s| >= 1 && AllDigits(s)
    ensures (s[0] == '0') <==> n == 0
    ensures n == 0 ==> s == "0"
    decreases n
  {
    if n < 10 then [DigitChar(n)] else NatText(n / 10) + [DigitChar(n % 10)]
  }

  /** Value of a digit string read most significant digit first. */
  function DigitsValue(s: string): nat
    requires AllDigits(s)
    decreases |s|
  {
    if s == [] then 0 else DigitsValue(s[..|s| - 1]) * 10 + DigitValue(s[|s| - 1])
  }

  lemma {:induction false} DigitsValueOfNatText(n: nat)
    ensures DigitsValue(NatText(n)) == n
    decreases n
  {
    if n >= 10 {
      var s := NatText(n);
      assert s[..|s| - 1] == NatText(n / 10);
      DigitsValueOfNatText(n / 10);
    }
  }

  /** Length of the longest run of digits at the start of `s`. */
  function DigitRun(s: string): (n: nat)
    ensures n <= |s| && AllDigits(s[..n])
    ensures n < |s| ==> !IsDigit(s[n])
    decreases |s|
  {
    if s == [] || !IsDigit(s[0]) then 0
    else
      var k := DigitRun(s[1..]);
      assert s[..k + 1] == [s[0]] + s[1..][..k];
      1 + k
  }

  lemma DigitRunOf(d: string, rest: string)
    requires AllDigits(d)
    requires rest == [] || !IsDigit(rest[0])
    ensures DigitRun(d + rest) == |d|
  {
    var s := d + rest;
    assert forall i :: 0 <= i < |d| ==> s[i] == d[i];
    assert |d| < |s| ==> s[|d|] == rest[0];
    var n := DigitRun(s);
    assert forall i :: 0 <= i < n ==> s[..n][i] == s[i];
  }

  /** Decimal text of an integer as `String(n)` writes it for an integer-valued number. */
  function IntText(n: int): (s: string)
    ensures |s| >= 1
  {
    if n < 0 then "-" + NatText(-n) else NatText(n)
  }

  // ---------------------------------------------------------------- whitespace and trim

  /** The characters `String.prototype.trim` removes: WhiteSpace and LineTerminator
      of section 12.2 and 12.3 of ECMA-262. */
  predicate IsJsSpace(c: char)
  {
    var k := c as int;
    k == 0x09 || k == 0x0A || k == 0x0B || k == 0x0C || k == 0x0D || k == 0x20 ||
    k == 0xA0 || k == 0x1680 || (0x2000 <= k <= 0x200A) || k == 0x2028 || k == 0x2029 ||
    k == 0x202F || k == 0x205F || k == 0x3000 || k == 0xFEFF
  }

  /** Number of whitespace characters at the start of `s`. */
  function LeadingSpace(s: string): (n: nat)
    ensures n <= |s|
    ensures forall i :: 0 <= i < n ==> IsJsSpace(s[i])
    ensures n < |s| ==> !IsJsSpace(s[n])
    decreases |s|
  {
    if s == [] || !IsJsSpace(s[0]) then 0 else 1 + LeadingSpace(s[1..])
  }

  /** Number of whitespace characters at the end of `s`. */
  function TrailingSpace(s: string): (n: nat)
    ensures n <= |s|
    ensures forall i :: |s| - n <= i < |s| ==> IsJsSpace(s[i])
    ensures n < |s| ==> !IsJsSpace(s[|s| - 1 - n])
    decreases |s|
  {
    if s == [] || !IsJsSpace(s[|s| - 1]) then 0 else 1 + TrailingSpace(s[..|s| - 1])
  }

  /** `s.trim()`: the infix of `s` left after removing whitespace at both ends. */
  function Trim(s: string): (r: string)
    ensures r == [] ==> forall i :: 0 <= i < |s| ==> IsJsSpace(s[i])
    ensures r != [] ==> !IsJsSpace(r[0]) && !IsJsSpace(r[|r| - 1])
    ensures LeadingSpace(s) + |r| <= |s| && r == s[LeadingSpace(s)..LeadingSpace(s) + |r|]
    ensures forall i :: LeadingSpace(s) + |r| <= i < |s| ==> IsJsSpace(s[i])
  {
    var a := LeadingSpace(s);
    if a == |s| then ""
    else
      var t := s[a..];
      var b := TrailingSpace(t);
      assert b < |t| by { assert !IsJsSpace(t[0]); }
      var r := s[a..|s| - b];
      assert r[0] == t[0] && r[|r| - 1] == t[|t| - 1 - b];
      assert forall i :: a + |r| <= i < |s| ==> s[i] == t[i - a];
      r
  }

  lemma TrimNoSpace(s: string)
    requires s == [] || (!IsJsSpace(s[0]) && !IsJsSpace(s[|s| - 1]))
    ensures Trim(s) == s
  {
    if s != [] {
      assert LeadingSpace(s) == 0;
      assert s[0..] == s;
      assert TrailingSpace(s) == 0;
    }
  }

  // ---------------------------------------------------------------- split and join

  /** `s.split(sep)` for a one-character separator: the maximal separator-free pieces. */
  function Split(s: string, sep: char): (parts: seq<string>)
    ensures |parts| >= 1
    ensures forall p :: p in parts ==> sep !in p
    decreases |s|
  {
    if s == [] then [""]
    else if s[0] == sep then [""] + Split(s[1..], sep)
    else
      var r := Split(s[1..], sep);
      [[s[0]] + r[0]] + r[1..]
  }

  /** `parts.join(sep)`. */
  function Join(parts: seq<string>, sep: char): string
    decreases |parts|
  {
    if parts == [] then ""
    else if |parts| == 1 then parts[0]
    else parts[0] + [sep] + Join(parts[1..], sep)
  }

  lemma {:induction false} SplitNoSep(a: string, sep: char)
    requires sep !in a
    ensures Split(a, sep) == [a]
    decreases |a|
  {
    if a != [] {
      SplitNoSep(a[1..], sep);
      assert [a[0]] + a[1..] == a;
    }
  }

  lemma {:induction false} SplitAt(a: string, sep: char, b: string)
    requires sep !in a
    ensures Split(a + [sep] + b, sep) == [a] + Split(b, sep)
    decreases |a|
  {
    var s := a + [sep] + b;
    if a == [] {
      assert s[1..] == b;
    } else {
      assert s[1..] == a[1..] + [sep] + b;
      SplitAt(a[1..], sep, b);
      assert [a[0]] + a[1..] == a;
    }
  }

  /** Splitting what `Join` glued gives the pieces back, as long as none holds the separator. */
  lemma {:induction false} SplitJoin(parts: seq<string>, sep: char)
    requires |parts| >= 1
    requires forall p :: p in parts ==> sep !in p
    ensures Split(Join(parts, sep), sep) == parts
    decreases |parts|
  {
    if |parts| == 1 {
      SplitNoSep(parts[0], sep);
    } else {
      SplitJoin(parts[1..], sep);
      SplitAt(parts[0], sep, Join(parts[1..], sep));
      assert [parts[0]] + parts[1..] == parts;
    }
  }

  // ---------------------------------------------------------------- search and replace

  predicate OccursAt(s: string, pat: string, i: nat)
  {
    i + |pat| <= |s| && s[i..i + |pat|] == pat
  }

  /** `s.includes(pat)`. */
  predicate Contains(s: string, pat: string)
  {
    exists i: nat | i <= |s| :: OccursAt(s, pat, i)
  }

  /** `s.indexOf(pat, from)`: the first occurrence at or after `from`, if any. */
  function IndexOf(s: string, pat: string, from: nat): (r: Option<nat>)
    ensures r.Some? ==> from <= r.value && OccursAt(s, pat, r.value)
    ensures r.Some? ==> forall k: nat :: from <= k < r.value ==> !OccursAt(s, pat, k)
    ensures r.None? ==> forall k: nat :: from <= k ==> !OccursAt(s, pat, k)
    decreases |s| - from
  {
    if from + |pat| > |s| then None
    else if s[from..from + |pat|] == pat then Some(from)
    else IndexOf(s, pat, from + 1)
  }

  /** An occurrence with none before it, from `from` on, is the one `indexOf` finds. */
  lemma IndexOfFirst(s: string, pat: string, from: nat, p: nat)
    requires from <= p && OccursAt(s, pat, p)
    requires forall k: nat :: from <= k < p ==> !OccursAt(s, pat, k)
    ensures IndexOf(s, pat, from) == Some(p)
  {
  }

  /** A pattern cannot start where its first character is absent. */
  lemma NoOccurrenceIn(s: string, pat: string, from: nat, to: nat)
    requires pat != [] && to <= |s|
    requires forall k :: from <= k < to ==> s[k] != pat[0]
    ensures forall k: nat :: from <= k < to ==> !OccursAt(s, pat, k)
  {
    forall k: nat | from <= k < to
      ensures !OccursAt(s, pat, k)
    {
      if k + |pat| <= |s| {
        assert s[k..k + |pat|][0] == s[k];
      }
    }
  }

  lemma ContainsIndexOf(s: string, pat: string)
    ensures Contains(s, pat) <==> IndexOf(s, pat, 0).Some?
  {
    if IndexOf(s, pat, 0).Some? {
      assert OccursAt(s, pat, IndexOf(s, pat, 0).value);
    }
  }

  /** The first occurrence of `pat` replaced by `rep`, inserted as it is: what the
      substitution of placeholders means to do with a string pattern. */
  function ReplaceFirst(s: string, pat: string, rep: string): (r: string)
  {
    match IndexOf(s, pat, 0)
    case None => s
    case Some(i) => s[..i] + rep + s[i + |pat|..]
  }

  lemma ReplaceFirstSpec(s: string, pat: string, rep: string)
    ensures !Contains(s, pat) ==> ReplaceFirst(s, pat, rep) == s
    ensures Contains(s, pat) ==> exists i: nat ::
      OccursAt(s, pat, i) && (forall k: nat :: k < i ==> !OccursAt(s, pat, k)) &&
      ReplaceFirst(s, pat, rep) == s[..i] + rep + s[i + |pat|..]
  {
    ContainsIndexOf(s, pat);
  }

  /** The text the GetSubstitution operation of ECMA-262 makes of a replacement string for
      a string pattern: `$$` is `$`, `$&` the matched text, `` $` `` the text before the
      match, `$'` the text after it; every other `$` stands for itself, since a string
      pattern has no capture groups. */
  function Expand(rep: string, matched: string, before: string, after: string): string
    decreases |rep|
  {
    if rep == [] then []
    else if |rep| >= 2 && rep[0] == '$' && rep[1] in "$&`'" then
      (if rep[1] == '$' then "$" else if rep[1] == '&' then matched else if rep[1] == '`' then before else after) +
      Expand(rep[2..], matched, before, after)
    else [rep[0]] + Expand(rep[1..], matched, before, after)
  }

  /** `s.replace(pat, rep)` as the runtime does it: the replacement is expanded first. */
  function ReplaceFirstAsWritten(s: string, pat: string, rep: string): string
  {
    match IndexOf(s, pat, 0)
    case None => s
    case Some(i) => s[..i] + Expand(rep, pat, s[..i], s[i + |pat|..]) + s[i + |pat|..]
  }

  /** Without a `$` the expansion is the replacement itself. */
  lemma {:induction false} ExpandPlain(rep: string, matched: string, before: string, after: string)
    requires '$' !in rep
    ensures Expand(rep, matched, before, after) == rep
    decreases |rep|
  {
    if rep != [] {
      assert rep[0] in rep;
      assert forall c :: c in rep[1..] ==> c in rep;
      ExpandPlain(rep[1..], matched, before, after);
      assert [rep[0]] + rep[1..] == rep;
    }
  }

  /** The runtime's replace and the intended one differ only on replacements with a `$`. */
  lemma ReplaceAgreesWithoutDollar(s: string, pat: string, rep: string)
    requires '$' !in rep
    ensures ReplaceFirstAsWritten(s, pat, rep) == ReplaceFirst(s, pat, rep)
  {
    match IndexOf(s, pat, 0)
    case None =>
    case Some(i) => ExpandPlain(rep, pat, s[..i], s[i + |pat|..]);
  }

  /** A value serialised as `"$&"` put in place of a placeholder: the runtime writes the
      placeholder back between the quotes instead of the value. */
  lemma DollarAmpersandReinsertsMatch()
    ensures ReplaceFirstAsWritten("{{x}}", "{{x}}", "\"$&\"") == "\"{{x}}\""
    ensures ReplaceFirst("{{x}}", "{{x}}", "\"$&\"") == "\"$&\""
  {
    var s := "{{x}}";
    assert OccursAt(s, s, 0);
    IndexOfFirst(s, s, 0, 0);
    assert s[..0] == "" && s[5..] == "";
    var e := ExpandQuotedMatch(s);
  }

  lemma ExpandQuotedMatch(m: string) returns (e: string)
    ensures e == Expand("\"$&\"", m, "", "") && e == "\"" + m + "\""
  {
    var q := "\"";
    assert Expand(q, m, "", "") == q;
    var r := "$&" + q;
    assert r[2..] == q;
    assert Expand(r, m, "", "") == m + q;
    assert ("\"" + r)[1..] == r;
    e := Expand("\"" + r, m, "", "");
    assert "\"" + r == "\"$&\"";
  }
}
