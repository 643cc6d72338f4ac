/**
 * The string operations the reconciliation routine borrows from Python:
 * `str.strip()`, `str.rstrip('/')`, `'/'.join(...)` and the decimal rendering
 * of an integer inside an f-string.
 */
module Text {

  /** Python's `str.isspace()` for one character: the characters `str.strip()` removes. */
  predicate IsSpace(c: char) {
    || c == ' '
    || ('\t' <= c <= '\r')
    || ('\U{1c}' <= c <= '\U{1f}')
    || c == '\U{85}'
    || c == '\U{a0}'
    || c == '\U{1680}'
    || ('\U{2000}' <= c <= '\U{200a}')
    || c == '\U{2028}'
    || c == '\U{2029}'
    || c == '\U{202f}'
    || c == '\U{205f}'
    || c == '\U{3000}'
  }

  /** `s.lstrip()`: the suffix of `s` left after dropping its leading whitespace. */
  function TrimStart(s: string): (r: string)
    ensures |r| <= |s| && r == s[|s| - |r|..]
    ensures r == [] || !IsSpace(r[0])
  {
    if |s| > 0 && IsSpace(s[0]) then TrimStart(s[1..]) else s
  }

  /** `lstrip()` drops only whitespace. */
  lemma {:induction false} TrimStartDropsSpace(s: string)
    ensures forall k :: 0 <= k < |s| - |TrimStart(s)| ==> IsSpace(s[k])
  {
    if |s| > 0 && IsSpace(s[0]) {
      TrimStartDropsSpace(s[1..]);
      assert forall k :: 1 <= k < |s| ==> s[k] == s[1..][k - 1];
    }
  }

  /** `s.rstrip()`: the prefix of `s` left after dropping its trailing whitespace. */
  function TrimEnd(s: string): (r: string)
    ensures |r| <= |s| && r == s[..|r|]
    ensures r == [] || !IsSpace(r[|r| - 1])
  {
    if |s| > 0 && IsSpace(s[|s| - 1]) then TrimEnd(s[..|s| - 1]) else s
  }

  /** `rstrip()` drops only whitespace. */
  lemma {:induction false} TrimEndDropsSpace(s: string)
    ensures forall k :: |TrimEnd(s)| <= k < |s| ==> IsSpace(s[k])
  {
    if |s| > 0 && IsSpace(s[|s| - 1]) {
      TrimEndDropsSpace(s[..|s| - 1]);
    }
  }

  /** `s.strip()`. */
  function Strip(s: string): (r: string)
    ensures |r| <= |s|
    ensures r == [] || (!IsSpace(r[0]) && !IsSpace(r[|r| - 1]))
  {
    TrimEnd(TrimStart(s))
  }

  /** `s.rstrip('/')`: the prefix of `s` left after dropping every trailing slash. */
  function TrimTrailingSlashes(s: string): (r: string)
    ensures |r| <= |s| && r == s[..|r|]
    ensures r == [] || r[|r| - 1] != '/'
  {
    if |s| > 0 && s[|s| - 1] == '/' then TrimTrailingSlashes(s[..|s| - 1]) else s
  }

  /** `rstrip('/')` drops only slashes. */
  lemma {:induction false} TrimTrailingSlashesDropsSlashes(s: string)
    ensures forall k :: |TrimTrailingSlashes(s)| <= k < |s| ==> s[k] == '/'
  {
    if |s| > 0 && s[|s| - 1] == '/' {
      TrimTrailingSlashesDropsSlashes(s[..|s| - 1]);
    }
  }

  /** The plan-map key of a planned path: `str(path).strip().rstrip('/')`. */
  function Normalize(s: string): string {
    TrimTrailingSlashes(Strip(s))
  }

  /** `strip()` leaves nothing exactly when the string is all whitespace. */
  lemma StripEmptyIff(s: string)
    ensures Strip(s) == [] <==> forall k :: 0 <= k < |s| ==> IsSpace(s[k])
  {
    var t := TrimStart(s);
    TrimStartDropsSpace(s);
    TrimEndDropsSpace(t);
    assert t != [] ==> t[0] == s[|s| - |t|];
  }

  /** A string with no whitespace at either end is its own `strip()`. */
  lemma StripFixed(s: string)
    requires s == [] || (!IsSpace(s[0]) && !IsSpace(s[|s| - 1]))
    ensures Strip(s) == s
  {
    assert TrimStart(s) == s;
  }

  /** Stripping twice is stripping once. */
  lemma StripIdempotent(s: string)
    ensures Strip(Strip(s)) == Strip(s)
  {
    StripFixed(Strip(s));
  }

  /**
   * A normalised key has no leading whitespace and no trailing slash; it is
   * the stripped path with only slashes removed from its end.
   */
  lemma NormalizeShape(s: string)
    ensures Normalize(s) <= Strip(s)
    ensures forall k :: |Normalize(s)| <= k < |Strip(s)| ==> Strip(s)[k] == '/'
    ensures Normalize(s) == [] || (!IsSpace(Normalize(s)[0]) && Normalize(s)[|Normalize(s)| - 1] != '/')
  {
    var t := Strip(s);
    var r := Normalize(s);
    TrimTrailingSlashesDropsSlashes(t);
    if r != [] {
      assert r[0] == t[0];
    }
  }

  /** The key is empty exactly when the stripped path is made of slashes only. */
  lemma NormalizeEmptyIff(s: string)
    ensures Normalize(s) == [] <==> forall k :: 0 <= k < |Strip(s)| ==> Strip(s)[k] == '/'
  {
    var t := Strip(s);
    var r := Normalize(s);
    TrimTrailingSlashesDropsSlashes(t);
    assert r != [] ==> r[|r| - 1] == t[|r| - 1];
  }

  /**
   * `strip().rstrip('/')` is not idempotent: removing the slash of "A /"
   * exposes a space that a second normalisation would strip.
   */
  lemma NormalizeNotIdempotent()
    ensures Normalize("A /") == "A "
    ensures Normalize("A ") == "A"
    ensures Normalize(Normalize("A /")) != Normalize("A /")
  {
    SlashAfterSpace();
    TrailingSpace();
  }

  lemma SlashAfterSpace()
    ensures Normalize("A /") == "A "
  {
    var s := "A /";
    assert Strip(s) == s by { StripFixed(s); }
    assert s[|s| - 1] == '/' && s[..|s| - 1] == "A ";
    assert TrimTrailingSlashes("A ") == "A ";
  }

  lemma TrailingSpace()
    ensures Normalize("A ") == "A"
  {
    assert TrimStart("A ") == "A ";
    assert "A "[..1] == "A";
    assert TrimEnd("A ") == TrimEnd("A");
    assert Strip("A ") == "A";
  }

  /**
   * Normalising a key again changes nothing unless the key ends in
   * whitespace (which only happens when slashes followed that whitespace).
   */
  lemma NormalizeIdempotentWhen(s: string)
    requires Normalize(s) == [] || !IsSpace(Normalize(s)[|Normalize(s)| - 1])
    ensures Normalize(Normalize(s)) == Normalize(s)
  {
    var r := Normalize(s);
    NormalizeShape(s);
    StripFixed(r);
    assert TrimTrailingSlashes(r) == r;
  }

  /** `sep.join(parts)`. */
  function Join(parts: seq<string>, sep: string): string {
    if parts == [] then []
    else if |parts| == 1 then parts[0]
    else parts[0] + sep + Join(parts[1..], sep)
  }

  /** Joining non-empty parts gives the empty string exactly when there are no parts. */
  lemma {:induction false} JoinEmptyIff(parts: seq<string>, sep: string)
    requires forall k :: 0 <= k < |parts| ==> parts[k] != []
    ensures Join(parts, sep) == [] <==> parts == []
  {
    if |parts| > 1 {
      assert |Join(parts, sep)| >= |parts[0]| > 0;
    }
  }

  /** The joined string starts with the first part. */
  lemma JoinStartsWithFirst(parts: seq<string>, sep: string)
    requires parts != []
    ensures parts[0] <= Join(parts, sep)
  {
  }

  /** The joined string is as long as the parts plus one separator between each neighbouring pair. */
  lemma {:induction false} JoinLength(parts: seq<string>, sep: string)
    requires parts != []
    ensures |Join(parts, sep)| == TotalLength(parts) + (|parts| - 1) * |sep|
  {
    if |parts| > 1 {
      JoinLength(parts[1..], sep);
      assert TotalLength(parts) == |parts[0]| + TotalLength(parts[1..]);
    }
  }

  function TotalLength(parts: seq<string>): nat {
    if parts == [] then 0 else |parts[0]| + TotalLength(parts[1..])
  }

  predicate IsDigit(c: char) {
    '0' <= c <= '9'
  }

  function DigitChar(d: nat): (c: char)
    requires d < 10
    ensures IsDigit(c) && c as int - '0' as int == d
  {
    ('0' as int + d) as char
  }

  /** The decimal rendering of a non-negative integer, as `f"{n}"` writes it. */
  function DecimalString(n: nat): (r: string)
    ensures r != []
    ensures forall k :: 0 <= k < |r| ==> IsDigit(r[k])
    ensures n > 0 ==> r[0] != '0'
  {
    if n < 10 then [DigitChar(n)] else DecimalString(n / 10) + [DigitChar(n % 10)]
  }

  /** The value of a string of decimal digits. */
  function DigitsValue(s: string): nat
    requires forall k :: 0 <= k < |s| ==> IsDigit(s[k])
  {
    if s == [] then 0
    else
      assert IsDigit(s[|s| - 1]);
      DigitsValue(s[..|s| - 1]) * 10 + (s[|s| - 1] as int - '0' as int)
  }

  /** Reading back the decimal rendering of `n` gives `n`. */
  lemma {:induction false} DecimalRoundTrip(n: nat)
    ensures DigitsValue(DecimalString(n)) == n
  {
    var r := DecimalString(n);
    if n >= 10 {
      DecimalRoundTrip(n / 10);
      assert r[..|r| - 1] == DecimalString(n / 10);
    }
  }

  /** Two numbers with the same decimal rendering are equal. */
  lemma DecimalInjective(a: nat, b: nat)
    requires DecimalString(a) == DecimalString(b)
    ensures a == b
  {
    DecimalRoundTrip(a);
    DecimalRoundTrip(b);
  }
}
