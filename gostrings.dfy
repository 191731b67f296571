/** The parts of Go's `strings`, `bytes`, `strconv` and `fmt` packages that the
    collectors and the report use, on strings of byte-valued characters.
    Case mapping and white-space trimming cover ASCII only. */
module GoStrings {

  /** `strings.HasPrefix`. */
  predicate HasPrefix(s: string, prefix: string)
  {
    prefix <= s
  }

  /** `sub` occurs in `s` starting at position `i`. */
  predicate OccursAt(s: string, sub: string, i: int)
  {
    0 <= i && i + |sub| <= |s| && s[i..i + |sub|] == sub
  }

  /** `strings.Contains`: `sub` occurs in `s` at some position (the empty string occurs everywhere). */
  function Contains(s: string, sub: string): (r: bool)
    ensures r <==> exists i :: OccursAt(s, sub, i)
    decreases |s|
  {
    if |sub| > |s| then false
    else if s[..|sub|] == sub then
      assert OccursAt(s, sub, 0);
      true
    else
      var r := Contains(s[1..], sub);
      assert r ==> exists i :: OccursAt(s, sub, i) by {
        if r {
          var i :| OccursAt(s[1..], sub, i);
          assert OccursAt(s, sub, i + 1);
        }
      }
      assert (exists i :: OccursAt(s, sub, i)) ==> r by {
        if exists i :: OccursAt(s, sub, i) {
          var i :| OccursAt(s, sub, i);
          assert i != 0;
          assert OccursAt(s[1..], sub, i - 1);
        }
      }
      r
  }

  function LowerChar(c: char): char
  {
    if 'A' <= c <= 'Z' then (c as int + 32) as char else c
  }

  /** `strings.ToLower` on ASCII letters. */
  function ToLower(s: string): (r: string)
    ensures |r| == |s|
    ensures forall i :: 0 <= i < |s| && !IsUpper(s[i]) ==> r[i] == s[i]
    ensures forall i :: 0 <= i < |s| && IsUpper(s[i]) ==> r[i] as int == s[i] as int + 32
  {
    seq(|s|, i requires 0 <= i < |s| => LowerChar(s[i]))
  }

  predicate IsUpper(c: char)
  {
    'A' <= c <= 'Z'
  }

  /** Lower-casing leaves no upper-case ASCII letter. */
  lemma ToLowerHasNoUpper(s: string)
    ensures forall i :: 0 <= i < |ToLower(s)| ==> !IsUpper(ToLower(s)[i])
  {
  }

  /** The characters `strings.TrimSpace` removes from ASCII text. */
  predicate IsSpace(c: char)
  {
    c == ' ' || c == '\t' || c == '\n' || c == '\U{000B}' || c == '\U{000C}' || c == '\r'
  }

  predicate AllSpace(s: string)
  {
    forall i :: 0 <= i < |s| ==> IsSpace(s[i])
  }

  /** The number of white-space characters `s` starts with. */
  function LeadingSpaces(s: string): (n: nat)
    ensures n <= |s| && AllSpace(s[..n]) && (n < |s| ==> !IsSpace(s[n]))
  {
    if s != [] && IsSpace(s[0]) then
      var n := 1 + LeadingSpaces(s[1..]);
      assert s[..n] == [s[0]] + s[1..][..n - 1];
      n
    else 0
  }

  /** Where the white space `s` ends with begins. */
  function TrailingSpaces(s: string): (j: nat)
    ensures j <= |s| && AllSpace(s[j..]) && (j > 0 ==> !IsSpace(s[j - 1]))
    decreases |s|
  {
    if s != [] && IsSpace(s[|s| - 1]) then
      var j := TrailingSpaces(s[..|s| - 1]);
      assert s[j..] == s[..|s| - 1][j..] + [s[|s| - 1]];
      j
    else |s|
  }

  function TrimLeftSpace(s: string): (r: string)
    ensures exists i :: 0 <= i <= |s| && r == s[i..] && AllSpace(s[..i])
    ensures r == [] || !IsSpace(r[0])
  {
    var i := LeadingSpaces(s);
    assert s[i..] == [] || s[i..][0] == s[i];
    s[i..]
  }

  function TrimRightSpace(s: string): (r: string)
    ensures exists j :: 0 <= j <= |s| && r == s[..j] && AllSpace(s[j..])
    ensures r == [] || !IsSpace(r[|r| - 1])
  {
    var j := TrailingSpaces(s);
    assert s[..j] == [] || s[..j][j - 1] == s[j - 1];
    s[..j]
  }

  /** `strings.TrimSpace`: white space removed at both ends. The result is a
      contiguous piece of the input, what was cut off is all white space, and it
      neither starts nor ends with white space. */
  function TrimSpace(s: string): (r: string)
    ensures exists i, j :: 0 <= i <= j <= |s| && r == s[i..j] && AllSpace(s[..i]) && AllSpace(s[j..])
    ensures r == [] || (!IsSpace(r[0]) && !IsSpace(r[|r| - 1]))
  {
    var t := TrimRightSpace(s);
    var r := TrimLeftSpace(t);
    TrimSpaceSlice(s, t, r);
    r
  }

  lemma TrimSpaceSlice(s: string, t: string, r: string)
    requires exists j :: 0 <= j <= |s| && t == s[..j] && AllSpace(s[j..])
    requires exists i :: 0 <= i <= |t| && r == t[i..] && AllSpace(t[..i])
    ensures exists i, j :: 0 <= i <= j <= |s| && r == s[i..j] && AllSpace(s[..i]) && AllSpace(s[j..])
  {
    var j :| 0 <= j <= |s| && t == s[..j] && AllSpace(s[j..]);
    var i :| 0 <= i <= |t| && r == t[i..] && AllSpace(t[..i]);
    assert t[..i] == s[..i];
    assert r == s[i..j];
  }

  /** Go's bytes.TrimRight with a newline cutset: every trailing newline removed. */
  function TrimRightNewlines(s: string): (r: string)
    ensures r <= s
    ensures r == [] || r[|r| - 1] != '\n'
    ensures forall i :: |r| <= i < |s| ==> s[i] == '\n'
  {
    if s != [] && s[|s| - 1] == '\n' then TrimRightNewlines(s[..|s| - 1]) else s
  }

  lemma {:induction false} TrimRightSpaceAfterNewlines(s: string)
    ensures TrimRightSpace(TrimRightNewlines(s)) == TrimRightSpace(s)
    decreases |s|
  {
    if s != [] && s[|s| - 1] == '\n' {
      TrimRightSpaceAfterNewlines(s[..|s| - 1]);
      var j := TrailingSpaces(s[..|s| - 1]);
      assert s[..|s| - 1][..j] == s[..j];
    }
  }

  /** Removing trailing newlines before `strings.TrimSpace` changes nothing: the
      name lookup in pkg/collector/memory/helpers.go and the one in
      pkg/collector/cpu/helpers.go compute the same name from the same file. */
  lemma TrimSpaceAfterNewlines(s: string)
    ensures TrimSpace(TrimRightNewlines(s)) == TrimSpace(s)
  {
    TrimRightSpaceAfterNewlines(s);
  }

  predicate IsDigit(c: char)
  {
    '0' <= c <= '9'
  }

  function DigitChar(d: nat): char
    requires d < 10
  {
    ('0' as int + d) as char
  }

  /** Decimal text of a natural number, as `%d` and `strconv.FormatUint` print it. */
  function FormatUint(n: nat): (s: string)
    ensures |s| > 0
    ensures forall i :: 0 <= i < |s| ==> IsDigit(s[i])
    // no leading zeros: only 0 itself prints as "0"
    ensures s[0] != '0' || s == "0"
    ensures s == "0" <==> n == 0
  {
    if n < 10 then [DigitChar(n)] else FormatUint(n / 10) + [DigitChar(n % 10)]
  }

  /** The value of a string of decimal digits. */
  function ParseUint(s: string): nat
    requires forall i :: 0 <= i < |s| ==> IsDigit(s[i])
  {
    if s == [] then 0
    else
      assert IsDigit(s[|s| - 1]);
      ParseUint(s[..|s| - 1]) * 10 + (s[|s| - 1] as int - '0' as int)
  }

  /** Printing a number in decimal loses nothing: parsing the text gives it back. */
  lemma {:induction false} ParseFormatUint(n: nat)
    ensures ParseUint(FormatUint(n)) == n
  {
    if n >= 10 {
      var s := FormatUint(n);
      assert s[..|s| - 1] == FormatUint(n / 10);
      ParseFormatUint(n / 10);
    }
  }

  /** Different numbers print differently. */
  lemma FormatUintInjective(a: nat, b: nat)
    requires FormatUint(a) == FormatUint(b)
    ensures a == b
  {
    ParseFormatUint(a);
    ParseFormatUint(b);
  }
}
