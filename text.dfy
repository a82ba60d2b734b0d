// Python 2 byte-string operations the raster tools rely on: str.strip, str.lower,
// str.split with a one-character separator, str.join, str.endswith, str.replace,
// and int() on decimal text. Strings are ASCII here, as Python 2 `str` values are bytes.

module Text {

  datatype Option<T> = None | Some(value: T)

  /** The bytes Python 2 treats as whitespace: space, and tab through carriage return. */
  predicate IsSpace(c: char) {
    c == ' ' || ('\t' <= c <= '\r')
  }

  /** str.strip(): whitespace removed from both ends, the leading run first. */
  function Strip(s: string): (r: string)
    ensures |r| <= |s|
    ensures |r| > 0 ==> !IsSpace(r[0]) && !IsSpace(r[|r| - 1])
  {
    if |s| > 0 && IsSpace(s[0]) then Strip(s[1..])
    else if |s| > 0 && IsSpace(s[|s| - 1]) then Strip(s[..|s| - 1])
    else s
  }

  /** r is s[i..i + |r|] and everything of s outside that slice is whitespace. */
  predicate PaddedSlice(s: string, r: string, i: int) {
    0 <= i && i + |r| <= |s| && r == s[i..i + |r|] &&
    (forall j :: 0 <= j < i ==> IsSpace(s[j])) &&
    (forall j :: i + |r| <= j < |s| ==> IsSpace(s[j]))
  }

  /** strip() keeps one contiguous slice and drops only whitespace around it. */
  lemma {:induction false} StripSlice(s: string)
    ensures exists i :: PaddedSlice(s, Strip(s), i)
    decreases |s|
  {
    var r := Strip(s);
    if |s| > 0 && IsSpace(s[0]) {
      StripSlice(s[1..]);
      var i :| PaddedSlice(s[1..], r, i);
      PaddedFront(s, r, i);
    } else if |s| > 0 && IsSpace(s[|s| - 1]) {
      StripSlice(s[..|s| - 1]);
      var i :| PaddedSlice(s[..|s| - 1], r, i);
      PaddedBack(s, r, i);
    } else {
      assert PaddedSlice(s, r, 0);
    }
  }

  lemma PaddedFront(s: string, r: string, i: int)
    requires |s| > 0 && IsSpace(s[0]) && PaddedSlice(s[1..], r, i)
    ensures PaddedSlice(s, r, i + 1)
  {
    assert s[1..][i..i + |r|] == s[i + 1..i + 1 + |r|];
    assert forall j :: 1 <= j < |s| ==> s[j] == s[1..][j - 1];
  }

  lemma PaddedBack(s: string, r: string, i: int)
    requires |s| > 0 && IsSpace(s[|s| - 1]) && PaddedSlice(s[..|s| - 1], r, i)
    ensures PaddedSlice(s, r, i)
  {
    assert s[..|s| - 1][i..i + |r|] == s[i..i + |r|];
    assert forall j :: 0 <= j < |s| - 1 ==> s[j] == s[..|s| - 1][j];
  }

  predicate IsUpper(c: char) {
    'A' <= c <= 'Z'
  }

  function LowerChar(c: char): char {
    if IsUpper(c) then (c as int + 32) as char else c
  }

  /** str.lower() on a byte string: only A-Z change. */
  function Lower(s: string): string {
    seq(|s|, i requires 0 <= i < |s| => LowerChar(s[i]))
  }

  /** str.join: the parts with `sep` between consecutive ones. */
  function Join(parts: seq<string>, sep: string): string {
    if |parts| == 0 then ""
    else if |parts| == 1 then parts[0]
    else parts[0] + sep + Join(parts[1..], sep)
  }

  /** s.split(sep) for a one-character separator: the maximal pieces between separators,
      empty pieces included, so there is always at least one piece. */
  function Split(s: string, sep: char): (parts: seq<string>)
    ensures |parts| >= 1
    ensures forall i :: 0 <= i < |parts| ==> sep !in parts[i]
    ensures Join(parts, [sep]) == s
  {
    if |s| == 0 then [""]
    else
      var rest := Split(s[1..], sep);
      if s[0] == sep then
        assert s == [sep] + s[1..];
        [""] + rest
      else
        JoinConsHead([s[0]], rest, [sep]);
        assert s == [s[0]] + s[1..];
        [[s[0]] + rest[0]] + rest[1..]
  }

  /** Prepending text to the first part prepends it to the joined string. */
  lemma {:induction false} JoinConsHead(a: string, parts: seq<string>, sep: string)
    requires |parts| >= 1
    ensures Join([a + parts[0]] + parts[1..], sep) == a + Join(parts, sep)
  {
    var ps := [a + parts[0]] + parts[1..];
    if |parts| > 1 {
      assert ps[1..] == parts[1..];
    }
  }

  /** Splitting a joined list of separator-free parts gives the parts back. */
  lemma {:induction false} SplitJoin(parts: seq<string>, sep: char)
    requires |parts| >= 1
    requires forall i :: 0 <= i < |parts| ==> sep !in parts[i]
    ensures Split(Join(parts, [sep]), sep) == parts
    decreases |parts|, |parts[0]|
  {
    var s := Join(parts, [sep]);
    if |parts[0]| == 0 {
      if |parts| > 1 {
        assert s == [sep] + Join(parts[1..], [sep]);
        assert s[1..] == Join(parts[1..], [sep]);
        SplitJoin(parts[1..], sep);
        assert parts == [""] + parts[1..];
      }
    } else {
      var c := parts[0][0];
      var tail := [parts[0][1..]] + parts[1..];
      assert tail[1..] == parts[1..];
      assert parts[0] == [c] + parts[0][1..];
      JoinConsHead([c], tail, [sep]);
      assert [[c] + tail[0]] + tail[1..] == parts;
      assert s == [c] + Join(tail, [sep]);
      assert s[1..] == Join(tail, [sep]);
      forall i | 0 <= i < |tail| ensures sep !in tail[i] {
        if i == 0 {
          assert parts[0] == [c] + parts[0][1..];
        } else {
          assert tail[i] == parts[i];
        }
      }
      SplitJoin(tail, sep);
      assert s[0] == c && c != sep;
    }
  }

  predicate EndsWith(s: string, suffix: string) {
    |suffix| <= |s| && s[|s| - |suffix|..] == suffix
  }

  predicate StartsWith(s: string, prefix: string) {
    |prefix| <= |s| && s[..|prefix|] == prefix
  }

  /** `pat` occurs in `s` at index k. */
  predicate OccursAt(s: string, pat: string, k: int) {
    0 <= k && k + |pat| <= |s| && s[k..k + |pat|] == pat
  }

  ghost predicate Occurs(s: string, pat: string) {
    exists k :: OccursAt(s, pat, k)
  }

  /** An occurrence in the tail of a text is an occurrence in the text. */
  lemma OccursShift(s: string, pat: string)
    requires |s| > 0
    ensures Occurs(s[1..], pat) ==> Occurs(s, pat)
  {
    if Occurs(s[1..], pat) {
      var k :| OccursAt(s[1..], pat, k);
      assert s[1..][k..k + |pat|] == s[k + 1..k + 1 + |pat|];
      assert OccursAt(s, pat, k + 1);
    }
  }

  /** s.replace(pat, rep): every occurrence of `pat`, found left to right without
      overlaps, replaced by `rep`. Text without an occurrence, in particular text shorter
      than the pattern, is left as it is; a replacement as long as the pattern keeps the
      length. */
  function ReplaceAll(s: string, pat: string, rep: string): (r: string)
    requires |pat| > 0
    ensures !Occurs(s, pat) ==> r == s
    ensures |s| < |pat| ==> r == s
    ensures |rep| == |pat| ==> |r| == |s|
    decreases |s|
  {
    if |s| == 0 then ""
    else if StartsWith(s, pat) then
      assert OccursAt(s, pat, 0);
      rep + ReplaceAll(s[|pat|..], pat, rep)
    else
      assert s == [s[0]] + s[1..];
      OccursShift(s, pat);
      [s[0]] + ReplaceAll(s[1..], pat, rep)
  }

  /** For a pattern that cannot overlap itself, replacing is splitting at the pattern and
      joining with the replacement: `s.replace(pat, rep) == rep.join(s.split(pat))`, so
      the occurrences change and nothing else does. */
  lemma {:induction false} ReplaceAllJoin(xs: seq<string>, pat: string, rep: string)
    requires |pat| > 0 && BorderFree(pat) && |xs| >= 1
    requires forall i :: 0 <= i < |xs| ==> !Occurs(xs[i], pat)
    ensures ReplaceAll(Join(xs, pat), pat, rep) == Join(xs, rep)
    decreases |xs|
  {
    if |xs| > 1 {
      var y := Join(xs[1..], pat);
      ConcatAssoc(xs[0], pat, y);
      ReplaceAllAcross(xs[0], pat, rep, y);
      assert forall i :: 0 <= i < |xs[1..]| ==> xs[1..][i] == xs[i + 1];
      ReplaceAllJoin(xs[1..], pat, rep);
      ConcatAssoc(xs[0], rep, Join(xs[1..], rep));
    }
  }

  /** No proper prefix of `pat` is also a suffix of it, so two occurrences never overlap. */
  predicate BorderFree(pat: string) {
    forall k :: 0 < k < |pat| ==> pat[..k] != pat[|pat| - k..]
  }

  /** A border-free pattern cannot start inside a shorter prefix and end inside itself. */
  lemma NoStraddlingMatch(a: string, pat: string)
    requires BorderFree(pat) && 0 < |a| < |pat|
    ensures !StartsWith(a + pat, pat)
  {
    var s, k := a + pat, |pat| - |a|;
    assert s[|a|..|pat|] == pat[..k];
    assert pat[..k] != pat[|a|..];
  }

  /** When `pat` cannot overlap itself, an occurrence of it is always one of those
      replaced, whatever comes before it, and the text after it is scanned on its own. */
  lemma {:induction false} ReplaceAllAcross(a: string, pat: string, rep: string, y: string)
    requires |pat| > 0 && BorderFree(pat)
    ensures ReplaceAll(a + (pat + y), pat, rep) == ReplaceAll(a, pat, rep) + (rep + ReplaceAll(y, pat, rep))
    decreases |a|
  {
    var s := a + (pat + y);
    if |a| == 0 {
      assert s == pat + y;
      assert s[..|pat|] == pat && s[|pat|..] == y;
      ReplaceAllMatch(s, pat, rep);
      assert "" + (rep + ReplaceAll(y, pat, rep)) == rep + ReplaceAll(y, pat, rep);
    } else if |a| < |pat| {
      NoStraddlingMatch(a, pat);
      assert s[..|pat|] == (a + pat)[..|pat|];
      ReplaceAllAcross(a[1..], pat, rep, y);
      AcrossStep(a, pat + y, pat, rep, rep + ReplaceAll(y, pat, rep), 1);
    } else if StartsWith(a, pat) {
      ReplaceAllAcross(a[|pat|..], pat, rep, y);
      AcrossStep(a, pat + y, pat, rep, rep + ReplaceAll(y, pat, rep), |pat|);
    } else {
      ReplaceAllAcross(a[1..], pat, rep, y);
      AcrossStep(a, pat + y, pat, rep, rep + ReplaceAll(y, pat, rep), 1);
    }
  }

  /** One step of `ReplaceAllAcross`: the scan consumes the same `d` characters of `a`
      whether or not the tail `t` follows it. */
  lemma AcrossStep(a: string, t: string, pat: string, rep: string, r: string, d: int)
    requires |pat| > 0 && 0 < |a|
    requires if StartsWith(a, pat) then d == |pat| else d == 1
    requires !StartsWith(a + t, pat) || |pat| <= |a|
    requires ReplaceAll(a[d..] + t, pat, rep) == ReplaceAll(a[d..], pat, rep) + r
    ensures ReplaceAll(a + t, pat, rep) == ReplaceAll(a, pat, rep) + r
  {
    if StartsWith(a, pat) {
      AcrossMatch(a, t, pat, rep, r);
    } else {
      AcrossSkip(a, t, pat, rep, r);
    }
  }

  lemma AcrossMatch(a: string, t: string, pat: string, rep: string, r: string)
    requires 0 < |pat| <= |a| && StartsWith(a, pat)
    requires ReplaceAll(a[|pat|..] + t, pat, rep) == ReplaceAll(a[|pat|..], pat, rep) + r
    ensures ReplaceAll(a + t, pat, rep) == ReplaceAll(a, pat, rep) + r
  {
    var s := a + t;
    assert s[|pat|..] == a[|pat|..] + t;
    assert s[..|pat|] == a[..|pat|];
    ReplaceAllMatch(s, pat, rep);
    ReplaceAllMatch(a, pat, rep);
    ConcatAssoc(rep, ReplaceAll(a[|pat|..], pat, rep), r);
  }

  lemma AcrossSkip(a: string, t: string, pat: string, rep: string, r: string)
    requires 0 < |pat| && 0 < |a| && !StartsWith(a, pat)
    requires !StartsWith(a + t, pat) || |pat| <= |a|
    requires ReplaceAll(a[1..] + t, pat, rep) == ReplaceAll(a[1..], pat, rep) + r
    ensures ReplaceAll(a + t, pat, rep) == ReplaceAll(a, pat, rep) + r
  {
    var s := a + t;
    assert s[1..] == a[1..] + t;
    if |pat| <= |a| {
      assert s[..|pat|] == a[..|pat|];
    }
    ReplaceAllSkip(s, pat, rep);
    ReplaceAllSkip(a, pat, rep);
    ConcatAssoc([a[0]], ReplaceAll(a[1..], pat, rep), r);
  }

  /** A trailing occurrence is always replaced. */
  lemma ReplaceAllTrailing(a: string, pat: string, rep: string)
    requires |pat| > 0 && BorderFree(pat)
    ensures ReplaceAll(a + pat, pat, rep) == ReplaceAll(a, pat, rep) + rep
  {
    ReplaceAllAcross(a, pat, rep, "");
    assert pat + "" == pat && rep + "" == rep;
  }

  lemma ConcatAssoc(x: string, y: string, z: string)
    ensures x + (y + z) == (x + y) + z
  {
  }

  lemma ReplaceAllMatch(s: string, pat: string, rep: string)
    requires |pat| > 0 && StartsWith(s, pat)
    ensures ReplaceAll(s, pat, rep) == rep + ReplaceAll(s[|pat|..], pat, rep)
  {
  }

  lemma ReplaceAllSkip(s: string, pat: string, rep: string)
    requires |pat| > 0 && |s| > 0 && !StartsWith(s, pat)
    ensures ReplaceAll(s, pat, rep) == [s[0]] + ReplaceAll(s[1..], pat, rep)
  {
  }

  predicate IsDigit(c: char) {
    '0' <= c <= '9'
  }

  function DigitValue(c: char): nat
    requires IsDigit(c)
  {
    c as int - '0' as int
  }

  /** The number written by a non-empty run of decimal digits. */
  function DigitsValue(ds: string): nat
    requires forall i :: 0 <= i < |ds| ==> IsDigit(ds[i])
  {
    if |ds| == 0 then 0 else DigitsValue(ds[..|ds| - 1]) * 10 + DigitValue(ds[|ds| - 1])
  }

  predicate AllDigits(ds: string) {
    |ds| > 0 && forall i :: 0 <= i < |ds| ==> IsDigit(ds[i])
  }

  /** float(s) on integer text: surrounding whitespace, an optional sign directly before
      the digits, at least one digit. The value is the digits' number, negated after '-';
      leading zeros and a '+' change nothing. */
  function ParseInt(s: string): (r: Option<int>)
    ensures r.Some? <==>
      var t := Strip(s);
      AllDigits(t) || (|t| > 1 && (t[0] == '-' || t[0] == '+') && AllDigits(t[1..]))
    ensures r.Some? ==>
      var t := Strip(s);
      var digits := if IsDigit(t[0]) then t else t[1..];
      AllDigits(digits) && r.value == (if t[0] == '-' then 0 - DigitsValue(digits) else DigitsValue(digits))
  {
    var t := Strip(s);
    if AllDigits(t) then Some(DigitsValue(t))
    else if |t| > 1 && t[0] == '-' && AllDigits(t[1..]) then Some(0 - DigitsValue(t[1..]))
    else if |t| > 1 && t[0] == '+' && AllDigits(t[1..]) then Some(DigitsValue(t[1..]))
    else None
  }

  /** Decimal digits of a natural number, most significant first, no leading zeros. */
  function NatToString(n: nat): (s: string)
    ensures AllDigits(s)
  {
    if n < 10 then [('0' as int + n) as char]
    else NatToString(n / 10) + [('0' as int + n % 10) as char]
  }

  /** str(n) for an integer. */
  function IntToString(n: int): string {
    if n < 0 then "-" + NatToString(-n) else NatToString(n)
  }

  lemma {:induction false} NatToStringValue(n: nat)
    ensures DigitsValue(NatToString(n)) == n
  {
    var s := NatToString(n);
    if n >= 10 {
      NatToStringValue(n / 10);
      assert s[..|s| - 1] == NatToString(n / 10);
    }
  }

  /** Text with no whitespace at either end is its own strip. */
  lemma StripUnpadded(s: string)
    requires |s| > 0 && !IsSpace(s[0]) && !IsSpace(s[|s| - 1])
    ensures Strip(s) == s
  {
  }

  /** int(str(n)) == n. */
  lemma {:induction false} ParseIntToString(n: int)
    ensures ParseInt(IntToString(n)) == Some(n)
  {
    var s := IntToString(n);
    if n < 0 {
      NatToStringValue(-n);
      assert s[1..] == NatToString(-n);
      assert !IsDigit(s[0]);
    } else {
      NatToStringValue(n);
    }
    StripUnpadded(s);
  }

  /** int(s) in base 10. Unlike float(), int() skips whitespace again after the sign:
      surrounding whitespace, an optional sign, optional whitespace, at least one digit.
      On every text float() reads as a whole number, int() gives the same value. */
  function IntOf(s: string): (r: Option<int>)
    ensures r.Some? <==>
      var t := Strip(s);
      AllDigits(t) || (|t| > 1 && (t[0] == '-' || t[0] == '+') && AllDigits(Strip(t[1..])))
    ensures ParseInt(s).Some? ==> r == ParseInt(s)
  {
    var t := Strip(s);
    if AllDigits(t) then Some(DigitsValue(t))
    else if |t| > 1 && (t[0] == '-' || t[0] == '+') && AllDigits(Strip(t[1..])) then
      var digits := Strip(t[1..]);
      if AllDigits(t[1..]) then
        StripUnpadded(t[1..]);
        Some(if t[0] == '-' then 0 - DigitsValue(digits) else DigitsValue(digits))
      else
        Some(if t[0] == '-' then 0 - DigitsValue(digits) else DigitsValue(digits))
    else None
  }

  /** Whitespace before unpadded text is all strip() removes. */
  lemma {:induction false} StripLeading(w: string, d: string)
    requires forall i :: 0 <= i < |w| ==> IsSpace(w[i])
    requires |d| > 0 && !IsSpace(d[0]) && !IsSpace(d[|d| - 1])
    ensures Strip(w + d) == d
    decreases |w|
  {
    if |w| == 0 {
      assert w + d == d;
      StripUnpadded(d);
    } else {
      assert (w + d)[0] == w[0];
      assert (w + d)[1..] == w[1..] + d;
      StripLeading(w[1..], d);
    }
  }

  /** A sign, whitespace, then digits: int() reads the signed number, while float() and
      `ParseInt` reject the text as soon as any whitespace follows the sign. */
  lemma IntSpaceAfterSign(sign: char, w: string, d: string)
    requires sign == '-' || sign == '+'
    requires forall i :: 0 <= i < |w| ==> IsSpace(w[i])
    requires AllDigits(d)
    ensures IntOf([sign] + w + d) == Some(if sign == '-' then 0 - DigitsValue(d) else DigitsValue(d))
    ensures |w| > 0 ==> ParseInt([sign] + w + d).None?
  {
    var s := [sign] + w + d;
    assert s[0] == sign && s[|s| - 1] == d[|d| - 1];
    StripUnpadded(s);
    assert s[1..] == w + d;
    StripLeading(w, d);
    assert !IsDigit(s[0]);
    if |w| > 0 {
      assert s[1..][0] == w[0];
    }
  }

  /** int(str(n)) == n. */
  lemma IntOfToString(n: int)
    ensures IntOf(IntToString(n)) == Some(n)
  {
    ParseIntToString(n);
  }

  /** str.format(*args) on a template whose only braces are positional fields `{0}`..`{9}`
      naming an argument: each field is replaced by its argument, and the arguments
      themselves are not scanned again. */
  function Format(t: string, args: seq<string>): (r: string)
    ensures '{' !in t ==> r == t
    ensures |args| == 0 ==> r == t
    decreases |t|
  {
    if |t| == 0 then ""
    else if |t| >= 3 && t[0] == '{' && IsDigit(t[1]) && t[2] == '}' && DigitValue(t[1]) < |args| then
      args[DigitValue(t[1])] + Format(t[3..], args)
    else
      assert t == [t[0]] + t[1..];
      assert forall x :: x in t[1..] ==> x in t;
      [t[0]] + Format(t[1..], args)
  }

  /** Text without braces formats to itself. */
  lemma {:induction false} FormatPlain(lit: string, rest: string, args: seq<string>)
    requires '{' !in lit
    ensures Format(lit + rest, args) == lit + Format(rest, args)
    decreases |lit|
  {
    if |lit| > 0 {
      var s := lit + rest;
      assert s[0] == lit[0] && s[0] != '{' by { assert lit[0] in lit; }
      assert s[1..] == lit[1..] + rest;
      assert Format(s, args) == [lit[0]] + Format(lit[1..] + rest, args);
      assert '{' !in lit[1..] by { assert forall x :: x in lit[1..] ==> x in lit; }
      FormatPlain(lit[1..], rest, args);
      assert lit == [lit[0]] + lit[1..];
    } else {
      assert lit + rest == rest;
    }
  }

  /** A field `{d}` formats to argument d. */
  lemma FormatField(d: nat, rest: string, args: seq<string>)
    requires d < 10 && d < |args|
    ensures Format(['{', ('0' as int + d) as char, '}'] + rest, args) == args[d] + Format(rest, args)
  {
    var s := ['{', ('0' as int + d) as char, '}'] + rest;
    assert s[3..] == rest;
  }
}
