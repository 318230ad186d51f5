/** The few Python string builtins the bot relies on: `str.strip()`,
    `str.split(sep)`, `sep.join(parts)`, `int(text)` and, as the partner of
    `int`, the decimal rendering `str(n)`. */
module PyStr {
  import opened Wrappers

  /** `c.isspace()` for the characters Python treats as whitespace. */
  predicate IsSpace(c: char)
  {
    var n := c as int;
    || n == 0x20 || 0x09 <= n <= 0x0D || 0x1C <= n <= 0x1F || n == 0x85 || n == 0xA0
    || n == 0x1680 || 0x2000 <= n <= 0x200A || n == 0x2028 || n == 0x2029 || n == 0x202F
    || n == 0x205F || n == 0x3000
  }

  /** The two whitespace sets the builtins skip. `str.strip()` skips every
      character for which `isspace()` holds. `int()` skips fewer: the ASCII
      space and `\t\n\v\f\r`, and the non-ASCII whitespace, but not the
      separators U+001C..U+001F. */
  datatype Whitespace = StrWhitespace | IntWhitespace
  {
    predicate Has(c: char)
    {
      IsSpace(c) && (this == IntWhitespace ==> !(0x1C <= c as int <= 0x1F))
    }
  }

  /** Drops the leading characters of `ws` (for `StrWhitespace`, `s.lstrip()`). */
  function TrimLeft(s: string, ws: Whitespace): string
  {
    if s != [] && ws.Has(s[0]) then TrimLeft(s[1..], ws) else s
  }

  /** Drops the trailing characters of `ws` (for `StrWhitespace`, `s.rstrip()`). */
  function TrimRight(s: string, ws: Whitespace): string
  {
    if s != [] && ws.Has(s[|s| - 1]) then TrimRight(s[..|s| - 1], ws) else s
  }

  /** Drops the characters of `ws` at both ends. */
  function StripBy(s: string, ws: Whitespace): string
  {
    TrimRight(TrimLeft(s, ws), ws)
  }

  /** `s.strip()`. */
  function Strip(s: string): string
  {
    StripBy(s, StrWhitespace)
  }

  /** `lstrip` drops exactly the leading whitespace: what it returns is a
      suffix of `s`, everything before it is whitespace, and it does not
      start with whitespace. */
  lemma {:induction false} TrimLeftSpec(s: string, ws: Whitespace)
    ensures var r := TrimLeft(s, ws);
            && |r| <= |s| && r == s[|s| - |r|..]
            && (forall k :: 0 <= k < |s| - |r| ==> ws.Has(s[k]))
            && (r == [] || !ws.Has(r[0]))
  {
    if s != [] && ws.Has(s[0]) {
      var t := s[1..];
      TrimLeftSpec(t, ws);
      var r := TrimLeft(t, ws);
      assert TrimLeft(s, ws) == r;
      assert r == t[|t| - |r|..] == s[|s| - |r|..];
      forall k | 0 <= k < |s| - |r| ensures ws.Has(s[k]) {
        if k > 0 { assert s[k] == t[k - 1]; }
      }
    }
  }

  /** `rstrip` drops exactly the trailing whitespace. */
  lemma {:induction false} TrimRightSpec(s: string, ws: Whitespace)
    ensures var r := TrimRight(s, ws);
            && |r| <= |s| && r == s[..|r|]
            && (forall k :: |r| <= k < |s| ==> ws.Has(s[k]))
            && (r == [] || !ws.Has(r[|r| - 1]))
  {
    if s != [] && ws.Has(s[|s| - 1]) {
      var t := s[..|s| - 1];
      TrimRightSpec(t, ws);
      var r := TrimRight(t, ws);
      assert TrimRight(s, ws) == r;
      assert r == t[..|r|] == s[..|r|];
      forall k | |r| <= k < |s| ensures ws.Has(s[k]) {
        if k < |s| - 1 { assert s[k] == t[k]; }
      }
    }
  }

  /** `strip` leaves no whitespace at either end, and it is empty exactly when
      `s` is all whitespace. */
  lemma StripSpec(s: string, ws: Whitespace)
    ensures var r := StripBy(s, ws);
            && (r == [] || (!ws.Has(r[0]) && !ws.Has(r[|r| - 1])))
            && (r == [] <==> forall k :: 0 <= k < |s| ==> ws.Has(s[k]))
  {
    var l := TrimLeft(s, ws);
    TrimLeftSpec(s, ws);
    TrimRightSpec(l, ws);
    var off := |s| - |l|;
    assert forall k :: off <= k < |s| ==> s[k] == l[k - off];
    if TrimRight(l, ws) != [] {
      assert !ws.Has(l[0]) && !ws.Has(s[off]);
    }
  }

  /** A string with no whitespace at either end is its own `strip()`. */
  lemma StripUnpadded(s: string, ws: Whitespace)
    requires s == [] || (!ws.Has(s[0]) && !ws.Has(s[|s| - 1]))
    ensures StripBy(s, ws) == s
  {
  }

  /** `sep.join(parts)`. */
  function Join(parts: seq<string>, sep: string): (r: string)
    ensures parts == [] ==> r == ""
    ensures |parts| == 1 ==> r == parts[0]
  {
    if |parts| == 0 then ""
    else if |parts| == 1 then parts[0]
    else parts[0] + sep + Join(parts[1..], sep)
  }

  /** Joining one more part appends the separator and that part. */
  lemma {:induction false} JoinSnoc(parts: seq<string>, last: string, sep: string)
    requires |parts| >= 1
    ensures Join(parts + [last], sep) == Join(parts, sep) + sep + last
  {
    if |parts| > 1 {
      assert (parts + [last])[1..] == parts[1..] + [last];
      JoinSnoc(parts[1..], last, sep);
    }
  }

  /** `s.split(sep)` for a one-character separator: the maximal runs between
      separators, always at least one (`"".split(",") == [""]`), none of them
      containing the separator. */
  function Split(s: string, sep: char): (parts: seq<string>)
    ensures |parts| >= 1
    ensures forall i :: 0 <= i < |parts| ==> sep !in parts[i]
  {
    if s == [] then [""]
    else
      var rest := Split(s[1..], sep);
      if s[0] == sep then [""] + rest
      else
        var parts := [[s[0]] + rest[0]] + rest[1..];
        assert forall i :: 1 <= i < |parts| ==> parts[i] == rest[i];
        parts
  }

  /** Joining the parts of a split with its separator gives the string back. */
  lemma {:induction false} JoinSplit(s: string, sep: char)
    ensures Join(Split(s, sep), [sep]) == s
  {
    if s != [] {
      var rest := Split(s[1..], sep);
      JoinSplit(s[1..], sep);
      if s[0] == sep {
        assert ([""] + rest)[1..] == rest;
      } else {
        var parts := [[s[0]] + rest[0]] + rest[1..];
        assert parts[1..] == rest[1..];
        if |rest| > 1 {
          assert Join(rest, [sep]) == rest[0] + [sep] + Join(rest[1..], [sep]);
        }
      }
    }
  }

  /** Splitting a string with no separator gives the string alone. */
  lemma {:induction false} SplitNoSeparator(p: string, sep: char)
    requires sep !in p
    ensures Split(p, sep) == [p]
  {
    if p != [] {
      SplitNoSeparator(p[1..], sep);
      assert [p[0]] + p[1..] == p;
    }
  }

  /** The first part of a split is the text up to the first separator. */
  lemma {:induction false} SplitOfPrefix(p: string, rest: string, sep: char)
    requires sep !in p
    requires rest == [] || rest[0] == sep
    ensures Split(p + rest, sep)[0] == p
    ensures rest != [] ==> Split(p + rest, sep) == [p] + Split(rest[1..], sep)
  {
    if p == [] {
      assert p + rest == rest;
      if rest != [] {
        assert Split(rest, sep) == [""] + Split(rest[1..], sep);
      }
    } else {
      SplitOfPrefix(p[1..], rest, sep);
      assert (p + rest)[1..] == p[1..] + rest;
    }
  }

  /** The converse round trip: parts with no separator are recovered by
      splitting their join. */
  lemma {:induction false} SplitJoin(parts: seq<string>, sep: char)
    requires |parts| >= 1
    requires forall i :: 0 <= i < |parts| ==> sep !in parts[i]
    ensures Split(Join(parts, [sep]), sep) == parts
  {
    if |parts| == 1 {
      SplitNoSeparator(parts[0], sep);
    } else {
      var tail := Join(parts[1..], [sep]);
      SplitJoin(parts[1..], sep);
      SplitOfPrefix(parts[0], [sep] + tail, sep);
      assert parts[0] + [sep] + tail == parts[0] + ([sep] + tail);
      assert ([sep] + tail)[1..] == tail;
    }
  }

  /** Within `s`, if `i` is the first separator and `j` the next one (or the
      end of `s`), the first part of the split is `s[..i]` and the second is
      `s[i+1..j]`: the text between the first and second separators. */
  lemma SplitFirstTwo(s: string, sep: char, i: nat, j: nat)
    requires i < j <= |s|
    requires s[i] == sep && sep !in s[..i] && sep !in s[i + 1..j]
    requires j == |s| || s[j] == sep
    ensures |Split(s, sep)| >= 2
    ensures Split(s, sep)[0] == s[..i] && Split(s, sep)[1] == s[i + 1..j]
  {
    var head, tail := s[..i], s[i + 1..];
    assert Split(s, sep) == [head] + Split(tail, sep) by {
      assert s == head + s[i..];
      assert s[i..][1..] == tail;
      SplitOfPrefix(head, s[i..], sep);
    }
    assert Split(tail, sep)[0] == s[i + 1..j] by {
      assert tail == s[i + 1..j] + s[j..];
      SplitOfPrefix(s[i + 1..j], s[j..], sep);
    }
  }

  predicate IsDigit(c: char)
  {
    '0' <= c <= '9'
  }

  predicate IsDigits(d: string)
  {
    d != [] && forall k :: 0 <= k < |d| ==> IsDigit(d[k])
  }

  /** The value of a run of decimal digits, most significant first. */
  function DigitsValue(d: string): (n: nat)
    requires forall k :: 0 <= k < |d| ==> IsDigit(d[k])
  {
    if d == [] then 0
    else
      assert IsDigit(d[|d| - 1]);
      DigitsValue(d[..|d| - 1]) * 10 + (d[|d| - 1] as int - '0' as int)
  }

  /** `int(text)` for decimal text: surrounding `int()` whitespace is ignored, one
      optional sign, then at least one ASCII digit; anything else raises,
      which is `None` here. */
  function ParseInt(text: string): (r: Option<int>)
  {
    ParseSigned(StripBy(text, IntWhitespace))
  }

  /** An optional sign then at least one digit, with nothing around them. */
  function ParseSigned(t: string): (r: Option<int>)
    ensures r.Some? ==> t != [] && (IsDigit(t[0]) || t[0] in "+-")
  {
    if t == [] then None
    else if t[0] in "+-" then
      if IsDigits(t[1..]) then
        var v: int := DigitsValue(t[1..]);
        Some(if t[0] == '-' then -v else v)
      else None
    else if IsDigits(t) then Some(DigitsValue(t))
    else None
  }

  /** Plain decimal digits, with or without a leading sign, read as their value. */
  lemma ParseDecimal(d: string)
    requires IsDigits(d)
    ensures ParseInt(d) == Some(DigitsValue(d) as int)
    ensures ParseInt("-" + d) == Some(-(DigitsValue(d) as int))
    ensures ParseInt("+" + d) == Some(DigitsValue(d) as int)
  {
    StripUnpadded("+" + d, IntWhitespace);
    assert ("+" + d)[1..] == d;
    StripDigits(d);
    StripNegativeDigits(d);
    ParseSignedDigits(d);
    ParseSignedNegativeDigits(d);
  }

  /** A single digit reads as its value. */
  lemma ParseDigit(c: char)
    requires IsDigit(c)
    ensures ParseInt([c]) == Some(c as int - '0' as int)
  {
    assert [c][..0] == [];
    ParseDecimal([c]);
  }

  lemma StripDigits(d: string)
    requires IsDigits(d)
    ensures StripBy(d, IntWhitespace) == d
  {
    assert IsDigit(d[0]) && IsDigit(d[|d| - 1]);
    StripUnpadded(d, IntWhitespace);
  }

  lemma StripNegativeDigits(d: string)
    requires IsDigits(d)
    ensures StripBy("-" + d, IntWhitespace) == "-" + d
  {
    var m := "-" + d;
    assert m[|m| - 1] == d[|d| - 1];
    assert IsDigit(d[|d| - 1]);
    StripUnpadded(m, IntWhitespace);
  }

  lemma ParseSignedDigits(d: string)
    requires IsDigits(d)
    ensures ParseSigned(d) == Some(DigitsValue(d) as int)
  {
    assert IsDigit(d[0]);
  }

  lemma ParseSignedNegativeDigits(d: string)
    requires IsDigits(d)
    ensures ParseSigned("-" + d) == Some(-(DigitsValue(d) as int))
  {
    var m := "-" + d;
    assert m[0] == '-' && m[1..] == d;
  }

  /** `int()` skips less than `strip()`: an information separator before a
      digit is stripped as whitespace, but `int()` rejects it. */
  lemma SeparatorNotIntWhitespace()
    ensures Strip("\U{1C}5") == "5"
    ensures ParseInt("\U{1C}5").None?
  {
    var t := "\U{1C}5";
    assert t[1..] == "5" && TrimLeft("5", StrWhitespace) == "5";
    StripUnpadded(t, IntWhitespace);
  }

  /** `str(n)` for a natural number. */
  function ShowNat(n: nat): (d: string)
    ensures IsDigits(d)
    ensures DigitsValue(d) == n
  {
    var last := ['0' + (n % 10) as char];
    if n < 10 then last
    else
      var d := ShowNat(n / 10) + last;
      assert d[..|d| - 1] == ShowNat(n / 10);
      d
  }

  /** `str(n)`. */
  function ShowInt(n: int): string
  {
    if n < 0 then "-" + ShowNat(-n) else ShowNat(n)
  }

  /** `int(str(n)) == n`, also with whitespace that `int()` skips around the number. */
  lemma ParseShowInt(n: int, padL: string, padR: string)
    requires forall k :: 0 <= k < |padL| ==> IntWhitespace.Has(padL[k])
    requires forall k :: 0 <= k < |padR| ==> IntWhitespace.Has(padR[k])
    ensures ParseInt(padL + ShowInt(n) + padR) == Some(n)
  {
    var s := ShowInt(n);
    StripPadded(padL, s, padR, IntWhitespace);
    if n < 0 {
      assert s[1..] == ShowNat(-n);
    } else {
      assert IsDigit(s[0]);
    }
  }

  lemma StripPadded(padL: string, s: string, padR: string, ws: Whitespace)
    requires forall k :: 0 <= k < |padL| ==> ws.Has(padL[k])
    requires forall k :: 0 <= k < |padR| ==> ws.Has(padR[k])
    requires s != [] && !ws.Has(s[0]) && !ws.Has(s[|s| - 1])
    ensures StripBy(padL + s + padR, ws) == s
  {
    assert padL + s + padR == padL + (s + padR);
    TrimLeftPad(padL, s + padR, ws);
    TrimRightPad(s, padR, ws);
  }

  lemma {:induction false} TrimLeftPad(pad: string, s: string, ws: Whitespace)
    requires forall k :: 0 <= k < |pad| ==> ws.Has(pad[k])
    requires s != [] && !ws.Has(s[0])
    ensures TrimLeft(pad + s, ws) == s
  {
    if pad != [] {
      assert (pad + s)[1..] == pad[1..] + s;
      TrimLeftPad(pad[1..], s, ws);
    } else {
      assert pad + s == s;
    }
  }

  lemma {:induction false} TrimRightPad(s: string, pad: string, ws: Whitespace)
    requires forall k :: 0 <= k < |pad| ==> ws.Has(pad[k])
    requires s != [] && !ws.Has(s[|s| - 1])
    ensures TrimRight(s + pad, ws) == s
  {
    if pad != [] {
      assert (s + pad)[..|s + pad| - 1] == s + pad[..|pad| - 1];
      TrimRightPad(s, pad[..|pad| - 1], ws);
    } else {
      assert s + pad == s;
    }
  }
}
