/** Decimal numerals: Python's `str(int)` and `int(str)`. */
module Numerals {
  import opened Base
  import opened Text

  predicate IsDigit(c: char) {
    '0' <= c <= '9'
  }

  function DigitChar(d: nat): char
    requires d < 10
  {
    ('0' as int + d) as char
  }

  function DigitValue(c: char): nat
    requires IsDigit(c)
  {
    c as int - '0' as int
  }

  predicate AllDigits(s: string) {
    forall i :: 0 <= i < |s| ==> IsDigit(s[i])
  }

  /** `str(n)` for a non-negative integer: its shortest decimal spelling. */
  function NatToString(n: nat): (r: string)
    ensures |r| > 0 && AllDigits(r)
    ensures |r| > 1 ==> r[0] != '0'
  {
    if n < 10 then [DigitChar(n)] else NatToString(n / 10) + [DigitChar(n % 10)]
  }

  /** `str(i)` for any integer. */
  function IntToString(i: int): (r: string)
    ensures |r| > 0 && IsDigit(r[|r| - 1])
    ensures i < 0 <==> r[0] == '-'
  {
    if i < 0 then "-" + NatToString(-i) else NatToString(i)
  }

  /** The value of a run of decimal digits, most significant first. */
  function DigitsValue(s: string): nat
    requires AllDigits(s)
  {
    if s == [] then 0 else DigitsValue(s[..|s| - 1]) * 10 + DigitValue(s[|s| - 1])
  }

  /** Python's grammar for the digits of `int(text)`: decimal digits, where single
      underscores may separate digits. */
  predicate ValidDigitGroups(s: string) {
    && |s| > 0 && IsDigit(s[0]) && IsDigit(s[|s| - 1])
    && GroupChars(s)
    && !Contains(s, "__")
  }

  /** Only digits and underscores. */
  predicate GroupChars(s: string) {
    forall i :: 0 <= i < |s| ==> IsDigit(s[i]) || s[i] == '_'
  }

  /** The value of a valid digit group, underscores ignored. */
  function GroupValue(body: string): (r: Option<nat>)
    ensures r.Some? <==> ValidDigitGroups(body)
  {
    if !ValidDigitGroups(body) then None
    else
      UnderscoresRemoved(body);
      Some(DigitsValue(RemoveChars(body, {'_'})))
  }

  /** Python's `int(text)` in base 10: surrounding whitespace is ignored, a sign
      may lead, and anything else is a `ValueError` (here `None`). */
  function ParseInt(text: string): (r: Option<int>)
    ensures r.Some? <==> ValidDigitGroups(Unsigned(Strip(text)))
    ensures Strip(text) == [] ==> r.None?
    ensures r.Some? && r.value < 0 ==> Strip(text)[0] == '-'
    ensures r.Some? ==> forall k :: 1 <= k < |Strip(text)| ==> IsDigit(Strip(text)[k]) || Strip(text)[k] == '_'
  {
    ParseTrimmed(Strip(text))
  }

  /** The text after one leading sign, if there is one. */
  function Unsigned(t: string): string {
    if t != [] && (t[0] == '-' || t[0] == '+') then t[1..] else t
  }

  /** `int` of text with no surrounding whitespace: an optional sign, then a digit group. */
  function ParseTrimmed(t: string): (r: Option<int>)
  {
    match GroupValue(Unsigned(t))
    case None => None
    case Some(v) => Some(if t[0] == '-' then -(v as int) else v as int)
  }

  /** Surrounding whitespace does not matter: `int(s.strip()) == int(s)`. */
  lemma ParseIntIgnoresSpace(text: string)
    ensures ParseInt(Strip(text)) == ParseInt(text)
  {
    StripOfTrimmed(Strip(text));
  }

  /** A text without surrounding whitespace stays so behind a sign. */
  lemma SignedIsTrimmed(sign: char, s: string)
    requires sign == '+' || sign == '-'
    requires Strip(s) == s
    ensures Strip([sign] + s) == [sign] + s
  {
    assert s == [] || !IsSpace(s[|s| - 1]);
    StripOfTrimmed([sign] + s);
  }

  /** A leading plus changes nothing: `int("+" + s) == int(s)` for unsigned `s`. */
  lemma ParseIntPlus(s: string)
    requires Strip(s) == s && (s == [] || (s[0] != '+' && s[0] != '-'))
    ensures ParseInt("+" + s) == ParseInt(s)
  {
    SignedIsTrimmed('+', s);
    assert Unsigned("+" + s) == s;
  }

  /** A leading minus negates: `int("-" + s) == -int(s)` for unsigned `s`, and
      fails exactly when `int(s)` does. */
  lemma ParseIntMinus(s: string)
    requires Strip(s) == s && (s == [] || (s[0] != '+' && s[0] != '-'))
    ensures ParseInt("-" + s).Some? <==> ParseInt(s).Some?
    ensures ParseInt(s).Some? ==> ParseInt("-" + s).value == -ParseInt(s).value
  {
    SignedIsTrimmed('-', s);
    assert Unsigned("-" + s) == s;
  }

  /** An underscore between two digits is ignored: `int(a + "_" + b) == int(a + b)`. */
  lemma ParseIntUnderscore(a: string, b: string)
    requires a != [] && b != [] && IsDigit(a[|a| - 1]) && IsDigit(b[0])
    requires Strip(a + b) == a + b
    ensures ParseInt(a + "_" + b) == ParseInt(a + b)
  {
    JoinTrimmed(a, b);
    ParseTrimmedUnderscore(a, b);
  }

  /** Putting an underscore between the parts of a trimmed text keeps it trimmed. */
  lemma JoinTrimmed(a: string, b: string)
    requires a != [] && b != [] && Strip(a + b) == a + b
    ensures Strip(a + "_" + b) == a + "_" + b
  {
    var t, u := a + "_" + b, a + b;
    assert t[0] == u[0] && t[|t| - 1] == u[|u| - 1];
    StripOfTrimmed(t);
  }

  /** `ParseIntUnderscore` for trimmed text. */
  lemma ParseTrimmedUnderscore(a: string, b: string)
    requires a != [] && b != [] && IsDigit(a[|a| - 1]) && IsDigit(b[0])
    ensures ParseTrimmed(a + "_" + b) == ParseTrimmed(a + b)
  {
    hide GroupValue;
    var t, u := a + "_" + b, a + b;
    assert t[0] == a[0] && u[0] == a[0];
    if a[0] == '-' || a[0] == '+' {
      assert Unsigned(t) == a[1..] + "_" + b;
      assert Unsigned(u) == a[1..] + b;
      GroupUnderscore(a[1..], b);
    } else {
      GroupUnderscore(a, b);
    }
  }

  /** Leading zeros are ignored: `int("0" + s) == int(s)` for `s` starting with a digit. */
  lemma ParseIntLeadingZero(s: string)
    requires s != [] && IsDigit(s[0]) && Strip(s) == s
    ensures ParseInt("0" + s) == ParseInt(s)
  {
    var t := "0" + s;
    assert !IsSpace(s[|s| - 1]);
    StripOfTrimmed(t);
    assert Unsigned(t) == t && Unsigned(s) == s;
    GroupLeadingZero(s);
  }

  /** No two underscores are adjacent. */
  predicate NoDoubleUnderscore(s: string) {
    forall i :: 0 <= i < |s| - 1 ==> s[i] != '_' || s[i + 1] != '_'
  }

  /** `"__" in s` is two adjacent underscores. */
  lemma DoubleUnderscore(s: string)
    ensures !Contains(s, "__") <==> NoDoubleUnderscore(s)
  {
    if !NoDoubleUnderscore(s) {
      var i :| 0 <= i < |s| - 1 && s[i] == '_' && s[i + 1] == '_';
      assert OccursAt(s, "__", i);
    }
    if Contains(s, "__") {
      var i :| 0 <= i <= |s| && OccursAt(s, "__", i);
      assert s[i] == s[i..i + 2][0] && s[i + 1] == s[i..i + 2][1];
    }
  }

  /** Between a last digit and a first digit, at most one underscore adds no
      adjacent pair: the join has one exactly when a part has one. */
  lemma NoDoubleJoin(a: string, m: string, b: string)
    requires a != [] && b != [] && IsDigit(a[|a| - 1]) && IsDigit(b[0])
    requires m == "" || m == "_"
    ensures NoDoubleUnderscore(a + m + b) <==> NoDoubleUnderscore(a) && NoDoubleUnderscore(b)
  {
    if NoDoubleUnderscore(a) && NoDoubleUnderscore(b) {
      NoDoubleOfParts(a, m, b);
    }
    if NoDoubleUnderscore(a + m + b) {
      NoDoubleInParts(a, m, b);
    }
  }

  lemma NoDoubleOfParts(a: string, m: string, b: string)
    requires a != [] && b != [] && IsDigit(a[|a| - 1]) && IsDigit(b[0])
    requires m == "" || m == "_"
    requires NoDoubleUnderscore(a) && NoDoubleUnderscore(b)
    ensures NoDoubleUnderscore(a + m + b)
  {
    var t := a + m + b;
    var o := |a| + |m|;
    forall i | 0 <= i < |t| - 1 ensures t[i] != '_' || t[i + 1] != '_' {
      if i + 1 < |a| {
        assert t[i] == a[i] && t[i + 1] == a[i + 1];
      } else if i + 1 == |a| {
        assert t[i] == a[|a| - 1];
      } else if i < o {
        assert t[i + 1] == b[0];
      } else {
        assert t[i] == b[i - o] && t[i + 1] == b[i + 1 - o];
      }
    }
  }

  lemma NoDoubleInParts(a: string, m: string, b: string)
    requires NoDoubleUnderscore(a + m + b)
    ensures NoDoubleUnderscore(a) && NoDoubleUnderscore(b)
  {
    var t := a + m + b;
    var o := |a| + |m|;
    forall i | 0 <= i < |a| - 1 ensures a[i] != '_' || a[i + 1] != '_' {
      assert t[i] == a[i] && t[i + 1] == a[i + 1];
    }
    forall i | 0 <= i < |b| - 1 ensures b[i] != '_' || b[i + 1] != '_' {
      assert t[o + i] == b[i] && t[o + i + 1] == b[i + 1];
    }
  }

  /** Joining two parts, with at most one underscore between a last and a first
      digit, gives a valid group exactly when the outer ends are digits and
      each part is made of digits and lone underscores. */
  lemma ValidJoin(a: string, m: string, b: string)
    requires a != [] && b != [] && IsDigit(a[|a| - 1]) && IsDigit(b[0])
    requires m == "" || m == "_"
    ensures ValidDigitGroups(a + m + b) <==>
      && IsDigit(a[0]) && IsDigit(b[|b| - 1])
      && GroupChars(a) && GroupChars(b) && NoDoubleUnderscore(a) && NoDoubleUnderscore(b)
  {
    var t := a + m + b;
    DoubleUnderscore(t);
    NoDoubleJoin(a, m, b);
    assert t[0] == a[0] && t[|t| - 1] == b[|b| - 1];
    GroupCharsJoin(a, m, b);
  }

  lemma GroupCharsJoin(a: string, m: string, b: string)
    requires m == "" || m == "_"
    ensures GroupChars(a + m + b) <==> GroupChars(a) && GroupChars(b)
  {
    var t := a + m + b;
    assert forall i :: 0 <= i < |a| ==> t[i] == a[i];
    assert forall i :: 0 <= i < |b| ==> t[|a| + |m| + i] == b[i];
    assert forall i :: |a| <= i < |a| + |m| ==> t[i] == '_';
  }

  /** An underscore between two digits of a group is ignored: the group with it
      is valid exactly when the group without it is, with the same value. */
  lemma GroupUnderscore(a: string, b: string)
    requires a != [] && b != [] && IsDigit(a[|a| - 1]) && IsDigit(b[0])
    ensures GroupValue(a + "_" + b) == GroupValue(a + b)
  {
    ValidJoin(a, "_", b);
    ValidJoin(a, "", b);
    assert a + "" + b == a + b;
    assert RemoveChars(a + "_" + b, {'_'}) == RemoveChars(a + b, {'_'}) by {
      RemoveCharsAppend(a + "_", b, {'_'});
      RemoveCharsAppend(a, "_", {'_'});
      RemoveCharsOne('_', {'_'});
      RemoveCharsAppend(a, b, {'_'});
    }
  }

  /** A leading zero adds nothing to a value. */
  lemma {:induction false} LeadingZeroValue(s: string)
    requires AllDigits(s)
    ensures AllDigits("0" + s) && DigitsValue("0" + s) == DigitsValue(s)
  {
    var t := "0" + s;
    assert forall i :: 0 < i < |t| ==> t[i] == s[i - 1];
    if s != [] {
      assert t[..|t| - 1] == "0" + s[..|s| - 1];
      LeadingZeroValue(s[..|s| - 1]);
    }
  }

  /** A leading zero before a group that starts with a digit is ignored. */
  lemma GroupLeadingZero(s: string)
    requires s != [] && IsDigit(s[0])
    ensures GroupValue("0" + s) == GroupValue(s)
  {
    hide RemoveChars, DigitsValue;
    ValidJoin("0", "", s);
    assert "0" + "" + s == "0" + s;
    DoubleUnderscore(s);
    if ValidDigitGroups(s) {
      assert RemoveChars("0" + s, {'_'}) == "0" + RemoveChars(s, {'_'}) by {
        RemoveCharsAppend("0", s, {'_'});
        RemoveCharsOne('0', {'_'});
      }
      UnderscoresRemoved(s);
      LeadingZeroValue(RemoveChars(s, {'_'}));
    }
  }

  /** Dropping the underscores of a group of digits and underscores leaves only digits. */
  lemma {:induction false} UnderscoresRemoved(s: string)
    requires GroupChars(s)
    ensures AllDigits(RemoveChars(s, {'_'}))
  {
    if s != [] {
      UnderscoresRemoved(s[1..]);
    }
  }

  /** Reading back a spelled natural number gives the number. */
  lemma {:induction false} NatToStringRoundTrip(n: nat)
    ensures DigitsValue(NatToString(n)) == n
  {
    if n >= 10 {
      var s := NatToString(n);
      assert s[..|s| - 1] == NatToString(n / 10);
      NatToStringRoundTrip(n / 10);
    }
  }

  /** A spelled natural number is a valid digit group worth that number. */
  lemma NatToStringIsGroup(n: nat)
    ensures GroupValue(NatToString(n)) == Some(n)
  {
    var s := NatToString(n);
    assert !Contains(s, "__") by {
      forall k | 0 <= k <= |s| ensures !OccursAt(s, "__", k) {
        if k + 2 <= |s| {
          assert s[k..k + 2][0] == s[k];
        }
      }
    }
    assert forall k :: 0 <= k < |s| ==> s[k] !in {'_'};
    RemoveCharsNoop(s, {'_'});
    NatToStringRoundTrip(n);
  }

  /** A numeral has no surrounding whitespace. */
  lemma IntToStringIsTrimmed(i: int)
    ensures Strip(IntToString(i)) == IntToString(i)
  {
    var s := IntToString(i);
    assert s[0] == '-' || IsDigit(s[0]);
    StripOfTrimmed(s);
  }

  /** `int(str(i)) == i`. */
  lemma IntToStringRoundTrip(i: int)
    ensures ParseInt(IntToString(i)) == Some(i)
  {
    IntToStringIsTrimmed(i);
    if i < 0 {
      NegativeRoundTrip(i);
    } else {
      NatToStringIsGroup(i);
      assert IsDigit(IntToString(i)[0]);
    }
  }

  lemma NegativeRoundTrip(i: int)
    requires i < 0
    ensures ParseTrimmed(IntToString(i)) == Some(i)
  {
    hide GroupValue;
    var s := IntToString(i);
    assert s[0] == '-' && Unsigned(s) == NatToString(-i) by {
      assert s == "-" + NatToString(-i);
      assert s[1..] == NatToString(-i);
    }
    NatToStringIsGroup(-i);
  }
}
