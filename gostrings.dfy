/** The parts of Go's `strings`, `strconv` and `fmt` packages that the job
    service relies on, written out so that their behaviour can be reasoned
    about: whitespace trimming, case mapping, splitting, joining, the "@@"
    placeholder substitution and decimal conversion of integers. */
module GoStrings {
  import opened Common

  /** unicode.IsSpace: the Latin-1 white space characters and the Unicode
      space separators. */
  predicate IsSpace(c: char) {
    c == ' ' || c == '\t' || c == '\n' || c == '\U{000B}' || c == '\U{000C}' || c == '\r'
    || c == '\U{0085}' || c == '\U{00A0}' || c == '\U{1680}'
    || ('\U{2000}' <= c <= '\U{200A}')
    || c == '\U{2028}' || c == '\U{2029}' || c == '\U{202F}' || c == '\U{205F}' || c == '\U{3000}'
  }

  ghost predicate AllSpace(s: string) {
    forall i :: 0 <= i < |s| ==> IsSpace(s[i])
  }

  /** Drops leading white space. */
  function TrimLeft(s: string): (r: string)
    ensures |r| <= |s| && r == s[|s| - |r|..]
    ensures AllSpace(s[..|s| - |r|])
    ensures r == "" || !IsSpace(r[0])
    decreases |s|
  {
    if |s| > 0 && IsSpace(s[0]) then TrimLeft(s[1..]) else s
  }

  /** Drops trailing white space. */
  function TrimRight(s: string): (r: string)
    ensures |r| <= |s| && r == s[..|r|]
    ensures AllSpace(s[|r|..])
    ensures r == "" || !IsSpace(r[|r| - 1])
    decreases |s|
  {
    if |s| > 0 && IsSpace(s[|s| - 1]) then TrimRight(s[..|s| - 1]) else s
  }

  /** strings.TrimSpace. */
  function TrimSpace(s: string): string {
    TrimRight(TrimLeft(s))
  }

  /** A string is blank when trimming leaves nothing. */
  predicate IsBlank(s: string) {
    TrimSpace(s) == ""
  }

  lemma {:induction false} TrimLeftOfNonSpace(s: string)
    requires |s| > 0 && !IsSpace(s[0])
    ensures TrimLeft(s) == s
  {
  }

  lemma {:induction false} TrimRightNonEmpty(s: string)
    requires |s| > 0 && !IsSpace(s[0])
    ensures |TrimRight(s)| > 0
    decreases |s|
  {
    if IsSpace(s[|s| - 1]) {
      TrimRightNonEmpty(s[..|s| - 1]);
    }
  }

  /** A string that starts with a non-space character is not blank. */
  lemma NonSpaceStartNotBlank(s: string)
    requires |s| > 0 && !IsSpace(s[0])
    ensures !IsBlank(s)
  {
    TrimLeftOfNonSpace(s);
    TrimRightNonEmpty(s);
  }

  /** ASCII case mapping (strings.ToLower / ToUpper restricted to ASCII letters). */
  function LowerChar(c: char): char {
    if 'A' <= c <= 'Z' then (c as int + 32) as char else c
  }

  function UpperChar(c: char): char {
    if 'a' <= c <= 'z' then (c as int - 32) as char else c
  }

  function ToLower(s: string): (r: string)
    ensures |r| == |s|
    ensures forall i :: 0 <= i < |s| ==> r[i] == LowerChar(s[i])
  {
    seq(|s|, i requires 0 <= i < |s| => LowerChar(s[i]))
  }

  function ToUpper(s: string): (r: string)
    ensures |r| == |s|
    ensures forall i :: 0 <= i < |s| ==> r[i] == UpperChar(s[i])
  {
    seq(|s|, i requires 0 <= i < |s| => UpperChar(s[i]))
  }

  /** strings.EqualFold, for ASCII letters. */
  predicate EqualFold(a: string, b: string) {
    ToLower(a) == ToLower(b)
  }

  lemma ToLowerIdempotent(s: string)
    ensures ToLower(ToLower(s)) == ToLower(s)
  {
  }

  lemma ToLowerSlice(s: string, i: nat, j: nat)
    requires i <= j <= |s|
    ensures ToLower(s[i..j]) == ToLower(s)[i..j]
  {
  }

  lemma LowerCharKeepsSpace(c: char)
    ensures IsSpace(LowerChar(c)) == IsSpace(c)
  {
  }

  lemma {:induction false} LowerTrimLeft(s: string)
    ensures ToLower(TrimLeft(s)) == TrimLeft(ToLower(s))
    decreases |s|
  {
    var l := ToLower(s);
    if |s| > 0 && IsSpace(s[0]) {
      LowerCharKeepsSpace(s[0]);
      assert IsSpace(l[0]);
      ToLowerSlice(s, 1, |s|);
      LowerTrimLeft(s[1..]);
      calc {
        ToLower(TrimLeft(s));
        ToLower(TrimLeft(s[1..]));
        TrimLeft(ToLower(s[1..]));
        { assert ToLower(s[1..]) == l[1..]; }
        TrimLeft(l[1..]);
        TrimLeft(l);
      }
    } else {
      LowerTrimLeftStop(s);
    }
  }

  /** Trimming stops at the same place before and after lowering. */
  lemma LowerTrimLeftStop(s: string)
    requires |s| == 0 || !IsSpace(s[0])
    ensures ToLower(TrimLeft(s)) == TrimLeft(ToLower(s))
  {
    var l := ToLower(s);
    if |s| > 0 {
      LowerCharKeepsSpace(s[0]);
      assert l[0] == LowerChar(s[0]);
      TrimLeftOfNonSpace(s);
      TrimLeftOfNonSpace(l);
    } else {
      assert |l| == 0;
    }
  }

  lemma {:induction false} LowerTrimRight(s: string)
    ensures ToLower(TrimRight(s)) == TrimRight(ToLower(s))
    decreases |s|
  {
    var l := ToLower(s);
    if |s| > 0 {
      LowerCharKeepsSpace(s[|s| - 1]);
      assert l[|s| - 1] == LowerChar(s[|s| - 1]);
    }
    if |s| > 0 && IsSpace(s[|s| - 1]) {
      assert TrimRight(s) == TrimRight(s[..|s| - 1]);
      assert TrimRight(l) == TrimRight(l[..|s| - 1]);
      ToLowerSlice(s, 0, |s| - 1);
      assert s[0..|s| - 1] == s[..|s| - 1];
      assert l[0..|s| - 1] == l[..|s| - 1];
      LowerTrimRight(s[..|s| - 1]);
    } else {
      assert TrimRight(s) == s;
      assert TrimRight(l) == l;
    }
  }

  /** Lower-casing and trimming commute: case mapping never turns a space
      into a non-space or back. */
  lemma LowerTrimCommute(s: string)
    ensures ToLower(TrimSpace(s)) == TrimSpace(ToLower(s))
  {
    LowerTrimLeft(s);
    LowerTrimRight(TrimLeft(s));
  }

  lemma {:induction false} TrimSpaceIdempotent(s: string)
    ensures TrimSpace(TrimSpace(s)) == TrimSpace(s)
  {
    var t := TrimSpace(s);
    if t != "" {
      TrimLeftOfNonSpace(t);
    }
  }

  lemma {:induction false} TrimLeftPad(pad: string, s: string)
    requires AllSpace(pad)
    ensures TrimLeft(pad + s) == TrimLeft(s)
    decreases |pad|
  {
    if |pad| > 0 {
      assert (pad + s)[0] == pad[0];
      assert (pad + s)[1..] == pad[1..] + s;
      TrimLeftPad(pad[1..], s);
    } else {
      assert pad + s == s;
    }
  }

  lemma {:induction false} TrimRightPad(s: string, pad: string)
    requires AllSpace(pad)
    ensures TrimRight(s + pad) == TrimRight(s)
    decreases |pad|
  {
    if |pad| > 0 {
      var n := |s + pad|;
      assert (s + pad)[n - 1] == pad[|pad| - 1];
      assert (s + pad)[..n - 1] == s + pad[..|pad| - 1];
      TrimRightPad(s, pad[..|pad| - 1]);
    } else {
      assert s + pad == s;
    }
  }

  /** Trimming a string made of white space, a core whose ends are not white
      space, and white space yields the core. */
  lemma TrimSpaceOfPadded(pad1: string, core: string, pad2: string)
    requires AllSpace(pad1) && AllSpace(pad2)
    requires core == "" || (!IsSpace(core[0]) && !IsSpace(core[|core| - 1]))
    ensures TrimSpace(pad1 + core + pad2) == core
  {
    assert pad1 + core + pad2 == pad1 + (core + pad2);
    TrimLeftPad(pad1, core + pad2);
    if core == "" {
      assert core + pad2 == pad2 + "";
      TrimLeftPad(pad2, "");
    } else {
      assert (core + pad2)[0] == core[0];
      TrimLeftOfNonSpace(core + pad2);
      TrimRightPad(core, pad2);
    }
  }

  /** Text after a string that has a non-space character is kept whole by
      TrimLeft. */
  lemma {:induction false} TrimLeftAppend(s: string, t: string)
    requires TrimLeft(s) != ""
    ensures TrimLeft(s + t) == TrimLeft(s) + t
    decreases |s|
  {
    if IsSpace(s[0]) {
      assert (s + t)[1..] == s[1..] + t;
      TrimLeftAppend(s[1..], t);
    } else {
      assert (s + t)[0] == s[0];
    }
  }

  /** White space around a string does not change what trimming leaves. */
  lemma TrimSpacePadded(pad1: string, s: string, pad2: string)
    requires AllSpace(pad1) && AllSpace(pad2)
    ensures TrimSpace(pad1 + s + pad2) == TrimSpace(s)
  {
    assert pad1 + s + pad2 == pad1 + (s + pad2);
    TrimLeftPad(pad1, s + pad2);
    if TrimLeft(s) != "" {
      TrimLeftAppend(s, pad2);
      TrimRightPad(TrimLeft(s), pad2);
    } else {
      assert s[..|s|] == s;
      assert s + pad2 == s + (pad2 + "");
      assert pad2 + "" == pad2;
      TrimLeftPad(s, pad2);
      TrimLeftPad(pad2, "");
    }
  }

  lemma ToLowerKeepsAllSpace(s: string)
    requires AllSpace(s)
    ensures AllSpace(ToLower(s))
  {
    forall i | 0 <= i < |s|
      ensures IsSpace(ToLower(s)[i])
    {
      LowerCharKeepsSpace(s[i]);
    }
  }

  lemma ToLowerConcat(a: string, b: string)
    ensures ToLower(a + b) == ToLower(a) + ToLower(b)
  {
  }

  /** A non-empty word of lower-case ASCII letters is its own lower-case,
      trimmed form. */
  lemma LowerWordNormalised(w: string)
    requires |w| > 0 && forall i :: 0 <= i < |w| ==> 'a' <= w[i] <= 'z'
    ensures ToLower(w) == w
    ensures TrimSpace(w) == w
  {
    TrimLeftOfNonSpace(w);
    assert TrimRight(w) == w by {
      assert !IsSpace(w[|w| - 1]);
    }
  }

  /** Words whose first letters differ as lower-case letters differ ignoring case. */
  lemma FoldDiffers(a: string, b: string)
    requires |a| > 0 && |b| > 0 && 'a' <= a[0] <= 'z' && 'a' <= b[0] <= 'z' && a[0] != b[0]
    ensures !EqualFold(a, b)
  {
    assert ToLower(a)[0] != ToLower(b)[0];
  }

  function HasPrefix(s: string, prefix: string): bool {
    |prefix| <= |s| && s[..|prefix|] == prefix
  }

  /** The number of occurrences of c in s. */
  function Count(s: string, c: char): nat {
    if |s| == 0 then 0 else (if s[0] == c then 1 else 0) + Count(s[1..], c)
  }

  lemma {:induction false} CountConcat(a: string, b: string, c: char)
    ensures Count(a + b, c) == Count(a, c) + Count(b, c)
    decreases |a|
  {
    if |a| > 0 {
      assert (a + b)[1..] == a[1..] + b;
      CountConcat(a[1..], b, c);
    } else {
      assert a + b == b;
    }
  }

  lemma {:induction false} CountAbsent(s: string, c: char)
    requires c !in s
    ensures Count(s, c) == 0
    decreases |s|
  {
    if |s| > 0 {
      CountAbsent(s[1..], c);
    }
  }

  /** strings.Split on a one-character separator: the parts between the
      separators, always at least one (Split("", sep) == [""]). */
  function Split(s: string, sep: char): (parts: seq<string>)
    ensures |parts| == Count(s, sep) + 1
    ensures forall i :: 0 <= i < |parts| ==> sep !in parts[i]
    decreases |s|
  {
    if |s| == 0 then [""]
    else if s[0] == sep then [""] + Split(s[1..], sep)
    else
      var rest := Split(s[1..], sep);
      [[s[0]] + rest[0]] + rest[1..]
  }

  /** strings.Join. */
  function Join(parts: seq<string>, sep: string): string {
    if |parts| == 0 then ""
    else if |parts| == 1 then parts[0]
    else parts[0] + sep + Join(parts[1..], sep)
  }

  /** utils.SliceContainsString: whether some element of list equals s,
      scanning from the front. */
  predicate SliceContains(list: seq<string>, s: string)
    decreases |list|
  {
    |list| > 0 && (list[0] == s || SliceContains(list[1..], s))
  }

  /** The scan finds s exactly when s is an element. */
  lemma {:induction false} SliceContainsIsMembership(list: seq<string>, s: string)
    ensures SliceContains(list, s) <==> s in list
    decreases |list|
  {
    if |list| > 0 {
      SliceContainsIsMembership(list[1..], s);
      assert list == [list[0]] + list[1..];
    }
  }

  /** Splitting and joining again gives back the original string. */
  lemma {:induction false} JoinSplit(s: string, sep: char)
    ensures Join(Split(s, sep), [sep]) == s
    decreases |s|
  {
    if |s| == 0 {
    } else if s[0] == sep {
      var rest := Split(s[1..], sep);
      JoinSplit(s[1..], sep);
      assert Split(s, sep) == [""] + rest;
      assert ([""] + rest)[1..] == rest;
    } else {
      var rest := Split(s[1..], sep);
      JoinSplit(s[1..], sep);
      var parts := Split(s, sep);
      assert parts == [[s[0]] + rest[0]] + rest[1..];
      if |rest| == 1 {
        assert parts == [[s[0]] + rest[0]];
      } else {
        assert parts[1..] == rest[1..];
        assert Join(rest, [sep]) == rest[0] + [sep] + Join(rest[1..], [sep]);
      }
    }
  }

  /** A string without the separator is one part. */
  lemma {:induction false} SplitNoSeparator(s: string, sep: char)
    requires sep !in s
    ensures Split(s, sep) == [s]
    decreases |s|
  {
    if |s| > 0 {
      SplitNoSeparator(s[1..], sep);
      assert [s[0]] + s[1..] == s;
    }
  }

  /** Splitting `a + sep + rest`, where a has no separator, gives a and then
      the parts of rest. */
  lemma {:induction false} SplitAtFirst(a: string, sep: char, rest: string)
    requires sep !in a
    ensures Split(a + [sep] + rest, sep) == [a] + Split(rest, sep)
    decreases |a|
  {
    if |a| == 0 {
      assert a + [sep] + rest == [sep] + rest;
      assert ([sep] + rest)[1..] == rest;
    } else {
      var s := a + [sep] + rest;
      assert s[0] == a[0] && s[1..] == a[1..] + [sep] + rest;
      SplitAtFirst(a[1..], sep, rest);
      assert [a[0]] + a[1..] == a;
    }
  }

  /** Splitting `a + sep + b` where neither part has the separator gives
      exactly [a, b]. */
  lemma SplitTwo(a: string, sep: char, b: string)
    requires sep !in a && sep !in b
    ensures Split(a + [sep] + b, sep) == [a, b]
  {
    SplitAtFirst(a, sep, b);
    SplitNoSeparator(b, sep);
  }

  /** strings.Replace(pattern, "@@", value, -1): every non-overlapping
      "@@", scanning left to right, becomes value. */
  function SubstitutePlaceholder(pattern: string, value: string): string
    decreases |pattern|
  {
    if |pattern| >= 2 && pattern[0] == '@' && pattern[1] == '@' then
      value + SubstitutePlaceholder(pattern[2..], value)
    else if |pattern| == 0 then ""
    else [pattern[0]] + SubstitutePlaceholder(pattern[1..], value)
  }

  /** The number of "@@" placeholders, counted as SubstitutePlaceholder finds them. */
  function CountPlaceholders(pattern: string): nat
    decreases |pattern|
  {
    if |pattern| >= 2 && pattern[0] == '@' && pattern[1] == '@' then
      1 + CountPlaceholders(pattern[2..])
    else if |pattern| == 0 then 0
    else CountPlaceholders(pattern[1..])
  }

  /** Substituting into a pattern without a placeholder changes nothing. */
  lemma {:induction false} SubstituteNoPlaceholder(pattern: string, value: string)
    requires CountPlaceholders(pattern) == 0
    ensures SubstitutePlaceholder(pattern, value) == pattern
    decreases |pattern|
  {
    if |pattern| > 0 {
      SubstituteNoPlaceholder(pattern[1..], value);
      assert [pattern[0]] + pattern[1..] == pattern;
    }
  }

  // ---- decimal conversion (fmt's %v for integers, strconv.Atoi) ----

  predicate IsDigit(c: char) {
    '0' <= c <= '9'
  }

  predicate AllDigits(s: string) {
    forall i :: 0 <= i < |s| ==> IsDigit(s[i])
  }

  function DigitChar(d: int): (c: char)
    requires 0 <= d < 10
    ensures IsDigit(c) && c as int - '0' as int == d
  {
    ('0' as int + d) as char
  }

  /** The decimal digits of n, without leading zeros. */
  function NatToString(n: nat): (s: string)
    ensures |s| > 0 && AllDigits(s)
    ensures |s| > 1 ==> s[0] != '0'
    decreases n
  {
    if n < 10 then [DigitChar(n)] else NatToString(n / 10) + [DigitChar(n % 10)]
  }

  /** fmt.Sprintf("%v", n) for an integer n. */
  function IntToString(n: int): string {
    if n < 0 then "-" + NatToString(-n) else NatToString(n)
  }

  /** The value of a string of decimal digits. */
  function DigitsValue(s: string): nat
    requires AllDigits(s)
    decreases |s|
  {
    if |s| == 0 then 0
    else DigitsValue(s[..|s| - 1]) * 10 + (s[|s| - 1] as int - '0' as int)
  }

  const MinInt64: int := -0x8000_0000_0000_0000
  const MaxInt64: int := 0x7fff_ffff_ffff_ffff

  /** strconv.Atoi: an optional sign followed by at least one decimal
      digit, whose value fits Go's 64-bit int; None for every other string. */
  function Atoi(s: string): Option<int> {
    var signed := |s| > 0 && (s[0] == '+' || s[0] == '-');
    var digits := if signed then s[1..] else s;
    if |digits| == 0 || !AllDigits(digits) then None
    else
      var n: int := DigitsValue(digits);
      var v := if signed && s[0] == '-' then -n else n;
      if MinInt64 <= v <= MaxInt64 then Some(v) else None
  }

  lemma {:induction false} DigitsValueOfNatToString(n: nat)
    ensures DigitsValue(NatToString(n)) == n
    decreases n
  {
    if n >= 10 {
      var s := NatToString(n / 10) + [DigitChar(n % 10)];
      assert s[..|s| - 1] == NatToString(n / 10);
      DigitsValueOfNatToString(n / 10);
    }
  }

  /** Atoi reads back every 64-bit integer that IntToString renders. */
  lemma AtoiIntToString(n: int)
    requires MinInt64 <= n <= MaxInt64
    ensures Atoi(IntToString(n)) == Some(n)
  {
    var s := IntToString(n);
    if n < 0 {
      var d := NatToString(-n);
      assert s == "-" + d && s[0] == '-' && s[1..] == d;
      DigitsValueOfNatToString(-n);
    } else {
      var d := NatToString(n);
      assert s == d && IsDigit(s[0]);
      DigitsValueOfNatToString(n);
    }
  }
}
