/**
 Shared building blocks for the model: an optional value, bytes, the small
 string operations the JavaScript and Python sources lean on (prefix and
 suffix tests, `split`, ASCII case folding and whitespace stripping, decimal
 parsing and printing) and an order-preserving index filter.
 */
module Common {

  /** A value that may be absent: JavaScript's `undefined`/`null`, Python's `None`. */
  datatype Option<+T> = None | Some(value: T) {
    /** The value, or `default` when absent. */
    function GetOr(default: T): T {
      match this
      case Some(v) => v
      case None => default
    }
  }

  /** One octet. */
  newtype byte = x: int | 0 <= x < 256

  predicate StartsWith(s: string, prefix: string) {
    |prefix| <= |s| && s[..|prefix|] == prefix
  }

  /** Appending keeps a prefix. */
  lemma StartsWithAppend(a: string, b: string, p: string)
    requires StartsWith(a, p)
    ensures StartsWith(a + b, p)
  {
    assert (a + b)[..|p|] == a[..|p|];
  }

  predicate EndsWith(s: string, suffix: string) {
    |suffix| <= |s| && s[|s| - |suffix|..] == suffix
  }

  /** JavaScript `s.substring(0, k)`: the end index is clamped into `[0, |s|]`. */
  function Prefix(s: string, k: int): (r: string)
    ensures |r| == (if k < 0 then 0 else if k > |s| then |s| else k)
    ensures r <= s
  {
    if k < 0 then "" else if k > |s| then s else s[..k]
  }

  // ---------------------------------------------------------------------------
  // split / join

  /**
   `s.split(sep)` in JavaScript, and `s.split(sep)` with a one-character
   separator in Python: the maximal separator-free pieces, always at least one
   (the empty string splits into `[""]`).
   */
  function Split(s: string, sep: char): (parts: seq<string>)
    ensures |parts| >= 1
    ensures forall i :: 0 <= i < |parts| ==> sep !in parts[i]
    decreases |s|
  {
    if |s| == 0 then [""]
    else
      var rest := Split(s[1..], sep);
      if s[0] == sep then [""] + rest
      else [[s[0]] + rest[0]] + rest[1..]
  }

  /** The inverse of `Split`: the pieces with one separator between neighbours. */
  function Join(parts: seq<string>, sep: char): string
    requires |parts| >= 1
  {
    if |parts| == 1 then parts[0] else parts[0] + [sep] + Join(parts[1..], sep)
  }

  /** Splitting loses nothing: joining the pieces gives back the text. */
  lemma {:induction false} JoinSplit(s: string, sep: char)
    ensures Join(Split(s, sep), sep) == s
    decreases |s|
  {
    if |s| > 0 {
      var rest := Split(s[1..], sep);
      JoinSplit(s[1..], sep);
      if s[0] == sep {
        assert ([""] + rest)[1..] == rest;
        assert s == [sep] + s[1..];
      } else {
        var parts := [[s[0]] + rest[0]] + rest[1..];
        assert parts[1..] == rest[1..];
        if |rest| == 1 {
          assert s == [s[0]] + rest[0];
        } else {
          assert Join(rest, sep) == rest[0] + [sep] + Join(rest[1..], sep);
          assert s == [s[0]] + s[1..];
        }
      }
    }
  }

  /** A separator-free text is a single piece. */
  lemma {:induction false} SplitNoSeparator(s: string, sep: char)
    requires sep !in s
    ensures Split(s, sep) == [s]
    decreases |s|
  {
    if |s| > 0 {
      assert sep !in s[1..];
      SplitNoSeparator(s[1..], sep);
      assert s == [s[0]] + s[1..];
    }
  }

  /** The first piece ends at the first separator; the rest splits on its own. */
  lemma {:induction false} SplitAtFirst(x: string, sep: char, y: string)
    requires sep !in x
    ensures Split(x + [sep] + y, sep) == [x] + Split(y, sep)
    decreases |x|
  {
    var s := x + [sep] + y;
    if |x| == 0 {
      assert s[0] == sep && s[1..] == y;
    } else {
      assert s[0] == x[0];
      assert s[1..] == x[1..] + [sep] + y;
      assert sep !in x[1..];
      SplitAtFirst(x[1..], sep, y);
      assert [x[0]] + x[1..] == x;
    }
  }

  /** The position of the first `c` in `s`. */
  function FirstIndex(s: string, c: char): (k: nat)
    requires c in s
    ensures k < |s| && s[k] == c && c !in s[..k]
  {
    if s[0] == c then 0
    else
      assert s == [s[0]] + s[1..];
      var k := FirstIndex(s[1..], c);
      assert s[..k + 1] == [s[0]] + s[1..][..k];
      k + 1
  }

  /** Python `s.split(c, 1)[1]`: everything after the first `c`, `None` (an IndexError) when there is none. */
  function AfterFirst(s: string, c: char): (r: Option<string>)
    ensures r.None? <==> c !in s
    ensures r.Some? ==> exists k :: 0 <= k < |s| && s[k] == c && c !in s[..k] && r.value == s[k + 1..]
  {
    if c in s then Some(s[FirstIndex(s, c) + 1..]) else None
  }

  // ---------------------------------------------------------------------------
  // ASCII case folding and whitespace

  function LowerChar(c: char): char {
    if 'A' <= c <= 'Z' then (c as int + 32) as char else c
  }

  /** `str.lower()` / `String.prototype.toLowerCase()`, restricted to ASCII letters. */
  function ToLower(s: string): (r: string)
    ensures |r| == |s|
    ensures forall i :: 0 <= i < |s| ==> r[i] == LowerChar(s[i])
  {
    if |s| == 0 then "" else [LowerChar(s[0])] + ToLower(s[1..])
  }

  /**
   The characters Python's `str.strip()` removes (`str.isspace()`): the
   control characters 9-13 and 28-31, the space, and the Unicode spaces and
   separators.
   */
  predicate IsSpace(c: char) {
    || '\U{9}' <= c <= '\U{D}' || '\U{1C}' <= c <= '\U{20}'
    || c == '\U{85}' || c == '\U{A0}' || c == '\U{1680}' || '\U{2000}' <= c <= '\U{200A}'
    || c == '\U{2028}' || c == '\U{2029}' || c == '\U{202F}' || c == '\U{205F}' || c == '\U{3000}'
  }

  function StripStart(s: string): (r: string)
    ensures |r| <= |s| && r == s[|s| - |r|..]
    ensures |r| > 0 ==> !IsSpace(r[0])
  {
    if |s| > 0 && IsSpace(s[0]) then StripStart(s[1..]) else s
  }

  function StripEnd(s: string): (r: string)
    ensures |r| <= |s| && r == s[..|r|]
    ensures |r| > 0 ==> !IsSpace(r[|r| - 1])
  {
    if |s| > 0 && IsSpace(s[|s| - 1]) then StripEnd(s[..|s| - 1]) else s
  }

  /** `str.strip()`: leading and trailing whitespace removed. */
  function Strip(s: string): string {
    StripEnd(StripStart(s))
  }

  /** Leading whitespace is all that `StripStart` looks past. */
  lemma {:induction false} StripStartSpaces(lead: string, s: string)
    requires forall i :: 0 <= i < |lead| ==> IsSpace(lead[i])
    ensures StripStart(lead + s) == StripStart(s)
    decreases |lead|
  {
    if |lead| > 0 {
      assert (lead + s)[0] == lead[0];
      assert (lead + s)[1..] == lead[1..] + s;
      StripStartSpaces(lead[1..], s);
    } else {
      assert lead + s == s;
    }
  }

  /** Trailing whitespace after a non-space character is all that `StripEnd` removes. */
  lemma {:induction false} StripEndAppend(a: string, b: string)
    requires |a| > 0 && !IsSpace(a[|a| - 1])
    ensures StripEnd(a + b) == a + StripEnd(b)
    decreases |b|
  {
    if |b| == 0 {
      assert a + b == a;
    } else if IsSpace(b[|b| - 1]) {
      assert (a + b)[..|a + b| - 1] == a + b[..|b| - 1];
      StripEndAppend(a, b[..|b| - 1]);
    }
  }

  /** `strip()` of whitespace, a word with no space at either end, and a tail. */
  lemma StripAroundWord(lead: string, word: string, tail: string)
    requires forall i :: 0 <= i < |lead| ==> IsSpace(lead[i])
    requires |word| > 0 && !IsSpace(word[0]) && !IsSpace(word[|word| - 1])
    ensures Strip(lead + word + tail) == word + StripEnd(tail)
  {
    assert lead + word + tail == lead + (word + tail);
    StripStartSpaces(lead, word + tail);
    assert StripStart(word + tail) == word + tail by { assert (word + tail)[0] == word[0]; }
    StripEndAppend(word, tail);
  }

  // ---------------------------------------------------------------------------
  // decimal numbers

  predicate IsDigit(c: char) {
    '0' <= c <= '9'
  }

  predicate AllDigits(s: string) {
    forall i :: 0 <= i < |s| ==> IsDigit(s[i])
  }

  /** The value of a run of decimal digits, most significant first. */
  function DigitsValue(s: string): nat
    requires AllDigits(s)
  {
    if |s| == 0 then 0 else DigitsValue(s[..|s| - 1]) * 10 + (s[|s| - 1] as int - '0' as int)
  }

  /**
   The characters `int()` skips around its digits: those of `str.isspace()`
   except the separators 28-31, which make `int()` fail although `strip()`
   removes them.
   */
  predicate IntSpace(c: char) {
    IsSpace(c) && !('\U{1C}' <= c <= '\U{1F}')
  }

  function IntStripStart(s: string): (r: string)
    ensures |r| <= |s| && r == s[|s| - |r|..]
    ensures |r| > 0 ==> !IntSpace(r[0])
  {
    if |s| > 0 && IntSpace(s[0]) then IntStripStart(s[1..]) else s
  }

  function IntStripEnd(s: string): (r: string)
    ensures |r| <= |s| && r == s[..|r|]
    ensures |r| > 0 ==> !IntSpace(r[|r| - 1])
  {
    if |s| > 0 && IntSpace(s[|s| - 1]) then IntStripEnd(s[..|s| - 1]) else s
  }

  /** The text `int()` reads: the characters of `IntSpace` removed from both ends. */
  function IntStrip(s: string): string {
    IntStripEnd(IntStripStart(s))
  }

  /**
   Python `int(s)` for the forms this model handles: surrounding whitespace
   of `IntSpace`, an optional sign, then one or more ASCII digits. Anything
   else is a ValueError, modelled as `None`.
   */
  function ParseInt(s: string): (r: Option<int>)
    ensures r.Some? ==> |IntStrip(s)| > 0
  {
    ParseSigned(IntStrip(s))
  }

  /** `int()` once the whitespace is gone: an optional sign, then one or more digits. */
  function ParseSigned(t: string): (r: Option<int>)
    ensures r.Some? ==> |t| > 0
  {
    if |t| > 0 && (t[0] == '-' || t[0] == '+') then
      var digits := t[1..];
      if |digits| > 0 && AllDigits(digits) then
        Some(if t[0] == '-' then 0 - DigitsValue(digits) else DigitsValue(digits))
      else None
    else if |t| > 0 && AllDigits(t) then Some(DigitsValue(t))
    else None
  }

  function DigitChar(d: nat): char
    requires d < 10
  {
    ('0' as int + d) as char
  }

  /** The decimal spelling of `n` with no leading zeros. */
  function NatToString(n: nat): (s: string)
    ensures |s| >= 1 && AllDigits(s)
  {
    if n < 10 then [DigitChar(n)] else NatToString(n / 10) + [DigitChar(n % 10)]
  }

  /** JavaScript / Python decimal spelling of an integer. */
  function IntToString(n: int): (s: string)
    ensures |s| >= 1
  {
    if n < 0 then "-" + NatToString(-n) else NatToString(n)
  }

  lemma {:induction false} DigitsValueNatToString(n: nat)
    ensures DigitsValue(NatToString(n)) == n
  {
    if n >= 10 {
      DigitsValueNatToString(n / 10);
      var s := NatToString(n);
      assert s[..|s| - 1] == NatToString(n / 10);
    }
  }

  lemma StripNoSpace(s: string)
    requires |s| > 0 && !IsSpace(s[0]) && !IsSpace(s[|s| - 1])
    ensures Strip(s) == s
  {
  }

  lemma IntStripNoSpace(s: string)
    requires |s| > 0 && !IntSpace(s[0]) && !IntSpace(s[|s| - 1])
    ensures IntStrip(s) == s
  {
  }

  /**
   A parse result pinned down by its value. Routing a `Some` equality through
   this lemma keeps the solver from unfolding the parser to compare two results.
   */
  lemma SomeWithValue(r: Option<int>, v: int)
    requires r.Some? && r.value == v
    ensures r == Some(v)
  {
  }

  /** Printing and parsing an integer are inverse. */
  lemma ParseIntToString(n: int)
    ensures ParseInt(IntToString(n)) == Some(n)
  {
    if n < 0 {
      DigitsValueNatToString(-n);
      ParseNegativeSpelling(IntToString(n), NatToString(-n), n);
    } else {
      DigitsValueNatToString(n);
      ParseDigitsSpelling(IntToString(n), n);
    }
  }

  /** `int()` reads a run of digits as its value. */
  lemma DigitsParse(digits: string)
    requires |digits| > 0 && AllDigits(digits)
    ensures ParseInt(digits) == Some(DigitsValue(digits))
  {
    assert IsDigit(digits[0]) && IsDigit(digits[|digits| - 1]);
    IntStripNoSpace(digits);
  }

  lemma ParseDigitsSpelling(s: string, v: int)
    requires |s| > 0 && AllDigits(s) && DigitsValue(s) == v
    ensures ParseInt(s) == Some(v)
  {
    DigitsParse(s);
    SomeWithValue(ParseInt(s), v);
  }

  lemma ParseNegativeSpelling(s: string, digits: string, v: int)
    requires s == "-" + digits && |digits| > 0 && AllDigits(digits) && DigitsValue(digits) == -v
    ensures ParseInt(s) == Some(v)
  {
    NegativeParse(digits);
    SomeWithValue(ParseInt(s), v);
  }

  /** `int()` reads a minus sign followed by digits as the negated value of the digits. */
  lemma NegativeParse(digits: string)
    requires |digits| > 0 && AllDigits(digits)
    ensures ParseInt("-" + digits) == Some(0 - DigitsValue(digits))
  {
    NegativeStripped(digits);
    NegativeSigned(digits);
  }

  lemma NegativeStripped(digits: string)
    requires |digits| > 0 && AllDigits(digits)
    ensures IntStrip("-" + digits) == "-" + digits
    ensures StripEnd("-" + digits) == "-" + digits
  {
    var s := "-" + digits;
    assert s[|s| - 1] == digits[|digits| - 1];
    IntStripNoSpace(s);
  }

  lemma NegativeSigned(digits: string)
    requires |digits| > 0 && AllDigits(digits)
    ensures ParseSigned("-" + digits) == Some(0 - DigitsValue(digits))
  {
    assert ("-" + digits)[1..] == digits;
  }

  // ---------------------------------------------------------------------------
  // order-preserving filters

  /**
   The positions of `keep` that hold `true`, in increasing order. A filter
   `xs` of a sequence `ys` by `keep` is stated as
   `|xs| == |KeptIndices(keep)|` and `xs[k] == ys[KeptIndices(keep)[k]]`.
   */
  function KeptIndices(keep: seq<bool>): (ix: seq<nat>)
    ensures forall k :: 0 <= k < |ix| ==> ix[k] < |keep| && keep[ix[k]]
    ensures forall j, k :: 0 <= j < k < |ix| ==> ix[j] < ix[k]
    ensures forall i :: 0 <= i < |keep| && keep[i] ==> i in ix
  {
    if |keep| == 0 then []
    else KeptIndices(keep[..|keep| - 1]) + (if keep[|keep| - 1] then [|keep| - 1] else [])
  }

  /** Nothing is kept exactly when no flag is set. */
  lemma KeptIndicesEmpty(keep: seq<bool>)
    ensures |KeptIndices(keep)| == 0 <==> forall i :: 0 <= i < |keep| ==> !keep[i]
  {
  }

  /** Extending the flags by one extends the kept positions by at most that one. */
  lemma KeptIndicesSnoc(keep: seq<bool>, b: bool)
    ensures KeptIndices(keep + [b]) == KeptIndices(keep) + (if b then [|keep|] else [])
  {
    assert (keep + [b])[..|keep|] == keep;
  }

  /** The truth value of `p` at every position of `xs`. */
  function Flags<T>(xs: seq<T>, p: T -> bool): (flags: seq<bool>)
    ensures |flags| == |xs|
    ensures forall i :: 0 <= i < |xs| ==> flags[i] == p(xs[i])
  {
    seq(|xs|, i requires 0 <= i < |xs| => p(xs[i]))
  }

  /** `xs.filter(p)`: the elements satisfying `p`, in order. */
  function Filter<T>(xs: seq<T>, p: T -> bool): (ys: seq<T>)
    ensures |ys| <= |xs|
    ensures forall k :: 0 <= k < |ys| ==> p(ys[k])
  {
    if |xs| == 0 then [] else Filter(xs[..|xs| - 1], p) + (if p(xs[|xs| - 1]) then [xs[|xs| - 1]] else [])
  }

  lemma FilterSnoc<T>(xs: seq<T>, x: T, p: T -> bool)
    ensures Filter(xs + [x], p) == Filter(xs, p) + (if p(x) then [x] else [])
  {
    assert (xs + [x])[..|xs|] == xs;
  }

  /** `Filter` keeps exactly the positions where `p` holds, in increasing order. */
  lemma {:induction false} FilterIsKept<T>(xs: seq<T>, p: T -> bool)
    ensures var ix := KeptIndices(Flags(xs, p));
      |Filter(xs, p)| == |ix| && forall k :: 0 <= k < |ix| ==> Filter(xs, p)[k] == xs[ix[k]]
  {
    if |xs| > 0 {
      var init := xs[..|xs| - 1];
      var last := xs[|xs| - 1];
      FilterIsKept(init, p);
      assert Flags(xs, p) == Flags(init, p) + [p(last)];
      KeptIndicesSnoc(Flags(init, p), p(last));
    }
  }
}
