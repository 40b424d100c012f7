/** The few pieces of Python's text handling the event-list reader relies on:
    `str.strip()`, `str.split()`, `str.split(sep)`, `int(...)` and `str(int)`. */
module Text {
  import opened Wrappers
  import opened Seqs

  /** Why reading a line of the event list fails; each stands for an
      exception the source lets escape. */
  datatype DecodeError =
    | MissingField        // IndexError: a token or a comma-separated part is absent
    | BadInteger          // ValueError: `int(...)` rejects the text
    | NegativeCoordinate  // a location with a negative row or column

  /** The characters Python treats as whitespace in `strip` and `split`. */
  predicate IsSpace(c: char) {
    var n := c as int;
    || 9 <= n <= 13 || 28 <= n <= 32 || n == 0x85 || n == 0xA0 || n == 0x1680
    || 0x2000 <= n <= 0x200A || n == 0x2028 || n == 0x2029 || n == 0x202F
    || n == 0x205F || n == 0x3000
  }

  predicate NoSpace(s: string) {
    forall i :: 0 <= i < |s| ==> !IsSpace(s[i])
  }

  /** The information separators U+001C to U+001F: whitespace to `strip` and
      `split`, but not to `int`, which turns only non-ASCII whitespace into a
      space before it skips the ASCII whitespace around the number. */
  predicate IsSeparator(c: char) {
    28 <= c as int <= 31
  }

  predicate NoSeparator(s: string) {
    forall i :: 0 <= i < |s| ==> !IsSeparator(s[i])
  }

  /** Nothing but whitespace (the empty text included). */
  predicate IsBlank(s: string) {
    forall i :: 0 <= i < |s| ==> IsSpace(s[i])
  }

  predicate IsDigit(c: char) {
    '0' <= c <= '9'
  }

  predicate AllDigits(s: string) {
    forall i :: 0 <= i < |s| ==> IsDigit(s[i])
  }

  // ---------------------------------------------------------------- strip

  /** Drops the leading whitespace. */
  function TrimLeft(s: string): (r: string)
    ensures |r| <= |s| && r == s[|s| - |r|..]
    ensures |r| > 0 ==> !IsSpace(r[0])
    ensures forall i :: 0 <= i < |s| - |r| ==> IsSpace(s[i])
  {
    if |s| > 0 && IsSpace(s[0]) then TrimLeft(s[1..]) else s
  }

  /** Drops the trailing whitespace. */
  function TrimRight(s: string): (r: string)
    ensures |r| <= |s| && r == s[..|r|]
    ensures |r| > 0 ==> !IsSpace(r[|r| - 1])
    ensures forall i :: |r| <= i < |s| ==> IsSpace(s[i])
  {
    if |s| > 0 && IsSpace(s[|s| - 1]) then TrimRight(s[..|s| - 1]) else s
  }

  /** Python's `s.strip()`: the text between the leading and the trailing whitespace. */
  function Strip(s: string): (r: string)
    ensures exists i, j :: 0 <= i <= j <= |s| && r == s[i..j] && IsBlank(s[..i]) && IsBlank(s[j..])
    ensures |r| > 0 ==> !IsSpace(r[0]) && !IsSpace(r[|r| - 1])
    ensures |r| == 0 <==> IsBlank(s)
    ensures |s| > 0 && !IsSpace(s[0]) && !IsSpace(s[|s| - 1]) ==> r == s
  {
    StripFrame(s);
    TrimRight(TrimLeft(s))
  }

  /** The stripped text sits between a blank prefix and a blank suffix. */
  lemma {:induction false} StripFrame(s: string)
    ensures
      var i := |s| - |TrimLeft(s)|;
      var j := i + |TrimRight(TrimLeft(s))|;
      && 0 <= i <= j <= |s| && TrimRight(TrimLeft(s)) == s[i..j]
      && IsBlank(s[..i]) && IsBlank(s[j..])
  {
    TrimLeftFrame(s);
    TrimRightFrame(TrimLeft(s));
    FrameOfTrims(s, TrimLeft(s), TrimRight(TrimLeft(s)));
  }

  /** A suffix of `s` after blank text, cut before blank text, sits in `s` between blanks. */
  lemma {:induction false} FrameOfTrims(s: string, t: string, u: string)
    requires |t| <= |s| && t == s[|s| - |t|..] && |u| <= |t| && u == t[..|u|]
    requires IsBlank(s[..|s| - |t|]) && IsBlank(t[|u|..])
    ensures
      var i := |s| - |t|;
      var j := i + |u|;
      && 0 <= i <= j <= |s| && u == s[i..j] && IsBlank(s[..i]) && IsBlank(s[j..])
  {
    SuffixSlices(s, |s| - |t|, |u|);
  }

  lemma {:induction false} TrimLeftFrame(s: string)
    ensures IsBlank(s[..|s| - |TrimLeft(s)|])
  {
    var i := |s| - |TrimLeft(s)|;
    forall k | 0 <= k < i ensures IsSpace(s[..i][k]) {
      assert s[..i][k] == s[k];
    }
  }

  lemma {:induction false} TrimRightFrame(t: string)
    ensures IsBlank(t[|TrimRight(t)|..])
  {
    var n := |TrimRight(t)|;
    forall k | 0 <= k < |t| - n ensures IsSpace(t[n..][k]) {
      assert t[n..][k] == t[n + k];
    }
  }

  /** `strip()` is determined: whatever is framed by blank text on both sides
      and begins and ends with a non-space character is the stripped text. */
  lemma {:induction false} StripUnique(a: string, m: string, b: string)
    requires IsBlank(a) && IsBlank(b)
    requires |m| == 0 || (!IsSpace(m[0]) && !IsSpace(m[|m| - 1]))
    ensures Strip(a + m + b) == m
  {
    var s := a + m + b;
    if |m| == 0 {
      assert IsBlank(s) by {
        forall k | 0 <= k < |s| ensures IsSpace(s[k]) {
          if k < |a| { assert s[k] == a[k]; } else { assert s[k] == b[k - |a|]; }
        }
      }
    } else {
      assert s == a + (m + b) && (m + b)[0] == m[0];
      TrimLeftBlank(a, m + b);
      TrimRightBlank(m, b);
    }
  }

  /** Leading blank text is dropped up to the first non-space character. */
  lemma {:induction false} TrimLeftBlank(a: string, x: string)
    requires IsBlank(a) && (|x| == 0 || !IsSpace(x[0]))
    ensures TrimLeft(a + x) == x
  {
    if |a| == 0 {
      assert a + x == x;
    } else {
      assert (a + x)[0] == a[0] && (a + x)[1..] == a[1..] + x;
      assert IsBlank(a[1..]) by {
        forall k | 0 <= k < |a[1..]| ensures IsSpace(a[1..][k]) {
          assert a[1..][k] == a[k + 1];
        }
      }
      TrimLeftBlank(a[1..], x);
    }
  }

  /** Trailing blank text is dropped back to the last non-space character. */
  lemma {:induction false} TrimRightBlank(x: string, b: string)
    requires IsBlank(b) && (|x| == 0 || !IsSpace(x[|x| - 1]))
    ensures TrimRight(x + b) == x
  {
    if |b| == 0 {
      assert x + b == x;
    } else {
      var n := |b| - 1;
      assert (x + b)[|x + b| - 1] == b[n] && (x + b)[..|x + b| - 1] == x + b[..n];
      assert IsBlank(b[..n]) by {
        forall k | 0 <= k < n ensures IsSpace(b[..n][k]) {
          assert b[..n][k] == b[k];
        }
      }
      TrimRightBlank(x, b[..n]);
    }
  }

  /** Stripping twice is stripping once. */
  lemma {:induction false} StripIdempotent(s: string)
    ensures Strip(Strip(s)) == Strip(s)
  {
    StripUnique("", Strip(s), "");
    assert "" + Strip(s) + "" == Strip(s);
  }

  // ---------------------------------------------------------------- split()

  /** Length of the leading run of non-whitespace characters. */
  function WordEnd(s: string): (n: nat)
    ensures n <= |s| && NoSpace(s[..n])
    ensures n < |s| ==> IsSpace(s[n])
    ensures |s| > 0 && !IsSpace(s[0]) ==> n > 0
  {
    if |s| == 0 || IsSpace(s[0]) then 0 else 1 + WordEnd(s[1..])
  }

  /** A token of `split()`: non-empty and free of whitespace. */
  predicate IsWord(w: string) {
    |w| > 0 && NoSpace(w)
  }

  /** Python's `s.split()`: the maximal runs of non-whitespace, in order. */
  function Words(s: string): (ws: seq<string>)
    ensures forall i :: 0 <= i < |ws| ==> IsWord(ws[i])
    ensures |s| > 0 && !IsSpace(s[0]) ==> |ws| > 0
    decreases |s|
  {
    var t := TrimLeft(s);
    if |t| == 0 then []
    else
      var n := WordEnd(t);
      var rest := Words(t[n..]);
      ConsWords(t[..n], rest);
      [t[..n]] + rest
  }

  /** `split()` gives no token exactly for blank text. */
  lemma {:induction false} NoWords(s: string)
    ensures |Words(s)| == 0 <==> IsBlank(s)
  {
    var t := TrimLeft(s);
    if |t| > 0 {
      assert s[|s| - |t|] == t[0];
    }
  }

  lemma {:induction false} ConsWords(w: string, ws: seq<string>)
    requires IsWord(w) && forall i :: 0 <= i < |ws| ==> IsWord(ws[i])
    ensures forall i :: 0 <= i < |[w] + ws| ==> IsWord(([w] + ws)[i])
  {
    forall i | 0 <= i < |[w] + ws| ensures IsWord(([w] + ws)[i]) {
      if i > 0 {
        assert ([w] + ws)[i] == ws[i - 1];
      }
    }
  }

  /** The words joined by single spaces: the inverse of `Words` (see `WordsOfUnwords`). */
  function Unwords(ws: seq<string>): string {
    if |ws| == 0 then ""
    else if |ws| == 1 then ws[0]
    else ws[0] + " " + Unwords(ws[1..])
  }

  lemma {:induction false} WordEndOfWord(w: string, rest: string)
    requires NoSpace(w)
    requires |rest| == 0 || IsSpace(rest[0])
    ensures WordEnd(w + rest) == |w|
  {
    if |w| > 0 {
      assert (w + rest)[1..] == w[1..] + rest;
      WordEndOfWord(w[1..], rest);
    } else {
      assert w + rest == rest;
    }
  }

  lemma {:induction false} WordsSkipsSpace(c: char, u: string)
    requires IsSpace(c)
    ensures Words([c] + u) == Words(u)
  {
    assert ([c] + u)[1..] == u;
    assert TrimLeft([c] + u) == TrimLeft(u);
  }

  /** A whitespace character separates tokens: the text on either side is
      split on its own and the tokens follow each other. */
  lemma {:induction false} WordsSplitAtSpace(a: string, c: char, b: string)
    requires IsSpace(c)
    ensures Words(a + [c] + b) == Words(a) + Words(b)
    decreases |a|
  {
    var s := a + [c] + b;
    if |a| == 0 {
      assert s == [c] + b;
      WordsSkipsSpace(c, b);
    } else if IsSpace(a[0]) {
      assert s == [a[0]] + (a[1..] + [c] + b) && a == [a[0]] + a[1..];
      WordsSkipsSpace(a[0], a[1..] + [c] + b);
      WordsSkipsSpace(a[0], a[1..]);
      WordsSplitAtSpace(a[1..], c, b);
    } else {
      var n := WordEnd(a);
      var w, rest := a[..n], a[n..];
      assert a == w + rest && a + [c] + b == w + (rest + [c] + b);
      WordsSplitAtSpace(rest, c, b);
      WordsSplitWordStep(w, rest, c, b);
    }
  }

  /** The step of `WordsSplitAtSpace` when the text starts with a word. */
  lemma {:induction false} WordsSplitWordStep(w: string, rest: string, c: char, b: string)
    requires IsWord(w) && IsSpace(c) && (|rest| == 0 || IsSpace(rest[0]))
    requires Words(rest + [c] + b) == Words(rest) + Words(b)
    ensures Words(w + (rest + [c] + b)) == Words(w + rest) + Words(b)
  {
    calc {
      Words(w + (rest + [c] + b));
      { assert (rest + [c] + b)[0] == if |rest| > 0 then rest[0] else c;
        WordsOfLead(w, rest + [c] + b); }
      [w] + Words(rest + [c] + b);
      [w] + (Words(rest) + Words(b));
      { AppendAssoc([w], Words(rest), Words(b)); }
      ([w] + Words(rest)) + Words(b);
      { WordsOfLead(w, rest); }
      Words(w + rest) + Words(b);
    }
  }

  /** A word followed by whitespace or nothing is the first token. */
  lemma {:induction false} WordsOfLead(w: string, x: string)
    requires IsWord(w) && (|x| == 0 || IsSpace(x[0]))
    ensures Words(w + x) == [w] + Words(x)
  {
    WordEndOfWord(w, x);
    assert (w + x)[0] == w[0];
    assert (w + x)[..|w|] == w && (w + x)[|w|..] == x;
    LeadingWord(w + x);
  }

  /** One unfolding of `Words` on text that starts with a word. */
  lemma {:induction false} LeadingWord(s: string)
    requires |s| > 0 && !IsSpace(s[0])
    ensures Words(s) == [s[..WordEnd(s)]] + Words(s[WordEnd(s)..])
  {
    assert TrimLeft(s) == s;
  }

  /** Blank text around a line does not change its tokens. */
  lemma {:induction false} WordsAround(a: string, m: string, b: string)
    requires IsBlank(a) && IsBlank(b)
    ensures Words(a + m + b) == Words(m)
  {
    assert a + m + b == a + (m + b);
    WordsBlankPrefix(a, m + b);
    WordsBlankSuffix(m, b);
  }

  lemma {:induction false} WordsBlankPrefix(a: string, x: string)
    requires IsBlank(a)
    ensures Words(a + x) == Words(x)
  {
    if |a| > 0 {
      assert a + x == [a[0]] + (a[1..] + x);
      assert IsBlank(a[1..]) by {
        forall k | 0 <= k < |a| - 1 ensures IsSpace(a[1..][k]) { assert a[1..][k] == a[k + 1]; }
      }
      WordsSkipsSpace(a[0], a[1..] + x);
      WordsBlankPrefix(a[1..], x);
    } else {
      assert a + x == x;
    }
  }

  lemma {:induction false} WordsBlankSuffix(x: string, b: string)
    requires IsBlank(b)
    ensures Words(x + b) == Words(x)
  {
    if |b| > 0 {
      assert x + b == x + [b[0]] + b[1..];
      assert IsBlank(b[1..]) by {
        forall k | 0 <= k < |b| - 1 ensures IsSpace(b[1..][k]) { assert b[1..][k] == b[k + 1]; }
      }
      WordsSplitAtSpace(x, b[0], b[1..]);
      assert Words(x) + [] == Words(x);
    } else {
      assert x + b == x;
    }
  }

  /** `line.strip().split()` is `line.split()`. */
  lemma {:induction false} WordsOfStrip(s: string)
    ensures Words(Strip(s)) == Words(s)
  {
    var i, j :| 0 <= i <= j <= |s| && Strip(s) == s[i..j] && IsBlank(s[..i]) && IsBlank(s[j..]);
    assert s == s[..i] + s[i..j] + s[j..];
    WordsAround(s[..i], s[i..j], s[j..]);
  }

  lemma {:induction false} WordsOfWord(w: string)
    requires |w| > 0 && NoSpace(w)
    ensures Words(w) == [w]
  {
    WordEndOfWord(w, "");
    assert w + "" == w;
    assert TrimLeft(w) == w;
    assert w[..|w|] == w;
    assert w[|w|..] == "";
  }

  lemma {:induction false} WordsOfCons(w: string, u: string)
    requires |w| > 0 && NoSpace(w)
    ensures Words(w + " " + u) == [w] + Words(u)
  {
    var s := w + " " + u;
    assert s == w + (" " + u);
    WordEndOfWord(w, " " + u);
    assert TrimLeft(s) == s;
    assert s[..|w|] == w;
    assert s[|w|..] == " " + u;
    WordsSkipsSpace(' ', u);
  }

  lemma {:induction false} TailAreWords(ws: seq<string>)
    requires |ws| > 0 && forall i :: 0 <= i < |ws| ==> IsWord(ws[i])
    ensures IsWord(ws[0]) && forall i :: 0 <= i < |ws[1..]| ==> IsWord(ws[1..][i])
  {
  }

  /** Splitting space-joined words gives the words back. */
  lemma {:induction false} WordsOfUnwords(ws: seq<string>)
    requires forall i :: 0 <= i < |ws| ==> IsWord(ws[i])
    ensures Words(Unwords(ws)) == ws
  {
    if |ws| == 1 {
      WordsOfWord(ws[0]);
    } else if |ws| > 1 {
      assert Words(Unwords(ws[1..])) == ws[1..] by {
        TailAreWords(ws);
        WordsOfUnwords(ws[1..]);
      }
      WordsOfUnwordsStep(ws);
    }
  }

  /** One more word in front: the inductive step of `WordsOfUnwords`. */
  lemma {:induction false} WordsOfUnwordsStep(ws: seq<string>)
    requires |ws| > 1 && IsWord(ws[0])
    requires Words(Unwords(ws[1..])) == ws[1..]
    ensures Words(Unwords(ws)) == ws
  {
    var u := Unwords(ws[1..]);
    calc {
      Words(Unwords(ws));
      Words(ws[0] + " " + u);
      { WordsOfCons(ws[0], u); }
      [ws[0]] + Words(u);
      [ws[0]] + ws[1..];
      { assert ws == [ws[0]] + ws[1..]; }
      ws;
    }
  }

  // ---------------------------------------------------------------- split(sep)

  /** Python's `s.split(sep)`: the pieces between occurrences of `sep`,
      empty pieces included; there is always at least one piece. */
  function SplitOn(s: string, sep: char): (parts: seq<string>)
    ensures |parts| > 0
    ensures forall i :: 0 <= i < |parts| ==> sep !in parts[i]
    decreases |s|
  {
    if sep in s then
      var i := IndexOf(s, sep);
      [s[..i]] + SplitOn(s[i + 1..], sep)
    else
      [s]
  }

  /** Python's `sep.join(parts)`. */
  function JoinWith(parts: seq<string>, sep: char): string
    requires |parts| > 0
  {
    if |parts| == 1 then parts[0] else parts[0] + [sep] + JoinWith(parts[1..], sep)
  }

  /** Splitting and joining again gives the text back. */
  lemma {:induction false} JoinSplit(s: string, sep: char)
    ensures JoinWith(SplitOn(s, sep), sep) == s
    decreases |s|
  {
    if sep in s {
      var i := IndexOf(s, sep);
      JoinSplit(s[i + 1..], sep);
      assert s == s[..i] + [sep] + s[i + 1..];
    }
  }

  /** A piece free of `sep` followed by `sep` is split off as the first piece. */
  lemma {:induction false} SplitOnFirst(a: string, sep: char, b: string)
    requires sep !in a
    ensures SplitOn(a + [sep] + b, sep) == [a] + SplitOn(b, sep)
  {
    var s := a + [sep] + b;
    assert s[|a|] == sep;
    assert s[..|a|] == a;
    assert IndexOf(s, sep) == |a|;
    assert s[|a| + 1..] == b;
  }

  // ---------------------------------------------------------------- int(...)

  function DigitValue(c: char): nat
    requires IsDigit(c)
  {
    (c as int) - ('0' as int)
  }

  /** The value of a run of decimal digits, most significant first. */
  function DigitsValue(s: string): nat
    requires AllDigits(s)
  {
    if |s| == 0 then 0 else 10 * DigitsValue(s[..|s| - 1]) + DigitValue(s[|s| - 1])
  }

  /** The digits Python's `int` accepts in base 10: at least one digit, with
      single underscores allowed only between digits. */
  predicate IsDecimalBody(s: string) {
    && |s| > 0 && IsDigit(s[0]) && IsDigit(s[|s| - 1])
    && (forall i :: 0 <= i < |s| ==> IsDigit(s[i]) || s[i] == '_')
    && (forall i :: 0 <= i < |s| - 1 && s[i] == '_' ==> s[i + 1] != '_')
  }

  function DropUnderscores(s: string): (r: string)
    requires forall i :: 0 <= i < |s| ==> IsDigit(s[i]) || s[i] == '_'
    ensures AllDigits(r)
  {
    if |s| == 0 then ""
    else if s[0] == '_' then DropUnderscores(s[1..])
    else [s[0]] + DropUnderscores(s[1..])
  }

  function Magnitude(body: string): nat
    requires IsDecimalBody(body)
  {
    DigitsValue(DropUnderscores(body))
  }

  /** Python's `int(s)` in base 10: surrounding whitespace is ignored, an
      optional sign is allowed; `None` is the `ValueError`. An information
      separator anywhere is a `ValueError`, since `int` does not skip it and it
      is neither a sign, a digit nor an underscore. */
  function ParseInt(s: string): Option<int> {
    if NoSeparator(s) then ParseStripped(Strip(s)) else None
  }

  /** `int` of blank text is a `ValueError`; a run of digits reads as its
      decimal value. */
  lemma {:induction false} ParseIntOfDigits(s: string)
    ensures IsBlank(s) ==> ParseInt(s).None?
    ensures |s| > 0 && AllDigits(s) ==> ParseInt(s) == Some(DigitsValue(s))
  {
    DigitsAreStripped(s);
    DigitsHaveNoSeparator(s);
    ParseStrippedFacts(Strip(s));
  }

  lemma {:induction false} DigitsHaveNoSeparator(s: string)
    ensures AllDigits(s) ==> NoSeparator(s)
  {
  }

  lemma {:induction false} DigitsAreStripped(s: string)
    ensures |s| > 0 && AllDigits(s) ==> Strip(s) == s
  {
    if |s| > 0 && AllDigits(s) {
      DigitIsNotSpace(s[0]);
      DigitIsNotSpace(s[|s| - 1]);
    }
  }

  lemma {:induction false} ParseStrippedFacts(t: string)
    ensures |t| == 0 ==> ParseStripped(t).None?
    ensures ParseStripped(t).Some? ==> |t| > 0 && IsDigit(t[|t| - 1])
    ensures |t| > 0 && AllDigits(t) ==> ParseStripped(t) == Some(DigitsValue(t))
  {
    if |t| > 0 && AllDigits(t) {
      DigitIsNotSpace(t[0]);
      DigitsAreDecimalBody(t);
      DropUnderscoresOfDigits(t);
    }
  }

  /** Text that strips to the way `str` writes an integer reads as that
      integer, unless an information separator is among the stripped
      whitespace. */
  lemma {:induction false} ParseIntOfDecimal(s: string, i: int)
    requires Strip(s) == IntToDecimal(i)
    ensures NoSeparator(s) ==> ParseInt(s) == Some(i)
    ensures !NoSeparator(s) ==> ParseInt(s) == None
  {
    IntRoundTrip(i);
    DecimalHasNoSeparator(i);
    StripIdempotent(s);
  }

  lemma {:induction false} DecimalHasNoSeparator(i: int)
    ensures NoSeparator(IntToDecimal(i))
  {
    var s := IntToDecimal(i);
    if i < 0 {
      var d := NatToDecimal(-i);
      assert s == "-" + d;
      forall k | 0 <= k < |s| ensures !IsSeparator(s[k]) {
        if k > 0 {
          assert s[k] == d[k - 1];
        }
      }
    }
  }

  /** `int` on text that has no surrounding whitespace. */
  function ParseStripped(t: string): Option<int> {
    if |t| > 0 && (t[0] == '+' || t[0] == '-') then
      var body := t[1..];
      if IsDecimalBody(body) then
        var m: int := Magnitude(body);
        Some(if t[0] == '-' then -m else m)
      else None
    else if IsDecimalBody(t) then Some(Magnitude(t))
    else None
  }

  /** `int` ignores whitespace before and after the text, as long as it holds
      no information separator. */
  lemma {:induction false} ParseIntSkipsSpace(a: string, s: string, b: string)
    requires IsBlank(a) && NoSeparator(a) && IsBlank(b) && NoSeparator(b)
    ensures ParseInt(a + s + b) == ParseInt(s)
  {
    NoSeparatorAround(a, s, b);
    StripAround(a, s, b);
  }

  lemma {:induction false} NoSeparatorAround(a: string, s: string, b: string)
    requires NoSeparator(a) && NoSeparator(b)
    ensures NoSeparator(a + s + b) <==> NoSeparator(s)
  {
    var t := a + s + b;
    assert forall k :: 0 <= k < |s| ==> t[|a| + k] == s[k];
    forall k | 0 <= k < |t| && NoSeparator(s) ensures !IsSeparator(t[k]) {
      if k < |a| {
        assert t[k] == a[k];
      } else if k < |a| + |s| {
        assert t[k] == s[k - |a|];
      } else {
        assert t[k] == b[k - |a| - |s|];
      }
    }
  }

  /** Blank text around a text does not change what it strips to. */
  lemma {:induction false} StripAround(a: string, s: string, b: string)
    requires IsBlank(a) && IsBlank(b)
    ensures Strip(a + s + b) == Strip(s)
  {
    var m := Strip(s);
    var i, j :| 0 <= i <= j <= |s| && m == s[i..j] && IsBlank(s[..i]) && IsBlank(s[j..]);
    StripAroundAt(a, s, b, m, i, j);
  }

  lemma {:induction false} StripAroundAt(a: string, s: string, b: string, m: string, i: nat, j: nat)
    requires IsBlank(a) && IsBlank(b)
    requires i <= j <= |s| && m == s[i..j] && IsBlank(s[..i]) && IsBlank(s[j..])
    requires |m| == 0 || (!IsSpace(m[0]) && !IsSpace(m[|m| - 1]))
    ensures Strip(a + s + b) == m
  {
    assert s == s[..i] + m + s[j..];
    StripFramed(a, s[..i], m, s[j..], b);
  }

  /** `StripUnique` with the blank frame in two parts on each side. */
  lemma {:induction false} StripFramed(a: string, x: string, m: string, y: string, b: string)
    requires IsBlank(a) && IsBlank(x) && IsBlank(y) && IsBlank(b)
    requires |m| == 0 || (!IsSpace(m[0]) && !IsSpace(m[|m| - 1]))
    ensures Strip(a + (x + m + y) + b) == m
  {
    BlankAppend(a, x);
    BlankAppend(y, b);
    Regroup(a, x, m, y, b);
    StripUnique(a + x, m, y + b);
  }

  lemma {:induction false} BlankAppend(x: string, y: string)
    requires IsBlank(x) && IsBlank(y)
    ensures IsBlank(x + y)
  {
    forall k | 0 <= k < |x + y| ensures IsSpace((x + y)[k]) {
      if k < |x| {
        assert (x + y)[k] == x[k];
      } else {
        assert (x + y)[k] == y[k - |x|];
      }
    }
  }

  // ---------------------------------------------------------------- str(int)

  function Digit(d: nat): (c: char)
    requires d < 10
    ensures IsDigit(c) && DigitValue(c) == d
  {
    (('0' as int) + d) as char
  }

  /** Python's `str(n)` for a non-negative integer: no sign, no leading zeros. */
  function NatToDecimal(n: nat): (s: string)
    ensures |s| > 0 && AllDigits(s)
    ensures |s| > 1 ==> s[0] != '0'
  {
    if n < 10 then [Digit(n)] else NatToDecimal(n / 10) + [Digit(n % 10)]
  }

  /** Python's `str(i)`. */
  function IntToDecimal(i: int): string {
    if i < 0 then "-" + NatToDecimal(-i) else NatToDecimal(i)
  }

  lemma {:induction false} DigitsValueOfDecimal(n: nat)
    ensures DigitsValue(NatToDecimal(n)) == n
  {
    if n >= 10 {
      var s := NatToDecimal(n);
      assert s[..|s| - 1] == NatToDecimal(n / 10);
      DigitsValueOfDecimal(n / 10);
    }
  }

  lemma {:induction false} DropUnderscoresOfDigits(s: string)
    requires AllDigits(s)
    ensures DropUnderscores(s) == s
  {
    if |s| > 0 {
      DropUnderscoresOfDigits(s[1..]);
    }
  }

  lemma {:induction false} DigitIsNotSpace(c: char)
    requires IsDigit(c)
    ensures !IsSpace(c) && c != '+' && c != '-' && c != '_'
  {
  }

  lemma {:induction false} DigitsAreDecimalBody(s: string)
    requires |s| > 0 && AllDigits(s)
    ensures IsDecimalBody(s)
  {
  }

  /** `int(str(n))` is `n` for every non-negative integer. */
  lemma {:induction false} NatRoundTrip(n: nat)
    ensures ParseInt(NatToDecimal(n)) == Some(n)
  {
    var s := NatToDecimal(n);
    DigitIsNotSpace(s[0]);
    DigitIsNotSpace(s[|s| - 1]);
    assert Strip(s) == s;
    DigitsHaveNoSeparator(s);
    DigitsAreDecimalBody(s);
    assert IsDecimalBody(s);
    DropUnderscoresOfDigits(s);
    DigitsValueOfDecimal(n);
  }

  lemma {:induction false} StripOfNegative(s: string, d: string, n: nat)
    requires d == NatToDecimal(n) && s == "-" + d
    requires Strip(s) == s
    ensures ParseInt(s) == Some(-(n as int))
  {
    DecimalHasNoSeparator(-(n as int));
    calc {
      ParseInt(s);
      ParseStripped(s);
      { assert s[0] == '-' && s[1..] == d; DigitsAreDecimalBody(d); }
      Some(-(Magnitude(d) as int));
      { DropUnderscoresOfDigits(d); DigitsValueOfDecimal(n); }
      Some(-(n as int));
    }
  }

  /** `int(str(i))` is `i` for every integer. */
  lemma {:induction false} IntRoundTrip(i: int)
    ensures ParseInt(IntToDecimal(i)) == Some(i)
  {
    if i < 0 {
      var d := NatToDecimal(-i);
      var s := "-" + d;
      DigitIsNotSpace(d[|d| - 1]);
      assert s[|s| - 1] == d[|d| - 1];
      assert !IsSpace(s[0]);
      StripOfNegative(s, d, -i);
    } else {
      NatRoundTrip(i);
    }
  }
}
