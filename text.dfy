/**
  The string operations of Rust's standard library that the OBJ loader relies on:
  `str::lines`, `str::split_whitespace`, `str::split(char)` and `i32::from_str`.
  Each comes with the writer that inverts it, and a lemma that reading back what
  the writer produced gives the original.
 */
module Text {
  import opened Wrappers
  import opened Integers

  // ---------------------------------------------------------------------------
  // Characters

  /** Rust's `char::is_whitespace`: the Unicode White_Space property. */
  predicate IsWhitespace(c: char) {
    c == ' ' || ('\t' <= c <= '\r') || c == '\U{85}' || c == '\U{A0}' || c == '\U{1680}'
    || ('\U{2000}' <= c <= '\U{200A}') || c == '\U{2028}' || c == '\U{2029}'
    || c == '\U{202F}' || c == '\U{205F}' || c == '\U{3000}'
  }

  predicate IsDigit(c: char) {
    '0' <= c <= '9'
  }

  /** The position of the first `c` in `s`, or `|s|` when there is none. */
  function IndexOf(s: string, c: char): (k: nat)
    ensures k <= |s|
    ensures forall i :: 0 <= i < k ==> s[i] != c
    ensures k < |s| ==> s[k] == c
  {
    if |s| == 0 then 0
    else if s[0] == c then 0
    else 1 + IndexOf(s[1..], c)
  }

  // ---------------------------------------------------------------------------
  // str::lines

  predicate EndsWithCarriageReturn(s: string) {
    |s| > 0 && s[|s| - 1] == '\r'
  }

  /** Drops the `\r` of a `\r\n` line ending. */
  function StripCarriageReturn(s: string): string {
    if EndsWithCarriageReturn(s) then s[..|s| - 1] else s
  }

  /**
    `str::lines`: splits at `\n`, drops the `\r` of a `\r\n` ending, and yields no
    empty line after a final line ending.
   */
  function Lines(s: string): (ls: seq<string>)
    ensures forall i :: 0 <= i < |ls| ==> '\n' !in ls[i]
    decreases |s|
  {
    if |s| == 0 then []
    else
      var k := IndexOf(s, '\n');
      if k == |s| then [s]
      else
        assert '\n' !in s[..k] by {
          forall i | 0 <= i < k ensures s[..k][i] != '\n' { }
        }
        [StripCarriageReturn(s[..k])] + Lines(s[k + 1..])
  }

  /** The canonical writer: every line followed by `\n`. */
  function WriteLines(ls: seq<string>): string {
    if |ls| == 0 then "" else ls[0] + "\n" + WriteLines(ls[1..])
  }

  /** A line the writer can emit and `Lines` gives back unchanged. */
  predicate IsPlainLine(l: string) {
    '\n' !in l && !EndsWithCarriageReturn(l)
  }

  lemma IndexOfPrefix(a: string, b: string, c: char)
    requires c !in a
    ensures IndexOf(a + b, c) == |a| + IndexOf(b, c)
    decreases |a|
  {
    if |a| > 0 {
      assert (a + b)[0] == a[0] && a[0] != c;
      assert (a + b)[1..] == a[1..] + b;
      IndexOfPrefix(a[1..], b, c);
    } else {
      assert a + b == b;
    }
  }

  /** Reading one written line off the front of a text. */
  lemma LinesOfWrittenLine(l: string, rest: string)
    requires IsPlainLine(l)
    ensures Lines(l + "\n" + rest) == [l] + Lines(rest)
  {
    var s := l + "\n" + rest;
    assert s == l + ("\n" + rest);
    IndexOfPrefix(l, "\n" + rest, '\n');
    var k := IndexOf(s, '\n');
    assert k == |l|;
    assert s[..k] == l;
    assert s[k + 1..] == rest;
  }

  lemma {:induction false} LinesOfWrittenLines(ls: seq<string>)
    requires forall i :: 0 <= i < |ls| ==> IsPlainLine(ls[i])
    ensures Lines(WriteLines(ls)) == ls
  {
    if |ls| > 0 {
      assert WriteLines(ls) == ls[0] + "\n" + WriteLines(ls[1..]);
      LinesOfWrittenLine(ls[0], WriteLines(ls[1..]));
      assert forall i :: 0 <= i < |ls| - 1 ==> ls[1..][i] == ls[i + 1];
      LinesOfWrittenLines(ls[1..]);
    }
  }

  // ---------------------------------------------------------------------------
  // str::split_whitespace

  /** A token `split_whitespace` can yield: non-empty, with no whitespace in it. */
  predicate IsWord(w: string) {
    |w| > 0 && forall i :: 0 <= i < |w| ==> !IsWhitespace(w[i])
  }

  /** The length of the run of non-whitespace characters at the start of `s`. */
  function WordLength(s: string): (n: nat)
    ensures n <= |s|
    ensures forall i :: 0 <= i < n ==> !IsWhitespace(s[i])
    ensures n < |s| ==> IsWhitespace(s[n])
  {
    if |s| == 0 || IsWhitespace(s[0]) then 0 else 1 + WordLength(s[1..])
  }

  /** `str::split_whitespace`: the maximal runs of non-whitespace characters, in order. */
  function SplitWhitespace(s: string): (words: seq<string>)
    ensures forall i :: 0 <= i < |words| ==> IsWord(words[i])
    decreases |s|
  {
    if |s| == 0 then []
    else if IsWhitespace(s[0]) then SplitWhitespace(s[1..])
    else
      var n := WordLength(s);
      [s[..n]] + SplitWhitespace(s[n..])
  }

  /** The canonical writer: words separated by single spaces. */
  function JoinWords(ws: seq<string>): string {
    if |ws| == 0 then ""
    else if |ws| == 1 then ws[0]
    else ws[0] + " " + JoinWords(ws[1..])
  }

  lemma WordLengthOfWord(w: string, rest: string)
    requires IsWord(w)
    requires rest == [] || IsWhitespace(rest[0])
    ensures WordLength(w + rest) == |w|
    decreases |w|
  {
    if |w| > 1 {
      assert (w + rest)[1..] == w[1..] + rest;
      WordLengthOfWord(w[1..], rest);
    } else {
      assert (w + rest)[1..] == rest;
    }
  }

  lemma {:induction false} SplitJoinedWords(ws: seq<string>)
    requires forall i :: 0 <= i < |ws| ==> IsWord(ws[i])
    ensures SplitWhitespace(JoinWords(ws)) == ws
  {
    if |ws| == 1 {
      WordLengthOfWord(ws[0], "");
      assert ws[0] + "" == ws[0];
      assert ws[0][|ws[0]|..] == "";
    } else if |ws| > 1 {
      var rest := JoinWords(ws[1..]);
      var s := JoinWords(ws);
      assert s == ws[0] + (" " + rest);
      WordLengthOfWord(ws[0], " " + rest);
      assert s[..|ws[0]|] == ws[0];
      assert s[|ws[0]|..] == " " + rest;
      assert (" " + rest)[1..] == rest;
      SplitJoinedWords(ws[1..]);
    }
  }

  /** Words joined by spaces make a line the line writer can emit. */
  lemma {:induction false} JoinedWordsArePlain(ws: seq<string>)
    requires forall i :: 0 <= i < |ws| ==> IsWord(ws[i])
    ensures forall i :: 0 <= i < |JoinWords(ws)| ==> !IsWhitespace(JoinWords(ws)[i]) || JoinWords(ws)[i] == ' '
    ensures IsPlainLine(JoinWords(ws))
  {
    var s := JoinWords(ws);
    if |ws| > 1 {
      JoinedWordsArePlain(ws[1..]);
      var rest := JoinWords(ws[1..]);
      assert s == ws[0] + " " + rest;
      forall i | 0 <= i < |s| ensures !IsWhitespace(s[i]) || s[i] == ' ' {
        if i < |ws[0]| {
          assert s[i] == ws[0][i];
        } else if i > |ws[0]| {
          assert s[i] == rest[i - |ws[0]| - 1];
        }
      }
    }
    assert forall i :: 0 <= i < |s| ==> s[i] != '\n' && s[i] != '\r';
  }

  // ---------------------------------------------------------------------------
  // str::split(char)

  /** `str::split(sep)`: the pieces between separators; always at least one piece. */
  function SplitOn(s: string, sep: char): (parts: seq<string>)
    ensures |parts| >= 1
    ensures forall i :: 0 <= i < |parts| ==> sep !in parts[i]
    decreases |s|
  {
    var k := IndexOf(s, sep);
    assert sep !in s[..k] by {
      forall i | 0 <= i < k ensures s[..k][i] != sep { }
    }
    if k == |s| then [s[..k]] else [s[..k]] + SplitOn(s[k + 1..], sep)
  }

  /** The inverse writer: the pieces with `sep` between them. */
  function JoinOn(parts: seq<string>, sep: char): string
    requires |parts| >= 1
  {
    if |parts| == 1 then parts[0] else parts[0] + [sep] + JoinOn(parts[1..], sep)
  }

  lemma {:induction false} JoinSplitPieces(s: string, sep: char)
    ensures JoinOn(SplitOn(s, sep), sep) == s
    decreases |s|
  {
    var k := IndexOf(s, sep);
    if k < |s| {
      JoinSplitPieces(s[k + 1..], sep);
      assert s == s[..k] + [sep] + s[k + 1..];
    } else {
      assert s[..k] == s;
    }
  }

  lemma {:induction false} SplitJoinedPieces(parts: seq<string>, sep: char)
    requires |parts| >= 1
    requires forall i :: 0 <= i < |parts| ==> sep !in parts[i]
    ensures SplitOn(JoinOn(parts, sep), sep) == parts
  {
    var s := JoinOn(parts, sep);
    if |parts| == 1 {
      assert IndexOf(s, sep) == |s|;
      assert s[..|s|] == s;
    } else {
      var rest := JoinOn(parts[1..], sep);
      assert s == parts[0] + ([sep] + rest);
      IndexOfPrefix(parts[0], [sep] + rest, sep);
      assert IndexOf(s, sep) == |parts[0]|;
      assert s[..|parts[0]|] == parts[0];
      assert s[|parts[0]| + 1..] == rest;
      SplitJoinedPieces(parts[1..], sep);
    }
  }

  /** Words joined by a separator that is not whitespace make one word. */
  lemma {:induction false} JoinedPiecesAreWord(parts: seq<string>, sep: char)
    requires |parts| >= 1 && !IsWhitespace(sep)
    requires forall i :: 0 <= i < |parts| ==> IsWord(parts[i])
    ensures IsWord(JoinOn(parts, sep))
  {
    if |parts| > 1 {
      JoinedPiecesAreWord(parts[1..], sep);
      var rest := JoinOn(parts[1..], sep);
      var s := JoinOn(parts, sep);
      assert s == parts[0] + [sep] + rest;
      forall i | 0 <= i < |s| ensures !IsWhitespace(s[i]) {
        if i < |parts[0]| {
          assert s[i] == parts[0][i];
        } else if i > |parts[0]| {
          assert s[i] == rest[i - |parts[0]| - 1];
        }
      }
    }
  }

  // ---------------------------------------------------------------------------
  // i32::from_str

  predicate AllDigits(s: string) {
    forall i :: 0 <= i < |s| ==> IsDigit(s[i])
  }

  function DigitValue(c: char): nat
    requires IsDigit(c)
  {
    c as int - '0' as int
  }

  /** The value of a run of decimal digits, most significant first. */
  function DigitsValue(s: string): nat
    requires AllDigits(s)
  {
    if |s| == 0 then 0 else 10 * DigitsValue(s[..|s| - 1]) + DigitValue(s[|s| - 1])
  }

  /**
    `i32::from_str`: an optional `+` or `-`, then at least one decimal digit, and a
    value that fits in 32 bits; anything else is an error.
   */
  function ParseI32(s: string): (r: Option<int>)
    ensures r.Some? ==> IsI32(r.value)
    ensures (forall i :: 0 <= i < |s| ==> !IsDigit(s[i])) ==> r.None?
  {
    var negative := |s| > 0 && s[0] == '-';
    var digits := if |s| > 0 && (s[0] == '-' || s[0] == '+') then s[1..] else s;
    if |digits| == 0 || !AllDigits(digits) then None
    else
      assert IsDigit(digits[0]);
      var v: int := if negative then -(DigitsValue(digits) as int) else DigitsValue(digits);
      if IsI32(v) then Some(v) else None
  }

  function DigitChar(d: nat): (c: char)
    requires d < 10
    ensures IsDigit(c) && DigitValue(c) == d
  {
    ('0' as int + d) as char
  }

  /** The canonical decimal writer for a natural number. */
  function Decimal(n: nat): (s: string)
    ensures |s| >= 1 && AllDigits(s)
  {
    if n < 10 then [DigitChar(n)] else Decimal(n / 10) + [DigitChar(n % 10)]
  }

  /** The canonical writer for an integer, `-` first when negative. */
  function FormatInt(n: int): string {
    if n < 0 then "-" + Decimal(-n) else Decimal(n)
  }

  lemma {:induction false} DecimalValue(n: nat)
    ensures DigitsValue(Decimal(n)) == n
  {
    if n >= 10 {
      var s := Decimal(n);
      assert s[..|s| - 1] == Decimal(n / 10);
      DecimalValue(n / 10);
    }
  }

  lemma ParseFormattedI32(n: int)
    requires IsI32(n)
    ensures ParseI32(FormatInt(n)) == Some(n)
  {
    var s := FormatInt(n);
    if n < 0 {
      assert s[1..] == Decimal(-n);
      DecimalValue(-n);
    } else {
      DecimalValue(n);
    }
  }

  /** A formatted integer is one token with no `/` in it: a sign and digits. */
  lemma FormattedIntIsWord(n: int)
    ensures IsWord(FormatInt(n)) && '/' !in FormatInt(n)
  {
    var d := Decimal(if n < 0 then -n else n);
    assert forall i :: 0 <= i < |d| ==> IsDigit(d[i]);
    if n < 0 {
      var s := FormatInt(n);
      assert s == "-" + d;
      assert forall i :: 1 <= i < |s| ==> s[i] == d[i - 1];
    }
  }
}
