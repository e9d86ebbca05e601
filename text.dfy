/** The parts of Python's `str` that the message runtime and the session code
    rely on: lower(), strip(), replace(), split(), join(), splitlines() and the
    decimal rendering of non-negative integers. */
module Text {

  // ---------------------------------------------------------------------------
  // Letters and lower()
  // ---------------------------------------------------------------------------

  /** The letters whose lower() differs from themselves in this model: ASCII
      A-Z and the Latin-1 capitals U+00C0..U+00DE other than the sign U+00D7. */
  predicate IsUpper(c: char) {
    ('A' <= c <= 'Z') || ('\U{C0}' <= c <= '\U{DE}' && c != '\U{D7}')
  }

  predicate HasUpper(s: string) {
    exists i :: 0 <= i < |s| && IsUpper(s[i])
  }

  function LowerChar(c: char): (r: char)
    ensures !IsUpper(r)
    ensures !IsUpper(c) ==> r == c
    ensures IsSpace(r) == IsSpace(c)
  {
    if IsUpper(c) then (c as int + 32) as char else c
  }

  /** str.lower(): the result has no upper-case letter, and lower() leaves a
      string alone exactly when it has none (so `t != t.lower()` is HasUpper). */
  function Lower(s: string): (r: string)
    ensures |r| == |s| && !HasUpper(r)
    ensures r == s <==> !HasUpper(s)
  {
    var r := seq(|s|, i requires 0 <= i < |s| => LowerChar(s[i]));
    assert !HasUpper(s) ==> r == s by {
      if !HasUpper(s) {
        forall i | 0 <= i < |s| ensures r[i] == s[i] { assert !IsUpper(s[i]); }
      }
    }
    r
  }

  // ---------------------------------------------------------------------------
  // Whitespace and strip()
  // ---------------------------------------------------------------------------

  /** str.isspace() for one character: the characters strip() removes. */
  predicate IsSpace(c: char) {
    ('\t' <= c <= '\r') || ('\U{1C}' <= c <= ' ') || c == '\U{85}' || c == '\U{A0}'
    || c == '\U{1680}' || ('\U{2000}' <= c <= '\U{200A}') || c == '\U{2028}' || c == '\U{2029}'
    || c == '\U{202F}' || c == '\U{205F}' || c == '\U{3000}'
  }

  /** True of "" and of every string made only of whitespace: `not s.strip()`. */
  predicate IsBlank(s: string) {
    forall i :: 0 <= i < |s| ==> IsSpace(s[i])
  }

  /** str.strip() with no argument. The result is empty exactly for blank
      strings, otherwise it starts and ends with a non-space, and it holds no
      character that `s` does not. */
  function Strip(s: string): (r: string)
    ensures |r| <= |s|
    ensures r == "" <==> IsBlank(s)
    ensures r == "" || (!IsSpace(r[0]) && !IsSpace(r[|r| - 1]))
    ensures forall c :: c in r ==> c in s
    decreases |s|
  {
    if |s| > 0 && IsSpace(s[0]) then
      var r := Strip(s[1..]);
      assert IsBlank(s[1..]) ==> IsBlank(s) by {
        if IsBlank(s[1..]) {
          forall i | 0 <= i < |s| ensures IsSpace(s[i]) {
            if i > 0 { assert s[i] == s[1..][i - 1]; }
          }
        }
      }
      r
    else if |s| > 0 && IsSpace(s[|s| - 1]) then
      Strip(s[..|s| - 1])
    else
      s
  }

  /** A string that already starts and ends with a non-space is its own strip(). */
  lemma StripStripped(s: string)
    requires s == "" || (!IsSpace(s[0]) && !IsSpace(s[|s| - 1]))
    ensures Strip(s) == s
  {
  }

  /** A leading space is stripped. */
  lemma StripLeadingSpace(c: char, s: string)
    requires IsSpace(c)
    ensures Strip([c] + s) == Strip(s)
  {
    assert ([c] + s)[1..] == s;
  }

  /** A trailing space after a word that starts with a non-space is stripped. */
  lemma StripTrailingSpace(s: string, c: char)
    requires s != [] && !IsSpace(s[0]) && IsSpace(c)
    ensures Strip(s + [c]) == Strip(s)
  {
    assert (s + [c])[..|s|] == s;
  }

  lemma StripIdempotent(s: string)
    ensures Strip(Strip(s)) == Strip(s)
  {
    StripStripped(Strip(s));
  }

  /** lower() works character by character, so it distributes over `+`. */
  lemma LowerAppend(a: string, b: string)
    ensures Lower(a + b) == Lower(a) + Lower(b)
  {
    var l := Lower(a + b);
    forall i | 0 <= i < |a + b| ensures l[i] == (Lower(a) + Lower(b))[i] {
      if i < |a| { assert (a + b)[i] == a[i]; } else { assert (a + b)[i] == b[i - |a|]; }
    }
  }

  /** Lowering keeps every space a space and every non-space a non-space. */
  lemma BlankLower(s: string)
    ensures IsBlank(Lower(s)) == IsBlank(s)
  {
    assert forall i :: 0 <= i < |s| ==> Lower(s)[i] == LowerChar(s[i]);
  }

  /** `s.strip().lower()` is already stripped: nothing is left for a second strip(). */
  lemma {:induction false} LowerOfStrippedIsStripped(s: string)
    ensures Strip(Lower(Strip(s))) == Lower(Strip(s))
  {
    var t := Strip(s);
    var u := Lower(t);
    if t != "" {
      assert u[0] == LowerChar(t[0]);
      assert u[|u| - 1] == LowerChar(t[|t| - 1]);
    }
    StripStripped(u);
  }

  /** A sub-collection of the characters of a string with no capital has none. */
  lemma NoUpperInStrip(s: string)
    requires !HasUpper(s)
    ensures !HasUpper(Strip(s))
  {
  }

  // ---------------------------------------------------------------------------
  // replace(), split() and join()
  // ---------------------------------------------------------------------------

  /** str.replace(pat, rep): every non-overlapping occurrence of `pat`, scanning
      from the left, is replaced by `rep`. */
  function Replace(s: string, pat: string, rep: string): (r: string)
    requires pat != ""
    ensures |rep| <= |pat| ==> |r| <= |s|
    decreases |s|
  {
    if |s| < |pat| then s
    else if s[..|pat|] == pat then rep + Replace(s[|pat|..], pat, rep)
    else [s[0]] + Replace(s[1..], pat, rep)
  }

  /** Replacing every `c` by a text without `c` leaves no `c` behind. */
  lemma {:induction false} ReplaceRemovesChar(s: string, c: char, rep: string)
    requires c !in rep
    ensures c !in Replace(s, [c], rep)
    decreases |s|
  {
    if |s| >= 1 {
      if s[..1] == [c] {
        ReplaceRemovesChar(s[1..], c, rep);
      } else {
        ReplaceRemovesChar(s[1..], c, rep);
        assert s[0] != c by { assert s[..1][0] == s[0]; }
      }
    }
  }

  /** Replacing characters of a text with no capital by texts with no capital
      gives a text with no capital. */
  lemma {:induction false} ReplaceKeepsLower(s: string, pat: string, rep: string)
    requires pat != "" && !HasUpper(s) && !HasUpper(rep)
    ensures !HasUpper(Replace(s, pat, rep))
    decreases |s|
  {
    if |s| >= |pat| {
      var r := Replace(s, pat, rep);
      if s[..|pat|] == pat {
        ReplaceKeepsLower(s[|pat|..], pat, rep);
        var tail := Replace(s[|pat|..], pat, rep);
        assert r == rep + tail;
      } else {
        ReplaceKeepsLower(s[1..], pat, rep);
        var tail := Replace(s[1..], pat, rep);
        assert r == [s[0]] + tail;
      }
    }
  }

  /** A text without the first character of `pat` holds no occurrence of it. */
  lemma {:induction false} ReplaceAbsent(s: string, pat: string, rep: string)
    requires pat != "" && pat[0] !in s
    ensures Replace(s, pat, rep) == s
    decreases |s|
  {
    if |s| >= |pat| {
      assert s[..|pat|][0] == s[0];
      ReplaceAbsent(s[1..], pat, rep);
      assert [s[0]] + s[1..] == s;
    }
  }

  /** A text none of whose characters starts `pat` is kept as it is in
      front of whatever follows it. */
  lemma {:induction false} ReplaceKeepPrefix(a: string, pat: string, rep: string, b: string)
    requires pat != "" && pat[0] !in a
    ensures Replace(a + b, pat, rep) == a + Replace(b, pat, rep)
    decreases |a|
  {
    if a != [] {
      var t := a[1..] + b;
      assert a + b == [a[0]] + t;
      ReplaceSkip(a[0], t, pat, rep);
      ReplaceKeepPrefix(a[1..], pat, rep, b);
      assert [a[0]] + (a[1..] + Replace(b, pat, rep)) == a + Replace(b, pat, rep);
    } else {
      assert a + b == b;
    }
  }

  /** The first occurrence of `pat` is replaced, and replacing goes on after
      it. */
  lemma ReplaceFirstMatch(a: string, pat: string, rep: string, b: string)
    requires pat != "" && pat[0] !in a
    ensures Replace(a + pat + b, pat, rep) == a + rep + Replace(b, pat, rep)
  {
    assert a + pat + b == a + (pat + b);
    ReplaceKeepPrefix(a, pat, rep, pat + b);
    ReplaceAtMatch(pat, rep, b);
  }

  /** One occurrence of `pat` between two texts that never start it is the
      only one replaced, wherever it stands. */
  lemma ReplaceAroundMatch(a: string, pat: string, rep: string, b: string)
    requires pat != "" && pat[0] !in a && pat[0] !in b
    ensures Replace(a + pat + b, pat, rep) == a + rep + b
  {
    ReplaceFirstMatch(a, pat, rep, b);
    ReplaceAbsent(b, pat, rep);
  }

  /** A text that does not start with `pat` keeps its first character. */
  lemma ReplaceNoMatchHere(s: string, pat: string, rep: string)
    requires pat != "" && s != [] && (|s| < |pat| || s[..|pat|] != pat)
    ensures Replace(s, pat, rep) == [s[0]] + Replace(s[1..], pat, rep)
  {
    if |s| < |pat| {
      assert s[1..] == s[1..] && |s[1..]| < |pat|;
      assert [s[0]] + s[1..] == s;
    }
  }

  /** A text that starts with `pat` has that occurrence replaced. */
  lemma ReplaceAtMatch(pat: string, rep: string, b: string)
    requires pat != ""
    ensures Replace(pat + b, pat, rep) == rep + Replace(b, pat, rep)
  {
    assert (pat + b)[..|pat|] == pat && (pat + b)[|pat|..] == b;
  }

  /** A first character that does not start `pat` is kept. */
  lemma ReplaceSkip(c: char, t: string, pat: string, rep: string)
    requires pat != "" && c != pat[0]
    ensures Replace([c] + t, pat, rep) == [c] + Replace(t, pat, rep)
  {
    var s := [c] + t;
    if |s| >= |pat| {
      assert s[..|pat|][0] == c;
      assert s[1..] == t;
    }
  }

  /** The position of the first `c` in `s`. */
  function IndexOf(s: string, c: char): (i: nat)
    requires c in s
    ensures i < |s| && s[i] == c && c !in s[..i]
  {
    if s[0] == c then 0 else
      var j := IndexOf(s[1..], c);
      assert s[1..][..j] == s[1..j + 1];
      assert s[..j + 1] == [s[0]] + s[1..j + 1];
      j + 1
  }

  /** str.split(sep) for a one-character separator: the fields between the
      separators, none of which holds the separator. */
  function Split(s: string, sep: char): (r: seq<string>)
    ensures |r| >= 1
    ensures forall i :: 0 <= i < |r| ==> sep !in r[i]
    decreases |s|
  {
    if sep !in s then [s]
    else
      var i := IndexOf(s, sep);
      [s[..i]] + Split(s[i + 1..], sep)
  }

  /** sep.join(parts). */
  function Join(parts: seq<string>, sep: string): string
  {
    if parts == [] then ""
    else if |parts| == 1 then parts[0]
    else parts[0] + sep + Join(parts[1..], sep)
  }

  /** Joining a part in front of a non-empty rest. */
  lemma JoinCons(p: string, rest: seq<string>, sep: string)
    requires rest != []
    ensures Join([p] + rest, sep) == p + sep + Join(rest, sep)
  {
    assert ([p] + rest)[1..] == rest;
  }

  /** Splitting on one separator undoes joining with it when no part holds it. */
  lemma {:induction false} SplitJoin(parts: seq<string>, sep: char)
    requires parts != []
    requires forall i :: 0 <= i < |parts| ==> sep !in parts[i]
    ensures Split(Join(parts, [sep]), sep) == parts
  {
    if |parts| > 1 {
      var s := Join(parts, [sep]);
      var tail := Join(parts[1..], [sep]);
      assert s == parts[0] + [sep] + tail;
      SplitAfterField(parts[0], sep, tail);
      SplitJoin(parts[1..], sep);
    }
  }

  /** The first field of `a + sep + b` is `a` when `a` has no separator. */
  lemma SplitAfterField(a: string, sep: char, b: string)
    requires sep !in a
    ensures Split(a + [sep] + b, sep) == [a] + Split(b, sep)
  {
    var s := a + [sep] + b;
    assert s[|a|] == sep;
    var i := IndexOf(s, sep);
    assert s[..i] == a;
    assert s[i + 1..] == b;
  }

  /** Splitting `a + sep + b` splits each side on its own. */
  lemma {:induction false} SplitAppend(a: string, sep: char, b: string)
    ensures Split(a + [sep] + b, sep) == Split(a, sep) + Split(b, sep)
    decreases |a|
  {
    if sep !in a {
      SplitAfterField(a, sep, b);
    } else {
      var j := IndexOf(a, sep);
      var rest := a[j + 1..];
      SplitAtFirst(a, sep, b);
      SplitAppend(rest, sep, b);
      SplitFirst(a, sep);
      ConsAssoc(Split(a + [sep] + b, sep), a[..j], Split(rest + [sep] + b, sep), Split(rest, sep), Split(b, sep));
    }
  }

  /** Splitting at the first separator, as Split's definition does. */
  lemma SplitFirst(a: string, sep: char)
    requires sep in a
    ensures var j := IndexOf(a, sep); Split(a, sep) == [a[..j]] + Split(a[j + 1..], sep)
  {
  }

  /** Regrouping a field put in front of a concatenation. */
  lemma ConsAssoc(x: seq<string>, h: string, y: seq<string>, r: seq<string>, q: seq<string>)
    requires x == [h] + y && y == r + q
    ensures x == [h] + r + q
  {
  }

  /** When `a` holds the separator, `a + sep + b` splits first where `a` does. */
  lemma SplitAtFirst(a: string, sep: char, b: string)
    requires sep in a
    ensures var j := IndexOf(a, sep);
      Split(a + [sep] + b, sep) == [a[..j]] + Split(a[j + 1..] + [sep] + b, sep)
  {
    var j := IndexOf(a, sep);
    var s := a + [sep] + b;
    assert s[..j] == a[..j];
    IndexOfAt(s, sep, j);
    assert s[j + 1..] == a[j + 1..] + [sep] + b;
  }

  /** The first `c` is at `j` when `s[j]` is one and none comes before. */
  lemma IndexOfAt(s: string, c: char, j: nat)
    requires j < |s| && s[j] == c && c !in s[..j]
    ensures IndexOf(s, c) == j
  {
  }

  /** The last field of `a + sep + b` is `b` when `b` has no separator. */
  lemma LastField(a: string, sep: char, b: string)
    requires sep !in b
    ensures var f := Split(a + [sep] + b, sep); f[|f| - 1] == b
  {
    SplitAppend(a, sep, b);
  }

  // ---------------------------------------------------------------------------
  // splitlines()
  // ---------------------------------------------------------------------------

  /** The line boundaries of str.splitlines(); "\r\n" counts as one boundary. */
  predicate IsLineBreak(c: char) {
    c == '\n' || c == '\r' || c == '\U{B}' || c == '\U{C}' || ('\U{1C}' <= c <= '\U{1E}')
    || c == '\U{85}' || c == '\U{2028}' || c == '\U{2029}'
  }

  predicate HasLineBreak(s: string) {
    exists i :: 0 <= i < |s| && IsLineBreak(s[i])
  }

  function FirstLineBreak(s: string): (i: nat)
    requires HasLineBreak(s)
    ensures i < |s| && IsLineBreak(s[i]) && !HasLineBreak(s[..i])
  {
    if IsLineBreak(s[0]) then 0 else
      var j := FirstLineBreak(s[1..]);
      assert s[..j + 1] == [s[0]] + s[1..][..j];
      j + 1
  }

  /** str.splitlines(): the lines between boundaries, with no empty line after
      a final boundary; no line holds a boundary. */
  function SplitLines(s: string): (r: seq<string>)
    ensures forall i :: 0 <= i < |r| ==> !HasLineBreak(r[i])
    decreases |s|
  {
    if s == "" then []
    else if !HasLineBreak(s) then [s]
    else
      var i := FirstLineBreak(s);
      var skip := if s[i] == '\r' && i + 1 < |s| && s[i + 1] == '\n' then 2 else 1;
      [s[..i]] + SplitLines(s[i + skip..])
  }

  /** Text around one boundary other than "\r" splits into the two sides. */
  lemma SplitLinesAt(a: string, c: char, b: string)
    requires !HasLineBreak(a) && IsLineBreak(c) && c != '\r' && b != "" && !HasLineBreak(b)
    ensures SplitLines(a + [c] + b) == [a, b]
  {
    var s := a + [c] + b;
    assert s[|a|] == c;
    var i := FirstLineBreak(s);
    assert i == |a| by {
      assert forall j :: 0 <= j < |a| ==> s[j] == a[j];
    }
    assert s[..i] == a;
    assert s[i + 1..] == b;
  }

  /** The lines that are not blank, in order. */
  function NonBlank(lines: seq<string>): (r: seq<string>)
    ensures |r| <= |lines|
    ensures forall i :: 0 <= i < |r| ==> !IsBlank(r[i])
    ensures forall l :: l in r ==> l in lines
  {
    if lines == [] then []
    else if IsBlank(lines[0]) then NonBlank(lines[1..])
    else [lines[0]] + NonBlank(lines[1..])
  }

  lemma {:induction false} NonBlankAppend(a: seq<string>, b: seq<string>)
    ensures NonBlank(a + b) == NonBlank(a) + NonBlank(b)
  {
    if a != [] {
      assert (a + b)[1..] == a[1..] + b;
      NonBlankAppend(a[1..], b);
    } else {
      assert a + b == b;
    }
  }

  /** Lines that hold no boundary, joined with "\n" and split back with
      splitlines(), give back the same non-blank lines. */
  lemma {:induction false} SplitLinesJoin(lines: seq<string>)
    requires forall i :: 0 <= i < |lines| ==> !HasLineBreak(lines[i])
    ensures NonBlank(SplitLines(Join(lines, "\n"))) == NonBlank(lines)
  {
    if |lines| == 1 {
      if lines[0] == "" {
        assert IsBlank(lines[0]);
      }
    } else if |lines| > 1 {
      var l := lines[0];
      var tail := Join(lines[1..], "\n");
      var s := l + "\n" + tail;
      assert s == Join(lines, "\n");
      assert s[|l|] == '\n';
      assert HasLineBreak(s);
      var i := FirstLineBreak(s);
      assert s[..i] == l;
      assert s[i + 1..] == tail;
      assert SplitLines(s) == [l] + SplitLines(tail);
      SplitLinesJoin(lines[1..]);
      NonBlankAppend([l], SplitLines(tail));
      NonBlankAppend([l], lines[1..]);
      assert lines == [l] + lines[1..];
    }
  }

  // ---------------------------------------------------------------------------
  // Decimal numerals: str(n) and int(s) for non-negative integers
  // ---------------------------------------------------------------------------

  predicate IsDigit(c: char) {
    '0' <= c <= '9'
  }

  predicate AllDigits(s: string) {
    forall i :: 0 <= i < |s| ==> IsDigit(s[i])
  }

  function DigitChar(d: nat): (c: char)
    requires d < 10
    ensures IsDigit(c) && c as int - '0' as int == d
  {
    ('0' as int + d) as char
  }

  /** str(n): at least one digit, and no leading zero unless n is 0. */
  function Decimal(n: nat): (r: string)
    ensures 1 <= |r| && AllDigits(r)
    ensures |r| > 1 ==> r[0] != '0'
  {
    if n < 10 then [DigitChar(n)] else Decimal(n / 10) + [DigitChar(n % 10)]
  }

  /** str(n) for any integer: a minus sign before the digits of a negative one. */
  function IntText(n: int): string {
    if n < 0 then "-" + Decimal(-n) else Decimal(n)
  }

  /** int(s) for a string of decimal digits. */
  function DecimalValue(s: string): nat
    requires AllDigits(s)
  {
    if s == "" then 0 else DecimalValue(s[..|s| - 1]) * 10 + (s[|s| - 1] as int - '0' as int)
  }

  /** int(str(n)) == n. */
  lemma {:induction false} DecimalRoundTrip(n: nat)
    ensures DecimalValue(Decimal(n)) == n
  {
    if n >= 10 {
      var d := Decimal(n);
      assert d[..|d| - 1] == Decimal(n / 10);
      DecimalRoundTrip(n / 10);
    }
  }

  function Zeros(k: nat): (r: string)
    ensures |r| == k && AllDigits(r)
  {
    if k == 0 then "" else "0" + Zeros(k - 1)
  }

  /** Leading zeros do not change the value int() reads. */
  lemma {:induction false} LeadingZeros(k: nat, s: string)
    requires AllDigits(s)
    ensures AllDigits(Zeros(k) + s) && DecimalValue(Zeros(k) + s) == DecimalValue(s)
    decreases |s|
  {
    var z := Zeros(k);
    assert AllDigits(z + s) by {
      forall i | 0 <= i < |z + s| ensures IsDigit((z + s)[i]) {
        if i < |z| { assert (z + s)[i] == z[i]; } else { assert (z + s)[i] == s[i - |z|]; }
      }
    }
    if s == "" {
      assert z + s == z;
      AllZerosValue(k);
    } else {
      assert (z + s)[..|z + s| - 1] == z + s[..|s| - 1];
      LeadingZeros(k, s[..|s| - 1]);
    }
  }

  lemma {:induction false} AllZerosValue(k: nat)
    ensures DecimalValue(Zeros(k)) == 0
  {
    if k > 0 {
      var z := Zeros(k);
      assert z == Zeros(k - 1) + "0" by { ZerosSnoc(k); }
      assert z[..|z| - 1] == Zeros(k - 1);
      AllZerosValue(k - 1);
    }
  }

  lemma {:induction false} ZerosSnoc(k: nat)
    requires k > 0
    ensures Zeros(k) == Zeros(k - 1) + "0"
  {
    if k > 1 { ZerosSnoc(k - 1); }
  }
}
