/** NDJSON framing of VLP messages: to_ndjson writes one JSON rendering per
    line, from_ndjson splits the text into lines, skips blank ones and parses
    the rest. The JSON codec itself is a parameter: `dumps` stands for
    json.dumps(m, ensure_ascii=False) and `loads` for json.loads, which
    returns a value or raises. */
module Ndjson {
  import opened Text
  import opened Values

  /** The renderings of the messages, one per message, in order. */
  function Encoded<T>(messages: seq<T>, dumps: T -> string): (r: seq<string>)
    ensures |r| == |messages|
    ensures forall i :: 0 <= i < |r| ==> r[i] == dumps(messages[i])
  {
    seq(|messages|, i requires 0 <= i < |messages| => dumps(messages[i]))
  }

  /** to_ndjson: the renderings joined with "\n" (no newline after the last).
      No messages give the empty text; otherwise, when no rendering holds a
      "\n", splitting the text on "\n" gives back the renderings. */
  function ToNdjson<T>(messages: seq<T>, dumps: T -> string): (text: string)
    ensures messages == [] ==> text == ""
    ensures messages != [] && (forall i :: 0 <= i < |messages| ==> '\n' !in dumps(messages[i])) ==>
      Split(text, '\n') == Encoded(messages, dumps)
  {
    var lines := Encoded(messages, dumps);
    assert messages != [] && (forall i :: 0 <= i < |messages| ==> '\n' !in dumps(messages[i])) ==>
      Split(Join(lines, "\n"), '\n') == lines
    by {
      if messages != [] && (forall i :: 0 <= i < |messages| ==> '\n' !in dumps(messages[i])) {
        SplitJoin(lines, '\n');
      }
    }
    Join(lines, "\n")
  }

  /** `text or ""`: a missing text reads as the empty one. */
  function OrEmpty(text: Option<string>): string {
    if text.Some? then text.value else ""
  }

  /** The lines from_ndjson parses, as written: the lines of splitlines()
      that are not blank. */
  function FramedLines(text: string): seq<string> {
    NonBlank(SplitLines(text))
  }

  /** json.loads over the lines, in order; the first line that fails to parse
      decides the exception. */
  function DecodeAll<T>(lines: seq<string>, loads: string -> Result<T>): (r: Result<seq<T>>)
    ensures r.Ok? ==> |r.value| == |lines|
    ensures r.Ok? <==> forall i :: 0 <= i < |lines| ==> loads(lines[i]).Ok?
    ensures r.Ok? ==> forall i :: 0 <= i < |lines| ==> r.value[i] == loads(lines[i]).value
    ensures r.Raise? ==> r.error == loads(lines[FirstFailure(lines, loads)]).error
  {
    if lines == [] then Ok([])
    else
      var init := DecodeAll(lines[..|lines| - 1], loads);
      if init.Raise? then
        assert loads(lines[..|lines| - 1][FirstFailure(lines[..|lines| - 1], loads)]).Raise?;
        init
      else
        var last := loads(lines[|lines| - 1]);
        if last.Raise? then Raise(last.error) else Ok(init.value + [last.value])
  }

  /** The position of the first line that does not parse. */
  function FirstFailure<T>(lines: seq<string>, loads: string -> Result<T>): (i: nat)
    requires exists j :: 0 <= j < |lines| && loads(lines[j]).Raise?
    ensures i < |lines| && loads(lines[i]).Raise?
    ensures forall j :: 0 <= j < i ==> loads(lines[j]).Ok?
  {
    if loads(lines[0]).Raise? then 0
    else
      assert exists j :: 0 <= j < |lines[1..]| && loads(lines[1..][j]).Raise? by {
        var j :| 0 <= j < |lines| && loads(lines[j]).Raise?;
        assert lines[1..][j - 1] == lines[j];
      }
      1 + FirstFailure(lines[1..], loads)
  }

  /** DecodeAll over one more line. */
  lemma DecodeAllSnoc<T>(lines: seq<string>, line: string, loads: string -> Result<T>)
    ensures DecodeAll(lines + [line], loads) ==
      match DecodeAll(lines, loads)
      case Raise(e) => Raise(e)
      case Ok(vs) => if loads(line).Raise? then Raise(loads(line).error) else Ok(vs + [loads(line).value])
  {
    assert (lines + [line])[..|lines|] == lines;
  }

  /** What from_ndjson returns for `text`, as written. */
  function Parsed<T>(text: Option<string>, loads: string -> Result<T>): Result<seq<T>> {
    DecodeAll(FramedLines(OrEmpty(text)), loads)
  }

  /** from_ndjson: one pass over the lines of splitlines(), skipping blank
      lines and appending what json.loads gives for the others; an exception
      from json.loads propagates. */
  method FromNdjson<T>(text: Option<string>, loads: string -> Result<T>) returns (r: Result<seq<T>>)
    ensures r == Parsed(text, loads)
  {
    var lines := SplitLines(OrEmpty(text));
    var out: seq<T> := [];
    var i := 0;
    while i < |lines|
      invariant 0 <= i <= |lines|
      invariant DecodeAll(NonBlank(lines[..i]), loads) == Ok(out)
    {
      var line := lines[i];
      assert lines[..i + 1] == lines[..i] + [line];
      NonBlankAppend(lines[..i], [line]);
      if IsBlank(line) {
        assert NonBlank([line]) == [];
        assert NonBlank(lines[..i] + [line]) == NonBlank(lines[..i]);
      } else {
        assert NonBlank([line]) == [line];
        DecodeAllSnoc(NonBlank(lines[..i]), line, loads);
        var v := loads(line);
        if v.Raise? {
          assert lines == lines[..i + 1] + lines[i + 1..];
          NonBlankAppend(lines[..i + 1], lines[i + 1..]);
          DecodeAllPrefixFails(NonBlank(lines[..i + 1]), NonBlank(lines[i + 1..]), loads);
          return Raise(v.error);
        }
        out := out + [v.value];
      }
      i := i + 1;
    }
    assert lines[..|lines|] == lines;
    return Ok(out);
  }

  /** A failure in a prefix is the failure of the whole. */
  lemma {:induction false} DecodeAllPrefixFails<T>(a: seq<string>, b: seq<string>, loads: string -> Result<T>)
    requires DecodeAll(a, loads).Raise?
    ensures DecodeAll(a + b, loads) == DecodeAll(a, loads)
    decreases |b|
  {
    if b != [] {
      var init := b[..|b| - 1];
      assert a + b == (a + init) + [b[|b| - 1]];
      DecodeAllPrefixFails(a, init, loads);
      DecodeAllSnoc(a + init, b[|b| - 1], loads);
    } else {
      assert a + b == a;
    }
  }

  /** Non-blank lines pass the blank-line filter unchanged. */
  lemma {:induction false} NonBlankKeeps(lines: seq<string>)
    requires forall i :: 0 <= i < |lines| ==> !IsBlank(lines[i])
    ensures NonBlank(lines) == lines
  {
    if lines != [] {
      NonBlankKeeps(lines[1..]);
    }
  }

  /** A whitespace-only line among the lines of the text is skipped: the
      parsed lines are those of the other lines. */
  lemma BlankLineSkipped(before: seq<string>, line: string, after: seq<string>)
    requires IsBlank(line)
    ensures NonBlank(before + [line] + after) == NonBlank(before + after)
  {
    NonBlankAppend(before + [line], after);
    NonBlankAppend(before, [line]);
    NonBlankAppend(before, after);
    assert NonBlank([line]) == [] + NonBlank([]);
  }

  /** Framing, as written, gives back lines that hold no splitlines()
      boundary and are not blank. */
  lemma FramingRoundTrip(lines: seq<string>)
    requires forall i :: 0 <= i < |lines| ==> !HasLineBreak(lines[i]) && !IsBlank(lines[i])
    ensures FramedLines(Join(lines, "\n")) == lines
  {
    SplitLinesJoin(lines);
    NonBlankKeeps(lines);
  }

  /** Rendering one more message appends its rendering. */
  lemma EncodedSnoc<T>(messages: seq<T>, m: T, dumps: T -> string)
    ensures Encoded(messages + [m], dumps) == Encoded(messages, dumps) + [dumps(m)]
  {
    var a := Encoded(messages + [m], dumps);
    var b := Encoded(messages, dumps) + [dumps(m)];
    assert |a| == |b|;
    forall i | 0 <= i < |a|
      ensures a[i] == b[i]
    {
      if i < |messages| {
        assert (messages + [m])[i] == messages[i];
      }
    }
  }

  /** Decoding the renderings gives back the messages when loads inverts dumps. */
  lemma {:induction false} DecodeEncoded<T>(messages: seq<T>, dumps: T -> string, loads: string -> Result<T>)
    requires forall i :: 0 <= i < |messages| ==> loads(dumps(messages[i])) == Ok(messages[i])
    ensures DecodeAll(Encoded(messages, dumps), loads) == Ok(messages)
  {
    if messages != [] {
      var init := messages[..|messages| - 1];
      var last := messages[|messages| - 1];
      DecodeEncoded(init, dumps, loads);
      EncodedSnoc(init, last, dumps);
      assert messages == init + [last];
      DecodeAllSnoc(Encoded(init, dumps), dumps(last), loads);
    }
  }

  /** from_ndjson undoes to_ndjson, as written, when loads inverts dumps and
      no rendering is blank or holds a splitlines() boundary. */
  lemma NdjsonRoundTrip<T>(messages: seq<T>, dumps: T -> string, loads: string -> Result<T>)
    requires forall i :: 0 <= i < |messages| ==> loads(dumps(messages[i])) == Ok(messages[i])
    requires forall i :: 0 <= i < |messages| ==>
      !HasLineBreak(dumps(messages[i])) && !IsBlank(dumps(messages[i]))
    ensures Parsed(Some(ToNdjson(messages, dumps)), loads) == Ok(messages)
  {
    FramingRoundTrip(Encoded(messages, dumps));
    DecodeEncoded(messages, dumps, loads);
  }

  // ---------------------------------------------------------------------------
  // Raw line separators
  // ---------------------------------------------------------------------------

  /** The characters json.dumps(ensure_ascii=False) writes as they are although
      splitlines() breaks lines at them: it escapes only control characters
      below U+0020, so U+0085, U+2028 and U+2029 pass through. */
  predicate RawSeparator(c: char) {
    c == '\U{85}' || c == '\U{2028}' || c == '\U{2029}'
  }

  /** As written, a rendering that holds a raw separator is never read back
      as the line it was: every framed line is free of boundaries. */
  lemma RawSeparatorBreaksFraming(line: string, i: nat)
    requires i < |line| && RawSeparator(line[i])
    ensures line !in FramedLines(line)
  {
    assert IsLineBreak(line[i]);
  }

  /** A message whose content is one U+2028: its one-line rendering
      {"c": "<U+2028>"} comes back as two fragments, neither of them JSON. */
  lemma LineSeparatorExample()
    ensures FramedLines("{\"c\": \"" + "\U{2028}" + "\"}") == ["{\"c\": \"", "\"}"]
  {
    var a, b := "{\"c\": \"", "\"}";
    assert !HasLineBreak(a) by {
      forall i | 0 <= i < |a| ensures !IsLineBreak(a[i]) { }
    }
    assert !HasLineBreak(b) by {
      forall i | 0 <= i < |b| ensures !IsLineBreak(b[i]) { }
    }
    assert "\U{2028}" == ['\U{2028}'];
    SplitLinesAt(a, '\U{2028}', b);
    assert !IsBlank(a) by { assert !IsSpace(a[0]); }
    assert !IsBlank(b) by { assert !IsSpace(b[0]); }
    assert NonBlank([a, b]) == [a] + NonBlank([b]);
    assert NonBlank([b]) == [b] + NonBlank([]);
  }

  // ---------------------------------------------------------------------------
  // Corrected framing
  // ---------------------------------------------------------------------------

  /** The framing to_ndjson's output calls for: split on "\n" only, the one
      separator to_ndjson writes, and skip blank lines. */
  function FramedLinesFixed(text: string): seq<string> {
    NonBlank(Split(text, '\n'))
  }

  /** from_ndjson with the corrected framing. */
  function ParsedFixed<T>(text: Option<string>, loads: string -> Result<T>): Result<seq<T>> {
    DecodeAll(FramedLinesFixed(OrEmpty(text)), loads)
  }

  /** The corrected framing gives back every non-blank line without "\n",
      whatever other separators it holds. */
  lemma FramingFixedRoundTrip(lines: seq<string>)
    requires forall i :: 0 <= i < |lines| ==> '\n' !in lines[i] && !IsBlank(lines[i])
    ensures FramedLinesFixed(Join(lines, "\n")) == lines
  {
    NonBlankKeeps(lines);
    if lines == [] {
      assert NonBlank([""]) == [] by { assert IsBlank(""); }
    } else {
      SplitJoin(lines, '\n');
    }
  }

  /** With the corrected framing, from_ndjson undoes to_ndjson whenever loads
      inverts dumps and no rendering is blank or holds a raw "\n" — which
      json.dumps never writes. */
  lemma NdjsonFixedRoundTrip<T>(messages: seq<T>, dumps: T -> string, loads: string -> Result<T>)
    requires forall i :: 0 <= i < |messages| ==> loads(dumps(messages[i])) == Ok(messages[i])
    requires forall i :: 0 <= i < |messages| ==>
      '\n' !in dumps(messages[i]) && !IsBlank(dumps(messages[i]))
    ensures ParsedFixed(Some(ToNdjson(messages, dumps)), loads) == Ok(messages)
  {
    FramingFixedRoundTrip(Encoded(messages, dumps));
    DecodeEncoded(messages, dumps, loads);
  }

  /** The corrected framing reads the example line back whole. */
  lemma LineSeparatorFixedExample()
    ensures FramedLinesFixed("{\"c\": \"\U{2028}\"}") == ["{\"c\": \"\U{2028}\"}"]
  {
    var s := "{\"c\": \"\U{2028}\"}";
    assert '\n' !in s by {
      assert forall j :: 0 <= j < |s| ==> s[j] != '\n';
    }
    assert !IsBlank(s) by { assert !IsSpace(s[0]); }
  }
}
