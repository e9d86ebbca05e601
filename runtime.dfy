/** The VLP 1.1 message runtime (python/src/vlp/runtime.py): message
    identifiers, the two-phase validator (an external JSON-Schema step, then
    the "Truth Serum" rules), and the message constructor with its keyword
    normalisation and its safety escalation for unearned high confidence. */
module Runtime {
  import opened Text
  import opened Values

  /** A message is a dict from field names to values. */
  type Message = map<string, Value>

  /** The structural JSON-Schema check, supplied from outside: None when the
      value conforms, otherwise the text of the validator's error. */
  type SchemaCheck = Value -> Option<string>

  /** validate_vlp's (ok, error) pair. */
  datatype Verdict = Valid | Invalid(reason: string)

  const Protocol: string := "VLP/1.1"

  // ---------------------------------------------------------------------------
  // Identifiers
  // ---------------------------------------------------------------------------

  predicate IsHexDigit(c: char) {
    '0' <= c <= '9' || 'a' <= c <= 'f'
  }

  /** uuid.uuid4().hex: 32 lower-case hexadecimal digits. */
  predicate IsUuidHex(h: string) {
    |h| == 32 && forall i :: 0 <= i < |h| ==> IsHexDigit(h[i])
  }

  /** The hex form of a fresh uuid, which the model takes as a parameter. */
  type UuidHex = h: string | IsUuidHex(h) witness "0123456789abcdef0123456789abcdef"

  /** new_id(prefix): the prefix, then the first 8 hex digits of a fresh uuid. */
  function NewId(prefix: string, uuidHex: UuidHex): (id: string)
    ensures |id| == |prefix| + 8 && id[..|prefix|] == prefix
    ensures forall i :: |prefix| <= i < |id| ==> IsHexDigit(id[i])
  {
    prefix + uuidHex[..8]
  }

  /** _as_list(v): None becomes [], a list is returned as it is, and any
      other value becomes a one-element list. */
  function AsList(v: Value): (r: seq<Value>)
    ensures v.List? ==> List(r) == v
    ensures v.Null? ==> r == []
    ensures !v.List? && !v.Null? ==> r == [v]
  {
    match v
    case Null => []
    case List(items) => items
    case _ => [v]
  }

  // ---------------------------------------------------------------------------
  // The semantic ("Truth Serum") rules
  // ---------------------------------------------------------------------------

  /** The type text `t = str(msg.get("type") or "").strip()` as the kind rules
      compare it. A value that is not a string never renders as one of the
      kind names the rules look for, so it reads as "". */
  function TypeText(msg: Message): string {
    var v := GetOr(msg, "type", Null);
    if v.Str? then Strip(v.s) else ""
  }

  /** `t != t.lower()` for that text: for a string, its stripped text is not
      its own lower-case form; for any other truthy value, its str() spells a
      capital (None, True, False, or a capital inside a list or dict). */
  predicate TypeNotLower(msg: Message) {
    var v := GetOr(msg, "type", Null);
    if v.Str? then Strip(v.s) != Lower(Strip(v.s)) else Truthy(v) && RendersUpper(v)
  }

  /** float(msg["confidence"]) when the field is present and not None and
      the conversion succeeds. */
  function Confidence(msg: Message): Option<real> {
    var conf := GetOr(msg, "confidence", Null);
    if conf.Null? || Float(conf).Raise? then None else Some(Float(conf).value)
  }

  function RefersTo(msg: Message): Value {
    GetOr(msg, "refers_to", Null)
  }

  /** The provenance the rules see: the field when it is a list, else []. */
  function ProvenanceList(msg: Message): seq<Value> {
    var p := GetOr(msg, "provenance", List([]));
    if p.List? then p.items else []
  }

  /** Whether `str(safety.get("level") or "safe") == "review"`, where a
      missing or non-dict safety reads as {"level": "safe"}. Only the string
      "review" renders as "review". */
  predicate LevelIsReview(msg: Message) {
    var safety := GetOr(msg, "safety", Null);
    safety.Dict? && GetOr(safety.entries, "level", Null) == Str("review")
  }

  /** Evidence needs a truthy refers_to and a non-empty provenance list;
      responses and corrections need a truthy refers_to. */
  predicate ReferenceRulesHold(msg: Message) {
    && (TypeText(msg) == "evidence" ==> Truthy(RefersTo(msg)) && ProvenanceList(msg) != [])
    && (TypeText(msg) == "response" || TypeText(msg) == "correction" ==> Truthy(RefersTo(msg)))
  }

  /** Confidence of 0.9 or more must be earned by provenance or be flagged
      for review. */
  predicate EarnedConfidence(msg: Message) {
    Confidence(msg).Some? ==>
      Confidence(msg).value < 0.9 || ProvenanceList(msg) != [] || LevelIsReview(msg)
  }

  /** All the rules together, independently of the order they are checked in. */
  predicate RulesHold(msg: Message) {
    && !TypeNotLower(msg)
    && Confidence(msg).Some?
    && ReferenceRulesHold(msg)
    && EarnedConfidence(msg)
  }

  /** _semantic_validate: the rules in a fixed order, reporting only the first
      that fails. The message passes exactly when every rule holds. */
  function SemanticValidate(msg: Message): (r: Verdict)
    ensures r.Valid? <==> RulesHold(msg)
  {
    var conf := GetOr(msg, "confidence", Null);
    if TypeNotLower(msg) then Invalid("type must be lowercase")
    else if conf.Null? then Invalid("confidence is required")
    else if Float(conf).Raise? then Invalid("confidence must be a number")
    else
      var t := TypeText(msg);
      var prov := ProvenanceList(msg);
      if t == "evidence" && !Truthy(RefersTo(msg)) then
        Invalid("evidence messages must include refers_to")
      else if t == "evidence" && prov == [] then
        Invalid("evidence messages must include non-empty provenance")
      else if (t == "response" || t == "correction") && !Truthy(RefersTo(msg)) then
        Invalid(t + " messages must include refers_to")
      else if Float(conf).value >= 0.9 && prov == [] && !LevelIsReview(msg) then
        Invalid("confidence >= 0.9 requires provenance or safety.level=review")
      else
        Valid
  }

  /** Rule order, first rule: a type that is not lower-case is reported
      whatever else is wrong with the message. */
  lemma TypeReportedFirst(msg: Message)
    requires TypeNotLower(msg)
    ensures SemanticValidate(msg) == Invalid("type must be lowercase")
  {
  }

  /** Second rule: a missing or None confidence is reported next, before any
      kind rule. */
  lemma ConfidenceRequired(msg: Message)
    requires !TypeNotLower(msg) && GetOr(msg, "confidence", Null) == Null
    ensures SemanticValidate(msg) == Invalid("confidence is required")
  {
  }

  /** Third rule: a confidence float() rejects is reported next. */
  lemma ConfidenceNotNumber(msg: Message)
    requires !TypeNotLower(msg) && GetOr(msg, "confidence", Null) != Null
    requires Float(GetOr(msg, "confidence", Null)).Raise?
    ensures SemanticValidate(msg) == Invalid("confidence must be a number")
  {
  }

  /** Fourth rule: evidence with a truthy refers_to but no provenance list is
      reported for provenance, whatever its confidence and safety. */
  lemma EvidenceProvenanceRequired(msg: Message)
    requires !TypeNotLower(msg) && Confidence(msg).Some?
    requires TypeText(msg) == "evidence" && Truthy(RefersTo(msg)) && ProvenanceList(msg) == []
    ensures SemanticValidate(msg) == Invalid("evidence messages must include non-empty provenance")
  {
  }

  /** Fifth rule: a response or correction without a truthy refers_to is
      reported, naming its kind, whatever its confidence and safety. */
  lemma ReplyReferenceRequired(msg: Message)
    requires !TypeNotLower(msg) && Confidence(msg).Some?
    requires (TypeText(msg) == "response" || TypeText(msg) == "correction") && !Truthy(RefersTo(msg))
    ensures SemanticValidate(msg) == Invalid(TypeText(msg) + " messages must include refers_to")
  {
  }

  /** Rule order: an evidence message lacking both refers_to and provenance
      is reported for refers_to only. */
  lemma EvidenceReportsRefersToFirst(msg: Message)
    requires !TypeNotLower(msg) && Confidence(msg).Some?
    requires TypeText(msg) == "evidence" && !Truthy(RefersTo(msg)) && ProvenanceList(msg) == []
    ensures SemanticValidate(msg) == Invalid("evidence messages must include refers_to")
  {
  }

  /** A falsy refers_to (None, "", []) counts as missing for every kind that
      needs one, and the error names the kind. */
  lemma FalsyRefersToRejected(msg: Message)
    requires !TypeNotLower(msg) && Confidence(msg).Some?
    requires TypeText(msg) in {"evidence", "response", "correction"}
    requires RefersTo(msg) == Null || RefersTo(msg) == Str("") || RefersTo(msg) == List([])
    ensures SemanticValidate(msg).Invalid?
    ensures TypeText(msg) == "evidence" ==>
      SemanticValidate(msg).reason == "evidence messages must include refers_to"
    ensures TypeText(msg) != "evidence" ==>
      SemanticValidate(msg).reason == TypeText(msg) + " messages must include refers_to"
  {
  }

  /** Evidence with a truthy refers_to and a non-empty provenance list passes:
      its provenance also earns any confidence. */
  lemma EvidenceWithReferenceAndProvenance(msg: Message)
    requires !TypeNotLower(msg) && Confidence(msg).Some?
    requires TypeText(msg) == "evidence" && Truthy(RefersTo(msg)) && ProvenanceList(msg) != []
    ensures SemanticValidate(msg) == Valid
  {
  }

  /** High confidence without provenance fails unless the level is exactly
      "review"; "block" fails too, and a missing or non-dict safety or an
      empty level reads as "safe". */
  lemma UnearnedConfidenceRejected(msg: Message)
    requires !TypeNotLower(msg) && Confidence(msg).Some? && ReferenceRulesHold(msg)
    requires Confidence(msg).value >= 0.9 && ProvenanceList(msg) == []
    ensures SemanticValidate(msg).Valid? <==> LevelIsReview(msg)
    ensures SemanticValidate(msg).Invalid? ==>
      SemanticValidate(msg).reason == "confidence >= 0.9 requires provenance or safety.level=review"
  {
  }

  lemma SafetyReadAsSafe(msg: Message)
    requires var s := GetOr(msg, "safety", Null);
      !s.Dict? || !Truthy(GetOr(s.entries, "level", Null)) || GetOr(s.entries, "level", Null) == Str("block")
    ensures !LevelIsReview(msg)
  {
  }

  /** validate_vlp: the schema step first, its error reported as it is; then
      the semantic rules. */
  function ValidateVlp(schema: SchemaCheck, msg: Message): (r: Verdict)
    ensures r.Valid? <==> schema(Dict(msg)).None? && RulesHold(msg)
    ensures schema(Dict(msg)).Some? ==> r == Invalid(schema(Dict(msg)).value)
  {
    match schema(Dict(msg))
    case Some(err) => Invalid(err)
    case None => SemanticValidate(msg)
  }

  // ---------------------------------------------------------------------------
  // Safety: defaults and escalation
  // ---------------------------------------------------------------------------

  function DefaultSafety(): map<string, Value> {
    map["level" := Str("safe"), "issues" := List([])]
  }

  /** The safety dict make_message works on: the given dict (a non-dict is
      replaced by the default), with "issues" reset to [] when it is missing
      or not a list, and "level" set to "safe" when missing. Every other key
      and a present level are kept. */
  function NormalizeSafety(given: Value): (s: map<string, Value>)
    ensures "level" in s && "issues" in s && s["issues"].List?
    ensures !given.Dict? ==> s == DefaultSafety()
    ensures given.Dict? ==> s.Keys == given.entries.Keys + {"level", "issues"}
    ensures given.Dict? ==> forall k :: k in given.entries && k != "issues" ==> s[k] == given.entries[k]
    ensures given.Dict? && "issues" in given.entries && given.entries["issues"].List? ==>
      s["issues"] == given.entries["issues"]
    ensures given.Dict? && ("issues" !in given.entries || !given.entries["issues"].List?) ==>
      s["issues"] == List([])
    ensures given.Dict? && "level" !in given.entries ==> s["level"] == Str("safe")
  {
    var d := if given.Dict? then given.entries else DefaultSafety();
    var d := if "issues" !in d || !d["issues"].List? then d["issues" := List([])] else d;
    if "level" !in d then d["level" := Str("safe")] else d
  }

  const MissingProvenanceIssue: Value :=
    Dict(map["code" := Str("missing_provenance_high_confidence"),
             "detail" := Str("confidence >= 0.9 without provenance")])

  /** The escalation condition: high confidence, no provenance, and a level
      whose str() is not "review". */
  predicate NeedsEscalation(confidence: real, provenance: seq<Value>, safety: map<string, Value>)
    requires "level" in safety
  {
    confidence >= 0.9 && provenance == [] && safety["level"] != Str("review")
  }

  /** The auto-escalation of make_message: when needed, the level becomes
      "review" and exactly one missing-provenance issue is appended, nothing
      else changing; otherwise safety is left as it is. Either way the
      result earns its confidence. */
  function Escalate(confidence: real, provenance: seq<Value>, safety: map<string, Value>): (r: map<string, Value>)
    requires "level" in safety && "issues" in safety && safety["issues"].List?
    ensures r.Keys == safety.Keys && r["issues"].List?
    ensures !NeedsEscalation(confidence, provenance, safety) ==> r == safety
    ensures NeedsEscalation(confidence, provenance, safety) ==>
      && r["level"] == Str("review")
      && r["issues"].items == safety["issues"].items + [MissingProvenanceIssue]
      && forall k :: k in safety && k != "level" && k != "issues" ==> r[k] == safety[k]
    ensures confidence < 0.9 || provenance != [] || r["level"] == Str("review")
  {
    if NeedsEscalation(confidence, provenance, safety) then
      safety["level" := Str("review")]["issues" := List(safety["issues"].items + [MissingProvenanceIssue])]
    else
      safety
  }

  // ---------------------------------------------------------------------------
  // Keywords
  // ---------------------------------------------------------------------------

  /** What the comprehension yields for one keyword: nothing, or its
      lower-cased and stripped text. */
  function Kept(k: Value): (r: seq<string>)
    ensures |r| <= 1
  {
    if k.Str? && Strip(k.s) != "" then [Strip(Lower(k.s))] else []
  }

  /** A kept keyword is non-empty, lower-case and stripped. */
  lemma KeptClean(k: Value)
    ensures Kept(k) == [] || (Kept(k)[0] != "" && !HasUpper(Kept(k)[0]) && Strip(Kept(k)[0]) == Kept(k)[0])
  {
    if k.Str? && Strip(k.s) != "" {
      BlankLower(k.s);
      NoUpperInStrip(Lower(k.s));
      StripIdempotent(Lower(k.s));
    }
  }

  /** What a comprehension yields: the outputs of `f`, keyword by keyword,
      in order. */
  function FlatMap(ks: seq<Value>, f: Value -> seq<string>): seq<string> {
    if ks == [] then [] else FlatMap(ks[..|ks| - 1], f) + f(ks[|ks| - 1])
  }

  /** A text is yielded exactly when some keyword yields it. */
  lemma {:induction false} FlatMapMembers(ks: seq<Value>, f: Value -> seq<string>, x: string)
    ensures x in FlatMap(ks, f) <==> exists i :: 0 <= i < |ks| && x in f(ks[i])
  {
    if ks != [] {
      var init := ks[..|ks| - 1];
      FlatMapMembers(init, f, x);
      if x in FlatMap(init, f) {
        var i :| 0 <= i < |init| && x in f(init[i]);
        assert ks[i] == init[i];
      }
      forall i | 0 <= i < |init| && x in f(ks[i])
        ensures x in FlatMap(init, f)
      {
        assert init[i] == ks[i];
      }
    }
  }

  /** The keywords the comprehension yields, in order. */
  function CleanKeywords(ks: seq<Value>): seq<string> {
    FlatMap(ks, Kept)
  }

  /** Every yielded keyword is non-empty, lower-case and stripped. */
  lemma {:induction false} CleanKeywordsClean(ks: seq<Value>)
    ensures forall i :: 0 <= i < |CleanKeywords(ks)| ==>
      CleanKeywords(ks)[i] != "" && !HasUpper(CleanKeywords(ks)[i]) && Strip(CleanKeywords(ks)[i]) == CleanKeywords(ks)[i]
  {
    if ks != [] {
      CleanKeywordsClean(ks[..|ks| - 1]);
      KeptClean(ks[|ks| - 1]);
      assert CleanKeywords(ks) == CleanKeywords(ks[..|ks| - 1]) + Kept(ks[|ks| - 1]);
    }
  }

  /** A text is yielded exactly when some keyword is turned into it. */
  lemma CleanKeywordsMembers(ks: seq<Value>, x: string)
    ensures x in CleanKeywords(ks) <==> exists i :: 0 <= i < |ks| && x in Kept(ks[i])
  {
    FlatMapMembers(ks, Kept, x);
  }

  /** The position of the first occurrence of `x` in `s`. */
  function FirstIndex(s: seq<string>, x: string): (i: nat)
    requires x in s
    ensures i < |s| && s[i] == x && x !in s[..i]
  {
    if s[0] == x then 0 else
      var j := FirstIndex(s[1..], x);
      assert s[..j + 1] == [s[0]] + s[1..][..j];
      j + 1
  }

  /** An occurrence before the last element is found before it. */
  lemma FirstIndexInPrefix(s: seq<string>, x: string)
    requires s != [] && x in s[..|s| - 1]
    ensures FirstIndex(s, x) == FirstIndex(s[..|s| - 1], x)
  {
    var i := FirstIndex(s[..|s| - 1], x);
    assert s[i] == x;
    assert s[..i] == s[..|s| - 1][..i];
  }

  /** list(dict.fromkeys(s)): the distinct texts of `s`, each once, in the
      order of their first occurrence. */
  function Dedupe(s: seq<string>): seq<string> {
    if s == [] then []
    else
      var d := Dedupe(s[..|s| - 1]);
      if s[|s| - 1] in d then d else d + [s[|s| - 1]]
  }

  /** Dedupe keeps exactly the texts of `s`, and each of them once. */
  lemma {:induction false} DedupeMembers(s: seq<string>)
    ensures forall x :: x in Dedupe(s) <==> x in s
    ensures forall i, j :: 0 <= i < j < |Dedupe(s)| ==> Dedupe(s)[i] != Dedupe(s)[j]
  {
    if s != [] {
      var init := s[..|s| - 1];
      DedupeMembers(init);
      assert s == init + [s[|s| - 1]];
    }
  }

  /** Dedupe keeps the order of first occurrences. */
  lemma {:induction false} DedupeOrder(s: seq<string>)
    ensures forall i, j :: 0 <= i < j < |Dedupe(s)| ==>
      Dedupe(s)[i] in s && Dedupe(s)[j] in s &&
      FirstIndex(s, Dedupe(s)[i]) < FirstIndex(s, Dedupe(s)[j])
  {
    DedupeMembers(s);
    if s != [] {
      var init := s[..|s| - 1];
      var e := s[|s| - 1];
      DedupeOrder(init);
      DedupeMembers(init);
      var d := Dedupe(init);
      var r := Dedupe(s);
      assert r == if e in d then d else d + [e];
      forall i, j | 0 <= i < j < |r| ensures FirstIndex(s, r[i]) < FirstIndex(s, r[j]) {
        assert r[i] == d[i] && d[i] in init;
        FirstIndexInPrefix(s, d[i]);
        if j < |d| {
          assert r[j] == d[j] && d[j] in init;
          FirstIndexInPrefix(s, d[j]);
          assert FirstIndex(init, d[i]) < FirstIndex(init, d[j]);
        } else {
          assert r[j] == e && e !in init;
          assert s[..|init|] == init;
          assert FirstIndex(s, e) == |init|;
        }
      }
    }
  }

  /** Dedupe over one more text: appended when new, skipped when seen. */
  lemma DedupeSnoc(s: seq<string>, e: string)
    ensures Dedupe(s + [e]) == if e in Dedupe(s) then Dedupe(s) else Dedupe(s) + [e]
  {
    assert (s + [e])[..|s|] == s;
  }

  /** The normalised keywords of make_message: non-strings and blank strings
      dropped, the rest lower-cased and stripped, duplicates removed keeping
      the first occurrence. */
  function NormalizedKeywords(ks: seq<Value>): seq<string> {
    Dedupe(CleanKeywords(ks))
  }

  /** The keyword list of make_message, built as dict.fromkeys builds it: one
      pass, each new text appended, a text already present skipped. */
  method NormalizeKeywords(ks: seq<Value>) returns (r: seq<string>)
    ensures r == NormalizedKeywords(ks)
  {
    r := [];
    var i := 0;
    while i < |ks|
      invariant 0 <= i <= |ks|
      invariant r == Dedupe(CleanKeywords(ks[..i]))
    {
      var k := ks[i];
      assert ks[..i + 1][..i] == ks[..i];
      assert CleanKeywords(ks[..i + 1]) == CleanKeywords(ks[..i]) + Kept(k);
      if k.Str? && Strip(k.s) != "" {
        var key := Strip(Lower(k.s));
        DedupeSnoc(CleanKeywords(ks[..i]), key);
        if key !in r {
          r := r + [key];
        }
      } else {
        assert CleanKeywords(ks[..i + 1]) == CleanKeywords(ks[..i]);
      }
      i := i + 1;
    }
    assert ks[..|ks|] == ks;
  }

  /** The keywords of the keyword test, one at a time. */
  lemma KeptResearch()
    ensures Kept(Str("Research")) == ["research"]
  {
    var l := Lower("Research");
    assert l[0] == 'r';
    assert l == "research";
    StripStripped("Research");
    StripStripped(l);
  }

  lemma KeptTest()
    ensures Kept(Str("test")) == ["test"]
  {
    StripStripped("test");
  }

  /** The literal is a parameter fixed by `requires` so that the proof
      about it stays one small step (Kept and Lower are not unfolded on a
      literal argument). */
  lemma KeptOklahoma(w: string)
    requires w == "OKLAHOMA"
    ensures Kept(Str("  " + w + "  ")) == ["oklahoma"]
  {
    KeptPadded(w);
    LowerOklahoma(w);
  }

  lemma LowerOklahoma(w: string)
    requires w == "OKLAHOMA"
    ensures Lower(w) == "oklahoma"
  {
    var l := Lower(w);
    forall i | 0 <= i < |w| ensures l[i] == "oklahoma"[i] {
      assert l[i] == LowerChar(w[i]);
    }
  }

  /** A word padded with two spaces on either side is kept lower-cased. */
  lemma KeptPadded(w: string)
    requires w != "" && !IsSpace(w[0]) && !IsSpace(w[|w| - 1])
    ensures Kept(Str("  " + w + "  ")) == [Lower(w)]
  {
    var k := "  " + w + "  ";
    var l := Lower(w);
    assert Lower(k) == "  " + l + "  " by {
      forall i | 0 <= i < |k| ensures Lower(k)[i] == ("  " + l + "  ")[i] {
        if 2 <= i < |k| - 2 { assert k[i] == w[i - 2]; }
      }
    }
    assert !IsSpace(l[0]) && !IsSpace(l[|l| - 1]) by {
      assert l[0] == LowerChar(w[0]) && l[|l| - 1] == LowerChar(w[|w| - 1]);
    }
    PaddedStrip(w);
    PaddedStrip(l);
  }

  /** Two spaces on either side of a stripped word are removed. */
  lemma PaddedStrip(w: string)
    requires w != "" && !IsSpace(w[0]) && !IsSpace(w[|w| - 1])
    ensures Strip("  " + w + "  ") == w
  {
    var a := w + [' '];
    var b := a + [' '];
    var c := [' '] + b;
    var d := [' '] + c;
    assert a[0] == w[0];
    StripStripped(w);
    StripTrailingSpace(w, ' ');
    StripTrailingSpace(a, ' ');
    StripLeadingSpace(' ', b);
    StripLeadingSpace(' ', c);
    PadShape(w, ' ');
  }

  lemma PadShape(w: string, c: char)
    ensures [c, c] + w + [c, c] == [c] + ([c] + ((w + [c]) + [c]))
  {
  }

  /** CleanKeywords over one more keyword. */
  lemma CleanKeywordsSnoc(ks: seq<Value>, k: Value)
    ensures CleanKeywords(ks + [k]) == CleanKeywords(ks) + Kept(k)
  {
    assert (ks + [k])[..|ks|] == ks;
  }

  /** CleanKeywords of four keywords, keyword by keyword. */
  lemma CleanKeywordsFour(a: Value, b: Value, c: Value, d: Value)
    ensures CleanKeywords([a, b, c, d]) == Kept(a) + Kept(b) + Kept(c) + Kept(d)
  {
    assert CleanKeywords([a]) == Kept(a) by {
      CleanKeywordsSnoc([], a);
      assert [a] == [] + [a];
    }
    assert CleanKeywords([a, b]) == Kept(a) + Kept(b) by {
      CleanKeywordsSnoc([a], b);
      assert [a, b] == [a] + [b];
    }
    assert CleanKeywords([a, b, c]) == Kept(a) + Kept(b) + Kept(c) by {
      CleanKeywordsSnoc([a, b], c);
      assert [a, b, c] == [a, b] + [c];
    }
    CleanKeywordsSnoc([a, b, c], d);
    assert [a, b, c, d] == [a, b, c] + [d];
  }

  /** The keywords of the keyword test before de-duplication, from what
      each keyword yields. */
  lemma CleanKeywordsExample(a: Value, b: Value, c: Value)
    requires Kept(a) == ["research"] && Kept(b) == ["oklahoma"] && Kept(c) == ["test"]
    ensures CleanKeywords([a, b, c, c]) == ["research", "oklahoma", "test", "test"]
  {
    CleanKeywordsFour(a, b, c, c);
  }

  /** The de-duplication of the keyword test: three distinct texts, the
      last one repeated. */
  lemma DedupeExample(r: string, o: string, t: string)
    requires r != o && r != t && o != t
    ensures Dedupe([r, o, t, t]) == [r, o, t]
  {
    assert Dedupe([r]) == [r] by {
      DedupeSnoc([], r);
      assert [r] == [] + [r];
    }
    assert Dedupe([r, o]) == [r, o] by {
      DedupeSnoc([r], o);
      assert [r, o] == [r] + [o];
    }
    assert Dedupe([r, o, t]) == [r, o, t] by {
      DedupeSnoc([r, o], t);
      assert [r, o, t] == [r, o] + [t];
    }
    DedupeSnoc([r, o, t], t);
    assert [r, o, t, t] == [r, o, t] + [t];
  }

  /** The example of the keyword test: mixed case, two spaces of padding on
      either side of "OKLAHOMA", and a duplicate. */
  lemma KeywordExample()
    ensures NormalizedKeywords([Str("Research"), Str("  " + "OKLAHOMA" + "  "), Str("test"), Str("test")])
      == ["research", "oklahoma", "test"]
  {
    KeptResearch();
    KeptOklahoma("OKLAHOMA");
    KeptTest();
    CleanKeywordsExample(Str("Research"), Str("  " + "OKLAHOMA" + "  "), Str("test"));
    DedupeExample("research", "oklahoma", "test");
  }

  // ---------------------------------------------------------------------------
  // make_message
  // ---------------------------------------------------------------------------

  /** The confidence argument: `kw.get("confidence", 1.0)`. */
  function ConfidenceArg(kw: map<string, Value>): Value {
    GetOr(kw, "confidence", Num(1.0))
  }

  /** The dict make_message assembles from its normalised inputs. The id and
      the timestamp are generated only when the caller gave none (or a falsy
      one); `type` is the stripped, lower-cased type argument. A map has no
      key order: the entries are listed in two groups, those the rules and
      the sessions read and the others, not in the dict's order. */
  function Assembled(
    t: string, sender: string, content: Value, kw: map<string, Value>, confidence: real,
    provenance: seq<Value>, constraints: seq<Value>, safety: map<string, Value>,
    keywords: seq<string>, uuidHex: UuidHex, now: string): (m: Message)
    ensures "type" in m && m["type"] == Str(t)
    ensures "confidence" in m && m["confidence"] == Num(confidence)
    ensures "provenance" in m && m["provenance"] == List(provenance)
    ensures "safety" in m && m["safety"] == Dict(safety)
    ensures Includes(m, map[
        "timestamp" := (if Truthy(GetOr(kw, "timestamp", Null)) then GetOr(kw, "timestamp", Null) else Str(now)),
        "receiver" := GetOr(kw, "receiver", Null),
        "topic" := GetOr(kw, "topic", Null),
        "constraints" := List(constraints),
        "keywords" := StrList(keywords),
        "_extras" := GetOr(kw, "_extras", Dict(map[]))
      ])
  {
    var read := map[
      "protocol" := Str(Protocol),
      "type" := Str(t),
      "sender" := Str(sender),
      "content" := content,
      "id" := (if Truthy(GetOr(kw, "id", Null)) then GetOr(kw, "id", Null) else Str(NewId("MSG", uuidHex))),
      "session_id" := GetOr(kw, "session_id", Null),
      "seq" := GetOr(kw, "seq", Null),
      "payload" := GetOr(kw, "payload", Null),
      "refers_to" := GetOr(kw, "refers_to", Null),
      "confidence" := Num(confidence),
      "provenance" := List(provenance),
      "safety" := Dict(safety)
    ];
    var other := map[
      "timestamp" := (if Truthy(GetOr(kw, "timestamp", Null)) then GetOr(kw, "timestamp", Null) else Str(now)),
      "receiver" := GetOr(kw, "receiver", Null),
      "topic" := GetOr(kw, "topic", Null),
      "constraints" := List(constraints),
      "keywords" := StrList(keywords),
      "_extras" := GetOr(kw, "_extras", Dict(map[]))
    ];
    assert forall k :: k in other ==> k !in read by {
      forall k | k in other ensures k !in read {
        GroupsDisjoint(k);
      }
    }
    UnionIncludes(other, read);
    other + read
  }

  /** A union holds every entry of its left side whose key the right side
      does not hold. */
  lemma UnionIncludes(left: Message, right: Message)
    requires forall k :: k in left ==> k !in right
    ensures Includes(left + right, left)
  {
  }

  /** No key of the dict make_message builds is listed twice. */
  lemma GroupsDisjoint(k: string)
    requires k in {"timestamp", "receiver", "topic", "constraints", "keywords", "_extras"}
    ensures k !in {"protocol", "type", "sender", "content", "id", "session_id", "seq",
                   "payload", "refers_to", "confidence", "provenance", "safety"}
  {
  }

  /** The message make_message would return, once float() of the confidence
      argument has given `confidence`. */
  function Candidate(
    type_: string, sender: string, content: Value, kw: map<string, Value>,
    confidence: real, uuidHex: UuidHex, now: string): Message
  {
    var provenance := AsList(GetOr(kw, "provenance", List([])));
    var constraints := AsList(GetOr(kw, "constraints", List([])));
    var safety := Escalate(confidence, provenance, NormalizeSafety(GetOr(kw, "safety", Dict(DefaultSafety()))));
    var keywords := NormalizedKeywords(AsList(GetOr(kw, "keywords", List([]))));
    Assembled(Lower(Strip(type_)), sender, content, kw, confidence, provenance, constraints,
              safety, keywords, uuidHex, now)
  }

  /** Whether `m` holds every entry of `fields`. */
  predicate Includes(m: Message, fields: map<string, Value>) {
    forall k :: k in fields ==> k in m && m[k] == fields[k]
  }

  /** The entries of the constructed message the rules and the sessions read:
      the protocol tag, the stripped lower-case type, the sender and content
      as given, the caller's id when truthy and a fresh "MSG" id otherwise,
      the session, seq, payload and refers_to arguments as given (None when
      absent), the converted confidence, the provenance as a list, and the
      normalised safety, escalated when the confidence is unearned. */
  lemma CandidateFields(
    type_: string, sender: string, content: Value, kw: map<string, Value>,
    confidence: real, uuidHex: UuidHex, now: string)
    ensures var provenance := AsList(GetOr(kw, "provenance", List([])));
      Includes(Candidate(type_, sender, content, kw, confidence, uuidHex, now), map[
        "protocol" := Str(Protocol),
        "type" := Str(Lower(Strip(type_))),
        "sender" := Str(sender),
        "content" := content,
        "id" := (if Truthy(GetOr(kw, "id", Null)) then GetOr(kw, "id", Null) else Str(NewId("MSG", uuidHex))),
        "session_id" := GetOr(kw, "session_id", Null),
        "seq" := GetOr(kw, "seq", Null),
        "payload" := GetOr(kw, "payload", Null),
        "refers_to" := GetOr(kw, "refers_to", Null),
        "confidence" := Num(confidence),
        "provenance" := List(provenance),
        "safety" := Dict(Escalate(confidence, provenance, NormalizeSafety(GetOr(kw, "safety", Dict(DefaultSafety())))))
      ])
  {
  }

  /** The other entries of the constructed message: the caller's timestamp
      when truthy and the clock's otherwise, receiver and topic as given
      (None when absent), the constraints as a list, the normalised keywords
      and the extras ({} when absent). */
  lemma CandidateOtherFields(
    type_: string, sender: string, content: Value, kw: map<string, Value>,
    confidence: real, uuidHex: UuidHex, now: string)
    ensures Includes(Candidate(type_, sender, content, kw, confidence, uuidHex, now), map[
        "timestamp" := (if Truthy(GetOr(kw, "timestamp", Null)) then GetOr(kw, "timestamp", Null) else Str(now)),
        "receiver" := GetOr(kw, "receiver", Null),
        "topic" := GetOr(kw, "topic", Null),
        "constraints" := List(AsList(GetOr(kw, "constraints", List([])))),
        "keywords" := StrList(NormalizedKeywords(AsList(GetOr(kw, "keywords", List([]))))),
        "_extras" := GetOr(kw, "_extras", Dict(map[]))
      ])
  {
  }

  /** The constructed message has exactly the eighteen keys make_message
      writes, whatever keyword arguments it was given. */
  lemma CandidateKeys(
    type_: string, sender: string, content: Value, kw: map<string, Value>,
    confidence: real, uuidHex: UuidHex, now: string)
    ensures Candidate(type_, sender, content, kw, confidence, uuidHex, now).Keys == {
      "id", "protocol", "type", "timestamp", "session_id", "seq", "sender", "receiver", "topic",
      "content", "confidence", "provenance", "constraints", "safety", "refers_to", "keywords",
      "payload", "_extras"}
  {
  }

  /** A constructed message never breaks the lower-case rule, the confidence
      rule or the earned-confidence rule. */
  lemma {:induction false} CandidateSemantics(
    type_: string, sender: string, content: Value, kw: map<string, Value>,
    confidence: real, uuidHex: UuidHex, now: string)
    ensures var m := Candidate(type_, sender, content, kw, confidence, uuidHex, now);
      && !TypeNotLower(m)
      && Confidence(m) == Some(confidence)
      && EarnedConfidence(m)
  {
    var provenance := AsList(GetOr(kw, "provenance", List([])));
    var safety := Escalate(confidence, provenance, NormalizeSafety(GetOr(kw, "safety", Dict(DefaultSafety()))));
    var m := Candidate(type_, sender, content, kw, confidence, uuidHex, now);
    var t := Lower(Strip(type_));
    LowerOfStrippedIsStripped(type_);
    SemanticsFromFields(m, t, confidence, provenance, safety);
  }

  /** The semantic check of a message whose type is lower-case and stripped,
      whose confidence is a number and whose safety earns that confidence. */
  lemma SemanticsFromFields(m: Message, t: string, confidence: real, provenance: seq<Value>, safety: map<string, Value>)
    requires "type" in m && m["type"] == Str(t) && Strip(t) == t && Lower(t) == t
    requires "confidence" in m && m["confidence"] == Num(confidence)
    requires "provenance" in m && m["provenance"] == List(provenance)
    requires "safety" in m && m["safety"] == Dict(safety) && "level" in safety
    requires confidence < 0.9 || provenance != [] || safety["level"] == Str("review")
    ensures !TypeNotLower(m) && Confidence(m) == Some(confidence) && EarnedConfidence(m)
  {
  }

  /** The escalation as the constructed message shows it: with confidence of
      at least 0.9, no provenance and a level other than "review" the level
      is "review" and the given issues gain exactly one missing-provenance
      issue; otherwise the safety dict is the normalised one unchanged. */
  lemma CandidateSafety(
    type_: string, sender: string, content: Value, kw: map<string, Value>,
    confidence: real, uuidHex: UuidHex, now: string)
    ensures var m := Candidate(type_, sender, content, kw, confidence, uuidHex, now);
      var given := NormalizeSafety(GetOr(kw, "safety", Dict(DefaultSafety())));
      var provenance := AsList(GetOr(kw, "provenance", List([])));
      && m["safety"].Dict?
      && (NeedsEscalation(confidence, provenance, given) ==>
            m["safety"].entries["level"] == Str("review")
            && m["safety"].entries["issues"].items == given["issues"].items + [MissingProvenanceIssue])
      && (!NeedsEscalation(confidence, provenance, given) ==> m["safety"].entries == given)
  {
  }

  /** What make_message returns or raises: the exception of float() for a bad
      confidence argument, otherwise the constructed message when it passes
      validate_vlp and a ValueError naming the first violation when not. */
  function MadeMessage(
    schema: SchemaCheck, type_: string, sender: string, content: Value,
    kw: map<string, Value>, uuidHex: UuidHex, now: string): Result<Message>
  {
    var conf := Float(ConfidenceArg(kw));
    if conf.Raise? then Raise(conf.error)
    else
      Validated(schema, Candidate(type_, sender, content, kw, conf.value, uuidHex, now))
  }

  /** The last step of make_message: the message when validate_vlp accepts
      it, and a ValueError naming the first violation when not. */
  function Validated(schema: SchemaCheck, m: Message): Result<Message> {
    var verdict := ValidateVlp(schema, m);
    if verdict.Invalid? then Raise(ValueError("VLP validation failed: " + verdict.reason))
    else Ok(m)
  }

  /** For a message whose type is lower-case, whose confidence is a number
      and earned, validation returns it exactly when the schema accepts it
      and the reference rules of its kind hold, and a schema error is
      reported as it is. */
  lemma ValidatedOutcome(schema: SchemaCheck, m: Message)
    requires !TypeNotLower(m) && Confidence(m).Some? && EarnedConfidence(m)
    ensures var r := Validated(schema, m);
      && (r.Ok? <==> schema(Dict(m)).None? && ReferenceRulesHold(m))
      && (r.Ok? ==> r.value == m)
      && (schema(Dict(m)).Some? ==> r == Raise(ValueError("VLP validation failed: " + schema(Dict(m)).value)))
  {
  }

  /** make_message raises what float() raises for a bad confidence, and
      ValueError when the assembled message fails validation; a returned
      message always passes validate_vlp, and it is returned exactly when the
      schema accepts it and the reference rules of its kind hold. */
  lemma MadeMessageOutcome(
    schema: SchemaCheck, type_: string, sender: string, content: Value,
    kw: map<string, Value>, uuidHex: UuidHex, now: string)
    ensures var r := MadeMessage(schema, type_, sender, content, kw, uuidHex, now);
      && (Float(ConfidenceArg(kw)).Raise? ==> r == Raise(Float(ConfidenceArg(kw)).error))
      && (Float(ConfidenceArg(kw)).Ok? ==>
        var m := Candidate(type_, sender, content, kw, Float(ConfidenceArg(kw)).value, uuidHex, now);
        && (r.Ok? <==> schema(Dict(m)).None? && ReferenceRulesHold(m))
        && (r.Ok? ==> r.value == m)
        && (r.Raise? ==> r.error == ValueError("VLP validation failed: " + ValidateVlp(schema, m).reason)))
      && (r.Ok? ==> ValidateVlp(schema, r.value) == Valid)
  {
    var conf := Float(ConfidenceArg(kw));
    if conf.Ok? {
      var m := Candidate(type_, sender, content, kw, conf.value, uuidHex, now);
      CandidateSemantics(type_, sender, content, kw, conf.value, uuidHex, now);
      ValidatedOutcome(schema, m);
    }
  }

  /** The outcome of validating a message that breaks no semantic rule: the
      message itself when the schema accepts it, otherwise a ValueError
      carrying the schema's error. */
  function SchemaOutcome(schema: SchemaCheck, m: Message): (r: Result<Message>)
    ensures r.Ok? <==> schema(Dict(m)).None?
  {
    match schema(Dict(m))
    case None => Ok(m)
    case Some(err) => Raise(ValueError("VLP validation failed: " + err))
  }

  /** For a kind that needs no reference, make_message raises what float()
      raises, and otherwise only the schema can reject the message. */
  lemma MadeMessageReferenceFree(
    schema: SchemaCheck, type_: string, sender: string, content: Value,
    kw: map<string, Value>, uuidHex: UuidHex, now: string)
    requires Lower(Strip(type_)) !in ["evidence", "response", "correction"]
    ensures var conf := Float(ConfidenceArg(kw));
      MadeMessage(schema, type_, sender, content, kw, uuidHex, now) ==
        if conf.Raise? then Raise(conf.error)
        else SchemaOutcome(schema, Candidate(type_, sender, content, kw, conf.value, uuidHex, now))
  {
    if Float(ConfidenceArg(kw)).Ok? {
      var c := Float(ConfidenceArg(kw)).value;
      var m := Candidate(type_, sender, content, kw, c, uuidHex, now);
      CandidateSemantics(type_, sender, content, kw, c, uuidHex, now);
      assert ReferenceRulesHold(m) by {
        LowerOfStrippedIsStripped(type_);
        assert TypeText(m) == Lower(Strip(type_));
      }
      assert MadeMessage(schema, type_, sender, content, kw, uuidHex, now) == Validated(schema, m);
      ValidatedReferenceFree(schema, m);
    }
  }

  /** A message that breaks no semantic rule is rejected only by the schema. */
  lemma ValidatedReferenceFree(schema: SchemaCheck, m: Message)
    requires !TypeNotLower(m) && Confidence(m).Some? && EarnedConfidence(m) && ReferenceRulesHold(m)
    ensures Validated(schema, m) == SchemaOutcome(schema, m)
  {
  }

  /** The message assembled from the normalised inputs is the candidate. */
  lemma AssembledCandidate(
    type_: string, sender: string, content: Value, kw: map<string, Value>, confidence: real,
    provenance: seq<Value>, constraints: seq<Value>, safety: map<string, Value>,
    keywords: seq<string>, uuidHex: UuidHex, now: string)
    requires provenance == AsList(GetOr(kw, "provenance", List([])))
    requires constraints == AsList(GetOr(kw, "constraints", List([])))
    requires safety == Escalate(confidence, provenance, NormalizeSafety(GetOr(kw, "safety", Dict(DefaultSafety()))))
    requires keywords == NormalizedKeywords(AsList(GetOr(kw, "keywords", List([]))))
    ensures Assembled(Lower(Strip(type_)), sender, content, kw, confidence, provenance, constraints,
                      safety, keywords, uuidHex, now)
      == Candidate(type_, sender, content, kw, confidence, uuidHex, now)
  {
  }

  /** MadeMessage once float() has succeeded and the message is assembled. */
  lemma MadeMessageOf(
    schema: SchemaCheck, type_: string, sender: string, content: Value,
    kw: map<string, Value>, uuidHex: UuidHex, now: string, confidence: real, msg: Message)
    requires Float(ConfidenceArg(kw)) == Ok(confidence)
    requires msg == Candidate(type_, sender, content, kw, confidence, uuidHex, now)
    ensures MadeMessage(schema, type_, sender, content, kw, uuidHex, now) ==
      if ValidateVlp(schema, msg).Invalid? then Raise(ValueError("VLP validation failed: " + ValidateVlp(schema, msg).reason))
      else Ok(msg)
  {
  }

  /** make_message: normalise the inputs, escalate, assemble, validate. */
  method MakeMessage(
    schema: SchemaCheck, type_: string, sender: string, content: Value,
    kw: map<string, Value>, uuidHex: UuidHex, now: string)
    returns (r: Result<Message>)
    ensures r == MadeMessage(schema, type_, sender, content, kw, uuidHex, now)
  {
    var t := Lower(Strip(type_));
    var conf := Float(ConfidenceArg(kw));
    if conf.Raise? {
      return Raise(conf.error);
    }
    var confidence := conf.value;
    // A list is passed through as it is; anything else goes through _as_list.
    var provenance := AsList(GetOr(kw, "provenance", List([])));
    var constraints := AsList(GetOr(kw, "constraints", List([])));

    var safety := NormalizeSafety(GetOr(kw, "safety", Dict(DefaultSafety())));
    ghost var given := safety;
    if confidence >= 0.9 && provenance == [] && safety["level"] != Str("review") {
      safety := safety["level" := Str("review")];
      safety := safety["issues" := List(safety["issues"].items + [MissingProvenanceIssue])];
      assert safety == Escalate(confidence, provenance, given);
    }

    var keywords := NormalizeKeywords(AsList(GetOr(kw, "keywords", List([]))));
    var msg := Assembled(t, sender, content, kw, confidence, provenance, constraints,
                         safety, keywords, uuidHex, now);
    AssembledCandidate(type_, sender, content, kw, confidence, provenance, constraints,
                       safety, keywords, uuidHex, now);

    var verdict := ValidateVlp(schema, msg);
    MadeMessageOf(schema, type_, sender, content, kw, uuidHex, now, confidence, msg);
    if verdict.Invalid? {
      return Raise(ValueError("VLP validation failed: " + verdict.reason));
    }
    return Ok(msg);
  }
}
