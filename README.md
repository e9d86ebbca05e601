# VLP 1.1 runtime and sessions, modelled in Dafny

This project models the two Python modules at the core of VLP 1.1, the
message protocol its agents use to exchange claims, evidence and session
context:

- `python/src/vlp/runtime.py`: message construction and validation.
  - Message ids (`new_id`).
  - List coercion (`_as_list`).
  - The "Truth Serum" semantic rules (`_semantic_validate`).
  - The two-phase validator (`validate_vlp`): an external JSON-Schema step,
    then the semantic rules.
  - The message constructor (`make_message`): type normalisation, safety
    normalisation and auto-escalation, keyword normalisation, defaults, and
    validation.
  - NDJSON framing (`to_ndjson`, `from_ndjson`).
- `python/src/vlp/sessions.py`: agent sessions.
  - `AgentSession`: session ids, the sequence counter and session-scoped
    message ids.
  - `AgentSessionRegistry`: the map from session id to live session, and
    the session-context and claim messages it builds through
    `make_message`.
  - `get_registry`: the lazily created global registry.

Files:

- `text.dfy` (module `Text`): the `str` methods the code relies on:
  `lower`, `strip`, `replace`, `split`, `join`, `splitlines`, and the
  decimal rendering of integers.
- `values.dfy` (module `Values`): the Python values a message holds.
  - `Value` is None, bool, number, str, list or dict.
  - Results carry an exception.
  - It also defines truthiness, `dict.get` and `float()`.
- `runtime.dfy` (module `Runtime`): everything of `runtime.py` except the
  NDJSON framing.
- `ndjson.dfy` (module `Ndjson`): `to_ndjson`, `from_ndjson`, and the
  framing defect described under Findings.
- `sessions.dfy` (module `Sessions`): `sessions.py`. `AgentSession`,
  `AgentSessionRegistry` and the `_registry` slot are classes whose methods
  update their fields.

Outside inputs become parameters:

- the JSON-Schema check is a function `schema: Value -> Option<string>`;
- `json.dumps` and `json.loads` are functions `dumps` and `loads`;
- the hex digits of `uuid.uuid4()` are a `UuidHex` value: 32 lower-case hex
  digits;
- the clock's date and timestamps are strings.

Pure code is modelled as functions with lemmas. The in-place parts are
methods proved against those functions:

- the safety update and the keyword loop of `make_message`;
- the `from_ndjson` loop;
- the session counter;
- the registry map;
- the lazy singleton.

What the code does, as the model states it:

- `_semantic_validate` returns the first violated rule, in a fixed order.
  `SemanticValidate` reports that one reason, and `RulesHold` states when
  there is none.
- The slug drops every occurrence of `"the "`, wherever it stands.
- Each space becomes one hyphen, so a run of spaces becomes a run of
  hyphens.
- A second `end_session` on the same session does not fail: removing an
  absent id is a no-op.
- `end_session` and `create_claim` each advance the counter twice.
  - The message id embeds the first new value, `n + 1`.
  - The `seq` field holds the second, `n + 2`.
  - `total_messages` is the counter after both steps, so it is 2 for a
    fresh session.
- The sequence field of a message id widens past four digits.
- A `"block"` safety level is escalated to `"review"` like any level other
  than `"review"`.
- A session id splits on `"-"` into six fields when its slug holds no
  hyphen: the date brings two hyphens of its own
  (`Sessions.SessionIdFields`). Each hyphen in the slug, such as the one an
  inner space of the agent name becomes, adds one more field.

## Model

| member | source | states |
|---|---|---|
| Runtime.NewId | python/src/vlp/runtime.py:17-19 | The id is the prefix followed by exactly 8 lower-case hex digits, so its length is len(prefix)+8 |
| Runtime.AsList | python/src/vlp/runtime.py:27-33 | None becomes [], a list is returned unchanged, any other value v becomes [v] |
| Runtime.SemanticValidate | python/src/vlp/runtime.py:36-78 | A message passes exactly when all rules hold: type lower-case, confidence present and numeric, evidence has a truthy refers_to and non-empty provenance, response/correction have a truthy refers_to, confidence >= 0.9 is earned by provenance or level "review" |
| Runtime.TypeReportedFirst | python/src/vlp/runtime.py:42-44 | A type whose text is not lower-case is reported as "type must be lowercase", whatever else the message holds |
| Runtime.ConfidenceRequired | python/src/vlp/runtime.py:46-48 | With a lower-case type, a missing or None confidence is reported as "confidence is required" |
| Runtime.ConfidenceNotNumber | python/src/vlp/runtime.py:50-53 | With a lower-case type and a present confidence that float() rejects, the report is "confidence must be a number" |
| Runtime.EvidenceProvenanceRequired | python/src/vlp/runtime.py:55-67 | Evidence with a numeric confidence and a truthy refers_to but no provenance list is reported as missing provenance, at any confidence |
| Runtime.ReplyReferenceRequired | python/src/vlp/runtime.py:69-72 | A response or correction with a numeric confidence and a falsy refers_to is reported as "<type> messages must include refers_to" |
| Runtime.EvidenceReportsRefersToFirst | python/src/vlp/runtime.py:63-67 | Evidence lacking both refers_to and provenance gets only the refers_to error (first failing rule wins) |
| Runtime.FalsyRefersToRejected | python/src/vlp/runtime.py:60-72 | None, "" and [] as refers_to are rejected for evidence, response and correction, with the message naming the kind |
| Runtime.EvidenceWithReferenceAndProvenance | python/src/vlp/runtime.py:60-78 | Evidence with a truthy refers_to and non-empty provenance passes every rule |
| Runtime.UnearnedConfidenceRejected | python/src/vlp/runtime.py:55-76 | With confidence >= 0.9 and no provenance list, the message passes exactly when the level is "review" (so "block" fails), with the earned-confidence error otherwise |
| Runtime.SafetyReadAsSafe | python/src/vlp/runtime.py:57-58 | A missing or non-dict safety, an empty level or "block" never counts as "review" |
| Runtime.ValidateVlp | python/src/vlp/runtime.py:81-95 | Valid exactly when the schema accepts and the semantic rules hold; a schema error is reported as it is, before the rules |
| Runtime.NormalizeSafety | python/src/vlp/runtime.py:126-132 | Non-dict safety becomes the default; "issues" becomes [] when missing or not a list, "level" becomes "safe" when missing; every other key and a present level are kept |
| Runtime.Escalate | python/src/vlp/runtime.py:134-140 | When confidence >= 0.9, provenance is empty and the level is not "review": the level becomes "review" and exactly one missing-provenance issue is appended, nothing else changes; otherwise safety is unchanged; the result always earns its confidence |
| Runtime.KeptClean | python/src/vlp/runtime.py:146-148 | A kept keyword is non-empty, has no capital and is already stripped |
| Runtime.CleanKeywordsClean | python/src/vlp/runtime.py:146-148 | Every keyword the comprehension yields is non-empty, lower-case and stripped |
| Runtime.CleanKeywordsMembers | python/src/vlp/runtime.py:146-148 | A text is yielded exactly when some input keyword is a non-blank string that lowers and strips to it |
| Runtime.DedupeMembers | python/src/vlp/runtime.py:146-148 | dict.fromkeys keeps exactly the texts of its input, each once |
| Runtime.DedupeOrder | python/src/vlp/runtime.py:146-148 | The kept texts appear in the order of their first occurrence in the input |
| Runtime.NormalizeKeywords | python/src/vlp/runtime.py:143-148 | The one-pass loop that appends unseen keywords computes NormalizedKeywords: cleaned, then de-duplicated |
| Runtime.KeywordExample | python/src/vlp/runtime.py:143-148 | ["Research", "  OKLAHOMA  ", "test", "test"] normalises to ["research", "oklahoma", "test"] |
| Runtime.Assembled | python/src/vlp/runtime.py:150-169 | The built dict holds the given type, confidence, provenance and safety, and the timestamp (the caller's when truthy, else the clock's), receiver, topic, constraints, keywords and extras |
| Runtime.CandidateFields | python/src/vlp/runtime.py:119-169 | The constructed message has protocol "VLP/1.1"; type = the stripped, lower-cased argument; the caller's id when truthy, else "MSG" + 8 hex digits; session_id, seq, payload, refers_to as given (None if absent); confidence float(kw.get("confidence", 1.0)); provenance as a list; the normalised, possibly escalated safety |
| Runtime.CandidateKeys | python/src/vlp/runtime.py:150-169 | The constructed message has exactly the 18 keys of the dict literal, and no other |
| Runtime.CandidateOtherFields | python/src/vlp/runtime.py:150-169 | The timestamp is generated only when the caller gives none; receiver and topic default to None, constraints are a list, keywords are the normalised ones, _extras defaults to {} |
| Runtime.CandidateSemantics | python/src/vlp/runtime.py:119-140 | A constructed message never breaks the lower-case rule, the confidence rule or the earned-confidence rule |
| Runtime.CandidateSafety | python/src/vlp/runtime.py:126-140 | In the constructed message, safety is escalated (level "review", one issue appended) exactly when the escalation condition holds, and is the normalised dict otherwise |
| Runtime.ValidatedOutcome | python/src/vlp/runtime.py:171-174 | A self-consistent message is returned exactly when the schema accepts it and its kind's reference rules hold; a schema error becomes ValueError("VLP validation failed: " + error) |
| Runtime.MadeMessageOutcome | python/src/vlp/runtime.py:98-174 | make_message raises float()'s exception for a bad confidence, otherwise returns the constructed message exactly when schema and reference rules accept it, raises ValueError naming the violation when not; every returned message passes validate_vlp |
| Runtime.MadeMessageReferenceFree | python/src/vlp/runtime.py:98-174 | For a type other than evidence/response/correction, only float() or the schema can make make_message fail |
| Runtime.MakeMessage | python/src/vlp/runtime.py:98-174 | The imperative constructor (in-place safety update, keyword loop, assembly, validation) returns exactly what MadeMessage specifies |
| Ndjson.ToNdjson | python/src/vlp/runtime.py:177-179 | No messages give ""; when no rendering holds "\n", splitting the text on "\n" gives back the renderings in order |
| Ndjson.Encoded | python/src/vlp/runtime.py:177-179 | One rendering per message, in order |
| Ndjson.DecodeAll | python/src/vlp/runtime.py:185-189 | Succeeds exactly when every line parses, giving each line's value in order; otherwise raises the exception of the first line that fails |
| Ndjson.FromNdjson | python/src/vlp/runtime.py:182-189 | The append loop returns exactly the parse of the non-blank splitlines() lines of `text or ""`, stopping at the first failing line |
| Ndjson.BlankLineSkipped | python/src/vlp/runtime.py:185-187 | A whitespace-only line is skipped: the parsed lines are those of the other lines |
| Ndjson.DecodeAllPrefixFails | python/src/vlp/runtime.py:185-189 | A parse failure in some lines is the failure of the whole text, whatever follows |
| Ndjson.FramingRoundTrip | python/src/vlp/runtime.py:177-189 | Joining non-blank lines without splitlines() boundaries with "\n" and framing them again gives the same lines |
| Ndjson.NdjsonRoundTrip | python/src/vlp/runtime.py:177-189 | from_ndjson(to_ndjson(ms)) == ms when loads inverts dumps and no rendering is blank or holds a splitlines() boundary |
| Ndjson.RawSeparatorBreaksFraming | python/src/vlp/runtime.py:177-189 | As written, a rendering holding U+0085, U+2028 or U+2029 never comes back as one line |
| Ndjson.LineSeparatorExample | python/src/vlp/runtime.py:177-189 | As written, the rendering {"c": "<U+2028>"} is read back as the two fragments {"c": " and "} |
| Ndjson.FramingFixedRoundTrip | python/src/vlp/runtime.py:182-189 | Splitting on "\n" only gives back any non-blank lines without "\n" |
| Ndjson.NdjsonFixedRoundTrip | python/src/vlp/runtime.py:177-189 | With "\n"-only framing, from_ndjson(to_ndjson(ms)) == ms when loads inverts dumps and no rendering is blank or holds "\n" |
| Ndjson.LineSeparatorFixedExample | python/src/vlp/runtime.py:182-189 | With "\n"-only framing, the U+2028 example is read back whole |
| Sessions.Prefix | python/src/vlp/sessions.py:46 | s[:n] is the first n characters of s, or all of a shorter s |
| Sessions.Hyphenated | python/src/vlp/sessions.py:46 | The lower-cased name with every "the " removed and spaces turned into hyphens has no space and no capital |
| Sessions.Slug | python/src/vlp/sessions.py:46 | The slug is the first 12 characters of the hyphenated name, or all of a shorter one; it has no space and no capital |
| Sessions.SlugExample | python/src/vlp/sessions.py:46 | "The Observer" slugs to "observer" |
| Sessions.SessionId | python/src/vlp/sessions.py:42-48 | A session id starts with "S-", is ten characters longer than the date and slug together, and its last six characters (what message ids embed) are the first six hex digits of the uuid |
| Sessions.SessionIdShape | python/src/vlp/sessions.py:42-48 | The slug stands right after "S-<date>-", and the last six characters are hex digits |
| Sessions.SlugInnerArticle | python/src/vlp/sessions.py:46 | An inner "the " is dropped as well: "Bob the Builder" slugs to "bob-builder" |
| Sessions.SlugTruncated | python/src/vlp/sessions.py:46 | A long name is cut to twelve characters: "Bob the Builder Extraordinaire" slugs to "bob-builder-" |
| Sessions.SessionIdFields | python/src/vlp/sessions.py:42-48 | With a %Y-%m-%d date and a hyphen-free slug, the id splits on "-" into exactly six fields: "S", year, month, day, slug, hex |
| Sessions.SeqText | python/src/vlp/sessions.py:58 | {n:04d} is all digits, four long or as long as n's digits when more, and reads back as n |
| Sessions.MessageIdText | python/src/vlp/sessions.py:56-58 | A message id starts with the prefix and "-", has the length of its three parts and two hyphens, and ends in the digits of its sequence number, which read back as that number |
| Sessions.MessageIdSeq | python/src/vlp/sessions.py:56-58 | int(id.split("-")[-1]) of a message id is its sequence number |
| Sessions.MessageIdFields | python/src/vlp/sessions.py:56-58 | With a hyphen-free prefix and session tail, a message id splits into exactly prefix, tail and number |
| Sessions.Session.constructor | python/src/vlp/sessions.py:27-40 | A new session keeps name, number and start time, gets its generated id, and starts its counter at 0 |
| Sessions.Session.NextSeq | python/src/vlp/sessions.py:50-54 | The counter goes up by exactly one and the new value is returned |
| Sessions.Session.MessageId | python/src/vlp/sessions.py:56-58 | Consumes exactly one sequence number and returns prefix-tail-number for the new value |
| Sessions.Registry.constructor | python/src/vlp/sessions.py:76-78 | A new registry is empty |
| Sessions.Registry.StartSession | python/src/vlp/sessions.py:80-91 | A fresh session with counter 0 is registered under its own id; every other entry is unchanged |
| Sessions.Registry.GetSession | python/src/vlp/sessions.py:93-96 | Returns the session registered under the id, whose own id is that id, or null (None) for an unknown id |
| Sessions.Registry.EndSession | python/src/vlp/sessions.py:98-124 | Advances the counter by exactly 2, returns make_message of the session_context arguments, and when that returns removes only the ended session's id (an absent id is no error) |
| Sessions.Registry.CreateClaim | python/src/vlp/sessions.py:126-143 | Advances the counter by exactly 2; a caller keyword that clashes with create_claim's own is a TypeError; otherwise returns make_message of the claim arguments |
| Sessions.SessionContextFields | python/src/vlp/sessions.py:104-119 | The session_context message: sender the agent, content the summary or "Session ended for <name>", id "CTX-<tail>-(n+1)", seq and total_messages n+2, refers_to None, confidence 1.0, provenance ["agent_session", "agent_<n>"], default safety never escalated |
| Sessions.SessionContextOutcome | python/src/vlp/sessions.py:104-119 | end_session's make_message call succeeds exactly when the schema accepts the message: no semantic rule can fail |
| Sessions.ClaimFields | python/src/vlp/sessions.py:134-143 | The claim: type "claim", sender the agent, the session's id, id "CLM-<tail>-(n+1)", seq n+2, the converted confidence, the caller's provenance, payload and refers_to, escalated safety when unearned |
| Sessions.ClaimOutcome | python/src/vlp/sessions.py:134-143 | create_claim raises float()'s exception for a bad confidence, otherwise succeeds exactly when the schema accepts the claim |
| Sessions.ClaimEscalatedByDefault | python/src/vlp/sessions.py:126-143 | With the default confidence 0.9 and no provenance or safety, the claim's safety is {"level": "review", "issues": [missing-provenance issue]} |
| Sessions.RegistrySlot.GetRegistry | python/src/vlp/sessions.py:146-155 | The first call creates an empty registry; every later call returns that same registry |

## Left out

- JSON-Schema validation and schema loading (`python/src/vlp/schema.py`): the schema step is the parameter `schema`. Its error text is taken as given.
- `json.dumps` and `json.loads`: they are the parameters `dumps` and `loads`, left unconstrained except where a lemma states what it assumes of them. Only the line framing around them is modelled. That `json.dumps` with `ensure_ascii=False` writes U+0085, U+2028 and U+2029 unescaped is the premise of the finding below, stated as the hypothesis of `Ndjson.RawSeparatorBreaksFraming`, not a modelled fact.
- `uuid.uuid4()` and the clock: the hex digits, the date and the timestamps are parameters. `now_iso`'s formatting is not modelled.
- `threading.Lock` in `next_seq` and in the registry: methods are atomic and sequential, and concurrent callers are not modelled.
- Values.Float: a numeric string such as "0.5" raises ValueError in the model, where Python's `float()` would parse it. String-to-number parsing is not modelled. Only the exception kind of `float()` is modelled: Python's messages also quote the offending text or name its type, which the model's messages do not.
- Values.Value: ints and floats are one `real` kind. Float rounding, NaN and infinity are not represented.
- Runtime.MakeMessage: `make_message` updates the caller's `safety` dict and its `issues` list in place, so the caller sees the escalation. The model builds a new map, so this aliasing is not captured.
- Runtime.Assembled: a map has no key order, so the insertion order of the message dict is not modelled. The keyword list is a sequence, so its order is modelled.
- Values.RendersUpper: `str()` of a non-string `type` is judged by its letters, None, True and False. The escape sequences `repr` uses for unprintable characters are not modelled.
- Text.Lower: only ASCII and Latin-1 capitals are folded. Case mappings of other scripts are not modelled, and neither are multi-character mappings.
- Sessions.Registry.CreateClaim: the exact text of Python's duplicate-keyword TypeError is not modelled; only the exception kind is stated. Keyword names that would bind to `create_claim`'s own parameters (`self`, `session`, `content`, `confidence`) are excluded by its precondition, since Python never passes them through `**kw`.

## Findings

| source | as written | input that shows it | evidently intended | confidence | as-written member | corrected member |
|---|---|---|---|---|---|---|
| python/src/vlp/runtime.py:177-189 | `to_ndjson` writes `json.dumps(m, ensure_ascii=False)` lines joined by "\n"; `from_ndjson` splits with `splitlines()`, which also breaks at U+0085, U+2028 and U+2029, characters `dumps` leaves unescaped | a message whose content is the one character U+2028: its line {"c": "<U+2028>"} is split into {"c": " and "}, neither of which is JSON | `from_ndjson(to_ndjson(ms)) == ms` for every list of messages: frame on "\n" only | high, not executed | Ndjson.LineSeparatorExample | Ndjson.NdjsonFixedRoundTrip |
