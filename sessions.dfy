/** Agent sessions: a session numbers the messages of one agent and builds
    session-scoped ids; the registry maps session ids to the live sessions
    and wraps make_message for session-context and claim messages. The clock
    and uuid4() are parameters: `date` is the UTC date as %Y-%m-%d, the
    timestamps are ISO texts, and `uuidHex` is the 32 hex digits of a fresh
    uuid4(). */
module Sessions {
  import opened Text
  import opened Values
  import opened Runtime

  // ---------------------------------------------------------------------------
  // Session ids
  // ---------------------------------------------------------------------------

  /** s[:n]: the first n characters, or all of a shorter text. */
  function Prefix(s: string, n: nat): (r: string)
    ensures |r| == (if |s| < n then |s| else n) && r == s[..|r|]
    ensures forall c :: c in r ==> c in s
    ensures !HasUpper(s) ==> !HasUpper(r)
  {
    if |s| <= n then s
    else
      assert forall i :: 0 <= i < n ==> s[..n][i] == s[i];
      s[..n]
  }

  /** s[-6:]: the last six characters, or all of a shorter text. */
  function LastSix(s: string): (r: string)
    ensures |r| == if |s| < 6 then |s| else 6
  {
    if |s| <= 6 then s else s[|s| - 6..]
  }

  /** The agent name lower-cased, every "the " removed and every space
      turned into a hyphen: no space and no capital is left. */
  function Hyphenated(agentName: string): (d: string)
    ensures ' ' !in d && !HasUpper(d)
  {
    var lowered := Lower(agentName);
    var dropped := Replace(lowered, "the ", "");
    ReplaceKeepsLower(lowered, "the ", "");
    ReplaceKeepsLower(dropped, " ", "-");
    ReplaceRemovesChar(dropped, ' ', "-");
    Replace(dropped, " ", "-")
  }

  /** The agent slug of a session id: the first twelve characters of the
      hyphenated name, or all of a shorter one. It has no space and no
      capital. */
  function Slug(agentName: string): (slug: string)
    ensures var d := Hyphenated(agentName);
      |slug| == (if |d| < 12 then |d| else 12) && slug == d[..|slug|]
    ensures ' ' !in slug && !HasUpper(slug)
  {
    Prefix(Hyphenated(agentName), 12)
  }

  /** _generate_session_id: S-{date}-{slug}-{first six hex digits}. The id
      starts with "S-", is ten characters longer than date and slug
      together, and ends with the first six hex digits of the uuid. */
  function SessionId(agentName: string, date: string, uuidHex: UuidHex): (id: string)
    ensures |id| == |date| + |Slug(agentName)| + 10
    ensures id[..2] == "S-" && LastSix(id) == uuidHex[..6]
  {
    var id := "S-" + date + "-" + Slug(agentName) + "-" + uuidHex[..6];
    assert id[|id| - 6..] == uuidHex[..6];
    id
  }

  /** A session id carries the slug after the date, and its last six
      characters are hex digits. */
  lemma SessionIdShape(agentName: string, date: string, uuidHex: UuidHex)
    ensures var id := SessionId(agentName, date, uuidHex);
      && id[3 + |date|..3 + |date| + |Slug(agentName)|] == Slug(agentName)
      && forall i :: 0 <= i < 6 ==> IsHexDigit(LastSix(id)[i])
  {
    var id := SessionId(agentName, date, uuidHex);
    var slug := Slug(agentName);
    assert id == "S-" + date + "-" + slug + "-" + uuidHex[..6];
  }

  /* The slug examples take their literal texts as parameters fixed by
     `requires`: each helper then proves one small fact about one literal
     (its lower-case form, the characters it lacks), which keeps every proof
     about literals short. */

  /** The slug of the session-id test: the article goes, the rest is kept. */
  lemma SlugExample(name: string)
    requires name == "The Observer"
    ensures Slug(name) == "observer"
  {
    var rest := "observer";
    ObserverLowered(name, rest);
    assert 't' !in rest && ' ' !in rest by {
      forall i | 0 <= i < |rest| ensures rest[i] != 't' && rest[i] != ' ' { }
    }
    ReplaceAroundMatch([], "the ", "", rest);
    assert [] + "the " + rest == "the " + rest && [] + "" + rest == rest;
    ReplaceAbsent(rest, " ", "-");
  }

  lemma ObserverLowered(name: string, rest: string)
    requires name == "The Observer" && rest == "observer"
    ensures Lower(name) == "the " + rest
  {
    var a, b := "The ", "Observer";
    assert name == a + b;
    LowerAppend(a, b);
    LowerThe(a, "the ");
    LowerObserver(b, rest);
  }

  lemma LowerThe(w: string, l: string)
    requires w == "The " && l == "the "
    ensures Lower(w) == l
  {
    var lw := Lower(w);
    forall i | 0 <= i < |w| ensures lw[i] == l[i] { }
  }

  lemma LowerObserver(w: string, l: string)
    requires w == "Observer" && l == "observer"
    ensures Lower(w) == l
  {
    var lw := Lower(w);
    forall i | 0 <= i < |w| ensures lw[i] == l[i] { }
  }

  /** An article inside the name goes too: "Bob the Builder" -> "bob-builder". */
  lemma SlugInnerArticle(name: string)
    requires name == "Bob the Builder"
    ensures Slug(name) == "bob-builder"
  {
    var bob, tail := "bob", "builder";
    var head := bob + " ";
    BuilderLowered(name, head, tail);
    BuilderWords(bob, tail);
    ReplaceAroundMatch(head, "the ", "", tail);
    assert head + "" + tail == bob + " " + tail;
    ReplaceAroundMatch(bob, " ", "-", tail);
    assert bob + "-" + tail == "bob-builder";
  }

  lemma BuilderLowered(name: string, head: string, tail: string)
    requires name == "Bob the Builder" && head == "bob " && tail == "builder"
    ensures Lower(name) == head + "the " + tail
  {
    var a, b := "Bob the ", "Builder";
    assert name == a + b;
    LowerAppend(a, b);
    LowerBobThe(a, head + "the ");
    LowerBuilder(b, tail);
  }

  lemma LowerBobThe(w: string, l: string)
    requires w == "Bob the " && l == "bob the "
    ensures Lower(w) == l
  {
    var lw := Lower(w);
    forall i | 0 <= i < |w| ensures lw[i] == l[i] { }
  }

  lemma LowerBuilder(w: string, l: string)
    requires w == "Builder" && l == "builder"
    ensures Lower(w) == l
  {
    var lw := Lower(w);
    forall i | 0 <= i < |w| ensures lw[i] == l[i] { }
  }

  lemma BuilderWords(bob: string, tail: string)
    requires bob == "bob" && tail == "builder"
    ensures 't' !in bob + " " && 't' !in tail && ' ' !in bob && ' ' !in tail
  {
    forall i | 0 <= i < |tail| ensures tail[i] != 't' && tail[i] != ' ' { }
  }

  /** A name whose hyphenated form is longer than twelve characters is cut:
      "Bob the Builder Extraordinaire" -> "bob-builder-". */
  lemma SlugTruncated(name: string)
    requires name == "Bob the Builder Extraordinaire"
    ensures Slug(name) == "bob-builder-"
  {
    var bob, builder, ex, tr := "bob", "builder", "ex", "traordinaire";
    var rest := builder + " " + (ex + tr);
    ExtraordinaireLowered(name, bob, builder, ex, tr);
    ExtraordinaireChars(bob, builder, ex, tr);
    ReplaceFirstMatch(bob + " ", "the ", "", rest);
    NoArticleInRest(builder, ex, tr);
    assert bob + " " + "" + rest == bob + " " + rest;
    ReplaceFirstMatch(bob, " ", "-", rest);
    ReplaceAroundMatch(builder, " ", "-", ex + tr);
    var dropped := Replace(Lower(name), "the ", "");
    assert dropped == bob + " " + rest;
    var dashed := Replace(dropped, " ", "-");
    assert dashed == bob + "-" + (builder + "-" + (ex + tr));
    var head := bob + "-" + builder + "-";
    Regroup(bob, "-", builder, "-", ex + tr);
    assert Hyphenated(name) == head + (ex + tr);
    assert Slug(name) == head;
    TruncatedText(head, bob, builder);
  }

  lemma Regroup(a: string, b: string, c: string, d: string, e: string)
    ensures a + b + (c + d + e) == (a + b + c + d) + e
  {
  }

  lemma ExtraordinaireLowered(name: string, bob: string, builder: string, ex: string, tr: string)
    requires name == "Bob the Builder Extraordinaire"
    requires bob == "bob" && builder == "builder" && ex == "ex" && tr == "traordinaire"
    ensures Lower(name) == bob + " " + "the " + (builder + " " + (ex + tr))
  {
    var a, b, c := "Bob the ", "Builder", " Extraordinaire";
    var la, lc := "bob the ", " extraordinaire";
    NameParts(name, a, b, c);
    LowerAppend(a, b + c);
    LowerBobThe(a, la);
    LowerBuilderExtraordinaire(b, c, builder, lc);
    LoweredParts(la, lc, bob, ex, tr);
    Regroup3(la, builder, " ", ex + tr);
  }

  lemma Regroup3(p: string, q: string, r: string, s: string)
    ensures p + (q + (r + s)) == p + (q + r + s)
  {
  }

  lemma LowerBuilderExtraordinaire(b: string, c: string, builder: string, lc: string)
    requires b == "Builder" && c == " Extraordinaire" && builder == "builder" && lc == " extraordinaire"
    ensures Lower(b + c) == builder + lc
  {
    LowerAppend(b, c);
    LowerBuilder(b, builder);
    LowerExtraordinaire(c, lc);
  }

  lemma NameParts(name: string, a: string, b: string, c: string)
    requires name == "Bob the Builder Extraordinaire"
    requires a == "Bob the " && b == "Builder" && c == " Extraordinaire"
    ensures name == a + (b + c)
  {
  }

  lemma LoweredParts(la: string, lc: string, bob: string, ex: string, tr: string)
    requires la == "bob the " && lc == " extraordinaire"
    requires bob == "bob" && ex == "ex" && tr == "traordinaire"
    ensures la == bob + " " + "the " && lc == " " + (ex + tr)
  {
  }

  lemma LowerExtraordinaire(w: string, l: string)
    requires w == " Extraordinaire" && l == " extraordinaire"
    ensures Lower(w) == l
  {
    var lw := Lower(w);
    forall i | 0 <= i < |w| ensures lw[i] == l[i] { }
  }

  lemma ExtraordinaireChars(bob: string, builder: string, ex: string, tr: string)
    requires bob == "bob" && builder == "builder" && ex == "ex" && tr == "traordinaire"
    ensures 't' !in bob + " " && ' ' !in bob && 't' !in builder && ' ' !in builder
    ensures 't' !in ex && ' ' !in ex + tr
    ensures |tr| >= 4 && tr[1] == 'r' && 't' !in tr[1..]
  {
  }

  /** "builder extraordinaire" holds no "the ": its one 't' starts "tr". */
  lemma NoArticleInRest(builder: string, ex: string, tr: string)
    requires 't' !in builder && 't' !in ex && |tr| >= 4 && tr[1] == 'r' && 't' !in tr[1..]
    ensures Replace(builder + " " + (ex + tr), "the ", "") == builder + " " + (ex + tr)
  {
    var head := builder + " " + ex;
    assert builder + " " + (ex + tr) == head + tr;
    ReplaceKeepPrefix(head, "the ", "", tr);
    assert tr[..4][1] != "the "[1];
    ReplaceNoMatchHere(tr, "the ", "");
    ReplaceAbsent(tr[1..], "the ", "");
    assert [tr[0]] + tr[1..] == tr;
  }

  lemma TruncatedText(head: string, bob: string, builder: string)
    requires bob == "bob" && builder == "builder" && head == bob + "-" + builder + "-"
    ensures head == "bob-builder-"
  {
  }

  /** The hyphen count of a session id: with a %Y-%m-%d date and a slug
      without hyphens it splits into six fields on "-", not four. */
  lemma SessionIdFields(agentName: string, year: string, month: string, day: string, uuidHex: UuidHex)
    requires '-' !in year && '-' !in month && '-' !in day && '-' !in Slug(agentName)
    ensures Split(SessionId(agentName, year + "-" + month + "-" + day, uuidHex), '-')
      == ["S", year, month, day, Slug(agentName), uuidHex[..6]]
  {
    assert '-' !in uuidHex[..6] by {
      forall i | 0 <= i < 6 ensures uuidHex[..6][i] != '-' { assert IsHexDigit(uuidHex[i]); }
    }
    DashedFields(year, month, day, Slug(agentName), uuidHex[..6]);
  }

  /** The id text S-{date}-{slug}-{hex} splits on "-" into its six parts
      when none of them holds a hyphen. */
  lemma DashedFields(year: string, month: string, day: string, slug: string, hex: string)
    requires '-' !in year && '-' !in month && '-' !in day && '-' !in slug && '-' !in hex
    ensures Split("S-" + (year + "-" + month + "-" + day) + "-" + slug + "-" + hex, '-')
      == ["S", year, month, day, slug, hex]
  {
    DateFields(year, month, day);
    IdFields(year + "-" + month + "-" + day, [year, month, day], slug, hex);
  }

  /** A %Y-%m-%d date splits into its three numbers. */
  lemma DateFields(year: string, month: string, day: string)
    requires '-' !in year && '-' !in month && '-' !in day
    ensures Split(year + "-" + month + "-" + day, '-') == [year, month, day]
  {
    SplitAppend(year + "-" + month, '-', day);
    SplitAppend(year, '-', month);
  }

  /** S-{date}-{slug}-{hex} splits into "S", the fields of the date, the
      slug and the hex digits. */
  lemma IdFields(date: string, dateFields: seq<string>, slug: string, hex: string)
    requires Split(date, '-') == dateFields && '-' !in slug && '-' !in hex
    ensures Split("S-" + date + "-" + slug + "-" + hex, '-') == ["S"] + dateFields + [slug, hex]
  {
    var head := "S-" + date;
    assert Split(head, '-') == ["S"] + dateFields by {
      assert head == "S" + ['-'] + date;
      SplitAppend("S", '-', date);
      assert '-' !in "S";
    }
    SplitAppend(head, '-', slug);
    SplitAppend(head + "-" + slug, '-', hex);
  }

  // ---------------------------------------------------------------------------
  // Message ids
  // ---------------------------------------------------------------------------

  /** f"{n:04d}": the digits of n, padded with zeros to four; a number of more
      than four digits keeps all of them. int() reads back n. */
  function SeqText(n: nat): (r: string)
    ensures |r| == if |Decimal(n)| < 4 then 4 else |Decimal(n)|
    ensures AllDigits(r) && DecimalValue(r) == n
  {
    var digits := Decimal(n);
    var pad := if |digits| < 4 then 4 - |digits| else 0;
    LeadingZeros(pad, digits);
    DecimalRoundTrip(n);
    Zeros(pad) + digits
  }

  /** The session-scoped message id {prefix}-{last six of the session id}-{n:04d}:
      it starts with the prefix and a hyphen, and ends with the padded
      number, which reads back as n. */
  function MessageIdText(prefix: string, sessionId: string, n: nat): (id: string)
    ensures |id| == |prefix| + |LastSix(sessionId)| + |SeqText(n)| + 2
    ensures id[..|prefix| + 1] == prefix + "-"
    ensures var digits := id[|id| - |SeqText(n)|..]; AllDigits(digits) && DecimalValue(digits) == n
  {
    var id := prefix + "-" + LastSix(sessionId) + "-" + SeqText(n);
    assert id[|id| - |SeqText(n)|..] == SeqText(n);
    assert id[..|prefix| + 1] == prefix + "-";
    id
  }

  /** int(id.split("-")[-1]) reads back the sequence number of the id. */
  lemma MessageIdSeq(prefix: string, sessionId: string, n: nat)
    ensures var f := Split(MessageIdText(prefix, sessionId, n), '-');
      AllDigits(f[|f| - 1]) && DecimalValue(f[|f| - 1]) == n
  {
    var head := prefix + "-" + LastSix(sessionId);
    var digits := SeqText(n);
    SeqTextNoHyphen(n);
    TrailingNumber(MessageIdText(prefix, sessionId, n), head, digits, n);
  }

  /** The last "-" field of a text ending in "-" and a hyphen-free numeral
      reads back as that numeral's value. */
  lemma TrailingNumber(id: string, head: string, digits: string, n: nat)
    requires id == head + ['-'] + digits
    requires '-' !in digits && AllDigits(digits) && DecimalValue(digits) == n
    ensures var f := Split(id, '-'); AllDigits(f[|f| - 1]) && DecimalValue(f[|f| - 1]) == n
  {
    LastField(head, '-', digits);
  }

  /** The padded number holds no hyphen. */
  lemma SeqTextNoHyphen(n: nat)
    ensures '-' !in SeqText(n)
  {
    var digits := SeqText(n);
    forall i | 0 <= i < |digits| ensures digits[i] != '-' { assert IsDigit(digits[i]); }
  }

  /** With a prefix and a session-id tail free of hyphens, the id splits into
      exactly its three parts. */
  lemma MessageIdFields(prefix: string, sessionId: string, n: nat)
    requires '-' !in prefix && '-' !in LastSix(sessionId)
    ensures Split(MessageIdText(prefix, sessionId, n), '-') == [prefix, LastSix(sessionId), SeqText(n)]
  {
    var parts := [prefix, LastSix(sessionId), SeqText(n)];
    SeqTextNoHyphen(n);
    JoinCons(prefix, [LastSix(sessionId), SeqText(n)], "-");
    JoinCons(LastSix(sessionId), [SeqText(n)], "-");
    assert parts == [prefix] + [LastSix(sessionId), SeqText(n)];
    assert [LastSix(sessionId), SeqText(n)] == [LastSix(sessionId)] + [SeqText(n)];
    assert Join(parts, "-") == MessageIdText(prefix, sessionId, n);
    SplitJoin(parts, '-');
  }

  // ---------------------------------------------------------------------------
  // AgentSession
  // ---------------------------------------------------------------------------

  class Session {
    const agentName: string
    const agentNumber: int
    const sessionId: string
    const startedAt: string
    var seqNo: nat

    /** A new session: its id built from the name, the date and the uuid, and
        a counter at 0. */
    constructor(agentName: string, date: string, uuidHex: UuidHex, startedAt: string, agentNumber: int := 0)
      ensures this.agentName == agentName && this.agentNumber == agentNumber
      ensures sessionId == SessionId(agentName, date, uuidHex) && this.startedAt == startedAt
      ensures seqNo == 0
    {
      this.agentName := agentName;
      this.agentNumber := agentNumber;
      sessionId := SessionId(agentName, date, uuidHex);
      this.startedAt := startedAt;
      seqNo := 0;
    }

    /** next_seq: the counter goes up by one and the new value is returned. */
    method NextSeq() returns (n: nat)
      modifies this`seqNo
      ensures seqNo == old(seqNo) + 1 && n == seqNo
    {
      seqNo := seqNo + 1;
      n := seqNo;
    }

    /** message_id: takes the next sequence number and builds the id from it. */
    method MessageId(prefix: string := "MSG") returns (id: string)
      modifies this`seqNo
      ensures seqNo == old(seqNo) + 1
      ensures id == MessageIdText(prefix, sessionId, seqNo)
    {
      var n := NextSeq();
      id := MessageIdText(prefix, sessionId, n);
    }
  }

  // ---------------------------------------------------------------------------
  // AgentSessionRegistry
  // ---------------------------------------------------------------------------

  /** The keyword arguments end_session passes to make_message, for a session
      whose counter was at `n` before the call. */
  function ContextArgs(
    sessionId: string, agentNumber: int, startedAt: string, endedAt: string, n: nat): map<string, Value>
  {
    map[
      "session_id" := Str(sessionId),
      "id" := Str(MessageIdText("CTX", sessionId, n + 1)),
      "seq" := Num((n + 2) as real),
      "confidence" := Num(1.0),
      "provenance" := List([Str("agent_session"), Str("agent_" + IntText(agentNumber))]),
      "payload" := Dict(map[
        "agent_number" := Num(agentNumber as real),
        "started_at" := Str(startedAt),
        "ended_at" := Str(endedAt),
        "total_messages" := Num((n + 2) as real)
      ])
    ]
  }

  /** `summary or f"Session ended for {name}"` */
  function ContextContent(summary: string, agentName: string): string {
    if summary != "" then summary else "Session ended for " + agentName
  }

  /** The keyword names make_message already receives from create_claim: a
      caller's keyword argument with one of these names is a TypeError. */
  predicate ClashesWithClaim(kw: map<string, Value>) {
    "type_" in kw || "sender" in kw || "session_id" in kw || "id" in kw || "seq" in kw
  }

  /** The keyword arguments create_claim passes to make_message, for a session
      whose counter was at `n` before the call. */
  function ClaimArgs(
    kw: map<string, Value>, sessionId: string, confidence: Value, n: nat): map<string, Value>
  {
    kw + map[
      "session_id" := Str(sessionId),
      "id" := Str(MessageIdText("CLM", sessionId, n + 1)),
      "seq" := Num((n + 2) as real),
      "confidence" := confidence
    ]
  }

  class Registry {
    var sessions: map<string, Session>

    /** Every session is registered under its own id. */
    predicate Valid()
      reads this
    {
      forall id :: id in sessions ==> sessions[id].sessionId == id
    }

    constructor()
      ensures sessions == map[] && Valid()
    {
      sessions := map[];
    }

    /** start_session: a new session, registered under its id (replacing any
        session registered under the same id). */
    method StartSession(agentName: string, date: string, uuidHex: UuidHex, startedAt: string, agentNumber: int := 0)
      returns (s: Session)
      requires Valid()
      modifies this
      ensures fresh(s) && s.seqNo == 0
      ensures s.agentName == agentName && s.agentNumber == agentNumber
      ensures s.sessionId == SessionId(agentName, date, uuidHex) && s.startedAt == startedAt
      ensures sessions == old(sessions)[s.sessionId := s]
      ensures Valid()
    {
      s := new Session(agentName, date, uuidHex, startedAt, agentNumber);
      sessions := sessions[s.sessionId := s];
    }

    /** get_session: the session registered under `id`, or None. */
    method GetSession(id: string) returns (s: Session?)
      requires Valid()
      ensures id in sessions ==> s == sessions[id]
      ensures id !in sessions ==> s == null
      ensures s != null ==> s.sessionId == id
    {
      s := if id in sessions then sessions[id] else null;
    }

    /** end_session: builds the session_context message (advancing the counter
        twice, once for the id and once for the seq field) and, when
        make_message returns, removes the session's id from the registry.
        Every other entry stays; an id no longer registered is no error. */
    method EndSession(
      session: Session, summary: string, schema: SchemaCheck,
      endedAt: string, now: string, uuidHex: UuidHex)
      returns (r: Result<Message>)
      requires Valid()
      modifies this`sessions, session`seqNo
      ensures session.seqNo == old(session.seqNo) + 2
      ensures r == MadeMessage(schema, "session_context", session.agentName,
        Str(ContextContent(summary, session.agentName)),
        ContextArgs(session.sessionId, session.agentNumber, session.startedAt, endedAt, old(session.seqNo)),
        uuidHex, now)
      ensures sessions == if r.Ok? then old(sessions) - {session.sessionId} else old(sessions)
      ensures Valid()
    {
      var content := ContextContent(summary, session.agentName);
      ghost var n := session.seqNo;
      var id := session.MessageId("CTX");
      var next := session.NextSeq();
      var payload := Dict(map[
        "agent_number" := Num(session.agentNumber as real),
        "started_at" := Str(session.startedAt),
        "ended_at" := Str(endedAt),
        "total_messages" := Num(session.seqNo as real)
      ]);
      var kw := map[
        "session_id" := Str(session.sessionId),
        "id" := Str(id),
        "seq" := Num(next as real),
        "confidence" := Num(1.0),
        "provenance" := List([Str("agent_session"), Str("agent_" + IntText(session.agentNumber))]),
        "payload" := payload
      ];
      assert kw == ContextArgs(session.sessionId, session.agentNumber, session.startedAt, endedAt, n);
      r := MakeMessage(schema, "session_context", session.agentName, Str(content), kw, uuidHex, now);
      if r.Ok? {
        sessions := sessions - {session.sessionId};
      }
    }

    /** create_claim: a claim stamped with the session's id, its id and seq
        taken from the session counter (which advances twice). A caller's
        keyword argument that make_message already receives from
        create_claim is a TypeError, raised after both advances. */
    method CreateClaim(
      session: Session, content: string, kw: map<string, Value>, schema: SchemaCheck,
      now: string, uuidHex: UuidHex, confidence: Value := Num(0.9))
      returns (r: Result<Message>)
      requires "self" !in kw && "session" !in kw && "content" !in kw && "confidence" !in kw
      modifies session`seqNo
      ensures session.seqNo == old(session.seqNo) + 2
      ensures ClashesWithClaim(kw) ==> r.Raise? && r.error.TypeError?
      ensures !ClashesWithClaim(kw) ==>
        r == MadeMessage(schema, "claim", session.agentName, Str(content),
          ClaimArgs(kw, session.sessionId, confidence, old(session.seqNo)), uuidHex, now)
    {
      ghost var n := session.seqNo;
      var id := session.MessageId("CLM");
      var next := session.NextSeq();
      if ClashesWithClaim(kw) {
        return Raise(TypeError("make_message() got multiple values for a keyword argument"));
      }
      var args := kw + map[
        "session_id" := Str(session.sessionId),
        "id" := Str(id),
        "seq" := Num(next as real),
        "confidence" := confidence
      ];
      assert args == ClaimArgs(kw, session.sessionId, confidence, n);
      r := MakeMessage(schema, "claim", session.agentName, Str(content), args, uuidHex, now);
    }
  }

  // ---------------------------------------------------------------------------
  // The messages of a session
  // ---------------------------------------------------------------------------

  /** The two session message types are already stripped and lower-case. */
  lemma SessionTypes()
    ensures Lower(Strip("session_context")) == "session_context"
    ensures Lower(Strip("claim")) == "claim"
  {
    StripStripped("session_context");
    StripStripped("claim");
    assert !HasUpper("session_context") by {
      forall i | 0 <= i < |"session_context"| ensures !IsUpper("session_context"[i]) { }
    }
    assert !HasUpper("claim") by {
      forall i | 0 <= i < |"claim"| ensures !IsUpper("claim"[i]) { }
    }
  }

  /** What make_message reads from end_session's keyword arguments. */
  lemma ContextArgsRead(sessionId: string, agentNumber: int, startedAt: string, endedAt: string, n: nat)
    ensures var kw := ContextArgs(sessionId, agentNumber, startedAt, endedAt, n);
      && GetOr(kw, "provenance", List([])) == List([Str("agent_session"), Str("agent_" + IntText(agentNumber))])
      && GetOr(kw, "constraints", List([])) == List([])
      && GetOr(kw, "safety", Dict(DefaultSafety())) == Dict(DefaultSafety())
      && GetOr(kw, "keywords", List([])) == List([])
      && ConfidenceArg(kw) == Num(1.0)
      && GetOr(kw, "id", Null) == Str(MessageIdText("CTX", sessionId, n + 1))
      && GetOr(kw, "session_id", Null) == Str(sessionId)
      && GetOr(kw, "seq", Null) == Num((n + 2) as real)
      && GetOr(kw, "refers_to", Null) == Null
      && GetOr(kw, "payload", Null) == Dict(map[
           "agent_number" := Num(agentNumber as real), "started_at" := Str(startedAt),
           "ended_at" := Str(endedAt), "total_messages" := Num((n + 2) as real)])
  {
    ContextArgsDefaults(sessionId, agentNumber, startedAt, endedAt, n);
    ContextArgsStamp(sessionId, agentNumber, startedAt, endedAt, n);
  }

  lemma ContextArgsDefaults(sessionId: string, agentNumber: int, startedAt: string, endedAt: string, n: nat)
    ensures var kw := ContextArgs(sessionId, agentNumber, startedAt, endedAt, n);
      && GetOr(kw, "provenance", List([])) == List([Str("agent_session"), Str("agent_" + IntText(agentNumber))])
      && GetOr(kw, "constraints", List([])) == List([])
      && GetOr(kw, "safety", Dict(DefaultSafety())) == Dict(DefaultSafety())
      && GetOr(kw, "keywords", List([])) == List([])
      && ConfidenceArg(kw) == Num(1.0)
  {
  }

  lemma ContextArgsStamp(sessionId: string, agentNumber: int, startedAt: string, endedAt: string, n: nat)
    ensures var kw := ContextArgs(sessionId, agentNumber, startedAt, endedAt, n);
      && GetOr(kw, "id", Null) == Str(MessageIdText("CTX", sessionId, n + 1))
      && GetOr(kw, "session_id", Null) == Str(sessionId)
      && GetOr(kw, "seq", Null) == Num((n + 2) as real)
      && GetOr(kw, "refers_to", Null) == Null
      && GetOr(kw, "payload", Null) == Dict(map[
           "agent_number" := Num(agentNumber as real), "started_at" := Str(startedAt),
           "ended_at" := Str(endedAt), "total_messages" := Num((n + 2) as real)])
  {
  }

  /** The session_context message of end_session, for a session whose counter
      was at `n`: its id embeds n + 1, its seq field and total_messages are
      n + 2, its confidence of 1.0 comes with provenance and its safety is
      the default one, never escalated. */
  lemma SessionContextFields(
    agentName: string, agentNumber: int, sessionId: string,
    startedAt: string, endedAt: string, n: nat, summary: string, uuidHex: UuidHex, now: string)
    ensures
      var content := Str(ContextContent(summary, agentName));
      var kw := ContextArgs(sessionId, agentNumber, startedAt, endedAt, n);
      Includes(Candidate("session_context", agentName, content, kw, 1.0, uuidHex, now), map[
        "protocol" := Str(Protocol),
        "type" := Str("session_context"),
        "sender" := Str(agentName),
        "content" := content,
        "id" := Str(MessageIdText("CTX", sessionId, n + 1)),
        "session_id" := Str(sessionId),
        "seq" := Num((n + 2) as real),
        "payload" := Dict(map[
          "agent_number" := Num(agentNumber as real), "started_at" := Str(startedAt),
          "ended_at" := Str(endedAt), "total_messages" := Num((n + 2) as real)]),
        "refers_to" := Null,
        "confidence" := Num(1.0),
        "provenance" := List([Str("agent_session"), Str("agent_" + IntText(agentNumber))]),
        "safety" := Dict(DefaultSafety())
      ])
  {
    var content := Str(ContextContent(summary, agentName));
    var kw := ContextArgs(sessionId, agentNumber, startedAt, endedAt, n);
    ContextArgsRead(sessionId, agentNumber, startedAt, endedAt, n);
    ContextArgsDerived(sessionId, agentNumber, startedAt, endedAt, n);
    SessionTypes();
    CandidateFields("session_context", agentName, content, kw, 1.0, uuidHex, now);
  }

  /** What make_message derives from end_session's arguments: the provenance
      list as given, the default safety left alone, and a truthy id. */
  lemma ContextArgsDerived(sessionId: string, agentNumber: int, startedAt: string, endedAt: string, n: nat)
    ensures var kw := ContextArgs(sessionId, agentNumber, startedAt, endedAt, n);
      var provenance := [Str("agent_session"), Str("agent_" + IntText(agentNumber))];
      && AsList(GetOr(kw, "provenance", List([]))) == provenance
      && Escalate(1.0, provenance, NormalizeSafety(GetOr(kw, "safety", Dict(DefaultSafety())))) == DefaultSafety()
      && Truthy(GetOr(kw, "id", Null))
  {
    ContextArgsRead(sessionId, agentNumber, startedAt, endedAt, n);
  }

  /** end_session's make_message call returns its message exactly when the
      schema accepts it: the type needs no reference and the confidence is
      earned, so no semantic rule can fail. */
  lemma SessionContextOutcome(
    schema: SchemaCheck, agentName: string, agentNumber: int, sessionId: string,
    startedAt: string, endedAt: string, n: nat, summary: string, uuidHex: UuidHex, now: string)
    ensures
      var content := Str(ContextContent(summary, agentName));
      var kw := ContextArgs(sessionId, agentNumber, startedAt, endedAt, n);
      var m := Candidate("session_context", agentName, content, kw, 1.0, uuidHex, now);
      MadeMessage(schema, "session_context", agentName, content, kw, uuidHex, now) == SchemaOutcome(schema, m)
  {
    var content := Str(ContextContent(summary, agentName));
    var kw := ContextArgs(sessionId, agentNumber, startedAt, endedAt, n);
    assert ConfidenceArg(kw) == Num(1.0) by {
      ContextArgsRead(sessionId, agentNumber, startedAt, endedAt, n);
    }
    SessionTypes();
    MadeMessageReferenceFree(schema, "session_context", agentName, content, kw, uuidHex, now);
  }

  /** What make_message reads from create_claim's keyword arguments: the
      caller's own arguments, except for the four create_claim sets. */
  lemma ClaimArgsRead(kw: map<string, Value>, sessionId: string, confidence: Value, n: nat)
    ensures var args := ClaimArgs(kw, sessionId, confidence, n);
      && GetOr(args, "provenance", List([])) == GetOr(kw, "provenance", List([]))
      && GetOr(args, "constraints", List([])) == GetOr(kw, "constraints", List([]))
      && GetOr(args, "safety", Dict(DefaultSafety())) == GetOr(kw, "safety", Dict(DefaultSafety()))
      && GetOr(args, "keywords", List([])) == GetOr(kw, "keywords", List([]))
      && GetOr(args, "payload", Null) == GetOr(kw, "payload", Null)
      && GetOr(args, "refers_to", Null) == GetOr(kw, "refers_to", Null)
      && ConfidenceArg(args) == confidence
      && GetOr(args, "id", Null) == Str(MessageIdText("CLM", sessionId, n + 1))
      && GetOr(args, "session_id", Null) == Str(sessionId)
      && GetOr(args, "seq", Null) == Num((n + 2) as real)
  {
    ClaimArgsPassed(kw, sessionId, confidence, n);
    ClaimArgsStamp(kw, sessionId, confidence, n);
  }

  lemma ClaimArgsPassed(kw: map<string, Value>, sessionId: string, confidence: Value, n: nat)
    ensures var args := ClaimArgs(kw, sessionId, confidence, n);
      && GetOr(args, "provenance", List([])) == GetOr(kw, "provenance", List([]))
      && GetOr(args, "constraints", List([])) == GetOr(kw, "constraints", List([]))
      && GetOr(args, "safety", Dict(DefaultSafety())) == GetOr(kw, "safety", Dict(DefaultSafety()))
      && GetOr(args, "keywords", List([])) == GetOr(kw, "keywords", List([]))
      && GetOr(args, "payload", Null) == GetOr(kw, "payload", Null)
      && GetOr(args, "refers_to", Null) == GetOr(kw, "refers_to", Null)
  {
  }

  lemma ClaimArgsStamp(kw: map<string, Value>, sessionId: string, confidence: Value, n: nat)
    ensures var args := ClaimArgs(kw, sessionId, confidence, n);
      && ConfidenceArg(args) == confidence
      && GetOr(args, "id", Null) == Str(MessageIdText("CLM", sessionId, n + 1))
      && GetOr(args, "session_id", Null) == Str(sessionId)
      && GetOr(args, "seq", Null) == Num((n + 2) as real)
  {
  }

  /** The claim of create_claim, for a session whose counter was at `n` and a
      confidence argument float() accepts: a "claim" from the agent, stamped
      with the session id, its id embedding n + 1 and its seq field n + 2. */
  lemma ClaimFields(
    agentName: string, sessionId: string, content: string, kw: map<string, Value>,
    confidence: Value, n: nat, uuidHex: UuidHex, now: string)
    requires Float(confidence).Ok?
    ensures
      var c := Float(confidence).value;
      var args := ClaimArgs(kw, sessionId, confidence, n);
      var provenance := AsList(GetOr(kw, "provenance", List([])));
      Includes(Candidate("claim", agentName, Str(content), args, c, uuidHex, now), map[
        "protocol" := Str(Protocol),
        "type" := Str("claim"),
        "sender" := Str(agentName),
        "content" := Str(content),
        "id" := Str(MessageIdText("CLM", sessionId, n + 1)),
        "session_id" := Str(sessionId),
        "seq" := Num((n + 2) as real),
        "payload" := GetOr(kw, "payload", Null),
        "refers_to" := GetOr(kw, "refers_to", Null),
        "confidence" := Num(c),
        "provenance" := List(provenance),
        "safety" := Dict(Escalate(c, provenance, NormalizeSafety(GetOr(kw, "safety", Dict(DefaultSafety())))))
      ])
  {
    var c := Float(confidence).value;
    var args := ClaimArgs(kw, sessionId, confidence, n);
    ClaimArgsRead(kw, sessionId, confidence, n);
    SessionTypes();
    assert Truthy(GetOr(args, "id", Null));
    CandidateFields("claim", agentName, Str(content), args, c, uuidHex, now);
  }

  /** create_claim's make_message call raises what float() raises for a bad
      confidence; otherwise it returns its claim exactly when the schema
      accepts it, since a claim needs no reference and its confidence is
      escalated when unearned. */
  lemma ClaimOutcome(
    schema: SchemaCheck, agentName: string, sessionId: string, content: string,
    kw: map<string, Value>, confidence: Value, n: nat, uuidHex: UuidHex, now: string)
    ensures
      var args := ClaimArgs(kw, sessionId, confidence, n);
      var conf := Float(confidence);
      MadeMessage(schema, "claim", agentName, Str(content), args, uuidHex, now) ==
        if conf.Raise? then Raise(conf.error)
        else SchemaOutcome(schema, Candidate("claim", agentName, Str(content), args, conf.value, uuidHex, now))
  {
    var args := ClaimArgs(kw, sessionId, confidence, n);
    assert ConfidenceArg(args) == confidence by {
      ClaimArgsRead(kw, sessionId, confidence, n);
    }
    SessionTypes();
    MadeMessageReferenceFree(schema, "claim", agentName, Str(content), args, uuidHex, now);
  }

  /** With the default confidence of 0.9 and no provenance or safety given, a
      claim is flagged for review with the missing-provenance issue. */
  lemma ClaimEscalatedByDefault(
    agentName: string, sessionId: string, content: string, kw: map<string, Value>,
    n: nat, uuidHex: UuidHex, now: string)
    requires "provenance" !in kw && "safety" !in kw
    ensures
      var args := ClaimArgs(kw, sessionId, Num(0.9), n);
      var m := Candidate("claim", agentName, Str(content), args, 0.9, uuidHex, now);
      m["safety"] == Dict(map["level" := Str("review"), "issues" := List([MissingProvenanceIssue])])
  {
    var args := ClaimArgs(kw, sessionId, Num(0.9), n);
    assert AsList(GetOr(args, "provenance", List([]))) == [] by {
      ClaimArgsRead(kw, sessionId, Num(0.9), n);
    }
    assert GetOr(args, "safety", Dict(DefaultSafety())) == Dict(DefaultSafety()) by {
      ClaimArgsRead(kw, sessionId, Num(0.9), n);
    }
    DefaultSafetyEscalated();
    CandidateFields("claim", agentName, Str(content), args, 0.9, uuidHex, now);
  }

  /** Confidence 0.9 without provenance escalates the default safety. */
  lemma DefaultSafetyEscalated()
    ensures Escalate(0.9, [], NormalizeSafety(Dict(DefaultSafety())))
      == map["level" := Str("review"), "issues" := List([MissingProvenanceIssue])]
  {
    var given := NormalizeSafety(Dict(DefaultSafety()));
    assert given == DefaultSafety();
    assert NeedsEscalation(0.9, [], given);
    assert given["issues"].items + [MissingProvenanceIssue] == [MissingProvenanceIssue];
    assert Escalate(0.9, [], given) == given["level" := Str("review")]["issues" := List([MissingProvenanceIssue])];
  }

  // ---------------------------------------------------------------------------
  // get_registry
  // ---------------------------------------------------------------------------

  /** The module-level `_registry` slot. */
  class RegistrySlot {
    var registry: Registry?

    constructor()
      ensures registry == null
    {
      registry := null;
    }

    /** get_registry: creates the registry on the first call and returns the
        same one on every later call. */
    method GetRegistry() returns (r: Registry)
      modifies this
      ensures old(registry) != null ==> r == old(registry)
      ensures old(registry) == null ==> fresh(r) && r.sessions == map[] && r.Valid()
      ensures registry == r
    {
      if registry == null {
        registry := new Registry();
      }
      r := registry;
    }
  }
}
