/**
 Bodies written as section 5.1.1 of RFC 2046 and section 4 of RFC 7578 prescribe are parsed back to
 the names, file names and contents they were written from, however they are cut.
 */
module MultipartRoundTrip {
  import opened Basics
  import opened Sequences
  import opened MultipartSpec
  import opened MultipartSlicing
  import opened MultipartHeaders

  /** The parts, each led by a boundary, and the closing boundary; `tail` is what follows its dashes. */
  function EncodeParts(boundary: string, parts: seq<Part>, tail: string): string {
    if parts == [] then boundary + "--" + tail
    else
      boundary + HeaderBlock(parts[0]) + BLANK_LINE + parts[0].content + CRLF
      + EncodeParts(boundary, parts[1..], tail)
  }

  /** A boundary as `SetContentType` makes it, free of line breaks. */
  predicate GoodBoundary(boundary: string) {
    |boundary| >= 2 && boundary[..2] == "--" && '\r' !in boundary
  }

  predicate GoodPreamble(boundary: string, preamble: string) {
    && (preamble == "" || (|preamble| >= 2 && preamble[|preamble| - 2..] == CRLF))
    && IndexOf(preamble, boundary) < 0
  }

  /** Text before the first boundary, and text after the last, that cannot be taken for more of the body. */
  predicate GoodSurroundings(boundary: string, preamble: string, tail: string) {
    && GoodPreamble(boundary, preamble)
    && IndexOf("--" + tail, BLANK_LINE) < 0
  }

  function IntendedFields(cfg: Config, parts: seq<Part>, fields: map<string, FieldView>): map<string, FieldView> {
    if parts == [] then fields
    else IntendedFields(cfg, parts[1..], fields[parts[0].name := Intended(cfg, parts[0])])
  }

  // ---- Finding where headers and contents end ----

  lemma HeadersEnd(p: Part, rest: string)
    requires Writable(p)
    ensures IndexOf(HeaderBlock(p) + BLANK_LINE + rest, BLANK_LINE) == |HeaderBlock(p)|
  {
    NoBlankInBlock(p);
    BlankAfter(HeaderBlock(p), rest);
  }

  /** Text that does not hold the boundary, then a line break: the boundary is found right after. */
  lemma BoundaryAfterLine(boundary: string, text: string, rest: string)
    requires GoodBoundary(boundary) && IndexOf(text, boundary) < 0
    ensures IndexOf(text + CRLF + (boundary + rest), boundary) == |text| + 2
  {
    var s := text + CRLF + (boundary + rest);
    forall j: nat | j < |text| + 2 ensures !OccursAt(s, boundary, j) {
      if j + |boundary| <= |text| {
        assert s == text + (CRLF + (boundary + rest));
        OccursInPrefix(text, CRLF + (boundary + rest), boundary, j);
      } else if j <= |text| {
        Mismatch(s, boundary, j, |text| - j);
      } else {
        assert boundary[0] == boundary[..2][0];
        Mismatch(s, boundary, j, 0);
      }
    }
    assert s[|text| + 2..|text| + 2 + |boundary|] == boundary;
    FirstIs(s, boundary, 0, |text| + 2);
  }

  lemma BoundaryAtOnce(boundary: string, rest: string)
    ensures IndexOf(boundary + rest, boundary) == 0
  {
    assert (boundary + rest)[0..|boundary|] == boundary;
  }

  // ---- Parsing a whole body ----

  /**
   The name is not mistaken for the start of a file name, or to no effect; and a text part has no file name in a later
   header.
   */
  predicate NameSurvives(p: Part) {
    match p.fileName
    case None => StaysText(p)
    case Some(fileName) => EndsInFilename(p.name) ==> fileName == FILE_PREFIX[..11]
  }

  predicate Storable(cfg: Config, p: Part) {
    p.fileName.Some? && cfg.storage == InFilesystem && cfg.tempDir == "" ==> p.content == ""
  }

  /** A field takes the content: it is text, or a file that has a place to go, or there is nothing to store. */
  predicate Takes(field: FieldView, content: string) {
    field.fieldType == FileType && field.storage == InFilesystem && field.tempDir == "" ==> content == ""
  }

  /** What the parser makes of a part whose content does not hold the boundary. */
  function Received(cfg: Config, p: Part): (FieldView, Option<Error>) {
    var (field, error) := FieldIn(cfg, HeaderBlock(p));
    if error.Some? then (field, error)
    else if Takes(field, p.content) then (field.(content := p.content), None)
    else (field, Some(NoTempDir))
  }

  /** The fields that a list of parts leaves behind, up to the first exception. */
  function ReceiveAll(cfg: Config, parts: seq<Part>, fields: map<string, FieldView>)
    : (map<string, FieldView>, Option<Error>)
  {
    if parts == [] then (fields, None)
    else
      var (field, error) := Received(cfg, parts[0]);
      var next := fields[parts[0].name := field];
      if error.Some? then (next, error) else ReceiveAll(cfg, parts[1..], next)
  }

  /** A block of headers before the first blank line. */
  lemma BlockIsParsed(cfg: Config, st: State, block: string, rest: string)
    requires st.buffer == block + BLANK_LINE + rest && IndexOf(st.buffer, BLANK_LINE) == |block|
    ensures var r := ParseHeaders(cfg, st, UntilNul(block));
            StepHeaders(cfg, st) ==
            if r.error.Some? then (r, false)
            else (Outcome(r.state.(buffer := rest, status := ProcessingContentOfTheField), None), true)
  {
    assert st.buffer[..|block|] == block && st.buffer[|block| + 4..] == rest;
  }

  /** From the bytes that follow a boundary to the field's content, or to an exception. */
  lemma HeadersOfPart(cfg: Config, st: State, p: Part, rest: string)
    requires Writable(p)
    requires st.status == ProcessingHeaders && st.buffer == HeaderBlock(p) + BLANK_LINE + rest
    ensures var (field, error) := FieldIn(cfg, HeaderBlock(p));
            var next := st.(name := p.name, fields := st.fields[p.name := field]);
            StepHeaders(cfg, st) ==
            if error.Some? then (Outcome(next, error), false)
            else (Outcome(next.(buffer := rest, status := ProcessingContentOfTheField), None), true)
  {
    var block := HeaderBlock(p);
    HeadersEnd(p, rest);
    NoBlankInBlock(p);
    NameIsRead(p);
    BlockIsParsed(cfg, st, block, rest);
  }

  lemma ContentOfPart(cfg: Config, st: State, content: string, rest: string)
    requires GoodBoundary(cfg.boundary) && IndexOf(content, cfg.boundary) < 0
    requires st.status == ProcessingContentOfTheField && st.name in st.fields
    requires st.fields[st.name].fieldType != Untyped && st.fields[st.name].content == ""
    requires st.buffer == content + CRLF + (cfg.boundary + rest)
    ensures var field := st.fields[st.name];
            StepContent(cfg, st) ==
            if content != "" && Store(field, content).1.Some? then (Outcome(st, Some(NoTempDir)), false)
            else (Outcome(State(LookingForStartingBoundary, CRLF + (cfg.boundary + rest), st.name,
                                st.fields[st.name := field.(content := content)]), None), true)
  {
    BoundaryAfterLine(cfg.boundary, content, rest);
    assert st.buffer[..|content|] == content;
    assert st.buffer[|content|..] == CRLF + (cfg.boundary + rest);
    assert "" + content == content;
    if content == "" {
      assert st.fields[st.name := st.fields[st.name].(content := "")] == st.fields;
    }
  }

  /** The state after a boundary has been found with nothing but a line break or a preamble before it. */
  lemma BoundaryOfPart(cfg: Config, st: State, before: string, rest: string)
    requires GoodBoundary(cfg.boundary)
    requires st.buffer == before + (cfg.boundary + rest)
    requires GoodPreamble(cfg.boundary, before)
    ensures StepBoundary(cfg, st) == (Outcome(st.(buffer := rest, status := ProcessingHeaders), None), true)
  {
    if before == "" {
      assert st.buffer == cfg.boundary + rest;
      BoundaryAtOnce(cfg.boundary, rest);
    } else {
      BoundaryAfterPreamble(cfg.boundary, before, rest);
    }
    assert st.buffer[|before| + |cfg.boundary|..] == rest;
  }

  lemma BoundaryAfterPreamble(boundary: string, before: string, rest: string)
    requires GoodBoundary(boundary) && IndexOf(before, boundary) < 0
    requires |before| >= 2 && before[|before| - 2..] == CRLF
    ensures IndexOf(before + (boundary + rest), boundary) == |before|
  {
    var text := before[..|before| - 2];
    assert before == text + CRLF;
    forall j: nat ensures !OccursAt(text, boundary, j) {
      if j + |boundary| <= |text| {
        OccursInPrefix(text, CRLF, boundary, j);
      }
    }
    BoundaryAfterLine(boundary, text, rest);
  }

  lemma OneTurn(cfg: Config, st: State, next: State)
    requires cfg.boundary != "" && st.Valid() && Step(cfg, st) == (Outcome(next, None), true)
    ensures Process(cfg, st) == Process(cfg, next)
  {
  }

  lemma LastTurn(cfg: Config, st: State, r: Outcome)
    requires cfg.boundary != "" && st.Valid() && Step(cfg, st) == (r, false)
    ensures Process(cfg, st) == r
  {
  }

  /** The header block of a part is read, up to its content or to an exception. */
  lemma PartHeaders(cfg: Config, st: State, before: string, p: Part, tail: string)
    requires GoodBoundary(cfg.boundary) && Writable(p)
    requires GoodPreamble(cfg.boundary, before)
    requires st.status == LookingForStartingBoundary
    requires st.buffer == before + (cfg.boundary + (HeaderBlock(p) + BLANK_LINE + tail))
    ensures var (field, error) := FieldIn(cfg, HeaderBlock(p));
            var fields := st.fields[p.name := field];
            var r := Process(cfg, st);
            if error.Some? then r.error == error && r.state.fields == fields
            else r == Process(cfg, State(ProcessingContentOfTheField, tail, p.name, fields))
  {
    BoundaryOfPart(cfg, st, before, HeaderBlock(p) + BLANK_LINE + tail);
    var st1 := st.(buffer := HeaderBlock(p) + BLANK_LINE + tail, status := ProcessingHeaders);
    OneTurn(cfg, st, st1);
    HeadersOfPart(cfg, st1, p, tail);
    var (field, error) := FieldIn(cfg, HeaderBlock(p));
    if error.Some? {
      LastTurn(cfg, st1, Outcome(st1.(name := p.name, fields := st.fields[p.name := field]), error));
    } else {
      OneTurn(cfg, st1, State(ProcessingContentOfTheField, tail, p.name, st.fields[p.name := field]));
    }
  }

  /** The content of a part is moved to its field, up to the next boundary or to an exception. */
  lemma PartContent(cfg: Config, fields: map<string, FieldView>, p: Part, rest: string)
    requires GoodBoundary(cfg.boundary) && IndexOf(p.content, cfg.boundary) < 0
    requires p.name in fields && fields[p.name].content == "" && fields[p.name].fieldType != Untyped
    ensures var st := State(ProcessingContentOfTheField, p.content + CRLF + (cfg.boundary + rest), p.name, fields);
            Process(cfg, st) ==
            if Takes(fields[p.name], p.content)
            then Process(cfg, State(LookingForStartingBoundary, CRLF + (cfg.boundary + rest), p.name,
                                    fields[p.name := fields[p.name].(content := p.content)]))
            else Outcome(st, Some(NoTempDir))
  {
    var st := State(ProcessingContentOfTheField, p.content + CRLF + (cfg.boundary + rest), p.name, fields);
    ContentOfPart(cfg, st, p.content, rest);
    if Takes(fields[p.name], p.content) {
      OneTurn(cfg, st, State(LookingForStartingBoundary, CRLF + (cfg.boundary + rest), p.name,
                             fields[p.name := fields[p.name].(content := p.content)]));
    } else {
      LastTurn(cfg, st, Outcome(st, Some(NoTempDir)));
    }
  }

  lemma NewFieldIsTyped(cfg: Config, headers: string)
    ensures var field := FieldIn(cfg, headers).0; field.content == "" && field.fieldType != Untyped
  {
  }

  lemma OnePartFails(cfg: Config, st: State, before: string, p: Part, rest: string,
                     field: FieldView, error: Option<Error>)
    requires GoodBoundary(cfg.boundary) && Writable(p) && GoodPreamble(cfg.boundary, before)
    requires st.status == LookingForStartingBoundary
    requires st.buffer == before + (cfg.boundary + (HeaderBlock(p) + BLANK_LINE + rest))
    requires (field, error) == FieldIn(cfg, HeaderBlock(p)) && error.Some?
    ensures var r := Process(cfg, st);
            r.error == error && r.state.fields == st.fields[p.name := field]
  {
    PartHeaders(cfg, st, before, p, rest);
  }

  lemma RebindTwice<K, V>(m: map<K, V>, key: K, first: V, second: V)
    ensures m[key := first][key := second] == m[key := second]
  {
  }

  lemma OnePartPasses(cfg: Config, st: State, before: string, p: Part, rest: string, field: FieldView)
    requires GoodBoundary(cfg.boundary) && Writable(p) && IndexOf(p.content, cfg.boundary) < 0
    requires GoodPreamble(cfg.boundary, before) && st.status == LookingForStartingBoundary
    requires st.buffer == before + (cfg.boundary + (HeaderBlock(p) + BLANK_LINE
                                                    + (p.content + CRLF + (cfg.boundary + rest))))
    requires (field, None) == FieldIn(cfg, HeaderBlock(p))
    ensures var r := Process(cfg, st);
            if Takes(field, p.content)
            then r == Process(cfg, State(LookingForStartingBoundary, CRLF + (cfg.boundary + rest), p.name,
                                         st.fields[p.name := field.(content := p.content)]))
            else r.error == Some(NoTempDir) && r.state.fields == st.fields[p.name := field]
  {
    NewFieldIsTyped(cfg, HeaderBlock(p));
    PartHeaders(cfg, st, before, p, p.content + CRLF + (cfg.boundary + rest));
    PartContent(cfg, st.fields[p.name := field], p, rest);
    RebindTwice(st.fields, p.name, field, field.(content := p.content));
  }

  lemma NoMoreParts(cfg: Config, st: State, before: string, tail: string)
    requires GoodBoundary(cfg.boundary) && GoodSurroundings(cfg.boundary, before, tail)
    requires st.status == LookingForStartingBoundary && st.buffer == before + (cfg.boundary + ("--" + tail))
    ensures Process(cfg, st) == Outcome(st.(buffer := "--" + tail, status := ProcessingHeaders), None)
  {
    BoundaryOfPart(cfg, st, before, "--" + tail);
    var st1 := st.(buffer := "--" + tail, status := ProcessingHeaders);
    OneTurn(cfg, st, st1);
    LastTurn(cfg, st1, Outcome(st1, None));
  }

  lemma PartsBeginWithBoundary(boundary: string, parts: seq<Part>, tail: string) returns (rest: string)
    ensures EncodeParts(boundary, parts, tail) == boundary + rest
    ensures parts == [] ==> rest == "--" + tail
    ensures parts != [] ==> rest == HeaderBlock(parts[0]) + BLANK_LINE
                                    + (parts[0].content + CRLF + EncodeParts(boundary, parts[1..], tail))
  {
    if parts == [] {
      rest := "--" + tail;
    } else {
      rest := HeaderBlock(parts[0]) + BLANK_LINE
              + (parts[0].content + CRLF + EncodeParts(boundary, parts[1..], tail));
    }
  }

  /** Parsing a body goes part by part. */
  lemma {:induction false} PartsAreReceived(cfg: Config, st: State, before: string, parts: seq<Part>, tail: string)
    requires GoodBoundary(cfg.boundary) && GoodSurroundings(cfg.boundary, before, tail)
    requires forall p :: p in parts ==> Writable(p) && IndexOf(p.content, cfg.boundary) < 0
    requires st.status == LookingForStartingBoundary
    requires st.buffer == before + EncodeParts(cfg.boundary, parts, tail)
    ensures var r := Process(cfg, st);
            (r.state.fields, r.error) == ReceiveAll(cfg, parts, st.fields)
    decreases |parts|
  {
    var rest := PartsBeginWithBoundary(cfg.boundary, parts, tail);
    if parts == [] {
      NoMoreParts(cfg, st, before, tail);
    } else {
      var more := PartsBeginWithBoundary(cfg.boundary, parts[1..], tail);
      var p := parts[0];
      var (field, error) := FieldIn(cfg, HeaderBlock(p));
      if error.Some? {
        OnePartFails(cfg, st, before, p, p.content + CRLF + (cfg.boundary + more), field, error);
      } else {
        OnePartPasses(cfg, st, before, p, more, field);
        if Takes(field, p.content) {
          LineBreakIsNoBoundary(cfg.boundary);
          PartsAreReceived(cfg, State(LookingForStartingBoundary, CRLF + (cfg.boundary + more), p.name,
                                      st.fields[p.name := field.(content := p.content)]), CRLF, parts[1..], tail);
        }
      }
    }
  }

  lemma LineBreakIsNoBoundary(boundary: string)
    requires GoodBoundary(boundary)
    ensures IndexOf(CRLF, boundary) < 0
  {
    assert boundary[0] == boundary[..2][0];
    if |boundary| == 2 {
      Mismatch(CRLF, boundary, 0, 0);
    }
  }

  // ---- Which bodies survive ----

  /** Exactly what a part must satisfy to come back as it was written. */
  predicate Survives(cfg: Config, p: Part) {
    IndexOf(p.content, cfg.boundary) < 0 && NameSurvives(p) && Storable(cfg, p)
  }

  predicate DistinctNames(parts: seq<Part>) {
    forall i, j :: 0 <= i < j < |parts| ==> parts[i].name != parts[j].name
  }

  lemma {:induction false} OthersKeepTheirField(cfg: Config, parts: seq<Part>, fields: map<string, FieldView>,
                                                name: string)
    requires name in fields && forall p :: p in parts ==> p.name != name
    ensures name in IntendedFields(cfg, parts, fields) && IntendedFields(cfg, parts, fields)[name] == fields[name]
    ensures var got := ReceiveAll(cfg, parts, fields).0;
            name in got && got[name] == fields[name]
    decreases |parts|
  {
    if parts != [] {
      OthersKeepTheirField(cfg, parts[1..], fields[parts[0].name := Intended(cfg, parts[0])], name);
      OthersKeepTheirField(cfg, parts[1..], fields[parts[0].name := Received(cfg, parts[0]).0], name);
    }
  }

  /** With distinct names, every part has the last word about its field. */
  lemma {:induction false} IntendedOf(cfg: Config, parts: seq<Part>, fields: map<string, FieldView>, p: Part)
    requires DistinctNames(parts) && p in parts
    ensures p.name in IntendedFields(cfg, parts, fields)
    ensures IntendedFields(cfg, parts, fields)[p.name] == Intended(cfg, p)
    decreases |parts|
  {
    var next := fields[parts[0].name := Intended(cfg, parts[0])];
    if p == parts[0] {
      OthersKeepTheirField(cfg, parts[1..], next, p.name);
    } else {
      IntendedOf(cfg, parts[1..], next, p);
    }
  }

  lemma SurvivorIsReceived(cfg: Config, p: Part)
    requires Writable(p)
    ensures NameSurvives(p) && Storable(cfg, p) <==> Received(cfg, p) == (Intended(cfg, p), None)
  {
    match p.fileName
    case None => TextIsRead(cfg, p);
    case Some(fileName) =>
      FileIsRead(cfg, p);
      assert Intended(cfg, p).(content := "", fileName := NameRead(p)).(content := p.content)
             == Intended(cfg, p).(fileName := NameRead(p));
  }

  lemma {:induction false} AllSurvive(cfg: Config, parts: seq<Part>, fields: map<string, FieldView>)
    requires forall p :: p in parts ==> Writable(p) && NameSurvives(p) && Storable(cfg, p)
    ensures ReceiveAll(cfg, parts, fields) == (IntendedFields(cfg, parts, fields), None)
    decreases |parts|
  {
    if parts != [] {
      SurvivorIsReceived(cfg, parts[0]);
      AllSurvive(cfg, parts[1..], fields[parts[0].name := Intended(cfg, parts[0])]);
    }
  }

  lemma {:induction false} OnlySurvivors(cfg: Config, parts: seq<Part>, fields: map<string, FieldView>,
                                         want: map<string, FieldView>, p: Part)
    requires DistinctNames(parts) && p in parts && forall q :: q in parts ==> Writable(q)
    requires forall q :: q in parts ==> q.name in want && want[q.name] == Intended(cfg, q)
    requires ReceiveAll(cfg, parts, fields) == (want, None)
    ensures NameSurvives(p) && Storable(cfg, p)
    decreases |parts|
  {
    var next := fields[parts[0].name := Received(cfg, parts[0]).0];
    if p == parts[0] {
      OthersKeepTheirField(cfg, parts[1..], next, p.name);
      assert want[p.name] == Received(cfg, p).0;
      SurvivorIsReceived(cfg, p);
    } else {
      OnlySurvivors(cfg, parts[1..], next, want, p);
    }
  }

  /** No content that the parser stores can hold the boundary. */
  ghost predicate NoBoundaryStored(cfg: Config, st: State) {
    && (forall name :: name in st.fields && !(st.status == ProcessingContentOfTheField && name == st.name) ==>
          IndexOf(st.fields[name].content, cfg.boundary) < 0)
    && (st.status == ProcessingContentOfTheField && st.name in st.fields ==>
          var content := st.fields[st.name].content;
          forall j: nat :: j < |content| ==> !OccursAt(content + st.buffer, cfg.boundary, j))
  }

  /** Neither what a field holds, nor that with the next flush, can complete a boundary. */
  lemma KeptHasNoBoundary(boundary: string, content: string, buffer: string)
    requires boundary != "" && forall j: nat :: j < |content| ==> !OccursAt(content + buffer, boundary, j)
    ensures IndexOf(content, boundary) < 0
    ensures FlushLength(boundary, buffer) > 0 ==>
              IndexOf(content + buffer[..FlushLength(boundary, buffer)], boundary) < 0
    ensures IndexOf(buffer, boundary) < 0 ==> IndexOf(content + buffer, boundary) < 0
  {
    var all := content + buffer;
    var first := IndexOf(buffer, boundary);
    var n := FlushLength(boundary, buffer);
    assert all[|content|..] == buffer;
    forall j: nat | first < 0 || j < |content| + first ensures !OccursAt(all, boundary, j) {
      if j >= |content| {
        OccursInSuffix(all, boundary, |content|, j - |content|);
      }
    }
    PrefixHasNoBoundary(boundary, content, buffer);
    if n > 0 {
      assert all == (content + buffer[..n]) + buffer[n..];
      PrefixHasNoBoundary(boundary, content + buffer[..n], buffer[n..]);
    }
  }

  lemma PrefixHasNoBoundary(boundary: string, kept: string, rest: string)
    requires forall j: nat :: j + |boundary| <= |kept| ==> !OccursAt(kept + rest, boundary, j)
    ensures IndexOf(kept, boundary) < 0
  {
    forall j: nat ensures !OccursAt(kept, boundary, j) {
      if j + |boundary| <= |kept| {
        OccursInPrefix(kept, rest, boundary, j);
      }
    }
  }

  lemma ContentTurnStoresNoBoundary(cfg: Config, st: State)
    requires cfg.boundary != "" && st.Valid() && NoBoundaryStored(cfg, st)
    requires st.status == ProcessingContentOfTheField
    ensures var r := StepContent(cfg, st).0.state;
            && NoBoundaryStored(cfg, r)
            && IndexOf(r.fields[st.name].content, cfg.boundary) < 0
  {
    var content := st.fields[st.name].content;
    var n := FlushLength(cfg.boundary, st.buffer);
    KeptHasNoBoundary(cfg.boundary, content, st.buffer);
    if n > 0 {
      FlushedIsRegrouped(content, st.buffer, n);
    }
  }

  lemma FlushedIsRegrouped(content: string, buffer: string, n: nat)
    requires n <= |buffer|
    ensures (content + buffer[..n]) + buffer[n..] == content + buffer
  {
  }

  lemma HeadersTurnStoresNoBoundary(cfg: Config, st: State)
    requires cfg.boundary != "" && NoBoundaryStored(cfg, st) && st.status == ProcessingHeaders
    ensures NoBoundaryStored(cfg, StepHeaders(cfg, st).0.state)
  {
    var n := IndexOf(st.buffer, BLANK_LINE);
    if n >= 0 {
      var headers := UntilNul(st.buffer[..n]);
      NewFieldIsEmpty(cfg, headers);
    }
  }

  lemma NewFieldIsEmpty(cfg: Config, headers: string)
    requires cfg.boundary != ""
    ensures FieldIn(cfg, headers).0.content == "" && IndexOf("", cfg.boundary) < 0
  {
  }

  ghost predicate AllFree(boundary: string, fields: map<string, FieldView>) {
    forall name :: name in fields ==> IndexOf(fields[name].content, boundary) < 0
  }

  lemma TurnStoresNoBoundary(cfg: Config, st: State)
    requires cfg.boundary != "" && st.Valid() && NoBoundaryStored(cfg, st)
    ensures var (r, again) := Step(cfg, st);
            NoBoundaryStored(cfg, r.state) && AllFree(cfg.boundary, r.state.fields)
  {
    match st.status
    case LookingForStartingBoundary =>
    case ProcessingHeaders =>
      HeadersTurnStoresNoBoundary(cfg, st);
      if IndexOf(st.buffer, BLANK_LINE) >= 0 {
        NewFieldIsEmpty(cfg, UntilNul(st.buffer[..IndexOf(st.buffer, BLANK_LINE)]));
      }
    case ProcessingContentOfTheField => ContentTurnStoresNoBoundary(cfg, st);
  }

  lemma {:induction false} NoBoundaryIsEverStored(cfg: Config, st: State)
    requires cfg.boundary != "" && st.Valid() && NoBoundaryStored(cfg, st)
    ensures AllFree(cfg.boundary, Process(cfg, st).state.fields)
    decreases |st.buffer|, Rank(st.status)
  {
    TurnStoresNoBoundary(cfg, st);
    var (r, again) := Step(cfg, st);
    if again {
      NoBoundaryIsEverStored(cfg, r.state);
    }
  }

  // ---- Headers that raise an exception ----

  /**
   What a body with such a block of headers in its first part comes to: the exception of the name, which leaves no
   field, or that of the file name. `NameExactlyWhen` and `FileExactlyWhen` say when these are raised.
   */
  lemma BadHeadersRaise(cfg: Config, preamble: string, lines: seq<string>, rest: string)
    requires GoodBoundary(cfg.boundary) && GoodPreamble(cfg.boundary, preamble)
    requires forall i :: 0 <= i < |lines| ==> GoodLine(lines[i])
    ensures var body := preamble + (cfg.boundary + (Lines(lines) + BLANK_LINE + rest));
            var r := Process(cfg, START.Append(body));
            match NameIn(Lines(lines))
            case Failure(error) => r.error == Some(error) && r.state.fields == map[]
            case Success(name) =>
              FieldIn(cfg, Lines(lines)).1.Some? ==>
                r.error == FieldIn(cfg, Lines(lines)).1 && r.state.fields == map[name := FieldIn(cfg, Lines(lines)).0]
  {
    var block := Lines(lines);
    var st := START.Append(preamble + (cfg.boundary + (block + BLANK_LINE + rest)));
    assert "" + st.buffer == st.buffer;
    BoundaryOfPart(cfg, st, preamble, block + BLANK_LINE + rest);
    var st1 := st.(buffer := block + BLANK_LINE + rest, status := ProcessingHeaders);
    OneTurn(cfg, st, st1);
    NoNulInLines(lines);
    LinesAreNotBlank(lines);
    BlankAfter(block, rest);
    BlockIsParsed(cfg, st1, block, rest);
    var (r, again) := StepHeaders(cfg, st1);
    if r.error.Some? {
      LastTurn(cfg, st1, r);
    }
  }

  /** What follows a NUL in the headers is not looked at. */
  lemma NulEndsHeaders(cfg: Config, st: State, headers: string, ignored: string, rest: string)
    requires st.status == ProcessingHeaders && '\0' !in headers
    requires IndexOf(headers + BLANK_LINE + rest, BLANK_LINE) == |headers|
    requires IndexOf(headers + "\0" + ignored + BLANK_LINE + rest, BLANK_LINE) == |headers| + 1 + |ignored|
    ensures var (r, again) := StepHeaders(cfg, st.(buffer := headers + "\0" + ignored + BLANK_LINE + rest));
            var (want, more) := StepHeaders(cfg, st.(buffer := headers + BLANK_LINE + rest));
            && r.error == want.error && again == more && r.state.fields == want.state.fields
            && r.state.name == want.state.name && r.state.status == want.state.status
            && (again ==> r.state.buffer == rest)
  {
    BlockIsParsed(cfg, st.(buffer := headers + BLANK_LINE + rest), headers, rest);
    BlockIsParsed(cfg, st.(buffer := headers + "\0" + ignored + BLANK_LINE + rest), headers + "\0" + ignored, rest);
    CutAtNul(headers, ignored);
  }

  lemma {:induction false} CutAtNul(r: string, ignored: string)
    requires '\0' !in r
    ensures UntilNul(r + "\0" + ignored) == r
  {
    if r != "" {
      assert (r + "\0" + ignored)[1..] == r[1..] + "\0" + ignored;
      CutAtNul(r[1..], ignored);
      assert r == [r[0]] + r[1..];
    }
  }

  // ---- The round trip ----

  /**
   A body of writable parts with distinct names is parsed back to exactly those parts if and only if
   no content holds the boundary, no name ends so as to be taken for a file name, and files have a
   place to go.
   */
  lemma RoundTrip(cfg: Config, preamble: string, parts: seq<Part>, tail: string)
    requires GoodBoundary(cfg.boundary) && GoodSurroundings(cfg.boundary, preamble, tail)
    requires (forall p :: p in parts ==> Writable(p)) && DistinctNames(parts)
    ensures var r := Process(cfg, START.Append(preamble + EncodeParts(cfg.boundary, parts, tail)));
            (r.error.None? && r.state.fields == IntendedFields(cfg, parts, map[]))
            <==> forall p :: p in parts ==> Survives(cfg, p)
  {
    var st := START.Append(preamble + EncodeParts(cfg.boundary, parts, tail));
    var r := Process(cfg, st);
    var want := IntendedFields(cfg, parts, map[]);
    if forall p :: p in parts ==> Survives(cfg, p) {
      PartsAreReceived(cfg, st, preamble, parts, tail);
      AllSurvive(cfg, parts, map[]);
    }
    if r.error.None? && r.state.fields == want {
      NoBoundaryIsEverStored(cfg, st);
      forall p | p in parts ensures p.name in want && want[p.name] == Intended(cfg, p)
                                    && IndexOf(p.content, cfg.boundary) < 0 {
        IntendedOf(cfg, parts, map[], p);
        assert Intended(cfg, p).content == p.content;
      }
      PartsAreReceived(cfg, st, preamble, parts, tail);
      forall p | p in parts ensures Survives(cfg, p) {
        OnlySurvivors(cfg, parts, map[], want, p);
      }
    }
  }

  lemma {:induction false} LastHasTheField(cfg: Config, parts: seq<Part>, fields: map<string, FieldView>, i: nat)
    requires i < |parts| && forall j :: i < j < |parts| ==> parts[j].name != parts[i].name
    ensures var got := IntendedFields(cfg, parts, fields);
            parts[i].name in got && got[parts[i].name] == Intended(cfg, parts[i])
    decreases |parts|
  {
    var next := fields[parts[0].name := Intended(cfg, parts[0])];
    if i == 0 {
      OthersKeepTheirField(cfg, parts[1..], next, parts[0].name);
    } else {
      LastHasTheField(cfg, parts[1..], next, i - 1);
    }
  }

  lemma {:induction false} FieldsAreNames(cfg: Config, parts: seq<Part>, fields: map<string, FieldView>, name: string)
    requires name in IntendedFields(cfg, parts, fields) && name !in fields
    ensures exists p :: p in parts && p.name == name
    decreases |parts|
  {
    if parts != [] && parts[0].name != name {
      FieldsAreNames(cfg, parts[1..], fields[parts[0].name := Intended(cfg, parts[0])], name);
    }
  }

  /** Of several parts with one name the last one has the field, with its own content and nothing of the others. */
  lemma LastOfName(cfg: Config, preamble: string, parts: seq<Part>, tail: string, i: nat, name: string)
    requires GoodBoundary(cfg.boundary) && GoodSurroundings(cfg.boundary, preamble, tail)
    requires forall p :: p in parts ==> Writable(p) && Survives(cfg, p)
    requires i < |parts| && forall j :: i < j < |parts| ==> parts[j].name != parts[i].name
    ensures var r := Process(cfg, START.Append(preamble + EncodeParts(cfg.boundary, parts, tail)));
            && r.error.None? && parts[i].name in r.state.fields
            && r.state.fields[parts[i].name] == Intended(cfg, parts[i])
            && (name in r.state.fields ==> exists p :: p in parts && p.name == name)
  {
    PartsAreReceived(cfg, START.Append(preamble + EncodeParts(cfg.boundary, parts, tail)), preamble, parts, tail);
    AllSurvive(cfg, parts, map[]);
    LastHasTheField(cfg, parts, map[], i);
    if name in IntendedFields(cfg, parts, map[]) {
      FieldsAreNames(cfg, parts, map[], name);
    }
  }

  /** The round trip, whatever the pieces in which the body arrives, as long as the size limit is not hit. */
  lemma RoundTripInPieces(cfg: Config, limit: int, preamble: string, parts: seq<Part>, tail: string,
                          chunks: seq<string>)
    requires GoodBoundary(cfg.boundary) && GoodSurroundings(cfg.boundary, preamble, tail)
    requires (forall p :: p in parts ==> Writable(p)) && DistinctNames(parts)
    requires Concat(chunks) == preamble + EncodeParts(cfg.boundary, parts, tail)
    requires AcceptBody(cfg, limit, START, chunks).error != Some(TooMuchData)
    ensures var r := AcceptBody(cfg, limit, START, chunks);
            (r.error.None? && r.state.fields == IntendedFields(cfg, parts, map[]))
            <==> forall p :: p in parts ==> Survives(cfg, p)
  {
    RoundTrip(cfg, preamble, parts, tail);
    StartIsSettled(cfg);
    ChunksAreOneCall(cfg, limit, START, chunks);
  }
}
