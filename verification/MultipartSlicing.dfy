/** How a body is cut into calls of `AcceptSomeData` makes no difference to what is parsed. */
module MultipartSlicing {
  import opened Basics
  import opened Sequences
  import opened MultipartSpec

  /**
   Parsing headers does not look at the buffer, and parsing them again changes nothing more: an
   exception found in them comes back.
   */
  lemma HeadersTwice(cfg: Config, st: State, headers: string, more: string)
    ensures var r := ParseHeaders(cfg, st, headers);
            && ParseHeaders(cfg, st.Append(more), headers) == Outcome(r.state.Append(more), r.error)
            && ParseHeaders(cfg, r.state.Append(more), headers) == Outcome(r.state.Append(more), r.error)
  {
  }

  lemma AppendToDropped(s: string, k: nat, more: string)
    requires k <= |s|
    ensures (s + more)[k..] == s[k..] + more && (s + more)[..k] == s[..k]
  {
  }

  /** Content that was flushed early makes the later flush shorter by as much. */
  lemma FlushSplits(cfg: Config, st: State, more: string)
    requires st.name in st.fields && IndexOf(st.buffer, cfg.boundary) < 0
    requires Flush(cfg, st).error.None?
    ensures Flush(cfg, st.Append(more)) == Flush(cfg, Flush(cfg, st).state.Append(more))
    ensures IndexOf(st.buffer + more, cfg.boundary) < 0 <==>
            IndexOf(Flush(cfg, st).state.buffer + more, cfg.boundary) < 0
  {
    var s := st.buffer + more;
    var k := FlushLength(cfg.boundary, st.buffer);
    if k > 0 {
      AppendToDropped(st.buffer, k, more);
      FoundLater(st.buffer, more, cfg.boundary);
      assert forall j: nat :: j < k ==> !OccursAt(s, cfg.boundary, j);
      FoundAfterDrop(s, cfg.boundary, k);
      var n := FlushLength(cfg.boundary, s);
      assert n >= k && FlushLength(cfg.boundary, s[k..]) == n - k;
      SlicesAround(st.buffer, more, k, n);
      FlushedFields(cfg, st, more, k, n);
    }
  }

  lemma SlicesAround(buffer: string, more: string, k: nat, n: nat)
    requires k <= |buffer| && k <= n <= |buffer + more|
    ensures (buffer + more)[k..][..n - k] == (buffer + more)[k..n]
    ensures (buffer + more)[k..][n - k..] == (buffer + more)[n..]
    ensures n == k ==> (buffer + more)[..n] == buffer[..k]
  {
  }

  lemma FlushedFields(cfg: Config, st: State, more: string, k: nat, n: nat)
    requires st.name in st.fields && 0 < k <= |st.buffer| && k <= n <= |st.buffer + more|
    requires k == FlushLength(cfg.boundary, st.buffer) && Flush(cfg, st).error.None?
    ensures var field := st.fields[st.name];
            var once := st.fields[st.name := field.(content := field.content + (st.buffer + more)[..n])];
            var first := Flush(cfg, st).state.fields;
            once == first[st.name := first[st.name].(content := first[st.name].content + (st.buffer + more)[k..n])]
  {
    var content := st.fields[st.name].content;
    assert (st.buffer + more)[..n] == st.buffer[..k] + (st.buffer + more)[k..n];
    assert content + (st.buffer + more)[..n] == (content + st.buffer[..k]) + (st.buffer + more)[k..n];
  }

  /** One turn commutes with the arrival of more bytes, or leaves the next turn as it would have been. */
  ghost predicate TurnResumes(cfg: Config, st: State, more: string)
    requires st.Valid()
  {
    var (r, again) := Step(cfg, st);
    if again then Step(cfg, st.Append(more)) == (Outcome(r.state.Append(more), None), true)
    else Step(cfg, st.Append(more)) == Step(cfg, r.state.Append(more))
  }

  lemma BoundaryTurn(cfg: Config, st: State, more: string)
    requires st.status == LookingForStartingBoundary
    ensures TurnResumes(cfg, st, more)
  {
    var n := IndexOf(st.buffer, cfg.boundary);
    if n >= 0 {
      FoundStaysFound(st.buffer, more, cfg.boundary);
      AppendToDropped(st.buffer, n + |cfg.boundary|, more);
    }
  }

  lemma HeadersTurn(cfg: Config, st: State, more: string)
    requires st.status == ProcessingHeaders
    ensures TurnResumes(cfg, st, more)
  {
    var n := IndexOf(st.buffer, BLANK_LINE);
    if n >= 0 {
      FoundStaysFound(st.buffer, more, BLANK_LINE);
      HeadersTwice(cfg, st, UntilNul(st.buffer[..n]), more);
      AppendToDropped(st.buffer, n, more);
      AppendToDropped(st.buffer, n + 4, more);
      FoundHeadersTurn(cfg, st, more, n);
    }
  }

  lemma FoundHeadersTurn(cfg: Config, st: State, more: string, n: nat)
    requires st.status == ProcessingHeaders && n == IndexOf(st.buffer, BLANK_LINE)
    requires n == IndexOf(st.buffer + more, BLANK_LINE)
    requires (st.buffer + more)[..n] == st.buffer[..n] && (st.buffer + more)[n + 4..] == st.buffer[n + 4..] + more
    requires var headers := UntilNul(st.buffer[..n]);
             var r := ParseHeaders(cfg, st, headers);
             && ParseHeaders(cfg, st.Append(more), headers) == Outcome(r.state.Append(more), r.error)
             && ParseHeaders(cfg, r.state.Append(more), headers) == Outcome(r.state.Append(more), r.error)
    ensures StepHeaders(cfg, st).1 ==>
              StepHeaders(cfg, st.Append(more)) == (Outcome(StepHeaders(cfg, st).0.state.Append(more), None), true)
    ensures !StepHeaders(cfg, st).1 ==>
              StepHeaders(cfg, st.Append(more)) == StepHeaders(cfg, StepHeaders(cfg, st).0.state.Append(more))
  {
  }

  lemma ContentTurn(cfg: Config, st: State, more: string)
    requires st.Valid() && st.status == ProcessingContentOfTheField
    ensures TurnResumes(cfg, st, more)
  {
    var n := FlushLength(cfg.boundary, st.buffer);
    if IndexOf(st.buffer, cfg.boundary) >= 0 {
      FoundStaysFound(st.buffer, more, cfg.boundary);
      if n > 0 {
        AppendToDropped(st.buffer, n, more);
      }
    } else if Flush(cfg, st).error.None? {
      FlushSplits(cfg, st, more);
    } else {
      FoundLater(st.buffer, more, cfg.boundary);
    }
  }

  lemma AnyTurn(cfg: Config, st: State, more: string)
    requires st.Valid()
    ensures TurnResumes(cfg, st, more)
  {
    match st.status
    case LookingForStartingBoundary => BoundaryTurn(cfg, st, more);
    case ProcessingHeaders => HeadersTurn(cfg, st, more);
    case ProcessingContentOfTheField => ContentTurn(cfg, st, more);
  }

  /**
   Stopping after `st` and going on when more bytes arrive ends in the same state, with the same
   exception, as having had all the bytes at once.
   */
  lemma {:induction false} ResumeAnywhere(cfg: Config, st: State, more: string)
    requires cfg.boundary != "" && st.Valid()
    ensures Process(cfg, st.Append(more)) == Process(cfg, Process(cfg, st).state.Append(more))
    decreases |st.buffer|, Rank(st.status)
  {
    AnyTurn(cfg, st, more);
    var (r, again) := Step(cfg, st);
    if again {
      ResumeAnywhere(cfg, r.state, more);
    }
  }

  /** An exception is raised again, by the same bytes, whatever arrives after it. */
  lemma ErrorTurn(cfg: Config, st: State, more: string)
    requires st.Valid() && Step(cfg, st).0.error.Some?
    ensures var r := Step(cfg, st).0;
            Step(cfg, st.Append(more)) == (Outcome(r.state.Append(more), r.error), false)
  {
    if st.status == ProcessingHeaders {
      var n := IndexOf(st.buffer, BLANK_LINE);
      FoundStaysFound(st.buffer, more, BLANK_LINE);
      AppendToDropped(st.buffer, n, more);
      HeadersTwice(cfg, st, UntilNul(st.buffer[..n]), more);
    } else if IndexOf(st.buffer, cfg.boundary) >= 0 {
      FoundStaysFound(st.buffer, more, cfg.boundary);
    } else {
      FoundLater(st.buffer, more, cfg.boundary);
    }
  }

  lemma {:induction false} ErrorsAbsorb(cfg: Config, st: State, more: string)
    requires cfg.boundary != "" && st.Valid() && Process(cfg, st).error.Some?
    ensures var r := Process(cfg, st);
            Process(cfg, st.Append(more)) == Outcome(r.state.Append(more), r.error)
    decreases |st.buffer|, Rank(st.status)
  {
    var (r, again) := Step(cfg, st);
    if again {
      AnyTurn(cfg, st, more);
      ErrorsAbsorb(cfg, r.state, more);
    } else {
      ErrorTurn(cfg, st, more);
    }
  }

  /** While content is received, at most a boundary and the line break before it stay buffered. */
  lemma {:induction false} ContentBufferIsSmall(cfg: Config, st: State)
    requires cfg.boundary != "" && st.Valid()
    ensures var r := Process(cfg, st);
            r.error.None? && r.state.status == ProcessingContentOfTheField ==>
              |r.state.buffer| <= |cfg.boundary| + 2
    decreases |st.buffer|, Rank(st.status)
  {
    var (r, again) := Step(cfg, st);
    if again {
      ContentBufferIsSmall(cfg, r.state);
    }
  }

  /** A state that more turns of the loop would not change. */
  ghost predicate Settled(cfg: Config, st: State) {
    cfg.boundary != "" && st.Valid() && Process(cfg, st) == Outcome(st, None)
  }

  lemma ProcessSettles(cfg: Config, st: State)
    requires cfg.boundary != "" && st.Valid() && Process(cfg, st).error.None?
    ensures Settled(cfg, Process(cfg, st).state)
  {
    ResumeAnywhere(cfg, st, "");
    assert st.Append("") == st;
    assert Process(cfg, st).state.Append("") == Process(cfg, st).state;
  }

  lemma StartIsSettled(cfg: Config)
    requires cfg.boundary != ""
    ensures Settled(cfg, START)
  {
  }

  lemma AppendTwice(st: State, a: string, b: string)
    ensures st.Append(a + b) == st.Append(a).Append(b)
  {
    assert st.buffer + (a + b) == (st.buffer + a) + b;
  }

  /**
   Unless the size limit is hit, the calls together do what one call with the whole body does, except
   that the bytes after a chunk that raised an exception are never taken in.
   */
  lemma {:induction false} ChunksAreOneCall(cfg: Config, limit: int, st: State, chunks: seq<string>)
    requires Settled(cfg, st)
    requires AcceptBody(cfg, limit, st, chunks).error != Some(TooMuchData)
    ensures var r := AcceptBody(cfg, limit, st, chunks);
            var whole := Process(cfg, st.Append(Concat(chunks)));
            && r.error == whole.error
            && r.state == whole.state.(buffer := r.state.buffer)
            && r.state.buffer <= whole.state.buffer
            && (r.error.None? ==> r == whole)
    decreases chunks
  {
    if chunks == [] {
      assert st.Append("") == st;
    } else {
      var data, rest := chunks[0], Concat(chunks[1..]);
      var r := Accept(cfg, limit, st, data);
      AppendTwice(st, data, rest);
      if r.error.Some? {
        ErrorsAbsorb(cfg, st.Append(data), rest);
      } else {
        ProcessSettles(cfg, st.Append(data));
        ChunksAreOneCall(cfg, limit, r.state, chunks[1..]);
        ResumeAnywhere(cfg, st.Append(data), rest);
      }
    }
  }

  /** Two ways of cutting a body that both stay below the size limit give the same fields. */
  lemma SlicingNeverMatters(cfg: Config, limit: int, a: seq<string>, b: seq<string>)
    requires cfg.boundary != "" && Concat(a) == Concat(b)
    requires AcceptBody(cfg, limit, START, a).error != Some(TooMuchData)
    requires AcceptBody(cfg, limit, START, b).error != Some(TooMuchData)
    ensures var ra, rb := AcceptBody(cfg, limit, START, a), AcceptBody(cfg, limit, START, b);
            && ra.error == rb.error && ra.state.status == rb.state.status
            && ra.state.fields == rb.state.fields && ra.state.name == rb.state.name
            && (ra.error.None? ==> ra.state.buffer == rb.state.buffer)
  {
    StartIsSettled(cfg);
    ChunksAreOneCall(cfg, limit, START, a);
    ChunksAreOneCall(cfg, limit, START, b);
  }

  /** Chunk `k` is too much for what is still buffered of the chunks before it. */
  ghost predicate Overflows(cfg: Config, limit: int, st: State, chunks: seq<string>, k: nat)
    requires cfg.boundary != "" && st.Valid()
  {
    && k < |chunks|
    && var before := Process(cfg, st.Append(Concat(chunks[..k])));
       before.error.None? && |before.state.buffer| + |chunks[k]| > limit
  }

  lemma OverflowsLater(cfg: Config, limit: int, st: State, chunks: seq<string>, k: nat)
    requires Settled(cfg, st) && chunks != [] && 0 < k < |chunks|
    requires Process(cfg, st.Append(chunks[0])).error.None?
    ensures Overflows(cfg, limit, st, chunks, k)
            <==> Overflows(cfg, limit, Process(cfg, st.Append(chunks[0])).state, chunks[1..], k - 1)
  {
    assert chunks[..k][0] == chunks[0] && chunks[..k][1..] == chunks[1..][..k - 1];
    AppendTwice(st, chunks[0], Concat(chunks[1..][..k - 1]));
    ResumeAnywhere(cfg, st.Append(chunks[0]), Concat(chunks[1..][..k - 1]));
  }

  /** The size limit, which does depend on the cutting, is hit exactly when some chunk overflows. */
  lemma {:induction false} LimitHitExactlyWhen(cfg: Config, limit: int, st: State, chunks: seq<string>)
    requires Settled(cfg, st)
    ensures AcceptBody(cfg, limit, st, chunks).error == Some(TooMuchData)
            <==> exists k: nat :: Overflows(cfg, limit, st, chunks, k)
    decreases chunks
  {
    if chunks != [] {
      assert st.Append(Concat(chunks[..0])) == st;
      var r := Accept(cfg, limit, st, chunks[0]);
      if r.error == Some(TooMuchData) {
        NoLimitInProcess(cfg, st.Append(chunks[0]));
        assert Overflows(cfg, limit, st, chunks, 0);
      } else if r.error.None? {
        ProcessSettles(cfg, st.Append(chunks[0]));
        LimitHitExactlyWhen(cfg, limit, r.state, chunks[1..]);
        if k: nat :| Overflows(cfg, limit, r.state, chunks[1..], k) {
          OverflowsLater(cfg, limit, st, chunks, k + 1);
        }
        if k: nat :| Overflows(cfg, limit, st, chunks, k) {
          if k > 0 {
            OverflowsLater(cfg, limit, st, chunks, k);
          }
        }
      } else if k: nat :| Overflows(cfg, limit, st, chunks, k) {
        if k > 0 {
          assert chunks[..k][0] == chunks[0];
          AppendTwice(st, chunks[0], Concat(chunks[..k][1..]));
          ErrorsAbsorb(cfg, st.Append(chunks[0]), Concat(chunks[..k][1..]));
        }
      }
    }
  }

  lemma {:induction false} NoLimitInProcess(cfg: Config, st: State)
    requires cfg.boundary != "" && st.Valid()
    ensures Process(cfg, st).error != Some(TooMuchData)
    decreases |st.buffer|, Rank(st.status)
  {
    var (r, again) := Step(cfg, st);
    if again {
      NoLimitInProcess(cfg, r.state);
    }
  }

  /** Accepting text that cannot start a boundary only moves bytes through the buffer. */
  lemma PlainText(cfg: Config, limit: int, st: State, data: string)
    requires cfg.boundary != "" && st.Valid() && st.status == ProcessingContentOfTheField
    requires st.fields[st.name].fieldType == TextType
    requires cfg.boundary[0] !in st.buffer + data && |st.buffer + data| <= limit
    ensures var r := Accept(cfg, limit, st, data);
            var n := |st.buffer + data| - |cfg.boundary| - 2;
            && r.error.None? && r.state.status == st.status && r.state.name == st.name
            && r.state.Valid() && r.state.fields[r.state.name].fieldType == TextType
            && r.state.buffer == if n > 0 then (st.buffer + data)[n..] else st.buffer + data
  {
    assert IndexOf(st.buffer + data, cfg.boundary) < 0;
  }

  /** The same nine bytes of content, cut in two ways, are accepted once and refused once. */
  lemma LimitDependsOnSlicing()
    ensures var cfg := Config("--x", InMemory, "");
            var field := NewField(InMemory, "").(fieldType := TextType);
            var st := State(ProcessingContentOfTheField, "", "f", map["f" := field]);
            && AcceptBody(cfg, 8, st, ["012345678"]).error == Some(TooMuchData)
            && AcceptBody(cfg, 8, st, ["012345", "678"]).error == None
  {
    var cfg := Config("--x", InMemory, "");
    var field := NewField(InMemory, "").(fieldType := TextType);
    var st := State(ProcessingContentOfTheField, "", "f", map["f" := field]);
    RefusedAtOnce(cfg, 8, st, "012345678");
    PlainText(cfg, 8, st, "012345");
    PlainText(cfg, 8, Accept(cfg, 8, st, "012345").state, "678");
    TwoSlices(cfg, 8, st, "012345", "678");
  }

  lemma RefusedAtOnce(cfg: Config, limit: int, st: State, data: string)
    requires cfg.boundary != "" && st.Valid() && |st.buffer| + |data| > limit
    ensures AcceptBody(cfg, limit, st, [data]).error == Some(TooMuchData)
  {
  }

  lemma TwoSlices(cfg: Config, limit: int, st: State, a: string, b: string)
    requires cfg.boundary != "" && st.Valid()
    requires Accept(cfg, limit, st, a).error.None? && Accept(cfg, limit, Accept(cfg, limit, st, a).state, b).error.None?
    ensures AcceptBody(cfg, limit, st, [a, b]).error == None
  {
    var st1 := Accept(cfg, limit, st, a).state;
    assert [a, b][1..] == [b] && [b][1..] == [];
    assert AcceptBody(cfg, limit, st1, [b]) == AcceptBody(cfg, limit, Accept(cfg, limit, st1, b).state, []);
  }
}
