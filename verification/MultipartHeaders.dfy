/**
 Blocks of header lines, as section 4 of RFC 7578 has them: where names and file names are found among any other
 lines, and which exception is raised when they are not.
 */
module MultipartHeaders {
  import opened Basics
  import opened Sequences
  import opened MultipartSpec

  /** A part as it is written: lines before and after the disposition, a name, and a file name if it is a file. */
  datatype Part = Part(before: seq<string>, name: string, fileName: Option<string>, after: seq<string>, content: string)

  const NAME_PREFIX: string := CRLF + DISPOSITION + " " + NAME_KEY
  const FILE_PREFIX: string := "; " + FILENAME_KEY
  const FILENAME_WORD: string := "filename="

  /** Lines, each after a line break. */
  function Lines(lines: seq<string>): string {
    if lines == [] then "" else CRLF + lines[0] + Lines(lines[1..])
  }

  /** The line break and the disposition of a part. */
  function Disposition(p: Part): string {
    NAME_PREFIX + p.name + QUOTE +
    match p.fileName
    case None => ""
    case Some(fileName) => FILE_PREFIX + fileName + QUOTE
  }

  /** The line break and header lines that follow a boundary, up to the blank line. */
  function HeaderBlock(p: Part): string {
    Lines(p.before) + Disposition(p) + Lines(p.after)
  }

  predicate Quotable(s: string) {
    '"' !in s && '\r' !in s && '\0' !in s
  }

  predicate GoodLine(line: string) {
    line != "" && '\r' !in line && '\0' !in line
  }

  predicate NoLineHas(lines: seq<string>, key: string) {
    forall i :: 0 <= i < |lines| ==> IndexOf(lines[i], key) < 0
  }

  /**
   What the source expects of a writer: attribute values that need no escaping, lines that are none when empty, and
   none before the disposition that could be taken for it.
   */
  predicate Writable(p: Part) {
    match p
    case Part(before, name, fileName, after, _) =>
      && Quotable(name) && (fileName.Some? ==> Quotable(fileName.value))
      && (forall i :: 0 <= i < |before| ==> GoodLine(before[i]))
      && (forall i :: 0 <= i < |after| ==> GoodLine(after[i]))
      && NoLineHas(before, NAME_KEY)
  }

  predicate EndsInFilename(name: string) {
    |name| >= |FILENAME_WORD| && name[|name| - |FILENAME_WORD|..] == FILENAME_WORD
  }

  /** The field that a part is meant to become. */
  function Intended(cfg: Config, p: Part): FieldView {
    match p.fileName
    case None => NewField(InFilesystem, "").(fieldType := TextType, content := p.content)
    case Some(fileName) =>
      NewField(cfg.storage, cfg.tempDir).(fieldType := FileType, content := p.content, fileName := fileName)
  }

  // ---- Searching lines ----

  /** A key without line breaks, as all that are searched for. */
  predicate IsKey(key: string) {
    key != "" && '\r' !in key && '\n' !in key
  }

  lemma KeysAreKeys()
    ensures IsKey(DISPOSITION) && IsKey(NAME_KEY) && IsKey(FILENAME_KEY) && IsKey(QUOTE)
  {
  }

  /** What is found in two texts of which the second begins with a line break. */
  function FoundIn(x: string, y: string, key: string): int {
    if IndexOf(x, key) >= 0 then IndexOf(x, key)
    else if IndexOf(y, key) >= 0 then |x| + IndexOf(y, key)
    else -1
  }

  /** No occurrence spans a line break. */
  lemma JoinAtBreak(x: string, y: string, key: string)
    requires IsKey(key) && (y != "" ==> y[0] == '\r')
    ensures IndexOf(x + y, key) == FoundIn(x, y, key)
  {
    forall j: nat ensures OccursAt(x + y, key, j) <==> OccursAt(x, key, j) || (j >= |x| && OccursAt(y, key, j - |x|)) {
      OccursInOne(x, y, key, j);
    }
    SearchSplits(x, y, key);
  }

  lemma OccursInOne(x: string, y: string, key: string, j: nat)
    requires IsKey(key) && (y != "" ==> y[0] == '\r')
    ensures OccursAt(x + y, key, j) <==> OccursAt(x, key, j) || (j >= |x| && OccursAt(y, key, j - |x|))
  {
    if j + |key| <= |x| {
      OccursInPrefix(x, y, key, j);
    } else if j >= |x| {
      assert (x + y)[|x|..] == y;
      OccursInSuffix(x + y, key, |x|, j - |x|);
    } else if j + |key| <= |x + y| {
      assert (x + y)[|x|] == '\r';
      Mismatch(x + y, key, j, |x| - j);
    }
  }

  lemma SearchSplits(x: string, y: string, key: string)
    requires forall j: nat ::
               OccursAt(x + y, key, j) <==> OccursAt(x, key, j) || (j >= |x| && OccursAt(y, key, j - |x|))
    requires key != ""
    ensures IndexOf(x + y, key) == FoundIn(x, y, key)
  {
    var n := FoundIn(x, y, key);
    if n >= 0 {
      assert OccursAt(x + y, key, n);
      FirstIs(x + y, key, 0, n);
    }
  }

  /** A key in a line is found two characters later when a line break stands before it. */
  lemma AfterBreak(line: string, key: string)
    requires IsKey(key)
    ensures IndexOf(CRLF + line, key) == if IndexOf(line, key) >= 0 then 2 + IndexOf(line, key) else -1
  {
    forall j: nat | j < 2 ensures !OccursAt(CRLF + line, key, j) {
      if j < |CRLF + line| {
        Mismatch(CRLF + line, key, j, 0);
      }
    }
    assert (CRLF + line)[2..] == line;
    FoundAfterDrop(CRLF + line, key, 2);
  }

  lemma BreakFirst(lines: seq<string>)
    ensures Lines(lines) != "" ==> Lines(lines)[0] == '\r'
  {
  }

  /** A key occurs in lines exactly when it occurs in one of them. */
  lemma {:induction false} FoundInLines(lines: seq<string>, key: string)
    requires IsKey(key)
    ensures IndexOf(Lines(lines), key) < 0 <==> NoLineHas(lines, key)
  {
    if lines != [] {
      AfterBreak(lines[0], key);
      BreakFirst(lines[1..]);
      JoinAtBreak(CRLF + lines[0], Lines(lines[1..]), key);
      FoundInLines(lines[1..], key);
      assert forall i :: 0 < i < |lines| ==> lines[i] == lines[1..][i - 1];
    }
  }

  /** The `k`-th line is the first one with the key. */
  predicate FirstWith(lines: seq<string>, k: nat, key: string) {
    k < |lines| && IndexOf(lines[k], key) >= 0 && NoLineHas(lines[..k], key)
  }

  /** All that follows the first occurrence of a key. */
  function Behind(s: string, key: string): string
    requires IndexOf(s, key) >= 0
  {
    s[IndexOf(s, key) + |key|..]
  }

  /** All that follows the first occurrence of a key, which is in the `k`-th line. */
  function TextAfter(lines: seq<string>, k: nat, key: string): string
    requires FirstWith(lines, k, key)
  {
    Behind(lines[k], key) + Lines(lines[k + 1..])
  }

  lemma NoneBefore(lines: seq<string>, k: nat, key: string)
    requires FirstWith(lines, k, key)
    ensures forall i :: 0 <= i < k ==> IndexOf(lines[i], key) < 0
  {
    forall i | 0 <= i < k ensures IndexOf(lines[i], key) < 0 {
      assert lines[..k][i] == lines[i];
    }
  }

  lemma WithoutFirst(lines: seq<string>, k: nat, key: string)
    requires FirstWith(lines, k, key) && k > 0
    ensures IndexOf(lines[0], key) < 0 && FirstWith(lines[1..], k - 1, key)
    ensures TextAfter(lines[1..], k - 1, key) == TextAfter(lines, k, key)
  {
    NoneBefore(lines, k, key);
    assert lines[1..][k..] == lines[k + 1..];
  }

  lemma BehindInFirst(line: string, rest: string, key: string)
    requires IsKey(key) && IndexOf(line, key) >= 0 && (rest != "" ==> rest[0] == '\r')
    ensures var s := CRLF + line + rest; IndexOf(s, key) >= 0 && Behind(s, key) == Behind(line, key) + rest
  {
    AfterBreak(line, key);
    JoinAtBreak(CRLF + line, rest, key);
    var m := 2 + IndexOf(line, key) + |key|;
    assert (CRLF + line + rest)[m..] == line[m - 2..] + rest;
  }

  lemma BehindInRest(line: string, rest: string, key: string)
    requires IsKey(key) && IndexOf(line, key) < 0 && (rest != "" ==> rest[0] == '\r') && IndexOf(rest, key) >= 0
    ensures var s := CRLF + line + rest; IndexOf(s, key) >= 0 && Behind(s, key) == Behind(rest, key)
  {
    AfterBreak(line, key);
    JoinAtBreak(CRLF + line, rest, key);
    RestOfRest(CRLF + line, rest, IndexOf(rest, key) + |key|);
  }

  lemma {:induction false} FoundInLine(lines: seq<string>, k: nat, key: string)
    requires IsKey(key) && FirstWith(lines, k, key)
    ensures IndexOf(Lines(lines), key) >= 0 && Behind(Lines(lines), key) == TextAfter(lines, k, key)
  {
    BreakFirst(lines[1..]);
    if k == 0 {
      BehindInFirst(lines[0], Lines(lines[1..]), key);
    } else {
      WithoutFirst(lines, k, key);
      FoundInLine(lines[1..], k - 1, key);
      BehindInRest(lines[0], Lines(lines[1..]), key);
    }
  }

  lemma RestOfRest(x: string, y: string, n: nat)
    requires n <= |y|
    ensures (x + y)[|x| + n..] == y[n..]
  {
  }

  lemma {:induction false} FirstLineWith(lines: seq<string>, key: string) returns (k: nat)
    requires !NoLineHas(lines, key)
    ensures FirstWith(lines, k, key)
  {
    if IndexOf(lines[0], key) >= 0 {
      k := 0;
    } else {
      assert forall i :: 0 < i < |lines| ==> lines[i] == lines[1..][i - 1];
      k := FirstLineWith(lines[1..], key);
      assert lines[..k + 1] == [lines[0]] + lines[1..][..k];
      k := k + 1;
    }
  }

  // ---- What a block of lines is taken for ----

  /** The text up to the first quote. */
  function UpToQuote(text: string): string
    requires '"' in text
  {
    if text[0] == '"' then "" else [text[0]] + UpToQuote(text[1..])
  }

  lemma {:induction false} QuoteIn(text: string)
    ensures '"' in text ==>
              |UpToQuote(text)| < |text| && text[|UpToQuote(text)|] == '"'
              && text[..|UpToQuote(text)|] == UpToQuote(text) && '"' !in UpToQuote(text)
  {
    if '"' in text && text[0] != '"' {
      QuoteIn(text[1..]);
      var n := |UpToQuote(text[1..])|;
      assert text[..n + 1] == [text[0]] + text[1..][..n];
    }
  }

  /** Searching for a quote from some point on. */
  lemma QuoteFrom(s: string, from: nat)
    requires from <= |s|
    ensures var n := IndexFrom(s, QUOTE, from);
            if '"' in s[from..] then n >= from && s[from..n] == UpToQuote(s[from..]) else n < 0
  {
    var text := s[from..];
    if '"' in text {
      QuoteIn(text);
      var n := |UpToQuote(text)|;
      forall i: nat | from <= i < from + n ensures s[i] != '"' {
        assert s[i] == text[..n][i - from];
      }
      QuoteAt(s, from, from + n);
      assert s[from..from + n] == text[..n];
    } else {
      forall i: nat | from <= i < |s| ensures s[i] != '"' {
        assert s[i] == text[i - from];
      }
      NoQuoteFrom(s, from);
    }
  }

  /**
   Exactly which exception a block of lines raises for its name, and what name is read otherwise: the text between the
   first `name="` of all lines and the next quote, in whatever line that stands.
   */
  lemma NameExactlyWhen(lines: seq<string>)
    ensures NameIn(Lines(lines)) == Failure(NotFormData) <==> NoLineHas(lines, DISPOSITION)
    ensures NameIn(Lines(lines)) == Failure(NoName)
            <==> !NoLineHas(lines, DISPOSITION) && NoLineHas(lines, NAME_KEY)
    ensures forall k: nat :: !NoLineHas(lines, DISPOSITION) && FirstWith(lines, k, NAME_KEY) ==>
              NameIn(Lines(lines)) == NameOf(TextAfter(lines, k, NAME_KEY))
  {
    KeysAreKeys();
    FoundInLines(lines, DISPOSITION);
    FoundInLines(lines, NAME_KEY);
    forall k: nat | !NoLineHas(lines, DISPOSITION) && FirstWith(lines, k, NAME_KEY)
      ensures NameIn(Lines(lines)) == NameOf(TextAfter(lines, k, NAME_KEY))
    {
      FoundInLine(lines, k, NAME_KEY);
      NameAfter(Lines(lines));
    }
  }

  function NameOf(text: string): Result<string> {
    if '"' in text then Success(UpToQuote(text)) else Failure(OpenName)
  }

  lemma NameAfter(s: string)
    requires IndexOf(s, DISPOSITION) >= 0 && IndexOf(s, NAME_KEY) >= 0
    ensures NameIn(s) == NameOf(Behind(s, NAME_KEY))
  {
    QuoteFrom(s, IndexOf(s, NAME_KEY) + |NAME_KEY|);
  }

  /**
   Exactly when a block of lines is taken for a file: when some line has `filename="`. The text up to the next quote is
   the file name, and without another quote an exception is raised. Nothing else in the lines matters.
   */
  lemma FileExactlyWhen(cfg: Config, lines: seq<string>)
    ensures FieldIn(cfg, Lines(lines)).0.fieldType == TextType <==> NoLineHas(lines, FILENAME_KEY)
    ensures NoLineHas(lines, FILENAME_KEY) ==>
              FieldIn(cfg, Lines(lines)) == (NewField(InFilesystem, "").(fieldType := TextType), None)
    ensures forall k: nat :: FirstWith(lines, k, FILENAME_KEY) ==>
              FieldIn(cfg, Lines(lines)) == FileOf(cfg, TextAfter(lines, k, FILENAME_KEY))
  {
    KeysAreKeys();
    FoundInLines(lines, FILENAME_KEY);
    forall k: nat | FirstWith(lines, k, FILENAME_KEY)
      ensures FieldIn(cfg, Lines(lines)) == FileOf(cfg, TextAfter(lines, k, FILENAME_KEY))
    {
      FoundInLine(lines, k, FILENAME_KEY);
      FileAfter(cfg, Lines(lines));
    }
  }

  function FileOf(cfg: Config, text: string): (FieldView, Option<Error>) {
    var file := NewField(cfg.storage, cfg.tempDir).(fieldType := FileType);
    if '"' in text then (file.(fileName := UpToQuote(text)), None) else (file, Some(OpenFileName))
  }

  lemma FileAfter(cfg: Config, s: string)
    requires IndexOf(s, FILENAME_KEY) >= 0
    ensures FieldIn(cfg, s) == FileOf(cfg, Behind(s, FILENAME_KEY))
  {
    QuoteFrom(s, IndexOf(s, FILENAME_KEY) + |FILENAME_KEY|);
  }

  // ---- Reading what was written ----

  lemma PrefixHasOneQuote()
    ensures |NAME_PREFIX| == 40
    ensures forall i :: 0 <= i < 39 ==> NAME_PREFIX[i] != '"'
    ensures forall i :: 0 < i < 39 ==> NAME_PREFIX[i] != '\r'
    ensures NAME_PREFIX[0] == '\r' && NAME_PREFIX[2] != '\r'
    ensures '\0' !in NAME_PREFIX
    ensures NAME_PREFIX[34..] == NAME_KEY && NAME_PREFIX[33] == ' '
    ensures NAME_PREFIX[2..33] == DISPOSITION
  {
  }

  /** A key that ends in a quote is first found where the first quote allows it. */
  lemma KeyAtFirstQuote(s: string, key: string, n: nat)
    requires |key| > 0 && key[|key| - 1] == '"' && OccursAt(s, key, n)
    requires forall i: nat :: i < n + |key| - 1 ==> s[i] != '"'
    ensures IndexOf(s, key) == n
  {
    forall j: nat | j < n ensures !OccursAt(s, key, j) {
      Mismatch(s, key, j, |key| - 1);
    }
    FirstIs(s, key, 0, n);
  }

  lemma QuoteAt(s: string, from: nat, n: nat)
    requires from <= n < |s| && s[n] == '"' && forall i: nat :: from <= i < n ==> s[i] != '"'
    ensures IndexFrom(s, QUOTE, from) == n
  {
    forall j: nat | from <= j < n ensures !OccursAt(s, QUOTE, j) {
      Mismatch(s, QUOTE, j, 0);
    }
    assert OccursAt(s, QUOTE, n);
    FirstIs(s, QUOTE, from, n);
  }

  lemma NoQuoteFrom(s: string, from: nat)
    requires forall i: nat :: from <= i < |s| ==> s[i] != '"'
    ensures IndexFrom(s, QUOTE, from) < 0
  {
    forall j: nat | from <= j < |s| ensures !OccursAt(s, QUOTE, j) {
      Mismatch(s, QUOTE, j, 0);
    }
  }

  /** The disposition begins with the prefix, the name and a quote. */
  lemma BlockShape(p: Part)
    ensures var s := Disposition(p);
            && |s| >= 41 + |p.name| && s[..40] == NAME_PREFIX
            && s[40..40 + |p.name|] == p.name && s[40 + |p.name|] == '"'
            && (p.fileName.None? ==> |s| == 41 + |p.name|)
  {
    PrefixHasOneQuote();
  }

  lemma FirstQuotes(p: Part)
    requires Writable(p)
    ensures var s := Disposition(p);
            && |s| > 40 + |p.name| && s[39] == '"' && s[40 + |p.name|] == '"'
            && (forall i: nat :: i < 40 + |p.name| && i != 39 ==> s[i] != '"')
            && s[33] == ' '
            && OccursAt(s, NAME_KEY, 34) && OccursAt(s, DISPOSITION, 2)
  {
    var s := Disposition(p);
    PrefixHasOneQuote();
    BlockShape(p);
    forall i: nat | i < 40 + |p.name| && i != 39 ensures s[i] != '"' {
      if i < 40 {
        assert s[..40][i] == NAME_PREFIX[i];
      } else {
        assert s[40..40 + |p.name|][i - 40] == s[i];
      }
    }
    assert s[34..40] == s[..40][34..] && s[2..33] == s[..40][2..33];
    assert s[33] == s[..40][33] && s[39] == s[..40][34..][5];
  }

  /** Before the quote that closes the name, `filename=` and a quote are met only if the name ends so. */
  lemma FilenameKeyInName(p: Part, j: nat)
    requires Writable(p) && j + 9 <= 40 + |p.name|
    ensures OccursAt(Disposition(p), FILENAME_KEY, j)
            <==> EndsInFilename(p.name) && j + 9 == 40 + |p.name|
  {
    var s := Disposition(p);
    FirstQuotes(p);
    BlockShape(p);
    if j + 9 == 39 {
      Mismatch(s, FILENAME_KEY, j, 3);
    } else if j + 9 < 40 + |p.name| {
      Mismatch(s, FILENAME_KEY, j, 9);
    } else if |p.name| < 9 {
      Mismatch(s, FILENAME_KEY, j, 39 - j);
    } else {
      assert s[40..40 + |p.name|][|p.name| - 9..] == s[j..j + 9];
      assert s[j..j + 10] == s[j..j + 9] + [s[j + 9]];
      assert FILENAME_KEY == FILENAME_WORD + QUOTE;
      assert s[j..j + 10][..9] == s[j..j + 9] && FILENAME_KEY[..9] == FILENAME_WORD;
    }
  }

  lemma FileShape(p: Part)
    requires Writable(p) && p.fileName.Some?
    ensures var s := Disposition(p); var q := 40 + |p.name|; var f := p.fileName.value;
            && |s| == q + 14 + |f| && s[q + 1..q + 13] == FILE_PREFIX && s[q + 13..q + 13 + |f|] == f
            && s[q + 13 + |f|] == '"'
            && (forall i: nat :: q < i < q + 12 ==> s[i] != '"') && s[q + 12] == '"'
            && OccursAt(s, FILENAME_KEY, q + 3)
  {
    var s := Disposition(p);
    var f := p.fileName.value;
    var q := 40 + |p.name|;
    PrefixHasOneQuote();
    assert s == (NAME_PREFIX + p.name + QUOTE) + (FILE_PREFIX + f + QUOTE);
    assert s[q + 1..] == FILE_PREFIX + (f + QUOTE);
    assert s[q + 1..q + 13] == s[q + 1..][..12] == FILE_PREFIX;
    assert s[q + 3..q + 13] == s[q + 1..q + 13][2..] == FILENAME_KEY;
    forall i: nat | q < i < q + 12 ensures s[i] != '"' {
      assert s[i] == s[q + 1..q + 13][i - q - 1];
    }
    assert s[q + 12] == s[q + 1..q + 13][11];
  }

  // ---- Among other lines ----

  lemma BlankBetween(p: Part)
    requires Writable(p)
    ensures Disposition(p) != "" && Disposition(p)[0] == '\r'
    ensures Lines(p.after) != "" ==> Lines(p.after)[0] == '\r'
    ensures (Disposition(p) + Lines(p.after))[0] == '\r'
  {
    FirstQuotes(p);
    PrefixHasOneQuote();
    BlockShape(p);
    assert Disposition(p)[0] == Disposition(p)[..40][0];
    BreakFirst(p.after);
  }

  /** A key that the lines before do not have is found in the disposition, or in the lines after. */
  lemma FoundAmong(p: Part, key: string)
    requires Writable(p) && IsKey(key) && NoLineHas(p.before, key)
    ensures var n, m := IndexOf(Disposition(p), key), IndexOf(Lines(p.after), key);
            IndexOf(HeaderBlock(p), key)
            == if n >= 0 then |Lines(p.before)| + n
               else if m >= 0 then |Lines(p.before)| + |Disposition(p)| + m else -1
  {
    BlankBetween(p);
    FoundInLines(p.before, key);
    Regroup(Lines(p.before), Disposition(p), Lines(p.after));
    JoinAtBreak(Disposition(p), Lines(p.after), key);
    JoinAtBreak(Lines(p.before), Disposition(p) + Lines(p.after), key);
  }

  lemma SliceInMiddle(a: string, d: string, b: string, i: nat, j: nat)
    requires i <= j <= |d|
    ensures |a| + j <= |a + d + b| && (a + d + b)[|a| + i..|a| + j] == d[i..j]
  {
  }

  lemma QuoteInMiddle(a: string, d: string, b: string, from: nat, n: nat)
    requires from <= n < |d| && d[n] == '"' && forall i: nat :: from <= i < n ==> d[i] != '"'
    ensures IndexFrom(a + d + b, QUOTE, |a| + from) == |a| + n
  {
    var s := a + d + b;
    forall i: nat | |a| + from <= i < |a| + n ensures s[i] != '"' {
      assert s[i] == d[i - |a|];
    }
    QuoteAt(s, |a| + from, |a| + n);
  }

  /** A text up to a quote, in the middle of three texts. */
  lemma TextInMiddle(a: string, d: string, b: string, start: nat, f: string)
    requires start + |f| < |d| && d[start + |f|] == '"' && d[start..start + |f|] == f
    requires forall i: nat :: start <= i < start + |f| ==> d[i] != '"'
    ensures |a| + (start + |f|) <= |a + d + b| && (a + d + b)[|a| + start..|a| + (start + |f|)] == f
    ensures IndexFrom(a + d + b, QUOTE, |a| + start) == |a| + (start + |f|)
  {
    SliceInMiddle(a, d, b, start, start + |f|);
    QuoteInMiddle(a, d, b, start, start + |f|);
  }

  /** A name in the middle of three texts. */
  lemma NameInMiddle(a: string, d: string, b: string, name: string)
    requires IndexOf(a, NAME_KEY) < 0 && d != "" && d[0] == '\r' && (b != "" ==> b[0] == '\r')
    requires IndexOf(d, NAME_KEY) == 34 && OccursAt(d, DISPOSITION, 2)
    requires 40 + |name| < |d| && d[40 + |name|] == '"' && d[40..40 + |name|] == name
    requires forall i: nat :: 40 <= i < 40 + |name| ==> d[i] != '"'
    ensures NameIn(a + d + b) == Success(name)
  {
    var s := a + d + b;
    KeyInMiddle(a, d, b, NAME_KEY);
    SliceInMiddle(a, d, b, 2, 33);
    assert OccursAt(s, DISPOSITION, |a| + 2);
    TextInMiddle(a, d, b, 40, name);
    NameBetween(s, |a|, name);
  }

  lemma KeyInMiddle(a: string, d: string, b: string, key: string)
    requires IsKey(key) && IndexOf(a, key) < 0 && IndexOf(d, key) >= 0
    requires d != "" && d[0] == '\r' && (b != "" ==> b[0] == '\r')
    ensures IndexOf(a + d + b, key) == |a| + IndexOf(d, key)
  {
    Regroup(a, d, b);
    JoinAtBreak(d, b, key);
    JoinAtBreak(a, d + b, key);
  }

  lemma NameBetween(s: string, at: nat, name: string)
    requires IndexOf(s, NAME_KEY) == at + 34 && IndexOf(s, DISPOSITION) >= 0
    requires IndexFrom(s, QUOTE, at + 40) == at + (40 + |name|)
    requires at + (40 + |name|) <= |s| && s[at + 40..at + (40 + |name|)] == name
    ensures NameIn(s) == Success(name)
  {
    assert |NAME_KEY| == 6;
  }

  lemma NameIsRead(p: Part)
    requires Writable(p)
    ensures NameIn(HeaderBlock(p)) == Success(p.name)
  {
    var d := Disposition(p);
    KeysAreKeys();
    FirstQuotes(p);
    BlockShape(p);
    BlankBetween(p);
    KeyAtFirstQuote(d, NAME_KEY, 34);
    FoundInLines(p.before, NAME_KEY);
    NameInMiddle(Lines(p.before), d, Lines(p.after), p.name);
  }

  lemma NoFileBefore(lines: seq<string>)
    requires NoLineHas(lines, NAME_KEY)
    ensures NoLineHas(lines, FILENAME_KEY)
  {
    forall i | 0 <= i < |lines| ensures IndexOf(lines[i], FILENAME_KEY) < 0 {
      NameKeyInFilenameKey(lines[i]);
    }
  }

  lemma NameKeyInside(line: string, j: nat)
    requires OccursAt(line, FILENAME_KEY, j)
    ensures OccursAt(line, NAME_KEY, j + 4)
  {
    assert FILENAME_KEY[4..] == NAME_KEY;
    assert line[j + 4..j + 10] == line[j..j + 10][4..];
  }

  lemma NameKeyInFilenameKey(line: string)
    requires IndexOf(line, NAME_KEY) < 0
    ensures IndexOf(line, FILENAME_KEY) < 0
  {
    if IndexOf(line, FILENAME_KEY) >= 0 {
      NameKeyInside(line, IndexOf(line, FILENAME_KEY));
    }
  }

  /** A text part is taken for one exactly if its name does not end in `filename=` and no later line has a file name. */
  predicate StaysText(p: Part) {
    !EndsInFilename(p.name) && NoLineHas(p.after, FILENAME_KEY)
  }

  lemma FilenameKeyOfText(p: Part)
    requires Writable(p) && p.fileName.None?
    ensures IndexOf(Disposition(p), FILENAME_KEY) >= 0 <==> EndsInFilename(p.name)
  {
    var s := Disposition(p);
    BlockShape(p);
    forall j: nat ensures OccursAt(s, FILENAME_KEY, j) <==> EndsInFilename(p.name) && j + 9 == 40 + |p.name| {
      if j + 9 <= 40 + |p.name| {
        FilenameKeyInName(p, j);
      }
    }
    if EndsInFilename(p.name) {
      FirstIs(s, FILENAME_KEY, 0, 31 + |p.name|);
    }
  }

  /** A text part becomes a text field exactly when it stays text, whatever other lines it has. */
  lemma TextIsRead(cfg: Config, p: Part)
    requires Writable(p) && p.fileName.None?
    ensures FieldIn(cfg, HeaderBlock(p)).0.fieldType == TextType <==> StaysText(p)
    ensures StaysText(p) ==> FieldIn(cfg, HeaderBlock(p)) == (Intended(cfg, p).(content := ""), None)
  {
    KeysAreKeys();
    FilenameKeyOfText(p);
    NoFileBefore(p.before);
    FoundAmong(p, FILENAME_KEY);
    FoundInLines(p.after, FILENAME_KEY);
  }

  /** Where the file name is looked for. */
  function NameStart(p: Part): (start: nat)
    ensures start >= 10
  {
    |p.name| + if EndsInFilename(p.name) then 41 else 53
  }

  lemma FilenameKeyOfFile(p: Part)
    requires Writable(p) && p.fileName.Some?
    ensures IndexOf(Disposition(p), FILENAME_KEY) == NameStart(p) - 10
  {
    var s := Disposition(p);
    var q := 40 + |p.name|;
    FileShape(p);
    forall j: nat | j < q + 3 ensures OccursAt(s, FILENAME_KEY, j) <==> EndsInFilename(p.name) && j + 9 == q {
      if j + 9 <= q {
        FilenameKeyInName(p, j);
      } else {
        Mismatch(s, FILENAME_KEY, j, 9);
      }
    }
    FirstIs(s, FILENAME_KEY, 0, if EndsInFilename(p.name) then q - 9 else q + 3);
  }

  /** The file name as it is read. */
  function NameRead(p: Part): string
    requires p.fileName.Some?
  {
    if EndsInFilename(p.name) then FILE_PREFIX[..11] else p.fileName.value
  }

  /** Where the file name starts in the disposition, and where the quote after it stands. */
  lemma FileNameInDisposition(p: Part)
    requires Writable(p) && p.fileName.Some?
    ensures var d, start, f := Disposition(p), NameStart(p), NameRead(p);
            && start + |f| < |d| && d[start + |f|] == '"' && d[start..start + |f|] == f
            && forall i: nat :: start <= i < start + |f| ==> d[i] != '"'
  {
    var d, q := Disposition(p), 40 + |p.name|;
    FileShape(p);
    if EndsInFilename(p.name) {
      assert d[q + 1..q + 12] == d[q + 1..q + 13][..11];
    } else {
      NoQuoteInSlice(d, q + 13, p.fileName.value);
    }
  }

  lemma NoQuoteInSlice(s: string, q: nat, f: string)
    requires q + |f| <= |s| && s[q..q + |f|] == f && '"' !in f
    ensures forall i: nat :: q <= i < q + |f| ==> s[i] != '"'
  {
    forall i: nat | q <= i < q + |f| ensures s[i] != '"' {
      assert s[i] == f[i - q];
    }
  }

  /** A file name in the middle of three texts. */
  lemma FileInMiddle(cfg: Config, a: string, d: string, b: string, start: nat, f: string)
    requires IndexOf(a, FILENAME_KEY) < 0 && d != "" && d[0] == '\r' && (b != "" ==> b[0] == '\r')
    requires start >= 10 && IndexOf(d, FILENAME_KEY) == start - 10
    requires start + |f| < |d| && d[start + |f|] == '"' && d[start..start + |f|] == f
    requires forall i: nat :: start <= i < start + |f| ==> d[i] != '"'
    ensures FieldIn(cfg, a + d + b)
            == (NewField(cfg.storage, cfg.tempDir).(fieldType := FileType, fileName := f), None)
  {
    KeyInMiddle(a, d, b, FILENAME_KEY);
    TextInMiddle(a, d, b, start, f);
    FileBetween(cfg, a + d + b, |a|, start, f);
  }

  lemma FileBetween(cfg: Config, s: string, at: nat, start: nat, f: string)
    requires start >= 10 && IndexOf(s, FILENAME_KEY) == at + (start - 10)
    requires IndexFrom(s, QUOTE, at + start) == at + (start + |f|)
    requires at + (start + |f|) <= |s| && s[at + start..at + (start + |f|)] == f
    ensures FieldIn(cfg, s) == (NewField(cfg.storage, cfg.tempDir).(fieldType := FileType, fileName := f), None)
  {
    assert |FILENAME_KEY| == 10;
  }

  /** A file part becomes a file field with the file name written, unless its name is taken for the start of one. */
  lemma FileIsRead(cfg: Config, p: Part)
    requires Writable(p) && p.fileName.Some?
    ensures FieldIn(cfg, HeaderBlock(p)) == (Intended(cfg, p).(content := "", fileName := NameRead(p)), None)
  {
    KeysAreKeys();
    FilenameKeyOfFile(p);
    NoFileBefore(p.before);
    FoundInLines(p.before, FILENAME_KEY);
    BlankBetween(p);
    FileNameInDisposition(p);
    FileInMiddle(cfg, Lines(p.before), Disposition(p), Lines(p.after), NameStart(p), NameRead(p));
  }

  // ---- A header that is not the disposition ----

  /** A header before the disposition that has `name="` is taken for it, whatever name the disposition has. */
  lemma OtherHeaderIsTakenForName(line: string, other: string, rest: seq<string>)
    requires '"' !in line && '"' !in other && !NoLineHas(rest, DISPOSITION)
    ensures NameIn(Lines([line + NAME_KEY + other + QUOTE] + rest)) == Success(other)
  {
    var first := line + NAME_KEY + other + QUOTE;
    var lines := [first] + rest;
    assert lines[1..] == rest;
    LineWithKey(line, other);
    LaterHas(first, rest);
    NameExactlyWhen(lines);
    assert FirstWith(lines, 0, NAME_KEY);
    QuoteEnds(other, Lines(rest));
  }

  lemma LaterHas(first: string, rest: seq<string>)
    requires !NoLineHas(rest, DISPOSITION)
    ensures !NoLineHas([first] + rest, DISPOSITION)
  {
    var i :| 0 <= i < |rest| && IndexOf(rest[i], DISPOSITION) >= 0;
    assert ([first] + rest)[i + 1] == rest[i];
  }

  lemma LineWithKey(line: string, other: string)
    requires '"' !in line && '"' !in other
    ensures var s := line + NAME_KEY + other + QUOTE;
            IndexOf(s, NAME_KEY) == |line| && s[|line| + |NAME_KEY|..] == other + QUOTE
  {
    var s := line + NAME_KEY + other + QUOTE;
    assert s[|line|..|line| + 6] == NAME_KEY;
    forall i: nat | i < |line| + 5 ensures s[i] != '"' {
      if i >= |line| {
        assert s[i] == NAME_KEY[i - |line|];
      }
    }
    KeyAtFirstQuote(s, NAME_KEY, |line|);
  }

  lemma {:induction false} QuoteEnds(text: string, rest: string)
    requires '"' !in text
    ensures '"' in text + QUOTE + rest && UpToQuote(text + QUOTE + rest) == text
  {
    var s := text + QUOTE + rest;
    assert s[|text|] == '"';
    if text != "" {
      assert s[1..] == text[1..] + QUOTE + rest;
      QuoteEnds(text[1..], rest);
    }
  }

  // ---- No blank line and no NUL ----

  lemma {:induction false} NoNulInLines(lines: seq<string>)
    requires forall i :: 0 <= i < |lines| ==> GoodLine(lines[i])
    ensures '\0' !in Lines(lines)
  {
    if lines != [] {
      assert GoodLine(lines[0]);
      assert forall i :: 0 <= i < |lines[1..]| ==> lines[1..][i] == lines[i + 1];
      NoNulInLines(lines[1..]);
    }
  }

  /** Every carriage return is followed by a line that is not empty. */
  predicate NoBlankLine(s: string) {
    forall i: nat :: i < |s| && s[i] == '\r' ==> i + 2 < |s| && s[i + 2] != '\r'
  }

  lemma OneLine(line: string)
    requires GoodLine(line)
    ensures NoBlankLine(CRLF + line)
  {
    assert (CRLF + line)[2] == line[0];
  }

  lemma BlankFreeJoin(x: string, y: string)
    requires NoBlankLine(x) && NoBlankLine(y)
    ensures NoBlankLine(x + y)
  {
    forall i: nat | i < |x + y| && (x + y)[i] == '\r' ensures i + 2 < |x + y| && (x + y)[i + 2] != '\r' {
      if i < |x| {
        assert x[i] == '\r';
      } else {
        assert y[i - |x|] == '\r';
      }
    }
  }

  lemma {:induction false} LinesAreNotBlank(lines: seq<string>)
    requires forall i :: 0 <= i < |lines| ==> GoodLine(lines[i])
    ensures NoBlankLine(Lines(lines))
  {
    if lines != [] {
      assert GoodLine(lines[0]);
      assert forall i :: 0 <= i < |lines[1..]| ==> lines[1..][i] == lines[i + 1];
      OneLine(lines[0]);
      LinesAreNotBlank(lines[1..]);
      BlankFreeJoin(CRLF + lines[0], Lines(lines[1..]));
    }
  }

  /** The disposition is a line like the others. */
  lemma DispositionIsLine(p: Part)
    requires Writable(p)
    ensures |Disposition(p)| >= 2 && Disposition(p) == CRLF + Disposition(p)[2..] && GoodLine(Disposition(p)[2..])
  {
    PrefixHasOneQuote();
    var name := DISPOSITION + " " + NAME_KEY;
    var file := if p.fileName.Some? then FILE_PREFIX + p.fileName.value + QUOTE else "";
    assert Disposition(p) == CRLF + (name + p.name + QUOTE + file);
    assert Disposition(p)[2..] == name + p.name + QUOTE + file;
  }

  lemma NoBlankInBlock(p: Part)
    requires Writable(p)
    ensures NoBlankLine(HeaderBlock(p)) && '\0' !in HeaderBlock(p)
  {
    DispositionIsLine(p);
    OneLine(Disposition(p)[2..]);
    LinesAreNotBlank(p.before);
    LinesAreNotBlank(p.after);
    NoNulInLines(p.before);
    NoNulInLines(p.after);
    BlankFreeJoin(Lines(p.before), Disposition(p));
    BlankFreeJoin(Lines(p.before) + Disposition(p), Lines(p.after));
  }

  lemma BlankAfter(block: string, rest: string)
    requires NoBlankLine(block)
    ensures IndexOf(block + BLANK_LINE + rest, BLANK_LINE) == |block|
  {
    var s := block + BLANK_LINE + rest;
    forall j: nat | j < |block| ensures !OccursAt(s, BLANK_LINE, j) {
      if block[j] == '\r' {
        Mismatch(s, BLANK_LINE, j, 2);
      } else {
        Mismatch(s, BLANK_LINE, j, 0);
      }
    }
    assert s[|block|..|block| + 4] == BLANK_LINE;
    FirstIs(s, BLANK_LINE, 0, |block|);
  }
}
