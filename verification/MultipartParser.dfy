/**
 The multipart parser as it runs: objects whose methods reassign their buffers. Every method is tied
 to the state machine of `MultipartSpec`.
 */
module MultipartParser {
  import opened Basics
  import opened Sequences
  import opened MultipartSpec

  class Field {
    var fieldType: FieldType
    var content: string
    var fileName: string
    var storage: Storage
    var tempDir: string
    ghost var key: string  // the name that the parser keeps this field under

    function View(): FieldView
      reads this
    {
      FieldView(fieldType, content, fileName, storage, tempDir)
    }

    constructor ()
      ensures View() == NewField(InFilesystem, "")
    {
      fieldType, content, fileName := Untyped, "", "";
      storage, tempDir := InFilesystem, "";
    }

    method AcceptSomeData(data: string) returns (error: Option<Error>)
      modifies `content
      ensures (View(), error) == Store(old(View()), data)
    {
      error := None;
      if fieldType == TextType {
        content := content + data;
      } else if fieldType == FileType {
        if storage == InFilesystem {
          if |tempDir| > 0 {
            content := content + data;
          } else {
            error := Some(NoTempDir);
          }
        } else {
          content := content + data;
        }
      } else {
        error := Some(NoFieldType);
      }
    }
  }

  lemma FlushStores(cfg: Config, st: State, n: nat, r: State)
    requires st.name in st.fields && 0 < n == FlushLength(cfg.boundary, st.buffer) && n <= |st.buffer|
    requires Store(st.fields[st.name], st.buffer[..n]).1.None?
    requires r.status == st.status && r.name == st.name && r.buffer == st.buffer[n..]
    requires r.fields == st.fields[st.name := Store(st.fields[st.name], st.buffer[..n]).0]
    ensures Flush(cfg, st) == Outcome(r, None)
  {
  }

  lemma RestIs(whole: string, n: nat, rest: string)
    requires n <= |whole| && whole == whole[..n] + rest
    ensures rest == whole[n..]
  {
  }

  class Parser {
    var boundary: string
    var dataCollector: string
    var currentStatus: Status
    var processingFieldName: string
    var fields: map<string, Field>
    var maxDataCollectorLength: int
    var whereToStore: Storage
    var tempDirForFileUpload: string

    ghost var contents: map<string, FieldView>  // what the field objects hold, by name

    /** No two names share a field object. */
    ghost predicate Apart()
      reads `fields, `contents, fields.Values
    {
      && fields.Keys == contents.Keys
      && forall name :: name in fields ==> fields[name].View() == contents[name] && fields[name].key == name
    }

    /** The content state has a field to fill. */
    ghost predicate Valid()
      reads this, fields.Values
    {
      match View()
      case State(status, _, current, _) => Apart() && (status == ProcessingContentOfTheField ==> current in fields)
    }

    ghost function Settings(): Config
      reads this
    {
      Config(boundary, whereToStore, tempDirForFileUpload)
    }

    ghost function View(): State
      reads this
    {
      State(currentStatus, dataCollector, processingFieldName, contents)
    }

    constructor ()
      ensures Valid() && View() == START && fields == map[] && contents == map[]
      ensures boundary == "" && maxDataCollectorLength == 16 * 1024 * 1024
      ensures whereToStore == InFilesystem && tempDirForFileUpload == ""
    {
      boundary, dataCollector, currentStatus := "", "", LookingForStartingBoundary;
      processingFieldName, fields, contents := "", map[], map[];
      maxDataCollectorLength := 16 * 1024 * 1024;
      whereToStore, tempDirForFileUpload := InFilesystem, "";
    }

    method SetContentType(contentType: string) returns (error: Option<Error>)
      modifies `boundary
      ensures error.None? <==> IndexOf(contentType, "multipart/form-data;") == 0
                               && IndexOf(contentType, "boundary=") >= 0
      ensures error == Some(NotMultipart) <==> IndexOf(contentType, "multipart/form-data;") != 0
      ensures error.Some? ==> boundary == old(boundary)
      ensures error.None? ==>
                |boundary| >= 2 && boundary[..2] == "--"
                && exists n: nat :: OccursAt(contentType, "boundary=" + boundary[2..], n)
                                    && n + 9 + |boundary[2..]| == |contentType|
    {
      if IndexOf(contentType, "multipart/form-data;") != 0 {
        return Some(NotMultipart);
      }
      var bp := IndexOf(contentType, "boundary=");
      if bp == -1 {
        return Some(NoBoundary);
      }
      boundary := "--" + contentType[bp + 9..];
      assert boundary[2..] == contentType[bp + 9..];
      assert contentType[bp..] == contentType[bp..bp + 9] + contentType[bp + 9..];
      assert OccursAt(contentType, "boundary=" + boundary[2..], bp);
      return None;
    }

    method AcceptSomeData(data: string) returns (error: Option<Error>)
      requires Valid()
      modifies `dataCollector, `currentStatus, `processingFieldName, `fields, `contents, fields.Values
      ensures Valid()
      ensures fresh(fields.Values - old(fields.Values))
      ensures old(boundary) == "" ==> error == Some(ContentTypeNotSet) && View() == old(View())
      ensures old(boundary) != "" ==>
                Outcome(View(), error) == Accept(old(Settings()), old(maxDataCollectorLength), old(View()), data)
    {
      if |boundary| > 0 {
        dataCollector := dataCollector + data;
        if |dataCollector| > maxDataCollectorLength {
          return Some(TooMuchData);
        }
        error := ProcessData();
      } else {
        error := Some(ContentTypeNotSet);
      }
    }

    method ProcessData() returns (error: Option<Error>)
      requires Valid() && boundary != ""
      modifies `dataCollector, `currentStatus, `processingFieldName, `fields, `contents, fields.Values
      ensures Valid()
      ensures fresh(fields.Values - old(fields.Values))
      ensures Outcome(View(), error) == Process(old(Settings()), old(View()))
    {
      error := None;
      var needToRepeat := true;
      while needToRepeat
        invariant Valid()
        invariant fresh(fields.Values - old(fields.Values))
        invariant needToRepeat ==> error == None && Process(Settings(), View()) == Process(Settings(), old(View()))
        invariant !needToRepeat ==> Outcome(View(), error) == Process(Settings(), old(View()))
        decreases needToRepeat, |dataCollector|, Rank(currentStatus)
      {
        needToRepeat, error := ProcessOnce();
      }
    }

    /** The body of the do/while loop. */
    method ProcessOnce() returns (needToRepeat: bool, error: Option<Error>)
      requires Valid() && boundary != ""
      modifies `dataCollector, `currentStatus, `processingFieldName, `fields, `contents, fields.Values
      ensures Valid()
      ensures fresh(fields.Values - old(fields.Values))
      ensures (Outcome(View(), error), needToRepeat) == Step(Settings(), old(View()))
    {
      match currentStatus {
        case LookingForStartingBoundary =>
          error := None;
          needToRepeat := FindStartingBoundaryAndTruncData();
          if needToRepeat {
            currentStatus := ProcessingHeaders;
          }
        case ProcessingHeaders => needToRepeat, error := ProcessHeaders();
        case ProcessingContentOfTheField => needToRepeat, error := ProcessContent();
      }
    }

    /** The second case of the switch. */
    method ProcessHeaders() returns (needToRepeat: bool, error: Option<Error>)
      requires Valid() && currentStatus == ProcessingHeaders && boundary != ""
      modifies `dataCollector, `currentStatus, `processingFieldName, `fields, `contents
      ensures Valid() && fresh(fields.Values - old(fields.Values))
      ensures (Outcome(View(), error), needToRepeat) == StepHeaders(Settings(), old(View()))
    {
      needToRepeat, error := WaitForHeadersEndAndParseThem();
      if needToRepeat {
        currentStatus := ProcessingContentOfTheField;
      }
    }

    /** The third case of the switch. */
    method ProcessContent() returns (needToRepeat: bool, error: Option<Error>)
      requires Valid() && currentStatus == ProcessingContentOfTheField && boundary != ""
      modifies `dataCollector, `currentStatus, `contents, fields.Values
      ensures Valid() && fields == old(fields)
      ensures (Outcome(View(), error), needToRepeat) == StepContent(Settings(), old(View()))
    {
      needToRepeat, error := ProcessContentOfTheField();
      if needToRepeat {
        currentStatus := LookingForStartingBoundary;
      }
    }

    method ProcessContentOfTheField() returns (finished: bool, error: Option<Error>)
      requires Valid() && currentStatus == ProcessingContentOfTheField && boundary != ""
      modifies `dataCollector, `currentStatus, `contents, fields.Values
      ensures Valid() && fields == old(fields)
      ensures (Outcome(View(), error), finished) == StepContent(Settings(), old(View()))
    {
      error, finished := None, false;
      var boundaryPosition := BoundaryPositionInDataCollector();
      var length;
      if boundaryPosition >= 0 {
        length := boundaryPosition - 2;
      } else {
        length := |dataCollector| - (|boundary| + 2);
      }
      if length > 0 {
        error := SendToField(length);
        if error.Some? {
          return;
        }
      }
      if boundaryPosition >= 0 {
        currentStatus := LookingForStartingBoundary;
        finished := true;
      }
    }

    /** Moves the first `length` buffered bytes to the field being received. */
    method SendToField(length: nat) returns (error: Option<Error>)
      requires Valid() && currentStatus == ProcessingContentOfTheField
      requires 0 < length == FlushLength(boundary, dataCollector)
      modifies `dataCollector, `contents, fields.Values
      ensures Valid()
      ensures Outcome(View(), error) == Flush(Settings(), old(View()))
    {
      error := FillField(dataCollector[..length]);
      if error.Some? {
        return;
      }
      TruncateDataCollectorFromTheBeginning(length);
      RestIs(old(dataCollector), length, dataCollector);
      FlushStores(Settings(), old(View()), length, View());
    }

    /** Hands bytes to the field being received, which keeps all or none of them. */
    method FillField(data: string) returns (error: Option<Error>)
      requires Valid() && processingFieldName in fields
      modifies `contents, fields.Values
      ensures Valid()
      ensures var (field, refused) := Store(old(contents)[processingFieldName], data);
              && error == refused
              && contents == if refused.Some? then old(contents) else old(contents)[processingFieldName := field]
    {
      var field := fields[processingFieldName];
      error := field.AcceptSomeData(data);
      contents := contents[processingFieldName := field.View()];
      assert error.Some? ==> contents == old(contents);
    }

    method WaitForHeadersEndAndParseThem() returns (parsed: bool, error: Option<Error>)
      requires Valid() && currentStatus == ProcessingHeaders && boundary != ""
      modifies `dataCollector, `processingFieldName, `fields, `contents
      ensures Valid() && fresh(fields.Values - old(fields.Values))
      ensures parsed == StepHeaders(Settings(), old(View())).1
      ensures (if parsed then Outcome(View().(status := ProcessingContentOfTheField), error)
              else Outcome(View(), error))
              == StepHeaders(Settings(), old(View())).0
      ensures parsed ==> processingFieldName in fields
    {
      error, parsed := None, false;
      var i := 0;
      while i < |dataCollector| - 3
        invariant 0 <= i && unchanged(this)
        invariant forall j: nat :: j < i ==> !OccursAt(dataCollector, BLANK_LINE, j)
      {
        if dataCollector[i] == '\r' && dataCollector[i + 1] == '\n' && dataCollector[i + 2] == '\r'
           && dataCollector[i + 3] == '\n' {
          assert OccursAt(dataCollector, BLANK_LINE, i);
          FirstIs(dataCollector, BLANK_LINE, 0, i);
          parsed, error := TakeHeaders(i);
          return;
        }
        Mismatch(dataCollector, BLANK_LINE, i,
                 if dataCollector[i] != '\r' then 0 else if dataCollector[i + 1] != '\n' then 1
                 else if dataCollector[i + 2] != '\r' then 2 else 3);
        i := i + 1;
      }
      assert IndexOf(dataCollector, BLANK_LINE) < 0;
    }

    /** Parses the first `i` bytes as headers and, unless that fails, drops them and the blank line. */
    method TakeHeaders(i: nat) returns (parsed: bool, error: Option<Error>)
      requires Valid() && currentStatus == ProcessingHeaders
      requires i == IndexOf(dataCollector, BLANK_LINE)
      modifies `dataCollector, `processingFieldName, `fields, `contents
      ensures Valid() && fresh(fields.Values - old(fields.Values))
      ensures parsed == StepHeaders(Settings(), old(View())).1
      ensures (if parsed then Outcome(View().(status := ProcessingContentOfTheField), error)
              else Outcome(View(), error))
              == StepHeaders(Settings(), old(View())).0
      ensures parsed ==> processingFieldName in fields
    {
      error := ParseHeaders(UntilNul(dataCollector[..i]));
      if error.Some? {
        return false, error;
      }
      TruncateDataCollectorFromTheBeginning(i + 4);
      RestIs(old(dataCollector), i + 4, dataCollector);
      return true, None;
    }

    method ParseHeaders(headers: string) returns (error: Option<Error>)
      requires Valid() && currentStatus == ProcessingHeaders
      modifies `processingFieldName, `fields, `contents
      ensures Valid() && fresh(fields.Values - old(fields.Values))
      ensures Outcome(View(), error) == MultipartSpec.ParseHeaders(Settings(), old(View()), headers)
    {
      if IndexOf(headers, DISPOSITION) == -1 {
        return Some(NotFormData);
      }
      var namePos := IndexOf(headers, NAME_KEY);
      if namePos == -1 {
        return Some(NoName);
      }
      var nameEnd := IndexFrom(headers, QUOTE, namePos + |NAME_KEY|);
      if nameEnd == -1 {
        return Some(OpenName);
      }
      processingFieldName := headers[namePos + |NAME_KEY|..nameEnd];
      var field;
      field, error := NewFieldFor(headers);
      EnterField(field);
    }

    method NewFieldFor(headers: string) returns (field: Field, error: Option<Error>)
      ensures fresh(field) && (field.View(), error) == FieldIn(Settings(), headers)
    {
      field := new Field();
      error := None;
      var filePos := IndexOf(headers, FILENAME_KEY);
      if filePos == -1 {
        field.fieldType := TextType;
      } else {
        field.fieldType := FileType;
        field.tempDir := tempDirForFileUpload;
        field.storage := whereToStore;
        var fileEnd := IndexFrom(headers, QUOTE, filePos + |FILENAME_KEY|);
        if fileEnd == -1 {
          error := Some(OpenFileName);
        } else {
          field.fileName := headers[filePos + |FILENAME_KEY|..fileEnd];
        }
      }
    }

    /** Binds the name being processed to a new field object. */
    method EnterField(field: Field)
      requires Valid() && currentStatus == ProcessingHeaders
      requires field !in fields.Values
      modifies `fields, `contents, field`key
      ensures Valid()
      ensures fields == old(fields)[processingFieldName := field]
      ensures contents == old(contents)[processingFieldName := field.View()]
    {
      fields := fields[processingFieldName := field];
      contents := contents[processingFieldName := field.View()];
      field.key := processingFieldName;
    }

    method TruncateDataCollectorFromTheBeginning(n: nat)
      requires n <= |dataCollector|
      modifies `dataCollector
      ensures old(dataCollector) == old(dataCollector[..n]) + dataCollector
    {
      dataCollector := dataCollector[n..];
    }

    method BoundaryPositionInDataCollector() returns (position: int)
      ensures position == IndexOf(dataCollector, boundary)
    {
      var bl := |boundary|;
      if |dataCollector| >= bl {
        var found := false;
        var i := 0;
        while i <= |dataCollector| - bl && !found
          invariant 0 <= i && !found
          invariant forall j: nat :: j < i ==> !OccursAt(dataCollector, boundary, j)
          decreases |dataCollector| - bl - i
        {
          found := true;
          var j := 0;
          while j < bl && found
            invariant 0 <= j <= bl
            invariant found ==> dataCollector[i..i + j] == boundary[..j]
            invariant !found ==> !OccursAt(dataCollector, boundary, i)
            decreases bl - j
          {
            if dataCollector[i + j] != boundary[j] {
              found := false;
              Mismatch(dataCollector, boundary, i, j);
            } else {
              assert dataCollector[i..i + j + 1] == dataCollector[i..i + j] + [boundary[j]];
            }
            j := j + 1;
          }
          if found {
            assert OccursAt(dataCollector, boundary, i);
            FirstIs(dataCollector, boundary, 0, i);
            return i;
          }
          i := i + 1;
        }
      }
      return -1;
    }

    method FindStartingBoundaryAndTruncData() returns (found: bool)
      requires Valid() && currentStatus == LookingForStartingBoundary && boundary != ""
      modifies `dataCollector
      ensures found == StepBoundary(Settings(), old(View())).1
      ensures (if found then View().(status := ProcessingHeaders) else View())
              == StepBoundary(Settings(), old(View())).0.state
    {
      var n := BoundaryPositionInDataCollector();
      if n >= 0 {
        TruncateDataCollectorFromTheBeginning(n + |boundary|);
        return true;
      } else {
        return false;
      }
    }
  }

  /** Feeds a request body to a parser as it is read, until the body ends or an exception is raised. */
  method FeedBody(parser: Parser, chunks: seq<string>) returns (error: Option<Error>)
    requires parser.Valid() && parser.boundary != ""
    modifies parser, parser.fields.Values
    ensures parser.Valid() && fresh(parser.fields.Values - old(parser.fields.Values))
    ensures Outcome(parser.View(), error)
            == AcceptBody(old(parser.Settings()), old(parser.maxDataCollectorLength), old(parser.View()), chunks)
  {
    error := None;
    var i := 0;
    while i < |chunks|
      invariant 0 <= i <= |chunks| && error.None? && parser.Valid()
      invariant fresh(parser.fields.Values - old(parser.fields.Values))
      invariant parser.Settings() == old(parser.Settings())
      invariant parser.maxDataCollectorLength == old(parser.maxDataCollectorLength)
      invariant AcceptBody(parser.Settings(), parser.maxDataCollectorLength, parser.View(), chunks[i..])
                == AcceptBody(parser.Settings(), parser.maxDataCollectorLength, old(parser.View()), chunks)
    {
      error := parser.AcceptSomeData(chunks[i]);
      if error.Some? {
        return;
      }
      i := i + 1;
    }
  }
}
