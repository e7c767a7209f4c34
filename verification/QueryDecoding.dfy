/** `decodParams`: percent decoding in place, splitting, and the folding of repeated keys; section 2.1 of RFC 3986. */
module QueryDecoding {
  import opened Basics

  // ---- What the code reads of two characters after a percent sign ----

  function HexDigit(c: char): Option<nat> {
    if '0' <= c <= '9' then Some(c as int - '0' as int)
    else if 'a' <= c <= 'f' then Some(c as int - 'a' as int + 10)
    else if 'A' <= c <= 'F' then Some(c as int - 'A' as int + 10)
    else None
  }

  predicate IsSpace(c: char) {
    c == ' ' || 9 <= c as int <= 13
  }

  /**
   `ss >> std::hex >> specar` on a stream of two characters: white space is skipped, a sign is taken,
   reading stops at the first character that is no digit, and it fails when there is none to read.
   */
  function ReadHex(a: char, b: char): (n: Option<nat>)
    ensures n.Some? ==> n.value < 0x1_0000_0000
  {
    if IsSpace(a) || a == '+' then HexDigit(b)
    else if a == '-' then
      match HexDigit(b)
      case None => None
      case Some(n) => Some((0x1_0000_0000 - n) % 0x1_0000_0000)
    else
      match HexDigit(a)
      case None => None
      case Some(n) =>
        if a == '0' && (b == 'x' || b == 'X') then None
        else match HexDigit(b)
             case None => Some(n)
             case Some(m) => Some(n * 16 + m)
  }

  /** `static_cast<char>(specar)`. */
  function CharOf(n: nat): (c: char)
    ensures c as int == n % 256
  {
    (n % 256) as char
  }

  // ---- Decoding ----

  function Decode(s: string): string
    decreases |s|
  {
    if s == "" then ""
    else if s[0] == '+' then " " + Decode(s[1..])
    else if s[0] != '%' then [s[0]] + Decode(s[1..])
    else if |s| >= 2 && s[1] == '%' then "%" + Decode(s[2..])
    else if |s| < 3 || ReadHex(s[1], s[2]).None? then "%" + Decode(s[1..])
    else [CharOf(ReadHex(s[1], s[2]).value)] + Decode(s[3..])
  }

  /** `find_first_of("%+", start)`, with the length for npos. */
  function FirstSpecial(s: string, start: nat): (n: nat)
    requires start <= |s|
    ensures start <= n <= |s| && (n < |s| ==> s[n] == '%' || s[n] == '+')
    ensures forall i :: start <= i < n ==> s[i] != '%' && s[i] != '+'
    decreases |s| - start
  {
    if start == |s| || s[start] == '%' || s[start] == '+' then start else FirstSpecial(s, start + 1)
  }

  lemma {:induction false} PlainIsKept(a: string, b: string)
    requires forall i :: 0 <= i < |a| ==> a[i] != '%' && a[i] != '+'
    ensures Decode(a + b) == a + Decode(b)
  {
    if a == "" {
      assert a + b == b;
    } else {
      assert (a + b)[1..] == a[1..] + b;
      PlainIsKept(a[1..], b);
      assert a == [a[0]] + a[1..];
    }
  }

  /** Up to `start` the string is decoded; what is `whole` is the decoding of the original one. */
  predicate DecodedTo(s: string, start: nat, whole: string)
    requires start <= |s|
  {
    s[..start] + Decode(s[start..]) == whole
  }

  lemma SkipPlain(s: string, start: nat, end: nat, whole: string)
    requires start <= end <= |s| && DecodedTo(s, start, whole)
    requires forall i :: start <= i < end ==> s[i] != '%' && s[i] != '+'
    ensures DecodedTo(s, end, whole)
  {
    assert s[start..] == s[start..end] + s[end..];
    PlainIsKept(s[start..end], s[end..]);
    LongerPrefix(s, start, end, Decode(s[end..]));
  }

  lemma LongerPrefix(s: string, start: nat, end: nat, rest: string)
    requires start <= end <= |s|
    ensures s[..start] + (s[start..end] + rest) == s[..end] + rest
  {
  }

  /** One character takes the place of `n` characters that decode to it. */
  lemma Replaced(s: string, end: nat, c: char, n: nat, whole: string)
    requires 1 <= n && end + n <= |s| && DecodedTo(s, end, whole)
    requires Decode(s[end..]) == [c] + Decode(s[end + n..])
    ensures DecodedTo(s[..end] + [c] + s[end + n..], end + 1, whole)
  {
    var r := s[..end] + [c] + s[end + n..];
    assert r[..end + 1] == s[..end] + [c] && r[end + 1..] == s[end + n..];
    assert s[..end] + ([c] + Decode(s[end + n..])) == s[..end] + [c] + Decode(s[end + n..]);
  }

  lemma DecodeAt(s: string, end: nat)
    requires end < |s|
    ensures s[end..][0] == s[end]
    ensures forall n :: 1 <= n && end + n <= |s| ==> s[end..][n..] == s[end + n..]
    ensures end + 1 < |s| ==> s[end..][1] == s[end + 1]
    ensures end + 2 < |s| ==> s[end..][2] == s[end + 2]
  {
  }

  lemma SameCharacter(s: string, end: nat)
    requires end < |s|
    ensures s[..end] + [s[end]] + s[end + 1..] == s
  {
  }

  /** The string with the sequence at `end` decoded: the body of the first loop of `decodParams`. */
  method DecodeOne(s: string, end: nat, ghost whole: string) returns (r: string)
    requires end < |s| && (s[end] == '%' || s[end] == '+') && DecodedTo(s, end, whole)
    ensures end + 1 <= |r| <= |s| && DecodedTo(r, end + 1, whole)
  {
    DecodeAt(s, end);
    SameCharacter(s, end);
    var len := |s| - end - 1;
    if s[end] == '%' {
      if len >= 1 && s[end + 1] == '%' {
        Replaced(s, end, '%', 2, whole);
        return s[..end] + [s[end]] + s[end + 2..];
      }
      if len < 2 {
        Replaced(s, end, '%', 1, whole);
        return s;
      }
      var specar := ReadHex(s[end + 1], s[end + 2]);
      if specar.None? {
        Replaced(s, end, '%', 1, whole);
        return s;
      }
      Replaced(s, end, CharOf(specar.value), 3, whole);
      return s[..end] + [CharOf(specar.value)] + s[end + 3..];
    }
    Replaced(s, end, ' ', 1, whole);
    return s[..end] + " " + s[end + 1..];
  }

  lemma NothingDecoded(s: string)
    ensures DecodedTo(s, 0, Decode(s))
  {
    assert s[0..] == s;
  }

  lemma AllDecoded(s: string, whole: string)
    requires DecodedTo(s, |s|, whole)
    ensures s == whole
  {
    assert s[..|s|] == s && s[|s|..] == "";
  }

  method DecodeText(p: string) returns (paramstr: string)
    ensures paramstr == Decode(p)
  {
    ghost var whole := Decode(p);
    paramstr := p;
    var start: nat := 0;
    var end := FirstSpecial(paramstr, start);
    NothingDecoded(p);
    while end < |paramstr|
      invariant start <= |paramstr| && end == FirstSpecial(paramstr, start) && DecodedTo(paramstr, start, whole)
      decreases |paramstr| - start
    {
      SkipPlain(paramstr, start, end, whole);
      paramstr := DecodeOne(paramstr, end, whole);
      start := end + 1;
      end := FirstSpecial(paramstr, start);
    }
    SkipPlain(paramstr, start, end, whole);
    AllDecoded(paramstr, whole);
  }

  // ---- Splitting and folding ----

  type Parameters = map<string, string>

  /** `find(c, start)`, with the length for npos. */
  function FirstChar(s: string, c: char, start: nat): (n: nat)
    requires start <= |s|
    ensures start <= n <= |s| && (n < |s| ==> s[n] == c) && forall i :: start <= i < n ==> s[i] != c
    decreases |s| - start
  {
    if start == |s| || s[start] == c then start else FirstChar(s, c, start + 1)
  }

  /** The parameters between the ampersands; one that is empty for the empty string. */
  function Pieces(s: string): (r: seq<string>)
    ensures r != []
    decreases |s|
  {
    var end := FirstChar(s, '&', 0);
    if end == |s| then [s] else [s[..end]] + Pieces(s[end + 1..])
  }

  function Enter(parameters: Parameters, key: string, value: string): Parameters {
    if key !in parameters then parameters[key := value]
    else
      var arrayKey := key + "[]";
      var former := if arrayKey in parameters then parameters[arrayKey] else parameters[key];
      parameters[arrayKey := former + "|" + value][key := value]
  }

  function EnterPiece(parameters: Parameters, theParam: string): Parameters {
    var posEq := FirstChar(theParam, '=', 0);
    if posEq == |theParam| then parameters[theParam := ""]
    else Enter(parameters, theParam[..posEq], theParam[posEq + 1..])
  }

  function EnterAll(parameters: Parameters, pieces: seq<string>): Parameters {
    if pieces == [] then parameters
    else EnterPiece(EnterAll(parameters, pieces[..|pieces| - 1]), pieces[|pieces| - 1])
  }

  class HttpRequest {
    var parameters: Parameters

    constructor ()
      ensures parameters == map[]
    {
      parameters := map[];
    }

    method DecodParams(p: string)
      modifies this
      ensures parameters == EnterAll(old(parameters), Pieces(Decode(p)))
    {
      var paramstr := DecodeText(p);
      SplitParams(paramstr, Pieces(paramstr));
    }

    /** The second loop of `decodParams`. */
    method SplitParams(paramstr: string, ghost whole: seq<string>)
      requires whole == Pieces(paramstr)
      modifies this
      ensures parameters == EnterAll(old(parameters), whole)
    {
      var start: nat := 0;
      var islastParam := false;
      ghost var done: seq<string> := [];
      NothingSplit(paramstr);
      while !islastParam
        invariant islastParam || start <= |paramstr|
        invariant parameters == EnterAll(old(parameters), done) && SplitTo(paramstr, start, islastParam, done, whole)
        decreases !islastParam, |paramstr| - start
      {
        var end := FirstChar(paramstr, '&', start);
        islastParam := end == |paramstr|;
        var theParam := paramstr[start..end];
        NextPiece(paramstr, start, end, done, whole);
        EnterNext(theParam, old(parameters), done);
        done := done + [theParam];
        start := end + 1;
      }
    }

    method EnterNext(theParam: string, ghost before: Parameters, ghost done: seq<string>)
      requires parameters == EnterAll(before, done)
      modifies this
      ensures parameters == EnterAll(before, done + [theParam])
    {
      EnterOneMore(before, done, theParam);
      EnterParam(theParam);
    }

    /** Enters one parameter, folding its value into the array of its key when the key is known. */
    method EnterParam(theParam: string)
      modifies this
      ensures parameters == EnterPiece(old(parameters), theParam)
    {
      var posEq := FirstChar(theParam, '=', 0);
      if posEq == |theParam| {
        parameters := parameters[theParam := ""];
      } else {
        var key := theParam[..posEq];
        var value := theParam[posEq + 1..];
        if key !in parameters {
          parameters := parameters[key := value];
        } else {
          var arrayKey := key + "[]";
          if arrayKey in parameters {
            parameters := parameters[arrayKey := parameters[arrayKey] + "|" + value];
          } else {
            parameters := parameters[arrayKey := parameters[key] + "|" + value];
          }
          parameters := parameters[key := value];
        }
      }
    }
  }

  lemma EnterOneMore(parameters: Parameters, done: seq<string>, piece: string)
    ensures EnterAll(parameters, done + [piece]) == EnterPiece(EnterAll(parameters, done), piece)
  {
    assert (done + [piece])[..|done|] == done;
  }

  lemma {:induction false} FirstCharOfRest(s: string, c: char, start: nat, at: nat)
    requires start <= at <= |s|
    ensures FirstChar(s[start..], c, at - start) == FirstChar(s, c, at) - start
    decreases |s| - at
  {
    if at < |s| && s[at] != c {
      FirstCharOfRest(s, c, start, at + 1);
    }
  }

  /** The pieces before `start` are done. */
  predicate SplitTo(s: string, start: nat, last: bool, done: seq<string>, whole: seq<string>) {
    match last
    case true => whole == done
    case false => start <= |s| && whole == done + Pieces(s[start..])
  }

  lemma NothingSplit(s: string)
    ensures SplitTo(s, 0, false, [], Pieces(s))
  {
    assert s[0..] == s;
  }

  lemma NextPiece(s: string, start: nat, end: nat, done: seq<string>, whole: seq<string>)
    requires start <= |s| && end == FirstChar(s, '&', start) && SplitTo(s, start, false, done, whole)
    ensures SplitTo(s, end + 1, end == |s|, done + [s[start..end]], whole)
  {
    FirstCharOfRest(s, '&', start, start);
    FirstPiece(s[start..], end - start);
    if end < |s| {
      CutAt(s, start, end);
      MoveFirst(done, s[start..end], Pieces(s[end + 1..]));
    } else {
      assert s[start..end] == s[start..];
    }
  }

  lemma FirstPiece(s: string, end: nat)
    requires end == FirstChar(s, '&', 0)
    ensures Pieces(s) == if end == |s| then [s] else [s[..end]] + Pieces(s[end + 1..])
  {
  }

  lemma CutAt(s: string, start: nat, end: nat)
    requires start <= end < |s|
    ensures s[start..][..end - start] == s[start..end] && s[start..][end - start + 1..] == s[end + 1..]
  {
  }

  // ---- Any percent encoding is undone ----

  /** A character of a form as a client may write it. */
  datatype Coded = Plain(c: char) | Plus | Escaped(c: char, upper: bool)
  {
    predicate Valid() {
      match this
      case Plain(c) => c != '%' && c != '+'
      case Plus => true
      case Escaped(c, _) => c as int < 256
    }

    function Raw(): char {
      match this
      case Plain(c) => c
      case Plus => ' '
      case Escaped(c, _) => c
    }

    function Text(): string
      requires Valid()
    {
      match this
      case Plain(c) => [c]
      case Plus => "+"
      case Escaped(c, upper) => ['%', Digit(c as int / 16, upper), Digit(c as int % 16, upper)]
    }
  }

  function Digit(n: nat, upper: bool): (c: char)
    requires n < 16
    ensures c == (if upper then "0123456789ABCDEF" else "0123456789abcdef")[n]
    ensures HexDigit(c) == Some(n) && !IsSpace(c) && c != '+' && c != '-' && c != '%' && c != 'x' && c != 'X'
  {
    if n < 10 then (n + '0' as int) as char
    else if upper then (n - 10 + 'A' as int) as char
    else (n - 10 + 'a' as int) as char
  }

  predicate AllValid(codes: seq<Coded>) {
    forall i :: 0 <= i < |codes| ==> codes[i].Valid()
  }

  function Raw(codes: seq<Coded>): (s: string)
    ensures |s| == |codes|
  {
    if codes == [] then "" else [codes[0].Raw()] + Raw(codes[1..])
  }

  function Text(codes: seq<Coded>): string
    requires AllValid(codes)
  {
    if codes == [] then "" else codes[0].Text() + Text(codes[1..])
  }

  lemma TwoDigits(n: nat, m: nat, upper: bool)
    requires n < 16 && m < 16
    ensures ReadHex(Digit(n, upper), Digit(m, upper)) == Some(n * 16 + m)
  {
  }

  lemma OneIsDecoded(code: Coded, rest: string)
    requires code.Valid()
    ensures Decode(code.Text() + rest) == [code.Raw()] + Decode(rest)
  {
    var s := code.Text() + rest;
    match code
    case Plain(c) => assert s[1..] == rest;
    case Plus => assert s[1..] == rest;
    case Escaped(c, upper) =>
      TwoDigits(c as int / 16, c as int % 16, upper);
      IsEscape(s[1], s[2], rest, c as int, c as int);
      assert s == ['%', s[1], s[2]] + rest;
  }

  /** Whatever a client chooses to escape, and in whichever case, is decoded to what it stands for. */
  lemma {:induction false} DecodeInvertsCoding(codes: seq<Coded>)
    requires AllValid(codes)
    ensures Decode(Text(codes)) == Raw(codes)
  {
    if codes != [] {
      DecodeInvertsCoding(codes[1..]);
      OneIsDecoded(codes[0], Text(codes[1..]));
    }
  }

  // ---- Percent signs that are no escapes ----

  predicate IsHex(c: char) {
    c in "0123456789abcdefABCDEF"
  }

  /** Characters that the stream skips or takes for a sign before the digits. */
  predicate IsSkipped(c: char) {
    c == ' ' || 9 <= c as int <= 13 || c == '+'
  }

  lemma HexDigitIsHex(c: char)
    ensures HexDigit(c).Some? <==> IsHex(c)
  {
    if IsHex(c) {
      assert '0' <= c <= '9' || 'a' <= c <= 'f' || 'A' <= c <= 'F';
    }
    match HexDigit(c)
    case None =>
    case Some(n) => assert c == "0123456789abcdef"[n] || c == "0123456789ABCDEF"[n];
  }

  lemma ThreeCharacters(a: char, b: char, s: string)
    requires a != '%'
    ensures Decode(['%', a, b] + s)
            == match ReadHex(a, b)
               case None => "%" + Decode([a, b] + s)
               case Some(n) => [CharOf(n)] + Decode(s)
  {
    assert (['%', a, b] + s)[1..] == [a, b] + s && (['%', a, b] + s)[3..] == s;
  }

  /** Two percent signs are one, and one that less than two characters follow is left as it is. */
  lemma DoubledOrLast(c: char, s: string)
    ensures Decode("%%" + s) == "%" + Decode(s)
    ensures Decode("%") == "%"
    ensures c != '%' && c != '+' ==> Decode(['%', c]) == ['%', c]
  {
    assert ("%%" + s)[2..] == s;
    if c != '%' && c != '+' {
      PlainIsKept([c], "");
      assert [c] + "" == [c] && ['%', c][1..] == [c];
    }
  }

  lemma HalfRead(n: nat, upper: bool, c: char)
    requires n < 16
    ensures !IsHex(c) && (n == 0 ==> c != 'x' && c != 'X') ==> ReadHex(Digit(n, upper), c) == Some(n)
    ensures IsSkipped(c) ==> ReadHex(c, Digit(n, upper)) == Some(n)
    ensures ReadHex('-', Digit(n, upper)) == Some((0x1_0000_0000 - n) % 0x1_0000_0000)
  {
    HexDigitIsHex(c);
    assert Digit(n, upper) == '0' ==> n == 0;
  }

  lemma IsEscape(a: char, b: char, s: string, n: nat, r: nat)
    requires a != '%' && ReadHex(a, b) == Some(n) && r == n % 256
    ensures Decode(['%', a, b] + s) == [r as char] + Decode(s)
  {
    ThreeCharacters(a, b, s);
  }

  /** One digit may stand for the character: before one that is then lost, or after white space or a sign. */
  lemma HalfEscape(n: nat, upper: bool, c: char, s: string)
    requires n < 16
    ensures !IsHex(c) && (n == 0 ==> c != 'x' && c != 'X') ==>
              Decode(['%', Digit(n, upper), c] + s) == [n as char] + Decode(s)
    ensures IsSkipped(c) ==> Decode(['%', c, Digit(n, upper)] + s) == [n as char] + Decode(s)
    ensures Decode(['%', '-', Digit(n, upper)] + s) == [((256 - n) % 256) as char] + Decode(s)
  {
    HalfRead(n, upper, c);
    if !IsHex(c) && (n == 0 ==> c != 'x' && c != 'X') {
      IsEscape(Digit(n, upper), c, s, n, n);
    }
    if IsSkipped(c) {
      IsEscape(c, Digit(n, upper), s, n, n);
    }
    IsEscape('-', Digit(n, upper), s, (0x1_0000_0000 - n) % 0x1_0000_0000, (256 - n) % 256);
  }

  /** The percent sign is kept, and decoding goes on after it, exactly when no digit is found. */
  predicate IsKept(a: char, b: char) {
    || (IsSkipped(a) && !IsHex(b)) || (a == '-' && !IsHex(b))
    || (!IsSkipped(a) && a != '-' && !IsHex(a)) || (a == '0' && (b == 'x' || b == 'X'))
  }

  lemma NoEscape(a: char, b: char, s: string)
    requires a != '%' && IsKept(a, b)
    ensures Decode(['%', a, b] + s) == "%" + Decode([a, b] + s)
  {
    HexDigitIsHex(a);
    HexDigitIsHex(b);
    ThreeCharacters(a, b, s);
  }

  // ---- Forms ----

  datatype Pair = Pair(key: string, value: string)
  {
    predicate Valid() {
      '&' !in key && '=' !in key && '&' !in value
    }

    function Text(): string {
      key + "=" + value
    }
  }

  function Form(pairs: seq<Pair>): string
    requires pairs != []
  {
    if |pairs| == 1 then pairs[0].Text() else pairs[0].Text() + "&" + Form(pairs[1..])
  }

  function Texts(pairs: seq<Pair>): (r: seq<string>)
    ensures |r| == |pairs| && forall i :: 0 <= i < |r| ==> r[i] == pairs[i].Text()
  {
    seq(|pairs|, i requires 0 <= i < |pairs| => pairs[i].Text())
  }

  lemma {:induction false} FirstCharAfter(a: string, c: char, b: string, at: nat)
    requires c !in a && at <= |a|
    ensures FirstChar(a + [c] + b, c, at) == |a|
    decreases |a| - at
  {
    if at < |a| {
      assert (a + [c] + b)[at] == a[at];
      FirstCharAfter(a, c, b, at + 1);
    }
  }

  lemma {:induction false} NoChar(a: string, c: char, at: nat)
    requires c !in a && at <= |a|
    ensures FirstChar(a, c, at) == |a|
    decreases |a| - at
  {
    if at < |a| {
      NoChar(a, c, at + 1);
    }
  }

  lemma NoAmpersand(p: Pair)
    requires p.Valid()
    ensures '&' !in p.Text()
  {
  }

  lemma FirstOfForm(first: string, rest: string)
    requires '&' !in first
    ensures Pieces(first + "&" + rest) == [first] + Pieces(rest)
  {
    var s := first + "&" + rest;
    assert s == first + ['&'] + rest;
    FirstCharAfter(first, '&', rest, 0);
    assert s[..|first|] == first && s[|first| + 1..] == rest;
  }

  lemma {:induction false} PiecesOfForm(pairs: seq<Pair>)
    requires pairs != [] && forall i :: 0 <= i < |pairs| ==> pairs[i].Valid()
    ensures Pieces(Form(pairs)) == Texts(pairs)
  {
    var first := pairs[0].Text();
    NoAmpersand(pairs[0]);
    if |pairs| == 1 {
      NoChar(first, '&', 0);
      assert Texts(pairs) == [first];
    } else {
      PiecesOfForm(pairs[1..]);
      FirstOfForm(first, Form(pairs[1..]));
      assert Texts(pairs) == [first] + Texts(pairs[1..]);
    }
  }

  lemma EnterPair(parameters: Parameters, p: Pair)
    requires p.Valid()
    ensures EnterPiece(parameters, p.Text()) == Enter(parameters, p.key, p.value)
  {
    FirstCharAfter(p.key, '=', p.value, 0);
    assert p.Text()[..|p.key|] == p.key && p.Text()[|p.key| + 1..] == p.value;
  }

  // ---- One parameter more ----

  lemma FirstOfMore(s: string, end: nat, last: string)
    requires end < |s| && s[end] == '&'
    ensures s + "&" + last == s[..end] + "&" + (s[end + 1..] + "&" + last)
  {
    assert s == s[..end] + "&" + s[end + 1..];
  }

  lemma {:induction false} PiecesOfMore(s: string, last: string)
    requires '&' !in last
    ensures Pieces(s + "&" + last) == Pieces(s) + [last]
    decreases |s|
  {
    var end := FirstChar(s, '&', 0);
    FirstPiece(s, end);
    if end == |s| {
      FirstOfForm(s, last);
      NoChar(last, '&', 0);
    } else {
      PiecesOfMore(s[end + 1..], last);
      FirstOfForm(s[..end], s[end + 1..] + "&" + last);
      FirstOfMore(s, end, last);
      Regroup([s[..end]], Pieces(s[end + 1..]), [last]);
    }
  }

  /** What a query makes of the parameters, with one more parameter at its end. */
  lemma EnterMore(before: Parameters, s: string, last: string)
    requires '&' !in last
    ensures EnterAll(before, Pieces(s + "&" + last)) == EnterPiece(EnterAll(before, Pieces(s)), last)
    ensures EnterAll(before, Pieces(last)) == EnterPiece(before, last)
  {
    PiecesOfMore(s, last);
    EnterOneMore(before, Pieces(s), last);
    NoChar(last, '&', 0);
    EnterOneMore(before, [], last);
    assert [] + [last] == [last];
  }

  /** A name without an equals sign empties its parameter, known or not, and leaves the others and its array. */
  lemma BareNameEmpties(before: Parameters, s: string, name: string)
    requires '&' !in name && '=' !in name
    ensures EnterAll(before, Pieces(s + "&" + name)) == EnterAll(before, Pieces(s))[name := ""]
    ensures EnterAll(before, Pieces(name)) == before[name := ""]
  {
    EnterMore(before, s, name);
    NoChar(name, '=', 0);
  }

  /** A value is entered under its key; when the key is known, it is also added to the array, or makes it. */
  lemma ValueIsAdded(before: Parameters, s: string, p: Pair)
    requires p.Valid()
    ensures var former, arrayKey := EnterAll(before, Pieces(s)), p.key + "[]";
            EnterAll(before, Pieces(s + "&" + p.Text()))
            == if p.key !in former then former[p.key := p.value]
               else if arrayKey in former then former[arrayKey := former[arrayKey] + "|" + p.value][p.key := p.value]
               else former[arrayKey := former[p.key] + "|" + p.value][p.key := p.value]
  {
    NoAmpersand(p);
    EnterMore(before, s, p.Text());
    EnterPair(EnterAll(before, Pieces(s)), p);
  }

  // ---- What becomes of repeated keys ----

  /** The values given for a key, in order. */
  function Values(pairs: seq<Pair>, key: string): (r: seq<string>)
    ensures |r| <= |pairs|
  {
    if pairs == [] then []
    else
      var p := pairs[|pairs| - 1];
      Values(pairs[..|pairs| - 1], key) + (if p.key == key then [p.value] else [])
  }

  function Joined(values: seq<string>): string
    requires values != []
  {
    if |values| == 1 then values[0] else Joined(values[..|values| - 1]) + "|" + values[|values| - 1]
  }

  /** No key is another key followed by brackets. */
  predicate NoArrayKeys(pairs: seq<Pair>) {
    forall i, j :: 0 <= i < |pairs| && 0 <= j < |pairs| ==> pairs[i].key != pairs[j].key + "[]"
  }

  function Entered(pairs: seq<Pair>): Parameters {
    if pairs == [] then map[]
    else
      var p := pairs[|pairs| - 1];
      Enter(Entered(pairs[..|pairs| - 1]), p.key, p.value)
  }

  /** Each key has its last value. */
  ghost predicate LastsIn(parameters: Parameters, pairs: seq<Pair>) {
    forall key {:trigger Values(pairs, key)} :: Values(pairs, key) != [] ==>
      key in parameters && parameters[key] == Values(pairs, key)[|Values(pairs, key)| - 1]
  }

  /** Each repeated key also has an array of all its values. */
  ghost predicate ArraysIn(parameters: Parameters, pairs: seq<Pair>) {
    forall key {:trigger Values(pairs, key)} :: |Values(pairs, key)| >= 2 ==>
      key + "[]" in parameters && parameters[key + "[]"] == Joined(Values(pairs, key))
  }

  ghost predicate IsName(pairs: seq<Pair>, name: string) {
    Values(pairs, name) != [] || exists key :: |Values(pairs, key)| >= 2 && name == key + "[]"
  }

  ghost predicate NothingElseIn(parameters: Parameters, pairs: seq<Pair>) {
    forall name {:trigger IsName(pairs, name)} :: name in parameters ==> IsName(pairs, name)
  }

  ghost predicate Folds(parameters: Parameters, pairs: seq<Pair>) {
    LastsIn(parameters, pairs) && ArraysIn(parameters, pairs) && NothingElseIn(parameters, pairs)
  }

  lemma {:induction false} GivenKey(pairs: seq<Pair>, key: string)
    requires Values(pairs, key) != []
    ensures exists i :: 0 <= i < |pairs| && pairs[i].key == key
  {
    var last := |pairs| - 1;
    if pairs[last].key != key {
      GivenKey(pairs[..last], key);
      var i :| 0 <= i < last && pairs[..last][i].key == key;
      assert pairs[i].key == key;
    }
  }

  lemma SameBrackets(a: string, b: string)
    requires a + "[]" == b + "[]"
    ensures a == b
  {
    assert a == (a + "[]")[..|a|] && b == (b + "[]")[..|b|];
  }

  /** A key that is given is not the array key of another one. */
  lemma NotAnArrayKey(pairs: seq<Pair>, key: string, other: string)
    requires NoArrayKeys(pairs) && Values(pairs, key) != [] && Values(pairs, other) != []
    ensures key != other + "[]"
  {
    GivenKey(pairs, key);
    GivenKey(pairs, other);
  }

  lemma ValuesOfMore(pairs: seq<Pair>, p: Pair, key: string)
    ensures Values(pairs + [p], key) == if p.key == key then Values(pairs, key) + [p.value] else Values(pairs, key)
  {
    assert (pairs + [p])[..|pairs|] == pairs;
    assert Values(pairs, key) + [] == Values(pairs, key);
  }

  lemma JoinedWithMore(values: seq<string>, value: string)
    requires values != []
    ensures Joined(values + [value]) == Joined(values) + "|" + value
  {
    assert (values + [value])[..|values|] == values;
  }

  lemma NewIsNotAnArrayKey(pairs: seq<Pair>, p: Pair, key: string)
    requires NoArrayKeys(pairs + [p]) && Values(pairs, key) != []
    ensures p.key != key + "[]" && key != p.key + "[]"
  {
    ValuesOfMore(pairs, p, key);
    ValuesOfMore(pairs, p, p.key);
    NotAnArrayKey(pairs + [p], p.key, key);
    NotAnArrayKey(pairs + [p], key, p.key);
  }

  /** A key is known exactly when it was given before. */
  lemma KnownKey(parameters: Parameters, pairs: seq<Pair>, p: Pair)
    requires NoArrayKeys(pairs + [p]) && LastsIn(parameters, pairs) && NothingElseIn(parameters, pairs)
    ensures p.key in parameters <==> Values(pairs, p.key) != []
  {
    forall key | |Values(pairs, key)| >= 2 ensures p.key != key + "[]" {
      NewIsNotAnArrayKey(pairs, p, key);
    }
    assert p.key in parameters ==> IsName(pairs, p.key);
  }

  /** Its array is known exactly when it was given at least twice. */
  lemma KnownArray(parameters: Parameters, pairs: seq<Pair>, p: Pair)
    requires NoArrayKeys(pairs + [p]) && ArraysIn(parameters, pairs) && NothingElseIn(parameters, pairs)
    ensures p.key + "[]" in parameters <==> |Values(pairs, p.key)| >= 2
  {
    var arrayKey := p.key + "[]";
    forall key | Values(pairs, key) != [] ensures key != arrayKey {
      NewIsNotAnArrayKey(pairs, p, key);
    }
    forall key | |Values(pairs, key)| >= 2 && arrayKey == key + "[]" ensures key == p.key {
      SameBrackets(p.key, key);
    }
    assert arrayKey in parameters ==> IsName(pairs, arrayKey);
  }

  lemma OthersKept(parameters: Parameters, p: Pair, name: string)
    requires name in parameters && name != p.key && name != p.key + "[]"
    ensures var r := Enter(parameters, p.key, p.value); name in r && r[name] == parameters[name]
  {
  }

  lemma LastValueKept(parameters: Parameters, pairs: seq<Pair>, p: Pair, key: string)
    requires NoArrayKeys(pairs + [p]) && LastsIn(parameters, pairs) && Values(pairs + [p], key) != []
    ensures var r, values := Enter(parameters, p.key, p.value), Values(pairs + [p], key);
            key in r && r[key] == values[|values| - 1]
  {
    ValuesOfMore(pairs, p, key);
    if key != p.key {
      NewIsNotAnArrayKey(pairs, p, key);
      OthersKept(parameters, p, key);
    }
  }

  lemma LastOf(parameters: Parameters, pairs: seq<Pair>, key: string)
    requires LastsIn(parameters, pairs) && Values(pairs, key) != []
    ensures key in parameters && parameters[key] == Values(pairs, key)[|Values(pairs, key)| - 1]
  {
  }

  lemma ArrayOf(parameters: Parameters, pairs: seq<Pair>, key: string)
    requires ArraysIn(parameters, pairs) && |Values(pairs, key)| >= 2
    ensures key + "[]" in parameters && parameters[key + "[]"] == Joined(Values(pairs, key))
  {
  }

  /** What stands for all values so far: the array, or the only value. */
  lemma FormerIsJoined(parameters: Parameters, pairs: seq<Pair>, p: Pair)
    requires NoArrayKeys(pairs + [p]) && Folds(parameters, pairs) && Values(pairs, p.key) != []
    ensures p.key in parameters
    ensures (if p.key + "[]" in parameters then parameters[p.key + "[]"] else parameters[p.key])
            == Joined(Values(pairs, p.key))
  {
    KnownArray(parameters, pairs, p);
    LastOf(parameters, pairs, p.key);
    if |Values(pairs, p.key)| >= 2 {
      ArrayOf(parameters, pairs, p.key);
    }
  }

  lemma OwnArray(parameters: Parameters, p: Pair, values: seq<string>)
    requires p.key in parameters && values != []
    requires (if p.key + "[]" in parameters then parameters[p.key + "[]"] else parameters[p.key]) == Joined(values)
    ensures var r := Enter(parameters, p.key, p.value);
            p.key + "[]" in r && r[p.key + "[]"] == Joined(values + [p.value])
  {
    JoinedWithMore(values, p.value);
    assert |p.key + "[]"| != |p.key|;
  }

  lemma ArrayKept(parameters: Parameters, pairs: seq<Pair>, p: Pair, key: string)
    requires NoArrayKeys(pairs + [p]) && Folds(parameters, pairs) && |Values(pairs + [p], key)| >= 2
    ensures var r := Enter(parameters, p.key, p.value);
            key + "[]" in r && r[key + "[]"] == Joined(Values(pairs + [p], key))
  {
    ValuesOfMore(pairs, p, key);
    if key == p.key {
      FormerIsJoined(parameters, pairs, p);
      OwnArray(parameters, p, Values(pairs, key));
    } else {
      ArrayOf(parameters, pairs, key);
      NewIsNotAnArrayKey(pairs, p, key);
      OtherBrackets(key, p.key);
      OthersKept(parameters, p, key + "[]");
    }
  }

  lemma OtherBrackets(a: string, b: string)
    requires a != b
    ensures a + "[]" != b + "[]"
  {
    if |a| == |b| {
      assert (a + "[]")[..|a|] == a && (b + "[]")[..|b|] == b;
    }
  }

  lemma StillAName(pairs: seq<Pair>, p: Pair, name: string)
    requires IsName(pairs, name)
    ensures IsName(pairs + [p], name)
  {
    ValuesOfMore(pairs, p, name);
    if Values(pairs, name) == [] {
      var key :| |Values(pairs, key)| >= 2 && name == key + "[]";
      ValuesOfMore(pairs, p, key);
    }
  }

  lemma NothingElse(parameters: Parameters, pairs: seq<Pair>, p: Pair, name: string)
    requires NoArrayKeys(pairs + [p]) && Folds(parameters, pairs) && name in Enter(parameters, p.key, p.value)
    ensures IsName(pairs + [p], name)
  {
    ValuesOfMore(pairs, p, p.key);
    if name in parameters {
      StillAName(pairs, p, name);
    } else if name != p.key {
      KnownKey(parameters, pairs, p);
      assert |Values(pairs + [p], p.key)| >= 2 && name == p.key + "[]";
    }
  }

  lemma FoldsMore(parameters: Parameters, pairs: seq<Pair>, p: Pair)
    requires NoArrayKeys(pairs + [p]) && Folds(parameters, pairs)
    ensures Folds(Enter(parameters, p.key, p.value), pairs + [p])
  {
    var r, all := Enter(parameters, p.key, p.value), pairs + [p];
    forall key | Values(all, key) != []
      ensures key in r && r[key] == Values(all, key)[|Values(all, key)| - 1]
    {
      LastValueKept(parameters, pairs, p, key);
    }
    forall key | |Values(all, key)| >= 2
      ensures key + "[]" in r && r[key + "[]"] == Joined(Values(all, key))
    {
      ArrayKept(parameters, pairs, p, key);
    }
    forall name | name in r ensures IsName(all, name) {
      NothingElse(parameters, pairs, p, name);
    }
  }

  lemma {:induction false} EnteredFolds(pairs: seq<Pair>)
    requires NoArrayKeys(pairs)
    ensures Folds(Entered(pairs), pairs)
  {
    if pairs != [] {
      var last := |pairs| - 1;
      assert pairs == pairs[..last] + [pairs[last]];
      EnteredFolds(pairs[..last]);
      FoldsMore(Entered(pairs[..last]), pairs[..last], pairs[last]);
    }
  }

  lemma {:induction false} EnterTexts(pairs: seq<Pair>)
    requires forall i :: 0 <= i < |pairs| ==> pairs[i].Valid()
    ensures EnterAll(map[], Texts(pairs)) == Entered(pairs)
  {
    if pairs != [] {
      var last := |pairs| - 1;
      EnterTexts(pairs[..last]);
      assert Texts(pairs)[..last] == Texts(pairs[..last]);
      EnterPair(Entered(pairs[..last]), pairs[last]);
    }
  }

  /** No name holds an ampersand or an equals sign, and no value an ampersand. */
  predicate Clean(parameters: Parameters) {
    forall name :: name in parameters ==> '&' !in name && '=' !in name && '&' !in parameters[name]
  }

  lemma EnterKeepsClean(parameters: Parameters, key: string, value: string)
    requires Clean(parameters) && '&' !in key && '=' !in key && '&' !in value
    ensures Clean(Enter(parameters, key, value))
  {
  }

  lemma EnterPieceKeepsClean(parameters: Parameters, theParam: string)
    requires Clean(parameters) && '&' !in theParam
    ensures Clean(EnterPiece(parameters, theParam))
  {
    var posEq := FirstChar(theParam, '=', 0);
    if posEq < |theParam| {
      EnterKeepsClean(parameters, theParam[..posEq], theParam[posEq + 1..]);
    }
  }

  lemma {:induction false} EnterAllIsClean(pieces: seq<string>)
    requires forall i :: 0 <= i < |pieces| ==> '&' !in pieces[i]
    ensures Clean(EnterAll(map[], pieces))
  {
    if pieces != [] {
      EnterAllIsClean(pieces[..|pieces| - 1]);
      EnterPieceKeepsClean(EnterAll(map[], pieces[..|pieces| - 1]), pieces[|pieces| - 1]);
    }
  }

  lemma {:induction false} PiecesHaveNoAmpersand(s: string, i: nat)
    requires i < |Pieces(s)|
    ensures '&' !in Pieces(s)[i]
    decreases |s|
  {
    var end := FirstChar(s, '&', 0);
    if end < |s| && i > 0 {
      PiecesHaveNoAmpersand(s[end + 1..], i - 1);
    }
  }

  /** Whatever the query is, what is entered from it is clean. */
  lemma EnteredIsClean(s: string)
    ensures Clean(EnterAll(map[], Pieces(s)))
  {
    forall i | 0 <= i < |Pieces(s)| ensures '&' !in Pieces(s)[i] {
      PiecesHaveNoAmpersand(s, i);
    }
    EnterAllIsClean(Pieces(s));
  }

  lemma {:induction false} GivenIsAValue(pairs: seq<Pair>, i: nat)
    requires i < |pairs|
    ensures pairs[i].value in Values(pairs, pairs[i].key)
  {
    var last := |pairs| - 1;
    if i < last {
      assert pairs[..last][i] == pairs[i];
      GivenIsAValue(pairs[..last], i);
    }
  }

  lemma {:induction false} JoinedHolds(values: seq<string>, value: string)
    requires value in values && '&' in value
    ensures '&' in Joined(values)
  {
    var last := |values| - 1;
    if last > 0 && value != values[last] {
      assert value in values[..last];
      JoinedHolds(values[..last], value);
    }
  }

  /** Clean parameters that fold a form are those of a form without separators in keys and values. */
  lemma FoldedIsValid(parameters: Parameters, pairs: seq<Pair>, i: nat)
    requires Clean(parameters) && LastsIn(parameters, pairs) && ArraysIn(parameters, pairs) && i < |pairs|
    ensures pairs[i].Valid()
  {
    var key, values := pairs[i].key, Values(pairs, pairs[i].key);
    GivenIsAValue(pairs, i);
    LastOf(parameters, pairs, key);
    if '&' in pairs[i].value {
      JoinedHolds(values, pairs[i].value);
      if |values| >= 2 {
        ArrayOf(parameters, pairs, key);
      }
    }
  }

  /**
   A form is read back from a percent encoding of it, repeated keys with all their values, if and only if no
   key holds an ampersand or an equals sign and no value an ampersand, whether they are escaped or not.
   */
  lemma FormIsDecoded(codes: seq<Coded>, pairs: seq<Pair>)
    requires AllValid(codes) && pairs != [] && Raw(codes) == Form(pairs) && NoArrayKeys(pairs)
    ensures Folds(EnterAll(map[], Pieces(Decode(Text(codes)))), pairs)
            <==> forall i :: 0 <= i < |pairs| ==> pairs[i].Valid()
  {
    var parameters := EnterAll(map[], Pieces(Decode(Text(codes))));
    if Folds(parameters, pairs) {
      EnteredIsClean(Decode(Text(codes)));
      forall i | 0 <= i < |pairs| ensures pairs[i].Valid() {
        FoldedIsValid(parameters, pairs, i);
      }
    }
    if forall i :: 0 <= i < |pairs| ==> pairs[i].Valid() {
      DecodeInvertsCoding(codes);
      PiecesOfForm(pairs);
      EnterTexts(pairs);
      EnteredFolds(pairs);
    }
  }

  // ---- What is not read back ----

  /**
   The percent signs are decoded before the string is split: an escaped ampersand in a value separates
   parameters, and the form is not read back.
   */
  lemma EscapedAmpersandSeparates(codes: seq<Coded>, key: string, value: string, rest: string)
    requires AllValid(codes) && Raw(codes) == Pair(key, value + "&" + rest).Text() && Pair(key, value).Valid()
    ensures Pieces(Decode(Text(codes))) == [Pair(key, value).Text()] + Pieces(rest)
    ensures !Folds(EnterAll(map[], Pieces(Decode(Text(codes)))), [Pair(key, value + "&" + rest)])
  {
    var first := Pair(key, value).Text();
    DecodeInvertsCoding(codes);
    assert Raw(codes) == first + ['&'] + rest;
    NoAmpersand(Pair(key, value));
    FirstCharAfter(first, '&', rest, 0);
    assert (first + ['&'] + rest)[..|first|] == first && (first + ['&'] + rest)[|first| + 1..] == rest;
    AmpersandIsLost(Decode(Text(codes)), Pair(key, value + "&" + rest));
  }

  lemma AmpersandIsLost(s: string, p: Pair)
    requires '&' in p.value
    ensures !Folds(EnterAll(map[], Pieces(s)), [p])
  {
    EnteredIsClean(s);
    if Folds(EnterAll(map[], Pieces(s)), [p]) {
      FoldedIsValid(EnterAll(map[], Pieces(s)), [p], 0);
    }
  }

  /** The form without any pairs is not read back either: the empty query is one parameter without a name. */
  lemma EmptyQuery()
    ensures EnterAll(map[], Pieces(Decode(""))) == map["" := ""]
    ensures !Folds(EnterAll(map[], Pieces(Decode(""))), [])
  {
    assert Pieces("") == [""];
    assert [""][..0] == [];
    NothingIsGiven("");
  }

  lemma NothingIsGiven(name: string)
    ensures !IsName([], name)
  {
  }
}
