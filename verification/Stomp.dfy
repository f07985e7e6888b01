/** STOMP frames of the WebSocket client: printing frames into a stream and parsing the stream
    again, with the string operations of JavaScript. */
module Stomp {
  import opened Wrappers
  import opened Strings

  const LF: char := '\n'
  const NUL: char := '\0'

  /** Header values are strings, as the parser produces them. A script object enumerates its names
      in an order of its own, so printing takes them in any order. */
  datatype Frame = Frame(command: string, headers: map<string, string>, body: string)

  // ---- string operations of the language -----------------------------------------------------

  predicate IsSpace(c: char) {
    || '\t' <= c <= '\r' || c == ' ' || c == '\U{A0}' || c == '\U{1680}' || '\U{2000}' <= c <= '\U{200A}'
    || c == '\U{2028}' || c == '\U{2029}' || c == '\U{202F}' || c == '\U{205F}' || c == '\U{3000}' || c == '\U{FEFF}'
  }

  function TrimLeft(s: string): string {
    if s != "" && IsSpace(s[0]) then TrimLeft(s[1..]) else s
  }

  function TrimRight(s: string): string {
    if s != "" && IsSpace(s[|s| - 1]) then TrimRight(s[..|s| - 1]) else s
  }

  function Trim(s: string): string {
    TrimRight(TrimLeft(s))
  }

  /** indexOf: -1 if there is none. */
  function Find(s: string, c: char): int {
    if c in s then IndexOf(s, c) else -1
  }

  /** search for an empty line: the first of two consecutive LFs, or -1. */
  function BlankLine(s: string): (i: int)
    ensures -1 <= i && i + 2 <= |s| + 1 && (i >= 0 ==> i + 1 < |s|)
  {
    if |s| < 2 then -1
    else if s[0] == LF && s[1] == LF then 0
    else
      var i := BlankLine(s[1..]);
      if i < 0 then -1 else i + 1
  }

  function Clamp(i: int, n: nat): (j: nat)
    ensures j <= n
  {
    if i < 0 then 0 else if i > n then n else i
  }

  /** substring clamps both positions and swaps them if they are in the wrong order. */
  function Substring(s: string, from: int, to: int): string {
    var a, b := Clamp(from, |s|), Clamp(to, |s|);
    if a <= b then s[a..b] else s[b..a]
  }

  /** How many characters at the front of s are digits. */
  function DigitRun(s: string, r: Radix): (n: nat)
    ensures n <= |s|
  {
    if s != "" && DigitValue(s[0], r).Some? then 1 + DigitRun(s[1..], r) else 0
  }

  function LeadingNumber(s: string, r: Radix): Option<int> {
    var n := DigitRun(s, r);
    if n == 0 then None
    else match Number(s[..n], r)
      case Some(v) => Some(v)
      case None => None
  }

  /** parseInt without a radix; None is NaN. */
  function ParseInt(s: string): Option<int> {
    var t := TrimLeft(s);
    var signed := t != "" && (t[0] == '-' || t[0] == '+');
    var u := if signed then t[1..] else t;
    var value := if |u| >= 2 && u[0] == '0' && (u[1] == 'x' || u[1] == 'X') then LeadingNumber(u[2..], Hex)
                 else LeadingNumber(u, Decimal);
    if value.Some? && signed && t[0] == '-' then Some(-value.value) else value
  }

  // ---- printing --------------------------------------------------------------------------------

  const CONTENT_LENGTH: string := "content-length"

  function HeaderLine(name: string, value: string): string {
    name + ":" + value
  }

  function LengthLine(body: string): string {
    HeaderLine(CONTENT_LENGTH, Digits(|body|, Decimal))
  }

  ghost predicate IsOrder(order: seq<string>, names: set<string>) {
    && (forall n :: n in names <==> n in order)
    && (forall i, j :: 0 <= i < j < |order| ==> order[i] != order[j])
  }

  function HeaderLines(headers: map<string, string>, order: seq<string>): (lines: seq<string>)
    requires forall n :: n in order ==> n in headers
    ensures |lines| == |order|
  {
    seq(|order|, i requires 0 <= i < |order| => HeaderLine(order[i], headers[order[i]]))
  }

  /** The command line and the header lines of a frame. */
  function Head(f: Frame, order: seq<string>): (lines: seq<string>)
    requires forall n :: n in order ==> n in f.headers
  {
    [f.command] + HeaderLines(f.headers, order) + (if f.body != "" then [LengthLine(f.body)] else [])
  }

  /** Head, an empty line, body. */
  function Printed(f: Frame, order: seq<string>): string
    requires forall n :: n in order ==> n in f.headers
  {
    Join(Head(f, order), LF) + [LF, LF] + f.body
  }

  lemma {:induction false} JoinLast(lines: seq<string>, last: string)
    requires lines != []
    ensures Join(lines + [last], LF) == Join(lines, LF) + [LF] + last
  {
    if |lines| == 1 {
      assert (lines + [last])[1..] == [last];
    } else {
      assert (lines + [last])[1..] == lines[1..] + [last];
      JoinLast(lines[1..], last);
    }
  }

  /** text is a print of f in some order of its headers. */
  ghost predicate IsPrint(f: Frame, text: string) {
    exists order :: IsOrder(order, f.headers.Keys) && text == Printed(f, order)
  }

  method ToString(f: Frame) returns (text: string)
    ensures IsPrint(f, text)
  {
    var lines := [f.command];
    ghost var order: seq<string> := [];
    var left := f.headers.Keys;
    while left != {}
      invariant left <= f.headers.Keys && IsOrder(order, f.headers.Keys - left)
      invariant lines == [f.command] + HeaderLines(f.headers, order)
      decreases left
    {
      var name :| name in left;
      left := left - {name};
      lines := lines + [name + ":" + f.headers[name]];
      order := order + [name];
    }
    if f.body != "" {
      lines := lines + [LengthLine(f.body)];
    }
    assert lines == Head(f, order);
    JoinLast(lines, [LF] + f.body);
    lines := lines + [[LF] + f.body];
    text := Join(lines, LF);
    assert IsOrder(order, f.headers.Keys) && text == Printed(f, order);
  }

  method Marshall(f: Frame) returns (text: string)
    ensures text != "" && text[|text| - 1] == NUL && IsPrint(f, text[..|text| - 1])
  {
    var frame := ToString(f);
    text := frame + [NUL];
    assert text[..|text| - 1] == frame;
  }

  // ---- parsing ---------------------------------------------------------------------------------

  function NameOf(line: string): string {
    Trim(Substring(line, 0, Find(line, ':')))
  }

  function ValueOf(line: string): string {
    Trim(Substring(line, Find(line, ':') + 1, |line|))
  }

  /** Assigning a string to __proto__ has no effect on an object. */
  function Assign(headers: map<string, string>, name: string, value: string): map<string, string> {
    if name == "__proto__" then headers else headers[name := value]
  }

  /** Later lines overwrite earlier ones. */
  function Headers(lines: seq<string>): map<string, string> {
    if lines == [] then map[]
    else
      var last := lines[|lines| - 1];
      Assign(Headers(lines[..|lines| - 1]), NameOf(last), ValueOf(last))
  }

  function Body(data: string, start: nat, headers: map<string, string>): string {
    if CONTENT_LENGTH in headers && headers[CONTENT_LENGTH] != "" then
      match ParseInt(headers[CONTENT_LENGTH])
      case Some(len) => Substring(data, start, start + len)
      case None => Substring(data, start, 0)
    else if start > |data| then ""
    else
      var rest := data[start..];
      rest[..IndexOf(rest, NUL)]
  }

  function Parsed(data: string): Frame {
    var divider := BlankLine(data);
    var lines := Fields(Substring(data, 0, divider), LF);
    var headers := Headers(lines[1..]);
    Frame(lines[0], headers, Body(data, divider + 2, headers))
  }

  lemma HeadersSnoc(lines: seq<string>, line: string)
    ensures Headers(lines + [line]) == Assign(Headers(lines), NameOf(line), ValueOf(line))
  {
    assert (lines + [line])[..|lines|] == lines;
  }

  lemma OneMore(lines: seq<string>, i: nat)
    requires i < |lines|
    ensures Headers(lines[..i + 1]) == Assign(Headers(lines[..i]), NameOf(lines[i]), ValueOf(lines[i]))
  {
    assert lines[..i + 1] == lines[..i] + [lines[i]];
    HeadersSnoc(lines[..i], lines[i]);
  }

  method ReadHeaders(headerLines: seq<string>) returns (headers: map<string, string>)
    ensures headers == Headers(headerLines)
  {
    headers := map[];
    for i := 0 to |headerLines|
      invariant headers == Headers(headerLines[..i])
    {
      OneMore(headerLines, i);
      var line := headerLines[i];
      var idx := Find(line, ':');
      var name, value := Trim(Substring(line, 0, idx)), Trim(Substring(line, idx + 1, |line|));
      if name != "__proto__" {
        headers := headers[name := value];
      }
    }
    assert headerLines[..|headerLines|] == headerLines;
  }

  /** start is at most the length of a non-empty text, so the loop over the body goes up. */
  method UnmarshallSingle(data: string) returns (f: Frame)
    requires data != ""
    ensures f == Parsed(data)
  {
    var divider := BlankLine(data);
    var headerLines := Fields(Substring(data, 0, divider), LF);
    var command := headerLines[0];
    var headers := ReadHeaders(headerLines[1..]);
    var start := divider + 2;
    var body;
    if CONTENT_LENGTH in headers && headers[CONTENT_LENGTH] != "" {
      var len := ParseInt(headers[CONTENT_LENGTH]);
      body := if len.Some? then Substring(data, start, start + len.value) else Substring(data, start, 0);
    } else {
      body := ReadToNul(data, start);
    }
    f := Frame(command, headers, body);
  }

  method ReadToNul(data: string, start: nat) returns (body: string)
    requires start <= |data|
    ensures body == data[start..][..IndexOf(data[start..], NUL)]
  {
    body := "";
    var i := start;
    while i < |data|
      invariant start <= i <= |data| && body == data[start..i] && NUL !in body
    {
      if data[i] == NUL {
        assert data[start..] == body + [NUL] + data[i + 1..];
        IndexOfAt(body, NUL, data[i + 1..]);
        return;
      }
      body := body + [data[i]];
      i := i + 1;
    }
    assert data[start..] == body;
  }

  /** The text after leading LFs. */
  function SkipLF(s: string): (t: string)
    ensures |t| <= |s|
  {
    if s != "" && s[0] == LF then SkipLF(s[1..]) else s
  }

  /** Splitting at a NUL together with all LFs that follow it. */
  function Pieces(s: string): seq<string>
    decreases |s|
  {
    var i := IndexOf(s, NUL);
    if i == |s| then [s] else [s[..i]] + Pieces(SkipLF(s[i + 1..]))
  }

  function ParsedAll(pieces: seq<string>): seq<Frame> {
    if pieces == [] then []
    else ParsedAll(pieces[..|pieces| - 1])
         + (if pieces[|pieces| - 1] != "" then [Parsed(pieces[|pieces| - 1])] else [])
  }

  method Unmarshall(datas: string) returns (frames: seq<Frame>)
    ensures frames == ParsedAll(Pieces(datas))
  {
    var pieces := Pieces(datas);
    frames := [];
    for i := 0 to |pieces|
      invariant frames == ParsedAll(pieces[..i])
    {
      if |pieces[i]| > 0 {
        var f := UnmarshallSingle(pieces[i]);
        frames := frames + [f];
      }
      assert pieces[..i + 1][..i] == pieces[..i];
    }
    assert pieces[..|pieces|] == pieces;
  }

  // ---- what can be sent ------------------------------------------------------------------------

  ghost predicate Plain(s: string) {
    LF !in s && NUL !in s
  }

  ghost predicate Trimmed(s: string) {
    s == "" || (!IsSpace(s[0]) && !IsSpace(s[|s| - 1]))
  }

  ghost predicate GoodHeader(name: string, value: string) {
    && Plain(name) && Trimmed(name) && ':' !in name && name != CONTENT_LENGTH
    && Plain(value) && Trimmed(value)
  }

  ghost predicate WellFormed(f: Frame) {
    && f.command != "" && Plain(f.command) && NUL !in f.body
    && forall n :: n in f.headers ==> GoodHeader(n, f.headers[n])
  }

  /** The header that printing adds to frames with a body. */
  ghost function LengthHeader(body: string): map<string, string> {
    if body != "" then map[CONTENT_LENGTH := Digits(|body|, Decimal)] else map[]
  }

  /** What arrives: the frame itself with its length header, except for a header named __proto__. */
  ghost function Arrives(f: Frame): Frame {
    Frame(f.command, (f.headers - {"__proto__"}) + LengthHeader(f.body), f.body)
  }

  // ---- one header line ---------------------------------------------------------------------------

  lemma TrimKeeps(s: string)
    requires Trimmed(s)
    ensures Trim(s) == s
  {
  }

  /** A line is divided at its first colon. */
  lemma LineHalves(left: string, right: string)
    requires ':' !in left
    ensures NameOf(HeaderLine(left, right)) == Trim(left) && ValueOf(HeaderLine(left, right)) == Trim(right)
  {
    var line := HeaderLine(left, right);
    assert line == left + [':'] + right;
    IndexOfAt(left, ':', right);
    assert line[|left|] == ':';
    assert Substring(line, 0, |left|) == left && Substring(line, |left| + 1, |line|) == right;
  }

  lemma LineParts(name: string, value: string)
    requires ':' !in name && Trimmed(name) && Trimmed(value)
    ensures NameOf(HeaderLine(name, value)) == name && ValueOf(HeaderLine(name, value)) == value
  {
    LineHalves(name, value);
    TrimKeeps(name);
    TrimKeeps(value);
  }

  lemma GoodHeaderParts(name: string, value: string)
    requires GoodHeader(name, value)
    ensures NameOf(HeaderLine(name, value)) == name && ValueOf(HeaderLine(name, value)) == value
  {
    LineParts(name, value);
  }

  /** The headers that survive parsing, of those printed so far. */
  ghost function Kept(headers: map<string, string>, order: seq<string>): map<string, string> {
    map n | n in headers && n in order && n != "__proto__" :: headers[n]
  }

  lemma KeptSnoc(headers: map<string, string>, order: seq<string>, last: string)
    requires last in headers
    ensures Kept(headers, order + [last]) == Assign(Kept(headers, order), last, headers[last])
  {
    assert forall n :: n in order + [last] <==> n in order || n == last;
  }

  lemma {:induction false} HeadersPrinted(headers: map<string, string>, order: seq<string>)
    requires forall n :: n in order ==> n in headers && GoodHeader(n, headers[n])
    ensures Headers(HeaderLines(headers, order)) == Kept(headers, order)
  {
    if order != [] {
      var rest, last := order[..|order| - 1], order[|order| - 1];
      assert order == rest + [last];
      assert HeaderLines(headers, order) == HeaderLines(headers, rest) + [HeaderLine(last, headers[last])];
      HeadersPrinted(headers, rest);
      HeadersSnoc(HeaderLines(headers, rest), HeaderLine(last, headers[last]));
      assert last in order;
      GoodHeaderParts(last, headers[last]);
      KeptSnoc(headers, rest, last);
    }
  }

  // ---- the length header -------------------------------------------------------------------------

  lemma {:induction false} AllDigits(s: string, r: Radix)
    requires forall c :: c in s ==> DigitValue(c, r).Some?
    ensures DigitRun(s, r) == |s|
  {
    if s != "" {
      AllDigits(s[1..], r);
    }
  }

  lemma DigitIsPlain(c: char)
    requires DigitValue(c, Decimal).Some?
    ensures !IsSpace(c) && c != LF && c != NUL && c != '-' && c != '+' && c != 'x' && c != 'X'
  {
  }

  lemma LengthText(n: nat)
    ensures Trimmed(Digits(n, Decimal)) && Plain(Digits(n, Decimal))
  {
    var s := Digits(n, Decimal);
    DigitsAreDigits(n, Decimal);
    forall c | c in s ensures !IsSpace(c) && c != LF && c != NUL { DigitIsPlain(c); }
    assert s[0] in s && s[|s| - 1] in s;
  }

  /** A text of decimal digits is read as the number it denotes. */
  lemma DigitsRead(s: string, n: nat)
    requires s != "" && (forall c :: c in s ==> DigitValue(c, Decimal).Some?) && Number(s, Decimal) == Some(n)
    ensures ParseInt(s) == Some(n)
  {
    AllDigits(s, Decimal);
    assert s[..|s|] == s;
    DigitIsPlain(s[0]);
    if |s| >= 2 {
      DigitIsPlain(s[1]);
    }
    assert LeadingNumber(s, Decimal) == Some(n);
  }

  lemma LengthRead(n: nat)
    ensures ParseInt(Digits(n, Decimal)) == Some(n)
  {
    DigitsAreDigits(n, Decimal);
    NumberOfDigits(n, Decimal);
    DigitsRead(Digits(n, Decimal), n);
  }

  // ---- one frame ---------------------------------------------------------------------------------

  /** No empty line, and no LF at either end. */
  ghost predicate Tight(h: string) {
    && h != "" && h[0] != LF && h[|h| - 1] != LF
    && forall i :: 0 <= i < |h| - 1 ==> h[i] != LF || h[i + 1] != LF
  }

  lemma TightJoin(x: string, y: string)
    requires Tight(x) && Tight(y)
    ensures Tight(x + [LF] + y)
  {
    var h := x + [LF] + y;
    forall i | 0 <= i < |h| - 1 ensures h[i] != LF || h[i + 1] != LF {
      if i < |x| - 1 {
        assert h[i] == x[i] && h[i + 1] == x[i + 1];
      } else if i > |x| {
        assert h[i] == y[i - |x| - 1] && h[i + 1] == y[i - |x|];
      }
    }
  }

  ghost predicate GoodLine(line: string) {
    line != "" && LF !in line
  }

  lemma {:induction false} JoinIsTight(lines: seq<string>)
    requires lines != [] && forall x :: x in lines ==> GoodLine(x)
    ensures Tight(Join(lines, LF))
  {
    assert GoodLine(lines[0]);
    if |lines| > 1 {
      JoinIsTight(lines[1..]);
      TightJoin(lines[0], Join(lines[1..], LF));
    }
  }

  lemma {:induction false} BlankAfter(h: string, body: string)
    requires h == "" || h[|h| - 1] != LF
    requires forall i :: 0 <= i < |h| - 1 ==> h[i] != LF || h[i + 1] != LF
    ensures BlankLine(h + [LF, LF] + body) == |h|
  {
    var s := h + [LF, LF] + body;
    if h != "" {
      assert s[1..] == h[1..] + [LF, LF] + body;
      BlankAfter(h[1..], body);
      assert |h| > 1 ==> s[1] == h[1];
    }
  }

  lemma HeadIsGood(f: Frame, order: seq<string>)
    requires WellFormed(f) && IsOrder(order, f.headers.Keys)
    ensures forall x :: x in Head(f, order) ==> GoodLine(x) && Free(x, NUL)
  {
    LengthText(|f.body|);
    forall i | 0 <= i < |order|
      ensures GoodLine(HeaderLines(f.headers, order)[i]) && Free(HeaderLines(f.headers, order)[i], NUL)
    {
      assert order[i] in order;
      assert GoodHeader(order[i], f.headers[order[i]]);
    }
  }

  lemma KeptAll(headers: map<string, string>, order: seq<string>)
    requires IsOrder(order, headers.Keys)
    ensures Kept(headers, order) == headers - {"__proto__"}
  {
  }

  lemma LengthName()
    ensures ':' !in CONTENT_LENGTH && Trimmed(CONTENT_LENGTH) && CONTENT_LENGTH != "__proto__"
  {
    assert |CONTENT_LENGTH| != |"__proto__"|;
  }

  lemma LengthParts(body: string)
    ensures NameOf(LengthLine(body)) == CONTENT_LENGTH && ValueOf(LengthLine(body)) == Digits(|body|, Decimal)
  {
    LengthName();
    LengthText(|body|);
    LineParts(CONTENT_LENGTH, Digits(|body|, Decimal));
  }

  lemma TailOf<T>(first: T, x: seq<T>, y: seq<T>)
    ensures ([first] + x + y)[1..] == x + y && x + [] == x
  {
  }

  lemma Extended<K, V>(m: map<K, V>, key: K, value: V)
    ensures m[key := value] == m + map[key := value]
  {
  }

  lemma LengthParsed(lines: seq<string>, body: string)
    ensures Headers(lines + (if body != "" then [LengthLine(body)] else [])) == Headers(lines) + LengthHeader(body)
  {
    if body == "" {
      assert lines + [] == lines;
      assert Headers(lines) + map[] == Headers(lines);
    } else {
      var before, digits := Headers(lines), Digits(|body|, Decimal);
      HeadersSnoc(lines, LengthLine(body));
      LengthParts(body);
      LengthName();
      Extended(before, CONTENT_LENGTH, digits);
    }
  }

  lemma HeadParsed(f: Frame, order: seq<string>)
    requires WellFormed(f) && IsOrder(order, f.headers.Keys)
    ensures Headers(Head(f, order)[1..]) == (f.headers - {"__proto__"}) + LengthHeader(f.body)
  {
    var lines := HeaderLines(f.headers, order);
    TailOf(f.command, lines, if f.body != "" then [LengthLine(f.body)] else []);
    LengthParsed(lines, f.body);
    HeadersPrinted(f.headers, order);
    KeptAll(f.headers, order);
  }

  /** Where the head of the frame ends, and its lines. */
  lemma HeadFound(f: Frame, order: seq<string>)
    requires WellFormed(f) && IsOrder(order, f.headers.Keys)
    ensures var data, h := Printed(f, order), Join(Head(f, order), LF);
            && BlankLine(data) == |h| && Substring(data, 0, |h|) == h && data[|h| + 2..] == f.body
            && |data| == |h| + 2 + |f.body|
            && Fields(h, LF) == Head(f, order)
  {
    var head, h := Head(f, order), Join(Head(f, order), LF);
    HeadIsGood(f, order);
    JoinIsTight(head);
    BlankAfter(h, f.body);
    forall x | x in head ensures Free(x, LF) { assert GoodLine(x); }
    FieldsOfJoin(head, LF);
    Halves(h, f.body);
  }

  lemma Halves(h: string, body: string)
    ensures var data := h + [LF, LF] + body;
            Substring(data, 0, |h|) == h && data[|h| + 2..] == body && |data| == |h| + 2 + |body|
  {
  }

  /** The length header leads to the body; without it the body is empty. */
  lemma BodyFound(data: string, start: nat, headers: map<string, string>, body: string)
    requires start + |body| == |data| && data[start..] == body
    requires CONTENT_LENGTH !in headers
    ensures Body(data, start, headers + LengthHeader(body)) == body
  {
    LengthRead(|body|);
    if body != "" {
      assert Substring(data, start, start + |body|) == body;
    }
  }

  /** Parsing a printed frame. */
  lemma FrameRoundTrip(f: Frame, order: seq<string>)
    requires WellFormed(f) && IsOrder(order, f.headers.Keys)
    ensures Parsed(Printed(f, order)) == Arrives(f)
  {
    HeadFound(f, order);
    HeadParsed(f, order);
    assert CONTENT_LENGTH !in f.headers;
    BodyFound(Printed(f, order), |Join(Head(f, order), LF)| + 2, f.headers - {"__proto__"}, f.body);
  }

  // ---- a stream of frames ------------------------------------------------------------------------

  ghost function Gap(n: nat): string {
    seq(n, i => LF)
  }

  /** The printed frames one after the other, each ended by a NUL and any number of LFs. */
  ghost function Stream(texts: seq<string>, gaps: seq<nat>): string
    requires |texts| == |gaps|
  {
    if texts == [] then "" else texts[0] + [NUL] + Gap(gaps[0]) + Stream(texts[1..], gaps[1..])
  }

  /** The text of a frame: no NUL, and it does not start with LF. */
  ghost predicate Framed(text: string) {
    text != "" && text[0] != LF && NUL !in text
  }

  lemma {:induction false} GapSkipped(n: nat, rest: string)
    requires rest == "" || rest[0] != LF
    ensures SkipLF(Gap(n) + rest) == rest
  {
    if n == 0 {
      assert Gap(0) + rest == rest;
    } else {
      assert (Gap(n) + rest)[1..] == Gap(n - 1) + rest;
      GapSkipped(n - 1, rest);
    }
  }

  lemma FirstPiece(t: string, after: string)
    requires NUL !in t
    ensures Pieces(t + [NUL] + after) == [t] + Pieces(SkipLF(after))
  {
    var s := t + [NUL] + after;
    IndexOfAt(t, NUL, after);
    assert s[|t| + 1..] == after && s[..|t|] == t;
  }

  lemma StreamStart(texts: seq<string>, gaps: seq<nat>)
    requires |texts| == |gaps| && (texts != [] ==> Framed(texts[0]))
    ensures Stream(texts, gaps) == "" || Stream(texts, gaps)[0] != LF
  {
  }

  lemma StreamCons(texts: seq<string>, gaps: seq<nat>)
    requires |texts| == |gaps| && texts != [] && Framed(texts[0])
    requires |texts| > 1 ==> Framed(texts[1])
    ensures Pieces(Stream(texts, gaps)) == [texts[0]] + Pieces(Stream(texts[1..], gaps[1..]))
  {
    var t, rest := texts[0], Stream(texts[1..], gaps[1..]);
    assert Stream(texts, gaps) == t + [NUL] + (Gap(gaps[0]) + rest);
    StreamStart(texts[1..], gaps[1..]);
    GapSkipped(gaps[0], rest);
    FirstPiece(t, Gap(gaps[0]) + rest);
  }

  lemma {:induction false} StreamPieces(texts: seq<string>, gaps: seq<nat>)
    requires |texts| == |gaps| && forall t :: t in texts ==> Framed(t)
    ensures Pieces(Stream(texts, gaps)) == texts + [""]
  {
    if texts != [] {
      assert Framed(texts[0]) && (|texts| > 1 ==> Framed(texts[1]));
      StreamCons(texts, gaps);
      StreamPieces(texts[1..], gaps[1..]);
      assert [texts[0]] + (texts[1..] + [""]) == texts + [""];
    }
  }

  lemma PrintedIsFramed(f: Frame, order: seq<string>)
    requires WellFormed(f) && IsOrder(order, f.headers.Keys)
    ensures Framed(Printed(f, order))
  {
    HeadIsGood(f, order);
    JoinIsTight(Head(f, order));
    JoinFree(Head(f, order), NUL);
  }

  lemma {:induction false} JoinFree(lines: seq<string>, c: char)
    requires c != LF && forall x :: x in lines ==> Free(x, c)
    ensures c !in Join(lines, LF)
  {
    if lines != [] {
      assert Free(lines[0], c);
      JoinFree(lines[1..], c);
    }
  }

  /** text is a print of the well-formed frame f. */
  ghost predicate PrintedAs(f: Frame, text: string) {
    WellFormed(f) && IsPrint(f, text)
  }

  lemma TextRoundTrip(f: Frame, text: string)
    requires PrintedAs(f, text)
    ensures Parsed(text) == Arrives(f) && Framed(text)
  {
    var order :| IsOrder(order, f.headers.Keys) && text == Printed(f, order);
    FrameRoundTrip(f, order);
    PrintedIsFramed(f, order);
  }

  ghost function ArriveAll(frames: seq<Frame>): seq<Frame> {
    seq(|frames|, i requires 0 <= i < |frames| => Arrives(frames[i]))
  }

  lemma ArriveLast(frames: seq<Frame>)
    requires frames != []
    ensures ArriveAll(frames) == ArriveAll(frames[..|frames| - 1]) + [Arrives(frames[|frames| - 1])]
  {
  }

  lemma {:induction false} ParsedEach(frames: seq<Frame>, texts: seq<string>)
    requires |frames| == |texts|
    requires forall i :: 0 <= i < |frames| ==> PrintedAs(frames[i], texts[i])
    ensures ParsedAll(texts) == ArriveAll(frames)
  {
    if frames != [] {
      var n := |frames| - 1;
      ParsedEach(frames[..n], texts[..n]);
      TextRoundTrip(frames[n], texts[n]);
      ArriveLast(frames);
    }
  }

  /** Unmarshalling a stream of marshalled frames, printed in any header order and separated by any
      number of LFs, gives the frames back. */
  lemma StreamRoundTrip(frames: seq<Frame>, texts: seq<string>, gaps: seq<nat>)
    requires |frames| == |texts| == |gaps|
    requires forall i :: 0 <= i < |frames| ==> PrintedAs(frames[i], texts[i])
    ensures ParsedAll(Pieces(Stream(texts, gaps))) == ArriveAll(frames)
  {
    forall t | t in texts ensures Framed(t) {
      var i :| 0 <= i < |texts| && texts[i] == t;
      TextRoundTrip(frames[i], t);
    }
    StreamPieces(texts, gaps);
    assert (texts + [""])[..|texts|] == texts;
    ParsedEach(frames, texts);
  }

  /** The frame arrives as it was sent, with its length added exactly if it has a body, if and only
      if none of its headers is named __proto__. */
  lemma ArrivesUnchanged(f: Frame)
    requires WellFormed(f)
    ensures Arrives(f) == f.(headers := f.headers + LengthHeader(f.body)) <==> "__proto__" !in f.headers
    ensures CONTENT_LENGTH in Arrives(f).headers <==> f.body != ""
  {
    if "__proto__" in f.headers {
      assert "__proto__" !in Arrives(f).headers;
      assert "__proto__" in f.headers + LengthHeader(f.body);
    } else {
      assert f.headers - {"__proto__"} == f.headers;
    }
  }

  /** The client transmits each frame as it is marshalled, and the other end unmarshalls what has
      arrived. */
  method Relay(frames: seq<Frame>) returns (received: seq<Frame>)
    requires forall f :: f in frames ==> WellFormed(f)
    ensures received == ArriveAll(frames)
  {
    var wire := "";
    ghost var texts: seq<string>, gaps: seq<nat> := [], [];
    for i := 0 to |frames|
      invariant |texts| == |gaps| == i && wire == Stream(texts, gaps)
      invariant forall j :: 0 <= j < i ==> PrintedAs(frames[j], texts[j])
    {
      var text := Marshall(frames[i]);
      StreamSnoc(texts, gaps, text[..|text| - 1]);
      wire := wire + text;
      texts, gaps := texts + [text[..|text| - 1]], gaps + [0];
    }
    StreamRoundTrip(frames, texts, gaps);
    received := Unmarshall(wire);
  }

  lemma {:induction false} StreamSnoc(texts: seq<string>, gaps: seq<nat>, text: string)
    requires |texts| == |gaps|
    ensures Stream(texts + [text], gaps + [0]) == Stream(texts, gaps) + text + [NUL]
  {
    if texts == [] {
      assert Gap(0) == "";
      assert (texts + [text])[1..] == [] && (gaps + [0])[1..] == [];
    } else {
      assert (texts + [text])[1..] == texts[1..] + [text] && (gaps + [0])[1..] == gaps[1..] + [0];
      StreamSnoc(texts[1..], gaps[1..], text);
    }
  }
}
