/** STOMP texts that were not printed by this client: frames without a length, with another
    length, with spaces around headers, or malformed. */
module ForeignFrames {
  import opened Wrappers
  import opened Strings
  import opened Stomp

  /** Some header lines, an empty line and a body. */
  function TextOf(lines: seq<string>, body: string): string {
    Join(lines, '\n') + "\n\n" + body
  }

  ghost predicate GoodLines(lines: seq<string>) {
    lines != [] && forall x :: x in lines ==> GoodLine(x)
  }

  lemma HeadOf(lines: seq<string>, body: string)
    requires GoodLines(lines)
    ensures var data, h := TextOf(lines, body), Join(lines, '\n');
            && BlankLine(data) == |h| && Substring(data, 0, |h|) == h && data[|h| + 2..] == body
            && |data| == |h| + 2 + |body| && Fields(h, '\n') == lines
  {
    var h := Join(lines, '\n');
    JoinIsTight(lines);
    BlankAfter(h, body);
    forall x | x in lines ensures Free(x, '\n') { assert GoodLine(x); }
    FieldsOfJoin(lines, '\n');
    assert "\n\n" == ['\n', '\n'];
    Halves(h, body);
  }

  /** The first line is the command and the others give the headers, whatever they say. */
  lemma CommandAndHeaders(lines: seq<string>, body: string)
    requires GoodLines(lines)
    ensures Parsed(TextOf(lines, body)).command == lines[0]
    ensures Parsed(TextOf(lines, body)).headers == Headers(lines[1..])
  {
    HeadOf(lines, body);
  }

  // ---- bodies ----------------------------------------------------------------------------------

  lemma UpToNul(body: string, rest: string)
    requires '\0' !in body
    ensures body[..IndexOf(body, '\0')] == body
    ensures (body + "\0" + rest)[..IndexOf(body + "\0" + rest, '\0')] == body
  {
    assert "\0" == ['\0'];
    IndexOfAt(body, '\0', rest);
  }

  /** Without a content-length the body is everything up to the first NUL, or to the end. */
  lemma BodyWithoutLength(lines: seq<string>, body: string, rest: string)
    requires GoodLines(lines) && '\0' !in body && "content-length" !in Headers(lines[1..])
    ensures Parsed(TextOf(lines, body)).body == body
    ensures Parsed(TextOf(lines, body + "\0" + rest)).body == body
  {
    HeadOf(lines, body);
    HeadOf(lines, body + "\0" + rest);
    UpToNul(body, rest);
  }

  /** With one, it is that many characters, or what there is. */
  lemma BodyByLength(lines: seq<string>, body: string, n: nat)
    requires GoodLines(lines)
    requires "content-length" in Headers(lines[1..]) && Headers(lines[1..])["content-length"] == Digits(n, Decimal)
    ensures Parsed(TextOf(lines, body)).body == if n <= |body| then body[..n] else body
  {
    HeadOf(lines, body);
    LengthRead(n);
    Counted(TextOf(lines, body), |Join(lines, '\n')| + 2, body, n);
  }

  lemma Counted(data: string, start: nat, body: string, n: nat)
    requires start + |body| == |data| && data[start..] == body
    ensures Substring(data, start, start + n) == if n <= |body| then body[..n] else body
  {
  }

  /** A content-length that is no number yields everything in front of the body instead, and a
      negative one as many characters from there: the positions are swapped. */
  lemma BodyByOddLength(lines: seq<string>, body: string, value: string)
    requires GoodLines(lines)
    requires "content-length" in Headers(lines[1..]) && Headers(lines[1..])["content-length"] == value != ""
    ensures var front := Join(lines, '\n') + "\n\n";
            && (ParseInt(value) == None ==> Parsed(TextOf(lines, body)).body == front)
            && (ParseInt(value).Some? && ParseInt(value).value < 0 ==>
                  var n := -ParseInt(value).value;
                  Parsed(TextOf(lines, body)).body == if n <= |front| then front[|front| - n..] else front)
  {
    HeadOf(lines, body);
    var data, front := TextOf(lines, body), Join(lines, '\n') + "\n\n";
    assert data[..|front|] == front;
    assert Substring(data, |front|, 0) == front;
  }

  // ---- numbers ---------------------------------------------------------------------------------

  lemma {:induction false} RunStops(digits: string, rest: string, r: Radix)
    requires forall c :: c in digits ==> DigitValue(c, r).Some?
    requires rest == "" || DigitValue(rest[0], r) == None
    ensures DigitRun(digits + rest, r) == |digits|
  {
    if digits == "" {
      assert digits + rest == rest;
    } else {
      assert (digits + rest)[1..] == digits[1..] + rest;
      RunStops(digits[1..], rest, r);
    }
  }

  lemma LeadingDigits(n: nat, rest: string, r: Radix)
    requires rest == "" || DigitValue(rest[0], r) == None
    ensures LeadingNumber(Digits(n, r) + rest, r) == Some(n)
  {
    DigitsAreDigits(n, r);
    NumberOfDigits(n, r);
    RunStops(Digits(n, r), rest, r);
    assert (Digits(n, r) + rest)[..|Digits(n, r)|] == Digits(n, r);
  }

  /** A decimal number starts with a decimal digit, and is not taken for a hexadecimal one unless it is
      followed by an x. */
  lemma StartsDecimal(n: nat, rest: string)
    requires rest == "" || (DigitValue(rest[0], Decimal) == None && rest[0] != 'x' && rest[0] != 'X')
    ensures var s := Digits(n, Decimal) + rest;
            && s != "" && !IsSpace(s[0]) && s[0] != '-' && s[0] != '+'
            && (|s| >= 2 ==> s[1] != 'x' && s[1] != 'X')
  {
    var d := Digits(n, Decimal);
    DigitsAreDigits(n, Decimal);
    assert d[0] in d;
    if |d| >= 2 {
      assert d[1] in d;
    } else if rest != "" {
      assert (d + rest)[1] == rest[0];
    }
  }

  /** Numbers may be followed by anything but digits. */
  lemma ReadPlain(n: nat, rest: string)
    requires rest == "" || (DigitValue(rest[0], Decimal) == None && rest[0] != 'x' && rest[0] != 'X')
    ensures ParseInt(Digits(n, Decimal) + rest) == Some(n)
  {
    StartsDecimal(n, rest);
    LeadingDigits(n, rest, Decimal);
  }

  lemma Unsigned(n: nat)
    ensures var d := Digits(n, Decimal);
            && LeadingNumber(d, Decimal) == Some(n) && d != "" && (|d| >= 2 ==> d[1] != 'x' && d[1] != 'X')
  {
    StartsDecimal(n, "");
    LeadingDigits(n, "", Decimal);
    assert Digits(n, Decimal) + "" == Digits(n, Decimal);
  }

  lemma ReadNegative(n: nat)
    ensures ParseInt("-" + Digits(n, Decimal)).Some? && ParseInt("-" + Digits(n, Decimal)).value + n == 0
  {
    Unsigned(n);
    var s := "-" + Digits(n, Decimal);
    assert s[0] == '-' && s[1..] == Digits(n, Decimal);
  }

  /** A plus sign changes nothing. */
  lemma ReadPositive(n: nat)
    ensures ParseInt("+" + Digits(n, Decimal)) == Some(n)
  {
    Unsigned(n);
    var s := "+" + Digits(n, Decimal);
    assert s[0] == '+' && s[1..] == Digits(n, Decimal);
  }

  lemma HexPrefix(s: string, d: string, n: nat)
    requires |s| >= 2 && s[0] == '0' && (s[1] == 'x' || s[1] == 'X') && s[2..] == d && LeadingNumber(d, Hex) == Some(n)
    ensures ParseInt(s) == Some(n)
  {
  }

  lemma ReadHex(n: nat, x: char)
    requires x == 'x' || x == 'X'
    ensures ParseInt(['0', x] + Digits(n, Hex)) == Some(n)
  {
    LeadingDigits(n, "", Hex);
    assert Digits(n, Hex) + "" == Digits(n, Hex);
    HexPrefix(['0', x] + Digits(n, Hex), Digits(n, Hex), n);
  }

  /** A text that starts with neither a digit, a sign nor a space is no number. */
  lemma ReadNone(s: string)
    requires s == "" || (!('0' <= s[0] <= '9') && s[0] != '-' && s[0] != '+' && !IsSpace(s[0]))
    ensures ParseInt(s) == None
  {
  }

  // ---- spaces ----------------------------------------------------------------------------------

  /** The code points of white space and line ends in JavaScript (ECMA-262, sections 12.2 and 12.3). */
  const SPACES: set<int> :=
    {9, 10, 11, 12, 13, 32, 160, 5760, 8192, 8193, 8194, 8195, 8196, 8197, 8198, 8199, 8200, 8201, 8202, 8232, 8233,
     8239, 8287, 12288, 65279}

  lemma SpacesAre(c: char)
    ensures IsSpace(c) <==> c as int in SPACES
  {
  }

  ghost predicate Blank(s: string) {
    forall i :: 0 <= i < |s| ==> s[i] as int in SPACES
  }

  lemma {:induction false} TrimLeftBlank(p: string, s: string)
    requires Blank(p) && (s == "" || !IsSpace(s[0]))
    ensures TrimLeft(p + s) == s
  {
    if p == "" {
      assert p + s == s;
    } else {
      SpacesAre(p[0]);
      assert (p + s)[1..] == p[1..] + s;
      TrimLeftBlank(p[1..], s);
    }
  }

  lemma {:induction false} TrimRightBlank(s: string, q: string)
    requires Blank(q) && (s == "" || !IsSpace(s[|s| - 1]))
    ensures TrimRight(s + q) == s
  {
    if q == "" {
      assert s + q == s;
    } else {
      var n := |q| - 1;
      SpacesAre(q[n]);
      assert (s + q)[..|s + q| - 1] == s + q[..n];
      TrimRightBlank(s, q[..n]);
    }
  }

  /** White space around a text is dropped, and nothing else is. */
  lemma TrimPadded(p: string, s: string, q: string)
    requires Blank(p) && Blank(q) && s != "" && Trimmed(s)
    ensures Trim(p + s + q) == s
  {
    assert p + s + q == p + (s + q);
    TrimLeftBlank(p, s + q);
    TrimRightBlank(s, q);
  }

  /** A header line with such padding anywhere around name and value. The value may contain colons. */
  lemma PaddedHeader(name: string, value: string, p: string, q: string, r: string, t: string)
    requires name != "" && Trimmed(name) && ':' !in name && value != "" && Trimmed(value)
    requires Blank(p) && Blank(q) && Blank(r) && Blank(t)
    ensures var line := (p + name + q) + ":" + (r + value + t); NameOf(line) == name && ValueOf(line) == value
  {
    LineHalves(p + name + q, r + value + t);
    TrimPadded(p, name, q);
    TrimPadded(r, value, t);
  }

  /** Each line sets its header, whether or not an earlier line did, and no other; a line that names
      __proto__ sets nothing. */
  lemma LastLineWins(lines: seq<string>, name: string, value: string)
    requires Trimmed(name) && ':' !in name && Trimmed(value)
    ensures var headers := Headers(lines + [name + ":" + value]);
            && (name != "__proto__" ==> name in headers && headers[name] == value)
            && (name == "__proto__" ==> headers == Headers(lines))
            && headers - {name} == Headers(lines) - {name}
  {
    LineParts(name, value);
    HeadersSnoc(lines, name + ":" + value);
  }

  /** A line without a colon is a header with an empty name. */
  lemma NoColon(line: string)
    requires line != "" && Trimmed(line) && ':' !in line
    ensures NameOf(line) == "" && ValueOf(line) == line
  {
    assert Substring(line, 0, -1) == "" && Substring(line, 0, |line|) == line;
    TrimKeeps(line);
  }

  // ---- malformed and unfinished texts ------------------------------------------------------------

  /** A text without an empty line has no command and no headers; all but its first character is
      body. */
  lemma NoEmptyLine(data: string)
    requires data != "" && '\0' !in data && forall i :: 0 <= i < |data| - 1 ==> data[i] != '\n' || data[i + 1] != '\n'
    ensures Parsed(data) == Frame("", map[], data[1..])
  {
    NotFound(data);
    assert Substring(data, 0, -1) == "";
    assert Fields("", '\n') == [""];
    assert [""][1..] == [];
    assert '\0' !in data[1..];
    UpToNul(data[1..], "");
  }

  lemma {:induction false} NotFound(s: string)
    requires forall i :: 0 <= i < |s| - 1 ==> s[i] != '\n' || s[i + 1] != '\n'
    ensures BlankLine(s) == -1
  {
    if |s| >= 2 {
      assert s[0] != '\n' || s[1] != '\n';
      NotFound(s[1..]);
    }
  }

  /** A last frame whose NUL has not arrived is parsed all the same. */
  lemma WithoutNul(t: string)
    requires t != "" && '\0' !in t
    ensures ParsedAll(Pieces(t)) == [Parsed(t)]
  {
    assert Pieces(t) == [t];
    assert [t][..0] == [];
    assert ParsedAll([t]) == ParsedAll([]) + [Parsed(t)];
  }

  // ---- streams without lengths -------------------------------------------------------------------

  /** A frame as a sender prints it that does not count its body. */
  function Uncounted(f: Frame, order: seq<string>): string
    requires forall n :: n in order ==> n in f.headers
  {
    TextOf([f.command] + HeaderLines(f.headers, order), f.body)
  }

  lemma NothingDropped(m: map<string, string>, name: string)
    requires name !in m
    ensures (m - {name}) + map[] == m
  {
  }

  lemma UncountedHead(f: Frame, order: seq<string>)
    requires WellFormed(f) && IsOrder(order, f.headers.Keys) && "__proto__" !in f.headers
    ensures var lines := [f.command] + HeaderLines(f.headers, order);
            GoodLines(lines) && (forall x :: x in lines ==> Free(x, '\0')) && Headers(lines[1..]) == f.headers
  {
    var bare := f.(body := "");
    HeadIsGood(bare, order);
    assert Head(bare, order) == [f.command] + HeaderLines(f.headers, order);
    HeadParsed(bare, order);
    NothingDropped(f.headers, "__proto__");
  }

  lemma UncountedRoundTrip(f: Frame, order: seq<string>)
    requires WellFormed(f) && IsOrder(order, f.headers.Keys) && "__proto__" !in f.headers
    ensures Parsed(Uncounted(f, order)) == f && Framed(Uncounted(f, order))
  {
    var lines := [f.command] + HeaderLines(f.headers, order);
    UncountedHead(f, order);
    assert CONTENT_LENGTH !in f.headers by { NoLengthYet(f); }
    CommandAndHeaders(lines, f.body);
    BodyWithoutLength(lines, f.body, "");
    JoinIsTight(lines);
    JoinFree(lines, '\0');
  }

  lemma NoLengthYet(f: Frame)
    requires WellFormed(f)
    ensures CONTENT_LENGTH !in f.headers
  {
    assert forall n :: n in f.headers ==> GoodHeader(n, f.headers[n]);
  }

  ghost predicate UncountedAs(f: Frame, text: string) {
    WellFormed(f) && "__proto__" !in f.headers
    && exists order :: IsOrder(order, f.headers.Keys) && text == Uncounted(f, order)
  }

  lemma UncountedText(f: Frame, text: string)
    requires UncountedAs(f, text)
    ensures Parsed(text) == f && Framed(text)
  {
    var order :| IsOrder(order, f.headers.Keys) && text == Uncounted(f, order);
    UncountedRoundTrip(f, order);
  }

  lemma {:induction false} UncountedEach(frames: seq<Frame>, texts: seq<string>)
    requires |frames| == |texts| && forall i :: 0 <= i < |frames| ==> UncountedAs(frames[i], texts[i])
    ensures ParsedAll(texts) == frames
  {
    if frames != [] {
      var n := |frames| - 1;
      UncountedEach(frames[..n], texts[..n]);
      UncountedText(frames[n], texts[n]);
      AppendLast(frames, n);
    }
  }

  lemma AppendLast(frames: seq<Frame>, n: nat)
    requires |frames| == n + 1
    ensures frames == frames[..n] + [frames[n]]
  {
  }

  /** Frames printed without a content-length arrive exactly as they are, bodies included. */
  lemma UncountedStream(frames: seq<Frame>, texts: seq<string>, gaps: seq<nat>)
    requires |frames| == |texts| == |gaps| && forall i :: 0 <= i < |frames| ==> UncountedAs(frames[i], texts[i])
    ensures ParsedAll(Pieces(Stream(texts, gaps))) == frames
  {
    forall t | t in texts ensures Framed(t) {
      var i :| 0 <= i < |texts| && texts[i] == t;
      UncountedText(frames[i], t);
    }
    StreamPieces(texts, gaps);
    assert (texts + [""])[..|texts|] == texts;
    UncountedEach(frames, texts);
  }

  // ---- the printed form, letter by letter ----------------------------------------------------------

  lemma Cons(first: string, rest: seq<string>)
    requires rest != []
    ensures Join([first] + rest, '\n') == first + "\n" + Join(rest, '\n')
  {
    assert ([first] + rest)[1..] == rest;
    assert "\n" == ['\n'];
  }

  lemma LengthForm(body: string)
    ensures LengthLine(body) == "content-length:" + Digits(|body|, Decimal)
  {
    assert CONTENT_LENGTH + ":" == "content-length:";
  }

  lemma OneLine(name: string, value: string)
    ensures HeaderLines(map[name := value], [name]) == [name + ":" + value]
  {
  }

  lemma HeadForm(f: Frame, name: string, line: string, count: string)
    requires name in f.headers && HeaderLines(f.headers, [name]) == [line] && LengthLine(f.body) == count
    ensures Join(Head(f, [name]), '\n')
            == f.command + "\n" + (if f.body != "" then line + "\n" + count else line)
  {
    if f.body != "" {
      assert Head(f, [name]) == [f.command] + [line, count];
      assert [line, count] == [line] + [count];
      Cons(f.command, [line, count]);
      Cons(line, [count]);
    } else {
      assert Head(f, [name]) == [f.command] + [line];
      Cons(f.command, [line]);
    }
  }

  /** What this client prints for a frame with one header. */
  lemma PrintedForm(command: string, name: string, value: string, body: string)
    ensures Printed(Frame(command, map[name := value], body), [name])
            == command + "\n"
               + (if body != "" then (name + ":" + value) + "\n" + ("content-length:" + Digits(|body|, Decimal))
                  else name + ":" + value)
               + "\n\n" + body
  {
    LengthForm(body);
    OneLine(name, value);
    HeadForm(Frame(command, map[name := value], body), name, name + ":" + value,
             "content-length:" + Digits(|body|, Decimal));
    assert ['\n', '\n'] == "\n\n";
  }
}
