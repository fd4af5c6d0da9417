/** Response heads as the wire tracker reads them. A byte is written as the character of
    the same code. */
module HttpHeads {
  import opened Options
  import opened Texts

  const BREAK := "\r\n\r\n"
  const MAX_RESPONSE_HEADER_BYTES := 16 * 1024

  function Split(s: string, sep: char): (r: seq<string>)
    ensures |r| > 0
  {
    if s == "" then [""]
    else
      var rest := Split(s[1..], sep);
      if s[0] == sep then [""] + rest else [[s[0]] + rest[0]] + rest[1..]
  }

  predicate IsDigit(c: char) { '0' <= c <= '9' }

  function Value(s: string): nat
    requires forall c :: c in s ==> IsDigit(c)
  {
    if s == "" then 0
    else
      assert IsDigit(s[|s| - 1]);
      10 * Value(s[..|s| - 1]) + (s[|s| - 1] as int - '0' as int)
  }

  function ParseNumber(s: string, max: nat): Option<nat> {
    var d := if |s| > 1 && s[0] == '+' then s[1..] else s;
    if d == "" || exists c :: c in d && !IsDigit(c) then None
    else if Value(d) <= max then Some(Value(d))
    else None
  }

  const MAX_U16: nat := 0xFFFF
  const MAX_USIZE: nat := 0xFFFF_FFFF_FFFF_FFFF

  function StatusCode(headers: string): Option<nat> {
    var parts := Split(Split(headers, '\n')[0], ' ');
    if |parts| < 2 then None else ParseNumber(Trim(parts[1]), MAX_U16)
  }

  predicate AnyLine(lines: seq<string>, name: string, part: string) {
    exists k :: 0 <= k < |lines| && StartsWith(lines[k], name) && Contains(lines[k], part)
  }

  /** The first content-length line that parses. */
  function LengthIn(lines: seq<string>): Option<nat> {
    if lines == [] then None
    else
      var n := if StartsWith(lines[0], "content-length:") then ParseNumber(Trim(lines[0][15..]), MAX_USIZE) else None;
      if n.Some? then n else LengthIn(lines[1..])
  }

  datatype Head = Head(status: Option<nat>, sse: bool, chunked: bool, length: Option<nat>) {
    predicate Interim() { status.Some? && 100 <= status.value < 200 }

    predicate NoContent() { status.Some? && (204 <= status.value <= 205 || status.value == 304) }
  }

  function ParseHead(raw: string): Head {
    var headers := Lower(raw);
    var lines := Split(headers, '\n');
    Head(StatusCode(headers), AnyLine(lines, "content-type:", "text/event-stream"),
         AnyLine(lines, "transfer-encoding:", "chunked"), LengthIn(lines))
  }

  // ---- lines ended by CRLF, the last one empty ----

  function Encoded(lines: seq<string>): string
    decreases |lines|
  {
    if lines == [] then "\r\n" else lines[0] + "\r\n" + Encoded(lines[1..])
  }

  predicate Plain(line: string) { line != "" && '\r' !in line }

  /** A blank line ends the encoding and occurs nowhere before its end. */
  lemma {:induction false} NoEarlierBreak(lines: seq<string>, n: nat)
    requires forall l :: l in lines ==> Plain(l)
    requires 4 <= n <= |Encoded(lines)| && Encoded(lines)[n - 4..n] == BREAK
    ensures n == |Encoded(lines)|
    decreases |lines|
  {
    var e := Encoded(lines);
    assert e[n - 4] == '\r' && e[n - 3] == '\n' && e[n - 2] == '\r' && e[n - 1] == '\n';
    if lines != [] {
      var rest := Encoded(lines[1..]);
      var m := |lines[0]| + 2;
      assert Plain(lines[0]) && e == lines[0] + "\r\n" + rest;
      assert forall k :: 0 <= k < |lines[0]| ==> e[k] == lines[0][k] && e[k] != '\r';
      assert e[m] == rest[0];
      if |lines| > 1 {
        assert Plain(lines[1]) && rest[0] == lines[1][0];
      }
      if n - 4 >= m {
        assert rest[n - m - 4..n - m] == e[n - 4..n];
        NoEarlierBreak(lines[1..], n - m);
      }
    }
  }

  lemma {:induction false} EncodedEndsInBreak(lines: seq<string>)
    requires lines != []
    ensures EndsWith(Encoded(lines), BREAK)
    decreases |lines|
  {
    var e := Encoded(lines);
    var rest := Encoded(lines[1..]);
    assert e == lines[0] + "\r\n" + rest;
    if |lines| == 1 {
      assert e[|e| - 4..] == BREAK;
    } else {
      EncodedEndsInBreak(lines[1..]);
      assert e[|e| - 4..] == rest[|rest| - 4..];
    }
  }

  /** A head the tracker sees whole: short enough, and its first blank line its last. */
  ghost predicate Heading(h: string) {
    && |h| <= MAX_RESPONSE_HEADER_BYTES && EndsWith(h, BREAK)
    && forall n :: 0 <= n < |h| ==> !EndsWith(h[..n], BREAK)
  }

  lemma RenderedHeadIsHeading(lines: seq<string>)
    requires lines != [] && forall l :: l in lines ==> Plain(l)
    requires |Encoded(lines)| <= MAX_RESPONSE_HEADER_BYTES
    ensures Heading(Encoded(lines))
  {
    var e := Encoded(lines);
    EncodedEndsInBreak(lines);
    forall n | 0 <= n < |e| ensures !EndsWith(e[..n], BREAK) {
      if EndsWith(e[..n], BREAK) {
        assert e[n - 4..n] == e[..n][n - 4..];
        NoEarlierBreak(lines, n);
      }
    }
  }

  // ---- what a rendered head is understood as ----

  datatype Field = Field(name: string, value: string) {
    function Line(): string { name + ":" + value }
  }

  predicate LineFree(s: string) { '\r' !in s && '\n' !in s }

  predicate FieldOk(f: Field) { LineFree(f.name) && LineFree(f.value) && ':' !in f.name && f.name != "" }

  function FieldLines(fields: seq<Field>): (r: seq<string>)
    ensures |r| == |fields| && forall k :: 0 <= k < |r| ==> r[k] == fields[k].Line()
  {
    seq(|fields|, k requires 0 <= k < |fields| => fields[k].Line())
  }

  function Decimal(n: nat): (s: string)
    ensures s != "" && (forall c :: c in s ==> IsDigit(c)) && Value(s) == n
  {
    var last := [(n % 10 + '0' as int) as char];
    if n < 10 then last
    else
      var s := Decimal(n / 10) + last;
      assert s[..|s| - 1] == Decimal(n / 10);
      s
  }

  function StatusLine(version: string, code: nat, reason: string): string {
    version + " " + Decimal(code) + " " + reason
  }

  function RenderHead(version: string, code: nat, reason: string, fields: seq<Field>): string {
    Encoded([StatusLine(version, code, reason)] + FieldLines(fields))
  }

  function FirstLength(fields: seq<Field>): Option<nat> {
    if fields == [] then None
    else
      var n := if Lower(fields[0].name) == "content-length" then ParseNumber(Trim(Lower(fields[0].value)), MAX_USIZE) else None;
      if n.Some? then n else FirstLength(fields[1..])
  }

  predicate SaysChunked(fields: seq<Field>) {
    exists k :: 0 <= k < |fields| && Lower(fields[k].name) == "transfer-encoding" &&
      Contains(Lower(fields[k].Line()) + "\r", "chunked")
  }

  lemma {:induction false} SplitAtSeparator(a: string, b: string, sep: char)
    requires sep !in a
    ensures Split(a + [sep] + b, sep) == [a] + Split(b, sep)
    decreases |a|
  {
    var s := a + [sep] + b;
    if a == "" {
      assert s[1..] == b;
    } else {
      SplitAtSeparator(a[1..], b, sep);
      assert s[1..] == a[1..] + [sep] + b;
      assert [s[0]] + a[1..] == a;
    }
  }

  function Raw(lines: seq<string>): (r: seq<string>)
    ensures |r| == |lines| && forall k :: 0 <= k < |r| ==> r[k] == Lower(lines[k]) + "\r"
  {
    seq(|lines|, k requires 0 <= k < |lines| => Lower(lines[k]) + "\r")
  }

  lemma LowerOfConcat(a: string, b: string)
    ensures Lower(a + b) == Lower(a) + Lower(b)
  {}

  lemma {:induction false} SplitOfEncoded(lines: seq<string>)
    requires forall l :: l in lines ==> LineFree(l)
    ensures Split(Lower(Encoded(lines)), '\n') == Raw(lines) + ["\r", ""]
    decreases |lines|
  {
    if lines == [] {
      assert Lower("\r\n") == "\r" + ['\n'] + "";
      SplitAtSeparator("\r", "", '\n');
    } else {
      var head := Lower(lines[0]) + "\r";
      var rest := Lower(Encoded(lines[1..]));
      LowerOfConcat(lines[0] + "\r\n", Encoded(lines[1..]));
      LowerOfConcat(lines[0], "\r\n");
      assert LineFree(lines[0]);
      assert Lower(Encoded(lines)) == head + ['\n'] + rest;
      SplitAtSeparator(head, rest, '\n');
      SplitOfEncoded(lines[1..]);
      assert Raw(lines) == [head] + Raw(lines[1..]);
    }
  }

  lemma DigitsSurvive(s: string)
    requires s != "" && forall c :: c in s ==> IsDigit(c)
    ensures Lower(s) == s && Trim(s) == s
  {
    assert s[0] in s && s[|s| - 1] in s;
    forall k | 0 <= k < |s| ensures Lower(s)[k] == s[k] { assert s[k] in s; }
  }

  /** The status code of a rendered head is read back. */
  lemma StatusIsReadBack(version: string, code: nat, reason: string, fields: seq<Field>)
    requires LineFree(version) && ' ' !in version && LineFree(reason) && code <= MAX_U16
    requires forall f :: f in fields ==> FieldOk(f)
    ensures ParseHead(RenderHead(version, code, reason, fields)).status == Some(code)
  {
    hide ParseNumber;
    var lines := [StatusLine(version, code, reason)] + FieldLines(fields);
    HeadLinesAreLineFree(version, code, reason, fields);
    SplitOfEncoded(lines);
    var d := Decimal(code);
    var rest := Lower(reason) + "\r";
    DigitsSurvive(d);
    assert Split(Lower(Encoded(lines)), '\n')[0] == Lower(lines[0]) + "\r";
    assert Lower(lines[0]) + "\r" == Lower(version) + [' '] + (d + [' '] + rest) by {
      LowerOfConcat(version + " " + d + " ", reason);
      LowerOfConcat(version + " " + d, " ");
      LowerOfConcat(version + " ", d);
      LowerOfConcat(version, " ");
    }
    assert ' ' !in Lower(version);
    SplitAtSeparator(Lower(version), d + [' '] + rest, ' ');
    assert ' ' !in d;
    SplitAtSeparator(d, rest, ' ');
    DigitsParse(code, MAX_U16);
  }

  lemma DigitsParse(n: nat, max: nat)
    requires n <= max
    ensures ParseNumber(Decimal(n), max) == Some(n)
  {
    assert Decimal(n)[0] in Decimal(n);
  }

  lemma HeadLinesAreLineFree(version: string, code: nat, reason: string, fields: seq<Field>)
    requires LineFree(version) && LineFree(reason)
    requires forall f :: f in fields ==> FieldOk(f)
    ensures forall l :: l in [StatusLine(version, code, reason)] + FieldLines(fields) ==> LineFree(l) && Plain(l)
  {
    forall k | 0 <= k < |fields| ensures LineFree(FieldLines(fields)[k]) && Plain(FieldLines(fields)[k]) {
      assert FieldOk(fields[k]);
    }
    var d := Decimal(code);
    assert '\r' !in d && '\n' !in d;
  }

  /** A lower-case field name ends at its colon. */
  lemma NameOfLine(f: Field, name: string)
    requires FieldOk(f) && ':' !in name
    ensures StartsWith(Lower(f.Line()) + "\r", name + ":") <==> Lower(f.name) == name
    ensures Lower(f.name) == name ==> (Lower(f.Line()) + "\r")[|name| + 1..] == Lower(f.value) + "\r"
  {
    var line := Lower(f.Line()) + "\r";
    LowerOfConcat(f.name + ":", f.value);
    LowerOfConcat(f.name, ":");
    var n := Lower(f.name);
    assert line == n + ":" + (Lower(f.value) + "\r");
    assert ':' !in n;
    var key := name + ":";
    assert forall k :: 0 <= k < |n| ==> line[k] == n[k] && n[k] != ':';
    assert forall k :: 0 <= k < |name| ==> key[k] == name[k] && name[k] != ':';
    assert line[|n|] == ':' && key[|name|] == ':';
    if StartsWith(line, key) {
      assert forall k :: 0 <= k < |key| ==> line[k] == line[..|key|][k] == key[k];
      assert line[|name|] == ':';
      assert |n| == |name|;
      assert n == name;
    }
    if n == name {
      assert line[..|key|] == key;
    }
  }

  lemma TrimDropsReturn(s: string)
    ensures Trim(s + "\r") == Trim(s)
    decreases |s|
  {
    if s == "" {
      assert TrimLeft("\r") == TrimLeft("");
    } else if IsSpace(s[0]) {
      assert (s + "\r")[1..] == s[1..] + "\r";
      TrimDropsReturn(s[1..]);
    } else {
      assert TrimLeft(s + "\r") == s + "\r";
      assert (s + "\r")[..|s|] == s;
    }
  }

  lemma {:induction false} LengthOfFields(fields: seq<Field>)
    requires forall f :: f in fields ==> FieldOk(f)
    ensures LengthIn(Raw(FieldLines(fields)) + ["\r", ""]) == FirstLength(fields)
    decreases |fields|
  {
    hide ParseNumber, Trim;
    var lines := Raw(FieldLines(fields)) + ["\r", ""];
    if fields == [] {
      assert lines == ["\r", ""] && lines[1..] == [""];
      assert LengthIn([""]) == None;
    } else {
      NameOfLine(fields[0], "content-length");
      assert "content-length" + ":" == "content-length:";
      assert lines[1..] == Raw(FieldLines(fields[1..])) + ["\r", ""];
      TrimDropsReturn(Lower(fields[0].value));
      LengthOfFields(fields[1..]);
    }
  }

  lemma OtherFirstChar(s: string, t: string)
    requires s != "" && t != "" && s[0] != t[0]
    ensures !StartsWith(s, t)
  {
    if |t| <= |s| {
      assert s[..|t|][0] == s[0];
    }
  }

  /** So is its length: that of the first content-length field with a number, in any
      letter case. */
  lemma LengthIsReadBack(version: string, code: nat, reason: string, fields: seq<Field>)
    requires StartsWith(version, "HTTP/") && LineFree(version) && LineFree(reason)
    requires forall f :: f in fields ==> FieldOk(f)
    ensures ParseHead(RenderHead(version, code, reason, fields)).length == FirstLength(fields)
  {
    hide ParseNumber, Trim;
    var status := StatusLine(version, code, reason);
    var lines := [status] + FieldLines(fields);
    HeadLinesAreLineFree(version, code, reason, fields);
    SplitOfEncoded(lines);
    var all := Raw(lines) + ["\r", ""];
    StatusStartsWithH(version, code, reason);
    assert all[0] == Lower(status) + "\r";
    OtherFirstChar(all[0], "content-length:");
    assert all[1..] == Raw(FieldLines(fields)) + ["\r", ""];
    LengthOfFields(fields);
  }

  /** And it is chunked exactly when a transfer-encoding field says so. */
  lemma ChunkingIsReadBack(version: string, code: nat, reason: string, fields: seq<Field>)
    requires StartsWith(version, "HTTP/") && LineFree(version) && LineFree(reason)
    requires forall f :: f in fields ==> FieldOk(f)
    ensures
      ParseHead(RenderHead(version, code, reason, fields)).chunked <==>
      SaysChunked(fields)
  {
    hide Contains, StatusCode, LengthIn, Encoded, Split;
    var status := StatusLine(version, code, reason);
    var lines := [status] + FieldLines(fields);
    HeadLinesAreLineFree(version, code, reason, fields);
    SplitOfEncoded(lines);
    var all := Raw(lines) + ["\r", ""];
    StatusStartsWithH(version, code, reason);
    assert all[0] == Lower(status) + "\r";
    forall k | 0 <= k < |fields|
      ensures StartsWith(all[k + 1], "transfer-encoding:") <==> Lower(fields[k].name) == "transfer-encoding"
      ensures all[k + 1] == Lower(fields[k].Line()) + "\r"
    {
      NameOfLine(fields[k], "transfer-encoding");
      assert "transfer-encoding" + ":" == "transfer-encoding:";
      assert all[k + 1] == Raw(lines)[k + 1];
    }
    OtherFirstChar(all[0], "transfer-encoding:");
    TransferLines(all, fields);
  }

  lemma StatusStartsWithH(version: string, code: nat, reason: string)
    requires StartsWith(version, "HTTP/")
    ensures (Lower(StatusLine(version, code, reason)) + "\r")[0] == 'h'
  {
    assert version[0] == version[..5][0] == 'H';
    assert StatusLine(version, code, reason)[0] == version[0];
  }

  lemma TransferLines(all: seq<string>, fields: seq<Field>)
    requires |all| == |fields| + 3 && all[|all| - 2..] == ["\r", ""] && !StartsWith(all[0], "transfer-encoding:")
    requires forall k :: 0 <= k < |fields| ==>
      && (StartsWith(all[k + 1], "transfer-encoding:") <==> Lower(fields[k].name) == "transfer-encoding")
      && all[k + 1] == Lower(fields[k].Line()) + "\r"
    ensures
      AnyLine(all, "transfer-encoding:", "chunked") <==>
      SaysChunked(fields)
  {
    hide Contains, Lower;
    assert all[|all| - 2] == "\r" && all[|all| - 1] == "";
    if AnyLine(all, "transfer-encoding:", "chunked") {
      var j :| 0 <= j < |all| && StartsWith(all[j], "transfer-encoding:") && Contains(all[j], "chunked");
      var k := j - 1;
      assert 0 <= k < |fields|;
      assert Lower(fields[k].name) == "transfer-encoding";
    }
    forall k | 0 <= k < |fields| && Lower(fields[k].name) == "transfer-encoding" && Contains(Lower(fields[k].Line()) + "\r", "chunked")
      ensures AnyLine(all, "transfer-encoding:", "chunked")
    {
      assert StartsWith(all[k + 1], "transfer-encoding:") && Contains(all[k + 1], "chunked");
    }
  }
}
