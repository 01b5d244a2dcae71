/**
 Reading a multi-line reply (section 4.2.1 of RFC 5321) from a stream that arrives in pieces. However
 the stream is cut, the reply is the same, and nothing beyond it is consumed.
 */
module SmtpReplies {
  import opened Outcomes
  import opened DecimalDigits

  /** The characters that a dot in a regular expression does not match. */
  predicate IsLineTerminator(c: char) {
    c == '\n' || c == '\r' || c == '\U{2028}' || c == '\U{2029}'
  }

  predicate IsText(s: string) {
    forall i | 0 <= i < |s| :: !IsLineTerminator(s[i])
  }

  /** Three digits, a space or a hyphen, and a text. */
  predicate IsReplyLine(line: string) {
    && |line| >= 4 && IsDigit(line[0]) && IsDigit(line[1]) && IsDigit(line[2])
    && (line[3] == ' ' || line[3] == '-') && IsText(line[4..])
  }

  function Code(line: string): nat
    requires IsReplyLine(line)
  {
    100 * DigitValue(line[0]) + 10 * DigitValue(line[1]) + DigitValue(line[2])
  }

  function NewlineAt(s: string): (k: nat)
    ensures k <= |s| && (k < |s| ==> s[k] == '\n') && forall j | 0 <= j < k :: s[j] != '\n'
  {
    if s == "" || s[0] == '\n' then 0 else 1 + NewlineAt(s[1..])
  }

  /** Without the carriage return that may end it. */
  function Chomp(line: string): string {
    if line != "" && line[|line| - 1] == '\r' then line[..|line| - 1] else line
  }

  datatype Progress =
    | More(seen: Option<nat>, lines: seq<string>, rest: string)
    | Complete(code: nat, lines: seq<string>, rest: string)
    | Malformed(rest: string)
    | Inconsistent(rest: string)

  /** What the buffer amounts to, given the code and lines already read. */
  function Parse(buffer: string, code: Option<nat>, lines: seq<string>): Progress
    decreases |buffer|
  {
    var newline := NewlineAt(buffer);
    if newline == |buffer| then More(code, lines, buffer)
    else
      var line, rest := Chomp(buffer[..newline]), buffer[newline + 1..];
      if !IsReplyLine(line) then Malformed(rest)
      else if code.GetOr(Code(line)) != Code(line) then Inconsistent(rest)
      else if line[3] == ' ' then Complete(Code(line), lines + [line[4..]], rest)
      else Parse(rest, Some(Code(line)), lines + [line[4..]])
  }

  // ----- pieces

  /** What a parse makes of more input: it goes on if it was waiting, and leaves the input alone if not. */
  function Continued(p: Progress, more: string): Progress {
    match p
    case More(code, lines, rest) => Parse(rest + more, code, lines)
    case Complete(code, lines, rest) => Complete(code, lines, rest + more)
    case Malformed(rest) => Malformed(rest + more)
    case Inconsistent(rest) => Inconsistent(rest + more)
  }

  lemma {:induction false} NewlineExtends(s: string, more: string)
    ensures NewlineAt(s) < |s| ==> NewlineAt(s + more) == NewlineAt(s)
  {
    if s != "" && s[0] != '\n' {
      assert (s + more)[1..] == s[1..] + more;
      NewlineExtends(s[1..], more);
    }
  }

  /** Parsing in two pieces is parsing the whole. */
  lemma {:induction false} ParseInPieces(buffer: string, more: string, code: Option<nat>, lines: seq<string>)
    ensures Continued(Parse(buffer, code, lines), more) == Parse(buffer + more, code, lines)
    decreases |buffer|
  {
    var newline := NewlineAt(buffer);
    if newline < |buffer| {
      NewlineExtends(buffer, more);
      var line, rest := Chomp(buffer[..newline]), buffer[newline + 1..];
      assert (buffer + more)[..newline] == buffer[..newline];
      assert (buffer + more)[newline + 1..] == rest + more;
      if IsReplyLine(line) { ParseInPieces(rest, more, Some(Code(line)), lines + [line[4..]]); }
    }
  }

  function Concat(chunks: seq<string>): string {
    if chunks == [] then "" else Concat(chunks[..|chunks| - 1]) + chunks[|chunks| - 1]
  }

  lemma {:induction false} ConcatSplit(chunks: seq<string>, k: nat)
    requires k <= |chunks|
    ensures Concat(chunks) == Concat(chunks[..k]) + Concat(chunks[k..])
  {
    if k == |chunks| {
      assert chunks[..k] == chunks && chunks[k..] == [];
      assert Concat(chunks) + "" == Concat(chunks);
    } else {
      var init := chunks[..|chunks| - 1];
      ConcatSplit(init, k);
      assert init[..k] == chunks[..k];
      assert chunks[k..][..|chunks| - k - 1] == init[k..];
    }
  }

  // ----- the connection

  datatype Reply = Resolved(code: nat, lines: seq<string>) | MalformedReply | InconsistentCodes | Closed

  /** What the caller is told when the stream has led to `p` and ends there. */
  function Answer(p: Progress): Reply {
    match p
    case More(_, _, _) => Closed
    case Complete(code, lines, _) => Resolved(code, lines)
    case Malformed(_) => MalformedReply
    case Inconsistent(_) => InconsistentCodes
  }

  /** Where the first `k` pieces lead. */
  function After(start: string, chunks: seq<string>, k: nat): Progress
    requires k <= |chunks|
  {
    Parse(start + Concat(chunks[..k]), None, [])
  }

  lemma OneMorePiece(start: string, chunks: seq<string>, used: nat)
    requires used < |chunks|
    ensures start + Concat(chunks[..used + 1]) == start + Concat(chunks[..used]) + chunks[used]
  {
    assert chunks[..used + 1][..used] == chunks[..used];
  }

  lemma MoreContinues(s: string, more: string, p: Progress)
    requires p == Parse(s, None, []) && p.More?
    ensures Parse(p.rest + more, p.seen, p.lines) == Parse(s + more, None, [])
  {
    ParseInPieces(s, more, None, []);
  }

  lemma NextPiece(start: string, chunks: seq<string>, used: nat, p: Progress)
    requires used < |chunks| && p == After(start, chunks, used) && p.More?
    ensures Parse(p.rest + chunks[used], p.seen, p.lines) == After(start, chunks, used + 1)
  {
    MoreContinues(start + Concat(chunks[..used]), chunks[used], p);
    OneMorePiece(start, chunks, used);
  }

  lemma SettledStays(p: Progress, more: string)
    requires !p.More?
    ensures Answer(Continued(p, more)) == Answer(p) && Continued(p, more).rest == p.rest + more
  {
  }

  lemma AllPieces(start: string, chunks: seq<string>)
    ensures start + Concat(chunks[..|chunks|]) == start + Concat(chunks)
    ensures Concat(chunks[|chunks|..]) == ""
  {
    assert chunks[..|chunks|] == chunks && chunks[|chunks|..] == [];
  }

  lemma NoPieces(start: string, chunks: seq<string>)
    ensures After(start, chunks, 0) == Parse(start, None, [])
  {
    assert start + Concat(chunks[..0]) == start;
  }

  lemma WholeInTwo(start: string, chunks: seq<string>, used: nat)
    requires used <= |chunks|
    ensures start + Concat(chunks) == start + Concat(chunks[..used]) + Concat(chunks[used..])
  {
    ConcatSplit(chunks, used);
  }

  /** `p` was reached after `used` pieces, `whole` after all of them. */
  lemma RemainingPieces(start: string, chunks: seq<string>, used: nat, p: Progress)
    requires used <= |chunks| && p == Parse(start + Concat(chunks[..used]), None, []) && !p.More?
    ensures Continued(p, Concat(chunks[used..])) == Parse(start + Concat(chunks), None, [])
  {
    ParseInPieces(start + Concat(chunks[..used]), Concat(chunks[used..]), None, []);
    WholeInTwo(start, chunks, used);
  }

  /** Once all pieces have arrived, or the reply is settled, nothing more will change it. */
  lemma ReadingEnds(start: string, chunks: seq<string>, used: nat, p: Progress)
    requires used <= |chunks| && p == After(start, chunks, used) && (p.More? ==> used == |chunks|)
    ensures Answer(After(start, chunks, |chunks|)) == Answer(p)
    ensures After(start, chunks, |chunks|).rest == p.rest + Concat(chunks[used..])
  {
    AllPieces(start, chunks);
    if p.More? {
      assert p.rest + "" == p.rest;
    } else {
      RemainingPieces(start, chunks, used, p);
      SettledStays(p, Concat(chunks[used..]));
    }
  }

  /** What has been received and not consumed yet. */
  class Connection {
    var buffer: string

    constructor (buffer: string)
      ensures this.buffer == buffer
    {
      this.buffer := buffer;
    }

    /** Consumes complete lines; says whether that settled the reply. */
    method ProcessBuffer(code: Option<nat>, lines: seq<string>) returns (p: Progress)
      modifies this
      ensures p == Parse(old(buffer), code, lines)
      ensures buffer == p.rest
    {
      var responseCode, read := code, lines;
      while NewlineAt(buffer) < |buffer|
        invariant Parse(buffer, responseCode, read) == Parse(old(buffer), code, lines)
        decreases |buffer|
      {
        var newline := NewlineAt(buffer);
        var line := Chomp(buffer[..newline]);
        buffer := buffer[newline + 1..];
        if !IsReplyLine(line) { return Malformed(buffer); }
        if responseCode.None? { responseCode := Some(Code(line)); }
        if responseCode.value != Code(line) { return Inconsistent(buffer); }
        read := read + [line[4..]];
        if line[3] == ' ' { return Complete(Code(line), read, buffer); }
      }
      p := More(responseCode, read, buffer);
    }

    /**
     Reads one reply; `used` of the pieces have arrived when it is settled, or the stream ends. Code and
     lines, or the refusal, are those of the undivided stream, and what is left over is exactly what of the
     pieces that arrived was not consumed.
     */
    method ReadResponse(chunks: seq<string>) returns (r: Reply, used: nat)
      modifies this
      ensures used <= |chunks|
      ensures r == Answer(After(old(buffer), chunks, |chunks|))
      ensures buffer == After(old(buffer), chunks, used).rest
      ensures buffer + Concat(chunks[used..]) == After(old(buffer), chunks, |chunks|).rest
      ensures forall k | 0 <= k < used :: After(old(buffer), chunks, k).More?
      ensures r.Closed? ==> used == |chunks|
    {
      ghost var start := buffer;
      used := 0;
      var p := ProcessBuffer(None, []);
      NoPieces(start, chunks);
      while p.More? && used < |chunks|
        invariant used <= |chunks| && buffer == p.rest && p == After(start, chunks, used)
        invariant forall k | 0 <= k < used :: After(start, chunks, k).More?
        decreases |chunks| - used
      {
        NextPiece(start, chunks, used, p);
        buffer := buffer + chunks[used];
        p := ProcessBuffer(p.seen, p.lines);
        used := used + 1;
      }
      r := Answer(p);
      ReadingEnds(start, chunks, used, p);
    }
  }

  // ----- what a reply looks like

  function PrintedCode(code: nat): (s: string)
    requires code < 1000
    ensures |s| == 3
  {
    [DigitOf(code / 100), DigitOf(code / 10 % 10), DigitOf(code % 10)]
  }

  predicate AllText(lines: seq<string>) {
    forall i | 0 <= i < |lines| :: IsText(lines[i])
  }

  /** A line of a reply: `last` tells the final line, `bare` a line end without carriage return. */
  function PrintedLine(code: nat, text: string, last: bool, bare: bool): string
    requires code < 1000
  {
    PrintedCode(code) + [if last then ' ' else '-'] + text + if bare then "\n" else "\r\n"
  }

  function Printed(code: nat, lines: seq<string>, bare: seq<bool>): string
    requires code < 1000 && |lines| == |bare|
  {
    if lines == [] then ""
    else PrintedLine(code, lines[0], |lines| == 1, bare[0]) + Printed(code, lines[1..], bare[1..])
  }

  predicate NoNewline(s: string) {
    forall i | 0 <= i < |s| :: s[i] != '\n'
  }

  lemma {:induction false} NewlineAfter(s: string, more: string)
    requires NoNewline(s)
    ensures NewlineAt(s + "\n" + more) == |s|
  {
    if s != "" {
      assert (s + "\n" + more)[1..] == s[1..] + "\n" + more;
      NewlineAfter(s[1..], more);
    }
  }

  lemma CodeDigits(code: nat)
    requires code < 1000
    ensures 100 * (code / 100) + 10 * (code / 10 % 10) + code % 10 == code
  {
  }

  /** A printed code is three digits that write it. */
  lemma PrintedCodeReads(code: nat, body: string)
    requires code < 1000 && |body| >= 4 && body[..3] == PrintedCode(code) && (body[3] == ' ' || body[3] == '-') && IsText(body[4..])
    ensures IsReplyLine(body) && Code(body) == code
  {
    CodeDigits(code);
    assert body[0] == body[..3][0] && body[1] == body[..3][1] && body[2] == body[..3][2];
  }

  lemma PrintedBody(code: nat, text: string, last: bool)
    requires code < 1000 && IsText(text)
    ensures var body := PrintedCode(code) + [if last then ' ' else '-'] + text;
            && IsReplyLine(body) && Code(body) == code && body[4..] == text && body[3] == (if last then ' ' else '-')
            && NoNewline(body) && body[|body| - 1] != '\r'
  {
    var body := PrintedCode(code) + [if last then ' ' else '-'] + text;
    assert body[4..] == text && body[..3] == PrintedCode(code);
    PrintedCodeReads(code, body);
    forall i | 0 <= i < |body| ensures body[i] != '\n' && body[i] != '\r' {
      if i >= 4 { assert body[i] == text[i - 4]; }
    }
  }

  lemma LineReads(body: string, bare: bool, more: string)
    requires NoNewline(body) && body != "" && body[|body| - 1] != '\r'
    ensures var s := body + (if bare then "\n" else "\r\n") + more;
            var k := NewlineAt(s);
            k < |s| && s[k + 1..] == more && Chomp(s[..k]) == body
  {
    var line := body + if bare then "" else "\r";
    var s := body + (if bare then "\n" else "\r\n") + more;
    assert s == line + "\n" + more;
    NewlineAfter(line, more);
    assert s[..|line|] == line && s[|line| + 1..] == more;
    assert bare ==> line == body;
    assert !bare ==> line[..|line| - 1] == body;
  }

  lemma OneLineParses(code: nat, text: string, last: bool, bare: bool, tail: string, known: Option<nat>, before: seq<string>)
    requires code < 1000 && IsText(text) && known.GetOr(code) == code
    ensures Parse(PrintedLine(code, text, last, bare) + tail, known, before)
         == if last then Complete(code, before + [text], tail) else Parse(tail, Some(code), before + [text])
  {
    PrintedBody(code, text, last);
    LineReads(PrintedCode(code) + [if last then ' ' else '-'] + text, bare, tail);
  }

  lemma FirstPrinted(code: nat, lines: seq<string>, bare: seq<bool>, more: string)
    requires code < 1000 && lines != [] && |lines| == |bare|
    ensures Printed(code, lines, bare) + more
         == PrintedLine(code, lines[0], |lines| == 1, bare[0]) + (Printed(code, lines[1..], bare[1..]) + more)
  {
  }

  /** A printed reply is read back, whatever follows it and whichever line ends it has. */
  lemma {:induction false} PrintedReads(code: nat, lines: seq<string>, bare: seq<bool>, known: Option<nat>, before: seq<string>, more: string)
    requires code < 1000 && lines != [] && |lines| == |bare| && AllText(lines) && known.GetOr(code) == code
    ensures Parse(Printed(code, lines, bare) + more, known, before) == Complete(code, before + lines, more)
    decreases |lines|
  {
    var l, tail := lines[0], Printed(code, lines[1..], bare[1..]);
    OneLineParses(code, l, |lines| == 1, bare[0], tail + more, known, before);
    FirstPrinted(code, lines, bare, more);
    if |lines| == 1 {
      assert tail + more == more && lines == [l];
    } else {
      PrintedReads(code, lines[1..], bare[1..], Some(code), before + [l], more);
      Gather(before, l, lines[1..]);
      assert [l] + lines[1..] == lines;
    }
  }

  lemma ThreeDigits(a: nat, b: nat, c: nat, n: nat)
    requires a <= 9 && b <= 9 && c <= 9 && n == 100 * a + 10 * b + c
    ensures n / 100 == a && n / 10 % 10 == b && n % 10 == c
  {
    assert n / 10 == 10 * a + b;
  }

  lemma DigitIs(c: char)
    requires IsDigit(c)
    ensures DigitOf(DigitValue(c)) == c
  {
  }

  lemma CodeIsPrinted(line: string)
    requires IsReplyLine(line)
    ensures Code(line) < 1000 && line == PrintedCode(Code(line)) + [line[3]] + line[4..]
  {
    var a, b, c := DigitValue(line[0]), DigitValue(line[1]), DigitValue(line[2]);
    ThreeDigits(a, b, c, Code(line));
    DigitIs(line[0]);
    DigitIs(line[1]);
    DigitIs(line[2]);
    assert line[..3] == PrintedCode(Code(line));
    assert line == line[..3] + [line[3]] + line[4..];
  }

  lemma RawLine(buffer: string, k: nat)
    requires k < |buffer| && buffer[k] == '\n'
    ensures buffer == Chomp(buffer[..k]) + (if Chomp(buffer[..k]) == buffer[..k] then "\n" else "\r\n") + buffer[k + 1..]
  {
    var raw := buffer[..k];
    var line := Chomp(raw);
    assert buffer == raw + "\n" + buffer[k + 1..];
    if line != raw { assert raw + "\n" == line + "\r\n"; }
  }

  lemma LineIsPrinted(buffer: string, k: nat, line: string)
    requires k < |buffer| && buffer[k] == '\n' && line == Chomp(buffer[..k]) && IsReplyLine(line)
    ensures Code(line) < 1000
    ensures buffer == PrintedLine(Code(line), line[4..], line[3] == ' ', line == buffer[..k]) + buffer[k + 1..]
  {
    CodeIsPrinted(line);
    RawLine(buffer, k);
  }

  lemma PrintedCons(code: nat, l: string, lines: seq<string>, b: bool, bare: seq<bool>, rest: string)
    requires code < 1000 && |lines| == |bare|
    ensures Printed(code, [l] + lines, [b] + bare) + rest == PrintedLine(code, l, lines == [], b) + (Printed(code, lines, bare) + rest)
  {
    assert ([l] + lines)[1..] == lines && ([b] + bare)[1..] == bare;
  }

  lemma OneLineRead(buffer: string, known: Option<nat>, before: seq<string>) returns (line: string, bare: bool, rest: string)
    requires Parse(buffer, known, before).Complete?
    ensures IsReplyLine(line) && Code(line) < 1000 && known.GetOr(Code(line)) == Code(line) && |rest| < |buffer|
    ensures buffer == PrintedLine(Code(line), line[4..], line[3] == ' ', bare) + rest
    ensures Parse(buffer, known, before)
         == if line[3] == ' ' then Complete(Code(line), before + [line[4..]], rest) else Parse(rest, Some(Code(line)), before + [line[4..]])
  {
    var k := NewlineAt(buffer);
    line, rest := Chomp(buffer[..k]), buffer[k + 1..];
    bare := line == buffer[..k];
    LineIsPrinted(buffer, k, line);
  }

  lemma Gather(before: seq<string>, l: string, lines: seq<string>)
    ensures before + [l] + lines == before + ([l] + lines)
  {
  }

  lemma TextCons(l: string, lines: seq<string>)
    requires IsText(l) && AllText(lines)
    ensures AllText([l] + lines)
  {
  }

  /** Conversely, whatever is read as a complete reply is a printed reply, followed by what is left. */
  lemma {:induction false} CompleteIsPrinted(buffer: string, known: Option<nat>, before: seq<string>, p: Progress)
    returns (lines: seq<string>, bare: seq<bool>)
    requires p == Parse(buffer, known, before) && p.Complete?
    ensures p.code < 1000 && known.GetOr(p.code) == p.code && p.lines == before + lines && lines != []
    ensures |bare| == |lines| && AllText(lines)
    ensures buffer == Printed(p.code, lines, bare) + p.rest
    decreases |buffer|
  {
    var line, b, rest := OneLineRead(buffer, known, before);
    var tail, ends := [], [];
    if line[3] == ' ' {
      assert Printed(p.code, [], []) + rest == rest;
    } else {
      tail, ends := CompleteIsPrinted(rest, Some(Code(line)), before + [line[4..]], p);
      Gather(before, line[4..], tail);
    }
    PrintedCons(p.code, line[4..], tail, b, ends, p.rest);
    TextCons(line[4..], tail);
    lines, bare := [line[4..]] + tail, [b] + ends;
  }
}
