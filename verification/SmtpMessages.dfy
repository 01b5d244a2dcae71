/**
 What is sent after DATA: line ends normalised, leading dots doubled (section 4.5.2 of RFC 5321), and
 headers that cannot break out of their line. A receiver gets back exactly the message that was built.
 */
module SmtpMessages {
  import opened Outcomes

  const CRLF: string := "\r\n"

  /** `\r?\n` becomes `\r\n`; a lone `\r` stays. */
  function Normalise(s: string): string {
    if s == "" then ""
    else if |s| >= 2 && s[0] == '\r' && s[1] == '\n' then CRLF + Normalise(s[2..])
    else if s[0] == '\n' then CRLF + Normalise(s[1..])
    else [s[0]] + Normalise(s[1..])
  }

  /** A dot at the start of the text, or after a `\r\n`, is doubled. */
  function Stuff(s: string, atStart: bool): string {
    if s == "" then ""
    else if atStart && s[0] == '.' then ".." + Stuff(s[1..], false)
    else if |s| >= 2 && s[0] == '\r' && s[1] == '\n' then CRLF + Stuff(s[2..], true)
    else [s[0]] + Stuff(s[1..], false)
  }

  function DotStuff(s: string): string {
    Stuff(Normalise(s), true)
  }

  /** Every newline has its carriage return. */
  predicate OnlyCrlf(s: string) {
    forall i | 0 <= i < |s| && s[i] == '\n' :: i > 0 && s[i - 1] == '\r'
  }

  lemma OnlyCrlfTail(s: string, k: nat)
    requires k <= |s| && OnlyCrlf(s) && (k < |s| ==> s[k] != '\n')
    ensures OnlyCrlf(s[k..])
  {
  }

  lemma OnlyCrlfFront(head: string, tail: string)
    requires OnlyCrlf(head) && OnlyCrlf(tail)
    ensures OnlyCrlf(head + tail)
  {
    var s := head + tail;
    forall i | 0 <= i < |s| && s[i] == '\n' ensures i > 0 && s[i - 1] == '\r' {
      if i >= |head| { assert tail[i - |head|] == '\n'; }
    }
  }

  /** Normalising leaves only CRLF line ends, and changes nothing exactly when there are no others. */
  lemma {:induction false} NormaliseMeaning(s: string)
    ensures OnlyCrlf(Normalise(s))
    ensures Normalise(s) == s <==> OnlyCrlf(s)
    ensures |s| <= |Normalise(s)|
  {
    if s == "" {
    } else if |s| >= 2 && s[0] == '\r' && s[1] == '\n' {
      NormaliseMeaning(s[2..]);
      OnlyCrlfFront(CRLF, Normalise(s[2..]));
      assert s == CRLF + s[2..];
      SameTail(s, CRLF, s[2..], Normalise(s[2..]));
    } else if s[0] == '\n' {
      NormaliseMeaning(s[1..]);
      OnlyCrlfFront(CRLF, Normalise(s[1..]));
    } else {
      NormaliseMeaning(s[1..]);
      OnlyCrlfFront([s[0]], Normalise(s[1..]));
      assert s == [s[0]] + s[1..];
      SameTail(s, [s[0]], s[1..], Normalise(s[1..]));
    }
  }

  lemma SameTail(s: string, head: string, tail: string, normal: string)
    requires s == head + tail && OnlyCrlf(head) && head != "" && (tail != "" && tail[0] == '\n' ==> head[|head| - 1] != '\r')
    requires normal == tail <==> OnlyCrlf(tail)
    ensures head + normal == s <==> OnlyCrlf(s)
  {
    if OnlyCrlf(s) {
      assert s[|head|..] == tail;
      if tail != "" { assert s[|head|] == tail[0] && s[|head| - 1] == head[|head| - 1]; }
      OnlyCrlfTail(s, |head|);
    }
    if head + normal == s {
      assert (head + normal)[|head|..] == normal && s[|head|..] == tail;
      OnlyCrlfFront(head, tail);
    }
  }

  // ----- the receiver

  /** What the receiver has when the transparency dots are gone, and what follows the end of the data. */
  datatype Received = Received(mail: string, rest: string)

  function Prepend(head: string, r: Option<Received>): Option<Received> {
    if r.None? then None else Some(Received(head + r.value.mail, r.value.rest))
  }

  predicate LoneDot(s: string) {
    |s| >= 3 && s[0] == '.' && s[1] == '\r' && s[2] == '\n'
  }

  /** A line with only a dot ends the data; any other leading dot is dropped. */
  function Receive(s: string, atStart: bool): Option<Received> {
    if s == "" then None
    else if atStart && LoneDot(s) then Some(Received("", s[3..]))
    else if atStart && s[0] == '.' then Receive(s[1..], false)
    else if |s| >= 2 && s[0] == '\r' && s[1] == '\n' then Prepend(CRLF, Receive(s[2..], true))
    else Prepend([s[0]], Receive(s[1..], false))
  }

  lemma PrependPrepend(a: string, b: string, r: Option<Received>)
    ensures Prepend(a, Prepend(b, r)) == Prepend(a + b, r)
    ensures Prepend("", r) == r
  {
    if r.Some? {
      assert a + (b + r.value.mail) == a + b + r.value.mail;
      assert "" + r.value.mail == r.value.mail;
    }
  }

  /** Where a line end comes next, it does not matter whether a line has just begun. */
  lemma AtLineEnd(s: string, atStart: bool)
    requires |s| >= 2 && s[..2] == CRLF
    ensures Receive(s, atStart) == Receive(s, false)
  {
    assert s[0] == s[..2][0] && s[1] == s[..2][1];
  }

  /** Stuffed text arrives as it was, up to the line end that follows it. */
  lemma {:induction false} StuffedArrives(t: string, atStart: bool, s: string)
    requires |s| >= 2 && s[..2] == CRLF
    ensures Receive(Stuff(t, atStart) + s, atStart) == Prepend(t, Receive(s, false))
    decreases |t|
  {
    assert s[0] == s[..2][0] && s[1] == s[..2][1];
    if t == "" {
      assert Stuff(t, atStart) + s == s;
      AtLineEnd(s, atStart);
      PrependPrepend("", "", Receive(s, false));
    } else if atStart && t[0] == '.' {
      DottedArrives(t, s);
    } else if |t| >= 2 && t[0] == '\r' && t[1] == '\n' {
      StuffedArrives(t[2..], true, s);
      var sent := Stuff(t[2..], true) + s;
      assert Stuff(t, atStart) + s == CRLF + sent;
      assert (CRLF + sent)[2..] == sent;
      PrependPrepend(CRLF, t[2..], Receive(s, false));
      assert CRLF + t[2..] == t;
    } else {
      PlainArrives(t, atStart, s);
    }
  }

  /** Of two dots that begin a line the first is dropped. */
  lemma TwoDotsArrive(sent: string)
    ensures Receive(".." + sent, true) == Prepend(".", Receive(sent, false))
  {
    var dotted, one := ".." + sent, "." + sent;
    assert dotted[1..] == one && one[1..] == sent;
    assert !LoneDot(dotted);
  }

  lemma DottedArrives(t: string, s: string)
    requires |s| >= 2 && s[..2] == CRLF && t != "" && t[0] == '.'
    ensures Receive(Stuff(t, true) + s, true) == Prepend(t, Receive(s, false))
    decreases |t|, 0
  {
    var tail := t[1..];
    StuffedArrives(tail, false, s);
    var sent := Stuff(tail, false) + s;
    assert Stuff(t, true) == ".." + Stuff(tail, false);
    assert Stuff(t, true) + s == ".." + sent;
    TwoDotsArrive(sent);
    PrependPrepend(".", tail, Receive(s, false));
    assert "." + tail == t;
  }

  lemma PlainArrives(t: string, atStart: bool, s: string)
    requires |s| >= 2 && s[..2] == CRLF && t != "" && !(atStart && t[0] == '.') && !(|t| >= 2 && t[0] == '\r' && t[1] == '\n')
    ensures Receive(Stuff(t, atStart) + s, atStart) == Prepend(t, Receive(s, false))
    decreases |t|, 0
  {
    var c, tail := t[0], t[1..];
    StuffedArrives(tail, false, s);
    NoLineEndFollows(c, tail, s);
    OneArrives(c, Stuff(tail, false) + s, atStart, tail, Receive(s, false));
    StuffPlain(t, atStart);
    Associative([c], Stuff(tail, false), s);
    assert [c] + tail == t;
  }

  lemma StuffPlain(t: string, atStart: bool)
    requires t != "" && !(atStart && t[0] == '.') && !(|t| >= 2 && t[0] == '\r' && t[1] == '\n')
    ensures Stuff(t, atStart) == [t[0]] + Stuff(t[1..], false)
  {
  }

  lemma Associative(a: string, b: string, c: string)
    ensures a + b + c == a + (b + c)
  {
  }

  lemma OneArrives(c: char, sent: string, atStart: bool, tail: string, rest: Option<Received>)
    requires !(atStart && c == '.') && sent != "" && !(c == '\r' && sent[0] == '\n') && Receive(sent, false) == Prepend(tail, rest)
    ensures Receive([c] + sent, atStart) == Prepend([c] + tail, rest)
  {
    assert ([c] + sent)[1..] == sent;
    PrependPrepend([c], tail, rest);
  }

  lemma NoLineEndFollows(c: char, t: string, s: string)
    requires |s| >= 2 && s[..2] == CRLF && !(c == '\r' && t != "" && t[0] == '\n')
    ensures !(c == '\r' && (Stuff(t, false) + s)[0] == '\n')
  {
    assert s[0] == s[..2][0];
    if t == "" {
      assert Stuff(t, false) + s == s;
    }
  }

  // ----- lines that need no stuffing

  predicate NoBreak(s: string) {
    forall i | 0 <= i < |s| :: s[i] != '\r' && s[i] != '\n'
  }

  predicate SafeLine(s: string) {
    NoBreak(s) && (s == "" || s[0] != '.')
  }

  lemma {:induction false} NoBreakArrives(l: string, s: string)
    requires NoBreak(l) && |s| >= 2 && s[..2] == CRLF
    ensures Receive(l + s, false) == Prepend(l, Receive(s, false))
  {
    if l == "" {
      assert l + s == s;
      PrependPrepend("", "", Receive(s, false));
    } else {
      NoBreakArrives(l[1..], s);
      assert (l + s)[1..] == l[1..] + s;
      PrependPrepend([l[0]], l[1..], Receive(s, false));
      assert [l[0]] + l[1..] == l;
    }
  }

  lemma SafeLineArrives(l: string, s: string, atStart: bool)
    requires SafeLine(l) && |s| >= 2 && s[..2] == CRLF
    ensures Receive(l + s, atStart) == Prepend(l, Receive(s, false))
  {
    NoBreakArrives(l, s);
    if l == "" {
      assert l + s == s;
      AtLineEnd(s, atStart);
    } else {
      assert (l + s)[0] == l[0];
    }
  }

  lemma LineEndArrives(s: string)
    ensures Receive(CRLF + s, false) == Prepend(CRLF, Receive(s, true))
  {
    assert (CRLF + s)[2..] == s;
  }

  function LinesBefore(lines: seq<string>): string {
    if lines == [] then "" else lines[0] + CRLF + LinesBefore(lines[1..])
  }

  function LinesAfter(lines: seq<string>): string {
    if lines == [] then "" else CRLF + lines[0] + LinesAfter(lines[1..])
  }

  lemma LineArrives(l: string, t: string)
    requires SafeLine(l)
    ensures Receive(l + CRLF + t, true) == Prepend(l + CRLF, Receive(t, true))
  {
    assert l + CRLF + t == l + (CRLF + t) && (CRLF + t)[..2] == CRLF;
    SafeLineArrives(l, CRLF + t, true);
    LineEndArrives(t);
    PrependPrepend(l, CRLF, Receive(t, true));
  }

  lemma {:induction false} HeadArrives(lines: seq<string>, s: string)
    requires forall l | l in lines :: SafeLine(l)
    ensures Receive(LinesBefore(lines) + s, true) == Prepend(LinesBefore(lines), Receive(s, true))
  {
    if lines == [] {
      assert LinesBefore(lines) + s == s;
      PrependPrepend("", "", Receive(s, true));
    } else {
      var l, more := lines[0], LinesBefore(lines[1..]);
      assert l in lines;
      HeadArrives(lines[1..], s);
      assert LinesBefore(lines) + s == l + CRLF + (more + s);
      LineArrives(l, more + s);
      PrependPrepend(l + CRLF, more, Receive(s, true));
    }
  }

  lemma AfterLineEnd(line: string, l: string, rest: Option<Received>)
    requires Receive(line, true) == Prepend(l, rest)
    ensures Receive(CRLF + line, false) == Prepend(CRLF + l, rest)
  {
    LineEndArrives(line);
    PrependPrepend(CRLF, l, rest);
  }

  lemma NextLineArrives(l: string, t: string)
    requires SafeLine(l) && |t| >= 2 && t[..2] == CRLF
    ensures Receive(CRLF + l + t, false) == Prepend(CRLF + l, Receive(t, false))
  {
    SafeLineArrives(l, t, true);
    AfterLineEnd(l + t, l, Receive(t, false));
    Associative(CRLF, l, t);
  }

  lemma {:induction false} TailArrives(lines: seq<string>, s: string)
    requires (forall l | l in lines :: SafeLine(l)) && |s| >= 2 && s[..2] == CRLF
    ensures |LinesAfter(lines) + s| >= 2 && (LinesAfter(lines) + s)[..2] == CRLF
    ensures Receive(LinesAfter(lines) + s, false) == Prepend(LinesAfter(lines), Receive(s, false))
  {
    if lines == [] {
      assert LinesAfter(lines) + s == s;
      PrependPrepend("", "", Receive(s, false));
    } else {
      var l, more := lines[0], LinesAfter(lines[1..]);
      assert l in lines;
      TailArrives(lines[1..], s);
      assert LinesAfter(lines) + s == CRLF + l + (more + s);
      NextLineArrives(l, more + s);
      PrependPrepend(CRLF + l, more, Receive(s, false));
    }
  }

  /** Safe lines, a text, and further safe lines, joined by line ends. */
  function Assemble(before: seq<string>, text: string, after: seq<string>): string {
    LinesBefore(before) + text + LinesAfter(after)
  }

  const END_OF_DATA: string := "\r\n.\r\n"

  lemma EndArrives(rest: string)
    ensures Receive(END_OF_DATA + rest, false) == Some(Received(CRLF, rest))
  {
    var end := ".\r\n" + rest;
    assert END_OF_DATA + rest == CRLF + end;
    LineEndArrives(end);
    assert LoneDot(end) && end[3..] == rest;
    assert CRLF + "" == CRLF;
  }

  lemma BodyArrives(t: string, after: seq<string>, end: string)
    requires (forall l | l in after :: SafeLine(l)) && |end| >= 2 && end[..2] == CRLF
    ensures Receive(Stuff(t, true) + (LinesAfter(after) + end), true) == Prepend(t + LinesAfter(after), Receive(end, false))
  {
    TailArrives(after, end);
    StuffedArrives(t, true, LinesAfter(after) + end);
    PrependPrepend(t, LinesAfter(after), Receive(end, false));
  }

  /** Head, body with its tail, and end of the data, received one after the other. */
  lemma ReceivedInTurn(head: string, middle: string, rest: string, sent: string, end: string)
    requires Receive(head + sent, true) == Prepend(head, Receive(sent, true))
    requires Receive(sent, true) == Prepend(middle, Receive(end, false))
    requires Receive(end, false) == Some(Received(CRLF, rest))
    ensures Receive(head + sent, true) == Some(Received(head + middle + CRLF, rest))
  {
    PrependPrepend(head, middle, Receive(end, false));
  }

  /** Whatever the text, the receiver gets it back whole, and whatever follows the terminator is left alone. */
  lemma AssembledArrives(before: seq<string>, text: string, after: seq<string>, rest: string)
    requires (forall l | l in before :: SafeLine(l)) && forall l | l in after :: SafeLine(l)
    ensures Receive(Assemble(before, DotStuff(text), after) + END_OF_DATA + rest, true)
         == Some(Received(Assemble(before, Normalise(text), after) + CRLF, rest))
  {
    var head, body, tail, t := LinesBefore(before), DotStuff(text), LinesAfter(after), Normalise(text);
    var end := END_OF_DATA + rest;
    var sent := body + (tail + end);
    assert end[..2] == CRLF;
    EndArrives(rest);
    BodyArrives(t, after, end);
    HeadArrives(before, sent);
    ReceivedInTurn(head, t + tail, rest, sent, end);
    Regroup(head, body, tail, rest);
    assert head + (t + tail) == Assemble(before, t, after);
  }

  lemma Regroup(head: string, body: string, tail: string, rest: string)
    ensures head + body + tail + END_OF_DATA + rest == head + (body + (tail + (END_OF_DATA + rest)))
  {
  }

  // ----- the first terminator

  predicate EndsAt(s: string, i: nat) {
    i + 5 <= |s| && s[i] == '\r' && s[i + 1] == '\n' && s[i + 2] == '.' && s[i + 3] == '\r' && s[i + 4] == '\n'
  }

  /** The receiver stops at the first CRLF.CRLF there is. */
  lemma {:induction false} StopsAtFirst(s: string, atStart: bool, i: nat)
    requires Receive(s, atStart).Some? && EndsAt(s, i)
    ensures |Receive(s, atStart).value.rest| >= |s| - i - 5
    decreases |s|
  {
    if atStart && LoneDot(s) {
    } else if atStart && s[0] == '.' {
      StopsAtFirst(s[1..], false, i - 1);
    } else if |s| >= 2 && s[0] == '\r' && s[1] == '\n' {
      if i == 0 {
        assert LoneDot(s[2..]);
      } else {
        assert i != 1;
        StopsAtFirst(s[2..], true, i - 2);
      }
    } else {
      StopsAtFirst(s[1..], false, i - 1);
    }
  }

  /** In the transmitted data the first CRLF.CRLF is the terminator that the sender appended. */
  lemma FirstTerminatorIsTheEnd(before: seq<string>, text: string, after: seq<string>, i: nat)
    requires (forall l | l in before :: SafeLine(l)) && forall l | l in after :: SafeLine(l)
    requires EndsAt(Assemble(before, DotStuff(text), after) + END_OF_DATA, i)
    ensures i >= |Assemble(before, DotStuff(text), after)|
  {
    var content := Assemble(before, DotStuff(text), after);
    AssembledArrives(before, text, after, "");
    assert content + END_OF_DATA + "" == content + END_OF_DATA;
    StopsAtFirst(content + END_OF_DATA, true, i);
  }

  // ----- building a message

  datatype MailError = NoRecipient | InvalidRecipient | LineBreakInHeader

  predicate IsSpace(c: char) {
    || c in "\t\n\U{0B}\U{0C}\r \U{A0}\U{1680}\U{2028}\U{2029}\U{202F}\U{205F}\U{3000}\U{FEFF}"
    || '\U{2000}' <= c <= '\U{200A}'
  }

  function IndexOf(c: char, s: string): (i: nat)
    ensures i <= |s| && (i < |s| ==> s[i] == c) && forall j | 0 <= j < i :: s[j] != c
  {
    if s == "" || s[0] == c then 0 else 1 + IndexOf(c, s[1..])
  }

  /** One at-sign with something before it, and a dot inside what follows; no white space. */
  predicate IsEnvelopeAddress(s: string) {
    && (forall c | c in s :: !IsSpace(c))
    && var at := IndexOf('@', s);
    && 0 < at < |s| && '@' !in s[at + 1..]
    && var domain := s[at + 1..];
    && |domain| >= 2 && domain[|domain| - 1] != '.' && '.' in domain[1..]
  }

  /** The last dot of the domain lies strictly inside it. */
  lemma DotInsideDomain(domain: string)
    ensures |domain| >= 2 && domain[|domain| - 1] != '.' && '.' in domain[1..]
       <==> exists dot :: 0 < dot < |domain| - 1 && domain[dot] == '.' && forall j | dot < j < |domain| :: domain[j] != '.'
  {
    if |domain| >= 2 && domain[|domain| - 1] != '.' && '.' in domain[1..] {
      var k :| 0 <= k < |domain| - 1 && domain[1..][k] == '.';
      var dot := LastDot(domain, k + 1);
    }
    if dot :| 0 < dot < |domain| - 1 && domain[dot] == '.' && forall j | dot < j < |domain| :: domain[j] != '.' {
      assert domain[1..][dot - 1] == '.';
    }
  }

  lemma LastDot(s: string, from: nat) returns (dot: nat)
    requires from < |s| && s[from] == '.' && s[|s| - 1] != '.'
    ensures from <= dot < |s| - 1 && s[dot] == '.' && forall j | dot < j < |s| :: s[j] != '.'
    decreases |s| - from
  {
    if j :| from < j < |s| && s[j] == '.' { dot := LastDot(s, j); } else { dot := from; }
  }

  lemma AddressHasNoBreak(s: string)
    requires IsEnvelopeAddress(s)
    ensures NoBreak(s)
  {
    assert IsSpace('\r') && IsSpace('\n');
  }

  function JoinWith(separator: string, parts: seq<string>): string {
    if parts == [] then ""
    else if |parts| == 1 then parts[0]
    else JoinWith(separator, parts[..|parts| - 1]) + separator + parts[|parts| - 1]
  }

  /** `subject64` and `html64` are the base64 forms of the subject and of the HTML part. */
  datatype Mail = Mail(to: seq<string>, subject: string, subject64: string, text: string, html64: string)

  predicate Printable(s: string) {
    forall c | c in s :: ' ' <= c <= '~'
  }

  function EncodedSubject(m: Mail): string {
    if Printable(m.subject) then m.subject else "=?UTF-8?B?" + m.subject64 + "?="
  }

  const CONTENT_TYPE: string := "Content-Type: "

  const CONTENT_TRANSFER: string := "Content-Transfer-"

  /** Lines of at most 76 characters. */
  function Folded(s: string): seq<string> {
    if |s| <= 76 then (if s == "" then [] else [s]) else [s[..76]] + Folded(s[76..])
  }

  function Headers(m: Mail, from: string, support: Option<string>, date: string, messageId: string): seq<string> {
    ["From: BetterTrade <" + from + ">", "To: " + JoinWith(", ", m.to)]
    + (if support.Some? then ["Reply-To: " + support.value] else [])
    + ["Subject: " + EncodedSubject(m), "Date: " + date, "Message-ID: <" + messageId + ">",
       "MIME-Version: " + "1.0", "Auto-Submitted: " + "auto-generated"]
  }

  function TextHead(m: Mail, boundary: string): seq<string> {
    (if m.html64 == "" then []
     else [CONTENT_TYPE + "multipart/alternative;" + " boundary=\"" + boundary + "\"", "", "--" + boundary])
    + [CONTENT_TYPE + "text/plain" + "; charset=UTF-8", CONTENT_TRANSFER + "Encoding: 8bit", ""]
  }

  function HtmlTail(m: Mail, boundary: string): seq<string> {
    if m.html64 == "" then []
    else ["--" + boundary, CONTENT_TYPE + "text/html" + "; charset=UTF-8", CONTENT_TRANSFER + "Encoding: base64", ""] + Folded(m.html64) + ["--" + boundary + "--"]
  }

  /** The message as sent; without an HTML part it is a single text part. */
  function BuildMessage(m: Mail, from: string, support: Option<string>, date: string, messageId: string, boundary: string): Result<string, MailError> {
    if m.to == [] then Err(NoRecipient)
    else if exists a :: a in m.to && !IsEnvelopeAddress(a) then Err(InvalidRecipient)
    else if !NoBreak(from) || (support.Some? && !NoBreak(support.value)) || !NoBreak(m.subject) then Err(LineBreakInHeader)
    else Ok(Assemble(Headers(m, from, support, date, messageId) + TextHead(m, boundary), DotStuff(m.text), HtmlTail(m, boundary)))
  }

  // ----- every line around the text is safe

  predicate IsBase64(s: string) {
    forall i | 0 <= i < |s| :: 'A' <= s[i] <= 'Z' || 'a' <= s[i] <= 'z' || '0' <= s[i] <= '9' || s[i] == '+' || s[i] == '/' || s[i] == '='
  }

  lemma {:induction false} JoinedHasNoBreak(parts: seq<string>)
    requires forall p | p in parts :: NoBreak(p)
    ensures NoBreak(JoinWith(", ", parts))
  {
    if |parts| > 1 {
      JoinedHasNoBreak(parts[..|parts| - 1]);
      assert parts[|parts| - 1] in parts && NoBreak(", ");
    } else if |parts| == 1 {
      assert parts[0] in parts;
    }
  }

  lemma Base64IsSafe(s: string)
    requires IsBase64(s)
    ensures SafeLine(s)
  {
  }

  lemma {:induction false} FoldedIsSafe(s: string)
    requires IsBase64(s)
    ensures forall l | l in Folded(s) :: SafeLine(l)
  {
    if |s| > 76 {
      Base64IsSafe(s[..76]);
      FoldedIsSafe(s[76..]);
    } else {
      Base64IsSafe(s);
    }
  }

  lemma Unbroken(s: string)
    requires '\r' !in s && '\n' !in s
    ensures NoBreak(s)
  {
  }

  /** A header line: its name, an opening, a value and a closing. */
  lemma LineIsSafe(opening: string, value: string, closing: string)
    requires opening != "" && opening[0] != '.' && NoBreak(opening) && NoBreak(value) && NoBreak(closing)
    ensures SafeLine(opening + value + closing) && SafeLine(opening + value)
  {
  }

  lemma SubjectHasNoBreak(m: Mail)
    requires NoBreak(m.subject) && IsBase64(m.subject64)
    ensures NoBreak(EncodedSubject(m))
  {
    Base64IsSafe(m.subject64);
    Unbroken("=?UTF-8?B?");
    Unbroken("?=");
    LineIsSafe("=?UTF-8?B?", m.subject64, "?=");
  }

  lemma VersionHeader()
    ensures SafeLine("MIME-Version: " + "1.0")
  {
    Unbroken("MIME-Version: ");
    Unbroken("1.0");
    LineIsSafe("MIME-Version: ", "1.0", "");
  }

  lemma SubmissionHeader()
    ensures SafeLine("Auto-Submitted: " + "auto-generated")
  {
    Unbroken("Auto-Submitted: ");
    Unbroken("auto-generated");
    LineIsSafe("Auto-Submitted: ", "auto-generated", "");
  }

  lemma AddressHeaders(m: Mail, from: string, support: Option<string>)
    requires NoBreak(JoinWith(", ", m.to)) && NoBreak(from) && (support.Some? ==> NoBreak(support.value))
    ensures SafeLine("From: BetterTrade <" + from + ">") && SafeLine("To: " + JoinWith(", ", m.to))
    ensures support.Some? ==> SafeLine("Reply-To: " + support.value)
  {
    Unbroken("From: BetterTrade <");
    Unbroken(">");
    LineIsSafe("From: BetterTrade <", from, ">");
    Unbroken("To: ");
    LineIsSafe("To: ", JoinWith(", ", m.to), "");
    Unbroken("Reply-To: ");
    if support.Some? { LineIsSafe("Reply-To: ", support.value, ""); }
  }

  lemma OtherHeaders(m: Mail, date: string, messageId: string)
    requires NoBreak(EncodedSubject(m)) && NoBreak(date) && NoBreak(messageId)
    ensures SafeLine("Subject: " + EncodedSubject(m)) && SafeLine("Date: " + date) && SafeLine("Message-ID: <" + messageId + ">")
  {
    Unbroken("Subject: ");
    LineIsSafe("Subject: ", EncodedSubject(m), "");
    Unbroken("Date: ");
    LineIsSafe("Date: ", date, "");
    Unbroken("Message-ID: <");
    Unbroken(">");
    LineIsSafe("Message-ID: <", messageId, ">");
  }

  lemma HeadersAreSafe(m: Mail, from: string, support: Option<string>, date: string, messageId: string)
    requires (forall a | a in m.to :: IsEnvelopeAddress(a)) && NoBreak(from) && (support.Some? ==> NoBreak(support.value)) && NoBreak(m.subject)
    requires IsBase64(m.subject64) && NoBreak(date) && NoBreak(messageId)
    ensures forall l | l in Headers(m, from, support, date, messageId) :: SafeLine(l)
  {
    forall a | a in m.to ensures NoBreak(a) { AddressHasNoBreak(a); }
    JoinedHasNoBreak(m.to);
    SubjectHasNoBreak(m);
    AddressHeaders(m, from, support);
    OtherHeaders(m, date, messageId);
    VersionHeader();
    SubmissionHeader();
  }

  lemma BoundaryLinesAreSafe(boundary: string)
    requires NoBreak(boundary)
    ensures SafeLine("--" + boundary) && SafeLine("--" + boundary + "--")
  {
    Unbroken("--");
    LineIsSafe("--", boundary, "--");
  }

  const MULTIPART: string := CONTENT_TYPE + "multipart/alternative;" + " boundary=\""

  lemma MultipartOpening()
    ensures MULTIPART != "" && MULTIPART[0] != '.' && NoBreak(MULTIPART)
  {
    Unbroken(MULTIPART);
  }

  lemma MultipartLineIsSafe(boundary: string)
    requires NoBreak(boundary)
    ensures SafeLine(CONTENT_TYPE + "multipart/alternative;" + " boundary=\"" + boundary + "\"")
  {
    MultipartOpening();
    Unbroken("\"");
    LineIsSafe(MULTIPART, boundary, "\"");
  }

  lemma EncodingLinesAreSafe()
    ensures SafeLine("") && SafeLine(CONTENT_TRANSFER + "Encoding: 8bit") && SafeLine(CONTENT_TRANSFER + "Encoding: base64")
  {
    Unbroken(CONTENT_TRANSFER);
    Unbroken("Encoding: 8bit");
    Unbroken("Encoding: base64");
    LineIsSafe(CONTENT_TRANSFER, "Encoding: 8bit", "");
    LineIsSafe(CONTENT_TRANSFER, "Encoding: base64", "");
  }

  lemma TypeLinesAreSafe()
    ensures SafeLine(CONTENT_TYPE + "text/plain" + "; charset=UTF-8") && SafeLine(CONTENT_TYPE + "text/html" + "; charset=UTF-8")
  {
    Unbroken(CONTENT_TYPE);
    Unbroken("text/plain");
    Unbroken("text/html");
    Unbroken("; charset=UTF-8");
    LineIsSafe(CONTENT_TYPE, "text/plain", "; charset=UTF-8");
    LineIsSafe(CONTENT_TYPE, "text/html", "; charset=UTF-8");
  }

  lemma TextHeadIsSafe(m: Mail, boundary: string)
    requires NoBreak(boundary)
    ensures forall l | l in TextHead(m, boundary) :: SafeLine(l)
  {
    BoundaryLinesAreSafe(boundary);
    MultipartLineIsSafe(boundary);
    EncodingLinesAreSafe();
    TypeLinesAreSafe();
  }

  lemma HtmlTailIsSafe(m: Mail, boundary: string)
    requires IsBase64(m.html64) && NoBreak(boundary)
    ensures forall l | l in HtmlTail(m, boundary) :: SafeLine(l)
  {
    BoundaryLinesAreSafe(boundary);
    EncodingLinesAreSafe();
    TypeLinesAreSafe();
    FoldedIsSafe(m.html64);
  }

  /** Whatever message is built, its receiver takes the whole of it, unstuffed, and stops where the sender ended it. */
  lemma BuiltMessageArrives(m: Mail, from: string, support: Option<string>, date: string, messageId: string, boundary: string, rest: string)
    requires IsBase64(m.subject64) && IsBase64(m.html64) && NoBreak(date) && NoBreak(messageId) && NoBreak(boundary)
    requires BuildMessage(m, from, support, date, messageId, boundary).Ok?
    ensures var content := BuildMessage(m, from, support, date, messageId, boundary).value;
            && Receive(content + END_OF_DATA + rest, true)
               == Some(Received(Assemble(Headers(m, from, support, date, messageId) + TextHead(m, boundary), Normalise(m.text), HtmlTail(m, boundary)) + CRLF, rest))
            && forall i | 0 <= i < |content| :: !EndsAt(content + END_OF_DATA, i)
  {
    var before, after := Headers(m, from, support, date, messageId) + TextHead(m, boundary), HtmlTail(m, boundary);
    HeadersAreSafe(m, from, support, date, messageId);
    TextHeadIsSafe(m, boundary);
    HtmlTailIsSafe(m, boundary);
    AssembledArrives(before, m.text, after, rest);
    var content := Assemble(before, DotStuff(m.text), after);
    forall i | 0 <= i < |content| ensures !EndsAt(content + END_OF_DATA, i) {
      if EndsAt(content + END_OF_DATA, i) { FirstTerminatorIsTheEnd(before, m.text, after, i); }
    }
  }

  /** The identifier the sender makes from its own address cannot break the header either. */
  function MessageId(uuid: string, from: string): string {
    var at := IndexOf('@', from);
    if at == |from| then uuid + "@undefined"
    else
      var more := from[at + 1..];
      uuid + "@" + more[..IndexOf('@', more)]
  }

  lemma MessageIdHasNoBreak(uuid: string, from: string)
    requires NoBreak(uuid) && NoBreak(from)
    ensures NoBreak(MessageId(uuid, from))
  {
  }
}
