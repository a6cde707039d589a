/** The line protocol between the window and its privileged helper: the helper's printer, the
    window's framing reader and its parser, and that they undo each other. */
module Protocol {
  import opened Text
  import opened TokenBucket
  import opened Kernel
  import opened Discovery

  // ---- lines ----------------------------------------------------------------------------

  const PARAGRAPH := '\U{2029}'

  /** Where a GIOChannel with its default line terminator ends a line; "\r\n" counts once. */
  predicate Ends(c: char) { c == '\n' || c == '\r' || c == '\0' || c == PARAGRAPH }

  ghost predicate OneLine(s: string) { forall i :: 0 <= i < |s| ==> !Ends(s[i]) }

  /** The length of the first line with its terminator; 0 when no line is complete. */
  function LineLength(s: string): (n: nat)
    ensures n <= |s|
  {
    if s == [] then 0
    else if |s| > 1 && s[0] == '\r' && s[1] == '\n' then 2
    else if Ends(s[0]) then 1
    else
      var k := LineLength(s[1..]);
      if k == 0 then 0 else k + 1
  }

  /** The first line ends at its first terminator, and there is none without one. */
  lemma {:induction false} LineLengthMeans(s: string)
    ensures LineLength(s) == 0 ==> OneLine(s)
    ensures LineLength(s) > 0 ==> Ends(s[LineLength(s) - 1])
    ensures forall i :: 0 <= i < LineLength(s) - 1 && Ends(s[i]) ==> i == LineLength(s) - 2 && s[i] == '\r' && s[i + 1] == '\n'
  {
    if s != [] && !Ends(s[0]) {
      LineLengthMeans(s[1..]);
      assert forall i :: 1 <= i < |s| ==> s[i] == s[1..][i - 1];
    }
  }

  lemma {:induction false} LineLengthOf(line: string, rest: string)
    requires OneLine(line)
    ensures LineLength(line + "\n" + rest) == |line| + 1
  {
    var s := line + "\n" + rest;
    if line != [] {
      assert s[0] == line[0] && s[1..] == line[1..] + "\n" + rest;
      LineLengthOf(line[1..], rest);
    }
  }

  /** The first line a read delivers: a complete one, or at the end of a closed pipe what is left. */
  function FirstLine(s: string, closed: bool): (n: nat)
    ensures n <= |s|
  {
    if LineLength(s) > 0 then LineLength(s) else if closed then |s| else 0
  }

  /** Reading lines from a pipe either ends or, while the writer keeps it open, waits for more. */
  datatype Taken = Short | Taken(text: string, left: string)

  function Put(line: string, t: Taken): Taken {
    match t
    case Short => Short
    case Taken(text, left) => Taken(line + text, left)
  }

  /** `k` lines of `s`, fewer only where the pipe is closed. */
  function TakeLines(s: string, k: nat, closed: bool): Taken
    decreases k
  {
    var n := FirstLine(s, closed);
    if k == 0 || (n == 0 && closed) then Taken("", s)
    else if n == 0 then Short
    else Put(s[..n], TakeLines(s[n..], k - 1, closed))
  }

  lemma TakeLine(line: string, rest: string, k: nat, closed: bool)
    requires OneLine(line) && k > 0
    ensures TakeLines(line + "\n" + rest, k, closed) == Put(line + "\n", TakeLines(rest, k - 1, closed))
  {
    LineLengthOf(line, rest);
    var s := line + "\n" + rest;
    assert s[|line| + 1..] == rest && s[..|line| + 1] == line + "\n";
  }

  /** How many complete lines there are. */
  function LineCount(s: string): nat
    decreases |s|
  {
    var n := LineLength(s);
    if n == 0 then 0 else 1 + LineCount(s[n..])
  }

  lemma {:induction false} WaitsIff(s: string, k: nat)
    ensures TakeLines(s, k, false).Short? <==> LineCount(s) < k
    decreases k
  {
    if k > 0 && LineLength(s) > 0 {
      WaitsIff(s[LineLength(s)..], k - 1);
    }
  }

  // ---- the helper's reply to a list command ---------------------------------------------

  /** A process and its limits, as the helper lists them. */
  datatype Listed = Listed(proc: ProcessInfo, upload: Word32, download: Word32)

  function Flag(b: bool): nat { if b then 1 else 0 }

  function Fields(l: Listed): seq<nat>
    requires Listable(l)
  {
    [l.proc.pid, l.proc.connections, Flag(l.proc.tcp), Flag(l.proc.udp), l.upload, l.download]
  }

  function Header(l: Listed): string
    requires Listable(l)
  {
    Spaced(Fields(l)) + (" " + l.proc.name)
  }

  predicate Listable(l: Listed) { l.proc.pid > 0 && l.proc.connections >= 0 }

  predicate AllListable(ls: seq<Listed>) { forall i :: 0 <= i < |ls| ==> Listable(ls[i]) }

  /** Two lines a process. */
  function LinesOf(ls: seq<Listed>): (lines: seq<string>)
    requires AllListable(ls)
    ensures |lines| == 2 * |ls|
  {
    if ls == [] then [] else [Header(ls[0]), ls[0].proc.exePath] + LinesOf(ls[1..])
  }

  function Join(lines: seq<string>): string {
    if lines == [] then "" else lines[0] + "\n" + Join(lines[1..])
  }

  function ListReply(ls: seq<Listed>): string
    requires AllListable(ls)
  {
    Decimal(|ls|) + "\n" + Join(LinesOf(ls))
  }

  // ---- the window's framing reader ------------------------------------------------------

  /** `parse_protocol_int`: trailing text is ignored. */
  function ProtocolInt(s: string): int {
    match ScanInt(s)
    case NoMatch => -1
    case Number(v, _) => if 0 <= v <= INT_MAX then v else -1
  }

  /** Any number is read at its value, one beyond `int` as -1, and what follows it is ignored. */
  lemma ProtocolIntOf(n: nat, rest: string)
    requires !StartsWithDigit(rest)
    ensures ProtocolInt(Decimal(n) + rest) == if n <= INT_MAX then n else -1
  {
    ScanDecimal(n, rest);
  }

  /** What `backend_list` returns from the unread text and what it leaves unread, or that it is
      still waiting. */
  datatype ListRead = Waiting | Got(raw: Option<string>, left: string)

  function ReadList(unread: string, closed: bool): ListRead {
    var n := FirstLine(unread, closed);
    if n == 0 then (if closed then Got(None, unread) else Waiting)
    else
      var count := ProtocolInt(unread[..n]);
      if count <= 0 then Got(Some(unread[..n]), unread[n..])
      else WithRows(unread[..n], TakeLines(unread[n..], 2 * count, closed))
  }

  function WithRows(response: string, rows: Taken): ListRead {
    match rows
    case Short => Waiting
    case Taken(text, left) => Got(Some(response + text), left)
  }

  lemma PutTwice(a: string, b: string, t: Taken)
    ensures Put(a, Put(b, t)) == Put(a + b, t)
  {
    if t.Taken? {
      assert a + (b + t.text) == a + b + t.text;
    }
  }

  /** The row loop of `backend_list`. */
  method ReadRows(unread: string, k: nat, closed: bool) returns (t: Taken)
    ensures t == TakeLines(unread, k, closed)
  {
    var rows, left := "", unread;
    assert Put("", TakeLines(unread, k, closed)) == TakeLines(unread, k, closed);
    var i := 0;
    while i < k
      invariant 0 <= i <= k
      invariant Put(rows, TakeLines(left, k - i, closed)) == TakeLines(unread, k, closed)
    {
      var m := FirstLine(left, closed);
      if m == 0 {
        if !closed {
          return Short;
        }
        break;
      }
      PutTwice(rows, left[..m], TakeLines(left[m..], k - i - 1, closed));
      rows, left := rows + left[..m], left[m..];
      i := i + 1;
    }
    assert rows + "" == rows;
    return Taken(rows, left);
  }

  method BackendList(unread: string, closed: bool) returns (r: ListRead)
    ensures r == ReadList(unread, closed)
  {
    var n := FirstLine(unread, closed);
    if n == 0 {
      return if closed then Got(None, unread) else Waiting;
    }
    var response := unread[..n];
    var count := ProtocolInt(response);
    if count <= 0 {
      return Got(Some(response), unread[n..]);
    }
    var rows := ReadRows(unread[n..], 2 * count, closed);
    if rows.Short? {
      return Waiting;
    }
    return Got(Some(response + rows.text), rows.left);
  }

  // ---- framing --------------------------------------------------------------------------

  /** Names and paths as the sanitiser leaves them: printable. */
  ghost predicate Sanitised(p: ProcessInfo) {
    && |p.name| <= COMM_MAX && (forall i :: 0 <= i < |p.name| ==> Printable(p.name[i]))
    && (forall i :: 0 <= i < |p.exePath| ==> Printable(p.exePath[i]))
  }

  predicate NoParagraph(p: ProcessInfo) { PARAGRAPH !in p.name && PARAGRAPH !in p.exePath }

  lemma DigitsOneLine(n: nat)
    ensures OneLine(Decimal(n))
  {
    forall i | 0 <= i < |Decimal(n)| ensures !Ends(Decimal(n)[i]) {
      assert IsDigit(Decimal(n)[i]);
    }
  }

  lemma OneLineConcat(a: string, b: string)
    ensures OneLine(a + b) <==> OneLine(a) && OneLine(b)
  {
    if OneLine(a + b) {
      forall i | 0 <= i < |b| ensures !Ends(b[i]) {
        assert (a + b)[|a| + i] == b[i];
      }
      forall i | 0 <= i < |a| ensures !Ends(a[i]) {
        assert (a + b)[i] == a[i];
      }
    }
  }

  lemma PrintableOneLine(s: string)
    requires forall i :: 0 <= i < |s| ==> Printable(s[i])
    ensures OneLine(s) <==> PARAGRAPH !in s
  {}

  ghost predicate AllOneLine(lines: seq<string>) { forall i :: 0 <= i < |lines| ==> OneLine(lines[i]) }

  /** Text made of whole lines is read back line for line, and the reader stops where it ends. */
  lemma {:induction false} JoinFramed(lines: seq<string>, tail: string, closed: bool)
    requires AllOneLine(lines)
    ensures TakeLines(Join(lines) + tail, |lines|, closed) == Taken(Join(lines), tail)
  {
    if lines == [] {
      assert Join(lines) + tail == tail;
    } else {
      var more := Join(lines[1..]);
      assert Join(lines) + tail == lines[0] + "\n" + (more + tail);
      JoinFramed(lines[1..], tail, closed);
      TakeLine(lines[0], more + tail, |lines|, closed);
    }
  }

  ghost predicate AllSanitised(ls: seq<Listed>) { forall i :: 0 <= i < |ls| ==> Sanitised(ls[i].proc) }

  ghost predicate NoneParagraph(ls: seq<Listed>) { forall i :: 0 <= i < |ls| ==> NoParagraph(ls[i].proc) }

  lemma TwoOneLine(a: string, b: string, more: seq<string>)
    ensures AllOneLine([a, b] + more) <==> OneLine(a) && OneLine(b) && AllOneLine(more)
  {
    var all := [a, b] + more;
    assert all[0] == a && all[1] == b && forall i :: 0 <= i < |more| ==> all[i + 2] == more[i];
  }

  lemma HeaderEnds(l: Listed)
    requires Listable(l) && Sanitised(l.proc)
    ensures OneLine(Header(l)) <==> OneLine(l.proc.name)
    ensures '\r' !in Header(l)
  {
    var f := Spaced(Fields(l));
    OneLineConcat(f, " " + l.proc.name);
    OneLineConcat(" ", l.proc.name);
  }

  /** Sanitised processes print as whole lines exactly when no text has a paragraph separator. */
  lemma {:induction false} LinesWhole(ls: seq<Listed>)
    requires AllListable(ls) && AllSanitised(ls)
    ensures AllOneLine(LinesOf(ls)) <==> NoneParagraph(ls)
  {
    if ls != [] {
      LinesWhole(ls[1..]);
      HeaderEnds(ls[0]);
      PrintableOneLine(ls[0].proc.name);
      PrintableOneLine(ls[0].proc.exePath);
      TwoOneLine(Header(ls[0]), ls[0].proc.exePath, LinesOf(ls[1..]));
      assert NoneParagraph(ls) <==> NoParagraph(ls[0].proc) && NoneParagraph(ls[1..]) by {
        assert forall i :: 1 <= i < |ls| ==> ls[i] == ls[1..][i - 1];
      }
    }
  }

  lemma CountLine(n: nat, rest: string, closed: bool)
    requires n <= INT_MAX
    ensures LineLength(Decimal(n) + "\n" + rest) == |Decimal(n)| + 1
    ensures ProtocolInt(Decimal(n) + "\n") == n
    ensures ReadList(Decimal(n) + "\n" + rest, closed)
         == if n == 0 then Got(Some(Decimal(0) + "\n"), rest)
            else WithRows(Decimal(n) + "\n", TakeLines(rest, 2 * n, closed))
  {
    DigitsOneLine(n);
    LineLengthOf(Decimal(n), rest);
    ScanDecimal(n, "\n");
    var d, text := Decimal(n), Decimal(n) + "\n" + rest;
    assert text[..|d| + 1] == d + "\n" && text[|d| + 1..] == rest;
  }

  /** `backend_list` consumes exactly the reply to its command. */
  lemma ListInLockstep(ls: seq<Listed>, tail: string, closed: bool)
    requires AllListable(ls) && AllSanitised(ls) && NoneParagraph(ls) && 2 * |ls| <= INT_MAX
    ensures ReadList(ListReply(ls) + tail, closed) == Got(Some(ListReply(ls)), tail)
  {
    var rows := Join(LinesOf(ls));
    assert ListReply(ls) + tail == Decimal(|ls|) + "\n" + (rows + tail);
    CountLine(|ls|, rows + tail, closed);
    LinesWhole(ls);
    JoinFramed(LinesOf(ls), tail, closed);
    if ls == [] {
      assert rows + tail == tail && ListReply(ls) == Decimal(0) + "\n";
    }
  }

  /** A first line that is no positive number is returned alone, and nothing after it is read. */
  lemma NoCountNoRows(line: string, tail: string, closed: bool)
    requires OneLine(line) && ProtocolInt(line + "\n") <= 0
    ensures ReadList(line + "\n" + tail, closed) == Got(Some(line + "\n"), tail)
  {
    LineLengthOf(line, tail);
    var s := line + "\n" + tail;
    assert s[..|line| + 1] == line + "\n" && s[|line| + 1..] == tail;
  }

  // ---- when framing fails ---------------------------------------------------------------

  /** The number of line ends, for text without carriage returns. */
  function LineEnds(s: string): nat {
    if s == [] then 0 else (if Ends(s[0]) then 1 else 0) + LineEnds(s[1..])
  }

  lemma {:induction false} LineEndsConcat(a: string, b: string)
    ensures LineEnds(a + b) == LineEnds(a) + LineEnds(b)
  {
    if a == [] {
      assert a + b == b;
    } else {
      assert (a + b)[1..] == a[1..] + b;
      LineEndsConcat(a[1..], b);
    }
  }

  lemma {:induction false} LineEndsZero(s: string)
    ensures LineEnds(s) == 0 <==> OneLine(s)
  {
    if s != [] {
      LineEndsZero(s[1..]);
      if OneLine(s[1..]) && !Ends(s[0]) {
        forall i | 0 <= i < |s| ensures !Ends(s[i]) {
          if i > 0 { assert s[i] == s[1..][i - 1]; }
        }
      }
      if OneLine(s) {
        forall i | 0 <= i < |s[1..]| ensures !Ends(s[1..][i]) {
          assert s[1..][i] == s[i + 1];
        }
      }
    }
  }

  lemma {:induction false} FirstLineEnds(s: string)
    requires '\r' !in s && LineEnds(s) > 0
    ensures LineLength(s) > 0 && LineEnds(s[LineLength(s)..]) == LineEnds(s) - 1
  {
    if !Ends(s[0]) {
      FirstLineEnds(s[1..]);
      var n := LineLength(s);
      assert s[n..] == s[1..][n - 1..];
    }
  }

  lemma {:induction false} TakeLinesEnds(s: string, k: nat, closed: bool)
    requires '\r' !in s && k <= LineEnds(s)
    ensures TakeLines(s, k, closed).Taken? && LineEnds(TakeLines(s, k, closed).left) == LineEnds(s) - k
  {
    if k > 0 {
      FirstLineEnds(s);
      TakeLinesEnds(s[LineLength(s)..], k - 1, closed);
    }
  }

  lemma {:induction false} JoinEnds(lines: seq<string>)
    requires forall i :: 0 <= i < |lines| ==> '\r' !in lines[i]
    ensures LineEnds(Join(lines)) >= |lines| && '\r' !in Join(lines)
    ensures LineEnds(Join(lines)) == |lines| <==> AllOneLine(lines)
  {
    if lines != [] {
      JoinEnds(lines[1..]);
      LineEndsConcat(lines[0] + "\n", Join(lines[1..]));
      LineEndsConcat(lines[0], "\n");
      LineEndsZero(lines[0]);
      assert forall i :: 1 <= i < |lines| ==> lines[i] == lines[1..][i - 1];
    }
  }

  lemma {:induction false} NoReturns(ls: seq<Listed>)
    requires AllListable(ls) && AllSanitised(ls)
    ensures forall i :: 0 <= i < |LinesOf(ls)| ==> '\r' !in LinesOf(ls)[i]
  {
    if ls != [] {
      NoReturns(ls[1..]);
      HeaderEnds(ls[0]);
      assert '\r' !in ls[0].proc.exePath;
    }
  }

  /** Exactly when the call stays in step.  The sanitiser strips every line end but one: a name
      or path with a paragraph separator is one more line to the reader, which then leaves the
      end of the reply to be taken for the answer to the next call. */
  lemma LockstepIff(ls: seq<Listed>, tail: string, closed: bool)
    requires AllListable(ls) && AllSanitised(ls) && 0 < 2 * |ls| <= INT_MAX && '\r' !in tail
    ensures ReadList(ListReply(ls) + tail, closed) == Got(Some(ListReply(ls)), tail) <==> NoneParagraph(ls)
  {
    var rows := Join(LinesOf(ls));
    assert ListReply(ls) + tail == Decimal(|ls|) + "\n" + (rows + tail);
    if NoneParagraph(ls) {
      ListInLockstep(ls, tail, closed);
    } else {
      CountLine(|ls|, rows + tail, closed);
      TooManyLines(ls, tail, closed);
    }
  }

  lemma TooManyLines(ls: seq<Listed>, tail: string, closed: bool)
    requires AllListable(ls) && AllSanitised(ls) && !NoneParagraph(ls) && '\r' !in tail
    ensures var t := TakeLines(Join(LinesOf(ls)) + tail, 2 * |ls|, closed);
            t.Taken? && LineEnds(t.left) > LineEnds(tail)
  {
    NoReturns(ls);
    JoinEnds(LinesOf(ls));
    LinesWhole(ls);
    LineEndsConcat(Join(LinesOf(ls)), tail);
    TakeLinesEnds(Join(LinesOf(ls)) + tail, 2 * |ls|, closed);
  }

  /** A process can bring this about by its name: the sanitiser lets the separator through. */
  lemma ParagraphPassesSanitiser(comm: string)
    requires comm == "a" + [PARAGRAPH] + "b"
    ensures CleanName(comm) == comm && !NoParagraph(NewEntry(Observation(1, true, comm, "")))
  {
    assert comm[1] == PARAGRAPH;
    assert CleanName(comm) == comm;
  }

  /** Discovery failing is not reported: its reply is read as a list of two.  The reader takes the
      next four lines for rows, and waits for them if they are not there. */
  lemma ErrorReplyReadAsList(tail: string)
    ensures ReadList("2\n" + tail, false).Waiting? <==> LineCount(tail) < 4
    ensures ReadList("2\n" + tail, false) == WithRows("2\n", TakeLines(tail, 4, false))
  {
    assert "2\n" == Decimal(2) + "\n";
    CountLine(2, tail, false);
    WaitsIff(tail, 4);
  }

  // ---- the window's parser --------------------------------------------------------------

  /** A row of the window's list store. */
  datatype Row = Row(name: string, pid: int, connections: int, protocols: string, exePath: string, upload: Word32, download: Word32)

  function Protocols(tcp: bool, udp: bool): string {
    if tcp && udp then "TCP/UDP" else if tcp then "TCP" else if udp then "UDP" else "-"
  }

  /** The text names TCP exactly when there is TCP, and UDP exactly when there is UDP. */
  lemma ProtocolsTell(tcp: bool, udp: bool)
    ensures var r := Protocols(tcp, udp);
            && (tcp <==> r[0] == 'T') && (udp <==> |r| >= 3 && r[|r| - 3] == 'U')
            && (tcp && !udp ==> r == "TCP") && (!tcp && udp ==> r == "UDP") && (tcp && udp ==> r == "TCP/UDP")
  {}

  /** `g_strsplit(data, "\n", -1)`. */
  function Split(s: string): (lines: seq<string>)
    ensures |lines| > 0
  {
    if s == [] then [""]
    else if s[0] == '\n' then [""] + Split(s[1..])
    else
      var more := Split(s[1..]);
      [[s[0]] + more[0]] + more[1..]
  }

  lemma {:induction false} SplitLine(line: string, rest: string)
    requires '\n' !in line
    ensures Split(line + "\n" + rest) == [line] + Split(rest)
  {
    var s := line + "\n" + rest;
    if line == [] {
      assert s[1..] == rest;
    } else {
      assert s[0] == line[0] && s[1..] == line[1..] + "\n" + rest;
      SplitLine(line[1..], rest);
      assert [line[0]] + line[1..] == line;
      assert ([line[1..]] + Split(rest))[1..] == Split(rest);
    }
  }

  lemma {:induction false} SplitJoin(lines: seq<string>)
    requires forall i :: 0 <= i < |lines| ==> '\n' !in lines[i]
    ensures Split(Join(lines)) == lines + [""]
  {
    if lines == [] {
      assert lines + [""] == [""];
    } else {
      SplitJoin(lines[1..]);
      SplitLine(lines[0], Join(lines[1..]));
      assert [lines[0]] + (lines[1..] + [""]) == lines + [""];
    }
  }

  /** `%255[^\n]` after white space: at least one character. */
  function ScanName(s: string): string {
    var t := SkipSpace(s);
    Truncate(if '\n' in t then Split(t)[0] else t, 255)
  }

  /** `%u` into an `unsigned int`. */
  function Low32(v: int): Word32 { if 0 <= v < U32 then v else v % U32 }

  /** One row from its two lines, if the first has all seven fields. */
  function ParseRow(header: string, exePath: string): seq<Row> {
    match ScanNumbers(header, 6)
    case Mismatch => []
    case Numbers(v, rest) =>
      if ScanName(rest) == "" || |v| != 6 then []
      else [Row(ScanName(rest), v[0], v[1], Protocols(v[2] != 0, v[3] != 0), exePath, Low32(v[4]), Low32(v[5]))]
  }

  /** A line gives a row exactly when six numbers can be read from it and a name is left. */
  lemma RowIff(header: string, exePath: string)
    ensures |ParseRow(header, exePath)| <= 1
    ensures ParseRow(header, exePath) != [] <==> ScanNumbers(header, 6).Numbers? && SkipSpace(ScanNumbers(header, 6).rest) != ""
  {
    ScanNumbersCount(header, 6);
    if ScanNumbers(header, 6).Numbers? {
      NameBlankIff(ScanNumbers(header, 6).rest);
    }
  }

  lemma {:induction false} ScanNumbersCount(s: string, k: nat)
    ensures ScanNumbers(s, k).Numbers? ==> |ScanNumbers(s, k).values| == k
    decreases k
  {
    if k > 0 && ScanInt(s).Number? {
      ScanNumbersCount(ScanInt(s).rest, k - 1);
    }
  }

  lemma NameBlankIff(s: string)
    ensures ScanName(s) == "" <==> SkipSpace(s) == ""
  {
    SkipSpaceMeans(s);
    var t := SkipSpace(s);
    if '\n' in t {
      assert t[0] != '\n';
      assert Split(t)[0] != "";
    }
  }

  function ParseRows(lines: seq<string>, count: int): seq<Row>
    decreases |lines|
  {
    if count <= 0 || |lines| < 2 then [] else ParseRow(lines[0], lines[1]) + ParseRows(lines[2..], count - 1)
  }

  /** The count line must be a number and nothing else. */
  function RowCount(line: string): int {
    match ScanInt(line)
    case NoMatch => 0
    case Number(v, rest) => if rest == "" && 0 < v <= INT_MAX then v else 0
  }

  /** A count with anything after it, or out of range, is no count. */
  lemma RowCountOf(n: nat, rest: string)
    requires !StartsWithDigit(rest)
    ensures RowCount(Decimal(n) + rest) == if rest == "" && n <= INT_MAX then n else 0
  {
    ScanDecimal(n, rest);
  }

  lemma ParseTwo(h: string, e: string, more: seq<string>, count: int)
    requires count > 0
    ensures ParseRows([h, e] + more, count) == ParseRow(h, e) + ParseRows(more, count - 1)
  {
    assert ([h, e] + more)[2..] == more;
  }

  /** After `i` rows, with line `idx` next, what is stored and what is still to come make up the
      whole. */
  ghost predicate ParsedTo(lines: seq<string>, count: int, idx: int, i: int, store: seq<Row>) {
    1 <= idx <= |lines| && store + ParseRows(lines[idx..], count - i) == ParseRows(lines[1..], count)
  }

  lemma RowsFrom(lines: seq<string>, idx: nat, count: int)
    requires count > 0 && idx + 1 < |lines|
    ensures ParseRows(lines[idx..], count) == ParseRow(lines[idx], lines[idx + 1]) + ParseRows(lines[idx + 2..], count - 1)
  {
    assert lines[idx..] == [lines[idx], lines[idx + 1]] + lines[idx + 2..];
    ParseTwo(lines[idx], lines[idx + 1], lines[idx + 2..], count);
  }

  lemma Regroup(store: seq<Row>, row: seq<Row>, more: seq<Row>, rows: seq<Row>, all: seq<Row>)
    requires rows == row + more && store + rows == all
    ensures store + row + more == all
  {}

  lemma ParsedOne(lines: seq<string>, count: int, idx: int, i: int, store: seq<Row>)
    requires ParsedTo(lines, count, idx, i, store) && i < count && idx + 1 < |lines|
    ensures ParsedTo(lines, count, idx + 2, i + 1, store + ParseRow(lines[idx], lines[idx + 1]))
  {
    RowsFrom(lines, idx, count - i);
    Regroup(store, ParseRow(lines[idx], lines[idx + 1]), ParseRows(lines[idx + 2..], count - (i + 1)),
            ParseRows(lines[idx..], count - i), ParseRows(lines[1..], count));
  }

  lemma ParsedAll(lines: seq<string>, count: int, idx: int, i: int, store: seq<Row>)
    requires ParsedTo(lines, count, idx, i, store) && (i >= count || idx + 1 >= |lines|)
    ensures store == ParseRows(lines[1..], count)
  {
    assert store + [] == store;
  }

  lemma ParsedNone(lines: seq<string>, count: int)
    requires |lines| > 0
    ensures ParsedTo(lines, count, 1, 0, [])
  {
    assert [] + ParseRows(lines[1..], count) == ParseRows(lines[1..], count);
  }

  /** `populate_store_from_raw`. */
  method PopulateStoreFromRaw(data: string) returns (store: seq<Row>)
    ensures store == ParseRows(Split(data)[1..], RowCount(Split(data)[0]))
  {
    var lines := Split(data);
    var count := RowCount(lines[0]);
    store := ParseLoop(lines, count);
  }

  method ParseLoop(lines: seq<string>, count: int) returns (store: seq<Row>)
    requires |lines| > 0
    ensures store == ParseRows(lines[1..], count)
  {
    store := [];
    var idx, i := 1, 0;
    ParsedNone(lines, count);
    while i < count && idx + 1 < |lines|
      invariant 0 <= i && 1 <= idx <= |lines|
      invariant ParsedTo(lines, count, idx, i, store)
    {
      ParsedOne(lines, count, idx, i, store);
      store := store + ParseRow(lines[idx], lines[idx + 1]);
      idx, i := idx + 2, i + 1;
    }
    ParsedAll(lines, count, idx, i, store);
  }

  // ---- what the window shows ------------------------------------------------------------

  /** The row for a listed process: leading blanks of the name are lost, and with a blank name
      the whole row. */
  function RowFor(l: Listed): seq<Row> {
    var name := SkipSpace(l.proc.name);
    if name == "" then []
    else [Row(name, l.proc.pid, l.proc.connections, Protocols(l.proc.tcp, l.proc.udp), l.proc.exePath, l.upload, l.download)]
  }

  function View(ls: seq<Listed>): seq<Row> {
    if ls == [] then [] else RowFor(ls[0]) + View(ls[1..])
  }

  lemma NameScanned(name: string)
    requires |name| <= COMM_MAX && forall i :: 0 <= i < |name| ==> Printable(name[i])
    ensures ScanName(" " + name) == SkipSpace(name)
  {
    assert (" " + name)[1..] == name;
    assert SkipSpace(" " + name) == SkipSpace(name);
    SkipSpaceMeans(name);
    assert '\n' !in name;
    assert '\n' !in SkipSpace(name);
  }

  /** The fields in the order of the wire. */
  lemma WireFormat(l: Listed)
    requires Listable(l)
    ensures ScanNumbers(Header(l), 6)
         == Numbers([l.proc.pid, l.proc.connections, if l.proc.tcp then 1 else 0, if l.proc.udp then 1 else 0, l.upload, l.download],
                    " " + l.proc.name)
  {
    ScanSpaced(Fields(l), " " + l.proc.name);
  }

  lemma ParseHeader(l: Listed)
    requires Listable(l) && Sanitised(l.proc)
    ensures ParseRow(Header(l), l.proc.exePath) == RowFor(l)
  {
    WireFormat(l);
    NameScanned(l.proc.name);
  }

  lemma {:induction false} ParseLines(ls: seq<Listed>, tail: seq<string>)
    requires AllListable(ls) && AllSanitised(ls)
    ensures ParseRows(LinesOf(ls) + tail, |ls|) == View(ls)
  {
    if ls != [] {
      ParseHeader(ls[0]);
      ParseLines(ls[1..], tail);
      assert LinesOf(ls) + tail == [Header(ls[0]), ls[0].proc.exePath] + (LinesOf(ls[1..]) + tail);
      ParseTwo(Header(ls[0]), ls[0].proc.exePath, LinesOf(ls[1..]) + tail, |ls|);
    }
  }

  lemma {:induction false} NoNewlines(ls: seq<Listed>)
    requires AllListable(ls) && AllSanitised(ls)
    ensures forall i :: 0 <= i < |LinesOf(ls)| ==> '\n' !in LinesOf(ls)[i]
  {
    if ls != [] {
      NoNewlines(ls[1..]);
      assert '\n' !in ls[0].proc.exePath && '\n' !in ls[0].proc.name;
    }
  }

  /** Parsing undoes printing for every list of sanitised processes: the rows come back in order
      with their limits, and a row lost for its blank name does not shift the others. */
  lemma ListRoundTrip(ls: seq<Listed>)
    requires AllListable(ls) && AllSanitised(ls) && |ls| <= INT_MAX
    ensures var lines := Split(ListReply(ls));
            ParseRows(lines[1..], RowCount(lines[0])) == View(ls)
  {
    SplitReply(ls);
    RowCountOf(|ls|, "");
    assert Decimal(|ls|) + "" == Decimal(|ls|);
    ParseLines(ls, [""]);
  }

  lemma SplitReply(ls: seq<Listed>)
    requires AllListable(ls) && AllSanitised(ls)
    ensures Split(ListReply(ls))[0] == Decimal(|ls|) && Split(ListReply(ls))[1..] == LinesOf(ls) + [""]
  {
    assert '\n' !in Decimal(|ls|);
    NoNewlines(ls);
    SplitJoin(LinesOf(ls));
    SplitLine(Decimal(|ls|), Join(LinesOf(ls)));
  }
}
