/**
 The command pipe: EpollNet::Command prints a command and its parameter into a 16-byte record, and
 handle_command reads one record and splits it again.
 */
module CommandPipe {
  import opened Sequences

  const MAX_CMD_SIZE: nat := 16
  const CMD_QUIT: int := 1
  const NUL: char := '\0'
  const DELIMITER: char := '|'

  newtype Int32 = n: int | -0x8000_0000 <= n < 0x8000_0000

  // ---------------------------------------------------------------- decimal numbers

  predicate IsDigit(c: char) {
    '0' <= c <= '9'
  }

  function Digit(d: nat): (c: char)
    requires d < 10
    ensures IsDigit(c) && c as int - '0' as int == d
  {
    '0' + d as char
  }

  function Digits(n: nat): (s: string)
    ensures s != "" && forall c <- s :: IsDigit(c)
  {
    if n < 10 then [Digit(n)] else Digits(n / 10) + [Digit(n % 10)]
  }

  /** printf's %d */
  function Decimal(n: int): (s: string)
    ensures s != "" && NUL !in s && DELIMITER !in s
  {
    if n < 0 then "-" + Digits(-n) else Digits(n)
  }

  function ParseDigits(s: string, acc: nat): nat {
    if s != "" && IsDigit(s[0]) then ParseDigits(s[1..], acc * 10 + (s[0] as int - '0' as int)) else acc
  }

  /** atoi: leading white space, a sign, and digits up to the first character that is none. */
  function Atoi(s: string): int {
    if s == "" then 0
    else if s[0] == ' ' || '\t' <= s[0] <= '\r' then Atoi(s[1..])
    else if s[0] == '-' then 0 - ParseDigits(s[1..], 0)
    else if s[0] == '+' then ParseDigits(s[1..], 0)
    else ParseDigits(s, 0)
  }

  lemma {:induction false} ParseAppend(ds: string, rest: string, acc: nat)
    requires forall c <- ds :: IsDigit(c)
    ensures ParseDigits(ds + rest, acc) == ParseDigits(rest, ParseDigits(ds, acc))
  {
    if ds == "" {
      assert ds + rest == rest;
    } else {
      assert ds[0] in ds;
      ConsAppend(ds, rest);
      assert forall c <- ds[1..] :: c in ds;
      ParseAppend(ds[1..], rest, acc * 10 + (ds[0] as int - '0' as int));
    }
  }

  lemma {:induction false} ParseOfDigits(n: nat, rest: string)
    requires rest != "" ==> !IsDigit(rest[0])
    ensures ParseDigits(Digits(n) + rest, 0) == n
  {
    var last := [Digit(n % 10)];
    if n < 10 {
      ParseAppend(Digits(n), rest, 0);
      assert ParseDigits(Digits(n), 0) == ParseDigits("", n);
    } else {
      ParseOfDigits(n / 10, "");
      EmptyUnit(Digits(n / 10));
      ParseAppend(Digits(n / 10), last, 0);
      assert ParseDigits(last, n / 10) == ParseDigits("", n / 10 * 10 + n % 10);
      ParseAppend(Digits(n), rest, 0);
    }
  }

  lemma AtoiForms(ds: string, rest: string)
    requires ds != "" && IsDigit(ds[0])
    ensures Atoi(ds + rest) == ParseDigits(ds + rest, 0)
    ensures Atoi(("-" + ds) + rest) == 0 - ParseDigits(ds + rest, 0)
  {
    assert (ds + rest)[0] == ds[0];
    assert (("-" + ds) + rest)[0] == '-' && (("-" + ds) + rest)[1..] == ds + rest;
  }

  /** Reading a printed number gives it back, whatever other characters follow. */
  lemma AtoiOfDecimal(n: int, rest: string)
    requires rest != "" ==> !IsDigit(rest[0])
    ensures Atoi(Decimal(n) + rest) == n
  {
    var magnitude := if n < 0 then -n else n;
    var ds := Digits(magnitude);
    ParseOfDigits(magnitude, rest);
    assert ds[0] in ds;
    AtoiForms(ds, rest);
  }

  function Pow10(k: nat): nat {
    if k == 0 then 1 else 10 * Pow10(k - 1)
  }

  lemma {:induction false} DigitsLength(n: nat, k: nat)
    requires k > 0 && n < Pow10(k)
    ensures |Digits(n)| <= k
  {
    if n >= 10 {
      DigitsLength(n / 10, k - 1);
    }
  }

  lemma DecimalLength(n: Int32)
    ensures |Decimal(n as int)| <= 11
  {
    assert Pow10(5) == 100_000;
    assert Pow10(10) == 10_000_000_000;
    DigitsLength(if n < 0 then -(n as int) else n as int, 10);
  }

  // ---------------------------------------------------------------- one record

  /** What snprintf is asked to print; %s stops at a NUL. */
  function CommandText(cmd: Int32, para: string): (text: string)
    ensures NUL !in text
  {
    if para == "" then Decimal(cmd as int) else Decimal(cmd as int) + [DELIMITER] + Before(para, NUL)
  }

  /** What fits in front of a terminating NUL. */
  function Truncated(text: string): string {
    if |text| > MAX_CMD_SIZE - 1 then text[..MAX_CMD_SIZE - 1] else text
  }

  /** snprintf into a cleared 16-byte buffer. */
  function Printed(text: string): (buffer: string)
    ensures |buffer| == MAX_CMD_SIZE
  {
    Truncated(text) + seq(MAX_CMD_SIZE - |Truncated(text)|, _ => NUL)
  }

  function Record(cmd: Int32, para: string): (record: string)
    ensures |record| == MAX_CMD_SIZE
  {
    Printed(CommandText(cmd, para))
  }

  datatype Received = Received(cmd: int, para: string)

  /** handle_command's split of the line at the first delimiter, if anything follows it. */
  function SplitLine(line: string): Received {
    var split := |Before(line, DELIMITER)|;
    if split < |line| && |line| > split + 1 then Received(Atoi(line[..split]), line[split + 1..])
    else Received(Atoi(line), "")
  }

  function Split(record: string): Received {
    SplitLine(Before(record, NUL))
  }

  lemma SplitForms(number: string, kept: string)
    requires DELIMITER !in number
    ensures SplitLine(number) == Received(Atoi(number), "")
    ensures SplitLine(number + [DELIMITER]) == Received(Atoi(number + [DELIMITER]), "")
    ensures kept != "" ==> SplitLine(number + [DELIMITER] + kept) == Received(Atoi(number), kept)
  {
    BeforeIs(number, DELIMITER, number);
    BeforeIs(number + [DELIMITER], DELIMITER, number);
    var line := number + [DELIMITER] + kept;
    BeforeIs(line, DELIMITER, number);
    assert line[..|number|] == number && line[|number| + 1..] == kept;
  }

  /** The part of a parameter that fits behind its command. */
  function Kept(cmd: Int32, para: string): string {
    var room := 14 - |Decimal(cmd as int)|;
    var text := Before(para, NUL);
    if 0 <= room < |text| then text[..room] else text
  }

  lemma KeptText(number: string, text: string)
    requires |number| <= 11
    ensures
      var room := 14 - |number|;
      Truncated(number + [DELIMITER] + text) == number + [DELIMITER] + (if room < |text| then text[..room] else text)
  {
  }

  lemma PrintedLine(text: string)
    requires NUL !in text
    ensures Before(Printed(text), NUL) == Truncated(text)
  {
    assert Printed(text)[|Truncated(text)|] == NUL;
    BeforeIs(Printed(text), NUL, Truncated(text));
  }

  lemma LineOfRecord(cmd: Int32, para: string)
    ensures Before(Record(cmd, para), '\0')
         == if para == "" then Decimal(cmd as int) else Decimal(cmd as int) + "|" + Kept(cmd, para)
  {
    PrintedLine(CommandText(cmd, para));
    DecimalLength(cmd);
    KeptText(Decimal(cmd as int), Before(para, NUL));
  }

  /**
   Round trip of one record, for every 32-bit command and every parameter: the command comes back,
   and the parameter as far as it fits, even when it contains the delimiter.
   */
  lemma RecordRoundTrip(cmd: Int32, para: string)
    ensures Split(Record(cmd, para)) == Received(cmd as int, Kept(cmd, para))
    ensures |Kept(cmd, para)| >= Min(3, |Before(para, NUL)|)
  {
    var number, kept, n := Decimal(cmd as int), Kept(cmd, para), cmd as int;
    DecimalLength(cmd);
    LineOfRecord(cmd, para);
    AtoiOfDecimal(n, "");
    AtoiOfDecimal(n, [DELIMITER]);
    EmptyUnit(number);
    EmptyUnit(number + [DELIMITER]);
    SplitForms(number, kept);
    assert kept == "" ==> number + [DELIMITER] + kept == number + [DELIMITER];
  }

  /** What fits: the record has 16 characters, the last of them a NUL, and nothing is cut that has room. */
  lemma KeptFits(cmd: Int32, para: string)
    ensures |Record(cmd, para)| == 16 && Kept(cmd, para) <= Before(para, '\0')
    ensures |Decimal(cmd as int)| + 1 + |Kept(cmd, para)| <= 15
    ensures Kept(cmd, para) == Before(para, '\0') || |Decimal(cmd as int)| + 1 + |Kept(cmd, para)| == 15
  {
    DecimalLength(cmd);
  }

  /** Commands as printf prints them and atoi reads them. */
  lemma PrintedCommands()
    ensures Decimal(907) == "907" && Decimal(-12) == "-12"
    ensures Atoi(" -12|x") == -12 && Atoi("+3") == 3
  {
    assert Digit(9) == '9' && Digit(0) == '0' && Digit(7) == '7' && Digit(1) == '1' && Digit(2) == '2';
    assert Digits(9) == "9";
    assert Digits(90) == "90";
    assert Digits(1) == "1";
    AtoiOfDecimal(-12, "|x");
    assert " -12|x"[1..] == "-12" + "|x";
    assert "+3"[1..] == "3" && "3"[1..] == "";
  }

  // ---------------------------------------------------------------- the pipe

  datatype Request = Request(cmd: Int32, para: string)

  function Written(requests: seq<Request>): string {
    if requests == [] then "" else Record(requests[0].cmd, requests[0].para) + Written(requests[1..])
  }

  function ReadBack(pipe: string): seq<Received>
    decreases |pipe|
  {
    if |pipe| < MAX_CMD_SIZE then [] else [Split(pipe[..MAX_CMD_SIZE])] + ReadBack(pipe[MAX_CMD_SIZE..])
  }

  function Expected(requests: seq<Request>): seq<Received> {
    if requests == [] then []
    else [Received(requests[0].cmd as int, Kept(requests[0].cmd, requests[0].para))] + Expected(requests[1..])
  }

  /** Any number of commands written to the pipe are read back in order. */
  lemma {:induction false} PipeRoundTrip(requests: seq<Request>)
    ensures ReadBack(Written(requests)) == Expected(requests)
  {
    if requests != [] {
      var record, later := Record(requests[0].cmd, requests[0].para), Written(requests[1..]);
      CutWhole(record, later);
      RecordRoundTrip(requests[0].cmd, requests[0].para);
      PipeRoundTrip(requests[1..]);
    }
  }

  // ---------------------------------------------------------------- one event for one record

  /**
   The pipe as the event loop sees it. It is registered edge triggered: a write raises an event unless
   one is pending, and each event makes the loop read one record.
   */
  datatype Pipe = Pipe(
    bytes: string,
    edge: bool,               // an event that epoll_wait has not returned yet
    running: bool,            // no quit command has been handled
    written: seq<Request>,    // history: every command written
    handled: seq<Received>,   // history: every record read back
    merged: nat               // history: writes that found an event pending
  )

  const OPENED: Pipe := Pipe("", false, true, [], [], 0)

  datatype Step = Write(request: Request) | Event

  predicate Enabled(s: Pipe, step: Step) {
    step.Event? ==> s.edge && s.running
  }

  function Apply(s: Pipe, step: Step): Pipe {
    match step
    case Write(request) =>
      s.(bytes := s.bytes + Record(request.cmd, request.para), edge := true, written := s.written + [request],
         merged := s.merged + if s.edge then 1 else 0)
    case Event =>
      var n := Min(|s.bytes|, MAX_CMD_SIZE);
      var received := Split(s.bytes[..n]);
      s.(bytes := s.bytes[n..], edge := false, running := received.cmd != CMD_QUIT, handled := s.handled + [received])
  }

  ghost predicate Leads(s: Pipe, steps: seq<Step>, t: Pipe)
    decreases |steps|
  {
    if steps == [] then s == t
    else Enabled(s, steps[0]) && Leads(Apply(s, steps[0]), steps[1..], t)
  }

  /** The first commands have been read, the rest are in the pipe: one for a pending event, and the merged ones. */
  ghost predicate Behind(s: Pipe) {
    && |s.written| == |s.handled| + s.merged + (if s.edge then 1 else 0)
    && s.handled == Expected(s.written[..|s.handled|])
    && s.bytes == Written(s.written[|s.handled|..])
  }

  lemma {:induction false} WrittenSnoc(requests: seq<Request>, last: Request)
    ensures Written(requests + [last]) == Written(requests) + Record(last.cmd, last.para)
  {
    if requests == [] {
      EmptyUnit(Record(last.cmd, last.para));
      assert [] + [last] == [last] && [last][1..] == [];
    } else {
      ConsAppend(requests, [last]);
      WrittenSnoc(requests[1..], last);
      AppendAssoc(Record(requests[0].cmd, requests[0].para), Written(requests[1..]), Record(last.cmd, last.para));
    }
  }

  lemma {:induction false} ExpectedSnoc(requests: seq<Request>, last: Request)
    ensures |Expected(requests)| == |requests|
    ensures Expected(requests + [last]) == Expected(requests) + [Received(last.cmd as int, Kept(last.cmd, last.para))]
  {
    if requests == [] {
      assert [] + [last] == [last] && [last][1..] == [];
    } else {
      ConsAppend(requests, [last]);
      ExpectedSnoc(requests[1..], last);
    }
  }

  lemma {:induction false} BehindWrite(s: Pipe, request: Request)
    requires Behind(s)
    ensures Behind(Apply(s, Write(request)))
  {
    var n, all := |s.handled|, s.written + [request];
    WrittenSnoc(s.written[n..], request);
    assert all[..n] == s.written[..n] && all[n..] == s.written[n..] + [request];
  }

  /** An event takes exactly the first record off the pipe and reads it back. */
  lemma EventReads(s: Pipe, head: Request, later: string)
    requires s.bytes == Record(head.cmd, head.para) + later
    ensures
      var received := Received(head.cmd as int, Kept(head.cmd, head.para));
      Apply(s, Event) ==
        s.(bytes := later, edge := false, running := received.cmd != CMD_QUIT, handled := s.handled + [received])
  {
    CutWhole(Record(head.cmd, head.para), later);
    RecordRoundTrip(head.cmd, head.para);
  }

  lemma {:induction false} ExpectedNext(requests: seq<Request>, n: nat, next: nat)
    requires n < |requests| && next == n + 1
    ensures
      var head := requests[n];
      Expected(requests[..next]) == Expected(requests[..n]) + [Received(head.cmd as int, Kept(head.cmd, head.para))]
  {
    ExpectedSnoc(requests[..n], requests[n]);
    assert requests[..next] == requests[..n] + [requests[n]];
  }

  lemma {:induction false} BehindEvent(s: Pipe)
    requires Behind(s) && s.edge
    ensures Behind(Apply(s, Event))
  {
    var n := |s.handled|;
    var next: nat := n + 1;
    var head, left := s.written[n], s.written[n..];
    assert left[0] == head && left[1..] == s.written[next..];
    EventReads(s, head, Written(left[1..]));
    ExpectedNext(s.written, n, next);
  }

  lemma {:induction false} BehindOnRuns(s: Pipe, steps: seq<Step>, t: Pipe)
    requires Behind(s) && Leads(s, steps, t)
    ensures Behind(t) && s.merged <= t.merged
    decreases |steps|
  {
    if steps != [] {
      match steps[0] {
        case Write(request) => BehindWrite(s, request);
        case Event => BehindEvent(s);
      }
      BehindOnRuns(Apply(s, steps[0]), steps[1..], t);
    }
  }

  lemma {:induction false} ExpectedLength(requests: seq<Request>)
    ensures |Expected(requests)| == |requests|
  {
    if requests != [] {
      ExpectedLength(requests[1..]);
    }
  }

  /**
   Which commands are handled: always the first ones written, in order. When no event is pending they
   are all of them exactly if no command was ever written while an event was pending.
   */
  lemma {:induction false} AllHandledIff(steps: seq<Step>, t: Pipe)
    requires Leads(OPENED, steps, t) && !t.edge
    ensures |t.handled| <= |t.written| && t.handled == Expected(t.written[..|t.handled|])
    ensures t.handled == Expected(t.written) <==> t.merged == 0
  {
    BehindOnRuns(OPENED, steps, t);
    ExpectedLength(t.written);
    assert t.merged == 0 ==> t.written[..|t.handled|] == t.written;
  }

  /** A command that was merged with an earlier one is not made up for: the loop stays behind for good. */
  lemma {:induction false} BacklogStays(before: seq<Step>, s: Pipe, steps: seq<Step>, t: Pipe)
    requires Leads(OPENED, before, s) && Leads(s, steps, t)
    ensures |t.written| - |t.handled| >= s.merged
  {
    BehindOnRuns(OPENED, before, s);
    BehindOnRuns(s, steps, t);
  }

  /** A quit written right behind another command: it stays in the pipe, and the loop goes on waiting. */
  lemma {:induction false} QuitCanWait(first: Request, quit: Request) returns (steps: seq<Step>, t: Pipe)
    requires first.cmd as int != CMD_QUIT && quit.cmd as int == CMD_QUIT
    ensures Leads(OPENED, steps, t) && quit in t.written && t.running && !t.edge
  {
    var one, two := Record(first.cmd, first.para), Record(quit.cmd, quit.para);
    var s1 := Pipe(one, true, true, [first], [], 0);
    var s2 := Pipe(one + two, true, true, [first, quit], [], 1);
    EmptyUnit(one);
    assert s1 == Apply(OPENED, Write(first));
    assert s2 == Apply(s1, Write(quit));
    EventReads(s2, first, two);
    t := Apply(s2, Event);
    steps := [Write(first), Write(quit), Event];
    assert Leads(s2, [Event], t);
    assert Leads(s1, [Write(quit), Event], t) by {
      assert [Write(quit), Event][1..] == [Event];
    }
    assert steps[1..] == [Write(quit), Event];
  }

  /** What the event loop does next. */
  datatype Outcome = Quit | Run(cmd: int, para: string) | Unsupported(cmd: int)

  class EpollNet {
    var pipe: string
    var edge: bool
    var running: bool
    const handlers: set<int>  // the registered command codes
    ghost var written: seq<Request>
    ghost var handled: seq<Received>
    ghost var merged: nat

    constructor (handlers: set<int>)
      ensures this.handlers == handlers && State() == OPENED
    {
      pipe, edge, running, this.handlers := "", false, true, handlers;
      written, handled, merged := [], [], 0;
    }

    ghost function State(): Pipe
      reads this
    {
      Pipe(pipe, edge, running, written, handled, merged)
    }

    /** Command: clear the buffer, print into it, write all of it. */
    method Command(cmd: Int32, para: string)
      modifies this
      ensures pipe == old(pipe) + Record(cmd, para)
      ensures State() == Apply(old(State()), Write(Request(cmd, para)))
    {
      var cmdBuf := new char[MAX_CMD_SIZE](_ => NUL);
      var text := CommandText(cmd, para);
      var n := 0;
      while n < |text| && n < MAX_CMD_SIZE - 1
        invariant n <= |text| && n <= MAX_CMD_SIZE - 1 && State() == old(State())
        invariant forall i :: 0 <= i < n ==> cmdBuf[i] == text[i]
        invariant forall i :: n <= i < MAX_CMD_SIZE ==> cmdBuf[i] == NUL
      {
        cmdBuf[n] := text[n];
        n := n + 1;
      }
      assert cmdBuf[..] == Record(cmd, para);
      pipe := pipe + cmdBuf[..];
      merged := merged + if edge then 1 else 0;
      written := written + [Request(cmd, para)];
      edge := true;
    }

    /** The read of handle_command; an empty pipe leaves the buffer cleared, which reads as command 0. */
    method ReadRecord() returns (cmdLine: string)
      modifies this`pipe
      ensures pipe == old(pipe)[Min(|old(pipe)|, MAX_CMD_SIZE)..]
      ensures cmdLine == Before(old(pipe)[..Min(|old(pipe)|, MAX_CMD_SIZE)], NUL)
    {
      var n := Min(|pipe|, MAX_CMD_SIZE);
      cmdLine := Before(pipe[..n], NUL);
      pipe := pipe[n..];
    }

    /** find and substr on the line. */
    method SplitCommand(cmdLine: string) returns (cmd: int, para: string)
      ensures Received(cmd, para) == SplitLine(cmdLine)
    {
      var split := 0;
      while split < |cmdLine| && cmdLine[split] != DELIMITER
        invariant split <= |cmdLine| && DELIMITER !in cmdLine[..split]
      {
        split := split + 1;
      }
      BeforeIs(cmdLine, DELIMITER, cmdLine[..split]);
      var inputCmd := cmdLine;
      para := "";
      if split < |cmdLine| && |cmdLine| > split + 1 {
        inputCmd, para := cmdLine[..split], cmdLine[split + 1..];
      }
      cmd := Atoi(inputCmd);
    }

    /** The event loop on an event of the pipe: handle_command reads one record and decides what to do. */
    method HandleCommand() returns (outcome: Outcome)
      requires running
      modifies this
      ensures State() == Apply(old(State()), Event)
      ensures
        var received := Split(old(pipe)[..Min(|old(pipe)|, MAX_CMD_SIZE)]);
        outcome == if received.cmd == 1 then Quit
                   else if received.cmd in handlers then Run(received.cmd, received.para)
                   else Unsupported(received.cmd)
      ensures running <==> !outcome.Quit?
      ensures forall cmd: Int32, para: string :: Record(cmd, para) <= old(pipe) ==>
                outcome == if cmd as int == 1 then Quit
                           else if cmd as int in handlers then Run(cmd as int, Kept(cmd, para))
                           else Unsupported(cmd as int)
    {
      ghost var bytes := pipe;
      forall cmd: Int32, para: string | Record(cmd, para) <= bytes
        ensures Split(bytes[..Min(|bytes|, MAX_CMD_SIZE)]) == Received(cmd as int, Kept(cmd, para))
      {
        RecordRoundTrip(cmd, para);
        assert bytes[..MAX_CMD_SIZE] == Record(cmd, para);
      }
      edge := false;
      var cmdLine := ReadRecord();
      var cmd, para := SplitCommand(cmdLine);
      handled := handled + [Received(cmd, para)];
      running := cmd != CMD_QUIT;
      if cmd == CMD_QUIT {
        outcome := Quit;
      } else if cmd in handlers {
        outcome := Run(cmd, para);
      } else {
        outcome := Unsupported(cmd);
      }
    }
  }
}
