/** The application log router of the development loop: `writeLogs`
    (pkg/start/gen2.go:792-834) reads the provider's log stream line by line,
    recognises lines of the form

      YYYY-MM-DDTHH:MM:SSZ kind/name/instance message

    (the pattern `reAppLog`, pkg/start/gen2.go:37) and writes the message of a
    `service` or `system` line under the name of a service the developer is
    running; `stripANSIScreenCommands` (pkg/start/gen2.go:780-790) removes
    cursor-positioning sequences `ESC [ n ; m H` from service output. */
module LogRouter {
  import opened Wrappers
  import opened Text

  predicate IsDigit(c: char)
  {
    '0' <= c <= '9'
  }

  /** `\d{4}-\d{2}-\d{2}` */
  predicate IsDate(s: string)
  {
    && |s| == 10
    && IsDigit(s[0]) && IsDigit(s[1]) && IsDigit(s[2]) && IsDigit(s[3]) && s[4] == '-'
    && IsDigit(s[5]) && IsDigit(s[6]) && s[7] == '-' && IsDigit(s[8]) && IsDigit(s[9])
  }

  /** `\d{2}:\d{2}:\d{2}` */
  predicate IsClock(s: string)
  {
    && |s| == 8
    && IsDigit(s[0]) && IsDigit(s[1]) && s[2] == ':' && IsDigit(s[3]) && IsDigit(s[4])
    && s[5] == ':' && IsDigit(s[6]) && IsDigit(s[7])
  }

  /** The six submatches of `reAppLog`. */
  datatype LogLine = LogLine(date: string, clock: string, kind: string, name: string, instance: string, message: string)
  {
    /** What the pattern allows in each group: `kind` and `name` are
        `[^/]+`, `instance` is `[^ ]+` and the message `.*` holds no newline. */
    predicate WellFormed()
    {
      && IsDate(date) && IsClock(clock)
      && kind != [] && '/' !in kind
      && name != [] && '/' !in name
      && instance != [] && ' ' !in instance
      && '\n' !in message
    }
  }

  /** The text of a log line: the time stamp, then the groups. */
  function Format(l: LogLine): string
  {
    Stamp(l.date, l.clock) + l.kind + "/" + (l.name + "/" + (l.instance + " " + l.message))
  }

  function Stamp(date: string, clock: string): string
  {
    date + "T" + clock + "Z "
  }

  /** The text before the first `c`, which must be non-empty and followed
      by `c`, and the text after that `c`. */
  function Split1(s: string, c: char): (r: Option<(string, string)>)
    ensures r.Some? ==> r.value.0 != [] && c !in r.value.0 && s == r.value.0 + [c] + r.value.1
  {
    var h := Before(s, {c});
    if h == [] || |h| == |s| then None
    else
      assert s == h + [c] + s[|h| + 1..];
      Some((h, s[|h| + 1..]))
  }

  lemma Split1Of(h: string, c: char, t: string)
    requires h != [] && c !in h
    ensures Split1(h + [c] + t, c) == Some((h, t))
  {
    BeforeOf(h, [c] + t, {c});
    assert h + [c] + t == h + ([c] + t);
    assert (h + [c] + t)[|h| + 1..] == t;
  }

  /** `reAppLog.FindStringSubmatch(line)`, written out. The groups are
      determined by the line: the kind runs to the first '/', the name to
      the next '/', the instance to the first space after that, and the
      message is the rest. */
  function Parse(line: string): (r: Option<LogLine>)
    ensures r.Some? ==> r.value.WellFormed()
  {
    if |line| < 21 || !IsDate(line[..10]) || line[10] != 'T' || !IsClock(line[11..19])
       || line[19] != 'Z' || line[20] != ' ' then None
    else match Split1(line[21..], '/')
      case None => None
      case Some((kind, rest)) =>
        match Split1(rest, '/')
        case None => None
        case Some((name, rest')) =>
          match Split1(rest', ' ')
          case None => None
          case Some((instance, message)) =>
            if '\n' in message then None
            else Some(LogLine(line[..10], line[11..19], kind, name, instance, message))
  }

  lemma StampOf(date: string, clock: string, body: string)
    requires IsDate(date) && IsClock(clock)
    ensures var line := Stamp(date, clock) + body;
            && |line| >= 21 && line[..10] == date && line[10] == 'T' && line[11..19] == clock
            && line[19] == 'Z' && line[20] == ' ' && line[21..] == body
  {
  }

  /** Every well-formed log line is recognised with the groups it was
      written from. */
  lemma ParseFormat(l: LogLine)
    requires l.WellFormed()
    ensures Parse(Format(l)) == Some(l)
  {
    var rest' := l.instance + " " + l.message;
    var rest := l.name + "/" + rest';
    StampOf(l.date, l.clock, l.kind + "/" + rest);
    assert Format(l) == Stamp(l.date, l.clock) + (l.kind + "/" + rest);
    Split1Of(l.kind, '/', rest);
    Split1Of(l.name, '/', rest');
    Split1Of(l.instance, ' ', l.message);
  }

  /** Every recognised line is the text of its groups. */
  lemma FormatParse(line: string)
    requires Parse(line).Some?
    ensures Format(Parse(line).value) == line
  {
    var l := Parse(line).value;
    BodyBack(line);
    Reassemble(line, l);
  }

  /** A line whose stamp carries the date and clock of `l`, and whose body
      is the rest of `l`, is the text of `l`. */
  lemma Reassemble(line: string, l: LogLine)
    requires |line| >= 21 && line[10] == 'T' && line[19] == 'Z' && line[20] == ' '
    requires l.date == line[..10] && l.clock == line[11..19]
    requires line[21..] == l.kind + "/" + (l.name + "/" + (l.instance + " " + l.message))
    ensures Format(l) == line
  {
    var rest := l.name + "/" + (l.instance + " " + l.message);
    assert line[..21] == Stamp(l.date, l.clock) by {
      assert forall k :: 0 <= k < 21 ==> line[..21][k] == Stamp(l.date, l.clock)[k];
    }
    assert line == line[..21] + line[21..];
    assert Format(l) == Stamp(l.date, l.clock) + (l.kind + "/" + rest);
  }

  lemma BodyBack(line: string)
    requires Parse(line).Some?
    ensures var l := Parse(line).value;
            line[21..] == l.kind + "/" + (l.name + "/" + (l.instance + " " + l.message))
  {
    var l := Parse(line).value;
    var s1 := Split1(line[21..], '/').value;
    var s2 := Split1(s1.1, '/').value;
    var s3 := Split1(s2.1, ' ').value;
    assert l.kind == s1.0 && l.name == s2.0 && l.instance == s3.0 && l.message == s3.1;
  }

  /** The number of digits in `s` from index `i` on. */
  function DigitsFrom(s: string, i: nat): (n: nat)
    requires i <= |s|
    ensures i + n <= |s|
    decreases |s| - i
  {
    if i == |s| || !IsDigit(s[i]) then 0 else 1 + DigitsFrom(s, i + 1)
  }

  /** The length of the `ESC [ digits ; digits H` that starts at index `i`
      of `s`, or 0 when there is none there. */
  function EscapeFrom(s: string, i: nat): (n: nat)
    requires i <= |s|
    ensures i + n <= |s|
  {
    if i + 2 > |s| || s[i] != '\U{001B}' || s[i + 1] != '[' then 0
    else
      var d1 := DigitsFrom(s, i + 2);
      var j := i + 2 + d1;
      if d1 == 0 || j >= |s| || s[j] != ';' then 0
      else
        var d2 := DigitsFrom(s, j + 1);
        var k := j + 1 + d2;
        if d2 == 0 || k >= |s| || s[k] != 'H' then 0
        else k + 1 - i
  }

  /** `ReplaceAllString(s, "")` for the pattern, from index `i` on: scanning
      left to right, every sequence that starts where the scan stands is
      deleted and the scan goes on after it; what the deletion joins together
      is not scanned again. */
  function StripFrom(s: string, i: nat): (r: string)
    requires i <= |s|
    ensures |r| <= |s| - i
    decreases |s| - i
  {
    if i == |s| then []
    else
      var n := EscapeFrom(s, i);
      if n > 0 then StripFrom(s, i + n)
      else [s[i]] + StripFrom(s, i + 1)
  }

  function StripAnsi(s: string): (r: string)
  {
    StripFrom(s, 0)
  }

  /** `stripANSIScreenCommands`: the replacement loop of the regular
      expression, run for the one pattern. */
  method StripANSIScreenCommands(data: string) returns (r: string)
    ensures r == StripAnsi(data)
  {
    r := [];
    var i := 0;
    while i < |data|
      invariant i <= |data|
      invariant r + StripFrom(data, i) == StripAnsi(data)
      decreases |data| - i
    {
      var n := EscapeFrom(data, i);
      if n > 0 {
        var k := i + n;
        StripFromSkip(data, i, k);
        i := k;
      } else {
        var k := i + 1;
        StripFromKeep(data, i, k);
        assert r + ([data[i]] + StripFrom(data, k)) == (r + [data[i]]) + StripFrom(data, k);
        r := r + [data[i]];
        i := k;
      }
    }
  }

  /** A cursor-positioning sequence with the given row and column digits. */
  function Escape(row: string, col: string): string
  {
    "\U{001B}[" + row + ";" + col + "H"
  }

  predicate AllDigits(s: string)
  {
    forall k :: 0 <= k < |s| ==> IsDigit(s[k])
  }

  lemma {:induction false} DigitsFromAt(s: string, i: nat, n: nat)
    requires i + n <= |s| && forall k :: i <= k < i + n ==> IsDigit(s[k])
    requires i + n == |s| || !IsDigit(s[i + n])
    ensures DigitsFrom(s, i) == n
    decreases n
  {
    if n > 0 {
      DigitsFromAt(s, i + 1, n - 1);
    }
  }

  /** The sequence is recognised in full where it stands. */
  lemma EscapeFromOf(a: string, row: string, col: string, b: string)
    requires row != [] && col != [] && AllDigits(row) && AllDigits(col)
    ensures EscapeFrom(a + Escape(row, col) + b, |a|) == |Escape(row, col)|
  {
    var s := a + Escape(row, col) + b;
    var i := |a|;
    assert s[i] == '\U{001B}' && s[i + 1] == '[';
    assert forall k :: i + 2 <= k < i + 2 + |row| ==> s[k] == row[k - i - 2];
    assert s[i + 2 + |row|] == ';';
    DigitsFromAt(s, i + 2, |row|);
    var j := i + 3 + |row|;
    assert forall k :: j <= k < j + |col| ==> s[k] == col[k - j];
    assert s[j + |col|] == 'H';
    DigitsFromAt(s, j, |col|);
  }

  /** One step of the scan: a sequence at `i` is skipped whole. */
  lemma StripFromSkip(s: string, i: nat, k: nat)
    requires i < |s| && EscapeFrom(s, i) > 0 && k == i + EscapeFrom(s, i)
    ensures StripFrom(s, i) == StripFrom(s, k)
  {
  }

  /** One step of the scan: any other character is kept. */
  lemma StripFromKeep(s: string, i: nat, k: nat)
    requires i < |s| && EscapeFrom(s, i) == 0 && k == i + 1
    ensures StripFrom(s, i) == [s[i]] + StripFrom(s, k)
  {
  }

  /** Text without ESC from index `i` to index `m` is kept as it is. */
  lemma {:induction false} StripFromPlain(s: string, i: nat, m: nat)
    requires i <= m <= |s|
    requires forall k :: i <= k < m ==> s[k] != '\U{001B}'
    ensures StripFrom(s, i) == s[i..m] + StripFrom(s, m)
    decreases m - i
  {
    if i < m {
      var i1 := i + 1;
      assert EscapeFrom(s, i) == 0 by { assert s[i] != '\U{001B}'; }
      StripFromKeep(s, i, i1);
      StripFromPlain(s, i1, m);
      ConsAppend(StripFrom(s, i), s[i], StripFrom(s, i1), s[i1..m], StripFrom(s, m));
      assert s[i..m] == [s[i]] + s[i1..m];
    }
  }

  lemma ConsAppend(x: string, c: char, y: string, p: string, r: string)
    requires x == [c] + y && y == p + r
    ensures x == ([c] + p) + r
  {
  }

  lemma JoinAppend(x: string, p: string, y: string, z: string, a: string)
    requires x == p + y && y == z && p == a
    ensures x == a + z
  {
  }

  /** Text without ESC is left as it is. */
  lemma StripAnsiPlain(s: string)
    requires '\U{001B}' !in s
    ensures StripAnsi(s) == s
  {
    StripFromPlain(s, 0, |s|);
    assert s[0..|s|] == s;
  }

  /** Plain text before a sequence is kept, the sequence is deleted, and
      stripping resumes right after it. */
  lemma StripAnsiSkips(a: string, row: string, col: string, b: string)
    requires '\U{001B}' !in a
    requires row != [] && col != [] && AllDigits(row) && AllDigits(col)
    ensures var s := a + Escape(row, col) + b;
            StripAnsi(s) == a + StripFrom(s, |a + Escape(row, col)|)
  {
    var e := Escape(row, col);
    var s := a + e + b;
    var i, k := |a|, |a + e|;
    assert forall j :: 0 <= j < i ==> s[j] == a[j];
    StripFromPlain(s, 0, i);
    EscapeFromOf(a, row, col, b);
    StripFromSkip(s, i, k);
    assert s[0..i] == a;
    JoinAppend(StripFrom(s, 0), s[0..i], StripFrom(s, i), StripFrom(s, k), a);
  }

  /** `Hello ESC[1;1H World` becomes `HelloWorld`. */
  lemma StripExample(line: string)
    requires line == "Hello\U{001B}[1;1HWorld"
    ensures StripAnsi(line) == "HelloWorld"
  {
    var hello, world := "Hello", "World";
    assert hello + Escape("1", "1") + world == line;
    StripAnsiSkips(hello, "1", "1", world);
    assert forall k :: 11 <= k < |line| ==> line[k] != '\U{001B}';
    StripFromPlain(line, 11, |line|);
    assert line[11..] == world;
  }

  /** A line written under a service's name. */
  datatype Output = Output(key: string, text: string)

  /** The routing of one line: a `service` line goes out, stripped, under
      its service name; a `system` line goes out as it is under the part of
      the instance before its first '-'; either only when that name is one of
      the running services. Everything else is dropped. */
  function Route(line: string, services: set<string>): (r: Option<Output>)
    ensures r.Some? ==> r.value.key in services && Parse(line).Some?
  {
    match Parse(line)
    case None => None
    case Some(l) =>
      if l.kind == "service" then
        if l.name in services then Some(Output(l.name, StripAnsi(l.message) + "\n")) else None
      else if l.kind == "system" then
        var key := Before(l.instance, {'-'});
        if key in services then Some(Output(key, l.message + "\n")) else None
      else None
  }

  /** Routing of every kind of well-formed line, stated on the line's
      groups. */
  lemma RouteOf(l: LogLine, services: set<string>)
    requires l.WellFormed()
    ensures l.kind == "service" ==>
              Route(Format(l), services) == if l.name in services then Some(Output(l.name, StripAnsi(l.message) + "\n")) else None
    ensures l.kind == "system" ==>
              var key := Before(l.instance, {'-'});
              Route(Format(l), services) == if key in services then Some(Output(key, l.message + "\n")) else None
    ensures l.kind != "service" && l.kind != "system" ==> Route(Format(l), services) == None
  {
    ParseFormat(l);
  }

  /** What the loop writes for the given lines, in order. */
  function RouteAll(lines: seq<string>, services: set<string>): (out: seq<Output>)
    ensures |out| <= |lines|
    ensures forall k :: 0 <= k < |out| ==> out[k].key in services
    decreases |lines|
  {
    if lines == [] then []
    else
      var prev := RouteAll(lines[..|lines| - 1], services);
      match Route(lines[|lines| - 1], services)
      case None => prev
      case Some(o) => prev + [o]
  }

  /** The lines written for one more line. */
  lemma RouteAllSnoc(lines: seq<string>, i: nat, services: set<string>)
    requires i < |lines|
    ensures RouteAll(lines[..i + 1], services)
            == RouteAll(lines[..i], services) + (if Route(lines[i], services).Some? then [Route(lines[i], services).value] else [])
  {
    assert lines[..i + 1][..i] == lines[..i];
    if Route(lines[i], services).None? {
      assert RouteAll(lines[..i], services) + [] == RouteAll(lines[..i], services);
    }
  }

  /** `writeLogs`: the scanner loop over the stream. */
  method WriteLogs(data: string, services: set<string>) returns (out: seq<Output>)
    ensures out == RouteAll(Lines(data), services)
  {
    var lines := Lines(data);
    out := [];
    for i := 0 to |lines|
      invariant out == RouteAll(lines[..i], services)
    {
      RouteAllSnoc(lines, i, services);
      var l := Parse(lines[i]);
      if l.None? {
        continue;
      }
      var m := l.value;
      if m.kind == "service" {
        if m.name !in services {
          continue;
        }
        var stripped := StripANSIScreenCommands(m.message);
        out := out + [Output(m.name, stripped + "\n")];
      } else if m.kind == "system" {
        var service := Before(m.instance, {'-'});
        if service !in services {
          continue;
        }
        out := out + [Output(service, m.message + "\n")];
      }
    }
    assert lines[..|lines|] == lines;
  }
}
