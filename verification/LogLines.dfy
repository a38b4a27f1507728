/** dev's log streaming: lines read from an instance's output, however the reads chunk it, each written to one sink
    under the instance's function name. */
module LogLines {
  import opened LogBuffer

  const PALETTE: seq<string> := ["36", "33", "35", "32", "34", "31", "96", "93"]

  /** The lines of a text with their newlines; a last line may lack one, and no line is empty. */
  function Lines(s: string): (lines: seq<string>)
    ensures forall k :: 0 <= k < |lines| ==> lines[k] != "" && '\n' !in lines[k][..|lines[k]| - 1]
    ensures forall k :: 0 <= k < |lines| - 1 ==> lines[k][|lines[k]| - 1] == '\n'
  {
    if s == "" then [] else
      var n := LineLength(s);
      [s[..n]] + Lines(s[n..])
  }

  function LineLength(s: string): (n: nat)
    requires s != ""
    ensures 0 < n <= |s| && '\n' !in s[..n - 1] && (n < |s| ==> s[n - 1] == '\n')
  {
    if s[0] == '\n' || |s| == 1 then 1 else
      var n := LineLength(s[1..]);
      assert s[..n] == [s[0]] + s[1..][..n - 1];
      n + 1
  }

  /** Together the lines are the text. */
  lemma {:induction false} LinesJoin(s: string)
    ensures Concat(Lines(s)) == s
  {
    if s != "" {
      var n := LineLength(s);
      LinesJoin(s[n..]);
      ConcatAppend([s[..n]], Lines(s[n..]));
      ConcatOne(s[..n]);
      SplitBack(s, n);
    }
  }

  lemma SplitBack(s: string, n: nat)
    requires n <= |s|
    ensures s[..n] + s[n..] == s
  {
  }

  lemma ConcatOne(s: string)
    ensures Concat([s]) == s
  {
    assert [s][..0] == [];
    assert "" + s == s;
  }

  lemma {:induction false} ConcatAppend(a: seq<string>, b: seq<string>)
    ensures Concat(a + b) == Concat(a) + Concat(b)
  {
    if b == [] {
      assert a + b == a;
    } else {
      ConcatAppend(a, b[..|b| - 1]);
      assert (a + b)[..|a + b| - 1] == a + b[..|b| - 1];
    }
  }

  /** strings.TrimRight(line, "\r\n"). */
  function TrimRight(s: string): string {
    if s != "" && s[|s| - 1] in {'\r', '\n'} then TrimRight(s[..|s| - 1]) else s
  }

  function Format(name: string, line: string, color: string, colored: bool): string {
    if colored then "\U{001B}[" + color + "m[" + name + "]\U{001B}[0m " + line + "\n" else "[" + name + "] " + line + "\n"
  }

  /** What is written to the sink for a text: one write a line. */
  function Printed(name: string, text: string, color: string, colored: bool): seq<string> {
    PrintAll(name, Lines(text), color, colored)
  }

  function PrintAll(name: string, lines: seq<string>, color: string, colored: bool): seq<string> {
    if lines == [] then []
    else [Format(name, TrimRight(lines[0]), color, colored)] + PrintAll(name, lines[1..], color, colored)
  }

  /** What is written for one line: the prefix, the line without the '\r' and '\n' at its end, and one newline. */
  predicate IsPrintOf(write: string, name: string, line: string, color: string, colored: bool) {
    exists n :: 0 <= n <= |line| && IsBody(line, n) && write == Prefix(name, color, colored) + line[..n] + "\n"
  }

  predicate IsBody(line: string, n: nat)
    requires n <= |line|
  {
    && (forall i :: n <= i < |line| ==> line[i] == '\r' || line[i] == '\n')
    && (n > 0 ==> line[n - 1] != '\r' && line[n - 1] != '\n')
  }

  function Prefix(name: string, color: string, colored: bool): string {
    if colored then "\U{001B}[" + color + "m[" + name + "]\U{001B}[0m " else "[" + name + "] "
  }

  lemma {:induction false} TrimmedIsBody(s: string)
    ensures TrimRight(s) <= s && IsBody(s, |TrimRight(s)|)
  {
    if s != "" && s[|s| - 1] in {'\r', '\n'} { TrimmedIsBody(s[..|s| - 1]); }
  }

  lemma {:induction false} PrintAllIsPrint(name: string, lines: seq<string>, color: string, colored: bool)
    ensures AllPrinted(PrintAll(name, lines, color, colored), name, lines, color, colored)
  {
    if lines != [] {
      PrintAllIsPrint(name, lines[1..], color, colored);
      var n := |TrimRight(lines[0])|;
      TrimmedIsBody(lines[0]);
      assert Format(name, TrimRight(lines[0]), color, colored) == Prefix(name, color, colored) + lines[0][..n] + "\n";
      assert forall k :: 0 < k < |lines| ==> lines[k] == lines[1..][k - 1];
    }
  }

  /** One write a line, in order. */
  predicate AllPrinted(writes: seq<string>, name: string, lines: seq<string>, color: string, colored: bool) {
    |writes| == |lines| && forall k :: 0 <= k < |lines| ==> IsPrintOf(writes[k], name, lines[k], color, colored)
  }

  /** Concat, from the front. */
  lemma ConcatFront(parts: seq<string>)
    requires parts != []
    ensures Concat(parts) == parts[0] + Concat(parts[1..])
  {
    ConcatAppend([parts[0]], parts[1..]);
    assert [parts[0]] + parts[1..] == parts;
    assert [parts[0]][..0] == [];
  }

  /** bufio.Reader over a reader whose Reads return the given chunks and then EOF. */
  class LineReader {
    const chunks: seq<string>
    var next: nat
    var buffered: string

    predicate Valid()
      reads this
    {
      next <= |chunks|
    }

    ghost function Rest(): string
      requires Valid()
      reads this
    {
      buffered + Concat(chunks[next..])
    }

    constructor (chunks: seq<string>)
      ensures Valid() && Rest() == Concat(chunks) && this.chunks == chunks
    {
      this.chunks, next, buffered := chunks, 0, "";
      new;
      assert chunks[0..] == chunks;
    }

    /** ReadString('\n'): the next line with its newline, or at the end whatever is left and EOF. */
    method ReadString() returns (line: string, eof: bool)
      requires Valid()
      modifies this
      ensures Valid() && old(Rest()) == line + Rest()
      ensures eof <==> '\n' !in line
      ensures eof ==> Rest() == ""
      ensures !eof ==> line != "" && line[|line| - 1] == '\n' && '\n' !in line[..|line| - 1]
    {
      while '\n' !in buffered && next < |chunks|
        invariant Valid() && Rest() == old(Rest())
        decreases |chunks| - next
      {
        ConcatFront(chunks[next..]);
        assert chunks[next..][1..] == chunks[next + 1..];
        buffered := buffered + chunks[next];
        next := next + 1;
      }
      if '\n' in buffered {
        var n := LineLength(buffered);
        line, eof := buffered[..n], false;
        assert buffered == buffered[..n] + buffered[n..];
        if n == |buffered| {
          assert buffered == buffered[..n - 1] + [buffered[n - 1]];
        }
        buffered := buffered[n..];
      } else {
        line, eof := buffered, true;
        assert chunks[next..] == [];
        buffered := "";
      }
    }
  }

  lemma FirstLine(line: string, rest: string)
    requires line != "" && '\n' !in line[..|line| - 1]
    requires line[|line| - 1] == '\n' || rest == ""
    ensures Lines(line + rest) == [line] + Lines(rest)
  {
    FirstLineLength(line, rest);
    assert (line + rest)[..|line|] == line && (line + rest)[|line|..] == rest;
  }

  lemma {:induction false} FirstLineLength(line: string, rest: string)
    requires line != "" && '\n' !in line[..|line| - 1]
    requires line[|line| - 1] == '\n' || rest == ""
    ensures LineLength(line + rest) == |line|
  {
    if |line| > 1 {
      assert line[..|line| - 1][0] == line[0];
      assert line[1..][..|line| - 2] == line[..|line| - 1][1..];
      FirstLineLength(line[1..], rest);
      assert (line + rest)[1..] == line[1..] + rest;
    }
  }

  lemma PrintAllFirst(name: string, line: string, lines: seq<string>, color: string, colored: bool)
    ensures PrintAll(name, [line] + lines, color, colored)
         == [Format(name, TrimRight(line), color, colored)] + PrintAll(name, lines, color, colored)
  {
    assert ([line] + lines)[1..] == lines;
  }

  lemma Reassociate<T>(a: seq<T>, x: T, b: seq<T>)
    ensures a + ([x] + b) == (a + [x]) + b
  {
  }

  /** Printing the first line and then the rest. */
  lemma PrintedFirst(name: string, line: string, rest: string, color: string, colored: bool, done: seq<string>)
    requires line != "" && '\n' !in line[..|line| - 1]
    requires line[|line| - 1] == '\n' || rest == ""
    ensures done + Printed(name, line + rest, color, colored)
         == (done + [Format(name, TrimRight(line), color, colored)]) + Printed(name, rest, color, colored)
  {
    FirstLine(line, rest);
    PrintAllFirst(name, line, Lines(rest), color, colored);
    Reassociate(done, Format(name, TrimRight(line), color, colored), Printed(name, rest, color, colored));
  }

  class LogStreamer {
    const colored: bool
    var sink: seq<string>             // one element for each write
    var colors: map<string, string>
    var next: nat
    ghost var order: seq<string>      // the names in the order they were first seen

    ghost predicate Valid()
      reads this
    {
      && next == |order|
      && (forall i, j :: 0 <= i < j < |order| ==> order[i] != order[j])
      && (forall n :: n in colors <==> n in order)
      && (forall i :: 0 <= i < |order| ==> order[i] in colors && colors[order[i]] == PALETTE[i % 8])
    }

    constructor (colored: bool)
      ensures Valid() && sink == [] && order == [] && this.colored == colored
    {
      this.colored := colored;
      sink, colors, next, order := [], map[], 0, [];
    }

    /** A name keeps the color it got when it was first seen; the names of any eight in a row differ in color. */
    method ColorFor(name: string) returns (color: string)
      requires Valid()
      modifies this`colors, this`next, this`order
      ensures Valid() && name in colors && colors[name] == color
      ensures name in old(colors) ==> colors == old(colors) && order == old(order)
      ensures name !in old(colors) ==> order == old(order) + [name] && colors == old(colors)[name := color]
    {
      if name in colors { return colors[name]; }
      color := PALETTE[next % |PALETTE|];
      next := next + 1;
      colors := colors[name := color];
      order := order + [name];
    }

    method WriteLine(name: string, line: string, color: string)
      modifies this`sink
      ensures sink == old(sink) + [Format(name, line, color, colored)]
    {
      sink := sink + [Format(name, line, color, colored)];
    }

    /** stream: what is printed depends only on the bytes, not on how the reads chunked them. */
    method Stream(name: string, chunks: seq<string>)
      requires Valid()
      modifies this
      ensures Valid() && name in colors && (name in old(colors) ==> colors == old(colors))
      ensures old(sink) <= sink
      ensures AllPrinted(sink[|old(sink)|..], name, Lines(Concat(chunks)), colors[name], colored)
    {
      ghost var was := sink;
      var color := ColorFor(name);
      var br := new LineReader(chunks);
      var eof := false;
      ghost var all := sink + Printed(name, Concat(chunks), color, colored);
      while !eof
        invariant fresh(br) && br.Valid() && Valid() && name in colors && colors[name] == color
        invariant name in old(colors) ==> colors == old(colors)
        invariant eof ==> br.Rest() == ""
        invariant sink + Printed(name, br.Rest(), color, colored) == all
        decreases !eof, |br.Rest()|
      {
        var line;
        line, eof := br.ReadString();
        if line != "" {
          PrintedFirst(name, line, br.Rest(), color, colored, sink);
          WriteLine(name, TrimRight(line), color);
        } else {
          assert line + br.Rest() == br.Rest();
        }
      }
      PrintAllIsPrint(name, Lines(Concat(chunks)), color, colored);
      assert sink == was + Printed(name, Concat(chunks), color, colored);
    }

    /** stream, of a reader of a log buffer that has come to its EOF: what is printed is everything that was written, in
        whatever pieces the process wrote it and the reader got it. */
    method StreamBuffer(name: string, chunks: seq<string>, ghost states: seq<State>, ghost who: seq<Tid>, ghost k: nat,
                        ghost t: Tid)
      requires Valid() && Run(states, who) && CloseIsLast(states) && k < |states| && t in states[k].threads
      requires states[k].threads[t].ended && states[k].threads[t].pc.Idle? && chunks == states[k].threads[t].chunks
      modifies this
      ensures Valid() && name in colors
      ensures old(sink) <= sink
      ensures AllPrinted(sink[|old(sink)|..], name, Lines(LogBuffer.Concat(states[k].written)), colors[name], colored)
    {
      ReaderThatEndedHasAll(states, who, k, t);
      Stream(name, chunks);
    }
  }

  /** Two functions among any eight first seen in a row have different colors. */
  lemma NeighboursDiffer(s: LogStreamer, i: nat, j: nat)
    requires s.Valid() && i < j < |s.order| && j - i < 8
    ensures s.colors[s.order[i]] != s.colors[s.order[j]]
  {
    assert i % 8 != j % 8;
  }
}
