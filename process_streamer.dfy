/**
 * The process streamer (stream_process in terravision/app.py).
 *
 * The child's standard output and standard error are two pipes, and each one
 * holds the text the child writes to it. The generator reads standard output
 * line by line until readline gives "" (end of file), and only then does the
 * same for standard error. So every stdout line comes before every stderr line,
 * whatever order the child wrote them in.
 */
module ProcessStreamer {

  /** How much of s one readline() takes: up to and including the first newline, or all of s. */
  function LineLength(s: string): (n: nat)
    ensures n <= |s|
    ensures |s| > 0 ==> n > 0
  {
    if s == [] then 0
    else if s[0] == '\n' then 1
    else 1 + LineLength(s[1..])
  }

  /** readline() stops at the first newline: none comes before the end of the line, and one ends it unless the text ran out. */
  lemma {:induction false} LineLengthStopsAtNewline(s: string)
    decreases |s|
    ensures var n := LineLength(s);
      && (forall i :: 0 <= i < n - 1 ==> s[i] != '\n')
      && (0 < n < |s| ==> s[n - 1] == '\n')
  {
    if s != [] && s[0] != '\n' {
      LineLengthStopsAtNewline(s[1..]);
      var n := LineLength(s);
      assert forall i :: 1 <= i < n - 1 ==> s[i] == s[1..][i - 1];
    }
  }

  /** The lines readline() returns, one after the other, until the text runs out. */
  function Lines(s: string): seq<string>
    decreases |s|
  {
    if s == [] then []
    else [s[..LineLength(s)]] + Lines(s[LineLength(s)..])
  }

  function Concat(ls: seq<string>): string
  {
    if ls == [] then "" else ls[0] + Concat(ls[1..])
  }

  /** A line as readline() returns it: not empty, with a newline at most as its last character. */
  ghost predicate IsLine(l: string)
  {
    |l| > 0 && forall i :: 0 <= i < |l| - 1 ==> l[i] != '\n'
  }

  /** A sequence readline() could have produced: lines, each but the last ending in a newline. */
  ghost predicate WellFormed(ls: seq<string>)
  {
    && (forall i :: 0 <= i < |ls| ==> IsLine(ls[i]))
    && (forall i :: 0 <= i < |ls| - 1 ==> ls[i][|ls[i]| - 1] == '\n')
  }

  lemma {:induction false} ConcatAppend(a: seq<string>, b: seq<string>)
    ensures Concat(a + b) == Concat(a) + Concat(b)
  {
    if a == [] {
      assert a + b == b;
    } else {
      assert (a + b)[0] == a[0] && (a + b)[1..] == a[1..] + b;
      ConcatAppend(a[1..], b);
      assert Concat(a + b) == a[0] + (Concat(a[1..]) + Concat(b));
    }
  }

  /** Reading a text line by line loses nothing and adds nothing. */
  lemma {:induction false} ConcatLines(s: string)
    decreases |s|
    ensures Concat(Lines(s)) == s
  {
    if s != [] {
      var n := LineLength(s);
      ConcatLines(s[n..]);
      assert s[..n] + s[n..] == s;
    }
  }

  /** What readline() returns has the shape of lines. */
  lemma {:induction false} LinesWellFormed(s: string)
    decreases |s|
    ensures WellFormed(Lines(s))
  {
    if s != [] {
      var n := LineLength(s);
      LineLengthStopsAtNewline(s);
      LinesWellFormed(s[n..]);
      var ls := Lines(s);
      assert ls[0] == s[..n];
      assert forall i :: 0 < i < |ls| ==> ls[i] == Lines(s[n..])[i - 1];
      if |ls| > 1 {
        assert n < |s|;
      }
    }
  }

  /** Splitting a joined sequence of lines gives the same lines back. */
  lemma {:induction false} LinesOfConcat(ls: seq<string>)
    requires WellFormed(ls)
    ensures Lines(Concat(ls)) == ls
  {
    if ls != [] {
      var s := Concat(ls);
      var l := ls[0];
      assert WellFormed(ls[1..]) by {
        assert forall i :: 0 <= i < |ls| - 1 ==> ls[1..][i] == ls[i + 1];
      }
      LinesOfConcat(ls[1..]);
      assert s == l + Concat(ls[1..]);
      assert LineLength(s) == |l| by {
        LineLengthOfLine(l, Concat(ls[1..]), |ls| == 1);
      }
      assert s[..|l|] == l && s[|l|..] == Concat(ls[1..]);
    }
  }

  lemma {:induction false} LineLengthOfLine(l: string, rest: string, last: bool)
    requires IsLine(l)
    requires last ==> rest == []
    requires !last ==> l[|l| - 1] == '\n'
    decreases |l|
    ensures LineLength(l + rest) == |l|
  {
    if |l| > 1 {
      assert (l + rest)[1..] == l[1..] + rest;
      LineLengthOfLine(l[1..], rest, last);
    } else if !last {
      assert (l + rest)[0] == '\n';
    } else {
      assert l + rest == l;
    }
  }

  /**
   * The order stream_process yields: all of standard output, then all of
   * standard error. The two never interleave and nothing is lost: the yielded
   * text is exactly stdout followed by stderr.
   */
  lemma StreamOrder(stdout: string, stderr: string)
    ensures var ys := Lines(stdout) + Lines(stderr);
      && Concat(ys) == stdout + stderr
      && Concat(ys[..|Lines(stdout)|]) == stdout
      && Concat(ys[|Lines(stdout)|..]) == stderr
  {
    var ys := Lines(stdout) + Lines(stderr);
    ConcatLines(stdout);
    ConcatLines(stderr);
    ConcatAppend(Lines(stdout), Lines(stderr));
    assert ys[..|Lines(stdout)|] == Lines(stdout);
    assert ys[|Lines(stdout)|..] == Lines(stderr);
  }

  lemma {:induction false} LineLengthPrefix(a: string, b: string)
    requires LineLength(a) > 0 && a[LineLength(a) - 1] == '\n'
    decreases |a|
    ensures LineLength(a + b) == LineLength(a)
  {
    if a[0] != '\n' {
      assert (a + b)[1..] == a[1..] + b;
      LineLengthPrefix(a[1..], b);
    }
  }

  /** After a line that ends in a newline, reading goes on in what follows as if it started there. */
  lemma LinesAfterTerminatedLine(a: string, b: string)
    requires a != [] && a[|a| - 1] == '\n'
    ensures var n := LineLength(a);
      && Lines(a) == [a[..n]] + Lines(a[n..])
      && Lines(a + b) == [a[..n]] + Lines(a[n..] + b)
      && (a[n..] == [] || a[n..][|a[n..]| - 1] == '\n')
  {
    var n := LineLength(a);
    LineLengthStopsAtNewline(a);
    LineLengthPrefix(a, b);
    assert (a + b)[..n] == a[..n];
    assert (a + b)[n..] == a[n..] + b;
    assert a[n..] != [] ==> a[n..][|a[n..]| - 1] == a[|a| - 1];
  }

  /**
   * When standard output is empty or ends with a newline, the yielded lines are
   * those of the combined text. Otherwise, if standard error is not empty,
   * stdout's unterminated last line and stderr's first line are yielded as two
   * separate lines (UnterminatedLineStaysSeparate).
   */
  lemma {:induction false} LinesAppend(a: string, b: string)
    requires a == [] || a[|a| - 1] == '\n'
    decreases |a|
    ensures Lines(a + b) == Lines(a) + Lines(b)
  {
    if a == [] {
      assert a + b == b;
    } else {
      var n := LineLength(a);
      var head, tail := a[..n], a[n..];
      LinesAfterTerminatedLine(a, b);
      LinesAppend(tail, b);
      assert [head] + (Lines(tail) + Lines(b)) == ([head] + Lines(tail)) + Lines(b);
    }
  }

  /** The newline condition of LinesAppend is needed: an unterminated stdout line is not joined to stderr's first line. */
  lemma UnterminatedLineStaysSeparate()
    ensures Lines("a") + Lines("b") == ["a", "b"]
    ensures Lines("a" + "b") == ["ab"]
  {
    assert LineLength("a") == 1 && "a"[..1] == "a" && "a"[1..] == "";
    assert LineLength("b") == 1 && "b"[..1] == "b" && "b"[1..] == "";
    assert "a" + "b" == "ab";
    assert "ab"[1..] == "b";
    assert LineLength("ab") == 2 && "ab"[..2] == "ab" && "ab"[2..] == "";
  }

  /** One end of a pipe from the child: everything the child writes, and how far it has been read. */
  class Pipe {
    const text: string
    var pos: nat

    ghost predicate Valid()
      reads this
    {
      pos <= |text|
    }

    /** What is still to be read. */
    function Unread(): string
      reads this
      requires Valid()
    {
      text[pos..]
    }

    constructor (text: string)
      ensures Valid() && Unread() == text
    {
      this.text := text;
      pos := 0;
    }

    /** readline(): the next line including its newline, or "" at end of file. */
    method ReadLine() returns (line: string)
      requires Valid()
      modifies this
      ensures Valid()
      ensures line == old(Unread())[..LineLength(old(Unread()))]
      ensures Unread() == old(Unread())[LineLength(old(Unread()))..]
    {
      var j := pos;
      while j < |text| && text[j] != '\n'
        invariant pos <= j <= |text|
        invariant LineLength(text[pos..]) == (j - pos) + LineLength(text[j..])
      {
        assert text[j..][1..] == text[j + 1..];
        j := j + 1;
      }
      var end := if j < |text| then j + 1 else j;
      line := text[pos..end];
      pos := end;
    }
  }

  /** One `for line in iter(pipe.readline, "")` loop: the lines read until end of file. */
  method Drain(pipe: Pipe) returns (lines: seq<string>)
    requires pipe.Valid()
    modifies pipe
    ensures pipe.Valid() && pipe.Unread() == []
    ensures lines == Lines(old(pipe.Unread()))
  {
    lines := [];
    while true
      invariant pipe.Valid()
      invariant Lines(old(pipe.Unread())) == lines + Lines(pipe.Unread())
      decreases |pipe.Unread()|
    {
      var line := pipe.ReadLine();
      if line == "" {
        break;
      }
      lines := lines + [line];
    }
  }

  /** stream_process, with the process replaced by its two pipes: the lines it yields, in order. */
  method StreamProcess(stdout: Pipe, stderr: Pipe) returns (yielded: seq<string>)
    requires stdout.Valid() && stderr.Valid() && stdout != stderr
    modifies stdout, stderr
    ensures stdout.Valid() && stderr.Valid()
    ensures yielded == Lines(old(stdout.Unread())) + Lines(old(stderr.Unread()))
    ensures stdout.Unread() == [] && stderr.Unread() == []
  {
    var fromStdout := Drain(stdout);
    var fromStderr := Drain(stderr);
    yielded := fromStdout + fromStderr;
  }
}
