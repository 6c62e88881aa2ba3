/**
 * The console panel's state (useConsole in lib/useConsole.tsx).
 *
 * The panel keeps one output string. Clearing sets it to "". Streaming reads
 * chunks from a reader until it reports done; each chunk has its ANSI colour
 * and cursor codes removed and is then appended. The codes removed are the
 * matches of the regular expression ESC \[ [0-9;]* [mG], found by a
 * left-to-right, non-overlapping scan.
 */
module ConsoleOutput {

  /** The escape character, code 27. */
  const Esc: char := 27 as char

  /** A character of the parameter part: a digit or ';'. */
  predicate IsParam(c: char)
  {
    '0' <= c <= '9' || c == ';'
  }

  /** The closing character of a removed sequence: 'm' (colour) or 'G' (cursor column). */
  predicate IsFinal(c: char)
  {
    c == 'm' || c == 'G'
  }

  /** How many parameter characters s starts with. */
  function ParamRun(s: string): (n: nat)
    ensures n <= |s|
    ensures forall i :: 0 <= i < n ==> IsParam(s[i])
    ensures n < |s| ==> !IsParam(s[n])
  {
    if s != [] && IsParam(s[0]) then 1 + ParamRun(s[1..]) else 0
  }

  /** The length of the match of the regular expression at the start of s, or 0 when it does not match there. */
  function EscapeLength(s: string): (n: nat)
    ensures n == 0 || 3 <= n <= |s|
  {
    if 2 <= |s| && s[0] == Esc && s[1] == '[' then
      var k := 2 + ParamRun(s[2..]);
      if k < |s| && IsFinal(s[k]) then k + 1 else 0
    else 0
  }

  /** The strings the regular expression ESC \[ [0-9;]* [mG] matches. */
  ghost predicate IsEscapeSequence(t: string)
  {
    && |t| >= 3
    && t[0] == Esc && t[1] == '['
    && IsFinal(t[|t| - 1])
    && forall i :: 2 <= i < |t| - 1 ==> IsParam(t[i])
  }

  /** No prefix of t is a match: the scan keeps the first character of t. */
  ghost predicate NoMatchAt(t: string)
  {
    forall n :: 0 <= n <= |t| ==> !IsEscapeSequence(t[..n])
  }

  /** EscapeLength finds the match at the start of s, and there is at most one. */
  lemma EscapeLengthMatches(s: string)
    ensures EscapeLength(s) > 0 ==> IsEscapeSequence(s[..EscapeLength(s)])
    ensures forall n :: 0 <= n <= |s| && IsEscapeSequence(s[..n]) ==> n == EscapeLength(s)
    ensures EscapeLength(s) == 0 ==> NoMatchAt(s)
  {
    forall n | 0 <= n <= |s| && IsEscapeSequence(s[..n])
      ensures n == EscapeLength(s)
    {
      var t := s[2..];
      assert forall i :: 0 <= i < n - 3 ==> t[i] == s[..n][i + 2];
      assert t[n - 3] == s[..n][n - 1];
    }
    var n := EscapeLength(s);
    if n > 0 {
      var t := s[..n];
      forall i | 2 <= i < n - 1
        ensures IsParam(t[i])
      {
        assert t[i] == s[2..][i - 2];
      }
    }
  }

  /** text.replace(ansiRegex, ''): scan left to right, drop each match and keep every other character. */
  function Strip(s: string): string
    decreases |s|
  {
    if s == [] then ""
    else if EscapeLength(s) > 0 then Strip(s[EscapeLength(s)..])
    else [s[0]] + Strip(s[1..])
  }

  /** One step of the scan: a kept character or a removed match. */
  datatype Piece = Kept(c: char) | Removed(sequence: string)

  function Join(ps: seq<Piece>): string
  {
    if ps == [] then ""
    else (match ps[0] case Kept(c) => [c] case Removed(t) => t) + Join(ps[1..])
  }

  function KeptText(ps: seq<Piece>): string
  {
    if ps == [] then ""
    else (match ps[0] case Kept(c) => [c] case Removed(_) => "") + KeptText(ps[1..])
  }

  /** Joining and keeping distribute over a leading piece, and the suffixes after it are the suffixes of the rest. */
  lemma PiecesCons(head: Piece, rest: seq<Piece>)
    ensures var ps := [head] + rest;
      && Join(ps) == Join([head]) + Join(rest)
      && KeptText(ps) == KeptText([head]) + KeptText(rest)
      && forall i :: 0 < i < |ps| ==> ps[i] == rest[i - 1] && ps[i..] == rest[i - 1..]
  {
    var ps := [head] + rest;
    assert ps[1..] == rest;
    assert [head][1..] == [];
  }

  /** The scan as pieces: at each position, the match there is removed whole, or else one character is kept. */
  function Scan(s: string): seq<Piece>
    decreases |s|
  {
    if s == [] then []
    else if EscapeLength(s) > 0 then [Removed(s[..EscapeLength(s)])] + Scan(s[EscapeLength(s)..])
    else [Kept(s[0])] + Scan(s[1..])
  }

  /** How many characters the scan consumes at the start of a non-empty s. */
  function StepLength(s: string): (k: nat)
    requires s != []
    ensures 1 <= k <= |s|
  {
    if EscapeLength(s) > 0 then EscapeLength(s) else 1
  }

  /** The pieces of the scan, put back together, are the text. */
  lemma {:induction false} ScanJoins(s: string)
    decreases |s|
    ensures Join(Scan(s)) == s
  {
    if s != [] {
      var k := StepLength(s);
      var head := Scan(s)[0];
      ScanJoins(s[k..]);
      PiecesCons(head, Scan(s[k..]));
      assert Join([head]) == s[..k];
      assert s[..k] + s[k..] == s;
    }
  }

  /** Strip's result is the characters the scan keeps, in order. */
  lemma {:induction false} ScanKeeps(s: string)
    decreases |s|
    ensures Strip(s) == KeptText(Scan(s))
  {
    if s != [] {
      var k := StepLength(s);
      ScanKeeps(s[k..]);
      PiecesCons(Scan(s)[0], Scan(s[k..]));
    }
  }

  /** Every piece the scan removes is a match of the regular expression. */
  lemma {:induction false} ScanRemovesMatches(s: string)
    decreases |s|
    ensures forall i :: 0 <= i < |Scan(s)| && Scan(s)[i].Removed? ==> IsEscapeSequence(Scan(s)[i].sequence)
  {
    if s != [] {
      var k := StepLength(s);
      var ps, rest := Scan(s), Scan(s[k..]);
      ScanRemovesMatches(s[k..]);
      EscapeLengthMatches(s);
      PiecesCons(ps[0], rest);
      forall i | 0 <= i < |ps| && ps[i].Removed?
        ensures IsEscapeSequence(ps[i].sequence)
      {
        if i > 0 {
          assert ps[i] == rest[i - 1];
        }
      }
    }
  }

  /** No match starts where the scan keeps a character: the matches removed are the leftmost ones. */
  lemma {:induction false} ScanKeepsOnlyNonMatches(s: string)
    decreases |s|
    ensures forall i :: 0 <= i < |Scan(s)| && Scan(s)[i].Kept? ==> NoMatchAt(Join(Scan(s)[i..]))
  {
    if s != [] {
      var k := StepLength(s);
      var ps, rest := Scan(s), Scan(s[k..]);
      ScanKeepsOnlyNonMatches(s[k..]);
      PiecesCons(ps[0], rest);
      forall i | 0 <= i < |ps| && ps[i].Kept?
        ensures NoMatchAt(Join(ps[i..]))
      {
        if i == 0 {
          assert ps[i..] == ps;
          ScanJoins(s);
          EscapeLengthMatches(s);
        } else {
          assert ps[i..] == rest[i - 1..];
        }
      }
    }
  }

  /** A chunk without an escape character is appended unchanged. */
  lemma {:induction false} StripNoEscape(s: string)
    requires Esc !in s
    decreases |s|
    ensures Strip(s) == s
  {
    if s != [] {
      assert s[0] != Esc;
      StripNoEscape(s[1..]);
      assert [s[0]] + s[1..] == s;
    }
  }

  /** s is a subsequence of t: t with some characters deleted. */
  ghost predicate IsSubsequence(s: string, t: string)
    decreases |t|
  {
    s == [] || (t != [] && ((s[0] == t[0] && IsSubsequence(s[1..], t[1..])) || IsSubsequence(s, t[1..])))
  }

  lemma {:induction false} SubsequenceOfSuffix(s: string, t: string, k: nat)
    requires k <= |t| && IsSubsequence(s, t[k..])
    decreases k
    ensures IsSubsequence(s, t)
  {
    if k > 0 {
      assert t[k - 1..][1..] == t[k..];
      SubsequenceOfSuffix(s, t, k - 1);
    }
  }

  /** Cleaning only deletes: the cleaned text is a subsequence of the raw text, and no longer. */
  lemma {:induction false} StripIsSubsequence(s: string)
    decreases |s|
    ensures IsSubsequence(Strip(s), s)
    ensures |Strip(s)| <= |s|
  {
    if s != [] {
      var n := EscapeLength(s);
      if n > 0 {
        StripIsSubsequence(s[n..]);
        SubsequenceOfSuffix(Strip(s), s, n);
      } else {
        StripIsSubsequence(s[1..]);
        var r := Strip(s);
        assert r[0] == s[0] && r[1..] == Strip(s[1..]);
      }
    }
  }

  /**
   * Cleaning is not idempotent: removing an inner match can bring together a
   * new one.
   */
  lemma StripNotIdempotent()
    ensures Strip([Esc, Esc, '[', 'm', '[', 'm']) == [Esc, '[', 'm']
    ensures Strip(Strip([Esc, Esc, '[', 'm', '[', 'm'])) == []
  {
    var s := [Esc, Esc, '[', 'm', '[', 'm'];
    assert EscapeLength(s) == 0;
    assert s[1..] == [Esc, '[', 'm', '[', 'm'];
    assert ParamRun(s[1..][2..]) == 0;
    assert EscapeLength(s[1..]) == 3;
    assert s[1..][3..] == ['[', 'm'];
    assert Strip(['[', 'm']) == ['[', 'm'] by {
      StripNoEscape(['[', 'm']);
    }
    var r := [Esc, '[', 'm'];
    assert ParamRun(r[2..]) == 0;
    assert EscapeLength(r) == 3;
    assert r[3..] == [];
  }

  /** The output a stream adds: each chunk cleaned on its own, in order. */
  function StripAll(chunks: seq<string>): string
  {
    if chunks == [] then "" else Strip(chunks[0]) + StripAll(chunks[1..])
  }

  /** Appending the first chunk's cleaned text, then the rest's, is appending all of them. */
  lemma StripAllStep(output: string, chunk: string, rest: seq<string>)
    ensures output + StripAll([chunk] + rest) == (output + Strip(chunk)) + StripAll(rest)
  {
    assert ([chunk] + rest)[1..] == rest;
  }

  /**
   * Chunks are cleaned independently, so a sequence cut between two chunks
   * survives: the escape character ends one chunk and "[0m" starts the next.
   */
  lemma SplitSequenceSurvives()
    ensures StripAll([[Esc], "[0m"]) == [Esc, '[', '0', 'm']
    ensures Strip([Esc, '[', '0', 'm']) == []
  {
    var chunks := [[Esc], "[0m"];
    assert EscapeLength([Esc]) == 0;
    assert Strip([Esc]) == [Esc];
    StripNoEscape("[0m");
    assert chunks[0] == [Esc] && chunks[1..] == ["[0m"];
    assert ["[0m"][1..] == [];
    assert StripAll(["[0m"]) == "[0m";
    var s := [Esc, '[', '0', 'm'];
    assert s[2..][1..] == ['m'];
    assert ParamRun(s[2..]) == 1;
    assert EscapeLength(s) == 4;
    assert s[4..] == [];
  }

  /** What one read() gives: a chunk, the end of the stream, or a rejected promise (the stream errored). */
  datatype ReadResult = Chunk(value: string) | Done | Rejected

  /** The reader of a response body: the chunks still to come, and whether the stream errors after them. */
  class Reader {
    const chunks: seq<string>
    const errors: bool
    var next: nat

    ghost predicate Valid()
      reads this
    {
      next <= |chunks|
    }

    function Unread(): seq<string>
      reads this
      requires Valid()
    {
      chunks[next..]
    }

    constructor (chunks: seq<string>, errors: bool)
      ensures Valid() && Unread() == chunks && this.errors == errors
    {
      this.chunks := chunks;
      this.errors := errors;
      next := 0;
    }

    method Read() returns (r: ReadResult)
      requires Valid()
      modifies this
      ensures Valid()
      ensures old(Unread()) != [] ==> r == Chunk(old(Unread())[0]) && Unread() == old(Unread())[1..]
      ensures old(Unread()) == [] ==> r == (if errors then Rejected else Done) && Unread() == []
    {
      if next < |chunks| {
        r := Chunk(chunks[next]);
        next := next + 1;
      } else {
        r := if errors then Rejected else Done;
      }
    }
  }

  /** The state useConsole keeps: the text shown in the console panel. */
  class Console {
    var output: string

    /** useState(''). */
    constructor ()
      ensures output == ""
    {
      output := "";
    }

    /** clearOutput. */
    method ClearOutput()
      modifies this
      ensures output == ""
    {
      output := "";
    }

    /** The work pump does for a read that is not done: clean the chunk and append it. */
    method Append(chunk: string)
      modifies this
      ensures output == old(output) + Strip(chunk)
      ensures old(output) <= output
    {
      output := output + Strip(chunk);
    }

    /**
     * streamConsoleOutput: with no stream nothing happens; otherwise every chunk
     * up to the end of the stream is cleaned and appended in order, and the
     * result says whether the stream ended by erroring (the promise rejects).
     */
    method StreamConsoleOutput(stream: Reader?) returns (rejected: bool)
      requires stream != null ==> stream.Valid()
      modifies this, stream
      ensures stream == null ==> output == old(output) && !rejected
      ensures stream != null ==>
        && stream.Valid() && stream.Unread() == []
        && output == old(output) + StripAll(old(stream.Unread()))
        && rejected == stream.errors
    {
      if stream == null {
        return false;
      }
      var r := stream.Read();
      while r.Chunk?
        invariant stream.Valid()
        invariant r.Chunk? ==> old(output) + StripAll(old(stream.Unread())) == output + StripAll([r.value] + stream.Unread())
        invariant !r.Chunk? ==> stream.Unread() == [] && old(output) + StripAll(old(stream.Unread())) == output
        invariant r.Rejected? <==> !r.Chunk? && stream.errors
        decreases |stream.Unread()| + (if r.Chunk? then 1 else 0)
      {
        StripAllStep(output, r.value, stream.Unread());
        Append(r.value);
        r := stream.Read();
      }
      rejected := r.Rejected?;
    }
  }
}
