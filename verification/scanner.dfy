/** sandbox/sandbox.go: does a line of JavaScript hold a semicolon that separates statements? */
module Scanner {

  // ---- the specification: an automaton that reads one byte at a time ----

  datatype Mode =
    | Code(depth: nat)
    | Slash(depth: nat)               // just read a '/' that may open a comment
    | Str(depth: nat, quote: char)
    | Escape(depth: nat, quote: char) // just read a backslash inside a string
    | LineComment
    | Block(depth: nat)
    | BlockStar(depth: nat)           // inside a block comment, just read a '*'
    | Separator                       // read a semicolon at depth zero

  predicate IsQuote(c: char) { c == '\'' || c == '"' || c == '`' }

  predicate Opens(c: char) { c == '(' || c == '[' || c == '{' }

  predicate Closes(c: char) { c == ')' || c == ']' || c == '}' }

  function CodeByte(depth: nat, c: char): Mode {
    if IsQuote(c) then Str(depth, c)
    else if c == '/' then Slash(depth)
    else if Opens(c) then Code(depth + 1)
    else if Closes(c) then Code(if depth > 0 then depth - 1 else 0)
    else if c == ';' && depth == 0 then Separator
    else Code(depth)
  }

  function Next(m: Mode, c: char): Mode {
    match m
    case Code(d) => CodeByte(d, c)
    case Slash(d) => if c == '/' then LineComment else if c == '*' then Block(d) else CodeByte(d, c)
    case Str(d, q) => if c == '\\' then Escape(d, q) else if c == q then Code(d) else Str(d, q)
    case Escape(d, q) => Str(d, q)
    case LineComment => LineComment
    case Block(d) => if c == '*' then BlockStar(d) else Block(d)
    case BlockStar(d) => if c == '/' then Code(d) else if c == '*' then BlockStar(d) else Block(d)
    case Separator => Separator
  }

  function Run(m: Mode, s: string): Mode
    decreases |s|
  {
    if s == "" then m else Run(Next(m, s[0]), s[1..])
  }

  /** At the end of the line: a separator was read, or a literal or block comment is still open. */
  predicate Accepts(m: Mode) {
    m.Separator? || m.Str? || m.Escape? || m.Block? || m.BlockStar?
  }

  predicate SplitsStatements(line: string) { Accepts(Run(Code(0), line)) }

  // ---- the index-jumping scanner ----

  lemma {:induction false} RunAbsorbed(m: Mode, s: string)
    requires m.LineComment? || m.Separator?
    ensures Run(m, s) == m
    decreases |s|
  {
    if s != "" { RunAbsorbed(m, s[1..]); }
  }

  lemma RunStep(m: Mode, line: string, i: nat)
    requires i < |line|
    ensures Run(m, line[i..]) == Run(Next(m, line[i]), line[i + 1..])
  {
    assert line[i..][1..] == line[i + 1..];
  }

  lemma RunEnd(m: Mode, line: string)
    ensures Run(m, line[|line|..]) == m
  {}

  /** The closing quote of the literal that opens at start, or -1. */
  method EndOfString(line: string, start: nat) returns (end: int)
    requires start < |line| && IsQuote(line[start])
    ensures end == -1 || start < end < |line|
    ensures forall d: nat ::
              if end == -1 then Accepts(Run(Str(d, line[start]), line[start + 1..]))
              else Run(Str(d, line[start]), line[start + 1..]) == Run(Code(d), line[end + 1..])
  {
    var quote := line[start];
    var i := start + 1;
    while i < |line|
      invariant start < i
      invariant i <= |line| ==>
                  forall d: nat :: Run(Str(d, quote), line[start + 1..]) == Run(Str(d, quote), line[i..])
      invariant i > |line| ==> forall d: nat :: Accepts(Run(Str(d, quote), line[start + 1..]))
      decreases |line| - i
    {
      forall d: nat ensures Run(Str(d, quote), line[i..]) == Run(Next(Str(d, quote), line[i]), line[i + 1..]) {
        RunStep(Str(d, quote), line, i);
      }
      if line[i] == '\\' {
        if i + 1 < |line| {
          forall d: nat ensures Run(Escape(d, quote), line[i + 1..]) == Run(Str(d, quote), line[i + 2..]) {
            RunStep(Escape(d, quote), line, i + 1);
          }
        } else {
          assert forall d: nat :: Run(Escape(d, quote), line[i + 1..]) == Escape(d, quote);
        }
        i := i + 1;
      } else if line[i] == quote {
        return i;
      }
      i := i + 1;
    }
    if i == |line| {
      assert forall d: nat :: Run(Str(d, quote), line[i..]) == Str(d, quote);
    }
    return -1;
  }

  /** strings.Index for the two bytes that close a block comment, from `from` on; an index into line, or -1. */
  function EndOfBlock(line: string, from: nat): (end: int)
    requires from <= |line|
    ensures end == -1 || (from <= end && end + 2 <= |line|)
    decreases |line| - from
  {
    if from + 2 > |line| then -1
    else if line[from] == '*' && line[from + 1] == '/' then from
    else EndOfBlock(line, from + 1)
  }

  lemma {:induction false} EndOfBlockRuns(line: string, from: nat, d: nat)
    requires from <= |line|
    ensures var end := EndOfBlock(line, from);
            if end == -1 then Accepts(Run(Block(d), line[from..]))
            else Run(Block(d), line[from..]) == Run(Code(d), line[end + 2..])
    decreases |line| - from
  {
    if from < |line| {
      RunStep(Block(d), line, from);
      if from + 1 < |line| {
        RunStep(BlockStar(d), line, from + 1);
        RunStep(Block(d), line, from + 1);
        EndOfBlockRuns(line, from + 1, d);
      } else {
        RunEnd(BlockStar(d), line);
        RunEnd(Block(d), line);
      }
    }
  }

  /** The scanner decides exactly what the automaton decides. */
  method HasTopLevelSemicolon(line: string) returns (found: bool)
    ensures found == SplitsStatements(line)
  {
    var depth: nat := 0;
    var i := 0;
    assert line[0..] == line;
    while i < |line|
      invariant 0 <= i <= |line|
      invariant SplitsStatements(line) == Accepts(Run(Code(depth), line[i..]))
    {
      var c := line[i];
      RunStep(Code(depth), line, i);
      if IsQuote(c) {
        var end := EndOfString(line, i);
        if end < 0 { return true; }
        i := end;
      } else if c == '/' {
        if i + 1 < |line| {
          RunStep(Slash(depth), line, i + 1);
          if line[i + 1] == '/' {
            RunAbsorbed(LineComment, line[i + 2..]);
            return false;
          } else if line[i + 1] == '*' {
            var end := EndOfBlock(line, i + 2);
            EndOfBlockRuns(line, i + 2, depth);
            if end < 0 { return true; }
            i := end + 1;
          } else {
            RunStep(Code(depth), line, i + 1);
          }
        } else {
          RunEnd(Slash(depth), line);
          RunEnd(Code(depth), line);
        }
      } else if Opens(c) {
        depth := depth + 1;
      } else if Closes(c) {
        if depth > 0 { depth := depth - 1; }
      } else if c == ';' {
        if depth == 0 {
          RunAbsorbed(Separator, line[i + 1..]);
          return true;
        }
      }
      i := i + 1;
    }
    RunEnd(Code(depth), line);
    return false;
  }

  // ---- what the automaton says about lines a person would write ----

  lemma {:induction false} RunAppend(m: Mode, s: string, t: string)
    ensures Run(m, s + t) == Run(Run(m, s), t)
    decreases |s|
  {
    if s == "" {
      assert s + t == t;
    } else {
      assert (s + t)[1..] == s[1..] + t;
      RunAppend(Next(m, s[0]), s[1..], t);
    }
  }

  /** A semicolon put where the scan stands in code at depth zero always separates, whatever
      follows; put anywhere a bracket, literal or comment is open, it does not end the scan. */
  lemma SemicolonSeparates(s: string, t: string)
    ensures Run(Code(0), s) == Code(0) || Run(Code(0), s) == Slash(0) ==> SplitsStatements(s + ";" + t)
    ensures !Run(Code(0), s + ";").Separator? <==>
              !(Run(Code(0), s) in {Code(0), Slash(0), Separator})
  {
    RunAppend(Code(0), s, ";");
    RunAppend(Code(0), s + ";", t);
    var m := Run(Code(0), s);
    assert ";"[1..] == "";
    assert Run(m, ";") == Next(m, ';');
    RunAbsorbed(Separator, t);
  }

  /** What follows a line comment never matters. */
  lemma LineCommentHides(s: string, t: string)
    requires Run(Code(0), s).LineComment?
    ensures !SplitsStatements(s + t)
  {
    RunAppend(Code(0), s, t);
    RunAbsorbed(LineComment, t);
  }

  /** How many brackets are open, where a closing one too many is ignored. */
  function Nesting(s: string): nat {
    if s == "" then 0
    else
      var d, c := Nesting(s[..|s| - 1]), s[|s| - 1];
      if c in "([{" then d + 1 else if c in ")]}" && d > 0 then d - 1 else d
  }

  /** A semicolon of s outside all brackets. */
  ghost predicate LooseSemicolon(s: string) {
    exists i :: 0 <= i < |s| && s[i] == ';' && Nesting(s[..i]) == 0
  }

  lemma {:induction false} PlainRun(s: string)
    requires forall i | 0 <= i < |s| :: s[i] !in "'\"`/"
    ensures Run(Code(0), s) == if LooseSemicolon(s) then Separator else Code(Nesting(s))
    decreases |s|
  {
    if s != "" {
      var n := |s| - 1;
      var t, c := s[..n], s[n];
      assert forall i | 0 <= i < n :: t[i] == s[i];
      PlainRun(t);
      assert s == t + [c];
      RunAppend(Code(0), t, [c]);
      assert [c][1..] == "";
      assert Run(Run(Code(0), t), [c]) == Next(Run(Code(0), t), c);
      LooseSnoc(t, c);
      Bytes(c);
      hide Run;
    }
  }

  lemma LooseSnoc(t: string, c: char)
    ensures LooseSemicolon(t + [c]) <==> LooseSemicolon(t) || (c == ';' && Nesting(t) == 0)
  {
    hide Nesting;
    var s := t + [c];
    forall i | 0 <= i <= |t| ensures s[..i] == t[..i] {}
    assert t[..|t|] == t && s[|t|] == c;
    if LooseSemicolon(t) {
      var i :| 0 <= i < |t| && t[i] == ';' && Nesting(t[..i]) == 0;
      assert s[i] == ';' && Nesting(s[..i]) == 0;
    }
  }

  lemma Bytes(c: char)
    ensures IsQuote(c) <==> c in "'\"`"
    ensures Opens(c) <==> c in "([{"
    ensures Closes(c) <==> c in ")]}"
  {}

  /** On a line without quotes and slashes: it splits exactly when some semicolon stands outside all
      brackets, round, square and curly. */
  lemma PlainLineIff(line: string)
    requires forall i | 0 <= i < |line| :: line[i] !in "'\"`/"
    ensures SplitsStatements(line) <==> LooseSemicolon(line)
  {
    PlainRun(line);
  }

  /** t stands inside a literal in quotes q: any bytes but the quote, each backslash with the byte after it. */
  predicate Quoted(t: string, q: char)
    decreases |t|
  {
    t == "" || (if t[0] == '\\' then |t| >= 2 && Quoted(t[2..], q) else t[0] != q && Quoted(t[1..], q))
  }

  lemma {:induction false} QuotedRuns(t: string, q: char, d: nat)
    requires Quoted(t, q)
    ensures Run(Str(d, q), t) == Str(d, q)
    decreases |t|
  {
    if t != "" {
      if t[0] == '\\' {
        assert t[1..][1..] == t[2..];
        QuotedRuns(t[2..], q, d);
      } else {
        QuotedRuns(t[1..], q, d);
      }
    }
  }

  /** A literal in any of the three quotes hides what is in it, semicolons, brackets and comments; one that
      is not closed on its line makes the line split. */
  lemma LiteralHides(s: string, q: char, t: string, u: string)
    requires q in "'\"`" && Run(Code(0), s).Code? && Quoted(t, q)
    ensures SplitsStatements(s + [q] + t + [q] + u) == SplitsStatements(s + u)
    ensures SplitsStatements(s + [q] + t)
  {
    var d := Run(Code(0), s).depth;
    var lit := [q] + t + [q];
    assert s + [q] + t + [q] + u == s + (lit + u);
    assert s + [q] + t == s + ([q] + t);
    RunAppend(Code(0), s, lit + u);
    RunAppend(Code(0), s, u);
    RunAppend(Code(0), s, [q] + t);
    RunAppend(Code(d), lit, u);
    RunAppend(Code(d), [q] + t, [q]);
    RunAppend(Code(d), [q], t);
    RunOne(Code(d), q);
    RunOne(Str(d, q), q);
    QuotedRuns(t, q, d);
    hide Run;
  }

  lemma RunOne(m: Mode, c: char)
    ensures Run(m, [c]) == Next(m, c)
  {
    assert [c][1..] == "";
  }

  /** So does a comment between its two ends. */
  lemma BlockHides(s: string, t: string, u: string)
    requires Run(Code(0), s).Code? && forall i | 0 <= i < |t| - 1 :: !(t[i] == '*' && t[i + 1] == '/')
    ensures SplitsStatements(s + "/*" + t + "*/" + u) == SplitsStatements(s + u)
  {
    var d := Run(Code(0), s).depth;
    var open, close := "/*", "*/";
    assert s + open + t + close + u == s + (open + t + close + u);
    RunAppend(Code(0), s, open + t + close + u);
    RunAppend(Code(0), s, u);
    RunAppend(Code(d), open + t + close, u);
    RunAppend(Code(d), open + t, close);
    RunAppend(Code(d), open, t);
    RunTwo(Code(d), '/', '*');
    RunTwo(Block(d), '*', '/');
    RunTwo(BlockStar(d), '*', '/');
    BlockRuns(t, d);
    hide Run;
    assert open == ['/', '*'] && close == ['*', '/'];
  }

  /** And one to the end of the line hides the rest of it. */
  lemma SlashesHide(s: string, u: string)
    requires Run(Code(0), s).Code?
    ensures !SplitsStatements(s + "//" + u)
  {
    var d := Run(Code(0), s).depth;
    var open := "//";
    RunAppend(Code(0), s, open);
    RunTwo(Code(d), '/', '/');
    assert open == ['/', '/'];
    hide Run;
    LineCommentHides(s + open, u);
  }

  lemma RunTwo(m: Mode, b: char, c: char)
    ensures Run(m, [b, c]) == Next(Next(m, b), c)
  {
    assert [b, c] == [b] + [c];
    RunAppend(m, [b], [c]);
    RunOne(m, b);
    RunOne(Next(m, b), c);
  }

  lemma {:induction false} BlockRuns(t: string, d: nat)
    requires forall i | 0 <= i < |t| - 1 :: !(t[i] == '*' && t[i + 1] == '/')
    ensures Run(Block(d), t) == if t != "" && t[|t| - 1] == '*' then BlockStar(d) else Block(d)
    decreases |t|
  {
    if t != "" {
      var n := |t| - 1;
      assert forall i | 0 <= i < n :: t[..n][i] == t[i];
      BlockRuns(t[..n], d);
      assert t == t[..n] + [t[n]];
      RunAppend(Block(d), t[..n], [t[n]]);
      RunOne(Run(Block(d), t[..n]), t[n]);
      hide Run;
    }
  }
}
