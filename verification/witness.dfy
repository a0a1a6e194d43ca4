/** Concrete sessions: one that meets the hypotheses of the session theorems, and those in which what
    the theorems exclude goes wrong. Every Run here asks a model, runs its scripts or is cancelled. */
module Witness {
  import opened Text
  import opened Messages
  import opened Compact
  import Summarize
  import opened Store
  import opened History
  import opened Parser
  import opened Run
  import opened Trace
  import opened Session
  import opened Checkpoints
  import opened Conversation
  import opened Orphan
  import opened Cost

  // ---- the calls ----

  /** A reply that is one script, and what becomes of it. */
  function Scripted(answer: Option<string>): Turn {
    Turn(false, Replied(Refence("x"), 1, 1), Returned("ok", "{}"), answer)
  }

  function Cancelled(): Turn { Turn(true, Failed(""), Returned("", ""), None) }

  function Down(): Turn { Turn(false, Failed("down"), Returned("", ""), None) }

  /** What a SummarizingCompactor with these bounds makes of a history when its model says "so far". */
  function Folding(trigger: int, keep: int, h: seq<Message>): CompactResult {
    var split := SafeSplitPoint(h, |h| - keep);
    if |h| <= trigger || split <= 0 then Unchanged(h)
    else
      var text := SummaryContent(split, "so far");
      CompactResult([Message("user", text)] + h[split..], 0, 0, text, split, false)
  }

  datatype Limits = Limits(trigger: int, keep: int)

  function Oracle(b: Limits, scripts: nat, last: Turn, ok: nat -> bool): Env {
    Env(true, true, true, ok, Some((h: seq<Message>) => Folding(b.trigger, b.keep, h)),
            (n: nat) => if n < scripts then Scripted(None) else last)
  }

  /** A question the model answers with so many scripts before its last turn. */
  function Ask(b: Limits, message: string, scripts: nat, last: Turn): Call {
    Call(Oracle(b, scripts, last, (n: nat) => true), message)
  }

  function Verbatim(s: string): string { s }

  function Settings(window: int): Config { Config(window, 20, Verbatim) }

  lemma FoldingSummarizes(b: Limits, scripts: nat, last: Turn, ok: nat -> bool)
    ensures Summarizes(Oracle(b, scripts, last, ok), b.trigger, b.keep)
  {
    SoFarTidy();
    hide SummaryContent, Summarize.Tidy;
    forall h: seq<Message> ensures Outcome(b.trigger, b.keep, h, Folding(b.trigger, b.keep, h)) {}
  }

  lemma SoFarTidy()
    ensures Summarize.Tidy("so far")
  {
    assert TrimLeft("so far") == "so far";
  }

  // ---- what such a Run records ----

  /** The reply is a script and nothing else. */
  lemma ReadsAsScript(p: Progress, t: Turn)
    ensures Read(p, Refence("x"), t) == Ran(p, Refence("x"), "x", t)
  {
    ReplyReads();
    assert |"x"| == 1;
    hide Refence, ExtractJSBlock, ExtractDoneMarker, IsBlank, Ran;
  }

  lemma ReplyReads()
    ensures ExtractJSBlock(Refence("x")) == "x" && ExtractDoneMarker(Refence("x")) == None && !IsBlank(Refence("x"))
  {
    OneLetter();
    ReplyLetters();
    hide *;
    RefenceRoundTripIff("x");
    NoMarker(Refence("x"));
    TrimKeepsFirst(Refence("x"));
  }

  lemma ReplyLetters()
    ensures var s := Refence("x"); 'D' !in s && s != "" && s[0] == '`' && !IsSpace(s[0])
  {
    assert 'D' !in OPENING && 'D' !in CLOSING && 'D' !in "x";
    assert OPENING[0] == '`';
  }

  lemma OneLetter()
    ensures TrimSpace("x") == "x" && !HasClose("x")
  {
    var s := "x";
    assert |s| == 1 && s[0] == 'x';
    assert forall i: nat | i < 1 :: s[i] == 'x';
    TrimSpaceFixed(s);
    hide TrimSpace;
  }

  lemma NoMarker(s: string)
    requires 'D' !in s
    ensures ExtractDoneMarker(s) == None
  {
    assert "DONE"[0] == 'D';
    NoMarkerFrom(s, 0);
    TrimMembers(s);
    hide TrimSpace, DoneFrom;
  }

  lemma TrimMembers(s: string)
    ensures forall c | c in TrimSpace(s) :: c in s
  {
    var t := TrimLeft(s);
    assert t == s[|s| - |t|..] && TrimRight(t) == t[..|TrimRight(t)|];
    hide TrimLeft, TrimRight;
  }

  lemma {:induction false} NoMarkerFrom(s: string, i: nat)
    requires 'D' !in s
    ensures DoneFrom(s, i) == None
    decreases |s| - i
  {
    if i <= |s| {
      MarkerHasD(s, i);
      hide IsDoneLine, TrimSpace;
      NoMarkerFrom(s, i + 1);
    }
  }

  lemma MarkerHasD(s: string, i: nat)
    requires i <= |s|
    ensures IsDoneLine(s, i) ==> 'D' in s
  {
    if IsDoneLine(s, i) {
      assert "DONE"[0] == 'D';
      assert s[WsEnd(s, i) + 0] == 'D';
    }
  }

  function Pairs(n: nat): seq<Draft> {
    if n == 0 then [] else [Plain(ExecuteJs, "x"), Plain(ExecuteJsResult, "ok")] + Pairs(n - 1)
  }

  /** What the last turn adds. */
  function Closes(last: Turn): seq<Draft> {
    if last.cancelled then []
    else if last.stream.Failed? then [Plain(ErrorStep, last.stream.error)]
    else [Plain(ExecuteJs, "x"), Plain(ExecuteJsResult, "ok")]
         + if last.answer.Some? then [Plain(Response, last.answer.value)] else []
  }

  predicate Ends(last: Turn) { last == Cancelled() || last == Down() || last == Scripted(Some("done")) }

  lemma LastTurn(p: Progress, last: Turn)
    requires p.status == Running && Ends(last)
    ensures var q := TurnFrom(p, last); q.status != Running && q.drafts == p.drafts + Closes(last)
  {
    hide Refence, Read, Carry, ToInt32;
    var q := p.(streams := p.streams + 1, prompt := ToInt32(p.prompt + ToInt32(1)),
        completion := ToInt32(p.completion + ToInt32(1)));
    ReadsAsScript(q, last);
  }

  lemma ScriptTurn(p: Progress)
    requires p.status == Running
    ensures var q := TurnFrom(p, Scripted(None));
            q.status == Running && q.drafts == p.drafts + [Plain(ExecuteJs, "x"), Plain(ExecuteJsResult, "ok")]
  {
    hide Refence, Read, Carry, ToInt32;
    var q := p.(streams := p.streams + 1, prompt := ToInt32(p.prompt + ToInt32(1)),
        completion := ToInt32(p.completion + ToInt32(1)));
    ReadsAsScript(q, Scripted(None));
  }

  lemma {:induction false} LoopRuns(p: Progress, b: Limits, scripts: nat, last: Turn, ok: nat -> bool, iter: nat)
    requires p.status == Running && Ends(last) && iter <= scripts < 20
    ensures Loop(p, Oracle(b, scripts, last, ok).turn, 20, iter).drafts ==
            p.drafts + Pairs(scripts - iter) + Closes(last)
    decreases scripts - iter
  {
    hide TurnFrom, Closes, Folding, Exceeded;
    var turn := Oracle(b, scripts, last, ok).turn;
    if iter == scripts {
      LastTurn(p, last);
      assert Loop(p, turn, 20, iter) == TurnFrom(p, last);
      assert p.drafts + [] == p.drafts;
    } else {
      ScriptTurn(p);
      LoopRuns(TurnFrom(p, Scripted(None)), b, scripts, last, ok, iter + 1);
      Shuffle(p.drafts, [Plain(ExecuteJs, "x"), Plain(ExecuteJsResult, "ok")], Pairs(scripts - iter - 1), Closes(last));
    }
  }

  lemma Shuffle<T>(a: seq<T>, b: seq<T>, c: seq<T>, d: seq<T>)
    ensures a + b + c + d == a + (b + c) + d
  {}

  /** The rows that these drafts make when all are persisted. */
  function RowsAt(start: int, ds: seq<Draft>): (rows: seq<RunStep>)
    ensures |rows| == |ds|
  {
    seq(|ds|, i requires 0 <= i < |ds| => Line(start + i, ds[i]))
  }

  function Line(index: int, d: Draft): RunStep { RunStep("s", index, d.kind, d.content, d.toolArgs) }

  /** The checkpoint such a Run writes, by the history it rehydrates. */
  function Writes(b: Limits, es: seq<Entry>): seq<Draft> {
    CheckpointDrafts(Folding(b.trigger, b.keep, Msgs(es)), StepsOf(es))
  }

  lemma AskDrafts(window: int, b: Limits, message: string, scripts: nat, last: Turn, ok: nat -> bool,
                  rows: seq<RunStep>)
    requires window > 0 && Ends(last) && scripts < 20
    ensures RunOf(Settings(window), rows, Call(Oracle(b, scripts, last, ok), message)).drafts ==
            [Plain(User, message)] + Writes(b, Rehydrated(rows, window)) + Pairs(scripts) + Closes(last)
  {
    var cfg, env := Settings(window), Oracle(b, scripts, last, ok);
    var es := Rehydrated(rows, window);
    SeedCheckpoint(cfg, env, rows, message);
    SeedOpens(cfg, env, Prior(cfg, env, rows), message);
    FoldingAdopted(b, es);
    SeedRuns(cfg, env, Prior(cfg, env, rows), message);
    hide Rehydrated, Seed, Prior, Folding, CheckpointDrafts, Closes, Pairs, Loop;
    LoopRuns(Seed(cfg, env, Prior(cfg, env, rows), message), b, scripts, last, ok, 0);
  }

  lemma SeedRuns(cfg: Config, env: Env, prior: seq<RunStep>, message: string)
    requires env.buildOk
    ensures Seed(cfg, env, prior, message).status == Running
  {
    hide Rehydrated, CheckpointDrafts, ToInt32;
  }

  lemma FoldingAdopted(b: Limits, es: seq<Entry>)
    ensures Adopted(Folding(b.trigger, b.keep, Msgs(es)), |es|)
  {
    hide SummaryContent;
  }

  /** One more such call, when every append succeeds. */
  lemma AskAdds(window: int, b: Limits, message: string, scripts: nat, last: Turn, rows: seq<RunStep>)
    requires 0 < window < 1000 && Ends(last) && scripts < 20
    ensures Sound(Ask(b, message, scripts, last))
    ensures Added(Settings(window), "s", rows, Ask(b, message, scripts, last)) ==
            RowsAt(Least(|rows|, window),
                   [Plain(User, message)] + Writes(b, Rehydrated(rows, window)) + Pairs(scripts) + Closes(last))
  {
    var call := Ask(b, message, scripts, last);
    AskDrafts(window, b, message, scripts, last, call.env.appendOk, rows);
    assert Sound(call) && Settings(window).historyWindow == window && 0 <= Least(|rows|, window) <= window;
    FewDrafts(b, rows, window, scripts, last);
    hide *;
    AddedRows(Settings(window), "s", rows, call);
    NumberedIs(window, Added(Settings(window), "s", rows, call), Least(|rows|, window),
        RunOf(Settings(window), rows, call).drafts);
  }

  lemma FewDrafts(b: Limits, rows: seq<RunStep>, window: int, scripts: nat, last: Turn)
    requires scripts < 20
    ensures |Writes(b, Rehydrated(rows, window))| <= 1 && |Pairs(scripts)| == 2 * scripts && |Closes(last)| <= 3
  {
    PairsCount(scripts);
    hide Rehydrated, Folding, Pairs;
  }

  lemma {:induction false} PairsCount(n: nat)
    ensures |Pairs(n)| == 2 * n
  {
    if n > 0 { PairsCount(n - 1); }
  }

  lemma NumberedIs(window: int, rows: seq<RunStep>, start: int, ds: seq<Draft>)
    requires Numbered(rows, "s", Settings(window), start, ds) && 0 <= start && start + |ds| < TWO_31
    ensures rows == RowsAt(start, ds)
  {}

  // ---- rows and what they replay as ----

  function Question(i: int, text: string): RunStep { RunStep("s", i, User, text, Marker(0)) }

  function Code(i: int): RunStep { RunStep("s", i, ExecuteJs, "x", Marker(0)) }

  function Output(i: int): RunStep { RunStep("s", i, ExecuteJsResult, "ok", Marker(0)) }

  function Final(i: int): RunStep { RunStep("s", i, Response, "done", Marker(0)) }

  function Failure(i: int): RunStep { RunStep("s", i, ErrorStep, "down", Marker(0)) }

  function SoFar(i: int, n: nat, m: int): RunStep { RunStep("s", i, Summary, SummaryContent(n, "so far"), Marker(m)) }

  function QuestionEntry(i: int, text: string): Entry { Entry(Message("user", text), i) }

  function CodeEntry(i: int): Entry { Entry(Message("assistant", Refence("x")), i) }

  function OutputEntry(i: int): Entry { Entry(Message("user", RESULT_PREFIX + "\n" + "ok"), i) }

  function FinalEntry(i: int): Entry { Entry(Message("assistant", "done"), i) }

  predicate Passes(i: int, from: Option<int>) { from.Some? ==> i >= from.value }

  lemma PlayedQuestion(i: int, text: string, from: Option<int>)
    ensures Played(Question(i, text), from) == if Passes(i, from) then [QuestionEntry(i, text)] else []
  {}

  lemma PlayedCode(i: int, from: Option<int>)
    ensures Played(Code(i), from) == if Passes(i, from) then [CodeEntry(i)] else []
  {
    hide Refence;
  }

  lemma PlayedOutput(i: int, from: Option<int>)
    ensures Played(Output(i), from) == if Passes(i, from) then [OutputEntry(i)] else []
  {}

  lemma PlayedFinal(i: int, from: Option<int>)
    ensures Played(Final(i), from) == if Passes(i, from) then [FinalEntry(i)] else []
  {}

  lemma PlayedOther(i: int, n: nat, m: int, from: Option<int>)
    ensures Played(Failure(i), from) == [] && Played(SoFar(i, n, m), from) == []
  {
    hide SummaryContent;
  }

  lemma AllPass(i: int)
    ensures Passes(i, None)
  {}

  lemma ReplayCons(row: RunStep, rest: seq<RunStep>, from: Option<int>)
    ensures Replay([row] + rest, from) == Played(row, from) + Replay(rest, from)
  {
    hide Played;
    assert ([row] + rest)[1..] == rest;
  }

  lemma Replay4(a: RunStep, b: RunStep, c: RunStep, d: RunStep, from: Option<int>)
    ensures Replay([a, b, c, d], from) == Played(a, from) + Played(b, from) + Played(c, from) + Played(d, from)
  {
    hide *;
    ReplayCons(a, [b, c, d], from);
    ReplayCons(b, [c, d], from);
    ReplayCons(c, [d], from);
    ReplayCons(d, [], from);
    ReplayNothing(from);
    assert [a] + [b, c, d] == [a, b, c, d] && [b] + [c, d] == [b, c, d] && [c] + [d] == [c, d] && [d] + [] == [d];
    assert Played(a, from) + (Played(b, from) + (Played(c, from) + (Played(d, from) + []))) ==
           Played(a, from) + Played(b, from) + Played(c, from) + Played(d, from);
  }

  lemma OutputIsResult(i: int)
    ensures IsExecutionResult(OutputEntry(i).msg)
  {
    assert RESULT_PREFIX <= RESULT_PREFIX + "\n" + "ok";
  }

  lemma SoFarUsable(i: int, n: nat, m: int)
    ensures Usable(SoFar(i, n, m))
  {
    SummaryContentBytes(n, "so far");
    hide SummaryContent, IsBlank;
  }

  lemma OthersUnusable(i: int, text: string)
    ensures !Usable(Question(i, text)) && !Usable(Code(i)) && !Usable(Output(i)) && !Usable(Final(i))
            && !Usable(Failure(i))
  {
    hide IsBlank;
  }

  // ---- a lost append within the window ----

  /** A Run of two scripts whose second script's append fails. */
  function Lossy(): Call { Call(Oracle(Limits(3, 1), 2, Cancelled(), (n: nat) => n != 3), "hi") }

  lemma LossyRows()
    ensures After(Settings(80), "s", [Lossy()]) == [Question(0, "hi"), Code(1), Output(2), Output(4)]
  {
    hide After, RunOf, Rehydrated, Folding, Written;
    LossyDrafts();
    var cfg, call := Settings(80), Lossy();
    var u, j, o := Plain(User, "hi"), Plain(ExecuteJs, "x"), Plain(ExecuteJsResult, "ok");
    assert Prior(cfg, call.env, []) == [];
    assert Added(cfg, "s", [], call) == Written("s", cfg, call.env.appendOk, 0, [u, j, o, j, o]);
    FiveWritten(cfg, call.env.appendOk, u, j, o);
    hide Added, Lossy;
    AfterOne(cfg, "s", [], call);
    assert [] + [call] == [call];
    NothingBefore(cfg);
  }

  lemma NothingBefore(cfg: Config)
    ensures After(cfg, "s", []) == []
  {}

  lemma LossyDrafts()
    ensures var u, j, o := Plain(User, "hi"), Plain(ExecuteJs, "x"), Plain(ExecuteJsResult, "ok");
            RunOf(Settings(80), [], Lossy()).drafts == [u, j, o, j, o]
  {
    hide *;
    EndsAll();
    LossyIs();
    AskDrafts(80, Limits(3, 1), "hi", 2, Cancelled(), Lossy().env.appendOk, []);
    EmptyHistory(80);
    NoWrites(Limits(3, 1), []);
    TwoPairs();
  }

  lemma LossyIs()
    ensures Lossy() == Call(Oracle(Limits(3, 1), 2, Cancelled(), Lossy().env.appendOk), "hi")
  {
    hide Oracle;
    OracleAppends(Limits(3, 1), 2, Cancelled(), (n: nat) => n != 3);
  }

  lemma OracleAppends(b: Limits, scripts: nat, last: Turn, ok: nat -> bool)
    ensures Oracle(b, scripts, last, ok).appendOk == ok
  {}

  lemma TwoPairs()
    ensures var u, j, o := Plain(User, "hi"), Plain(ExecuteJs, "x"), Plain(ExecuteJsResult, "ok");
            [u] + [] + Pairs(2) + Closes(Cancelled()) == [u, j, o, j, o]
  {
    assert Pairs(1) == [Plain(ExecuteJs, "x"), Plain(ExecuteJsResult, "ok")] + Pairs(0);
  }

  /** Its last row's index is not its position. */
  lemma LossyNotFaithful()
    ensures !Faithful(After(Settings(80), "s", [Lossy()]))
  {
    LossyRows();
    var rows := [Question(0, "hi"), Code(1), Output(2), Output(4)];
    assert rows[3].index == 4;
    hide After, Lossy;
  }

  lemma FiveWritten(cfg: Config, ok: nat -> bool, u: Draft, j: Draft, o: Draft)
    requires cfg.redact == Verbatim && forall n: nat :: ok(n) <==> n != 3
    ensures Written("s", cfg, ok, 0, [u, j, o, j, o]) == [Line(0, u), Line(1, j), Line(2, o), Line(4, o)]
  {
    var ds := [u, j, o, j, o];
    assert ds[..4][..3] == ds[..3] && ds[..3][..2] == ds[..2] && ds[..2][..1] == ds[..1] && ds[..1][..0] == [];
    assert Written("s", cfg, ok, 0, ds[..1]) == [Line(0, u)];
    assert Written("s", cfg, ok, 0, ds[..2]) == [Line(0, u), Line(1, j)];
    assert Written("s", cfg, ok, 0, ds[..3]) == [Line(0, u), Line(1, j), Line(2, o)];
    assert Written("s", cfg, ok, 0, ds[..4]) == [Line(0, u), Line(1, j), Line(2, o)];
  }

  /** A history without checkpoints. */
  lemma PlainHistory(rows: seq<RunStep>, window: int)
    requires window > 0 && |rows| <= window && NoUsable(rows)
    ensures Rehydrated(rows, window) == Replay(rows, None)
  {
    hide Replay, Usable;
    NoCheckpointIff(rows);
    assert Loaded(rows, window) == rows;
    hide LastCheckpoint;
  }

  /** Two results at the end: the cut before the last retains the one before it, without its script. */
  lemma CutOrphans(es: seq<Entry>)
    requires |es| == 4 && IsExecutionResult(es[2].msg) && IsExecutionResult(es[3].msg)
    ensures SafeSplitPoint(Msgs(es), 3) == 2 && IsExecutionResult(Msgs(es)[2]) && Msgs(es)[1] == es[1].msg
  {
    hide IsExecutionResult;
  }

  lemma Four<T>(a: T, b: T, c: T, d: T)
    ensures [a] + [b] + [c] + [d] == [a, b, c, d]
  {}

  lemma Cons<T>(a: T, b: T, c: T, d: T, e: T)
    ensures [a] + [] == [a] && [a] + [b] == [a, b] && [a] + [b, c] == [a, b, c]
    ensures [a] + [b, c, d] == [a, b, c, d] && [a] + [b, c, d, e] == [a, b, c, d, e]
  {}

  lemma UnusableCons(row: RunStep, rest: seq<RunStep>)
    requires !Usable(row) && NoUsable(rest)
    ensures NoUsable([row] + rest)
  {
    hide Usable;
  }

  lemma UnusableNone()
    ensures NoUsable([])
  {}

  /** A question, its script and result, and one more row that reads as a result. */
  lemma FourEntries(text: string, last: RunStep, e: Entry)
    requires Played(last, None) == [e]
    ensures Replay([Question(0, text), Code(1), Output(2), last], None) ==
            [QuestionEntry(0, text), CodeEntry(1), OutputEntry(2), e]
  {
    hide *;
    Replay4(Question(0, text), Code(1), Output(2), last, None);
    AllPass(0);
    AllPass(1);
    AllPass(2);
    PlayedQuestion(0, text, None);
    PlayedCode(1, None);
    PlayedOutput(2, None);
    Four(QuestionEntry(0, text), CodeEntry(1), OutputEntry(2), e);
  }

  lemma FourRowsOrphan(rows: seq<RunStep>, last: RunStep, e: Entry)
    requires rows == [Question(0, "hi"), Code(1), Output(2), last]
    requires Played(last, None) == [e] && IsExecutionResult(e.msg) && !Usable(last)
    ensures var history := Msgs(Rehydrated(rows, 80));
            && |history| == 4 && SafeSplitPoint(history, |history| - 1) == 2
            && history[1] == Message("assistant", Refence("x")) && IsExecutionResult(history[2])
  {
    assert CodeEntry(1).msg == Message("assistant", Refence("x"));
    assert NoUsable(rows) by {
      OthersUnusable(0, "hi");
      OthersUnusable(1, "hi");
      OthersUnusable(2, "hi");
      hide Usable, Played, IsExecutionResult, Question, Code, Output;
    }
    hide *;
    OutputIsResult(2);
    PlainHistory(rows, 80);
    FourEntries("hi", last, e);
    CutOrphans([QuestionEntry(0, "hi"), CodeEntry(1), OutputEntry(2), e]);
  }

  /** A compaction with trigger 3 and keep 1 would retain the first result without its script. */
  lemma LostAppendOrphans()
    ensures var history := Msgs(Rehydrated(After(Settings(80), "s", [Lossy()]), 80));
            && |history| == 4 && SafeSplitPoint(history, |history| - 1) == 2
            && history[1] == Message("assistant", Refence("x")) && IsExecutionResult(history[2])
  {
    hide *;
    LossyRows();
    AllPass(4);
    PlayedOutput(4, None);
    OutputIsResult(4);
    OthersUnusable(4, "");
    FourRowsOrphan([Question(0, "hi"), Code(1), Output(2), Output(4)], Output(4), OutputEntry(4));
  }

  // ---- sessions call by call ----

  lemma Then(window: int, calls: seq<Call>, rows: seq<RunStep>, b: Limits, message: string, scripts: nat, last: Turn)
    requires 0 < window < 1000 && Ends(last) && scripts < 20 && After(Settings(window), "s", calls) == rows
    ensures After(Settings(window), "s", calls + [Ask(b, message, scripts, last)]) ==
            rows + RowsAt(Least(|rows|, window),
                          [Plain(User, message)] + Writes(b, Rehydrated(rows, window)) + Pairs(scripts) + Closes(last))
  {
    hide *;
    AfterOne(Settings(window), "s", calls, Ask(b, message, scripts, last));
    AskAdds(window, b, message, scripts, last, rows);
  }

  lemma NoWrites(b: Limits, es: seq<Entry>)
    requires |es| <= b.trigger
    ensures Writes(b, es) == []
  {}

  /** A call whose history is short enough to stay as it is. */
  lemma ThenQuiet(window: int, calls: seq<Call>, rows: seq<RunStep>, b: Limits, message: string, scripts: nat,
                  last: Turn, start: int, added: seq<RunStep>)
    requires 0 < window < 1000 && Ends(last) && scripts < 20 && After(Settings(window), "s", calls) == rows
    requires |Rehydrated(rows, window)| <= b.trigger && start == Least(|rows|, window)
    requires added == RowsAt(start, [Plain(User, message)] + Pairs(scripts) + Closes(last))
    ensures After(Settings(window), "s", calls + [Ask(b, message, scripts, last)]) == rows + added
  {
    hide *;
    Then(window, calls, rows, b, message, scripts, last);
    NoWrites(b, Rehydrated(rows, window));
    assert [Plain(User, message)] + [] == [Plain(User, message)];
  }

  lemma SomeWrites(b: Limits, es: seq<Entry>, split: nat)
    requires es != [] && |es| > b.trigger && 0 < split == SafeSplitPoint(Msgs(es), |es| - b.keep)
    ensures RetainFromStep(split, StepsOf(es)).Some?
    ensures Writes(b, es) ==
            [Draft(Summary, SummaryContent(split, "so far"), Marker(RetainFromStep(split, StepsOf(es)).value))]
  {
    SummaryContentBytes(split, "so far");
    hide SummaryContent, Msgs, StepsOf, SafeSplitPoint, ToInt32, IsBlank, IsExecutionResult;
  }

  /** The bounds used here are those a SummarizingCompactor resolves to, and its outcomes are its own. */
  lemma LimitsResolve(scripts: nat, last: Turn, ok: nat -> bool)
    ensures Compact.Bounds(3, 1) == (3, 1) && Compact.Bounds(4, 1) == (4, 1) && Compact.Bounds(1, 1) == (1, 0)
    ensures Summarizes(Oracle(Limits(3, 1), scripts, last, ok), 3, 1)
    ensures Summarizes(Oracle(Limits(4, 1), scripts, last, ok), 4, 1)
    ensures Summarizes(Oracle(Limits(1, 0), scripts, last, ok), 1, 0)
  {
    FoldingSummarizes(Limits(3, 1), scripts, last, ok);
    FoldingSummarizes(Limits(4, 1), scripts, last, ok);
    FoldingSummarizes(Limits(1, 0), scripts, last, ok);
    hide Folding, Oracle, Outcome, Summarizes;
  }

  // ---- a user message that carries the label ----

  function Label(): string { RESULT_PREFIX + " mine" }

  function Labelling(): seq<Call> {
    [Ask(Limits(3, 1), "hi", 1, Cancelled()), Ask(Limits(3, 1), Label(), 0, Cancelled())]
  }

  lemma EndsAll()
    ensures Ends(Cancelled()) && Ends(Down()) && Ends(Scripted(Some("done")))
  {
    hide Refence;
  }

  lemma JustAsked(i: int, text: string)
    ensures RowsAt(i, [Plain(User, text)] + Pairs(0) + Closes(Cancelled())) == [Question(i, text)]
  {
    assert [Plain(User, text)] + [] + [] == [Plain(User, text)];
  }

  lemma OneScript(i: int, text: string)
    ensures RowsAt(i, [Plain(User, text)] + Pairs(1) + Closes(Cancelled())) ==
            [Question(i, text), Code(i + 1), Output(i + 2)]
  {
    assert Pairs(1) == [Plain(ExecuteJs, "x"), Plain(ExecuteJsResult, "ok")] + Pairs(0);
    assert [Plain(User, text)] + Pairs(1) + [] ==
        [Plain(User, text), Plain(ExecuteJs, "x"), Plain(ExecuteJsResult, "ok")];
  }

  /** A session's first call. */
  lemma FirstCall(window: int, b: Limits, message: string, scripts: nat, last: Turn, added: seq<RunStep>)
    requires 0 < window < 1000 && Ends(last) && scripts < 20 && b.trigger >= 0
    requires added == RowsAt(0, [Plain(User, message)] + Pairs(scripts) + Closes(last))
    ensures After(Settings(window), "s", [Ask(b, message, scripts, last)]) == added
  {
    assert After(Settings(window), "s", []) == [] && Least(0, window) == 0;
    hide *;
    EmptyHistory(window);
    assert [] + [Ask(b, message, scripts, last)] == [Ask(b, message, scripts, last)] && [] + added == added;
    ThenQuiet(window, [], [], b, message, scripts, last, 0, added);
  }

  lemma LabellingRows()
    ensures After(Settings(80), "s", Labelling()) == [Question(0, "hi"), Code(1), Output(2), Question(3, Label())]
  {
    var b := Limits(3, 1);
    var first, second := Ask(b, "hi", 1, Cancelled()), Ask(b, Label(), 0, Cancelled());
    var rows := [Question(0, "hi"), Code(1), Output(2)];
    assert Labelling() == [first] + [second] && Least(3, 80) == 3;
    hide *;
    EndsAll();
    OneScript(0, "hi");
    FirstCall(80, b, "hi", 1, Cancelled(), rows);
    ThreeQuiet("hi");
    JustAsked(3, Label());
    ThenQuiet(80, [first], rows, b, Label(), 0, Cancelled(), 3, [Question(3, Label())]);
    ThreeAndOne(Question(0, "hi"), Code(1), Output(2), Question(3, Label()));
  }

  lemma ThreeAndOne<T>(a: T, b: T, c: T, d: T)
    ensures [a, b, c] + [d] == [a, b, c, d]
  {}

  lemma ThreeQuiet(text: string)
    ensures |Rehydrated([Question(0, text), Code(1), Output(2)], 80)| <= 3
  {
    var rows := [Question(0, text), Code(1), Output(2)];
    assert NoUsable(rows) by {
      OthersUnusable(0, text);
      OthersUnusable(1, text);
      OthersUnusable(2, text);
      hide Usable, Question, Code, Output;
    }
    hide *;
    PlainHistory(rows, 80);
    ReplayNoLonger(rows);
  }

  /** In a session whose store never fails and whose indices are positions. */
  lemma LabelledQuestionOrphans()
    ensures var rows := After(Settings(80), "s", Labelling());
            var history := Msgs(Rehydrated(rows, 80));
            && Faithful(rows)
            && |history| == 4 && SafeSplitPoint(history, |history| - 1) == 2
            && history[1] == Message("assistant", Refence("x")) && IsExecutionResult(history[2])
  {
    var rows := [Question(0, "hi"), Code(1), Output(2), Question(3, Label())];
    assert Faithful(rows);
    assert IsExecutionResult(QuestionEntry(3, Label()).msg);
    hide *;
    LabellingRows();
    AllPass(3);
    PlayedQuestion(3, Label(), None);
    OthersUnusable(3, Label());
    FourRowsOrphan(rows, Question(3, Label()), QuestionEntry(3, Label()));
  }

  // ---- a question forgotten beyond the window ----

  lemma LoadedTail(front: seq<RunStep>, tail: seq<RunStep>, window: int)
    requires window > 0 && |tail| == window
    ensures Rehydrated(front + tail, window) == Rebuilt(tail)
  {
    hide Rebuilt;
    assert (front + tail)[|front|..] == tail;
  }

  /** What a checkpoint among the loaded rows makes of them. */
  lemma MarkedHistory(before: seq<RunStep>, i: int, n: nat, m: int, after: seq<RunStep>)
    requires NoUsable(after)
    ensures Rebuilt(before + [SoFar(i, n, m)] + after) ==
            [Entry(Message("user", SummaryContent(n, "so far")), i)]
                + (Replay(before, Some(m)) + Replay(after, Some(m)))
  {
    var cp := SoFar(i, n, m);
    var loaded := before + [cp] + after;
    assert loaded[|before|] == cp && loaded[|before| + 1..] == after;
    assert cp.content == SummaryContent(n, "so far") && cp.index == i && cp.toolArgs == Marker(m);
    SoFarUsable(i, n, m);
    hide Usable, SummaryContent, Replay, NoUsable, SoFar;
    LastCheckpointOf(loaded, |before|);
    hide LastCheckpoint;
    ReplayAppend(before + [cp], after, Some(m));
    ReplayAppend(before, [cp], Some(m));
    ReplayCons(cp, [], Some(m));
    ReplayNothing(Some(m));
    assert [cp] + [] == [cp];
    assert Played(cp, Some(m)) == [] by { PlayedOther(i, n, m, Some(m)); CpIs(i, n, m); }
    hide *;
    assert Replay(before, Some(m)) + [] == Replay(before, Some(m));
  }

  lemma CpIs(i: int, n: nat, m: int)
    ensures SoFar(i, n, m) == RunStep("s", i, Summary, SummaryContent(n, "so far"), Marker(m))
  {}

  /** A call whose history is folded at `split`. */
  lemma ThenFolding(window: int, calls: seq<Call>, rows: seq<RunStep>, b: Limits, message: string, scripts: nat,
                    last: Turn, es: seq<Entry>, split: nat, m: int, start: int, added: seq<RunStep>)
    requires 0 < window < 1000 && Ends(last) && scripts < 20 && After(Settings(window), "s", calls) == rows
    requires Rehydrated(rows, window) == es && es != [] && |es| > b.trigger && start == Least(|rows|, window)
    requires 0 < split == SafeSplitPoint(Msgs(es), |es| - b.keep) && RetainFromStep(split, StepsOf(es)) == Some(m)
    requires added == RowsAt(start, [Plain(User, message)] + [Checkpoint(split, m)] + Pairs(scripts) + Closes(last))
    ensures After(Settings(window), "s", calls + [Ask(b, message, scripts, last)]) == rows + added
  {
    hide *;
    Then(window, calls, rows, b, message, scripts, last);
    SomeWrites(b, es, split);
    CheckpointIs(split, m);
  }

  function Checkpoint(split: nat, m: int): Draft { Draft(Summary, SummaryContent(split, "so far"), Marker(m)) }

  lemma CheckpointIs(split: nat, m: int)
    ensures Checkpoint(split, m) == Draft(Summary, SummaryContent(split, "so far"), Marker(m))
  {}

  function Brief(): Call { Ask(Limits(1, 0), "hi", 0, Cancelled()) }

  lemma FoldedAsk(i: int, n: nat, m: int)
    ensures RowsAt(i, [Plain(User, "hi")] + [Checkpoint(n, m)] + Pairs(0) + Closes(Cancelled())) ==
            [Question(i, "hi"), SoFar(i + 1, n, m)]
  {
    hide SummaryContent;
    assert [Plain(User, "hi")] + [Checkpoint(n, m)] + [] + [] == [Plain(User, "hi"), Checkpoint(n, m)];
  }

  lemma OneQuestion()
    ensures Rehydrated([Question(0, "hi")], 2) == [QuestionEntry(0, "hi")]
  {
    var q := Question(0, "hi");
    OthersUnusable(0, "hi");
    assert NoUsable([q]);
    hide *;
    PlainHistory([q], 2);
    ReplayCons(q, [], None);
    ReplayNothing(None);
    AllPass(0);
    PlayedQuestion(0, "hi", None);
    assert [q] + [] == [q] && [QuestionEntry(0, "hi")] + [] == [QuestionEntry(0, "hi")];
  }

  lemma TwoQuestions()
    ensures Rehydrated([Question(0, "hi"), Question(1, "hi")], 2) == [QuestionEntry(0, "hi"), QuestionEntry(1, "hi")]
  {
    var p, q := Question(0, "hi"), Question(1, "hi");
    OthersUnusable(0, "hi");
    OthersUnusable(1, "hi");
    assert NoUsable([p, q]);
    hide *;
    PlainHistory([p, q], 2);
    ReplayCons(p, [q], None);
    ReplayCons(q, [], None);
    ReplayNothing(None);
    AllPass(0);
    AllPass(1);
    PlayedQuestion(0, "hi", None);
    PlayedQuestion(1, "hi", None);
    assert [q] + [] == [q] && [p] + [q] == [p, q];
    assert [QuestionEntry(0, "hi")] + ([QuestionEntry(1, "hi")] + []) ==
        [QuestionEntry(0, "hi"), QuestionEntry(1, "hi")];
  }

  /** The window holds a question and the checkpoint written right after it. */
  lemma QuestionAndCheckpoint(front: seq<RunStep>, i: int, n: nat, m: int)
    ensures Rehydrated(front + [Question(i, "hi"), SoFar(i + 1, n, m)], 2) ==
            [Entry(Message("user", SummaryContent(n, "so far")), i + 1)]
            + if m <= i then [QuestionEntry(i, "hi")] else []
  {
    var q, cp := Question(i, "hi"), SoFar(i + 1, n, m);
    assert Passes(i, Some(m)) <==> m <= i;
    assert NoUsable([]);
    hide *;
    LoadedTail(front, [q, cp], 2);
    MarkedHistory([q], i + 1, n, m, []);
    assert [q] + [cp] + [] == [q, cp] && [q] + [] == [q];
    ReplayCons(q, [], Some(m));
    ReplayNothing(Some(m));
    PlayedQuestion(i, "hi", Some(m));
    assert forall e: seq<Entry> :: e + [] + [] == e;
  }

  /** Two messages, nothing kept: everything is folded and the marker is one past the last row. */
  lemma FoldsBoth(a: Entry, b: Entry)
    requires 0 <= b.step < 100
    ensures SafeSplitPoint(Msgs([a, b]), 2) == 2 && RetainFromStep(2, StepsOf([a, b])) == Some(b.step + 1)
  {}

  lemma BriefRows()
    ensures After(Settings(2), "s", [Brief(), Brief()]) == [Question(0, "hi"), Question(1, "hi")]
  {
    hide After, Folding;
    var b := Limits(1, 0);
    assert [Brief()] + [Brief()] == [Brief(), Brief()] && Brief() == Ask(b, "hi", 0, Cancelled()) && Least(1, 2) == 1;
    hide *;
    EndsAll();
    JustAsked(0, "hi");
    FirstCall(2, b, "hi", 0, Cancelled(), [Question(0, "hi")]);
    OneQuestion();
    JustAsked(1, "hi");
    ThenQuiet(2, [Brief()], [Question(0, "hi")], b, "hi", 0, Cancelled(), 1, [Question(1, "hi")]);
    assert [Question(0, "hi")] + [Question(1, "hi")] == [Question(0, "hi"), Question(1, "hi")];
  }

  function ThirdRows(): seq<RunStep> { [Question(0, "hi"), Question(1, "hi")] + [Question(2, "hi"), SoFar(3, 2, 2)] }

  /** A brief call that rehydrates two messages folds both. */
  lemma ThenBrief(calls: seq<Call>, rows: seq<RunStep>, s: Entry, q: Entry, m: int)
    requires After(Settings(2), "s", calls) == rows && |rows| >= 2 && Rehydrated(rows, 2) == [s, q]
    requires 0 <= q.step < 100 && m == q.step + 1
    ensures After(Settings(2), "s", calls + [Brief()]) == rows + [Question(2, "hi"), SoFar(3, 2, m)]
  {
    hide After, Folding;
    var b := Limits(1, 0);
    assert Brief() == Ask(b, "hi", 0, Cancelled()) && Least(|rows|, 2) == 2;
    hide *;
    EndsAll();
    FoldsBoth(s, q);
    FoldedAsk(2, 2, m);
    ThenFolding(2, calls, rows, b, "hi", 0, Cancelled(), [s, q], 2, m, 2, [Question(2, "hi"), SoFar(3, 2, m)]);
  }

  lemma BriefFolds()
    ensures After(Settings(2), "s", [Brief(), Brief(), Brief()]) == ThirdRows()
  {
    hide After, Folding, Brief, SoFar, Refence;
    var rows := [Question(0, "hi"), Question(1, "hi")];
    assert [Brief(), Brief()] + [Brief()] == [Brief(), Brief(), Brief()];
    assert ThirdRows() == rows + [Question(2, "hi"), SoFar(3, 2, 2)] && QuestionEntry(1, "hi").step == 1;
    hide *;
    BriefRows();
    TwoQuestions();
    ThenBrief([Brief(), Brief()], rows, QuestionEntry(0, "hi"), QuestionEntry(1, "hi"), 2);
  }

  function FourthRows(): seq<RunStep> { ThirdRows() + [Question(2, "hi"), SoFar(3, 2, 3)] }

  lemma ThirdHistory(s: Entry, q: Entry)
    requires s == Entry(Message("user", SummaryContent(2, "so far")), 3) && q == QuestionEntry(2, "hi")
    ensures Rehydrated(ThirdRows(), 2) == [s, q]
  {
    var front := [Question(0, "hi"), Question(1, "hi")];
    assert ThirdRows() == front + [Question(2, "hi"), SoFar(3, 2, 2)];
    hide *;
    QuestionAndCheckpoint(front, 2, 2, 2);
    assert [s] + [q] == [s, q];
  }

  lemma BriefFoldsAgain()
    ensures After(Settings(2), "s", [Brief(), Brief(), Brief(), Brief()]) == FourthRows()
  {
    hide SummaryContent, After, Folding, Brief, SoFar;
    var s, q := Entry(Message("user", SummaryContent(2, "so far")), 3), QuestionEntry(2, "hi");
    assert [Brief(), Brief(), Brief()] + [Brief()] == [Brief(), Brief(), Brief(), Brief()];
    assert |ThirdRows()| == 4 && q.step == 2;
    assert FourthRows() == ThirdRows() + [Question(2, "hi"), SoFar(3, 2, 3)];
    hide *;
    BriefFolds();
    ThirdHistory(s, q);
    ThenBrief([Brief(), Brief(), Brief()], ThirdRows(), s, q, 3);
  }

  /** Window 2, trigger 1: the fourth of four such calls persists its question and a checkpoint, and the
      next rehydration has the checkpoint only. */
  lemma ForgottenQuestion()
    ensures var rows := After(Settings(2), "s", [Brief(), Brief(), Brief(), Brief()]);
            && |rows| == 6 && rows[4..] == [Question(2, "hi"), SoFar(3, 2, 3)]
            && Rehydrated(rows, 2) == [Entry(Message("user", SummaryContent(2, "so far")), 3)]
  {
    BriefFoldsAgain();
    var added := [Question(2, "hi"), SoFar(3, 2, 3)];
    assert |ThirdRows()| == 4 && FourthRows() == ThirdRows() + added
        && FourthRows()[4..] == added by { hide Question, SoFar; }
    hide *;
    QuestionAndCheckpoint(ThirdRows(), 2, 2, 3);
    var s := Entry(Message("user", SummaryContent(2, "so far")), 3);
    assert [s] + [] == [s];
  }

  // ---- two results in a row beyond the window ----

  function Wide(): Limits { Limits(4, 1) }

  function Fails(): Call { Ask(Wide(), "hi", 0, Down()) }

  function Twice(): Call { Ask(Wide(), "hi", 2, Cancelled()) }

  function Once(): Call { Ask(Wide(), "hi", 1, Cancelled()) }

  function FailedRows(i: int): seq<RunStep> { [Question(i, "hi"), Failure(i + 1)] }

  lemma FailedAsk(i: int)
    ensures RowsAt(i, [Plain(User, "hi")] + Pairs(0) + Closes(Down())) == FailedRows(i)
  {
    assert [Plain(User, "hi")] + [] + [Plain(ErrorStep, "down")] == [Plain(User, "hi"), Plain(ErrorStep, "down")];
  }

  lemma FailedReplay(i: int)
    ensures Replay(FailedRows(i), None) == [QuestionEntry(i, "hi")] && NoUsable(FailedRows(i))
  {
    var q, f := Question(i, "hi"), Failure(i + 1);
    OthersUnusable(i, "hi");
    OthersUnusable(i + 1, "hi");
    assert NoUsable([q, f]) by { hide Usable, Question, Failure; }
    assert FailedRows(i) == [q, f];
    hide *;
    ReplayCons(q, [f], None);
    ReplayCons(f, [], None);
    ReplayNothing(None);
    AllPass(i);
    PlayedQuestion(i, "hi", None);
    PlayedOther(i + 1, 0, 0, None);
    assert [f] + [] == [f] && [q] + [f] == [q, f] && [QuestionEntry(i, "hi")] + ([] + []) == [QuestionEntry(i, "hi")];
  }

  lemma NoUsableConcat(a: seq<RunStep>, b: seq<RunStep>)
    requires NoUsable(a) && NoUsable(b)
    ensures NoUsable(a + b)
  {
    hide Usable;
  }

  /** Rows of at most three failed calls rehydrate to their questions. */
  lemma FailedHistory(rows: seq<RunStep>, i: int)
    requires |rows| <= 4 && NoUsable(rows) && |Replay(rows, None)| <= 2
    ensures |rows + FailedRows(i)| <= 6 && NoUsable(rows + FailedRows(i))
            && |Replay(rows + FailedRows(i), None)| <= |Replay(rows, None)| + 1
    ensures |Rehydrated(rows + FailedRows(i), 6)| <= 4
  {
    assert |FailedRows(i)| == 2;
    hide *;
    FailedReplay(i);
    NoUsableConcat(rows, FailedRows(i));
    ReplayAppend(rows, FailedRows(i), None);
    PlainHistory(rows + FailedRows(i), 6);
  }

  function ThreeFailed(): seq<RunStep> { FailedRows(0) + FailedRows(2) + FailedRows(4) }

  lemma FailedSession()
    ensures After(Settings(6), "s", [Fails(), Fails(), Fails()]) == ThreeFailed()
    ensures |Rehydrated(ThreeFailed(), 6)| <= 4
  {
    hide After, Folding, FailedRows, Refence;
    assert [Fails()] + [Fails()] == [Fails(), Fails()] && [Fails(), Fails()] + [Fails()] == [Fails(), Fails(), Fails()];
    assert Fails() == Ask(Wide(), "hi", 0, Down()) && Wide().trigger == 4 && Least(2, 6) == 2 && Least(4, 6) == 4;
    assert [] + FailedRows(0) == FailedRows(0) && NoUsable([]) && Replay([], None) == [];
    assert ThreeFailed() == FailedRows(0) + FailedRows(2) + FailedRows(4);
    hide *;
    EndsAll();
    FailedAsk(0);
    FailedAsk(2);
    FailedAsk(4);
    FirstCall(6, Wide(), "hi", 0, Down(), FailedRows(0));
    FailedHistory([], 0);
    FailedCount(0);
    FailedCount(2);
    ThenQuiet(6, [Fails()], FailedRows(0), Wide(), "hi", 0, Down(), 2, FailedRows(2));
    FailedHistory(FailedRows(0), 2);
    ThenQuiet(6, [Fails(), Fails()], FailedRows(0) + FailedRows(2), Wide(), "hi", 0, Down(), 4, FailedRows(4));
    FailedHistory(FailedRows(0) + FailedRows(2), 4);
  }

  lemma FailedCount(i: int)
    ensures |FailedRows(i)| == 2
  {}

  function TwoScripts(): seq<RunStep> { [Question(6, "hi"), Code(7), Output(8), Code(9), Output(10)] }

  lemma TwoScriptsAsk()
    ensures RowsAt(6, [Plain(User, "hi")] + Pairs(2) + Closes(Cancelled())) == TwoScripts()
  {
    var j, o := Plain(ExecuteJs, "x"), Plain(ExecuteJsResult, "ok");
    assert Pairs(1) == [j, o] + Pairs(0) && Pairs(2) == [j, o] + Pairs(1);
    assert [Plain(User, "hi")] + Pairs(2) + [] == [Plain(User, "hi"), j, o, j, o];
  }

  lemma TwiceRows()
    ensures After(Settings(6), "s", [Fails(), Fails(), Fails(), Twice()]) == ThreeFailed() + TwoScripts()
  {
    hide After, Folding, FailedRows, Refence, TwoScripts;
    assert [Fails(), Fails(), Fails()] + [Twice()] == [Fails(), Fails(), Fails(), Twice()];
    assert Twice() == Ask(Wide(), "hi", 2, Cancelled()) && Wide().trigger == 4 && Least(6, 6) == 6;
    FailedCount(0);
    FailedCount(2);
    FailedCount(4);
    assert |ThreeFailed()| == 6;
    hide *;
    EndsAll();
    FailedSession();
    TwoScriptsAsk();
    ThenQuiet(6, [Fails(), Fails(), Fails()], ThreeFailed(), Wide(), "hi", 2, Cancelled(), 6, TwoScripts());
  }

  function TwiceHistory(): seq<Entry> {
    [QuestionEntry(6, "hi"), CodeEntry(7), OutputEntry(8), CodeEntry(9), OutputEntry(10)]
  }

  function LoadedFront(): seq<RunStep> { FailedRows(0) + FailedRows(2) + [Question(4, "hi")] }

  lemma LoadedSplit()
    ensures ThreeFailed() + TwoScripts() == LoadedFront() + ([Failure(5)] + TwoScripts())
    ensures |[Failure(5)] + TwoScripts()| == 6
  {
    assert FailedRows(4) == [Question(4, "hi")] + [Failure(5)];
    hide Question, Failure, Code, Output;
  }

  /** The window before the last call: a failure, then the Run of two scripts. */
  lemma TwiceLoaded()
    ensures Rehydrated(ThreeFailed() + TwoScripts(), 6) == TwiceHistory()
  {
    hide *;
    var x := Failure(5);
    LoadedSplit();
    OthersUnusable(5, "hi");
    TwoScriptsPlain();
    UnusableCons(x, TwoScripts());
    LoadedTail(LoadedFront(), [x] + TwoScripts(), 6);
    NoCheckpointIff([x] + TwoScripts());
    UnmarkedRebuilt([x] + TwoScripts());
    ReplayCons(x, TwoScripts(), None);
    PlayedOther(5, 0, 0, None);
    assert [] + TwiceHistory() == TwiceHistory();
  }

  lemma TwoScriptsIs()
    ensures TwoScripts() == [Question(6, "hi")] + [Code(7), Output(8), Code(9), Output(10)]
    ensures TwiceHistory() == [QuestionEntry(6, "hi")] + [CodeEntry(7), OutputEntry(8), CodeEntry(9), OutputEntry(10)]
  {
    hide Question, Code, Output, QuestionEntry, CodeEntry, OutputEntry;
  }

  lemma TwoScriptsPlain()
    ensures Replay(TwoScripts(), None) == TwiceHistory() && NoUsable(TwoScripts())
  {
    hide *;
    TwoScriptsIs();
    TwoScriptsUnusable();
    ReplayCons(Question(6, "hi"), [Code(7), Output(8), Code(9), Output(10)], None);
    AllPass(6);
    PlayedQuestion(6, "hi", None);
    ScriptsPlayed();
  }

  lemma ScriptsPlayed()
    ensures Replay([Code(7), Output(8), Code(9), Output(10)], None) ==
            [CodeEntry(7), OutputEntry(8), CodeEntry(9), OutputEntry(10)]
  {
    hide *;
    Replay4(Code(7), Output(8), Code(9), Output(10), None);
    AllPass(7);
    AllPass(8);
    AllPass(9);
    AllPass(10);
    PlayedCode(7, None);
    PlayedOutput(8, None);
    PlayedCode(9, None);
    PlayedOutput(10, None);
    Four(CodeEntry(7), OutputEntry(8), CodeEntry(9), OutputEntry(10));
  }

  lemma TwoScriptsUnusable()
    ensures NoUsable([Question(6, "hi")] + [Code(7), Output(8), Code(9), Output(10)])
  {
    hide *;
    OthersUnusable(6, "hi");
    OthersUnusable(7, "hi");
    OthersUnusable(8, "hi");
    OthersUnusable(9, "hi");
    OthersUnusable(10, "hi");
    Cons(Code(7), Output(8), Code(9), Output(10), Output(10));
    Cons(Output(8), Code(9), Output(10), Output(10), Output(10));
    Cons(Code(9), Output(10), Output(10), Output(10), Output(10));
    Cons(Output(10), Output(10), Output(10), Output(10), Output(10));
    UnusableNone();
    UnusableCons(Output(10), []);
    UnusableCons(Code(9), [Output(10)]);
    UnusableCons(Output(8), [Code(9), Output(10)]);
    UnusableCons(Code(7), [Output(8), Code(9), Output(10)]);
    UnusableCons(Question(6, "hi"), [Code(7), Output(8), Code(9), Output(10)]);
  }

  /** The cut falls on the last result and steps back to its script. */
  lemma TwiceCut()
    ensures |TwiceHistory()| == 5 && SafeSplitPoint(Msgs(TwiceHistory()), 4) == 3
    ensures RetainFromStep(3, StepsOf(TwiceHistory())) == Some(9)
  {
    OutputIsResult(10);
    hide IsExecutionResult, Refence, ToInt32;
  }

  function FoldedScript(): seq<RunStep> { [Question(6, "hi"), SoFar(7, 3, 9), Code(8), Output(9)] }

  lemma FoldedScriptAsk()
    ensures RowsAt(6, [Plain(User, "hi")] + [Checkpoint(3, 9)] + Pairs(1) + Closes(Cancelled())) == FoldedScript()
  {
    hide SummaryContent;
    var j, o := Plain(ExecuteJs, "x"), Plain(ExecuteJsResult, "ok");
    assert Pairs(1) == [j, o] + Pairs(0);
    assert [Plain(User, "hi")] + [Checkpoint(3, 9)] + Pairs(1) + [] == [Plain(User, "hi"), Checkpoint(3, 9), j, o];
  }

  function Outgrown(): seq<Call> { [Fails(), Fails(), Fails(), Twice(), Once()] }

  lemma OutgrownRows()
    ensures After(Settings(6), "s", Outgrown()) == ThreeFailed() + TwoScripts() + FoldedScript()
  {
    hide After, Folding, FailedRows, Refence, TwoScripts, FoldedScript, TwiceHistory;
    assert Outgrown() == [Fails(), Fails(), Fails(), Twice()] + [Once()];
    assert Once() == Ask(Wide(), "hi", 1, Cancelled()) && Wide() == Limits(4, 1) && Least(11, 6) == 6;
    OutgrownCount();
    hide *;
    EndsAll();
    TwiceRows();
    TwiceLoaded();
    TwiceCut();
    FoldedScriptAsk();
    ThenFolding(6, [Fails(), Fails(), Fails(), Twice()], ThreeFailed() + TwoScripts(), Wide(), "hi", 1, Cancelled(),
                TwiceHistory(), 3, 9, 6, FoldedScript());
  }

  lemma OutgrownCount()
    ensures |ThreeFailed() + TwoScripts()| == 11
  {}

  /** Window 6, trigger 4, keep 1, no failing store: the last call's marker keeps its result and drops
      its script, so two results stand in a row and the next compaction would retain one without its
      script. */
  lemma OutgrownResultsOrphan()
    ensures var history := Msgs(Rehydrated(After(Settings(6), "s", Outgrown()), 6));
            && |history| == 4 && SafeSplitPoint(history, |history| - 1) == 2
            && history[1] == Message("assistant", Refence("x")) && IsExecutionResult(history[2])
  {
    hide *;
    OutgrownRows();
    OutgrownSplit();
    OutgrownBefore();
    OutgrownAfter();
    LoadedTail(OutgrownFront(), Before() + [SoFar(7, 3, 9)] + Later(), 6);
    MarkedHistory(Before(), 7, 3, 9, Later());
    OutgrownEntries(Entry(Message("user", SummaryContent(3, "so far")), 7));
  }

  function OutgrownFront(): seq<RunStep> { ThreeFailed() + [Question(6, "hi"), Code(7), Output(8)] }

  function Before(): seq<RunStep> { [Code(9), Output(10), Question(6, "hi")] }

  function Later(): seq<RunStep> { [Code(8), Output(9)] }

  lemma OutgrownSplit()
    ensures ThreeFailed() + TwoScripts() + FoldedScript() == OutgrownFront() + (Before() + [SoFar(7, 3, 9)] + Later())
    ensures |Before() + [SoFar(7, 3, 9)] + Later()| == 6
  {
    hide ThreeFailed, Question, Code, Output, SoFar;
  }

  lemma OutgrownEntries(s: Entry)
    ensures var es := [s] + ([CodeEntry(9), OutputEntry(10)] + [OutputEntry(9)]);
            && |es| == 4 && SafeSplitPoint(Msgs(es), 3) == 2
            && Msgs(es)[1] == Message("assistant", Refence("x")) && IsExecutionResult(Msgs(es)[2])
  {
    assert CodeEntry(9).msg == Message("assistant", Refence("x"));
    hide *;
    OutputIsResult(10);
    OutputIsResult(9);
    assert [s] + ([CodeEntry(9), OutputEntry(10)] + [OutputEntry(9)]) ==
        [s, CodeEntry(9), OutputEntry(10), OutputEntry(9)];
    CutOrphans([s, CodeEntry(9), OutputEntry(10), OutputEntry(9)]);
  }

  lemma Marked(i: int)
    ensures Passes(i, Some(9)) <==> i >= 9
  {}

  lemma OutgrownBefore()
    ensures Replay(Before(), Some(9)) == [CodeEntry(9), OutputEntry(10)]
  {
    assert Before() == [Code(9), Output(10), Question(6, "hi")];
    hide *;
    var from := Some(9);
    ReplayNothing(from);
    ReplayCons(Code(9), [Output(10), Question(6, "hi")], from);
    ReplayCons(Output(10), [Question(6, "hi")], from);
    ReplayCons(Question(6, "hi"), [], from);
    Marked(9);
    Marked(10);
    Marked(6);
    PlayedCode(9, from);
    PlayedOutput(10, from);
    PlayedQuestion(6, "hi", from);
    Cons(Code(9), Output(10), Question(6, "hi"), Code(9), Code(9));
    Cons(Output(10), Question(6, "hi"), Code(9), Code(9), Code(9));
    Cons(Question(6, "hi"), Code(9), Code(9), Code(9), Code(9));
    TwoOf(CodeEntry(9), OutputEntry(10));
  }

  lemma TwoOf(a: Entry, b: Entry)
    ensures [a] + ([b] + ([] + [])) == [a, b]
  {}

  lemma OutgrownAfter()
    ensures Replay(Later(), Some(9)) == [OutputEntry(9)] && NoUsable(Later())
  {
    assert Later() == [Code(8), Output(9)];
    hide *;
    var from := Some(9);
    ReplayNothing(from);
    ReplayCons(Code(8), [Output(9)], from);
    ReplayCons(Output(9), [], from);
    Marked(8);
    Marked(9);
    PlayedCode(8, from);
    PlayedOutput(9, from);
    Cons(Code(8), Output(9), Code(8), Code(8), Code(8));
    Cons(Output(9), Code(8), Code(8), Code(8), Code(8));
    assert [] + ([OutputEntry(9)] + []) == [OutputEntry(9)];
    OthersUnusable(8, "");
    OthersUnusable(9, "");
    UnusableNone();
    UnusableCons(Output(9), []);
    UnusableCons(Code(8), [Output(9)]);
  }

  // ---- two compactions in a row beyond the window ----

  function Asks(): Call { Ask(Wide(), "hi", 0, Cancelled()) }

  function Scripts(): seq<RunStep> { [Question(3, "hi"), Code(4), Output(5), Code(6), Output(7)] }

  lemma TwoScriptsAt()
    ensures RowsAt(3, [Plain(User, "hi")] + Pairs(2) + Closes(Cancelled())) == Scripts()
  {
    var j, o := Plain(ExecuteJs, "x"), Plain(ExecuteJsResult, "ok");
    assert Pairs(1) == [j, o] + Pairs(0) && Pairs(2) == [j, o] + Pairs(1);
    assert [Plain(User, "hi")] + Pairs(2) + [] == [Plain(User, "hi"), j, o, j, o];
  }

  function FirstScript(): seq<RunStep> { [Question(0, "hi"), Code(1), Output(2)] }

  lemma FirstScriptQuiet()
    ensures |FirstScript()| == 3 && |Rehydrated(FirstScript(), 6)| <= 4
  {
    assert |FirstScript()| == 3;
    assert FirstScript() == [Question(0, "hi")] + [Code(1), Output(2)];
    hide *;
    OthersUnusable(0, "hi");
    OthersUnusable(1, "hi");
    OthersUnusable(2, "hi");
    Cons(Code(1), Output(2), Output(2), Output(2), Output(2));
    Cons(Output(2), Output(2), Output(2), Output(2), Output(2));
    UnusableNone();
    UnusableCons(Output(2), []);
    UnusableCons(Code(1), [Output(2)]);
    UnusableCons(Question(0, "hi"), [Code(1), Output(2)]);
    PlainHistory(FirstScript(), 6);
    ReplayNoLonger(FirstScript());
  }

  function SecondRows(): seq<RunStep> { FirstScript() + Scripts() }

  lemma SecondSession()
    ensures After(Settings(6), "s", [Once(), Twice()]) == SecondRows()
  {
    hide After, Folding, Refence, Scripts, FirstScript;
    assert [Once()] + [Twice()] == [Once(), Twice()] && Wide().trigger == 4 && Least(3, 6) == 3;
    assert Once() == Ask(Wide(), "hi", 1, Cancelled()) && Twice() == Ask(Wide(), "hi", 2, Cancelled());
    assert SecondRows() == FirstScript() + Scripts();
    FirstScriptIs();
    hide *;
    EndsAll();
    OneScript(0, "hi");
    FirstCall(6, Wide(), "hi", 1, Cancelled(), FirstScript());
    FirstScriptQuiet();
    TwoScriptsAt();
    ThenQuiet(6, [Once()], FirstScript(), Wide(), "hi", 2, Cancelled(), 3, Scripts());
  }

  lemma FirstScriptIs()
    ensures FirstScript() == [Question(0, "hi"), Code(0 + 1), Output(0 + 2)]
  {
    hide Question, Code, Output;
  }

  lemma Replay5(a: RunStep, b: RunStep, c: RunStep, d: RunStep, e: RunStep, from: Option<int>)
    ensures Replay([a, b, c, d, e], from) ==
            Played(a, from) + (Played(b, from) + Played(c, from) + Played(d, from) + Played(e, from))
  {
    hide *;
    ReplayCons(a, [b, c, d, e], from);
    Replay4(b, c, d, e, from);
    Cons(a, b, c, d, e);
  }

  /** What the six rows before the third call rehydrate to. */
  function SixEntries(): seq<Entry> {
    [OutputEntry(2)] + [QuestionEntry(3, "hi"), CodeEntry(4), OutputEntry(5), CodeEntry(6), OutputEntry(7)]
  }

  lemma ScriptsPlain()
    ensures Replay(Scripts(), None) ==
            [QuestionEntry(3, "hi"), CodeEntry(4), OutputEntry(5), CodeEntry(6), OutputEntry(7)]
    ensures NoUsable(Scripts())
  {
    assert Scripts() == [Question(3, "hi"), Code(4), Output(5), Code(6), Output(7)];
    hide *;
    Replay5(Question(3, "hi"), Code(4), Output(5), Code(6), Output(7), None);
    AllPass(3);
    AllPass(4);
    AllPass(5);
    AllPass(6);
    AllPass(7);
    PlayedQuestion(3, "hi", None);
    PlayedCode(4, None);
    PlayedOutput(5, None);
    PlayedCode(6, None);
    PlayedOutput(7, None);
    Four(CodeEntry(4), OutputEntry(5), CodeEntry(6), OutputEntry(7));
    Cons(QuestionEntry(3, "hi"), CodeEntry(4), OutputEntry(5), CodeEntry(6), OutputEntry(7));
    ScriptsUnusable();
  }

  lemma ScriptsUnusable()
    ensures NoUsable([Question(3, "hi"), Code(4), Output(5), Code(6), Output(7)])
  {
    hide *;
    OthersUnusable(3, "hi");
    OthersUnusable(4, "hi");
    OthersUnusable(5, "hi");
    OthersUnusable(6, "hi");
    OthersUnusable(7, "hi");
    Cons(Question(3, "hi"), Code(4), Output(5), Code(6), Output(7));
    Cons(Code(4), Output(5), Code(6), Output(7), Output(7));
    Cons(Output(5), Code(6), Output(7), Output(7), Output(7));
    Cons(Code(6), Output(7), Output(7), Output(7), Output(7));
    Cons(Output(7), Output(7), Output(7), Output(7), Output(7));
    UnusableNone();
    UnusableCons(Output(7), []);
    UnusableCons(Code(6), [Output(7)]);
    UnusableCons(Output(5), [Code(6), Output(7)]);
    UnusableCons(Code(4), [Output(5), Code(6), Output(7)]);
    UnusableCons(Question(3, "hi"), [Code(4), Output(5), Code(6), Output(7)]);
  }

  lemma SecondSplit()
    ensures SecondRows() == [Question(0, "hi"), Code(1)] + ([Output(2)] + Scripts())
    ensures |[Output(2)] + Scripts()| == 6 && |SecondRows()| == 8
  {
    hide Question, Code, Output;
  }

  lemma SecondHistory()
    ensures Rehydrated(SecondRows(), 6) == SixEntries()
  {
    assert SixEntries() ==
           [OutputEntry(2)] + [QuestionEntry(3, "hi"), CodeEntry(4), OutputEntry(5), CodeEntry(6), OutputEntry(7)];
    hide *;
    var tail := [Output(2)] + Scripts();
    SecondSplit();
    ScriptsPlain();
    OthersUnusable(2, "hi");
    UnusableCons(Output(2), Scripts());
    LoadedTail([Question(0, "hi"), Code(1)], tail, 6);
    NoCheckpointIff(tail);
    UnmarkedRebuilt(tail);
    ReplayCons(Output(2), Scripts(), None);
    AllPass(2);
    PlayedOutput(2, None);
  }

  lemma SixCut()
    ensures SixEntries() != [] && |SixEntries()| == 6 && SafeSplitPoint(Msgs(SixEntries()), 5) == 4
    ensures RetainFromStep(4, StepsOf(SixEntries())) == Some(6)
  {
    OutputIsResult(7);
    assert SixEntries()[5] == OutputEntry(7) && SixEntries()[4] == CodeEntry(6);
    hide IsExecutionResult, Refence, ToInt32, SixEntries;
  }

  /** A question and a checkpoint that keeps rows from index 6 on. */
  function Marked6(): seq<RunStep> { [Question(6, "hi"), SoFar(7, 4, 6)] }

  lemma Marked6Ask()
    ensures RowsAt(6, [Plain(User, "hi")] + [Checkpoint(4, 6)] + Pairs(0) + Closes(Cancelled())) == Marked6()
  {
    FoldedAsk(6, 4, 6);
    hide SummaryContent;
  }

  lemma ThirdSession()
    ensures After(Settings(6), "s", [Once(), Twice(), Asks()]) == SecondRows() + Marked6()
  {
    hide After, Folding, Refence, SecondRows, SixEntries, Marked6;
    assert [Once(), Twice()] + [Asks()] == [Once(), Twice(), Asks()];
    assert Asks() == Ask(Wide(), "hi", 0, Cancelled()) && Wide() == Limits(4, 1) && Least(8, 6) == 6;
    hide *;
    EndsAll();
    SecondSession();
    SecondSplit();
    SecondHistory();
    SixCut();
    Marked6Ask();
    ThenFolding(6, [Once(), Twice()], SecondRows(), Wide(), "hi", 0, Cancelled(), SixEntries(), 4, 6, 6, Marked6());
  }

  function Summed(): Entry { Entry(Message("user", SummaryContent(4, "so far")), 7) }

  lemma At6(i: int)
    ensures Passes(i, Some(6)) <==> i >= 6
  {}

  lemma ThirdSplit()
    ensures SecondRows() + Marked6() ==
            [Question(0, "hi"), Code(1), Output(2), Question(3, "hi")]
            + ([Code(4), Output(5), Code(6), Output(7), Question(6, "hi")] + [SoFar(7, 4, 6)] + [])
    ensures |[Code(4), Output(5), Code(6), Output(7), Question(6, "hi")] + [SoFar(7, 4, 6)] + []| == 6
    ensures |SecondRows() + Marked6()| == 10
  {
    hide Question, Code, Output, SoFar;
  }

  lemma ThirdReplay()
    ensures Replay([Code(4), Output(5), Code(6), Output(7), Question(6, "hi")], Some(6)) ==
            [CodeEntry(6), OutputEntry(7), QuestionEntry(6, "hi")]
  {
    hide *;
    var from := Some(6);
    Replay5(Code(4), Output(5), Code(6), Output(7), Question(6, "hi"), from);
    At6(4);
    At6(5);
    At6(6);
    At6(7);
    PlayedCode(4, from);
    PlayedOutput(5, from);
    PlayedCode(6, from);
    PlayedOutput(7, from);
    PlayedQuestion(6, "hi", from);
    assert [] + ([] + [CodeEntry(6)] + [OutputEntry(7)] + [QuestionEntry(6, "hi")]) ==
           [CodeEntry(6), OutputEntry(7), QuestionEntry(6, "hi")];
  }

  lemma ThirdHistoryIs()
    ensures |Rehydrated(SecondRows() + Marked6(), 6)| == 4
  {
    hide *;
    ThirdSplit();
    ThirdReplay();
    UnusableNone();
    ReplayNothing(Some(6));
    var before := [Code(4), Output(5), Code(6), Output(7), Question(6, "hi")];
    LoadedTail([Question(0, "hi"), Code(1), Output(2), Question(3, "hi")], before + [SoFar(7, 4, 6)] + [], 6);
    MarkedHistory(before, 7, 4, 6, []);
  }

  function Four6(): seq<RunStep> { SecondRows() + Marked6() + [Question(6, "hi")] }

  lemma FourthSession()
    ensures After(Settings(6), "s", [Once(), Twice(), Asks(), Asks()]) == Four6()
  {
    hide After, Folding, Refence, SecondRows, Marked6;
    assert [Once(), Twice(), Asks()] + [Asks()] == [Once(), Twice(), Asks(), Asks()];
    assert Asks() == Ask(Wide(), "hi", 0, Cancelled()) && Wide().trigger == 4 && Least(10, 6) == 6;
    assert Four6() == SecondRows() + Marked6() + [Question(6, "hi")];
    hide *;
    EndsAll();
    ThirdSession();
    ThirdSplit();
    ThirdHistoryIs();
    JustAsked(6, "hi");
    ThenQuiet(6, [Once(), Twice(), Asks()], SecondRows() + Marked6(), Wide(), "hi", 0, Cancelled(), 6,
              [Question(6, "hi")]);
  }

  function FrontOf5(): seq<RunStep> { [Question(0, "hi"), Code(1), Output(2), Question(3, "hi"), Code(4)] }

  function Before5(): seq<RunStep> { [Output(5), Code(6), Output(7), Question(6, "hi")] }

  lemma FourthSplit()
    ensures Four6() == FrontOf5() + (Before5() + [SoFar(7, 4, 6)] + [Question(6, "hi")])
    ensures |Before5() + [SoFar(7, 4, 6)] + [Question(6, "hi")]| == 6 && |Four6()| == 11
  {
    hide Question, Code, Output, SoFar;
  }

  lemma OneKept(i: int)
    requires i >= 6
    ensures Replay([Question(i, "hi")], Some(6)) == [QuestionEntry(i, "hi")] && NoUsable([Question(i, "hi")])
  {
    hide *;
    ReplayCons(Question(i, "hi"), [], Some(6));
    ReplayNothing(Some(6));
    At6(i);
    PlayedQuestion(i, "hi", Some(6));
    OthersUnusable(i, "hi");
    UnusableNone();
    UnusableCons(Question(i, "hi"), []);
    Cons(Question(i, "hi"), Question(i, "hi"), Question(i, "hi"), Question(i, "hi"), Question(i, "hi"));
    assert [QuestionEntry(i, "hi")] + [] == [QuestionEntry(i, "hi")];
  }

  lemma Replay5th()
    ensures Replay(Before5(), Some(6)) == [CodeEntry(6), OutputEntry(7), QuestionEntry(6, "hi")]
  {
    assert Before5() == [Output(5), Code(6), Output(7), Question(6, "hi")];
    hide *;
    var from := Some(6);
    Replay4(Output(5), Code(6), Output(7), Question(6, "hi"), from);
    At6(5);
    At6(6);
    At6(7);
    PlayedOutput(5, from);
    PlayedCode(6, from);
    PlayedOutput(7, from);
    PlayedQuestion(6, "hi", from);
    assert [] + [CodeEntry(6)] + [OutputEntry(7)] + [QuestionEntry(6, "hi")] ==
           [CodeEntry(6), OutputEntry(7), QuestionEntry(6, "hi")];
  }

  /** The history before the fifth call, and what a fold of it keeps. */
  function FifthEntries(): seq<Entry> {
    [Summed()] + ([CodeEntry(6), OutputEntry(7), QuestionEntry(6, "hi")] + [QuestionEntry(6, "hi")])
  }

  lemma FifthHistory()
    ensures Rehydrated(Four6(), 6) == FifthEntries()
  {
    assert Summed() == Entry(Message("user", SummaryContent(4, "so far")), 7) by { hide SummaryContent; }
    assert FifthEntries() ==
           [Summed()] + ([CodeEntry(6), OutputEntry(7), QuestionEntry(6, "hi")] + [QuestionEntry(6, "hi")]);
    hide *;
    FourthSplit();
    OneKept(6);
    Replay5th();
    LoadedTail(FrontOf5(), Before5() + [SoFar(7, 4, 6)] + [Question(6, "hi")], 6);
    MarkedHistory(Before5(), 7, 4, 6, [Question(6, "hi")]);
  }

  /** Five messages that end in a question: one message is kept, from index 6 on. */
  lemma FiveCut(es: seq<Entry>)
    requires |es| == 5 && es[4] == QuestionEntry(6, "hi")
    ensures SafeSplitPoint(Msgs(es), 4) == 4 && RetainFromStep(4, StepsOf(es)) == Some(6)
  {
    assert "hi"[0] == 'h' && RESULT_PREFIX[0] == 'E';
    assert !IsExecutionResult(es[4].msg);
    hide IsExecutionResult, ToInt32;
  }

  lemma FifthEntriesEnd()
    ensures |FifthEntries()| == 5 && FifthEntries()[4] == QuestionEntry(6, "hi")
  {
    hide Summed, CodeEntry, OutputEntry, QuestionEntry;
  }

  lemma FifthSession()
    ensures After(Settings(6), "s", [Once(), Twice(), Asks(), Asks(), Asks()]) == Four6() + Marked6()
  {
    hide After, Folding, Refence, Four6, Marked6, FifthEntries;
    assert [Once(), Twice(), Asks(), Asks()] + [Asks()] == [Once(), Twice(), Asks(), Asks(), Asks()];
    assert Asks() == Ask(Wide(), "hi", 0, Cancelled()) && Wide() == Limits(4, 1) && Least(11, 6) == 6;
    hide *;
    EndsAll();
    FourthSession();
    FourthSplit();
    FifthHistory();
    FifthEntriesEnd();
    FiveCut(FifthEntries());
    Marked6Ask();
    ThenFolding(6, [Once(), Twice(), Asks(), Asks()], Four6(), Wide(), "hi", 0, Cancelled(), FifthEntries(), 4, 6, 6,
                Marked6());
  }

  function FrontOf6(): seq<RunStep> {
    [Question(0, "hi"), Code(1), Output(2), Question(3, "hi"), Code(4), Output(5), Code(6)]
  }

  function Before6(): seq<RunStep> {
    [Output(7), Question(6, "hi"), SoFar(7, 4, 6), Question(6, "hi"), Question(6, "hi")]
  }

  lemma FifthSplit()
    ensures Four6() + Marked6() == FrontOf6() + (Before6() + [SoFar(7, 4, 6)] + [])
    ensures |Before6() + [SoFar(7, 4, 6)] + []| == 6 && |Four6() + Marked6()| == 13
  {
    hide Question, Code, Output, SoFar;
  }

  lemma Replay6th()
    ensures Replay(Before6(), Some(6)) ==
            [OutputEntry(7), QuestionEntry(6, "hi"), QuestionEntry(6, "hi"), QuestionEntry(6, "hi")]
  {
    assert Before6() == [Output(7), Question(6, "hi"), SoFar(7, 4, 6), Question(6, "hi"), Question(6, "hi")];
    hide *;
    var from := Some(6);
    Replay5(Output(7), Question(6, "hi"), SoFar(7, 4, 6), Question(6, "hi"), Question(6, "hi"), from);
    At6(6);
    At6(7);
    PlayedOutput(7, from);
    PlayedQuestion(6, "hi", from);
    PlayedOther(7, 4, 6, from);
    var q := QuestionEntry(6, "hi");
    assert [OutputEntry(7)] + ([q] + [] + [q] + [q]) == [OutputEntry(7), q, q, q];
  }

  function SixthEntries(): seq<Entry> {
    [Summed()] + [OutputEntry(7), QuestionEntry(6, "hi"), QuestionEntry(6, "hi"), QuestionEntry(6, "hi")]
  }

  lemma SixthHistory()
    ensures Rehydrated(Four6() + Marked6(), 6) == SixthEntries()
    ensures |SixthEntries()| == 5 && SixthEntries()[4] == QuestionEntry(6, "hi")
  {
    assert Summed() == Entry(Message("user", SummaryContent(4, "so far")), 7) by { hide SummaryContent; }
    assert SixthEntries() ==
           [Summed()] + [OutputEntry(7), QuestionEntry(6, "hi"), QuestionEntry(6, "hi"), QuestionEntry(6, "hi")];
    hide *;
    FifthSplit();
    Replay6th();
    UnusableNone();
    ReplayNothing(Some(6));
    LoadedTail(FrontOf6(), Before6() + [SoFar(7, 4, 6)] + [], 6);
    MarkedHistory(Before6(), 7, 4, 6, []);
    assert SixthEntries() + [] == SixthEntries();
    var four := [OutputEntry(7), QuestionEntry(6, "hi"), QuestionEntry(6, "hi"), QuestionEntry(6, "hi")];
    assert four + [] == four;
  }

  lemma SixthSession()
    ensures After(Settings(6), "s", [Once(), Twice(), Asks(), Asks(), Asks(), Asks()]) ==
            Four6() + Marked6() + Marked6()
  {
    hide After, Folding, Refence, Four6, Marked6, SixthEntries;
    assert [Once(), Twice(), Asks(), Asks(), Asks()] + [Asks()] == [Once(), Twice(), Asks(), Asks(), Asks(), Asks()];
    assert Asks() == Ask(Wide(), "hi", 0, Cancelled()) && Wide() == Limits(4, 1) && Least(13, 6) == 6;
    hide *;
    EndsAll();
    FifthSession();
    FifthSplit();
    SixthHistory();
    FiveCut(SixthEntries());
    Marked6Ask();
    ThenFolding(6, [Once(), Twice(), Asks(), Asks(), Asks()], Four6() + Marked6(), Wide(), "hi", 0, Cancelled(),
                SixthEntries(), 4, 6, 6, Marked6());
  }

  lemma Marked6Compacts(calls: seq<Call>, rows: seq<RunStep>)
    requires After(Settings(6), "s", calls) == rows
    requires After(Settings(6), "s", calls + [Asks()]) == rows + Marked6()
    ensures Compacts(Settings(6), "s", rows, Asks())
  {
    hide *;
    AfterOne(Settings(6), "s", calls, Asks());
    SameRest(rows, Added(Settings(6), "s", rows, Asks()), Marked6());
    Marked6Usable();
    CompactsBy(Settings(6), "s", rows, Asks());
  }

  lemma Marked6Usable()
    ensures |Marked6()| == 2 && Usable(Marked6()[1]) && |Replay(Marked6(), None)| == 1
  {
    assert Marked6() == [Question(6, "hi")] + [SoFar(7, 4, 6)] && Marked6()[1] == SoFar(7, 4, 6) by { hide SoFar; }
    assert |Marked6()| == 2;
    hide *;
    SoFarUsable(7, 4, 6);
    ReplayCons(Question(6, "hi"), [SoFar(7, 4, 6)], None);
    ReplayCons(SoFar(7, 4, 6), [], None);
    ReplayNothing(None);
    AllPass(6);
    PlayedQuestion(6, "hi", None);
    PlayedOther(7, 4, 6, None);
    assert [SoFar(7, 4, 6)] + [] == [SoFar(7, 4, 6)];
  }

  lemma CompactsBy(cfg: Config, sid: string, rows: seq<RunStep>, call: Call)
    requires |Added(cfg, sid, rows, call)| > 1 && Usable(Added(cfg, sid, rows, call)[1])
    ensures Compacts(cfg, sid, rows, call)
  {
    hide Added, Usable;
  }

  /** Window 6, trigger 4, keep 1, no failing store: the fifth and the sixth call both compact, with one
      new replayable step between them where trigger - keep - 1 is two. */
  lemma CompactionsInARow()
    ensures var cfg := Settings(6);
            var four := [Once(), Twice(), Asks(), Asks()];
            var rows, all := After(cfg, "s", four), After(cfg, "s", four + [Asks()]);
            && AllSound(four) && Sound(Asks())
            && Compacts(cfg, "s", rows, Asks()) && Compacts(cfg, "s", all, Asks())
            && |rows| <= |all| && |Replay(all[|rows|..], None)| == 1 < 4 - 1 - 1
  {
    assert [Once(), Twice(), Asks(), Asks()] + [Asks()] == [Once(), Twice(), Asks(), Asks(), Asks()];
    assert [Once(), Twice(), Asks(), Asks(), Asks()] + [Asks()] == [Once(), Twice(), Asks(), Asks(), Asks(), Asks()];
    assert (Four6() + Marked6())[|Four6()|..] == Marked6();
    AllSoundHere();
    hide *;
    FourthSession();
    FifthSession();
    SixthSession();
    Marked6Compacts([Once(), Twice(), Asks(), Asks()], Four6());
    Marked6Compacts([Once(), Twice(), Asks(), Asks(), Asks()], Four6() + Marked6());
    Marked6Usable();
  }

  lemma AllSoundHere()
    ensures AllSound([Once(), Twice(), Asks(), Asks()]) && Sound(Asks())
  {
    assert Sound(Once()) && Sound(Twice()) && Sound(Asks());
    hide Sound, Once, Twice, Asks;
  }

  // ---- a session to which everything applies ----

  /** A question answered by a script that runs and calls answer(). */
  function Answered(): Call { Ask(Limits(3, 1), "hi", 0, Scripted(Some("done"))) }

  function AnsweredRows(): seq<RunStep> { [Question(0, "hi"), Code(1), Output(2), Final(3)] }

  lemma AnsweredAsk()
    ensures RowsAt(0, [Plain(User, "hi")] + Pairs(0) + Closes(Scripted(Some("done")))) == AnsweredRows()
  {
    hide Refence;
    var j, o, r := Plain(ExecuteJs, "x"), Plain(ExecuteJsResult, "ok"), Plain(Response, "done");
    assert Closes(Scripted(Some("done"))) == [j, o, r];
    assert [Plain(User, "hi")] + [] + [j, o, r] == [Plain(User, "hi"), j, o, r];
  }

  lemma AnsweredHistory()
    ensures Rehydrated(AnsweredRows(), 80) == [QuestionEntry(0, "hi"), CodeEntry(1), OutputEntry(2), FinalEntry(3)]
  {
    var rows := AnsweredRows();
    OthersUnusable(0, "hi");
    OthersUnusable(1, "hi");
    OthersUnusable(2, "hi");
    OthersUnusable(3, "hi");
    assert NoUsable(rows) && |rows| == 4 by { hide Usable, Question, Code, Output, Final; }
    assert rows == [Question(0, "hi"), Code(1), Output(2), Final(3)];
    hide *;
    PlainHistory(rows, 80);
    AllPass(3);
    PlayedFinal(3, None);
    FourEntries("hi", Final(3), FinalEntry(3));
  }

  lemma AnsweredCut()
    ensures var es := [QuestionEntry(0, "hi"), CodeEntry(1), OutputEntry(2), FinalEntry(3)];
            SafeSplitPoint(Msgs(es), 3) == 3 && RetainFromStep(3, StepsOf(es)) == Some(3)
  {
    hide Refence, ToInt32;
  }

  function AnsweredAgain(): seq<RunStep> { [Question(4, "hi"), SoFar(5, 3, 3), Code(6), Output(7), Final(8)] }

  lemma AnsweredAgainAsk()
    ensures RowsAt(4, [Plain(User, "hi")] + [Checkpoint(3, 3)] + Pairs(0) + Closes(Scripted(Some("done")))) ==
            AnsweredAgain()
  {
    hide Refence, SummaryContent;
    var j, o, r := Plain(ExecuteJs, "x"), Plain(ExecuteJsResult, "ok"), Plain(Response, "done");
    assert Closes(Scripted(Some("done"))) == [j, o, r];
    assert [Plain(User, "hi")] + [Checkpoint(3, 3)] + [] + [j, o, r] == [Plain(User, "hi"), Checkpoint(3, 3), j, o, r];
  }

  lemma AnsweredTwice()
    ensures After(Settings(80), "s", [Answered()]) == AnsweredRows()
    ensures After(Settings(80), "s", [Answered()] + [Answered()]) == AnsweredRows() + AnsweredAgain()
  {
    hide After, Folding, Refence, AnsweredAgain;
    var b := Limits(3, 1);
    assert Answered() == Ask(b, "hi", 0, Scripted(Some("done"))) && |AnsweredRows()| == 4 && Least(4, 80) == 4;
    hide *;
    EndsAll();
    AnsweredAsk();
    FirstCall(80, b, "hi", 0, Scripted(Some("done")), AnsweredRows());
    AnsweredHistory();
    AnsweredCut();
    AnsweredAgainAsk();
    ThenFolding(80, [Answered()], AnsweredRows(), b, "hi", 0, Scripted(Some("done")),
                [QuestionEntry(0, "hi"), CodeEntry(1), OutputEntry(2), FinalEntry(3)], 3, 3, 4, AnsweredAgain());
  }

  lemma AnsweredFaithful()
    ensures Faithful(AnsweredRows() + AnsweredAgain()) && |AnsweredRows() + AnsweredAgain()| == 9
  {
    hide SummaryContent;
  }

  lemma AnsweredMeets()
    ensures Modest(Settings(80)) && NoRedactor(Settings(80)) && Compact.Bounds(3, 1) == (3, 1)
    ensures Sound(Answered()) && Unlabelled([Answered()]) && Summarizes(Answered().env, 3, 1)
  {
    FoldingSummarizes(Limits(3, 1), 0, Scripted(Some("done")), Answered().env.appendOk);
    assert "hi"[0] == 'h' && RESULT_PREFIX[0] == 'E';
    hide Folding, Refence, Outcome;
  }

  lemma AnsweredChecks(rows: seq<RunStep>)
    requires rows + Added(Settings(80), "s", rows, Answered()) == rows + AnsweredAgain()
    ensures WritesCheckpoint(Settings(80), "s", rows, Answered())
  {
    hide *;
    SameRest(rows, Added(Settings(80), "s", rows, Answered()), AnsweredAgain());
    SecondOfAnswered();
    SoFarUsable(5, 3, 3);
    WritesIt(Settings(80), "s", rows, Answered());
  }

  lemma SameRest<T>(a: seq<T>, b: seq<T>, c: seq<T>)
    requires a + b == a + c
    ensures b == c
  {
    assert (a + b)[|a|..] == b && (a + c)[|a|..] == c;
  }

  lemma SecondOfAnswered()
    ensures |AnsweredAgain()| == 5 && AnsweredAgain()[1] == SoFar(5, 3, 3)
  {
    hide SoFar;
  }

  lemma WritesIt(cfg: Config, sid: string, rows: seq<RunStep>, call: Call)
    requires |Added(cfg, sid, rows, call)| > 1 && Usable(Added(cfg, sid, rows, call)[1])
    ensures WritesCheckpoint(cfg, sid, rows, call)
  {
    hide Added, Usable;
  }

  lemma AnsweredAlone()
    requires Sound(Answered()) && Summarizes(Answered().env, 3, 1)
    ensures AllSound([Answered()]) && AllSummarize([Answered()], 3, 1) && Settings(80).historyWindow == 80
  {
    hide Sound, Summarizes, Answered;
  }

  /** Two such calls with trigger 3 and keep 1, as a SummarizingCompactor may have: the second folds the
      first one's turns, and every hypothesis of the session theorems holds. */
  lemma SessionsReachCheckpoints()
    ensures var cfg, calls, call := Settings(80), [Answered()], Answered();
            && Compact.Bounds(3, 1) == (3, 1)
            && Modest(cfg) && NoRedactor(cfg) && AllSound(calls) && Sound(call) && Unlabelled(calls)
            && AllSummarize(calls, 3, 1) && Summarizes(call.env, 3, 1)
            && WritesCheckpoint(cfg, "s", After(cfg, "s", calls), call)
            && Faithful(After(cfg, "s", calls + [call])) && |After(cfg, "s", calls + [call])| <= cfg.historyWindow
            && After(cfg, "s", calls) == AnsweredRows()
  {
    hide *;
    AnsweredMeets();
    AnsweredAlone();
    AnsweredTwice();
    AnsweredFaithful();
    AfterOne(Settings(80), "s", [Answered()], Answered());
    AnsweredChecks(AnsweredRows());
  }
}
