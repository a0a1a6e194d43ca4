/** run.go with redact/redact.go: what a Redactor keeps out of the trace and of the result. */
module Secrets {
  import opened Text
  import Redact
  import opened Store
  import opened Run
  import opened Session

  /** The loop's Redactor is the one with these entries. */
  ghost predicate Redacts(cfg: Config, es: seq<Redact.Entry>) {
    Redact.NonEmptyValues(es) && forall s: string :: cfg.redact(s) == Redact.ApplyAll(es, s)
  }

  /** These rows are this session's, and each holds what the Redactor made of some text. */
  ghost predicate AllRedacted(cfg: Config, sid: string, rows: seq<RunStep>) {
    forall i | 0 <= i < |rows| :: rows[i].sessionId == sid && Redacted(cfg, rows[i].content)
  }

  ghost predicate Redacted(cfg: Config, content: string) { exists text: string :: content == cfg.redact(text) }

  lemma {:induction false} WrittenRedacted(sid: string, cfg: Config, ok: nat -> bool, prior: nat, drafts: seq<Draft>)
    ensures AllRedacted(cfg, sid, Written(sid, cfg, ok, prior, drafts))
    decreases |drafts|
  {
    hide ToInt32;
    if drafts != [] {
      var n := |drafts| - 1;
      WrittenRedacted(sid, cfg, ok, prior, drafts[..n]);
      assert Row(sid, cfg.redact, prior + n, drafts[n]).content == cfg.redact(drafts[n].content);
    }
  }

  /** Nothing is persisted past the Redactor, whatever the model, the scripts, the compactor and the store
      do. */
  lemma {:induction false} RowsRedacted(cfg: Config, sid: string, calls: seq<Call>)
    ensures AllRedacted(cfg, sid, After(cfg, sid, calls))
    decreases |calls|
  {
    hide Written, RunOf, Redacted;
    if calls != [] {
      var front, call := calls[..|calls| - 1], calls[|calls| - 1];
      var rows := After(cfg, sid, front);
      RowsRedacted(cfg, sid, front);
      WrittenRedacted(sid, cfg, call.env.appendOk, |Prior(cfg, call.env, rows)|, RunOf(cfg, rows, call).drafts);
      assert After(cfg, sid, calls) == rows + Added(cfg, sid, rows, call);
    }
  }

  /** With placeholders that pass the check, no row of any session and no final text holds a registered
      value, whatever ran. */
  lemma NoSecretPersisted(cfg: Config, sid: string, calls: seq<Call>, es: seq<Redact.Entry>)
    requires Redacts(cfg, es) && Redact.WellFormed(es) && Redact.LongestFirst(es) && Redact.PlaceholdersClean(es)
    ensures var rows := After(cfg, sid, calls);
            forall i, j | 0 <= i < |rows| && 0 <= j < |es| :: !Contains(rows[i].content, es[j].value)
    ensures forall n: nat, p: Progress, j | 0 <= j < |es| :: !Contains(ResultOf(cfg, n, p).finalText, es[j].value)
  {
    hide *;
    var rows := After(cfg, sid, calls);
    RowsRedacted(cfg, sid, calls);
    forall i, j | 0 <= i < |rows| && 0 <= j < |es| ensures !Contains(rows[i].content, es[j].value) {
      var text := RowText(cfg, sid, rows, i);
      TextClean(cfg, es, text, j);
    }
    forall n: nat, p: Progress, j | 0 <= j < |es| ensures !Contains(ResultOf(cfg, n, p).finalText, es[j].value) {
      ResultText(cfg, n, p);
      TextClean(cfg, es, p.final, j);
    }
  }

  lemma ResultText(cfg: Config, n: nat, p: Progress)
    ensures ResultOf(cfg, n, p).finalText == cfg.redact(p.final)
  {
    hide ToInt32;
  }

  lemma RowText(cfg: Config, sid: string, rows: seq<RunStep>, i: nat) returns (text: string)
    requires AllRedacted(cfg, sid, rows) && i < |rows|
    ensures rows[i].content == cfg.redact(text)
  {
    assert Redacted(cfg, rows[i].content);
    text :| rows[i].content == cfg.redact(text);
  }

  lemma TextClean(cfg: Config, es: seq<Redact.Entry>, text: string, j: nat)
    requires Redacts(cfg, es) && Redact.WellFormed(es) && Redact.LongestFirst(es) && Redact.PlaceholdersClean(es)
    requires j < |es|
    ensures !Contains(cfg.redact(text), es[j].value)
  {
    Redact.RedactionCompleteIff(es);
    hide Contains, Redact.WellFormed, Redact.LongestFirst, Redact.PlaceholdersClean, Redact.ApplyAll;
    assert Redact.Clean(es, Redact.ApplyAll(es, text));
  }

  /** And a text that holds none of them is persisted as it is. */
  lemma OthersUntouched(cfg: Config, es: seq<Redact.Entry>, text: string)
    requires Redacts(cfg, es) && Redact.Clean(es, text)
    ensures cfg.redact(text) == text
  {
    hide Redact.Clean;
    Redact.ApplyAbsent(es, text);
  }
}
