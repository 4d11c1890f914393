/** The lines of the descriptor as they are written (src/usbscpi.c), piece by
    piece. */
module DescriptorWritten {
  import opened Common
  import opened Decimal
  import opened DescriptorPrinter

  lemma SpacedOne(items: seq<Item>, it: Item)
    ensures Spaced(items + [it]) == Spaced(items) + (" " + ItemText(it))
  {
    assert (items + [it])[..|items|] == items;
    Assoc(Spaced(items), " ", ItemText(it));
  }

  /** What a line says after its head, each item as its own piece. */
  function Pieces(items: seq<Item>): seq<string> {
    seq(|items|, i requires 0 <= i < |items| => " " + ItemText(items[i]))
  }

  lemma {:induction false} SpacedIsPieces(items: seq<Item>)
    ensures Spaced(items) == Flat(Pieces(items))
    decreases |items|
  {
    hide ItemText;
    if items != [] {
      var front, last := items[..|items| - 1], items[|items| - 1];
      assert items == front + [last];
      SpacedIsPieces(front);
      SpacedOne(front, last);
      assert Pieces(items) == Pieces(front) + [" " + ItemText(last)];
      FlatAppend(Pieces(front), [" " + ItemText(last)]);
      FlatOne(" " + ItemText(last));
    }
  }

  lemma FlatOne(s: string)
    ensures Flat([s]) == s
  {
    assert [s][1..] == [] && s + "" == s;
  }

  lemma PlainPiece(key: string, value: string)
    ensures " " + ItemText(Item(key, value, false)) == " " + key + "=" + value
  {
  }

  lemma QuotedPiece(key: string, value: string)
    ensures " " + ItemText(Item(key, value, true)) == " " + key + "=\"" + value + "\""
  {
    assert "=" + "\"" == "=\"";
  }

  lemma PiecesAppend(a: seq<Item>, b: seq<Item>)
    ensures Pieces(a + b) == Pieces(a) + Pieces(b)
  {
    hide ItemText;
  }

  /** A piece that is written if there is a value for it. */
  function Given(before: string, value: Option<string>, after: string): seq<string> {
    if value.Some? then [before + value.value + after] else []
  }

  lemma OptPieces(before: string, key: string, value: Option<string>)
    requires before == " " + key + "="
    ensures Pieces(Opt(key, value)) == Given(before, value, "")
  {
    if value.Some? { PlainPiece(key, value.value); assert before + value.value + "" == before + value.value; }
  }

  lemma QuotedPieces(before: string, key: string, value: Option<string>)
    requires before == " " + key + "=\""
    ensures Pieces(OptQuoted(key, value)) == Given(before, value, "\"")
  {
    if value.Some? { QuotedPiece(key, value.value); }
  }

  /** The DEV line. */
  lemma DeviceWritten(d: Device)
    ensures RecordText(Record("DEV", DeviceItems(d))) ==
      "DEV" + Flat([" idn=\"" + Or(d.idn) + "\"", " proto=" + Dec(d.proto), " mtu=" + Dec(d.mtu),
                    " max_block=" + Dec(d.maxBlock)]) + "\n"
  {
    SpacedIsPieces(DeviceItems(d));
    hide Flat, Spaced, Dec;
    QuotedPiece("idn", Or(d.idn));
    assert " " + "idn" + "=\"" == " idn=\"";
    PlainPiece("proto", Dec(d.proto));
    PlainPiece("mtu", Dec(d.mtu));
    PlainPiece("max_block", Dec(d.maxBlock));
    assert " " + "proto" + "=" == " proto=" && " " + "mtu" + "=" == " mtu=" && " " + "max_block" + "=" == " max_block=";
    hide ItemText;
    assert Pieces(DeviceItems(d)) ==
      [" " + ItemText(Item("idn", Or(d.idn), true)), " " + ItemText(Item("proto", Dec(d.proto), false)),
       " " + ItemText(Item("mtu", Dec(d.mtu), false)), " " + ItemText(Item("max_block", Dec(d.maxBlock), false))];
  }

  /** A parameter: name, type and whether it is required, and if both are there the
      queries for its options. */
  function ParamWritten(p: Param): string {
    var options := p.optionsCount.Some? && p.optionsFetch.Some?;
    " param=" + (Or(p.name) + ":" + Or(p.kind) + ":" + (if p.required then "req" else "opt")
                 + (if options then "|" + p.optionsCount.value + "|" + p.optionsFetch.value else ""))
  }

  function PromptWritten(p: Prompt): string {
    " prompt=" + (Or(p.state) + "|" + Or(p.kind) + "|" + Or(p.send) + (if p.value.Some? then "|" + p.value.value else ""))
  }

  lemma ParamPiece(p: Param)
    ensures " " + ItemText(ParamItem(p)) == ParamWritten(p)
  {
    PlainPiece("param", ParamItem(p).value);
    assert " " + "param" + "=" == " param=";
  }

  lemma PromptPiece(p: Prompt)
    ensures " " + ItemText(PromptItem(p)) == PromptWritten(p)
  {
    PlainPiece("prompt", PromptItem(p).value);
    assert " " + "prompt" + "=" == " prompt=";
  }

  function ParamsWritten(ps: seq<Param>): seq<string> {
    seq(|ps|, i requires 0 <= i < |ps| => ParamWritten(ps[i]))
  }

  lemma {:induction false} ParamPieces(acc: seq<Item>, ps: seq<Param>, n: nat)
    requires n <= |ps|
    ensures Pieces(WithParams(acc, ps, n)) == Pieces(acc) + ParamsWritten(ps[..n])
    decreases n
  {
    hide ItemText, ParamItem, ParamWritten;
    if n == 0 {
      assert Pieces(acc) + ParamsWritten(ps[..0]) == Pieces(acc);
    } else {
      ParamPieces(acc, ps, n - 1);
      PiecesAppend(WithParams(acc, ps, n - 1), [ParamItem(ps[n - 1])]);
      ParamPiece(ps[n - 1]);
      assert ParamsWritten(ps[..n]) == ParamsWritten(ps[..n - 1]) + [ParamWritten(ps[n - 1])];
      Assoc(Pieces(acc), ParamsWritten(ps[..n - 1]), [ParamWritten(ps[n - 1])]);
    }
  }

  /** A CMD line. */
  lemma CommandWritten(c: Command)
    ensures RecordText(CommandRecord(c)) ==
      "CMD " + c.pattern + Flat(Given(" kind=", c.kind, "") + Given(" summary=\"", c.summary, "\"")
                               + ParamsWritten(c.params) + Given(" returns=", c.returnType, "")) + "\n"
  {
    SpacedIsPieces(CommandItems(c));
    hide Flat, Spaced, Pieces, Given, ParamsWritten, WithParams;
    assert " " + "kind" + "=" == " kind=" && " " + "summary" + "=\"" == " summary=\"";
    assert " " + "returns" + "=" == " returns=";
    OptPieces(" kind=", "kind", c.kind);
    QuotedPieces(" summary=\"", "summary", c.summary);
    OptPieces(" returns=", "returns", c.returnType);
    var lead := [] + Opt("kind", c.kind) + OptQuoted("summary", c.summary);
    assert [] + Opt("kind", c.kind) == Opt("kind", c.kind);
    PiecesAppend(Opt("kind", c.kind), OptQuoted("summary", c.summary));
    ParamPieces(lead, c.params, |c.params|);
    assert c.params[..|c.params|] == c.params;
    PiecesAppend(WithParams(lead, c.params, |c.params|), Opt("returns", c.returnType));
  }

  function PromptsWritten(ps: seq<Prompt>): seq<string> {
    seq(|ps|, i requires 0 <= i < |ps| => PromptWritten(ps[i]))
  }

  function FailedWritten(fs: seq<Option<string>>): seq<string> {
    seq(|fs|, i requires 0 <= i < |fs| => " failed=" + Or(fs[i]))
  }

  lemma {:induction false} PromptPieces(acc: seq<Item>, ps: seq<Prompt>, n: nat)
    requires n <= |ps|
    ensures Pieces(WithPrompts(acc, ps, n)) == Pieces(acc) + PromptsWritten(ps[..n])
    decreases n
  {
    hide ItemText, PromptItem, PromptWritten;
    if n == 0 {
      assert Pieces(acc) + PromptsWritten(ps[..0]) == Pieces(acc);
    } else {
      PromptPieces(acc, ps, n - 1);
      PiecesAppend(WithPrompts(acc, ps, n - 1), [PromptItem(ps[n - 1])]);
      PromptPiece(ps[n - 1]);
      assert PromptsWritten(ps[..n]) == PromptsWritten(ps[..n - 1]) + [PromptWritten(ps[n - 1])];
      Assoc(Pieces(acc), PromptsWritten(ps[..n - 1]), [PromptWritten(ps[n - 1])]);
    }
  }

  lemma {:induction false} FailedPieces(acc: seq<Item>, fs: seq<Option<string>>, n: nat)
    requires n <= |fs|
    ensures Pieces(WithFailed(acc, fs, n)) == Pieces(acc) + FailedWritten(fs[..n])
    decreases n
  {
    if n == 0 {
      hide ItemText;
      assert Pieces(acc) + FailedWritten(fs[..0]) == Pieces(acc);
    } else {
      FailedPieces(acc, fs, n - 1);
      PlainPiece("failed", Or(fs[n - 1]));
      assert " " + "failed" + "=" == " failed=";
      hide ItemText, Or;
      var it := Item("failed", Or(fs[n - 1]), false);
      PiecesAppend(WithFailed(acc, fs, n - 1), [it]);
      assert Pieces([it]) == [" failed=" + Or(fs[n - 1])];
      assert FailedWritten(fs[..n]) == FailedWritten(fs[..n - 1]) + [" failed=" + Or(fs[n - 1])];
      Assoc(Pieces(acc), FailedWritten(fs[..n - 1]), [" failed=" + Or(fs[n - 1])]);
    }
  }

  function LeadWritten(w: Workflow, renamed: Option<string>): seq<string> {
    Given(" renamed=", renamed, "") + Given(" type=", w.kind, "") + Given(" summary=\"", w.summary, "\"")
    + Given(" trigger=", w.trigger, "")
  }

  function QueriesWritten(w: Workflow): seq<string> {
    (if w.doneQuery.Some? then [" done=" + (w.doneQuery.value + ":" + Or(w.doneValue))] else [])
    + Given(" count=", w.countQuery, "")
    + (if w.fetchQuery.Some? then [" fetch=" + (w.fetchQuery.value + "#index")] else [])
    + Given(" fields=", w.fields, "") + Given(" state=", w.stateQuery, "") + Given(" success=", w.success, "")
  }

  function TailWritten(w: Workflow): seq<string> {
    Given(" result=", w.resultQuery, "") + Given(" result_fields=", w.resultFields, "")
    + [" timeout_ms=" + Dec(w.timeout)] + [" poll_ms=" + Dec(w.poll)]
  }

  lemma OnePiece(before: string, key: string, value: string)
    requires before == " " + key + "="
    ensures Pieces([Item(key, value, false)]) == [before + value]
  {
    PlainPiece(key, value);
  }

  lemma LeadPieces(w: Workflow, renamed: Option<string>)
    ensures Pieces(WithLead([], w, renamed)) == LeadWritten(w, renamed)
  {
    assert " " + "renamed" + "=" == " renamed=" && " " + "type" + "=" == " type=";
    assert " " + "summary" + "=\"" == " summary=\"" && " " + "trigger" + "=" == " trigger=";
    hide Pieces, Given;
    OptPieces(" renamed=", "renamed", renamed);
    OptPieces(" type=", "type", w.kind);
    QuotedPieces(" summary=\"", "summary", w.summary);
    OptPieces(" trigger=", "trigger", w.trigger);
    var a := Opt("renamed", renamed);
    assert [] + a == a;
    PiecesAppend(a, Opt("type", w.kind));
    PiecesAppend(a + Opt("type", w.kind), OptQuoted("summary", w.summary));
    PiecesAppend(a + Opt("type", w.kind) + OptQuoted("summary", w.summary), Opt("trigger", w.trigger));
  }

  lemma QueryPieces(acc: seq<Item>, w: Workflow)
    ensures Pieces(WithQueries(acc, w)) == Pieces(acc) + QueriesWritten(w)
  {
    assert " " + "done" + "=" == " done=" && " " + "count" + "=" == " count=" && " " + "fetch" + "=" == " fetch=";
    assert " " + "fields" + "=" == " fields=" && " " + "state" + "=" == " state=" && " " + "success" + "=" == " success=";
    if w.doneQuery.Some? { OnePiece(" done=", "done", w.doneQuery.value + ":" + Or(w.doneValue)); }
    if w.fetchQuery.Some? { OnePiece(" fetch=", "fetch", w.fetchQuery.value + "#index"); }
    NoPieces();
    hide Pieces, Given, Or;
    OptPieces(" count=", "count", w.countQuery);
    OptPieces(" fields=", "fields", w.fields);
    OptPieces(" state=", "state", w.stateQuery);
    OptPieces(" success=", "success", w.success);
    var i1 := acc + DoneItems(w);
    var i2 := i1 + Opt("count", w.countQuery);
    var i3 := i2 + FetchItems(w);
    var i4 := i3 + Opt("fields", w.fields);
    var i5 := i4 + Opt("state", w.stateQuery);
    PiecesAppend(acc, DoneItems(w));
    PiecesAppend(i1, Opt("count", w.countQuery));
    PiecesAppend(i2, FetchItems(w));
    PiecesAppend(i3, Opt("fields", w.fields));
    PiecesAppend(i4, Opt("state", w.stateQuery));
    PiecesAppend(i5, Opt("success", w.success));
    hide DoneItems, FetchItems, Opt;
    Regrouped(Pieces(acc), Pieces(DoneItems(w)), Given(" count=", w.countQuery, ""), Pieces(FetchItems(w)),
              Given(" fields=", w.fields, ""), Given(" state=", w.stateQuery, ""), Given(" success=", w.success, ""));
  }

  lemma Regrouped(x: seq<string>, a: seq<string>, b: seq<string>, c: seq<string>, d: seq<string>, e: seq<string>,
                  f: seq<string>)
    ensures x + a + b + c + d + e + f == x + (a + b + c + d + e + f)
  {
  }

  lemma NoPieces()
    ensures Pieces([]) == []
  {
  }

  lemma TailPieces(acc: seq<Item>, w: Workflow)
    ensures Pieces(WithTail(acc, w)) == Pieces(acc) + TailWritten(w)
  {
    assert " " + "result" + "=" == " result=" && " " + "result_fields" + "=" == " result_fields=";
    assert " " + "timeout_ms" + "=" == " timeout_ms=" && " " + "poll_ms" + "=" == " poll_ms=";
    hide Pieces, Given, Dec;
    OptPieces(" result=", "result", w.resultQuery);
    OptPieces(" result_fields=", "result_fields", w.resultFields);
    OnePiece(" timeout_ms=", "timeout_ms", Dec(w.timeout));
    OnePiece(" poll_ms=", "poll_ms", Dec(w.poll));
    var i1 := acc + Opt("result", w.resultQuery);
    var i2 := i1 + Opt("result_fields", w.resultFields);
    var i3 := i2 + [Item("timeout_ms", Dec(w.timeout), false)];
    PiecesAppend(acc, Opt("result", w.resultQuery));
    PiecesAppend(i1, Opt("result_fields", w.resultFields));
    PiecesAppend(i2, [Item("timeout_ms", Dec(w.timeout), false)]);
    PiecesAppend(i3, [Item("poll_ms", Dec(w.poll), false)]);
  }

  /** A WF line. */
  lemma WorkflowWritten(w: Workflow, name: string, renamed: Option<string>)
    ensures RecordText(WorkflowRecord(w, name, renamed)) ==
      "WF " + name + Flat(LeadWritten(w, renamed) + QueriesWritten(w) + FailedWritten(w.failed) + PromptsWritten(w.prompts)
                          + TailWritten(w)) + "\n"
  {
    SpacedIsPieces(WorkflowItems(w, renamed));
    hide Flat, Spaced, Pieces, Given, WithLead, WithQueries, WithFailed, WithPrompts, WithTail,
         LeadWritten, QueriesWritten, FailedWritten, PromptsWritten, TailWritten;
    LeadPieces(w, renamed);
    var i1 := WithLead([], w, renamed);
    var i2 := WithQueries(i1, w);
    var i3 := WithFailed(i2, w.failed, |w.failed|);
    var i4 := WithPrompts(i3, w.prompts, |w.prompts|);
    QueryPieces(i1, w);
    FailedPieces(i2, w.failed, |w.failed|);
    PromptPieces(i3, w.prompts, |w.prompts|);
    TailPieces(i4, w);
    assert w.failed[..|w.failed|] == w.failed && w.prompts[..|w.prompts|] == w.prompts;
  }
}
