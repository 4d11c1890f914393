/** The device's descriptor printer and the host's parser, written in two
    languages, are inverse: parsing the emitted text gives the descriptor. */
module DescriptorRoundTrip {
  import opened Common
  import opened Decimal
  import opened LineText
  import opened Quoting
  import opened DescriptorPrinter
  import opened DescriptorParser
  import opened DescriptorColumns
  import opened DescriptorLines
  import opened DescriptorParts

  /* ---- what the text can carry ---- */

  /** Every value of the record can stand where it stands on the line, and is cut
      where it was joined. */
  predicate CleanCommand(c: Command) {
    && StandingName(c.pattern, CommandItems(c) == []) && StandingItems(CommandItems(c))
    && forall i :: 0 <= i < |c.params| ==> CleanParam(c.params[i])
  }

  predicate CleanWorkflow(w: Workflow) {
    && StandingName(w.name, false) && StandingItems(WorkflowItems(w, None))
    && (forall i :: 0 <= i < |w.renamedFrom| ==> StandingName(w.renamedFrom[i], false))
    && (w.renamedFrom != [] ==> StandingItems(WorkflowItems(w, Some(w.name))))
    && (w.doneQuery.Some? ==> ':' !in Or(w.doneValue)) && '#' !in Or(w.fetchQuery)
    && (forall i :: 0 <= i < |w.prompts| ==> CleanPrompt(w.prompts[i]))
    && w.timeout <= U32_MAX && w.poll <= U32_MAX
  }

  predicate CleanDevice(d: Device) {
    StandingItems(DeviceItems(d)) && d.proto <= U32_MAX && d.mtu <= U64_MAX && d.maxBlock <= U64_MAX
  }

  predicate Clean(desc: Descriptor, dev: Device) {
    && CleanDevice(dev)
    && (forall i :: 0 <= i < |desc.commands| ==> CleanCommand(desc.commands[i]))
    && (forall i :: 0 <= i < |desc.workflows| ==> CleanWorkflow(desc.workflows[i]))
  }

  /* ---- what the host should learn ---- */

  function HostParamsOf(ps: seq<Param>): seq<HostParam> {
    seq(|ps|, i requires 0 <= i < |ps| => HostParamOf(ps[i]))
  }

  function HostCommandOf(c: Command): HostCommand {
    HostCommand(c.pattern, Or(c.kind), Or(c.summary), HostParamsOf(c.params), c.returnType)
  }

  function HostPromptsOf(ps: seq<Prompt>, n: nat): seq<HostPrompt>
    requires n <= |ps|
  {
    if n == 0 then [] else HostPromptsOf(ps, n - 1) + HostPromptOf(ps[n - 1])
  }

  function FailedOf(fs: seq<Option<string>>): seq<string> {
    seq(|fs|, i requires 0 <= i < |fs| => Or(fs[i]))
  }

  ghost function FieldsOf(spec: Option<string>): seq<Column> {
    if spec.Some? then ColumnsIn(spec.value) else []
  }

  ghost function HostWorkflowOf(w: Workflow, name: string, renamed: Option<string>): HostWorkflow {
    HostWorkflow(
      name, w.kind == Some("trigger_poll_interactive"), Or(w.summary), Or(w.trigger),
      w.doneQuery, if w.doneQuery.Some? then Some(Or(w.doneValue)) else None, w.countQuery,
      w.fetchQuery, if w.fetchQuery.Some? then Some("index") else None,
      w.stateQuery, w.success, FailedOf(w.failed), HostPromptsOf(w.prompts, |w.prompts|), w.resultQuery,
      FieldsOf(w.fields), FieldsOf(w.resultFields), renamed, w.timeout, w.poll)
  }

  function HostCommandsOf(cs: seq<Command>): seq<HostCommand> {
    seq(|cs|, i requires 0 <= i < |cs| => HostCommandOf(cs[i]))
  }

  ghost function CopiesOf(acc: seq<HostWorkflow>, w: Workflow, n: nat): seq<HostWorkflow>
    requires n <= |w.renamedFrom|
  {
    if n == 0 then acc else CopiesOf(acc, w, n - 1) + [HostWorkflowOf(w, w.renamedFrom[n - 1], Some(w.name))]
  }

  /** Every workflow under its name, then under each of its old names. */
  ghost function HostWorkflowsOf(ws: seq<Workflow>, n: nat): seq<HostWorkflow>
    requires n <= |ws|
  {
    if n == 0 then []
    else
      var w := ws[n - 1];
      CopiesOf(HostWorkflowsOf(ws, n - 1) + [HostWorkflowOf(w, w.name, None)], w, |w.renamedFrom|)
  }

  ghost function ProfileOf(desc: Descriptor, dev: Device): Profile {
    Profile(HostDevice("", Some(Or(dev.idn)), None, Some(dev.proto), Some(dev.mtu), Some(dev.maxBlock)),
            HostCommandsOf(desc.commands), HostWorkflowsOf(desc.workflows, |desc.workflows|))
  }

  /* ---- folding the items of each record ---- */

  lemma PairsSnoc(items: seq<Item>, it: Item)
    ensures Pairs(items + [it]) == Pairs(items) + [(it.key, it.value)]
  {
  }

  lemma CommandSnoc(c: HostCommand, items: seq<Item>, it: Item)
    ensures CommandKeys(c, Pairs(items + [it])) == CommandKey(CommandKeys(c, Pairs(items)), it.key, it.value)
  {
    PairsSnoc(items, it);
    var kv := Pairs(items + [it]);
    assert kv[..|kv| - 1] == Pairs(items);
  }

  lemma WorkflowSnoc(w: HostWorkflow, items: seq<Item>, it: Item)
    ensures WorkflowKeys(w, Pairs(items + [it])) == WorkflowKey(WorkflowKeys(w, Pairs(items)), it.key, it.value)
  {
    PairsSnoc(items, it);
    var kv := Pairs(items + [it]);
    assert kv[..|kv| - 1] == Pairs(items);
  }

  /* ---- DEV ---- */

  lemma DeviceReadBack(dev: Device)
    requires CleanDevice(dev)
    ensures DeviceKeys(NO_DEVICE, Pairs(DeviceItems(dev))) == ProfileOf(Descriptor([], []), dev).device
  {
    var idn := Or(dev.idn);
    var i0: seq<Item> := [];
    var i1 := i0 + [Item("idn", idn, true)];
    var i2 := i1 + [Item("proto", Dec(dev.proto), false)];
    var i3 := i2 + [Item("mtu", Dec(dev.mtu), false)];
    DeviceSnoc(NO_DEVICE, i0, Item("idn", idn, true));
    DeviceSnoc(NO_DEVICE, i1, Item("proto", Dec(dev.proto), false));
    DeviceSnoc(NO_DEVICE, i2, Item("mtu", Dec(dev.mtu), false));
    DeviceSnoc(NO_DEVICE, i3, Item("max_block", Dec(dev.maxBlock), false));
    var d1 := NO_DEVICE.(idn := Some(idn));
    var d2 := d1.(proto := Some(dev.proto));
    DeviceKeyFacts(NO_DEVICE, idn);
    DeviceKeyFacts(d1, Dec(dev.proto));
    DeviceKeyFacts(d2, Dec(dev.mtu));
    DeviceKeyFacts(d2.(mtu := Some(dev.mtu)), Dec(dev.maxBlock));
    ParseDecimal(dev.proto, U32_MAX);
    ParseDecimal(dev.mtu, U64_MAX);
    ParseDecimal(dev.maxBlock, U64_MAX);
  }

  lemma DeviceSnoc(d: HostDevice, items: seq<Item>, it: Item)
    ensures DeviceKeys(d, Pairs(items + [it])) == DeviceKey(DeviceKeys(d, Pairs(items)), it.key, it.value)
  {
    PairsSnoc(items, it);
    var kv := Pairs(items + [it]);
    assert kv[..|kv| - 1] == Pairs(items);
  }

  lemma DeviceKeyFacts(d: HostDevice, v: string)
    ensures DeviceKey(d, "idn", v) == d.(idn := Some(v))
    ensures DeviceKey(d, "proto", v) == d.(proto := ParseUnsigned(v, U32_MAX))
    ensures DeviceKey(d, "mtu", v) == d.(mtu := ParseUnsigned(v, U64_MAX))
    ensures DeviceKey(d, "max_block", v) == d.(maxBlock := ParseUnsigned(v, U64_MAX))
  {
  }

  lemma DeviceKeysGood()
    ensures GoodKey("idn") && GoodKey("proto") && GoodKey("mtu") && GoodKey("max_block")
  {
  }

  lemma DeviceItemsGood(dev: Device)
    requires StandingItems(DeviceItems(dev))
    ensures GoodItems(DeviceItems(dev))
  {
    DeviceKeysGood();
    hide GoodKey;
  }

  /* ---- CMD ---- */

  lemma CommandOpt(c: HostCommand, items: seq<Item>, key: string, value: Option<string>, quoted: bool)
    ensures CommandKeys(c, Pairs(items + if quoted then OptQuoted(key, value) else Opt(key, value)))
            == if value.Some? then CommandKey(CommandKeys(c, Pairs(items)), key, value.value)
               else CommandKeys(c, Pairs(items))
  {
    if value.Some? {
      CommandSnoc(c, items, Item(key, value.value, quoted));
    } else {
      assert items + [] == items;
    }
  }

  lemma CommandKeyFacts(c: HostCommand, v: string)
    ensures CommandKey(c, "kind", v) == c.(kind := v)
    ensures CommandKey(c, "summary", v) == c.(summary := v)
    ensures CommandKey(c, "returns", v) == c.(returnType := Some(v))
    ensures CommandKey(c, "param", v) ==
            var p := ParseParam(v);
            if p.Some? then c.(params := c.params + [p.value]) else c
  {
  }

  lemma {:induction false} ParamsReadBack(c: HostCommand, acc: seq<Item>, ps: seq<Param>, n: nat)
    requires n <= |ps| && forall i :: 0 <= i < |ps| ==> CleanParam(ps[i])
    ensures var c' := CommandKeys(c, Pairs(acc));
            CommandKeys(c, Pairs(WithParams(acc, ps, n))) == c'.(params := c'.params + HostParamsOf(ps)[..n])
  {
    hide CommandKey, CommandKeys, Pairs, HostParamOf, ParseParam, ParamHead, ParamTail;
    var c' := CommandKeys(c, Pairs(acc));
    if n == 0 {
      assert c'.params + [] == c'.params;
    } else {
      ParamsReadBack(c, acc, ps, n - 1);
      var items, p := WithParams(acc, ps, n - 1), ps[n - 1];
      ParamExact(p);
      CommandSnoc(c, items, ParamItem(p));
      CommandKeyFacts(CommandKeys(c, Pairs(items)), ParamItem(p).value);
      assert HostParamsOf(ps)[..n] == HostParamsOf(ps)[..n - 1] + [HostParamOf(p)];
      assert c'.params + HostParamsOf(ps)[..n - 1] + [HostParamOf(p)] == c'.params + HostParamsOf(ps)[..n];
    }
  }

  lemma CommandLeadReadBack(c: Command)
    ensures CommandKeys(NewCommand(c.pattern), Pairs([] + Opt("kind", c.kind) + OptQuoted("summary", c.summary)))
            == NewCommand(c.pattern).(kind := Or(c.kind), summary := Or(c.summary))
  {
    var n0 := NewCommand(c.pattern);
    var i1 := [] + Opt("kind", c.kind);
    CommandOpt(n0, [], "kind", c.kind, false);
    CommandKeyFacts(n0, Or(c.kind));
    CommandOpt(n0, i1, "summary", c.summary, true);
    CommandKeyFacts(CommandKeys(n0, Pairs(i1)), Or(c.summary));
  }

  lemma CommandParamsReadBack(c: Command)
    requires CleanCommand(c)
    ensures CommandKeys(NewCommand(c.pattern), Pairs(CommandBody(c)))
            == HostCommandOf(c).(returnType := None)
  {
    hide WithParams, HostParamOf;
    CommandLeadReadBack(c);
    ParamsReadBack(NewCommand(c.pattern), [] + Opt("kind", c.kind) + OptQuoted("summary", c.summary), c.params, |c.params|);
    assert [] + HostParamsOf(c.params)[..|c.params|] == HostParamsOf(c.params);
  }

  function CommandBody(c: Command): seq<Item> {
    WithParams([] + Opt("kind", c.kind) + OptQuoted("summary", c.summary), c.params, |c.params|)
  }

  lemma CommandReadBack(c: Command)
    requires CleanCommand(c)
    ensures CommandKeys(NewCommand(c.pattern), Pairs(CommandItems(c))) == HostCommandOf(c)
  {
    var n0 := NewCommand(c.pattern);
    CommandParamsReadBack(c);
    CommandOpt(n0, CommandBody(c), "returns", c.returnType, false);
    CommandKeyFacts(CommandKeys(n0, Pairs(CommandBody(c))), Or(c.returnType));
  }

  lemma KeysOpt(acc: seq<Item>, key: string, value: Option<string>)
    requires GoodKeys(acc) && GoodKey(key)
    ensures GoodKeys(acc + Opt(key, value)) && GoodKeys(acc + OptQuoted(key, value))
  {
    hide GoodKey;
  }

  lemma KeysOne(acc: seq<Item>, it: Item)
    requires GoodKeys(acc) && GoodKey(it.key)
    ensures GoodKeys(acc + [it])
  {
    hide GoodKey;
  }

  lemma {:induction false} ParamKeys(acc: seq<Item>, ps: seq<Param>, n: nat)
    requires n <= |ps| && GoodKeys(acc)
    ensures GoodKeys(WithParams(acc, ps, n))
  {
    hide GoodKey, GoodKeys, ParamHead, ParamTail;
    if n > 0 {
      ParamKeys(acc, ps, n - 1);
      CommandKeysGood();
      KeysOne(WithParams(acc, ps, n - 1), ParamItem(ps[n - 1]));
    }
  }

  lemma CommandKeysGood()
    ensures GoodKey("kind") && GoodKey("summary") && GoodKey("returns") && GoodKey("param")
  {
  }

  lemma CommandItemsGood(c: Command)
    requires StandingItems(CommandItems(c))
    ensures GoodItems(CommandItems(c))
  {
    CommandKeysGood();
    hide GoodKey, GoodKeys;
    var i1 := [] + Opt("kind", c.kind);
    NoKeys();
    KeysOpt([], "kind", c.kind);
    KeysOpt(i1, "summary", c.summary);
    ParamKeys(i1 + OptQuoted("summary", c.summary), c.params, |c.params|);
    KeysOpt(CommandBody(c), "returns", c.returnType);
    assert GoodItems(CommandItems(c)) by { assert GoodKeys(CommandItems(c)); }
  }

  lemma NoKeys()
    ensures GoodKeys([])
  {
  }

  /* ---- WF ---- */

  lemma WorkflowOpt(w: HostWorkflow, items: seq<Item>, key: string, value: Option<string>, quoted: bool)
    ensures WorkflowKeys(w, Pairs(items + if quoted then OptQuoted(key, value) else Opt(key, value)))
            == if value.Some? then WorkflowKey(WorkflowKeys(w, Pairs(items)), key, value.value)
               else WorkflowKeys(w, Pairs(items))
  {
    if value.Some? {
      WorkflowSnoc(w, items, Item(key, value.value, quoted));
    } else {
      assert items + [] == items;
    }
  }

  lemma LeadKeyFacts(w: HostWorkflow, v: string)
    ensures WorkflowKey(w, "renamed", v) == w.(renamedTo := Some(v))
    ensures WorkflowKey(w, "type", v) == w.(interactive := v == "trigger_poll_interactive")
    ensures WorkflowKey(w, "summary", v) == w.(summary := v)
    ensures WorkflowKey(w, "trigger", v) == w.(trigger := v)
  {
  }

  lemma QueryKeyFacts(w: HostWorkflow, v: string)
    ensures WorkflowKey(w, "done", v) == DoneKey(w, v)
    ensures WorkflowKey(w, "count", v) == w.(countQuery := Some(v))
    ensures WorkflowKey(w, "fetch", v) == FetchKey(w, v)
    ensures WorkflowKey(w, "fields", v) == w.(fields := ColumnsIn(v))
    ensures WorkflowKey(w, "state", v) == w.(stateQuery := Some(v))
    ensures WorkflowKey(w, "success", v) == w.(success := Some(v))
  {
    EveryTextReadBack(v);
  }

  lemma ListKeyFacts(w: HostWorkflow, v: string)
    ensures WorkflowKey(w, "failed", v) == w.(failed := w.failed + [v])
    ensures WorkflowKey(w, "prompt", v) ==
            var p := ParsePrompt(v);
            if p.Some? then w.(prompts := w.prompts + [p.value]) else w
  {
  }

  lemma TailKeyFacts(w: HostWorkflow, v: string)
    ensures WorkflowKey(w, "result", v) == w.(resultQuery := Some(v))
    ensures WorkflowKey(w, "result_fields", v) == w.(resultFields := ColumnsIn(v))
    ensures WorkflowKey(w, "timeout_ms", v) == w.(timeout := OrElse(ParseUnsigned(v, U64_MAX), 15_000))
    ensures WorkflowKey(w, "poll_ms", v) == w.(poll := OrElse(ParseUnsigned(v, U64_MAX), 250))
  {
    EveryTextReadBack(v);
  }

  lemma NothingKeyed(w: HostWorkflow)
    ensures WorkflowKeys(w, Pairs([])) == w
  {
  }

  lemma NewIsEmpty(name: string)
    ensures var w := NewWorkflow(name); w.renamedTo == None && !w.interactive && w.summary == "" && w.trigger == ""
  {
  }

  lemma LeadReadBack(w: Workflow, name: string, renamed: Option<string>)
    ensures WorkflowKeys(NewWorkflow(name), Pairs(WithLead([], w, renamed)))
            == NewWorkflow(name).(renamedTo := renamed, interactive := w.kind == Some("trigger_poll_interactive"),
                                  summary := Or(w.summary), trigger := Or(w.trigger))
  {
    var n0 := NewWorkflow(name);
    NothingKeyed(n0);
    hide WorkflowKey, WorkflowKeys, Pairs, NewWorkflow;
    NewIsEmpty(name);
    var i1 := [] + Opt("renamed", renamed);
    var i2 := i1 + Opt("type", w.kind);
    var i3 := i2 + OptQuoted("summary", w.summary);
    WorkflowOpt(n0, [], "renamed", renamed, false);
    LeadKeyFacts(n0, Or(renamed));
    var w1 := WorkflowKeys(n0, Pairs(i1));
    assert w1 == n0.(renamedTo := renamed);
    WorkflowOpt(n0, i1, "type", w.kind, false);
    LeadKeyFacts(w1, Or(w.kind));
    var w2 := WorkflowKeys(n0, Pairs(i2));
    assert w2 == w1.(interactive := w.kind == Some("trigger_poll_interactive"));
    WorkflowOpt(n0, i2, "summary", w.summary, true);
    LeadKeyFacts(w2, Or(w.summary));
    var w3 := WorkflowKeys(n0, Pairs(i3));
    assert w3 == w2.(summary := Or(w.summary));
    WorkflowOpt(n0, i3, "trigger", w.trigger, false);
    LeadKeyFacts(w3, Or(w.trigger));
  }

  /** `done=<query>:<value>` is cut at its last colon. */
  lemma DoneReadBack(w: HostWorkflow, query: string, value: string)
    requires ':' !in value
    ensures DoneKey(w, query + ":" + value) == w.(doneQuery := Some(query), doneValue := Some(value))
  {
    AfterLastOf(query, ':', value);
    var v := query + [':'] + value;
    assert v[..|query|] == query && v[|query| + 1..] == value;
  }

  /** The colon condition on `done_value` is exact: with a colon in the value
      the host always reads another query. */
  lemma DoneExact(w: HostWorkflow, query: string, value: string)
    ensures DoneKey(w, query + ":" + value) == w.(doneQuery := Some(query), doneValue := Some(value)) <==> ':' !in value
  {
    if ':' in value {
      var v := query + ":" + value;
      var k :| 0 <= k < |value| && value[k] == ':';
      assert v[|query| + 1 + k] == ':';
      AfterLastBound(v, ':', |query| + 1 + k);
      assert |v[..AfterLast(v, ':') - 1]| > |query|;
    } else {
      DoneReadBack(w, query, value);
    }
  }

  /** So is the hash condition on `fetch_query`. */
  lemma FetchExact(w: HostWorkflow, query: string)
    ensures FetchKey(w, query + "#index") == w.(fetchQuery := Some(query), fetchIndex := Some("index")) <==> '#' !in query
  {
    var v := query + "#index";
    if '#' in query {
      var k :| 0 <= k < |query| && query[k] == '#';
      assert v[k] == '#';
      IndexBound(v, '#', k);
      assert |v[..Index(v, '#')]| < |query|;
    } else {
      FetchReadBack(w, query);
    }
  }

  lemma FetchReadBack(w: HostWorkflow, query: string)
    requires '#' !in query
    ensures FetchKey(w, query + "#index") == w.(fetchQuery := Some(query), fetchIndex := Some("index"))
  {
    var v := query + "#index";
    IndexAfter(query, '#', "#index");
    assert v[..|query|] == query && v[|query| + 1..] == "index";
  }

  lemma DoneItemsReadBack(w0: HostWorkflow, acc: seq<Item>, w: Workflow)
    requires w.doneQuery.Some? ==> ':' !in Or(w.doneValue)
    ensures var c := WorkflowKeys(w0, Pairs(acc));
            WorkflowKeys(w0, Pairs(acc + DoneItems(w)))
            == if w.doneQuery.Some? then c.(doneQuery := w.doneQuery, doneValue := Some(Or(w.doneValue))) else c
  {
    if w.doneQuery.Some? {
      var v := w.doneQuery.value + ":" + Or(w.doneValue);
      WorkflowSnoc(w0, acc, Item("done", v, false));
      QueryKeyFacts(WorkflowKeys(w0, Pairs(acc)), v);
      DoneReadBack(WorkflowKeys(w0, Pairs(acc)), w.doneQuery.value, Or(w.doneValue));
    } else {
      assert acc + [] == acc;
    }
  }

  lemma FetchItemsReadBack(w0: HostWorkflow, acc: seq<Item>, w: Workflow)
    requires '#' !in Or(w.fetchQuery)
    ensures var c := WorkflowKeys(w0, Pairs(acc));
            WorkflowKeys(w0, Pairs(acc + FetchItems(w)))
            == if w.fetchQuery.Some? then c.(fetchQuery := w.fetchQuery, fetchIndex := Some("index")) else c
  {
    if w.fetchQuery.Some? {
      var v := w.fetchQuery.value + "#index";
      WorkflowSnoc(w0, acc, Item("fetch", v, false));
      QueryKeyFacts(WorkflowKeys(w0, Pairs(acc)), v);
      FetchReadBack(WorkflowKeys(w0, Pairs(acc)), w.fetchQuery.value);
    } else {
      assert acc + [] == acc;
    }
  }

  /** No query has been read yet. */
  predicate Unqueried(c: HostWorkflow) {
    && c.doneQuery == None && c.doneValue == None && c.countQuery == None && c.fetchQuery == None
    && c.fetchIndex == None && c.fields == [] && c.stateQuery == None && c.success == None
  }

  function FirstQueries(acc: seq<Item>, w: Workflow): seq<Item> {
    acc + DoneItems(w) + Opt("count", w.countQuery) + FetchItems(w)
  }

  lemma FirstQueriesReadBack(w0: HostWorkflow, acc: seq<Item>, w: Workflow)
    requires CleanWorkflow(w) && Unqueried(WorkflowKeys(w0, Pairs(acc)))
    ensures WorkflowKeys(w0, Pairs(FirstQueries(acc, w)))
            == WorkflowKeys(w0, Pairs(acc)).(
                 doneQuery := w.doneQuery, doneValue := if w.doneQuery.Some? then Some(Or(w.doneValue)) else None,
                 countQuery := w.countQuery,
                 fetchQuery := w.fetchQuery, fetchIndex := if w.fetchQuery.Some? then Some("index") else None)
  {
    var i1 := acc + DoneItems(w);
    var i2 := i1 + Opt("count", w.countQuery);
    DoneItemsReadBack(w0, acc, w);
    var c1 := WorkflowKeys(w0, Pairs(i1));
    WorkflowOpt(w0, i1, "count", w.countQuery, false);
    QueryKeyFacts(c1, Or(w.countQuery));
    FetchItemsReadBack(w0, i2, w);
  }

  lemma LastQueriesReadBack(w0: HostWorkflow, i3: seq<Item>, w: Workflow)
    requires var c := WorkflowKeys(w0, Pairs(i3)); c.fields == [] && c.stateQuery == None && c.success == None
    ensures WorkflowKeys(w0, Pairs(i3 + Opt("fields", w.fields) + Opt("state", w.stateQuery) + Opt("success", w.success)))
            == WorkflowKeys(w0, Pairs(i3)).(fields := FieldsOf(w.fields), stateQuery := w.stateQuery, success := w.success)
  {
    var c3 := WorkflowKeys(w0, Pairs(i3));
    var i4 := i3 + Opt("fields", w.fields);
    var i5 := i4 + Opt("state", w.stateQuery);
    WorkflowOpt(w0, i3, "fields", w.fields, false);
    QueryKeyFacts(c3, Or(w.fields));
    var c4 := WorkflowKeys(w0, Pairs(i4));
    assert c4 == c3.(fields := FieldsOf(w.fields));
    WorkflowOpt(w0, i4, "state", w.stateQuery, false);
    QueryKeyFacts(c4, Or(w.stateQuery));
    var c5 := WorkflowKeys(w0, Pairs(i5));
    assert c5 == c4.(stateQuery := w.stateQuery);
    WorkflowOpt(w0, i5, "success", w.success, false);
    QueryKeyFacts(c5, Or(w.success));
  }

  lemma QueriesReadBack(w0: HostWorkflow, acc: seq<Item>, w: Workflow)
    requires CleanWorkflow(w) && Unqueried(WorkflowKeys(w0, Pairs(acc)))
    ensures WorkflowKeys(w0, Pairs(WithQueries(acc, w)))
            == WorkflowKeys(w0, Pairs(acc)).(
                 doneQuery := w.doneQuery, doneValue := if w.doneQuery.Some? then Some(Or(w.doneValue)) else None,
                 countQuery := w.countQuery,
                 fetchQuery := w.fetchQuery, fetchIndex := if w.fetchQuery.Some? then Some("index") else None,
                 fields := FieldsOf(w.fields), stateQuery := w.stateQuery, success := w.success)
  {
    FirstQueriesReadBack(w0, acc, w);
    LastQueriesReadBack(w0, FirstQueries(acc, w), w);
  }

  lemma {:induction false} FailedReadBack(w0: HostWorkflow, acc: seq<Item>, fs: seq<Option<string>>, n: nat)
    requires n <= |fs|
    ensures var c := WorkflowKeys(w0, Pairs(acc));
            WorkflowKeys(w0, Pairs(WithFailed(acc, fs, n))) == c.(failed := c.failed + FailedOf(fs)[..n])
  {
    hide WorkflowKey, WorkflowKeys, Pairs;
    var c := WorkflowKeys(w0, Pairs(acc));
    if n == 0 {
      assert c.failed + [] == c.failed;
    } else {
      FailedReadBack(w0, acc, fs, n - 1);
      var items, v := WithFailed(acc, fs, n - 1), Or(fs[n - 1]);
      WorkflowSnoc(w0, items, Item("failed", v, false));
      ListKeyFacts(WorkflowKeys(w0, Pairs(items)), v);
      assert FailedOf(fs)[..n] == FailedOf(fs)[..n - 1] + [v];
      assert c.failed + FailedOf(fs)[..n - 1] + [v] == c.failed + FailedOf(fs)[..n];
    }
  }

  lemma {:induction false} PromptsReadBack(w0: HostWorkflow, acc: seq<Item>, ps: seq<Prompt>, n: nat)
    requires n <= |ps| && forall i :: 0 <= i < |ps| ==> CleanPrompt(ps[i])
    ensures var c := WorkflowKeys(w0, Pairs(acc));
            WorkflowKeys(w0, Pairs(WithPrompts(acc, ps, n))) == c.(prompts := c.prompts + HostPromptsOf(ps, n))
  {
    hide PromptItem, HostPromptOf, WorkflowKey, WorkflowKeys, Pairs, CleanPrompt;
    var c := WorkflowKeys(w0, Pairs(acc));
    if n == 0 {
      assert c.prompts + [] == c.prompts;
    } else {
      PromptsReadBack(w0, acc, ps, n - 1);
      PromptReadOne(w0, WithPrompts(acc, ps, n - 1), ps[n - 1]);
      assert c.prompts + HostPromptsOf(ps, n - 1) + HostPromptOf(ps[n - 1]) == c.prompts + HostPromptsOf(ps, n);
    }
  }

  lemma PromptReadOne(w0: HostWorkflow, items: seq<Item>, p: Prompt)
    requires CleanPrompt(p)
    ensures var c := WorkflowKeys(w0, Pairs(items));
            WorkflowKeys(w0, Pairs(items + [PromptItem(p)])) == c.(prompts := c.prompts + HostPromptOf(p))
  {
    hide HostPromptOf, WorkflowKey, ParsePrompt, PromptHead, PromptTail;
    var c := WorkflowKeys(w0, Pairs(items));
    WorkflowSnoc(w0, items, PromptItem(p));
    ListKeyFacts(c, PromptItem(p).value);
    PromptExact(p);
    assert c.prompts + [] == c.prompts;
  }

  lemma TailReadBack(w0: HostWorkflow, acc: seq<Item>, w: Workflow)
    requires w.timeout <= U32_MAX && w.poll <= U32_MAX
    requires var c := WorkflowKeys(w0, Pairs(acc)); c.resultQuery == None && c.resultFields == []
    ensures WorkflowKeys(w0, Pairs(WithTail(acc, w)))
            == WorkflowKeys(w0, Pairs(acc)).(
                 resultQuery := w.resultQuery, resultFields := FieldsOf(w.resultFields),
                 timeout := w.timeout, poll := w.poll)
  {
    var c0 := WorkflowKeys(w0, Pairs(acc));
    var i1 := acc + Opt("result", w.resultQuery);
    var i2 := i1 + Opt("result_fields", w.resultFields);
    var i3 := i2 + [Item("timeout_ms", Dec(w.timeout), false)];
    WorkflowOpt(w0, acc, "result", w.resultQuery, false);
    TailKeyFacts(c0, Or(w.resultQuery));
    var c1 := WorkflowKeys(w0, Pairs(i1));
    assert c1 == c0.(resultQuery := w.resultQuery);
    WorkflowOpt(w0, i1, "result_fields", w.resultFields, false);
    TailKeyFacts(c1, Or(w.resultFields));
    var c2 := WorkflowKeys(w0, Pairs(i2));
    assert c2 == c1.(resultFields := FieldsOf(w.resultFields));
    WorkflowSnoc(w0, i2, Item("timeout_ms", Dec(w.timeout), false));
    TailKeyFacts(c2, Dec(w.timeout));
    ParseDecimal(w.timeout, U64_MAX);
    var c3 := WorkflowKeys(w0, Pairs(i3));
    assert c3 == c2.(timeout := w.timeout);
    WorkflowSnoc(w0, i3, Item("poll_ms", Dec(w.poll), false));
    TailKeyFacts(c3, Dec(w.poll));
    ParseDecimal(w.poll, U64_MAX);
  }

  lemma WorkflowReadBack(w: Workflow, name: string, renamed: Option<string>)
    requires CleanWorkflow(w)
    ensures WorkflowKeys(NewWorkflow(name), Pairs(WorkflowItems(w, renamed))) == HostWorkflowOf(w, name, renamed)
  {
    hide WithLists, WithLead, WithQueries, WithTail, WorkflowKey;
    var n0 := NewWorkflow(name);
    var i2 := WithQueries(WithLead([], w, renamed), w);
    LeadReadBack(w, name, renamed);
    QueriesReadBack(n0, WithLead([], w, renamed), w);
    ListsReadBack(n0, i2, w);
    TailReadBack(n0, WithLists(i2, w), w);
  }

  lemma ListsReadBack(n0: HostWorkflow, acc: seq<Item>, w: Workflow)
    requires CleanWorkflow(w)
    requires var c := WorkflowKeys(n0, Pairs(acc)); c.failed == [] && c.prompts == []
    ensures WorkflowKeys(n0, Pairs(WithLists(acc, w)))
            == WorkflowKeys(n0, Pairs(acc)).(failed := FailedOf(w.failed), prompts := HostPromptsOf(w.prompts, |w.prompts|))
  {
    hide WorkflowKeys, HostPromptsOf, WithPrompts, WithFailed, CleanPrompt;
    FailedReadBack(n0, acc, w.failed, |w.failed|);
    PromptsReadBack(n0, WithFailed(acc, w.failed, |w.failed|), w.prompts, |w.prompts|);
    assert [] + FailedOf(w.failed)[..|w.failed|] == FailedOf(w.failed);
    assert [] + HostPromptsOf(w.prompts, |w.prompts|) == HostPromptsOf(w.prompts, |w.prompts|);
  }

  lemma LeadKeysGood()
    ensures GoodKey("renamed") && GoodKey("type") && GoodKey("summary") && GoodKey("trigger")
  {
  }

  lemma QueryKeysGood()
    ensures GoodKey("done") && GoodKey("count") && GoodKey("fetch") && GoodKey("fields")
    ensures GoodKey("state") && GoodKey("success")
  {
  }

  lemma TailKeysGood()
    ensures GoodKey("result") && GoodKey("result_fields") && GoodKey("timeout_ms") && GoodKey("poll_ms")
  {
  }

  lemma ListKeysGood()
    ensures GoodKey("failed") && GoodKey("prompt")
  {
  }

  lemma LeadKeys(w: Workflow, renamed: Option<string>)
    ensures GoodKeys(WithLead([], w, renamed))
  {
    LeadKeysGood();
    hide GoodKey, GoodKeys;
    var i1 := [] + Opt("renamed", renamed);
    var i2 := i1 + Opt("type", w.kind);
    NoKeys();
    KeysOpt([], "renamed", renamed);
    KeysOpt(i1, "type", w.kind);
    KeysOpt(i2, "summary", w.summary);
    KeysOpt(i2 + OptQuoted("summary", w.summary), "trigger", w.trigger);
  }

  lemma QueryKeys(acc: seq<Item>, w: Workflow)
    requires GoodKeys(acc)
    ensures GoodKeys(WithQueries(acc, w))
  {
    QueryKeysGood();
    hide GoodKey;
    var i1 := acc + DoneItems(w);
    var i2 := i1 + Opt("count", w.countQuery);
    var i3 := i2 + FetchItems(w);
    assert GoodKeys(i1);
    KeysOpt(i1, "count", w.countQuery);
    assert GoodKeys(i3);
    hide GoodKeys;
    var i4 := i3 + Opt("fields", w.fields);
    KeysOpt(i3, "fields", w.fields);
    KeysOpt(i4, "state", w.stateQuery);
    KeysOpt(i4 + Opt("state", w.stateQuery), "success", w.success);
  }

  lemma {:induction false} FailedKeys(acc: seq<Item>, fs: seq<Option<string>>, n: nat)
    requires n <= |fs| && GoodKeys(acc)
    ensures GoodKeys(WithFailed(acc, fs, n))
  {
    hide GoodKey, GoodKeys;
    if n > 0 {
      FailedKeys(acc, fs, n - 1);
      ListKeysGood();
      KeysOne(WithFailed(acc, fs, n - 1), Item("failed", Or(fs[n - 1]), false));
    }
  }

  lemma {:induction false} PromptKeys(acc: seq<Item>, ps: seq<Prompt>, n: nat)
    requires n <= |ps| && GoodKeys(acc)
    ensures GoodKeys(WithPrompts(acc, ps, n))
  {
    hide GoodKey, GoodKeys, PromptHead, PromptTail;
    if n > 0 {
      PromptKeys(acc, ps, n - 1);
      ListKeysGood();
      KeysOne(WithPrompts(acc, ps, n - 1), PromptItem(ps[n - 1]));
    }
  }

  lemma TailKeys(acc: seq<Item>, w: Workflow)
    requires GoodKeys(acc)
    ensures GoodKeys(WithTail(acc, w))
  {
    TailKeysGood();
    hide GoodKey, GoodKeys;
    var i1 := acc + Opt("result", w.resultQuery);
    var i2 := i1 + Opt("result_fields", w.resultFields);
    KeysOpt(acc, "result", w.resultQuery);
    KeysOpt(i1, "result_fields", w.resultFields);
    KeysOne(i2, Item("timeout_ms", Dec(w.timeout), false));
    KeysOne(i2 + [Item("timeout_ms", Dec(w.timeout), false)], Item("poll_ms", Dec(w.poll), false));
  }

  lemma WorkflowItemsGood(w: Workflow, renamed: Option<string>)
    requires StandingItems(WorkflowItems(w, renamed))
    ensures GoodItems(WorkflowItems(w, renamed)) && WorkflowItems(w, renamed) != []
  {
    hide GoodKey, GoodKeys, WithLead, WithQueries, WithFailed, WithPrompts, StandingItems;
    var i1 := WithLead([], w, renamed);
    var i2 := WithQueries(i1, w);
    LeadKeys(w, renamed);
    QueryKeys(i1, w);
    FailedKeys(i2, w.failed, |w.failed|);
    PromptKeys(WithFailed(i2, w.failed, |w.failed|), w.prompts, |w.prompts|);
    TailKeys(WithLists(i2, w), w);
  }

  /* ---- all lines ---- */

  lemma {:induction false} ParseSnoc(p: Profile, lines: seq<string>, line: string, n: nat)
    requires ParseLines(p, lines, n).Good?
    ensures var r := ParseLine(ParseLines(p, lines, n).profile, line);
            r.Kept? ==> ParseLines(p, lines + [line], n) == Good(r.profile)
    decreases |lines|
  {
    if lines == [] {
      assert [line][1..] == [];
      assert [] + [line] == [line];
    } else {
      assert (lines + [line])[1..] == lines[1..] + [line];
      ParseSnoc(ParseLine(p, lines[0]).profile, lines[1..], line, n + 1);
    }
  }

  /** Records read one after another. */
  function Read(rs: seq<Record>): Result {
    ParseLines(NO_PROFILE, LinesOf(rs), 0)
  }

  lemma ReadOneMore(rs: seq<Record>, r: Record, p: Profile, p': Profile)
    requires Read(rs) == Good(p) && ParseLine(p, LineOf(r)) == Kept(p')
    ensures Read(rs + [r]) == Good(p')
  {
    ParseSnoc(NO_PROFILE, LinesOf(rs), LineOf(r), 0);
    assert LinesOf(rs + [r]) == LinesOf(rs) + [LineOf(r)];
  }

  lemma DeviceLine(dev: Device)
    requires CleanDevice(dev)
    ensures var r := Record("DEV", DeviceItems(dev));
            GoodRecord(r) && Read([r]) == Good(ProfileOf(Descriptor([], []), dev))
  {
    TagsAreGood();
    assert DeviceItems(dev) != [];
    hide DeviceItems, DeviceKeys, GoodItems, GoodTag, Tokens, Trim, Pairs, PairsOf, Texts, ParseLine, Read;
    var r := Record("DEV", DeviceItems(dev));
    DeviceItemsGood(dev);
    LineIsKept(r);
    TagTokens("DEV", r.items);
    TextsArePairs(r.items);
    DeviceReadBack(dev);
    DeviceTagLine(NO_PROFILE, r);
    assert HostCommandsOf([]) == [];
    NothingRead();
    assert [] + [r] == [r];
    ReadOneMore([], r, NO_PROFILE, ProfileOf(Descriptor([], []), dev));
  }

  lemma NothingRead()
    ensures Read([]) == Good(NO_PROFILE)
  {
    assert LinesOf([]) == [];
  }

  lemma TagsAreGood()
    ensures GoodTag("DEV") && GoodTag("CMD") && GoodTag("WF") && GoodHead("DEV", false)
  {
  }

  lemma DeviceTagLine(p: Profile, r: Record)
    requires Trim(LineOf(r)) == LineOf(r) && LineOf(r) != "" && LineOf(r)[0] == 'D'
    requires Tokens(LineOf(r)) == ["DEV"] + Texts(r.items)
    requires PairsOf(Texts(r.items)) == Pairs(r.items)
    ensures ParseLine(p, LineOf(r)) == Kept(p.(device := DeviceKeys(p.device, Pairs(r.items))))
  {
    var tokens := Tokens(LineOf(r));
    assert tokens[1..] == Texts(r.items) && tokens[0] == "DEV";
  }

  lemma CommandLine(p: Profile, c: Command)
    requires CleanCommand(c)
    ensures GoodRecord(CommandRecord(c))
    ensures ParseLine(p, LineOf(CommandRecord(c))) == Kept(p.(commands := p.commands + [HostCommandOf(c)]))
  {
    hide CommandItems, CommandKeys, HostCommandOf, NewCommand, Tokens, PairsOf, Pairs, Texts, Trim;
    hide GoodItems, GoodHead, StandingName, StripQuotes, ParseLine;
    var r := CommandRecord(c);
    CommandItemsGood(c);
    TagsAreGood();
    NamedHead("CMD", c.pattern, r.items == []);
    assert "CMD" + " " == "CMD ";
    LineIsKept(r);
    NamedTokens("CMD", c.pattern, r.items);
    TextsArePairs(r.items);
    CommandReadBack(c);
    NameIsToken(c.pattern, r.items);
    TaggedLine(p, r, "CMD", c.pattern);
  }

  lemma WorkflowLine(p: Profile, w: Workflow, name: string, renamed: Option<string>)
    requires CleanWorkflow(w) && StandingName(name, false) && StandingItems(WorkflowItems(w, renamed))
    ensures GoodRecord(WorkflowRecord(w, name, renamed))
    ensures ParseLine(p, LineOf(WorkflowRecord(w, name, renamed)))
            == Kept(p.(workflows := p.workflows + [HostWorkflowOf(w, name, renamed)]))
  {
    hide WorkflowItems, WorkflowKeys, HostWorkflowOf, NewWorkflow, Tokens, PairsOf, Pairs, Texts, Trim;
    hide GoodItems, GoodHead, StandingName, StandingItems, StripQuotes, ParseLine, CleanWorkflow;
    var r := WorkflowRecord(w, name, renamed);
    WorkflowItemsGood(w, renamed);
    TagsAreGood();
    NamedHead("WF", name, false);
    assert "WF" + " " == "WF ";
    LineIsKept(r);
    NamedTokens("WF", name, r.items);
    TextsArePairs(r.items);
    WorkflowReadBack(w, name, renamed);
    NameIsToken(name, r.items);
    TaggedLine(p, r, "WF", name);
  }

  lemma TaggedLine(p: Profile, r: Record, tag: string, name: string)
    requires tag == "CMD" || tag == "WF"
    requires Trim(LineOf(r)) == LineOf(r) && LineOf(r) != "" && LineOf(r)[0] == tag[0]
    requires Tokens(LineOf(r)) == [tag, name] + Texts(r.items)
    requires PairsOf(Texts(r.items)) == Pairs(r.items) && StripQuotes(name) == name
    ensures ParseLine(p, LineOf(r)) ==
            Kept(if tag == "CMD" then p.(commands := p.commands + [CommandKeys(NewCommand(name), Pairs(r.items))])
                 else p.(workflows := p.workflows + [WorkflowKeys(NewWorkflow(name), Pairs(r.items))]))
  {
    var tokens := Tokens(LineOf(r));
    assert tokens[2..] == Texts(r.items);
    assert tokens[0] == tag && tokens[1] == name;
    assert tag != "DEV" by { assert tag[0] != "DEV"[0]; }
  }

  /* ---- the whole descriptor ---- */

  lemma {:induction false} CommandsRead(acc: seq<Record>, cs: seq<Command>, n: nat, p: Profile)
    requires n <= |cs| && GoodRecords(acc) && Read(acc) == Good(p)
    requires forall i :: 0 <= i < |cs| ==> CleanCommand(cs[i])
    ensures GoodRecords(WithCommands(acc, cs, n))
    ensures Read(WithCommands(acc, cs, n)) == Good(p.(commands := p.commands + HostCommandsOf(cs)[..n]))
  {
    hide CommandRecord, HostCommandOf, ParseLine, Read, CleanCommand, GoodRecord;
    if n == 0 {
      assert p.commands + [] == p.commands;
    } else {
      CommandsRead(acc, cs, n - 1, p);
      var c, front := cs[n - 1], p.commands + HostCommandsOf(cs)[..n - 1];
      var p' := p.(commands := front);
      CommandLine(p', c);
      ReadOneMore(WithCommands(acc, cs, n - 1), CommandRecord(c), p', p.(commands := front + [HostCommandOf(c)]));
      assert HostCommandsOf(cs)[..n] == HostCommandsOf(cs)[..n - 1] + [HostCommandOf(c)];
      assert front + [HostCommandOf(c)] == p.commands + HostCommandsOf(cs)[..n];
    }
  }

  lemma {:induction false} CopiesRead(acc: seq<Record>, w: Workflow, n: nat, p: Profile)
    requires n <= |w.renamedFrom| && CleanWorkflow(w) && GoodRecords(acc) && Read(acc) == Good(p)
    ensures GoodRecords(WithCopies(acc, w, n))
    ensures Read(WithCopies(acc, w, n)) == Good(p.(workflows := CopiesOf(p.workflows, w, n)))
  {
    hide WorkflowRecord, HostWorkflowOf, ParseLine, Read;
    if n > 0 {
      CopiesRead(acc, w, n - 1, p);
      var front, past := CopiesOf(p.workflows, w, n - 1), w.renamedFrom[n - 1];
      var p' := p.(workflows := front);
      WorkflowLine(p', w, past, Some(w.name));
      ReadOneMore(WithCopies(acc, w, n - 1), WorkflowRecord(w, past, Some(w.name)), p',
                  p.(workflows := front + [HostWorkflowOf(w, past, Some(w.name))]));
    }
  }

  lemma WorkflowRead(acc: seq<Record>, w: Workflow, p: Profile)
    requires CleanWorkflow(w) && GoodRecords(acc) && Read(acc) == Good(p)
    ensures GoodRecords(WithWorkflow(acc, w))
    ensures Read(WithWorkflow(acc, w))
            == Good(p.(workflows := CopiesOf(p.workflows + [HostWorkflowOf(w, w.name, None)], w, |w.renamedFrom|)))
  {
    hide WorkflowRecord, HostWorkflowOf, ParseLine, Read;
    var r, p' := WorkflowRecord(w, w.name, None), p.(workflows := p.workflows + [HostWorkflowOf(w, w.name, None)]);
    WorkflowLine(p, w, w.name, None);
    ReadOneMore(acc, r, p, p');
    CopiesRead(acc + [r], w, |w.renamedFrom|, p');
  }

  lemma {:induction false} WorkflowsRead(acc: seq<Record>, ws: seq<Workflow>, n: nat, p: Profile)
    requires n <= |ws| && GoodRecords(acc) && Read(acc) == Good(p) && p.workflows == []
    requires forall i :: 0 <= i < |ws| ==> CleanWorkflow(ws[i])
    ensures GoodRecords(WithWorkflows(acc, ws, n))
    ensures Read(WithWorkflows(acc, ws, n)) == Good(p.(workflows := HostWorkflowsOf(ws, n)))
  {
    hide WithWorkflow, HostWorkflowOf, CopiesOf, Read, CleanWorkflow, GoodRecord, GoodRecords;
    if n > 0 {
      WorkflowsRead(acc, ws, n - 1, p);
      WorkflowRead(WithWorkflows(acc, ws, n - 1), ws[n - 1], p.(workflows := HostWorkflowsOf(ws, n - 1)));
    }
  }

  /** For every clean descriptor, any number of commands, parameters,
      workflows, prompts and renamed copies: the host reads back exactly what
      the device described. */
  lemma RoundTrip(desc: Descriptor, dev: Device)
    requires Clean(desc, dev)
    ensures ParseText(DescriptorText(desc, dev)) == Good(ProfileOf(desc, dev))
  {
    hide DeviceItems, WithCommands, WithWorkflows, ParseLines;
    var r := Record("DEV", DeviceItems(dev));
    var cs, ws := desc.commands, desc.workflows;
    DeviceLine(dev);
    var p := ProfileOf(Descriptor([], []), dev);
    CommandsRead([r], cs, |cs|, p);
    assert [] + HostCommandsOf(cs)[..|cs|] == HostCommandsOf(cs);
    WorkflowsRead(WithCommands([r], cs, |cs|), ws, |ws|, p.(commands := HostCommandsOf(cs)));
    RecordsAreLines(Records(desc, dev));
  }
}
