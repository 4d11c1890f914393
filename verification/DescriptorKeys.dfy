/** What a record of the descriptor says, key by key: the last value of a key
    counts, the list keys add up, what is missing has its default, and a key
    nobody knows changes nothing. */
module DescriptorKeys {
  import opened Common
  import opened Decimal
  import opened LineText
  import opened DescriptorParser

  /** The last value given for a key. */
  function LastOf(kv: seq<Pair>, key: string): Option<string> {
    if kv == [] then None
    else if kv[|kv| - 1].0 == key then Some(kv[|kv| - 1].1)
    else LastOf(kv[..|kv| - 1], key)
  }

  /** Every value given for a key, in order. */
  function AllOf(kv: seq<Pair>, key: string): seq<string> {
    if kv == [] then []
    else AllOf(kv[..|kv| - 1], key) + (if kv[|kv| - 1].0 == key then [kv[|kv| - 1].1] else [])
  }

  function Or<T>(v: Option<T>, otherwise: T): T {
    if v.Some? then v.value else otherwise
  }

  function Opt(v: Option<string>, otherwise: Option<string>): Option<string> {
    if v.Some? then v else otherwise
  }

  // Devices

  /** A number that cannot be read is none, also if one was read before. */
  function Number(v: Option<string>, max: nat, otherwise: Option<nat>): Option<nat> {
    if v.Some? then ParseUnsigned(v.value, max) else otherwise
  }

  lemma DeviceKeyFields(d: HostDevice, k: string, v: string)
    ensures DeviceKey(d, k, v) == HostDevice(
      if k == "name" then v else d.name,
      if k == "idn" then Some(v) else d.idn,
      if k == "idn_match" then Some(v) else d.idnMatch,
      if k == "proto" then ParseUnsigned(v, 0xFFFF_FFFF) else d.proto,
      if k == "mtu" then ParseUnsigned(v, 0xFFFF_FFFF_FFFF_FFFF) else d.mtu,
      if k == "max_block" then ParseUnsigned(v, 0xFFFF_FFFF_FFFF_FFFF) else d.maxBlock)
  {
    hide ParseUnsigned;
  }

  lemma {:induction false} DeviceExact(d: HostDevice, kv: seq<Pair>)
    ensures DeviceKeys(d, kv) == HostDevice(
      Or(LastOf(kv, "name"), d.name), Opt(LastOf(kv, "idn"), d.idn), Opt(LastOf(kv, "idn_match"), d.idnMatch),
      Number(LastOf(kv, "proto"), 0xFFFF_FFFF, d.proto), Number(LastOf(kv, "mtu"), 0xFFFF_FFFF_FFFF_FFFF, d.mtu),
      Number(LastOf(kv, "max_block"), 0xFFFF_FFFF_FFFF_FFFF, d.maxBlock))
    decreases |kv|
  {
    hide DeviceKey, ParseUnsigned;
    if kv != [] {
      var (k, v) := kv[|kv| - 1];
      DeviceExact(d, kv[..|kv| - 1]);
      DeviceKeyFields(DeviceKeys(d, kv[..|kv| - 1]), k, v);
    }
  }

  // Commands

  function ParamsOf(values: seq<string>): seq<HostParam> {
    if values == [] then []
    else
      var p := ParseParam(values[|values| - 1]);
      ParamsOf(values[..|values| - 1]) + (if p.Some? then [p.value] else [])
  }

  lemma CommandKeyFields(c: HostCommand, k: string, v: string)
    ensures var p := ParseParam(v);
      CommandKey(c, k, v) == HostCommand(
        c.pattern, if k == "kind" then v else c.kind, if k == "summary" then v else c.summary,
        if k == "param" && p.Some? then c.params + [p.value] else c.params,
        if k == "returns" then Some(v) else c.returnType)
  {
    hide ParseParam;
  }

  lemma ParamsSnoc(values: seq<string>, v: string)
    ensures var p := ParseParam(v); ParamsOf(values + [v]) == ParamsOf(values) + (if p.Some? then [p.value] else [])
  {
    hide ParseParam;
    assert (values + [v])[..|values|] == values;
  }

  lemma {:induction false} CommandExact(pattern: string, kv: seq<Pair>)
    ensures CommandKeys(NewCommand(pattern), kv) == HostCommand(
      pattern, Or(LastOf(kv, "kind"), ""), Or(LastOf(kv, "summary"), ""), ParamsOf(AllOf(kv, "param")),
      LastOf(kv, "returns"))
    decreases |kv|
  {
    hide CommandKey, ParseParam, ParamsOf;
    if kv == [] {
      NoParams();
    } else {
      var before := kv[..|kv| - 1];
      var (k, v) := kv[|kv| - 1];
      CommandExact(pattern, before);
      CommandKeyFields(CommandKeys(NewCommand(pattern), before), k, v);
      ParamsSnoc(AllOf(before, "param"), v);
      var ps := AllOf(before, "param");
      assert ps + [] == ps && ParamsOf(ps) + [] == ParamsOf(ps);
    }
  }

  lemma NoParams()
    ensures ParamsOf([]) == []
  {
  }

  // Workflows

  function PromptsOf(values: seq<string>): seq<HostPrompt> {
    if values == [] then []
    else
      var p := ParsePrompt(values[|values| - 1]);
      PromptsOf(values[..|values| - 1]) + (if p.Some? then [p.value] else [])
  }

  lemma PromptsSnoc(values: seq<string>, v: string)
    ensures var p := ParsePrompt(v); PromptsOf(values + [v]) == PromptsOf(values) + (if p.Some? then [p.value] else [])
  {
    hide ParsePrompt;
    assert (values + [v])[..|values|] == values;
  }

  /** The query of `done=`, up to its last colon, and the value behind that. */
  function DoneQuery(v: string): string {
    if ':' in v then v[..AfterLast(v, ':') - 1] else v
  }

  function DoneValue(v: string): Option<string> {
    if ':' in v then Some(v[AfterLast(v, ':')..]) else None
  }

  function FetchQuery(v: string): string {
    v[..Index(v, '#')]
  }

  function FetchIndex(v: string): Option<string> {
    if '#' in v then Some(v[Index(v, '#') + 1..]) else None
  }

  lemma DoneCut(v: string)
    ensures ':' in v <==> AfterLast(v, ':') > 0
    ensures ':' in v ==> ':' !in v[AfterLast(v, ':')..] && v == DoneQuery(v) + ([':'] + v[AfterLast(v, ':')..])
  {
    hide AfterLast;
    assert v[0..] == v;
  }

  lemma FetchCut(v: string)
    ensures '#' in v <==> Index(v, '#') < |v|
    ensures '#' !in FetchQuery(v) && ('#' in v ==> v == FetchQuery(v) + (['#'] + v[Index(v, '#') + 1..]))
    ensures '#' !in v ==> FetchQuery(v) == v
  {
    hide *;
    CutAt(v, '#', Index(v, '#'));
    QueryIs(v);
  }

  lemma QueryIs(v: string)
    ensures FetchQuery(v) == v[..Index(v, '#')]
  {
    hide Index;
  }

  lemma CutAt(v: string, c: char, i: nat)
    requires i <= |v| && c !in v[..i] && (i < |v| ==> v[i] == c)
    ensures c in v <==> i < |v|
    ensures c in v ==> v == v[..i] + ([c] + v[i + 1..])
    ensures c !in v ==> v[..i] == v
  {
    if i == |v| { assert v[..i] == v; }
  }

  /** What the last of these that says anything says. */
  function LastSaid(values: seq<string>, said: string -> Option<string>): Option<string> {
    if values == [] then None
    else Opt(said(values[|values| - 1]), LastSaid(values[..|values| - 1], said))
  }

  function Milliseconds(v: Option<string>, otherwise: nat): nat {
    if v.Some? then Or(ParseUnsigned(v.value, 0xFFFF_FFFF_FFFF_FFFF), otherwise) else otherwise
  }

  /** The record of a workflow, from what was given for each key. */
  function WorkflowOf(name: string, kv: seq<Pair>): HostWorkflow {
    var done, fetch := LastOf(kv, "done"), LastOf(kv, "fetch");
    HostWorkflow(
      name, LastOf(kv, "type") == Some("trigger_poll_interactive"),
      Or(LastOf(kv, "summary"), ""), Or(LastOf(kv, "trigger"), ""),
      if done.Some? then Some(DoneQuery(done.value)) else None, LastSaid(AllOf(kv, "done"), DoneValue), LastOf(kv, "count"),
      if fetch.Some? then Some(FetchQuery(fetch.value)) else None, LastSaid(AllOf(kv, "fetch"), FetchIndex),
      LastOf(kv, "state"), LastOf(kv, "success"), AllOf(kv, "failed"), PromptsOf(AllOf(kv, "prompt")), LastOf(kv, "result"),
      ParseFields(Or(LastOf(kv, "fields"), "")), ParseFields(Or(LastOf(kv, "result_fields"), "")), LastOf(kv, "renamed"),
      Milliseconds(LastOf(kv, "timeout_ms"), 15000), Milliseconds(LastOf(kv, "poll_ms"), 250))
  }

  /** A record with one more key given. */
  function OneKey(w: HostWorkflow, k: string, v: string): HostWorkflow {
    var p := ParsePrompt(v);
    HostWorkflow(
      w.name, if k == "type" then v == "trigger_poll_interactive" else w.interactive,
      if k == "summary" then v else w.summary, if k == "trigger" then v else w.trigger,
      if k == "done" then Some(DoneQuery(v)) else w.doneQuery,
      if k == "done" then Opt(DoneValue(v), w.doneValue) else w.doneValue,
      if k == "count" then Some(v) else w.countQuery,
      if k == "fetch" then Some(FetchQuery(v)) else w.fetchQuery,
      if k == "fetch" then Opt(FetchIndex(v), w.fetchIndex) else w.fetchIndex,
      if k == "state" then Some(v) else w.stateQuery, if k == "success" then Some(v) else w.success,
      if k == "failed" then w.failed + [v] else w.failed,
      if k == "prompt" && p.Some? then w.prompts + [p.value] else w.prompts,
      if k == "result" then Some(v) else w.resultQuery,
      if k == "fields" then ParseFields(v) else w.fields,
      if k == "result_fields" then ParseFields(v) else w.resultFields,
      if k == "renamed" then Some(v) else w.renamedTo,
      if k == "timeout_ms" then Milliseconds(Some(v), 15000) else w.timeout,
      if k == "poll_ms" then Milliseconds(Some(v), 250) else w.poll)
  }

  lemma WorkflowKeyIs(w: HostWorkflow, k: string, v: string)
    ensures WorkflowKey(w, k, v) == OneKey(w, k, v)
  {
    if k in {"type", "summary", "trigger", "done", "count", "fetch", "state", "success"} {
      FirstKeys(w, k, v);
    } else {
      LastKeys(w, k, v);
    }
  }

  lemma FirstKeys(w: HostWorkflow, k: string, v: string)
    requires k in {"type", "summary", "trigger", "done", "count", "fetch", "state", "success"}
    ensures WorkflowKey(w, k, v) == OneKey(w, k, v)
  {
    hide ParsePrompt, ParseFields, ParseUnsigned, DoneKey, FetchKey, DoneQuery, FetchQuery, DoneValue, FetchIndex;
    DoneIs(w, v);
    FetchIs(w, v);
  }

  lemma LastKeys(w: HostWorkflow, k: string, v: string)
    requires k !in {"type", "summary", "trigger", "done", "count", "fetch", "state", "success"}
    ensures WorkflowKey(w, k, v) == OneKey(w, k, v)
  {
    hide ParsePrompt, ParseFields, ParseUnsigned, DoneKey, FetchKey, DoneQuery, FetchQuery, DoneValue, FetchIndex;
  }

  lemma DoneIs(w: HostWorkflow, v: string)
    ensures DoneKey(w, v) == w.(doneQuery := Some(DoneQuery(v)), doneValue := Opt(DoneValue(v), w.doneValue))
  {
    DoneCut(v);
    hide AfterLast;
  }

  lemma FetchIs(w: HostWorkflow, v: string)
    ensures FetchKey(w, v) == w.(fetchQuery := Some(FetchQuery(v)), fetchIndex := Opt(FetchIndex(v), w.fetchIndex))
  {
    FetchCut(v);
    hide Index;
  }

  lemma LastSaidSnoc(values: seq<string>, v: string, said: string -> Option<string>)
    ensures LastSaid(values + [v], said) == Opt(said(v), LastSaid(values, said))
  {
    assert (values + [v])[..|values|] == values;
  }

  lemma NothingGiven(name: string)
    ensures WorkflowOf(name, []) == NewWorkflow(name)
  {
    assert LineText.Split("", ',') == [""] && LineText.Split("", ':') == [""];
    assert [""][1..] == [];
  }

  lemma {:induction false} WorkflowExact(name: string, kv: seq<Pair>)
    ensures WorkflowKeys(NewWorkflow(name), kv) == WorkflowOf(name, kv)
    decreases |kv|
  {
    hide WorkflowKey, WorkflowOf;
    if kv == [] {
      NothingGiven(name);
    } else {
      var before := kv[..|kv| - 1];
      var (k, v) := kv[|kv| - 1];
      WorkflowExact(name, before);
      WorkflowKeyIs(WorkflowKeys(NewWorkflow(name), before), k, v);
      OneMoreKey(name, before, kv);
    }
  }

  /** The effect of one more key on what was given before. */
  lemma OneMoreKey(name: string, before: seq<Pair>, kv: seq<Pair>)
    requires kv != [] && before == kv[..|kv| - 1]
    ensures WorkflowOf(name, kv) == OneKey(WorkflowOf(name, before), kv[|kv| - 1].0, kv[|kv| - 1].1)
  {
    hide ParsePrompt, ParseFields, ParseUnsigned, DoneQuery, DoneValue, FetchQuery, FetchIndex, LastSaid, PromptsOf;
    var (k, v) := kv[|kv| - 1];
    LastSaidSnoc(AllOf(before, "done"), v, DoneValue);
    LastSaidSnoc(AllOf(before, "fetch"), v, FetchIndex);
    PromptsSnoc(AllOf(before, "prompt"), v);
    Unchanged(AllOf(before, "done"));
    Unchanged(AllOf(before, "fetch"));
    Unchanged(AllOf(before, "failed"));
    Unchanged(AllOf(before, "prompt"));
    UnchangedPrompts(PromptsOf(AllOf(before, "prompt")));
  }

  lemma Unchanged(values: seq<string>)
    ensures values + [] == values
  {
  }

  lemma UnchangedPrompts(values: seq<HostPrompt>)
    ensures values + [] == values
  {
  }
}
