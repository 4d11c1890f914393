/** The device's descriptor and its line-record text (src/usbscpi.c). */
module DescriptorPrinter {
  import opened Common
  import opened Decimal

  datatype Param = Param(
    name: Option<string>, kind: Option<string>, required: bool,
    optionsCount: Option<string>, optionsFetch: Option<string>)

  datatype Command = Command(
    pattern: string, kind: Option<string>, summary: Option<string>,
    params: seq<Param>, returnType: Option<string>)

  datatype Prompt = Prompt(
    state: Option<string>, kind: Option<string>, send: Option<string>, value: Option<string>)

  datatype Workflow = Workflow(
    name: string, kind: Option<string>, summary: Option<string>, trigger: Option<string>,
    doneQuery: Option<string>, doneValue: Option<string>,
    countQuery: Option<string>, fetchQuery: Option<string>, fields: Option<string>,
    stateQuery: Option<string>, success: Option<string>, failed: seq<Option<string>>,
    prompts: seq<Prompt>, resultQuery: Option<string>, resultFields: Option<string>,
    timeout: nat, poll: nat, renamedFrom: seq<string>)

  datatype Device = Device(idn: Option<string>, proto: nat, mtu: nat, maxBlock: nat)

  datatype Descriptor = Descriptor(commands: seq<Command>, workflows: seq<Workflow>)

  /** NULL prints as the empty string. */
  function Or(s: Option<string>): string {
    if s.Some? then s.value else ""
  }

  /** One ` key=value` of a record; only summaries and the IDN are quoted. */
  datatype Item = Item(key: string, value: string, quoted: bool)

  function ItemText(it: Item): string {
    it.key + "=" + if it.quoted then "\"" + it.value + "\"" else it.value
  }

  function Spaced(items: seq<Item>): string {
    if items == [] then "" else Spaced(items[..|items| - 1]) + " " + ItemText(items[|items| - 1])
  }

  function Opt(key: string, value: Option<string>): seq<Item> {
    if value.Some? then [Item(key, value.value, false)] else []
  }

  function OptQuoted(key: string, value: Option<string>): seq<Item> {
    if value.Some? then [Item(key, value.value, true)] else []
  }

  function ParamHead(p: Param): string {
    Or(p.name) + ":" + Or(p.kind) + ":" + if p.required then "req" else "opt"
  }

  /** The optional options source, present only when both queries are. */
  function ParamTail(p: Param): string {
    if p.optionsCount.Some? && p.optionsFetch.Some?
    then "|" + p.optionsCount.value + "|" + p.optionsFetch.value
    else ""
  }

  function ParamItem(p: Param): Item {
    Item("param", ParamHead(p) + ParamTail(p), false)
  }

  function PromptHead(p: Prompt): string {
    Or(p.state) + "|" + Or(p.kind) + "|" + Or(p.send)
  }

  function PromptTail(p: Prompt): string {
    if p.value.Some? then "|" + p.value.value else ""
  }

  function PromptItem(p: Prompt): Item {
    Item("prompt", PromptHead(p) + PromptTail(p), false)
  }

  /* Each group of items is written after the ones in `acc`; n counts how many
     list entries have been written. */

  function WithParams(acc: seq<Item>, ps: seq<Param>, n: nat): seq<Item>
    requires n <= |ps|
  {
    if n == 0 then acc else WithParams(acc, ps, n - 1) + [ParamItem(ps[n - 1])]
  }

  function WithFailed(acc: seq<Item>, fs: seq<Option<string>>, n: nat): seq<Item>
    requires n <= |fs|
  {
    if n == 0 then acc else WithFailed(acc, fs, n - 1) + [Item("failed", Or(fs[n - 1]), false)]
  }

  function WithPrompts(acc: seq<Item>, ps: seq<Prompt>, n: nat): seq<Item>
    requires n <= |ps|
  {
    if n == 0 then acc else WithPrompts(acc, ps, n - 1) + [PromptItem(ps[n - 1])]
  }

  function DeviceItems(d: Device): seq<Item> {
    [] + [Item("idn", Or(d.idn), true)] + [Item("proto", Dec(d.proto), false)]
    + [Item("mtu", Dec(d.mtu), false)] + [Item("max_block", Dec(d.maxBlock), false)]
  }

  function CommandItems(c: Command): seq<Item> {
    WithParams([] + Opt("kind", c.kind) + OptQuoted("summary", c.summary), c.params, |c.params|)
    + Opt("returns", c.returnType)
  }

  function DoneItems(w: Workflow): seq<Item> {
    if w.doneQuery.Some? then [Item("done", w.doneQuery.value + ":" + Or(w.doneValue), false)] else []
  }

  function FetchItems(w: Workflow): seq<Item> {
    if w.fetchQuery.Some? then [Item("fetch", w.fetchQuery.value + "#index", false)] else []
  }

  function WithLead(acc: seq<Item>, w: Workflow, renamed: Option<string>): seq<Item> {
    acc + Opt("renamed", renamed) + Opt("type", w.kind) + OptQuoted("summary", w.summary) + Opt("trigger", w.trigger)
  }

  function WithQueries(acc: seq<Item>, w: Workflow): seq<Item> {
    acc + DoneItems(w) + Opt("count", w.countQuery) + FetchItems(w) + Opt("fields", w.fields)
    + Opt("state", w.stateQuery) + Opt("success", w.success)
  }

  function WithTail(acc: seq<Item>, w: Workflow): seq<Item> {
    acc + Opt("result", w.resultQuery) + Opt("result_fields", w.resultFields)
    + [Item("timeout_ms", Dec(w.timeout), false)] + [Item("poll_ms", Dec(w.poll), false)]
  }

  function WithLists(acc: seq<Item>, w: Workflow): seq<Item> {
    WithPrompts(WithFailed(acc, w.failed, |w.failed|), w.prompts, |w.prompts|)
  }

  /** The items of a workflow line; `renamed` marks a copy under an old name. */
  function WorkflowItems(w: Workflow, renamed: Option<string>): seq<Item> {
    WithTail(WithLists(WithQueries(WithLead([], w, renamed), w), w), w)
  }

  /** A record: tag, for all but DEV the name, then the items. */
  datatype Record = Record(head: string, items: seq<Item>)

  function RecordText(r: Record): string {
    r.head + Spaced(r.items) + "\n"
  }

  function CommandRecord(c: Command): Record {
    Record("CMD " + c.pattern, CommandItems(c))
  }

  function WorkflowRecord(w: Workflow, name: string, renamed: Option<string>): Record {
    Record("WF " + name, WorkflowItems(w, renamed))
  }

  function WithCommands(acc: seq<Record>, cs: seq<Command>, n: nat): seq<Record>
    requires n <= |cs|
  {
    if n == 0 then acc else WithCommands(acc, cs, n - 1) + [CommandRecord(cs[n - 1])]
  }

  /** One copy of a workflow's record for each of its old names. */
  function WithCopies(acc: seq<Record>, w: Workflow, n: nat): seq<Record>
    requires n <= |w.renamedFrom|
  {
    if n == 0 then acc
    else WithCopies(acc, w, n - 1) + [WorkflowRecord(w, w.renamedFrom[n - 1], Some(w.name))]
  }

  function WithWorkflow(acc: seq<Record>, w: Workflow): seq<Record> {
    WithCopies(acc + [WorkflowRecord(w, w.name, None)], w, |w.renamedFrom|)
  }

  function WithWorkflows(acc: seq<Record>, ws: seq<Workflow>, n: nat): seq<Record>
    requires n <= |ws|
  {
    if n == 0 then acc else WithWorkflow(WithWorkflows(acc, ws, n - 1), ws[n - 1])
  }

  function Records(desc: Descriptor, dev: Device): seq<Record> {
    WithWorkflows(WithCommands([Record("DEV", DeviceItems(dev))], desc.commands, |desc.commands|),
                  desc.workflows, |desc.workflows|)
  }

  function RecordsText(rs: seq<Record>): string {
    if rs == [] then "" else RecordsText(rs[..|rs| - 1]) + RecordText(rs[|rs| - 1])
  }

  /** The whole descriptor text. */
  function DescriptorText(desc: Descriptor, dev: Device): string {
    RecordsText(Records(desc, dev))
  }

  /* ---- printing into a bounded buffer ---- */

  /** A caller's buffer being filled. After a print that does not fit nothing
      more is printed: the original returns at once. */
  class Printer {
    const buf: array<char>
    var len: nat
    var failed: bool
    ghost var done: seq<Record>   // finished lines
    ghost var open: bool
    ghost var head: string        // of the line being written
    ghost var items: seq<Item>

    static ghost function Text(done: seq<Record>, open: bool, head: string, items: seq<Item>): string {
      RecordsText(done) + if open then head + Spaced(items) else ""
    }

    /** Everything asked for so far. */
    ghost function Wanted(): string
      reads this
    {
      Text(done, open, head, items)
    }

    /** The buffer holds what was asked for exactly when it fits with its NUL. */
    ghost predicate Valid()
      reads this, buf
    {
      && len <= buf.Length
      && (failed ==> |Wanted()| >= buf.Length)
      && (!failed ==> buf[..len] == Wanted())
      && (!failed && len > 0 ==> len < buf.Length && buf[len] == '\0')
    }

    constructor (buf: array<char>)
      ensures this.buf == buf && !failed && len == 0 && done == [] && !open
    {
      this.buf, len, failed, done, open, head, items := buf, 0, false, [], false, "", [];
    }

    /** `vsnprintf` at the current length: as much as fits, and a NUL. */
    method Format(text: string) returns (ok: bool)
      modifies this`len, buf
      requires len <= buf.Length
      ensures ok == (old(len) + |text| < buf.Length)
      ensures if ok
              then len == old(len) + |text| && buf[..len] == old(buf[..len]) + text && buf[len] == '\0'
              else len == old(len)
    {
      if len >= buf.Length { return false; }
      var room := buf.Length - len - 1;
      var n := if |text| < room then |text| else room;
      var i := 0;
      while i < n
        invariant i <= n && len == old(len)
        invariant buf[..len] == old(buf[..len])
        invariant buf[len..len + i] == text[..i]
      {
        buf[len + i] := text[i];
        i := i + 1;
      }
      buf[len + n] := '\0';
      if len + |text| >= buf.Length { return false; }
      assert text[..n] == text;
      assert buf[..len + n] == buf[..len] + buf[len..len + n];
      len := len + |text|;
      return true;
    }

    method Print(text: string, ghost done': seq<Record>, ghost open': bool, ghost head': string, ghost items': seq<Item>)
      requires Valid()
      requires Text(done', open', head', items') == Wanted() + text
      modifies this, buf
      ensures Valid() && done == done' && open == open' && head == head' && items == items'
    {
      hide Text;
      if !failed {
        var ok := Format(text);
        failed := !ok;
      }
      done, open, head, items := done', open', head', items';
    }

    method Start(head': string)
      requires Valid() && !open
      modifies this, buf
      ensures Valid() && done == old(done) && open && head == head' && items == []
    {
      assert Text(done, true, head', []) == Wanted() + head' by {
        assert head' + "" == head' && RecordsText(done) + "" == RecordsText(done);
      }
      Print(head', done, true, head', []);
    }

    static lemma OneMoreItem(done: seq<Record>, head: string, items: seq<Item>, it: Item)
      ensures Text(done, true, head, items + [it]) == Text(done, true, head, items) + (" " + ItemText(it))
    {
      var text := " " + ItemText(it);
      assert (items + [it])[..|items|] == items;
      Assoc(Spaced(items), " ", ItemText(it));
      Assoc(head, Spaced(items), text);
      Assoc(RecordsText(done), head + Spaced(items), text);
    }

    method Add(it: Item)
      requires Valid() && open
      modifies this, buf
      ensures Valid() && open && done == old(done) && head == old(head) && items == old(items) + [it]
    {
      ghost var items' := items + [it];
      var text := " " + ItemText(it);
      OneMoreItem(done, head, items, it);
      Print(text, done, true, head, items');
    }

    /** More of the value of the item just printed. */
    method Extend(more: string)
      requires Valid() && open && items != [] && !items[|items| - 1].quoted
      modifies this, buf
      ensures Valid() && open && done == old(done) && head == old(head)
      ensures items == Extended(old(items), more)
    {
      ExtendedText(done, head, items, more);
      Print(more, done, true, head, Extended(items, more));
    }

    static function Extended(items: seq<Item>, more: string): seq<Item>
      requires items != [] && !items[|items| - 1].quoted
    {
      var n := |items| - 1;
      items[..n] + [Item(items[n].key, items[n].value + more, false)]
    }

    static lemma ExtendedText(done: seq<Record>, head: string, items: seq<Item>, more: string)
      requires items != [] && !items[|items| - 1].quoted
      ensures Text(done, true, head, Extended(items, more)) == Text(done, true, head, items) + more
    {
      var n := |items| - 1;
      var it, items' := items[n], Extended(items, more);
      assert items'[..n] == items[..n];
      assert ItemText(items'[n]) == ItemText(it) + more;
      var front := Spaced(items[..n]) + " ";
      assert Spaced(items) == front + ItemText(it) && Spaced(items') == front + (ItemText(it) + more);
      hide Spaced, RecordsText, ItemText;
      Assoc(front, ItemText(it), more);
      Assoc(head, Spaced(items), more);
      Assoc(RecordsText(done), head + Spaced(items), more);
    }

    method AddOpt(key: string, value: Option<string>)
      requires Valid() && open
      modifies this, buf
      ensures Valid() && open && done == old(done) && head == old(head) && items == old(items) + Opt(key, value)
    {
      if value.Some? { Add(Item(key, value.value, false)); }
    }

    method AddQuoted(key: string, value: Option<string>)
      requires Valid() && open
      modifies this, buf
      ensures Valid() && open && done == old(done) && head == old(head) && items == old(items) + OptQuoted(key, value)
    {
      if value.Some? { Add(Item(key, value.value, true)); }
    }

    method EndLine()
      requires Valid() && open
      modifies this, buf
      ensures Valid() && !open && done == old(done) + [Record(old(head), old(items))]
    {
      ghost var r := Record(head, items);
      ghost var done' := done + [r];
      assert Text(done', false, head, items) == Wanted() + "\n" by {
        assert done'[..|done|] == done;
        assert RecordsText(done') + "" == RecordsText(done) + (head + Spaced(items) + "\n");
        assert RecordsText(done) + (head + Spaced(items) + "\n") == RecordsText(done) + (head + Spaced(items)) + "\n";
      }
      Print("\n", done', false, head, items);
    }

    method EmitDevice(dev: Device)
      requires Valid() && !open
      modifies this, buf
      ensures Valid() && !open && done == old(done) + [Record("DEV", DeviceItems(dev))]
    {
      Start("DEV");
      Add(Item("idn", Or(dev.idn), true));
      Add(Item("proto", Dec(dev.proto), false));
      Add(Item("mtu", Dec(dev.mtu), false));
      Add(Item("max_block", Dec(dev.maxBlock), false));
      EndLine();
    }

    method EmitParam(p: Param)
      requires Valid() && open
      modifies this, buf
      ensures Valid() && open && done == old(done) && head == old(head) && items == old(items) + [ParamItem(p)]
    {
      var text := ParamHead(p);
      Add(Item("param", text, false));
      if p.optionsCount.Some? && p.optionsFetch.Some? {
        Extend("|" + p.optionsCount.value + "|" + p.optionsFetch.value);
      } else {
        assert text + "" == text;
      }
    }

    method EmitPrompt(p: Prompt)
      requires Valid() && open
      modifies this, buf
      ensures Valid() && open && done == old(done) && head == old(head) && items == old(items) + [PromptItem(p)]
    {
      var text := PromptHead(p);
      Add(Item("prompt", text, false));
      if p.value.Some? {
        Extend("|" + p.value.value);
      } else {
        assert text + "" == text;
      }
    }

    method EmitParams(xs: seq<Param>)
      requires Valid() && open
      modifies this, buf
      ensures Valid() && open && done == old(done) && head == old(head) && items == WithParams(old(items), xs, |xs|)
    {
      hide Valid, ParamItem;
      var k := 0;
      while k < |xs|
        invariant k <= |xs| && Valid() && open && done == old(done) && head == old(head)
        invariant items == WithParams(old(items), xs, k)
      {
        EmitParam(xs[k]);
        k := k + 1;
      }
    }

    method EmitFailed(xs: seq<Option<string>>)
      requires Valid() && open
      modifies this, buf
      ensures Valid() && open && done == old(done) && head == old(head) && items == WithFailed(old(items), xs, |xs|)
    {
      hide Valid;
      var k := 0;
      while k < |xs|
        invariant k <= |xs| && Valid() && open && done == old(done) && head == old(head)
        invariant items == WithFailed(old(items), xs, k)
      {
        Add(Item("failed", Or(xs[k]), false));
        k := k + 1;
      }
    }

    method EmitPrompts(xs: seq<Prompt>)
      requires Valid() && open
      modifies this, buf
      ensures Valid() && open && done == old(done) && head == old(head) && items == WithPrompts(old(items), xs, |xs|)
    {
      hide Valid, PromptItem;
      var k := 0;
      while k < |xs|
        invariant k <= |xs| && Valid() && open && done == old(done) && head == old(head)
        invariant items == WithPrompts(old(items), xs, k)
      {
        EmitPrompt(xs[k]);
        k := k + 1;
      }
    }

    method EmitCommand(c: Command)
      requires Valid() && !open
      modifies this, buf
      ensures Valid() && !open && done == old(done) + [CommandRecord(c)]
    {
      Start("CMD " + c.pattern);
      AddOpt("kind", c.kind);
      AddQuoted("summary", c.summary);
      EmitParams(c.params);
      AddOpt("returns", c.returnType);
      EndLine();
    }

    method EmitDone(w: Workflow)
      requires Valid() && open
      modifies this, buf
      ensures Valid() && open && done == old(done) && head == old(head) && items == old(items) + DoneItems(w)
    {
      if w.doneQuery.Some? { Add(Item("done", w.doneQuery.value + ":" + Or(w.doneValue), false)); }
    }

    method EmitFetch(w: Workflow)
      requires Valid() && open
      modifies this, buf
      ensures Valid() && open && done == old(done) && head == old(head) && items == old(items) + FetchItems(w)
    {
      if w.fetchQuery.Some? { Add(Item("fetch", w.fetchQuery.value + "#index", false)); }
    }

    method EmitLead(w: Workflow, renamed: Option<string>)
      requires Valid() && open
      modifies this, buf
      ensures Valid() && open && done == old(done) && head == old(head) && items == WithLead(old(items), w, renamed)
    {
      hide Valid;
      AddOpt("renamed", renamed);
      AddOpt("type", w.kind);
      AddQuoted("summary", w.summary);
      AddOpt("trigger", w.trigger);
    }

    method EmitQueries(w: Workflow)
      requires Valid() && open
      modifies this, buf
      ensures Valid() && open && done == old(done) && head == old(head) && items == WithQueries(old(items), w)
    {
      hide Valid;
      EmitDone(w);
      AddOpt("count", w.countQuery);
      EmitFetch(w);
      AddOpt("fields", w.fields);
      AddOpt("state", w.stateQuery);
      AddOpt("success", w.success);
    }

    method EmitTail(w: Workflow)
      requires Valid() && open
      modifies this, buf
      ensures Valid() && open && done == old(done) && head == old(head) && items == WithTail(old(items), w)
    {
      hide Valid;
      AddOpt("result", w.resultQuery);
      AddOpt("result_fields", w.resultFields);
      Add(Item("timeout_ms", Dec(w.timeout), false));
      Add(Item("poll_ms", Dec(w.poll), false));
    }

    method EmitWorkflow(w: Workflow, name: string, renamed: Option<string>)
      requires Valid() && !open
      modifies this, buf
      ensures Valid() && !open && done == old(done) + [WorkflowRecord(w, name, renamed)]
    {
      hide Valid;
      Start("WF " + name);
      EmitLead(w, renamed);
      EmitQueries(w);
      EmitFailed(w.failed);
      EmitPrompts(w.prompts);
      EmitTail(w);
      EndLine();
    }

    method EmitCommands(xs: seq<Command>)
      requires Valid() && !open
      modifies this, buf
      ensures Valid() && !open && done == WithCommands(old(done), xs, |xs|)
    {
      hide Valid, CommandRecord;
      var k := 0;
      while k < |xs|
        invariant k <= |xs| && Valid() && !open && done == WithCommands(old(done), xs, k)
      {
        EmitCommand(xs[k]);
        k := k + 1;
      }
    }

    method EmitCopies(w: Workflow)
      requires Valid() && !open
      modifies this, buf
      ensures Valid() && !open && done == WithCopies(old(done), w, |w.renamedFrom|)
    {
      hide Valid, WorkflowRecord;
      var k := 0;
      while k < |w.renamedFrom|
        invariant k <= |w.renamedFrom| && Valid() && !open && done == WithCopies(old(done), w, k)
      {
        EmitWorkflow(w, w.renamedFrom[k], Some(w.name));
        k := k + 1;
      }
    }

    method EmitRenamed(w: Workflow)
      requires Valid() && !open
      modifies this, buf
      ensures Valid() && !open && done == WithWorkflow(old(done), w)
    {
      hide Valid, WorkflowRecord;
      EmitWorkflow(w, w.name, None);
      EmitCopies(w);
    }

    method EmitWorkflows(xs: seq<Workflow>)
      requires Valid() && !open
      modifies this, buf
      ensures Valid() && !open && done == WithWorkflows(old(done), xs, |xs|)
    {
      hide Valid, WithWorkflow;
      var k := 0;
      while k < |xs|
        invariant k <= |xs| && Valid() && !open && done == WithWorkflows(old(done), xs, k)
      {
        EmitRenamed(xs[k]);
        k := k + 1;
      }
    }
  }

  lemma TextNotEmpty(desc: Descriptor, dev: Device)
    ensures DescriptorText(desc, dev) != ""
  {
    var acc := [Record("DEV", DeviceItems(dev))];
    CommandsKept(acc, desc.commands, |desc.commands|);
    WorkflowsKept(WithCommands(acc, desc.commands, |desc.commands|), desc.workflows, |desc.workflows|);
  }

  lemma {:induction false} CommandsKept(acc: seq<Record>, cs: seq<Command>, n: nat)
    requires n <= |cs|
    ensures |WithCommands(acc, cs, n)| >= |acc|
  {
    hide CommandRecord;
    if n > 0 { CommandsKept(acc, cs, n - 1); }
  }

  lemma {:induction false} CopiesKept(acc: seq<Record>, w: Workflow, n: nat)
    requires n <= |w.renamedFrom|
    ensures |WithCopies(acc, w, n)| >= |acc|
  {
    hide WorkflowRecord;
    if n > 0 { CopiesKept(acc, w, n - 1); }
  }

  lemma {:induction false} WorkflowsKept(acc: seq<Record>, ws: seq<Workflow>, n: nat)
    requires n <= |ws|
    ensures |WithWorkflows(acc, ws, n)| >= |acc|
  {
    hide WorkflowRecord;
    if n > 0 {
      var w := ws[n - 1];
      WorkflowsKept(acc, ws, n - 1);
      CopiesKept(WithWorkflows(acc, ws, n - 1) + [WorkflowRecord(w, w.name, None)], w, |w.renamedFrom|);
    }
  }

  /** The whole text when it fits the buffer together with a terminating NUL,
      otherwise nothing. */
  method EmitDescriptor(desc: Descriptor, dev: Device, buf: array<char>) returns (n: nat)
    modifies buf
    ensures n == if |DescriptorText(desc, dev)| < buf.Length then |DescriptorText(desc, dev)| else 0
    ensures n != 0 ==> buf[..n] == DescriptorText(desc, dev) && buf[n] == '\0'
  {
    var p := new Printer(buf);
    assert p.Wanted() == "";
    p.EmitDevice(dev);
    p.EmitCommands(desc.commands);
    p.EmitWorkflows(desc.workflows);
    assert p.Wanted() == DescriptorText(desc, dev);
    TextNotEmpty(desc, dev);
    n := if p.failed then 0 else p.len;
  }
}
