/** The host's line-record parser (host/rust/src/descriptor.rs). */
module DescriptorParser {
  import opened Common
  import opened Decimal
  import opened LineText

  datatype FieldType = Str | I64 | U64 | F64 | Bool | Mac | Hex

  datatype Column = Column(name: string, kind: FieldType, unit: Option<string>)

  datatype HostParam = HostParam(
    name: string, kind: string, required: bool,
    optionsCount: Option<string>, optionsFetch: Option<string>)

  datatype HostCommand = HostCommand(
    pattern: string, kind: string, summary: string, params: seq<HostParam>, returnType: Option<string>)

  datatype PromptKind = Passkey | Number | Text | Confirm | Display

  datatype HostPrompt = HostPrompt(state: string, kind: PromptKind, send: string, value: Option<string>)

  datatype HostWorkflow = HostWorkflow(
    name: string, interactive: bool, summary: string, trigger: string,
    doneQuery: Option<string>, doneValue: Option<string>, countQuery: Option<string>,
    fetchQuery: Option<string>, fetchIndex: Option<string>,
    stateQuery: Option<string>, success: Option<string>, failed: seq<string>,
    prompts: seq<HostPrompt>, resultQuery: Option<string>,
    fields: seq<Column>, resultFields: seq<Column>, renamedTo: Option<string>,
    timeout: nat, poll: nat)

  datatype HostDevice = HostDevice(
    name: string, idn: Option<string>, idnMatch: Option<string>,
    proto: Option<nat>, mtu: Option<nat>, maxBlock: Option<nat>)

  datatype Profile = Profile(device: HostDevice, commands: seq<HostCommand>, workflows: seq<HostWorkflow>)

  datatype Result = Good(profile: Profile) | Bad(line: nat, msg: string)

  /** What one line does: the profile with it, or the refusal of it. */
  datatype LineRead = Kept(profile: Profile) | Refused(msg: string)

  const U32_MAX: nat := 0xFFFF_FFFF
  const U64_MAX: nat := 0xFFFF_FFFF_FFFF_FFFF

  const NO_DEVICE := HostDevice("", None, None, None, None, None)
  const NO_PROFILE := Profile(NO_DEVICE, [], [])

  type Pair = (string, string)

  /* ---- key=value tokens ---- */

  predicate InQuotes(s: string) {
    |s| >= 2 && s[0] == '"' && s[|s| - 1] == '"'
  }

  function StripQuotes(s: string): string {
    if InQuotes(s) then Unquoted(s[1..|s| - 1]) else s
  }

  function PairOf(token: string): seq<Pair> {
    var eq := Index(token, '=');
    if eq == |token| then [] else [(token[..eq], StripQuotes(token[eq + 1..]))]
  }

  function PairsOf(tokens: seq<string>): seq<Pair> {
    if tokens == [] then [] else PairOf(tokens[0]) + PairsOf(tokens[1..])
  }

  method ParsePair(tok: string) returns (pair: seq<Pair>)
    ensures pair == PairOf(tok)
  {
    var eq := Index(tok, '=');
    if eq == |tok| { return []; }
    var value := tok[eq + 1..];
    if InQuotes(value) { value := Unquote(value); }
    return [(tok[..eq], value)];
  }

  method ParseKeyValues(tokens: seq<string>) returns (pairs: seq<Pair>)
    ensures pairs == PairsOf(tokens)
  {
    pairs := [];
    var i := 0;
    assert tokens[0..] == tokens;
    while i < |tokens|
      invariant i <= |tokens| && pairs + PairsOf(tokens[i..]) == PairsOf(tokens)
    {
      assert tokens[i..][1..] == tokens[i + 1..];
      var pair := ParsePair(tokens[i]);
      ghost var before := pairs;
      pairs := pairs + pair;
      i := i + 1;
      assert before + (pair + PairsOf(tokens[i..])) == pairs + PairsOf(tokens[i..]);
    }
  }

  /* ---- values with structure ---- */

  /** `<name>:<type>:<req|opt>[|<count>|<fetch>]`; fewer than three parts is
      not a parameter. */
  function ParseParam(value: string): Option<HostParam> {
    var segments := Split(value, '|');
    var parts := SplitN(segments[0], 3, ':');
    if |parts| != 3 then None
    else Some(HostParam(parts[0], parts[1], parts[2] == "req",
                        if |segments| > 1 then Some(segments[1]) else None,
                        if |segments| > 2 then Some(segments[2]) else None))
  }

  function ParsePromptKind(s: string): Option<PromptKind> {
    if s == "passkey" then Some(Passkey)
    else if s == "number" then Some(Number)
    else if s == "text" then Some(Text)
    else if s == "confirm" then Some(Confirm)
    else if s == "display" then Some(Display)
    else None
  }

  /** `<state>|<kind>|<send_cmd>[|<value_query>]`. */
  function ParsePrompt(value: string): Option<HostPrompt> {
    var parts := Split(value, '|');
    if |parts| < 3 then None
    else
      var kind := ParsePromptKind(parts[1]);
      if kind == None then None
      else Some(HostPrompt(parts[0], kind.value, parts[2],
                           if |parts| > 3 && parts[3] != "" then Some(parts[3]) else None))
  }

  function ParseFieldType(s: string): FieldType {
    if s == "i32" || s == "i64" then I64
    else if s == "u32" || s == "u64" then U64
    else if s == "f64" || s == "f32" then F64
    else if s == "bool" then Bool
    else if s == "mac" then Mac
    else if s == "hex" then Hex
    else Str
  }

  function ParseColumn(spec: string): seq<Column> {
    var parts := Split(spec, ':');
    if parts[0] == "" then []
    else [Column(parts[0], if |parts| > 1 then ParseFieldType(parts[1]) else Str,
                 if |parts| > 2 && parts[2] != "" then Some(parts[2]) else None)]
  }

  function ColumnsOf(specs: seq<string>): seq<Column> {
    if specs == [] then [] else ParseColumn(specs[0]) + ColumnsOf(specs[1..])
  }

  function ParseFields(value: string): seq<Column> {
    ColumnsOf(Split(value, ','))
  }

  /* ---- records ---- */

  function DeviceKey(d: HostDevice, key: string, value: string): HostDevice {
    if key == "name" then d.(name := value)
    else if key == "idn" then d.(idn := Some(value))
    else if key == "idn_match" then d.(idnMatch := Some(value))
    else if key == "proto" then d.(proto := ParseUnsigned(value, U32_MAX))
    else if key == "mtu" then d.(mtu := ParseUnsigned(value, U64_MAX))
    else if key == "max_block" then d.(maxBlock := ParseUnsigned(value, U64_MAX))
    else d
  }

  function CommandKey(c: HostCommand, key: string, value: string): HostCommand {
    if key == "kind" then c.(kind := value)
    else if key == "summary" then c.(summary := value)
    else if key == "param" then
      var p := ParseParam(value);
      if p.Some? then c.(params := c.params + [p.value]) else c
    else if key == "returns" then c.(returnType := Some(value))
    else c
  }

  function DoneKey(w: HostWorkflow, value: string): HostWorkflow {
    var pos := AfterLast(value, ':');
    if pos > 0 then w.(doneQuery := Some(value[..pos - 1]), doneValue := Some(value[pos..]))
    else w.(doneQuery := Some(value))
  }

  function FetchKey(w: HostWorkflow, value: string): HostWorkflow {
    var pos := Index(value, '#');
    if pos < |value| then w.(fetchQuery := Some(value[..pos]), fetchIndex := Some(value[pos + 1..]))
    else w.(fetchQuery := Some(value))
  }

  function OrElse(n: Option<nat>, default: nat): nat {
    if n.Some? then n.value else default
  }

  function WorkflowKey(w: HostWorkflow, key: string, value: string): HostWorkflow {
    if key == "type" then w.(interactive := value == "trigger_poll_interactive")
    else if key == "summary" then w.(summary := value)
    else if key == "trigger" then w.(trigger := value)
    else if key == "done" then DoneKey(w, value)
    else if key == "count" then w.(countQuery := Some(value))
    else if key == "fetch" then FetchKey(w, value)
    else if key == "state" then w.(stateQuery := Some(value))
    else if key == "success" then w.(success := Some(value))
    else if key == "result" then w.(resultQuery := Some(value))
    else if key == "fields" then w.(fields := ParseFields(value))
    else if key == "result_fields" then w.(resultFields := ParseFields(value))
    else if key == "failed" then w.(failed := w.failed + [value])
    else if key == "prompt" then
      var p := ParsePrompt(value);
      if p.Some? then w.(prompts := w.prompts + [p.value]) else w
    else if key == "timeout_ms" then w.(timeout := OrElse(ParseUnsigned(value, U64_MAX), 15_000))
    else if key == "poll_ms" then w.(poll := OrElse(ParseUnsigned(value, U64_MAX), 250))
    else if key == "renamed" then w.(renamedTo := Some(value))
    else w
  }

  function DeviceKeys(d: HostDevice, kv: seq<Pair>): HostDevice {
    if kv == [] then d
    else DeviceKey(DeviceKeys(d, kv[..|kv| - 1]), kv[|kv| - 1].0, kv[|kv| - 1].1)
  }

  function CommandKeys(c: HostCommand, kv: seq<Pair>): HostCommand {
    if kv == [] then c
    else CommandKey(CommandKeys(c, kv[..|kv| - 1]), kv[|kv| - 1].0, kv[|kv| - 1].1)
  }

  function WorkflowKeys(w: HostWorkflow, kv: seq<Pair>): HostWorkflow {
    if kv == [] then w
    else WorkflowKey(WorkflowKeys(w, kv[..|kv| - 1]), kv[|kv| - 1].0, kv[|kv| - 1].1)
  }

  function NewCommand(pattern: string): HostCommand {
    HostCommand(pattern, "", "", [], None)
  }

  function NewWorkflow(name: string): HostWorkflow {
    HostWorkflow(name, false, "", "", None, None, None, None, None, None, None, [], [], None, [], [], None, 15_000, 250)
  }

  method ParseDev(d: HostDevice, kv: seq<Pair>) returns (r: HostDevice)
    ensures r == DeviceKeys(d, kv)
  {
    r := d;
    var i := 0;
    while i < |kv|
      invariant i <= |kv| && r == DeviceKeys(d, kv[..i])
    {
      r := DeviceKey(r, kv[i].0, kv[i].1);
      i := i + 1;
      assert kv[..i][..i - 1] == kv[..i - 1];
    }
    assert kv[..i] == kv;
  }

  method ParseCmd(pattern: string, kv: seq<Pair>) returns (r: HostCommand)
    ensures r == CommandKeys(NewCommand(pattern), kv)
  {
    r := NewCommand(pattern);
    var i := 0;
    while i < |kv|
      invariant i <= |kv| && r == CommandKeys(NewCommand(pattern), kv[..i])
    {
      r := CommandKey(r, kv[i].0, kv[i].1);
      i := i + 1;
      assert kv[..i][..i - 1] == kv[..i - 1];
    }
    assert kv[..i] == kv;
  }

  method ParseWf(name: string, kv: seq<Pair>) returns (r: HostWorkflow)
    ensures r == WorkflowKeys(NewWorkflow(name), kv)
  {
    r := NewWorkflow(name);
    var i := 0;
    while i < |kv|
      invariant i <= |kv| && r == WorkflowKeys(NewWorkflow(name), kv[..i])
    {
      r := WorkflowKey(r, kv[i].0, kv[i].1);
      i := i + 1;
      assert kv[..i][..i - 1] == kv[..i - 1];
    }
    assert kv[..i] == kv;
  }

  /* ---- the text ---- */

  /** The effect of one line; a CMD or WF record without a name is refused. */
  function ParseLine(p: Profile, raw: string): LineRead {
    var line := Trim(raw);
    if line == "" || line[0] == '#' then Kept(p)
    else
      var tokens := Tokens(line);
      if tokens == [] then Kept(p)
      else if tokens[0] == "DEV" then Kept(p.(device := DeviceKeys(p.device, PairsOf(tokens[1..]))))
      else if tokens[0] == "CMD" then
        if |tokens| < 2 then Refused("CMD requires a pattern")
        else Kept(p.(commands := p.commands + [CommandKeys(NewCommand(StripQuotes(tokens[1])), PairsOf(tokens[2..]))]))
      else if tokens[0] == "WF" then
        if |tokens| < 2 then Refused("WF requires a name")
        else Kept(p.(workflows := p.workflows + [WorkflowKeys(NewWorkflow(StripQuotes(tokens[1])), PairsOf(tokens[2..]))]))
      else Kept(p)
  }

  /** Lines in turn, from number n; the first refused one is reported. */
  function ParseLines(p: Profile, lines: seq<string>, n: nat): Result
    decreases |lines|
  {
    if lines == [] then Good(p)
    else
      var r := ParseLine(p, lines[0]);
      match r
      case Refused(msg) => Bad(n + 1, msg)
      case Kept(kept) => ParseLines(kept, lines[1..], n + 1)
  }

  function ParseText(text: string): Result {
    ParseLines(NO_PROFILE, Lines(text), 0)
  }

  method ParseOne(p: Profile, raw: string) returns (r: LineRead)
    ensures r == ParseLine(p, raw)
  {
    var line := Trim(raw);
    if line == "" || line[0] == '#' { return Kept(p); }
    var tokens := Tokenize(line);
    if |tokens| == 0 { return Kept(p); }
    if tokens[0] == "DEV" {
      var kv := ParseKeyValues(tokens[1..]);
      var d := ParseDev(p.device, kv);
      return Kept(p.(device := d));
    } else if tokens[0] == "CMD" {
      if |tokens| < 2 { return Refused("CMD requires a pattern"); }
      var kv := ParseKeyValues(tokens[2..]);
      var c := ParseCmd(StripQuotes(tokens[1]), kv);
      return Kept(p.(commands := p.commands + [c]));
    } else if tokens[0] == "WF" {
      if |tokens| < 2 { return Refused("WF requires a name"); }
      var kv := ParseKeyValues(tokens[2..]);
      var w := ParseWf(StripQuotes(tokens[1]), kv);
      return Kept(p.(workflows := p.workflows + [w]));
    }
    return Kept(p);
  }

  method ParseStr(text: string) returns (r: Result)
    ensures r == ParseText(text)
  {
    var profile := NO_PROFILE;
    var lines := Lines(text);
    var n := 0;
    assert lines[0..] == lines;
    while n < |lines|
      invariant n <= |lines| && ParseLines(profile, lines[n..], n) == ParseText(text)
    {
      assert lines[n..][1..] == lines[n + 1..];
      var p := ParseOne(profile, lines[n]);
      if p.Refused? { return Bad(n + 1, p.msg); }
      profile := p.profile;
      n := n + 1;
    }
    return Good(profile);
  }

  /** A record that lacks its name: the tag is all there is on the line. */
  predicate Nameless(raw: string) {
    var line := Trim(raw);
    line != "" && line[0] != '#' && (Tokens(line) == ["CMD"] || Tokens(line) == ["WF"])
  }

  function Complaint(raw: string): string {
    if Tokens(Trim(raw)) == ["CMD"] then "CMD requires a pattern" else "WF requires a name"
  }

  lemma NamelessIsRefused(p: Profile, raw: string)
    ensures ParseLine(p, raw).Refused? <==> Nameless(raw)
    ensures Nameless(raw) ==> ParseLine(p, raw) == Refused(Complaint(raw))
  {
    hide Tokens, Trim, PairsOf, DeviceKeys, CommandKeys, WorkflowKeys, StripQuotes;
    var tokens := Tokens(Trim(raw));
    assert "CMD" != "WF" by { assert "CMD"[0] != "WF"[0]; }
    assert "DEV"[0] != "CMD"[0] && "DEV"[0] != "WF"[0];
    assert |tokens| == 1 ==> tokens == [tokens[0]];
  }

  /** A text is refused exactly when some line is a record without its name, and
      then the first such line is reported, whatever the profile held. */
  lemma {:induction false} FirstNamelessLine(p: Profile, lines: seq<string>, n: nat)
    ensures ParseLines(p, lines, n).Good? <==> forall i :: 0 <= i < |lines| ==> !Nameless(lines[i])
    ensures var r := ParseLines(p, lines, n);
            r.Bad? ==> && n < r.line <= n + |lines| && Nameless(lines[r.line - n - 1])
                       && r.msg == Complaint(lines[r.line - n - 1])
                       && forall i :: 0 <= i < r.line - n - 1 ==> !Nameless(lines[i])
    decreases |lines|
  {
    hide ParseLine, Nameless, Complaint;
    if lines != [] {
      NamelessIsRefused(p, lines[0]);
      var r := ParseLine(p, lines[0]);
      if r.Kept? {
        var more := lines[1..];
        FirstNamelessLine(r.profile, more, n + 1);
        assert forall i :: 1 <= i < |lines| ==> lines[i] == more[i - 1];
        assert forall i :: 0 <= i < |more| ==> more[i] == lines[i + 1];
      }
    }
  }

  /** So of a text the first nameless record is reported, counting lines from one. */
  lemma RefusedLine(text: string)
    ensures var lines, r := Lines(text), ParseText(text);
            if forall i :: 0 <= i < |lines| ==> !Nameless(lines[i]) then r.Good?
            else r.Bad? && 1 <= r.line <= |lines| && Nameless(lines[r.line - 1]) && r.msg == Complaint(lines[r.line - 1])
                 && forall i :: 0 <= i < r.line - 1 ==> !Nameless(lines[i])
  {
    hide ParseLines, Nameless, Complaint, Lines;
    FirstNamelessLine(NO_PROFILE, Lines(text), 0);
    var r := ParseLines(NO_PROFILE, Lines(text), 0);
    if r.Bad? { assert Nameless(Lines(text)[r.line - 1]); }
  }
}
