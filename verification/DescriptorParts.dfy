/** The values of the descriptor that hold several parts: the device joins them,
    the host cuts them again, and what comes back is decided exactly. */
module DescriptorParts {
  import opened Common
  import opened LineText
  import opened DescriptorPrinter
  import opened DescriptorParser

  /** The parts of a parameter are cut where they were joined. */
  predicate CleanParam(p: Param) {
    && ':' !in Or(p.name) && '|' !in Or(p.name) && ':' !in Or(p.kind) && '|' !in Or(p.kind)
    && (p.optionsCount.Some? && p.optionsFetch.Some? ==>
          '|' !in p.optionsCount.value && '|' !in p.optionsFetch.value)
  }

  /** The kinds of prompt the format has. */
  const PROMPT_KINDS: map<string, PromptKind> :=
    map["passkey" := Passkey, "number" := Number, "text" := Text, "confirm" := Confirm, "display" := Display]

  lemma KindsAgree(s: string)
    ensures ParsePromptKind(s) == if s in PROMPT_KINDS then Some(PROMPT_KINDS[s]) else None
  {
  }

  /** So are those of a prompt of a kind the host knows; one of another kind is
      skipped if what stands second is not a known kind either. */
  predicate CleanPrompt(p: Prompt) {
    if Or(p.kind) in PROMPT_KINDS then
      '|' !in Or(p.state) && '|' !in Or(p.send) && '|' !in Or(p.value)
    else SecondPart(p) !in PROMPT_KINDS
  }

  function SecondPart(p: Prompt): string {
    if '|' in Or(p.state) then Split(Or(p.state), '|')[1] else Split(Or(p.kind), '|')[0]
  }

  function HostParamOf(p: Param): HostParam {
    var options := p.optionsCount.Some? && p.optionsFetch.Some?;
    HostParam(Or(p.name), Or(p.kind), p.required,
              if options then p.optionsCount else None, if options then p.optionsFetch else None)
  }

  /** A prompt of a kind the host does not know is skipped. */
  function HostPromptOf(p: Prompt): seq<HostPrompt> {
    if Or(p.kind) !in PROMPT_KINDS then []
    else [HostPrompt(Or(p.state), PROMPT_KINDS[Or(p.kind)], Or(p.send), if Or(p.value) != "" then p.value else None)]
  }

  /* ---- cutting joined text ---- */

  lemma {:induction false} IndexIn(a: string, c: char, b: string)
    requires c in a
    ensures Index(a + b, c) == Index(a, c) < |a|
  {
    if a[0] != c {
      assert (a + b)[1..] == a[1..] + b;
      IndexIn(a[1..], c, b);
    }
  }

  /** Text joined at the character it is cut at is cut there, and inside. */
  lemma {:induction false} SplitJoined(a: string, c: char, b: string)
    ensures Split(a + ([c] + b), c) == Split(a, c) + Split(b, c)
    decreases |a|
  {
    Assoc(a, [c], b);
    if c in a {
      hide Index;
      IndexIn(a, c, [c] + b);
      IndexIn(a, c, "");
      assert a + "" == a;
      var i := Index(a, c);
      SplitJoined(a[i + 1..], c, b);
      assert (a + ([c] + b))[..i] == a[..i];
      DropOfAppend(a, [c] + b, i + 1);
      assert Split(a, c) == [a[..i]] + Split(a[i + 1..], c);
      Assoc([a[..i]], Split(a[i + 1..], c), Split(b, c));
    } else {
      SplitFirst(a, c, b);
      SplitNone(a, c);
    }
  }

  /** A text that holds the character is cut, and its first piece is shorter. */
  lemma SplitShort(a: string, c: char)
    requires c in a
    ensures |Split(a, c)| >= 2 && |Split(a, c)[0]| < |a|
  {
    hide Index;
    IndexIn(a, c, "");
    assert a + "" == a;
  }

  lemma FirstPiece(a: string, c: char)
    ensures Split(a, c)[0] == a <==> c !in a
    ensures Split(a, c)[0] == a ==> Split(a, c) == [a]
  {
    if c in a { SplitShort(a, c); } else { SplitNone(a, c); }
  }

  /** The first two pieces, each as far as the character. */
  lemma SplitNPieces(s: string, n: nat, c: char)
    requires n >= 2 && |SplitN(s, n, c)| >= 2
    ensures SplitN(s, n, c) == [s[..Index(s, c)]] + SplitN(s[Index(s, c) + 1..], n - 1, c)
    ensures Index(s, c) < |s| && c in s
  {
    hide Index;
  }

  /** Pieces and what was between them are as long as the text. */
  lemma {:induction false} ThreePieces(s: string, c: char)
    requires |SplitN(s, 3, c)| == 3
    ensures var ps := SplitN(s, 3, c); |s| == |ps[0]| + 1 + |ps[1]| + 1 + |ps[2]|
  {
    hide Index;
    SplitNPieces(s, 3, c);
    SplitNPieces(s[Index(s, c) + 1..], 2, c);
  }

  /* ---- parameters ---- */

  function Req(required: bool): string {
    if required then "req" else "opt"
  }

  lemma ReqReads(required: bool)
    ensures (Req(required) == "req" <==> required) && '|' !in Req(required) && ':' !in Req(required)
  {
    assert Req(true)[0] != Req(false)[0];
  }

  function Options(p: Param): seq<string> {
    if p.optionsCount.Some? && p.optionsFetch.Some?
    then Split(p.optionsCount.value, '|') + Split(p.optionsFetch.value, '|') else []
  }

  lemma ParamSegments(p: Param)
    ensures Split(ParamItem(p).value, '|') == Split(ParamHead(p), '|') + Options(p)
  {
    hide Split, ParamHead;
    var head := ParamHead(p);
    if p.optionsCount.Some? && p.optionsFetch.Some? {
      var count, fetch := p.optionsCount.value, p.optionsFetch.value;
      assert "|" + count + "|" + fetch == ['|'] + (count + (['|'] + fetch));
      SplitJoined(head, '|', count + (['|'] + fetch));
      SplitJoined(count, '|', fetch);
    } else {
      assert head + "" == head;
      assert Split(head, '|') + [] == Split(head, '|');
    }
  }

  lemma HeadParts(p: Param)
    requires ':' !in Or(p.name) && ':' !in Or(p.kind)
    ensures SplitN(ParamHead(p), 3, ':') == [Or(p.name), Or(p.kind), Req(p.required)]
  {
    var name, kind, req := Or(p.name), Or(p.kind), Req(p.required);
    assert ParamHead(p) == name + [':'] + kind + [':'] + req;
    SplitNThree(name, kind, req, ':');
  }

  lemma HeadBar(p: Param)
    ensures '|' in ParamHead(p) <==> '|' in Or(p.name) || '|' in Or(p.kind)
    ensures '|' in ParamHead(p) ==> Index(ParamHead(p), '|') < |Or(p.name)| + 1 + |Or(p.kind)|
  {
    hide Index;
    ReqReads(p.required);
    var front, back := Or(p.name) + ":" + Or(p.kind), ":" + Req(p.required);
    assert ParamHead(p) == front + back;
    if '|' in front { IndexIn(front, '|', back); }
  }

  /** The head cut short has not got the name and the kind in it. */
  lemma HeadIsWhole(p: Param)
    requires var parts := SplitN(Split(ParamHead(p), '|')[0], 3, ':');
      |parts| == 3 && parts[0] == Or(p.name) && parts[1] == Or(p.kind)
    ensures '|' !in Or(p.name) && '|' !in Or(p.kind) && Split(ParamHead(p), '|') == [ParamHead(p)]
  {
    hide Index, SplitN, ParamHead;
    var first := Split(ParamHead(p), '|')[0];
    HeadBar(p);
    ThreePieces(first, ':');
    if '|' !in ParamHead(p) { SplitNone(ParamHead(p), '|'); }
  }

  /** So has the head cut at a colon of its own. */
  lemma HeadColons(p: Param)
    requires var parts := SplitN(ParamHead(p), 3, ':');
      |parts| == 3 && parts[0] == Or(p.name) && parts[1] == Or(p.kind)
    ensures ':' !in Or(p.name) && ':' !in Or(p.kind)
  {
    hide Index, SplitN;
    var name, rest := Or(p.name), Or(p.kind) + (":" + Req(p.required));
    assert ParamHead(p) == name + ([':'] + rest);
    hide ParamHead;
    PieceHasNone(name, ':', rest, 3);
    PieceHasNone(Or(p.kind), ':', Req(p.required), 2);
  }

  /** A first piece that is all that was joined there holds no such character. */
  lemma PieceHasNone(a: string, c: char, b: string, n: nat)
    requires n >= 2 && |SplitN(a + ([c] + b), n, c)| >= 2 && SplitN(a + ([c] + b), n, c)[0] == a
    ensures c !in a && SplitN(a + ([c] + b), n, c) == [a] + SplitN(b, n - 1, c)
  {
    hide Index, SplitN;
    var s := a + ([c] + b);
    SplitNPieces(s, n, c);
    if c in a {
      IndexIn(a, c, [c] + b);
    } else {
      Assoc(a, [c], b);
      SplitNFirst(a, n, c, b);
    }
  }

  /** A parameter is read back exactly when no part of it holds a character it is
      cut at before that part ends. */
  lemma ParamExact(p: Param)
    ensures ParseParam(ParamItem(p).value) == Some(HostParamOf(p)) <==> CleanParam(p)
  {
    ParamSegments(p);
    ReqReads(p.required);
    OptionsExact(p);
    HeadBar(p);
    hide Split, SplitN, Index, ParamHead, Options;
    if CleanParam(p) {
      HeadParts(p);
      SplitNone(ParamHead(p), '|');
    } else if ParseParam(ParamItem(p).value) == Some(HostParamOf(p)) {
      assert Split(ParamItem(p).value, '|')[0] == Split(ParamHead(p), '|')[0];
      HeadIsWhole(p);
      HeadColons(p);
    }
  }

  /** The options are the second and third segment as they were printed exactly
      when they hold no bar. */
  lemma OptionsExact(p: Param)
    ensures Options(p) == [] <==> !(p.optionsCount.Some? && p.optionsFetch.Some?)
    ensures Options(p) != [] ==>
      && |Options(p)| >= 2
      && (Options(p)[0] == p.optionsCount.value && Options(p)[1] == p.optionsFetch.value <==>
          '|' !in p.optionsCount.value && '|' !in p.optionsFetch.value)
  {
    hide Split;
    if p.optionsCount.Some? && p.optionsFetch.Some? {
      FirstPiece(p.optionsCount.value, '|');
      FirstPiece(p.optionsFetch.value, '|');
    }
  }

  /* ---- prompts ---- */

  function ValuePieces(p: Prompt): seq<string> {
    if p.value.Some? then Split(p.value.value, '|') else []
  }

  lemma PromptPieces(p: Prompt)
    ensures Split(PromptItem(p).value, '|')
            == Split(Or(p.state), '|') + (Split(Or(p.kind), '|') + (Split(Or(p.send), '|') + ValuePieces(p)))
  {
    hide Split;
    var state, kind, send, tail := Or(p.state), Or(p.kind), Or(p.send), PromptTail(p);
    assert PromptItem(p).value == state + (['|'] + (kind + (['|'] + (send + tail))));
    SplitJoined(state, '|', kind + (['|'] + (send + tail)));
    SplitJoined(kind, '|', send + tail);
    if p.value.Some? {
      SplitJoined(send, '|', p.value.value);
    } else {
      assert send + tail == send;
      assert Split(send, '|') + [] == Split(send, '|');
    }
  }

  lemma KnownKindHasNoBar(kind: string)
    requires ParsePromptKind(kind).Some?
    ensures '|' !in kind
  {
  }

  /** What the cut yields second. */
  lemma SecondPiece(p: Prompt)
    ensures var parts := Split(PromptItem(p).value, '|'); |parts| >= 3 && parts[1] == SecondPart(p)
  {
    hide Split, PromptItem;
    PromptPieces(p);
    FirstPiece(Or(p.state), '|');
    if '|' in Or(p.state) { SplitShort(Or(p.state), '|'); }
  }

  /** A prompt of a known kind is read back exactly when its state, command and
      query hold no bar; one of another kind is skipped exactly when what the cut
      yields second is no known kind. */
  lemma PromptExact(p: Prompt)
    ensures var r := ParsePrompt(PromptItem(p).value);
            HostPromptOf(p) == (if r.Some? then [r.value] else []) <==> CleanPrompt(p)
  {
    hide Split, PromptItem, ParsePromptKind;
    SecondPiece(p);
    KindsAgree(Or(p.kind));
    KindsAgree(SecondPart(p));
    if ParsePromptKind(Or(p.kind)).Some? {
      KnownExact(p);
    }
  }

  /** The optional fourth part, an empty one being none. */
  function Fourth(parts: seq<string>): Option<string> {
    if |parts| > 3 && parts[3] != "" then Some(parts[3]) else None
  }

  lemma FourthExact(p: Prompt, front: seq<string>)
    requires |front| == 3
    ensures Fourth(front + ValuePieces(p)) == (if Or(p.value) != "" then p.value else None)
            <==> '|' !in Or(p.value)
  {
    hide Split;
    FirstPiece(Or(p.value), '|');
    if '|' in Or(p.value) { SplitShort(Or(p.value), '|'); }
  }

  lemma KnownExact(p: Prompt)
    requires ParsePromptKind(Or(p.kind)).Some?
    ensures ParsePrompt(PromptItem(p).value) == Some(HostPromptOf(p)[0]) <==>
            '|' !in Or(p.state) && '|' !in Or(p.send) && '|' !in Or(p.value)
  {
    var state, kind, send := Or(p.state), Or(p.kind), Or(p.send);
    KindsAgree(kind);
    KnownKindHasNoBar(kind);
    PromptPieces(p);
    ParseIsParts(p);
    hide Split, PromptItem, ParsePromptKind, ParsePrompt, ValuePieces, Fourth;
    SplitNone(kind, '|');
    FirstPiece(state, '|');
    FirstPiece(send, '|');
    FrontPieces(Split(state, '|'), kind, Split(send, '|'), ValuePieces(p));
    FourthExact(p, [state, kind, send]);
  }

  lemma FrontPieces(a: seq<string>, kind: string, c: seq<string>, d: seq<string>)
    requires |a| >= 1 && |c| >= 1
    ensures var parts := a + ([kind] + (c + d));
      && |parts| >= 3 && parts[0] == a[0]
      && (|a| == 1 ==> parts[1] == kind && parts[2] == c[0])
      && (|a| == 1 && |c| == 1 ==> parts == [a[0], kind, c[0]] + d)
  {
  }

  lemma ParseIsParts(p: Prompt)
    ensures var parts := Split(PromptItem(p).value, '|');
      ParsePrompt(PromptItem(p).value) ==
      if |parts| < 3 || ParsePromptKind(parts[1]) == None then None
      else Some(HostPrompt(parts[0], ParsePromptKind(parts[1]).value, parts[2], Fourth(parts)))
  {
    hide Split, PromptItem, ParsePromptKind;
  }
}
