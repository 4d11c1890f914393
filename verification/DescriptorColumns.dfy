/** The column lists of a workflow: `<name>[:<type>[:<unit>]]` joined with commas,
    and what each spelling of a type denotes. */
module DescriptorColumns {
  import opened Common
  import opened LineText
  import opened DescriptorParser

  /** The parts of one column, as they stand between the colons. */
  type Spelling = seq<string>

  /** What the spellings of the format denote; any other is a string. */
  const TYPES: map<string, FieldType> :=
    map["string" := Str, "i32" := I64, "i64" := I64, "u32" := U64, "u64" := U64,
        "f32" := F64, "f64" := F64, "bool" := Bool, "mac" := Mac, "hex" := Hex]

  /** The column a spelling denotes: none without a name, a string without a type,
      no unit if that part is missing or empty. */
  function Denoted(parts: Spelling): seq<Column> {
    if parts == [] || parts[0] == "" then []
    else
      var kind := if |parts| > 1 && parts[1] in TYPES then TYPES[parts[1]] else Str;
      var unit := if |parts| > 2 && parts[2] != "" then Some(parts[2]) else None;
      [Column(parts[0], kind, unit)]
  }

  function DenotedAll(columns: seq<Spelling>): seq<Column> {
    if columns == [] then [] else Denoted(columns[0]) + DenotedAll(columns[1..])
  }

  function Join(parts: seq<string>, c: char): string {
    if parts == [] then "" else if |parts| == 1 then parts[0] else parts[0] + ([c] + Join(parts[1..], c))
  }

  /** The columns as text. */
  function ColumnsText(columns: seq<Spelling>): string {
    Join(seq(|columns|, i requires 0 <= i < |columns| => Join(columns[i], ':')), ',')
  }

  /** The parts are parts: none holds a separator. */
  predicate Spelt(parts: Spelling) {
    parts != [] && forall i :: 0 <= i < |parts| ==> ':' !in parts[i] && ',' !in parts[i]
  }

  predicate AllSpelt(columns: seq<Spelling>) {
    columns != [] && forall i :: 0 <= i < |columns| ==> Spelt(columns[i])
  }

  // Joining and splitting

  lemma {:induction false} SplitOfJoin(parts: seq<string>, c: char)
    requires parts != [] && forall i :: 0 <= i < |parts| ==> c !in parts[i]
    ensures Split(Join(parts, c), c) == parts
    decreases |parts|
  {
    hide Split;
    if |parts| == 1 {
      SplitNone(parts[0], c);
    } else {
      SplitOfJoin(parts[1..], c);
      Assoc(parts[0], [c], Join(parts[1..], c));
      SplitFirst(parts[0], c, Join(parts[1..], c));
      assert [parts[0]] + parts[1..] == parts;
    }
  }

  lemma {:induction false} NotInJoin(parts: seq<string>, c: char, d: char)
    requires c != d && forall i :: 0 <= i < |parts| ==> d !in parts[i]
    ensures d !in Join(parts, c)
    decreases |parts|
  {
    if |parts| > 1 { NotInJoin(parts[1..], c, d); }
  }

  lemma IndexTells(s: string, c: char)
    ensures var i := Index(s, c);
      c !in s[..i] && (i < |s| ==> s[i] == c && s == s[..i] + ([c] + s[i + 1..]))
  {
    hide Index;
  }

  lemma {:induction false} JoinOfSplit(s: string, c: char)
    ensures Join(Split(s, c), c) == s
    ensures forall i :: 0 <= i < |Split(s, c)| ==> c !in Split(s, c)[i]
    ensures forall i, d :: 0 <= i < |Split(s, c)| && d !in s ==> d !in Split(s, c)[i]
    decreases |s|
  {
    hide Index;
    IndexTells(s, c);
    var i := Index(s, c);
    if i < |s| {
      JoinOfSplit(s[i + 1..], c);
      var more := Split(s[i + 1..], c);
      assert ([s[..i]] + more)[1..] == more;
    } else {
      assert s[..i] == s;
    }
  }

  // Reading them back

  /** The table the host goes by is that of the format. */
  lemma TypesAgree(s: string)
    ensures ParseFieldType(s) == if s in TYPES then TYPES[s] else Str
  {
  }

  lemma ColumnReadBack(parts: Spelling)
    requires Spelt(parts)
    ensures ParseColumn(Join(parts, ':')) == Denoted(parts) && ',' !in Join(parts, ':')
  {
    hide Split, Join, ParseFieldType;
    SplitOfJoin(parts, ':');
    NotInJoin(parts, ':', ',');
    if |parts| > 1 { TypesAgree(parts[1]); }
  }

  lemma {:induction false} ColumnsOfTexts(columns: seq<Spelling>, texts: seq<string>)
    requires |texts| == |columns|
    requires forall i :: 0 <= i < |columns| ==> Spelt(columns[i]) && texts[i] == Join(columns[i], ':')
    ensures ColumnsOf(texts) == DenotedAll(columns)
    decreases |columns|
  {
    hide Join, Denoted, ParseColumn, Spelt;
    if columns != [] {
      ColumnReadBack(columns[0]);
      ColumnsOfTexts(columns[1..], texts[1..]);
    }
  }

  /** A list of columns is read back as what its spellings denote. */
  lemma ColumnsReadBack(columns: seq<Spelling>)
    requires AllSpelt(columns)
    ensures ParseFields(ColumnsText(columns)) == DenotedAll(columns)
  {
    hide Join, Split, Spelt, ColumnsOf, DenotedAll;
    var texts := seq(|columns|, i requires 0 <= i < |columns| => Join(columns[i], ':'));
    forall i | 0 <= i < |columns| ensures ',' !in texts[i] {
      ColumnReadBack(columns[i]);
    }
    SplitOfJoin(texts, ',');
    ColumnsOfTexts(columns, texts);
  }

  /** Every text is a list of columns. */
  lemma EveryTextIsSpelt(s: string) returns (columns: seq<Spelling>)
    ensures AllSpelt(columns) && ColumnsText(columns) == s
  {
    hide Join, Split;
    JoinOfSplit(s, ',');
    var texts := Split(s, ',');
    columns := seq(|texts|, i requires 0 <= i < |texts| => Split(texts[i], ':'));
    forall i | 0 <= i < |texts| ensures Spelt(columns[i]) && Join(columns[i], ':') == texts[i] {
      JoinOfSplit(texts[i], ':');
    }
    assert texts == seq(|columns|, i requires 0 <= i < |columns| => Join(columns[i], ':'));
  }

  /** The columns a text denotes, by how it is spelt. */
  ghost function ColumnsIn(s: string): (columns: seq<Column>)
    ensures exists spelt :: AllSpelt(spelt) && ColumnsText(spelt) == s && columns == DenotedAll(spelt)
  {
    var some := SomeSpelling(s);
    DenotedAll(some)
  }

  ghost function SomeSpelling(s: string): (columns: seq<Spelling>)
    ensures AllSpelt(columns) && ColumnsText(columns) == s
  {
    assert exists columns :: AllSpelt(columns) && ColumnsText(columns) == s by {
      var columns := EveryTextIsSpelt(s);
    }
    var columns :| AllSpelt(columns) && ColumnsText(columns) == s;
    columns
  }

  /** So the host reads of any text the columns it denotes. */
  lemma EveryTextReadBack(s: string)
    ensures ParseFields(s) == ColumnsIn(s)
  {
    hide ColumnsText, AllSpelt, DenotedAll, ParseFields;
    ColumnsReadBack(SomeSpelling(s));
  }
}
