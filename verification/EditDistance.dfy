/** The suggestion for a mistyped header (host/rust/src/bin/iotsploit-host.rs):
    a rolling-row edit distance and the first closest candidate. */
module EditDistance {
  import opened Ascii
  import opened Common
  import LineText

  function Cost(a: char, b: char): nat { if a != b then 1 else 0 }

  /** The distance by recursion on the last characters. */
  function Dist(a: string, b: string): nat
    decreases |a| + |b|
  {
    if a == "" then |b|
    else if b == "" then |a|
    else
      var x, y := a[..|a| - 1], b[..|b| - 1];
      Min(Min(Dist(x, y) + Cost(a[|a| - 1], b[|b| - 1]), Dist(x, b) + 1), Dist(a, y) + 1)
  }

  lemma DistStep(x: string, c: char, y: string, d: char)
    ensures Dist(x + [c], y + [d]) == Min(Min(Dist(x, y) + Cost(c, d), Dist(x, y + [d]) + 1), Dist(x + [c], y) + 1)
  {
    hide Min, Cost;
    var a, b := x + [c], y + [d];
    assert a[..|a| - 1] == x && b[..|b| - 1] == y;
  }

  lemma Snoc(s: string, i: nat)
    requires i < |s|
    ensures s[..i + 1] == s[..i] + [s[i]]
  {
  }

  lemma DistEmpty(a: string)
    ensures Dist(a, "") == |a| && Dist("", a) == |a|
  {
  }

  /** Row of the table for the text x: its distances to the prefixes of b. */
  ghost predicate IsRow(row: seq<nat>, x: string, b: string) {
    |row| == |b| + 1 && forall j :: 0 <= j <= |b| ==> row[j] == Dist(x, b[..j])
  }

  method NextRow(prev: seq<nat>, ghost x: string, c: char, b: string, i: nat) returns (cur: seq<nat>)
    requires IsRow(prev, x, b) && i == |x|
    ensures IsRow(cur, x + [c], b)
  {
    hide Dist, Min;
    cur := [i + 1];
    DistEmpty(x + [c]);
    var j := 0;
    while j < |b|
      invariant j <= |b| && |cur| == j + 1
      invariant forall k :: 0 <= k <= j ==> cur[k] == Dist(x + [c], b[..k])
    {
      Snoc(b, j);
      DistStep(x, c, b[..j], b[j]);
      assert prev[j] == Dist(x, b[..j]) && prev[j + 1] == Dist(x, b[..j + 1]);
      var sub := prev[j] + Cost(c, b[j]);
      cur := cur + [Min(Min(sub, prev[j + 1] + 1), cur[j] + 1)];
      j := j + 1;
    }
  }

  /** One row of the table is all the loop keeps. */
  method Compute(a: string, b: string) returns (d: nat)
    ensures d == Dist(a, b)
  {
    hide Dist;
    var prev: seq<nat> := seq(|b| + 1, j => j);
    forall j | 0 <= j <= |b| ensures prev[j] == Dist("", b[..j]) { DistEmpty(b[..j]); }
    var i := 0;
    while i < |a|
      invariant i <= |a| && IsRow(prev, a[..i], b)
    {
      hide IsRow;
      prev := NextRow(prev, a[..i], a[i], b, i);
      Snoc(a, i);
      i := i + 1;
    }
    assert a[..|a|] == a && b[..|b|] == b;
    assert IsRow(prev, a, b);
    d := prev[|b|];
  }

  // What the distance measures

  /** A change of one character anywhere in a text. */
  datatype Edit = Insert(at: nat, c: char) | Delete(at: nat) | Substitute(at: nat, c: char)

  predicate Applies(e: Edit, s: string) {
    if e.Insert? then e.at <= |s| else e.at < |s|
  }

  function Apply(e: Edit, s: string): string
    requires Applies(e, s)
  {
    match e
    case Insert(at, c) => s[..at] + [c] + s[at..]
    case Delete(at) => s[..at] + s[at + 1..]
    case Substitute(at, c) => s[..at] + [c] + s[at + 1..]
  }

  /** The script turns s into t, one edit after another. */
  predicate Turns(script: seq<Edit>, s: string, t: string)
    decreases |script|
  {
    if script == [] then s == t
    else Applies(script[0], s) && Turns(script[1..], Apply(script[0], s), t)
  }

  lemma DropLast(a: string, y: string, d: char)
    ensures Dist(a, y + [d]) <= Dist(a, y) + 1
  {
    if a != "" {
      Snoc(a, |a| - 1);
      assert a[..|a|] == a;
      DistStep(a[..|a| - 1], a[|a| - 1], y, d);
    }
  }

  lemma Unsnoc(s: string)
    requires s != ""
    ensures s == s[..|s| - 1] + [s[|s| - 1]]
  {
  }

  /** Shortening a by its last character saves at most one edit. */
  lemma {:induction false} AppendLipschitz(a: string, c: char, b: string)
    ensures Dist(a, b) <= Dist(a + [c], b) + 1
    ensures Dist(a + [c], b) <= Dist(a, b) + 1
    decreases |b|
  {
    hide Dist;
    DistEmpty(a);
    DistEmpty(a + [c]);
    if b != "" {
      var y, d := b[..|b| - 1], b[|b| - 1];
      Unsnoc(b);
      AppendLipschitz(a, c, y);
      DistStep(a, c, y, d);
      DropLast(a, y, d);
    }
  }

  lemma {:induction false} SubstituteLipschitz(x: string, c: char, c': char, b: string)
    ensures Dist(x + [c], b) <= Dist(x + [c'], b) + 1
    decreases |b|
  {
    hide Dist;
    DistEmpty(x + [c]);
    DistEmpty(x + [c']);
    if b != "" {
      var y, d := b[..|b| - 1], b[|b| - 1];
      Unsnoc(b);
      SubstituteLipschitz(x, c, c', y);
      DistStep(x, c, y, d);
      DistStep(x, c', y, d);
    }
  }

  /** Two texts within one edit stay so when the same character is appended. */
  lemma {:induction false} SameLastLipschitz(x: string, x': string, c: char, b: string)
    requires forall y :: Dist(x, y) <= Dist(x', y) + 1
    ensures Dist(x + [c], b) <= Dist(x' + [c], b) + 1
    decreases |b|
  {
    if b == "" {
      assert Dist(x, "") <= Dist(x', "") + 1;
      hide Dist;
      DistEmpty(x);
      DistEmpty(x');
      DistEmpty(x + [c]);
      DistEmpty(x' + [c]);
    } else {
      hide Dist;
      var y, d := b[..|b| - 1], b[|b| - 1];
      Unsnoc(b);
      SameLastLipschitz(x, x', c, y);
      DistStep(x, c, y, d);
      DistStep(x', c, y, d);
    }
  }

  /** One edit, wherever it is made, brings a text at most one closer. */
  lemma {:induction false} EditLipschitz(e: Edit, s: string, b: string)
    requires Applies(e, s)
    ensures Dist(s, b) <= Dist(Apply(e, s), b) + 1
    decreases |s|
  {
    hide Dist;
    var t := Apply(e, s);
    if e.Insert? && e.at == |s| {
      assert t == s + [e.c];
      AppendLipschitz(s, e.c, b);
    } else {
      var x, c := s[..|s| - 1], s[|s| - 1];
      Unsnoc(s);
      if e.at == |s| - 1 && e.Delete? {
        assert t == x;
        AppendLipschitz(x, c, b);
      } else if e.at == |s| - 1 && e.Substitute? {
        assert t == x + [e.c];
        SubstituteLipschitz(x, c, e.c, b);
      } else {
        assert Applies(e, x) && t == Apply(e, x) + [c];
        forall y: string ensures Dist(x, y) <= Dist(Apply(e, x), y) + 1 {
          EditLipschitz(e, x, y);
        }
        SameLastLipschitz(x, Apply(e, x), c, b);
      }
    }
  }

  /** No script is shorter than the distance. */
  lemma {:induction false} NoScriptIsShorter(script: seq<Edit>, a: string, b: string)
    requires Turns(script, a, b)
    ensures Dist(a, b) <= |script|
    decreases |script|
  {
    hide Dist, Apply;
    if script == [] {
      DistSelf(a);
    } else {
      NoScriptIsShorter(script[1..], Apply(script[0], a), b);
      EditLipschitz(script[0], a, b);
    }
  }

  lemma {:induction false} DistSelf(a: string)
    ensures Dist(a, a) == 0
  {
    if a != "" {
      hide Dist;
      Unsnoc(a);
      DistSelf(a[..|a| - 1]);
      DistStep(a[..|a| - 1], a[|a| - 1], a[..|a| - 1], a[|a| - 1]);
    } else {
      DistEmpty("");
    }
  }

  lemma {:induction false} TurnsThen(p: seq<Edit>, q: seq<Edit>, a: string, b: string, c: string)
    requires Turns(p, a, b) && Turns(q, b, c)
    ensures Turns(p + q, a, c)
    decreases |p|
  {
    hide Apply;
    if p == [] {
      assert p + q == q;
    } else {
      assert (p + q)[0] == p[0] && (p + q)[1..] == p[1..] + q;
      TurnsThen(p[1..], q, Apply(p[0], a), b, c);
    }
  }

  lemma TurnsOne(e: Edit, s: string)
    requires Applies(e, s)
    ensures Turns([e], s, Apply(e, s))
  {
    assert [e][1..] == [];
  }

  /** A script works the same in front of a character it does not touch. */
  lemma ApplyBefore(e: Edit, s: string, c: char)
    requires Applies(e, s)
    ensures Applies(e, s + [c]) && Apply(e, s + [c]) == Apply(e, s) + [c]
  {
    var at := e.at;
    DropOfAppend(s, [c], at);
    SliceOfAppend(s, [c], 0, at);
    if e.Insert? {
      Assoc(s[..at] + [e.c], s[at..], [c]);
    } else {
      DropOfAppend(s, [c], at + 1);
      Assoc(s[..at] + if e.Delete? then [] else [e.c], s[at + 1..], [c]);
    }
  }

  lemma {:induction false} TurnsBefore(script: seq<Edit>, s: string, t: string, c: char)
    requires Turns(script, s, t)
    ensures Turns(script, s + [c], t + [c])
    decreases |script|
  {
    if script != [] {
      var e := script[0];
      hide Apply, Applies;
      ApplyBefore(e, s, c);
      TurnsBefore(script[1..], Apply(e, s), t, c);
    }
  }

  /** A script of exactly the distance exists. */
  lemma {:induction false} ScriptExists(a: string, b: string) returns (script: seq<Edit>)
    ensures Turns(script, a, b) && |script| == Dist(a, b)
    decreases |a| + |b|, 1
  {
    hide Dist, Turns;
    if a == "" && b == "" {
      script := [];
      DistEmpty("");
      TurnsNone("");
    } else if a == "" {
      DistEmpty(b);
      DistEmpty(b[..|b| - 1]);
      script := ByInsert(a, b);
    } else if b == "" {
      DistEmpty(a);
      DistEmpty(a[..|a| - 1]);
      script := ByDelete(a, b);
    } else {
      var x, c, y, d := a[..|a| - 1], a[|a| - 1], b[..|b| - 1], b[|b| - 1];
      Unsnoc(a);
      Unsnoc(b);
      DistStep(x, c, y, d);
      if Dist(a, b) == Dist(x, b) + 1 {
        script := ByDelete(a, b);
      } else if Dist(a, b) == Dist(a, y) + 1 {
        script := ByInsert(a, b);
      } else {
        script := ByDiagonal(x, c, y, d);
      }
    }
  }

  lemma {:induction false} ByDiagonal(x: string, c: char, y: string, d: char) returns (script: seq<Edit>)
    ensures Turns(script, x + [c], y + [d]) && |script| == Dist(x, y) + Cost(c, d)
    decreases |x| + 1 + |y| + 1, 0
  {
    hide Dist, Turns;
    script := ScriptExists(x, y);
    TurnsBefore(script, x, y, c);
    if c != d {
      var e := Substitute(|y|, d);
      assert Apply(e, y + [c]) == y + [d];
      TurnsOne(e, y + [c]);
      TurnsThen(script, [e], x + [c], y + [c], y + [d]);
      script := script + [e];
    }
  }

  lemma TurnsNone(s: string)
    ensures Turns([], s, s)
  {
  }

  lemma {:induction false} ByDelete(a: string, b: string) returns (script: seq<Edit>)
    requires a != ""
    ensures Turns(script, a, b) && |script| == Dist(a[..|a| - 1], b) + 1
    decreases |a| + |b|, 0
  {
    hide Dist, Turns;
    var x := a[..|a| - 1];
    var rest := ScriptExists(x, b);
    var e := Delete(|x|);
    assert Apply(e, a) == x;
    TurnsOne(e, a);
    TurnsThen([e], rest, a, x, b);
    script := [e] + rest;
  }

  lemma {:induction false} ByInsert(a: string, b: string) returns (script: seq<Edit>)
    requires b != ""
    ensures Turns(script, a, b) && |script| == Dist(a, b[..|b| - 1]) + 1
    decreases |a| + |b|, 0
  {
    hide Dist, Turns;
    var y := b[..|b| - 1];
    var rest := ScriptExists(a, y);
    var e := Insert(|y|, b[|b| - 1]);
    assert Apply(e, y) == b;
    TurnsOne(e, y);
    TurnsThen(rest, [e], a, y, b);
    script := rest + [e];
  }

  /** The loop's result is the length of a shortest script. */
  lemma DistIsShortest(a: string, b: string)
    ensures exists script :: Turns(script, a, b) && |script| == Dist(a, b)
    ensures forall script :: Turns(script, a, b) ==> Dist(a, b) <= |script|
  {
    hide Dist, Turns;
    var script := ScriptExists(a, b);
    forall script | Turns(script, a, b) ensures Dist(a, b) <= |script| {
      NoScriptIsShorter(script, a, b);
    }
  }

  // The closest candidate

  /** A pattern segment without its lower-case letters. */
  function ShortForm(s: string): string {
    if s == "" then "" else Kept(s[0]) + ShortForm(s[1..])
  }

  function Kept(c: char): string {
    if 'a' <= c <= 'z' then "" else [c]
  }

  function JoinShort(segments: seq<string>): string {
    if segments == [] then ""
    else if |segments| == 1 then ShortForm(segments[0])
    else ShortForm(segments[0]) + ":" + JoinShort(segments[1..])
  }

  /** How far a pattern is from what was typed, in its long or short form. */
  function Distance(input: string, pattern: string): nat {
    Min(Dist(Uppercase(input), Uppercase(pattern)), Dist(Uppercase(input), JoinShort(LineText.Split(pattern, ':'))))
  }

  function Threshold(input: string): (t: nat)
    ensures t >= 2 && (t > 2 ==> 4 * t <= |input|) && (|input| >= 12 ==> |input| < 4 * t + 4)
  {
    if |input| / 4 > 2 then |input| / 4 else 2
  }

  /** The index of the best of the first n patterns: filtered by the threshold,
      then the first of those with the least distance. */
  function ClosestOf(input: string, patterns: seq<string>, n: nat): (r: Option<nat>)
    requires n <= |patterns|
    ensures r.Some? ==> r.value < n
  {
    if n == 0 then None
    else
      var best, d := ClosestOf(input, patterns, n - 1), Distance(input, patterns[n - 1]);
      if d > Threshold(input) then best
      else if best.Some? && Distance(input, patterns[best.value]) <= d then best
      else Some(n - 1)
  }

  function Closest(input: string, patterns: seq<string>): Option<string> {
    var best := ClosestOf(input, patterns, |patterns|);
    if best.None? then None else Some(patterns[best.value])
  }

  lemma ZeroIsEqual(a: string, b: string)
    ensures Dist(a, b) == 0 <==> a == b
  {
    var script := ScriptExists(a, b);
    hide Dist;
    DistSelf(a);
  }

  /** A pattern is at distance zero exactly when it was typed, in any case, in
      its long or its short form. */
  lemma NothingToSuggest(input: string, pattern: string)
    ensures Distance(input, pattern) == 0 <==>
      Uppercase(input) == Uppercase(pattern) || Uppercase(input) == ShortForm(pattern)
  {
    hide Dist, Uppercase;
    ZeroIsEqual(Uppercase(input), Uppercase(pattern));
    ZeroIsEqual(Uppercase(input), ShortForm(pattern));
    ShortOfHeader(pattern);
  }

  /** A pattern is within n of what was typed exactly when n edits or fewer turn that
      into the pattern's long or its short form, in capitals. */
  lemma DistanceIsEdits(input: string, pattern: string, n: nat)
    ensures Distance(input, pattern) <= n <==>
      exists script: seq<Edit> :: |script| <= n &&
        (Turns(script, Uppercase(input), Uppercase(pattern)) || Turns(script, Uppercase(input), ShortForm(pattern)))
  {
    hide Dist, Uppercase, Turns, ShortForm;
    var typed := Uppercase(input);
    ShortOfHeader(pattern);
    var long := ScriptExists(typed, Uppercase(pattern));
    var short := ScriptExists(typed, ShortForm(pattern));
    forall script | Turns(script, typed, Uppercase(pattern)) ensures Dist(typed, Uppercase(pattern)) <= |script| {
      NoScriptIsShorter(script, typed, Uppercase(pattern));
    }
    forall script | Turns(script, typed, ShortForm(pattern)) ensures Dist(typed, ShortForm(pattern)) <= |script| {
      NoScriptIsShorter(script, typed, ShortForm(pattern));
    }
  }

  lemma {:induction false} BestOfFirst(input: string, patterns: seq<string>, n: nat)
    requires n <= |patterns|
    ensures match ClosestOf(input, patterns, n)
            case None => forall i :: 0 <= i < n ==> Distance(input, patterns[i]) > Threshold(input)
            case Some(k) =>
              && Distance(input, patterns[k]) <= Threshold(input)
              && (forall i :: 0 <= i < n ==> Distance(input, patterns[k]) <= Distance(input, patterns[i]))
              && (forall i :: 0 <= i < k ==> Distance(input, patterns[k]) < Distance(input, patterns[i]))
  {
    hide Distance, Threshold;
    if n > 0 { BestOfFirst(input, patterns, n - 1); }
  }

  /** The candidate at k is within the threshold, no other is nearer, and none
      before it as near. */
  predicate FirstNearest(input: string, patterns: seq<string>, k: nat)
    requires k < |patterns|
  {
    var d := Distance(input, patterns[k]);
    && d <= Threshold(input)
    && (forall i :: 0 <= i < |patterns| ==> d <= Distance(input, patterns[i]))
    && (forall i :: 0 <= i < k ==> d < Distance(input, patterns[i]))
  }

  /** A suggestion is the first nearest of the candidates within the threshold;
      there is none exactly when no candidate is within it. */
  lemma ClosestIsFirstMinimiser(input: string, patterns: seq<string>)
    ensures Closest(input, patterns) == None <==>
            forall i :: 0 <= i < |patterns| ==> Distance(input, patterns[i]) > Threshold(input)
    ensures forall p :: Closest(input, patterns) == Some(p) <==>
            exists k :: 0 <= k < |patterns| && patterns[k] == p && FirstNearest(input, patterns, k)
  {
    hide Distance, Threshold, ClosestOf;
    BestOfFirst(input, patterns, |patterns|);
    var best := ClosestOf(input, patterns, |patterns|);
    if best.Some? {
      assert FirstNearest(input, patterns, best.value);
    }
    forall k | 0 <= k < |patterns| && FirstNearest(input, patterns, k) ensures best == Some(k) {
    }
  }

  /** The short form of a header is its text without lower-case letters: cutting
      at the colons and joining again changes nothing. */
  lemma {:induction false} ShortOfHeader(pattern: string)
    ensures JoinShort(LineText.Split(pattern, ':')) == ShortForm(pattern)
    decreases |pattern|
  {
    hide ShortForm;
    var i := LineText.Index(pattern, ':');
    if i < |pattern| {
      var first, rest := pattern[..i], pattern[i + 1..];
      ShortOfHeader(rest);
      assert pattern == first + (":" + rest);
      ShortAppend(first, ":" + rest);
      ShortColon(rest);
      Assoc(ShortForm(first), ":", ShortForm(rest));
      hide LineText.Index;
      var tail := LineText.Split(rest, ':');
      assert ([first] + tail)[1..] == tail;
    }
  }

  lemma ShortColon(s: string)
    ensures ShortForm(":" + s) == ":" + ShortForm(s)
  {
    assert (":" + s)[1..] == s;
  }

  lemma {:induction false} ShortAppend(a: string, b: string)
    ensures ShortForm(a + b) == ShortForm(a) + ShortForm(b)
  {
    hide Kept;
    if a == "" {
      assert a + b == b;
    } else {
      assert (a + b)[0] == a[0] && (a + b)[1..] == a[1..] + b;
      ShortAppend(a[1..], b);
      Assoc(Kept(a[0]), ShortForm(a[1..]), ShortForm(b));
    }
  }
}
