/** `resolve_jsonpath`: a character scanner, shown to refine looking up a list of keys and indices. */
module JsonPath {
  import opened Common
  import opened JsonValue
  import Decimal

  // ---------------------------------------------------------------- structured lookup

  datatype Step = Key(name: string) | Index(index: int)

  /** `_resolve_attr` on JSON values. */
  function Attr(v: Json, name: string): Json {
    if v.Object? && name in v.fields then v.fields[name] else Null
  }

  /** List indexing, from the end for negative indices; None where the source gives up. */
  function At(v: Json, index: int): Option<Json> {
    if !v.List? then None
    else
      var i := if index < 0 then |v.items| + index else index;
      if 0 <= i < |v.items| then Some(v.items[i]) else None
  }

  function Lookup(v: Json, step: Step): Json {
    match step
    case Key(name) => Attr(v, name)
    case Index(i) => if At(v, i).Some? then At(v, i).value else Null
  }

  function LookupAll(v: Json, steps: seq<Step>): Json
    decreases |steps|
  {
    if steps == [] then v else LookupAll(Lookup(v, steps[0]), steps[1..])
  }

  // ---------------------------------------------------------------- the scanner

  datatype Scan = Scan(current: Json, token: string, indexMode: bool, buffer: string) | GaveUp

  /** Resolving the key read so far, if any. */
  function Flush(s: Scan): Json
    requires s.Scan?
  {
    if s.token != "" then Attr(s.current, s.token) else s.current
  }

  function Feed(s: Scan, c: char): Scan
    requires s.Scan?
  {
    if c == '.' && !s.indexMode then Scan(Flush(s), "", false, s.buffer)
    else if c == '[' then Scan(Flush(s), "", true, s.buffer)
    else if c == ']' then
      var i := Decimal.Read(s.buffer);
      if !s.current.List? || i.None? || At(s.current, i.value).None? then GaveUp
      else Scan(At(s.current, i.value).value, s.token, false, "")
    else if s.indexMode then s.(buffer := s.buffer + [c])
    else s.(token := s.token + [c])
  }

  function FeedAll(s: Scan, text: string): Scan
    decreases |text|
  {
    if text == "" || s.GaveUp? then s else FeedAll(Feed(s, text[0]), text[1..])
  }

  /** What the scan stands for once the text ends. */
  function Finish(s: Scan): Json {
    if s.GaveUp? || s.indexMode then Null else Flush(s)
  }

  function Resolve(path: string, context: Json): Json {
    if "$." <= path then Finish(FeedAll(Scan(context, "", false, ""), path[2..])) else Null
  }

  lemma {:induction false} FeedAllConcat(s: Scan, a: string, b: string)
    ensures FeedAll(s, a + b) == FeedAll(FeedAll(s, a), b)
    decreases |a|
  {
    if a == "" {
      assert a + b == b;
    } else if s.Scan? {
      assert (a + b)[0] == a[0] && (a + b)[1..] == a[1..] + b;
      FeedAllConcat(Feed(s, a[0]), a[1..], b);
    }
  }

  /** `resolve_jsonpath` as written. */
  method ResolveJsonpath(path: string, context: Json) returns (value: Json)
    ensures value == Resolve(path, context)
  {
    hide Decimal.Read;
    hide At;
    if !("$." <= path) { return Null; }
    var expression := path[2..];
    var current, token, indexMode, buffer := context, "", false, "";
    var n := 0;
    assert expression[0..] == expression;
    while n < |expression|
      invariant n <= |expression|
      invariant Resolve(path, context) == Finish(FeedAll(Scan(current, token, indexMode, buffer), expression[n..]))
    {
      var c := expression[n];
      assert expression[n..][0] == c && expression[n..][1..] == expression[n + 1..];
      n := n + 1;
      if c == '.' && !indexMode {
        if token != "" { current := Attr(current, token); token := ""; }
      } else if c == '[' {
        indexMode := true;
        if token != "" { current := Attr(current, token); token := ""; }
      } else if c == ']' {
        indexMode := false;
        if !current.List? { return Null; }
        var index := Decimal.Read(buffer);
        if index.None? { return Null; }
        var item := At(current, index.value);
        if item.None? { return Null; }
        current, buffer := item.value, "";
      } else if indexMode {
        buffer := buffer + [c];
      } else {
        token := token + [c];
      }
    }
    if indexMode { return Null; }
    if token != "" { current := Attr(current, token); }
    value := current;
  }

  // ---------------------------------------------------------------- printed paths

  /** A key the scanner reads as one token. */
  predicate PlainKey(name: string) {
    name != "" && forall c :: c in name ==> c != '.' && c != '[' && c != ']'
  }

  predicate Printable(steps: seq<Step>) {
    forall s :: s in steps ==> s.Key? ==> PlainKey(s.name)
  }

  function PrintStep(step: Step): string {
    match step
    case Key(name) => "." + name
    case Index(i) => "[" + Decimal.PrintInt(i) + "]"
  }

  function PrintSteps(steps: seq<Step>): string {
    if steps == [] then "" else PrintStep(steps[0]) + PrintSteps(steps[1..])
  }

  /** "$." and the steps, the first key without its dot. */
  function PrintPath(steps: seq<Step>): string {
    "$." + if steps != [] && steps[0].Key? then PrintSteps(steps)[1..] else PrintSteps(steps)
  }

  lemma {:induction false} FeedKey(s: Scan, name: string)
    requires s.Scan? && !s.indexMode && forall c :: c in name ==> c != '.' && c != '[' && c != ']'
    ensures FeedAll(s, name) == s.(token := s.token + name)
    decreases |name|
  {
    if name == "" {
      assert s.token + name == s.token;
    } else {
      assert name[0] in name && forall c :: c in name[1..] ==> c in name;
      FeedKey(Feed(s, name[0]), name[1..]);
      assert (s.token + [name[0]]) + name[1..] == s.token + name;
    }
  }

  lemma {:induction false} FeedBuffer(s: Scan, text: string)
    requires s.Scan? && s.indexMode && forall c :: c in text ==> c != '[' && c != ']'
    ensures FeedAll(s, text) == s.(buffer := s.buffer + text)
    decreases |text|
  {
    if text == "" {
      assert s.buffer + text == s.buffer;
    } else {
      assert text[0] in text && forall c :: c in text[1..] ==> c in text;
      FeedBuffer(Feed(s, text[0]), text[1..]);
      assert (s.buffer + [text[0]]) + text[1..] == s.buffer + text;
    }
  }

  /** The state stands for the value the step looks up. */
  predicate StandsFor(t: Scan, value: Json) {
    if t.GaveUp? then value == Null else !t.indexMode && t.buffer == "" && Flush(t) == value
  }

  lemma FeedKeyStep(s: Scan, name: string)
    requires s.Scan? && !s.indexMode && s.buffer == "" && PlainKey(name)
    ensures StandsFor(FeedAll(s, PrintStep(Key(name))), Lookup(Flush(s), Key(name)))
  {
    var s1 := Feed(s, '.');
    var text := PrintStep(Key(name));
    assert text[0] == '.' && text[1..] == name;
    FeedKey(s1, name);
    assert "" + name == name;
  }

  lemma FeedIndexStep(s: Scan, i: int)
    requires s.Scan? && !s.indexMode && s.buffer == ""
    ensures StandsFor(FeedAll(s, PrintStep(Index(i))), Lookup(Flush(s), Index(i)))
  {
    var digits := Decimal.PrintInt(i);
    var text := PrintStep(Index(i));
    assert text[0] == '[' && text[1..] == digits + "]";
    var s1 := Feed(s, '[');
    NoBracketsInNumbers(i);
    FeedBuffer(s1, digits);
    FeedAllConcat(s1, digits, "]");
    assert "" + digits == digits;
    ClosesIndex(s1.(buffer := digits), i);
  }

  /** The closing bracket reads the number. */
  lemma ClosesIndex(s: Scan, i: int)
    requires s.Scan? && s.indexMode && s.buffer == Decimal.PrintInt(i) && s.token == ""
    ensures StandsFor(FeedAll(s, "]"), Lookup(s.current, Index(i)))
  {
    hide Decimal.PrintInt;
    Decimal.ReadOfPrint(i);
    assert "]"[1..] == "" && FeedAll(s, "]") == FeedAll(Feed(s, ']'), "");
  }

  /** Scanning one printed step from a clean state: the state then stands for the looked-up value. */
  lemma FeedStep(s: Scan, step: Step)
    requires s.Scan? && !s.indexMode && s.buffer == "" && (step.Key? ==> PlainKey(step.name))
    ensures StandsFor(FeedAll(s, PrintStep(step)), Lookup(Flush(s), step))
  {
    match step
    case Key(name) => FeedKeyStep(s, name);
    case Index(i) => FeedIndexStep(s, i);
  }

  lemma NoBracketsInNumbers(i: int)
    ensures forall c :: c in Decimal.PrintInt(i) ==> c != '[' && c != ']'
  {
  }

  lemma {:induction false} NullStaysNull(steps: seq<Step>)
    ensures LookupAll(Null, steps) == Null
  {
    if steps != [] { NullStaysNull(steps[1..]); }
  }

  lemma {:induction false} FeedSteps(s: Scan, steps: seq<Step>)
    requires s.Scan? && !s.indexMode && s.buffer == "" && Printable(steps)
    ensures Finish(FeedAll(s, PrintSteps(steps))) == LookupAll(Flush(s), steps)
    decreases |steps|
  {
    hide Lookup;
    hide PrintStep;
    hide Flush;
    if steps != [] {
      assert steps[0] in steps;
      var t := FeedAll(s, PrintStep(steps[0]));
      FeedStep(s, steps[0]);
      FeedAllConcat(s, PrintStep(steps[0]), PrintSteps(steps[1..]));
      if t.GaveUp? {
        NullStaysNull(steps[1..]);
      } else {
        FeedSteps(t, steps[1..]);
      }
    }
  }

  /** The scanner refines structured lookup: resolving a printed path is folding the lookups, over any JSON value,
      for plain keys and any integer indices. */
  lemma ScannerRefinesLookup(steps: seq<Step>, context: Json)
    requires Printable(steps)
    ensures Resolve(PrintPath(steps), context) == LookupAll(context, steps)
  {
    var start := Scan(context, "", false, "");
    FeedSteps(start, steps);
    assert PrintPath(steps)[2..] == if steps != [] && steps[0].Key? then PrintSteps(steps)[1..] else PrintSteps(steps);
    if steps != [] && steps[0].Key? {
      var text := PrintSteps(steps);
      assert text[0] == '.' && Feed(start, '.') == start;
    }
  }

  lemma {:induction false} StaysInIndexMode(s: Scan, text: string)
    requires s.Scan? && s.indexMode && ']' !in text
    ensures FeedAll(s, text).Scan? && FeedAll(s, text).indexMode
    decreases |text|
  {
    if text != "" {
      assert text[0] in text;
      StaysInIndexMode(Feed(s, text[0]), text[1..]);
    }
  }

  /** A bracket that is never closed makes the whole path null, whatever precedes it and whatever follows. */
  lemma UnterminatedIndexIsNull(before: string, rest: string, context: Json)
    requires ']' !in rest
    ensures Resolve("$." + before + "[" + rest, context) == Null
  {
    var start := Scan(context, "", false, "");
    var text := before + ("[" + rest);
    assert ("$." + before + "[" + rest)[2..] == text;
    FeedAllConcat(start, before, "[" + rest);
    var s := FeedAll(start, before);
    if s.Scan? {
      assert ("[" + rest)[0] == '[' && ("[" + rest)[1..] == rest;
      StaysInIndexMode(Feed(s, '['), rest);
    }
  }
}
