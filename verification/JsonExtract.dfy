/** `extract_json`: the search for a fenced block, and the bracket scanner that on JSON text (RFC 8259) stops exactly
    at the closing bracket. */
module JsonExtract {
  import opened Common

  // ---------------------------------------------------------------- JSON text, section 2 and 7 of RFC 8259

  /** One character of a string, as section 7 allows it to be written. */
  datatype Unit = Plain(c: char) | Escaped(c: char) | Unicode(h0: char, h1: char, h2: char, h3: char)

  predicate IsHex(c: char) {
    '0' <= c <= '9' || 'a' <= c <= 'f' || 'A' <= c <= 'F'
  }

  predicate UnitOk(u: Unit) {
    match u
    case Plain(c) => c >= ' ' && c != '"' && c != '\\'
    case Escaped(c) => c in "\"\\/bfnrt"
    case Unicode(a, b, c, d) => IsHex(a) && IsHex(b) && IsHex(c) && IsHex(d)
  }

  function UnitText(u: Unit): string {
    match u
    case Plain(c) => [c]
    case Escaped(c) => ['\\', c]
    case Unicode(a, b, c, d) => ['\\', 'u', a, b, c, d]
  }

  function UnitsText(us: seq<Unit>): string {
    if us == [] then "" else UnitText(us[0]) + UnitsText(us[1..])
  }

  /** A value and how it is written; numbers and literal names are atoms. */
  datatype Value =
    | Str(units: seq<Unit>)
    | Atom(text: string)
    | Arr(empty: string, items: seq<Item>)
    | Obj(empty: string, members: seq<Member>)

  /** Whitespace may surround every value. */
  datatype Item = Item(before: string, value: Value, after: string)

  datatype Member = Member(before: string, key: seq<Unit>, afterKey: string, item: Item)

  predicate IsSpace(s: string) {
    forall c :: c in s ==> c == ' ' || c == '\t' || c == '\n' || c == '\r'
  }

  /** Numbers, `true`, `false` and `null` are written with these characters only. */
  predicate IsAtom(s: string) {
    forall c :: c in s ==> '0' <= c <= '9' || 'a' <= c <= 'z' || c == 'E' || c == '+' || c == '-' || c == '.'
  }

  predicate UnitsOk(us: seq<Unit>) {
    forall u :: u in us ==> UnitOk(u)
  }

  predicate ValueOk(v: Value) {
    match v
    case Str(units) => UnitsOk(units)
    case Atom(text) => IsAtom(text)
    case Arr(empty, items) => IsSpace(empty) && forall i :: i in items ==> ItemOk(i)
    case Obj(empty, members) => IsSpace(empty) && forall m :: m in members ==> MemberOk(m)
  }

  predicate ItemOk(i: Item) {
    IsSpace(i.before) && IsSpace(i.after) && ValueOk(i.value)
  }

  predicate MemberOk(m: Member) {
    IsSpace(m.before) && UnitsOk(m.key) && IsSpace(m.afterKey) && ItemOk(m.item)
  }

  function Quoted(us: seq<Unit>): string {
    "\"" + UnitsText(us) + "\""
  }

  function Text(v: Value): string {
    match v
    case Str(units) => Quoted(units)
    case Atom(text) => text
    case Arr(empty, items) => "[" + (if items == [] then empty else ItemsText(items)) + "]"
    case Obj(empty, members) => "{" + (if members == [] then empty else MembersText(members)) + "}"
  }

  function ItemText(i: Item): string {
    i.before + Text(i.value) + i.after
  }

  function ItemsText(items: seq<Item>): string {
    if items == [] then ""
    else ItemText(items[0]) + (if |items| == 1 then "" else "," + ItemsText(items[1..]))
  }

  function MemberText(m: Member): string {
    m.before + Quoted(m.key) + m.afterKey + ":" + ItemText(m.item)
  }

  function MembersText(members: seq<Member>): string {
    if members == [] then ""
    else MemberText(members[0]) + (if |members| == 1 then "" else "," + MembersText(members[1..]))
  }

  // ---------------------------------------------------------------- the scanner

  datatype Scan = Scan(depth: int, inStr: bool, esc: bool)

  predicate IsOpen(c: char) {
    c == '{' || c == '['
  }

  predicate IsClose(c: char) {
    c == '}' || c == ']'
  }

  function Feed(s: Scan, c: char): Scan {
    if s.inStr then
      if s.esc then s.(esc := false)
      else if c == '\\' then s.(esc := true)
      else if c == '"' then s.(inStr := false)
      else s
    else if c == '"' then s.(inStr := true)
    else if IsOpen(c) then s.(depth := s.depth + 1)
    else if IsClose(c) then s.(depth := s.depth - 1)
    else s
  }

  /** The scan stops on a closing bracket outside strings that brings the depth to zero. */
  predicate Stops(s: Scan, c: char) {
    !s.inStr && IsClose(c) && s.depth == 1
  }

  /** Where the scan stops, as an offset, if it does. */
  function StopAt(s: Scan, text: string): Option<nat>
    decreases |text|
  {
    if text == "" then None
    else if Stops(s, text[0]) then Some(0)
    else
      var rest := StopAt(Feed(s, text[0]), text[1..]);
      if rest.None? then None else Some(rest.value + 1)
  }

  /** The state after a text the scan does not stop in. */
  function Through(s: Scan, text: string): Option<Scan>
    decreases |text|
  {
    if text == "" then Some(s)
    else if Stops(s, text[0]) then None
    else Through(Feed(s, text[0]), text[1..])
  }

  const FRESH := Scan(0, false, false)

  /** The first bracket, -1 when there is none. */
  function FirstBracket(text: string): (start: int)
    ensures -1 <= start < |text|
    ensures start >= 0 ==> IsOpen(text[start])
  {
    if text == "" then -1
    else if IsOpen(text[0]) then 0
    else
      var rest := FirstBracket(text[1..]);
      if rest == -1 then -1 else rest + 1
  }

  // ---------------------------------------------------------------- fenced blocks

  const FENCE := "```"

  predicate FenceAt(text: string, i: int) {
    0 <= i && i + 3 <= |text| && text[i..i + 3] == FENCE
  }

  /** The first fence at or after `from`. */
  function NextFence(text: string, from: nat): (next: Option<nat>)
    ensures next.Some? ==> from <= next.value && FenceAt(text, next.value)
    ensures forall j :: from <= j && (next.Some? ==> j < next.value) ==> !FenceAt(text, j)
    decreases |text| - from
  {
    if from + 3 > |text| then None
    else if FenceAt(text, from) then Some(from)
    else NextFence(text, from + 1)
  }

  function AfterBlanks(text: string, from: nat): (end: nat)
    requires from <= |text|
    ensures from <= end <= |text|
    decreases |text| - from
  {
    if from == |text| || !IsBlank(text[from]) then from else AfterBlanks(text, from + 1)
  }

  /** `(.+?)` up to the next fence, from the last start for which there is one. */
  function Block(text: string, lo: nat, start: nat): Option<string>
    requires lo <= start <= |text|
    decreases start
  {
    var end := NextFence(text, start + 1);
    if end.Some? then Some(text[start..end.value])
    else if start == lo then None
    else Block(text, lo, start - 1)
  }

  /** The pattern matched at the fence at `i`: `json` and blanks are skipped as far as a match allows. */
  function BlockAt(text: string, i: nat): Option<string>
    requires FenceAt(text, i)
  {
    var a := i + 3;
    var tagged := if a + 4 <= |text| && text[a..a + 4] == "json" then Block(text, a + 4, AfterBlanks(text, a + 4))
        else None;
    if tagged.Some? then tagged else Block(text, a, AfterBlanks(text, a))
  }

  /** The content of the leftmost fenced block from `from` on. */
  function Fenced(text: string, from: nat): Option<string>
    requires from <= |text|
    decreases |text| - from
  {
    var i := NextFence(text, from);
    if i.None? then None
    else if BlockAt(text, i.value).Some? then BlockAt(text, i.value)
    else Fenced(text, i.value + 1)
  }

  function Candidate(text: string): string {
    var block := Fenced(text, 0);
    if block.Some? then block.value else text
  }

  // ---------------------------------------------------------------- extraction

  /** What `extract_json` hands to the JSON parser, as a span of the candidate text. */
  datatype Span = Empty | NoJson | Closed(start: nat, end: nat) | CutOff(start: nat)

  function SpanOf(candidate: string): Span {
    var start := FirstBracket(candidate);
    if start == -1 then NoJson
    else
      var stop := StopAt(FRESH, candidate[start..]);
      if stop.Some? then Closed(start, start + stop.value + 1) else CutOff(start)
  }

  function Extract(whole: string): Span {
    if whole == "" then Empty else SpanOf(Candidate(whole))
  }

  /** `extract_json` up to the JSON parser. */
  method ExtractJson(whole: string) returns (text: string, span: Span)
    ensures span == Extract(whole) && text == Candidate(whole)
  {
    text := Candidate(whole);
    if whole == "" { return text, Empty; }
    var start := FirstBracket(text);
    if start == -1 { return text, NoJson; }
    var depth, inStr, esc := 0, false, false;
    ghost var stop := StopAt(FRESH, text[start..]);
    for i := start to |text|
      invariant stop == var rest := StopAt(Scan(depth, inStr, esc), text[i..]);
                        if rest.None? then None else Some(rest.value + (i - start))
    {
      var c := text[i];
      assert text[i..][0] == c && text[i..][1..] == text[i + 1..];
      if inStr {
        if esc { esc := false; }
        else if c == '\\' { esc := true; }
        else if c == '"' { inStr := false; }
      } else if c == '"' {
        inStr := true;
      } else if IsOpen(c) {
        depth := depth + 1;
      } else if IsClose(c) {
        depth := depth - 1;
        if depth == 0 { return text, Closed(start, i + 1); }
      }
    }
    assert text[|text|..] == "";
    span := CutOff(start);
  }

  // ---------------------------------------------------------------- the scanner finds the document

  lemma {:induction false} ThroughConcat(s: Scan, a: string, b: string)
    ensures Through(s, a + b) == if Through(s, a).Some? then Through(Through(s, a).value, b) else None
    decreases |a|
  {
    if a == "" {
      assert a + b == b;
    } else {
      assert (a + b)[0] == a[0] && (a + b)[1..] == a[1..] + b;
      if !Stops(s, a[0]) { ThroughConcat(Feed(s, a[0]), a[1..], b); }
    }
  }

  lemma {:induction false} StopAfter(s: Scan, a: string, b: string)
    requires Through(s, a).Some?
    ensures StopAt(s, a + b) == var rest := StopAt(Through(s, a).value, b);
                                if rest.None? then None else Some(|a| + rest.value)
    decreases |a|
  {
    if a == "" {
      assert a + b == b;
    } else {
      assert (a + b)[0] == a[0] && (a + b)[1..] == a[1..] + b;
      StopAfter(Feed(s, a[0]), a[1..], b);
    }
  }

  /** Text that means nothing to the scanner. */
  predicate Inert(text: string) {
    forall c :: c in text ==> c != '"' && !IsOpen(c) && !IsClose(c)
  }

  /** `text`, met at a depth of at least one outside strings, leaves the scanner as it was and does not stop it. */
  predicate Balanced(text: string, depth: int) {
    Through(Scan(depth, false, false), text) == Some(Scan(depth, false, false))
  }

  lemma {:induction false} InertIsBalanced(text: string, depth: int)
    requires Inert(text)
    ensures Balanced(text, depth)
  {
    if text != "" {
      assert text[0] in text && forall c :: c in text[1..] ==> c in text;
      InertIsBalanced(text[1..], depth);
    }
  }

  lemma BalancedConcat(a: string, b: string, depth: int)
    requires Balanced(a, depth) && Balanced(b, depth)
    ensures Balanced(a + b, depth)
  {
    ThroughConcat(Scan(depth, false, false), a, b);
  }

  lemma {:induction false} UnitsStayInside(us: seq<Unit>, depth: int)
    requires UnitsOk(us)
    ensures Through(Scan(depth, true, false), UnitsText(us)) == Some(Scan(depth, true, false))
  {
    if us != [] {
      assert us[0] in us;
      var s := Scan(depth, true, false);
      UnitStaysInside(us[0], depth);
      ThroughConcat(s, UnitText(us[0]), UnitsText(us[1..]));
      UnitsStayInside(us[1..], depth);
    }
  }

  lemma UnitStaysInside(u: Unit, depth: int)
    requires UnitOk(u)
    ensures Through(Scan(depth, true, false), UnitText(u)) == Some(Scan(depth, true, false))
  {
    var s, t := Scan(depth, true, false), UnitText(u);
    match u
    case Plain(c) =>
      assert t[1..] == "" && Through(s, t) == Through(Feed(s, c), "");
    case Escaped(c) =>
      assert t[1..] == [c] && t[1..][1..] == "";
      assert Through(Feed(Feed(s, '\\'), c), "") == Some(s);
    case Unicode(a, b, c, d) =>
      var tail := [a, b, c, d];
      assert t == ['\\', 'u'] + tail;
      assert ['\\', 'u'][1..] == ['u'] && ['u'][1..] == "" && Through(s, "") == Some(s);
      assert Through(s, ['\\', 'u']) == Some(s);
      ThroughConcat(s, ['\\', 'u'], tail);
      OrdinaryInside(tail, depth);
  }

  lemma {:induction false} OrdinaryInside(text: string, depth: int)
    requires forall c :: c in text ==> c != '"' && c != '\\'
    ensures Through(Scan(depth, true, false), text) == Some(Scan(depth, true, false))
  {
    if text != "" {
      assert text[0] in text && forall c :: c in text[1..] ==> c in text;
      OrdinaryInside(text[1..], depth);
    }
  }

  /** Brackets and quotes inside a string do not count, however they are escaped. */
  lemma QuotedIsBalanced(us: seq<Unit>, depth: int)
    requires UnitsOk(us)
    ensures Balanced(Quoted(us), depth)
  {
    var s, inside := Scan(depth, false, false), Scan(depth, true, false);
    var body := UnitsText(us);
    UnitsStayInside(us, depth);
    ThroughConcat(s, "\"", body + "\"");
    ThroughConcat(inside, body, "\"");
    assert "\""[1..] == "" && Through(s, "\"") == Through(Feed(s, '"'), "")
        && Through(inside, "\"") == Through(Feed(inside, '"'), "");
    assert Quoted(us) == "\"" + (body + "\"");
  }

  lemma Bracketed(open: char, body: string, close: char, depth: int)
    requires depth >= 1 && IsOpen(open) && IsClose(close) && Balanced(body, depth + 1)
    ensures Balanced([open] + body + [close], depth)
  {
    var s, inner := Scan(depth, false, false), Scan(depth + 1, false, false);
    assert [open][1..] == "" && Through(s, [open]) == Through(Feed(s, open), "");
    assert [close][1..] == "" && Through(inner, [close]) == Through(Feed(inner, close), "");
    ThroughConcat(s, [open], body);
    ThroughConcat(s, [open] + body, [close]);
  }

  lemma {:induction false} ValueIsBalanced(v: Value, depth: int)
    requires ValueOk(v) && depth >= 1
    ensures Balanced(Text(v), depth)
    decreases v, 1
  {
    match v
    case Str(units) => QuotedIsBalanced(units, depth);
    case Atom(text) => InertIsBalanced(text, depth);
    case Arr(empty, items) =>
      ArrBodyIsBalanced(v, depth + 1);
      Bracketed('[', if items == [] then empty else ItemsText(items), ']', depth);
    case Obj(empty, members) =>
      ObjBodyIsBalanced(v, depth + 1);
      Bracketed('{', if members == [] then empty else MembersText(members), '}', depth);
  }

  lemma {:induction false} ArrBodyIsBalanced(v: Value, depth: int)
    requires v.Arr? && ValueOk(v) && depth >= 1
    ensures Balanced(if v.items == [] then v.empty else ItemsText(v.items), depth)
    decreases v, 0
  {
    if v.items == [] { InertIsBalanced(v.empty, depth); } else { ItemsAreBalanced(v.items, depth); }
  }

  lemma {:induction false} ObjBodyIsBalanced(v: Value, depth: int)
    requires v.Obj? && ValueOk(v) && depth >= 1
    ensures Balanced(if v.members == [] then v.empty else MembersText(v.members), depth)
    decreases v, 0
  {
    if v.members == [] { InertIsBalanced(v.empty, depth); } else { MembersAreBalanced(v.members, depth); }
  }

  lemma {:induction false} ItemIsBalanced(i: Item, depth: int)
    requires ItemOk(i) && depth >= 1
    ensures Balanced(ItemText(i), depth)
    decreases i
  {
    InertIsBalanced(i.before, depth);
    InertIsBalanced(i.after, depth);
    ValueIsBalanced(i.value, depth);
    BalancedConcat(i.before, Text(i.value), depth);
    BalancedConcat(i.before + Text(i.value), i.after, depth);
  }

  lemma {:induction false} ItemsAreBalanced(items: seq<Item>, depth: int)
    requires (forall i :: i in items ==> ItemOk(i)) && depth >= 1
    ensures Balanced(ItemsText(items), depth)
    decreases items
  {
    if items != [] {
      assert items[0] in items;
      ItemIsBalanced(items[0], depth);
      if |items| > 1 {
        ItemsAreBalanced(items[1..], depth);
        InertIsBalanced(",", depth);
        BalancedConcat(",", ItemsText(items[1..]), depth);
        BalancedConcat(ItemText(items[0]), "," + ItemsText(items[1..]), depth);
      } else {
        assert ItemText(items[0]) + "" == ItemText(items[0]);
      }
    }
  }

  lemma {:induction false} MembersAreBalanced(members: seq<Member>, depth: int)
    requires (forall m :: m in members ==> MemberOk(m)) && depth >= 1
    ensures Balanced(MembersText(members), depth)
    decreases members
  {
    if members != [] {
      var m := members[0];
      assert m in members;
      MemberIsBalanced(m, depth);
      if |members| > 1 {
        MembersAreBalanced(members[1..], depth);
        InertIsBalanced(",", depth);
        BalancedConcat(",", MembersText(members[1..]), depth);
        BalancedConcat(MemberText(m), "," + MembersText(members[1..]), depth);
      } else {
        assert MemberText(m) + "" == MemberText(m);
      }
    }
  }

  lemma {:induction false} MemberIsBalanced(m: Member, depth: int)
    requires MemberOk(m) && depth >= 1
    ensures Balanced(MemberText(m), depth)
    decreases m
  {
    InertIsBalanced(m.before, depth);
    InertIsBalanced(m.afterKey, depth);
    InertIsBalanced(":", depth);
    QuotedIsBalanced(m.key, depth);
    ItemIsBalanced(m.item, depth);
    BalancedConcat(m.before, Quoted(m.key), depth);
    BalancedConcat(m.before + Quoted(m.key), m.afterKey, depth);
    BalancedConcat(m.before + Quoted(m.key) + m.afterKey, ":", depth);
    BalancedConcat(m.before + Quoted(m.key) + m.afterKey + ":", ItemText(m.item), depth);
  }

  lemma {:induction false} FirstBracketAfter(prefix: string, text: string)
    requires (forall c :: c in prefix ==> !IsOpen(c)) && text != "" && IsOpen(text[0])
    ensures FirstBracket(prefix + text) == |prefix|
  {
    if prefix == "" {
      assert prefix + text == text;
    } else {
      assert prefix[0] in prefix && (prefix + text)[0] == prefix[0] && (prefix + text)[1..] == prefix[1..] + text;
      FirstBracketAfter(prefix[1..], text);
    }
  }

  /** From the opening bracket the scan stops on the closing one. */
  lemma StopsAtTheEnd(open: char, body: string, close: char, rest: string)
    requires IsOpen(open) && IsClose(close) && Balanced(body, 1)
    ensures StopAt(FRESH, [open] + body + [close] + rest) == Some(1 + |body|)
  {
    assert [open][1..] == "" && Through(FRESH, [open]) == Through(Feed(FRESH, open), "") == Some(Scan(1, false, false));
    ThroughConcat(FRESH, [open], body);
    StopAfter(FRESH, [open] + body, [close] + rest);
    assert ([open] + body) + ([close] + rest) == [open] + body + [close] + rest;
    assert StopAt(Scan(1, false, false), [close] + rest) == Some(0);
  }

  /** The text of an array or object, from bracket to bracket. */
  lemma DocumentShape(v: Value) returns (open: char, body: string, close: char)
    requires ValueOk(v) && (v.Arr? || v.Obj?)
    ensures IsOpen(open) && IsClose(close) && Balanced(body, 1) && Text(v) == [open] + body + [close]
  {
    open, close := if v.Arr? then '[' else '{', if v.Arr? then ']' else '}';
    body := if v.Arr? then if v.items == [] then v.empty else ItemsText(v.items)
            else if v.members == [] then v.empty else MembersText(v.members);
    if v.Arr? { ArrBodyIsBalanced(v, 1); } else { ObjBodyIsBalanced(v, 1); }
  }

  /** In a candidate text the span found is exactly the document, for any JSON object or array after any text without
      opening brackets and before any text at all. */
  lemma SpanIsTheDocument(prefix: string, v: Value, rest: string)
    requires ValueOk(v) && (v.Arr? || v.Obj?) && forall c :: c in prefix ==> !IsOpen(c)
    ensures SpanOf(prefix + Text(v) + rest) == Closed(|prefix|, |prefix| + |Text(v)|)
  {
    hide StopAt;
    var open, body, close := DocumentShape(v);
    StopsAtTheEnd(open, body, close, rest);
    var tail := Text(v) + rest;
    FirstBracketAfter(prefix, tail);
    assert prefix + Text(v) + rest == prefix + tail && (prefix + tail)[|prefix|..] == tail;
  }

  /** A response without a fenced block: the document is found after any text without opening brackets. */
  lemma FindsTheDocument(prefix: string, v: Value, rest: string)
    requires ValueOk(v) && (v.Arr? || v.Obj?) && forall c :: c in prefix ==> !IsOpen(c)
    requires Fenced(prefix + Text(v) + rest, 0).None?
    ensures Extract(prefix + Text(v) + rest) == Closed(|prefix|, |prefix| + |Text(v)|)
  {
    SpanIsTheDocument(prefix, v, rest);
    assert |Text(v)| >= 2;
  }

  /** Moving a text behind another moves its fences. */
  lemma FenceShift(a: string, b: string, j: nat)
    ensures FenceAt(a + b, |a| + j) == FenceAt(b, j)
  {
    if j + 3 <= |b| { assert (a + b)[|a| + j..|a| + j + 3] == b[j..j + 3]; }
  }

  lemma {:induction false} NextFenceShift(a: string, b: string, from: nat)
    ensures NextFence(a + b, |a| + from) == if NextFence(b, from).Some? then Some(|a| + NextFence(b, from).value)
            else None
    decreases |b| - from
  {
    FenceShift(a, b, from);
    if from + 3 <= |b| && !FenceAt(b, from) { NextFenceShift(a, b, from + 1); }
  }

  lemma {:induction false} AfterBlanksShift(a: string, b: string, from: nat)
    requires from <= |b|
    ensures AfterBlanks(a + b, |a| + from) == |a| + AfterBlanks(b, from)
    decreases |b| - from
  {
    if from < |b| { AfterBlanksShift(a, b, from + 1); }
  }

  lemma {:induction false} AfterBlanksIs(blanks: string, tail: string)
    requires (forall c :: c in blanks ==> IsBlank(c)) && tail != "" && !IsBlank(tail[0])
    ensures AfterBlanks(blanks + tail, 0) == |blanks|
  {
    if blanks == "" {
      assert blanks + tail == tail;
    } else {
      assert blanks[0] in blanks && blanks + tail == [blanks[0]] + (blanks[1..] + tail);
      AfterBlanksIs(blanks[1..], tail);
      AfterBlanksShift([blanks[0]], blanks[1..] + tail, 0);
    }
  }

  lemma NextFenceIs(text: string, from: nat, i: nat)
    requires from <= i && FenceAt(text, i) && forall j :: from <= j < i ==> !FenceAt(text, j)
    ensures NextFence(text, from) == Some(i)
  {
  }

  /** `block` comes before the first fence of `block` + fence. */
  ghost predicate EndsAtFence(block: string) {
    NextFence(block + FENCE, 0) == Some(|block|)
  }

  lemma FirstFenceIs(block: string, rest: string, from: nat)
    requires EndsAtFence(block) && from <= |block|
    ensures NextFence(block + (FENCE + rest), from) == Some(|block|)
  {
    var text := block + (FENCE + rest);
    forall j: int | 0 <= j <= |block| ensures FenceAt(text, j) == FenceAt(block + FENCE, j) {
      assert text[j..j + 3] == (block + FENCE)[j..j + 3];
    }
    NextFenceIs(text, from, |block|);
  }

  /** A response with a fenced block, after an optional `json` and blanks. */
  function Response(before: string, tag: string, blanks: string, block: string, rest: string): string {
    before + (FENCE + (tag + (blanks + (block + (FENCE + rest)))))
  }

  /** The match at the first fence, by positions. */
  lemma FencedAt(text: string, i: nat, tagged: bool, start: nat, end: nat)
    requires NextFence(text, 0) == Some(i) && i + 3 <= |text|
    requires tagged <==> i + 7 <= |text| && text[i + 3..i + 7] == "json"
    requires AfterBlanks(text, if tagged then i + 7 else i + 3) == start && NextFence(text, start + 1) == Some(end)
    requires start <= end
    ensures Fenced(text, 0) == Some(text[start..end])
  {
  }

  lemma TaggedIff(tag: string, blanks: string, block: string, rest: string)
    requires (tag == "" || tag == "json") && (forall c :: c in blanks ==> IsBlank(c)) && block != "" && IsOpen(block[0])
    ensures var tail := tag + (blanks + (block + (FENCE + rest)));
            tag == "json" <==> 4 <= |tail| && tail[..4] == "json"
  {
    var tail := tag + (blanks + (block + (FENCE + rest)));
    if tag == "" {
      assert tail[0] == if blanks == "" then block[0] else blanks[0];
      if blanks != "" { assert blanks[0] in blanks; }
      assert tail[0] != 'j';
      if 4 <= |tail| { assert tail[..4][0] == tail[0]; }
    }
  }

  lemma Regroups(a: string, b: string, c: string, d: string, e: string)
    ensures a + (b + (c + (d + e))) == (a + b + c) + (d + e) == (a + b + c + d) + e
  {
  }

  lemma SliceAfter(a: string, b: string, c: string, n: nat)
    requires n <= |c|
    ensures (a + (b + c))[|a| + |b|..|a| + |b| + n] == c[..n]
  {
  }

  /** A block between two fences, after an optional `json` and blanks, is what the search returns. */
  lemma FencedIs(before: string, tag: string, blanks: string, block: string, rest: string)
    requires EndsAtFence(before) && EndsAtFence(block) && (tag == "" || tag == "json")
    requires (forall c :: c in blanks ==> IsBlank(c)) && block != "" && IsOpen(block[0])
    ensures Fenced(Response(before, tag, blanks, block, rest), 0) == Some(block)
  {
    hide EndsAtFence;
    hide Fenced;
    hide NextFence;
    hide AfterBlanks;
    hide IsBlank;
    var text := Response(before, tag, blanks, block, rest);
    var inner := block + (FENCE + rest);
    var tail := tag + (blanks + inner);
    Regroups(before, FENCE, tag, blanks, inner);
    FirstFenceIs(before, tail, 0);
    TaggedIff(tag, blanks, block, rest);
    if 4 <= |tail| { SliceAfter(before, FENCE, tail, 4); }
    NotBlank(inner[0]);
    AfterBlanksIs(blanks, inner);
    AfterBlanksShift(before + FENCE + tag, blanks + inner, 0);
    var b := before + FENCE + tag + blanks;
    FirstFenceIs(block, rest, 1);
    NextFenceShift(b, inner, 1);
    FencedAt(text, |before|, tag == "json", |b|, |b| + |block|);
    BlockSlice(b, block, FENCE + rest);
  }

  lemma NotBlank(c: char)
    requires IsOpen(c)
    ensures !IsBlank(c)
  {
  }

  lemma BlockSlice(a: string, b: string, c: string)
    ensures (a + (b + c))[|a|..|a| + |b|] == b
  {
  }

  // ---------------------------------------------------------------- exactly when a fenced document is found

  predicate HasFence(text: string) {
    exists j :: 0 <= j < |text| && FenceAt(text, j)
  }

  lemma FenceChars(text: string, i: int, k: int)
    requires FenceAt(text, i) && i <= k < i + 3
    ensures text[k] == '`'
  {
    assert text[i..i + 3][k - i] == text[k];
  }

  lemma FenceInPrefix(a: string, b: string, j: int)
    requires 0 <= j && j + 3 <= |a|
    ensures FenceAt(a + b, j) == FenceAt(a, j)
  {
    assert (a + b)[j..j + 3] == a[j..j + 3];
  }

  /** Where a block ends: at the first fence of what follows its start. */
  lemma SplitAtFence(inner: string, rest: string) returns (block: string, others: string)
    ensures inner + (FENCE + rest) == block + (FENCE + others) && EndsAtFence(block) && block <= inner
  {
    var text := inner + (FENCE + rest);
    FenceShift(inner, FENCE + rest, 0);
    assert FenceAt(FENCE + rest, 0) && FenceAt(text, |inner|);
    var f := NextFence(text, 0).value;
    block, others := text[..f], text[f + 3..];
    assert text == block + (text[f..f + 3] + others) && block == inner[..f];
    FenceShift(block, FENCE, 0);
    assert FenceAt(FENCE, 0) && block + FENCE == text[..f + 3];
    forall j | 0 <= j < f ensures !FenceAt(block + FENCE, j) {
      FenceInPrefix(text[..f + 3], text[f + 3..], j);
      assert text == text[..f + 3] + text[f + 3..];
    }
    NextFenceIs(block + FENCE, 0, f);
  }

  lemma {:induction false} NoEarlierStop(s: Scan, a: string, b: string)
    requires StopAt(s, a + b).Some? && StopAt(s, a + b).value >= |a|
    ensures StopAt(s, a).None?
    decreases |a|
  {
    if a != "" {
      assert (a + b)[0] == a[0] && (a + b)[1..] == a[1..] + b;
      NoEarlierStop(Feed(s, a[0]), a[1..], b);
    }
  }

  /** A document that breaks off before its last bracket is reported cut off, wherever it breaks. */
  lemma ProperPrefixIsCutOff(v: Value, part: string)
    requires ValueOk(v) && (v.Arr? || v.Obj?) && part < Text(v) && part != ""
    ensures SpanOf(part) == CutOff(0)
  {
    var open, body, close := DocumentShape(v);
    StopsAtTheEnd(open, body, close, "");
    var whole := Text(v);
    assert [open] + body + [close] + "" == whole == part + whole[|part|..];
    NoEarlierStop(FRESH, part, whole[|part|..]);
    assert part[0] == whole[0] && part[0..] == part;
  }

  /** A fence cannot straddle the closing bracket. */
  lemma FenceEndsInDocument(v: Value, after: string, j: int)
    requires ValueOk(v) && (v.Arr? || v.Obj?) && FenceAt(Text(v) + after, j) && j < |Text(v)|
    ensures FenceAt(Text(v), j)
  {
    var open, body, close := DocumentShape(v);
    var n := |Text(v)|;
    assert (Text(v) + after)[n - 1] == close;
    if j + 3 > n { FenceChars(Text(v) + after, j, n - 1); }
    FenceInPrefix(Text(v), after, j);
  }

  /** A fenced response, exactly: the document at the start of the block is found if and only if its own text holds
      no fence, whatever follows it, and is reported cut off otherwise. */
  lemma FencedDocumentIsFoundIff(before: string, tag: string, blanks: string, v: Value, after: string, rest: string)
    requires ValueOk(v) && (v.Arr? || v.Obj?) && (tag == "" || tag == "json") && forall c :: c in blanks ==> IsBlank(c)
    requires EndsAtFence(before)
    ensures Extract(Response(before, tag, blanks, Text(v) + after, rest)) ==
            if HasFence(Text(v)) then CutOff(0) else Closed(0, |Text(v)|)
  {
    hide EndsAtFence;
    hide Fenced;
    hide SpanOf;
    hide FenceAt;
    hide Text;
    hide ValueOk;
    var doc := Text(v);
    var open, body, close := DocumentShape(v);
    var block, others := SplitAtFence(doc + after, rest);
    assert doc[0] == open && (doc + after)[0] == open;
    BlockIsNotEmpty(doc + after, rest, block, others);
    FencedIs(before, tag, blanks, block, others);
    assert Response(before, tag, blanks, doc + after, rest) == Response(before, tag, blanks, block, others);
    BlockEndsInDocumentIff(v, after, rest, block, others);
    if |block| < |doc| {
      assert block == doc[..|block|];
      ProperPrefixIsCutOff(v, block);
    } else {
      assert block == doc + block[|doc|..] == "" + doc + block[|doc|..];
      SpanIsTheDocument("", v, block[|doc|..]);
    }
  }

  lemma BlockIsNotEmpty(inner: string, rest: string, block: string, others: string)
    requires inner != "" && IsOpen(inner[0]) && inner + (FENCE + rest) == block + (FENCE + others)
    ensures block != ""
  {
    assert (inner + (FENCE + rest))[0] == inner[0] && (FENCE + others)[0] == '`';
    assert block == "" ==> block + (FENCE + others) == FENCE + others;
  }

  /** The first fence falls inside the document exactly when the document has one. */
  lemma BlockEndsInDocumentIff(v: Value, after: string, rest: string, block: string, others: string)
    requires ValueOk(v) && (v.Arr? || v.Obj?) && block <= Text(v) + after && EndsAtFence(block)
    requires (Text(v) + after) + (FENCE + rest) == block + (FENCE + others)
    ensures |block| < |Text(v)| <==> HasFence(Text(v))
  {
    var doc, n := Text(v), |block|;
    var text, tail := block + (FENCE + others), after + (FENCE + rest);
    FirstFenceIs(block, others, 0);
    assert NextFence(text, 0) == Some(n) && text == doc + tail;
    if n < |doc| {
      FenceEndsInDocument(v, tail, n);
    }
    if HasFence(doc) {
      var j :| 0 <= j < |doc| && FenceAt(doc, j);
      FenceInPrefix(doc, tail, j);
    }
  }

  /** The document is found whatever surrounds it, fences after it included, when it holds none itself; the block is
      everything up to the first fence. */
  lemma FindsTheFencedDocument(before: string, tag: string, blanks: string, v: Value, after: string, rest: string)
    requires ValueOk(v) && (v.Arr? || v.Obj?) && (tag == "" || tag == "json") && forall c :: c in blanks ==> IsBlank(c)
    requires EndsAtFence(before) && !HasFence(Text(v))
    ensures var text := Response(before, tag, blanks, Text(v) + after, rest);
            Extract(text) == Closed(0, |Text(v)|) && (EndsAtFence(Text(v) + after)
                ==> Candidate(text) == Text(v) + after)
  {
    hide EndsAtFence;
    hide Fenced;
    FencedDocumentIsFoundIff(before, tag, blanks, v, after, rest);
    if EndsAtFence(Text(v) + after) { FencedIs(before, tag, blanks, Text(v) + after, rest); }
  }

  lemma SingletonText(v: Value)
    requires ValueOk(v)
    ensures Text(Arr("", [Item("", v, "")])) == "[" + Text(v) + "]" && ValueOk(Arr("", [Item("", v, "")]))
  {
    var items := [Item("", v, "")];
    assert ItemsText(items) == ItemText(items[0]) + "";
    assert ItemText(items[0]) == Text(v);
  }

  /** Every string with a fence in it, in a list by itself, has its document cut off at that fence. */
  lemma FenceInAStringCutsTheDocument(before: string, tag: string, blanks: string, us: seq<Unit>, j: nat,
                                      after: string, rest: string)
    requires (tag == "" || tag == "json") && forall c :: c in blanks ==> IsBlank(c)
    requires UnitsOk(us) && FenceAt(UnitsText(us), j) && EndsAtFence(before)
    ensures var v := Arr("", [Item("", Str(us), "")]);
            ValueOk(v) && Extract(Response(before, tag, blanks, Text(v) + after, rest)) == CutOff(0)
  {
    hide EndsAtFence;
    hide Extract;
    var v := Arr("", [Item("", Str(us), "")]);
    SingletonText(Str(us));
    var quoted := UnitsText(us);
    assert Text(v) == "[\"" + (quoted + "\"]");
    FenceInPrefix(quoted, "\"]", j);
    FenceShift("[\"", quoted + "\"]", j);
    assert FenceAt(Text(v), 2 + j);
    FencedDocumentIsFoundIff(before, tag, blanks, v, after, rest);
  }

  /** Three backticks are such a string: the list holding it is never found in a fenced response. */
  lemma BackticksAreCut()
    ensures Extract(Response("", "", "", "[\"```\"]", "")) == CutOff(0)
  {
    hide Extract;
    hide Response;
    var us := [Plain('`'), Plain('`'), Plain('`')];
    BackticksText();
    SingletonText(Str(us));
    assert EndsAtFence("") by { NextFenceIs("" + FENCE, 0, 0); }
    FenceInAStringCutsTheDocument("", "", "", us, 0, "", "");
    assert "[" + ("\"" + "```" + "\"") + "]" + "" == "[\"```\"]";
  }

  lemma BackticksText()
    ensures var us := [Plain('`'), Plain('`'), Plain('`')]; UnitsOk(us) && UnitsText(us) == "```"
  {
    var us := [Plain('`'), Plain('`'), Plain('`')];
    assert us[1..] == [Plain('`'), Plain('`')] && us[1..][1..] == [Plain('`')] && us[1..][1..][1..] == [];
    assert UnitsText(us[1..][1..]) == "`";
    assert UnitsText(us[1..]) == "``";
  }
}
