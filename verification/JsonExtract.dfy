/** Finding the first JSON object or array in a model's answer by counting brackets. */
module JsonExtract {
  import opened Options

  datatype Bracket = Brace | Square

  function Opener(kind: Bracket): char {
    if kind == Brace then '{' else '['
  }

  function Closer(kind: Bracket): char {
    if kind == Brace then '}' else ']'
  }

  predicate IsSpace(c: char) {
    c in {'\t', '\n', '\U{B}', '\U{C}', '\r', ' ', '\U{85}', '\U{A0}', '\U{1680}', '\U{2028}', '\U{2029}', '\U{202F}',
          '\U{205F}', '\U{3000}'}
    || '\U{2000}' <= c <= '\U{200A}'
  }

  function TrimLeft(s: string): string {
    if s != [] && IsSpace(s[0]) then TrimLeft(s[1..]) else s
  }

  function TrimRight(s: string): string {
    if s != [] && IsSpace(s[|s| - 1]) then TrimRight(s[..|s| - 1]) else s
  }

  function Trim(s: string): string {
    TrimRight(TrimLeft(s))
  }

  predicate Opens(c: char) {
    c == '{' || c == '['
  }

  // The first place from `i` on where an object or array may begin.
  function FirstOpener(s: string, i: nat): (r: Option<nat>)
    requires i <= |s|
    ensures r.Some? ==> i <= r.value < |s| && Opens(s[r.value])
    decreases |s| - i
  {
    if i == |s| then None else if Opens(s[i]) then Some(i) else FirstOpener(s, i + 1)
  }

  function KindOf(c: char): Bracket {
    if c == '[' then Square else Brace
  }

  function Weight(c: char, kind: Bracket): int {
    if c == Opener(kind) then 1 else if c == Closer(kind) then -1 else 0
  }

  // One past the closing bracket that brings the depth back to 0; brackets of the other kind
  // are not looked at, and neither are quotes.
  function MatchEnd(s: string, kind: Bracket, i: nat, depth: int): (r: Option<nat>)
    requires i <= |s|
    ensures r.Some? ==> i < r.value <= |s|
    decreases |s| - i
  {
    if i == |s| then None
    else
      var next := depth + Weight(s[i], kind);
      if s[i] == Closer(kind) && next == 0 then Some(i + 1) else MatchEnd(s, kind, i + 1, next)
  }

  function ExtractTrimmed(s: string): string {
    var start := FirstOpener(s, 0);
    if start.None? then ""
    else
      var end := MatchEnd(s, KindOf(s[start.value]), start.value, 0);
      if end.None? then "" else s[start.value..end.value]
  }

  function Extract(content: string): string {
    ExtractTrimmed(Trim(content))
  }

  // ----- depth -----

  function Depth(s: string, kind: Bracket): int {
    if s == [] then 0 else Depth(s[..|s| - 1], kind) + Weight(s[|s| - 1], kind)
  }

  // Every closing bracket of the kind closes one before it, and every opening one is closed.
  predicate Balanced(s: string, kind: Bracket) {
    Depth(s, kind) == 0 && forall k :: 0 <= k <= |s| ==> Depth(s[..k], kind) >= 0
  }

  lemma {:induction false} DepthConcat(a: string, b: string, kind: Bracket)
    ensures Depth(a + b, kind) == Depth(a, kind) + Depth(b, kind)
  {
    if b == [] {
      assert a + b == a;
    } else {
      var n := |b| - 1;
      assert (a + b)[..|a + b| - 1] == a + b[..n];
      DepthConcat(a, b[..n], kind);
    }
  }

  lemma BalancedConcat(a: string, b: string, kind: Bracket)
    requires Balanced(a, kind) && Balanced(b, kind)
    ensures Balanced(a + b, kind)
  {
    DepthConcat(a, b, kind);
    forall k | 0 <= k <= |a + b|
      ensures Depth((a + b)[..k], kind) >= 0
    {
      if k <= |a| {
        assert (a + b)[..k] == a[..k];
      } else {
        assert (a + b)[..k] == a + b[..k - |a|];
        DepthConcat(a, b[..k - |a|], kind);
      }
    }
  }

  predicate Free(s: string, kind: Bracket) {
    forall i :: 0 <= i < |s| ==> s[i] != Opener(kind) && s[i] != Closer(kind)
  }

  lemma {:induction false} FreeDepth(s: string, kind: Bracket)
    requires Free(s, kind)
    ensures Depth(s, kind) == 0
  {
    if s != [] {
      FreeDepth(s[..|s| - 1], kind);
    }
  }

  lemma FreeIsBalanced(s: string, kind: Bracket)
    requires Free(s, kind)
    ensures Balanced(s, kind)
  {
    forall k | 0 <= k <= |s|
      ensures Depth(s[..k], kind) == 0
    {
      FreeDepth(s[..k], kind);
    }
    assert s[..|s|] == s;
  }

  lemma Wrapped(inner: string, kind: Bracket)
    requires Balanced(inner, kind)
    ensures Balanced([Opener(kind)] + inner + [Closer(kind)], kind)
  {
    var s := [Opener(kind)] + inner + [Closer(kind)];
    assert Depth([Opener(kind)], kind) == 1 by {
      assert [Opener(kind)][..0] == [];
    }
    assert s[..|s| - 1] == [Opener(kind)] + inner;
    DepthConcat([Opener(kind)], inner, kind);
    forall k | 0 <= k < |s|
      ensures Depth(s[..k], kind) >= 0
    {
      if k > 0 {
        assert s[..k] == [Opener(kind)] + inner[..k - 1];
        DepthConcat([Opener(kind)], inner[..k - 1], kind);
      }
    }
    assert s[..|s|] == s;
  }

  // ----- matching -----

  function DepthIn(s: string, kind: Bracket, i: nat, k: nat): int
    requires i <= k <= |s|
  {
    Depth(s[i..k], kind)
  }

  // From `i` on the depth first returns to 0 at `j`.
  predicate ReturnsAt(s: string, kind: Bracket, i: nat, j: nat)
    requires i < j <= |s|
  {
    DepthIn(s, kind, i, j) == 0 && forall k :: i < k < j ==> DepthIn(s, kind, i, k) > 0
  }

  lemma DepthStep(s: string, kind: Bracket, i: nat, j: nat)
    requires i < j <= |s|
    ensures DepthIn(s, kind, i, j) == DepthIn(s, kind, i, j - 1) + Weight(s[j - 1], kind)
  {
    assert s[i..j][..j - i - 1] == s[i..j - 1];
  }

  // The scan passes over text in which the depth stays positive.
  lemma {:induction false} MatchEndPasses(s: string, kind: Bracket, i: nat, j: nat, depth: int)
    requires i <= j <= |s|
    requires forall k :: i < k <= j ==> depth + DepthIn(s, kind, i, k) != 0
    ensures MatchEnd(s, kind, i, depth) == MatchEnd(s, kind, j, depth + DepthIn(s, kind, i, j))
    decreases j - i
  {
    if i == j {
      assert s[i..j] == [];
    } else {
      var next := depth + Weight(s[i], kind);
      SplitFirst(s, kind, i, i + 1);
      var rest := i + 1;
      forall k | rest < k <= j
        ensures next + DepthIn(s, kind, rest, k) != 0
      {
        SplitFirst(s, kind, i, k);
      }
      MatchEndPasses(s, kind, rest, j, next);
      SplitFirst(s, kind, i, j);
    }
  }

  lemma SplitFirst(s: string, kind: Bracket, i: nat, k: nat)
    requires i < k <= |s|
    ensures DepthIn(s, kind, i, k) == Weight(s[i], kind) + DepthIn(s, kind, i + 1, k)
  {
    assert s[i..k] == [s[i]] + s[i + 1..k];
    assert [s[i]][..0] == [];
    DepthConcat([s[i]], s[i + 1..k], kind);
  }

  // What starts with a bracket of `kind` ends where the depth first returns to 0.
  lemma EndsAt(s: string, kind: Bracket, i: nat, j: nat)
    requires i < j <= |s| && s[i] == Opener(kind)
    ensures MatchEnd(s, kind, i, 0) == Some(j) <==> ReturnsAt(s, kind, i, j)
  {
    assert s[i..i] == [];
    if ReturnsAt(s, kind, i, j) {
      DepthStep(s, kind, i, j);
      MatchEndPasses(s, kind, i, j - 1, 0);
    } else if MatchEnd(s, kind, i, 0) == Some(j) {
      MatchEndIsFirst(s, kind, i, i, 0, j);
      StaysPositive(s, kind, i, j);
    }
  }

  // Conversely, where the scan ends is where the depth first returns to 0.
  lemma {:induction false} MatchEndIsFirst(s: string, kind: Bracket, start: nat, i: nat, depth: int, j: nat)
    requires start <= i <= |s| && depth == DepthIn(s, kind, start, i) && MatchEnd(s, kind, i, depth) == Some(j)
    requires i == start ==> s[i..] != [] && s[start] == Opener(kind)
    ensures i < j <= |s| && DepthIn(s, kind, start, j) == 0
    ensures forall k :: i < k < j ==> DepthIn(s, kind, start, k) != 0 || s[k - 1] != Closer(kind)
    decreases |s| - i
  {
    DepthStep(s, kind, start, i + 1);
    var next := depth + Weight(s[i], kind);
    if !(s[i] == Closer(kind) && next == 0) {
      MatchEndIsFirst(s, kind, start, i + 1, next, j);
    }
  }

  // The depth moves by one, so it only gets below 1 by a closing bracket bringing it to 0.
  lemma {:induction false} StaysPositive(s: string, kind: Bracket, i: nat, j: nat)
    requires i < j <= |s| && s[i] == Opener(kind)
    requires forall k :: i < k < j ==> DepthIn(s, kind, i, k) != 0 || s[k - 1] != Closer(kind)
    ensures forall k :: i < k < j ==> DepthIn(s, kind, i, k) > 0
    decreases j
  {
    if j - 1 > i {
      StaysPositive(s, kind, i, j - 1);
      DepthStep(s, kind, i, j - 1);
      assert s[i..i] == [];
      assert j - 2 > i ==> DepthIn(s, kind, i, j - 2) > 0;
    }
  }

  // ----- values -----

  // A JSON value; the text of numbers, strings and member names is as it is written.
  datatype Value =
    | Null
    | Bool(b: bool)
    | Number(text: string)
    | Str(text: string)
    | Arr(items: seq<Value>)
    | Obj(members: seq<Member>)

  datatype Member = Member(name: string, value: Value)

  function Quoted(text: string): string {
    "\"" + text + "\""
  }

  // White space as section 2 of RFC 8259 allows it around the structural characters.
  predicate Blank(s: string) {
    forall i :: 0 <= i < |s| ==> s[i] in {' ', '\t', '\n', '\r'}
  }

  predicate Spaced(text: string, before: string, token: string, after: string) {
    text == before + token + after && Blank(before) && Blank(after)
  }

  // `text` is a way to print `v`, with white space wherever it may be inside.
  ghost predicate Prints(v: Value, text: string)
    decreases v, 1
  {
    match v
    case Null => text == "null"
    case Bool(b) => text == if b then "true" else "false"
    case Number(number) => text == number
    case Str(content) => text == Quoted(content)
    case Arr(items) => exists inner :: text == Bracketed(inner, Square) && PrintsItems(items, inner)
    case Obj(members) => exists inner :: text == Bracketed(inner, Brace) && PrintsMembers(members, inner)
  }

  ghost predicate PrintsSpaced(v: Value, text: string)
    decreases v, 2
  {
    exists before, value, after :: Spaced(text, before, value, after) && Prints(v, value)
  }

  ghost predicate PrintsItems(items: seq<Value>, text: string)
    decreases items, 0
  {
    if items == [] then Blank(text)
    else if |items| == 1 then PrintsSpaced(items[0], text)
    else exists first, rest ::
      text == first + "," + rest && PrintsSpaced(items[0], first) && PrintsItems(items[1..], rest)
  }

  ghost predicate PrintsName(name: string, text: string) {
    exists before, after :: Spaced(text, before, Quoted(name), after)
  }

  ghost predicate PrintsMember(m: Member, text: string)
    decreases m, 0
  {
    exists name, value :: text == name + ":" + value && PrintsName(m.name, name) && PrintsSpaced(m.value, value)
  }

  ghost predicate PrintsMembers(members: seq<Member>, text: string)
    decreases members, 0
  {
    if members == [] then Blank(text)
    else if |members| == 1 then PrintsMember(members[0], text)
    else exists first, rest ::
      text == first + "," + rest && PrintsMember(members[0], first) && PrintsMembers(members[1..], rest)
  }

  // The shortest way to print a value.
  function Print(v: Value): string
    decreases v
  {
    match v
    case Null => "null"
    case Bool(b) => if b then "true" else "false"
    case Number(text) => text
    case Str(text) => Quoted(text)
    case Arr(items) => Bracketed(PrintItems(items), Square)
    case Obj(members) => Bracketed(PrintMembers(members), Brace)
  }

  function PrintItems(items: seq<Value>): string
    decreases items
  {
    if items == [] then ""
    else if |items| == 1 then Print(items[0])
    else Print(items[0]) + "," + PrintItems(items[1..])
  }

  function PrintMembers(members: seq<Member>): string
    decreases members
  {
    if members == [] then ""
    else
      var first := Quoted(members[0].name) + ":" + Print(members[0].value);
      if |members| == 1 then first else first + "," + PrintMembers(members[1..])
  }

  lemma NoSpace(token: string)
    ensures Spaced(token, "", token, "")
  {
    assert token == "" + token + "";
  }

  lemma {:induction false} PrintPrints(v: Value)
    ensures Prints(v, Print(v)) && PrintsSpaced(v, Print(v))
    decreases v, 1
  {
    match v {
      case Arr(items) => PrintItemsPrints(items);
      case Obj(members) => PrintMembersPrints(members);
      case _ =>
    }
    NoSpace(Print(v));
  }

  lemma {:induction false} PrintItemsPrints(items: seq<Value>)
    ensures PrintsItems(items, PrintItems(items))
    decreases items, 0
  {
    if items != [] {
      PrintPrints(items[0]);
      if |items| > 1 {
        PrintItemsPrints(items[1..]);
      }
    }
  }

  lemma {:induction false} PrintMembersPrints(members: seq<Member>)
    ensures PrintsMembers(members, PrintMembers(members))
    decreases members, 0
  {
    if members != [] {
      MemberPrints(members[0]);
      if |members| > 1 {
        PrintMembersPrints(members[1..]);
      }
    }
  }

  lemma {:induction false} MemberPrints(m: Member)
    ensures PrintsMember(m, Quoted(m.name) + ":" + Print(m.value))
    decreases m, 0
  {
    PrintPrints(m.value);
    NoSpace(Quoted(m.name));
  }

  // No other way to print a value is shorter.
  lemma {:induction false} PrintIsShortest(v: Value, text: string)
    requires Prints(v, text)
    ensures Prints(v, Print(v)) && |Print(v)| <= |text|
    decreases v, 1
  {
    PrintPrints(v);
    match v {
      case Arr(items) =>
        var inner :| text == Bracketed(inner, Square) && PrintsItems(items, inner);
        ItemsAreShortest(items, inner);
      case Obj(members) =>
        var inner :| text == Bracketed(inner, Brace) && PrintsMembers(members, inner);
        MembersAreShortest(members, inner);
      case _ =>
    }
  }

  lemma {:induction false} SpacedIsShortest(v: Value, text: string)
    requires PrintsSpaced(v, text)
    ensures |Print(v)| <= |text|
    decreases v, 2
  {
    var before, value, after :| Spaced(text, before, value, after) && Prints(v, value);
    PrintIsShortest(v, value);
  }

  lemma {:induction false} ItemsAreShortest(items: seq<Value>, text: string)
    requires PrintsItems(items, text)
    ensures |PrintItems(items)| <= |text|
    decreases items, 0
  {
    if |items| == 1 {
      SpacedIsShortest(items[0], text);
    } else if items != [] {
      var first, rest :|
        text == first + "," + rest && PrintsSpaced(items[0], first) && PrintsItems(items[1..], rest);
      SpacedIsShortest(items[0], first);
      ItemsAreShortest(items[1..], rest);
    }
  }

  lemma {:induction false} MemberIsShortest(m: Member, text: string)
    requires PrintsMember(m, text)
    ensures |Quoted(m.name) + ":" + Print(m.value)| <= |text|
    decreases m, 0
  {
    var name, value :| text == name + ":" + value && PrintsName(m.name, name) && PrintsSpaced(m.value, value);
    SpacedIsShortest(m.value, value);
  }

  lemma {:induction false} MembersAreShortest(members: seq<Member>, text: string)
    requires PrintsMembers(members, text)
    ensures |PrintMembers(members)| <= |text|
    decreases members, 0
  {
    if |members| == 1 {
      MemberIsShortest(members[0], text);
    } else if members != [] {
      var first, rest :|
        text == first + "," + rest && PrintsMember(members[0], first) && PrintsMembers(members[1..], rest);
      MemberIsShortest(members[0], first);
      MembersAreShortest(members[1..], rest);
    }
  }

  // The texts in `v` contain no bracket of `kind`; brackets of the other kind are welcome.
  predicate Clean(v: Value, kind: Bracket)
    decreases v
  {
    match v
    case Null => true
    case Bool(_) => true
    case Number(text) => Free(text, kind)
    case Str(text) => Free(text, kind)
    case Arr(items) => forall i :: 0 <= i < |items| ==> Clean(items[i], kind)
    case Obj(members) => forall i :: 0 <= i < |members| ==> Free(members[i].name, kind) && Clean(members[i].value, kind)
  }

  lemma QuotedIsBalanced(text: string, kind: Bracket)
    requires Free(text, kind)
    ensures Balanced(Quoted(text), kind)
  {
    FreeIsBalanced(Quoted(text), kind);
  }

  lemma BracketedIsBalanced(inner: string, around: Bracket, kind: Bracket)
    requires Balanced(inner, kind)
    ensures Balanced(Bracketed(inner, around), kind)
  {
    if around == kind {
      Wrapped(inner, kind);
    } else {
      FreeIsBalanced([Opener(around)], kind);
      FreeIsBalanced([Closer(around)], kind);
      BalancedConcat([Opener(around)], inner, kind);
      BalancedConcat([Opener(around)] + inner, [Closer(around)], kind);
    }
  }

  lemma BlankIsBalanced(s: string, kind: Bracket)
    requires Blank(s)
    ensures Free(s, kind) && Balanced(s, kind)
  {
    FreeIsBalanced(s, kind);
  }

  lemma JoinIsBalanced(a: string, separator: string, b: string, kind: Bracket)
    requires Balanced(a, kind) && Free(separator, kind) && Balanced(b, kind)
    ensures Balanced(a + separator + b, kind)
  {
    FreeIsBalanced(separator, kind);
    BalancedConcat(a, separator, kind);
    BalancedConcat(a + separator, b, kind);
  }

  lemma SpacedIsBalanced(text: string, before: string, token: string, after: string, kind: Bracket)
    requires Spaced(text, before, token, after) && Balanced(token, kind)
    ensures Balanced(text, kind)
  {
    BlankIsBalanced(before, kind);
    BlankIsBalanced(after, kind);
    BalancedConcat(before, token, kind);
    BalancedConcat(before + token, after, kind);
  }

  // A clean value is balanced in either kind of bracket, however it is printed.
  lemma {:induction false} PrintIsBalanced(v: Value, text: string, kind: Bracket)
    requires Clean(v, kind) && Prints(v, text)
    ensures Balanced(text, kind)
    decreases v, 1
  {
    match v
    case Null => FreeIsBalanced("null", kind);
    case Bool(b) => FreeIsBalanced(text, kind);
    case Number(number) => FreeIsBalanced(number, kind);
    case Str(content) => QuotedIsBalanced(content, kind);
    case Arr(items) =>
      var inner :| text == Bracketed(inner, Square) && PrintsItems(items, inner);
      ItemsAreBalanced(items, inner, kind);
      BracketedIsBalanced(inner, Square, kind);
    case Obj(members) =>
      var inner :| text == Bracketed(inner, Brace) && PrintsMembers(members, inner);
      MembersAreBalanced(members, inner, kind);
      BracketedIsBalanced(inner, Brace, kind);
  }

  lemma {:induction false} SpacedValueIsBalanced(v: Value, text: string, kind: Bracket)
    requires Clean(v, kind) && PrintsSpaced(v, text)
    ensures Balanced(text, kind)
    decreases v, 2
  {
    var before, value, after :| Spaced(text, before, value, after) && Prints(v, value);
    PrintIsBalanced(v, value, kind);
    SpacedIsBalanced(text, before, value, after, kind);
  }

  lemma {:induction false} ItemsAreBalanced(items: seq<Value>, text: string, kind: Bracket)
    requires (forall i :: 0 <= i < |items| ==> Clean(items[i], kind)) && PrintsItems(items, text)
    ensures Balanced(text, kind)
    decreases items, 0
  {
    if items == [] {
      BlankIsBalanced(text, kind);
    } else if |items| == 1 {
      SpacedValueIsBalanced(items[0], text, kind);
    } else {
      var first, rest :|
        text == first + "," + rest && PrintsSpaced(items[0], first) && PrintsItems(items[1..], rest);
      SpacedValueIsBalanced(items[0], first, kind);
      ItemsAreBalanced(items[1..], rest, kind);
      JoinIsBalanced(first, ",", rest, kind);
    }
  }

  lemma {:induction false} MemberIsBalanced(m: Member, text: string, kind: Bracket)
    requires Free(m.name, kind) && Clean(m.value, kind) && PrintsMember(m, text)
    ensures Balanced(text, kind)
    decreases m, 0
  {
    var name, value :| text == name + ":" + value && PrintsName(m.name, name) && PrintsSpaced(m.value, value);
    var before, after :| Spaced(name, before, Quoted(m.name), after);
    QuotedIsBalanced(m.name, kind);
    SpacedIsBalanced(name, before, Quoted(m.name), after, kind);
    SpacedValueIsBalanced(m.value, value, kind);
    JoinIsBalanced(name, ":", value, kind);
  }

  lemma {:induction false} MembersAreBalanced(members: seq<Member>, text: string, kind: Bracket)
    requires forall i :: 0 <= i < |members| ==> Free(members[i].name, kind) && Clean(members[i].value, kind)
    requires PrintsMembers(members, text)
    ensures Balanced(text, kind)
    decreases members, 0
  {
    if members == [] {
      BlankIsBalanced(text, kind);
    } else if |members| == 1 {
      MemberIsBalanced(members[0], text, kind);
    } else {
      var first, rest :|
        text == first + "," + rest && PrintsMember(members[0], first) && PrintsMembers(members[1..], rest);
      MemberIsBalanced(members[0], first, kind);
      MembersAreBalanced(members[1..], rest, kind);
      JoinIsBalanced(first, ",", rest, kind);
    }
  }

  // ----- the round trip -----

  predicate NoOpener(s: string) {
    forall i :: 0 <= i < |s| ==> !Opens(s[i])
  }

  lemma {:induction false} TrimLeftKeeps(a: string, b: string)
    requires b != [] && !IsSpace(b[0])
    ensures TrimLeft(a + b) == TrimLeft(a) + b
    ensures NoOpener(a) ==> NoOpener(TrimLeft(a))
  {
    if a == [] {
      assert a + b == b;
    } else if IsSpace(a[0]) {
      assert (a + b)[1..] == a[1..] + b;
      TrimLeftKeeps(a[1..], b);
    }
  }

  lemma {:induction false} TrimRightKeeps(a: string, b: string)
    requires a != [] && !IsSpace(a[|a| - 1])
    ensures TrimRight(a + b) == a + TrimRight(b)
  {
    if b == [] {
      assert a + b == a;
    } else if IsSpace(b[|b| - 1]) {
      assert (a + b)[..|a + b| - 1] == a + b[..|b| - 1];
      TrimRightKeeps(a, b[..|b| - 1]);
    }
  }

  lemma {:induction false} FirstOpenerSkips(s: string, i: nat, j: nat)
    requires i <= j < |s| && Opens(s[j]) && forall k :: i <= k < j ==> !Opens(s[k])
    ensures FirstOpener(s, i) == Some(j)
    decreases j - i
  {
    if i < j {
      FirstOpenerSkips(s, i + 1, j);
    }
  }

  // No object or array starts before place `n`.
  predicate NoStart(s: string, n: nat)
    requires n <= |s|
  {
    forall k :: 0 <= k < n ==> s[k] != '{' && s[k] != '['
  }

  // The first one starts at `i`, with a bracket of `kind`.
  predicate StartsAt(s: string, i: nat, kind: Bracket)
    requires i < |s|
  {
    NoStart(s, i) && match kind case Brace => s[i] == '{' case Square => s[i] == '['
  }

  lemma {:induction false} NoOpenerFrom(s: string, i: nat)
    requires i <= |s| && NoStart(s, |s|)
    ensures FirstOpener(s, i) == None
    decreases |s| - i
  {
    if i < |s| {
      NoOpenerFrom(s, i + 1);
    }
  }

  // Nothing is extracted from a text without an opening bracket.
  lemma NothingToExtract(s: string)
    requires NoStart(s, |s|)
    ensures ExtractTrimmed(s) == ""
  {
    NoOpenerFrom(s, 0);
  }

  // Otherwise what is extracted reaches from the first opening bracket to where the brackets of
  // its kind first balance; if they never do, nothing is.
  lemma WhatIsExtracted(s: string, i: nat, kind: Bracket)
    requires i < |s| && StartsAt(s, i, kind)
    ensures forall j :: i < j <= |s| && ReturnsAt(s, kind, i, j) ==> ExtractTrimmed(s) == s[i..j]
    ensures (forall j :: i < j <= |s| ==> !ReturnsAt(s, kind, i, j)) ==> ExtractTrimmed(s) == ""
  {
    FirstOpenerSkips(s, 0, i);
    assert KindOf(s[i]) == kind && s[i] == Opener(kind);
    forall j | i < j <= |s|
      ensures MatchEnd(s, kind, i, 0) == Some(j) <==> ReturnsAt(s, kind, i, j)
    {
      EndsAt(s, kind, i, j);
    }
  }

  // A bracketed text: an opening bracket, anything, the closing bracket of the same kind.
  function Bracketed(inner: string, kind: Bracket): string {
    [Opener(kind)] + inner + [Closer(kind)]
  }

  lemma BracketedDepth(inner: string, kind: Bracket, k: nat)
    requires k <= |inner|
    ensures Depth(Bracketed(inner, kind)[..k + 1], kind) == 1 + Depth(inner[..k], kind)
    ensures Depth(Bracketed(inner, kind), kind) == Depth(inner, kind)
  {
    var s := Bracketed(inner, kind);
    assert [Opener(kind)][..0] == [];
    assert s[..k + 1] == [Opener(kind)] + inner[..k];
    DepthConcat([Opener(kind)], inner[..k], kind);
    assert s[..|s| - 1] == [Opener(kind)] + inner;
    DepthConcat([Opener(kind)], inner, kind);
  }

  // Inside a text the depth of a bracketed part is one more than inside that part.
  lemma DepthInside(s: string, i: nat, inner: string, kind: Bracket, k: nat)
    requires i + |inner| + 2 <= |s| && s[i..i + |inner| + 2] == Bracketed(inner, kind) && k <= |inner|
    ensures DepthIn(s, kind, i, i + k + 1) == 1 + Depth(inner[..k], kind)
  {
    assert s[i..i + k + 1] == Bracketed(inner, kind)[..k + 1];
    BracketedDepth(inner, kind, k);
  }

  lemma BracketedReturns(s: string, i: nat, inner: string, kind: Bracket)
    requires i + |inner| + 2 <= |s| && s[i..i + |inner| + 2] == Bracketed(inner, kind)
    ensures ReturnsAt(s, kind, i, i + |inner| + 2) <==> Balanced(inner, kind)
  {
    var j := i + |inner| + 2;
    BracketedDepth(inner, kind, 0);
    forall k | 0 <= k <= |inner|
      ensures Depth(inner[..k], kind) == DepthIn(s, kind, i, i + k + 1) - 1
    {
      DepthInside(s, i, inner, kind, k);
    }
    if Balanced(inner, kind) {
      forall k | i < k < j
        ensures DepthIn(s, kind, i, k) > 0
      {
        assert Depth(inner[..k - i - 1], kind) >= 0;
      }
    }
  }

  // A bracketed text is found whole exactly when what is inside is balanced in its own kind of
  // bracket.
  lemma BracketedIsFound(before: string, inner: string, kind: Bracket, after: string)
    requires NoOpener(before)
    ensures ExtractTrimmed(before + Bracketed(inner, kind) + after) == Bracketed(inner, kind) <==> Balanced(inner, kind)
  {
    var s, i := before + Bracketed(inner, kind) + after, |before|;
    var j := i + |inner| + 2;
    assert s[i] == Opener(kind) && s[i..j] == Bracketed(inner, kind);
    FirstOpenerSkips(s, 0, i);
    EndsAt(s, kind, i, j);
    BracketedReturns(s, i, inner, kind);
  }

  // What a printed object or array has between its brackets.
  function Inner(text: string): string
    requires |text| >= 2
  {
    text[1..|text| - 1]
  }

  function KindOfValue(v: Value): Bracket {
    if v.Arr? then Square else Brace
  }

  lemma PrintsBracketed(v: Value, text: string)
    requires (v.Arr? || v.Obj?) && Prints(v, text)
    ensures |text| >= 2 && text == Bracketed(Inner(text), KindOfValue(v))
    ensures if v.Arr? then PrintsItems(v.items, Inner(text)) else PrintsMembers(v.members, Inner(text))
  {
    if v.Arr? {
      var inner :| text == Bracketed(inner, Square) && PrintsItems(v.items, inner);
      assert Inner(text) == inner;
    } else {
      var inner :| text == Bracketed(inner, Brace) && PrintsMembers(v.members, inner);
      assert Inner(text) == inner;
    }
  }

  // An object or array printed in any way, after prose without opening brackets and before
  // anything, is extracted exactly as it was printed precisely when what it contains is balanced
  // in the brackets of its own kind, those inside strings included.
  lemma RoundTrip(prose: string, v: Value, text: string, after: string)
    requires NoOpener(prose) && (v.Arr? || v.Obj?) && Prints(v, text)
    ensures |text| >= 2
    ensures Extract(prose + text + after) == text <==> Balanced(Inner(text), KindOfValue(v))
  {
    var kind := KindOfValue(v);
    PrintsBracketed(v, text);
    assert prose + text + after == prose + (text + after);
    TrimLeftKeeps(prose, text + after);
    var left := TrimLeft(prose);
    assert left + (text + after) == (left + text) + after;
    TrimRightKeeps(left + text, after);
    BracketedIsFound(left, Inner(text), kind, TrimRight(after));
  }

  // In particular when no string, name or number in it contains a bracket of that kind.
  lemma CleanRoundTrip(prose: string, v: Value, text: string, after: string)
    requires NoOpener(prose) && (v.Arr? || v.Obj?) && Prints(v, text) && Clean(v, KindOfValue(v))
    ensures Extract(prose + text + after) == text
  {
    PrintsBracketed(v, text);
    if v.Arr? {
      ItemsAreBalanced(v.items, Inner(text), Square);
    } else {
      MembersAreBalanced(v.members, Inner(text), Brace);
    }
    RoundTrip(prose, v, text, after);
  }

  // Printed the shortest way, such a value is extracted, and no text of it is shorter.
  lemma PrintedIsExtracted(prose: string, v: Value, after: string)
    requires NoOpener(prose) && (v.Arr? || v.Obj?) && Clean(v, KindOfValue(v))
    ensures var r := Extract(prose + Print(v) + after);
      Prints(v, r) && forall text :: Prints(v, text) ==> |r| <= |text|
  {
    PrintPrints(v);
    CleanRoundTrip(prose, v, Print(v), after);
    forall text | Prints(v, text)
      ensures |Print(v)| <= |text|
    {
      PrintIsShortest(v, text);
    }
  }

  // A closing brace inside a string ends the extraction early, however the object is printed.
  lemma BraceInStringBreaks(prose: string, name: string, text: string, after: string)
    requires NoOpener(prose) && Free(name, Brace) && Prints(Obj([Member(name, Str("}"))]), text)
    ensures Extract(prose + text + after) != text
  {
    var v := Obj([Member(name, Str("}"))]);
    PrintsBracketed(v, text);
    var front := FrontOfBrace(v.members[0], Inner(text));
    FreeDepth(front, Brace);
    DepthConcat(front, "}", Brace);
    assert "}"[..0] == [];
    assert Inner(text)[..|front| + 1] == front + "}";
    RoundTrip(prose, v, text, after);
  }

  lemma FrontOfBrace(m: Member, text: string) returns (front: string)
    requires Free(m.name, Brace) && m.value == Str("}") && PrintsMember(m, text)
    ensures Free(front, Brace) && front + "}" <= text
  {
    var name, value :| text == name + ":" + value && PrintsName(m.name, name) && PrintsSpaced(m.value, value);
    var before, after :| Spaced(name, before, Quoted(m.name), after);
    var before', token, after' :| Spaced(value, before', token, after') && Prints(m.value, token);
    front := name + ":" + before' + "\"";
    FreeFront(name, before, Quoted(m.name), after, before');
    TextFront(name, before', after');
  }

  lemma FreeFront(name: string, before: string, token: string, after: string, space: string)
    requires Spaced(name, before, token, after) && Free(token, Brace) && Blank(space)
    ensures Free(name + ":" + space + "\"", Brace)
  {
    BlankIsBalanced(before, Brace);
    BlankIsBalanced(after, Brace);
    BlankIsBalanced(space, Brace);
    FreeConcat(before, token, Brace);
    FreeConcat(before + token, after, Brace);
    FreeConcat(name, ":", Brace);
    FreeConcat(name + ":", space, Brace);
    FreeConcat(name + ":" + space, "\"", Brace);
  }

  lemma TextFront(name: string, space: string, after: string)
    ensures name + ":" + space + "\"" + "}" <= name + ":" + (space + Quoted("}") + after)
  {
    assert Quoted("}") == "\"" + "}" + "\"";
    assert name + ":" + (space + Quoted("}") + after) == name + ":" + space + "\"" + "}" + ("\"" + after);
  }

  lemma FreeConcat(a: string, b: string, kind: Bracket)
    requires Free(a, kind) && Free(b, kind)
    ensures Free(a + b, kind)
  {}

  // ----- the loops -----

  method ExtractFirstJSONObject(content: string) returns (r: string)
    ensures r == Extract(content)
  {
    var s := Trim(content);
    if |s| == 0 {
      return "";
    }
    var startIdx, isArray := -1, false;
    for i := 0 to |s|
      invariant startIdx == -1
      invariant FirstOpener(s, i) == FirstOpener(s, 0)
    {
      if s[i] == '{' {
        startIdx := i;
        break;
      } else if s[i] == '[' {
        startIdx, isArray := i, true;
        break;
      }
    }
    if startIdx == -1 {
      return "";
    }
    var openChar, closeChar := '{', '}';
    if isArray {
      openChar, closeChar := '[', ']';
    }
    var depth := 0;
    ghost var kind := KindOf(s[startIdx]);
    for i := startIdx to |s|
      invariant MatchEnd(s, kind, i, depth) == MatchEnd(s, kind, startIdx, 0)
    {
      if s[i] == openChar {
        depth := depth + 1;
      } else if s[i] == closeChar {
        depth := depth - 1;
        if depth == 0 {
          return s[startIdx..i + 1];
        }
      }
    }
    r := "";
  }
}
