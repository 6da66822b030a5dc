/** Conversation memory: what is kept of the history, and what goes into a prompt. */
module Conversation {

  // `content` is the text as bytes.
  datatype Message = Message(role: string, content: seq<bv8>)

  const SYSTEM := "system"

  function Systems(messages: seq<Message>): seq<Message> {
    if messages == [] then []
    else
      var rest, last := Systems(messages[..|messages| - 1]), messages[|messages| - 1];
      if last.role == SYSTEM then rest + [last] else rest
  }

  function Others(messages: seq<Message>): seq<Message> {
    if messages == [] then []
    else
      var rest, last := Others(messages[..|messages| - 1]), messages[|messages| - 1];
      if last.role != SYSTEM then rest + [last] else rest
  }

  function Last<T>(s: seq<T>, n: nat): seq<T> {
    if n >= |s| then s else s[|s| - n..]
  }

  // How many messages other than system messages may stay.
  function Room(maxMessages: int, systems: nat): nat {
    if maxMessages - systems < 1 then 1 else maxMessages - systems
  }

  // System messages first, then the most recent others.
  function Trimmed(messages: seq<Message>, maxMessages: int): seq<Message> {
    Systems(messages) + Last(Others(messages), Room(maxMessages, |Systems(messages)|))
  }

  function Added(messages: seq<Message>, m: Message, maxMessages: int): seq<Message> {
    var longer := messages + [m];
    if |longer| > maxMessages then Trimmed(longer, maxMessages) else longer
  }

  function Tokens(m: Message): nat {
    |m.content| / 4
  }

  function TotalTokens(messages: seq<Message>): nat {
    if messages == [] then 0 else Tokens(messages[0]) + TotalTokens(messages[1..])
  }

  // How many of the last messages fit when `used` tokens are spoken for: one more as long as
  // the budget is not exceeded.
  function Fitting(messages: seq<Message>, used: nat, maxTokens: int): nat {
    if messages == [] then 0
    else
      var n := |messages| - 1;
      var total := used + Tokens(messages[n]);
      if total > maxTokens then 0 else 1 + Fitting(messages[..n], total, maxTokens)
  }

  function Prompt(messages: seq<Message>, maxTokens: int): seq<Message> {
    var systems, others := Systems(messages), Others(messages);
    systems + Last(others, Fitting(others, TotalTokens(systems), maxTokens))
  }

  // ----- what is kept depends on the history alone -----

  datatype Op = Add(message: Message) | Clear

  // The messages kept after `ops`.
  function Kept(ops: seq<Op>, maxMessages: int): seq<Message> {
    if ops == [] then []
    else match ops[|ops| - 1]
      case Add(m) => Added(Kept(ops[..|ops| - 1], maxMessages), m, maxMessages)
      case Clear => []
  }

  // Everything added since the last clear.
  function History(ops: seq<Op>): seq<Message> {
    if ops == [] then []
    else match ops[|ops| - 1]
      case Add(m) => History(ops[..|ops| - 1]) + [m]
      case Clear => []
  }

  lemma {:induction false} Partition(a: seq<Message>, b: seq<Message>)
    ensures Systems(a + b) == Systems(a) + Systems(b) && Others(a + b) == Others(a) + Others(b)
  {
    if b == [] {
      assert a + b == a;
    } else {
      var n := |b| - 1;
      assert (a + b)[..|a + b| - 1] == a + b[..n];
      Partition(a, b[..n]);
    }
  }

  lemma {:induction false} PartitionTwice(messages: seq<Message>)
    ensures |Systems(messages)| + |Others(messages)| == |messages|
    ensures Systems(Systems(messages)) == Systems(messages) && Others(Systems(messages)) == []
    ensures Others(Others(messages)) == Others(messages) && Systems(Others(messages)) == []
  {
    if messages != [] {
      var n := |messages| - 1;
      PartitionTwice(messages[..n]);
      Partition(Systems(messages[..n]), [messages[n]]);
      Partition(Others(messages[..n]), [messages[n]]);
      assert [messages[n]][..0] == [];
    }
  }

  lemma OthersOfLast(others: seq<Message>, n: nat)
    requires Others(others) == others && Systems(others) == []
    ensures Others(Last(others, n)) == Last(others, n) && Systems(Last(others, n)) == []
  {
    if n < |others| {
      var k := |others| - n;
      assert others == others[..k] + others[k..];
      Partition(others[..k], others[k..]);
      PartitionTwice(others[..k]);
      PartitionTwice(others[k..]);
    }
  }

  lemma TrimmedParts(messages: seq<Message>, maxMessages: int)
    ensures var trimmed := Trimmed(messages, maxMessages);
      && Systems(trimmed) == Systems(messages)
      && Others(trimmed) == Last(Others(messages), Room(maxMessages, |Systems(messages)|))
  {
    var systems, others := Systems(messages), Others(messages);
    var recent := Last(others, Room(maxMessages, |systems|));
    PartitionTwice(messages);
    OthersOfLast(others, Room(maxMessages, |systems|));
    Partition(systems, recent);
  }

  lemma LastOfLast<T>(s: seq<T>, t: seq<T>, outer: nat, inner: nat)
    requires outer <= inner
    ensures Last(Last(s, inner) + t, outer) == Last(s + t, outer)
  {
    if inner < |s| {
      assert s + t == s[..|s| - inner] + (Last(s, inner) + t);
    }
  }

  // What is kept of a history: its system messages, all of them and in order, and of the others
  // the most recent ones there is room for beside them, at least one.
  predicate Keeps(kept: seq<Message>, history: seq<Message>, maxMessages: int) {
    && Systems(kept) == Systems(history)
    && Others(kept) == Last(Others(history), Room(maxMessages, |Systems(history)|))
  }

  // One more message, whether or not it makes the memory trim.
  lemma AddKeeps(kept: seq<Message>, history: seq<Message>, m: Message, maxMessages: int)
    requires Keeps(kept, history, maxMessages)
    ensures Keeps(Added(kept, m, maxMessages), history + [m], maxMessages)
  {
    var longer, history' := kept + [m], history + [m];
    Partition(kept, [m]);
    Partition(history, [m]);
    assert [m][..0] == [];
    var room, room' := Room(maxMessages, |Systems(history)|), Room(maxMessages, |Systems(history')|);
    LastOfLast(Others(history), Others([m]), room', room);
    PartitionTwice(longer);
    if |longer| > maxMessages {
      TrimmedParts(longer, maxMessages);
    } else {
      assert |Others(longer)| <= room';
      assert Last(Others(longer), room') == Others(longer);
    }
  }

  // Trimming is determined by the history: after any run of additions and clears, however often
  // the memory was trimmed, what is kept is that of everything added since the last clear.
  lemma {:induction false} KeptIsHistory(ops: seq<Op>, maxMessages: int)
    ensures Keeps(Kept(ops, maxMessages), History(ops), maxMessages)
  {
    if ops != [] {
      var n := |ops| - 1;
      KeptIsHistory(ops[..n], maxMessages);
      match ops[n] {
        case Add(m) => AddKeeps(Kept(ops[..n], maxMessages), History(ops[..n]), m, maxMessages);
        case Clear =>
      }
    }
  }

  // Which part a message is of: "system" is the role that sets it apart.
  lemma PartOfOne(m: Message)
    ensures Systems([m]) == if m.role == "system" then [m] else []
    ensures Others([m]) == if m.role == "system" then [] else [m]
  {
    assert [m][..0] == [];
  }

  // In figures: of `t` other messages added beside `s` system messages since the last clear, the
  // last `maxMessages - s` are kept, at least one and at most all of them.
  lemma KeptInFigures(ops: seq<Op>, maxMessages: int)
    ensures
      var kept, s, t := Kept(ops, maxMessages), |Systems(History(ops))|, |Others(History(ops))|;
      var room := if maxMessages - s >= 1 then maxMessages - s else 1;
      var count := if t <= room then t else room;
      && Systems(kept) == Systems(History(ops))
      && Others(kept) == Others(History(ops))[t - count..]
  {
    KeptIsHistory(ops, maxMessages);
  }

  // Trimming puts the system messages first.
  lemma TrimmedInOrder(messages: seq<Message>, maxMessages: int)
    ensures var trimmed := Trimmed(messages, maxMessages);
      forall i, j :: 0 <= i < j < |trimmed| && trimmed[j].role == "system" ==> trimmed[i].role == "system"
  {
    RolesOfParts(messages);
  }

  lemma {:induction false} RolesOfParts(messages: seq<Message>)
    ensures forall m :: m in Systems(messages) ==> m.role == "system"
    ensures forall m :: m in Others(messages) ==> m.role != "system"
  {
    if messages != [] {
      RolesOfParts(messages[..|messages| - 1]);
    }
  }

  // A token is counted for every four bytes of a message.
  lemma TokensInFigures(m: Message)
    ensures 4 * Tokens(m) <= |m.content| < 4 * Tokens(m) + 4
  {}

  // The memory never holds more than it may, except for system messages and the one other
  // message that always stays.
  lemma KeptIsBounded(ops: seq<Op>, maxMessages: int)
    ensures var systems := |Systems(History(ops))|;
      |Kept(ops, maxMessages)| <= if maxMessages <= systems then systems + 1 else maxMessages
  {
    KeptIsHistory(ops, maxMessages);
    PartitionTwice(Kept(ops, maxMessages));
  }

  // ----- the prompt -----

  // The last `n` messages fit beside `used` tokens; none always do.
  predicate Fits(messages: seq<Message>, n: nat, used: nat, maxTokens: int) {
    n == 0 || used + TotalTokens(Last(messages, n)) <= maxTokens
  }

  lemma {:induction false} TotalTokensAppend(a: seq<Message>, b: seq<Message>)
    ensures TotalTokens(a + b) == TotalTokens(a) + TotalTokens(b)
  {
    if a == [] {
      assert a + b == b;
    } else {
      assert (a + b)[1..] == a[1..] + b;
      TotalTokensAppend(a[1..], b);
    }
  }

  lemma LastStep(messages: seq<Message>, n: nat)
    requires 0 < n <= |messages|
    ensures var k := |messages| - 1;
      && Last(messages, n) == Last(messages[..k], n - 1) + [messages[k]]
      && TotalTokens(Last(messages, n)) == TotalTokens(Last(messages[..k], n - 1)) + Tokens(messages[k])
  {
    var k := |messages| - 1;
    assert Last(messages, n) == Last(messages[..k], n - 1) + [messages[k]];
    TotalTokensAppend(Last(messages[..k], n - 1), [messages[k]]);
    assert [messages[k]][1..] == [];
  }

  // Stopping at the first message that does not fit finds the longest suffix that fits.
  lemma {:induction false} FittingIsLongest(messages: seq<Message>, used: nat, maxTokens: int, n: nat)
    requires n <= |messages|
    ensures Fitting(messages, used, maxTokens) <= |messages|
    ensures Fits(messages, n, used, maxTokens) <==> n <= Fitting(messages, used, maxTokens)
  {
    if messages != [] {
      var k := |messages| - 1;
      FittingIsLongest(messages[..k], used + Tokens(messages[k]), maxTokens, if n == 0 then 0 else n - 1);
      if n > 0 {
        LastStep(messages, n);
        if n == 1 {
          assert Last(messages[..k], 0) == [];
        }
      }
    }
  }

  lemma LastWithin<T>(s: seq<T>, room: nat, n: nat)
    requires n <= |Last(s, room)|
    ensures Last(Last(s, room), n) == Last(s, n) && |Last(s, n)| == n <= room
  {
    if room < |s| {
      assert Last(s, room)[room - n..] == s[|s| - n..];
    }
  }

  // `prompt` holds all system messages of the history and the longest suffix of its other
  // messages that both has room and fits: `n` of those kept fit exactly when there are no more
  // than in the prompt.
  predicate IsPrompt(prompt: seq<Message>, history: seq<Message>, maxMessages: int, maxTokens: int, n: nat) {
    var systems, others := Systems(history), Others(history);
    var count := |prompt| - |systems|;
    && 0 <= count <= Room(maxMessages, |systems|)
    && prompt == systems + Last(others, count)
    && (Fits(others, n, TotalTokens(systems), maxTokens) <==> n <= count)
  }

  lemma PromptOfKept(kept: seq<Message>, history: seq<Message>, maxMessages: int, maxTokens: int, n: nat)
    requires Keeps(kept, history, maxMessages) && n <= |Others(kept)|
    ensures IsPrompt(Prompt(kept, maxTokens), history, maxMessages, maxTokens, n)
  {
    var systems, others, recent := Systems(history), Others(history), Others(kept);
    var room, used := Room(maxMessages, |systems|), TotalTokens(systems);
    var count := Fitting(recent, used, maxTokens);
    FittingIsLongest(recent, used, maxTokens, n);
    LastWithin(others, room, count);
    LastWithin(others, room, n);
    assert Prompt(kept, maxTokens) == systems + Last(others, count);
    assert Fits(recent, n, used, maxTokens) <==> Fits(others, n, used, maxTokens);
  }

  // The prompt after any run is that of everything added since the last clear.
  lemma PromptIsLongestSuffix(ops: seq<Op>, maxMessages: int, maxTokens: int, n: nat)
    requires n <= |Others(Kept(ops, maxMessages))|
    ensures IsPrompt(Prompt(Kept(ops, maxMessages), maxTokens), History(ops), maxMessages, maxTokens, n)
  {
    KeptIsHistory(ops, maxMessages);
    PromptOfKept(Kept(ops, maxMessages), History(ops), maxMessages, maxTokens, n);
  }

  // ----- the object -----

  class ConversationMemory {
    const maxTokens: int
    const maxMessages: int
    var messages: seq<Message>

    constructor (maxTokens: int, maxMessages: int)
      ensures messages == []
      ensures this.maxTokens == (if maxTokens == 0 then 4000 else maxTokens)
      ensures this.maxMessages == (if maxMessages == 0 then 20 else maxMessages)
    {
      this.maxTokens := if maxTokens == 0 then 4000 else maxTokens;
      this.maxMessages := if maxMessages == 0 then 20 else maxMessages;
      messages := [];
    }

    method AddMessage(role: string, content: seq<bv8>)
      modifies this
      ensures messages == Added(old(messages), Message(role, content), maxMessages)
    {
      messages := messages + [Message(role, content)];
      if |messages| > maxMessages {
        TrimMessages();
      }
    }

    method TrimMessages()
      modifies this
      ensures messages == Trimmed(old(messages), maxMessages)
    {
      var systemMessages, otherMessages := Split();
      var maxOther := maxMessages - |systemMessages|;
      if maxOther < 1 {
        maxOther := 1;
      }
      if |otherMessages| > maxOther {
        otherMessages := otherMessages[|otherMessages| - maxOther..];
      }
      messages := systemMessages + otherMessages;
    }

    method Split() returns (systemMessages: seq<Message>, otherMessages: seq<Message>)
      ensures systemMessages == Systems(messages) && otherMessages == Others(messages)
    {
      systemMessages, otherMessages := [], [];
      for i := 0 to |messages|
        invariant systemMessages == Systems(messages[..i]) && otherMessages == Others(messages[..i])
      {
        assert messages[..i + 1][..i] == messages[..i];
        if messages[i].role == SYSTEM {
          systemMessages := systemMessages + [messages[i]];
        } else {
          otherMessages := otherMessages + [messages[i]];
        }
      }
      assert messages[..|messages|] == messages;
    }

    method GetMessagesForPrompt() returns (prompt: seq<Message>)
      ensures prompt == Prompt(messages, maxTokens)
    {
      var totalTokens: nat := 0;
      prompt := [];
      var systemMessages, otherMessages := Split();
      for i := 0 to |systemMessages|
        invariant prompt == systemMessages[..i] && totalTokens == TotalTokens(systemMessages[..i])
      {
        assert systemMessages[..i + 1] == systemMessages[..i] + [systemMessages[i]];
        TotalTokensAppend(systemMessages[..i], [systemMessages[i]]);
        assert [systemMessages[i]][1..] == [];
        totalTokens := totalTokens + |systemMessages[i].content| / 4;
        prompt := prompt + [systemMessages[i]];
      }
      assert systemMessages[..|systemMessages|] == systemMessages;
      var otherValidMessages := CollectFitting(otherMessages, totalTokens);
      for i := |otherValidMessages| downto 0
        invariant prompt == systemMessages + Reversed(otherValidMessages[i..])
      {
        assert otherValidMessages[i..][1..] == otherValidMessages[i + 1..];
        assert otherValidMessages[i..][0] == otherValidMessages[i];
        prompt := prompt + [otherValidMessages[i]];
      }
      assert otherValidMessages[0..] == otherValidMessages;
    }

    // The messages that fit, the most recent first.
    method CollectFitting(otherMessages: seq<Message>, systemTokens: nat) returns (valid: seq<Message>)
      ensures Reversed(valid) == Last(otherMessages, Fitting(otherMessages, systemTokens, maxTokens))
    {
      valid := [];
      var totalTokens: nat := systemTokens;
      assert otherMessages[..|otherMessages|] == otherMessages;
      ghost var count := Fitting(otherMessages, systemTokens, maxTokens);
      FittingIsLongest(otherMessages, systemTokens, maxTokens, 0);
      for i := |otherMessages| downto 0
        invariant Reversed(valid) == otherMessages[i..]
        invariant count == |otherMessages| - i + Fitting(otherMessages[..i], totalTokens, maxTokens)
      {
        var tokens := |otherMessages[i].content| / 4;
        assert otherMessages[..i + 1][..i] == otherMessages[..i];
        if totalTokens + tokens > maxTokens {
          return;
        }
        totalTokens := totalTokens + tokens;
        ReversedAppend(valid, otherMessages[i]);
        valid := valid + [otherMessages[i]];
      }
    }

    method ClearMessages()
      modifies this
      ensures messages == []
    {
      messages := [];
    }
  }

  function Reversed<T>(s: seq<T>): seq<T> {
    if s == [] then [] else Reversed(s[1..]) + [s[0]]
  }

  lemma {:induction false} ReversedAppend<T>(s: seq<T>, x: T)
    ensures Reversed(s + [x]) == [x] + Reversed(s)
  {
    if s == [] {
      assert (s + [x])[1..] == [];
    } else {
      assert (s + [x])[1..] == s[1..] + [x];
      ReversedAppend(s[1..], x);
    }
  }
}
