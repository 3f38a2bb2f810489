/**
 * Chat turns, the prompt window sent to inference and the bounded
 * per-user history, as pure values (src/index.js, lines 21-45).
 */
module Turns {
  import opened Wrappers

  datatype Role = System | User | Assistant

  /** One `{ role, content }` entry; `content` is `None` when the request had no `message`. */
  datatype Turn = Turn(role: Role, content: Option<string>)

  const SystemInstruction: string :=
    "You are Nexus AI, an intelligent assistant with excellent memory. You remember everything from our conversation."
  const SystemTurn: Turn := Turn(System, Some(SystemInstruction))

  /** The most turns sent to inference. */
  const MaxWindow: nat := 10
  /** The most turns kept per user. */
  const MaxHistory: nat := 20

  function Min(a: int, b: int): int {
    if a <= b then a else b
  }

  function UserTurn(message: Option<string>): Turn {
    Turn(User, message)
  }

  function AssistantTurn(reply: string): Turn {
    Turn(Assistant, Some(reply))
  }

  /**
   * JavaScript's `s.slice(-k)`: the last `k` elements, or all of them when
   * there are fewer; since `-0` is `0`, `slice(-0)` copies the whole array.
   */
  function SliceFromEnd<T>(s: seq<T>, k: nat): seq<T> {
    if k == 0 || |s| <= k then s else s[|s| - k..]
  }

  /** `slice(-k)` keeps min(k, |s|) elements (all of them for k == 0), and they are a suffix of `s`. */
  lemma SliceFromEndShape<T>(s: seq<T>, k: nat)
    ensures |SliceFromEnd(s, k)| == if k == 0 then |s| else Min(k, |s|)
    ensures SliceFromEnd(s, k) == s[|s| - |SliceFromEnd(s, k)|..]
  {
  }

  /** Index `i` of both sides of `SliceFromEndAbsorbs`; a separate lemma keeps that proof small. */
  lemma SliceFromEndAbsorbsAt<T>(a: seq<T>, b: seq<T>, k: nat, i: nat)
    requires k > 0
    requires i < |SliceFromEnd(a + b, k)|
    ensures |SliceFromEnd(SliceFromEnd(a, k) + b, k)| == |SliceFromEnd(a + b, k)|
    ensures SliceFromEnd(SliceFromEnd(a, k) + b, k)[i] == SliceFromEnd(a + b, k)[i]
  {
    var a' := SliceFromEnd(a, k);
    var lhs := SliceFromEnd(a' + b, k);
    var rhs := SliceFromEnd(a + b, k);
    SliceFromEndShape(a, k);
    SliceFromEndShape(a' + b, k);
    SliceFromEndShape(a + b, k);
    var j := |a' + b| - |lhs| + i;
    var j' := |a + b| - |rhs| + i;
    assert lhs[i] == (a' + b)[j];
    assert rhs[i] == (a + b)[j'];
    if j < |a'| {
      assert (a' + b)[j] == a'[j] == a[|a| - |a'| + j];
      assert j' == |a| - |a'| + j;
    } else {
      assert (a' + b)[j] == b[j - |a'|];
      assert j' - |a| == j - |a'|;
    }
  }

  /** Taking the last `k` twice, with more appended in between, is taking the last `k` once. */
  lemma SliceFromEndAbsorbs<T>(a: seq<T>, b: seq<T>, k: nat)
    ensures SliceFromEnd(SliceFromEnd(a, k) + b, k) == SliceFromEnd(a + b, k)
  {
    if k > 0 {
      var lhs := SliceFromEnd(SliceFromEnd(a, k) + b, k);
      var rhs := SliceFromEnd(a + b, k);
      SliceFromEndShape(a + b, k);
      SliceFromEndShape(SliceFromEnd(a, k) + b, k);
      SliceFromEndShape(a, k);
      assert |lhs| == |rhs|;
      forall i | 0 <= i < |rhs|
        ensures lhs[i] == rhs[i]
      {
        SliceFromEndAbsorbsAt(a, b, k, i);
      }
    }
  }

  /** The full prompt before windowing: the system turn, the history, then the new user turn. */
  function Prompt(history: seq<Turn>, message: Option<string>): seq<Turn> {
    [SystemTurn] + history + [UserTurn(message)]
  }

  /** The turns passed to inference: the last `MaxWindow` of the full prompt. */
  function Window(history: seq<Turn>, message: Option<string>): seq<Turn> {
    SliceFromEnd(Prompt(history, message), MaxWindow)
  }

  /** The window has min(10, |history| + 2) turns, is a suffix of the full prompt, and ends with the new user turn. */
  lemma WindowShape(history: seq<Turn>, message: Option<string>)
    ensures |Window(history, message)| == Min(MaxWindow, |history| + 2)
    ensures Window(history, message) == Prompt(history, message)[|history| + 2 - |Window(history, message)|..]
    ensures Window(history, message)[|Window(history, message)| - 1] == UserTurn(message)
  {
    SliceFromEndShape(Prompt(history, message), MaxWindow);
  }

  /** The system turn is kept while the whole prompt fits; after that the window is the last nine history turns and the new one. */
  lemma WindowCases(history: seq<Turn>, message: Option<string>)
    ensures |history| <= MaxWindow - 2 ==> Window(history, message) == Prompt(history, message)
    ensures |history| > MaxWindow - 2 ==>
      Window(history, message) == history[|history| - (MaxWindow - 1)..] + [UserTurn(message)]
  {
    var w := Window(history, message);
    var p := Prompt(history, message);
    WindowShape(history, message);
    if |history| > MaxWindow - 2 {
      var tail := history[|history| - (MaxWindow - 1)..] + [UserTurn(message)];
      assert |w| == |tail|;
      forall i | 0 <= i < |w|
        ensures w[i] == tail[i]
      {
        assert w[i] == p[|history| + 2 - MaxWindow + i];
      }
    }
  }

  /** No turn of `history` is a system turn. */
  predicate NoSystemTurns(history: seq<Turn>) {
    forall i :: 0 <= i < |history| ==> history[i].role != System
  }

  /** For a history without system turns, the window holds the system turn exactly when the history has at most 8 turns. */
  lemma WindowHasSystemIff(history: seq<Turn>, message: Option<string>)
    requires NoSystemTurns(history)
    ensures SystemTurn in Window(history, message) <==> |history| <= MaxWindow - 2
  {
    WindowCases(history, message);
    var w := Window(history, message);
    if |history| <= MaxWindow - 2 {
      assert w[0] == SystemTurn;
    }
  }

  /** The pair stored after a successful inference. */
  function Exchange(message: Option<string>, reply: string): seq<Turn> {
    [UserTurn(message), AssistantTurn(reply)]
  }

  /** The history after a successful request: the pair is appended, then only the last `MaxHistory` turns are kept. */
  function Appended(history: seq<Turn>, message: Option<string>, reply: string): seq<Turn> {
    SliceFromEnd(history + Exchange(message, reply), MaxHistory)
  }

  /**
   * The new history has min(20, |history| + 2) turns, is a suffix of the old one
   * with the pair appended, and ends with that pair.
   */
  lemma AppendedShape(history: seq<Turn>, message: Option<string>, reply: string)
    ensures |Appended(history, message, reply)| == Min(MaxHistory, |history| + 2)
    ensures Appended(history, message, reply)
         == (history + Exchange(message, reply))[|history| + 2 - |Appended(history, message, reply)|..]
    ensures Appended(history, message, reply)[|Appended(history, message, reply)| - 2..] == Exchange(message, reply)
  {
    var e := Exchange(message, reply);
    var h := Appended(history, message, reply);
    SliceFromEndShape(history + e, MaxHistory);
    assert h[|h| - 2..] == (history + e)[|history|..];
  }

  /** Whole user/assistant pairs, oldest first: user, assistant, user, assistant, ... */
  predicate Alternating(history: seq<Turn>)
    decreases |history|
  {
    history == [] || (|history| >= 2 && history[0].role == User && history[1].role == Assistant && Alternating(history[2..]))
  }

  /** What every stored history satisfies: whole user/assistant pairs, at most 20 turns. */
  predicate ValidHistory(history: seq<Turn>) {
    |history| <= MaxHistory && Alternating(history)
  }

  /** An alternating history has even length and no system turn. */
  lemma {:induction false} AlternatingShape(history: seq<Turn>)
    requires Alternating(history)
    ensures |history| % 2 == 0
    ensures NoSystemTurns(history)
    decreases |history|
  {
    if history != [] {
      AlternatingShape(history[2..]);
      forall i | 0 <= i < |history|
        ensures history[i].role != System
      {
        if i >= 2 {
          assert history[i] == history[2..][i - 2];
        }
      }
    }
  }

  /** Appending one user/assistant pair keeps a history alternating. */
  lemma {:induction false} AlternatingAppend(history: seq<Turn>, message: Option<string>, reply: string)
    requires Alternating(history)
    ensures Alternating(history + Exchange(message, reply))
    decreases |history|
  {
    var e := Exchange(message, reply);
    if history == [] {
      assert history + e == e;
      assert e[2..] == [];
    } else {
      AlternatingAppend(history[2..], message, reply);
      assert (history + e)[2..] == history[2..] + e;
    }
  }

  /** Appending a pair to a full history evicts exactly the oldest pair; otherwise nothing is evicted. */
  lemma AppendedCases(history: seq<Turn>, message: Option<string>, reply: string)
    requires ValidHistory(history)
    ensures |history| < MaxHistory ==> Appended(history, message, reply) == history + Exchange(message, reply)
    ensures |history| == MaxHistory ==> Appended(history, message, reply) == history[2..] + Exchange(message, reply)
  {
    AlternatingShape(history);
    AppendedShape(history, message, reply);
    var e := Exchange(message, reply);
    if |history| == MaxHistory {
      assert (history + e)[2..] == history[2..] + e;
    }
  }

  /** Each successful exchange keeps the stored history valid. */
  lemma AppendedPreservesValid(history: seq<Turn>, message: Option<string>, reply: string)
    requires ValidHistory(history)
    ensures ValidHistory(Appended(history, message, reply))
  {
    AppendedCases(history, message, reply);
    AlternatingShape(history);
    if |history| < MaxHistory {
      AlternatingAppend(history, message, reply);
    } else {
      var rest := history[2..];
      assert Alternating(rest);
      AlternatingAppend(rest, message, reply);
    }
  }

  /** The turns that a run of successful exchanges appends, before any truncation. */
  function Flatten(exchanges: seq<(Option<string>, string)>): (turns: seq<Turn>)
    ensures |turns| == 2 * |exchanges|
  {
    if exchanges == [] then [] else Exchange(exchanges[0].0, exchanges[0].1) + Flatten(exchanges[1..])
  }

  /** The history after a run of successful exchanges, one `Appended` at a time. */
  function Conversation(history: seq<Turn>, exchanges: seq<(Option<string>, string)>): seq<Turn>
    decreases |exchanges|
  {
    if exchanges == [] then history
    else Conversation(Appended(history, exchanges[0].0, exchanges[0].1), exchanges[1..])
  }

  /** Unfolds `Conversation` once; a separate lemma keeps the proof of `ConversationStep` small. */
  lemma ConversationUnfold(history: seq<Turn>, exchanges: seq<(Option<string>, string)>)
    requires exchanges != []
    ensures Conversation(history, exchanges)
         == Conversation(Appended(history, exchanges[0].0, exchanges[0].1), exchanges[1..])
  {
  }

  /** Unfolds `Flatten` once under a prefix; a separate lemma keeps the proof of `ConversationStep` small. */
  lemma FlattenUnfold(history: seq<Turn>, exchanges: seq<(Option<string>, string)>)
    requires exchanges != []
    ensures history + Exchange(exchanges[0].0, exchanges[0].1) + Flatten(exchanges[1..]) == history + Flatten(exchanges)
  {
    assert Flatten(exchanges) == Exchange(exchanges[0].0, exchanges[0].1) + Flatten(exchanges[1..]);
  }

  /** Truncating right after an exchange changes nothing about the last 20 of what follows. */
  lemma AppendedAbsorbs(history: seq<Turn>, message: Option<string>, reply: string, more: seq<Turn>)
    ensures SliceFromEnd(Appended(history, message, reply) + more, MaxHistory)
         == SliceFromEnd(history + Exchange(message, reply) + more, MaxHistory)
  {
    SliceFromEndAbsorbs(history + Exchange(message, reply), more, MaxHistory);
  }

  /** One exchange, then the rest: the inductive step of `ConversationKeepsMostRecent`. */
  lemma ConversationStep(history: seq<Turn>, exchanges: seq<(Option<string>, string)>)
    requires exchanges != []
    requires Conversation(Appended(history, exchanges[0].0, exchanges[0].1), exchanges[1..])
          == SliceFromEnd(Appended(history, exchanges[0].0, exchanges[0].1) + Flatten(exchanges[1..]), MaxHistory)
    ensures Conversation(history, exchanges) == SliceFromEnd(history + Flatten(exchanges), MaxHistory)
  {
    ConversationUnfold(history, exchanges);
    FlattenUnfold(history, exchanges);
    AppendedAbsorbs(history, exchanges[0].0, exchanges[0].1, Flatten(exchanges[1..]));
  }

  /** Truncating after every exchange keeps the same turns as truncating once at the end: the most recent 20. */
  lemma {:induction false} ConversationKeepsMostRecent(history: seq<Turn>, exchanges: seq<(Option<string>, string)>)
    requires |history| <= MaxHistory
    ensures Conversation(history, exchanges) == SliceFromEnd(history + Flatten(exchanges), MaxHistory)
    decreases |exchanges|
  {
    if exchanges == [] {
      assert history + Flatten(exchanges) == history;
    } else {
      var next := Appended(history, exchanges[0].0, exchanges[0].1);
      AppendedShape(history, exchanges[0].0, exchanges[0].1);
      ConversationKeepsMostRecent(next, exchanges[1..]);
      ConversationStep(history, exchanges);
    }
  }

  /** After N successful exchanges from an empty history, the history has min(2N, 20) turns. */
  lemma BoundedHistory(exchanges: seq<(Option<string>, string)>)
    ensures |Conversation([], exchanges)| == Min(2 * |exchanges|, MaxHistory)
    ensures ValidHistory(Conversation([], exchanges))
  {
    ConversationKeepsMostRecent([], exchanges);
    SliceFromEndShape([] + Flatten(exchanges), MaxHistory);
    ConversationStaysValid([], exchanges);
  }

  lemma {:induction false} ConversationStaysValid(history: seq<Turn>, exchanges: seq<(Option<string>, string)>)
    requires ValidHistory(history)
    ensures ValidHistory(Conversation(history, exchanges))
    decreases |exchanges|
  {
    if exchanges != [] {
      AppendedPreservesValid(history, exchanges[0].0, exchanges[0].1);
      ConversationStaysValid(Appended(history, exchanges[0].0, exchanges[0].1), exchanges[1..]);
    }
  }

  /** Eleven exchanges from an empty history keep the last ten pairs; the first pair is gone. */
  lemma EleventhExchangeEvictsFirst(exchanges: seq<(Option<string>, string)>)
    requires |exchanges| == 11
    ensures Conversation([], exchanges) == Flatten(exchanges[1..])
  {
    ConversationKeepsMostRecent([], exchanges);
    assert [] + Flatten(exchanges) == Flatten(exchanges);
    SliceFromEndShape(Flatten(exchanges), MaxHistory);
    assert Flatten(exchanges) == Exchange(exchanges[0].0, exchanges[0].1) + Flatten(exchanges[1..]);
  }
}
