/** `ConversationMemory` of src/rag_engine.py: per-session message lists with a length cap. */
module Memory {
  import opened Builtins

  /** `config.MAX_CONVERSATION_HISTORY` with no environment override. */
  const MaxConversationHistory: int := 5

  /** One `{"role": ..., "content": ...}` entry of a session's list. */
  datatype Message = Message(role: string, content: string)

  /**
   * The list `add_message` leaves behind: the message is appended, and when the
   * list is longer than `2 * maxHistory` it is cut to `list[-maxHistory * 2:]`.
   * With `maxHistory >= 1` this keeps the newest `2 * maxHistory` messages; with
   * `maxHistory == 0` the slice `[-0:]` keeps the whole list, so nothing is ever dropped.
   */
  function Appended(history: seq<Message>, m: Message, maxHistory: int): (r: seq<Message>)
    ensures |r| <= |history| + 1 && r == (history + [m])[|history| + 1 - |r|..]
    ensures maxHistory >= 1 ==> |r| == Min(|history| + 1, 2 * maxHistory)
    ensures maxHistory >= 0 ==> r != [] && r[|r| - 1] == m
    ensures maxHistory == 0 ==> r == history + [m]
  {
    var h := history + [m];
    if |h| > maxHistory * 2 then PySliceFrom(h, -maxHistory * 2) else h
  }

  /** Sessions that `chat` fills: user and assistant turns alternating, starting with a user turn. */
  ghost predicate Paired(h: seq<Message>) {
    |h| % 2 == 0 && forall i | 0 <= i < |h| :: h[i].role == if i % 2 == 0 then "user" else "assistant"
  }

  /**
   * A full `chat` turn (user message, then assistant message) keeps a paired
   * history paired: the cap never leaves half an exchange behind.
   */
  lemma {:induction false} TurnKeepsPairs(h: seq<Message>, query: string, reply: string, maxHistory: int)
    requires maxHistory >= 1 && Paired(h)
    ensures Paired(Appended(Appended(h, Message("user", query), maxHistory), Message("assistant", reply), maxHistory))
  {
    var u, a := Message("user", query), Message("assistant", reply);
    TwoAppends(h, u, a, maxHistory);
    var off := |h| + 2 - Min(|h| + 2, 2 * maxHistory);
    EvenOffset(|h|, maxHistory);
    PairedExtend(h, u, a);
    PairedSuffix(h + [u, a], off);
  }

  /** Cutting an even-length list to an even cap drops an even number of entries. */
  lemma EvenOffset(n: nat, maxHistory: int)
    requires n % 2 == 0 && maxHistory >= 1
    ensures var off := n + 2 - Min(n + 2, 2 * maxHistory); 0 <= off <= n + 2 && off % 2 == 0
  {
    if n + 2 > 2 * maxHistory {
      assert n + 2 - 2 * maxHistory == 2 * ((n + 2) / 2 - maxHistory);
    }
  }

  /** Two appends in a row keep the newest `min(|h| + 2, 2 * maxHistory)` messages of `h + [u, a]`. */
  lemma TwoAppends(h: seq<Message>, u: Message, a: Message, maxHistory: int)
    requires maxHistory >= 1
    ensures Appended(Appended(h, u, maxHistory), a, maxHistory)
      == (h + [u, a])[|h| + 2 - Min(|h| + 2, 2 * maxHistory)..]
  {
    var h1 := Appended(h, u, maxHistory);
    var o1 := |h| + 1 - |h1|;
    var r := Appended(h1, a, maxHistory);
    SnocSlice(h + [u], o1, a);
    SnocSnoc(h, u, a);
    SliceOfSlice(h + [u, a], o1, |h1| + 1 - |r|);
  }

  lemma PairedExtend(h: seq<Message>, u: Message, a: Message)
    requires Paired(h) && u.role == "user" && a.role == "assistant"
    ensures Paired(h + [u, a])
  {
    var full := h + [u, a];
    var n := |h| / 2;
    assert |h| == 2 * n;
    forall i | 0 <= i < |full|
      ensures full[i].role == if i % 2 == 0 then "user" else "assistant"
    {
      if i < |h| { assert full[i] == h[i]; }
      else if i == |h| { assert i % 2 == 0; }
      else { assert i == 2 * n + 1; }
    }
  }

  lemma PairedSuffix(h: seq<Message>, off: int)
    requires Paired(h) && 0 <= off <= |h| && off % 2 == 0
    ensures Paired(h[off..])
  {
    var j := off / 2;
    assert off == 2 * j;
    var t := h[off..];
    forall i | 0 <= i < |t|
      ensures t[i].role == if i % 2 == 0 then "user" else "assistant"
    {
      assert t[i] == h[2 * j + i];
      assert (2 * j + i) % 2 == i % 2;
    }
  }

  /** With a cap of at least one exchange, no session holds more than `2 * maxHistory` messages. */
  ghost predicate Bounded(conversations: map<string, seq<Message>>, maxHistory: int) {
    maxHistory >= 1 ==> forall s | s in conversations :: |conversations[s]| <= 2 * maxHistory
  }

  /** Storing a list within the cap keeps every session within it. */
  lemma BoundedUpdate(conversations: map<string, seq<Message>>, sessionId: string, h: seq<Message>, maxHistory: int)
    requires Bounded(conversations, maxHistory)
    requires maxHistory >= 1 ==> |h| <= 2 * maxHistory
    ensures Bounded(conversations[sessionId := h], maxHistory)
  {
  }

  class ConversationMemory {
    const maxHistory: int
    var conversations: map<string, seq<Message>>

    ghost predicate Valid()
      reads this
    {
      Bounded(conversations, maxHistory)
    }

    /** `ConversationMemory(max_history=None)` falls back to the configured default. */
    constructor (maxHistory: Option<int>)
      ensures this.maxHistory == maxHistory.GetOr(MaxConversationHistory)
      ensures conversations == map[]
      ensures Valid()
    {
      this.maxHistory := maxHistory.GetOr(MaxConversationHistory);
      conversations := map[];
    }

    /** `get_conversation_history`: the stored list, or `[]` for a session never seen or cleared. */
    function GetConversationHistory(sessionId: string): (h: seq<Message>)
      reads this
      ensures sessionId in conversations ==> h == conversations[sessionId]
      ensures sessionId !in conversations ==> h == []
    {
      if sessionId in conversations then conversations[sessionId] else []
    }

    /** `add_message`: the session's list becomes `Appended` of its old list; no other session changes. */
    method AddMessage(sessionId: string, role: string, content: string)
      modifies this
      ensures old(Valid()) ==> Valid()
      ensures conversations ==
        old(conversations)[sessionId := Appended(old(GetConversationHistory(sessionId)), Message(role, content), maxHistory)]
      ensures forall s | s != sessionId :: GetConversationHistory(s) == old(GetConversationHistory(s))
    {
      ghost var before := conversations;
      ghost var target := Appended(GetConversationHistory(sessionId), Message(role, content), maxHistory);
      if sessionId !in conversations {
        conversations := conversations[sessionId := []];
      }
      assert conversations == before[sessionId := conversations[sessionId]];
      var list := conversations[sessionId] + [Message(role, content)];
      UpdateTwice(before, sessionId, conversations[sessionId], list);
      conversations := conversations[sessionId := list];
      if |list| > maxHistory * 2 {
        UpdateTwice(before, sessionId, list, PySliceFrom(list, -maxHistory * 2));
        conversations := conversations[sessionId := PySliceFrom(list, -maxHistory * 2)];
      }
      assert conversations[sessionId] == target;
      if Bounded(before, maxHistory) {
        BoundedUpdate(before, sessionId, target, maxHistory);
      }
    }

    /** `clear_conversation`: the session is removed (nothing happens if it is absent); others stay. */
    method ClearConversation(sessionId: string)
      modifies this
      ensures old(Valid()) ==> Valid()
      ensures conversations == old(conversations) - {sessionId}
      ensures GetConversationHistory(sessionId) == []
      ensures forall s | s != sessionId :: GetConversationHistory(s) == old(GetConversationHistory(s))
    {
      if sessionId in conversations {
        conversations := conversations - {sessionId};
      }
    }
  }
}
