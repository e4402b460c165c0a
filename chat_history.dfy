/** The client's chat history: the de-duplicating `receive_message` reducer, the bubble grouping
    of the history view, and the component state that `sendMessage` and the socket listener update. */
module ChatHistory {
  import opened Options
  import opened ChatMessages
  import opened RoomKeys

  type History = seq<ChatMessage>

  // ---------------------------------------------------------------------------
  // The receive reducer

  /** The listener's duplicate test: same id, or same text with the same time stamp. */
  predicate SameEntry(m: ChatMessage, data: ChatMessage)
  {
    m.id == data.id || (m.message == data.message && m.time == data.time)
  }

  /** `prev.find(...)` finds an entry. */
  predicate Seen(prev: History, data: ChatMessage)
  {
    exists i :: 0 <= i < |prev| && SameEntry(prev[i], data)
  }

  /** The state updater passed to `setChatHistory` on `receive_message`. */
  function Received(prev: History, data: ChatMessage): (next: History)
    ensures Seen(prev, data) ==> next == prev
    ensures !Seen(prev, data) ==> next == prev + [data]
    ensures Seen(next, data)
  {
    if Seen(prev, data) then prev
    else
      assert SameEntry((prev + [data])[|prev|], data);
      prev + [data]
  }

  /** Receiving the same payload twice gives what receiving it once gives. */
  lemma ReceivedIdempotent(prev: History, data: ChatMessage)
    ensures Received(Received(prev, data), data) == Received(prev, data)
  {
  }

  /** The listener applied to several deliveries in turn. */
  function ReceivedAll(prev: History, deliveries: seq<ChatMessage>): (next: History)
    decreases |deliveries|
  {
    if deliveries == [] then prev
    else ReceivedAll(Received(prev, deliveries[0]), deliveries[1..])
  }

  /** The history only ever grows at its end. */
  lemma {:induction false} ReceivedAllExtends(prev: History, deliveries: seq<ChatMessage>)
    ensures prev <= ReceivedAll(prev, deliveries)
    ensures |ReceivedAll(prev, deliveries)| <= |prev| + |deliveries|
    decreases |deliveries|
  {
    if deliveries != [] {
      ReceivedAllExtends(Received(prev, deliveries[0]), deliveries[1..]);
    }
  }

  /** Copies of a payload that the history already represents change nothing. */
  lemma {:induction false} ReceivedAllSeen(prev: History, data: ChatMessage, deliveries: seq<ChatMessage>)
    requires Seen(prev, data)
    requires forall i :: 0 <= i < |deliveries| ==> deliveries[i] == data
    ensures ReceivedAll(prev, deliveries) == prev
    decreases |deliveries|
  {
    if deliveries != [] {
      ReceivedAllSeen(prev, data, deliveries[1..]);
    }
  }

  /** A second message with the same text in the same minute is dropped, even with another id. */
  lemma ReceivedDropsRepeatedText(prev: History, first: ChatMessage, second: ChatMessage)
    requires first.id != second.id
    requires first.message == second.message && first.time == second.time
    ensures Received(prev + [first], second) == prev + [first]
  {
    assert SameEntry((prev + [first])[|prev|], second);
  }

  /** How many entries of `h` the duplicate test matches with `data`. */
  function CountSame(h: History, data: ChatMessage): (n: nat)
  {
    if h == [] then 0
    else CountSame(h[..|h| - 1], data) + (if SameEntry(h[|h| - 1], data) then 1 else 0)
  }

  lemma {:induction false} CountSameUnseen(h: History, data: ChatMessage)
    ensures CountSame(h, data) == 0 <==> !Seen(h, data)
  {
    if h != [] {
      var init := h[..|h| - 1];
      CountSameUnseen(init, data);
      if Seen(init, data) {
        var i :| 0 <= i < |init| && SameEntry(init[i], data);
        assert h[i] == init[i];
      }
      if Seen(h, data) && !SameEntry(h[|h| - 1], data) {
        var i :| 0 <= i < |h| && SameEntry(h[i], data);
        assert init[i] == h[i];
      }
    }
  }

  // ---------------------------------------------------------------------------
  // Bubble grouping

  /** `!prevMsg || prevMsg.author !== msg.author`: the entry opens a run of one author. */
  predicate IsFirst(h: History, i: nat)
    requires i < |h|
  {
    i == 0 || h[i - 1].author != h[i].author
  }

  /** `!nextMsg || nextMsg.author !== msg.author`: the entry closes a run of one author. */
  predicate IsLast(h: History, i: nat)
    requires i < |h|
  {
    i == |h| - 1 || h[i + 1].author != h[i].author
  }

  /** A run closes exactly where the next one opens. */
  lemma LastBeforeFirst(h: History, i: nat)
    requires i + 1 < |h|
    ensures IsLast(h, i) <==> IsFirst(h, i + 1)
  {
  }

  /** The entries from a run's first one up to before its next closing one share one author. */
  lemma {:induction false} RunHasOneAuthor(h: History, i: nat, j: nat)
    requires i <= j < |h|
    requires forall k :: i <= k < j ==> !IsLast(h, k)
    ensures forall k :: i <= k <= j ==> h[k].author == h[i].author
  {
    if i < j {
      RunHasOneAuthor(h, i, j - 1);
      assert !IsLast(h, j - 1);
    }
  }

  /** Every entry belongs to a run of one author that closes at or after it. */
  lemma {:induction false} RunCloses(h: History, i: nat)
    requires i < |h|
    ensures exists j :: i <= j < |h| && IsLast(h, j) && forall k :: i <= k <= j ==> h[k].author == h[i].author
    decreases |h| - i
  {
    if IsLast(h, i) {
      assert forall k :: i <= k <= i ==> h[k].author == h[i].author;
    } else {
      RunCloses(h, i + 1);
      var j :| i + 1 <= j < |h| && IsLast(h, j) && forall k :: i + 1 <= k <= j ==> h[k].author == h[i + 1].author;
      assert forall k :: i <= k <= j ==> h[k].author == h[i].author;
    }
  }

  // ---------------------------------------------------------------------------
  // The component state

  /** `!message || !currentChat`: an empty draft, no open chat, or an empty chat name. */
  predicate CannotSend(message: string, currentChat: Option<string>)
  {
    message == "" || currentChat == None || currentChat.value == ""
  }

  class ChatView {
    /** The logged-in user. */
    const username: string
    /** The friend whose chat is open, if any. */
    var currentChat: Option<string>
    /** The draft in the input box. */
    var message: string
    var history: History

    constructor (username: string)
      ensures this.username == username
      ensures currentChat == None && message == "" && history == []
    {
      this.username := username;
      currentChat := None;
      message := "";
      history := [];
    }

    /** Typing in the input box. */
    method Type(text: string)
      modifies this
      ensures message == text
      ensures currentChat == old(currentChat) && history == old(history)
    {
      message := text;
    }

    /** Clicking a friend: the chat opens and the history is cleared, then replaced by what the
        history request returns, if it succeeds. */
    method OpenChat(friend: string, fetched: Option<History>)
      modifies this
      ensures currentChat == Some(friend) && message == old(message)
      ensures history == if fetched.Some? then fetched.value else []
    {
      currentChat := Some(friend);
      history := [];
      if fetched.Some? {
        history := fetched.value;
      }
    }

    /** `sendMessage`: unless the guard stops it, appends the new payload to the history at once,
        clears the draft and returns the payload to emit as `send_message`. */
    method SendMessage(time: string, id: int) returns (emitted: Option<ChatMessage>)
      modifies this
      ensures currentChat == old(currentChat)
      ensures CannotSend(old(message), old(currentChat)) ==>
        emitted == None && message == old(message) && history == old(history)
      ensures !CannotSend(old(message), old(currentChat)) ==>
        var sent := ChatMessage(RoomKey(username, old(currentChat).value), username, old(message), Text, time, id);
        emitted == Some(sent) && history == old(history) + [sent] && message == ""
    {
      if CannotSend(message, currentChat) {
        return None;
      }
      var room := RoomKey(username, currentChat.value);
      var msgData := ChatMessage(room, username, message, Text, time, id);
      history := history + [msgData];
      message := "";
      emitted := Some(msgData);
    }

    /** The `receive_message` listener. */
    method Receive(data: ChatMessage)
      modifies this
      ensures history == Received(old(history), data)
      ensures currentChat == old(currentChat) && message == old(message)
    {
      if Seen(history, data) {
        return;
      }
      history := history + [data];
    }
  }
}
