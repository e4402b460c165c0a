/** What the client and the server do together: the server echoes every payload to its sender,
    and the client's own copy absorbs the echo; clients join the room of their own name but send
    to the pair key, so a peer is reached only through a socket that joined the pair key. */
module Conversation {
  import opened Options
  import opened ChatMessages
  import opened RoomKeys
  import opened SocketRouter
  import opened ChatHistory

  /** After the optimistic append, any number of server echoes of the payload leave the history
      as it was, whatever it held before. */
  lemma EchoAbsorbed(h: History, sent: ChatMessage, echoes: seq<ChatMessage>)
    requires forall i :: 0 <= i < |echoes| ==> echoes[i] == sent
    ensures ReceivedAll(h + [sent], echoes) == h + [sent]
  {
    assert SameEntry((h + [sent])[|h|], sent);
    ReceivedAllSeen(h + [sent], sent, echoes);
  }

  /** With a fresh id (the sender's clock), the history after the echoes holds the payload at exactly
      one position: the one the optimistic append gave it. */
  lemma EchoLeavesOneCopy(h: History, sent: ChatMessage, echoes: seq<ChatMessage>)
    requires forall i :: 0 <= i < |h| ==> h[i].id != sent.id
    requires forall i :: 0 <= i < |echoes| ==> echoes[i] == sent
    ensures var next := ReceivedAll(h + [sent], echoes);
      && |next| == |h| + 1 && next[|h|] == sent
      && forall j :: 0 <= j < |next| && next[j].id == sent.id ==> j == |h|
  {
    EchoAbsorbed(h, sent, echoes);
  }

  /** When nothing in the history matches the payload, not even by text and time, the echoes leave
      exactly one entry that the duplicate test matches with it. */
  lemma EchoLeavesOneMatch(h: History, sent: ChatMessage, echoes: seq<ChatMessage>)
    requires !Seen(h, sent)
    requires forall i :: 0 <= i < |echoes| ==> echoes[i] == sent
    ensures CountSame(ReceivedAll(h + [sent], echoes), sent) == 1
  {
    EchoAbsorbed(h, sent, echoes);
    assert (h + [sent])[..|h|] == h;
    CountSameUnseen(h, sent);
  }

  /** A peer socket that sits only in the room of its user's name and in the room of its own id
      receives nothing from a message sent to the pair key, for every pair of names; the sender
      receives at least its echo. */
  method SendMissesPeer(router: Router, sender: SocketId, peerSocket: SocketId, me: string, peer: string, data: ChatMessage)
    returns (recipients: multiset<SocketId>)
    requires router.Valid() && sender in router.connected
    requires peerSocket != sender
    requires forall r :: peerSocket in router.Members(r) ==> r == peer || r == peerSocket
    requires peerSocket != RoomKey(me, peer)
    requires data.room == RoomKey(me, peer)
    ensures recipients[peerSocket] == 0
    ensures recipients[sender] >= 1
  {
    RoomKeyIsNoName(me, peer);
    var payload;
    recipients, payload := router.SendMessage(sender, data);
  }

  /** Alice's client, with Bob's chat open, sends "hi". */
  method AliceSendsHi() returns (alice: ChatView, sent: ChatMessage)
    ensures fresh(alice) && alice.username == "alice"
    ensures sent.room == "alice_bob" && sent.author == "alice" && sent.message == "hi"
    ensures alice.history == [sent]
  {
    alice := new ChatView("alice");
    alice.OpenChat("bob", None);
    alice.Type("hi");
    RoomKeyExample();
    var emitted := alice.SendMessage("10:00", 1);
    assert !CannotSend("hi", Some("bob"));
    sent := emitted.value;
  }

  /** Two sockets, each in the room of its user's name, as the client joins after login; Bob's
      socket also joins "alice_bob" when `bobInPairRoom` holds. */
  method ConnectBoth(bobInPairRoom: bool) returns (router: Router)
    ensures fresh(router) && router.Valid()
    ensures "socket-a" in router.connected && "socket-b" in router.connected
    ensures "socket-a" !in router.Members("alice_bob")
    ensures "socket-b" in router.Members("alice_bob") <==> bobInPairRoom
  {
    router := new Router();
    router.Connect("socket-a");
    router.Connect("socket-b");
    router.JoinRoom("socket-a", "alice");
    router.JoinRoom("socket-b", "bob");
    if bobInPairRoom {
      router.JoinRoom("socket-b", "alice_bob");
    }
  }

  /** Alice and Bob each join the room of their own name; Alice sends "hi" to Bob. The payload
      names the room "alice_bob", which no socket joined, so only Alice's socket receives it (the
      echo), her history keeps a single copy, and Bob receives nothing. */
  method UsernameRoomsMissPeer() returns (sent: ChatMessage, aliceCopies: nat, bobCopies: nat, aliceHistory: History)
    ensures sent.room == "alice_bob" && sent.author == "alice" && sent.message == "hi"
    ensures aliceCopies == 1 && bobCopies == 0
    ensures aliceHistory == [sent]
  {
    var alice;
    alice, sent := AliceSendsHi();
    var router := ConnectBoth(false);
    var recipients, payload := router.SendMessage("socket-a", sent);
    aliceCopies, bobCopies := recipients["socket-a"], recipients["socket-b"];
    alice.Receive(payload);
    aliceHistory := alice.history;
  }

  /** The same conversation when Bob's socket has also joined the pair-key room: Bob's view then
      receives the payload once, and so does Alice's. */
  method PairRoomReachesPeer() returns (sent: ChatMessage, aliceCopies: nat, bobCopies: nat, bobHistory: History)
    ensures sent.room == "alice_bob" && sent.author == "alice" && sent.message == "hi"
    ensures aliceCopies == 1 && bobCopies == 1
    ensures bobHistory == [sent]
  {
    var alice;
    alice, sent := AliceSendsHi();
    var bob := new ChatView("bob");
    var router := ConnectBoth(true);
    var recipients, payload := router.SendMessage("socket-a", sent);
    aliceCopies, bobCopies := recipients["socket-a"], recipients["socket-b"];
    bob.Receive(payload);
    bobHistory := bob.history;
  }
}
