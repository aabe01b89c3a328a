/** The floating chat assistant: a transcript that opens with a greeting,
    user messages appended on send, and a canned reply appended by a timer
    one second later. A timer is modelled as a pending reply that a
    separate step delivers. */
module ChatBot {
  import opened Text

  datatype Speaker = User | Assistant

  datatype Message = Message(role: Speaker, content: string)

  const Greeting := Message(Assistant, "Hello! I'm here to help you with organ donation queries. How can I assist you today?")

  const CannedReply := Message(Assistant, "Thank you for your question. Our AI assistant will be fully functional once the backend is connected. For now, please reach out to our support team at support@organconnect.in.")

  /** How many messages of `ms` come from `role`. */
  function CountBy(ms: seq<Message>, role: Speaker): (n: nat)
    ensures n <= |ms|
  {
    if ms == [] then 0
    else CountBy(ms[..|ms| - 1], role) + (if ms[|ms| - 1].role == role then 1 else 0)
  }

  lemma CountByAppend(ms: seq<Message>, m: Message, role: Speaker)
    ensures CountBy(ms + [m], role) == CountBy(ms, role) + (if m.role == role then 1 else 0)
  {
    assert (ms + [m])[..|ms|] == ms;
  }

  /** The greeting comes first, every later assistant message is the
      canned reply, and each user message has been answered or has one of
      the `pending` replies still to come. */
  ghost predicate Transcript(ms: seq<Message>, pending: nat) {
    && |ms| >= 1 && ms[0] == Greeting
    && (forall i :: 1 <= i < |ms| && ms[i].role == Assistant ==> ms[i] == CannedReply)
    && CountBy(ms, User) == CountBy(ms, Assistant) - 1 + pending
  }

  /** A user message adds one pending reply. */
  lemma SendKeepsTranscript(ms: seq<Message>, pending: nat, content: string)
    requires Transcript(ms, pending)
    ensures Transcript(ms + [Message(User, content)], pending + 1)
  {
    CountByAppend(ms, Message(User, content), User);
    CountByAppend(ms, Message(User, content), Assistant);
  }

  /** A delivered reply settles one pending reply. */
  lemma ReplyKeepsTranscript(ms: seq<Message>, pending: nat)
    requires Transcript(ms, pending) && pending > 0
    ensures Transcript(ms + [CannedReply], pending - 1)
  {
    CountByAppend(ms, CannedReply, User);
    CountByAppend(ms, CannedReply, Assistant);
  }

  class ChatWindow {
    var isOpen: bool
    var messages: seq<Message>
    var input: string
    /** Replies scheduled by a send whose timer has not fired yet. */
    var pendingReplies: nat

    ghost predicate Valid()
      reads this
    {
      Transcript(messages, pendingReplies)
    }

    constructor ()
      ensures Valid()
      ensures !isOpen && messages == [Greeting] && input == "" && pendingReplies == 0
    {
      isOpen := false;
      messages := [Greeting];
      input := "";
      pendingReplies := 0;
      assert [Greeting][..0] == [];
    }

    /** The floating button and the close button. */
    method SetOpen(open: bool)
      modifies this`isOpen
      ensures isOpen == open
    {
      isOpen := open;
    }

    /** The input's `onChange`. */
    method SetInput(value: string)
      modifies this`input
      ensures input == value
    {
      input := value;
    }

    /** `handleSend` (the send button, or Enter in the input). Input that is
        empty or only whitespace is ignored; otherwise the input is sent
        untrimmed, cleared, and a reply is scheduled. */
    method HandleSend()
      requires Valid()
      modifies this`messages, this`input, this`pendingReplies
      ensures Valid()
      ensures Blank(old(input)) ==>
        messages == old(messages) && input == old(input) && pendingReplies == old(pendingReplies)
      ensures !Blank(old(input)) ==>
        && messages == old(messages) + [Message(User, old(input))]
        && input == "" && pendingReplies == old(pendingReplies) + 1
    {
      TrimEmptyIffBlank(input);
      if Trim(input) == "" {
        return;
      }
      SendKeepsTranscript(messages, pendingReplies, input);
      messages := messages + [Message(User, input)];
      input := "";
      pendingReplies := pendingReplies + 1;
    }

    /** The timer of an earlier send fires and appends the canned reply. */
    method DeliverReply()
      requires Valid() && pendingReplies > 0
      modifies this`messages, this`pendingReplies
      ensures Valid()
      ensures messages == old(messages) + [CannedReply]
      ensures pendingReplies == old(pendingReplies) - 1
    {
      ReplyKeepsTranscript(messages, pendingReplies);
      messages := messages + [CannedReply];
      pendingReplies := pendingReplies - 1;
    }
  }

  /** Once every scheduled reply is delivered, the transcript holds exactly
      one canned reply per user message, after the greeting. */
  lemma AllAnswered(ms: seq<Message>)
    requires |ms| >= 1 && ms[0] == Greeting
    requires CountBy(ms, User) == CountBy(ms, Assistant) - 1
    ensures CountBy(ms[1..], Assistant) == CountBy(ms[1..], User)
  {
    CountByPrefix(ms);
  }

  /** Dropping the first message removes exactly its own count. */
  lemma {:induction false} CountByPrefix(ms: seq<Message>)
    requires |ms| >= 1
    ensures forall role :: CountBy(ms, role) == CountBy(ms[1..], role) + (if ms[0].role == role then 1 else 0)
  {
    if |ms| > 1 {
      var init := ms[..|ms| - 1];
      CountByPrefix(init);
      assert init[1..] == ms[1..][..|ms[1..]| - 1];
      assert init[0] == ms[0];
    } else {
      assert ms[1..] == [];
      assert ms[..0] == [];
    }
  }
}
