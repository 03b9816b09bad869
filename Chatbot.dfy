/** The Livewire chat component: a transcript of user and bot messages and the text being
    typed. Sending a message that is not blank appends it and the bot's reply, and clears
    the input. The reply comes from the Python service over HTTP, which is a parameter here. */
module Chatbot {
  import opened Wrappers
  import opened Text

  /** The characters PHP's `trim` removes by default: space, tab, line feed, carriage return,
      NUL and vertical tab. */
  predicate IsPhpSpace(c: char) {
    c == ' ' || c == '\t' || c == '\n' || c == '\r' || c == '\0' || c == '\U{B}'
  }

  function PhpTrim(s: string): (t: string)
    ensures (t == []) <==> forall i :: 0 <= i < |s| ==> IsPhpSpace(s[i])
  {
    var t := Trim(s, IsPhpSpace);
    TrimShape(s, IsPhpSpace, |s| - |TrimStart(s, IsPhpSpace)|);
    t
  }

  /** PHP's `empty` on a string: the empty string and "0". */
  predicate PhpEmpty(s: string) {
    s == "" || s == "0"
  }

  /** The guard of `sendMessage`. */
  predicate IsBlank(s: string) {
    PhpEmpty(PhpTrim(s))
  }

  datatype Sender = User | Bot

  /** One transcript entry: `['content' => ..., 'sender' => ...]`. */
  datatype Message = Message(content: string, sender: Sender)

  /** The outcome of the POST to the Python service: no connection (the client throws), an
      unsuccessful status, or a successful one with the JSON body's `response` field, `None`
      when it is missing or null. */
  datatype BackendReply = Unreachable | Unsuccessful | Successful(response: Option<string>)

  const NotUnderstood := "Sorry, I could not understand that."
  const ConnectionError := "Sorry, there was an error connecting to the bot."

  /** `sendToPythonBackend` once the request has returned. */
  function BotText(reply: BackendReply): (t: string)
    requires !reply.Unreachable?
    ensures reply.Successful? && reply.response.Some? ==> t == reply.response.value
    ensures reply.Successful? && reply.response.None? ==> t == NotUnderstood
    ensures reply.Unsuccessful? ==> t == ConnectionError
  {
    match reply
    case Successful(r) => r.GetOr(NotUnderstood)
    case Unsuccessful => ConnectionError
  }

  /** Trimming leaves a text alone whose ends are not white space. */
  lemma TrimKeeps(s: string)
    requires s != [] && !IsPhpSpace(s[0]) && !IsPhpSpace(s[|s| - 1])
    ensures PhpTrim(s) == s
  {
    assert TrimStart(s, IsPhpSpace) == s;
  }

  /** Because of `empty`, a message that trims to "0" is blank too. */
  lemma ZeroIsBlank()
    ensures IsBlank(" 0 ")
  {
    var z := " 0 ";
    assert TrimStart(z, IsPhpSpace) == "0 " by {
      assert z[1..] == "0 ";
    }
    assert TrimEnd("0 ", IsPhpSpace) == "0" by {
      assert "0 "[..1] == "0";
    }
    assert PhpTrim(z) == "0";
  }

  /** A longer text of zeros is not blank. */
  lemma DoubleZeroNotBlank()
    ensures !IsBlank("00")
  {
    TrimKeeps("00");
  }

  /** Whatever the text, a message that is all white space is blank. */
  lemma WhiteSpaceIsBlank(s: string)
    requires forall i :: 0 <= i < |s| ==> IsPhpSpace(s[i])
    ensures IsBlank(s)
  {
  }

  /** The transcript and the input as a value. */
  datatype ChatState = ChatState(messages: seq<Message>, newMessage: string)

  /** The state after `sendMessage` given how the request ends; a request that throws is
      discarded as a whole, so the state of before it is kept. */
  function AfterSend(s: ChatState, reply: BackendReply): (r: ChatState)
    ensures IsBlank(s.newMessage) || reply.Unreachable? ==> r == s
    ensures !IsBlank(s.newMessage) && !reply.Unreachable? ==>
      |r.messages| == |s.messages| + 2 && r.messages[..|s.messages|] == s.messages
      && r.messages[|s.messages|] == Message(s.newMessage, User)
      && r.messages[|s.messages| + 1] == Message(BotText(reply), Bot)
      && r.newMessage == ""
  {
    if IsBlank(s.newMessage) || reply.Unreachable? then s
    else ChatState(s.messages + [Message(s.newMessage, User), Message(BotText(reply), Bot)], "")
  }

  /** The transcript only grows: over any session of typed and sent messages every earlier
      message keeps its place. */
  lemma {:induction false} AppendOnly(s: ChatState, turns: seq<(string, BackendReply)>)
    ensures var r := SendAll(s, turns);
      |s.messages| <= |r.messages| && r.messages[..|s.messages|] == s.messages
    decreases |turns|
  {
    if turns != [] {
      var mid := SendAll(s, turns[..|turns| - 1]);
      AppendOnly(s, turns[..|turns| - 1]);
      var (text, reply) := turns[|turns| - 1];
      var r := AfterSend(mid.(newMessage := text), reply);
      assert r.messages[..|s.messages|] == r.messages[..|mid.messages|][..|s.messages|];
    }
  }

  /** A session: each turn types a text into the input (`wire:model`) and then sends it with
      the backend's reply for that request. */
  function SendAll(s: ChatState, turns: seq<(string, BackendReply)>): ChatState
    decreases |turns|
  {
    if turns == [] then s
    else
      var (text, reply) := turns[|turns| - 1];
      AfterSend(SendAll(s, turns[..|turns| - 1]).(newMessage := text), reply)
  }

  class ChatbotComponent {
    var messages: seq<Message>
    var newMessage: string

    function State(): ChatState
      reads this
    {
      ChatState(messages, newMessage)
    }

    constructor()
      ensures State() == ChatState([], "")
    {
      messages := [];
      newMessage := "";
    }

    /** The text area bound with `wire:model`. */
    method Type(text: string)
      modifies this
      ensures State() == old(State()).(newMessage := text)
    {
      newMessage := text;
    }

    /** `sendMessage`, with the outcome of the request to the Python service as a parameter. */
    method SendMessage(reply: BackendReply)
      modifies this
      ensures State() == AfterSend(old(State()), reply)
    {
      if IsBlank(newMessage) || reply.Unreachable? {
        return;
      }
      var userMessage := Message(newMessage, User);
      var botMessage := Message(BotText(reply), Bot);
      messages := messages + [userMessage, botMessage];
      newMessage := "";
    }
  }
}
