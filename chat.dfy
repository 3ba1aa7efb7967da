/** src/chat.rs: the messages of a conversation and the history the
    frontend keeps of them. The clock `Message::new` reads is a parameter:
    every new message is given its `time_iso` text. */
module Chat {

  datatype Sender = User | ChatClm

  datatype Message = Message(message: string, timeIso: string, sender: Sender)

  /** `Message::is_user_msg` (lines 15-17). */
  predicate IsUserMsg(m: Message)
  {
    m.sender == User
  }

  /** A message comes from the user or from ChatCLM, never both. */
  lemma IsUserMsgExactly(m: Message)
    ensures IsUserMsg(m) <==> m.sender != ChatClm
  {
  }

  /** `replace_last_server_message` on the list of messages: the text of the
      last message is replaced when ChatCLM sent it. */
  function WithLastServerMessage(messages: seq<Message>, text: string): (r: seq<Message>)
    ensures |r| == |messages|
  {
    if messages != [] && messages[|messages| - 1].sender == ChatClm
    then messages[|messages| - 1 := messages[|messages| - 1].(message := text)]
    else messages
  }

  /** After ChatCLM's last message only its text has changed: every earlier
      message, and its sender and time stamp, stay as they were. */
  lemma WithLastServerMessageReplaces(messages: seq<Message>, text: string)
    requires messages != [] && messages[|messages| - 1].sender == ChatClm
    ensures var r := WithLastServerMessage(messages, text);
      r[..|r| - 1] == messages[..|messages| - 1]
      && r[|r| - 1] == Message(text, messages[|messages| - 1].timeIso, ChatClm)
  {
  }

  /** On an empty history, or when the user spoke last, nothing changes. */
  lemma WithLastServerMessageKeeps(messages: seq<Message>, text: string)
    requires messages == [] || IsUserMsg(messages[|messages| - 1])
    ensures WithLastServerMessage(messages, text) == messages
  {
  }

  /** Asking twice is asking once with the later text. */
  lemma WithLastServerMessageTwice(messages: seq<Message>, a: string, b: string)
    ensures WithLastServerMessage(WithLastServerMessage(messages, a), b)
      == WithLastServerMessage(messages, b)
  {
  }

  /** `ChatHistory` (lines 28-53). */
  class ChatHistory {
    var messages: seq<Message>

    /** `ChatHistory::default`. */
    constructor ()
      ensures messages == []
    {
      messages := [];
    }

    /** `add_message`: push. */
    method AddMessage(m: Message)
      modifies this
      ensures messages == old(messages) + [m]
    {
      messages := messages + [m];
    }

    /** `new_server_message`: exactly one message from ChatCLM is appended. */
    method NewServerMessage(text: string, timeIso: string)
      modifies this
      ensures messages == old(messages) + [Message(text, timeIso, ChatClm)]
      ensures !IsUserMsg(messages[|messages| - 1])
    {
      AddMessage(Message(text, timeIso, ChatClm));
    }

    /** `new_user_message`: exactly one message from the user is appended. */
    method NewUserMessage(text: string, timeIso: string)
      modifies this
      ensures messages == old(messages) + [Message(text, timeIso, User)]
      ensures IsUserMsg(messages[|messages| - 1])
    {
      AddMessage(Message(text, timeIso, User));
    }

    /** `replace_last_server_message`: through `last_mut`, the text of the
        last message when ChatCLM sent it. */
    method ReplaceLastServerMessage(text: string)
      modifies this
      ensures messages == WithLastServerMessage(old(messages), text)
      ensures |messages| == |old(messages)|
    {
      if messages != [] {
        var last := messages[|messages| - 1];
        if last.sender == ChatClm {
          messages := messages[|messages| - 1 := last.(message := text)];
        }
      }
    }
  }
}
