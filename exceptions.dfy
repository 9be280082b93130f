/** `SnowplowEventExtractionException`: an exception that carries a list of error messages and
    whose `Message` is that list joined with newlines. */
module Exceptions {
  import Text

  /** `errorMessages` is the `ErrorMessages` property; `baseMessage` is the message handed to the
      base `Exception` constructor. */
  datatype ExtractionException = ExtractionException(errorMessages: seq<string>, baseMessage: string)

  /** `ConvertListToStringSequence`. */
  function JoinMessages(messages: seq<string>): string {
    Text.Join("\n", messages)
  }

  /** The constructor taking a list of messages. */
  function FromList(messages: seq<string>): (e: ExtractionException)
    ensures e.errorMessages == messages
    ensures e.baseMessage == Message(e)
  {
    ExtractionException(messages, JoinMessages(messages))
  }

  /** The constructor taking a single message. */
  function FromMessage(message: string): (e: ExtractionException)
    ensures e.errorMessages == [message]
    ensures Message(e) == message && e.baseMessage == message
  {
    ExtractionException([message], message)
  }

  /** The `Message` property. */
  function Message(e: ExtractionException): string {
    JoinMessages(e.errorMessages)
  }

  /** Whichever constructor built it, the exception reports the same text through `Message`
      as through the base exception. */
  lemma MessageMatchesBase(messages: seq<string>, message: string)
    ensures Message(FromList(messages)) == FromList(messages).baseMessage
    ensures Message(FromMessage(message)) == FromMessage(message).baseMessage
  {
  }

  /** The list survives the join: when no message contains a newline, splitting `Message` at
      newlines gives back exactly the messages the exception was built from. */
  lemma MessageKeepsEveryError(messages: seq<string>)
    requires |messages| > 0
    requires forall k :: 0 <= k < |messages| ==> '\n' !in messages[k]
    ensures Text.Split(Message(FromList(messages)), '\n') == messages
  {
    Text.JoinSplitRoundTrip(messages, '\n');
  }

  /** An exception built from a list of one message reads exactly like one built from that message. */
  lemma SingletonListIsMessage(message: string)
    ensures FromList([message]) == FromMessage(message)
  {
  }
}
