/** How the React client labels one message (`components/chat/MessageBubble.jsx`). */
module MessageBubble {
  import opened Wrappers
  import opened Text

  /** The three configurations `getMessageConfig` returns, by their sender label. */
  datatype Sender = You | SystemSender | AiAssistant

  function SenderLabel(s: Sender): string {
    match s
    case You => "You"
    case SystemSender => "System"
    case AiAssistant => "AI Assistant"
  }

  /** `getMessageConfig(role)`: a switch on the lower-cased role; a missing role
      and every role other than "user" and "system" fall to the default. */
  function GetMessageConfig(role: Option<string>): (r: Sender)
    ensures r == You <==> role.Some? && ToLower(role.value) == "user"
    ensures r == SystemSender <==> role.Some? && ToLower(role.value) == "system"
    ensures r == AiAssistant <==> role.None? || (ToLower(role.value) != "user" && ToLower(role.value) != "system")
  {
    if role.None? then AiAssistant
    else
      var lower := ToLower(role.value);
      if lower == "user" then You
      else if lower == "system" then SystemSender
      else AiAssistant
  }

  /** The letter case of the role does not matter. */
  lemma GetMessageConfigIgnoresCase(role: string)
    ensures GetMessageConfig(Some(role)) == GetMessageConfig(Some(ToLower(role)))
  {
    ToLowerIdempotent(role);
  }

  /** The timestamp line is rendered only for a truthy timestamp. */
  function ShowsTimestamp(timestamp: Option<string>): (r: bool)
    ensures r <==> timestamp.Some? && timestamp.value != []
  {
    timestamp.Some? && timestamp.value != []
  }
}
