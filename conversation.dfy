/** The chat transcript and the pure parts of handleSendMessage: the blank-input guard, the text of
    the assistant's reply and the point change it carries. */
module Conversation {
  import opened Text
  import opened PointParser

  datatype Role = User | Assistant

  datatype Message = Message(role: Role, content: string)

  /** The assistant message appended when the chat request fails. */
  const Fallback: string := "Magical interference detected."

  /** The text used when the response carries no text (`response.text || '...'`). */
  const NoText: string := "..."

  // ---------------------------------------------------------------------------------------------
  // `String.prototype.trim`.

  /** The text without its leading white space. */
  function TrimStart(s: string): (r: string)
    ensures |r| <= |s| && r == s[|s| - |r|..]
    ensures forall i :: 0 <= i < |s| - |r| ==> IsSpace(s[i])
    ensures r == [] || !IsSpace(r[0])
  {
    if s != [] && IsSpace(s[0]) then
      var r := TrimStart(s[1..]);
      assert forall i :: 1 <= i < |s| ==> s[i] == s[1..][i - 1];
      r
    else s
  }

  /** The text without its trailing white space. */
  function TrimEnd(s: string): (r: string)
    ensures |r| <= |s| && r == s[..|r|]
    ensures forall i :: |r| <= i < |s| ==> IsSpace(s[i])
    ensures r == [] || !IsSpace(r[|r| - 1])
  {
    if s != [] && IsSpace(s[|s| - 1]) then
      var r := TrimEnd(s[..|s| - 1]);
      assert forall i :: 0 <= i < |s| - 1 ==> s[i] == s[..|s| - 1][i];
      r
    else s
  }

  /** `s.trim()`: white space and line terminators removed from both ends. */
  function Trim(s: string): string {
    TrimEnd(TrimStart(s))
  }

  /** The input the send guard refuses: `!userInput.trim()`. */
  predicate IsBlank(s: string) {
    Trim(s) == []
  }

  /** Trimming leaves nothing exactly when every character is white space (the empty input included). */
  lemma BlankIffAllSpace(s: string)
    ensures IsBlank(s) <==> forall i :: 0 <= i < |s| ==> IsSpace(s[i])
  {
  }

  // ---------------------------------------------------------------------------------------------
  // The reply.

  /** What the chat request yields: a response (whose missing text is the empty string here) or a
      failure. */
  datatype Reply = Answered(text: string) | Failed

  /** `response.text || '...'`: the text shown and parsed; never empty. */
  function ReplyText(text: string): (r: string)
    ensures r != []
    ensures text != [] ==> r == text
  {
    if text == [] then NoText else text
  }

  /** The content of the assistant message a reply appends. */
  function AssistantText(reply: Reply): string {
    match reply
    case Answered(text) => ReplyText(text)
    case Failed => Fallback
  }

  /** The score change a reply causes: the parsed points of its text, nothing on failure. */
  function ScoreChange(reply: Reply): int {
    match reply
    case Answered(text) => Points(ReplyText(text))
    case Failed => 0
  }

  /** A reply without text is shown as `...`, which carries no points. */
  lemma EmptyAnswerScoresNothing()
    ensures AssistantText(Answered([])) == NoText && ScoreChange(Answered([])) == 0
  {
    forall p: nat ensures !HasAt(NoText, p, "points") {
    }
    PointsNeedTheWordPoints(NoText);
  }

  /** A failed request shows the fallback message and changes nothing. */
  lemma FailureScoresNothing()
    ensures AssistantText(Failed) == Fallback && ScoreChange(Failed) == 0
  {
  }

  // ---------------------------------------------------------------------------------------------
  // The shape of the transcript.

  /** The role of the message at position `i`: the greeting, then user and assistant in turn. */
  function RoleAt(i: nat): Role {
    if i % 2 == 0 then Assistant else User
  }

  /** Messages alternate, starting with the assistant's greeting. */
  predicate Alternating(msgs: seq<Message>) {
    forall i :: 0 <= i < |msgs| ==> msgs[i].role == RoleAt(i)
  }

  /** Appending a message of the role whose turn it is keeps the transcript alternating. */
  lemma AlternatingAppend(msgs: seq<Message>, m: Message)
    requires Alternating(msgs) && m.role == RoleAt(|msgs|)
    ensures Alternating(msgs + [m])
  {
  }
}
