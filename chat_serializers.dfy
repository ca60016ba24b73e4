/** The two pieces of logic in the chats app's serializers: the message
    body validator and the oldest-first listing of a conversation's
    messages. */
module ChatSerializers {
  import opened Wrappers
  import opened Collections

  /** The characters Python's `str.isspace` accepts, which are the ones
      `str.strip()` removes when given no argument. */
  predicate IsSpace(c: char) {
    || '\t' <= c <= '\r'
    || '\U{1C}' <= c <= ' '
    || c == '\U{85}' || c == '\U{A0}' || c == '\U{1680}'
    || '\U{2000}' <= c <= '\U{200A}'
    || c == '\U{2028}' || c == '\U{2029}' || c == '\U{202F}' || c == '\U{205F}'
    || c == '\U{3000}'
  }

  /** `s` without its leading whitespace. */
  function StripLeading(s: string): (r: string)
    ensures |r| <= |s| && r == s[|s| - |r|..]
    ensures forall i :: 0 <= i < |s| - |r| ==> IsSpace(s[i])
    ensures r != [] ==> !IsSpace(r[0])
  {
    if s != [] && IsSpace(s[0]) then StripLeading(s[1..]) else s
  }

  /** `s` without its trailing whitespace. */
  function StripTrailing(s: string): (r: string)
    ensures |r| <= |s| && r == s[..|r|]
    ensures forall i :: |r| <= i < |s| ==> IsSpace(s[i])
    ensures r != [] ==> !IsSpace(r[|r| - 1])
  {
    if s != [] && IsSpace(s[|s| - 1]) then StripTrailing(s[..|s| - 1]) else s
  }

  /** `s.strip()`. */
  function Strip(s: string): (r: string)
    ensures |r| <= |s|
    ensures r != [] ==> !IsSpace(r[0]) && !IsSpace(r[|r| - 1])
    ensures exists i, j ::
      && 0 <= i <= j <= |s| && r == s[i..j]
      && (forall k :: 0 <= k < i || j <= k < |s| ==> IsSpace(s[k]))
  {
    var l := StripLeading(s);
    var r := StripTrailing(l);
    var i := |s| - |l|;
    assert r == s[i..i + |r|];
    assert forall k :: i + |r| <= k < |s| ==> s[k] == l[k - i];
    r
  }

  /** `s.strip()` is empty exactly when every character of `s` is
      whitespace; the empty string is one such. */
  lemma StripEmptyIffAllSpace(s: string)
    ensures Strip(s) == [] <==> forall i :: 0 <= i < |s| ==> IsSpace(s[i])
  {
    var l := StripLeading(s);
    if Strip(s) == [] {
      forall i | 0 <= i < |s| ensures IsSpace(s[i]) {
        if i >= |s| - |l| {
          assert s[i] == l[i - (|s| - |l|)];
        }
      }
    } else {
      assert !IsSpace(Strip(s)[0]);
      assert Strip(s)[0] == l[0] == s[|s| - |l|];
    }
  }

  datatype ValidationError = ValidationError(message: string)

  /** `MessageSerializer.validate_message_body`: a body that strips to
      nothing is refused; any other is returned as given, not stripped. */
  function ValidateMessageBody(value: string): (r: Result<string, ValidationError>)
    ensures r.Ok? <==> exists i :: 0 <= i < |value| && !IsSpace(value[i])
    ensures r.Ok? ==> r.value == value
    ensures r.Err? ==> r.error == ValidationError("Message body cannot be empty.")
  {
    StripEmptyIffAllSpace(value);
    if Strip(value) == [] then Err(ValidationError("Message body cannot be empty."))
    else Ok(value)
  }

  /** A message of the chats app, as the serializer lists it. */
  datatype ChatMessage = ChatMessage(messageId: nat, sender: nat, messageBody: string, sentAt: nat)

  function SentAtKey(m: ChatMessage): int { m.sentAt }

  /** `ConversationSerializer.get_messages`: the conversation's messages
      ordered by `sent_at`, oldest first. */
  function GetMessages(conversationMessages: seq<ChatMessage>): (r: seq<ChatMessage>)
    ensures forall i, j :: 0 <= i < j < |r| ==> r[i].sentAt <= r[j].sentAt
    ensures multiset(r) == multiset(conversationMessages)
  {
    var r := SortBy(conversationMessages, SentAtKey, false);
    assert OrderedBy(r, SentAtKey, false);
    r
  }
}
