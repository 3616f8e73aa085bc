/**
 * The chat page of `src/components/pages/AiAssistantPage.tsx`: a list of
 * user and model messages, the input box, the loading flag, the chat
 * session and the initialisation error.
 *
 * The chat service is not modelled: whether an API key is configured and
 * whether creating the session throws are inputs of `InitializeChat`, and
 * the reply stream of one message is a `Stream` value.
 */
module AiAssistant {
  import opened Types
  import opened Js

  datatype Role = User | Model

  datatype Message = Message(role: Role, text: string)

  const MissingKeyError: string := "عذراً، مفتاح API غير متوفر. لا يمكن تهيئة المساعد الذكي."
  const InitFailedError: string := "عذراً، حدث خطأ أثناء تهيئة المساعد الذكي. يرجى المحاولة لاحقاً."
  const ReplyError: string := "عفواً، واجهتني مشكلة. هل يمكنك إعادة صياغة سؤالك؟"

  /**
   * The reply to one message: `sendMessageStream` rejects before the stream
   * opens, or the stream opens, yields its chunks' texts in order and then
   * either ends or throws.
   */
  datatype Stream = Refused | Opened(chunks: seq<string>, breaks: bool)

  /** `!messageText.trim() || isLoading || !chatSession.current`, negated. */
  predicate Accepts(text: string, isLoading: bool, hasSession: bool) {
    !IsBlank(text) && !isLoading && hasSession
  }

  /** The chunks' texts one after the other, the last chunk last. */
  function Concat(chunks: seq<string>): string {
    if chunks == [] then "" else Concat(chunks[..|chunks| - 1]) + chunks[|chunks| - 1]
  }

  lemma {:induction false} ConcatAppend(a: seq<string>, b: seq<string>)
    ensures Concat(a + b) == Concat(a) + Concat(b)
  {
    if b != [] {
      var init, last := b[..|b| - 1], b[|b| - 1];
      assert (a + b)[..|a + b| - 1] == a + init;
      assert Concat(a + b) == Concat(a + init) + last;
      ConcatAppend(a, init);
    } else {
      assert a + b == a;
    }
  }

  /** The concatenation is the chunks joined with no separator. */
  lemma {:induction false} ConcatIsJoin(chunks: seq<string>)
    ensures Concat(chunks) == Join(chunks, "")
  {
    if |chunks| >= 1 {
      var rest := chunks[1..];
      ConcatIsJoin(rest);
      ConcatAppend([chunks[0]], rest);
      assert [chunks[0]] + rest == chunks;
      assert Concat([chunks[0]]) == chunks[0] by {
        assert [chunks[0]][..0] == [];
      }
    }
  }

  /** The update of one chunk: its text is added to the last message when
      that is a model message; otherwise the list is left as it is. */
  function AppendChunk(ms: seq<Message>, c: string): (r: seq<Message>)
    requires ms != []
    ensures |r| == |ms| && r[..|ms| - 1] == ms[..|ms| - 1]
    ensures r[|r| - 1].role == ms[|ms| - 1].role
    ensures ms[|ms| - 1].role == Model ==> r[|r| - 1].text == ms[|ms| - 1].text + c
    ensures ms[|ms| - 1].role == User ==> r == ms
  {
    var last := ms[|ms| - 1];
    if last.role == Model then ms[..|ms| - 1] + [Message(Model, last.text + c)] else ms
  }

  /** The update of the error handler: an empty model message at the end
      takes the error text; otherwise the error is added as a new message. */
  function WithError(ms: seq<Message>): (r: seq<Message>)
    requires ms != []
    ensures |ms| <= |r| <= |ms| + 1
    ensures r[..|ms| - 1] == ms[..|ms| - 1]
    ensures r[|r| - 1] == Message(Model, ReplyError)
    ensures |r| == |ms| <==> ms[|ms| - 1] == Message(Model, "")
    ensures |r| != |ms| ==> r == ms + [Message(Model, ReplyError)]
  {
    var last := ms[|ms| - 1];
    if last.role == Model && last.text == "" then ms[..|ms| - 1] + [Message(Model, ReplyError)]
    else ms + [Message(Model, ReplyError)]
  }

  /**
   * The messages an accepted send adds after the user's own message: the
   * streamed text as one model message; the error text alone when the
   * stream never opened or broke before any text arrived; the text received
   * so far followed by the error when it broke later.
   */
  function Reply(s: Stream): (r: seq<Message>)
    ensures 1 <= |r| <= 2
    ensures forall k :: 0 <= k < |r| ==> r[k].role == Model
  {
    match s
    case Refused => [Message(Model, ReplyError)]
    case Opened(chunks, false) => [Message(Model, Concat(chunks))]
    case Opened(chunks, true) =>
      if Concat(chunks) == "" then [Message(Model, ReplyError)]
      else [Message(Model, Concat(chunks)), Message(Model, ReplyError)]
  }

  /** A failed send always ends with the error message, and text that did
      arrive before the failure is kept. */
  lemma FailureShown(s: Stream)
    requires s.Refused? || s.breaks
    ensures Reply(s)[|Reply(s)| - 1] == Message(Model, ReplyError)
    ensures s.Opened? && Join(s.chunks, "") != "" ==> Reply(s)[0] == Message(Model, Join(s.chunks, ""))
  {
    if s.Opened? {
      ConcatIsJoin(s.chunks);
    }
  }

  /** A send that goes through shows the chunks joined, and nothing else. */
  lemma SuccessShown(s: Stream)
    requires s.Opened? && !s.breaks
    ensures Reply(s) == [Message(Model, Join(s.chunks, ""))]
  {
    ConcatIsJoin(s.chunks);
  }

  /** The error handler after a stream that broke once `t` had arrived. */
  lemma ErrorAfterText(sent: seq<Message>, t: string)
    ensures WithError(sent + [Message(Model, t)])
      == sent + (if t == "" then [Message(Model, ReplyError)]
                 else [Message(Model, t), Message(Model, ReplyError)])
  {
    var ms := sent + [Message(Model, t)];
    assert ms[..|ms| - 1] == sent;
  }

  class ChatPage {
    var messages: seq<Message>
    var input: string
    var isLoading: bool
    var hasSession: bool
    var initError: Option<string>

    constructor ()
      ensures messages == [] && input == "" && !isLoading && !hasSession && initError == None
    {
      messages := [];
      input := "";
      isLoading := false;
      hasSession := false;
      initError := None;
    }

    /**
     * `initializeChat`: with no API key the error is set and the list
     * emptied, and no session is made; if creating the session throws, the
     * error is set and shown as the only message; otherwise the error is
     * cleared, the session exists and the list is empty.
     */
    method InitializeChat(hasKey: bool, createThrows: bool)
      modifies this
      ensures !hasKey ==> initError == Some(MissingKeyError) && messages == [] && hasSession == old(hasSession)
      ensures hasKey && createThrows ==>
        initError == Some(InitFailedError) && messages == [Message(Model, InitFailedError)]
        && hasSession == old(hasSession)
      ensures hasKey && !createThrows ==> initError == None && messages == [] && hasSession
      ensures input == old(input) && isLoading == old(isLoading)
    {
      if !hasKey {
        initError := Some(MissingKeyError);
        messages := [];
        return;
      }
      initError := None;
      if createThrows {
        initError := Some(InitFailedError);
        messages := [Message(Model, InitFailedError)];
      } else {
        hasSession := true;
        messages := [];
      }
    }

    /** The `for await` loop: each chunk goes through `AppendChunk`. */
    method StreamChunks(chunks: seq<string>)
      requires messages != [] && messages[|messages| - 1].role == Model
      modifies this
      ensures messages == old(messages[..|messages| - 1])
        + [Message(Model, old(messages[|messages| - 1].text) + Concat(chunks))]
      ensures input == old(input) && isLoading == old(isLoading)
      ensures hasSession == old(hasSession) && initError == old(initError)
    {
      var prefix := messages[..|messages| - 1];
      var start := messages[|messages| - 1].text;
      var i := 0;
      assert messages == prefix + [Message(Model, start)];
      assert start + Concat(chunks[..0]) == start by {
        assert chunks[..0] == [];
      }
      while i < |chunks|
        invariant 0 <= i <= |chunks|
        invariant messages == prefix + [Message(Model, start + Concat(chunks[..i]))]
        invariant input == old(input) && isLoading == old(isLoading)
        invariant hasSession == old(hasSession) && initError == old(initError)
      {
        var sofar := Concat(chunks[..i]);
        assert Concat(chunks[..i + 1]) == sofar + chunks[i] by {
          assert chunks[..i + 1][..i] == chunks[..i];
        }
        var before := messages;
        messages := AppendChunk(messages, chunks[i]);
        var last := messages[|messages| - 1];
        assert last == Message(Model, start + Concat(chunks[..i + 1]));
        assert before[..|before| - 1] == prefix;
        assert messages == messages[..|before| - 1] + [last];
        i := i + 1;
      }
      assert chunks[..|chunks|] == chunks;
    }

    /** The `try`/`catch` of `handleSendMessage` once the user's message is
        in the list: the messages `Reply` describes are added. */
    method ReceiveReply(stream: Stream)
      requires messages != [] && messages[|messages| - 1].role == User
      modifies this
      ensures messages == old(messages) + Reply(stream)
      ensures input == old(input) && isLoading == old(isLoading)
      ensures hasSession == old(hasSession) && initError == old(initError)
    {
      var sent := messages;
      match stream {
        case Refused =>
          messages := WithError(messages);
        case Opened(chunks, breaks) =>
          messages := messages + [Message(Model, "")];
          assert messages[..|messages| - 1] == sent;
          StreamChunks(chunks);
          var t := Concat(chunks);
          assert "" + t == t;
          assert messages == sent + [Message(Model, t)];
          if breaks {
            ErrorAfterText(sent, t);
            messages := WithError(messages);
          }
      }
    }

    /**
     * `handleSendMessage`: ignored unless `Accepts`; otherwise the user's
     * message is added, the input cleared, and once the reply is over the
     * list holds the user's message followed by `Reply(stream)`, and
     * loading is off again.
     */
    method HandleSendMessage(text: string, stream: Stream) returns (accepted: bool)
      modifies this
      ensures accepted == Accepts(text, old(isLoading), old(hasSession))
      ensures !accepted ==>
        messages == old(messages) && input == old(input) && isLoading == old(isLoading)
      ensures accepted ==>
        messages == old(messages) + [Message(User, text)] + Reply(stream)
        && input == "" && !isLoading
      ensures hasSession == old(hasSession) && initError == old(initError)
    {
      accepted := Accepts(text, isLoading, hasSession);
      if !accepted {
        return;
      }
      messages := messages + [Message(User, text)];
      input := "";
      isLoading := true;
      ReceiveReply(stream);
      isLoading := false;
    }
  }
}
