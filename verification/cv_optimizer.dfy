/**
 * The CV optimizer page (pages/CvOptimizer.tsx): a PDF upload that starts a
 * conversation, the clear button, and sending a message, which costs one chat
 * credit. The model's reply, the clock readings and the object URL of the
 * preview are parameters; the credit update goes to the in-memory store.
 */
module CvOptimizer {
  import opened Wrappers
  import opened Text
  import MockStore

  /** The uploaded file: its name and MIME type. */
  datatype SelectedFile = SelectedFile(name: string, mimeType: string)

  datatype Sender = User | Ai

  /** A message id: the literal `init`, or the clock reading it was made at. */
  datatype MessageId = Init | Stamp(ms: int)

  datatype ChatMessage = ChatMessage(id: MessageId, sender: Sender, content: string)

  /** An entry of the history sent to the model: a role and the text. */
  datatype HistoryEntry = HistoryEntry(role: string, text: string)

  const PdfType: string := "application/pdf"

  /** The first message after an upload. */
  function Greeting(fileName: string): (r: ChatMessage)
    ensures r.id == Init && r.sender == Ai
    ensures StartsWith(r.content, "I've analyzed " + fileName)
  {
    ChatMessage(Init, Ai, "I've analyzed " + fileName + ". Ready to optimize.")
  }

  /** The role a message is sent to the model under. */
  function Role(m: ChatMessage): string {
    if m.sender == User then "user" else "model"
  }

  /** The history handed to the model: every message in order, a user's as
      `user` and the assistant's as `model`. */
  function History(messages: seq<ChatMessage>): (r: seq<HistoryEntry>)
    ensures |r| == |messages|
    ensures forall i :: 0 <= i < |r| ==> r[i].text == messages[i].content
    ensures forall i :: 0 <= i < |r| ==> (r[i].role == "user" <==> messages[i].sender == User)
    ensures forall i :: 0 <= i < |r| ==> (r[i].role == "model" <==> messages[i].sender == Ai)
  {
    seq(|messages|, i requires 0 <= i < |messages| => HistoryEntry(Role(messages[i]), messages[i].content))
  }

  /** The history of a longer conversation extends the history of its start. */
  lemma {:induction false} HistoryAppend(a: seq<ChatMessage>, b: seq<ChatMessage>)
    ensures History(a + b) == History(a) + History(b)
  {
    var h, ha, hb := History(a + b), History(a), History(b);
    forall i | 0 <= i < |h| ensures h[i] == (ha + hb)[i] {
      if i < |a| {
        assert (a + b)[i] == a[i];
      } else {
        assert (a + b)[i] == b[i - |a|];
      }
    }
  }

  /** Whether a send goes ahead: some non-blank input and a credit left. */
  predicate CanSend(input: string, credits: int) {
    Trim(input) != [] && credits > 0
  }

  class CvOptimizerPage {
    var file: Option<SelectedFile>
    var previewUrl: Option<string>
    var messages: seq<ChatMessage>
    var input: string
    var loading: bool
    var credits: int

    constructor ()
      ensures file.None? && previewUrl.None? && messages == [] && input == "" && !loading && credits == 0
    {
      file, previewUrl, messages, input, loading, credits := None, None, [], "", false, 0;
    }

    /** The mount effect: the counter shows the signed-in user's chat credits. */
    method LoadCredits(store: MockStore.Store)
      modifies this`credits
      ensures store.currentUser != null ==> credits == store.currentUser.creditsChat
      ensures store.currentUser == null ==> credits == old(credits)
    {
      var user := store.GetUser();
      if user != null {
        credits := user.creditsChat;
      }
    }

    /** `handleFileUpload`: only the first chosen file counts; anything but a
        PDF is refused with an alert (`alerted`) and changes nothing; a PDF
        replaces the file, the preview and the conversation. */
    method HandleFileUpload(files: seq<SelectedFile>, objectUrl: string) returns (alerted: bool)
      modifies this`file, this`previewUrl, this`messages
      ensures alerted <==> files != [] && files[0].mimeType != PdfType
      ensures files == [] || alerted ==>
        file == old(file) && previewUrl == old(previewUrl) && messages == old(messages)
      ensures files != [] && !alerted ==>
        file == Some(files[0]) && previewUrl == Some(objectUrl) && messages == [Greeting(files[0].name)]
    {
      if files == [] {
        return false;
      }
      var selected := files[0];
      if selected.mimeType != PdfType {
        return true;
      }
      file := Some(selected);
      previewUrl := Some(objectUrl);
      messages := [Greeting(selected.name)];
      alerted := false;
    }

    /** `handleClearFile`. */
    method HandleClearFile()
      modifies this`file, this`previewUrl, this`messages
      ensures file.None? && previewUrl.None? && messages == []
    {
      file, previewUrl, messages := None, None, [];
    }

    /** `handleSend`: with blank input or no credit left, nothing happens and
        nothing is sent (`sent` is None). Otherwise the input is sent with the
        history of the earlier messages, the user's message and then the reply
        are appended, the input is cleared, and one chat credit is spent both
        here and in the store. `sentAt` and `repliedAt` are the clock readings
        before and after the reply. */
    method HandleSend(store: MockStore.Store, sentAt: int, repliedAt: int, reply: string)
      returns (sent: Option<(seq<HistoryEntry>, string)>)
      modifies this, store.currentUser
      ensures sent.None? <==> !CanSend(old(input), old(credits))
      ensures sent.None? ==>
        messages == old(messages) && input == old(input) && credits == old(credits) && loading == old(loading)
      ensures sent.None? && store.currentUser != null ==>
        store.currentUser.creditsChat == old(store.currentUser.creditsChat)
      ensures sent.Some? ==>
        && sent.value == (History(old(messages)), old(input))
        && messages == old(messages) + [ChatMessage(Stamp(sentAt), User, old(input)),
                                        ChatMessage(Stamp(repliedAt + 1), Ai, reply)]
        && input == "" && !loading
        && credits == old(credits) - 1
      ensures sent.Some? && store.currentUser != null ==>
        store.currentUser.creditsChat == old(store.currentUser.creditsChat) - 1
      ensures store.currentUser == old(store.currentUser)
      ensures store.currentUser != null ==> store.currentUser.creditsCv == old(store.currentUser.creditsCv)
      ensures file == old(file) && previewUrl == old(previewUrl)
    {
      if Trim(input) == [] || credits <= 0 {
        return None;
      }
      var userMsg := ChatMessage(Stamp(sentAt), User, input);
      var history := History(messages);
      messages := messages + [userMsg];
      input := "";
      loading := true;
      sent := Some((history, userMsg.content));
      var aiMsg := ChatMessage(Stamp(repliedAt + 1), Ai, reply);
      messages := messages + [aiMsg];
      loading := false;
      var _ := store.UpdateCredits(MockStore.Chat, -1);
      credits := credits - 1;
    }
  }
}
