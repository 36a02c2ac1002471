/** The streaming answer from the model to the visitor: `stream_generate` (rag/llm_wrapper.py),
    `stream_answer` (chat/services.py), `event_stream` (chat/views.py), the network, `streamChat`
    (static/widget.js). */
module AnswerDelivery {
  import opened Prelude
  import opened PyText
  import opened TextSplit
  import opened TokenStream
  import opened SseStream
  import EchoFilter

  /** What answers the question: the provider, with the deltas it sent and whether it then failed; a
      cached answer or the no-context phrase, sent as one token; or nothing, because of a capacity or
      configuration error. `stored` says whether the finished answer could be saved. */
  datatype Source = Model(deltas: seq<Delta>, broken: bool) | Canned(text: string) | Refused

  datatype Turn = Turn(source: Source, stored: bool)

  const CHUNK_SIZE := 24

  function Redacted(groups: seq<string>, redact: string -> string): seq<string> {
    seq(|groups|, i requires 0 <= i < |groups| => redact(groups[i]))
  }

  /** The texts of the token events. */
  function Sent(turn: Turn, redact: string -> string): seq<string> {
    match turn.source
    case Model(deltas, true) => Redacted(FullGroups(AllText(deltas), CHUNK_SIZE), redact)
    case Model(deltas, false) => Redacted(Groups(AllText(deltas), CHUNK_SIZE), redact)
    case Canned(text) => [text]
    case Refused => []
  }

  /** Whether there is an answer to save. A failure of the provider after some text is a partial answer;
      a completed answer that is blank as a whole is none, though its tokens were sent. */
  predicate HasAnswer(turn: Turn, redact: string -> string) {
    match turn.source
    case Model(_, true) => Sent(turn, redact) != []
    case Model(_, false) => !Blank(Flatten(Sent(turn, redact)))
    case Canned(_) => true
    case Refused => false
  }

  datatype Closing = Done | Error

  function Close(turn: Turn, redact: string -> string): Closing {
    if HasAnswer(turn, redact) && turn.stored then Done else Error
  }

  function Token(text: string): Event {
    Event("token", [Field("t", Str(text))])
  }

  function Tokens(groups: seq<string>): seq<Event> {
    seq(|groups|, i requires 0 <= i < |groups| => Token(groups[i]))
  }

  /** The events `event_stream` yields for one turn. */
  function Events(turn: Turn, redact: string -> string, meta: Payload, done: Payload, error: Payload): seq<Event> {
    [Event("meta", meta)] + Tokens(Sent(turn, redact))
    + [match Close(turn, redact)
       case Done => Event("done", done)
       case Error => Event("error", error)]
  }

  lemma {:induction false} ApplyAllAppend(v: View, a: seq<Event>, b: seq<Event>)
    ensures ApplyAll(v, a + b) == ApplyAll(ApplyAll(v, a), b)
  {
    if b == [] {
      assert a + b == a;
    } else {
      assert TextSplit.Init(a + b) == a + TextSplit.Init(b);
      ApplyAllAppend(v, a, TextSplit.Init(b));
    }
  }

  lemma ApplyOne(v: View, e: Event)
    ensures ApplyAll(v, [e]) == Apply(v, e)
  {
    assert TextSplit.Init([e]) == [];
  }

  lemma {:induction false} ApplyTokens(v: View, groups: seq<string>)
    ensures ApplyAll(v, Tokens(groups)) == v.(text := v.text + Flatten(groups), bubble := v.bubble || groups != [])
  {
    if groups == [] {
      assert v.text + "" == v.text;
    } else {
      var before := TextSplit.Init(groups);
      var last := TextSplit.Last(groups);
      ApplyTokens(v, before);
      assert TextSplit.Init(Tokens(groups)) == Tokens(before);
      assert TextSplit.Last(Tokens(groups)) == Token(last);
      assert groups == before + [last];
      FlattenSnoc(before, last);
      assert Get([Field("t", Str(last))], "t") == last;
      assert v.text + Flatten(groups) == (v.text + Flatten(before)) + last;
    }
  }

  /** The id and token the widget holds after a meta event; absent ones keep the old. */
  function Or(a: string, b: string): string {
    if a != "" then a else b
  }

  lemma ApplyMeta(v: View, meta: Payload)
    ensures Apply(v, Event("meta", meta))
      == v.(conversationId := Or(Get(meta, "conversation_id"), v.conversationId),
            conversationToken := Or(Get(meta, "conversation_token"), v.conversationToken))
  {
  }

  lemma ApplyClosing(v: View, closing: Closing, done: Payload, error: Payload)
    requires !v.closed && v.finishMeta == None && v.failure == None
    ensures Apply(v, match closing case Done => Event("done", done) case Error => Event("error", error))
      == (match closing
          case Done => v.(finishMeta := Some(done), closed := true)
          case Error => v.(failure := Some(Or(Get(error, "message"), DEFAULT_ERROR))))
  {
    assert "error" != "meta" && "error" != "token" && "error" != "done" by {
      assert "error"[0] == 'e' && "meta"[0] == 'm' && "token"[0] == 't' && "done"[0] == 'd';
    }
    assert "done" != "meta" && "done" != "token" by {
      assert "meta"[0] == 'm' && "token"[0] == 't' && "done"[0] == 'd';
    }
  }

  lemma ApplyTurn(v: View, meta: Event, tokens: seq<Event>, last: Event)
    ensures ApplyAll(v, [meta] + tokens + [last]) == Apply(ApplyAll(Apply(v, meta), tokens), last)
  {
    ApplyAllAppend(v, [meta] + tokens, [last]);
    ApplyAllAppend(v, [meta], tokens);
    ApplyOne(v, meta);
    ApplyOne(ApplyAll(v, [meta] + tokens), last);
  }

  lemma PlainEvents(turn: Turn, redact: string -> string, meta: Payload, done: Payload, error: Payload)
    ensures PlainNames(Events(turn, redact, meta, done, error))
  {
    assert PlainName("meta") && PlainName("token") && PlainName("done") && PlainName("error");
  }

  /** What the widget knows when the whole stream has arrived. */
  function FinalView(turn: Turn, redact: string -> string, meta: Payload, done: Payload, error: Payload,
                     id: string, token: string): View
  {
    var text := Flatten(Sent(turn, redact));
    var id' := Or(Get(meta, "conversation_id"), id);
    var token' := Or(Get(meta, "conversation_token"), token);
    match Close(turn, redact)
    case Done => View(text, id', token', Sent(turn, redact) != [], Some(done), true, None)
    case Error => View(text, id', token', Sent(turn, redact) != [], None, false, Some(Or(Get(error, "message"), DEFAULT_ERROR)))
  }

  function Opening(id: string, token: string): Reader {
    Reader("", View("", id, token, false, None, false, None))
  }

  lemma EventsApplied(turn: Turn, redact: string -> string, meta: Payload, done: Payload, error: Payload, id: string, token: string)
    ensures ApplyAll(Opening(id, token).view, Events(turn, redact, meta, done, error))
         == FinalView(turn, redact, meta, done, error, id, token)
  {
    var start := Opening(id, token).view;
    var groups := Sent(turn, redact);
    var begun := Apply(start, Event("meta", meta));
    ApplyMeta(start, meta);
    ApplyTokens(begun, groups);
    assert "" + Flatten(groups) == Flatten(groups);
    ApplyClosing(ApplyAll(begun, Tokens(groups)), Close(turn, redact), done, error);
    ApplyTurn(start, Event("meta", meta), Tokens(groups),
              match Close(turn, redact) case Done => Event("done", done) case Error => Event("error", error));
  }

  /** From the model to the screen, however the network cuts the stream: the widget shows exactly
      the texts that were sent, nothing is left undecoded, and the turn ends in exactly one of
      "finished with the server's metadata" and "failed with a message". The codec is any lawful one;
      JsonText.JSON is. */
  lemma AnswerArrives(c: Codec, turn: Turn, redact: string -> string, meta: Payload, done: Payload, error: Payload,
                      id: string, token: string, chunks: seq<string>)
    requires Lawful(c)
    requires Flatten(chunks) == PrintAll(c, Events(turn, redact, meta, done, error))
    ensures FeedAll(c, Opening(id, token), chunks) == Reader("", FinalView(turn, redact, meta, done, error, id, token))
  {
    PlainEvents(turn, redact, meta, done, error);
    AnyCuttingDecodes(c, Opening(id, token).view, Events(turn, redact, meta, done, error), chunks);
    EventsApplied(turn, redact, meta, done, error, id, token);
  }

  /** The answer reached its end: it could be saved, and it is a canned one, a model's completed one that is
      not blank after redaction, or a model's broken one of which at least one group had been sent. */
  predicate Finished(turn: Turn, redact: string -> string) {
    turn.stored
    && (turn.source.Canned?
        || (turn.source.Model? && !turn.source.broken
            && !Blank(Flatten(Redacted(Groups(AllText(turn.source.deltas), CHUNK_SIZE), redact))))
        || (turn.source.Model? && turn.source.broken && |AllText(turn.source.deltas)| >= CHUNK_SIZE))
  }

  /** The widget ends up finished, with the server's metadata and no failure, exactly when the answer
      reached its end; otherwise it ends up failed, with the server's message and no metadata. */
  lemma FinishedIff(c: Codec, turn: Turn, redact: string -> string, meta: Payload, done: Payload, error: Payload,
                    id: string, token: string, chunks: seq<string>)
    requires Lawful(c)
    requires Flatten(chunks) == PrintAll(c, Events(turn, redact, meta, done, error))
    ensures var view := FeedAll(c, Opening(id, token), chunks).view;
      if Finished(turn, redact) then view.finishMeta == Some(done) && view.closed && view.failure == None
      else view.finishMeta == None && !view.closed
           && view.failure == Some(if Get(error, "message") != "" then Get(error, "message") else DEFAULT_ERROR)
  {
    AnswerArrives(c, turn, redact, meta, done, error, id, token, chunks);
    EndsIff(turn, redact);
  }

  lemma EndsIff(turn: Turn, redact: string -> string)
    ensures Close(turn, redact) == Done <==> Finished(turn, redact)
  {
    match turn.source
    case Canned(text) =>
    case Refused =>
    case Model(deltas, broken) =>
  }

  /** A cached answer or the no-context phrase is shown as it is; a refused turn shows nothing. */
  lemma CannedIsShown(c: Codec, turn: Turn, redact: string -> string, meta: Payload, done: Payload, error: Payload,
                      id: string, token: string, chunks: seq<string>)
    requires Lawful(c) && !turn.source.Model?
    requires Flatten(chunks) == PrintAll(c, Events(turn, redact, meta, done, error))
    ensures var view := FeedAll(c, Opening(id, token), chunks).view;
      (turn.source.Canned? ==> view.text == turn.source.text && view.bubble)
      && (turn.source.Refused? ==> view.text == "" && !view.bubble)
  {
    AnswerArrives(c, turn, redact, meta, done, error, id, token, chunks);
    if turn.source.Canned? {
      assert Sent(turn, redact) == [turn.source.text];
      assert Flatten([turn.source.text]) == turn.source.text + Flatten([]);
    }
  }

  /** The conversation of the reply is the server's where it names one. */
  lemma ConversationIsServers(c: Codec, turn: Turn, redact: string -> string, meta: Payload, done: Payload, error: Payload,
                              id: string, token: string, chunks: seq<string>)
    requires Lawful(c)
    requires Flatten(chunks) == PrintAll(c, Events(turn, redact, meta, done, error))
    ensures var view := FeedAll(c, Opening(id, token), chunks).view;
      view.conversationId == (if Get(meta, "conversation_id") == "" then id else Get(meta, "conversation_id"))
      && view.conversationToken == (if Get(meta, "conversation_token") == "" then token else Get(meta, "conversation_token"))
  {
    AnswerArrives(c, turn, redact, meta, done, error, id, token, chunks);
  }

  /** When the redactor leaves the groups alone, a turn the provider completed shows its text character
      for character, whether or not the answer could be saved. */
  lemma NothingLostNothingInvented(c: Codec, deltas: seq<Delta>, stored: bool, redact: string -> string, meta: Payload,
                                   done: Payload, error: Payload, id: string, token: string, chunks: seq<string>)
    requires Lawful(c) && forall g :: g in Groups(AllText(deltas), CHUNK_SIZE) ==> redact(g) == g
    requires Flatten(chunks) == PrintAll(c, Events(Turn(Model(deltas, false), stored), redact, meta, done, error))
    ensures FeedAll(c, Opening(id, token), chunks).view.text == AllText(deltas)
  {
    var turn := Turn(Model(deltas, false), stored);
    AnswerArrives(c, turn, redact, meta, done, error, id, token, chunks);
    RedactedSame(Groups(AllText(deltas), CHUNK_SIZE), redact);
    GroupsLoseNothing(AllText(deltas), CHUNK_SIZE);
  }

  lemma RedactedSame(groups: seq<string>, redact: string -> string)
    requires forall g :: g in groups ==> redact(g) == g
    ensures Redacted(groups, redact) == groups
  {
  }

  /** And a turn the provider broke off shows a prefix, less than one group short of what was sent. */
  lemma BrokenShowsPrefix(c: Codec, deltas: seq<Delta>, stored: bool, redact: string -> string, meta: Payload,
                          done: Payload, error: Payload, id: string, token: string, chunks: seq<string>)
    requires Lawful(c) && forall g :: g in FullGroups(AllText(deltas), CHUNK_SIZE) ==> redact(g) == g
    requires Flatten(chunks) == PrintAll(c, Events(Turn(Model(deltas, true), stored), redact, meta, done, error))
    ensures var shown := FeedAll(c, Opening(id, token), chunks).view.text;
      shown <= AllText(deltas) && |AllText(deltas)| - |shown| < CHUNK_SIZE
  {
    var turn := Turn(Model(deltas, true), stored);
    AnswerArrives(c, turn, redact, meta, done, error, id, token, chunks);
    RedactedSame(FullGroups(AllText(deltas), CHUNK_SIZE), redact);
    FullGroupsArePrefix(AllText(deltas), CHUNK_SIZE);
  }

  // ---------------------------------------------------------------- what is shown and what is stored

  const MIN_RUN := 8

  /** The answer saved for the turn: what was sent, stripped, and for a turn the provider completed also
      redacted as a whole and rid of prompt echoes; a blank answer becomes the fallback message. */
  ghost function Answer(turn: Turn, redact: string -> string, prompts: seq<string>, fallback: string): string {
    var sent := Strip(Flatten(Sent(turn, redact)));
    var answer :=
      match turn.source
      case Model(_, false) => EchoFilter.Stripped(redact(sent), prompts, MIN_RUN).0
      case Model(_, true) => sent
      case Canned(text) => text
      case Refused => "";
    if Blank(answer) then fallback else answer
  }

  ghost predicate HasEcho(text: string, prompts: seq<string>) {
    exists i :: EchoFilter.Echoes(Words(text), i, prompts, MIN_RUN)
  }

  /** The tokens are sent before the echo filter runs, so the visitor may see what is not stored: if the
      whole answer needs no redaction, the stored answer is the shown text, stripped, exactly when the
      shown text has no echo of a prompt. */
  lemma StoredIffNoEcho(deltas: seq<Delta>, stored: bool, redact: string -> string, prompts: seq<string>, fallback: string)
    requires HasAnswer(Turn(Model(deltas, false), stored), redact)
    ensures var turn := Turn(Model(deltas, false), stored);
      var shown := Strip(Flatten(Sent(turn, redact)));
      redact(shown) == shown ==> (Answer(turn, redact, prompts, fallback) == shown <==> !HasEcho(shown, prompts))
  {
    hide Words, Blank, EchoFilter.Stripped, EchoFilter.Echoes;
    var turn := Turn(Model(deltas, false), stored);
    var sent := Flatten(Sent(turn, redact));
    StripLeftBlank(sent);
    StripRightBlank(StripLeft(sent));
    if redact(Strip(sent)) == Strip(sent) {
      EchoFilter.ChangedIffEcho(Strip(sent), prompts, MIN_RUN);
      EchoFilter.NeverBlanks(Strip(sent), prompts, MIN_RUN);
    }
  }

  /** What is stored of a completed turn has no echo of prompts that do not mention the marker. */
  lemma StoredHasNoEcho(deltas: seq<Delta>, stored: bool, redact: string -> string, prompts: seq<string>, fallback: string)
    requires EchoFilter.MarkerFree(prompts, MIN_RUN)
    ensures var answer := Answer(Turn(Model(deltas, false), stored), redact, prompts, fallback);
      answer == fallback || !HasEcho(answer, prompts)
  {
    hide Words, Blank, EchoFilter.Stripped, EchoFilter.Echoes;
    var turn := Turn(Model(deltas, false), stored);
    var whole := redact(Strip(Flatten(Sent(turn, redact))));
    if i :| EchoFilter.Echoes(Words(EchoFilter.Stripped(whole, prompts, MIN_RUN).0), i, prompts, MIN_RUN) {
      EchoFilter.NoEchoLeft(whole, prompts, MIN_RUN, i);
    }
  }
}
