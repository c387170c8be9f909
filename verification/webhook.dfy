/**
 * The webhook `handler`: which message an update carries, which text is
 * classified, which messages are sent back and what the HTTP response says.
 * Sending is modelled by the list of `sendMessage` calls the handler makes,
 * in order; the only thing the network decides is whether one of those calls
 * throws, which is a parameter.
 */
module Webhook {
  import opened Wrappers
  import opened Text
  import opened Knowledge
  import opened Intents
  import opened Replies

  // ---- Incoming requests ----

  datatype Chat = Chat(id: int)

  /** A Telegram message: the fields the handler reads, each possibly absent. */
  datatype Message = Message(chat: Option<Chat>, text: Option<string>)

  datatype CallbackQuery = CallbackQuery(message: Option<Message>)

  datatype Update = Update(
    message: Option<Message>,
    editedMessage: Option<Message>,
    callbackQuery: Option<CallbackQuery>)

  /** An HTTP request; `body` is `None` when it is `null` or `undefined`. */
  datatype Request = Request(httpMethod: string, body: Option<Update>)

  // ---- Outgoing messages and the response ----

  /** A reply keyboard: rows of button labels and the two display flags. */
  datatype Keyboard = Keyboard(rows: seq<seq<string>>, resize: bool, oneTime: bool)

  /** `mainMenu()` */
  const MainMenu: Keyboard :=
    Keyboard([["Centros", "Horarios"], ["Tutores", "Requisitos"]], true, false)

  /** One `sendMessage` call. */
  datatype Outbound = Outbound(chatId: int, text: Reply, keyboard: Option<Keyboard>)

  datatype Status = Ok | NoMessage | ErrorLogged

  datatype Body = PlainText(text: string) | JsonStatus(status: Status)

  datatype Response = Response(code: int, body: Body)

  /** The messages sent, in order, and the HTTP response. */
  datatype Outcome = Outcome(sends: seq<Outbound>, response: Response)

  const WelcomeGreeting: string := "¡Hola! Soy el asistente virtual de Misiones Universitarias – UTPL"
  const WelcomeOffer: string := "Puedo ayudarte con información del Voluntariado."
  const MenuPrompt: string := "Aquí tienes las opciones"
  const ClosingPrompt: string :=
    "¿Esta información te fue útil? Puedes escribir menú para ver opciones o contacto para hablar con un tutor."
  const ContactOffer: string := "Si me indicas el centro, te paso el contacto del tutor correspondiente."

  // ---- Reading the update ----

  /** `update.message || update.edited_message || update.callback_query?.message` */
  function ResolveMessage(u: Update): (m: Option<Message>)
    ensures m.None? <==> u.message.None? && u.editedMessage.None?
                         && (u.callbackQuery.None? || u.callbackQuery.value.message.None?)
    ensures u.message.Some? ==> m == u.message
    ensures u.message.None? && u.editedMessage.Some? ==> m == u.editedMessage
    ensures u.message.None? && u.editedMessage.None? && u.callbackQuery.Some?
            ==> m == u.callbackQuery.value.message
  {
    if u.message.Some? then u.message
    else if u.editedMessage.Some? then u.editedMessage
    else if u.callbackQuery.Some? then u.callbackQuery.value.message
    else None
  }

  /** `m?.text`, with an absent text read as the empty string. */
  function TextOf(m: Option<Message>): string {
    if m.Some? && m.value.text.Some? then m.value.text.value else ""
  }

  /**
   * `update.message?.text || update.edited_message?.text || ""`: the first
   * non-empty text, the empty string being false in JavaScript. A callback
   * query never contributes text.
   */
  function MessageText(u: Update): (t: string)
    ensures t == TextOf(u.message) || t == TextOf(u.editedMessage)
    ensures TextOf(u.message) != [] ==> t == TextOf(u.message)
    ensures t == [] <==> TextOf(u.message) == [] && TextOf(u.editedMessage) == []
  {
    if TextOf(u.message) != [] then TextOf(u.message) else TextOf(u.editedMessage)
  }

  /** The text does not depend on the callback query, so button presses are classified as empty text. */
  lemma CallbackQueryCarriesNoText(u: Update, q: Option<CallbackQuery>)
    ensures MessageText(u.(callbackQuery := q)) == MessageText(u)
  {
  }

  // ---- The replies the handler sends ----

  function Welcome(): (r: Reply)
    ensures ShowsNoData(r) && r != []
  {
    [Prose(WelcomeGreeting), Prose(WelcomeOffer)]
  }

  function MenuReply(): (r: Reply)
    ensures ShowsNoData(r) && r != []
  {
    [Prose(MenuPrompt)]
  }

  function Closing(): (r: Reply)
    ensures ShowsNoData(r) && r != []
  {
    [Prose(ClosingPrompt)]
  }

  /** The department address and an offer to pass on a tutor's contact. */
  function ContactReply(kb: KnowledgeBase): (r: Reply)
    ensures r != [] && r[0] == ContactLine(kb.departmentContact)
    ensures ShowsNoData(r[1..])
  {
    [ContactLine(kb.departmentContact), Prose(ContactOffer)]
  }

  /** The first reply for every intent but `Start`: the `switch` of the handler. */
  function PrimaryReply(kb: KnowledgeBase, intent: Intent, text: string): (r: Reply)
    requires intent != Start
    ensures r != []
    ensures intent == Centers ==> CentersShown(r) == kb.centers
    ensures intent == Schedules ==>
              && (forall k: nat :: FirstMentioned(kb.schedules, text, k) ==> SchedulesShown(r) == [kb.schedules[k]])
              && ((forall k: nat :: !FirstMentioned(kb.schedules, text, k)) ==> SchedulesShown(r) == kb.schedules)
    ensures intent == Tutors ==>
              && (forall k: nat :: FirstMentioned(kb.tutors, text, k) ==> TutorsShown(r) == [kb.tutors[k]])
              && ((forall k: nat :: !FirstMentioned(kb.tutors, text, k)) ==> TutorsShown(r) == kb.tutors)
    ensures intent == Requirements ==> RequirementsShown(r) == kb.requirements
    ensures intent == Menu || intent == Fallback ==> ShowsNoData(r)
  {
    match intent
    case Centers => ReplyCentros(kb)
    case Schedules => ReplyHorarios(kb, text)
    case Tutors => ReplyTutores(kb, text)
    case Requirements => ReplyRequisitos(kb)
    case Menu => MenuReply()
    case Fallback => ReplyFallback()
  }

  /**
   * The messages sent to chat `chatId` for text `text` classified as
   * `intent`: the welcome alone for `Start`; otherwise the intent's reply
   * with the menu keyboard, the closing prompt, and the department contact
   * when the text asks for contact.
   */
  function Conversation(kb: KnowledgeBase, chatId: int, text: string, intent: Intent): (sends: seq<Outbound>)
    ensures |sends| == 1 <==> intent == Start
    ensures intent != Start ==> (|sends| == 3 <==> WantsContact(text))
    ensures 1 <= |sends| <= 3
    ensures forall i :: 0 <= i < |sends| ==> sends[i].chatId == chatId
    ensures sends[0].keyboard == Some(MainMenu)
    ensures forall i :: 1 <= i < |sends| ==> sends[i].keyboard == None
    ensures intent == Start ==> sends[0].text == Welcome()
    ensures intent != Start ==> sends[0].text == PrimaryReply(kb, intent, text) && sends[1].text == Closing()
    ensures |sends| == 3 ==> sends[2].text == ContactReply(kb)
  {
    if intent == Start then
      [Outbound(chatId, Welcome(), Some(MainMenu))]
    else
      var first := [Outbound(chatId, PrimaryReply(kb, intent, text), Some(MainMenu)),
                    Outbound(chatId, Closing(), None)];
      if WantsContact(text) then first + [Outbound(chatId, ContactReply(kb), None)] else first
  }

  // ---- The handler ----

  function Json(status: Status): Response {
    Response(200, JsonStatus(status))
  }

  /** The chat and text a request is answered with, when it is answered at all. */
  function Addressee(req: Request): Option<(int, string)> {
    if req.httpMethod == "POST" && req.body.Some? then
      match ResolveMessage(req.body.value)
      case Some(m) =>
        if m.chat.Some? then Some((m.chat.value.id, MessageText(req.body.value))) else None
      case None => None
    else None
  }

  /** The messages the handler tries to send when no call fails. */
  function Planned(kb: KnowledgeBase, req: Request, detect: string -> Intent): seq<Outbound> {
    match Addressee(req)
    case Some((id, text)) => Conversation(kb, id, text, detect(text))
    case None => []
  }

  /**
   * Sending `planned` in order when call number `throwsAt` (if any) throws:
   * the calls up to and including the failing one are made, the exception
   * is caught and logged, and the handler answers `error_logged`.
   */
  function Deliver(planned: seq<Outbound>, throwsAt: Option<nat>): (out: Outcome)
    ensures out.sends <= planned
    ensures out.response == Json(Ok) <==> out.sends == planned && (throwsAt.None? || throwsAt.value >= |planned|)
    ensures out.response == Json(Ok) || out.response == Json(ErrorLogged)
    ensures out.response == Json(ErrorLogged) ==> throwsAt.Some? && |out.sends| == throwsAt.value + 1
  {
    if throwsAt.Some? && throwsAt.value < |planned| then
      Outcome(planned[..throwsAt.value + 1], Json(ErrorLogged))
    else
      Outcome(planned, Json(Ok))
  }

  /**
   * `handler` with the classifier `detect`. A non-POST request is answered
   * with plain `OK`. A missing body or a message without a chat makes the
   * handler throw, which it logs. An update without a message is
   * `no_message`. Otherwise the conversation is sent and the answer is `ok`,
   * unless a send throws.
   */
  function HandleWith(kb: KnowledgeBase, req: Request, throwsAt: Option<nat>, detect: string -> Intent): (out: Outcome)
    ensures out.response.code == 200
    ensures req.httpMethod != "POST" ==> out == Outcome([], Response(200, PlainText("OK")))
    ensures req.httpMethod == "POST" ==> out.response.body.JsonStatus?
    ensures req.httpMethod == "POST" && req.body.None? ==> out == Outcome([], Json(ErrorLogged))
    ensures out.response == Json(NoMessage)
            <==> req.httpMethod == "POST" && req.body.Some? && ResolveMessage(req.body.value).None?
    ensures out.sends <= Planned(kb, req, detect)
    ensures out.sends != [] ==> Addressee(req).Some?
    ensures out.response == Json(Ok)
            <==> Addressee(req).Some? && out.sends == Planned(kb, req, detect)
                 && (throwsAt.None? || throwsAt.value >= |Planned(kb, req, detect)|)
  {
    if req.httpMethod != "POST" then
      Outcome([], Response(200, PlainText("OK")))
    else if req.body.None? then
      Outcome([], Json(ErrorLogged))
    else
      match ResolveMessage(req.body.value)
      case None => Outcome([], Json(NoMessage))
      case Some(m) =>
        if m.chat.None? then Outcome([], Json(ErrorLogged))
        else Deliver(Planned(kb, req, detect), throwsAt)
  }

  /** `handler` as written, with `detectIntent`. */
  function Handle(kb: KnowledgeBase, req: Request, throwsAt: Option<nat>): Outcome {
    HandleWith(kb, req, throwsAt, DetectIntent)
  }

  // ---- Properties of the handler ----

  /** Every message of one request goes to the chat the update came from. */
  lemma AllSendsToOneChat(kb: KnowledgeBase, req: Request, throwsAt: Option<nat>)
    ensures forall i :: 0 <= i < |Handle(kb, req, throwsAt).sends| ==>
              Addressee(req).Some? && Handle(kb, req, throwsAt).sends[i].chatId == Addressee(req).value.0
  {
    AllSendsToOneChatWith(kb, req, throwsAt, DetectIntent);
  }

  lemma AllSendsToOneChatWith(kb: KnowledgeBase, req: Request, throwsAt: Option<nat>, detect: string -> Intent)
    ensures forall i :: 0 <= i < |HandleWith(kb, req, throwsAt, detect).sends| ==>
              Addressee(req).Some? && HandleWith(kb, req, throwsAt, detect).sends[i].chatId == Addressee(req).value.0
  {
    var out := HandleWith(kb, req, throwsAt, detect);
    if out.sends != [] {
      var id := Addressee(req).value.0;
      var text := Addressee(req).value.1;
      var plan := Conversation(kb, id, text, detect(text));
      assert out.sends <= plan;
      assert forall i :: 0 <= i < |out.sends| ==> out.sends[i] == plan[i];
    }
  }

  /** Anything but POST is answered `OK` with nothing sent. */
  lemma NonPostIgnored(kb: KnowledgeBase, req: Request, throwsAt: Option<nat>)
    requires req.httpMethod != "POST"
    ensures Handle(kb, req, throwsAt).sends == []
    ensures Handle(kb, req, throwsAt).response == Response(200, PlainText("OK"))
  {
  }

  /** An update with neither a message, an edited message nor a callback message sends nothing. */
  lemma NoMessageSendsNothing(kb: KnowledgeBase, u: Update, throwsAt: Option<nat>)
    requires u.message.None? && u.editedMessage.None?
    requires u.callbackQuery.None? || u.callbackQuery.value.message.None?
    ensures Handle(kb, Request("POST", Some(u)), throwsAt) == Outcome([], Json(NoMessage))
  {
  }

  /** The update resolves to a message from chat `c`. */
  predicate FromChat(u: Update, c: Chat) {
    ResolveMessage(u).Some? && ResolveMessage(u).value.chat == Some(c)
  }

  /** `/start` sends exactly one message, the welcome, with the main menu keyboard. */
  lemma StartSendsWelcomeOnly(kb: KnowledgeBase, u: Update, c: Chat)
    requires FromChat(u, c)
    requires DetectIntent(MessageText(u)) == Start
    ensures Handle(kb, Request("POST", Some(u)), None)
            == Outcome([Outbound(c.id, Welcome(), Some(MainMenu))], Json(Ok))
  {
    StartSendsWelcomeOnlyWith(kb, u, c, DetectIntent);
  }

  lemma StartSendsWelcomeOnlyWith(kb: KnowledgeBase, u: Update, c: Chat, detect: string -> Intent)
    requires FromChat(u, c)
    requires detect(MessageText(u)) == Start
    ensures HandleWith(kb, Request("POST", Some(u)), None, detect)
            == Outcome([Outbound(c.id, Welcome(), Some(MainMenu))], Json(Ok))
  {
    var req := Request("POST", Some(u));
    assert Addressee(req) == Some((c.id, MessageText(u)));
  }

  /**
   * Any other intent sends its reply with the keyboard, then the closing
   * prompt, then the department contact exactly when the raw text matches
   * `contacto`, `hablar` or `tutor` in any letter case.
   */
  lemma OtherIntentsSendReplyThenClosing(kb: KnowledgeBase, u: Update, c: Chat)
    requires FromChat(u, c)
    requires DetectIntent(MessageText(u)) != Start
    ensures var out := Handle(kb, Request("POST", Some(u)), None);
            && out.response == Json(Ok)
            && out.sends == ReplyAndClosing(kb, c.id, MessageText(u), DetectIntent(MessageText(u)))
  {
    OtherIntentsSendReplyThenClosingWith(kb, u, c, DetectIntent);
  }

  /** What a non-start intent sends: reply with keyboard, closing, and contact when asked for. */
  function ReplyAndClosing(kb: KnowledgeBase, id: int, text: string, intent: Intent): seq<Outbound>
    requires intent != Start
  {
    [Outbound(id, PrimaryReply(kb, intent, text), Some(MainMenu)), Outbound(id, Closing(), None)]
      + (if WantsContact(text) then [Outbound(id, ContactReply(kb), None)] else [])
  }

  lemma OtherIntentsSendReplyThenClosingWith(kb: KnowledgeBase, u: Update, c: Chat, detect: string -> Intent)
    requires FromChat(u, c)
    requires detect(MessageText(u)) != Start
    ensures var out := HandleWith(kb, Request("POST", Some(u)), None, detect);
            && out.response == Json(Ok)
            && out.sends == ReplyAndClosing(kb, c.id, MessageText(u), detect(MessageText(u)))
  {
    var req := Request("POST", Some(u));
    var text := MessageText(u);
    assert Addressee(req) == Some((c.id, text));
    var sends := Conversation(kb, c.id, text, detect(text));
    var expected := ReplyAndClosing(kb, c.id, text, detect(text));
    assert |sends| == |expected|;
    assert forall i :: 0 <= i < |sends| ==> sends[i] == expected[i];
  }

  /** For any intent but `Start`, the first message is the intent's reply with the keyboard. */
  lemma FirstSendIsReply(kb: KnowledgeBase, u: Update, c: Chat, detect: string -> Intent, intent: Intent)
    requires FromChat(u, c)
    requires detect(MessageText(u)) == intent && intent != Start
    ensures var out := HandleWith(kb, Request("POST", Some(u)), None, detect);
            && out.response == Json(Ok)
            && out.sends != []
            && out.sends[0] == Outbound(c.id, PrimaryReply(kb, intent, MessageText(u)), Some(MainMenu))
  {
    OtherIntentsSendReplyThenClosingWith(kb, u, c, detect);
  }

  /** Empty text is `Fallback` and does not ask for contact. */
  lemma EmptyTextFacts(t: string)
    requires t == []
    ensures DetectIntent(t) == Fallback
    ensures !WantsContact(t)
  {
    BlankIsFallback(t);
    EmptyWantsNoContact(t);
  }

  lemma EmptyWantsNoContact(t: string)
    requires t == []
    ensures !WantsContact(t)
  {
    assert LowerStr(t) == [];
    EmptyContainsNone(ContactPatterns);
  }

  /**
   * A bare button press (a callback query and nothing else) has no text, so
   * it is answered with the fallback reply and the closing prompt.
   */
  lemma CallbackOnlyGetsFallback(kb: KnowledgeBase, u: Update, c: Chat)
    requires u.message.None? && u.editedMessage.None?
    requires u.callbackQuery.Some? && u.callbackQuery.value.message.Some?
    requires u.callbackQuery.value.message.value.chat == Some(c)
    ensures Handle(kb, Request("POST", Some(u)), None)
            == Outcome([Outbound(c.id, ReplyFallback(), Some(MainMenu)), Outbound(c.id, Closing(), None)], Json(Ok))
  {
    assert MessageText(u) == [] && FromChat(u, c);
    EmptyTextAnswer(kb, u, c);
    FallbackAndClosing(kb, c.id);
  }

  lemma EmptyTextAnswer(kb: KnowledgeBase, u: Update, c: Chat)
    requires MessageText(u) == [] && FromChat(u, c)
    ensures Handle(kb, Request("POST", Some(u)), None) == Outcome(ReplyAndClosing(kb, c.id, [], Fallback), Json(Ok))
  {
    EmptyTextFacts([]);
    OtherIntentsSendReplyThenClosing(kb, u, c);
  }

  lemma FallbackAndClosing(kb: KnowledgeBase, id: int)
    ensures ReplyAndClosing(kb, id, [], Fallback)
            == [Outbound(id, ReplyFallback(), Some(MainMenu)), Outbound(id, Closing(), None)]
  {
    EmptyTextFacts([]);
  }

  /** A `null` or `undefined` body makes `update.message` throw: logged, nothing sent. */
  lemma NullBodyIsLogged(kb: KnowledgeBase, throwsAt: Option<nat>)
    ensures Handle(kb, Request("POST", None), throwsAt) == Outcome([], Json(ErrorLogged))
  {
  }

  /** A message without a chat makes `msg.chat.id` throw: logged, nothing sent. */
  lemma MissingChatIsLogged(kb: KnowledgeBase, u: Update, throwsAt: Option<nat>)
    requires ResolveMessage(u).Some? && ResolveMessage(u).value.chat.None?
    ensures Handle(kb, Request("POST", Some(u)), throwsAt) == Outcome([], Json(ErrorLogged))
  {
  }

  /** A send that throws stops the conversation there: earlier messages stay sent, the error is logged. */
  lemma FailingSendStopsConversation(kb: KnowledgeBase, req: Request, i: nat)
    requires Addressee(req).Some? && i < |Planned(kb, req, DetectIntent)|
    ensures Handle(kb, req, Some(i)) == Outcome(Planned(kb, req, DetectIntent)[..i + 1], Json(ErrorLogged))
  {
  }
}
