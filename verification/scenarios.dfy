/**
 * Whole conversations for particular messages, each from chat `c`: what the
 * handler sends back for a greeting, a question about tutors that asks to
 * talk to someone, a bare keyword, the word the closing prompt invites, and
 * the labels of the main-menu buttons.
 *
 * Each fact about a particular message is stated for a parameter `t` with
 * `requires t == "..."` rather than for the literal itself: that keeps the
 * literal out of the definitions of `Normalize` and `DetectIntent`, which
 * the verifier would otherwise unfold character by character. The small
 * lemmas about which letters a message lacks, or where its only `c` or `h`
 * stands, serve the lemma for that message alone.
 */
module Scenarios {
  import opened Wrappers
  import opened Text
  import opened Knowledge
  import opened Intents
  import opened Replies
  import opened Webhook
  import opened Findings

  /** An update carrying a new message with text `t` from chat `c`. */
  function TextUpdate(c: Chat, t: string): Update {
    Update(Some(Message(Some(c), Some(t))), None, None)
  }

  lemma TextUpdateFacts(c: Chat, t: string)
    ensures FromChat(TextUpdate(c, t), c)
    ensures MessageText(TextUpdate(c, t)) == t
  {
  }

  // ---- "/start" ----

  /** `/start` in any case, with surrounding whitespace: the welcome and the keyboard, nothing else. */
  lemma StartConversation(kb: KnowledgeBase, c: Chat, ws1: string, t: string, ws2: string)
    requires AllSpace(ws1) && AllSpace(ws2) && LowerStr(t) == StartCommand
    ensures Handle(kb, Request("POST", Some(TextUpdate(c, ws1 + t + ws2))), None)
            == Outcome([Outbound(c.id, Welcome(), Some(MainMenu))], Json(Ok))
  {
    TextUpdateFacts(c, ws1 + t + ws2);
    StartCommandAnyCaseOrPadding(ws1, t, ws2);
    StartSendsWelcomeOnly(kb, TextUpdate(c, ws1 + t + ws2), c);
  }

  // ---- Deciding a rule from facts about the normalised text ----

  lemma TutorsRuleDecides(t: string)
    requires !Fires(Rules[0], Normalize(t)) && !Fires(Rules[1], Normalize(t)) && !Fires(Rules[2], Normalize(t))
    requires Fires(Rules[3], Normalize(t))
    ensures DetectIntent(t) == Tutors
  {
    ClassifyTextIsFirstMatch(Normalize(t));
    RulesWellFormed();
    ClassifyFirstMatch(Rules, Normalize(t), 3);
  }

  lemma RequirementsRuleDecides(t: string)
    requires !Fires(Rules[0], Normalize(t)) && !Fires(Rules[1], Normalize(t)) && !Fires(Rules[2], Normalize(t))
    requires !Fires(Rules[3], Normalize(t)) && Fires(Rules[4], Normalize(t))
    ensures DetectIntent(t) == Requirements
  {
    ClassifyTextIsFirstMatch(Normalize(t));
    RulesWellFormed();
    ClassifyFirstMatch(Rules, Normalize(t), 4);
  }

  lemma NoRuleMeansFallback(t: string)
    requires !Fires(Rules[0], Normalize(t)) && !Fires(Rules[1], Normalize(t)) && !Fires(Rules[2], Normalize(t))
    requires !Fires(Rules[3], Normalize(t)) && !Fires(Rules[4], Normalize(t)) && !Fires(Rules[5], Normalize(t))
    ensures DetectIntent(t) == Fallback
  {
    ClassifyTextIsFirstMatch(Normalize(t));
    RulesWellFormed();
    ClassifyFallback(Rules, Normalize(t));
  }

  /** Lower-case text without surrounding whitespace is its own normal form. */
  lemma PlainTextIsNormal(t: string)
    requires forall c :: c in t ==> !IsUpper(c)
    requires t != [] && !IsSpace(t[0]) && !IsSpace(t[|t| - 1])
    ensures LowerStr(t) == t && Normalize(t) == t
  {
    LowerStrKeepsLower(t);
    TrimUnpadded(t);
  }

  // ---- "quiero hablar con un tutor" ----

  /** Letters the sentence lacks, and the letters that occur in it only once. */
  lemma TalkToTutorLacks(s: string)
    requires s == "quiero hablar con un tutor"
    ensures 'g' !in s && 'ó' !in s && 'd' !in s && 'á' !in s && 'é' !in s
  {
  }

  lemma TalkToTutorOneC(s: string)
    requires s == "quiero hablar con un tutor"
    ensures |s| == 26 && s[14] == 'c' && s[15] == 'o' && 'c' !in s[..14] && 'c' !in s[15..]
  {
  }

  lemma TalkToTutorOneB(s: string)
    requires s == "quiero hablar con un tutor"
    ensures |s| == 26 && s[9] == 'b' && s[8] == 'a' && 'b' !in s[..9] && 'b' !in s[10..]
  {
  }

  lemma TalkToTutorOneH(s: string)
    requires s == "quiero hablar con un tutor"
    ensures |s| == 26 && s[7] == 'h' && s[8] == 'a' && 'h' !in s[..7] && 'h' !in s[8..]
  {
  }

  lemma TalkToTutorOneQ(s: string)
    requires s == "quiero hablar con un tutor"
    ensures |s| == 26 && s[0] == 'q' && 'q' !in s[1..]
  {
  }

  lemma TalkToTutorNamesNoCentre(s: string)
    requires s == "quiero hablar con un tutor"
    ensures !Fires(Rules[1], s)
  {
    TalkToTutorLacks(s);
    TalkToTutorOneC(s);
    TalkToTutorOneB(s);
    NotContainsByAnchor(s, "centro", 0, 14, 1);
    NotContainsByAbsent(s, "lugares", 2);
    NotContainsByAnchor(s, "ubicacion", 1, 9, 0);
    NotContainsByAbsent(s, "ubicación", 7);
    NotContainsByAbsent(s, "dónde", 0);
    NoCentreWord(s);
  }

  lemma TalkToTutorNamesNoTime(s: string)
    requires s == "quiero hablar con un tutor"
    ensures !Fires(Rules[2], s)
  {
    TalkToTutorLacks(s);
    TalkToTutorOneH(s);
    TalkToTutorOneQ(s);
    NotContainsByAnchor(s, "horario", 0, 7, 1);
    NotContainsByAbsent(s, "cuando", 4);
    NotContainsByAbsent(s, "cuándo", 2);
    NotContainsByAnchor(s, "a que hora", 2, 0, 0);
    NotContainsByAbsent(s, "a qué hora", 4);
    NoScheduleWord(s);
  }

  lemma TalkToTutorNamesATutor(s: string)
    requires s == "quiero hablar con un tutor"
    ensures !Fires(Rules[0], s) && Fires(Rules[3], s)
  {
    ContainsAt(s, "tutor", 21);
    assert TutorsPatterns[0] == "tutor";
  }

  lemma TalkToTutorAsksToTalk(t: string)
    requires t == "quiero hablar con un tutor"
    ensures WantsContact(t)
  {
    TalkToTutorIsLower(t);
    TalkToTutorSaysHablar(LowerStr(t));
    WantsContactBy(t, 1);
  }

  lemma TalkToTutorIsLower(t: string)
    requires t == "quiero hablar con un tutor"
    ensures LowerStr(t) == "quiero hablar con un tutor"
  {
    LowerStrKeepsLower(t);
  }

  lemma TalkToTutorSaysHablar(s: string)
    requires s == "quiero hablar con un tutor"
    ensures Contains(s, ContactPatterns[1])
  {
    ContainsAt(s, "hablar", 7);
  }

  lemma TalkToTutorIsTutors(t: string)
    requires t == "quiero hablar con un tutor"
    ensures DetectIntent(t) == Tutors && WantsContact(t)
  {
    PlainTextIsNormal(t);
    TalkToTutorNamesNoCentre(Normalize(t));
    TalkToTutorNamesNoTime(Normalize(t));
    TalkToTutorNamesATutor(Normalize(t));
    TutorsRuleDecides(t);
    TalkToTutorAsksToTalk(t);
  }

  /**
   * "quiero hablar con un tutor": every tutor with the keyboard, the closing
   * prompt, then the department contact.
   */
  lemma TalkToTutorConversation(c: Chat, t: string)
    requires t == "quiero hablar con un tutor"
    ensures var out := Handle(DB, Request("POST", Some(TextUpdate(c, t))), None);
            && out.response == Json(Ok)
            && |out.sends| == 3
            && out.sends[0].keyboard == Some(MainMenu)
            && TutorsShown(out.sends[0].text) == DB.tutors
            && out.sends[1] == Outbound(c.id, Closing(), None)
            && out.sends[2] == Outbound(c.id, ContactReply(DB), None)
  {
    TextUpdateFacts(c, t);
    TalkToTutorIsTutors(t);
    TutorsReplyAlwaysFullList(t);
    OtherIntentsSendReplyThenClosing(DB, TextUpdate(c, t), c);
  }

  // ---- "requisitos" ----

  lemma RequirementsWordLacks(s: string)
    requires s == "requisitos"
    ensures 'c' !in s && 'l' !in s && 'b' !in s && 'd' !in s && 'h' !in s && 'a' !in s && 'n' !in s && 'p' !in s
  {
  }

  lemma RequirementsWordOneT(s: string)
    requires s == "requisitos"
    ensures |s| == 10 && s[7] == 't' && 't' !in s[..7] && 't' !in s[8..]
  {
  }

  lemma RequirementsWordNotCentre(s: string)
    requires s == "requisitos"
    ensures !Fires(Rules[0], s) && !Fires(Rules[1], s)
  {
    RequirementsWordLacks(s);
    NotContainsByAbsent(s, "centro", 0);
    NotContainsByAbsent(s, "lugares", 0);
    NotContainsByAbsent(s, "ubicacion", 1);
    NotContainsByAbsent(s, "ubicación", 1);
    NotContainsByAbsent(s, "dónde", 0);
    NoCentreWord(s);
  }

  lemma RequirementsWordNotTime(s: string)
    requires s == "requisitos"
    ensures !Fires(Rules[2], s)
  {
    RequirementsWordLacks(s);
    NotContainsByAbsent(s, "horario", 0);
    NotContainsByAbsent(s, "cuando", 0);
    NotContainsByAbsent(s, "cuándo", 0);
    NotContainsByAbsent(s, "a que hora", 0);
    NotContainsByAbsent(s, "a qué hora", 0);
    NoScheduleWord(s);
  }

  /** The only `t` of "requisitos" is too near the end to start "tutor". */
  lemma RequirementsWordNotTutor(s: string)
    requires s == "requisitos"
    ensures !Fires(Rules[3], s) && Fires(Rules[4], s)
  {
    RequirementsWordLacks(s);
    RequirementsWordOneT(s);
    NotContainsByAnchor(s, "tutor", 0, 7, 0);
    NotContainsByAbsent(s, "encargad", 1);
    NotContainsByAbsent(s, "responsable", 3);
    NoTutorWord(s);
  }

  lemma RequirementsWordNoContact(t: string)
    requires t == "requisitos"
    ensures !WantsContact(t)
  {
    LowerStrKeepsLower(t);
    RequirementsWordLacks(LowerStr(t));
    RequirementsWordOneT(LowerStr(t));
    NotContainsByAbsent(LowerStr(t), "contacto", 0);
    NotContainsByAbsent(LowerStr(t), "hablar", 0);
    NotContainsByAnchor(LowerStr(t), "tutor", 0, 7, 0);
    NoContactWord(LowerStr(t));
  }

  lemma RequirementsWordIsRequirements(t: string)
    requires t == "requisitos"
    ensures DetectIntent(t) == Requirements && !WantsContact(t)
  {
    PlainTextIsNormal(t);
    RequirementsWordNotCentre(Normalize(t));
    RequirementsWordNotTime(Normalize(t));
    RequirementsWordNotTutor(Normalize(t));
    RequirementsRuleDecides(t);
    RequirementsWordNoContact(t);
  }

  /** "requisitos": every requirement with the keyboard, then the closing prompt; no contact. */
  lemma RequirementsConversation(c: Chat, t: string)
    requires t == "requisitos"
    ensures var out := Handle(DB, Request("POST", Some(TextUpdate(c, t))), None);
            && out.response == Json(Ok)
            && |out.sends| == 2
            && out.sends[0].keyboard == Some(MainMenu)
            && RequirementsShown(out.sends[0].text) == DB.requirements
            && out.sends[1] == Outbound(c.id, Closing(), None)
  {
    TextUpdateFacts(c, t);
    RequirementsWordIsRequirements(t);
    OtherIntentsSendReplyThenClosing(DB, TextUpdate(c, t), c);
  }

  // ---- "contacto" ----

  lemma ContactWordLacks(s: string)
    requires s == "contacto"
    ensures 'e' !in s && 'l' !in s && 'u' !in s && 'd' !in s && 'h' !in s && ' ' !in s
    ensures 'r' !in s && 'i' !in s && 'q' !in s && 'm' !in s && 'p' !in s && 'y' !in s
  {
  }

  lemma ContactWordNotCentre(s: string)
    requires s == "contacto"
    ensures !Fires(Rules[0], s) && !Fires(Rules[1], s)
  {
    ContactWordLacks(s);
    NotContainsByAbsent(s, "centro", 1);
    NotContainsByAbsent(s, "lugares", 0);
    NotContainsByAbsent(s, "ubicacion", 0);
    NotContainsByAbsent(s, "ubicación", 0);
    NotContainsByAbsent(s, "dónde", 0);
    NoCentreWord(s);
  }

  lemma ContactWordNotTime(s: string)
    requires s == "contacto"
    ensures !Fires(Rules[2], s)
  {
    ContactWordLacks(s);
    NotContainsByAbsent(s, "horario", 0);
    NotContainsByAbsent(s, "cuando", 1);
    NotContainsByAbsent(s, "cuándo", 1);
    NotContainsByAbsent(s, "a que hora", 1);
    NotContainsByAbsent(s, "a qué hora", 1);
    NoScheduleWord(s);
  }

  lemma ContactWordNotTutor(s: string)
    requires s == "contacto"
    ensures !Fires(Rules[3], s)
  {
    ContactWordLacks(s);
    NotContainsByAbsent(s, "tutor", 1);
    NotContainsByAbsent(s, "encargad", 0);
    NotContainsByAbsent(s, "responsable", 0);
    NoTutorWord(s);
  }

  lemma ContactWordNotRequirement(s: string)
    requires s == "contacto"
    ensures !Fires(Rules[4], s)
  {
    ContactWordLacks(s);
    NotContainsByAbsent(s, "requisito", 0);
    NotContainsByAbsent(s, "inscrip", 0);
    NotContainsByAbsent(s, "requer", 0);
    NotContainsByAbsent(s, "que necesito", 0);
    NotContainsByAbsent(s, "qué necesito", 0);
    NoRequirementWord(s);
  }

  lemma ContactWordNotMenu(s: string)
    requires s == "contacto"
    ensures !Fires(Rules[5], s)
  {
    ContactWordLacks(s);
    NotContainsByAbsent(s, "menu", 0);
    NotContainsByAbsent(s, "menú", 0);
    NotContainsByAbsent(s, "opciones", 1);
    NotContainsByAbsent(s, "ayuda", 1);
    NoMenuWord(s);
  }

  lemma ContactWordAsksForContact(t: string)
    requires t == "contacto"
    ensures WantsContact(t)
  {
    LowerStrKeepsLower(t);
    ContainsPrefix(LowerStr(t), "contacto");
    WantsContactBy(t, 0);
  }

  lemma ContactWordIsFallback(t: string)
    requires t == "contacto"
    ensures DetectIntent(t) == Fallback && WantsContact(t)
  {
    PlainTextIsNormal(t);
    ContactWordNotCentre(Normalize(t));
    ContactWordNotTime(Normalize(t));
    ContactWordNotTutor(Normalize(t));
    ContactWordNotRequirement(Normalize(t));
    ContactWordNotMenu(Normalize(t));
    NoRuleMeansFallback(t);
    ContactWordAsksForContact(t);
  }

  /** What the fallback intent sends when the text asks for contact. */
  lemma FallbackWithContact(kb: KnowledgeBase, id: int, text: string)
    requires WantsContact(text)
    ensures ReplyAndClosing(kb, id, text, Fallback)
            == [Outbound(id, ReplyFallback(), Some(MainMenu)),
                Outbound(id, Closing(), None),
                Outbound(id, ContactReply(kb), None)]
  {
  }

  /**
   * "contacto", the word the closing prompt invites, matches no rule: the
   * fallback reply, the closing prompt, then the department contact.
   */
  lemma ContactWordConversation(c: Chat, t: string)
    requires t == "contacto"
    ensures DetectIntent(t) == Fallback
    ensures Handle(DB, Request("POST", Some(TextUpdate(c, t))), None)
            == Outcome([Outbound(c.id, ReplyFallback(), Some(MainMenu)),
                        Outbound(c.id, Closing(), None),
                        Outbound(c.id, ContactReply(DB), None)], Json(Ok))
  {
    TextUpdateFacts(c, t);
    ContactWordIsFallback(t);
    OtherIntentsSendReplyThenClosing(DB, TextUpdate(c, t), c);
    FallbackWithContact(DB, c.id, t);
  }

  // ---- The buttons of the main menu ----

  /** A text whose lower-case form is already trimmed normalises to that form. */
  lemma LowersTo(t: string, l: string)
    requires LowerStr(t) == l && l != [] && !IsSpace(l[0]) && !IsSpace(l[|l| - 1])
    ensures Normalize(t) == l
  {
    TrimUnpadded(l);
  }

  lemma SchedulesRuleDecides(t: string)
    requires !Fires(Rules[0], Normalize(t)) && !Fires(Rules[1], Normalize(t))
    requires Fires(Rules[2], Normalize(t))
    ensures DetectIntent(t) == Schedules
  {
    ClassifyTextIsFirstMatch(Normalize(t));
    RulesWellFormed();
    ClassifyFirstMatch(Rules, Normalize(t), 2);
  }

  lemma CentresButtonLowered(t: string)
    requires t == "Centros"
    ensures LowerStr(t) == "centros"
  {
  }

  /** The "Centros" button says "centro". */
  lemma CentresButtonIsCenters(t: string)
    requires t == "Centros"
    ensures DetectIntent(t) == Centers
  {
    CentresButtonLowered(t);
    ContainsPrefix(LowerStr(t), "centro");
    NormalizedContains(t, CentersPatterns, 0);
    CentersOutranksLaterRules(t);
  }

  lemma SchedulesButtonLowered(t: string)
    requires t == "Horarios"
    ensures LowerStr(t) == "horarios"
  {
  }

  lemma SchedulesWordLacks(s: string)
    requires s == "horarios"
    ensures 'c' !in s && 'l' !in s && 'u' !in s && 'd' !in s
  {
  }

  lemma SchedulesWordNotCentre(s: string)
    requires s == "horarios"
    ensures !Fires(Rules[0], s) && !Fires(Rules[1], s) && Fires(Rules[2], s)
  {
    SchedulesWordLacks(s);
    NotContainsByAbsent(s, "centro", 0);
    NotContainsByAbsent(s, "lugares", 0);
    NotContainsByAbsent(s, "ubicacion", 0);
    NotContainsByAbsent(s, "ubicación", 0);
    NotContainsByAbsent(s, "dónde", 0);
    NoCentreWord(s);
  }

  /** The "Horarios" button is the schedules keyword itself and names no centre. */
  lemma SchedulesButtonIsSchedules(t: string)
    requires t == "Horarios"
    ensures DetectIntent(t) == Schedules
  {
    SchedulesButtonLowered(t);
    LowersTo(t, "horarios");
    SchedulesWordNotCentre(Normalize(t));
    SchedulesRuleDecides(t);
  }

  lemma TutorsButtonLowered(t: string)
    requires t == "Tutores"
    ensures LowerStr(t) == "tutores"
  {
  }

  lemma TutorsWordLacks(s: string)
    requires s == "tutores"
    ensures 'c' !in s && 'l' !in s && 'b' !in s && 'd' !in s && 'h' !in s && 'a' !in s
  {
  }

  lemma TutorsWordNotCentre(s: string)
    requires s == "tutores"
    ensures !Fires(Rules[0], s) && !Fires(Rules[1], s)
  {
    TutorsWordLacks(s);
    NotContainsByAbsent(s, "centro", 0);
    NotContainsByAbsent(s, "lugares", 0);
    NotContainsByAbsent(s, "ubicacion", 1);
    NotContainsByAbsent(s, "ubicación", 1);
    NotContainsByAbsent(s, "dónde", 0);
    NoCentreWord(s);
  }

  lemma TutorsWordNotTime(s: string)
    requires s == "tutores"
    ensures !Fires(Rules[2], s) && Fires(Rules[3], s)
  {
    TutorsWordLacks(s);
    NotContainsByAbsent(s, "horario", 0);
    NotContainsByAbsent(s, "cuando", 0);
    NotContainsByAbsent(s, "cuándo", 0);
    NotContainsByAbsent(s, "a que hora", 0);
    NotContainsByAbsent(s, "a qué hora", 0);
    NoScheduleWord(s);
  }

  /** The "Tutores" button is the tutors keyword itself and names no centre or schedule. */
  lemma TutorsButtonIsTutors(t: string)
    requires t == "Tutores"
    ensures DetectIntent(t) == Tutors
  {
    TutorsButtonLowered(t);
    LowersTo(t, "tutores");
    TutorsWordNotCentre(Normalize(t));
    TutorsWordNotTime(Normalize(t));
    TutorsRuleDecides(t);
  }

  lemma RequirementsButtonLowered(t: string)
    requires t == "Requisitos"
    ensures LowerStr(t) == "requisitos"
  {
  }

  /** The "Requisitos" button is the requirements keyword itself. */
  lemma RequirementsButtonIsRequirements(t: string)
    requires t == "Requisitos"
    ensures DetectIntent(t) == Requirements
  {
    RequirementsButtonLowered(t);
    LowersTo(t, "requisitos");
    RequirementsWordNotCentre(Normalize(t));
    RequirementsWordNotTime(Normalize(t));
    RequirementsWordNotTutor(Normalize(t));
    RequirementsRuleDecides(t);
  }

  /**
   * Pressing a button of the main menu sends its label as text, and each of
   * the four labels is classified as the intent it names.
   */
  lemma MenuButtonsLeadToTheirIntents()
    ensures |MainMenu.rows| == 2 && |MainMenu.rows[0]| == 2 && |MainMenu.rows[1]| == 2
    ensures DetectIntent(MainMenu.rows[0][0]) == Centers
    ensures DetectIntent(MainMenu.rows[0][1]) == Schedules
    ensures DetectIntent(MainMenu.rows[1][0]) == Tutors
    ensures DetectIntent(MainMenu.rows[1][1]) == Requirements
  {
    CentresButtonIsCenters(MainMenu.rows[0][0]);
    SchedulesButtonIsSchedules(MainMenu.rows[0][1]);
    TutorsButtonIsTutors(MainMenu.rows[1][0]);
    RequirementsButtonIsRequirements(MainMenu.rows[1][1]);
  }
}
