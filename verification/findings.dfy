/**
 * The replies for schedules and tutors each have a branch for a text that
 * names one centre, and both close by suggesting such a text ("Horarios
 * Centro A", "Tutor Centro A"). But every centre name contains "centro",
 * and the centres rule of `detectIntent` is tried before the schedules and
 * tutors rules, so any text that names a centre is classified as a request
 * for the centre list: the single-centre branches are never reached through
 * the handler. This module exhibits that, and proves that the classifier
 * with schedules and tutors tried before centres delivers the single-centre
 * answer. As in the scenarios, facts about the suggested request are
 * stated for a parameter equal to it, to keep the literal out of the
 * definitions the verifier would otherwise unfold.
 */
module Findings {
  import opened Wrappers
  import opened Text
  import opened Knowledge
  import opened Intents
  import opened Replies
  import opened Webhook

  /** Every key of the table contains "centro" once lower-cased. */
  predicate NamesSayCentro<V>(table: seq<(string, V)>) {
    forall i :: 0 <= i < |table| ==> Contains(LowerStr(table[i].0), "centro")
  }

  lemma CentreNamesSayCentro()
    ensures NamesSayCentro(DB.schedules) && NamesSayCentro(DB.tutors)
  {
    TableSaysCentro(DB.schedules);
    TableSaysCentro(DB.tutors);
  }

  /** A two-entry table keyed by the bot's two centres. */
  lemma TableSaysCentro<V>(table: seq<(string, V)>)
    requires |table| == 2 && table[0].0 == "Centro A" && table[1].0 == "Centro B"
    ensures NamesSayCentro(table)
  {
    CentreNameSaysCentro(table[0].0);
    CentreNameSaysCentro(table[1].0);
  }

  /** A name that starts with "Centro" says "centro" once lower-cased. */
  lemma CentreNameSaysCentro(name: string)
    requires |name| >= 6 && name[..6] == "Centro"
    ensures Contains(LowerStr(name), "centro")
  {
    var l := LowerStr(name);
    forall i | 0 <= i < 6 ensures l[i] == "centro"[i] {
      assert name[i] == name[..6][i];
    }
    assert l[..6] == "centro";
    ContainsPrefix(l, "centro");
  }

  /** A text that mentions a name containing "centro" is classified `Centers`. */
  lemma NamingACentreMeansCenters(text: string, name: string)
    requires Contains(LowerStr(name), "centro") && Mentions(text, name)
    ensures DetectIntent(text) == Centers
  {
    ContainsTransitive(LowerStr(text), LowerStr(name), "centro");
    ContainsAfterTrim(LowerStr(text), "centro");
    assert CentersPatterns[0] == "centro";
    CentersOutranksLaterRules(text);
  }

  /**
   * As written: when every centre name contains "centro", a text the handler
   * classifies as `Schedules` or `Tutors` names no centre, so the handler
   * always answers with the full list.
   */
  lemma SingleCentreBranchUnreachable(kb: KnowledgeBase, text: string)
    requires NamesSayCentro(kb.schedules) && NamesSayCentro(kb.tutors)
    ensures DetectIntent(text) == Schedules ==> forall k: nat :: !FirstMentioned(kb.schedules, text, k)
    ensures DetectIntent(text) == Tutors ==> forall k: nat :: !FirstMentioned(kb.tutors, text, k)
  {
    forall k: nat | FirstMentioned(kb.schedules, text, k)
      ensures DetectIntent(text) == Centers
    {
      NamingACentreMeansCenters(text, kb.schedules[k].0);
    }
    forall k: nat | FirstMentioned(kb.tutors, text, k)
      ensures DetectIntent(text) == Centers
    {
      NamingACentreMeansCenters(text, kb.tutors[k].0);
    }
  }

  /** As written, the handler's schedules reply for the bot's own data is always the full table. */
  lemma SchedulesReplyAlwaysFullList(text: string)
    requires DetectIntent(text) == Schedules
    ensures SchedulesShown(PrimaryReply(DB, Schedules, text)) == DB.schedules
  {
    CentreNamesSayCentro();
    SingleCentreBranchUnreachable(DB, text);
  }

  /** As written, the handler's tutors reply for the bot's own data is always the full table. */
  lemma TutorsReplyAlwaysFullList(text: string)
    requires DetectIntent(text) == Tutors
    ensures TutorsShown(PrimaryReply(DB, Tutors, text)) == DB.tutors
  {
    CentreNamesSayCentro();
    SingleCentreBranchUnreachable(DB, text);
  }

  /** The suggested request "Horarios Centro A" lower-cases to this. */
  lemma SuggestedScheduleRequestLowered(t: string)
    requires t == "Horarios Centro A"
    ensures LowerStr(t) == "horarios centro a"
  {
  }

  /** ... which names "Centro A" ... */
  lemma SuggestedScheduleRequestNamesCentreA(t: string)
    requires t == "Horarios Centro A"
    ensures Mentions(t, "Centro A")
  {
    SuggestedScheduleRequestLowered(t);
    assert LowerStr("Centro A") == "centro a";
    ContainsAt(LowerStr(t), "centro a", 9);
  }

  /**
   * Counterexample, as written: the request the schedules reply itself
   * suggests gets the centres list, not the schedule of Centro A.
   */
  lemma SuggestedScheduleRequestGetsCentres(t: string)
    requires t == "Horarios Centro A"
    ensures DetectIntent(t) == Centers
    ensures CentersShown(PrimaryReply(DB, DetectIntent(t), t)) == DB.centers
    ensures SchedulesShown(PrimaryReply(DB, DetectIntent(t), t)) == []
  {
    SuggestedScheduleRequestNamesCentreA(t);
    CentreNameSaysCentro(DB.schedules[0].0);
    NamingACentreMeansCenters(t, DB.schedules[0].0);
  }

  // ---- Corrected ----

  /** The handler with schedules and tutors tried before centres. */
  function HandleCorrected(kb: KnowledgeBase, req: Request, throwsAt: Option<nat>): Outcome {
    HandleWith(kb, req, throwsAt, DetectIntentCorrected)
  }

  /**
   * Corrected: a text with a schedule word that names centre `k` first gets
   * exactly that centre's schedule, with the keyboard, followed by the
   * closing prompt.
   */
  lemma CorrectedScheduleForNamedCentre(kb: KnowledgeBase, u: Update, c: Chat, k: nat)
    requires FromChat(u, c)
    requires ContainsAny(Normalize(MessageText(u)), SchedulesPatterns)
    requires FirstMentioned(kb.schedules, MessageText(u), k)
    ensures var out := HandleCorrected(kb, Request("POST", Some(u)), None);
            && out.response == Json(Ok)
            && out.sends[0].chatId == c.id
            && out.sends[0].text[0] == ScheduleLine(kb.schedules[k].0, kb.schedules[k].1)
            && SchedulesShown(out.sends[0].text) == [kb.schedules[k]]
  {
    CorrectedSchedulesFirst(MessageText(u));
    ScheduleSentFor(kb, u, c, DetectIntentCorrected, k);
  }

  /** Whatever the classifier, a `Schedules` text naming centre `k` first is answered with that centre alone. */
  lemma ScheduleSentFor(kb: KnowledgeBase, u: Update, c: Chat, detect: string -> Intent, k: nat)
    requires FromChat(u, c) && detect(MessageText(u)) == Schedules
    requires FirstMentioned(kb.schedules, MessageText(u), k)
    ensures var out := HandleWith(kb, Request("POST", Some(u)), None, detect);
            && out.response == Json(Ok)
            && out.sends[0].chatId == c.id
            && out.sends[0].text[0] == ScheduleLine(kb.schedules[k].0, kb.schedules[k].1)
            && SchedulesShown(out.sends[0].text) == [kb.schedules[k]]
  {
    FirstSendIsReply(kb, u, c, detect, Schedules);
  }

  /**
   * Corrected: a text with a tutor word (and no schedule word) that names
   * centre `k` first gets exactly that centre's tutor.
   */
  lemma CorrectedTutorForNamedCentre(kb: KnowledgeBase, u: Update, c: Chat, k: nat)
    requires FromChat(u, c)
    requires ContainsAny(Normalize(MessageText(u)), TutorsPatterns)
    requires !ContainsAny(Normalize(MessageText(u)), SchedulesPatterns)
    requires FirstMentioned(kb.tutors, MessageText(u), k)
    ensures var out := HandleCorrected(kb, Request("POST", Some(u)), None);
            && out.response == Json(Ok)
            && out.sends[0].chatId == c.id
            && out.sends[0].text[0] == TutorLine(kb.tutors[k].0, kb.tutors[k].1)
            && TutorsShown(out.sends[0].text) == [kb.tutors[k]]
  {
    CorrectedTutorsSecond(MessageText(u));
    TutorSentFor(kb, u, c, DetectIntentCorrected, k);
  }

  /** Whatever the classifier, a `Tutors` text naming centre `k` first is answered with that centre's tutor alone. */
  lemma TutorSentFor(kb: KnowledgeBase, u: Update, c: Chat, detect: string -> Intent, k: nat)
    requires FromChat(u, c) && detect(MessageText(u)) == Tutors
    requires FirstMentioned(kb.tutors, MessageText(u), k)
    ensures var out := HandleWith(kb, Request("POST", Some(u)), None, detect);
            && out.response == Json(Ok)
            && out.sends[0].chatId == c.id
            && out.sends[0].text[0] == TutorLine(kb.tutors[k].0, kb.tutors[k].1)
            && TutorsShown(out.sends[0].text) == [kb.tutors[k]]
  {
    FirstSendIsReply(kb, u, c, detect, Tutors);
  }

  /** "Horarios Centro A" carries a schedule word ... */
  lemma SuggestedScheduleRequestSaysHorario(t: string)
    requires t == "Horarios Centro A"
    ensures ContainsAny(Normalize(t), SchedulesPatterns)
  {
    SuggestedScheduleRequestLowered(t);
    LoweredRequestSaysHorario(LowerStr(t));
    NormalizedContains(t, SchedulesPatterns, 0);
  }

  lemma LoweredRequestSaysHorario(l: string)
    requires l == "horarios centro a"
    ensures Contains(l, "horario")
  {
    ContainsPrefix(l, "horario");
  }

  /** ... and Centro A is the first centre it names. */
  lemma SuggestedScheduleRequestFirstNamesCentreA(t: string)
    requires t == "Horarios Centro A"
    ensures FirstMentioned(DB.schedules, t, 0)
  {
    SuggestedScheduleRequestNamesCentreA(t);
  }

  /** Corrected: "Horarios Centro A" gets the schedule of Centro A. */
  lemma CorrectedSuggestedScheduleRequest(t: string)
    requires t == "Horarios Centro A"
    ensures DetectIntentCorrected(t) == Schedules
    ensures PrimaryReply(DB, DetectIntentCorrected(t), t)[0] == ScheduleLine("Centro A", "Lun-Mié-Vie 14:30–17:30")
  {
    SuggestedScheduleRequestSaysHorario(t);
    CorrectedSchedulesFirst(t);
    SuggestedScheduleRequestFirstNamesCentreA(t);
  }
}
