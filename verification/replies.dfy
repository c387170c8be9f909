/**
 * The reply formatters `replyCentros`, `replyHorarios`, `replyTutores`,
 * `replyRequisitos` and `replyFallback`. A reply is the sequence of its
 * lines; each line records which knowledge-base data it shows rather than its
 * exact Markdown and emoji bytes.
 */
module Replies {
  import opened Wrappers
  import opened Text
  import opened Search
  import opened Knowledge

  datatype Line =
    | Title(text: string)
    | Prose(text: string)
    | Blank
    | CenterLine(center: Center)
    | ScheduleLine(centre: string, schedule: string)
    | TutorLine(centre: string, tutor: Tutor)
    | Bullet(item: string)
    | ContactLine(address: string)

  type Reply = seq<Line>

  // The fixed wording of the replies, without emoji and Markdown markers.
  const CentersTitle: string := "Centros de Voluntariado en Loja"
  const CentersPrompt: string := "¿Te interesa alguno? Dime el nombre del centro para ver horarios y tutor."
  const SchedulesTitle: string := "Horarios por Centro"
  const ScheduleFollowUp: string := "¿Deseas contacto del tutor o ver requisitos?"
  const SchedulesHint: string := "Puedes escribir: Horarios Centro A, por ejemplo."
  const TutorsTitle: string := "Tutores por Centro"
  const TutorFollowUp: string := "¿Te comparto también horarios o requisitos?"
  const TutorsHint: string := "Puedes escribir: Tutor Centro A, por ejemplo."
  const RequirementsTitle: string := "Requisitos para Participar"
  const RequirementsPrompt: string := "¿Deseas el formulario de inscripción o hablar con un tutor?"
  const FallbackApology: string := "No logré entender del todo tu consulta"
  const FallbackSuggestion: string := "Prueba con Centros, Horarios, Tutores o Requisitos, o escribe menú."

  // ---- Lists of items and reading them back ----

  /** One line per item, in order (`Array.prototype.map`). */
  function Lines<T>(xs: seq<T>, item: T -> Line): (r: Reply)
    ensures |r| == |xs|
    ensures forall i :: 0 <= i < |xs| ==> r[i] == item(xs[i])
  {
    if xs == [] then [] else [item(xs[0])] + Lines(xs[1..], item)
  }

  /** The items a reply shows, in order, as recognised by `pick`. */
  function Collect<T>(r: Reply, pick: Line -> Option<T>): seq<T>
  {
    if r == [] then []
    else (match pick(r[0]) case Some(x) => [x] case None => []) + Collect(r[1..], pick)
  }

  lemma {:induction false} CollectAppend<T>(a: Reply, b: Reply, pick: Line -> Option<T>)
    ensures Collect(a + b, pick) == Collect(a, pick) + Collect(b, pick)
    decreases |a|
  {
    if a != [] {
      assert (a + b)[0] == a[0];
      assert (a + b)[1..] == a[1..] + b;
      CollectAppend(a[1..], b, pick);
    } else {
      assert a + b == b;
    }
  }

  /** Reading back the lines of a list gives the list: nothing dropped, added or reordered. */
  lemma {:induction false} CollectLines<T>(xs: seq<T>, item: T -> Line, pick: Line -> Option<T>)
    requires forall x :: pick(item(x)) == Some(x)
    ensures Collect(Lines(xs, item), pick) == xs
    decreases |xs|
  {
    if xs != [] {
      var r := Lines(xs, item);
      assert r[1..] == Lines(xs[1..], item);
      CollectLines(xs[1..], item, pick);
      assert xs == [xs[0]] + xs[1..];
    }
  }

  function AsCenter(l: Line): Option<Center> {
    if l.CenterLine? then Some(l.center) else None
  }

  function AsSchedule(l: Line): Option<(string, string)> {
    if l.ScheduleLine? then Some((l.centre, l.schedule)) else None
  }

  function AsTutor(l: Line): Option<(string, Tutor)> {
    if l.TutorLine? then Some((l.centre, l.tutor)) else None
  }

  function AsBullet(l: Line): Option<string> {
    if l.Bullet? then Some(l.item) else None
  }

  /** The centres, schedules, tutors and requirements a reply shows, each in order. */
  function CentersShown(r: Reply): seq<Center> { Collect(r, AsCenter) }
  function SchedulesShown(r: Reply): seq<(string, string)> { Collect(r, AsSchedule) }
  function TutorsShown(r: Reply): seq<(string, Tutor)> { Collect(r, AsTutor) }
  function RequirementsShown(r: Reply): seq<string> { Collect(r, AsBullet) }

  /** A reply made only of fixed wording shows no knowledge-base data. */
  predicate ShowsNoData(r: Reply) {
    forall i :: 0 <= i < |r| ==> r[i].Title? || r[i].Prose? || r[i].Blank?
  }

  lemma {:induction false} NoDataCollectsNothing(r: Reply)
    requires ShowsNoData(r)
    ensures CentersShown(r) == [] && SchedulesShown(r) == []
    ensures TutorsShown(r) == [] && RequirementsShown(r) == []
    decreases |r|
  {
    if r != [] {
      NoDataCollectsNothing(r[1..]);
    }
  }

  // ---- Which centre the text names ----

  /** `text.toLowerCase().includes(name.toLowerCase())` */
  predicate Mentions(text: string, name: string) {
    Contains(LowerStr(text), LowerStr(name))
  }

  /**
   * Entry `k` is the one `find` returns and the following `if (found)`
   * accepts: its name is mentioned, no earlier name is, and the name is not
   * the empty string (which JavaScript treats as false).
   */
  predicate FirstMentioned<V>(entries: seq<(string, V)>, text: string, k: nat) {
    && k < |entries|
    && Mentions(text, entries[k].0)
    && entries[k].0 != []
    && forall j :: 0 <= j < k ==> !Mentions(text, entries[j].0)
  }

  /** `centros.find(c => text.toLowerCase().includes(c.toLowerCase()))` followed by `if (found)`. */
  function FindMentioned<V>(entries: seq<(string, V)>, text: string): (o: Option<nat>)
    ensures o.Some? ==> FirstMentioned(entries, text, o.value)
    ensures o.None? ==> forall k: nat :: !FirstMentioned(entries, text, k)
  {
    var k := FindFirst(entries, (e: (string, V)) => Mentions(text, e.0));
    if k < |entries| && entries[k].0 != [] then Some(k) else None
  }

  /**
   * For a valid knowledge base, the schedule and tutor lookups of
   * `replyHorarios` and `replyTutores` find a centre exactly when the text
   * mentions the name of some centre.
   */
  lemma FirstMentionedIffNamed(kb: KnowledgeBase, text: string)
    requires Valid(kb)
    ensures FindMentioned(kb.schedules, text).Some?
            <==> exists i :: 0 <= i < |kb.centers| && Mentions(text, kb.centers[i].name)
    ensures FindMentioned(kb.tutors, text).Some?
            <==> exists i :: 0 <= i < |kb.centers| && Mentions(text, kb.centers[i].name)
  {
    TableFirstMentionedIffNamed(kb.schedules, kb.centers, text);
    TableFirstMentionedIffNamed(kb.tutors, kb.centers, text);
  }

  /** A table keyed by the (non-empty) centre names finds an entry exactly when some centre is named. */
  lemma {:induction false} TableFirstMentionedIffNamed<V>(table: seq<(string, V)>, cs: seq<Center>, text: string)
    requires Keys(table) == Names(cs)
    requires forall i :: 0 <= i < |cs| ==> cs[i].name != []
    ensures FindMentioned(table, text).Some? <==> exists i :: 0 <= i < |cs| && Mentions(text, cs[i].name)
  {
    assert |table| == |cs| by {
      assert |Keys(table)| == |Names(cs)|;
    }
    assert forall i :: 0 <= i < |cs| ==> table[i].0 == cs[i].name by {
      forall i | 0 <= i < |cs| ensures table[i].0 == cs[i].name {
        assert Keys(table)[i] == Names(cs)[i];
      }
    }
    forall i: nat | i < |cs| && Mentions(text, cs[i].name)
      ensures FindMentioned(table, text).Some?
    {
      NamedEntryFound(table, text, i);
    }
  }

  /** When entry `i` is mentioned and no key is empty, the lookup finds an entry. */
  lemma {:induction false} NamedEntryFound<V>(table: seq<(string, V)>, text: string, i: nat)
    requires i < |table| && Mentions(text, table[i].0)
    requires forall j :: 0 <= j < |table| ==> table[j].0 != []
    ensures FindMentioned(table, text).Some?
  {
  }

  // ---- The formatters ----

  /** Fixed lines before and after a list add nothing to what the reply shows. */
  lemma Framed(head: Reply, items: Reply, tail: Reply)
    requires ShowsNoData(head) && ShowsNoData(tail)
    ensures CentersShown(head + items + tail) == CentersShown(items)
    ensures SchedulesShown(head + items + tail) == SchedulesShown(items)
    ensures TutorsShown(head + items + tail) == TutorsShown(items)
    ensures RequirementsShown(head + items + tail) == RequirementsShown(items)
  {
    NoDataCollectsNothing(head);
    NoDataCollectsNothing(tail);
    CollectAppend(head, items, AsCenter);
    CollectAppend(head + items, tail, AsCenter);
    CollectAppend(head, items, AsSchedule);
    CollectAppend(head + items, tail, AsSchedule);
    CollectAppend(head, items, AsTutor);
    CollectAppend(head + items, tail, AsTutor);
    CollectAppend(head, items, AsBullet);
    CollectAppend(head + items, tail, AsBullet);
  }

  /** Lines that `pick` does not recognise contribute nothing to what it collects. */
  lemma {:induction false} CollectLinesNone<T, U>(xs: seq<T>, item: T -> Line, pick: Line -> Option<U>)
    requires forall x :: pick(item(x)) == None
    ensures Collect(Lines(xs, item), pick) == []
    decreases |xs|
  {
    if xs != [] {
      var r := Lines(xs, item);
      assert r[1..] == Lines(xs[1..], item);
      CollectLinesNone(xs[1..], item, pick);
    }
  }

  /** `replyCentros`: every centre with its address and activities, in order, between a title and a prompt. */
  function ReplyCentros(kb: KnowledgeBase): (r: Reply)
    ensures |r| == |kb.centers| + 3
    ensures r[0] == Title(CentersTitle) && r[|r| - 1] == Prose(CentersPrompt)
    ensures CentersShown(r) == kb.centers
    ensures SchedulesShown(r) == [] && TutorsShown(r) == [] && RequirementsShown(r) == []
  {
    var item := (c: Center) => CenterLine(c);
    var items := Lines(kb.centers, item);
    var head: Reply := [Title(CentersTitle)];
    var tail: Reply := [Blank, Prose(CentersPrompt)];
    Framed(head, items, tail);
    CollectLines(kb.centers, item, AsCenter);
    CollectLinesNone(kb.centers, item, AsSchedule);
    CollectLinesNone(kb.centers, item, AsTutor);
    CollectLinesNone(kb.centers, item, AsBullet);
    head + items + tail
  }

  /**
   * `replyHorarios`: when the text names a centre, the schedule of the first
   * such centre (in table order) and nothing else; otherwise every schedule,
   * in table order.
   */
  function ReplyHorarios(kb: KnowledgeBase, text: string): (r: Reply)
    ensures r != []
    ensures forall k: nat :: FirstMentioned(kb.schedules, text, k) ==>
              r[0] == ScheduleLine(kb.schedules[k].0, kb.schedules[k].1)
              && SchedulesShown(r) == [kb.schedules[k]]
    ensures (forall k: nat :: !FirstMentioned(kb.schedules, text, k)) ==>
              r[0] == Title(SchedulesTitle) && SchedulesShown(r) == kb.schedules
    ensures CentersShown(r) == [] && TutorsShown(r) == [] && RequirementsShown(r) == []
  {
    var item := (e: (string, string)) => ScheduleLine(e.0, e.1);
    match FindMentioned(kb.schedules, text)
    case Some(k) =>
      var items := Lines([kb.schedules[k]], item);
      var tail: Reply := [Prose(ScheduleFollowUp)];
      FirstMentionedUnique(kb.schedules, text, k);
      Framed([], items, tail);
      CollectLines([kb.schedules[k]], item, AsSchedule);
      CollectLinesNone([kb.schedules[k]], item, AsCenter);
      CollectLinesNone([kb.schedules[k]], item, AsTutor);
      CollectLinesNone([kb.schedules[k]], item, AsBullet);
      assert [] + items + tail == items + tail;
      items + tail
    case None =>
      var items := Lines(kb.schedules, item);
      var head: Reply := [Title(SchedulesTitle)];
      var tail: Reply := [Blank, Prose(SchedulesHint)];
      Framed(head, items, tail);
      CollectLines(kb.schedules, item, AsSchedule);
      CollectLinesNone(kb.schedules, item, AsCenter);
      CollectLinesNone(kb.schedules, item, AsTutor);
      CollectLinesNone(kb.schedules, item, AsBullet);
      head + items + tail
  }

  /**
   * `replyTutores`: when the text names a centre, the tutor of the first
   * such centre (in table order) and nothing else; otherwise every tutor,
   * in table order.
   */
  function ReplyTutores(kb: KnowledgeBase, text: string): (r: Reply)
    ensures r != []
    ensures forall k: nat :: FirstMentioned(kb.tutors, text, k) ==>
              r[0] == TutorLine(kb.tutors[k].0, kb.tutors[k].1)
              && TutorsShown(r) == [kb.tutors[k]]
    ensures (forall k: nat :: !FirstMentioned(kb.tutors, text, k)) ==>
              r[0] == Title(TutorsTitle) && TutorsShown(r) == kb.tutors
    ensures CentersShown(r) == [] && SchedulesShown(r) == [] && RequirementsShown(r) == []
  {
    var item := (e: (string, Tutor)) => TutorLine(e.0, e.1);
    match FindMentioned(kb.tutors, text)
    case Some(k) =>
      var items := Lines([kb.tutors[k]], item);
      var tail: Reply := [Prose(TutorFollowUp)];
      FirstMentionedUnique(kb.tutors, text, k);
      Framed([], items, tail);
      CollectLines([kb.tutors[k]], item, AsTutor);
      CollectLinesNone([kb.tutors[k]], item, AsCenter);
      CollectLinesNone([kb.tutors[k]], item, AsSchedule);
      CollectLinesNone([kb.tutors[k]], item, AsBullet);
      assert [] + items + tail == items + tail;
      items + tail
    case None =>
      var items := Lines(kb.tutors, item);
      var head: Reply := [Title(TutorsTitle)];
      var tail: Reply := [Blank, Prose(TutorsHint)];
      Framed(head, items, tail);
      CollectLines(kb.tutors, item, AsTutor);
      CollectLinesNone(kb.tutors, item, AsCenter);
      CollectLinesNone(kb.tutors, item, AsSchedule);
      CollectLinesNone(kb.tutors, item, AsBullet);
      head + items + tail
  }

  /** At most one entry is the first one mentioned. */
  lemma FirstMentionedUnique<V>(entries: seq<(string, V)>, text: string, k: nat)
    requires FirstMentioned(entries, text, k)
    ensures forall m: nat :: FirstMentioned(entries, text, m) ==> m == k
  {
  }

  /** `replyRequisitos`: one bullet per requirement, in order, between a title and a prompt. */
  function ReplyRequisitos(kb: KnowledgeBase): (r: Reply)
    ensures |r| == |kb.requirements| + 3
    ensures r[0] == Title(RequirementsTitle) && r[|r| - 1] == Prose(RequirementsPrompt)
    ensures RequirementsShown(r) == kb.requirements
    ensures CentersShown(r) == [] && SchedulesShown(r) == [] && TutorsShown(r) == []
  {
    var item := (s: string) => Bullet(s);
    var items := Lines(kb.requirements, item);
    var head: Reply := [Title(RequirementsTitle)];
    var tail: Reply := [Blank, Prose(RequirementsPrompt)];
    Framed(head, items, tail);
    CollectLines(kb.requirements, item, AsBullet);
    CollectLinesNone(kb.requirements, item, AsCenter);
    CollectLinesNone(kb.requirements, item, AsSchedule);
    CollectLinesNone(kb.requirements, item, AsTutor);
    head + items + tail
  }

  /** `replyFallback`: a fixed apology that shows no knowledge-base data. */
  function ReplyFallback(): (r: Reply)
    ensures ShowsNoData(r) && r != []
  {
    [Prose(FallbackApology), Blank, Prose(FallbackSuggestion)]
  }
}
