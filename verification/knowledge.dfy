/**
 * The static knowledge base of the volunteering programme. A JavaScript
 * object lists integer-like keys first, in ascending order, and every other
 * string key in insertion order; the bot's keys are centre names, so they
 * keep insertion order, and the handler's lookups scan them in that order.
 * Every keyed table is therefore an ordered sequence of (key, value) pairs.
 */
module Knowledge {

  datatype Center = Center(name: string, address: string, activities: string)

  datatype Tutor = Tutor(name: string, contact: string)

  datatype KnowledgeBase = KnowledgeBase(
    centers: seq<Center>,
    schedules: seq<(string, string)>,
    tutors: seq<(string, Tutor)>,
    requirements: seq<string>,
    departmentContact: string)

  /** The keys of an ordered table, in order. */
  function Keys<V>(table: seq<(string, V)>): (ks: seq<string>)
    ensures |ks| == |table|
    ensures forall i :: 0 <= i < |table| ==> ks[i] == table[i].0
  {
    if table == [] then [] else [table[0].0] + Keys(table[1..])
  }

  function Names(cs: seq<Center>): (ns: seq<string>)
    ensures |ns| == |cs|
    ensures forall i :: 0 <= i < |cs| ==> ns[i] == cs[i].name
  {
    if cs == [] then [] else [cs[0].name] + Names(cs[1..])
  }

  predicate Distinct(ks: seq<string>) {
    forall i, j :: 0 <= i < j < |ks| ==> ks[i] != ks[j]
  }

  /**
   * What an object literal guarantees (no key twice) together with the
   * consistency the lookups rely on: the schedule and tutor tables are keyed
   * by exactly the centre names, in the same order, and no name is empty.
   */
  predicate Valid(kb: KnowledgeBase) {
    && Distinct(Names(kb.centers))
    && Keys(kb.schedules) == Names(kb.centers)
    && Keys(kb.tutors) == Names(kb.centers)
    && forall i :: 0 <= i < |kb.centers| ==> kb.centers[i].name != []
  }

  /** The knowledge base of `telegram.js`. */
  const DB: KnowledgeBase := KnowledgeBase(
    [ Center("Centro A", "Barrio San Pedro, Loja", "Apoyo escolar y lúdico"),
      Center("Centro B", "Av. Universitaria 123, Loja", "Acompañamiento a adultos mayores") ],
    [ ("Centro A", "Lun-Mié-Vie 14:30–17:30"),
      ("Centro B", "Mar-Jue 09:00–12:00") ],
    [ ("Centro A", Tutor("Ing. María Pérez", "maria.perez@utpl.edu.ec")),
      ("Centro B", Tutor("Lic. Jorge Ruiz", "jorge.ruiz@utpl.edu.ec")) ],
    [ "Ser estudiante UTPL",
      "Completar formulario de inscripción",
      "Compromiso mínimo de 2–4 h/semana" ],
    "misiones@utpl.edu.ec")

  lemma DBValid()
    ensures Valid(DB)
  {
    assert Names(DB.centers) == ["Centro A", "Centro B"];
    assert Keys(DB.schedules) == ["Centro A", "Centro B"];
    assert Keys(DB.tutors) == ["Centro A", "Centro B"];
  }
}
