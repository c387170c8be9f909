/**
 * `detectIntent`: keyword and regular-expression classification of the
 * message text, first matching rule wins. Every regular expression of the
 * source is an unanchored alternation of literals, with character classes
 * such as `[oó]` expanded into both spellings, so each becomes a list of
 * substrings of which any one suffices.
 */
module Intents {
  import opened Wrappers
  import opened Text
  import opened Search

  datatype Intent = Start | Centers | Schedules | Tutors | Requirements | Menu | Fallback

  const StartCommand: string := "/start"

  /** `/(centro|centros|lugares|ubicaci[oó]n|dónde)/` */
  const CentersPatterns: seq<string> :=
    ["centro", "centros", "lugares", "ubicacion", "ubicación", "dónde"]

  /** `/(horario|horarios|cu[aá]ndo|a qu[eé] hora)/` */
  const SchedulesPatterns: seq<string> :=
    ["horario", "horarios", "cuando", "cuándo", "a que hora", "a qué hora"]

  /** `/(tutor|encargad|responsable)/` */
  const TutorsPatterns: seq<string> := ["tutor", "encargad", "responsable"]

  /** `/(requisito|inscrip|requer|qu[eé] necesito)/` */
  const RequirementsPatterns: seq<string> :=
    ["requisito", "inscrip", "requer", "que necesito", "qué necesito"]

  /** `/menu|men[uú]|opciones|ayuda/` */
  const MenuPatterns: seq<string> := ["menu", "menú", "opciones", "ayuda"]

  /** `/contacto|hablar|tutor/i`, which the handler applies to the raw text. */
  const ContactPatterns: seq<string> := ["contacto", "hablar", "tutor"]

  /** `t.toLowerCase().trim()` */
  function Normalize(t: string): string {
    Trim(LowerStr(t))
  }

  /** `detectIntent`: classify the normalised text. */
  function DetectIntent(t: string): Intent {
    ClassifyText(Normalize(t))
  }

  /** The rule chain of `detectIntent`, in the order of the source, on normalised text `s`. */
  function ClassifyText(s: string): Intent {
    if s == StartCommand then Start
    else if s == "centros" || ContainsAny(s, CentersPatterns) then Centers
    else if s == "horarios" || ContainsAny(s, SchedulesPatterns) then Schedules
    else if s == "tutores" || ContainsAny(s, TutorsPatterns) then Tutors
    else if s == "requisitos" || ContainsAny(s, RequirementsPatterns) then Requirements
    else if ContainsAny(s, MenuPatterns) then Menu
    else Fallback
  }

  /**
   * The case-insensitive contact test. A case-insensitive JavaScript regular
   * expression without the `u` flag only folds a character onto an ASCII
   * letter when the character is itself ASCII, so for these all-ASCII
   * alternatives it agrees with lower-casing the text first.
   */
  predicate WantsContact(text: string) {
    ContainsAny(LowerStr(text), ContactPatterns)
  }

  /** One alternative found in the lower-cased text is enough to ask for contact. */
  lemma WantsContactBy(text: string, k: nat)
    requires k < |ContactPatterns| && Contains(LowerStr(text), ContactPatterns[k])
    ensures WantsContact(text)
  {
    ContainsAnyIff(LowerStr(text), ContactPatterns);
  }

  // ---- The classifier as an explicit priority-ordered rule list ----

  /** One classification rule: an optional exact keyword and a set of substrings. */
  datatype Rule = Rule(keyword: Option<string>, patterns: seq<string>, intent: Intent)

  predicate Fires(r: Rule, s: string) {
    (r.keyword.Some? && s == r.keyword.value) || ContainsAny(s, r.patterns)
  }

  /** The rules of `detectIntent` in priority order; `Fallback` is what remains. */
  const Rules: seq<Rule> := [
    Rule(Some(StartCommand), [], Start),
    Rule(Some("centros"), CentersPatterns, Centers),
    Rule(Some("horarios"), SchedulesPatterns, Schedules),
    Rule(Some("tutores"), TutorsPatterns, Tutors),
    Rule(Some("requisitos"), RequirementsPatterns, Requirements),
    Rule(None, MenuPatterns, Menu)
  ]

  /** The intent of the first rule that fires, or `Fallback` when none does. */
  function Classify(rules: seq<Rule>, s: string): (i: Intent)
    ensures forall k :: (0 <= k < |rules| && Fires(rules[k], s)
                         && forall j :: 0 <= j < k ==> !Fires(rules[j], s)) ==> i == rules[k].intent
    ensures (forall k :: 0 <= k < |rules| ==> !Fires(rules[k], s)) ==> i == Fallback
  {
    var k := FindFirst(rules, r => Fires(r, s));
    FindFirstIsFirst(rules, s, k);
    if k < |rules| then rules[k].intent else Fallback
  }

  lemma FindFirstIsFirst(rules: seq<Rule>, s: string, k: nat)
    requires k == FindFirst(rules, r => Fires(r, s))
    ensures forall m :: (0 <= m < |rules| && Fires(rules[m], s)
                         && forall j :: 0 <= j < m ==> !Fires(rules[j], s)) ==> m == k
    ensures (forall m :: 0 <= m < |rules| ==> !Fires(rules[m], s)) ==> k == |rules|
  {
    forall m | 0 <= m < |rules| && Fires(rules[m], s)
               && (forall j :: 0 <= j < m ==> !Fires(rules[j], s))
      ensures m == k
    {
      FindFirstUnique(rules, r => Fires(r, s), m);
    }
  }

  /** Each rule has its own intent, and none of them is `Fallback`. */
  predicate WellFormed(rules: seq<Rule>) {
    && (forall k :: 0 <= k < |rules| ==> rules[k].intent != Fallback)
    && (forall i, j :: 0 <= i < j < |rules| ==> rules[i].intent != rules[j].intent)
  }

  /**
   * First match wins, in both directions: `s` gets the intent of rule `k`
   * exactly when rule `k` fires and no earlier rule does.
   */
  lemma ClassifyFirstMatch(rules: seq<Rule>, s: string, k: nat)
    requires WellFormed(rules) && k < |rules|
    ensures Classify(rules, s) == rules[k].intent
            <==> Fires(rules[k], s) && forall j :: 0 <= j < k ==> !Fires(rules[j], s)
  {
    var f := FindFirst(rules, r => Fires(r, s));
    FindFirstIsFirst(rules, s, f);
    if Fires(rules[k], s) && forall j :: 0 <= j < k ==> !Fires(rules[j], s) {
      FindFirstUnique(rules, r => Fires(r, s), k);
    } else if f < |rules| && f != k {
      assert rules[f].intent != rules[k].intent;
    }
  }

  /** `Fallback` exactly when no rule fires. */
  lemma ClassifyFallback(rules: seq<Rule>, s: string)
    requires WellFormed(rules)
    ensures Classify(rules, s) == Fallback <==> forall k :: 0 <= k < |rules| ==> !Fires(rules[k], s)
  {
    var f := FindFirst(rules, r => Fires(r, s));
    FindFirstIsFirst(rules, s, f);
  }

  lemma RulesWellFormed()
    ensures WellFormed(Rules)
  {
  }

  /** The if-chain of the source is exactly first-match over the rule list. */
  lemma ClassifyTextIsFirstMatch(s: string)
    ensures ClassifyText(s) == Classify(Rules, s)
  {
    RulesWellFormed();
    if Fires(Rules[0], s) {
      ClassifyFirstMatch(Rules, s, 0);
    } else if Fires(Rules[1], s) {
      ClassifyFirstMatch(Rules, s, 1);
    } else if Fires(Rules[2], s) {
      ClassifyFirstMatch(Rules, s, 2);
    } else if Fires(Rules[3], s) {
      ClassifyFirstMatch(Rules, s, 3);
    } else if Fires(Rules[4], s) {
      ClassifyFirstMatch(Rules, s, 4);
    } else if Fires(Rules[5], s) {
      ClassifyFirstMatch(Rules, s, 5);
    } else {
      ClassifyFallback(Rules, s);
    }
  }

  /**
   * `detectIntent` is first match over `Rules`: the text gets the intent of
   * rule `k` exactly when rule `k` fires on the normalised text and no
   * earlier rule does.
   */
  lemma FirstMatchWins(t: string, k: nat)
    requires k < |Rules|
    ensures DetectIntent(t) == Rules[k].intent
            <==> Fires(Rules[k], Normalize(t)) && forall j :: 0 <= j < k ==> !Fires(Rules[j], Normalize(t))
  {
    ClassifyTextIsFirstMatch(Normalize(t));
    RulesWellFormed();
    ClassifyFirstMatch(Rules, Normalize(t), k);
  }

  /** `detectIntent` falls back exactly when no rule fires. */
  lemma FallbackIffNoRuleFires(t: string)
    ensures DetectIntent(t) == Fallback <==> forall k :: 0 <= k < |Rules| ==> !Fires(Rules[k], Normalize(t))
  {
    ClassifyTextIsFirstMatch(Normalize(t));
    RulesWellFormed();
    ClassifyFallback(Rules, Normalize(t));
  }

  /** `start` exactly when the lower-cased, trimmed text is the command itself. */
  lemma StartIffCommand(t: string)
    ensures DetectIntent(t) == Start <==> Normalize(t) == StartCommand
  {
    FirstMatchWins(t, 0);
    assert !ContainsAny(Normalize(t), []);
  }

  // ---- Ruling rules out, one alternative at a time ----

  /** `centros` contains `centro`, so only five alternatives of the centres rule need ruling out. */
  lemma NoCentreWord(s: string)
    requires !Contains(s, "centro") && !Contains(s, "lugares") && !Contains(s, "dónde")
    requires !Contains(s, "ubicacion") && !Contains(s, "ubicación")
    ensures !ContainsAny(s, CentersPatterns) && !Fires(Rules[1], s)
  {
    ContainsAnyIff(s, CentersPatterns);
    ContainsPrefix("centros", "centro");
    if Contains(s, "centros") {
      ContainsTransitive(s, "centros", "centro");
    }
    assert s != "centros" by {
      if s == "centros" {
        ContainsPrefix(s, "centro");
      }
    }
  }

  /** `horarios` contains `horario`, so only five alternatives of the schedules rule need ruling out. */
  lemma NoScheduleWord(s: string)
    requires !Contains(s, "horario") && !Contains(s, "cuando") && !Contains(s, "cuándo")
    requires !Contains(s, "a que hora") && !Contains(s, "a qué hora")
    ensures !ContainsAny(s, SchedulesPatterns) && !Fires(Rules[2], s)
  {
    ContainsAnyIff(s, SchedulesPatterns);
    ContainsPrefix("horarios", "horario");
    if Contains(s, "horarios") {
      ContainsTransitive(s, "horarios", "horario");
    }
    assert s != "horarios" by {
      if s == "horarios" {
        ContainsPrefix(s, "horario");
      }
    }
  }

  lemma NoTutorWord(s: string)
    requires !Contains(s, "tutor") && !Contains(s, "encargad") && !Contains(s, "responsable")
    ensures !ContainsAny(s, TutorsPatterns) && !Fires(Rules[3], s)
  {
    ContainsAnyIff(s, TutorsPatterns);
    assert s != "tutores" by {
      if s == "tutores" {
        ContainsPrefix(s, "tutor");
      }
    }
  }

  lemma NoRequirementWord(s: string)
    requires !Contains(s, "requisito") && !Contains(s, "inscrip") && !Contains(s, "requer")
    requires !Contains(s, "que necesito") && !Contains(s, "qué necesito")
    ensures !ContainsAny(s, RequirementsPatterns) && !Fires(Rules[4], s)
  {
    ContainsAnyIff(s, RequirementsPatterns);
    assert s != "requisitos" by {
      if s == "requisitos" {
        ContainsPrefix(s, "requisito");
      }
    }
  }

  lemma NoMenuWord(s: string)
    requires !Contains(s, "menu") && !Contains(s, "menú") && !Contains(s, "opciones") && !Contains(s, "ayuda")
    ensures !ContainsAny(s, MenuPatterns) && !Fires(Rules[5], s)
  {
    ContainsAnyIff(s, MenuPatterns);
  }

  lemma NoContactWord(s: string)
    requires !Contains(s, "contacto") && !Contains(s, "hablar") && !Contains(s, "tutor")
    ensures !ContainsAny(s, ContactPatterns)
  {
    ContainsAnyIff(s, ContactPatterns);
  }

  /** The start command is none of the substrings of the centres rule. */
  lemma StartCommandIsNotACentre(t: string)
    requires t == StartCommand
    ensures !ContainsAny(t, CentersPatterns)
  {
    NotContainsByAbsent(t, "centro", 0);
    NotContainsByAbsent(t, "lugares", 0);
    NotContainsByAbsent(t, "ubicacion", 0);
    NotContainsByAbsent(t, "ubicación", 0);
    NotContainsByAbsent(t, "dónde", 0);
    NoCentreWord(t);
  }

  /**
   * Rules are tried in the order start, centros, horarios, tutores,
   * requisitos, menu: a text that fires the centres rule is `Centers`
   * whatever later rules it would also fire.
   */
  lemma CentersOutranksLaterRules(t: string)
    requires ContainsAny(Normalize(t), CentersPatterns)
    ensures DetectIntent(t) == Centers
  {
    StartCommandIsNotACentre(StartCommand);
  }

  /** Normalisation removes surrounding whitespace and case. */
  lemma NormalizeIgnoresCaseAndPadding(ws1: string, t: string, ws2: string)
    requires AllSpace(ws1) && AllSpace(ws2)
    ensures Normalize(ws1 + t + ws2) == Normalize(t)
    ensures Normalize(LowerStr(t)) == Normalize(t)
  {
    LowerStrAppend(ws1 + t, ws2);
    LowerStrAppend(ws1, t);
    LowerStrKeepsSpace(ws1);
    LowerStrKeepsSpace(ws2);
    TrimPadding(ws1, LowerStr(t), ws2);
    LowerStrIdempotent(t);
  }

  /** Text already lower-case and without surrounding whitespace is its own normal form. */
  lemma NormalizeKeepsNormalText(s: string)
    requires LowerStr(s) == s
    requires s == [] || (!IsSpace(s[0]) && !IsSpace(s[|s| - 1]))
    ensures Normalize(s) == s
  {
    TrimUnpadded(s);
  }

  /** A pattern found in the lower-cased text, and not starting or ending with whitespace, fires its list. */
  lemma NormalizedContains(t: string, ns: seq<string>, k: nat)
    requires k < |ns| && ns[k] != [] && !IsSpace(ns[k][0]) && !IsSpace(ns[k][|ns[k]| - 1])
    requires Contains(LowerStr(t), ns[k])
    ensures ContainsAny(Normalize(t), ns)
  {
    ContainsAfterTrim(LowerStr(t), ns[k]);
    ContainsAnyIff(Normalize(t), ns);
  }

  /** Case and surrounding whitespace do not affect the intent. */
  lemma CaseAndPaddingIgnored(ws1: string, t: string, ws2: string)
    requires AllSpace(ws1) && AllSpace(ws2)
    ensures DetectIntent(ws1 + t + ws2) == DetectIntent(t)
    ensures DetectIntent(LowerStr(t)) == DetectIntent(t)
  {
    NormalizeIgnoresCaseAndPadding(ws1, t, ws2);
  }

  /** Empty or whitespace-only text is `Fallback`. */
  lemma BlankIsFallback(t: string)
    requires AllSpace(t)
    ensures DetectIntent(t) == Fallback
  {
    LowerStrKeepsSpace(t);
    assert Normalize(t) == [];
    EmptyIsFallback(Normalize(t));
  }

  /** The empty text fires no rule. */
  lemma EmptyIsFallback(s: string)
    requires s == []
    ensures ClassifyText(s) == Fallback
  {
    EmptyContainsNone(CentersPatterns);
    EmptyContainsNone(SchedulesPatterns);
    EmptyContainsNone(TutorsPatterns);
    EmptyContainsNone(RequirementsPatterns);
    EmptyContainsNone(MenuPatterns);
  }

  /**
   * The exact keywords `centros`, `horarios`, `tutores` and `requisitos`
   * never decide anything: each contains the first substring of its own rule.
   */
  lemma KeywordsSubsumedByPatterns(k: nat)
    requires 1 <= k < 5
    ensures Rules[k].keyword.Some?
    ensures ContainsAny(Rules[k].keyword.value, Rules[k].patterns)
  {
    var kw := Rules[k].keyword.value;
    ContainsPrefix(kw, Rules[k].patterns[0]);
  }

  /** Lower-case `/start` needs no further normalisation. */
  lemma StartCommandNormalizes(t: string)
    requires LowerStr(t) == StartCommand
    ensures Normalize(t) == StartCommand
  {
    TrimUnpadded(LowerStr(t));
  }

  lemma PaddedStartIsStart(ws1: string, t: string, ws2: string)
    requires AllSpace(ws1) && AllSpace(ws2) && Normalize(t) == StartCommand
    ensures DetectIntent(ws1 + t + ws2) == Start
  {
    NormalizeIgnoresCaseAndPadding(ws1, t, ws2);
  }

  /** `/start` in any letter case and with any surrounding whitespace is `Start`. */
  lemma StartCommandAnyCaseOrPadding(ws1: string, t: string, ws2: string)
    requires AllSpace(ws1) && AllSpace(ws2) && LowerStr(t) == StartCommand
    ensures DetectIntent(ws1 + t + ws2) == Start
  {
    StartCommandNormalizes(t);
    PaddedStartIsStart(ws1, t, ws2);
  }

  /** The command must stand alone: `/start foo` is not `Start`. */
  lemma StartWithArgumentIsNotStart(t: string)
    requires t == "/start foo"
    ensures DetectIntent(t) != Start
  {
    NormalizeKeepsNormalText(t);
    StartIffCommand(t);
  }

  /** Text naming both a centre word and a schedule word is `Centers`: that rule comes first. */
  lemma CentreAndScheduleWordsGiveCenters(t: string)
    requires t == "centro y horario"
    ensures DetectIntent(t) == Centers
  {
    NormalizeKeepsNormalText(t);
    ContainsPrefix(t, "centro");
    CentersOutranksLaterRules(t);
  }

  // ---- The evidently intended priority ----

  /** A six-rule list with its third and fourth rules moved ahead of its second. */
  function Reordered(rules: seq<Rule>): (p: seq<Rule>)
    requires |rules| == 6
    ensures |p| == 6
  {
    [rules[0], rules[2], rules[3], rules[1], rules[4], rules[5]]
  }

  /** Reordering loses and duplicates no rule. */
  lemma ReorderedIsPermutation(rules: seq<Rule>)
    requires |rules| == 6
    ensures multiset(Reordered(rules)) == multiset(rules)
  {
    var p := Reordered(rules);
    assert p == [rules[0]] + [rules[2], rules[3]] + [rules[1]] + rules[4..];
    assert rules == [rules[0]] + [rules[1]] + [rules[2], rules[3]] + rules[4..];
  }

  /** Reordering keeps every intent distinct and none of them `Fallback`. */
  lemma ReorderedWellFormed(rules: seq<Rule>)
    requires |rules| == 6 && WellFormed(rules)
    ensures WellFormed(Reordered(rules))
  {
    var p := Reordered(rules);
    var at := [0, 2, 3, 1, 4, 5];
    assert forall i :: 0 <= i < 6 ==> p[i] == rules[at[i]];
  }

  /** A reordered list still picks its first rule first. */
  lemma ReorderedFirst(rules: seq<Rule>, s: string)
    requires |rules| == 6 && WellFormed(rules) && Fires(rules[0], s)
    ensures Classify(Reordered(rules), s) == rules[0].intent
  {
    ReorderedWellFormed(rules);
    ClassifyFirstMatch(Reordered(rules), s, 0);
  }

  /** In the reordered list the original third rule comes right after the first. */
  lemma ReorderedThirdSecond(rules: seq<Rule>, s: string)
    requires |rules| == 6 && WellFormed(rules)
    requires !Fires(rules[0], s) && Fires(rules[2], s)
    ensures Classify(Reordered(rules), s) == rules[2].intent
  {
    ReorderedWellFormed(rules);
    ClassifyFirstMatch(Reordered(rules), s, 1);
  }

  /** ... and the original fourth rule after that. */
  lemma ReorderedFourthThird(rules: seq<Rule>, s: string)
    requires |rules| == 6 && WellFormed(rules)
    requires !Fires(rules[0], s) && !Fires(rules[2], s) && Fires(rules[3], s)
    ensures Classify(Reordered(rules), s) == rules[3].intent
  {
    ReorderedWellFormed(rules);
    ClassifyFirstMatch(Reordered(rules), s, 2);
  }

  /** The original second rule, fourth in the reordered list, decides when the two moved rules do not fire. */
  lemma ReorderedSecondFourth(rules: seq<Rule>, s: string)
    requires |rules| == 6 && WellFormed(rules)
    requires !Fires(rules[0], s) && Fires(rules[1], s) && !Fires(rules[2], s) && !Fires(rules[3], s)
    ensures Classify(Reordered(rules), s) == rules[1].intent
  {
    ReorderedWellFormed(rules);
    var p := Reordered(rules);
    assert p[0] == rules[0] && p[1] == rules[2] && p[2] == rules[3] && p[3] == rules[1];
    ClassifyFirstMatch(p, s, 3);
  }

  /** The last two rules keep their place. */
  lemma ReorderedTail(rules: seq<Rule>, s: string, k: nat)
    requires |rules| == 6 && WellFormed(rules) && 4 <= k < 6
    requires forall j :: 0 <= j < k ==> !Fires(rules[j], s)
    requires Fires(rules[k], s)
    ensures Classify(Reordered(rules), s) == rules[k].intent
  {
    ReorderedWellFormed(rules);
    var p := Reordered(rules);
    assert forall j :: 0 <= j < k ==> !Fires(p[j], s) by {
      assert forall j :: 0 <= j < 4 ==> p[j] in rules[..4];
      forall j | 0 <= j < k ensures !Fires(p[j], s) {
        if j < 4 {
          var m :| 0 <= m < 4 && rules[..4][m] == p[j];
        }
      }
    }
    ClassifyFirstMatch(p, s, k);
  }

  /**
   * Moving the third and fourth rules ahead of the second changes nothing
   * for a text that fires neither of them.
   */
  lemma ReorderedAgrees(rules: seq<Rule>, s: string)
    requires |rules| == 6 && WellFormed(rules)
    requires !Fires(rules[2], s) && !Fires(rules[3], s)
    ensures Classify(Reordered(rules), s) == Classify(rules, s)
  {
    if Fires(rules[0], s) {
      AgreeFirst(rules, s);
    } else if Fires(rules[1], s) {
      AgreeSecond(rules, s);
    } else if Fires(rules[4], s) {
      AgreeTail(rules, s, 4);
    } else if Fires(rules[5], s) {
      AgreeTail(rules, s, 5);
    } else {
      ReorderedNone(rules, s);
    }
  }

  lemma AgreeFirst(rules: seq<Rule>, s: string)
    requires |rules| == 6 && WellFormed(rules) && Fires(rules[0], s)
    ensures Classify(Reordered(rules), s) == Classify(rules, s)
  {
    ClassifyFirstMatch(rules, s, 0);
    ReorderedFirst(rules, s);
  }

  lemma AgreeSecond(rules: seq<Rule>, s: string)
    requires |rules| == 6 && WellFormed(rules)
    requires !Fires(rules[0], s) && Fires(rules[1], s) && !Fires(rules[2], s) && !Fires(rules[3], s)
    ensures Classify(Reordered(rules), s) == Classify(rules, s)
  {
    ClassifyFirstMatch(rules, s, 1);
    ReorderedSecondFourth(rules, s);
  }

  lemma AgreeTail(rules: seq<Rule>, s: string, k: nat)
    requires |rules| == 6 && WellFormed(rules) && 4 <= k < 6
    requires forall j :: 0 <= j < k ==> !Fires(rules[j], s)
    requires Fires(rules[k], s)
    ensures Classify(Reordered(rules), s) == Classify(rules, s)
  {
    ClassifyFirstMatch(rules, s, k);
    ReorderedTail(rules, s, k);
  }

  /** When no rule fires, neither list fires any. */
  lemma ReorderedNone(rules: seq<Rule>, s: string)
    requires |rules| == 6 && WellFormed(rules)
    requires forall j :: 0 <= j < 6 ==> !Fires(rules[j], s)
    ensures Classify(Reordered(rules), s) == Fallback == Classify(rules, s)
  {
    ReorderedWellFormed(rules);
    ClassifyFallback(rules, s);
    var p := Reordered(rules);
    assert forall j :: 0 <= j < 6 ==> p[j] in rules;
    ClassifyFallback(p, s);
  }

  /**
   * The rules with schedules and tutors tried before centres, so that a
   * request that names a centre (every centre name contains "centro") still
   * reaches the single-centre answer the replies offer.
   */
  const CorrectedRules: seq<Rule> := Reordered(Rules)

  function DetectIntentCorrected(t: string): Intent {
    Classify(CorrectedRules, Normalize(t))
  }

  /** The start command fires neither the schedules rule nor the tutors rule. */
  lemma StartCommandIsNotAScheduleOrTutor()
    ensures !ContainsAny(StartCommand, SchedulesPatterns)
    ensures !ContainsAny(StartCommand, TutorsPatterns)
  {
    StartCommandIsNotASchedule(StartCommand);
    StartCommandIsNotATutor(StartCommand);
  }

  lemma StartCommandIsNotASchedule(t: string)
    requires t == StartCommand
    ensures !ContainsAny(t, SchedulesPatterns)
  {
    NotContainsByAbsent(t, "horario", 0);
    NotContainsByAbsent(t, "cuando", 0);
    NotContainsByAbsent(t, "cuándo", 0);
    NotContainsByAbsent(t, "a que hora", 1);
    NotContainsByAbsent(t, "a qué hora", 1);
    NoScheduleWord(t);
  }

  lemma StartCommandIsNotATutor(t: string)
    requires t == StartCommand
    ensures !ContainsAny(t, TutorsPatterns)
  {
    NotContainsByAbsent(t, "tutor", 1);
    NotContainsByAbsent(t, "encargad", 0);
    NotContainsByAbsent(t, "responsable", 1);
    NoTutorWord(t);
  }

  /** Text that fires no alternative of a rule is not a keyword that contains one. */
  lemma NotTheKeyword(s: string, ns: seq<string>, keyword: string, n: string)
    requires !ContainsAny(s, ns) && n in ns
    requires |n| <= |keyword| && keyword[..|n|] == n
    ensures s != keyword
  {
    ContainsAnyIff(s, ns);
    ContainsPrefix(keyword, n);
  }

  /** Under the corrected priority a schedule word decides `Schedules`, whatever else the text says. */
  lemma CorrectedSchedulesFirst(t: string)
    requires ContainsAny(Normalize(t), SchedulesPatterns)
    ensures DetectIntentCorrected(t) == Schedules
  {
    CorrectedSchedulesOn(Normalize(t));
  }

  lemma CorrectedSchedulesOn(s: string)
    requires ContainsAny(s, SchedulesPatterns)
    ensures Classify(CorrectedRules, s) == Schedules
  {
    StartCommandIsNotAScheduleOrTutor();
    RulesWellFormed();
    ReorderedThirdSecond(Rules, s);
  }

  /** Under the corrected priority a tutor word without a schedule word decides `Tutors`. */
  lemma CorrectedTutorsSecond(t: string)
    requires ContainsAny(Normalize(t), TutorsPatterns)
    requires !ContainsAny(Normalize(t), SchedulesPatterns)
    ensures DetectIntentCorrected(t) == Tutors
  {
    CorrectedTutorsOn(Normalize(t));
  }

  lemma CorrectedTutorsOn(s: string)
    requires ContainsAny(s, TutorsPatterns) && !ContainsAny(s, SchedulesPatterns)
    ensures Classify(CorrectedRules, s) == Tutors
  {
    assert !Fires(Rules[0], s) by {
      StartCommandIsNotAScheduleOrTutor();
    }
    assert !Fires(Rules[2], s) by {
      NotTheKeyword(s, SchedulesPatterns, "horarios", "horario");
    }
    CorrectedTutorsFor(s);
  }

  lemma CorrectedTutorsFor(s: string)
    requires !Fires(Rules[0], s) && !Fires(Rules[2], s) && Fires(Rules[3], s)
    ensures Classify(CorrectedRules, s) == Tutors
  {
    RulesWellFormed();
    ReorderedFourthThird(Rules, s);
  }

  /** Reordering changes nothing for texts that fire neither the schedules nor the tutors rule. */
  lemma CorrectedAgreesElsewhere(t: string)
    requires !Fires(Rules[2], Normalize(t)) && !Fires(Rules[3], Normalize(t))
    ensures DetectIntentCorrected(t) == DetectIntent(t)
  {
    ClassifyTextIsFirstMatch(Normalize(t));
    RulesWellFormed();
    ReorderedAgrees(Rules, Normalize(t));
  }
}
