# The UTPL volunteering Telegram bot, in Dafny

A model of `telegram.js`. This is the Vercel serverless webhook of the
"Misiones Universitarias – UTPL" Telegram bot, which answers questions about
the volunteering programme. It models:

- the static knowledge base `DB`;
- the keyword classifier `detectIntent`;
- the reply formatters `replyCentros`, `replyHorarios`, `replyTutores`,
  `replyRequisitos` and `replyFallback`;
- the `mainMenu` keyboard;
- the decision logic of `handler`: which message an update carries, which
  text is classified, which `sendMessage` calls are made in which order to
  which chat, and which HTTP response comes back.

Modules, in dependency order:

- `Wrappers`: `Option`.
- `Text`: the JavaScript string operations the code uses.
  - `trim` is modelled with the exact WhiteSpace/LineTerminator set.
  - `toLowerCase` is modelled for ASCII and Latin-1.
  - `includes` is modelled as substring search.
  - An unanchored regular expression made of literal alternatives becomes `ContainsAny` over its alternatives. Character classes such as `[oó]` are expanded into both spellings.
- `Search`: `Array.prototype.find` as the first index satisfying a predicate.
- `Knowledge`: the knowledge base. JavaScript lists integer-like object keys first and all other string keys, such as the bot's centre names, in insertion order, so the keyed tables are ordered sequences of pairs.
- `Intents`: `detectIntent`, both as the source's `if` chain and as first-match over an explicit priority-ordered rule list. The two are proved equal. This module also holds the reordered classifier described under Findings.
- `Replies`: the formatters. A reply is a sequence of `Line`s that record which data they show, for example `CenterLine`, `ScheduleLine` or `TutorLine`. `CentersShown`, `SchedulesShown`, `TutorsShown` and `RequirementsShown` read that data back in order.
- `Webhook`: the handler.
  - The network is reduced to the list of `sendMessage` calls attempted.
  - An optional index says which call throws.
  - The classifier is a parameter of `HandleWith`, so that the handler can be run with either classifier. `Handle` fixes it to `detectIntent`.
- `Findings`: the unreachable single-centre branches, and the corrected priority.
- `Scenarios`: whole conversations for particular messages.

The schedules reply itself suggests typing "Horarios Centro A" (telegram.js:89).
The code answers that text with the centre list, not Centro A's schedule,
because every centre name contains "centro" and the centres rule is tried
first. The model follows the code; see Findings.

## Model

| member | source | states |
|---|---|---|
| `Knowledge.DBValid` | telegram.js:8-27 | The bot's data has distinct centre names, none empty, and the schedule and tutor tables are keyed by exactly those names in the same order |
| `Search.FindFirst` | telegram.js:86 | The index `find` stops at: every earlier element fails the predicate, the element there (if any) passes it, and it is the length of the list when none passes |
| `Replies.FindMentioned` | telegram.js:85-87 | `find` plus `if (found)`: some centre exactly when it is the first (in table order) whose lower-cased name occurs in the lower-cased text and whose name is non-empty; none exactly when no centre qualifies |
| `Replies.FirstMentionedIffNamed` | telegram.js:84-101 | For a valid knowledge base, the schedule and tutor lookups find a centre (the `if (found)` branch) exactly when the text mentions the name of some centre |
| `Replies.ReplyCentros` | telegram.js:72-82 | The reply lists exactly the knowledge base's centres, in order and none dropped, between the title and the closing question, and shows no schedule, tutor or requirement |
| `Replies.ReplyHorarios` | telegram.js:84-90 | When the text names a centre, the reply opens with that first-named centre's schedule and shows only it; otherwise it opens with the title and shows every schedule in table order; either way it shows no centre, tutor or requirement |
| `Replies.ReplyTutores` | telegram.js:92-101 | When the text names a centre, the reply opens with that first-named centre's tutor and shows only that tutor; otherwise it opens with the title and shows every tutor in table order; either way it shows no centre, schedule or requirement |
| `Replies.ReplyRequisitos` | telegram.js:103-106 | One bullet per requirement, all of them in order, between the title and the prompt, and no other data |
| `Replies.ReplyFallback` | telegram.js:108-110 | The apology is non-empty and shows no knowledge-base data |
| `Intents.ClassifyFirstMatch` | telegram.js:60-69 | For any well-formed rule list, a text gets rule k's intent if and only if rule k fires and no earlier rule does |
| `Intents.ClassifyTextIsFirstMatch` | telegram.js:61-68 | The source's if-chain classifies every normalised text exactly as first-match over the six rules start, centros, horarios, tutores, requisitos, menu |
| `Intents.FirstMatchWins` | telegram.js:60-69 | `detectIntent` gives rule k's intent if and only if rule k fires on the lower-cased, trimmed text and no earlier rule fires |
| `Intents.FallbackIffNoRuleFires` | telegram.js:68 | `fallback` if and only if none of the six rules fires on the normalised text |
| `Intents.StartIffCommand` | telegram.js:61-62 | `start` if and only if the lower-cased, trimmed text is exactly `/start` |
| `Intents.CaseAndPaddingIgnored` | telegram.js:61 | Surrounding whitespace and letter case never change the intent |
| `Intents.BlankIsFallback` | telegram.js:60-68 | Empty or whitespace-only text is `fallback` |
| `Intents.StartCommandAnyCaseOrPadding` | telegram.js:61-62 | `/start` in any letter case with any surrounding whitespace is `start` |
| `Intents.StartWithArgumentIsNotStart` | telegram.js:62 | `/start foo` is not `start`: the comparison is an equality, not a prefix test |
| `Intents.CentersOutranksLaterRules` | telegram.js:63-67 | A text that fires the centres rule is `centros` whatever later rules it also fires |
| `Intents.KeywordsSubsumedByPatterns` | telegram.js:63-66 | Each exact keyword `centros`, `horarios`, `tutores`, `requisitos` already contains an alternative of its own rule's expression, so the equality tests never decide anything |
| `Intents.CentreAndScheduleWordsGiveCenters` | telegram.js:63-64 | "centro y horario" is `centros`: the earlier rule wins |
| `Intents.ReorderedIsPermutation` | telegram.js:62-67 | The corrected rule order loses and duplicates no rule |
| `Intents.ReorderedAgrees` | telegram.js:62-68 | For any well-formed six-rule list, moving its third and fourth rules ahead of its second changes nothing for a text that fires neither of them |
| `Intents.CorrectedSchedulesFirst` | telegram.js:64 | Under the corrected priority, a text with a schedule word is `horarios` even when it also names a centre |
| `Intents.CorrectedTutorsSecond` | telegram.js:65 | Under the corrected priority, a text with a tutor word and no schedule word is `tutores` even when it also names a centre |
| `Intents.CorrectedAgreesElsewhere` | telegram.js:60-69 | The corrected classifier agrees with `detectIntent` on every text that fires neither the schedules nor the tutors rule |
| `Webhook.ResolveMessage` | telegram.js:118 | The message is the new message if present, else the edited one, else the callback query's message; there is none exactly when all three are absent |
| `Webhook.MessageText` | telegram.js:122 | The text is the first non-empty text of the new or the edited message, and it is empty exactly when both are empty or absent |
| `Webhook.CallbackQueryCarriesNoText` | telegram.js:118-122 | The callback query never contributes to the classified text |
| `Webhook.ContactReply` | telegram.js:165-170 | The contact message opens with the department address and otherwise shows no data |
| `Webhook.PrimaryReply` | telegram.js:138-157 | The first reply of every intent but start is non-empty; centros shows every centre; horarios and tutores show only the first-named centre's entry when the text names one and the whole table otherwise; requisitos shows every requirement; menu and fallback show no data |
| `Webhook.Conversation` | telegram.js:126-170 | One message exactly for start; otherwise reply then closing, plus a third message, the department contact, exactly when the raw text contains contacto, hablar or tutor in any letter case; every message goes to the same chat; only the first carries the keyboard |
| `Webhook.Deliver` | telegram.js:116-176 | The sends are a prefix of the plan; the response is ok exactly when every planned call went out, otherwise error_logged after exactly the failing call |
| `Webhook.HandleWith` | telegram.js:113-177 | Always HTTP 200; non-POST gets `OK` with nothing sent; every POST gets a JSON status; a POST with no body is error_logged with nothing sent; `no_message` exactly for a POST whose update carries no message; sends happen only for an addressable update; `ok` exactly when the whole planned conversation went out |
| `Webhook.AllSendsToOneChat` | telegram.js:121-170 | Every message of one request goes to the chat the update came from |
| `Webhook.NonPostIgnored` | telegram.js:114 | A non-POST request sends nothing and is answered with plain `OK` |
| `Webhook.NoMessageSendsNothing` | telegram.js:118-119 | An update without any message is answered `no_message` with nothing sent |
| `Webhook.StartSendsWelcomeOnly` | telegram.js:126-136 | `/start` sends exactly one message, the welcome with the main-menu keyboard, and answers ok |
| `Webhook.OtherIntentsSendReplyThenClosing` | telegram.js:138-172 | Any other intent sends the intent's reply with the keyboard, then the closing prompt, then the department contact exactly when the text asks for contact, and answers ok |
| `Webhook.CallbackOnlyGetsFallback` | telegram.js:118-124 | A bare button press, a callback query with nothing else, gets the fallback reply with the keyboard and the closing prompt |
| `Webhook.NullBodyIsLogged` | telegram.js:117-118 | A POST whose body is `null` or `undefined` makes `update.message` throw: nothing is sent and the answer is error_logged |
| `Webhook.MissingChatIsLogged` | telegram.js:121 | A message without a chat makes `msg.chat.id` throw: nothing is sent and the answer is error_logged |
| `Webhook.FailingSendStopsConversation` | telegram.js:173-176 | A send that throws ends the conversation there: the earlier calls stay made and the answer is error_logged |
| `Findings.SingleCentreBranchUnreachable` | telegram.js:63-65 | As written: when every centre name contains "centro", a text classified as horarios or tutores never names a centre, so the single-centre branch is never taken |
| `Findings.SchedulesReplyAlwaysFullList` | telegram.js:84-90 | As written, the handler's schedules reply for the bot's data always shows the whole schedule table |
| `Findings.TutorsReplyAlwaysFullList` | telegram.js:92-101 | As written, the handler's tutors reply for the bot's data always shows every tutor |
| `Findings.SuggestedScheduleRequestGetsCentres` | telegram.js:89 | As written, the request the schedules reply suggests, "Horarios Centro A", is classified centros and gets the centre list with no schedule |
| `Findings.CorrectedScheduleForNamedCentre` | telegram.js:84-87 | Corrected: a text with a schedule word that names centre k first gets exactly that centre's schedule, sent to its chat, and ok |
| `Findings.CorrectedTutorForNamedCentre` | telegram.js:92-97 | Corrected: a text with a tutor word and no schedule word that names centre k first gets exactly that centre's tutor |
| `Findings.CorrectedSuggestedScheduleRequest` | telegram.js:89 | Corrected: "Horarios Centro A" is horarios and opens with Centro A's schedule |
| `Scenarios.StartConversation` | telegram.js:126-136 | `/start` typed in any case with surrounding whitespace gets the welcome with the keyboard and nothing else |
| `Scenarios.TalkToTutorConversation` | telegram.js:145-170 | "quiero hablar con un tutor" gets every tutor with the keyboard, the closing prompt, then the department contact |
| `Scenarios.RequirementsConversation` | telegram.js:148-163 | "requisitos" gets every requirement with the keyboard, then the closing prompt, and no contact message |
| `Scenarios.MenuButtonsLeadToTheirIntents` | telegram.js:39-69 | The main menu is two rows of two buttons, and each label it sends back (Centros, Horarios, Tutores, Requisitos) is classified as the intent it names |
| `Scenarios.ContactWordConversation` | telegram.js:154-170 | "contacto", the word the closing prompt invites, matches no rule: fallback, closing, then the department contact |

## Left out

- `tg` and `send` (lines 30-37 and 50-57) are left out. The HTTP call to the Bot API, its payload, `parse_mode: "Markdown"` and the logging of a non-ok response are not modelled. Each call becomes an `Outbound` record. Whether a call throws is the `throwsAt` parameter, because the network is outside the model.
- Reply text is structural. Emoji, Markdown asterisks and the `\n` joins are not modelled. A reply is a sequence of lines, each recording the data it shows, with the fixed wording kept as constants.
- `TOKEN`, `API` (lines 4-5) and `config` (lines 179-181) are left out: they are environment and deployment settings.
- `console.error` logging is left out; only its effect on the response (`error_logged`) is modelled.
- `Text.LowerStr` covers only ASCII and Latin-1 upper-case letters. Full Unicode case mapping is table-driven and outside the model. All of the bot's patterns and data are within this range.
- The regular-expression engine is not modelled. Every expression in the code is an unanchored alternation of literals, and each is modelled as a list of substrings.
- Request bodies that are not update objects are not modelled: a `text` that is not a string, a chat without an `id`, a body that is a primitive. A `null`/`undefined` body and a message without a chat are modelled, and both throw and are logged.
- The `i` flag of the contact test is modelled by lower-casing the text. Case-insensitive matching without the `u` flag folds only onto ASCII letters, which for the all-ASCII alternatives `contacto|hablar|tutor` agrees with lower-casing the text first.

## Findings

| source | as written | input that shows it | evidently intended | confidence | as-written member | corrected member |
|---|---|---|---|---|---|---|
| telegram.js:63-65 | The centres rule (`/centro…/`) is tried before the schedules and tutors rules, and every centre name contains "centro". So a text naming a centre is always `centros`, and the single-centre branches of `replyHorarios`/`replyTutores` are never reached through the handler. | "Horarios Centro A", the example the schedules reply itself suggests, gets the centre list | A schedule or tutor request naming a centre gets that centre's schedule or tutor: schedules and tutors tried before centres | high (by proof; not executed) | `Findings.SuggestedScheduleRequestGetsCentres` | `Findings.CorrectedSuggestedScheduleRequest` |
