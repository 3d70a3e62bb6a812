# Astreea charger assistant: chat engine, diagnostics and dashboard helpers

This project models the logic inside three screens of the Astreea EV-charger management app, and proves properties of it in Dafny.

- **Chat assistant.** A keyword classifier picks one of sixteen canned answers, or a welcome text when no keyword matches:
  - the message is lower-cased;
  - the rules are scanned in source order, and the first rule with a fragment in the message decides.

  A line renderer turns an answer into display blocks: a labelled bullet, a heading, a plain line or a spacer. The conversation state is a message log, an input box and a typing indicator, and sending works in two steps. The four quick-action questions serve as fixed inputs, and for each one the project proves which answer it gets.
- **Diagnostics.** A panel of six tests that a run:
  - first resets to pending;
  - then runs one by one: each test goes to running, then to a result fixed by its id and one random draw.

  Pass, warning and failure counts, the progress summary and the recommendations are functions of the final tests.
- **Dashboard.** The session clock (seconds shown as zero-padded `HH:MM`) and the status banner (charger status to icon, colours and message).

Modules:
- `Text`: the JavaScript string operations the components use.
- `Classifier` and `QuickActionPalette`: the classifier and the four quick-action questions.
- `Renderer`: the line renderer.
- `Session`: the conversation state.
- `Diagnostics`: the diagnostics panel.
- `Dashboard`: the clock and the banner.

Among the proved properties:
- First match wins, in both directions.
- The fallback is total.
- Classification ignores case.
- The "service" fragment of the maintenance rule can never decide, because the support rule earlier in the table claims it. So the maintenance answer needs the word "maintenance".
- Rendering keeps one block per line, with nothing dropped or reordered.
- Splitting a labelled bullet loses nothing.
- A diagnostics run gives exactly one result per test, and only the thermal and communication draws decide the counts.
- Reading the clock back gives the whole hours and minutes of the session.

Where the specification and the code differ, the model follows the code. The specification says the assistant message carries the rendered blocks. The code stores the answer text in the log and renders it when the log is displayed, so `Session` keeps text and `Renderer` is a separate function. The specification also gives the labelled-bullet example `• **Power**: 240V` as label `Power` and body `240V`. The code keeps the bullet in the label and the space after the colon in the body, so the model renders that line (by `Renderer.BulletOfName`) as title `• Power` and body ` 240V`.

## Model

| member | source | states |
|---|---|---|
| Text.Lower | src/components/ChatAssistant.tsx:42 | lower-casing keeps the length and maps each character to its ASCII lower case |
| Text.LowerIdempotent | src/components/ChatAssistant.tsx:42 | lower-casing an already lower-cased message changes nothing |
| Text.IndexOf | src/components/ChatAssistant.tsx:148-151 | `indexOf` finds something exactly when `includes` holds, and what it finds is an occurrence with none before it |
| Text.Contains | src/components/ChatAssistant.tsx:45 | `includes`; it has no ensures of its own, and Text.ContainsIffOccurs states its meaning |
| Text.ContainsIffOccurs | src/components/ChatAssistant.tsx:45 | `includes` holds exactly when the fragment occurs at some position |
| Text.Trim | src/components/ChatAssistant.tsx:113 | `trim()` strips ECMAScript whitespace at both ends; it has no ensures of its own, and Text.TrimEmptyIffBlank states when the result is empty, which is what both uses test |
| Text.TrimEmptyIffBlank | src/components/ChatAssistant.tsx:113 | `trim()` is empty (falsy) exactly when every character is ECMAScript whitespace |
| Text.Split | src/components/ChatAssistant.tsx:146 | splitting on a newline gives one more piece than there are newlines, none holding a newline |
| Text.JoinSplit | src/components/ChatAssistant.tsx:146 | joining the pieces of a split gives the input back |
| Text.SplitJoin | src/components/ChatAssistant.tsx:146 | splitting newline-free lines joined by newlines gives the lines back |
| Text.SplitOn | src/components/ChatAssistant.tsx:148 | `split('**:')` gives at least one piece, and the whole line alone when "**:" does not occur; Text.SplitOnFirst and Text.JoinOnSplitOn state the rest |
| Text.JoinOn | src/components/ChatAssistant.tsx:151 | `join('**:')`; it has no ensures of its own, and Text.JoinOnSplitOn states that it undoes Text.SplitOn |
| Text.JoinOnSplitOn | src/components/ChatAssistant.tsx:148-151 | splitting on "**:" and joining the pieces with "**:" gives the line back |
| Text.SplitOnFirst | src/components/ChatAssistant.tsx:148 | the first piece of a split on "**:" is everything before the first "**:", and the remaining pieces joined are everything after it |
| Text.ReplaceFirst | src/components/ChatAssistant.tsx:151 | replacing with a string pattern changes nothing when the pattern is absent, and replaces a leading occurrence by the replacement |
| Text.RemovePairs | src/components/ChatAssistant.tsx:156 | the global removal of "**" never lengthens the text and leaves no "**" behind |
| Text.RemovePairsKeepsNonStars | src/components/ChatAssistant.tsx:156 | the removal keeps every character other than a star, in order |
| Text.RemovePairsAppend | src/components/ChatAssistant.tsx:156 | no pair is removed across the end of a text that does not end with a star: the text and what follows lose their pairs separately |
| Text.RemovePairsPair | src/components/ChatAssistant.tsx:156 | a leading "**" is dropped |
| Text.RemovePairsCons | src/components/ChatAssistant.tsx:156 | a leading character that does not open a "**" is kept |
| Text.RemovePairsLoneStar | src/components/ChatAssistant.tsx:156 | a star with no star on either side stays, and the text on each side of it loses its pairs separately |
| Text.RemovePairsClosingPair | src/components/ChatAssistant.tsx:156 | a final "**" after a text that does not end with a star is dropped, and nothing else changes |
| Text.RemovePairsNoPairs | src/components/ChatAssistant.tsx:156 | a text without "**" is left as it is |
| Text.DecimalString | src/components/Dashboard.tsx:44 | `toString` of a natural is all digits, has no leading zero, and has two digits exactly from 10 to 99 |
| Text.ParseDecimalString | src/components/Dashboard.tsx:44 | reading a rendered numeral back gives the number |
| Text.PadStart | src/components/Dashboard.tsx:44 | `padStart` gives the larger of the width and the length, with the input at the end and only fill characters before it |
| Text.ParseLeadingZeros | src/components/Dashboard.tsx:44 | zeros put in front of a numeral do not change its value |
| Classifier.FirstMatch | src/components/ChatAssistant.tsx:41-110 | the answer of the first rule of a table that fires, else the welcome text; it has no ensures of its own, and Classifier.FirstMatchFound, FirstMatchNone, FirstMatchSound and FirstMatchIff state its meaning |
| Classifier.Classify | src/components/ChatAssistant.tsx:41-110 | `FirstMatch` over the table `Rules` on the lower-cased message; it has no ensures of its own, and Classifier.ClassifyIsFirstMatch and ClassifyWelcome state its meaning |
| Classifier.ResponseText | src/components/ChatAssistant.tsx:46-109 | the verbatim answer of each template; it has no ensures of its own, and Renderer.SupportContactBullet, KeyFeaturesHeading and DimensionsIsPlain state how lines of it render |
| Classifier.GenerateResponse | src/components/ChatAssistant.tsx:41-110 | `generateAIResponse`: the answer text of the classified template; it has no ensures of its own, the Classify lemmas state which template answers, and Session.Exchange states where the text goes |
| Classifier.FirstMatchFound | src/components/ChatAssistant.tsx:41-110 | when rule i fires and no earlier rule does, rule i decides the answer |
| Classifier.FirstMatchNone | src/components/ChatAssistant.tsx:109 | when no rule fires, the welcome text answers |
| Classifier.FirstMatchSound | src/components/ChatAssistant.tsx:41-110 | the answer is always that of the first rule that fires, or the welcome text when none fires |
| Classifier.RankOfRule | src/components/ChatAssistant.tsx:45-107 | the position `Rank` gives each answer agrees with the order of the table `Rules`, which lists the rules of the `if` chain in source order |
| Classifier.RuleOfTemplate | src/components/ChatAssistant.tsx:45-107 | every answer except the welcome text has a rule, at its position in the chain |
| Classifier.RulesDistinct | src/components/ChatAssistant.tsx:45-107 | no two rules select the same answer, and no rule selects the welcome text |
| Classifier.FirstMatchIff | src/components/ChatAssistant.tsx:41-110 | for a table with distinct answers, a rule's answer is chosen exactly when that rule fires and no earlier rule does |
| Classifier.FirstMatchAtMost | src/components/ChatAssistant.tsx:41-110 | when rule k fires, the answer comes from rule k or an earlier rule |
| Classifier.ClassifyIsFirstMatch | src/components/ChatAssistant.tsx:41-107 | a message gets answer t exactly when t's rule fires on the lower-cased message and no earlier rule does |
| Classifier.ClassifyWelcome | src/components/ChatAssistant.tsx:105-109 | a message gets the welcome text exactly when no rule fires; the classifier is total |
| Classifier.ClassifyIgnoresCase | src/components/ChatAssistant.tsx:42 | a message and its lower-cased form get the same answer |
| Classifier.SupportRuleFires | src/components/ChatAssistant.tsx:61 | the support rule fires on any text containing "service" |
| Classifier.ServiceMeansSupport | src/components/ChatAssistant.tsx:61-99 | a message containing "service" gets one of the first five answers, never the maintenance answer |
| Classifier.MaintenanceRuleFires | src/components/ChatAssistant.tsx:97 | the maintenance rule fires only on "maintenance" or "service" |
| Classifier.MaintenanceFirst | src/components/ChatAssistant.tsx:61-99 | when the maintenance rule decides, it fires and the support rule does not |
| Classifier.MaintenanceNeedsKeyword | src/components/ChatAssistant.tsx:61-99 | a message that gets the maintenance answer contains "maintenance" and does not contain "service" |
| QuickActionPalette.SlowChargingQuestionFirstRule | src/components/ChatAssistant.tsx:45-91 | on the first quick question, lower-cased, the slow-charging rule fires and no earlier rule does |
| QuickActionPalette.QuickActionSlowCharging | src/components/ChatAssistant.tsx:35 | "Why is my charger running slowly?" gets the slow-charging answer |
| QuickActionPalette.OptimizationQuestionFirstRule | src/components/ChatAssistant.tsx:45-95 | on the second quick question, lower-cased, the optimisation rule fires and no earlier rule does |
| QuickActionPalette.QuickActionOptimization | src/components/ChatAssistant.tsx:36 | "How can I optimize charging efficiency?" gets the optimisation answer |
| QuickActionPalette.MaintenanceQuestionFirstRule | src/components/ChatAssistant.tsx:45-99 | on the third quick question, lower-cased, the maintenance rule fires and no earlier rule does |
| QuickActionPalette.QuickActionMaintenance | src/components/ChatAssistant.tsx:37 | "When should I schedule maintenance?" gets the maintenance answer |
| QuickActionPalette.StatusLightQuestionFirstRule | src/components/ChatAssistant.tsx:45-103 | on the fourth quick question, lower-cased, the status-light rule fires and no earlier rule does |
| QuickActionPalette.QuickActionStatusLight | src/components/ChatAssistant.tsx:38 | "What does the amber status light mean?" gets the status-light answer |
| Renderer.RenderLine | src/components/ChatAssistant.tsx:147-161 | the first rule that applies decides: a labelled bullet exactly when the line starts with "• **" and contains "**:"; otherwise a heading exactly when it starts and ends with "**", with no "**" left; a plain line is kept verbatim |
| Renderer.Render | src/components/ChatAssistant.tsx:146 | a message renders to one block per line |
| Renderer.RenderIsLineByLine | src/components/ChatAssistant.tsx:146 | the lines joined by newlines are the message, and block i is the rendering of line i |
| Renderer.RenderJoinedLines | src/components/ChatAssistant.tsx:146 | rendering newline-free lines joined by newlines gives each line's block, in order |
| Renderer.LabeledBulletSplit | src/components/ChatAssistant.tsx:147-151 | a labelled bullet is cut at the first "**:": raw label, "**:" and body make up the line again; the label holds no "**:"; the title is the label with its opening "• **" replaced by "• " |
| Renderer.BulletOfName | src/components/ChatAssistant.tsx:147-151 | "• **" + name + "**:" + body, for a name without stars or colons, renders as title "• " + name with that body, whatever the body holds |
| Renderer.NoLabelCloseInName | src/components/ChatAssistant.tsx:147-148 | no "**:" starts before the one that closes a star-free, colon-free name |
| Renderer.HeadingDropsStars | src/components/ChatAssistant.tsx:155-156 | a heading keeps every character of its line but the stars, in order, and holds no "**"; that a lone star stays is stated by Renderer.HeadingKeepsLoneStar |
| Renderer.HeadingOfText | src/components/ChatAssistant.tsx:155-156 | "**" + text + "**", for a text without stars, renders as a heading of that text |
| Renderer.HeadingKeepsLoneStar | src/components/ChatAssistant.tsx:155-156 | "**" + a + "*" + b + "**", for star-free a and b, renders as the heading a + "*" + b: the lone star stays ("**a*b**" is the heading "a*b", not "ab") |
| Renderer.HeadingOfPairs | src/components/ChatAssistant.tsx:155-156 | "**" + a text ending in "**" is a heading of that text with its pairs removed |
| Renderer.StarFree | src/components/ChatAssistant.tsx:156 | a star-free text loses nothing to the removal of pairs |
| Renderer.RemovePairsOfStarBefore | src/components/ChatAssistant.tsx:156 | removing the pairs of a, "*", b and "**", for pair-free a and b with no star at their joins, leaves a, "*" and b |
| Renderer.RemovePairsOfStarAtEnd | src/components/ChatAssistant.tsx:156 | removing the pairs of a pair-free a not ending in a star, followed by "***", leaves a and one star |
| Renderer.RemovePairsOfText | src/components/ChatAssistant.tsx:156 | removing the pairs from a star-free text followed by "**" gives the text |
| Renderer.PlainIff | src/components/ChatAssistant.tsx:158-159 | a line is plain exactly when it is neither a bullet nor a heading and not blank, and is then kept verbatim |
| Renderer.SpacerIffBlank | src/components/ChatAssistant.tsx:158-161 | a line becomes a spacer exactly when it is empty or whitespace only |
| Renderer.SupportContactBullet | src/components/ChatAssistant.tsx:62 | the support contact line of the support answer renders as the bullet "• Technical Support" with body " support@astreea.com" |
| Renderer.KeyFeaturesHeading | src/components/ChatAssistant.tsx:50 | the "**Key Features:**" line renders as the heading "Key Features:" |
| Renderer.DimensionsIsPlain | src/components/ChatAssistant.tsx:50 | the "**Dimensions**: …" line is neither a bullet nor a heading and is kept verbatim |
| Session.ChatSession.constructor | src/components/ChatAssistant.tsx:13-23 | the log holds only `Greeting`, the assistant's welcome message of lines 13-21, the input is empty and nobody is typing |
| Session.ChatSession.SetInput | src/components/ChatAssistant.tsx:262 | typing sets the input box and changes nothing else |
| Session.ChatSession.SendMessage | src/components/ChatAssistant.tsx:112-124 | blank input changes nothing; otherwise the input is appended as a user message, the box is cleared, the indicator goes up and the sent text is returned; the log invariant is kept |
| Session.ChatSession.DeliverResponse | src/components/ChatAssistant.tsx:127-137 | the answer to the sent text is appended, the indicator goes down and the input is left as it is |
| Session.Exchange | src/components/ChatAssistant.tsx:112-137 | from the initial state, a blank text leaves only the greeting; any other text leaves the greeting, the text and its answer, in that order |
| Diagnostics.TestResult | src/components/Diagnostics.tsx:92-133 | every result is passed, failed or warning; every test except thermal and communication passes |
| Diagnostics.Finished | src/components/Diagnostics.tsx:133 | a test that has run keeps its id, name and description, and has a result and details |
| Diagnostics.ThermalFollowsDraw | src/components/Diagnostics.tsx:103-110 | the thermal test reports the draw, with the "slightly elevated" details exactly when it is a warning |
| Diagnostics.CommunicationFailsOnFailedDraw | src/components/Diagnostics.tsx:119-126 | the communication test fails exactly on a failed draw, never warns, and has the failure details exactly when it fails |
| Diagnostics.OutcomeOfDraw | src/components/Diagnostics.tsx:92-93 | of the five draws, the last is the only failure, the fourth the only warning, the first three pass |
| Diagnostics.CountCompleted | src/components/Diagnostics.tsx:172 | the completed count is at most the number of tests |
| Diagnostics.Recommendations | src/components/Diagnostics.tsx:274-305 | the recommendation headings shown; it has no ensures of its own, and Diagnostics.RecommendationsIff states when each shows |
| Diagnostics.CountStatus | src/components/Diagnostics.tsx:173-175 | a status count is at most the number of tests |
| Diagnostics.CompletedIsSum | src/components/Diagnostics.tsx:172-175 | the completed count is the sum of the passed, failed and warning counts |
| Diagnostics.AllCompletedIff | src/components/Diagnostics.tsx:172 | the completed count equals the number of tests exactly when every test has a result |
| Diagnostics.NoneCompletedIff | src/components/Diagnostics.tsx:207 | the completed count is zero (no progress summary) exactly when no test has a result |
| Diagnostics.RecommendationsIff | src/components/Diagnostics.tsx:274-305 | each recommendation shows exactly under its condition; the panel shows exactly when all tests are complete and no run is in progress; "Excellent System Health" comes alone |
| Diagnostics.FinishAll | src/components/Diagnostics.tsx:79-137 | after a run, each test is that test finished with its own draw |
| Diagnostics.RunStatuses | src/components/Diagnostics.tsx:98-131 | after a run of the six tests, power, connectivity, safety and battery pass, thermal reports its draw, and communication fails exactly on a failed draw |
| Diagnostics.RunCounts | src/components/Diagnostics.tsx:72-140 | after a run, all six tests are complete; there is a warning exactly when the thermal draw is a warning; the failures are the failed thermal and communication draws; so at most one warning and two failures, and the recommendations show |
| Diagnostics.CountsOfSix | src/components/Diagnostics.tsx:173-175 | the count over six tests is the sum over each test |
| Diagnostics.DiagnosticsPanel.constructor | src/components/Diagnostics.tsx:26-70 | the panel starts with the six tests of `InitialTests` (power, thermal, connectivity, safety, communication, battery, in that order), all pending, and no run in progress |
| Diagnostics.DiagnosticsPanel.Reset | src/components/Diagnostics.tsx:76 | every test goes to pending; everything else about it, details included, stays |
| Diagnostics.DiagnosticsPanel.RunTest | src/components/Diagnostics.tsx:81-136 | test i goes to its result for the draw, and no other test changes |
| Diagnostics.DiagnosticsPanel.RunDiagnostics | src/components/Diagnostics.tsx:72-140 | a run cannot start during a run; afterwards every test is its old self finished with its own draw, and the flag is down |
| Diagnostics.DiagnosticsPanel.Counts | src/components/Diagnostics.tsx:172-175 | the passed, warning and failed counts add up to the completed count |
| Diagnostics.RunOnFreshPanel | src/components/Diagnostics.tsx:72-305 | a run on a fresh panel completes every test and shows recommendations, and shows "Excellent System Health" exactly when the thermal draw passes and the communication draw is not a failure |
| Dashboard.Field | src/components/Dashboard.tsx:44 | a clock field is all digits, at least two characters, and exactly two below 100 |
| Dashboard.Minutes | src/components/Dashboard.tsx:43 | the minutes past the hour are below 60 |
| Dashboard.FormatTime | src/components/Dashboard.tsx:41-45 | the clock is at least five characters; Dashboard.FormatTimeRoundTrip, FormatTimeShape and FormatTimeShowsWholeMinutes state what it shows |
| Dashboard.FieldRoundTrip | src/components/Dashboard.tsx:44 | a padded field reads back as its number |
| Dashboard.ReadClockFields | src/components/Dashboard.tsx:44 | a clock reading is its two fields around the colon, and reads back as their numbers |
| Dashboard.FormatTimeShape | src/components/Dashboard.tsx:44 | below a hundred hours the clock is exactly "HH:MM": five characters, a colon in the middle, digits around it |
| Dashboard.FormatTimeRoundTrip | src/components/Dashboard.tsx:41-45 | reading the clock back gives the whole hours and the minutes past the hour |
| Dashboard.MinutesOfHours | src/components/Dashboard.tsx:42-43 | hours times 60 plus minutes is the whole minutes of the session |
| Dashboard.FormatTimeShowsWholeMinutes | src/components/Dashboard.tsx:41-45 | the clock read back has minutes below 60, and hours·60 + minutes is the seconds divided by 60 |
| Dashboard.FormatTimeDropsSeconds | src/components/Dashboard.tsx:41-45 | the clock shows the same at any second of a minute as at its start |
| Dashboard.WholeMinuteSameClock | src/components/Dashboard.tsx:42-43 | the start of the current minute has the same hours and minutes |
| Dashboard.GetStatusDetails | src/components/Dashboard.tsx:47-82 | the banner of a charger status; it has no ensures of its own, and Dashboard.StatusDetailsCases, StatusColorsShareHue and StatusMessagesDistinct state its meaning |
| Dashboard.StatusColorsShareHue | src/components/Dashboard.tsx:47-82 | text, background and border colour of a banner are shades of one hue: green, amber, red or grey |
| Dashboard.StatusDetailsCases | src/components/Dashboard.tsx:47-82 | "Status unknown" exactly for a status other than the three known ones; check mark exactly for "optimal"; warning triangle exactly for "warning" and "maintenance" |
| Dashboard.StatusMessagesDistinct | src/components/Dashboard.tsx:47-82 | two statuses, one of them known, get the same message exactly when they are equal |

## Left out

- Rendering to the DOM: the JSX, CSS classes (outside the status banner), icons, `scrollToBottom` and refs. The renderer returns a datatype of blocks.
- Timers and `await`: the 1500 ms and 100 ms delays of the chat and the 1500 ms wait per diagnostics test. The chat response is a second method call. The diagnostics run is a plain loop, with no state visible between its steps.
- Interleaving: nothing orders a second send before the first answer. Two sends in a row give two user messages, and the first answer lowers the indicator. No ordering guarantee is claimed.
- `handleQuickAction`: it sets the input and sends it from a timer, through a stale closure over the input value. This is React scheduling and is not modelled. The quick-action questions are proved only as classifier inputs.
- Message ids and timestamps (`Date.now()`, `new Date()`): clock values, not modelled.
- `Math.random`: each diagnostics draw is a parameter, the index into the five outcomes.
- The icon components of the tests and of the banner. The banner icon is a datatype naming the icon.
- Text.Lower: lower-cases ASCII letters only. JavaScript also lower-cases other letters, and some map to ASCII (the Kelvin sign becomes "k"). A message written with such letters could fire a rule that the model misses.
- Diagnostics.TestResult: the switch has no default branch in the model, because the ids are an enumeration of the six ids the panel holds. The source's fallback (passed with empty details) cannot be reached.
- Diagnostics.RecommendationsIff: covers the headings only. The explanatory paragraph under each heading is view text.
- Dashboard.FormatTime: defined on natural numbers. The session time is an integer counter that starts at 0 and only counts up, so negative and fractional inputs do not occur.
- Dashboard telemetry: the random drift of power, voltage, current and energy, and the temperature clamp. These are floating point and random.
- The other screens (settings, analytics, navigation bar) and the app shell are not part of this model.
