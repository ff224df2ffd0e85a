# Ambulu language-learning site: behavioural model

This project models, in Dafny, the parts of the Ambulu site (a Next.js site
for learning the Gabonese languages Fang, Nzebi and Teke) that have
behaviour beyond rendering:

- the **translation widget**: an exact-match French phrasebook per vernacular
  language, the placeholder `[Traduction indisponible]` on a miss, and a
  most-recent-first history with one row per request (`translation.dfy`);
- the **contributors admin page**: search plus status filter, role-only edit,
  active toggle and confirmed delete (`contributors.dfy`);
- the **courses admin page**: search plus language filter, the distinct
  language list, edit-merge or append, active toggle and two-step delete
  (`courses.dfy`);
- the **three greeting quizzes** (Teke, Nzebi, Fang): three fixed questions
  answered once each, counting right answers (`greeting_quiz.dfy` for what
  they share, `teke_quiz.dfy`, `nzebi_quiz.dfy`, `fang_quiz.dfy`);
- the **two lesson carousels**: per-language greeting tables, six or five
  slides built from them, and Next/Previous with wrap-around
  (`greetings.dfy`, `carousel.dfy`, `cours_page.dfy` for `app/cours/page.tsx`,
  `cours_capital_page.dfy` for `app/Cours/page.tsx`).

`lists.dfy` holds what the admin pages build on (`filter`, a `map` that
rewrites the selected records, `Array.from(new Set(...))`), `text.dfy` the
string operations of the searches, `options.dfy` the nullable state.

Each page or component whose state React updates is a class whose fields
are the component's state variables and whose methods are its event
handlers. Each method's `ensures` gives the whole new state in terms of a
specification function on the old state. The properties the page promises
are proved as lemmas about those functions. Where a class keeps a ghost
field (the translation requests, the quiz answers), `Valid()` ties the real
fields to a function of it.

The placeholder is the literal the code uses, `[Traduction indisponible]`.
The lookup is `translations[toLang]?.[inputText] || placeholder`, so a
stored empty translation would also give the placeholder. No table stores
one, and `TranslateIsLookup` proves that a miss is then the only way to get
the placeholder.

## Model

| member | source | states |
|---|---|---|
| `Translation.Translate` | app/components/TranslationSection.tsx:25-26 | the result is never empty; a stored non-empty translation for (language, phrase) is returned as is; a missing table or phrase gives the placeholder |
| `Translation.TranslateIsLookup` | app/components/TranslationSection.tsx:9-14 | the result differs from the placeholder iff the pair is in the table, and then it is exactly the stored value |
| `Translation.UnsupportedLanguagesMiss` | app/components/TranslationSection.tsx:7-14 | of the five offered languages exactly Punu and Kota have no table, and for them every phrase misses |
| `Translation.ExactMatchOnly` | app/components/TranslationSection.tsx:26 | no trimming, no case folding: a leading space, a lower-case first letter, the empty input or the wrong language all miss |
| `Translation.EntryFor` | app/components/TranslationSection.tsx:28-31 | the row one request produces: source label `Français`, the target language, the typed phrase and its translation; `HistoryOrder` places it |
| `Translation.HistoryAfter` | app/components/TranslationSection.tsx:28-31 | the history after N requests has exactly N rows |
| `Translation.HistoryOrder` | app/components/TranslationSection.tsx:28-31 | after N requests, the k-th request's row is at index N - k: newest first, no deduplication, no bound |
| `Translation.TranslationSection.constructor` | app/components/TranslationSection.tsx:17-22 | starts on Fang with empty input, empty result and empty history |
| `Translation.TranslationSection.SelectLanguage` | app/components/TranslationSection.tsx:50 | only the target language changes |
| `Translation.TranslationSection.SetInputText` | app/components/TranslationSection.tsx:67 | only the input text changes |
| `Translation.TranslationSection.HandleTranslate` | app/components/TranslationSection.tsx:24-32 | shows the translation, puts `{Français, toLang, input, result}` in front of the unchanged old history, and keeps the shown text equal to the head row's result |
| `Translation.TwoRequests` | app/components/TranslationSection.tsx:24-31 | a Nzebi request followed by a Fang request leaves the Fang row first and the Nzebi row second |
| `Contributors.MatchesSearch` | app/admin/contributors/page.tsx:31-34 | the lower-cased search occurs in the lower-cased name, email or role name; `FilteredContributors` lists by it |
| `Contributors.MatchesStatus` | app/admin/contributors/page.tsx:36-37 | "all" passes everyone, "active" the active ones, "inactive" the others |
| `Contributors.FilteredContributors` | app/admin/contributors/page.tsx:30-40 | a contributor is listed iff it is in the list, the lower-cased search occurs in its lower-cased name, email or role, and it passes the status filter; the result is an order-preserving subsequence |
| `Contributors.EmptySearchFiltersByStatusOnly` | app/admin/contributors/page.tsx:31-37 | with an empty search only the status filter applies, and "all" lists everyone |
| `Contributors.WithRole` | app/admin/contributors/page.tsx:44-46 | the role-only overlay on the records with the edited id; `WithRoleChangesOnlyRole` states its effect |
| `Contributors.WithRoleChangesOnlyRole` | app/admin/contributors/page.tsx:44-46 | editing sets the role of the records with the edited id; every other field and record is unchanged, in place |
| `Contributors.Toggled` | app/admin/contributors/page.tsx:69-73 | flip `active` on the records with that id; `ToggledFlipsOnlyActive` and `ToggleTwiceIsIdentity` state its effect |
| `Contributors.ToggledFlipsOnlyActive` | app/admin/contributors/page.tsx:69-73 | toggling flips `active` on the records with that id and changes nothing else |
| `Contributors.ToggleTwiceIsIdentity` | app/admin/contributors/page.tsx:69-73 | toggling the same id twice restores the list |
| `Contributors.Removed` | app/admin/contributors/page.tsx:65 | keep the records whose id differs; `RemovedKeepsOthers` states its effect |
| `Contributors.RemovedKeepsOthers` | app/admin/contributors/page.tsx:65 | deleting removes exactly the records with that id; the others stay, as often as before and in order |
| `Contributors.ContributorsPage.Shown` | app/admin/contributors/page.tsx:118-119 | the table shows exactly the contributors that are listed under the current search and status filter |
| `Contributors.ContributorsPage.constructor` | app/admin/contributors/page.tsx:18-27 | the three sample contributors, empty search, "all", dialog closed, nobody edited |
| `Contributors.ContributorsPage.SetSearch` | app/admin/contributors/page.tsx:88 | only the search text changes |
| `Contributors.ContributorsPage.SetStatusFilter` | app/admin/contributors/page.tsx:95 | only the status filter changes |
| `Contributors.ContributorsPage.OpenModal` | app/admin/contributors/page.tsx:51-55 | the dialog opens on that contributor; the list is unchanged |
| `Contributors.ContributorsPage.CloseModal` | app/admin/contributors/page.tsx:57-61 | the dialog closes and nobody is being edited |
| `Contributors.ContributorsPage.OnSubmit` | app/admin/contributors/page.tsx:42-49 | with a contributor being edited, only the role of the records with its id changes; with none, the list is unchanged; the dialog always closes |
| `Contributors.ContributorsPage.DeleteContributor` | app/admin/contributors/page.tsx:63-67 | a confirmed delete removes the records with that id; an unconfirmed one changes nothing |
| `Contributors.ContributorsPage.ToggleActiveStatus` | app/admin/contributors/page.tsx:69-73 | the list becomes the toggled list; nothing else changes |
| `Courses.MatchesSearch` | app/admin/courses/page.tsx:31-33 | the lower-cased search occurs in the lower-cased title or language; `FilteredCourses` lists by it |
| `Courses.MatchesLanguage` | app/admin/courses/page.tsx:35 | the filter is "all" or equals the course language exactly, without case folding |
| `Courses.FilteredCourses` | app/admin/courses/page.tsx:30-38 | a course is listed iff it is in the list, the lower-cased search occurs in its lower-cased title or language, and the filter is "all" or equals its language exactly; order-preserving subsequence |
| `Courses.EmptySearchListsAll` | app/admin/courses/page.tsx:30-38 | an empty search with the "all" filter lists every course, in order |
| `Courses.LanguagesOf` | app/admin/courses/page.tsx:40 | one language per course, position by position |
| `Courses.Languages` | app/admin/courses/page.tsx:40 | the selector's languages, `Array.from(new Set(...))` of the course languages; `LanguagesAreDistinctInFirstOccurrenceOrder` states what they are |
| `Courses.LanguagesAreDistinctInFirstOccurrenceOrder` | app/admin/courses/page.tsx:40 | the selector's languages have no duplicates, include every course language, include nothing else, and come in first-occurrence order |
| `Courses.Edited` | app/admin/courses/page.tsx:43-46 | `{ ...c, ...data }` on the records with the edited id, the form carrying the edited course's id and active flag loaded by `reset(course)`; `EditedOverlaysOnlyMatching` states its effect |
| `Courses.EditedOverlaysOnlyMatching` | app/admin/courses/page.tsx:43-46 | editing gives every record with the edited id the submitted title and language and the edited course's active flag; ids and every other record are unchanged; length is kept |
| `Courses.EditKeepsActiveFlags` | app/admin/courses/page.tsx:45 | with unique ids and the edited course in the list, only that course changes, and only in title and language: every active flag is kept |
| `Courses.Added` | app/admin/courses/page.tsx:48 | adding appends exactly one active course with the submitted fields and the new id; the existing courses stay in front, unchanged |
| `Courses.Toggled` | app/admin/courses/page.tsx:70-74 | flip `active` on the records with that id; `ToggledFlipsOnlyActive` and `ToggleTwiceIsIdentity` state its effect |
| `Courses.ToggledFlipsOnlyActive` | app/admin/courses/page.tsx:70-74 | toggling flips `active` on the records with that id and changes nothing else |
| `Courses.ToggleTwiceIsIdentity` | app/admin/courses/page.tsx:70-74 | toggling the same id twice restores the list |
| `Courses.Removed` | app/admin/courses/page.tsx:77 | keep the records whose id differs; `RemovedKeepsOthers` states its effect |
| `Courses.RemovedKeepsOthers` | app/admin/courses/page.tsx:77 | deleting removes exactly the records with that id; the others stay, as often as before and in order |
| `Courses.EditKeepsUniqueIds` | app/admin/courses/page.tsx:45 | editing never breaks id uniqueness |
| `Courses.ToggleKeepsUniqueIds` | app/admin/courses/page.tsx:72 | toggling never breaks id uniqueness |
| `Courses.RemoveKeepsUniqueIds` | app/admin/courses/page.tsx:77 | deleting never breaks id uniqueness |
| `Courses.AddKeepsUniqueIds` | app/admin/courses/page.tsx:48 | adding keeps ids unique when the clock reading is not already an id |
| `Courses.CoursesPage.Shown` | app/admin/courses/page.tsx:120 | the grid shows exactly the courses listed under the current search and language filter |
| `Courses.CoursesPage.constructor` | app/admin/courses/page.tsx:17-27 | the three sample courses, empty search, "all", dialog closed, no delete pending |
| `Courses.CoursesPage.SetSearch` | app/admin/courses/page.tsx:102 | only the search text changes |
| `Courses.CoursesPage.SetLanguageFilter` | app/admin/courses/page.tsx:108 | only the language filter changes |
| `Courses.CoursesPage.OpenModal` | app/admin/courses/page.tsx:53-62 | the dialog opens, editing the given course or none (add) |
| `Courses.CoursesPage.CloseModal` | app/admin/courses/page.tsx:64-68 | the dialog closes and no course is being edited |
| `Courses.CoursesPage.OnSubmit` | app/admin/courses/page.tsx:42-51 | only with both required fields filled: editing overlays the form (title, language, and the edited course's active flag) on the edited id, adding appends an active course with the new id; the dialog closes |
| `Courses.CoursesPage.ToggleActiveStatus` | app/admin/courses/page.tsx:70-74 | the list becomes the toggled list; nothing else changes |
| `Courses.CoursesPage.AskDelete` | app/admin/courses/page.tsx:131 | the delete confirmation is pending for that id |
| `Courses.CoursesPage.CancelDelete` | app/admin/courses/page.tsx:144 | no confirmation pending; the list is unchanged |
| `Courses.CoursesPage.DeleteCourse` | app/admin/courses/page.tsx:76-79 | removes the records with that id and clears the pending confirmation |
| `Lists.Filter` | app/admin/courses/page.tsx:30 | `filter` never lengthens and keeps only elements that pass |
| `Lists.FilterMembers` | app/admin/contributors/page.tsx:30 | an element is kept iff it was there and passes |
| `Lists.FilterIsSubsequence` | app/admin/contributors/page.tsx:30 | `filter` keeps the surviving elements in their order |
| `Lists.FilterCounts` | app/admin/contributors/page.tsx:65 | a kept element occurs as often as in the input, a dropped one not at all |
| `Lists.FilterKeepsAll` | app/admin/contributors/page.tsx:37 | a filter that passes everything returns its input |
| `Lists.FilterAgree` | app/admin/contributors/page.tsx:36-39 | predicates that agree on the elements filter alike |
| `Lists.MapWhere` | app/admin/contributors/page.tsx:71 | the rewriting `map` keeps the length |
| `Lists.MapWhereAt` | app/admin/courses/page.tsx:72 | each selected element is rewritten and every other one kept, in place |
| `Lists.MapWhereTwice` | app/admin/courses/page.tsx:72 | rewriting twice with an involution that keeps the selection is the identity |
| `Lists.Distinct` | app/admin/courses/page.tsx:40 | `Array.from(new Set(s))` has no duplicates and exactly the values of `s` |
| `Lists.DistinctFirstOccurrenceOrder` | app/admin/courses/page.tsx:40 | the distinct values come in the order of their first occurrences |
| `Lists.FirstIndex` | app/admin/courses/page.tsx:40 | the first position holding the value |
| `Text.LowerChar` | app/admin/contributors/page.tsx:32 | an ASCII capital becomes the small letter at the same alphabet position; any other character is kept |
| `Text.Lower` | app/admin/contributors/page.tsx:32 | `toLowerCase` maps every character to its lower-case form, so the length is kept, no ASCII capital is left and only capitals change |
| `Text.LowerIdempotent` | app/admin/courses/page.tsx:32-33 | lower-casing twice is lower-casing once |
| `Text.Includes` | app/admin/courses/page.tsx:32-33 | `includes`: the needle is a prefix of the haystack or of one of its suffixes; `IncludesAt` gives the positional reading |
| `Text.IncludesAt` | app/admin/courses/page.tsx:32-33 | `includes` holds iff the needle starts at some position of the haystack |
| `Text.EmptyIncluded` | app/admin/contributors/page.tsx:32 | the empty search occurs in every string |
| `GreetingQuiz.Answer` | app/cours/components/TekeGreetingQuiz.tsx:36-46 | one answer keeps the question index valid |
| `GreetingQuiz.Correct` | app/cours/components/TekeGreetingQuiz.tsx:37-38 | the right answers among k answers are at most k |
| `GreetingQuiz.Play` | app/cours/components/NzebiGreetingQuiz.tsx:30-43 | the question index stays valid whatever the answers |
| `GreetingQuiz.PlayState` | app/cours/components/TekeGreetingQuiz.tsx:32-45 | after k answers question k is shown (the last once all are answered), the score counts the right answers, and the score is shown iff all questions are answered |
| `GreetingQuiz.PlayStep` | app/cours/components/NzebiGreetingQuiz.tsx:34-44 | while the score is not shown a question is left, and one more answer is one `handleAnswer` step from the current state |
| `GreetingQuiz.AnswerStep` | app/cours/components/TekeGreetingQuiz.tsx:36-46 | while a question is shown, an answer adds 1 to the score iff it is right, and moves to the next question or, after the last, shows the score |
| `GreetingQuiz.ScoreBounded` | app/cours/components/TekeGreetingQuiz.tsx:52 | 0 <= score <= answers given <= number of questions |
| `GreetingQuiz.Key` | app/cours/components/TekeGreetingQuiz.tsx:17 | the answer key lists each question's right answer in order |
| `GreetingQuiz.PerfectScoreReachable` | app/cours/components/TekeGreetingQuiz.tsx:13-29 | when each right answer is an offered option, pressing them scores every question |
| `GreetingQuiz.AllCorrect` | app/cours/components/TekeGreetingQuiz.tsx:37-38 | all-right answers count fully |
| `TekeQuiz.QuestionsOfferTheirAnswers` | app/cours/components/TekeGreetingQuiz.tsx:13-29 | three questions, each offering its right answer |
| `TekeQuiz.ScoreShownAfterThreeAnswers` | app/cours/components/TekeGreetingQuiz.tsx:34 | the score is shown after exactly three answers and not before |
| `TekeQuiz.TekeGreetingQuiz.constructor` | app/cours/components/TekeGreetingQuiz.tsx:32-34 | first question, score 0, score not shown |
| `TekeQuiz.TekeGreetingQuiz.HandleAnswer` | app/cours/components/TekeGreetingQuiz.tsx:36-46 | score +1 iff the option is the current answer; next question, or on the last question stay and show the score |
| `TekeQuiz.TekeGreetingQuiz.ScoreLine` | app/cours/components/TekeGreetingQuiz.tsx:52 | the shown score is at most the total, and all questions were answered |
| `NzebiQuiz.QuestionsOfferTheirAnswers` | app/cours/components/NzebiGreetingQuiz.tsx:11-27 | three questions, each offering its right answer |
| `NzebiQuiz.ScoreShownAfterThreeAnswers` | app/cours/components/NzebiGreetingQuiz.tsx:32 | the score is shown after exactly three answers and not before |
| `NzebiQuiz.NzebiGreetingQuiz.constructor` | app/cours/components/NzebiGreetingQuiz.tsx:30-32 | first question, score 0, score not shown |
| `NzebiQuiz.NzebiGreetingQuiz.HandleAnswer` | app/cours/components/NzebiGreetingQuiz.tsx:34-44 | score +1 iff the option is the current answer; next question, or on the last question stay and show the score |
| `NzebiQuiz.NzebiGreetingQuiz.ScoreLine` | app/cours/components/NzebiGreetingQuiz.tsx:50 | the shown score is at most the total, and all questions were answered |
| `FangQuiz.QuestionsOfferTheirAnswers` | app/Cours/components/FangGreetingQuiz.tsx:6-23 | three questions, each offering its right answer |
| `FangQuiz.ScoreShownAfterThreeAnswers` | app/Cours/components/FangGreetingQuiz.tsx:27 | `finished` becomes true after exactly three answers and not before |
| `FangQuiz.FangGreetingQuiz.constructor` | app/Cours/components/FangGreetingQuiz.tsx:25-27 | step 0, score 0, not finished |
| `FangQuiz.FangGreetingQuiz.HandleAnswer` | app/Cours/components/FangGreetingQuiz.tsx:29-39 | score becomes score + 1 iff the option is the step's answer; step + 1, or on the last step stay and finish |
| `FangQuiz.FangGreetingQuiz.ScoreLine` | app/Cours/components/FangGreetingQuiz.tsx:45 | the shown score is at most the total, and all questions were answered |
| `Carousel.Next` | app/cours/page.tsx:462-464 | the next index is a valid slide index |
| `Carousel.Prev` | app/cours/page.tsx:466-468 | the previous index is a valid slide index, never negative |
| `Carousel.Wraps` | app/Cours/page.tsx:359-366 | Next steps by one and wraps from the last slide to 0; Previous steps back by one and wraps from 0 to the last |
| `Carousel.NextPrevInverse` | app/Cours/page.tsx:359-366 | Next then Previous, and Previous then Next, return to the starting index |
| `Carousel.NextTimes` | app/cours/page.tsx:463 | repeated Next stays on a valid index |
| `Carousel.NextTimesShifts` | app/cours/page.tsx:463 | k <= n presses of Next move k slides forward, wrapping at most once |
| `Carousel.FullCycle` | app/cours/page.tsx:463 | n presses of Next return to the starting slide |
| `Greetings.NumberWords` | app/cours/page.tsx:440-444 | the numbers slide shows five words |
| `Greetings.NumberWordsDefined` | app/cours/page.tsx:440-444 | with five greetings, number k + 1 shows the k-th translation |
| `Greetings.Slice` | app/Cours/page.tsx:335 | `slice(0, count)` clamps to the length and keeps the leading elements |
| `CoursPage.LanguageData` | app/cours/page.tsx:15-61 | every language has exactly five greetings |
| `CoursPage.CarouselData` | app/cours/page.tsx:63-451 | every language has exactly six slides |
| `CoursPage.SlidesReadDefinedGreetings` | app/cours/page.tsx:96 | the welcome headline is the first greeting's translation and the numbers slide shows the five translations |
| `CoursPage.Page.constructor` | app/cours/page.tsx:454-455 | first slide of the Fang course |
| `CoursPage.Page.HandleNext` | app/cours/page.tsx:462-464 | index becomes Next(index, 6) on the same language and stays valid |
| `CoursPage.Page.HandlePrev` | app/cours/page.tsx:466-468 | index becomes Prev(index, 6) on the same language and stays valid |
| `CoursPage.Page.SelectLanguage` | app/cours/page.tsx:478-481 | the language changes and the index resets to 0 |
| `CoursPage.Page.CurrentSlide` | app/cours/page.tsx:519-521 | the welcome slide is on screen iff the index is 0 and the numbers slide iff it is 5; the headline is greeting 0's translation, every table slide shows the current language's greetings, the salutation slide embeds that language's quiz, and number k + 1 reads greeting k |
| `CapitalCoursPage.LanguageData` | app/Cours/page.tsx:15-61 | every language has exactly five greetings |
| `CapitalCoursPage.CarouselData` | app/Cours/page.tsx:64-352 | every language has exactly five slides |
| `CapitalCoursPage.SlidesReadDefinedGreetings` | app/Cours/page.tsx:285-289 | the welcome headline and the five number words are real translations, and the oral exercise lists exactly the first three greetings |
| `CapitalCoursPage.Page.constructor` | app/Cours/page.tsx:355-356 | first slide of the Fang course |
| `CapitalCoursPage.Page.HandleNext` | app/Cours/page.tsx:359-361 | index becomes Next(index, 5) on the same language and stays valid |
| `CapitalCoursPage.Page.HandlePrev` | app/Cours/page.tsx:363-366 | index becomes Prev(index, 5) on the same language and stays valid |
| `CapitalCoursPage.Page.SelectLanguage` | app/Cours/page.tsx:442-445 | the language changes and the index resets to 0 |
| `CapitalCoursPage.Page.CurrentSlide` | app/Cours/page.tsx:411-412 | the welcome slide is on screen iff the index is 0 and the oral exercise iff it is 4; the headline is greeting 0's translation, the table slides show the current language's greetings, number k + 1 reads greeting k, and the exercise lists the first three greetings |

## Left out

- Rendering: JSX, framer-motion animation parameters, CSS classes, the
  colours in the language tables, and the effect that writes the colours
  into CSS variables. A slide is reduced to the table data it shows.
- The pronunciation `alert(...)` calls: a UI side effect only.
- `confirm()` on the contributors page is browser I/O; its answer is the
  `confirmed` parameter of `DeleteContributor`.
- `Date.now()` on the courses page is a clock reading; it is the `newId`
  parameter of `OnSubmit`. Nothing requires it to be fresh, as in the code;
  `AddKeepsUniqueIds` states what freshness buys.
- react-hook-form and the Headless UI dialog are library code. Of them the
  model keeps the two `required` rules of the course form, as the
  precondition `FormValid` of `OnSubmit`, and the open/editing flags. The
  contributor role select always holds one of the three roles, so its
  `required` rule never fails.
- The course form is modelled as its two registered fields plus what
  `reset(course)` loaded: on an edit, the edited course's id and active
  flag. The merge gives that flag to every record with the edited id, which
  changes only records sharing the id (`EditKeepsActiveFlags`). The snapshot
  is the course as it was when the dialog opened; the dialog blocks the
  page, so nothing can toggle it meanwhile.
- Text.Lower: only ASCII capitals are lower-cased. JavaScript's
  `toLowerCase` uses full Unicode case mapping (`É` becomes `é`), so a
  search differing from a name only in a non-ASCII capital matches in the
  code and not in the model.
- Translation.Translate: the table is a plain JavaScript object, so a phrase
  naming an inherited property (`constructor`, `toString`) finds a function
  there instead of missing. The model treats it as a miss, as the table's
  declared `Record<string, string>` type means.
- The quiz handlers require the score not to be shown yet, because the
  answer buttons are only rendered while a question is shown.
- React state semantics (batched updates, functional updaters) are out of
  scope: each handler is one sequential state change.
- The mobile menu flag `isMenuOpen` of `app/Cours/page.tsx` only shows or
  hides the navigation.
- Each page imports all three quizzes from its own `components` folder.
  `app/cours/page.tsx` imports a `FangGreetingQuiz` from
  `app/cours/components`, and `app/Cours/page.tsx` imports
  `NzebiGreetingQuiz` and `TekeGreetingQuiz` from `app/Cours/components`.
  Those three files are not part of this model; the modelled quizzes are
  `app/cours/components/TekeGreetingQuiz.tsx`,
  `app/cours/components/NzebiGreetingQuiz.tsx` and
  `app/Cours/components/FangGreetingQuiz.tsx`. The salutation slide only
  records which language's quiz it embeds.
- Logout, `localStorage`, routing links, and the pages that hold only static
  markup or a language selection.
