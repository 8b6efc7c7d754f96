# QuestionPaperWeb — a Dafny model of the exam-prep client

QuestionPaperWeb is a Next.js client for an exam-preparation service. Users
log in with a mobile number and a one-time password. They browse question
papers by category, sit timed practice papers and live competitions, make
custom tests, and review results, solutions and analytics. Every data
operation is an HTTP call to a backend. What the client decides for itself
is modelled here, one Dafny module per page or library file:

- The practice exam (`QuestionPaper`): the scorer is a loop over sections
  and questions, proved against a specification function. The session is a
  class: answers, review marks, the question index, the one-second
  countdown and the palette.
- The live competition exam (`CompetitionExam`): the countdown read from
  the server's clock, answers keyed by question id, and the one-shot
  submission guard.
- The custom-paper store kept in the browser (`CustomPapers`).
- Text utilities:
  - the `$`/`$$` math splitter and its renderer (`MathRenderer`);
  - the instruction-line cleaner (`PaperDetails`);
  - phone normalisation (`MyAcademy`);
  - the dotted-key translation lookup (`Language`);
  - multi-language content fallback (`PaperModel`).
- The decision rules of the other pages: `Login`, `VerifyOtp`, `CreateTest`,
  `AppShell`, `Home`, `Landing`, `PaperPage`, `Competitions`,
  `CompetitionDetails`, `Leaderboard`, `Results`, `Analytics` and
  `Subscription`. `Listing` and `Common` hold what several pages share.

How things are represented:

- Timestamps are integers in milliseconds. Marks are exact `real`s.
- `Math.round` is round-half-up on exact values.
- JavaScript objects whose insertion order shows are sequences of entries
  with unique keys. This covers the competition answers, the custom-paper
  store and multi-language content.
- Clock readings, prompt answers, the stored token and server responses
  are parameters.
- Each event handler is one atomic method call.

## Model

| member | source | states |
|---|---|---|
| PaperModel.ValueAt | app/ui/question-paper/QuestionPaperPage.tsx:25 | `content[key]` is present exactly when some entry has that key, and it is that entry's value |
| PaperModel.GetContent | app/ui/question-paper/QuestionPaperPage.tsx:20-28 | no content gives empty text; otherwise the text of the requested language, else of "en", else of the first entry stored |
| PaperModel.AllQuestionsIndex | app/ui/question-paper/QuestionPaperPage.tsx:92-96 | question `i` of section `j` sits in the flattened list at the total size of the earlier sections plus `i` |
| PaperModel.AllQuestionsSnoc | app/ui/solution/SolutionPage.tsx:36-39 | adding a section appends exactly its questions to the flattened list |
| QuestionPaper.FormatTimeReadsBack | app/ui/question-paper/QuestionPaperPage.tsx:30-38 | for non-negative seconds the display is `mm:ss`: both parts are digits, at least two minute digits, seconds below 60, and minutes·60 + seconds reads back as the input |
| QuestionPaper.JsRem | app/ui/question-paper/QuestionPaperPage.tsx:34 | JavaScript's `%` takes the sign of the dividend and stays below the divisor in size |
| QuestionPaper.Subject | app/ui/question-paper/QuestionPaperPage.tsx:133-134 | every question's subject is never empty (`exam_sub[0]` or "General") |
| QuestionPaper.SectionSlots | app/ui/question-paper/QuestionPaperPage.tsx:121-131 | each question of a section carries its section's mark (`marks_per_question`, defaulting to 1) and penalty (own `negative_marks`, else 0.25 with negative marking, else 0) |
| QuestionPaper.SlotsMatchQuestions | app/ui/question-paper/QuestionPaperPage.tsx:119-157 | the scorer's running index is the position of the question in the flattened list the page shows |
| QuestionPaper.GradeSnoc | app/ui/question-paper/QuestionPaperPage.tsx:129-158 | scoring one more question applies one step with the answer stored at that question's running index |
| QuestionPaper.GradeCounts | app/ui/question-paper/QuestionPaperPage.tsx:109-161 | every question is counted once; answered = correct + incorrect; answered is the number of answered indices and at most the question count |
| QuestionPaper.PaletteCountMatchesResult | app/ui/question-paper/QuestionPaperPage.tsx:429 | the palette's answered count equals the scorer's answered count |
| QuestionPaper.MarksTotalAppend | app/ui/question-paper/QuestionPaperPage.tsx:131 | the marks total of two runs of questions is the sum of their totals |
| QuestionPaper.MarksTotalUniform | app/ui/question-paper/QuestionPaperPage.tsx:121-131 | a section of `n` questions at mark `m` contributes `n·m` |
| QuestionPaper.GradeTotalMarks | app/ui/question-paper/QuestionPaperPage.tsx:131 | the scorer's total marks is the sum of the questions' marks, whatever the answers |
| QuestionPaper.TotalMarksOfPaper | app/ui/question-paper/QuestionPaperPage.tsx:120-131 | total marks = the sum over sections of question count × section mark |
| QuestionPaper.ScoreBounds | app/ui/question-paper/QuestionPaperPage.tsx:148-155 | with non-negative marks and penalties the raw score never exceeds total marks; without penalties it is never negative |
| QuestionPaper.AccuracyBounds | app/ui/question-paper/QuestionPaperPage.tsx:163 | accuracy is between 0 and 100 |
| QuestionPaper.ResultFacts | app/ui/question-paper/QuestionPaperPage.tsx:161-176 | in the result, answered + unanswered = total questions and correct + incorrect = answered; the reported score is at least 0; accuracy is within 0..100; total marks depends only on the paper; time taken = allowed time − time left |
| QuestionPaper.QualifiedThreshold | app/ui/result/ResultPage.tsx:36 | an attempt is qualified (rounded percentage ≥ 35) exactly when the exact percentage is at least 34.5 |
| QuestionPaper.FlooredPercentageInRange | app/ui/question-paper/QuestionPaperPage.tsx:162 | the percentage computed from the floored score always lies within 0..100 |
| QuestionPaper.NegativePercentageWithZeroScore | app/ui/question-paper/QuestionPaperPage.tsx:162-173 | one wrong answer at a quarter-mark penalty reports score 0 and percentage −25 |
| QuestionPaper.TwoSectionExample | app/ui/question-paper/QuestionPaperPage.tsx:120-159 | a two-section +1/−0.25 paper with one right and one wrong answer scores 0.75 of 2 |
| QuestionPaper.ScoreQuestion | app/ui/question-paper/QuestionPaperPage.tsx:129-158 | one turn of the inner loop performs exactly one specification step and keeps the subject tally in agreement with the totals |
| QuestionPaper.ScoreSection | app/ui/question-paper/QuestionPaperPage.tsx:120-159 | one section's loop advances the running index by its question count and grades exactly that section's questions |
| QuestionPaper.ScorePaper | app/ui/question-paper/QuestionPaperPage.tsx:105-200 | the imperative scorer returns exactly the specified result and the one-subject statistics |
| QuestionPaper.InitialTimeLeft | app/ui/question-paper/QuestionPaperPage.tsx:54-82 | the clock starts at `exam_due_min` minutes in seconds, or 3600, the same allowance time taken is measured against |
| QuestionPaper.PracticeSession.constructor | app/ui/question-paper/QuestionPaperPage.tsx:49-54 | a loaded paper starts at question 0 with no answers, no marks, the first supported language and the initial time |
| QuestionPaper.PracticeSession.Tick | app/ui/question-paper/QuestionPaperPage.tsx:84-90 | a tick lowers the time by one while it is positive, never below 0, and submits nothing |
| QuestionPaper.PracticeSession.TimeRunsOutUnsubmitted | app/ui/question-paper/QuestionPaperPage.tsx:84-90 | as written, the clock stops at 0 with no submission made |
| QuestionPaper.PracticeSession.TickAndExpire | app/ui/paper-details/PaperDetailsPage.tsx:51 | the intended tick: the tick that reaches 0 finishes the attempt with time left 0 |
| QuestionPaper.PracticeSession.SelectLanguage | app/ui/question-paper/QuestionPaperPage.tsx:286 | only the language changes |
| QuestionPaper.PracticeSession.Select | app/ui/question-paper/QuestionPaperPage.tsx:339-344 | the current question's answer becomes the chosen option (last write wins); all other answers are unchanged |
| QuestionPaper.PracticeSession.ToggleMark | app/ui/question-paper/QuestionPaperPage.tsx:313-318 | the current question's review mark flips; nothing else changes |
| QuestionPaper.ToggleTwice | app/ui/question-paper/QuestionPaperPage.tsx:313-318 | toggling twice restores the marked set |
| QuestionPaper.PracticeSession.Prev | app/ui/question-paper/QuestionPaperPage.tsx:362-365 | the index goes down by one and never below 0 |
| QuestionPaper.PracticeSession.Finish | app/ui/question-paper/QuestionPaperPage.tsx:105-213 | each call appends one submission holding the scored result, the paper type and the subject statistics; there is no guard against a second call |
| QuestionPaper.PracticeSession.Next | app/ui/question-paper/QuestionPaperPage.tsx:378-384 | Next advances while not on the last question; on the last question the index stays and exactly one submission is appended, holding the paper type, `ResultOf` and the subject stats, as the palette's Submit does |
| QuestionPaper.PracticeSession.OpenPalette | app/ui/question-paper/QuestionPaperPage.tsx:371 | the palette opens; nothing else changes |
| QuestionPaper.PracticeSession.ClosePalette | app/ui/question-paper/QuestionPaperPage.tsx:398 | the palette closes; nothing else changes |
| QuestionPaper.PracticeSession.JumpTo | app/ui/question-paper/QuestionPaperPage.tsx:408-411 | a palette button moves to its question and closes the palette |
| QuestionPaper.PracticeSession.SubmitFromPalette | app/ui/question-paper/QuestionPaperPage.tsx:433-436 | the palette closes and one more submission is appended, unguarded |
| QuestionPaper.PracticeSession.PaletteStatusOf | app/ui/question-paper/QuestionPaperPage.tsx:215-222 | the status is marked, else answered, else visited (the current index), else not visited, each stated as an iff |
| QuestionPaper.PracticeSession.OptionStatusOf | app/ui/question-paper/QuestionPaperPage.tsx:329-334 | an option shows as selected exactly when it is the current answer; every other option of a marked question shows as marked, and of an unmarked one as default |
| QuestionPaper.PracticeSession.AnsweredCount | app/ui/question-paper/QuestionPaperPage.tsx:429 | the count is at most the number of questions and equals the scorer's answered count |
| Solution.CorrectOptionIndex | app/ui/solution/SolutionPage.tsx:87-90 | the first option whose id equals the key; only when no id matches, the option at position `key` if it exists; else none |
| Solution.CorrectText | app/ui/solution/SolutionPage.tsx:91-93 | the designated option's text in the chosen language, or "N/A" |
| Solution.SolutionsOf | app/ui/solution/SolutionPage.tsx:81-93 | one entry per question of the flattened list, numbered from 1, each with its correct text (the list is the sections' questions flattened, lines 36-39) |
| Solution.ScorerAcceptsTwoOptions | app/ui/question-paper/QuestionPaperPage.tsx:145-146 | with option ids 1, 0 and key 1, the scorer accepts both options while the solutions page designates only the first |
| Solution.IntendedCorrectIsUniqueAndScored | app/ui/solution/SolutionPage.tsx:87-90 | under the intended rule at most one option is correct, and the scorer accepts that option too |
| Solution.ScorerAgreesOnUnambiguousIds | app/ui/question-paper/QuestionPaperPage.tsx:143-146 | with distinct ids that are either the positions or apart from all positions, the scorer and the solutions page agree |
| Solution.IntendedStep | app/ui/question-paper/QuestionPaperPage.tsx:148-155 | the corrected scoring step adds the mark exactly for the designated option and subtracts the penalty otherwise |
| Solution.IntendedStepMatches | app/ui/question-paper/QuestionPaperPage.tsx:140-156 | on unambiguous ids the corrected step equals the scorer's step |
| MathRenderer.NextDollar | app/ui/components/MathRenderer.tsx:44 | the next `$` at or after a position, with none skipped |
| MathRenderer.NextPair | app/ui/components/MathRenderer.tsx:44 | the next `$$` at or after a position, with none skipped |
| MathRenderer.MatchAt | app/ui/components/MathRenderer.tsx:44 | a delimited piece starts at `i` exactly when `s[i]` is `$` and another `$` follows |
| MathRenderer.SplitMathFacts | app/ui/components/MathRenderer.tsx:44 | the split alternates text without `$` and captured delimited pieces, and concatenating the parts gives back the input |
| MathRenderer.NodeFor | app/ui/components/MathRenderer.tsx:48-75 | a `$$…$$` part KaTeX accepts in display mode becomes display math of its inner part (`slice(2, -2)`); any other `$…$` part KaTeX accepts inline becomes inline math of `slice(1, -1)`; everything else, rejected math included, is a text node holding the part itself |
| MathRenderer.IntendedNodeFor | app/ui/components/MathRenderer.tsx:48-75 | the corrected classification by position: text parts stay text; a captured piece of at least four characters delimited by `$$` is display math, any other captured piece inline math, each falling back to text when KaTeX rejects it |
| MathRenderer.SliceInner | app/ui/components/MathRenderer.tsx:51-61 | `slice(n, -n)`: the inner part, or empty when the bounds cross |
| MathRenderer.MathContainer.RenderMath | app/ui/components/MathRenderer.tsx:33-77 | the container is cleared, then holds exactly one node per part of the split, in order |
| MathRenderer.LoneDollarVanishes | app/ui/components/MathRenderer.tsx:44-61 | the text "$" is one text part yet renders as empty inline math |
| MathRenderer.IntendedRenderingLosesNothing | app/ui/components/MathRenderer.tsx:44-75 | under the intended classification, the sources of the rendered nodes concatenate back to the input, and "$" stays text |
| MathRenderer.AsWrittenAgreesElsewhere | app/ui/components/MathRenderer.tsx:48-75 | apart from a text part that is exactly "$" or a captured piece that is exactly "$$", the two classifications agree |
| CustomPapers.Lookup | app/lib/customPapers.ts:68 | `papers[id]` is present exactly when the key is stored, with the stored value |
| CustomPapers.PutFacts | app/lib/customPapers.ts:45-49 | after a save the id maps to the paper, other ids are unchanged, keys stay unique, and a new id is appended |
| CustomPapers.RemoveFacts | app/lib/customPapers.ts:71-77 | after a removal the id is absent, other ids are unchanged and keys stay unique |
| CustomPapers.SortNewestFacts | app/lib/customPapers.ts:57-60 | the sort is newest first, a permutation of its input, and keeps every creation-time filter unchanged |
| CustomPapers.Strip | app/lib/customPapers.ts:61 | a list item keeps the paper's id, creation time and title |
| CustomPapers.CountSince | app/lib/customPapers.ts:87-90 | the created-today count never exceeds the number of papers |
| CustomPapers.CountAfterNewPaper | app/lib/customPapers.ts:79-91 | saving a new paper (saveCustomPaper, lines 45-49) raises the count by one exactly when it was created today |
| CustomPapers.CustomPaperStore.constructor | app/lib/customPapers.ts:30-38 | the store holds whatever the browser storage holds, including a missing or unreadable slot |
| CustomPapers.CustomPaperStore.Papers | app/lib/customPapers.ts:30-38 | a missing or unreadable store reads as empty |
| CustomPapers.CustomPaperStore.Save | app/lib/customPapers.ts:45-49 | the store is written with the paper put under its id; lookup then gives the paper and other ids are unchanged |
| CustomPapers.CustomPaperStore.Delete | app/lib/customPapers.ts:71-77 | a stored id is removed and written back; an absent id leaves the store untouched; other ids are unchanged |
| CustomPapers.CustomPaperStore.GetById | app/lib/customPapers.ts:64-69 | a found paper is one of the stored papers |
| CustomPapers.CustomPaperStore.ListPapers | app/lib/customPapers.ts:55-62 | as many items as stored papers, ordered by creation time non-increasing; every item is the stripped form of a stored paper and every stored paper's stripped form is listed |
| CustomPapers.CustomPaperStore.CreatedToday | app/lib/customPapers.ts:79-91 | never more than the number of stored papers |
| Language.ParseCode | app/ui/LanguageContext.tsx:27 | a stored code is accepted exactly when it is "en", "hi" or "mr", and it reads back as itself |
| Language.ParseCodeRoundTrip | app/ui/LanguageContext.tsx:27-34 | every language's code parses back to that language |
| Language.Child | app/ui/LanguageContext.tsx:41-50 | `current[k]` is present exactly when the group has that key |
| Language.WalkMissingPrefix | app/ui/LanguageContext.tsx:40-45 | once a prefix of the path is missing, the whole path is missing |
| Language.WalkAppend | app/ui/LanguageContext.tsx:40-51 | walking a path in two pieces is walking it at once |
| Language.PathOfPlainKey | app/ui/LanguageContext.tsx:38 | a key without dots is looked up directly |
| Language.LanguageProvider.constructor | app/ui/LanguageContext.tsx:22 | the language starts as English |
| Language.LanguageProvider.LoadPersisted | app/ui/LanguageContext.tsx:24-30 | a stored valid code is adopted; anything else leaves the language as it was |
| Language.LanguageProvider.SetLanguage | app/ui/LanguageContext.tsx:32-35 | the state and the stored value are the same new language |
| Language.LanguageProvider.T | app/ui/LanguageContext.tsx:37-53 | the value in the current language when the whole path exists; else the English value when that exists; else the key itself |
| Language.LanguageProvider.EnglishFallback | app/ui/LanguageContext.tsx:43-48 | the English walk returns the value, or the key when a segment is missing |
| Language.SetThenRemount | app/ui/LanguageContext.tsx:24-35 | a language set and then reloaded from storage is the one set |
| MyAcademy.PhoneChars | app/ui/my-academy/MyAcademyPage.tsx:35 | the filtered input holds only digits and '+' |
| MyAcademy.NormalizePhoneShape | app/ui/my-academy/MyAcademyPage.tsx:34-41 | the result holds only digits and '+' and is empty or starts with '+' |
| MyAcademy.NormalizePhoneCases | app/ui/my-academy/MyAcademyPage.tsx:37-40 | '+'-prefixed input is returned filtered; exactly 10 digits gives "+91" and the digits; other non-empty digits give "+" and the digits; no digits give "" |
| MyAcademy.PlusWithoutDigits | app/ui/my-academy/MyAcademyPage.tsx:37 | a lone "+" is returned as it is |
| MyAcademy.NormalizePhoneIdempotent | app/ui/my-academy/MyAcademyPage.tsx:34-41 | normalising twice equals normalising once |
| MyAcademy.WhatsAppTenDigits | app/ui/my-academy/MyAcademyPage.tsx:129-131 | a plain ten-digit number is linked as "91" followed by the number |
| MyAcademy.WebsiteHref | app/ui/my-academy/MyAcademyPage.tsx:137-143 | no link for a missing or empty website; a link with a web scheme is kept; otherwise "https://" is prepended |
| MyAcademy.WebsiteHrefIdempotent | app/ui/my-academy/MyAcademyPage.tsx:140-142 | prefixing is idempotent |
| MyAcademy.Duration | app/ui/my-academy/MyAcademyPage.tsx:225-226 | `durationMinutes`, else the paper's `exam_due_min`, else 0 |
| MyAcademy.ExactlyOneState | app/ui/my-academy/MyAcademyPage.tsx:224-231 | with a non-negative duration exactly one of locked, ended and live holds, at the stated window bounds |
| MyAcademy.UnparseableStartIsLive | app/ui/my-academy/MyAcademyPage.tsx:224-231 | a start date that does not parse makes the test live |
| MyAcademy.StateIsMonotone | app/ui/my-academy/MyAcademyPage.tsx:228-230 | a later clock never leaves "ended" and never enters "locked" |
| PaperDetails.MarkerRun | app/ui/paper-details/PaperDetailsPage.tsx:46 | the longest leading run of bullets, hyphens and digits |
| PaperDetails.StripMarker | app/ui/paper-details/PaperDetailsPage.tsx:46 | an unmarked line is kept; a marked line keeps a proper suffix of itself that starts with no white space |
| PaperDetails.StripMarkerRemoves | app/ui/paper-details/PaperDetailsPage.tsx:46 | what a marked line loses is exactly its maximal marker run, one '.' right after it when present, and then only white space; the rest of the line is kept |
| PaperDetails.CleanLineIsTrimmed | app/ui/paper-details/PaperDetailsPage.tsx:46 | a cleaned line has no whitespace at either end |
| PaperDetails.UnmarkedLineIsTrimmed | app/ui/paper-details/PaperDetailsPage.tsx:46 | a line without a marker is only trimmed |
| PaperDetails.CleanMarkedLine | app/ui/paper-details/PaperDetailsPage.tsx:46 | a marker run, then whitespace, is removed |
| PaperDetails.CleanNumberedLine | app/ui/paper-details/PaperDetailsPage.tsx:46 | a marker run, then '.', then whitespace, is removed |
| PaperDetails.NumberedLine | app/ui/paper-details/PaperDetailsPage.tsx:46 | "1. Read" becomes "Read" |
| PaperDetails.YearLosesNumber | app/ui/paper-details/PaperDetailsPage.tsx:46 | "2024 exam" becomes "exam" |
| PaperDetails.BareMarkerDropped | app/ui/paper-details/PaperDetailsPage.tsx:46-47 | "3." cleans to the empty line, which the filter drops |
| PaperDetails.BulletLine | app/ui/paper-details/PaperDetailsPage.tsx:46 | "• Bring ID" becomes "Bring ID" |
| PaperDetails.CleanLines | app/ui/paper-details/PaperDetailsPage.tsx:45-46 | one cleaned line per input line, in order |
| PaperDetails.InstructionsFacts | app/ui/paper-details/PaperDetailsPage.tsx:43-47 | every item is non-empty and trimmed, and is the cleaned form of some line; there are no more items than lines; every line that cleans to something is listed |
| PaperDetails.InstructionsDefaults | app/ui/paper-details/PaperDetailsPage.tsx:43-52 | missing or empty instructions give the three default items; a text of blank or bare-marker lines gives none |
| PaperDetails.NegativeLabel | app/ui/paper-details/PaperDetailsPage.tsx:99 | "0.25" exactly with negative marking, else "0" |
| PaperDetails.NegativeLabelMatchesScoring | app/ui/question-paper/QuestionPaperPage.tsx:122-127 | for a section without its own penalty, the label shows the penalty the scorer applies |
| Login.MobileDigits | app/login/page.tsx:43 | the number is reduced to its digits |
| Login.Submit | app/login/page.tsx:40-49 | an OTP is sent exactly when there are 10 digits, and the number sent is those digits; otherwise the fixed error |
| Login.VerifyUrlShape | app/login/page.tsx:29-33 | `&next=` is appended exactly when a next path is present; the encoded number contains no '&' |
| Login.SentNumberIsUrlNumber | app/login/page.tsx:32-69 | within the 10-character input limit, a valid input is its own digits, so the URL carries the number the OTP went to |
| Login.LongInputDiffers | app/login/page.tsx:32-48 | without the limit, ten digits split by a space (such as "98765 43210") are sent as digits that differ from the URL's number |
| Login.RedirectIfLoggedIn | app/login/page.tsx:19-25 | a stored token redirects to next, or "/home" when next is absent |
| VerifyOtp.LastDigit | app/verify-otp/page.tsx:66 | the last digit typed, or "" when no digit was typed |
| VerifyOtp.JoinedLength | app/verify-otp/page.tsx:38 | the joined code has length 6, as the check on line 88 demands, exactly when every cell holds a digit |
| VerifyOtp.OtpForm.constructor | app/verify-otp/page.tsx:17-21 | empty cells, a 30-second timer, and next defaulting to "/home" |
| VerifyOtp.OtpForm.RedirectOnMount | app/verify-otp/page.tsx:25-29 | a missing mobile number redirects to "/login" |
| VerifyOtp.OtpForm.Tick | app/verify-otp/page.tsx:31-36 | the timer drops by one and never below 0 |
| VerifyOtp.OtpForm.Change | app/verify-otp/page.tsx:65-74 | only the edited cell changes, to the last digit typed; the error clears; focus moves on only after a digit in a cell other than the last |
| VerifyOtp.OtpForm.KeyDown | app/verify-otp/page.tsx:76-83 | Backspace on an empty cell other than the first moves focus back |
| VerifyOtp.OtpForm.Verify | app/verify-otp/page.tsx:85-93 | a request is sent exactly when all six cells are filled; otherwise the error is set |
| VerifyOtp.OtpForm.VerifyFailed | app/verify-otp/page.tsx:50-52 | a rejected code sets the error |
| VerifyOtp.OtpForm.Resend | app/verify-otp/page.tsx:95-99 | nothing happens while the timer runs or the number is empty; otherwise the error clears and one resend is requested |
| VerifyOtp.OtpForm.ResendSucceeded | app/verify-otp/page.tsx:57-59 | the timer is reset to 30 |
| VerifyOtp.OtpForm.ResendFailed | app/verify-otp/page.tsx:60-62 | a failed resend sets the error |
| VerifyOtp.CountdownReachesZero | app/verify-otp/page.tsx:31-36 | after `n` ticks from `t`, the timer shows `t − n`, or 0 once `n ≥ t` |
| CreateTest.FreePlanSpellings | app/ui/create-test/CreateTestPage.tsx:30 | the free plan is recognised whatever its case and when the plan is missing; other names are not free |
| CreateTest.QuestionOptions | app/ui/create-test/CreateTestPage.tsx:134 | free users are offered 10 and 25; others all four counts of `questionOptions` (line 9) |
| CreateTest.PaperTitle | app/ui/create-test/CreateTestPage.tsx:72 | an empty title defaults to "<subject> - <difficulty> Level" |
| CreateTest.CreateTestForm.constructor | app/ui/create-test/CreateTestPage.tsx:15-22 | the form's initial values |
| CreateTest.CreateTestForm.SubjectsLoaded | app/ui/create-test/CreateTestPage.tsx:37-41 | the first subject is chosen when none is |
| CreateTest.CreateTestForm.ChooseQuestionCount | app/ui/create-test/CreateTestPage.tsx:131-134 | the count becomes one of the offered options |
| CreateTest.CreateTestForm.Create | app/ui/create-test/CreateTestPage.tsx:58-80 | no subject sets an error; a free user at 2 or more papers today gets the limit flag; otherwise exactly one request with the defaulted title; nothing else is sent |
| CreateTest.CreateTestForm.CreateFailed | app/ui/create-test/CreateTestPage.tsx:49-55 | a 403 sets the limit flag; any other failure sets the generic error |
| CreateTest.CreateTestForm.CreateSucceeded | app/ui/create-test/CreateTestPage.tsx:45-48 | the paper is saved in the store under its id and the page moves to "/test" |
| CreateTest.FreeLimitHolds | app/ui/create-test/CreateTestPage.tsx:65-71 | a free user at the daily limit sends nothing, however often they press the button |
| AppShell.ShellHiddenPages | app/ui/AppShell.tsx:23-54 | the shell is hidden on "/" and "/competitions" and under every listed prefix |
| AppShell.ShellShownElsewhere | app/ui/AppShell.tsx:52-54 | paths outside those are shown with the shell |
| AppShell.AuthRedirect | app/ui/AppShell.tsx:42-50 | public routes never redirect; any other route without a token redirects to "/login?next=" and the encoded path |
| AppShell.RedirectDoesNotLoop | app/ui/AppShell.tsx:43-48 | the redirect target is the public "/login" page, which does not redirect again |
| AppShell.AtMostOneActive | app/ui/AppShell.tsx:7-21 | no nav target is a prefix of another, so at most one nav item is active under the `startsWith` test of line 76 |
| AppShell.MoreExcludesPrimary | app/ui/AppShell.tsx:76-86 | "More" is never active together with a primary item |
| Listing.ActiveSubCategories | app/ui/home/HomePage.tsx:144-146 | only active subcategories are listed |
| Listing.ActiveAllOffered | app/ui/home/HomePage.tsx:144-146 | every active subcategory is listed |
| Listing.NextPage | app/ui/home/HomePage.tsx:124-127 | a next page exists exactly when the last page is full, and its number is the pages fetched plus one |
| Listing.LoadedFacts | app/ui/home/HomePage.tsx:132-135 | the loaded items are the pages concatenated in order; a new page appends |
| Listing.FullPages | app/ui/home/HomePage.tsx:124-135 | after `k` full pages, `k·limit` items are loaded and page `k+1` is requested |
| Home.CompetitionStatus | app/ui/home/HomePage.tsx:29-32 | the status, or "upcoming" when missing or empty |
| Home.FormatDurationReadsBack | app/ui/home/HomePage.tsx:34-40 | "—" for 0; "N mins" below 60; "Hh" or "Hh Mm" otherwise, with H·60 + M the minutes |
| Home.PaperTitle | app/ui/home/HomePage.tsx:56 | the title, else the exam name, else "Untitled Paper" |
| Home.PaperTotal | app/ui/home/HomePage.tsx:49 | `total_questions ?? total_que_count` |
| Home.TotalLabel | app/ui/home/HomePage.tsx:59 | "Practice set" exactly when the total is missing or 0 |
| Home.DurationLabel | app/ui/home/HomePage.tsx:60 | "—" exactly when the duration is missing or 0 |
| Home.ZeroTotalHidesCount | app/ui/home/HomePage.tsx:49-59 | a total of 0 shows "Practice set" even though a fallback count exists |
| Home.PromoFacts | app/ui/home/HomePage.tsx:137-142 | at most 3 promos, only live or upcoming, live ones first, taken in source order |
| Home.PromoLiveFirst | app/ui/home/HomePage.tsx:137-142 | with any live competition, the first promo is live |
| Home.PickCategory | app/ui/home/HomePage.tsx:274-277 | picking a category clears the subcategory |
| Home.CategoriesLoaded | app/ui/home/HomePage.tsx:90-94 | the first category is chosen only when none is |
| Home.NextPaperPage | app/ui/home/HomePage.tsx:124-127 | pages of 8: the next page exists exactly when the last page has 8 or more |
| Landing.CompetitionTitle | app/ui/LandingPage.tsx:75-77 | title, else name, else "Competition" |
| Landing.Stat | app/ui/LandingPage.tsx:158-163 | the list length, or 0 without data |
| Landing.DescribedItems | app/ui/LandingPage.tsx:171-183 | the first four categories or subjects, each with its description or the fixed line |
| Landing.CompetitionItems | app/ui/LandingPage.tsx:185-192 | the first four competitions with title, status and duration |
| Landing.PaperItems | app/ui/LandingPage.tsx:194-204 | the first four papers with title, question count and duration |
| Landing.CardsWithinStats | app/ui/LandingPage.tsx:158-204 | a card never lists more than four entries or more than its headline count |
| PaperPage.SyncedSubFacts | app/ui/paper/PaperPage.tsx:40-53 | no selection without a category or an active subcategory; otherwise the selection is an active subcategory, and a selection already active is kept |
| PaperPage.SyncIdempotent | app/ui/paper/PaperPage.tsx:40-53 | applying the rule twice equals applying it once |
| PaperPage.SearchParam | app/ui/paper/PaperPage.tsx:68 | the search term is sent exactly when its trim is non-empty, and it is sent trimmed |
| PaperPage.PapersRequestFor | app/ui/paper/PaperPage.tsx:63-73 | no request without a category; otherwise the category, subcategory, trimmed search, real-exam flag, page and limit 10 |
| PaperPage.NextRealExamPage | app/ui/paper/PaperPage.tsx:74-77 | pages of 10: the next page exists exactly when the last page has 10 or more |
| PaperPage.PaperBrowser.CategoriesLoaded | app/ui/paper/PaperPage.tsx:28-32 | the first category is chosen only when none is |
| PaperPage.PaperBrowser.PickCategory | app/ui/paper/PaperPage.tsx:125-128 | picking a category clears the subcategory |
| PaperPage.PaperBrowser.SyncSubCategory | app/ui/paper/PaperPage.tsx:40-53 | the effect sets the subcategory by the sync rule |
| PaperPage.PaperBrowser.PickSubCategory | app/ui/paper/PaperPage.tsx:141-146 | a subcategory button selects that active subcategory |
| PaperPage.PaperBrowser.TypeSearch | app/ui/paper/PaperPage.tsx:106-108 | typing changes only the draft |
| PaperPage.PaperBrowser.PressSearch | app/ui/paper/PaperPage.tsx:112-114 | the Search button applies the draft |
| PaperPage.PaperBrowser.Request | app/ui/paper/PaperPage.tsx:63-73 | the request carries the applied search, never the draft |
| PaperPage.PickedSubSurvivesSync | app/ui/paper/PaperPage.tsx:50-52 | a subcategory picked by a click (line 146) that is still active survives the effect |
| PaperPage.TypingDoesNotSearch | app/ui/paper/PaperPage.tsx:107-114 | typing without pressing Search leaves the request (built from the applied search, lines 61-68) unchanged |
| Competitions.GetStatus | app/ui/competitions/CompetitionsPage.tsx:33-38 | live and completed, compared case-insensitively, each as an iff; everything else is upcoming |
| Competitions.StatusSpellings | app/ui/competitions/CompetitionsPage.tsx:34-37 | "LIVE" is live, "Completed" completed; "cancelled" and a missing status are upcoming |
| Competitions.ShownFacts | app/ui/competitions/CompetitionsPage.tsx:54-57 | the tab shows exactly the competitions of its status; "my submissions" shows none |
| Competitions.TabsPartition | app/ui/competitions/CompetitionsPage.tsx:33-57 | the three status tabs split the list between them |
| Competitions.ListOrSubmissions | app/ui/competitions/CompetitionsPage.tsx:48-57 | the submissions query runs only on the tab that lists no competitions |
| Competitions.StartLink | app/ui/competitions/CompetitionsPage.tsx:228-235 | a start link exactly for live competitions, to their exam page |
| Competitions.StartLinksOnlyLive | app/ui/competitions/CompetitionsPage.tsx:228-235 | start links appear only on the live tab (the tab filter is lines 54-57) |
| Competitions.FindSubmission | app/ui/competitions/CompetitionDetailsPage.tsx:65-67 | the first submission for the competition, or none when there is none |
| CompetitionDetails.DetailsStatus | app/ui/competitions/CompetitionDetailsPage.tsx:68 | the status lower-cased, defaulting to "upcoming" |
| CompetitionDetails.PrimaryAction | app/ui/competitions/CompetitionDetailsPage.tsx:139-165 | view result exactly when submitted; resume exactly when started and live; otherwise start, enabled exactly when live, labelled by status |
| CompetitionDetails.AgreesWithList | app/ui/competitions/CompetitionDetailsPage.tsx:68 | the details page and the list agree on live and completed |
| CompetitionDetails.StartEnabledMatchesListLink | app/ui/competitions/CompetitionDetailsPage.tsx:156 | without a submission, start is enabled exactly where the list shows a start link |
| CompetitionDetails.StartedAfterTheEnd | app/ui/competitions/CompetitionDetailsPage.tsx:146-163 | a started attempt on a completed competition shows the disabled "completed" button |
| Leaderboard.NextLeaderboardPage | app/ui/competitions/CompetitionLeaderboardPage.tsx:33-36 | pages of 10: the next page exists exactly when the last page has 10 or more |
| Leaderboard.RowsInOrder | app/ui/competitions/CompetitionLeaderboardPage.tsx:41-42 | the rows are the pages concatenated in order |
| Leaderboard.OwnStatusLabel | app/ui/competitions/CompetitionLeaderboardPage.tsx:65-67 | "Submitted" exactly when submitted, else "In Progress" |
| Leaderboard.OwnResult | app/ui/competitions/CompetitionLeaderboardPage.tsx:44-46 | present exactly when some submission is for this competition; it is the first such submission, with its label |
| Leaderboard.AgreesWithDetails | app/ui/competitions/CompetitionLeaderboardPage.tsx:65-67 | the leaderboard says "Submitted" exactly when the details page offers "view result" |
| Leaderboard.ShownCounts | app/ui/competitions/CompetitionLeaderboardPage.tsx:122 | missing counts show as 0 |
| Leaderboard.Heading | app/ui/competitions/CompetitionLeaderboardPage.tsx:56 | the competition title, else "Competition" |
| Results.PaperTypeLabel | app/ui/results/ResultsPage.tsx:15-26 | the three paper types map to their labels, anything else to "Test", each as an iff |
| Results.PaperHref | app/ui/results/ResultsPage.tsx:65-68 | the paper's link, with "?custom=1" exactly for custom papers |
| Results.CustomMarkerOnlyOnCustom | app/ui/results/ResultsPage.tsx:65-68 | for ids without '?', a link ends in the custom marker exactly for custom papers |
| Results.PaperTitle | app/ui/results/ResultsPage.tsx:61 | the paper title, else "Test" |
| Results.PaperScoreText | app/ui/results/ResultsPage.tsx:63 | the same text the competition tab shows when the total is known; scores and totals are numbers (fractional after quarter-mark penalties), rendered by JavaScript's number-to-text conversion |
| Results.CompetitionEntryTitle | app/ui/results/ResultsPage.tsx:97 | the competition title, else "Competition" |
| Results.CompetitionHref | app/ui/results/ResultsPage.tsx:103 | the link uses the embedded competition id when present, else `competitionId` |
| Results.ScoreText | app/ui/results/ResultsPage.tsx:100-102 | "score / total", or "score /" when the total is missing, with fractional scores allowed |
| Results.ScoreSuffix | app/ui/results/ResultsPage.tsx:116 | the score is shown exactly for submitted entries |
| Results.MinutesTaken | app/ui/results/ResultsPage.tsx:132 | the minutes shown are the seconds divided by 60, rounded half up |
| Results.ResultsView | app/ui/results/ResultsPage.tsx:50-58 | loading, error and list all come from the open tab's query; a list is shown only when non-empty |
| Results.OtherTabIgnored | app/ui/results/ResultsPage.tsx:50-58 | the closed tab's query has no effect on what is shown |
| Analytics.MasteryAverage | app/ui/analytics/AnalyticsPage.tsx:9-13 | 0 for no subjects; otherwise within half a point of the mean, with missing percentages counted as 0 |
| Analytics.AverageIsPercent | app/ui/analytics/AnalyticsPage.tsx:9-13 | an average of percentages is a percentage |
| Analytics.UniformAverage | app/ui/analytics/AnalyticsPage.tsx:11-12 | equal percentages, fractional ones included, average to that percentage rounded half up |
| Analytics.WeeklyBars | app/ui/analytics/AnalyticsPage.tsx:34-41 | one bar per day, in order; height min(100, 20·count); colours taken by position modulo 5 |
| Analytics.DrawnHeight | app/ui/analytics/AnalyticsPage.tsx:165 | at least 10 pixels, and the bar's height when that is larger |
| Analytics.DrawnHeightBounds | app/ui/analytics/AnalyticsPage.tsx:38 | drawn bars are 10 to 100 pixels tall (the 10-pixel floor is applied on line 165) and more tests never draw a shorter bar |
| Analytics.ColorsCycle | app/ui/analytics/AnalyticsPage.tsx:35-39 | colours repeat every five bars and neighbours differ |
| Subscription.FeatureListFacts | app/ui/subscription/SubscriptionPage.tsx:24-38 | at most five entries in fixed order, each present exactly when its feature is truthy, with its count |
| Subscription.FeatureLabel | app/ui/subscription/SubscriptionPage.tsx:24-38 | the successive pushes build exactly the texts of the feature list |
| Subscription.PriceLabel | app/ui/subscription/SubscriptionPage.tsx:15 | "Free" exactly for price 0 |
| Subscription.ButtonLabel | app/ui/subscription/SubscriptionPage.tsx:186 | "Activate free plan" exactly for price 0, else "Continue to pay" |
| Subscription.HandlePurchase | app/ui/subscription/SubscriptionPage.tsx:85-95 | a free plan subscribes with "FREE_PLAN" without asking; a paid plan asks and subscribes exactly when the answer is non-empty |
| Subscription.LabelMatchesPurchase | app/ui/subscription/SubscriptionPage.tsx:86-94 | the button's label (line 186) tells whether pressing it will ask for a payment id |
| CompetitionExam.SecondsLeft | app/ui/competitions/CompetitionExamPage.tsx:75-77 | never negative; 0 exactly when less than a second remains; otherwise the whole seconds remaining |
| CompetitionExam.SecondsLeftMonotone | app/ui/competitions/CompetitionExamPage.tsx:73-78 | with the end and the offset fixed, a later local time never shows more time left |
| CompetitionExam.CountdownFollowsServer | app/ui/competitions/CompetitionExamPage.tsx:50-77 | with the offset fixed at start, the countdown depends only on the server's clock and the local time elapsed, not on the local clock's error |
| CompetitionExam.Lookup | app/ui/competitions/CompetitionExamPage.tsx:114 | `answers[id]` is present exactly when the id was answered, with its option |
| CompetitionExam.Put | app/ui/competitions/CompetitionExamPage.tsx:200-206 | an answered id keeps its place and takes the new option; a new id is appended |
| CompetitionExam.PutFacts | app/ui/competitions/CompetitionExamPage.tsx:200-206 | choosing records the option for that question only and keeps one entry per question |
| CompetitionExam.Payload | app/ui/competitions/CompetitionExamPage.tsx:91-96 | one payload entry per answers entry, in order |
| CompetitionExam.PayloadFacts | app/ui/competitions/CompetitionExamPage.tsx:91-96 | the payload names each answered question exactly once, with its last chosen option |
| CompetitionExam.StartLanguage | app/ui/competitions/CompetitionExamPage.tsx:52 | the first available language, else "en" |
| CompetitionExam.ExamPage.constructor | app/ui/competitions/CompetitionExamPage.tsx:35-43 | no session, no answers, time 0, English, guard down |
| CompetitionExam.ExamPage.Started | app/ui/competitions/CompetitionExamPage.tsx:47-54 | the offset is fixed once as server time minus local time; the questions, time left and language are taken from the response |
| CompetitionExam.ExamPage.Tick | app/ui/competitions/CompetitionExamPage.tsx:72-81 | the time left is recomputed from the server's clock |
| CompetitionExam.ExamPage.Submit | app/ui/competitions/CompetitionExamPage.tsx:89-103 | `handleSubmit(auto)`: a request is sent exactly when the guard is down; the guard is up afterwards; the payload is the current answers; a sent request records whether it was automatic |
| CompetitionExam.ExamPage.AutoSubmit | app/ui/competitions/CompetitionExamPage.tsx:83-87 | a submission starts only with a session, exactly 0 seconds left and the guard down, and is recorded as automatic |
| CompetitionExam.ExamPage.SubmitSucceeded | app/ui/competitions/CompetitionExamPage.tsx:103 | the page goes to the competition's leaderboard |
| CompetitionExam.ExamPage.SubmitFailed | app/ui/competitions/CompetitionExamPage.tsx:104-108 | the guard comes down so a retry is possible; the alert shows exactly when the refused request came from a manual press, as recorded when it was sent |
| CompetitionExam.ExamPage.Choose | app/ui/competitions/CompetitionExamPage.tsx:200-206 | the current question's answer becomes the option; other questions' answers are unchanged |
| CompetitionExam.ExamPage.Previous | app/ui/competitions/CompetitionExamPage.tsx:225-228 | the index goes down by one and never below 0 |
| CompetitionExam.ExamPage.Next | app/ui/competitions/CompetitionExamPage.tsx:243-247 | the index goes up by one and never past the last question |
| CompetitionExam.ExamPage.JumpTo | app/ui/competitions/CompetitionExamPage.tsx:271-273 | a palette button moves to its question and closes the palette |
| CompetitionExam.ExamPage.SelectLanguage | app/ui/competitions/CompetitionExamPage.tsx:166-168 | only the language changes |
| CompetitionExam.ExamPage.QuestionStatus | app/ui/competitions/CompetitionExamPage.tsx:112-117 | one item per question; an item is answered exactly when the answers hold its id |
| CompetitionExam.DoubleSubmitSendsOnce | app/ui/competitions/CompetitionExamPage.tsx:89-98 | pressing Submit twice sends one request |
| CompetitionExam.RetryAfterFailure | app/ui/competitions/CompetitionExamPage.tsx:83-108 | a failed automatic submission shows no alert, a later press sends again, and that manual retry, if refused, shows one alert |

## Left out

- Network I/O: every API call, the axios client and token handling, and the
  response normalisation in `app/lib/api.ts`. Server responses are
  parameters, or events such as `SubmitSucceeded` and `SubmitFailed`.
- React scheduling: effects, `setInterval`, query caching and refetching,
  and router navigation. Each handler is one atomic step, and ticks are
  explicit calls.
  - One consequence: the practice clock starts at 3600 when the page mounts
    and counts down while the paper loads. The load resets it only when
    `exam_due_min` is set, so a paper without it starts below 3600 by the
    loading time. `InitialTimeLeft` gives 3600 and does not model that
    pre-load countdown.
  - One consequence: a competition auto-submit that fails is not retried by
    the effect while the time left stays 0. A retry needs a new tick value
    or a manual press, and the model has no tick-value equality effect.
- Browser storage: only the parsed state is modelled. JSON (de)serialisation
  of the custom-paper store is not.
- The successful OTP verification is not modelled: the token and user are
  written to storage and the page navigates to next.
- KaTeX rendering and DOM node creation: the renderer is a parameter that may
  throw, and nodes are values.
- Locale and `Intl` formatting are not modelled: dates, times and
  non-zero prices in a currency. `PriceLabel` returns no text for a
  non-zero price.
- JavaScript's conversion of a number to text is a parameter
  (`Results.NumberText`). The model assumes only that its output is not empty
  and has no white space at either end.
- The exam page's own `getContent` in
  app/ui/competitions/CompetitionExamPage.tsx:14-18 is the same fallback as
  the practice page's. It is modelled once, as `PaperModel.GetContent`.
- IEEE floating point: percentages, accuracy, the mastery average and the
  minutes taken are computed on exact reals, then rounded half up.
- `Object.entries` order for integer-like keys: JavaScript lists them first,
  in numeric order. The competition answers and multi-language content keep
  plain insertion order, which matches for the non-numeric ids these pages
  use.
- `formatTime` in app/ui/competitions/CompetitionExamPage.tsx:20-28 is the
  same function as the practice page's. It is modelled once, as
  `QuestionPaper.FormatTime`.
- The competition exam's loading and error screens are markup, and so is
  the subscription page's category selection.
- Profile, notifications, the test list, custom-paper details and the layout
  pages are markup over fetched data.
- CustomPapers.CustomPaperStore.GetById: the contract says only that a found
  paper is stored. Exact lookup is stated by `CustomPapers.Lookup` and by the
  contracts of `Save` and `Delete`.
- AppShell.ShellShownElsewhere: shown for paths whose second character
  rules out every hidden prefix. This is weaker than a full characterisation
  of the paths that show the shell.
- MyAcademy: the date parse of `startAt` is a parameter. An unparseable date
  is `None`, which makes the comparisons false as NaN does.

## Findings

| source | as written | input that shows it | evidently intended | confidence | as-written member | corrected member |
|---|---|---|---|---|---|---|
| app/ui/question-paper/QuestionPaperPage.tsx:162-173 | the percentage is computed from the raw score, which may be negative, while the reported score is floored at 0 | one question with a 0.25 penalty, answered wrong: score 0, percentage −25 | the percentage of the reported (floored) score, within 0..100 | not executed | QuestionPaper.NegativePercentageWithZeroScore | QuestionPaper.FlooredPercentageInRange |
| app/ui/question-paper/QuestionPaperPage.tsx:145-146 | a choice is correct when its index OR its option id equals the key | options with ids 1 and 0, key 1: both options are scored correct, while the solutions page designates only the first | exactly the option the solutions page designates is correct | not executed | Solution.ScorerAcceptsTwoOptions | Solution.IntendedCorrectIsUniqueAndScored |
| app/ui/components/MathRenderer.tsx:44-61 | parts are classified by their text, so a text part that is exactly "$" counts as inline math | the text "$": one text part, rendered as empty inline math, so nothing is shown | only the captured delimited parts are math, and every character of the input is shown | not executed | MathRenderer.LoneDollarVanishes | MathRenderer.IntendedRenderingLosesNothing |
| app/ui/question-paper/QuestionPaperPage.tsx:84-90 | the countdown stops at 0 and never submits, while the default instructions (app/ui/paper-details/PaperDetailsPage.tsx:51) promise an automatic submission | a session with 1 second left: after the tick the clock shows 0 and no submission exists | the tick that reaches 0 finishes the attempt | not executed | QuestionPaper.PracticeSession.TimeRunsOutUnsubmitted | QuestionPaper.PracticeSession.TickAndExpire |
