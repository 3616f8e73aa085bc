# Taww volunteer app: a verified model of its core

Taww (تطوّع) is a React/TypeScript web app for university volunteers. A
volunteer signs in or signs up, browses and filters volunteering
opportunities, applies for one (or cancels an application), reviews
opportunities they completed, keeps a profile that can be filled in from
a CV or a LinkedIn address by the Gemini model, and sees where they stand
on the volunteer and university leaderboards. An AI chat page and an AI
recommendation box round it off.

This project models that core in Dafny:

- the session state of the volunteer context (`VolunteerContext`): log
  in, sign up, log out, register, cancel, review, update;
- every page and dialog that changes state, as a class whose fields are
  the component's `useState` variables and whose methods are its
  handlers (`Login`, `Opportunities`, `OpportunityModal`, `MapModal`,
  `RatingModal`, `Profile`, `EditProfile`, `CompleteProfile`,
  `AiAssistant`, `AiRecommender`, `Leaderboard`); the handlers left out
  are listed under "Left out";
- the pure computations as functions with their properties proved as
  lemmas. These include the leaderboard aggregation and rankings, the
  opportunity filter and sort, the Markdown renderer of the chat page,
  the form validators, the comma-separated list fields, the star row and
  the post-processing of the Gemini answers (`Gemini`).

Shared pieces:

- `Js` models the JavaScript built-ins the code relies on: `trim`,
  `toLowerCase`, `split`, `join`, `includes`, `indexOf`, `lastIndexOf`,
  `slice`, `filter`, `map`, `findIndex`, `localeCompare` and `||` on
  numbers.
- `JsValue` models dynamically typed JSON values and object spread.
- `StableSort` models `Array.prototype.sort`, which ECMAScript 2019 and
  later require to be stable, as a stable insertion sort over a strict
  weak order. It is proved to return a sorted permutation that keeps
  tied elements in their input order.
- `TextLists` models the comma-separated list fields of the profile forms.
- `Types` holds the records of `src/types.ts`.

Timers (`setTimeout`) become explicit steps: a pending job stored in a
field, run by a `FireTimer` or `Finish…` method. Answers from the
Gemini service, file contents and `JSON.parse` become inputs (an
`Outcome` value or a `parse` function), so each handler is specified for
every possible answer.

Where the prose description of the app and the code differ, the model
follows the code:

- `Leaderboard.UniversityCompare` follows `components/pages/Leaderboard.tsx:27` as written, so universities are ranked by total points alone. The tie-breakers there subtract `b.totalHours` from itself and `b.count` from itself, so they are always zero. The prose at `components/pages/Home.tsx:164` suggests hours matter. `Leaderboard.UniversityTieIgnoresHours` shows the consequence.
- A volunteer who is not on the board has rank 0 (`findIndex` + 1).
- `mapQualificationToEnum` has no branch for the student value, so `STUDENT` maps to nothing (`Gemini.MapQualificationValues`).
- The map panel's primary button on a COMPLETED opportunity opens the application form in the handler. The button is disabled in that state (`MapModal.PanelEffectLikeDialog`).
- The edit-profile dialog saves the form as it stood when Save was pressed (`EditProfile.EditDuringSave`).

## Model

| member | source | states |
|---|---|---|
| VolunteerContext.RecordFor | components/OpportunityModal.tsx:38 | The record found for an opportunity is absent exactly when no record has that id; otherwise it is the volunteer's first record with that id. |
| VolunteerContext.RegisterRecords | contexts/VolunteerContext.tsx:79-110 | With an active record for the id the list is unchanged. Otherwise the id's old records are dropped, the rest keep their order, and one new REGISTERED record with the text is appended. Either way the id has an active record afterwards. |
| VolunteerContext.CancelRecords | contexts/VolunteerContext.tsx:112-128 | The list keeps its length. Exactly the REGISTERED records of the id turn CANCELLED and every other record is unchanged. |
| VolunteerContext.ReviewIds | contexts/VolunteerContext.tsx:130-143 | The id is in the reviewed list afterwards. It is appended only when it was missing, and the old list is kept as a prefix. |
| VolunteerContext.Register | contexts/VolunteerContext.tsx:79-110 | With no volunteer nothing happens; otherwise only the volunteer's registrations change, as RegisterRecords says. |
| VolunteerContext.Cancel | contexts/VolunteerContext.tsx:112-128 | With no volunteer nothing happens; otherwise only the registrations change, as CancelRecords says. |
| VolunteerContext.Review | contexts/VolunteerContext.tsx:130-143 | With no volunteer nothing happens; otherwise only the reviewed ids change, as ReviewIds says. |
| VolunteerContext.RegisterReplaces | contexts/VolunteerContext.tsx:100-106 | Registering leaves the records of every other opportunity as they were, in order. A fresh registration leaves exactly one record for its own id. |
| VolunteerContext.RegisterKeepsInvariant | contexts/VolunteerContext.tsx:84-106 | No opportunity ever has two active (registered or completed) records after a registration, if none had before. |
| VolunteerContext.CancelEffect | contexts/VolunteerContext.tsx:116-121 | The cancellation is stated per record: the id's REGISTERED records turn CANCELLED and everything else is left alone. |
| VolunteerContext.CancelIdempotent | contexts/VolunteerContext.tsx:112-128 | Cancelling twice is the same as cancelling once. |
| VolunteerContext.CancelKeepsInvariant | contexts/VolunteerContext.tsx:112-128 | Cancelling keeps "at most one active record per opportunity". |
| VolunteerContext.ReviewKeepsDistinct | contexts/VolunteerContext.tsx:135 | Reviewing keeps the reviewed ids free of duplicates. |
| VolunteerContext.ReviewIdempotent | contexts/VolunteerContext.tsx:135 | Reviewing the same opportunity twice is the same as once. |
| VolunteerContext.FirstRegistration | contexts/VolunteerContext.tsx:100-106 | A first registration appends one REGISTERED record holding the application text. |
| VolunteerContext.SoleRecord | contexts/VolunteerContext.tsx:84-91 | An appended record that is the only one with its id is the one found for that id. |
| VolunteerContext.CancelSoleRecord | contexts/VolunteerContext.tsx:116-121 | Cancelling the only record of an opportunity flips just that record to CANCELLED and keeps its text. |
| VolunteerContext.Reregistration | contexts/VolunteerContext.tsx:100-106 | Registering again after a cancellation replaces the cancelled record with a new REGISTERED one carrying the new text. |
| VolunteerContext.RegistrationScenario | contexts/VolunteerContext.tsx:79-128 | Register, register again, cancel, re-register: the second register changes nothing, the end state has one REGISTERED record, and points and hours never change. |
| VolunteerContext.DemoEmailCaseInsensitive | contexts/VolunteerContext.tsx:33 | The demo e-mail matches in any letter case: the lower-cased address equals the demo address iff each character equals it or is its upper-case form. |
| VolunteerContext.NewVolunteer | contexts/VolunteerContext.tsx:45-67 | A signed-up volunteer has the creation time as id; the form's name, e-mail, phone, birth date, city and national id; a pravatar picture keyed by the e-mail; no registrations, badges, reviews, hours or points; STUDENT, ZERO_TO_ONE, no skills and an empty motivation and bio; and the template's specialization, university, graduation year, languages and commitment level. |
| VolunteerContext.NewVolunteerCanRegister | contexts/VolunteerContext.tsx:57-61 | A new volunteer's first registration gives exactly one REGISTERED record. |
| VolunteerContext.VolunteerProvider.constructor | contexts/VolunteerContext.tsx:27-28 | Starts with no volunteer and not authenticated. |
| VolunteerContext.VolunteerProvider.Login | contexts/VolunteerContext.tsx:30-39 | Succeeds exactly for the demo credentials, and then the demo volunteer is signed in. On failure nothing changes. |
| VolunteerContext.VolunteerProvider.Signup | contexts/VolunteerContext.tsx:41-72 | Always succeeds and signs in NewVolunteer of the form. |
| VolunteerContext.VolunteerProvider.Logout | contexts/VolunteerContext.tsx:74-77 | Clears the volunteer and the authenticated flag. |
| VolunteerContext.VolunteerProvider.RegisterForOpportunity | contexts/VolunteerContext.tsx:79-110 | The new volunteer state is Register of the old one. The session invariant is kept. |
| VolunteerContext.VolunteerProvider.CancelRegistration | contexts/VolunteerContext.tsx:112-128 | The new volunteer state is Cancel of the old one. The invariant is kept. |
| VolunteerContext.VolunteerProvider.SubmitReview | contexts/VolunteerContext.tsx:130-143 | The new volunteer state is Review of the old one. The invariant is kept. |
| VolunteerContext.VolunteerProvider.UpdateVolunteer | contexts/VolunteerContext.tsx:145-147 | Replaces the volunteer and keeps the authentication flag. |
| Leaderboard.Names | components/pages/Leaderboard.tsx:16-26 | The universities in the order they are first met, with no duplicates. |
| Leaderboard.NamesMembers | components/pages/Leaderboard.tsx:16-24 | A name is listed iff some counted volunteer belongs to that university. |
| Leaderboard.AggregateUniversityData | components/pages/Leaderboard.tsx:14-28 | The loop's result is the stable points-descending sort of one total per university. |
| Leaderboard.CollectStats | components/pages/Leaderboard.tsx:16-24 | The forEach builds a map whose keys are exactly Names. Each entry holds the sums of points, hours and members of that university. |
| Leaderboard.AggregateConservesPoints | components/pages/Leaderboard.tsx:14-26 | The university totals add up to the points of all counted volunteers. |
| Leaderboard.UniversityRankingConservesPoints | components/pages/Leaderboard.tsx:27 | Sorting the totals keeps that sum. |
| Leaderboard.UniversityNamesUnique | components/pages/Leaderboard.tsx:14-27 | Each university appears once on the ranking. |
| Leaderboard.UniversityCompareIsPointsOnly | components/pages/Leaderboard.tsx:27 | The comparator as written orders by total points only: two universities tie iff their points are equal. |
| Leaderboard.UniversityLtIsStrictWeakOrder | components/pages/Leaderboard.tsx:27 | The comparator is a strict weak order, so the sort is well defined. |
| Leaderboard.UniversityRanking | components/pages/Leaderboard.tsx:27 | The ranking is a permutation of the totals, sorted by points, with equal-point universities in first-met order. |
| Leaderboard.TwoUniversities | components/pages/Leaderboard.tsx:14-26 | Example: two volunteers of different universities give two totals, each with its own volunteer's figures. |
| Leaderboard.UniversityTieIgnoresHours | components/pages/Leaderboard.tsx:27 | With equal points the university met first stays first even when the other has more hours. |
| Leaderboard.VolunteerOrder | components/pages/Leaderboard.tsx:169 | One volunteer precedes another iff it has more points, or equal points and more hours, or both equal and a smaller name. |
| Leaderboard.VolunteerLtIsStrictWeakOrder | components/pages/Leaderboard.tsx:169 | That order is a strict weak order. |
| Leaderboard.VolunteerRanking | components/pages/Leaderboard.tsx:168-170 | The volunteer ranking is a permutation of the volunteers, sorted by that order, with ties kept in input order. |
| Leaderboard.VolunteerRankingExample | components/pages/Leaderboard.tsx:168-170 | A worked example: 150 points beats 100, and at equal points and hours "A" precedes "B". |
| Leaderboard.RankExample | components/pages/Leaderboard.tsx:231 | A worked example of ranks 1, 2, 3 by position. |
| Leaderboard.Rank | components/pages/Leaderboard.tsx:231 | The rank is 0 iff the id is absent; otherwise it is one more than the first position holding the id. |
| Leaderboard.RankAt | components/pages/Leaderboard.tsx:262 | On a board with distinct ids the volunteer at position k has rank k + 1. |
| Leaderboard.RanksDistinct | components/pages/Leaderboard.tsx:231 | Distinct volunteers get distinct ranks. |
| Leaderboard.UniversityRank | components/pages/Leaderboard.tsx:330 | The rank is 0 iff the name is absent; otherwise it is the first position of the name plus one. |
| Leaderboard.UniversityRankAt | components/pages/Leaderboard.tsx:370 | Each university on the ranking has its position plus one as its rank. |
| Leaderboard.FilteredVolunteers | components/pages/Leaderboard.tsx:172-178 | The list holds exactly the ranked volunteers the chip keeps whose name contains the search term, ignoring case; it is the in-order selection (Js.InOrderSelection) of the chip's list, itself the in-order selection of the ranking for the 50-hours chip. |
| Leaderboard.FilteredIdempotent | components/pages/Leaderboard.tsx:172-178 | Filtering the filtered list again changes nothing. |
| Leaderboard.TotalPages | components/pages/Leaderboard.tsx:180 | The page count is the least number of ten-item pages that hold the list. |
| Leaderboard.Page | components/pages/Leaderboard.tsx:181 | A page is the slice of at most ten items starting at (page − 1)·10. |
| Leaderboard.PagesFrom | components/pages/Leaderboard.tsx:181 | The pages from p to the last, concatenated, are the list from p's first item on. |
| Leaderboard.PagesCoverList | components/pages/Leaderboard.tsx:180-181 | All pages in order give back the whole list. |
| Leaderboard.PagePastEnd | components/pages/Leaderboard.tsx:181 | A page past the last is empty. |
| Leaderboard.Podium | components/pages/Leaderboard.tsx:183 | The podium is the first three of the ranking, or fewer when there are fewer. |
| Leaderboard.PrevPage | components/pages/Leaderboard.tsx:138 | "Previous" goes back one page and never below page 1. |
| Leaderboard.NextPage | components/pages/Leaderboard.tsx:139 | "Next" goes on one page and never past the last. |
| Leaderboard.PagingStaysInRange | components/pages/Leaderboard.tsx:131-154 | From a page in range, both buttons stay in range. |
| Leaderboard.VolunteersBoard.constructor | components/pages/Leaderboard.tsx:158-166 | Starts on page 1 with no search and no chip. |
| Leaderboard.VolunteersBoard.SetSearchTerm | components/pages/Leaderboard.tsx:164-166 | Stores the typed term; the page goes back to 1 when the term differs from the old one and stays otherwise, because the effect on `[searchTerm, activeFilter]` runs only when a dependency changed. |
| Leaderboard.VolunteersBoard.SetActiveFilter | components/pages/Leaderboard.tsx:164-166 | Stores the clicked chip; the page goes back to 1 when it differs from the active chip, and clicking the active chip again keeps the current page, since the effect does not run. |
| Leaderboard.VolunteersBoard.Prev | components/pages/Leaderboard.tsx:138 | Moves to PrevPage. |
| Leaderboard.VolunteersBoard.Next | components/pages/Leaderboard.tsx:139 | Moves to NextPage. |
| Leaderboard.VolunteersBoard.View | components/pages/Leaderboard.tsx:168-183 | The podium comes from the full ranking. The page and page count come from the filtered ranking. |
| Leaderboard.UniversityBoard.constructor | components/pages/Leaderboard.tsx:295-299 | Starts on page 1. |
| Leaderboard.UniversityBoard.Prev | components/pages/Leaderboard.tsx:138 | Moves to PrevPage. |
| Leaderboard.UniversityBoard.Next | components/pages/Leaderboard.tsx:139 | Moves to NextPage. |
| Opportunities.FilteredOpportunities | src/components/pages/Opportunities.tsx:143-157 | The list holds exactly the opportunities matching category, work style and search term, as the in-order selection of the catalogue (Js.InOrderSelection): catalogue order kept. |
| Opportunities.BlankTermIgnored | src/components/pages/Opportunities.tsx:148-151 | A blank search term filters nothing out. |
| Opportunities.TermMatches | src/components/pages/Opportunities.tsx:148-154 | With a term, an opportunity matches iff its lower-cased title, organisation, city and skill tags, joined by spaces, contain the trimmed lower-cased term. |
| Opportunities.TitleHitIsFound | src/components/pages/Opportunities.tsx:153-154 | A term found in the lower-cased title is found by the search. |
| Opportunities.ToLowerKeepsBlank | src/components/pages/Opportunities.tsx:148 | Lower-casing keeps a term blank or non-blank. |
| Opportunities.FilterIdempotent | src/components/pages/Opportunities.tsx:143-157 | Filtering twice is filtering once. |
| Opportunities.SortLtIsStrictWeakOrder | src/components/pages/Opportunities.tsx:159-184 | Every sort option's comparator is a strict weak order. |
| Opportunities.ShownListIsSortedFilter | src/components/pages/Opportunities.tsx:143-184 | The shown list is a permutation of the filtered list, sorted by the option, with ties kept in catalogue order. |
| Opportunities.SortOrderMeaning | src/components/pages/Opportunities.tsx:159-184 | For each option, an earlier item never comes after a later one by that option's key: deadline ascending or descending, points, rating, reviews, featured first. |
| Opportunities.DefaultOrderKeepsGroups | src/components/pages/Opportunities.tsx:180-182 | The default order puts featured opportunities first and keeps catalogue order within each group. |
| Opportunities.OpportunitiesPage.constructor | src/components/pages/Opportunities.tsx:99-109 | Everything starts at "all" and the default order, with the filter dialog closed. |
| Opportunities.OpportunitiesPage.SetSearchTerm | src/components/pages/Opportunities.tsx:203 | Sets the search term. |
| Opportunities.OpportunitiesPage.SelectCategory | src/components/pages/Opportunities.tsx:218 | A desktop category chip sets the applied category at once. |
| Opportunities.OpportunitiesPage.SelectWorkStyle | src/components/pages/Opportunities.tsx:232 | A desktop work-style chip sets the applied work style at once. |
| Opportunities.OpportunitiesPage.SelectSort | src/components/pages/Opportunities.tsx:249 | The desktop sort selector sets the applied order at once. |
| Opportunities.OpportunitiesPage.CloseFilterModal | src/components/pages/Opportunities.tsx:308 | Closes the dialog without applying its choices. |
| Opportunities.OpportunitiesPage.OpenFilterModal | src/components/pages/Opportunities.tsx:260-264 | The dialog opens with the applied choices copied into its temporary ones. |
| Opportunities.OpportunitiesPage.ChooseInModal | src/components/pages/Opportunities.tsx:310-314 | Choices in the dialog change only the temporary values. |
| Opportunities.OpportunitiesPage.ApplyFilters | src/components/pages/Opportunities.tsx:136-141 | Applying copies the temporary choices in and closes the dialog. |
| Opportunities.OpportunitiesPage.Shown | src/components/pages/Opportunities.tsx:143-184 | The list shown is the sorted filter of the applied choices. |
| Login.Set | components/pages/Login.tsx:138-145 | Setting a field changes that field and no other. |
| Login.EmailPatternIff | components/pages/Login.tsx:8 | The e-mail check holds iff the address is: one or more characters other than white space and @, then @, then one or more such characters, a dot, and at least two such characters. |
| Login.PhonePatternIff | components/pages/Login.tsx:9 | The phone check holds iff the number is "05" followed by exactly eight digits. |
| Login.LookaheadIff | components/pages/Login.tsx:12-20 | A password look-ahead finds its character class iff the class occurs before the first line break. |
| Login.PasswordRules | components/pages/Login.tsx:12-20 | "Too short" iff under 8 characters; "weak" iff long enough but the pattern finds no digit or no symbol (a character that is neither a word character nor white space) before the first line break; no error iff neither. |
| Login.ValidateField | components/pages/Login.tsx:109-127 | Each field's validation gives no error iff the field meets its rule, including the confirmation equal to the password. |
| Login.ValidateMeaning | components/pages/Login.tsx:109-127 | All fields validate iff the form is acceptable as a whole. |
| Login.Merged | components/pages/Login.tsx:109-127 | Validating some fields sets exactly their errors and keeps every other stored error. |
| Login.ValidateAllIff | components/pages/Login.tsx:147-152 | Validating all fields leaves no error iff the form is acceptable. |
| Login.ValidateOneKeepsOthers | components/pages/Login.tsx:109-127 | Validating one field cannot clear another field's error. |
| Login.StaleRevalidation | components/pages/Login.tsx:138-145 | As written, typing a valid phone number still shows the phone error, because the handler validates the data from before the keystroke. |
| Login.FreshRevalidation | components/pages/Login.tsx:138-145 | Corrected: the changed field's error reflects its new value and the others are kept. |
| Login.SignupForm.constructor | components/pages/Login.tsx:100-107 | An empty form with no errors. |
| Login.SignupForm.ValidateForm | components/pages/Login.tsx:109-127 | The loop stores the Merged errors for the given field or for all fields. It reports success iff no stored error is left. |
| Login.SignupForm.HandleChange | components/pages/Login.tsx:138-145 | Corrected handler: the field takes its new value and its error is recomputed on the new data. |
| Login.SignupForm.ConfirmEffect | components/pages/Login.tsx:129-135 | With a password set, only the confirmation's error is recomputed. |
| Login.SignupForm.HandleSubmit | components/pages/Login.tsx:147-152 | Validates every field. The form is submitted, unchanged, iff it is acceptable. |
| Login.LoginPage.constructor | components/pages/Login.tsx:190-195 | Starts in sign-in mode, not loading, no error. |
| Login.LoginPage.HandleModeChange | components/pages/Login.tsx:197-202 | Ignored while loading; otherwise switches mode and clears the error and the success note. |
| Login.LoginPage.StartSubmit | components/pages/Login.tsx:204-206 | Loading starts and the error clears. |
| Login.LoginPage.FinishLogin | components/pages/Login.tsx:204-212 | Loading stops. A failure shows the bad-credentials message. |
| Login.LoginPage.FinishSignup | components/pages/Login.tsx:214-227 | A failure shows the sign-up error and stops loading. A success shows the success note and keeps the page locked until it navigates away. |
| Profile.CompletedCount | src/components/pages/Profile.tsx:24-26 | The completed count never exceeds the number of records. |
| Profile.CompletedCountConcat | src/components/pages/Profile.tsx:24-26 | The count is additive over concatenation. |
| Profile.RegisterKeepsCompleted | src/components/pages/Profile.tsx:24-26 | Registering never changes the completed count. |
| Profile.CancelKeepsCompleted | src/components/pages/Profile.tsx:24-26 | Cancelling never changes the completed count. |
| Profile.TopSkills | src/components/pages/Profile.tsx:73 | The first five skills, or all when fewer. |
| Profile.UserBadges | src/components/pages/Profile.tsx:194 | A badge is shown iff it is in the catalogue and its id is among the volunteer's; the shown badges are the in-order selection of the catalogue. |
| Profile.Lookup | src/components/pages/Profile.tsx:196-199 | An opportunity is found iff the catalogue has its id, and then it is the first catalogue entry with that id. |
| Profile.JoinedKnown | src/components/pages/Profile.tsx:195-200 | The history holds, in order, one entry per registration whose opportunity is in the catalogue, pairing it with its status. |
| Profile.LaterFirstIsStrictWeakOrder | src/components/pages/Profile.tsx:202 | The later-start-first order is a strict weak order. |
| Profile.HistoryOrder | src/components/pages/Profile.tsx:195-202 | The history is a permutation of the joined entries, latest start first, with same-start entries in registration order. |
| Profile.ReviewHidesRateButton | src/components/pages/Profile.tsx:243 | After reviewing an opportunity its rate button disappears and every other button stays as it was. |
| Profile.ForBoard | src/components/pages/Profile.tsx:270-274 | The user inserted into the board keeps their id, name, points and hours. |
| Profile.RankLtIsStrictWeakOrder | src/components/pages/Profile.tsx:276-281 | Ranking by points or by hours is a strict weak order. |
| Profile.RankingTabContents | src/components/pages/Profile.tsx:264-282 | The ranking tab is the board, plus the user when absent, sorted by the chosen key, ties in order. |
| Profile.WithUserContents | src/components/pages/Profile.tsx:270-274 | The user is added iff not on the board, and is on the list afterwards. |
| Profile.RankingTabKeepsBoardEntry | src/components/pages/Profile.tsx:270-281 | When the user is on the board, the tab is just the sorted board. |
| Profile.ProfilePage.constructor | src/components/pages/Profile.tsx:322-324 | Starts on the profile tab with nothing to rate and the edit dialog closed. |
| Profile.ProfilePage.SelectTab | src/components/pages/Profile.tsx:373 | A tab button makes its tab active. |
| Profile.ProfilePage.OpenEditModal | src/components/pages/Profile.tsx:363 | The identity card's edit button opens the edit dialog. |
| Profile.ProfilePage.CloseEditModal | src/components/pages/Profile.tsx:408 | The edit dialog's close closes it without saving. |
| Profile.ProfilePage.CloseRating | src/components/pages/Profile.tsx:401 | The rating dialog's close clears the choice without a review. |
| Profile.ProfilePage.RateClick | src/components/pages/Profile.tsx:391 | Chooses the opportunity to rate. |
| Profile.ProfilePage.HandleSubmitRating | src/components/pages/Profile.tsx:329-334 | Submits a review of the chosen opportunity to the session, if one is chosen, and closes the rating dialog. |
| Profile.ProfilePage.HandleSaveProfile | src/components/pages/Profile.tsx:336-339 | Stores the edited volunteer in the session and closes the edit dialog. |
| CompleteProfile.ValidLinkedInExtends | components/pages/CompleteProfile.tsx:123 | The LinkedIn check is a search, not an anchored match: text around a valid address keeps it valid. |
| CompleteProfile.ProfileAddressAccepted | components/pages/CompleteProfile.tsx:123 | Example: a concrete profile address is accepted. |
| CompleteProfile.BareMarkerRejected | components/pages/CompleteProfile.tsx:123 | The marker with no profile name is rejected. |
| CompleteProfile.SpacedMarkerRejected | components/pages/CompleteProfile.tsx:123 | A space is not a profile-name character. |
| CompleteProfile.InitialForm | components/pages/CompleteProfile.tsx:89-98 | The form starts from the volunteer's fields, with empty text as the fallback and BACHELOR as the qualification fallback. |
| CompleteProfile.LanguageNames | components/pages/CompleteProfile.tsx:99 | Reading `language` throws iff some entry is `null` or `undefined`. Otherwise there is one name per entry, in order: entry k's `language` string, or "" when entry k is another non-object or its `language` is not a string. |
| CompleteProfile.LanguagesText | components/pages/CompleteProfile.tsx:99 | "" with no volunteer or no languages. A TypeError iff the languages are present but not an array, or LanguageNames throws. Otherwise the names joined with ", ". |
| CompleteProfile.SkillsText | components/pages/CompleteProfile.tsx:100 | "" with no volunteer or no skills. A TypeError iff the skills are present but not an array. Otherwise the skills joined with ", ". |
| CompleteProfile.ExtractUpdate | components/pages/CompleteProfile.tsx:136-143 | The update throws iff a truthy skills field is not an array. Otherwise the form takes the extracted fields, and the skills, when present, go to the skills text. |
| CompleteProfile.ImportedSkillsRoundTrip | components/pages/CompleteProfile.tsx:139 | Skills written into the text field read back unchanged when saved. |
| CompleteProfile.LanguageEntries | components/pages/CompleteProfile.tsx:167-173 | One language entry per name, in order. |
| CompleteProfile.SavedSkills | components/pages/CompleteProfile.tsx:171-172 | Typed skills replace the old ones; with none typed, the old skills, or [] when there are none. |
| CompleteProfile.SavedLanguages | components/pages/CompleteProfile.tsx:171-172 | The same rule for languages. |
| CompleteProfile.SavedProfile | components/pages/CompleteProfile.tsx:167-173 | The saved profile has the old volunteer's fields overridden by the form's. The graduation year follows the "still studying" box, and the lists follow SavedSkills and SavedLanguages. |
| CompleteProfile.SkillsTextOf | components/pages/CompleteProfile.tsx:100 | The skills field starts as the skills joined with ", ". |
| CompleteProfile.SkillsTextReadsBack | components/pages/CompleteProfile.tsx:100 | Saving the untouched field gives the same skills back. |
| CompleteProfile.SavedOwnSkills | components/pages/CompleteProfile.tsx:158-172 | Saving a profile's own skills keeps them. |
| CompleteProfile.CompleteProfilePage.constructor | components/pages/CompleteProfile.tsx:89-107 | The initial form, the two text fields, and every flag off; it needs both texts to succeed. |
| CompleteProfile.CompleteProfilePage.HandleChange | components/pages/CompleteProfile.tsx:115-118 | Sets one form field to the typed text. |
| CompleteProfile.CompleteProfilePage.HandleLinkedInChange | components/pages/CompleteProfile.tsx:120-128 | Sets the field and the validity flag; an invalid address clears the extraction error. |
| CompleteProfile.CompleteProfilePage.StartExtract | components/pages/CompleteProfile.tsx:130-135 | Starts iff the LinkedIn field is filled, clearing the error. |
| CompleteProfile.CompleteProfilePage.FinishExtract | components/pages/CompleteProfile.tsx:136-150 | On success the form follows ExtractUpdate; on any failure the error message shows and the form is kept. Extraction ends either way. |
| CompleteProfile.CompleteProfilePage.SetStudying | components/pages/CompleteProfile.tsx:239 | Sets the "still studying" box. |
| CompleteProfile.CompleteProfilePage.HandleSave | components/pages/CompleteProfile.tsx:156-176 | The saved profile is SavedProfile of the parsed lists and the form, and loading starts. |
| CompleteProfile.CompleteProfilePage.FinishSave | components/pages/CompleteProfile.tsx:177-180 | Loading stops. |
| EditProfile.FilteredCv | components/EditProfileModal.tsx:65-70 | Keeps exactly the extracted fields that are not null, not "" and not an empty array, with their values. |
| EditProfile.CvMerge | components/EditProfileModal.tsx:72 | The merged form takes every kept CV field and keeps every form field the CV left out or left empty. |
| EditProfile.SkillsValueShape | components/EditProfileModal.tsx:49-52 | The skills field becomes an array of trimmed, non-empty items with no comma. |
| EditProfile.EditProfileModal.constructor | components/EditProfileModal.tsx:33-37 | The form is the volunteer, and every flag is off. |
| EditProfile.EditProfileModal.HandleClose | components/EditProfileModal.tsx:39-42 | The dialog starts closing. |
| EditProfile.EditProfileModal.HandleChange | components/EditProfileModal.tsx:44-47 | Sets one field and keeps the rest. |
| EditProfile.EditProfileModal.HandleSkillsChange | components/EditProfileModal.tsx:49-52 | Sets the skills to SkillsValue of the text; every other form field stays, and nothing but the form changes. |
| EditProfile.EditProfileModal.StartCvUpload | components/EditProfileModal.tsx:54-59 | Starts iff a file was chosen, clearing the error. |
| EditProfile.EditProfileModal.FinishCvUpload | components/EditProfileModal.tsx:61-81 | A good answer merges FilteredCv of the answer's own entries into the form (an array answer's elements under the keys "0", "1", ...). A bad one shows the error and keeps the form. Either way parsing stops and the file input clears. |
| EditProfile.CvArrayMerge | components/EditProfileModal.tsx:66-72 | An array answer puts each surviving element into the form under its index key and keeps every form field the answer has no key for. |
| EditProfile.EditProfileModal.HandleSubmit | components/EditProfileModal.tsx:83-85 | Saving starts with the current form captured. |
| EditProfile.EditProfileModal.SaveTimer | components/EditProfileModal.tsx:86-90 | The timer hands over the captured form and closes the dialog. |
| EditProfile.EditDuringSave | components/EditProfileModal.tsx:83-91 | An edit made after pressing Save does not reach what is saved. |
| Gemini.Recommendations | services/geminiService.ts:45-50 | Only an array of numbers is returned as ids; anything else gives []. |
| Gemini.GetRecommendations | services/geminiService.ts:43-55 | A failed call gives []; otherwise Recommendations of the parsed, trimmed answer. |
| Gemini.CvData | services/geminiService.ts:112-122 | Fails iff the call or the parse fails. On success the data is an object or an array, and a non-object parse result becomes {}. |
| Gemini.MapQualification | services/geminiService.ts:126-135 | Empty text maps to nothing. Otherwise the result is the first qualification, in the order bachelor, master, PhD, diploma, high school, whose English or Arabic name occurs in the lower-cased text, or nothing when none occurs. |
| Gemini.MapQualificationIgnoresCase | services/geminiService.ts:128 | Lower-casing the input first changes nothing. |
| Gemini.MapsFirstMentioned | services/geminiService.ts:129-133 | A qualification mentioned with no earlier one mentioned is the result. |
| Gemini.MapsNothing | services/geminiService.ts:134 | Text mentioning none gives nothing. |
| Gemini.MapQualificationValues | services/geminiService.ts:126-135 | Each enum value maps back to itself, except STUDENT, which maps to nothing. |
| Gemini.FencedBlockIsFirstMatch | services/geminiService.ts:179-181 | The fenced block is absent iff no "```json" fence is closed. Otherwise it is the lazy match at the first opening. |
| Gemini.BracedBlock | services/geminiService.ts:183-189 | A braced block, when found, is never empty. |
| Gemini.BracedBlockShape | services/geminiService.ts:184-188 | No braced block iff there is no '{', no '}', or the last '}' does not come after the first '{'. |
| Gemini.BracedBlockBounds | services/geminiService.ts:184-187 | The braced block runs from the first '{' to the last '}'. |
| Gemini.JsonText | services/geminiService.ts:178-194 | A non-empty fenced block wins, otherwise the braced block. The text is never empty. |
| Gemini.QualificationText | services/geminiService.ts:204 | A falsy qualification reads as "", a string as itself. Any other truthy value throws. |
| Gemini.Mapped | services/geminiService.ts:204-209 | The result keeps the parsed fields and sets the qualification to the mapped value or undefined. It fails iff reading the qualification throws. |
| Gemini.StripEmpty | services/geminiService.ts:211-218 | Corrected strip loop: the result has exactly the fields that are not "", [] or undefined, with their values. |
| Gemini.ExtractInfoFromLinkedIn | services/geminiService.ts:137-226 | Corrected pipeline (the Findings row): fails iff fetching, finding or parsing the JSON fails. Otherwise the mapped object stripped by the corrected StripEmpty, which also removes undefined, so no field is empty. |
| Gemini.MergeKeepsFilled | components/pages/CompleteProfile.tsx:143 | Merging a stripped answer into the form never makes a field empty that was filled. |
| Gemini.ExtractedQualification | services/geminiService.ts:204-209 | A qualification in the answer is a mapped enum value. |
| Gemini.StrippedAsWritten | services/geminiService.ts:211-218 | As written, the loop removes only "" and [] fields. |
| Gemini.UndefinedQualificationSurvives | services/geminiService.ts:204-218 | As written, an answer with no qualification keeps an undefined qualification field, which then overwrites the form's value. |
| OpportunityModal.ButtonFor | components/OpportunityModal.tsx:93-105 | The button is disabled iff an action is running or the opportunity is completed. When idle and enabled it reads "cancel" iff registered, "apply" otherwise. |
| OpportunityModal.ButtonMatchesEffect | components/OpportunityModal.tsx:47-65 | For a signed-in volunteer the click does nothing iff the button is disabled. It cancels iff the button says cancel, and applies iff the button says apply. |
| OpportunityModal.SameFind | components/OpportunityModal.tsx:38 | Records with the same ids in the same order are found at the same position. |
| OpportunityModal.CancelledAfterCancel | components/OpportunityModal.tsx:47-55 | After cancelling a registered opportunity its status is CANCELLED and the button offers to apply again. |
| OpportunityModal.RegisteredAfterRegister | components/OpportunityModal.tsx:67-76 | After registering, the status is REGISTERED and the button offers to cancel. |
| OpportunityModal.Modal.constructor | components/OpportunityModal.tsx:30-33 | Starts idle on the details step with no text and no timer. |
| OpportunityModal.Modal.HandleClose | components/OpportunityModal.tsx:42-45 | Marks the dialog closing. |
| OpportunityModal.Modal.EditText | components/OpportunityModal.tsx:217 | Sets the application text. |
| OpportunityModal.Modal.BackToDetails | components/OpportunityModal.tsx:245 | Returns to the details step. |
| OpportunityModal.Modal.PrimaryAction | components/OpportunityModal.tsx:47-65 | Acts as the button says. Without a volunteer it goes to the profile page and closes. A registered opportunity starts the cancel timer. Otherwise it opens the form, and a disabled button does nothing. |
| OpportunityModal.Modal.SubmitApplication | components/OpportunityModal.tsx:67-76 | Starts iff idle with non-blank text, scheduling registration with that text. |
| OpportunityModal.Modal.FireTimer | components/OpportunityModal.tsx:57-75 | The cancel or register timer updates the session as Cancel or Register, shows success and schedules the close. The close timer closes the dialog. |
| MapModal.Visible | components/MapModal.tsx:243-245 | The markers are exactly the opportunities with non-zero coordinates in the chosen category, as the in-order selection of the catalogue. |
| MapModal.FilterBoth | components/MapModal.tsx:243-245 | Filtering by two predicates in turn is filtering by their conjunction. |
| MapModal.CategoryNarrowsAll | components/MapModal.tsx:241-245 | A category shows exactly those "all" markers of that category, in order. |
| MapModal.PanelButton | components/MapModal.tsx:79-89 | The panel's button is the dialog's, except for the label after applying. It is disabled in the same states. |
| MapModal.PanelEffectLikeDialog | components/MapModal.tsx:37-55 | The panel acts like the dialog except on a completed opportunity, where its handler would open the form but its button is disabled. |
| MapModal.StaleTimerLandsOnOtherPanel | components/MapModal.tsx:45-71 | As written, a cancel timer started on one marker marks another marker's panel "cancelled" and locks its button. |
| MapModal.StatusAfterTimer | components/MapModal.tsx:45-71 | Corrected: a timer changes the status only of the panel still showing its own opportunity. |
| MapModal.TimerFixAgrees | components/MapModal.tsx:45-71 | The corrected and as-written behaviour agree whenever the panel still shows the timer's opportunity. |
| MapModal.MapScreen.constructor | components/MapModal.tsx:213-217 | No selection, category "all", nothing pending. |
| MapModal.MapScreen.SelectCategory | components/MapModal.tsx:273 | Sets the category only. |
| MapModal.MapScreen.MarkerClick | components/MapModal.tsx:225-234 | The selected marker toggles the panel's expansion. Another marker becomes the selection, collapsed, and the panel resets. |
| MapModal.MapScreen.MapClick | components/MapModal.tsx:236-239 | Clears the selection and collapses. |
| MapModal.MapScreen.Collapse | components/MapModal.tsx:293 | Collapses the panel. |
| MapModal.MapScreen.HandleClose | components/MapModal.tsx:220-223 | Marks the dialog closing. |
| MapModal.MapScreen.EditText | components/MapModal.tsx:172 | Sets the application text. |
| MapModal.MapScreen.BackToDetails | components/MapModal.tsx:200 | Returns to the details step. |
| MapModal.MapScreen.PrimaryAction | components/MapModal.tsx:37-55 | Acts as PanelEffect says: profile page, cancel timer for the shown opportunity, or the expanded form. |
| MapModal.MapScreen.SubmitApplication | components/MapModal.tsx:57-65 | Starts iff idle with non-blank text, scheduling registration for the shown opportunity. |
| MapModal.MapScreen.FireTimer | components/MapModal.tsx:47-64 | Corrected timer (the Findings row): runs the timer's job on the session for the opportunity it was started for, and sets the status by StatusAfterTimer, which leaves a panel that now shows another opportunity alone. |
| RatingModal.Highlights | components/RatingModal.tsx:54 | Star k is highlighted iff the shown rating (the hover rating when set, else the chosen one) is at least k. |
| RatingModal.HighlightsAreStarRow | components/RatingModal.tsx:44-54 | The highlighted stars are the star row of the shown rating: a prefix of that many stars, clamped to 0..5. |
| RatingModal.Dialog.constructor | components/RatingModal.tsx:11-14 | No rating, no hover, no comment, not submitting. |
| RatingModal.Dialog.ClickStar | components/RatingModal.tsx:49 | Chooses the star. |
| RatingModal.Dialog.HoverStar | components/RatingModal.tsx:47 | Previews the star. |
| RatingModal.Dialog.LeaveStar | components/RatingModal.tsx:48 | Ends the preview. |
| RatingModal.Dialog.EditComment | components/RatingModal.tsx:70 | Sets the comment. |
| RatingModal.Dialog.HandleSubmit | components/RatingModal.tsx:16-24 | With no star chosen nothing happens. Otherwise the rating (1 to 5) and the comment of that moment are sent, and the button becomes disabled. |
| StarRating.IconCount | components/StarRating.tsx:10-12 | One icon per whole step up to totalStars, which defaults to 5. |
| StarRating.Stars | components/StarRating.tsx:12-19 | The loop yields one flag per icon, filled iff its number is at most the rating. |
| StarRating.FilledPrefix | components/StarRating.tsx:13 | The filled icons form a prefix as long as the rating's floor, clamped to the row. |
| StarRating.Filled | components/StarRating.tsx:13 | Counts filled icons, never more than the row. |
| StarRating.FilledCount | components/StarRating.tsx:12-19 | The number filled is the rating's floor clamped to the row. |
| StarRating.DefaultRow | components/StarRating.tsx:10-19 | With the default, a whole rating 0..5 fills exactly that many of five stars. |
| Markdown.FenceSplit | components/MarkdownRenderer.tsx:41-42 | Splitting on fenced blocks never gives an empty list. |
| Markdown.FenceSplitOdd | components/MarkdownRenderer.tsx:41-42 | The split always has an odd number of pieces: text, code, text, and so on. |
| Markdown.FenceSplitParts | components/MarkdownRenderer.tsx:41-42 | No piece but the last contains a fence, so every fenced block is found. |
| Markdown.FenceSplitJoin | components/MarkdownRenderer.tsx:41-42 | Joining the pieces with the fence gives the content back, so nothing is lost. |
| Markdown.ContentLines | components/MarkdownRenderer.tsx:60 | The lines kept are exactly the non-blank ones. |
| Markdown.Classify | components/MarkdownRenderer.tsx:81-95 | A line is a bullet item iff the bullet pattern matches. It is a numbered item iff the bullet pattern fails and the numbered one matches. Otherwise it is a paragraph with its text unchanged. |
| Markdown.BulletFirst | components/MarkdownRenderer.tsx:81-89 | "* t" is the bullet item t. |
| Markdown.NumberedItem | components/MarkdownRenderer.tsx:82-95 | "12. y" is the numbered item y. |
| Markdown.StarWithoutSpace | components/MarkdownRenderer.tsx:81 | "*x" is not a bullet but a paragraph. |
| Markdown.CloseAtFirst | components/MarkdownRenderer.tsx:46-48 | The lazy match closes at the first closing delimiter on the same line. |
| Markdown.ReplaceNoDelimiter | components/MarkdownRenderer.tsx:46-48 | Text without the delimiter is left unchanged. |
| Markdown.RenderPlainText | components/MarkdownRenderer.tsx:44-49 | Text with no '*' and no '`' renders as itself. |
| Markdown.ReplaceRestore | components/MarkdownRenderer.tsx:46-48 | Each replacement can be undone: putting the delimiters back gives the input, for text without '<'. |
| Markdown.EmphasisRoundTrip | components/MarkdownRenderer.tsx:46-48 | The bold, italic and code replacements each lose nothing. |
| Markdown.BoldBeforeItalic | components/MarkdownRenderer.tsx:46-47 | "**a**" becomes strong, not two italics, because bold is replaced first. |
| Markdown.Classified | components/MarkdownRenderer.tsx:80-102 | One classification per line, in order. |
| Markdown.GroupingUnique | components/MarkdownRenderer.tsx:65-104 | Two well-grouped block lists (no two adjacent lists of one kind, no empty list) with the same lines are equal. So the blocks are determined by the lines. |
| Markdown.BlockBuilder.constructor | components/MarkdownRenderer.tsx:61-63 | No elements, no open list. |
| Markdown.BlockBuilder.FlushList | components/MarkdownRenderer.tsx:65-78 | An open non-empty list becomes an element and the list closes. Otherwise nothing changes. The lines shown are kept. |
| Markdown.BlockBuilder.StartList | components/MarkdownRenderer.tsx:85-88 | Flushes and opens an empty list of the kind. |
| Markdown.BlockBuilder.AppendItem | components/MarkdownRenderer.tsx:89 | The item is added to the open list. |
| Markdown.BlockBuilder.PushItem | components/MarkdownRenderer.tsx:84-95 | The lines shown gain exactly that item, and the grouping stays well formed. |
| Markdown.BlockBuilder.AddLine | components/MarkdownRenderer.tsx:80-102 | Each line adds exactly its classification to the lines shown, and the grouping stays well formed. |
| Markdown.BuildBlocks | components/MarkdownRenderer.tsx:60-104 | The blocks show exactly the classified lines, in order, well grouped. |
| Markdown.RenderBlock | components/MarkdownRenderer.tsx:70-71 | Rendering keeps a block's kind and item count. |
| Markdown.RenderKeepsGrouping | components/MarkdownRenderer.tsx:65-104 | Rendering keeps the grouping well formed. |
| Markdown.RenderKeepsLines | components/MarkdownRenderer.tsx:71 | The rendered blocks show the rendered lines. |
| Markdown.RenderTextPart | components/MarkdownRenderer.tsx:59-106 | A text piece becomes well-grouped blocks showing its non-blank lines, classified and rendered inline. |
| Markdown.CodePositions | components/MarkdownRenderer.tsx:53 | A piece is code iff its index is odd. |
| Markdown.RenderPiece | components/MarkdownRenderer.tsx:51-107 | A code piece becomes its trimmed code block; a text piece is rendered as RenderTextPart says. |
| Markdown.RenderMarkdown | components/MarkdownRenderer.tsx:41-107 | One rendered part per piece of the split, with code exactly at the odd positions. |
| Markdown.RenderPieces | components/MarkdownRenderer.tsx:51-107 | The map renders every piece by its position. |
| AiAssistant.ConcatAppend | src/components/pages/AiAssistantPage.tsx:179-192 | The streamed text of two runs of chunks is the two texts one after the other. |
| AiAssistant.ConcatIsJoin | src/components/pages/AiAssistantPage.tsx:179-192 | The streamed text is the chunks joined with nothing between. |
| AiAssistant.AppendChunk | src/components/pages/AiAssistantPage.tsx:183-190 | A chunk extends the last message when it is the model's, and touches nothing else. |
| AiAssistant.WithError | src/components/pages/AiAssistantPage.tsx:196-206 | The error text replaces an empty model message at the end; otherwise it is appended. Earlier messages are kept. |
| AiAssistant.Reply | src/components/pages/AiAssistantPage.tsx:176-206 | A reply adds one or two model messages. |
| AiAssistant.FailureShown | src/components/pages/AiAssistantPage.tsx:196-206 | A failed reply ends with the error message and keeps any text already received. |
| AiAssistant.SuccessShown | src/components/pages/AiAssistantPage.tsx:179-192 | A completed stream shows the chunks joined, as one message. |
| AiAssistant.ErrorAfterText | src/components/pages/AiAssistantPage.tsx:196-206 | The error after a broken stream replaces the placeholder if nothing arrived, and follows the text otherwise. |
| AiAssistant.ChatPage.constructor | src/components/pages/AiAssistantPage.tsx:78-83 | Empty chat, not loading, no session, no error. |
| AiAssistant.ChatPage.InitializeChat | src/components/pages/AiAssistantPage.tsx:104-164 | With no key: the missing-key error and an empty list. If creation throws: the init error as the only message. Otherwise: a session, no error, an empty list. |
| AiAssistant.ChatPage.StreamChunks | src/components/pages/AiAssistantPage.tsx:179-192 | The loop ends with the last message extended by all the chunks' text. |
| AiAssistant.ChatPage.ReceiveReply | src/components/pages/AiAssistantPage.tsx:176-206 | The messages after the reply are the old ones plus Reply of the stream. |
| AiAssistant.ChatPage.HandleSendMessage | src/components/pages/AiAssistantPage.tsx:170-210 | Accepted iff the text is not blank, nothing is loading and a session exists. Then the user's message and the reply are added, the input clears and loading ends; otherwise nothing changes. |
| AiRecommender.Pick | components/AiRecommender.tsx:48-49 | Exactly the catalogue opportunities whose id was recommended, as the in-order selection of the catalogue. |
| AiRecommender.PickIgnoresIdOrder | components/AiRecommender.tsx:48-49 | The order and repetition of the returned ids do not matter. |
| AiRecommender.PickIgnoresUnknown | components/AiRecommender.tsx:48-49 | An id of no catalogue opportunity is ignored. |
| AiRecommender.PickAll | components/AiRecommender.tsx:48-49 | Recommending every id lists the whole catalogue. |
| AiRecommender.Recommender.constructor | components/AiRecommender.tsx:16-19 | Empty input, no error, no results. |
| AiRecommender.Recommender.TypeInput | components/AiRecommender.tsx:79 | Sets the input. |
| AiRecommender.Recommender.SuggestionClick | components/AiRecommender.tsx:29-31 | The suggestion replaces the input. |
| AiRecommender.Recommender.StartRequest | components/AiRecommender.tsx:33-40 | Blank input shows the "describe yourself" error. Otherwise loading starts with no error and no results. |
| AiRecommender.Recommender.FinishRequest | components/AiRecommender.tsx:43-55 | No ids gives the no-match error, ids give Pick, a rejection gives the generic error. Loading ends. |
| AiRecommender.Recommender.HandleGetRecommendations | components/AiRecommender.tsx:33-56 | The whole handler: an error always comes with no results, and the results are Pick of the answer otherwise. |
| TextLists.TrimAll | components/EditProfileModal.tsx:50 | Every part trimmed, in order. |
| TextLists.TrimmedPart | components/pages/CompleteProfile.tsx:158-165 | A trimmed non-empty part without a comma is a list item. |
| TextLists.ParseListItems | components/pages/CompleteProfile.tsx:158-165 | Every parsed element is trimmed, non-empty and comma-free. |
| TextLists.SplitJoined | components/EditProfileModal.tsx:50 | Splitting items joined by a separator they do not contain gives them back. |
| TextLists.JoinSpaced | components/EditProfileModal.tsx:160 | Joining with ", " is joining with "," after prefixing a space to every item but the first. |
| TextLists.TrimItem | components/EditProfileModal.tsx:50 | An item and the item after a space both trim to the item. |
| TextLists.ParseJoined | components/pages/CompleteProfile.tsx:99-100 | Parsing items joined with ", " gives the items back. |
| TextLists.ParseShown | components/pages/CompleteProfile.tsx:139 | The text shown for a list parses back to it. |
| TextLists.ParseShowParse | components/pages/CompleteProfile.tsx:158-165 | Showing a parsed list and parsing again gives the same list. |
| StableSort.Insert | src/components/pages/Opportunities.tsx:160-182 | Inserting adds exactly one element (as a multiset). |
| StableSort.Sort | components/pages/Leaderboard.tsx:27 | The sort returns a permutation of its input. |
| StableSort.SortSorted | components/pages/Leaderboard.tsx:169 | For a strict weak order the result is sorted. |
| StableSort.SortStable | src/components/pages/Profile.tsx:276-281 | Elements that tie keep their input order. |
| StableSort.SortSum | components/pages/Leaderboard.tsx:27 | Sorting keeps the sum of any measure. |
| Js.Split | components/MarkdownRenderer.tsx:60 | Never empty, and no part contains the separator. |
| Js.SplitJoin | components/EditProfileModal.tsx:50 | Joining the parts with the separator gives the text back. |
| Js.ToLower | src/components/pages/Opportunities.tsx:148 | Same length; each ASCII capital becomes its small letter and nothing else changes. |
| Js.ToLowerMatches | contexts/VolunteerContext.tsx:33 | A text lower-cases to t iff each character is t's or its capital. |
| Js.TrimStart | src/components/pages/Opportunities.tsx:148 | Drops exactly the leading white space. |
| Js.TrimEnd | src/components/pages/Opportunities.tsx:148 | Drops exactly the trailing white space. |
| Js.BlankIffAllSpace | src/components/pages/AiAssistantPage.tsx:171 | A text is blank after trimming iff it is all white space. |
| Js.IndexOf | services/geminiService.ts:184 | −1 or a position where the text occurs. |
| Js.IndexOfFirst | services/geminiService.ts:184 | −1 iff absent; otherwise no earlier occurrence. |
| Js.LastIndexOf | services/geminiService.ts:185 | −1 iff the character is absent; otherwise its last position. |
| Js.StrLtTotal | components/pages/Leaderboard.tsx:169 | Name order is total. |
| Js.StrLtTransitive | components/pages/Leaderboard.tsx:169 | Name order is transitive. |
| Js.LocaleCompare | src/components/pages/Opportunities.tsx:162-165 | Negative iff before, positive iff after. |
| Js.Or | components/pages/Leaderboard.tsx:169 | `x || y` on numbers: x unless it is 0. |
| Js.Slice | components/pages/Leaderboard.tsx:181 | Agrees with the sub-sequence when in range, and clips past the end. |
| Js.Filter | src/components/pages/Opportunities.tsx:143-157 | Every kept element satisfies the predicate and the result is no longer than the input; which elements are kept, and in what order, is Js.FilterInOrder. |
| Js.FilterMembers | src/components/pages/Opportunities.tsx:143-157 | An element is kept iff it is in the input and satisfies the predicate; no copies are added. |
| Js.FilterInOrder | src/components/pages/Opportunities.tsx:143-157 | `filter` keeps exactly the passing elements in input order: they sit at strictly increasing positions of the input, which are exactly the positions whose element passes. |
| JsValue.ArrayFields | components/EditProfileModal.tsx:66-67 | `Object.entries` of an array lists exactly its elements, element i under the decimal key of i. |
| JsValue.IndexKeyValue | components/EditProfileModal.tsx:66-67 | The decimal key of an index reads back as that index, so distinct elements get distinct keys. |
| Js.FilterIdempotent | components/pages/Leaderboard.tsx:172-178 | Filtering twice is filtering once. |
| Js.FilterCommute | components/pages/Leaderboard.tsx:172-178 | Two filters commute. |
| Js.Map | src/components/pages/Profile.tsx:195-200 | Element k is f of input element k. |
| Js.FindIndex | components/pages/Leaderboard.tsx:231 | −1 iff no element matches; otherwise the first match. |
| JsValue.Spread | components/EditProfileModal.tsx:72 | Later fields win, and fields only in the first object are kept. |
| JsValue.Property | services/geminiService.ts:204 | Reading a property of undefined or null throws; of an object, gives the field or undefined. |

## Left out

- The Gemini service itself, `file.text()` and `JSON.parse` are inputs: an `Outcome` answer and a `parse` function. The prompts and response schemas are not modelled.
- Timers are explicit steps. The delays (300 ms, 1 s, 1.5 s) are not timed. Timers are assumed to fire while their component is mounted.
- Interleavings of async handlers with other handlers are modelled only where a finding needs them (the map panel's timer). React's batching and the StrictMode double call of updaters are not modelled.
- `Leaderboard` `handleUpdate`, `shuffleArray` and the confetti (components/pages/Leaderboard.tsx:11, 32-48, 425-454) depend on `Math.random` and timers. They are not modelled.
- Numbers are `real` or `int`: floating point, percentages and animated numbers are not modelled. `new Date(...)` on start dates is an integer key (`Profile.HistoryOrder`).
- `localeCompare` is modelled as plain lexicographic order on code points (`Js.StrLt`), not locale collation. `toLowerCase` lower-cases ASCII capitals only.
- Regular expressions become predicates proved equal to the pattern they implement (`Login.EmailPatternIff`, `Login.PhonePatternIff`, `Login.LookaheadIff`, `Gemini.FencedBlockIsFirstMatch`). The JavaScript regex engine is not modelled.
- HTML and JSX output, CSS classes, scrolling, focus and the copy button of code blocks are not modelled. The Markdown renderer is modelled down to the blocks and the inline replacements.
- Spreading a value, or listing its entries, gives an object's own properties, an array's elements and a string's characters under their decimal index keys, and `{}` for anything else (`JsValue.OwnFields`). Joining non-string array elements shows "" for them.
- CompleteProfile.CompleteProfilePage.constructor: a volunteer whose languages or skills text throws (`CompleteProfile.LanguagesText`, `CompleteProfile.SkillsText`) is excluded by its requires. The render error that the page then raises is not modelled as a page state.
- Gemini.Mapped: spreading a parsed string gives one entry per character here, where JavaScript gives one per UTF-16 code unit.
- The `as Volunteer` and `as Partial<Volunteer>` casts are not checked: the model keeps the objects as dynamic values.
- The password show/hide toggle and the pass-through `LoginForm` props are not modelled.
- `maxLength={1500}` on the application text is enforced by the browser and is not modelled.
- The parent's `onClose` call 300 ms after a dialog closes is not modelled.
- In the opportunities page, the view-details and close handlers of the details dialog and the effect that opens an opportunity from the URL are not modelled.
- The profile page's ranking tab keeps its points/hours choice in a component of its own; the choice is the `key` parameter of `Profile.RankingTab`.
- Login.PasswordError: `password.length` counts UTF-16 code units, while the model counts Unicode scalar values, so a password with characters outside the Basic Multilingual Plane (an emoji, say) is shorter here than in the browser.
- In the recommendation box, the details dialog is not modelled.
- The review comment and star rating are passed on but only the reviewed id is stored, as in the code.
- AiRecommender.Recommender.FinishRequest: the `Failure` answer cannot happen, because `getRecommendations` catches every error and returns `[]`. It is kept as the handler's catch branch.
- Gemini.CvData: an array that passes the `typeof === 'object'` check is returned as it is; the dialog then merges its elements under the keys "0", "1", ... (`EditProfile.CvArrayMerge`).
- Chunks whose `text` is undefined are not modelled: every chunk carries a string.

## Findings

| source | as written | input that shows it | evidently intended | confidence | as-written member | corrected member |
|---|---|---|---|---|---|---|
| components/pages/Login.tsx:138-145 | `handleChange` sets the new value and then validates the field against the form data from before the keystroke | phone error shown, data "051234567", typing the tenth digit ("0512345678") leaves the phone error shown | the changed field is validated against its new value | high, not executed | Login.StaleRevalidation | Login.SignupForm.HandleChange |
| services/geminiService.ts:204-218 | `academicQualification: mappedQualification \|\| undefined` is set even when nothing maps, and the strip loop removes only "" and [] | an answer with no qualification returns `{academicQualification: undefined, …}`, and the spread at components/pages/CompleteProfile.tsx:143 wipes the form's BACHELOR | fields that did not map are left out so they do not overwrite the form | high, not executed | Gemini.UndefinedQualificationSurvives | Gemini.StripEmpty |
| components/MapModal.tsx:45-71 | the 1.5-second cancel timer sets the status of whichever panel is shown when it fires | select A (registered), press cancel, click marker B within 1.5 s: B's panel shows "تم الإلغاء" with its button disabled | only the panel of the opportunity the timer was started for changes | medium, not executed | MapModal.StaleTimerLandsOnOtherPanel | MapModal.StatusAfterTimer |
