# up-write, modelled in Dafny

up-write is a writing application. An author keeps projects, which hold notebooks of documents. The application follows the author's writing sessions and statistics, suggests improvements to the text, and sells AI analysis by subscription tier. Friends can follow each other's analytics and feed, like posts and join writing challenges.

This project models the decision logic and the table operations at the application's core:

- the local pattern-based text analyser and its merge with AI suggestions;
- the tier and cost policy for escalating to AI;
- the fallback analyser: passive voice, repetition, overall and readability scores;
- the subscription entitlement checks and tier tables, and the subscription endpoint;
- the formatting and progress helpers;
- profile and password validation;
- the project, notebook and statistics services: creation, cascade delete, aggregation and the session upsert;
- the analytics page and its streak loops;
- the friend analytics endpoint, with its friendship gate, privacy defaults and 365-day streak loop;
- the friends page: its load and its six actions;
- the privacy-settings endpoint;
- the browser-side writing-session tracker.

How the model is built:

- Database tables are sequences of rows in table order, or maps keyed by id, held in classes whose methods change them.
- Clocks, identifiers, hashing results, the AI provider's outcome and database failures are parameters.
- Days are integer day numbers.

Modules, one per source file or shared concern:

| file | module | models |
|---|---|---|
| wrappers.dfy | Wrappers | `Option` and `Result` |
| text.dfy | Text | whitespace classes, `split(/\s+/)`, `trim`, word runs, ASCII lower-casing |
| number_text.dfy | NumberText | integer to decimal text, `parseInt` |
| patterns.dfy | Patterns | the regular-expression pieces the analysers use, with `exec` and a global scan |
| forms.dfy | Forms | form fields and the truthiness test on them |
| ordering.dfy | Ordering | `WHERE`, `SUM`, `LIMIT`, `ORDER BY` over row sequences |
| local_analysis.dfy | LocalAnalysis | `src/lib/utils/localAnalysis.ts` |
| ai_config.dfy | AiConfig | `src/lib/config/aiAnalysis.ts` |
| ai_fallback.dfy | AiFallback | the fallback side of `src/lib/server/ai.ts` |
| utils.dfy | Utils | `src/lib/utils.ts` |
| subscription.dfy | Subscription | `src/lib/server/subscription.ts` |
| subscription_api.dfy | SubscriptionApi | `src/routes/api/subscription/+server.ts` |
| profile.dfy | Profile | `src/routes/profile/+page.server.ts` |
| services.dfy | Services | `src/lib/server/services.ts` |
| analytics_page.dfy | AnalyticsPage | `src/routes/analytics/+page.server.ts` |
| friend_analytics.dfy | FriendAnalytics | `src/routes/api/friends/analytics/+server.ts` |
| friends_page.dfy | FriendsPage | `src/routes/friends/+page.server.ts` |
| privacy_settings.dfy | PrivacySettings | `src/routes/api/privacy/settings/+server.ts` |
| session_tracker.dfy | SessionTracker | `src/lib/writing-session-tracker.ts` |

## Model

| member | source | states |
|---|---|---|
| Text.Lower | src/lib/utils/localAnalysis.ts:197-198 | lower-casing keeps the length and maps each character on its own, and word characters stay word characters |
| Text.WordsEmptyIffBlank | src/lib/utils.ts:28-30 | a text has no whitespace-delimited words exactly when it is all whitespace |
| Text.WordsTrim | src/lib/server/ai.ts:119 | trimming does not change the words of a text |
| Text.TrimSplitLength | src/lib/server/ai.ts:119 | `text.trim().split(/\s+/)` has one piece per word, or one empty piece for a blank text |
| Text.TrimEmptyIffBlank | src/lib/server/ai.ts:11-17 | the trimmed text is empty exactly when the text is all whitespace |
| Text.TokensAreWords | src/lib/utils/localAnalysis.ts:326-327 | the tokens of a text equal its maximal non-whitespace runs |
| Text.Trim | src/lib/utils.ts:29 | the trimmed text is a slice of the text with only whitespace around it, and neither starts nor ends with whitespace |
| Text.Split | src/lib/utils.ts:29 | `split(/\s+/)` gives at least one piece, no piece holds a separator, and there is a single piece exactly when the text holds no separator |
| NumberText.ParseInt | src/routes/profile/+page.server.ts:59-65 | `parseInt` of a decimal text fails exactly when the text does not start with a digit, and otherwise gives a non-negative value |
| NumberText.ParseIntOfNatToString | src/lib/utils.ts:32-39 | parsing a number's decimal text gives the number back |
| NumberText.ParseIntStopsAtNonDigit | src/routes/profile/+page.server.ts:59-65 | parsing reads the leading digits and ignores whatever follows the first non-digit |
| Patterns.ScanOrdered | src/lib/utils/localAnalysis.ts:213-232 | the matches that a global `exec` loop finds do not overlap and come in increasing position |
| Patterns.ExecLeftmost | src/lib/utils/localAnalysis.ts:213 | `exec` returns the leftmost match: no position before it matches |
| Patterns.ScanMatches | src/lib/utils/localAnalysis.ts:213-232 | every match of the scan is a match of the pattern at its start, with its end and captured group |
| Patterns.TrailingCapture | src/lib/utils/localAnalysis.ts:83-89 | a trailing `(\w+)` captures the maximal word run |
| LocalAnalysis.GetStrongerAdjective | src/lib/utils/localAnalysis.ts:196-199 | the stronger form is the table entry for the lower-cased adjective; without an entry, the text of the inherited object property when the lower-cased word is `constructor` or `__proto__`, and otherwise the adjective unchanged |
| LocalAnalysis.ConstructorIsFound | src/lib/utils/localAnalysis.ts:196-199 | "Constructor" lower-cases to a key every object inherits, so the lookup finds `Object` |
| LocalAnalysis.ProtoIsFound | src/lib/utils/localAnalysis.ts:196-199 | "__proto__" finds the object's prototype |
| LocalAnalysis.ToStringIsNotFound | src/lib/utils/localAnalysis.ts:196-199 | "toString" lower-cases to "tostring", which no object inherits, so the adjective comes back unchanged |
| LocalAnalysis.AnalyzeTextLocally | src/lib/utils/localAnalysis.ts:204-240 | the loop over categories, rules and matches produces the specified suggestion list |
| LocalAnalysis.ExecAll | src/lib/utils/localAnalysis.ts:211-232 | the `while (exec)` loop of one rule gives one suggestion per match of the scan |
| LocalAnalysis.LocalSuggestionsSpans | src/lib/utils/localAnalysis.ts:223-231 | each suggestion's text is the input between its start and end, the end is start plus the text's length, and its fields come from one catalogue rule |
| LocalAnalysis.RuleSuggestionsShape | src/lib/utils/localAnalysis.ts:208-230 | each suggestion of a rule carries that rule's category, confidence and reason |
| LocalAnalysis.RuleSuggestionsOrdered | src/lib/utils/localAnalysis.ts:213-232 | the suggestions of one rule do not overlap and come in increasing position |
| LocalAnalysis.LocalSuggestionsGrouped | src/lib/utils/localAnalysis.ts:19-168 | the output is grouped by category in the order grammar, style, redundancy, clarity |
| LocalAnalysis.VerySuggestion | src/lib/utils/localAnalysis.ts:83-89 | a "very X" match suggests the stronger form of X |
| LocalAnalysis.ConvertToInline | src/lib/utils/localAnalysis.ts:265-277 | exactly the suggestions with confidence above 0.6 are kept, in order and unchanged |
| LocalAnalysis.QuietRulesHidden | src/lib/utils/localAnalysis.ts:90-109 | the vague-quantifier and vague-noun rules never reach the inline list |
| LocalAnalysis.ShouldUseAI | src/lib/utils/localAnalysis.ts:245-260 | true exactly when there are at least 30 words, at most five suggestions above 0.8, and either more than 100 words or fewer than three suggestions |
| LocalAnalysis.HybridAnalysis | src/lib/utils/localAnalysis.ts:282-320 | the merge loop computes the specified hybrid result |
| LocalAnalysis.MergeAi | src/lib/utils/localAnalysis.ts:302-313 | the loop over AI suggestions computes the specified merge |
| LocalAnalysis.HybridFallsBack | src/lib/utils/localAnalysis.ts:286-319 | without escalation, or when the AI call fails, the result is the filtered local list |
| LocalAnalysis.MergeKeepsBase | src/lib/utils/localAnalysis.ts:302-313 | the filtered local list is a prefix of the result, and everything after it is an AI suggestion that was given |
| LocalAnalysis.MergeAppendsOnlyFar | src/lib/utils/localAnalysis.ts:305-313 | each appended AI suggestion starts at least 10 away from every entry before it |
| LocalAnalysis.MergeDropsOnlyNear | src/lib/utils/localAnalysis.ts:305-313 | every AI suggestion considered ends up in the merge or within 10 of some entry of it, so nothing is dropped unless it lies near what is shown |
| LocalAnalysis.HasSignificantChange | src/lib/utils/localAnalysis.ts:325-344 | the method computes the specified change test |
| LocalAnalysis.CompareWordLists | src/lib/utils/localAnalysis.ts:330-343 | the counting loop computes the specified word-list comparison |
| LocalAnalysis.UnchangedIsNotSignificant | src/lib/utils/localAnalysis.ts:325-344 | a text compared with itself is never a significant change |
| LocalAnalysis.LargeWordCountChange | src/lib/utils/localAnalysis.ts:330 | word counts that differ by 15 or more are always significant |
| LocalAnalysis.BlankIsNotSignificant | src/lib/utils/localAnalysis.ts:325-344 | two blank texts are not a significant change |
| AiConfig.TierLimits | src/lib/config/aiAnalysis.ts:48-68 | free allows 5 requests and is local only; premium 50 and pro 200, both with AI |
| AiConfig.GetConfigForTier | src/lib/config/aiAnalysis.ts:70-75 | the base configuration overridden by the tier's limits |
| AiConfig.EstimateCostMonotone | src/lib/config/aiAnalysis.ts:80-86 | the cost estimate never decreases with the word count |
| AiConfig.EstimateCost | src/lib/config/aiAnalysis.ts:80-86 | the cost in cents grows linearly with the word count, 26 cents per 100000 words |
| AiConfig.CostAboveOneCent | src/lib/config/aiAnalysis.ts:80-112 | the cost exceeds one cent exactly when 26 times the word count exceeds 100000 |
| AiConfig.ShouldUseAIAnalysisIff | src/lib/config/aiAnalysis.ts:91-114 | AI is used exactly when the tier allows it, usage is under the limit, there are at least 100 words, and the cost is at most one cent or the tier is pro |
| AiConfig.ShouldUseAIAnalysis | src/lib/config/aiAnalysis.ts:91-114 | AI is used only for a paid tier, under the daily limit, and with at least the minimum word count |
| AiConfig.FreeNeverUsesAI | src/lib/config/aiAnalysis.ts:99 | the free tier never uses AI |
| AiConfig.UsageMonotone | src/lib/config/aiAnalysis.ts:102 | if AI is used at some usage, it is used at every smaller usage |
| AiConfig.ShortTextRefuses | src/lib/config/aiAnalysis.ts:105-106 | texts under 100 words never use AI |
| AiConfig.PremiumCostCutoff | src/lib/config/aiAnalysis.ts:109-112 | for premium within limits, AI is used exactly when the cost is at most one cent |
| AiConfig.ProIgnoresCost | src/lib/config/aiAnalysis.ts:109-112 | pro within limits always uses AI, whatever the cost |
| AiFallback.AnalyzeText | src/lib/server/ai.ts:10-83 | blank text gives no suggestions, score 100 and zero words; a parsed provider result is returned as is; any provider failure gives the basic analysis |
| AiFallback.BasicAnalysis | src/lib/server/ai.ts:117-170 | the result is the passive suggestions, then the repetitions, with the floored score, the word count and the readability |
| AiFallback.CollectPassive | src/lib/server/ai.ts:127-139 | the `exec` loop of one passive pattern gives one suggestion per match |
| AiFallback.PassiveSuggestionsShape | src/lib/server/ai.ts:122-139 | every -ed match comes before every -en match, and each is a style, medium-severity suggestion over an auxiliary, whitespace and a word with that ending |
| AiFallback.PassiveForOrdered | src/lib/server/ai.ts:129-138 | the passive matches of one pattern do not overlap and come in increasing position |
| AiFallback.CountFrequencies | src/lib/server/ai.ts:142-149 | the frequency map holds exactly the words longer than four characters other than "constructor" and "__proto__", whose inherited values never become a count, each with its number of occurrences |
| AiFallback.RepetitionSuggestions | src/lib/server/ai.ts:152-162 | exactly the words occurring more than three times get one suggestion each, with no word twice |
| AiFallback.RepetitionSpan | src/lib/server/ai.ts:152-162 | a repetition's text is the lower-case word, its start is the first occurrence in the lower-cased text, and its end is start plus the word's length |
| AiFallback.OverallScore | src/lib/server/ai.ts:166 | the overall score is between 50 and 100 |
| AiFallback.OverallScoreNonIncreasing | src/lib/server/ai.ts:166 | more suggestions never raise the overall score |
| AiFallback.OverallScoreFloor | src/lib/server/ai.ts:166 | the score sits at its floor of 50 exactly from ten suggestions on |
| AiFallback.BandScore | src/lib/server/ai.ts:179-185 | 100 for a sentence length of 15 to 20 words; at least 60 below that band and at least 40 above it |
| AiFallback.ReadabilityOf | src/lib/server/ai.ts:172-186 | readability is between 40 and 100, and 40 when there is no sentence |
| AiFallback.Readability | src/lib/server/ai.ts:172-186 | between 40 and 100; 40 when the text has no sentence, and 100 when it averages 15 to 20 words a sentence |
| AiFallback.PunctuationOnlyScoresForty | src/lib/server/ai.ts:173-184 | "!!!" has no sentence and scores 40 |
| AiFallback.FallbackWordCount | src/lib/server/ai.ts:119 | for non-blank text the reported word count is its number of words |
| Utils.CountWords | src/lib/utils.ts:28-30 | the word count is the number of maximal non-whitespace runs, and 0 exactly for blank text |
| Utils.FormatWordCount | src/lib/utils.ts:32-39 | non-empty text with an M suffix exactly from one million, a K suffix exactly from 1000 below a million, and a final digit exactly below 1000 |
| Utils.FormatWordCountRollsOver | src/lib/utils.ts:35-36 | 999999 prints as "1000.0K" |
| Utils.FormatWordCountPlain | src/lib/utils.ts:38 | below 1000 the count prints as its decimal text, which parses back to it |
| Utils.RoundTenths | src/lib/utils.ts:33-36 | the count in tenths of the unit, rounded to the nearest |
| Utils.CalculateReadingTime | src/lib/utils.ts:41-44 | the reading time is the least whole number of minutes at 250 words a minute |
| Utils.ReadingTimeExamples | src/lib/utils.ts:41-44 | 0 words take 0 minutes, 1 to 250 take 1, and 251 to 500 take 2 |
| Utils.TruncateText | src/lib/utils.ts:57-60 | short text is unchanged; longer text is its first `maxLength` characters then "..." |
| Utils.TruncateTextPrefix | src/lib/utils.ts:57-60 | a truncated text is at most three characters longer than the limit and begins with the original prefix |
| Utils.GetProjectStatusColor | src/lib/utils.ts:62-75 | gray exactly when the status is not "in_progress", "completed" or "published": for "draft" and for every unknown status |
| Utils.GetSuggestionSeverityColor | src/lib/utils.ts:77-88 | gray exactly for an unknown severity |
| Utils.CalculateAge | src/lib/utils.ts:90-107 | no age exactly when the birthday is empty or invalid |
| Utils.AgeCountsAnniversaries | src/lib/utils.ts:99-104 | the age is the number of birthdays reached by today: the age-th anniversary is not after today and the next one is |
| Utils.AgeNonNegative | src/lib/utils.ts:99-104 | a birthday not after today gives a non-negative age |
| Utils.CalculateProgress | src/lib/utils.ts:119-122 | the progress is at most 100, and 0 when the target is not positive |
| Utils.ProgressFull | src/lib/utils.ts:119-122 | the progress is 100 exactly when the target is positive and reached |
| Utils.ProgressColorBand | src/lib/utils.ts:124-130 | the colour is the band of the percentage in steps of 25, capped at green |
| Utils.ProgressColorMonotone | src/lib/utils.ts:124-130 | a higher percentage never gives a lower band |
| Utils.GetProgressColor | src/lib/utils.ts:124-130 | one of the five band colours; green exactly from 100 and slate exactly below 25 |
| Utils.GreenExactlyWhenReached | src/lib/utils.ts:119-130 | the progress colour is green exactly when the target is positive and reached |
| Subscription.CheckAiAccess | src/lib/server/subscription.ts:14-65 | the tier echoes the user's tier, and access is granted exactly when there is no reason |
| Subscription.CheckAiAccessFirstFailure | src/lib/server/subscription.ts:16-58 | the reason is the first failing check, in the order API key, access flag, free tier, status, expiry |
| Subscription.FirstFailure | src/lib/server/subscription.ts:16-58 | there is no failure reason exactly when every check passes |
| Subscription.CheckAiAccessAllPass | src/lib/server/subscription.ts:16-64 | access is granted exactly when every check passes |
| Subscription.FreeTierNeverHasAccess | src/lib/server/subscription.ts:33-40 | a free-tier user never has access |
| Subscription.ExpiredReason | src/lib/server/subscription.ts:42-58 | an inactive status or a past expiry gives the expired reason |
| Subscription.NoExpiryIsTimeless | src/lib/server/subscription.ts:51-58 | with no expiry, the answer does not depend on the time |
| Subscription.GetAccessDeniedMessage | src/lib/server/subscription.ts:66-83 | a missing reason gives the default message |
| Subscription.AccessDeniedMessagesDistinct | src/lib/server/subscription.ts:70-83 | different reasons give different messages |
| Subscription.GetTierDisplayName | src/lib/server/subscription.ts:88-99 | "Unknown" exactly for a tier outside free, premium and pro |
| Subscription.GetTierFeatures | src/lib/server/subscription.ts:104-139 | only premium and pro have AI access; only pro is unlimited (-1); unknown tiers get zero limits and no features |
| Subscription.TierLimitsGrow | src/lib/server/subscription.ts:104-139 | premium allows more projects and documents than free |
| Subscription.TierTablesAgree | src/lib/server/subscription.ts:104-139 | the feature table's AI access agrees with the AI configuration's `useAI` for every tier |
| SubscriptionApi.DeriveUpdate | src/routes/api/subscription/+server.ts:20-33 | the update sets the tier, status active, AI access exactly for paid tiers, and an expiry 30 days on exactly for paid tiers |
| SubscriptionApi.DerivedPaidHasAccess | src/routes/api/subscription/+server.ts:20-33 | a paid update passes every access check until its expiry, and reports expired after it |
| SubscriptionApi.DerivedFreeRefused | src/routes/api/subscription/+server.ts:20-26 | a free update is refused for disabled access |
| SubscriptionApi.UserTable.Patch | src/routes/api/subscription/+server.ts:6-59 | 401 without a session, 400 for an invalid tier, 404 for an unknown user, 500 on failure, otherwise 200 with the derived row stored; no change unless 200 |
| Profile.ValidateProfile | src/routes/profile/+page.server.ts:44-65 | on success the username has 3 to 31 allowed characters, a given email is well shaped, and a given age parses into 1..150 |
| Profile.ValidateProfileOrder | src/routes/profile/+page.server.ts:44-65 | each error implies that the checks before it passed |
| Profile.BadEmailWinsOverAge | src/routes/profile/+page.server.ts:52-65 | a bad email is reported before an age problem |
| Profile.ValidEmailIff | src/routes/profile/+page.server.ts:52-57 | the email test accepts exactly the texts of the shape local part, '@', and a domain with an inner dot |
| Profile.EmailExamples | src/routes/profile/+page.server.ts:52-57 | "a@b.c" and "a@b..c" pass; "a@b", "a@.c", "@b.c" and "a@b@c.d" fail |
| Profile.ValidatePassword | src/routes/profile/+page.server.ts:121-131 | passes exactly when all three fields are given, the new password has 6 to 255 characters and matches its confirmation; errors come in that order |
| Profile.OrNull | src/routes/profile/+page.server.ts:91-100 | an empty field is stored as null, a given one as its text |
| Profile.ProfileStore.UpdateProfile | src/routes/profile/+page.server.ts:32-107 | 401, then validation failures with the form echoed, then 500 on failure, then username and email taken by another user; on success the user's username, email and display name normalised and the update time set, with the hash kept and the validated age not stored, as the user table has no age column; usernames and emails stay unique |
| Profile.ProfileStore.ChangePassword | src/routes/profile/+page.server.ts:110-179 | validation first, then 500 when the store fails, then 404 for an unknown user, then 400 when the current password does not verify; only success stores the new hash |
| Ordering.Keep | src/lib/server/services.ts:73-84 | the rows that satisfy the condition, in table order |
| Ordering.SortBy | src/lib/server/services.ts:24 | the rows sorted by the order, as a permutation of the table |
| Ordering.Limit | src/routes/friends/+page.server.ts:124 | a prefix of at most `n` rows, the whole table when it is shorter |
| Ordering.Top | src/routes/friends/+page.server.ts:123-124 | `ORDER BY … LIMIT n`: min(n, count) rows, sorted, drawn from the table, and no row left out precedes one taken |
| Services.DefaultNotebooksShape | src/lib/server/services.ts:87-105 | five notebooks with the fixed titles and types and sort orders 0 to 4 |
| Services.Database.CreateProject | src/lib/server/services.ts:8-21 | one draft project row and its five default notebooks are added, and nothing else changes |
| Services.Database.CreateDefaultNotebooks | src/lib/server/services.ts:87-105 | the five default notebooks are appended |
| Services.Database.DeleteProject | src/lib/server/services.ts:42-85 | "Project not found" with nothing deleted exactly when the user does not own the project; otherwise every suggestion, document, notebook, character and statistic row of the project is deleted; the project row goes too exactly when no social post refers to it, and otherwise a foreign-key error comes back with the project row kept |
| Services.WithoutSuggestionsOf | src/lib/server/services.ts:63-66 | the suggestions that are not on the given documents |
| Services.WithoutDocumentsOf | src/lib/server/services.ts:68-69 | the documents that are not in the given notebooks |
| Services.WithoutSuggestionsTwice | src/lib/server/services.ts:55-70 | deleting per notebook in turn equals deleting for all the notebooks at once |
| Services.WithoutDocumentsTwice | src/lib/server/services.ts:55-70 | deleting per notebook in turn equals deleting for all the notebooks at once |
| Services.TotalWordsIgnoresContributes | src/lib/server/services.ts:220-236 | the word total does not depend on the notebooks' `contributesToWordCount` flags |
| Services.RoundDiv | src/lib/server/services.ts:256 | `Math.round(n / d)`: the nearest integer, halves rounding up |
| Services.WeeklyAtMostAll | src/lib/server/services.ts:243-251 | the week's words are between zero and the all-time words |
| Services.Database.GetUserWritingStatistics | src/lib/server/services.ts:211-268 | the counts and sums of the user's rows, or all zeros when the store fails |
| Services.FindStat | src/lib/server/services.ts:274-282 | the first row for the user, project and day, or none when there is none |
| Services.Database.RecordWritingSession | src/lib/server/services.ts:270-307 | a foreign-key error with nothing changed exactly when the day has no row and the project does not exist; otherwise the statistics table becomes the upsert of the session, and the row returned is in it for that user, project and day |
| Services.UpsertAccumulates | src/lib/server/services.ts:284-307 | the day's words and time grow by the session's amounts, and its session count by one |
| Services.UpsertUpdatesRow | src/lib/server/services.ts:284-293 | updating the existing row adds the session to the day and leaves the other rows alone |
| Services.UpsertInsertsRow | src/lib/server/services.ts:294-306 | inserting a row with the session and a count of 1 adds the session to the day and leaves the other rows alone |
| Services.UpsertKeepsOtherRows | src/lib/server/services.ts:270-307 | rows of other users, projects or days are unchanged |
| Services.Upsert | src/lib/server/services.ts:284-307 | the table afterwards has a row for that user, project and day, and it grows by one row exactly when it had none |
| Services.Statistics | src/lib/server/services.ts:211-258 | the project count is at most the number of projects, and a user without statistic rows has no time and no weekly words |
| Services.GetUserProjects | src/lib/server/services.ts:23-25 | the user's projects, newest update first, and no others |
| Services.GetProjectNotebooks | src/lib/server/services.ts:118-122 | the project's notebooks by sort order |
| Services.GetNotebookDocuments | src/lib/server/services.ts:152-156 | the notebook's documents by sort order |
| Services.GetProjectCharacters | src/lib/server/services.ts:186-190 | the project's characters by name |
| AnalyticsPage.StatusCountsAtMostTotal | src/routes/analytics/+page.server.ts:27-28 | completed plus in-progress projects are at most all projects |
| AnalyticsPage.AverageWords | src/routes/analytics/+page.server.ts:29-31 | the average is 0 without projects, and otherwise the integer nearest the mean word count |
| AnalyticsPage.MissingCountsAsZero | src/routes/analytics/+page.server.ts:30 | a project without a word count counts as 0 words |
| AnalyticsPage.SortByDateDescending | src/routes/analytics/+page.server.ts:37 | the in-place sort leaves the array newest first, as a permutation of what it held |
| AnalyticsPage.InsertDescending | src/routes/analytics/+page.server.ts:37 | one insertion step extends the newest-first prefix by one element, keeping the array a permutation |
| AnalyticsPage.StreakFrom | src/routes/analytics/+page.server.ts:41-55 | the count of consecutive active days back from a day, stopping at the first inactive day or at the budget |
| AnalyticsPage.CurrentStreakMeaning | src/routes/analytics/+page.server.ts:40-55 | the current streak is at most the number of entries; the days it counts, from today or from yesterday when today is missing, are all active, and the day before the streak is not |
| AnalyticsPage.CurrentStreak | src/routes/analytics/+page.server.ts:40-55 | the loop computes the specified current streak |
| AnalyticsPage.LongestStreak | src/routes/analytics/+page.server.ts:58-65 | the longest run of adjacent active entries in the sorted array, at most its length |
| AnalyticsPage.Load | src/routes/analytics/+page.server.ts:6-101 | redirect without a user; zeroed analytics when a service call fails; otherwise the activity sorted newest first and the counts, average and streaks computed from it |
| FriendAnalytics.AreFriendsSymmetric | src/routes/api/friends/analytics/+server.ts:25-41 | the gate does not care which side sent the request |
| FriendAnalytics.PendingRowsDoNotCount | src/routes/api/friends/analytics/+server.ts:25-41 | without an accepted row, the gate refuses |
| FriendAnalytics.AreFriends | src/routes/api/friends/analytics/+server.ts:24-41 | the gate passes exactly when its query for an accepted row between the two users, in either direction, finds a row |
| FriendAnalytics.PrivacyOf | src/routes/api/friends/analytics/+server.ts:44-54 | with no privacy row, stats and achievements are shared and projects are not; otherwise the friend's row |
| FriendAnalytics.DailyStats | src/routes/api/friends/analytics/+server.ts:68-84 | rows of the friend only: min(30, their count) of the friend's daily rows, newest first, none of the rows left out newer than one returned |
| FriendAnalytics.Overall | src/routes/api/friends/analytics/+server.ts:87-95 | the days active are the friend's rows, and the sums are null exactly when there are none |
| FriendAnalytics.Window | src/routes/api/friends/analytics/+server.ts:110-132 | day i of the window is active exactly when today minus i has a row with words |
| FriendAnalytics.StreakLoop | src/routes/api/friends/analytics/+server.ts:106-136 | the current streak is 1 or 0 as today is active, and the longest streak is the longest run of active days in the 365-day window, including one that reaches its end |
| FriendAnalytics.StreakBounds | src/routes/api/friends/analytics/+server.ts:84-136 | the current streak is at most the longest, which is at most 30 |
| FriendAnalytics.FriendProjects | src/routes/api/friends/analytics/+server.ts:144-160 | the friend's projects, newest first |
| FriendAnalytics.Get | src/routes/api/friends/analytics/+server.ts:8-167 | 401, 400 for a missing friend id, 500 when not friends or on failure; otherwise stats, overall and streaks exactly when stats are shared, projects exactly when projects are shared |
| FriendsPage.FriendsOf | src/routes/friends/+page.server.ts:27-48 | the friends listed are exactly the users on the other side of an accepted friendship |
| FriendsPage.FriendIdsMembers | src/routes/friends/+page.server.ts:90-91 | the feed's author ids are exactly one's own and one's friends' |
| FriendsPage.SentAndReceivedDisjoint | src/routes/friends/+page.server.ts:51-87 | no request is listed both as sent and as received |
| FriendsPage.SentRequests | src/routes/friends/+page.server.ts:51-67 | exactly the pending rows from the user that the user asked for |
| FriendsPage.ReceivedRequests | src/routes/friends/+page.server.ts:69-87 | exactly the pending rows addressed to the user that someone else asked for |
| FriendsPage.FeedRows | src/routes/friends/+page.server.ts:96-124 | the min(50, count) newest posts among those public or for friends by oneself or a friend, newest first, and no post left out newer than one returned |
| FriendsPage.AchievementRows | src/routes/friends/+page.server.ts:150-167 | the min(20, count) most recent achievements of oneself or a friend, most recent first, and none left out more recent than one returned |
| FriendsPage.ChallengeRows | src/routes/friends/+page.server.ts:171-198 | the min(20, count) newest challenges that are public or created by oneself or a friend, newest first, and none left out newer than one returned |
| FriendsPage.SocialTables.Load | src/routes/friends/+page.server.ts:19-227 | redirect without a user; otherwise the friends, the requests, a feed that is exactly the feed rows in order with `isLikedByUser` true exactly for posts the user likes, the achievements, and the challenge rows in order with `isParticipating` true exactly for challenges the user joined |
| FriendsPage.LikedViews | src/routes/friends/+page.server.ts:125-142 | one view per feed row in order, each marked liked exactly when the user has a like row for that post |
| FriendsPage.SocialTables.MarkParticipation | src/routes/friends/+page.server.ts:213-216 | the `forEach` marks each challenge with whether the user takes part |
| FriendsPage.RequestCheck | src/routes/friends/+page.server.ts:238-290 | a request passes only for an existing user other than oneself, and names that user |
| FriendsPage.RequestCheckPasses | src/routes/friends/+page.server.ts:238-290 | a request passes exactly when a username is given, it names another user, no accepted or pending row is the first between the two, and that user allows requests |
| FriendsPage.OtherStatusDoesNotBlock | src/routes/friends/+page.server.ts:272-279 | a row with another status, such as blocked, does not stop a new request |
| FriendsPage.FriendsCannotAskAgain | src/routes/friends/+page.server.ts:261-275 | an accepted friendship refuses with "You are already friends with this user" |
| FriendsPage.SocialTables.SendFriendRequest | src/routes/friends/+page.server.ts:230-302 | redirect without a user; the check's error with no change; otherwise one pending row sent by the user is added |
| FriendsPage.AcceptRowsMeaning | src/routes/friends/+page.server.ts:317-329 | only pending rows with that id addressed to the user change, and only to accepted; accepting again changes nothing |
| FriendsPage.AcceptRows | src/routes/friends/+page.server.ts:317-329 | accepting keeps the number of rows |
| FriendsPage.DeclineRows | src/routes/friends/+page.server.ts:347-355 | a row survives declining exactly when it is not the pending row with that id addressed to the user |
| FriendsPage.RemoveRows | src/routes/friends/+page.server.ts:373-384 | a row survives removing exactly when it is not the accepted row with that id on the user's side |
| FriendsPage.AcceptMakesFriends | src/routes/friends/+page.server.ts:317-329 | after accepting, the two users are friends |
| FriendsPage.SocialTables.AcceptFriendRequest | src/routes/friends/+page.server.ts:304-332 | a missing id fails with no change; otherwise the update, reported as success even when nothing matched |
| FriendsPage.DeclineAndRemoveApart | src/routes/friends/+page.server.ts:347-384 | declining never deletes an accepted friendship and removing never deletes a pending one; on a table of accepted rows declining changes nothing |
| FriendsPage.SocialTables.DeclineFriendRequest | src/routes/friends/+page.server.ts:334-358 | a missing id fails with no change; otherwise the pending row is deleted |
| FriendsPage.SocialTables.RemoveFriend | src/routes/friends/+page.server.ts:360-387 | a missing id fails with no change; otherwise the accepted row is deleted |
| FriendsPage.BumpLikesAdds | src/routes/friends/+page.server.ts:424-441 | two counter changes add up, and a change of zero changes nothing |
| FriendsPage.BumpLikes | src/routes/friends/+page.server.ts:424-441 | the post with that id has its like count moved by the change; every other field and every other post is unchanged |
| FriendsPage.ToggleFlips | src/routes/friends/+page.server.ts:401-442 | the toggle flips whether the user likes the post, and the post's count moves by one the matching way |
| FriendsPage.LikeThenUnlikeRestores | src/routes/friends/+page.server.ts:413-442 | liking and then unliking restores both tables exactly |
| FriendsPage.UnlikeThenLikeRestoresCount | src/routes/friends/+page.server.ts:413-442 | unliking and then liking leaves the post liked with its count as it was |
| FriendsPage.SocialTables.LikePost | src/routes/friends/+page.server.ts:389-445 | a missing id fails with no change; a like of a missing post is a database error with no change; otherwise the toggle |
| FriendsPage.ToggleLike | src/routes/friends/+page.server.ts:402-442 | no result exactly when the user has no like and the post does not exist; unliking removes exactly the user's likes of that post and keeps every other like row; liking appends exactly the new like row; the post table keeps its size |
| FriendsPage.FirstBetween | src/routes/friends/+page.server.ts:260-270 | a friendship between the two users in either direction, or none exactly when there is no such row |
| FriendsPage.FindUser | src/routes/friends/+page.server.ts:242-251 | a user with that username, or none exactly when no user has it |
| FriendsPage.BumpParticipantsMeaning | src/routes/friends/+page.server.ts:483-486 | joining adds one participant to that challenge and to no other, and changes nothing else |
| FriendsPage.BumpParticipants | src/routes/friends/+page.server.ts:483-486 | the table keeps its size and every row its id |
| FriendsPage.SocialTables.JoinChallenge | src/routes/friends/+page.server.ts:447-489 | a missing id fails; already participating fails; a missing challenge is a database error; otherwise one participation row and one more participant; no change unless it succeeds |
| FriendsPage.JoinedParticipates | src/routes/friends/+page.server.ts:459-480 | after joining, the user participates, so a second join is refused |
| PrivacySettings.FilterSettings | src/routes/api/privacy/settings/+server.ts:25-40 | exactly the valid keys whose value is a boolean, with that value |
| PrivacySettings.DefaultSettings | src/routes/api/privacy/settings/+server.ts:100-110 | all seven valid keys, each on |
| PrivacySettings.FirstRowOf | src/routes/api/privacy/settings/+server.ts:43-47 | the first row of the user, or none when the user has no row |
| PrivacySettings.PrivacyTable.Post | src/routes/api/privacy/settings/+server.ts:9-78 | 401 before any table access, 500 on failure; otherwise the user's row updated with the filtered flags and the time, or one new row inserted, and that row returned; the table keeps one row per user |
| PrivacySettings.PrivacyTable.Get | src/routes/api/privacy/settings/+server.ts:80-117 | 401, 500 on failure, the defaults when the user has no row, otherwise the user's row |
| PrivacySettings.PostKeepsOneRowPerUser | src/routes/api/privacy/settings/+server.ts:43-71 | a POST keeps at most one row per user |
| PrivacySettings.UpdateTouchesOnlyTheRowFound | src/routes/api/privacy/settings/+server.ts:51-60 | with one row per user, the update changes only the row found, and a later lookup finds it again |
| PrivacySettings.UpdateRows | src/routes/api/privacy/settings/+server.ts:51-60 | the update keeps every row in place, with its id and its user |
| SessionTracker.Minutes | src/lib/writing-session-tracker.ts:82 | the elapsed time in whole minutes, to the nearest |
| SessionTracker.MinimumSessionRoundsToAMinute | src/lib/writing-session-tracker.ts:68-85 | an elapsed time rounds to at least one minute exactly when it is at least 30 seconds |
| SessionTracker.WordsToReport | src/lib/writing-session-tracker.ts:83 | the words sent are never negative and are the last count when that is not negative |
| SessionTracker.WritingSessionTracker.PendingReport | src/lib/writing-session-tracker.ts:79-85 | a save sends one report exactly when the tracker is active and 30 seconds have passed, with non-negative words and at least one minute |
| SessionTracker.WritingSessionTracker.Start | src/lib/writing-session-tracker.ts:25-38 | nothing while active; otherwise active from now at the given count, with autosave set |
| SessionTracker.WritingSessionTracker.UpdateActivity | src/lib/writing-session-tracker.ts:43-57 | nothing while inactive; otherwise only the word count and the inactivity timer change |
| SessionTracker.WritingSessionTracker.SaveSession | src/lib/writing-session-tracker.ts:79-108 | appends the pending report, if any, and changes nothing else |
| SessionTracker.WritingSessionTracker.End | src/lib/writing-session-tracker.ts:62-74 | nothing while inactive; otherwise the pending report is sent and the tracker stops with both timers cleared |
| SessionTracker.WritingSessionTracker.Cleanup | src/lib/writing-session-tracker.ts:113-125 | inactive with both timers cleared |
| SessionTracker.WritingSessionTracker.Duration | src/lib/writing-session-tracker.ts:137-140 | 0 when inactive, otherwise the rounded elapsed minutes |
| SessionTracker.WritingSessionTracker.Destroy | src/lib/writing-session-tracker.ts:145-150 | the pending report is sent if active, and the tracker always ends stopped |
| SessionTracker.Ticks | src/lib/writing-session-tracker.ts:33-35 | the number of whole autosave intervals that fit strictly before the end, none within the first minute |
| SessionTracker.AutosaveReports | src/lib/writing-session-tracker.ts:79-85 | one report per tick, the k-th with k minutes and the last count |
| SessionTracker.Session | src/lib/writing-session-tracker.ts:25-85 | the autosave interval reports once a minute before the end, tick k with k minutes and the last count; the end adds one report with the rounded minutes when the session lasted 30 seconds; a session ended within its first minute reports at most once; the count it started at never matters |

## Left out

- AnalyticsPage.SortByDateDescending: `Array.prototype.sort` is stable, so entries with equal dates keep their relative order in the source; the contract states the newest-first order and the permutation, not stability.
- SessionTracker.Session: an autosave tick at the very moment the session ends is not counted; in the source it runs before or after `end` depending on the timers' order. The inactivity timer is stood for by the time `t1` at which the session ends.
- The OpenAI request, its prompt and its parsing in `src/lib/server/ai.ts`: the provider's outcome is a parameter (parsed result or failure), and `suggestImprovement` is not modelled.
- Database plumbing (drizzle, connections, transactions): tables are in-memory sequences, and a database failure is a boolean parameter.
- Sessions, cookies and password hashing: the signed-in user is an `Option`, and the result of verifying a password and the new hash are parameters.
- Timers, `fetch` and `debounce`: the tracker's timers are flags, its clock is the `now` argument and its requests are a log. The asynchronous order of a save that `destroy` starts without waiting is not modelled.
- Date formatting, time zones and ISO date strings: days are integers, and the date-string comparisons are day comparisons.
- `toFixed` and floating point: word-count formatting uses exact tenths, and cost and scores are exact reals.
- Text.Lower: only ASCII letters are lower-cased, with no Unicode case mapping.
- Text lengths are counted in code points rather than UTF-16 units.
- String ordering in `ORDER BY` is by code point, with no database collation.
- Ties in `ORDER BY` may come out in any order.
- FriendsPage.FirstBetween: `LIMIT 1` without `ORDER BY` may return any matching row; the model takes the first in table order.
- LocalAnalysis.GetStrongerAdjective: for "constructor" and "__proto__" the source's suggestion is the inherited function or object itself; the model stands for it by the text that it converts to in the suggestion string.
- AiFallback.RepetitionSuggestions: the order in which repeated words come out follows the model's map iteration, not JavaScript's insertion order; the set of suggestions is exact.
- NumberText.ParseInt, Profile.ValidateProfile: `parseInt` is modelled on decimal digits only, without a sign, leading spaces or radix prefixes, so " 30", "+5" and "0x1f" are refused where the source parses them.
- Joins and foreign keys: a join with the user table is assumed to find the user's row. A foreign-key failure is modelled where an action can cause one: liking a missing post, joining a missing challenge, deleting a project that a social post refers to, and recording a session for a project that does not exist. The set of projects that posts refer to is a field of the database that only the social feature, which is not part of this model, would change.
- The analytics page calls two service functions, `getUserProjectsWithWordCounts` and `getUserActivityData`, that `src/lib/server/services.ts` does not define. Their results are inputs that may be missing, and a missing one gives the error page that ships.
- The page's sample activity data is an input.
- FriendAnalytics.DailyStats: the 30-day cut-off computed at lines 63-65 is never applied, and so it is not modelled.
- Sums come back from the database as text; the model treats them as integers.
- The joined user columns (username, display name, image) of the friends page's requests, feed, achievements and challenges are not carried.
- The `updatedAt` and `createdAt` timestamps outside the statistics and privacy rows are not modelled.
- PrivacySettings.PrivacyTable.Post: six of the seven valid keys name no column of the privacy table, and the database does not store them. The model records every filtered key on the row, as the handler asks, and does not apply the column defaults on insert.
- The thin route handlers that only forward to the services (project, notebook, document, character, writing-session and challenge endpoints) are not part of this model.
