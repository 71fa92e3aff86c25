# Khaabo backend: a verified model

Khaabo turns restaurant reviews into dish-level evidence and evidence into stored rankings, while it
fetches under external quotas. This project models five connected parts of that backend and proves
what they keep.

- **The evidence tables and their materialised view** (`Evidence`, `RankingView`, `RankingRuns`,
  `RankingDrain`, `RankingGaps`, `RankingStore`, `EvidenceLaws`). AI processing replaces a review's mentions and
  reports dirty pairs; only those are rescored. The invariant says that every pair agrees with a
  computation from scratch or is covered by pending work. `RankingStore` is the same in imperative
  form: a class whose methods are the transactions, with the loops of the original.
- **Scoring, badges and trends** (`Scoring`, `ScoreBounds`, `ScoreLaws`, `ScoreDirection`, `ScoreMeaning`, `Badges`,
  `Trends`), over real numbers. Decay, `log1p` and the square root are functions of which only order and bounds are assumed.
- **Resolution, ingestion and the fetch cursor** (`Resolver`, `Ingestion`, `ReviewIngestion`, `UpsertLaws`, `Cursor`).
- **Shared counters and worker protocols** (`Quota`, `SweepLedger`, `YouTubeLedger`, `RateLimit`,
  `Lifecycle`, and the search grid in `GridCover`), as interleaved atomic steps or as runs whose
  outside answers are arbitrary.
- **Deterministic extraction and duplicates** (`ClauseSentiment`, `ClauseLaws`, `Extraction`, `Grounding`,
  `MentionRows`, `UnsafeIndex`, `HeuristicStore`, `Simhash`, `Dedup`, `SignatureLaws`, `DuplicateRuns`).

`Reals`, `Stats`, `Sorting`, `Strings` and `Wrappers` hold what the others share. The modules named for laws, direction
or meaning fix what single functions of the model are, in terms of their inputs alone.

Normalisation, alias matching, similarity, distances and hashes enter as function-valued fields of an
environment, so every lemma holds for any of them, or for any that meets the `Valid` predicate named in its
`requires`. Clocks, replies of the quota counter and of the APIs, and the order of query results
are arbitrary values.

## What the code does not keep

Several promised properties turned out to hold only under a condition. The code is modelled as it is.
For these the condition is proved exact, as an equivalence:

- Reporting a review into hiding and remapping a mention queue no recompute (`RankingGaps.ReportSafeIff`,
  `RankingGaps.RemapSafeIff`). A remap can be unsafe even for a rejected review whose recompute is queued, because
  the queued task reads the review's pairs when it runs (`RankingGaps.RejectThenRemapBreaks`).
- Two aliases that lead different normal forms, stand for different dishes and are looked up as one make a
  review that mentions both impossible to persist; two aliases with one normal form do not
  (`UnsafeIndex.AlwaysInsertsIff`).
- A neighbour with a similar name can be matched in place of the restaurant that bears the name
  (`Resolver.ExactNameWinsIff`).
- A replayed batch records its conflicts again (`Ingestion.ReplayIsNoOpIff`), and so does a review whose hint was
  refused (`ReviewIngestion.StoringAgain`).
- The single-review run can process a review that a batch holds (`Lifecycle.TaskSafeIff`), and its retries pass the
  attempt limit (`Lifecycle.RetriesBreakTheBoundIff`).
- A killed fifth attempt leaves a review pending for good once it is reset (`Lifecycle.StrandedIff`).
- A fetch that finishes late and the comments job of YouTube move the cursor past what was fetched
  (`Cursor.LateFinishIff`, `Cursor.CommentsMoveTheCursorIff`), and a retry inside a claimed bucket does nothing
  (`Cursor.RetryIff`).
- A review is flagged as a duplicate whenever it is processed beside a near-identical one, so of two copies
  stored before either is processed, each once processed with the other in its window, neither counts
  (`DuplicateRuns.FlaggedIff`, `DuplicateRuns.NeitherCopyCounts`).
- The mirror law of trends needs a positive threshold, or means that clear one bar only (`Trends.Duality`).

For these it is stated one way, and shown to be reached or to hold always:

- Refunds and take-backs that land after a window turns raise the next window's ceiling by their amount
  (`Quota.QuotaSafety`, `Quota.StraddlingRefundsOvershoot`).
- No conflict records the best candidate (`Ingestion.ConflictForgetsBest`).
- A hint without coordinates can never place a review (`ReviewIngestion.HintNeedsCoordinates`).
- Contracted negators such as "isn't" never negate (`ClauseSentiment.ContractionsNeverNegate`).

Where the documentation and the code differ, the model follows the code. `docs/ranking.md` lines 113-114 damp
the reviews of new accounts to 0.6, but `_load_observations` never sets `verified_author`, so the scorer never
damps them. Lines 137-138 of the same file gate on the total weight, where the code gates on the weight before decay.

## Model

| member | source | states |
|---|---|---|
| `RankingRuns.IncrementalAgreement` | backend/app/services/ranking_service.py:147-201 | in every state reached by submitting, processing, moderating, deleting, merging, recomputing and sweeping in any order, each pair's stored columns and counts equal those computed from scratch from its counted mentions, or queued work or the missing-row query covers it; likewise each dish aggregate |
| `RankingRuns.StepKeeps` | backend/app/services/ranking_service.py:147-201 | every operation keeps that invariant |
| `RankingRuns.ProcessKeeps` | backend/app/services/ai_processing.py:180-230 | replacing a review's mentions keeps it, because the pairs that vanish are reported along with the new ones |
| `RankingRuns.ModerateKeeps` | backend/app/services/review_service.py:259-328 | a moderation decision or a soft delete keeps it, because the review's pairs are queued |
| `RankingRuns.MergeKeeps` | backend/app/api/v1/admin.py:113-126 | merging restaurants keeps it though it queues nothing: every pair that gained evidence lost its score row, and only rows without mentions are dropped unseen |
| `RankingRuns.MergeUnitesEvidence` | backend/app/api/v1/admin.py:113-116 | a merge neither loses nor invents evidence: the target ends with its own and the duplicate's observations, the duplicate with none |
| `RankingRuns.ProcessReplacesExactly` | backend/app/services/ai_processing.py:177-213 | a processed review ends with exactly the rows of its analysis, and no other review's mentions change |
| `RankingView.RecomputeKeeps` | backend/app/services/ranking_service.py:147-201 | a recompute keeps it for whatever pairs it was queued with, leaving every other pair covered as before |
| `RankingView.SweepKeeps` | backend/app/workers/ranking_tasks.py:56-68 | the sweep keeps it for any stale and any missing pairs the query returns |
| `RankingRuns.DrainedIsFromScratch` | backend/app/services/ranking_service.py:538-560 | with nothing queued and no missing row, all score rows, counts and dish aggregates are those of a computation from scratch |
| `RankingDrain.DrainingEnds` | backend/app/workers/ranking_tasks.py:19-68 | every order of running the queued tasks ends within the backlog, changes no evidence, and leaves the from-scratch tables |
| `RankingDrain.FullSweepRepairs` | backend/app/workers/ranking_tasks.py:56-68 | a sweep over all rows and all missing pairs makes every row agree with the evidence, whatever state it starts from |
| `Evidence.ScratchIsCanonical` | backend/app/services/ranking_service.py:66-99 | the pair's own columns do not depend on the order the rows are read in, on the clock, on the city prior or on the median price |
| `RankingView.AggregateRemove` | backend/app/services/ranking_service.py:304-307 | the dish sums can be taken in any order |
| `Evidence.EvidenceIff` | backend/app/services/ranking_service.py:66-99 | a mention is evidence of a pair exactly if it names the pair and its review is published and no duplicate; its observation carries the sentiment, confidence, attributes and price of the mention (a zero price is none) and the source, engagement and date of the review |
| `EvidenceLaws.ExcludedIsDeleted` | backend/app/services/ranking_service.py:79-84 | recomputing any pairs with a review flagged a duplicate, or not published, gives the same rows, counts and aggregates as recomputing with its mentions deleted |
| `EvidenceLaws.DecisionCounts` | backend/app/services/review_service.py:259-328 | publishing makes every mention of a review that is no duplicate evidence, rejecting and flagging none, and dismissing changes nothing |
| `EvidenceLaws.ProcessedCounts` | backend/app/services/ai_processing.py:136-230 | the mentions of a processed review count exactly if it was published and no duplicate, is not found to be one, and is not spam of a user |
| `EvidenceLaws.MergeMoves` | backend/app/api/v1/admin.py:113-126 | a merge moves every review and mention of the duplicate to the target, drops the rows named, and changes nothing else |
| `EvidenceLaws.CountsAreSizes` | backend/app/services/ranking_service.py:280-283 | the stored counts are the numbers of mentions with sentiment above 0.15, below -0.15, and between |
| `EvidenceLaws.ScoreRowCounts` | backend/app/services/ranking.py:211-365 | a score row tells how many mentions it is made of and what part of them praises |
| `EvidenceLaws.DishCountsMentions` | backend/app/services/ranking_service.py:538-560 | in the from-scratch tables, which are those with nothing pending, a dish counts exactly its mentions in published reviews that are no duplicates, over all restaurants, and its ranked rows: nothing is lost or counted twice on the way up |
| `RankingGaps.ReportSafeIff` | backend/app/services/review_service.py:197-221 | a report, which queues nothing, keeps the invariant exactly when it hides no counted review or all the review's pairs were already covered |
| `RankingGaps.ReportCounts` | backend/app/services/review_service.py:197-221 | a report leaves a mention in the evidence exactly if it is not the third or later |
| `RankingGaps.ThirdReportBreaks` | backend/app/services/review_service.py:206-211 | a run from the empty tables, one review submitted, processed and scored, after which two reports keep the invariant and the third leaves a stale row that nothing covers |
| `RankingGaps.RemapSafeIff` | backend/app/api/v1/admin.py:160-197 | in every state of the invariant, whatever is queued or stale: a remap, which queues nothing, keeps it exactly if for each of the two pairs the stored rows already are those of the evidence it will have, or work queued now still covers it afterwards, and likewise for the two dishes |
| `RankingGaps.RemapDrainedIff` | backend/app/api/v1/admin.py:160-197 | with nothing queued, a remap is safe exactly for a review that does not count |
| `RankingGaps.RemapUncountedIff` | backend/app/api/v1/admin.py:160-197 | for a review that does not count, a remap is safe exactly if each of the two pairs has right rows or stays covered, and each of the two dishes adds up or has a covered pair |
| `RankingGaps.RemapAgreedIff` | backend/app/api/v1/admin.py:160-197 | where the rows of both pairs and dishes are right, a remap is safe exactly if the review does not count or both pairs stay covered |
| `RankingGaps.RejectThenRemapBreaks` | backend/app/api/v1/admin.py:160-197 | in every drained state: rejecting a counted review and then remapping one of its mentions leaves a stale row, since the remap takes the queued recompute along to the new pair |
| `RankingStore.Store.LoadObservations` | backend/app/services/ranking_service.py:62-99 | reads exactly the mentions of the dish at the restaurant whose review is published and not flagged a duplicate, each once, in some order |
| `RankingStore.Store.RecomputePairs` | backend/app/services/ranking_service.py:147-201 | the loops over pairs and touched dishes produce the specified tables, for any clock, prior and median met on the way |
| `RankingStore.SumRows` | backend/app/services/ranking_service.py:304-307 | the loop over a dish's rows computes both counters |
| `RankingStore.ReplaceMentions` | backend/app/services/ai_processing.py:180-213 | the delete-and-insert loop succeeds exactly when no dish is named twice, and then gives the replaced mentions and the reported pairs |
| `RankingStore.Store.ProcessReview` | backend/app/services/ai_processing.py:166-259 | a review is replaced and its pairs added to the batch, or on a repeated dish nothing changes; the invariant is kept |
| `RankingStore.Store.FinishBatch` | backend/app/workers/ai_tasks.py:46-47 | the batch's dirty pairs become one task, if there are any; the invariant is kept |
| `RankingStore.Store.DecideModeration` | backend/app/services/review_service.py:259-328 | the status the action asks for, one queued recompute, and the invariant kept |
| `RankingStore.Store.MergeRestaurants` | backend/app/api/v1/admin.py:106-126 | evidence repointed and rows dropped as specified, or a refusal that changes nothing; the invariant is kept |
| `RankingStore.Store.RunPairsTask` | backend/app/workers/ranking_tasks.py:20-38 | the queued recompute consumes its pairs and rescores them; the invariant is kept |
| `RankingStore.Store.RunReviewTask` | backend/app/workers/ranking_tasks.py:42-52 | the queued recompute rescores the pairs the review has when it runs; the invariant is kept |
| `RankingStore.Store.NightlySweep` | backend/app/workers/ranking_tasks.py:56-68 | with a limit no smaller than the missing pairs none is left missing; the invariant is kept |
| `Scoring.ScorePermutation` | backend/app/services/ranking.py:211-365 | the score is a function of the multiset of observations |
| `Scoring.CountAttributes` | backend/app/services/ranking.py:378-383 | the counting loops give the attributes by frequency, then name, at most six |
| `Scoring.TopAttributesPermutation` | backend/app/services/ranking.py:378-383 | the attributes do not depend on the order of the observations |
| `ScoreBounds.ScoreShift` | backend/app/services/ranking.py:193-198 | shifting the clock and every timestamp together changes nothing |
| `ScoreBounds.MoreEvidenceStaysRanked` | backend/app/services/ranking.py:262-264 | adding an observation never turns a ranked pair into an insufficient one, whatever the clock and prior |
| `ScoreBounds.StatusIgnoresClockAndPrior` | backend/app/services/ranking.py:327-346 | the status depends on neither the clock nor the prior, and a score exists exactly for ranked pairs |
| `ScoreBounds.VarianceBound` | backend/app/services/ranking.py:282-286 | the population variance of positivities is at most 1/4 |
| `ScoreBounds.SpreadBound` | backend/app/services/ranking.py:283-284 | the deviation is at most 1/2, so the inner clamp of consistency never fires |
| `ScoreBounds.InnerClampsInactive` | backend/app/services/ranking.py:268-293 | with a prior in the unit interval the shrinkage, consistency and source-quality clamps change nothing |
| `ScoreBounds.RawScoreRange` | backend/app/services/ranking.py:308-319 | every component and the weighted total are in the unit interval, so the final clamp changes nothing |
| `ScoreBounds.SentimentIsPull` | backend/app/services/ranking.py:201-205 | the sentiment component is the prior plus the pull of the evidence |
| `ScoreBounds.ThinEvidenceCeiling` | backend/app/services/ranking.py:252-275 | k observations of any content give at most the prior plus (1 - prior) 0.9k/(0.9k + m) |
| `ScoreBounds.ThinCannotBeatThick` | backend/app/services/ranking.py:252-318 | an entry whose pull reaches that ceiling, with at least as many mentions and other components no lower, has no lower raw score |
| `ScoreLaws.EachHasItsWeight` | backend/app/services/ranking.py:308-318 | raising one component raises the total by its own weight and nothing else |
| `ScoreLaws.MoreEvidenceMoreOfThese` | backend/app/services/ranking.py:278-299 | one more mention never lowers recency, volume or engagement |
| `ScoreLaws.UnanimityIsConsistent` | backend/app/services/ranking.py:281-286 | reviewers who agree are fully consistent, whatever they agree on |
| `ScoreLaws.ValueScoreExistsIff` | backend/app/services/ranking.py:368-375 | a value score exists exactly for a price that is not zero and a positive median, and lies in the unit interval |
| `ScoreLaws.ValueScoreLaws` | backend/app/services/ranking.py:368-375 | it never rises with the price, and is the sentiment at the median price |
| `ScoreLaws.CountsPartition` | backend/app/services/ranking_service.py:280-283 | positive, negative and neutral mentions make up all of them |
| `ScoreLaws.SurgeComparesRates` | backend/app/services/trends.py:106-122 | a volume surge compares rates a day in windows of different length |
| `ScoreDirection.PraiseRaises` | backend/app/services/ranking.py:116-118 | of two lists of observations that differ in sentiments only, the one nowhere lower is observed as no less positive, has no lower sentiment component, and unless its reviewers agree less scores no less |
| `ScoreDirection.ObservedExtremes` | backend/app/services/ranking.py:266-275 | nothing but full praise is observed as 1, nothing but full blame as 0, and indifference as 1/2 |
| `ScoreDirection.OneMind` | backend/app/services/ranking.py:266-275 | reviewers of one sentiment s are observed at (s + 1) / 2 |
| `ScoreMeaning.SourcesRank` | backend/app/services/ranking.py:28-45 | sources rank OSM, Google, YouTube and new accounts, Reddit, manual entries, verified users |
| `ScoreMeaning.FullWeight` | backend/app/services/ranking.py:247-264 | full confidence today from a verified user weighs 0.9, no confidence nothing, and age never adds |
| `ScoreMeaning.MoreConfidence` | backend/app/services/ranking.py:247-264 | more confidence never weighs less |
| `ScoreMeaning.Freshness` | backend/app/services/ranking.py:184-198 | a later date never weighs less, a date to come weighs as today, and no date as one 365 days ago |
| `ScoreMeaning.HalfLife` | backend/app/services/ranking.py:184-190 | each half-life halves the weight |
| `ScoreMeaning.RankedIff` | backend/app/services/ranking.py:327-333 | mentions of full confidence by verified users rank a pair exactly if there are enough of them and 0.9 for each reaches the gate |
| `ScoreMeaning.ConsistentIff` | backend/app/services/ranking.py:281-286 | with three mentions or more consistency is full exactly if all sentiments are the same |
| `ScoreMeaning.SplitIsInconsistent` | backend/app/services/ranking.py:281-286 | reviewers split evenly between full praise and full blame are not consistent at all |
| `ScoreMeaning.ThinIsNeutral` | backend/app/services/ranking.py:281-286 | fewer than three mentions say nothing about agreement: one half |
| `ScoreMeaning.QualityIsMean` | backend/app/services/ranking.py:291-293 | source quality lies between the poorest and the best source |
| `ScoreMeaning.VolumeSaturates` | backend/app/services/ranking.py:288-289 | volume is full from its saturation on |
| `ScoreMeaning.EngagementSaturates` | backend/app/services/ranking.py:295-299 | one mention engaged beyond the saturation makes engagement full |
| `ScoreMeaning.NoEngagement` | backend/app/services/ranking.py:295-299 | negative engagement takes nothing away |
| `ScoreMeaning.ConfidenceIs` | backend/app/services/ranking.py:301-306 | mentions of one confidence give that confidence, less 15% without a model and 20% below three mentions |
| `ScoreMeaning.RecencyIsNewest` | backend/app/services/ranking.py:277-279 | the reported age is that of the newest mention |
| `ScoreMeaning.ScoreReports` | backend/app/services/ranking.py:334-365 | price, value, attributes and weight reported beside a score are those of the evidence, and the stored row repeats those that are the pair's own |
| `ScoreMeaning.ScoreIsPercent` | backend/app/services/ranking.py:319-365 | the score is the raw score as a percentage, for ranked pairs only, and without evidence there is none |
| `ScoreMeaning.PriceIsMean` | backend/app/services/ranking.py:321-326 | there is a mean price exactly if some mention names a positive one, and it lies between the lowest and the highest of those |
| `ScoreMeaning.BetterIsWorthMore` | backend/app/services/ranking.py:368-375 | a better dish is never worth less for its price |
| `ScoreMeaning.ValueIsBounded` | backend/app/services/ranking.py:368-375 | the price moves the value to between half the sentiment and 1.6 times it |
| `ScoreMeaning.TopAreMostMentioned` | backend/app/services/ranking.py:378-383 | the top attributes are those mentioned most, then alphabetically first, at most six, and none is left out that outranks one kept |
| `ScoreMeaning.MentionedIs` | backend/app/services/ranking.py:378-383 | an attribute is counted once for each time an observation names it |
| `Badges.AssignBadges` | backend/app/services/ranking.py:484-518 | in place: each superlative goes to the first largest of its pool and to nobody else, and the gems are exactly those under the cutoff |
| `Badges.OneBest` | backend/app/services/ranking.py:493-503 | each superlative goes to one entry at most, and to one whenever its pool is not empty |
| `Badges.NoTieNoOrder` | backend/app/services/ranking.py:493-503 | without a tie at the top the order of the rows does not matter |
| `Badges.GemsAreUnderDiscussed` | backend/app/services/ranking.py:505-518 | at least two thirds of the ranked entries have as many mentions as a hidden gem or more |
| `Badges.BestValueIs` | backend/app/services/ranking.py:493-497 | the best value is ranked, has a value score, and no ranked entry has a higher one; a strictly highest one has the badge |
| `Badges.MostConsistentIs` | backend/app/services/ranking.py:499-503 | likewise for consistency among ranked entries with five mentions or more |
| `Badges.GemExactly` | backend/app/services/ranking.py:505-518 | a gem is exactly a ranked entry liked at 0.85 and consistent at 0.60, among three or more, than which fewer than a third of them are less discussed |
| `Trends.DetectTrend` | backend/app/services/trends.py:61-141 | the window loop computes the specified trend, and fails exactly for a minimum of zero or less and an empty window |
| `Trends.DirectionIffBothWindows` | backend/app/services/trends.py:71-96 | a direction exists exactly when both windows reach the minimum, and no observation is in both |
| `Trends.UnplacedIrrelevant` | backend/app/services/trends.py:71-86 | dropping every observation that is undated, dated after now, or dated before the longer of the two look-backs changes nothing |
| `Trends.CountsAreDates` | backend/app/services/trends.py:71-86 | the recent count is the number of observations dated in the last recent days, and both counts together that of the whole look-back |
| `Trends.WindowMembers` | backend/app/services/trends.py:71-86 | which observations are in which window, by date alone |
| `Trends.TrendFollowsSentiment` | backend/app/services/trends.py:96-130 | if no recent observation is worse than a historical one the delta is not negative and the trend no decline; the other way round it is not positive and rises by volume only |
| `Trends.ReasonsAre` | backend/app/services/trends.py:96-130 | the verdict goes by sentiment beyond the threshold first, then by a surge in volume, which is never significant |
| `Trends.SentimentsAndDelta` | backend/app/services/trends.py:87-100 | a window has a sentiment exactly if it is not empty, and the delta is the difference |
| `Trends.FullTurn` | backend/app/services/trends.py:96-130 | from full blame to full praise the trend rises by one, significantly, and the other way it falls by one |
| `Trends.Duality` | backend/app/services/trends.py:96-130 | negating every sentiment mirrors the result exactly if a window is too small, the threshold is positive, or the difference of the window means clears one bar only |
| `Trends.ZeroThresholdIsNotDual` | backend/app/services/trends.py:106-122 | with a zero threshold neutral evidence counts as rising both ways |
| `ClauseSentiment.ScoreClause` | backend/app/services/dish_extraction.py:218-265 | the nested loops over words, window and scores compute the specified sentiment and confidence |
| `ClauseSentiment.ClauseRange` | backend/app/services/dish_extraction.py:258-265 | the sentiment lies between the smallest and the largest word score and in [-1, 1], and is at least as extreme as their mean when the signs agree; the confidence tells whether any word scored |
| `ClauseSentiment.CauchySchwarz` | backend/app/services/dish_extraction.py:262-263 | the inequality behind it, over the loop's list |
| `ClauseSentiment.FinalClampInactive` | backend/app/services/dish_extraction.py:265 | the last clamp changes nothing |
| `ClauseSentiment.NegationFlipsAndDamps` | backend/app/services/dish_extraction.py:243-256 | a negator in the window reverses the sign of a word and never strengthens it |
| `ClauseSentiment.OppositeClause` | backend/app/services/dish_extraction.py:236-265 | exchanging every word for its opposite negates the sentiment and keeps the confidence |
| `ClauseSentiment.ContractionsNeverNegate` | backend/app/services/dish_extraction.py:118-135 | negators with an apostrophe have no effect, since no normalised word contains one |
| `ClauseLaws.PraiseIsPositive` | backend/app/services/dish_extraction.py:236-265 | a clause whose opinion words all speak for the dish, praise not negated or blame negated, has a positive sentiment, and one whose words all speak against it a negative one |
| `ClauseLaws.SignOfWord` | backend/app/services/dish_extraction.py:236-256 | the sign of a word is that of its entry, turned round by a negator among the three words before; intensifiers never change it |
| `ClauseLaws.PlainWord` | backend/app/services/dish_extraction.py:236-256 | a word counts exactly if the lexicon has it, and on its own for its entry |
| `ClauseLaws.ZeroIsNoEntry` | backend/app/services/dish_extraction.py:238-240 | an entry of zero among the positive words is no entry |
| `ClauseLaws.IntensifiedWord` | backend/app/services/dish_extraction.py:243-251 | one intensifier among the three words before multiplies the entry by its factor |
| `ClauseLaws.NegatedWord` | backend/app/services/dish_extraction.py:243-256 | a negator among the three words before turns the entry round and damps it to 0.65 |
| `ClauseLaws.TwoWords` | backend/app/services/dish_extraction.py:261-263 | two words weigh by their own size |
| `ClauseLaws.MoreWordsMoreSure` | backend/app/services/dish_extraction.py:264 | confidence never falls with more opinion words, and is 0.9 from four on |
| `ClauseLaws.PhraseScores` | backend/app/services/dish_extraction.py:229-231 | the first fixed phrase that stands in the text decides the clause alone |
| `Extraction.CreditedIff` | backend/app/services/dish_extraction.py:320-330 | an alias is credited exactly when it is found outside every span credited before it |
| `Extraction.LongestFirst` | backend/app/services/dish_extraction.py:304 | aliases are tried from the longest to the shortest, alphabetically among equals |
| `Extraction.LongestWins` | backend/app/services/dish_extraction.py:320-330 | an alias found within the span of a longer credited one is not credited |
| `Extraction.LongestIsCredited` | backend/app/services/dish_extraction.py:320-330 | the longest alias that is found is always credited |
| `Extraction.LeftOutForLonger` | backend/app/services/dish_extraction.py:320-330 | a found alias is left out only for a credited one, at least as long, that covers it |
| `Extraction.ExtractedIs` | backend/app/services/dish_extraction.py:286-346 | a dish is extracted exactly if some clause credits an alias of it, by one hit made of such a clause and alias, with the highest confidence of all |
| `Extraction.HitMeans` | backend/app/services/dish_extraction.py:331-341 | a hit is for the dish its alias stands for, quotes the start of its clause, and carries the lowest price there |
| `Extraction.BestLeads` | backend/app/services/dish_extraction.py:342-346 | a dish is kept exactly when it was hit, with the first of its most confident hits |
| `Extraction.BestOnePerDish` | backend/app/services/dish_extraction.py:342-346 | no dish is kept twice |
| `Extraction.ExtractIgnoresIndexOrder` | backend/app/services/dish_extraction.py:304-305 | the result does not depend on the order in which the alias index was filled |
| `Strings.LexLessIff` | backend/app/services/dish_extraction.py:304 | the alphabetical order is that of the first difference |
| `Extraction.ExtractDishMentions` | backend/app/services/dish_extraction.py:286-346 | the loops over clauses and aliases compute the specified hits |
| `Grounding.EnforceGrounding` | backend/app/ai/base.py:54-121 | the loop keeps what the rules keep, drops the rest for the first rule it breaks, and loses nothing |
| `Grounding.GroundedSound` | backend/app/ai/base.py:76-121 | every survivor is confident enough, known, named in the text, with snippet, price and advice supported |
| `Grounding.GroundedIdempotent` | backend/app/ai/base.py:76-121 | grounding twice is grounding once |
| `Grounding.GroundedOrigin` | backend/app/ai/base.py:73-121 | survivors are trimmed mentions of the input, in their order |
| `Grounding.SupportedKept` | backend/app/ai/base.py:76-121 | whatever passes the rules is kept |
| `Grounding.SurvivesIff` | backend/app/ai/base.py:73-100 | a mention survives exactly if it is confident enough, its name or alias is in the vocabulary or may be created at confidence 0.8, and one of them was said in title or text |
| `Grounding.KeepsWhatWasSaid` | backend/app/ai/base.py:100-119 | a survivor keeps a quotation that was said, a price that was named, and advice that fits its sentiment, and all else unchanged |
| `Grounding.AnalyzeReview` | backend/app/ai/heuristic.py:28-53 | the provider's loop and the filter compute the specified mentions |
| `Grounding.AdviceSurvives` | backend/app/ai/heuristic.py:79-84 | the heuristic's own advice is never filtered out |
| `Grounding.PutForward` | backend/app/ai/heuristic.py:33-84 | a hit is put forward under its alias with its own numbers; advice is given from 0.5 up and from -0.4 down |
| `Grounding.OnlyOpinionsSurvive` | backend/app/ai/heuristic.py:33-53 | with the default floor a clause without any lexicon word or fixed phrase yields no mention |
| `MentionRows.ResolveDish` | backend/app/services/ai_processing.py:262-304 | tries the matched alias, the name, then creation, in that order |
| `MentionRows.ResolvedIs` | backend/app/services/ai_processing.py:262-304 | the alias decides before the name, and only where neither leads to an existing dish is one created, from three letters on and if allowed |
| `MentionRows.RowsCarryMentions` | backend/app/services/ai_processing.py:196-230 | a row for each resolved mention, in order, with the mention's own words and numbers, and no other review touched |
| `MentionRows.AspectsCarryMentions` | backend/app/services/ai_processing.py:214-258 | aspects of mentions carry the mention's dish and sentiment, those of the review their own and no dish |
| `MentionRows.Database.PersistAnalysis` | backend/app/services/ai_processing.py:166-259 | mention and aspect rows are replaced, or on a repeated dish everything is rolled back |
| `MentionRows.InsertsOncePerDish` | backend/app/services/ai_processing.py:196-216 | for every text, an alias index without clashes gives at most one row a dish and no new dish |
| `MentionRows.FixedPointsInsertOncePerDish` | backend/app/services/ai_processing.py:196-216 | aliases that are their own normal forms suffice for that, even where dishes may be created |
| `HeuristicStore.SameUniqueness` | backend/app/services/ai_processing.py:196-213 | UNIQUE(review, dish) says the same of slugs as of dish identifiers |
| `HeuristicStore.ProcessByHeuristic` | backend/app/ai/heuristic.py:28-53 | from text to tables: with an index without clashes the heuristic analysis of a review is always stored, never rolled back, and keeps the ranking invariant |
| `HeuristicStore.StoredAsAnalysed` | backend/app/services/ai_processing.py:196-213 | what is stored for a mention is its own sentiment, confidence, price and attributes, under the restaurant of the review |
| `UnsafeIndex.AlwaysInsertsIff` | backend/app/services/ai_processing.py:275-281 | with creation off every text in every language can be inserted exactly when no two aliases that lead different normal forms stand for different dishes and are looked up as one |
| `UnsafeIndex.ClashBreaks` | backend/app/services/dish_extraction.py:209-215 | for two such aliases there is a search in whose language a sentence that mentions both normal forms yields two mentions of one dish |
| `UnsafeIndex.ClashBreaksByWords` | backend/app/services/dish_extraction.py:304-330 | the same where every alias is searched by whole words, unless another alias found in the sentence covers one of the two names or stands for one of the two dishes |
| `UnsafeIndex.SharedFormIsSafe` | backend/app/services/dish_extraction.py:209-215 | two aliases with one normal form never clash, whatever dishes they stand for |
| `Extraction.CreditedAreLeaders` | backend/app/services/dish_extraction.py:304-330 | of the aliases with one normal form, which share a pattern, only the first in search order is ever credited |
| `MentionRows.ReprocessingIsIdempotent` | backend/app/services/ai_processing.py:177-258 | reprocessing a review with the same analysis reproduces its mention and aspect rows |
| `Resolver.ResolveCandidate` | backend/app/services/entity_resolution.py:113-209 | the loops compute the specified resolution |
| `Resolver.ResolvePermutation` | backend/app/services/entity_resolution.py:118-209 | with distinct ids and unique source keys the result is the same for every order of the candidates |
| `Resolver.MatchSound` | backend/app/services/entity_resolution.py:137-172 | a tiered match is a listed candidate that passed its tier's gate and that no other candidate's row outranks |
| `Resolver.ScoredByFirstGate` | backend/app/services/entity_resolution.py:137-172 | a candidate is scored by the first tier that admits it, exact name before alias before the fuzzy ones, with that tier's confidence, and not at all if none does |
| `Resolver.KeyDecides` | backend/app/services/entity_resolution.py:119-130 | the restaurant that carries the source key is matched with full confidence whatever its name and place |
| `Resolver.RefusesIff` | backend/app/services/entity_resolution.py:175-199 | refusal happens exactly when the two best rows share a tier within 0.05, and then nothing is matched |
| `Resolver.RefusalNames` | backend/app/services/entity_resolution.py:175-199 | a refusal names the second best candidate, with the numbers of the best |
| `Resolver.NewIff` | backend/app/services/entity_resolution.py:131-170 | a new place exactly when no source key and no gate matches, or the name is empty |
| `Resolver.NoCoordinates` | backend/app/services/entity_resolution.py:163-167 | without coordinates a tiered match has similarity at least 0.92 and confidence at most 0.85 |
| `Resolver.ExactNameWinsIff` | backend/app/services/entity_resolution.py:143-154 | the one exact name is matched exactly when no nearby candidate has a similarity above 0.875, or 0.875 and a smaller id |
| `Resolver.FuzzyOutranksExact` | backend/app/services/entity_resolution.py:143-154 | an input in which a fuzzy neighbour is matched instead of the exact name |
| `Ingestion.UniqueSlug` | backend/app/ingestion/pipeline.py:118-127 | the search ends, and finds the first free slug in the order of the suffixes |
| `Ingestion.TakenBound` | backend/app/ingestion/pipeline.py:122-126 | the search cannot pass more taken slugs than there are |
| `UpsertLaws.SlugsAre` | backend/app/ingestion/pipeline.py:122-126 | the slugs tried run base, base-2, base-3 |
| `Strings.DecimalDenotes` | backend/app/ingestion/pipeline.py:122-126 | the numerals of the suffixes are read back as their numbers |
| `Ingestion.UpsertKeeps` | backend/app/ingestion/pipeline.py:147-281 | source keys and slugs per city stay unique through every upsert |
| `Ingestion.UpsertTouchesOne` | backend/app/ingestion/pipeline.py:157-281 | an upsert touches one restaurant at most, keeps slugs and cities, never lowers confidence, and adds a restaurant exactly when it says so |
| `Ingestion.RepeatIsNoOpIff` | backend/app/ingestion/pipeline.py:157-281 | upserting one place twice: the second time changes nothing, skips, and names the same restaurant exactly unless the first was refused |
| `Ingestion.Ingest.UpsertPlace` | backend/app/ingestion/pipeline.py:130-281 | the method does what the specification says and keeps both |
| `UpsertLaws.KnownTakesPayload` | backend/app/ingestion/pipeline.py:157-185 | a known place whose payload changed takes its name, normal form and position; it keeps its details where the payload has none, and takes a rating exactly from Google; nothing else changes |
| `UpsertLaws.KnownIsSkipped` | backend/app/ingestion/pipeline.py:157-170 | an unchanged payload changes nothing |
| `UpsertLaws.LastWriterWins` | backend/app/ingestion/pipeline.py:157-185 | of two payloads for one known key the second decides, as if the first had never come |
| `UpsertLaws.MatchedIsEnriched` | backend/app/ingestion/pipeline.py:223-253 | a new source for a known restaurant adds confidence, Google's rating and an alias, and leaves the rest |
| `UpsertLaws.CreatedIsPlace` | backend/app/ingestion/pipeline.py:254-281 | a place that matches nothing becomes a restaurant with the payload's fields and the first free slug |
| `UpsertLaws.RefusedTouchesNothing` | backend/app/ingestion/pipeline.py:201-222 | a refused place is remembered and touches nothing |
| `UpsertLaws.PlacesInOrder` | backend/app/ingestion/pipeline.py:130-281 | the invariant of the place tables, in keys, slugs and identifiers |
| `Ingestion.ReplayIsNoOpIff` | backend/app/ingestion/pipeline.py:157-222 | replaying a batch of distinct keys changes nothing, with every place skipped, exactly when the batch met no conflict |
| `Ingestion.BatchStores` | backend/app/ingestion/pipeline.py:157-281 | after a batch exactly the refused places have no source row |
| `Ingestion.ConflictForgetsBest` | backend/app/ingestion/pipeline.py:201-209 | a refusal is recorded with an empty first candidate |
| `ReviewIngestion.ReviewStore.StoreReview` | backend/app/ingestion/pipeline.py:307-382 | the method does what the specification says: skipped, refused or created |
| `ReviewIngestion.StoreKeeps` | backend/app/ingestion/pipeline.py:324-382 | one review a source key, one a text, and review counts equal to the reviews there are |
| `UpsertLaws.StoredReviewIs` | backend/app/ingestion/pipeline.py:307-382 | a review is stored exactly if it has a text, a new key and fingerprint and a restaurant was found for it, whose count goes up by one; otherwise at most the number of refusals changes |
| `UpsertLaws.HintBeforeProse` | backend/app/ingestion/pipeline.py:385-429 | a hint matched well enough places the item, and an ambiguous one refuses it, whatever the prose says |
| `UpsertLaws.ProseOtherwise` | backend/app/ingestion/pipeline.py:385-429 | without a usable hint the prose decides, and learns no alias |
| `UpsertLaws.ReviewsInOrder` | backend/app/ingestion/pipeline.py:307-382 | the invariant of the review tables, in keys, fingerprints and counts |
| `ReviewIngestion.StoringAgain` | backend/app/ingestion/pipeline.py:307-382 | storing an item again creates nothing, and changes nothing exactly unless its hint was refused |
| `ReviewIngestion.HintNeedsCoordinates` | backend/app/ingestion/pipeline.py:408-429 | without coordinates a hint never reaches the 0.9 bar, so the prose alone places the item |
| `Quota.QuotaSafety` | backend/app/ingestion/google_places.py:174-215 | in every interleaving what a window holds and what it granted and saw refunded elsewhere exceed the budget by at most what other windows gave back to it |
| `Quota.QuiescentIsExact` | backend/app/ingestion/google_places.py:198-207 | once every take-back has landed in its own window the counter is exactly the units held |
| `Quota.StepKeeps` | backend/app/ingestion/youtube.py:81-125 | every increment, take-back and refund, of any cost and in part, keeps the accounts balanced |
| `Quota.StraddlingRefundsOvershoot` | backend/app/ingestion/google_places.py:209-215 | a run that reaches that bound after k windows, for every amount up to k budgets: units refunded late are granted again in the next window |
| `Quota.PendingRefuses` | backend/app/ingestion/google_places.py:198-203 | a refused reservation in flight turns away a unit that the budget still has |
| `Quota.Guard.Incrby` | backend/app/ingestion/google_places.py:198-204 | the first round trip grants exactly when the total fits the budget |
| `Quota.Guard.RollBack` | backend/app/ingestion/google_places.py:200-203 | the second round trip takes the same units back |
| `Quota.Guard.RefundUnits` | backend/app/ingestion/youtube.py:119-125 | a refund of part of a reservation |
| `SweepLedger.DiscoverPlaces` | backend/app/ingestion/google_places.py:229-316 | however the run ends each call follows its own unit, units held equal calls billed, calls are at most the cap and three a cell, in order; a finished run returns the first of each place received, and a failed one ends with the call that failed it |
| `SweepLedger.SweepReturnsEachOnce` | backend/app/ingestion/google_places.py:298-303 | the places have pairwise different identifiers, and none received is missing |
| `SweepLedger.LedgerAddsUp` | backend/app/ingestion/google_places.py:229-316 | however the run ends, units granted less units refunded are the calls that were answered |
| `SweepLedger.CallsFollow` | backend/app/ingestion/google_places.py:229-307 | a page that names another is followed by it, up to the third, any other answer by the next cell, and a rejected key or a failure by nothing |
| `SweepLedger.CallAdvances` | backend/app/ingestion/google_places.py:246-307 | a page leads to the next page or cell, and another 4xx to the next cell |
| `SweepLedger.FailedSettles` | backend/app/ingestion/google_places.py:274-277 | a network failure refunds its unit |
| `SweepLedger.RejectedSettles` | backend/app/ingestion/google_places.py:278-286 | a 401 or 403 is billed and not refunded |
| `YouTubeLedger.FetchReviews` | backend/app/ingestion/youtube.py:139-215 | no call runs ahead of its units, the run keeps what its successful calls cost, no video is asked for twice, and it ends early only by a refused unit, a failed call or enough videos |
| `YouTubeLedger.FetchTemplate` | backend/app/ingestion/youtube.py:151-212 | one reservation covers search and details, and exactly the unused part goes back |
| `YouTubeLedger.FetchComments` | backend/app/ingestion/youtube.py:217-278 | one unit a thread, kept on success and on 403 and refunded otherwise; the run ends early only by a refusal or another status |
| `GridCover.GridCenters` | backend/app/ingestion/google_places.py:107-117 | the nested loops give exactly the lattice centres inside the radius, at most (2n + 1) squared of them |
| `GridCover.SweepsCover` | backend/app/ingestion/google_places.py:107-157 | every point half a cell diagonal inside the radius is that close to a base centre, and within a cell of an offset centre |
| `GridCover.BaseCover` | backend/app/ingestion/google_places.py:107-117 | the nearest base centre has indices in range and lies inside the radius |
| `GridCover.OffsetCover` | backend/app/ingestion/google_places.py:107-117 | the same for the offset lattice, including the column that it leaves out |
| `GridCover.SearchesStayNear` | backend/app/ingestion/google_places.py:107-137 | every point within a cell of a centre, which is what a search reaches, is within the radius and one cell of the city centre |
| `RateLimit.Limiter.CheckRateLimit` | backend/app/core/rate_limit.py:17-52 | counts the request, and allows it exactly within the limit; a limit of zero or less disables the check |
| `RateLimit.CheckedIs` | backend/app/core/rate_limit.py:17-52 | a check with a limit of zero or less does nothing; otherwise it counts one more, from one once the key has expired, and allows the limit itself |
| `RateLimit.Limiter.CheckReviewLimits` | backend/app/core/rate_limit.py:55-58 | the day's counter is touched only by what the hour admits, and a limit of zero or less disables its tier |
| `RateLimit.LifetimeBound` | backend/app/core/rate_limit.py:33-52 | each lifetime of a key admits at most the limit |
| `RateLimit.IntervalBound` | backend/app/core/rate_limit.py:33-52 | every interval of window length, ends included, admits at most twice a positive limit |
| `RateLimit.HalfOpenBound` | backend/app/core/rate_limit.py:33-52 | without its far end, one less |
| `RateLimit.RefusedOnlyWhenFull` | backend/app/core/rate_limit.py:33-52 | no request is refused while at most limit requests, itself included, came within the window before it |
| `RateLimit.BoundIsReached` | backend/app/core/rate_limit.py:33-52 | two bursts that reach twice the limit |
| `RateLimit.TwoTierBound` | backend/app/core/rate_limit.py:55-58 | each tier that is on bounds the reviews accepted by both |
| `Lifecycle.StepKeeps` | backend/app/services/ai_processing.py:89-111 | no review is with two workers, attempts never exceed five, pending reviews have attempts left, and failed ones have none |
| `Lifecycle.ClaimSpends` | backend/app/services/ai_processing.py:107-110 | each committed claim lowers the sum of attempts left by the reviews claimed |
| `Lifecycle.QueueDrains` | backend/app/workers/ai_tasks.py:30-44 | without new submissions or aborted claims every interleaving of the workers ends, and then every review is done or failed |
| `Lifecycle.Store.ClaimPending` | backend/app/services/ai_processing.py:95-111 | claims only claimable reviews, and all of them when there are fewer than the limit |
| `Lifecycle.Store.ProcessPending` | backend/app/workers/ai_tasks.py:30-50 | each claimed review is settled by its own outcome and spends one attempt, the counter of processed reviews is the number of them that are done, and no other review changes |
| `Lifecycle.TaskSafeIff` | backend/app/workers/ai_tasks.py:70-78 | the single-review task, which takes no lock, is safe exactly for a review that is done, or pending and unclaimed |
| `Lifecycle.RetriesBreakTheBoundIff` | backend/app/workers/ai_tasks.py:53-87 | n failing runs on a review with a attempts break the limit exactly when a + n exceeds five, as the retries of one task can |
| `Lifecycle.EveryRunIsSafe` | backend/app/services/ai_processing.py:89-111 | every run from the empty queue, submissions and rolled-back claims included, keeps all this |
| `Lifecycle.SafeMeans` | backend/app/services/ai_processing.py:89-111 | what that says: a review is with one worker at most, has five attempts at most, fewer while pending, all spent once failed, and is in processing exactly while held |
| `Lifecycle.KillReleases` | backend/app/services/ai_processing.py:95-111 | a killed worker claims and holds nothing any more, other workers keep what they had, and no row changes |
| `Lifecycle.StrandedIff` | backend/app/workers/ingestion_tasks.py:570-587 | over every run from the empty queue, or from any state of the workers' invariant, kills and resets included, the stranded reviews are exactly those whose holder was killed at the fifth attempt and that were then reset |
| `Lifecycle.ResetSafeIff` | backend/app/workers/ingestion_tasks.py:576-586 | resetting a review in processing is safe exactly if nobody holds it |
| `Lifecycle.StrandedForever` | backend/app/services/ai_processing.py:98 | a stranded review stays so through every later run, and no worker is given it |
| `Cursor.CursorLeavesNoGap` | backend/app/workers/ingestion_tasks.py:297-333 | for any pattern of failed, skipped, crashed and overlapping runs and of pruning, the committed windows cover every instant up to the last fetch, given two hours from fetch to finish and the other stated conditions |
| `Cursor.NoGapIff` | backend/app/workers/ingestion_tasks.py:512-526 | a committed window leaves no gap exactly when it starts at or before the last instant fetched |
| `Cursor.LastSuccessAt` | backend/app/workers/ingestion_tasks.py:512-526 | the latest success less two hours, or ninety days back |
| `Cursor.ClaimedOnce` | backend/app/workers/ingestion_tasks.py:46-87 | a key that is free in the job table was never claimed before, however many jobs were pruned |
| `Cursor.StepKeepsClaims` | backend/app/workers/ingestion_tasks.py:58-87 | every step keeps the agreement of claims and table that this needs |
| `Cursor.BeginsIff` | backend/app/workers/ingestion_tasks.py:72-87 | a run starts exactly when the key of the present bucket is free, and otherwise changes nothing |
| `Cursor.SameKeyIff` | backend/app/workers/ingestion_tasks.py:46-55 | two instants share a job key exactly if they lie in one slot of one day |
| `Cursor.RetryIff` | backend/app/workers/ingestion_tasks.py:330-333 | after a committed failure a retry does nothing exactly when some job holds the key of its bucket, and in the same bucket the failed run does |
| `Cursor.LateFinishIff` | backend/app/workers/ingestion_tasks.py:497-526 | in every state of careful runs: once a fetched run finishes and commits, the next window leaves a gap exactly when the finish is over two hours after the last instant any committed run fetched |
| `Cursor.CommentsMoveTheCursorIff` | backend/app/workers/ingestion_tasks.py:415-416 | a comments job moves the cursor of its source: the next fetch leaves a gap exactly when the last was more than two hours before it |
| `Dedup.FoldingIsBijection` | backend/app/services/dedup.py:64-67 | folding to signed 64 bits is a bijection |
| `Dedup.FoldingKeepsDistance` | backend/app/services/dedup.py:70-71 | folding leaves the Hamming distance alone |
| `Dedup.HammingIsMetric` | backend/app/services/dedup.py:70-71 | the distance is a metric on signatures |
| `SignatureLaws.HammingCountsBits` | backend/app/services/dedup.py:70-71 | the distance is the number of the 64 bits that differ |
| `SignatureLaws.JaccardIs` | backend/app/services/dedup.py:74-79 | the overlap is 1 exactly for the same words and 0 exactly for none in common |
| `SignatureLaws.PassesIff` | backend/app/services/dedup.py:109-116 | a row passes exactly if at most 12 bits differ and 82 of 100 words are shared |
| `SignatureLaws.CopiesPass` | backend/app/services/dedup.py:96-125 | a text passes against its own stored row, and never against one with which it shares no word |
| `Dedup.IsNearDuplicate` | backend/app/services/dedup.py:96-125 | a duplicate exactly when some row passes both thresholds, reported with the rounded maximum and a row that attains it |
| `Dedup.OrderIndependent` | backend/app/services/dedup.py:109-125 | the verdict and the similarity do not depend on the order of the rows |
| `Dedup.WithinHalfDigit` | backend/app/services/dedup.py:117-123 | the similarity reported is the rounded maximum, within 0.00005 of it, although the running best is rounded |
| `SignatureLaws.RoundsToEven` | backend/app/services/dedup.py:117-123 | rounding goes to the nearest digit, and from the middle to the even one |
| `Dedup.BothCopiesFlagged` | backend/app/services/ai_processing.py:324-327 | a stored review passes against another exactly if that passes against it |
| `DuplicateRuns.FlagNearDuplicate` | backend/app/services/ai_processing.py:313-339 | a review is flagged exactly if it was or some row of its window passes |
| `DuplicateRuns.WindowIs` | backend/app/services/ai_processing.py:313-322 | a window lists other reviews of the restaurant, none twice, forty at most, and all of them if they are no more |
| `DuplicateRuns.NewestAreInWindow` | backend/app/services/ai_processing.py:313-322 | whatever fewer than forty others are as new as is in the window |
| `DuplicateRuns.FlaggedIff` | backend/app/services/ai_processing.py:307-339 | in every run of arrivals and processings a review is flagged exactly if it was processed while a near-identical one stood in its candidate window |
| `DuplicateRuns.NeitherCopyCounts` | backend/app/services/ai_processing.py:307-339 | two near-identical reviews stored before either is processed are both flagged by every run in which each is at some time processed with the other in its window, in any order; in the ranking tables neither is evidence of any pair |
| `DuplicateRuns.RunExtends` | backend/app/services/ai_processing.py:307-339 | a run never takes a flag back, and changes nothing else of a stored review |
| `DuplicateRuns.SmallRestaurantFlaggedIff` | backend/app/services/ai_processing.py:313-322 | where the reviews fit one window, a review ends flagged exactly if it was ever processed while a near-identical one was stored |
| `Simhash.ComputeSignature` | backend/app/services/dedup.py:33-61 | the loops over features and bits compute the specified signature |
| `Simhash.SignatureBits` | backend/app/services/dedup.py:51-61 | a signature fits 64 bits, and each bit is the sign of the votes on it |
| `SignatureLaws.BitsByVote` | backend/app/services/dedup.py:45-61 | a bit is set exactly if the words, counted double, and their neighbouring pairs vote for it |
| `SignatureLaws.OneWord` | backend/app/services/dedup.py:33-61 | a single word has the bits of its digest, and no word none |
| `Simhash.SignatureOfFeatures` | backend/app/services/dedup.py:45-61 | the signature depends only on the multiset of words and neighbouring pairs |

## Left out

- Floating point and most rounding: properties are about real numbers before `round`; only the four-digit rounding in the duplicate search is modelled, because the running best there is itself rounded.
- Columns of a score that depend on the clock or on the city prior: the prior ranges over the whole city, so the shrunk scores of untouched peers are not exact in the original either; the agreement is about the pair's own columns.
- Restaurant rollups, city aggregates, snapshots, the trend tables, caches, summaries and the price and date range columns of restaurant dishes: further views of the same rows.
- Two transactions that overlap on one pair: every ranking operation is one atomic step, so anomalies of the database's isolation level are not modelled.
- Lost queue messages and a batch killed before it reports its dirty pairs: enqueued work is taken to be delivered.
- Creating dishes while ranking runs, and changes of engagement through likes: the set of dishes is fixed in the ranking model, and engagement does not enter the pair's own columns.
- RankingStore.Store.MergeRestaurants: the alias that a merge adds can violate its own uniqueness and roll the merge back; the model leaves aliases and that failure out.
- RankingStore.Store.NightlySweep: which rows are stale by their age, and which of them the query's limit takes, is a parameter.
- RankingGaps.RemapSafeIff: the endpoint also accepts the dish that the mention already has; that remap changes nothing and is not a step here.
- RankingStore.Store.RecomputePairs: trend columns, badges, snapshots and restaurant rollups, which the same loops write, are separate views and not part of the store.
- RankingStore.Store.DecideModeration: the moderation item, its history and the author's counters are not modelled.
- Resolver.ResolvePermutation: needs unique source keys, which the database's UNIQUE constraint gives.
- Resolver.ResolveCandidate: identifiers are numbers in the order of their text, and the confidence is the one before rounding to three digits.
- Ingestion.ReplayIsNoOpIff: rows added but not yet flushed are visible at once, so a key repeated inside one batch, which the original may insert twice and fail on, is excluded by the distinct keys.
- ReviewIngestion.ReviewStore.StoreReview: takes the cleaned body and its fingerprint as given.
- Quota.QuotaSafety: Redis is up throughout, and no counter expires inside its own window, since its lifetime is longer than the window.
- GridCover.SweepsCover: distances are planar metres around the centre; the seam between fine and coarse zones and the rim within half a cell diagonal are not claimed, because the code does not cover them.
- Lifecycle.TaskSafeIff: its read and write of the attempt count are one step, so an update lost between them is not modelled.
- Cursor.CursorLeavesNoGap: excludes a lookback override and other jobs on the same source, whose effect is stated by its own lemma, and assumes that the adapter returns everything published in its window.
- UnsafeIndex.AlwaysInsertsIff: ranges over all searches for normal forms; its witness finds the two names by whole words and nothing else, where `UnsafeIndex.ClashBreaksByWords` finds every alias; normalisation is taken to trim and to leave sentences of normal forms alone.
- DuplicateRuns.FlaggedIff: restaurants are fixed, so a merge between two processings is not a step.
- Lifecycle.StrandedIff: thirty minutes without an update are taken to mean that nobody holds the review; what a reset would do otherwise is stated by its own lemma.
- Extraction.ExtractDishMentions: clause splitting, the search for a normalised alias with its optional plural and elastic spacing, prices, attributes and aspects are abstract functions.
- Grounding.EnforceGrounding: the longest-match ratio of a quote is an abstract relation, and review-level aspects pass through unmodelled.
- The merge of model and heuristic mentions: it is keyed by surface name and can yield two names for one dish, so uniqueness is claimed for the heuristic path only.
- Retrying a job by hand resets its attempts to zero; it is not a step of the lifecycle.
- HTTP, SQL, authentication, the frontend, Reddit, Overpass and Nominatim fetching, language and spam detection: transport or heuristics without a law to prove.
