# Contact intelligence pipeline of ACT Placemat, in Dafny

This project models the contact-intelligence core of the ACT Placemat
repository and proves properties about it. The core has five parts:

- **Scoring and classification** of youth-justice contacts
  (`scripts/strategic-contact-scoring.py`). Six keyword scorers give
  relevance, influence, accessibility, timing, strategic value and risk. A
  weighted composite follows. `categorize_contact` then gives the tier,
  category, approaches, campaign segments, pathway, success probability,
  resource level, timing window and risk notes. `_clean_and_deduplicate`
  prepares the table.
- **Research enrichment** (`scripts/research-contact-enrichment.py`):
  - the two-window `RateLimiter`;
  - the 24-hour `CacheManager`;
  - the `EmailFinder` pattern and domain generator;
  - the `AIAnalyzer` influence and collaboration scores;
  - the data-source bookkeeping of `research_single_contact` that sets
    `research_confidence`.
- **Consolidation** of contact lists
  (`scripts/consolidate-youth-justice-contacts.py`):
  - the sector, relevance, Indigenous-affiliation, focus, priority,
    media-reach, state and Twitter classifiers;
  - `remove_duplicates`;
  - the final sort by relevance.
- **New e-mail contacts** (`scripts/process-new-email-contacts.py`):
  - `parse_email_list`;
  - `extract_basic_info`;
  - the research guard and `_parse_research_response`;
  - the five-dimension `calculate_strategic_scores`;
  - `DatabaseManager.merge_contacts`.
- **Agents and small tools**:
  - the `BaseAgent` lifecycle and the `StrategicAdvisorAgent` routing and
    provider choice (`infrastructure/agents/python/...`);
  - `analyze_relations` and the expected-versus-actual comparison of
    `tools/development/check_notion_relations.py`;
  - the single-page-application rewrite of
    `tools/servers/static/serve-react.py`.

Every module is a set of pure functions over immutable datatypes.

- A contact row is a `map<string, string>`.
- Keyword tests are substring tests on ASCII-lower-cased text (module
  `Strings`).
- Scores are exact `real`s.
- Clocks, uuids, network services, DNS, LLMs and sentiment analysis are
  parameters or oracle functions.
- A Python exception that the source does not catch becomes `None` of an
  `Option`.

Modules and files:

| file | module | source |
|---|---|---|
| `wrappers.dfy` | `Wrappers` | the `Option` type |
| `strings.dfy` | `Strings` | `str.lower`, `str.title`, `str.strip`, `str.split`, `in`, first-match lookups |
| `keyed_dedup.dfy` | `KeyedDedup` | first-wins and last-wins deduplication by key |
| `scoring.dfy` | `Scoring` | the six scorers and the composite |
| `classification.dfy` | `Classification` | `categorize_contact` |
| `contact_table.dfy` | `ContactTable` | `_clean_and_deduplicate` |
| `rate_limiter.dfy` | `RateLimiter` | `RateLimiter.wait_if_needed` |
| `cache.dfy` | `Cache` | `CacheManager` |
| `email_finder.dfy` | `EmailFinder` | `EmailFinder` |
| `enrichment.dfy` | `Enrichment` | `AIAnalyzer` scores and `research_single_contact` bookkeeping |
| `consolidation.dfy` | `Consolidation` | the consolidation classifiers |
| `master_list.dfy` | `MasterList` | `remove_duplicates` and the relevance sort |
| `email_contacts.dfy` | `EmailContacts` | `process-new-email-contacts.py` |
| `agents.dfy` | `Agents` | `BaseAgent` |
| `advisor.dfy` | `StrategicAdvisor` | `StrategicAdvisorAgent` |
| `notion_relations.dfy` | `NotionRelations` | `check_notion_relations.py` |
| `spa_route.dfy` | `SpaRoute` | `serve-react.py` |

Behaviour of the code that the model makes explicit:

- **Rate limiter.** `wait_if_needed` prunes and computes its sleeps from
  the clock reading taken *before* it sleeps, and then records that same
  reading (lines 221 and 242-243), so recorded times can lag the real call
  times. The model proves that the recorded time is the pre-wait reading,
  that pruning is the only removal, and that the sleeps are bounded when
  the clock is monotone.
- **State from text.** `extract_state_from_text` tests patterns in the
  order qld, nsw, vic, wa, …; "new south wales" contains "wa", so a text
  naming New South Wales only by its full name yields "WA"
  (`Consolidation.WalesReadsAsWesternAustralia`).
- **URL parameters.** `urlparse` cuts `;params` from the last path segment
  only; a ';' in a directory stays in the path
  (`SpaRoute.ParamsCutFromLastSegment`).

## Model

| member | source | states |
|---|---|---|
| Strings.WordsOfBlank | scripts/process-new-email-contacts.py:330-338 | `str.split()` gives no words exactly when the text is all whitespace |
| Strings.FirstWordChars | scripts/research-contact-enrichment.py:462-465 | the first word of a split consists of characters of the text, none of them whitespace |
| Strings.FirstContainedIsAny | scripts/process-new-email-contacts.py:173-178 | a first-match lookup finds an entry exactly when some entry is contained |
| Strings.CountContainedMonotone | scripts/process-new-email-contacts.py:280-292 | counting matched keywords in a text that contains another text never gives fewer matches |
| Strings.SplitOnce | scripts/process-new-email-contacts.py:156-159 | splitting `a + sep + b` at a separator absent from both gives back `[a, b]` |
| Strings.Dedup | scripts/process-new-email-contacts.py:148 | removing repeats keeps every element and leaves no two equal |
| KeyedDedup.KeepFirstBy | scripts/consolidate-youth-justice-contacts.py:680-697 | first-wins deduplication leaves distinct keys, the same key set, and elements of the input in input order |
| KeyedDedup.FirstOfKeyKept | scripts/consolidate-youth-justice-contacts.py:684-695 | the first element with each key is the one kept |
| KeyedDedup.KeepFirstByIdempotent | scripts/consolidate-youth-justice-contacts.py:670-697 | deduplicating a deduplicated list changes nothing |
| KeyedDedup.KeepLastBy | scripts/process-new-email-contacts.py:456 | `keep='last'` deduplication leaves distinct keys, the same key set, and elements of the input in input order |
| KeyedDedup.ReverseSubsequence | scripts/process-new-email-contacts.py:456 | a subsequence of a reversed list reverses to a subsequence of the list, so keeping the last occurrence still preserves input order |
| KeyedDedup.LastOfKeyKept | scripts/process-new-email-contacts.py:456 | the last element with each key is the one kept |
| KeyedDedup.PermutationKeepsDistinctKeys | scripts/strategic-contact-scoring.py:227 | rearranging a list does not change whether its keys are distinct |
| Scoring.SumMatched | scripts/strategic-contact-scoring.py:248-270 | a sum of keyword bonuses is non-negative and zero exactly when no keyword occurs |
| Scoring.YouthJusticeRelevance | scripts/strategic-contact-scoring.py:235-285 | relevance lies in [0, 100] and is 0 exactly when no keyword, organisation word or sector key matches |
| Scoring.RelevanceSaturates | scripts/strategic-contact-scoring.py:248-285 | every contact whose combined text holds four distinct high-relevance keywords (25 each) reaches the cap of 100, whatever its other fields |
| Scoring.RelevanceMonotone | scripts/strategic-contact-scoring.py:235-285 | a contact whose combined text, organisation and sector contain another's never scores lower relevance |
| Scoring.RelevanceZeroIff | scripts/strategic-contact-scoring.py:248-285 | relevance is zero iff no high, medium or low keyword, relevant organisation word or sector key occurs |
| Scoring.TitleInfluence | scripts/strategic-contact-scoring.py:296-303 | the title part is zero exactly when no senior or mid-level indicator occurs |
| Scoring.FirstSectorKey | scripts/strategic-contact-scoring.py:305-309 | the chosen sector key is the first, in declaration order, found in sector or organisation |
| Scoring.SectorMultiplier | scripts/strategic-contact-scoring.py:305-309 | the multiplier is at least 1, and is 1 exactly when no sector key occurs (the `break` takes the first) |
| Scoring.OrgInfluenceBonus | scripts/strategic-contact-scoring.py:311-323 | the organisation bonuses add up to between 0 and 60 |
| Scoring.Influence | scripts/strategic-contact-scoring.py:287-325 | influence lies in [0, 100] |
| Scoring.InfluenceOf | scripts/strategic-contact-scoring.py:296-325 | the multiplier and bonuses never lower influence below the capped title part |
| Scoring.GovernmentMultiplierWins | scripts/strategic-contact-scoring.py:305-308 | a government sector or organisation always gets the multiplier 3, whatever else matches, because "government" is the first key |
| Scoring.SectorAccessibility | scripts/strategic-contact-scoring.py:352-359 | the sector adjustment lies in [-10, 15] |
| Scoring.Accessibility | scripts/strategic-contact-scoring.py:327-361 | accessibility lies in [40, 100] |
| Scoring.AccessibilityBelowBase | scripts/strategic-contact-scoring.py:331-361 | accessibility drops below the base of 50 only for a government sector with no e-mail, LinkedIn or contact information |
| Scoring.CampaignTiming | scripts/strategic-contact-scoring.py:367-375 | the campaign bonus is 0, 20, 25 or 30 |
| Scoring.Timing | scripts/strategic-contact-scoring.py:363-386 | timing lies in [60, 100] |
| Scoring.TimingAtBase | scripts/strategic-contact-scoring.py:363-386 | timing stays at its base of 60 exactly when no campaign term, no "media" sector and no 2025 connection date applies |
| Scoring.CampaignTimingMonotone | scripts/strategic-contact-scoring.py:368-376 | a campaign text containing another earns at least its campaign bonus |
| Scoring.TimingMonotone | scripts/strategic-contact-scoring.py:363-386 | timing never drops when campaign text, sector and connection date grow |
| Scoring.CountIndicators | scripts/strategic-contact-scoring.py:398-405 | at most one count per indicator |
| Scoring.StrategicValue | scripts/strategic-contact-scoring.py:388-423 | strategic value lies in [0, 100] |
| Scoring.CountIndicatorsMonotone | scripts/strategic-contact-scoring.py:398-410 | a title and campaign text containing others match at least their indicators |
| Scoring.StrategicValueMonotone | scripts/strategic-contact-scoring.py:388-423 | strategic value never drops when title and campaign text grow |
| Scoring.Risk | scripts/strategic-contact-scoring.py:425-447 | risk lies in [0, 55] (20 + 10 + 15 + 10 at most) |
| Scoring.RiskMonotone | scripts/strategic-contact-scoring.py:425-447 | for a fixed title, risk never drops when organisation and campaign text grow |
| Scoring.MinisterNeverRaisesRisk | scripts/strategic-contact-scoring.py:444-445 | a title naming a minister never raises risk, and removes exactly the 10-point government penalty when it was the one that applied |
| Scoring.CompositeInRange | scripts/strategic-contact-scoring.py:817-823 | the composite of in-range dimensions lies in [0, 100] |
| Scoring.CompositeMonotone | scripts/strategic-contact-scoring.py:817-823 | raising any dimension never lowers the composite |
| Scoring.ScoreContact | scripts/strategic-contact-scoring.py:808-823 | every computed score is in its scorer's range, and the composite is the weighted sum, in [17, 100] |
| Scoring.BlankContactScores | scripts/strategic-contact-scoring.py:808-823 | an all-empty contact scores (0, 0, 50, 60, 0), risk 0 and composite 0.2 * 50 + 0.15 * 60 = 19 |
| Scoring.BlankRelevance | scripts/strategic-contact-scoring.py:235-285 | an all-empty contact has relevance 0 |
| Scoring.BlankInfluence | scripts/strategic-contact-scoring.py:287-325 | an all-empty contact has influence 0 |
| Scoring.BlankAccessibility | scripts/strategic-contact-scoring.py:327-361 | an all-empty contact has accessibility 50 |
| Scoring.BlankStrategicValue | scripts/strategic-contact-scoring.py:388-423 | an all-empty contact has strategic value 0 |
| Scoring.NothingInShortText | scripts/strategic-contact-scoring.py:75-116 | no keyword longer than a text occurs in it |
| Scoring.ShortTextIrrelevant | scripts/strategic-contact-scoring.py:248-283 | texts shorter than every relevance keyword score no relevance |
| Scoring.RelevanceKeywordsLong | scripts/strategic-contact-scoring.py:75-93 | every relevance keyword has more than three characters and a positive bonus |
| Scoring.EmptyTextNoInfluence | scripts/strategic-contact-scoring.py:287-325 | empty title, organisation and sector carry no influence |
| Scoring.ShortMatchesNothing | scripts/strategic-contact-scoring.py:248-270 | a text shorter than every keyword of a table earns no bonus |
| Scoring.ShortHasNoSectorKey | scripts/strategic-contact-scoring.py:305-309 | no sector key longer than sector and organisation is found |
| Scoring.ShortHasNoIndicator | scripts/strategic-contact-scoring.py:398-405 | no indicator longer than title and campaign is counted |
| Classification.TierRank | scripts/strategic-contact-scoring.py:453-460 | the four tiers are ranked 1 to 4 |
| Classification.TierOf | scripts/strategic-contact-scoring.py:453-460 | each tier is chosen exactly on its composite interval: [80, ∞), [65, 80), [50, 65), below 50 |
| Classification.CategoryOf | scripts/strategic-contact-scoring.py:462-474 | each category exactly on its region of the scores, earlier rules taking precedence; Blockers exactly the remaining contacts with accessibility at most 40 or risk at least 60 |
| Classification.PathwayOf | scripts/strategic-contact-scoring.py:498-506 | each pathway exactly on its accessibility interval, Formal Request only below 60 with influence at least 70 |
| Classification.SuccessProbability | scripts/strategic-contact-scoring.py:508-510 | the mean of accessibility, timing and 100 - risk, capped at 95, the cap reached exactly when the sum is at least 285 |
| Classification.TouchOf | scripts/strategic-contact-scoring.py:512-518 | High Touch from composite 80, Medium Touch on [60, 80), Low Touch below 60, each exactly |
| Classification.WindowOf | scripts/strategic-contact-scoring.py:520-526 | Immediate from timing 80, Short-term on [60, 80), Long-term below 60, each exactly |
| Classification.Approaches | scripts/strategic-contact-scoring.py:477-485 | each approach is included exactly when its own rule holds, without repeats |
| Classification.Segments | scripts/strategic-contact-scoring.py:488-496 | each campaign segment is included exactly when its own rule holds, without repeats |
| Classification.Risks | scripts/strategic-contact-scoring.py:529-535 | each risk note is included exactly when its threshold holds; risk 60 or more implies both reputation and political notes |
| Classification.Categorize | scripts/strategic-contact-scoring.py:449-547 | success probability at most 95; Champions, Gatekeepers and Amplifiers have influence at least 50; "Media Collaboration" exactly from influence 50; never "Media Outreach Campaign" |
| Classification.NoCategoryMentionsMedia | scripts/strategic-contact-scoring.py:463-474 | no category label contains "media", so the media clauses never fire |
| Classification.TierMonotone | scripts/strategic-contact-scoring.py:453-460 | a higher composite never lands in a less urgent tier |
| Classification.TouchFollowsTier | scripts/strategic-contact-scoring.py:513-518 | High Touch exactly for Tier 1; Tier 2 is always Medium Touch; Low Touch only in Tiers 3 and 4 |
| Classification.HighInfluenceCategory | scripts/strategic-contact-scoring.py:463-466 | influence of at least 70 makes a Champion or a Gatekeeper |
| Classification.BlockersOfAttainableScores | scripts/strategic-contact-scoring.py:470-471 | for computed scores, a Blocker is exactly a contact at accessibility 40 without high influence or relevance; the risk clause is unreachable |
| Classification.AttainableRisks | scripts/strategic-contact-scoring.py:529-535 | computed scores never yield "High reputation risk" |
| Classification.SuccessProbabilityRange | scripts/strategic-contact-scoring.py:509-510 | for computed scores the success probability lies in [145/3, 95] |
| Classification.SuccessProbabilityMonotone | scripts/strategic-contact-scoring.py:509-510 | more accessibility or timing, or less risk, never lowers the success probability |
| Classification.AccessiblePathway | scripts/strategic-contact-scoring.py:499-506 | the pathway is direct or social media exactly when accessibility is at least 60 |
| ContactTable.Rows | scripts/strategic-contact-scoring.py:227-231 | the rows behind the cleaned rows, one each, in order |
| ContactTable.CleanAndDeduplicate | scripts/strategic-contact-scoring.py:204-233 | one row per lower-cased `name\|organization` key, the same key set, contact ids 1..n, and the same completeness for every row |
| ContactTable.SameKeys | scripts/strategic-contact-scoring.py:220-223 | cleaned rows carry the keys of the rows they came from |
| ContactTable.FirstArrangedRowKept | scripts/strategic-contact-scoring.py:226-227 | whichever row comes first in the arrangement the sort chooses is kept |
| ContactTable.CleanTwiceIsClean | scripts/strategic-contact-scoring.py:204-233 | cleaning a cleaned table again gives back the same rows under the same contact ids |
| RateLimiter.NewLimiter | scripts/research-contact-enrichment.py:213-217 | a new limiter remembers no requests |
| RateLimiter.Prune | scripts/research-contact-enrichment.py:224-225 | pruning keeps exactly the times inside the window |
| RateLimiter.Oldest | scripts/research-contact-enrichment.py:230-232 | `min` of the list: a member, no larger than any other |
| RateLimiter.WindowWait | scripts/research-contact-enrichment.py:228-239 | a requested sleep is never negative |
| RateLimiter.WaitIfNeeded | scripts/research-contact-enrichment.py:219-243 | the call proceeds with both caps unchanged; it raises on `min([])` exactly when a cap is 0 or less and its pruned list is empty |
| RateLimiter.RecordsPreWaitNow | scripts/research-contact-enrichment.py:221-243 | after the call every remembered time is inside its window, and the last one is the pre-wait reading |
| RateLimiter.OnlyPruningRemoves | scripts/research-contact-enrichment.py:224-243 | apart from the appended time, a time is kept exactly when it is inside its window |
| RateLimiter.WaitBounds | scripts/research-contact-enrichment.py:228-239 | a sleep is requested exactly at the cap, and lasts at most one window when no time is in the future |
| RateLimiter.WaitIfNeededWaits | scripts/research-contact-enrichment.py:228-239 | both sleeps lie in (0, window] when their list is at the cap, and are 0 below it |
| RateLimiter.NotAheadPreserved | scripts/research-contact-enrichment.py:221-243 | with a clock that never runs backwards, no remembered time is ever in the future |
| RateLimiter.PositiveCapsProceed | scripts/research-contact-enrichment.py:228-239 | with positive caps the call never raises |
| Cache.Get | scripts/research-contact-enrichment.py:257-270 | a hit exactly for a readable entry younger than 24 hours, returning its content; never raises |
| Cache.Set | scripts/research-contact-enrichment.py:272-282 | a write stores the entry; a failed dump leaves an unreadable file; a failed open changes nothing; other keys are untouched |
| Cache.CachedHit | scripts/research-contact-enrichment.py:312-314 | a cached value counts only when it is truthy |
| Cache.SetThenGet | scripts/research-contact-enrichment.py:257-282 | what was written is read back until it is 24 hours old, and not after |
| Cache.FailedSetThenGet | scripts/research-contact-enrichment.py:276-282 | a failed write never yields stale content |
| Cache.SetOtherKey | scripts/research-contact-enrichment.py:272-282 | writing one key leaves every other key's lookups unchanged |
| Cache.ExpiryIsPermanent | scripts/research-contact-enrichment.py:265-267 | an expired entry stays expired as the clock moves on |
| EmailFinder.LocalParts | scripts/research-contact-enrichment.py:385-397 | the ten local-part patterns |
| EmailFinder.Addresses | scripts/research-contact-enrichment.py:385-397 | each address is a local part, "@" and the domain |
| EmailFinder.GenerateEmailPatterns | scripts/research-contact-enrichment.py:381-399 | patterns exist iff both stripped, lower-cased names are non-empty; they are distinct, at most 10, and exactly the ten addresses |
| EmailFinder.LocalPartsHaveNoAt | scripts/research-contact-enrichment.py:385-397 | no local part contains '@' when the names do not |
| EmailFinder.PatternsSplitToDomain | scripts/research-contact-enrichment.py:381-399 | each pattern ends in "@" + domain and splits back into local part and domain |
| EmailFinder.AddressEndsWithDomain | scripts/research-contact-enrichment.py:385-397 | an address ends with "@" + its domain |
| EmailFinder.AddressSplitsToDomain | scripts/research-contact-enrichment.py:385-397 | an address whose parts hold no '@' splits back into its parts |
| EmailFinder.CleanOrg | scripts/research-contact-enrichment.py:463 | the cleaned organisation holds only letters, digits and whitespace |
| EmailFinder.PrimaryWord | scripts/research-contact-enrichment.py:462-465 | the primary word is non-empty and alphanumeric |
| EmailFinder.DomainCandidates | scripts/research-contact-enrichment.py:460-477 | no candidate domains for a blank organisation or one without a word, else the primary word with the six suffixes in order |
| EmailFinder.DomainCandidatesAreClean | scripts/research-contact-enrichment.py:462-477 | no candidate domain contains '@' or a blank |
| EmailFinder.SuffixesClean | scripts/research-contact-enrichment.py:466-473 | no suffix contains '@' or a blank |
| EmailFinder.CleanConcat | scripts/research-contact-enrichment.py:466-473 | an alphanumeric word joined to a clean suffix is clean |
| EmailFinder.PatternResults | scripts/research-contact-enrichment.py:485-489 | at most five pattern addresses per domain, each at confidence 0.3, passing the MX check and ending in one of the domains, whatever order the pattern set is listed in |
| EmailFinder.PatternEntries | scripts/research-contact-enrichment.py:486-488 | the first five of the listed pattern set (all when fewer): distinct patterns of the name, each at 0.3 and ending in "@" + domain |
| EmailFinder.TopPatterns | scripts/research-contact-enrichment.py:487 | any listing of the pattern set, cut at five, keeps min(5, count) distinct patterns of the domain |
| EmailFinder.PatternsEndWithDomain | scripts/research-contact-enrichment.py:486-488 | every chosen pattern ends in "@" + domain |
| EmailFinder.Filter | scripts/research-contact-enrichment.py:487-488 | exactly the entries that pass the MX check, in order |
| EmailFinder.FindEmailsForContact | scripts/research-contact-enrichment.py:450-491 | no results for a blank first or last name or for an organisation without candidate domains; otherwise the Hunter.io results of the first three domains followed by the pattern results of the first two |
| EmailFinder.HunterResults | scripts/research-contact-enrichment.py:480-482 | an address is found exactly when Hunter.io returned it for one of the domains asked |
| EmailFinder.HunterSeesFirstThree | scripts/research-contact-enrichment.py:480-482 | only the first three candidate domains are sent to Hunter.io |
| EmailFinder.HunterResultsAgree | scripts/research-contact-enrichment.py:480-482 | Hunter.io results depend only on the answers for the domains asked |
| EmailFinder.PatternAddresses | scripts/research-contact-enrichment.py:485-489 | every pattern-derived address carries 0.3, passed the MX check and ends in one of the first two domains |
| Enrichment.PositionBonus | scripts/research-contact-enrichment.py:711-717 | 0.4 exactly for a senior word, 0 exactly without senior or middle words, else 0.2 |
| Enrichment.InfluenceScore | scripts/research-contact-enrichment.py:707-731 | the influence score lies in [0, 1] |
| Enrichment.CollaborationPotential | scripts/research-contact-enrichment.py:733-754 | the collaboration potential lies in [0, 1] |
| Enrichment.CountBonusRange | scripts/research-contact-enrichment.py:720-729 | a list bonus lies between 0 and its cap |
| Enrichment.CountBonus | scripts/research-contact-enrichment.py:720-729 | an empty list earns nothing, a non-empty list a positive bonus never above its cap, and n * step below the cap |
| Enrichment.CountBonusMonotone | scripts/research-contact-enrichment.py:720-729 | a longer list never earns a smaller bonus |
| Enrichment.InfluenceNeverCapped | scripts/research-contact-enrichment.py:709-731 | the four caps add up to exactly 1, so the final `min` never cuts |
| Enrichment.InfluenceMonotone | scripts/research-contact-enrichment.py:720-729 | more mentions, publications or talks never lower influence |
| Enrichment.InfluenceMaximum | scripts/research-contact-enrichment.py:709-731 | influence reaches 1 exactly for a senior position with at least 3 mentions, 4 publications and 2 talks |
| Enrichment.CollaborationWithoutSentiment | scripts/research-contact-enrichment.py:737-754 | without positive sentiment the collaboration potential is at most 0.6 |
| Enrichment.Contributing | scripts/research-contact-enrichment.py:799-886 | the contributing sources of a list, in order, without repeats |
| Enrichment.SourceOrderComplete | scripts/research-contact-enrichment.py:799-886 | the six sources in append order are distinct and complete |
| Enrichment.DataSources | scripts/research-contact-enrichment.py:787-886 | at most six distinct sources, each present exactly when it contributes |
| Enrichment.ResearchConfidence | scripts/research-contact-enrichment.py:173 | the confidence lies in [0, 1]; it stays 0 if a step raised, else it is the number of sources over 6 |
| Enrichment.AllContributing | scripts/research-contact-enrichment.py:799-886 | every source of a list is kept exactly when all of them contribute |
| Enrichment.FullConfidence | scripts/research-contact-enrichment.py:787-894 | confidence 1 exactly when every switch is on, Hunter.io is configured, there is an organisation, LinkedIn finds a profile, news is found, one of the first two pages answers, and nothing raises |
| Enrichment.EverySourceContributes | scripts/research-contact-enrichment.py:799-886 | without a raise, all six contribute exactly under those same conditions |
| Enrichment.EmailFindingAlwaysCounts | scripts/research-contact-enrichment.py:789-799 | e-mail finding counts as a source whatever it found, so the confidence is at least 1/6 |
| Enrichment.RaiseZeroesConfidence | scripts/research-contact-enrichment.py:887-894 | an exception in the AI step leaves the confidence 0 although sources were recorded |
| Enrichment.ConfidenceScores | scripts/research-contact-enrichment.py:791-793 | the confidence map has exactly the found addresses as keys |
| Enrichment.ConfidenceOfLastOccurrence | scripts/research-contact-enrichment.py:793 | the confidence recorded for an address is one it was found with |
| Enrichment.VerifiedEmails | scripts/research-contact-enrichment.py:796-797 | exactly the found addresses that pass the MX check |
| Enrichment.RecordedEmailsAgree | scripts/research-contact-enrichment.py:791-797 | the confidence map covers exactly the found addresses, and every verified address is among them |
| Consolidation.SectorLabelIsListed | scripts/consolidate-youth-justice-contacts.py:94 | each sector key, '_' spaced and title-cased, is its label ("ngo" becomes "Ngo") |
| Consolidation.StandardizeSector | scripts/consolidate-youth-justice-contacts.py:78-96 | the sector is a label of the table, and "Other" exactly when no keyword matches |
| Consolidation.StandardizeSectorFirstMatch | scripts/consolidate-youth-justice-contacts.py:90-94 | the sector of the first matching group in declaration order wins |
| Consolidation.NeverUpperNgo | scripts/consolidate-youth-justice-contacts.py:94 | the upper-case spelling "NGO" is never a sector |
| Consolidation.RelevanceScore | scripts/consolidate-youth-justice-contacts.py:98-134 | relevance is 10 exactly when a high keyword occurs, 7 exactly for a medium one without a high one, 5 exactly for a low one alone; otherwise 6 exactly for Legal or Government and 4 exactly for Academic or Media |
| Consolidation.KeywordTiersOutrankSectors | scripts/consolidate-youth-justice-contacts.py:110-134 | relevance is at least 7 exactly when a high or medium keyword occurs, and never below 3 |
| Consolidation.NegationMentionsIndicator | scripts/consolidate-youth-justice-contacts.py:146-155 | both negations contain the indicator "indigenous" |
| Consolidation.AsWrittenNeverNo | scripts/consolidate-youth-justice-contacts.py:136-157 | the affiliation test as written never answers "No" |
| Consolidation.AsWrittenNonIndigenousIsYes | scripts/consolidate-youth-justice-contacts.py:146-151 | "non-indigenous" is reported as "Yes" |
| Consolidation.DetectIndigenousAffiliationAsWritten | scripts/consolidate-youth-justice-contacts.py:136-157 | as written, "Yes" exactly when the text is non-empty and mentions an indicator |
| Consolidation.DetectIndigenousAffiliation | scripts/consolidate-youth-justice-contacts.py:136-157 | corrected: "No" exactly for a negation, "Yes" exactly for an indicator without one, "Unknown" for empty text |
| Consolidation.AffiliationAgreesWithoutNegation | scripts/consolidate-youth-justice-contacts.py:136-157 | the two versions agree on every text without a negation |
| Consolidation.MatchingGroups | scripts/consolidate-youth-justice-contacts.py:174-183 | the matching groups in declaration order, each group exactly when it has a keyword in the text |
| Consolidation.SubsequenceOfDistinctIsDistinct | scripts/consolidate-youth-justice-contacts.py:174-183 | an order-preserving selection from distinct names has no repeats |
| Consolidation.YouthJusticeFocus | scripts/consolidate-youth-justice-contacts.py:159-188 | "General" exactly when no focus area matches |
| Consolidation.FocusNamesAreLong | scripts/consolidate-youth-justice-contacts.py:162-172 | every focus name has at least ten characters |
| Consolidation.FocusNamesDistinct | scripts/consolidate-youth-justice-contacts.py:162-172 | the focus names are pairwise different |
| Consolidation.FocusAreasDistinct | scripts/consolidate-youth-justice-contacts.py:174-188 | each focus area is listed at most once and comes from the table |
| Consolidation.JoinStartsWithFirst | scripts/consolidate-youth-justice-contacts.py:186 | a join is at least as long as its first part |
| Consolidation.JoinNotGeneral | scripts/consolidate-youth-justice-contacts.py:186-188 | no join of focus names spells "General" |
| Consolidation.AsWrittenNgoIsLow | scripts/consolidate-youth-justice-contacts.py:204-213 | a relevance-3 "Ngo" contact is Low as written, Medium once corrected |
| Consolidation.EngagementPriorityAsWritten | scripts/consolidate-youth-justice-contacts.py:204-213 | as written, High exactly for relevance 8 or more, Legal, Government or "Yes"; Low exactly when nothing else applies, with the sector compared against "NGO" |
| Consolidation.EngagementPriority | scripts/consolidate-youth-justice-contacts.py:190-213 | corrected: High iff relevance 8 or more, Legal, Government or Indigenous; Low iff none of the Medium conditions either |
| Consolidation.EngagementPriorityMonotone | scripts/consolidate-youth-justice-contacts.py:204-213 | a higher relevance never lowers the priority |
| Consolidation.PriorityDiffersOnlyOnNgo | scripts/consolidate-youth-justice-contacts.py:204-213 | the two versions agree for every sector other than "Ngo" |
| Consolidation.MediaReach | scripts/consolidate-youth-justice-contacts.py:215-243 | National exactly for a national outlet; State exactly for a capital-city outlet that is not national; Local exactly for a remaining contact whose sector is Media; otherwise Unknown |
| Consolidation.OnlyMediaMentionsMedia | scripts/consolidate-youth-justice-contacts.py:240 | of the sector names only "Media" contains "media", so the Local test is the Media sector |
| Consolidation.StateFromLocation | scripts/consolidate-youth-justice-contacts.py:620-641 | the code of the first state, in mapping order, with an indicator in the location, or "" |
| Consolidation.StateFromText | scripts/consolidate-youth-justice-contacts.py:643-658 | "" exactly for empty text or no pattern; otherwise the first three letters, upper-cased, of a pattern that occurs |
| Consolidation.AbbreviationFound | scripts/consolidate-youth-justice-contacts.py:648-656 | the first abbreviation that occurs, with none before it, is returned upper-cased |
| Consolidation.WalesReadsAsWesternAustralia | scripts/consolidate-youth-justice-contacts.py:648-656 | a text naming New South Wales only in full yields "WA", because "wales" contains "wa" |
| Consolidation.StatePatternsStartWithLetters | scripts/consolidate-youth-justice-contacts.py:647-656 | every pattern starts with lower-case letters |
| Consolidation.WordRun | scripts/consolidate-youth-justice-contacts.py:664 | the greedy run of word characters |
| Consolidation.FirstHandleAt | scripts/consolidate-youth-justice-contacts.py:664 | the leftmost handle position |
| Consolidation.HandleFrom | scripts/consolidate-youth-justice-contacts.py:664 | a handle is '@' and a maximal run of word characters, found in the text |
| Consolidation.TwitterHandle | scripts/consolidate-youth-justice-contacts.py:660-668 | "" exactly when no handle occurs, else the leftmost match |
| Consolidation.TwitterHandleShape | scripts/consolidate-youth-justice-contacts.py:660-668 | a handle is a part of the contact information made of '@' and word characters |
| Consolidation.EmailAddressGivesHandle | scripts/consolidate-youth-justice-contacts.py:664-666 | an e-mail address yields its domain's first word as a handle |
| Consolidation.NoHandleInLocalPart | scripts/consolidate-youth-justice-contacts.py:664 | no handle starts inside an '@'-free local part |
| Consolidation.HandleAfterLocalPart | scripts/consolidate-youth-justice-contacts.py:664 | the handle at the '@' of an address is '@' and the domain's first word |
| Consolidation.FirstHandleAtSkips | scripts/consolidate-youth-justice-contacts.py:664 | the first handle is the one with none before it |
| MasterList.RemoveDuplicates | scripts/consolidate-youth-justice-contacts.py:670-697 | distinct (name, organisation) keys, the same key set, and contacts of the input in input order |
| MasterList.FirstContactKept | scripts/consolidate-youth-justice-contacts.py:684-695 | the first contact of every key is kept |
| MasterList.RemoveDuplicatesIdempotent | scripts/consolidate-youth-justice-contacts.py:670-697 | removing duplicates twice changes nothing |
| MasterList.DistinctContactsUnchanged | scripts/consolidate-youth-justice-contacts.py:670-697 | a list with distinct keys passes through unchanged |
| MasterList.Ties | scripts/consolidate-youth-justice-contacts.py:725 | the contacts sharing a sort key, in order |
| MasterList.Insert | scripts/consolidate-youth-justice-contacts.py:725 | insertion adds one element |
| MasterList.SortByRelevance | scripts/consolidate-youth-justice-contacts.py:725 | the sort keeps the length |
| MasterList.SortsBeforeIrreflexive | scripts/consolidate-youth-justice-contacts.py:725 | no contact sorts before itself |
| MasterList.SortsBeforeTransitive | scripts/consolidate-youth-justice-contacts.py:725 | the sort order is transitive |
| MasterList.SortsBeforeTotal | scripts/consolidate-youth-justice-contacts.py:725 | of two contacts one sorts first unless their keys are equal |
| MasterList.PrependSorted | scripts/consolidate-youth-justice-contacts.py:725 | a head that sorts no later than the list keeps it sorted |
| MasterList.InsertSorted | scripts/consolidate-youth-justice-contacts.py:725 | insertion into a sorted list keeps it sorted and adds exactly the element |
| MasterList.ConsSorted | scripts/consolidate-youth-justice-contacts.py:725 | a head that nothing later sorts before keeps the list sorted |
| MasterList.SortByRelevanceSorted | scripts/consolidate-youth-justice-contacts.py:725 | the result is ordered by relevance descending then name, and is a permutation of the input |
| MasterList.InsertTies | scripts/consolidate-youth-justice-contacts.py:725 | an inserted contact goes first among its ties |
| MasterList.SortByRelevanceStable | scripts/consolidate-youth-justice-contacts.py:725 | the sort is stable: contacts with equal keys keep their input order |
| MasterList.Consolidate | scripts/consolidate-youth-justice-contacts.py:722-725 | the master list is sorted, has distinct keys, loses no key and invents no contact |
| EmailContacts.LastTld | scripts/process-new-email-contacts.py:144 | the backtracking point of the regex: the last '.' followed by two letters, or none |
| EmailContacts.MatchBounds | scripts/process-new-email-contacts.py:144 | the bounds of the match at one '@' |
| EmailContacts.MatchAt | scripts/process-new-email-contacts.py:144 | a match around an '@' is address-shaped and part of the text |
| EmailContacts.SliceIsAddress | scripts/process-new-email-contacts.py:144 | local characters, '@' and domain characters with a '.' make an address |
| EmailContacts.ShapeOfParts | scripts/process-new-email-contacts.py:144 | the parts of a match make an address |
| EmailContacts.SearchFrom | scripts/process-new-email-contacts.py:144 | `re.search` finds the leftmost match, or none when no '@' yields one |
| EmailContacts.SearchFindsAddress | scripts/process-new-email-contacts.py:144-146 | what the search finds is an address-shaped part of the text |
| EmailContacts.FindEmail | scripts/process-new-email-contacts.py:141-146 | a found address is part of the item; an item without '@' yields nothing |
| EmailContacts.MatchedItems | scripts/process-new-email-contacts.py:138-146 | only address-shaped matches |
| EmailContacts.MatchedItemsFromItems | scripts/process-new-email-contacts.py:140-146 | every address comes from the match of one stripped item |
| EmailContacts.ParseEmailList | scripts/process-new-email-contacts.py:133-148 | exactly the matched addresses, once each |
| EmailContacts.MatchedItemsAppend | scripts/process-new-email-contacts.py:140-146 | items are matched independently |
| EmailContacts.NoAtNoMatch | scripts/process-new-email-contacts.py:144-146 | an item without '@' contributes nothing |
| EmailContacts.ItemWithoutAtDropped | scripts/process-new-email-contacts.py:140-146 | an item without '@' is dropped wherever it stands |
| EmailContacts.NewProfile | scripts/process-new-email-contacts.py:47-89 | a new profile has the dataclass defaults |
| EmailContacts.DomainOf | scripts/process-new-email-contacts.py:156 | the domain holds no '@', and is empty for text without '@' |
| EmailContacts.LocalOf | scripts/process-new-email-contacts.py:159 | the local part is the text before the first '@' |
| EmailContacts.NameOf | scripts/process-new-email-contacts.py:162-170 | an undotted local part is the name and the first name |
| EmailContacts.SectorOf | scripts/process-new-email-contacts.py:173-178 | "Private/Other" exactly when no pattern is in the domain, else a listed sector |
| EmailContacts.OrganizationOf | scripts/process-new-email-contacts.py:187-190 | the title-cased first label of a domain with a '.', else "" |
| EmailContacts.ExtractBasicInfo | scripts/process-new-email-contacts.py:150-192 | the domain, sector and Indigenous flag are derived from the address; the other fields keep their defaults |
| EmailContacts.ParsedAddressParts | scripts/process-new-email-contacts.py:156-190 | for a parsed address, domain and local part are the text after and before its '@' |
| EmailContacts.DomainOfAddress | scripts/process-new-email-contacts.py:156 | the domain of `local@domain` is `domain` |
| EmailContacts.GovernmentDomain | scripts/process-new-email-contacts.py:103-115 | any `.gov.au` domain is Government |
| EmailContacts.LocalOfAddress | scripts/process-new-email-contacts.py:159 | the local part of `local@domain` is `local` |
| EmailContacts.NameOfDotted | scripts/process-new-email-contacts.py:162-167 | `first.last` names "First Last" |
| EmailContacts.DottedLocalPart | scripts/process-new-email-contacts.py:159-167 | an address `first.last@domain` names "First Last" |
| EmailContacts.UndottedLocalPart | scripts/process-new-email-contacts.py:168-170 | an undotted local part is the name and first name; the last name stays empty |
| EmailContacts.FirstLinkedinAt | scripts/process-new-email-contacts.py:272 | the leftmost LinkedIn match position |
| EmailContacts.LinkedinFrom | scripts/process-new-email-contacts.py:272 | the match is the prefix, in any case, and a maximal slug |
| EmailContacts.LinkedinMatch | scripts/process-new-email-contacts.py:272-274 | no match exactly when no position matches; a match is part of the text |
| EmailContacts.Summary | scripts/process-new-email-contacts.py:277 | at most 503 characters: the text itself up to 500, else its first 500 and "..." |
| EmailContacts.Grade | scripts/process-new-email-contacts.py:280-292 | High exactly from three keywords, Low exactly from none |
| EmailContacts.ResearchGrade | scripts/process-new-email-contacts.py:280-292 | Low exactly when no justice keyword occurs |
| EmailContacts.ParseResearchResponse | scripts/process-new-email-contacts.py:267-299 | only URL, summary, relevance and the flag change; the URL gets "https://"; the Indigenous flag is only ever set |
| EmailContacts.GradeMonotone | scripts/process-new-email-contacts.py:280-292 | more research text never lowers the grade |
| EmailContacts.ResearchKeepsIndigenous | scripts/process-new-email-contacts.py:295-297 | research never clears the Indigenous flag |
| EmailContacts.ResearchContactAi | scripts/process-new-email-contacts.py:194-232 | unchanged without a Perplexity key or without research text; parsed and High with research text; Low when the reply's content is not a string; High only from research text |
| EmailContacts.OpenAiKeyAloneChangesNothing | scripts/process-new-email-contacts.py:196-221 | with only an OpenAI key the profile is unchanged |
| EmailContacts.KeyIndex | scripts/process-new-email-contacts.py:305-360 | the first entry with the key |
| EmailContacts.Lookup | scripts/process-new-email-contacts.py:305-360 | `dict.get` gives the first entry's value, or the default |
| EmailContacts.LookupWithin | scripts/process-new-email-contacts.py:305-360 | a lookup stays within the table's bounds |
| EmailContacts.InfluenceScore | scripts/process-new-email-contacts.py:305-317 | influence in [2, 5] |
| EmailContacts.AlignmentScore | scripts/process-new-email-contacts.py:320-327 | alignment in [2, 5] |
| EmailContacts.AccessibilityScore | scripts/process-new-email-contacts.py:330-338 | raises exactly for a whitespace-only sector; else in [2, 4] |
| EmailContacts.NetworkScore | scripts/process-new-email-contacts.py:351-360 | network in [2, 5] |
| EmailContacts.PriorityOf | scripts/process-new-email-contacts.py:363-374 | High from 20, Medium from 15, else Low |
| EmailContacts.StrategyOf | scripts/process-new-email-contacts.py:377-384 | the strategy text for each sector |
| EmailContacts.CalculateStrategicScores | scripts/process-new-email-contacts.py:301-386 | every score in range, total in [10, 24], priority by the thresholds, nothing else changed |
| EmailContacts.Scored | scripts/process-new-email-contacts.py:305-384 | the scored profile, given its accessibility |
| EmailContacts.ExtractedProfilesScore | scripts/process-new-email-contacts.py:173-178 | every profile built from an address can be scored |
| EmailContacts.SectorNotBlank | scripts/process-new-email-contacts.py:103-115 | no assigned sector starts with whitespace |
| EmailContacts.InternationalAccessibility | scripts/process-new-email-contacts.py:330-338 | "International Organization" gets accessibility 3, not the listed 2 |
| EmailContacts.InternationalFirstWord | scripts/process-new-email-contacts.py:330-338 | a sector starting "International " is looked up by that word |
| EmailContacts.InternationalFirstWordUnlisted | scripts/process-new-email-contacts.py:330-338 | "International" is not in the accessibility table |
| EmailContacts.AccessibilityOfOneWord | scripts/process-new-email-contacts.py:330-338 | a one-word sector is looked up whole |
| EmailContacts.AccessibilityOfTwoWords | scripts/process-new-email-contacts.py:330-338 | `w rest` is looked up by `w` |
| EmailContacts.MediumRelevanceLowersNgoAlignment | scripts/process-new-email-contacts.py:320-327 | for justice NGOs, Medium research lowers alignment from 4 to 3 |
| EmailContacts.LinkedinNeverLowersPriority | scripts/process-new-email-contacts.py:351-374 | a profile whose sector is empty or not all whitespace is scored, and adding a LinkedIn URL to it never lowers its priority |
| EmailContacts.PrivateNeverHigh | scripts/process-new-email-contacts.py:301-374 | a Private/Other contact totals at most 16 and is never High |
| EmailContacts.PrivateAccessibility | scripts/process-new-email-contacts.py:330-338 | "Private/Other" is looked up whole |
| EmailContacts.PrivateOtherTables | scripts/process-new-email-contacts.py:305-360 | "Private/Other" gets the defaults |
| EmailContacts.PrivateUnlisted | scripts/process-new-email-contacts.py:330-338 | "Private/Other" is not in the accessibility table |
| EmailContacts.IntText | scripts/process-new-email-contacts.py:446 | a number's text is non-empty |
| EmailContacts.ProfileRow | scripts/process-new-email-contacts.py:446 | the row of a profile carries its e-mail |
| EmailContacts.ProfileFrame | scripts/process-new-email-contacts.py:446-447 | one row per profile, with an email column when there is a profile |
| EmailContacts.MergeContacts | scripts/process-new-email-contacts.py:443-459 | raises exactly without an email column; else unique e-mails, no key lost, no row invented |
| EmailContacts.StackedRows | scripts/process-new-email-contacts.py:449-453 | existing rows first, then the new ones |
| EmailContacts.ProfileEmailKey | scripts/process-new-email-contacts.py:446-456 | a profile row's key is its e-mail |
| EmailContacts.NewProfileSupersedes | scripts/process-new-email-contacts.py:449-456 | a new profile survives the merge |
| EmailContacts.UntouchedRowKept | scripts/process-new-email-contacts.py:449-456 | an existing row no new profile shares its e-mail with survives |
| Agents.NewAgent | infrastructure/agents/python/shared/base_agent.py:60-68 | a fresh agent is INITIALISING with zero metrics |
| Agents.Initialize | infrastructure/agents/python/shared/base_agent.py:74-81 | READY after setup, else ERROR and the exception re-raised |
| Agents.Start | infrastructure/agents/python/shared/base_agent.py:85-96 | initialises unless READY, RUNNING during the run, ERROR if it raises |
| Agents.Stop | infrastructure/agents/python/shared/base_agent.py:102-109 | STOPPED after cleanup, else ERROR |
| Agents.ProcessMessage | infrastructure/agents/python/shared/base_agent.py:123-159 | one more message, one more error iff the handler raised, success iff it did not, the conversation echoed |
| Agents.HealthCheck | infrastructure/agents/python/shared/base_agent.py:168-180 | healthy iff READY or RUNNING |
| Agents.CountersAgreePreserved | infrastructure/agents/python/shared/base_agent.py:124-146 | errors never outnumber messages |
| Agents.Failures | infrastructure/agents/python/shared/base_agent.py:145-146 | at most one failure per handler |
| Agents.SessionCounters | infrastructure/agents/python/shared/base_agent.py:124-146 | over a session, messages count every call, errors count the raising handlers, the status never moves |
| Agents.ProcessAll | infrastructure/agents/python/shared/base_agent.py:123-159 | a run of messages never moves the status and keeps errors within messages |
| Agents.StartFromReadySkipsSetup | infrastructure/agents/python/shared/base_agent.py:85-86 | a READY agent starts without setup |
| Agents.HealthFollowsLifecycle | infrastructure/agents/python/shared/base_agent.py:60-109 | a fresh agent is unhealthy until initialised |
| Agents.StoppedAgentStillAnswers | infrastructure/agents/python/shared/base_agent.py:111-143 | messages are processed whatever the status |
| StrategicAdvisor.NewAdvisor | infrastructure/agents/python/agents/strategic_advisor.py:30-38 | a new advisor has no clients |
| StrategicAdvisor.Setup | infrastructure/agents/python/agents/strategic_advisor.py:50-62 | a client per key; raises iff no client exists |
| StrategicAdvisor.InitializeAdvisor | infrastructure/agents/python/agents/strategic_advisor.py:50-62 | READY iff a client exists |
| StrategicAdvisor.FreshSetupNeedsAKey | infrastructure/agents/python/agents/strategic_advisor.py:55-62 | a fresh setup raises iff neither key is configured |
| StrategicAdvisor.Route | infrastructure/agents/python/agents/strategic_advisor.py:96-111 | the first keyword pair found picks the handler; general iff none |
| StrategicAdvisor.StrategyWins | infrastructure/agents/python/agents/strategic_advisor.py:100-101 | a message mentioning strategy goes to the strategic handler |
| StrategicAdvisor.CallText | infrastructure/agents/python/agents/strategic_advisor.py:288-317 | a failed call returns the apology |
| StrategicAdvisor.ProviderOf | infrastructure/agents/python/agents/strategic_advisor.py:126-131 | Anthropic first, then OpenAI, else none |
| StrategicAdvisor.HandleMessage | infrastructure/agents/python/agents/strategic_advisor.py:96-286 | the topic's type, with the preferred provider's text or the fixed reply |
| StrategicAdvisor.AdvisorMessagesSucceed | infrastructure/agents/python/agents/strategic_advisor.py:288-317 | every advisor message succeeds |
| StrategicAdvisor.InitializedAdvisorHasProvider | infrastructure/agents/python/agents/strategic_advisor.py:55-62 | after initialisation a provider exists |
| StrategicAdvisor.CustomHealth | infrastructure/agents/python/agents/strategic_advisor.py:332-347 | ready iff a client exists; the seven capabilities |
| StrategicAdvisor.ReadyAdvisorIsReadyForAnalysis | infrastructure/agents/python/agents/strategic_advisor.py:336-345 | an initialised advisor is ready and healthy |
| NotionRelations.RelationOf | tools/development/check_notion_relations.py:49-56 | two-way iff the synced name is truthy |
| NotionRelations.AnalyzeRelations | tools/development/check_notion_relations.py:43-59 | raises exactly when a property lacks a type |
| NotionRelations.AnalyzedEntries | tools/development/check_notion_relations.py:47-57 | one entry per relation property |
| NotionRelations.AnalyzeConcat | tools/development/check_notion_relations.py:47-59 | entries keep the properties' order |
| NotionRelations.NoRelationProperties | tools/development/check_notion_relations.py:47-59 | no relation properties, no entries |
| NotionRelations.NamesById | tools/development/check_notion_relations.py:69 | the inverted map; a later name wins |
| NotionRelations.DatabaseIdsInvert | tools/development/check_notion_relations.py:17-23 | inverting DATABASES loses no name |
| NotionRelations.DatabaseNamesKnown | tools/development/check_notion_relations.py:17-23 | no database is called "Unknown" |
| NotionRelations.RelatedName | tools/development/check_notion_relations.py:128-129 | an unknown id resolves to "Unknown" |
| NotionRelations.ActualNames | tools/development/check_notion_relations.py:127-131 | the resolved names, "Unknown" dropped |
| NotionRelations.Missing | tools/development/check_notion_relations.py:137 | expected minus actual |
| NotionRelations.MissingFor | tools/development/check_notion_relations.py:123-139 | a database without analysed relations misses everything expected |
| NotionRelations.RelationCovers | tools/development/check_notion_relations.py:127-139 | a relation to a known id covers that name |
| NotionRelations.RelationCoversDatabase | tools/development/check_notion_relations.py:127-139 | a relation to a listed database covers it |
| SpaRoute.FindAny | tools/servers/static/serve-react.py:10 | the first query or fragment delimiter |
| SpaRoute.Basename | tools/servers/static/serve-react.py:14 | the text after the last '/' |
| SpaRoute.SchemeLength | tools/servers/static/serve-react.py:10 | the scheme `urlparse` recognises |
| SpaRoute.CutParams | tools/servers/static/serve-react.py:10-11 | the path is cut at the first ';' after the last '/' and kept whole when the last segment has none |
| SpaRoute.DirLength | tools/servers/static/serve-react.py:10-11 | the directory part ends where the basename begins |
| SpaRoute.CutParamsKeepsDirectories | tools/servers/static/serve-react.py:10-11 | cutting parameters keeps the directories and leaves no ';' in the basename |
| SpaRoute.ParamsCutFromLastSegment | tools/servers/static/serve-react.py:10-11 | `dir/name;params` has path `dir/name`, whatever ';' the directories hold |
| SpaRoute.ParamsInDirectoryFallsBack | tools/servers/static/serve-react.py:10-19 | `dir/name;params` with no '.' in name is rewritten to "/index.html" |
| SpaRoute.PathBounds | tools/servers/static/serve-react.py:10-11 | the path ends at '?', '#' or the end |
| SpaRoute.PathEnd | tools/servers/static/serve-react.py:10-11 | the bounds found by the delimiter search |
| SpaRoute.PathBetween | tools/servers/static/serve-react.py:10-11 | the path holds no '?' or '#' |
| SpaRoute.PrefixOfPiece | tools/servers/static/serve-react.py:10-11 | a prefix of a clean piece is clean |
| SpaRoute.UrlPath | tools/servers/static/serve-react.py:10-11 | the path is a piece of the target without '?' or '#', and with no ';' in its last segment when the scheme takes parameters |
| SpaRoute.Rewrite | tools/servers/static/serve-react.py:10-19 | a target is kept iff its basename has a '.', else "/index.html" |
| SpaRoute.PlainPath | tools/servers/static/serve-react.py:10-11 | a plain path is its own path |
| SpaRoute.TopLevelFileServed | tools/servers/static/serve-react.py:14-15 | a top-level file is served as requested |
| SpaRoute.IndexHtmlServed | tools/servers/static/serve-react.py:18 | "/index.html" is a file request |
| SpaRoute.RewriteIdempotent | tools/servers/static/serve-react.py:14-19 | rewriting is idempotent |
| SpaRoute.BasenameAfterSlash | tools/servers/static/serve-react.py:14 | the basename of `dir/name` is `name` |
| SpaRoute.DottedDirectoryFallsBack | tools/servers/static/serve-react.py:14-19 | a dot in a directory still rewrites |
| SpaRoute.OriginFormBounds | tools/servers/static/serve-react.py:10-11 | an origin-form path has no scheme or netloc |
| SpaRoute.SamePath | tools/servers/static/serve-react.py:10-11 | the same path text gives the same path |
| SpaRoute.QueryIgnored | tools/servers/static/serve-react.py:10-11 | a query string never changes the decision |
| SpaRoute.FragmentIgnored | tools/servers/static/serve-react.py:10-11 | a fragment never changes the decision |
| SpaRoute.TailIgnored | tools/servers/static/serve-react.py:10-11 | nothing after '?' or '#' is path |
| SpaRoute.FindAnyBefore | tools/servers/static/serve-react.py:10-11 | the search finds the first delimiter |

## Left out

- File, CSV and network I/O: pandas reading and writing, checkpoints, backups, reports, `.env.research`, the JSON files of the cache (a map instead), the Notion HTTP request (`None` stands for a failed fetch) and the static file serving itself (only the path rewrite is modelled).
- Network oracles: Hunter.io, LinkedIn, Perplexity, OpenAI, Anthropic, page scraping and the DNS MX lookup (`verify_email_domain`) are parameters — answers, or functions from domain or address to result.
- Sentiment analysis: TextBlob/NLTK is an optional real given as a field.
- Clocks, sleeps, uuid and dates are parameters; `date_added` and timestamps in metadata are not modelled.
- MD5 hashing of cache keys: the cache is keyed by the already-hashed key.
- Floating point: scores are exact `real`s, so rounding in `0.1 * n` and in the weighted composite is not modelled.
- Unicode: `str.lower`, `.title()`, `\w` and `\s` are modelled on ASCII only.
- `list(set(emails))` in `parse_email_list`: set iteration order is not modelled; the model keeps first-occurrence order, and the contract speaks only of membership and distinctness.
- `EmailFinder.PatternEntries`: the order in which `list(set(patterns))` lists the patterns is fixed by CPython's string hashing; it is a parameter, constrained only to list each distinct pattern once, so which five patterns are tried is not determined.
- `EmailContacts.ResearchContactAi`: a cancellation raised out of `asyncio.sleep(self.research_delay)` (a `BaseException`, not an `Exception`) propagates to the caller and is not modelled.
- `ContactTable.CleanAndDeduplicate`: the row kept among duplicates depends on pandas' unstable sort by the constant completeness; the chosen arrangement is a parameter constrained only to be a permutation.
- `urlparse`: removal of whitespace and control characters, validation of bracketed hosts and the rules of Python before 3.9 are not modelled; a target it rejects is `None`.
- Fields of `ContactProfile`, `ContactEnrichment` and the agent messages that no modelled operation reads, and every metadata dictionary.
- `NewsResearcher`, `generate_engagement_strategy`, the dashboard, `train_ml_model`, report generation, logging and the `main` entry points.
- `serve-static.py`, `models.py` and `shared/__init__.py`: no logic beyond serving, containers and re-exports.
- `RateLimiter`: no "at most N per trailing window" property, because the recorded time is the pre-wait reading (see above).
- `Strings.FirstWordChars`: only the first word of a split is characterised, since the domain generator uses only that word.
- `EmailContacts.NameOf`: the dotted case is stated through `EmailContacts.NameOfDotted` for parts without '.', '_' or '-'; longer splits are computed but not characterised.
- `StrategicAdvisor.HandleMessage`: the prompts and metadata other than the type are left out.

## Findings

| source | as written | input that shows it | evidently intended | confidence | as-written member | corrected member |
|---|---|---|---|---|---|---|
| scripts/consolidate-youth-justice-contacts.py:210 | the Medium rule tests `sector in ['Media', 'Academic', 'NGO']`, but `standardize_sector` spells the sector "Ngo" (line 94) | organisation "foundation": sector "Ngo", relevance 3, affiliation "Unknown" gives "Low" | an NGO contact is a Medium priority | high, not executed | Consolidation.EngagementPriorityAsWritten (Consolidation.AsWrittenNgoIsLow) | Consolidation.EngagementPriority |
| scripts/consolidate-youth-justice-contacts.py:146-155 | the indicator test runs before the negation test, and "indigenous" is itself an indicator contained in both negations | "non-indigenous" gives "Yes" | an explicit negation answers "No" | high, not executed | Consolidation.DetectIndigenousAffiliationAsWritten (Consolidation.AsWrittenNeverNo, Consolidation.AsWrittenNonIndigenousIsYes) | Consolidation.DetectIndigenousAffiliation |
