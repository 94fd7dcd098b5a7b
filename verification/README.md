# McDonald's Kuala Lumpur outlet assistant — a Dafny model

This project models the rule-based core of the outlet assistant in Dafny and
proves what that core promises.

The assistant answers chat questions about McDonald's outlets in Kuala Lumpur:

- It normalises the user's text and extracts places, services, times and numbers.
- It scores four intents by fixed additive weights.
- It builds a parameterised outlet query.
- It ranks the returned outlets with a stable sort.
- It phrases a reply with suggested follow-up actions.

The model also covers two pure pieces of the data-collection scripts:

- the derivation of a perk code from a perk's display name, with the
  get-or-create and link steps of the perk tables;
- `clean_address`, which builds the geocoding address of an outlet.

Modules follow the program's structure:

| module | file | models |
|---|---|---|
| `Results` | results.dfy | `Option` and `Result` |
| `Text` | text.dfy | Python string primitives: `lower`, `upper`, `strip`, `split`, `join`, `in`, run replacement |
| `Digits` | digits.dfy | decimal formatting of counts |
| `TextProcessor` | text_processor.dfy | `normalize_text`, `extract_keywords`, `calculate_similarity` |
| `Sorting` | sorting.dfy | Python's stable `sort(key, reverse=True)` as an insertion sort |
| `KnowledgeBase` | knowledge_base.dfy | the alias and service tables, `search_knowledge` |
| `Entities` | entities.dfy | the regular expressions and `_extract_entities` |
| `Repr` | repr.dfy | Python `repr` of a list of strings, as printed in the reasoning |
| `Intents` | intent.dfy | `_reason_about_intent` |
| `SqlQuery` | sql_query.dfy | `_generate_sql_query` |
| `Ranking` | ranking.dfy | `_rank_outlets_by_relevance` |
| `Responses` | responses.dfy | `_format_outlet_perks`, `_generate_response` |
| `Pipeline` | pipeline.dfy | `process_query` |
| `Perks` | perks.dfy | perk codes, `get_or_create_perk`, `link_outlet_perks`, the perk-text filter |
| `CleanAddress` | clean_address.dfy | `clean_address` |

Scores are exact `real`s.

Storage is a function parameter (`Pipeline.Fetch`). It takes the generated
query and returns outlet rows or an error message, standing in for every
exception the database side can raise. The one exception the code itself
raises is modelled too: `int()` refuses a digit string of more than 4300
digits (Python's default limit on integer string conversion), so a query
holding such a number makes `_extract_entities` fail, and `process_query`
answers with the apology before storage is asked.

Characters follow Python's rules where the program depends on them:

- whitespace is exactly `str.isspace`;
- `\w`, `\d`, letter case and `re.IGNORECASE` are restricted to ASCII;
- `repr` escapes the characters `str.isprintable` rejects, as `Repr.Unprintable` lists them, except the unassigned code points.

Behaviours of the code that a quick reading misses are modelled as written:

- Services are detected by raw substring tests on the lower-cased query, so
  `car` fires on "card".
- Time references come back grouped by pattern, and the clock pattern
  captures only the digits.
- In the place pattern, `\s+` followed by a lazy `[a-z\s]+?` can hand a single
  whitespace character to the group: the last one `\s+` gives back, or, when
  that fails and three or more were taken, the one before it. The extractor's
  `strip` then discards it.
- The ranker tests perk codes as substrings of the comma-joined code string.
- `clean_address`'s keyword is not a whole word ("Lotus …," is cut too), and
  the lazy prefix does not cross a newline.

Three details of the code read differently from what one might expect. The
model follows the code in each:

- **Service search scores.** A service's score counts the query's keywords
  that are among the service's keywords, repetitions included
  (main.py:223-228). It does not count the distinct service keywords that
  occur, so a repeated query word scores twice.
- **Intent ties.** `max` over the score dictionary returns the intent scored
  first (main.py:335), not the first in the intents' declared order.
  `Intents.NoTies` proves that two scored intents never tie, so the two
  readings never differ.
- **Perk conditions in the query.** Every perk code of every detected service
  goes into a single OR-group (main.py:356-366), not one group per service.

## Model

| member | source | states |
|---|---|---|
| `TextProcessor.Punct` | main.py:91 | every character that is neither a word character (`_` included) nor whitespace becomes a space; all others are kept in place |
| `TextProcessor.Normalize` | main.py:88-93 | normalised text holds only lower-case word characters and single spaces, with no whitespace at either end and no two whitespace characters together |
| `TextProcessor.NormalizeIdempotent` | main.py:88-93 | normalising normalised text changes nothing |
| `TextProcessor.NormalFixed` | main.py:88-93 | any text already in normal shape is its own normalisation |
| `TextProcessor.TokensRejoin` | main.py:107 | joining the tokens of normalised text with single spaces gives the normalised text back |
| `TextProcessor.ExtractKeywords` | main.py:96-109 | the keywords are exactly the tokens that are not stop words and are longer than two characters, each with its multiplicity, in token order |
| `TextProcessor.KeywordsShape` | main.py:96-109 | no keyword is a stop word or has two characters or fewer, and every keyword is lower-case word characters |
| `TextProcessor.Jaccard` | main.py:117-123 | the ratio lies in [0, 1], is 0 when either set is empty, and is 1 exactly when two non-empty sets are equal |
| `TextProcessor.Similarity` | main.py:112-123 | similarity lies in [0, 1], is 0 when either text has no keyword, and is 1 exactly when both keyword sets are equal and non-empty |
| `TextProcessor.SimilaritySymmetric` | main.py:112-123 | similarity does not depend on the order of the two texts |
| `KnowledgeBase.Alias` | main.py:130-139 | a known short name maps to its full place name; any other place is kept as given |
| `KnowledgeBase.FindService` | main.py:140-186 | a service is found by its key exactly when the table has that key |
| `KnowledgeBase.Hits` | main.py:223-225 | at most one hit per query keyword, and some hit exactly when a query keyword is one of the service's keywords |
| `KnowledgeBase.ServiceScore` | main.py:222-228 | a service's score lies in [0, 1] and is positive exactly when a query keyword is one of its keywords |
| `KnowledgeBase.Candidates` | main.py:221-231 | the candidates are exactly the services with a positive score, paired with that score |
| `KnowledgeBase.CandidatesInOrder` | main.py:221-231 | candidates come in service-table order |
| `KnowledgeBase.SearchKnowledge` | main.py:216-233 | the result is a permutation of the candidates, sorted by non-increasing score, every score in (0, 1] |
| `KnowledgeBase.SearchMembership` | main.py:216-233 | a service is in the result exactly when one of the query's keywords is one of its keywords |
| `KnowledgeBase.SearchTiesInTableOrder` | main.py:233 | services with equal scores keep table order |
| `KnowledgeBase.ShortKeywordsNeverScore` | main.py:108 | the service keywords `24` and `dt` never score, because no extracted keyword is that short |
| `Entities.FirstAlternative` | main.py:260-261 | the first alternative, in pattern order, that occurs at the position and ends at a word boundary, or none when no alternative does |
| `Entities.PrepositionAt` | main.py:259 | the preposition found is one of `in`, `at`, `near`, `around` that occurs at the position, and none is found only when none occurs there |
| `Entities.PlaceAfterCapture` | main.py:259 | a capture of the place pattern is a run of lower-case letters, or one whitespace character given back by `\s+` |
| `Entities.FindAllFromCaptures` | main.py:264-281 | a property of every capture found at any position holds of every item of `findall` |
| `Entities.NearPlaceLocations` | main.py:259-266 | every kept capture of the place pattern is a non-empty run of lower-case letters |
| `Entities.PhraseLocations` | main.py:260-266 | every kept capture of a place-list pattern is one of the listed places |
| `Entities.LocationsShape` | main.py:258-266 | every extracted location is a lower-case word or one of the listed places |
| `Entities.DetectServices` | main.py:268-273 | the detected services are exactly those with a keyword that is a substring of the text, in table order |
| `Entities.ServicesOnce` | main.py:268-273 | no service is detected twice |
| `Entities.TimesShape` | main.py:275-278 | every time reference is one or two digits or one of the four day parts |
| `Entities.IntegerCaptures` | main.py:280 | every number match is a digit string |
| `Entities.Values` | main.py:281 | each number is the value of its digit string, in order |
| `Entities.LimitMessage` | main.py:281 | the conversion error opens with Python's "Exceeds the limit (4300 digits) for integer string conversion" message |
| `Entities.Numbers` | main.py:281 | the conversion succeeds exactly when no digit string is longer than 4300 digits, and then gives each value in order; otherwise it fails with the message for the first string that is too long |
| `Entities.Recognised` | main.py:249-283 | services appear exactly when one of their keywords occurs in the lower-cased text, in table order; no location is empty |
| `Entities.ExtractEntities` | main.py:249-283 | extraction succeeds exactly when every number of the text has at most 4300 digits, and then returns what `Recognised` finds; otherwise it fails with the message for a number that is too long |
| `Entities.EmptyTextNoEntities` | main.py:249-283 | extraction from empty text succeeds with four empty lists |
| `Repr.ReprChar` | main.py:299-315 | a character is written as itself exactly when it is not a backslash, not the quote and not unprintable (control, whitespace other than the space, format, private-use or noncharacter); otherwise it becomes an escape |
| `Repr.StrRepr` | main.py:299-315 | a string's `repr` is at least two longer than the string and is enclosed in matching quotes |
| `Repr.PlainRepr` | main.py:299-315 | a string without quote, backslash or unprintable characters is shown between single quotes unchanged |
| `Repr.ListReprPair` | main.py:299-315 | a pair is shown as the two items' reprs, comma-separated, in brackets |
| `Repr.HexRoundTrip` | main.py:299-315 | the hexadecimal escape of a character code reads back as that code |
| `Repr.PairRepr` | main.py:299-315 | a two-element list of plain strings is shown as `['a', 'b']` |
| `Repr.ListRepr` | main.py:299-315 | a list is shown between brackets, and `[]` appears exactly for the empty list |
| `Intents.IntentName` | main.py:292-330 | every intent has a non-empty key |
| `Intents.IntentNameInjective` | main.py:292-330 | distinct intents have distinct keys |
| `Intents.SignalsOf` | main.py:297-330 | the service, location and time signals hold exactly when the corresponding entity lists are non-empty |
| `Intents.Rules` | main.py:297-330 | every rule that fires adds a positive weight to an intent other than `error` |
| `Intents.TotalPositive` | main.py:288-333 | an intent's total is positive exactly when some fired rule votes for it |
| `Intents.Totals` | main.py:297-330 | each intent's total is the sum of its rules' weights, as in the source: service 0.8 + 0.6 + 0.3, location 0.5 + 0.5, navigation 0.7, general 0.4 |
| `Intents.FirstSeen` | main.py:288-335 | the intents with a score, each once, in the order they were first scored |
| `Intents.FirstMax` | main.py:335 | the first intent, in first-scored order, whose total no other intent exceeds |
| `Intents.CapAtOne` | main.py:336 | confidence never exceeds one and equals the total whenever the total does not |
| `Intents.NoTies` | main.py:335 | two different intents that both scored never have equal totals, so the tie-break of `max` never matters |
| `Intents.Classify` | main.py:285-339 | any list-all phrase gives (`general_info`, 0.9); otherwise no fired rule gives (`general_info`, 0.3); otherwise the intent has the highest total, confidence is that total capped at one, and the reasoning is the steps joined by a vertical bar between spaces |
| `Intents.ClassifyUnique` | main.py:335-339 | every other intent that scored has a strictly lower total than the chosen one |
| `Intents.ServicesMeanInquiry` | main.py:297-339 | a detected service, with no list-all phrase, always yields `service_inquiry` |
| `Intents.NavigationWins` | main.py:322-339 | a navigation phrase with no entities and no inquiry phrase yields `navigation` with confidence 0.7 |
| `SqlQuery.LocationParams` | main.py:368-373 | one `%place%` pattern per location, in order, with short names replaced by their full name |
| `SqlQuery.GenerateWith` | main.py:341-383 | the parameters are the perk codes followed by the locations' `LIKE` patterns; the query text is the base query, then the grouping, and has no `WHERE` exactly when there is no condition |
| `SqlQuery.Generate` | main.py:341-383 | over the fixed service table, there is one parameter per perk code and per location, and the text starts with the base query and ends with the grouping |
| `SqlQuery.PlaceholdersMatchParams` | main.py:353-373 | the conditions hold one test for each parameter |
| `SqlQuery.SqlPlaceholdersMatchParams` | main.py:353-381 | every `%` in the query text begins a `%s` placeholder, and the text holds exactly as many of them as there are parameters |
| `SqlQuery.RenderPlaceholders` | main.py:375-379 | the rendered text holds one `%s` per test of its conditions and no other `%` |
| `SqlQuery.ConditionPlaceholders` | main.py:362-373 | an OR-group of tests holds one `%s` per test and no other `%` |
| `SqlQuery.JoinPlaceholders` | main.py:362-376 | joining texts with a separator free of `%` adds up their placeholders and adds no stray `%` |
| `SqlQuery.WhereIffConstrained` | main.py:356-378 | there is a condition exactly when some perk code or some location is present |
| `SqlQuery.PerkParamsOneEach` | main.py:356-366 | with one code per service, the perk parameters are each listed service's code, in order |
| `SqlQuery.UnknownServiceIgnored` | main.py:359 | a service that is not in the table adds no parameter |
| `SqlQuery.DetectedServicesParams` | main.py:356-366 | every detected service contributes exactly one perk code |
| `Sorting.Insert` | main.py:417 | inserting into a list sorted by non-increasing score keeps it sorted and adds exactly the new item |
| `Sorting.SortDesc` | main.py:417 | sorting gives a permutation of the input in non-increasing score order |
| `Sorting.InsertWithScore` | main.py:417 | inserting an item adds it to the front of its own score's items and leaves other scores' items alone |
| `Sorting.SortStable` | main.py:417 | for every score, the items with that score keep their input order |
| `Sorting.ItemsSortDesc` | main.py:417-418 | dropping the scores after sorting leaves a permutation of the items |
| `Sorting.SortAllEqual` | main.py:417 | a list whose scores are all equal is left as it is |
| `Ranking.PlaceHits` | main.py:395-398 | at most one hit per location, and some hit exactly when a location occurs in the address, ignoring case |
| `Ranking.ServiceHits` | main.py:400-408 | at most one hit per service |
| `Ranking.Score` | main.py:392-413 | a score is at least 0.5 per matched place plus 0.8 per matched service, and at most the maximum the query allows |
| `Ranking.NameAloneScoresLittle` | main.py:410-413 | an outlet that matches no place and no service scores at most 0.3, and exactly 0.3 only when its name has the query's keyword set |
| `Ranking.MorePlacesScoreHigher` | main.py:395-413 | of two outlets with the same name and perks, the one matching more places scores at least as high |
| `Ranking.Rank` | main.py:385-418 | the ranking is a permutation of the outlets, sorted by non-increasing score; an empty list stays empty |
| `Ranking.RankStable` | main.py:417 | outlets with equal scores keep their order |
| `Responses.Title` | main.py:455 | each character is the same letter as the input's, up to case: letters that start a run of letters are upper-case and other letters lower-case; non-letters are unchanged |
| `Responses.TitleIdempotent` | main.py:455 | title-casing twice is title-casing once |
| `Responses.Unscore` | main.py:455 | underscores become spaces and nothing else changes |
| `Responses.PerkLabelCases` | main.py:432-455 | each of the eleven known codes has its fixed label; any other code is shown with spaces for underscores, in title case |
| `Responses.KnownCodeLabel` | main.py:432-453 | each known code is shown with its own label |
| `Responses.ShownCodes` | main.py:426-431 | the codes shown are the comma pieces, stripped, that are not empty: the same codes as often as they occur, in the order of the list |
| `Responses.ShownCodesEmpty` | main.py:429-431 | no code is shown exactly when every piece is blank |
| `Responses.ShownCodesMembers` | main.py:426-431 | a code is shown exactly when it is a non-empty stripped piece |
| `Responses.PerkLabels` | main.py:429-455 | one label per shown code, position by position: the labels of the non-blank pieces in order |
| `Responses.PerkLabelsMembers` | main.py:429-455 | every non-blank piece has its label shown, and every label shown belongs to a non-blank piece |
| `Responses.FormatPerks` | main.py:420-457 | no codes give no text; a text appears exactly when some comma piece is non-blank, and is then a space and parentheses around the labels joined by `, ` |
| `Responses.OneCodeShown` | main.py:426-457 | a single code is shown as its label in parentheses |
| `Responses.BlankPiecesNoLabels` | main.py:429-431 | blank pieces produce no label |
| `Responses.Plural` | main.py:483-547 | the plural `s` appears exactly when the count is not one |
| `Responses.Counted` | main.py:483-547 | the count is written in decimal before the noun, and the noun is plural unless the count is one |
| `Digits.ValueOfNatToString` | main.py:483 | the decimal text of a count reads back as that count |
| `Digits.NatToStringOfValue` | main.py:483 | a digit string without a leading zero is the decimal text of its value |
| `Responses.OutletEntryParts` | main.py:470-476 | an entry is the bullet and name, then exactly the perks text, then the address after a pin on the next line |
| `Responses.OutletList` | main.py:464-478 | the outlet list is empty exactly when there are no outlets |
| `Responses.OutletListOne` | main.py:468-478 | one outlet is listed as a blank line and its entry |
| `Responses.OutletListCons` | main.py:468-478 | the list is a blank line and the first outlet's entry, followed by the list of the rest |
| `Responses.OutletListAppend` | main.py:468-478 | listing two runs of outlets one after the other is listing them together, so entries keep the ranked order |
| `Responses.EveryOutletListed` | main.py:468-478 | every outlet's entry appears in the list after a blank line |
| `Responses.OutletListStart` | main.py:476-478 | the list opens with a blank line and the first outlet's bullet and name |
| `Responses.Descriptions` | main.py:514-517 | the descriptions of the named services found in the table: none exactly when no name is in the table, each found service's description present, and nothing else |
| `Responses.ServiceReply` | main.py:480-521 | birthday parties, then round-the-clock, then drive-thru have their own openings, checked in that order; other services give the general count of outlets |
| `Responses.LocationReply` | main.py:523-533 | when outlets were found, the reply opens with their count and the noun, plural unless the count is one |
| `Responses.NavigationReply` | main.py:535-543 | when outlets were found, the reply opens with their count and the noun, plural unless the count is one |
| `Responses.GeneralReply` | main.py:545-553 | when outlets were found, the reply opens with their count and the noun, plural unless the count is one |
| `Responses.Respond` | main.py:459-555 | every reply offers at least two actions and ends with the outlet list when there are outlets; each intent gets its own opening |
| `Pipeline.WithUserLocation` | main.py:567-568 | the caller's location is added exactly when the query has no place and the location is a non-empty text; nothing else changes |
| `Pipeline.QueryPlacesWin` | main.py:566-568 | a place in the query makes the caller's location irrelevant |
| `Pipeline.UserLocationQueried` | main.py:566-574 | with no place in the query, the query built for storage ends with the caller's location as its `LIKE` pattern; `ProcessQuery` sends it exactly when extraction succeeds |
| `Pipeline.FailedExtractionAsksNothing` | main.py:565-595 | when extraction fails the answer is `error` and does not depend on storage |
| `Pipeline.Failure` | main.py:589-595 | a failure gives the apology, intent `error`, confidence 0, no outlets or actions, and reasoning that ends with the cause |
| `Pipeline.Success` | main.py:576-587 | a success reports the classified intent, its confidence and reasoning, the rows as `Rank` orders them: every row once, in non-increasing order of relevance score, ties in storage order, the reply that `_generate_response` phrases for that intent over the outlets in that order, and at least two actions |
| `Pipeline.Answer` | main.py:574-595 | a storage failure gives the failure answer; fetched rows give the classified intent (never `error`) and confidence, the rows as `Rank` orders them: every row once, in non-increasing order of relevance score, ties in storage order, and the reply phrased for the intent over them |
| `Pipeline.AnswerExtracted` | main.py:566-595 | after extraction, a storage failure gives the failure answer; otherwise the intent is the classified one and never `error`, confidence is in (0, 1], the outlets are the fetched rows as `Rank` orders them, and the answer is the reply phrased for the classified intent over those outlets |
| `Pipeline.ProcessQuery` | main.py:557-595 | a failed extraction gives the failure answer with its message; after a successful one, a storage failure gives the failure answer; otherwise the intent is the classified one and never `error`, confidence is in (0, 1], the outlets are the fetched rows as `Rank` orders them, and the answer is the reply phrased for the classified intent over those outlets |
| `Pipeline.ListAllAnswered` | main.py:291-295 | a list-all request answered by storage is `general_info` with confidence 0.9, unless extraction failed, when it is `error` with confidence 0 |
| `Perks.DeriveCode` | mcd_kualalumpur.py:63 | a code holds only `A-Z`, `0-9` and `_`, never two underscores together, and is empty exactly when the name is blank |
| `Perks.CodeIgnoresOuterSpace` | mcd_kualalumpur.py:63 | leading and trailing whitespace of a name does not change its code |
| `Perks.CodeIdempotent` | mcd_kualalumpur.py:63 | deriving a code from a code gives the same code |
| `Perks.CodeOfTwoWords` | mcd_kualalumpur.py:63 | two alphanumeric words around one separator give the upper-cased words joined by `_` |
| `Perks.CodeExamples` | mcd_kualalumpur.py:63 | "Drive-Thru" gives `DRIVE_THRU` and "24 Hours" gives `24_HOURS` |
| `Perks.GetOrCreatePerk` | mcd_kualalumpur.py:62-74 | a present code returns its row's id and leaves the table unchanged; otherwise exactly one row (code, stripped name) is added under a fresh id; the table stays consistent |
| `Perks.GetOrCreateTwice` | mcd_kualalumpur.py:62-74 | asking again for the same name changes nothing and returns the same id |
| `Perks.SameCodeSameRow` | mcd_kualalumpur.py:62-74 | two names with the same code share one row |
| `Perks.LinkOutletPerks` | mcd_kualalumpur.py:76-84 | afterwards every (outlet, perk) pair is present, old links are kept, and nothing else is added |
| `Perks.LinkTwice` | mcd_kualalumpur.py:76-84 | linking the same perks again changes nothing |
| `Perks.PerkTexts` | mcd_kualalumpur.py:133-136 | the kept texts are exactly the non-empty ones without `caret` in any case, in document order |
| `CleanAddress.KeywordAt` | outlet_coords.py:39 | `Lot`, `Unit` or `Level` in any letter case is recognised at a position; at most one of them can be |
| `CleanAddress.SegmentAt` | outlet_coords.py:39 | a segment starting at a keyword runs to the next comma and takes the whitespace after it; it needs at least one non-comma character after the keyword |
| `CleanAddress.FindCut` | outlet_coords.py:38-43 | the cut found is at a comma followed by optional whitespace and a segment |
| `CleanAddress.FindCutEarliest` | outlet_coords.py:38-43 | no comma before the one found can start a segment, and no newline lies before it |
| `CleanAddress.FindCutNone` | outlet_coords.py:38-43 | when nothing is cut, no comma on the first line can start a segment |
| `CleanAddress.DropSegment` | outlet_coords.py:38-43 | the text is unchanged without a cut; otherwise exactly the segment is removed and the text before it stays |
| `CleanAddress.OneSegmentDropped` | outlet_coords.py:38-43 | what is removed is the segment at the earliest comma that has one; text before and after it is kept |
| `CleanAddress.TrimDotsCommas` | outlet_coords.py:46 | the result is a prefix without a trailing `.` or `,`, and only dots and commas are removed |
| `CleanAddress.WithCountry` | outlet_coords.py:45-46 | the result ends with `malaysia` in some case; a text already ending so is kept; otherwise trailing dots and commas go and `, Malaysia` is appended |
| `CleanAddress.Clean` | outlet_coords.py:33-47 | a cleaned address always ends with `malaysia` in some case and never has two whitespace characters together |
| `CleanAddress.CountryKeepsSingleSpaces` | outlet_coords.py:44-46 | appending the country keeps whitespace single |

## Left out

- The web application is left out as HTTP plumbing: FastAPI routes, CORS, static files, the health and memory endpoints.
- The MySQL connection and the `GROUP_CONCAT`/`JOIN` semantics are left out. Storage is the `Fetch` parameter, which returns rows or fails.
- Loading the perks table at start-up is left out. Its result is never read by the pipeline.
- Unicode NFKD normalisation is modelled as the identity. Upper and lower case, `\w` and `re.IGNORECASE` act on ASCII letters and digits only, so Python's extra case-insensitive matches of a few non-ASCII letters are not modelled.
- Floating-point rounding is not modelled. Scores and weights are exact reals, so 0.6 + 0.3 is exactly 0.9 here.
- The conversation memory, timestamps, `async` and the unused `intent_weights` table are left out. None of them influences an answer.
- The `intent` parameter of the query builder and the `query` parameter of the reply builder are left out, because the code never reads them.
- Web scraping is left out: Selenium, BeautifulSoup and JSON-LD parsing. The tooltip texts reach the model already extracted and stripped.
- Geocoding requests, the provider fallback chain, the coordinate update loop and the progress display are left out, because they are I/O.
- Missing (NULL) outlet fields are not modelled. Every outlet field is a string, and any crash a missing field would cause is covered by storage failure.
- Database ids are not modelled. A new perk takes the table's next id, standing in for the auto-increment id.
- The knowledge vectors are folded into the service table. Each vector gives every keyword weight 1.0, which is what `ServiceScore` counts.
- `str.title` is modelled on ASCII letters only: a letter is upper-cased when it follows a non-letter.
- Repr.Unprintable: unassigned code points (category Cn) other than the noncharacters count as printable, because which code points are unassigned depends on the Unicode version; Python escapes them. The format characters are those of Unicode 15.0.
- Repr.StrRepr: a string holding unassigned code points is shown with those characters unescaped, where Python writes `\x`, `\u` or `\U` escapes (see `Repr.Unprintable`).
- Repr.PlainRepr: its plain characters include the unassigned code points, which Python would escape (see `Repr.Unprintable`).
- Repr.ReprChar: an unassigned code point other than a noncharacter is written as itself, where Python writes a `\x`, `\u` or `\U` escape; for example U+0378 (see `Repr.Unprintable`).
- Repr.PairRepr: a pair whose strings hold unassigned code points is rendered with those characters raw, where Python escapes them; for example `['\u0378', 'b']` (see `Repr.Unprintable`).
- Entities.IntDigitsLimit: the limit is Python's default of 4300 digits; a program that changes it with `sys.set_int_max_str_digits` or the `PYTHONINTMAXSTRDIGITS` environment variable is not modelled.
- Entities.ClockTimeAt: `\d` matches ASCII digits only, as in `Entities.IntegerAt`; Python's `\d` also matches the other Unicode decimal digits.
- KnowledgeBase.ServiceScore: the contract bounds the score and says when it is positive. It does not restate the exact ratio of hits to query keywords, which is the definition.
- Ranking.ServiceHits: the contract bounds the count but does not say which services hit.
- Responses.Respond: when no outlet was found, the contract promises only at least two suggested actions, not the fixed apology texts.
- CleanAddress.Clean: the contract states the suffix and the single spacing. That the name and the text before the cut are kept is stated by `DropSegment` and `OneSegmentDropped`, not by `Clean` itself.
