# Stockic news services: a verified model

The repository is a set of Go services around a news feed. `feed-curator` fetches articles page by
page, filters and normalises them, and publishes two Redis values. `feed-api` serves pages and single
articles from those values, counts accesses in Redis and drains the counters into an object store,
which `log-redis-pusher` does as well. `actions` keeps bookmarks and Notion credentials in one Firestore
document per user. `feed-api` and `actions` validate API keys against one shared cache. This project
models those parts in Dafny and proves what holds over all inputs, all runs and all interleavings.

`dafny verify dfyconfig.toml` checks everything.

| file | what it models |
|---|---|
| `CounterKeys.dfy` | the Redis key of an access counter, how a drainer reads it back, object names |
| `DrainProtocol.dfy` | requests, INCR goroutines and both drainers as atomic steps, with a ledger of every increment |
| `DrainDelivery.dfy` | conservation, exact delivery, losses and progress of that protocol |
| `DrainProgress.dfy` | that it can come to rest from every reachable state |
| `DrainWitness.dfy` | a run of it that loses a count although no call fails |
| `DrainCycle.dfy` | one tick of the drain loop as imperative code, under arbitrary interference |
| `Detail.dfy` | the detail request, from path to spawned increment |
| `UserCache.dfy`, `UserValidator.dfy` | cache-aside validation of API keys: the protocol, and the code under interference |
| `Pagination.dfy`, `Fetcher.dfy` | slicing a list into pages with 64-bit integers, and the loops that put pages together again |
| `Highlights.dfy` | the highlight scanner as written and as meant |
| `Summarizer.dfy` | the two summarizers, the second with Go slices that share backing arrays |
| `Publication.dfy` | lookup by ID, listings, and a lookup that overlaps publications |
| `Bookmarks.dfy`, `NotionSession.dfy` | the user document and the Notion sign-in |
| `SharedRedis.dfy` | one Redis database with the keys of every service |
| `Schedule.dfy` | the days the curator covers |

How to read it:

- A protocol is a `State`, a `Label` for each atomic step with its outcome, `Enabled` and `Apply`;
  `Legal` and `Exec` run a sequence of labels. A theorem over `labels` is one over every interleaving
  and every pattern of failures. The methods that model handlers and loops take the outcomes of their
  calls, and what others do between two calls, as parameters, and are proved to be runs of the protocol.
- In the drain protocol the counters, drainers and objects hold plain numbers. The ledger says, next to
  them, where each single increment is; `Inv` ties every number to the increments that lie there.
- Redis, Firestore, the object store and the news API are present as the effect of each call and its
  failures. SHA-256 is an arbitrary function.

What the proofs found, where the code does not do what one would expect of it:

- An API key that holds a slash is credited to the part before the slash (`CounterKeyRoundTrip`). This is
  a fact about the format of the keys: a request is served only once its API key has passed validation,
  and whether a key with a slash can name a document of the users collection is up to Firestore.
- Counts are lost by a rejected PUT of a group that holds some, by a lost reply to the GETDEL of a live
  counter, by a PUT that replaces an object that holds some, and by nothing else but a failed INCR:
  `LosslessRun` and `ExactDelivery` are exact for each (news, user), and `PutLoses` says how much a PUT
  loses. A PUT replaces an object only when two names were taken for one user in one second
  (`FaultFreeIsLossless`), whenever the PUTs themselves arrive; `RaceLoses` is such a run.
- `PaginateArticles` serves a wrong page or panics exactly when `(page-1)*pageSize` overflows and does
  not wrap past the end of the list (`PaginateIsPageIff`, `OverflowWitness`).
- A total that the news API reports too high keeps the curator in its fetch loop for ever, and one that is
  too low cuts the list off (`ClaimedTotalIff`). Against any server the loop never ends if and only if
  from some page on the server sends nothing and claims more than it has sent (`NeverEndsIff`).
- `FindHighlightIndexes` adds the number of spans found so far where the offset at which the scan
  resumed is meant. `WrittenIsMeantIff` gives the inputs on which that makes no difference and
  `WrittenInsideIff` those on which every span at least lies in the content. The scan as
  meant is defined for non-empty highlights only, since it would not move past an empty one; the code as
  written terminates on those too.
- The discover summarizer is right for every order of its categories only if there is at most one category
  or nothing to list (`RightForAllOrdersIff`): categories visited after a non-empty one list its articles.
- An article that is stored all the time can be missed by a detail request, but only if two publications
  fall between its two reads: headlines gain it, then discover loses it (`MissIff`, `MissHappens`).
- The ID is a hash of unseparated fields: without hash collisions it tells the published articles apart if
  and only if those with the same concatenation have fields of the same widths (`IdsTellApartIff`).
- The Notion callback uses its `state` parameter as a Redis key as it is. The deployed configuration
  (docker-internals/actions.env:1-7) keeps sessions in one database with cached statuses and blocked
  addresses, so a state of the form of their keys can resolve to what is stored there, and the credentials
  go to a document of that name. `OwnerIff` is exact: the write is to the session's user if and only if
  the state is not a live key of another kind. All other reads ask for keys of their own kind and are not
  affected (`OwnKindIsPrivate`), which is why the other modules model only their own keys.
- The fallback of a failed bookmark update and the Notion callback drop the rest of the user's document,
  the premium status included (`PremiumKeptIff`).
- The comment at feed-api/services/services.go:155 says that the drain runs every minute and the code says
  30 seconds; periods play no part in the proofs.

## Model

| member | source | states |
|---|---|---|
| CounterKeys.JoinOfSplit | feed-api/services/services.go:181 | splitting a key loses nothing: joining the parts gives it back |
| CounterKeys.ParseOfCounterKey | feed-api/services/services.go:181-187 | a drainer reads the news ID and the API key's part before its first slash out of the key a request built, and KEYS lists that key |
| CounterKeys.CounterKeyRoundTrip | feed-api/handlers/handlers.go:220 | the key round-trips if and only if the API key holds no slash |
| CounterKeys.CounterKeyInjective | feed-api/handlers/handlers.go:191-220 | two requests share a counter only for the same news item and API key |
| CounterKeys.ObjectNameInjective | feed-api/services/services.go:207-208 | object names are equal only for the same user and the same second |
| DrainProtocol.StepKeepsInv | feed-api/services/services.go:167-233 | every step of a request, a goroutine or a drainer, with every failure, keeps each stored number equal to the increments that lie there |
| DrainProtocol.RunKeepsInv | log-redis-pusher/services/services.go:42-114 | the same over every interleaved run |
| DrainDelivery.ShelfTotal | feed-api/services/services.go:202 | the records grouped for a user total the increments drained into them, per news item |
| DrainDelivery.StoredTotal | feed-api/services/services.go:206-226 | the records of the stored objects total the increments delivered to them |
| DrainDelivery.Conservation | feed-api/services/services.go:167-233 | increments issued for a (news, user) = pending + counted in Redis + held by either drainer + stored + lost to each kind of fault |
| DrainDelivery.RunConservation | feed-api/handlers/handlers.go:217-230 | the same equation for the requests served, in every reachable state |
| DrainDelivery.ExactDelivery | log-redis-pusher/services/services.go:50-112 | at quiescence the stored counts of a (news, user) are the requests served less those lost, and equal the requests if and only if no step of the run loses counts of the pair |
| DrainDelivery.ExactDeliveryByKey | log-redis-pusher/services/services.go:62-83 | in every run, a slash-free key is credited with the requests made with it and with keys that go on after it with a slash, less those lost, and with exactly those if and only if no step loses counts of the pair |
| DrainDelivery.LosslessRun | feed-api/services/services.go:189-230 | a run loses an increment of a (news, user) if and only if one of its steps is a failed INCR of theirs, a lost reply for their live counter, a rejected PUT of a group or a PUT over an object with records of theirs |
| DrainDelivery.FaultFreeIsLossless | feed-api/services/services.go:207-208 | no failed INCR, lost reply or rejected PUT and no two names for one user in one second: nothing is lost |
| DrainWitness.RaceLoses | feed-api/services/services.go:206-226 | for every slash-free news item and user, a run of both drainers without a failing call that serves two requests and stores one |
| DrainDelivery.PutLoses | feed-api/services/services.go:207-230 | a PUT under a used name loses exactly the counts of the object it replaces, a rejected PUT those of its group |
| DrainDelivery.StepAdvances | feed-api/services/services.go:189-226 | an increment only moves forward, so it is drained once and stored once even when both drainers listed its key |
| DrainDelivery.CycleDrainsSnapshot | feed-api/services/services.go:167-203 | one cycle takes out of Redis every increment its KEYS call saw, whatever the others do, unless the GETDEL of its own key failed |
| DrainProgress.CanComeToRest | feed-api/services/services.go:159-235 | from every reachable state some run without new requests or faults, and without a name of a given set, empties the counters and both drainers |
| DrainProgress.RestDelivers | log-redis-pusher/services/services.go:50-112 | where nothing of a (news, user) is lost so far and no held name is in use, such a run delivers every request of the pair that was served |
| DrainCycle.DrainKeys | feed-api/services/services.go:178-203 | the loop over the listed keys, under interference, is a run whose GETDELs end as given for each key and whose results grouped by user are groupedLogs |
| DrainCycle.UploadGroups | feed-api/services/services.go:206-233 | the loop over groupedLogs, in any order, is a run that makes the PUT of every group, each ending as given for its user |
| DrainCycle.UploadGroup | feed-api/services/services.go:207-230 | the name is taken first, others can act before the PUT under it, and a PUT the store accepts leaves the group stored under the user and a second of the upload |
| DrainCycle.SyncCycle | log-redis-pusher/services/services.go:42-114 | one tick is a run of the protocol whose calls end as given, so without a fault where none is given; it ends with nothing in hand and everything its KEYS call saw drained, but for the keys whose own GETDEL failed |
| DrainCycle.World.Keys | feed-api/services/services.go:167 | KEYS lists each matching counter once and no other |
| DrainCycle.World.GetDel | feed-api/services/services.go:189-194 | GETDEL returns the count and deletes it, or fails with or without the deletion |
| DrainCycle.World.Interfere | feed-api/main.go:19 | the steps of the other drainer and the goroutines that are enabled, and no others, happen and leave a drainer's own loop alone |
| Detail.NewsIDIsLast | feed-api/handlers/handlers.go:185-191 | the news ID is what follows the last slash of the path |
| Detail.DetailHandler | feed-api/handlers/handlers.go:179-235 | 405, 400, 500 and 404 each under its condition, else 200, with one increment left for the counter of that news item and API key; so for the route's path with an ID, 200 exactly when the two values have that ID |
| UserCache.StepKeepsFresh | feed-api/services/services.go:37-152 | every cached status and every one about to be cached is the status at a recorded moment, and expires within 24 h and the fill delay of it |
| UserCache.HistoryIsTheRun | feed-api/services/services.go:37-106 | the recorded moments are the states of the run |
| UserCache.BoundedStaleness | feed-api/services/services.go:38-41 | a hit returns the Firestore status at some moment less than 24 h and the fill delay ago |
| UserCache.HitsConverge | actions/services/services.go:35-38 | once a user's status has been the same for that long, every hit returns it |
| UserCache.StepKeepsConsistent | actions/services/services.go:34-149 | while no document changes, each step keeps the cache and every request in agreement with Firestore |
| UserCache.CachedRefinesDirect | actions/services/services.go:34-103 | while no document changes, a request is answered what Firestore says, or (false, false) exactly when its own read failed |
| UserCache.FilledHitsIff | feed-api/services/services.go:37-41 | once a status is cached, and until it is evicted or filled again, a lookup that reaches Redis returns it if and only if 24 hours are not over |
| UserValidator.Backend.ValidateUserAPIKey | feed-api/services/services.go:37-106 | the code, under interference, is a run of the protocol whose own calls are a lookup, on a miss a read, and after an answered read a fill; it answers the unexpired entry, else what Firestore says, else (false, false) |
| UserValidator.Backend.GetCachedUserStatus | feed-api/services/services.go:108-129 | the status of the unexpired entry if Redis answers, else an error that counts as a miss |
| UserValidator.Backend.CacheUserStatus | feed-api/services/services.go:131-152 | a fill that Redis accepts leaves the status that was read in the cache for 24 h; one that fails leaves the cache as it was |
| Pagination.PaginateIsPageIff | feed-api/services/services.go:265-286 | 64-bit pagination returns the promised page if and only if (page-1)*pageSize does not overflow or wraps past the list |
| Pagination.StartBounds | feed-api/services/services.go:266-267 | on the non-empty branch the end of the page does not overflow |
| Pagination.OverflowWitness | feed-api/services/services.go:266-284 | a page number that serves page 1 again and one that panics |
| Pagination.PagesPartition | feed-api/handlers/handlers.go:81-109 | pages 1 to ceil(n/k) give the list back; all but the last are full, the last is not empty, later ones are |
| Pagination.EachOnOnePage | feed-api/handlers/handlers.go:81-109 | position i is at place i mod k of page i/k+1 and on no other page |
| Pagination.HeadlinesIsFirstPage | feed-api/handlers/handlers.go:60 | the headlines view is page 1, the first pageSize articles |
| Fetcher.FetchPages | feed-curator/fetcher/fetcher.go:76-93 | the loop, for any server on which it ends, ends with the first page that stops it and returns the pages up to it |
| Fetcher.FetchAll | feed-curator/fetcher/fetcher.go:67-104 | each name gets its own articles, and their number as TotalResults |
| Fetcher.FetchUndoesPaginate | feed-curator/fetcher/fetcher.go:76-100 | against a paging server: max(1, ceil(n/k)) calls and the list in order, or exactly the pages before the failing call |
| Fetcher.NeverEndsIff | feed-curator/fetcher/fetcher.go:119-134 | for every server with bounded totals the loop never ends if and only if from some page on the server sends nothing and claims more than it has sent |
| Fetcher.ClaimedTotalIff | feed-curator/fetcher/fetcher.go:76-93 | for a server that pages a fixed list and claims a total, the loop ends if and only if the total is not more than the list has, after max(1, ceil(total/k)) calls and with their pages |
| Fetcher.CooperativeTerminates | feed-curator/fetcher/fetcher.go:119-134 | how soon: within the bound on totals when no page but the stopping one is empty |
| Fetcher.EmptyPagesNeverStop | feed-curator/fetcher/fetcher.go:119-134 | a server that claims one article and sends none is never done with |
| Highlights.FindHighlightIndexes | feed-curator/utils/utils.go:102-119 | the code terminates in range on every input and computes WrittenAll |
| Highlights.Index | feed-curator/utils/utils.go:108 | strings.Index: the first occurrence, or -1 when there is none |
| Highlights.WrittenShape | feed-curator/utils/utils.go:105-117 | each span is as wide as a highlight, and there are at most len(content)+len(highlights) |
| Highlights.WrittenInsideIff | feed-curator/utils/utils.go:108-114 | every span lies in the content if and only if after the first occurrence of each highlight there is room for as many bytes as spans came before; so always with one highlight |
| Highlights.Outside | feed-curator/utils/utils.go:112-113 | content ab with highlights a and b is reported at 0 and 2 |
| Highlights.MeantIffGreedy | feed-curator/utils/utils.go:105-117 | the repaired scan reports the greedy leftmost non-overlapping occurrences, which are unique |
| Highlights.WrittenIsMeantIff | feed-curator/utils/utils.go:112 | the code reports what is meant if and only if at most one highlight occurs, and it does not occur again after its first occurrence or is one byte whose occurrences but the last are the start of the content |
| Highlights.Divergence | feed-curator/utils/utils.go:112 | content abcabc with highlight abc is reported at 0 and 1 instead of 0 and 3 |
| Summarizer.CuratedIsCuration | feed-curator/summarizer/summarizer.go:192-241 | the published list shows, in order, exactly the articles with an image: title, link, date and content as they are, author and source with their defaults, the picture but for one newspaper, and the hash of the published fields |
| Summarizer.SummarizeCountryCategorizedHeadlines | feed-curator/summarizer/summarizer.go:98-251 | in any order of the map, the list of each country is that curation of its own articles, with their number |
| Summarizer.Append | feed-curator/summarizer/summarizer.go:392 | Go's append: in place while there is capacity, else in a new array; what was there is kept |
| Summarizer.AddCategory | feed-curator/summarizer/summarizer.go:258-400 | appending a category leaves what every stored slice reads as it was |
| Summarizer.SummarizeCategorizedNews | feed-curator/summarizer/summarizer.go:253-403 | at the end each stored slice reads the curation of the articles of its category after those of all visited before it, with their number |
| Summarizer.ChainGrows | feed-curator/summarizer/summarizer.go:256-399 | the stored lists form a prefix chain, and a category's own articles end its list |
| Summarizer.EachItsOwnIff | feed-curator/summarizer/summarizer.go:256-399 | a visit gives every category its own articles if and only if only the last visited has any |
| Summarizer.RightForAllOrdersIff | feed-curator/summarizer/summarizer.go:256-399 | that holds for every order if and only if there is at most one category or none has an article with an image |
| Summarizer.SameIdIff | feed-curator/summarizer/summarizer.go:226-238 | without hash collisions two articles share an ID if and only if their concatenated fields agree, and then are the same if and only if the fields have the same widths |
| Summarizer.CuratedAreStamped | feed-curator/summarizer/summarizer.go:226-241 | every published article carries the hash of its own fields |
| Summarizer.SharedId | feed-curator/summarizer/summarizer.go:379-390 | unseparated fields: two different articles that share an ID under every hash |
| Publication.FindArticleByID | feed-api/services/services.go:237-263 | nothing exactly when neither map has the ID, and an article of the headlines before one of the discover news |
| Publication.LookupIsUnique | feed-api/services/services.go:242-258 | where different articles have different IDs the answer does not depend on map order |
| Publication.IdsTellApartIff | feed-curator/summarizer/summarizer.go:379-390 | for published articles and without hash collisions that is so if and only if articles with the same concatenation have fields of the same widths |
| Publication.ListedIsFound | feed-api/handlers/handlers.go:205 | every article on any page of any listing has an ID that the lookup finds |
| Publication.MissNeedsTwoSets | feed-api/handlers/handlers.go:193-209 | a request that misses a stored article has headlines gain it and discover then lose it between its two reads |
| Publication.MissIff | feed-api/handlers/handlers.go:193-209 | a history has reads that miss an article stored all the while if and only if headlines gain it and discover loses it after that, stored throughout |
| Publication.MissHappens | feed-curator/main.go:138-146 | and then it can be missed although it was stored at every moment |
| Bookmarks.Users.AddBookmark | actions/handlers/handlers.go:36-53 | a merge lists the bookmark and keeps premium status and credentials; on failure overwrite the document, or fail; no other user's document changes |
| Bookmarks.Users.RemoveBookmark | actions/handlers/handlers.go:93-105 | removes every copy and keeps premium status and credentials, or fails and changes nothing |
| Bookmarks.Users.ListBookmarks | actions/handlers/handlers.go:134-171 | the strings of the array in order, with the two error cases |
| Bookmarks.ListingIsOrderedSet | actions/handlers/handlers.go:145-165 | over whole runs with any failures and from any document, listing returns what nothing has cleared of the start and then without duplicates exactly the other bookmarks present, by the event that last made each present; the field is no array only if it was none and nothing happened |
| Bookmarks.FaultFreeHistory | actions/handlers/handlers.go:38-43 | without failures and callbacks those events are the adds and removes themselves |
| Bookmarks.OnlySinceOverwrite | actions/handlers/handlers.go:46-48 | only operations since the last whole-document overwrite count |
| Bookmarks.PremiumKeptIff | actions/handlers/handlers.go:317-319 | the premium status survives a run if and only if nothing overwrote the document |
| Bookmarks.CredentialsAfter | actions/handlers/handlers.go:317-319 | over whole runs the Notion credentials are those of the start if nothing overwrote the document, those of the last callback if that did so last, and gone if the fallback of an add did |
| SharedRedis.KindsAreDisjoint | actions/utils/utils.go:48-58 | session tokens, status keys, addresses, counters and the two news keys never coincide |
| SharedRedis.GetIff | actions/services/services.go:113-142 | a GET returns a value exactly when the last write under the key is of that value and has not expired |
| SharedRedis.LivesFor | actions/config/config.go:33-39 | a value is found for 15 minutes as a session, 24 hours as a status and one hour as a blocked address |
| SharedRedis.OwnKindIsPrivate | feed-api/services/services.go:145 | a service that reads keys of its own form gets what a database of its own would return |
| SharedRedis.ReadIsOwnIff | actions/handlers/handlers.go:308 | a read of any key does so if and only if it finds nothing or the key does not have another kind's form |
| SharedRedis.AlwaysOwnIff | actions/handlers/handlers.go:308 | over all states and times that is so if and only if the key does not have another kind's form |
| NotionSession.OwnerIff | actions/handlers/handlers.go:308 | a callback's state resolves exactly to the user of the last session stored under it within 15 minutes, if and only if it is not a live key of another kind |
| NotionSession.ForeignStates | actions/handlers/handlers.go:308-319 | a cached status and a blocked address each resolve to the text stored there, without any session |
| NotionSession.GenerateSessionKey | actions/utils/utils.go:48-58 | 32 letters and digits, the ones drawn, or an error if a draw fails |
| NotionSession.CharsDiffer | actions/config/config.go:40 | the 62 draws stand for 62 different characters |
| NotionSession.Service.CreateAuthSession | actions/handlers/handlers.go:196-241 | stores the session under the token, or under the empty one with a 404 when none could be generated |
| NotionSession.Service.Callback | actions/handlers/handlers.go:291-322 | writes the credentials to what the shared database has under the state and to nothing else; 500 without an answer from Notion, 401 for one that does not decode or a state that is not found |
| Schedule.MidnightIsNext | feed-curator/main.go:148-155 | a round sleeps to the first midnight to come |
| Schedule.DaysIncrease | feed-curator/main.go:72-75 | discovery days strictly increase: at most one discovery per day |
| Schedule.CoverageIff | feed-curator/main.go:148-155 | over infinite runs no day is left out if and only if each round's yesterday is at most one day after the today before it |
| Schedule.TwoDaysApart | feed-curator/main.go:72-73 | with both dates taken on one day: if and only if discovery days are at most two apart |

## Left out

- The network: clients of Redis, Firestore, the object store, the news API, Notion and the AI services appear only as the effects and failures of their calls.
- JSON: values are modelled decoded; a value that does not decode is a miss in the cache and an empty map in the lookup.
- SHA-256 and hex: the ID is an arbitrary function of the concatenated fields.
- Which keys collide: an address that could not be read from the connection, which would be the empty string, is taken not to be stored as blocked.
- The blocked-IP check and the fallback handler: an easy lookup with no property beyond its body.
- Timers: ticks and the endless loops are runs of any length; the periods of 30 seconds and 30 minutes do not matter. The curator's loop is modelled by the times of its rounds, not as a method, since it never returns.
- Process crashes: a drainer that dies between a GETDEL and its PUT is not a step of the protocol; it would lose what a rejected PUT loses.
- Log records carry a timestamp that the model leaves out, and time of day and time zones are whole seconds and days.
- DrainDelivery.RunConservation: starts with an empty log Redis and bucket; counters left by an earlier deployment are not in the ledger.
- DrainDelivery.ExactDelivery: the same start.
- DrainDelivery.ExactDeliveryByKey: the same start.
- DrainProgress.CanComeToRest: says that such a run exists; the goroutine that ticks is not shown to be scheduled.
- Pagination.PaginateIsPageIff: lists longer than 2^62 articles are not covered, because there the end of a page can overflow as well.
- ExtractPoints, RemoveDuplicates and RemoveHashPrefix: easy helpers whose only callers are commented out.
- The handlers of the three listings: their parsing of paths and numbers appears as the guard Accepted only.
