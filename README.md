# yachtvault, modelled in Dafny

yachtvault is a superyacht catalogue. It has a Next.js frontend with a paginated yacht list and a picture quiz, and a Next.js backend whose API routes read a Supabase database. This project models the core logic of both halves and proves what that logic promises:

- **Pagination bar** (`PaginationItems`): the list of page buttons and `...` markers, built by a loop. The proofs cover first and last pages, ordering, the window around the current page, where markers appear and what they stand for.
- **Yacht list page** (`YachtList`): `updateSearchParams` as a loop that merges a change into the URL query. Also modelled are the filter handlers, which send the list back to page 1, the page buttons, the builder toggle, the card image fallback and the sort select.
- **Quiz page** (`QuizSession`): score keeping, where replaying the answers yields the count of right answers and the longest streak. The page's state machine is a class, `Quiz`: start, answer once, next question, fetched questions appended.
- **Image carousel** (`ImageCarousel`): circular next/previous indices and the zoom view, with the component's state as a class.
- **Quiz endpoint** (`QuizApi`): reading the parameters, and the generation loop. The loop draws four yachts per round without replacement and builds name or builder questions. It stops at ten rounds or when fewer than four yachts remain, and reports the two errors.
- **Yacht listing endpoint** (`YachtsApi`): parameters and defaults, and the row range of a page. Also the pagination metadata, with `Math.ceil` over JavaScript numbers, including `NaN` and `Infinity` for a zero limit, and the whitelist for the sort parameter.
- **CORS middleware** (`CorsMiddleware`): the allowed origins, the suffix test, and the preflight and pass-through responses.

The helper modules are:
- `Wrappers`: `Option` and `Result`.
- `QueryString`: `URLSearchParams.get` and the `get(...) || default` idiom.
- `Strings`: `endsWith`, and `split` with a one-character separator.

Randomness and parsing are left open:
- Each `Math.random()` call of the quiz endpoint that picks a type or a yacht or builder index becomes the next value of an oracle `rand: nat -> nat`, reduced into range.
- The option shuffle `sort(() => Math.random() - 0.5)` becomes an oracle `shuffle` that may return any permutation. The comparator's own `Math.random()` calls are absorbed by it and do not advance `rand`.
- `parseInt` is an oracle `string -> Option<int>`, where `None` is `NaN`.

The proofs therefore hold for every outcome of these calls.

## Model

| member | source | states |
|---|---|---|
| PaginationItems.Pages | apps/frontend/app/components/YachtList.tsx:73-75 | the pages `lo..hi` in order, one per number, none when `lo > hi` |
| PaginationItems.PageRange | apps/frontend/app/components/YachtList.tsx:59-60 | the window radius is 1 exactly on a narrow screen, 2 otherwise |
| PaginationItems.Items | apps/frontend/app/components/YachtList.tsx:62-85 | the list is empty exactly when there is at most one page, and never holds more than `2r + 5` items |
| PaginationItems.GetPaginationItems | apps/frontend/app/components/YachtList.tsx:56-88 | the loop-built list equals the specification `Items`: first page, optional marker, window, optional marker, last page |
| PaginationItems.Ends | apps/frontend/app/components/YachtList.tsx:62-85 | empty exactly when there is at most one page; otherwise it starts with page 1 and ends with the last page |
| PaginationItems.ItemsAt | apps/frontend/app/components/YachtList.tsx:64-85 | describes each position of the list: page 1, a marker, the window page at that offset, a marker, the last page |
| PaginationItems.OrderedAndInBounds | apps/frontend/app/components/YachtList.tsx:64-85 | page numbers strictly increase and lie in `1..totalPages`, for any current page |
| PaginationItems.WindowShown | apps/frontend/app/components/YachtList.tsx:72-75 | every page in range within `pageRange` of the current page is listed |
| PaginationItems.OnlyWindowAndEnds | apps/frontend/app/components/YachtList.tsx:64-85 | a listed page is the first, the last or within `pageRange` of the current page |
| PaginationItems.WindowAroundMarkers | apps/frontend/app/components/YachtList.tsx:67-80 | with the current page in range, a leading marker means the window starts at 3 or later and a trailing one means it ends before the second-to-last page |
| PaginationItems.EllipsisPlacement | apps/frontend/app/components/YachtList.tsx:67-80 | for a page in range, the second item is a marker iff `page > r + 2` and the second-to-last iff `page < totalPages - r - 1` |
| PaginationItems.MarkersStandForOmittedPages | apps/frontend/app/components/YachtList.tsx:67-80 | each marker sits between two pages with at least one page left out between them |
| PaginationItems.NoSilentGap | apps/frontend/app/components/YachtList.tsx:64-85 | two adjacent page buttons are consecutive pages |
| QueryString.Get | apps/frontend/app/components/YachtList.tsx:139-142 | present exactly when the key is, with its value |
| QueryString.GetOr | apps/frontend/app/components/YachtList.tsx:139-144 | the value when present and non-empty, the default otherwise |
| Numbers.Max | apps/frontend/app/quiz/page.tsx:112 | `Math.max`: at least both arguments, and one of them |
| Numbers.Min | apps/frontend/app/components/YachtList.tsx:73 | `Math.min`: at most both arguments, and one of them |
| YachtList.Merge | apps/frontend/app/components/YachtList.tsx:147-155 | keys with a non-empty value are set to it, keys with an empty value are deleted, all other keys keep presence and value |
| YachtList.UpdateSearchParams | apps/frontend/app/components/YachtList.tsx:147-157 | the loop over the entries produces the query `Merge` describes |
| YachtList.MergeIdempotent | apps/frontend/app/components/YachtList.tsx:147-155 | submitting the same change twice is the same as once |
| YachtList.FilterChanged | apps/frontend/app/components/YachtList.tsx:244-311 | the update a filter input submits always leaves `page` at 1 |
| YachtList.PageChanged | apps/frontend/app/components/YachtList.tsx:200-202 | the page text, when non-empty, becomes `page`; an empty one removes it |
| YachtList.CurrentBuilder | apps/frontend/app/components/YachtList.tsx:142 | the chosen builder, or empty when the parameter is missing or empty |
| YachtList.ToggledBuilder | apps/frontend/app/components/YachtList.tsx:271-272 | the selected builder, or empty (unset) exactly when the selection repeats the current one |
| YachtList.BuilderSelected | apps/frontend/app/components/YachtList.tsx:270-272 | after the selection the page reads the toggled builder |
| YachtList.FilterChangeResetsPage | apps/frontend/app/components/YachtList.tsx:244-311 | a search, length or sort change sets or clears its key, sets `page` to 1 and leaves the other keys alone |
| YachtList.PageChangeKeepsFilters | apps/frontend/app/components/YachtList.tsx:200-202 | a page change sets only `page`; filters and sort stay |
| YachtList.BuilderToggle | apps/frontend/app/components/YachtList.tsx:270-272 | selecting the current builder removes the filter, selecting another sets it, nothing else changes |
| YachtList.SelectBuilderTwice | apps/frontend/app/components/YachtList.tsx:270-272 | choosing a builder and choosing it again restores the query |
| YachtList.FirstImage | apps/frontend/app/components/YachtList.tsx:353 | non-empty: the first picture when there is a non-empty one, the placeholder otherwise |
| YachtList.CardImage | apps/frontend/app/components/YachtList.tsx:354 | the first picture exactly while it is not recorded broken, the placeholder once it is |
| YachtList.ImageFailed | apps/frontend/app/components/YachtList.tsx:366-369 | keeps the earlier entries, adds at most the failed first picture and never the placeholder, makes this card show the placeholder and leaves every card with another first picture as it was |
| YachtList.AppliedSort | apps/frontend/app/components/YachtList.tsx:164 | the sort the endpoint applies to the forwarded query, always on an allowed field |
| YachtList.ShownSortAsWritten | apps/frontend/app/components/YachtList.tsx:143 | the select's value as written: the `sortBy` parameter when non-empty, never empty |
| YachtList.ShownSort | apps/frontend/app/components/YachtList.tsx:143 | the select's value with the endpoint's default: the `sortBy` parameter when non-empty, never empty |
| YachtList.ShownSortDisagreesWhenUnset | apps/frontend/app/components/YachtList.tsx:143 | with no `sortBy`, the select shows year descending while the endpoint sorts by length descending |
| YachtList.ShownSortMatchesApplied | apps/frontend/app/components/YachtList.tsx:310-322 | with the endpoint's default, the option shown is always the field and direction applied |
| ImageCarousel.NextIndex | apps/frontend/app/components/ImageCarousel.tsx:41-43 | the next position in range, wrapping from the last image to the first |
| ImageCarousel.PrevIndex | apps/frontend/app/components/ImageCarousel.tsx:45-47 | the previous position in range, wrapping from the first image to the last |
| ImageCarousel.PrevUndoesNext | apps/frontend/app/components/ImageCarousel.tsx:41-47 | previous after next, and next after previous, return to the same image |
| ImageCarousel.Advance | apps/frontend/app/components/ImageCarousel.tsx:41-43 | repeated next presses stay in range |
| ImageCarousel.AdvanceWithinTurn | apps/frontend/app/components/ImageCarousel.tsx:41-43 | `k <= n` presses from `i` land on `i + k`, wrapped once |
| ImageCarousel.FullTurn | apps/frontend/app/components/ImageCarousel.tsx:41-43 | one press per image comes back to the start |
| ImageCarousel.ZoomNext | apps/frontend/app/components/ImageCarousel.tsx:49-53 | nothing while not zoomed; otherwise the next zoomed image |
| ImageCarousel.ZoomPrev | apps/frontend/app/components/ImageCarousel.tsx:55-59 | nothing while not zoomed; otherwise the previous zoomed image |
| ImageCarousel.Carousel.constructor | apps/frontend/app/components/ImageCarousel.tsx:16-17 | starts on the first image, not zoomed |
| ImageCarousel.Carousel.ImagesChanged | apps/frontend/app/components/ImageCarousel.tsx:33-35 | a new image list goes back to the first image |
| ImageCarousel.Carousel.NextImage | apps/frontend/app/components/ImageCarousel.tsx:41-43 | the shown index becomes `NextIndex`, the rest is unchanged |
| ImageCarousel.Carousel.PrevImage | apps/frontend/app/components/ImageCarousel.tsx:45-47 | the shown index becomes `PrevIndex`, the rest is unchanged |
| ImageCarousel.Carousel.SelectThumbnail | apps/frontend/app/components/ImageCarousel.tsx:131 | shows the clicked thumbnail's image |
| ImageCarousel.Carousel.NextZoomedImage | apps/frontend/app/components/ImageCarousel.tsx:49-53 | steps the zoomed index forward, staying in range, only while zoomed |
| ImageCarousel.Carousel.PrevZoomedImage | apps/frontend/app/components/ImageCarousel.tsx:55-59 | steps the zoomed index back, staying in range, only while zoomed |
| ImageCarousel.Carousel.OpenZoom | apps/frontend/app/components/ImageCarousel.tsx:61-63 | zooms the given image |
| ImageCarousel.Carousel.CloseZoom | apps/frontend/app/components/ImageCarousel.tsx:65-67 | leaves the zoom view |
| QuizSession.Scored | apps/frontend/app/quiz/page.tsx:108-114 | one more answer, one more right only if right, the streak grows or resets, the best streak never falls or lags; keeps `streak <= best <= correct <= total` |
| QuizSession.TrailingRun | apps/frontend/app/quiz/page.tsx:111 | the final run of right answers is no longer than the answers |
| QuizSession.TrailingRunIsLongestSuffix | apps/frontend/app/quiz/page.tsx:111 | the trailing run is all right, and no longer all-right suffix exists |
| QuizSession.ReplayMeaning | apps/frontend/app/quiz/page.tsx:108-114 | from zero stats: `total` counts answers, `correct` counts right ones, `streak` is the trailing run, `bestStreak` is the longest run of right answers anywhere |
| QuizSession.Quiz.CurrentQuestion | apps/frontend/app/quiz/page.tsx:100-101 | the question at the index, absent past the end |
| QuizSession.Quiz.constructor | apps/frontend/app/quiz/page.tsx:51-58 | no questions, index 0, nothing selected, zero stats |
| QuizSession.Quiz.StartQuizAsWritten | apps/frontend/app/quiz/page.tsx:86-89 | clears questions, index and stats; leaves the chosen answer and the shown result as they were |
| QuizSession.Quiz.StartQuiz | apps/frontend/app/quiz/page.tsx:86-89 | the corrected restart: clears questions, index and stats, and also the chosen answer and the shown result |
| QuizSession.Quiz.SelectAnswer | apps/frontend/app/quiz/page.tsx:99-115 | ignored while a result shows or with no question; otherwise records the answer, whether it was right and `Scored` stats |
| QuizSession.Quiz.NextQuestion | apps/frontend/app/quiz/page.tsx:117-127 | clears the selection, advances by one, asks for more exactly when the new index reaches the end |
| QuizSession.Quiz.QuestionsFetched | apps/frontend/app/quiz/page.tsx:75 | appends the fetched questions |
| QuizSession.AnswerTwice | apps/frontend/app/quiz/page.tsx:99-106 | a second answer before moving on changes neither score nor selection |
| QuizSession.RestartWhileResultShown | apps/frontend/app/quiz/page.tsx:86-127 | restarting as written while a result shows: the new first question's answer is ignored and Next moves past it, leaving the score at zero |
| QuizSession.RestartThenAnswer | apps/frontend/app/quiz/page.tsx:86-115 | with the corrected restart, the first answer of the new quiz is shown and scored |
| QuizApi.ParseQuizType | apps/backend/app/api/quiz/route.ts:39 | the type's text is the parameter, or `name` when missing or empty; unknown text is kept |
| QuizApi.QuizTypeRoundTrip | apps/backend/app/api/quiz/route.ts:39 | a type written into the query is read back as itself |
| QuizApi.NonEmptyParam | apps/backend/app/api/quiz/route.ts:40-41 | present exactly when the parameter is non-empty |
| QuizApi.ParseRequest | apps/backend/app/api/quiz/route.ts:39-65 | each length filter applies exactly when its parameter is non-empty, with `parseInt` of it |
| QuizApi.FilterFor | apps/backend/app/api/quiz/route.ts:60-65 | a length filter is applied exactly when the parameter is non-empty, with `parseInt` of it even when that is `NaN` |
| QuizApi.Names | apps/backend/app/api/quiz/route.ts:103 | the drawn yachts' names, position by position |
| QuizApi.WrongBuilders | apps/backend/app/api/quiz/route.ts:118 | every builder but the right one, each as often as listed |
| QuizApi.BuildersFor | apps/backend/app/api/quiz/route.ts:72-77 | the fetched builders for builder and mixed quizzes, none otherwise |
| QuizApi.Emitted | apps/backend/app/api/quiz/route.ts:140-142 | at most one question per round |
| QuizApi.SpliceMultiset | apps/backend/app/api/quiz/route.ts:89 | `splice(i, 1)` removes exactly the element taken |
| QuizApi.DrawFour | apps/backend/app/api/quiz/route.ts:86-93 | four yachts taken from the pool; drawn and remaining together are the pool |
| QuizApi.BuilderOptions | apps/backend/app/api/quiz/route.ts:117-123 | the right builder first and once, then up to three distinct draws from the other builders |
| QuizApi.BuildQuestion | apps/backend/app/api/quiz/route.ts:97-142 | a question exactly when the first yacht has a name (and a builder and three other builders for a builder question), with the options and answer its type requires |
| QuizApi.PlayRound | apps/backend/app/api/quiz/route.ts:83-142 | one round keeps the round invariant and removes its four yachts from the pool |
| QuizApi.DrawnSnoc | apps/backend/app/api/quiz/route.ts:86-93 | the yachts drawn so far grow by each round's four |
| QuizApi.EmittedSnoc | apps/backend/app/api/quiz/route.ts:140-142 | the questions so far grow by each round's question, if any |
| QuizApi.GenerateQuiz | apps/backend/app/api/quiz/route.ts:70-145 | fewer than four yachts is an error; otherwise `min(10, n / 4)` rounds, each valid, no yacht drawn more often than it was fetched; success exactly when some question was emitted |
| QuizApi.EmittedQuestionsWellFormed | apps/backend/app/api/quiz/route.ts:100-142 | every question has four options including the answer and the requested type; an unrecognised type emits nothing |
| QuizApi.AtMostTenQuestions | apps/backend/app/api/quiz/route.ts:82 | ten rounds give at most ten questions |
| QuizApi.DrawnIncludesRound | apps/backend/app/api/quiz/route.ts:86-93 | any round's yachts are among all those drawn |
| QuizApi.DrawnIncludesTwoRounds | apps/backend/app/api/quiz/route.ts:86-93 | any two rounds' yachts together are among all those drawn |
| QuizApi.NoYachtInTwoRounds | apps/backend/app/api/quiz/route.ts:80-93 | with distinct fetched yachts, no yacht appears in two rounds |
| YachtsApi.ParseListRequest | apps/backend/app/api/yachts/route.ts:56-63 | the length and builder filters pass through as given, a given search is used as given and the search is empty exactly when not given, and the sort text is never empty |
| YachtsApi.Defaults | apps/backend/app/api/yachts/route.ts:57-63 | missing or empty parameters read as page 1, limit 20, no search and `length_m.desc`; a present page, limit, search or sort is used as given |
| YachtsApi.Offset | apps/backend/app/api/yachts/route.ts:66 | no rows before page 1, and never a negative offset from page 1 on |
| YachtsApi.RowRange | apps/backend/app/api/yachts/route.ts:102 | starts at `(page - 1) * limit` and spans `limit` rows |
| YachtsApi.RangesTile | apps/backend/app/api/yachts/route.ts:66 | consecutive pages abut, and row `x` lies on page `x / limit + 1` |
| YachtsApi.CeilDiv | apps/backend/app/api/yachts/route.ts:121 | the ceiling of `total / limit` for non-zero limits, `NaN` for `0/0`, `Infinity` otherwise |
| YachtsApi.PaginationFor | apps/backend/app/api/yachts/route.ts:117-124 | total is `count` or 0; there is a next page iff rows remain past this page, a previous one iff past page 1 |
| YachtsApi.HasNextIffBeforeLastPage | apps/backend/app/api/yachts/route.ts:121-122 | for a page from 1 and a positive limit, `hasNext` iff `page < totalPages` |
| YachtsApi.RowsFitInTotalPages | apps/backend/app/api/yachts/route.ts:121 | every row of the total lies on a page no later than `totalPages` |
| YachtsApi.ResolveSort | apps/backend/app/api/yachts/route.ts:92-99 | the applied field is always allowed: the requested field and direction when both are valid, length descending otherwise |
| YachtsApi.SortRoundTrip | apps/backend/app/api/yachts/route.ts:92-95 | `field.asc` or `field.desc` for an allowed field resolves to that field and direction |
| YachtsApi.DefaultSortIsLengthDescending | apps/backend/app/api/yachts/route.ts:92-98 | the default `sortBy` sorts by length, longest first |
| Strings.EndsWith | apps/backend/middleware.ts:22 | the string is some prefix followed by the suffix |
| Strings.Split | apps/backend/app/api/yachts/route.ts:92 | at least one part; no part holds the separator |
| Strings.JoinSplit | apps/backend/app/api/yachts/route.ts:92 | the parts joined by the separator give the original string |
| Strings.SplitNoSeparator | apps/backend/app/api/yachts/route.ts:92 | a string without the separator is its own single part |
| Strings.SplitAfterFirst | apps/backend/app/api/yachts/route.ts:92 | splitting `a.t` yields `a` and then the parts of `t` |
| Strings.SplitPair | apps/backend/app/api/yachts/route.ts:92 | `a.b`, with no separator in either, splits into exactly `[a, b]` |
| CorsMiddleware.AllowedOrigins | apps/backend/middleware.ts:3-12 | the development and production origins, plus `https://` and the deployment URL when it is set |
| CorsMiddleware.OriginAllowed | apps/backend/middleware.ts:22 | only a present, non-empty origin passes; every allowed origin sent exactly passes; nothing passes an empty list |
| CorsMiddleware.HandleRequest | apps/backend/middleware.ts:14-39 | `OPTIONS` gets 204 with the methods, headers and max-age values; other requests pass on with their headers; allow-origin is present exactly when the origin is allowed, and echoes it |
| CorsMiddleware.ExactOriginsAccepted | apps/backend/middleware.ts:22 | each allowed origin, sent as is, is accepted |
| CorsMiddleware.SuffixMatchIsExact | apps/backend/middleware.ts:34 | between well-formed `http(s)://host` origins, the `endsWith` test accepts only identical origins |
| CorsMiddleware.ListedSuffixIsExact | apps/backend/middleware.ts:3-12 | an allowed origin that a well-formed origin ends with is that origin, when `VERCEL_URL` holds no `/` |
| CorsMiddleware.OnlyListedOriginsAllowed | apps/backend/middleware.ts:22 | when `VERCEL_URL` holds no `/`, a well-formed origin passes the test exactly when it is one of the allowed origins |

## Findings

| source | as written | input that shows it | evidently intended | confidence | as-written member | corrected member |
|---|---|---|---|---|---|---|
| apps/frontend/app/components/YachtList.tsx:143 | the sort select defaults to `year_built.desc`, while the listing endpoint defaults to `length_m.desc` (apps/backend/app/api/yachts/route.ts:63) | a URL without `sortBy`, such as a first visit or after Reset Filters: "Year (Newest First)" is shown over a list sorted by length | the select shows the sort that is applied, i.e. it defaults to `length_m.desc` | medium, not executed | YachtList.ShownSortDisagreesWhenUnset | YachtList.ShownSortMatchesApplied |
| apps/frontend/app/quiz/page.tsx:86-89 | `handleStartQuiz` clears questions, index and stats but not `selectedAnswer` or `showResult` | change the quiz type (page.tsx:151) while the result of an answer is shown: the new first question appears with its options disabled, and Next Question moves to the second one, so the first is never answered | a restart clears the answer and the shown result too | medium, not executed | QuizSession.RestartWhileResultShown | QuizSession.RestartThenAnswer |

## Left out

- Supabase: the queries, their filters (`ilike`, `gte`, `lte`), their errors and the builder lookup are not modelled. Their results (the yachts, the builders, `count`) are inputs, and a failure is one of the modelled `Err` cases or not modelled at all.
- `fetch`, routing (`router.push`), React effects and rendering are I/O or framework behaviour. The page is modelled by the state its handlers change and the query it navigates to.
- `Math.random()` is an oracle: the model proves properties for every sequence of values, not for their distribution. A shuffle by a random comparator is modelled as an arbitrary permutation.
- `Date.now()` in question ids: clocks are outside the model, and ids are not part of the question datatype.
- `parseFloat` of the listing length bounds: floating point is not modelled, and the bounds stay text.
- `NaN` page or limit in the listing endpoint: `parseInt` is an oracle, and the offset and ranges are modelled for integer values only.
- URLSearchParams keeps repeated keys and their order. The model is one value per key, which is what `get` and `set` see.
- The unused `rpcParams` object of the quiz endpoint (apps/backend/app/api/quiz/route.ts:48-55) has no effect, so it is not modelled.
- The quiz endpoint's checks at apps/backend/app/api/quiz/route.ts:90, 95 and 103-104 can never fire: a splice from a pool of four or more always yields a yacht, and names are never `null` in the model. They are omitted.
- The `cmdk` item value passed to the builder's `onSelect` is taken to be the builder's name as listed. Its normalisation is not modelled.
- The quiz page's length slider, quiz-type select, progress bar, image loading flag and error display are not modelled. Nor are the health, builders and yacht-by-id routes and the yacht detail pages: they are outside this core.
- CorsMiddleware.HandleRequest: headers keep only the ones the middleware sets. Those the framework adds are not modelled.
- ImageCarousel.Carousel.OpenZoom: any index is accepted, as in the source. The scroll of the active thumbnail into view is DOM behaviour and is not modelled.
