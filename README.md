# Portfolio site core: Flappy Ado, its leaderboard, and the site's small endpoints

This project models the logic of a personal portfolio web site and proves properties of
that model. The site is a Next.js application written in TypeScript.

- **Flappy Ado** (`app/flappyado/page.tsx`) is a browser game.
  - The pure rules are in `flappy_rules.dfy`: the pipe gap, spawn heights, the click-speed
    to music mapping, the leaderboard rank, the displayed score and what a save posts.
  - The per-frame engine is in `flappy_engine.dfy`. It is a `Game` class whose fields are
    the React state that `gameLoop`, `flap` and `initGame` rewrite: player, pipes, ground
    offset, last spawn time, raw score, high score, the playing and game-over flags, and the
    click cadence.
  - Its central invariant is `Paired`: the pipe list is a sequence of well-formed top/bottom
    pairs. Every step of a frame keeps it. The pair-scoring loop is a method proved against
    the function `ScorePairs`.
- **The high-score table** (`app/api/pumpyado/scores/route.ts`, the route the game's
  `/api/flappyado/scores` calls speak to) is in `leaderboard.dfy`.
  - The table is a class holding a sequence of records.
  - POST overwrites an IP's best record in place or appends one.
  - GET lists one IP's records, or the global top ten, in the order (score desc,
    createdAt desc).
- **The client-IP endpoint** (`app/api/flappyado/ip/route.ts`) is in `client_ip.dfy`. It
  holds the header precedence.
- **The contact endpoint** (`app/api/contact/route.ts`) is in `contact.dfy`. It holds the
  required fields, the e-mail pattern, proved equal to a split-at-`@` test, and the stored
  normalisation.
- **The upload endpoint** (`app/api/upload/route.ts`) is in `upload.dfy`. It holds the
  presence, type and size guards.
- **The weather proxy** (`app/api/weather/route.ts`) is in `weather.dfy`. Its
  process-wide cache is a class with a map field. The periodic cleanup is a loop proved
  against `Pruned`.
- **E-mail delivery** (`lib/email.ts`) is in `email.dfy`. It covers which vendors are
  configured, the fallback chain (a loop that stops at the first vendor that delivers) and
  the self-test.
- **The admin form's tag list** (`app/admin/page.tsx`) is in `admin_tags.dfy`.
- **The skills section's paging** (`components/Skills.tsx`) is in `skills.dfy`.
- **The chat-analytics panel's formatting and state updates** (`components/ChatAnalytics.tsx`)
  is in `chat_analytics.dfy`.
- **`strings.dfy`** holds an `Option` type and the JavaScript string operations the code
  relies on: `trim`, `split(sep)[0]`, `startsWith`, `includes` and ASCII `toLowerCase`.

Values the code takes from its environment become parameters:

| source value | parameter |
|---|---|
| `Date.now()`, the frame time | `now` |
| `Math.random()` | a real draw `r` |
| `window.innerWidth` / `innerHeight` | the `Game` constructor arguments |
| the vendor sends' boolean results | `Outcomes` |
| the upstream weather fetches' outcome | `upstream` |
| the object store's outcome | `stored` |

Game coordinates and speeds are reals. The raw game score is a natural number; the screen
shows `floor(raw / 2)`.

## Model

| member | source | states |
|---|---|---|
| FlappyRules.PipeGap | app/flappyado/page.tsx:638-641 | The gap always lies between 220 and 280. It is the full 280 exactly when the raw score is 0. |
| FlappyRules.PipeGapNonIncreasing | app/flappyado/page.tsx:638-641 | A higher raw score never widens the gap. |
| FlappyRules.PipeGapRamp | app/flappyado/page.tsx:638-641 | Below raw score 20 each point narrows the gap by exactly 3. From 20 on, the gap stays at the 220 floor. |
| FlappyRules.TopPipeHeightBounds | app/flappyado/page.tsx:643 | For a draw in [0,1) on a window tall enough for a positive span, the top pipe is at least 50 high and ends more than gap+150 above the window bottom, so the bottom pipe is more than 50 high. On a shorter window the height falls in (span+50, 50]. |
| FlappyRules.PairFillsPlayfield | app/flappyado/page.tsx:643-662 | For any draw, top height + gap + bottom height equals the playfield height (window height minus 100). |
| FlappyRules.ClicksPerSecond | app/flappyado/page.tsx:452-466 | For a positive interval the cadence is positive and at most 1000, and interval × cadence = 1000. |
| FlappyRules.SpeedFactor | app/flappyado/page.tsx:484-496 | The pitch factor lies in [0.3, 2.0]. It is 0.3 exactly for cadences ≤ 0.5 and 2.0 exactly for cadences > 4. |
| FlappyRules.SpeedFactorMonotone | app/flappyado/page.tsx:484-496 | Faster flapping never lowers the pitch factor. |
| FlappyRules.VolumeFactor | app/flappyado/page.tsx:511 | The volume factor is at least 0.1, at most 1 for a non-negative cadence, and at its 0.1 floor exactly from cadence 7.2 on. |
| FlappyRules.VolumeFactorNonIncreasing | app/flappyado/page.tsx:511 | Faster flapping never raises the volume. |
| FlappyRules.FilterCutoff | app/flappyado/page.tsx:498-502 | The low-pass cut-off lies between 600 Hz and 4000 Hz. |
| FlappyRules.MusicGain | app/flappyado/page.tsx:511-512 | The music gain is at least 0.04, and at most 0.4 for a non-negative cadence. |
| FlappyRules.FastFlapping | app/flappyado/page.tsx:452-512 | Flaps less than 250 ms apart reach the top pitch band, and flaps at most 138 ms apart put the volume at its floor. Both are iffs over every positive interval. |
| FlappyRules.FindIndexAtMost | app/flappyado/page.tsx:226 | The result is -1 exactly when every listed score beats the best. Otherwise it is the first position whose score does not exceed the best. |
| FlappyRules.PlayerRank | app/flappyado/page.tsx:220-228 | The rank is 0 for a new player or a zero personal best. Otherwise it lies in 1..n+1, every score listed before it beats the best, and the score at it does not. |
| FlappyRules.PlayerRankCountsBetterScores | app/flappyado/page.tsx:220-228 | On a list sorted by descending score, the rank is one more than the number of listed scores strictly above the personal best. |
| FlappyRules.DisplayScore | app/flappyado/page.tsx:893 | The shown score is the floor of half the raw score: 2·shown ≤ raw < 2·shown + 2. |
| FlappyRules.DisplayScoreMonotone | app/flappyado/page.tsx:893 | More raw points never show as fewer, and two raw points show as exactly one more. |
| FlappyRules.SaveRequest | app/flappyado/page.tsx:269-285 | A request is posted exactly when there is an IP and the name is not blank. It carries the trimmed name, the raw score unchanged and the IP. |
| FlappyRules.OnGameOver | app/flappyado/page.tsx:349-390 | A returning player gets an automatic save and a new player is asked for a name. An automatic save posts the raw score, not the halved one. |
| FlappyRules.SaveFromDialog | app/flappyado/page.tsx:1383-1388 | The dialog posts only for a non-blank name, always with the raw score. It does post when the name is non-blank and an IP is known. |
| FlappyEngine.FallStepsVelocity | app/flappyado/page.tsx:584-615 | Without flaps, n gravity steps add exactly 0.6·n to the velocity, keep x and keep the rotation within 90. |
| FlappyEngine.FallStepsDescend | app/flappyado/page.tsx:584-615 | From a non-negative velocity, n gravity steps drop the player by at least 0.6·n and never slow it. |
| FlappyEngine.FallStepsLast | app/flappyado/page.tsx:584-587 | n + 1 gravity steps are n steps followed by one more, as consecutive frames apply them. |
| FlappyEngine.GroundBound | app/flappyado/page.tsx:589-590 | The bound is at least one step, and that many steps of at least 0.6 each cover the distance from the player to the ground strip. |
| FlappyEngine.NoFlapReachesGround | app/flappyado/page.tsx:584-606 | A player with non-negative velocity who never flaps reaches the ground within `GroundBound` gravity steps. The first step that reaches it is the one `Game.ApplyGravity` reports as `grounded`, so the round ends there. |
| FlappyEngine.FirstGroundHit | app/flappyado/page.tsx:589-595 | If some gravity step reaches the ground, there is a first one at or after any point before which none did. |
| FlappyEngine.ScrollOnScreen | app/flappyado/page.tsx:618-627 | Every pipe that survives the move-and-cull is still on screen (right edge > 0). |
| FlappyEngine.ScrollKeepsPairs | app/flappyado/page.tsx:618-627 | The move-and-cull keeps or drops both pipes of a pair together, so the list stays made of well-formed pairs. |
| FlappyEngine.MaxX | app/flappyado/page.tsx:632 | The maximum x is at least every pipe's x. |
| FlappyEngine.MaxXAttained | app/flappyado/page.tsx:632 | The maximum x is the x of some pipe. |
| FlappyEngine.SpawnPair | app/flappyado/page.tsx:645-662 | A spawned pair is a well-formed pair at x = width. The top pipe is at y = 0; the bottom pipe starts at top height + gap; together with the gap they fill the playfield; neither is passed or scored. |
| FlappyEngine.SpawnPairHeights | app/flappyado/page.tsx:643-662 | For a draw in [0,1) and a tall enough window, a new top pipe is at least 50 and less than height − gap − 150 high. |
| FlappyEngine.AdvancedKeepsPairs | app/flappyado/page.tsx:618-667 | A frame's move, cull and optional spawn keep the list made of well-formed pairs. |
| FlappyEngine.GroundStep | app/flappyado/page.tsx:738 | The ground offset advances by the pipe speed and wraps into [0, 50). |
| FlappyEngine.CountOverlapsPositive | app/flappyado/page.tsx:673-692 | The pipe collision calls the game-over handler at least once exactly when some pipe strictly overlaps the player's box. |
| FlappyEngine.MarkPassedAt | app/flappyado/page.tsx:695-697 | After the passed test, each pipe is passed exactly when it already was or its right edge is left of the player's x. Nothing else about it changes. |
| FlappyEngine.MarkPassedKeepsPairs | app/flappyado/page.tsx:670-701 | The collision-and-passed pass keeps the list made of well-formed pairs. |
| FlappyEngine.PassedIsSticky | app/flappyado/page.tsx:695-697 | `passed` never reverts, and both pipes of a pair become passed in the same frame. |
| FlappyEngine.ScorePairsAppend | app/flappyado/page.tsx:704-731 | Scoring a prefix of whole pairs and then the rest equals scoring the whole list, both for the pipes and for the points awarded. |
| FlappyEngine.ScorePairsKeepsPairs | app/flappyado/page.tsx:704-731 | The scoring pass keeps the list made of well-formed pairs. |
| FlappyEngine.ScorePairsOnlyMarks | app/flappyado/page.tsx:711-731 | The scoring pass keeps the length and every pipe's position, size and `passed` flag. It only ever sets `scored`, never clears it. |
| FlappyEngine.ScorePairsExhausts | app/flappyado/page.tsx:711-731 | After the pass no pair is eligible, so a second pass awards nothing and changes nothing: a pair never scores twice. |
| FlappyEngine.EligiblesAtMostOnePerPair | app/flappyado/page.tsx:704-731 | A pass awards at most one point per pair, never one per pipe. |
| FlappyEngine.PassedPairScoresOne | app/flappyado/page.tsx:712-723 | A passed, unscored pair earns exactly one raw point and has both pipes marked scored. |
| FlappyEngine.Game.constructor | app/flappyado/page.tsx:54-101 | After mounting: the player is a third of the window across and half-way down, there are no pipes, the last spawn is at −5000, the score and high score are 0, and no round is running. |
| FlappyEngine.Game.InitGame | app/flappyado/page.tsx:396-415 | A fresh round: player reset, pipes empty, ground 0, last spawn −5000, score 0, playing. The high score survives. |
| FlappyEngine.Game.Flap | app/flappyado/page.tsx:521-537 | Outside a running round nothing changes. Otherwise the velocity becomes −8 and the rotation −20, and the cadence is remeasured only for a positive interval. Pipes, score and flags are untouched. |
| FlappyEngine.Game.ApplyGravity | app/flappyado/page.tsx:584-615 | Reaching the ground ends the round and leaves the player where it was. Otherwise the player takes one gravity step. |
| FlappyEngine.Game.AdvancePipes | app/flappyado/page.tsx:617-667 | The pipes are moved and culled. A pair is appended, and the spawn time set to now, exactly when the spawn rule holds on the list from before the move. |
| FlappyEngine.Game.CheckPipes | app/flappyado/page.tsx:669-701 | It returns the number of pipes overlapping the player from before gravity. The round ends exactly when that number is positive. Every pipe is passed-tested. |
| FlappyEngine.Game.AwardPairs | app/flappyado/page.tsx:703-731 | The pair loop leaves the pipes equal to `ScorePairs` of the old list and adds `Eligibles` of the old list to the score. |
| FlappyEngine.Game.Frame | app/flappyado/page.tsx:568-738 | A running frame's complete new state is given, with the game-over handler count (ground plus one per overlapping pipe). The pair invariant is kept. |
| FlappyEngine.Game.Tick | app/flappyado/page.tsx:565-741 | Outside a running round nothing changes. Otherwise the state is that of `Frame`. The high score and click cadence are untouched. |
| FlappyEngine.Game.SyncHighScore | app/flappyado/page.tsx:755-767 | The high score becomes the larger of itself and the raw score. |
| FlappyEngine.Game.AdoptGlobalHighScore | app/flappyado/page.tsx:418-428 | A non-empty leaderboard's first raw score becomes the high score. An empty one changes nothing. |
| Leaderboard.Status | app/api/pumpyado/scores/route.ts:43-50 | The status is 400 exactly for a malformed POST and 200 for every other reply. |
| Leaderboard.SortRecords | app/api/pumpyado/scores/route.ts:23-24 | The query order is sorted by (score desc, createdAt desc) and is a permutation of the table. |
| Leaderboard.TopTen | app/api/pumpyado/scores/route.ts:23-27 | The global list has min(n, 10) records, is sorted, and is a sub-multiset of the table. |
| Leaderboard.TopTenIsTop | app/api/pumpyado/scores/route.ts:23-27 | No record left out of the top ten ranks strictly above one that is in it. |
| Leaderboard.OfIPCounts | app/api/pumpyado/scores/route.ts:15 | The per-IP filter keeps each record of that IP as often as it is stored, and no other record. |
| Leaderboard.ForIP | app/api/pumpyado/scores/route.ts:14-20 | The per-IP reply is sorted and holds every record of that IP and only those, with their multiplicities. |
| Leaderboard.BestIndexSpec | app/api/pumpyado/scores/route.ts:55 | The lookup finds a record exactly when the IP has one. What it finds belongs to the IP and has its highest score. |
| Leaderboard.BestIsMaximum | app/api/pumpyado/scores/route.ts:55 | A record of the IP that none of its other records beats carries the IP's best score. |
| Leaderboard.MalformedLeavesTable | app/api/pumpyado/scores/route.ts:43-50 | A falsy name, a score that is not a number or a falsy IP gives 400, and the table is unchanged. |
| Leaderboard.NotHighEnoughIff | app/api/pumpyado/scores/route.ts:55-65 | A well-formed POST is refused, with the current best and the table unchanged, exactly when the IP already has a score at least as high, ties included. |
| Leaderboard.UpdateInPlace | app/api/pumpyado/scores/route.ts:67-73 | A strictly higher score overwrites the IP's best record in place with the trimmed name, the score and the time. The length is unchanged and every other record is untouched. |
| Leaderboard.CreateAppends | app/api/pumpyado/scores/route.ts:89-97 | A well-formed POST from an unknown IP appends exactly one record {trimmed name, score, IP, time}. |
| Leaderboard.AcceptedBecomesBest | app/api/pumpyado/scores/route.ts:57-97 | After an accepted POST, the IP's best score is the submitted score. |
| Leaderboard.BestNeverDecreases | app/api/pumpyado/scores/route.ts:54-97 | No POST lowers any IP's best score, the poster's or another's. |
| Leaderboard.SubmitTable | app/api/pumpyado/scores/route.ts:54-97 | Case by case, a POST leaves the table unchanged, overwrites exactly one record, or appends exactly one. |
| Leaderboard.OtherIPsUntouched | app/api/pumpyado/scores/route.ts:54-97 | A POST never touches the records of any other IP. |
| Leaderboard.SubmitKeepsOnePerIP | app/api/pumpyado/scores/route.ts:54-97 | A table holding at most one record per IP keeps that shape after any POST. |
| Leaderboard.ScoreTable.Post | app/api/pumpyado/scores/route.ts:41-112 | POST updates the stored records and replies as the reference `Submit` says, covering the four outcomes stated in the lemmas above. |
| Leaderboard.ScoreTable.Get | app/api/pumpyado/scores/route.ts:6-30 | GET replies with a sorted listing. With an IP the listing is `ForIP(records, ip)`: exactly that IP's records, each as often as it is stored. Without one the listing is `TopTen(records)`: at most ten records drawn from the table, and exactly ten once the table has that many. |
| ClientIP.ChosenIP | app/api/flappyado/ip/route.ts:10-21 | A non-empty x-forwarded-for gives its first comma-separated entry, trimmed. Otherwise a non-empty x-real-ip, then a non-empty cf-connecting-ip, is returned verbatim. Otherwise the result is 127.0.0.1. |
| ClientIP.Get | app/api/flappyado/ip/route.ts:23-31 | The reply is always successful, carries the chosen IP and echoes the three headers as received. |
| ClientIP.ForwardedWins | app/api/flappyado/ip/route.ts:12-14 | A non-empty x-forwarded-for decides the result, whatever the other two headers hold. |
| ClientIP.ForwardedEntryIsClean | app/api/flappyado/ip/route.ts:13 | An IP taken from x-forwarded-for holds no comma and no surrounding white space. |
| ClientIP.EmptyIPIffBlankFirstEntry | app/api/flappyado/ip/route.ts:12-13 | The reply's IP is empty exactly when x-forwarded-for is non-empty but its first entry is blank. |
| ClientIP.UnknownOnlyFromHeader | app/api/flappyado/ip/route.ts:10-21 | The initial `unknown` value is never returned. That string comes back only when a header literally carries it. |
| Contact.Status | app/api/contact/route.ts:19-93 | The status is 201 exactly for a saved message and 400 for the two refusals. |
| Contact.ValidEmailIffPattern | app/api/contact/route.ts:27-28 | The split-at-the-first-`@` test accepts exactly the strings `^[^\s@]+@[^\s@]+\.[^\s@]+$` matches, in both directions. |
| Contact.LowerCasedEmailStillMatches | app/api/contact/route.ts:27-38 | The lower-cased form of a matching address still matches. |
| Contact.PatternHasNoSpace | app/api/contact/route.ts:27 | A matching address holds no white space at all. |
| Contact.RequiredFieldsFirst | app/api/contact/route.ts:19-24 | The reply is "all fields are required" exactly when some field is empty, before and instead of the e-mail check. |
| Contact.InvalidEmailIffNoMatch | app/api/contact/route.ts:26-33 | With every field present, the reply is the e-mail-format 400 exactly when the pattern does not match. |
| Contact.Normalise | app/api/contact/route.ts:36-41 | No stored field is longer than the submitted one. |
| Contact.NormaliseIdempotent | app/api/contact/route.ts:36-41 | Normalising a stored record again changes nothing. |
| Contact.StoredEmailIsLowerCase | app/api/contact/route.ts:27-41 | For an accepted message, trimming the address is a no-op. The stored address is exactly its lower-case form and still matches the pattern. |
| Contact.ReplyIgnoresDelivery | app/api/contact/route.ts:47-93 | The reply does not depend on the senders' outcomes. A saved message always claims both e-mails went out. |
| Upload.Status | app/api/upload/route.ts:10-60 | The status is 200 exactly for an uploaded file. It is 500 exactly when the handler threw: a text field, or a failed store. The guards give 400. |
| Upload.Post | app/api/upload/route.ts:10-54 | A missing field or an empty text field gives "no file". A non-empty text field makes `file.type.startsWith` throw, which gives 500. An attached non-image gives "not an image". An image over 5 MiB gives "too large". A success carries the stored URL. |
| Upload.AcceptedIffGuardsPass | app/api/upload/route.ts:18-54 | With a working store, a file is uploaded exactly when it is an image of at most 5 MiB. A file of exactly 5 MiB passes. |
| Upload.TypeCheckedBeforeSize | app/api/upload/route.ts:10-31 | A non-image is refused as such, whatever its size and the store's outcome. |
| Upload.ProjectIdIrrelevant | app/api/upload/route.ts:40-54 | The reply is the same with or without a project id. |
| Weather.RequestType | app/api/weather/route.ts:12 | The type is never empty. A non-empty `type` parameter is used as given; otherwise it is `forecast`. |
| Weather.Pruned | app/api/weather/route.ts:91-98 | A cleanup keeps exactly the entries that are not stale, each unchanged. |
| Weather.BoundaryAsymmetry | app/api/weather/route.ts:24-94 | An entry a lookup serves survives a cleanup at the same time. An entry exactly five minutes old is no longer served, yet not deleted. |
| Weather.PrunedKeepsServable | app/api/weather/route.ts:91-98 | Cleanup never deletes a servable entry, and a second cleanup at the same time deletes nothing more. |
| Weather.KnownKeysStartWithType | app/api/weather/route.ts:21 | The key of a known type begins with that type up to the first `_`, so the keys of distinct known types never collide. |
| Weather.UnknownTypeMisses | app/api/weather/route.ts:21-58 | In a cache holding only keys of known types, the key of an unknown type without `_` is absent. |
| Weather.UnknownTypeKeyCollides | app/api/weather/route.ts:21-26 | An unknown type that contains `_` can spell the key of a known type: `points_1`/`2`/`3` reads the entry stored for `points`/`1_2`/`3`. |
| Weather.WriteIsLocal | app/api/weather/route.ts:73-77 | A cache write touches only its own key. |
| Weather.WeatherCache.constructor | app/api/weather/route.ts:4 | The cache starts empty. |
| Weather.WeatherCache.Get | app/api/weather/route.ts:7-88 | Missing coordinates give 400 before any cache read. A servable entry is answered from the cache. An unknown type gives 400. A failed fetch gives 500. Each leaves the cache unchanged. A successful fetch writes (data, now) under the key. Every key keeps starting with a known type. |
| Weather.WeatherCache.Cleanup | app/api/weather/route.ts:91-98 | The sweep loop leaves exactly `Pruned` of the old cache, and keys keep starting with a known type. |
| Email.GetConfig | lib/email.ts:41-57 | Resend and SendGrid are enabled exactly when their key is set. Mailgun is enabled exactly when both its key and its domain are set. |
| Email.EnabledAmongMembers | lib/email.ts:246-254 | The services tried are exactly those listed and enabled. |
| Email.SendNotification | lib/email.ts:229-266 | The result is true exactly when some enabled service delivers. The services called are a prefix of the enabled ones in order; only the last can have delivered. On failure, every enabled one was tried. |
| Email.DisabledNeverCalled | lib/email.ts:253-254 | A service that is not configured is never asked to send. |
| Email.TestServices | lib/email.ts:269-306 | Every enabled service is called once, in order. A disabled one reports false. `overall` is true exactly when some enabled service delivered. |
| AdminTags.AddTechnology | app/admin/page.tsx:323-331 | The list is either unchanged or extended by the trimmed input. The input is cleared exactly when the list grew, or was already empty. |
| AdminTags.AddTechnologyCases | app/admin/page.tsx:323-331 | A blank or duplicate input leaves both the list and the input alone. Any other input appends the trimmed tag and clears the input. |
| AdminTags.AddKeepsNoDuplicates | app/admin/page.tsx:324-328 | A duplicate-free list stays duplicate-free. |
| AdminTags.RemoveTechnology | app/admin/page.tsx:333-338 | The removed tag no longer occurs. Every other tag keeps its number of occurrences. |
| AdminTags.RemoveDistributes | app/admin/page.tsx:336 | Removal distributes over concatenation, so the other tags keep their order. |
| AdminTags.RemoveAbsent | app/admin/page.tsx:336 | Removing a tag that is not listed changes nothing. |
| AdminTags.AddThenRemove | app/admin/page.tsx:323-338 | Removing a tag just added gives back the list it was added to. |
| AdminTags.AddTechnologyToEdit | app/admin/page.tsx:340-348 | A missing project stays missing and a present one stays present. |
| AdminTags.RemoveTechnologyFromEdit | app/admin/page.tsx:350-355 | A missing project stays missing and a present one stays present. |
| AdminTags.EditVariantsAgree | app/admin/page.tsx:323-355 | On a project being edited, the edit variants do to its tag list and to the input what the new-project variants do. Every other field is untouched. |
| AdminTags.AddToMissingProject | app/admin/page.tsx:340-348 | With no project being edited, adding only clears a non-blank input. |
| AdminTags.AddProjectRequest | app/admin/page.tsx:148-162 | The form is sent exactly when there is a token, a title, a description and an image URL, and it is sent unchanged. The image error is reported only once title and description are present. |
| Skills.ProficiencyLevel | components/Skills.tsx:146-154 | A bar is between 25% and 95%. It is 50% exactly for `intermediate` and for any unknown level. |
| Skills.ProficiencyIncreasing | components/Skills.tsx:146-154 | The four named levels give strictly increasing bars. |
| Skills.SkillsByCategory | components/Skills.tsx:142-144 | A category lists exactly the skills of that category. |
| Skills.SkillsByCategoryDistributes | components/Skills.tsx:142-144 | Grouping distributes over concatenation, so a category keeps the received order. |
| Skills.LoadMore | components/Skills.tsx:37 | Load-more never exceeds the five categories and never shrinks a valid count. It adds exactly two unless it caps at five. |
| Skills.ShowLess | components/Skills.tsx:78 | Show-less returns to the initial three cards. |
| Skills.Visible | components/Skills.tsx:192 | The cards shown are the first min(count, 5) categories. |
| Skills.ShowLoadMoreAfterFetch | components/Skills.tsx:95-103 | An OK skills fetch enables the paging button, because the five categories exceed the three shown. A failed fetch leaves the flag as it was. |
| Skills.PagingButton | components/Skills.tsx:248-256 | Once enabled, the button is load-more exactly while some category is hidden and show-less exactly when all are shown. |
| Skills.PagingReachable | components/Skills.tsx:27-78 | From the initial view, any sequence of presses shows three or five cards, and the button matches. |
| Skills.LoadMoreFromInitial | components/Skills.tsx:27-100 | After a successful fetch the button is shown, and one load-more from three cards reveals all five. |
| ChatAnalytics.FormatIP | components/ChatAnalytics.tsx:91-94 | `unknown` and `::1` show as Local/Unknown; every other address shows unchanged. |
| ChatAnalytics.FormatIPIdempotent | components/ChatAnalytics.tsx:91-94 | Formatting an address twice is formatting it once. |
| ChatAnalytics.FormatUserAgent | components/ChatAnalytics.tsx:96-101 | The device is one of four labels. It is Unknown exactly for an empty or `unknown` agent, and Mobile exactly for other agents that mention Mobile. |
| ChatAnalytics.TabletIff | components/ChatAnalytics.tsx:96-101 | Tablet is reported exactly for agents that mention Tablet but not Mobile. |
| ChatAnalytics.ToggleExpansion | components/ChatAnalytics.tsx:107-115 | The toggled session flips membership and every other session keeps it. |
| ChatAnalytics.ToggleTwice | components/ChatAnalytics.tsx:107-115 | Toggling the same session twice restores the set. |
| ChatAnalytics.WithMessages | components/ChatAnalytics.tsx:129-133 | Chats of the session get the new messages. Every other chat is kept, in place. |
| ChatAnalytics.FetchChatMessages | components/ChatAnalytics.tsx:122-136 | A failed fetch, or no loaded analytics, changes nothing. Otherwise only the chat list changes. |
| ChatAnalytics.FetchIsLocal | components/ChatAnalytics.tsx:128-135 | A fetch changes only the messages of that session's chats, and fetching the same messages again changes nothing more. |

## Left out

- Canvas rendering, JSX and animation markup, the debug panel, particles and sounds are
  presentation. `renderGame`, `createParticles` and `playSound` are not part of this model.
- The Web Audio graph (`createMediaElementSource`, the filter and gain nodes) is a browser
  API. Only the numbers fed into it are modelled, as `SpeedFactor`, `FilterCutoff`,
  `VolumeFactor` and `MusicGain`.
- `requestAnimationFrame` scheduling, the frame delta and the order in which the game's
  asynchronous fetches complete are platform scheduling. A frame is one atomic `Tick`.
- FlappyEngine.Game: the source reads the window size in every frame: the ground test
  (app/flappyado/page.tsx:590), the spawn column (633) and the pipe heights (643, 659). It
  sets the player's x only once, at 397. The model fixes `width` and `height` when the game
  is constructed. A resize during a round would move the ground, the spawn column and the
  pipe heights but not the player, and the model does not capture that.
- React's batching of the state updaters inside one frame is fixed to the order the
  closures imply:
  - the spawn decision and the gap read the pipes and score from before the frame;
  - the collision and passed tests use the player from before its gravity step;
  - a pair spawned in the frame is already tested.
- FlappyEngine.Game.Tick counts the game-over handler's invocations; what the handler does
  is modelled separately by `OnGameOver`. Its other effects (stopping the music, logging)
  are left out.
- The `Game` constructor takes the window size as arguments. The pre-mount placeholder
  position (400, 300) is replaced at once by the mount effect, and the model starts from the
  mounted state.
- MongoDB is an in-memory sequence of records. Schema validators, `.select` projections,
  `.lean()` and connection errors (the 500 replies) are left out.
- Leaderboard.Submit: scores are reals, so fractional scores are modelled. A JSON `score`
  that is not a number is `None`. `NaN` and the infinities count as numbers in the route,
  and the model has no value for them.
- Leaderboard.Submit: `name` and `userIP` are strings in the model, but the route only
  tests them for truthiness (app/api/pumpyado/scores/route.ts:43-50). A truthy non-string
  `name` throws at `.trim()` (69, 92), and the catch replies 500 (116-120). A non-string
  `userIP`, such as an object, goes into `findOne({ userIP })` (55) as a query and can match
  another IP's record. Neither path is modelled.
- Leaderboard.SortRecords: records that tie on both score and `createdAt` keep their stored
  order. The database's own tie order is unspecified.
- Leaderboard.BestIndex: among an IP's records with equal top score, the first stored one
  is chosen. With one record per IP, which `SubmitKeepsOnePerIP` preserves, there is no
  choice to make.
- Times (`Date.now()`, `new Date()`) are integers in milliseconds. The two `Date.now()`
  calls of one weather request are one `now`.
- The weather cleanup's `setInterval` period is not modelled: `Cleanup` is one sweep at
  a given time.
- The upstream weather fetches are one outcome `upstream` (the data, or a failure). Their
  URLs, the grid lookup and JSON parsing are left out.
- Contact: saving to the database and its failure (the 500 reply) are left out. The two
  e-mail sends are oracles the reply ignores.
- Email: the vendor sends (Resend, SendGrid, Mailgun) are boolean oracles.
  `generateEmailContent` is templating over `toLocaleString` and is not part of this model.
- Upload: the object-store call is an oracle `stored`, and `lib/s3.ts` is not part of this
  model.
- Strings.ToLower lowers only the ASCII letters, whereas JavaScript's `toLowerCase` folds
  all of Unicode. `IsSpace` follows ECMA-262's white-space and line-terminator classes.
- The analytics route, the authentication code and the plain CRUD routes are not part of
  this model.
- ChatAnalytics.FetchChatMessages: the request itself is a parameter (`None` for a
  non-OK or failed fetch).
- ChatAnalytics.FetchChatMessages: the component rebuilds the state from the `analytics`
  captured when the request started (components/ChatAnalytics.tsx:128-134), not through an
  updater. An analytics refresh that lands while the request is in flight is undone. The
  model takes the analytics value as given and does not model that race.
- FlappyRules.OnGameOver: `handleGameOver` reads the `gameState.score` captured at the last
  render (app/flappyado/page.tsx:350-351, 391). A pair scored in the game-over frame
  (app/flappyado/page.tsx:718-724) is neither auto-saved nor shown as the final score.
  `OnGameOver` takes its score as an argument; the score the source passes is the one from
  before the frame, not the one `Game.Tick` leaves.
- Contact.Post: every field of `Form` is a string in the model, but the route only tests
  the fields for truthiness. A truthy non-string `name`, `subject` or `message` throws at
  `.trim()` (app/api/contact/route.ts:36-41), and so does a non-string `email` that passes
  the pattern, such as `["a@b.co"]`, which `RegExp.test` turns into a string. The outer
  catch then replies 500 (95-100), where the model replies 201. That path is not modelled.
- Contact.Normalise states only the length bounds. What normalising means is stated by
  `NormaliseIdempotent` and `StoredEmailIsLowerCase`.
