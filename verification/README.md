# Progression engine of a communication-habit game

This project models, in Dafny, the progression engine of a gamified
habit-building app for practising communication. A player works through
quests, daily challenges, mini-games and self-reported "rare events". Each
of them earns experience (XP). XP raises the player's level, pays coins,
reaches milestones that unlock features, and trains four skill gauges
(diction, confidence, vocabulary, empathy).

The model has these modules:

- `Catalog` (catalog.dfy) holds the constant tables of `constants.tsx`:
  - the 100-level table, with requirement `100 + 50 * (level - 1)` and banded titles;
  - the milestones and the avatar stages;
  - the quest catalog, with the XP split-with-remainder of 70% of a level's requirement;
  - the daily challenges, the catalog events and the mini-games.
- `Progression` (progression.dfy) holds the pure rules that the hook applies:
  - the clamped skill bump;
  - the level-up loop as a function (`Normalize`), with its conservation and settling lemma;
  - the milestone grant;
  - `Award`, the whole effect of `addXp` on the record, with its invariant;
  - the custom-event cap and the cooldown and once-a-day gates.
- `Engine` (engine.dfy) models the hook `useUserData`:
  - the user record is a class, `UserRecord`, whose fields the intents update;
  - each intent is one method, proved against `Award` and the rules above;
  - the load merge of a stored record over the defaults is a named constructor.
- `Games`, `Dashboard` and `Profile` (games.dfy, dashboard.dfy, profile.dfy) model the views that re-derive engine rules:
  - the cooldown countdown;
  - the two quests on offer, the "done today" mark and the next milestone with its five dots;
  - the avatar stage and the trophy shelf, which sorts the milestone list in place.
- `Text` (text.dfy) renders integers in decimal, as the titles' and messages' template literals do.
- `Wrappers` (wrappers.dfy) holds `Option`.

Skill gauges are held in integer hundredths: 100 stands for 1.0, the cap 1000 for 10.0, and the bumps 0.05 to 0.5 become 5 to 50.

The clock is a parameter of the intents that read it: `now` and `nowMs` are instants in milliseconds, `today` is an opaque day string, and `timestamp` is the journal entry's date string.

Some behaviours of the code are worth stating on their own, since a reader might expect otherwise:

- `addXp` with a negative amount lowers the XP and reports no level-up (`Progression.AwardNonPositive`).
- Only the final level reached is checked for a milestone, so a jump over several levels can pass a milestone by (`Progression.MilestoneSkippedOnMultiLevelJump`).
- `completeQuest` awards the XP its caller passes, not the catalog's value.
- `completeDailyChallenge` awards a flat 5 XP, whatever the challenge's own XP value is.
- Skill gauges are clamped only from above (`Math.min(10, …)`). All bumps are positive, so no gauge falls below its starting value.

## Model

| member | source | states |
|---|---|---|
| `Text.NatToStringRoundTrip` | constants.tsx:56-64 | The number in a `Nv. ${n}` title is written as decimal digits without a leading zero, and it parses back to n. |
| `Text.NatToStringInjective` | constants.tsx:56-64 | Distinct level numbers are rendered differently. |
| `Catalog.MilestoneKeys` | constants.tsx:7-50 | Every milestone is filed under its own `level`. The keys are exactly 5, 10, 15, 20, 25 and 30, all within 1..100. |
| `Catalog.Band` | constants.tsx:56-64 | The generic title band is one of the seven names, each exactly on its range of levels: "Iniciante" up to 5, "Praticante" 6–10, "Orador" 11–15, "Estrategista" 16–20, "Profissional" 21–25, "Conector" 26–30 and "Veterano" above 30. |
| `Catalog.LevelTable` | constants.tsx:52-71 | The table has 100 entries. Entry i has level i+1 and requirement 100 + 50*i. Requirements are at least 100 and strictly increasing. |
| `Catalog.LevelTitles` | constants.tsx:55-64 | A milestone level takes the milestone's title. Any other level takes its band, " Nv. " and its number. |
| `Catalog.FindLevel` | hooks/useUserData.ts:77 | The `LEVELS.find` lookup returns the first table entry with that level number. It returns nothing exactly when no entry has that number. |
| `Catalog.LevelLookup` | hooks/useUserData.ts:77 | The lookup finds entry level-1 for levels 1..100 and nothing otherwise. |
| `Catalog.XpRequired` | constants.tsx:68 | The requirement is defined exactly for levels 1..100, where it is at least 100. Past the table there is none: the `?? Infinity` of the loop. |
| `Catalog.XpRequiredIsTableLookup` | hooks/useUserData.ts:77 | The requirement read through `LEVELS.find(...)?.xpRequired` is the closed form 100 + 50*(level-1). It is missing exactly outside 1..100. |
| `Catalog.XpRequiredIncreasing` | constants.tsx:68 | Each level needs strictly more XP than any level below it. |
| `Catalog.AvatarStagesOrdered` | constants.tsx:73-84 | The avatar thresholds start at 1 and strictly increase. |
| `Catalog.QuestsAtLevel` | constants.tsx:100 | The filter keeps only quests of the given level, and all of them. |
| `Catalog.QuestsAtLevelConcat` | constants.tsx:100 | Filtering a concatenation concatenates the filtered parts, so catalog order is kept. |
| `Catalog.QuestsAtLevelBlock` | constants.tsx:100 | When a level's quests form one block of the catalog, the filter returns exactly that block. |
| `Catalog.IndexOfId` | constants.tsx:104 | `findIndex` by id returns the first position carrying the id. It returns -1 exactly when no quest has it. |
| `Catalog.IndexOfDistinct` | constants.tsx:104 | With distinct ids, `findIndex` returns each quest's own position. |
| `Catalog.LevelQuestBudget` | constants.tsx:101 | A level's quest budget t is exactly 70% of its requirement (100 past the table) rounded down: 10·t ≤ 7·requirement < 10·(t + 1). It is at least 70. |
| `Catalog.SharesUpToValue` | constants.tsx:102-105 | The first m shares of a split of T among n add up to m*(T div n) plus one unit for each of them below T mod n. |
| `Catalog.SplitIsExact` | constants.tsx:102-105 | The n shares add up to exactly T, and each share is T div n or T div n + 1. |
| `Catalog.QuestXpInBlock` | constants.tsx:98-107 | The k-th quest of a level's block receives the k-th share of that level's budget. |
| `Catalog.CatalogQuestXp` | constants.tsx:98-107 | The catalog has 9 quests. Quest i belongs to level i div 3 + 1, keeps its id, and gets share i mod 3 of its level's budget. |
| `Catalog.QuestTotals` | constants.tsx:98-107 | The three quests of levels 1, 2 and 3 share exactly 70, 105 and 140 XP, the levels' budgets. |
| `Catalog.QuestXpValues` | constants.tsx:100-105 | The quests receive 24, 23, 23 / 35, 35, 35 / 47, 47, 46 XP in catalog order. |
| `Catalog.FindQuest` | hooks/useUserData.ts:135 | `QUESTS.find` by id returns the first catalog quest with that id. It returns nothing exactly when no quest has the id. |
| `Catalog.MiniGameTable` | constants.tsx:173-192 | The free-practice game has no reward and no cooldown. The ranked game has a 5-hour cooldown. No game has a negative reward or cooldown. |
| `Progression.Bump` | hooks/useUserData.ts:121-126 | `min(10, g + δ)` never exceeds the cap and adds δ when it fits. For δ ≥ 0 it never lowers a gauge and keeps it in range. |
| `Progression.QuestSkills` | hooks/useUserData.ts:118-129 | A physical quest trains only diction (+0.1). An interpersonal quest trains only confidence (+0.1) and empathy (+0.05). A reflective quest trains only vocabulary (+0.1). Every gauge is capped, and a trained gauge whose bump would overshoot lands exactly on the cap. None drops, and valid gauges stay valid. |
| `Progression.NormalizeSpec` | hooks/useUserData.ts:77-85 | The level-up loop never lowers the level. The XP it consumes is exactly the sum of the requirements of the levels it passes. It leaves XP that no longer pays for the next level, or stops at level 101. |
| `Progression.NormalizeUnique` | hooks/useUserData.ts:80-85 | Any settled, non-negative (level, rest) that accounts for all the XP is exactly where the loop stops. |
| `Progression.NormalizeSplit` | hooks/useUserData.ts:80-85 | Running the loop on a first amount and then again after a non-negative second amount reaches the same place as running it once on the sum. |
| `Progression.AppendMissing` | hooks/useUserData.ts:97-101 | Appending the features not yet present keeps the old list as a prefix. The result holds exactly the old and the new features, and a list without repeats stays without repeats. |
| `Progression.AppendMissingPresent` | hooks/useUserData.ts:97-101 | Features that are all already unlocked leave the list unchanged. |
| `Progression.AppendMissingFresh` | hooks/useUserData.ts:97-101 | Distinct features that are all new are appended in order. |
| `Progression.GrantMilestone` | hooks/useUserData.ts:92-103 | A catalog milestone at the level that is not yet reached is appended once. The features become the old ones followed by each of its unlocks not already present. Otherwise both lists stay unchanged, and both lists only ever grow. |
| `Progression.GrantMilestoneIdempotent` | hooks/useUserData.ts:92-103 | Granting the same milestone a second time changes nothing. |
| `Progression.Award` | hooks/useUserData.ts:72-116 | `addXp` conserves XP against the requirements of the levels passed, never lowers the level, and stops settled or at 101. It levels up exactly when the old level's requirement is paid, and the XP left after a level-up is never negative. It pays 25 coins per level gained. `leveledUp` is true iff the level rose, and `newLevel` is then the final level. Only the final level can add a milestone. When the level rose to a catalog milestone level not yet reached, that level is appended once and its unlocks are added as by `GrantMilestone`. |
| `Progression.AwardPreservesInv` | hooks/useUserData.ts:72-116 | An award that keeps XP non-negative preserves the record's invariant: the level is in 1..101, XP is non-negative and settled, and the reached milestones are distinct catalog levels at or below the level. |
| `Progression.AwardNonPositive` | hooks/useUserData.ts:72-116 | On a valid record, a zero or negative amount changes only the XP, by that amount, and reports no level-up. |
| `Progression.AwardAdditive` | hooks/useUserData.ts:72-116 | Awarding a then a non-negative b gives the same level, XP and coins as awarding a + b at once. |
| `Progression.MilestoneSkippedOnMultiLevelJump` | hooks/useUserData.ts:92-103 | 550 XP from level 4 land on level 6 with 50 coins, and milestone 5 is not granted. |
| `Progression.MilestoneGrantedStepwise` | hooks/useUserData.ts:92-103 | The same 550 XP given as 250 and then 300 also reach level 6, but grant milestone 5. |
| `Progression.AwardFromFourTo5` | hooks/useUserData.ts:92-103 | 250 XP from level 4 reach level 5 with 25 coins, milestone 5 and its two unlocks. |
| `Progression.AwardFromFiveTo6` | hooks/useUserData.ts:92-103 | A further 300 XP reach level 6 and add no milestone. |
| `Progression.MaxCustomXp` | hooks/useUserData.ts:164-166 | The custom-event cap is floor(0.75 × requirement), with 100 past the table. It is at least 75. |
| `Progression.CustomEventXp` | hooks/useUserData.ts:168 | The awarded XP is the smaller of the request and the cap: it never exceeds either and equals one of them. |
| `Progression.CustomXpCapExamples` | hooks/useUserData.ts:164-168 | The cap is 75 at level 1 and past the table, 112 at level 2 and 3787 at level 100. At level 3, a request for 1000 XP gets 150. |
| `Engine.MergeSkills` | hooks/useUserData.ts:45 | Gauge by gauge, a stored value wins over the default 1.0. With no stored skills all four gauges are the defaults. |
| `Engine.LoadedDate` | hooks/useUserData.ts:48 | `|| null`: a missing or empty stored date loads as none, and any other date loads unchanged. |
| `Engine.ClimbLevels` | hooks/useUserData.ts:73-85 | The `while` loop on local copies ends exactly where `Normalize` says, and sets `leveledUp` iff the level rose. |
| `Engine.UnlockFeatures` | hooks/useUserData.ts:97-101 | The `forEach` that pushes missing features computes exactly `AppendMissing`. |
| `Engine.UserRecord.constructor` | hooks/useUserData.ts:6-31 | The record starts from the defaults: "Viajante", level 1, 0 XP, 50 coins, streak 1, all gauges 1.0, empty sets, maps and lists, and the default background and item. The starting record satisfies the invariant. |
| `Engine.UserRecord.Restore` | hooks/useUserData.ts:42-51 | Every stored field overrides its default. Skills merge gauge by gauge, and an empty custom-event date loads as none. |
| `Engine.UserRecord.SetUserName` | hooks/useUserData.ts:68-70 | Only the name changes, and the invariant is kept. |
| `Engine.UserRecord.AddXp` | hooks/useUserData.ts:72-116 | The new level, XP, coins, milestone and feature lists, and the returned result are exactly `Award` of the old ones. A non-negative resulting XP keeps the invariant. |
| `Engine.UserRecord.UpdateSkills` | hooks/useUserData.ts:118-129 | The gauges become `QuestSkills` of the old ones. Valid gauges stay valid and none drops. |
| `Engine.UserRecord.CompleteQuest` | hooks/useUserData.ts:131-143 | A quest already done changes nothing and reports no level-up. Otherwise the quest's skill is trained (skipped for an id not in the catalog), the id is marked, and the caller's XP is awarded as `Award`. |
| `Engine.UserRecord.CompleteEvent` | hooks/useUserData.ts:145-154 | An event already done changes nothing. Otherwise the event is marked, confidence gains 0.5, and the event's XP is awarded. |
| `Engine.UserRecord.RegisterCustomEvent` | hooks/useUserData.ts:157-192 | The call succeeds iff no custom event was registered today. On refusal it gives the fixed message and changes nothing. On success the capped XP is awarded, the dated event goes to the front of the history, confidence gains 0.3, diction gains 0.2, and the message reports the XP. |
| `Engine.UserRecord.CompleteGame` | hooks/useUserData.ts:194-216 | The call is refused, with nothing changed, iff a last play is recorded less than `cooldownHours` hours ago. Otherwise it records `now`, adds 0.05 to diction, and awards the reward, which may be 0. |
| `Engine.UserRecord.AddJournalEntry` | hooks/useUserData.ts:218-224 | The entry goes to the front of the journal and vocabulary gains 0.05. |
| `Engine.UserRecord.CompleteDailyChallenge` | hooks/useUserData.ts:226-240 | A challenge already done today changes nothing. Otherwise today is stored for it and a flat 5 XP is awarded. Either way it is done today afterwards. |
| `Engine.UserRecord.AddCoins` | hooks/useUserData.ts:242-244 | Coins grow by the amount, and the invariant is kept. |
| `Engine.SecondCustomEventSameDay` | hooks/useUserData.ts:160-162 | A second custom event on the same day is refused with the once-a-day message. |
| `Engine.DailyChallengeOncePerDay` | hooks/useUserData.ts:228-230 | Completing the same challenge twice on one day makes the second call report no level-up. |
| `Games.CeilDiv` | components/Games.tsx:63 | `Math.ceil(x / d)` is the least q with x ≤ q·d. |
| `Games.GetCooldownInfo` | components/Games.tsx:51-70 | A game never played is ready. A game is on cooldown iff less than the cooldown has passed since its last play. The hours shown are the floor of the remaining time, and the minutes are the ceiling of the rest, in 0..60. |
| `Games.CooldownMatchesEngine` | components/Games.tsx:52-60 | The list shows a game as on cooldown exactly when `completeGame` would refuse it. |
| `Games.HoursLeftBounded` | components/Games.tsx:60-62 | With the clock not running backwards, a game on cooldown has a positive cooldown. The hours left never exceed it, and equal it only at the instant of the last play. |
| `Games.ZeroCooldownReady` | components/Games.tsx:58-60 | A zero-hour cooldown never shows a game as waiting. |
| `Games.CooldownLabel` | components/Games.tsx:64-69 | The label `⏳ {h}h {m}m` is empty exactly for a ready game. On cooldown it starts with the hourglass and a space and ends with `m`. |
| `Games.CooldownLabelReadsBack` | components/Games.tsx:66 | Two cooldowns with the same label have the same hours and minutes, so the label shows the remaining time without ambiguity. |
| `Games.FreeGameNeverWaits` | constants.tsx:183-191 | The free-practice game is never shown as waiting. |
| `Dashboard.Eligible` | components/Dashboard.tsx:52 | The filter keeps exactly the quests at or below the level that are not completed. |
| `Dashboard.EligibleConcat` | components/Dashboard.tsx:52 | The filter keeps catalog order. |
| `Dashboard.ActiveQuests` | components/Dashboard.tsx:52 | At most two quests are offered: the first two eligible ones in catalog order. Each is at or below the level and not completed. |
| `Dashboard.ActiveQuestsFirstTwo` | components/Dashboard.tsx:52 | When the first two quests of the list are eligible, they are the ones offered. |
| `Dashboard.FreshPlayerQuests` | components/Dashboard.tsx:52 | A new player at level 1 is offered q1-1 and q1-2. |
| `Dashboard.StoredDay` | components/Dashboard.tsx:56 | A day is stored for a challenge exactly when the challenge has an entry, and the day is that entry. |
| `Dashboard.CompletedTodayMatchesEngine` | components/Dashboard.tsx:54-57 | A challenge shows as done today iff `completeDailyChallenge` would be a no-op. |
| `Dashboard.MilestoneLevelsSorted` | components/Dashboard.tsx:60-62 | The sorted numeric keys are exactly the milestone levels, in increasing order. |
| `Dashboard.FirstAbove` | components/Dashboard.tsx:63 | `find(l => l > level)` returns the first key above the level. It returns nothing exactly when no key is above it. |
| `Dashboard.NextMilestoneIsSmallestAbove` | components/Dashboard.tsx:60-63 | The next milestone level is the smallest milestone above the level, or level + 5 when there is none. Either way it lies above the level. |
| `Dashboard.LevelsToMilestone` | components/Dashboard.tsx:66 | The distance to the next milestone is at least 1, and at most 5 from level 0 on. |
| `Dashboard.MilestoneCardBelowThirty` | components/Dashboard.tsx:115 | The next-milestone card is shown iff the level is below 30. |
| `Dashboard.LitDotsCount` | components/Dashboard.tsx:136-138 | Of the first n dots, min(n, max(0, 5 - levelsToMilestone)) are lit. |
| `Dashboard.ActiveDots` | components/Dashboard.tsx:136-138 | Exactly max(0, 5 - levelsToMilestone) of the five dots are lit, never all five. |
| `Profile.Reverse` | components/Profile.tsx:57 | The reversed copy holds the stages back to front. |
| `Profile.FindReached` | components/Profile.tsx:57 | `find(level >= stage.level)` returns the first stage the level reaches, after stages that are all out of reach. It returns nothing when none is reached. |
| `Profile.AvatarStageChoice` | components/Profile.tsx:57 | From level 1 on, the stage shown is a catalog stage whose threshold the level reaches, while the next stage's threshold is above the level. The fallback to the first stage is never used. |
| `Profile.AvatarStageReached` | components/Profile.tsx:57 | The stage shown is in the catalog, and its threshold is at most the level. |
| `Profile.SortDescending` | components/Profile.tsx:60 | The in-place sort leaves the array in non-increasing order with the same multiset of levels. |
| `Profile.InsertDown` | components/Profile.tsx:60 | One insertion step extends the sorted prefix by one element and keeps the multiset. |
| `Profile.Trophies` | components/Profile.tsx:61-62 | `map` then `filter(Boolean)` keeps exactly the milestones of the listed levels that are catalog keys. |
| `Profile.ReachedMilestones` | components/Profile.tsx:59-62 | The record's milestone list is sorted in place, highest first, with the same multiset. The trophies are the milestones of the sorted list. |
| `Profile.NoDupKeptBySort` | components/Profile.tsx:59-60 | Reordering a list without repeats leaves it without repeats. |
| `Profile.TrophiesDescending` | components/Profile.tsx:61-62 | The trophies of a strictly descending level list are in strictly descending level order. |
| `Profile.TrophyShelf` | components/Profile.tsx:59-62 | On a record whose milestone list has no repeats, the shelf is in strictly descending level order. It holds exactly the catalog milestones of the reached levels. The record's list itself is left sorted in descending order, with the same multiset of levels. |

## Left out

- Persistence: reading and writing `localStorage`, `JSON.parse`, and the save effect are I/O. A stored record is given as a `SavedRecord` of optional fields, and a JSON `null` or a field of the wrong type is not represented.
- `Engine.UserRecord.Restore` does not establish the record invariant, because the loaded data is not validated by the source either.
- The avatar customisations object is reduced to its one field, `backgroundColor`.
- Authentication and the remote store are network I/O. App.tsx is not part of this model.
- React scheduling: each intent is one atomic, sequential transition of the record. In the source, `addXp` reads the render-time snapshot while the other updates use `prev`, so batched updates and stale closures can interleave. That concurrency is not modelled.
- Floating point: skills are integer hundredths, and `0.75 × requirement` is computed exactly. The XP bar's percentage on the dashboard is not modelled.
- `Catalog.LevelQuestBudget`: computes `floor(0.7 × requirement)` with exact integer arithmetic (`7 × requirement div 10`), so the rounding of the double-precision product `requirement * 0.7` is not modelled. In double arithmetic `Math.floor(requirement * 0.7)` is one lower than `7 × requirement div 10` at levels 6, 12, 13, 25–28 and 51–57. None of those levels has catalog quests, so the modelled quest XP (24/23/23, 35/35/35, 47/47/46) is the program's.
- The clock, the day string, the ISO timestamps and `Date.now()` are parameters of the intents (`now`, `nowMs`, `today`, `timestamp`). Cooldown entries are held as instants in milliseconds rather than ISO strings.
- Randomness, timers, confetti, the twister games themselves and the AI feedback service are outside the record and not modelled.
- The shop: no purchase or equip intent exists in the hook, so `purchasedItems` is only initialised and loaded.
- Presentation-only files (header, navigation, quest card, level-up modal, journal, onboarding, events and quest pages) and the read-only hook call in the profile page are not part of this model.
- Catalog descriptions of quests and daily challenges, the milestone and avatar icons, and the shop table are presentation data and are left out. Catalog events keep their descriptions.
