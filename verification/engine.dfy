/**
 * The user record and the intents that change it (`useUserData`). Each intent
 * is one atomic transition of the record; the clock, the day and the event id
 * it would read from the environment are parameters.
 */
module Engine {
  import opened Wrappers
  import opened Catalog
  import opened Progression
  import Text

  datatype JournalEntry = JournalEntry(date: string, content: string)

  /** The gauges found in storage; a missing one keeps its default. */
  datatype SavedSkills = SavedSkills(diccao: Option<int>, confianca: Option<int>, vocabulario: Option<int>, empatia: Option<int>)

  /** A record as found in storage: every field may be missing. */
  datatype SavedRecord = SavedRecord(
    name: Option<string>,
    level: Option<int>,
    xp: Option<int>,
    coins: Option<int>,
    streak: Option<int>,
    skills: Option<SavedSkills>,
    questsCompleted: Option<set<string>>,
    eventsCompleted: Option<set<string>>,
    lastCustomEventDate: Option<Day>,
    gameCooldowns: Option<map<string, int>>,
    journalEntries: Option<seq<JournalEntry>>,
    completedDailyChallenges: Option<map<string, Day>>,
    backgroundColor: Option<string>,
    purchasedItems: Option<seq<string>>,
    eventHistory: Option<seq<SpecialEvent>>,
    unlockedFeatures: Option<seq<string>>,
    milestonesReached: Option<seq<int>>)

  /** The stored value when there is one, the default otherwise. */
  function Or<T>(stored: Option<T>, default: T): T
  {
    if stored.Some? then stored.value else default
  }

  /** `{ ...INITIAL_USER_DATA.skills, ...(parsed.skills || {}) }`: gauge by gauge, stored over default. */
  function MergeSkills(saved: Option<SavedSkills>): (k: Skills)
    ensures saved.None? ==> k == InitialSkills
    ensures saved.Some? && saved.value.diccao.Some? ==> k.diccao == saved.value.diccao.value
    ensures saved.Some? && saved.value.diccao.None? ==> k.diccao == InitialSkills.diccao
    ensures saved.Some? && saved.value.confianca.Some? ==> k.confianca == saved.value.confianca.value
    ensures saved.Some? && saved.value.confianca.None? ==> k.confianca == InitialSkills.confianca
    ensures saved.Some? && saved.value.vocabulario.Some? ==> k.vocabulario == saved.value.vocabulario.value
    ensures saved.Some? && saved.value.vocabulario.None? ==> k.vocabulario == InitialSkills.vocabulario
    ensures saved.Some? && saved.value.empatia.Some? ==> k.empatia == saved.value.empatia.value
    ensures saved.Some? && saved.value.empatia.None? ==> k.empatia == InitialSkills.empatia
  {
    if saved.None? then InitialSkills
    else Skills(Or(saved.value.diccao, InitialSkills.diccao), Or(saved.value.confianca, InitialSkills.confianca),
                Or(saved.value.vocabulario, InitialSkills.vocabulario), Or(saved.value.empatia, InitialSkills.empatia))
  }

  /** `parsed.lastCustomEventDate || null`: an empty date counts as none. */
  function LoadedDate(stored: Option<Day>): (d: Option<Day>)
    ensures d.Some? <==> stored.Some? && stored.value != ""
    ensures d.Some? ==> d == stored
  {
    if stored.Some? && stored.value != "" then stored else None
  }

  datatype CustomEventOutcome = CustomEventOutcome(success: bool, message: string, result: XpResult)

  datatype GameOutcome = GameOutcome(success: bool, result: XpResult)

  const AlreadyRegisteredToday := "Você já registrou um evento raro hoje."

  /** The message of a registered custom event, e.g. "Evento registrado! +75 XP". */
  function RegisteredMessage(finalXp: int): string
  {
    "Evento registrado! +" + Text.IntToString(finalXp) + " XP"
  }

  /** The id `custom-${Date.now()}` of a custom event registered at instant `nowMs`. */
  function CustomEventId(nowMs: int): string
  {
    "custom-" + Text.IntToString(nowMs)
  }

  /**
   * The level-up loop of `addXp`, on local copies: while the next level's
   * requirement is known and paid for, pay it and move up.
   */
  method ClimbLevels(level: int, xp: int) returns (currentLevel: int, currentXp: int, leveledUp: bool)
    ensures LevelXp(currentLevel, currentXp) == Normalize(level, xp)
    ensures leveledUp <==> currentLevel > level
  {
    currentXp := xp;
    currentLevel := level;
    leveledUp := false;
    var xpForNextLevel := XpRequired(currentLevel);
    while xpForNextLevel.Some? && currentXp >= xpForNextLevel.value
      invariant xpForNextLevel == XpRequired(currentLevel)
      invariant Normalize(currentLevel, currentXp) == Normalize(level, xp)
      invariant currentLevel >= level && (leveledUp <==> currentLevel > level)
      decreases LevelCount + 1 - currentLevel
    {
      leveledUp := true;
      currentXp := currentXp - xpForNextLevel.value;
      currentLevel := currentLevel + 1;
      xpForNextLevel := XpRequired(currentLevel);
    }
  }

  /** The milestone's `unlocks.forEach`: push each feature not unlocked yet onto a copy of the list. */
  method UnlockFeatures(features: seq<string>, unlocks: seq<string>) returns (newFeatures: seq<string>)
    ensures newFeatures == AppendMissing(features, unlocks)
  {
    newFeatures := features;
    for i := 0 to |unlocks|
      invariant newFeatures == AppendMissing(features, unlocks[..i])
    {
      assert unlocks[..i + 1][..i] == unlocks[..i];
      if unlocks[i] !in newFeatures {
        newFeatures := newFeatures + [unlocks[i]];
      }
    }
    assert unlocks[..|unlocks|] == unlocks;
  }

  class UserRecord {
    var name: string
    var level: int
    var xp: int
    var coins: int
    var streak: int
    var skills: Skills
    var questsCompleted: set<string>
    var eventsCompleted: set<string>
    var lastCustomEventDate: Option<Day>
    var gameCooldowns: map<string, int>        // game id -> instant of the last play, in ms
    var journalEntries: seq<JournalEntry>      // newest first
    var completedDailyChallenges: map<string, Day>
    var backgroundColor: string
    var purchasedItems: seq<string>
    var eventHistory: seq<SpecialEvent>        // newest first
    var unlockedFeatures: seq<string>
    var milestonesReached: seq<int>

    /** The fields `addXp` works on. */
    function Snapshot(): Progress
      reads this`level, this`xp, this`coins, this`milestonesReached, this`unlockedFeatures
    {
      Progress(level, xp, coins, milestonesReached, unlockedFeatures)
    }

    ghost predicate Valid()
      reads this
    {
      Inv(Snapshot()) && SkillsOk(skills)
    }

    /** `INITIAL_USER_DATA`. */
    constructor ()
      ensures name == "Viajante" && level == 1 && xp == 0 && coins == 50 && streak == 1
      ensures skills == InitialSkills
      ensures questsCompleted == {} && eventsCompleted == {} && lastCustomEventDate == None
      ensures gameCooldowns == map[] && journalEntries == [] && completedDailyChallenges == map[]
      ensures backgroundColor == "#0f172a" && purchasedItems == ["bg-default"]
      ensures eventHistory == [] && unlockedFeatures == [] && milestonesReached == []
      ensures Valid()
    {
      name := "Viajante";
      level := 1;
      xp := 0;
      coins := 50;
      streak := 1;
      skills := InitialSkills;
      questsCompleted := {};
      eventsCompleted := {};
      lastCustomEventDate := None;
      gameCooldowns := map[];
      journalEntries := [];
      completedDailyChallenges := map[];
      backgroundColor := "#0f172a";
      purchasedItems := ["bg-default"];
      eventHistory := [];
      unlockedFeatures := [];
      milestonesReached := [];
    }

    /** The load merge: every stored field over its default, skills gauge by gauge. */
    constructor Restore(saved: SavedRecord)
      ensures name == Or(saved.name, "Viajante") && level == Or(saved.level, 1) && xp == Or(saved.xp, 0)
      ensures coins == Or(saved.coins, 50) && streak == Or(saved.streak, 1)
      ensures skills == MergeSkills(saved.skills)
      ensures questsCompleted == Or(saved.questsCompleted, {}) && eventsCompleted == Or(saved.eventsCompleted, {})
      ensures lastCustomEventDate == LoadedDate(saved.lastCustomEventDate)
      ensures gameCooldowns == Or(saved.gameCooldowns, map[])
      ensures journalEntries == Or(saved.journalEntries, [])
      ensures completedDailyChallenges == Or(saved.completedDailyChallenges, map[])
      ensures backgroundColor == Or(saved.backgroundColor, "#0f172a")
      ensures purchasedItems == Or(saved.purchasedItems, ["bg-default"])
      ensures eventHistory == Or(saved.eventHistory, [])
      ensures unlockedFeatures == Or(saved.unlockedFeatures, [])
      ensures milestonesReached == Or(saved.milestonesReached, [])
    {
      name := Or(saved.name, "Viajante");
      level := Or(saved.level, 1);
      xp := Or(saved.xp, 0);
      coins := Or(saved.coins, 50);
      streak := Or(saved.streak, 1);
      skills := MergeSkills(saved.skills);
      questsCompleted := Or(saved.questsCompleted, {});
      eventsCompleted := Or(saved.eventsCompleted, {});
      lastCustomEventDate := LoadedDate(saved.lastCustomEventDate);
      gameCooldowns := Or(saved.gameCooldowns, map[]);
      journalEntries := Or(saved.journalEntries, []);
      completedDailyChallenges := Or(saved.completedDailyChallenges, map[]);
      backgroundColor := Or(saved.backgroundColor, "#0f172a");
      purchasedItems := Or(saved.purchasedItems, ["bg-default"]);
      eventHistory := Or(saved.eventHistory, []);
      unlockedFeatures := Or(saved.unlockedFeatures, []);
      milestonesReached := Or(saved.milestonesReached, []);
    }

    /** `setUserName`. */
    method SetUserName(newName: string)
      modifies this`name
      ensures name == newName
      ensures old(Valid()) ==> Valid()
    {
      name := newName;
    }

    /**
     * `addXp`: the level-up loop on local copies, then the milestone check on
     * the final level, then the coins; the new state is exactly `Award`.
     */
    method AddXp(amount: int) returns (res: XpResult)
      modifies this`level, this`xp, this`coins, this`milestonesReached, this`unlockedFeatures
      ensures (Snapshot(), res) == Award(old(Snapshot()), amount)
      ensures old(Valid()) && old(xp) + amount >= 0 ==> Valid()
    {
      ghost var before := Snapshot();
      var currentLevel, currentXp, leveledUp := ClimbLevels(level, xp + amount);

      var newUnlockedFeatures := unlockedFeatures;
      var newMilestonesReached := milestonesReached;
      if leveledUp && currentLevel in Milestones {
        var milestone := Milestones[currentLevel];
        if currentLevel !in newMilestonesReached {
          newMilestonesReached := newMilestonesReached + [currentLevel];
          newUnlockedFeatures := UnlockFeatures(unlockedFeatures, milestone.unlocks);
        }
      }

      coins := coins + (if leveledUp then (currentLevel - level) * CoinsPerLevel else 0);
      xp := currentXp;
      level := currentLevel;
      unlockedFeatures := newUnlockedFeatures;
      milestonesReached := newMilestonesReached;
      res := XpResult(leveledUp, if leveledUp then Some(currentLevel) else None);

      if Inv(before) && before.xp + amount >= 0 {
        AwardPreservesInv(before, amount);
      }
    }

    /** `updateSkills(type)`. */
    method UpdateSkills(kind: QuestType)
      modifies this`skills
      ensures skills == QuestSkills(old(skills), kind)
      ensures old(SkillsOk(skills)) ==> SkillsOk(skills) && NoGaugeDrops(old(skills), skills)
    {
      skills := QuestSkills(skills, kind);
    }

    /**
     * `completeQuest(questId, xp)`: a quest already done changes nothing;
     * otherwise train the quest's skill (when the id is in the catalog), mark it
     * done and award the XP the caller passes.
     */
    method CompleteQuest(questId: string, questXp: int) returns (res: XpResult)
      modifies this`questsCompleted, this`skills
      modifies this`level, this`xp, this`coins, this`milestonesReached, this`unlockedFeatures
      ensures old(questId in questsCompleted) ==>
        res == NoLevelUp && questsCompleted == old(questsCompleted) && skills == old(skills)
        && Snapshot() == old(Snapshot())
      ensures old(questId !in questsCompleted) ==>
        questsCompleted == old(questsCompleted) + {questId}
        && skills == (match FindQuest(Quests(), questId)
                      case Some(q) => QuestSkills(old(skills), q.kind)
                      case None => old(skills))
        && (Snapshot(), res) == Award(old(Snapshot()), questXp)
      ensures old(Valid()) && (old(questId in questsCompleted) || old(xp) + questXp >= 0) ==> Valid()
    {
      if questId in questsCompleted {
        return NoLevelUp;
      }
      var quest := FindQuest(Quests(), questId);
      if quest.Some? {
        UpdateSkills(quest.value.kind);
      }
      questsCompleted := questsCompleted + {questId};
      res := AddXp(questXp);
    }

    /**
     * `completeEvent(event)`: an event already done changes nothing; otherwise
     * mark it, add 0.5 to confidence and award the event's XP.
     */
    method CompleteEvent(event: SpecialEvent) returns (res: XpResult)
      modifies this`eventsCompleted, this`skills
      modifies this`level, this`xp, this`coins, this`milestonesReached, this`unlockedFeatures
      ensures old(event.id in eventsCompleted) ==>
        res == NoLevelUp && eventsCompleted == old(eventsCompleted) && skills == old(skills)
        && Snapshot() == old(Snapshot())
      ensures old(event.id !in eventsCompleted) ==>
        eventsCompleted == old(eventsCompleted) + {event.id}
        && skills == old(skills).(confianca := Bump(old(skills.confianca), 50))
        && (Snapshot(), res) == Award(old(Snapshot()), event.xp)
      ensures old(Valid()) && (old(event.id in eventsCompleted) || old(xp) + event.xp >= 0) ==> Valid()
    {
      if event.id in eventsCompleted {
        return NoLevelUp;
      }
      eventsCompleted := eventsCompleted + {event.id};
      skills := skills.(confianca := Bump(skills.confianca, 50));
      res := AddXp(event.xp);
    }

    /**
     * `registerCustomEvent`: at most one per day. The award is capped at three
     * quarters of the current level's requirement; the event goes to the front
     * of the history, confidence gains 0.3 and diction 0.2.
     */
    method RegisterCustomEvent(title: string, description: string, requestedXp: int, today: Day, nowMs: int)
      returns (outcome: CustomEventOutcome)
      modifies this`lastCustomEventDate, this`eventHistory, this`skills
      modifies this`level, this`xp, this`coins, this`milestonesReached, this`unlockedFeatures
      ensures outcome.success <==> old(lastCustomEventDate) != Some(today)
      ensures !outcome.success ==>
        outcome == CustomEventOutcome(false, AlreadyRegisteredToday, NoLevelUp)
        && lastCustomEventDate == old(lastCustomEventDate) && eventHistory == old(eventHistory)
        && skills == old(skills) && Snapshot() == old(Snapshot())
      ensures outcome.success ==>
        var finalXp := CustomEventXp(old(level), requestedXp);
        && lastCustomEventDate == Some(today)
        && eventHistory == [SpecialEvent(CustomEventId(nowMs), title, description, finalXp, Custom, Some(today))]
                           + old(eventHistory)
        && skills == old(skills).(confianca := Bump(old(skills.confianca), 30), diccao := Bump(old(skills.diccao), 20))
        && (Snapshot(), outcome.result) == Award(old(Snapshot()), finalXp)
        && outcome.message == RegisteredMessage(finalXp)
      ensures old(Valid()) && old(xp) + requestedXp >= 0 ==> Valid()
    {
      if lastCustomEventDate == Some(today) {
        return CustomEventOutcome(false, AlreadyRegisteredToday, NoLevelUp);
      }
      var finalXp := CustomEventXp(level, requestedXp);
      var newEvent := SpecialEvent(CustomEventId(nowMs), title, description, finalXp, Custom, Some(today));
      lastCustomEventDate := Some(today);
      eventHistory := [newEvent] + eventHistory;
      skills := skills.(confianca := Bump(skills.confianca, 30), diccao := Bump(skills.diccao, 20));
      var xpResult := AddXp(finalXp);
      outcome := CustomEventOutcome(true, RegisteredMessage(finalXp), xpResult);
    }

    /**
     * `completeGame`: refused while the game's cooldown runs; otherwise record
     * the play, add 0.05 to diction and award the game's XP (possibly 0).
     */
    method CompleteGame(gameId: string, xpReward: int, cooldownHours: int, now: int) returns (outcome: GameOutcome)
      modifies this`gameCooldowns, this`skills
      modifies this`level, this`xp, this`coins, this`milestonesReached, this`unlockedFeatures
      ensures outcome.success <==> !old(GameLocked(gameCooldowns, gameId, now, cooldownHours))
      ensures !outcome.success ==>
        outcome.result == NoLevelUp && gameCooldowns == old(gameCooldowns) && skills == old(skills)
        && Snapshot() == old(Snapshot())
      ensures outcome.success ==>
        gameCooldowns == old(gameCooldowns)[gameId := now]
        && skills == old(skills).(diccao := Bump(old(skills.diccao), 5))
        && (Snapshot(), outcome.result) == Award(old(Snapshot()), xpReward)
      ensures old(Valid()) && old(xp) + xpReward >= 0 ==> Valid()
    {
      if GameLocked(gameCooldowns, gameId, now, cooldownHours) {
        return GameOutcome(false, NoLevelUp);
      }
      gameCooldowns := gameCooldowns[gameId := now];
      skills := skills.(diccao := Bump(skills.diccao, 5));
      var xpResult := AddXp(xpReward);
      outcome := GameOutcome(true, xpResult);
    }

    /** `addJournalEntry`: the entry goes to the front, vocabulary gains 0.05. */
    method AddJournalEntry(content: string, timestamp: string)
      modifies this`journalEntries, this`skills
      ensures journalEntries == [JournalEntry(timestamp, content)] + old(journalEntries)
      ensures skills == old(skills).(vocabulario := Bump(old(skills.vocabulario), 5))
      ensures old(Valid()) ==> Valid()
    {
      journalEntries := [JournalEntry(timestamp, content)] + journalEntries;
      skills := skills.(vocabulario := Bump(skills.vocabulario, 5));
    }

    /**
     * `completeDailyChallenge`: a challenge already done today changes nothing;
     * otherwise store today for it and award a flat 5 XP.
     */
    method CompleteDailyChallenge(challengeId: string, today: Day) returns (res: XpResult)
      modifies this`completedDailyChallenges
      modifies this`level, this`xp, this`coins, this`milestonesReached, this`unlockedFeatures
      ensures old(DailyDone(completedDailyChallenges, challengeId, today)) ==>
        res == NoLevelUp && completedDailyChallenges == old(completedDailyChallenges) && Snapshot() == old(Snapshot())
      ensures !old(DailyDone(completedDailyChallenges, challengeId, today)) ==>
        completedDailyChallenges == old(completedDailyChallenges)[challengeId := today]
        && (Snapshot(), res) == Award(old(Snapshot()), DailyChallengeXp)
      ensures DailyDone(completedDailyChallenges, challengeId, today)
      ensures old(Valid()) ==> Valid()
    {
      if DailyDone(completedDailyChallenges, challengeId, today) {
        return NoLevelUp;
      }
      completedDailyChallenges := completedDailyChallenges[challengeId := today];
      res := AddXp(DailyChallengeXp);
    }

    /** `addCoins`. */
    method AddCoins(amount: int)
      modifies this`coins
      ensures coins == old(coins) + amount
      ensures old(Valid()) ==> Valid()
    {
      coins := coins + amount;
    }
  }

  /** A second custom event on the same day is always refused with the once-a-day message. */
  method SecondCustomEventSameDay(u: UserRecord, today: Day, nowMs: int, laterMs: int) returns (second: CustomEventOutcome)
    modifies u
    ensures !second.success && second.message == AlreadyRegisteredToday
    ensures u.lastCustomEventDate == Some(today)
  {
    var first := u.RegisterCustomEvent("Reunião", "Falei na reunião", 50, today, nowMs);
    var history := u.eventHistory;
    second := u.RegisterCustomEvent("Outra", "De novo", 50, today, laterMs);
    assert u.eventHistory == history;
  }

  /** Completing the same daily challenge twice on one day awards XP at most once. */
  method DailyChallengeOncePerDay(u: UserRecord, challengeId: string, today: Day) returns (second: XpResult)
    modifies u
    ensures second == NoLevelUp
    ensures DailyDone(u.completedDailyChallenges, challengeId, today)
  {
    var first := u.CompleteDailyChallenge(challengeId, today);
    var progress := u.Snapshot();
    second := u.CompleteDailyChallenge(challengeId, today);
    assert u.Snapshot() == progress;
  }
}
