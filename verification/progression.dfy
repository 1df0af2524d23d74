/**
 * The pure rules of the progression engine: skill gauges, the level-up rule
 * behind `addXp`, milestone grants, and the caps and gates the intents apply
 * before they touch the user record.
 */
module Progression {
  import opened Wrappers
  import opened Catalog

  /** A calendar day as the engine stores it (`YYYY-MM-DD`); days are only compared for equality. */
  type Day = string

  predicate NoDup<T(==)>(s: seq<T>)
  {
    forall i, j :: 0 <= i < j < |s| ==> s[i] != s[j]
  }

  // ---------------------------------------------------------------- skill gauges

  /**
   * The four skill gauges in hundredths of a point: 100 stands for 1.0 and the
   * cap 1000 for 10.0, so the bumps 0.05 .. 0.5 become 5 .. 50.
   */
  datatype Skills = Skills(diccao: int, confianca: int, vocabulario: int, empatia: int)

  const SkillCap := 1000
  const InitialSkills := Skills(100, 100, 100, 100)

  predicate GaugeOk(g: int)
  {
    100 <= g <= SkillCap
  }

  predicate SkillsOk(k: Skills)
  {
    GaugeOk(k.diccao) && GaugeOk(k.confianca) && GaugeOk(k.vocabulario) && GaugeOk(k.empatia)
  }

  /** No gauge of `b` is below the same gauge of `a`. */
  predicate NoGaugeDrops(a: Skills, b: Skills)
  {
    a.diccao <= b.diccao && a.confianca <= b.confianca && a.vocabulario <= b.vocabulario && a.empatia <= b.empatia
  }

  /** `Math.min(10, g + delta)`: raise a gauge, clamped at the cap. */
  function Bump(g: int, delta: int): (r: int)
    ensures r <= SkillCap
    ensures g + delta <= SkillCap ==> r == g + delta
    ensures g + delta >= SkillCap ==> r == SkillCap
    ensures delta >= 0 && GaugeOk(g) ==> GaugeOk(r) && g <= r
  {
    if g + delta < SkillCap then g + delta else SkillCap
  }

  /**
   * `updateSkills`: a physical quest trains diction, an interpersonal one
   * confidence and empathy, a reflective one vocabulary.
   */
  function QuestSkills(k: Skills, kind: QuestType): (r: Skills)
    ensures SkillsOk(k) ==> SkillsOk(r) && NoGaugeDrops(k, r)
    ensures r.diccao != k.diccao ==> kind == Physical
    ensures r.confianca != k.confianca || r.empatia != k.empatia ==> kind == Interpersonal
    ensures r.vocabulario != k.vocabulario ==> kind == Reflective
    ensures kind == Physical && k.diccao <= SkillCap - 10 ==> r.diccao == k.diccao + 10
    ensures kind == Interpersonal && k.confianca <= SkillCap - 10 ==> r.confianca == k.confianca + 10
    ensures kind == Interpersonal && k.empatia <= SkillCap - 5 ==> r.empatia == k.empatia + 5
    ensures kind == Reflective && k.vocabulario <= SkillCap - 10 ==> r.vocabulario == k.vocabulario + 10
    ensures kind == Physical && k.diccao + 10 >= SkillCap ==> r.diccao == SkillCap
    ensures kind == Interpersonal && k.confianca + 10 >= SkillCap ==> r.confianca == SkillCap
    ensures kind == Interpersonal && k.empatia + 5 >= SkillCap ==> r.empatia == SkillCap
    ensures kind == Reflective && k.vocabulario + 10 >= SkillCap ==> r.vocabulario == SkillCap
  {
    match kind
    case Physical => k.(diccao := Bump(k.diccao, 10))
    case Interpersonal => k.(confianca := Bump(k.confianca, 10), empatia := Bump(k.empatia, 5))
    case Reflective => k.(vocabulario := Bump(k.vocabulario, 10))
  }

  // ---------------------------------------------------------------- the level-up rule

  /** A level with the XP carried inside it. */
  datatype LevelXp = LevelXp(level: int, xp: int)

  /** `xpRequired ?? Infinity`: true when the XP no longer pays for the next level. */
  predicate Settled(level: int, xp: int)
  {
    XpRequired(level).None? || xp < XpRequired(level).value
  }

  /** The requirement of a table level, 0 elsewhere. */
  function ReqOrZero(level: int): (r: int)
    ensures r >= 0
    ensures 1 <= level <= LevelCount ==> r == 100 + 50 * (level - 1)
  {
    if XpRequired(level).Some? then XpRequired(level).value else 0
  }

  /** The XP spent to climb from level `from` to level `to`: the requirements of from .. to-1. */
  function SumRequired(from: int, to: int): (r: int)
    decreases to - from
    ensures r >= 0
    ensures to <= from ==> r == 0
  {
    if to <= from then 0 else ReqOrZero(from) + SumRequired(from + 1, to)
  }

  /**
   * The level-up loop of `addXp`: while the XP pays for the current level,
   * pay it and move up; a level past the table has no requirement and stops it.
   */
  function Normalize(level: int, xp: int): LevelXp
    decreases LevelCount + 1 - level
  {
    if Settled(level, xp) then LevelXp(level, xp)
    else Normalize(level + 1, xp - XpRequired(level).value)
  }

  /**
   * What the loop guarantees: no level is lost, the XP spent is exactly the
   * requirements of the levels passed, the XP left no longer pays for the next
   * level, and the climb stops at level 101 at the latest.
   */
  lemma {:induction false} NormalizeSpec(level: int, xp: int)
    ensures Normalize(level, xp).level >= level
    ensures Normalize(level, xp).xp + SumRequired(level, Normalize(level, xp).level) == xp
    ensures Settled(Normalize(level, xp).level, Normalize(level, xp).xp)
    ensures Normalize(level, xp).level > level ==> Normalize(level, xp).xp >= 0
    ensures level <= LevelCount + 1 ==> Normalize(level, xp).level <= LevelCount + 1
    decreases LevelCount + 1 - level
  {
    if !Settled(level, xp) {
      NormalizeSpec(level + 1, xp - XpRequired(level).value);
    }
  }

  /**
   * Independent description of the loop's outcome: the only settled level and
   * remainder that account for all the XP are the ones the loop reaches.
   */
  lemma {:induction false} NormalizeUnique(level: int, xp: int, top: int, rest: int)
    requires 1 <= level <= top <= LevelCount + 1
    requires 0 <= rest && Settled(top, rest)
    requires rest + SumRequired(level, top) == xp
    ensures Normalize(level, xp) == LevelXp(top, rest)
    decreases top - level
  {
    if level < top {
      var req := XpRequired(level).value;
      assert SumRequired(level, top) == req + SumRequired(level + 1, top);
      assert !Settled(level, xp);
      NormalizeUnique(level + 1, xp - req, top, rest);
    }
  }

  /**
   * Awarding XP in two steps climbs exactly as far as awarding the sum at once,
   * as long as the second step is not negative.
   */
  lemma {:induction false} NormalizeSplit(level: int, xp: int, extra: int)
    requires extra >= 0
    ensures Normalize(Normalize(level, xp).level, Normalize(level, xp).xp + extra) == Normalize(level, xp + extra)
    decreases LevelCount + 1 - level
  {
    if !Settled(level, xp) {
      var req := XpRequired(level).value;
      NormalizeSplit(level + 1, xp - req, extra);
      assert (xp - req) + extra == (xp + extra) - req;
    }
  }

  // ---------------------------------------------------------------- milestone grants

  /** `unlocks.forEach(f => { if (!features.includes(f)) features.push(f) })`. */
  function AppendMissing(features: seq<string>, unlocks: seq<string>): (r: seq<string>)
    decreases |unlocks|
    ensures features <= r
    ensures forall f :: f in r <==> f in features || f in unlocks
    ensures NoDup(features) ==> NoDup(r)
  {
    if |unlocks| == 0 then features
    else
      var before := AppendMissing(features, unlocks[..|unlocks| - 1]);
      var f := unlocks[|unlocks| - 1];
      if f in before then before else before + [f]
  }

  /** Features that are all unlocked already are not appended again. */
  lemma {:induction false} AppendMissingPresent(features: seq<string>, unlocks: seq<string>)
    requires forall f :: f in unlocks ==> f in features
    ensures AppendMissing(features, unlocks) == features
    decreases |unlocks|
  {
    if |unlocks| > 0 {
      var init := unlocks[..|unlocks| - 1];
      assert forall f :: f in init ==> f in unlocks;
      AppendMissingPresent(features, init);
      assert unlocks[|unlocks| - 1] in unlocks;
    }
  }

  /** Distinct features that are all new are appended in order. */
  lemma {:induction false} AppendMissingFresh(features: seq<string>, unlocks: seq<string>)
    requires NoDup(unlocks)
    requires forall f :: f in unlocks ==> f !in features
    ensures AppendMissing(features, unlocks) == features + unlocks
    decreases |unlocks|
  {
    if |unlocks| > 0 {
      var init := unlocks[..|unlocks| - 1];
      var last := unlocks[|unlocks| - 1];
      assert unlocks == init + [last];
      assert NoDup(init) by {
        forall i, j | 0 <= i < j < |init|
          ensures init[i] != init[j]
        {
          assert init[i] == unlocks[i] && init[j] == unlocks[j];
        }
      }
      AppendMissingFresh(features, init);
      assert last !in features + init by {
        forall k | 0 <= k < |init|
          ensures init[k] != last
        {
          assert init[k] == unlocks[k];
        }
      }
    }
  }

  /** The grant of the milestone at `level`, as a pair (milestones reached, unlocked features). */
  function GrantMilestone(level: int, reached: seq<int>, features: seq<string>): (r: (seq<int>, seq<string>))
    ensures reached <= r.0 && features <= r.1
    ensures r.0 == reached || (level in Milestones && level !in reached && r.0 == reached + [level])
    ensures r.0 == reached ==> r.1 == features
    ensures r.0 != reached ==> forall f :: f in r.1 <==> f in features || f in Milestones[level].unlocks
    ensures level in Milestones && level !in reached ==>
      r == (reached + [level], AppendMissing(features, Milestones[level].unlocks))
  {
    if level in Milestones && level !in reached then
      (reached + [level], AppendMissing(features, Milestones[level].unlocks))
    else (reached, features)
  }

  /** Granting a milestone a second time changes nothing. */
  lemma GrantMilestoneIdempotent(level: int, reached: seq<int>, features: seq<string>)
    ensures var once := GrantMilestone(level, reached, features);
      GrantMilestone(level, once.0, once.1) == once
  {
    var once := GrantMilestone(level, reached, features);
    if once.0 != reached {
      assert level in once.0;
    }
  }

  // ---------------------------------------------------------------- awarding XP

  /** What `addXp` reports: whether the level rose and, if so, the final level. */
  datatype XpResult = XpResult(leveledUp: bool, newLevel: Option<int>)

  const NoLevelUp := XpResult(false, None)

  const CoinsPerLevel := 25

  /** The part of the user record that `addXp` reads and writes. */
  datatype Progress = Progress(level: int, xp: int, coins: int, milestonesReached: seq<int>, unlockedFeatures: seq<string>)

  /**
   * `addXp(amount)`: run the level-up loop, check the final level (and only
   * that one) for a milestone not reached yet, pay 25 coins per level gained.
   */
  function Award(p: Progress, amount: int): (r: (Progress, XpResult))
    ensures r.0.xp + SumRequired(p.level, r.0.level) == p.xp + amount
    ensures r.0.level >= p.level && Settled(r.0.level, r.0.xp)
    ensures p.level <= LevelCount + 1 ==> r.0.level <= LevelCount + 1
    ensures r.1.leveledUp <==> r.0.level > p.level
    ensures r.1.leveledUp <==> !Settled(p.level, p.xp + amount)
    ensures r.1.leveledUp ==> r.0.xp >= 0
    ensures r.1.newLevel == if r.1.leveledUp then Some(r.0.level) else None
    ensures r.0.coins == p.coins + CoinsPerLevel * (r.0.level - p.level)
    ensures p.milestonesReached <= r.0.milestonesReached && p.unlockedFeatures <= r.0.unlockedFeatures
    ensures r.0.milestonesReached == p.milestonesReached ==> r.0.unlockedFeatures == p.unlockedFeatures
    ensures r.0.milestonesReached == p.milestonesReached
         || (r.1.leveledUp && r.0.level in Milestones && r.0.level !in p.milestonesReached
             && r.0.milestonesReached == p.milestonesReached + [r.0.level])
    ensures r.1.leveledUp && r.0.level in Milestones && r.0.level !in p.milestonesReached ==>
      r.0.milestonesReached == p.milestonesReached + [r.0.level]
      && r.0.unlockedFeatures == AppendMissing(p.unlockedFeatures, Milestones[r.0.level].unlocks)
  {
    NormalizeSpec(p.level, p.xp + amount);
    var n := Normalize(p.level, p.xp + amount);
    var up := n.level > p.level;
    var g := if up then GrantMilestone(n.level, p.milestonesReached, p.unlockedFeatures)
             else (p.milestonesReached, p.unlockedFeatures);
    (Progress(n.level, n.xp, p.coins + (if up then (n.level - p.level) * CoinsPerLevel else 0), g.0, g.1),
     XpResult(up, if up then Some(n.level) else None))
  }

  /** A well-formed record: a table level (or 101), settled non-negative XP, sound milestone lists. */
  predicate Inv(p: Progress)
  {
    && 1 <= p.level <= LevelCount + 1
    && 0 <= p.xp && Settled(p.level, p.xp)
    && NoDup(p.milestonesReached)
    && (forall i :: 0 <= i < |p.milestonesReached| ==>
          p.milestonesReached[i] in Milestones && p.milestonesReached[i] <= p.level)
    && NoDup(p.unlockedFeatures)
  }

  /** An award that does not take the XP below zero keeps the record well-formed. */
  lemma AwardPreservesInv(p: Progress, amount: int)
    requires Inv(p) && p.xp + amount >= 0
    ensures Inv(Award(p, amount).0)
  {
    NormalizeSpec(p.level, p.xp + amount);
    var q := Award(p, amount).0;
    if q.milestonesReached != p.milestonesReached {
      var ms := q.milestonesReached;
      assert ms == p.milestonesReached + [q.level];
      assert forall i :: 0 <= i < |ms| - 1 ==> ms[i] == p.milestonesReached[i];
    }
  }

  /**
   * A zero or negative award on a well-formed record never levels up, pays no
   * coins and grants nothing; a negative one lowers the XP by its amount.
   */
  lemma AwardNonPositive(p: Progress, amount: int)
    requires Inv(p) && amount <= 0
    ensures Award(p, amount) == (p.(xp := p.xp + amount), NoLevelUp)
  {
  }

  /**
   * Level, XP and coins do not depend on how an award is split, as long as the
   * second part is not negative.
   */
  lemma AwardAdditive(p: Progress, a: int, b: int)
    requires b >= 0
    ensures Award(Award(p, a).0, b).0.level == Award(p, a + b).0.level
    ensures Award(Award(p, a).0, b).0.xp == Award(p, a + b).0.xp
    ensures Award(Award(p, a).0, b).0.coins == Award(p, a + b).0.coins
  {
    NormalizeSplit(p.level, p.xp + a, b);
    assert p.xp + a + b == p.xp + (a + b);
  }

  /** From level 4 with no XP, 550 XP lands on level 6: milestone 5 is passed over and never granted. */
  lemma MilestoneSkippedOnMultiLevelJump()
    ensures Award(Progress(4, 0, 0, [], []), 550).0 == Progress(6, 0, 50, [], [])
  {
    assert Normalize(4, 550) == Normalize(5, 300);
    assert Normalize(5, 300) == Normalize(6, 0);
    assert Normalize(6, 0) == LevelXp(6, 0);
    assert 6 !in Milestones;
  }

  /**
   * The same 550 XP given as 250 and then 300 reaches the same level 6, but
   * stops at level 5 on the way and so does grant milestone 5.
   */
  lemma MilestoneGrantedStepwise()
    ensures Award(Progress(4, 0, 0, [], []), 250).0.level == 5
    ensures Award(Progress(4, 0, 0, [], []), 250).0.milestonesReached == [5]
    ensures Award(Award(Progress(4, 0, 0, [], []), 250).0, 300).0.level == 6
    ensures Award(Award(Progress(4, 0, 0, [], []), 250).0, 300).0.milestonesReached == [5]
  {
    AwardFromFourTo5();
    AwardFromFiveTo6();
  }

  /** 250 XP from level 4 lands exactly on level 5 and grants its milestone. */
  lemma AwardFromFourTo5()
    ensures Award(Progress(4, 0, 0, [], []), 250).0 == Progress(5, 0, 25, [5], Milestones[5].unlocks)
  {
    assert Normalize(4, 250) == Normalize(5, 0);
    AppendMissingFresh([], Milestones[5].unlocks);
  }

  /** 300 more XP move on to level 6, which has no milestone, so the list stays as it was. */
  lemma AwardFromFiveTo6()
    ensures Award(Progress(5, 0, 25, [5], Milestones[5].unlocks), 300).0.level == 6
    ensures Award(Progress(5, 0, 25, [5], Milestones[5].unlocks), 300).0.milestonesReached == [5]
  {
    assert Normalize(5, 300) == Normalize(6, 0);
    assert 6 !in Milestones;
  }

  // ---------------------------------------------------------------- caps and gates

  /** `Math.floor(xpRequired * 0.75)`, the most a custom event may award at this level. */
  function MaxCustomXp(level: int): (m: int)
    ensures 4 * m <= 3 * RequirementOr100(level) < 4 * (m + 1)
    ensures m >= 75
  {
    (3 * RequirementOr100(level)) / 4
  }

  /** `Math.min(requestedXp, maxAllowedXp)`. */
  function CustomEventXp(level: int, requested: int): (r: int)
    ensures r <= requested && r <= MaxCustomXp(level)
    ensures r == requested || r == MaxCustomXp(level)
  {
    if requested < MaxCustomXp(level) then requested else MaxCustomXp(level)
  }

  /**
   * At level 1 and past the table (where the requirement falls back to 100) the
   * cap is 75 XP; at level 3 (requirement 200) a request for 1000 XP gets 150.
   */
  lemma CustomXpCapExamples()
    ensures MaxCustomXp(1) == 75 && MaxCustomXp(LevelCount + 1) == 75
    ensures MaxCustomXp(2) == 112 && MaxCustomXp(LevelCount) == 3787
    ensures CustomEventXp(3, 1000) == 150
  {
    assert RequirementOr100(2) == 150;
    assert RequirementOr100(3) == 200;
    assert RequirementOr100(LevelCount) == 5050;
  }

  const MsPerHour := 3600000

  /** `completeGame`'s refusal: a last play is on record and less than the cooldown has passed. */
  predicate GameLocked(cooldowns: map<string, int>, gameId: string, now: int, cooldownHours: int)
  {
    gameId in cooldowns && now - cooldowns[gameId] < cooldownHours * MsPerHour
  }

  /** `completeDailyChallenge`'s no-op condition: today's date is already stored for this challenge. */
  predicate DailyDone(done: map<string, Day>, challengeId: string, today: Day)
  {
    challengeId in done && done[challengeId] == today
  }

  /** The flat award of a daily challenge, whatever the catalog lists for it. */
  const DailyChallengeXp := 5
}
