/**
 * The selections the dashboard derives from the user record: the two quests
 * on offer, whether a daily challenge is done, and the next milestone with its
 * row of five progress dots.
 */
module Dashboard {
  import opened Wrappers
  import opened Catalog
  import opened Progression

  // ---------------------------------------------------------------- active quests

  /** `quests.filter(q => q.level <= level && !done[q.id])`, in catalog order. */
  function Eligible(quests: seq<Quest>, level: int, done: set<string>): (r: seq<Quest>)
    ensures |r| <= |quests|
    ensures forall q :: q in r <==> q in quests && q.level <= level && q.id !in done
  {
    if |quests| == 0 then []
    else
      var rest := Eligible(quests[1..], level, done);
      if quests[0].level <= level && quests[0].id !in done then [quests[0]] + rest else rest
  }

  /** The filter keeps the catalog's order: filtering a concatenation concatenates the filtered parts. */
  lemma {:induction false} EligibleConcat(a: seq<Quest>, b: seq<Quest>, level: int, done: set<string>)
    ensures Eligible(a + b, level, done) == Eligible(a, level, done) + Eligible(b, level, done)
  {
    if |a| == 0 {
      assert a + b == b;
    } else {
      assert (a + b)[0] == a[0];
      assert (a + b)[1..] == a[1..] + b;
      EligibleConcat(a[1..], b, level, done);
    }
  }

  /** `activeQuests`: the first two eligible quests. */
  function ActiveQuests(quests: seq<Quest>, level: int, done: set<string>): (r: seq<Quest>)
    ensures |r| <= 2
    ensures |r| == if |Eligible(quests, level, done)| < 2 then |Eligible(quests, level, done)| else 2
    ensures r == Eligible(quests, level, done)[..|r|]
    ensures forall i :: 0 <= i < |r| ==> r[i] in quests && r[i].level <= level && r[i].id !in done
  {
    var eligible := Eligible(quests, level, done);
    var r := if |eligible| <= 2 then eligible else eligible[..2];
    assert forall i :: 0 <= i < |r| ==> r[i] in eligible;
    r
  }

  /** When the first two quests of the list are eligible, they are the ones on offer. */
  lemma ActiveQuestsFirstTwo(quests: seq<Quest>, level: int, done: set<string>)
    requires |quests| >= 2
    requires quests[0].level <= level && quests[0].id !in done
    requires quests[1].level <= level && quests[1].id !in done
    ensures ActiveQuests(quests, level, done) == quests[..2]
  {
    assert quests[1..][0] == quests[1];
    assert Eligible(quests, level, done)[..2] == quests[..2];
  }

  /** A fresh player at level 1 is offered the first two level-1 quests. */
  lemma FreshPlayerQuests()
    ensures ActiveQuests(Quests(), 1, {}) == Quests()[..2]
    ensures Quests()[0].id == "q1-1" && Quests()[1].id == "q1-2"
  {
    CatalogQuestXp(0);
    CatalogQuestXp(1);
    ActiveQuestsFirstTwo(Quests(), 1, {});
    assert RawQuests[0] == Level1Quests[0] && RawQuests[1] == Level1Quests[1];
  }

  // ---------------------------------------------------------------- daily challenges

  /** `completedDailyChallenges[id]`: the stored day, or nothing. */
  function StoredDay(done: map<string, Day>, challengeId: string): (d: Option<Day>)
    ensures d.Some? <==> challengeId in done
    ensures d.Some? ==> d.value == done[challengeId]
  {
    if challengeId in done then Some(done[challengeId]) else None
  }

  /** `isChallengeCompletedToday`: the stored day is today. */
  function IsChallengeCompletedToday(done: map<string, Day>, challengeId: string, today: Day): bool
  {
    StoredDay(done, challengeId) == Some(today)
  }

  /** The dashboard marks a challenge done exactly when completing it again would be a no-op. */
  lemma CompletedTodayMatchesEngine(done: map<string, Day>, challengeId: string, today: Day)
    ensures IsChallengeCompletedToday(done, challengeId, today) <==> DailyDone(done, challengeId, today)
  {
  }

  // ---------------------------------------------------------------- next milestone

  /** `Object.keys(MILESTONES).map(Number).sort((a, b) => a - b)`. */
  const MilestoneLevels: seq<int> := [5, 10, 15, 20, 25, 30]

  /** The sorted key list holds exactly the milestone levels, in increasing order. */
  lemma MilestoneLevelsSorted()
    ensures forall i, j :: 0 <= i < j < |MilestoneLevels| ==> MilestoneLevels[i] < MilestoneLevels[j]
    ensures forall l :: l in MilestoneLevels <==> l in Milestones
  {
    MilestoneKeys();
  }

  /** `levels.find(l => l > level)`. */
  function FirstAbove(levels: seq<int>, level: int): (r: Option<int>)
    ensures r.Some? ==> r.value in levels && r.value > level
    ensures r.None? <==> forall i :: 0 <= i < |levels| ==> levels[i] <= level
    ensures r.Some? ==> exists i :: (0 <= i < |levels| && levels[i] == r.value
      && forall j :: 0 <= j < i ==> levels[j] <= level)
  {
    if |levels| == 0 then None
    else if levels[0] > level then Some(levels[0])
    else
      var r := FirstAbove(levels[1..], level);
      if r.Some? then
        var i :| 0 <= i < |levels| - 1 && levels[1..][i] == r.value && forall j :: 0 <= j < i ==> levels[1..][j] <= level;
        assert levels[i + 1] == r.value;
        r
      else r
  }

  /** `find(...) || level + 5`: the next milestone level, or five levels ahead past the last one. */
  function NextMilestoneLevel(level: int): int
  {
    var next := FirstAbove(MilestoneLevels, level);
    if next.Some? then next.value else level + 5
  }

  /**
   * The next milestone level is the smallest milestone above the current level;
   * when there is none it is five levels ahead.
   */
  lemma NextMilestoneIsSmallestAbove(level: int)
    ensures NextMilestoneLevel(level) > level
    ensures (exists l :: l in Milestones && l > level) ==>
      NextMilestoneLevel(level) in Milestones
      && forall l :: l in Milestones && l > level ==> NextMilestoneLevel(level) <= l
    ensures (forall l :: l in Milestones ==> l <= level) ==> NextMilestoneLevel(level) == level + 5
  {
    MilestoneLevelsSorted();
    var next := FirstAbove(MilestoneLevels, level);
    if next.Some? {
      var i :| 0 <= i < |MilestoneLevels| && MilestoneLevels[i] == next.value
        && forall j :: 0 <= j < i ==> MilestoneLevels[j] <= level;
      forall l | l in Milestones && l > level
        ensures next.value <= l
      {
        assert l in MilestoneLevels;
        var k :| 0 <= k < |MilestoneLevels| && MilestoneLevels[k] == l;
        assert k >= i;
      }
    } else {
      forall l | l in Milestones
        ensures l <= level
      {
        assert l in MilestoneLevels;
      }
    }
  }

  /** `levelsToMilestone`. */
  function LevelsToMilestone(level: int): (d: int)
    ensures d >= 1
    ensures level >= 0 ==> d <= 5
  {
    NextMilestoneIsSmallestAbove(level);
    MilestoneLevelsSorted();
    var d := NextMilestoneLevel(level) - level;
    assert level >= 0 ==> d <= 5 by {
      if level >= 0 && level < 30 {
        var b := level / 5 * 5 + 5;
        assert b in Milestones && b > level;
      }
    }
    d
  }

  /** The milestone card appears when the next milestone level carries a milestone. */
  function MilestoneCardShown(level: int): bool
  {
    NextMilestoneLevel(level) in Milestones
  }

  /** The card shows up below level 30 and never from level 30 on. */
  lemma MilestoneCardBelowThirty(level: int)
    ensures MilestoneCardShown(level) <==> level < 30
  {
    NextMilestoneIsSmallestAbove(level);
    MilestoneKeys();
    if level < 30 {
      assert 30 in Milestones;
    }
  }

  // ---------------------------------------------------------------- progress dots

  /** How many of the dots 0 .. n-1 are lit: dot i is lit when `i < 5 - levelsToMilestone`. */
  function LitDots(n: nat, levelsToMilestone: int): nat
  {
    if n == 0 then 0 else LitDots(n - 1, levelsToMilestone) + (if n - 1 < 5 - levelsToMilestone then 1 else 0)
  }

  /** Of the first n dots, exactly min(n, max(0, 5 - levelsToMilestone)) are lit. */
  lemma {:induction false} LitDotsCount(n: nat, levelsToMilestone: int)
    ensures LitDots(n, levelsToMilestone) ==
      var lit := if 5 - levelsToMilestone < 0 then 0 else 5 - levelsToMilestone;
      if n < lit then n else lit
  {
    if n > 0 {
      LitDotsCount(n - 1, levelsToMilestone);
    }
  }

  /** The dashboard's five dots: max(0, 5 - levelsToMilestone) are lit, never all five. */
  lemma ActiveDots(level: int)
    ensures LitDots(5, LevelsToMilestone(level)) == if 5 - LevelsToMilestone(level) < 0 then 0 else 5 - LevelsToMilestone(level)
    ensures LitDots(5, LevelsToMilestone(level)) <= 4
  {
    LitDotsCount(5, LevelsToMilestone(level));
  }
}
