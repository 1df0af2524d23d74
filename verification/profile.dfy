/**
 * The profile page: the avatar stage a level earns, and the trophy shelf,
 * which sorts the record's milestone list in place (highest first) before
 * turning it into milestones.
 */
module Profile {
  import opened Wrappers
  import opened Catalog
  import opened Progression
  import Engine

  // ---------------------------------------------------------------- avatar stage

  function Reverse<T>(s: seq<T>): (r: seq<T>)
    ensures |r| == |s|
    ensures forall i :: 0 <= i < |s| ==> r[i] == s[|s| - 1 - i]
  {
    if |s| == 0 then [] else Reverse(s[1..]) + [s[0]]
  }

  /** `stages.find(stage => level >= stage.level)`: the first stage whose threshold the level has reached. */
  function FindReached(stages: seq<AvatarStage>, level: int): (r: Option<nat>)
    ensures r.Some? ==> r.value < |stages| && stages[r.value].level <= level
    ensures r.Some? ==> forall j :: 0 <= j < r.value ==> stages[j].level > level
    ensures r.None? ==> forall j :: 0 <= j < |stages| ==> stages[j].level > level
  {
    if |stages| == 0 then None
    else if stages[0].level <= level then Some(0)
    else
      var r := FindReached(stages[1..], level);
      if r.Some? then Some(r.value + 1) else None
  }

  /** `[...AVATAR_STAGES].reverse().find(stage => level >= stage.level) || AVATAR_STAGES[0]`. */
  function CurrentAvatarStage(level: int): AvatarStage
  {
    var reversed := Reverse(AvatarStages);
    var found := FindReached(reversed, level);
    if found.Some? then reversed[found.value] else AvatarStages[0]
  }

  /**
   * From level 1 on the fallback is never used: the stage shown is the one
   * with the highest threshold the level has reached, and the next stage, if
   * any, is still out of reach.
   */
  lemma AvatarStageChoice(level: int)
    requires level >= 1
    ensures FindReached(Reverse(AvatarStages), level).Some?
    ensures exists i :: (0 <= i < |AvatarStages| && CurrentAvatarStage(level) == AvatarStages[i]
      && AvatarStages[i].level <= level
      && (i + 1 < |AvatarStages| ==> AvatarStages[i + 1].level > level))
  {
    var stages := AvatarStages;
    var n := |stages|;
    var reversed := Reverse(stages);
    var found := FindReached(reversed, level);
    assert reversed[n - 1] == stages[0];
    assert stages[0].level == 1;
    assert found.Some?;
    var k := found.value;
    var i := n - 1 - k;
    assert reversed[k] == stages[i];
    assert CurrentAvatarStage(level) == stages[i];
    if i + 1 < n {
      assert reversed[k - 1] == stages[i + 1];
    }
    assert 0 <= i < |AvatarStages| && CurrentAvatarStage(level) == AvatarStages[i]
      && AvatarStages[i].level <= level
      && (i + 1 < |AvatarStages| ==> AvatarStages[i + 1].level > level);
  }

  /** The stage shown never has a threshold above the level, from level 1 on. */
  lemma AvatarStageReached(level: int)
    requires level >= 1
    ensures CurrentAvatarStage(level).level <= level
    ensures CurrentAvatarStage(level) in AvatarStages
  {
    AvatarStageChoice(level);
  }

  // ---------------------------------------------------------------- trophies

  predicate Descending(s: seq<int>)
  {
    forall i, j :: 0 <= i < j < |s| ==> s[i] >= s[j]
  }

  /** Sorts `a` in place from highest to lowest, keeping its elements. */
  method SortDescending(a: array<int>)
    modifies a
    ensures Descending(a[..])
    ensures multiset(a[..]) == multiset(old(a[..]))
  {
    for i := 0 to a.Length
      invariant Descending(a[..i])
      invariant multiset(a[..]) == multiset(old(a[..]))
    {
      InsertDown(a, i);
    }
    assert a[..a.Length] == a[..];
  }

  /** One insertion step: sinks `a[i]` into the descending prefix `a[..i]`. */
  method InsertDown(a: array<int>, i: int)
    requires 0 <= i < a.Length
    requires Descending(a[..i])
    modifies a
    ensures Descending(a[..i + 1])
    ensures multiset(a[..]) == multiset(old(a[..]))
  {
    var j := i;
    while j > 0 && a[j - 1] < a[j]
      invariant 0 <= j <= i
      invariant forall k, l :: 0 <= k < l <= i && k != j && l != j ==> a[k] >= a[l]
      invariant forall l :: j < l <= i ==> a[j] > a[l]
      invariant multiset(a[..]) == multiset(old(a[..]))
    {
      a[j - 1], a[j] := a[j], a[j - 1];
      j := j - 1;
    }
  }

  /** `.map(level => MILESTONES[level]).filter(Boolean)`: the milestones of the listed levels, in list order. */
  function Trophies(levels: seq<int>): (r: seq<Milestone>)
    ensures |r| <= |levels|
    ensures forall m :: m in r <==> exists l :: l in levels && l in Milestones && Milestones[l] == m
  {
    if |levels| == 0 then []
    else
      var rest := Trophies(levels[1..]);
      assert forall l :: l in levels[1..] ==> l in levels;
      if levels[0] in Milestones then [Milestones[levels[0]]] + rest else rest
  }

  /**
   * `reachedMilestones`: sorts the record's list of milestone levels in place,
   * highest first, and returns the milestones of those levels.
   */
  method ReachedMilestones(u: Engine.UserRecord) returns (trophies: seq<Milestone>)
    modifies u`milestonesReached
    ensures Descending(u.milestonesReached)
    ensures multiset(u.milestonesReached) == multiset(old(u.milestonesReached))
    ensures trophies == Trophies(u.milestonesReached)
  {
    var a := new int[|u.milestonesReached|](i requires 0 <= i < |u.milestonesReached| reads u => u.milestonesReached[i]);
    assert a[..] == u.milestonesReached;
    SortDescending(a);
    u.milestonesReached := a[..];
    trophies := Trophies(u.milestonesReached);
  }

  /** A descending list without repeats is strictly descending. */
  lemma StrictlyDescending(s: seq<int>)
    requires Descending(s) && NoDup(s)
    ensures forall i, j :: 0 <= i < j < |s| ==> s[i] > s[j]
  {
  }

  /** Sorting keeps a list free of repeats. */
  lemma {:induction false} NoDupKeptBySort(s: seq<int>, t: seq<int>)
    requires multiset(s) == multiset(t) && NoDup(s)
    ensures NoDup(t)
  {
    if !NoDup(t) {
      var i, j :| 0 <= i < j < |t| && t[i] == t[j];
      assert t == t[..j] + [t[j]] + t[j + 1..];
      assert t[i] in t[..j];
      assert multiset(t)[t[i]] >= 2;
      MultiplicityOneWithoutRepeats(s, t[i]);
      assert false;
    }
  }

  /** In a list without repeats every element occurs at most once. */
  lemma {:induction false} MultiplicityOneWithoutRepeats(s: seq<int>, x: int)
    requires NoDup(s)
    ensures multiset(s)[x] <= 1
  {
    if |s| > 0 {
      assert s == [s[0]] + s[1..];
      assert NoDup(s[1..]);
      MultiplicityOneWithoutRepeats(s[1..], x);
      if s[0] == x {
        assert x !in s[1..];
      }
    }
  }

  /** Trophies of a strictly descending list appear in strictly descending level order. */
  lemma {:induction false} TrophiesDescending(levels: seq<int>)
    requires forall i, j :: 0 <= i < j < |levels| ==> levels[i] > levels[j]
    ensures forall i, j :: 0 <= i < j < |Trophies(levels)| ==> Trophies(levels)[i].level > Trophies(levels)[j].level
  {
    MilestoneKeys();
    if |levels| > 0 {
      var rest := levels[1..];
      TrophiesDescending(rest);
      var t := Trophies(rest);
      forall m | m in t
        ensures m.level < levels[0]
      {
        var l :| l in rest && l in Milestones && Milestones[l] == m;
      }
    }
  }

  /**
   * On a well-formed record the shelf shows each reached milestone once,
   * highest level first.
   */
  method TrophyShelf(u: Engine.UserRecord) returns (trophies: seq<Milestone>)
    requires NoDup(u.milestonesReached)
    modifies u`milestonesReached
    ensures Descending(u.milestonesReached)
    ensures multiset(u.milestonesReached) == multiset(old(u.milestonesReached))
    ensures forall i, j :: 0 <= i < j < |trophies| ==> trophies[i].level > trophies[j].level
    ensures forall m :: m in trophies <==> exists l :: l in old(u.milestonesReached) && l in Milestones && Milestones[l] == m
  {
    trophies := ReachedMilestones(u);
    NoDupKeptBySort(old(u.milestonesReached), u.milestonesReached);
    StrictlyDescending(u.milestonesReached);
    TrophiesDescending(u.milestonesReached);
    forall l
      ensures l in old(u.milestonesReached) <==> l in u.milestonesReached
    {
      assert l in old(u.milestonesReached) <==> l in multiset(old(u.milestonesReached));
    }
  }
}
