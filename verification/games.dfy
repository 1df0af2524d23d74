/**
 * The cooldown countdown of the mini-game list (`getCooldownInfo`): whether a
 * game can be played now and, if not, how long is left in hours and minutes.
 */
module Games {
  import opened Wrappers
  import opened Catalog
  import opened Progression
  import Text

  const MsPerMinute := 60000

  datatype CooldownInfo = Ready | OnCooldown(hours: int, minutes: int)

  /** `Math.ceil(x / d)` for a non-negative x and a positive d. */
  function CeilDiv(x: nat, d: nat): (q: nat)
    requires d > 0
    ensures (q - 1) * d < x <= q * d
  {
    (x + d - 1) / d
  }

  /**
   * The countdown of a game last played at `lastPlayed` (none when it was never
   * played), seen at instant `now`, for a cooldown of `cooldownHours` hours.
   */
  function GetCooldownInfo(lastPlayed: Option<int>, now: int, cooldownHours: int): (info: CooldownInfo)
    ensures lastPlayed.None? ==> info == Ready
    ensures info.OnCooldown? <==> lastPlayed.Some? && now - lastPlayed.value < cooldownHours * MsPerHour
    ensures info.OnCooldown? ==> 0 <= info.hours && 0 <= info.minutes <= 60
    ensures info.OnCooldown? ==>
      var remaining := cooldownHours * MsPerHour - (now - lastPlayed.value);
      info.hours * MsPerHour <= remaining < (info.hours + 1) * MsPerHour
      && (info.minutes - 1) * MsPerMinute < remaining % MsPerHour <= info.minutes * MsPerMinute
  {
    if lastPlayed.None? then Ready
    else
      var diffMs := now - lastPlayed.value;
      var cooldownMs := cooldownHours * MsPerHour;
      if diffMs < cooldownMs then
        var remainingMs := cooldownMs - diffMs;
        OnCooldown(remainingMs / MsPerHour, CeilDiv(remainingMs % MsPerHour, MsPerMinute))
      else Ready
  }

  /** The label `⏳ {hours}h {minutes}m` shown for a game on cooldown; a ready game shows none. */
  function CooldownLabel(info: CooldownInfo): (shown: string)
    ensures shown == "" <==> info.Ready?
    ensures info.OnCooldown? ==> |shown| >= 3 && shown[..2] == "⏳ " && shown[|shown| - 1] == 'm'
  {
    match info
    case Ready => ""
    case OnCooldown(h, m) => "⏳ " + Text.IntToString(h) + "h " + Text.IntToString(m) + "m"
  }

  /**
   * The label can be read back: two countdowns with non-negative hours and
   * minutes that show the same label are the same countdown.
   */
  lemma CooldownLabelReadsBack(h1: nat, m1: nat, h2: nat, m2: nat)
    requires CooldownLabel(OnCooldown(h1, m1)) == CooldownLabel(OnCooldown(h2, m2))
    ensures h1 == h2 && m1 == m2
  {
    LabelParts(h1, m1);
    LabelParts(h2, m2);
    Text.NatToStringRoundTrip(h1);
    Text.NatToStringRoundTrip(h2);
    var a1, b1 := Text.NatToString(h1), Text.NatToString(m1);
    var a2, b2 := Text.NatToString(h2), Text.NatToString(m2);
    DigitsThenMark(a1, a2, 'h', " " + b1 + "m", " " + b2 + "m");
    MinutesPart(b1);
    MinutesPart(b2);
    Text.NatToStringInjective(h1, h2);
    Text.NatToStringInjective(m1, m2);
  }

  /** After the two-character prefix the label is the hours' digits, 'h', then the minutes part. */
  lemma LabelParts(h: nat, m: nat)
    ensures CooldownLabel(OnCooldown(h, m))[2..]
      == Text.NatToString(h) + ['h'] + (" " + Text.NatToString(m) + "m")
  {
    var a, b := Text.NatToString(h), Text.NatToString(m);
    assert Text.IntToString(h) == a && Text.IntToString(m) == b;
    var pre: string := "⏳ ";
    assert |pre| == 2;
    assert CooldownLabel(OnCooldown(h, m)) == pre + (a + ['h'] + (" " + b + "m"));
  }

  /** The minutes can be cut back out of the part after 'h'. */
  lemma MinutesPart(b: string)
    ensures (" " + b + "m")[1..|b| + 1] == b
  {
  }

  /** A run of digits ended by a non-digit mark splits a string in one way only. */
  lemma DigitsThenMark(a1: string, a2: string, c: char, t1: string, t2: string)
    requires forall i :: 0 <= i < |a1| ==> Text.IsDigit(a1[i])
    requires forall i :: 0 <= i < |a2| ==> Text.IsDigit(a2[i])
    requires !Text.IsDigit(c)
    requires a1 + [c] + t1 == a2 + [c] + t2
    ensures a1 == a2 && t1 == t2
  {
    var s := a1 + [c] + t1;
    var k := if |a1| < |a2| then |a1| else |a2|;
    assert s[k] == (a2 + [c] + t2)[k];
    assert |a1| == |a2|;
    assert a1 == s[..|a1|] && a2 == (a2 + [c] + t2)[..|a2|];
    assert t1 == s[|a1| + 1..] && t2 == (a2 + [c] + t2)[|a2| + 1..];
  }

  /** The list shows a game as on cooldown exactly when the engine would refuse to start it. */
  lemma CooldownMatchesEngine(cooldowns: map<string, int>, gameId: string, now: int, cooldownHours: int)
    ensures GetCooldownInfo(if gameId in cooldowns then Some(cooldowns[gameId]) else None, now, cooldownHours).OnCooldown?
        <==> GameLocked(cooldowns, gameId, now, cooldownHours)
  {
  }

  /**
   * With the clock not running backwards, a game on cooldown has a positive
   * cooldown, and the hours left never exceed it; they equal it only at the
   * very instant of the last play.
   */
  lemma HoursLeftBounded(lastPlayed: int, now: int, cooldownHours: int)
    requires now >= lastPlayed
    ensures var info := GetCooldownInfo(Some(lastPlayed), now, cooldownHours);
      info.OnCooldown? ==> 0 < cooldownHours && info.hours <= cooldownHours
    ensures var info := GetCooldownInfo(Some(lastPlayed), now, cooldownHours);
      info.OnCooldown? && info.hours == cooldownHours ==> now == lastPlayed
  {
  }

  /** A game without a cooldown is never shown as waiting (when the clock does not run backwards). */
  lemma ZeroCooldownReady(lastPlayed: Option<int>, now: int)
    requires lastPlayed.Some? ==> now >= lastPlayed.value
    ensures GetCooldownInfo(lastPlayed, now, 0) == Ready
  {
  }

  /** The free-practice game is that kind of game. */
  lemma FreeGameNeverWaits(lastPlayed: Option<int>, now: int)
    requires lastPlayed.Some? ==> now >= lastPlayed.value
    ensures GetCooldownInfo(lastPlayed, now, MiniGames[1].cooldownHours) == Ready
  {
    MiniGameTable();
    ZeroCooldownReady(lastPlayed, now);
  }
}
