/**
 * The static reference tables of the game: milestones, the level table,
 * avatar stages, quests (with their computed XP), daily challenges and
 * mini-games. Everything here is built once and never mutated.
 * Icons, React components and long description texts are presentation
 * and are not part of the model.
 */
module Catalog {
  import opened Wrappers
  import Text

  /** Number of entries of the level table. */
  const LevelCount := 100

  datatype Milestone = Milestone(level: int, title: string, rewards: seq<string>, unlocks: seq<string>)

  datatype Level = Level(level: int, xpRequired: int, title: string)

  datatype AvatarStage = AvatarStage(level: int, name: string)

  datatype QuestType = Physical | Interpersonal | Reflective   // 'Q.F.' | 'Q.I.' | 'Q.R.'

  /** A catalog quest before its XP is computed. */
  datatype RawQuest = RawQuest(id: string, level: int, title: string, kind: QuestType)

  datatype Quest = Quest(id: string, level: int, title: string, kind: QuestType, xp: int)

  datatype DailyChallenge = DailyChallenge(id: string, title: string, xp: int)

  datatype MiniGame = MiniGame(id: string, title: string, minLevel: int, xpReward: int, cooldownHours: int)

  // ---------------------------------------------------------------- milestones

  const Milestones: map<int, Milestone> := map[
    5 := Milestone(5, "Comunicador Consistente",
                   ["+10% XP em Quests Q.F.", "Avatar Dourado"],
                   ["Gravação de Vídeo", "Análise Básica"]),
    10 := Milestone(10, "Orador Corajoso",
                    ["Habilidade: Foco de Aço", "Avatar Máscara Prata"],
                    ["Eventos em Grupo", "Mentorias"]),
    15 := Milestone(15, "Estrategista Vocal",
                    ["+15% XP em Quests Q.I.", "Badge 'Persuasor'"],
                    ["Mini-jogos Avançados", "Relatórios Detalhados"]),
    20 := Milestone(20, "Comunicador Profissional",
                    ["Avatar Profissional", "Acesso à Comunidade VIP"],
                    ["Desafios Corporativos", "Networking Premium"]),
    25 := Milestone(25, "Mestre das Conexões",
                    ["Habilidade: Socializador", "+20% XP Global"],
                    ["Eventos ao Vivo", "Sessões de Mentoria"]),
    30 := Milestone(30, "Líder Inspirador",
                    ["Avatar Coroa de Líder", "Badge 'Influenciador'"],
                    ["Workshops Exclusivos", "Modo Liderança"])
  ]

  /** Every milestone is filed under its own level, and that level lies inside the level table. */
  lemma MilestoneKeys()
    ensures forall k :: k in Milestones ==> Milestones[k].level == k && 1 <= k <= LevelCount
    ensures Milestones.Keys == {5, 10, 15, 20, 25, 30}
  {
  }

  // ---------------------------------------------------------------- levels

  /** The title of level n: the milestone's title where there is one, else its band and number. */
  function LevelTitle(n: int): string
  {
    if n in Milestones then Milestones[n].title else Band(n) + " Nv. " + Text.IntToString(n)
  }

  const BandNames: set<string> :=
    {"Veterano", "Conector", "Profissional", "Estrategista", "Orador", "Praticante", "Iniciante"}

  /** The generic title band of a level: a new name above 5, 10, 15, 20, 25 and 30. */
  function Band(n: int): (band: string)
    ensures band in BandNames
    ensures band == "Iniciante" <==> n <= 5
    ensures band == "Praticante" <==> 5 < n <= 10
    ensures band == "Orador" <==> 10 < n <= 15
    ensures band == "Estrategista" <==> 15 < n <= 20
    ensures band == "Profissional" <==> 20 < n <= 25
    ensures band == "Conector" <==> 25 < n <= 30
    ensures band == "Veterano" <==> n > 30
  {
    if n > 30 then "Veterano"
    else if n > 25 then "Conector"
    else if n > 20 then "Profissional"
    else if n > 15 then "Estrategista"
    else if n > 10 then "Orador"
    else if n > 5 then "Praticante"
    else "Iniciante"
  }

  /** The level table: entry i describes level i + 1. */
  function Levels(): seq<Level>
  {
    seq(LevelCount, i => Level(i + 1, 100 + i * 50, LevelTitle(i + 1)))
  }

  /** Shape of the level table: 100 entries, numbered 1..100, requirements 100 + 50*i, strictly increasing. */
  lemma LevelTable()
    ensures |Levels()| == LevelCount
    ensures forall i :: 0 <= i < |Levels()| ==> Levels()[i].level == i + 1 && Levels()[i].xpRequired == 100 + 50 * i
    ensures forall i, j :: 0 <= i < j < |Levels()| ==> 100 <= Levels()[i].xpRequired < Levels()[j].xpRequired
  {
  }

  /**
   * The title rule of the table: a milestone level shows the milestone title;
   * every other level shows its band followed by " Nv. " and its number.
   */
  lemma LevelTitles(n: int)
    requires 1 <= n <= LevelCount
    ensures n in Milestones ==> Levels()[n - 1].title == Milestones[n].title
    ensures n !in Milestones ==> Levels()[n - 1].title == Band(n) + " Nv. " + Text.IntToString(n)
  {
    assert Levels()[n - 1].title == LevelTitle(n);
  }

  /** `LEVELS.find(l => l.level === level)`: the first entry carrying that level number. */
  function FindLevel(table: seq<Level>, level: int): (r: Option<Level>)
    ensures r.Some? ==> r.value in table && r.value.level == level
    ensures r.None? <==> forall i :: 0 <= i < |table| ==> table[i].level != level
    ensures r.Some? ==> exists i :: 0 <= i < |table| && table[i] == r.value && forall j :: 0 <= j < i ==> table[j].level != level
  {
    if |table| == 0 then None
    else if table[0].level == level then Some(table[0])
    else FindLevel(table[1..], level)
  }

  /** The lookup finds entry level - 1 for a level of the table and nothing otherwise. */
  lemma LevelLookup(level: int)
    ensures FindLevel(Levels(), level) == if 1 <= level <= LevelCount then Some(Levels()[level - 1]) else None
  {
    LevelTable();
    var t := Levels();
    var r := FindLevel(t, level);
    if 1 <= level <= LevelCount {
      assert t[level - 1].level == level;
      var j :| 0 <= j < |t| && t[j] == r.value;
      assert j == level - 1;
    }
  }

  /**
   * XP needed to leave `level`: 100 + 50 * (level - 1) inside the table, None past
   * it (where the hook reads `undefined` and falls back to Infinity or to 100).
   */
  function XpRequired(level: int): (r: Option<int>)
    ensures r.Some? <==> 1 <= level <= LevelCount
    ensures r.Some? ==> r.value >= 100
  {
    if 1 <= level <= LevelCount then Some(100 + 50 * (level - 1)) else None
  }

  /** `LEVELS.find(l => l.level === level)?.xpRequired` is exactly XpRequired(level). */
  lemma XpRequiredIsTableLookup(level: int)
    ensures FindLevel(Levels(), level).Some? <==> XpRequired(level).Some?
    ensures FindLevel(Levels(), level).Some? ==> FindLevel(Levels(), level).value.xpRequired == XpRequired(level).value
  {
    LevelLookup(level);
    if 1 <= level <= LevelCount {
      assert Levels()[level - 1].xpRequired == 100 + 50 * (level - 1);
    }
  }

  /** Each level needs strictly more XP than the one before it. */
  lemma XpRequiredIncreasing(a: int, b: int)
    requires 1 <= a < b <= LevelCount
    ensures XpRequired(a).value < XpRequired(b).value
  {
  }

  // ---------------------------------------------------------------- avatar stages

  const AvatarStages: seq<AvatarStage> := [
    AvatarStage(1, "Microfone Básico"),
    AvatarStage(11, "Máscara de Teatro"),
    AvatarStage(21, "Megafone"),
    AvatarStage(31, "Papagaio Persuasor"),
    AvatarStage(41, "Coroa de Líder"),
    AvatarStage(51, "Máscara Dupla"),
    AvatarStage(61, "Chamas da Fala"),
    AvatarStage(71, "Cristal Vocal"),
    AvatarStage(81, "Auréola de Luz"),
    AvatarStage(91, "Troféu Dourado")
  ]

  /** Avatar thresholds start at level 1 and strictly increase. */
  lemma AvatarStagesOrdered()
    ensures |AvatarStages| > 0 && AvatarStages[0].level == 1
    ensures forall i, j :: 0 <= i < j < |AvatarStages| ==> AvatarStages[i].level < AvatarStages[j].level
  {
  }

  // ---------------------------------------------------------------- quests

  /** The raw quest catalog, one block of three per level. */
  const Level1Quests: seq<RawQuest> := [
    RawQuest("q1-1", 1, "Respiração Diafragmática", Physical),
    RawQuest("q1-2", 1, "Apresentação Rápida", Interpersonal),
    RawQuest("q1-3", 1, "Diário de Comunicação", Reflective)
  ]
  const Level2Quests: seq<RawQuest> := [
    RawQuest("q2-1", 2, "Leitura em Voz Alta", Physical),
    RawQuest("q2-2", 2, "Elogio Genuíno", Interpersonal),
    RawQuest("q2-3", 2, "Análise de Discurso", Reflective)
  ]
  const Level3Quests: seq<RawQuest> := [
    RawQuest("q3-1", 3, "Trava-Línguas", Physical),
    RawQuest("q3-2", 3, "Iniciando Conversa", Interpersonal),
    RawQuest("q3-3", 3, "Definindo Metas", Reflective)
  ]
  const RawQuests: seq<RawQuest> := Level1Quests + Level2Quests + Level3Quests

  /** `rawQuests.filter(q => q.level === level)`. */
  function QuestsAtLevel(raw: seq<RawQuest>, level: int): (r: seq<RawQuest>)
    ensures |r| <= |raw|
    ensures forall i :: 0 <= i < |r| ==> r[i].level == level
    ensures forall i :: 0 <= i < |raw| && raw[i].level == level ==> raw[i] in r
  {
    if |raw| == 0 then []
    else if raw[0].level == level then [raw[0]] + QuestsAtLevel(raw[1..], level)
    else QuestsAtLevel(raw[1..], level)
  }

  /** `qs.findIndex(q => q.id === id)`: the first index with that id, or -1. */
  function IndexOfId(qs: seq<RawQuest>, id: string): (r: int)
    ensures -1 <= r < |qs|
    ensures r >= 0 ==> qs[r].id == id && forall j :: 0 <= j < r ==> qs[j].id != id
    ensures r == -1 <==> forall j :: 0 <= j < |qs| ==> qs[j].id != id
  {
    if |qs| == 0 then -1
    else if qs[0].id == id then 0
    else if IndexOfId(qs[1..], id) == -1 then -1
    else IndexOfId(qs[1..], id) + 1
  }

  /** 70% of the level's requirement (100 when the level is not in the table), in whole XP. */
  function LevelQuestBudget(level: int): (t: int)
    ensures 10 * t <= 7 * RequirementOr100(level) < 10 * (t + 1)
    ensures t >= 70
  {
    (7 * RequirementOr100(level)) / 10
  }

  /** `levelInfo?.xpRequired || 100`. */
  function RequirementOr100(level: int): (req: int)
    ensures req >= 100
  {
    if XpRequired(level).Some? then XpRequired(level).value else 100
  }

  /** The share of the quest at index k when `total` is split among n quests, remainder to the first ones. */
  function SplitShare(total: int, n: int, k: int): int
    requires n > 0
  {
    total / n + (if k < total % n then 1 else 0)
  }

  /** Sum of the first m shares of a split of `total` among n. */
  function SharesUpTo(total: int, n: int, m: nat): int
    requires n > 0
  {
    if m == 0 then 0 else SharesUpTo(total, n, m - 1) + SplitShare(total, n, m - 1)
  }

  /** The shares of the first m quests: m equal parts plus one extra unit for each of them below the remainder. */
  lemma {:induction false} SharesUpToValue(total: int, n: int, m: nat)
    requires n > 0 && total >= 0
    ensures SharesUpTo(total, n, m) == m * (total / n) + (if m < total % n then m else total % n)
  {
    if m > 0 {
      SharesUpToValue(total, n, m - 1);
    }
  }

  /** The split loses nothing and invents nothing: the n shares add up to exactly `total`. */
  lemma SplitIsExact(total: int, n: int)
    requires n > 0 && total >= 0
    ensures SharesUpTo(total, n, n) == total
    ensures forall k :: 0 <= k < n ==> total / n <= SplitShare(total, n, k) <= total / n + 1
  {
    SharesUpToValue(total, n, n);
  }

  /** The XP of a catalog quest, computed as at catalog-build time. */
  function QuestXp(raw: seq<RawQuest>, q: RawQuest): int
    requires q in raw
  {
    var peers := QuestsAtLevel(raw, q.level);
    SplitShare(LevelQuestBudget(q.level), |peers|, IndexOfId(peers, q.id))
  }

  function WithXp(raw: seq<RawQuest>, i: int): Quest
    requires 0 <= i < |raw|
  {
    var q := raw[i];
    Quest(q.id, q.level, q.title, q.kind, QuestXp(raw, q))
  }

  function Quests(): seq<Quest>
  {
    seq(|RawQuests|, i requires 0 <= i < |RawQuests| => WithXp(RawQuests, i))
  }

  /** `QUESTS.find(q => q.id === id)`. */
  function FindQuest(qs: seq<Quest>, id: string): (r: Option<Quest>)
    ensures r.Some? ==> r.value in qs && r.value.id == id
    ensures r.None? <==> forall i :: 0 <= i < |qs| ==> qs[i].id != id
    ensures r.Some? ==> exists i :: 0 <= i < |qs| && qs[i] == r.value && forall j :: 0 <= j < i ==> qs[j].id != id
  {
    if |qs| == 0 then None
    else if qs[0].id == id then Some(qs[0])
    else FindQuest(qs[1..], id)
  }

  lemma {:induction false} QuestsAtLevelConcat(a: seq<RawQuest>, b: seq<RawQuest>, level: int)
    ensures QuestsAtLevel(a + b, level) == QuestsAtLevel(a, level) + QuestsAtLevel(b, level)
  {
    if |a| == 0 {
      assert a + b == b;
    } else {
      assert (a + b)[0] == a[0];
      assert (a + b)[1..] == a[1..] + b;
      QuestsAtLevelConcat(a[1..], b, level);
    }
  }

  lemma {:induction false} QuestsAtLevelAll(a: seq<RawQuest>, level: int)
    requires forall i :: 0 <= i < |a| ==> a[i].level == level
    ensures QuestsAtLevel(a, level) == a
  {
    if |a| > 0 {
      QuestsAtLevelAll(a[1..], level);
    }
  }

  lemma {:induction false} QuestsAtLevelNone(a: seq<RawQuest>, level: int)
    requires forall i :: 0 <= i < |a| ==> a[i].level != level
    ensures QuestsAtLevel(a, level) == []
  {
    if |a| > 0 {
      QuestsAtLevelNone(a[1..], level);
    }
  }

  /** With distinct ids, `findIndex` by id gives back the position. */
  lemma IndexOfDistinct(qs: seq<RawQuest>, k: int)
    requires forall i, j :: 0 <= i < j < |qs| ==> qs[i].id != qs[j].id
    requires 0 <= k < |qs|
    ensures IndexOfId(qs, qs[k].id) == k
  {
  }

  /** Filtering a list whose quests of the wanted level form one block keeps exactly that block. */
  lemma QuestsAtLevelBlock(a: seq<RawQuest>, b: seq<RawQuest>, c: seq<RawQuest>, level: int)
    requires forall i :: 0 <= i < |a| ==> a[i].level != level
    requires forall i :: 0 <= i < |b| ==> b[i].level == level
    requires forall i :: 0 <= i < |c| ==> c[i].level != level
    ensures QuestsAtLevel(a + b + c, level) == b
  {
    QuestsAtLevelConcat(a + b, c, level);
    QuestsAtLevelConcat(a, b, level);
    QuestsAtLevelNone(a, level);
    QuestsAtLevelAll(b, level);
    QuestsAtLevelNone(c, level);
    assert [] + b + [] == b;
  }

  /**
   * In a list whose quests of one level form a single block with distinct ids,
   * the k-th quest of the block gets the k-th share of that level's budget.
   */
  lemma QuestXpInBlock(a: seq<RawQuest>, b: seq<RawQuest>, c: seq<RawQuest>, level: int, k: int)
    requires forall i :: 0 <= i < |a| ==> a[i].level != level
    requires forall i :: 0 <= i < |b| ==> b[i].level == level
    requires forall i :: 0 <= i < |c| ==> c[i].level != level
    requires forall i, j :: 0 <= i < j < |b| ==> b[i].id != b[j].id
    requires 0 <= k < |b|
    ensures b[k] in a + b + c
    ensures QuestXp(a + b + c, b[k]) == SplitShare(LevelQuestBudget(level), |b|, k)
  {
    assert (a + b + c)[|a| + k] == b[k];
    QuestsAtLevelBlock(a, b, c, level);
    IndexOfDistinct(b, k);
  }

  /** Catalog quest i is quest i % 3 of level i / 3 + 1 and gets that share of the level's budget. */
  lemma CatalogQuestXp(i: int)
    requires 0 <= i < |RawQuests|
    ensures |Quests()| == 9
    ensures Quests()[i].id == RawQuests[i].id && Quests()[i].level == i / 3 + 1
    ensures Quests()[i].xp == SplitShare(LevelQuestBudget(i / 3 + 1), 3, i % 3)
  {
    var l1, l2, l3 := Level1Quests, Level2Quests, Level3Quests;
    if i < 3 {
      assert [] + l1 + (l2 + l3) == RawQuests;
      assert RawQuests[i] == l1[i];
      QuestXpInBlock([], l1, l2 + l3, 1, i);
    } else if i < 6 {
      assert RawQuests[i] == l2[i - 3];
      QuestXpInBlock(l1, l2, l3, 2, i - 3);
    } else {
      assert l1 + l2 + l3 + [] == RawQuests;
      assert RawQuests[i] == l3[i - 6];
      QuestXpInBlock(l1 + l2, l3, [], 3, i - 6);
    }
  }

  /**
   * Each level's three quests share exactly 70% of the level's requirement,
   * as the split-with-remainder promises.
   */
  lemma QuestTotals()
    ensures Quests()[0].xp + Quests()[1].xp + Quests()[2].xp == LevelQuestBudget(1) == 70
    ensures Quests()[3].xp + Quests()[4].xp + Quests()[5].xp == LevelQuestBudget(2) == 105
    ensures Quests()[6].xp + Quests()[7].xp + Quests()[8].xp == LevelQuestBudget(3) == 140
  {
    QuestXpValues();
    assert RequirementOr100(1) == 100;
    assert RequirementOr100(2) == 150;
    assert RequirementOr100(3) == 200;
  }

  /** The XP the catalog assigns: 24,23,23 / 35,35,35 / 47,47,46 in catalog order. */
  lemma QuestXpValues()
    ensures |Quests()| == 9
    ensures Quests()[0].xp == 24 && Quests()[1].xp == 23 && Quests()[2].xp == 23
    ensures Quests()[3].xp == 35 && Quests()[4].xp == 35 && Quests()[5].xp == 35
    ensures Quests()[6].xp == 47 && Quests()[7].xp == 47 && Quests()[8].xp == 46
  {
    assert LevelQuestBudget(1) == 70 by { assert RequirementOr100(1) == 100; }
    assert LevelQuestBudget(2) == 105 by { assert RequirementOr100(2) == 150; }
    assert LevelQuestBudget(3) == 140 by { assert RequirementOr100(3) == 200; }
    CatalogQuestXp(0); CatalogQuestXp(1); CatalogQuestXp(2);
    CatalogQuestXp(3); CatalogQuestXp(4); CatalogQuestXp(5);
    CatalogQuestXp(6); CatalogQuestXp(7); CatalogQuestXp(8);
  }

  // ---------------------------------------------------------------- daily challenges and mini-games

  const DailyChallenges: seq<DailyChallenge> := [
    DailyChallenge("daily-read", "Leitura em Voz Alta", 5),
    DailyChallenge("daily-pen", "Caneta na Boca", 4),
    DailyChallenge("daily-breath", "Respiração Diafragmática", 3),
    DailyChallenge("daily-rewrite", "Reescrever Parágrafo", 5),
    DailyChallenge("daily-ted", "Bônus: Analisar TED Talk", 3),
    DailyChallenge("daily-friend", "Bônus: Áudio para Amigo", 5)
  ]

  datatype EventKind = Emergency | Networking | Meeting | Custom

  /** A rare event; catalog events carry no date, registered custom events carry the day they happened. */
  datatype SpecialEvent = SpecialEvent(id: string, title: string, description: string, xp: int, kind: EventKind, date: Option<string>)

  const SpecialEvents: seq<SpecialEvent> := [
    SpecialEvent("evt-meeting", "Reunião Inesperada",
      "Seu chefe te chamou para opinar sobre o novo projeto de surpresa na frente de todos!", 150, Meeting, None),
    SpecialEvent("evt-presentation", "Apresentação de Emergência",
      "O palestrante principal faltou e você precisa cobrir 15 minutos do evento agora!", 200, Emergency, None),
    SpecialEvent("evt-networking", "Sessão de Networking",
      "Você tem 1 hora para conseguir 3 contatos valiosos em um evento da indústria.", 180, Networking, None)
  ]

  const MiniGames: seq<MiniGame> := [
    MiniGame("game-ranked", "Desafio de Elite (XP)", 1, 4, 5),
    MiniGame("game-free", "Treino Livre", 1, 0, 0)
  ]

  /** The free-practice game carries no reward and no cooldown; the ranked one a 5-hour cooldown. */
  lemma MiniGameTable()
    ensures MiniGames[1].id == "game-free" && MiniGames[1].xpReward == 0 && MiniGames[1].cooldownHours == 0
    ensures MiniGames[0].id == "game-ranked" && MiniGames[0].cooldownHours == 5
    ensures forall g :: g in MiniGames ==> g.xpReward >= 0 && g.cooldownHours >= 0
  {
  }
}
