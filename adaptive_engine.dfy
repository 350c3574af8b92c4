/**
 * `AdaptiveDifficultyEngine.determine_next_level`
 * (ml/app/services/adaptive_engine.py): the next difficulty level and the
 * reason shown to the user, from the current level, whether the submission was
 * passed, and the number of bad attempts.
 */
module AdaptiveEngine {
  import opened Wrappers

  datatype Level = Easy | Medium | Hard

  function LevelName(l: Level): string
  {
    match l
    case Easy => "easy"
    case Medium => "medium"
    case Hard => "hard"
  }

  /** The level a name stands for; any other text is no level. */
  function ParseLevel(s: string): (r: Option<Level>)
    ensures r.Some? ==> LevelName(r.value) == s
  {
    if s == "medium" then Some(Medium)
    else if s == "easy" then Some(Easy)
    else if s == "hard" then Some(Hard)
    else None
  }

  lemma ParseLevelName(l: Level)
    ensures ParseLevel(LevelName(l)) == Some(l)
  {
  }

  /** The position of a level in easy < medium < hard. */
  function Rank(l: Level): (n: nat)
    ensures n <= 2
  {
    match l
    case Easy => 0
    case Medium => 1
    case Hard => 2
  }

  const KeptReason := "Уровень сохранён."
  const MediumConsolidated := "Пройдено, но с множественными ошибками. Закрепляем Medium."
  const MediumRaised := "Пройдено Medium успешно. Повышаем до Hard."
  const MediumLowered := "Провал Medium. Понижаем до Easy для практики."
  const EasyRaised := "Пройдено Easy. Повышаем до Medium."
  const EasyRepeated := "Провал Easy. Повторяем Easy."
  const HardKept := "Пройдено Hard. Отлично! Сохраняем сложный уровень."
  const HardLowered := "Провал Hard. Понижаем до Medium."

  /** `AdaptiveLevelResponse(next_level, reason)`. */
  datatype Decision = Decision(nextLevel: string, reason: string)

  /** `determine_next_level`; an unknown current level is kept with the generic reason. */
  function DetermineNextLevel(current: string, passed: bool, badAttempts: int): (d: Decision)
    ensures ParseLevel(current).None? ==> d == Decision(current, KeptReason)
    ensures ParseLevel(current).Some? ==> ParseLevel(d.nextLevel).Some? && d.reason != KeptReason
  {
    if current == "medium" then
      if passed then
        if badAttempts >= 2 then Decision("medium", MediumConsolidated)
        else Decision("hard", MediumRaised)
      else Decision("easy", MediumLowered)
    else if current == "easy" then
      if passed then Decision("medium", EasyRaised)
      else Decision("easy", EasyRepeated)
    else if current == "hard" then
      if passed then Decision("hard", HardKept)
      else Decision("medium", HardLowered)
    else Decision(current, KeptReason)
  }

  /** The rank the next level has: one up on a pass, one down on a failure, within easy..hard. */
  function ExpectedRank(l: Level, passed: bool, badAttempts: int): nat
  {
    if passed then
      if l == Medium && badAttempts >= 2 then 1 else if Rank(l) < 2 then Rank(l) + 1 else 2
    else if Rank(l) > 0 then Rank(l) - 1 else 0
  }

  /**
   * The transitions by rank: passing goes one level up (staying at hard, and
   * staying at medium after two or more bad attempts), failing goes one level
   * down (staying at easy).
   */
  lemma RankRule(current: string, passed: bool, badAttempts: int)
    requires ParseLevel(current).Some?
    ensures var d := DetermineNextLevel(current, passed, badAttempts);
      Rank(ParseLevel(d.nextLevel).value) == ExpectedRank(ParseLevel(current).value, passed, badAttempts)
  {
  }

  /** The level moves at most one step; a pass never lowers it and a failure never raises it. */
  lemma AtMostOneStep(current: string, passed: bool, badAttempts: int)
    requires ParseLevel(current).Some?
    ensures var before := Rank(ParseLevel(current).value);
      var after := Rank(ParseLevel(DetermineNextLevel(current, passed, badAttempts).nextLevel).value);
      && -1 <= after - before <= 1
      && (passed ==> after >= before)
      && (!passed ==> after <= before)
  {
    RankRule(current, passed, badAttempts);
  }

  /** The number of bad attempts matters only when medium is passed. */
  lemma BadAttemptsOnlyForMediumPass(current: string, passed: bool, a: int, b: int)
    requires !(current == "medium" && passed)
    ensures DetermineNextLevel(current, passed, a) == DetermineNextLevel(current, passed, b)
  {
  }

  /** Passing medium with two or more bad attempts keeps medium; with fewer it moves to hard. */
  lemma MediumPassThreshold(badAttempts: int)
    ensures DetermineNextLevel("medium", true, badAttempts).nextLevel == (if badAttempts >= 2 then "medium" else "hard")
  {
  }
}
