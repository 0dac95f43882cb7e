/**
 * The high-score file, as a value: either missing, or holding the two integers the
 * game writes, the high score and the max combo of the round that set it.
 */
module ScoreStore {

  datatype ScoreFile = Missing | Saved(highScore: int, maxCombo: int)

  /** updateHighScore: the file afterwards holds the score and the current max combo. */
  function UpdateHighScore(score: int, maxCombo: int): (f: ScoreFile)
    ensures f.Saved?
  {
    Saved(score, maxCombo)
  }

  /**
   * getHighScore: the first integer of the file. A missing file is created holding
   * 0 and the current max combo, and 0 is returned. The result pairs the high score
   * read with the file as it is afterwards.
   */
  function GetHighScore(f: ScoreFile, maxCombo: int): (r: (int, ScoreFile))
    ensures r.1.Saved? && r.1.highScore == r.0
    ensures f.Saved? ==> r.1 == f
    ensures f.Missing? ==> r.0 == 0
  {
    match f
    case Missing => (0, UpdateHighScore(0, maxCombo))
    case Saved(h, _) => (h, f)
  }

  /** Reading back what was written yields the written high score and leaves the file as it is. */
  lemma ReadAfterWrite(score: int, maxCombo: int, current: int)
    ensures GetHighScore(UpdateHighScore(score, maxCombo), current) ==
            (score, Saved(score, maxCombo))
  {
  }

  /** Reading twice reads the same value: the first read leaves nothing for the second to create. */
  lemma ReadIsStable(f: ScoreFile, m1: int, m2: int)
    ensures GetHighScore(GetHighScore(f, m1).1, m2) == GetHighScore(f, m1)
  {
  }
}
