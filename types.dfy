/** The value types shared by the client: the letter verdicts, difficulties,
    screens, users and leaderboard rows. */
module Types {

  /** Verdict for one letter of a guess. `Unknown` only fills empty board cells. */
  datatype LetterState = Correct | Present | Absent | Unknown

  datatype Difficulty = Easy | Medium | Hard

  /** The screen the top-level page is showing. */
  datatype GameState = HomeScreen | DashboardScreen | PlayingScreen | LeaderboardScreen

  datatype User = User(username: string, email: string)

  /** One leaderboard row. The floating-point statistics (win rate, average
      attempts) are not part of this model. */
  datatype LeaderboardEntry = LeaderboardEntry(
    id: string,
    username: string,
    totalGames: int,
    wins: int,
    bestStreak: int,
    currentStreak: int,
    totalScore: int,
    easyWins: int,
    mediumWins: int,
    hardWins: int)

  datatype Option<+T> = None | Some(value: T)
}
