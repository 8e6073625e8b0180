/** The top-level page: which screen is shown, who is logged in, whether the
    login panel was requested, and the difficulty handed to the game board.
    Each handler the page passes to its children is a method; `Rendered` is the
    page's choice of child view, and `Wired` says which handlers the rendered
    children can call. */
module App {
  import opened Types

  /** The child view the page renders below the navigation bar. */
  datatype View = HomePageView | DashboardView | GameBoardView(difficulty: Difficulty) | LeaderboardView | NoView

  /** The handlers the page hands to the navigation bar and to its views. */
  datatype Action =
    | Login(userData: User)
    | Logout
    | PlayNow
    | StartGame(difficulty: Difficulty)
    | BackToDashboard
    | LoginPanelClose
    | NavigateHome
    | NavigateLeaderboard

  class Home {
    var user: Option<User>
    var gameState: GameState
    var selectedDifficulty: Difficulty
    var shouldOpenLogin: bool

    constructor ()
      ensures user == None && gameState == HomeScreen && selectedDifficulty == Easy && !shouldOpenLogin
    {
      user := None;
      gameState := HomeScreen;
      selectedDifficulty := Easy;
      shouldOpenLogin := false;
    }

    /** Only the home screen is ever shown to a visitor who is not logged in. */
    predicate Consistent()
      reads this
    {
      user.None? ==> gameState == HomeScreen
    }

    /** The render gates: the home page whenever the screen is home; the other
        views only for a logged-in user. */
    function Rendered(): (v: View)
      reads this
      ensures v == HomePageView <==> gameState == HomeScreen
      ensures v != HomePageView && v != NoView ==> user.Some?
      ensures v == NoView <==> gameState != HomeScreen && user.None?
      ensures v.GameBoardView? ==> v.difficulty == selectedDifficulty
      ensures Consistent() ==> v != NoView
    {
      match gameState
      case HomeScreen => HomePageView
      case DashboardScreen => if user.Some? then DashboardView else NoView
      case PlayingScreen => if user.Some? then GameBoardView(selectedDifficulty) else NoView
      case LeaderboardScreen => if user.Some? then LeaderboardView else NoView
    }

    /** The handlers reachable from what is on screen: the login panel's
        callbacks always; Home, Leaderboard and Logout from the navigation bar,
        which shows them only to a logged-in user; and each view's own
        callbacks while that view is rendered. */
    predicate Wired(a: Action)
      reads this
    {
      match a
      case Login(_) => true
      case LoginPanelClose => true
      case Logout => user.Some?
      case NavigateHome => user.Some?
      case NavigateLeaderboard => user.Some?
      case PlayNow => Rendered() == HomePageView
      case StartGame(_) => Rendered() == DashboardView
      case BackToDashboard => Rendered().GameBoardView? || Rendered() == LeaderboardView
    }

    /** Logging in records the user and closes the login request; it moves to
        the dashboard only if "Play now" had asked for the login. */
    method HandleLogin(userData: User)
      modifies this`user, this`shouldOpenLogin, this`gameState
      ensures user == Some(userData) && !shouldOpenLogin
      ensures gameState == if old(shouldOpenLogin) then DashboardScreen else old(gameState)
    {
      user := Some(userData);
      var wasRequested := shouldOpenLogin;
      shouldOpenLogin := false;
      if wasRequested {
        gameState := DashboardScreen;
      }
    }

    method HandleLogout()
      modifies this`user, this`gameState, this`shouldOpenLogin
      ensures user == None && gameState == HomeScreen && !shouldOpenLogin
    {
      user := None;
      gameState := HomeScreen;
      shouldOpenLogin := false;
    }

    /** "Play now" opens the dashboard for a logged-in user; otherwise it only
        asks for the login panel and the screen stays as it is. */
    method HandlePlayNow()
      modifies this`gameState, this`shouldOpenLogin
      ensures user.Some? ==> gameState == DashboardScreen && shouldOpenLogin == old(shouldOpenLogin)
      ensures user.None? ==> gameState == old(gameState) && shouldOpenLogin
    {
      if user.Some? {
        gameState := DashboardScreen;
      } else {
        shouldOpenLogin := true;
      }
    }

    method HandleStartGame(difficulty: Difficulty)
      modifies this`selectedDifficulty, this`gameState
      ensures selectedDifficulty == difficulty && gameState == PlayingScreen
    {
      selectedDifficulty := difficulty;
      gameState := PlayingScreen;
    }

    method HandleBackToDashboard()
      modifies this`gameState
      ensures gameState == DashboardScreen
    {
      gameState := DashboardScreen;
    }

    /** Defined by the page but handed to no child. */
    method HandleBackToHome()
      modifies this`gameState
      ensures gameState == HomeScreen
    {
      gameState := HomeScreen;
    }

    /** Defined by the page but handed to no child. */
    method HandleShowLeaderboard()
      modifies this`gameState
      ensures gameState == LeaderboardScreen
    {
      gameState := LeaderboardScreen;
    }

    method HandleLoginPanelClose()
      modifies this`shouldOpenLogin
      ensures !shouldOpenLogin
    {
      shouldOpenLogin := false;
    }

    method HandleNavigateHome()
      modifies this`gameState
      ensures gameState == HomeScreen
    {
      gameState := HomeScreen;
    }

    /** The leaderboard opens only for a logged-in user; otherwise nothing
        changes. */
    method HandleNavigateLeaderboard()
      modifies this`gameState
      ensures gameState == if user.Some? then LeaderboardScreen else old(gameState)
    {
      if user.Some? {
        gameState := LeaderboardScreen;
      }
    }

    /** Runs the handler a child calls. Every handler reachable from the screen
        keeps a logged-out visitor on the home screen. */
    method Dispatch(a: Action)
      requires Wired(a)
      modifies this
      ensures old(Consistent()) ==> Consistent()
    {
      match a
      case Login(userData) => HandleLogin(userData);
      case Logout => HandleLogout();
      case PlayNow => HandlePlayNow();
      case StartGame(difficulty) => HandleStartGame(difficulty);
      case BackToDashboard => HandleBackToDashboard();
      case LoginPanelClose => HandleLoginPanelClose();
      case NavigateHome => HandleNavigateHome();
      case NavigateLeaderboard => HandleNavigateLeaderboard();
    }
  }
}
