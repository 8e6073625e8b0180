/** One round of the game board: the difficulty table, the word pool a round
    draws its target from, input filtering, guess submission and the win/loss
    bookkeeping. Guesses are scored by `Evaluator.Evaluate`. */
module Board {
  import opened Types
  import opened Evaluator

  datatype LevelConfig = LevelConfig(wordLength: nat, maxAttempts: nat)

  function Level(d: Difficulty): nat
  {
    match d
    case Easy => 0
    case Medium => 1
    case Hard => 2
  }

  /** Word length and attempt budget of each difficulty: each level up adds a
      letter and takes away an attempt, from four letters in six attempts. */
  function DifficultyConfig(d: Difficulty): (cfg: LevelConfig)
    ensures cfg.wordLength == 4 + Level(d)
    ensures cfg.maxAttempts == 6 - Level(d)
  {
    match d
    case Easy => LevelConfig(4, 6)
    case Medium => LevelConfig(5, 5)
    case Hard => LevelConfig(6, 4)
  }

  /** A harder difficulty asks for a longer word in fewer attempts. */
  lemma HarderMeansLongerAndFewer(d1: Difficulty, d2: Difficulty)
    requires Level(d1) < Level(d2)
    ensures DifficultyConfig(d1).wordLength < DifficultyConfig(d2).wordLength
    ensures DifficultyConfig(d1).maxAttempts > DifficultyConfig(d2).maxAttempts
  {
  }

  /** A target word together with its pre-revealed first letter. */
  datatype PoolWord = PoolWord(firstLetter: string, word: string)

  /** The words a new round picks its target from: five per difficulty, each
      of the difficulty's length and starting with its one-letter first letter,
      so a guess that passes validation has the target's length. */
  function WordsPool(d: Difficulty): (pool: seq<PoolWord>)
    ensures |pool| == 5
    ensures forall k :: 0 <= k < |pool| ==>
      && |pool[k].word| == DifficultyConfig(d).wordLength
      && |pool[k].firstLetter| == 1
      && pool[k].firstLetter <= pool[k].word
  {
    match d
    case Easy => [PoolWord("C", "CATS"), PoolWord("D", "DOGS"), PoolWord("B", "BIRD"),
                  PoolWord("F", "FISH"), PoolWord("T", "TREE")]
    case Medium => [PoolWord("H", "HOUSE"), PoolWord("W", "WORLD"), PoolWord("P", "PLANT"),
                    PoolWord("S", "SMILE"), PoolWord("M", "MUSIC")]
    case Hard => [PoolWord("P", "PYTHON"), PoolWord("C", "CASTLE"), PoolWord("G", "GARDEN"),
                  PoolWord("W", "WINDOW"), PoolWord("B", "BRIDGE")]
  }

  /** ASCII upper-casing of one character. */
  function UpperChar(ch: char): char
  {
    if 'a' <= ch <= 'z' then (ch as int - 32) as char else ch
  }

  /** Upper-casing of the input field's value, character by character. */
  function ToUpper(s: string): (r: string)
    ensures |r| == |s|
    ensures forall i :: 0 <= i < |s| ==> !('a' <= r[i] <= 'z')
    ensures forall i :: 0 <= i < |s| ==> if 'a' <= s[i] <= 'z' then r[i] as int == s[i] as int - 32 else r[i] == s[i]
  {
    seq(|s|, i requires 0 <= i < |s| => UpperChar(s[i]))
  }

  lemma ToUpperIdempotent(s: string)
    ensures ToUpper(ToUpper(s)) == ToUpper(s)
  {
  }

  /** The message the board shows under the input. */
  datatype Notice = NoError | WrongLength(wordLength: nat) | WrongFirstLetter(firstLetter: string) | NetworkError

  class GameBoard {
    const difficulty: Difficulty
    var currentWord: string
    var firstLetter: string
    var attempts: seq<string>
    var letterStates: seq<seq<LetterState>>
    var currentGuess: string
    var gameOver: bool
    var isWin: bool
    var error: Notice
    var isInitializing: bool

    function Config(): LevelConfig
    {
      DifficultyConfig(difficulty)
    }

    /** Each attempt has the round's word length and first letter, and each row
        of verdicts is the evaluation of its attempt against the target. */
    ghost predicate Valid()
      reads this
    {
      && |attempts| == |letterStates|
      && (forall k :: 0 <= k < |attempts| ==> letterStates[k] == Evaluation(attempts[k], currentWord))
      && (forall k :: 0 <= k < |attempts| ==>
            |attempts[k]| == Config().wordLength && firstLetter <= attempts[k])
      && (isWin ==> gameOver)
    }

    /** The outcome of the round, as it stands when guesses are submitted only
        while the round is open (the input and its button are not shown once
        the game is over): an open round has no matching guess and attempts
        left; a won round ends with its first matching guess; a lost round used
        every attempt without a match. */
    ghost predicate RoundConsistent()
      reads this
    {
      && (!gameOver ==> currentWord !in attempts && |attempts| < Config().maxAttempts)
      && (gameOver && isWin ==>
            && 0 < |attempts| <= Config().maxAttempts
            && attempts[|attempts| - 1] == currentWord
            && currentWord !in attempts[..|attempts| - 1])
      && (gameOver && !isWin ==> currentWord !in attempts && |attempts| == Config().maxAttempts)
    }

    /** The guess passes both checks of the submit handler. */
    predicate Submittable(guess: string)
      reads this
    {
      |guess| == Config().wordLength && firstLetter <= guess
    }

    constructor (difficulty: Difficulty)
      ensures this.difficulty == difficulty
      ensures currentWord == "" && firstLetter == "" && currentGuess == ""
      ensures attempts == [] && letterStates == []
      ensures !gameOver && !isWin && error == NoError && isInitializing
      ensures Valid() && RoundConsistent()
    {
      this.difficulty := difficulty;
      currentWord := "";
      firstLetter := "";
      attempts := [];
      letterStates := [];
      currentGuess := "";
      gameOver := false;
      isWin := false;
      error := NoError;
      isInitializing := true;
    }

    /** Starts a round: clears the board and takes the pool word at `pick` as
        the new target. `pick` stands for the random index; `responseOk` says
        whether reading the new-word response succeeded. */
    method StartNewGame(pick: nat, responseOk: bool)
      requires pick < |WordsPool(difficulty)|
      modifies this
      ensures Valid() && RoundConsistent()
      ensures attempts == [] && letterStates == [] && !gameOver && !isWin && !isInitializing
      ensures responseOk ==>
        && firstLetter == WordsPool(difficulty)[pick].firstLetter
        && currentWord == WordsPool(difficulty)[pick].word
        && currentGuess == firstLetter
        && error == NoError
      ensures responseOk ==> |currentWord| == Config().wordLength && firstLetter <= currentWord
      ensures !responseOk ==>
        && firstLetter == old(firstLetter)
        && currentWord == old(currentWord)
        && currentGuess == ""
        && error == NetworkError
    {
      isInitializing := true;
      error := NoError;

      attempts := [];
      letterStates := [];
      gameOver := false;
      isWin := false;
      currentGuess := "";

      var mockData := WordsPool(difficulty)[pick];
      if responseOk {
        firstLetter := mockData.firstLetter;
        currentWord := mockData.word;
        currentGuess := mockData.firstLetter;
      } else {
        error := NetworkError;
      }
      isInitializing := false;
    }

    /** Submits the current guess. A guess of the wrong length or with the
        wrong first letter only sets the error. An accepted guess is scored,
        appended with its verdicts, ends the round on a match or when the
        attempts run out, and the input goes back to the first letter. */
    method SubmitGuess()
      requires Valid()
      modifies this`error, this`attempts, this`letterStates, this`gameOver, this`isWin, this`currentGuess
      ensures Valid()
      ensures !Submittable(old(currentGuess)) ==>
        && attempts == old(attempts) && letterStates == old(letterStates)
        && currentGuess == old(currentGuess)
        && gameOver == old(gameOver) && isWin == old(isWin)
      ensures |old(currentGuess)| != Config().wordLength ==> error == WrongLength(Config().wordLength)
      ensures |old(currentGuess)| == Config().wordLength && !(firstLetter <= old(currentGuess)) ==>
        error == WrongFirstLetter(firstLetter)
      ensures Submittable(old(currentGuess)) ==>
        && error == NoError
        && attempts == old(attempts) + [old(currentGuess)]
        && letterStates == old(letterStates) + [Evaluation(old(currentGuess), currentWord)]
        && currentGuess == firstLetter
        && (old(currentGuess) == currentWord ==> gameOver && isWin)
        && (old(currentGuess) != currentWord && |attempts| >= Config().maxAttempts ==> gameOver && !isWin)
        && (old(currentGuess) != currentWord && |attempts| < Config().maxAttempts ==>
              gameOver == old(gameOver) && isWin == old(isWin))
      ensures old(!gameOver && RoundConsistent()) ==> RoundConsistent()
    {
      if |currentGuess| != Config().wordLength {
        error := WrongLength(Config().wordLength);
        return;
      }
      if !(firstLetter <= currentGuess) {
        error := WrongFirstLetter(firstLetter);
        return;
      }
      error := NoError;

      var targetWord := currentWord;
      var isCorrect := currentGuess == targetWord;
      var currentLetterStates := Evaluate(currentGuess, targetWord);

      var newAttempts := attempts + [currentGuess];
      var newLetterStates := letterStates + [currentLetterStates];
      attempts := newAttempts;
      letterStates := newLetterStates;
      assert newAttempts[..|newAttempts| - 1] == old(attempts);

      if isCorrect {
        isWin := true;
        gameOver := true;
      } else if |newAttempts| >= Config().maxAttempts {
        gameOver := true;
        isWin := false;
      }
      currentGuess := firstLetter;
    }

    /** A keystroke: the upper-cased field value is taken only if it fits the
        word length and keeps the first letter; otherwise nothing changes. */
    method InputChange(value: string)
      modifies this`currentGuess, this`error
      ensures var v := ToUpper(value);
        if |v| <= Config().wordLength && firstLetter <= v
        then currentGuess == v && error == NoError
        else currentGuess == old(currentGuess) && error == old(error)
      ensures old(firstLetter <= currentGuess && |currentGuess| <= Config().wordLength) ==>
        firstLetter <= currentGuess && |currentGuess| <= Config().wordLength
    {
      var v := ToUpper(value);
      if |v| <= Config().wordLength && firstLetter <= v {
        currentGuess := v;
        error := NoError;
      }
    }

    /** Enter submits, but only a guess of full length, which then goes through
        the submit handler's checks; any other key, or Enter on a short guess,
        changes nothing. */
    method KeyPress(isEnter: bool)
      requires Valid()
      modifies this`error, this`attempts, this`letterStates, this`gameOver, this`isWin, this`currentGuess
      ensures Valid()
      ensures !(isEnter && |old(currentGuess)| == Config().wordLength) ==>
        && error == old(error) && attempts == old(attempts) && letterStates == old(letterStates)
        && gameOver == old(gameOver) && isWin == old(isWin) && currentGuess == old(currentGuess)
      ensures isEnter && |old(currentGuess)| == Config().wordLength && !(firstLetter <= old(currentGuess)) ==>
        && error == WrongFirstLetter(firstLetter)
        && attempts == old(attempts) && letterStates == old(letterStates)
        && currentGuess == old(currentGuess)
        && gameOver == old(gameOver) && isWin == old(isWin)
      ensures isEnter && Submittable(old(currentGuess)) ==>
        && error == NoError
        && attempts == old(attempts) + [old(currentGuess)]
        && letterStates == old(letterStates) + [Evaluation(old(currentGuess), currentWord)]
        && currentGuess == firstLetter
        && (old(currentGuess) == currentWord ==> gameOver && isWin)
        && (old(currentGuess) != currentWord && |attempts| >= Config().maxAttempts ==> gameOver && !isWin)
        && (old(currentGuess) != currentWord && |attempts| < Config().maxAttempts ==>
              gameOver == old(gameOver) && isWin == old(isWin))
      ensures old(!gameOver && RoundConsistent()) ==> RoundConsistent()
    {
      if isEnter && |currentGuess| == Config().wordLength {
        SubmitGuess();
      }
    }

    /** A won round ends on a row of verdicts that are all `Correct`. */
    lemma WinShowsAllCorrect()
      requires Valid() && RoundConsistent() && gameOver && isWin
      ensures |letterStates| > 0
      ensures letterStates[|letterStates| - 1] == seq(|currentWord|, _ => Correct)
    {
      EvaluationOfTarget(currentWord);
    }
  }
}
