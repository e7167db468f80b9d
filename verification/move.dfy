/** The game logic of the move endpoint, with the database reads and writes
    taken away: the turn check, removing the played letters from the rack,
    refilling the rack from the bag, the two game-end rules and the turn advance. */
module Move {

  /** Number of letters a full rack holds. */
  const RackSize := 7

  /** The word character for a board letter the move reuses; it takes nothing from the rack. */
  const Skip := '_'

  /** The stored player: seat order and rack. */
  datatype Player = Player(orderIndex: int, letters: seq<char>)

  /** The stored game: whose turn it is, the bag of free letters, the number of
      players, the words of the moves so far in creation order, and the finished flag. */
  datatype Game = Game(
    currentPlayerIndex: int,
    freeLetters: seq<char>,
    playerCount: nat,
    moves: seq<string>,
    isFinished: bool)

  /** What a request leaves behind: nothing (the out-of-turn error), or the stored
      player and game after the move. */
  datatype Outcome = Rejected | Accepted(player: Player, game: Game)

  /** A rack together with the bag it draws from. */
  datatype RackAndBag = RackAndBag(rack: seq<char>, bag: seq<char>)

  function Min(a: int, b: int): int { if a <= b then a else b }
  function Max(a: int, b: int): int { if a <= b then b else a }

  // ---------------------------------------------------------------------------
  // Sequences

  /** The sequence without its element at position i. */
  function Splice<T>(s: seq<T>, i: int): seq<T>
    requires 0 <= i < |s|
  {
    s[..i] + s[i + 1..]
  }

  lemma SpliceMultiset<T>(s: seq<T>, i: int)
    requires 0 <= i < |s|
    ensures |Splice(s, i)| == |s| - 1
    ensures multiset(Splice(s, i)) + multiset{s[i]} == multiset(s)
  {
    assert s == s[..i] + [s[i]] + s[i + 1..];
  }

  /** s can be obtained from t by deleting elements, keeping the order of the rest. */
  predicate Subsequence(s: seq<char>, t: seq<char>)
    decreases |t|
  {
    |s| <= |t| &&
    (s == [] ||
     (t != [] && ((s[0] == t[0] && Subsequence(s[1..], t[1..])) || Subsequence(s, t[1..]))))
  }

  lemma {:induction false} SubsequenceReflexive(s: seq<char>)
    ensures Subsequence(s, s)
  {
    if s != [] {
      SubsequenceReflexive(s[1..]);
    }
  }

  lemma {:induction false} SubsequenceTransitive(a: seq<char>, b: seq<char>, c: seq<char>)
    requires Subsequence(a, b) && Subsequence(b, c)
    ensures Subsequence(a, c)
    decreases |c|
  {
    if a != [] {
      assert b != [] && c != [];
      if Subsequence(b, c[1..]) {
        SubsequenceTransitive(a, b, c[1..]);
      } else {
        assert b[0] == c[0] && Subsequence(b[1..], c[1..]);
        if a[0] == b[0] && Subsequence(a[1..], b[1..]) {
          SubsequenceTransitive(a[1..], b[1..], c[1..]);
        } else {
          SubsequenceTransitive(a, b[1..], c[1..]);
        }
      }
    }
  }

  lemma {:induction false} SpliceSubsequence(s: seq<char>, i: int)
    requires 0 <= i < |s|
    ensures Subsequence(Splice(s, i), s)
    decreases i
  {
    if i == 0 {
      assert Splice(s, 0) == s[1..];
      SubsequenceReflexive(s[1..]);
    } else {
      SpliceSubsequence(s[1..], i - 1);
      assert Splice(s, i)[1..] == Splice(s[1..], i - 1);
    }
  }

  // ---------------------------------------------------------------------------
  // Removing the played letters from the rack

  /** The first position holding the letter, or -1 when the rack lacks it. */
  function FindIndex(letters: seq<char>, letter: char): (r: int)
    ensures -1 <= r < |letters|
    ensures r == -1 <==> letter !in letters
    ensures 0 <= r ==> letters[r] == letter && letter !in letters[..r]
  {
    if letters == [] then -1
    else if letters[0] == letter then 0
    else
      var r := FindIndex(letters[1..], letter);
      if r == -1 then -1
      else
        assert letters[..r + 1] == [letters[0]] + letters[1..][..r];
        r + 1
  }

  /** One step of the forEach over the word's characters: a skip marker removes
      nothing, and so does a letter the rack does not hold; otherwise the first
      equal letter leaves the rack and the others keep their order. */
  function RemoveLetter(letters: seq<char>, letter: char): (r: seq<char>)
    ensures letter == Skip || letter !in letters ==> r == letters
    ensures |r| == |letters| - (if letter != Skip && letter in letters then 1 else 0)
    ensures letter != Skip && letter in letters ==>
      exists i :: 0 <= i < |letters| && letters[i] == letter && letter !in letters[..i] &&
        r == letters[..i] + letters[i + 1..]
  {
    if letter == Skip then letters
    else
      var index := FindIndex(letters, letter);
      if index == -1 then letters else Splice(letters, index)
  }

  /** The rack after the forEach over the whole word, character by character from the
      left: each placed letter takes at most one letter off the rack. */
  function RemovePlayed(letters: seq<char>, word: string): (r: seq<char>)
    ensures |r| <= |letters|
    ensures |letters| - |r| <= |Placed(word)|
    decreases |word|
  {
    if word == [] then letters else RemovePlayed(RemoveLetter(letters, word[0]), word[1..])
  }

  /** The characters of a word that take a letter from the rack: all but the skip markers. */
  function Placed(word: string): (r: seq<char>)
    ensures Skip !in r
    ensures forall ch :: ch != Skip ==> multiset(r)[ch] == multiset(word)[ch]
  {
    if word == [] then []
    else
      assert word == [word[0]] + word[1..];
      (if word[0] == Skip then [] else [word[0]]) + Placed(word[1..])
  }

  lemma RemoveLetterMultiset(letters: seq<char>, letter: char)
    ensures multiset(RemoveLetter(letters, letter)) ==
      multiset(letters) - multiset(if letter == Skip then [] else [letter])
  {
    if letter != Skip && letter in letters {
      var index := FindIndex(letters, letter);
      SpliceMultiset(letters, index);
    }
  }

  lemma MultisetDifferenceTwice(m: multiset<char>, a: multiset<char>, b: multiset<char>)
    ensures m - a - b == m - (a + b)
  {
    assert forall x :: (m - a - b)[x] == (m - (a + b))[x];
  }

  /** The letters left on the rack are the rack minus the placed letters, as
      multisets: each placed letter takes one copy if there is one, and a letter
      the rack lacks takes nothing. */
  lemma {:induction false} RemovePlayedMultiset(letters: seq<char>, word: string)
    ensures multiset(RemovePlayed(letters, word)) == multiset(letters) - multiset(Placed(word))
    decreases |word|
  {
    if word != [] {
      var first := if word[0] == Skip then [] else [word[0]];
      RemoveLetterMultiset(letters, word[0]);
      RemovePlayedMultiset(RemoveLetter(letters, word[0]), word[1..]);
      MultisetDifferenceTwice(multiset(letters), multiset(first), multiset(Placed(word[1..])));
    }
  }

  /** The letters left on the rack keep their relative order. */
  lemma {:induction false} RemovePlayedSubsequence(letters: seq<char>, word: string)
    ensures Subsequence(RemovePlayed(letters, word), letters)
    decreases |word|
  {
    if word == [] {
      SubsequenceReflexive(letters);
    } else {
      var next := RemoveLetter(letters, word[0]);
      RemovePlayedSubsequence(next, word[1..]);
      if next == letters {
        SubsequenceReflexive(letters);
      } else {
        SpliceSubsequence(letters, FindIndex(letters, word[0]));
      }
      SubsequenceTransitive(RemovePlayed(letters, word), next, letters);
    }
  }

  /** A word made only of skip markers, the empty word among them, leaves the rack as it is. */
  lemma {:induction false} SkipsRemoveNothing(letters: seq<char>, word: string)
    requires forall k :: 0 <= k < |word| ==> word[k] == Skip
    ensures RemovePlayed(letters, word) == letters
    decreases |word|
  {
    if word != [] {
      SkipsRemoveNothing(letters, word[1..]);
    }
  }

  /** The forEach over the word, splicing the rack in place. */
  method RemovePlayedLetters(rack: seq<char>, word: string) returns (letters: seq<char>)
    ensures letters == RemovePlayed(rack, word)
    ensures multiset(letters) == multiset(rack) - multiset(Placed(word))
    ensures Subsequence(letters, rack)
  {
    letters := rack;
    var i := 0;
    while i < |word|
      invariant 0 <= i <= |word|
      invariant RemovePlayed(letters, word[i..]) == RemovePlayed(rack, word)
    {
      var letter := word[i];
      assert word[i..][1..] == word[i + 1..];
      if letter != Skip {
        var index := FindIndex(letters, letter);
        if index != -1 {
          letters := letters[..index] + letters[index + 1..];
        }
      }
      i := i + 1;
    }
    assert word[i..] == [];
    RemovePlayedMultiset(rack, word);
    RemovePlayedSubsequence(rack, word);
  }

  // ---------------------------------------------------------------------------
  // Refilling the rack from the bag

  /** The random draw on iteration i of the refill loop, as an arbitrary choice:
      some position below the bag size n. */
  ghost predicate ValidPicker(pick: (nat, nat) -> nat) {
    forall i: nat, n: nat :: 0 < n ==> pick(i, n) < n
  }

  /** The refill loop from iteration i on. The loop test compares i with the
      smaller of the free spots and the CURRENT bag size, which each draw reduces. */
  function Draw(state: RackAndBag, spots: int, pick: (nat, nat) -> nat, i: nat): (r: RackAndBag)
    requires ValidPicker(pick)
    ensures |r.rack| + |r.bag| == |state.rack| + |state.bag|
    ensures |r.bag| <= |state.bag|
    decreases |state.bag|
  {
    if i < Min(spots, |state.bag|) then
      var k := pick(i, |state.bag|);
      Draw(RackAndBag(state.rack + [state.bag[k]], Splice(state.bag, k)), spots, pick, i + 1)
    else state
  }

  /** The rack and bag after the refill loop; the free spots are counted once, before it. */
  function Refilled(rack: seq<char>, bag: seq<char>, pick: (nat, nat) -> nat): (r: RackAndBag)
    requires ValidPicker(pick)
    ensures |r.rack| + |r.bag| == |rack| + |bag|
    ensures |r.bag| <= |bag|
  {
    Draw(RackAndBag(rack, bag), RackSize - |rack|, pick, 0)
  }

  /** Number of letters the loop draws from iteration i on. */
  function DrawsFrom(i: int, spots: int, bagSize: int): int {
    Max(0, Min(spots - i, (bagSize - i + 1) / 2))
  }

  lemma {:induction false} DrawSizes(state: RackAndBag, spots: int, pick: (nat, nat) -> nat, i: nat)
    requires ValidPicker(pick)
    ensures |Draw(state, spots, pick, i).rack| == |state.rack| + DrawsFrom(i, spots, |state.bag|)
    ensures |Draw(state, spots, pick, i).bag| == |state.bag| - DrawsFrom(i, spots, |state.bag|)
    decreases |state.bag|
  {
    if i < Min(spots, |state.bag|) {
      var k := pick(i, |state.bag|);
      var next := RackAndBag(state.rack + [state.bag[k]], Splice(state.bag, k));
      DrawSizes(next, spots, pick, i + 1);
      assert (|state.bag| - 1 - (i + 1) + 1) / 2 == (|state.bag| - i + 1) / 2 - 1;
    }
  }

  /** The drawn letters are appended after the rack's own, and together with the
      new bag they make up the old bag. */
  lemma {:induction false} DrawConserves(state: RackAndBag, spots: int, pick: (nat, nat) -> nat, i: nat)
    requires ValidPicker(pick)
    ensures |state.rack| <= |Draw(state, spots, pick, i).rack|
    ensures Draw(state, spots, pick, i).rack[..|state.rack|] == state.rack
    ensures multiset(Draw(state, spots, pick, i).rack[|state.rack|..]) +
      multiset(Draw(state, spots, pick, i).bag) == multiset(state.bag)
    decreases |state.bag|
  {
    var r := Draw(state, spots, pick, i);
    if i < Min(spots, |state.bag|) {
      var k := pick(i, |state.bag|);
      var next := RackAndBag(state.rack + [state.bag[k]], Splice(state.bag, k));
      DrawConserves(next, spots, pick, i + 1);
      SpliceMultiset(state.bag, k);
      var n := |state.rack|;
      assert r.rack[..n + 1] == next.rack;
      assert r.rack[..n] == next.rack[..n];
      assert r.rack[n..] == [state.bag[k]] + r.rack[n + 1..];
    } else {
      assert r.rack[|state.rack|..] == [];
    }
  }

  /** The refill draws min(max(0, 7 - |rack|), ceil(|bag| / 2)) letters: because
      the loop bound re-reads the shrinking bag, at most half the bag (rounded up)
      is drawn even when the rack has room for more. */
  lemma RefillCount(rack: seq<char>, bag: seq<char>, pick: (nat, nat) -> nat)
    requires ValidPicker(pick)
    ensures |Refilled(rack, bag, pick).rack| ==
      |rack| + Min(Max(0, RackSize - |rack|), (|bag| + 1) / 2)
    ensures |Refilled(rack, bag, pick).bag| ==
      |bag| - Min(Max(0, RackSize - |rack|), (|bag| + 1) / 2)
  {
    DrawSizes(RackAndBag(rack, bag), RackSize - |rack|, pick, 0);
  }

  /** Refilling moves letters from the bag to the end of the rack: the rack keeps
      its letters in front, the multiset rack + bag is unchanged, the bag shrinks
      by exactly what the rack gains, and a rack of at most 7 letters stays at most 7. */
  lemma RefillConserves(rack: seq<char>, bag: seq<char>, pick: (nat, nat) -> nat)
    requires ValidPicker(pick)
    ensures |rack| <= |Refilled(rack, bag, pick).rack|
    ensures Refilled(rack, bag, pick).rack[..|rack|] == rack
    ensures multiset(Refilled(rack, bag, pick).rack) + multiset(Refilled(rack, bag, pick).bag) ==
      multiset(rack) + multiset(bag)
    ensures |Refilled(rack, bag, pick).rack| - |rack| == |bag| - |Refilled(rack, bag, pick).bag|
    ensures |rack| <= RackSize ==> |Refilled(rack, bag, pick).rack| <= RackSize
  {
    var r := Refilled(rack, bag, pick);
    DrawConserves(RackAndBag(rack, bag), RackSize - |rack|, pick, 0);
    RefillCount(rack, bag, pick);
    assert r.rack == rack + r.rack[|rack|..];
  }

  /** Seven free spots and five letters in the bag: three are drawn and two stay behind. */
  lemma HalfBagDrawn(pick: (nat, nat) -> nat)
    requires ValidPicker(pick)
    ensures |Refilled([], "ABCDE", pick).rack| == 3
    ensures |Refilled([], "ABCDE", pick).bag| == 2
  {
    RefillCount([], "ABCDE", pick);
  }

  /** After the refill, rack and bag are both empty exactly when both were empty before it. */
  lemma RefilledEmpty(rack: seq<char>, bag: seq<char>, pick: (nat, nat) -> nat)
    requires ValidPicker(pick)
    ensures (|Refilled(rack, bag, pick).rack| == 0 && |Refilled(rack, bag, pick).bag| == 0) <==>
      (|rack| == 0 && |bag| == 0)
  {
    RefillCount(rack, bag, pick);
  }

  /** The refill loop, pushing onto the rack and splicing the bag in place. */
  method Refill(rack: seq<char>, bag: seq<char>, pick: (nat, nat) -> nat)
    returns (letters: seq<char>, free: seq<char>)
    requires ValidPicker(pick)
    ensures RackAndBag(letters, free) == Refilled(rack, bag, pick)
    ensures multiset(letters) + multiset(free) == multiset(rack) + multiset(bag)
    ensures |letters| == |rack| + Min(Max(0, RackSize - |rack|), (|bag| + 1) / 2)
  {
    letters, free := rack, bag;
    var numberOfFreeSpots := RackSize - |letters|;
    var i: nat := 0;
    while i < Min(numberOfFreeSpots, |free|)
      invariant Draw(RackAndBag(letters, free), numberOfFreeSpots, pick, i) ==
        Draw(RackAndBag(rack, bag), numberOfFreeSpots, pick, 0)
      decreases |free|
    {
      var letterIndex := pick(i, |free|);
      letters := letters + [free[letterIndex]];
      free := free[..letterIndex] + free[letterIndex + 1..];
      i := i + 1;
    }
    RefillConserves(rack, bag, pick);
    RefillCount(rack, bag, pick);
  }

  // ---------------------------------------------------------------------------
  // Game end

  /** The last 2 * playerCount moves (the last two rounds), or all moves when there
      are fewer. With no players the slice starts at minus zero, which is zero, so
      the whole list is taken. */
  function LastTwoRounds(moves: seq<string>, playerCount: nat): (r: seq<string>)
    ensures playerCount == 0 ==> r == moves
    ensures 0 < playerCount ==> |r| == Min(|moves|, 2 * playerCount)
    ensures r == moves[|moves| - |r|..]
  {
    if playerCount == 0 || |moves| <= 2 * playerCount then moves
    else moves[|moves| - 2 * playerCount..]
  }

  /** Every move in the list is a pass (an empty word); when it holds of a list it holds of every
      later part of it, so a shorter look-back window is never harder to satisfy. */
  predicate AllPasses(moves: seq<string>): (r: bool)
    ensures r ==> forall n :: 0 <= n <= |moves| ==> AllPasses(moves[n..])
  {
    forall k :: 0 <= k < |moves| ==> |moves[k]| == 0
  }

  /** Number of passes at the end of the move list, counted back from the last move. */
  function TrailingPasses(moves: seq<string>): (r: nat)
    ensures r <= |moves|
  {
    if moves == [] || |moves[|moves| - 1]| != 0 then 0
    else 1 + TrailingPasses(moves[..|moves| - 1])
  }

  lemma {:induction false} TrailingPassesSuffix(moves: seq<string>, n: nat)
    requires n <= |moves|
    ensures AllPasses(moves[|moves| - n..]) <==> n <= TrailingPasses(moves)
    decreases n
  {
    if n > 0 {
      var init := moves[..|moves| - 1];
      TrailingPassesSuffix(init, n - 1);
      assert moves[|moves| - n..] == init[|init| - (n - 1)..] + [moves[|moves| - 1]];
    }
  }

  /** The pass rule holds exactly when the last min(|moves|, 2 * playerCount) moves
      are all passes, or, with no players, when every move is. */
  lemma PassRule(moves: seq<string>, playerCount: nat)
    ensures AllPasses(LastTwoRounds(moves, playerCount)) <==>
      TrailingPasses(moves) >= |LastTwoRounds(moves, playerCount)|
    ensures playerCount == 0 ==> (AllPasses(LastTwoRounds(moves, playerCount)) <==> TrailingPasses(moves) == |moves|)
  {
    TrailingPassesSuffix(moves, |LastTwoRounds(moves, playerCount)|);
  }

  /** The two ways a move ends the game: the rack and the bag are both empty after
      the refill, or the move is a pass and so are the last two rounds of moves,
      this one included. */
  predicate GameFinished(letters: seq<char>, bag: seq<char>, word: string,
                         moves: seq<string>, playerCount: nat): (r: bool)
    ensures r <==> ((|letters| == 0 && |bag| == 0) ||
                    (|word| == 0 && TrailingPasses(moves) >= |LastTwoRounds(moves, playerCount)|))
  {
    PassRule(moves, playerCount);
    (|letters| == 0 && |bag| == 0) ||
    (|word| == 0 && AllPasses(LastTwoRounds(moves, playerCount)))
  }

  // ---------------------------------------------------------------------------
  // Turn advance

  /** The next seat: one past the mover's, back to 0 when it reaches the number of players. */
  function NextPlayerIndex(orderIndex: int, playerCount: nat): (r: int)
    ensures 0 <= orderIndex < playerCount ==> 0 <= r < playerCount && r == (orderIndex + 1) % playerCount
  {
    if orderIndex + 1 >= playerCount then 0 else orderIndex + 1
  }

  // ---------------------------------------------------------------------------
  // The whole request

  /** What an accepted move stores, given the move history with this move appended
      and the rack and bag after the refill: the rack always; then either only the
      finished flag, or the new bag and the next seat. */
  function Conclude(game: Game, player: Player, word: string, moves: seq<string>,
                    refill: RackAndBag): (r: Outcome)
    ensures r.Accepted? && r.player.orderIndex == player.orderIndex && r.player.letters == refill.rack
    ensures r.game.moves == moves && r.game.playerCount == game.playerCount
    ensures r.game.isFinished <==>
      game.isFinished || GameFinished(refill.rack, refill.bag, word, moves, game.playerCount)
    ensures r.game.currentPlayerIndex == game.currentPlayerIndex ||
      r.game.currentPlayerIndex == NextPlayerIndex(player.orderIndex, game.playerCount)
    ensures r.game.freeLetters == game.freeLetters || r.game.freeLetters == refill.bag
  {
    var stored := player.(letters := refill.rack);
    if GameFinished(refill.rack, refill.bag, word, moves, game.playerCount) then
      Accepted(stored, game.(moves := moves, isFinished := true))
    else
      Accepted(stored, game.(moves := moves, freeLetters := refill.bag,
                             currentPlayerIndex := NextPlayerIndex(player.orderIndex, game.playerCount)))
  }

  /** The effect of one move request. An out-of-turn move is refused and changes
      nothing. Otherwise the move is recorded, the played letters leave the rack,
      the rack is refilled and stored, and the game is concluded as above. */
  function Transition(game: Game, player: Player, word: string, pick: (nat, nat) -> nat): (r: Outcome)
    requires ValidPicker(pick)
    ensures r.Rejected? <==> game.currentPlayerIndex != player.orderIndex
    ensures r.Accepted? ==> |r.game.moves| == |game.moves| + 1
    ensures r.Accepted? ==> |r.game.freeLetters| <= |game.freeLetters|
  {
    if game.currentPlayerIndex != player.orderIndex then Rejected
    else
      Conclude(game, player, word, game.moves + [word],
               Refilled(RemovePlayed(player.letters, word), game.freeLetters, pick))
  }

  /** The end of the handler: the finished flag set by either rule, then one of the
      two game updates. */
  method Settle(game: Game, player: Player, word: string, moves: seq<string>,
                letters: seq<char>, allAvailableLetters: seq<char>) returns (out: Outcome)
    ensures out == Conclude(game, player, word, moves, RackAndBag(letters, allAvailableLetters))
  {
    var stored := player.(letters := letters);
    var isGameFinished := false;
    if |letters| == 0 && |allAvailableLetters| == 0 {
      isGameFinished := true;
    }
    if |word| == 0 {
      var lastTwoRoundsOfMoves := LastTwoRounds(moves, game.playerCount);
      if AllPasses(lastTwoRoundsOfMoves) {
        isGameFinished := true;
      }
    }
    if isGameFinished {
      out := Accepted(stored, game.(moves := moves, isFinished := true));
    } else {
      var nextPlayerIndex := player.orderIndex + 1;
      if nextPlayerIndex >= game.playerCount {
        nextPlayerIndex := 0;
      }
      out := Accepted(stored, game.(moves := moves, freeLetters := allAvailableLetters,
                                    currentPlayerIndex := nextPlayerIndex));
    }
  }

  /** The POST handler's logic, statement by statement. */
  method Post(game: Game, player: Player, word: string, pick: (nat, nat) -> nat) returns (out: Outcome)
    requires ValidPicker(pick)
    ensures out == Transition(game, player, word, pick)
  {
    if game.currentPlayerIndex != player.orderIndex {
      return Rejected;
    }
    var moves := game.moves + [word];
    var letters := RemovePlayedLetters(player.letters, word);
    var allAvailableLetters;
    letters, allAvailableLetters := Refill(letters, game.freeLetters, pick);
    out := Settle(game, player, word, moves, letters, allAvailableLetters);
  }

  // ---------------------------------------------------------------------------
  // Properties of a request

  /** A move is refused exactly when it is not the mover's turn; an accepted move is
      appended to the history and the player's seat is kept. */
  lemma TurnCheck(game: Game, player: Player, word: string, pick: (nat, nat) -> nat)
    requires ValidPicker(pick)
    ensures Transition(game, player, word, pick) == Rejected <==>
      game.currentPlayerIndex != player.orderIndex
    ensures Transition(game, player, word, pick).Accepted? ==>
      Transition(game, player, word, pick).game.moves == game.moves + [word] &&
      Transition(game, player, word, pick).player.orderIndex == player.orderIndex &&
      Transition(game, player, word, pick).game.playerCount == game.playerCount
  {
  }

  /** An accepted move finishes the game exactly when the rack was emptied by the
      move and the bag was already empty, or when it is a pass and the trailing
      passes cover the last two rounds. */
  lemma FinishRule(game: Game, player: Player, word: string, pick: (nat, nat) -> nat)
    requires ValidPicker(pick)
    requires game.currentPlayerIndex == player.orderIndex
    ensures Transition(game, player, word, pick).game.isFinished <==>
      game.isFinished ||
      (|RemovePlayed(player.letters, word)| == 0 && |game.freeLetters| == 0) ||
      (|word| == 0 &&
       TrailingPasses(game.moves + [word]) >= |LastTwoRounds(game.moves + [word], game.playerCount)|)
  {
    RefilledEmpty(RemovePlayed(player.letters, word), game.freeLetters, pick);
    PassRule(game.moves + [word], game.playerCount);
  }

  /** The branch test of the handler for an accepted move: one of the two rules
      fires on the rack and bag after the refill. The stored finished flag plays
      no part in it. */
  predicate MoveFinishes(game: Game, player: Player, word: string, pick: (nat, nat) -> nat): (r: bool)
    requires ValidPicker(pick)
    ensures r && game.currentPlayerIndex == player.orderIndex ==>
      Transition(game, player, word, pick).game.isFinished
  {
    var refill := Refilled(RemovePlayed(player.letters, word), game.freeLetters, pick);
    GameFinished(refill.rack, refill.bag, word, game.moves + [word], game.playerCount)
  }

  /** A move on which a rule fires stores only the flag: the seat index and the bag
      stay as they were, even when the refill drew letters from the bag, and whether
      or not the game was already finished. */
  lemma FinishingMoveKeepsTurnAndBag(game: Game, player: Player, word: string, pick: (nat, nat) -> nat)
    requires ValidPicker(pick)
    requires game.currentPlayerIndex == player.orderIndex
    requires MoveFinishes(game, player, word, pick)
    ensures Transition(game, player, word, pick).game.isFinished
    ensures Transition(game, player, word, pick).game.currentPlayerIndex == game.currentPlayerIndex
    ensures Transition(game, player, word, pick).game.freeLetters == game.freeLetters
  {
  }

  /** A move on which no rule fires conserves letters: the stored rack and bag
      together hold the old rack minus the placed letters, plus the old bag. The
      finished flag is kept as it was. */
  lemma ContinuingMoveConserves(game: Game, player: Player, word: string, pick: (nat, nat) -> nat)
    requires ValidPicker(pick)
    requires game.currentPlayerIndex == player.orderIndex
    requires !MoveFinishes(game, player, word, pick)
    ensures Transition(game, player, word, pick).game.isFinished == game.isFinished
    ensures multiset(Transition(game, player, word, pick).player.letters) +
      multiset(Transition(game, player, word, pick).game.freeLetters) ==
      (multiset(player.letters) - multiset(Placed(word))) + multiset(game.freeLetters)
  {
    RemovePlayedMultiset(player.letters, word);
    RefillConserves(RemovePlayed(player.letters, word), game.freeLetters, pick);
  }

  /** A move on which no rule fires stores the refilled bag and hands the turn to the
      next seat, wrapping to 0 after the last one, even on a game already finished. */
  lemma ContinuingMoveAdvancesTurn(game: Game, player: Player, word: string, pick: (nat, nat) -> nat)
    requires ValidPicker(pick)
    requires game.currentPlayerIndex == player.orderIndex
    requires !MoveFinishes(game, player, word, pick)
    ensures Transition(game, player, word, pick).game.freeLetters ==
      Refilled(RemovePlayed(player.letters, word), game.freeLetters, pick).bag
    ensures Transition(game, player, word, pick).game.currentPlayerIndex ==
      NextPlayerIndex(game.currentPlayerIndex, game.playerCount)
    ensures 0 <= game.currentPlayerIndex < game.playerCount ==>
      Transition(game, player, word, pick).game.currentPlayerIndex ==
        (game.currentPlayerIndex + 1) % game.playerCount
  {
    var next := NextPlayerIndex(game.currentPlayerIndex, game.playerCount);
    assert Transition(game, player, word, pick).game.currentPlayerIndex == next;
  }

  /** The move of a finished game: a non-pass whose refill leaves something, on a
      game already marked finished, still advances the turn and stores the bag. */
  lemma FinishedGameStillAdvances(pick: (nat, nat) -> nat)
    requires ValidPicker(pick)
    ensures Transition(Game(0, "XYZ", 2, ["A"], true), Player(0, "ABCDEFG"), "A", pick).game.isFinished
    ensures Transition(Game(0, "XYZ", 2, ["A"], true), Player(0, "ABCDEFG"), "A", pick).game.currentPlayerIndex == 1
  {
    var game, player := Game(0, "XYZ", 2, ["A"], true), Player(0, "ABCDEFG");
    RefillCount(RemovePlayed(player.letters, "A"), game.freeLetters, pick);
    ContinuingMoveAdvancesTurn(game, player, "A", pick);
  }

  /** A pass on a game whose last three moves were passes, with one letter in the bag
      and two on the rack: the refill draws the letter onto the rack, the pass rule
      fires, and the stored bag still holds that letter. */
  lemma FinishingMoveDuplicatesDrawn(pick: (nat, nat) -> nat)
    requires ValidPicker(pick)
    ensures Transition(Game(0, "Q", 2, ["", "", ""], false), Player(0, "AB"), "", pick).game.isFinished
    ensures Transition(Game(0, "Q", 2, ["", "", ""], false), Player(0, "AB"), "", pick).game.freeLetters == "Q"
    ensures |Transition(Game(0, "Q", 2, ["", "", ""], false), Player(0, "AB"), "", pick).player.letters| == 3
  {
    var game, player := Game(0, "Q", 2, ["", "", ""], false), Player(0, "AB");
    RefillCount(RemovePlayed(player.letters, ""), game.freeLetters, pick);
    FinishingMoveKeepsTurnAndBag(game, player, "", pick);
  }

  /** An accepted move keeps a rack of at most 7 letters at most 7. */
  lemma RackStaysWithinSize(game: Game, player: Player, word: string, pick: (nat, nat) -> nat)
    requires ValidPicker(pick)
    requires game.currentPlayerIndex == player.orderIndex
    requires |player.letters| <= RackSize
    ensures |Transition(game, player, word, pick).player.letters| <= RackSize
  {
    var rack := RemovePlayed(player.letters, word);
    RemovePlayedSubsequence(player.letters, word);
    RefillConserves(rack, game.freeLetters, pick);
  }
}
