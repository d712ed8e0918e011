/**
 The score ledger of the snooker score counter, as values: the two players'
 scores, the undo history of snapshots, the name and table settings, and the
 state changes that adding points, undoing and resetting make to them.
 The class in ScoreCounter performs these changes in place and is proved
 against the functions here; the lemmas here are the laws of undo by snapshot.
 */
module Ledger {

  /** The two players, `'a'` and `'b'` in the buttons' `data-player`. */
  datatype Player = A | B

  /** The score object `{ a, b }`. Scores are unbounded and may go negative. */
  datatype Scores = Scores(a: int, b: int)

  const ZERO := Scores(0, 0)

  /** The value the reds-count selector is given by a reset. */
  const DEFAULT_REDS_COUNT := "15"

  function Score(s: Scores, p: Player): int {
    match p
    case A => s.a
    case B => s.b
  }

  /** `scores[player] += points`: one player's score moves, the other's does not. */
  function Credit(s: Scores, p: Player, points: int): (r: Scores)
    ensures Score(r, p) == Score(s, p) + points
    ensures forall q :: q != p ==> Score(r, q) == Score(s, q)
  {
    match p
    case A => s.(a := s.a + points)
    case B => s.(b := s.b + points)
  }

  /** One undo record: who scored, how much, and a copy of the scores before. */
  datatype HistoryEntry = HistoryEntry(player: Player, points: int, previousScores: Scores)

  /** A click on a score or foul button. */
  datatype Move = Move(player: Player, points: int)

  /**
   Everything the counter keeps and saves: the scores, the undo stack (last
   entry on top), both name inputs, the reds-count selector and the respot toggle.
   */
  datatype MatchState = MatchState(
    scores: Scores,
    history: seq<HistoryEntry>,
    playerAName: string,
    playerBName: string,
    redsCount: string,
    respotColors: bool)

  /** The state a reset produces, and the state a new counter starts from. */
  const INITIAL := MatchState(ZERO, [], "", "", DEFAULT_REDS_COUNT, false)

  function Last(history: seq<HistoryEntry>): HistoryEntry
    requires history != []
  {
    history[|history| - 1]
  }

  /** The names and settings of two states agree. */
  predicate SameSettings(r: MatchState, m: MatchState) {
    && r.playerAName == m.playerAName
    && r.playerBName == m.playerBName
    && r.redsCount == m.redsCount
    && r.respotColors == m.respotColors
  }

  /**
   addScore: push a snapshot of the scores as they are, then credit the points
   to one player. Nothing bounds the result from below.
   */
  function AddScore(m: MatchState, p: Player, points: int): (r: MatchState)
    ensures |r.history| == |m.history| + 1
    ensures r.history[..|m.history|] == m.history
    ensures Last(r.history) == HistoryEntry(p, points, m.scores)
    ensures Score(r.scores, p) == Score(m.scores, p) + points
    ensures forall q :: q != p ==> Score(r.scores, q) == Score(m.scores, q)
    ensures SameSettings(r, m)
  {
    var entry := HistoryEntry(p, points, m.scores);
    m.(history := m.history + [entry], scores := Credit(m.scores, p, points))
  }

  /**
   undo: nothing on an empty history; otherwise pop the last entry and put
   its snapshot back as the scores, whole.
   */
  function Undo(m: MatchState): (r: MatchState)
    ensures m.history == [] ==> r == m
    ensures m.history != [] ==> r.history + [Last(m.history)] == m.history
    ensures m.history != [] ==> r.scores == Last(m.history).previousScores
    ensures SameSettings(r, m)
  {
    if |m.history| == 0 then m
    else
      var lastAction := Last(m.history);
      m.(history := m.history[..|m.history| - 1], scores := lastAction.previousScores)
  }

  /** reset: zero scores, empty history, blank names, default settings, whatever came before. */
  function Reset(m: MatchState): (r: MatchState)
    ensures r == INITIAL
  {
    m.(scores := Scores(0, 0), history := [],
       playerAName := "", playerBName := "",
       redsCount := DEFAULT_REDS_COUNT, respotColors := false)
  }

  /** The state after `k` presses of undo. */
  function UndoTimes(m: MatchState, k: nat): MatchState
    decreases k
  {
    if k == 0 then m else UndoTimes(Undo(m), k - 1)
  }

  /** The points one click gives player `p`. */
  function Gain(mv: Move, p: Player): int {
    if mv.player == p then mv.points else 0
  }

  /** The points the clicks in `moves` give player `p`, counted from the first click. */
  function MovesTally(moves: seq<Move>, p: Player): int
    decreases |moves|
  {
    if moves == [] then 0 else Gain(moves[0], p) + MovesTally(moves[1..], p)
  }

  /** `MovesTally` counted from the last click instead. */
  lemma {:induction false} MovesTallyLast(moves: seq<Move>)
    requires moves != []
    ensures forall p :: MovesTally(moves, p) == MovesTally(moves[..|moves| - 1], p) + Gain(moves[|moves| - 1], p)
    decreases |moves|
  {
    if |moves| > 1 {
      MovesTallyLast(moves[1..]);
      assert moves[1..][..|moves| - 2] == moves[..|moves| - 1][1..];
    }
  }

  /**
   The state after clicking through `moves` in order: one entry per click,
   recording that click's player and points, and every score moved by the
   points its player's clicks carry.
   */
  function Play(m: MatchState, moves: seq<Move>): (r: MatchState)
    decreases |moves|
    ensures |r.history| == |m.history| + |moves|
    ensures r.history[..|m.history|] == m.history
    ensures forall i :: |m.history| <= i < |r.history| ==>
              r.history[i].player == moves[i - |m.history|].player &&
              r.history[i].points == moves[i - |m.history|].points
    ensures forall p :: Score(r.scores, p) == Score(m.scores, p) + MovesTally(moves, p)
    ensures SameSettings(r, m)
  {
    if moves == [] then m
    else
      var k := |moves| - 1;
      var before := Play(m, moves[..k]);
      var r := AddScore(before, moves[k].player, moves[k].points);
      MovesTallyLast(moves);
      assert forall i :: |m.history| <= i < |before.history| ==> r.history[i] == before.history[i];
      r
  }

  /**
   The history explains the scores: crediting each entry's points to its
   snapshot gives the next entry's snapshot, and the last one gives the scores.
   */
  predicate Consistent(scores: Scores, history: seq<HistoryEntry>)
    decreases |history|
  {
    history == [] ||
    (var e := Last(history);
     scores == Credit(e.previousScores, e.player, e.points) &&
     Consistent(e.previousScores, history[..|history| - 1]))
  }

  /** The points the history records for player `p`. */
  function Tally(history: seq<HistoryEntry>, p: Player): int
    decreases |history|
  {
    if history == [] then 0
    else
      var e := Last(history);
      Tally(history[..|history| - 1], p) + (if e.player == p then e.points else 0)
  }

  // ---------------------------------------------------------------------
  // Laws of undo by snapshot
  // ---------------------------------------------------------------------

  /** addScore touches exactly one score: the result is characterised by the two score laws. */
  lemma CreditTouchesOneScore(s: Scores, p: Player, points: int, r: Scores)
    ensures r == Credit(s, p, points) <==>
            (Score(r, p) == Score(s, p) + points && forall q :: q != p ==> Score(r, q) == Score(s, q))
  {
    if Score(r, p) == Score(s, p) + points && forall q :: q != p ==> Score(r, q) == Score(s, q) {
      var other := if p == A then B else A;
      assert Score(r, other) == Score(s, other);
    }
  }

  /** Undo with nothing recorded changes nothing. */
  lemma UndoOnEmptyIsNoOp(m: MatchState)
    requires m.history == []
    ensures Undo(m) == m
  {
  }

  /** Undo takes back exactly the last addScore: scores and history as they were. */
  lemma UndoAfterAdd(m: MatchState, p: Player, points: int)
    ensures Undo(AddScore(m, p, points)) == m
  {
    var r := AddScore(m, p, points);
    assert r.history[..|r.history| - 1] == m.history;
  }

  /** Two adds for one player and one undo leave that player credited with the first only. */
  lemma TwoAddsOneUndo(m: MatchState, p: Player, d1: int, d2: int)
    ensures Undo(AddScore(AddScore(m, p, d1), p, d2)) == AddScore(m, p, d1)
    ensures Score(Undo(AddScore(AddScore(m, p, d1), p, d2)).scores, p) == Score(m.scores, p) + d1
  {
    UndoAfterAdd(AddScore(m, p, d1), p, d2);
  }

  /** Reset twice is reset once. */
  lemma ResetIdempotent(m: MatchState)
    ensures Reset(Reset(m)) == Reset(m)
  {
  }

  /** `k` undos pop exactly `k` entries and restore the snapshot of the `k`-th from the top. */
  lemma {:induction false} UndoTimesPops(m: MatchState, k: nat)
    requires 0 < k <= |m.history|
    ensures UndoTimes(m, k).history == m.history[..|m.history| - k]
    ensures UndoTimes(m, k).scores == m.history[|m.history| - k].previousScores
    ensures SameSettings(UndoTimes(m, k), m)
    decreases k
  {
    var n := |m.history|;
    var u := Undo(m);
    assert u.history == m.history[..n - 1];
    if k > 1 {
      UndoTimesPops(u, k - 1);
      assert u.history[..n - 1 - (k - 1)] == m.history[..n - k];
    }
  }

  /**
   Pressing undo at least as many times as there are entries ends at the
   earliest snapshot with an empty history, and further presses change nothing.
   */
  lemma {:induction false} UndoUnwindsToEarliest(m: MatchState, k: nat)
    requires k >= |m.history|
    ensures m.history == [] ==> UndoTimes(m, k) == m
    ensures m.history != [] ==>
              UndoTimes(m, k) == m.(scores := m.history[0].previousScores, history := [])
    decreases k
  {
    if k > 0 {
      var u := Undo(m);
      UndoUnwindsToEarliest(u, k - 1);
      if |m.history| > 1 {
        assert u.history[0] == m.history[0];
      }
    }
  }

  /** `n` clicks followed by `n` undos give back the state before the clicks. */
  lemma {:induction false} UndoUnwindsPlay(m: MatchState, moves: seq<Move>)
    ensures UndoTimes(Play(m, moves), |moves|) == m
  {
    if moves != [] {
      var k := |moves| - 1;
      UndoAfterAdd(Play(m, moves[..k]), moves[k].player, moves[k].points);
      UndoUnwindsPlay(m, moves[..k]);
    }
  }

  /** From a fresh or reset counter, undoing every click brings both scores back to zero. */
  lemma UndoEverythingFromStart(moves: seq<Move>)
    ensures UndoTimes(Play(INITIAL, moves), |moves|) == INITIAL
    ensures UndoTimes(Play(INITIAL, moves), |moves|).scores == ZERO
  {
    UndoUnwindsPlay(INITIAL, moves);
  }

  /** addScore keeps the history consistent with the scores. */
  lemma AddKeepsConsistent(m: MatchState, p: Player, points: int)
    requires Consistent(m.scores, m.history)
    ensures var r := AddScore(m, p, points); Consistent(r.scores, r.history)
  {
    var r := AddScore(m, p, points);
    assert r.history[..|r.history| - 1] == m.history;
  }

  /** undo keeps the history consistent with the scores. */
  lemma UndoKeepsConsistent(m: MatchState)
    requires Consistent(m.scores, m.history)
    ensures var r := Undo(m); Consistent(r.scores, r.history)
  {
  }

  /** Every sequence of clicks from a consistent state leaves a consistent state. */
  lemma {:induction false} PlayKeepsConsistent(m: MatchState, moves: seq<Move>)
    requires Consistent(m.scores, m.history)
    ensures var r := Play(m, moves); Consistent(r.scores, r.history)
  {
    if moves != [] {
      var k := |moves| - 1;
      PlayKeepsConsistent(m, moves[..k]);
      AddKeepsConsistent(Play(m, moves[..k]), moves[k].player, moves[k].points);
    }
  }

  /**
   In a consistent state each score is the earliest snapshot's score plus the
   points the history records for that player.
   */
  lemma {:induction false} ConsistentScoresAreTallies(scores: Scores, history: seq<HistoryEntry>, p: Player)
    requires history != [] && Consistent(scores, history)
    ensures Score(scores, p) == Score(history[0].previousScores, p) + Tally(history, p)
    decreases |history|
  {
    var n := |history|;
    var e := Last(history);
    var rest := history[..n - 1];
    if rest == [] {
      assert history[0] == e;
    } else {
      ConsistentScoresAreTallies(e.previousScores, rest, p);
      assert rest[0] == history[0];
    }
  }

  /** The example session: 7 to A, a 4-point foul against B, then three undos. */
  lemma ExampleSession()
    ensures var s1 := AddScore(INITIAL, A, 7);
            var s2 := AddScore(s1, B, -4);
            && s1.scores == Scores(7, 0)
            && s2.scores == Scores(7, -4)
            && Undo(s2).scores == Scores(7, 0)
            && Undo(Undo(s2)).scores == ZERO
            && Undo(Undo(Undo(s2))) == INITIAL
  {
    UndoAfterAdd(AddScore(INITIAL, A, 7), B, -4);
    UndoAfterAdd(INITIAL, A, 7);
  }
}
