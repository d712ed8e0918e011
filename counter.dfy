/**
 The SnookerScoreCounter object of script.js: fields that its methods update
 in place, and the browser's local storage it saves to on every change. Each
 method is proved against the functions of Ledger and Persistence, so the laws
 proved there (undo inverts addScore, reset is idempotent, a reload restores
 what was saved) hold of the object too.
 */
module ScoreCounter {
  import opened Ledger
  import opened Persistence

  /** The browser's key-value store, holding records instead of JSON text. */
  class LocalStorage {
    var items: map<string, StoredData>

    constructor (items: map<string, StoredData>)
      ensures this.items == items
    {
      this.items := items;
    }

    function GetItem(key: string): Option<StoredData>
      reads this
    {
      if key in items then Some(items[key]) else None
    }
  }

  class SnookerScoreCounter {
    const storage: LocalStorage
    var scores: Scores
    var history: seq<HistoryEntry>
    var isAnimating: bool
    // The values of the two name inputs, the reds-count selector and the respot toggle.
    var playerAName: string
    var playerBName: string
    var redsCount: string
    var respotColors: bool

    /** The state this object keeps and saves. */
    function View(): MatchState
      reads this
    {
      MatchState(scores, history, playerAName, playerBName, redsCount, respotColors)
    }

    /** Starts from zero scores, no history and the controls' defaults, then loads what is stored. */
    constructor (storage: LocalStorage)
      ensures this.storage == storage && !isAnimating
      ensures View() == Load(INITIAL, storage.GetItem(STORAGE_KEY))
      ensures storage.items == old(storage.items)
    {
      this.storage := storage;
      scores := Scores(0, 0);
      history := [];
      isAnimating := false;
      playerAName, playerBName := "", "";
      redsCount, respotColors := DEFAULT_REDS_COUNT, false;
      new;
      LoadFromStorage();
    }

    /** A score or foul button: ignored while an animation runs, otherwise addScore. */
    method HandleScoreClick(player: Player, points: int)
      modifies this, storage
      ensures isAnimating == old(isAnimating)
      ensures old(isAnimating) ==> View() == old(View()) && storage.items == old(storage.items)
      ensures !old(isAnimating) ==> View() == Ledger.AddScore(old(View()), player, points)
      ensures !old(isAnimating) ==> storage.items == old(storage.items)[STORAGE_KEY := Save(View())]
    {
      if isAnimating {
        return;
      }
      AddScore(player, points);
    }

    /** Records a snapshot, credits the points (negative scores allowed) and saves. */
    method AddScore(player: Player, points: int)
      modifies this, storage
      ensures View() == Ledger.AddScore(old(View()), player, points)
      ensures isAnimating == old(isAnimating)
      ensures storage.items == old(storage.items)[STORAGE_KEY := Save(View())]
    {
      history := history + [HistoryEntry(player, points, scores)];
      scores := Credit(scores, player, points);
      SaveToStorage();
    }

    /** Does nothing on an empty history; otherwise pops, restores the snapshot and saves. */
    method Undo()
      modifies this, storage
      ensures View() == Ledger.Undo(old(View()))
      ensures isAnimating == old(isAnimating)
      ensures old(history) == [] ==> storage.items == old(storage.items)
      ensures old(history) != [] ==> storage.items == old(storage.items)[STORAGE_KEY := Save(View())]
    {
      if |history| == 0 {
        return;
      }
      var lastAction := history[|history| - 1];
      history := history[..|history| - 1];
      scores := lastAction.previousScores;
      SaveToStorage();
    }

    /** The state part of reset: zero scores, no history, blank names, default settings; then saves. */
    method Reset()
      modifies this, storage
      ensures View() == Ledger.Reset(old(View()))
      ensures isAnimating == old(isAnimating)
      ensures storage.items == old(storage.items)[STORAGE_KEY := Save(View())]
    {
      scores := Scores(0, 0);
      history := [];
      playerAName, playerBName := "", "";
      redsCount := DEFAULT_REDS_COUNT;
      respotColors := false;
      SaveToStorage();
    }

    /** Typing in a name input: the new value is saved. */
    method EditPlayerName(player: Player, name: string)
      modifies this, storage
      ensures View() == if player == A then old(View()).(playerAName := name)
                        else old(View()).(playerBName := name)
      ensures isAnimating == old(isAnimating)
      ensures storage.items == old(storage.items)[STORAGE_KEY := Save(View())]
    {
      if player == A {
        playerAName := name;
      } else {
        playerBName := name;
      }
      SaveToStorage();
    }

    /** Changing the reds-count selector: the new value is saved. */
    method SelectRedsCount(value: string)
      modifies this, storage
      ensures View() == old(View()).(redsCount := value)
      ensures isAnimating == old(isAnimating)
      ensures storage.items == old(storage.items)[STORAGE_KEY := Save(View())]
    {
      redsCount := value;
      SaveToStorage();
    }

    /** Flipping the respot toggle: the new value is saved. */
    method ToggleRespot(checked: bool)
      modifies this, storage
      ensures View() == old(View()).(respotColors := checked)
      ensures isAnimating == old(isAnimating)
      ensures storage.items == old(storage.items)[STORAGE_KEY := Save(View())]
    {
      respotColors := checked;
      SaveToStorage();
    }

    /** Writes the whole state under the key; every other key is left alone. */
    method SaveToStorage()
      modifies storage
      ensures storage.items == old(storage.items)[STORAGE_KEY := Save(View())]
    {
      var data := StoredData(Some(scores), Some(history), Some(playerAName), Some(playerBName),
                             Some(redsCount), Some(respotColors));
      storage.items := storage.items[STORAGE_KEY := data];
    }

    /** Reads the record under the key, if any, with the default fallbacks. */
    method LoadFromStorage()
      modifies this
      ensures View() == Load(old(View()), storage.GetItem(STORAGE_KEY))
      ensures isAnimating == old(isAnimating)
    {
      var data := storage.GetItem(STORAGE_KEY);
      if data.Some? {
        var parsed := data.value;
        scores := if parsed.scores.Some? then parsed.scores.value else Scores(0, 0);
        history := if parsed.history.Some? then parsed.history.value else [];
        if Truthy(parsed.playerAName) {
          playerAName := parsed.playerAName.value;
        }
        if Truthy(parsed.playerBName) {
          playerBName := parsed.playerBName.value;
        }
        if Truthy(parsed.redsCount) {
          redsCount := parsed.redsCount.value;
        }
        if parsed.respotColors.Some? {
          respotColors := parsed.respotColors.value;
        }
      }
    }
  }

  /**
   A page reload after a change: a new counter built over the same storage
   shows exactly the state that was saved.
   */
  method Reload(c: SnookerScoreCounter) returns (d: SnookerScoreCounter)
    requires STORAGE_KEY in c.storage.items && c.storage.items[STORAGE_KEY] == Save(c.View())
    requires c.redsCount != ""
    ensures d.storage == c.storage && !d.isAnimating
    ensures d.View() == c.View()
  {
    d := new SnookerScoreCounter(c.storage);
    SaveLoadIntoFresh(c.View());
  }

  /** The example session, played against the object and then reloaded. */
  method ExampleSession() {
    var storage := new LocalStorage(map[]);
    var c := new SnookerScoreCounter(storage);
    assert c.View() == INITIAL;
    c.AddScore(A, 7);
    assert c.scores == Scores(7, 0);
    c.AddScore(B, -4);
    assert c.scores == Scores(7, -4);
    c.Undo();
    assert c.scores == Scores(7, 0);
    var d := Reload(c);
    assert d.scores == Scores(7, 0) && |d.history| == 1;
    c.Undo();
    assert c.View() == INITIAL;
    c.Undo();
    assert c.View() == INITIAL;
  }
}
