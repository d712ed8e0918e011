/**
 The record the counter writes to local storage under one fixed key, and how
 a stored record is read back. The record is abstract: each field is either
 absent (`None`, JavaScript's `undefined`) or holds a value of its type, and
 the JSON text and the storage API itself are not modelled.
 */
module Persistence {
  import opened Ledger

  datatype Option<T> = None | Some(value: T) {
    function GetOr(default: T): T {
      match this
      case Some(v) => v
      case None => default
    }
  }

  /** The key the counter saves under. */
  const STORAGE_KEY := "snookerScoreData"

  /** The saved object `{ scores, history, playerAName, playerBName, redsCount, respotColors }`. */
  datatype StoredData = StoredData(
    scores: Option<Scores>,
    history: Option<seq<HistoryEntry>>,
    playerAName: Option<string>,
    playerBName: Option<string>,
    redsCount: Option<string>,
    respotColors: Option<bool>)

  /** JavaScript truthiness of an optional string: present and not empty. */
  predicate Truthy(s: Option<string>) {
    s.Some? && s.value != ""
  }

  /** saveToStorage: every field of the state is written. */
  function Save(m: MatchState): (d: StoredData)
    ensures d.scores.Some? && d.history.Some? && d.respotColors.Some?
    ensures d.playerAName.Some? && d.playerBName.Some? && d.redsCount.Some?
  {
    StoredData(Some(m.scores), Some(m.history), Some(m.playerAName), Some(m.playerBName),
               Some(m.redsCount), Some(m.respotColors))
  }

  /** `if (stored) current = stored`: a name or reds count replaces the current one only when truthy. */
  function Overwrite(current: string, stored: Option<string>): (r: string)
    ensures Truthy(stored) ==> r == stored.value
    ensures !Truthy(stored) ==> r == current
  {
    if Truthy(stored) then stored.value else current
  }

  /**
   loadFromStorage applied to the state `m` and what the storage holds under
   the key (`None` when nothing is stored). Scores and history are taken from
   the record or fall back to zero and empty; names and the reds count are
   taken only when truthy; the respot flag whenever it is defined.
   */
  function Load(m: MatchState, item: Option<StoredData>): (r: MatchState)
    ensures item.None? ==> r == m
    ensures item.Some? && item.value.scores.None? ==> r.scores == ZERO
    ensures item.Some? && item.value.history.None? ==> r.history == []
    ensures item.Some? && item.value.scores.Some? ==> r.scores == item.value.scores.value
    ensures item.Some? && item.value.history.Some? ==> r.history == item.value.history.value
    ensures item.Some? && Truthy(item.value.playerAName) ==> r.playerAName == item.value.playerAName.value
    ensures item.Some? && Truthy(item.value.playerBName) ==> r.playerBName == item.value.playerBName.value
    ensures item.Some? && Truthy(item.value.redsCount) ==> r.redsCount == item.value.redsCount.value
    ensures item.Some? && item.value.respotColors.Some? ==> r.respotColors == item.value.respotColors.value
    ensures r.playerAName != m.playerAName ==> item.Some? && Truthy(item.value.playerAName)
    ensures r.playerBName != m.playerBName ==> item.Some? && Truthy(item.value.playerBName)
    ensures r.redsCount != m.redsCount ==> item.Some? && Truthy(item.value.redsCount)
    ensures r.respotColors != m.respotColors ==> item.Some? && item.value.respotColors.Some?
  {
    match item
    case None => m
    case Some(parsed) =>
      MatchState(
        parsed.scores.GetOr(ZERO),
        parsed.history.GetOr([]),
        Overwrite(m.playerAName, parsed.playerAName),
        Overwrite(m.playerBName, parsed.playerBName),
        Overwrite(m.redsCount, parsed.redsCount),
        if parsed.respotColors.Some? then parsed.respotColors.value else m.respotColors)
  }

  /**
   Saving `m` and loading it over `base` gives back `m` exactly when every
   empty string of `m` is also empty in `base`: an empty stored name or reds
   count is not truthy, so the value already in `base` stays.
   */
  lemma SaveLoadRoundTrip(base: MatchState, m: MatchState)
    ensures Load(base, Some(Save(m))) == m <==>
            && (m.playerAName == "" ==> base.playerAName == "")
            && (m.playerBName == "" ==> base.playerBName == "")
            && (m.redsCount == "" ==> base.redsCount == "")
  {
    var r := Load(base, Some(Save(m)));
    if r == m {
      assert r.playerAName == m.playerAName && r.playerBName == m.playerBName;
      assert r.redsCount == m.redsCount;
    }
  }

  /**
   A page reload: what was saved, loaded into a newly built counter, is what
   was saved, provided the reds count is not empty (the selector never is).
   */
  lemma SaveLoadIntoFresh(m: MatchState)
    requires m.redsCount != ""
    ensures Load(INITIAL, Some(Save(m))) == m
  {
    SaveLoadRoundTrip(INITIAL, m);
  }

  /** An empty reds count is not restored: the fresh counter keeps its default. */
  lemma EmptyRedsCountNotRestored(m: MatchState)
    requires m.redsCount == ""
    ensures Load(INITIAL, Some(Save(m))) == m.(redsCount := DEFAULT_REDS_COUNT)
    ensures Load(INITIAL, Some(Save(m))) != m
  {
  }

  /** A record with every field absent resets scores and history and keeps names and settings. */
  lemma LoadEmptyRecord(m: MatchState)
    ensures var r := Load(m, Some(StoredData(None, None, None, None, None, None)));
            r == m.(scores := ZERO, history := [])
  {
  }

  /** Loading the same record twice is loading it once. */
  lemma LoadIdempotent(m: MatchState, item: Option<StoredData>)
    ensures Load(Load(m, item), item) == Load(m, item)
  {
  }

  /** A saved state whose history explains its scores still does after loading it. */
  lemma LoadKeepsConsistent(base: MatchState, m: MatchState)
    requires Consistent(m.scores, m.history)
    ensures var r := Load(base, Some(Save(m))); Consistent(r.scores, r.history)
  {
  }
}
