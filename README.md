# Glicko-2 league bookkeeping, modelled in Dafny

The model covers the ranking bookkeeping of `glicko.py`, a small Tkinter
application that keeps a Glicko-2 league. The window code is left out.
What remains is:

- **the player record** `Zawodnik`: a name, the rating library's state
  (rating, RD, volatility), a queue of results waiting for the next rating
  update, win/loss/draw counters and the history of ratings. Its state
  dictionary can be saved and restored.
- **the registry** of `Aplikacja`: a dictionary of players keyed by name,
  in insertion order, and the match ledger.
- **the registration handler**: the typed-in name is stripped, refused when
  empty, refused when the regular expression `^[A-Za-z0-9_ ]{1,20}$` does
  not match, refused when already registered, and otherwise added with a
  default record.
- **the match handler**: two different chosen names, a result label that
  decides both scores and the counter each player gains, one queued result
  per player, then a settlement, then one ledger entry.
- **the settlement loop**: every player with queued results, in insertion
  order, is updated by the Glicko-2 engine against the ratings and RDs its
  opponents have at that moment. The new rating is appended to the
  player's history and the queue is cleared.
- **the ranking view's order**: a stable descending sort by rating, by win
  ratio or by games played, plus the statistics shown per player. The
  export lists the same statistics in insertion order.

Files:

- `names.dfy` (module `Names`): Python's `str.strip`, the regular
  expression and the registration decision, all pure.
- `players.dfy` (module `Players`): the value `PlayerValue`, the class
  `Competitor` that the application updates in place, and `get_state` /
  `from_state` with their round trip.
- `settlement.dfy` (module `Settlement`): the effect of recording a match
  and of the settlement loop, as functions over the registry's contents
  (a map from name to record). These are the specifications the
  imperative methods are proved against.
- `standings.dfy` (module `Standings`): the sort keys, the stable
  descending sort as a function, its in-place array version, and the
  statistics rows.
- `league.dfy` (module `Ranking`): the class `League`. It holds the players
  map, the insertion order and the ledger, with the handlers as methods.
  Its ghost field `view` holds the registry's contents. `Valid()` ties
  `view` to the records and says that `order` lists every key once, that
  every queued result names a registered player, and that every history
  ends with its player's current rating.

The queue stores an opponent's **name**, not a copy of its rating. In
`dodaj_mecz` the source queues the opponent's live rating object, and the
settlement loop reads that object's rating and RD only when it runs. So a
player settled later in the loop sees the rating its opponent was just
given. `Settlement.SettleSeqUpdate` states this in general: the player at
position `i` of the loop is updated against its opponents as the first `i`
steps left them. `Settlement.LiveOpponentRead` works it out for two players
that each have the other as their only queued opponent. Names are registry
keys and are never changed or removed, so a name identifies the same
record a live reference would.

The Glicko-2 update is a parameter, `engine`. It maps a rating state and
the lists of opponent ratings, opponent RDs and scores to the new state.
The timestamp of a ledger entry is a parameter `date`. Floating-point
numbers are modelled as exact reals.

## Model

| member | source | states |
|---|---|---|
| Names.IsSpace | glicko.py:301 | space, tab, line feed and carriage return count as whitespace, and the only whitespace character a name may contain is the space |
| Names.TrimLeft | glicko.py:301 | the result is a suffix of the input, everything cut off is whitespace, and it does not start with whitespace |
| Names.TrimRight | glicko.py:301 | the result is a prefix of the input, everything cut off is whitespace, and it does not end with whitespace |
| Names.Strip | glicko.py:301 | the stripped name neither starts nor ends with whitespace, all-whitespace input gives the empty name, and an input without whitespace at either end is returned as is |
| Names.StripKeepsInfix | glicko.py:301 | what stripping keeps is one contiguous part of the input, and every character cut off on either side is whitespace |
| Names.TrimmedInfix | glicko.py:301 | cutting leading and then trailing whitespace keeps a contiguous part of the input that starts where the leading whitespace ends, with only whitespace around it |
| Names.RegexMatches | glicko.py:304 | a matching text has 1 to 21 characters; a text without a final line feed matches exactly when it is 1 to 20 characters from `[A-Za-z0-9_ ]`, and every such text matches |
| Names.StrippedMatchesIffBody | glicko.py:304 | after stripping, the regular expression (whose `$` also matches before a final line feed) accepts exactly the names of 1 to 20 characters from `[A-Za-z0-9_ ]` |
| Names.Admit | glicko.py:301-323 | a name is added if and only if it is non-empty after stripping, is 1 to 20 allowed characters and is not a key yet; it is refused as empty exactly when nothing remains after stripping, as invalid exactly when the stripped name is non-empty but not 1 to 20 allowed characters, and as a duplicate exactly when the stripped name is valid and already a key, that key being named |
| Players.Initial | glicko.py:38-63 | a new record has the given name, zero counters, an empty queue, the library defaults (1500, 350, 0.06) for absent overrides and each given override as it is, and a history holding just its rating |
| Players.StateOf | glicko.py:75-93 | the state dictionary holds the name, the three rating values, the three counters and the history, and not the queue |
| Players.Restore | glicko.py:94-117 | a restored record has the saved name and rating state and an empty queue; missing counters become 0 and a missing history becomes the saved rating alone |
| Players.RestoreStateOf | glicko.py:75-117 | restoring a saved record gives back everything but the queue, which comes back empty |
| Players.Competitor.constructor | glicko.py:38-63 | a constructed record holds exactly `Initial` of its arguments |
| Players.Competitor.FromState | glicko.py:94-117 | a record built from a state dictionary holds exactly `Restore` of it |
| Players.Competitor.AddMatch | glicko.py:65-73 | one entry naming the opponent with the score is appended to the queue, and nothing else changes |
| Players.Competitor.ApplyUpdate | glicko.py:405-411 | the record takes the engine's new rating state, its history gains exactly that new rating, its queue is emptied, and its name and counters are unchanged |
| Players.Competitor.GetState | glicko.py:75-93 | restoring the returned dictionary gives back this record with an empty queue |
| Settlement.Score | glicko.py:344-358 | a score lies in [0, 1]: it is 1 exactly for a win, 0.5 exactly for a draw and 0 exactly for a loss |
| Settlement.MatchAllowed | glicko.py:342 | a match goes ahead if and only if both chosen names are non-empty and they differ |
| Settlement.LabelResults | glicko.py:343-361 | the first-player-wins label gives a win to player 1, the draw label a draw, any other label a win to player 2; the two results are always opposite and the scores add up to 1 |
| Settlement.Tally | glicko.py:343-361 | recording a result adds exactly one game: a win one win, a draw one draw, a loss one loss, the other two counters unchanged; name, rating state, queue and history are left alone |
| Settlement.RecordMatch | glicko.py:343-369 | recording a match keeps the set of keys, keeps every queued opponent registered, keeps every history ending with its current rating, and leaves every other player unchanged |
| Settlement.RecordMatchCounters | glicko.py:343-369 | each player plays one more game (two more between them); the first-player-wins label gives player 1 score 1 and one more win and player 2 one more loss, the draw label score 0.5 and one more draw each, any other label score 0, one more loss for player 1 and one more win for player 2, every other counter staying as it was; each player queues the other with its score, the scores summing to 1; names, rating states and histories are untouched |
| Settlement.OpponentRatings | glicko.py:398-404 | one opponent rating per queued result |
| Settlement.OpponentRds | glicko.py:398-404 | one opponent RD per queued result |
| Settlement.Outcomes | glicko.py:398-404 | one score per queued result |
| Settlement.Settled | glicko.py:398-411 | a settled player keeps its name and counters, has an empty queue, has its history extended by exactly its new rating, and its new rating state is the engine's output on its old state and, in queue order, the current rating and RD of each queued opponent and each score |
| Settlement.SettleOne | glicko.py:397-411 | one step of the loop keeps the keys, keeps every queued opponent registered, keeps every history ending with its current rating, and changes no other player |
| Settlement.SettleSeq | glicko.py:396-411 | the loop over a list of names keeps the keys and keeps every queued opponent registered |
| Settlement.SettleSeqStep | glicko.py:396 | the loop over one more name is one more step |
| Settlement.SettleSeqEffect | glicko.py:396-411 | a listed player with queued results gets exactly one update: one history entry equal to its new rating, an empty queue, counters and name unchanged; every other player is left exactly as it was |
| Settlement.SettleAllEmptiesQueues | glicko.py:396-411 | after the loop over all registered names, no queue is left |
| Settlement.SettleSeqLater | glicko.py:396-411 | once a player has had its turn in the loop, the later steps leave its record as that turn left it |
| Settlement.SettleSeqUpdate | glicko.py:396-411 | the player at position `i` of the loop, untouched by the first `i` steps, gets as new rating state the engine's output on its old state against its opponents' ratings and RDs as those first `i` steps left them |
| Settlement.SettleSeqTracksRating | glicko.py:409-410 | the last history entry stays equal to the current rating through the loop |
| Settlement.MatchThenSettle | glicko.py:343-373 | after an accepted match and the settlement, the two players have two more games between them, each history is the old one followed by exactly the player's new rating, and both queues are empty |
| Settlement.SingleQueue | glicko.py:401-404 | a queue of one result against `x` yields `x`'s current rating, its current RD and the score |
| Settlement.LiveOpponentRead | glicko.py:396-410 | for any two players `a` before `b` in the loop, each with the other as only queued opponent: `a` is updated against `b`'s rating and RD as they were, and `b` against the new rating and RD the loop just gave `a`, not those `a` had when the match was played |
| Settlement.ClosedAdd | glicko.py:312 | adding a record with an empty queue keeps every queued opponent registered |
| Settlement.TrackAdd | glicko.py:312 | adding a record whose history ends with its rating keeps that true of every record |
| Standings.SortKey | glicko.py:425-440 | the rating option sorts on the rating, the win-ratio option on `WinRatio` (in [0, 1], 0 for a player without games, wins over games otherwise), and the games option on the number of games |
| Standings.WinRatio | glicko.py:430-435 | the win-ratio key lies in [0, 1], is 0 without games, and is wins over games otherwise |
| Standings.WinPercent | glicko.py:450-454 | the displayed win percentage lies in [0, 100], is 0 without games, is 100 times wins over games otherwise, and is 100 when every game was won |
| Standings.Insert | glicko.py:425-440 | inserting one entry adds one element |
| Standings.SortDescending | glicko.py:425-440 | the sort keeps the length |
| Standings.InsertPermutes | glicko.py:425-440 | inserting adds exactly the inserted entry to the multiset |
| Standings.SortPermutes | glicko.py:425-440 | the sort returns a permutation of its input |
| Standings.InsertOrdered | glicko.py:425-440 | inserting an entry with a later original position into an ordered list keeps it ordered |
| Standings.SortOrdered | glicko.py:425-440 | given entries in their original order, the sort puts larger keys first and keeps entries with equal keys in their original order |
| Standings.OrderedHeads | glicko.py:425-440 | two orderings of the same entries start with the same entry |
| Standings.DropHead | glicko.py:425-440 | dropping the first entry of an ordering leaves an ordering of the remaining entries |
| Standings.OrderedUnique | glicko.py:425-440 | there is only one stable descending order of a given set of entries, so the sort's result is fully determined |
| Standings.Tagged | glicko.py:421 | the players in insertion order, each with its key and its original position |
| Standings.Standing | glicko.py:419-440 | the ranking order is a rearrangement of the registered players, each entry naming the player at its original position |
| Standings.StandingProperties | glicko.py:419-440 | for a known option keys never increase and equal keys keep insertion order; for any other option the insertion order is kept |
| Standings.InsertSplit | glicko.py:425-440 | the insertion puts the entry right after the last entry whose key is not smaller |
| Standings.Placed | glicko.py:425-440 | an array slice that agrees with the list before and after the insertion point and holds the entry at it equals the list with the entry inserted there |
| Standings.InsertAt | glicko.py:425-440 | one pass of the in-place sort leaves the first `i+1` cells equal to the insertion of cell `i` into the sorted prefix and the rest of the array unchanged |
| Standings.SortInPlace | glicko.py:425-440 | the in-place sort leaves the array equal to the stable descending sort of its old contents |
| Standings.RowOf | glicko.py:446-460 | a row shows the player's name, rating, RD, volatility and three counters, its games are wins plus losses plus draws, and its win percentage is `WinPercent` of the player, 0 when there are no games |
| Ranking.EnumeratesAppend | glicko.py:312 | appending a new key to the insertion order keeps it a listing of every key once |
| Ranking.League.constructor | glicko.py:135-136 | the application starts with no players and an empty ledger |
| Ranking.League.Register | glicko.py:297-323 | the outcome is `Admit` of the typed-in text against the registered names; an added name gets a default record at the end of the insertion order; a refused name changes nothing |
| Ranking.League.Add | glicko.py:312 | a new default record is stored under the name, the name is appended to the insertion order, and the ledger is unchanged |
| Ranking.League.CollectGames | glicko.py:398-404 | the three lists hold the current rating and RD of each queued opponent and each queued score, in queue order |
| Ranking.League.SettlePlayer | glicko.py:397-411 | one pass of the loop changes the registry exactly as `SettleOne` says, keeping every history ending with its rating |
| Ranking.League.Settle | glicko.py:392-411 | the registry becomes `SettleSeq` of its old contents over the insertion order, every queue is empty, and the keys, the order and the ledger are unchanged |
| Ranking.League.CountResult | glicko.py:343-361 | each player's counters move as `Tally` of the label's result, and the scores are the label's scores |
| Ranking.League.RecordPair | glicko.py:343-369 | each record's counters move as `Tally` of the label's result, and each queues the other's name with its score, in that order |
| Ranking.League.Record | glicko.py:343-369 | the registry changes exactly as `RecordMatch` says; keys, order and ledger are unchanged |
| Ranking.League.PlayMatch | glicko.py:333-390 | a match is accepted if and only if both names are non-empty and different; an accepted match leaves the registry at the settlement of `RecordMatch`, all queues empty and exactly one ledger entry (both names, the label and the date) appended; a refused one changes nothing |
| Ranking.League.Log | glicko.py:375-382 | exactly one entry is appended to the ledger |
| Ranking.League.Rankings | glicko.py:414-460 | one row per entry of `Standing`, each holding that player's statistics |
| Ranking.League.Order | glicko.py:419-440 | the entries after the sort are exactly `Standing` of the registry |
| Ranking.League.Entries | glicko.py:421 | an array of the players in insertion order, each with its key and position |
| Ranking.League.RowsOf | glicko.py:446-460 | one row per listed player, in the same order, each holding that player's statistics |
| Ranking.League.ExportRows | glicko.py:564-590 | one row per player in insertion order, each holding that player's statistics |

## Left out

- The Tkinter widgets, the combobox refresh, message boxes, the match-history window and the rating chart are user interface and are not modelled.
- The Glicko-2 formula of the external `glicko2` library is a function parameter (`Engine`). No property of the rating mathematics is claimed.
- `datetime.now()` is the `date` parameter of `PlayMatch`, and no time format is modelled.
- Floating-point numbers are exact reals. Rounding of the win ratio and win percentage, and the `:.2f` / `:.5f` formatting of the view and of the CSV file, are not modelled.
- Saving and loading the pickle file and writing the CSV file are file I/O. They are modelled only as far as the record's `get_state` / `from_state` and the per-row statistics go. Rebuilding the registry from a loaded dictionary is not modelled, so `League` only ever holds records built by `Register`.
- Ranking.League.PlayMatch: both chosen names must be registered. The source indexes the players dictionary without a membership check. The comboboxes are read-only, but loading a file (glicko.py:521-533) replaces the dictionary and refreshes only their value lists, so a selection made before the load can name a player who is no longer registered. The source then raises `KeyError`; when only the second name is stale, player 1's counter has already been incremented. The model has no load, so in it every selection names a registered player, and this stale-selection `KeyError` with its partial counter update is not modelled.
- Players.Competitor.GetState: the source's state dictionary shares the history list with the record, so a later append shows up in a saved dictionary until it is pickled. The model copies values, so this aliasing is not captured.
- Ranking.League.Rankings: the source catches an exception raised by the sort and then shows nothing. With exact reals and integer counters no key can raise, so this path is not modelled.
- Competitors are never removed or renamed, because the source has no operation that does either.
