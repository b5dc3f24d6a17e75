/**
 * The player record (`Zawodnik`): a name, the Glicko-2 rating state held by
 * the rating library, the queue of results waiting for the next rating
 * update, win/loss/draw counters and the history of ratings after each
 * update; and the state dictionary used to save and restore it.
 */
module Players {

  datatype Option<T> = None | Some(value: T)

  /** The rating state of the Glicko-2 library's player object. */
  datatype Glicko = Glicko(rating: real, rd: real, vol: real)

  /** The library's defaults for a new player: rating 1500, RD 350, volatility 0.06. */
  const DefaultRating: real := 1500.0
  const DefaultRd: real := 350.0
  const DefaultVol: real := 0.06

  /** The Glicko-2 update of the rating library, outside this model: given a
      player's state and the lists of opponent ratings, opponent RDs and
      outcomes of one rating period, the player's new state. */
  type Engine = (Glicko, seq<real>, seq<real>, seq<real>) -> Glicko

  /** One queued result: who the opponent is and the score obtained against
      them. The opponent is named, not copied: the rating it stands for is
      read when the queue is settled. */
  datatype Pending = Pending(opponent: string, score: real)

  /** Everything a player record holds, as a value. */
  datatype PlayerValue = PlayerValue(
    name: string,
    glicko: Glicko,
    pending: seq<Pending>,
    wins: nat,
    losses: nat,
    draws: nat,
    history: seq<real>)

  /** Number of games played. */
  function Games(p: PlayerValue): nat {
    p.wins + p.losses + p.draws
  }

  /** The last entry of the rating history is the current rating. */
  predicate HistoryTracksRating(p: PlayerValue) {
    p.history != [] && p.history[|p.history| - 1] == p.glicko.rating
  }

  /** A freshly constructed record, with optional rating/RD/volatility
      overrides (absent ones take the library's defaults). */
  function Initial(name: string, rating: Option<real>, rd: Option<real>, vol: Option<real>): (p: PlayerValue)
    ensures p.name == name && p.pending == []
    ensures p.wins == 0 && p.losses == 0 && p.draws == 0
    ensures p.history == [p.glicko.rating]
    ensures HistoryTracksRating(p)
    ensures rating.None? ==> p.glicko.rating == DefaultRating
    ensures rating.Some? ==> p.glicko.rating == rating.value
    ensures rd.None? ==> p.glicko.rd == DefaultRd
    ensures rd.Some? ==> p.glicko.rd == rd.value
    ensures vol.None? ==> p.glicko.vol == DefaultVol
    ensures vol.Some? ==> p.glicko.vol == vol.value
  {
    var g := Glicko(
      if rating.Some? then rating.value else DefaultRating,
      if rd.Some? then rd.value else DefaultRd,
      if vol.Some? then vol.value else DefaultVol);
    PlayerValue(name, g, [], 0, 0, 0, [g.rating])
  }

  /** The saved state dictionary. The counters and the history are optional
      keys: a dictionary saved by an older version may lack them. */
  datatype PlayerState = PlayerState(
    name: string,
    rating: real,
    rd: real,
    vol: real,
    wins: Option<nat>,
    losses: Option<nat>,
    draws: Option<nat>,
    history: Option<seq<real>>)

  /** `get_state`: every key is written; the pending queue is not. */
  function StateOf(p: PlayerValue): (s: PlayerState)
    ensures s.name == p.name && s.rating == p.glicko.rating && s.rd == p.glicko.rd && s.vol == p.glicko.vol
    ensures s.wins == Some(p.wins) && s.losses == Some(p.losses) && s.draws == Some(p.draws)
    ensures s.history == Some(p.history)
  {
    PlayerState(p.name, p.glicko.rating, p.glicko.rd, p.glicko.vol,
                Some(p.wins), Some(p.losses), Some(p.draws), Some(p.history))
  }

  /** `from_state`: a record built with the saved rating, RD and volatility,
      whose counters default to 0 and whose history defaults to the saved
      rating alone; the pending queue starts empty. */
  function Restore(s: PlayerState): (p: PlayerValue)
    ensures p.name == s.name && p.glicko == Glicko(s.rating, s.rd, s.vol) && p.pending == []
    ensures p.wins == (if s.wins.Some? then s.wins.value else 0)
    ensures p.losses == (if s.losses.Some? then s.losses.value else 0)
    ensures p.draws == (if s.draws.Some? then s.draws.value else 0)
    ensures p.history == (if s.history.Some? then s.history.value else [s.rating])
    ensures s.history.None? ==> HistoryTracksRating(p)
  {
    var p := Initial(s.name, Some(s.rating), Some(s.rd), Some(s.vol));
    p.(wins := if s.wins.Some? then s.wins.value else 0,
       losses := if s.losses.Some? then s.losses.value else 0,
       draws := if s.draws.Some? then s.draws.value else 0,
       history := if s.history.Some? then s.history.value else [s.rating])
  }

  /** Saving and restoring a record gives back everything but the pending
      queue, which comes back empty. */
  lemma RestoreStateOf(p: PlayerValue)
    ensures Restore(StateOf(p)) == p.(pending := [])
    ensures HistoryTracksRating(p) ==> HistoryTracksRating(Restore(StateOf(p)))
  {
  }

  /** A player record whose fields the application updates in place. */
  class Competitor {
    const name: string
    var glicko: Glicko
    var pending: seq<Pending>
    var wins: nat
    var losses: nat
    var draws: nat
    var history: seq<real>

    /** The record's current contents. */
    function Value(): PlayerValue
      reads this
    {
      PlayerValue(name, glicko, pending, wins, losses, draws, history)
    }

    /** `Zawodnik(nazwa, rating, rd, vol)`. */
    constructor (name: string, rating: Option<real>, rd: Option<real>, vol: Option<real>)
      ensures Value() == Initial(name, rating, rd, vol)
    {
      var p := Initial(name, rating, rd, vol);
      this.name := name;
      glicko := p.glicko;
      pending := [];
      wins, losses, draws := 0, 0, 0;
      history := p.history;
    }

    /** `Zawodnik.from_state(state)`. */
    constructor FromState(s: PlayerState)
      ensures Value() == Restore(s)
    {
      var p := Restore(s);
      name := p.name;
      glicko := p.glicko;
      pending := [];
      wins, losses, draws := p.wins, p.losses, p.draws;
      history := p.history;
    }

    /** `dodaj_mecz`: queue the score obtained against `opponent`. */
    method AddMatch(opponent: Competitor, score: real)
      modifies this`pending
      ensures pending == old(pending) + [Pending(opponent.name, score)]
    {
      pending := pending + [Pending(opponent.name, score)];
    }

    /** The end of one pass of the settlement loop: the library player takes
        its new state `g`, the new rating is appended to the history and the
        queue is cleared. */
    method ApplyUpdate(g: Glicko)
      modifies this`glicko, this`history, this`pending
      ensures Value() == old(Value()).(glicko := g, history := old(history) + [g.rating], pending := [])
    {
      glicko := g;
      history := history + [glicko.rating];
      pending := [];
    }

    /** `get_state`: restoring what it returns gives back this record with
        an empty queue. */
    function GetState(): (s: PlayerState)
      reads this
      ensures Restore(s) == Value().(pending := [])
    {
      RestoreStateOf(Value());
      StateOf(Value())
    }
  }
}
