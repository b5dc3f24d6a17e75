/**
 * What recording a match and settling the queues do to the registry, as
 * functions over the registry's contents (a map from name to record).
 * These are the specifications the imperative League methods are proved
 * against.
 */
module Settlement {
  import opened Players

  /** The result labels offered by the match form. */
  const FirstWinsLabel: string := "Wygrana Zawodnika 1"
  const DrawLabel: string := "Remis"
  const SecondWinsLabel: string := "Wygrana Zawodnika 2"

  /** A match result seen from one side. */
  datatype Result = Win | Draw | Loss

  function Opposite(r: Result): Result {
    match r
    case Win => Loss
    case Draw => Draw
    case Loss => Win
  }

  /** The score handed to the rating engine. */
  function Score(r: Result): (x: real)
    ensures 0.0 <= x <= 1.0
    ensures x == 0.5 <==> r == Draw
    ensures x == 1.0 <==> r == Win
    ensures x == 0.0 <==> r == Loss
  {
    match r
    case Win => 1.0
    case Draw => 0.5
    case Loss => 0.0
  }

  /** The results of player 1 and player 2 for a result label: the
      first-player-wins label, the draw label, and every other label read as
      a win of player 2.
      The two sides always get opposite results, so their scores add up to 1. */
  function LabelResults(outcome: string): (r: (Result, Result))
    ensures r.1 == Opposite(r.0)
    ensures Score(r.0) + Score(r.1) == 1.0
    ensures r.0 == Win <==> outcome == FirstWinsLabel
    ensures r.0 == Draw <==> outcome == DrawLabel
  {
    if outcome == FirstWinsLabel then (Win, Loss)
    else if outcome == DrawLabel then (Draw, Draw)
    else (Loss, Win)
  }

  /** `q`'s win, loss and draw counters are `p`'s plus `w`, `l` and `d`. */
  predicate Counted(p: PlayerValue, q: PlayerValue, w: nat, l: nat, d: nat) {
    q.wins == p.wins + w && q.losses == p.losses + l && q.draws == p.draws + d
  }

  /** The counter a result increments. */
  function Tally(p: PlayerValue, r: Result): (q: PlayerValue)
    ensures Games(q) == Games(p) + 1
    ensures r == Win ==> Counted(p, q, 1, 0, 0)
    ensures r == Draw ==> Counted(p, q, 0, 0, 1)
    ensures r == Loss ==> Counted(p, q, 0, 1, 0)
    ensures q.name == p.name && q.glicko == p.glicko && q.pending == p.pending && q.history == p.history
  {
    match r
    case Win => p.(wins := p.wins + 1)
    case Draw => p.(draws := p.draws + 1)
    case Loss => p.(losses := p.losses + 1)
  }

  /** The guard of the match handler: both names chosen and different. */
  predicate MatchAllowed(name1: string, name2: string): (r: bool)
    ensures r <==> name1 != [] && name2 != [] && name1 != name2
  {
    name1 != "" && name2 != "" && name1 != name2
  }

  /** Every queued result names a registered opponent. */
  ghost predicate Closed(v: map<string, PlayerValue>) {
    forall n, k :: n in v && 0 <= k < |v[n].pending| ==> v[n].pending[k].opponent in v
  }

  /** Every record's last history entry is its current rating. */
  ghost predicate AllTrack(v: map<string, PlayerValue>) {
    forall n :: n in v ==> HistoryTracksRating(v[n])
  }

  /** A record with an empty queue can be added without opening the registry. */
  lemma ClosedAdd(v: map<string, PlayerValue>, n: string, p: PlayerValue)
    requires Closed(v) && p.pending == []
    ensures Closed(v[n := p])
  {
  }

  /** A record whose history ends with its rating can be added without
      breaking that property of the registry. */
  lemma TrackAdd(v: map<string, PlayerValue>, n: string, p: PlayerValue)
    requires AllTrack(v) && HistoryTracksRating(p)
    ensures AllTrack(v[n := p])
  {
  }

  /** A recorded match before settlement: both counters updated and both
      players queue the score obtained against the other. */
  function RecordMatch(v: map<string, PlayerValue>, name1: string, name2: string, outcome: string): (w: map<string, PlayerValue>)
    requires name1 in v && name2 in v && name1 != name2
    ensures w.Keys == v.Keys
    ensures Closed(v) ==> Closed(w)
    ensures AllTrack(v) ==> AllTrack(w)
    ensures forall n :: n in v && n != name1 && n != name2 ==> w[n] == v[n]
  {
    var (r1, r2) := LabelResults(outcome);
    var p1 := Tally(v[name1], r1);
    var p2 := Tally(v[name2], r2);
    v[name1 := p1.(pending := p1.pending + [Pending(name2, Score(r1))])]
     [name2 := p2.(pending := p2.pending + [Pending(name1, Score(r2))])]
  }

  /** The opponent ratings of a queue, read from the registry as it is now. */
  function OpponentRatings(v: map<string, PlayerValue>, q: seq<Pending>): (r: seq<real>)
    requires forall k :: 0 <= k < |q| ==> q[k].opponent in v
    ensures |r| == |q|
  {
    seq(|q|, k requires 0 <= k < |q| => v[q[k].opponent].glicko.rating)
  }

  /** The opponent RDs of a queue, read from the registry as it is now. */
  function OpponentRds(v: map<string, PlayerValue>, q: seq<Pending>): (r: seq<real>)
    requires forall k :: 0 <= k < |q| ==> q[k].opponent in v
    ensures |r| == |q|
  {
    seq(|q|, k requires 0 <= k < |q| => v[q[k].opponent].glicko.rd)
  }

  /** The scores of a queue. */
  function Outcomes(q: seq<Pending>): (r: seq<real>)
    ensures |r| == |q|
  {
    seq(|q|, k requires 0 <= k < |q| => q[k].score)
  }

  /** Settling one player whose queue is not empty: one engine update, its
      new rating appended to the history, the queue cleared. */
  function Settled(v: map<string, PlayerValue>, p: PlayerValue, engine: Engine): (q: PlayerValue)
    requires forall k :: 0 <= k < |p.pending| ==> p.pending[k].opponent in v
    ensures q.name == p.name && q.wins == p.wins && q.losses == p.losses && q.draws == p.draws
    ensures q.pending == [] && q.history == p.history + [q.glicko.rating]
    ensures HistoryTracksRating(q)
    ensures q.glicko == engine(p.glicko, OpponentRatings(v, p.pending), OpponentRds(v, p.pending), Outcomes(p.pending))
  {
    var g := engine(p.glicko, OpponentRatings(v, p.pending), OpponentRds(v, p.pending), Outcomes(p.pending));
    p.(glicko := g, history := p.history + [g.rating], pending := [])
  }

  /** One step of the settlement loop: the player `n` is settled against
      the registry as it stands, if its queue is not empty. */
  function SettleOne(v: map<string, PlayerValue>, n: string, engine: Engine): (w: map<string, PlayerValue>)
    requires Closed(v)
    ensures w.Keys == v.Keys && Closed(w)
    ensures AllTrack(v) ==> AllTrack(w)
    ensures forall m :: m in v && m != n ==> w[m] == v[m]
  {
    if n in v && v[n].pending != [] then v[n := Settled(v, v[n], engine)] else v
  }

  /** The settlement loop run over `names` in order, each step seeing the
      ratings the earlier steps wrote. */
  function SettleSeq(v: map<string, PlayerValue>, names: seq<string>, engine: Engine): (w: map<string, PlayerValue>)
    requires Closed(v)
    ensures w.Keys == v.Keys && Closed(w)
    decreases |names|
  {
    if names == [] then v
    else SettleOne(SettleSeq(v, names[..|names| - 1], engine), names[|names| - 1], engine)
  }

  /** The settlement loop over a longer prefix of `names` is one more step. */
  lemma SettleSeqStep(v: map<string, PlayerValue>, names: seq<string>, i: nat, engine: Engine)
    requires Closed(v) && i < |names|
    ensures SettleSeq(v, names[..i + 1], engine) == SettleOne(SettleSeq(v, names[..i], engine), names[i], engine)
  {
    assert names[..i + 1][..i] == names[..i];
  }

  /** No name occurs twice. */
  predicate Distinct(names: seq<string>) {
    forall i, j :: 0 <= i < j < |names| ==> names[i] != names[j]
  }

  /** The effect of a settlement on one player: a player named once whose
      queue was not empty gets exactly one update, one history entry equal
      to its new rating and an empty queue, its counters untouched; any
      other player is left exactly as it was. */
  lemma {:induction false} SettleSeqEffect(v: map<string, PlayerValue>, names: seq<string>, engine: Engine, n: string)
    requires Closed(v) && Distinct(names) && n in v
    ensures var w := SettleSeq(v, names, engine);
      if n in names && v[n].pending != [] then
        && w[n].name == v[n].name
        && w[n].wins == v[n].wins && w[n].losses == v[n].losses && w[n].draws == v[n].draws
        && w[n].pending == []
        && w[n].history == v[n].history + [w[n].glicko.rating]
      else
        w[n] == v[n]
    decreases |names|
  {
    if names != [] {
      var init := names[..|names| - 1];
      var last := names[|names| - 1];
      assert Distinct(init);
      SettleSeqEffect(v, init, engine, n);
      if n == last {
        assert n !in init;
      } else {
        assert n in names ==> n in init by {
          if n in names {
            var i :| 0 <= i < |names| && names[i] == n;
            assert i < |names| - 1;
            assert init[i] == n;
          }
        }
      }
    }
  }

  /** After settling every registered name, no queue is left. */
  lemma SettleAllEmptiesQueues(v: map<string, PlayerValue>, names: seq<string>, engine: Engine)
    requires Closed(v) && Distinct(names)
    requires forall n :: n in v ==> n in names
    ensures forall n :: n in SettleSeq(v, names, engine) ==> SettleSeq(v, names, engine)[n].pending == []
  {
    forall n | n in SettleSeq(v, names, engine)
      ensures SettleSeq(v, names, engine)[n].pending == []
    {
      SettleSeqEffect(v, names, engine, n);
    }
  }

  /** Every record keeps its last history entry equal to its rating through
      a settlement. */
  lemma {:induction false} SettleSeqTracksRating(v: map<string, PlayerValue>, names: seq<string>, engine: Engine)
    requires Closed(v) && AllTrack(v)
    ensures AllTrack(SettleSeq(v, names, engine))
    decreases |names|
  {
    if names != [] {
      SettleSeqTracksRating(v, names[..|names| - 1], engine);
    }
  }

  /** Once the loop has passed `names[i]`, the later steps leave that
      record alone. */
  lemma {:induction false} SettleSeqLater(v: map<string, PlayerValue>, names: seq<string>, engine: Engine, i: nat, j: nat)
    requires Closed(v) && Distinct(names) && i < j <= |names| && names[i] in v
    ensures SettleSeq(v, names[..j], engine)[names[i]] == SettleSeq(v, names[..i + 1], engine)[names[i]]
    decreases j
  {
    if j > i + 1 {
      SettleSeqLater(v, names, engine, i, j - 1);
      SettleSeqStep(v, names, j - 1, engine);
      assert names[j - 1] != names[i];
    }
  }

  /** The one engine update the loop gives the player `names[i]` whose queue
      is not empty: its own rating state, and the ratings, RDs and scores of
      its queue read from the registry `u` as the loop reaches it, where
      `u` still holds the player unchanged but every earlier name already
      settled. */
  lemma SettleSeqUpdate(v: map<string, PlayerValue>, names: seq<string>, engine: Engine, i: nat)
    requires Closed(v) && Distinct(names) && i < |names| && names[i] in v && v[names[i]].pending != []
    ensures var n, u := names[i], SettleSeq(v, names[..i], engine);
      && u[n] == v[n]
      && SettleSeq(v, names, engine)[n].glicko
         == engine(v[n].glicko, OpponentRatings(u, v[n].pending), OpponentRds(u, v[n].pending), Outcomes(v[n].pending))
  {
    var n := names[i];
    assert Distinct(names[..i]);
    assert n !in names[..i];
    SettleSeqEffect(v, names[..i], engine, n);
    SettleSeqStep(v, names, i, engine);
    SettleSeqLater(v, names, engine, i, |names|);
    assert names[..|names|] == names;
  }

  /** The counter effect of one recorded match: player 1's result and player
      2's are opposite, their scores add up to 1, each plays one more game
      (two more between them), and the counter incremented is the one the
      outcome names. */
  lemma RecordMatchCounters(v: map<string, PlayerValue>, name1: string, name2: string, outcome: string)
    requires name1 in v && name2 in v && name1 != name2
    ensures var w, (r1, r2) := RecordMatch(v, name1, name2, outcome), LabelResults(outcome);
      && Games(w[name1]) == Games(v[name1]) + 1
      && Games(w[name2]) == Games(v[name2]) + 1
      && Games(w[name1]) + Games(w[name2]) == Games(v[name1]) + Games(v[name2]) + 2
      && w[name1].pending == v[name1].pending + [Pending(name2, Score(r1))]
      && w[name2].pending == v[name2].pending + [Pending(name1, Score(r2))]
      && Score(r1) + Score(r2) == 1.0
      && (outcome == FirstWinsLabel ==>
            Score(r1) == 1.0 && Counted(v[name1], w[name1], 1, 0, 0) && Counted(v[name2], w[name2], 0, 1, 0))
      && (outcome == DrawLabel ==>
            Score(r1) == 0.5 && Counted(v[name1], w[name1], 0, 0, 1) && Counted(v[name2], w[name2], 0, 0, 1))
      && (outcome != FirstWinsLabel && outcome != DrawLabel ==>
            Score(r1) == 0.0 && Counted(v[name1], w[name1], 0, 1, 0) && Counted(v[name2], w[name2], 1, 0, 0))
      && w[name1].name == v[name1].name && w[name1].glicko == v[name1].glicko && w[name1].history == v[name1].history
      && w[name2].name == v[name2].name && w[name2].glicko == v[name2].glicko && w[name2].history == v[name2].history
  {
  }

  /** The whole effect of one accepted match on its two players once the
      settlement loop has run over all registered names: one more game
      each, the new rating appended to each history, empty queues. */
  lemma MatchThenSettle(v: map<string, PlayerValue>, name1: string, name2: string, outcome: string,
                        names: seq<string>, engine: Engine)
    requires name1 in v && name2 in v && name1 != name2 && Closed(v)
    requires Distinct(names) && forall n :: n in v ==> n in names
    ensures var w := SettleSeq(RecordMatch(v, name1, name2, outcome), names, engine);
      && Games(w[name1]) + Games(w[name2]) == Games(v[name1]) + Games(v[name2]) + 2
      && w[name1].history == v[name1].history + [w[name1].glicko.rating]
      && w[name2].history == v[name2].history + [w[name2].glicko.rating]
      && w[name1].pending == [] && w[name2].pending == []
  {
    var u := RecordMatch(v, name1, name2, outcome);
    RecordMatchCounters(v, name1, name2, outcome);
    SettleSeqEffect(u, names, engine, name1);
    SettleSeqEffect(u, names, engine, name2);
  }

  /** A queue of one result against `x` reads `x`'s rating and RD. */
  lemma SingleQueue(u: map<string, PlayerValue>, x: string, score: real)
    requires x in u
    ensures OpponentRatings(u, [Pending(x, score)]) == [u[x].glicko.rating]
    ensures OpponentRds(u, [Pending(x, score)]) == [u[x].glicko.rd]
    ensures Outcomes([Pending(x, score)]) == [score]
  {
  }

  /** The loop reads opponents live: when `a` is settled before `b` and
      each has the other as sole queued opponent, `a` is updated against
      `b`'s rating and RD as they were, and `b` against the NEW rating and
      RD the loop just gave `a`, not those `a` had when the match was
      played. */
  lemma LiveOpponentRead(v: map<string, PlayerValue>, names: seq<string>, i: nat, j: nat,
                         sa: real, sb: real, engine: Engine)
    requires Closed(v) && Distinct(names) && i < j < |names|
    requires names[i] in v && names[j] in v
    requires v[names[i]].pending == [Pending(names[j], sa)] && v[names[j]].pending == [Pending(names[i], sb)]
    ensures var a, b, w := names[i], names[j], SettleSeq(v, names, engine);
      && w[a].glicko == engine(v[a].glicko, [v[b].glicko.rating], [v[b].glicko.rd], [sa])
      && w[b].glicko == engine(v[b].glicko, [w[a].glicko.rating], [w[a].glicko.rd], [sb])
  {
    var a, b, w := names[i], names[j], SettleSeq(v, names, engine);
    var ua := SettleSeq(v, names[..i], engine);
    assert ua[b] == v[b] by {
      assert Distinct(names[..i]) && b !in names[..i];
      SettleSeqEffect(v, names[..i], engine, b);
    }
    SettleSeqUpdate(v, names, engine, i);
    SingleQueue(ua, b, sa);
    var ub := SettleSeq(v, names[..j], engine);
    assert ub[a] == w[a] by {
      SettleSeqLater(v, names, engine, i, j);
      SettleSeqLater(v, names, engine, i, |names|);
      assert names[..|names|] == names;
    }
    SettleSeqUpdate(v, names, engine, j);
    SingleQueue(ub, a, sb);
  }
}
