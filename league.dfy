/**
 * The application state (`Aplikacja`) without its widgets: the dictionary
 * of players keyed by name, kept in insertion order, and the match ledger;
 * with the registration handler, the match handler, the settlement loop
 * and the ranking view's ordering.
 */
module Ranking {
  import opened Names
  import opened Players
  import opened Settlement
  import opened Standings

  /** One entry of the match ledger. */
  datatype MatchRecord = MatchRecord(date: string, player1: string, player2: string, outcome: string)

  /** `order` lists every key of the registry once, and nothing else. */
  predicate Enumerates(order: seq<string>, keys: set<string>) {
    && (forall i :: 0 <= i < |order| ==> order[i] in keys)
    && (forall n :: n in keys ==> n in order)
    && Distinct(order)
  }

  lemma EnumeratesAppend(order: seq<string>, keys: set<string>, n: string)
    requires Enumerates(order, keys) && n !in keys
    ensures Enumerates(order + [n], keys + {n})
  {
  }

  class League {
    /** The players dictionary; `order` lists its keys in insertion order. */
    var players: map<string, Competitor>
    var order: seq<string>
    /** The match ledger, oldest first. */
    var ledger: seq<MatchRecord>
    /** The registry's contents, by name. */
    ghost var view: map<string, PlayerValue>

    /** Every record is stored under its own name (so distinct keys hold
        distinct records) and holds what `view` says; `order` enumerates the
        keys; every queued result names a registered opponent; every
        history ends with its player's current rating. */
    ghost predicate Valid()
      reads this, players.Values
    {
      && players.Keys == view.Keys
      && (forall n :: n in players ==> players[n].name == n && players[n].Value() == view[n])
      && Enumerates(order, view.Keys)
      && Closed(view)
      && AllTrack(view)
    }

    constructor ()
      ensures Valid() && view == map[] && order == [] && ledger == []
    {
      players := map[];
      order := [];
      ledger := [];
      view := map[];
    }

    /** The registration handler: the typed-in text is stripped and checked;
        an accepted name gets a new default record at the end of the
        insertion order, and a rejected one changes nothing. */
    method Register(input: string) returns (r: Registration)
      requires Valid()
      modifies this
      ensures Valid() && ledger == old(ledger)
      ensures r == Admit(input, old(view).Keys)
      ensures r.Added? ==> order == old(order) + [r.name]
      ensures r.Added? ==> view == old(view)[r.name := Initial(r.name, None, None, None)]
      ensures !r.Added? ==> players == old(players) && order == old(order) && view == old(view)
    {
      r := Admit(input, players.Keys);
      if r.Added? {
        Add(r.name);
      }
    }

    /** A new default record stored under `name`, at the end of the
        insertion order. */
    method Add(name: string)
      requires Valid() && name !in players
      modifies this
      ensures Valid() && ledger == old(ledger)
      ensures order == old(order) + [name]
      ensures view == old(view)[name := Initial(name, None, None, None)]
    {
      var c := new Competitor(name, None, None, None);
      ghost var p := c.Value();
      EnumeratesAppend(order, view.Keys, name);
      ClosedAdd(view, name, p);
      TrackAdd(view, name, p);
      players := players[name := c];
      order := order + [name];
      view := view[name := p];
      forall m | m in players
        ensures players[m].name == m && players[m].Value() == view[m]
      {
        if m != name {
          assert players[m] == old(players)[m];
        }
      }
    }

    /** The inner loop of the settlement: the opponent ratings, opponent RDs
        and scores of a queue, each rating and RD read from the opponent's
        record as it is now. */
    method CollectGames(q: seq<Pending>) returns (ratings: seq<real>, rds: seq<real>, outcomes: seq<real>)
      requires Valid()
      requires forall k :: 0 <= k < |q| ==> q[k].opponent in players
      ensures ratings == OpponentRatings(view, q)
      ensures rds == OpponentRds(view, q)
      ensures outcomes == Outcomes(q)
    {
      ratings, rds, outcomes := [], [], [];
      var k := 0;
      while k < |q|
        invariant 0 <= k <= |q|
        invariant |ratings| == k && |rds| == k && |outcomes| == k
        invariant forall m :: 0 <= m < k ==> ratings[m] == view[q[m].opponent].glicko.rating
        invariant forall m :: 0 <= m < k ==> rds[m] == view[q[m].opponent].glicko.rd
        invariant forall m :: 0 <= m < k ==> outcomes[m] == q[m].score
      {
        var opponent := players[q[k].opponent];
        ratings := ratings + [opponent.glicko.rating];
        rds := rds + [opponent.glicko.rd];
        outcomes := outcomes + [q[k].score];
        k := k + 1;
      }
    }

    /** One pass of the settlement loop, for the player stored under `n`. */
    method SettlePlayer(n: string, engine: Engine)
      requires Valid() && n in players
      modifies players[n], this`view
      ensures Valid() && players == old(players) && order == old(order) && ledger == old(ledger)
      ensures view == SettleOne(old(view), n, engine)
    {
      var c := players[n];
      if c.pending != [] {
        ghost var settled := Settled(view, view[n], engine);
        var ratings, rds, outcomes := CollectGames(c.pending);
        c.ApplyUpdate(engine(c.glicko, ratings, rds, outcomes));
        assert c.Value() == settled;
        view := view[n := settled];
        forall m | m in players
          ensures players[m].Value() == view[m]
        {
          if m != n {
            assert players[m] != c;
          }
        }
      }
    }

    /** The settlement (`aktualizuj_rankingi`): every player, in insertion
        order, whose queue is not empty is updated by the engine against the
        current ratings of its opponents, gets its new rating appended to
        its history and its queue cleared. */
    method Settle(engine: Engine)
      requires Valid()
      modifies players.Values, this`view
      ensures Valid() && players == old(players) && order == old(order) && ledger == old(ledger)
      ensures view == SettleSeq(old(view), order, engine)
      ensures forall n :: n in view ==> view[n].pending == []
    {
      ghost var start := view;
      var i := 0;
      while i < |order|
        invariant 0 <= i <= |order|
        invariant Valid() && players == old(players) && order == old(order) && ledger == old(ledger)
        invariant Closed(start) && Enumerates(order, start.Keys)
        invariant view == SettleSeq(start, order[..i], engine)
      {
        SettlePlayer(order[i], engine);
        SettleSeqStep(start, order, i, engine);
        i := i + 1;
      }
      assert order[..|order|] == order;
      SettleAllEmptiesQueues(start, order, engine);
    }

    /** The counter block of the match handler: the label decides the two
        scores and which counter of each player moves. */
    method CountResult(c1: Competitor, c2: Competitor, outcome: string) returns (score1: real, score2: real)
      requires c1 != c2
      modifies c1`wins, c1`losses, c1`draws, c2`wins, c2`losses, c2`draws
      ensures c1.Value() == Tally(old(c1.Value()), LabelResults(outcome).0)
      ensures c2.Value() == Tally(old(c2.Value()), LabelResults(outcome).1)
      ensures score1 == Score(LabelResults(outcome).0) && score2 == Score(LabelResults(outcome).1)
    {
      if outcome == FirstWinsLabel {
        score1, score2 := 1.0, 0.0;
        c1.wins := c1.wins + 1;
        c2.losses := c2.losses + 1;
      } else if outcome == DrawLabel {
        score1, score2 := 0.5, 0.5;
        c1.draws := c1.draws + 1;
        c2.draws := c2.draws + 1;
      } else {
        score1, score2 := 0.0, 1.0;
        c1.losses := c1.losses + 1;
        c2.wins := c2.wins + 1;
      }
    }

    /** The counter block followed by the two `dodaj_mecz` calls: each
        player queues the score it obtained against the other. */
    method RecordPair(c1: Competitor, c2: Competitor, outcome: string)
      requires c1 != c2
      modifies c1`wins, c1`losses, c1`draws, c1`pending, c2`wins, c2`losses, c2`draws, c2`pending
      ensures var (r1, r2) := LabelResults(outcome);
        && c1.Value() == Tally(old(c1.Value()), r1).(pending := old(c1.pending) + [Pending(c2.name, Score(r1))])
        && c2.Value() == Tally(old(c2.Value()), r2).(pending := old(c2.pending) + [Pending(c1.name, Score(r2))])
    {
      var score1, score2 := CountResult(c1, c2, outcome);
      c1.AddMatch(c2, score1);
      c2.AddMatch(c1, score2);
    }

    /** The bookkeeping of an accepted match before settlement: the counters
        move as the label says and each player queues its score against the
        other. */
    method Record(name1: string, name2: string, outcome: string)
      requires Valid() && name1 in players && name2 in players && name1 != name2
      modifies players[name1], players[name2], this`view
      ensures Valid() && players == old(players) && order == old(order) && ledger == old(ledger)
      ensures view == RecordMatch(old(view), name1, name2, outcome)
    {
      var c1 := players[name1];
      var c2 := players[name2];
      assert c1 != c2 by { assert c1.name == name1 && c2.name == name2; }
      ghost var recorded := RecordMatch(view, name1, name2, outcome);
      assert Closed(recorded) && AllTrack(recorded);
      RecordPair(c1, c2, outcome);
      assert c1.Value() == recorded[name1] && c2.Value() == recorded[name2];
      view := recorded;
      forall m | m in players
        ensures players[m].Value() == view[m]
      {
        if m != name1 && m != name2 {
          assert players[m] != c1 && players[m] != c2;
        }
      }
    }

    /** The match handler (`rozegrac_mecz_gui`): unless both names are
        chosen and different, nothing changes; otherwise the counters move
        as the label says, both players queue their score against the other,
        the settlement runs, and one ledger entry is appended. */
    method PlayMatch(name1: string, name2: string, outcome: string, date: string, engine: Engine)
      returns (accepted: bool)
      requires Valid()
      requires MatchAllowed(name1, name2) ==> name1 in players && name2 in players
      modifies this, players.Values
      ensures Valid() && players == old(players) && order == old(order)
      ensures accepted == MatchAllowed(name1, name2)
      ensures accepted ==> view == SettleSeq(RecordMatch(old(view), name1, name2, outcome), order, engine)
      ensures accepted ==> ledger == old(ledger) + [MatchRecord(date, name1, name2, outcome)]
      ensures accepted ==> forall n :: n in view ==> view[n].pending == []
      ensures !accepted ==> view == old(view) && ledger == old(ledger)
    {
      if name1 != "" && name2 != "" && name1 != name2 {
        Record(name1, name2, outcome);
        Settle(engine);
        Log(MatchRecord(date, name1, name2, outcome));
        accepted := true;
      } else {
        accepted := false;
      }
    }

    /** Appends one entry to the match ledger. */
    method Log(entry: MatchRecord)
      requires Valid()
      modifies this`ledger
      ensures Valid() && ledger == old(ledger) + [entry]
    {
      ledger := ledger + [entry];
    }

    /** The ordering of the ranking view (`pokaz_rankingi`): the players in
        insertion order, sorted by the chosen option when it is one of the
        three known ones, each shown with its statistics. */
    method Rankings(option: string) returns (rows: seq<Row>)
      requires Valid()
      ensures var s := Standing(option, view, order);
        |rows| == |s| && forall i :: 0 <= i < |rows| ==> rows[i] == RowOf(view[s[i].name])
    {
      var s := Order(option);
      assert forall i :: 0 <= i < |s| ==> s[i].name in view;
      rows := RowsOf(s);
    }

    /** The entries of the ranking view, sorted in place when the option is
        one of the known ones. */
    method Order(option: string) returns (s: seq<Entry>)
      requires Valid()
      ensures s == Standing(option, view, order)
    {
      var a := Entries(option);
      if IsSortOption(option) {
        SortInPlace(a);
      }
      s := a[..];
    }

    /** The players in insertion order, each with its key and position. */
    method Entries(option: string) returns (a: array<Entry>)
      requires Valid()
      ensures fresh(a) && a[..] == Tagged(option, view, order)
    {
      a := new Entry[|order|];
      var i := 0;
      while i < |order|
        invariant 0 <= i <= |order|
        invariant forall k :: 0 <= k < i ==> a[k] == Entry(order[k], SortKey(option, view[order[k]]), k)
      {
        a[i] := Entry(order[i], SortKey(option, players[order[i]].Value()), i);
        i := i + 1;
      }
    }

    /** The displayed rows of the players listed in `s`, in that order. */
    method RowsOf(s: seq<Entry>) returns (rows: seq<Row>)
      requires Valid()
      requires forall i :: 0 <= i < |s| ==> s[i].name in view
      ensures |rows| == |s|
      ensures forall i :: 0 <= i < |rows| ==> rows[i] == RowOf(view[s[i].name])
    {
      rows := [];
      var i := 0;
      while i < |s|
        invariant 0 <= i <= |s|
        invariant |rows| == i
        invariant forall k :: 0 <= k < i ==> rows[k] == RowOf(view[s[k].name])
      {
        rows := rows + [RowOf(players[s[i].name].Value())];
        i := i + 1;
      }
    }

    /** The rows of the exported table, one per player in insertion order. */
    method ExportRows() returns (rows: seq<Row>)
      requires Valid()
      ensures |rows| == |order|
      ensures forall i :: 0 <= i < |rows| ==> rows[i] == RowOf(view[order[i]])
    {
      rows := [];
      var i := 0;
      while i < |order|
        invariant 0 <= i <= |order|
        invariant |rows| == i
        invariant forall k :: 0 <= k < i ==> rows[k] == RowOf(view[order[k]])
      {
        rows := rows + [RowOf(players[order[i]].Value())];
        i := i + 1;
      }
    }
  }
}
