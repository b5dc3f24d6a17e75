/**
 * The standings table: the sort keys offered by the ranking view, the
 * stable descending sort applied to the players in registration order, and
 * the per-player statistics shown beside them.
 */
module Standings {
  import opened Players

  /** The sort options of the ranking view. */
  const ByRating: string := "Rating"
  const ByWinRatio: string := "Procent wygranych"
  const ByGames: string := "Liczba mecz\U{F3}w"

  predicate IsSortOption(option: string) {
    option == ByRating || option == ByWinRatio || option == ByGames
  }

  /** Wins over games, 0 for a player without games. */
  function WinRatio(p: PlayerValue): (r: real)
    ensures 0.0 <= r <= 1.0
    ensures Games(p) == 0 ==> r == 0.0
    ensures Games(p) > 0 ==> r * (Games(p) as real) == p.wins as real
  {
    if Games(p) > 0 then p.wins as real / Games(p) as real else 0.0
  }

  /** The displayed win percentage, `wins / games * 100`, 0 without games. */
  function WinPercent(p: PlayerValue): (r: real)
    ensures 0.0 <= r <= 100.0
    ensures Games(p) == 0 ==> r == 0.0
    ensures Games(p) > 0 ==> r * (Games(p) as real) == 100.0 * (p.wins as real)
    ensures Games(p) > 0 && p.wins == Games(p) ==> r == 100.0
  {
    if Games(p) > 0 then (p.wins as real / Games(p) as real) * 100.0 else 0.0
  }

  /** The key the chosen option sorts by (only used for a known option). */
  function SortKey(option: string, p: PlayerValue): (r: real)
    ensures option == ByRating ==> r == p.glicko.rating
    ensures option == ByWinRatio ==> r == WinRatio(p)
    ensures option == ByWinRatio ==> 0.0 <= r <= 1.0 && (Games(p) == 0 ==> r == 0.0)
    ensures option == ByGames ==> r == Games(p) as real
  {
    if option == ByRating then p.glicko.rating
    else if option == ByWinRatio then WinRatio(p)
    else Games(p) as real
  }

  /** A player to be ranked: its name, its precomputed sort key and its
      position in registration order. */
  datatype Entry = Entry(name: string, key: real, pos: nat)

  /** `a` comes before `b` in a stable descending sort: a larger key, or an
      equal key and an earlier original position. */
  predicate Precedes(a: Entry, b: Entry) {
    a.key > b.key || (a.key == b.key && a.pos < b.pos)
  }

  predicate Ordered(s: seq<Entry>) {
    forall i, j :: 0 <= i < j < |s| ==> Precedes(s[i], s[j])
  }

  /** Original positions strictly increase, as they do in registration order. */
  predicate PositionsIncrease(s: seq<Entry>) {
    forall i, j :: 0 <= i < j < |s| ==> s[i].pos < s[j].pos
  }

  /** `x` inserted into `s` after every entry whose key is not smaller. */
  function Insert(s: seq<Entry>, x: Entry): (r: seq<Entry>)
    ensures |r| == |s| + 1
    decreases |s|
  {
    if s == [] || !(s[|s| - 1].key < x.key) then s + [x]
    else Insert(s[..|s| - 1], x) + [s[|s| - 1]]
  }

  /** A stable sort by descending key: each entry in turn inserted into the
      sorted prefix. */
  function SortDescending(s: seq<Entry>): (r: seq<Entry>)
    ensures |r| == |s|
    decreases |s|
  {
    if s == [] then [] else Insert(SortDescending(s[..|s| - 1]), s[|s| - 1])
  }

  lemma {:induction false} InsertPermutes(s: seq<Entry>, x: Entry)
    ensures multiset(Insert(s, x)) == multiset(s) + multiset{x}
    decreases |s|
  {
    if s != [] && s[|s| - 1].key < x.key {
      var init := s[..|s| - 1];
      InsertPermutes(init, x);
      assert s == init + [s[|s| - 1]];
    }
  }

  /** The sort returns a permutation of its input. */
  lemma {:induction false} SortPermutes(s: seq<Entry>)
    ensures multiset(SortDescending(s)) == multiset(s)
    decreases |s|
  {
    if s != [] {
      var init, x := s[..|s| - 1], s[|s| - 1];
      assert SortDescending(s) == Insert(SortDescending(init), x);
      SortPermutes(init);
      InsertPermutes(SortDescending(init), x);
      assert s == init + [x];
    }
  }

  lemma {:induction false} InsertOrdered(s: seq<Entry>, x: Entry)
    requires Ordered(s)
    requires forall k :: 0 <= k < |s| ==> s[k].pos < x.pos
    ensures Ordered(Insert(s, x))
    decreases |s|
  {
    if s != [] && s[|s| - 1].key < x.key {
      var init := s[..|s| - 1];
      var last := s[|s| - 1];
      InsertOrdered(init, x);
      var r := Insert(init, x);
      InsertPermutes(init, x);
      forall i | 0 <= i < |r| ensures Precedes(r[i], last) {
        assert r[i] in multiset(r);
        if r[i] != x {
          assert r[i] in multiset(init);
          var k :| 0 <= k < |init| && init[k] == r[i];
          assert Precedes(s[k], s[|s| - 1]);
        }
      }
    }
  }

  /** The sort is stable and descending: given entries in their original
      order, the result lists larger keys first, and entries with equal keys
      in their original order. */
  lemma {:induction false} SortOrdered(s: seq<Entry>)
    requires PositionsIncrease(s)
    ensures Ordered(SortDescending(s))
    decreases |s|
  {
    if s != [] {
      var init := s[..|s| - 1];
      var x := s[|s| - 1];
      SortOrdered(init);
      var sorted := SortDescending(init);
      SortPermutes(init);
      forall k | 0 <= k < |sorted| ensures sorted[k].pos < x.pos {
        assert sorted[k] in multiset(init);
        var i :| 0 <= i < |init| && init[i] == sorted[k];
      }
      InsertOrdered(sorted, x);
    }
  }

  /** Two orderings of the same entries start with the same entry. */
  lemma OrderedHeads(a: seq<Entry>, b: seq<Entry>)
    requires Ordered(a) && Ordered(b) && multiset(a) == multiset(b) && a != []
    ensures b != [] && a[0] == b[0]
  {
    assert a[0] in multiset(b);
    var i :| 0 <= i < |b| && b[i] == a[0];
    assert b[0] in multiset(a);
    var j :| 0 <= j < |a| && a[j] == b[0];
    if i != 0 && j != 0 {
      assert false;
    }
  }

  /** An ordered sequence is the one the sort returns: two orderings of the
      same entries with distinct positions are equal. */
  lemma {:induction false} OrderedUnique(a: seq<Entry>, b: seq<Entry>)
    requires Ordered(a) && Ordered(b) && multiset(a) == multiset(b)
    ensures a == b
    decreases |a|
  {
    if a != [] {
      OrderedHeads(a, b);
      DropHead(a);
      DropHead(b);
      OrderedUnique(a[1..], b[1..]);
      assert a == [a[0]] + a[1..] && b == [b[0]] + b[1..];
    } else {
      assert |b| == |multiset(b)| == 0;
    }
  }

  /** Dropping the first entry of an ordering leaves an ordering of the
      remaining entries. */
  lemma DropHead(s: seq<Entry>)
    requires Ordered(s) && s != []
    ensures Ordered(s[1..]) && multiset(s[1..]) == multiset(s) - multiset{s[0]}
  {
    assert s == [s[0]] + s[1..];
    assert multiset(s) == multiset{s[0]} + multiset(s[1..]);
  }

  /** The players of `order`, in that order, each with its key. */
  function Tagged(option: string, v: map<string, PlayerValue>, order: seq<string>): (r: seq<Entry>)
    requires forall i :: 0 <= i < |order| ==> order[i] in v
    ensures |r| == |order| && PositionsIncrease(r)
    ensures forall i :: 0 <= i < |r| ==> r[i] == Entry(order[i], SortKey(option, v[order[i]]), i)
  {
    seq(|order|, i requires 0 <= i < |order| => Entry(order[i], SortKey(option, v[order[i]]), i))
  }

  /** The ranking order of the view: sorted when the option is known, the
      registration order otherwise. */
  function Standing(option: string, v: map<string, PlayerValue>, order: seq<string>): (r: seq<Entry>)
    requires forall i :: 0 <= i < |order| ==> order[i] in v
    ensures |r| == |order|
    ensures multiset(r) == multiset(Tagged(option, v, order))
    ensures forall i :: 0 <= i < |r| ==> r[i].pos < |order| && r[i].name == order[r[i].pos]
  {
    var t := Tagged(option, v, order);
    if IsSortOption(option) then
      SortPermutes(t);
      var r := SortDescending(t);
      assert forall i :: 0 <= i < |r| ==> r[i] in multiset(t);
      r
    else t
  }

  /** What the standing promises: a rearrangement of the registered players
      in which, for a known option, keys never increase and players with
      equal keys keep their registration order; for an unknown option, the
      registration order itself. */
  lemma StandingProperties(option: string, v: map<string, PlayerValue>, order: seq<string>)
    requires forall i :: 0 <= i < |order| ==> order[i] in v
    ensures var r := Standing(option, v, order);
      && (forall i :: 0 <= i < |r| ==> r[i].key == SortKey(option, v[r[i].name]))
      && (IsSortOption(option) ==> forall i, j :: 0 <= i < j < |r| ==>
            r[i].key >= r[j].key && (r[i].key == r[j].key ==> r[i].pos < r[j].pos))
      && (!IsSortOption(option) ==> forall i :: 0 <= i < |r| ==> r[i].name == order[i])
  {
    var t := Tagged(option, v, order);
    var r := Standing(option, v, order);
    if IsSortOption(option) {
      SortPermutes(t);
      SortOrdered(t);
      forall i | 0 <= i < |r| ensures r[i].key == SortKey(option, v[r[i].name]) {
        assert r[i] in multiset(t);
        var k :| 0 <= k < |t| && t[k] == r[i];
      }
    }
  }

  /** Where `Insert` puts `x`: after the first `j` entries, when every entry
      from `j` on has a smaller key and the entry before `j` (if any) does not. */
  lemma {:induction false} InsertSplit(p: seq<Entry>, j: nat, x: Entry)
    requires j <= |p|
    requires forall k :: j <= k < |p| ==> p[k].key < x.key
    requires j == 0 || !(p[j - 1].key < x.key)
    ensures Insert(p, x) == p[..j] + [x] + p[j..]
    decreases |p|
  {
    if |p| == j {
      assert p[..j] == p && p[j..] == [];
    } else {
      var init := p[..|p| - 1];
      InsertSplit(init, j, x);
      assert init[..j] == p[..j];
      assert init[j..] + [p[|p| - 1]] == p[j..];
    }
  }

  /** Moves `a[i]` left past the entries of the sorted prefix `a[..i]` whose
      key is smaller, as one pass of the in-place sort. */
  method InsertAt(a: array<Entry>, i: nat)
    requires i < a.Length
    modifies a
    ensures a[..i + 1] == Insert(old(a[..i]), old(a[i]))
    ensures a[i + 1..] == old(a[i + 1..])
  {
    ghost var prefix := a[..i];
    var x := a[i];
    var j := i;
    while j > 0 && a[j - 1].key < x.key
      invariant 0 <= j <= i
      invariant forall k :: 0 <= k < j ==> a[k] == prefix[k]
      invariant forall k :: j < k <= i ==> a[k] == prefix[k - 1]
      invariant forall k :: i < k < a.Length ==> a[k] == old(a[k])
      invariant forall k :: j <= k < i ==> prefix[k].key < x.key
    {
      a[j] := a[j - 1];
      j := j - 1;
    }
    a[j] := x;
    InsertSplit(prefix, j, x);
    Placed(prefix, a[..i + 1], j, x);
    assert a[i + 1..] == old(a[i + 1..]);
  }

  /** A sequence that agrees with `p` before `j`, holds `x` at `j` and the
      rest of `p` after it is `p` with `x` inserted at `j`. */
  lemma Placed(p: seq<Entry>, q: seq<Entry>, j: nat, x: Entry)
    requires j <= |p| && |q| == |p| + 1
    requires forall k :: 0 <= k < j ==> q[k] == p[k]
    requires q[j] == x
    requires forall k :: j < k < |q| ==> q[k] == p[k - 1]
    ensures q == p[..j] + [x] + p[j..]
  {
  }

  /** The in-place sort of the ranking view (`list.sort(key=..., reverse=True)`,
      which computes each key once and is stable). */
  method SortInPlace(a: array<Entry>)
    modifies a
    ensures a[..] == SortDescending(old(a[..]))
  {
    ghost var orig := a[..];
    var i := 0;
    while i < a.Length
      invariant 0 <= i <= a.Length
      invariant a[..i] == SortDescending(orig[..i])
      invariant a[i..] == orig[i..]
    {
      InsertAt(a, i);
      assert orig[..i + 1][..i] == orig[..i];
      i := i + 1;
    }
    assert a[..] == a[..a.Length] && orig == orig[..a.Length];
  }

  /** One line of the ranking view or of the exported table. */
  datatype Row = Row(name: string, rating: real, rd: real, vol: real,
                     games: nat, wins: nat, losses: nat, draws: nat, winPercent: real)

  function RowOf(p: PlayerValue): (r: Row)
    ensures r.name == p.name
    ensures r.rating == p.glicko.rating && r.rd == p.glicko.rd && r.vol == p.glicko.vol
    ensures r.wins == p.wins && r.losses == p.losses && r.draws == p.draws
    ensures r.winPercent == WinPercent(p)
    ensures r.games == r.wins + r.losses + r.draws
    ensures r.games == 0 ==> r.winPercent == 0.0
    ensures 0.0 <= r.winPercent <= 100.0
    ensures r.games > 0 ==> r.winPercent * (r.games as real) == 100.0 * (r.wins as real)
  {
    Row(p.name, p.glicko.rating, p.glicko.rd, p.glicko.vol,
        Games(p), p.wins, p.losses, p.draws, WinPercent(p))
  }
}
