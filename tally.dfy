/**
 * Resolving a poll in the voting game (server.js, submit-answer): the
 * votes are counted per voted value, each count is paired with the player
 * of that id, and the pairs are ordered by count.
 */
module Tally {
  import opened Seqs
  import opened Rooms

  /** One entry of the `counts` object: a voted value and how often it was voted. */
  datatype Count = Count(key: string, votes: nat)

  function Keys(t: seq<Count>): seq<string>
  {
    seq(|t|, i requires 0 <= i < |t| => t[i].key)
  }

  /** `counts[k] || 0`. */
  function Lookup(t: seq<Count>, k: string): nat
  {
    if t == [] then 0
    else if t[0].key == k then t[0].votes
    else Lookup(t[1..], k)
  }

  /** The sum of all counts. */
  function Total(t: seq<Count>): nat
  {
    if t == [] then 0 else t[0].votes + Total(t[1..])
  }

  /**
   * `counts[v] = (counts[v] || 0) + 1`: a key seen before is incremented in
   * place, a new key is added at the end, as an object adds a new property.
   */
  function Bump(t: seq<Count>, v: string): seq<Count>
  {
    if t == [] then [Count(v, 1)]
    else if t[0].key == v then [Count(v, t[0].votes + 1)] + t[1..]
    else [t[0]] + Bump(t[1..], v)
  }

  /** The `counts` object after the `forEach` over `votes`. */
  function Tally(votes: seq<string>): seq<Count>
  {
    if votes == [] then []
    else Bump(Tally(votes[..|votes| - 1]), votes[|votes| - 1])
  }

  lemma KeysCons(t: seq<Count>)
    requires t != []
    ensures Keys(t) == [t[0].key] + Keys(t[1..])
  {
  }

  /** One bump adds one vote for `v` and nothing else, and keeps the keys distinct. */
  lemma {:induction false} BumpCounts(t: seq<Count>, v: string)
    requires Distinct(Keys(t))
    ensures Distinct(Keys(Bump(t, v)))
    ensures forall k :: k in Keys(Bump(t, v)) <==> k in Keys(t) || k == v
    ensures forall k :: Lookup(Bump(t, v), k) == Lookup(t, k) + (if k == v then 1 else 0)
    ensures Total(Bump(t, v)) == Total(t) + 1
  {
    var b := Bump(t, v);
    if t == [] {
      assert Keys(b) == [v];
      DistinctCons(v, []);
    } else if t[0].key == v {
      KeysCons(t);
      KeysCons(b);
      assert b[1..] == t[1..];
    } else {
      KeysCons(t);
      DistinctCons(t[0].key, Keys(t[1..]));
      BumpCounts(t[1..], v);
      assert b[1..] == Bump(t[1..], v);
      KeysCons(b);
      DistinctCons(t[0].key, Keys(b[1..]));
    }
  }

  /**
   * The tally has one entry per distinct vote value, whose count is the
   * number of times that value was voted; the counts sum to the number of votes.
   */
  lemma {:induction false} TallyCounts(votes: seq<string>)
    ensures Distinct(Keys(Tally(votes)))
    ensures forall k :: k in Keys(Tally(votes)) <==> k in votes
    ensures forall k :: Lookup(Tally(votes), k) == multiset(votes)[k]
    ensures Total(Tally(votes)) == |votes|
  {
    if votes != [] {
      var init, last := votes[..|votes| - 1], votes[|votes| - 1];
      assert votes == init + [last];
      TallyCounts(init);
      BumpCounts(Tally(init), last);
    }
  }

  /** With distinct keys, an entry's count is what a lookup of its key finds. */
  lemma {:induction false} LookupAt(t: seq<Count>, i: nat)
    requires Distinct(Keys(t)) && i < |t|
    ensures Lookup(t, t[i].key) == t[i].votes
  {
    if i > 0 {
      KeysCons(t);
      DistinctCons(t[0].key, Keys(t[1..]));
      assert Keys(t)[0] != Keys(t)[i];
      LookupAt(t[1..], i - 1);
    }
  }

  /**
   * `votes.forEach(v => counts[v] = (counts[v] || 0) + 1)`, with each of the
   * facts the tally promises.
   */
  method CountVotes(votes: seq<string>) returns (counts: seq<Count>)
    ensures counts == Tally(votes)
    ensures Distinct(Keys(counts))
    ensures forall k :: k in Keys(counts) <==> k in votes
    ensures forall i :: 0 <= i < |counts| ==> counts[i].votes == multiset(votes)[counts[i].key]
    ensures Total(counts) == |votes|
  {
    counts := [];
    var i := 0;
    while i < |votes|
      invariant 0 <= i <= |votes|
      invariant counts == Tally(votes[..i])
    {
      assert votes[..i + 1][..i] == votes[..i];
      counts := Bump(counts, votes[i]);
      i := i + 1;
    }
    assert votes[..i] == votes;
    TallyCounts(votes);
    forall i | 0 <= i < |counts|
      ensures counts[i].votes == multiset(votes)[counts[i].key]
    {
      LookupAt(counts, i);
    }
  }

  /** The sum of the `votes` fields of a result list. */
  function SumVotes(rs: seq<Ranked>): nat
  {
    if rs == [] then 0 else rs[0].votes + SumVotes(rs[1..])
  }

  /** `Object.entries(counts).map(([id, votes]) => ({player: players.find(p => p.id === id), votes}))`. */
  function Resolve(t: seq<Count>, players: seq<Player>): (rs: seq<Ranked>)
    ensures |rs| == |t|
    ensures forall i :: 0 <= i < |t| ==> rs[i] == Ranked(FindPlayer(players, t[i].key), t[i].votes)
    ensures SumVotes(rs) == Total(t)
  {
    if t == [] then []
    else [Ranked(FindPlayer(players, t[0].key), t[0].votes)] + Resolve(t[1..], players)
  }

  /** The tail of an ordered list is ordered. */
  lemma RankedTail(rs: seq<Ranked>)
    requires RankedByVotes(rs) && rs != []
    ensures RankedByVotes(rs[1..])
  {
    forall i, j | 0 <= i < j < |rs| - 1
      ensures rs[1..][i].votes >= rs[1..][j].votes
    {
      assert rs[1..][i] == rs[i + 1] && rs[1..][j] == rs[j + 1];
    }
  }

  /** An entry with at least the count of an ordered list's head can go in front of it. */
  lemma RankedCons(x: Ranked, tail: seq<Ranked>)
    requires RankedByVotes(tail) && (tail == [] || x.votes >= tail[0].votes)
    ensures RankedByVotes([x] + tail)
  {
    var r := [x] + tail;
    forall i, j | 0 <= i < j < |r|
      ensures r[i].votes >= r[j].votes
    {
      assert r[j] == tail[j - 1];
      if i == 0 {
        assert tail[0].votes >= tail[j - 1].votes;
      } else {
        assert r[i] == tail[i - 1];
      }
    }
  }

  /** Places `e` into a list ordered by non-increasing count, ahead of the entries it ties with. */
  function Insert(e: Ranked, rs: seq<Ranked>): (r: seq<Ranked>)
    requires RankedByVotes(rs)
    ensures RankedByVotes(r)
    ensures multiset(r) == multiset(rs) + multiset{e}
    ensures r[0] == e || (rs != [] && r[0] == rs[0])
    ensures SumVotes(r) == SumVotes(rs) + e.votes
  {
    if rs == [] || rs[0].votes <= e.votes then
      RankedCons(e, rs);
      var r := [e] + rs;
      assert r[1..] == rs;
      r
    else
      RankedTail(rs);
      var tail := Insert(e, rs[1..]);
      RankedCons(rs[0], tail);
      var r := [rs[0]] + tail;
      assert rs == [rs[0]] + rs[1..];
      assert r[1..] == tail;
      r
  }

  /** `.sort((a, b) => b.votes - a.votes)`: a permutation ordered by non-increasing count. */
  function SortByVotes(rs: seq<Ranked>): (r: seq<Ranked>)
    ensures RankedByVotes(r)
    ensures multiset(r) == multiset(rs)
    ensures SumVotes(r) == SumVotes(rs)
  {
    if rs == [] then []
    else
      assert rs == [rs[0]] + rs[1..];
      Insert(rs[0], SortByVotes(rs[1..]))
  }

  /** The `results` list built from the tally. */
  function Rank(t: seq<Count>, players: seq<Player>): seq<Ranked>
  {
    SortByVotes(Resolve(t, players))
  }

  /** The `results` built from a tally are a permutation of its resolved entries. */
  lemma RankPermutes(t: seq<Count>, players: seq<Player>)
    ensures multiset(Rank(t, players)) == multiset(Resolve(t, players))
    ensures |Rank(t, players)| == |t|
    ensures forall i :: 0 <= i < |Rank(t, players)| ==> Rank(t, players)[i] in Resolve(t, players)
    ensures forall i :: 0 <= i < |t| ==> Resolve(t, players)[i] in Rank(t, players)
  {
    var rs := Resolve(t, players);
    var r := Rank(t, players);
    assert |multiset(r)| == |multiset(rs)|;
    forall i | 0 <= i < |r|
      ensures r[i] in rs
    {
      assert r[i] in multiset(r);
    }
    forall i | 0 <= i < |t|
      ensures rs[i] in r
    {
      assert rs[i] in multiset(rs);
    }
  }

  /** A tally has as many entries as there are distinct vote values. */
  lemma TallySize(votes: seq<string>)
    ensures |Tally(votes)| == |set v | v in votes|
  {
    var t := Tally(votes);
    TallyCounts(votes);
    DistinctCardinality(Keys(t));
    assert (set k | k in Keys(t)) == (set v | v in votes);
  }

  /** Every entry of a tally holds the number of votes for its key, which is positive. */
  lemma TallyEntries(votes: seq<string>)
    ensures forall i :: 0 <= i < |Tally(votes)| ==>
      Tally(votes)[i].key in votes && Tally(votes)[i].votes == multiset(votes)[Tally(votes)[i].key]
  {
    var t := Tally(votes);
    TallyCounts(votes);
    forall i | 0 <= i < |t|
      ensures t[i].key in votes && t[i].votes == multiset(votes)[t[i].key]
    {
      assert Keys(t)[i] == t[i].key;
      LookupAt(t, i);
    }
  }

  /** Every voted value has its entry, with its player and its count, in the results. */
  lemma RankCovers(votes: seq<string>, players: seq<Player>)
    ensures forall v :: v in votes ==> Ranked(FindPlayer(players, v), multiset(votes)[v]) in Rank(Tally(votes), players)
  {
    var t := Tally(votes);
    var rs := Resolve(t, players);
    TallyCounts(votes);
    TallyEntries(votes);
    RankPermutes(t, players);
    forall v | v in votes
      ensures Ranked(FindPlayer(players, v), multiset(votes)[v]) in Rank(t, players)
    {
      assert v in Keys(t);
      var i :| 0 <= i < |t| && Keys(t)[i] == v;
      assert rs[i] in Rank(t, players);
    }
  }

  /** Every entry of the results has a positive count, and a present player carries its own count. */
  lemma RankEntries(votes: seq<string>, players: seq<Player>)
    ensures var r := Rank(Tally(votes), players);
      forall i :: 0 <= i < |r| ==>
        r[i].votes > 0 &&
        (r[i].player.Some? ==> r[i].player.value in players && r[i].votes == multiset(votes)[r[i].player.value.id])
  {
    var t := Tally(votes);
    var rs := Resolve(t, players);
    var r := Rank(t, players);
    TallyEntries(votes);
    RankPermutes(t, players);
    forall i | 0 <= i < |r|
      ensures r[i].votes > 0
      ensures r[i].player.Some? ==> r[i].player.value in players && r[i].votes == multiset(votes)[r[i].player.value.id]
    {
      assert r[i] in rs;
      var j :| 0 <= j < |rs| && rs[j] == r[i];
      assert t[j].key in votes;
    }
  }

  /**
   * What the voting game's `results` promise: ordered by non-increasing
   * count; a rearrangement of the counts paired with their players; one
   * entry per distinct vote value, carrying the player of that id (absent
   * when there is none) and the number of votes for it; every count
   * positive; the counts summing to the number of votes.
   */
  lemma RankTally(votes: seq<string>, players: seq<Player>)
    ensures var r := Rank(Tally(votes), players);
      && RankedByVotes(r)
      && multiset(r) == multiset(Resolve(Tally(votes), players))
      && SumVotes(r) == |votes|
      && |r| == |set v | v in votes|
      && (forall v :: v in votes ==> Ranked(FindPlayer(players, v), multiset(votes)[v]) in r)
      && (forall i :: 0 <= i < |r| ==>
            r[i].votes > 0 &&
            (r[i].player.Some? ==> r[i].player.value in players && r[i].votes == multiset(votes)[r[i].player.value.id]))
  {
    TallyCounts(votes);
    TallySize(votes);
    RankPermutes(Tally(votes), players);
    RankCovers(votes, players);
    RankEntries(votes, players);
  }
}
