/** Dealing the words when an impostor game starts (server.js, start-game). */
module Impostor {
  import opened Rooms

  /** Every player gets `secret`, except the one at index `k`, who gets the marker. */
  function WithWords(ps: seq<Player>, k: nat, secret: string): seq<Player>
  {
    seq(|ps|, i requires 0 <= i < |ps| => ps[i].(word := Some(if i == k then ImpostorMarker else secret)))
  }

  /** How many players hold the word `w`. */
  function CountWord(ps: seq<Player>, w: string): nat
  {
    if ps == [] then 0
    else CountWord(ps[..|ps| - 1], w) + (if ps[|ps| - 1].word == Some(w) then 1 else 0)
  }

  /**
   * When the impostor index is in range, exactly one player holds the marker
   * and all the others hold the secret word.
   */
  lemma {:induction false} ImpostorCount(ps: seq<Player>, k: nat, secret: string)
    requires secret != ImpostorMarker
    ensures CountWord(WithWords(ps, k, secret), ImpostorMarker) == if k < |ps| then 1 else 0
    ensures CountWord(WithWords(ps, k, secret), secret) == if k < |ps| then |ps| - 1 else |ps|
  {
    if ps != [] {
      var init := ps[..|ps| - 1];
      ImpostorCount(init, k, secret);
      assert WithWords(ps, k, secret)[..|ps| - 1] == WithWords(init, k, secret);
    }
  }

  /**
   * `players.forEach((p, i) => p.word = i === impostorIndex ? 'IMPOSTOR' : secret)`:
   * sets the word of every player in turn and changes nothing else.
   */
  method AssignWords(players: seq<Player>, impostorIndex: nat, secret: string) returns (ps: seq<Player>)
    ensures ps == WithWords(players, impostorIndex, secret)
    ensures Ids(ps) == Ids(players)
    ensures forall i :: 0 <= i < |ps| ==> ps[i].name == players[i].name && ps[i].score == players[i].score
  {
    ps := players;
    var i := 0;
    while i < |ps|
      invariant 0 <= i <= |ps| == |players|
      invariant forall j :: 0 <= j < i ==> ps[j] == players[j].(word := Some(if j == impostorIndex then ImpostorMarker else secret))
      invariant forall j :: i <= j < |ps| ==> ps[j] == players[j]
    {
      ps := ps[i := ps[i].(word := Some(if i == impostorIndex then ImpostorMarker else secret))];
      i := i + 1;
    }
  }
}
