/**
 * Cards: the power table, the 24-card starting deck, the Fisher-Yates shuffle driven by
 * `Math.random` draws, and drawing from the back of a deck onto a stand.
 */
module Cards {
  import opened GameTypes

  /** The power table: ranks 1 to 7 are worth their rank; the base marker, the joker (8) and anything else 0. */
  function SoldierPower(rank: int): (r: int)
    ensures 1 <= rank <= 7 ==> r == rank
    ensures !(1 <= rank <= 7) ==> r == 0
  {
    match rank
    case 0 => 0
    case 1 => 1
    case 2 => 2
    case 3 => 3
    case 4 => 4
    case 5 => 5
    case 6 => 6
    case 7 => 7
    case 8 => 0
    case _ => 0
  }

  /** A fresh card, not yet given to anyone: no owner and the default colour red. */
  function Card(rank: int): Soldier {
    Soldier(rank, SoldierPower(rank), "", Red)
  }

  /** Three copies of each rank 1 to 8, in the order the nested loops create them. */
  function FullDeck(): seq<Soldier> {
    seq(24, i requires 0 <= i < 24 => Card(i / 3 + 1))
  }

  /** Every card of the full deck is a fresh card of rank 1 to 8, and every such card is there. */
  lemma FullDeckCards(c: Soldier)
    ensures |FullDeck()| == 24
    ensures c in FullDeck() <==> 1 <= c.rank <= 8 && c == Card(c.rank)
  {
    if 1 <= c.rank <= 8 && c == Card(c.rank) {
      assert FullDeck()[3 * (c.rank - 1)] == c;
    }
  }

  /** The value of `Math.random()` is in [0, 1). */
  predicate RandomDraws(ds: seq<real>) {
    forall k :: 0 <= k < |ds| ==> 0.0 <= ds[k] < 1.0
  }

  /** `Math.floor(r * n)` for a draw `r`: an index below `n`. */
  function Pick(r: real, n: nat): (j: nat)
    requires 0.0 <= r < 1.0 && n > 0
    ensures j < n
  {
    var m := n as real;
    var x := r * m;
    assert x < m by {
      var gap := 1.0 - r;
      assert gap > 0.0 && m > 0.0;
      assert gap * m > 0.0;
      assert x + gap * m == m;
    }
    x.Floor
  }

  function Swap<T>(s: seq<T>, i: nat, j: nat): (r: seq<T>)
    requires i < |s| && j < |s|
    ensures |r| == |s|
  {
    s[i := s[j]][j := s[i]]
  }

  /** The Fisher-Yates passes for positions `i` down to 1, consuming one draw each. */
  function ShuffleDown<T>(s: seq<T>, i: nat, ds: seq<real>): (r: seq<T>)
    requires i < |s| && i <= |ds| && RandomDraws(ds)
    ensures |r| == |s|
    decreases i
  {
    if i == 0 then s else ShuffleDown(Swap(s, i, Pick(ds[0], i + 1)), i - 1, ds[1..])
  }

  /** One Fisher-Yates pass: position `i` swapped with the position the first draw picks. */
  lemma ShuffleDownStep<T>(s: seq<T>, i: nat, ds: seq<real>)
    requires 0 < i < |s| && i <= |ds| && RandomDraws(ds)
    ensures RandomDraws(ds[1..])
    ensures ShuffleDown(s, i, ds) == ShuffleDown(Swap(s, i, Pick(ds[0], i + 1)), i - 1, ds[1..])
  {
  }

  /** `shuffleArray`: one draw per position from the last down to the second. */
  function Shuffle<T>(s: seq<T>, ds: seq<real>): (r: seq<T>)
    requires |s| <= |ds| + 1 && RandomDraws(ds)
    ensures |r| == |s|
  {
    if s == [] then s else ShuffleDown(s, |s| - 1, ds)
  }

  /** A swap exchanges two elements and loses none. */
  lemma SwapPermutes<T>(s: seq<T>, i: nat, j: nat)
    requires i < |s| && j < |s|
    ensures multiset(Swap(s, i, j)) == multiset(s)
  {
  }

  /** The passes only swap, so the result is a permutation. */
  lemma {:induction false} ShuffleDownPermutes<T>(s: seq<T>, i: nat, ds: seq<real>)
    requires i < |s| && i <= |ds| && RandomDraws(ds)
    ensures multiset(ShuffleDown(s, i, ds)) == multiset(s)
    decreases i
  {
    if i > 0 {
      var j := Pick(ds[0], i + 1);
      SwapPermutes(s, i, j);
      ShuffleDownPermutes(Swap(s, i, j), i - 1, ds[1..]);
    }
  }

  /** A shuffle is a permutation of what it shuffles. */
  lemma ShufflePermutes<T>(s: seq<T>, ds: seq<real>)
    requires |s| <= |ds| + 1 && RandomDraws(ds)
    ensures multiset(Shuffle(s, ds)) == multiset(s)
  {
    if s != [] {
      ShuffleDownPermutes(s, |s| - 1, ds);
    }
  }

  /** `createPlayerDeck`: the full deck shuffled, its first four cards discarded. */
  function Deck(ds: seq<real>): seq<Soldier>
    requires |ds| >= 23 && RandomDraws(ds)
  {
    Shuffle(FullDeck(), ds)[4..]
  }

  /** A deck holds 20 fresh cards of ranks 1 to 8 drawn from the full deck. */
  lemma DeckShape(ds: seq<real>)
    requires |ds| >= 23 && RandomDraws(ds)
    ensures |Deck(ds)| == 20
    ensures multiset(Deck(ds)) <= multiset(FullDeck())
    ensures forall c :: c in Deck(ds) ==> 1 <= c.rank <= 8 && c == Card(c.rank)
  {
    FullDeckCards(Card(1));
    ShuffledSuffix(FullDeck(), ds, 4);
    forall c | c in Deck(ds) ensures 1 <= c.rank <= 8 && c == Card(c.rank) {
      assert c in multiset(Deck(ds));
      FullDeckCards(c);
    }
  }

  /** What is left after dropping the front of a shuffle is part of what was shuffled. */
  lemma ShuffledSuffix<T>(s: seq<T>, ds: seq<real>, n: nat)
    requires |s| <= |ds| + 1 && RandomDraws(ds) && n <= |s|
    ensures multiset(Shuffle(s, ds)[n..]) <= multiset(s)
  {
    var sh := Shuffle(s, ds);
    ShufflePermutes(s, ds);
    assert sh == sh[..n] + sh[n..];
  }

  function Relabel(s: Soldier, pid: string, c: PlayerColor): Soldier {
    s.(playerId := pid, playerColor := c)
  }

  function Min(a: int, b: int): int {
    if a < b then a else b
  }

  /**
   * Up to `n` cards popped from the back of the deck and pushed onto the stand, each
   * relabelled as `pid`'s in the player's colour; drawing stops early on an empty deck.
   */
  function DrawCards(pl: Player, pid: string, n: nat): (r: Player)
    ensures |r.stand| == |pl.stand| + Min(n, |pl.deck|) && |r.deck| == |pl.deck| - Min(n, |pl.deck|)
    ensures r == pl.(deck := r.deck, stand := r.stand)
    decreases n
  {
    if n == 0 || pl.deck == [] then pl
    else
      var d := |pl.deck|;
      var next := pl.(deck := pl.deck[..d - 1], stand := pl.stand + [Relabel(pl.deck[d - 1], pid, pl.color)]);
      DrawCards(next, pid, n - 1)
  }

  /**
   * The stand keeps its cards and receives the top `min(n, deck)` deck cards, last card
   * first, relabelled; the deck loses exactly those.
   */
  lemma {:induction false} DrawCardsMoves(pl: Player, pid: string, n: nat)
    ensures var r := DrawCards(pl, pid, n);
      var k := Min(n, |pl.deck|);
      && r.deck == pl.deck[..|pl.deck| - k]
      && r.stand[..|pl.stand|] == pl.stand
      && (forall i :: |pl.stand| <= i < |r.stand| ==>
            r.stand[i] == Relabel(pl.deck[|pl.deck| - 1 - (i - |pl.stand|)], pid, pl.color))
    decreases n
  {
    if n != 0 && pl.deck != [] {
      var d := |pl.deck|;
      var next := pl.(deck := pl.deck[..d - 1], stand := pl.stand + [Relabel(pl.deck[d - 1], pid, pl.color)]);
      DrawCardsMoves(next, pid, n - 1);
    }
  }

  /** Drawing moves cards and creates none: deck plus stand keeps its size. */
  lemma DrawConserves(pl: Player, pid: string, n: nat)
    ensures |DrawCards(pl, pid, n).deck| + |DrawCards(pl, pid, n).stand| == |pl.deck| + |pl.stand|
  {
  }
}
