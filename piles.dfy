/** Card identities held by piles, as multisets, and how they change when a
    pile is edited. These are the tools for stating card conservation. */
module Piles {
  import opened Types

  /** The identities of the cards of a pile, ignoring orientation. */
  function Ids(s: seq<Card>): multiset<CardId>
  {
    if |s| == 0 then multiset{} else Ids(s[..|s| - 1]) + multiset{Id(s[|s| - 1])}
  }

  /** The identities held by a sequence of piles. */
  function PilesIds(ps: seq<seq<Card>>): multiset<CardId>
  {
    if |ps| == 0 then multiset{} else PilesIds(ps[..|ps| - 1]) + Ids(ps[|ps| - 1])
  }

  /** Every card of every location: stock, waste, foundations and tableau. */
  function TotalIds(g: GameState): multiset<CardId>
  {
    Ids(g.stock) + Ids(g.waste) + PilesIds(g.foundation) + PilesIds(g.tableau)
  }

  lemma {:induction false} IdsConcat(a: seq<Card>, b: seq<Card>)
    ensures Ids(a + b) == Ids(a) + Ids(b)
    decreases |b|
  {
    if |b| == 0 {
      assert a + b == a;
    } else {
      assert (a + b)[..|a + b| - 1] == a + b[..|b| - 1];
      IdsConcat(a, b[..|b| - 1]);
    }
  }

  lemma IdsSplit(s: seq<Card>, k: nat)
    requires k <= |s|
    ensures Ids(s) == Ids(s[..k]) + Ids(s[k..])
  {
    assert s == s[..k] + s[k..];
    IdsConcat(s[..k], s[k..]);
  }

  /** Replacing one card changes the identities by exactly that card. */
  lemma IdsUpdate(s: seq<Card>, i: nat, c: Card)
    requires i < |s|
    ensures Ids(s[i := c]) + multiset{Id(s[i])} == Ids(s) + multiset{Id(c)}
  {
    var t := s[i := c];
    assert t == s[..i] + [c] + s[i + 1..];
    assert s == s[..i] + [s[i]] + s[i + 1..];
    IdsConcat(s[..i] + [c], s[i + 1..]);
    IdsConcat(s[..i], [c]);
    IdsConcat(s[..i] + [s[i]], s[i + 1..]);
    IdsConcat(s[..i], [s[i]]);
    assert Ids([c]) == multiset{Id(c)} by { assert [c][..0] == []; }
    assert Ids([s[i]]) == multiset{Id(s[i])} by { assert [s[i]][..0] == []; }
  }

  /** Turning a card over does not change which cards a pile holds. */
  lemma IdsFlip(s: seq<Card>, i: nat, up: bool)
    requires i < |s|
    ensures Ids(s[i := s[i].(isFaceUp := up)]) == Ids(s)
  {
    var t := s[i := s[i].(isFaceUp := up)];
    IdsUpdate(s, i, s[i].(isFaceUp := up));
    assert Id(s[i].(isFaceUp := up)) == Id(s[i]);
    assert Ids(t) + multiset{Id(s[i])} == Ids(s) + multiset{Id(s[i])};
    assert Ids(t) == Ids(t) + multiset{Id(s[i])} - multiset{Id(s[i])};
  }

  lemma IdsSingleton(c: Card)
    ensures Ids([c]) == multiset{Id(c)}
  {
    assert [c][..0] == [];
  }

  /** Ids depends only on which cards a pile holds, not on their order. */
  lemma {:induction false} IdsOfPermutation(s: seq<Card>, t: seq<Card>)
    requires multiset(s) == multiset(t)
    ensures Ids(s) == Ids(t)
    decreases |s|
  {
    if |s| == 0 {
      assert |t| == |multiset(t)| == 0;
    } else {
      var n := |s| - 1;
      var x := s[n];
      assert s == s[..n] + [x];
      assert x in multiset(t) by { assert x in multiset(s); }
      var k :| 0 <= k < |t| && t[k] == x;
      var a, b := t[..k], t[k + 1..];
      var u := a + b;
      UnpickCard(t, k);
      assert multiset(s[..n]) == multiset(u) by {
        calc {
          multiset(s[..n]);
          multiset(s) - multiset{x};
          multiset(t) - multiset{x};
          multiset(u);
        }
      }
      IdsOfPermutation(s[..n], u);
    }
  }

  /** Taking the card at position k out of a pile. */
  lemma UnpickCard(t: seq<Card>, k: nat)
    requires k < |t|
    ensures multiset(t) == multiset(t[..k] + t[k + 1..]) + multiset{t[k]}
    ensures Ids(t) == Ids(t[..k] + t[k + 1..]) + multiset{Id(t[k])}
  {
    SplitAround(t, k);
    UnpickIds(t[..k], t[k], t[k + 1..]);
    MultisetUnpick(t[..k], t[k], t[k + 1..]);
  }

  lemma SplitAround(t: seq<Card>, k: nat)
    requires k < |t|
    ensures t == t[..k] + [t[k]] + t[k + 1..]
  {
  }

  lemma MultisetUnpick(a: seq<Card>, x: Card, b: seq<Card>)
    ensures multiset(a + [x] + b) == multiset(a + b) + multiset{x}
  {
  }

  lemma UnpickIds(a: seq<Card>, x: Card, b: seq<Card>)
    ensures Ids(a + [x] + b) == Ids(a + b) + multiset{Id(x)}
  {
    IdsConcat(a + [x], b);
    IdsConcat(a, [x]);
    IdsConcat(a, b);
    IdsSingleton(x);
  }

  lemma {:induction false} PilesIdsConcat(a: seq<seq<Card>>, b: seq<seq<Card>>)
    ensures PilesIds(a + b) == PilesIds(a) + PilesIds(b)
    decreases |b|
  {
    if |b| == 0 {
      assert a + b == a;
    } else {
      assert (a + b)[..|a + b| - 1] == a + b[..|b| - 1];
      PilesIdsConcat(a, b[..|b| - 1]);
    }
  }

  /** Replacing one pile changes the identities by exactly the two piles. */
  lemma PilesIdsUpdate(ps: seq<seq<Card>>, i: nat, p: seq<Card>)
    requires i < |ps|
    ensures PilesIds(ps[i := p]) + Ids(ps[i]) == PilesIds(ps) + Ids(p)
  {
    var qs := ps[i := p];
    assert qs == ps[..i] + [p] + ps[i + 1..];
    assert ps == ps[..i] + [ps[i]] + ps[i + 1..];
    PilesIdsConcat(ps[..i] + [p], ps[i + 1..]);
    PilesIdsConcat(ps[..i], [p]);
    PilesIdsConcat(ps[..i] + [ps[i]], ps[i + 1..]);
    PilesIdsConcat(ps[..i], [ps[i]]);
    assert PilesIds([p]) == Ids(p) by { assert [p][..0] == []; }
    assert PilesIds([ps[i]]) == Ids(ps[i]) by { assert [ps[i]][..0] == []; }
  }

  /** The last pile of a prefix. */
  lemma PilesIdsLast(ps: seq<seq<Card>>, m: nat)
    requires 0 < m <= |ps|
    ensures PilesIds(ps[..m]) == PilesIds(ps[..m - 1]) + Ids(ps[m - 1])
  {
    assert ps[..m][..m - 1] == ps[..m - 1];
  }

  /** A prefix of a prefix, and the segment between them. */
  lemma IdsPrefixSplit(s: seq<Card>, a: nat, b: nat)
    requires a <= b <= |s|
    ensures Ids(s[..b]) == Ids(s[..a]) + Ids(s[a..b])
  {
    IdsSplit(s[..b], a);
    assert s[..b][..a] == s[..a] && s[..b][a..] == s[a..b];
  }

  /** A pile holds as many identities as it has cards. */
  lemma {:induction false} IdsSize(s: seq<Card>)
    ensures |Ids(s)| == |s|
    decreases |s|
  {
    if |s| > 0 {
      IdsSize(s[..|s| - 1]);
    }
  }

  /** The identities of four piles, pile by pile. */
  lemma PilesIdsFour(ps: seq<seq<Card>>)
    requires |ps| == 4
    ensures PilesIds(ps) == Ids(ps[0]) + Ids(ps[1]) + Ids(ps[2]) + Ids(ps[3])
  {
    assert ps[..4] == ps;
    PilesIdsLast(ps, 4);
    PilesIdsLast(ps, 3);
    PilesIdsLast(ps, 2);
    PilesIdsLast(ps, 1);
    assert PilesIds(ps[..0]) == multiset{} by { assert ps[..0] == []; }
  }

  /** Four piles hold as many identities as they have cards. */
  lemma PilesIdsFourSize(ps: seq<seq<Card>>)
    requires |ps| == 4
    ensures |PilesIds(ps)| == |ps[0]| + |ps[1]| + |ps[2]| + |ps[3]|
  {
    PilesIdsFour(ps);
    IdsSize(ps[0]);
    IdsSize(ps[1]);
    IdsSize(ps[2]);
    IdsSize(ps[3]);
  }

  lemma {:induction false} PilesIdsEmpty(ps: seq<seq<Card>>)
    requires forall i :: 0 <= i < |ps| ==> ps[i] == []
    ensures PilesIds(ps) == multiset{}
    decreases |ps|
  {
    if |ps| > 0 {
      PilesIdsEmpty(ps[..|ps| - 1]);
    }
  }
}
