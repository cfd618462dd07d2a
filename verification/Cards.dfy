/** Whole-card selection under a budget: cards are taken or left, never cut
    (internal/domain/knowledge.go). */
module Cards {
  import opened Basics

  const PREAMBLE := "[KNOWLEDGE]\n"
  const SEPARATOR := "\n---\n"

  /** A card is its rendered text; key is the identity of its payload. */
  datatype Card = Card(key: nat, text: string)

  /** The cumulative cost of a selection, when it can be measured. */
  type Cost = seq<Card> -> Option<int>

  datatype Fit = Fitted(selected: seq<Card>) | CostFailed

  // ---- Rendering ---------------------------------------------------------

  function Joined(cards: seq<Card>): string {
    if cards == [] then ""
    else if |cards| == 1 then cards[0].text
    else Joined(cards[..|cards| - 1]) + SEPARATOR + cards[|cards| - 1].text
  }

  /** The combined block with its shared preamble. */
  function Render(preamble: string, cards: seq<Card>): string {
    if cards == [] then "" else preamble + Joined(cards) + "\n"
  }

  /** The default cost: code points of the combined block. */
  function RuneCost(preamble: string): Cost {
    cards => Some(|Render(preamble, cards)|)
  }

  lemma RenderMore(preamble: string, cards: seq<Card>, card: Card)
    ensures |Render(preamble, cards + [card])| ==
            if cards == [] then |preamble| + |card.text| + 1 else |Render(preamble, cards)| + |SEPARATOR| + |card.text|
  {
    if cards == [] {
      assert cards + [card] == [card];
    } else {
      assert (cards + [card])[..|cards|] == cards;
    }
  }

  // ---- Selections --------------------------------------------------------

  /** Positions of selected cards, in the order the cards came in. */
  predicate InOrder(p: seq<nat>, n: nat) {
    (forall i | 0 <= i < |p| :: p[i] < n) && forall i, j | 0 <= i < j < |p| :: p[i] < p[j]
  }

  function Pick(cards: seq<Card>, p: seq<nat>): seq<Card>
    requires InOrder(p, |cards|)
  {
    seq(|p|, i requires 0 <= i < |p| => cards[p[i]])
  }

  lemma PickMore(cards: seq<Card>, p: seq<nat>, n: nat)
    requires InOrder(p, n) && n < |cards|
    ensures InOrder(p + [n], |cards|) && InOrder(p, |cards|) && Pick(cards, p + [n]) == Pick(cards, p) + [cards[n]]
  {
    hide Pick;
    assert InOrder(p + [n], |cards|);
    PickAppend(cards, p, n);
  }

  lemma PickAppend(cards: seq<Card>, p: seq<nat>, n: nat)
    requires InOrder(p, |cards|) && InOrder(p + [n], |cards|) && n < |cards|
    ensures Pick(cards, p + [n]) == Pick(cards, p) + [cards[n]]
  {
  }

  /** Greedy selection among the first n cards: a card is taken exactly when the
      selection so far still fits with it. */
  function Greedy(cards: seq<Card>, budget: int, cost: Cost, n: nat): (r: Option<seq<nat>>)
    requires n <= |cards|
    ensures r.Some? ==> InOrder(r.value, n)
  {
    if n == 0 then Some([])
    else
      var before := Greedy(cards, budget, cost, n - 1);
      if before.None? then None
      else
        assert InOrder(before.value, |cards|);
        var total := cost(Pick(cards, before.value) + [cards[n - 1]]);
        if total.None? then None else if total.value > budget then before else Some(before.value + [n - 1])
  }

  /** Every non-empty greedy selection was measured within the budget. */
  lemma {:induction false} GreedyFits(cards: seq<Card>, budget: int, cost: Cost, n: nat)
    requires n <= |cards| && Greedy(cards, budget, cost, n).Some?
    ensures var p := Greedy(cards, budget, cost, n).value;
            InOrder(p, |cards|) && (p != [] ==> cost(Pick(cards, p)).Some? && cost(Pick(cards, p)).value <= budget)
  {
    hide Pick;
    if n > 0 {
      GreedyFits(cards, budget, cost, n - 1);
      PickMore(cards, Greedy(cards, budget, cost, n - 1).value, n - 1);
    }
  }

  /** Later choices extend earlier ones. */
  lemma {:induction false} GreedyExtends(cards: seq<Card>, budget: int, cost: Cost, m: nat, n: nat)
    requires m <= n <= |cards| && Greedy(cards, budget, cost, n).Some?
    ensures Greedy(cards, budget, cost, m).Some?
    ensures Greedy(cards, budget, cost, m).value <= Greedy(cards, budget, cost, n).value
    ensures forall i | i in Greedy(cards, budget, cost, n).value && i < m :: i in Greedy(cards, budget, cost, m).value
    decreases n
  {
    if m < n {
      GreedyExtends(cards, budget, cost, m, n - 1);
    }
  }

  // ---- Maximality under the default cost ---------------------------------

  /** Rendering a longer selection costs at least as much. */
  lemma {:induction false} RenderGrows(preamble: string, a: seq<Card>, b: seq<Card>, card: Card)
    requires a <= b
    ensures |Render(preamble, a + [card])| <= |Render(preamble, b + [card])|
    decreases |b|
  {
    hide Render;
    if |a| < |b| {
      var front := b[..|b| - 1];
      RenderGrows(preamble, a, front, card);
      assert b == front + [b[|b| - 1]];
      RenderMore(preamble, front, b[|b| - 1]);
      RenderMore(preamble, front, card);
      RenderMore(preamble, b, card);
    } else {
      assert a == b;
    }
  }

  lemma PickPrefix(cards: seq<Card>, p: seq<nat>, q: seq<nat>)
    requires InOrder(q, |cards|) && p <= q
    ensures InOrder(p, |cards|) && Pick(cards, p) <= Pick(cards, q)
  {
    assert InOrder(p, |cards|);
  }

  /** No card left out can be added to the final selection within the budget. */
  lemma GreedyMaximal(cards: seq<Card>, budget: int, preamble: string, i: nat)
    requires i < |cards|
    ensures var p := Greedy(cards, budget, RuneCost(preamble), |cards|);
            p.Some? && (i !in p.value ==> |Render(preamble, Pick(cards, p.value) + [cards[i]])| > budget)
  {
    hide Render, Pick;
    var cost := RuneCost(preamble);
    GreedyMeasures(cards, budget, preamble, |cards|);
    GreedyExtends(cards, budget, cost, i, |cards|);
    GreedyExtends(cards, budget, cost, i + 1, |cards|);
    var here, end := Greedy(cards, budget, cost, i).value, Greedy(cards, budget, cost, |cards|).value;
    if i !in end {
      assert i !in Greedy(cards, budget, cost, i + 1).value;
      PickPrefix(cards, here, end);
      RenderGrows(preamble, Pick(cards, here), Pick(cards, end), cards[i]);
    }
  }

  lemma {:induction false} GreedyMeasures(cards: seq<Card>, budget: int, preamble: string, n: nat)
    requires n <= |cards|
    ensures Greedy(cards, budget, RuneCost(preamble), n).Some?
  {
    hide Render, Pick;
    if n > 0 {
      GreedyMeasures(cards, budget, preamble, n - 1);
    }
  }

  // ---- The selection in shared capacity ----------------------------------

  /** FitKnowledgeCards. Each candidate is appended into spare capacity of the one
      backing array; a rejected card stays there until it is overwritten. */
  method FitKnowledgeCards(cards: seq<Card>, budget: int, cost: Option<Cost>) returns (r: Fit)
    ensures budget <= 0 ==> r == Fitted([])
    ensures budget > 0 ==>
              var greedy := Greedy(cards, budget, if cost.None? then RuneCost(PREAMBLE) else cost.value, |cards|);
              r == if greedy.None? then CostFailed else Fitted(Pick(cards, greedy.value))
  {
    hide Pick, Render, Greedy;
    if budget <= 0 { return Fitted([]); }
    var measure: Cost := if cost.None? then RuneCost(PREAMBLE) else cost.value;
    var backing := new Card[|cards|](_ => Card(0, ""));
    var length := 0;
    ghost var picks: seq<nat> := [];
    assert backing[..0] == Pick(cards, picks) by { PickNone(cards); }
    GreedyStart(cards, budget, measure);
    for i := 0 to |cards|
      invariant length <= i && length == |picks| && InOrder(picks, i)
      invariant Greedy(cards, budget, measure, i) == Some(picks)
      invariant backing[..length] == Pick(cards, picks)
    {
      backing[length] := cards[i];
      assert backing[..length + 1] == Pick(cards, picks) + [cards[i]];
      var total := measure(backing[..length + 1]);
      GreedyStep(cards, budget, measure, i, picks, total);
      if total.None? {
        GreedyStops(cards, budget, measure, i + 1);
        return CostFailed;
      }
      PickMore(cards, picks, i);
      if total.value > budget { continue; }
      picks := picks + [i];
      length := length + 1;
    }
    return Fitted(backing[..length]);
  }

  lemma GreedyStart(cards: seq<Card>, budget: int, cost: Cost)
    ensures Greedy(cards, budget, cost, 0) == Some([])
  {
  }

  lemma GreedyStep(cards: seq<Card>, budget: int, cost: Cost, n: nat, p: seq<nat>, total: Option<int>)
    requires n < |cards| && Greedy(cards, budget, cost, n) == Some(p) && InOrder(p, |cards|)
    requires total == cost(Pick(cards, p) + [cards[n]])
    ensures total.None? ==> Greedy(cards, budget, cost, n + 1).None?
    ensures total.Some? && total.value > budget ==> Greedy(cards, budget, cost, n + 1) == Some(p)
    ensures total.Some? && total.value <= budget ==> Greedy(cards, budget, cost, n + 1) == Some(p + [n])
  {
    hide Pick;
  }

  lemma PickNone(cards: seq<Card>)
    ensures Pick(cards, []) == []
  {
  }

  lemma {:induction false} GreedyStops(cards: seq<Card>, budget: int, cost: Cost, n: nat)
    requires n <= |cards| && Greedy(cards, budget, cost, n).None?
    ensures Greedy(cards, budget, cost, |cards|).None?
    decreases |cards| - n
  {
    if n < |cards| {
      GreedyStops(cards, budget, cost, n + 1);
    }
  }
}
