/** Selecting frame cards with a bounded number of authoritative measurements:
    a locally costed plan, two corrections and a refinement
    (internal/domain/knowledge_frame_card.go). */
module FrameCards {
  import opened Basics
  import opened Cards

  const FRAME_PREAMBLE := "[KNOWLEDGE DATA]\n"
  const MAX_CALLS := 10
  const MAX_FAILURES := 2

  // ---- The local cost model ----------------------------------------------

  /** localKnowledgeFrameCardCost. */
  function LocalCost(selectedSoFar: nat, card: Card): nat {
    if selectedSoFar == 0 then |FRAME_PREAMBLE| + |card.text| + 1 else |SEPARATOR| + |card.text|
  }

  function LocalTotal(selected: seq<Card>): nat {
    if selected == [] then 0
    else LocalTotal(selected[..|selected| - 1]) + LocalCost(|selected| - 1, selected[|selected| - 1])
  }

  /** The local model is exact for the rendered block. */
  lemma {:induction false} LocalIsExact(selected: seq<Card>)
    ensures LocalTotal(selected) == |Render(FRAME_PREAMBLE, selected)|
  {
    hide Render;
    if selected == [] {
      assert Render(FRAME_PREAMBLE, selected) == "" by { RenderNothing(); }
    } else {
      var front, last := selected[..|selected| - 1], selected[|selected| - 1];
      LocalIsExact(front);
      RenderMore(FRAME_PREAMBLE, front, last);
      assert front + [last] == selected;
    }
  }

  lemma RenderNothing()
    ensures Render(FRAME_PREAMBLE, []) == ""
  {
  }

  /** What is taken for granted of a counter that is exactly the local model. */
  ghost predicate Exact(cost: Cost) {
    forall cards: seq<Card> :: cost(cards) == Some(LocalTotal(cards))
  }

  lemma DefaultIsExact()
    ensures Exact(RuneCost(FRAME_PREAMBLE))
  {
    hide Render, LocalTotal;
    forall cards: seq<Card>
      ensures RuneCost(FRAME_PREAMBLE)(cards) == Some(LocalTotal(cards))
    {
      LocalIsExact(cards);
    }
  }

  lemma {:induction false} SameGreedy(cards: seq<Card>, budget: int, a: Cost, b: Cost, n: nat)
    requires n <= |cards| && forall s: seq<Card> :: a(s) == b(s)
    ensures Greedy(cards, budget, a, n) == Greedy(cards, budget, b, n)
  {
    hide Pick;
    if n > 0 {
      SameGreedy(cards, budget, a, b, n - 1);
    }
  }

  function Plan(cards: seq<Card>, budget: int): (p: seq<nat>)
    ensures InOrder(p, |cards|)
  {
    PlanFrom(cards, budget, |cards|)
  }

  /** planKnowledgeFrameCardSelection, over the first n cards. */
  function PlanFrom(cards: seq<Card>, budget: int, n: nat): (p: seq<nat>)
    requires n <= |cards|
    ensures InOrder(p, n)
  {
    if n == 0 then []
    else
      var before := PlanFrom(cards, budget, n - 1);
      if LocalTotal(Pick(cards, before)) + LocalCost(|before|, cards[n - 1]) > budget then before else before + [n - 1]
  }

  lemma LocalTotalMore(selected: seq<Card>, card: Card)
    ensures LocalTotal(selected + [card]) == LocalTotal(selected) + LocalCost(|selected|, card)
  {
    assert (selected + [card])[..|selected|] == selected;
  }

  /** The plan is the greedy selection under the rendered length. */
  lemma {:induction false} PlanIsGreedy(cards: seq<Card>, budget: int, n: nat)
    requires n <= |cards|
    ensures Greedy(cards, budget, RuneCost(FRAME_PREAMBLE), n) == Some(PlanFrom(cards, budget, n))
  {
    hide Pick, Render, LocalTotal, LocalCost;
    if n > 0 {
      PlanIsGreedy(cards, budget, n - 1);
      var p := PlanFrom(cards, budget, n - 1);
      LocalTotalMore(Pick(cards, p), cards[n - 1]);
      LocalIsExact(Pick(cards, p) + [cards[n - 1]]);
      PickLength(cards, p);
    }
  }

  lemma PickLength(cards: seq<Card>, p: seq<nat>)
    requires InOrder(p, |cards|)
    ensures |Pick(cards, p)| == |p|
  {
  }

  method PlanSelection(cards: seq<Card>, budget: int) returns (selected: seq<Card>)
    ensures selected == Pick(cards, Plan(cards, budget))
  {
    hide Pick, LocalCost, LocalTotal, PlanFrom;
    selected := [];
    var total: nat := 0;
    ghost var p: seq<nat> := [];
    PlanStart(cards, budget);
    for i := 0 to |cards|
      invariant InOrder(p, i) && p == PlanFrom(cards, budget, i) && selected == Pick(cards, p) && |p| == |selected|
      invariant total == LocalTotal(selected)
    {
      PlanStep(cards, budget, i);
      PickMore(cards, p, i);
      var inc := LocalCost(|selected|, cards[i]);
      if total + inc > budget { continue; }
      LocalTotalMore(selected, cards[i]);
      selected := selected + [cards[i]];
      total := total + inc;
      p := p + [i];
    }
  }

  lemma PlanStart(cards: seq<Card>, budget: int)
    ensures PlanFrom(cards, budget, 0) == [] && Pick(cards, []) == [] && LocalTotal([]) == 0
  {
  }

  lemma PlanStep(cards: seq<Card>, budget: int, n: nat)
    requires n < |cards|
    ensures var p := PlanFrom(cards, budget, n);
            InOrder(p, |cards|) && PlanFrom(cards, budget, n + 1) ==
            if LocalTotal(Pick(cards, p)) + LocalCost(|p|, cards[n]) > budget then p else p + [n]
  {
  }

  method SelectionTotal(selected: seq<Card>) returns (total: nat)
    ensures total == LocalTotal(selected)
  {
    hide LocalCost;
    total := 0;
    for i := 0 to |selected|
      invariant total == LocalTotal(selected[..i])
    {
      assert selected[..i + 1] == selected[..i] + [selected[i]];
      LocalTotalMore(selected[..i], selected[i]);
      total := total + LocalCost(i, selected[i]);
    }
    assert selected[..|selected|] == selected;
  }

  // ---- Weights of sets of positions --------------------------------------

  function Positions(p: seq<nat>): set<nat> {
    set i | i in p
  }

  /** The local cost of the cards at some positions, each with a separator. */
  function Weight(cards: seq<Card>, s: set<nat>, n: nat): nat
    requires n <= |cards|
  {
    if n == 0 then 0 else Weight(cards, s, n - 1) + if n - 1 in s then |SEPARATOR| + |cards[n - 1].text| else 0
  }

  lemma {:induction false} WeightGrows(cards: seq<Card>, s: set<nat>, t: set<nat>, n: nat)
    requires n <= |cards| && s <= t
    ensures Weight(cards, s, n) <= Weight(cards, t, n)
  {
    if n > 0 {
      WeightGrows(cards, s, t, n - 1);
    }
  }

  lemma {:induction false} WeightAdd(cards: seq<Card>, s: set<nat>, i: nat, n: nat)
    requires n <= |cards| && i !in s
    ensures Weight(cards, s + {i}, n) == Weight(cards, s, n) + if i < n then |SEPARATOR| + |cards[i].text| else 0
  {
    if n > 0 {
      WeightAdd(cards, s, i, n - 1);
    }
  }

  lemma WeightNone(cards: seq<Card>, n: nat)
    requires n <= |cards|
    ensures Weight(cards, {}, n) == 0
  {
    if n > 0 {
      WeightNone(cards, n - 1);
    }
  }

  lemma PositionsMore(p: seq<nat>, n: nat)
    requires InOrder(p, n)
    ensures Positions(p + [n]) == Positions(p) + {n} && n !in Positions(p) && Positions([]) == {}
  {
    var q := p + [n];
    forall i
      ensures i in Positions(q) <==> i in Positions(p) + {n}
    {
      assert i in q <==> i in p || i == n;
    }
    assert forall i | i in p :: i < n;
  }

  /** A selection's local cost depends on the set of its positions alone. */
  lemma {:induction false} TotalIsWeight(cards: seq<Card>, p: seq<nat>)
    requires InOrder(p, |cards|)
    ensures LocalTotal(Pick(cards, p)) ==
            if p == [] then 0 else |FRAME_PREAMBLE| + 1 - |SEPARATOR| + Weight(cards, Positions(p), |cards|)
  {
    hide Pick, LocalTotal, Weight, Positions, LocalCost;
    if p == [] {
      PlanStart(cards, 0);
    } else {
      var front, last := p[..|p| - 1], p[|p| - 1];
      SplitLast(p, |cards|);
      TotalIsWeight(cards, front);
      PickMore(cards, front, last);
      PickLength(cards, front);
      LocalTotalMore(Pick(cards, front), cards[last]);
      CostOfOne(cards, front, last);
      PositionsMore(front, last);
      WeightAdd(cards, Positions(front), last, |cards|);
      WeightNone(cards, |cards|);
    }
  }

  lemma SplitLast(p: seq<nat>, n: nat)
    requires InOrder(p, n) && p != []
    ensures var front, last := p[..|p| - 1], p[|p| - 1]; InOrder(front, last) && last < n && p == front + [last]
  {
  }

  /** Any selection that holds the plan and one card more is over the budget. */
  lemma PlanMaximal(cards: seq<Card>, budget: int, q: seq<nat>, i: nat)
    requires i < |cards| && i !in Plan(cards, budget) && InOrder(q, |cards|)
    requires Positions(Plan(cards, budget)) <= Positions(q) && i in q
    ensures LocalTotal(Pick(cards, q)) > budget
  {
    hide Pick, LocalTotal, Weight, LocalCost, Render, Greedy, PlanFrom;
    var p := Plan(cards, budget);
    PlanIsGreedy(cards, budget, |cards|);
    GreedyMaximal(cards, budget, FRAME_PREAMBLE, i);
    LocalIsExact(Pick(cards, p) + [cards[i]]);
    LocalTotalMore(Pick(cards, p), cards[i]);
    PickLength(cards, p);
    TotalIsWeight(cards, p);
    TotalIsWeight(cards, q);
    WeightAdd(cards, Positions(p), i, |cards|);
    WeightGrows(cards, Positions(p) + {i}, Positions(q), |cards|);
    CostOfOne(cards, p, i);
    if p == [] {
      assert Positions(p) == {};
      WeightNone(cards, |cards|);
    }
  }

  lemma CostOfOne(cards: seq<Card>, p: seq<nat>, i: nat)
    requires i < |cards|
    ensures LocalCost(|p|, cards[i]) == if p == [] then |FRAME_PREAMBLE| + |cards[i].text| + 1
            else |SEPARATOR| + |cards[i].text|
  {
  }
}
