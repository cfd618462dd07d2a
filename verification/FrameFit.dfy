/** FitKnowledgeFrameCards: at most ten measurements, never over the budget, never
    out of order, and the greedy selection whenever the counter is the rendered
    length (internal/domain/knowledge_frame_card.go). */
module FrameFit {
  import opened Basics
  import opened Cards
  import opened FrameCards

  /** Some of the cards, in the order they came in. */
  ghost predicate Chosen(cards: seq<Card>, selected: seq<Card>) {
    exists p :: InOrder(p, |cards|) && selected == Pick(cards, p)
  }

  // ---- The counter ------------------------------------------------------

  /** countedCost: the cost function and the calls it has answered. The log is
      what was measured. */
  class Counter {
    const cost: Cost
    var calls: nat
    ghost var log: seq<seq<Card>>

    ghost predicate Valid()
      reads this
    {
      calls == |log|
    }

    constructor (cost: Cost)
      ensures Valid() && this.cost == cost && calls == 0
    {
      this.cost := cost;
      calls := 0;
      log := [];
    }

    method Measure(selected: seq<Card>) returns (total: Option<int>)
      requires Valid()
      modifies this
      ensures Valid() && calls == old(calls) + 1 && log == old(log) + [selected]
      ensures total == cost(selected)
    {
      calls := calls + 1;
      log := log + [selected];
      total := cost(selected);
    }

    /** The last measurement failed. */
    ghost predicate Failed()
      reads this
    {
      log != [] && cost(log[|log| - 1]).None?
    }

    /** Only selections of the cards were measured. */
    ghost predicate Sampled(cards: seq<Card>)
      reads this
    {
      Valid() && forall s | s in log :: Chosen(cards, s)
    }
  }

  /** A measured selection of the cards within the budget. */
  ghost predicate Affordable(cards: seq<Card>, budget: int, cost: Cost, selected: seq<Card>) {
    selected != [] ==> Chosen(cards, selected) && cost(selected).Some? && cost(selected).value <= budget
  }

  lemma PlanChosen(cards: seq<Card>, budget: int)
    ensures Chosen(cards, Pick(cards, Plan(cards, budget)))
  {
    assert InOrder(Plan(cards, budget), |cards|);
  }

  // ---- Everything at once ------------------------------------------------

  function Upto(n: nat): (p: seq<nat>)
    ensures InOrder(p, n) && |p| == n
  {
    seq(n, i => i)
  }

  lemma AllChosen(cards: seq<Card>)
    ensures Chosen(cards, cards) && Pick(cards, Upto(|cards|)) == cards
  {
    assert InOrder(Upto(|cards|), |cards|);
  }

  /** The plan under a budget fits it by the local model. */
  lemma PlanFits(cards: seq<Card>, budget: int)
    ensures Plan(cards, budget) != [] ==> LocalTotal(Pick(cards, Plan(cards, budget))) <= budget
  {
    hide Pick, Greedy, Render, LocalTotal, PlanFrom;
    PlanIsGreedy(cards, budget, |cards|);
    GreedyFits(cards, budget, RuneCost(FRAME_PREAMBLE), |cards|);
    LocalIsExact(Pick(cards, Plan(cards, budget)));
  }

  /** When no card fits, all of them together do not. */
  lemma NothingFits(cards: seq<Card>, budget: int)
    requires cards != [] && Plan(cards, budget) == []
    ensures LocalTotal(cards) > budget
  {
    hide Pick, LocalTotal, PlanFrom;
    AllChosen(cards);
    assert Upto(|cards|)[0] == 0;
    assert Positions(Plan(cards, budget)) == {};
    PlanMaximal(cards, budget, Upto(|cards|), 0);
  }

  // ---- Correction --------------------------------------------------------

  datatype Correction = NoPlan | Replanned(plan: seq<Card>, total: int) | Failed

  /** knowledgeFrameCardCorrection: one measurement unless nothing can be inferred. */
  method Correct(cards: seq<Card>, verifySet: seq<Card>, budget: int, total1: int, counter: Counter)
    returns (r: Correction)
    requires counter.Sampled(cards)
    modifies counter
    ensures counter.Sampled(cards)
    ensures r.NoPlan? ==> counter.calls == old(counter.calls) && counter.log == old(counter.log)
    ensures !r.NoPlan? ==> counter.calls == old(counter.calls) + 1 && old(counter.log) <= counter.log
    ensures r.Replanned? ==> counter.log == old(counter.log) + [r.plan] && r.plan != []
                             && counter.cost(r.plan) == Some(r.total)
    ensures r.Failed? ==> counter.Failed()
    ensures Exact(counter.cost) ==> !r.Failed?
    ensures budget > 0 && total1 == LocalTotal(verifySet) > 0 ==>
              if Plan(cards, budget) == [] then r == NoPlan
              else r.Failed? || (r.Replanned? && r.plan == Pick(cards, Plan(cards, budget)))
  {
    hide Pick, LocalTotal, PlanFrom, Chosen;
    var localTotal := SelectionTotal(verifySet);
    if localTotal <= 0 || total1 <= 0 { return NoPlan; }
    var correctedBudget := budget * localTotal / total1;
    if total1 == localTotal { Unscaled(budget, total1); }
    if total1 > budget && correctedBudget >= localTotal {
      correctedBudget := localTotal - 1;
    }
    if correctedBudget <= 0 { return NoPlan; }
    var plan := PlanSelection(cards, correctedBudget);
    PickLength(cards, Plan(cards, correctedBudget));
    if |plan| == 0 { return NoPlan; }
    PlanChosen(cards, correctedBudget);
    var total := counter.Measure(plan);
    if total.None? { return Failed; }
    return Replanned(plan, total.value);
  }

  lemma Unscaled(budget: int, total: int)
    requires total > 0
    ensures budget * total / total == budget
  {
    var q, r := budget * total / total, budget * total % total;
    assert (budget - q) * total == r;
    if budget - q >= 1 {
      Multiples(1, budget - q, total);
    } else if budget - q <= -1 {
      Multiples(budget - q, -1, total);
    }
  }

  lemma Multiples(a: int, b: int, total: int)
    requires a <= b && total > 0
    ensures a * total <= b * total
  {
  }

  // ---- Refinement --------------------------------------------------------

  /** cardsInOriginalOrder, over the first n cards. */
  function KeyPicks(cards: seq<Card>, keys: set<nat>, n: nat): (p: seq<nat>)
    requires n <= |cards|
    ensures InOrder(p, n) && forall i | 0 <= i < n :: i in p <==> cards[i].key in keys
  {
    if n == 0 then []
    else if cards[n - 1].key in keys then KeyPicks(cards, keys, n - 1) + [n - 1]
    else KeyPicks(cards, keys, n - 1)
  }

  method CardsInOriginalOrder(cards: seq<Card>, included: set<nat>) returns (ordered: seq<Card>)
    ensures ordered == Pick(cards, KeyPicks(cards, included, |cards|))
  {
    hide Pick;
    ordered := [];
    PickNone(cards);
    for i := 0 to |cards|
      invariant InOrder(KeyPicks(cards, included, i), |cards|) && ordered == Pick(cards, KeyPicks(cards, included, i))
    {
      PickMore(cards, KeyPicks(cards, included, i), i);
      if cards[i].key in included { ordered := ordered + [cards[i]]; }
    }
  }

  function KeysOf(cards: seq<Card>): set<nat> {
    set c | c in cards :: c.key
  }

  function Insert(card: Card, sorted: seq<Card>): seq<Card> {
    if sorted == [] || LocalCost(0, card) <= LocalCost(0, sorted[0]) then [card] + sorted
    else [sorted[0]] + Insert(card, sorted[1..])
  }

  /** The stable sort of the missing cards by their local cost. */
  function CheapestFirst(cards: seq<Card>): seq<Card> {
    if cards == [] then [] else Insert(cards[0], CheapestFirst(cards[1..]))
  }

  predicate Ascending(cards: seq<Card>) {
    forall i, j | 0 <= i < j < |cards| :: LocalCost(0, cards[i]) <= LocalCost(0, cards[j])
  }

  lemma {:induction false} InsertKeeps(card: Card, sorted: seq<Card>)
    requires Ascending(sorted)
    ensures Ascending(Insert(card, sorted)) && multiset(Insert(card, sorted)) == multiset(sorted) + multiset{card}
    ensures |Insert(card, sorted)| == |sorted| + 1
    ensures Insert(card, sorted)[0] == card || (sorted != [] && Insert(card, sorted)[0] == sorted[0])
  {
    hide LocalCost;
    if sorted != [] && LocalCost(0, card) > LocalCost(0, sorted[0]) {
      var rest := Insert(card, sorted[1..]);
      InsertKeeps(card, sorted[1..]);
      assert sorted == [sorted[0]] + sorted[1..];
      Leads(sorted[0], card, sorted[1..], rest);
    }
  }

  lemma Leads(first: Card, card: Card, tail: seq<Card>, rest: seq<Card>)
    requires Ascending([first] + tail) && Ascending(rest) && LocalCost(0, first) <= LocalCost(0, card)
    requires rest != [] && (rest[0] == card || (tail != [] && rest[0] == tail[0]))
    ensures Ascending([first] + rest)
  {
    hide LocalCost;
    if tail != [] {
      assert ([first] + tail)[0] == first && ([first] + tail)[1] == tail[0];
    }
  }

  lemma {:induction false} SortKeeps(cards: seq<Card>)
    ensures Ascending(CheapestFirst(cards)) && multiset(CheapestFirst(cards)) == multiset(cards)
  {
    hide LocalCost, Ascending, Insert;
    if cards == [] {
      AscendingNone();
    } else {
      SortKeeps(cards[1..]);
      InsertKeeps(cards[0], CheapestFirst(cards[1..]));
      CountHead(cards);
    }
  }

  lemma CountHead(cards: seq<Card>)
    requires cards != []
    ensures multiset(cards) == multiset(cards[1..]) + multiset{cards[0]}
  {
    assert cards == [cards[0]] + cards[1..];
  }

  lemma AscendingNone()
    ensures Ascending([])
  {
  }

  lemma SortMembers(cards: seq<Card>, card: Card)
    requires card in CheapestFirst(cards)
    ensures card in cards
  {
    SortKeeps(cards);
    assert card in multiset(CheapestFirst(cards));
  }

  method MissingCards(cards: seq<Card>, included: set<nat>) returns (missing: seq<Card>)
    ensures forall c | c in missing :: c in cards && c.key !in included
  {
    missing := [];
    for i := 0 to |cards|
      invariant forall c | c in missing :: c in cards && c.key !in included
    {
      if cards[i].key !in included { missing := missing + [cards[i]]; }
    }
  }

  method KeysIn(cards: seq<Card>) returns (keys: set<nat>)
    ensures keys == KeysOf(cards)
  {
    keys := {};
    for i := 0 to |cards|
      invariant keys == KeysOf(cards[..i])
    {
      assert cards[..i + 1] == cards[..i] + [cards[i]];
      keys := keys + {cards[i].key};
    }
    assert cards[..|cards|] == cards;
  }

  /** A fitting selection and what refinement may make of it: it stays in order,
      within the budget, and loses no payload. */
  ghost predicate Refined(cards: seq<Card>, budget: int, cost: Cost, initial: seq<Card>, best: seq<Card>) {
    Chosen(cards, best) && cost(best).Some? && cost(best).value <= budget && KeysOf(initial) <= KeysOf(best)
  }

  /** refineKnowledgeFrameCardSelection. */
  method Refine(cards: seq<Card>, initial: seq<Card>, budget: int, maxCalls: nat, counter: Counter) returns (r: Fit)
    requires counter.Sampled(cards) && initial in counter.log
    requires Refined(cards, budget, counter.cost, initial, initial)
    modifies counter
    ensures counter.Sampled(cards) && counter.calls <= old(counter.calls) + maxCalls && old(counter.log) <= counter.log
    ensures r.Fitted? ==> Refined(cards, budget, counter.cost, initial, r.selected) && r.selected in counter.log
    ensures r.CostFailed? ==> counter.Failed()
    ensures Exact(counter.cost) && initial == Pick(cards, Plan(cards, budget)) ==> r == Fitted(initial)
  {
    hide Pick, Plan, Chosen, CheapestFirst, KeysOf;
    var best := initial;
    var included := KeysIn(best);
    var missing := MissingCards(cards, included);
    var queue := CheapestFirst(missing);
    var limit := counter.calls + maxCalls;
    var failures := 0;
    for i := 0 to |queue|
      invariant counter.Sampled(cards) && counter.calls <= limit && old(counter.log) <= counter.log
      invariant best in counter.log && KeysOf(initial) <= included
      invariant Refined(cards, budget, counter.cost, initial, best)
      invariant Exact(counter.cost) && initial == Pick(cards, Plan(cards, budget)) ==>
                  best == initial && included == KeysOf(initial)
    {
      if counter.calls >= limit || failures >= MAX_FAILURES { break; }
      var candidate := queue[i];
      SortMembers(missing, candidate);
      var attempt := CardsInOriginalOrder(cards, included + {candidate.key});
      AttemptKeeps(cards, budget, included, candidate, initial, attempt);
      var total := counter.Measure(attempt);
      if total.None? { return CostFailed; }
      if total.value <= budget {
        included := included + {candidate.key};
        best := attempt;
        failures := 0;
        continue;
      }
      included := included - {candidate.key};
      failures := failures + 1;
    }
    return Fitted(best);
  }

  lemma AttemptKeeps(cards: seq<Card>, budget: int, included: set<nat>, candidate: Card, initial: seq<Card>,
                     attempt: seq<Card>)
    requires attempt == Pick(cards, KeyPicks(cards, included + {candidate.key}, |cards|))
    requires KeysOf(initial) <= included && Chosen(cards, initial)
    requires candidate in cards && candidate.key !in KeysOf(initial)
    ensures Chosen(cards, attempt) && KeysOf(initial) <= KeysOf(attempt)
    ensures initial == Pick(cards, Plan(cards, budget)) ==> LocalTotal(attempt) > budget
  {
    hide Plan, LocalTotal;
    var q := KeyPicks(cards, included + {candidate.key}, |cards|);
    assert InOrder(q, |cards|);
    forall k | k in KeysOf(initial)
      ensures k in KeysOf(attempt)
    {
      KeyStays(cards, q, included + {candidate.key}, initial, k);
    }
    if initial == Pick(cards, Plan(cards, budget)) {
      AttemptTooDear(cards, budget, included, candidate, q);
    }
  }

  lemma KeyStays(cards: seq<Card>, q: seq<nat>, keys: set<nat>, initial: seq<Card>, k: nat)
    requires q == KeyPicks(cards, keys, |cards|) && Chosen(cards, initial) && k in KeysOf(initial) && k in keys
    ensures k in KeysOf(Pick(cards, q))
  {
    var p :| InOrder(p, |cards|) && initial == Pick(cards, p);
    var c :| c in initial && c.key == k;
    var j :| 0 <= j < |initial| && initial[j] == c;
    assert p[j] in q;
    var m :| 0 <= m < |q| && q[m] == p[j];
    assert Pick(cards, q)[m] == c;
  }

  /** By the local model, no attempt beyond the plan fits. */
  lemma AttemptTooDear(cards: seq<Card>, budget: int, included: set<nat>, candidate: Card, q: seq<nat>)
    requires q == KeyPicks(cards, included + {candidate.key}, |cards|)
    requires KeysOf(Pick(cards, Plan(cards, budget))) <= included
    requires candidate in cards && candidate.key !in KeysOf(Pick(cards, Plan(cards, budget)))
    ensures LocalTotal(Pick(cards, q)) > budget
  {
    hide LocalTotal, PlanFrom, KeyPicks;
    var p := Plan(cards, budget);
    forall m | 0 <= m < |p|
      ensures p[m] in q && cards[p[m]].key in KeysOf(Pick(cards, p))
    {
      assert Pick(cards, p)[m] == cards[p[m]];
      assert cards[p[m]] in Pick(cards, p);
    }
    var i :| 0 <= i < |cards| && cards[i] == candidate;
    PlanMaximal(cards, budget, q, i);
  }

  // ---- The whole selection -----------------------------------------------

  /** FitKnowledgeFrameCards, with the counter it measured by. */
  method FitKnowledgeFrameCards(cards: seq<Card>, budget: int, given: Option<Cost>) returns (r: Fit, counter: Counter)
    ensures fresh(counter) && counter.cost == CostOf(given)
    ensures counter.Sampled(cards) && counter.calls <= MAX_CALLS
    ensures budget <= 0 || cards == [] ==> r == Fitted([]) && counter.calls == 0
    ensures r.Fitted? ==> Affordable(cards, budget, counter.cost, r.selected)
    ensures r.Fitted? && r.selected != [] ==> r.selected in counter.log
    ensures r.CostFailed? ==> counter.Failed()
    ensures Exact(counter.cost) && budget > 0 ==>
              && Greedy(cards, budget, counter.cost, |cards|).Some?
              && r == Fitted(Pick(cards, Greedy(cards, budget, counter.cost, |cards|).value))
  {
    hide Greedy, Pick, Plan, Chosen, LocalTotal, CostOf, KeysOf;
    if Exact(CostOf(given)) { ExactIsGreedy(cards, budget, CostOf(given)); }
    counter := new Counter(CostOf(given));
    if budget <= 0 || |cards| == 0 {
      EmptyPlan(cards, budget);
      return Fitted([]), counter;
    }
    var plan := PlanSelection(cards, budget);
    PlanFacts(cards, budget);
    AllChosen(cards);
    var substituted := |plan| == 0;
    var verifySet := if substituted then cards else plan;
    var total := counter.Measure(verifySet);
    if total.None? { return CostFailed, counter; }
    var fits := total.value <= budget;
    var safe, safeFits := verifySet, fits;
    if substituted && !fits { safe, safeFits := [], true; }
    var skipToRefine := (!substituted && fits && |plan| == |cards|) || (substituted && fits);
    if !skipToRefine {
      var failed;
      failed, safe, safeFits := CorrectTwice(cards, verifySet, budget, total.value, counter, safe, safeFits);
      if failed { return CostFailed, counter; }
    }
    if !safeFits { return Fitted([]), counter; }
    if counter.calls >= MAX_CALLS || |safe| == 0 { return Fitted(safe), counter; }
    r := Refine(cards, safe, budget, MAX_CALLS - counter.calls, counter);
  }

  function CostOf(counter: Option<Cost>): Cost {
    if counter.None? then RuneCost(FRAME_PREAMBLE) else counter.value
  }

  /** Under a counter that is the local model the plan is the greedy selection;
      the default counter is one. */
  lemma ExactIsGreedy(cards: seq<Card>, budget: int, cost: Cost)
    requires Exact(cost)
    ensures Greedy(cards, budget, cost, |cards|) == Some(Plan(cards, budget))
    ensures Exact(CostOf(None))
  {
    hide Greedy, PlanFrom, Render, LocalTotal;
    DefaultIsExact();
    SameGreedy(cards, budget, cost, RuneCost(FRAME_PREAMBLE), |cards|);
    PlanIsGreedy(cards, budget, |cards|);
  }

  lemma EmptyPlan(cards: seq<Card>, budget: int)
    ensures cards == [] ==> Pick(cards, Plan(cards, budget)) == []
  {
  }

  lemma PlanFacts(cards: seq<Card>, budget: int)
    requires cards != [] && budget > 0
    ensures var plan := Pick(cards, Plan(cards, budget));
            && Chosen(cards, plan) && (plan == [] <==> Plan(cards, budget) == []) && |plan| == |Plan(cards, budget)|
            && LocalTotal(plan) <= budget && (plan == [] ==> LocalTotal(cards) > budget)
            && (plan != [] ==> LocalTotal(plan) > 0) && LocalTotal(cards) > 0
  {
    hide Pick, LocalTotal, Plan;
    PlanChosen(cards, budget);
    PickLength(cards, Plan(cards, budget));
    PlanFits(cards, budget);
    if Plan(cards, budget) == [] {
      NothingFits(cards, budget);
      PlanStart(cards, budget);
    } else {
      TotalPositive(Pick(cards, Plan(cards, budget)));
    }
    TotalPositive(cards);
  }

  lemma TotalPositive(selected: seq<Card>)
    requires selected != []
    ensures LocalTotal(selected) > 0
  {
    LocalIsExact(selected);
  }

  /** Both correction rounds; the second is calibrated on the first one's result. */
  method CorrectTwice(cards: seq<Card>, verifySet: seq<Card>, budget: int, total1: int, counter: Counter,
                      safe0: seq<Card>, safeFits0: bool)
    returns (failed: bool, safe: seq<Card>, safeFits: bool)
    requires budget > 0 && counter.Sampled(cards) && counter.cost(verifySet) == Some(total1)
    requires safeFits0 ==> Affordable(cards, budget, counter.cost, safe0) && (safe0 != [] ==> safe0 in counter.log)
    modifies counter
    ensures counter.Sampled(cards) && old(counter.calls) <= counter.calls <= old(counter.calls) + 2
    ensures failed ==> counter.Failed()
    ensures !failed && safeFits ==>
              Affordable(cards, budget, counter.cost, safe) && (safe != [] ==> safe in counter.log)
    ensures Exact(counter.cost) && LocalTotal(verifySet) > 0
            && LocalTotal(Pick(cards, Plan(cards, budget))) <= budget ==>
              !failed && if Plan(cards, budget) == [] then safe == safe0 && safeFits == safeFits0
                         else safe == Pick(cards, Plan(cards, budget)) && safeFits
  {
    hide Pick, Plan, Chosen, LocalTotal;
    safe, safeFits, failed := safe0, safeFits0, false;
    var second := Correct(cards, verifySet, budget, total1, counter);
    if second.NoPlan? { return; }
    if second.Failed? { return true, safe, safeFits; }
    TotalPositive(second.plan);
    if second.total <= budget { safe, safeFits := second.plan, true; }
    if second.total > budget || (|second.plan| != |cards| && second.total != budget) {
      var third := Correct(cards, second.plan, budget, second.total, counter);
      if third.NoPlan? { return; }
      if third.Failed? { return true, safe, safeFits; }
      if third.total <= budget { safe, safeFits := third.plan, true; }
    }
  }
}
