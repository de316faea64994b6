/**
 The prompt budget of `token_budget.py` and the history window of `ray_prompt.py`. Texts count by their
 length; a token is exactly 33/10 characters.
 */
module PromptBudget {
  import opened Common

  const MESSAGE_OVERHEAD: nat := 6
  const HISTORY_FLOOR: nat := 400
  const MIN_RAG_CHARS: nat := 1500

  function MaxInt(x: int, y: int): int {
    if x < y then y else x
  }

  function MinInt(x: int, y: int): int {
    if x < y then x else y
  }

  /** `tokens`: the characters over 33/10, rounded down, and one more. */
  function Tokens(length: nat): (t: nat)
    ensures t >= 1 && 10 * length < 33 * t && 33 * (t - 1) <= 10 * length
  {
    10 * length / 33 + 1
  }

  /** A setting as stored: absent, not a number, or a number. */
  datatype Setting = Absent | NotANumber | Number(n: int)

  datatype Settings = Settings(numCtx: Setting, numPredict: Setting)

  function Num(value: Setting, byDefault: Setting, fallback: int): int {
    match if value.Absent? then byDefault else value
    case Number(n) => n
    case _ => fallback
  }

  /** `prompt_budget`. */
  function Budget(settings: Settings, defaults: Settings): (b: int)
    ensures b >= 512
  {
    MaxInt(512, Num(settings.numCtx, defaults.numCtx, 4096) - Num(settings.numPredict, defaults.numPredict, 1024))
  }

  function TokensOfAll(lengths: seq<nat>): nat {
    if lengths == [] then 0 else Tokens(lengths[0]) + TokensOfAll(lengths[1..])
  }

  /** Tokens left for passages once the fixed texts, the question and the history's floor have theirs. */
  function Left(budget: int, fixed: seq<nat>, question: nat): int {
    budget - TokensOfAll(fixed) - Tokens(question) - HISTORY_FLOOR - 3 * MESSAGE_OVERHEAD
  }

  /** `int(left * 3.3)`: rounded towards zero. */
  function CharsOf(left: int): int {
    if left >= 0 then 33 * left / 10 else -(33 * -left / 10)
  }

  /** `rag_char_budget`. */
  function RagChars(budget: int, fixed: seq<nat>, question: nat, cap: int): int {
    MaxInt(MIN_RAG_CHARS, MinInt(cap, CharsOf(Left(budget, fixed, question))))
  }

  // ---------- History ----------

  /** A stored message: its identifier and the length of its content. */
  datatype Message = Message(id: int, length: nat)

  function Cost(m: Message): (c: nat)
    ensures c > MESSAGE_OVERHEAD
  {
    Tokens(m.length) + MESSAGE_OVERHEAD
  }

  function CostOfAll(history: seq<Message>): nat {
    if history == [] then 0 else Cost(history[0]) + CostOfAll(history[1..])
  }

  function Newest(history: seq<Message>, n: nat): seq<Message>
    requires n <= |history|
  {
    history[|history| - n..]
  }

  lemma NewestStep(history: seq<Message>, n: nat)
    requires n < |history|
    ensures Newest(history, n + 1) == [history[|history| - n - 1]] + Newest(history, n)
    ensures CostOfAll(Newest(history, n + 1)) == Cost(history[|history| - n - 1]) + CostOfAll(Newest(history, n))
  {
    assert Newest(history, n + 1)[1..] == Newest(history, n);
  }

  /** Older turns only add to the cost. */
  lemma {:induction false} CostGrows(history: seq<Message>, m: nat, n: nat)
    requires m <= n <= |history|
    ensures CostOfAll(Newest(history, m)) <= CostOfAll(Newest(history, n))
    ensures m < n ==> CostOfAll(Newest(history, m)) < CostOfAll(Newest(history, n))
    decreases n
  {
    if m < n {
      CostGrows(history, m, n - 1);
      NewestStep(history, n - 1);
    }
  }

  /** The newest `n` turns fit beside what is used already. */
  predicate Fits(history: seq<Message>, n: nat, used: int, budget: int)
    requires n <= |history|
  {
    used + CostOfAll(Newest(history, n)) <= budget
  }

  function Base(system: nat, question: nat): nat {
    Tokens(system) + Tokens(question) + 2 * MESSAGE_OVERHEAD
  }

  datatype Info = Info(budget: int, estimated: int, kept: nat, dropped: nat, over: bool)

  /** `fit_history`: exactly the longest suffix that fits; none when not even the empty one does. */
  method FitHistory(system: nat, question: nat, history: seq<Message>, settings: Settings, defaults: Settings)
    returns (kept: seq<Message>, info: Info)
    ensures |kept| <= |history| && kept == Newest(history, |kept|)
    ensures var base, budget := Base(system, question), Budget(settings, defaults);
            && (base <= budget ==> Fits(history, |kept|, base, budget))
            && (base > budget ==> kept == [])
            && (forall n: nat | |kept| < n <= |history| :: !Fits(history, n, base, budget))
    ensures info == Info(Budget(settings, defaults), Base(system, question) + CostOfAll(kept), |kept|,
                         |history| - |kept|, Base(system, question) + CostOfAll(kept) > Budget(settings, defaults))
  {
    hide Tokens, Budget, CostOfAll;
    var budget := Budget(settings, defaults);
    var used := Tokens(system) + Tokens(question) + 2 * MESSAGE_OVERHEAD;
    kept := [];
    var n := 0;
    NoCost();
    while n < |history|
      invariant 0 <= n <= |history| && kept == Newest(history, n)
      invariant used == Base(system, question) + CostOfAll(kept)
      invariant n > 0 ==> used <= budget
    {
      var msg := history[|history| - n - 1];
      NewestStep(history, n);
      if used + Cost(msg) > budget { break; }
      kept := [msg] + kept;
      used := used + Cost(msg);
      n := n + 1;
    }
    forall k: nat | n < k <= |history|
      ensures !Fits(history, k, Base(system, question), budget)
    {
      CostGrows(history, n + 1, k);
    }
    info := Info(budget, used, |kept|, |history| - |kept|, used > budget);
  }

  lemma NoCost()
    ensures CostOfAll([]) == 0
  {
  }

  /** What the contract of `FitHistory` says of the number of turns kept. */
  ghost predicate IsLongestFit(history: seq<Message>, n: nat, base: int, budget: int) {
    && n <= |history| && (base <= budget ==> Fits(history, n, base, budget)) && (base > budget ==> n == 0)
    && forall k: nat | n < k <= |history| :: !Fits(history, k, base, budget)
  }

  /** There is only one such number, and every suffix that fits is part of it. */
  lemma LongestFitCovers(history: seq<Message>, n: nat, m: nat, base: int, budget: int)
    requires IsLongestFit(history, n, base, budget) && m <= |history|
    ensures base <= budget ==> (Fits(history, m, base, budget) <==> m <= n)
    ensures IsLongestFit(history, m, base, budget) ==> m == n
  {
    if m <= n { CostGrows(history, m, n); }
    if IsLongestFit(history, m, base, budget) && base <= budget { assert Fits(history, m, base, budget); }
  }

  // ---------- The floor under the history ----------

  function Sum(lengths: seq<nat>): nat {
    if lengths == [] then 0 else lengths[0] + Sum(lengths[1..])
  }

  /** Counting the parts on their own never counts less. */
  lemma {:induction false} PartsCover(fixed: seq<nat>)
    ensures 10 * Sum(fixed) <= 33 * TokensOfAll(fixed)
  {
    if fixed != [] { PartsCover(fixed[1..]); }
  }

  /** The system text is the fixed texts and the passages together; of the history the longest fitting
      suffix is kept, `n` turns, and it leaves out some of the newest `m`, which cost at most 400 tokens. */
  ghost predicate DropsShortRun(budget: int, fixed: nat, question: nat, passages: nat,
                                history: seq<Message>, n: nat, m: nat) {
    && n < m <= |history| && CostOfAll(Newest(history, m)) <= HISTORY_FLOOR
    && IsLongestFit(history, n, Base(fixed + passages, question), budget)
  }

  /** Whatever passages stay within their budget and whatever the history is, every run of newest turns
      costing at most 400 tokens is kept. */
  ghost predicate FloorKept(budget: int, fixed: seq<nat>, question: nat, cap: int) {
    forall passages: nat, history: seq<Message>, n: nat, m: nat | passages <= RagChars(budget, fixed, question, cap) ::
      !DropsShortRun(budget, Sum(fixed), question, passages, history, n, m)
  }

  /** The history keeps its floor exactly when a system text with all the passages allowed leaves 400
      tokens. */
  lemma HistoryKeepsItsFloor(budget: int, fixed: seq<nat>, question: nat, cap: int)
    ensures FloorKept(budget, fixed, question, cap)
            <==> Base(Sum(fixed) + RagChars(budget, fixed, question, cap), question) + HISTORY_FLOOR <= budget
  {
    var most, sum := RagChars(budget, fixed, question, cap), Sum(fixed);
    if Base(sum + most, question) + HISTORY_FLOOR <= budget {
      forall passages: nat, history: seq<Message>, n: nat, m: nat | passages <= most
        ensures !DropsShortRun(budget, sum, question, passages, history, n, m)
      {
        FewerPassages(sum, passages, most, question);
        if DropsShortRun(budget, sum, question, passages, history, n, m) {
          LongestFitCovers(history, n, m, Base(sum + passages, question), budget);
        }
      }
    } else {
      OneTurnDropped(Base(sum + most, question), budget);
      assert DropsShortRun(budget, sum, question, most, LONG_TURN, 0, 1);
    }
  }

  lemma FewerPassages(fixed: nat, passages: nat, most: nat, question: nat)
    requires passages <= most
    ensures Base(fixed + passages, question) <= Base(fixed + most, question)
  {
  }

  /** A turn of exactly 400 tokens. */
  const LONG_TURN: seq<Message> := [Message(1, 1297)]

  lemma OneTurnDropped(base: int, budget: int)
    requires base + HISTORY_FLOOR > budget
    ensures |LONG_TURN| == 1 && CostOfAll(Newest(LONG_TURN, 1)) == HISTORY_FLOOR
    ensures IsLongestFit(LONG_TURN, 0, base, budget)
  {
    assert Newest(LONG_TURN, 1) == LONG_TURN && LONG_TURN[1..] == [] && Newest(LONG_TURN, 0) == [];
    assert Tokens(1297) == 394;
    assert CostOfAll(LONG_TURN) == 400;
    assert !Fits(LONG_TURN, 1, base, budget);
  }

  /** It does keep it whenever the passages' budget is not the minimum but what is left. */
  lemma AboveTheMinimum(budget: int, fixed: seq<nat>, question: nat, cap: int)
    requires CharsOf(Left(budget, fixed, question)) >= MIN_RAG_CHARS
    ensures FloorKept(budget, fixed, question, cap)
  {
    var left, most := Left(budget, fixed, question), RagChars(budget, fixed, question, cap);
    PartsCover(fixed);
    assert 10 * most <= 33 * left;
    assert 10 * (Sum(fixed) + most) <= 33 * (TokensOfAll(fixed) + left);
    assert Tokens(Sum(fixed) + most) <= TokensOfAll(fixed) + left + 1;
    HistoryKeepsItsFloor(budget, fixed, question, cap);
  }

  /** At the minimum it can fail: 512 tokens and nothing fixed. */
  lemma MinimumCrowdsOut(cap: int)
    ensures RagChars(512, [], 0, cap) == 1500 && !FloorKept(512, [], 0, cap)
  {
    assert Tokens(1500) == 455 && Sum([]) == 0;
    HistoryKeepsItsFloor(512, [], 0, cap);
  }

  // ---------- The sticky window ----------

  predicate IdsIncrease(rows: seq<Message>) {
    forall i, j :: 0 <= i < j < |rows| ==> rows[i].id < rows[j].id
  }

  /** `[r for r in rows if r["id"] >= start]`. */
  function From(rows: seq<Message>, start: int): seq<Message> {
    if rows == [] then []
    else (if rows[0].id >= start then [rows[0]] else []) + From(rows[1..], start)
  }

  /** `sticky_history`; `fits` says whether a window fits the budget. */
  function StickyHistory(rows: seq<Message>, kept: seq<Message>, start: Option<int>,
                         fits: seq<Message> -> bool, most: nat): (seq<Message>, Option<int>)
  {
    var candidate := if start.Some? then From(rows, start.value) else [];
    if kept != [] && start.Some? && candidate != [] && candidate[0].id <= kept[0].id
       && |candidate| <= most && fits(candidate)
    then (candidate, start)
    else (kept, if kept == [] then None else Some(kept[0].id))
  }

  lemma {:induction false} FromAll(rows: seq<Message>, start: int)
    requires forall i :: 0 <= i < |rows| ==> rows[i].id >= start
    ensures From(rows, start) == rows
  {
    if rows != [] { FromAll(rows[1..], start); }
  }

  /** With identifiers in order, the messages from one on are a suffix. */
  lemma {:induction false} FromIsSuffix(rows: seq<Message>, start: int) returns (n: nat)
    requires IdsIncrease(rows)
    ensures n <= |rows| && From(rows, start) == Newest(rows, n)
    ensures n > 0 ==> rows[|rows| - n].id >= start
    ensures n < |rows| ==> rows[|rows| - n - 1].id < start
  {
    hide From;
    if rows == [] || rows[0].id >= start {
      forall i | 0 <= i < |rows|
        ensures rows[i].id >= start
      {
        if i > 0 { assert rows[0].id < rows[i].id; }
      }
      FromAll(rows, start);
      return |rows|;
    } else {
      var tail := rows[1..];
      assert IdsIncrease(tail);
      hide IdsIncrease;
      n := FromIsSuffix(tail, start);
      FromDrops(rows, start);
      assert Newest(rows, n) == Newest(tail, n);
      if n < |tail| { assert rows[|rows| - n - 1] == tail[|tail| - n - 1]; }
    }
  }

  lemma FromDrops(rows: seq<Message>, start: int)
    requires rows != [] && rows[0].id < start
    ensures From(rows, start) == From(rows[1..], start)
  {
  }

  /** The window chosen is a suffix of the stored messages that covers what would be sent anyway; when it
      covers more, it starts where the last one did, fits the budget and keeps to its length. */
  lemma StickyCoversDefault(rows: seq<Message>, n: nat, start: Option<int>, fits: seq<Message> -> bool, most: nat)
    returns (m: nat)
    requires IdsIncrease(rows) && n <= |rows|
    ensures n <= m <= |rows| && StickyHistory(rows, Newest(rows, n), start, fits, most).0 == Newest(rows, m)
    ensures m > n ==> fits(Newest(rows, m)) && m <= most
                      && start.Some? && StickyHistory(rows, Newest(rows, n), start, fits, most).1 == start
                      && rows[|rows| - m].id >= start.value
    ensures m > 0 && m == n ==> var begun := StickyHistory(rows, Newest(rows, n), start, fits, most).1;
                                begun.Some? && begun.value <= rows[|rows| - m].id
  {
    var kept := Newest(rows, n);
    m := n;
    if n > 0 && start.Some? {
      var c := FromIsSuffix(rows, start.value);
      var candidate := Newest(rows, c);
      if c > 0 && candidate[0].id <= kept[0].id && c <= most && fits(candidate) {
        m := c;
        EarlierIsLonger(rows, n, c);
      }
    }
    hide From, IdsIncrease;
  }

  lemma EarlierIsLonger(rows: seq<Message>, n: nat, c: nat)
    requires IdsIncrease(rows) && 0 < n <= |rows| && 0 < c <= |rows|
    requires rows[|rows| - c].id <= rows[|rows| - n].id
    ensures n <= c
  {
  }
}
