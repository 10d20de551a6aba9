/** How the reuse threshold moves over a run of comparisons: told from their outcomes alone. */
module Thresholds {
  import opened Heap
  import opened BankState
  import opened DeviceSteps
  import opened FtlSteps
  import opened Nand

  /** How the least count compares with the mean of the last five victims. */
  datatype Outcome = Below | Level | Above

  function Compare(window: seq<nat>, least: nat): Outcome
    requires |window| == 5
  {
    var total := window[0] + window[1] + window[2] + window[3] + window[4];
    if 5 * least < total then Below else if 5 * least > total then Above else Level
  }

  function Opposite(o: Outcome): Outcome {
    match o
    case Below => Above
    case Level => Level
    case Above => Below
  }

  /** The outcomes o since the last opposite one, outcomes that are level not counted. */
  function Streak(outcomes: seq<Outcome>, o: Outcome): nat {
    if |outcomes| == 0 then 0
    else
      var last, before := outcomes[|outcomes| - 1], outcomes[..|outcomes| - 1];
      if last == o then Streak(before, o) + 1 else if last == Opposite(o) then 0 else Streak(before, o)
  }

  /** The last of the outcomes is o and completes seven of them, or a multiple, without an opposite one between them. */
  predicate Completes(outcomes: seq<Outcome>, o: Outcome) {
    |outcomes| > 0 && outcomes[|outcomes| - 1] == o && Streak(outcomes, o) % 7 == 0
  }

  /** The threshold after the last of the outcomes, if it was hotFirst before it. */
  function After(hotFirst: nat, outcomes: seq<Outcome>): int {
    if Completes(outcomes, Below) && hotFirst != MAX_HOT_FIRST then hotFirst + 1
    else if Completes(outcomes, Above) && hotFirst != MIN_HOT_FIRST then hotFirst - 1
    else hotFirst
  }

  /** The threshold after a run of comparisons, if it was 8 at first. */
  function Tuned(outcomes: seq<Outcome>): (hotFirst: nat)
    ensures MIN_HOT_FIRST <= hotFirst <= MAX_HOT_FIRST
  {
    if |outcomes| == 0 then 8 else After(Tuned(outcomes[..|outcomes| - 1]), outcomes)
  }

  /** The registers are what the comparisons have made of them. */
  predicate InTune(a: Adaptive, outcomes: seq<Outcome>) {
    a.hotFirst == Tuned(outcomes) && a.ups == Streak(outcomes, Below) % 7 && a.downs == Streak(outcomes, Above) % 7
  }

  /** Only the window may have changed. */
  predicate SameThreshold(a: Adaptive, r: Adaptive) {
    r.hotFirst == a.hotFirst && r.ups == a.ups && r.downs == a.downs
  }

  lemma ThresholdSelf(a: Adaptive)
    ensures SameThreshold(a, a)
  {
  }

  lemma StaysInTune(a: Adaptive, r: Adaptive, outcomes: seq<Outcome>)
    requires InTune(a, outcomes) && SameThreshold(a, r)
    ensures InTune(r, outcomes)
  {
  }

  ghost predicate AllInTune(banks: seq<Bank>, outcomes: seq<seq<Outcome>>) {
    |outcomes| == |banks| && forall j: nat {:trigger banks[j]} :: j < |banks| ==> InTune(banks[j].adapt, outcomes[j])
  }

  lemma InTuneOf(banks: seq<Bank>, outcomes: seq<seq<Outcome>>, b: nat)
    requires AllInTune(banks, outcomes) && b < |banks|
    ensures |outcomes| == |banks| && InTune(banks[b].adapt, outcomes[b])
  {
  }

  /** A step on bank b leaves the thresholds of the others. */
  lemma InTuneStep(bs: seq<Bank>, f: seq<seq<Outcome>>, cs: seq<Bank>, g: seq<seq<Outcome>>, b: nat)
    requires AllInTune(bs, f) && Longer(f, g, b) && |cs| == |bs| && b < |cs|
    requires forall j: nat {:trigger cs[j]} :: j < |cs| && j != b ==> cs[j] == bs[j]
    requires (cs[b].adapt == bs[b].adapt && g == f) || InTune(cs[b].adapt, g[b])
    ensures AllInTune(cs, g)
  {
    hide InTune;
  }

  lemma StartsInTune(blks: nat, s: Bank)
    requires HandedOut(blks, s)
    ensures InTune(s.adapt, [])
  {
  }

  /** The comparison that the reuse condition makes, if it comes to one. */
  function Compared(s: Bank): seq<Outcome>
    requires |s.adapt.window| == 5
  {
    if VictimCount(s.first) == HIGH_CHUNKS then [] else [Compare(s.adapt.window, LeastCount(s))]
  }

  lemma ComparedInTune(s: Bank, r: Adaptive, outcomes: seq<Outcome>)
    requires AdaptiveOk(s) && ReuseOutcome(s, r) && InTune(s.adapt, outcomes)
    ensures InTune(r, outcomes + Compared(s))
  {
    hide VictimCount, LeastCount, Streak, Adapts;
    if VictimCount(s.first) == HIGH_CHUNKS {
      assert outcomes + [] == outcomes;
    } else {
      var more := outcomes + [Compare(s.adapt.window, LeastCount(s))];
      assert s.adapt.(window := s.adapt.window) == s.adapt && more[..|more| - 1] == outcomes;
      Step(s.adapt, s.adapt.window, LeastCount(s), r, outcomes);
    }
  }

  /** A run of comparisons: before comparison i the registers are regs[i], but for the window, which the collector may
      have shifted to windows[i]; the least count is least[i]. */
  ghost predicate Comparisons(regs: seq<Adaptive>, windows: seq<seq<nat>>, least: seq<nat>) {
    && |regs| == |least| + 1 && |windows| == |least|
    && forall i: nat {:trigger windows[i]} :: i < |least| ==>
         |windows[i]| == 5 && Adapts(regs[i].(window := windows[i]), least[i], regs[i + 1])
  }

  function Outcomes(windows: seq<seq<nat>>, least: seq<nat>, n: nat): (outcomes: seq<Outcome>)
    requires n <= |windows| && n <= |least| && forall i: nat {:trigger windows[i]} :: i < n ==> |windows[i]| == 5
    ensures |outcomes| == n
  {
    if n == 0 then [] else Outcomes(windows, least, n - 1) + [Compare(windows[n - 1], least[n - 1])]
  }

  lemma SumOfFive(w: seq<nat>)
    requires |w| == 5
    ensures Sum(w) == w[0] + w[1] + w[2] + w[3] + w[4]
  {
    assert w[..4][..3] == w[..3] && w[..3][..2] == w[..2] && w[..2][..1] == w[..1] && w[..1][..0] == [];
    assert Sum([]) == 0;
    assert Sum(w[..1]) == w[0];
    assert Sum(w[..2]) == Sum(w[..1]) + w[1];
    assert Sum(w[..3]) == Sum(w[..2]) + w[2];
    assert Sum(w[..4]) == Sum(w[..3]) + w[3];
  }

  /** One comparison: the two counters are the streaks, modulo seven. */
  lemma Step(a: Adaptive, window: seq<nat>, m: nat, r: Adaptive, outcomes: seq<Outcome>)
    requires |window| == 5 && Adapts(a.(window := window), m, r)
    requires MIN_HOT_FIRST <= a.hotFirst <= MAX_HOT_FIRST
    requires a.ups == Streak(outcomes, Below) % 7 && a.downs == Streak(outcomes, Above) % 7
    ensures var more := outcomes + [Compare(window, m)];
      && r.ups == Streak(more, Below) % 7 && r.downs == Streak(more, Above) % 7
      && r.hotFirst == After(a.hotFirst, more) && MIN_HOT_FIRST <= r.hotFirst <= MAX_HOT_FIRST
  {
    SumOfFive(window);
    hide Sum;
    var o := Compare(window, m);
    StreakStep(outcomes, o, Below);
    StreakStep(outcomes, o, Above);
    NextOfSeven(Streak(outcomes, Below));
    NextOfSeven(Streak(outcomes, Above));
    hide Streak;
  }

  lemma NextOfSeven(n: nat)
    ensures (n % 7 + 1) % 7 == (n + 1) % 7
  {
  }

  lemma StreakStep(outcomes: seq<Outcome>, last: Outcome, o: Outcome)
    ensures Streak(outcomes + [last], o) ==
      if last == o then Streak(outcomes, o) + 1 else if last == Opposite(o) then 0 else Streak(outcomes, o)
  {
    assert (outcomes + [last])[..|outcomes|] == outcomes;
  }

  /** From zero counters on, along any run of comparisons, with whatever windows: the threshold moves up exactly at a
      comparison that completes seven below the mean with none above between them, and down exactly at one that
      completes seven above with none below, within 5 to 112. */
  lemma {:induction false} MovesBySevens(regs: seq<Adaptive>, windows: seq<seq<nat>>, least: seq<nat>, n: nat)
    requires Comparisons(regs, windows, least) && n <= |least|
    requires regs[0].ups == 0 && regs[0].downs == 0 && MIN_HOT_FIRST <= regs[0].hotFirst <= MAX_HOT_FIRST
    ensures var outcomes := Outcomes(windows, least, n);
      regs[n].ups == Streak(outcomes, Below) % 7 && regs[n].downs == Streak(outcomes, Above) % 7
    ensures MIN_HOT_FIRST <= regs[n].hotFirst <= MAX_HOT_FIRST
    ensures n > 0 ==> regs[n].hotFirst == After(regs[n - 1].hotFirst, Outcomes(windows, least, n))
  {
    if n > 0 {
      MovesBySevens(regs, windows, least, n - 1);
      assert |windows[n - 1]| == 5;
      Step(regs[n - 1], windows[n - 1], least[n - 1], regs[n], Outcomes(windows, least, n - 1));
    }
  }

  /** What such a comparison completes: the last seven that are not level are all alike. */
  lemma {:induction false} SevenAlike(outcomes: seq<Outcome>, o: Outcome, n: nat)
    requires o != Level && 0 < n <= Streak(outcomes, o)
    ensures exists start: nat {:trigger outcomes[start..]} ::
      && start < |outcomes| && Opposite(o) !in outcomes[start..] && outcomes[start] == o
      && multiset(outcomes[start..])[o] == n
  {
    var last := |outcomes| - 1;
    var before := outcomes[..last];
    if outcomes[last] == o && n == 1 {
      assert outcomes[last..] == [o];
    } else {
      SevenAlike(before, o, if outcomes[last] == o then n - 1 else n);
      var start: nat :| start < |before| && Opposite(o) !in before[start..] && before[start] == o
        && multiset(before[start..])[o] == if outcomes[last] == o then n - 1 else n;
      assert outcomes[start..] == before[start..] + [outcomes[last]];
    }
  }
}
