/** Which past turns a prompt repeats word for word within a token budget: the pinned ones
  * oldest first, then the others newest first, each whole or not at all. */
module ContextHistory {
  import opened Statuses
  import opened Utf8

  datatype Turn = Turn(pinned: bool, role: seq<byte>, text: seq<byte>)

  function Line(t: Turn): seq<byte> {
    t.role + [58, 32] + t.text + [10]
  }

  /** The token counter is foreign: any cost for any block. */
  type Counter = map<seq<byte>, nat>

  function Cost(counter: Counter, t: Turn): nat {
    if Line(t) in counter then counter[Line(t)] else |Line(t)|
  }

  // ---------------------------------------------------------------- sums over what is taken

  /** The cost of the pinned turns taken before k. */
  function PinnedBefore(counter: Counter, log: seq<Turn>, take: seq<bool>, k: nat): nat
    requires k <= |log| == |take|
  {
    if k == 0 then 0
    else
      PinnedBefore(counter, log, take, k - 1)
      + (if log[k - 1].pinned && take[k - 1] then Cost(counter, log[k - 1]) else 0)
  }

  /** The cost of the other turns taken from k on. */
  function RecentFrom(counter: Counter, log: seq<Turn>, take: seq<bool>, k: nat): nat
    requires k <= |log| == |take|
    decreases |log| - k
  {
    if k == |log| then 0
    else RecentFrom(counter, log, take, k + 1) + (if !log[k].pinned && take[k] then Cost(counter, log[k]) else 0)
  }

  /** The cost of every turn taken before k. */
  function TakenBefore(counter: Counter, log: seq<Turn>, take: seq<bool>, k: nat): nat
    requires k <= |log| == |take|
  {
    if k == 0 then 0
    else TakenBefore(counter, log, take, k - 1) + (if take[k - 1] then Cost(counter, log[k - 1]) else 0)
  }

  function Used(counter: Counter, log: seq<Turn>, take: seq<bool>): nat
    requires |log| == |take|
  {
    PinnedBefore(counter, log, take, |log|) + RecentFrom(counter, log, take, 0)
  }

  /** The two passes together count every turn taken once. */
  lemma {:induction false} UsedIsTheSum(counter: Counter, log: seq<Turn>, take: seq<bool>, k: nat)
    requires k <= |log| == |take|
    ensures PinnedBefore(counter, log, take, k) + RecentFrom(counter, log, take, 0)
            == TakenBefore(counter, log, take, k) + RecentFrom(counter, log, take, k)
  {
    if k > 0 { UsedIsTheSum(counter, log, take, k - 1); }
  }

  // ---------------------------------------------------------------- the rule

  /** A pinned turn is taken exactly when it fits after the older pinned ones that were. */
  predicate PinnedRule(counter: Counter, budget: nat, log: seq<Turn>, take: seq<bool>, i: nat)
    requires i < |log| == |take|
  {
    take[i] <==> PinnedBefore(counter, log, take, i) + Cost(counter, log[i]) <= budget
  }

  /** Another turn is taken exactly when it fits after the pinned ones and the newer ones that were. */
  predicate RecentRule(counter: Counter, budget: nat, log: seq<Turn>, take: seq<bool>, i: nat)
    requires i < |log| == |take|
  {
    var sofar := PinnedBefore(counter, log, take, |log|) + RecentFrom(counter, log, take, i + 1);
    take[i] <==> sofar + Cost(counter, log[i]) <= budget
  }

  ghost predicate Greedy(counter: Counter, budget: nat, log: seq<Turn>, m: nat, take: seq<bool>) {
    && m <= |log| == |take|
    && (forall i {:trigger PinnedRule(counter, budget, log, take, i)} ::
          0 <= i < m && log[i].pinned ==> PinnedRule(counter, budget, log, take, i))
    && (forall i {:trigger RecentRule(counter, budget, log, take, i)} ::
          0 <= i < m && !log[i].pinned ==> RecentRule(counter, budget, log, take, i))
    && (forall i {:trigger take[i]} :: m <= i < |log| ==> !take[i])
  }

  lemma {:induction false} PinnedGrows(counter: Counter, log: seq<Turn>, take: seq<bool>, i: nat, k: nat)
    requires i <= k <= |log| == |take|
    ensures PinnedBefore(counter, log, take, i) <= PinnedBefore(counter, log, take, k)
    decreases k
  {
    if i < k { PinnedGrows(counter, log, take, i, k - 1); }
  }

  lemma {:induction false} RecentShrinks(counter: Counter, log: seq<Turn>, take: seq<bool>, i: nat, k: nat)
    requires i <= k <= |log| == |take|
    ensures RecentFrom(counter, log, take, k) <= RecentFrom(counter, log, take, i)
    decreases k - i
  {
    if i < k { RecentShrinks(counter, log, take, i + 1, k); }
  }

  lemma {:induction false} PinnedFits(counter: Counter, budget: nat, log: seq<Turn>, m: nat, take: seq<bool>, k: nat)
    requires Greedy(counter, budget, log, m, take) && k <= |log|
    ensures PinnedBefore(counter, log, take, k) <= budget
  {
    if k > 0 {
      PinnedFits(counter, budget, log, m, take, k - 1);
      if take[k - 1] && log[k - 1].pinned { assert PinnedRule(counter, budget, log, take, k - 1); }
    }
  }

  lemma {:induction false} RecentFits(counter: Counter, budget: nat, log: seq<Turn>, m: nat, take: seq<bool>, k: nat)
    requires Greedy(counter, budget, log, m, take) && k <= |log|
    ensures PinnedBefore(counter, log, take, |log|) + RecentFrom(counter, log, take, k) <= budget
    decreases |log| - k
  {
    if k < |log| {
      RecentFits(counter, budget, log, m, take, k + 1);
      if take[k] && !log[k].pinned { assert RecentRule(counter, budget, log, take, k); }
    } else {
      PinnedFits(counter, budget, log, m, take, k);
    }
  }

  /** The budget holds, and no eligible turn that was left out would fit in what remains. */
  lemma GreedyIsMaximal(counter: Counter, budget: nat, log: seq<Turn>, m: nat, take: seq<bool>)
    requires Greedy(counter, budget, log, m, take)
    ensures Used(counter, log, take) <= budget
    ensures Used(counter, log, take) == TakenBefore(counter, log, take, |log|)
    ensures forall i {:trigger take[i]} ::
              0 <= i < m && !take[i] ==> Used(counter, log, take) + Cost(counter, log[i]) > budget
  {
    RecentFits(counter, budget, log, m, take, 0);
    UsedIsTheSum(counter, log, take, |log|);
    forall i | 0 <= i < m && !take[i] ensures Used(counter, log, take) + Cost(counter, log[i]) > budget {
      if log[i].pinned {
        assert PinnedRule(counter, budget, log, take, i);
        PinnedGrows(counter, log, take, i, |log|);
      } else {
        assert RecentRule(counter, budget, log, take, i);
        RecentShrinks(counter, log, take, 0, i + 1);
      }
    }
  }

  predicate Agree(s: seq<bool>, t: seq<bool>, i: nat) requires i < |s| == |t| { s[i] == t[i] }

  /** The rule leaves no choice. */
  lemma {:induction false} PinnedAgree(counter: Counter, budget: nat, log: seq<Turn>, m: nat, s: seq<bool>,
                                       t: seq<bool>, k: nat)
    requires Greedy(counter, budget, log, m, s) && Greedy(counter, budget, log, m, t) && k <= |log|
    ensures PinnedBefore(counter, log, s, k) == PinnedBefore(counter, log, t, k)
    ensures forall i {:trigger Agree(s, t, i)} :: 0 <= i < k && log[i].pinned ==> Agree(s, t, i)
  {
    if k > 0 {
      PinnedAgree(counter, budget, log, m, s, t, k - 1);
      var i := k - 1;
      if log[i].pinned && i < m {
        assert PinnedRule(counter, budget, log, s, i) && PinnedRule(counter, budget, log, t, i);
        assert Agree(s, t, i);
      }
    }
  }

  lemma {:induction false} RecentAgree(counter: Counter, budget: nat, log: seq<Turn>, m: nat, s: seq<bool>,
                                       t: seq<bool>, k: nat)
    requires Greedy(counter, budget, log, m, s) && Greedy(counter, budget, log, m, t) && k <= |log|
    ensures RecentFrom(counter, log, s, k) == RecentFrom(counter, log, t, k)
    ensures forall i {:trigger Agree(s, t, i)} :: k <= i < |log| && !log[i].pinned ==> Agree(s, t, i)
    decreases |log| - k
  {
    if k < |log| {
      RecentAgree(counter, budget, log, m, s, t, k + 1);
      if !log[k].pinned && k < m {
        PinnedAgree(counter, budget, log, m, s, t, |log|);
        assert RecentRule(counter, budget, log, s, k) && RecentRule(counter, budget, log, t, k);
        assert Agree(s, t, k);
      }
    }
  }

  lemma GreedyIsUnique(counter: Counter, budget: nat, log: seq<Turn>, m: nat, s: seq<bool>, t: seq<bool>)
    requires Greedy(counter, budget, log, m, s) && Greedy(counter, budget, log, m, t)
    ensures s == t
  {
    PinnedAgree(counter, budget, log, m, s, t, |log|);
    RecentAgree(counter, budget, log, m, s, t, 0);
    forall i | 0 <= i < |log| ensures s[i] == t[i] {
      assert Agree(s, t, i);
    }
  }

  // ---------------------------------------------------------------- what is rendered

  predicate Below(c: seq<nat>, n: nat) {
    forall x {:trigger c[x]} :: 0 <= x < |c| ==> c[x] < n
  }

  /** The turns taken before k that are pinned, or that are not, in order. */
  function Chosen(log: seq<Turn>, take: seq<bool>, pinned: bool, k: nat): (c: seq<nat>)
    requires k <= |log| == |take|
    ensures Below(c, |log|)
  {
    if k == 0 then []
    else Chosen(log, take, pinned, k - 1) + (if take[k - 1] && log[k - 1].pinned == pinned then [k - 1] else [])
  }

  ghost predicate IsChosen(log: seq<Turn>, take: seq<bool>, pinned: bool, k: nat, i: nat)
    requires k <= |log| == |take|
  {
    i < k && take[i] && log[i].pinned == pinned
  }

  ghost predicate Climbs(c: seq<nat>) {
    forall x, y {:trigger c[x], c[y]} :: 0 <= x < y < |c| ==> c[x] < c[y]
  }

  lemma {:induction false} ChosenAreTaken(log: seq<Turn>, take: seq<bool>, pinned: bool, k: nat)
    requires k <= |log| == |take|
    ensures var c := Chosen(log, take, pinned, k);
            Climbs(c) && forall x {:trigger c[x]} :: 0 <= x < |c| ==> IsChosen(log, take, pinned, k, c[x])
  {
    if k > 0 {
      ChosenAreTaken(log, take, pinned, k - 1);
      var c, d := Chosen(log, take, pinned, k), Chosen(log, take, pinned, k - 1);
      assert c == d || c == d + [k - 1];
      forall x | 0 <= x < |c| ensures IsChosen(log, take, pinned, k, c[x]) {
        if x < |d| { assert IsChosen(log, take, pinned, k - 1, d[x]) && c[x] == d[x]; }
      }
      forall x, y | 0 <= x < y < |c| ensures c[x] < c[y] {
        assert IsChosen(log, take, pinned, k - 1, d[x]) && c[x] == d[x];
        if y < |d| { assert c[y] == d[y]; }
      }
    }
  }

  lemma {:induction false} ChosenIsAll(log: seq<Turn>, take: seq<bool>, pinned: bool, k: nat, i: nat)
    requires k <= |log| == |take| && IsChosen(log, take, pinned, k, i)
    ensures i in Chosen(log, take, pinned, k)
  {
    if i < k - 1 { ChosenIsAll(log, take, pinned, k - 1, i); }
  }

  /** Of the pinned turns, or of the others, exactly those taken, each once and in order. */
  lemma ChosenAscends(log: seq<Turn>, take: seq<bool>, pinned: bool, k: nat)
    requires k <= |log| == |take|
    ensures Climbs(Chosen(log, take, pinned, k))
    ensures forall i: nat :: i in Chosen(log, take, pinned, k) <==> IsChosen(log, take, pinned, k, i)
  {
    ChosenAreTaken(log, take, pinned, k);
    forall i: nat | IsChosen(log, take, pinned, k, i) ensures i in Chosen(log, take, pinned, k) {
      ChosenIsAll(log, take, pinned, k, i);
    }
  }

  function Lines(log: seq<Turn>, indices: seq<nat>): seq<byte>
    requires Below(indices, |log|)
  {
    if indices == [] then [] else Lines(log, indices[..|indices| - 1]) + Line(log[indices[|indices| - 1]])
  }

  lemma LinesNext(log: seq<Turn>, indices: seq<nat>, i: nat)
    requires Below(indices, |log|) && i < |log|
    ensures Lines(log, indices + [i]) == Lines(log, indices) + Line(log[i])
  {
    assert (indices + [i])[..|indices|] == indices;
  }

  // ---------------------------------------------------------------- the loops

  /** Whether the last message is the one being answered. */
  predicate InFlight(log: seq<Turn>, message: Option<seq<byte>>) {
    && log != [] && message.Some?
    && var last := log[|log| - 1];
       !last.pinned && last.role == [117, 115, 101, 114] && last.text == message.value
  }

  lemma {:induction false} PinnedUnchanged(counter: Counter, log: seq<Turn>, s: seq<bool>, t: seq<bool>, k: nat)
    requires k <= |log| == |s| == |t|
    requires forall i {:trigger Agree(s, t, i)} :: 0 <= i < k && log[i].pinned ==> Agree(s, t, i)
    ensures PinnedBefore(counter, log, s, k) == PinnedBefore(counter, log, t, k)
  {
    if k > 0 {
      PinnedUnchanged(counter, log, s, t, k - 1);
      if log[k - 1].pinned { assert Agree(s, t, k - 1); }
    }
  }

  lemma {:induction false} RecentUnchanged(counter: Counter, log: seq<Turn>, s: seq<bool>, t: seq<bool>, k: nat)
    requires k <= |log| == |s| == |t|
    requires forall i {:trigger Agree(s, t, i)} :: k <= i < |log| && !log[i].pinned ==> Agree(s, t, i)
    ensures RecentFrom(counter, log, s, k) == RecentFrom(counter, log, t, k)
    decreases |log| - k
  {
    if k < |log| {
      RecentUnchanged(counter, log, s, t, k + 1);
      if !log[k].pinned { assert Agree(s, t, k); }
    }
  }

  /** After pass 1 has come to i: its turns follow the rule, and nothing else is taken. */
  ghost predicate FirstPass(counter: Counter, budget: nat, log: seq<Turn>, take: seq<bool>, i: nat) {
    && i <= |log| == |take|
    && (forall j {:trigger PinnedRule(counter, budget, log, take, j)} ::
          0 <= j < i && log[j].pinned ==> PinnedRule(counter, budget, log, take, j))
    && (forall j {:trigger take[j]} :: 0 <= j < |log| && (j >= i || !log[j].pinned) ==> !take[j])
  }

  lemma FirstPassNext(counter: Counter, budget: nat, log: seq<Turn>, s: seq<bool>, i: nat, t: seq<bool>)
    requires FirstPass(counter, budget, log, s, i) && i < |log|
    requires t == s[i := log[i].pinned && PinnedBefore(counter, log, s, i) + Cost(counter, log[i]) <= budget]
    ensures FirstPass(counter, budget, log, t, i + 1)
  {
    forall j | 0 <= j < i + 1 && log[j].pinned ensures PinnedRule(counter, budget, log, t, j) {
      PinnedUnchanged(counter, log, s, t, j);
      if j < i { assert PinnedRule(counter, budget, log, s, j); }
    }
  }

  lemma {:induction false} NothingRecent(counter: Counter, log: seq<Turn>, take: seq<bool>, k: nat)
    requires k <= |log| == |take| && forall j {:trigger take[j]} :: k <= j < |log| && !log[j].pinned ==> !take[j]
    ensures RecentFrom(counter, log, take, k) == 0
    decreases |log| - k
  {
    if k < |log| { NothingRecent(counter, log, take, k + 1); }
  }

  lemma {:induction false} NothingPinned(counter: Counter, log: seq<Turn>, take: seq<bool>, i: nat, k: nat)
    requires i <= k <= |log| == |take| && forall j {:trigger take[j]} :: i <= j < k && log[j].pinned ==> !take[j]
    ensures PinnedBefore(counter, log, take, k) == PinnedBefore(counter, log, take, i)
    decreases k
  {
    if i < k { NothingPinned(counter, log, take, i, k - 1); }
  }

  /** Pass 2 has come down to i: the pinned turns are settled, and so are the others from i on. */
  ghost predicate SecondPass(counter: Counter, budget: nat, log: seq<Turn>, m: nat, take: seq<bool>, i: nat) {
    && i <= m <= |log| == |take|
    && (forall j {:trigger PinnedRule(counter, budget, log, take, j)} ::
          0 <= j < m && log[j].pinned ==> PinnedRule(counter, budget, log, take, j))
    && (forall j {:trigger RecentRule(counter, budget, log, take, j)} ::
          i <= j < m && !log[j].pinned ==> RecentRule(counter, budget, log, take, j))
    && (forall j {:trigger take[j]} :: 0 <= j < |log| && (j >= m || (j < i && !log[j].pinned)) ==> !take[j])
  }

  lemma SecondPassNext(counter: Counter, budget: nat, log: seq<Turn>, m: nat, s: seq<bool>, i: nat, t: seq<bool>)
    requires SecondPass(counter, budget, log, m, s, i) && 0 < i && !log[i - 1].pinned
    requires var sofar := PinnedBefore(counter, log, s, |log|) + RecentFrom(counter, log, s, i);
             t == s[i - 1 := sofar + Cost(counter, log[i - 1]) <= budget]
    ensures SecondPass(counter, budget, log, m, t, i - 1)
  {
    forall j | 0 <= j < m && log[j].pinned ensures PinnedRule(counter, budget, log, t, j) {
      PinnedUnchanged(counter, log, s, t, j);
      assert PinnedRule(counter, budget, log, s, j);
    }
    PinnedUnchanged(counter, log, s, t, |log|);
    forall j | i - 1 <= j < m && !log[j].pinned ensures RecentRule(counter, budget, log, t, j) {
      RecentUnchanged(counter, log, s, t, j + 1);
      if i <= j { assert RecentRule(counter, budget, log, s, j); }
    }
  }

  method TakePinned(counter: Counter, budget: nat, log: seq<Turn>, m: nat, take: array<bool>) returns (used: nat)
    requires m <= |log| == take.Length && forall j :: 0 <= j < take.Length ==> !take[j]
    modifies take
    ensures FirstPass(counter, budget, log, take[..], m) && used == PinnedBefore(counter, log, take[..], m)
  {
    used := 0;
    for i := 0 to m
      invariant FirstPass(counter, budget, log, take[..], i) && used == PinnedBefore(counter, log, take[..], i)
    {
      ghost var before := take[..];
      var t := log[i];
      if t.pinned {
        var cost := Cost(counter, t);
        if used + cost <= budget {
          take[i] := true;
          used := used + cost;
        }
      }
      assert take[..] == before[i := t.pinned && PinnedBefore(counter, log, before, i) + Cost(counter, t) <= budget];
      FirstPassNext(counter, budget, log, before, i, take[..]);
      PinnedUnchanged(counter, log, before, take[..], i);
    }
  }

  method TakeRecent(counter: Counter, budget: nat, log: seq<Turn>, m: nat, take: array<bool>, start: nat)
    returns (used: nat)
    requires m <= |log| == take.Length && FirstPass(counter, budget, log, take[..], m)
    requires start == PinnedBefore(counter, log, take[..], m)
    modifies take
    ensures Greedy(counter, budget, log, m, take[..]) && used == Used(counter, log, take[..])
  {
    used := start;
    NothingRecent(counter, log, take[..], m);
    NothingPinned(counter, log, take[..], m, |log|);
    var i: nat := m;
    while i > 0
      invariant i <= m && SecondPass(counter, budget, log, m, take[..], i)
      invariant used == PinnedBefore(counter, log, take[..], |log|) + RecentFrom(counter, log, take[..], i)
    {
      if !log[i - 1].pinned {
        used := TakeOne(counter, budget, log, m, take, i, used);
      }
      i := i - 1;
    }
  }

  method TakeOne(counter: Counter, budget: nat, log: seq<Turn>, m: nat, take: array<bool>, i: nat, sofar: nat)
    returns (used: nat)
    requires take.Length == |log| && SecondPass(counter, budget, log, m, take[..], i) && 0 < i && !log[i - 1].pinned
    requires sofar == PinnedBefore(counter, log, take[..], |log|) + RecentFrom(counter, log, take[..], i)
    modifies take
    ensures SecondPass(counter, budget, log, m, take[..], i - 1)
    ensures used == PinnedBefore(counter, log, take[..], |log|) + RecentFrom(counter, log, take[..], i - 1)
  {
    ghost var before := take[..];
    used := sofar;
    var cost := Cost(counter, log[i - 1]);
    if used + cost <= budget {
      take[i - 1] := true;
      used := used + cost;
    }
    assert take[..] == before[i - 1 := sofar + cost <= budget];
    SecondPassNext(counter, budget, log, m, before, i, take[..]);
    PinnedUnchanged(counter, log, before, take[..], |log|);
    RecentUnchanged(counter, log, before, take[..], i);
  }

  method RenderChosen(log: seq<Turn>, take: array<bool>, pinned: bool) returns (b: seq<byte>)
    requires take.Length == |log|
    ensures b == Lines(log, Chosen(log, take[..], pinned, |log|))
  {
    b := [];
    for i := 0 to |log|
      invariant b == Lines(log, Chosen(log, take[..], pinned, i))
    {
      if take[i] && log[i].pinned == pinned {
        LinesNext(log, Chosen(log, take[..], pinned, i), i);
        b := b + Line(log[i]);
      } else {
        assert Chosen(log, take[..], pinned, i + 1) == Chosen(log, take[..], pinned, i);
      }
    }
  }

  function Rendered(log: seq<Turn>, take: seq<bool>): seq<byte>
    requires |log| == |take|
  {
    Lines(log, Chosen(log, take, true, |log|)) + Lines(log, Chosen(log, take, false, |log|))
  }

  lemma {:induction false} SomethingIsRendered(log: seq<Turn>, indices: seq<nat>)
    requires Below(indices, |log|)
    ensures Lines(log, indices) == [] <==> indices == []
  {
  }

  /** Nothing taken costs nothing. */
  lemma {:induction false} NothingCosts(counter: Counter, log: seq<Turn>, take: seq<bool>, k: nat)
    requires k <= |log| == |take| && Chosen(log, take, true, k) == [] && Chosen(log, take, false, k) == []
    ensures TakenBefore(counter, log, take, k) == 0
  {
    if k > 0 { NothingCosts(counter, log, take, k - 1); }
  }

  lemma AllAreChosen(log: seq<Turn>, take: seq<bool>)
    requires |log| == |take|
    ensures forall i: nat :: i < |log| && take[i] ==> i in Chosen(log, take, log[i].pinned, |log|)
  {
    forall i: nat | i < |log| && take[i] ensures i in Chosen(log, take, log[i].pinned, |log|) {
      ChosenIsAll(log, take, log[i].pinned, |log|, i);
    }
  }

  /** The text of the turns chosen, pinned ones first, and what they cost in all. */
  method Verbatim(counter: Counter, budget: nat, log: seq<Turn>, message: Option<seq<byte>>)
    returns (text: Option<seq<byte>>, tokens: nat, ghost take: seq<bool>)
    ensures |take| == |log| && Greedy(counter, budget, log, if InFlight(log, message) then |log| - 1 else |log|, take)
    ensures text == if Rendered(log, take) == [] then None else Some(Rendered(log, take))
    ensures tokens == TakenBefore(counter, log, take, |log|)
    ensures tokens <= budget && (text.None? ==> tokens == 0)
    ensures forall i: nat :: i < |log| && take[i] ==> i in Chosen(log, take, log[i].pinned, |log|)
  {
    if |log| == 0 { return None, 0, []; }
    var skip := if InFlight(log, message) then 1 else 0;
    var m := |log| - skip;
    var taken := new bool[|log|](_ => false);
    var used := TakePinned(counter, budget, log, m, taken);
    used := TakeRecent(counter, budget, log, m, taken, used);
    take := taken[..];
    GreedyIsMaximal(counter, budget, log, m, take);
    AllAreChosen(log, take);
    var pinned := RenderChosen(log, taken, true);
    var recent := RenderChosen(log, taken, false);
    var b := pinned + recent;
    assert b == Rendered(log, take);
    if b == [] {
      SomethingIsRendered(log, Chosen(log, take, true, |log|));
      SomethingIsRendered(log, Chosen(log, take, false, |log|));
      NothingCosts(counter, log, take, |log|);
      return None, 0, take;
    }
    return Some(b), used, take;
  }
}
