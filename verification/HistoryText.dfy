/** What the text of a history says, told by its bytes: which turns it repeats, in which order, each whole
  * and once, and what that costs. */
module HistoryText {
  import opened Statuses
  import opened Utf8
  import opened ContextHistory

  /** The bytes are the turn's role, a colon and a blank, its text, and a newline. */
  predicate IsLineOf(b: seq<byte>, t: Turn) {
    var n := |t.role|;
    && |b| == n + |t.text| + 3 && b[..n] == t.role && b[n] == 58 && b[n + 1] == 32
    && b[n + 2..|b| - 1] == t.text && b[|b| - 1] == 10
  }

  function Flat(pieces: seq<seq<byte>>): seq<byte> {
    if pieces == [] then [] else Flat(pieces[..|pieces| - 1]) + pieces[|pieces| - 1]
  }

  /** The text is these pieces one after another, one for each of these turns, in this order. */
  ghost predicate Repeats(text: seq<byte>, log: seq<Turn>, order: seq<nat>, pieces: seq<seq<byte>>) {
    && |pieces| == |order| && text == Flat(pieces)
    && forall x {:trigger order[x]} :: 0 <= x < |order| ==> order[x] < |log| && IsLineOf(pieces[x], log[order[x]])
  }

  /** What a piece costs by the counter. */
  function Price(counter: Counter, piece: seq<byte>): nat {
    if piece in counter then counter[piece] else |piece|
  }

  function Prices(counter: Counter, pieces: seq<seq<byte>>): nat {
    if pieces == [] then 0 else Prices(counter, pieces[..|pieces| - 1]) + Price(counter, pieces[|pieces| - 1])
  }

  lemma LineIsLine(t: Turn, counter: Counter)
    ensures IsLineOf(Line(t), t) && Cost(counter, t) == Price(counter, Line(t))
  {
    var b, n := Line(t), |t.role|;
    assert b[..n] == t.role && b[n + 2..|b| - 1] == t.text;
  }

  lemma PiecesMore(pieces: seq<seq<byte>>, piece: seq<byte>, counter: Counter)
    ensures Flat(pieces + [piece]) == Flat(pieces) + piece
    ensures Prices(counter, pieces + [piece]) == Prices(counter, pieces) + Price(counter, piece)
  {
    assert (pieces + [piece])[..|pieces|] == pieces;
  }

  lemma RepeatsMore(text: seq<byte>, log: seq<Turn>, order: seq<nat>, pieces: seq<seq<byte>>, i: nat)
    requires Repeats(text, log, order, pieces) && i < |log|
    ensures Repeats(text + Line(log[i]), log, order + [i], pieces + [Line(log[i])])
  {
    PiecesMore(pieces, Line(log[i]), map[]);
    LineIsLine(log[i], map[]);
  }

  /** The cost of the pinned turns, or of the others, taken before k. */
  ghost function CostBefore(counter: Counter, log: seq<Turn>, take: seq<bool>, pinned: bool, k: nat): int
    requires k <= |log| == |take|
  {
    if pinned then PinnedBefore(counter, log, take, k)
    else RecentFrom(counter, log, take, 0) - RecentFrom(counter, log, take, k)
  }

  lemma CostNext(counter: Counter, log: seq<Turn>, take: seq<bool>, pinned: bool, k: nat)
    requires k < |log| == |take|
    ensures CostBefore(counter, log, take, pinned, k + 1)
            == CostBefore(counter, log, take, pinned, k)
               + if take[k] && log[k].pinned == pinned then Cost(counter, log[k]) else 0
  {
  }

  lemma ChosenNext(log: seq<Turn>, take: seq<bool>, pinned: bool, k: nat)
    requires k < |log| == |take|
    ensures var c := Chosen(log, take, pinned, k);
            Chosen(log, take, pinned, k + 1) == if take[k] && log[k].pinned == pinned then c + [k] else c
  {
  }

  /** The pieces of the turns chosen before k, and their cost. */
  lemma {:induction false} PiecesOf(counter: Counter, log: seq<Turn>, take: seq<bool>, pinned: bool, k: nat)
    returns (pieces: seq<seq<byte>>)
    requires k <= |log| == |take|
    ensures var c := Chosen(log, take, pinned, k); Repeats(Lines(log, c), log, c, pieces)
    ensures Prices(counter, pieces) == CostBefore(counter, log, take, pinned, k)
  {
    if k == 0 {
      pieces := [];
    } else {
      var i := k - 1;
      pieces := PiecesOf(counter, log, take, pinned, i);
      ChosenNext(log, take, pinned, i);
      CostNext(counter, log, take, pinned, i);
      if take[i] && log[i].pinned == pinned {
        pieces := OnePiece(counter, log, Chosen(log, take, pinned, i), pieces, i);
      }
    }
  }

  lemma OnePiece(counter: Counter, log: seq<Turn>, c: seq<nat>, before: seq<seq<byte>>, i: nat)
    returns (pieces: seq<seq<byte>>)
    requires Below(c, |log|) && i < |log| && Repeats(Lines(log, c), log, c, before)
    ensures Below(c + [i], |log|) && Repeats(Lines(log, c + [i]), log, c + [i], pieces)
    ensures Prices(counter, pieces) == Prices(counter, before) + Cost(counter, log[i])
  {
    pieces := before + [Line(log[i])];
    RepeatsMore(Lines(log, c), log, c, before, i);
    LinesNext(log, c, i);
    PiecesMore(before, Line(log[i]), counter);
    LineIsLine(log[i], counter);
  }

  lemma RepeatsBoth(s: seq<byte>, t: seq<byte>, log: seq<Turn>, c: seq<nat>, d: seq<nat>, a: seq<seq<byte>>,
                    b: seq<seq<byte>>)
    requires Repeats(s, log, c, a) && Repeats(t, log, d, b)
    ensures Repeats(s + t, log, c + d, a + b)
  {
    FlatAppends(a, b);
    var order, pieces := c + d, a + b;
    forall x | 0 <= x < |order| ensures order[x] < |log| && IsLineOf(pieces[x], log[order[x]]) {
      if x < |c| { assert order[x] == c[x]; } else { assert order[x] == d[x - |c|]; }
    }
  }

  lemma LastOfBoth(a: seq<seq<byte>>, b: seq<seq<byte>>, front: seq<seq<byte>>, last: seq<byte>)
    requires b != [] && front == b[..|b| - 1] && last == b[|b| - 1]
    ensures a + b == a + front + [last]
  {
  }

  lemma Regroup(a: seq<byte>, b: seq<byte>, c: seq<byte>)
    ensures (a + b) + c == a + (b + c)
  {
  }

  /** Two texts one after the other. */
  lemma {:induction false} FlatAppends(a: seq<seq<byte>>, b: seq<seq<byte>>)
    ensures Flat(a + b) == Flat(a) + Flat(b)
  {
    if b == [] {
      assert a + b == a;
    } else {
      var front, last := b[..|b| - 1], b[|b| - 1];
      FlatAppends(a, front);
      LastOfBoth(a, b, front, last);
      PiecesMore(a + front, last, map[]);
      Regroup(Flat(a), Flat(front), last);
    }
  }

  lemma {:induction false} PricesAppend(a: seq<seq<byte>>, b: seq<seq<byte>>, counter: Counter)
    ensures Prices(counter, a + b) == Prices(counter, a) + Prices(counter, b)
  {
    if b == [] {
      assert a + b == a;
    } else {
      var front, last := b[..|b| - 1], b[|b| - 1];
      PricesAppend(a, front, counter);
      LastOfBoth(a, b, front, last);
      PiecesMore(a + front, last, counter);
    }
  }

  /** The turns taken: first the pinned ones, then the others, either in chronological order. */
  ghost predicate InOrder(log: seq<Turn>, take: seq<bool>, order: seq<nat>, n: nat)
    requires |log| == |take|
  {
    && n <= |order| && Climbs(order[..n]) && Climbs(order[n..])
    && (forall i: nat :: i in order <==> i < |log| && take[i])
    && (forall x {:trigger order[x]} :: 0 <= x < |order| ==> order[x] < |log| && (log[order[x]].pinned <==> x < n))
  }

  lemma ChosenInOrder(log: seq<Turn>, take: seq<bool>, first: seq<nat>, second: seq<nat>)
    requires |log| == |take|
    requires first == Chosen(log, take, true, |log|) && second == Chosen(log, take, false, |log|)
    ensures InOrder(log, take, first + second, |first|)
  {
    ChosenAscends(log, take, true, |log|);
    ChosenAscends(log, take, false, |log|);
    var order, n := first + second, |first|;
    assert order[..n] == first && order[n..] == second;
    forall x | 0 <= x < |order| ensures order[x] < |log| && (log[order[x]].pinned <==> x < n) {
      assert order[x] == if x < n then first[x] else second[x - n];
      assert IsChosen(log, take, x < n, |log|, order[x]);
    }
    forall i: nat ensures i in order <==> i < |log| && take[i] {
      assert i in order <==> i in first || i in second;
    }
  }

  /** The message being answered is the last turn, a user's, and not pinned: it is not repeated. */
  predicate Answering(log: seq<Turn>, message: Option<seq<byte>>, i: nat) {
    && i == |log| - 1 && i < |log| && !log[i].pinned && log[i].role == [117, 115, 101, 114]
    && message == Some(log[i].text)
  }

  /** What is left out did not fit, but for the message being answered. */
  ghost predicate LeftOut(counter: Counter, budget: nat, log: seq<Turn>, message: Option<seq<byte>>, order: seq<nat>,
                          cost: nat, i: nat)
    requires i < |log|
  {
    i !in order && (Answering(log, message, i) || cost + Price(counter, Line(log[i])) > budget)
  }

  /** The text is the turns taken, pinned ones first, each whole and once; it costs no more than the
    * budget, and there is no room for any turn that is left out. */
  ghost predicate Recalls(counter: Counter, budget: nat, log: seq<Turn>, message: Option<seq<byte>>, take: seq<bool>,
                          text: seq<byte>, order: seq<nat>, pieces: seq<seq<byte>>, n: nat)
    requires |take| == |log|
  {
    && InOrder(log, take, order, n) && Repeats(text, log, order, pieces)
    && Prices(counter, pieces) == TakenBefore(counter, log, take, |log|) <= budget
    && forall i {:trigger take[i]} :: 0 <= i < |log| ==>
         (take[i] && !Answering(log, message, i))
         || LeftOut(counter, budget, log, message, order, Prices(counter, pieces), i)
  }

  lemma NoRoom(counter: Counter, budget: nat, log: seq<Turn>, message: Option<seq<byte>>, take: seq<bool>,
               order: seq<nat>, cost: nat, i: nat)
    requires |take| == |log| && i < |log| && i !in order && !take[i]
    requires Greedy(counter, budget, log, if InFlight(log, message) then |log| - 1 else |log|, take)
    requires cost == TakenBefore(counter, log, take, |log|)
    ensures LeftOut(counter, budget, log, message, order, cost, i)
  {
    GreedyIsMaximal(counter, budget, log, if InFlight(log, message) then |log| - 1 else |log|, take);
    LineIsLine(log[i], counter);
  }

  lemma AllPieces(counter: Counter, log: seq<Turn>, take: seq<bool>)
    returns (order: seq<nat>, pieces: seq<seq<byte>>, n: nat)
    requires |take| == |log|
    ensures InOrder(log, take, order, n) && Repeats(Rendered(log, take), log, order, pieces)
    ensures Prices(counter, pieces) == Used(counter, log, take)
  {
    var first, second := Chosen(log, take, true, |log|), Chosen(log, take, false, |log|);
    var a := PiecesOf(counter, log, take, true, |log|);
    var b := PiecesOf(counter, log, take, false, |log|);
    order, pieces, n := first + second, a + b, |first|;
    ChosenInOrder(log, take, first, second);
    RepeatsBoth(Lines(log, first), Lines(log, second), log, first, second, a, b);
    PricesAppend(a, b, counter);
  }

  lemma OthersHaveNoRoom(counter: Counter, budget: nat, log: seq<Turn>, message: Option<seq<byte>>, take: seq<bool>,
                         order: seq<nat>, n: nat, cost: nat)
    requires |take| == |log| && InOrder(log, take, order, n)
    requires Greedy(counter, budget, log, if InFlight(log, message) then |log| - 1 else |log|, take)
    requires cost == TakenBefore(counter, log, take, |log|)
    ensures forall i {:trigger take[i]} :: 0 <= i < |log| ==>
              (take[i] && !Answering(log, message, i)) || LeftOut(counter, budget, log, message, order, cost, i)
  {
    forall i | 0 <= i < |log| && !take[i] ensures LeftOut(counter, budget, log, message, order, cost, i) {
      NoRoom(counter, budget, log, message, take, order, cost, i);
    }
  }

  /** What is rendered of a greedy choice reads so. */
  lemma RenderedReads(counter: Counter, budget: nat, log: seq<Turn>, message: Option<seq<byte>>, take: seq<bool>)
    returns (order: seq<nat>, pieces: seq<seq<byte>>, n: nat)
    requires |take| == |log|
    requires Greedy(counter, budget, log, if InFlight(log, message) then |log| - 1 else |log|, take)
    ensures Recalls(counter, budget, log, message, take, Rendered(log, take), order, pieces, n)
  {
    order, pieces, n := AllPieces(counter, log, take);
    GreedyIsMaximal(counter, budget, log, if InFlight(log, message) then |log| - 1 else |log|, take);
    OthersHaveNoRoom(counter, budget, log, message, take, order, n, Prices(counter, pieces));
  }
}
