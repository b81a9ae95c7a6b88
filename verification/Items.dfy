/** Sequences of items that measure themselves, read one after another from the front. */
module Items {
  import opened Statuses
  import opened Utf8

  /** Items read from the front, and how many bytes they took. */
  datatype Taken = Taken(items: seq<seq<byte>>, used: nat)

  /** How long the item at the front is, if there is a whole one. */
  type Length = seq<byte> -> Option<nat>

  /** n items from the front, as their bytes. */
  function ReadItems(f: Length, s: seq<byte>, n: nat): (r: Option<Taken>)
    ensures r.Some? ==> r.value.used <= |s| && |r.value.items| == n
  {
    if n == 0 then Some(Taken([], 0))
    else
      var k := f(s);
      if k.None? || k.value > |s| then None
      else
        match ReadItems(f, s[k.value..], n - 1)
        case None => None
        case Some(rest) => Some(Taken([s[..k.value]] + rest.items, k.value + rest.used))
  }

  predicate Agree(s: seq<byte>, t: seq<byte>, n: nat) {
    n <= |s| && n <= |t| && s[..n] == t[..n]
  }

  lemma AgreeOn(s: seq<byte>, t: seq<byte>, n: nat, i: nat, j: nat)
    requires Agree(s, t, n) && i <= j <= n
    ensures s[i..j] == t[i..j] && Agree(s[i..], t[i..], j - i)
  {
    assert s[..n][i..j] == s[i..j] && t[..n][i..j] == t[i..j];
    assert s[i..][..j - i] == s[i..j] && t[i..][..j - i] == t[i..j];
  }

  lemma AgreeSplit(s: seq<byte>, t: seq<byte>, n: nat, k: nat)
    requires Agree(s, t, n) && k <= n
    ensures s[..k] == t[..k] && Agree(s, t, k) && Agree(s[k..], t[k..], n - k)
  {
    AgreeOn(s, t, n, 0, k);
    AgreeOn(s, t, n, k, n);
  }

  /** A length depends on nothing past the item it measures. */
  ghost predicate Local(f: Length) {
    forall s, t :: f(s).Some? && Agree(s, t, f(s).value) ==> f(t) == f(s)
  }

  lemma ItemsSplit(f: Length, s: seq<byte>, n: nat, ts: Taken) returns (j: nat, rest: Taken)
    requires n > 0 && ReadItems(f, s, n) == Some(ts)
    ensures j <= |s| && f(s) == Some(j) && ReadItems(f, s[j..], n - 1) == Some(rest)
    ensures ts == Taken([s[..j]] + rest.items, j + rest.used)
  {
    j := f(s).value;
    rest := ReadItems(f, s[j..], n - 1).value;
  }

  lemma ItemsStep(f: Length, s: seq<byte>, n: nat, j: nat, rest: Taken)
    requires n > 0 && j <= |s| && f(s) == Some(j) && ReadItems(f, s[j..], n - 1) == Some(rest)
    ensures ReadItems(f, s, n) == Some(Taken([s[..j]] + rest.items, j + rest.used))
  {
  }

  lemma {:induction false} ItemsLocal(f: Length, s: seq<byte>, t: seq<byte>, n: nat, ts: Taken)
    requires Local(f) && ReadItems(f, s, n) == Some(ts) && Agree(s, t, ts.used)
    ensures ReadItems(f, t, n) == Some(ts)
    decreases n
  {
    if n > 0 {
      var j, rest := ItemsSplit(f, s, n, ts);
      AgreeSplit(s, t, ts.used, j);
      ItemsLocal(f, s[j..], t[j..], n - 1, rest);
      ItemsStep(f, t, n, j, rest);
    }
  }

  lemma Tail(s: seq<byte>, j: nat, u: nat, k: nat)
    requires j + u + k <= |s|
    ensures s[j..][u..] == s[j + u..] && s[j..][u..u + k] == s[j + u..j + u + k]
  {
  }

  lemma Snoc(x: seq<byte>, a: seq<seq<byte>>, y: seq<byte>, all: seq<seq<byte>>)
    requires all == [x] + a
    ensures [x] + (a + [y]) == all + [y]
  {
  }

  /** Items followed by one more. */
  lemma {:induction false} OneMore(f: Length, s: seq<byte>, n: nat, ts: Taken, k: nat, item: seq<byte>)
    requires ts.used + k <= |s| && item == s[ts.used..ts.used + k]
    requires ReadItems(f, s, n) == Some(ts) && f(s[ts.used..]) == Some(k)
    ensures ReadItems(f, s, n + 1) == Some(Taken(ts.items + [item], ts.used + k))
    decreases n
  {
    if n == 0 {
      assert s[0..] == s && s[0..k] == s[..k] && ts.items + [item] == [item];
      OnlyOne(f, s, k, item);
    } else {
      var j, rest := ItemsSplit(f, s, n, ts);
      Tail(s, j, rest.used, k);
      OneMore(f, s[j..], n - 1, rest, k, item);
      ItemsStep(f, s, n + 1, j, Taken(rest.items + [item], rest.used + k));
      Snoc(s[..j], rest.items, item, ts.items);
    }
  }

  lemma OnlyOne(f: Length, s: seq<byte>, k: nat, item: seq<byte>)
    requires k <= |s| && item == s[..k] && f(s) == Some(k)
    ensures ReadItems(f, s, 1) == Some(Taken([item], k))
  {
    assert [item] + [] == [item];
    ItemsStep(f, s, 1, k, Taken([], 0));
  }

  /** Items read back from their bytes, with something else after them. */
  lemma ReadBack(f: Length, s: seq<byte>, n: nat, ts: Taken, rest: seq<byte>)
    requires Local(f) && ReadItems(f, s, n) == Some(ts)
    ensures ReadItems(f, s[..ts.used] + rest, n) == Some(ts)
  {
    var t := s[..ts.used];
    assert (t + rest)[..ts.used] == t;
    ItemsLocal(f, s, t + rest, n, ts);
  }

  lemma Middle(a: seq<byte>, p: seq<byte>, rest: seq<byte>, n: nat, t: seq<byte>)
    requires n == |a| && t == a + (p + rest)
    ensures n + |p| <= |t| && t[n..] == p + rest && p == t[n..n + |p|]
  {
  }

  /** Items read back with a new one after them, and something else after that. */
  lemma ReadBackOneMore(f: Length, s: seq<byte>, n: nat, ts: Taken, p: seq<byte>, rest: seq<byte>)
    requires Local(f) && ReadItems(f, s, n) == Some(ts) && f(p + rest) == Some(|p|)
    ensures ReadItems(f, s[..ts.used] + (p + rest), n + 1) == Some(Taken(ts.items + [p], ts.used + |p|))
  {
    ReadBack(f, s, n, ts, p + rest);
    Middle(s[..ts.used], p, rest, ts.used, s[..ts.used] + (p + rest));
    OneMore(f, s[..ts.used] + (p + rest), n, ts, |p|, p);
  }
}
