/** The expiry-ordered list that both timer schedulers keep, as operations on sequences. */
module TimerList {
  /** A queued timer: which object it is, and its expiry, which does not change while it is queued. */
  datatype Timer = Timer(id: nat, expiry: nat)

  predicate Sorted(s: seq<Timer>) {
    forall i, j | 0 <= i <= j < |s| :: s[i].expiry <= s[j].expiry
  }

  /** `std::upper_bound`: the first position whose timer expires after `expiry`. */
  function UpperBound(s: seq<Timer>, expiry: nat): (k: nat)
    ensures k <= |s|
    ensures forall i | 0 <= i < k :: s[i].expiry <= expiry
    ensures k < |s| ==> expiry < s[k].expiry
  {
    if s == [] || expiry < s[0].expiry then 0 else 1 + UpperBound(s[1..], expiry)
  }

  lemma {:induction false} UpperBoundUnique(s: seq<Timer>, expiry: nat, k: nat)
    requires k <= |s|
    requires forall i | 0 <= i < k :: s[i].expiry <= expiry
    requires k < |s| ==> expiry < s[k].expiry
    ensures k == UpperBound(s, expiry)
  {
    if k > 0 {
      UpperBoundUnique(s[1..], expiry, k - 1);
    }
  }

  /** A new timer goes behind every timer that expires no later. */
  function Insert(s: seq<Timer>, t: Timer): (r: seq<Timer>)
    ensures |r| == |s| + 1
  {
    var k := UpperBound(s, t.expiry);
    s[..k] + [t] + s[k..]
  }

  /** The first occurrence of `t` taken out, if there is one. */
  function Remove(s: seq<Timer>, t: Timer): (r: seq<Timer>)
    ensures t in s ==> |r| == |s| - 1
    ensures t !in s ==> r == s
  {
    if s == [] then [] else if s[0] == t then s[1..] else [s[0]] + Remove(s[1..], t)
  }

  /** The timers of one expiry, in list order. */
  function Among(s: seq<Timer>, expiry: nat): seq<Timer> {
    if s == [] then []
    else if s[0].expiry == expiry then [s[0]] + Among(s[1..], expiry)
    else Among(s[1..], expiry)
  }

  /** Taking `k` from the front, one and then the others. */
  lemma FrontSteps(done: seq<Timer>, list: seq<Timer>, k: nat)
    requires 0 < k <= |list|
    ensures done + [list[0]] + list[1..][..k - 1] == done + list[..k] && list[1..][k - 1..] == list[k..]
  {
    assert [list[0]] + list[1..][..k - 1] == list[..k];
  }

  lemma InsertContents(s: seq<Timer>, t: Timer)
    ensures multiset(Insert(s, t)) == multiset(s) + multiset{t}
  {
    var k := UpperBound(s, t.expiry);
    assert s == s[..k] + s[k..];
  }

  lemma InsertSorted(s: seq<Timer>, t: Timer)
    requires Sorted(s)
    ensures Sorted(Insert(s, t))
  {
    hide UpperBound;
    var k, r := UpperBound(s, t.expiry), Insert(s, t);
    forall i, j | 0 <= i < j < |r|
      ensures r[i].expiry <= r[j].expiry
    {
      assert r[i] == if i < k then s[i] else if i == k then t else s[i - 1];
      assert r[j] == if j < k then s[j] else if j == k then t else s[j - 1];
      assert k < j ==> s[k].expiry <= s[j - 1].expiry;
    }
  }

  lemma {:induction false} RemoveContents(s: seq<Timer>, t: Timer)
    ensures multiset(Remove(s, t)) == multiset(s) - multiset{t}
    ensures forall x | x in Remove(s, t) :: x in s
  {
    if s != [] {
      assert s == [s[0]] + s[1..];
      if s[0] != t {
        RemoveContents(s[1..], t);
        assert t in s ==> t in s[1..];
        assert multiset(Remove(s, t)) == multiset{s[0]} + multiset(Remove(s[1..], t));
      }
    }
  }

  lemma {:induction false} RemoveSorted(s: seq<Timer>, t: Timer)
    requires Sorted(s)
    ensures Sorted(Remove(s, t))
  {
    if s != [] && s[0] != t {
      var rest := Remove(s[1..], t);
      RemoveSorted(s[1..], t);
      RemoveContents(s[1..], t);
      forall i | 0 <= i < |rest|
        ensures s[0].expiry <= rest[i].expiry
      {
        assert rest[i] in s[1..];
      }
    }
  }

  lemma {:induction false} RemoveAt(s: seq<Timer>, t: Timer, i: nat)
    requires i < |s| && s[i] == t && t !in s[..i]
    ensures Remove(s, t) == s[..i] + s[i + 1..]
  {
    if i > 0 {
      assert s[0] in s[..i];
      assert forall x | x in s[1..][..i - 1] :: x in s[..i];
      RemoveAt(s[1..], t, i - 1);
      assert s[..i] == [s[0]] + s[1..][..i - 1];
    }
  }

  lemma {:induction false} AmongAppend(a: seq<Timer>, b: seq<Timer>, expiry: nat)
    ensures Among(a + b, expiry) == Among(a, expiry) + Among(b, expiry)
  {
    if a == [] {
      assert a + b == b;
    } else {
      assert (a + b)[1..] == a[1..] + b;
      AmongAppend(a[1..], b, expiry);
    }
  }

  lemma {:induction false} AmongNone(s: seq<Timer>, expiry: nat)
    requires forall i | 0 <= i < |s| :: s[i].expiry != expiry
    ensures Among(s, expiry) == []
  {
    if s != [] {
      AmongNone(s[1..], expiry);
    }
  }

  /** Insertion is first in, first out among timers of the same expiry, and leaves the others in order. */
  lemma InsertAmong(s: seq<Timer>, t: Timer, expiry: nat)
    requires Sorted(s)
    ensures Among(Insert(s, t), expiry) == if t.expiry == expiry then Among(s, expiry) + [t] else Among(s, expiry)
  {
    hide UpperBound;
    var k := UpperBound(s, t.expiry);
    var before, after := s[..k], s[k..];
    assert s == before + after;
    AmongAppend(before, after, expiry);
    AmongAppend(before + [t], after, expiry);
    AmongAppend(before, [t], expiry);
    if t.expiry == expiry {
      AmongTail(s, k, expiry);
      assert Among(before, expiry) + [t] + [] == Among(before, expiry) + [] + [t];
    } else {
      assert Among(before, expiry) + [] == Among(before, expiry);
    }
  }

  lemma AmongTail(s: seq<Timer>, k: nat, expiry: nat)
    requires Sorted(s) && k <= |s| && (k < |s| ==> expiry < s[k].expiry)
    ensures Among(s[k..], expiry) == []
  {
    AmongNone(s[k..], expiry);
  }

  /** Cancelling takes the first occurrence out of its expiry's queue and touches no other queue. */
  lemma {:induction false} RemoveAmong(s: seq<Timer>, t: Timer, expiry: nat)
    ensures Among(Remove(s, t), expiry) == if t.expiry == expiry then Remove(Among(s, expiry), t) else Among(s, expiry)
  {
    if s != [] && s[0] != t {
      RemoveAmong(s[1..], t, expiry);
      RemoveHead(s[0], Among(s[1..], expiry), t);
      AmongHead(s[0], Remove(s[1..], t), expiry);
    }
  }

  lemma RemoveHead(x: Timer, s: seq<Timer>, t: Timer)
    requires x != t
    ensures Remove([x] + s, t) == [x] + Remove(s, t)
  {
    assert ([x] + s)[1..] == s;
  }

  lemma AmongHead(x: Timer, s: seq<Timer>, expiry: nat)
    ensures Among([x] + s, expiry) == if x.expiry == expiry then [x] + Among(s, expiry) else Among(s, expiry)
  {
    assert ([x] + s)[1..] == s;
  }

  /** Order and the queue of each expiry determine a sorted list: it is the stable sort of its insertions. */
  lemma {:induction false} SortedIsCanonical(a: seq<Timer>, b: seq<Timer>)
    requires Sorted(a) && Sorted(b)
    requires forall e: nat :: Among(a, e) == Among(b, e)
    ensures a == b
  {
    if b != [] {
      assert Among(a, b[0].expiry) == Among(b, b[0].expiry) != [];
    }
    if a != [] {
      var e := a[0].expiry;
      assert Among(a, e) == Among(b, e);
      AmongIn(b, e);
      var f := b[0].expiry;
      assert Among(a, f) == Among(b, f);
      AmongIn(a, f);
      assert a[0] == Among(a, e)[0] && b[0] == Among(b, f)[0];
      assert e == f && a[0] == b[0];
      forall g: nat
        ensures Among(a[1..], g) == Among(b[1..], g)
      {
        assert Among(a, g) == Among(b, g);
        if g == e {
          assert Among(a, g)[1..] == Among(a[1..], g) && Among(b, g)[1..] == Among(b[1..], g);
        }
      }
      SortedIsCanonical(a[1..], b[1..]);
      assert a == [a[0]] + a[1..] && b == [b[0]] + b[1..];
    }
  }

  lemma {:induction false} AmongIn(s: seq<Timer>, expiry: nat)
    ensures forall t | t in Among(s, expiry) :: t in s && t.expiry == expiry
  {
    if s != [] {
      AmongIn(s[1..], expiry);
    }
  }
}
