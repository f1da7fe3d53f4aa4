/** `domain_array`: the list of domains the run has contacted, free of repeats and
    kept in the order in which each domain was first taken from the queue. */
module DomainList {

  predicate NoDuplicates(s: seq<string>) {
    forall i, j :: 0 <= i < j < |s| ==> s[i] != s[j]
  }

  /** The worker's `if domain not in domain_array: domain_array.append(domain)`. */
  function AddIfAbsent(seen: seq<string>, d: string): (r: seq<string>)
    ensures seen <= r && d in r
    ensures r == seen || r == seen + [d]
    ensures NoDuplicates(seen) ==> NoDuplicates(r)
  {
    if d in seen then seen else seen + [d]
  }

  /** `domain_array` after the domains `ds` have been taken from the queue, in order. */
  function AddAll(seen: seq<string>, ds: seq<string>): (r: seq<string>)
    ensures seen <= r
    ensures NoDuplicates(seen) ==> NoDuplicates(r)
  {
    if ds == [] then seen
    else AddIfAbsent(AddAll(seen, ds[..|ds| - 1]), ds[|ds| - 1])
  }

  /** The listed domains are those listed before and those taken from the queue. */
  lemma {:induction false} AddAllElements(seen: seq<string>, ds: seq<string>)
    ensures forall x :: x in AddAll(seen, ds) <==> x in seen || x in ds
  {
    if ds != [] {
      var init, d := ds[..|ds| - 1], ds[|ds| - 1];
      AddAllElements(seen, init);
      assert ds == init + [d];
    }
  }

  /** Taking one more domain from the queue. */
  lemma AddAllSnoc(seen: seq<string>, ds: seq<string>, d: string)
    ensures AddAll(seen, ds + [d]) == AddIfAbsent(AddAll(seen, ds), d)
  {
    assert (ds + [d])[..|ds|] == ds;
  }

  /** Taking `a` and then `b` from the queue is taking `a + b`. */
  lemma {:induction false} AddAllConcat(seen: seq<string>, a: seq<string>, b: seq<string>)
    ensures AddAll(seen, a + b) == AddAll(AddAll(seen, a), b)
  {
    if b == [] {
      assert a + b == a;
    } else {
      var b' := b[..|b| - 1];
      assert (a + b)[..|a + b| - 1] == a + b';
      assert (a + b)[|a + b| - 1] == b[|b| - 1];
      AddAllConcat(seen, a, b');
    }
  }

  /** The position of the first occurrence of `x` in `s`. */
  function FirstIndex(s: seq<string>, x: string): (i: nat)
    requires x in s
    ensures i < |s| && s[i] == x && x !in s[..i]
  {
    if s[0] == x then 0
    else
      var j := FirstIndex(s[1..], x);
      assert s[..j + 1] == [s[0]] + s[1..][..j];
      j + 1
  }

  lemma {:induction false} FirstIndexPrefix(s: seq<string>, t: seq<string>, x: string)
    requires x in s
    ensures x in s + t && FirstIndex(s + t, x) == FirstIndex(s, x)
  {
    var i := FirstIndex(s, x);
    assert (s + t)[i] == x;
  }

  /** Every element of `r` occurs in `s`, and the elements of `r` appear in the
      order of their first occurrences in `s`. */
  predicate InFirstSeenOrder(r: seq<string>, s: seq<string>) {
    && (forall i :: 0 <= i < |r| ==> r[i] in s)
    && (forall i, j :: 0 <= i < j < |r| ==> FirstIndex(s, r[i]) < FirstIndex(s, r[j]))
  }

  lemma InFirstSeenOrderSnoc(r: seq<string>, s: seq<string>, d: string)
    requires InFirstSeenOrder(r, s)
    ensures InFirstSeenOrder(r, s + [d])
    ensures d !in s ==> InFirstSeenOrder(r + [d], s + [d])
  {
    forall i | 0 <= i < |r| ensures FirstIndex(s + [d], r[i]) == FirstIndex(s, r[i]) {
      FirstIndexPrefix(s, [d], r[i]);
    }
    if d !in s {
      assert FirstIndex(s + [d], d) == |s| by {
        assert (s + [d])[..|s|] == s;
      }
      var r' := r + [d];
      assert forall i :: 0 <= i < |r| ==> r'[i] == r[i];
    }
  }

  /** `domain_array` keeps first-seen order: its entries appear in the order in which
      they first occur in the list it started from followed by the domains taken
      from the queue. */
  lemma {:induction false} AddAllFirstSeenOrder(seen: seq<string>, ds: seq<string>)
    requires NoDuplicates(seen)
    ensures InFirstSeenOrder(AddAll(seen, ds), seen + ds)
  {
    if ds == [] {
      assert seen + ds == seen;
      assert forall i :: 0 <= i < |seen| ==> FirstIndex(seen, seen[i]) == i;
    } else {
      var init, d := ds[..|ds| - 1], ds[|ds| - 1];
      AddAllFirstSeenOrder(seen, init);
      AddAllElements(seen, init);
      assert seen + ds == (seen + init) + [d];
      InFirstSeenOrderSnoc(AddAll(seen, init), seen + init, d);
    }
  }
}
