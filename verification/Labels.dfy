/**
 Label matching of params/params.go and params/requests.go. `lower` stands for
 strings.ToLower, about which nothing is assumed.
 */
module Labels {

  datatype Label = Label(name: string, kind: string)

  /** The labels up to letter case. */
  function Folded(lower: string -> string, xs: seq<string>): set<string> {
    set x | x in xs :: lower(x)
  }

  predicate NoCaseDuplicates(lower: string -> string, xs: seq<string>) {
    forall i, j :: 0 <= i < j < |xs| ==> lower(xs[i]) != lower(xs[j])
  }

  /** What Pool.HasRequiredLabels decides, with its length shortcut. */
  predicate PoolMatches(lower: string -> string, tags: seq<string>, labels: seq<string>) {
    |labels| <= |tags| && Folded(lower, labels) <= Folded(lower, tags)
  }

  method FoldAll(lower: string -> string, start: set<string>, xs: seq<string>) returns (asMap: set<string>)
    ensures asMap == start + Folded(lower, xs)
  {
    asMap := start;
    for i := 0 to |xs|
      invariant asMap == start + Folded(lower, xs[..i])
    {
      assert xs[..i + 1] == xs[..i] + [xs[i]];
      asMap := asMap + {lower(xs[i])};
    }
    assert xs[..|xs|] == xs;
  }

  method AllIn(lower: string -> string, labels: seq<string>, asMap: set<string>) returns (r: bool)
    ensures r <==> Folded(lower, labels) <= asMap
  {
    for i := 0 to |labels|
      invariant forall k :: 0 <= k < i ==> lower(labels[k]) in asMap
    {
      if lower(labels[i]) !in asMap {
        assert lower(labels[i]) in Folded(lower, labels);
        return false;
      }
    }
    return true;
  }

  method PoolHasRequiredLabels(lower: string -> string, tags: seq<string>, labels: seq<string>) returns (r: bool)
    ensures r <==> PoolMatches(lower, tags, labels)
  {
    if |labels| > |tags| {
      return false;
    }
    var asMap := FoldAll(lower, {}, tags);
    r := AllIn(lower, labels, asMap);
  }

  lemma {:induction false} FoldedSize(lower: string -> string, xs: seq<string>)
    ensures |Folded(lower, xs)| <= |xs|
    ensures NoCaseDuplicates(lower, xs) ==> |Folded(lower, xs)| == |xs|
  {
    if xs == [] {
      assert Folded(lower, xs) == {};
    } else {
      var rest, last := xs[..|xs| - 1], lower(xs[|xs| - 1]);
      FoldedSize(lower, rest);
      assert xs == rest + [xs[|xs| - 1]];
      assert Folded(lower, xs) == Folded(lower, rest) + {last};
      assert NoCaseDuplicates(lower, xs) ==> last !in Folded(lower, rest);
    }
  }

  lemma SubsetSize<T>(a: set<T>, b: set<T>)
    requires a <= b
    ensures |a| <= |b|
  {
    assert |b - a| + |a| == |b| by { assert b == a + (b - a); }
  }

  /**
   The length shortcut is harmless exactly for requests without case-insensitive
   duplicates: for those, and only for those, every pool's verdict is plain
   coverage up to letter case.
   */
  lemma ShortcutIsHarmlessIff(lower: string -> string, labels: seq<string>)
    ensures NoCaseDuplicates(lower, labels) <==>
              forall tags: seq<string> ::
                PoolMatches(lower, tags, labels) <==> Folded(lower, labels) <= Folded(lower, tags)
  {
    if NoCaseDuplicates(lower, labels) {
      forall tags: seq<string> | Folded(lower, labels) <= Folded(lower, tags)
        ensures PoolMatches(lower, tags, labels)
      {
        FoldedSize(lower, labels);
        FoldedSize(lower, tags);
        SubsetSize(Folded(lower, labels), Folded(lower, tags));
      }
    } else {
      var i, j :| 0 <= i < j < |labels| && lower(labels[i]) == lower(labels[j]);
      var tags := labels[..j] + labels[j + 1..];
      forall x | x in Folded(lower, labels) ensures x in Folded(lower, tags) {
        var k :| 0 <= k < |labels| && lower(labels[k]) == x;
        var m := if k == j then i else k;
        assert labels[m] == tags[if m < j then m else m - 1];
      }
      assert !PoolMatches(lower, tags, labels);
    }
  }

  // ----- Scale sets -----

  /** Keep the first occurrence of each element. */
  function Dedup(xs: seq<string>): seq<string> {
    if xs == [] then []
    else
      var front, last := xs[..|xs| - 1], xs[|xs| - 1];
      if last in front then Dedup(front) else Dedup(front) + [last]
  }

  function Names(labels: seq<Label>): seq<string> {
    seq(|labels|, i requires 0 <= i < |labels| => labels[i].name)
  }

  /** GitHubLabels of ScaleSet (over its tag names) and of CreateScaleSetParams (over its labels). */
  method GitHubLabels(name: string, tags: seq<string>) returns (labels: seq<Label>)
    ensures Names(labels) == Dedup([name] + tags)
    ensures labels != [] && labels[0] == Label(name, "System")
    ensures forall i :: 1 <= i < |labels| ==> labels[i].kind == ""
  {
    labels := [Label(name, "System")];
    var seen := {name};
    ghost var all := [name] + tags;
    assert all[..1] == [name] && Dedup([name]) == [name];
    for i := 0 to |tags|
      invariant forall x :: x in seen <==> x in all[..i + 1]
      invariant Names(labels) == Dedup(all[..i + 1])
      invariant labels != [] && labels[0] == Label(name, "System")
      invariant forall k :: 1 <= k < |labels| ==> labels[k].kind == ""
    {
      var t := tags[i];
      assert all[..i + 2] == all[..i + 1] + [t];
      assert all[..i + 2][..i + 1] == all[..i + 1];
      if t in seen {
        continue;
      }
      seen := seen + {t};
      assert Names(labels + [Label(t, "")]) == Names(labels) + [t];
      labels := labels + [Label(t, "")];
    }
    assert all[..|tags| + 1] == all;
  }

  function FirstIndex(xs: seq<string>, x: string): (i: nat)
    requires x in xs
    ensures i < |xs| && xs[i] == x && x !in xs[..i]
  {
    if xs[0] == x then 0
    else
      var i := 1 + FirstIndex(xs[1..], x);
      assert xs[..i] == [xs[0]] + xs[1..][..i - 1];
      i
  }

  lemma FirstIndexUnique(xs: seq<string>, x: string, i: nat)
    requires i < |xs| && xs[i] == x && x !in xs[..i]
    ensures x in xs && FirstIndex(xs, x) == i
  {
  }

  /** De-duplication keeps exactly the elements, each once, in the order of their first occurrences. */
  lemma {:induction false} DedupMeaning(xs: seq<string>)
    ensures forall x :: x in Dedup(xs) <==> x in xs
    ensures forall i, j :: 0 <= i < j < |Dedup(xs)| ==>
              FirstIndex(xs, Dedup(xs)[i]) < FirstIndex(xs, Dedup(xs)[j])
  {
    if xs != [] {
      var front, last := xs[..|xs| - 1], xs[|xs| - 1];
      DedupMeaning(front);
      assert xs == front + [last];
      forall x | x in front ensures FirstIndex(xs, x) == FirstIndex(front, x) {
        var i := FirstIndex(front, x);
        assert xs[..i] == front[..i];
        FirstIndexUnique(xs, x, i);
      }
      if last !in front {
        assert xs[..|front|] == front;
        FirstIndexUnique(xs, last, |front|);
      }
    }
  }

  /** What ScaleSet.HasRequiredLabels decides. */
  method ScaleSetHasRequiredLabels(lower: string -> string, name: string, tags: seq<string>, labels: seq<string>)
      returns (r: bool)
    ensures r <==> labels != [] && Folded(lower, labels) <= Folded(lower, Dedup([name] + tags))
  {
    if |labels| == 0 {
      return false;
    }
    var asMap := FoldAll(lower, {lower(name)}, tags);
    DedupMeaning([name] + tags);
    assert asMap == Folded(lower, Dedup([name] + tags));
    r := AllIn(lower, labels, asMap);
  }
}
