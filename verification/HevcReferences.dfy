/** VA's view of the decoded picture buffer, sorted the way H.265 builds its reference picture sets
    (src/codec/hevc.cc, collect_references). */
module HevcReferences {
  import opened Outcome

  /** One entry of ReferenceFrames[]; `current` stands for any of the three RPS_*_CURR flags. */
  datatype VaReference = VaReference(present: bool, poc: int, longTerm: bool, current: bool)

  datatype Reference = Reference(index: nat, poc: int, used: bool)

  datatype References = References(before: seq<Reference>, after: seq<Reference>, longTerm: seq<Reference>) {
    /** The initial list `l` as positions in ReferenceFrames[] (section 8.3.4 of H.265). */
    function List(l: nat): seq<nat> {
      (if l == 0 then UsedIndices(before) + UsedIndices(after) else UsedIndices(after) + UsedIndices(before))
      + UsedIndices(longTerm)
    }

    function TotalCurr(): nat {
      |List(0)|
    }
  }

  datatype Kind = Before | After | LongTerm

  function KindOf(r: VaReference, current: int): Kind {
    if r.longTerm then LongTerm else if r.poc < current then Before else After
  }

  function UsedIndices(s: seq<Reference>): seq<nat> {
    if s == [] then [] else (if s[0].used then [s[0].index] else []) + UsedIndices(s[1..])
  }

  /** The references of one kind among the first `n` entries, in entry order. */
  function Bucket(frames: seq<VaReference>, current: int, kind: Kind, n: nat): seq<Reference>
    requires n <= |frames|
  {
    if n == 0 then []
    else
      var f := frames[n - 1];
      Bucket(frames, current, kind, n - 1)
      + if f.present && KindOf(f, current) == kind then [Reference(n - 1, f.poc, f.current)] else []
  }

  /** No two references, nor a reference and the current picture, share a picture order count. */
  ghost predicate Distinct(frames: seq<VaReference>, current: int, n: nat)
    requires n <= |frames|
  {
    forall i :: 0 <= i < n && frames[i].present ==>
      frames[i].poc != current && forall j :: 0 <= j < i && frames[j].present ==> frames[j].poc != frames[i].poc
  }

  // ---------------------------------------------------------------- sorting

  function Key(r: Reference, ascending: bool): int {
    if ascending then r.poc else -r.poc
  }

  function Insert(r: Reference, s: seq<Reference>, ascending: bool): seq<Reference> {
    if s == [] then [r]
    else if Key(r, ascending) < Key(s[0], ascending) then [r] + s
    else [s[0]] + Insert(r, s[1..], ascending)
  }

  function Sorted(s: seq<Reference>, ascending: bool): seq<Reference> {
    if s == [] then [] else Insert(s[|s| - 1], Sorted(s[..|s| - 1], ascending), ascending)
  }

  ghost predicate Strict(s: seq<Reference>, ascending: bool) {
    forall i, j :: 0 <= i < j < |s| ==> Key(s[i], ascending) < Key(s[j], ascending)
  }

  lemma {:induction false} InsertMembers(r: Reference, s: seq<Reference>, ascending: bool, q: Reference)
    ensures q in Insert(r, s, ascending) <==> q == r || q in s
  {
    if s != [] {
      InsertMembers(r, s[1..], ascending, q);
      assert q in s <==> q == s[0] || q in s[1..];
    }
  }

  lemma {:induction false} SortedMembers(s: seq<Reference>, ascending: bool, q: Reference)
    ensures q in Sorted(s, ascending) <==> q in s
  {
    if s != [] {
      var n := |s| - 1;
      SortedMembers(s[..n], ascending, q);
      InsertMembers(s[n], Sorted(s[..n], ascending), ascending, q);
      assert q in s <==> q == s[n] || q in s[..n];
    }
  }

  lemma {:induction false} InsertStrict(r: Reference, s: seq<Reference>, ascending: bool)
    requires Strict(s, ascending) && forall q :: q in s ==> q.poc != r.poc
    ensures Strict(Insert(r, s, ascending), ascending)
  {
    if s == [] {
    } else if Key(r, ascending) < Key(s[0], ascending) {
    } else {
      InsertStrict(r, s[1..], ascending);
      forall q | q in Insert(r, s[1..], ascending)
        ensures Key(s[0], ascending) < Key(q, ascending)
      {
        InsertMembers(r, s[1..], ascending, q);
        assert s[0] in s;
      }
    }
  }

  lemma {:induction false} SortedStrict(s: seq<Reference>, ascending: bool)
    requires forall i, j :: 0 <= i < j < |s| ==> s[i].poc != s[j].poc
    ensures Strict(Sorted(s, ascending), ascending)
  {
    if s != [] {
      var n := |s| - 1;
      SortedStrict(s[..n], ascending);
      forall q | q in Sorted(s[..n], ascending)
        ensures q.poc != s[n].poc
      {
        SortedMembers(s[..n], ascending, q);
      }
      InsertStrict(s[n], Sorted(s[..n], ascending), ascending);
    }
  }

  // ---------------------------------------------------------------- collecting

  /** `r` repeats what VA says about the entry at its index. */
  ghost predicate Repeats(frames: seq<VaReference>, r: Reference) {
    && r.index < |frames|
    && var f := frames[r.index];
       f.present && f.poc == r.poc && f.current == r.used
  }

  /** The three sets of section 8.3.2: the short-term references before the current picture, the nearest first,
      those after it, the nearest first, and the long-term ones. */
  ghost predicate Filed(frames: seq<VaReference>, current: int, refs: References) {
    && (forall r :: r in refs.before <==> Repeats(frames, r) && !frames[r.index].longTerm && r.poc < current)
    && (forall r :: r in refs.after <==> Repeats(frames, r) && !frames[r.index].longTerm && r.poc > current)
    && (forall r :: r in refs.longTerm <==> Repeats(frames, r) && frames[r.index].longTerm)
    && (forall i, j :: 0 <= i < j < |refs.before| ==> refs.before[i].poc > refs.before[j].poc)
    && (forall i, j :: 0 <= i < j < |refs.after| ==> refs.after[i].poc < refs.after[j].poc)
    && (forall i, j :: 0 <= i < j < |refs.longTerm| ==> refs.longTerm[i].poc > refs.longTerm[j].poc)
  }

  function Collected(frames: seq<VaReference>, current: int): References {
    References(Sorted(Bucket(frames, current, Before, |frames|), false),
               Sorted(Bucket(frames, current, After, |frames|), true),
               Sorted(Bucket(frames, current, LongTerm, |frames|), false))
  }

  /** `r` stands for a present entry of the given kind. */
  ghost predicate Stands(frames: seq<VaReference>, current: int, kind: Kind, r: Reference) {
    && r.index < |frames|
    && var f := frames[r.index];
       f.present && KindOf(f, current) == kind && f.poc == r.poc && f.current == r.used
  }

  /** `s` holds exactly the present entries of the kind, each once, in strict order. */
  ghost predicate Exactly(frames: seq<VaReference>, current: int, kind: Kind, s: seq<Reference>, ascending: bool) {
    && Strict(s, ascending)
    && (forall r :: r in s ==> Stands(frames, current, kind, r))
    && (forall i {:trigger frames[i]} ::
          0 <= i < |frames| && frames[i].present && KindOf(frames[i], current) == kind ==>
          Reference(i, frames[i].poc, frames[i].current) in s)
  }

  lemma {:induction false} BucketExact(frames: seq<VaReference>, current: int, kind: Kind, n: nat)
    requires n <= |frames|
    ensures var s := Bucket(frames, current, kind, n);
            && (forall r :: r in s ==> Stands(frames, current, kind, r) && r.index < n)
            && (forall i :: 0 <= i < n && frames[i].present && KindOf(frames[i], current) == kind ==>
                  Reference(i, frames[i].poc, frames[i].current) in s)
  {
    if n > 0 {
      BucketExact(frames, current, kind, n - 1);
    }
  }

  lemma {:induction false} BucketDistinct(frames: seq<VaReference>, current: int, kind: Kind, n: nat)
    requires n <= |frames| && Distinct(frames, current, n)
    ensures var s := Bucket(frames, current, kind, n);
            forall i, j :: 0 <= i < j < |s| ==> s[i].poc != s[j].poc
  {
    if n > 0 {
      BucketDistinct(frames, current, kind, n - 1);
      BucketExact(frames, current, kind, n - 1);
      var s := Bucket(frames, current, kind, n - 1);
      forall i | 0 <= i < |s|
        ensures frames[n - 1].present ==> s[i].poc != frames[n - 1].poc
      {
        assert s[i] in s;
      }
    }
  }

  lemma CollectedKinds(frames: seq<VaReference>, current: int)
    requires Distinct(frames, current, |frames|)
    ensures var refs := Collected(frames, current);
            && Exactly(frames, current, Before, refs.before, false)
            && Exactly(frames, current, After, refs.after, true)
            && Exactly(frames, current, LongTerm, refs.longTerm, false)
  {
    SortedExact(frames, current, Before, false);
    SortedExact(frames, current, After, true);
    SortedExact(frames, current, LongTerm, false);
  }

  lemma SortedExact(frames: seq<VaReference>, current: int, kind: Kind, ascending: bool)
    requires Distinct(frames, current, |frames|)
    ensures Exactly(frames, current, kind, Sorted(Bucket(frames, current, kind, |frames|), ascending), ascending)
  {
    var s := Bucket(frames, current, kind, |frames|);
    var t := Sorted(s, ascending);
    BucketExact(frames, current, kind, |frames|);
    BucketDistinct(frames, current, kind, |frames|);
    SortedStrict(s, ascending);
    forall r
      ensures r in t <==> r in s
    {
      SortedMembers(s, ascending, r);
    }
  }

  /** Each of the three sets has exactly what VA says, nothing lost and nothing twice, in the order of H.265. */
  lemma CollectedExact(frames: seq<VaReference>, current: int)
    requires Distinct(frames, current, |frames|)
    ensures Filed(frames, current, Collected(frames, current))
  {
    hide Collected;
    CollectedKinds(frames, current);
    var refs := Collected(frames, current);
    ByField(frames, current, Before, refs.before, false);
    ByField(frames, current, After, refs.after, true);
    ByField(frames, current, LongTerm, refs.longTerm, false);
  }

  lemma ByField(frames: seq<VaReference>, current: int, kind: Kind, s: seq<Reference>, ascending: bool)
    requires Distinct(frames, current, |frames|) && Exactly(frames, current, kind, s, ascending)
    ensures forall r :: r in s <==>
              && Repeats(frames, r)
              && frames[r.index].longTerm == kind.LongTerm?
              && (kind.Before? ==> r.poc < current) && (kind.After? ==> r.poc > current)
    ensures forall i, j :: 0 <= i < j < |s| ==> if ascending then s[i].poc < s[j].poc else s[i].poc > s[j].poc
  {
    forall r | r in s
      ensures Stands(frames, current, kind, r)
    {
    }
    forall r | Repeats(frames, r) && KindOf(frames[r.index], current) == kind
      ensures r in s
    {
      assert r == Reference(r.index, frames[r.index].poc, frames[r.index].current);
    }
    forall i, j | 0 <= i < j < |s|
      ensures Key(s[i], ascending) < Key(s[j], ascending)
    {
    }
  }

  method CollectReferences(frames: seq<VaReference>, current: int) returns (r: Result<References>)
    ensures r == if Distinct(frames, current, |frames|) then Ok(Collected(frames, current)) else Err(InvalidBuffer)
    ensures r.Ok? ==> Filed(frames, current, r.value)
  {
    var before: seq<Reference>, after: seq<Reference>, longTerm: seq<Reference> := [], [], [];
    var pocs: seq<int> := [];
    for i := 0 to |frames|
      invariant before == Bucket(frames, current, Before, i)
      invariant after == Bucket(frames, current, After, i)
      invariant longTerm == Bucket(frames, current, LongTerm, i)
      invariant forall j :: 0 <= j < i && frames[j].present ==> frames[j].poc in pocs
      invariant forall x :: x in pocs ==> exists j :: 0 <= j < i && frames[j].present && frames[j].poc == x
      invariant Distinct(frames, current, i)
    {
      var f := frames[i];
      if !f.present {
        continue;
      }
      if f.poc == current || f.poc in pocs {
        return Err(InvalidBuffer);
      }
      pocs := pocs + [f.poc];
      var reference := Reference(i, f.poc, f.current);
      if f.longTerm {
        longTerm := longTerm + [reference];
      } else if f.poc < current {
        before := before + [reference];
      } else {
        after := after + [reference];
      }
    }
    r := Ok(References(Sorted(before, false), Sorted(after, true), Sorted(longTerm, false)));
    CollectedExact(frames, current);
  }

  ghost predicate DuplicateFree<T(!new)>(s: seq<T>) {
    forall i, j :: 0 <= i < j < |s| ==> s[i] != s[j]
  }

  lemma {:induction false} UsedIndicesOf(s: seq<Reference>, x: nat)
    ensures x in UsedIndices(s) <==> exists r :: r in s && r.used && r.index == x
  {
    if s != [] {
      UsedIndicesOf(s[1..], x);
      assert s == [s[0]] + s[1..];
    }
  }

  lemma {:induction false} UsedIndicesDistinct(frames: seq<VaReference>, current: int, kind: Kind, s: seq<Reference>,
                                               ascending: bool)
    requires Strict(s, ascending) && forall r :: r in s ==> Stands(frames, current, kind, r)
    ensures DuplicateFree(UsedIndices(s))
    ensures forall x :: x in UsedIndices(s) ==> x < |frames| && frames[x].present && KindOf(frames[x], current) == kind
  {
    if s != [] {
      var rest := s[1..];
      assert forall r :: r in rest ==> r in s;
      UsedIndicesDistinct(frames, current, kind, rest, ascending);
      assert Stands(frames, current, kind, s[0]);
      forall k | 0 <= k < |rest|
        ensures rest[k].index != s[0].index
      {
        assert Key(s[0], ascending) < Key(s[k + 1], ascending);
        assert Stands(frames, current, kind, rest[k]);
      }
      UsedIndicesOf(rest, s[0].index);
      ConcatDuplicateFree(if s[0].used then [s[0].index] else [], UsedIndices(rest));
    }
  }

  lemma ConcatDuplicateFree<T(!new)>(a: seq<T>, b: seq<T>)
    requires DuplicateFree(a) && DuplicateFree(b) && forall x :: x in a ==> x !in b
    ensures DuplicateFree(a + b)
  {
    forall i, j | 0 <= i < j < |a + b|
      ensures (a + b)[i] != (a + b)[j]
    {
      if i < |a| {
        assert a[i] in a;
      }
    }
  }

  /** The two initial lists are duplicate-free and hold the same entries, in a different order. */
  lemma ListsPermute(frames: seq<VaReference>, current: int)
    requires Distinct(frames, current, |frames|)
    ensures var refs := Collected(frames, current);
            && DuplicateFree(refs.List(0)) && DuplicateFree(refs.List(1))
            && multiset(refs.List(0)) == multiset(refs.List(1))
            && |refs.List(0)| == |refs.List(1)|
  {
    var refs := Collected(frames, current);
    CollectedKinds(frames, current);
    UsedIndicesDistinct(frames, current, Before, refs.before, false);
    UsedIndicesDistinct(frames, current, After, refs.after, true);
    UsedIndicesDistinct(frames, current, LongTerm, refs.longTerm, false);
    var a, b, c := UsedIndices(refs.before), UsedIndices(refs.after), UsedIndices(refs.longTerm);
    hide Collected, UsedIndices, Strict;
    ThreePartLists(a, b, c);
  }

  lemma ThreePartLists<T(!new)>(a: seq<T>, b: seq<T>, c: seq<T>)
    requires DuplicateFree(a) && DuplicateFree(b) && DuplicateFree(c)
    requires forall x :: x in a ==> x !in b && x !in c
    requires forall x :: x in b ==> x !in c
    ensures DuplicateFree(a + b + c) && DuplicateFree(b + a + c)
    ensures multiset(a + b + c) == multiset(b + a + c)
  {
    ConcatDuplicateFree(a, b);
    ConcatDuplicateFree(b, a);
    ConcatDuplicateFree(a + b, c);
    ConcatDuplicateFree(b + a, c);
    assert multiset(a + b) == multiset(b + a);
  }
}
