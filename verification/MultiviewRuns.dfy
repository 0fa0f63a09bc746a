/** What view routing promises: requests own outputs, views reach the requests that select
    them. */
module MultiviewRuns {
  import Arithmetic
  import opened Options
  import opened Multiview

  // ---- requests over a run ----

  datatype Asked = Asked(requests: seq<Request>, sources: seq<Result<nat>>)

  function AskAll(specifiers: seq<ViewSpecifier>): (r: Asked)
    ensures |r.sources| == |specifiers|
    decreases |specifiers|
  {
    if specifiers == [] then Asked([], [])
    else
      var n := |specifiers| - 1;
      var before := AskAll(specifiers[..n]);
      var (requests, source) := Ask(before.requests, specifiers[n]);
      Asked(requests, before.sources + [source])
  }

  /** Every answered specifier got the output of the request equal to it. */
  predicate Answered(specifiers: seq<ViewSpecifier>, a: Asked)
    requires |a.sources| == |specifiers|
  {
    forall k :: 0 <= k < |specifiers| && a.sources[k].Ok? ==>
      && a.sources[k].value < |a.requests|
      && a.requests[a.sources[k].value].vs == Normalized(specifiers[k])
  }

  lemma AskKeepsOwned(requests: seq<Request>, vs: ViewSpecifier)
    requires Owned(requests, Arithmetic.Max(1, |requests|))
    ensures var (asked, source) := Ask(requests, vs);
            && Owned(asked, Arithmetic.Max(1, |asked|))
            && requests <= asked
            && (source.Ok? ==> source.value < |asked| && asked[source.value].vs == Normalized(vs))
            && (|asked| < MASK_BITS ==> source.Ok?)
  {
  }

  predicate Sound(a: Asked) { Owned(a.requests, Arithmetic.Max(1, |a.requests|)) }

  predicate NoneRefused(a: Asked) {
    |a.requests| < MASK_BITS ==> forall k :: 0 <= k < |a.sources| ==> a.sources[k].Ok?
  }

  lemma AskMore(specifiers: seq<ViewSpecifier>, before: Asked, vs: ViewSpecifier)
    requires |before.sources| == |specifiers| && Sound(before) && Answered(specifiers, before) && NoneRefused(before)
    ensures var (requests, source) := Ask(before.requests, vs);
            var a := Asked(requests, before.sources + [source]);
            Sound(a) && Answered(specifiers + [vs], a) && NoneRefused(a)
  {
    AskKeepsOwned(before.requests, vs);
    var (requests, source) := Ask(before.requests, vs);
    var a := Asked(requests, before.sources + [source]);
    forall k | 0 <= k <= |specifiers| && a.sources[k].Ok?
      ensures a.sources[k].value < |a.requests|
      ensures a.requests[a.sources[k].value].vs == Normalized((specifiers + [vs])[k])
    {
      if k < |specifiers| {
        assert a.sources[k] == before.sources[k] && (specifiers + [vs])[k] == specifiers[k];
        assert a.requests[a.sources[k].value] == before.requests[before.sources[k].value];
      }
    }
  }

  /** However views are requested, request i owns output i, no view specifier is requested
      twice, and nothing is refused before 64 different ones are known. */
  lemma {:induction false} RequestsOwnOutputs(specifiers: seq<ViewSpecifier>)
    ensures Sound(AskAll(specifiers)) && Answered(specifiers, AskAll(specifiers)) && NoneRefused(AskAll(specifiers))
    decreases |specifiers|
  {
    if specifiers != [] {
      var n := |specifiers| - 1;
      RequestsOwnOutputs(specifiers[..n]);
      AskMore(specifiers[..n], AskAll(specifiers[..n]), specifiers[n]);
      assert specifiers == specifiers[..n] + [specifiers[n]];
    }
  }

  /** Two requests share a decoder output exactly if they ask for the same thing. */
  lemma SharedExactly(specifiers: seq<ViewSpecifier>, i: nat, j: nat)
    requires i < |specifiers| && j < |specifiers|
    requires AskAll(specifiers).sources[i].Ok? && AskAll(specifiers).sources[j].Ok?
    ensures AskAll(specifiers).sources[i] == AskAll(specifiers).sources[j]
            <==> Normalized(specifiers[i]) == Normalized(specifiers[j])
  {
    RequestsOwnOutputs(specifiers);
    var a := AskAll(specifiers);
    SameOutput(a.requests, a.sources[i].value, a.sources[j].value);
  }

  lemma SameOutput(requests: seq<Request>, x: nat, y: nat)
    requires Owned(requests, Arithmetic.Max(1, |requests|)) && x < |requests| && y < |requests|
    ensures x == y <==> requests[x].vs == requests[y].vs
  {
  }

  // ---- the routing table ----

  /** Apart from AllViews a request selects at most one view. */
  lemma SelectsOne(vs: ViewSpecifier, av: Available, j: nat, k: nat)
    requires ValidAvailable(av) && j < |av.ids| && k < |av.ids|
    requires Selects(vs, av, j) && Selects(vs, av, k) && !vs.AllViews?
    ensures j == k
  {
  }

  /** `list` holds the ids at the given positions. */
  predicate NamesThem(ids: seq<nat>, positions: seq<nat>, list: seq<nat>) {
    |list| == |positions| && forall k :: 0 <= k < |positions| ==> positions[k] < |ids| && list[k] == ids[positions[k]]
  }

  lemma NamesMore(ids: seq<nat>, positions: seq<nat>, list: seq<nat>)
    requires ids != [] && NamesThem(ids[..|ids| - 1], positions, list)
    ensures NamesThem(ids, positions, list)
    ensures NamesThem(ids, positions + [|ids| - 1], list + [ids[|ids| - 1]])
  {
  }

  /** The id list sent to the decoder names the wanted views by ascending position. */
  lemma {:induction false} IdsInPosition(ids: seq<nat>, s: set<nat>)
    requires forall x :: x in s ==> x < |ids|
    ensures NamesThem(ids, Ascending(s), IdsAt(ids, s))
    decreases |ids|
  {
    if ids == [] {
      assert s == {};
    } else {
      var n := |ids| - 1;
      var rest := s - {n};
      IdsInPosition(ids[..n], rest);
      NamesMore(ids, Ascending(rest), IdsAt(ids[..n], rest));
      if n in s {
        assert rest + {n} == s;
        IdsAtIgnores(ids[..n], rest, n);
        AscendingGrows(rest, n);
      } else {
        assert rest == s;
      }
    }
  }

  lemma {:induction false} AscendingGrows(s: set<nat>, p: nat)
    requires forall x :: x in s ==> x < p
    ensures Ascending(s + {p}) == Ascending(s) + [p]
    decreases |s|
  {
    if s == {} {
      assert s + {p} == {p} && TrailingZeros({p}) == p;
      assert {p} - {p} == {};
    } else {
      var m := TrailingZeros(s);
      assert TrailingZeros(s + {p}) == m;
      assert s + {p} - {m} == s - {m} + {p};
      AscendingGrows(s - {m}, p);
    }
  }

  /** The setup fails for want of views exactly when every request misses. */
  lemma NothingWanted(requests: seq<Request>, av: Available)
    ensures Wanted(MapFor(requests, av)) == {} <==> forall i :: 0 <= i < |requests| ==> !Found(requests[i].vs, av)
  {
    var m := MapFor(requests, av);
    if Wanted(m) == {} {
      forall i | 0 <= i < |requests|
        ensures !Found(requests[i].vs, av)
      {
        forall j | 0 <= j < |av.ids|
          ensures !Selects(requests[i].vs, av, j)
        {
          assert j !in Wanted(m);
          assert i !in m[j].outMask;
        }
      }
    } else {
      var j :| j in Wanted(m);
      var i :| i in m[j].outMask;
      assert Selects(requests[i].vs, av, j);
    }
  }

  /** After a successful setup: bit i of a view's mask is set exactly if request i selects the
      view, the wanted views are those with a mask, and with exit_on_error every request is
      routed somewhere. */
  lemma RoutingExact(requests: seq<Request>, available: Option<Available>, failure: Option<int>, exitOnError: bool)
    requires Setup(requests, available, failure, exitOnError).error.None?
    ensures available.Some? && |Effective(available.value).ids| < UNSIGNED_BITS
    ensures var av := Effective(available.value);
            var m := Setup(requests, available, failure, exitOnError).views;
            && |m| == |av.ids|
            && Wanted(m) != {}
            && (forall i, j :: 0 <= i < |requests| && 0 <= j < |m| ==>
                 (i in m[j].outMask <==> Selects(requests[i].vs, av, j)))
            && (exitOnError ==> forall i :: 0 <= i < |requests| && !requests[i].vs.NoView? ==>
                                  exists j :: 0 <= j < |m| && i in m[j].outMask)
  {
    var av := Effective(available.value);
    var m := Setup(requests, available, failure, exitOnError).views;
    if exitOnError {
      forall i | 0 <= i < |requests| && !requests[i].vs.NoView?
        ensures exists j :: 0 <= j < |m| && i in m[j].outMask
      {
        var missing := FirstMissing(requests, av);
        assert !Missing(requests[i], av);
        var j :| 0 <= j < |av.ids| && Selects(requests[i].vs, av, j);
        assert i in m[j].outMask;
      }
    }
  }

  // ---- delivery ----

  lemma {:induction false} TagOfView(m: seq<View>, j: nat)
    requires j < |m| && forall k :: 0 <= k < j ==> m[k].id != m[j].id
    ensures Tag(m, m[j].id) == m[j].outMask
  {
    if j > 0 {
      TagOfView(m[1..], j - 1);
    }
  }

  function Elements(s: seq<nat>): set<nat> { set x | x in s }

  /** With every send succeeding a frame is given to only the lower half of the outputs in
      its mask. */
  function Served(mask: set<nat>): seq<nat> {
    AscendingLists(mask);
    Ascending(mask)[..(|mask| + 1) / 2]
  }

  /** A frame of view j reaches exactly the outputs requesting the view if and only if there
      is one such output and it is one of the first 32. */
  lemma DeliveredExactly(m: seq<View>, j: nat)
    requires j < |m| && forall k :: 0 <= k < j ==> m[k].id != m[j].id
    ensures Elements(Served(OutputsMask(Tag(m, m[j].id)))) == m[j].outMask
            <==> |m[j].outMask| == 1 && forall b :: b in m[j].outMask ==> b < UNSIGNED_BITS
  {
    TagOfView(m, j);
    var wanted := m[j].outMask;
    var mask := OutputsMask(wanted);
    AscendingLists(mask);
    var served := Served(mask);
    if wanted == {} {
      ServedSubset({0});
      assert mask == {0} && |mask| == 1;
      assert served[0] in Elements(served);
    } else {
      assert mask <= wanted;
      CountSubset(mask, wanted);
      CountElements(served);
      ServedSubset(mask);
      if |wanted| == 1 && mask == wanted {
        CountSubset(Elements(served), mask);
        AllServed(mask);
      }
      if Elements(served) == wanted {
        CountSubset(Elements(served), mask);
        assert |wanted| <= (|mask| + 1) / 2;
        assert mask == wanted;
      }
    }
  }

  lemma ServedSubset(mask: set<nat>)
    ensures Elements(Served(mask)) <= mask
  {
    AscendingLists(mask);
    forall x | x in Elements(Served(mask))
      ensures x in mask
    {
      assert x in Ascending(mask);
    }
  }

  lemma AllServed(mask: set<nat>)
    requires |mask| == 1
    ensures Elements(Served(mask)) == mask
  {
    AscendingLists(mask);
    assert Served(mask) == Ascending(mask);
    assert forall x :: x in mask ==> x in Ascending(mask);
  }

  lemma {:induction false} CountSubset(a: set<nat>, b: set<nat>)
    requires a <= b
    ensures |a| <= |b| && (|a| == |b| ==> a == b)
  {
    assert a + (b - a) == b;
    if |a| == |b| {
      assert |b - a| == 0;
    }
  }

  lemma {:induction false} CountElements(s: seq<nat>)
    ensures |Elements(s)| <= |s|
  {
    if s != [] {
      CountElements(s[1..]);
      assert Elements(s) == {s[0]} + Elements(s[1..]);
    }
  }
}
