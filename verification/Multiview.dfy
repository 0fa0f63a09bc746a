/** Routing the views of a multiview video to decoder outputs (fftools/ffmpeg_dec.c:
    dec_request_view, multiview_setup, get_buffer and the output loop of packet_decode).
    Bit masks are sets of bit positions. */
module Multiview {
  import Arithmetic
  import opened Options

  datatype ViewSpecifier = NoView | Idx(val: nat) | Id(val: nat) | Pos(val: nat) | AllViews

  datatype Request = Request(vs: ViewSpecifier, out: nat)

  datatype Error = EINVAL | ENOSYS | DecoderError(code: int)

  datatype Result<T> = Ok(value: T) | Err(error: Error)

  const MASK_BITS: nat := 64
  const UNSIGNED_BITS: nat := 32
  const AV_STEREO3D_VIEW_UNSPEC: nat := 3

  const BASE_VIEW := Idx(0)

  // ---- requesting views ----

  /** Without manual configuration, no specifier means the base view. */
  function Normalized(vs: ViewSpecifier): ViewSpecifier {
    if vs.NoView? then BASE_VIEW else vs
  }

  /** Request i owns decoder output i, and no specifier is requested twice. */
  predicate Owned(requests: seq<Request>, nbOutputs: nat) {
    && |requests| <= MASK_BITS
    && nbOutputs == Arithmetic.Max(1, |requests|)
    && (forall i :: 0 <= i < |requests| ==> requests[i].out == i && !requests[i].vs.NoView?)
    && (forall i, j :: 0 <= i < j < |requests| ==> requests[i].vs != requests[j].vs)
  }

  function FindRequest(requests: seq<Request>, vs: ViewSpecifier): (r: Option<nat>)
    ensures r.Some? ==> r.value < |requests| && requests[r.value].vs == vs
    ensures r.None? ==> forall i :: 0 <= i < |requests| ==> requests[i].vs != vs
  {
    if requests == [] then None
    else
      var init := FindRequest(requests[..|requests| - 1], vs);
      if init.Some? then init
      else if requests[|requests| - 1].vs == vs then Some(|requests| - 1)
      else None
  }

  /** One call of dec_request_view without manual configuration. */
  function Ask(requests: seq<Request>, specifier: ViewSpecifier): (seq<Request>, Result<nat>) {
    var vs := Normalized(specifier);
    var known := FindRequest(requests, vs);
    if known.Some? then (requests, Ok(known.value))
    else if |requests| >= MASK_BITS then (requests, Err(ENOSYS))
    else (requests + [Request(vs, |requests|)], Ok(|requests|))
  }

  // ---- selecting views ----

  /** The views of a coded sequence, and their stereo positions if known. */
  datatype Available = Available(ids: seq<nat>, pos: Option<seq<nat>>)

  predicate ValidAvailable(av: Available) {
    av.pos.Some? ==> |av.pos.value| == |av.ids|
  }

  /** A stream that lists no views has a single one with ID 0. */
  function Effective(av: Available): Available {
    if av.ids == [] then Available([0], Some([AV_STEREO3D_VIEW_UNSPEC])) else av
  }

  predicate FirstAt(s: seq<nat>, v: nat, j: nat) {
    && j < |s| && s[j] == v
    && forall k :: 0 <= k < j ==> s[k] != v
  }

  predicate Selects(vs: ViewSpecifier, av: Available, j: nat)
    requires j < |av.ids|
  {
    match vs
    case NoView => false
    case Idx(val) => j == val
    case Id(val) => FirstAt(av.ids, val, j)
    case Pos(val) => av.pos.Some? && FirstAt(av.pos.value, val, j)
    case AllViews => true
  }

  predicate Found(vs: ViewSpecifier, av: Available) {
    exists j :: 0 <= j < |av.ids| && Selects(vs, av, j)
  }

  /** The requests, by position, that select view j. */
  function Mask(requests: seq<Request>, av: Available, j: nat): set<nat>
    requires j < |av.ids|
  {
    set i | 0 <= i < |requests| && Selects(requests[i].vs, av, j)
  }

  datatype View = View(id: nat, outMask: set<nat>)

  function MapFor(requests: seq<Request>, av: Available): (m: seq<View>)
    ensures |m| == |av.ids|
  {
    seq(|av.ids|, j requires 0 <= j < |av.ids| => View(av.ids[j], Mask(requests, av, j)))
  }

  function Wanted(m: seq<View>): set<nat> {
    set j | 0 <= j < |m| && m[j].outMask != {}
  }

  // ---- bits ----

  predicate IsLeast(m: nat, s: set<nat>) { m in s && forall x :: x in s ==> m <= x }

  lemma {:induction false} LeastExists(s: set<nat>) returns (m: nat)
    requires s != {}
    ensures IsLeast(m, s)
    decreases |s|
  {
    m :| m in s;
    var rest := s - {m};
    assert forall x :: x in s ==> x == m || x in rest;
    if rest != {} {
      var least := LeastExists(rest);
      m := Arithmetic.Min(m, least);
    }
  }

  /** stdc_trailing_zeros. */
  function TrailingZeros(s: set<nat>): (m: nat)
    requires s != {}
    ensures IsLeast(m, s)
  {
    assert exists m :: IsLeast(m, s) by {
      var least := LeastExists(s);
    }
    var m :| IsLeast(m, s);
    m
  }

  /** The positions of a mask from the lowest up. */
  function Ascending(s: set<nat>): (r: seq<nat>)
    ensures |r| == |s|
    decreases |s|
  {
    if s == {} then []
    else
      var m := TrailingZeros(s);
      [m] + Ascending(s - {m})
  }

  lemma {:induction false} AscendingLists(s: set<nat>)
    ensures var r := Ascending(s);
            && (forall x :: x in r <==> x in s)
            && (forall i, j :: 0 <= i < j < |r| ==> r[i] < r[j])
    decreases |s|
  {
    if s != {} {
      var m := TrailingZeros(s);
      var rest := Ascending(s - {m});
      AscendingLists(s - {m});
      assert forall x :: x in s <==> x == m || x in s - {m};
      forall j | 0 <= j < |rest|
        ensures m < rest[j]
      {
        assert rest[j] in rest;
      }
    }
  }

  function Below(n: nat): (s: set<nat>)
    ensures forall x: nat :: x in s <==> x < n
  {
    if n == 0 then {} else Below(n - 1) + {n - 1}
  }

  /** The ids at the positions in `s`, in ascending position. */
  function IdsAt(ids: seq<nat>, s: set<nat>): seq<nat> {
    if ids == [] then []
    else
      var n := |ids| - 1;
      IdsAt(ids[..n], s) + if n in s then [ids[n]] else []
  }

  lemma {:induction false} IdsAtGrows(ids: seq<nat>, s: set<nat>, p: nat)
    requires p < |ids| && forall x :: x in s ==> x < p
    ensures IdsAt(ids, s + {p}) == IdsAt(ids, s) + [ids[p]]
    decreases |ids|
  {
    var n := |ids| - 1;
    if n == p {
      IdsAtIgnores(ids[..n], s, p);
    } else {
      IdsAtGrows(ids[..n], s, p);
    }
  }

  lemma {:induction false} IdsAtIgnores(ids: seq<nat>, s: set<nat>, p: nat)
    requires p >= |ids|
    ensures IdsAt(ids, s + {p}) == IdsAt(ids, s)
  {
    if ids != [] {
      IdsAtIgnores(ids[..|ids| - 1], s, p);
    }
  }

  lemma {:induction false} NoIds(ids: seq<nat>)
    ensures IdsAt(ids, {}) == []
  {
    if ids != [] {
      NoIds(ids[..|ids| - 1]);
    }
  }

  // ---- the code ----

  class MultiviewDecoder {
    const multiviewUserConfig: bool
    var viewsRequested: seq<Request>
    /** The outputs this decoder has in the scheduler. */
    var nbOutputs: nat
    var viewMap: seq<View>
    /** The decoder's view_ids option. */
    var viewIds: seq<nat>

    constructor (userConfig: bool)
      ensures multiviewUserConfig == userConfig && viewsRequested == [] && nbOutputs == 1 && viewMap == []
    {
      multiviewUserConfig := userConfig;
      viewsRequested, nbOutputs, viewMap, viewIds := [], 1, [], [];
    }

    method DecRequestView(specifier: ViewSpecifier) returns (src: Result<nat>)
      requires Owned(viewsRequested, nbOutputs)
      modifies this`viewsRequested, this`nbOutputs
      ensures Owned(viewsRequested, nbOutputs)
      ensures multiviewUserConfig ==>
                && viewsRequested == old(viewsRequested)
                && src == if specifier.NoView? then Ok(0) else Err(EINVAL)
      ensures !multiviewUserConfig ==> (viewsRequested, src) == Ask(old(viewsRequested), specifier)
    {
      if multiviewUserConfig {
        return if specifier.NoView? then Ok(0) else Err(EINVAL);
      }
      var vs := if specifier.NoView? then BASE_VIEW else specifier;
      var i := 0;
      while i < |viewsRequested|
        invariant 0 <= i <= |viewsRequested|
        invariant forall k :: 0 <= k < i ==> viewsRequested[k].vs != vs
      {
        if vs == viewsRequested[i].vs {
          return Ok(viewsRequested[i].out);
        }
        i := i + 1;
      }
      if |viewsRequested| >= MASK_BITS {
        return Err(ENOSYS);
      }
      var outIdx := 0;
      if |viewsRequested| + 1 > 1 {
        outIdx := nbOutputs;
        nbOutputs := nbOutputs + 1;
      }
      viewsRequested := viewsRequested + [Request(vs, outIdx)];
      src := Ok(outIdx);
    }

    method GetBuffer(viewId: nat) returns (tag: set<nat>)
      ensures tag == Tag(viewMap, viewId)
    {
      for i := 0 to |viewMap|
        invariant Tag(viewMap, viewId) == Tag(viewMap[i..], viewId)
      {
        assert viewMap[i..][0] == viewMap[i] && viewMap[i..][1..] == viewMap[i + 1..];
        if viewMap[i].id == viewId {
          return viewMap[i].outMask;
        }
      }
      tag := {};
    }

    method FindFirst(s: seq<nat>, v: nat) returns (r: Option<nat>)
      ensures r.Some? ==> FirstAt(s, v, r.value)
      ensures r.None? ==> v !in s
    {
      for j := 0 to |s|
        invariant forall k :: 0 <= k < j ==> s[k] != v
      {
        if s[j] == v {
          return Some(j);
        }
      }
      r := None;
    }

    /** The view one request asks for; `None` when it is not available. */
    method Locate(vs: ViewSpecifier, av: Available) returns (view: Option<nat>)
      requires vs.Idx? || vs.Id? || vs.Pos?
      requires ValidAvailable(av)
      ensures view.None? <==> !Found(vs, av)
      ensures view.Some? ==> view.value < |av.ids|
      ensures view.Some? ==> forall j :: 0 <= j < |av.ids| ==> (Selects(vs, av, j) <==> j == view.value)
    {
      if vs.Idx? {
        view := if vs.val >= |av.ids| then None else Some(vs.val);
      } else if vs.Id? {
        view := FindFirst(av.ids, vs.val);
      } else if av.pos.Some? {
        view := FindFirst(av.pos.value, vs.val);
      } else {
        view := None;
      }
      assert view.Some? ==> Selects(vs, av, view.value);
    }

    /** `missing` is the request that stopped the setup, if any. */
    method RouteViews(av: Available, exitOnError: bool) returns (missing: Option<nat>, wanted: set<nat>)
      requires ValidAvailable(av) && av.ids != [] && viewMap == MapFor([], av)
      modifies this`viewMap
      ensures missing == if exitOnError then FirstMissing(viewsRequested, av) else None
      ensures viewMap == MapFor(if missing.Some? then viewsRequested[..missing.value] else viewsRequested, av)
      ensures wanted == Wanted(viewMap)
    {
      wanted := {};
      for i := 0 to |viewsRequested|
        invariant viewMap == MapFor(viewsRequested[..i], av)
        invariant wanted == Wanted(viewMap)
        invariant exitOnError ==> forall k :: 0 <= k < i ==> !Missing(viewsRequested[k], av)
      {
        var vs := viewsRequested[i].vs;
        assert viewsRequested[..i + 1] == viewsRequested[..i] + [viewsRequested[i]];
        MapGrows(viewsRequested[..i], viewsRequested[i], av);
        if vs.AllViews? {
          wanted := Below(|av.ids|);
          viewMap := seq(|viewMap|, j requires 0 <= j < |viewMap| reads this =>
              viewMap[j].(outMask := viewMap[j].outMask + {i}));
          assert av.ids != [] ==> Selects(vs, av, 0);
        } else if !vs.NoView? {
          var view := Locate(vs, av);
          if view.None? {
            if exitOnError {
              return Some(i), wanted;
            }
          } else {
            wanted := wanted + {view.value};
            viewMap := viewMap[view.value := viewMap[view.value].(outMask := viewMap[view.value].outMask + {i})];
          }
        }
        assert forall j :: 0 <= j < |av.ids| ==> viewMap[j] == MapFor(viewsRequested[..i + 1], av)[j];
      }
      assert viewsRequested[..|viewsRequested|] == viewsRequested;
      missing := None;
    }

    method CollectIds(av: Available, wantedViews: set<nat>) returns (ids: seq<nat>)
      requires forall j :: j in wantedViews ==> j < |av.ids|
      ensures ids == IdsAt(av.ids, wantedViews)
    {
      var wanted := wantedViews;
      ids := [];
      NoIds(av.ids);
      assert wantedViews - wanted == {};
      for i := 0 to |wantedViews|
        invariant wanted <= wantedViews && |wanted| == |wantedViews| - i
        invariant ids == IdsAt(av.ids, wantedViews - wanted)
        invariant forall x, y :: x in wantedViews - wanted && y in wanted ==> x < y
      {
        var pos := TrailingZeros(wanted);
        IdsAtGrows(av.ids, wantedViews - wanted, pos);
        assert wantedViews - (wanted - {pos}) == wantedViews - wanted + {pos};
        wanted := wanted - {pos};
        ids := ids + [av.ids[pos]];
      }
      assert wantedViews - wanted == wantedViews;
    }

    /** `available` is what the decoder offers, if it knows views at all, `failure` how reading
        that fails, if it does, and `accepted` its answer to the view_ids chosen. */
    method MultiviewSetup(available: Option<Available>, failure: Option<int>, exitOnError: bool, accepted: int)
      returns (ret: Option<Error>)
      requires available.Some? ==> ValidAvailable(available.value)
      modifies this`viewMap, this`viewIds
      ensures var skipped := viewsRequested == [] || (|viewsRequested| == 1 && viewsRequested[0].vs == BASE_VIEW);
              var outcome := Setup(viewsRequested, available, failure, exitOnError);
              if skipped then ret == None && viewMap == old(viewMap) && viewIds == old(viewIds)
              else
                && viewMap == outcome.views
                && viewIds == (if outcome.error.Some? then old(viewIds)
                               else IdsAt(Effective(available.value).ids, Wanted(outcome.views)))
                && ret == (if outcome.error.None? && accepted < 0 then Some(DecoderError(accepted)) else outcome.error)
    {
      if viewsRequested == [] || (|viewsRequested| == 1 && viewsRequested[0].vs == BASE_VIEW) {
        return None;
      }
      viewMap := [];
      if available.None? || |available.value.ids| >= UNSIGNED_BITS {
        return Some(ENOSYS);
      }
      if available.value.ids != [] && failure.Some? {
        return Some(DecoderError(failure.value));
      }
      var av := if available.value.ids == [] then Available([0], Some([AV_STEREO3D_VIEW_UNSPEC])) else available.value;
      viewMap := seq(|av.ids|, j requires 0 <= j < |av.ids| => View(av.ids[j], {}));
      assert forall j :: 0 <= j < |av.ids| ==> viewMap[j] == MapFor([], av)[j];
      var missing, wanted := RouteViews(av, exitOnError);
      if missing.Some? || wanted == {} {
        return Some(EINVAL);
      }
      viewIds := CollectIds(av, wanted);
      ret := if accepted < 0 then Some(DecoderError(accepted)) else None;
    }
  }

  lemma MapGrows(requests: seq<Request>, r: Request, av: Available)
    ensures forall j :: 0 <= j < |av.ids| ==>
              MapFor(requests + [r], av)[j].outMask ==
              MapFor(requests, av)[j].outMask + if Selects(r.vs, av, j) then {|requests|} else {}
  {
  }

  // ---- frames to outputs ----

  /** What get_buffer leaves in a frame's opaque field; the decoder names no view for the
      base view. */
  function Tag(m: seq<View>, id: nat): set<nat> {
    if m == [] then {} else if m[0].id == id then m[0].outMask else Tag(m[1..], id)
  }

  /** The mask is read back as an unsigned int; an empty one leaves the default, output 0. */
  function OutputsMask(opaque_: set<nat>): set<nat> {
    if opaque_ == {} then {0} else set b | b in opaque_ && b < UNSIGNED_BITS
  }

  lemma NextServed(mask: set<nat>, rest: set<nat>, i: nat)
    requires i < |mask| && rest != {} && Ascending(rest) == Ascending(mask)[i..]
    ensures Ascending(mask)[i] == TrailingZeros(rest)
    ensures Ascending(rest - {TrailingZeros(rest)}) == Ascending(mask)[i + 1..]
    ensures Ascending(mask)[..i] + [TrailingZeros(rest)] == Ascending(mask)[..i + 1]
  {
    var pos := TrailingZeros(rest);
    assert Ascending(rest) == [pos] + Ascending(rest - {pos});
    assert Ascending(mask)[i] == Ascending(rest)[0];
    assert Ascending(mask)[i + 1..] == Ascending(rest)[1..];
  }

  /** The output loop of packet_decode: `served` lists the outputs given the frame, `answers`
      what sch_dec_send returns for each. */
  method ServeOutputs(mask: set<nat>, answers: seq<int>) returns (served: seq<nat>, ret: int)
    requires |answers| >= |mask|
    ensures |served| <= (|mask| + 1) / 2 && served == Ascending(mask)[..|served|]
    ensures |served| < (|mask| + 1) / 2 ==> ret < 0
    ensures ret < 0 <==> served != [] && answers[|served| - 1] < 0
    ensures forall k :: 0 <= k < |served| - 1 ==> answers[k] >= 0
  {
    var outputsMask := mask;
    served := [];
    ret := 0;
    var i := 0;
    while i < |outputsMask|
      invariant 0 <= i <= (|mask| + 1) / 2 && |outputsMask| == |mask| - i
      invariant served == Ascending(mask)[..i]
      invariant Ascending(outputsMask) == Ascending(mask)[i..]
      invariant ret == 0 && forall k :: 0 <= k < i ==> answers[k] >= 0
    {
      var pos := TrailingZeros(outputsMask);
      NextServed(mask, outputsMask, i);
      outputsMask := outputsMask - {pos};
      served := served + [pos];
      if answers[i] < 0 {
        return served, answers[i];
      }
      i := i + 1;
    }
  }

  // ---- the outcome of a setup ----

  datatype Outcome = Outcome(error: Option<Error>, views: seq<View>)

  predicate Missing(r: Request, av: Available) {
    !r.vs.NoView? && !Found(r.vs, av)
  }

  function FirstMissing(requests: seq<Request>, av: Available): (r: Option<nat>)
    ensures r.Some? ==> r.value < |requests| && Missing(requests[r.value], av)
    ensures forall i :: 0 <= i < |requests| && (r.None? || i < r.value) ==> !Missing(requests[i], av)
  {
    if requests == [] then None
    else
      var init := FirstMissing(requests[..|requests| - 1], av);
      if init.Some? then init
      else if Missing(requests[|requests| - 1], av) then Some(|requests| - 1)
      else None
  }

  function Setup(requests: seq<Request>, available: Option<Available>, failure: Option<int>,
                 exitOnError: bool): Outcome {
    if available.None? || |available.value.ids| >= UNSIGNED_BITS then Outcome(Some(ENOSYS), [])
    else if available.value.ids != [] && failure.Some? then Outcome(Some(DecoderError(failure.value)), [])
    else
      var av := Effective(available.value);
      var missing := FirstMissing(requests, av);
      if exitOnError && missing.Some? then Outcome(Some(EINVAL), MapFor(requests[..missing.value], av))
      else Outcome(if Wanted(MapFor(requests, av)) == {} then Some(EINVAL) else None, MapFor(requests, av))
  }
}
