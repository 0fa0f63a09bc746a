/** Matching streams against a specifier (fftools/cmdutils.c: stream_specifier_match). */
module StreamSpecifier {
  import opened Options

  datatype MediaType = Video | Audio | Subtitle | Data | Attachment | Unknown

  /** `hasFormat` is false for AV_SAMPLE_FMT_NONE and AV_PIX_FMT_NONE; `disposition` is a set of
      flag bits, `attachedPic` one of them. */
  datatype Stream = Stream(id: int, mediaType: MediaType, disposition: set<nat>, tags: map<string, string>,
                           sampleRate: nat, channels: nat, width: nat, height: nat, hasFormat: bool)

  const ATTACHED_PIC: nat := 10

  /** A program or stream group: the positions of its streams. */
  datatype Group = Group(id: int, streams: seq<nat>)

  datatype File = File(streams: seq<Stream>, programs: seq<Group>, groups: seq<Group>)

  datatype StreamList = All | StreamId(id: int) | GroupIdx(index: int) | GroupId(id: int) | Program(id: int)

  /** `idx` is negative when the specifier has no index. */
  datatype Specifier = Specifier(idx: int, list: StreamList, mediaType: MediaType, noApic: bool, usableOnly: bool,
                                 disposition: set<nat>, metaKey: Option<string>, metaVal: Option<string>)

  predicate ValidFile(s: File) {
    && (forall p, i :: 0 <= p < |s.programs| && 0 <= i < |s.programs[p].streams| ==>
         s.programs[p].streams[i] < |s.streams|)
    && (forall g, i :: 0 <= g < |s.groups| && 0 <= i < |s.groups[g].streams| ==> s.groups[g].streams[i] < |s.streams|)
  }

  /** Parsing never combines an index with a stream id. */
  predicate ValidSpecifier(ss: Specifier) {
    ss.list.StreamId? ==> ss.idx < 0
  }

  // ---- the reference ----

  predicate Usable(st: Stream) {
    match st.mediaType
    case Audio => st.sampleRate != 0 && st.channels != 0 && st.hasFormat
    case Video => st.width != 0 && st.height != 0 && st.hasFormat
    case Unknown => false
    case _ => true
  }

  /** All constraints but the list and the index. */
  predicate Accepts(ss: Specifier, st: Stream) {
    && (!ss.mediaType.Unknown? ==> ss.mediaType == st.mediaType && !(ss.noApic && ATTACHED_PIC in st.disposition))
    && (ss.metaKey.Some? ==> && ss.metaKey.value in st.tags
                             && (ss.metaVal.Some? ==> st.tags[ss.metaKey.value] == ss.metaVal.value))
    && (ss.usableOnly ==> Usable(st))
    && ss.disposition <= st.disposition
  }

  function WithId(groups: seq<Group>, id: int): (r: Option<Group>)
    ensures r.Some? ==> r.value in groups && r.value.id == id
    ensures r.None? ==> forall g :: g in groups ==> g.id != id
  {
    if groups == [] then None else if groups[0].id == id then Some(groups[0]) else WithId(groups[1..], id)
  }

  function UpTo(n: nat): (r: seq<nat>)
    ensures |r| == n && forall i :: 0 <= i < n ==> r[i] == i
  {
    seq(n, i => i)
  }

  /** The streams a specifier ranges over, in the order of its list. */
  function Listed(ss: Specifier, s: File): (r: Option<seq<nat>>)
    requires ValidFile(s)
    ensures r.Some? ==> forall i :: 0 <= i < |r.value| ==> r.value[i] < |s.streams|
  {
    match ss.list
    case All => Some(UpTo(|s.streams|))
    case StreamId(id) => Some(Having(s, id, |s.streams|))
    case GroupIdx(i) => if 0 <= i < |s.groups| then Some(s.groups[i].streams) else None
    case GroupId(id) => Streams(WithId(s.groups, id))
    case Program(id) => Streams(WithId(s.programs, id))
  }

  function Streams(g: Option<Group>): Option<seq<nat>> {
    if g.Some? then Some(g.value.streams) else None
  }

  /** The first `n` streams with the given id. */
  function Having(s: File, id: int, n: nat): (r: seq<nat>)
    requires n <= |s.streams|
    ensures forall i :: 0 <= i < |r| ==> r[i] < n
    ensures forall k :: k in r <==> 0 <= k < n && s.streams[k].id == id
  {
    if n == 0 then [] else Having(s, id, n - 1) + if s.streams[n - 1].id == id then [n - 1] else []
  }

  predicate Fulfils(ss: Specifier, s: File, k: nat) { k < |s.streams| && Accepts(ss, s.streams[k]) }

  /** The streams of a list that meet the other constraints. */
  function Filtered(ss: Specifier, s: File, list: seq<nat>): seq<nat> {
    if list == [] then []
    else
      var n := |list| - 1;
      Filtered(ss, s, list[..n]) + if Fulfils(ss, s, list[n]) then [list[n]] else []
  }

  lemma {:induction false} FilteredHolds(ss: Specifier, s: File, list: seq<nat>, k: nat)
    ensures k in Filtered(ss, s, list) <==> k in list && Fulfils(ss, s, k)
  {
    if list != [] {
      FilteredHolds(ss, s, list[..|list| - 1], k);
    }
  }

  /** Stream k is the one the specifier selects in the list, or one of those. */
  predicate Selected(ss: Specifier, matching: seq<nat>, k: nat) {
    if ss.idx < 0 then k in matching
    else ss.idx < |matching| && matching[ss.idx] == k && k !in matching[..ss.idx]
  }

  predicate Matches(ss: Specifier, s: File, k: nat)
    requires ValidFile(s)
  {
    var list := Listed(ss, s);
    list.Some? && Selected(ss, Filtered(ss, s, list.value), k)
  }

  // ---- the code ----

  method Satisfies(ss: Specifier, candidate: Stream) returns (r: bool)
    ensures r == Accepts(ss, candidate)
  {
    if ss.mediaType != Unknown &&
       (ss.mediaType != candidate.mediaType || (ss.noApic && ATTACHED_PIC in candidate.disposition)) {
      return false;
    }
    if ss.metaKey.Some? {
      if ss.metaKey.value !in candidate.tags {
        return false;
      }
      if ss.metaVal.Some? && candidate.tags[ss.metaKey.value] != ss.metaVal.value {
        return false;
      }
    }
    if ss.usableOnly {
      if candidate.mediaType == Audio {
        if candidate.sampleRate == 0 || candidate.channels == 0 || !candidate.hasFormat {
          return false;
        }
      } else if candidate.mediaType == Video {
        if candidate.width == 0 || candidate.height == 0 || !candidate.hasFormat {
          return false;
        }
      } else if candidate.mediaType == Unknown {
        return false;
      }
    }
    r := ss.disposition == {} || candidate.disposition * ss.disposition == ss.disposition;
    assert candidate.disposition * ss.disposition == ss.disposition <==> ss.disposition <= candidate.disposition;
  }

  method FindById(groups: seq<Group>, id: int) returns (r: Option<Group>)
    ensures r == WithId(groups, id)
  {
    for i := 0 to |groups|
      invariant WithId(groups, id) == WithId(groups[i..], id)
    {
      assert groups[i..][0] == groups[i] && groups[i..][1..] == groups[i + 1..];
      if groups[i].id == id {
        return Some(groups[i]);
      }
    }
    r := None;
  }

  /** Where the matching loop starts, and the positions it runs over; `None` when the list of
      the specifier does not exist or excludes the stream. */
  method Range(ss: Specifier, s: File, k: nat) returns (range: Option<(nat, seq<nat>)>)
    requires ValidFile(s) && k < |s.streams|
    ensures range.Some? ==>
              && range.value.0 <= |range.value.1|
              && forall i :: 0 <= i < |range.value.1| ==> range.value.1[i] < |s.streams|
    ensures match ss.list
            case All => range == Some((if ss.idx >= 0 then 0 else k, UpTo(k + 1)))
            case StreamId(id) => range == if s.streams[k].id == id then Some((k, UpTo(k + 1))) else None
            case _ => range == if Listed(ss, s).Some? then Some((0, Listed(ss, s).value)) else None
  {
    var start := 0;
    var list;
    if ss.list.StreamId? {
      if s.streams[k].id != ss.list.id {
        return None;
      }
      start, list := k, UpTo(k + 1);
    } else if ss.list.All? {
      start, list := if ss.idx >= 0 then 0 else k, UpTo(k + 1);
    } else if ss.list.Program? {
      var p := FindById(s.programs, ss.list.id);
      if p.None? {
        return None;
      }
      list := p.value.streams;
    } else {
      var g := None;
      if ss.list.GroupId? {
        g := FindById(s.groups, ss.list.id);
      } else if 0 <= ss.list.index < |s.groups| {
        g := Some(s.groups[ss.list.index]);
      }
      if g.None? {
        return None;
      }
      list := g.value.streams;
    }
    ListedInFile(ss, s);
    range := Some((start, list));
  }

  lemma ListedInFile(ss: Specifier, s: File)
    requires ValidFile(s)
    ensures ss.list.GroupId? && WithId(s.groups, ss.list.id).Some? ==>
              forall i :: 0 <= i < |WithId(s.groups, ss.list.id).value.streams| ==>
                  WithId(s.groups, ss.list.id).value.streams[i] < |s.streams|
    ensures ss.list.Program? && WithId(s.programs, ss.list.id).Some? ==>
              forall i :: 0 <= i < |WithId(s.programs, ss.list.id).value.streams| ==>
                  WithId(s.programs, ss.list.id).value.streams[i] < |s.streams|
  {
    var l := Listed(ss, s);
  }

  method StreamSpecifierMatch(ss: Specifier, s: File, k: nat) returns (r: bool)
    requires ValidFile(s) && ValidSpecifier(ss) && k < |s.streams|
    ensures r <==> Matches(ss, s, k)
  {
    var range := Range(ss, s, k);
    RangeEnough(ss, s, k);
    if range.None? {
      return false;
    }
    r := Scan(ss, s, range.value.0, range.value.1, k);
  }

  /** The matching loop over list[start..]. */
  method Scan(ss: Specifier, s: File, start: nat, list: seq<nat>, k: nat) returns (r: bool)
    requires k < |s.streams| && start <= |list|
    requires forall i :: 0 <= i < |list| ==> list[i] < |s.streams|
    ensures r <==> Selected(ss, Filtered(ss, s, list[start..]), k)
  {
    var nbMatched := 0;
    assert list[start..start] == [];
    for i := start to |list|
      invariant k !in Filtered(ss, s, list[start..i])
      invariant nbMatched == |Filtered(ss, s, list[start..i])|
    {
      var candidate := list[i];
      NextCandidate(ss, s, start, list, i);
      var satisfies := Satisfies(ss, s.streams[candidate]);
      if satisfies {
        if k == candidate {
          FirstMatch(ss, s, start, list, i, k);
          return ss.idx < 0 || ss.idx == nbMatched;
        }
        nbMatched := nbMatched + 1;
      }
    }
    assert list[start..|list|] == list[start..];
    r := false;
  }

  lemma NextCandidate(ss: Specifier, s: File, start: nat, list: seq<nat>, i: nat)
    requires start <= i < |list|
    ensures Filtered(ss, s, list[start..i + 1]) ==
              Filtered(ss, s, list[start..i]) + if Fulfils(ss, s, list[i]) then [list[i]] else []
  {
    assert list[start..i + 1][..i - start] == list[start..i];
  }

  lemma {:induction false} FilteredAppends(ss: Specifier, s: File, a: seq<nat>, b: seq<nat>)
    ensures Filtered(ss, s, a + b) == Filtered(ss, s, a) + Filtered(ss, s, b)
    decreases |b|
  {
    if b == [] {
      assert a + b == a;
    } else {
      var n := |b| - 1;
      var all := a + b;
      assert all[..|all| - 1] == a + b[..n] && all[|all| - 1] == b[n];
      FilteredAppends(ss, s, a, b[..n]);
    }
  }

  /** Stream k, first met and accepted at position i of the list, is selected exactly when the
      index counts the matches before it. */
  lemma FirstMatch(ss: Specifier, s: File, start: nat, list: seq<nat>, i: nat, k: nat)
    requires start <= i < |list| && list[i] == k && Fulfils(ss, s, k) && k !in Filtered(ss, s, list[start..i])
    ensures Selected(ss, Filtered(ss, s, list[start..]), k)
            <==> ss.idx < 0 || ss.idx == |Filtered(ss, s, list[start..i])|
  {
    FilteredSplits(ss, s, start, list, i + 1);
    NextCandidate(ss, s, start, list, i);
    SelectedAt(ss, Filtered(ss, s, list[start..i]), k, Filtered(ss, s, list[i + 1..]));
  }

  lemma FilteredSplits(ss: Specifier, s: File, start: nat, list: seq<nat>, i: nat)
    requires start <= i <= |list|
    ensures Filtered(ss, s, list[start..]) == Filtered(ss, s, list[start..i]) + Filtered(ss, s, list[i..])
  {
    assert list[start..] == list[start..i] + list[i..];
    FilteredAppends(ss, s, list[start..i], list[i..]);
  }

  lemma SelectedAt(ss: Specifier, before: seq<nat>, k: nat, rest: seq<nat>)
    requires k !in before
    ensures Selected(ss, before + [k] + rest, k) <==> ss.idx < 0 || ss.idx == |before|
  {
    var all := before + [k] + rest;
    assert all[|before|] == k;
    if 0 <= ss.idx < |before| {
      assert all[ss.idx] in before;
    } else if ss.idx == |before| {
      assert all[..ss.idx] == before;
    } else if |before| < ss.idx < |all| {
      assert all[..ss.idx][|before|] == k;
    }
  }

  /** Over all streams it is enough to look no further than the stream itself. */
  lemma RangeEnough(ss: Specifier, s: File, k: nat)
    requires ValidFile(s) && ValidSpecifier(ss) && k < |s.streams|
    ensures ss.list.All? ==> (Matches(ss, s, k) <==>
                              Selected(ss, Filtered(ss, s, UpTo(k + 1)[if ss.idx >= 0 then 0 else k..]), k))
    ensures ss.list.StreamId? ==> (Matches(ss, s, k) <==>
                                   s.streams[k].id == ss.list.id && Selected(ss, Filtered(ss, s, UpTo(k + 1)[k..]), k))
  {
    assert UpTo(k + 1)[k..] == [k];
    if ss.list.StreamId? {
      FilteredHolds(ss, s, Listed(ss, s).value, k);
      FilteredHolds(ss, s, [k], k);
    }
    if ss.list.All? {
      var near, far := UpTo(k + 1), UpTo(|s.streams|)[k + 1..];
      assert near[0..] == near;
      assert UpTo(|s.streams|) == near + far;
      FilteredAppends(ss, s, near, far);
      FilteredHolds(ss, s, far, k);
      FilteredHolds(ss, s, near, k);
      FilteredHolds(ss, s, [k], k);
      if ss.idx >= 0 {
        LaterCannotSelect(ss, Filtered(ss, s, near), Filtered(ss, s, far), k);
      }
    }
  }

  lemma LaterCannotSelect(ss: Specifier, near: seq<nat>, far: seq<nat>, k: nat)
    requires ss.idx >= 0 && k !in far
    ensures Selected(ss, near + far, k) <==> Selected(ss, near, k)
  {
    var all := near + far;
    if ss.idx < |near| {
      assert all[..ss.idx] == near[..ss.idx];
    } else if ss.idx < |all| {
      assert all[ss.idx] in far;
    }
  }

  // ---- what an index means ----

  predicate DuplicateFree(list: seq<nat>) {
    forall i, j :: 0 <= i < j < |list| ==> list[i] != list[j]
  }

  lemma {:induction false} FilteredDuplicateFree(ss: Specifier, s: File, list: seq<nat>)
    requires DuplicateFree(list)
    ensures DuplicateFree(Filtered(ss, s, list))
  {
    if list != [] {
      var n := |list| - 1;
      FilteredDuplicateFree(ss, s, list[..n]);
      assert list[n] !in list[..n];
      FilteredHolds(ss, s, list[..n], list[n]);
      var before := Filtered(ss, s, list[..n]);
      assert forall i :: 0 <= i < |before| ==> before[i] in before;
    }
  }

  /** At most one stream matches an index, whatever the list. */
  lemma IndexSelectsOne(ss: Specifier, s: File, j: nat, k: nat)
    requires ValidFile(s) && ss.idx >= 0 && Matches(ss, s, j) && Matches(ss, s, k)
    ensures j == k
  {
  }

  /** With an index into a list without repetitions, the match is exactly the element at that
      place among the streams meeting the other constraints. */
  lemma IndexSelectsNth(ss: Specifier, s: File, k: nat)
    requires ValidFile(s) && ss.idx >= 0 && Listed(ss, s).Some? && DuplicateFree(Listed(ss, s).value)
    ensures var matching := Filtered(ss, s, Listed(ss, s).value);
            Matches(ss, s, k) <==> ss.idx < |matching| && matching[ss.idx] == k
  {
    FilteredDuplicateFree(ss, s, Listed(ss, s).value);
  }

  /** In a list with repetitions an index matches some stream if and only if the stream at
      that place was not counted before. */
  lemma IndexSelectsSome(ss: Specifier, s: File)
    requires ValidFile(s) && ss.idx >= 0 && Listed(ss, s).Some?
    ensures var matching := Filtered(ss, s, Listed(ss, s).value);
            (exists k :: Matches(ss, s, k)) <==> ss.idx < |matching| && matching[ss.idx] !in matching[..ss.idx]
  {
    var matching := Filtered(ss, s, Listed(ss, s).value);
    if ss.idx < |matching| && matching[ss.idx] !in matching[..ss.idx] {
      assert Matches(ss, s, matching[ss.idx]);
    }
  }

  /** Without an index, matching is membership in the list plus the constraints. */
  lemma NoIndexSelectsAll(ss: Specifier, s: File, k: nat)
    requires ValidFile(s) && ss.idx < 0 && k < |s.streams|
    ensures Matches(ss, s, k) <==> Listed(ss, s).Some? && k in Listed(ss, s).value && Accepts(ss, s.streams[k])
  {
    if Listed(ss, s).Some? {
      FilteredHolds(ss, s, Listed(ss, s).value, k);
    }
  }
}
