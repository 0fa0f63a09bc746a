/** The getopt fallback (compat/getopt.c): option parsing one call at a time, against a
    recursive parser of the whole argument list. Strings hold no NUL characters. */
module Getopt {
  import opened Options

  // ---- the reference parser ----

  datatype Item = Flag(c: char) | WithArg(c: char, arg: string) | Rejected(c: char)

  datatype Parsed = Parsed(items: seq<Item>, operands: seq<string>)

  function Cons(item: Item, p: Parsed): Parsed { Parsed([item] + p.items, p.operands) }

  function Find(opts: string, c: char): (r: Option<nat>)
    ensures r.Some? ==> r.value < |opts| && opts[r.value] == c
  {
    if opts == "" then None
    else if opts[0] == c then Some(0)
    else
      var r := Find(opts[1..], c);
      if r.None? then None else Some(r.value + 1)
  }

  predicate Legal(opts: string, c: char) { c != ':' && Find(opts, c).Some? }

  predicate TakesArg(opts: string, c: char) {
    Legal(opts, c) && Find(opts, c).value + 1 < |opts| && opts[Find(opts, c).value + 1] == ':'
  }

  /** A word that holds options: a dash and more, other than "--". */
  predicate HoldsOptions(word: string) {
    |word| >= 2 && word[0] == '-' && word != "--"
  }

  /** All words from the start of one. */
  function Words(opts: string, words: seq<string>): Parsed
    decreases |words|, 0, 0, 0
  {
    if words == [] then Parsed([], [])
    else if words[0] == "--" then Parsed([], words[1..])
    else if !HoldsOptions(words[0]) then Parsed([], words)
    else Cluster(opts, words[0][1..], words[1..])
  }

  /** The option characters left in one word, with the words after it. */
  function Cluster(opts: string, chars: string, words: seq<string>): Parsed
    requires chars != ""
    decreases |words|, 1, |chars|, 0
  {
    var c := chars[0];
    if TakesArg(opts, c) then
      if |chars| > 1 then Cons(WithArg(c, chars[1..]), Words(opts, words))
      else if words == [] then Cons(Rejected(c), Parsed([], []))
      else Cons(WithArg(c, words[0]), Words(opts, words[1..]))
    else Cons(if Legal(opts, c) then Flag(c) else Rejected(c), Onward(opts, chars[1..], words))
  }

  function Onward(opts: string, chars: string, words: seq<string>): Parsed
    decreases |words|, 1, |chars|, 1
  {
    if chars == "" then Words(opts, words) else Cluster(opts, chars, words)
  }

  // ---- the code ----

  /** What a call returns; `Refused` is the return value '?'. */
  datatype Outcome = EndOfOptions | Found(c: char) | Refused(c: char)

  function ItemOf(r: Outcome, optarg: Option<string>): Item
    requires !r.EndOfOptions?
  {
    if r.Refused? then Rejected(r.c)
    else if optarg.Some? then WithArg(r.c, optarg.value)
    else Flag(r.c)
  }

  class Parser {
    const argv: seq<string>
    const opts: string
    var optind: nat
    var sp: nat
    var optopt: char
    var optarg: Option<string>

    constructor (argv: seq<string>, opts: string)
      requires argv != []
      ensures Valid() && this.argv == argv && this.opts == opts
      ensures Rest() == Words(opts, argv[1..])
    {
      this.argv, this.opts := argv, opts;
      optind, sp, optopt, optarg := 1, 1, ' ', None;
    }

    predicate Valid()
      reads this
    {
      && 1 <= optind <= |argv|
      && 1 <= sp
      && (sp > 1 ==> optind < |argv| && sp < |argv[optind]|)
    }

    /** What the calls still to come are going to find. */
    function Rest(): Parsed
      requires Valid()
      reads this
    {
      if sp == 1 then Words(opts, argv[optind..]) else Cluster(opts, argv[optind][sp..], argv[optind + 1..])
    }

    method Next() returns (r: Outcome)
      requires Valid()
      modifies this
      ensures Valid()
      ensures r.EndOfOptions? ==> sp == 1 && old(Rest()) == Parsed([], argv[optind..])
      ensures !r.EndOfOptions? ==> old(Rest()) == Cons(ItemOf(r, optarg), Rest())
      ensures r.Refused? ==> optarg == old(optarg)
      ensures !r.EndOfOptions? ==> optopt == r.c && (optind > old(optind) || (optind == old(optind) && sp > old(sp)))
    {
      if sp == 1 {
        if optind >= |argv| || |argv[optind]| == 0 || argv[optind][0] != '-' || |argv[optind]| == 1 {
          return EndOfOptions;
        } else if argv[optind] == "--" {
          optind := optind + 1;
          return EndOfOptions;
        }
      }
      var word := argv[optind];
      var c := word[sp];
      optopt := c;
      var cp := Find(opts, c);
      RestIsCluster();
      if c == ':' || cp.None? {
        SkipChar(word);
        return Refused(c);
      }
      if cp.value + 1 < |opts| && opts[cp.value + 1] == ':' {
        r := TakeArgument(word, c);
      } else {
        SkipChar(word);
        optarg := None;
        r := Found(c);
      }
    }

    /** The branch for an option that needs an argument. */
    method TakeArgument(word: string, c: char) returns (r: Outcome)
      requires Valid() && optind < |argv| && word == argv[optind] && sp < |word| && c == word[sp] && TakesArg(opts, c)
      modifies this`sp, this`optind, this`optarg
      ensures Valid() && !r.EndOfOptions? && r.c == c && optind > old(optind)
      ensures Cluster(opts, word[old(sp)..], argv[old(optind) + 1..]) == Cons(ItemOf(r, optarg), Rest())
      ensures r.Refused? ==> optarg == old(optarg)
    {
      ghost var chars, words := word[sp..], argv[optind + 1..];
      assert chars[0] == c && chars[1..] == word[sp + 1..];
      if sp + 1 < |word| {
        optarg := Some(word[sp + 1..]);
        optind := optind + 1;
      } else {
        optind := optind + 1;
        if optind >= |argv| {
          sp := 1;
          return Refused(c);
        }
        optarg := Some(argv[optind]);
        optind := optind + 1;
        assert argv[optind..] == words[1..];
      }
      sp := 1;
      r := Found(c);
    }

    lemma RestIsCluster()
      requires Valid() && optind < |argv| && sp < |argv[optind]|
      requires sp == 1 ==> HoldsOptions(argv[optind])
      ensures Rest() == Cluster(opts, argv[optind][sp..], argv[optind + 1..])
      ensures argv[optind][sp..][0] == argv[optind][sp] && argv[optind][sp..][1..] == argv[optind][sp + 1..]
    {
      assert argv[optind..][0] == argv[optind] && argv[optind..][1..] == argv[optind + 1..];
    }

    method SkipChar(word: string)
      requires Valid() && optind < |argv| && word == argv[optind] && sp < |word|
      modifies this`sp, this`optind
      ensures Valid()
      ensures Rest() == Onward(opts, word[old(sp) + 1..], argv[old(optind) + 1..])
      ensures optind == old(optind) + (if old(sp) + 1 == |word| then 1 else 0)
      ensures sp == if old(sp) + 1 == |word| then 1 else old(sp) + 1
    {
      sp := sp + 1;
      if sp == |word| {
        sp := 1;
        optind := optind + 1;
      }
    }

    /** Calls until the end of options, as in the usual loop around getopt. */
    method All() returns (items: seq<Item>)
      requires Valid()
      modifies this
      ensures Valid() && Parsed(items, argv[optind..]) == old(Rest())
    {
      items := [];
      var r := Next();
      while !r.EndOfOptions?
        invariant Valid()
        invariant r.EndOfOptions? ==> Parsed(items, argv[optind..]) == old(Rest())
        invariant !r.EndOfOptions? ==>
                    && old(Rest()).items == items + [ItemOf(r, optarg)] + Rest().items
                    && old(Rest()).operands == Rest().operands
        decreases if r.EndOfOptions? then 0 else 1, |argv| - optind, if optind < |argv| then |argv[optind]| - sp else 0
      {
        items := items + [ItemOf(r, optarg)];
        r := Next();
      }
    }
  }

  // ---- meaning ----

  /** Splitting "-xrest" into "-x" and "-rest" changes nothing exactly if x takes no argument
      and neither half reads as "--". */
  lemma ClusterSplits(opts: string, x: char, rest: string, words: seq<string>)
    requires rest != ""
    ensures Words(opts, ["-" + [x] + rest] + words) == Words(opts, ["-" + [x], "-" + rest] + words)
            <==> !TakesArg(opts, x) && x != '-' && rest != "-"
  {
    var joined, split := ["-" + [x] + rest] + words, ["-" + [x], "-" + rest] + words;
    assert joined[0][1..] == [x] + rest && joined[1..] == words;
    assert split[1..] == ["-" + rest] + words;
    assert split[1..][1..] == words && split[1..][0][1..] == rest;
    assert split[0][1..] == [x];
    assert ([x] + rest)[1..] == rest;
    assert |joined[0]| > 2;
    assert Words(opts, joined) == Cluster(opts, [x] + rest, words);
    if TakesArg(opts, x) {
      assert Words(opts, joined).items[0] == WithArg(x, rest);
      if x != '-' {
        assert Words(opts, split) == Cluster(opts, [x], ["-" + rest] + words);
        assert Words(opts, split).items[0] == WithArg(x, "-" + rest);
        assert |"-" + rest| != |rest|;
      } else {
        assert split[0] == "--";
      }
    } else if x == '-' {
      assert split[0] == "--";
      assert Words(opts, split).items == [];
    } else {
      assert split[0] != "--" && HoldsOptions(split[0]);
      assert Words(opts, split) == Cluster(opts, [x], split[1..]);
      LoneFlag(opts, x, rest, words);
      LoneFlag(opts, x, "", split[1..]);
      assert [x] + "" == [x];
      if rest == "-" {
        assert split[1] == "--";
        assert Words(opts, split[1..]).items == [];
        ClusterFinds(opts, rest, words);
      } else {
        assert split[1] != "--" && HoldsOptions(split[1]) by { assert split[1][1..] == rest; assert "--"[1..] == "-"; }
        assert Words(opts, split[1..]) == Cluster(opts, rest, words);
      }
    }
  }

  lemma LoneFlag(opts: string, x: char, chars: string, words: seq<string>)
    requires !TakesArg(opts, x)
    ensures Cluster(opts, [x] + chars, words) ==
            Cons(if Legal(opts, x) then Flag(x) else Rejected(x), Onward(opts, chars, words))
  {
    assert ([x] + chars)[1..] == chars;
  }

  lemma ClusterFinds(opts: string, chars: string, words: seq<string>)
    requires chars != ""
    ensures |Cluster(opts, chars, words).items| >= 1
  {
  }

  /** Each option in a word of its own, with its argument in the next. */
  function Render(items: seq<Item>): seq<string>
    requires forall i :: 0 <= i < |items| ==> !items[i].Rejected?
  {
    if items == [] then []
    else
      (match items[0]
       case Flag(c) => ["-" + [c]]
       case WithArg(c, arg) => ["-" + [c], arg])
      + Render(items[1..])
  }

  predicate Plain(opts: string, item: Item) {
    match item
    case Flag(c) => Legal(opts, c) && !TakesArg(opts, c)
    case WithArg(c, _) => TakesArg(opts, c)
    case Rejected(_) => false
  }

  predicate AllPlain(opts: string, items: seq<Item>) {
    forall item :: item in items && !item.Rejected? ==> Plain(opts, item)
  }

  /** Everything the parser accepts is one of its options, with an argument exactly if the
      option takes one. */
  lemma {:induction false} ItemsPlain(opts: string, chars: string, words: seq<string>)
    ensures AllPlain(opts, Onward(opts, chars, words).items)
    decreases |words|, 1, |chars|
  {
    if chars != "" {
      var c := chars[0];
      assert Onward(opts, chars, words) == Cluster(opts, chars, words);
      if !TakesArg(opts, c) {
        ItemsPlain(opts, chars[1..], words);
      } else if |chars| > 1 {
        WordsPlain(opts, words);
      } else if words != [] {
        WordsPlain(opts, words[1..]);
      }
    } else {
      assert Onward(opts, chars, words) == Words(opts, words);
      WordsPlain(opts, words);
    }
  }

  lemma {:induction false} WordsPlain(opts: string, words: seq<string>)
    ensures AllPlain(opts, Words(opts, words).items)
    decreases |words|, 0, 0
  {
    if words != [] && HoldsOptions(words[0]) {
      ItemsPlain(opts, words[0][1..], words[1..]);
    }
  }

  /** Parsing gives back any rendered list of options, and the operands after "--". */
  lemma {:induction false} RenderRoundTrip(opts: string, items: seq<Item>, operands: seq<string>)
    requires forall i :: 0 <= i < |items| ==> !items[i].Rejected? && Plain(opts, items[i]) && items[i].c != '-'
    ensures Words(opts, Render(items) + ["--"] + operands) == Parsed(items, operands)
    decreases |items|
  {
    var words := Render(items) + ["--"] + operands;
    if items == [] {
      assert words == ["--"] + operands;
    } else {
      var later := Render(items[1..]) + ["--"] + operands;
      RenderRoundTrip(opts, items[1..], operands);
      var c := items[0].c;
      var word := "-" + [c];
      assert word[1..] == [c] && word != "--" && HoldsOptions(word);
      if items[0].Flag? {
        assert words == [word] + later;
        assert words[1..] == later;
        LoneFlag(opts, c, "", later);
        assert [c] + "" == [c];
      } else {
        assert words == [word, items[0].arg] + later;
        assert words[1..] == [items[0].arg] + later;
        assert words[1..][1..] == later;
        assert Cluster(opts, [c], words[1..]) == Cons(WithArg(c, items[0].arg), Words(opts, later));
      }
      assert Words(opts, words) == Cluster(opts, [c], words[1..]);
    }
  }

  /** No option was refused, and none is the dash itself. */
  predicate Accepted(items: seq<Item>) {
    forall i :: 0 <= i < |items| ==> !items[i].Rejected? && items[i].c != '-'
  }

  /** So an accepted argument list means the same in its separated form. */
  lemma Normalizes(opts: string, words: seq<string>)
    requires Accepted(Words(opts, words).items)
    ensures var p := Words(opts, words);
            Words(opts, Render(p.items) + ["--"] + p.operands) == p
  {
    var p := Words(opts, words);
    WordsPlain(opts, words);
    assert forall i :: 0 <= i < |p.items| ==> p.items[i] in p.items;
    RenderRoundTrip(opts, p.items, p.operands);
  }
}
