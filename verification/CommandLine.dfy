/** Splitting a command line into groups of options (fftools/cmdutils.c: find_option,
    match_group_separator, finish_group, add_opt, split_commandline). */
module CommandLine {
  import opened Options

  /** An option definition: its kind, and the flags OPT_FUNC_ARG, OPT_EXIT and OPT_PERFILE. */
  datatype Kind = Bool | Func | Other
  datatype OptionDef = OptionDef(name: string, kind: Kind, funcArg: bool, exit: bool, perFile: bool)

  /** The dictionaries codec_opts, format_opts, sws_dict and swr_opts. */
  datatype Dict = Codec | Format | Sws | Swr

  /** Setting an option in a dictionary; flags with a sign are appended to the old value. */
  datatype Put = Put(dict: Dict, append: bool)

  /** What opt_default makes of an option and the word after it. */
  datatype Looked = Consumed(puts: seq<Put>) | NotFound | Failed(code: int)

  /** Group definition i is ended by the option `seps[i]`, or by a plain word if it has none. */
  datatype Grammar = Grammar(options: seq<OptionDef>, seps: seq<Option<string>>, lookup: (string, string) -> Looked)

  datatype Error = EINVAL | OptionNotFound | Refused(code: int)

  // ---- recognising options ----

  function HasArg(o: OptionDef): bool {
    if o.kind.Bool? then false else if o.kind.Func? then o.funcArg else true
  }

  /** The name without a leading slash. */
  function Bare(name: string): string {
    if name != "" && name[0] == '/' then name[1..] else name
  }

  predicate Named(o: OptionDef, name: string) {
    && |o.name| <= |name| && name[..|o.name|] == o.name
    && (|o.name| == |name| || name[|o.name|] == ':')
  }

  function FirstNamed(options: seq<OptionDef>, name: string): (r: Option<OptionDef>)
    ensures r.Some? ==> r.value in options && Named(r.value, name)
    ensures r.None? ==> forall o :: o in options ==> !Named(o, name)
  {
    if options == [] then None
    else if Named(options[0], name) then Some(options[0])
    else FirstNamed(options[1..], name)
  }

  function FindOption(options: seq<OptionDef>, name: string): Option<OptionDef> {
    FirstNamed(options, Bare(name))
  }

  function SeparatorFrom(seps: seq<Option<string>>, opt: string, i: nat): (r: Option<nat>)
    requires i <= |seps|
    ensures r.Some? ==> i <= r.value < |seps| && seps[r.value] == Some(opt)
    ensures r.None? ==> Some(opt) !in seps[i..]
    decreases |seps| - i
  {
    if i == |seps| then None
    else if seps[i] == Some(opt) then Some(i)
    else SeparatorFrom(seps, opt, i + 1)
  }

  // ---- tokens ----

  datatype Opt = Opt(def: OptionDef, key: string, val: Option<string>)

  datatype Token =
    | DashDash
    | Plain(word: string)
    | Separator(group: nat, sep: string, arg: string)
    | Known(opt: Opt)
    | AvOption(key: string, val: string, puts: seq<Put>)

  predicate IsSeparator(t: Token) { t.Plain? || t.Separator? }

  datatype Scan = Scanned(token: Token, used: nat) | Bad(error: Error)

  /** Words that can only end a group: not starting with a dash, "-", or quoted by "--". */
  predicate PlainWord(word: string, quoted: bool) {
    word == "" || word[0] != '-' || |word| == 1 || quoted
  }

  function Negated(g: Grammar, opt: string): Option<OptionDef> {
    if |opt| >= 2 && opt[0] == 'n' && opt[1] == 'o' then
      var po := FindOption(g.options, opt[2..]);
      if po.Some? && po.value.kind.Bool? then po else None
    else None
  }

  function ScanOption(g: Grammar, opt: string, next: Option<string>): (r: Scan)
    ensures r.Scanned? ==> 1 <= r.used <= if next.Some? then 2 else 1
  {
    var sep := SeparatorFrom(g.seps, opt, 0);
    var po := FindOption(g.options, opt);
    if sep.Some? then
      if next.None? then Bad(EINVAL) else Scanned(Separator(sep.value, opt, next.value), 2)
    else if po.Some? && po.value.exit then
      Scanned(Known(Opt(po.value, opt, next)), if next.Some? then 2 else 1)
    else if po.Some? && HasArg(po.value) then
      if next.None? then Bad(EINVAL) else Scanned(Known(Opt(po.value, opt, next)), 2)
    else if po.Some? then Scanned(Known(Opt(po.value, opt, Some("1"))), 1)
    else ScanUnknown(g, opt, next)
  }

  function ScanUnknown(g: Grammar, opt: string, next: Option<string>): (r: Scan)
    ensures r.Scanned? ==> 1 <= r.used <= if next.Some? then 2 else 1
  {
    var looked := if next.Some? then g.lookup(opt, next.value) else NotFound;
    if next.Some? && looked.Consumed? then Scanned(AvOption(opt, next.value, looked.puts), 2)
    else if looked.Failed? then Bad(Refused(looked.code))
    else if Negated(g, opt).Some? then Scanned(Known(Opt(Negated(g, opt).value, opt, Some("0"))), 1)
    else Bad(OptionNotFound)
  }

  function ScanOne(g: Grammar, words: seq<string>, quoted: bool): (r: Scan)
    requires words != []
    ensures r.Scanned? ==> 1 <= r.used <= |words|
  {
    var word := words[0];
    if word == "--" then Scanned(DashDash, 1)
    else if PlainWord(word, quoted) then Scanned(Plain(word), 1)
    else ScanOption(g, word[1..], if |words| > 1 then Some(words[1]) else None)
  }

  /** All tokens before the first error, if there is one. */
  datatype Tokens = Tokens(tokens: seq<Token>, error: Option<Error>)

  function Tokenize(g: Grammar, words: seq<string>, quoted: bool): (r: Tokens)
    ensures g.seps != [] ==> WellGrouped(g, r.tokens)
    decreases |words|
  {
    if words == [] then Tokens([], None)
    else
      var s := ScanOne(g, words, quoted);
      if s.Bad? then Tokens([], Some(s.error))
      else
        var rest := Tokenize(g, words[s.used..], s.token.DashDash?);
        Tokens([s.token] + rest.tokens, rest.error)
  }

  // ---- groups ----

  type Dicts = map<(Dict, string), string>

  function PutOne(d: Dicts, key: string, val: string, put: Put): Dicts {
    var k := (put.dict, key);
    d[k := if put.append && k in d then d[k] + val else val]
  }

  function PutAll(d: Dicts, key: string, val: string, puts: seq<Put>): Dicts {
    if puts == [] then d
    else PutOne(PutAll(d, key, val, puts[..|puts| - 1]), key, val, puts[|puts| - 1])
  }

  datatype Group = Group(arg: string, opts: seq<Opt>, dicts: Dicts)

  datatype Context = Context(globals: seq<Opt>, lists: seq<seq<Group>>, cur: seq<Opt>, dicts: Dicts)

  function Fresh(g: Grammar): Context {
    Context([], seq(|g.seps|, _ => []), [], map[])
  }

  function Finished(c: Context, group: nat, arg: string): Context
    requires group < |c.lists|
  {
    c.(lists := c.lists[group := c.lists[group] + [Group(arg, c.cur, c.dicts)]], cur := [], dicts := map[])
  }

  function Added(c: Context, opt: Opt): Context {
    if opt.def.perFile then c.(cur := c.cur + [opt]) else c.(globals := c.globals + [opt])
  }

  predicate Fits(c: Context, t: Token) {
    && c.lists != []
    && (t.Separator? ==> t.group < |c.lists|)
  }

  function Apply(c: Context, t: Token): (r: Context)
    requires Fits(c, t)
    ensures |r.lists| == |c.lists|
  {
    match t
    case DashDash => c
    case Plain(word) => Finished(c, 0, word)
    case Separator(group, _, arg) => Finished(c, group, arg)
    case Known(opt) => Added(c, opt)
    case AvOption(key, val, puts) => c.(dicts := PutAll(c.dicts, key, val, puts))
  }

  // ---- the code ----

  class OptionParseContext {
    const g: Grammar
    var globals: seq<Opt>
    var lists: seq<seq<Group>>
    var cur: seq<Opt>
    /** codec_opts and the other dictionaries still to be handed to a group. */
    var dicts: Dicts

    ghost function View(): Context
      reads this
    {
      Context(globals, lists, cur, dicts)
    }

    constructor (g: Grammar)
      ensures this.g == g && View() == Fresh(g)
    {
      this.g := g;
      globals, lists, cur, dicts := [], seq(|g.seps|, _ => []), [], map[];
    }

    method FinishGroup(group: nat, arg: string)
      requires group < |lists|
      modifies this`lists, this`cur, this`dicts
      ensures View() == Finished(old(View()), group, arg)
    {
      lists := lists[group := lists[group] + [Group(arg, cur, dicts)]];
      cur, dicts := [], map[];
    }

    method AddOpt(def: OptionDef, key: string, val: Option<string>)
      modifies this`globals, this`cur
      ensures View() == Added(old(View()), Opt(def, key, val))
    {
      if def.perFile {
        cur := cur + [Opt(def, key, val)];
      } else {
        globals := globals + [Opt(def, key, val)];
      }
    }

    method Find(name: string) returns (po: Option<OptionDef>)
      ensures po == FindOption(g.options, name)
    {
      var bare := name;
      if name != "" && name[0] == '/' {
        bare := name[1..];
      }
      for i := 0 to |g.options|
        invariant FirstNamed(g.options, bare) == FirstNamed(g.options[i..], bare)
      {
        assert g.options[i..][0] == g.options[i] && g.options[i..][1..] == g.options[i + 1..];
        if Named(g.options[i], bare) {
          return Some(g.options[i]);
        }
      }
      po := None;
    }

    method MatchGroupSeparator(opt: string) returns (group: Option<nat>)
      ensures group == SeparatorFrom(g.seps, opt, 0)
    {
      for i := 0 to |g.seps|
        invariant SeparatorFrom(g.seps, opt, 0) == SeparatorFrom(g.seps, opt, i)
      {
        if g.seps[i].Some? && g.seps[i].value == opt {
          return Some(i);
        }
      }
      group := None;
    }

    /** One round of the loop for a word that starts with a dash; `used` words were read. */
    method SplitOption(opt: string, next: Option<string>) returns (error: Option<Error>, used: nat)
      requires |lists| == |g.seps| && lists != []
      modifies this
      ensures match ScanOption(g, opt, next)
              case Bad(e) => error == Some(e) && View() == old(View())
              case Scanned(token, n) =>
                && error == None && used == n
                && Fits(old(View()), token) && View() == Apply(old(View()), token)
    {
      used := 1;
      var group := MatchGroupSeparator(opt);
      if group.Some? {
        if next.None? {
          return Some(EINVAL), used;
        }
        FinishGroup(group.value, next.value);
        return None, 2;
      }
      var po := Find(opt);
      if po.Some? {
        if po.value.exit {
          AddOpt(po.value, opt, next);
          return None, if next.Some? then 2 else 1;
        } else if HasArg(po.value) {
          if next.None? {
            return Some(EINVAL), used;
          }
          AddOpt(po.value, opt, next);
          return None, 2;
        }
        AddOpt(po.value, opt, Some("1"));
        return None, 1;
      }
      error, used := SplitUnknown(opt, next);
    }

    /** opt_default on an option it knows. */
    method SetOption(key: string, val: string, puts: seq<Put>)
      modifies this`dicts
      ensures dicts == PutAll(old(dicts), key, val, puts)
    {
      for i := 0 to |puts|
        invariant dicts == PutAll(old(dicts), key, val, puts[..i])
      {
        assert puts[..i + 1][..i] == puts[..i];
        var k := (puts[i].dict, key);
        if puts[i].append && k in dicts {
          dicts := dicts[k := dicts[k] + val];
        } else {
          dicts := dicts[k := val];
        }
      }
      assert puts[..|puts|] == puts;
    }

    method SplitUnknown(opt: string, next: Option<string>) returns (error: Option<Error>, used: nat)
      requires |lists| == |g.seps| && lists != []
      modifies this
      ensures match ScanUnknown(g, opt, next)
              case Bad(e) => error == Some(e) && View() == old(View())
              case Scanned(token, n) =>
                && error == None && used == n
                && Fits(old(View()), token) && View() == Apply(old(View()), token)
    {
      used := 1;
      if next.Some? {
        var looked := g.lookup(opt, next.value);
        if looked.Consumed? {
          SetOption(opt, next.value, looked.puts);
          return None, 2;
        } else if looked.Failed? {
          return Some(Refused(looked.code)), used;
        }
      }
      if |opt| >= 2 && opt[0] == 'n' && opt[1] == 'o' {
        var po := Find(opt[2..]);
        if po.Some? && po.value.kind.Bool? {
          AddOpt(po.value, opt, Some("0"));
          return None, 1;
        }
      }
      error := Some(OptionNotFound);
    }

    /** One round of the loop; `quoted` when the word before was "--". */
    method SplitNext(argv: seq<string>, optindex: nat, quoted: bool) returns (error: Option<Error>, used: nat)
      requires optindex < |argv| && |lists| == |g.seps| && lists != []
      modifies this
      ensures match ScanOne(g, argv[optindex..], quoted)
              case Bad(e) => error == Some(e) && View() == old(View())
              case Scanned(token, n) =>
                && error == None && used == n
                && Fits(old(View()), token) && View() == Apply(old(View()), token)
    {
      var opt := argv[optindex];
      ghost var words := argv[optindex..];
      assert words[0] == opt && (|words| > 1 ==> words[1] == argv[optindex + 1]);
      if opt == "--" {
        return None, 1;
      }
      if opt == "" || opt[0] != '-' || |opt| == 1 || quoted {
        FinishGroup(0, opt);
        return None, 1;
      }
      error, used := SplitOption(opt[1..], if optindex + 1 < |argv| then Some(argv[optindex + 1]) else None);
    }

    /** The tokens in `done` are applied, and `all` continues with those of `words`. */
    ghost predicate Underway(all: Tokens, done: seq<Token>, words: seq<string>, quoted: bool)
      reads this
    {
      && WellGrouped(g, done) && View() == Fold(g, done)
      && all == Continued(done, Tokenize(g, words, quoted))
    }

    ghost predicate Stopped(all: Tokens, error: Option<Error>)
      reads this
    {
      && all.error == error && WellGrouped(g, all.tokens) && View() == Fold(g, all.tokens)
    }

    /** One round of the loop over the words, in terms of the tokens. */
    method SplitOne(argv: seq<string>, optindex: nat, quoted: bool, ghost all: Tokens, ghost done: seq<Token>)
      returns (error: Option<Error>, used: nat, ghost done': seq<Token>)
      requires optindex < |argv| && Underway(all, done, argv[optindex..], quoted)
      modifies this
      ensures error.Some? ==> Stopped(all, error)
      ensures error.None? ==> 1 <= used <= |argv| - optindex
      ensures error.None? && argv[optindex] == "--" ==> used == 1
      ensures error.None? ==> Underway(all, done', argv[optindex + used..], argv[optindex] == "--")
    {
      ghost var words := argv[optindex..];
      error, used := SplitNext(argv, optindex, quoted);
      done' := done;
      if error.None? {
        RoundDone(g, done, words, quoted);
        ScanQuotes(g, words, quoted);
        done' := done + [ScanOne(g, words, quoted).token];
        assert words[used..] == argv[optindex + used..];
      } else {
        RoundFailed(g, done, words, quoted);
      }
    }

    /** The round as it moves `optindex` on and notes a "--". */
    method Round(argv: seq<string>, optindex: nat, dashdash: int, ghost all: Tokens, ghost done: seq<Token>)
      returns (error: Option<Error>, optindex': nat, dashdash': int, ghost done': seq<Token>)
      requires optindex < |argv| && dashdash <= optindex && Underway(all, done, argv[optindex..], dashdash == optindex)
      modifies this
      ensures error.Some? ==> Stopped(all, error)
      ensures error.None? ==> optindex < optindex' <= |argv| && dashdash' <= optindex'
      ensures error.None? ==> Underway(all, done', argv[optindex'..], dashdash' == optindex')
    {
      var used;
      error, used, done' := SplitOne(argv, optindex, dashdash == optindex, all, done);
      dashdash' := if argv[optindex] == "--" then optindex + 1 else dashdash;
      optindex' := optindex + used;
      assert error.None? ==> (dashdash' == optindex') == (argv[optindex] == "--");
    }

    /** The whole line after the program name. On an error everything before it has been
        split. */
    method SplitCommandline(argv: seq<string>) returns (error: Option<Error>)
      requires argv != [] && g.seps != [] && View() == Fresh(g)
      modifies this
      ensures Stopped(Tokenize(g, argv[1..], false), error)
    {
      Begin(Tokenize(g, argv[1..], false), argv[1..]);
      error := Rounds(argv, Tokenize(g, argv[1..], false));
    }

    method Rounds(argv: seq<string>, ghost all: Tokens) returns (error: Option<Error>)
      requires argv != [] && Underway(all, [], argv[1..], false)
      modifies this
      ensures Stopped(all, error)
    {
      var optindex: nat := 1;
      var dashdash := -2;
      ghost var done: seq<Token> := [];
      while optindex < |argv|
        invariant 1 <= optindex <= |argv| && dashdash <= optindex
        invariant Underway(all, done, argv[optindex..], dashdash == optindex)
      {
        error, optindex, dashdash, done := Round(argv, optindex, dashdash, all, done);
        if error.Some? {
          return;
        }
      }
      Finish(all, done, dashdash == optindex);
      error := None;
    }

    lemma Begin(all: Tokens, words: seq<string>)
      requires g.seps != [] && View() == Fresh(g) && all == Tokenize(g, words, false)
      ensures Underway(all, [], words, false)
    {
    }

    lemma Finish(all: Tokens, done: seq<Token>, quoted: bool)
      requires Underway(all, done, [], quoted)
      ensures Stopped(all, None)
    {
      assert done + [] == done;
    }
  }

  function Continued(done: seq<Token>, rest: Tokens): Tokens {
    Tokens(done + rest.tokens, rest.error)
  }

  lemma ContinueStep(done: seq<Token>, more: seq<Token>, rest: Tokens)
    ensures Continued(done, Continued(more, rest)) == Continued(done + more, rest)
  {
    assert done + (more + rest.tokens) == done + more + rest.tokens;
  }

  /** One successful round of the loop, in terms of tokens. */
  lemma RoundDone(g: Grammar, done: seq<Token>, words: seq<string>, quoted: bool)
    requires words != [] && ScanOne(g, words, quoted).Scanned?
    requires WellGrouped(g, done) && Fits(Fold(g, done), ScanOne(g, words, quoted).token)
    ensures var s := ScanOne(g, words, quoted);
            && WellGrouped(g, done + [s.token])
            && Fold(g, done + [s.token]) == Apply(Fold(g, done), s.token)
            && Continued(done, Tokenize(g, words, quoted)) ==
               Continued(done + [s.token], Tokenize(g, words[s.used..], s.token.DashDash?))
  {
    var s := ScanOne(g, words, quoted);
    TokenizeStep(g, words, quoted);
    FoldPush(g, done, s.token);
    ContinueStep(done, [s.token], Tokenize(g, words[s.used..], s.token.DashDash?));
  }

  lemma RoundFailed(g: Grammar, done: seq<Token>, words: seq<string>, quoted: bool)
    requires words != [] && ScanOne(g, words, quoted).Bad?
    ensures Continued(done, Tokenize(g, words, quoted)) == Tokens(done, Some(ScanOne(g, words, quoted).error))
  {
    assert done + [] == done;
  }

  /** Only a "--" quotes the next word. */
  lemma ScanQuotes(g: Grammar, words: seq<string>, quoted: bool)
    requires words != [] && ScanOne(g, words, quoted).Scanned?
    ensures ScanOne(g, words, quoted).token.DashDash? <==> words[0] == "--"
    ensures words[0] == "--" ==> ScanOne(g, words, quoted).used == 1
  {
  }

  lemma TokenizeStep(g: Grammar, words: seq<string>, quoted: bool)
    requires words != [] && ScanOne(g, words, quoted).Scanned?
    ensures var s := ScanOne(g, words, quoted);
            Tokenize(g, words, quoted) == Continued([s.token], Tokenize(g, words[s.used..], s.token.DashDash?))
  {
  }

  predicate WellGrouped(g: Grammar, tokens: seq<Token>) {
    g.seps != [] && forall i :: 0 <= i < |tokens| && tokens[i].Separator? ==> tokens[i].group < |g.seps|
  }

  /** The state after the tokens. */
  function Fold(g: Grammar, tokens: seq<Token>): (c: Context)
    requires WellGrouped(g, tokens)
    ensures |c.lists| == |g.seps|
    decreases |tokens|
  {
    if tokens == [] then Fresh(g)
    else Apply(Fold(g, tokens[..|tokens| - 1]), tokens[|tokens| - 1])
  }

  lemma FoldPush(g: Grammar, tokens: seq<Token>, t: Token)
    requires WellGrouped(g, tokens) && Fits(Fold(g, tokens), t)
    ensures WellGrouped(g, tokens + [t]) && Fold(g, tokens + [t]) == Apply(Fold(g, tokens), t)
  {
    assert (tokens + [t])[..|tokens|] == tokens;
  }
}
