/** What splitting a command line keeps: every word, every option in order, and the meaning of
    a line cut behind a separator. */
module CommandLineRuns {
  import opened Options
  import opened CommandLine

  // ---- words ----

  /** The words a token stands for. */
  function Spelling(g: Grammar, t: Token): seq<string> {
    match t
    case DashDash => ["--"]
    case Plain(word) => [word]
    case Separator(_, sep, arg) => ["-" + sep, arg]
    case Known(opt) =>
      var takes := opt.def.exit || HasArg(opt.def);
      ["-" + opt.key] + if Direct(g, opt) && opt.val.Some? && takes then [opt.val.value] else []
    case AvOption(key, val, _) => ["-" + key, val]
  }

  /** The option was found under its own name rather than as -nofoo. */
  predicate Direct(g: Grammar, opt: Opt) { FindOption(g.options, opt.key) == Some(opt.def) }

  function Spelled(g: Grammar, tokens: seq<Token>): seq<string> {
    if tokens == [] then [] else Spelling(g, tokens[0]) + Spelled(g, tokens[1..])
  }

  lemma OptionSpells(g: Grammar, opt: string, next: Option<string>)
    requires ScanOption(g, opt, next).Scanned?
    ensures var s := ScanOption(g, opt, next);
            && (s.used == 1 ==> Spelling(g, s.token) == ["-" + opt])
            && (s.used == 2 ==> next.Some? && Spelling(g, s.token) == ["-" + opt, next.value])
  {
  }

  lemma ScanSpells(g: Grammar, words: seq<string>, quoted: bool)
    requires words != [] && ScanOne(g, words, quoted).Scanned?
    ensures var s := ScanOne(g, words, quoted); Spelling(g, s.token) == words[..s.used]
  {
    var word := words[0];
    if word != "--" && !PlainWord(word, quoted) {
      OptionSpells(g, word[1..], if |words| > 1 then Some(words[1]) else None);
      assert word == "-" + word[1..];
    }
  }

  /** Nothing is lost: the tokens spell out the whole line, or the part before the error. */
  lemma {:induction false} SplittingKeepsWords(g: Grammar, words: seq<string>, quoted: bool)
    ensures var r := Tokenize(g, words, quoted);
            && Spelled(g, r.tokens) <= words
            && (r.error.None? ==> Spelled(g, r.tokens) == words)
    decreases |words|
  {
    if words != [] {
      var s := ScanOne(g, words, quoted);
      if s.Scanned? {
        var rest := Tokenize(g, words[s.used..], s.token.DashDash?);
        ScanSpells(g, words, quoted);
        SplittingKeepsWords(g, words[s.used..], s.token.DashDash?);
        TokenizeStep(g, words, quoted);
        SpelledCons(g, s.token, rest.tokens);
        PrefixJoins(words, s.used, Spelled(g, rest.tokens));
      }
    }
  }

  lemma SpelledCons(g: Grammar, t: Token, rest: seq<Token>)
    ensures Spelled(g, [t] + rest) == Spelling(g, t) + Spelled(g, rest)
  {
    assert ([t] + rest)[1..] == rest;
  }

  lemma PrefixJoins(words: seq<string>, n: nat, part: seq<string>)
    requires n <= |words| && part <= words[n..]
    ensures words[..n] + part <= words
    ensures part == words[n..] ==> words[..n] + part == words
  {
  }

  // ---- options ----

  function OptionsIn(tokens: seq<Token>, perFile: bool): seq<Opt> {
    if tokens == [] then []
    else
      var t := tokens[|tokens| - 1];
      OptionsIn(tokens[..|tokens| - 1], perFile) + if t.Known? && t.opt.def.perFile == perFile then [t.opt] else []
  }

  function DictsOf(tokens: seq<Token>): Dicts {
    if tokens == [] then map[]
    else
      var t := tokens[|tokens| - 1];
      var before := DictsOf(tokens[..|tokens| - 1]);
      if t.AvOption? then PutAll(before, t.key, t.val, t.puts) else before
  }

  /** The reference: a line is sections, each closed by a separator, and a trailing rest. */
  datatype Section = Section(group: nat, arg: string, tokens: seq<Token>)
  datatype Sections = Sections(closed: seq<Section>, trailing: seq<Token>)

  function Divide(tokens: seq<Token>): Sections
    decreases |tokens|
  {
    if tokens == [] then Sections([], [])
    else
      var before := Divide(tokens[..|tokens| - 1]);
      var t := tokens[|tokens| - 1];
      if t.Plain? then Sections(before.closed + [Section(0, t.word, before.trailing)], [])
      else if t.Separator? then Sections(before.closed + [Section(t.group, t.arg, before.trailing)], [])
      else Sections(before.closed, before.trailing + [t])
  }

  function Listed(closed: seq<Section>, group: nat): seq<Group> {
    if closed == [] then []
    else
      var s := closed[|closed| - 1];
      Listed(closed[..|closed| - 1], group) +
      if s.group == group then [Group(s.arg, OptionsIn(s.tokens, true), DictsOf(s.tokens))] else []
  }

  lemma PushToken(tokens: seq<Token>, t: Token)
    ensures OptionsIn(tokens + [t], true) ==
              OptionsIn(tokens, true) + if t.Known? && t.opt.def.perFile then [t.opt] else []
    ensures OptionsIn(tokens + [t], false) ==
              OptionsIn(tokens, false) + if t.Known? && !t.opt.def.perFile then [t.opt] else []
    ensures DictsOf(tokens + [t]) ==
              if t.AvOption? then PutAll(DictsOf(tokens), t.key, t.val, t.puts) else DictsOf(tokens)
  {
    assert (tokens + [t])[..|tokens|] == tokens;
  }

  /** The context holds the global options of the whole line, group lists that are the closed
      sections in order, and the options of the trailing rest. */
  predicate Holds(g: Grammar, tokens: seq<Token>, c: Context)
    requires |c.lists| == |g.seps|
  {
    var d := Divide(tokens);
    && c.globals == OptionsIn(tokens, false)
    && c.cur == OptionsIn(d.trailing, true)
    && c.dicts == DictsOf(d.trailing)
    && forall i :: 0 <= i < |g.seps| ==> c.lists[i] == Listed(d.closed, i)
  }

  /** Every option lands exactly once, in order: globals together, the others in the group
      closed by the next separator, or in the trailing rest. */
  lemma {:induction false} OptionsLand(g: Grammar, tokens: seq<Token>)
    requires WellGrouped(g, tokens)
    ensures Holds(g, tokens, Fold(g, tokens))
    decreases |tokens|
  {
    if tokens != [] {
      var n := |tokens| - 1;
      var init, t := tokens[..n], tokens[n];
      OptionsLand(g, init);
      var c := Fold(g, init);
      TokenLands(g, init, t, c);
      assert tokens == init + [t];
    }
  }

  lemma TokenLands(g: Grammar, tokens: seq<Token>, t: Token, c: Context)
    requires |c.lists| == |g.seps| && Fits(c, t) && Holds(g, tokens, c)
    ensures Holds(g, tokens + [t], Apply(c, t))
  {
    var d := Divide(tokens);
    assert (tokens + [t])[..|tokens|] == tokens;
    PushToken(tokens, t);
    if IsSeparator(t) {
      var s := Section(if t.Plain? then 0 else t.group, if t.Plain? then t.word else t.arg, d.trailing);
      assert (d.closed + [s])[..|d.closed|] == d.closed;
      forall i | 0 <= i < |g.seps|
        ensures Apply(c, t).lists[i] == Listed(d.closed + [s], i)
      {
        assert c.lists[i] == Listed(d.closed, i);
      }
    } else {
      PushToken(d.trailing, t);
    }
  }

  function Joined(closed: seq<Section>): seq<Token> {
    if closed == [] then [] else Joined(closed[..|closed| - 1]) + closed[|closed| - 1].tokens
  }

  /** Sections forget only the separators. */
  lemma {:induction false} DivideKeepsTokens(tokens: seq<Token>)
    ensures var d := Divide(tokens); Joined(d.closed) + d.trailing == WithoutSeparators(tokens)
    ensures |Divide(tokens).closed| + |WithoutSeparators(tokens)| == |tokens|
    decreases |tokens|
  {
    if tokens != [] {
      var n := |tokens| - 1;
      DivideKeepsTokens(tokens[..n]);
      var before, d := Divide(tokens[..n]), Divide(tokens);
      if IsSeparator(tokens[n]) {
        assert d.closed[..|d.closed| - 1] == before.closed;
      }
    }
  }

  function WithoutSeparators(tokens: seq<Token>): seq<Token> {
    if tokens == [] then []
    else WithoutSeparators(tokens[..|tokens| - 1]) +
         if IsSeparator(tokens[|tokens| - 1]) then [] else [tokens[|tokens| - 1]]
  }

  // ---- cutting a line ----

  predicate EndsInSeparator(tokens: seq<Token>) {
    tokens != [] && IsSeparator(tokens[|tokens| - 1])
  }

  /** Behind a separator a scan that had its words does not see what follows. */
  lemma ScanLocal(g: Grammar, words: seq<string>, more: seq<string>, quoted: bool)
    requires words != [] && ScanOne(g, words, quoted).Scanned?
    requires ScanOne(g, words, quoted).used < |words| || IsSeparator(ScanOne(g, words, quoted).token)
    ensures ScanOne(g, words + more, quoted) == ScanOne(g, words, quoted)
  {
    assert (words + more)[0] == words[0];
    if |words| > 1 { assert (words + more)[1] == words[1]; }
  }

  lemma ScanWithMore(g: Grammar, words: seq<string>, more: seq<string>, quoted: bool)
    requires words != [] && ScanOne(g, words, quoted).Scanned?
    requires ScanOne(g, words, quoted).used < |words| || IsSeparator(ScanOne(g, words, quoted).token)
    ensures var s := ScanOne(g, words, quoted);
            Tokenize(g, words + more, quoted) ==
              Continued([s.token], Tokenize(g, words[s.used..] + more, s.token.DashDash?))
  {
    var s := ScanOne(g, words, quoted);
    ScanLocal(g, words, more, quoted);
    TokenizeStep(g, words + more, quoted);
    assert (words + more)[s.used..] == words[s.used..] + more;
  }

  predicate CleanCut(t: Tokens) { t.error.None? && EndsInSeparator(t.tokens) }

  /** The first token of a line, seen alone and with more words behind. */
  lemma FirstToken(g: Grammar, a: seq<string>, b: seq<string>, quoted: bool) returns (t: Token, tail: seq<string>)
    requires CleanCut(Tokenize(g, a, quoted))
    ensures |tail| < |a|
    ensures Tokenize(g, a, quoted) == Continued([t], Tokenize(g, tail, t.DashDash?))
    ensures Tokenize(g, a + b, quoted) == Continued([t], Tokenize(g, tail + b, t.DashDash?))
    ensures if tail == [] then IsSeparator(t) else CleanCut(Tokenize(g, tail, t.DashDash?))
  {
    var s := ScanOne(g, a, quoted);
    t, tail := s.token, a[s.used..];
    TokenizeStep(g, a, quoted);
    CutLater(t, Tokenize(g, tail, t.DashDash?));
    ScanWithMore(g, a, b, quoted);
  }

  lemma CutLater(t: Token, rest: Tokens)
    requires CleanCut(Continued([t], rest))
    ensures rest.tokens == [] ==> IsSeparator(t)
    ensures rest.tokens != [] ==> CleanCut(rest)
  {
    assert rest.tokens != [] ==> ([t] + rest.tokens)[|rest.tokens|] == rest.tokens[|rest.tokens| - 1];
  }

  lemma Compose(whole: Tokens, a: Tokens, t: Token, rest: Tokens, b: Tokens, later: Tokens)
    requires a == Continued([t], rest) && whole == Continued([t], later) && later == Continued(rest.tokens, b)
    ensures whole == Continued(a.tokens, b)
  {
    ContinueStep([t], rest.tokens, b);
  }

  /** Cutting a line right behind a separator and splitting the halves separately gives the
      tokens of the whole. */
  lemma {:induction false} CutBehindSeparator(g: Grammar, a: seq<string>, b: seq<string>, quoted: bool)
    requires CleanCut(Tokenize(g, a, quoted))
    ensures Tokenize(g, a + b, quoted) == Continued(Tokenize(g, a, quoted).tokens, Tokenize(g, b, false))
    decreases |a|
  {
    var t, tail := FirstToken(g, a, b, quoted);
    var dashes := t.DashDash?;
    if tail != [] {
      CutBehindSeparator(g, tail, b, dashes);
    } else {
      assert tail + b == b;
    }
    Compose(Tokenize(g, a + b, quoted), Tokenize(g, a, quoted), t, Tokenize(g, tail, dashes),
            Tokenize(g, b, false), Tokenize(g, tail + b, dashes));
  }

  /** Two contexts one after the other; the first has nothing pending. */
  function Merged(c: Context, d: Context): Context
    requires |c.lists| == |d.lists|
  {
    Context(c.globals + d.globals,
            seq(|c.lists|, i requires 0 <= i < |c.lists| => c.lists[i] + d.lists[i]),
            d.cur, d.dicts)
  }

  /** ... and so the same groups, list by list. */
  lemma {:induction false} GroupsMerge(g: Grammar, a: seq<Token>, b: seq<Token>)
    requires WellGrouped(g, a) && WellGrouped(g, b) && EndsInSeparator(a)
    ensures WellGrouped(g, a + b) && Fold(g, a + b) == Merged(Fold(g, a), Fold(g, b))
    decreases |b|
  {
    var c := Fold(g, a);
    assert c.cur == [] && c.dicts == map[];
    if b == [] {
      assert a + b == a;
      var m := Merged(c, Fold(g, b));
      assert m.globals == c.globals;
      assert forall i :: 0 <= i < |c.lists| ==> m.lists[i] == c.lists[i];
    } else {
      var n := |b| - 1;
      GroupsMerge(g, a, b[..n]);
      assert (a + b)[..|a + b| - 1] == a + b[..n];
      MergeApply(c, Fold(g, b[..n]), b[n]);
    }
  }

  lemma MergeApply(c: Context, d: Context, t: Token)
    requires |c.lists| == |d.lists| && Fits(d, t)
    ensures Apply(Merged(c, d), t) == Merged(c, Apply(d, t))
  {
    var l, r := Apply(Merged(c, d), t), Merged(c, Apply(d, t));
    assert l.globals == r.globals;
    assert forall i :: 0 <= i < |l.lists| ==> l.lists[i] == r.lists[i];
  }

  /** Altogether: splitting a line gives what splitting its halves, cut behind a separator,
      gives one after the other. */
  lemma CutLineMerges(g: Grammar, a: seq<string>, b: seq<string>)
    requires g.seps != [] && CleanCut(Tokenize(g, a, false))
    ensures var whole, first, second := Tokenize(g, a + b, false), Tokenize(g, a, false), Tokenize(g, b, false);
            && whole.error == second.error
            && Fold(g, whole.tokens) == Merged(Fold(g, first.tokens), Fold(g, second.tokens))
  {
    CutBehindSeparator(g, a, b, false);
    GroupsMerge(g, Tokenize(g, a, false).tokens, Tokenize(g, b, false).tokens);
  }

  /** Cutting elsewhere can change the meaning: "--" quotes only within one line. */
  lemma CutBehindDashDash(g: Grammar)
    requires g.options == [] && g.seps == [None]
    ensures Tokenize(g, ["--", "-x"], false).error.None?
    ensures Tokenize(g, ["-x"], false).error == Some(OptionNotFound)
  {
    assert ["--", "-x"][1..] == ["-x"];
    assert "-x"[1..] == "x" && Bare("x") == "x";
    assert SeparatorFrom([None], "x", 0).None?;
  }
}
