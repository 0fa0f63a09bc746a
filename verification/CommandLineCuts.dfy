/** Exactly where a command line can be cut without changing its meaning. */
module CommandLineCuts {
  import opened Options
  import opened CommandLine
  import CommandLineRuns

  /** A line that ends in token `t` can be followed by the word `w` as by a new line. */
  predicate CutsCleanly(g: Grammar, t: Token, w: string) {
    match t
    case DashDash => w == "--" || PlainWord(w, false)
    case Known(opt) =>
      if FindOption(g.options, opt.key).None? then g.lookup(opt.key, w).NotFound?
      else !(opt.def.exit && opt.val.None?)
    case _ => true
  }

  lemma CancelFirst(t: Token, x: Tokens, y: Tokens)
    ensures Continued([t], x) == Continued([t], y) <==> x == y
  {
    assert ([t] + x.tokens)[1..] == x.tokens && ([t] + y.tokens)[1..] == y.tokens;
  }

  /** A "--" matters for the word behind it exactly if that would otherwise be an option. */
  lemma QuoteMatters(g: Grammar, b: seq<string>)
    requires b != []
    ensures Tokenize(g, b, true) == Tokenize(g, b, false) <==> b[0] == "--" || PlainWord(b[0], false)
  {
    if b[0] != "--" && !PlainWord(b[0], false) {
      var quoted, plain := ScanOne(g, b, true), ScanOne(g, b, false);
      assert quoted == Scanned(Plain(b[0]), 1);
      TokenizeStep(g, b, true);
      assert Tokenize(g, b, true).tokens[0] == Plain(b[0]);
      if plain.Scanned? {
        TokenizeStep(g, b, false);
        assert Tokenize(g, b, false).tokens[0] == plain.token;
      }
    }
  }

  /** How an option at the very end of a line reads when a word follows after all. */
  lemma LastOption(g: Grammar, opt: string, w: string)
    requires ScanOption(g, opt, None).Scanned?
    ensures var s := ScanOption(g, opt, None);
            && s.token.Known? && s.used == 1
            && (ScanOption(g, opt, Some(w)) == s <==> CutsCleanly(g, s.token, w))
            && (ScanOption(g, opt, Some(w)) == s || !ScanOption(g, opt, Some(w)).Scanned?
                || ScanOption(g, opt, Some(w)).token != s.token)
  {
  }

  /** The last token of a line, seen alone and with more words behind. */
  lemma LastToken(g: Grammar, a: seq<string>, b: seq<string>, quoted: bool)
    requires a != [] && b != [] && ScanOne(g, a, quoted).Scanned? && ScanOne(g, a, quoted).used == |a|
    ensures var t := ScanOne(g, a, quoted).token;
            Tokenize(g, a + b, quoted) == Continued([t], Tokenize(g, b, false)) <==> CutsCleanly(g, t, b[0])
  {
    var s := ScanOne(g, a, quoted);
    var whole := ScanOne(g, a + b, quoted);
    assert (a + b)[0] == a[0] && (a + b)[|a|..] == b && (a + b)[|a|] == b[0];
    if a[0] == "--" || PlainWord(a[0], quoted) || |a| > 1 {
      assert |a| > 1 ==> (a + b)[1] == a[1];
      assert whole == s;
      TokenizeStep(g, a + b, quoted);
      CancelFirst(s.token, Tokenize(g, b, s.token.DashDash?), Tokenize(g, b, false));
      QuoteMatters(g, b);
      TwoWordsClean(g, a, quoted, b[0]);
    } else {
      LastOption(g, a[0][1..], b[0]);
      if whole.Scanned? {
        TokenizeStep(g, a + b, quoted);
        CancelFirst(s.token, Tokenize(g, (a + b)[whole.used..], whole.token.DashDash?), Tokenize(g, b, false));
        FirstDiffers(whole.token, Tokenize(g, (a + b)[whole.used..], whole.token.DashDash?),
                     s.token, Tokenize(g, b, false));
      }
    }
  }

  lemma FirstDiffers(t: Token, x: Tokens, u: Token, y: Tokens)
    ensures t != u ==> Continued([t], x) != Continued([u], y)
  {
    assert ([t] + x.tokens)[0] == t && ([u] + y.tokens)[0] == u;
  }

  /** A token of two words, or none that is an option, minds only the quoting. */
  lemma TwoWordsClean(g: Grammar, a: seq<string>, quoted: bool, w: string)
    requires a != [] && ScanOne(g, a, quoted).Scanned? && ScanOne(g, a, quoted).used == |a|
    requires a[0] == "--" || PlainWord(a[0], quoted) || |a| > 1
    ensures var t := ScanOne(g, a, quoted).token;
            CutsCleanly(g, t, w) <==> !t.DashDash? || w == "--" || PlainWord(w, false)
  {
  }

  /** Splitting one half after the other: a refusal in the first ends it all. */
  function Sequel(first: Tokens, second: Tokens): Tokens {
    if first.error.Some? then first else Continued(first.tokens, second)
  }

  /** The line `a` can be followed by the word `w` as by a new line: its last token, or the
      refusal that ends it, does not reach over the cut. */
  predicate Clean(g: Grammar, a: seq<string>, quoted: bool, w: string)
    requires a != []
    decreases |a|
  {
    var s := ScanOne(g, a, quoted);
    if s.Bad? then |a| > 1 || ScanOne(g, [a[0], w], quoted) == s
    else if s.used == |a| then CutsCleanly(g, s.token, w)
    else Clean(g, a[s.used..], s.token.DashDash?, w)
  }

  /** A refusal that saw two words, or minds only the first, stays. */
  lemma RefusalCut(g: Grammar, a: seq<string>, b: seq<string>, quoted: bool)
    requires a != [] && b != [] && ScanOne(g, a, quoted).Bad?
    ensures Tokenize(g, a + b, quoted) == Tokenize(g, a, quoted) <==> Clean(g, a, quoted, b[0])
  {
    var s, whole := ScanOne(g, a, quoted), ScanOne(g, a + b, quoted);
    assert (a + b)[0] == a[0];
    if |a| > 1 {
      assert (a + b)[1] == a[1];
      assert whole == s;
    } else {
      assert (a + b)[1] == b[0];
      assert whole == ScanOne(g, [a[0], b[0]], quoted);
      if whole.Scanned? {
        TokenizeStep(g, a + b, quoted);
        assert Tokenize(g, a + b, quoted).tokens != [];
      }
    }
  }

  /** A line cut anywhere splits as its halves do one after the other, if and only if nothing
      before the cut reaches over it. */
  lemma {:induction false} CutExactly(g: Grammar, a: seq<string>, b: seq<string>, quoted: bool)
    requires a != [] && b != []
    ensures Tokenize(g, a + b, quoted) == Sequel(Tokenize(g, a, quoted), Tokenize(g, b, false))
            <==> Clean(g, a, quoted, b[0])
    decreases |a|
  {
    var s := ScanOne(g, a, quoted);
    if s.Bad? {
      RefusalCut(g, a, b, quoted);
    } else if s.used == |a| {
      TokenizeStep(g, a, quoted);
      assert Tokenize(g, a, quoted).tokens == [s.token];
      LastToken(g, a, b, quoted);
    } else {
      var tail, dashes := a[s.used..], s.token.DashDash?;
      TokenizeStep(g, a, quoted);
      CommandLineRuns.ScanWithMore(g, a, b, quoted);
      CutExactly(g, tail, b, dashes);
      CutFurther(s.token, Tokenize(g, tail, dashes), Tokenize(g, tail + b, dashes), Tokenize(g, b, false));
    }
  }

  lemma CutFurther(t: Token, rest: Tokens, later: Tokens, b: Tokens)
    ensures Continued([t], later) == Sequel(Continued([t], rest), b) <==> later == Sequel(rest, b)
  {
    ContinueStep([t], rest.tokens, b);
    CancelFirst(t, later, Sequel(rest, b));
  }

  /** In particular between a separator and its argument, where the first half is refused. */
  lemma CutBeforeArgument(g: Grammar, sep: string, arg: string)
    requires SeparatorFrom(g.seps, sep, 0).Some? && sep != "" && sep != "-"
    ensures Tokenize(g, ["-" + sep, arg], false).error.None?
    ensures Tokenize(g, ["-" + sep], false).error == Some(EINVAL)
    ensures !Clean(g, ["-" + sep], false, arg)
  {
    var word := "-" + sep;
    assert word[1..] == sep && word != "--";
    assert [word, arg][2..] == [];
  }
}
