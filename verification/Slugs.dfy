/**
 Slugs (prepareSlug, src/church/services/church.service.ts): the kebab-case form of a name, and the search for one
 that no other church has.

 `fold` stands for lower-casing and the removal of accents; it is known only to leave kebab-case text as it is.
 */
module Slugs {
  import opened Text

  predicate IsAlnum(c: char) {
    'a' <= c <= 'z' || IsDigit(c)
  }

  /** A maximal run of letters and digits at the start of `s`. */
  function Run(s: string): (r: string)
    ensures |r| <= |s| && r == s[..|r|] && (forall i :: 0 <= i < |r| ==> IsAlnum(r[i]))
    ensures |r| < |s| ==> !IsAlnum(s[|r|])
  {
    if s == "" || !IsAlnum(s[0]) then "" else [s[0]] + Run(s[1..])
  }

  function DropOthers(s: string): (r: string)
    ensures |r| <= |s| && (r != "" ==> IsAlnum(r[0]))
    ensures s != "" && !IsAlnum(s[0]) ==> |r| < |s|
  {
    if s == "" || IsAlnum(s[0]) then s else DropOthers(s[1..])
  }

  /** `replace(/[^a-z0-9]+/g, '-')`. */
  function Dashed(s: string): (r: string)
    decreases |s|
  {
    if s == "" then ""
    else if IsAlnum(s[0]) then [s[0]] + Dashed(s[1..])
    else "-" + Dashed(DropOthers(s))
  }

  function StripStart(s: string): (r: string)
    ensures |r| <= |s|
  {
    if s != "" && s[0] == '-' then StripStart(s[1..]) else s
  }

  function StripEnd(s: string): (r: string)
    ensures |r| <= |s|
  {
    if s != "" && s[|s| - 1] == '-' then StripEnd(s[..|s| - 1]) else s
  }

  /** The base form: `replace(/^-+|-+$/g, '')` last. */
  function Base(fold: string -> string, source: string): string {
    StripEnd(StripStart(Dashed(fold(Trim(source)))))
  }

  // ---- what the base form is ----

  /** The words of a text: its maximal runs of letters and digits. */
  function Words(s: string): (w: seq<string>)
    decreases |s|
  {
    if s == "" then []
    else if IsAlnum(s[0]) then [Run(s)] + Words(s[|Run(s)|..])
    else Words(s[1..])
  }

  predicate IsWord(s: string) {
    s != "" && forall i :: 0 <= i < |s| ==> IsAlnum(s[i])
  }

  function Hyphenated(words: seq<string>): (s: string) {
    if words == [] then ""
    else if |words| == 1 then words[0]
    else words[0] + "-" + Hyphenated(words[1..])
  }

  /** Words joined by single hyphens. */
  ghost predicate IsKebab(s: string) {
    exists words: seq<string> :: (forall i :: 0 <= i < |words| ==> IsWord(words[i])) && s == Hyphenated(words)
  }

  lemma {:induction false} WordsAreWords(s: string)
    ensures forall i :: 0 <= i < |Words(s)| ==> IsWord(Words(s)[i])
    decreases |s|
  {
    if s != "" {
      if IsAlnum(s[0]) { WordsAreWords(s[|Run(s)|..]); } else { WordsAreWords(s[1..]); }
    }
  }

  lemma {:induction false} WordsAfterOthers(s: string)
    ensures Words(DropOthers(s)) == Words(s)
  {
    if s != "" && !IsAlnum(s[0]) { WordsAfterOthers(s[1..]); }
  }

  lemma {:induction false} DashedRun(s: string)
    ensures Dashed(s) == Run(s) + Dashed(s[|Run(s)|..])
  {
    if s != "" && IsAlnum(s[0]) {
      DashedRun(s[1..]);
      assert s[1..][|Run(s[1..])|..] == s[|Run(s)|..];
    } else {
      assert s[0..] == s;
    }
  }

  lemma {:induction false} StripEndAfter(a: string, b: string)
    requires a != "" && a[|a| - 1] != '-'
    ensures StripEnd(a + b) == a + StripEnd(b)
    decreases |b|
  {
    if b == "" {
      assert a + b == a;
    } else if b[|b| - 1] == '-' {
      StripEndAfter(a, b[..|b| - 1]);
      assert (a + b)[..|a + b| - 1] == a + b[..|b| - 1];
    }
  }

  lemma DashedStart(s: string)
    requires s != "" ==> IsAlnum(s[0])
    ensures StripStart(Dashed(s)) == Dashed(s)
    ensures s != "" ==> Dashed(s) != "" && Dashed(s)[0] != '-' && Words(s) != []
  {
  }

  /** A word and a gap: what comes after the gap is stripped, or begins the next word. */
  lemma StripEndStep(word: string, tail: string)
    requires word != "" && word[|word| - 1] != '-' && (tail != "" ==> tail[0] != '-')
    ensures StripEnd(word + ("-" + tail)) == if tail == "" then word else word + "-" + StripEnd(tail)
  {
    StripEndAfter(word, "-" + tail);
    if tail == "" {
      assert "-" + tail == "-" && StripEnd("-") == "" && word + "" == word;
    } else {
      KeepsLeadingDash(tail);
      assert word + ("-" + StripEnd(tail)) == word + "-" + StripEnd(tail);
    }
  }

  lemma FirstWord(s: string)
    requires s != "" && IsAlnum(s[0])
    ensures var run := Run(s);
            && run != "" && run[|run| - 1] != '-' && Words(s) == [run] + Words(s[|run|..])
            && (s[|run|..] != "" ==> Dashed(s) == run + ("-" + Dashed(DropOthers(s[|run|..]))))
            && (s[|run|..] == "" ==> Dashed(s) == run)
  {
    DashedRun(s);
  }

  lemma {:induction false} DashedWords(s: string)
    requires s != "" ==> IsAlnum(s[0])
    ensures StripEnd(Dashed(s)) == Hyphenated(Words(s))
    decreases |s|
  {
    NoWords();
    if s != "" {
      var run := Run(s);
      var rest := s[|run|..];
      FirstWord(s);
      HyphenatedStep(run, Words(rest));
      if rest == "" {
        hide Run, Dashed, Words, IsAlnum;
        StripEndAfter(run, "");
        assert run + "" == run;
      } else {
        var tail := DropOthers(rest);
        WordsAfterOthers(rest);
        DashedWords(tail);
        DashedStart(tail);
        hide Run, DropOthers, Dashed, Words, IsAlnum;
        StripEndStep(run, Dashed(tail));
      }
    }
  }

  lemma NoWords()
    ensures Words("") == [] && Dashed("") == ""
  {
  }

  lemma HyphenatedStep(word: string, words: seq<string>)
    ensures Hyphenated([word] + words) == if words == [] then word else word + "-" + Hyphenated(words)
  {
    assert ([word] + words)[1..] == words;
  }

  /** Text that does not begin with a hyphen keeps one put before it. */
  lemma {:induction false} KeepsLeadingDash(d: string)
    requires d != "" && d[0] != '-'
    ensures StripEnd("-" + d) == "-" + StripEnd(d)
    decreases |d|
  {
    if d[|d| - 1] == '-' {
      KeepsLeadingDash(d[..|d| - 1]);
      assert ("-" + d)[..|d|] == "-" + d[..|d| - 1];
    }
  }

  /** The base form is the words of the folded text, joined by hyphens: kebab-case, with nothing lost or reordered. */
  lemma BaseIsHyphenatedWords(fold: string -> string, source: string)
    ensures Base(fold, source) == Hyphenated(Words(fold(Trim(source))))
    ensures IsKebab(Base(fold, source))
  {
    var s := fold(Trim(source));
    var tail := DropOthers(s);
    WordsAfterOthers(s);
    DashedWords(tail);
    DashedStart(tail);
    WordsAreWords(s);
    if s != "" && !IsAlnum(s[0]) {
      assert ("-" + Dashed(tail))[1..] == Dashed(tail);
    } else {
      assert tail == s;
    }
  }

  /** The lower-case letters and digits of a text, in order. */
  function Letters(s: string): (r: string) {
    if s == "" then ""
    else (if 'a' <= s[0] <= 'z' || '0' <= s[0] <= '9' then [s[0]] else "") + Letters(s[1..])
  }

  lemma {:induction false} LettersConcat(a: string, b: string)
    ensures Letters(a + b) == Letters(a) + Letters(b)
    decreases |a|
  {
    if a == "" {
      assert a + b == b;
    } else {
      assert (a + b)[0] == a[0] && (a + b)[1..] == a[1..] + b;
      LettersConcat(a[1..], b);
    }
  }

  lemma {:induction false} LettersOfDashed(s: string)
    ensures Letters(Dashed(s)) == Letters(s)
    decreases |s|
  {
    if s != "" {
      if IsAlnum(s[0]) {
        LettersOfDashed(s[1..]);
        LettersConcat([s[0]], Dashed(s[1..]));
        assert [s[0]][1..] == "";
      } else {
        LettersOfDashed(DropOthers(s));
        LettersOfOthers(s);
        LettersConcat("-", Dashed(DropOthers(s)));
        assert "-"[1..] == "";
      }
    }
  }

  lemma {:induction false} LettersOfOthers(s: string)
    ensures Letters(DropOthers(s)) == Letters(s)
  {
    if s != "" && !IsAlnum(s[0]) { LettersOfOthers(s[1..]); }
  }

  lemma {:induction false} LettersOfStripped(s: string)
    ensures Letters(StripStart(s)) == Letters(s) && Letters(StripEnd(s)) == Letters(s)
    decreases |s|
  {
    if s != "" && s[0] == '-' { LettersOfStripped(s[1..]); }
    if s != "" && s[|s| - 1] == '-' {
      var init := s[..|s| - 1];
      LettersOfStripped(init);
      LettersConcat(init, "-");
      assert s == init + "-" && "-"[1..] == "";
    }
  }

  lemma {:induction false} DashedIsPlain(s: string)
    ensures forall i :: 0 <= i < |Dashed(s)| ==> 'a' <= Dashed(s)[i] <= 'z' || '0' <= Dashed(s)[i] <= '9' || Dashed(s)[i] == '-'
    decreases |s|
  {
    if s != "" {
      if IsAlnum(s[0]) { DashedIsPlain(s[1..]); } else { DashedIsPlain(DropOthers(s)); }
    }
  }

  lemma {:induction false} StrippedIsPart(s: string)
    ensures forall c :: c in StripStart(s) ==> c in s
    ensures forall c :: c in StripEnd(s) ==> c in s
    decreases |s|
  {
    if s != "" && s[0] == '-' { StrippedIsPart(s[1..]); }
    if s != "" && s[|s| - 1] == '-' { StrippedIsPart(s[..|s| - 1]); }
  }

  /** The base form has only lower-case letters, digits and hyphens, and the letters and digits are those of the text. */
  lemma BaseIsPlain(fold: string -> string, source: string)
    ensures Letters(Base(fold, source)) == Letters(fold(Trim(source)))
    ensures forall c :: c in Base(fold, source) ==> 'a' <= c <= 'z' || '0' <= c <= '9' || c == '-'
  {
    var s := Dashed(fold(Trim(source)));
    LettersOfDashed(fold(Trim(source)));
    LettersOfStripped(s);
    LettersOfStripped(StripStart(s));
    DashedIsPlain(fold(Trim(source)));
    StrippedIsPart(s);
    StrippedIsPart(StripStart(s));
  }

  lemma {:induction false} RunOf(word: string, rest: string)
    requires forall i :: 0 <= i < |word| ==> IsAlnum(word[i])
    requires rest != "" ==> !IsAlnum(rest[0])
    ensures Run(word + rest) == word
  {
    if word == "" {
      assert word + rest == rest;
    } else {
      RunOf(word[1..], rest);
      assert (word + rest)[1..] == word[1..] + rest;
    }
  }

  lemma {:induction false} WordsOfHyphenated(words: seq<string>)
    requires forall i :: 0 <= i < |words| ==> IsWord(words[i])
    ensures Words(Hyphenated(words)) == words
  {
    if words != [] {
      var word := words[0];
      if |words| == 1 {
        RunOf(word, "");
        assert word + "" == word && words == [word];
      } else {
        var rest := "-" + Hyphenated(words[1..]);
        var s := word + rest;
        assert Hyphenated(words) == s;
        RunOf(word, rest);
        WordsOfHyphenated(words[1..]);
        assert s[|word|..] == rest && rest[1..] == Hyphenated(words[1..]);
        assert Words(rest) == words[1..];
      }
    }
  }

  /** Folding leaves kebab-case text, which is ASCII, as it is. */
  ghost predicate KeepsKebab(fold: string -> string) {
    forall s :: IsKebab(s) ==> fold(s) == s
  }

  lemma {:induction false} KebabEnds(words: seq<string>)
    requires forall i :: 0 <= i < |words| ==> IsWord(words[i])
    ensures var s := Hyphenated(words); words != [] ==> s != "" && IsAlnum(s[0]) && IsAlnum(s[|s| - 1])
  {
    if |words| > 1 { KebabEnds(words[1..]); }
  }

  /** The base form of a base form is itself. */
  lemma BaseIsIdempotent(fold: string -> string, source: string)
    requires KeepsKebab(fold)
    ensures Base(fold, Base(fold, source)) == Base(fold, source)
  {
    var b, words := Base(fold, source), Words(fold(Trim(source)));
    BaseIsHyphenatedWords(fold, source);
    WordsAreWords(fold(Trim(source)));
    KebabEnds(words);
    assert Trim(b) == b;
    BaseIsHyphenatedWords(fold, b);
    WordsOfHyphenated(words);
  }

  // ---- the search ----

  /** The slugs tried in turn: the base form, then `-2`, `-3` and so on. */
  function Candidate(base: string, k: nat): string {
    if k < 2 then base else base + "-" + Decimal(k)
  }

  lemma CandidatesDiffer(base: string, j: nat, k: nat)
    requires 1 <= j < k
    ensures Candidate(base, j) != Candidate(base, k)
  {
    var s := Candidate(base, k);
    assert s[|base| + 1..] == Decimal(k);
    if j >= 2 {
      var t := Candidate(base, j);
      assert t[|base| + 1..] == Decimal(j);
      ValueOfDecimal(j);
      ValueOfDecimal(k);
    }
  }

  function Tried(base: string, k: nat): (tried: set<string>) {
    set j | 1 <= j <= k :: Candidate(base, j)
  }

  lemma {:induction false} TriedCount(base: string, k: nat)
    ensures |Tried(base, k)| == k
  {
    if k == 0 {
      assert Tried(base, 0) == {};
    } else {
      TriedCount(base, k - 1);
      forall j | 1 <= j < k ensures Candidate(base, j) != Candidate(base, k) { CandidatesDiffer(base, j, k); }
      assert Tried(base, k) == Tried(base, k - 1) + {Candidate(base, k)};
    }
  }

  lemma {:induction false} SubsetCount<T>(a: set<T>, b: set<T>)
    requires a <= b
    ensures |a| <= |b|
  {
    if a != {} {
      var x :| x in a;
      SubsetCount(a - {x}, b - {x});
    }
  }

  /** No more candidates than there are slugs can be taken. */
  lemma TakenBound(base: string, k: nat, taken: set<string>)
    requires Tried(base, k) <= taken
    ensures k <= |taken|
  {
    TriedCount(base, k);
    SubsetCount(Tried(base, k), taken);
  }

  /**
   The search: `taken` are the slugs of the other churches. The slug found is the first candidate that is free, after
   at most one probe more than there are others.
   */
  method FirstFree(base: string, taken: set<string>) returns (slug: string, ghost probes: nat)
    ensures slug !in taken && slug == if probes == 1 then base else base + "-" + Decimal(probes)
    ensures 1 <= probes <= |taken| + 1 && slug == Candidate(base, probes)
    ensures forall j :: 1 <= j < probes ==> Candidate(base, j) in taken
  {
    slug := base;
    var suffix := 2;
    probes := 1;
    TakenBound(base, 0, taken);
    while slug in taken
      invariant probes == suffix - 1 && slug == Candidate(base, probes)
      invariant forall j :: 1 <= j < probes ==> Candidate(base, j) in taken
      invariant probes <= |taken| + 1
      decreases |taken| + 1 - probes
    {
      assert Tried(base, probes) <= taken;
      TakenBound(base, probes, taken);
      slug := base + "-" + Decimal(suffix);
      suffix := suffix + 1;
      probes := probes + 1;
    }
  }
}
