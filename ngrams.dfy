/** The n-gram confirmation analysis: a whitespace tokenizer, an n-gramizer
    for orders 1 to 4, and the multiset operations that split the n-grams of
    a translation into those confirmed and those not confirmed by the
    reference. The regex-based sentence normalizers are not part of this
    module; callers pass the normalized sentence. */
module NGrams {
  import opened Text

  /** Highest n-gram order produced. */
  const MaxOrder := 4

  // ---------------------------------------------------------------------
  // Tokenizer
  // ---------------------------------------------------------------------

  /** Tokenizer.tokenize: optionally lowercase, strip, split on whitespace runs. */
  function Tokenize(sentence: string, caseSensitive: bool): seq<string>
  {
    SplitWs(Strip(if caseSensitive then sentence else Lower(sentence)))
  }

  /** No piece of a split contains a split space. */
  lemma {:induction false} SplitPiecesHaveNoSpace(s: string)
    ensures forall k :: 0 <= k < |SplitWs(s)| ==> NoSplitSpace(SplitWs(s)[k])
    decreases |s|
  {
    var i := FirstSplitSpace(s);
    if i < |s| {
      var j := i + LeadingSplitSpaces(s[i..]);
      SplitPiecesHaveNoSpace(s[j..]);
      assert SplitWs(s) == [s[..i]] + SplitWs(s[j..]);
    }
  }

  /** On a string with no split space at either end, every piece is non-empty. */
  lemma {:induction false} SplitPiecesNonEmpty(s: string)
    requires s != [] && !IsSplitSpace(s[0]) && !IsSplitSpace(s[|s| - 1])
    ensures forall k :: 0 <= k < |SplitWs(s)| ==> SplitWs(s)[k] != []
    decreases |s|
  {
    var i := FirstSplitSpace(s);
    if i < |s| {
      var t := s[i..];
      var k := LeadingSplitSpaces(t);
      assert t[|t| - 1] == s[|s| - 1];
      assert k < |t|;
      var j := i + k;
      assert s[j..] == t[k..];
      assert s[j..][|s[j..]| - 1] == s[|s| - 1];
      SplitPiecesNonEmpty(s[j..]);
      assert SplitWs(s) == [s[..i]] + SplitWs(s[j..]);
    }
  }

  lemma LowerKeepsSpaces(s: string)
    ensures AllSpace(Lower(s)) <==> AllSpace(s)
  {
    var r := Lower(s);
    forall i | 0 <= i < |s| ensures IsSpace(r[i]) <==> IsSpace(s[i]) {
      assert r[i] == LowerChar(s[i]);
    }
  }

  /** No token contains a split space (U+001C to U+001F may remain inside a token). */
  lemma TokensHaveNoSpace(sentence: string, caseSensitive: bool)
    ensures forall k :: 0 <= k < |Tokenize(sentence, caseSensitive)| ==>
      NoSplitSpace(Tokenize(sentence, caseSensitive)[k])
  {
    SplitPiecesHaveNoSpace(Strip(if caseSensitive then sentence else Lower(sentence)));
  }

  /** The tokenizer yields [""] exactly for an all-whitespace (or empty)
      sentence; otherwise every token is non-empty. */
  lemma TokenizeBlankIff(sentence: string, caseSensitive: bool)
    ensures Tokenize(sentence, caseSensitive) == [""] <==> AllSpace(sentence)
    ensures !AllSpace(sentence) ==>
      forall k :: 0 <= k < |Tokenize(sentence, caseSensitive)| ==> Tokenize(sentence, caseSensitive)[k] != []
  {
    var s := if caseSensitive then sentence else Lower(sentence);
    LowerKeepsSpaces(sentence);
    StripEmptyIff(s);
    StripShape(s);
    var t := Strip(s);
    if t != [] {
      SplitPiecesNonEmpty(t);
      assert SplitWs(t)[0] != [];
    }
  }

  /** The ASCII separators U+001C to U+001F are removed by strip at the
      ends of the sentence but do not split it: the regex module's \s does
      not match them. */
  lemma TokenizeAtSeparator()
    ensures Tokenize("\U{001F}a\U{001F}b\U{001F}", true) == ["a\U{001F}b"]
  {
    var s := "\U{001F}a\U{001F}b\U{001F}";
    assert LeadingSpaces(s) == 1 by {
      assert s[1..] == "a\U{001F}b\U{001F}";
    }
    var t := s[1..];
    assert t == "a\U{001F}b\U{001F}";
    assert TrailingSpaces(t) == 1 by {
      assert t[..|t| - 1] == "a\U{001F}b";
    }
    var r := t[..|t| - 1];
    assert r == "a\U{001F}b";
    assert FirstSplitSpace(r) == 3 by {
      assert r[1..] == "\U{001F}b" && r[1..][1..] == "b" && "b"[1..] == "";
    }
  }

  // ---------------------------------------------------------------------
  // N-gramizer
  // ---------------------------------------------------------------------

  /** The n-grams of order n that NGramizer.get_ngrams produces from the
      token list: the token list itself for n = 1; for n >= 2 the windows of
      n consecutive tokens joined by single spaces, but only when there are
      at least 2n - 2 tokens, because the length test reads the token list
      after it has been shifted n - 2 times. */
  function NGramList(tokens: seq<string>, n: nat): seq<string>
    requires 1 <= n
  {
    if n == 1 then tokens
    else if |tokens| >= 2 * n - 2 then
      seq(|tokens| - n + 1, i requires 0 <= i < |tokens| - n + 1 => Join(tokens[i..i + n]))
    else []
  }

  /** The dictionary get_ngrams returns, keyed by order. */
  function NGramsOf(tokens: seq<string>): (m: map<int, seq<string>>)
    ensures m.Keys == {1, 2, 3, 4}
    ensures m[1] == tokens
  {
    map n | 1 <= n <= MaxOrder :: NGramList(tokens, n)
  }

  lemma JoinWindowStep(w: seq<string>)
    requires |w| >= 2
    ensures Join(w) == Join(w[..|w| - 1]) + " " + w[|w| - 1]
  {
  }

  /** The (n-1)-gram at i, a space and the token at i + n - 1 make the
      n-gram at i. */
  lemma ExtendWindow(all: seq<string>, n: nat, i: nat)
    requires 2 <= n && |all| >= 2 * n - 2 && i + n <= |all|
    ensures NGramList(all, n - 1)[i] + " " + all[i + n - 1] == Join(all[i..i + n])
  {
    var w := all[i..i + n];
    assert w[..n - 1] == all[i..i + n - 1] && w[n - 1] == all[i + n - 1];
    JoinWindowStep(w);
    if n == 2 {
      assert NGramList(all, 1) == all;
      assert Join(w[..1]) == all[i];
    } else {
      PreviousOrderAt(all, n - 1, i);
    }
  }

  lemma PreviousOrderAt(all: seq<string>, m: nat, i: nat)
    requires 2 <= m && |all| >= 2 * m && i + m < |all|
    ensures NGramList(all, m)[i] == Join(all[i..i + m])
  {
  }

  /** One pass of the loop in get_ngrams: shifting the token list once more
      and pairing each (n-1)-gram with the token now at its index gives the
      n-grams. */
  lemma ShiftStep(all: seq<string>, n: nat, tokens: seq<string>, prev: seq<string>)
    requires 2 <= n && |all| >= 2 * n - 2
    requires tokens == all[n - 1..] && prev == NGramList(all, n - 1)
    ensures seq(|tokens|, i requires 0 <= i < |tokens| => prev[i] + " " + tokens[i]) == NGramList(all, n)
  {
    var next := seq(|tokens|, i requires 0 <= i < |tokens| => prev[i] + " " + tokens[i]);
    forall i | 0 <= i < |tokens|
      ensures next[i] == Join(all[i..i + n])
    {
      assert tokens[i] == all[i + n - 1];
      ExtendWindow(all, n, i);
    }
  }

  /** NGramizer.get_ngrams: tokenize, then build the higher orders. */
  method GetNGrams(sentence: string, caseSensitive: bool) returns (ngrams: map<int, seq<string>>)
    ensures ngrams == NGramsOf(Tokenize(sentence, caseSensitive))
  {
    var tokens := Tokenize(sentence, caseSensitive);
    ngrams := ShiftingWindows(tokens);
  }

  /** The token list after the shifts made before order length. */
  ghost predicate ShiftedFor(all: seq<string>, tokens: seq<string>, length: nat)
  {
    && |tokens| <= |all| && tokens == all[|all| - |tokens|..]
    && (|all| >= 2 * length - 4 ==> |tokens| == |all| - (length - 2))
    && (|all| < 2 * length - 4 ==> |tokens| < length)
  }

  /** The orders 1 to length - 1, each with its n-grams. */
  ghost predicate HasOrdersBelow(all: seq<string>, ngrams: map<int, seq<string>>, length: nat)
  {
    && (forall l :: l in ngrams <==> 1 <= l < length)
    && (forall l :: 1 <= l < length ==> ngrams[l] == NGramList(all, l))
  }

  lemma OrdersGrow(all: seq<string>, ngrams: map<int, seq<string>>, length: nat, grams: seq<string>)
    requires 1 <= length && HasOrdersBelow(all, ngrams, length) && grams == NGramList(all, length)
    ensures HasOrdersBelow(all, ngrams[length := grams], length + 1)
  {
  }

  lemma OrdersComplete(all: seq<string>, ngrams: map<int, seq<string>>)
    requires HasOrdersBelow(all, ngrams, MaxOrder + 1)
    ensures ngrams == NGramsOf(all)
  {
  }

  /** The loop of get_ngrams, which shifts the token list once per order. */
  method ShiftingWindows(all: seq<string>) returns (ngrams: map<int, seq<string>>)
    ensures ngrams == NGramsOf(all)
  {
    var tokens := all;
    ngrams := map[1 := tokens];
    var length := 2;
    while length < MaxOrder + 1
      invariant 2 <= length <= MaxOrder + 1
      invariant HasOrdersBelow(all, ngrams, length)
      invariant ShiftedFor(all, tokens, length)
    {
      var grams;
      tokens, grams := NextOrder(all, tokens, length, ngrams[length - 1]);
      OrdersGrow(all, ngrams, length, grams);
      ngrams := ngrams[length := grams];
      length := length + 1;
    }
    OrdersComplete(all, ngrams);
  }

  /** One pass of the loop: the n-grams of order length, from the token
      list shifted once more when it is long enough. */
  method NextOrder(all: seq<string>, tokens: seq<string>, length: nat, prev: seq<string>)
    returns (shifted: seq<string>, grams: seq<string>)
    requires 2 <= length <= MaxOrder && ShiftedFor(all, tokens, length)
    requires prev == NGramList(all, length - 1)
    ensures ShiftedFor(all, shifted, length + 1) && grams == NGramList(all, length)
  {
    shifted := tokens;
    if |tokens| < length {
      grams := [];
    } else {
      assert |all| >= 2 * length - 2;
      shifted := tokens[1..];
      assert shifted == all[length - 1..];
      ShiftStep(all, length, shifted, prev);
      grams := seq(|shifted|, i requires 0 <= i < |shifted| => prev[i] + " " + shifted[i]);
    }
  }

  /** Joining a non-empty word list is the first word, a space, and the rest joined. */
  lemma {:induction false} JoinFront(w: seq<string>)
    requires |w| >= 2
    ensures Join(w) == w[0] + " " + Join(w[1..])
    decreases |w|
  {
    if |w| > 2 {
      JoinFront(w[..|w| - 1]);
      assert w[..|w| - 1][1..] == w[1..][..|w| - 2];
    }
  }

  /** Splitting a joined list of non-empty, whitespace-free words gives the words back. */
  lemma {:induction false} SplitJoin(w: seq<string>)
    requires |w| >= 1
    requires forall k :: 0 <= k < |w| ==> w[k] != [] && NoSplitSpace(w[k])
    ensures SplitWs(Join(w)) == w
    decreases |w|
  {
    if |w| == 1 {
      assert FirstSplitSpace(w[0]) == |w[0]|;
    } else {
      var tail := w[1..];
      assert forall k :: 0 <= k < |tail| ==> tail[k] == w[k + 1];
      JoinFront(w);
      JoinStartsWithWord(tail);
      SplitAfterWord(w[0], Join(tail));
      SplitJoin(tail);
      assert w == [w[0]] + tail;
    }
  }

  /** A word, one space and a string that starts with a non-space split
      into the word and the pieces of that string. */
  lemma SplitAfterWord(x: string, rest: string)
    requires NoSplitSpace(x) && rest != [] && !IsSplitSpace(rest[0])
    ensures SplitWs(x + " " + rest) == [x] + SplitWs(rest)
  {
    var s := x + (" " + rest);
    assert x + " " + rest == s;
    FirstSpaceAfterWord(x, " " + rest);
    var i := |x|;
    assert s[i..] == " " + rest;
    assert LeadingSplitSpaces(s[i..]) == 1 by {
      assert (" " + rest)[1..] == rest;
    }
    assert s[i + 1..] == rest;
    assert s[..i] == x;
  }

  lemma {:induction false} FirstSpaceAfterWord(x: string, y: string)
    requires NoSplitSpace(x) && y != [] && IsSplitSpace(y[0])
    ensures FirstSplitSpace(x + y) == |x|
    decreases |x|
  {
    if x != [] {
      var s := x + y;
      assert s[0] == x[0] && !IsSplitSpace(s[0]);
      assert s[1..] == x[1..] + y;
      assert NoSplitSpace(x[1..]) by {
        forall i | 0 <= i < |x| - 1 ensures !IsSplitSpace(x[1..][i]) {
          assert x[1..][i] == x[i + 1];
        }
      }
      FirstSpaceAfterWord(x[1..], y);
    } else {
      assert x + y == y;
    }
  }

  lemma {:induction false} JoinStartsWithWord(w: seq<string>)
    requires |w| >= 1 && w[0] != [] && NoSplitSpace(w[0])
    ensures Join(w) != [] && Join(w)[0] == w[0][0]
    decreases |w|
  {
    if |w| >= 2 {
      JoinStartsWithWord(w[..|w| - 1]);
    }
  }

  /** The i-th n-gram is the i-th window of n tokens, joined. */
  lemma NGramAt(tokens: seq<string>, n: nat, i: nat)
    requires 1 <= n && i < |NGramList(tokens, n)|
    ensures i + n <= |tokens| && NGramList(tokens, n)[i] == Join(tokens[i..i + n])
  {
    if n == 1 {
      assert Join(tokens[i..i + 1]) == tokens[i];
    }
  }

  /** Each n-gram consists of n consecutive tokens: splitting the i-th n-gram
      again gives back tokens[i..i+n]. */
  lemma NGramIsWindow(sentence: string, caseSensitive: bool, n: nat, i: nat)
    requires 1 <= n <= MaxOrder && !AllSpace(sentence)
    requires i < |NGramList(Tokenize(sentence, caseSensitive), n)|
    ensures var tokens := Tokenize(sentence, caseSensitive);
      i + n <= |tokens| && SplitWs(NGramList(tokens, n)[i]) == tokens[i..i + n]
  {
    var tokens := Tokenize(sentence, caseSensitive);
    TokensHaveNoSpace(sentence, caseSensitive);
    TokenizeBlankIff(sentence, caseSensitive);
    NGramAt(tokens, n, i);
    var w := tokens[i..i + n];
    assert forall k :: 0 <= k < |w| ==> w[k] == tokens[i + k];
    SplitJoin(w);
  }

  /** The quirk of the shifted length test: three tokens give no trigrams,
      and five tokens give no 4-grams, although the windows exist. */
  lemma ShiftedLengthTest()
    ensures NGramList(["a", "b", "c"], 3) == []
    ensures NGramList(["a", "b", "c", "d", "e"], 4) == []
    ensures |NGramList(["a", "b", "c", "d"], 3)| == 2
  {
  }

  // ---------------------------------------------------------------------
  // Confirmed and unconfirmed n-grams
  // ---------------------------------------------------------------------

  /** The counter_fn argument of _set_operation. */
  datatype CounterFn = Min | Subtract

  function Apply(f: CounterFn, a: int, b: int): int {
    match f
    case Min => if a <= b then a else b
    case Subtract => a - b
  }

  function Count(s: seq<string>, x: string): nat {
    multiset(s)[x]
  }

  /** The keys of Counter(s), in first-occurrence order. */
  function Distinct(s: seq<string>): (d: seq<string>)
    ensures forall x :: x in d <==> x in s
    ensures forall i, j :: 0 <= i < j < |d| ==> d[i] != d[j]
  {
    if s == [] then []
    else
      var d := Distinct(s[..|s| - 1]);
      assert forall x :: x in s <==> x in s[..|s| - 1] || x == s[|s| - 1];
      if s[|s| - 1] in d then d else d + [s[|s| - 1]]
  }

  /** k copies of x; none when k is zero or negative, as range(k) in Python. */
  function Repeat(x: string, k: int): seq<string> {
    seq(if k < 0 then 0 else k, _ => x)
  }

  /** For each key in order, Apply(f, count in a, count in b) copies of it. */
  function Emit(keys: seq<string>, a: seq<string>, b: seq<string>, f: CounterFn): seq<string>
  {
    if keys == [] then []
    else
      var x := keys[|keys| - 1];
      Emit(keys[..|keys| - 1], a, b, f) + Repeat(x, Apply(f, Count(a, x), Count(b, x)))
  }

  /** What _set_operation(a, b, f) returns. */
  function SetOp(a: seq<string>, b: seq<string>, f: CounterFn): seq<string> {
    Emit(Distinct(a), a, b, f)
  }

  /** ConfirmedNGramsFinder._set_operation, with its two nested loops. */
  method SetOperation(a: seq<string>, b: seq<string>, f: CounterFn) returns (result: seq<string>)
    ensures result == SetOp(a, b, f)
  {
    var keys := Distinct(a);
    result := [];
    var k := 0;
    while k < |keys|
      invariant 0 <= k <= |keys|
      invariant result == Emit(keys[..k], a, b, f)
    {
      var ngram := keys[k];
      var times := Apply(f, Count(a, ngram), Count(b, ngram));
      var j := 0;
      ghost var before := result;
      while j < times
        invariant 0 <= j && (times >= 0 ==> j <= times) && (times < 0 ==> j == 0)
        invariant result == before + Repeat(ngram, j)
      {
        result := result + [ngram];
        j := j + 1;
      }
      assert Repeat(ngram, j) == Repeat(ngram, times);
      assert keys[..k + 1][..k] == keys[..k];
      k := k + 1;
    }
    assert keys[..k] == keys;
  }

  lemma {:induction false} EmitMultiplicity(keys: seq<string>, a: seq<string>, b: seq<string>, f: CounterFn, x: string)
    requires forall i, j :: 0 <= i < j < |keys| ==> keys[i] != keys[j]
    ensures multiset(Emit(keys, a, b, f))[x] ==
      if x in keys then (var t := Apply(f, Count(a, x), Count(b, x)); if t < 0 then 0 else t) else 0
    decreases |keys|
  {
    if keys != [] {
      var init := keys[..|keys| - 1];
      var y := keys[|keys| - 1];
      EmitMultiplicity(init, a, b, f, x);
      var t := Apply(f, Count(a, y), Count(b, y));
      var r := Repeat(y, t);
      assert multiset(r)[x] == if x == y then |r| else 0 by {
        RepeatMultiplicity(y, t, x);
      }
      assert x in keys <==> x in init || x == y;
      assert x == y ==> x !in init;
    }
  }

  lemma {:induction false} RepeatMultiplicity(y: string, t: int, x: string)
    ensures multiset(Repeat(y, t))[x] == if x == y then |Repeat(y, t)| else 0
    decreases if t < 0 then 0 else t
  {
    if t > 0 {
      assert Repeat(y, t) == Repeat(y, t - 1) + [y];
      RepeatMultiplicity(y, t - 1, x);
    } else {
      assert Repeat(y, t) == [];
    }
  }

  /** Each n-gram occurs in _set_operation(a, b, f) max(0, f(count in a, count in b))
      times when it occurs in a, and not at all otherwise. */
  lemma SetOpMultiplicity(a: seq<string>, b: seq<string>, f: CounterFn, x: string)
    ensures multiset(SetOp(a, b, f))[x] ==
      if x in a then (var t := Apply(f, Count(a, x), Count(b, x)); if t < 0 then 0 else t) else 0
  {
    EmitMultiplicity(Distinct(a), a, b, f, x);
  }

  function Lookup(m: map<int, seq<string>>, n: int): seq<string> {
    if n in m then m[n] else []
  }

  /** ConfirmedNGramsFinder.get_confirmed_ngrams. */
  function ConfirmedNGrams(reference: map<int, seq<string>>, translation: map<int, seq<string>>): (m: map<int, seq<string>>)
    ensures m.Keys == {1, 2, 3, 4}
  {
    map n | 1 <= n <= MaxOrder :: SetOp(Lookup(reference, n), Lookup(translation, n), Min)
  }

  /** ConfirmedNGramsFinder.get_unconfirmed_ngrams. */
  function UnconfirmedNGrams(reference: map<int, seq<string>>, translation: map<int, seq<string>>): (m: map<int, seq<string>>)
    ensures m.Keys == {1, 2, 3, 4}
  {
    map n | 1 <= n <= MaxOrder :: SetOp(Lookup(translation, n), Lookup(reference, n), Subtract)
  }

  /** A confirmed n-gram occurs min(reference count, translation count) times;
      an unconfirmed one max(0, translation count - reference count) times. */
  lemma ConfirmationCounts(reference: map<int, seq<string>>, translation: map<int, seq<string>>, n: int, x: string)
    requires 1 <= n <= MaxOrder
    ensures var r, t := Count(Lookup(reference, n), x), Count(Lookup(translation, n), x);
      && multiset(ConfirmedNGrams(reference, translation)[n])[x] == (if r <= t then r else t)
      && multiset(UnconfirmedNGrams(reference, translation)[n])[x] == (if t <= r then 0 else t - r)
  {
    var rs, ts := Lookup(reference, n), Lookup(translation, n);
    SetOpMultiplicity(rs, ts, Min, x);
    SetOpMultiplicity(ts, rs, Subtract, x);
  }

  /** What the two set operations keep of the translation's n-grams
      add up to all of them. */
  lemma SetOpPartition(rs: seq<string>, ts: seq<string>)
    ensures multiset(SetOp(rs, ts, Min)) + multiset(SetOp(ts, rs, Subtract)) == multiset(ts)
  {
    forall x
      ensures (multiset(SetOp(rs, ts, Min)) + multiset(SetOp(ts, rs, Subtract)))[x] == multiset(ts)[x]
    {
      SetOpMultiplicity(rs, ts, Min, x);
      SetOpMultiplicity(ts, rs, Subtract, x);
    }
  }

  /** Confirmed and unconfirmed n-grams together are exactly the translation's
      n-grams, as a multiset. */
  lemma ConfirmedUnconfirmedPartition(reference: map<int, seq<string>>, translation: map<int, seq<string>>, n: int)
    requires 1 <= n <= MaxOrder
    ensures multiset(ConfirmedNGrams(reference, translation)[n]) + multiset(UnconfirmedNGrams(reference, translation)[n])
      == multiset(Lookup(translation, n))
  {
    var rs, ts := Lookup(reference, n), Lookup(translation, n);
    assert ConfirmedNGrams(reference, translation)[n] == SetOp(rs, ts, Min);
    assert UnconfirmedNGrams(reference, translation)[n] == SetOp(ts, rs, Subtract);
    SetOpPartition(rs, ts);
  }
}
